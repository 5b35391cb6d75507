/** One node's claimer against etcd: its table of owned shards, and how it takes, checks and
    gives them up. The steps of Cluster are these operations cut at their etcd calls. */
module Claimer {
  import opened Cluster

  class Etcd {
    var rev: int
    var records: map<nat, Holder>

    constructor ()
      ensures rev == 0 && records == map[]
    {
      rev, records := 0, map[];
    }

    /** Puts the record if the key has no create revision. */
    method Create(node: nat, shard: nat) returns (created: bool)
      modifies this
      ensures created <==> shard !in old(records)
      ensures created ==> rev == old(rev) + 1 && records == old(records)[shard := Holder(node, rev)]
      ensures !created ==> rev == old(rev) && records == old(records)
    {
      created := shard !in records;
      if created {
        rev := rev + 1;
        records := records[shard := Holder(node, rev)];
      }
    }

    /** Deletes whatever record is there. */
    method Delete(shard: nat)
      modifies this
      ensures records == old(records) - {shard} && rev == old(rev) + if shard in old(records) then 1 else 0
    {
      if shard in records {
        rev := rev + 1;
        records := records - {shard};
      }
    }
  }

  /** The belief agrees with the record. */
  predicate Agrees(node: nat, records: map<nat, Holder>, shard: nat, epoch: int) {
    shard in records && records[shard] == Holder(node, epoch)
  }

  class Owner {
    const node: nat
    var owned: map<nat, int>

    constructor (node: nat)
      ensures this.node == node && owned == map[]
    {
      this.node, owned := node, map[];
    }

    /** Forgets the shard and leaves etcd alone. */
    method DropLocal(shard: nat)
      modifies this
      ensures owned == old(owned) - {shard}
    {
      if shard !in owned { return; }
      owned := owned - {shard};
    }

    /** Takes a free shard; when its start-up fails, the claim is rolled back. */
    method Claim(etcd: Etcd, shard: nat, lease: bool, started: bool) returns (ok: bool)
      modifies this, etcd
      ensures ok <==> lease && started && shard !in old(etcd.records)
      ensures ok ==> etcd.rev == old(etcd.rev) + 1
      ensures ok ==> etcd.records == old(etcd.records)[shard := Holder(node, etcd.rev)]
      ensures ok ==> owned == old(owned)[shard := etcd.rev]
      ensures !ok ==> etcd.records == old(etcd.records)
      ensures !ok ==> owned == if lease && shard !in old(etcd.records) then old(owned) - {shard} else old(owned)
      ensures old(etcd.rev) <= etcd.rev
    {
      if !lease { return false; }
      var created := etcd.Create(node, shard);
      if !created { return false; }
      owned := owned[shard := etcd.rev];
      if !started {
        DropLocal(shard);
        etcd.Delete(shard);
        return false;
      }
      return true;
    }

    /** Drops every belief that the snapshot of records does not confirm: the record is gone,
        is another node's, or was created again. */
    method Reconcile(taken: map<nat, Holder>)
      modifies this
      ensures forall s :: s in owned <==>
        s in old(owned) && s in taken && taken[s].node == node && taken[s].rev == old(owned)[s]
      ensures forall s <- owned :: owned[s] == old(owned)[s]
    {
      var stale: seq<nat>, left := [], owned.Keys;
      while left != {}
        invariant left <= owned.Keys && owned == old(owned)
        invariant forall s :: s in stale <==> s in owned.Keys - left && !Agrees(node, taken, s, owned[s])
        decreases left
      {
        var s :| s in left;
        left := left - {s};
        if s !in taken || taken[s].node != node || taken[s].rev != owned[s] { stale := stale + [s]; }
      }
      for i := 0 to |stale|
        invariant forall s :: s in owned <==> s in old(owned) && s !in stale[..i]
        invariant forall s <- owned :: owned[s] == old(owned)[s]
      {
        DropLocal(stale[i]);
        assert stale[..i + 1] == stale[..i] + [stale[i]];
      }
      assert stale[..|stale|] == stale;
    }

    /** Gives a shard up: first locally, then by deleting whatever record is there. */
    method Release(etcd: Etcd, shard: nat)
      modifies this, etcd
      ensures owned == old(owned) - {shard}
      ensures etcd.records == if shard in old(owned) then old(etcd.records) - {shard} else old(etcd.records)
      ensures old(etcd.rev) <= etcd.rev
    {
      if shard !in owned { return; }
      DropLocal(shard);
      etcd.Delete(shard);
    }

    /** After a refused write: the record, if any, is somebody else's and stays. */
    method Fence(shard: nat)
      modifies this
      ensures owned == old(owned) - {shard}
    {
      if shard !in owned { return; }
      DropLocal(shard);
    }
  }

  /** All beliefs of a claimer are current. */
  predicate Current(node: nat, records: map<nat, Holder>, owned: map<nat, int>) {
    forall s <- owned :: Agrees(node, records, s, owned[s])
  }

  /** Once two nodes have reconciled with the same records they share no shard. */
  lemma ReconciledNodesShareNothing(n1: nat, owned1: map<nat, int>, n2: nat, owned2: map<nat, int>,
                                    records: map<nat, Holder>)
    requires n1 != n2 && Current(n1, records, owned1) && Current(n2, records, owned2)
    ensures owned1.Keys !! owned2.Keys
  {
    forall s | s in owned1 ensures s !in owned2 {
      assert Agrees(n1, records, s, owned1[s]);
    }
  }
}
