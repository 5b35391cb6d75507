/** The Go clients of pkg/store/fencing.go and pkg/xtx/xtx.go, which pack KEYS and ARGV
    positionally, and the Lua scripts that unpack them in loops. Each client call is proved
    to perform exactly the transition that module Scripts states for it. */
module RedisServer {
  import opened Keyspace
  import opened Scripts
  import opened Effects

  /** `keys[at..]` enumerates the keys of kv once each and `argv[off..]` their values. */
  ghost predicate Packs(keys: seq<Key>, at: nat, argv: seq<Val>, off: nat, kv: map<Key, Val>) {
    && at <= |keys| && off <= |argv| && |keys| - at == |argv| - off
    && (forall i, j :: at <= i < j < |keys| ==> keys[i] != keys[j])
    && (forall i :: at <= i < |keys| ==> keys[i] in kv && kv[keys[i]] == argv[i - at + off])
    && (forall k <- kv :: k in keys[at..])
  }

  /** The client appends the pairs in whatever order the map yields them. */
  method PackKv(keys: seq<Key>, argv: seq<Val>, kv: map<Key, Val>) returns (ks: seq<Key>, vs: seq<Val>)
    ensures Packs(ks, |keys|, vs, |argv|, kv)
    ensures keys <= ks && argv <= vs
  {
    ks, vs := keys, argv;
    var rest := kv.Keys;
    while rest != {}
      invariant rest <= kv.Keys
      invariant Packs(ks, |keys|, vs, |argv|, kv - rest)
      invariant keys <= ks && argv <= vs
    {
      var k :| k in rest;
      ghost var before := ks;
      ks, vs, rest := ks + [k], vs + [kv[k]], rest - {k};
      assert forall x <- kv - rest :: x == k || x in before[|keys|..];
      assert ks[|keys|..] == before[|keys|..] + [k];
    }
    assert kv - rest == kv;
  }

  /** The pairs at positions at..i, paired by position. */
  ghost function Placed(keys: seq<Key>, at: nat, argv: seq<Val>, off: nat, i: nat): map<Key, Val>
    requires at <= i <= |keys| && |keys| - at == |argv| - off && off <= |argv|
  {
    if i == at then map[] else Placed(keys, at, argv, off, i - 1)[keys[i - 1] := argv[i - 1 - at + off]]
  }

  lemma {:induction false} PlacedIsPacked(keys: seq<Key>, at: nat, argv: seq<Val>, off: nat, kv: map<Key, Val>, i: nat)
    requires at <= i <= |keys| && |keys| - at == |argv| - off && off <= |argv|
    requires forall j :: at <= j < |keys| ==> keys[j] in kv && kv[keys[j]] == argv[j - at + off]
    ensures forall k <- Placed(keys, at, argv, off, i) :: k in kv && Placed(keys, at, argv, off, i)[k] == kv[k]
    ensures forall j :: at <= j < i ==> keys[j] in Placed(keys, at, argv, off, i)
  {
    if i > at { PlacedIsPacked(keys, at, argv, off, kv, i - 1); }
  }

  lemma AllPlaced(keys: seq<Key>, at: nat, argv: seq<Val>, off: nat, kv: map<Key, Val>)
    requires Packs(keys, at, argv, off, kv)
    ensures Placed(keys, at, argv, off, |keys|) == kv
  {
    PlacedIsPacked(keys, at, argv, off, kv, |keys|);
    forall k | k in kv ensures k in Placed(keys, at, argv, off, |keys|) {
      var j :| 0 <= j < |keys[at..]| && keys[at..][j] == k;
      assert keys[at + j] == k;
    }
  }

  lemma AddThenSet(a: map<Key, Val>, b: map<Key, Val>, k: Key, v: Val)
    ensures (a + b)[k := v] == a + b[k := v]
  {
  }

  /** The record as it is written. */
  function Filled(rec: Record, now: int): Record {
    rec.(state := if rec.state == Blank then Pending else rec.state,
         createdAt := if rec.createdAt == 0 then now else rec.createdAt)
  }

  lemma WithoutOne(db: Db, gone: set<Key>, k: Key)
    ensures Without(Without(db, gone), {k}) == Without(db, gone + {k})
  {
  }

  class Redis {
    var strs: map<Key, Val>
    var streams: map<Key, seq<Val>>
    var hashes: map<Key, map<string, Val>>
    var zsets: map<Key, map<Record, int>>

    ghost function State(): Db
      reads this
    {
      Db(strs, streams, hashes, zsets)
    }

    constructor ()
      ensures State() == Db(map[], map[], map[], map[])
    {
      strs, streams, hashes, zsets := map[], map[], map[], map[];
    }

    /** The scripts' loop over the data keys, which pairs keys and values by position. */
    method SetAll(keys: seq<Key>, at: nat, argv: seq<Val>, off: nat, ghost kv: map<Key, Val>)
      requires Packs(keys, at, argv, off, kv)
      modifies this`strs
      ensures strs == old(strs) + kv
    {
      for i := at to |keys|
        invariant strs == old(strs) + Placed(keys, at, argv, off, i)
      {
        AddThenSet(old(strs), Placed(keys, at, argv, off, i), keys[i], argv[i - at + off]);
        strs := strs[keys[i] := argv[i - at + off]];
      }
      AllPlaced(keys, at, argv, off, kv);
    }

    method RaiseEpoch(shard: nat, epoch: int) returns (reply: Reply)
      modifies this`strs
      ensures Outcome(State(), reply) == Exec(old(State()), Request.RaiseEpoch(shard, epoch))
      ensures reply.Applied? <==> EpochOf(old(State()), shard) < epoch
      ensures reply.Applied? ==> Reads(old(State()), State(), map[Epoch(shard) := Num(epoch)], map[])
    {
      RaiseWritesExactly(State(), shard, epoch);
      var cur := Counter(strs, Epoch(shard));
      if cur >= epoch { return Fenced; }
      strs := strs[Epoch(shard) := Num(epoch)];
      reply := Applied(Num(epoch));
    }

    method WriteModules(shard: nat, epoch: int, kv: map<Key, Val>) returns (reply: Reply)
      modifies this`strs
      ensures Outcome(State(), reply) == Exec(old(State()), Request.WriteModules(shard, epoch, kv))
      ensures reply.Applied? <==> kv != map[] && EpochOf(old(State()), shard) <= epoch
      ensures reply.Applied? ==> Reads(old(State()), State(), kv, map[])
    {
      ModulesWriteExactly(State(), shard, epoch, kv);
      if kv == map[] { return Skipped; }
      var keys, argv := PackKv([Epoch(shard)], [Num(epoch)], kv);
      assert keys[0] == [Epoch(shard)][0] && argv[0] == [Num(epoch)][0];
      if Counter(strs, keys[0]) > Number(argv[0]) { return Fenced; }
      SetAll(keys, 1, argv, 1, kv);
      reply := Applied(Num(1));
    }

    method WriteThrough(shard: nat, epoch: int, order: Key, ttl: int, payload: Val, kv: map<Key, Val>)
      returns (reply: Reply)
      modifies this`strs
      ensures Outcome(State(), reply)
           == Exec(old(State()), Request.WriteThrough(shard, epoch, order, payload, kv))
      ensures reply.Applied? <==> order !in old(strs) && EpochOf(old(State()), shard) <= epoch
      ensures reply.Applied? ==> Reads(old(State()), State(), kv, map[order := payload])
    {
      ThroughWritesExactly(State(), shard, epoch, order, payload, kv);
      ghost var k0, a0 := [Epoch(shard), order], [Num(epoch), Num(ttl), payload];
      var keys, argv := PackKv([Epoch(shard), order], [Num(epoch), Num(ttl), payload], kv);
      assert keys[..2] == k0 && argv[..3] == a0;
      assert keys[0] == k0[0] && keys[1] == k0[1] && argv[0] == a0[0] && argv[2] == a0[2];
      if keys[1] in strs { return Duplicate(strs[keys[1]]); }
      if Counter(strs, keys[0]) > Number(argv[0]) { return Fenced; }
      strs := strs[keys[1] := argv[2]];
      SetAll(keys, 2, argv, 3, kv);
      reply := Applied(argv[2]);
    }

    method Delete(shard: nat, epoch: int, doomed: seq<Key>) returns (reply: Reply)
      modifies this
      ensures Outcome(State(), reply) == Exec(old(State()), Request.Delete(shard, epoch, doomed))
      ensures reply.Applied? <==> doomed != [] && EpochOf(old(State()), shard) <= epoch
      ensures reply.Applied? ==> forall k: Key ::
        if k in doomed then Nowhere(State(), k) else SameEverywhere(old(State()), State(), k)
    {
      DeleteRemovesExactly(State(), shard, epoch, doomed);
      if doomed == [] { return Skipped; }
      var keys := [Epoch(shard)] + doomed;
      if Counter(strs, keys[0]) > epoch { return Fenced; }
      ghost var gone: set<Key> := {};
      for i := 1 to |keys|
        invariant State() == Without(old(State()), gone)
        invariant forall k :: k in gone <==> k in doomed[..i - 1]
      {
        WithoutOne(old(State()), gone, keys[i]);
        strs, streams, hashes, zsets := strs - {keys[i]}, streams - {keys[i]}, hashes - {keys[i]}, zsets - {keys[i]};
        gone := gone + {keys[i]};
        assert doomed[..i] == doomed[..i - 1] + [keys[i]];
      }
      assert doomed[..|keys| - 1] == doomed && gone == set k | k in doomed;
      reply := Applied(Num(1));
    }

    /** The script's loop over the ledger entries, which start at the sixth argument. */
    method AppendAll(key: Key, argv: seq<Val>, n: nat, ghost entries: seq<Val>)
      requires n == |entries| && |argv| >= 5 + n && argv[5..5 + n] == entries
      modifies this`streams
      ensures streams == if entries == [] then old(streams)
        else old(streams)[key := StreamOf(old(streams), key) + entries]
    {
      ghost var was := StreamOf(streams, key);
      for i := 0 to n
        invariant streams == if i == 0 then old(streams) else old(streams)[key := was + entries[..i]]
      {
        assert argv[5 + i] == argv[5..5 + n][i] && StreamOf(streams, key) == was + entries[..i];
        assert was + entries[..i + 1] == was + entries[..i] + [argv[5 + i]];
        streams := streams[key := StreamOf(streams, key) + [argv[5 + i]]];
      }
      assert entries[..n] == entries;
    }

    /** The script of a money commit over raw KEYS and ARGV. */
    method EvalCommit(keys: seq<Key>, argv: seq<Val>, ghost req: CommitReq)
      returns (status: int, payload: Val)
      requires |argv| >= 5 + |req.entries| && argv[4] == Num(|req.entries|)
      requires argv[5..5 + |req.entries|] == req.entries
      requires Packs(keys, 3, argv, 5 + |req.entries|, req.kv)
      modifies this`strs, this`streams
      ensures var useIdem := Number(argv[1]) > 0;
        if useIdem && keys[1] in old(strs) then
          status == 2 && payload == old(strs)[keys[1]] && State() == old(State())
        else if Counter(old(strs), keys[0]) > Number(argv[0]) then
          status == 0 && State() == old(State())
        else
          && status == 1 && payload == argv[2]
          && strs == (if useIdem then old(strs)[keys[1] := argv[2]] else old(strs)) + req.kv
          && streams == if req.entries == [] then old(streams)
             else old(streams)[keys[2] := StreamOf(old(streams), keys[2]) + req.entries]
    {
      var useIdem := Number(argv[1]) > 0;
      if useIdem && keys[1] in strs { return 2, strs[keys[1]]; }
      if Counter(strs, keys[0]) > Number(argv[0]) { return 0, Raw(""); }
      if useIdem { strs := strs[keys[1] := argv[2]]; }
      var n := Number(argv[4]);
      AppendAll(keys[2], argv, n, req.entries);
      SetAll(keys, 3, argv, 5 + n, req.kv);
      status, payload := 1, argv[2];
    }

    /** Three fixed keys, five fixed arguments, then the entries, then the pairs. */
    method PackCommit(req: CommitReq, idemKey: Key, idemTtl: int, ledgerKey: Key)
      returns (keys: seq<Key>, argv: seq<Val>)
      ensures Packs(keys, 3, argv, 5 + |req.entries|, req.kv)
      ensures keys[..3] == [Epoch(req.shard), idemKey, ledgerKey]
      ensures argv[..5] == [Num(req.epoch), Num(idemTtl), req.payload, Num(req.maxLen), Num(|req.entries|)]
      ensures argv[5..5 + |req.entries|] == req.entries
    {
      var head := [Epoch(req.shard), idemKey, ledgerKey];
      argv := [Num(req.epoch), Num(idemTtl), req.payload, Num(req.maxLen), Num(|req.entries|)];
      ghost var fixed := argv;
      for i := 0 to |req.entries|
        invariant argv == fixed + req.entries[..i]
      {
        argv := argv + [req.entries[i]];
      }
      assert req.entries[..|req.entries|] == req.entries;
      ghost var front := argv;
      keys, argv := PackKv(head, argv, req.kv);
      assert argv[..|front|] == front && keys[..3] == head;
      assert argv[5..5 + |req.entries|] == front[5..] && argv[..5] == front[..5];
    }

    /** Packing a commit and running its script appends the given entries in order and sets
        the given pairs, whatever the number of either and whatever order the map yields. */
    method Commit(req: CommitReq) returns (reply: Reply)
      modifies this`strs, this`streams
      ensures Outcome(State(), reply) == Exec(old(State()), Request.Commit(req))
      ensures reply.Applied? <==>
        WellNamed(req) && !Used(old(State()), req) && EpochOf(old(State()), req.shard) <= req.epoch
      ensures reply.Applied? ==> Appends(old(State()), State(), req.ledgerKey, req.entries)
      ensures reply.Applied? ==> Reads(old(State()), State(), req.kv, Mark(req))
    {
      CommitAnswers(State(), req);
      reply := SendCommit(req);
      if reply.Applied? { CommitWritesExactly(old(State()), req); }
    }

    method SendCommit(req: CommitReq) returns (reply: Reply)
      modifies this`strs, this`streams
      ensures Outcome(State(), reply) == Exec(old(State()), Request.Commit(req))
    {
      if req.ledgerKey.None? && req.entries != [] { return Invalid; }
      var ledgerKey := if req.ledgerKey.None? then Epoch(req.shard) else req.ledgerKey.value;
      var idemKey, idemTtl := Epoch(req.shard), 0;
      if req.idemKey.Some? { idemKey, idemTtl := req.idemKey.value, req.idemTtl; }

      var keys, argv := PackCommit(req, idemKey, idemTtl, ledgerKey);
      assert keys[0] == keys[..3][0] && keys[1] == keys[..3][1] && keys[2] == keys[..3][2];
      assert argv[0] == argv[..5][0] && argv[1] == argv[..5][1] && argv[2] == argv[..5][2] && argv[4] == argv[..5][4];
      var status, payload := EvalCommit(keys, argv, req);
      reply := match status
        case 1 => Applied(payload)
        case 2 => Duplicate(payload)
        case _ => Fenced;
    }

    /** A transaction id of zero stands for the empty one; a blank state and a missing time are
        filled in before the record is written. */
    method Begin(epoch: int, raw: Record, now: int, ttl: int, kv: map<Key, Val>) returns (reply: Reply)
      modifies this`strs, this`zsets
      ensures raw.txid == 0 ==> reply == Invalid && State() == old(State())
      ensures raw.txid != 0 ==>
        Outcome(State(), reply) == Exec(old(State()), Request.Begin(epoch, Filled(raw, now), kv))
      ensures reply.Applied? ==>
        var rec := raw.(state := if raw.state.Blank? then Pending else raw.state,
                        createdAt := if raw.createdAt == 0 then now else raw.createdAt);
        && Reads(old(State()), State(), kv, map[Tx(raw.fromShard, raw.txid) := TxJson(rec)])
        && Reindexes(old(State()), State(), TxPending(raw.fromShard), {}, map[rec := rec.createdAt])
    {
      if raw.txid == 0 { return Invalid; }
      var rec := raw;
      if rec.state == Blank { rec := rec.(state := Pending); }
      if rec.createdAt == 0 { rec := rec.(createdAt := now); }
      reply := SendBegin(epoch, rec, ttl, kv);
    }

    method SendBegin(epoch: int, rec: Record, ttl: int, kv: map<Key, Val>) returns (reply: Reply)
      modifies this`strs, this`zsets
      ensures Outcome(State(), reply) == Exec(old(State()), Request.Begin(epoch, rec, kv))
      ensures reply.Applied? ==> Reads(old(State()), State(), kv, map[Tx(rec.fromShard, rec.txid) := TxJson(rec)])
      ensures reply.Applied? ==>
        Reindexes(old(State()), State(), TxPending(rec.fromShard), {}, map[rec := rec.createdAt])
    {
      BeginWritesExactly(State(), epoch, rec, kv);
      ghost var k0 := [Epoch(rec.fromShard), Tx(rec.fromShard, rec.txid), TxPending(rec.fromShard)];
      ghost var a0 := [Num(epoch), TxJson(rec), Num(rec.createdAt), Num(ttl)];
      var keys, argv := PackKv(
        [Epoch(rec.fromShard), Tx(rec.fromShard, rec.txid), TxPending(rec.fromShard)],
        [Num(epoch), TxJson(rec), Num(rec.createdAt), Num(ttl)], kv);
      assert forall i | 0 <= i < 3 :: keys[i] == k0[i];
      assert forall i | 0 <= i < 4 :: argv[i] == a0[i];
      if keys[1] in strs { return Duplicate(Num(2)); }
      if Counter(strs, keys[0]) > Number(argv[0]) { return Fenced; }
      strs := strs[keys[1] := argv[1]];
      zsets := zsets[keys[2] := ZsetOf(zsets, keys[2])[argv[1].rec := Number(argv[2])]];
      SetAll(keys, 3, argv, 4, kv);
      reply := Applied(Num(1));
    }

    method Claim(epoch: int, rec: Record, ttl: int, kv: map<Key, Val>) returns (reply: Reply)
      modifies this`strs
      ensures Outcome(State(), reply) == Exec(old(State()), Request.Claim(epoch, rec, kv))
      ensures reply.Applied? ==> Reads(old(State()), State(), kv, map[TxDone(rec.toShard, rec.txid) := Num(epoch)])
    {
      ClaimWritesExactly(State(), epoch, rec, kv);
      ghost var k0, a0 := [Epoch(rec.toShard), TxDone(rec.toShard, rec.txid)], [Num(epoch), Num(ttl)];
      var keys, argv := PackKv([Epoch(rec.toShard), TxDone(rec.toShard, rec.txid)], [Num(epoch), Num(ttl)], kv);
      assert forall i | 0 <= i < 2 :: keys[i] == k0[i] && argv[i] == a0[i];
      if keys[1] in strs { return Duplicate(Num(2)); }
      strs := strs[keys[1] := argv[0]];
      if Counter(strs, keys[0]) > Number(argv[0]) {
        strs := strs - {keys[1]};
        assert strs == old(strs);
        return Fenced;
      }
      SetAll(keys, 2, argv, 2, kv);
      reply := Applied(Num(1));
    }

    method Complete(rec: Record, doneAt: int)
      modifies this`strs, this`zsets
      ensures State() == CompleteEffect(old(State()), rec, doneAt)
      ensures var tx := Tx(rec.fromShard, rec.txid);
        && Reads(old(State()), State(), map[tx := TxJson(rec.(state := Completed, doneAt := doneAt))], map[])
        && Reindexes(old(State()), State(), TxPending(rec.fromShard), {rec} + StoredRecord(old(State()), tx), map[])
    {
      CompleteWritesExactly(State(), rec, doneAt);
      var tx, pending := Tx(rec.fromShard, rec.txid), TxPending(rec.fromShard);
      var index := ZsetOf(zsets, pending);
      if tx in strs && strs[tx].TxJson? { index := index - {strs[tx].rec}; }
      index := index - {rec};
      zsets := zsets[pending := index];
      strs := strs[tx := TxJson(rec.(state := Completed, doneAt := doneAt))];
      assert ZsetOf(old(zsets), pending) - {} == ZsetOf(old(zsets), pending);
    }
  }
}
