/** Shard ownership and fencing: etcd claim records, each node's local belief about what it
    owns, the epochs kept in Redis, and writes that may be delayed, reordered or repeated
    without bound (pkg/shard/claim.go, pkg/shardsvc/service.go, pkg/store/fencing.go). */
module Cluster {
  import opened Keyspace
  import opened Scripts

  /** The etcd record of a shard; rev is its CreateRevision, used as the owner's epoch. */
  datatype Holder = Holder(node: nat, rev: int)

  /** A successful claim transaction. */
  datatype Tenure = Tenure(shard: nat, epoch: int, node: nat)

  datatype State = State(
    space: nat,
    rev: int,                       // etcd's global revision
    records: map<nat, Holder>,      // at most one record per shard
    owned: map<(nat, nat), int>,    // (node, shard) to the epoch the node believes it holds
    tenures: set<Tenure>,           // every claim that ever succeeded
    db: Db,
    raised: set<(nat, int)>,        // every (shard, epoch) whose raise was accepted
    net: set<Request>)              // requests sent by owners; delivered any number of times

  datatype Step =
    | Claim(node: nat, shard: nat)
    | RemoveRecord(shard: nat)      // lease expiry, Release, or the rollback of a failed claim
    | DropLocal(node: nat, shard: nat)
    | Raise(tenure: Tenure)
    | Send(req: Request)
    | Deliver(req: Request)
    | Complete(rec: Record, doneAt: int)
    | Requeue(rec: Record, now: int)

  /** A request may be sent only by an owner that has raised its epoch, and touches only
      data of that owner's shard. */
  predicate Sendable(s: State, req: Request)
    requires s.space > 0
  {
    && !req.RaiseEpoch? && Proper(req)
    && (req.Target(), req.CallerEpoch()) in s.raised
    && (forall k <- req.Touched() :: ShardOf(k, s.space) == req.Target())
  }

  predicate Enabled(s: State, step: Step)
    requires s.space > 0
  {
    match step
    case Claim(_, shard) => shard !in s.records
    case RemoveRecord(shard) => shard in s.records
    case DropLocal(node, shard) => (node, shard) in s.owned
    case Raise(tenure) => tenure in s.tenures
    case Send(req) => Sendable(s, req)
    case Deliver(req) => req in s.net
    case Complete(_, _) => true
    case Requeue(_, _) => true
  }

  function Apply(s: State, step: Step): (t: State)
    requires s.space > 0 && Enabled(s, step)
    ensures t.space == s.space
  {
    match step
    case Claim(node, shard) =>
      var epoch := s.rev + 1;
      s.(rev := epoch, records := s.records[shard := Holder(node, epoch)],
         owned := s.owned[(node, shard) := epoch],
         tenures := s.tenures + {Tenure(shard, epoch, node)})
    case RemoveRecord(shard) => s.(rev := s.rev + 1, records := s.records - {shard})
    case DropLocal(node, shard) => s.(owned := s.owned - {(node, shard)})
    case Raise(t) =>
      var o := Exec(s.db, RaiseEpoch(t.shard, t.epoch));
      s.(db := o.db, raised := if o.reply.Applied? then s.raised + {(t.shard, t.epoch)} else s.raised)
    case Send(req) => s.(net := s.net + {req})
    case Deliver(req) => s.(db := Exec(s.db, req).db)
    case Complete(rec, doneAt) => s.(db := CompleteEffect(s.db, rec, doneAt))
    case Requeue(rec, now) => s.(db := RequeueSet(RequeueAdd(RequeueRemove(s.db, rec), rec, now), rec))
  }

  /** A cluster that has not claimed anything yet; the data may be arbitrary. */
  predicate Init(s: State) {
    && s.space > 0 && s.rev >= 0 && s.records == map[] && s.owned == map[] && s.tenures == {}
    && s.raised == {} && s.net == {} && (forall k <- s.db.strs :: !k.Epoch?)
  }

  predicate IsRun(s: State, steps: seq<Step>)
    requires s.space > 0
    decreases |steps|
  {
    steps == [] || (Enabled(s, steps[0]) && IsRun(Apply(s, steps[0]), steps[1..]))
  }

  function Final(s: State, steps: seq<Step>): (t: State)
    requires s.space > 0 && IsRun(s, steps)
    ensures t.space == s.space
    decreases |steps|
  {
    if steps == [] then s else Final(Apply(s, steps[0]), steps[1..])
  }

  // ------------------------------------------------------------------------------------
  // Invariants
  // ------------------------------------------------------------------------------------

  predicate ClaimsAreUnique(s: State) {
    && (forall t <- s.tenures :: 0 < t.epoch <= s.rev)
    && (forall t <- s.tenures, u <- s.tenures :: t.epoch == u.epoch ==> t == u)
  }

  predicate BeliefsAreTenures(s: State) {
    forall k <- s.owned :: Tenure(k.1, s.owned[k], k.0) in s.tenures
  }

  /** The current record belongs to the latest tenure of its shard. */
  predicate RecordsAreLatest(s: State) {
    && s.rev >= 0
    && (forall sh <- s.records :: Tenure(sh, s.records[sh].rev, s.records[sh].node) in s.tenures)
    && (forall sh <- s.records, t <- s.tenures :: t.shard == sh ==> t.epoch <= s.records[sh].rev)
  }

  /** Redis holds, for every shard, the highest epoch ever raised for it. */
  ghost predicate EpochsAreHighest(s: State) {
    && (forall r <- s.raised :: r.1 <= EpochOf(s.db, r.0))
    && (forall sh: nat :: EpochOf(s.db, sh) == 0 || (sh, EpochOf(s.db, sh)) in s.raised)
  }

  predicate SendersHaveRaised(s: State) {
    && s.space > 0
    && (forall req <- s.net :: Sendable(s, req))
  }

  ghost predicate Inv(s: State) {
    ClaimsAreUnique(s) && BeliefsAreTenures(s) && RecordsAreLatest(s) && EpochsAreHighest(s) && SendersHaveRaised(s)
  }

  lemma InitKeepsInv(s: State)
    requires Init(s)
    ensures Inv(s)
  {
  }

  /** Claiming, losing and dropping a shard. */
  lemma StepKeepsClaims(s: State, step: Step)
    requires s.space > 0 && Enabled(s, step) && ClaimsAreUnique(s) && s.rev >= 0
    ensures ClaimsAreUnique(Apply(s, step))
  {
    if step.Claim? {
      var newest := Tenure(step.shard, s.rev + 1, step.node);
      assert forall t <- Apply(s, step).tenures :: t == newest || t in s.tenures;
    }
  }

  lemma StepKeepsBeliefs(s: State, step: Step)
    requires s.space > 0 && Enabled(s, step) && BeliefsAreTenures(s)
    ensures BeliefsAreTenures(Apply(s, step))
  {
    assert s.tenures <= Apply(s, step).tenures;
  }

  lemma StepKeepsRecords(s: State, step: Step)
    requires s.space > 0 && Enabled(s, step) && ClaimsAreUnique(s) && RecordsAreLatest(s)
    ensures RecordsAreLatest(Apply(s, step))
  {
    var t := Apply(s, step);
    assert s.tenures <= t.tenures;
    if step.Claim? {
      assert forall u <- t.tenures :: u == Tenure(step.shard, s.rev + 1, step.node) || u in s.tenures;
    }
  }

  lemma StepKeepsOwnership(s: State, step: Step)
    requires Inv(s) && Enabled(s, step)
    ensures var t := Apply(s, step); ClaimsAreUnique(t) && BeliefsAreTenures(t) && RecordsAreLatest(t)
  {
    StepKeepsClaims(s, step);
    StepKeepsBeliefs(s, step);
    StepKeepsRecords(s, step);
  }

  /** How a step moves the epoch of a shard: only an accepted raise does. */
  lemma EpochAfterStep(s: State, step: Step, sh: nat)
    requires Inv(s) && Enabled(s, step)
    ensures var t := Apply(s, step);
      EpochOf(t.db, sh) == EpochOf(s.db, sh)
      || (step.Raise? && step.tenure.shard == sh && EpochOf(s.db, sh) < EpochOf(t.db, sh) == step.tenure.epoch
          && t.raised == s.raised + {(sh, step.tenure.epoch)})
  {
    if step.Deliver? {
      assert Sendable(s, step.req);
      EpochsOnlyRise(s.db, step.req, sh);
    }
  }

  lemma StepKeepsFencing(s: State, step: Step)
    requires Inv(s) && Enabled(s, step)
    ensures EpochsAreHighest(Apply(s, step)) && SendersHaveRaised(Apply(s, step))
  {
    var t := Apply(s, step);
    assert s.raised <= t.raised;
    forall r | r in t.raised ensures r.1 <= EpochOf(t.db, r.0) {
      EpochAfterStep(s, step, r.0);
      assert r in s.raised || step.Raise?;
    }
    forall sh: nat ensures EpochOf(t.db, sh) == 0 || (sh, EpochOf(t.db, sh)) in t.raised {
      EpochAfterStep(s, step, sh);
    }
    forall req | req in t.net ensures Sendable(t, req) {
      assert Sendable(s, req);
    }
  }

  lemma {:induction false} RunKeepsInv(s: State, steps: seq<Step>)
    requires Inv(s) && IsRun(s, steps)
    ensures Inv(Final(s, steps))
    decreases |steps|
  {
    if steps != [] {
      StepKeepsOwnership(s, steps[0]);
      StepKeepsFencing(s, steps[0]);
      RunKeepsInv(Apply(s, steps[0]), steps[1..]);
    }
  }

  // ------------------------------------------------------------------------------------
  // Theorems
  // ------------------------------------------------------------------------------------

  /** In every run, an accepted fenced write carries exactly the highest epoch ever raised
      for its shard. */
  lemma AcceptedWritesCarryHighestEpoch(s: State, steps: seq<Step>, req: Request)
    requires Init(s) && IsRun(s, steps)
    requires req in Final(s, steps).net && Exec(Final(s, steps).db, req).reply.Applied?
    ensures var t := Final(s, steps); var e := req.CallerEpoch();
      && (req.Target(), e) in t.raised && EpochOf(t.db, req.Target()) == e
      && (forall r <- t.raised :: r.0 == req.Target() ==> r.1 <= e)
  {
    InitKeepsInv(s);
    RunKeepsInv(s, steps);
    assert Sendable(Final(s, steps), req);
    assert EpochOf(Final(s, steps).db, req.Target()) <= req.CallerEpoch();
  }

  /** Both states hold the same data for a shard. */
  ghost predicate SameData(a: Db, b: Db, shard: nat, space: nat)
    requires space > 0
  {
    forall k: Key :: IsData(k) && ShardOf(k, space) == shard ==> SameAt(a, b, k)
  }

  /** The step delivers a write of an owner at least as recent as `epoch`. */
  predicate WritesAtOrAbove(step: Step, shard: nat, epoch: int) {
    step.Deliver? && step.req.Target() == shard && step.req.CallerEpoch() >= epoch
  }

  lemma DeliveryKeepsKey(s: State, req: Request, k: Key)
    requires s.space > 0 && Sendable(s, req) && IsData(k)
    requires ShardOf(k, s.space) == req.Target() ==> req.CallerEpoch() < EpochOf(s.db, req.Target())
    ensures SameAt(s.db, Exec(s.db, req).db, k)
  {
    if ShardOf(k, s.space) == req.Target() {
      StaleIsRefused(s.db, req);
    } else {
      UntouchedDataIsKept(s.db, req, k);
    }
  }

  lemma StepKeepsData(s: State, step: Step, shard: nat)
    requires Inv(s) && Enabled(s, step)
    requires !WritesAtOrAbove(step, shard, EpochOf(s.db, shard))
    ensures SameData(s.db, Apply(s, step).db, shard, s.space)
  {
    forall k: Key | IsData(k) && ShardOf(k, s.space) == shard
      ensures SameAt(s.db, Apply(s, step).db, k)
    {
      if step.Deliver? {
        DeliveryKeepsKey(s, step.req, k);
      }
    }
  }

  /** Once an epoch is raised, no write, delete, commit, Begin or Claim sent under a lower
      epoch ever changes that shard's data again, however late it arrives. */
  lemma {:induction false} LateWritesChangeNothing(s: State, steps: seq<Step>, shard: nat, epoch: int)
    requires Inv(s) && IsRun(s, steps) && epoch <= EpochOf(s.db, shard)
    requires forall step <- steps :: !WritesAtOrAbove(step, shard, epoch)
    ensures SameData(s.db, Final(s, steps).db, shard, s.space)
    decreases |steps|
  {
    if steps != [] {
      var t := Apply(s, steps[0]);
      assert !WritesAtOrAbove(steps[0], shard, epoch);
      StepKeepsData(s, steps[0], shard);
      EpochAfterStep(s, steps[0], shard);
      StepKeepsOwnership(s, steps[0]);
      StepKeepsFencing(s, steps[0]);
      LateWritesChangeNothing(t, steps[1..], shard, epoch);
    }
  }

  /** Two nodes that both believe they own a shard hold different epochs, and at most one of
      them holds the epoch of the shard's current record, whatever was deleted meanwhile. */
  lemma BeliefsNeverShareAnEpoch(s: State, steps: seq<Step>, n1: nat, n2: nat, shard: nat)
    requires Init(s) && IsRun(s, steps) && n1 != n2
    requires (n1, shard) in Final(s, steps).owned && (n2, shard) in Final(s, steps).owned
    ensures var t := Final(s, steps);
      && t.owned[(n1, shard)] != t.owned[(n2, shard)]
      && (shard in t.records && t.owned[(n1, shard)] == t.records[shard].rev
          ==> t.records[shard].node == n1 && t.owned[(n2, shard)] < t.records[shard].rev)
  {
    InitKeepsInv(s);
    RunKeepsInv(s, steps);
    var t := Final(s, steps);
    assert Tenure(shard, t.owned[(n1, shard)], n1) in t.tenures;
    assert Tenure(shard, t.owned[(n2, shard)], n2) in t.tenures;
  }

  lemma {:induction false} TenuresGrow(s: State, steps: seq<Step>)
    requires s.space > 0 && IsRun(s, steps)
    ensures s.tenures <= Final(s, steps).tenures
    decreases |steps|
  {
    if steps != [] { TenuresGrow(Apply(s, steps[0]), steps[1..]); }
  }

  /** Successive records of a shard carry strictly increasing epochs. */
  lemma RecordEpochsIncrease(s: State, steps: seq<Step>, shard: nat)
    requires Inv(s) && IsRun(s, steps)
    requires shard in s.records && shard in Final(s, steps).records
    requires s.records[shard] != Final(s, steps).records[shard]
    ensures s.records[shard].rev < Final(s, steps).records[shard].rev
  {
    RunKeepsInv(s, steps);
    TenuresGrow(s, steps);
    var before, after := s.records[shard], Final(s, steps).records[shard];
    var t := Final(s, steps);
    assert Tenure(shard, before.rev, before.node) in t.tenures;
    assert Tenure(shard, after.rev, after.node) in t.tenures;
  }

  // ------------------------------------------------------------------------------------
  // Fencing never shuts out the newest owner
  // ------------------------------------------------------------------------------------

  /** No epoch was raised that etcd has not handed out. */
  predicate RaisedAreKnown(s: State) {
    forall r <- s.raised :: r.1 <= s.rev
  }

  lemma {:induction false} RunKeepsRaisedKnown(s: State, steps: seq<Step>)
    requires Inv(s) && RaisedAreKnown(s) && IsRun(s, steps)
    ensures RaisedAreKnown(Final(s, steps))
    decreases |steps|
  {
    if steps != [] {
      StepKeepsOwnership(s, steps[0]);
      StepKeepsFencing(s, steps[0]);
      RunKeepsRaisedKnown(Apply(s, steps[0]), steps[1..]);
    }
  }

  /** The steps of a node that takes a shard over and writes. */
  function Takeover(s: State, node: nat, shard: nat, kv: map<Key, Val>): seq<Step> {
    var req := WriteModules(shard, s.rev + 1, kv);
    [Step.Claim(node, shard), Raise(Tenure(shard, s.rev + 1, node)), Send(req), Deliver(req)]
  }

  /** The node has claimed the shard and raised its epoch. */
  predicate Installed(s: State, t: State, node: nat, shard: nat) {
    && t.space == s.space && (shard, s.rev + 1) in t.raised && t.owned == s.owned[(node, shard) := s.rev + 1]
    && t.records == s.records[shard := Holder(node, s.rev + 1)]
    && t.db == s.db.(strs := s.db.strs[Epoch(shard) := Num(s.rev + 1)])
  }

  lemma ClaimThenRaise(s: State, node: nat, shard: nat)
    requires Inv(s) && RaisedAreKnown(s) && shard !in s.records
    ensures Enabled(s, Step.Claim(node, shard))
    ensures var t := Apply(s, Step.Claim(node, shard)); var raise := Raise(Tenure(shard, s.rev + 1, node));
      Enabled(t, raise) && Installed(s, Apply(t, raise), node, shard)
  {
    assert EpochOf(s.db, shard) <= s.rev;
  }

  lemma SendThenDeliver(t: State, shard: nat, epoch: int, kv: map<Key, Val>)
    requires t.space > 0 && (shard, epoch) in t.raised && EpochOf(t.db, shard) == epoch && kv != map[]
    requires forall k <- kv :: IsData(k) && ShardOf(k, t.space) == shard
    ensures var req := WriteModules(shard, epoch, kv);
      && Enabled(t, Send(req)) && Enabled(Apply(t, Send(req)), Deliver(req))
      && var u := Apply(Apply(t, Send(req)), Deliver(req)); u == t.(net := u.net, db := t.db.(strs := t.db.strs + kv))
  {
  }

  /** The node owns the shard and what it wrote is stored; nothing else but the epoch has changed. */
  predicate TookOver(s: State, t: State, node: nat, shard: nat, kv: map<Key, Val>) {
    && t.owned == s.owned[(node, shard) := s.rev + 1] && t.records == s.records[shard := Holder(node, s.rev + 1)]
    && t.db == s.db.(strs := s.db.strs[Epoch(shard) := Num(s.rev + 1)] + kv)
  }

  lemma TakeoverRuns(s: State, node: nat, shard: nat, kv: map<Key, Val>)
    requires Inv(s) && RaisedAreKnown(s) && shard !in s.records && kv != map[]
    requires forall k <- kv :: IsData(k) && ShardOf(k, s.space) == shard
    ensures IsRun(s, Takeover(s, node, shard, kv))
    ensures TookOver(s, Final(s, Takeover(s, node, shard, kv)), node, shard, kv)
  {
    ClaimThenRaise(s, node, shard);
    var claim, raise := Step.Claim(node, shard), Raise(Tenure(shard, s.rev + 1, node));
    var c := Apply(s, claim);
    var t := Apply(c, raise);
    TwoMoreSteps(s, [], claim, raise, c, t);
    var first := [] + [claim] + [raise];
    WriteRuns(s, first, t, shard, s.rev + 1, kv);
    var req := WriteModules(shard, s.rev + 1, kv);
    assert first + [Send(req)] + [Deliver(req)] == Takeover(s, node, shard, kv);
  }

  lemma WriteRuns(s: State, steps: seq<Step>, t: State, shard: nat, epoch: int, kv: map<Key, Val>)
    requires s.space > 0 && IsRun(s, steps) && Final(s, steps) == t
    requires (shard, epoch) in t.raised && EpochOf(t.db, shard) == epoch && kv != map[]
    requires forall k <- kv :: IsData(k) && ShardOf(k, t.space) == shard
    ensures var req := WriteModules(shard, epoch, kv); var more := steps + [Send(req)] + [Deliver(req)];
      && IsRun(s, more)
      && var u := Final(s, more); u == t.(net := u.net, db := t.db.(strs := t.db.strs + kv))
  {
    SendThenDeliver(t, shard, epoch, kv);
    var req := WriteModules(shard, epoch, kv);
    var sent := Apply(t, Send(req));
    TwoMoreSteps(s, steps, Send(req), Deliver(req), sent, Apply(sent, Deliver(req)));
  }

  /** Whatever happened before, a node that finds a shard free can claim it, its epoch is accepted
      and its write is stored. */
  lemma TakeoverSucceeds(s: State, steps: seq<Step>, node: nat, shard: nat, kv: map<Key, Val>)
    requires Init(s) && IsRun(s, steps) && shard !in Final(s, steps).records && kv != map[]
    requires forall k <- kv :: IsData(k) && ShardOf(k, s.space) == shard
    ensures var t := Final(s, steps);
      && IsRun(t, Takeover(t, node, shard, kv))
      && TookOver(t, Final(t, Takeover(t, node, shard, kv)), node, shard, kv)
  {
    InitKeepsInv(s);
    RunKeepsInv(s, steps);
    RunKeepsRaisedKnown(s, steps);
    TakeoverRuns(Final(s, steps), node, shard, kv);
  }

  lemma {:induction false} OneMoreStep(s: State, steps: seq<Step>, step: Step)
    requires s.space > 0 && IsRun(s, steps) && Enabled(Final(s, steps), step)
    ensures IsRun(s, steps + [step]) && Final(s, steps + [step]) == Apply(Final(s, steps), step)
    decreases |steps|
  {
    var more := steps + [step];
    if steps == [] {
      assert more == [step] && more[1..] == [];
    } else {
      assert more[0] == steps[0] && more[1..] == steps[1..] + [step];
      OneMoreStep(Apply(s, steps[0]), steps[1..], step);
    }
  }

  lemma TwoMoreSteps(s: State, steps: seq<Step>, a: Step, b: Step, t: State, u: State)
    requires s.space > 0 && IsRun(s, steps) && Enabled(Final(s, steps), a) && t == Apply(Final(s, steps), a)
    requires Enabled(t, b) && u == Apply(t, b)
    ensures IsRun(s, steps + [a] + [b]) && Final(s, steps + [a] + [b]) == u
  {
    OneMoreStep(s, steps, a);
    OneMoreStep(s, steps + [a], b);
  }
}
