/** Nothing is created or lost by transfers: what players hold plus what is in transit is
    constant, apart from what commits grant and what a full bag diverts to the mailbox. */
module TransferConservation {
  import opened Keyspace
  import opened Scripts
  import opened Sums
  import opened Bags
  import opened Transfer
  import opened TransferCopies
  import opened TransferOnce

  ghost function HeldBy(db: Db, a: Asset): nat -> int {
    (u: nat) => Held(Stored(db, u), a)
  }

  /** What a begun transfer still carries: nothing once it is credited. */
  ghost function Carrying(begun: map<nat, Record>, db: Db, a: Asset): nat -> int {
    (t: nat) => if t in begun && !Done(begun, db, t) then Carried(begun[t], a) else 0
  }

  ghost function InPlayers(s: State, a: Asset): int {
    Sum(s.uids, HeldBy(s.db, a))
  }

  ghost function InTransit(s: State, a: Asset): int {
    Sum(s.begun.Keys, Carrying(s.begun, s.db, a))
  }

  ghost function Total(s: State, a: Asset): int {
    InPlayers(s, a) + InTransit(s, a)
  }

  /** What a step grants from outside: only an applied commit does. */
  ghost function Granted(s: State, step: Step, a: Asset): int {
    if step.Execute? && step.id in s.flights && s.flights[step.id].req.Commit?
       && Exec(s.db, s.flights[step.id].req).reply.Applied?
    then Held(s.flights[step.id].next, a) - Held(s.flights[step.id].base, a)
    else 0
  }

  ghost function GrantedIn(s: State, steps: seq<Step>, a: Asset): int
    requires s.space > 0 && IsRun(s, steps)
    decreases |steps|
  {
    if steps == [] then 0 else Granted(s, steps[0], a) + GrantedIn(Apply(s, steps[0]), steps[1..], a)
  }

  // ------------------------------------------------------------------------------------
  // Steps that move nothing
  // ------------------------------------------------------------------------------------

  /** Neither a stored player nor the set of uncredited transfers changed. */
  ghost predicate Unmoved(s: State, t: State) {
    && t.uids == s.uids && t.begun == s.begun
    && (forall u <- s.uids :: Stored(t.db, u) == Stored(s.db, u))
    && (forall x <- s.begun :: Done(t.begun, t.db, x) == Done(s.begun, s.db, x))
  }

  lemma UnmovedConserves(s: State, t: State, a: Asset)
    requires Unmoved(s, t)
    ensures Total(t, a) == Total(s, a)
  {
    SumSame(s.uids, HeldBy(s.db, a), HeldBy(t.db, a));
    SumSame(s.begun.Keys, Carrying(s.begun, s.db, a), Carrying(t.begun, t.db, a));
  }

  /** The databases agree on every key but epochs and transfer records. */
  ghost predicate SameDataAndMarkers(a: Db, b: Db) {
    && (forall k <- a.strs :: k.Player? || k.TxDone? ==> k in b.strs && b.strs[k] == a.strs[k])
    && (forall k <- b.strs :: k.Player? || k.TxDone? ==> k in a.strs)
  }

  lemma BookkeepingMovesNothing(s: State, t: State)
    requires t.uids == s.uids && t.begun == s.begun && SameDataAndMarkers(s.db, t.db)
    ensures Unmoved(s, t)
  {
  }

  lemma BookStepsMoveNothing(s: State, step: Step)
    requires s.space > 0 && Enabled(s, step)
    requires step.Start? || step.Complete? || step.RequeueTake? || step.RequeuePut? || step.RequeueMark?
    ensures Unmoved(s, Apply(s, step))
  {
    BookkeepingMovesNothing(s, Apply(s, step));
  }

  lemma ReplyMovesNothing(s: State, i: nat)
    requires i in s.flights
    ensures Unmoved(s, Replied(s, i))
  {
  }

  lemma OtherStepsMoveNothing(s: State, step: Step)
    requires s.space > 0 && Enabled(s, step)
    requires step.Stop? || step.Read? || step.Loaded? || step.LoadFailed? || step.Unload? || step.Issue?
             || step.BagFull? || step.Fail? || step.Publish? || step.Republish? || step.Scan?
    ensures Unmoved(s, Apply(s, step))
  {
    assert Apply(s, step).db == s.db;
  }

  // ------------------------------------------------------------------------------------
  // Begin, Claim and Commit
  // ------------------------------------------------------------------------------------

  /** The stored copy of the flight's player goes from base to next and no other moves. */
  ghost predicate MovesOne(s: State, t: State, f: Flight) {
    && t.uids == s.uids && f.uid in s.uids
    && Stored(s.db, f.uid) == f.base && Stored(t.db, f.uid) == f.next
    && (forall u <- s.uids :: u != f.uid ==> Stored(t.db, u) == Stored(s.db, u))
  }

  lemma MovedPlayers(s: State, t: State, f: Flight, a: Asset)
    requires MovesOne(s, t, f)
    ensures InPlayers(t, a) == InPlayers(s, a) + Held(f.next, a) - Held(f.base, a)
  {
    SumShift(s.uids, HeldBy(s.db, a), HeldBy(t.db, a), f.uid);
  }

  lemma AppliedMovesOne(s: State, i: nat)
    requires CopyInv(s) && i in s.flights && s.flights[i].progress.Sent? && Exec(s.db, s.flights[i].req).reply.Applied?
    ensures MovesOne(s, Executed(s, i), s.flights[i]) && Stocked(s.flights[i].base.bag.items)
  {
    var f := s.flights[i];
    WellIssuedRoutes(s, i);
    assert OwnerOf(f) in s.started;
    ExecuteKeepsEpochs(s.db, f, f.req.Target());
    assert Live(s.db, OwnerOf(f));
    assert Stored(s.db, f.uid) == f.base;
    ExecuteShape(s, i);
    forall u: nat { ExecuteStores(s.db, f, u); }
  }

  lemma BeginConserves(s: State, i: nat, a: Asset)
    requires CopyInv(s) && OnceInv(s) && i in s.flights && s.flights[i].progress.Sent?
    requires s.flights[i].req.Begin? && Exec(s.db, s.flights[i].req).reply.Applied?
    ensures Total(Executed(s, i), a) == Total(s, a)
  {
    var f, t := s.flights[i], Executed(s, i);
    AppliedMovesOne(s, i);
    MovedPlayers(s, t, f, a);
    WellIssuedDebit(s, i, a);
    WellIssuedRoutes(s, i);
    BegunShape(s, i);
    BegunTransit(s, t, i, a);
  }

  lemma BegunTransit(s: State, t: State, i: nat, a: Asset)
    requires OnceInv(s) && JustBegun(s, t, i)
    ensures InTransit(t, a) == InTransit(s, a) + Carried(s.flights[i].req.rec, a)
  {
    BeginKeepsCredits(s, t, i);
    assert FlightTx(s.begun, s.issued, s.flights[i]);
    OneMoreInTransit(s.begun, t.begun, s.db, t.db, s.flights[i].req.rec, a);
  }

  /** A new record whose transfer is not credited adds what it carries. */
  lemma OneMoreInTransit(begun: map<nat, Record>, more: map<nat, Record>, db: Db, db': Db, rec: Record, a: Asset)
    requires rec.txid !in begun && more == begun[rec.txid := rec]
    requires forall x: nat :: Done(more, db', x) == Done(begun, db, x)
    ensures Sum(more.Keys, Carrying(more, db', a)) == Sum(begun.Keys, Carrying(begun, db, a)) + Carried(rec, a)
  {
    assert more.Keys == begun.Keys + {rec.txid};
    assert !Done(begun, db, rec.txid);
    SumSame(begun.Keys, Carrying(begun, db, a), Carrying(more, db', a));
    SumAdd(begun.Keys, Carrying(more, db', a), rec.txid);
  }

  lemma WellIssuedDebit(s: State, i: nat, a: Asset)
    requires Issued(s) && i in s.flights && s.flights[i].req.Begin? && Stocked(s.flights[i].base.bag.items)
    ensures Held(s.flights[i].next, a) == Held(s.flights[i].base, a) - Carried(s.flights[i].req.rec, a)
  {
    assert WellIssued(s.space, s.flights[i]);
    DebitTakesCarried(s.flights[i].base, s.flights[i].req.rec, a);
  }

  lemma WellIssuedCredit(s: State, i: nat, a: Asset)
    requires Issued(s) && i in s.flights && s.flights[i].req.Claim? && Stocked(s.flights[i].base.bag.items)
    ensures Held(s.flights[i].next, a) == Held(s.flights[i].base, a) + Carried(s.flights[i].req.rec, a)
  {
    var f := s.flights[i];
    assert WellIssued(s.space, f);
    var r :| Credit(f.base, f.req.rec, r) == Some(f.next);
    CreditGivesCarried(f.base, f.req.rec, r, a);
  }

  lemma ClaimConserves(s: State, i: nat, a: Asset)
    requires CopyInv(s) && OnceInv(s) && i in s.flights && s.flights[i].progress.Sent?
    requires s.flights[i].req.Claim? && Exec(s.db, s.flights[i].req).reply.Applied?
    ensures Total(Executed(s, i), a) == Total(s, a)
  {
    var f, t := s.flights[i], Executed(s, i);
    AppliedMovesOne(s, i);
    MovedPlayers(s, t, f, a);
    WellIssuedCredit(s, i, a);
    WellIssuedRoutes(s, i);
    ClaimedShape(s, i);
    ClaimedTransit(s, t, i, a);
  }

  lemma ClaimedTransit(s: State, t: State, i: nat, a: Asset)
    requires OnceInv(s) && JustClaimed(s, t, i)
    ensures InTransit(t, a) == InTransit(s, a) - Carried(s.flights[i].req.rec, a)
  {
    var rec := s.flights[i].req.rec;
    assert FlightTx(s.begun, s.issued, s.flights[i]);
    forall x | x in s.begun
      ensures x != rec.txid ==> Carrying(s.begun, s.db, a)(x) == Carrying(t.begun, t.db, a)(x)
      ensures x == rec.txid ==> Carrying(s.begun, s.db, a)(x) == Carried(rec, a) && Carrying(t.begun, t.db, a)(x) == 0
    {
      ClaimMarksDone(s, t, i, x);
      if x == rec.txid { JobCarriesTheSame(rec, s.begun[x], a); }
    }
    SumShift(s.begun.Keys, Carrying(s.begun, s.db, a), Carrying(t.begun, t.db, a), rec.txid);
  }

  lemma JobCarriesTheSame(a: Record, b: Record, x: Asset)
    requires Job(a) == Job(b)
    ensures Carried(a, x) == Carried(b, x)
  {
    assert Job(a).items == Job(b).items && Job(a).currType == Job(b).currType && Job(a).currDelta == Job(b).currDelta;
  }

  lemma CommitGrants(s: State, i: nat, a: Asset)
    requires CopyInv(s) && i in s.flights && s.flights[i].progress.Sent?
    requires s.flights[i].req.Commit? && Exec(s.db, s.flights[i].req).reply.Applied?
    ensures Total(Executed(s, i), a) == Total(s, a) + Held(s.flights[i].next, a) - Held(s.flights[i].base, a)
  {
    var t := Executed(s, i);
    AppliedMovesOne(s, i);
    MovedPlayers(s, t, s.flights[i], a);
    WellIssuedRoutes(s, i);
    CommitTransit(s, t, i, a);
  }

  lemma CommitTransit(s: State, t: State, i: nat, a: Asset)
    requires i in s.flights && WritesPlayer(s.flights[i]) && s.flights[i].req.Commit?
    requires t.begun == s.begun && t.db == Exec(s.db, s.flights[i].req).db
    ensures InTransit(t, a) == InTransit(s, a)
  {
    CommitKeepsTx(s.db, s.flights[i]);
    SumSame(s.begun.Keys, Carrying(s.begun, s.db, a), Carrying(t.begun, t.db, a));
  }

  lemma RefusedMovesNothing(s: State, i: nat)
    requires i in s.flights && !Exec(s.db, s.flights[i].req).reply.Applied?
    ensures Unmoved(s, Executed(s, i))
  {
    UnappliedChangesNothing(s.db, s.flights[i].req);
  }

  lemma RefusedConserves(s: State, i: nat, a: Asset)
    requires i in s.flights && !Exec(s.db, s.flights[i].req).reply.Applied?
    ensures Total(Executed(s, i), a) == Total(s, a)
  {
    RefusedMovesNothing(s, i);
    UnmovedConserves(s, Executed(s, i), a);
  }

  lemma AppliedConserves(s: State, i: nat, a: Asset)
    requires CopyInv(s) && OnceInv(s) && i in s.flights && s.flights[i].progress.Sent?
    requires Exec(s.db, s.flights[i].req).reply.Applied?
    ensures Total(Executed(s, i), a) == Total(s, a) + Granted(s, Execute(i), a)
  {
    assert WellIssued(s.space, s.flights[i]);
    if s.flights[i].req.Begin? {
      BeginConserves(s, i, a);
    } else if s.flights[i].req.Claim? {
      ClaimConserves(s, i, a);
    } else {
      CommitGrants(s, i, a);
    }
  }

  lemma ExecuteConserves(s: State, step: Step, a: Asset)
    requires CopyInv(s) && OnceInv(s) && Enabled(s, step) && step.Execute?
    ensures Total(Apply(s, step), a) == Total(s, a) + Granted(s, step, a)
  {
    if Exec(s.db, s.flights[step.id].req).reply.Applied? {
      AppliedConserves(s, step.id, a);
    } else {
      RefusedConserves(s, step.id, a);
    }
  }

  lemma QuietMovesNothing(s: State, step: Step)
    requires s.space > 0 && Enabled(s, step) && !step.Execute?
    ensures Unmoved(s, Apply(s, step))
  {
    if step.Start? || step.Complete? || step.RequeueTake? || step.RequeuePut? || step.RequeueMark? {
      BookStepsMoveNothing(s, step);
    } else if step.Reply? {
      ReplyMovesNothing(s, step.id);
    } else {
      OtherStepsMoveNothing(s, step);
    }
  }

  lemma StepConserves(s: State, step: Step, a: Asset)
    requires CopyInv(s) && OnceInv(s) && Enabled(s, step)
    ensures Total(Apply(s, step), a) == Total(s, a) + Granted(s, step, a)
  {
    if step.Execute? {
      ExecuteConserves(s, step, a);
    } else {
      QuietMovesNothing(s, step);
      UnmovedConserves(s, Apply(s, step), a);
    }
  }

  lemma {:induction false} RunConserves(s: State, steps: seq<Step>, a: Asset)
    requires CopyInv(s) && OnceInv(s) && IsRun(s, steps)
    ensures Total(Final(s, steps), a) == Total(s, a) + GrantedIn(s, steps, a)
    decreases |steps|
  {
    if steps != [] {
      StepConserves(s, steps[0], a);
      StepKeepsOnceInv(s, steps[0]);
      StepKeepsCopyInv(s, steps[0]);
      RunConserves(Apply(s, steps[0]), steps[1..], a);
    }
  }

  /** In every run, for every asset, what players hold plus what uncredited transfers carry
      changes only by what applied commits granted. */
  lemma PlayersPlusTransitIsConserved(s: State, steps: seq<Step>, a: Asset)
    requires Transfer.Init(s) && IsRun(s, steps)
    ensures Total(Final(s, steps), a) == InPlayers(s, a) + GrantedIn(s, steps, a)
  {
    InitKeepsOnceInv(s);
    InitKeepsCopyInv(s);
    RunConserves(s, steps, a);
    assert InTransit(s, a) == 0;
  }

  // ------------------------------------------------------------------------------------
  // The mailbox of a full bag
  // ------------------------------------------------------------------------------------

  /** The fallback puts the items, and only the items, of the job into the mailbox. */
  ghost function Posted(mailed: seq<Record>, a: Asset): int {
    if mailed == [] || a.Money? then 0
    else Posted(mailed[..|mailed| - 1], a) + Attached(mailed[|mailed| - 1].items, a.tpl)
  }

  /** What a step puts into a mailbox. */
  ghost function Diverted(step: Step, a: Asset): int {
    if step.BagFull? && a.Goods? then Attached(step.job.items, a.tpl) else 0
  }

  /** Players, transfers in transit and mailboxes together. */
  ghost function World(s: State, a: Asset): int {
    Total(s, a) + Posted(s.mailed, a)
  }

  /** With the mailboxes counted in, a delivery to a full bag is the one step that creates
      goods: exactly its items, although the transfer itself stays in transit. */
  lemma FullBagDuplicatesItems(s: State, step: Step, a: Asset)
    requires CopyInv(s) && OnceInv(s) && Enabled(s, step)
    ensures World(Apply(s, step), a) == World(s, a) + Granted(s, step, a) + Diverted(step, a)
  {
    StepConserves(s, step, a);
    MailedAfter(s, step);
    PostedAfter(s.mailed, step, a);
  }

  lemma MailedAfter(s: State, step: Step)
    requires s.space > 0 && Enabled(s, step)
    ensures Apply(s, step).mailed == if step.BagFull? then s.mailed + [step.job] else s.mailed
  {
  }

  lemma PostedAfter(mailed: seq<Record>, step: Step, a: Asset)
    ensures Posted(if step.BagFull? then mailed + [step.job] else mailed, a) == Posted(mailed, a) + Diverted(step, a)
  {
    if step.BagFull? { assert (mailed + [step.job])[..|mailed|] == mailed; }
  }

  /** Only positive amounts are ever transferred. */
  ghost predicate Positive(begun: map<nat, Record>) {
    forall t <- begun :: PositiveItems(begun[t].items)
  }

  predicate PositiveItems(items: seq<Attachment>) {
    forall att <- items :: att.count > 0
  }

  lemma BegunOnlyByBegin(s: State, step: Step)
    requires s.space > 0 && Enabled(s, step) && !step.Execute?
    ensures Apply(s, step).begun == s.begun
  {
    QuietMovesNothing(s, step);
  }

  lemma BegunAfterExecute(s: State, i: nat)
    requires i in s.flights
    ensures var f := s.flights[i];
      Executed(s, i).begun ==
        if f.req.Begin? && Exec(s.db, f.req).reply.Applied? then s.begun[f.req.rec.txid := f.req.rec] else s.begun
  {
  }

  lemma BegunItemsArePositive(s: State, i: nat)
    requires CopyInv(s) && i in s.flights && s.flights[i].progress.Sent?
    requires s.flights[i].req.Begin? && Exec(s.db, s.flights[i].req).reply.Applied?
    ensures PositiveItems(s.flights[i].req.rec.items)
  {
    AppliedMovesOne(s, i);
    assert WellIssued(s.space, s.flights[i]);
    DebitSucceedsExactlyWhenCovered(s.flights[i].base, s.flights[i].req.rec);
  }

  lemma ExecuteKeepsPositive(s: State, i: nat)
    requires CopyInv(s) && Positive(s.begun) && i in s.flights && s.flights[i].progress.Sent?
    ensures Positive(Executed(s, i).begun)
  {
    BegunAfterExecute(s, i);
    if s.flights[i].req.Begin? && Exec(s.db, s.flights[i].req).reply.Applied? { BegunItemsArePositive(s, i); }
  }

  lemma StepKeepsPositive(s: State, step: Step)
    requires CopyInv(s) && Positive(s.begun) && Enabled(s, step)
    ensures Positive(Apply(s, step).begun)
  {
    if step.Execute? { ExecuteKeepsPositive(s, step.id); } else { BegunOnlyByBegin(s, step); }
  }

  ghost function DivertedIn(steps: seq<Step>, a: Asset): int {
    if steps == [] then 0 else Diverted(steps[0], a) + DivertedIn(steps[1..], a)
  }

  lemma DivertedIsNatural(s: State, step: Step, a: Asset)
    requires OnceInv(s) && Positive(s.begun) && Enabled(s, step)
    ensures Diverted(step, a) >= 0
  {
    if step.BagFull? && a.Goods? {
      assert Known(s.begun, step.job);
      assert Job(step.job).items == Job(s.begun[step.job.txid]).items;
      assert PositiveItems(s.begun[step.job.txid].items);
      AttachedIsNatural(step.job.items, a.tpl);
    }
  }

  lemma StepKeepsAll(s: State, step: Step)
    requires CopyInv(s) && OnceInv(s) && Positive(s.begun) && Enabled(s, step)
    ensures CopyInv(Apply(s, step)) && OnceInv(Apply(s, step)) && Positive(Apply(s, step).begun)
  {
    StepKeepsOnceInv(s, step);
    StepKeepsCopyInv(s, step);
    StepKeepsPositive(s, step);
  }

  lemma {:induction false} RunWorld(s: State, steps: seq<Step>, a: Asset)
    requires CopyInv(s) && OnceInv(s) && Positive(s.begun) && IsRun(s, steps)
    ensures World(Final(s, steps), a) == World(s, a) + GrantedIn(s, steps, a) + DivertedIn(steps, a)
    decreases |steps|
  {
    if steps != [] {
      FullBagDuplicatesItems(s, steps[0], a);
      StepKeepsAll(s, steps[0]);
      RunWorld(Apply(s, steps[0]), steps[1..], a);
    }
  }

  lemma {:induction false} RunDivertsNaturals(s: State, steps: seq<Step>, a: Asset, i: nat)
    requires CopyInv(s) && OnceInv(s) && Positive(s.begun) && IsRun(s, steps) && i < |steps|
    ensures Diverted(steps[i], a) >= 0
    decreases |steps|
  {
    if i == 0 {
      DivertedIsNatural(s, steps[0], a);
    } else {
      StepKeepsAll(s, steps[0]);
      RunDivertsNaturals(Apply(s, steps[0]), steps[1..], a, i - 1);
    }
  }

  lemma {:induction false} DivertedNothing(steps: seq<Step>, a: Asset)
    requires forall i :: 0 <= i < |steps| ==> Diverted(steps[i], a) >= 0
    ensures DivertedIn(steps, a) >= 0
    ensures DivertedIn(steps, a) == 0 <==> forall i :: 0 <= i < |steps| ==> Diverted(steps[i], a) == 0
  {
    if steps != [] {
      DivertedNothing(steps[1..], a);
      assert forall i :: 0 < i < |steps| ==> steps[i] == steps[1..][i - 1];
    }
  }

  /** Over a run that grants nothing, the world total of an asset is kept exactly when no
      delivery of it finds a full bag. */
  lemma WorldIsKeptExactly(s: State, steps: seq<Step>, a: Asset)
    requires Transfer.Init(s) && IsRun(s, steps) && GrantedIn(s, steps, a) == 0
    ensures World(Final(s, steps), a) == World(s, a) <==> forall i :: 0 <= i < |steps| ==> Diverted(steps[i], a) == 0
  {
    InitKeepsOnceInv(s);
    InitKeepsCopyInv(s);
    RunWorld(s, steps, a);
    forall i: nat | i < |steps| ensures Diverted(steps[i], a) >= 0 { RunDivertsNaturals(s, steps, a, i); }
    DivertedNothing(steps, a);
  }
}
