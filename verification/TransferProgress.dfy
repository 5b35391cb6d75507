/** Transfers are not only safe: whatever happened before, a write that a live owner may issue for
    an idle player goes through, and the player's memory and the store both hold its result. */
module TransferProgress {
  import opened Keyspace
  import opened Scripts
  import opened Effects
  import opened Bags
  import opened Transfer
  import opened TransferCopies
  import opened TransferOnce
  import opened TransferExamples

  /** The request was not done before: a transfer not yet credited, a commit with an unused key. */
  predicate Fresh(s: State, req: Request) {
    && (req.Claim? ==> !Done(s.begun, s.db, req.rec.txid))
    && (req.Commit? ==> WellNamed(req.req) && !Used(s.db, req.req))
  }

  lemma FreshIsApplied(s: State, owner: (nat, int), uid: nat, req: Request, next: Holdings, receipt: Receipt)
    requires OnceInv(s) && Enabled(s, Issue(owner, uid, req, next, receipt)) && Fresh(s, req)
    requires owner.0 == uid % s.space && Live(s.db, owner)
    ensures Exec(s.db, req).reply.Applied?
  {
    StoredTransfersAreKnown(s);
    if req.Commit? { CommitAnswers(s.db, req.req); }
  }

  lemma StoredTransfersAreKnown(s: State)
    requires OnceInv(s)
    ensures forall k <- s.db.strs :: k.Tx? ==> k.txid in s.issued
    ensures forall k <- s.db.strs :: k.TxDone? ==> k.txid in s.begun && k.toShard == s.begun[k.txid].toShard
  {
    assert forall k <- s.db.strs :: TxKeyOk(s.begun, s.db.strs, k);
  }

  /** The flight as it was issued, and answered as applied. */
  predicate InFlight(s: State, t: State, owner: (nat, int), uid: nat, req: Request, next: Holdings, progress: Progress)
    requires Idle(s, owner, uid)
  {
    && owner in t.owners && uid in t.owners[owner].players
    && t.owners[owner].players[uid] == Resident(Memory(s, owner, uid), Some(s.nextFlight))
    && s.nextFlight in t.flights
    && t.flights[s.nextFlight] == Flight(uid, Memory(s, owner, uid), next, req, progress)
  }

  lemma IssueSends(s: State, owner: (nat, int), uid: nat, req: Request, next: Holdings, receipt: Receipt)
    requires s.space > 0 && Enabled(s, Issue(owner, uid, req, next, receipt))
    ensures var t := Apply(s, Issue(owner, uid, req, next, receipt));
      InFlight(s, t, owner, uid, req, next, Sent) && t.db == s.db && t.begun == s.begun && t.credited == s.credited
  {
  }

  lemma ExecuteApplies(s: State, t: State, owner: (nat, int), uid: nat, req: Request, next: Holdings)
    requires t.space > 0 && Idle(s, owner, uid) && InFlight(s, t, owner, uid, req, next, Sent)
    requires Exec(t.db, req).reply.Applied?
    ensures Enabled(t, Execute(s.nextFlight))
    ensures var u := Apply(t, Execute(s.nextFlight));
      && InFlight(s, u, owner, uid, req, next, Answered(Exec(t.db, req).reply)) && u.db == Exec(t.db, req).db
      && u.begun == (if req.Begin? then t.begun[req.rec.txid := req.rec] else t.begun)
      && u.credited == (if req.Claim? then t.credited + [req.rec.txid] else t.credited)
  {
  }

  lemma ReplySwapsIn(s: State, t: State, owner: (nat, int), uid: nat, req: Request, next: Holdings, reply: Reply)
    requires t.space > 0 && Idle(s, owner, uid) && InFlight(s, t, owner, uid, req, next, Answered(reply))
    requires reply.Applied? && owner == (req.Target(), req.CallerEpoch())
    ensures Enabled(t, Step.Reply(s.nextFlight))
    ensures var u := Apply(t, Step.Reply(s.nextFlight));
      && Idle(u, owner, uid) && Memory(u, owner, uid) == next
      && u.db == t.db && u.begun == t.begun && u.credited == t.credited
  {
  }

  /** What the write has come to. */
  ghost predicate WentThrough(s: State, t: State, owner: (nat, int), uid: nat, req: Request, next: Holdings) {
    && t.db == Exec(s.db, req).db && Idle(t, owner, uid) && Memory(t, owner, uid) == next
    && t.begun == (if req.Begin? then s.begun[req.rec.txid := req.rec] else s.begun)
    && t.credited == (if req.Claim? then s.credited + [req.rec.txid] else s.credited)
  }

  lemma WriteRuns(s: State, steps: seq<Step>, owner: (nat, int), uid: nat, req: Request, next: Holdings,
                  receipt: Receipt)
    returns (more: seq<Step>)
    requires s.space > 0 && IsRun(s, steps) && Enabled(Final(s, steps), Issue(owner, uid, req, next, receipt))
    requires Exec(Final(s, steps).db, req).reply.Applied? && owner == (req.Target(), req.CallerEpoch())
    ensures IsRun(s, more) && WentThrough(Final(s, steps), Final(s, more), owner, uid, req, next)
  {
    var t := Final(s, steps);
    IssueSends(t, owner, uid, req, next, receipt);
    RunMore(s, steps, Issue(owner, uid, req, next, receipt));
    more := steps + [Issue(owner, uid, req, next, receipt)];
    more := AnswerRuns(s, more, t, owner, uid, req, next);
  }

  lemma AnswerRuns(s: State, steps: seq<Step>, t: State, owner: (nat, int), uid: nat, req: Request, next: Holdings)
    returns (more: seq<Step>)
    requires s.space > 0 && IsRun(s, steps) && Idle(t, owner, uid)
    requires var u := Final(s, steps);
      && InFlight(t, u, owner, uid, req, next, Sent) && u.db == t.db && u.begun == t.begun && u.credited == t.credited
    requires Exec(t.db, req).reply.Applied? && owner == (req.Target(), req.CallerEpoch())
    ensures IsRun(s, more) && WentThrough(t, Final(s, more), owner, uid, req, next)
  {
    var u := Final(s, steps);
    ExecuteApplies(t, u, owner, uid, req, next);
    RunMore(s, steps, Execute(t.nextFlight));
    more := steps + [Execute(t.nextFlight)];
    ReplySwapsIn(t, Final(s, more), owner, uid, req, next, Exec(t.db, req).reply);
    RunMore(s, more, Step.Reply(t.nextFlight));
    more := more + [Step.Reply(t.nextFlight)];
  }

  /** After any run, a fresh transfer, delivery or commit that a live owner may issue for an idle
      player can be carried out: the script's effect is in the store, the player is idle again and
      both copies are the new one, and a transfer has begun or is credited once more. */
  lemma FreshWriteGoesThrough(s: State, steps: seq<Step>, owner: (nat, int), uid: nat, req: Request, next: Holdings,
                              receipt: Receipt)
    returns (more: seq<Step>)
    requires Transfer.Init(s) && IsRun(s, steps)
    requires var t := Final(s, steps);
      Enabled(t, Issue(owner, uid, req, next, receipt)) && Live(t.db, owner) && Fresh(t, req)
    ensures IsRun(s, more) && WentThrough(Final(s, steps), Final(s, more), owner, uid, req, next)
    ensures Stored(Final(s, more).db, uid) == next
  {
    InitKeepsCopyInv(s);
    InitKeepsOnceInv(s);
    RunKeepsCopyInv(s, steps);
    RunKeepsOnceInv(s, steps);
    var t := Final(s, steps);
    OwnerRoutes(t, owner, uid);
    FreshIsApplied(t, owner, uid, req, next, receipt);
    more := WriteRuns(s, steps, owner, uid, req, next, receipt);
    StaysLive(t, owner, uid, req, next, receipt);
    MemoryEqualsStoreWhenIdle(s, more, owner, uid);
  }

  lemma OwnerRoutes(s: State, owner: (nat, int), uid: nat)
    requires CopyInv(s) && Idle(s, owner, uid)
    ensures owner.0 == uid % s.space
  {
    assert OwnerFine(s.space, s.uids, s.db, s.flights, owner, s.owners[owner]);
    assert PlayerFine(s.space, s.uids, s.db, s.flights, owner, uid, s.owners[owner].players[uid]);
  }

  lemma StaysLive(s: State, owner: (nat, int), uid: nat, req: Request, next: Holdings, receipt: Receipt)
    requires s.space > 0 && Enabled(s, Issue(owner, uid, req, next, receipt)) && Live(s.db, owner)
    ensures Live(Exec(s.db, req).db, owner)
  {
    assert Proper(req) by { if !req.Commit? { WholeIsData(uid, next); } }
    EpochsOnlyRise(s.db, req, owner.0);
  }

  /** After any run, a begun transfer that is still in its pending index can be offered again: a
      scan of the shard and a republished job give the receiver the same transfer. */
  lemma LostJobComesBack(s: State, steps: seq<Step>, txid: nat) returns (more: seq<Step>)
    requires Transfer.Init(s) && IsRun(s, steps)
    requires var t := Final(s, steps); txid in t.begun && Indexed(t.db, t.begun[txid].fromShard, txid)
    ensures IsRun(s, more)
    ensures var t, u := Final(s, steps), Final(s, more);
      u.begun == t.begun && u.db == t.db && Job(t.begun[txid]) in u.jobs
  {
    InitKeepsCopyInv(s);
    InitKeepsOnceInv(s);
    RunKeepsOnceInv(s, steps);
    var t := Final(s, steps);
    var shard := t.begun[txid].fromShard;
    var rec := IndexedRecord(t, shard, txid);
    ScanFinds(t, shard, rec);
    RunMore(s, steps, Scan(shard));
    more := steps + [Scan(shard)];
    RunMore(s, more, Republish(rec));
    more := more + [Republish(rec)];
  }

  lemma IndexedRecord(t: State, shard: nat, txid: nat) returns (rec: Record)
    requires OnceInv(t) && txid in t.begun && Indexed(t.db, shard, txid)
    ensures rec in ZsetOf(t.db.zsets, TxPending(shard)) && Job(rec) == Job(t.begun[txid])
  {
    rec :| rec in ZsetOf(t.db.zsets, TxPending(shard)) && rec.txid == txid;
    assert rec in t.db.zsets[TxPending(shard)] && Known(t.begun, rec);
  }

  lemma ScanFinds(t: State, shard: nat, rec: Record)
    requires t.space > 0 && rec in ZsetOf(t.db.zsets, TxPending(shard))
    ensures Enabled(t, Scan(shard)) && Enabled(Apply(t, Scan(shard)), Republish(rec))
    ensures var u := Apply(Apply(t, Scan(shard)), Republish(rec));
      u.begun == t.begun && u.db == t.db && Job(rec) in u.jobs
  {
  }
}
