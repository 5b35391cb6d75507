/** Every transfer is credited at most once, and one that has begun but has not been credited
    can always be found again through the pending index. */
module TransferOnce {
  import opened Keyspace
  import opened Scripts
  import opened Transfer
  import opened TransferCopies

  /** The record is some stage of a transfer that has begun. */
  predicate Known(begun: map<nat, Record>, r: Record) {
    r.txid in begun && Job(r) == Job(begun[r.txid])
  }

  predicate Done(begun: map<nat, Record>, db: Db, t: nat) {
    t in begun && TxDone(begun[t].toShard, t) in db.strs
  }

  /** Some member of the sender's pending index belongs to t. */
  ghost predicate Indexed(db: Db, shard: nat, t: nat) {
    exists r :: r in ZsetOf(db.zsets, TxPending(shard)) && r.txid == t
  }

  /** Some requeue of t is between removing and adding back. */
  ghost predicate MidRequeue(requeuing: multiset<Record>, t: nat) {
    exists r :: r in requeuing && r.txid == t
  }

  ghost predicate Routed(s: State) {
    && s.space > 0
    && (forall t <- s.begun :: s.begun[t].txid == t && t in s.issued)
  }

  /** Transfer records and done markers in the store belong to begun transfers. */
  predicate TxKeyOk(begun: map<nat, Record>, strs: map<Key, Val>, k: Key)
    requires k in strs
  {
    && (k.Tx? ==> strs[k].TxJson? && strs[k].rec.txid == k.txid && Known(begun, strs[k].rec))
    && (k.TxDone? ==> k.txid in begun && k.toShard == begun[k.txid].toShard)
  }

  ghost predicate TxKeys(begun: map<nat, Record>, db: Db) {
    && (forall k <- db.strs :: TxKeyOk(begun, db.strs, k))
    && (forall k <- db.zsets, r <- db.zsets[k] :: k == TxPending(r.fromShard) && Known(begun, r))
  }

  ghost predicate Pools(s: State) {
    && (forall r <- s.jobs :: Known(s.begun, r))
    && (forall r <- s.scanned :: Known(s.begun, r))
    && (forall r <- s.requeuing :: Known(s.begun, r))
    && (forall r <- s.readded :: Known(s.begun, r))
  }

  predicate FlightTx(begun: map<nat, Record>, issued: set<nat>, f: Flight) {
    && (f.req.Begin? ==> f.req.rec.txid in issued && (f.progress.Sent? ==> f.req.rec.txid !in begun))
    && (f.req.Claim? ==> Known(begun, f.req.rec))
  }

  predicate SameBegin(a: Request, b: Request) {
    a.Begin? && b.Begin? && a.rec.txid == b.rec.txid
  }

  ghost predicate FlightsTx(s: State) {
    && (forall i <- s.flights :: FlightTx(s.begun, s.issued, s.flights[i]))
    && (forall i <- s.flights, j <- s.flights :: SameBegin(s.flights[i].req, s.flights[j].req) ==> i == j)
  }

  ghost predicate CreditedOnce(s: State) {
    && (forall t: nat :: multiset(s.credited)[t] == if Done(s.begun, s.db, t) then 1 else 0)
    && (forall t <- s.settled :: Done(s.begun, s.db, t))
  }

  /** The transfer is credited, in its sender's index, or in the hands of a requeue. */
  ghost predicate Found(begun: map<nat, Record>, db: Db, requeuing: multiset<Record>, t: nat)
    requires t in begun
  {
    Done(begun, db, t) || Indexed(db, begun[t].fromShard, t) || MidRequeue(requeuing, t)
  }

  ghost predicate Findable(s: State) {
    forall t <- s.begun :: Found(s.begun, s.db, s.requeuing, t)
  }

  ghost predicate OnceInv(s: State) {
    && Routed(s) && TxKeys(s.begun, s.db) && Pools(s) && FlightsTx(s) && CreditedOnce(s) && Findable(s)
  }

  lemma InitKeepsOnceInv(s: State)
    requires Transfer.Init(s)
    ensures OnceInv(s)
  {
  }

  // ------------------------------------------------------------------------------------
  // Steps that leave transfer bookkeeping alone
  // ------------------------------------------------------------------------------------

  /** Both databases hold the same transfer records, done markers and indexes. */
  ghost predicate SameTx(a: Db, b: Db) {
    && a.zsets == b.zsets
    && (forall k <- a.strs :: k.Tx? || k.TxDone? ==> k in b.strs && b.strs[k] == a.strs[k])
    && (forall k <- b.strs :: k.Tx? || k.TxDone? ==> k in a.strs)
  }

  lemma SameTxKeepsOnceInv(s: State, t: State)
    requires OnceInv(s) && SameTx(s.db, t.db)
    requires t.space == s.space && t.issued == s.issued && t.begun == s.begun && t.credited == s.credited
    requires t.settled == s.settled && t.jobs == s.jobs && t.scanned == s.scanned
    requires t.requeuing == s.requeuing && t.readded == s.readded
    requires FlightsTx(t)
    ensures OnceInv(t)
  {
    assert forall x: nat :: Done(t.begun, t.db, x) == Done(s.begun, s.db, x);
    forall k | k in t.db.strs ensures TxKeyOk(t.begun, t.db.strs, k) {
      assert k.Tx? || k.TxDone? ==> TxKeyOk(s.begun, s.db.strs, k);
    }
    forall x | x in t.begun ensures Found(t.begun, t.db, t.requeuing, x) {
      assert Found(s.begun, s.db, s.requeuing, x);
      if Indexed(s.db, s.begun[x].fromShard, x) { assert Indexed(t.db, t.begun[x].fromShard, x); }
    }
  }

  /** Flights may be answered or leave. */
  lemma FewerFlights(s: State, t: State)
    requires FlightsTx(s) && t.begun == s.begun && t.issued == s.issued && t.flights.Keys <= s.flights.Keys
    requires forall i <- t.flights :: t.flights[i].req == s.flights[i].req
    requires forall i <- t.flights :: t.flights[i].progress.Sent? ==> s.flights[i].progress.Sent?
    ensures FlightsTx(t)
  {
    forall i | i in t.flights ensures FlightTx(t.begun, t.issued, t.flights[i]) {
      assert FlightTx(s.begun, s.issued, s.flights[i]);
    }
  }

  lemma OwnerSteps(s: State, step: Step)
    requires OnceInv(s) && Enabled(s, step)
    requires step.Stop? || step.Read? || step.Loaded? || step.LoadFailed? || step.Unload? || step.BagFull?
    ensures OnceInv(Apply(s, step))
  {
    var t := Apply(s, step);
    assert t.flights == s.flights && t.db == s.db;
    IssueKeepsRest(s, t);
  }

  lemma RaiseKeepsTx(db: Db, shard: nat, epoch: int)
    ensures SameTx(db, Exec(db, RaiseEpoch(shard, epoch)).db)
  {
  }

  lemma StartKeepsOnceInv(s: State, step: Step)
    requires OnceInv(s) && Enabled(s, step) && step.Start?
    ensures OnceInv(Apply(s, step))
  {
    RaiseKeepsTx(s.db, step.shard, step.epoch);
    var t := Apply(s, step);
    StartedKeepsOnceInv(s, Exec(s.db, RaiseEpoch(step.shard, step.epoch)).db, t.started, t.owners);
  }

  lemma StartedKeepsOnceInv(s: State, db: Db, started: set<(nat, int)>, owners: map<(nat, int), Owner>)
    requires OnceInv(s) && SameTx(s.db, db)
    ensures OnceInv(s.(db := db, started := started, owners := owners))
  {
    var t := s.(db := db, started := started, owners := owners);
    FewerFlights(s, t);
    SameTxKeepsOnceInv(s, t);
  }

  lemma FailKeepsOnceInv(s: State, step: Step)
    requires OnceInv(s) && Enabled(s, step) && step.Fail?
    ensures OnceInv(Apply(s, step))
  {
    FewerFlights(s, Apply(s, step));
    SameTxKeepsOnceInv(s, Apply(s, step));
  }

  lemma ReplyTxShape(s: State, i: nat)
    requires i in s.flights
    ensures Replied(s, i) == s.(owners := Replied(s, i).owners, flights := s.flights - {i})
  {
  }

  lemma ReplyKeepsOnceInv(s: State, i: nat)
    requires OnceInv(s) && i in s.flights
    ensures OnceInv(Replied(s, i))
  {
    ReplyTxShape(s, i);
    LandedKeepsOnceInv(s, Replied(s, i), i);
  }

  lemma LandedKeepsOnceInv(s: State, t: State, i: nat)
    requires OnceInv(s) && t == s.(owners := t.owners, flights := s.flights - {i})
    ensures OnceInv(t)
  {
    FewerFlights(s, t);
    SameTxKeepsOnceInv(s, t);
  }

  lemma IssueKeepsOnceInv(s: State, step: Step)
    requires OnceInv(s) && CopyInv(s) && Enabled(s, step) && step.Issue?
    ensures OnceInv(Apply(s, step))
  {
    var t, n := Apply(s, step), s.nextFlight;
    var f := Flight(step.uid, Memory(s, step.owner, step.uid), step.next, step.req, Sent);
    assert t.flights == s.flights[n := f] && n !in s.flights;
    IssueKeepsFlightsTx(s, t, n, f);
    IssueKeepsRest(s, t);
  }

  lemma IssueKeepsFlightsTx(s: State, t: State, n: nat, f: Flight)
    requires FlightsTx(s) && Routed(s) && Pools(s)
    requires n !in s.flights && t.flights == s.flights[n := f] && t.begun == s.begun
    requires f.req.Begin? ==> f.req.rec.txid !in s.issued && t.issued == s.issued + {f.req.rec.txid}
    requires f.req.Claim? ==> f.req.rec in s.jobs
    requires s.issued <= t.issued
    ensures FlightsTx(t)
  {
    forall i | i in s.flights ensures FlightTx(t.begun, t.issued, s.flights[i]) {
      assert FlightTx(s.begun, s.issued, s.flights[i]);
    }
  }

  lemma IssueKeepsRest(s: State, t: State)
    requires OnceInv(s) && FlightsTx(t) && t.db == s.db && s.issued <= t.issued
    requires t.space == s.space && t.begun == s.begun && t.credited == s.credited
    requires t.settled == s.settled && t.jobs == s.jobs && t.scanned == s.scanned
    requires t.requeuing == s.requeuing && t.readded == s.readded
    ensures OnceInv(t)
  {
  }

  /** Publishing, republishing and scanning only copy records of begun transfers around. */
  lemma PoolSteps(s: State, step: Step)
    requires OnceInv(s) && Enabled(s, step) && (step.Publish? || step.Republish? || step.Scan?)
    ensures OnceInv(Apply(s, step))
  {
    PooledKeepsOnceInv(s, Apply(s, step));
  }

  lemma PooledKeepsOnceInv(s: State, t: State)
    requires OnceInv(s) && t == s.(jobs := t.jobs, scanned := t.scanned)
    requires forall r <- t.jobs :: r in s.jobs || Known(s.begun, r)
    requires forall r <- t.scanned :: r in s.scanned || exists k <- s.db.zsets :: r in s.db.zsets[k]
    ensures OnceInv(t)
  {
  }

  // ------------------------------------------------------------------------------------
  // The pending index
  // ------------------------------------------------------------------------------------

  /** The index of a shard loses at most members of one transfer. */
  ghost predicate OnlyLoses(a: Db, b: Db, t: nat) {
    forall shard: nat, r <- ZsetOf(a.zsets, TxPending(shard)) :: r.txid != t ==> r in ZsetOf(b.zsets, TxPending(shard))
  }

  lemma OnlyLosesKeepsIndexed(a: Db, b: Db, t: nat, shard: nat, x: nat)
    requires OnlyLoses(a, b, t) && x != t && Indexed(a, shard, x)
    ensures Indexed(b, shard, x)
  {
    var r :| r in ZsetOf(a.zsets, TxPending(shard)) && r.txid == x;
    assert r in ZsetOf(b.zsets, TxPending(shard));
  }

  /** A transfer other than the one whose members leave is found as before. */
  lemma StillFound(begun: map<nat, Record>, a: Db, b: Db, before: multiset<Record>, after: multiset<Record>, t: nat,
                   x: nat)
    requires x in begun && x != t && Found(begun, a, before, x) && OnlyLoses(a, b, t)
    requires Done(begun, a, x) ==> Done(begun, b, x)
    requires forall r <- before :: r.txid == x ==> r in after
    ensures Found(begun, b, after, x)
  {
    if Indexed(a, begun[x].fromShard, x) { OnlyLosesKeepsIndexed(a, b, t, begun[x].fromShard, x); }
  }

  lemma CompleteKeepsOnceInv(s: State, step: Step)
    requires OnceInv(s) && Enabled(s, step) && step.Complete?
    ensures OnceInv(Apply(s, step))
  {
    var t, rec := Apply(s, step), step.rec;
    assert Known(s.begun, rec) && Done(s.begun, s.db, rec.txid);
    CompleteKeepsTxKeys(s.begun, s.db, rec, step.doneAt);
    CompletedKeepsOnceInv(s, t, rec);
  }

  lemma CompletedKeepsOnceInv(s: State, t: State, rec: Record)
    requires OnceInv(s) && t == s.(db := t.db) && TxKeys(t.begun, t.db) && OnlyLoses(s.db, t.db, rec.txid)
    requires Done(s.begun, s.db, rec.txid) && forall k: Key :: k.TxDone? ==> (k in t.db.strs <==> k in s.db.strs)
    ensures OnceInv(t)
  {
    assert forall x: nat :: Done(t.begun, t.db, x) == Done(s.begun, s.db, x);
    forall x | x in t.begun ensures Found(t.begun, t.db, t.requeuing, x) {
      if x != rec.txid { StillFound(s.begun, s.db, t.db, s.requeuing, t.requeuing, rec.txid, x); }
    }
  }

  lemma CompleteKeepsTxKeys(begun: map<nat, Record>, db: Db, rec: Record, doneAt: int)
    requires TxKeys(begun, db) && Known(begun, rec)
    ensures TxKeys(begun, CompleteEffect(db, rec, doneAt))
    ensures OnlyLoses(db, CompleteEffect(db, rec, doneAt), rec.txid)
  {
    var d, tx := CompleteEffect(db, rec, doneAt), Tx(rec.fromShard, rec.txid);
    if tx in db.strs { assert TxKeyOk(begun, db.strs, tx); }
    forall k | k in d.strs ensures TxKeyOk(begun, d.strs, k) {
      assert k == tx || TxKeyOk(begun, db.strs, k);
    }
  }

  lemma RequeueKeepsTxKeys(begun: map<nat, Record>, db: Db, rec: Record, now: int)
    requires TxKeys(begun, db) && Known(begun, rec)
    ensures TxKeys(begun, RequeueRemove(db, rec)) && OnlyLoses(db, RequeueRemove(db, rec), rec.txid)
    ensures TxKeys(begun, RequeueAdd(db, rec, now)) && OnlyLoses(db, RequeueAdd(db, rec, now), rec.txid)
    ensures Indexed(RequeueAdd(db, rec, now), rec.fromShard, rec.txid)
  {
    assert Job(Retried(rec)) == Job(rec);
    assert Retried(rec) in ZsetOf(RequeueAdd(db, rec, now).zsets, TxPending(rec.fromShard));
  }

  lemma MarkKeepsTxKeys(begun: map<nat, Record>, db: Db, rec: Record)
    requires TxKeys(begun, db) && Known(begun, rec)
    ensures TxKeys(begun, RequeueSet(db, rec))
  {
    var d, tx := RequeueSet(db, rec), Tx(rec.fromShard, rec.txid);
    assert Job(Retried(rec)) == Job(rec);
    forall k | k in d.strs ensures TxKeyOk(begun, d.strs, k) {
      assert k == tx || TxKeyOk(begun, db.strs, k);
    }
  }

  /** A requeue takes its member out of the index; it then holds it itself. */
  lemma TakeKeepsOnceInv(s: State, t: State, rec: Record)
    requires OnceInv(s) && rec in s.scanned
    requires t == s.(db := RequeueRemove(s.db, rec), requeuing := s.requeuing + multiset{rec})
    ensures OnceInv(t)
  {
    assert Known(s.begun, rec);
    RequeueKeepsTxKeys(s.begun, s.db, rec, 0);
    assert forall x: nat :: Done(t.begun, t.db, x) == Done(s.begun, s.db, x);
    forall x | x in t.begun ensures Found(t.begun, t.db, t.requeuing, x) {
      if x == rec.txid {
        assert rec in t.requeuing;
      } else {
        StillFound(s.begun, s.db, t.db, s.requeuing, t.requeuing, rec.txid, x);
      }
    }
  }

  /** And adds it back with one more retry. */
  lemma PutKeepsOnceInv(s: State, t: State, rec: Record, now: int)
    requires OnceInv(s) && rec in s.requeuing
    requires t == s.(db := RequeueAdd(s.db, rec, now), requeuing := s.requeuing - multiset{rec},
                     readded := s.readded + {rec})
    ensures OnceInv(t)
  {
    assert Known(s.begun, rec);
    RequeueKeepsTxKeys(s.begun, s.db, rec, now);
    assert forall x: nat :: Done(t.begun, t.db, x) == Done(s.begun, s.db, x);
    forall x | x in t.begun ensures Found(t.begun, t.db, t.requeuing, x) {
      if x == rec.txid {
        assert Job(rec).fromShard == Job(s.begun[x]).fromShard;
      } else {
        StillFound(s.begun, s.db, t.db, s.requeuing, t.requeuing, rec.txid, x);
      }
    }
  }

  lemma RequeueKeepsOnceInv(s: State, step: Step)
    requires OnceInv(s) && Enabled(s, step) && (step.RequeueTake? || step.RequeuePut?)
    ensures OnceInv(Apply(s, step))
  {
    if step.RequeueTake? {
      TakeKeepsOnceInv(s, Apply(s, step), step.rec);
    } else {
      PutKeepsOnceInv(s, Apply(s, step), step.rec, step.now);
    }
  }

  lemma MarkKeepsOnceInv(s: State, step: Step)
    requires OnceInv(s) && Enabled(s, step) && step.RequeueMark?
    ensures OnceInv(Apply(s, step))
  {
    assert Known(s.begun, step.rec);
    MarkKeepsTxKeys(s.begun, s.db, step.rec);
    MarkedKeepsOnceInv(s, Apply(s, step), step.rec);
  }

  lemma MarkedKeepsOnceInv(s: State, t: State, rec: Record)
    requires OnceInv(s) && t == s.(db := RequeueSet(s.db, rec)) && TxKeys(t.begun, t.db)
    ensures OnceInv(t)
  {
    assert forall x: nat :: Done(t.begun, t.db, x) == Done(s.begun, s.db, x);
    forall x | x in t.begun ensures Found(t.begun, t.db, t.requeuing, x) {
      StillFound(s.begun, s.db, t.db, s.requeuing, t.requeuing, x + 1, x);
    }
  }

  // ------------------------------------------------------------------------------------
  // Begin and Claim
  // ------------------------------------------------------------------------------------

  /** A commit touches no transfer key; a refused request touches nothing. */
  lemma CommitKeepsTx(db: Db, f: Flight)
    requires WritesPlayer(f) && (f.req.Commit? || !Exec(db, f.req).reply.Applied?)
    ensures SameTx(db, Exec(db, f.req).db)
  {
    if f.req.Commit? && Exec(db, f.req).reply.Applied? {
      assert forall k <- f.req.Touched() :: IsData(k);
    }
  }

  lemma BeginTx(db: Db, f: Flight)
    requires WritesPlayer(f) && f.req.Begin? && Exec(db, f.req).reply.Applied?
    ensures var d, rec := Exec(db, f.req).db, f.req.rec;
      var tx, index := Tx(rec.fromShard, rec.txid), TxPending(rec.fromShard);
      && d.zsets == db.zsets[index := ZsetOf(db.zsets, index)[rec := rec.createdAt]]
      && tx !in db.strs && tx in d.strs && d.strs[tx] == TxJson(rec)
      && (forall k <- db.strs :: k.Tx? || k.TxDone? ==> k in d.strs && d.strs[k] == db.strs[k])
      && (forall k <- d.strs :: k.Tx? || k.TxDone? ==> k in db.strs || k == tx)
  {
    assert forall k <- f.req.Touched() :: IsData(k);
  }

  lemma ClaimTx(db: Db, f: Flight)
    requires WritesPlayer(f) && f.req.Claim? && Exec(db, f.req).reply.Applied?
    ensures var d, rec := Exec(db, f.req).db, f.req.rec; var done := TxDone(rec.toShard, rec.txid);
      && d.zsets == db.zsets
      && done !in db.strs && done in d.strs
      && (forall k <- db.strs :: k.Tx? || k.TxDone? ==> k in d.strs && d.strs[k] == db.strs[k])
      && (forall k <- d.strs :: k.Tx? || k.TxDone? ==> k in db.strs || k == done)
  {
    assert forall k <- f.req.Touched() :: IsData(k);
  }

  /** t is s after the Begin in flight i was applied. */
  ghost predicate JustBegun(s: State, t: State, i: nat) {
    && i in s.flights && s.flights[i].progress.Sent? && WritesPlayer(s.flights[i]) && s.flights[i].req.Begin?
    && Exec(s.db, s.flights[i].req).reply.Applied?
    && t == s.(db := Exec(s.db, s.flights[i].req).db,
               begun := s.begun[s.flights[i].req.rec.txid := s.flights[i].req.rec],
               flights := s.flights[i := s.flights[i].(progress := Answered(Applied(Num(1))))])
  }

  lemma BeginKeepsTxKeys(begun: map<nat, Record>, db: Db, f: Flight)
    requires TxKeys(begun, db) && WritesPlayer(f) && f.req.Begin? && Exec(db, f.req).reply.Applied?
    requires f.req.rec.txid !in begun
    ensures TxKeys(begun[f.req.rec.txid := f.req.rec], Exec(db, f.req).db)
  {
    BeginTx(db, f);
    var d, rec := Exec(db, f.req).db, f.req.rec;
    forall k | k in d.strs ensures TxKeyOk(begun[rec.txid := rec], d.strs, k) {
      if (k.Tx? || k.TxDone?) && k in db.strs { assert TxKeyOk(begun, db.strs, k); }
    }
  }

  lemma BeginKeepsPools(s: State, t: State, rec: Record)
    requires Pools(s) && Routed(s) && rec.txid !in s.begun && rec.txid in s.issued
    requires t.begun == s.begun[rec.txid := rec] && t.space == s.space && t.issued == s.issued && t.jobs == s.jobs
    requires t.scanned == s.scanned && t.requeuing == s.requeuing && t.readded == s.readded
    ensures Pools(t) && Routed(t)
  {
  }

  lemma BeginKeepsFlights(s: State, t: State, i: nat, rec: Record)
    requires FlightsTx(s) && i in s.flights && s.flights[i].req.Begin? && s.flights[i].req.rec == rec
    requires s.flights[i].progress.Sent? && t.issued == s.issued && t.begun == s.begun[rec.txid := rec]
    requires t.flights == s.flights[i := s.flights[i].(progress := Answered(Applied(Num(1))))]
    ensures FlightsTx(t)
  {
    forall j | j in t.flights ensures FlightTx(t.begun, t.issued, t.flights[j]) {
      assert FlightTx(s.begun, s.issued, s.flights[j]) && FlightTx(s.begun, s.issued, s.flights[i]);
      assert j != i ==> !SameBegin(s.flights[i].req, s.flights[j].req);
    }
  }

  lemma BeginKeepsCredits(s: State, t: State, i: nat)
    requires OnceInv(s) && JustBegun(s, t, i)
    ensures CreditedOnce(t)
    ensures forall x: nat :: Done(t.begun, t.db, x) == Done(s.begun, s.db, x)
  {
    var rec := s.flights[i].req.rec;
    BeginTx(s.db, s.flights[i]);
    assert FlightTx(s.begun, s.issued, s.flights[i]);
    forall x: nat ensures Done(t.begun, t.db, x) == Done(s.begun, s.db, x) {
      if x == rec.txid {
        var done := TxDone(rec.toShard, x);
        assert done in s.db.strs ==> TxKeyOk(s.begun, s.db.strs, done);
      }
    }
  }

  lemma BeginKeepsFindable(s: State, t: State, i: nat)
    requires OnceInv(s) && JustBegun(s, t, i)
    ensures Findable(t)
  {
    var rec := s.flights[i].req.rec;
    BeginTx(s.db, s.flights[i]);
    BeginKeepsCredits(s, t, i);
    assert FlightTx(s.begun, s.issued, s.flights[i]);
    BegunIsFound(s.begun, t.begun, s.db, t.db, s.requeuing, rec);
  }

  lemma BegunIsFound(begun: map<nat, Record>, begun': map<nat, Record>, a: Db, b: Db, requeuing: multiset<Record>,
                     rec: Record)
    requires rec.txid !in begun && begun' == begun[rec.txid := rec]
    requires forall x <- begun :: Found(begun, a, requeuing, x)
    requires forall x: nat :: Done(begun', b, x) == Done(begun, a, x)
    requires var index := TxPending(rec.fromShard);
      b.zsets == a.zsets[index := ZsetOf(a.zsets, index)[rec := rec.createdAt]]
    ensures forall x <- begun' :: Found(begun', b, requeuing, x)
  {
    assert rec in ZsetOf(b.zsets, TxPending(rec.fromShard));
    forall x | x in begun' && x != rec.txid ensures Found(begun', b, requeuing, x) {
      assert Found(begun, a, requeuing, x);
      if Indexed(a, begun[x].fromShard, x) { OnlyLosesKeepsIndexed(a, b, rec.txid, begun[x].fromShard, x); }
    }
  }

  lemma BeginKeepsOnceInv(s: State, t: State, i: nat)
    requires OnceInv(s) && JustBegun(s, t, i)
    ensures OnceInv(t)
  {
    assert FlightTx(s.begun, s.issued, s.flights[i]);
    BeginKeepsTxKeys(s.begun, s.db, s.flights[i]);
    BeginKeepsFlights(s, t, i, s.flights[i].req.rec);
    BeginKeepsPools(s, t, s.flights[i].req.rec);
    BeginKeepsCredits(s, t, i);
    BeginKeepsFindable(s, t, i);
  }

  /** t is s after the Claim in flight i was applied. */
  ghost predicate JustClaimed(s: State, t: State, i: nat) {
    && i in s.flights && s.flights[i].progress.Sent? && WritesPlayer(s.flights[i]) && s.flights[i].req.Claim?
    && Exec(s.db, s.flights[i].req).reply.Applied?
    && var txid := s.flights[i].req.rec.txid;
       t == s.(db := Exec(s.db, s.flights[i].req).db, settled := s.settled + {txid}, credited := s.credited + [txid],
               flights := s.flights[i := s.flights[i].(progress := Answered(Applied(Num(1))))])
  }

  lemma ClaimMarksDone(s: State, t: State, i: nat, x: nat)
    requires OnceInv(s) && JustClaimed(s, t, i)
    ensures var txid := s.flights[i].req.rec.txid;
      !Done(s.begun, s.db, txid) && (Done(t.begun, t.db, x) <==> Done(s.begun, s.db, x) || x == txid)
  {
    ClaimTx(s.db, s.flights[i]);
    assert FlightTx(s.begun, s.issued, s.flights[i]);
    var rec := s.flights[i].req.rec;
    assert Job(rec).toShard == Job(s.begun[rec.txid]).toShard;
  }

  lemma ClaimKeepsCredits(s: State, t: State, i: nat)
    requires OnceInv(s) && JustClaimed(s, t, i)
    ensures CreditedOnce(t)
  {
    forall x: nat ensures multiset(t.credited)[x] == if Done(t.begun, t.db, x) then 1 else 0 {
      ClaimMarksDone(s, t, i, x);
    }
    forall x | x in t.settled ensures Done(t.begun, t.db, x) { ClaimMarksDone(s, t, i, x); }
  }

  lemma ClaimKeepsTxKeys(begun: map<nat, Record>, db: Db, f: Flight)
    requires TxKeys(begun, db) && WritesPlayer(f) && f.req.Claim? && Exec(db, f.req).reply.Applied?
    requires Known(begun, f.req.rec)
    ensures TxKeys(begun, Exec(db, f.req).db)
  {
    ClaimTx(db, f);
    var d, rec := Exec(db, f.req).db, f.req.rec;
    assert Job(rec).toShard == Job(begun[rec.txid]).toShard;
    forall k | k in d.strs ensures TxKeyOk(begun, d.strs, k) {
      if (k.Tx? || k.TxDone?) && k in db.strs { assert TxKeyOk(begun, db.strs, k); }
    }
  }

  lemma ClaimKeepsOnceInv(s: State, t: State, i: nat)
    requires OnceInv(s) && JustClaimed(s, t, i)
    ensures OnceInv(t)
  {
    assert FlightTx(s.begun, s.issued, s.flights[i]);
    ClaimKeepsTxKeys(s.begun, s.db, s.flights[i]);
    ClaimKeepsCredits(s, t, i);
    FewerFlights(s, t);
    ClaimTx(s.db, s.flights[i]);
    forall x | x in t.begun ensures Found(t.begun, t.db, t.requeuing, x) {
      ClaimMarksDone(s, t, i, x);
      assert Found(s.begun, s.db, s.requeuing, x);
      if Indexed(s.db, s.begun[x].fromShard, x) { assert Indexed(t.db, t.begun[x].fromShard, x); }
    }
  }

  /** A Claim that answers "already processed" settles a transfer that was credited before. */
  lemma DuplicateIsDone(s: State, i: nat)
    requires OnceInv(s) && i in s.flights && s.flights[i].req.Claim? && Exec(s.db, s.flights[i].req).reply.Duplicate?
    ensures Done(s.begun, s.db, s.flights[i].req.rec.txid)
  {
    assert FlightTx(s.begun, s.issued, s.flights[i]);
    var rec := s.flights[i].req.rec;
    assert Job(rec).toShard == Job(s.begun[rec.txid]).toShard;
  }

  lemma UnappliedKeepsOnceInv(s: State, t: State, i: nat)
    requires OnceInv(s) && i in s.flights && s.flights[i].progress.Sent? && WritesPlayer(s.flights[i])
    requires s.flights[i].req.Commit? || !Exec(s.db, s.flights[i].req).reply.Applied?
    requires t == s.(db := Exec(s.db, s.flights[i].req).db, settled := t.settled, flights := t.flights)
    requires t.flights == s.flights[i := s.flights[i].(progress := Answered(Exec(s.db, s.flights[i].req).reply))]
    requires t.settled == s.settled
      || (s.flights[i].req.Claim? && Exec(s.db, s.flights[i].req).reply.Duplicate?
          && t.settled == s.settled + {s.flights[i].req.rec.txid})
    ensures OnceInv(t)
  {
    CommitKeepsTx(s.db, s.flights[i]);
    var u := t.(settled := s.settled);
    FewerFlights(s, u);
    SameTxKeepsOnceInv(s, u);
    if t.settled != s.settled {
      DuplicateIsDone(s, i);
      assert Done(t.begun, t.db, s.flights[i].req.rec.txid);
    }
    assert CreditedOnce(t) && Findable(t);
  }

  lemma BegunShape(s: State, i: nat)
    requires i in s.flights && s.flights[i].progress.Sent? && WritesPlayer(s.flights[i])
    requires s.flights[i].req.Begin? && Exec(s.db, s.flights[i].req).reply.Applied?
    ensures JustBegun(s, Executed(s, i), i)
  {
  }

  lemma ClaimedShape(s: State, i: nat)
    requires i in s.flights && s.flights[i].progress.Sent? && WritesPlayer(s.flights[i])
    requires s.flights[i].req.Claim? && Exec(s.db, s.flights[i].req).reply.Applied?
    ensures JustClaimed(s, Executed(s, i), i)
  {
  }

  lemma UnappliedShape(s: State, i: nat)
    requires i in s.flights
    requires s.flights[i].req.Commit? || !Exec(s.db, s.flights[i].req).reply.Applied?
    ensures var t, o := Executed(s, i), Exec(s.db, s.flights[i].req);
      && t == s.(db := o.db, settled := t.settled, flights := t.flights)
      && t.flights == s.flights[i := s.flights[i].(progress := Answered(o.reply))]
      && (t.settled == s.settled
          || (s.flights[i].req.Claim? && o.reply.Duplicate? && t.settled == s.settled + {s.flights[i].req.rec.txid}))
  {
  }

  lemma ExecuteKeepsOnceInv(s: State, i: nat)
    requires OnceInv(s) && CopyInv(s) && i in s.flights && s.flights[i].progress.Sent?
    ensures OnceInv(Executed(s, i))
  {
    WellIssuedRoutes(s, i);
    ExecuteCases(s, i);
  }

  lemma ExecuteCases(s: State, i: nat)
    requires OnceInv(s) && i in s.flights && s.flights[i].progress.Sent? && WritesPlayer(s.flights[i])
    ensures OnceInv(Executed(s, i))
  {
    var f := s.flights[i];
    if f.req.Begin? && Exec(s.db, f.req).reply.Applied? {
      BegunShape(s, i);
      BeginKeepsOnceInv(s, Executed(s, i), i);
    } else if f.req.Claim? && Exec(s.db, f.req).reply.Applied? {
      ClaimedShape(s, i);
      ClaimKeepsOnceInv(s, Executed(s, i), i);
    } else {
      UnappliedShape(s, i);
      UnappliedKeepsOnceInv(s, Executed(s, i), i);
    }
  }

  // ------------------------------------------------------------------------------------
  // Whole runs
  // ------------------------------------------------------------------------------------

  lemma SendStepsKeepOnceInv(s: State, step: Step)
    requires OnceInv(s) && CopyInv(s) && Enabled(s, step) && (step.Issue? || step.Fail?)
    ensures OnceInv(Apply(s, step))
  {
    if step.Issue? { IssueKeepsOnceInv(s, step); } else { FailKeepsOnceInv(s, step); }
  }

  lemma ReceiveStepsKeepOnceInv(s: State, step: Step)
    requires OnceInv(s) && CopyInv(s) && Enabled(s, step) && (step.Execute? || step.Reply?)
    ensures OnceInv(Apply(s, step))
  {
    if step.Execute? { ExecuteKeepsOnceInv(s, step.id); } else { ReplyKeepsOnceInv(s, step.id); }
  }

  lemma RecordStepsKeepOnceInv(s: State, step: Step)
    requires OnceInv(s) && CopyInv(s) && Enabled(s, step)
    requires step.Complete? || step.RequeueTake? || step.RequeuePut? || step.RequeueMark?
    ensures OnceInv(Apply(s, step))
  {
    match step {
      case Complete(_, _) => CompleteKeepsOnceInv(s, step);
      case RequeueTake(_) => RequeueKeepsOnceInv(s, step);
      case RequeuePut(_, _) => RequeueKeepsOnceInv(s, step);
      case RequeueMark(_) => MarkKeepsOnceInv(s, step);
    }
  }

  lemma StepKeepsOnceInv(s: State, step: Step)
    requires OnceInv(s) && CopyInv(s) && Enabled(s, step)
    ensures OnceInv(Apply(s, step))
  {
    if step.Issue? || step.Fail? {
      SendStepsKeepOnceInv(s, step);
    } else if step.Execute? || step.Reply? {
      ReceiveStepsKeepOnceInv(s, step);
    } else if step.Complete? || step.RequeueTake? || step.RequeuePut? || step.RequeueMark? {
      RecordStepsKeepOnceInv(s, step);
    } else if step.Publish? || step.Republish? || step.Scan? {
      PoolSteps(s, step);
    } else if step.Start? {
      StartKeepsOnceInv(s, step);
    } else {
      OwnerSteps(s, step);
    }
  }

  lemma {:induction false} RunKeepsOnceInv(s: State, steps: seq<Step>)
    requires OnceInv(s) && CopyInv(s) && IsRun(s, steps)
    ensures OnceInv(Final(s, steps)) && CopyInv(Final(s, steps))
    decreases |steps|
  {
    if steps != [] {
      StepKeepsOnceInv(s, steps[0]);
      StepKeepsCopyInv(s, steps[0]);
      RunKeepsOnceInv(Apply(s, steps[0]), steps[1..]);
    }
  }

  /** Under any interleaving, duplication and reordering, no transfer is credited twice. */
  lemma CreditedAtMostOnce(s: State, steps: seq<Step>, t: nat)
    requires Transfer.Init(s) && IsRun(s, steps)
    ensures multiset(Final(s, steps).credited)[t] <= 1
    ensures t in Final(s, steps).credited ==> t in Final(s, steps).begun
  {
    InitKeepsOnceInv(s);
    InitKeepsCopyInv(s);
    RunKeepsOnceInv(s, steps);
    var u := Final(s, steps);
    if t in u.credited { assert multiset(u.credited)[t] > 0; }
  }

  /** A begun transfer that was not credited is in the pending index, except while a requeue
      of it sits between its two commands. */
  lemma UnclaimedIsFindable(s: State, steps: seq<Step>, t: nat)
    requires Transfer.Init(s) && IsRun(s, steps) && t in Final(s, steps).begun && t !in Final(s, steps).credited
    ensures var u := Final(s, steps);
      Indexed(u.db, u.begun[t].fromShard, t) || MidRequeue(u.requeuing, t)
  {
    InitKeepsOnceInv(s);
    InitKeepsCopyInv(s);
    RunKeepsOnceInv(s, steps);
    assert multiset(Final(s, steps).credited)[t] == 0;
  }

  // ------------------------------------------------------------------------------------
  // Exactly when a transfer leaves the index
  // ------------------------------------------------------------------------------------

  /** rec is the only member of t in its sender's index. */
  ghost predicate OnlyMember(db: Db, shard: nat, t: nat, rec: Record) {
    forall r <- ZsetOf(db.zsets, TxPending(shard)) :: r.txid == t ==> r == rec
  }

  /** The step is the first command of a requeue that holds the last member of t. */
  ghost predicate Unindexes(s: State, step: Step, t: nat)
    requires t in s.begun
  {
    step.RequeueTake? && step.rec.txid == t && OnlyMember(s.db, s.begun[t].fromShard, t, step.rec)
  }

  lemma TakeUnindexesExactly(db: Db, shard: nat, t: nat, rec: Record)
    requires Indexed(db, shard, t) && rec.txid == t && rec.fromShard == shard
    ensures Indexed(RequeueRemove(db, rec), shard, t) <==> !OnlyMember(db, shard, t, rec)
  {
    var before, after := ZsetOf(db.zsets, TxPending(shard)), ZsetOf(RequeueRemove(db, rec).zsets, TxPending(shard));
    assert forall r :: r in after <==> r in before && r != rec;
  }

  lemma ExecKeepsMember(db: Db, f: Flight, shard: nat, r: Record)
    requires WritesPlayer(f) && r in ZsetOf(db.zsets, TxPending(shard))
    ensures r in ZsetOf(Exec(db, f.req).db.zsets, TxPending(shard))
  {
    if f.req.Begin? && Exec(db, f.req).reply.Applied? {
      BeginTx(db, f);
    } else if f.req.Claim? && Exec(db, f.req).reply.Applied? {
      ClaimTx(db, f);
    } else {
      CommitKeepsTx(db, f);
    }
  }

  lemma ExecutedKeepsBegun(s: State, i: nat, t: nat)
    requires i in s.flights && t in s.begun && s.flights[i].progress.Sent? && FlightTx(s.begun, s.issued, s.flights[i])
    ensures Executed(s, i).db == Exec(s.db, s.flights[i].req).db
    ensures t in Executed(s, i).begun && Executed(s, i).begun[t] == s.begun[t]
  {
  }

  /** Scripts of players only add to the index. */
  lemma ExecuteKeepsIndexed(s: State, i: nat, t: nat)
    requires OnceInv(s) && CopyInv(s) && i in s.flights && s.flights[i].progress.Sent? && t in s.begun
    requires Indexed(s.db, s.begun[t].fromShard, t)
    ensures var u := Executed(s, i); t in u.begun && Indexed(u.db, u.begun[t].fromShard, t)
  {
    WellIssuedRoutes(s, i);
    assert FlightTx(s.begun, s.issued, s.flights[i]);
    ExecutedKeepsBegun(s, i, t);
    var r :| r in ZsetOf(s.db.zsets, TxPending(s.begun[t].fromShard)) && r.txid == t;
    ExecKeepsMember(s.db, s.flights[i], s.begun[t].fromShard, r);
  }

  /** Completing or requeuing another transfer. */
  lemma RecordStepsElsewhere(s: State, step: Step, t: nat)
    requires OnceInv(s) && Enabled(s, step) && t in s.begun && Indexed(s.db, s.begun[t].fromShard, t)
    requires (step.Complete? || step.RequeueTake? || step.RequeuePut?) && step.rec.txid != t
    ensures Indexed(Apply(s, step).db, s.begun[t].fromShard, t)
  {
    var rec, shard := step.rec, s.begun[t].fromShard;
    assert Known(s.begun, rec);
    if step.Complete? {
      CompleteKeepsTxKeys(s.begun, s.db, rec, step.doneAt);
    } else {
      RequeueKeepsTxKeys(s.begun, s.db, rec, if step.RequeuePut? then step.now else 0);
    }
    OnlyLosesKeepsIndexed(s.db, Apply(s, step).db, rec.txid, shard, t);
  }

  lemma RecordStepsIndexExactly(s: State, step: Step, t: nat)
    requires OnceInv(s) && Enabled(s, step) && t in s.begun && !Done(s.begun, s.db, t)
    requires Indexed(s.db, s.begun[t].fromShard, t)
    requires step.Complete? || step.RequeueTake? || step.RequeuePut?
    ensures Apply(s, step).begun == s.begun
    ensures Indexed(Apply(s, step).db, s.begun[t].fromShard, t) <==> !Unindexes(s, step, t)
  {
    var rec, shard := step.rec, s.begun[t].fromShard;
    assert Known(s.begun, rec);
    if step.Complete? { assert Done(s.begun, s.db, rec.txid); }
    if rec.txid != t {
      RecordStepsElsewhere(s, step, t);
    } else {
      assert Job(rec).fromShard == Job(s.begun[t]).fromShard;
      if step.RequeueTake? { TakeUnindexesExactly(s.db, shard, t, rec); }
    }
  }

  lemma OtherStepsKeepIndex(s: State, step: Step)
    requires s.space > 0 && Enabled(s, step)
    requires !step.Execute? && !step.Complete? && !step.RequeueTake? && !step.RequeuePut?
    ensures Apply(s, step).begun == s.begun && Apply(s, step).db.zsets == s.db.zsets
  {
    if step.Reply? { ReplyTxShape(s, step.id); }
  }

  /** A step takes an uncredited transfer out of its sender's index exactly when it is the first
      command of a requeue that holds its only member there. */
  lemma LeavesIndexExactly(s: State, step: Step, t: nat)
    requires OnceInv(s) && CopyInv(s) && Enabled(s, step) && t in s.begun && !Done(s.begun, s.db, t)
    requires Indexed(s.db, s.begun[t].fromShard, t)
    ensures var u := Apply(s, step);
      t in u.begun && (Indexed(u.db, u.begun[t].fromShard, t) <==> !Unindexes(s, step, t))
  {
    if step.Execute? {
      ExecuteKeepsIndexed(s, step.id, t);
    } else if step.Complete? || step.RequeueTake? || step.RequeuePut? {
      RecordStepsIndexExactly(s, step, t);
    } else {
      OtherStepsKeepIndex(s, step);
    }
  }
}
