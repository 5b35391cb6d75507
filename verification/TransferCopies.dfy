/** Memory and store agree: whatever owners come and go, a live owner's copy of an idle
    player equals what Redis holds, and at most one write per player is in flight. */
module TransferCopies {
  import opened Keyspace
  import opened Scripts
  import opened Bags
  import opened Transfer

  predicate Live(db: Db, owner: (nat, int)) {
    owner.1 == EpochOf(db, owner.0)
  }

  function OwnerOf(f: Flight): (nat, int) {
    (f.req.Target(), f.req.CallerEpoch())
  }

  predicate Wrote(f: Flight) {
    f.progress.Answered? && f.progress.reply.Applied?
  }

  /** Facts about a flight that never change after it is issued. */
  ghost predicate WellIssued(space: nat, f: Flight)
    requires space > 0
  {
    && f.req.Target() == f.uid % space && Stocked(f.next.bag.items) && WritesPlayer(f)
    && (f.req.Begin? ==> SendsTransfer(space, f.uid, f.req.rec, f.base, f.next))
    && (f.req.Claim? ==> f.req.rec.toUid == f.uid && exists r :: Credit(f.base, f.req.rec, r) == Some(f.next))
  }

  function WrittenPairs(req: Request): map<Key, Val> {
    match req
    case Begin(_, _, kv) => kv
    case Claim(_, _, kv) => kv
    case Commit(c) => c.kv
    case _ => map[]
  }

  /** The request writes exactly the player's next copy. */
  predicate WritesPlayer(f: Flight) {
    && (f.req.Begin? || f.req.Claim? || f.req.Commit?) && Proper(f.req)
    && f.next.bag.capacity > 0 && Serialises(WrittenPairs(f.req), f.uid, f.base, f.next)
  }

  ghost predicate Started(s: State) {
    && (forall k <- s.started :: k.1 <= EpochOf(s.db, k.0))
    && (forall k <- s.owners :: k in s.started)
    && (forall i <- s.flights :: OwnerOf(s.flights[i]) in s.started)
  }

  ghost predicate Issued(s: State) {
    && s.space > 0
    && (forall i <- s.flights :: i < s.nextFlight && WellIssued(s.space, s.flights[i]) && s.flights[i].uid in s.uids)
  }

  /** An owner never has two unanswered writes for one player, even after it has stopped. */
  ghost predicate Single(flights: map<nat, Flight>) {
    forall i <- flights, j <- flights ::
      flights[i].uid == flights[j].uid && OwnerOf(flights[i]) == OwnerOf(flights[j]) ==> i == j
  }

  /** A write not yet run, sent under the live epoch, was computed from the stored copy. */
  ghost predicate Current(db: Db, flights: map<nat, Flight>) {
    forall i <- flights :: flights[i].progress.Sent? && Live(db, OwnerOf(flights[i]))
      ==> Stored(db, flights[i].uid) == flights[i].base
  }

  predicate Sound(h: Holdings) {
    h.bag.capacity > 0 && Stocked(h.bag.items)
  }

  /** Memory agrees with the store: equal when idle, and when busy equal to what the flight
      started from or, once it has been applied, to what it wrote. */
  predicate Agrees(db: Db, flights: map<nat, Flight>, u: nat, r: Resident) {
    match r.busy
    case None => r.mem == Stored(db, u)
    case Some(i) => i in flights && Stored(db, u) == if Wrote(flights[i]) then flights[i].next else r.mem
  }

  /** The busy mark names the player's own flight. */
  predicate Marked(flights: map<nat, Flight>, k: (nat, int), u: nat, r: Resident) {
    r.busy.Some? ==>
      && r.busy.value in flights
      && flights[r.busy.value].uid == u && OwnerOf(flights[r.busy.value]) == k && flights[r.busy.value].base == r.mem
  }

  predicate PlayerFine(space: nat, uids: set<nat>, db: Db, flights: map<nat, Flight>, k: (nat, int), u: nat,
                       r: Resident)
    requires space > 0
  {
    && u in uids && u % space == k.0 && Sound(r.mem) && Marked(flights, k, u, r)
    && (Live(db, k) ==> Agrees(db, flights, u, r))
  }

  predicate LoadFine(space: nat, uids: set<nat>, db: Db, k: (nat, int), u: nat, h: Holdings)
    requires space > 0
  {
    u in uids && u % space == k.0 && Sound(h) && (Live(db, k) ==> h == Stored(db, u))
  }

  /** A flight of this owner is what its player waits for. */
  predicate Awaited(k: (nat, int), players: map<nat, Resident>, i: nat, f: Flight) {
    OwnerOf(f) == k ==> f.uid in players && players[f.uid].busy == Some(i)
  }

  ghost predicate OwnerFine(space: nat, uids: set<nat>, db: Db, flights: map<nat, Flight>, k: (nat, int), o: Owner) {
    && space > 0 && o.players.Keys !! o.loads.Keys
    && (forall u <- o.players :: PlayerFine(space, uids, db, flights, k, u, o.players[u]))
    && (forall u <- o.loads :: LoadFine(space, uids, db, k, u, o.loads[u]))
    && (forall i <- flights :: Awaited(k, o.players, i, flights[i]))
  }

  ghost predicate Owners(s: State) {
    forall k <- s.owners :: OwnerFine(s.space, s.uids, s.db, s.flights, k, s.owners[k])
  }

  ghost predicate Stock(s: State) {
    forall u <- s.uids :: Stocked(Stored(s.db, u).bag.items)
  }

  ghost predicate CopyInv(s: State) {
    Started(s) && Issued(s) && Single(s.flights) && Current(s.db, s.flights) && Owners(s) && Stock(s)
  }

  lemma InitKeepsCopyInv(s: State)
    requires Transfer.Init(s)
    ensures CopyInv(s)
  {
  }

  // ------------------------------------------------------------------------------------
  // What the scripts do to stored players
  // ------------------------------------------------------------------------------------

  lemma WholeIsData(uid: nat, h: Holdings)
    ensures forall k <- Whole(uid, h) :: IsData(k) && k.Player? && k.uid == uid
  {
  }

  /** Serialising the modules and loading them back yields the same player, and no other
      player is affected. */
  lemma WrittenPlayerReadsBack(a: Db, b: Db, kv: map<Key, Val>, uid: nat, base: Holdings, next: Holdings, u: nat)
    requires Serialises(kv, uid, base, next) && next.bag.capacity > 0
    requires forall m :: Player(u, m) in b.strs <==> Player(u, m) in a.strs || Player(u, m) in kv
    requires forall m :: Player(u, m) in b.strs ==>
      b.strs[Player(u, m)] == if Player(u, m) in kv then kv[Player(u, m)] else a.strs[Player(u, m)]
    ensures u != uid ==> Stored(b, u) == Stored(a, u)
    ensures u == uid && Stored(a, u) == base ==> Stored(b, u) == next
  {
  }

  /** An applied request adds its pairs to the player keys and changes no other player key. */
  lemma AppliedAddsPairs(db: Db, f: Flight, k: Key)
    requires WritesPlayer(f) && k.Player? && Exec(db, f.req).reply.Applied?
    ensures var strs := Exec(db, f.req).db.strs; var kv := WrittenPairs(f.req);
      && (k in strs <==> k in db.strs || k in kv)
      && (k in strs ==> strs[k] == if k in kv then kv[k] else db.strs[k])
  {
  }

  /** An applied flight turns the stored copy from base into next; no other player moves. */
  lemma ExecuteStores(db: Db, f: Flight, u: nat)
    requires WritesPlayer(f)
    ensures u != f.uid || !Exec(db, f.req).reply.Applied? ==> Stored(Exec(db, f.req).db, u) == Stored(db, u)
    ensures Exec(db, f.req).reply.Applied? && Stored(db, f.uid) == f.base ==>
      Stored(Exec(db, f.req).db, f.uid) == f.next
  {
    var o := Exec(db, f.req);
    if o.reply.Applied? {
      forall k: Key | k.Player? { AppliedAddsPairs(db, f, k); }
      WrittenPlayerReadsBack(db, o.db, WrittenPairs(f.req), f.uid, f.base, f.next, u);
      WrittenPlayerReadsBack(db, o.db, WrittenPairs(f.req), f.uid, f.base, f.next, f.uid);
    } else {
      UnappliedChangesNothing(db, f.req);
    }
  }

  /** A flight's script moves no epoch, and is applied only under the live epoch. */
  lemma ExecuteKeepsEpochs(db: Db, f: Flight, shard: nat)
    requires WritesPlayer(f)
    ensures EpochOf(Exec(db, f.req).db, shard) == EpochOf(db, shard)
    ensures Exec(db, f.req).reply.Applied? ==> EpochOf(db, f.req.Target()) <= f.req.CallerEpoch()
  {
    EpochsOnlyRise(db, f.req, shard);
  }

  /** The databases hold the same players and the same epochs. */
  ghost predicate SamePlayers(a: Db, b: Db) {
    && (forall u: nat :: Stored(a, u) == Stored(b, u))
    && (forall shard: nat :: EpochOf(a, shard) == EpochOf(b, shard))
  }

  /** Steps that touch neither players in memory, nor flights, nor stored players. */
  ghost predicate Aside(s: State, t: State) {
    && t.space == s.space && t.uids == s.uids && t.owners == s.owners && t.started == s.started
    && t.flights == s.flights && t.nextFlight == s.nextFlight && SamePlayers(s.db, t.db)
  }

  lemma SamePlayersKeepOwner(space: nat, uids: set<nat>, a: Db, b: Db, flights: map<nat, Flight>, k: (nat, int),
                             o: Owner)
    requires OwnerFine(space, uids, a, flights, k, o) && SamePlayers(a, b)
    ensures OwnerFine(space, uids, b, flights, k, o)
  {
    forall u | u in o.players && Live(b, k) ensures Agrees(b, flights, u, o.players[u]) {
      assert Agrees(a, flights, u, o.players[u]);
    }
  }

  lemma AsideKeepsCopyInv(s: State, t: State)
    requires CopyInv(s) && Aside(s, t)
    ensures CopyInv(t)
  {
    forall k | k in t.owners ensures OwnerFine(t.space, t.uids, t.db, t.flights, k, t.owners[k]) {
      SamePlayersKeepOwner(s.space, s.uids, s.db, t.db, s.flights, k, s.owners[k]);
    }
  }

  lemma QuietStepsAside(s: State, step: Step)
    requires s.space > 0 && Enabled(s, step)
    requires step.BagFull? || step.Publish? || step.Republish? || step.Scan?
    ensures Aside(s, Apply(s, step))
  {
    assert Apply(s, step).db == s.db;
  }

  lemma QuietSteps(s: State, step: Step)
    requires CopyInv(s) && Enabled(s, step)
    requires step.BagFull? || step.Publish? || step.Republish? || step.Scan?
    ensures CopyInv(Apply(s, step))
  {
    QuietStepsAside(s, step);
    AsideKeepsCopyInv(s, Apply(s, step));
  }

  lemma SameKeysSamePlayers(a: Db, b: Db)
    requires forall k: Key :: k.Player? || k.Epoch? ==> (k in a.strs <==> k in b.strs)
    requires forall k: Key :: (k.Player? || k.Epoch?) && k in a.strs ==> a.strs[k] == b.strs[k]
    ensures SamePlayers(a, b)
  {
  }

  /** Completing and requeueing touch no player and no epoch. */
  lemma BookkeepingKeepsPlayers(db: Db, rec: Record, at: int)
    ensures SamePlayers(db, CompleteEffect(db, rec, at)) && SamePlayers(db, RequeueRemove(db, rec))
    ensures SamePlayers(db, RequeueAdd(db, rec, at)) && SamePlayers(db, RequeueSet(db, rec))
  {
    SameKeysSamePlayers(db, CompleteEffect(db, rec, at));
    SameKeysSamePlayers(db, RequeueRemove(db, rec));
    SameKeysSamePlayers(db, RequeueAdd(db, rec, at));
    SameKeysSamePlayers(db, RequeueSet(db, rec));
  }

  lemma BookStepsAside(s: State, step: Step)
    requires s.space > 0 && Enabled(s, step)
    requires step.Complete? || step.RequeueTake? || step.RequeuePut? || step.RequeueMark?
    ensures Aside(s, Apply(s, step))
  {
    var at := if step.Complete? then step.doneAt else if step.RequeuePut? then step.now else 0;
    BookkeepingKeepsPlayers(s.db, step.rec, at);
    BookStepsShape(s, step, at);
  }

  lemma BookStepsShape(s: State, step: Step, at: int)
    requires s.space > 0 && Enabled(s, step)
    requires step.Complete? || step.RequeueTake? || step.RequeuePut? || step.RequeueMark?
    requires step.Complete? ==> at == step.doneAt
    requires step.RequeuePut? ==> at == step.now
    ensures var t := Apply(s, step);
      && t == s.(db := t.db, requeuing := t.requeuing, readded := t.readded)
      && t.db == match step
                 case Complete(rec, _) => CompleteEffect(s.db, rec, at)
                 case RequeueTake(rec) => RequeueRemove(s.db, rec)
                 case RequeuePut(rec, _) => RequeueAdd(s.db, rec, at)
                 case _ => RequeueSet(s.db, step.rec)
  {
  }

  lemma BookSteps(s: State, step: Step)
    requires CopyInv(s) && Enabled(s, step)
    requires step.Complete? || step.RequeueTake? || step.RequeuePut? || step.RequeueMark?
    ensures CopyInv(Apply(s, step))
  {
    BookStepsAside(s, step);
    AsideKeepsCopyInv(s, Apply(s, step));
  }

  // ------------------------------------------------------------------------------------
  // Owners come and go
  // ------------------------------------------------------------------------------------

  lemma RaiseMovesOneEpoch(db: Db, shard: nat, epoch: int, other: nat, u: nat)
    requires EpochOf(db, shard) < epoch
    ensures var d := Exec(db, RaiseEpoch(shard, epoch)).db;
      && Stored(d, u) == Stored(db, u)
      && EpochOf(d, other) == if other == shard then epoch else EpochOf(db, other)
  {
  }

  /** The databases differ only in that owner has raised its shard's epoch. */
  ghost predicate RaisedBy(a: Db, b: Db, owner: (nat, int)) {
    && EpochOf(a, owner.0) < owner.1
    && (forall u: nat :: Stored(b, u) == Stored(a, u))
    && (forall other: nat :: EpochOf(b, other) == if other == owner.0 then owner.1 else EpochOf(a, other))
  }

  /** A raise makes every earlier owner of the shard stale, so nothing it holds matters. */
  lemma RaiseKeepsOwner(space: nat, uids: set<nat>, a: Db, b: Db, flights: map<nat, Flight>, k: (nat, int), o: Owner,
                        owner: (nat, int))
    requires OwnerFine(space, uids, a, flights, k, o) && RaisedBy(a, b, owner) && k.1 <= EpochOf(a, k.0)
    ensures OwnerFine(space, uids, b, flights, k, o)
  {
    assert Live(b, k) ==> Live(a, k);
    forall u | u in o.players && Live(b, k) ensures Agrees(b, flights, u, o.players[u]) {
      assert Agrees(a, flights, u, o.players[u]);
    }
  }

  lemma StartKeepsCopyInv(s: State, step: Step)
    requires CopyInv(s) && Enabled(s, step) && step.Start?
    ensures CopyInv(Apply(s, step))
  {
    if EpochOf(s.db, step.shard) < step.epoch {
      var t, owner := Apply(s, step), (step.shard, step.epoch);
      forall u: nat, other: nat
        ensures Stored(t.db, u) == Stored(s.db, u)
        ensures EpochOf(t.db, other) == if other == step.shard then step.epoch else EpochOf(s.db, other)
      {
        RaiseMovesOneEpoch(s.db, step.shard, step.epoch, other, u);
      }
      assert RaisedBy(s.db, t.db, owner);
      StartedKeepsCopyInv(s, t, owner);
    }
  }

  /** t is s after owner raised its shard's epoch and started with nothing loaded. */
  ghost predicate JustStarted(s: State, t: State, owner: (nat, int)) {
    && owner !in s.started && RaisedBy(s.db, t.db, owner)
    && t == s.(db := t.db, started := s.started + {owner}, owners := s.owners[owner := Owner(map[], map[])])
  }

  lemma StartedKeepsOwners(s: State, t: State, owner: (nat, int))
    requires s.space > 0 && Started(s) && Owners(s) && JustStarted(s, t, owner)
    ensures Owners(t)
  {
    forall k | k in t.owners ensures OwnerFine(t.space, t.uids, t.db, t.flights, k, t.owners[k]) {
      if k == owner {
        assert forall i <- s.flights :: OwnerOf(s.flights[i]) != owner;
      } else {
        assert OwnerFine(s.space, s.uids, s.db, s.flights, k, s.owners[k]);
        RaiseKeepsOwner(s.space, s.uids, s.db, t.db, s.flights, k, s.owners[k], owner);
      }
    }
  }

  lemma StartedKeepsRest(s: State, t: State, owner: (nat, int))
    requires Started(s) && Current(s.db, s.flights) && Stock(s) && JustStarted(s, t, owner)
    ensures Started(t) && Current(t.db, t.flights) && Stock(t)
  {
    assert forall k <- s.started :: Live(t.db, k) ==> Live(s.db, k);
  }

  lemma StartedKeepsCopyInv(s: State, t: State, owner: (nat, int))
    requires CopyInv(s) && JustStarted(s, t, owner)
    ensures CopyInv(t)
  {
    StartedKeepsOwners(s, t, owner);
    StartedKeepsRest(s, t, owner);
  }

  /** Only one owner's memory changes. */
  lemma SwapKeepsCopyInv(s: State, t: State, k: (nat, int), o: Owner)
    requires CopyInv(s) && k in s.owners && t == s.(owners := s.owners[k := o])
    requires OwnerFine(s.space, s.uids, s.db, s.flights, k, o)
    ensures CopyInv(t)
  {
  }

  lemma StopKeepsCopyInv(s: State, k: (nat, int))
    requires CopyInv(s)
    ensures CopyInv(s.(owners := s.owners - {k}))
  {
  }

  /** Reading a player, handing it to the actor, and forgetting an idle one. */
  lemma ReadKeepsOwner(space: nat, uids: set<nat>, db: Db, flights: map<nat, Flight>, k: (nat, int), o: Owner, u: nat)
    requires OwnerFine(space, uids, db, flights, k, o)
    requires u in uids && u % space == k.0 && u !in o.players && Stocked(Stored(db, u).bag.items)
    ensures OwnerFine(space, uids, db, flights, k, o.(loads := o.loads[u := Stored(db, u)]))
  {
  }

  lemma LoadedKeepsOwner(space: nat, uids: set<nat>, db: Db, flights: map<nat, Flight>, k: (nat, int), o: Owner, u: nat)
    requires OwnerFine(space, uids, db, flights, k, o) && u in o.loads
    ensures OwnerFine(space, uids, db, flights, k,
                      Owner(o.players[u := Resident(o.loads[u], None)], o.loads - {u}))
    ensures OwnerFine(space, uids, db, flights, k, o.(loads := o.loads - {u}))
  {
    assert forall i <- flights :: OwnerOf(flights[i]) == k ==> flights[i].uid in o.players && flights[i].uid != u;
  }

  lemma UnloadKeepsOwner(space: nat, uids: set<nat>, db: Db, flights: map<nat, Flight>, k: (nat, int), o: Owner, u: nat)
    requires OwnerFine(space, uids, db, flights, k, o) && u in o.players && o.players[u].busy.None?
    ensures OwnerFine(space, uids, db, flights, k, o.(players := o.players - {u}))
  {
    assert forall i <- flights :: OwnerOf(flights[i]) == k ==> flights[i].uid in o.players && flights[i].uid != u;
  }

  lemma LoadStepsKeepCopyInv(s: State, step: Step)
    requires CopyInv(s) && Enabled(s, step) && (step.Read? || step.Loaded?)
    ensures CopyInv(Apply(s, step))
  {
    var k, o, u := step.owner, s.owners[step.owner], step.uid;
    assert OwnerFine(s.space, s.uids, s.db, s.flights, k, o);
    if step.Read? {
      ReadKeepsOwner(s.space, s.uids, s.db, s.flights, k, o, u);
      SwapKeepsCopyInv(s, Apply(s, step), k, o.(loads := o.loads[u := Stored(s.db, u)]));
    } else {
      LoadedKeepsOwner(s.space, s.uids, s.db, s.flights, k, o, u);
      SwapKeepsCopyInv(s, Apply(s, step), k, Owner(o.players[u := Resident(o.loads[u], None)], o.loads - {u}));
    }
  }

  lemma DropStepsKeepCopyInv(s: State, step: Step)
    requires CopyInv(s) && Enabled(s, step) && (step.LoadFailed? || step.Unload?)
    ensures CopyInv(Apply(s, step))
  {
    var k, o, u := step.owner, s.owners[step.owner], step.uid;
    assert OwnerFine(s.space, s.uids, s.db, s.flights, k, o);
    if step.LoadFailed? {
      LoadedKeepsOwner(s.space, s.uids, s.db, s.flights, k, o, u);
      SwapKeepsCopyInv(s, Apply(s, step), k, o.(loads := o.loads - {u}));
    } else {
      UnloadKeepsOwner(s.space, s.uids, s.db, s.flights, k, o, u);
      SwapKeepsCopyInv(s, Apply(s, step), k, o.(players := o.players - {u}));
    }
  }

  // ------------------------------------------------------------------------------------
  // One write in flight per player
  // ------------------------------------------------------------------------------------

  lemma {:induction false} AddAllKeepsCapacity(bag: BagData, atts: seq<Attachment>, r: Receipt)
    ensures AddAll(bag, atts, r).Some? ==> AddAll(bag, atts, r).value.capacity == bag.capacity
    decreases |atts|
  {
    if atts != [] {
      var id := if r.instances == [] then 0 else r.instances[0];
      var next := Added(bag, id, atts[0].tpl, atts[0].count, r.now, atts[0].tpl in r.stackable);
      if next.Some? {
        AddAllKeepsCapacity(next.value, atts[1..], r.(instances := if r.instances == [] then [] else r.instances[1..]));
      }
    }
  }

  lemma NextIsSound(s: State, uid: nat, req: Request, base: Holdings, next: Holdings, receipt: Receipt)
    requires s.space > 0 && MayIssue(s, uid, req, base, next, receipt) && Sound(base)
    ensures Sound(next)
  {
    match req {
      case Begin(_, rec, _) => DebitTakesCarried(base, rec, Goods(0));
      case Claim(_, rec, _) =>
        CreditGivesCarried(base, rec, receipt, Goods(0));
        AddAllKeepsCapacity(base.bag, rec.items, receipt);
      case _ =>
    }
  }

  lemma IssuedIsWellIssued(s: State, f: Flight, receipt: Receipt)
    requires s.space > 0 && MayIssue(s, f.uid, f.req, f.base, f.next, receipt) && Sound(f.base)
    ensures WellIssued(s.space, f)
  {
    NextIsSound(s, f.uid, f.req, f.base, f.next, receipt);
    WholeIsData(f.uid, f.next);
  }

  lemma NewFlightKeepsOwner(space: nat, uids: set<nat>, db: Db, flights: map<nat, Flight>, k: (nat, int), o: Owner,
                            n: nat, f: Flight)
    requires OwnerFine(space, uids, db, flights, k, o) && n !in flights && OwnerOf(f) != k
    ensures OwnerFine(space, uids, db, flights[n := f], k, o)
  {
  }

  lemma IssueKeepsOwner(space: nat, uids: set<nat>, db: Db, flights: map<nat, Flight>, k: (nat, int), o: Owner,
                        n: nat, f: Flight)
    requires OwnerFine(space, uids, db, flights, k, o) && n !in flights && OwnerOf(f) == k && f.progress == Sent
    requires f.uid in o.players && o.players[f.uid] == Resident(f.base, None)
    ensures OwnerFine(space, uids, db, flights[n := f], k, o.(players := o.players[f.uid := Resident(f.base, Some(n))]))
  {
    assert forall i <- flights :: OwnerOf(flights[i]) == k ==> flights[i].uid != f.uid;
  }

  /** t is s after owner k issued flight n for its idle player. */
  ghost predicate JustIssued(s: State, t: State, k: (nat, int), n: nat, f: Flight) {
    && k in s.owners && f.uid in s.owners[k].players && s.owners[k].players[f.uid] == Resident(f.base, None)
    && n == s.nextFlight && OwnerOf(f) == k && f.progress == Sent
    && t.space == s.space && t.uids == s.uids && t.db == s.db && t.started == s.started
    && t.flights == s.flights[n := f] && t.nextFlight == n + 1
    && t.owners == s.owners[k := s.owners[k].(players := s.owners[k].players[f.uid := Resident(f.base, Some(n))])]
  }

  lemma IssuedKeepsOwners(s: State, t: State, k: (nat, int), n: nat, f: Flight)
    requires Owners(s) && n !in s.flights && JustIssued(s, t, k, n, f)
    ensures Owners(t)
  {
    assert OwnerFine(s.space, s.uids, s.db, s.flights, k, s.owners[k]);
    IssueKeepsOwner(s.space, s.uids, s.db, s.flights, k, s.owners[k], n, f);
    forall k' | k' in t.owners ensures OwnerFine(t.space, t.uids, t.db, t.flights, k', t.owners[k']) {
      if k' != k { NewFlightKeepsOwner(s.space, s.uids, s.db, s.flights, k', s.owners[k'], n, f); }
    }
  }

  lemma IssuedKeepsIssued(s: State, t: State, k: (nat, int), n: nat, f: Flight)
    requires Issued(s) && JustIssued(s, t, k, n, f) && WellIssued(s.space, f) && f.uid in s.uids
    ensures Issued(t)
  {
  }

  lemma IssuedKeepsRest(s: State, t: State, k: (nat, int), n: nat, f: Flight)
    requires Started(s) && Issued(s) && Stock(s)
    requires JustIssued(s, t, k, n, f) && WellIssued(s.space, f) && f.uid in s.uids
    ensures Started(t) && Issued(t) && Stock(t)
  {
    IssuedKeepsIssued(s, t, k, n, f);
  }

  lemma IssuedKeepsCopyInv(s: State, t: State, k: (nat, int), n: nat, f: Flight)
    requires CopyInv(s) && JustIssued(s, t, k, n, f) && WellIssued(s.space, f)
    ensures CopyInv(t)
  {
    assert OwnerFine(s.space, s.uids, s.db, s.flights, k, s.owners[k]);
    assert n !in s.flights;
    IssuedKeepsOwners(s, t, k, n, f);
    IssuedKeepsRest(s, t, k, n, f);
    IssueKeepsSingle(s.space, s.uids, s.db, s.flights, k, s.owners[k], n, f);
  }

  lemma IssueKeepsCopyInv(s: State, step: Step)
    requires CopyInv(s) && Enabled(s, step) && step.Issue?
    ensures CopyInv(Apply(s, step))
  {
    var k := step.owner;
    var f := Flight(step.uid, Memory(s, k, step.uid), step.next, step.req, Sent);
    assert OwnerFine(s.space, s.uids, s.db, s.flights, k, s.owners[k]);
    IssuedIsWellIssued(s, f, step.receipt);
    IssueShape(s, step, f);
    IssuedKeepsCopyInv(s, Apply(s, step), k, s.nextFlight, f);
  }

  lemma IssueShape(s: State, step: Step, f: Flight)
    requires s.space > 0 && Enabled(s, step) && step.Issue?
    requires f == Flight(step.uid, Memory(s, step.owner, step.uid), step.next, step.req, Sent)
    requires step.uid % s.space == step.owner.0
    ensures JustIssued(s, Apply(s, step), step.owner, s.nextFlight, f)
  {
  }

  lemma IssueKeepsSingle(space: nat, uids: set<nat>, db: Db, flights: map<nat, Flight>, k: (nat, int), o: Owner,
                         n: nat, f: Flight)
    requires OwnerFine(space, uids, db, flights, k, o) && n !in flights && OwnerOf(f) == k && Single(flights)
    requires f.uid in o.players && o.players[f.uid] == Resident(f.base, None) && Current(db, flights)
    ensures Single(flights[n := f]) && Current(db, flights[n := f])
  {
    assert forall i <- flights :: OwnerOf(flights[i]) == k ==> flights[i].uid != f.uid;
  }

  /** What an answer may change: the flight's own player, and only if it was written by the
      live owner. */
  ghost predicate AnsweredTo(a: Db, b: Db, f: Flight, f': Flight) {
    && f.progress.Sent? && f' == f.(progress := f'.progress) && !f'.progress.Sent?
    && (forall shard: nat :: EpochOf(a, shard) == EpochOf(b, shard))
    && (forall u: nat :: u != f.uid || !Wrote(f') ==> Stored(b, u) == Stored(a, u))
    && (Wrote(f') ==> Stored(b, f.uid) == f.next && Live(a, OwnerOf(f)))
  }

  lemma AnswerKeepsPlayer(space: nat, uids: set<nat>, a: Db, b: Db, flights: map<nat, Flight>, k: (nat, int),
                          players: map<nat, Resident>, i: nat, f': Flight, u: nat)
    requires space > 0 && i in flights && AnsweredTo(a, b, flights[i], f') && Awaited(k, players, i, flights[i])
    requires flights[i].uid % space == OwnerOf(flights[i]).0
    requires u in players && PlayerFine(space, uids, a, flights, k, u, players[u])
    ensures PlayerFine(space, uids, b, flights[i := f'], k, u, players[u])
  {
    if Live(b, k) && u == flights[i].uid && Wrote(f') { assert k == OwnerOf(flights[i]); }
  }

  lemma AnswerKeepsLoad(space: nat, uids: set<nat>, a: Db, b: Db, f: Flight, f': Flight, k: (nat, int), u: nat,
                        h: Holdings)
    requires space > 0 && AnsweredTo(a, b, f, f') && f.uid % space == OwnerOf(f).0
    requires LoadFine(space, uids, a, k, u, h) && (OwnerOf(f) == k ==> u != f.uid)
    ensures LoadFine(space, uids, b, k, u, h)
  {
  }

  lemma AnswerKeepsOwner(space: nat, uids: set<nat>, a: Db, b: Db, flights: map<nat, Flight>, k: (nat, int), o: Owner,
                         i: nat, f': Flight)
    requires OwnerFine(space, uids, a, flights, k, o) && i in flights && AnsweredTo(a, b, flights[i], f')
    requires flights[i].uid % space == OwnerOf(flights[i]).0
    ensures OwnerFine(space, uids, b, flights[i := f'], k, o)
  {
    assert Awaited(k, o.players, i, flights[i]);
    forall u | u in o.players ensures PlayerFine(space, uids, b, flights[i := f'], k, u, o.players[u]) {
      AnswerKeepsPlayer(space, uids, a, b, flights, k, o.players, i, f', u);
    }
    forall u | u in o.loads ensures LoadFine(space, uids, b, k, u, o.loads[u]) {
      AnswerKeepsLoad(space, uids, a, b, flights[i], f', k, u, o.loads[u]);
    }
  }

  lemma AnswerKeepsCurrent(space: nat, a: Db, b: Db, flights: map<nat, Flight>, i: nat, f': Flight)
    requires space > 0 && Single(flights) && Current(a, flights) && i in flights && AnsweredTo(a, b, flights[i], f')
    requires forall j <- flights :: flights[j].uid % space == OwnerOf(flights[j]).0
    ensures Single(flights[i := f']) && Current(b, flights[i := f'])
  {
    var f := flights[i];
    forall j | j in flights && j != i && flights[j].progress.Sent? && Live(b, OwnerOf(flights[j]))
      ensures Stored(b, flights[j].uid) == flights[j].base
    {
      if flights[j].uid == f.uid && Wrote(f') {
        assert false;
      }
    }
  }

  /** t is s after flight i was answered. */
  ghost predicate JustAnswered(s: State, t: State, i: nat, f': Flight) {
    && i in s.flights && AnsweredTo(s.db, t.db, s.flights[i], f')
    && t.space == s.space && t.uids == s.uids && t.owners == s.owners && t.started == s.started
    && t.nextFlight == s.nextFlight && t.flights == s.flights[i := f']
  }

  lemma WellIssuedRoutes(s: State, i: nat)
    requires Issued(s) && i in s.flights
    ensures s.flights[i].uid % s.space == OwnerOf(s.flights[i]).0
    ensures WritesPlayer(s.flights[i]) && Sound(s.flights[i].next)
  {
    assert WellIssued(s.space, s.flights[i]);
  }

  lemma AnswerKeepsOwners(s: State, t: State, i: nat, f': Flight)
    requires Owners(s) && Issued(s) && JustAnswered(s, t, i, f')
    ensures Owners(t)
  {
    WellIssuedRoutes(s, i);
    forall k | k in t.owners ensures OwnerFine(t.space, t.uids, t.db, t.flights, k, t.owners[k]) {
      AnswerKeepsOwner(s.space, s.uids, s.db, t.db, s.flights, k, s.owners[k], i, f');
    }
  }

  lemma AnswerKeepsRest(s: State, t: State, i: nat, f': Flight)
    requires Started(s) && Issued(s) && Stock(s) && JustAnswered(s, t, i, f')
    ensures Started(t) && Issued(t) && Stock(t)
  {
    AnswerKeepsIssued(s, t, i, f');
    WellIssuedRoutes(s, i);
    AnswerKeepsStock(s, t, i, f');
    assert OwnerOf(f') == OwnerOf(s.flights[i]);
  }

  lemma AnswerKeepsStock(s: State, t: State, i: nat, f': Flight)
    requires Stock(s) && JustAnswered(s, t, i, f') && Stocked(s.flights[i].next.bag.items)
    ensures Stock(t)
  {
    forall u | u in t.uids ensures Stocked(Stored(t.db, u).bag.items) {
      assert Stocked(Stored(s.db, u).bag.items);
    }
  }

  lemma AnswerKeepsIssued(s: State, t: State, i: nat, f': Flight)
    requires Issued(s) && JustAnswered(s, t, i, f')
    ensures Issued(t)
  {
    assert WellIssued(s.space, s.flights[i]);
    SameIssue(s.space, s.flights[i], f');
  }

  lemma SameIssue(space: nat, f: Flight, f': Flight)
    requires space > 0 && WellIssued(space, f) && f' == f.(progress := f'.progress)
    ensures WellIssued(space, f') && OwnerOf(f') == OwnerOf(f)
  {
  }

  lemma AnswerKeepsCopyInv(s: State, t: State, i: nat, f': Flight)
    requires CopyInv(s) && JustAnswered(s, t, i, f')
    ensures CopyInv(t)
  {
    AnswerKeepsOwners(s, t, i, f');
    AnswerKeepsRest(s, t, i, f');
    forall j | j in s.flights ensures s.flights[j].uid % s.space == OwnerOf(s.flights[j]).0 {
      WellIssuedRoutes(s, j);
    }
    AnswerKeepsCurrent(s.space, s.db, t.db, s.flights, i, f');
  }

  lemma ExecuteAnswers(db: Db, f: Flight, f': Flight)
    requires f.progress.Sent? && WritesPlayer(f) && f' == f.(progress := Answered(Exec(db, f.req).reply))
    requires f.req.CallerEpoch() <= EpochOf(db, f.req.Target())
    requires Live(db, OwnerOf(f)) ==> Stored(db, f.uid) == f.base
    ensures AnsweredTo(db, Exec(db, f.req).db, f, f')
  {
    forall u: nat { ExecuteStores(db, f, u); }
    forall shard: nat { ExecuteKeepsEpochs(db, f, shard); }
    if Wrote(f') {
      assert Live(db, OwnerOf(f));
      ExecuteStores(db, f, f.uid);
    }
  }

  lemma ExecuteShape(s: State, i: nat)
    requires i in s.flights
    ensures var t := Executed(s, i); var o := Exec(s.db, s.flights[i].req);
      && t.space == s.space && t.uids == s.uids && t.owners == s.owners && t.started == s.started && t.db == o.db
      && t.nextFlight == s.nextFlight && t.flights == s.flights[i := s.flights[i].(progress := Answered(o.reply))]
  {
  }

  lemma ExecuteKeepsCopyInv(s: State, i: nat)
    requires CopyInv(s) && i in s.flights && s.flights[i].progress.Sent?
    ensures CopyInv(Executed(s, i))
  {
    var f := s.flights[i];
    var f' := f.(progress := Answered(Exec(s.db, f.req).reply));
    WellIssuedRoutes(s, i);
    assert OwnerOf(f) in s.started;
    ExecuteAnswers(s.db, f, f');
    ExecuteShape(s, i);
    AnswerKeepsCopyInv(s, Executed(s, i), i, f');
  }

  lemma FailKeepsCopyInv(s: State, step: Step)
    requires CopyInv(s) && Enabled(s, step) && step.Fail?
    ensures CopyInv(Apply(s, step))
  {
    AnswerKeepsCopyInv(s, Apply(s, step), step.id, s.flights[step.id].(progress := Failed));
  }

  lemma ReplyKeepsOtherOwner(space: nat, uids: set<nat>, db: Db, flights: map<nat, Flight>, k: (nat, int), o: Owner,
                             i: nat)
    requires OwnerFine(space, uids, db, flights, k, o) && i in flights && OwnerOf(flights[i]) != k
    ensures OwnerFine(space, uids, db, flights - {i}, k, o)
  {
    assert forall u <- o.players :: Marked(flights, k, u, o.players[u]) && o.players[u].busy != Some(i);
  }

  lemma ReplyKeepsPlayer(space: nat, uids: set<nat>, db: Db, flights: map<nat, Flight>, k: (nat, int), i: nat, v: nat,
                         r: Resident)
    requires space > 0 && PlayerFine(space, uids, db, flights, k, v, r) && r.busy != Some(i)
    ensures PlayerFine(space, uids, db, flights - {i}, k, v, r)
  {
  }

  /** The player the answer was for: idle again, with the copy the store now holds. */
  lemma ReplyFreesPlayer(space: nat, uids: set<nat>, db: Db, flights: map<nat, Flight>, k: (nat, int), i: nat,
                         r: Resident)
    requires space > 0 && i in flights
    requires PlayerFine(space, uids, db, flights, k, flights[i].uid, r) && r.busy == Some(i)
    requires Sound(flights[i].next)
    ensures var f := flights[i];
      PlayerFine(space, uids, db, flights - {i}, k, f.uid, Resident(if Wrote(f) then f.next else r.mem, None))
  {
  }

  lemma ReplyKeepsOwner(space: nat, uids: set<nat>, db: Db, flights: map<nat, Flight>, k: (nat, int), o: Owner, i: nat)
    requires OwnerFine(space, uids, db, flights, k, o) && i in flights && OwnerOf(flights[i]) == k && Single(flights)
    requires Sound(flights[i].next) && flights[i].uid in o.players
    ensures var f := flights[i];
      OwnerFine(space, uids, db, flights - {i}, k,
                o.(players := o.players[f.uid := Resident(if Wrote(f) then f.next else o.players[f.uid].mem, None)]))
  {
    var u := flights[i].uid;
    assert Awaited(k, o.players, i, flights[i]);
    ReplyFreesPlayer(space, uids, db, flights, k, i, o.players[u]);
    forall v | v in o.players && v != u ensures PlayerFine(space, uids, db, flights - {i}, k, v, o.players[v]) {
      assert PlayerFine(space, uids, db, flights, k, v, o.players[v]);
      ReplyKeepsPlayer(space, uids, db, flights, k, i, v, o.players[v]);
    }
    forall j | j in flights && j != i && OwnerOf(flights[j]) == k ensures flights[j].uid != u {
      assert Awaited(k, o.players, j, flights[j]);
    }
  }

  /** t is s after the callback of flight i ran. */
  ghost predicate JustReplied(s: State, t: State, i: nat) {
    && i in s.flights && t.space == s.space && t.uids == s.uids && t.db == s.db && t.started == s.started
    && t.nextFlight == s.nextFlight && t.flights == s.flights - {i} && t.owners.Keys <= s.owners.Keys
    && (forall k <- t.owners :: k != OwnerOf(s.flights[i]) ==> t.owners[k] == s.owners[k])
    && (OwnerOf(s.flights[i]) in t.owners ==>
        var o, f := s.owners[OwnerOf(s.flights[i])], s.flights[i];
        f.uid in o.players && t.owners[OwnerOf(f)]
          == o.(players := o.players[f.uid := Resident(if Wrote(f) then f.next else o.players[f.uid].mem, None)]))
  }

  lemma ReplyShape(s: State, i: nat)
    requires i in s.flights
    requires OwnerOf(s.flights[i]) in s.owners ==>
      var o, u := s.owners[OwnerOf(s.flights[i])], s.flights[i].uid; u in o.players && o.players[u].busy == Some(i)
    ensures JustReplied(s, Replied(s, i), i)
  {
  }

  lemma ReplyKeepsOwners(s: State, t: State, i: nat)
    requires Owners(s) && Issued(s) && Single(s.flights) && JustReplied(s, t, i)
    ensures Owners(t)
  {
    WellIssuedRoutes(s, i);
    forall k | k in t.owners ensures OwnerFine(t.space, t.uids, t.db, t.flights, k, t.owners[k]) {
      assert OwnerFine(s.space, s.uids, s.db, s.flights, k, s.owners[k]);
      if k == OwnerOf(s.flights[i]) {
        ReplyKeepsOwner(s.space, s.uids, s.db, s.flights, k, s.owners[k], i);
      } else {
        ReplyKeepsOtherOwner(s.space, s.uids, s.db, s.flights, k, s.owners[k], i);
      }
    }
  }

  lemma ReplyKeepsCopyInv(s: State, i: nat)
    requires CopyInv(s) && i in s.flights && !s.flights[i].progress.Sent?
    ensures CopyInv(Replied(s, i))
  {
    var k := OwnerOf(s.flights[i]);
    if k in s.owners {
      assert OwnerFine(s.space, s.uids, s.db, s.flights, k, s.owners[k]);
    }
    ReplyShape(s, i);
    RepliedKeepsCopyInv(s, Replied(s, i), i);
  }

  lemma RepliedKeepsCopyInv(s: State, t: State, i: nat)
    requires CopyInv(s) && JustReplied(s, t, i)
    ensures CopyInv(t)
  {
    ReplyKeepsOwners(s, t, i);
  }

  // ------------------------------------------------------------------------------------
  // Whole runs
  // ------------------------------------------------------------------------------------

  lemma SendStepsKeepCopyInv(s: State, step: Step)
    requires CopyInv(s) && Enabled(s, step) && (step.Issue? || step.Fail?)
    ensures CopyInv(Apply(s, step))
  {
    if step.Issue? { IssueKeepsCopyInv(s, step); } else { FailKeepsCopyInv(s, step); }
  }

  lemma ReceiveStepsKeepCopyInv(s: State, step: Step)
    requires CopyInv(s) && Enabled(s, step) && (step.Execute? || step.Reply?)
    ensures CopyInv(Apply(s, step))
  {
    if step.Execute? { ExecuteKeepsCopyInv(s, step.id); } else { ReplyKeepsCopyInv(s, step.id); }
  }

  lemma StepKeepsCopyInv(s: State, step: Step)
    requires CopyInv(s) && Enabled(s, step)
    ensures CopyInv(Apply(s, step))
  {
    if step.Issue? || step.Fail? {
      SendStepsKeepCopyInv(s, step);
    } else if step.Execute? || step.Reply? {
      ReceiveStepsKeepCopyInv(s, step);
    } else if step.BagFull? || step.Publish? || step.Republish? || step.Scan? {
      QuietSteps(s, step);
    } else if step.Complete? || step.RequeueTake? || step.RequeuePut? || step.RequeueMark? {
      BookSteps(s, step);
    } else if step.Start? {
      StartKeepsCopyInv(s, step);
    } else if step.Stop? {
      StopKeepsCopyInv(s, step.owner);
    } else if step.Read? || step.Loaded? {
      LoadStepsKeepCopyInv(s, step);
    } else {
      DropStepsKeepCopyInv(s, step);
    }
  }

  lemma {:induction false} RunKeepsCopyInv(s: State, steps: seq<Step>)
    requires CopyInv(s) && IsRun(s, steps)
    ensures CopyInv(Final(s, steps))
    decreases |steps|
  {
    if steps != [] {
      StepKeepsCopyInv(s, steps[0]);
      RunKeepsCopyInv(Apply(s, steps[0]), steps[1..]);
    }
  }

  /** In every run of commits and transfers, whenever a player is not busy the live owner's
      memory equals the stored copy. */
  lemma MemoryEqualsStoreWhenIdle(s: State, steps: seq<Step>, owner: (nat, int), uid: nat)
    requires Transfer.Init(s) && IsRun(s, steps)
    requires Idle(Final(s, steps), owner, uid) && Live(Final(s, steps).db, owner)
    ensures Memory(Final(s, steps), owner, uid) == Stored(Final(s, steps).db, uid)
  {
    InitKeepsCopyInv(s);
    RunKeepsCopyInv(s, steps);
    var t := Final(s, steps);
    assert OwnerFine(t.space, t.uids, t.db, t.flights, owner, t.owners[owner]);
    assert Agrees(t.db, t.flights, uid, t.owners[owner].players[uid]);
  }

  /** At most one write per player is in flight from any one owner, and it was applied only
      if that owner is still the latest to have raised its epoch. */
  lemma OneWriteInFlight(s: State, steps: seq<Step>, i: nat, j: nat)
    requires Transfer.Init(s) && IsRun(s, steps)
    requires i in Final(s, steps).flights && j in Final(s, steps).flights
    requires Final(s, steps).flights[i].uid == Final(s, steps).flights[j].uid
    requires Final(s, steps).flights[i].req.CallerEpoch() == Final(s, steps).flights[j].req.CallerEpoch()
    ensures i == j
  {
    InitKeepsCopyInv(s);
    RunKeepsCopyInv(s, steps);
    var t := Final(s, steps);
    assert WellIssued(t.space, t.flights[i]) && WellIssued(t.space, t.flights[j]);
    assert OwnerOf(t.flights[i]) == OwnerOf(t.flights[j]);
  }
}
