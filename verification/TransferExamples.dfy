/** Two concrete runs of the transfer protocol from its initial state: one in which a full bag
    makes the world grow, and one in which an uncredited transfer is in no index. */
module TransferExamples {
  import opened Keyspace
  import opened Scripts
  import opened Bags
  import opened Transfer
  import opened TransferCopies
  import opened TransferOnce
  import opened TransferConservation

  const OWNER: (nat, int) := (0, 1)

  /** Player 1 holds three items of template 9, the bag of player 2 is full. */
  const RICH: Holdings := Holdings(BagData([Item.Item(1, 9, 3, 0)], 10), BaseData(map[]))
  const FULL: Holdings := Holdings(BagData([Item.Item(2, 7, 1, 0)], 1), BaseData(map[]))
  const POOR: Holdings := Holdings(BagData([], 10), BaseData(map[]))

  const STRS: map<Key, Val> := map[Player(1, Bag) := BagBlob(RICH.bag), Player(2, Bag) := BagBlob(FULL.bag)]

  const REC: Record := Record(5, 1, 2, 0, 0, [Attachment(9, 3)], 0, 0, Pending, 7, 0, 0)
  const REQ: Request := Request.Begin(1, REC, Whole(1, POOR))
  const RECEIPT: Receipt := Receipt([], 0, {})

  function Beginning(): State {
    State(1, {1, 2}, Db(STRS, map[], map[], map[]), map[], {}, map[], 0, {}, map[], [], {}, {}, {}, multiset{}, {}, [])
  }

  // ------------------------------------------------------------------------------------
  // Extending a run
  // ------------------------------------------------------------------------------------

  lemma {:induction false} RunMore(s: State, steps: seq<Step>, step: Step)
    requires s.space > 0 && IsRun(s, steps) && Enabled(Final(s, steps), step)
    ensures IsRun(s, steps + [step]) && Final(s, steps + [step]) == Apply(Final(s, steps), step)
    decreases |steps|
  {
    var more := steps + [step];
    if steps == [] {
      assert more == [step] && more[1..] == [];
    } else {
      assert more[0] == steps[0] && more[1..] == steps[1..] + [step];
      RunMore(Apply(s, steps[0]), steps[1..], step);
    }
  }

  // ------------------------------------------------------------------------------------
  // Up to the transfer
  // ------------------------------------------------------------------------------------

  /** The owner runs with these players and nothing else has happened. */
  predicate Running(s: State, players: map<nat, Resident>, loads: map<nat, Holdings>) {
    && s.space == 1 && s.uids == {1, 2} && s.owners == map[OWNER := Owner(players, loads)]
    && s.db == Db(STRS[Epoch(0) := Num(1)], map[], map[], map[]) && s.flights == map[] && s.nextFlight == 0
    && s.issued == {} && s.begun == map[] && s.jobs == {} && s.scanned == {} && s.requeuing == multiset{}
  }

  lemma StartRuns()
    ensures Enabled(Beginning(), Start(0, 1)) && Running(Apply(Beginning(), Start(0, 1)), map[], map[])
  {
  }

  lemma StoredPlayers()
    ensures var db := Db(STRS[Epoch(0) := Num(1)], map[], map[], map[]); Stored(db, 1) == RICH && Stored(db, 2) == FULL
  {
  }

  lemma LoadRuns(s: State, players: map<nat, Resident>, uid: nat)
    requires Running(s, players, map[]) && uid in {1, 2} && uid !in players
    ensures Enabled(s, Read(OWNER, uid)) && Enabled(Apply(s, Read(OWNER, uid)), Loaded(OWNER, uid))
    ensures Running(Apply(Apply(s, Read(OWNER, uid)), Loaded(OWNER, uid)),
                    players[uid := Resident(Stored(s.db, uid), None)], map[])
  {
    var t := Apply(s, Read(OWNER, uid));
    assert t.owners == map[OWNER := Owner(players, map[uid := Stored(s.db, uid)])];
    assert map[uid := Stored(s.db, uid)] - {uid} == map[];
  }

  lemma DebitRuns()
    ensures Debit(RICH, REC) == Some(POOR)
  {
    var items, emptied := RICH.bag.items, [Item.Item(1, 9, 0, 0)];
    assert items[1..] == [] && emptied[1..] == [] && REC.items[1..] == [];
    assert CountOf([], 9) == 0 && CountOf(items, 9) == 3;
    assert Taken([], 9, 0) == [] && Taken(items, 9, 3) == emptied;
    assert Compacted([]) == [] && Compacted(emptied) == [];
    assert Removed(items, 9, 3) == Some([]);
    assert RemoveAll([], []) == Some([]) && RemoveAll(items, REC.items) == Some([]);
  }

  function Waiting(): map<nat, Resident> {
    map[1 := Resident(RICH, Some(0)), 2 := Resident(FULL, None)]
  }

  /** The owner has sent the transfer of player 1. */
  predicate Sending(s: State) {
    && s.space == 1 && s.uids == {1, 2} && s.db == Db(STRS[Epoch(0) := Num(1)], map[], map[], map[])
    && s.owners == map[OWNER := Owner(Waiting(), map[])]
    && s.flights == map[0 := Flight(1, RICH, POOR, REQ, Sent)] && s.begun == map[] && s.jobs == {} && s.scanned == {}
  }

  lemma IssueIsEnabled(s: State)
    requires Running(s, Both(), map[])
    ensures Enabled(s, Issue(OWNER, 1, REQ, POOR, RECEIPT))
  {
    DebitRuns();
    assert Idle(s, OWNER, 1) && Memory(s, OWNER, 1) == RICH;
  }

  lemma IssueRuns(s: State)
    requires Running(s, Both(), map[])
    ensures Enabled(s, Issue(OWNER, 1, REQ, POOR, RECEIPT)) && Sending(Apply(s, Issue(OWNER, 1, REQ, POOR, RECEIPT)))
  {
    IssueIsEnabled(s);
    assert Memory(s, OWNER, 1) == RICH;
    assert Both()[1 := Resident(RICH, Some(0))] == Waiting();
  }

  /** The transfer has begun. */
  predicate Underway(s: State) {
    && s.space == 1 && s.owners == map[OWNER := Owner(Waiting(), map[])]
    && s.begun == map[5 := REC] && s.jobs == {} && s.scanned == {}
    && s.db.zsets == map[TxPending(0) := map[REC := 7]] && TxDone(0, 5) !in s.db.strs
  }

  lemma ExecuteRuns(s: State)
    requires Sending(s)
    ensures Enabled(s, Execute(0)) && Underway(Apply(s, Execute(0)))
  {
  }

  lemma BeginningIsInitial()
    ensures Transfer.Init(Beginning())
  {
  }

  lemma UntilStarted() returns (steps: seq<Step>)
    ensures IsRun(Beginning(), steps) && Running(Final(Beginning(), steps), map[], map[])
  {
    StartRuns();
    RunMore(Beginning(), [], Start(0, 1));
    steps := [] + [Start(0, 1)];
  }

  function Both(): map<nat, Resident> {
    map[1 := Resident(RICH, None), 2 := Resident(FULL, None)]
  }

  lemma UntilBothLoaded() returns (steps: seq<Step>)
    ensures IsRun(Beginning(), steps) && Running(Final(Beginning(), steps), Both(), map[])
  {
    StoredPlayers();
    steps := UntilStarted();
    steps := UntilLoaded(Beginning(), steps, map[], 1);
    steps := UntilLoaded(Beginning(), steps, map[1 := Resident(RICH, None)], 2);
    assert map[1 := Resident(RICH, None)][2 := Resident(FULL, None)] == Both();
  }

  lemma UntilSending() returns (steps: seq<Step>)
    ensures IsRun(Beginning(), steps) && Sending(Final(Beginning(), steps))
  {
    steps := UntilBothLoaded();
    IssueRuns(Final(Beginning(), steps));
    RunMore(Beginning(), steps, Issue(OWNER, 1, REQ, POOR, RECEIPT));
    steps := steps + [Issue(OWNER, 1, REQ, POOR, RECEIPT)];
  }

  /** A run from the beginning to the state in which the transfer has begun. */
  lemma UntilUnderway() returns (steps: seq<Step>)
    ensures IsRun(Beginning(), steps) && Underway(Final(Beginning(), steps))
  {
    steps := UntilSending();
    ExecuteRuns(Final(Beginning(), steps));
    RunMore(Beginning(), steps, Execute(0));
    steps := steps + [Execute(0)];
  }

  lemma UntilLoaded(s: State, steps: seq<Step>, players: map<nat, Resident>, uid: nat) returns (more: seq<Step>)
    requires s.space > 0 && IsRun(s, steps)
    requires Running(Final(s, steps), players, map[]) && uid in {1, 2} && uid !in players
    ensures IsRun(s, more)
    ensures Running(Final(s, more), players[uid := Resident(Stored(Final(s, steps).db, uid), None)], map[])
  {
    LoadRuns(Final(s, steps), players, uid);
    RunMore(s, steps, Read(OWNER, uid));
    RunMore(s, steps + [Read(OWNER, uid)], Loaded(OWNER, uid));
    more := steps + [Read(OWNER, uid)] + [Loaded(OWNER, uid)];
  }

  // ------------------------------------------------------------------------------------
  // What can happen then
  // ------------------------------------------------------------------------------------

  lemma FullBagRefuses()
    ensures Credit(FULL, Job(REC), RECEIPT) == None
  {
    assert Added(FULL.bag, 0, 9, 3, 0, false) == None;
    assert AddAll(FULL.bag, REC.items, RECEIPT) == None;
  }

  lemma FullBagRuns(s: State)
    requires Underway(s)
    ensures Enabled(s, Publish(5)) && Enabled(Apply(s, Publish(5)), BagFull(OWNER, 2, Job(REC), RECEIPT))
  {
    FullBagRefuses();
    var t := Apply(s, Publish(5));
    assert t.owners == s.owners && t.owners[OWNER].players[2] == Resident(FULL, None);
    assert Job(REC) in t.jobs;
  }

  /** A run without any grant in which the world gains the three items of a delivery that finds
      a full bag. */
  lemma FullBagExample() returns (steps: seq<Step>, delivery: Step)
    ensures Transfer.Init(Beginning()) && IsRun(Beginning(), steps + [delivery])
    ensures IsRun(Beginning(), steps) && delivery.BagFull?
    ensures World(Final(Beginning(), steps + [delivery]), Goods(9)) == World(Final(Beginning(), steps), Goods(9)) + 3
  {
    BeginningIsInitial();
    steps := UntilUnderway();
    FullBagRuns(Final(Beginning(), steps));
    RunMore(Beginning(), steps, Publish(5));
    steps := steps + [Publish(5)];
    delivery := BagFull(OWNER, 2, Job(REC), RECEIPT);
    ThreeDiverted();
    DeliveryAdds(Beginning(), steps, delivery, Goods(9));
  }

  lemma DeliveryAdds(s: State, steps: seq<Step>, delivery: Step, a: Asset)
    requires Transfer.Init(s) && IsRun(s, steps) && Enabled(Final(s, steps), delivery) && delivery.BagFull?
    ensures IsRun(s, steps + [delivery])
    ensures World(Final(s, steps + [delivery]), a) == World(Final(s, steps), a) + Diverted(delivery, a)
  {
    RunMore(s, steps, delivery);
    InitKeepsOnceInv(s);
    InitKeepsCopyInv(s);
    RunKeepsOnceInv(s, steps);
    FullBagDuplicatesItems(Final(s, steps), delivery, a);
  }

  lemma ThreeDiverted()
    ensures Diverted(BagFull(OWNER, 2, Job(REC), RECEIPT), Goods(9)) == 3
  {
    assert [Attachment(9, 3)][1..] == [];
  }

  lemma ScanRuns(s: State)
    requires Underway(s)
    ensures Enabled(s, Scan(0)) && Enabled(Apply(s, Scan(0)), RequeueTake(REC))
    ensures var t := Apply(Apply(s, Scan(0)), RequeueTake(REC));
      && 5 in t.begun && !Done(t.begun, t.db, 5) && !Indexed(t.db, t.begun[5].fromShard, 5)
  {
    assert REC in ZsetOf(s.db.zsets, TxPending(0));
    var t := Apply(Apply(s, Scan(0)), RequeueTake(REC));
    assert ZsetOf(t.db.zsets, TxPending(0)) == map[];
  }

  /** A run in which a begun, uncredited transfer is in no index, because a requeue is between its
      two commands. */
  lemma RequeueEmptiesTheIndex() returns (steps: seq<Step>)
    ensures Transfer.Init(Beginning()) && IsRun(Beginning(), steps)
    ensures var t := Final(Beginning(), steps);
      5 in t.begun && !Done(t.begun, t.db, 5) && !Indexed(t.db, t.begun[5].fromShard, 5)
  {
    BeginningIsInitial();
    steps := UntilUnderway();
    ScanRuns(Final(Beginning(), steps));
    RunMore(Beginning(), steps, Scan(0));
    steps := steps + [Scan(0)];
    RunMore(Beginning(), steps, RequeueTake(REC));
    steps := steps + [RequeueTake(REC)];
  }
}
