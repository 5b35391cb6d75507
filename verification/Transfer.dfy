/** The cross-shard transfer protocol as a step system over the real scripts: shard owners
    that raise, load and hold players in memory, one write in flight per player, duplicated
    and reordered jobs, and the compensating scanner
    (internal/lobby/handlers.go, internal/lobby/shard.go, internal/lobby/service.go, pkg/xtx/xtx.go). */
module Transfer {
  import opened Keyspace
  import opened Scripts
  import opened Bags

  const DEFAULT_CAPACITY: nat := 200

  /** FromBlobs: a missing module takes its default, and so does a zero capacity. */
  function BagIn(strs: map<Key, Val>, uid: nat): BagData {
    var k := Player(uid, Bag);
    if k in strs && strs[k].BagBlob? then
      if strs[k].bag.capacity == 0 then strs[k].bag.(capacity := DEFAULT_CAPACITY) else strs[k].bag
    else BagData([], DEFAULT_CAPACITY)
  }

  function BaseIn(strs: map<Key, Val>, uid: nat): BaseData {
    var k := Player(uid, Base);
    if k in strs && strs[k].BaseBlob? then strs[k].base else BaseData(map[])
  }

  function Stored(db: Db, uid: nat): Holdings {
    Holdings(BagIn(db.strs, uid), BaseIn(db.strs, uid))
  }

  /** A player in an owner's memory; busy names the write in flight. */
  datatype Resident = Resident(mem: Holdings, busy: Option<nat>)

  /** A running shard actor: resident players, and loads read but not yet handed to it. */
  datatype Owner = Owner(players: map<nat, Resident>, loads: map<nat, Holdings>)

  datatype Progress = Sent | Answered(reply: Reply) | Failed

  /** A write issued for one player, computed on a copy (next) of its memory (base). */
  datatype Flight = Flight(uid: nat, base: Holdings, next: Holdings, req: Request, progress: Progress)

  datatype State = State(
    space: nat,
    uids: set<nat>,                     // the players of the run
    db: Db,
    owners: map<(nat, int), Owner>,     // running actors by (shard, epoch)
    started: set<(nat, int)>,           // every owner that ever raised its epoch
    flights: map<nat, Flight>,
    nextFlight: nat,
    issued: set<nat>,                   // every transaction id ever handed out
    begun: map<nat, Record>,            // transfers whose Begin was applied
    credited: seq<nat>,                 // transaction ids in the order they were credited
    settled: set<nat>,                  // transfers some Claim of which answered 1 or 2
    jobs: set<Record>,                  // published jobs, delivered any number of times
    scanned: set<Record>,               // records a scanner has read
    requeuing: multiset<Record>,        // removed by a requeue and not yet added back
    readded: set<Record>,               // added back by a requeue
    mailed: seq<Record>)                // jobs diverted to the mailbox of a full bag

  datatype Step =
    | Start(shard: nat, epoch: int)
    | Stop(owner: (nat, int))
    | Read(owner: (nat, int), uid: nat)
    | Loaded(owner: (nat, int), uid: nat)
    | LoadFailed(owner: (nat, int), uid: nat)
    | Unload(owner: (nat, int), uid: nat)
    | Issue(owner: (nat, int), uid: nat, req: Request, next: Holdings, receipt: Receipt)
    | BagFull(owner: (nat, int), uid: nat, job: Record, receipt: Receipt)
    | Execute(id: nat)
    | Fail(id: nat)
    | Reply(id: nat)
    | Publish(txid: nat)
    | Republish(rec: Record)
    | Complete(rec: Record, doneAt: int)
    | Scan(shard: nat)
    | RequeueTake(rec: Record)
    | RequeuePut(rec: Record, now: int)
    | RequeueMark(rec: Record)

  /** The record a receiver rebuilds from a job: the message carries no state or retries. */
  function Job(rec: Record): Record {
    rec.(state := Blank, doneAt := 0, retries := 0)
  }

  function Whole(uid: nat, h: Holdings): map<Key, Val> {
    map[Player(uid, Bag) := BagBlob(h.bag), Player(uid, Base) := BaseBlob(h.base)]
  }

  /** A commit may write any modules of the player; those it leaves out are unchanged. */
  predicate Serialises(kv: map<Key, Val>, uid: nat, base: Holdings, next: Holdings) {
    && (forall k <- kv :: k.Player? && k.uid == uid)
    && (if Player(uid, Bag) in kv then kv[Player(uid, Bag)] == BagBlob(next.bag) else next.bag == base.bag)
    && (if Player(uid, Base) in kv then kv[Player(uid, Base)] == BaseBlob(next.base) else next.base == base.base)
  }

  /** handleTransfer: a fresh transaction id, and the sender's copy already debited. */
  predicate SendsTransfer(space: nat, uid: nat, rec: Record, base: Holdings, next: Holdings)
    requires space > 0
  {
    && rec.fromUid == uid && rec.fromShard == uid % space && rec.toUid != uid && rec.toUid != 0
    && rec.toShard == rec.toUid % space && rec.state == Pending && rec.doneAt == 0 && rec.retries == 0
    && Debit(base, rec) == Some(next)
  }

  predicate MayIssue(s: State, uid: nat, req: Request, base: Holdings, next: Holdings, receipt: Receipt)
    requires s.space > 0
  {
    && req.Target() == uid % s.space
    && match req
       case Begin(_, rec, kv) =>
         SendsTransfer(s.space, uid, rec, base, next) && rec.txid !in s.issued && kv == Whole(uid, next)
       case Claim(_, rec, kv) =>
         rec in s.jobs && rec.toUid == uid && Credit(base, rec, receipt) == Some(next) && kv == Whole(uid, next)
       case Commit(c) =>
         && Proper(req) && Serialises(c.kv, uid, base, next)
         && next.bag.capacity == base.bag.capacity && Stocked(next.bag.items)
       case _ => false
  }

  predicate Idle(s: State, owner: (nat, int), uid: nat) {
    owner in s.owners && uid in s.owners[owner].players && s.owners[owner].players[uid].busy.None?
  }

  function Memory(s: State, owner: (nat, int), uid: nat): Holdings
    requires Idle(s, owner, uid)
  {
    s.owners[owner].players[uid].mem
  }

  predicate Enabled(s: State, step: Step)
    requires s.space > 0
  {
    match step
    case Start(shard, epoch) => (shard, epoch) !in s.started
    case Stop(owner) => owner in s.owners
    case Read(owner, uid) =>
      && owner in s.owners && uid in s.uids && uid % s.space == owner.0
      && uid !in s.owners[owner].players && uid !in s.owners[owner].loads
    case Loaded(owner, uid) => owner in s.owners && uid in s.owners[owner].loads
    case LoadFailed(owner, uid) => owner in s.owners && uid in s.owners[owner].loads
    case Unload(owner, uid) => Idle(s, owner, uid)
    case Issue(owner, uid, req, next, receipt) =>
      Idle(s, owner, uid) && req.CallerEpoch() == owner.1 && MayIssue(s, uid, req, Memory(s, owner, uid), next, receipt)
    case BagFull(owner, uid, job, receipt) =>
      Idle(s, owner, uid) && job in s.jobs && job.toUid == uid && Credit(Memory(s, owner, uid), job, receipt).None?
    case Execute(id) => id in s.flights && s.flights[id].progress.Sent?
    case Fail(id) => id in s.flights && s.flights[id].progress.Sent?
    case Reply(id) => id in s.flights && !s.flights[id].progress.Sent?
    case Publish(txid) => txid in s.begun
    case Republish(rec) => rec in s.scanned
    case Complete(rec, _) => rec in s.jobs && rec.txid in s.settled
    case Scan(_) => true
    case RequeueTake(rec) => rec in s.scanned
    case RequeuePut(rec, _) => rec in s.requeuing
    case RequeueMark(rec) => rec in s.readded
  }

  function WithPlayer(s: State, owner: (nat, int), uid: nat, r: Resident): State
    requires owner in s.owners
  {
    s.(owners := s.owners[owner := s.owners[owner].(players := s.owners[owner].players[uid := r])])
  }

  /** The script runs; the answer travels back later. */
  function Executed(s: State, id: nat): State
    requires id in s.flights
  {
    var f := s.flights[id];
    var o := Exec(s.db, f.req);
    var t := s.(db := o.db, flights := s.flights[id := f.(progress := Answered(o.reply))]);
    match f.req
    case Begin(_, rec, _) => if o.reply.Applied? then t.(begun := s.begun[rec.txid := rec]) else t
    case Claim(_, rec, _) =>
      var u := if o.reply.Applied? || o.reply.Duplicate? then t.(settled := s.settled + {rec.txid}) else t;
      if o.reply.Applied? then u.(credited := s.credited + [rec.txid]) else u
    case _ => t
  }

  /** The callback in the actor: free the player, and swap the copy in if it was written.
      A fenced owner drops its memory. */
  function Replied(s: State, id: nat): State
    requires id in s.flights
  {
    var f := s.flights[id];
    var t := s.(flights := s.flights - {id});
    var owner := (f.req.Target(), f.req.CallerEpoch());
    if owner in s.owners && f.uid in s.owners[owner].players && s.owners[owner].players[f.uid].busy == Some(id) then
      if f.progress == Answered(Fenced) then t.(owners := s.owners - {owner})
      else
        var applied := f.progress.Answered? && f.progress.reply.Applied?;
        WithPlayer(t, owner, f.uid, Resident(if applied then f.next else s.owners[owner].players[f.uid].mem, None))
    else t
  }

  function Apply(s: State, step: Step): (t: State)
    requires s.space > 0 && Enabled(s, step)
    ensures t.space == s.space && t.uids == s.uids
  {
    match step
    case Start(shard, epoch) =>
      var o := Exec(s.db, RaiseEpoch(shard, epoch));
      if o.reply.Applied? then
        s.(db := o.db, started := s.started + {(shard, epoch)},
           owners := s.owners[(shard, epoch) := Owner(map[], map[])])
      else s
    case Stop(owner) => s.(owners := s.owners - {owner})
    case Read(owner, uid) =>
      var o := s.owners[owner];
      s.(owners := s.owners[owner := o.(loads := o.loads[uid := Stored(s.db, uid)])])
    case Loaded(owner, uid) =>
      var o := s.owners[owner];
      s.(owners := s.owners[owner := Owner(o.players[uid := Resident(o.loads[uid], None)], o.loads - {uid})])
    case LoadFailed(owner, uid) =>
      var o := s.owners[owner];
      s.(owners := s.owners[owner := o.(loads := o.loads - {uid})])
    case Unload(owner, uid) =>
      var o := s.owners[owner];
      s.(owners := s.owners[owner := o.(players := o.players - {uid})])
    case Issue(owner, uid, req, next, _) =>
      var mem := Memory(s, owner, uid);
      var t := WithPlayer(s, owner, uid, Resident(mem, Some(s.nextFlight)));
      t.(flights := s.flights[s.nextFlight := Flight(uid, mem, next, req, Sent)], nextFlight := s.nextFlight + 1,
         issued := if req.Begin? then s.issued + {req.rec.txid} else s.issued)
    case BagFull(_, _, job, _) => s.(mailed := s.mailed + [job])
    case Execute(id) => Executed(s, id)
    case Fail(id) => s.(flights := s.flights[id := s.flights[id].(progress := Failed)])
    case Reply(id) => Replied(s, id)
    case Publish(txid) => s.(jobs := s.jobs + {Job(s.begun[txid])})
    case Republish(rec) => s.(jobs := s.jobs + {Job(rec)})
    case Complete(rec, doneAt) => s.(db := CompleteEffect(s.db, rec, doneAt))
    case Scan(shard) => s.(scanned := s.scanned + ZsetOf(s.db.zsets, TxPending(shard)).Keys)
    case RequeueTake(rec) => s.(db := RequeueRemove(s.db, rec), requeuing := s.requeuing + multiset{rec})
    case RequeuePut(rec, now) =>
      s.(db := RequeueAdd(s.db, rec, now), requeuing := s.requeuing - multiset{rec}, readded := s.readded + {rec})
    case RequeueMark(rec) => s.(db := RequeueSet(s.db, rec))
  }

  /** Before any owner starts: arbitrary player data, no transfer in progress. */
  predicate Init(s: State) {
    && s.space > 0 && s.owners == map[] && s.started == {} && s.flights == map[] && s.issued == {}
    && s.begun == map[] && s.credited == [] && s.settled == {} && s.jobs == {} && s.scanned == {}
    && s.requeuing == multiset{} && s.readded == {} && s.mailed == []
    && (forall k <- s.db.strs :: !k.Tx? && !k.TxDone?) && s.db.zsets == map[]
    && (forall u <- s.uids :: Stocked(Stored(s.db, u).bag.items))
  }

  predicate IsRun(s: State, steps: seq<Step>)
    requires s.space > 0
    decreases |steps|
  {
    steps == [] || (Enabled(s, steps[0]) && IsRun(Apply(s, steps[0]), steps[1..]))
  }

  function Final(s: State, steps: seq<Step>): (t: State)
    requires s.space > 0 && IsRun(s, steps)
    ensures t.space == s.space && t.uids == s.uids
    decreases |steps|
  {
    if steps == [] then s else Final(Apply(s, steps[0]), steps[1..])
  }
}
