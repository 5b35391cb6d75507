/** The atomic scripts of pkg/store/fencing.go and pkg/xtx/xtx.go, each stated as one
    transition of the server's state. Module RedisServer shows that the positional
    KEYS/ARGV packing and the scripts' loops compute exactly these transitions. */
module Scripts {
  import opened Keyspace

  datatype CommitReq = CommitReq(
    shard: nat, epoch: int,
    idemKey: Option<Key>, idemTtl: int, payload: Val,
    ledgerKey: Option<Key>, maxLen: int, entries: seq<Val>,
    kv: map<Key, Val>)

  datatype Request =
    | RaiseEpoch(shard: nat, epoch: int)
    | WriteModules(shard: nat, epoch: int, kv: map<Key, Val>)
    | WriteHash(shard: nat, epoch: int, hash: Key, fields: map<string, Val>)
    | WriteThrough(shard: nat, epoch: int, order: Key, payload: Val, kv: map<Key, Val>)
    | Delete(shard: nat, epoch: int, keys: seq<Key>)
    | Commit(req: CommitReq)
    | Begin(epoch: int, rec: Record, kv: map<Key, Val>)
    | Claim(epoch: int, rec: Record, kv: map<Key, Val>)
  {
    /** The shard whose epoch key the script compares with. */
    function Target(): nat {
      match this
      case RaiseEpoch(s, _) => s
      case WriteModules(s, _, _) => s
      case WriteHash(s, _, _, _) => s
      case WriteThrough(s, _, _, _, _) => s
      case Delete(s, _, _) => s
      case Commit(req) => req.shard
      case Begin(_, rec, _) => rec.fromShard
      case Claim(_, rec, _) => rec.toShard
    }

    function CallerEpoch(): int {
      match this
      case RaiseEpoch(_, e) => e
      case WriteModules(_, e, _) => e
      case WriteHash(_, e, _, _) => e
      case WriteThrough(_, e, _, _, _) => e
      case Delete(_, e, _) => e
      case Commit(req) => req.epoch
      case Begin(e, _, _) => e
      case Claim(e, _, _) => e
    }

    /** The data keys the script may touch. */
    function Touched(): set<Key> {
      match this
      case RaiseEpoch(_, _) => {}
      case WriteModules(_, _, kv) => kv.Keys
      case WriteHash(_, _, h, _) => {h}
      case WriteThrough(_, _, _, _, kv) => kv.Keys
      case Delete(_, _, keys) => set k | k in keys
      case Commit(req) => req.kv.Keys
      case Begin(_, _, kv) => kv.Keys
      case Claim(_, _, kv) => kv.Keys
    }

    /** The idempotency key the script consults, if it consults one. */
    function IdemKey(): Option<Key> {
      match this
      case WriteThrough(_, _, order, _, _) => Some(order)
      case Commit(req) => if req.idemTtl > 0 then req.idemKey else None
      case _ => None
    }

    function IdemPayload(): Val {
      match this
      case WriteThrough(_, _, _, payload, _) => payload
      case Commit(req) => req.payload
      case _ => Num(0)
    }
  }

  /** What the caller learns. `Skipped` is a client that returns before sending the script. */
  datatype Reply = Applied(payload: Val) | Duplicate(payload: Val) | Fenced | Skipped | Invalid

  datatype Outcome = Outcome(db: Db, reply: Reply)

  /** Deleting keys removes them whatever type of value they hold. */
  function Without(db: Db, gone: set<Key>): Db {
    Db(db.strs - gone, db.streams - gone, db.hashes - gone, db.zsets - gone)
  }

  function CommitEffect(db: Db, req: CommitReq): Outcome {
    var idem := Commit(req).IdemKey();
    if req.ledgerKey.None? && req.entries != [] then Outcome(db, Invalid)
    else if idem.Some? && idem.value in db.strs then Outcome(db, Duplicate(db.strs[idem.value]))
    else if EpochOf(db, req.shard) > req.epoch then Outcome(db, Fenced)
    else
      var marked := if idem.Some? then db.strs[idem.value := req.payload] else db.strs;
      var streams :=
        if req.entries == [] then db.streams
        else db.streams[req.ledgerKey.value := StreamOf(db.streams, req.ledgerKey.value) + req.entries];
      Outcome(db.(strs := marked + req.kv, streams := streams), Applied(req.payload))
  }

  function ThroughEffect(db: Db, r: Request): Outcome
    requires r.WriteThrough?
  {
    if r.order in db.strs then Outcome(db, Duplicate(db.strs[r.order]))
    else if EpochOf(db, r.shard) > r.epoch then Outcome(db, Fenced)
    else Outcome(db.(strs := db.strs[r.order := r.payload] + r.kv), Applied(r.payload))
  }

  function BeginEffect(db: Db, epoch: int, rec: Record, kv: map<Key, Val>): Outcome {
    var tx, pending := Tx(rec.fromShard, rec.txid), TxPending(rec.fromShard);
    if tx in db.strs then Outcome(db, Duplicate(Num(2)))
    else if EpochOf(db, rec.fromShard) > epoch then Outcome(db, Fenced)
    else
      Outcome(db.(strs := db.strs[tx := TxJson(rec)] + kv,
                  zsets := db.zsets[pending := ZsetOf(db.zsets, pending)[rec := rec.createdAt]]),
              Applied(Num(1)))
  }

  function ClaimEffect(db: Db, epoch: int, rec: Record, kv: map<Key, Val>): Outcome {
    var done := TxDone(rec.toShard, rec.txid);
    if done in db.strs then Outcome(db, Duplicate(Num(2)))
    else if EpochOf(db, rec.toShard) > epoch then Outcome(db, Fenced)
    else Outcome(db.(strs := db.strs[done := Num(epoch)] + kv), Applied(Num(1)))
  }

  /** Every epoch-checked script, plus the script that raises an epoch. */
  function Exec(db: Db, r: Request): Outcome {
    match r
    case RaiseEpoch(shard, epoch) =>
      if EpochOf(db, shard) >= epoch then Outcome(db, Fenced)
      else Outcome(db.(strs := db.strs[Epoch(shard) := Num(epoch)]), Applied(Num(epoch)))
    case WriteModules(shard, epoch, kv) =>
      if kv == map[] then Outcome(db, Skipped)
      else if EpochOf(db, shard) > epoch then Outcome(db, Fenced)
      else Outcome(db.(strs := db.strs + kv), Applied(Num(1)))
    case WriteHash(shard, epoch, hash, fields) =>
      if fields == map[] then Outcome(db, Skipped)
      else if EpochOf(db, shard) > epoch then Outcome(db, Fenced)
      else Outcome(db.(hashes := db.hashes[hash := HashOf(db.hashes, hash) + fields]), Applied(Num(1)))
    case WriteThrough(_, _, _, _, _) => ThroughEffect(db, r)
    case Delete(shard, epoch, keys) =>
      if keys == [] then Outcome(db, Skipped)
      else if EpochOf(db, shard) > epoch then Outcome(db, Fenced)
      else Outcome(Without(db, set k | k in keys), Applied(Num(1)))
    case Commit(req) => CommitEffect(db, req)
    case Begin(epoch, rec, kv) => BeginEffect(db, epoch, rec, kv)
    case Claim(epoch, rec, kv) => ClaimEffect(db, epoch, rec, kv)
  }

  /** Completing a transfer: the record read back and the caller's own copy both leave the
      pending index, and the record becomes the completed one. */
  function CompleteEffect(db: Db, rec: Record, doneAt: int): Db {
    var tx, pending := Tx(rec.fromShard, rec.txid), TxPending(rec.fromShard);
    var seen := if tx in db.strs && db.strs[tx].TxJson? then {db.strs[tx].rec} else {};
    db.(strs := db.strs[tx := TxJson(rec.(state := Completed, doneAt := doneAt))],
        zsets := db.zsets[pending := ZsetOf(db.zsets, pending) - seen - {rec}])
  }

  /** The three pipelined commands of a requeue; other clients may run between them. */
  function RequeueRemove(db: Db, rec: Record): Db {
    var pending := TxPending(rec.fromShard);
    db.(zsets := db.zsets[pending := ZsetOf(db.zsets, pending) - {rec}])
  }

  function RequeueAdd(db: Db, rec: Record, now: int): Db {
    var pending := TxPending(rec.fromShard);
    db.(zsets := db.zsets[pending := ZsetOf(db.zsets, pending)[Retried(rec) := now]])
  }

  function RequeueSet(db: Db, rec: Record): Db {
    db.(strs := db.strs[Tx(rec.fromShard, rec.txid) := TxJson(Retried(rec))])
  }

  function Retried(rec: Record): Record {
    rec.(retries := rec.retries + 1)
  }

  // ------------------------------------------------------------------------------------
  // Runs of scripts
  // ------------------------------------------------------------------------------------

  function Replies(db: Db, rs: seq<Request>): seq<Reply>
    decreases |rs|
  {
    if rs == [] then []
    else var o := Exec(db, rs[0]); [o.reply] + Replies(o.db, rs[1..])
  }

  /** Callers write and delete data keys only, and order keys only as idempotency keys. */
  predicate Proper(r: Request) {
    && (forall k <- r.Touched() :: IsData(k))
    && (r.IdemKey().Some? ==> r.IdemKey().value.Order?)
  }

  predicate AllProper(rs: seq<Request>) {
    forall r <- rs :: Proper(r)
  }

  lemma {:induction false} RepliesLength(db: Db, rs: seq<Request>)
    ensures |Replies(db, rs)| == |rs|
    decreases |rs|
  {
    if rs != [] { RepliesLength(Exec(db, rs[0]).db, rs[1..]); }
  }

  /** A request that is not applied leaves every key, stream, hash and index as it was. */
  lemma UnappliedChangesNothing(db: Db, r: Request)
    ensures !Exec(db, r).reply.Applied? ==> Exec(db, r).db == db
  {
  }

  /** A request below the shard's epoch is never applied. */
  lemma StaleIsRefused(db: Db, r: Request)
    requires r.CallerEpoch() < EpochOf(db, r.Target())
    ensures !Exec(db, r).reply.Applied? && Exec(db, r).db == db
  {
  }

  /** No script lowers any shard's epoch, and only the raise script moves one. */
  lemma EpochsOnlyRise(db: Db, r: Request, shard: nat)
    requires Proper(r)
    ensures EpochOf(db, shard) <= EpochOf(Exec(db, r).db, shard)
    ensures EpochOf(Exec(db, r).db, shard) != EpochOf(db, shard)
            ==> r == RaiseEpoch(shard, EpochOf(Exec(db, r).db, shard))
  {
    assert Epoch(shard) !in r.Touched();
  }

  /** Both states hold the same string and the same hash under k. */
  predicate SameAt(a: Db, b: Db, k: Key) {
    && (k in a.strs <==> k in b.strs) && (k in a.strs ==> a.strs[k] == b.strs[k])
    && (k in a.hashes <==> k in b.hashes) && (k in a.hashes ==> a.hashes[k] == b.hashes[k])
  }

  /** A script changes no data key beyond those it names. */
  lemma UntouchedDataIsKept(db: Db, r: Request, k: Key)
    requires Proper(r) && IsData(k) && k !in r.Touched()
    ensures SameAt(db, Exec(db, r).db, k)
  {
  }

  /** An idempotency key keeps the payload stored under it, whatever runs afterwards. */
  lemma OrderKeyIsKept(db: Db, r: Request, k: Key)
    requires Proper(r) && k.Order? && k in db.strs
    ensures k in Exec(db, r).db.strs && Exec(db, r).db.strs[k] == db.strs[k]
  {
    assert k !in r.Touched();
  }

  /** The first applied use of a key stores its payload under that key. */
  lemma FirstUseStoresPayload(db: Db, r: Request)
    requires Proper(r) && r.IdemKey().Some? && Exec(db, r).reply.Applied?
    ensures r.IdemKey().value !in db.strs
    ensures r.IdemKey().value in Exec(db, r).db.strs
    ensures Exec(db, r).db.strs[r.IdemKey().value] == r.IdemPayload()
    ensures Exec(db, r).reply.payload == r.IdemPayload()
  {
    assert r.IdemKey().value !in r.Touched();
  }

  /** Once a key holds a payload, every later use of it answers with that payload. */
  lemma {:induction false} LaterUsesRepeat(db: Db, rs: seq<Request>, k: Key, j: nat)
    requires AllProper(rs) && j < |rs| && k.Order? && k in db.strs
    requires rs[j].IdemKey() == Some(k)
    requires !(rs[j].Commit? && rs[j].req.ledgerKey.None? && rs[j].req.entries != [])
    ensures |Replies(db, rs)| == |rs| && Replies(db, rs)[j] == Duplicate(db.strs[k])
    decreases |rs|
  {
    RepliesLength(db, rs);
    if j > 0 {
      OrderKeyIsKept(db, rs[0], k);
      LaterUsesRepeat(Exec(db, rs[0]).db, rs[1..], k, j - 1);
    }
  }

  /** Over any run each idempotency key takes effect at most once, and every use after the
      first applied one returns the first payload. */
  lemma {:induction false} TakesEffectOnce(db: Db, rs: seq<Request>, i: nat, j: nat)
    requires AllProper(rs) && i < j < |rs|
    requires rs[i].IdemKey().Some? && rs[j].IdemKey() == rs[i].IdemKey()
    requires !(rs[j].Commit? && rs[j].req.ledgerKey.None? && rs[j].req.entries != [])
    ensures |Replies(db, rs)| == |rs|
    ensures Replies(db, rs)[i].Applied? ==> Replies(db, rs)[j] == Duplicate(rs[i].IdemPayload())
    decreases |rs|
  {
    RepliesLength(db, rs);
    var db' := Exec(db, rs[0]).db;
    if i > 0 {
      TakesEffectOnce(db', rs[1..], i - 1, j - 1);
    } else if Exec(db, rs[0]).reply.Applied? {
      FirstUseStoresPayload(db, rs[0]);
      LaterUsesRepeat(db', rs[1..], rs[0].IdemKey().value, j - 1);
    }
  }
}
