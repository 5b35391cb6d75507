/** The Redis key space, the values stored in it, and the state of the server.
    Keys are constructors rather than formatted strings, and a serialised module or
    transfer record is represented by the value it encodes. */
module Keyspace {

  datatype Option<+T> = None | Some(value: T)

  /** Counters that are 32 bits wide wrap around here. */
  const UINT32_SPAN: nat := 0x1_0000_0000

  datatype Module = Base | Bag | Quest | Social | Mail | Round | RG | Gacha

  datatype Key =
    | Epoch(shard: nat)
    | Player(uid: nat, mod: Module)
    | Profile(uid: nat)
    | Room(room: nat)
    | Order(uid: nat, id: string)
    | Ledger(uid: nat)
    | Tx(fromShard: nat, txid: nat)
    | TxDone(toShard: nat, txid: nat)
    | TxPending(fromShard: nat)

  /** One stack in a bag. */
  datatype Item = Item(instance: nat, tpl: nat, count: int, obtainedAt: int)

  datatype BagData = BagData(items: seq<Item>, capacity: nat)

  datatype BaseData = BaseData(currency: map<nat, int>)

  datatype Attachment = Attachment(tpl: nat, count: int)

  datatype TxState = Blank | Pending | Completed

  /** A cross-shard transfer. */
  datatype Record = Record(
    txid: nat, fromUid: nat, toUid: nat, fromShard: nat, toShard: nat,
    items: seq<Attachment>, currType: nat, currDelta: int,
    state: TxState, createdAt: int, doneAt: int, retries: nat)

  datatype Val =
    | Num(n: int)
    | Raw(bytes: string)
    | TxJson(rec: Record)
    | BagBlob(bag: BagData)
    | BaseBlob(base: BaseData)

  /** The server's state: string keys, streams, hashes and the sorted sets that index
      pending transfers (member to score). */
  datatype Db = Db(
    strs: map<Key, Val>,
    streams: map<Key, seq<Val>>,
    hashes: map<Key, map<string, Val>>,
    zsets: map<Key, map<Record, int>>)

  /** Keys that hold player or room data, the keys that fencing protects. */
  predicate IsData(k: Key) {
    k.Player? || k.Profile? || k.Room?
  }

  /** The shard a data key belongs to. */
  function ShardOf(k: Key, space: nat): nat
    requires IsData(k) && space > 0
  {
    match k
    case Player(uid, _) => uid % space
    case Profile(uid) => uid % space
    case Room(room) => room % space
  }

  function Number(v: Val): int {
    if v.Num? then v.n else 0
  }

  /** A missing or non-numeric string counts as zero, as the scripts read it. */
  function Counter(strs: map<Key, Val>, k: Key): int {
    if k in strs then Number(strs[k]) else 0
  }

  function EpochOf(db: Db, shard: nat): int {
    Counter(db.strs, Epoch(shard))
  }

  function StreamOf(streams: map<Key, seq<Val>>, k: Key): seq<Val> {
    if k in streams then streams[k] else []
  }

  function HashOf(hashes: map<Key, map<string, Val>>, k: Key): map<string, Val> {
    if k in hashes then hashes[k] else map[]
  }

  function ZsetOf(zsets: map<Key, map<Record, int>>, k: Key): map<Record, int> {
    if k in zsets then zsets[k] else map[]
  }
}
