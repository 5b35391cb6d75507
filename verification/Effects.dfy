/** What a caller of the scripts can observe afterwards, key by key: which answer each script
    gives, everything an applied one writes, and that it writes nothing else. */
module Effects {
  import opened Keyspace
  import opened Scripts

  function StrAt(db: Db, k: Key): Option<Val> {
    if k in db.strs then Some(db.strs[k]) else None
  }

  /** Afterwards every pair of kv reads back, then every pair of marks, and every other string
      is as it was. */
  ghost predicate Reads(before: Db, after: Db, kv: map<Key, Val>, marks: map<Key, Val>) {
    forall k: Key :: StrAt(after, k)
      == if k in kv then Some(kv[k]) else if k in marks then Some(marks[k]) else StrAt(before, k)
  }

  /** Every stream has the entries that were appended to it, and no other. */
  ghost predicate Appends(before: Db, after: Db, key: Option<Key>, entries: seq<Val>) {
    forall k: Key :: StreamOf(after.streams, k)
      == if key == Some(k) then StreamOf(before.streams, k) + entries else StreamOf(before.streams, k)
  }

  ghost predicate OnlyStrings(before: Db, after: Db) {
    after.streams == before.streams && after.hashes == before.hashes && after.zsets == before.zsets
  }

  /** A commit names a ledger for its entries. */
  predicate WellNamed(c: CommitReq) {
    c.ledgerKey.Some? || c.entries == []
  }

  predicate Used(db: Db, c: CommitReq) {
    c.idemTtl > 0 && c.idemKey.Some? && c.idemKey.value in db.strs
  }

  function Mark(c: CommitReq): map<Key, Val> {
    if c.idemTtl > 0 && c.idemKey.Some? then map[c.idemKey.value := c.payload] else map[]
  }

  /** Which of its four answers a commit gives. */
  lemma CommitAnswers(db: Db, c: CommitReq)
    ensures var reply := Exec(db, Commit(c)).reply;
      && (reply.Invalid? <==> !WellNamed(c))
      && (reply.Duplicate? <==> WellNamed(c) && Used(db, c))
      && (reply.Duplicate? ==> reply.payload == db.strs[c.idemKey.value])
      && (reply.Fenced? <==> WellNamed(c) && !Used(db, c) && EpochOf(db, c.shard) > c.epoch)
      && (reply.Applied? <==> WellNamed(c) && !Used(db, c) && EpochOf(db, c.shard) <= c.epoch)
      && (reply.Applied? ==> reply.payload == c.payload)
  {
  }

  /** An applied commit appends exactly its entries to exactly its ledger, every pair it names
      reads back, its key holds its payload, and nothing else has changed. */
  lemma CommitWritesExactly(db: Db, c: CommitReq)
    requires Exec(db, Commit(c)).reply.Applied?
    ensures var after := Exec(db, Commit(c)).db;
      && Appends(db, after, c.ledgerKey, c.entries) && Reads(db, after, c.kv, Mark(c))
      && after.hashes == db.hashes && after.zsets == db.zsets
  {
  }

  lemma ModulesWriteExactly(db: Db, shard: nat, epoch: int, kv: map<Key, Val>)
    ensures var o := Exec(db, WriteModules(shard, epoch, kv));
      && (o.reply.Skipped? <==> kv == map[])
      && (o.reply.Fenced? <==> kv != map[] && EpochOf(db, shard) > epoch)
      && (o.reply.Applied? <==> kv != map[] && EpochOf(db, shard) <= epoch)
      && (o.reply.Applied? ==> Reads(db, o.db, kv, map[]) && OnlyStrings(db, o.db))
  {
  }

  /** One hash has its old fields and the given ones, the others are as they were. */
  ghost predicate Merges(before: Db, after: Db, hash: Key, fields: map<string, Val>) {
    forall k: Key :: HashOf(after.hashes, k)
      == if k == hash then HashOf(before.hashes, k) + fields else HashOf(before.hashes, k)
  }

  lemma HashWritesExactly(db: Db, shard: nat, epoch: int, hash: Key, fields: map<string, Val>)
    ensures var o := Exec(db, WriteHash(shard, epoch, hash, fields));
      && (o.reply.Skipped? <==> fields == map[])
      && (o.reply.Fenced? <==> fields != map[] && EpochOf(db, shard) > epoch)
      && (o.reply.Applied? <==> fields != map[] && EpochOf(db, shard) <= epoch)
      && (o.reply.Applied? ==> o.db == db.(hashes := o.db.hashes) && Merges(db, o.db, hash, fields))
  {
  }

  lemma ThroughWritesExactly(db: Db, shard: nat, epoch: int, order: Key, payload: Val, kv: map<Key, Val>)
    ensures var o := Exec(db, WriteThrough(shard, epoch, order, payload, kv));
      && (o.reply.Duplicate? <==> order in db.strs) && (o.reply.Duplicate? ==> o.reply.payload == db.strs[order])
      && (o.reply.Fenced? <==> order !in db.strs && EpochOf(db, shard) > epoch)
      && (o.reply.Applied? <==> order !in db.strs && EpochOf(db, shard) <= epoch)
      && (o.reply.Applied? ==>
            o.reply.payload == payload && Reads(db, o.db, kv, map[order := payload]) && OnlyStrings(db, o.db))
  {
  }

  /** The key holds the same in both states, whatever kind of value it is. */
  predicate SameEverywhere(a: Db, b: Db, k: Key) {
    && StrAt(a, k) == StrAt(b, k) && (k in a.streams <==> k in b.streams)
    && StreamOf(a.streams, k) == StreamOf(b.streams, k) && (k in a.hashes <==> k in b.hashes)
    && HashOf(a.hashes, k) == HashOf(b.hashes, k) && (k in a.zsets <==> k in b.zsets)
    && ZsetOf(a.zsets, k) == ZsetOf(b.zsets, k)
  }

  predicate Nowhere(db: Db, k: Key) {
    k !in db.strs && k !in db.streams && k !in db.hashes && k !in db.zsets
  }

  lemma DeleteRemovesExactly(db: Db, shard: nat, epoch: int, keys: seq<Key>)
    ensures var o := Exec(db, Delete(shard, epoch, keys));
      && (o.reply.Skipped? <==> keys == [])
      && (o.reply.Fenced? <==> keys != [] && EpochOf(db, shard) > epoch)
      && (o.reply.Applied? <==> keys != [] && EpochOf(db, shard) <= epoch)
      && (o.reply.Applied? ==> forall k: Key :: if k in keys then Nowhere(o.db, k) else SameEverywhere(db, o.db, k))
  {
  }

  lemma RaiseWritesExactly(db: Db, shard: nat, epoch: int)
    ensures var o := Exec(db, RaiseEpoch(shard, epoch));
      && (o.reply.Applied? <==> EpochOf(db, shard) < epoch) && (o.reply.Fenced? <==> EpochOf(db, shard) >= epoch)
      && (o.reply.Applied? ==> Reads(db, o.db, map[Epoch(shard) := Num(epoch)], map[]) && OnlyStrings(db, o.db))
  {
  }

  // ------------------------------------------------------------------------------------
  // Transfers
  // ------------------------------------------------------------------------------------

  /** Every index is as it was but for one, which lost some members and gained one. */
  ghost predicate Reindexes(before: Db, after: Db, index: Key, gone: set<Record>, more: map<Record, int>) {
    forall k: Key, r: Record :: ScoreIn(after, k, r)
      == if k != index then ScoreIn(before, k, r)
         else if r in more then Some(more[r]) else if r in gone then None else ScoreIn(before, k, r)
  }

  function ScoreIn(db: Db, k: Key, r: Record): Option<int> {
    if r in ZsetOf(db.zsets, k) then Some(ZsetOf(db.zsets, k)[r]) else None
  }

  lemma BeginWritesExactly(db: Db, epoch: int, rec: Record, kv: map<Key, Val>)
    ensures var o, tx := Exec(db, Begin(epoch, rec, kv)), Tx(rec.fromShard, rec.txid);
      && (o.reply.Duplicate? <==> tx in db.strs)
      && (o.reply.Fenced? <==> tx !in db.strs && EpochOf(db, rec.fromShard) > epoch)
      && (o.reply.Applied? <==> tx !in db.strs && EpochOf(db, rec.fromShard) <= epoch)
      && (o.reply.Applied? ==>
            && Reads(db, o.db, kv, map[tx := TxJson(rec)])
            && Reindexes(db, o.db, TxPending(rec.fromShard), {}, map[rec := rec.createdAt])
            && o.db.streams == db.streams && o.db.hashes == db.hashes)
  {
  }

  lemma ClaimWritesExactly(db: Db, epoch: int, rec: Record, kv: map<Key, Val>)
    ensures var o, done := Exec(db, Claim(epoch, rec, kv)), TxDone(rec.toShard, rec.txid);
      && (o.reply.Duplicate? <==> done in db.strs)
      && (o.reply.Fenced? <==> done !in db.strs && EpochOf(db, rec.toShard) > epoch)
      && (o.reply.Applied? <==> done !in db.strs && EpochOf(db, rec.toShard) <= epoch)
      && (o.reply.Applied? ==> Reads(db, o.db, kv, map[done := Num(epoch)]) && OnlyStrings(db, o.db))
  {
  }

  /** A completed transfer leaves the index, both as the caller knows it and as it was stored,
      and nothing else leaves. */
  lemma CompleteWritesExactly(db: Db, rec: Record, doneAt: int)
    ensures var after, tx := CompleteEffect(db, rec, doneAt), Tx(rec.fromShard, rec.txid);
      && Reads(db, after, map[tx := TxJson(rec.(state := Completed, doneAt := doneAt))], map[])
      && Reindexes(db, after, TxPending(rec.fromShard), {rec} + StoredRecord(db, tx), map[])
      && after.streams == db.streams && after.hashes == db.hashes
  {
  }

  function StoredRecord(db: Db, tx: Key): set<Record> {
    if tx in db.strs && db.strs[tx].TxJson? then {db.strs[tx].rec} else {}
  }

  /** The three commands of a requeue without others between them: the record and its index
      member are replaced by ones with one more retry. */
  lemma RequeueWritesExactly(db: Db, rec: Record, now: int)
    ensures var after := RequeueSet(RequeueAdd(RequeueRemove(db, rec), rec, now), rec);
      var again := rec.(retries := rec.retries + 1);
      && Reads(db, after, map[Tx(rec.fromShard, rec.txid) := TxJson(again)], map[])
      && Reindexes(db, after, TxPending(rec.fromShard), {rec}, map[again := now])
      && after.streams == db.streams && after.hashes == db.hashes
  {
  }

  // ------------------------------------------------------------------------------------
  // The ledger over a run
  // ------------------------------------------------------------------------------------

  function StateAfter(db: Db, rs: seq<Request>): Db
    decreases |rs|
  {
    if rs == [] then db else StateAfter(Exec(db, rs[0]).db, rs[1..])
  }

  /** The entries of the commits to this ledger that were answered as applied, in order. */
  function AppliedEntries(replies: seq<Reply>, rs: seq<Request>, ledger: Key): seq<Val>
    requires |replies| == |rs|
    decreases |rs|
  {
    if rs == [] then [] else Appended(replies[0], rs[0], ledger) + AppliedEntries(replies[1..], rs[1..], ledger)
  }

  /** What one request with this answer appends. */
  function Appended(reply: Reply, r: Request, ledger: Key): seq<Val> {
    if reply.Applied? && r.Commit? && r.req.ledgerKey == Some(ledger) then r.req.entries else []
  }

  lemma ScriptAppends(db: Db, r: Request, uid: nat)
    requires Proper(r)
    ensures var o := Exec(db, r);
      StreamOf(o.db.streams, Ledger(uid)) == StreamOf(db.streams, Ledger(uid)) + Appended(o.reply, r, Ledger(uid))
  {
    assert Ledger(uid) !in r.Touched();
    if r.Commit? && Exec(db, r).reply.Applied? { CommitWritesExactly(db, r.req); }
  }

  lemma AppliedNext(reply: Reply, rest: seq<Reply>, rs: seq<Request>, ledger: Key, before: seq<Val>)
    requires rs != [] && |rest| == |rs| - 1
    ensures before + AppliedEntries([reply] + rest, rs, ledger)
         == before + Appended(reply, rs[0], ledger) + AppliedEntries(rest, rs[1..], ledger)
  {
    assert ([reply] + rest)[1..] == rest;
  }

  /** Over any run of scripts a player's ledger grows by exactly the entries of the commits that
      were answered as applied, in that order: none is missing, none is there twice. */
  lemma {:induction false} LedgerHoldsAppliedEntries(db: Db, rs: seq<Request>, uid: nat)
    requires AllProper(rs)
    ensures |Replies(db, rs)| == |rs|
    ensures StreamOf(StateAfter(db, rs).streams, Ledger(uid))
         == StreamOf(db.streams, Ledger(uid)) + AppliedEntries(Replies(db, rs), rs, Ledger(uid))
    decreases |rs|
  {
    RepliesLength(db, rs);
    if rs != [] {
      var o := Exec(db, rs[0]);
      LedgerHoldsAppliedEntries(o.db, rs[1..], uid);
      ScriptAppends(db, rs[0], uid);
      AppliedNext(o.reply, Replies(o.db, rs[1..]), rs, Ledger(uid), StreamOf(db.streams, Ledger(uid)));
    }
  }
}
