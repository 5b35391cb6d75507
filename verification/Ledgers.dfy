/** Balances and the ledger that is committed with them. */
module Ledgers {
  const GOLD: nat := 1

  type Balances = map<nat, int>

  datatype Entry = Entry(currency: nat, amount: int, balance: int)

  function Get(b: Balances, c: nat): int {
    if c in b then b[c] else 0
  }

  // ------------------------------------------------------------------------------------
  // What each operation posts
  // ------------------------------------------------------------------------------------

  /** A change of one currency, or the note of an item, which names no currency. */
  datatype Line = Post(currency: nat, amount: int) | Note

  function EntryOf(b: Balances, line: Line): Entry {
    if line.Note? then Entry(0, 0, 0) else Entry(line.currency, line.amount, Get(b, line.currency) + line.amount)
  }

  function After(b: Balances, line: Line): Balances {
    if line.Note? then b else b[line.currency := Get(b, line.currency) + line.amount]
  }

  /** The entries that lines give, each with the balance it leaves. */
  function Posted(b: Balances, lines: seq<Line>): (r: (seq<Entry>, Balances))
    ensures |r.0| == |lines|
  {
    if lines == [] then ([], b)
    else
      var n := |lines| - 1;
      var (es, b') := Posted(b, lines[..n]);
      (es + [EntryOf(b', lines[n])], After(b', lines[n]))
  }

  function Notes(n: nat): (ls: seq<Line>)
    ensures |ls| == n
  {
    seq(n, i => Note)
  }

  function SpinLines(c: nat, bet: int, win: int, free: bool, contributes: bool): seq<Line> {
    (if free then [] else [Post(c, -bet)])
    + (if win > 0 then [Post(c, win)] else [])
    + (if !free && contributes then [Post(c, 0)] else [])
  }

  function GrantLines(c: nat, amount: int, items: nat): seq<Line> {
    (if amount != 0 && c != 0 then [Post(c, amount)] else []) + Notes(items)
  }

  function Reward(score: int, win: bool): int {
    if win then (100 + score) * 2 else 100 + score
  }

  // ------------------------------------------------------------------------------------
  // The books
  // ------------------------------------------------------------------------------------

  function SumOf(log: seq<Entry>, c: nat): int {
    if log == [] then 0
    else SumOf(log[..|log| - 1], c) + if log[|log| - 1].currency == c then log[|log| - 1].amount else 0
  }

  /** The balance of the last entry of the currency, or the opening one. */
  function Latest(opening: int, log: seq<Entry>, c: nat): int {
    if log == [] then opening
    else if log[|log| - 1].currency == c then log[|log| - 1].balance
    else Latest(opening, log[..|log| - 1], c)
  }

  /** Every entry of the currency follows from the one before. */
  predicate Chained(opening: int, log: seq<Entry>, c: nat) {
    log == []
    || (Chained(opening, log[..|log| - 1], c)
        && var e := log[|log| - 1];
           e.currency == c ==> e.balance == Latest(opening, log[..|log| - 1], c) + e.amount)
  }

  /** The sum explains every balance, and the entries of every real currency are a chain
      that ends in the balance. */
  ghost predicate Books(opening: Balances, log: seq<Entry>, b: Balances) {
    && (forall c: nat :: Get(b, c) == Get(opening, c) + SumOf(log, c))
    && (forall c: nat :: c != 0 ==> Chained(Get(opening, c), log, c) && Latest(Get(opening, c), log, c) == Get(b, c))
  }

  predicate NonNegative(b: Balances) {
    forall c <- b :: b[c] >= 0
  }

  lemma PostKeepsBooks(opening: Balances, log: seq<Entry>, b: Balances, c: nat, amount: int)
    requires Books(opening, log, b)
    ensures Books(opening, log + [Entry(c, amount, Get(b, c) + amount)], b[c := Get(b, c) + amount])
  {
    var longer := log + [Entry(c, amount, Get(b, c) + amount)];
    assert longer[..|log|] == log;
    forall d: nat | d != 0
      ensures Chained(Get(opening, d), longer, d)
      ensures Latest(Get(opening, d), longer, d) == Get(b[c := Get(b, c) + amount], d)
    {
      assert Chained(Get(opening, d), log, d) && Latest(Get(opening, d), log, d) == Get(b, d);
    }
  }

  lemma NoteKeepsBooks(opening: Balances, log: seq<Entry>, b: Balances)
    requires Books(opening, log, b)
    ensures Books(opening, log + [Entry(0, 0, 0)], b)
  {
    var longer := log + [Entry(0, 0, 0)];
    assert longer[..|log|] == log;
    forall d: nat | d != 0
      ensures Chained(Get(opening, d), longer, d) && Latest(Get(opening, d), longer, d) == Get(b, d)
    {
      assert Chained(Get(opening, d), log, d) && Latest(Get(opening, d), log, d) == Get(b, d);
    }
  }

  lemma LineKeepsBooks(opening: Balances, log: seq<Entry>, b: Balances, line: Line)
    requires Books(opening, log, b)
    ensures Books(opening, log + [EntryOf(b, line)], After(b, line))
  {
    if line.Note? {
      NoteKeepsBooks(opening, log, b);
    } else {
      PostKeepsBooks(opening, log, b, line.currency, line.amount);
    }
  }

  /** Whatever lines are posted, the books stay right. */
  lemma {:induction false} PostedKeepsBooks(opening: Balances, log: seq<Entry>, b: Balances, lines: seq<Line>)
    requires Books(opening, log, b)
    ensures Books(opening, log + Posted(b, lines).0, Posted(b, lines).1)
  {
    if lines == [] {
      assert log + [] == log;
    } else {
      var n := |lines| - 1;
      var (es, b') := Posted(b, lines[..n]);
      PostedKeepsBooks(opening, log, b, lines[..n]);
      LineKeepsBooks(opening, log + es, b', lines[n]);
      assert log + (es + [EntryOf(b', lines[n])]) == log + es + [EntryOf(b', lines[n])];
    }
  }

  lemma {:induction false} NotesChangeNothing(b: Balances, lines: seq<Line>, n: nat)
    ensures Posted(b, lines + Notes(n)).1 == Posted(b, lines).1
    ensures Posted(b, lines + Notes(n)).0 == Posted(b, lines).0 + seq(n, i => Entry(0, 0, 0))
  {
    if n == 0 {
      assert lines + Notes(0) == lines;
    } else {
      NotesChangeNothing(b, lines, n - 1);
      assert (lines + Notes(n))[..|lines| + n - 1] == lines + Notes(n - 1);
      assert seq(n, i => Entry(0, 0, 0)) == seq(n - 1, i => Entry(0, 0, 0)) + [Entry(0, 0, 0)];
    }
  }

  lemma PostedMore(b: Balances, lines: seq<Line>, line: Line)
    ensures var (es, b') := Posted(b, lines);
      Posted(b, lines + [line]) == (es + [EntryOf(b', line)], After(b', line))
  {
    assert (lines + [line])[..|lines|] == lines;
  }

  lemma PostedOne(b: Balances, line: Line)
    ensures Posted(b, [line]) == ([EntryOf(b, line)], After(b, line))
  {
    PostedMore(b, [], line);
    assert [] + [line] == [line] && [] + [EntryOf(b, line)] == [EntryOf(b, line)];
  }

  // ------------------------------------------------------------------------------------
  // The handlers
  // ------------------------------------------------------------------------------------

  datatype Reply = Refused | Failed | Duplicate | Done(balances: Balances)

  class Wallet {
    /** The copy in memory and the stored one, the ledger, the used idempotency keys. */
    var memory: Balances
    var stored: Balances
    var log: seq<Entry>
    var orders: set<string>
    ghost const opening: Balances

    ghost predicate Inv()
      reads this
    {
      memory == stored && Books(opening, log, stored)
    }

    constructor (opening: Balances)
      ensures Inv() && stored == opening && this.opening == opening && log == [] && orders == {}
    {
      this.opening, memory, stored, log, orders := opening, opening, opening, [], {};
    }

    /** What a commit of these lines under this key does; ok is false when it is refused for
        its epoch or fails. */
    twostate predicate Committed(key: string, ok: bool, lines: seq<Line>, reply: Reply)
      reads this
    {
      if ok && key !in old(orders)
      then
        && reply == Done(memory) && stored == memory == Posted(old(memory), lines).1
        && log == old(log) + Posted(old(memory), lines).0 && orders == old(orders) + {key}
      else
        && reply == (if ok then Duplicate else Failed)
        && memory == old(memory) && stored == old(stored) && log == old(log) && orders == old(orders)
    }

    /** A request that is done leaves its key and replaces both copies; any other leaves all as it
        was. */
    twostate predicate Recorded(key: string, reply: Reply)
      reads this
    {
      if reply.Done? then reply.balances == stored == memory && orders == old(orders) + {key}
      else memory == old(memory) && stored == old(stored) && log == old(log) && orders == old(orders)
    }

    /** One currency has changed by the amount, the others have not. */
    twostate predicate Moved(c: nat, amount: int)
      reads this
    {
      forall d: nat :: Get(memory, d) == Get(old(memory), d) + if d == c then amount else 0
    }

    method Commit(key: string, ok: bool, copy: Balances, entries: seq<Entry>, ghost lines: seq<Line>)
      returns (reply: Reply)
      requires Inv() && (entries, copy) == Posted(memory, lines)
      modifies this
      ensures Inv() && Committed(key, ok, lines, reply) && Recorded(key, reply)
      ensures reply.Done? <==> ok && key !in old(orders)
      ensures reply.Done? ==> memory == copy && log == old(log) + entries
    {
      if !ok { return Failed; }
      if key in orders { return Duplicate; }
      PostedKeepsBooks(opening, log, memory, lines);
      orders, log, stored, memory := orders + {key}, log + entries, copy, copy;
      return Done(copy);
    }

    method HandleSpin(c: nat, bet: int, win: int, free: bool, contributes: bool, key: string, ok: bool)
      returns (reply: Reply)
      requires Inv()
      modifies this
      ensures Inv()
      ensures reply.Refused? <==> !free && Get(old(memory), c) < bet
      ensures reply.Refused? ==> memory == old(memory) && log == old(log) && orders == old(orders)
      ensures !reply.Refused? ==> Committed(key, ok, SpinLines(c, bet, win, free, contributes), reply)
      ensures Recorded(key, reply) && (reply.Done? <==> !reply.Refused? && ok && key !in old(orders))
      ensures reply.Done? ==> Moved(c, (if free then 0 else -bet) + if win > 0 then win else 0)
      ensures reply.Done? ==>
        var staked := Get(old(memory), c) - if free then 0 else bet;
        log == old(log) + ((if free then [] else [Entry(c, -bet, staked)])
                           + (if win > 0 then [Entry(c, win, staked + win)] else [])
                           + (if !free && contributes then [Entry(c, 0, Get(memory, c))] else []))
      ensures NonNegative(old(memory)) ==> NonNegative(memory)
    {
      if !free && Get(memory, c) < bet { return Refused; }
      var copy, entries := PostSpin(memory, c, bet, win, free, contributes);
      reply := Commit(key, ok, copy, entries, SpinLines(c, bet, win, free, contributes));
    }

    /** Draws given up half-way (a full bag) refuse the whole request. */
    method HandleGacha(c: nat, price: int, times: nat, room: nat -> bool, key: string, ok: bool) returns (reply: Reply)
      requires Inv()
      modifies this
      ensures Inv()
      ensures reply.Refused? <==> Get(old(memory), c) < price * times || exists i :: 0 <= i < times && !room(i)
      ensures !reply.Refused? ==> Committed(key, ok, [Post(c, -price * times)] + Notes(times), reply)
      ensures Recorded(key, reply) && (reply.Done? <==> !reply.Refused? && ok && key !in old(orders))
      ensures reply.Done? ==> Moved(c, -price * times)
      ensures reply.Done? ==>
        log == old(log) + ([Entry(c, -price * times, Get(memory, c))] + seq(times, i => Entry(0, 0, 0)))
      ensures NonNegative(old(memory)) ==> NonNegative(memory)
    {
      var cost := price * times;
      if Get(memory, c) < cost { return Refused; }
      var copy := memory[c := Get(memory, c) - cost];
      var entries := [Entry(c, -cost, Get(copy, c))];
      PostedOne(memory, Post(c, -cost));
      for i := 0 to times
        invariant entries == [Entry(c, -cost, Get(copy, c))] + seq(i, k => Entry(0, 0, 0))
        invariant forall k: nat :: k < i ==> room(k)
      {
        if !room(i) { return Refused; }
        entries := entries + [Entry(0, 0, 0)];
      }
      NotesChangeNothing(memory, [Post(c, -cost)], times);
      assert -price * times == -cost;
      reply := Commit(key, ok, copy, entries, [Post(c, -cost)] + Notes(times));
    }

    /** A grant by a game master, of money, of items, or of both. */
    method HandleGrant(c: nat, amount: int, items: nat, room: nat -> bool, key: string, ok: bool) returns (reply: Reply)
      requires Inv()
      modifies this
      ensures Inv()
      ensures reply.Refused? <==>
        (amount != 0 && c != 0 && Get(old(memory), c) + amount < 0) || exists i :: 0 <= i < items && !room(i)
      ensures reply.Refused? ==> memory == old(memory) && log == old(log) && orders == old(orders)
      ensures !reply.Refused? ==> Committed(key, ok, GrantLines(c, amount, items), reply)
      ensures Recorded(key, reply) && (reply.Done? <==> !reply.Refused? && ok && key !in old(orders))
      ensures reply.Done? ==> Moved(c, if c != 0 then amount else 0)
      ensures reply.Done? ==>
        log == old(log) + ((if amount != 0 && c != 0 then [Entry(c, amount, Get(memory, c))] else [])
                           + seq(items, i => Entry(0, 0, 0)))
      ensures NonNegative(old(memory)) ==> NonNegative(memory)
    {
      var copy, entries: seq<Entry> := memory, [];
      ghost var lines: seq<Line> := [];
      if amount != 0 && c != 0 {
        if Get(copy, c) + amount < 0 { return Refused; }
        copy := copy[c := Get(copy, c) + amount];
        entries := [Entry(c, amount, Get(copy, c))];
        PostedOne(memory, Post(c, amount));
        lines := [Post(c, amount)];
      }
      ghost var first := entries;
      for i := 0 to items
        invariant entries == first + seq(i, k => Entry(0, 0, 0))
        invariant forall k: nat :: k < i ==> room(k)
      {
        if !room(i) { return Refused; }
        entries := entries + [Entry(0, 0, 0)];
      }
      NotesChangeNothing(memory, lines, items);
      assert lines + Notes(items) == GrantLines(c, amount, items);
      reply := Commit(key, ok, copy, entries, lines + Notes(items));
    }

    /** One unchecked posting: a purchase, a battle reward, a jackpot. */
    method Credit(c: nat, amount: int, key: string, ok: bool) returns (reply: Reply)
      requires Inv()
      modifies this
      ensures Inv() && Committed(key, ok, [Post(c, amount)], reply) && Recorded(key, reply)
      ensures reply.Done? <==> ok && key !in old(orders)
      ensures reply.Done? ==> Moved(c, amount) && log == old(log) + [Entry(c, amount, Get(memory, c))]
      ensures NonNegative(old(memory)) ==>
        (NonNegative(memory) <==> Get(old(memory), c) + amount >= 0 || memory == old(memory))
    {
      var copy := memory[c := Get(memory, c) + amount];
      PostedOne(memory, Post(c, amount));
      reply := Commit(key, ok, copy, [Entry(c, amount, Get(copy, c))], [Post(c, amount)]);
    }

    /** The amount is the product's, which the start-up check demands to be positive. */
    method HandlePurchase(c: nat, amount: nat, key: string, ok: bool) returns (reply: Reply)
      requires Inv()
      modifies this
      ensures Inv() && Committed(key, ok, [Post(c, amount)], reply) && Recorded(key, reply)
      ensures reply.Done? <==> ok && key !in old(orders)
      ensures reply.Done? ==> Moved(c, amount) && log == old(log) + [Entry(c, amount, Get(memory, c))]
      ensures NonNegative(old(memory)) ==> NonNegative(memory)
    {
      reply := Credit(c, amount, key, ok);
    }

    /** The reward is not checked; RewardIsSafeExactly says which scores are safe. */
    method HandleBattleSettle(score: int, win: bool, key: string, ok: bool) returns (reply: Reply)
      requires Inv()
      modifies this
      ensures Inv() && Committed(key, ok, [Post(GOLD, Reward(score, win))], reply) && Recorded(key, reply)
      ensures reply.Done? <==> ok && key !in old(orders)
      ensures reply.Done? ==> Moved(GOLD, (100 + score) * if win then 2 else 1)
      ensures reply.Done? ==> log == old(log) + [Entry(GOLD, (100 + score) * if win then 2 else 1, Get(memory, GOLD))]
      ensures NonNegative(old(memory)) ==>
        (NonNegative(memory) <==> Get(old(memory), GOLD) + Reward(score, win) >= 0 || !ok || key in old(orders))
      ensures score >= -100 && NonNegative(old(memory)) ==> NonNegative(memory)
    {
      var gold := 100 + score;
      if win { gold := gold * 2; }
      reply := Credit(GOLD, gold, key, ok);
    }

    method HandleApplyJackpot(c: nat, amount: int, key: string, ok: bool) returns (reply: Reply)
      requires Inv()
      modifies this
      ensures Inv()
      ensures reply.Refused? <==> amount <= 0
      ensures reply.Refused? ==> memory == old(memory) && log == old(log) && orders == old(orders)
      ensures !reply.Refused? ==> Committed(key, ok, [Post(c, amount)], reply)
      ensures Recorded(key, reply) && (reply.Done? <==> !reply.Refused? && ok && key !in old(orders))
      ensures reply.Done? ==> Moved(c, amount) && log == old(log) + [Entry(c, amount, Get(memory, c))]
      ensures NonNegative(old(memory)) ==> NonNegative(memory)
    {
      if amount <= 0 { return Refused; }
      reply := Credit(c, amount, key, ok);
    }

    /** Recomputes a balance from the untrimmed ledger, newest entry first: the sum is what the
        balance gained since the opening one, for every currency, and as soon as a real currency
        has an entry its latest balance is the balance itself. */
    method Reconcile(c: nat) returns (sum: int, latest: int)
      requires Inv()
      ensures sum == Get(stored, c) - Get(opening, c)
      ensures c != 0 && Mentions(log, c) ==> latest == Get(stored, c)
      ensures !Mentions(log, c) ==> sum == 0 && latest == 0
    {
      sum, latest := Balance(Reversed(log), c);
      assert Reversed(Reversed(log)) == log;
      LatestIsTheLastEntry(log, c, 0, Get(opening, c));
    }
  }

  /** Where it applies, adds an amount to the copy and its entry to the list. */
  method AddIf(also: bool, c: nat, amount: int, copy: Balances, entries: seq<Entry>, ghost b: Balances,
               ghost lines: seq<Line>)
    returns (copy': Balances, entries': seq<Entry>)
    requires (entries, copy) == Posted(b, lines)
    ensures (entries', copy') == Posted(b, lines + if also then [Post(c, amount)] else [])
  {
    PostedMaybe(b, lines, also, c, amount);
    if !also { return copy, entries; }
    copy' := copy[c := Get(copy, c) + amount];
    entries' := entries + [Entry(c, amount, Get(copy', c))];
  }

  lemma PostedMaybe(b: Balances, lines: seq<Line>, also: bool, c: nat, amount: int)
    ensures var (es, b') := Posted(b, lines); var after := Get(b', c) + amount;
      Posted(b, lines + if also then [Post(c, amount)] else [])
      == if also then (es + [Entry(c, amount, after)], b'[c := after]) else (es, b')
  {
    if also { PostedMore(b, lines, Post(c, amount)); } else { assert lines + [] == lines; }
  }

  /** What the lines of a spin come to: the bet is taken, the win is paid on top of what is left,
      and the contribution only notes the balance. */
  lemma SpinPosted(b: Balances, c: nat, bet: int, win: int, free: bool, contributes: bool)
    ensures var (entries, after) := Posted(b, SpinLines(c, bet, win, free, contributes));
      var staked := Get(b, c) - if free then 0 else bet;
      && Get(after, c) == staked + (if win > 0 then win else 0)
      && (forall d: nat :: d != c ==> Get(after, d) == Get(b, d))
      && entries == (if free then [] else [Entry(c, -bet, staked)])
           + (if win > 0 then [Entry(c, win, staked + win)] else [])
           + (if !free && contributes then [Entry(c, 0, Get(after, c))] else [])
  {
    var bets := if free then [] else [Post(c, -bet)];
    StakePosted(b, c, bet, free);
    var (es, b') := Posted(b, bets);
    PostedMaybe(b, bets, win > 0, c, win);
    PostedMaybe(b, bets + (if win > 0 then [Post(c, win)] else []), !free && contributes, c, 0);
  }

  lemma StakePosted(b: Balances, c: nat, bet: int, free: bool)
    ensures var (es, after) := Posted(b, if free then [] else [Post(c, -bet)]);
      var staked := Get(b, c) - if free then 0 else bet;
      && es == (if free then [] else [Entry(c, -bet, staked)]) && Get(after, c) == staked
      && forall d: nat :: d != c ==> Get(after, d) == Get(b, d)
  {
    if !free { PostedOne(b, Post(c, -bet)); }
  }

  /** A covered bet leaves no debt. */
  lemma SpinKeepsNonNegative(b: Balances, c: nat, bet: int, win: int, free: bool, contributes: bool)
    requires NonNegative(b) && (free || Get(b, c) >= bet)
    ensures NonNegative(Posted(b, SpinLines(c, bet, win, free, contributes)).1)
  {
    SpinPosted(b, c, bet, win, free, contributes);
    var after := Posted(b, SpinLines(c, bet, win, free, contributes)).1;
    assert forall d <- after :: after[d] == Get(after, d) && Get(b, d) >= 0;
  }

  /** The entries of a spin: the bet, the win, the note of the jackpot contribution. */
  method PostSpin(b: Balances, c: nat, bet: int, win: int, free: bool, contributes: bool)
    returns (copy: Balances, entries: seq<Entry>)
    ensures (entries, copy) == Posted(b, SpinLines(c, bet, win, free, contributes))
    ensures var staked := Get(b, c) - if free then 0 else bet;
      && Get(copy, c) == staked + (if win > 0 then win else 0)
      && entries == (if free then [] else [Entry(c, -bet, staked)])
           + (if win > 0 then [Entry(c, win, staked + win)] else [])
           + (if !free && contributes then [Entry(c, 0, Get(copy, c))] else [])
    ensures forall d: nat :: d != c ==> Get(copy, d) == Get(b, d)
    ensures NonNegative(b) && (free || Get(b, c) >= bet) ==> NonNegative(copy)
  {
    copy, entries := AddIf(!free, c, -bet, b, [], b, []);
    ghost var bets := [] + if !free then [Post(c, -bet)] else [];
    copy, entries := AddIf(win > 0, c, win, copy, entries, b, bets);
    ghost var wins := bets + if win > 0 then [Post(c, win)] else [];
    copy, entries := AddIf(!free && contributes, c, 0, copy, entries, b, wins);
    assert bets == if free then [] else [Post(c, -bet)];
    SpinPosted(b, c, bet, win, free, contributes);
    if NonNegative(b) && (free || Get(b, c) >= bet) { SpinKeepsNonNegative(b, c, bet, win, free, contributes); }
  }

  /** A battle score keeps every non-negative wallet non-negative exactly from minus one
      hundred upwards, for winners and losers. */
  lemma RewardIsSafeExactly(score: int, win: bool)
    ensures (forall b: Balances :: NonNegative(b) ==> NonNegative(After(b, Post(GOLD, Reward(score, win)))))
       <==> score >= -100
  {
    if score < -100 { LowScoreOverdraws(score, win); }
  }

  /** Below that, an empty wallet goes into debt. */
  lemma LowScoreOverdraws(score: int, win: bool)
    requires score < -100
    ensures NonNegative(map[]) && !NonNegative(After(map[], Post(GOLD, Reward(score, win))))
  {
    var b := After(map[], Post(GOLD, Reward(score, win)));
    assert GOLD in b && b[GOLD] < 0;
  }

  // ------------------------------------------------------------------------------------
  // Reconciliation
  // ------------------------------------------------------------------------------------

  function Reversed(log: seq<Entry>): (r: seq<Entry>)
    ensures |r| == |log|
  {
    seq(|log|, i requires 0 <= i < |log| => log[|log| - 1 - i])
  }

  /** Recomputes a balance from the entries, newest first. */
  method Balance(entries: seq<Entry>, c: nat) returns (sum: int, latest: int)
    ensures sum == SumOf(Reversed(entries), c) && latest == Latest(0, Reversed(entries), c)
  {
    sum, latest := 0, 0;
    var found := false;
    ghost var log := Reversed(entries);
    assert log[..|log|] == log;
    for i := 0 to |entries|
      invariant SumOf(log, c) == sum + SumOf(log[..|log| - i], c)
      invariant found ==> latest == Latest(0, log, c)
      invariant !found ==> latest == 0 && Latest(0, log, c) == Latest(0, log[..|log| - i], c)
    {
      var e := entries[i];
      ghost var rest := log[..|log| - i];
      assert rest[|rest| - 1] == e && rest[..|rest| - 1] == log[..|log| - i - 1];
      if e.currency != c { continue; }
      if i == 0 || !found { latest, found := e.balance, true; }
      sum := sum + e.amount;
    }
  }

  predicate Mentions(log: seq<Entry>, c: nat) {
    exists i :: 0 <= i < |log| && log[i].currency == c
  }

  /** Only a ledger without an entry of the currency falls back to the opening balance. */
  lemma {:induction false} LatestIsTheLastEntry(log: seq<Entry>, c: nat, a: int, b: int)
    ensures Mentions(log, c) ==> Latest(a, log, c) == Latest(b, log, c)
    ensures !Mentions(log, c) ==> Latest(a, log, c) == a && SumOf(log, c) == 0
  {
    if log != [] {
      var n := |log| - 1;
      LatestIsTheLastEntry(log[..n], c, a, b);
      if log[n].currency != c && Mentions(log, c) {
        var i :| 0 <= i < |log| && log[i].currency == c;
        assert log[..n][i].currency == c;
      }
      if Mentions(log[..n], c) {
        var i :| 0 <= i < n && log[..n][i].currency == c;
        assert log[i].currency == c;
      }
    }
  }

  /** A note is a link of the chain of currency zero exactly when that balance is zero. */
  lemma NoteIsALinkExactly(opening: int, log: seq<Entry>)
    requires Chained(opening, log, 0)
    ensures Chained(opening, log + [Entry(0, 0, 0)], 0) <==> Latest(opening, log, 0) == 0
  {
    assert (log + [Entry(0, 0, 0)])[..|log|] == log;
  }
}
