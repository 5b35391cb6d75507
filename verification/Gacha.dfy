/** Card pools: weighted draws with pity counters and the ten-pull guarantee. */
module Gacha {
  import opened Keyspace
  import opened Rng

  const MAX_DRAWS: nat := 10

  datatype Entry = Entry(tpl: nat, rarity: nat, weight: int)

  datatype Pool = Pool(
    entries: seq<Entry>, pityTop: nat, pityHigh: nat, topRarity: nat, highRarity: nat, tenPull: bool)

  /** What the start-up check demands of a pool; the pity limits are 32 bits wide. */
  predicate Valid(p: Pool) {
    && (forall i :: 0 <= i < |p.entries| ==> p.entries[i].weight >= 0)
    && (exists i :: 0 <= i < |p.entries| && p.entries[i].weight > 0)
    && 0 < p.pityTop < UINT32_SPAN && p.pityHigh < UINT32_SPAN
  }

  /** An entry of at least this rarity can be drawn. */
  ghost predicate CanDrop(p: Pool, rarity: nat) {
    exists i: nat :: Droppable(p, i, rarity)
  }

  /** No entry that clears the top counter falls short of the high rarity. */
  ghost predicate Ordered(p: Pool) {
    p.topRarity >= p.highRarity
    || forall i: nat :: Droppable(p, i, p.topRarity) ==> p.entries[i].rarity >= p.highRarity
  }

  predicate Droppable(p: Pool, i: nat, rarity: nat) {
    i < |p.entries| && p.entries[i].weight > 0 && p.entries[i].rarity >= rarity
  }

  lemma ValidCanDrop(p: Pool)
    requires Valid(p)
    ensures CanDrop(p, 0)
  {
    var i :| 0 <= i < |p.entries| && p.entries[i].weight > 0;
    assert Droppable(p, i, 0);
  }

  // ------------------------------------------------------------------------------------
  // Drawing
  // ------------------------------------------------------------------------------------

  /** The positions from k on with at least this rarity. */
  function Eligible(es: seq<Entry>, rarity: nat, k: nat): (idxs: seq<nat>)
    requires k <= |es|
    ensures forall j :: 0 <= j < |idxs| ==> idxs[j] < |es| && es[idxs[j]].rarity >= rarity
    decreases |es| - k
  {
    if k == |es| then []
    else if es[k].rarity >= rarity then [k] + Eligible(es, rarity, k + 1)
    else Eligible(es, rarity, k + 1)
  }

  lemma EligibleHas(es: seq<Entry>, rarity: nat, k: nat, i: nat)
    requires k <= i < |es| && es[i].rarity >= rarity
    ensures i in Eligible(es, rarity, k)
    decreases |es| - k
  {
    if k < i { EligibleHas(es, rarity, k + 1, i); }
  }

  function WeightsOf(es: seq<Entry>, idxs: seq<nat>): seq<int>
    requires forall j :: 0 <= j < |idxs| ==> idxs[j] < |es|
  {
    seq(|idxs|, j requires 0 <= j < |idxs| => es[idxs[j]].weight)
  }

  /** A weighted pick among the entries at these positions. */
  function PickedAt(s: Stream, es: seq<Entry>, idxs: seq<nat>): (Option<nat>, Stream)
    requires forall j :: 0 <= j < |idxs| ==> idxs[j] < |es|
  {
    var ws := WeightsOf(es, idxs);
    PickedIsPositive(s, ws);
    var (pick, t) := Picked(s, ws);
    if pick < 0 then (None, t) else (Some(idxs[pick]), t)
  }

  /** A weighted pick among the entries of at least this rarity. */
  function PickedAmong(s: Stream, es: seq<Entry>, rarity: nat): (Option<nat>, Stream) {
    PickedAt(s, es, Eligible(es, rarity, 0))
  }

  lemma PickedAtDrops(s: Stream, es: seq<Entry>, idxs: seq<nat>)
    requires forall j :: 0 <= j < |idxs| ==> idxs[j] < |es|
    ensures var r := PickedAt(s, es, idxs).0;
      if r.Some? then r.value in idxs && es[r.value].weight > 0
      else forall j :: 0 <= j < |idxs| ==> es[idxs[j]].weight <= 0
  {
    var ws := WeightsOf(es, idxs);
    PickedIsPositive(s, ws);
    if Picked(s, ws).0 < 0 {
      forall j | 0 <= j < |idxs| ensures es[idxs[j]].weight <= 0 { assert ws[j] <= 0; }
    }
  }

  /** The pick drops something of the rarity exactly when the pool has it. */
  lemma PickedAmongDrops(s: Stream, p: Pool, rarity: nat)
    ensures PickedAmong(s, p.entries, rarity).0.Some? <==> CanDrop(p, rarity)
    ensures var r := PickedAmong(s, p.entries, rarity).0; r.Some? ==> Droppable(p, r.value, rarity)
  {
    var es, idxs := p.entries, Eligible(p.entries, rarity, 0);
    PickedAtDrops(s, es, idxs);
    var r := PickedAmong(s, es, rarity).0;
    if r.Some? { assert Droppable(p, r.value, rarity); }
    if CanDrop(p, rarity) {
      var i: nat :| Droppable(p, i, rarity);
      EligibleHas(es, rarity, 0, i);
      var j :| 0 <= j < |idxs| && idxs[j] == i;
      assert es[idxs[j]].weight > 0;
    }
  }

  method Collect(es: seq<Entry>, rarity: nat) returns (idxs: seq<nat>, weights: seq<int>)
    ensures idxs == Eligible(es, rarity, 0) && weights == WeightsOf(es, idxs)
  {
    idxs, weights := [], [];
    ghost var all := Eligible(es, rarity, 0);
    for i := 0 to |es|
      invariant idxs + Eligible(es, rarity, i) == all
      invariant |weights| == |idxs| && forall j :: 0 <= j < |idxs| ==> idxs[j] < |es|
      invariant forall j :: 0 <= j < |idxs| ==> weights[j] == es[idxs[j]].weight
    {
      if es[i].rarity >= rarity {
        assert idxs + Eligible(es, rarity, i) == (idxs + [i]) + Eligible(es, rarity, i + 1);
        idxs, weights := idxs + [i], weights + [es[i].weight];
      }
    }
  }

  method PickByRarity(p: Pool, src: Source, rarity: nat) returns (pick: Option<nat>)
    modifies src
    ensures (pick, src.stream) == PickedAmong(old(src.stream), p.entries, rarity)
  {
    var idxs, weights := Collect(p.entries, rarity);
    PickedIsPositive(src.stream, weights);
    if |idxs| == 0 { return None; }
    var k := src.WeightedPick(weights);
    if k < 0 { return None; }
    return Some(idxs[k]);
  }

  /** What pity gives, top before high, from the counters already stepped. */
  function PityChoice(p: Pool, top: nat, high: nat, s: Stream, forceHigh: bool): (Option<nat>, Stream) {
    var (a, t) := if p.pityTop > 0 && top >= p.pityTop then PickedAmong(s, p.entries, p.topRarity) else (None, s);
    if a.Some? then (a, t)
    else if (p.pityHigh > 0 && high >= p.pityHigh) || forceHigh then PickedAmong(t, p.entries, p.highRarity)
    else (None, t)
  }

  /** What a draw gives, whether pity gave it, and the stream it leaves. */
  function Choice(p: Pool, top: nat, high: nat, s: Stream, forceHigh: bool): (Option<nat>, bool, Stream) {
    var (a, t) := PityChoice(p, top, high, s, forceHigh);
    if a.Some? then (a, true, t)
    else
      var (c, v) := PickedAmong(t, p.entries, 0);
      (c, false, v)
  }

  function Lower(a: nat, b: nat): nat {
    if a < b then a else b
  }

  /** The rule the counters obey: a top drop clears the first, a drop of the lower of the
      two rarities clears the second. */
  function Cleared(count: nat, rarity: nat, bar: nat): nat {
    if rarity >= bar then 0 else count
  }

  /** The rarities a draw may have, given the counters already stepped. */
  ghost predicate Allowed(p: Pool, top: nat, high: nat, rarity: nat) {
    var byTop := top >= p.pityTop && CanDrop(p, p.topRarity);
    && (byTop ==> rarity >= p.topRarity)
    && (!byTop && high >= p.pityHigh > 0 && CanDrop(p, p.highRarity) ==> rarity >= p.highRarity)
  }

  lemma EligibleOfZero(es: seq<Entry>, k: nat)
    requires k <= |es|
    ensures Eligible(es, 0, k) == seq(|es| - k, j => k + j)
    decreases |es| - k
  {
  }

  class Pity {
    var sinceTop: nat
    var sinceHigh: nat

    constructor (top: nat, high: nat)
      ensures sinceTop == top && sinceHigh == high
    {
      sinceTop, sinceHigh := top, high;
    }

    ghost predicate ClearedBy(p: Pool, top: nat, high: nat, i: nat)
      requires i < |p.entries|
      reads this
    {
      && sinceTop == Cleared(top, p.entries[i].rarity, p.topRarity)
      && sinceHigh == Cleared(high, p.entries[i].rarity, Lower(p.topRarity, p.highRarity))
    }

    method DrawByPity(p: Pool, src: Source, forceHigh: bool) returns (drop: Option<nat>)
      modifies this, src
      ensures (drop, src.stream) == PityChoice(p, old(sinceTop), old(sinceHigh), old(src.stream), forceHigh)
      ensures drop.Some? ==> drop.value < |p.entries| && ClearedBy(p, old(sinceTop), old(sinceHigh), drop.value)
      ensures drop.None? ==> sinceTop == old(sinceTop) && sinceHigh == old(sinceHigh)
    {
      if p.pityTop > 0 && sinceTop >= p.pityTop {
        PickedAmongDrops(src.stream, p, p.topRarity);
        drop := PickByRarity(p, src, p.topRarity);
        if drop.Some? {
          sinceTop, sinceHigh := 0, 0;
          return;
        }
      }
      drop := None;
      if (p.pityHigh > 0 && sinceHigh >= p.pityHigh) || forceHigh {
        PickedAmongDrops(src.stream, p, p.highRarity);
        drop := PickByRarity(p, src, p.highRarity);
        if drop.Some? {
          sinceHigh := 0;
          if p.entries[drop.value].rarity >= p.topRarity { sinceTop := 0; }
        }
      }
    }

    method DrawOne(p: Pool, src: Source, forceHigh: bool) returns (drop: Option<nat>, byPity: bool)
      requires Valid(p)
      modifies this, src
      ensures var top, high := (old(sinceTop) + 1) % UINT32_SPAN, (old(sinceHigh) + 1) % UINT32_SPAN;
        (drop, byPity, src.stream) == Choice(p, top, high, old(src.stream), forceHigh)
      ensures drop.Some? && drop.value < |p.entries|
      ensures ClearedBy(p, (old(sinceTop) + 1) % UINT32_SPAN, (old(sinceHigh) + 1) % UINT32_SPAN, drop.value)
    {
      sinceTop, sinceHigh := (sinceTop + 1) % UINT32_SPAN, (sinceHigh + 1) % UINT32_SPAN;
      drop := DrawByPity(p, src, forceHigh);
      if drop.Some? { return drop, true; }
      ValidCanDrop(p);
      byPity := false;
      drop := DrawPlain(p, src);
      if drop.None? { return; }
      var e := p.entries[drop.value];
      if e.rarity >= p.topRarity {
        sinceTop, sinceHigh := 0, 0;
      } else if e.rarity >= p.highRarity {
        sinceHigh := 0;
      }
    }
  }

  /** The weighted draw over the whole pool. */
  method DrawPlain(p: Pool, src: Source) returns (drop: Option<nat>)
    modifies src
    ensures (drop, src.stream) == PickedAmong(old(src.stream), p.entries, 0)
    ensures drop.Some? <==> CanDrop(p, 0)
    ensures drop.Some? ==> drop.value < |p.entries|
  {
    var weights := seq(|p.entries|, i requires 0 <= i < |p.entries| => p.entries[i].weight);
    EligibleOfZero(p.entries, 0);
    assert weights == WeightsOf(p.entries, Eligible(p.entries, 0, 0));
    PickedIsPositive(src.stream, weights);
    PickedAmongDrops(src.stream, p, 0);
    var idx := src.WeightedPick(weights);
    if idx < 0 { return None; }
    return Some(idx);
  }

  /** The draw gives an entry that the counters allow and, when forced, a high one, unless top
      pity comes first with a lower bar. */
  ghost predicate Granted(p: Pool, top: nat, high: nat, forceHigh: bool, drop: Option<nat>) {
    && drop.Some? && Droppable(p, drop.value, 0)
    && Allowed(p, top, high, p.entries[drop.value].rarity)
    && (forceHigh && CanDrop(p, p.highRarity) && p.entries[drop.value].rarity < p.highRarity ==>
          !Ordered(p) && top >= p.pityTop && p.entries[drop.value].rarity >= p.topRarity)
  }

  /** Whatever the stream, that is what a draw gives. */
  lemma ChoiceIsAllowed(p: Pool, top: nat, high: nat, s: Stream, forceHigh: bool)
    requires Valid(p)
    ensures Granted(p, top, high, forceHigh, Choice(p, top, high, s, forceHigh).0)
  {
    PickedAmongDrops(s, p, p.topRarity);
    var t := if p.pityTop > 0 && top >= p.pityTop then PickedAmong(s, p.entries, p.topRarity).1 else s;
    PickedAmongDrops(t, p, p.highRarity);
    PickedAmongDrops(PityChoice(p, top, high, s, forceHigh).1, p, 0);
    ValidCanDrop(p);
  }

  // ------------------------------------------------------------------------------------
  // Every entry the counters allow can be drawn
  // ------------------------------------------------------------------------------------

  lemma PickedAtCan(es: seq<Entry>, idxs: seq<nat>, j: nat) returns (gen: seq<nat> -> nat)
    requires forall k :: 0 <= k < |idxs| ==> idxs[k] < |es|
    requires j < |idxs| && es[idxs[j]].weight > 0
    ensures PickedAt(Stream(gen, []), es, idxs).0 == Some(idxs[j])
  {
    var ws := WeightsOf(es, idxs);
    var roll := Before(ws, 0, j);
    gen := (drawn: seq<nat>) => roll;
    BeforeFits(ws, 0, j);
    PickInterval(ws, 0, roll, |ws| - 1, j);
    assert Roll(Stream(gen, []), TotalFrom(ws, 0)) == roll;
  }

  lemma PickedAmongCan(p: Pool, rarity: nat, i: nat) returns (gen: seq<nat> -> nat)
    requires Droppable(p, i, rarity)
    ensures PickedAmong(Stream(gen, []), p.entries, rarity).0 == Some(i)
  {
    var idxs := Eligible(p.entries, rarity, 0);
    EligibleHas(p.entries, rarity, 0, i);
    var j :| 0 <= j < |idxs| && idxs[j] == i;
    gen := PickedAtCan(p.entries, idxs, j);
  }

  /** An empty pick draws nothing. */
  lemma NothingAmong(s: Stream, p: Pool, rarity: nat)
    requires !CanDrop(p, rarity)
    ensures PickedAmong(s, p.entries, rarity) == (None, s)
  {
    PickedAmongDrops(s, p, rarity);
    var idxs := Eligible(p.entries, rarity, 0);
    var ws := WeightsOf(p.entries, idxs);
    PickedAtDrops(s, p.entries, idxs);
    forall j | 0 <= j < |ws| ensures ws[j] <= 0 { assert p.entries[idxs[j]].weight <= 0; }
    PickedIsPositive(s, ws);
  }

  lemma AllowedCanDrop(p: Pool, top: nat, high: nat, i: nat) returns (gen: seq<nat> -> nat)
    requires Valid(p) && Droppable(p, i, 0) && Allowed(p, top, high, p.entries[i].rarity)
    ensures Choice(p, top, high, Stream(gen, []), false).0 == Some(i)
  {
    if top >= p.pityTop && CanDrop(p, p.topRarity) {
      gen := PickedAmongCan(p, p.topRarity, i);
    } else {
      if high >= p.pityHigh > 0 && CanDrop(p, p.highRarity) {
        gen := PickedAmongCan(p, p.highRarity, i);
      } else {
        gen := PickedAmongCan(p, 0, i);
        if !CanDrop(p, p.highRarity) { NothingAmong(Stream(gen, []), p, p.highRarity); }
      }
      if !CanDrop(p, p.topRarity) { NothingAmong(Stream(gen, []), p, p.topRarity); }
    }
  }

  // ------------------------------------------------------------------------------------
  // Whole histories
  // ------------------------------------------------------------------------------------

  /** The draws since the last one of at least this rarity, or since the beginning. */
  ghost function Since(h: seq<nat>, bar: nat): nat {
    if h == [] || h[|h| - 1] >= bar then 0 else 1 + Since(h[..|h| - 1], bar)
  }

  /** The counter after one more draw, before any clearing. */
  ghost function Stepped(h: seq<nat>, bar: nat): nat {
    (Since(h, bar) + 1) % UINT32_SPAN
  }

  /** After this history of rarities the next draw may have rarity r. */
  ghost predicate Possible(p: Pool, h: seq<nat>, r: nat) {
    && (exists i: nat :: Droppable(p, i, 0) && p.entries[i].rarity == r)
    && Allowed(p, Stepped(h, p.topRarity), Stepped(h, Lower(p.topRarity, p.highRarity)), r)
  }

  /** Top pity decides the next draw. */
  ghost predicate TopDue(p: Pool, h: seq<nat>) {
    Stepped(h, p.topRarity) >= p.pityTop
  }

  ghost predicate Drawn(p: Pool, h: seq<nat>) {
    h == [] || (Drawn(p, h[..|h| - 1]) && Possible(p, h[..|h| - 1], h[|h| - 1]))
  }

  /** The history comes from draws with some seeds, each from the counters the one before left. */
  ghost predicate Produced(p: Pool, h: seq<nat>) {
    h == [] || (Produced(p, h[..|h| - 1]) && CanYield(p, h[..|h| - 1], h[|h| - 1]))
  }

  ghost predicate CanYield(p: Pool, h: seq<nat>, r: nat) {
    exists gen: seq<nat> -> nat :: Yields(p, h, gen, r)
  }

  /** With this seed the draw after h has rarity r. */
  ghost predicate Yields(p: Pool, h: seq<nat>, gen: seq<nat> -> nat, r: nat) {
    var top, high := Stepped(h, p.topRarity), Stepped(h, Lower(p.topRarity, p.highRarity));
    var drop := Choice(p, top, high, Stream(gen, []), false).0;
    drop.Some? && drop.value < |p.entries| && p.entries[drop.value].rarity == r
  }

  lemma YieldsExactly(p: Pool, h: seq<nat>, r: nat)
    requires Valid(p)
    ensures CanYield(p, h, r) <==> Possible(p, h, r)
  {
    var top, high := Stepped(h, p.topRarity), Stepped(h, Lower(p.topRarity, p.highRarity));
    if Possible(p, h, r) {
      var i: nat :| Droppable(p, i, 0) && p.entries[i].rarity == r;
      var gen := AllowedCanDrop(p, top, high, i);
      assert Yields(p, h, gen, r);
    }
    if gen: seq<nat> -> nat :| Yields(p, h, gen, r) {
      ChoiceIsAllowed(p, top, high, Stream(gen, []), false);
    }
  }

  /** The histories of the guarantees are exactly those that single draws produce. */
  lemma {:induction false} DrawnIsProduced(p: Pool, h: seq<nat>)
    requires Valid(p)
    ensures Drawn(p, h) <==> Produced(p, h)
  {
    if h != [] {
      DrawnIsProduced(p, h[..|h| - 1]);
      YieldsExactly(p, h[..|h| - 1], h[|h| - 1]);
    }
  }

  // ------------------------------------------------------------------------------------
  // The draws of a request
  // ------------------------------------------------------------------------------------

  /** What the draw after this history gives. */
  ghost function ChoiceAfter(p: Pool, h: seq<nat>, s: Stream, force: bool): (Option<nat>, bool, Stream) {
    Choice(p, Stepped(h, p.topRarity), Stepped(h, Lower(p.topRarity, p.highRarity)), s, force)
  }

  /** After these draws of a request the next one must be high. */
  ghost predicate Forced(p: Pool, d: seq<nat>) {
    p.tenPull && |d| == MAX_DRAWS - 1 && !AnyOf(d, p.highRarity)
  }

  /** The stream after the draws d of a request that starts with s. */
  ghost function StreamAfter(p: Pool, h: seq<nat>, s: Stream, d: seq<nat>): Stream {
    if d == [] then s
    else
      var before := d[..|d| - 1];
      ChoiceAfter(p, h + before, StreamAfter(p, h, s, before), Forced(p, before)).2
  }

  /** A request that starts with the stream s gives the draws d. */
  ghost predicate Gives(p: Pool, h: seq<nat>, s: Stream, d: seq<nat>) {
    d == []
    || (Gives(p, h, s, d[..|d| - 1])
        && var before := d[..|d| - 1];
           var c := ChoiceAfter(p, h + before, StreamAfter(p, h, s, before), Forced(p, before)).0;
           c.Some? && c.value < |p.entries| && p.entries[c.value].rarity == d[|d| - 1])
  }

  lemma GivesMore(p: Pool, h: seq<nat>, s: Stream, d: seq<nat>, r: nat)
    requires Gives(p, h, s, d)
    requires var c := ChoiceAfter(p, h + d, StreamAfter(p, h, s, d), Forced(p, d)).0;
      c.Some? && c.value < |p.entries| && p.entries[c.value].rarity == r
    ensures Gives(p, h, s, d + [r])
    ensures StreamAfter(p, h, s, d + [r]) == ChoiceAfter(p, h + d, StreamAfter(p, h, s, d), Forced(p, d)).2
  {
    assert (d + [r])[..|d|] == d;
  }

  /** The committed counters of a player for one pool. */
  class Collection {
    var pity: Pity
    /** The rarities of all committed draws. */
    ghost var history: seq<nat>

    ghost predicate Inv(p: Pool)
      reads this, pity
    {
      Tracks(p, history, pity.sinceTop, pity.sinceHigh)
    }

    constructor (p: Pool)
      ensures Inv(p) && history == [] && fresh(pity)
    {
      pity := new Pity(0, 0);
      history := [];
    }

    /** A request for draws: computed on a copy, which replaces the original only when the
        commit is written. Room is the number of drops the bag takes before it is full. */
    method Pull(p: Pool, src: Source, times: int, room: nat, written: bool) returns (drops: Option<seq<nat>>)
      requires Valid(p) && Inv(p)
      modifies this, src
      ensures Inv(p)
      ensures drops.Some? <==> times <= MAX_DRAWS && room >= if times <= 0 then 1 else times
      ensures drops.Some? ==> |drops.value| == if times <= 0 then 1 else times
      ensures drops.Some? ==> Gives(p, old(history), old(src.stream), drops.value)
      ensures drops.Some? && written ==> history == old(history) + drops.value
      ensures drops.None? || !written ==> history == old(history) && pity == old(pity)
      ensures drops.Some? && p.tenPull && times == MAX_DRAWS && Ordered(p) ==>
        (AnyOf(drops.value, p.highRarity) <==> CanDrop(p, p.highRarity))
      ensures drops.Some? && p.tenPull && times == MAX_DRAWS && CanDrop(p, p.highRarity)
              && !AnyOf(drops.value, p.highRarity) ==>
        TopDue(p, old(history) + drops.value[..MAX_DRAWS - 1]) && drops.value[MAX_DRAWS - 1] >= p.topRarity
    {
      if Asked(times) > MAX_DRAWS { return None; }
      var copy := new Pity(pity.sinceTop, pity.sinceHigh);
      assert history + [] == history;
      drops := DrawAll(p, src, copy, Asked(times), room, history);
      if drops.None? { return; }
      if Asked(times) == MAX_DRAWS { TenDraws(p, history, old(src.stream), drops.value); }
      if written {
        pity, history := copy, history + drops.value;
      }
    }
  }

  /** The draws of a request, after the history h, unless the bag is full. */
  method DrawAll(p: Pool, src: Source, copy: Pity, n: nat, room: nat, ghost h: seq<nat>)
    returns (drops: Option<seq<nat>>)
    requires Valid(p) && Reached(p, h, src.stream, [], copy, src) && n <= MAX_DRAWS
    modifies copy, src
    ensures drops.Some? <==> n <= room
    ensures drops.Some? ==>
      |drops.value| == n && Reached(p, h, old(src.stream), drops.value, copy, src)
  {
    var list: seq<nat>, gotHigh := [], false;
    for i := 0 to n
      invariant |list| == i && Reached(p, h, old(src.stream), list, copy, src)
      invariant gotHigh <==> AnyOf(list, p.highRarity)
      invariant i <= room
    {
      var last := p.tenPull && n >= 10 && i == n - 1 && !gotHigh;
      var r := DrawInRequest(p, src, copy, last, h, old(src.stream), list);
      if r.None? || i >= room { return None; }
      if r.value >= p.highRarity { gotHigh := true; }
      list := list + [r.value];
    }
    return Some(list);
  }

  /** Where a request that started with the stream s is after the draws d. */
  ghost predicate Reached(p: Pool, h: seq<nat>, s: Stream, d: seq<nat>, copy: Pity, src: Source)
    reads copy, src
  {
    && Tracks(p, h + d, copy.sinceTop, copy.sinceHigh)
    && Gives(p, h, s, d) && src.stream == StreamAfter(p, h, s, d)
  }

  method DrawInRequest(p: Pool, src: Source, copy: Pity, last: bool, ghost h: seq<nat>, ghost s: Stream,
                       ghost d: seq<nat>)
    returns (r: Option<nat>)
    requires Valid(p) && Reached(p, h, s, d, copy, src) && last == Forced(p, d)
    modifies copy, src
    ensures r.Some? && Reached(p, h, s, d + [r.value], copy, src)
    ensures AnyOf(d + [r.value], p.highRarity) <==> AnyOf(d, p.highRarity) || r.value >= p.highRarity
  {
    r := DrawNext(p, src, copy, last, h + d);
    if r.None? { return; }
    GivesMore(p, h, s, d, r.value);
    assert (h + d) + [r.value] == h + (d + [r.value]);
    AnyOfMore(d, r.value, p.highRarity);
  }

  /** Ten draws of a request with the guarantee on miss the high rarity only through top pity on
      the last one. */
  lemma TenDraws(p: Pool, h: seq<nat>, s: Stream, d: seq<nat>)
    requires Valid(p) && Drawn(p, h + d) && |d| == MAX_DRAWS && Gives(p, h, s, d)
    ensures AnyOf(d, p.highRarity) ==> CanDrop(p, p.highRarity)
    ensures p.tenPull && CanDrop(p, p.highRarity) && !AnyOf(d, p.highRarity) ==>
      !Ordered(p) && TopDue(p, h + d[..MAX_DRAWS - 1]) && d[MAX_DRAWS - 1] >= p.topRarity
  {
    var before, r := d[..MAX_DRAWS - 1], d[MAX_DRAWS - 1];
    assert d == before + [r];
    AnyOfMore(before, r, p.highRarity);
    if !CanDrop(p, p.highRarity) {
      NeverHigh(p, h + d);
      assert forall k :: 0 <= k < |d| ==> d[k] == (h + d)[|h| + k];
    }
    var top, high := Stepped(h + before, p.topRarity), Stepped(h + before, Lower(p.topRarity, p.highRarity));
    ChoiceIsAllowed(p, top, high, StreamAfter(p, h, s, before), Forced(p, before));
  }

  /** A request for no draws is one for a single draw. */
  function Asked(times: int): nat {
    if times <= 0 then 1 else times
  }

  ghost predicate AnyOf(list: seq<nat>, bar: nat) {
    exists k :: 0 <= k < |list| && list[k] >= bar
  }

  lemma AnyOfMore(list: seq<nat>, r: nat, bar: nat)
    ensures AnyOf(list + [r], bar) <==> AnyOf(list, bar) || r >= bar
  {
    if r >= bar { assert (list + [r])[|list|] >= bar; }
    if AnyOf(list, bar) {
      var k :| 0 <= k < |list| && list[k] >= bar;
      assert (list + [r])[k] >= bar;
    }
  }

  lemma StepIsStepped(h: seq<nat>, bar: nat)
    ensures (Since(h, bar) % UINT32_SPAN + 1) % UINT32_SPAN == Stepped(h, bar)
  {
  }

  method DrawAllowed(p: Pool, src: Source, copy: Pity, last: bool) returns (drop: Option<nat>)
    requires Valid(p)
    modifies copy, src
    ensures Granted(p, (old(copy.sinceTop) + 1) % UINT32_SPAN, (old(copy.sinceHigh) + 1) % UINT32_SPAN, last, drop)
    ensures var top, high := (old(copy.sinceTop) + 1) % UINT32_SPAN, (old(copy.sinceHigh) + 1) % UINT32_SPAN;
      && copy.ClearedBy(p, top, high, drop.value)
      && drop == Choice(p, top, high, old(src.stream), last).0
      && src.stream == Choice(p, top, high, old(src.stream), last).2
  {
    ChoiceIsAllowed(p, (copy.sinceTop + 1) % UINT32_SPAN, (copy.sinceHigh + 1) % UINT32_SPAN, src.stream, last);
    var byPity;
    drop, byPity := copy.DrawOne(p, src, last);
  }

  /** One draw of a request, after the history h. */
  method DrawNext(p: Pool, src: Source, copy: Pity, last: bool, ghost h: seq<nat>) returns (r: Option<nat>)
    requires Valid(p) && Tracks(p, h, copy.sinceTop, copy.sinceHigh)
    modifies copy, src
    ensures r.Some? && Tracks(p, h + [r.value], copy.sinceTop, copy.sinceHigh)
    ensures var (c, byPity, t) := ChoiceAfter(p, h, old(src.stream), last);
      c.Some? && c.value < |p.entries| && r.value == p.entries[c.value].rarity && src.stream == t
  {
    StepIsStepped(h, p.topRarity);
    StepIsStepped(h, Lower(p.topRarity, p.highRarity));
    var drop := DrawAllowed(p, src, copy, last);
    if drop.None? { return None; }
    OneMoreDraw(p, h, drop.value, copy.sinceTop, copy.sinceHigh);
    return Some(p.entries[drop.value].rarity);
  }

  /** The counters are, modulo their width, the draws since the last drop they count. */
  ghost predicate Tracks(p: Pool, h: seq<nat>, top: nat, high: nat) {
    && Drawn(p, h)
    && top == Since(h, p.topRarity) % UINT32_SPAN && high == Since(h, Lower(p.topRarity, p.highRarity)) % UINT32_SPAN
  }

  lemma OneMoreDraw(p: Pool, h: seq<nat>, i: nat, top: nat, high: nat)
    requires Drawn(p, h) && Droppable(p, i, 0)
    requires Allowed(p, Stepped(h, p.topRarity), Stepped(h, Lower(p.topRarity, p.highRarity)), p.entries[i].rarity)
    requires top == Cleared(Stepped(h, p.topRarity), p.entries[i].rarity, p.topRarity)
    requires var bar := Lower(p.topRarity, p.highRarity); high == Cleared(Stepped(h, bar), p.entries[i].rarity, bar)
    ensures Tracks(p, h + [p.entries[i].rarity], top, high)
  {
    var r := p.entries[i].rarity;
    CounterNext(h, r, p.topRarity);
    CounterNext(h, r, Lower(p.topRarity, p.highRarity));
    assert (h + [r])[..|h|] == h;
    assert Possible(p, h, r);
  }

  lemma CounterNext(h: seq<nat>, r: nat, bar: nat)
    ensures Since(h + [r], bar) % UINT32_SPAN == Cleared(Stepped(h, bar), r, bar)
  {
    assert (h + [r])[..|h|] == h;
  }

  // ------------------------------------------------------------------------------------
  // The guarantees
  // ------------------------------------------------------------------------------------

  lemma {:induction false} SinceTopBelow(p: Pool, h: seq<nat>)
    requires Valid(p) && Drawn(p, h) && CanDrop(p, p.topRarity)
    ensures Since(h, p.topRarity) < p.pityTop
  {
    if h != [] { SinceTopBelow(p, h[..|h| - 1]); }
  }

  lemma {:induction false} SinceHighBelow(p: Pool, h: seq<nat>)
    requires Valid(p) && Drawn(p, h) && CanDrop(p, p.highRarity) && p.pityHigh > 0
    ensures Since(h, Lower(p.topRarity, p.highRarity)) < p.pityHigh
  {
    if h != [] { SinceHighBelow(p, h[..|h| - 1]); }
  }

  /** Counters that never reach the limit while the pool can drop are exact. */
  lemma CountersAreExact(p: Pool, h: seq<nat>, top: nat, high: nat)
    requires Valid(p) && Tracks(p, h, top, high)
    ensures CanDrop(p, p.topRarity) ==> top == Since(h, p.topRarity)
    ensures CanDrop(p, p.highRarity) && p.pityHigh > 0 && p.topRarity >= p.highRarity ==> high == Since(h, p.highRarity)
  {
    if CanDrop(p, p.topRarity) { SinceTopBelow(p, h); }
    if CanDrop(p, p.highRarity) && p.pityHigh > 0 { SinceHighBelow(p, h); }
  }

  /** The n draws from a on include one of at least this rarity. */
  ghost predicate Hits(h: seq<nat>, a: nat, n: nat, bar: nat) {
    exists k :: a <= k < a + n && k < |h| && h[k] >= bar
  }

  lemma {:induction false} MissesAddUp(h: seq<nat>, a: nat, bar: nat)
    requires a <= |h| && forall k :: a <= k < |h| ==> h[k] < bar
    ensures Since(h, bar) >= |h| - a
  {
    if a < |h| { MissesAddUp(h[..|h| - 1], a, bar); }
  }

  lemma {:induction false} PrefixDrawn(p: Pool, h: seq<nat>, b: nat)
    requires Drawn(p, h) && b <= |h|
    ensures Drawn(p, h[..b])
  {
    if b < |h| {
      PrefixDrawn(p, h[..|h| - 1], b);
      assert h[..|h| - 1][..b] == h[..b];
    } else {
      assert h[..b] == h;
    }
  }

  lemma WindowHits(h: seq<nat>, a: nat, n: nat, bar: nat)
    requires a + n <= |h| && Since(h[..a + n], bar) < n
    ensures Hits(h, a, n, bar)
  {
    if forall k :: a <= k < a + n ==> h[k] < bar { MissesAddUp(h[..a + n], a, bar); }
  }

  /** Any pityTop draws in a row include a top one. */
  ghost predicate TopGuarantee(p: Pool) {
    forall h, a: nat :: Drawn(p, h) && a + p.pityTop <= |h| ==> Hits(h, a, p.pityTop, p.topRarity)
  }

  /** Any pityHigh draws in a row include a high one. */
  ghost predicate HighGuarantee(p: Pool) {
    forall h, a: nat :: Drawn(p, h) && a + p.pityHigh <= |h| ==> Hits(h, a, p.pityHigh, p.highRarity)
  }

  /** A history of the same rarity over and over. */
  function Same(r: nat, n: nat): (h: seq<nat>)
    ensures |h| == n && forall k :: 0 <= k < n ==> h[k] == r
  {
    seq(n, k => r)
  }

  lemma {:induction false} SameIsDrawn(p: Pool, r: nat, n: nat)
    requires forall k: nat :: k < n ==> Possible(p, Same(r, k), r)
    ensures Drawn(p, Same(r, n))
  {
    if n > 0 {
      SameIsDrawn(p, r, n - 1);
      assert Same(r, n)[..n - 1] == Same(r, n - 1);
    }
  }

  /** The top guarantee holds exactly when the pool has a top entry of positive weight. */
  lemma TopGuaranteeExactly(p: Pool)
    requires Valid(p)
    ensures TopGuarantee(p) <==> CanDrop(p, p.topRarity)
  {
    if CanDrop(p, p.topRarity) {
      forall h, a: nat | Drawn(p, h) && a + p.pityTop <= |h| ensures Hits(h, a, p.pityTop, p.topRarity) {
        PrefixDrawn(p, h, a + p.pityTop);
        SinceTopBelow(p, h[..a + p.pityTop]);
        WindowHits(h, a, p.pityTop, p.topRarity);
      }
    } else {
      var i: nat := NoTopEntry(p);
      var r := p.entries[i].rarity;
      SameIsDrawn(p, r, p.pityTop);
      assert !Hits(Same(r, p.pityTop), 0, p.pityTop, p.topRarity);
    }
  }

  /** Without a top entry the same entry can be drawn for ever. */
  lemma NoTopEntry(p: Pool) returns (i: nat)
    requires Valid(p) && !CanDrop(p, p.topRarity)
    ensures Droppable(p, i, 0) && p.entries[i].rarity < p.topRarity
    ensures forall k: nat :: Possible(p, Same(p.entries[i].rarity, k), p.entries[i].rarity)
  {
    if CanDrop(p, p.highRarity) {
      i :| Droppable(p, i, p.highRarity);
    } else {
      i :| 0 <= i < |p.entries| && p.entries[i].weight > 0;
    }
    assert Droppable(p, i, 0) && !Droppable(p, i, p.topRarity);
  }

  /** The high guarantee holds exactly when there is a limit and a high entry of positive weight
      and every entry that clears the top counter is high, or a limit of one is never preceded
      by top pity. */
  lemma HighGuaranteeExactly(p: Pool)
    requires Valid(p)
    ensures HighGuarantee(p)
       <==> (p.pityHigh > 0 && CanDrop(p, p.highRarity) && (Ordered(p) || (p.pityHigh == 1 && p.pityTop > 1)))
  {
    if p.pityHigh == 0 {
      assert Drawn(p, []) && !Hits([], 0, 0, p.highRarity);
    } else if !CanDrop(p, p.highRarity) {
      var h := SomeHistory(p, p.pityHigh);
      NeverHigh(p, h);
      assert !Hits(h, 0, p.pityHigh, p.highRarity);
    } else if Ordered(p) || (p.pityHigh == 1 && p.pityTop > 1) {
      forall h, a: nat | Drawn(p, h) && a + p.pityHigh <= |h| ensures Hits(h, a, p.pityHigh, p.highRarity) {
        HighWindow(p, h, a);
      }
    } else {
      var i: nat :| Droppable(p, i, p.topRarity) && p.entries[i].rarity < p.highRarity;
      var r := p.entries[i].rarity;
      forall k: nat ensures Possible(p, Same(r, k), r) { MiddleForEver(p, i, k); }
      SameIsDrawn(p, r, p.pityHigh);
      assert !Hits(Same(r, p.pityHigh), 0, p.pityHigh, p.highRarity);
    }
  }

  /** A pool never runs dry: there are histories of every length. */
  lemma {:induction false} SomeHistory(p: Pool, n: nat) returns (h: seq<nat>)
    requires Valid(p)
    ensures Drawn(p, h) && |h| == n
  {
    if n == 0 {
      h := [];
    } else {
      var before := SomeHistory(p, n - 1);
      var top, high := Stepped(before, p.topRarity), Stepped(before, Lower(p.topRarity, p.highRarity));
      var s := Stream((drawn: seq<nat>) => 0, []);
      ChoiceIsAllowed(p, top, high, s, false);
      var i := Choice(p, top, high, s, false).0.value;
      h := before + [p.entries[i].rarity];
      assert h[..n - 1] == before && Possible(p, before, p.entries[i].rarity);
    }
  }

  lemma {:induction false} NeverHigh(p: Pool, h: seq<nat>)
    requires Drawn(p, h) && !CanDrop(p, p.highRarity)
    ensures forall k :: 0 <= k < |h| ==> h[k] < p.highRarity
  {
    if h != [] {
      NeverHigh(p, h[..|h| - 1]);
      var i: nat :| Droppable(p, i, 0) && p.entries[i].rarity == h[|h| - 1];
      assert !Droppable(p, i, p.highRarity);
    }
  }

  lemma MiddleForEver(p: Pool, i: nat, k: nat)
    requires Valid(p) && Droppable(p, i, p.topRarity)
    requires p.topRarity < p.highRarity && !(p.pityHigh == 1 && p.pityTop > 1)
    ensures Possible(p, Same(p.entries[i].rarity, k), p.entries[i].rarity)
  {
    assert Droppable(p, i, 0) && CanDrop(p, p.topRarity);
    assert Since(Same(p.entries[i].rarity, k), p.topRarity) == 0;
  }

  lemma HighWindow(p: Pool, h: seq<nat>, a: nat)
    requires Valid(p) && CanDrop(p, p.highRarity) && p.pityHigh > 0 && Drawn(p, h) && a + p.pityHigh <= |h|
    requires Ordered(p) || (p.pityHigh == 1 && p.pityTop > 1)
    ensures Hits(h, a, p.pityHigh, p.highRarity)
  {
    var bar, g := Lower(p.topRarity, p.highRarity), h[..a + p.pityHigh];
    PrefixDrawn(p, h, a + p.pityHigh);
    SinceHighBelow(p, g);
    WindowHits(h, a, p.pityHigh, bar);
    var k :| a <= k < a + p.pityHigh && k < |h| && h[k] >= bar;
    DropIsHigh(p, h, k);
  }

  lemma DropIsHigh(p: Pool, h: seq<nat>, k: nat)
    requires Valid(p) && CanDrop(p, p.highRarity) && Drawn(p, h) && k < |h| && h[k] >= Lower(p.topRarity, p.highRarity)
    requires Ordered(p) || (p.pityHigh == 1 && p.pityTop > 1)
    ensures h[k] >= p.highRarity
  {
    PrefixDrawn(p, h, k + 1);
    var g := h[..k + 1];
    assert Possible(p, g[..k], g[k]);
    if Ordered(p) {
      var i: nat :| Droppable(p, i, 0) && p.entries[i].rarity == h[k];
      assert h[k] >= p.topRarity ==> Droppable(p, i, p.topRarity);
    } else {
      AlwaysHigh(p, g);
    }
  }

  lemma {:induction false} AlwaysHigh(p: Pool, h: seq<nat>)
    requires Valid(p) && CanDrop(p, p.highRarity) && p.pityHigh == 1 && p.pityTop > 1 && p.topRarity < p.highRarity
    requires Drawn(p, h)
    ensures Since(h, p.topRarity) == 0 && (h != [] ==> h[|h| - 1] >= p.highRarity)
  {
    if h != [] { AlwaysHigh(p, h[..|h| - 1]); }
  }
}
