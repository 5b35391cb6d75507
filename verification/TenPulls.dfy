/** Ten-pulls: what the draws of one request of ten can be, that one seed can give each such
    sequence, and exactly which pools keep the promise of a high drop. */
module TenPulls {
  import opened Keyspace
  import opened Rng
  import opened Gacha

  // ------------------------------------------------------------------------------------
  // One draw, forced or not
  // ------------------------------------------------------------------------------------

  /** The least rarity a draw can give, from the counters already stepped. */
  ghost function Bar(p: Pool, top: nat, high: nat, force: bool): nat {
    if top >= p.pityTop && CanDrop(p, p.topRarity) then p.topRarity
    else if ((p.pityHigh > 0 && high >= p.pityHigh) || force) && CanDrop(p, p.highRarity) then p.highRarity
    else 0
  }

  ghost function BarAfter(p: Pool, h: seq<nat>, force: bool): nat {
    Bar(p, Stepped(h, p.topRarity), Stepped(h, Lower(p.topRarity, p.highRarity)), force)
  }

  /** After this history a draw may have rarity r. */
  ghost predicate MayDrop(p: Pool, h: seq<nat>, force: bool, r: nat) {
    r >= BarAfter(p, h, force) && exists i: nat :: Droppable(p, i, 0) && p.entries[i].rarity == r
  }

  lemma MayDropIsPossible(p: Pool, h: seq<nat>, r: nat)
    requires Valid(p)
    ensures MayDrop(p, h, false, r) <==> Possible(p, h, r)
  {
  }

  lemma ForcedIsPossible(p: Pool, h: seq<nat>, force: bool, r: nat)
    requires Valid(p) && MayDrop(p, h, force, r)
    ensures Possible(p, h, r)
  {
  }

  /** Whatever the stream, that is what a draw gives. */
  lemma ChoiceMayDrop(p: Pool, h: seq<nat>, s: Stream, force: bool)
    requires Valid(p)
    ensures var c := ChoiceAfter(p, h, s, force).0;
      c.Some? && Droppable(p, c.value, 0) && MayDrop(p, h, force, p.entries[c.value].rarity)
  {
    var top, high := Stepped(h, p.topRarity), Stepped(h, Lower(p.topRarity, p.highRarity));
    ChoiceIsAllowed(p, top, high, s, force);
    var i := Choice(p, top, high, s, force).0.value;
    assert p.entries[i].rarity >= p.topRarity ==> Droppable(p, i, p.topRarity);
  }

  // ------------------------------------------------------------------------------------
  // The roll that gives an entry
  // ------------------------------------------------------------------------------------

  /** The next roll of the stream is v, whatever it is out of. */
  ghost predicate Rolls(s: Stream, v: nat) {
    forall n: nat :: s.gen(s.drawn + [n]) == v
  }

  lemma RollIs(s: Stream, v: nat, n: nat)
    requires Rolls(s, v) && v < n
    ensures Roll(s, n) == v
  {
    assert s.gen(s.drawn + [n]) == v;
  }

  lemma WeighedWith(s: Stream, ws: seq<int>, j: nat)
    requires j < |ws| && ws[j] > 0 && Rolls(s, Before(ws, 0, j))
    ensures Picked(s, ws).0 == j
  {
    BeforeFits(ws, 0, j);
    RollIs(s, Before(ws, 0, j), TotalFrom(ws, 0));
    PickInterval(ws, 0, Before(ws, 0, j), |ws| - 1, j);
  }

  lemma PickedWith(s: Stream, es: seq<Entry>, idxs: seq<nat>, j: nat)
    requires forall k :: 0 <= k < |idxs| ==> idxs[k] < |es|
    requires j < |idxs| && es[idxs[j]].weight > 0 && Rolls(s, Before(WeightsOf(es, idxs), 0, j))
    ensures PickedAt(s, es, idxs).0 == Some(idxs[j])
  {
    WeighedWith(s, WeightsOf(es, idxs), j);
  }

  lemma AmongWith(p: Pool, rarity: nat, i: nat) returns (v: nat)
    requires Droppable(p, i, rarity)
    ensures forall s: Stream :: Rolls(s, v) ==> PickedAmong(s, p.entries, rarity).0 == Some(i)
  {
    var idxs := Eligible(p.entries, rarity, 0);
    EligibleHas(p.entries, rarity, 0, i);
    var j :| 0 <= j < |idxs| && idxs[j] == i;
    v := Before(WeightsOf(p.entries, idxs), 0, j);
    forall s: Stream | Rolls(s, v) ensures PickedAmong(s, p.entries, rarity).0 == Some(i) {
      PickedWith(s, p.entries, idxs, j);
    }
  }

  lemma AmongDrawsOnce(s: Stream, p: Pool, rarity: nat)
    ensures var t := PickedAmong(s, p.entries, rarity).1;
      t.gen == s.gen && |t.drawn| == |s.drawn| + if CanDrop(p, rarity) then 1 else 0
  {
    PickedAmongDrops(s, p, rarity);
    if CanDrop(p, rarity) {
      PickedIsPositive(s, WeightsOf(p.entries, Eligible(p.entries, rarity, 0)));
    } else {
      NothingAmong(s, p, rarity);
    }
  }

  /** A draw from these counters is a pick at its bar, and it is by pity exactly when top pity, or
      high pity or the forced last draw, finds an entry. */
  lemma ChoiceIsPick(p: Pool, top: nat, high: nat, s: Stream, force: bool)
    requires Valid(p)
    ensures var (i, byPity, t) := Choice(p, top, high, s, force);
      && (i, t) == PickedAmong(s, p.entries, Bar(p, top, high, force))
      && (byPity <==> (top >= p.pityTop && CanDrop(p, p.topRarity))
                      || (((high >= p.pityHigh > 0) || force) && CanDrop(p, p.highRarity)))
    ensures CanDrop(p, Bar(p, top, high, force))
  {
    ValidCanDrop(p);
    PickedAmongDrops(s, p, p.topRarity);
    PickedAmongDrops(s, p, p.highRarity);
    if !CanDrop(p, p.topRarity) { NothingAmong(s, p, p.topRarity); }
    if !CanDrop(p, p.highRarity) { NothingAmong(s, p, p.highRarity); }
  }

  lemma ChoiceIsPickAtBar(p: Pool, h: seq<nat>, s: Stream, force: bool)
    requires Valid(p)
    ensures var (i, byPity, t) := ChoiceAfter(p, h, s, force);
      (i, t) == PickedAmong(s, p.entries, BarAfter(p, h, force))
    ensures CanDrop(p, BarAfter(p, h, force))
  {
    ChoiceIsPick(p, Stepped(h, p.topRarity), Stepped(h, Lower(p.topRarity, p.highRarity)), s, force);
  }

  // ------------------------------------------------------------------------------------
  // A request of ten
  // ------------------------------------------------------------------------------------

  /** The draws d of a request can follow the history h. */
  ghost predicate Follows(p: Pool, h: seq<nat>, d: seq<nat>) {
    d == [] || (Follows(p, h, d[..|d| - 1]) && MayDrop(p, h + d[..|d| - 1], Forced(p, d[..|d| - 1]), d[|d| - 1]))
  }

  /** The generator that rolls these numbers in turn. */
  function GenOf(rolls: seq<nat>): seq<nat> -> nat {
    (drawn: seq<nat>) => if 0 < |drawn| <= |rolls| then rolls[|drawn| - 1] else 0
  }

  lemma {:induction false} GivesOnlyWhatFollows(p: Pool, h: seq<nat>, s: Stream, d: seq<nat>)
    requires Valid(p) && Gives(p, h, s, d)
    ensures Follows(p, h, d)
  {
    if d != [] {
      var before := d[..|d| - 1];
      GivesOnlyWhatFollows(p, h, s, before);
      ChoiceMayDrop(p, h + before, StreamAfter(p, h, s, before), Forced(p, before));
    }
  }

  /** Rolls that give the draws, one per draw. */
  lemma {:induction false} RollsGive(p: Pool, h: seq<nat>, d: seq<nat>) returns (rolls: seq<nat>)
    requires Valid(p) && Follows(p, h, d)
    ensures |rolls| == |d| && RollsInto(p, h, d, rolls)
  {
    if d == [] {
      rolls := [];
    } else {
      var before, r := d[..|d| - 1], d[|d| - 1];
      var first := RollsGive(p, h, before);
      var bar := BarAfter(p, h + before, Forced(p, before));
      var i: nat :| Droppable(p, i, 0) && p.entries[i].rarity == r;
      assert Droppable(p, i, bar);
      var v := AmongWith(p, bar, i);
      rolls := first + [v];
      assert rolls[..|first|] == first;
      assert RollGives(p, bar, v, r);
    }
  }

  /** A pick at the bar that rolls v has rarity r. */
  ghost predicate RollGives(p: Pool, bar: nat, v: nat, r: nat) {
    forall s: Stream :: Rolls(s, v) ==>
      var c := PickedAmong(s, p.entries, bar).0; c.Some? && c.value < |p.entries| && p.entries[c.value].rarity == r
  }

  ghost predicate RollsInto(p: Pool, h: seq<nat>, d: seq<nat>, rolls: seq<nat>)
    requires |rolls| == |d|
    decreases |d|
  {
    d == []
    || (RollsInto(p, h, d[..|d| - 1], rolls[..|d| - 1])
        && var before := d[..|d| - 1];
           RollGives(p, BarAfter(p, h + before, Forced(p, before)), rolls[|d| - 1], d[|d| - 1]))
  }

  ghost predicate InTurn(gen: seq<nat> -> nat, rolls: seq<nat>) {
    forall q: seq<nat> :: 0 < |q| <= |rolls| ==> gen(q) == rolls[|q| - 1]
  }

  lemma InTurnBefore(gen: seq<nat> -> nat, rolls: seq<nat>, n: nat)
    requires InTurn(gen, rolls) && n < |rolls|
    ensures InTurn(gen, rolls[..n])
    ensures forall t: Stream :: t.gen == gen && |t.drawn| == n ==> Rolls(t, rolls[n])
  {
  }

  lemma {:induction false} RolledGives(p: Pool, h: seq<nat>, d: seq<nat>, rolls: seq<nat>, gen: seq<nat> -> nat)
    requires Valid(p) && |rolls| == |d| && RollsInto(p, h, d, rolls) && InTurn(gen, rolls)
    ensures Gives(p, h, Stream(gen, []), d)
    ensures var t := StreamAfter(p, h, Stream(gen, []), d); t.gen == gen && |t.drawn| == |d|
  {
    if d != [] {
      var n := |d| - 1;
      var before, s := d[..n], Stream(gen, []);
      InTurnBefore(gen, rolls, n);
      RolledGives(p, h, before, rolls[..n], gen);
      RollDecides(p, h + before, StreamAfter(p, h, s, before), Forced(p, before), rolls[n], d[n]);
    }
  }

  lemma RollDecides(p: Pool, h: seq<nat>, t: Stream, force: bool, v: nat, r: nat)
    requires Valid(p) && Rolls(t, v) && RollGives(p, BarAfter(p, h, force), v, r)
    ensures var c := ChoiceAfter(p, h, t, force).0; c.Some? && c.value < |p.entries| && p.entries[c.value].rarity == r
    ensures var u := ChoiceAfter(p, h, t, force).2; u.gen == t.gen && |u.drawn| == |t.drawn| + 1
  {
    ChoiceIsPickAtBar(p, h, t, force);
    AmongDrawsOnce(t, p, BarAfter(p, h, force));
  }

  /** The draws that can follow are exactly those that one seed gives. */
  lemma FollowsIsGiven(p: Pool, h: seq<nat>, d: seq<nat>)
    requires Valid(p)
    ensures Follows(p, h, d) <==> exists gen: seq<nat> -> nat :: Gives(p, h, Stream(gen, []), d)
  {
    if Follows(p, h, d) {
      var rolls := RollsGive(p, h, d);
      RolledGives(p, h, d, rolls, GenOf(rolls));
      assert Gives(p, h, Stream(GenOf(rolls), []), d);
    }
    if gen: seq<nat> -> nat :| Gives(p, h, Stream(gen, []), d) {
      GivesOnlyWhatFollows(p, h, Stream(gen, []), d);
    }
  }

  // ------------------------------------------------------------------------------------
  // The promise of a high drop
  // ------------------------------------------------------------------------------------

  /** Every request of ten, after every history and whatever the stream, contains a high drop. */
  ghost predicate TenPullGuarantee(p: Pool) {
    forall h, s: Stream, d :: Drawn(p, h) && |d| == MAX_DRAWS && Gives(p, h, s, d) ==> AnyOf(d, p.highRarity)
  }

  /** An entry of positive weight lies below the top rarity. */
  ghost predicate HasLow(p: Pool) {
    exists i: nat :: Droppable(p, i, 0) && p.entries[i].rarity < p.topRarity
  }

  /** The condition on the pool. */
  ghost predicate KeepsPromise(p: Pool) {
    CanDrop(p, p.highRarity)
    && (Ordered(p) || (p.pityTop > 1 && (!HasLow(p) || 0 < p.pityHigh < p.pityTop)))
  }

  lemma {:induction false} FollowsIsDrawn(p: Pool, h: seq<nat>, d: seq<nat>)
    requires Valid(p) && Drawn(p, h) && Follows(p, h, d)
    ensures Drawn(p, h + d)
  {
    if d == [] {
      assert h + d == h;
    } else {
      var before, r := d[..|d| - 1], d[|d| - 1];
      FollowsIsDrawn(p, h, before);
      ForcedIsPossible(p, h + before, Forced(p, before), r);
      assert (h + d)[..|h + d| - 1] == h + before;
    }
  }

  /** A request of ten without a high drop ends with a middle drop by top pity, right after a low
      one. */
  lemma MissedTenPull(p: Pool, h: seq<nat>, d: seq<nat>)
    requires Valid(p) && Drawn(p, h) && |d| == MAX_DRAWS && Follows(p, h, d) && !AnyOf(d, p.highRarity)
    requires p.tenPull && CanDrop(p, p.highRarity)
    ensures !Ordered(p) && CanDrop(p, p.topRarity)
    ensures Since(h + d[..MAX_DRAWS - 1], p.topRarity) == p.pityTop - 1
  {
    var before, r := d[..MAX_DRAWS - 1], d[MAX_DRAWS - 1];
    assert !AnyOf(before, p.highRarity) by { assert forall k :: 0 <= k < |before| ==> d[k] == before[k]; }
    assert r < p.highRarity && Forced(p, before);
    var i: nat :| Droppable(p, i, 0) && p.entries[i].rarity == r;
    assert Droppable(p, i, p.topRarity);
    FollowsIsDrawn(p, h, before);
    SinceTopBelow(p, h + before);
  }

  lemma PromiseIsKept(p: Pool, h: seq<nat>, d: seq<nat>)
    requires Valid(p) && p.tenPull && KeepsPromise(p) && Drawn(p, h) && |d| == MAX_DRAWS && Follows(p, h, d)
    ensures AnyOf(d, p.highRarity)
  {
    if !AnyOf(d, p.highRarity) {
      MissedTenPull(p, h, d);
      var before := d[..MAX_DRAWS - 1];
      FollowsIsDrawn(p, h, before);
      if HasLow(p) {
        SinceHighBelow(p, h + before);
      } else {
        LastIsLow(p, h + before);
      }
    }
  }

  /** A history that has counted a draw since the last top one ends with a low entry. */
  lemma LastIsLow(p: Pool, h: seq<nat>)
    requires Drawn(p, h) && Since(h, p.topRarity) > 0
    ensures HasLow(p)
  {
    var i: nat :| Droppable(p, i, 0) && p.entries[i].rarity == h[|h| - 1];
  }

  /** The last ten draws of a history, as a request whose last draw is not changed by being
      forced. */
  lemma LastTenFollow(p: Pool, x: seq<nat>, n: nat)
    requires Valid(p) && Drawn(p, x) && |x| >= MAX_DRAWS && |x| - MAX_DRAWS <= n <= |x|
    requires BarAfter(p, x[..|x| - 1], true) == BarAfter(p, x[..|x| - 1], false)
    ensures Follows(p, x[..|x| - MAX_DRAWS], x[|x| - MAX_DRAWS..n])
    decreases n
  {
    var m := |x| - MAX_DRAWS;
    if n > m {
      LastTenFollow(p, x, n - 1);
      DrawnMayDrop(p, x, n - 1);
      NextFollows(p, x, m, n);
    }
  }

  lemma NextFollows(p: Pool, x: seq<nat>, m: nat, n: nat)
    requires m + MAX_DRAWS == |x| && m < n <= |x| && Follows(p, x[..m], x[m..n - 1])
    requires MayDrop(p, x[..n - 1], false, x[n - 1])
    requires BarAfter(p, x[..|x| - 1], true) == BarAfter(p, x[..|x| - 1], false)
    ensures Follows(p, x[..m], x[m..n])
  {
    var h, d := x[..m], x[m..n - 1];
    assert h + d == x[..n - 1] && x[m..n] == d + [x[n - 1]];
    FollowsMore(p, h, d, x[n - 1]);
  }

  lemma FollowsMore(p: Pool, h: seq<nat>, d: seq<nat>, r: nat)
    requires Follows(p, h, d) && MayDrop(p, h + d, Forced(p, d), r)
    ensures Follows(p, h, d + [r])
  {
    assert (d + [r])[..|d|] == d;
  }

  lemma DrawnMayDrop(p: Pool, x: seq<nat>, n: nat)
    requires Valid(p) && Drawn(p, x) && n < |x|
    ensures MayDrop(p, x[..n], false, x[n])
  {
    PrefixDrawn(p, x, n + 1);
    assert x[..n + 1][..n] == x[..n];
    MayDropIsPossible(p, x[..n], x[n]);
  }

  lemma MissBreaksPromise(p: Pool, h: seq<nat>, d: seq<nat>)
    requires Valid(p) && Drawn(p, h) && |d| == MAX_DRAWS && Follows(p, h, d) && !AnyOf(d, p.highRarity)
    ensures !TenPullGuarantee(p)
  {
    FollowsIsGiven(p, h, d);
    var gen: seq<nat> -> nat :| Gives(p, h, Stream(gen, []), d);
  }

  /** A history of ten draws or more whose last ten miss breaks the promise. */
  lemma HistoryBreaksPromise(p: Pool, x: seq<nat>)
    requires Valid(p) && Drawn(p, x) && |x| >= MAX_DRAWS
    requires BarAfter(p, x[..|x| - 1], true) == BarAfter(p, x[..|x| - 1], false)
    requires forall k :: 0 <= k < |x| ==> x[k] < p.highRarity
    ensures !TenPullGuarantee(p)
  {
    var m := |x| - MAX_DRAWS;
    var h, d := x[..m], x[m..];
    LastTenFollow(p, x, |x|);
    assert x[m..|x|] == d;
    PrefixDrawn(p, x, m);
    assert !AnyOf(d, p.highRarity) by { assert forall k :: 0 <= k < |d| ==> d[k] == x[m + k]; }
    MissBreaksPromise(p, h, d);
  }

  lemma NoHighBreaks(p: Pool)
    requires Valid(p) && !CanDrop(p, p.highRarity)
    ensures !TenPullGuarantee(p)
  {
    var x := SomeHistory(p, MAX_DRAWS);
    NeverHigh(p, x);
    HistoryBreaksPromise(p, x);
  }

  /** The entries i between the two bars and j below both. */
  ghost predicate Gap(p: Pool, i: nat) {
    Droppable(p, i, p.topRarity) && p.topRarity < p.highRarity && p.entries[i].rarity < p.highRarity
  }

  /** With a limit of one, top pity gives the middle entry every time. */
  lemma EveryTopBreaks(p: Pool, i: nat)
    requires Valid(p) && Gap(p, i) && p.pityTop == 1
    ensures !TenPullGuarantee(p)
  {
    var r := p.entries[i].rarity;
    forall k: nat ensures Possible(p, Same(r, k), r) { MiddleForEver(p, i, k); }
    SameIsDrawn(p, r, MAX_DRAWS);
    var x := Same(r, MAX_DRAWS);
    assert x[..MAX_DRAWS - 1] == Same(r, MAX_DRAWS - 1);
    assert CanDrop(p, p.topRarity);
    HistoryBreaksPromise(p, x);
  }

  /** Some middle draws, then low ones, as long as no pity is due. */
  function MiddleThenLow(mid: nat, a: nat, low: nat, n: nat): (h: seq<nat>)
    ensures |h| == a + n && forall k :: 0 <= k < |h| ==> h[k] == if k < a then mid else low
  {
    Same(mid, a) + Same(low, n)
  }

  lemma {:induction false} MiddleThenLowDrawn(p: Pool, i: nat, j: nat, a: nat, n: nat)
    requires Valid(p) && Gap(p, i) && Droppable(p, j, 0) && p.entries[j].rarity < p.topRarity
    requires p.pityTop > 1 && (p.pityHigh == 0 || p.pityHigh >= p.pityTop) && n < p.pityTop
    ensures var h := MiddleThenLow(p.entries[i].rarity, a, p.entries[j].rarity, n);
      Drawn(p, h) && Since(h, p.topRarity) == n
  {
    var mid, low := p.entries[i].rarity, p.entries[j].rarity;
    var h := MiddleThenLow(mid, a, low, n);
    if n == 0 {
      forall k: nat ensures Possible(p, Same(mid, k), mid) { MiddleForEver(p, i, k); }
      SameIsDrawn(p, mid, a);
      assert h == Same(mid, a);
    } else {
      MiddleThenLowDrawn(p, i, j, a, n - 1);
      var g := MiddleThenLow(mid, a, low, n - 1);
      LowIsPossible(p, g, j);
      assert h == g + [low];
      DrawnMore(p, g, low);
      SinceMore(g, low, p.topRarity);
    }
  }

  lemma DrawnMore(p: Pool, h: seq<nat>, r: nat)
    requires Drawn(p, h) && Possible(p, h, r)
    ensures Drawn(p, h + [r])
  {
    var x := h + [r];
    assert x[..|x| - 1] == h && x[|x| - 1] == r;
  }

  lemma SinceMore(h: seq<nat>, r: nat, bar: nat)
    ensures Since(h + [r], bar) == if r >= bar then 0 else 1 + Since(h, bar)
  {
    var x := h + [r];
    assert x[..|x| - 1] == h && x[|x| - 1] == r;
  }

  lemma LowIsPossible(p: Pool, h: seq<nat>, j: nat)
    requires Valid(p) && Droppable(p, j, 0) && p.topRarity < p.highRarity
    requires Since(h, p.topRarity) + 1 < p.pityTop && (p.pityHigh == 0 || p.pityHigh >= p.pityTop)
    ensures Possible(p, h, p.entries[j].rarity)
  {
    assert Stepped(h, p.topRarity) == Since(h, p.topRarity) + 1;
  }

  /** Low draws until top pity is due on the tenth draw of a request break the promise. */
  lemma LowThenTopBreaks(p: Pool, i: nat, j: nat)
    requires Valid(p) && Gap(p, i) && Droppable(p, j, 0) && p.entries[j].rarity < p.topRarity
    requires p.pityTop > 1 && (p.pityHigh == 0 || p.pityHigh >= p.pityTop)
    ensures !TenPullGuarantee(p)
  {
    var mid, low := p.entries[i].rarity, p.entries[j].rarity;
    var a := if p.pityTop >= MAX_DRAWS then 0 else MAX_DRAWS - p.pityTop;
    var h := MiddleThenLow(mid, a, low, p.pityTop - 1);
    MiddleThenLowDrawn(p, i, j, a, p.pityTop - 1);
    var x := h + [mid];
    assert x[..|x| - 1] == h;
    TopIsDue(p, h, i);
    DrawnMore(p, h, mid);
    HistoryBreaksPromise(p, x);
  }

  lemma TopIsDue(p: Pool, h: seq<nat>, i: nat)
    requires Valid(p) && Gap(p, i) && Since(h, p.topRarity) == p.pityTop - 1
    ensures Possible(p, h, p.entries[i].rarity) && BarAfter(p, h, true) == BarAfter(p, h, false) == p.topRarity
  {
    assert Stepped(h, p.topRarity) == p.pityTop && Droppable(p, i, 0);
  }

  /** For every valid pool with the guarantee on: every request of ten contains a high drop
      exactly when the pool has a high entry and either every entry that clears the top counter
      is high, or top pity, with a limit above one, cannot be due right after draws of the same
      request: because no entry is low, or because high pity always comes first. */
  lemma TenPullGuaranteeExactly(p: Pool)
    requires Valid(p) && p.tenPull
    ensures TenPullGuarantee(p) <==> KeepsPromise(p)
  {
    if KeepsPromise(p) {
      forall h, s: Stream, d | Drawn(p, h) && |d| == MAX_DRAWS && Gives(p, h, s, d) ensures AnyOf(d, p.highRarity) {
        GivesOnlyWhatFollows(p, h, s, d);
        PromiseIsKept(p, h, d);
      }
    } else if !CanDrop(p, p.highRarity) {
      NoHighBreaks(p);
    } else {
      var i: nat :| Droppable(p, i, p.topRarity) && p.entries[i].rarity < p.highRarity;
      if p.pityTop == 1 {
        EveryTopBreaks(p, i);
      } else {
        var j: nat :| Droppable(p, j, 0) && p.entries[j].rarity < p.topRarity;
        LowThenTopBreaks(p, i, j);
      }
    }
  }

  // ------------------------------------------------------------------------------------
  // A request that breaks it
  // ------------------------------------------------------------------------------------

  lemma FirstOfAll(p: Pool, rarity: nat, s: Stream)
    requires Droppable(p, 0, rarity) && Rolls(s, 0)
    ensures PickedAmong(s, p.entries, rarity).0 == Some(0)
  {
    PickedWith(s, p.entries, Eligible(p.entries, rarity, 0), 0);
  }

  /** Top pity is due on every draw and its first entry has positive weight. */
  predicate TopFirst(p: Pool) {
    Valid(p) && p.pityTop == 1 && Droppable(p, 0, p.topRarity)
  }

  lemma FirstOnceMore(p: Pool, h: seq<nat>, t: Stream, force: bool)
    requires TopFirst(p) && Rolls(t, 0) && Since(h, p.topRarity) == 0
    ensures var (i, byPity, u) := ChoiceAfter(p, h, t, force); i == Some(0) && u.gen == t.gen
  {
    ChoiceIsPickAtBar(p, h, t, force);
    AmongDrawsOnce(t, p, p.topRarity);
    FirstOfAll(p, p.topRarity, t);
  }

  /** Rolling zero every time then gives the first entry every time. */
  lemma {:induction false} FirstEveryTime(p: Pool, gen: seq<nat> -> nat, d: seq<nat>)
    requires TopFirst(p) && (forall q :: gen(q) == 0) && Gives(p, [], Stream(gen, []), d)
    ensures d == Same(p.entries[0].rarity, |d|) && StreamAfter(p, [], Stream(gen, []), d).gen == gen
  {
    if d != [] {
      var before := d[..|d| - 1];
      FirstEveryTime(p, gen, before);
      assert Since([] + before, p.topRarity) == 0;
      var t := StreamAfter(p, [], Stream(gen, []), before);
      FirstOnceMore(p, [] + before, t, Forced(p, before));
    }
  }

  /** Top pity, due on every draw, has a bar below the high rarity. */
  const LOW_TOP: Pool := Pool([Entry(1, 2, 1), Entry(2, 5, 1)], 1, 0, 2, 5, true)

  /** A request of ten with the guarantee on, from a pool with a high entry, without a high drop. */
  method TenPullMisses() returns (drops: seq<nat>)
    ensures Valid(LOW_TOP) && LOW_TOP.tenPull && CanDrop(LOW_TOP, LOW_TOP.highRarity)
    ensures |drops| == MAX_DRAWS && Follows(LOW_TOP, [], drops) && !AnyOf(drops, LOW_TOP.highRarity)
  {
    assert LOW_TOP.entries[1].weight == 1;
    assert Droppable(LOW_TOP, 1, LOW_TOP.highRarity);
    var gen := (q: seq<nat>) => 0;
    var collection := new Collection(LOW_TOP);
    var src := new Source(gen);
    var pulled := collection.Pull(LOW_TOP, src, MAX_DRAWS, MAX_DRAWS, true);
    drops := pulled.value;
    FirstEveryTime(LOW_TOP, gen, drops);
    GivesOnlyWhatFollows(LOW_TOP, [], Stream(gen, []), drops);
  }
}
