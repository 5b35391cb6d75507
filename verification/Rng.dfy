/** The seeded random source and the integer decisions made with it. */
module Rng {

  /** A deterministic generator: the value of a draw depends on the seed (gen) and on the
      bounds of all draws so far. Two streams with the same gen and the same history go on
      identically. */
  datatype Stream = Stream(gen: seq<nat> -> nat, drawn: seq<nat>)

  function Roll(s: Stream, n: nat): (r: nat)
    requires n > 0
    ensures r < n
  {
    s.gen(s.drawn + [n]) % n
  }

  function After(s: Stream, n: nat): Stream {
    s.(drawn := s.drawn + [n])
  }

  /** What Chance decides, and the stream it leaves. Certain outcomes draw nothing. */
  function Decide(s: Stream, num: int, den: int): (bool, Stream) {
    if num <= 0 || den <= 0 then (false, s)
    else if num >= den then (true, s)
    else (Roll(s, den) < num, After(s, den))
  }

  function Share(w: int): nat {
    if w > 0 then w else 0
  }

  /** The positive weights from k on. */
  function TotalFrom(ws: seq<int>, k: nat): nat
    requires k <= |ws|
    decreases |ws| - k
  {
    if k == |ws| then 0 else Share(ws[k]) + TotalFrom(ws, k + 1)
  }

  /** The index at which the weights from k on use up the roll. */
  function PickFrom(ws: seq<int>, k: nat, roll: int, fallback: int): int
    requires k <= |ws|
    decreases |ws| - k
  {
    if k == |ws| then fallback
    else if ws[k] <= 0 then PickFrom(ws, k + 1, roll, fallback)
    else if roll < ws[k] then k
    else PickFrom(ws, k + 1, roll - ws[k], fallback)
  }

  /** What WeightedPick returns, and the stream it leaves. */
  function Picked(s: Stream, ws: seq<int>): (int, Stream) {
    var total := TotalFrom(ws, 0);
    if total == 0 then (-1, s) else (PickFrom(ws, 0, Roll(s, total), |ws| - 1), After(s, total))
  }

  class Source {
    var stream: Stream

    constructor (gen: seq<nat> -> nat)
      ensures stream == Stream(gen, [])
    {
      stream := Stream(gen, []);
    }

    /** The number of draws taken. */
    function Consumed(): nat
      reads this
    {
      |stream.drawn|
    }

    method IntN(n: nat) returns (r: nat)
      requires n > 0
      modifies this
      ensures r == Roll(old(stream), n) && stream == After(old(stream), n)
      ensures Consumed() == old(Consumed()) + 1
    {
      r := Roll(stream, n);
      stream := After(stream, n);
    }

    method Chance(num: int, den: int) returns (hit: bool)
      modifies this
      ensures (hit, stream) == Decide(old(stream), num, den)
    {
      if num <= 0 || den <= 0 { return false; }
      if num >= den { return true; }
      var r := IntN(den);
      return r < num;
    }

    method WeightedPick(ws: seq<int>) returns (pick: int)
      modifies this
      ensures (pick, stream) == Picked(old(stream), ws)
    {
      var total := 0;
      for i := 0 to |ws|
        invariant total >= 0 && total + TotalFrom(ws, i) == TotalFrom(ws, 0) && stream == old(stream)
      {
        if ws[i] > 0 { total := total + ws[i]; }
      }
      if total <= 0 { return -1; }
      var r := IntN(total);
      var roll: int := r;
      for i := 0 to |ws|
        invariant PickFrom(ws, i, roll, |ws| - 1) == PickFrom(ws, 0, r, |ws| - 1)
        invariant stream == After(old(stream), total)
      {
        if ws[i] <= 0 { continue; }
        if roll < ws[i] { return i; }
        roll := roll - ws[i];
      }
      return |ws| - 1;
    }
  }

  /** The rolls that hit. */
  ghost function Hits(num: int, den: nat): set<nat> {
    set roll <- Interval(0, den) | roll < num
  }

  /** What Chance decides: certain outcomes draw nothing; otherwise one draw out of den hits for
      exactly num of its rolls. */
  lemma ChanceIsExact(s: Stream, num: int, den: int)
    ensures var (hit, t) := Decide(s, num, den);
      if 0 < num < den
      then
        && (hit <==> s.gen(s.drawn + [den]) % den in Hits(num, den)) && t == Stream(s.gen, s.drawn + [den])
        && |Hits(num, den)| == num
      else hit == (0 < den <= num) && t == s
  {
    if 0 < num < den { assert Hits(num, den) == Interval(0, num); }
  }

  // ------------------------------------------------------------------------------------
  // The pick is fair
  // ------------------------------------------------------------------------------------

  /** The positive weights in [k, i). */
  function Before(ws: seq<int>, k: nat, i: nat): nat
    requires k <= i <= |ws|
    decreases i - k
  {
    if k == i then 0 else Share(ws[k]) + Before(ws, k + 1, i)
  }

  /** Exactly the rolls in an interval as long as the weight of i go to i. */
  lemma {:induction false} PickInterval(ws: seq<int>, k: nat, roll: nat, fallback: int, i: nat)
    requires k <= i < |ws| && roll < TotalFrom(ws, k)
    ensures PickFrom(ws, k, roll, fallback) == i <==> Before(ws, k, i) <= roll < Before(ws, k, i) + Share(ws[i])
    decreases |ws| - k
  {
    var left := roll - Share(ws[k]);
    if ws[k] > 0 && left < 0 {
    } else if i == k {
      PickAbove(ws, k + 1, left, fallback);
    } else {
      PickInterval(ws, k + 1, left, fallback, i);
    }
  }

  /** A roll below the total always lands on an index with positive weight, so the value
      returned after the last weight is never used. */
  lemma {:induction false} PickAbove(ws: seq<int>, k: nat, roll: nat, fallback: int)
    requires k <= |ws| && roll < TotalFrom(ws, k)
    ensures k <= PickFrom(ws, k, roll, fallback) < |ws| && ws[PickFrom(ws, k, roll, fallback)] > 0
    decreases |ws| - k
  {
    if ws[k] <= 0 {
      PickAbove(ws, k + 1, roll, fallback);
    } else if roll >= ws[k] {
      PickAbove(ws, k + 1, roll - ws[k], fallback);
    }
  }

  lemma {:induction false} FallbackIsUnreachable(ws: seq<int>, k: nat, roll: nat, a: int, b: int)
    requires k <= |ws| && roll < TotalFrom(ws, k)
    ensures PickFrom(ws, k, roll, a) == PickFrom(ws, k, roll, b)
    decreases |ws| - k
  {
    if ws[k] <= 0 {
      FallbackIsUnreachable(ws, k + 1, roll, a, b);
    } else if roll >= ws[k] {
      FallbackIsUnreachable(ws, k + 1, roll - ws[k], a, b);
    }
  }

  /** The rolls that WeightedPick sends to index i. */
  ghost function RollsFor(ws: seq<int>, i: nat): set<nat> {
    set roll <- Interval(0, TotalFrom(ws, 0)) | PickFrom(ws, 0, roll, |ws| - 1) == i
  }

  function Interval(a: nat, n: nat): (s: set<nat>)
    ensures |s| == n && forall x :: x in s <==> a <= x < a + n
  {
    if n == 0 then {} else Interval(a, n - 1) + {a + n - 1}
  }

  lemma {:induction false} BeforeFits(ws: seq<int>, k: nat, i: nat)
    requires k <= i < |ws|
    ensures Before(ws, k, i) + Share(ws[i]) <= TotalFrom(ws, k)
    decreases i - k
  {
    if k < i { BeforeFits(ws, k + 1, i); }
  }

  /** Out of the total, exactly the weight's share of rolls picks index i. */
  lemma EachIndexGetsItsWeight(ws: seq<int>, i: nat)
    requires i < |ws|
    ensures |RollsFor(ws, i)| == Share(ws[i])
  {
    BeforeFits(ws, 0, i);
    var fair := Interval(Before(ws, 0, i), Share(ws[i]));
    forall roll: nat ensures roll in RollsFor(ws, i) <==> roll in fair {
      if roll < TotalFrom(ws, 0) { PickInterval(ws, 0, roll, |ws| - 1, i); }
    }
    assert RollsFor(ws, i) == fair;
  }

  /** Without a positive weight nothing is picked and nothing is drawn; otherwise one draw
      picks an index of positive weight. */
  lemma PickedIsPositive(s: Stream, ws: seq<int>)
    ensures var (pick, after) := Picked(s, ws);
      if forall j :: 0 <= j < |ws| ==> ws[j] <= 0 then pick == -1 && after == s
      else 0 <= pick < |ws| && ws[pick] > 0 && |after.drawn| == |s.drawn| + 1
  {
    TotalIsZeroExactly(ws, 0);
    if TotalFrom(ws, 0) > 0 { PickAbove(ws, 0, Roll(s, TotalFrom(ws, 0)), |ws| - 1); }
  }

  lemma {:induction false} TotalIsZeroExactly(ws: seq<int>, k: nat)
    requires k <= |ws|
    ensures TotalFrom(ws, k) == 0 <==> forall j :: k <= j < |ws| ==> ws[j] <= 0
    decreases |ws| - k
  {
    if k < |ws| {
      TotalIsZeroExactly(ws, k + 1);
    }
  }
}
