/** The odds of a draw: out of the total weight of the entries it can give, exactly an entry's
    weight of the rolls give that entry. */
module Odds {
  import opened Keyspace
  import opened Rng
  import opened Gacha
  import opened TenPulls

  /** The weight of the entries from k on of at least the rarity. */
  function WeightFrom(es: seq<Entry>, rarity: nat, k: nat): int
    requires k <= |es|
    decreases |es| - k
  {
    if k == |es| then 0 else (if es[k].rarity >= rarity then es[k].weight else 0) + WeightFrom(es, rarity, k + 1)
  }

  function WeightOf(p: Pool, rarity: nat): int {
    WeightFrom(p.entries, rarity, 0)
  }

  lemma WeightsOfCons(es: seq<Entry>, i: nat, rest: seq<nat>)
    requires i < |es| && forall j :: 0 <= j < |rest| ==> rest[j] < |es|
    ensures WeightsOf(es, [i] + rest) == [es[i].weight] + WeightsOf(es, rest)
  {
  }

  lemma {:induction false} TotalOfCons(w: int, ws: seq<int>, k: nat)
    requires k <= |ws|
    ensures TotalFrom([w] + ws, k + 1) == TotalFrom(ws, k)
    decreases |ws| - k
  {
    if k < |ws| { TotalOfCons(w, ws, k + 1); }
  }

  lemma TotalOfMore(es: seq<Entry>, i: nat, rest: seq<nat>)
    requires i < |es| && es[i].weight >= 0 && forall j :: 0 <= j < |rest| ==> rest[j] < |es|
    ensures TotalFrom(WeightsOf(es, [i] + rest), 0) == es[i].weight + TotalFrom(WeightsOf(es, rest), 0)
  {
    var ws := WeightsOf(es, rest);
    WeightsOfCons(es, i, rest);
    TotalOfCons(es[i].weight, ws, 0);
  }

  lemma {:induction false} TotalIsWeight(es: seq<Entry>, rarity: nat, k: nat)
    requires k <= |es| && forall i :: 0 <= i < |es| ==> es[i].weight >= 0
    ensures TotalFrom(WeightsOf(es, Eligible(es, rarity, k)), 0) == WeightFrom(es, rarity, k)
    decreases |es| - k
  {
    if k < |es| {
      var rest := Eligible(es, rarity, k + 1);
      TotalIsWeight(es, rarity, k + 1);
      if es[k].rarity >= rarity {
        assert Eligible(es, rarity, k) == [k] + rest;
        TotalOfMore(es, k, rest);
      }
    }
  }

  predicate RisesFrom(idxs: seq<nat>, k: nat) {
    (forall j :: 0 <= j < |idxs| ==> idxs[j] >= k) && (forall i, j :: 0 <= i < j < |idxs| ==> idxs[i] < idxs[j])
  }

  lemma RisesMore(idxs: seq<nat>, k: nat)
    requires RisesFrom(idxs, k + 1)
    ensures RisesFrom(idxs, k) && RisesFrom([k] + idxs, k)
  {
    var more := [k] + idxs;
    assert forall j :: 0 < j < |more| ==> more[j] == idxs[j - 1];
  }

  lemma {:induction false} EligibleInOrder(es: seq<Entry>, rarity: nat, k: nat)
    requires k <= |es|
    ensures RisesFrom(Eligible(es, rarity, k), k)
    decreases |es| - k
  {
    if k < |es| {
      EligibleInOrder(es, rarity, k + 1);
      RisesMore(Eligible(es, rarity, k + 1), k);
    }
  }

  // ------------------------------------------------------------------------------------
  // A pick by rarity
  // ------------------------------------------------------------------------------------

  /** The next draw of the stream, out of n, is v. */
  predicate RollsOf(s: Stream, n: nat, v: nat)
    requires n > 0
  {
    s.gen(s.drawn + [n]) % n == v
  }

  /** A pick whose roll, out of the total weight, is v gives entry i. */
  ghost predicate PicksAt(p: Pool, rarity: nat, v: nat, i: nat)
    requires WeightOf(p, rarity) > 0
  {
    forall s: Stream :: RollsOf(s, WeightOf(p, rarity), v) ==> PickedAmong(s, p.entries, rarity).0 == Some(i)
  }

  ghost function RollsTo(p: Pool, rarity: nat, i: nat): set<nat>
    requires WeightOf(p, rarity) > 0
  {
    set v <- Interval(0, WeightOf(p, rarity)) | PicksAt(p, rarity, v, i)
  }

  /** The roll alone decides a pick. */
  lemma PickAtRoll(p: Pool, rarity: nat, s: Stream)
    requires Valid(p)
    ensures var idxs := Eligible(p.entries, rarity, 0); var ws := WeightsOf(p.entries, idxs);
      && TotalFrom(ws, 0) == WeightOf(p, rarity)
      && if WeightOf(p, rarity) == 0 then PickedAmong(s, p.entries, rarity) == (None, s)
         else
           var v := s.gen(s.drawn + [WeightOf(p, rarity)]) % WeightOf(p, rarity);
           var j := PickFrom(ws, 0, v, |ws| - 1);
           && 0 <= j < |idxs| && p.entries[idxs[j]].weight > 0
           && PickedAmong(s, p.entries, rarity) == (Some(idxs[j]), Stream(s.gen, s.drawn + [WeightOf(p, rarity)]))
  {
    var ws := WeightsOf(p.entries, Eligible(p.entries, rarity, 0));
    TotalIsWeight(p.entries, rarity, 0);
    PickedIsPositive(s, ws);
    TotalIsZeroExactly(ws, 0);
  }

  lemma PicksExactly(p: Pool, rarity: nat, v: nat, i: nat)
    requires Valid(p) && v < WeightOf(p, rarity)
    ensures var idxs := Eligible(p.entries, rarity, 0); var ws := WeightsOf(p.entries, idxs);
      var j := PickFrom(ws, 0, v, |ws| - 1); 0 <= j < |idxs| && (PicksAt(p, rarity, v, i) <==> idxs[j] == i)
  {
    var always := Stream((drawn: seq<nat>) => v, []);
    assert RollsOf(always, WeightOf(p, rarity), v);
    PickAtRoll(p, rarity, always);
    forall s: Stream | RollsOf(s, WeightOf(p, rarity), v)
      ensures PickedAmong(s, p.entries, rarity).0 == PickedAmong(always, p.entries, rarity).0
    {
      PickAtRoll(p, rarity, s);
    }
  }

  /** A pick draws once out of the total weight of the entries of at least the rarity, and each of
      them gets exactly its weight of the rolls, any other none. */
  lemma PickIsWeighted(p: Pool, rarity: nat, i: nat)
    requires Valid(p) && i < |p.entries| && WeightOf(p, rarity) > 0
    ensures |RollsTo(p, rarity, i)| == if p.entries[i].rarity >= rarity then p.entries[i].weight else 0
    ensures forall s: Stream :: PickedAmong(s, p.entries, rarity).1 == Stream(s.gen, s.drawn + [WeightOf(p, rarity)])
  {
    forall s: Stream
      ensures PickedAmong(s, p.entries, rarity).1 == Stream(s.gen, s.drawn + [WeightOf(p, rarity)])
    {
      PickAtRoll(p, rarity, s);
    }
    if p.entries[i].rarity >= rarity {
      EligibleGetsWeight(p, rarity, i);
    } else {
      forall v | v in RollsTo(p, rarity, i) ensures false { PicksExactly(p, rarity, v, i); }
      assert RollsTo(p, rarity, i) == {};
    }
  }

  /** A roll goes to entry i exactly when it goes to its position among the eligible ones. */
  lemma RollGoesTo(p: Pool, rarity: nat, i: nat, j: nat, v: nat)
    requires Valid(p) && j < |Eligible(p.entries, rarity, 0)| && Eligible(p.entries, rarity, 0)[j] == i
    requires v < WeightOf(p, rarity)
    ensures var ws := WeightsOf(p.entries, Eligible(p.entries, rarity, 0));
      PicksAt(p, rarity, v, i) <==> PickFrom(ws, 0, v, |ws| - 1) == j
  {
    EligibleInOrder(p.entries, rarity, 0);
    PicksExactly(p, rarity, v, i);
  }

  lemma EligibleGetsWeight(p: Pool, rarity: nat, i: nat)
    requires Valid(p) && i < |p.entries| && p.entries[i].rarity >= rarity && WeightOf(p, rarity) > 0
    ensures |RollsTo(p, rarity, i)| == p.entries[i].weight
  {
    var idxs := Eligible(p.entries, rarity, 0);
    var ws := WeightsOf(p.entries, idxs);
    EligibleHas(p.entries, rarity, 0, i);
    TotalIsWeight(p.entries, rarity, 0);
    var j: nat :| j < |idxs| && idxs[j] == i;
    forall v: nat | v < WeightOf(p, rarity)
      ensures PicksAt(p, rarity, v, i) <==> PickFrom(ws, 0, v, |ws| - 1) == j
    {
      RollGoesTo(p, rarity, i, j, v);
    }
    assert RollsTo(p, rarity, i) == RollsFor(ws, j);
    EachIndexGetsItsWeight(ws, j);
  }

  // ------------------------------------------------------------------------------------
  // A draw
  // ------------------------------------------------------------------------------------

  lemma {:induction false} DroppableWeighs(es: seq<Entry>, rarity: nat, k: nat, i: nat)
    requires k <= i < |es| && (forall j :: 0 <= j < |es| ==> es[j].weight >= 0)
    requires es[i].rarity >= rarity
    ensures WeightFrom(es, rarity, k) >= es[i].weight
    decreases |es| - k
  {
    if k < i { DroppableWeighs(es, rarity, k + 1, i); } else { WeightIsNatural(es, rarity, k + 1); }
  }

  lemma {:induction false} WeightIsNatural(es: seq<Entry>, rarity: nat, k: nat)
    requires k <= |es| && forall j :: 0 <= j < |es| ==> es[j].weight >= 0
    ensures WeightFrom(es, rarity, k) >= 0
    decreases |es| - k
  {
    if k < |es| { WeightIsNatural(es, rarity, k + 1); }
  }

  /** The stream's next roll is v and the draw gives i, or the roll is another. */
  ghost predicate DrawsWith(p: Pool, top: nat, high: nat, force: bool, v: nat, i: nat, s: Stream)
    requires WeightOf(p, Bar(p, top, high, force)) > 0
  {
    RollsOf(s, WeightOf(p, Bar(p, top, high, force)), v) ==> Choice(p, top, high, s, force).0 == Some(i)
  }

  /** The rolls, out of the weight at its bar, with which a draw gives entry i. */
  ghost function DrawRolls(p: Pool, top: nat, high: nat, force: bool, i: nat): set<nat>
    requires WeightOf(p, Bar(p, top, high, force)) > 0
  {
    set v <- Interval(0, WeightOf(p, Bar(p, top, high, force)))
      | forall s: Stream :: DrawsWith(p, top, high, force, v, i, s)
  }

  lemma BarHasWeight(p: Pool, top: nat, high: nat, force: bool)
    requires Valid(p)
    ensures WeightOf(p, Bar(p, top, high, force)) > 0
  {
    ValidCanDrop(p);
    var bar := Bar(p, top, high, force);
    var k: nat :| Droppable(p, k, bar);
    DroppableWeighs(p.entries, bar, 0, k);
  }

  lemma DrawsAsPicks(p: Pool, top: nat, high: nat, force: bool, v: nat, i: nat)
    requires Valid(p) && WeightOf(p, Bar(p, top, high, force)) > 0
    ensures (forall s: Stream :: DrawsWith(p, top, high, force, v, i, s))
       <==> PicksAt(p, Bar(p, top, high, force), v, i)
  {
    var bar := Bar(p, top, high, force);
    forall s: Stream
      ensures DrawsWith(p, top, high, force, v, i, s)
         <==> (RollsOf(s, WeightOf(p, bar), v) ==> PickedAmong(s, p.entries, bar).0 == Some(i))
    {
      ChoiceIsPick(p, top, high, s, force);
    }
  }

  /** Whatever the counters, a draw rolls once out of the total weight of the entries at or above
      its bar, and each of them gets exactly its weight of the rolls. Without pity the bar is
      zero, so the draw is over the whole pool. */
  lemma DrawIsWeighted(p: Pool, top: nat, high: nat, force: bool, i: nat)
    requires Valid(p) && i < |p.entries|
    ensures var bar := Bar(p, top, high, force);
      && WeightOf(p, bar) > 0
      && |DrawRolls(p, top, high, force, i)| == if p.entries[i].rarity >= bar then p.entries[i].weight else 0
  {
    var bar := Bar(p, top, high, force);
    BarHasWeight(p, top, high, force);
    PickIsWeighted(p, bar, i);
    forall v: nat
      ensures (forall s: Stream :: DrawsWith(p, top, high, force, v, i, s)) <==> PicksAt(p, bar, v, i)
    {
      DrawsAsPicks(p, top, high, force, v, i);
    }
    assert DrawRolls(p, top, high, force, i) == RollsTo(p, bar, i);
  }

  lemma DrawRollsOnce(p: Pool, top: nat, high: nat, force: bool, s: Stream)
    requires Valid(p)
    ensures var total := WeightOf(p, Bar(p, top, high, force));
      total > 0 && Choice(p, top, high, s, force).2 == Stream(s.gen, s.drawn + [total])
  {
    ChoiceIsPick(p, top, high, s, force);
    BarHasWeight(p, top, high, force);
    PickAtRoll(p, Bar(p, top, high, force), s);
  }
}
