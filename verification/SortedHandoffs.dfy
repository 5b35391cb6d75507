/** The same for the orders a round really uses, with the shards of the heaviest nodes first: what
    heavier nodes give counts against what the asking node still wants of a donor. */
module SortedHandoffs {
  import opened Sums
  import opened Rebalance
  import opened Handoffs

  /** The nodes that are asked before n. */
  function Heavier(h: Holders, me: nat, n: nat): set<nat> {
    set s <- h | h[s] != me && Count(h, h[s]) > Count(h, n) :: h[s]
  }

  /** What a node gives when the asking node is never satisfied. */
  function Supply(h: Holders, target: nat, outcome: nat -> Handoff, m: nat): nat {
    Lesser(|OfOutcome(h, m, outcome, Completed)|, Over(h, target, m))
  }

  ghost function Earlier(h: Holders, target: nat, me: nat, outcome: nat -> Handoff, n: nat): (e: nat)
  {
    var f: nat -> int := (m: nat) => Supply(h, target, outcome, m);
    SumAtLeast(Heavier(h, me, n), f, 0);
    Sum(Heavier(h, me, n), f)
  }

  /** The most a donor can lose in a round: nothing when heavier nodes give all that is wanted. */
  ghost function MostGoneInOrder(h: Holders, target: nat, me: nat, outcome: nat -> Handoff, n: nat): nat
    requires Count(h, me) < target
  {
    var earlier, want := Earlier(h, target, me, outcome, n), Want(h, target, me);
    if earlier >= want then 0 else MostWithin(h, target, outcome, n, want - earlier)
  }

  // ------------------------------------------------------------------------------------
  // What the heavier nodes give
  // ------------------------------------------------------------------------------------

  /** The first p candidates are the shards of the heavier nodes. */
  ghost predicate Leads(h: Holders, me: nat, n: nat, cands: seq<nat>, p: nat) {
    && p <= |cands|
    && (forall i :: 0 <= i < p ==> cands[i] in h && h[cands[i]] in Heavier(h, me, n))
    && (forall s <- h :: h[s] in Heavier(h, me, n) ==> s in cands[..p])
  }

  ghost predicate AllOf(nodes: set<nat>, h: Holders, cands: seq<nat>, k: nat) {
    k <= |cands| && forall i :: 0 <= i < k ==> cands[i] in h && h[cands[i]] in nodes
  }

  function TakenOf(taking: map<nat, nat>): nat -> int {
    (m: nat) => Taken(taking, m)
  }

  /** A round has what it took from the nodes. */
  lemma {:induction false} GotIsTaken(h: Holders, target: nat, me: nat, outcome: nat -> Handoff, cands: seq<nat>,
                                      nodes: set<nat>, k: nat)
    requires Asks(h, target, me, cands) && AllOf(nodes, h, cands, k)
    ensures var r := Through(h, target, me, outcome, cands, k); r.got == Sum(nodes, TakenOf(r.taking))
  {
    if k == 0 {
      SumAtLeast(nodes, TakenOf(map[]), 0);
      SumAtMost(nodes, TakenOf(map[]), 0);
    } else {
      GotIsTaken(h, target, me, outcome, cands, nodes, k - 1);
      var r, t := Through(h, target, me, outcome, cands, k - 1), Through(h, target, me, outcome, cands, k);
      if r != t { SumShift(nodes, TakenOf(r.taking), TakenOf(t.taking), h[cands[k - 1]]); }
    }
  }

  /** A completed handoff that was asked for in vain: its node has no more to give. */
  predicate Done(h: Holders, target: nat, me: nat, r: Round, s: nat)
    requires s in h
  {
    (s in r.now && r.now[s] == me) || Taken(r.taking, h[s]) >= Over(h, target, h[s])
  }

  ghost predicate DoneBefore(h: Holders, target: nat, me: nat, outcome: nat -> Handoff, cands: seq<nat>, k: nat,
                             r: Round)
    requires k <= |cands|
  {
    forall i :: 0 <= i < k && outcome(cands[i]) == Completed ==> cands[i] in h && Done(h, target, me, r, cands[i])
  }

  lemma NextIsDone(h: Holders, target: nat, me: nat, outcome: nat -> Handoff, cands: seq<nat>, k: nat, r: Round)
    requires Distinct(cands) && k < |cands| && cands[k] in h && cands[k] in r.now && Count(h, me) < target
    requires r.got < Want(h, target, me) && DoneBefore(h, target, me, outcome, cands, k, r)
    ensures DoneBefore(h, target, me, outcome, cands, k + 1, Next(h, target, me, outcome, cands[k], r))
  {
  }

  lemma StillThere(h: Holders, target: nat, me: nat, outcome: nat -> Handoff, cands: seq<nat>, k: nat)
    requires Distinct(cands) && Asks(h, target, me, cands) && k < |cands|
    ensures cands[k] in Through(h, target, me, outcome, cands, k).now
  {
    KeptThrough(h, target, me, outcome, cands, k);
  }

  /** While a round wants more it has asked for every candidate so far. */
  lemma {:induction false} AllAreDone(h: Holders, target: nat, me: nat, outcome: nat -> Handoff, cands: seq<nat>,
                                      k: nat)
    requires Distinct(cands) && Asks(h, target, me, cands) && k <= |cands|
    requires Through(h, target, me, outcome, cands, k).got < Want(h, target, me)
    ensures DoneBefore(h, target, me, outcome, cands, k, Through(h, target, me, outcome, cands, k))
  {
    if k > 0 {
      AllAreDone(h, target, me, outcome, cands, k - 1);
      StillThere(h, target, me, outcome, cands, k - 1);
      NextIsDone(h, target, me, outcome, cands, k - 1, Through(h, target, me, outcome, cands, k - 1));
    }
  }

  /** No node gives more than it has to give. */
  lemma GivesAtMost(h: Holders, target: nat, me: nat, outcome: nat -> Handoff, cands: seq<nat>, k: nat, m: nat)
    requires Distinct(cands) && Asks(h, target, me, cands) && k <= |cands| && m != me
    ensures Taken(Through(h, target, me, outcome, cands, k).taking, m) <= Supply(h, target, outcome, m)
  {
    KeptThrough(h, target, me, outcome, cands, k);
    var r := Through(h, target, me, outcome, cands, k);
    ShardsAreAccounted(h, r, me, m);
    Fits(Moved(h, r.now, m), OfOutcome(h, m, outcome, Completed));
  }

  /** A node whose shards were all asked for has given that much, while the round wants more. */
  lemma GivesAll(h: Holders, target: nat, me: nat, outcome: nat -> Handoff, cands: seq<nat>, k: nat, m: nat)
    requires Distinct(cands) && Asks(h, target, me, cands) && k <= |cands| && m != me
    requires Through(h, target, me, outcome, cands, k).got < Want(h, target, me)
    requires forall s <- h :: h[s] == m ==> s in cands[..k]
    ensures Taken(Through(h, target, me, outcome, cands, k).taking, m) == Supply(h, target, outcome, m)
  {
    GivesAtMost(h, target, me, outcome, cands, k, m);
    AllAreDone(h, target, me, outcome, cands, k);
    KeptThrough(h, target, me, outcome, cands, k);
    var r := Through(h, target, me, outcome, cands, k);
    if Taken(r.taking, m) < Over(h, target, m) {
      ShardsAreAccounted(h, r, me, m);
      CompletedHaveMoved(h, target, me, outcome, cands, k, m, r);
      Fits(OfOutcome(h, m, outcome, Completed), Moved(h, r.now, m));
    }
  }

  lemma CompletedHaveMoved(h: Holders, target: nat, me: nat, outcome: nat -> Handoff, cands: seq<nat>, k: nat, m: nat,
                           r: Round)
    requires k <= |cands| && m != me && Taken(r.taking, m) < Over(h, target, m)
    requires DoneBefore(h, target, me, outcome, cands, k, r)
    requires forall s <- h :: h[s] == m ==> s in cands[..k]
    ensures OfOutcome(h, m, outcome, Completed) <= Moved(h, r.now, m)
  {
    forall s | s in OfOutcome(h, m, outcome, Completed) ensures s in Moved(h, r.now, m) {
      var i :| 0 <= i < k && cands[..k][i] == s;
      assert cands[i] == s && Done(h, target, me, r, cands[i]);
    }
  }

  /** After the shards of the heavier nodes a round has what they give, up to what it wants. */
  lemma GotFromHeavier(h: Holders, target: nat, me: nat, outcome: nat -> Handoff, n: nat, cands: seq<nat>, p: nat)
    requires Distinct(cands) && Asks(h, target, me, cands) && Leads(h, me, n, cands, p)
    ensures Through(h, target, me, outcome, cands, p).got
         == Lesser(Earlier(h, target, me, outcome, n), Want(h, target, me))
  {
    var r, nodes := Through(h, target, me, outcome, cands, p), Heavier(h, me, n);
    var f: nat -> int := (m: nat) => Supply(h, target, outcome, m);
    GotIsTaken(h, target, me, outcome, cands, nodes, p);
    KeptThrough(h, target, me, outcome, cands, p);
    if r.got < Want(h, target, me) {
      forall m | m in nodes ensures TakenOf(r.taking)(m) == f(m) { GivesAll(h, target, me, outcome, cands, p, m); }
      SumSame(nodes, TakenOf(r.taking), f);
    } else {
      forall m | m in nodes ensures TakenOf(r.taking)(m) <= f(m) { GivesAtMost(h, target, me, outcome, cands, p, m); }
      SumLess(nodes, TakenOf(r.taking), f);
    }
  }

  /** Nothing was asked of the donor yet. */
  lemma {:induction false} DonorUntouched(h: Holders, target: nat, me: nat, outcome: nat -> Handoff, n: nat,
                                          cands: seq<nat>, k: nat)
    requires Asks(h, target, me, cands) && k <= |cands|
    requires forall i :: 0 <= i < k ==> cands[i] in h && h[cands[i]] != n
    ensures var r := Through(h, target, me, outcome, cands, k);
      Taken(r.taking, n) == 0 && r.dropped <= h.Keys && forall s <- r.dropped :: h[s] != n
  {
    if k > 0 { DonorUntouched(h, target, me, outcome, n, cands, k - 1); }
  }

  // ------------------------------------------------------------------------------------
  // No order with the heaviest first takes more
  // ------------------------------------------------------------------------------------

  lemma {:induction false} FindLead(h: Holders, c: nat, cands: seq<nat>, k: nat) returns (p: nat)
    requires HeaviestFirst(h, cands) && k <= |cands|
    ensures p <= k && (forall i :: 0 <= i < p ==> Weight(h, cands[i]) > c)
    ensures forall i :: p <= i < k ==> Weight(h, cands[i]) <= c
  {
    if k == 0 || Weight(h, cands[k - 1]) > c { return k; }
    p := FindLead(h, c, cands, k - 1);
  }

  /** In such an order the heavier nodes lead. */
  lemma SomeLead(h: Holders, target: nat, me: nat, n: nat, cands: seq<nat>) returns (p: nat)
    requires Proposed(h, cands, target, me) && HeaviestFirst(h, cands) && Count(h, n) > target
    ensures Leads(h, me, n, cands, p)
  {
    p := FindLead(h, Count(h, n), cands, |cands|);
    ProposedAreHeld(h, cands, target, me);
    forall s | s in h && h[s] in Heavier(h, me, n) ensures s in cands[..p] {
      assert s in cands;
      var i :| 0 <= i < |cands| && cands[i] == s;
      assert i < p && cands[..p][i] == s;
    }
  }

  lemma {:induction false} TakenWithinGot(h: Holders, target: nat, me: nat, outcome: nat -> Handoff, cands: seq<nat>,
                                          k: nat, m: nat, n: nat)
    requires Asks(h, target, me, cands) && k <= m <= |cands|
    ensures var r, t := Through(h, target, me, outcome, cands, k), Through(h, target, me, outcome, cands, m);
      Taken(t.taking, n) - Taken(r.taking, n) <= t.got - r.got
  {
    if k < m { TakenWithinGot(h, target, me, outcome, cands, k, m - 1, n); }
  }

  lemma LeadersAreOthers(h: Holders, target: nat, me: nat, outcome: nat -> Handoff, n: nat, cands: seq<nat>, p: nat)
    requires Asks(h, target, me, cands) && Leads(h, me, n, cands, p)
    ensures var r := Through(h, target, me, outcome, cands, p);
      Taken(r.taking, n) == 0 && r.dropped <= h.Keys && LostBy(h, r.dropped, n) == 0
  {
    DonorUntouched(h, target, me, outcome, n, cands, p);
    assert LostShards(h, Through(h, target, me, outcome, cands, p).dropped, n) == {};
  }

  /** Whatever the order among equals, a donor keeps at least this much. */
  lemma AtLeastLeftInOrder(h: Holders, target: nat, me: nat, outcome: nat -> Handoff, cands: seq<nat>, n: nat)
    requires Proposed(h, cands, target, me) && HeaviestFirst(h, cands)
    requires Count(h, me) < target && n != me && Count(h, n) > target
    ensures Count(RoundOf(h, target, me, outcome, cands).now, n)
         >= Count(h, n) - MostGoneInOrder(h, target, me, outcome, n)
  {
    ProposedIsAsked(h, target, me, cands);
    var p := SomeLead(h, target, me, n, cands);
    LeftAfterLead(h, target, me, outcome, cands, n, p);
  }

  lemma LeftAfterLead(h: Holders, target: nat, me: nat, outcome: nat -> Handoff, cands: seq<nat>, n: nat, p: nat)
    requires Distinct(cands) && Asks(h, target, me, cands) && Leads(h, me, n, cands, p) && n != me
    ensures Count(Through(h, target, me, outcome, cands, |cands|).now, n)
         >= Count(h, n) - MostGoneInOrder(h, target, me, outcome, n)
  {
    GotFromHeavier(h, target, me, outcome, n, cands, p);
    LeadersAreOthers(h, target, me, outcome, n, cands, p);
    LeftAfterRound(h, target, me, outcome, cands, n);
    if Through(h, target, me, outcome, cands, p).got >= Want(h, target, me) {
      StopsWhenSatisfied(h, target, me, outcome, cands, p, |cands|);
    } else {
      TakenWithinGot(h, target, me, outcome, cands, p, |cands|, n);
      LosesWithin(h, target, me, outcome, cands, n);
    }
  }

  /** A round ends with at most what it wants and takes no more than the node has to give. */
  lemma LosesWithin(h: Holders, target: nat, me: nat, outcome: nat -> Handoff, cands: seq<nat>, n: nat)
    requires Distinct(cands) && Asks(h, target, me, cands) && n != me
    ensures var r := Through(h, target, me, outcome, cands, |cands|);
      && r.got <= Want(h, target, me) && Taken(r.taking, n) <= Supply(h, target, outcome, n)
      && r.dropped <= h.Keys && LostBy(h, r.dropped, n) <= |OfOutcome(h, n, outcome, Lost)|
  {
    GivesAtMost(h, target, me, outcome, cands, |cands|, n);
    KeptThrough(h, target, me, outcome, cands, |cands|);
    Fits(LostShards(h, Through(h, target, me, outcome, cands, |cands|).dropped, n), OfOutcome(h, n, outcome, Lost));
  }

  // ------------------------------------------------------------------------------------
  // Some order with the heaviest first takes that much
  // ------------------------------------------------------------------------------------

  function HeavierShards(h: Holders, me: nat, n: nat): set<nat> {
    set s <- h | h[s] in Heavier(h, me, n)
  }

  /** Heavier shards, those of the donor, the others: in order when each part is. */
  lemma PartsAreSorted(h: Holders, target: nat, me: nat, outcome: nat -> Handoff, n: nat, cands: seq<nat>, p: nat,
                       a: nat, b: nat)
    requires DonorNext(h, target, me, outcome, n, cands, p, a, b)
    requires Around(h, cands, p, p + a + b, HeavierShards(h, me, n),
                    Others(h, target, me, outcome, n) - HeavierShards(h, me, n))
    ensures HeaviestFirst(h, cands)
  {
    var c, q := Count(h, n), p + a + b;
    forall i | 0 <= i < p ensures Weight(h, cands[i]) > c { assert cands[..p][i] in HeavierShards(h, me, n); }
    forall i | q <= i < |cands| ensures Weight(h, cands[i]) <= c { assert cands[q..][i - q] in cands[q..]; }
    forall i, j | 0 <= i < j < |cands| ensures Weight(h, cands[i]) >= Weight(h, cands[j]) {
      if j < p {
        assert cands[..p][i] == cands[i] && cands[..p][j] == cands[j];
      } else if i >= q {
        assert cands[q..][i - q] == cands[i] && cands[q..][j - q] == cands[j];
      }
    }
  }

  lemma FirstLeads(h: Holders, me: nat, n: nat, cands: seq<nat>, p: nat, q: nat, last: set<nat>)
    requires Around(h, cands, p, q, HeavierShards(h, me, n), last)
    ensures Leads(h, me, n, cands, p)
  {
    forall i | 0 <= i < p ensures cands[i] in HeavierShards(h, me, n) { assert cands[..p][i] == cands[i]; }
  }

  lemma HeavierAreOthers(h: Holders, target: nat, me: nat, outcome: nat -> Handoff, n: nat)
    requires Count(h, n) > target
    ensures HeavierShards(h, me, n) <= Others(h, target, me, outcome, n)
  {
  }

  /** What a donor keeps at the least in a round: every order with the heaviest first leaves it
      that much, and some such order no more. */
  lemma FewestLeftInOrder(h: Holders, target: nat, me: nat, outcome: nat -> Handoff, n: nat) returns (cands: seq<nat>)
    requires n != me && Count(h, n) > target && Count(h, me) < target
    ensures Proposed(h, cands, target, me) && HeaviestFirst(h, cands)
    ensures Count(RoundOf(h, target, me, outcome, cands).now, n)
         == Count(h, n) - MostGoneInOrder(h, target, me, outcome, n)
  {
    var first := HeavierShards(h, me, n);
    var last := Others(h, target, me, outcome, n) - first;
    HeavierAreOthers(h, target, me, outcome, n);
    var p, a, b;
    cands, p, a, b := OrderDonor(h, target, me, outcome, n, first, last);
    PartsAreSorted(h, target, me, outcome, n, cands, p, a, b);
    FirstLeads(h, me, n, cands, p, p + a + b, last);
    AtLeastLeftInOrder(h, target, me, outcome, cands, n);
    PartsTakeMost(h, target, me, outcome, n, cands, p, a, b);
  }

  lemma PartsTakeMost(h: Holders, target: nat, me: nat, outcome: nat -> Handoff, n: nat, cands: seq<nat>, p: nat,
                      a: nat, b: nat)
    requires n != me && Count(h, n) > target && Count(h, me) < target
    requires DonorNext(h, target, me, outcome, n, cands, p, a, b) && Leads(h, me, n, cands, p)
    ensures Count(RoundOf(h, target, me, outcome, cands).now, n)
         <= Count(h, n) - MostGoneInOrder(h, target, me, outcome, n)
  {
    ProposedIsAsked(h, target, me, cands);
    GotFromHeavier(h, target, me, outcome, n, cands, p);
    LeadersAreOthers(h, target, me, outcome, n, cands, p);
    LeftAfterRound(h, target, me, outcome, cands, n);
    var earlier := Earlier(h, target, me, outcome, n);
    if earlier < Want(h, target, me) { DonorNextTakesMost(h, target, me, outcome, n, cands, p, a, b, earlier); }
  }

  /** A round, whatever its order among nodes of equal weight, leaves a donor at or above its share
      exactly when the donor's lost handoffs and the completed ones the round may still count do
      not exceed its excess. */
  lemma ShareIsKeptExactlyInOrder(h: Holders, target: nat, me: nat, outcome: nat -> Handoff, n: nat)
    requires n != me && Count(h, n) > target && Count(h, me) < target
    ensures (forall cands :: Proposed(h, cands, target, me) && HeaviestFirst(h, cands) ==>
               Count(RoundOf(h, target, me, outcome, cands).now, n) >= target)
       <==> MostGoneInOrder(h, target, me, outcome, n) <= Over(h, target, n)
  {
    var worst := FewestLeftInOrder(h, target, me, outcome, n);
    forall cands | Proposed(h, cands, target, me) && HeaviestFirst(h, cands)
      ensures Count(RoundOf(h, target, me, outcome, cands).now, n)
           >= Count(h, n) - MostGoneInOrder(h, target, me, outcome, n)
    {
      AtLeastLeftInOrder(h, target, me, outcome, cands, n);
    }
  }
}
