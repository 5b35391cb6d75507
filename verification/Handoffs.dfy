/** What a rebalance round can take from a donor, over every order of its candidates: exactly when
    a donor keeps its share although handoffs are lost, and how far it can be drained. */
module Handoffs {
  import opened Rebalance

  /** The node's shards whose request has this outcome. */
  function OfOutcome(h: Holders, n: nat, outcome: nat -> Handoff, o: Handoff): set<nat> {
    set s <- h | h[s] == n && outcome(s) == o
  }

  function Lesser(a: nat, b: nat): nat {
    if a < b then a else b
  }

  /** The most a donor can lose to a node that still wants some shards: all its lost handoffs, and
      as many completed ones as its excess and the asking node allow. */
  function MostWithin(h: Holders, target: nat, outcome: nat -> Handoff, n: nat, want: nat): nat {
    |OfOutcome(h, n, outcome, Lost)|
    + Lesser(|OfOutcome(h, n, outcome, Completed)|, Lesser(Over(h, target, n), want))
  }

  /** The most a donor can lose in a round. */
  function MostGone(h: Holders, target: nat, me: nat, outcome: nat -> Handoff, n: nat): nat
    requires Count(h, me) < target
  {
    MostWithin(h, target, outcome, n, Want(h, target, me))
  }

  /** One request that the count of what was taken lets through brings the donor below its share
      exactly when the shards it has lost make up for what that count leaves above the share. */
  lemma StepDrainsExactly(h: Holders, r: Round, target: nat, me: nat, s: nat)
    requires Accounted(h, r.now, r.taking, r.dropped, me)
    requires s in r.now && r.now[s] == h[s] != me && Left(h, r, s) > target
    ensures Count(Takes(h, r, s, me).now, h[s]) < target <==> LostBy(h, r.dropped, h[s]) >= Left(h, r, s) - target
    ensures Count(Drops(r, s).now, h[s]) < target <==> LostBy(h, r.dropped, h[s]) >= Left(h, r, s) - target
  {
    MoveCounts(r.now, s, me, h[s]);
    DropCounts(r.now, s, h[s]);
  }

  // ------------------------------------------------------------------------------------
  // No order takes more
  // ------------------------------------------------------------------------------------

  /** What a round keeps whatever the order: its books, the candidates to come, and the reasons
      why shards moved or were dropped. */
  ghost predicate Kept(h: Holders, target: nat, me: nat, outcome: nat -> Handoff, cands: seq<nat>, k: nat, r: Round) {
    && Accounted(h, r.now, r.taking, r.dropped, me) && DonorsKeepShare(h, r.now, target, r.dropped, me)
    && (forall i :: k <= i < |cands| ==> cands[i] in r.now && cands[i] in h && r.now[cands[i]] == h[cands[i]])
    && (forall s <- r.dropped :: outcome(s) == Lost)
    && (forall s <- r.now :: r.now[s] != h[s] ==> outcome(s) == Completed)
    && Bounded(h, target, me, r)
  }

  ghost predicate Bounded(h: Holders, target: nat, me: nat, r: Round) {
    forall n: nat :: n != me ==> Taken(r.taking, n) <= Lesser(r.got, Over(h, target, n))
  }

  lemma TakesKeeps(h: Holders, target: nat, me: nat, outcome: nat -> Handoff, cands: seq<nat>, k: nat, r: Round)
    requires Distinct(cands) && k < |cands| && Kept(h, target, me, outcome, cands, k, r)
    requires cands[k] in h && h[cands[k]] != me && Left(h, r, cands[k]) > target && outcome(cands[k]) == Completed
    ensures Kept(h, target, me, outcome, cands, k + 1, Takes(h, r, cands[k], me))
  {
    MoveIsAccounted(h, r.now, r.taking, r.dropped, target, me, cands[k]);
  }

  lemma DropsKeeps(h: Holders, target: nat, me: nat, outcome: nat -> Handoff, cands: seq<nat>, k: nat, r: Round)
    requires Distinct(cands) && k < |cands| && Kept(h, target, me, outcome, cands, k, r)
    requires cands[k] in h && h[cands[k]] != me && Left(h, r, cands[k]) > target && outcome(cands[k]) == Lost
    ensures Kept(h, target, me, outcome, cands, k + 1, Drops(r, cands[k]))
  {
    DropIsAccounted(h, r.now, r.taking, r.dropped, target, me, cands[k]);
  }

  lemma HandledKeeps(h: Holders, target: nat, me: nat, outcome: nat -> Handoff, cands: seq<nat>, k: nat, r: Round)
    requires Distinct(cands) && k < |cands| && Kept(h, target, me, outcome, cands, k, r)
    requires cands[k] in h && h[cands[k]] != me
    ensures Kept(h, target, me, outcome, cands, k + 1, Handled(h, target, me, outcome, cands[k], r))
  {
    if Left(h, r, cands[k]) > target && outcome(cands[k]) == Completed {
      TakesKeeps(h, target, me, outcome, cands, k, r);
    } else if Left(h, r, cands[k]) > target && outcome(cands[k]) == Lost {
      DropsKeeps(h, target, me, outcome, cands, k, r);
    }
  }

  /** The candidates are other nodes' shards. */
  predicate Asks(h: Holders, target: nat, me: nat, cands: seq<nat>) {
    Count(h, me) < target && forall i :: 0 <= i < |cands| ==> cands[i] in h && h[cands[i]] != me
  }

  lemma ProposedIsAsked(h: Holders, target: nat, me: nat, cands: seq<nat>)
    requires Proposed(h, cands, target, me) && Count(h, me) < target
    ensures Asks(h, target, me, cands)
  {
    ProposedAreHeld(h, cands, target, me);
  }

  lemma StartKeeps(h: Holders, target: nat, me: nat, outcome: nat -> Handoff, cands: seq<nat>)
    requires Asks(h, target, me, cands)
    ensures Kept(h, target, me, outcome, cands, 0, Round(h, map[], {}, 0))
  {
    forall n: nat ensures LostBy(h, {}, n) == 0 { assert LostShards(h, {}, n) == {}; }
  }

  lemma {:induction false} KeptThrough(h: Holders, target: nat, me: nat, outcome: nat -> Handoff, cands: seq<nat>,
                                       k: nat)
    requires Distinct(cands) && Asks(h, target, me, cands) && k <= |cands|
    ensures Kept(h, target, me, outcome, cands, k, Through(h, target, me, outcome, cands, k))
    ensures Through(h, target, me, outcome, cands, k).got <= Want(h, target, me)
  {
    if k == 0 {
      StartKeeps(h, target, me, outcome, cands);
    } else {
      KeptThrough(h, target, me, outcome, cands, k - 1);
      NextKeeps(h, target, me, outcome, cands, k - 1, Through(h, target, me, outcome, cands, k - 1));
    }
  }

  lemma NextKeeps(h: Holders, target: nat, me: nat, outcome: nat -> Handoff, cands: seq<nat>, k: nat, r: Round)
    requires Distinct(cands) && k < |cands| && Kept(h, target, me, outcome, cands, k, r)
    requires cands[k] in h && h[cands[k]] != me && Count(h, me) < target && r.got <= Want(h, target, me)
    ensures Kept(h, target, me, outcome, cands, k + 1, Next(h, target, me, outcome, cands[k], r))
    ensures Next(h, target, me, outcome, cands[k], r).got <= Want(h, target, me)
  {
    if r.got >= Want(h, target, me) {
      LaterIsKept(h, target, me, outcome, cands, k, r);
    } else {
      HandledKeeps(h, target, me, outcome, cands, k, r);
    }
  }

  lemma LaterIsKept(h: Holders, target: nat, me: nat, outcome: nat -> Handoff, cands: seq<nat>, k: nat, r: Round)
    requires Kept(h, target, me, outcome, cands, k, r)
    ensures Kept(h, target, me, outcome, cands, k + 1, r)
  {
  }

  /** The node's shards that now belong to another. */
  function Moved(h: Holders, now: Holders, n: nat): set<nat> {
    set s <- now | s in h && h[s] == n && now[s] != n
  }

  /** A donor's shards are those it still holds, those that moved and those that were dropped. */
  lemma ShardsAreAccounted(h: Holders, r: Round, me: nat, n: nat)
    requires Accounted(h, r.now, r.taking, r.dropped, me) && n != me
    ensures Taken(r.taking, n) == |Moved(h, r.now, n)|
  {
    var held, moved, lost := HeldBy(r.now, n), Moved(h, r.now, n), LostShards(h, r.dropped, n);
    assert HeldBy(h, n) == held + moved + lost;
    assert held !! moved && (held + moved) !! lost;
    assert |held + moved| == |held| + |moved| && |held + moved + lost| == |held + moved| + |lost|;
  }

  lemma Fits(a: set<nat>, b: set<nat>)
    requires a <= b
    ensures |a| <= |b|
  {
    assert b == a + (b - a);
  }

  /** Whatever the order, a donor keeps at least this much. */
  lemma AtLeastLeft(h: Holders, target: nat, me: nat, outcome: nat -> Handoff, cands: seq<nat>, n: nat)
    requires Proposed(h, cands, target, me) && Count(h, me) < target && n != me
    ensures Count(RoundOf(h, target, me, outcome, cands).now, n) >= Count(h, n) - MostGone(h, target, me, outcome, n)
  {
    ProposedIsAsked(h, target, me, cands);
    KeptThrough(h, target, me, outcome, cands, |cands|);
    var r := Through(h, target, me, outcome, cands, |cands|);
    ShardsAreAccounted(h, r, me, n);
    Fits(Moved(h, r.now, n), OfOutcome(h, n, outcome, Completed));
    Fits(LostShards(h, r.dropped, n), OfOutcome(h, n, outcome, Lost));
  }

  // ------------------------------------------------------------------------------------
  // Some order takes that much
  // ------------------------------------------------------------------------------------

  /** The sequence lists the set. */
  ghost predicate Lists(q: seq<nat>, s: set<nat>) {
    Distinct(q) && |q| == |s| && forall x :: x in q <==> x in s
  }

  lemma {:induction false} Listing(s: set<nat>) returns (q: seq<nat>)
    ensures Lists(q, s)
  {
    if s == {} {
      q := [];
    } else {
      var x :| x in s;
      var rest := Listing(s - {x});
      q := [x] + rest;
      assert forall i :: 0 < i < |q| ==> q[i] == rest[i - 1] && rest[i - 1] in rest;
    }
  }

  lemma JoinDistinct(a: seq<nat>, b: seq<nat>)
    requires Distinct(a) && Distinct(b) && forall x <- a :: x !in b
    ensures Distinct(a + b) && forall x :: x in a + b <==> x in a || x in b
  {
    var q := a + b;
    forall i, j | 0 <= i < j < |q| ensures q[i] != q[j] {
      if i < |a| && j >= |a| { assert q[i] in a && q[j] == b[j - |a|] && b[j - |a|] in b; }
    }
  }

  /** From position p on the a lost shards of the donor, then its b completed ones. */
  ghost predicate DonorNext(h: Holders, target: nat, me: nat, outcome: nat -> Handoff, n: nat, cands: seq<nat>,
                            p: nat, a: nat, b: nat) {
    && Proposed(h, cands, target, me) && p + a + b <= |cands|
    && a == |OfOutcome(h, n, outcome, Lost)| && b == |OfOutcome(h, n, outcome, Completed)|
    && (forall i :: p <= i < p + a ==> cands[i] in OfOutcome(h, n, outcome, Lost))
    && (forall i :: p + a <= i < p + a + b ==> cands[i] in OfOutcome(h, n, outcome, Completed))
  }

  /** Before and after them come other candidates, each group with the heaviest first. */
  ghost predicate Around(h: Holders, cands: seq<nat>, p: nat, q: nat, first: set<nat>, last: set<nat>) {
    && p <= q <= |cands|
    && (forall s :: s in cands[..p] <==> s in first) && HeaviestFirst(h, cands[..p])
    && (forall s :: s in cands[q..] <==> s in last) && HeaviestFirst(h, cands[q..])
  }

  /** The other candidates, and those of the donor that are refused. */
  function Others(h: Holders, target: nat, me: nat, outcome: nat -> Handoff, n: nat): set<nat> {
    set s <- h | h[s] != me && Count(h, h[s]) > target && !(h[s] == n && outcome(s) != Refused)
  }

  lemma OrderDonor(h: Holders, target: nat, me: nat, outcome: nat -> Handoff, n: nat, first: set<nat>, last: set<nat>)
    returns (cands: seq<nat>, p: nat, a: nat, b: nat)
    requires n != me && Count(h, n) > target && first <= Others(h, target, me, outcome, n)
    requires last == Others(h, target, me, outcome, n) - first
    ensures DonorNext(h, target, me, outcome, n, cands, p, a, b) && Around(h, cands, p, p + a + b, first, last)
    ensures p == |first|
  {
    var lead, rest := ListBoth(h, first, last);
    cands, p, a, b := OrderMiddle(h, target, me, outcome, n, first, last, lead, rest);
  }

  lemma ListBoth(h: Holders, first: set<nat>, last: set<nat>) returns (lead: seq<nat>, rest: seq<nat>)
    ensures Lists(lead, first) && HeaviestFirst(h, lead) && Lists(rest, last) && HeaviestFirst(h, rest)
  {
    lead := ListingInOrder(h, first);
    rest := ListingInOrder(h, last);
  }

  lemma OrderMiddle(h: Holders, target: nat, me: nat, outcome: nat -> Handoff, n: nat, first: set<nat>, last: set<nat>,
                    lead: seq<nat>, rest: seq<nat>)
    returns (cands: seq<nat>, p: nat, a: nat, b: nat)
    requires n != me && Count(h, n) > target && first <= Others(h, target, me, outcome, n)
    requires last == Others(h, target, me, outcome, n) - first
    requires Lists(lead, first) && HeaviestFirst(h, lead) && Lists(rest, last) && HeaviestFirst(h, rest)
    ensures DonorNext(h, target, me, outcome, n, cands, p, a, b) && Around(h, cands, p, p + a + b, first, last)
    ensures p == |first|
  {
    var lost, completed := ListMiddle(h, outcome, n);
    cands, p, a, b := JoinedCandidates(h, target, me, outcome, n, first, last, lead, lost, completed, rest);
  }

  lemma ListMiddle(h: Holders, outcome: nat -> Handoff, n: nat) returns (lost: seq<nat>, completed: seq<nat>)
    ensures Lists(lost, OfOutcome(h, n, outcome, Lost)) && Lists(completed, OfOutcome(h, n, outcome, Completed))
  {
    lost := Listing(OfOutcome(h, n, outcome, Lost));
    completed := Listing(OfOutcome(h, n, outcome, Completed));
  }

  lemma JoinedCandidates(h: Holders, target: nat, me: nat, outcome: nat -> Handoff, n: nat, first: set<nat>,
                         last: set<nat>, lead: seq<nat>, lost: seq<nat>, completed: seq<nat>, rest: seq<nat>)
    returns (cands: seq<nat>, p: nat, a: nat, b: nat)
    requires n != me && Count(h, n) > target && first <= Others(h, target, me, outcome, n)
    requires last == Others(h, target, me, outcome, n) - first
    requires Lists(lead, first) && HeaviestFirst(h, lead) && Lists(rest, last) && HeaviestFirst(h, rest)
    requires Lists(lost, OfOutcome(h, n, outcome, Lost)) && Lists(completed, OfOutcome(h, n, outcome, Completed))
    ensures DonorNext(h, target, me, outcome, n, cands, p, a, b) && Around(h, cands, p, p + a + b, first, last)
    ensures p == |first|
  {
    JoinedIsDonorNext(h, target, me, outcome, n, first, lead, lost, completed, rest);
    JoinedIsAround(h, first, last, lead, lost, completed, rest);
    cands, p, a, b := lead + lost + completed + rest, |lead|, |lost|, |completed|;
  }

  lemma JoinedIsAround(h: Holders, first: set<nat>, last: set<nat>, lead: seq<nat>, lost: seq<nat>,
                       completed: seq<nat>, rest: seq<nat>)
    requires Lists(lead, first) && HeaviestFirst(h, lead) && Lists(rest, last) && HeaviestFirst(h, rest)
    ensures Around(h, lead + lost + completed + rest, |lead|, |lead| + |lost| + |completed|, first, last)
  {
    var cands := lead + lost + completed + rest;
    assert cands[..|lead|] == lead && cands[|lead| + |lost| + |completed|..] == rest;
  }

  lemma JoinFour(a: seq<nat>, b: seq<nat>, c: seq<nat>, d: seq<nat>)
    requires Distinct(a) && Distinct(b) && Distinct(c) && Distinct(d)
    requires (forall x <- b :: x !in a) && (forall x <- c :: x !in a && x !in b)
    requires forall x <- d :: x !in a && x !in b && x !in c
    ensures Distinct(a + b + c + d)
    ensures forall x :: x in a + b + c + d <==> x in a || x in b || x in c || x in d
  {
    JoinDistinct(a, b);
    JoinDistinct(a + b, c);
    JoinDistinct(a + b + c, d);
  }

  lemma ListingInOrder(h: Holders, s: set<nat>) returns (q: seq<nat>)
    ensures Lists(q, s) && HeaviestFirst(h, q)
  {
    var some := Listing(s);
    SortedInOrder(h, some);
    q := Sorted(h, some);
    SameSize(s, q);
  }

  lemma {:induction false} SameSize(s: set<nat>, q: seq<nat>)
    requires Distinct(q) && forall x :: x in q <==> x in s
    ensures |q| == |s|
  {
    if q == [] {
      assert s == {};
    } else {
      var rest := q[1..];
      assert q == [q[0]] + rest && forall i :: 0 <= i < |rest| ==> rest[i] == q[i + 1];
      SameSize(s - {q[0]}, rest);
    }
  }

  lemma JoinedIsProposed(h: Holders, target: nat, me: nat, outcome: nat -> Handoff, n: nat, first: set<nat>,
                         lead: seq<nat>, lost: seq<nat>, completed: seq<nat>, rest: seq<nat>)
    requires n != me && Count(h, n) > target && first <= Others(h, target, me, outcome, n)
    requires Lists(lead, first) && Lists(rest, Others(h, target, me, outcome, n) - first)
    requires Lists(lost, OfOutcome(h, n, outcome, Lost)) && Lists(completed, OfOutcome(h, n, outcome, Completed))
    ensures Proposed(h, lead + lost + completed + rest, target, me)
  {
    JoinFour(lead, lost, completed, rest);
    forall s ensures s in lead + lost + completed + rest <==> s in h && h[s] != me && Count(h, h[s]) > target {
      CandidateIsListed(h, target, me, outcome, n, s);
    }
  }

  lemma CandidateIsListed(h: Holders, target: nat, me: nat, outcome: nat -> Handoff, n: nat, s: nat)
    requires n != me && Count(h, n) > target
    ensures (s in h && h[s] != me && Count(h, h[s]) > target)
       <==> (s in Others(h, target, me, outcome, n) || s in OfOutcome(h, n, outcome, Lost)
             || s in OfOutcome(h, n, outcome, Completed))
  {
  }

  lemma JoinedIsDonorNext(h: Holders, target: nat, me: nat, outcome: nat -> Handoff, n: nat, first: set<nat>,
                          lead: seq<nat>, lost: seq<nat>, completed: seq<nat>, rest: seq<nat>)
    requires n != me && Count(h, n) > target && first <= Others(h, target, me, outcome, n)
    requires Lists(lead, first) && Lists(rest, Others(h, target, me, outcome, n) - first)
    requires Lists(lost, OfOutcome(h, n, outcome, Lost)) && Lists(completed, OfOutcome(h, n, outcome, Completed))
    ensures DonorNext(h, target, me, outcome, n, lead + lost + completed + rest, |lead|, |lost|, |completed|)
  {
    JoinedIsProposed(h, target, me, outcome, n, first, lead, lost, completed, rest);
    JoinedIsInOrder(lead, lost, completed, rest);
  }

  lemma JoinedIsInOrder(lead: seq<nat>, lost: seq<nat>, completed: seq<nat>, rest: seq<nat>)
    ensures var cands, p, a := lead + lost + completed + rest, |lead|, |lost|;
      && (forall i :: p <= i < p + a ==> cands[i] in lost)
      && (forall i :: p + a <= i < p + a + |completed| ==> cands[i] in completed)
  {
    var cands, p, a := lead + lost + completed + rest, |lead|, |lost|;
    forall i | p <= i < p + a ensures cands[i] in lost { assert cands[i] == lost[i - p]; }
    forall i | p + a <= i < p + a + |completed| ensures cands[i] in completed {
      assert cands[i] == completed[i - p - a];
    }
  }

  /** The donor has its shards and the round, with g shards so far, wants more. */
  ghost predicate Untouched(h: Holders, target: nat, me: nat, n: nat, r: Round, g: nat)
    requires Count(h, me) < target
  {
    r.got == g < Want(h, target, me) && Taken(r.taking, n) == 0 && r.dropped <= h.Keys && LostBy(h, r.dropped, n) == 0
  }

  /** The lost shards all go, since nothing is taken that would stop the requests. */
  lemma {:induction false} LostGoFirst(h: Holders, target: nat, me: nat, outcome: nat -> Handoff, n: nat,
                                       cands: seq<nat>, p: nat, a: nat, b: nat, g: nat, i: nat)
    requires DonorNext(h, target, me, outcome, n, cands, p, a, b) && Asks(h, target, me, cands)
    requires n != me && Count(h, n) > target && p <= i <= p + a
    requires Untouched(h, target, me, n, Through(h, target, me, outcome, cands, p), g)
    ensures var r := Through(h, target, me, outcome, cands, i);
      r.got == g && Taken(r.taking, n) == 0 && r.dropped <= h.Keys && LostBy(h, r.dropped, n) == i - p
  {
    if i > p {
      LostGoFirst(h, target, me, outcome, n, cands, p, a, b, g, i - 1);
      StillHeld(h, target, me, outcome, cands, i - 1);
      assert cands[i - 1] in OfOutcome(h, n, outcome, Lost);
      LostGoes(h, target, me, outcome, n, cands[i - 1], Through(h, target, me, outcome, cands, i - 1));
    }
  }

  lemma LostGoes(h: Holders, target: nat, me: nat, outcome: nat -> Handoff, n: nat, s: nat, r: Round)
    requires s in h && h[s] == n && outcome(s) == Lost && Count(h, n) > target && Count(h, me) < target
    requires Taken(r.taking, n) == 0 && r.got < Want(h, target, me) && r.dropped <= h.Keys && s !in r.dropped
    ensures var r' := Next(h, target, me, outcome, s, r);
      && r'.taking == r.taking && r'.got == r.got && r'.dropped <= h.Keys
      && LostBy(h, r'.dropped, n) == LostBy(h, r.dropped, n) + 1
  {
    LostMore(h, r.dropped, s, n);
  }

  /** A candidate whose turn has not come is still held. */
  lemma StillHeld(h: Holders, target: nat, me: nat, outcome: nat -> Handoff, cands: seq<nat>, k: nat)
    requires Distinct(cands) && Asks(h, target, me, cands) && k < |cands|
    ensures cands[k] !in Through(h, target, me, outcome, cands, k).dropped
  {
    KeptThrough(h, target, me, outcome, cands, k);
  }

  /** What is left of a donor after the round. */
  lemma LeftAfterRound(h: Holders, target: nat, me: nat, outcome: nat -> Handoff, cands: seq<nat>, n: nat)
    requires Distinct(cands) && Asks(h, target, me, cands) && n != me
    ensures var r := Through(h, target, me, outcome, cands, |cands|);
      r.dropped <= h.Keys && Count(r.now, n) == Count(h, n) - Taken(r.taking, n) - LostBy(h, r.dropped, n)
  {
    KeptThrough(h, target, me, outcome, cands, |cands|);
  }

  /** The donor has lost a shards and k completed ones were asked for. */
  ghost predicate Drained(h: Holders, target: nat, me: nat, n: nat, r: Round, g: nat, a: nat, k: nat)
    requires Count(h, me) < target && g < Want(h, target, me)
  {
    && Taken(r.taking, n) == r.got - g == Lesser(k, Lesser(Over(h, target, n), Want(h, target, me) - g))
    && r.dropped <= h.Keys && LostBy(h, r.dropped, n) == a
  }

  /** Then completed ones go, up to what the excess and the asking node allow. */
  lemma {:induction false} CompletedGoNext(h: Holders, target: nat, me: nat, outcome: nat -> Handoff, n: nat,
                                           cands: seq<nat>, p: nat, a: nat, b: nat, g: nat, i: nat)
    requires DonorNext(h, target, me, outcome, n, cands, p, a, b) && Asks(h, target, me, cands)
    requires n != me && Count(h, n) > target && p + a <= i <= p + a + b
    requires Untouched(h, target, me, n, Through(h, target, me, outcome, cands, p), g)
    ensures Drained(h, target, me, n, Through(h, target, me, outcome, cands, i), g, a, i - p - a)
  {
    if i == p + a {
      LostGoFirst(h, target, me, outcome, n, cands, p, a, b, g, p + a);
    } else {
      CompletedGoNext(h, target, me, outcome, n, cands, p, a, b, g, i - 1);
      var r := Through(h, target, me, outcome, cands, i - 1);
      assert cands[i - 1] in OfOutcome(h, n, outcome, Completed);
      CompletedGoes(h, target, me, outcome, n, cands[i - 1], r, g, a, i - 1 - p - a);
    }
  }

  lemma CompletedGoes(h: Holders, target: nat, me: nat, outcome: nat -> Handoff, n: nat, s: nat, r: Round, g: nat,
                      a: nat, k: nat)
    requires s in h && h[s] == n && outcome(s) == Completed && Count(h, n) > target && Count(h, me) < target
    requires g < Want(h, target, me) && Drained(h, target, me, n, r, g, a, k)
    ensures Drained(h, target, me, n, Next(h, target, me, outcome, s, r), g, a, k + 1)
  {
  }

  /** Nothing that was taken or dropped comes back. */
  lemma {:induction false} GoneStaysGone(h: Holders, target: nat, me: nat, outcome: nat -> Handoff, cands: seq<nat>,
                                         k: nat, m: nat, n: nat)
    requires Asks(h, target, me, cands) && k <= m <= |cands|
    ensures var r, t := Through(h, target, me, outcome, cands, k), Through(h, target, me, outcome, cands, m);
      Taken(r.taking, n) <= Taken(t.taking, n) && r.dropped <= t.dropped
  {
    if k < m { GoneStaysGone(h, target, me, outcome, cands, k, m - 1, n); }
  }

  lemma DonorNextTakesMost(h: Holders, target: nat, me: nat, outcome: nat -> Handoff, n: nat, cands: seq<nat>, p: nat,
                           a: nat, b: nat, g: nat)
    requires DonorNext(h, target, me, outcome, n, cands, p, a, b) && Asks(h, target, me, cands)
    requires n != me && Count(h, n) > target
    requires Untouched(h, target, me, n, Through(h, target, me, outcome, cands, p), g)
    ensures Count(RoundOf(h, target, me, outcome, cands).now, n)
         <= Count(h, n) - MostWithin(h, target, outcome, n, Want(h, target, me) - g)
  {
    CompletedGoNext(h, target, me, outcome, n, cands, p, a, b, g, p + a + b);
    DrainedStaysSo(h, target, me, outcome, cands, p + a + b, n, g, a, b);
  }

  lemma DrainedStaysSo(h: Holders, target: nat, me: nat, outcome: nat -> Handoff, cands: seq<nat>, k: nat, n: nat,
                       g: nat, a: nat, b: nat)
    requires Distinct(cands) && Asks(h, target, me, cands) && n != me && k <= |cands| && g < Want(h, target, me)
    requires Drained(h, target, me, n, Through(h, target, me, outcome, cands, k), g, a, b)
    ensures Count(Through(h, target, me, outcome, cands, |cands|).now, n)
         <= Count(h, n) - a - Lesser(b, Lesser(Over(h, target, n), Want(h, target, me) - g))
  {
    GoneStaysGone(h, target, me, outcome, cands, k, |cands|, n);
    LeftAfterRound(h, target, me, outcome, cands, n);
    LostGrows(h, Through(h, target, me, outcome, cands, k).dropped,
              Through(h, target, me, outcome, cands, |cands|).dropped, n);
  }

  lemma LostGrows(h: Holders, before: set<nat>, after: set<nat>, n: nat)
    requires before <= after <= h.Keys
    ensures LostBy(h, before, n) <= LostBy(h, after, n)
  {
    Fits(LostShards(h, before, n), LostShards(h, after, n));
  }

  /** What a donor keeps at the least: every order leaves it that much, and some order no more. */
  lemma FewestLeft(h: Holders, target: nat, me: nat, outcome: nat -> Handoff, n: nat) returns (cands: seq<nat>)
    requires n != me && Count(h, n) > target && Count(h, me) < target
    ensures Proposed(h, cands, target, me)
    ensures Count(RoundOf(h, target, me, outcome, cands).now, n) == Count(h, n) - MostGone(h, target, me, outcome, n)
  {
    var p, a, b;
    cands, p, a, b := OrderDonor(h, target, me, outcome, n, {}, Others(h, target, me, outcome, n));
    ProposedIsAsked(h, target, me, cands);
    assert LostShards(h, {}, n) == {};
    DonorNextTakesMost(h, target, me, outcome, n, cands, p, a, b, 0);
    AtLeastLeft(h, target, me, outcome, cands, n);
  }

  // ------------------------------------------------------------------------------------
  // Exactly when a donor keeps its share
  // ------------------------------------------------------------------------------------

  /** Every order of the candidates leaves a donor at or above its share exactly when its lost
      handoffs and the completed ones the round may still count do not exceed its excess. */
  lemma ShareIsKeptExactly(h: Holders, target: nat, me: nat, outcome: nat -> Handoff, n: nat)
    requires n != me && Count(h, n) > target && Count(h, me) < target
    ensures (forall cands :: Proposed(h, cands, target, me) ==>
               Count(RoundOf(h, target, me, outcome, cands).now, n) >= target)
       <==> MostGone(h, target, me, outcome, n) <= Over(h, target, n)
  {
    var worst := FewestLeft(h, target, me, outcome, n);
    forall cands | Proposed(h, cands, target, me)
      ensures Count(RoundOf(h, target, me, outcome, cands).now, n) >= Count(h, n) - MostGone(h, target, me, outcome, n)
    {
      AtLeastLeft(h, target, me, outcome, cands, n);
    }
  }

  // ------------------------------------------------------------------------------------
  // When every handoff is lost
  // ------------------------------------------------------------------------------------

  lemma {:induction false} AllLostGo(h: Holders, target: nat, me: nat, outcome: nat -> Handoff, cands: seq<nat>, k: nat)
    requires Proposed(h, cands, target, me) && Asks(h, target, me, cands) && k <= |cands|
    requires forall s <- h :: outcome(s) == Lost
    ensures var r := Through(h, target, me, outcome, cands, k);
      r.taking == map[] && r.got == 0 && forall i :: 0 <= i < k ==> cands[i] in r.dropped
  {
    if k > 0 {
      AllLostGo(h, target, me, outcome, cands, k - 1);
      assert cands[k - 1] in cands;
    }
  }

  /** One round whose handoffs are all lost empties every node above the share and gains
      nothing, whatever the order: neither count that could stop it ever rises. */
  lemma AllLostEmptiesDonors(h: Holders, target: nat, me: nat, outcome: nat -> Handoff, cands: seq<nat>, n: nat)
    requires Proposed(h, cands, target, me) && Count(h, me) < target && n != me && Count(h, n) > target
    requires forall s <- h :: outcome(s) == Lost
    ensures RoundOf(h, target, me, outcome, cands).got == 0
    ensures Count(RoundOf(h, target, me, outcome, cands).now, n) == 0
  {
    ProposedIsAsked(h, target, me, cands);
    AllLostGo(h, target, me, outcome, cands, |cands|);
    KeptThrough(h, target, me, outcome, cands, |cands|);
    var r := Through(h, target, me, outcome, cands, |cands|);
    assert forall s <- cands :: s in r.dropped;
    forall s | s in r.now ensures r.now[s] != n { assert s !in cands; }
    assert HeldBy(r.now, n) == {};
  }

  lemma ThreeShards()
    ensures var h: Holders := map[0 := 1, 1 := 1, 2 := 1]; |h| == 3 && Count(h, 1) == 3 && Count(h, 2) == 0
  {
    var h: Holders := map[0 := 1, 1 := 1, 2 := 1];
    assert HeldBy(h, 1) == {0, 1, 2} && HeldBy(h, 2) == {};
    assert |h| == |h.Keys| && h.Keys == {0, 1, 2};
  }

  /** Node 1 holds three shards, one above the share of two; a round of node 2 loses them all. */
  method LostHandoffsEmptyDonor() returns (h: Holders, now: Holders, got: nat)
    ensures Count(h, 1) == 3 && Count(h, 2) == 0 && Target(|h|, 2) == 2
    ensures got == 0 && Count(now, 1) == 0
  {
    h := map[0 := 1, 1 := 1, 2 := 1];
    ThreeShards();
    var outcome := (s: nat) => Lost;
    var dropped;
    ghost var order;
    now, got, dropped, order := RequestRebalance(h, {1, 2}, 2, 2, outcome);
    AllLostEmptiesDonors(h, 2, 2, outcome, order, 1);
  }
}
