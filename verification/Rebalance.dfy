/** Rebalancing: a node below its share asks nodes above theirs for shards. */
module Rebalance {
  import opened Sums

  const MAX_PER_ROUND: nat := 8

  /** Which node holds each shard. */
  type Holders = map<nat, nat>

  /** The share of each of n nodes, rounded up. */
  function Target(space: nat, n: nat): nat {
    var nodes := if n == 0 then 1 else n;
    (space + nodes - 1) / nodes
  }

  function HeldBy(h: Holders, node: nat): set<nat> {
    set s <- h | h[s] == node
  }

  function Count(h: Holders, node: nat): nat {
    |HeldBy(h, node)|
  }

  function Over(h: Holders, target: nat, node: nat): nat {
    if Count(h, node) > target then Count(h, node) - target else 0
  }

  /** How far the nodes are above their share, all together. */
  ghost function Excess(h: Holders, nodes: set<nat>, target: nat): int {
    Sum(nodes, (n: nat) => Over(h, target, n))
  }

  predicate HeldWithin(h: Holders, nodes: set<nat>) {
    forall s <- h :: h[s] in nodes
  }

  // ------------------------------------------------------------------------------------
  // One handoff
  // ------------------------------------------------------------------------------------

  lemma MoveCounts(h: Holders, shard: nat, me: nat, node: nat)
    requires shard in h && h[shard] != me
    ensures Count(h[shard := me], node)
         == if node == me then Count(h, node) + 1 else if node == h[shard] then Count(h, node) - 1 else Count(h, node)
  {
    var h' := h[shard := me];
    if node == me {
      assert HeldBy(h', node) == HeldBy(h, node) + {shard};
    } else if node == h[shard] {
      assert HeldBy(h', node) == HeldBy(h, node) - {shard};
    } else {
      assert HeldBy(h', node) == HeldBy(h, node);
    }
  }

  lemma DropCounts(h: Holders, shard: nat, node: nat)
    requires shard in h
    ensures Count(h - {shard}, node) == if node == h[shard] then Count(h, node) - 1 else Count(h, node)
  {
    if node == h[shard] {
      assert HeldBy(h - {shard}, node) == HeldBy(h, node) - {shard};
    } else {
      assert HeldBy(h - {shard}, node) == HeldBy(h, node);
    }
  }

  /** If no node is further above the share than before, neither are all together. */
  lemma ExcessFalls(h: Holders, h': Holders, nodes: set<nat>, target: nat)
    requires forall n <- nodes :: Over(h', target, n) <= Over(h, target, n)
    ensures Excess(h', nodes, target) <= Excess(h, nodes, target)
  {
    var f, g := (n: nat) => Over(h, target, n), (n: nat) => Over(h', target, n);
    SumLess(nodes, g, f);
  }

  /** A handoff from a node above its share to one below lowers the excess by one. */
  lemma MoveLowersExcess(h: Holders, nodes: set<nat>, target: nat, shard: nat, me: nat)
    requires shard in h && h[shard] in nodes && Count(h, h[shard]) > target && Count(h, me) < target
    ensures Excess(h[shard := me], nodes, target) == Excess(h, nodes, target) - 1
  {
    var h', donor := h[shard := me], h[shard];
    forall n: nat | n != donor ensures Over(h', target, n) == Over(h, target, n) { MoveCounts(h, shard, me, n); }
    MoveCounts(h, shard, me, donor);
    SumShift(nodes, (n: nat) => Over(h, target, n), (n: nat) => Over(h', target, n), donor);
  }

  // ------------------------------------------------------------------------------------
  // One round
  // ------------------------------------------------------------------------------------

  /** The candidates are distinct shards of other nodes above the share, each of them. */
  ghost predicate Proposed(h: Holders, cands: seq<nat>, target: nat, me: nat) {
    (forall s :: s in cands <==> s in h && h[s] != me && Count(h, h[s]) > target) && Distinct(cands)
  }

  predicate Distinct(q: seq<nat>) {
    forall i, j :: 0 <= i < j < |q| ==> q[i] != q[j]
  }

  function Weight(h: Holders, s: nat): nat {
    if s in h then Count(h, h[s]) else 0
  }

  /** The shards of the heaviest nodes come first. */
  predicate HeaviestFirst(h: Holders, cands: seq<nat>) {
    forall i, j :: 0 <= i < j < |cands| ==> Weight(h, cands[i]) >= Weight(h, cands[j])
  }

  /** Where s goes among candidates already in order. */
  function Inserted(h: Holders, s: nat, cands: seq<nat>): seq<nat> {
    if cands == [] || Weight(h, s) >= Weight(h, cands[0]) then [s] + cands
    else [cands[0]] + Inserted(h, s, cands[1..])
  }

  function Sorted(h: Holders, cands: seq<nat>): seq<nat> {
    if cands == [] then [] else Inserted(h, cands[0], Sorted(h, cands[1..]))
  }

  lemma ConsKeeps(h: Holders, x: nat, rest: seq<nat>)
    requires HeaviestFirst(h, rest) && forall y <- rest :: Weight(h, x) >= Weight(h, y)
    ensures HeaviestFirst(h, [x] + rest)
    ensures Distinct(rest) && x !in rest ==> Distinct([x] + rest)
  {
    var out := [x] + rest;
    assert forall i :: 0 < i < |out| ==> out[i] == rest[i - 1] && rest[i - 1] in rest;
  }

  lemma TailOf(h: Holders, cands: seq<nat>)
    requires cands != [] && HeaviestFirst(h, cands)
    ensures HeaviestFirst(h, cands[1..]) && forall y <- cands[1..] :: Weight(h, cands[0]) >= Weight(h, y)
    ensures Distinct(cands) ==> Distinct(cands[1..]) && cands[0] !in cands[1..]
    ensures forall y :: y in cands <==> y == cands[0] || y in cands[1..]
  {
    var rest := cands[1..];
    assert cands == [cands[0]] + rest;
    assert forall i :: 0 <= i < |rest| ==> rest[i] == cands[i + 1];
  }

  lemma {:induction false} InsertedInOrder(h: Holders, s: nat, cands: seq<nat>)
    requires HeaviestFirst(h, cands)
    ensures HeaviestFirst(h, Inserted(h, s, cands))
    ensures forall y :: y in Inserted(h, s, cands) <==> y == s || y in cands
    ensures Distinct(cands) && s !in cands ==> Distinct(Inserted(h, s, cands))
  {
    if cands == [] {
      ConsKeeps(h, s, cands);
    } else {
      TailOf(h, cands);
      if Weight(h, s) >= Weight(h, cands[0]) {
        ConsKeeps(h, s, cands);
      } else {
        InsertedInOrder(h, s, cands[1..]);
        ConsKeeps(h, cands[0], Inserted(h, s, cands[1..]));
      }
    }
  }

  lemma {:induction false} SortedInOrder(h: Holders, cands: seq<nat>)
    ensures HeaviestFirst(h, Sorted(h, cands))
    ensures forall y :: y in Sorted(h, cands) <==> y in cands
    ensures Distinct(cands) ==> Distinct(Sorted(h, cands))
  {
    if cands != [] {
      var rest := cands[1..];
      assert cands == [cands[0]] + rest;
      assert forall i :: 0 <= i < |rest| ==> rest[i] == cands[i + 1];
      SortedInOrder(h, rest);
      InsertedInOrder(h, cands[0], Sorted(h, rest));
    }
  }

  /** The shards of nodes above their share, those of the heaviest first. */
  method Candidates(h: Holders, target: nat, me: nat) returns (cands: seq<nat>)
    ensures Proposed(h, cands, target, me) && HeaviestFirst(h, cands)
  {
    var found := Collect(h, target, me);
    SortedInOrder(h, found);
    return Sorted(h, found);
  }

  method Collect(h: Holders, target: nat, me: nat) returns (cands: seq<nat>)
    ensures Proposed(h, cands, target, me)
  {
    cands := [];
    var left := h.Keys;
    while left != {}
      invariant left <= h.Keys
      invariant forall s :: s in cands <==> s in h.Keys - left && h[s] != me && Count(h, h[s]) > target
      invariant forall i, j :: 0 <= i < j < |cands| ==> cands[i] != cands[j]
      decreases left
    {
      var s :| s in left;
      left := left - {s};
      if h[s] == me { continue; }
      if Count(h, h[s]) > target { cands := cands + [s]; }
    }
  }

  /** What becomes of a request: the donor refuses, the shard changes hands, or the donor lets it
      go and the claim fails. A lost shard counts for nobody; ClaimedByOther says what changes
      when another node has taken it. */
  datatype Handoff = Refused | Completed | Lost

  function Taken(taking: map<nat, nat>, node: nat): nat {
    if node in taking then taking[node] else 0
  }

  /** How many of the dropped shards were the node's. */
  function LostBy(h: Holders, dropped: set<nat>, node: nat): nat
    requires dropped <= h.Keys
  {
    |LostShards(h, dropped, node)|
  }

  function LostShards(h: Holders, dropped: set<nat>, node: nat): set<nat>
    requires dropped <= h.Keys
  {
    set s <- dropped | h[s] == node
  }

  lemma LostMore(h: Holders, dropped: set<nat>, shard: nat, node: nat)
    requires dropped <= h.Keys && shard in h && shard !in dropped
    ensures LostBy(h, dropped + {shard}, node) == LostBy(h, dropped, node) + if h[shard] == node then 1 else 0
  {
    if h[shard] == node {
      assert LostShards(h, dropped + {shard}, node) == LostShards(h, dropped, node) + {shard};
    } else {
      assert LostShards(h, dropped + {shard}, node) == LostShards(h, dropped, node);
    }
  }

  /** The snapshot less what was taken and dropped is what each node holds now. */
  ghost predicate Accounted(h: Holders, now: Holders, taking: map<nat, nat>, dropped: set<nat>, me: nat) {
    && dropped <= h.Keys && now.Keys == h.Keys - dropped
    && (forall s <- now :: now[s] == h[s] || now[s] == me)
    && (forall n: nat :: n != me ==> Count(now, n) == Count(h, n) - Taken(taking, n) - LostBy(h, dropped, n))
  }

  /** A donor stays at or above the share but for the shards that were dropped. */
  predicate KeepsShare(h: Holders, now: Holders, target: nat, dropped: set<nat>, n: nat)
    requires dropped <= h.Keys
  {
    Count(now, n) == Count(h, n) || (Count(now, n) < Count(h, n) && target <= Count(now, n) + LostBy(h, dropped, n))
  }

  ghost predicate DonorsKeepShare(h: Holders, now: Holders, target: nat, dropped: set<nat>, me: nat)
    requires dropped <= h.Keys
  {
    forall n: nat :: n != me ==> KeepsShare(h, now, target, dropped, n)
  }

  lemma MoveIsAccounted(h: Holders, now: Holders, taking: map<nat, nat>, dropped: set<nat>, target: nat, me: nat,
                        shard: nat)
    requires Accounted(h, now, taking, dropped, me) && DonorsKeepShare(h, now, target, dropped, me)
    requires shard in now && now[shard] == h[shard] != me && Count(h, h[shard]) - Taken(taking, h[shard]) > target
    ensures Accounted(h, now[shard := me], taking[h[shard] := Taken(taking, h[shard]) + 1], dropped, me)
    ensures DonorsKeepShare(h, now[shard := me], target, dropped, me)
    ensures Count(now[shard := me], me) == Count(now, me) + 1
  {
    var now', taking' := now[shard := me], taking[h[shard] := Taken(taking, h[shard]) + 1];
    forall n: nat | n != me
      ensures Count(now', n) == Count(h, n) - Taken(taking', n) - LostBy(h, dropped, n)
      ensures KeepsShare(h, now', target, dropped, n)
    {
      MoveCounts(now, shard, me, n);
      assert KeepsShare(h, now, target, dropped, n);
    }
    MoveCounts(now, shard, me, me);
  }

  lemma DropIsAccounted(h: Holders, now: Holders, taking: map<nat, nat>, dropped: set<nat>, target: nat, me: nat,
                        shard: nat)
    requires Accounted(h, now, taking, dropped, me) && DonorsKeepShare(h, now, target, dropped, me)
    requires shard in now && now[shard] == h[shard] != me && Count(h, h[shard]) - Taken(taking, h[shard]) > target
    ensures Accounted(h, now - {shard}, taking, dropped + {shard}, me)
    ensures DonorsKeepShare(h, now - {shard}, target, dropped + {shard}, me)
    ensures Count(now - {shard}, me) == Count(now, me)
  {
    var now', dropped' := now - {shard}, dropped + {shard};
    forall n: nat | n != me
      ensures Count(now', n) == Count(h, n) - Taken(taking, n) - LostBy(h, dropped', n)
      ensures KeepsShare(h, now', target, dropped', n)
    {
      DropCounts(now, shard, n);
      LostMore(h, dropped, shard, n);
      assert KeepsShare(h, now, target, dropped, n);
    }
    DropCounts(now, shard, me);
  }

  /** The candidate was taken or dropped, or refused, or left because its node is at its share. */
  predicate Dealt(h: Holders, now: Holders, target: nat, me: nat, outcome: nat -> Handoff, s: nat)
    requires s in h
  {
    (s in now ==> now[s] == me) || Count(now, h[s]) <= target || outcome(s) == Refused
  }

  /** Every candidate before k was dealt with; the others are where they were. */
  ghost predicate Tried(h: Holders, now: Holders, cands: seq<nat>, k: nat, target: nat, me: nat,
                        outcome: nat -> Handoff)
    requires Proposed(h, cands, target, me)
  {
    && k <= |cands|
    && (forall i :: 0 <= i < k ==> cands[i] in h && Dealt(h, now, target, me, outcome, cands[i]))
    && (forall i :: k <= i < |cands| ==> cands[i] in h && cands[i] in now && now[cands[i]] == h[cands[i]])
  }

  /** What a round has done so far. */
  datatype Round = Round(now: Holders, taking: map<nat, nat>, dropped: set<nat>, got: nat)

  /** The state of a round that has gone through k candidates. */
  ghost predicate InRound(h: Holders, nodes: set<nat>, target: nat, me: nat, outcome: nat -> Handoff, cands: seq<nat>,
                          k: nat, r: Round) {
    && Proposed(h, cands, target, me)
    && Accounted(h, r.now, r.taking, r.dropped, me) && DonorsKeepShare(h, r.now, target, r.dropped, me)
    && Tried(h, r.now, cands, k, target, me, outcome)
    && Count(r.now, me) == Count(h, me) + r.got
    && Excess(r.now, nodes, target) <= Excess(h, nodes, target)
    && (r.dropped == {} ==> Excess(r.now, nodes, target) == Excess(h, nodes, target) - r.got)
    && (forall s <- r.dropped :: outcome(s) == Lost)
  }

  function Left(h: Holders, r: Round, s: nat): int
    requires s in h
  {
    Count(h, h[s]) - Taken(r.taking, h[s])
  }

  lemma RoundSkips(h: Holders, nodes: set<nat>, target: nat, me: nat, outcome: nat -> Handoff, cands: seq<nat>,
                   k: nat, r: Round)
    requires InRound(h, nodes, target, me, outcome, cands, k, r) && k < |cands|
    requires Left(h, r, cands[k]) <= target || outcome(cands[k]) == Refused
    ensures InRound(h, nodes, target, me, outcome, cands, k + 1, r)
  {
    assert cands[k] in cands;
  }

  function Takes(h: Holders, r: Round, s: nat, me: nat): Round
    requires s in h
  {
    Round(r.now[s := me], r.taking[h[s] := Taken(r.taking, h[s]) + 1], r.dropped, r.got + 1)
  }

  lemma RoundTakes(h: Holders, nodes: set<nat>, target: nat, me: nat, outcome: nat -> Handoff, cands: seq<nat>,
                   k: nat, r: Round)
    requires InRound(h, nodes, target, me, outcome, cands, k, r) && k < |cands|
    requires HeldWithin(h, nodes) && Count(r.now, me) < target && Left(h, r, cands[k]) > target
    ensures InRound(h, nodes, target, me, outcome, cands, k + 1, Takes(h, r, cands[k], me))
  {
    var s := cands[k];
    assert s in cands;
    MoveIsAccounted(h, r.now, r.taking, r.dropped, target, me, s);
    TakenExcess(r.now, nodes, target, s, me);
    if r.dropped == {} { assert Count(r.now, h[s]) == Left(h, r, s); }
    TakeIsTried(h, target, me, outcome, cands, k, r.now);
  }

  lemma TakenExcess(now: Holders, nodes: set<nat>, target: nat, s: nat, me: nat)
    requires s in now && now[s] in nodes && now[s] != me && Count(now, me) < target
    ensures Excess(now[s := me], nodes, target) <= Excess(now, nodes, target)
    ensures Count(now, now[s]) > target ==> Excess(now[s := me], nodes, target) == Excess(now, nodes, target) - 1
  {
    if Count(now, now[s]) > target { MoveLowersExcess(now, nodes, target, s, me); }
    forall n | n in nodes ensures Over(now[s := me], target, n) <= Over(now, target, n) { MoveCounts(now, s, me, n); }
    ExcessFalls(now, now[s := me], nodes, target);
  }

  lemma TakeIsTried(h: Holders, target: nat, me: nat, outcome: nat -> Handoff, cands: seq<nat>, k: nat, now: Holders)
    requires Proposed(h, cands, target, me) && k < |cands| && Tried(h, now, cands, k, target, me, outcome)
    ensures Tried(h, now[cands[k] := me], cands, k + 1, target, me, outcome)
  {
    var now' := now[cands[k] := me];
    assert cands[k] in cands;
    forall i | 0 <= i <= k ensures Dealt(h, now', target, me, outcome, cands[i]) {
      assert cands[i] in cands;
      MoveCounts(now, cands[k], me, h[cands[i]]);
    }
  }

  function Drops(r: Round, s: nat): Round {
    r.(now := r.now - {s}, dropped := r.dropped + {s})
  }

  lemma RoundDrops(h: Holders, nodes: set<nat>, target: nat, me: nat, outcome: nat -> Handoff, cands: seq<nat>,
                   k: nat, r: Round)
    requires InRound(h, nodes, target, me, outcome, cands, k, r) && k < |cands|
    requires Left(h, r, cands[k]) > target && outcome(cands[k]) == Lost
    ensures InRound(h, nodes, target, me, outcome, cands, k + 1, Drops(r, cands[k]))
  {
    var s := cands[k];
    assert s in cands;
    DropIsAccounted(h, r.now, r.taking, r.dropped, target, me, s);
    forall n | n in nodes ensures Over(r.now - {s}, target, n) <= Over(r.now, target, n) { DropCounts(r.now, s, n); }
    ExcessFalls(r.now, r.now - {s}, nodes, target);
    DropIsTried(h, target, me, outcome, cands, k, r.now);
  }

  lemma DropIsTried(h: Holders, target: nat, me: nat, outcome: nat -> Handoff, cands: seq<nat>, k: nat, now: Holders)
    requires Proposed(h, cands, target, me) && k < |cands| && Tried(h, now, cands, k, target, me, outcome)
    ensures Tried(h, now - {cands[k]}, cands, k + 1, target, me, outcome)
  {
    var now' := now - {cands[k]};
    assert cands[k] in cands;
    forall i | 0 <= i <= k ensures Dealt(h, now', target, me, outcome, cands[i]) {
      assert cands[i] in cands;
      DropCounts(now, cands[k], h[cands[i]]);
    }
  }

  /** A round that ran out of candidates, none refused, leaves nobody above the share. */
  lemma ExhaustedIsBalanced(h: Holders, target: nat, me: nat, outcome: nat -> Handoff, cands: seq<nat>, r: Round,
                            n: nat)
    requires Proposed(h, cands, target, me) && Accounted(h, r.now, r.taking, r.dropped, me)
    requires Tried(h, r.now, cands, |cands|, target, me, outcome)
    requires n != me && forall s <- h :: outcome(s) != Refused
    ensures Count(r.now, n) <= target
  {
    assert Count(h, n) >= Count(r.now, n);
    if Count(h, n) > target && HeldBy(r.now, n) != {} {
      var s :| s in HeldBy(r.now, n);
      assert h[s] == n && s in cands;
      var i :| 0 <= i < |cands| && cands[i] == s;
      assert Dealt(h, r.now, target, me, outcome, cands[i]);
    }
  }

  lemma RoundStarts(h: Holders, nodes: set<nat>, target: nat, me: nat, outcome: nat -> Handoff, cands: seq<nat>)
    requires Proposed(h, cands, target, me)
    ensures InRound(h, nodes, target, me, outcome, cands, 0, Round(h, map[], {}, 0))
  {
    assert forall i :: 0 <= i < |cands| ==> cands[i] in cands;
    forall n: nat ensures LostBy(h, {}, n) == 0 { assert LostShards(h, {}, n) == {}; }
  }

  lemma RoundEnds(h: Holders, nodes: set<nat>, target: nat, me: nat, outcome: nat -> Handoff, cands: seq<nat>, k: nat,
                  r: Round)
    requires InRound(h, nodes, target, me, outcome, cands, k, r)
    requires HeldWithin(h, nodes) && me in nodes
    ensures HeldWithin(r.now, nodes)
    ensures k == |cands| && (forall s <- h :: outcome(s) != Refused) ==>
      forall n: nat :: n != me ==> Count(r.now, n) <= target
  {
    if k == |cands| && (forall s <- h :: outcome(s) != Refused) {
      forall n: nat | n != me ensures Count(r.now, n) <= target {
        ExhaustedIsBalanced(h, target, me, outcome, cands, r, n);
      }
    }
  }

  /** How many shards the node asks for in a round. */
  function Want(h: Holders, target: nat, me: nat): nat
    requires Count(h, me) < target
  {
    if target - Count(h, me) > MAX_PER_ROUND then MAX_PER_ROUND else target - Count(h, me)
  }

  /** What one candidate does to a round. */
  function Handled(h: Holders, target: nat, me: nat, outcome: nat -> Handoff, s: nat, r: Round): Round
    requires s in h
  {
    if Left(h, r, s) <= target || outcome(s) == Refused then r
    else if outcome(s) == Completed then Takes(h, r, s, me)
    else Drops(r, s)
  }

  /** The round after the first k candidates; it stops when it has what it wants. */
  function Through(h: Holders, target: nat, me: nat, outcome: nat -> Handoff, cands: seq<nat>, k: nat): Round
    requires k <= |cands| && Count(h, me) < target && AllHeld(h, cands)
  {
    if k == 0 then Round(h, map[], {}, 0)
    else Next(h, target, me, outcome, cands[k - 1], Through(h, target, me, outcome, cands, k - 1))
  }

  predicate AllHeld(h: Holders, cands: seq<nat>) {
    forall i :: 0 <= i < |cands| ==> cands[i] in h
  }

  function Next(h: Holders, target: nat, me: nat, outcome: nat -> Handoff, s: nat, r: Round): Round
    requires s in h && Count(h, me) < target
  {
    if r.got >= Want(h, target, me) then r else Handled(h, target, me, outcome, s, r)
  }

  lemma {:induction false} StopsWhenSatisfied(h: Holders, target: nat, me: nat, outcome: nat -> Handoff,
                                              cands: seq<nat>, k: nat, m: nat)
    requires k <= m <= |cands| && Count(h, me) < target && AllHeld(h, cands)
    requires Through(h, target, me, outcome, cands, k).got >= Want(h, target, me)
    ensures Through(h, target, me, outcome, cands, m) == Through(h, target, me, outcome, cands, k)
  {
    if k < m { StopsWhenSatisfied(h, target, me, outcome, cands, k, m - 1); }
  }

  lemma ProposedAreHeld(h: Holders, cands: seq<nat>, target: nat, me: nat)
    requires Proposed(h, cands, target, me)
    ensures forall i :: 0 <= i < |cands| ==> cands[i] in h && h[cands[i]] != me && Count(h, h[cands[i]]) > target
  {
    forall i | 0 <= i < |cands| ensures cands[i] in h && h[cands[i]] != me && Count(h, h[cands[i]]) > target {
      assert cands[i] in cands;
    }
  }

  /** The round over all candidates in this order. */
  ghost function RoundOf(h: Holders, target: nat, me: nat, outcome: nat -> Handoff, cands: seq<nat>): Round
    requires Proposed(h, cands, target, me) && Count(h, me) < target
  {
    ProposedAreHeld(h, cands, target, me);
    Through(h, target, me, outcome, cands, |cands|)
  }

  /** One round of requests by a node below its share, on a current snapshot with every shard
      taken; outcome tells what becomes of each request. Only a lost handoff, which the count of
      what was taken does not include, can bring a donor below its share. */
  method RequestRebalance(h: Holders, nodes: set<nat>, target: nat, me: nat, outcome: nat -> Handoff)
    returns (now: Holders, got: nat, dropped: set<nat>, ghost order: seq<nat>)
    requires HeldWithin(h, nodes) && me in nodes && Count(h, me) < target
    ensures Proposed(h, order, target, me) && HeaviestFirst(h, order)
    ensures var r := RoundOf(h, target, me, outcome, order); now == r.now && got == r.got && dropped == r.dropped
    ensures dropped <= h.Keys && now.Keys == h.Keys - dropped && HeldWithin(now, nodes)
    ensures forall s <- dropped :: outcome(s) == Lost
    ensures DonorsKeepShare(h, now, target, dropped, me)
    ensures Count(now, me) == Count(h, me) + got <= target && got <= MAX_PER_ROUND
    ensures Excess(now, nodes, target) <= Excess(h, nodes, target)
    ensures dropped == {} ==> Excess(now, nodes, target) == Excess(h, nodes, target) - got
    ensures (forall s <- h :: outcome(s) != Refused) ==>
      got == MAX_PER_ROUND || Count(now, me) == target || forall n: nat :: Count(now, n) <= target
  {
    var cands := Candidates(h, target, me);
    ProposedAreHeld(h, cands, target, me);
    var r := RunRound(h, target, me, outcome, cands);
    ghost var rs := UnfoldRound(h, target, me, outcome, cands);
    ghost var k := GoesThrough(h, nodes, target, me, outcome, cands, rs, |cands|);
    RoundEnds(h, nodes, target, me, outcome, cands, k, r);
    return r.now, r.got, r.dropped, cands;
  }

  /** Goes through the candidates until it has what it wants. */
  method RunRound(h: Holders, target: nat, me: nat, outcome: nat -> Handoff, cands: seq<nat>) returns (r: Round)
    requires Count(h, me) < target && AllHeld(h, cands)
    ensures r == Through(h, target, me, outcome, cands, |cands|)
  {
    var want := target - Count(h, me);
    if want > MAX_PER_ROUND { want := MAX_PER_ROUND; }
    r := Round(h, map[], {}, 0);
    var i := 0;
    while i < |cands| && r.got < want
      invariant i <= |cands| && r == Through(h, target, me, outcome, cands, i)
    {
      r := Handle(h, target, me, outcome, cands[i], r);
      i := i + 1;
    }
    if i < |cands| { StopsWhenSatisfied(h, target, me, outcome, cands, i, |cands|); }
  }

  /** Asks for one candidate, unless its node would then be below the share by the count of what
      was taken. */
  method Handle(h: Holders, target: nat, me: nat, outcome: nat -> Handoff, s: nat, r: Round) returns (r': Round)
    requires s in h
    ensures r' == Handled(h, target, me, outcome, s, r)
  {
    if Count(h, h[s]) - Taken(r.taking, h[s]) <= target { return r; }
    if outcome(s) == Refused { return r; }
    if outcome(s) == Completed { return Takes(h, r, s, me); }
    return Drops(r, s);
  }

  /** The rounds after each candidate. */
  ghost predicate Unfolds(h: Holders, target: nat, me: nat, outcome: nat -> Handoff, cands: seq<nat>, rs: seq<Round>) {
    && Count(h, me) < target && AllHeld(h, cands) && |rs| == |cands| + 1 && rs[0] == Round(h, map[], {}, 0)
    && (forall i :: 0 <= i < |cands| ==> rs[i + 1] == Next(h, target, me, outcome, cands[i], rs[i]))
  }

  lemma UnfoldRound(h: Holders, target: nat, me: nat, outcome: nat -> Handoff, cands: seq<nat>) returns (rs: seq<Round>)
    requires Count(h, me) < target && AllHeld(h, cands)
    ensures Unfolds(h, target, me, outcome, cands, rs)
    ensures rs[|cands|] == Through(h, target, me, outcome, cands, |cands|)
  {
    rs := seq(|cands| + 1, k requires 0 <= k <= |cands| => Through(h, target, me, outcome, cands, k));
  }

  /** The state of a round is that of the n candidates it has gone through before it stopped. */
  lemma {:induction false} GoesThrough(h: Holders, nodes: set<nat>, target: nat, me: nat, outcome: nat -> Handoff,
                                       cands: seq<nat>, rs: seq<Round>, k: nat)
    returns (n: nat)
    requires HeldWithin(h, nodes) && Unfolds(h, target, me, outcome, cands, rs) && k <= |cands|
    requires Proposed(h, cands, target, me)
    ensures rs[k].got <= Want(h, target, me) && n <= k && (n < k ==> rs[k].got >= Want(h, target, me))
    ensures InRound(h, nodes, target, me, outcome, cands, n, rs[k])
  {
    if k == 0 {
      n := 0;
      RoundStarts(h, nodes, target, me, outcome, cands);
    } else {
      n := GoesThrough(h, nodes, target, me, outcome, cands, rs, k - 1);
      n := NextInRound(h, nodes, target, me, outcome, cands, k - 1, n, rs[k - 1], rs[k]);
    }
  }

  lemma NextInRound(h: Holders, nodes: set<nat>, target: nat, me: nat, outcome: nat -> Handoff, cands: seq<nat>,
                    k: nat, n: nat, r: Round, r': Round)
    returns (n': nat)
    requires HeldWithin(h, nodes) && Count(h, me) < target && n <= k < |cands| && cands[k] in h
    requires InRound(h, nodes, target, me, outcome, cands, n, r) && r.got <= Want(h, target, me)
    requires n < k ==> r.got >= Want(h, target, me)
    requires r' == Next(h, target, me, outcome, cands[k], r)
    ensures r'.got <= Want(h, target, me) && n' <= k + 1 && (n' < k + 1 ==> r'.got >= Want(h, target, me))
    ensures InRound(h, nodes, target, me, outcome, cands, n', r')
  {
    if r.got >= Want(h, target, me) { return n; }
    HandledKeepsRound(h, nodes, target, me, outcome, cands, k, r);
    return k + 1;
  }

  lemma HandledKeepsRound(h: Holders, nodes: set<nat>, target: nat, me: nat, outcome: nat -> Handoff, cands: seq<nat>,
                          i: nat, r: Round)
    requires HeldWithin(h, nodes) && Count(h, me) < target && i < |cands| && r.got < Want(h, target, me)
    requires InRound(h, nodes, target, me, outcome, cands, i, r) && cands[i] in h
    ensures InRound(h, nodes, target, me, outcome, cands, i + 1, Handled(h, target, me, outcome, cands[i], r))
    ensures Handled(h, target, me, outcome, cands[i], r).got <= r.got + 1
  {
    if Left(h, r, cands[i]) <= target || outcome(cands[i]) == Refused {
      RoundSkips(h, nodes, target, me, outcome, cands, i, r);
    } else if outcome(cands[i]) == Completed {
      RoundTakes(h, nodes, target, me, outcome, cands, i, r);
    } else {
      RoundDrops(h, nodes, target, me, outcome, cands, i, r);
    }
  }

  /** A node that has taken a lost shard holds one more, and the excess rises by at most one. */
  lemma ClaimedByOther(now: Holders, nodes: set<nat>, target: nat, s: nat, node: nat)
    requires s !in now && node in nodes
    ensures forall n: nat :: Count(now[s := node], n) == Count(now, n) + if n == node then 1 else 0
    ensures Excess(now, nodes, target) <= Excess(now[s := node], nodes, target) <= Excess(now, nodes, target) + 1
  {
    var later := now[s := node];
    assert later - {s} == now;
    forall n: nat ensures Count(later, n) == Count(now, n) + if n == node then 1 else 0 { DropCounts(later, s, n); }
    SumShift(nodes, (n: nat) => Over(now, target, n), (n: nat) => Over(later, target, n), node);
  }

  // ------------------------------------------------------------------------------------
  // Rounds end balanced
  // ------------------------------------------------------------------------------------

  /** The counts of all nodes add up to the shards. */
  lemma {:induction false} CountsAddUp(h: Holders, nodes: set<nat>)
    requires HeldWithin(h, nodes)
    ensures Sum(nodes, (n: nat) => Count(h, n)) == |h|
    decreases |h|
  {
    if h == map[] {
      forall n: nat ensures Count(h, n) == 0 { assert HeldBy(h, n) == {}; }
      SumAtMost(nodes, (n: nat) => Count(h, n), 0);
      SumAtLeast(nodes, (n: nat) => Count(h, n), 0);
    } else {
      var s :| s in h;
      var rest := h - {s};
      CountsAddUp(rest, nodes);
      forall n: nat ensures Count(h, n) == Count(rest, n) + if n == h[s] then 1 else 0 {
        DropCounts(h, s, n);
      }
      SumShift(nodes, (n: nat) => Count(rest, n), (n: nat) => Count(h, n), h[s]);
      assert rest.Keys == h.Keys - {s};
    }
  }

  lemma TargetCovers(space: nat, n: nat)
    requires n > 0
    ensures space <= n * Target(space, n)
  {
    var q, r := (space + n - 1) / n, (space + n - 1) % n;
    assert space + n - 1 == n * q + r;
  }

  /** The share is the least with which the nodes can hold all shards. */
  lemma TargetIsLeast(space: nat, n: nat)
    requires n > 0
    ensures forall share: nat :: space <= n * share <==> Target(space, n) <= share
  {
    var q := Target(space, n);
    TargetCovers(space, n);
    assert n * q < space + n;
    forall share: nat ensures space <= n * share <==> q <= share {
      if q <= share { Grows(n, q, share); } else { Grows(n, share, q - 1); }
    }
  }

  lemma Grows(n: nat, a: int, b: int)
    requires a <= b
    ensures n * a <= n * b
  {
  }

  /** While some node is above the share, another is below it. */
  lemma SomeoneIsBelow(h: Holders, nodes: set<nat>, heavy: nat) returns (light: nat)
    requires HeldWithin(h, nodes) && heavy in nodes && Count(h, heavy) > Target(|h|, |nodes|)
    ensures light in nodes && Count(h, light) < Target(|h|, |nodes|)
  {
    var target := Target(|h|, |nodes|);
    var f, g := (n: nat) => Count(h, n), (n: nat) => if n == heavy then target else Count(h, n);
    if forall n <- nodes :: Count(h, n) >= target {
      CountsAddUp(h, nodes);
      SumShift(nodes, f, g, heavy);
      SumAtLeast(nodes, g, target);
      TargetCovers(|h|, |nodes|);
      assert false;
    }
    light :| light in nodes && Count(h, light) < target;
  }

  lemma ExcessIsZero(h: Holders, nodes: set<nat>, target: nat)
    ensures Excess(h, nodes, target) >= 0
    ensures Excess(h, nodes, target) == 0 <==> forall n <- nodes :: Count(h, n) <= target
  {
    var f := (n: nat) => Over(h, target, n);
    SumAtLeast(nodes, f, 0);
    if forall n <- nodes :: Count(h, n) <= target { SumAtMost(nodes, f, 0); }
    forall n | n in nodes ensures f(n) <= Excess(h, nodes, target) {
      SumTake(nodes, f, n);
      SumAtLeast(nodes - {n}, f, 0);
    }
  }

  /** Rounds of granted requests, each by some node below its share, end with every node at
      or below it. The excess bounds their number. */
  method Balance(h: Holders, nodes: set<nat>) returns (now: Holders, rounds: nat)
    requires HeldWithin(h, nodes) && nodes != {}
    ensures now.Keys == h.Keys && HeldWithin(now, nodes)
    ensures forall n <- nodes :: Count(now, n) <= Target(|h|, |nodes|)
    ensures rounds <= Excess(h, nodes, Target(|h|, |nodes|))
  {
    var target := Target(|h|, |nodes|);
    now, rounds := h, 0;
    ExcessIsZero(h, nodes, target);
    while exists heavy <- nodes :: Count(now, heavy) > target
      invariant now.Keys == h.Keys && HeldWithin(now, nodes)
      invariant 0 <= Excess(now, nodes, target) <= Excess(h, nodes, target) - rounds
      decreases Excess(now, nodes, target)
    {
      var heavy :| heavy in nodes && Count(now, heavy) > target;
      ExcessIsZero(now, nodes, target);
      assert |now| == |now.Keys| == |h.Keys| == |h|;
      ghost var below := SomeoneIsBelow(now, nodes, heavy);
      var light :| light in nodes && Count(now, light) < target;
      var got, dropped;
      ghost var order;
      now, got, dropped, order := RequestRebalance(now, nodes, target, light, s => Completed);
      ExcessIsZero(now, nodes, target);
      rounds := rounds + 1;
    }
  }
}
