/** Battle rooms: scores, the result of a battle, and its settlement in a wallet. */
module Rooms {
  import opened Ledgers

  function ScoreOf(scores: map<nat, int>, uid: nat): int {
    if uid in scores then scores[uid] else 0
  }

  /** No member scored higher. */
  predicate Tops(members: seq<nat>, scores: map<nat, int>, uid: nat) {
    forall other <- members :: ScoreOf(scores, other) <= ScoreOf(scores, uid)
  }

  /** The winners, or the losers, among the first n members, in order. */
  function Ranked(members: seq<nat>, scores: map<nat, int>, n: nat, winners: bool): (r: seq<nat>)
    requires n <= |members|
    ensures forall uid <- r :: uid in members && Tops(members, scores, uid) == winners
    ensures forall i :: 0 <= i < n && Tops(members, scores, members[i]) == winners ==> members[i] in r
  {
    if n == 0 then []
    else
      var before := Ranked(members, scores, n - 1, winners);
      if Tops(members, scores, members[n - 1]) == winners then before + [members[n - 1]] else before
  }

  class Room {
    var members: seq<nat>
    var battling: bool
    var scores: map<nat, int>

    /** No score is ever negative. */
    ghost predicate Inv()
      reads this
    {
      forall uid <- scores :: scores[uid] >= 0
    }

    constructor (members: seq<nat>)
      ensures Inv() && this.members == members && !battling && scores == map[]
    {
      this.members, battling, scores := members, false, map[];
    }

    method AddScore(uid: nat, delta: int) returns (score: int)
      modifies this`scores
      ensures score == ScoreOf(old(scores), uid) + delta && scores == old(scores)[uid := score]
    {
      scores := scores[uid := ScoreOf(scores, uid) + delta];
      return scores[uid];
    }

    /** A scoring operation of a member; the payload's length decides how much it scores. */
    method HandleScore(uid: nat, payload: seq<int>) returns (ok: bool)
      requires Inv()
      modifies this`scores
      ensures Inv() && ok == (uid in members && battling)
      ensures scores == if ok then old(scores)[uid := ScoreOf(old(scores), uid) + |payload| + 1] else old(scores)
    {
      if uid !in members || !battling { return false; }
      var score := AddScore(uid, |payload| + 1);
      return true;
    }

    /** Copies the scores and finds the highest. */
    method Scores() returns (result: map<nat, int>, best: int)
      ensures forall uid :: uid in result <==> uid in members
      ensures forall uid <- result :: result[uid] == ScoreOf(scores, uid)
      ensures forall uid <- members :: ScoreOf(scores, uid) == best <==> Tops(members, scores, uid)
    {
      result, best := map[], 0;
      var first := true;
      ghost var at := 0;
      for i := 0 to |members|
        invariant forall uid :: uid in result <==> uid in members[..i]
        invariant forall uid <- result :: result[uid] == ScoreOf(scores, uid)
        invariant first == (i == 0)
        invariant forall j :: 0 <= j < i ==> ScoreOf(scores, members[j]) <= best
        invariant i > 0 ==> 0 <= at < i && ScoreOf(scores, members[at]) == best
      {
        var score := ScoreOf(scores, members[i]);
        result := result[members[i] := score];
        if first || score > best {
          best, first := score, false;
          at := i;
        }
      }
      if |members| > 0 { assert members[at] in members; }
    }

    /** The winners are exactly the members with the highest score, in order; every score of the
        result is one that the room counted, so none is negative. */
    method Result() returns (result: map<nat, int>, winners: seq<nat>, losers: seq<nat>)
      requires Inv()
      ensures forall uid :: uid in result <==> uid in members
      ensures forall uid <- result :: result[uid] == ScoreOf(scores, uid) >= 0
      ensures winners == Ranked(members, scores, |members|, true)
      ensures losers == Ranked(members, scores, |members|, false)
    {
      var best;
      result, best := Scores();
      winners, losers := [], [];
      for i := 0 to |members|
        invariant winners == Ranked(members, scores, i, true) && losers == Ranked(members, scores, i, false)
      {
        var uid := members[i];
        assert uid in members;
        if ScoreOf(scores, uid) == best { winners := winners + [uid]; } else { losers := losers + [uid]; }
      }
    }

    /** A battle settled by its room never overdraws a wallet. */
    method Settle(wallet: Wallet, uid: nat, key: string, ok: bool) returns (reply: Reply)
      requires Inv() && wallet.Inv() && uid in members
      modifies wallet
      ensures wallet.Inv() && (NonNegative(old(wallet.memory)) ==> NonNegative(wallet.memory))
      ensures wallet.Committed(key, ok, [Post(GOLD, Reward(ScoreOf(scores, uid), Tops(members, scores, uid)))], reply)
      ensures wallet.Recorded(key, reply) && (reply.Done? <==> ok && key !in old(wallet.orders))
      ensures reply.Done? ==>
        wallet.Moved(GOLD, (100 + ScoreOf(scores, uid)) * if Tops(members, scores, uid) then 2 else 1)
    {
      var result, winners, losers := Result();
      reply := wallet.HandleBattleSettle(result[uid], uid in winners, key, ok);
    }
  }
}
