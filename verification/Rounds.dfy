/** A round: one paid spin and the free spins it wins, each free spin rebuilding the position
    of the random stream from the round's seed. Counters are 32 bits wide. */
module Rounds {
  import opened Keyspace
  import opened Rng
  import opened Slots

  /** A spin as a function of the stream, the multiplier and whether it is free. */
  type Engine = (Stream, nat, bool) -> (Result, Stream)

  ghost predicate Asked(s: Stream, mult: nat, free: bool) { true }

  /** The engine is that of the machine at this bet, for whoever asks. */
  ghost predicate Plays(e: Engine, m: Machine, bet: nat)
    requires Valid(m)
  {
    forall s, mult, free {:trigger Asked(s, mult, free)} :: Asked(s, mult, free) ==>
      e(s, mult, free) == SpinOf(m, s, bet, mult, free)
  }

  datatype Game = Game(engine: Engine, freeMult: nat)

  ghost function GameOf(m: Machine, bet: nat): (g: Game)
    requires Valid(m)
    ensures Plays(g.engine, m, bet) && g.freeMult == m.freeMult
  {
    assert Plays((s: Stream, mult: nat, free: bool) => SpinOf(m, s, bet, mult, free), m, bet);
    var e: Engine :| Plays(e, m, bet);
    Game(e, m.freeMult)
  }

  // ------------------------------------------------------------------------------------
  // The audit's replay and the fast-forward
  // ------------------------------------------------------------------------------------

  /** Where a replay stands: the stream, the free spins left and their multiplier. */
  datatype Progress = Progress(stream: Stream, left: nat, mult: nat)

  ghost function SpinAt(g: Game, p: Progress): (Result, Stream) {
    g.engine(p.stream, if p.left > 0 then p.mult else 1, p.left > 0)
  }

  function LeftAfter(left: nat, awarded: nat): nat {
    ((if left > 0 then left - 1 else left) + awarded) % UINT32_SPAN
  }

  function Boost(freeMult: nat): nat {
    if freeMult == 0 then 1 else freeMult
  }

  /** One turn of the audit's replay. */
  ghost function Replayed(g: Game, p: Progress): Progress {
    var (r, s) := SpinAt(g, p);
    Progress(s, LeftAfter(p.left, r.awarded), if r.awarded > 0 then Boost(g.freeMult) else p.mult)
  }

  /** One turn of the fast-forward, which leaves the multiplier alone when none is set. */
  ghost function Forwarded(g: Game, p: Progress): Progress {
    var (r, s) := SpinAt(g, p);
    Progress(s, LeftAfter(p.left, r.awarded), if r.awarded > 0 && g.freeMult > 0 then g.freeMult else p.mult)
  }

  ghost function ReplayTo(g: Game, gen: seq<nat> -> nat, n: nat): Progress {
    if n == 0 then Progress(Stream(gen, []), 0, 1) else Replayed(g, ReplayTo(g, gen, n - 1))
  }

  ghost function ForwardTo(g: Game, gen: seq<nat> -> nat, n: nat): Progress {
    if n == 0 then Progress(Stream(gen, []), 0, 1) else Forwarded(g, ForwardTo(g, gen, n - 1))
  }

  /** The first n results of the replay of a seed. */
  ghost function Results(g: Game, gen: seq<nat> -> nat, n: nat): (out: seq<Result>)
    ensures |out| == n
  {
    if n == 0 then [] else Results(g, gen, n - 1) + [SpinAt(g, ReplayTo(g, gen, n - 1)).0]
  }

  /** The fast-forward reaches exactly the point that the replay reaches. */
  lemma {:induction false} ForwardIsReplay(g: Game, gen: seq<nat> -> nat, n: nat)
    ensures ForwardTo(g, gen, n) == ReplayTo(g, gen, n)
    ensures ReplayTo(g, gen, n).mult > 0 && (g.freeMult == 0 ==> ReplayTo(g, gen, n).mult == 1)
  {
    if n > 0 { ForwardIsReplay(g, gen, n - 1); }
  }

  /** Each result of the replay is the machine's spin at that point. */
  lemma ReplayIsSpins(m: Machine, gen: seq<nat> -> nat, bet: nat, n: nat, k: nat)
    requires Valid(m) && k < n
    ensures var p := ReplayTo(GameOf(m, bet), gen, k);
      Results(GameOf(m, bet), gen, n)[k] == SpinOf(m, p.stream, bet, if p.left > 0 then p.mult else 1, p.left > 0).0
  {
    var g := GameOf(m, bet);
    ResultsAt(g, gen, n, k);
    var p := ReplayTo(g, gen, k);
    assert Asked(p.stream, if p.left > 0 then p.mult else 1, p.left > 0);
  }

  lemma {:induction false} ResultsAt(g: Game, gen: seq<nat> -> nat, n: nat, k: nat)
    requires k < n
    ensures Results(g, gen, n)[k] == SpinAt(g, ReplayTo(g, gen, k)).0
  {
    if k < n - 1 { ResultsAt(g, gen, n - 1, k); }
  }

  lemma TurnBoosts(g: Game, p: Progress)
    requires p.left > 0 ==> p.mult == Boost(g.freeMult)
    ensures Replayed(g, p).left > 0 ==> Replayed(g, p).mult == Boost(g.freeMult)
  {
    var awarded := SpinAt(g, p).0.awarded;
    assert p.left == 0 && awarded == 0 ==> LeftAfter(p.left, awarded) == 0;
  }

  /** While free spins are left the replay plays at the machine's multiplier. */
  lemma {:induction false} ReplayBoosts(g: Game, gen: seq<nat> -> nat, k: nat)
    ensures ReplayTo(g, gen, k).left > 0 ==> ReplayTo(g, gen, k).mult == Boost(g.freeMult)
  {
    if k > 0 {
      ReplayBoosts(g, gen, k - 1);
      TurnBoosts(g, ReplayTo(g, gen, k - 1));
    }
  }

  /** A turn of a game is a spin of its machine. */
  lemma TurnSpins(m: Machine, bet: nat, p: Progress)
    requires Valid(m)
    ensures SpinAt(GameOf(m, bet), p) == SpinOf(m, p.stream, bet, if p.left > 0 then p.mult else 1, p.left > 0)
  {
    assert Asked(p.stream, if p.left > 0 then p.mult else 1, p.left > 0);
  }

  lemma WorthWhenBoosted(m: Machine, bet: nat, r: Result)
    requires Valid(m) && Worth(m, bet, Boost(m.freeMult), true, r)
    ensures Worth(m, bet, m.freeMult, true, r)
  {
  }

  lemma TurnPays(m: Machine, bet: nat, p: Progress)
    requires Valid(m) && (p.left > 0 ==> p.mult == Boost(m.freeMult))
    ensures Worth(m, bet, if p.left > 0 then m.freeMult else 1, p.left > 0, SpinAt(GameOf(m, bet), p).0)
  {
    TurnSpins(m, bet, p);
    if p.left > 0 {
      SpinIsWorth(m, p.stream, bet, p.mult, true);
      WorthWhenBoosted(m, bet, SpinAt(GameOf(m, bet), p).0);
    } else {
      SpinIsWorth(m, p.stream, bet, 1, false);
    }
  }

  lemma TurnDraws(m: Machine, bet: nat, p: Progress)
    requires Valid(m)
    ensures var t := SpinAt(GameOf(m, bet), p).1;
      t.gen == p.stream.gen && p.stream.drawn + Lengths(m.reels) <= t.drawn
  {
    TurnSpins(m, bet, p);
    SpinDraws(m, p.stream, bet, if p.left > 0 then p.mult else 1, p.left > 0);
  }

  /** Every replayed result is worth what its symbols pay, free spins at the machine's multiplier
      and paid ones at one; a free spin uses up one of those left. */
  lemma ReplayIsWorth(m: Machine, gen: seq<nat> -> nat, bet: nat, n: nat, k: nat)
    requires Valid(m) && k < n
    ensures var g := GameOf(m, bet); var left := ReplayTo(g, gen, k).left;
      && Worth(m, bet, if left > 0 then m.freeMult else 1, left > 0, Results(g, gen, n)[k])
      && ReplayTo(g, gen, k + 1).left
         == ((if left > 0 then left - 1 else 0) + Results(g, gen, n)[k].awarded) % UINT32_SPAN
  {
    var g := GameOf(m, bet);
    ReplayBoosts(g, gen, k);
    ResultsAt(g, gen, n, k);
    TurnPays(m, bet, ReplayTo(g, gen, k));
  }

  /** Every spin goes on in the stream where the one before stopped. */
  lemma {:induction false} ReplayMovesOn(m: Machine, gen: seq<nat> -> nat, bet: nat, k: nat)
    requires Valid(m)
    ensures var g := GameOf(m, bet); var here, next := ReplayTo(g, gen, k).stream, ReplayTo(g, gen, k + 1).stream;
      here.gen == next.gen == gen && here.drawn + Lengths(m.reels) <= next.drawn
  {
    if k > 0 { ReplayMovesOn(m, gen, bet, k - 1); }
    TurnDraws(m, bet, ReplayTo(GameOf(m, bet), gen, k));
  }

  /** A spin of the machine, seen as a turn of its game. */
  method Draw(m: Machine, src: Source, bet: int, mult: nat, free: bool) returns (res: Option<Result>)
    requires Valid(m)
    modifies src
    ensures res.None? <==> bet <= 0
    ensures res.Some? ==> (res.value, src.stream) == GameOf(m, bet).engine(old(src.stream), mult, free)
  {
    var wins;
    assert Asked(src.stream, mult, free);
    res, wins := Spin(m, src, bet, mult, free);
  }

  /** The audit entry point. */
  method Replay(m: Machine, gen: seq<nat> -> nat, bet: int, spins: nat) returns (out: Option<seq<Result>>)
    requires Valid(m)
    ensures out.None? <==> bet <= 0 && spins > 0
    ensures out.Some? && bet > 0 ==> out.value == Results(GameOf(m, bet), gen, spins)
  {
    var src := new Source(gen);
    var list: seq<Result> := [];
    var left: nat, multiplier: nat := 0, 1;
    for i := 0 to spins
      invariant i > 0 ==> bet > 0
      invariant bet > 0 ==> Progress(src.stream, left, multiplier) == ReplayTo(GameOf(m, bet), gen, i)
      invariant bet > 0 ==> list == Results(GameOf(m, bet), gen, i)
    {
      var free := left > 0;
      var mult := 1;
      if free { mult, left := multiplier, left - 1; }
      var res := Draw(m, src, bet, mult, free);
      if res.None? { return None; }
      if res.value.awarded > 0 {
        left, multiplier := left + res.value.awarded, m.freeMult;
        if multiplier == 0 { multiplier := 1; }
      }
      left := left % UINT32_SPAN;
      list := list + [res.value];
    }
    return Some(list);
  }

  // ------------------------------------------------------------------------------------
  // The online round
  // ------------------------------------------------------------------------------------

  datatype Round = Round(
    id: nat, gen: seq<nat> -> nat, bet: int, spinIndex: nat, totalWin: int,
    left: nat, total: nat, mult: nat, open: bool)

  /** A round as a paid spin opens it. */
  function Opened(id: nat, gen: seq<nat> -> nat, bet: int): Round {
    Round.Round(id, gen, bet, 0, 0, 0, 0, 1, true)
  }

  /** The spin counted into the round; a free spin uses up one of those left. */
  function Advanced(freeMult: nat, r: Round, result: Result): Round {
    r.(spinIndex := (r.spinIndex + 1) % UINT32_SPAN, totalWin := r.totalWin + result.totalWin,
       left := LeftAfter(r.left, result.awarded), total := (r.total + result.awarded) % UINT32_SPAN,
       mult := if result.awarded > 0 then Boost(freeMult) else r.mult)
  }

  ghost function Won(played: seq<Result>): int {
    if played == [] then 0 else Won(played[..|played| - 1]) + played[|played| - 1].totalWin
  }

  ghost function Awarded(played: seq<Result>): nat {
    if played == [] then 0 else Awarded(played[..|played| - 1]) + played[|played| - 1].awarded
  }

  /** The round's counters after the spins it has played. */
  ghost predicate Counted(r: Round, played: seq<Result>) {
    && r.spinIndex == |played| % UINT32_SPAN && r.totalWin == Won(played)
    && r.total == Awarded(played) % UINT32_SPAN
    && r.left == (Awarded(played) - (|played| - 1)) % UINT32_SPAN
    && (Awarded(played) < UINT32_SPAN ==> r.left == Awarded(played) - (|played| - 1))
  }

  /** The round has played what the audit replays from its seed, and stands where the
      replay stands. */
  ghost predicate Follows(g: Game, r: Round, played: seq<Result>) {
    && played == Results(g, r.gen, |played|)
    && r.left == ReplayTo(g, r.gen, |played|).left
    && r.mult == ReplayTo(g, r.gen, |played|).mult
  }

  /** The result of the round's next spin. */
  ghost function TurnOf(g: Game, r: Round): Result {
    if r.left > 0 then g.engine(ForwardTo(g, r.gen, r.spinIndex).stream, if r.mult != 0 then r.mult else 1, true).0
    else g.engine(Stream(r.gen, []), 1, false).0
  }

  /** The round is new, or open and in step. */
  ghost predicate InStep(g: Game, r: Round, played: seq<Result>) {
    && |played| < UINT32_SPAN
    && (played == [] ==> r == Opened(r.id, r.gen, r.bet))
    && (played != [] ==> r.left > 0 && Follows(g, r, played) && Counted(r, played))
  }

  lemma TurnIsReplayed(g: Game, r: Round, played: seq<Result>)
    requires InStep(g, r, played)
    ensures TurnOf(g, r) == SpinAt(g, ReplayTo(g, r.gen, |played|)).0
    ensures r.left == ReplayTo(g, r.gen, |played|).left && r.mult == ReplayTo(g, r.gen, |played|).mult
  {
    ForwardIsReplay(g, r.gen, |played|);
    if played != [] { assert r.spinIndex == |played|; }
  }

  /** A committed spin keeps the round in step with the replay. */
  lemma AdvanceFollows(g: Game, r: Round, played: seq<Result>)
    requires InStep(g, r, played)
    ensures var next := Advanced(g.freeMult, r, TurnOf(g, r));
      Follows(g, next, played + [TurnOf(g, r)]) && Counted(next, played + [TurnOf(g, r)])
  {
    TurnIsReplayed(g, r, played);
    AdvanceCounts(g.freeMult, r, played, TurnOf(g, r));
  }

  lemma AdvanceCounts(freeMult: nat, r: Round, played: seq<Result>, result: Result)
    requires played == [] ==> r.spinIndex == 0 && r.totalWin == 0 && r.left == 0 && r.total == 0
    requires played != [] ==> r.left > 0 && Counted(r, played)
    ensures Counted(Advanced(freeMult, r, result), played + [result])
  {
    assert (played + [result])[..|played|] == played;
    ModAdd(|played|, 1);
    ModAdd(Awarded(played), result.awarded);
    LeftNext(Awarded(played), |played|, r.left, result.awarded);
  }

  lemma LeftNext(sum: nat, n: nat, left: nat, awarded: nat)
    requires n == 0 ==> sum == 0 && left == 0
    requires n > 0 ==> left > 0 && left == (sum - (n - 1)) % UINT32_SPAN
    requires n > 0 && sum < UINT32_SPAN ==> left == sum - (n - 1)
    ensures LeftAfter(left, awarded) == (sum + awarded - n) % UINT32_SPAN
    ensures sum + awarded < UINT32_SPAN ==> LeftAfter(left, awarded) == sum + awarded - n
  {
    ModAdd(sum - (n - 1), awarded - 1);
  }

  lemma ModAdd(x: int, d: int)
    ensures (x + d) % UINT32_SPAN == (x % UINT32_SPAN + d) % UINT32_SPAN
  {
  }

  /** Without overflow the free spins left are the total less those played. */
  lemma LeftIsTotalLessPlayed(r: Round, played: seq<Result>)
    requires Counted(r, played) && 0 < |played| < UINT32_SPAN && Awarded(played) < UINT32_SPAN
    ensures r.left == r.total - (r.spinIndex - 1)
  {
  }

  /** What a commit answered: written, or not (refused, failed, or an earlier reply). */
  datatype Verdict = Written | NotWritten

  datatype Reply = Refused | Spun(result: Result, round: Round, finished: bool)

  ghost predicate InRound(m: Machine, r: Round, played: seq<Result>)
    requires Valid(m)
  {
    && r.id != 0 && r.open && r.left > 0 && r.bet > 0 && played != [] && r.mult == Boost(m.freeMult)
    && (|played| < UINT32_SPAN ==> Follows(GameOf(m, r.bet), r, played) && Counted(r, played))
  }

  /** The reply of a spin: in step with the replay up to the last index that fits. */
  ghost predicate Tracks(m: Machine, r: Round, played: seq<Result>)
    requires Valid(m)
  {
    |played| <= UINT32_SPAN ==> r.bet > 0 && Follows(GameOf(m, r.bet), r, played) && Counted(r, played)
  }

  lemma AdvanceTracks(g: Game, r: Round, before: seq<Result>, next: Round)
    requires InStep(g, r, before) && next == Advanced(g.freeMult, r, TurnOf(g, r))
    ensures var more := before + [TurnOf(g, r)]; Follows(g, next, more) && Counted(next, more)
    ensures var more := before + [TurnOf(g, r)];
      Follows(g, next.(open := false), more) && Counted(next.(open := false), more)
  {
    AdvanceFollows(g, r, before);
  }

  /** What a spin makes of an open or new round. */
  lemma SpinKeepsRound(m: Machine, r: Round, before: seq<Result>, next: Round)
    requires Valid(m) && r.id != 0 && r.open && r.bet > 0 && (r.left > 0 ==> r.mult == Boost(m.freeMult))
    requires |before| < UINT32_SPAN ==> InStep(GameOf(m, r.bet), r, before)
    requires next == Advanced(m.freeMult, r, TurnOf(GameOf(m, r.bet), r))
    ensures Tracks(m, next, before + [TurnOf(GameOf(m, r.bet), r)])
    ensures Tracks(m, next.(open := false), before + [TurnOf(GameOf(m, r.bet), r)])
    ensures next.left > 0 ==> InRound(m, next, before + [TurnOf(GameOf(m, r.bet), r)])
  {
    if |before| < UINT32_SPAN { AdvanceTracks(GameOf(m, r.bet), r, before, next); }
  }

  lemma OpenIsInStep(m: Machine, r: Round, played: seq<Result>)
    requires Valid(m) && InRound(m, r, played) && |played| < UINT32_SPAN
    ensures InStep(GameOf(m, r.bet), r, played)
  {
  }

  /** The next spin of a round is worth what its symbols pay, at one or at the round's multiplier. */
  lemma TurnIsWorth(m: Machine, r: Round)
    requires Valid(m) && r.bet > 0
    ensures Worth(m, r.bet, if r.left > 0 then r.mult else 1, r.left > 0, TurnOf(GameOf(m, r.bet), r))
  {
    var g := GameOf(m, r.bet);
    var s := if r.left > 0 then ForwardTo(g, r.gen, r.spinIndex).stream else Stream(r.gen, []);
    var mult := if r.left > 0 && r.mult != 0 then r.mult else 1;
    assert Asked(s, mult, r.left > 0);
    SpinIsWorth(m, s, r.bet, mult, r.left > 0);
  }

  /** The round part of a player: the copy in memory and the stored one. */
  class Player {
    var memory: Option<Round>
    var stored: Option<Round>
    /** What was committed in the current round. */
    ghost var played: seq<Result>

    /** Between requests: an open round has free spins left and, as long as its spin index
        has not wrapped around, is a prefix of the replay of its seed. */
    ghost predicate Inv(m: Machine)
      requires Valid(m)
      reads this
    {
      memory == stored && (memory.Some? ==> InRound(m, memory.value, played))
    }

    constructor (m: Machine)
      requires Valid(m)
      ensures Inv(m) && memory == None
    {
      memory, stored, played := None, None, [];
    }

    /** Loading a player keeps only a round that is really open. */
    method Reload(m: Machine)
      requires Valid(m) && Inv(m)
      modifies this
      ensures Inv(m) && memory == old(memory) && stored == old(stored) && played == old(played)
    {
      memory := if stored.Some? && stored.value.id != 0 && stored.value.open then stored else None;
    }

    method FastForward(m: Machine, src: Source, round: Round) returns (ok: bool)
      requires Valid(m) && src.stream == Stream(round.gen, [])
      modifies src
      ensures ok <==> round.bet > 0 || round.spinIndex == 0
      ensures round.bet > 0 ==> src.stream == ForwardTo(GameOf(m, round.bet), round.gen, round.spinIndex).stream
    {
      var left: nat, mult: nat := 0, 1;
      for i := 0 to round.spinIndex
        invariant i > 0 ==> round.bet > 0
        invariant round.bet > 0 ==> Progress(src.stream, left, mult) == ForwardTo(GameOf(m, round.bet), round.gen, i)
      {
        var free := left > 0;
        var sm := 1;
        if free { sm, left := mult, left - 1; }
        var res := Draw(m, src, round.bet, sm, free);
        if res.None? { return false; }
        if res.value.awarded > 0 {
          left := left + res.value.awarded;
          if m.freeMult > 0 { mult := m.freeMult; }
        }
        left := left % UINT32_SPAN;
      }
      return true;
    }

    /** The spin of this round; a free one first rebuilds the stream. */
    method Turn(m: Machine, round: Round) returns (res: Option<Result>)
      requires Valid(m)
      ensures res.Some? <==> round.bet > 0
      ensures res.Some? ==> res.value == TurnOf(GameOf(m, round.bet), round)
    {
      var free := round.left > 0;
      var src := new Source(round.gen);
      if free {
        var ok := FastForward(m, src, round);
        if !ok { return None; }
      }
      var mult := if free && round.mult != 0 then round.mult else 1;
      res := Draw(m, src, round.bet, mult, free);
    }

    /** One spin request. The seed and the identifier, which is never zero, are used only when
        it opens a round. */
    method HandleSpin(m: Machine, gen: seq<nat> -> nat, id: nat, bet: int, verdict: Verdict) returns (reply: Reply)
      requires Valid(m) && ValidBets(m) && Inv(m) && id > 0
      modifies this
      ensures Inv(m)
      ensures reply.Refused? <==> old(memory).None? && bet !in m.betLevels
      ensures reply.Refused? || verdict.NotWritten? ==> memory == old(memory) && played == old(played)
      ensures reply.Spun? ==> (reply.finished <==> reply.round.left == 0)
      ensures reply.Spun? && verdict.Written? ==> memory == if reply.finished then None else Some(reply.round)
      ensures reply.Spun? && verdict.Written? ==>
        played == (if old(memory).Some? then old(played) else []) + [reply.result]
      ensures reply.Spun? && old(memory).Some? ==>
        reply.round.gen == old(memory).value.gen && reply.round.bet == old(memory).value.bet
      ensures reply.Spun? && old(memory).None? ==> reply.round.gen == gen && reply.round.bet == bet
      ensures reply.Spun? ==>
        Worth(m, reply.round.bet, if old(memory).Some? then m.freeMult else 1, old(memory).Some?, reply.result)
      ensures reply.Spun? ==> reply.round.id == if old(memory).Some? then old(memory).value.id else id
      ensures reply.Spun? ==>
        reply.round.totalWin == (if old(memory).Some? then old(memory).value.totalWin else 0) + reply.result.totalWin
      ensures reply.Spun? && verdict.Written? ==> Tracks(m, reply.round, played)
    {
      var free := memory.Some? && memory.value.left > 0;
      if memory.Some? && !free { return Refused; }
      if !free && bet !in m.betLevels { return Refused; }
      var round := if free then memory.value else Opened(id, gen, bet);
      ghost var before := if free then played else [];
      var res := Turn(m, round);
      if res.None? { return Refused; }
      TurnIsWorth(m, round);
      var next := Advanced(m.freeMult, round, res.value);
      if free && |before| < UINT32_SPAN { OpenIsInStep(m, round, before); }
      SpinKeepsRound(m, round, before, next);
      var finished := next.left == 0;
      if finished { next := next.(open := false); }
      if verdict.Written? {
        memory := if finished then None else Some(next);
        stored := memory;
        played := before + [res.value];
      }
      return Spun(res.value, next, finished);
    }
  }
}
