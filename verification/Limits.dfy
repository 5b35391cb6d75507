/** Responsible-gaming limits: the daily window, the check before a bet and the totals that
    are committed with it. */
module Limits {
  const DAY: int := 86_400_000

  datatype Config = Config(betLimit: int, lossLimit: int, sessionLimit: int, offsetMinutes: int)

  datatype State = State(
    dayStart: int, dailyBet: int, dailyWin: int, betLimit: int, lossLimit: int, sessionLimit: int,
    sessionStart: int, excludedUntil: int)

  datatype Decision = Allowed | SelfExcluded | DailyBet | DailyLoss | Session

  /** The start, in milliseconds, of the settlement day that contains now. */
  function DayStart(now: int, offsetMinutes: int): int {
    var shift := offsetMinutes * 60_000;
    (now + shift) / DAY * DAY - shift
  }

  function Rolled(s: State, now: int, cfg: Config): State {
    var start := DayStart(now, cfg.offsetMinutes);
    if s.dayStart == start then s else s.(dayStart := start, dailyBet := 0, dailyWin := 0)
  }

  /** A player's own limit counts only when it is stricter. */
  function Effective(own: int, general: int): int {
    if own > 0 && (general <= 0 || own < general) then own else general
  }

  function BetCap(s: State, cfg: Config): int { Effective(s.betLimit, cfg.betLimit) }

  function LossCap(s: State, cfg: Config): int { Effective(s.lossLimit, cfg.lossLimit) }

  function CheckBet(s: State, bet: int, now: int, cfg: Config): Decision {
    if s.excludedUntil > 0 && now < s.excludedUntil then SelfExcluded
    else if BetCap(s, cfg) > 0 && s.dailyBet + bet > BetCap(s, cfg) then DailyBet
    else if LossCap(s, cfg) > 0 && s.dailyBet - s.dailyWin + bet > LossCap(s, cfg) then DailyLoss
    else
      var session := Effective(s.sessionLimit, cfg.sessionLimit);
      if session > 0 && s.sessionStart > 0 && (now - s.sessionStart) / 1000 > session then Session else Allowed
  }

  /** The effective limit is never looser than either positive limit. */
  lemma EffectiveIsStrictest(own: int, general: int)
    ensures Effective(own, general) > 0 <==> own > 0 || general > 0
    ensures own > 0 ==> Effective(own, general) <= own
    ensures general > 0 ==> Effective(own, general) <= general
    ensures Effective(own, general) > 0 ==> Effective(own, general) == own || Effective(own, general) == general
  {
  }

  // ------------------------------------------------------------------------------------
  // Decisions
  // ------------------------------------------------------------------------------------

  predicate Excluded(s: State, now: int) {
    0 < s.excludedUntil && now < s.excludedUntil
  }

  /** The amount exceeds the player's own limit or the general one, where they are set. */
  predicate Exceeds(own: int, general: int, amount: int) {
    (own > 0 && amount > own) || (general > 0 && amount > general)
  }

  /** The session has lasted more whole seconds than one of the limits allows. */
  predicate Overtime(s: State, cfg: Config, now: int) {
    && s.sessionStart > 0
    && ((s.sessionLimit > 0 && now >= s.sessionStart + 1000 * (s.sessionLimit + 1))
        || (cfg.sessionLimit > 0 && now >= s.sessionStart + 1000 * (cfg.sessionLimit + 1)))
  }

  /** The answer to a bet: self-exclusion goes before the bet limit, that before the loss limit,
      that before the session limit, and only a bet that none of them stops is allowed. */
  predicate Decides(s: State, bet: int, now: int, cfg: Config, d: Decision) {
    var out := Excluded(s, now);
    var bets := Exceeds(s.betLimit, cfg.betLimit, s.dailyBet + bet);
    var loses := Exceeds(s.lossLimit, cfg.lossLimit, s.dailyBet - s.dailyWin + bet);
    var late := Overtime(s, cfg, now);
    && (d == SelfExcluded <==> out) && (d == DailyBet <==> !out && bets) && (d == DailyLoss <==> !out && !bets && loses)
    && (d == Session <==> !out && !bets && !loses && late) && (d == Allowed <==> !out && !bets && !loses && !late)
  }

  lemma ExceedsEffective(own: int, general: int, amount: int)
    ensures Exceeds(own, general, amount) <==> Effective(own, general) > 0 && amount > Effective(own, general)
  {
  }

  /** The check decides like that. */
  lemma CheckDecides(s: State, bet: int, now: int, cfg: Config)
    ensures Decides(s, bet, now, cfg, CheckBet(s, bet, now, cfg))
  {
    ExceedsEffective(s.betLimit, cfg.betLimit, s.dailyBet + bet);
    ExceedsEffective(s.lossLimit, cfg.lossLimit, s.dailyBet - s.dailyWin + bet);
    ExceedsEffective(s.sessionLimit, cfg.sessionLimit, (now - s.sessionStart) / 1000);
    WholeSeconds(now - s.sessionStart, s.sessionLimit);
    WholeSeconds(now - s.sessionStart, cfg.sessionLimit);
  }

  lemma WholeSeconds(ms: int, limit: int)
    ensures ms / 1000 > limit <==> ms >= 1000 * (limit + 1)
  {
  }

  // ------------------------------------------------------------------------------------
  // Days
  // ------------------------------------------------------------------------------------

  /** Every moment lies in exactly one day, which starts at midnight of the offset's time zone,
      and days do not go back when time does not. */
  lemma DaysPartitionTime(now: int, later: int, offsetMinutes: int)
    ensures DayStart(now, offsetMinutes) <= now < DayStart(now, offsetMinutes) + DAY
    ensures DayStart(now, offsetMinutes) <= later < DayStart(now, offsetMinutes) + DAY
       <==> DayStart(later, offsetMinutes) == DayStart(now, offsetMinutes)
    ensures now <= later ==> DayStart(now, offsetMinutes) <= DayStart(later, offsetMinutes)
    ensures (DayStart(now, offsetMinutes) + offsetMinutes * 60_000) % DAY == 0
  {
    var shift := offsetMinutes * 60_000;
    Floors(now + shift, later + shift);
  }

  lemma Floors(a: int, b: int)
    ensures a / DAY * DAY <= a < a / DAY * DAY + DAY
    ensures a / DAY * DAY <= b < a / DAY * DAY + DAY <==> b / DAY * DAY == a / DAY * DAY
    ensures a <= b ==> a / DAY * DAY <= b / DAY * DAY
  {
  }

  // ------------------------------------------------------------------------------------
  // The player's totals
  // ------------------------------------------------------------------------------------

  /** A committed spin under the day that was stored with it; a free spin bets nothing. */
  datatype Spin = Spin(day: int, bet: nat, win: nat)

  /** The copy in memory, the stored one, and the committed spins. */
  datatype Books = Books(memory: State, stored: State, log: seq<Spin>)

  /** A paid or free spin request, written or not by its commit, or a reload of the player. */
  datatype Request =
    | Paid(now: int, bet: nat, win: nat, written: bool)
    | Free(win: nat, written: bool)
    | Reload

  function Opened(s: State): Books {
    Books(s, s, [])
  }

  /** The spin counted into the memory copy, which becomes the stored one. */
  function Committed(b: Books, bet: nat, win: nat): Books {
    var next := b.memory.(dailyBet := b.memory.dailyBet + bet, dailyWin := b.memory.dailyWin + win);
    Books(next, next, b.log + [Spin(b.memory.dayStart, bet, win)])
  }

  function Answered(cfg: Config, b: Books, r: Request): Books {
    match r
    case Paid(now, bet, win, written) =>
      var rolled := b.(memory := Rolled(b.memory, now, cfg));
      if CheckBet(rolled.memory, bet, now, cfg) == Allowed && written then Committed(rolled, bet, win) else rolled
    case Free(win, written) => if written then Committed(b, 0, win) else b
    case Reload => b.(memory := b.stored)
  }

  function Run(cfg: Config, s: State, rs: seq<Request>): Books {
    if rs == [] then Opened(s) else Answered(cfg, Run(cfg, s, rs[..|rs| - 1]), rs[|rs| - 1])
  }

  /** The times of the paid requests. */
  function PaidTimes(rs: seq<Request>): seq<int> {
    if rs == [] then []
    else
      var before, r := PaidTimes(rs[..|rs| - 1]), rs[|rs| - 1];
      if r.Paid? then before + [r.now] else before
  }

  function Days(times: seq<int>, offsetMinutes: int): (ds: seq<int>)
    ensures |ds| == |times|
  {
    seq(|times|, i requires 0 <= i < |times| => DayStart(times[i], offsetMinutes))
  }

  /** No day comes back after another one. */
  ghost predicate NoReturn(ds: seq<int>) {
    forall i, j, k :: 0 <= i < j < k < |ds| && ds[i] == ds[k] ==> ds[j] == ds[k]
  }

  /** The amounts of the spins of a day. */
  ghost function SumOn(log: seq<Spin>, amount: Spin -> nat, day: int): nat {
    if log == [] then 0
    else
      var before, e := SumOn(log[..|log| - 1], amount, day), log[|log| - 1];
      if e.day == day then before + amount(e) else before
  }

  function BetOf(): Spin -> nat { (e: Spin) => e.bet }

  function WinOf(): Spin -> nat { (e: Spin) => e.win }

  ghost function BetsOn(log: seq<Spin>, day: int): nat { SumOn(log, BetOf(), day) }

  ghost function WinsOn(log: seq<Spin>, day: int): nat { SumOn(log, WinOf(), day) }

  /** No day's committed bets exceed the cap. */
  ghost predicate DaysWithin(log: seq<Spin>, cap: int) {
    forall day: int :: BetsOn(log, day) <= cap
  }

  /** What the committed spins of a day lost. */
  ghost function LossOn(log: seq<Spin>, day: int): int { BetsOn(log, day) - WinsOn(log, day) }

  /** No day's committed spins lose more than the cap. */
  ghost predicate LossesWithin(log: seq<Spin>, cap: int) {
    forall day: int :: LossOn(log, day) <= cap
  }

  predicate WithinCaps(s: State, cfg: Config) {
    && (BetCap(s, cfg) > 0 ==> s.dailyBet <= BetCap(s, cfg))
    && (LossCap(s, cfg) > 0 ==> s.dailyBet - s.dailyWin <= LossCap(s, cfg))
  }

  // ------------------------------------------------------------------------------------
  // What the totals mean
  // ------------------------------------------------------------------------------------

  /** One total of a copy of the player, and the day it is for. */
  datatype Tally = Tally(day: int, total: int)

  /** After paid requests of the days ds: both totals are those of their day, every amount is
      of one of the days, and amounts of the last day are in both copies. */
  ghost predicate Traces(ds: seq<int>, log: seq<Spin>, amount: Spin -> nat, memory: Tally, stored: Tally) {
    && memory.total == SumOn(log, amount, memory.day) && stored.total == SumOn(log, amount, stored.day)
    && (forall i :: 0 <= i < |log| && amount(log[i]) > 0 ==> log[i].day in ds)
    && (ds != [] && SumOn(log, amount, ds[|ds| - 1]) > 0 ==> memory.day == stored.day == ds[|ds| - 1])
  }

  lemma {:induction false} NothingOn(log: seq<Spin>, amount: Spin -> nat, day: int)
    requires forall i :: 0 <= i < |log| && amount(log[i]) > 0 ==> log[i].day != day
    ensures SumOn(log, amount, day) == 0
  {
    if log != [] { NothingOn(log[..|log| - 1], amount, day); }
  }

  lemma SumOnMore(log: seq<Spin>, amount: Spin -> nat, e: Spin, day: int)
    ensures SumOn(log + [e], amount, day) == SumOn(log, amount, day) + if e.day == day then amount(e) else 0
  {
    assert (log + [e])[..|log|] == log;
  }

  lemma ReturnsOnlyToLast(ds: seq<int>, day: int)
    requires NoReturn(ds + [day]) && day in ds
    ensures ds[|ds| - 1] == day
  {
    var i :| 0 <= i < |ds| && ds[i] == day;
    var more := ds + [day];
    if i < |ds| - 1 { assert more[i] == more[|ds|] && more[|ds| - 1] == ds[|ds| - 1]; }
  }

  /** A paid request rolls the memory copy over without losing an amount of its day. */
  lemma RollTraces(ds: seq<int>, log: seq<Spin>, amount: Spin -> nat, memory: Tally, stored: Tally, day: int)
    requires Traces(ds, log, amount, memory, stored) && NoReturn(ds + [day])
    ensures Traces(ds + [day], log, amount, Tally(day, if memory.day == day then memory.total else 0), stored)
  {
    if day in ds { ReturnsOnlyToLast(ds, day); } else { NothingOn(log, amount, day); }
  }

  lemma CommitTraces(ds: seq<int>, log: seq<Spin>, amount: Spin -> nat, memory: Tally, stored: Tally, e: Spin)
    requires Traces(ds, log, amount, memory, stored) && e.day == memory.day
    requires amount(e) > 0 ==> e.day in ds
    ensures var next := Tally(memory.day, memory.total + amount(e));
      Traces(ds, log + [e], amount, next, next)
  {
    SumOnMore(log, amount, e, memory.day);
    if ds != [] { SumOnMore(log, amount, e, ds[|ds| - 1]); }
    assert forall i :: 0 <= i < |log| ==> (log + [e])[i] == log[i];
  }

  function BetTally(s: State): Tally { Tally(s.dayStart, s.dailyBet) }

  function WinTally(s: State): Tally { Tally(s.dayStart, s.dailyWin) }

  ghost predicate BetsTraced(ds: seq<int>, b: Books) {
    Traces(ds, b.log, BetOf(), BetTally(b.memory), BetTally(b.stored))
  }

  /** Free spins may win before any paid request, so the first stored day counts as well. */
  ghost predicate WinsTraced(ds: seq<int>, b: Books) {
    && Traces(ds, b.log, WinOf(), WinTally(b.memory), WinTally(b.stored))
    && b.memory.dayStart in ds && b.stored.dayStart in ds
  }

  /** The days of the paid requests of a run. */
  function PaidDays(cfg: Config, rs: seq<Request>): seq<int> {
    Days(PaidTimes(rs), cfg.offsetMinutes)
  }

  lemma PaidDaysNext(cfg: Config, rs: seq<Request>)
    requires rs != []
    ensures var before, r := PaidDays(cfg, rs[..|rs| - 1]), rs[|rs| - 1];
      PaidDays(cfg, rs) == if r.Paid? then before + [DayStart(r.now, cfg.offsetMinutes)] else before
  {
  }

  lemma NoReturnBefore(ds: seq<int>, day: int)
    requires NoReturn(ds + [day])
    ensures NoReturn(ds)
  {
    var more := ds + [day];
    assert forall i :: 0 <= i < |ds| ==> more[i] == ds[i];
  }

  /** A paid request, committed or not. */
  lemma PaidTraces(ds: seq<int>, log: seq<Spin>, amount: Spin -> nat, memory: Tally, stored: Tally, e: Spin)
    requires Traces(ds, log, amount, memory, stored) && NoReturn(ds + [e.day])
    ensures var total := if memory.day == e.day then memory.total else 0;
      var next := Tally(e.day, total + amount(e));
      && Traces(ds + [e.day], log, amount, Tally(e.day, total), stored)
      && Traces(ds + [e.day], log + [e], amount, next, next)
  {
    RollTraces(ds, log, amount, memory, stored, e.day);
    var rolled := Tally(e.day, if memory.day == e.day then memory.total else 0);
    CommitTraces(ds + [e.day], log, amount, rolled, stored, e);
  }

  lemma PaidTracesBets(cfg: Config, ds: seq<int>, b: Books, r: Request)
    requires r.Paid? && BetsTraced(ds, b) && NoReturn(ds + [DayStart(r.now, cfg.offsetMinutes)])
    ensures BetsTraced(ds + [DayStart(r.now, cfg.offsetMinutes)], Answered(cfg, b, r))
  {
    var e := Spin(DayStart(r.now, cfg.offsetMinutes), r.bet, r.win);
    PaidTraces(ds, b.log, BetOf(), BetTally(b.memory), BetTally(b.stored), e);
  }

  lemma OtherTracesBets(cfg: Config, ds: seq<int>, b: Books, r: Request)
    requires !r.Paid? && BetsTraced(ds, b)
    ensures BetsTraced(ds, Answered(cfg, b, r))
  {
    if r.Free? {
      CommitTraces(ds, b.log, BetOf(), BetTally(b.memory), BetTally(b.stored), Spin(b.memory.dayStart, 0, r.win));
    }
  }

  lemma PaidTracesWins(cfg: Config, ds: seq<int>, b: Books, r: Request)
    requires r.Paid? && WinsTraced(ds, b) && NoReturn(ds + [DayStart(r.now, cfg.offsetMinutes)])
    ensures WinsTraced(ds + [DayStart(r.now, cfg.offsetMinutes)], Answered(cfg, b, r))
  {
    var e := Spin(DayStart(r.now, cfg.offsetMinutes), r.bet, r.win);
    PaidTraces(ds, b.log, WinOf(), WinTally(b.memory), WinTally(b.stored), e);
  }

  lemma OtherTracesWins(cfg: Config, ds: seq<int>, b: Books, r: Request)
    requires !r.Paid? && WinsTraced(ds, b)
    ensures WinsTraced(ds, Answered(cfg, b, r))
  {
    if r.Free? {
      CommitTraces(ds, b.log, WinOf(), WinTally(b.memory), WinTally(b.stored), Spin(b.memory.dayStart, 0, r.win));
    }
  }

  /** The settings of the player are the same in both states. */
  predicate SameSettings(s: State, t: State) {
    && s.betLimit == t.betLimit && s.lossLimit == t.lossLimit && s.sessionLimit == t.sessionLimit
    && s.sessionStart == t.sessionStart && s.excludedUntil == t.excludedUntil
  }

  /** They never change in a run. */
  lemma {:induction false} SettingsStay(cfg: Config, s: State, rs: seq<Request>)
    ensures SameSettings(s, Run(cfg, s, rs).memory) && SameSettings(s, Run(cfg, s, rs).stored)
  {
    if rs != [] { SettingsStay(cfg, s, rs[..|rs| - 1]); }
  }

  lemma LimitsStay(cfg: Config, s: State, rs: seq<Request>)
    ensures BetCap(Run(cfg, s, rs).memory, cfg) == BetCap(Run(cfg, s, rs).stored, cfg) == BetCap(s, cfg)
    ensures LossCap(Run(cfg, s, rs).memory, cfg) == LossCap(Run(cfg, s, rs).stored, cfg) == LossCap(s, cfg)
  {
    SettingsStay(cfg, s, rs);
  }

  /** Over any run, whatever the clock does, a paid spin is committed only outside the exclusion
      period and within the session limit of the player, and then it is the one asked for. */
  lemma OnlyAllowedBetsAreCommitted(cfg: Config, s: State, rs: seq<Request>)
    requires rs != [] && rs[|rs| - 1].Paid?
    ensures var r, before, after := rs[|rs| - 1], Run(cfg, s, rs[..|rs| - 1]).log, Run(cfg, s, rs).log;
      after != before ==>
        && !Excluded(s, r.now) && !Overtime(s, cfg, r.now) && r.written
        && after == before + [Spin(DayStart(r.now, cfg.offsetMinutes), r.bet, r.win)]
  {
    var r, b := rs[|rs| - 1], Run(cfg, s, rs[..|rs| - 1]);
    SettingsStay(cfg, s, rs[..|rs| - 1]);
    CheckDecides(Rolled(b.memory, r.now, cfg), r.bet, r.now, cfg);
  }

  /** Whatever the clock does, both totals of both copies stay within the limits. */
  lemma {:induction false} TotalsStayWithinCaps(cfg: Config, s: State, rs: seq<Request>)
    requires s.dailyBet == s.dailyWin == 0
    ensures WithinCaps(Run(cfg, s, rs).memory, cfg) && WithinCaps(Run(cfg, s, rs).stored, cfg)
  {
    if rs != [] { TotalsStayWithinCaps(cfg, s, rs[..|rs| - 1]); }
  }

  /** While no paid day comes back, the bet total is the sum of the committed bets of its day
      and no day's bets exceed the cap. */
  lemma {:induction false} RunTracesBets(cfg: Config, s: State, rs: seq<Request>)
    requires s.dailyBet == 0 && NoReturn(PaidDays(cfg, rs))
    ensures BetsTraced(PaidDays(cfg, rs), Run(cfg, s, rs))
    ensures BetCap(s, cfg) > 0 ==> DaysWithin(Run(cfg, s, rs).log, BetCap(s, cfg))
  {
    if rs != [] {
      var before, r := rs[..|rs| - 1], rs[|rs| - 1];
      var ds, b := PaidDays(cfg, before), Run(cfg, s, before);
      PaidDaysNext(cfg, rs);
      if r.Paid? { NoReturnBefore(ds, DayStart(r.now, cfg.offsetMinutes)); }
      RunTracesBets(cfg, s, before);
      if r.Paid? { PaidTracesBets(cfg, ds, b, r); } else { OtherTracesBets(cfg, ds, b, r); }
      LimitsStay(cfg, s, before);
      if BetCap(s, cfg) > 0 { AnswerKeepsDays(cfg, ds, b, r, BetCap(s, cfg)); }
    }
  }

  lemma AnswerKeepsDays(cfg: Config, ds: seq<int>, b: Books, r: Request, cap: int)
    requires BetsTraced(ds, b) && DaysWithin(b.log, cap) && BetCap(b.memory, cfg) == cap > 0
    requires r.Paid? ==> NoReturn(ds + [DayStart(r.now, cfg.offsetMinutes)])
    ensures DaysWithin(Answered(cfg, b, r).log, cap)
  {
    var log := Answered(cfg, b, r).log;
    if r.Paid? {
      RollTraces(ds, b.log, BetOf(), BetTally(b.memory), BetTally(b.stored), DayStart(r.now, cfg.offsetMinutes));
    }
    forall day: int ensures BetsOn(log, day) <= cap {
      assert BetsOn(b.log, day) <= cap;
      if log != b.log { SumOnMore(b.log, BetOf(), log[|b.log|], day); }
    }
  }

  /** The same for the win total, counting the first stored day as the first paid one. */
  lemma {:induction false} RunTracesWins(cfg: Config, s: State, rs: seq<Request>)
    requires s.dailyWin == 0 && NoReturn([s.dayStart] + PaidDays(cfg, rs))
    ensures WinsTraced([s.dayStart] + PaidDays(cfg, rs), Run(cfg, s, rs))
  {
    if rs != [] {
      var before, r := rs[..|rs| - 1], rs[|rs| - 1];
      var ds, b := [s.dayStart] + PaidDays(cfg, before), Run(cfg, s, before);
      PaidDaysNext(cfg, rs);
      if r.Paid? {
        var day := DayStart(r.now, cfg.offsetMinutes);
        assert [s.dayStart] + PaidDays(cfg, rs) == ds + [day];
        NoReturnBefore(ds, day);
      }
      RunTracesWins(cfg, s, before);
      if r.Paid? { PaidTracesWins(cfg, ds, b, r); } else { OtherTracesWins(cfg, ds, b, r); }
    }
  }

  ghost predicate WinsCovered(b: Books) {
    b.memory.dailyWin <= WinsOn(b.log, b.memory.dayStart) && b.stored.dailyWin <= WinsOn(b.log, b.stored.dayStart)
  }

  lemma CommitCoversWins(b: Books, bet: nat, win: nat)
    requires WinsCovered(b)
    ensures WinsCovered(Committed(b, bet, win))
  {
    SumOnMore(b.log, WinOf(), Spin(b.memory.dayStart, bet, win), b.memory.dayStart);
  }

  /** Whatever the clock does, no win total exceeds the committed wins of its day. */
  lemma {:induction false} WinsAreCommitted(cfg: Config, s: State, rs: seq<Request>)
    requires s.dailyWin == 0
    ensures WinsCovered(Run(cfg, s, rs))
  {
    if rs != [] {
      WinsAreCommitted(cfg, s, rs[..|rs| - 1]);
      var b, r := Run(cfg, s, rs[..|rs| - 1]), rs[|rs| - 1];
      match r
      case Paid(now, bet, win, _) => CommitCoversWins(b.(memory := Rolled(b.memory, now, cfg)), bet, win);
      case Free(win, _) => CommitCoversWins(b, 0, win);
      case Reload =>
    }
  }

  /** While no paid day comes back, no day loses more than the cap. */
  lemma {:induction false} RunKeepsLosses(cfg: Config, s: State, rs: seq<Request>)
    requires s.dailyBet == s.dailyWin == 0 && NoReturn(PaidDays(cfg, rs)) && LossCap(s, cfg) > 0
    ensures LossesWithin(Run(cfg, s, rs).log, LossCap(s, cfg))
  {
    if rs != [] {
      var before, r := rs[..|rs| - 1], rs[|rs| - 1];
      PaidDaysNext(cfg, rs);
      if r.Paid? { NoReturnBefore(PaidDays(cfg, before), DayStart(r.now, cfg.offsetMinutes)); }
      RunKeepsLosses(cfg, s, before);
      RunTracesBets(cfg, s, before);
      WinsAreCommitted(cfg, s, before);
      LimitsStay(cfg, s, before);
      AnswerKeepsLosses(cfg, PaidDays(cfg, before), Run(cfg, s, before), r, LossCap(s, cfg));
    }
  }

  lemma AnswerKeepsLosses(cfg: Config, ds: seq<int>, b: Books, r: Request, cap: int)
    requires BetsTraced(ds, b) && LossesWithin(b.log, cap) && LossCap(b.memory, cfg) == cap > 0
    requires b.memory.dailyWin <= WinsOn(b.log, b.memory.dayStart)
    requires r.Paid? ==> NoReturn(ds + [DayStart(r.now, cfg.offsetMinutes)])
    ensures LossesWithin(Answered(cfg, b, r).log, cap)
  {
    var log := Answered(cfg, b, r).log;
    if r.Paid? {
      RollTraces(ds, b.log, BetOf(), BetTally(b.memory), BetTally(b.stored), DayStart(r.now, cfg.offsetMinutes));
    }
    forall day: int ensures LossOn(log, day) <= cap {
      assert LossOn(b.log, day) <= cap;
      if log != b.log {
        SumOnMore(b.log, BetOf(), log[|b.log|], day);
        SumOnMore(b.log, WinOf(), log[|b.log|], day);
      }
    }
  }

  /** A clock that does not go back never returns to a day. */
  lemma SteadyClockNeverReturns(times: seq<int>, offsetMinutes: int)
    requires forall i, j :: 0 <= i < j < |times| ==> times[i] <= times[j]
    ensures NoReturn(Days(times, offsetMinutes))
  {
    forall i, j | 0 <= i < j < |times| ensures DayStart(times[i], offsetMinutes) <= DayStart(times[j], offsetMinutes) {
      DaysPartitionTime(times[i], times[j], offsetMinutes);
    }
  }

  // ------------------------------------------------------------------------------------
  // Exactly when the daily limits hold
  // ------------------------------------------------------------------------------------

  /** Full bets at the two requests named, nothing committed by the others. */
  function FullBets(times: seq<int>, bet: nat, i: nat, k: nat): (rs: seq<Request>)
    ensures |rs| == |times|
  {
    seq(|times|, p requires 0 <= p < |times| =>
      if p == i || p == k then Paid(times[p], bet, 0, true) else Paid(times[p], 0, 0, false))
  }

  lemma {:induction false} FullBetsTimes(times: seq<int>, bet: nat, i: nat, k: nat, n: nat)
    requires n <= |times|
    ensures PaidTimes(FullBets(times, bet, i, k)[..n]) == times[..n]
  {
    if n > 0 {
      FullBetsTimes(times, bet, i, k, n - 1);
      var rs := FullBets(times, bet, i, k);
      assert rs[..n][..n - 1] == rs[..n - 1] && times[..n] == times[..n - 1] + [times[n - 1]];
    }
  }

  /** Only a bet limit is set. */
  function OnlyBets(cap: nat, offsetMinutes: int): Config {
    Config(cap, 0, 0, offsetMinutes)
  }

  /** Only a loss limit is set. */
  function OnlyLosses(cap: nat, offsetMinutes: int): Config {
    Config(0, cap, 0, offsetMinutes)
  }

  predicate OneLimit(cfg: Config, cap: nat) {
    cap > 0 && (cfg == OnlyBets(cap, cfg.offsetMinutes) || cfg == OnlyLosses(cap, cfg.offsetMinutes))
  }

  const NOBODY: State := State(0, 0, 0, 0, 0, 0, 0, 0)

  /** The books before, between and after the two full bets on the same day: the request of
      the other day, j, has cleared the total. */
  ghost predicate BetTwice(b: Books, day: int, bet: nat, i: nat, j: nat, k: nat, n: nat) {
    && (b.memory.betLimit == 0 && b.memory.excludedUntil == 0 && b.memory.sessionStart == 0 && b.memory.lossLimit == 0)
    && b.memory.dailyWin == 0
    && (n <= i ==> b.log == [] && b.memory.dailyBet == 0)
    && (i < n <= k ==> b.log == [Spin(day, bet, 0)])
    && (i < n <= j ==> b.memory.dailyBet == 0 || b.memory.dayStart == day)
    && (j < n <= k ==> b.memory.dailyBet == 0)
    && (k < n ==> b.log == [Spin(day, bet, 0), Spin(day, bet, 0)])
  }

  lemma RunNext(cfg: Config, s: State, rs: seq<Request>, n: nat)
    requires 0 < n <= |rs|
    ensures Run(cfg, s, rs[..n]) == Answered(cfg, Run(cfg, s, rs[..n - 1]), rs[n - 1])
  {
    assert rs[..n][..n - 1] == rs[..n - 1];
  }

  /** The request at p, which is one of the two full bets or commits nothing. */
  lemma BetTwiceNext(cfg: Config, b: Books, r: Request, day: int, cap: nat, i: nat, j: nat, k: nat, p: nat)
    requires i < j < k && OneLimit(cfg, cap) && BetTwice(b, day, cap, i, j, k, p)
    requires r.Paid? && r == if p == i || p == k then Paid(r.now, cap, 0, true) else Paid(r.now, 0, 0, false)
    requires p == i || p == k ==> DayStart(r.now, cfg.offsetMinutes) == day
    requires p == j ==> DayStart(r.now, cfg.offsetMinutes) != day
    ensures BetTwice(Answered(cfg, b, r), day, cap, i, j, k, p + 1)
  {
    var rolled := Rolled(b.memory, r.now, cfg);
    if p == i || p == k {
      assert rolled.dailyBet == 0 && CheckBet(rolled, cap, r.now, cfg) == Allowed;
    }
  }

  lemma {:induction false} FullBetsRun(times: seq<int>, cfg: Config, cap: nat, i: nat, j: nat, k: nat, n: nat)
    requires i < j < k < |times| && n <= |times| && OneLimit(cfg, cap)
    requires var ds := Days(times, cfg.offsetMinutes); ds[i] == ds[k] != ds[j]
    ensures BetTwice(Run(cfg, NOBODY, FullBets(times, cap, i, k)[..n]),
                     Days(times, cfg.offsetMinutes)[i], cap, i, j, k, n)
  {
    if n > 0 {
      FullBetsRun(times, cfg, cap, i, j, k, n - 1);
      var rs := FullBets(times, cap, i, k);
      RunNext(cfg, NOBODY, rs, n);
      var b := Run(cfg, NOBODY, rs[..n - 1]);
      BetTwiceNext(cfg, b, rs[n - 1], Days(times, cfg.offsetMinutes)[i], cap, i, j, k, n - 1);
    }
  }

  /** A day that comes back takes, and loses, twice the cap. */
  lemma ReturningDayTakesTwice(times: seq<int>, cfg: Config, cap: nat, i: nat, j: nat, k: nat)
    requires i < j < k < |times| && OneLimit(cfg, cap)
    requires var ds := Days(times, cfg.offsetMinutes); ds[i] == ds[k] != ds[j]
    ensures var rs, day := FullBets(times, cap, i, k), Days(times, cfg.offsetMinutes)[i];
      && PaidTimes(rs) == times && (BetCap(NOBODY, cfg) == cap || LossCap(NOBODY, cfg) == cap)
      && BetsOn(Run(cfg, NOBODY, rs).log, day) == LossOn(Run(cfg, NOBODY, rs).log, day) == 2 * cap
  {
    var n, rs, day := |times|, FullBets(times, cap, i, k), Days(times, cfg.offsetMinutes)[i];
    FullBetsTimes(times, cap, i, k, n);
    FullBetsRun(times, cfg, cap, i, j, k, n);
    assert rs[..n] == rs && times[..n] == times;
    TwoSpins(Spin(day, cap, 0), BetOf());
    TwoSpins(Spin(day, cap, 0), WinOf());
  }

  lemma TwoSpins(e: Spin, amount: Spin -> nat)
    ensures SumOn([e, e], amount, e.day) == 2 * amount(e)
  {
    SumOnMore([], amount, e, e.day);
    SumOnMore([e], amount, e, e.day);
    assert [] + [e] == [e] && [e] + [e] == [e, e];
  }

  /** A player without totals yet, under some cap and this offset. */
  predicate StartsCapped(cfg: Config, s: State, offsetMinutes: int) {
    cfg.offsetMinutes == offsetMinutes && BetCap(s, cfg) > 0 && s.dailyBet == s.dailyWin == 0
  }

  predicate StartsLossCapped(cfg: Config, s: State, offsetMinutes: int) {
    cfg.offsetMinutes == offsetMinutes && LossCap(s, cfg) > 0 && s.dailyBet == s.dailyWin == 0
  }

  /** Whatever the limits, bets, wins, commit outcomes, free spins and reloads, paid requests
      at these times keep every day within the player's cap. */
  ghost predicate DayLimitHolds(times: seq<int>, offsetMinutes: int) {
    forall cfg: Config, s: State, rs: seq<Request> :: StartsCapped(cfg, s, offsetMinutes) && PaidTimes(rs) == times
      ==> DaysWithin(Run(cfg, s, rs).log, BetCap(s, cfg))
  }

  /** The daily limit holds exactly when no day of a paid request comes back after a paid
      request of another day. */
  lemma DayLimitHoldsExactly(times: seq<int>, offsetMinutes: int)
    ensures DayLimitHolds(times, offsetMinutes) <==> NoReturn(Days(times, offsetMinutes))
  {
    var ds := Days(times, offsetMinutes);
    if NoReturn(ds) {
      forall cfg: Config, s: State, rs: seq<Request> | StartsCapped(cfg, s, offsetMinutes) && PaidTimes(rs) == times
        ensures DaysWithin(Run(cfg, s, rs).log, BetCap(s, cfg))
      {
        RunTracesBets(cfg, s, rs);
      }
    } else {
      var i, j, k :| 0 <= i < j < k < |ds| && ds[i] == ds[k] && ds[j] != ds[k];
      var cfg, rs := OnlyBets(1, offsetMinutes), FullBets(times, 1, i, k);
      ReturningDayTakesTwice(times, cfg, 1, i, j, k);
      assert !DaysWithin(Run(cfg, NOBODY, rs).log, BetCap(NOBODY, cfg)) by {
        assert BetsOn(Run(cfg, NOBODY, rs).log, ds[i]) == 2;
      }
    }
  }

  /** The same for the losses of a day. */
  ghost predicate LossLimitHolds(times: seq<int>, offsetMinutes: int) {
    forall cfg: Config, s: State, rs: seq<Request> :: StartsLossCapped(cfg, s, offsetMinutes) && PaidTimes(rs) == times
      ==> LossesWithin(Run(cfg, s, rs).log, LossCap(s, cfg))
  }

  /** The daily loss limit holds under exactly the same condition. */
  lemma LossLimitHoldsExactly(times: seq<int>, offsetMinutes: int)
    ensures LossLimitHolds(times, offsetMinutes) <==> NoReturn(Days(times, offsetMinutes))
  {
    var ds := Days(times, offsetMinutes);
    if NoReturn(ds) {
      forall cfg: Config, s: State, rs: seq<Request> | StartsLossCapped(cfg, s, offsetMinutes) && PaidTimes(rs) == times
        ensures LossesWithin(Run(cfg, s, rs).log, LossCap(s, cfg))
      {
        RunKeepsLosses(cfg, s, rs);
      }
    } else {
      var i, j, k :| 0 <= i < j < k < |ds| && ds[i] == ds[k] && ds[j] != ds[k];
      var cfg, rs := OnlyLosses(1, offsetMinutes), FullBets(times, 1, i, k);
      ReturningDayTakesTwice(times, cfg, 1, i, j, k);
      assert !LossesWithin(Run(cfg, NOBODY, rs).log, LossCap(NOBODY, cfg)) by {
        assert LossOn(Run(cfg, NOBODY, rs).log, ds[i]) == 2;
      }
    }
  }

  // ------------------------------------------------------------------------------------
  // The account
  // ------------------------------------------------------------------------------------

  class Account {
    const cfg: Config
    /** The copy in memory and the stored one. */
    var memory: State
    var stored: State
    ghost var log: seq<Spin>
    /** Where the account started and what it was asked. */
    ghost const first: State
    ghost var requests: seq<Request>

    /** The account is where its requests lead; the lemmas about Run say what that means. */
    ghost predicate Inv()
      reads this
    {
      Books(memory, stored, log) == Run(cfg, first, requests)
    }

    constructor (cfg: Config, s: State)
      ensures Inv() && this.cfg == cfg && first == memory == stored == s && log == [] && requests == []
    {
      this.cfg, first, memory, stored, log, requests := cfg, s, s, s, [], [];
    }

    method Rollover(now: int) returns (reset: bool)
      modifies this`memory
      ensures memory == Rolled(old(memory), now, cfg)
      ensures reset <==> old(memory).dayStart != DayStart(now, cfg.offsetMinutes)
    {
      var start := DayStart(now, cfg.offsetMinutes);
      if memory.dayStart == start { return false; }
      memory := memory.(dayStart := start, dailyBet := 0, dailyWin := 0);
      return true;
    }

    /** The limit part of a paid spin; the check rolls the memory copy over before anything is
        committed. */
    method HandlePaid(now: int, bet: nat, win: nat, written: bool) returns (d: Decision)
      requires Inv()
      modifies this
      ensures Inv() && requests == old(requests) + [Paid(now, bet, win, written)]
      ensures d == CheckBet(Rolled(old(memory), now, cfg), bet, now, cfg)
      ensures Decides(Rolled(old(memory), now, cfg), bet, now, cfg, d)
      ensures d != Allowed || !written ==> log == old(log) && stored == old(stored)
      ensures d == Allowed && written ==> memory == stored && log == old(log) + [Spin(memory.dayStart, bet, win)]
      ensures SameSettings(old(memory), memory) && memory.dayStart == DayStart(now, cfg.offsetMinutes)
      ensures var kept := old(memory).dayStart == memory.dayStart; var counted := d == Allowed && written;
        && memory.dailyBet == (if kept then old(memory).dailyBet else 0) + (if counted then bet else 0)
        && memory.dailyWin == (if kept then old(memory).dailyWin else 0) + (if counted then win else 0)
    {
      CheckDecides(Rolled(memory, now, cfg), bet, now, cfg);
      ghost var r := Paid(now, bet, win, written);
      requests := requests + [r];
      assert requests[..|requests| - 1] == old(requests);
      var reset := Rollover(now);
      d := CheckBet(memory, bet, now, cfg);
      if d != Allowed { return; }
      var copy := memory.(dailyBet := memory.dailyBet + bet, dailyWin := memory.dailyWin + win);
      if written {
        log := log + [Spin(memory.dayStart, bet, win)];
        memory, stored := copy, copy;
      }
    }

    /** A free spin bets nothing and is not checked; its win counts. */
    method HandleFree(win: nat, written: bool)
      requires Inv()
      modifies this
      ensures Inv() && requests == old(requests) + [Free(win, written)]
      ensures !written ==> memory == old(memory) && stored == old(stored) && log == old(log)
      ensures written ==> memory == stored == old(memory).(dailyWin := old(memory).dailyWin + win)
      ensures written ==> log == old(log) + [Spin(memory.dayStart, 0, win)]
    {
      requests := requests + [Free(win, written)];
      assert requests[..|requests| - 1] == old(requests);
      if written {
        var copy := memory.(dailyBet := memory.dailyBet + 0, dailyWin := memory.dailyWin + win);
        log := log + [Spin(memory.dayStart, 0, win)];
        memory, stored := copy, copy;
      }
    }

    /** Loading the player again forgets a rollover that was never committed. */
    method LoadAgain()
      requires Inv()
      modifies this
      ensures Inv() && memory == stored == old(stored) && log == old(log) && requests == old(requests) + [Reload]
    {
      requests := requests + [Reload];
      assert requests[..|requests| - 1] == old(requests);
      memory := stored;
    }
  }

  /** Three requests, the second a day earlier and not even committed: the third is accepted
      although the first already used up the day's limit of ten. */
  method ClockGoesBack() returns (account: Account, decisions: seq<Decision>)
    ensures fresh(account) && BetCap(account.stored, account.cfg) == 10 && BetsOn(account.log, DAY) == 20
    ensures decisions == [Allowed, Allowed, Allowed]
  {
    account := new Account(OnlyBets(10, 0), NOBODY);
    var first := account.HandlePaid(DAY, 10, 0, true);
    var second := account.HandlePaid(0, 0, 0, false);
    var third := account.HandlePaid(DAY, 10, 0, true);
    decisions := [first, second, third];
    assert account.requests == FullBets([DAY, 0, DAY], 10, 0, 2);
    assert Days([DAY, 0, DAY], 0) == [DAY, 0, DAY];
    ReturningDayTakesTwice([DAY, 0, DAY], account.cfg, 10, 0, 1, 2);
    LimitsStay(account.cfg, NOBODY, account.requests);
  }
}
