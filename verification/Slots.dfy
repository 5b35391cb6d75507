/** The slot engine: one spin of a machine from a random stream. */
module Slots {
  import opened Keyspace
  import opened Rng

  datatype Symbol = Symbol(id: nat)
  type Grid = seq<seq<Symbol>>

  /** jackpot tells whether the machine feeds a pool. */
  datatype Machine = Machine(
    rows: nat, reels: seq<seq<Symbol>>, paylines: seq<seq<nat>>, betLevels: seq<int>,
    paytable: map<Symbol, seq<int>>, wild: Symbol, scatter: Symbol, scatterPays: seq<int>,
    freeSpins: seq<nat>, freeMult: nat, retrigger: bool,
    jackpot: bool, jackpotNum: int, jackpotDen: int)

  /** What the start-up check demands of the reels and lines. */
  predicate Valid(m: Machine) {
    && m.rows > 0 && m.reels != [] && (forall i :: 0 <= i < |m.reels| ==> |m.reels[i]| >= m.rows)
    && m.paylines != [] && (forall l :: 0 <= l < |m.paylines| ==> ValidLine(m, m.paylines[l]))
  }

  /** What it demands of the bets; an accepted bet divides evenly over the lines. */
  predicate ValidBets(m: Machine)
    requires Valid(m)
  {
    m.betLevels != [] && forall b <- m.betLevels :: b > 0 && b % |m.paylines| == 0
  }

  predicate ValidLine(m: Machine, line: seq<nat>) {
    |line| == |m.reels| && forall i :: 0 <= i < |line| ==> line[i] < m.rows
  }

  predicate Shaped(m: Machine, grid: Grid) {
    |grid| == |m.reels| && forall i :: 0 <= i < |grid| ==> |grid[i]| == m.rows
  }

  /** The bet on each line; whole for the bet levels that the start-up check accepts. */
  function LineBet(m: Machine, bet: int): int
    requires Valid(m)
  {
    bet / |m.paylines|
  }

  // ------------------------------------------------------------------------------------
  // Lines
  // ------------------------------------------------------------------------------------

  predicate Matches(m: Machine, s: Symbol, sym: Symbol) {
    s == sym || (s == m.wild && sym != m.scatter)
  }

  /** How many leading cells match sym. */
  function Run(m: Machine, cells: seq<Symbol>, sym: Symbol): (n: nat)
    ensures n <= |cells|
    ensures forall i :: 0 <= i < n ==> Matches(m, cells[i], sym)
    ensures n < |cells| ==> !Matches(m, cells[n], sym)
  {
    if cells == [] || !Matches(m, cells[0], sym) then 0 else 1 + Run(m, cells[1..], sym)
  }

  function PayoutFor(m: Machine, sym: Symbol, count: nat, lineBet: int): int {
    if count == 0 || sym !in m.paytable || count > |m.paytable[sym]| then 0
    else m.paytable[sym][count - 1] * lineBet
  }

  /** What the cells pay when read as sym. */
  function Pays(m: Machine, cells: seq<Symbol>, lineBet: int): Symbol -> int {
    sym => PayoutFor(m, sym, Run(m, cells, sym), lineBet)
  }

  /** The largest value over a set of symbols, and never below zero. */
  ghost function Best(syms: set<Symbol>, pay: Symbol -> int): (r: int)
    ensures r >= 0 && forall x <- syms :: pay(x) <= r
    ensures r == 0 || exists x <- syms :: pay(x) == r
  {
    if syms == {} then 0
    else
      var x :| x in syms;
      var rest := Best(syms - {x}, pay);
      if pay(x) > rest then pay(x) else rest
  }

  /** The symbols tried for a line whose first cell is given. */
  function Candidates(m: Machine, first: Symbol): set<Symbol> {
    if first == m.scatter then {}
    else if first != m.wild then {first}
    else m.paytable.Keys - {m.scatter}
  }

  ghost function LinePays(m: Machine, cells: seq<Symbol>, lineBet: int): int
    requires cells != []
  {
    Best(Candidates(m, cells[0]), Pays(m, cells, lineBet))
  }

  /** The rule of the game: the best over every symbol of the paytable but the scatter. */
  ghost function RulePays(m: Machine, cells: seq<Symbol>, lineBet: int): int {
    Best(m.paytable.Keys - {m.scatter}, Pays(m, cells, lineBet))
  }

  /** The cells of payline li. */
  function Cells(m: Machine, grid: Grid, li: nat): (c: seq<Symbol>)
    requires Valid(m) && Shaped(m, grid) && li < |m.paylines|
    ensures |c| == |m.reels| > 0
  {
    var line := m.paylines[li];
    assert ValidLine(m, line);
    seq(|line|, i requires 0 <= i < |line| => grid[i][line[i]])
  }

  datatype LineWin = LineWin(line: nat, symbol: Symbol, count: nat, payout: int)

  /** What each payline pays. */
  ghost function Payouts(m: Machine, grid: Grid, lineBet: int): (r: seq<int>)
    requires Valid(m) && Shaped(m, grid)
    ensures |r| == |m.paylines|
  {
    seq(|m.paylines|, li requires 0 <= li < |m.paylines| => LinePays(m, Cells(m, grid, li), lineBet))
  }

  ghost function Total(q: seq<int>): int {
    if q == [] then 0 else Total(q[..|q| - 1]) + q[|q| - 1]
  }

  lemma TotalNext(q: seq<int>, k: nat)
    requires k < |q|
    ensures Total(q[..k + 1]) == Total(q[..k]) + q[k]
  {
    assert q[..k + 1][..k] == q[..k];
  }

  /** The win names the line, its payout, and a symbol and count that justify the payout. */
  ghost predicate Justified(m: Machine, cells: seq<Symbol>, lineBet: int, li: nat, w: LineWin)
    requires cells != []
  {
    && w.line == li && w.payout == LinePays(m, cells, lineBet)
    && w.symbol in Candidates(m, cells[0]) && w.count == Run(m, cells, w.symbol)
    && w.payout == PayoutFor(m, w.symbol, w.count, lineBet)
  }

  /** The wins are the lines, among the first k, that pay something, in order. */
  ghost predicate Lists(pays: seq<int>, k: nat, wins: seq<LineWin>)
    requires k <= |pays|
  {
    if k == 0 then wins == []
    else if pays[k - 1] == 0 then Lists(pays, k - 1, wins)
    else
      && wins != [] && Lists(pays, k - 1, wins[..|wins| - 1])
      && wins[|wins| - 1].line == k - 1 && wins[|wins| - 1].payout == pays[k - 1]
  }

  /** The win is that of its line. */
  ghost predicate JustifiedWin(m: Machine, grid: Grid, lineBet: int, w: LineWin)
    requires Valid(m) && Shaped(m, grid)
  {
    w.line < |m.paylines| && Justified(m, Cells(m, grid, w.line), lineBet, w.line, w)
  }

  /** The reported wins are the paying lines among the first k, in order. */
  ghost predicate Reports(m: Machine, grid: Grid, lineBet: int, k: nat, wins: seq<LineWin>)
    requires Valid(m) && Shaped(m, grid) && k <= |m.paylines|
  {
    && Lists(Payouts(m, grid, lineBet), k, wins)
    && forall i :: 0 <= i < |wins| ==> JustifiedWin(m, grid, lineBet, wins[i])
  }

  /** The symbols in whatever order the paytable is walked. */
  method CandidateSymbols(m: Machine, first: Symbol) returns (out: seq<Symbol>)
    ensures forall x :: x in out <==> x in Candidates(m, first)
  {
    if first == m.scatter { return []; }
    if first != m.wild { return [first]; }
    out := [];
    var left := m.paytable.Keys;
    while left != {}
      invariant left <= m.paytable.Keys
      invariant forall x :: x in out <==> x in m.paytable.Keys - left - {m.scatter}
      decreases left
    {
      var sym :| sym in left;
      left := left - {sym};
      if sym == m.scatter { continue; }
      out := out + [sym];
    }
  }

  method CountRun(m: Machine, grid: Grid, li: nat, sym: Symbol) returns (count: nat)
    requires Valid(m) && Shaped(m, grid) && li < |m.paylines|
    ensures count == Run(m, Cells(m, grid, li), sym)
  {
    count := 0;
    ghost var cells := Cells(m, grid, li);
    var line := m.paylines[li];
    assert ValidLine(m, line);
    for i := 0 to |line|
      invariant count == i && forall j :: 0 <= j < i ==> Matches(m, cells[j], sym)
    {
      var s := grid[i][line[i]];
      if !(s == sym || (s == m.wild && sym != m.scatter)) { break; }
      count := count + 1;
    }
    RunIs(m, cells, sym, count);
  }

  lemma RunIs(m: Machine, cells: seq<Symbol>, sym: Symbol, n: nat)
    requires n <= |cells| && forall i :: 0 <= i < n ==> Matches(m, cells[i], sym)
    requires n < |cells| ==> !Matches(m, cells[n], sym)
    ensures Run(m, cells, sym) == n
  {
    var r := Run(m, cells, sym);
    if r < n { assert false; } else if n < r { assert false; }
  }

  method EvalLine(m: Machine, grid: Grid, li: nat, lineBet: int) returns (best: LineWin)
    requires Valid(m) && Shaped(m, grid) && li < |m.paylines|
    ensures best.line == li && best.payout == LinePays(m, Cells(m, grid, li), lineBet)
    ensures best.payout > 0 ==> Justified(m, Cells(m, grid, li), lineBet, li, best)
  {
    best := LineWin(li, Symbol(0), 0, 0);
    ghost var cells := Cells(m, grid, li);
    ghost var pay := Pays(m, cells, lineBet);
    assert ValidLine(m, m.paylines[li]);
    var candidates := CandidateSymbols(m, grid[0][m.paylines[li][0]]);
    for k := 0 to |candidates|
      invariant best.line == li && best.payout >= 0
      invariant forall j :: 0 <= j < k ==> pay(candidates[j]) <= best.payout
      invariant best.payout > 0 ==> best.symbol in candidates && best.count == Run(m, cells, best.symbol)
      invariant best.payout > 0 ==> best.payout == pay(best.symbol)
    {
      var sym := candidates[k];
      var count := CountRun(m, grid, li, sym);
      var payout := PayoutFor(m, sym, count, lineBet);
      if payout > best.payout { best := LineWin(li, sym, count, payout); }
    }
    BestOfList(candidates, Candidates(m, cells[0]), pay, best.payout, best.symbol);
  }

  /** A bound that is reached, or zero, is the best. */
  lemma BestIs(syms: set<Symbol>, pay: Symbol -> int, v: int, at: Symbol)
    requires v >= 0 && forall x <- syms :: pay(x) <= v
    requires v > 0 ==> at in syms && pay(at) == v
    ensures Best(syms, pay) == v
  {
    var r := Best(syms, pay);
    if v > 0 { assert pay(at) <= r; }
  }

  lemma BestOfList(list: seq<Symbol>, syms: set<Symbol>, pay: Symbol -> int, v: int, at: Symbol)
    requires forall x :: x in list <==> x in syms
    requires v >= 0 && forall j :: 0 <= j < |list| ==> pay(list[j]) <= v
    requires v > 0 ==> at in list && pay(at) == v
    ensures Best(syms, pay) == v && (v > 0 ==> at in syms)
  {
    forall x | x in syms ensures pay(x) <= v { assert x in list; }
    BestIs(syms, pay, v, at);
  }

  lemma ListOneMore(pays: seq<int>, li: nat, wins: seq<LineWin>, best: LineWin)
    requires li < |pays| && Lists(pays, li, wins) && best.line == li && best.payout == pays[li]
    ensures Lists(pays, li + 1, if pays[li] == 0 then wins else wins + [best])
  {
    assert (wins + [best])[..|wins|] == wins;
  }

  lemma ReportsOneMore(m: Machine, grid: Grid, lineBet: int, li: nat, wins: seq<LineWin>, best: LineWin)
    requires Valid(m) && Shaped(m, grid) && li < |m.paylines| && best.line == li
    requires Reports(m, grid, lineBet, li, wins) && best.payout == Payouts(m, grid, lineBet)[li] >= 0
    requires best.payout > 0 ==> JustifiedWin(m, grid, lineBet, best)
    ensures Reports(m, grid, lineBet, li + 1, if best.payout > 0 then wins + [best] else wins)
  {
    ListOneMore(Payouts(m, grid, lineBet), li, wins, best);
  }

  /** The first k lines are added up and reported. */
  ghost predicate Evaluated(m: Machine, grid: Grid, lineBet: int, k: nat, wins: seq<LineWin>, total: int)
    requires Valid(m) && Shaped(m, grid) && k <= |m.paylines|
  {
    total == Total(Payouts(m, grid, lineBet)[..k]) && Reports(m, grid, lineBet, k, wins)
  }

  method EvalNext(m: Machine, grid: Grid, lineBet: int, li: nat, wins: seq<LineWin>, total: int)
    returns (wins': seq<LineWin>, total': int)
    requires Valid(m) && Shaped(m, grid) && li < |m.paylines| && Evaluated(m, grid, lineBet, li, wins, total)
    ensures Evaluated(m, grid, lineBet, li + 1, wins', total')
  {
    wins', total' := wins, total;
    var best := EvalLine(m, grid, li, lineBet);
    ReportsOneMore(m, grid, lineBet, li, wins, best);
    TotalNext(Payouts(m, grid, lineBet), li);
    if best.payout > 0 {
      wins', total' := wins + [best], total + best.payout;
    }
  }

  method EvalLines(m: Machine, grid: Grid, lineBet: int) returns (wins: seq<LineWin>, total: int)
    requires Valid(m) && Shaped(m, grid)
    ensures Evaluated(m, grid, lineBet, |m.paylines|, wins, total)
  {
    wins, total := [], 0;
    for li := 0 to |m.paylines|
      invariant Evaluated(m, grid, lineBet, li, wins, total)
    {
      wins, total := EvalNext(m, grid, lineBet, li, wins, total);
    }
  }

  // ------------------------------------------------------------------------------------
  // What a line pays
  // ------------------------------------------------------------------------------------

  /** Symbols that do not match the first cell have no run. */
  lemma OthersPayNothing(m: Machine, cells: seq<Symbol>, lineBet: int, sym: Symbol)
    requires cells != [] && !Matches(m, cells[0], sym)
    ensures Pays(m, cells, lineBet)(sym) == 0
  {
  }

  /** Trying only the candidates finds the best over the whole paytable, as long as the wild
      is not the scatter or the line does not start with it. */
  lemma CandidatesSuffice(m: Machine, cells: seq<Symbol>, lineBet: int)
    requires cells != [] && (m.wild != m.scatter || cells[0] != m.scatter)
    ensures LinePays(m, cells, lineBet) == RulePays(m, cells, lineBet)
  {
    var first, pay := cells[0], Pays(m, cells, lineBet);
    var all := m.paytable.Keys - {m.scatter};
    if first == m.scatter {
      forall x | x in all ensures pay(x) == 0 { OthersPayNothing(m, cells, lineBet, x); }
    } else if first != m.wild {
      forall x | x in all && x != first ensures pay(x) == 0 { OthersPayNothing(m, cells, lineBet, x); }
      assert first !in m.paytable ==> pay(first) == 0;
      var v := Best(all, pay);
      BestIs({first}, pay, v, first);
    }
  }

  /** No paytable factor exceeds f. */
  predicate FactorsAtMost(m: Machine, f: int) {
    forall sym <- m.paytable :: forall c :: 0 <= c < |m.paytable[sym]| ==> m.paytable[sym][c] <= f
  }

  lemma PayoutAtMost(m: Machine, sym: Symbol, count: nat, lineBet: nat, f: nat)
    requires FactorsAtMost(m, f)
    ensures PayoutFor(m, sym, count, lineBet) <= f * lineBet
  {
    if count > 0 && sym in m.paytable && count <= |m.paytable[sym]| {
      Scaled(m.paytable[sym][count - 1], f, lineBet);
    }
  }

  lemma LinePaysAtMost(m: Machine, cells: seq<Symbol>, lineBet: nat, f: nat)
    requires cells != [] && FactorsAtMost(m, f)
    ensures 0 <= LinePays(m, cells, lineBet) <= f * lineBet
  {
    forall x: Symbol ensures Pays(m, cells, lineBet)(x) <= f * lineBet {
      PayoutAtMost(m, x, Run(m, cells, x), lineBet, f);
    }
  }

  lemma Scaled(a: int, b: int, k: nat)
    requires a <= b
    ensures a * k <= b * k
  {
  }

  lemma {:induction false} TotalAtMost(q: seq<int>, cap: int)
    requires forall i :: 0 <= i < |q| ==> 0 <= q[i] <= cap
    ensures 0 <= Total(q) <= |q| * cap
  {
    if q != [] {
      TotalAtMost(q[..|q| - 1], cap);
      Distribute(|q|, cap);
    }
  }

  lemma Regroup(a: int, b: int, c: int)
    ensures a * (b * c) == (a * c) * b
  {
  }

  lemma Distribute(k: int, x: int)
    ensures k * x == (k - 1) * x + x
  {
  }

  /** Over all lines a spin pays at most the bet times the largest paytable factor. */
  lemma LineWinIsBounded(m: Machine, grid: Grid, bet: nat, f: nat)
    requires Valid(m) && Shaped(m, grid) && FactorsAtMost(m, f)
    ensures 0 <= LineWinOf(m, grid, bet) <= bet * f
  {
    PayoutsAtMost(m, grid, LineBet(m, bet), f);
    ShareOut(|m.paylines|, bet, f);
  }

  lemma PayoutsAtMost(m: Machine, grid: Grid, lineBet: nat, f: nat)
    requires Valid(m) && Shaped(m, grid) && FactorsAtMost(m, f)
    ensures 0 <= Total(Payouts(m, grid, lineBet)) <= |m.paylines| * (f * lineBet)
  {
    var pays := Payouts(m, grid, lineBet);
    forall li | 0 <= li < |pays| ensures 0 <= pays[li] <= f * lineBet {
      LinePaysAtMost(m, Cells(m, grid, li), lineBet, f);
    }
    TotalAtMost(pays, f * lineBet);
  }

  lemma ShareOut(n: nat, bet: nat, f: nat)
    requires n > 0
    ensures n * (f * (bet / n)) <= bet * f
  {
    Regroup(n, f, bet / n);
    Scaled(n * (bet / n), bet, f);
  }

  // ------------------------------------------------------------------------------------
  // Scatters and free spins
  // ------------------------------------------------------------------------------------

  function ScatterCount(grid: Grid, scatter: Symbol): nat {
    if grid == [] then 0 else ScatterCount(grid[..|grid| - 1], scatter) + multiset(grid[|grid| - 1])[scatter]
  }

  /** The entry for the count, or the last one for larger counts. */
  function Tier<T>(table: seq<T>, count: nat, none: T): T {
    if count == 0 || table == [] then none
    else if count <= |table| then table[count - 1] else table[|table| - 1]
  }

  function ScatterWin(m: Machine, count: nat, bet: int): int {
    Tier(m.scatterPays, count, 0) * bet
  }

  method EvalScatter(m: Machine, grid: Grid, bet: int) returns (count: nat, win: int)
    ensures count == ScatterCount(grid, m.scatter) && win == ScatterWin(m, count, bet)
  {
    count := 0;
    for i := 0 to |grid|
      invariant count == ScatterCount(grid[..i], m.scatter)
    {
      var reel := grid[i];
      for r := 0 to |reel|
        invariant count == ScatterCount(grid[..i], m.scatter) + multiset(reel[..r])[m.scatter]
      {
        assert reel[..r + 1] == reel[..r] + [reel[r]];
        if reel[r] == m.scatter { count := count + 1; }
      }
      assert reel[..|reel|] == reel && grid[..i + 1][..i] == grid[..i];
    }
    assert grid[..|grid|] == grid;
    if count == 0 || |m.scatterPays| == 0 { return count, 0; }
    var idx := count - 1;
    if idx >= |m.scatterPays| { idx := |m.scatterPays| - 1; }
    return count, m.scatterPays[idx] * bet;
  }

  function FreeSpinsFor(m: Machine, scatter: nat, free: bool): nat {
    if free && !m.retrigger then 0 else Tier(m.freeSpins, scatter, 0)
  }

  // ------------------------------------------------------------------------------------
  // One spin
  // ------------------------------------------------------------------------------------

  datatype Result = Result(
    stops: seq<nat>, grid: Grid, lineWin: int, scatter: nat, scatterWin: int,
    multiplier: nat, totalWin: int, awarded: nat, jackpotHit: bool)

  /** One stop per reel, drawn in reel order. */
  function Stops(reels: seq<seq<Symbol>>, s: Stream): (r: (seq<nat>, Stream))
    requires forall i :: 0 <= i < |reels| ==> |reels[i]| > 0
    ensures |r.0| == |reels|
    ensures forall i :: 0 <= i < |reels| ==> r.0[i] < |reels[i]|
  {
    if reels == [] then ([], s)
    else
      var n := |reels| - 1;
      var (stops, t) := Stops(reels[..n], s);
      (stops + [Roll(t, |reels[n]|)], After(t, |reels[n]|))
  }

  function Column(strip: seq<Symbol>, stop: nat, rows: nat): seq<Symbol>
    requires strip != []
  {
    seq(rows, r requires 0 <= r < rows => strip[(stop + r) % |strip|])
  }

  function Show(m: Machine, stops: seq<nat>): (g: Grid)
    requires Valid(m) && |stops| == |m.reels|
    ensures Shaped(m, g)
  {
    seq(|stops|, i requires 0 <= i < |stops| => Column(m.reels[i], stops[i], m.rows))
  }

  /** The sum over all lines, before the multiplier. */
  ghost function LineWinOf(m: Machine, grid: Grid, bet: nat): int
    requires Valid(m) && Shaped(m, grid)
  {
    Total(Payouts(m, grid, LineBet(m, bet)))
  }

  function Priced(m: Machine, stops: seq<nat>, grid: Grid, lineWin: int, scatter: nat, scatterWin: int, mult: nat,
                  free: bool): Result {
    Result(stops, grid, lineWin, scatter, scatterWin, mult, (lineWin + scatterWin) * mult,
           FreeSpinsFor(m, scatter, free), false)
  }

  /** What a spin that stopped there is worth. */
  ghost function Graded(m: Machine, stops: seq<nat>, bet: nat, mult: nat, free: bool): Result
    requires Valid(m) && |stops| == |m.reels|
  {
    var grid := Show(m, stops);
    var scatter := ScatterCount(grid, m.scatter);
    Priced(m, stops, grid, LineWinOf(m, grid, bet), scatter, ScatterWin(m, scatter, bet), mult, free)
  }

  /** Only a paid spin of a jackpot machine decides on the jackpot. */
  function JackpotOf(m: Machine, s: Stream, free: bool): (bool, Stream) {
    if !free && m.jackpot && m.jackpotDen > 0 then Decide(s, m.jackpotNum, m.jackpotDen) else (false, s)
  }

  /** The stops are drawn first, then the jackpot decision. */
  ghost function SpinOf(m: Machine, s: Stream, bet: nat, multiplier: nat, free: bool): (Result, Stream)
    requires Valid(m)
  {
    var (stops, t) := Stops(m.reels, s);
    var (hit, u) := JackpotOf(m, t, free);
    (Graded(m, stops, bet, if multiplier == 0 then 1 else multiplier, free).(jackpotHit := hit), u)
  }

  // ------------------------------------------------------------------------------------
  // What a result is worth
  // ------------------------------------------------------------------------------------

  /** The cells that show the scatter. */
  ghost function ScatterCells(grid: Grid, scatter: Symbol): set<(nat, nat)> {
    set i: nat, r: nat | i < |grid| && r < |grid[i]| && grid[i][r] == scatter :: (i, r)
  }

  ghost function CellsOfReel(reel: seq<Symbol>, scatter: Symbol, i: nat): set<(nat, nat)> {
    set r: nat | r < |reel| && reel[r] == scatter :: (i, r)
  }

  lemma {:induction false} ReelCells(reel: seq<Symbol>, scatter: Symbol, i: nat)
    ensures |CellsOfReel(reel, scatter, i)| == multiset(reel)[scatter]
  {
    if reel != [] {
      var n := |reel| - 1;
      ReelCells(reel[..n], scatter, i);
      assert reel == reel[..n] + [reel[n]];
      assert CellsOfReel(reel, scatter, i)
          == CellsOfReel(reel[..n], scatter, i) + if reel[n] == scatter then {(i, n)} else {};
    }
  }

  /** Every cell of the grid is counted once. */
  lemma {:induction false} ScatterCountIsCells(grid: Grid, scatter: Symbol)
    ensures ScatterCount(grid, scatter) == |ScatterCells(grid, scatter)|
  {
    if grid != [] {
      var n := |grid| - 1;
      ScatterCountIsCells(grid[..n], scatter);
      ReelCells(grid[n], scatter, n);
      var before, last := ScatterCells(grid[..n], scatter), CellsOfReel(grid[n], scatter, n);
      assert ScatterCells(grid, scatter) == before + last && before !! last;
    }
  }

  /** The grid is what the reels show at the stops. */
  ghost predicate Shows(m: Machine, r: Result)
    requires Valid(m)
  {
    && |r.stops| == |m.reels| && Shaped(m, r.grid)
    && (forall i, row :: 0 <= i < |m.reels| && 0 <= row < m.rows ==>
          r.grid[i][row] == m.reels[i][(r.stops[i] + row) % |m.reels[i]|])
  }

  /** The win is the count's entry of the table, or the last one beyond it, times the bet. */
  predicate PaysScatters(m: Machine, bet: nat, count: nat, win: int) {
    var n := |m.scatterPays|;
    && (count == 0 || n == 0 ==> win == 0)
    && (0 < count <= n ==> win == m.scatterPays[count - 1] * bet)
    && (0 < n < count ==> win == m.scatterPays[n - 1] * bet)
  }

  /** So are the free spins, of which a free spin awards some only with retriggers. */
  predicate AwardsSpins(m: Machine, free: bool, count: nat, awarded: nat) {
    var n := |m.freeSpins|;
    && (count == 0 || n == 0 || (free && !m.retrigger) ==> awarded == 0)
    && (0 < count <= n && (!free || m.retrigger) ==> awarded == m.freeSpins[count - 1])
    && (0 < n < count && (!free || m.retrigger) ==> awarded == m.freeSpins[n - 1])
  }

  /** How the fields of a result belong together. */
  ghost predicate Worth(m: Machine, bet: nat, multiplier: nat, free: bool, r: Result)
    requires Valid(m)
  {
    && Shows(m, r) && r.scatter == |ScatterCells(r.grid, m.scatter)|
    && PaysScatters(m, bet, r.scatter, r.scatterWin) && AwardsSpins(m, free, r.scatter, r.awarded)
    && r.multiplier == (if multiplier == 0 then 1 else multiplier)
    && r.totalWin == (r.lineWin + r.scatterWin) * r.multiplier
    && (free || !m.jackpot ==> !r.jackpotHit)
  }

  lemma GridShows(m: Machine, r: Result)
    requires Valid(m) && |r.stops| == |m.reels| && r.grid == Show(m, r.stops)
    ensures Shows(m, r)
  {
    forall i, row | 0 <= i < |m.reels| && 0 <= row < m.rows
      ensures r.grid[i][row] == m.reels[i][(r.stops[i] + row) % |m.reels[i]|]
    {
      assert r.grid[i] == Column(m.reels[i], r.stops[i], m.rows);
    }
  }

  lemma TablesPay(m: Machine, bet: nat, free: bool, count: nat)
    ensures PaysScatters(m, bet, count, ScatterWin(m, count, bet))
    ensures AwardsSpins(m, free, count, FreeSpinsFor(m, count, free))
  {
  }

  lemma PricedIsWorth(m: Machine, stops: seq<nat>, bet: nat, lineWin: int, mult: nat, free: bool, hit: bool)
    requires Valid(m) && |stops| == |m.reels| && mult > 0 && (free || !m.jackpot ==> !hit)
    ensures var grid := Show(m, stops); var scatter := ScatterCount(grid, m.scatter);
      var scatterWin := ScatterWin(m, scatter, bet);
      Worth(m, bet, mult, free, Priced(m, stops, grid, lineWin, scatter, scatterWin, mult, free).(jackpotHit := hit))
  {
    var grid := Show(m, stops);
    var scatter := ScatterCount(grid, m.scatter);
    var r := Priced(m, stops, grid, lineWin, scatter, ScatterWin(m, scatter, bet), mult, free).(jackpotHit := hit);
    GridShows(m, r);
    ScatterCountIsCells(grid, m.scatter);
    TablesPay(m, bet, free, scatter);
  }

  /** What every spin is worth. */
  lemma SpinIsWorth(m: Machine, s: Stream, bet: nat, multiplier: nat, free: bool)
    requires Valid(m)
    ensures Worth(m, bet, multiplier, free, SpinOf(m, s, bet, multiplier, free).0)
  {
    var (stops, t) := Stops(m.reels, s);
    var hit, mult := JackpotOf(m, t, free).0, if multiplier == 0 then 1 else multiplier;
    PricedIsWorth(m, stops, bet, LineWinOf(m, Show(m, stops), bet), mult, free, hit);
  }

  /** The lengths of the strips, in order. */
  function Lengths(reels: seq<seq<Symbol>>): (r: seq<nat>)
    ensures |r| == |reels|
  {
    seq(|reels|, i requires 0 <= i < |reels| => |reels[i]|)
  }

  /** The stop of each reel is the next draw of the stream, out of the length of its strip. */
  lemma {:induction false} StopsAreRolls(reels: seq<seq<Symbol>>, s: Stream)
    requires forall i :: 0 <= i < |reels| ==> |reels[i]| > 0
    ensures Stops(reels, s).1 == s.(drawn := s.drawn + Lengths(reels))
    ensures forall i :: 0 <= i < |reels| ==>
      Stops(reels, s).0[i] == s.gen(s.drawn + Lengths(reels)[..i + 1]) % |reels[i]|
  {
    if reels != [] {
      var n := |reels| - 1;
      StopsAreRolls(reels[..n], s);
      assert Lengths(reels) == Lengths(reels[..n]) + [|reels[n]|];
      assert s.drawn + Lengths(reels) == s.drawn + Lengths(reels[..n]) + [|reels[n]|];
      forall i | 0 <= i < n
        ensures Stops(reels, s).0[i] == s.gen(s.drawn + Lengths(reels)[..i + 1]) % |reels[i]|
      {
        assert Lengths(reels)[..i + 1] == Lengths(reels[..n])[..i + 1];
      }
      assert Lengths(reels)[..n + 1] == Lengths(reels);
    }
  }

  /** The draws of a spin, in the order that a replay relies on: one per reel, then one for the
      jackpot of a paid spin unless its outcome is certain. */
  lemma SpinDraws(m: Machine, s: Stream, bet: nat, multiplier: nat, free: bool)
    requires Valid(m)
    ensures var (r, t) := SpinOf(m, s, bet, multiplier, free); var all := s.drawn + Lengths(m.reels);
      && |r.stops| == |m.reels|
      && (forall i :: 0 <= i < |m.reels| ==>
            r.stops[i] == s.gen(s.drawn + Lengths(m.reels)[..i + 1]) % |m.reels[i]|)
      && (!free && m.jackpot && 0 < m.jackpotNum < m.jackpotDen ==>
            && r.jackpotHit == (s.gen(all + [m.jackpotDen]) % m.jackpotDen < m.jackpotNum)
            && t == Stream(s.gen, all + [m.jackpotDen]))
      && (free || !m.jackpot || m.jackpotNum <= 0 || m.jackpotDen <= 0 || m.jackpotNum >= m.jackpotDen ==>
            && r.jackpotHit == (!free && m.jackpot && m.jackpotDen > 0 && m.jackpotNum >= m.jackpotDen)
            && t == Stream(s.gen, all))
  {
    StopsAreRolls(m.reels, s);
  }

  // ------------------------------------------------------------------------------------
  // The reported lines
  // ------------------------------------------------------------------------------------

  /** The first n cells, and no more, are the symbol or the wild. */
  predicate LeadsWith(m: Machine, cells: seq<Symbol>, sym: Symbol, n: nat) {
    && 0 < n <= |cells| && (forall i :: 0 <= i < n ==> cells[i] == sym || cells[i] == m.wild)
    && (n < |cells| ==> cells[n] != sym && cells[n] != m.wild)
  }

  /** The symbol is in the paytable, leads the line that often, and the table pays v for it. */
  predicate Earns(m: Machine, cells: seq<Symbol>, lineBet: int, sym: Symbol, n: nat, v: int) {
    && sym in m.paytable && sym != m.scatter && LeadsWith(m, cells, sym, n)
    && n <= |m.paytable[sym]| && v == m.paytable[sym][n - 1] * lineBet
  }

  lemma LeadIsRun(m: Machine, cells: seq<Symbol>, sym: Symbol, n: nat)
    requires sym != m.scatter
    ensures LeadsWith(m, cells, sym, n) <==> 0 < n == Run(m, cells, sym)
  {
    if LeadsWith(m, cells, sym, n) { RunIs(m, cells, sym, n); }
  }

  lemma EarnedIsPaid(m: Machine, cells: seq<Symbol>, lineBet: int, sym: Symbol, n: nat, v: int)
    requires Earns(m, cells, lineBet, sym, n, v)
    ensures Pays(m, cells, lineBet)(sym) == v
  {
    LeadIsRun(m, cells, sym, n);
  }

  lemma PaidIsEarned(m: Machine, cells: seq<Symbol>, lineBet: int, sym: Symbol)
    requires sym != m.scatter && Pays(m, cells, lineBet)(sym) != 0
    ensures Earns(m, cells, lineBet, sym, Run(m, cells, sym), Pays(m, cells, lineBet)(sym))
  {
    LeadIsRun(m, cells, sym, Run(m, cells, sym));
  }

  /** The rule pays the best of what the symbols of the paytable earn, or nothing. */
  lemma RulePaysTheBest(m: Machine, cells: seq<Symbol>, lineBet: int)
    ensures var best := RulePays(m, cells, lineBet);
      && best >= 0 && (best == 0 || exists sym, n: nat :: Earns(m, cells, lineBet, sym, n, best))
      && (forall sym, n: nat, v :: Earns(m, cells, lineBet, sym, n, v) ==> v <= best)
  {
    var all, best := m.paytable.Keys - {m.scatter}, RulePays(m, cells, lineBet);
    forall sym, n: nat, v | Earns(m, cells, lineBet, sym, n, v) ensures v <= best {
      EarnedIsPaid(m, cells, lineBet, sym, n, v);
    }
    if best > 0 {
      var sym :| sym in all && Pays(m, cells, lineBet)(sym) == best;
      PaidIsEarned(m, cells, lineBet, sym);
    }
  }

  ghost function PaidBy(wins: seq<LineWin>): int {
    if wins == [] then 0 else PaidBy(wins[..|wins| - 1]) + wins[|wins| - 1].payout
  }

  /** A reported win is earned by its line. */
  ghost predicate Earned(m: Machine, grid: Grid, lineBet: int, w: LineWin)
    requires Valid(m) && Shaped(m, grid)
  {
    && w.line < |m.paylines| && w.payout > 0
    && Earns(m, Cells(m, grid, w.line), lineBet, w.symbol, w.count, w.payout)
  }

  lemma JustifiedIsEarned(m: Machine, cells: seq<Symbol>, lineBet: int, li: nat, w: LineWin)
    requires cells != [] && Justified(m, cells, lineBet, li, w) && w.payout > 0
    ensures Earns(m, cells, lineBet, w.symbol, w.count, w.payout)
  {
    PaidIsEarned(m, cells, lineBet, w.symbol);
  }

  /** The listed wins add up to what the lines pay. */
  lemma {:induction false} ListAddsUp(pays: seq<int>, k: nat, wins: seq<LineWin>)
    requires k <= |pays| && Lists(pays, k, wins)
    ensures PaidBy(wins) == Total(pays[..k])
  {
    if k > 0 {
      ListAddsUp(pays, k - 1, if pays[k - 1] == 0 then wins else wins[..|wins| - 1]);
      TotalNext(pays, k - 1);
    }
  }

  /** Only lines that pay are listed, with their payout and in order. */
  lemma {:induction false} ListedPay(pays: seq<int>, k: nat, wins: seq<LineWin>)
    requires k <= |pays| && Lists(pays, k, wins)
    ensures forall i :: 0 <= i < |wins| ==> wins[i].line < k && wins[i].payout == pays[wins[i].line] != 0
    ensures forall i, j :: 0 <= i < j < |wins| ==> wins[i].line < wins[j].line
  {
    if k > 0 { ListedPay(pays, k - 1, if pays[k - 1] == 0 then wins else wins[..|wins| - 1]); }
  }

  /** Every line that pays is listed. */
  lemma {:induction false} PayingIsListed(pays: seq<int>, k: nat, wins: seq<LineWin>, li: nat) returns (at: nat)
    requires li < k <= |pays| && Lists(pays, k, wins) && pays[li] != 0
    ensures at < |wins| && wins[at].line == li && wins[at].payout == pays[li]
  {
    if li == k - 1 { return |wins| - 1; }
    at := PayingIsListed(pays, k - 1, if pays[k - 1] == 0 then wins else wins[..|wins| - 1], li);
  }

  /** Each reported win names a symbol and a count that earn it. */
  lemma WinIsEarned(m: Machine, grid: Grid, lineBet: int, w: LineWin)
    requires Valid(m) && Shaped(m, grid) && JustifiedWin(m, grid, lineBet, w) && w.payout > 0
    ensures Earned(m, grid, lineBet, w)
  {
    JustifiedIsEarned(m, Cells(m, grid, w.line), lineBet, w.line, w);
  }

  /** A line that the wild and the scatter do not both claim. */
  predicate Fair(m: Machine, cells: seq<Symbol>)
    requires cells != []
  {
    m.wild != m.scatter || cells[0] != m.scatter
  }

  ghost predicate EarnsOn(m: Machine, grid: Grid, lineBet: int, li: nat, sym: Symbol, n: nat, v: int)
    requires Valid(m) && Shaped(m, grid)
  {
    && li < |m.paylines| && Fair(m, Cells(m, grid, li)) && v > 0
    && Earns(m, Cells(m, grid, li), lineBet, sym, n, v)
  }

  /** The line has a win of at least v. */
  predicate WinsAtLeast(wins: seq<LineWin>, li: nat, v: int) {
    exists i :: 0 <= i < |wins| && wins[i].line == li && wins[i].payout >= v
  }

  /** The wins add up, each is earned by its own line, no line wins twice, and whatever a line
      earns it wins at least as much. */
  ghost predicate Settles(m: Machine, grid: Grid, lineBet: int, wins: seq<LineWin>, total: int)
    requires Valid(m) && Shaped(m, grid)
  {
    && total == PaidBy(wins)
    && (forall i :: 0 <= i < |wins| ==> Earned(m, grid, lineBet, wins[i]))
    && (forall i, j :: 0 <= i < j < |wins| ==> wins[i].line < wins[j].line)
    && (forall li: nat, sym, n: nat, v :: EarnsOn(m, grid, lineBet, li, sym, n, v) ==> WinsAtLeast(wins, li, v))
  }

  lemma EarnedLineWins(m: Machine, grid: Grid, lineBet: int, wins: seq<LineWin>, li: nat, sym: Symbol, n: nat, v: int)
    requires Valid(m) && Shaped(m, grid) && Reports(m, grid, lineBet, |m.paylines|, wins)
    requires EarnsOn(m, grid, lineBet, li, sym, n, v)
    ensures WinsAtLeast(wins, li, v)
  {
    var cells, pays := Cells(m, grid, li), Payouts(m, grid, lineBet);
    CandidatesSuffice(m, cells, lineBet);
    RulePaysTheBest(m, cells, lineBet);
    assert pays[li] == LinePays(m, cells, lineBet) >= v;
    var at := PayingIsListed(pays, |pays|, wins, li);
  }

  /** A report settles all lines. */
  lemma ReportsSettle(m: Machine, grid: Grid, lineBet: int, wins: seq<LineWin>)
    requires Valid(m) && Shaped(m, grid) && Reports(m, grid, lineBet, |m.paylines|, wins)
    ensures Settles(m, grid, lineBet, wins, Total(Payouts(m, grid, lineBet)))
  {
    var pays := Payouts(m, grid, lineBet);
    ListAddsUp(pays, |pays|, wins);
    assert pays[..|pays|] == pays;
    ListedPay(pays, |pays|, wins);
    forall i | 0 <= i < |wins| ensures Earned(m, grid, lineBet, wins[i]) {
      assert pays[wins[i].line] >= 0;
      WinIsEarned(m, grid, lineBet, wins[i]);
    }
    forall li: nat, sym, n: nat, v | EarnsOn(m, grid, lineBet, li, sym, n, v)
      ensures WinsAtLeast(wins, li, v)
    {
      EarnedLineWins(m, grid, lineBet, wins, li, sym, n, v);
    }
  }

  method SpinReels(m: Machine, src: Source) returns (stops: seq<nat>, grid: Grid)
    requires Valid(m)
    modifies src
    ensures (stops, src.stream) == Stops(m.reels, old(src.stream))
    ensures grid == Show(m, stops)
  {
    stops, grid := [], [];
    for i := 0 to |m.reels|
      invariant (stops, src.stream) == Stops(m.reels[..i], old(src.stream))
      invariant |grid| == i && forall j :: 0 <= j < i ==> grid[j] == Column(m.reels[j], stops[j], m.rows)
    {
      var strip := m.reels[i];
      var stop := src.IntN(|strip|);
      assert m.reels[..i + 1][..i] == m.reels[..i];
      stops := stops + [stop];
      grid := grid + [Column(strip, stop, m.rows)];
    }
    assert m.reels[..|m.reels|] == m.reels;
  }

  method LineWins(m: Machine, grid: Grid, bet: nat) returns (wins: seq<LineWin>, lineWin: int)
    requires Valid(m) && Shaped(m, grid)
    ensures lineWin == LineWinOf(m, grid, bet)
    ensures Reports(m, grid, LineBet(m, bet), |m.paylines|, wins)
  {
    var lineBet := LineBet(m, bet);
    wins, lineWin := EvalLines(m, grid, lineBet);
    ghost var pays := Payouts(m, grid, lineBet);
    assert pays[..|pays|] == pays;
  }

  method Grade(m: Machine, stops: seq<nat>, grid: Grid, bet: nat, mult: nat, free: bool)
    returns (res: Result, wins: seq<LineWin>)
    requires Valid(m) && |stops| == |m.reels| && grid == Show(m, stops)
    ensures res == Graded(m, stops, bet, mult, free)
    ensures Reports(m, grid, LineBet(m, bet), |m.paylines|, wins)
  {
    var lineWin: int;
    wins, lineWin := LineWins(m, grid, bet);
    var scatter, scatterWin := EvalScatter(m, grid, bet);
    res := Priced(m, stops, grid, lineWin, scatter, scatterWin, mult, free);
  }

  method Spin(m: Machine, src: Source, bet: int, multiplier: nat, free: bool)
    returns (res: Option<Result>, wins: seq<LineWin>)
    requires Valid(m)
    modifies src
    ensures res.None? <==> bet <= 0
    ensures res.None? ==> src.stream == old(src.stream) && wins == []
    ensures res.Some? ==> (res.value, src.stream) == SpinOf(m, old(src.stream), bet, multiplier, free)
    ensures res.Some? ==> Worth(m, bet, multiplier, free, res.value)
    ensures res.Some? ==> Reports(m, res.value.grid, LineBet(m, bet), |m.paylines|, wins)
    ensures res.Some? ==> Settles(m, res.value.grid, bet / |m.paylines|, wins, res.value.lineWin)
  {
    if bet <= 0 { return None, []; }
    var mult := if multiplier == 0 then 1 else multiplier;
    var stops, grid := SpinReels(m, src);
    var graded: Result;
    graded, wins := Grade(m, stops, grid, bet, mult, free);
    if !free && m.jackpot && m.jackpotDen > 0 {
      var hit := src.Chance(m.jackpotNum, m.jackpotDen);
      graded := graded.(jackpotHit := hit);
    }
    res := Some(graded);
    SpinIsWorth(m, old(src.stream), bet, multiplier, free);
    ReportsSettle(m, grid, LineBet(m, bet), wins);
  }

  // ------------------------------------------------------------------------------------
  // The lines that the reels can show
  // ------------------------------------------------------------------------------------

  /** Stops that a spin can draw. */
  predicate Drawable(m: Machine, stops: seq<nat>) {
    |stops| == |m.reels| && forall i :: 0 <= i < |stops| ==> stops[i] < |m.reels[i]|
  }

  function PositionOf(strip: seq<Symbol>, sym: Symbol): (p: nat)
    requires sym in strip
    ensures p < |strip| && strip[p] == sym
  {
    if strip[0] == sym then 0 else 1 + PositionOf(strip[1..], sym)
  }

  /** The stop that shows the symbol in the row. */
  function StopFor(strip: seq<Symbol>, sym: Symbol, row: nat): (stop: nat)
    requires sym in strip && row < |strip|
    ensures stop < |strip| && strip[(stop + row) % |strip|] == sym
  {
    var p := PositionOf(strip, sym);
    WrapsAround(p, row, |strip|);
    if p >= row then p - row else p + |strip| - row
  }

  lemma WrapsAround(p: nat, row: nat, n: nat)
    requires p < n && row < n
    ensures ((if p >= row then p - row else p + n - row) + row) % n == p
  {
    if p < row { assert (p + n) % n == p by { WrapsOnce(p, n); } }
  }

  lemma WrapsOnce(p: nat, n: nat)
    requires p < n
    ensures (p + n) % n == p
  {
  }

  /** Reels turn independently, so every choice of one symbol per reel can be a line. */
  lemma AnyLineCanShow(m: Machine, li: nat, cells: seq<Symbol>) returns (stops: seq<nat>)
    requires Valid(m) && li < |m.paylines| && |cells| == |m.reels|
    requires forall i :: 0 <= i < |cells| ==> cells[i] in m.reels[i]
    ensures Drawable(m, stops) && Cells(m, Show(m, stops), li) == cells
  {
    var line := m.paylines[li];
    assert ValidLine(m, line);
    stops := seq(|cells|, i requires 0 <= i < |cells| => StopFor(m.reels[i], cells[i], line[i]));
    var shown := Cells(m, Show(m, stops), li);
    forall i | 0 <= i < |cells| ensures shown[i] == cells[i] {
      assert Show(m, stops)[i] == Column(m.reels[i], stops[i], m.rows);
    }
  }

  lemma ShownCells(m: Machine, stops: seq<nat>, li: nat, i: nat)
    requires Valid(m) && |stops| == |m.reels| && li < |m.paylines| && i < |m.reels|
    ensures Cells(m, Show(m, stops), li)[i] in m.reels[i]
  {
    assert ValidLine(m, m.paylines[li]);
    assert Show(m, stops)[i] == Column(m.reels[i], stops[i], m.rows);
  }

  /** The reels can show a line that starts with a wild and is a run of exactly c for sym. */
  predicate WildRun(m: Machine, sym: Symbol, c: nat) {
    && 0 < c <= |m.reels| && m.wild in m.reels[0]
    && (forall i :: 0 <= i < c ==> m.wild in m.reels[i] || sym in m.reels[i])
    && (c < |m.reels| ==> exists s <- m.reels[c] :: s != sym && s != m.wild)
  }

  /** Such a run of some symbol pays. */
  predicate PaidWildRun(m: Machine, lineBet: int, sym: Symbol, c: nat) {
    && sym in m.paytable && sym != m.scatter && 0 < c <= |m.paytable[sym]| && m.paytable[sym][c - 1] * lineBet > 0
    && WildRun(m, sym, c)
  }

  /** Whatever the machine shows, every line pays what the rule says. */
  ghost predicate FollowsRule(m: Machine, lineBet: int)
    requires Valid(m)
  {
    forall stops: seq<nat>, li: nat :: Drawable(m, stops) && li < |m.paylines|
      ==> LinePays(m, Cells(m, Show(m, stops), li), lineBet) == RulePays(m, Cells(m, Show(m, stops), li), lineBet)
  }

  function RunCells(m: Machine, sym: Symbol, c: nat): (cells: seq<Symbol>)
    requires Valid(m) && WildRun(m, sym, c)
    ensures |cells| == |m.reels|
  {
    seq(|m.reels|, i requires 0 <= i < |m.reels| =>
      if i < c then (if m.wild in m.reels[i] then m.wild else sym)
      else if i == c then OddOneOut(m.reels[c], sym, m.wild) else m.reels[i][0])
  }

  function OddOneOut(strip: seq<Symbol>, a: Symbol, b: Symbol): (s: Symbol)
    requires exists x <- strip :: x != a && x != b
    ensures s in strip && s != a && s != b
  {
    if strip[0] != a && strip[0] != b then strip[0]
    else
      assert forall x <- strip :: x == strip[0] || x in strip[1..];
      OddOneOut(strip[1..], a, b)
  }

  /** A line the reels can show that should pay and pays nothing. */
  lemma ShownLineMispays(m: Machine, lineBet: int, sym: Symbol, c: nat) returns (stops: seq<nat>)
    requires Valid(m) && m.wild == m.scatter && PaidWildRun(m, lineBet, sym, c)
    ensures Drawable(m, stops)
    ensures var cells := Cells(m, Show(m, stops), 0); LinePays(m, cells, lineBet) == 0 < RulePays(m, cells, lineBet)
  {
    var cells := RunCells(m, sym, c);
    stops := AnyLineCanShow(m, 0, cells);
    RunIs(m, cells, sym, c);
    assert Pays(m, cells, lineBet)(sym) > 0;
  }

  lemma ShownLineFollows(m: Machine, lineBet: int, stops: seq<nat>, li: nat)
    requires Valid(m) && Drawable(m, stops) && li < |m.paylines|
    requires m.wild != m.scatter || forall sym, c: nat :: !PaidWildRun(m, lineBet, sym, c)
    ensures LinePays(m, Cells(m, Show(m, stops), li), lineBet) == RulePays(m, Cells(m, Show(m, stops), li), lineBet)
  {
    var cells := Cells(m, Show(m, stops), li);
    forall i | 0 <= i < |cells| ensures cells[i] in m.reels[i] { ShownCells(m, stops, li, i); }
    if m.wild != m.scatter || cells[0] != m.scatter {
      CandidatesSuffice(m, cells, lineBet);
    } else {
      forall sym | sym in m.paytable && sym != m.scatter ensures Pays(m, cells, lineBet)(sym) <= 0 {
        var c := Run(m, cells, sym);
        assert c > 0 ==> WildRun(m, sym, c);
        assert !PaidWildRun(m, lineBet, sym, c);
      }
    }
  }

  /** Over everything the machine can show, lines follow the rule exactly when the wild is not
      the scatter or no paying run that starts with a wild fits its reels. */
  lemma ShownLinesFollowTheRuleExactly(m: Machine, lineBet: int)
    requires Valid(m)
    ensures FollowsRule(m, lineBet) <==> m.wild != m.scatter || forall sym, c: nat :: !PaidWildRun(m, lineBet, sym, c)
  {
    if sym, c: nat :| m.wild == m.scatter && PaidWildRun(m, lineBet, sym, c) {
      var stops := ShownLineMispays(m, lineBet, sym, c);
    } else {
      forall stops: seq<nat>, li: nat | Drawable(m, stops) && li < |m.paylines|
        ensures LinePays(m, Cells(m, Show(m, stops), li), lineBet) == RulePays(m, Cells(m, Show(m, stops), li), lineBet)
      {
        ShownLineFollows(m, lineBet, stops, li);
      }
    }
  }
}
