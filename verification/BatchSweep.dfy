/** The batch sweep: many parameter sets at once, five masked slots each. Whatever a closed slot last
    held stays in it, is updated along with the rest, and must not show in the result. */
module BatchSweep {
  import opened Common
  import opened ParityReplay

  /** One row of the configuration tensors; 99 and -1 stand for "switched off". */
  datatype RowConfig = RowConfig(
    hold: int,
    reps: real,
    hazard: real,
    coherence: real,
    stability: real,
    entropy: real,
    stopLoss: real,
    takeProfit: real,
    trailing: real,
    hazardExit: real,
    breakeven: real)

  const OFF := 99.0

  /** How a parameter set is laid out in the configuration tensors. */
  function Encode(p: Params): RowConfig {
    RowConfig(12 * p.holdMinutes, p.minRepetitions as real, p.hazardThreshold.GetOr(1.0),
              p.coherence.GetOr(0.0), p.stability.GetOr(0.0), p.entropy.GetOr(999.0),
              p.stopLoss.GetOr(OFF), p.takeProfit.GetOr(OFF), p.trailing.GetOr(OFF),
              p.hazardExit.GetOr(-1.0), p.breakeven.GetOr(OFF))
  }

  /** One slot of one row, open or not. */
  datatype Cell = Cell(inTrade: bool, beActivated: bool, dir: Side, entryPrice: real, holdTimer: int, peakProfit: real)

  /** What a row adds up: net basis points, wins and losses. */
  datatype Tally = Tally(bps: real, wins: nat, losses: nat)

  datatype Row = Row(cells: seq<Cell>, cooldown: nat, tally: Tally)

  const ZERO_CELL := Cell(false, false, 0, 0.0, 0, 0.0)
  const ZERO_ROW := Row(seq(SLOTS, _ => ZERO_CELL), 0, Tally(0.0, 0, 0))

  /** What is shared by all rows: the strategy switches, the source and regime filters, and `junk`, whatever a
      division by zero yields. */
  datatype Mode = Mode(meanReversion: bool, requireStPeak: bool, targetSource: int, enforceRegime: bool,
                       junk: real -> real)

  function Divide(a: real, b: real, m: Mode): real {
    if b == 0.0 then m.junk(a) else a / b
  }

  // ---------------------------------------------------------------- one cell

  function CellDrawdown(x: Cell, c: Candle, m: Mode): real {
    if x.dir == 1 then Divide(c.low - x.entryPrice, x.entryPrice, m)
    else -Divide(c.high - x.entryPrice, x.entryPrice, m)
  }

  function CellProfit(x: Cell, c: Candle, m: Mode): real {
    if x.dir == 1 then Divide(c.high - x.entryPrice, x.entryPrice, m)
    else -Divide(c.low - x.entryPrice, x.entryPrice, m)
  }

  function TimedCell(x: Cell): Cell {
    x.(holdTimer := if x.inTrade then x.holdTimer + 1 else x.holdTimer)
  }

  /** The peak moves only under the mask; the breakeven latch moves in closed slots too. */
  function ProbedCell(r: RowConfig, x: Cell, c: Candle, m: Mode): Cell {
    var profit := CellProfit(x, c, m);
    x.(peakProfit := if x.inTrade && profit > x.peakProfit then profit else x.peakProfit,
       beActivated := x.beActivated || profit >= r.breakeven)
  }

  predicate CellHitTrail(r: RowConfig, x: Cell, c: Candle, m: Mode) {
    x.peakProfit > 0.0 && x.peakProfit - CellDrawdown(x, c, m) >= r.trailing
  }

  predicate CellHitBreakeven(x: Cell, c: Candle, m: Mode) {
    x.beActivated && CellDrawdown(x, c, m) <= 0.0
  }

  /** Some rule fires on a probed cell; whether that means anything is up to the mask. */
  predicate Triggered(r: RowConfig, x: Cell, t: Tick, m: Mode) {
    || CellDrawdown(x, t.candle, m) <= -r.stopLoss
    || CellProfit(x, t.candle, m) >= r.takeProfit
    || CellHitBreakeven(x, t.candle, m)
    || (x.holdTimer > 0 && t.hazard <= r.hazardExit && r.hazardExit < 0.999)
    || CellHitTrail(r, x, t.candle, m)
    || x.holdTimer >= r.hold
  }

  /** The chain of masked overwrites that settles the exit price. */
  function CellExitPrice(r: RowConfig, x: Cell, c: Candle, m: Mode): real {
    var close := c.close;
    var stopped := if CellDrawdown(x, c, m) <= -r.stopLoss
                   then Scaled(x.entryPrice, -(if x.dir == 1 then r.stopLoss else -r.stopLoss)) else close;
    var targeted := if CellProfit(x, c, m) >= r.takeProfit
                    then Scaled(x.entryPrice, if x.dir == 1 then r.takeProfit else -r.takeProfit) else stopped;
    var trailed := if CellHitTrail(r, x, c, m)
                   then Scaled(x.entryPrice, (x.peakProfit - r.trailing) * (if x.dir == 1 then 1.0 else -1.0))
                   else targeted;
    if CellHitBreakeven(x, c, m) then x.entryPrice else trailed
  }

  function ExecPnl(x: Cell, price: real, m: Mode): real {
    (if x.dir == 1 then Divide(price - x.entryPrice, x.entryPrice, m)
     else Divide(x.entryPrice - price, x.entryPrice, m))
    - 1.5 / 10000.0
  }

  predicate ValidExit(r: RowConfig, x: Cell, t: Tick, m: Mode) {
    x.inTrade && Triggered(r, x, t, m)
  }

  function Count(tally: Tally, pnl: real): Tally {
    var won := if pnl > 0.0 then 1 else 0;
    Tally(tally.bps + pnl * 10000.0, tally.wins + won, tally.losses + 1 - won)
  }

  // ---------------------------------------------------------------- one row

  /** The masked sums over the first `k` slots of a probed row. */
  function TallyUpTo(r: RowConfig, cells: seq<Cell>, t: Tick, m: Mode, start: Tally, k: nat): Tally
    requires k <= |cells|
  {
    if k == 0 then start
    else
      var before := TallyUpTo(r, cells, t, m, start, k - 1);
      var x := cells[k - 1];
      if ValidExit(r, x, t, m) then Count(before, ExecPnl(x, CellExitPrice(r, x, t.candle, m), m)) else before
  }

  function ClosedCell(r: RowConfig, x: Cell, t: Tick, m: Mode): Cell {
    x.(inTrade := x.inTrade && !Triggered(r, x, t, m))
  }

  function TimedRow(w: Row): Row {
    Row(seq(|w.cells|, k requires 0 <= k < |w.cells| => TimedCell(w.cells[k])),
        if w.cooldown > 0 then w.cooldown - 1 else w.cooldown, w.tally)
  }

  function ProbedCells(r: RowConfig, cells: seq<Cell>, c: Candle, m: Mode): (s: seq<Cell>)
    ensures |s| == |cells| && forall k :: 0 <= k < |s| ==> s[k] == ProbedCell(r, cells[k], c, m)
  {
    seq(|cells|, k requires 0 <= k < |cells| => ProbedCell(r, cells[k], c, m))
  }

  function ExitRow(r: RowConfig, w: Row, t: Tick, m: Mode): Row {
    var probed := ProbedCells(r, w.cells, t.candle, m);
    Row(seq(|probed|, k requires 0 <= k < |probed| => ClosedCell(r, probed[k], t, m)),
        w.cooldown, TallyUpTo(r, probed, t, m, w.tally, |probed|))
  }

  function SignedCells(cells: seq<Cell>): int {
    if cells == [] then 0
    else SignedCells(cells[..|cells| - 1]) + (if cells[|cells| - 1].inTrade then cells[|cells| - 1].dir else 0)
  }

  /** `argmax` over the negated mask: the first closed slot, or 0 when all are open. */
  function FirstFree(cells: seq<Cell>): nat {
    if exists k :: 0 <= k < |cells| && !cells[k].inTrade then FirstFreeFrom(cells, 0) else 0
  }

  function FirstFreeFrom(cells: seq<Cell>, k: nat): nat
    requires k <= |cells|
    decreases |cells| - k
  {
    if k == |cells| || !cells[k].inTrade then k else FirstFreeFrom(cells, k + 1)
  }

  predicate HasFree(cells: seq<Cell>) {
    exists k :: 0 <= k < |cells| && !cells[k].inTrade
  }

  predicate RowGateValid(r: RowConfig, g: Gate, m: Mode) {
    && (if m.meanReversion then g.hazard >= r.hazard else g.hazard <= r.hazard)
    && g.reps >= r.reps
    && g.coherence >= r.coherence
    && g.stability >= r.stability
    && g.entropy <= r.entropy
    && (m.meanReversion && m.requireStPeak ==> g.stPeak)
  }

  function Direction(g: Gate, m: Mode): Side {
    if m.meanReversion then -g.action else g.action
  }

  /** The filters in front of all rows: an acting gate, of the source asked for, on a side the regime allows. */
  predicate GatePasses(t: Tick, m: Mode) {
    && t.gate.Some? && t.gate.value.action != 0
    && (m.targetSource > 0 ==> t.gate.value.source == m.targetSource)
    && (m.enforceRegime && t.regime.Some? ==>
          if Direction(t.gate.value, m) == 1 then t.regime.value.longOk else t.regime.value.shortOk)
  }

  predicate NewEntry(r: RowConfig, w: Row, g: Gate, m: Mode) {
    var side := Sign(SignedCells(w.cells));
    && RowGateValid(r, g, m)
    && HasFree(w.cells)
    && w.cooldown == 0
    && !(side != 0 && side != Direction(g, m))
  }

  /** Only the mask, direction, entry, timer, peak and latch of the chosen slot are rewritten. */
  function EntryRow(r: RowConfig, w: Row, t: Tick, m: Mode): Row
    requires t.gate.Some?
  {
    var g := t.gate.value;
    if NewEntry(r, w, g, m) then
      var chosen := FirstFree(w.cells);
      Row(seq(|w.cells|, k requires 0 <= k < |w.cells| =>
            if k == chosen then Cell(true, false, Direction(g, m), t.candle.close, 0, 0.0) else w.cells[k]),
          COOLDOWN, w.tally)
    else w
  }

  // ---------------------------------------------------------------- the whole batch

  predicate AnyInTrade(rows: seq<Row>) {
    exists n, k :: 0 <= n < |rows| && 0 <= k < |rows[n].cells| && rows[n].cells[k].inTrade
  }

  /** One candle for one row; `live` says whether any row at all had a trade open. */
  function RowStep(r: RowConfig, w: Row, t: Tick, m: Mode, live: bool): Row {
    var timed := TimedRow(w);
    var exited := if live then ExitRow(r, timed, t, m) else timed;
    if GatePasses(t, m) then EntryRow(r, exited, t, m) else exited
  }

  /** All rows after the given ticks. */
  function BatchRun(cfgs: seq<RowConfig>, ticks: seq<Tick>, m: Mode): (rows: seq<Row>)
    ensures |rows| == |cfgs|
  {
    if ticks == [] then seq(|cfgs|, _ => ZERO_ROW)
    else
      var before := BatchRun(cfgs, ticks[..|ticks| - 1], m);
      seq(|cfgs|, n requires 0 <= n < |cfgs| => RowStep(cfgs[n], before[n], ticks[|ticks| - 1], m, AnyInTrade(before)))
  }

  lemma TimingKeepsMask(rows: seq<Row>, timed: seq<Row>)
    requires |rows| == |timed| && forall n :: 0 <= n < |rows| ==> timed[n] == TimedRow(rows[n])
    ensures AnyInTrade(timed) <==> AnyInTrade(rows)
  {
    if AnyInTrade(rows) {
      var n, k :| 0 <= n < |rows| && 0 <= k < |rows[n].cells| && rows[n].cells[k].inTrade;
      assert timed[n].cells[k].inTrade;
    }
    if AnyInTrade(timed) {
      var n, k :| 0 <= n < |timed| && 0 <= k < |timed[n].cells| && timed[n].cells[k].inTrade;
      assert rows[n].cells[k].inTrade;
    }
  }

  method SomeRowInTrade(rows: seq<Row>) returns (live: bool)
    ensures live <==> AnyInTrade(rows)
  {
    live := exists n, k | 0 <= n < |rows| && 0 <= k < |rows[n].cells| :: rows[n].cells[k].inTrade;
  }

  /** The time loop: each phase rebinds every row, and the exit phase is skipped while no row is in a trade. */
  method ProcessTimeline(cfgs: seq<RowConfig>, ticks: seq<Tick>, m: Mode) returns (tallies: seq<Tally>)
    ensures |tallies| == |cfgs|
    ensures forall n :: 0 <= n < |cfgs| ==> tallies[n] == BatchRun(cfgs, ticks, m)[n].tally
  {
    hide TimedRow, ExitRow, EntryRow;
    var rows := seq(|cfgs|, _ => ZERO_ROW);
    for t := 0 to |ticks|
      invariant rows == BatchRun(cfgs, ticks[..t], m)
    {
      var tick := ticks[t];
      ghost var before := rows;
      assert ticks[..t + 1][..t] == ticks[..t];
      rows := seq(|rows|, n requires 0 <= n < |rows| => TimedRow(rows[n]));
      TimingKeepsMask(before, rows);
      var live := SomeRowInTrade(rows);
      if live {
        rows := seq(|rows|, n requires 0 <= n < |rows| => ExitRow(cfgs[n], rows[n], tick, m));
      }
      var passes := tick.gate.Some? && tick.gate.value.action != 0
                    && !(m.targetSource > 0 && tick.gate.value.source != m.targetSource);
      if passes && tick.regime.Some? && m.enforceRegime {
        var direction := Direction(tick.gate.value, m);
        passes := (direction == 1 && tick.regime.value.longOk) || (direction == -1 && tick.regime.value.shortOk);
      }
      if passes {
        rows := seq(|rows|, n requires 0 <= n < |rows| => EntryRow(cfgs[n], rows[n], tick, m));
      }
    }
    assert ticks[..|ticks|] == ticks;
    tallies := seq(|rows|, n requires 0 <= n < |rows| => rows[n].tally);
  }
}
