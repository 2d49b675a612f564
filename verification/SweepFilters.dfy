/** What the sweep's source and regime filters do: they take gates off the timeline, and nothing else. */
module SweepFilters {
  import opened Common
  import opened ParityReplay
  import opened BatchSweep
  import opened SweepParity

  /** The side a gate asks for: its own, or the other one in mean reversion. */
  function SideOf(g: Gate, m: Mode): int {
    if m.meanReversion then 0 - g.action else g.action
  }

  /** The gate comes from the source asked for, if one is. */
  predicate SourceAdmitted(g: Gate, m: Mode) {
    m.targetSource > 0 ==> g.source == m.targetSource
  }

  /** The regime has nothing against the side, if it is asked. */
  predicate SideAdmitted(side: int, regime: Option<Regime>, m: Mode) {
    m.enforceRegime && regime.Some? ==>
      && (side == 1 ==> regime.value.longOk)
      && (side == -1 ==> regime.value.shortOk)
  }

  predicate Admitted(t: Tick, m: Mode) {
    t.gate.Some? ==> SourceAdmitted(t.gate.value, m) && SideAdmitted(SideOf(t.gate.value, m), t.regime, m)
  }

  function Unfiltered(m: Mode): Mode {
    m.(targetSource := 0, enforceRegime := false)
  }

  /** The tick without a gate that is not admitted. */
  function FilteredTick(t: Tick, m: Mode): Tick {
    if Admitted(t, m) then t else t.(gate := None)
  }

  function Filtered(ticks: seq<Tick>, m: Mode): (r: seq<Tick>)
    ensures |r| == |ticks| && forall k :: 0 <= k < |r| ==> r[k] == FilteredTick(ticks[k], m)
  {
    seq(|ticks|, k requires 0 <= k < |ticks| => FilteredTick(ticks[k], m))
  }

  // ---------------------------------------------------------------- the filters are in the timeline

  lemma GatesPassAlike(t: Tick, m: Mode)
    ensures GatePasses(FilteredTick(t, m), Unfiltered(m)) <==> GatePasses(t, m)
    ensures GatePasses(t, m) ==> FilteredTick(t, m) == t
  {
  }

  lemma MovesAlike(x: Cell, c: Candle, m: Mode)
    ensures CellDrawdown(x, c, Unfiltered(m)) == CellDrawdown(x, c, m)
    ensures CellProfit(x, c, Unfiltered(m)) == CellProfit(x, c, m)
    ensures forall price :: ExecPnl(x, price, Unfiltered(m)) == ExecPnl(x, price, m)
  {
  }

  /** Nothing in the exits looks at the filters or at the gate. */
  lemma CellsExitAlike(r: RowConfig, x: Cell, t: Tick, m: Mode)
    ensures var u, s := Unfiltered(m), FilteredTick(t, m);
            && s.candle == t.candle
            && ProbedCell(r, x, t.candle, u) == ProbedCell(r, x, t.candle, m)
            && ClosedCell(r, x, s, u) == ClosedCell(r, x, t, m)
            && (ValidExit(r, x, s, u) <==> ValidExit(r, x, t, m))
            && ExecPnl(x, CellExitPrice(r, x, s.candle, u), u) == ExecPnl(x, CellExitPrice(r, x, t.candle, m), m)
  {
    hide Scaled, Admitted, CellDrawdown, CellProfit, ExecPnl, Unfiltered;
    MovesAlike(x, t.candle, m);
  }

  lemma {:induction false} TalliesAlike(r: RowConfig, cells: seq<Cell>, t: Tick, m: Mode, start: Tally, k: nat)
    requires k <= |cells|
    ensures TallyUpTo(r, cells, FilteredTick(t, m), Unfiltered(m), start, k) == TallyUpTo(r, cells, t, m, start, k)
  {
    hide ValidExit, ExecPnl, CellExitPrice, Count, FilteredTick;
    if k > 0 {
      TalliesAlike(r, cells, t, m, start, k - 1);
      CellsExitAlike(r, cells[k - 1], t, m);
    }
  }

  lemma RowsExitAlike(r: RowConfig, w: Row, t: Tick, m: Mode)
    ensures ExitRow(r, w, FilteredTick(t, m), Unfiltered(m)) == ExitRow(r, w, t, m)
  {
    hide ProbedCell, ClosedCell, TallyUpTo, FilteredTick;
    var u, s := Unfiltered(m), FilteredTick(t, m);
    var probed := ProbedCells(r, w.cells, t.candle, m);
    forall k | 0 <= k < |w.cells|
      ensures ProbedCells(r, w.cells, s.candle, u)[k] == probed[k]
      ensures ClosedCell(r, probed[k], s, u) == ClosedCell(r, probed[k], t, m)
    {
      CellsExitAlike(r, w.cells[k], t, m);
      CellsExitAlike(r, probed[k], t, m);
    }
    if w.cells == [] {
      CellsExitAlike(r, ZERO_CELL, t, m);
    }
    assert ProbedCells(r, w.cells, s.candle, u) == probed;
    TalliesAlike(r, probed, t, m, w.tally, |probed|);
  }

  lemma RowsEnterAlike(r: RowConfig, w: Row, t: Tick, m: Mode)
    requires t.gate.Some?
    ensures EntryRow(r, w, t, Unfiltered(m)) == EntryRow(r, w, t, m)
  {
    hide SignedCells, FirstFree;
    var g := t.gate.value;
    assert NewEntry(r, w, g, Unfiltered(m)) <==> NewEntry(r, w, g, m);
    if NewEntry(r, w, g, m) {
      var a, b := EntryRow(r, w, t, Unfiltered(m)), EntryRow(r, w, t, m);
      var chosen, x := FirstFree(w.cells), Cell(true, false, Direction(g, m), t.candle.close, 0, 0.0);
      forall k | 0 <= k < |w.cells|
        ensures a.cells[k] == b.cells[k]
      {
        assert Direction(g, Unfiltered(m)) == Direction(g, m);
        assert b.cells[k] == if k == chosen then x else w.cells[k];
        assert a.cells[k] == if k == chosen then x else w.cells[k];
      }
      assert |a.cells| == |b.cells| == |w.cells|;
      assert a.cells == b.cells;
    }
  }

  lemma RowsStepAlike(r: RowConfig, w: Row, t: Tick, m: Mode, live: bool)
    ensures RowStep(r, w, FilteredTick(t, m), Unfiltered(m), live) == RowStep(r, w, t, m, live)
  {
    hide ExitRow, EntryRow, GatePasses, FilteredTick, Unfiltered;
    var exited := if live then ExitRow(r, TimedRow(w), t, m) else TimedRow(w);
    RowsExitAlike(r, TimedRow(w), t, m);
    GatesPassAlike(t, m);
    if GatePasses(t, m) {
      PassingNeedsGate(t, m);
      RowsEnterAlike(r, exited, t, m);
    }
  }

  lemma PassingNeedsGate(t: Tick, m: Mode)
    requires GatePasses(t, m)
    ensures t.gate.Some?
  {
  }

  /** A sweep with filters is the sweep without them on the timeline that has lost the gates not admitted. */
  lemma {:induction false} FilteredSweep(cfgs: seq<RowConfig>, ticks: seq<Tick>, m: Mode)
    ensures BatchRun(cfgs, ticks, m) == BatchRun(cfgs, Filtered(ticks, m), Unfiltered(m))
  {
    hide RowStep, FilteredTick, Unfiltered;
    if ticks != [] {
      var n := |ticks| - 1;
      FilteredSweep(cfgs, ticks[..n], m);
      assert Filtered(ticks, m)[..n] == Filtered(ticks[..n], m);
      var before := BatchRun(cfgs, ticks[..n], m);
      forall k | 0 <= k < |cfgs|
        ensures RowStep(cfgs[k], before[k], FilteredTick(ticks[n], m), Unfiltered(m), AnyInTrade(before))
                == RowStep(cfgs[k], before[k], ticks[n], m, AnyInTrade(before))
      {
        RowsStepAlike(cfgs[k], before[k], ticks[n], m, AnyInTrade(before));
      }
    }
  }

  /** On a timeline of admitted gates the filters do nothing. */
  lemma AdmittedSweep(cfgs: seq<RowConfig>, ticks: seq<Tick>, m: Mode)
    requires forall k :: 0 <= k < |ticks| ==> Admitted(ticks[k], m)
    ensures BatchRun(cfgs, ticks, m) == BatchRun(cfgs, ticks, Unfiltered(m))
  {
    hide BatchRun, Admitted;
    FilteredSweep(cfgs, ticks, m);
    assert Filtered(ticks, m) == ticks;
  }

  /** So a filtered sweep counts, for every row, the trades of the replay on that timeline. */
  lemma FilteredSweepCountsTheReplaysTrades(ps: seq<Params>, ticks: seq<Tick>, m: Mode, i: nat)
    requires i < |ps| && Comparable(ps[i], Unfiltered(m)) && Tame(ps[i], Filtered(ticks, m))
    ensures PositiveCloses(Filtered(ticks, m))
    ensures BatchRun(EncodeAll(ps), ticks, m)[i].tally == TallyOf(Run(ps[i], Filtered(ticks, m)).trades)
  {
    hide BatchRun, Run, Comparable, Tame;
    FilteredSweep(EncodeAll(ps), ticks, m);
    SweepCountsTheReplaysTrades(ps, Filtered(ticks, m), Unfiltered(m), i);
  }

  // ---------------------------------------------------------------- what a new trade says about its gate

  /** Timers of open cells never run backwards. */
  predicate Timed(w: Row) {
    forall k :: 0 <= k < |w.cells| && w.cells[k].inTrade ==> w.cells[k].holdTimer >= 0
  }

  /** Cell `k` was opened in the step that led to `after`: it was closed before, or has not aged yet. */
  predicate NewlyOpen(before: Row, after: Row, k: nat)
    requires k < |before.cells| == |after.cells|
  {
    after.cells[k].inTrade && (!before.cells[k].inTrade || after.cells[k].holdTimer == 0)
  }

  lemma ExitedCellAged(r: RowConfig, w: Row, t: Tick, m: Mode, k: nat)
    requires Timed(w) && k < |w.cells|
    ensures var x := ExitRow(r, TimedRow(w), t, m).cells;
            |x| == |w.cells| && (x[k].inTrade ==> w.cells[k].inTrade && x[k].holdTimer == w.cells[k].holdTimer + 1)
  {
    hide Triggered, CellProfit, TallyUpTo;
  }

  lemma TimedCellAged(w: Row, k: nat)
    requires k < |w.cells|
    ensures var x := TimedRow(w).cells;
            |x| == |w.cells| && (x[k].inTrade ==> w.cells[k].inTrade && x[k].holdTimer == w.cells[k].holdTimer + 1)
  {
  }

  /** A cell that is newly open after a tick was opened by a gate of that tick which acts on its side, comes from the
      source asked for, and has nothing against it in the regime. */
  lemma NewCellsAreAdmitted(r: RowConfig, w: Row, t: Tick, m: Mode, live: bool, k: nat)
    requires Timed(w) && k < |w.cells|
    ensures var after := RowStep(r, w, t, m, live);
            && |after.cells| == |w.cells| && Timed(after)
            && (NewlyOpen(w, after, k) ==>
                  && t.gate.Some? && t.gate.value.action != 0
                  && after.cells[k].dir == SideOf(t.gate.value, m)
                  && SourceAdmitted(t.gate.value, m)
                  && SideAdmitted(after.cells[k].dir, t.regime, m))
  {
    hide ExitRow, TimedRow, EntryRow;
    var exited := if live then ExitRow(r, TimedRow(w), t, m) else TimedRow(w);
    forall j | 0 <= j < |w.cells|
      ensures |exited.cells| == |w.cells|
      ensures exited.cells[j].inTrade ==> w.cells[j].inTrade && exited.cells[j].holdTimer == w.cells[j].holdTimer + 1
    {
      ExitedCellAged(r, w, t, m, j);
      TimedCellAged(w, j);
    }
    ExitedCellAged(r, w, t, m, k);
    TimedCellAged(w, k);
    if GatePasses(t, m) {
      PassingNeedsGate(t, m);
      EntryOpensOneCell(r, exited, t, m);
    }
  }

  lemma EntryOpensOneCell(r: RowConfig, w: Row, t: Tick, m: Mode)
    requires t.gate.Some?
    ensures var after := EntryRow(r, w, t, m);
            |after.cells| == |w.cells|
            && forall k :: 0 <= k < |w.cells| ==>
                 after.cells[k] == w.cells[k]
                 || after.cells[k] == Cell(true, false, Direction(t.gate.value, m), t.candle.close, 0, 0.0)
  {
    hide NewEntry, FirstFree;
  }

  lemma {:induction false} EveryRowIsTimed(cfgs: seq<RowConfig>, ticks: seq<Tick>, m: Mode, n: nat)
    requires n < |cfgs|
    ensures Timed(BatchRun(cfgs, ticks, m)[n]) && |BatchRun(cfgs, ticks, m)[n].cells| == SLOTS
  {
    hide RowStep, Timed;
    if ticks == [] {
      NothingIsTimed();
    } else {
      var i := |ticks| - 1;
      var before := BatchRun(cfgs, ticks[..i], m);
      EveryRowIsTimed(cfgs, ticks[..i], m, n);
      NewCellsAreAdmitted(cfgs[n], before[n], ticks[i], m, AnyInTrade(before), 0);
    }
  }

  lemma NothingIsTimed()
    ensures Timed(ZERO_ROW) && |ZERO_ROW.cells| == SLOTS
  {
  }

  /** In any sweep: every cell that is newly open after tick `i` was opened by an admitted gate, on its side. */
  lemma EveryNewTradeIsAdmitted(cfgs: seq<RowConfig>, ticks: seq<Tick>, m: Mode, n: nat, i: nat, k: nat)
    requires n < |cfgs| && i < |ticks| && k < SLOTS
    ensures var before, after := BatchRun(cfgs, ticks[..i], m)[n], BatchRun(cfgs, ticks[..i + 1], m)[n];
            && |before.cells| == |after.cells| == SLOTS
            && (NewlyOpen(before, after, k) ==>
                  && ticks[i].gate.Some? && ticks[i].gate.value.action != 0
                  && after.cells[k].dir == SideOf(ticks[i].gate.value, m)
                  && SourceAdmitted(ticks[i].gate.value, m)
                  && SideAdmitted(after.cells[k].dir, ticks[i].regime, m))
  {
    hide RowStep, NewlyOpen, SideAdmitted, SourceAdmitted, SideOf;
    assert ticks[..i + 1][..i] == ticks[..i];
    var rows := BatchRun(cfgs, ticks[..i], m);
    EveryRowIsTimed(cfgs, ticks[..i], m, n);
    NewCellsAreAdmitted(cfgs[n], rows[n], ticks[i], m, AnyInTrade(rows), k);
  }
}
