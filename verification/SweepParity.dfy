/** Each row of the batch sweep counts exactly the trades of the scalar replay of its parameter set,
    whatever the other rows do and whatever is left over in closed slots. */
module SweepParity {
  import opened Common
  import opened ParityReplay
  import opened ParityInvariants
  import opened BatchSweep

  // ---------------------------------------------------------------- what is compared

  /** The return of a closed trade as a fraction of its entry price. */
  function GrossReturn(trade: ClosedTrade): real
    requires trade.entryPrice != 0.0
  {
    if trade.direction == 1 then (trade.exitPrice - trade.entryPrice) / trade.entryPrice
    else (trade.entryPrice - trade.exitPrice) / trade.entryPrice
  }

  /** The exporter passes over trades with a zero price. */
  predicate Exported(trade: ClosedTrade) {
    trade.entryPrice != 0.0 && trade.exitPrice != 0.0
  }

  function NetBps(trade: ClosedTrade): real
    requires trade.entryPrice != 0.0
  {
    GrossReturn(trade) * 10000.0 - 1.5
  }

  /** The exporter's basis points, with the wins and losses they imply. */
  function TallyOf(trades: seq<ClosedTrade>): Tally {
    if trades == [] then Tally(0.0, 0, 0)
    else
      var before, last := TallyOf(trades[..|trades| - 1]), trades[|trades| - 1];
      if !Exported(last) then before
      else
        Tally(before.bps + NetBps(last),
              before.wins + (if NetBps(last) > 0.0 then 1 else 0),
              before.losses + (if NetBps(last) <= 0.0 then 1 else 0))
  }

  /** A parameter set that both sides can run: signs as they are meant, and the sweep's filters off. */
  predicate Matched(p: Params, m: Mode) {
    && p.meanReversion == m.meanReversion && p.stPeakMode == m.requireStPeak
    && m.targetSource <= 0 && !m.enforceRegime
    && (p.stopLoss.Some? ==> p.stopLoss.value >= 0.0)
    && (p.takeProfit.Some? ==> p.takeProfit.value >= 0.0)
    && (p.trailing.Some? ==> p.trailing.value >= 0.0)
    && (p.breakeven.Some? ==> p.breakeven.value >= 0.0)
  }

  /** A trade leaves at the first candle after its entry whatever the candle is: below the entry it meets the stop,
      above it the target or the trailing stop. */
  predicate AlwaysLeaves(p: Params) {
    p.stopLoss == Some(0.0) && (p.takeProfit == Some(0.0) || p.trailing == Some(0.0))
  }

  /** Matched, and with a hold of at least a minute, unless no trade is ever held. */
  predicate Comparable(p: Params, m: Mode) {
    Matched(p, m) && (p.holdMinutes >= 1 || AlwaysLeaves(p))
  }

  /** Some rule is switched off, so its sentinel must be out of reach. */
  predicate Omits(p: Params) {
    p.stopLoss.None? || p.takeProfit.None? || p.trailing.None? || p.breakeven.None?
  }

  /** A gate within the defaults that stand for the thresholds not given. */
  predicate TameGate(p: Params, g: Gate) {
    && (p.hazardThreshold.None? ==> if p.meanReversion then g.hazard >= 1.0 else g.hazard <= 1.0)
    && (p.minRepetitions < 1 ==> g.reps >= 1.0)
    && (p.coherence.None? ==> g.coherence >= 0.0)
    && (p.stability.None? ==> g.stability >= 0.0)
    && (p.entropy.None? ==> g.entropy <= 999.0)
  }

  predicate TameTick(p: Params, t: Tick) {
    && 0.0 < t.candle.low <= t.candle.close <= t.candle.high
    && (p.hazardExit.None? ==> t.hazard > -1.0)
    && (t.gate.Some? && t.gate.value.action != 0 ==> TameGate(p, t.gate.value) && p.sizing(t.candle.close) > 0)
  }

  /** Positive prices, orders with a size where a gate acts, and no high 49 times an earlier close while a rule is
      switched off. */
  ghost predicate Tame(p: Params, ticks: seq<Tick>) {
    && (forall k :: 0 <= k < |ticks| ==> TameTick(p, ticks[k]))
    && (Omits(p) ==> forall i, j :: 0 <= i < j < |ticks| ==> ticks[j].candle.high < 49.0 * ticks[i].candle.close)
  }

  // ---------------------------------------------------------------- one open slot

  /** An open slot whose excursions stay short of the sentinels. */
  predicate TameSlot(p: Params, s: Slot) {
    && s.entryPrice > 0.0 && s.direction != 0 && s.holdTicks >= 0
    && s.peakProfit >= 0.0
    && (s.direction == -1 ==> s.peakProfit < 1.0)
    && (Omits(p) ==> s.peakProfit < 48.0)
  }

  predicate InReach(p: Params, s: Slot, c: Candle) {
    Omits(p) ==> c.high < 49.0 * s.entryPrice
  }

  lemma PctBounds(x: real, entry: real)
    requires entry > 0.0
    ensures x > 0.0 ==> PctChange(x, entry) > -1.0
    ensures x < 49.0 * entry ==> PctChange(x, entry) < 48.0
  {
    DivCompare(x - entry, entry, -1.0);
    DivCompare(x - entry, entry, 48.0);
  }

  lemma PctMonotone(x: real, y: real, entry: real)
    requires entry > 0.0 && x <= y
    ensures PctChange(x, entry) <= PctChange(y, entry)
  {
    DivMonotone(x - entry, y - entry, entry);
  }

  lemma DivMonotone(x: real, y: real, z: real)
    requires z > 0.0 && x <= y
    ensures x / z <= y / z
  {
    DivBelow(x, z, y / z, y);
  }

  lemma DivBelow(x: real, z: real, bound: real, y: real)
    requires z > 0.0 && x <= y && bound == y / z
    ensures x / z <= bound
  {
    DivTimes(y, z);
    DivCompare(x, z, bound);
  }

  lemma DivCompare(x: real, y: real, bound: real)
    requires y > 0.0
    ensures x > bound * y ==> x / y > bound
    ensures x < bound * y ==> x / y < bound
  {
    DivTimes(x, y);
    RealTimesMonotone(x / y, bound, y);
    RealTimesMonotone(bound, x / y, y);
  }

  lemma DivTimes(x: real, y: real)
    requires y > 0.0
    ensures x / y * y == x
  {
  }

  lemma RealTimesMonotone(a: real, b: real, y: real)
    requires y > 0.0
    ensures a <= b ==> a * y <= b * y
  {
  }

  /** The masked cell holds what the slot holds, one tick of the timer ahead. */
  predicate CellIsSlot(x: Cell, s: Slot, ahead: nat) {
    && x.inTrade
    && x.dir == s.direction
    && x.entryPrice == s.entryPrice
    && x.holdTimer == s.holdTicks + ahead
    && x.peakProfit == s.peakProfit
    && x.beActivated == s.breakevenActivated
  }

  /** Excursions of a tame slot in a tame candle, on both sides. */
  lemma SameExcursions(p: Params, x: Cell, s: Slot, t: Tick, m: Mode)
    requires TameTick(p, t) && TameSlot(p, s) && InReach(p, s, t.candle)
    requires x.dir == s.direction && x.entryPrice == s.entryPrice
    ensures CellDrawdown(x, t.candle, m) == Drawdown(s, t.candle)
    ensures CellProfit(x, t.candle, m) == Profit(s, t.candle)
    ensures Drawdown(s, t.candle) <= Profit(s, t.candle)
    ensures s.direction == 1 ==> Drawdown(s, t.candle) > -1.0
    ensures s.direction == -1 ==> Profit(s, t.candle) < 1.0
    ensures Omits(p) ==> Drawdown(s, t.candle) > -48.0 && Profit(s, t.candle) < 48.0
  {
    PctBounds(t.candle.low, s.entryPrice);
    PctBounds(t.candle.high, s.entryPrice);
    PctMonotone(t.candle.low, t.candle.high, s.entryPrice);
  }

  lemma ProbedIsAged(p: Params, x: Cell, s: Slot, t: Tick, m: Mode)
    requires Comparable(p, m) && TameTick(p, t) && TameSlot(p, s) && InReach(p, s, t.candle)
    requires CellIsSlot(x, s, 1)
    ensures CellIsSlot(ProbedCell(Encode(p), x, t.candle, m), AgedSlot(p, s, t.candle), 0)
    ensures TameSlot(p, AgedSlot(p, s, t.candle))
  {
    SameExcursions(p, x, s, t, m);
    hide PctChange, Divide, CellProfit, CellDrawdown, Profit, Drawdown;
  }

  /** The same rules fire. */
  lemma SameTrigger(p: Params, y: Cell, a: Slot, t: Tick, m: Mode)
    requires Comparable(p, m) && TameTick(p, t) && TameSlot(p, a) && InReach(p, a, t.candle)
    requires CellIsSlot(y, a, 0) && a.peakProfit >= Profit(a, t.candle)
    ensures CellHitTrail(Encode(p), y, t.candle, m) <==> HitTrail(p, a, t.candle)
    ensures CellHitBreakeven(y, t.candle, m) <==> HitBreakeven(a, t.candle)
    ensures Triggered(Encode(p), y, t, m) <==> Leaves(p, a, t)
  {
    SameExcursions(p, y, a, t, m);
    hide PctChange, Divide, CellProfit, CellDrawdown, Profit, Drawdown;
  }

  /** The exit prices agree and are positive, so the exporter counts the trade. */
  lemma SameExitPrice(p: Params, y: Cell, a: Slot, t: Tick, m: Mode)
    requires Comparable(p, m) && TameTick(p, t) && TameSlot(p, a) && InReach(p, a, t.candle)
    requires CellIsSlot(y, a, 0) && a.peakProfit >= Profit(a, t.candle)
    ensures CellExitPrice(Encode(p), y, t.candle, m) == ExitPrice(p, a, t.candle)
    ensures ExitPrice(p, a, t.candle) > 0.0
  {
    SameTrigger(p, y, a, t, m);
    SameExcursions(p, y, a, t, m);
    hide PctChange, Divide, CellProfit, CellDrawdown, Profit, Drawdown, Leaves, Triggered, CellHitTrail,
         CellHitBreakeven, Scaled;
    var c, e := t.candle, a.entryPrice;
    if HitBreakeven(a, c) {
    } else if HitTrail(p, a, c) {
      ScaledIsPositive(e, Along(a.peakProfit - p.trailing.value, a.direction));
    } else if HitTarget(p, a, c) {
      ScaledIsPositive(e, Along(p.takeProfit.value, a.direction));
    } else if HitStop(p, a, c) {
      ScaledIsPositive(e, -Along(p.stopLoss.value, a.direction));
    }
  }

  lemma ScaledIsPositive(entry: real, move: real)
    requires entry > 0.0 && move > -1.0
    ensures Scaled(entry, move) > 0.0
  {
  }

  /** Closing the cell counts what the exporter makes of the closed slot. */
  lemma SameCount(p: Params, y: Cell, a: Slot, t: Tick, m: Mode, trades: seq<ClosedTrade>)
    requires Comparable(p, m) && TameTick(p, t) && TameSlot(p, a) && InReach(p, a, t.candle)
    requires CellIsSlot(y, a, 0) && a.peakProfit >= Profit(a, t.candle)
    ensures Count(TallyOf(trades), ExecPnl(y, CellExitPrice(Encode(p), y, t.candle, m), m))
            == TallyOf(trades + [TradeOf(p, a, t)])
  {
    SameExitPrice(p, y, a, t, m);
    hide CellExitPrice, ExitPrice;
    var trade := TradeOf(p, a, t);
    assert (trades + [trade])[..|trades|] == trades;
    assert ExecPnl(y, trade.exitPrice, m) == GrossReturn(trade) - 1.5 / 10000.0;
  }

  // ---------------------------------------------------------------- one row

  /** Open slots agree; about closed ones nothing is said. */
  predicate SlotsMatch(cells: seq<Cell>, slots: seq<Option<Slot>>, ahead: nat) {
    && |cells| == |slots|
    && forall k :: 0 <= k < |cells| ==>
         (cells[k].inTrade <==> slots[k].Some?) && (slots[k].Some? ==> CellIsSlot(cells[k], slots[k].value, ahead))
  }

  predicate RowMatches(w: Row, st: State) {
    SlotsMatch(w.cells, st.slots, 0) && w.cooldown == st.cooldown && w.tally == TallyOf(st.trades)
  }

  predicate TameSlots(p: Params, slots: seq<Option<Slot>>) {
    forall k :: 0 <= k < |slots| && slots[k].Some? ==> TameSlot(p, slots[k].value)
  }

  predicate SlotsInReach(p: Params, slots: seq<Option<Slot>>, c: Candle) {
    forall k :: 0 <= k < |slots| && slots[k].Some? ==> InReach(p, slots[k].value, c)
  }

  // ---------------------------------------------------------------- the exit phase of one row

  /** The masked cell `x` went through the exit phase as the slot did, from `before` to `after`. */
  predicate SlotDone(p: Params, x: Cell, before: Option<Slot>, after: Option<Slot>, t: Tick, m: Mode) {
    var y := ClosedCell(Encode(p), ProbedCell(Encode(p), x, t.candle, m), t, m);
    && (y.inTrade <==> after.Some?)
    && (after.Some? ==>
          && CellIsSlot(y, after.value, 0)
          && TameSlot(p, after.value)
          && before.Some? && after.value.entryPrice == before.value.entryPrice)
  }

  /** One slot of the exit phase, masked and scalar. */
  lemma SlotExit(p: Params, x: Cell, st: State, t: Tick, m: Mode, k: nat)
    requires Comparable(p, m) && TameTick(p, t)
    requires k < SLOTS && PositiveEntries(st.slots) && TameSlots(p, st.slots) && SlotsInReach(p, st.slots, t.candle)
    requires x.inTrade <==> st.slots[k].Some?
    requires st.slots[k].Some? ==> CellIsSlot(x, st.slots[k].value, 1)
    ensures var y, after := ProbedCell(Encode(p), x, t.candle, m), OneSlot(p, st, t, k);
            && after.slots == st.slots[k := after.slots[k]]
            && SlotDone(p, x, st.slots[k], after.slots[k], t, m)
            && TallyOf(after.trades) ==
               (if ValidExit(Encode(p), y, t, m) then
                  Count(TallyOf(st.trades), ExecPnl(y, CellExitPrice(Encode(p), y, t.candle, m), m))
                else TallyOf(st.trades))
  {
    if st.slots[k].Some? {
      var s := st.slots[k].value;
      var y, a := ProbedCell(Encode(p), x, t.candle, m), AgedSlot(p, s, t.candle);
      ProbedIsAged(p, x, s, t, m);
      AgedKeepsEntry(p, s, t);
      SameTrigger(p, y, a, t, m);
      SameCount(p, y, a, t, m, st.trades);
      hide Triggered, Leaves, ProbedCell, AgedSlot, CellExitPrice, ExitPrice, ExecPnl, TallyOf, TradeOf, SlotUsd,
           TradeFee, TameSlot;
    }
  }

  lemma DoneSlotsStayTame(p: Params, x: Cell, st: State, after: State, t: Tick, m: Mode, k: nat)
    requires k < SLOTS && TameSlots(p, st.slots) && SlotsInReach(p, st.slots, t.candle)
    requires after.slots == st.slots[k := after.slots[k]] && SlotDone(p, x, st.slots[k], after.slots[k], t, m)
    ensures TameSlots(p, after.slots) && SlotsInReach(p, after.slots, t.candle)
  {
  }

  /** Slots `k` and up of the exit phase, with the tally of the slots before them. */
  lemma {:induction false} SlotsExit(p: Params, cells: seq<Cell>, st: State, t: Tick, m: Mode, start: Tally, k: nat)
    requires Comparable(p, m) && TameTick(p, t)
    requires k <= SLOTS == |cells|
    requires PositiveEntries(st.slots) && TameSlots(p, st.slots) && SlotsInReach(p, st.slots, t.candle)
    requires forall j :: k <= j < SLOTS ==>
      (cells[j].inTrade <==> st.slots[j].Some?) && (st.slots[j].Some? ==> CellIsSlot(cells[j], st.slots[j].value, 1))
    requires TallyOf(st.trades) == TallyUpTo(Encode(p), ProbedCells(Encode(p), cells, t.candle, m), t, m, start, k)
    ensures var after := ExitFrom(p, st, t, k);
            && TallyOf(after.trades)
               == TallyUpTo(Encode(p), ProbedCells(Encode(p), cells, t.candle, m), t, m, start, SLOTS)
            && (forall j :: 0 <= j < k ==> after.slots[j] == st.slots[j])
            && (forall j :: k <= j < SLOTS ==> SlotDone(p, cells[j], st.slots[j], after.slots[j], t, m))
    decreases SLOTS - k
  {
    hide OneSlot, ProbedCell, ValidExit, ExecPnl, CellExitPrice, CellIsSlot, TallyOf, Count, TameSlots, SlotsInReach,
         SlotDone, Comparable, TameTick;
    if k < SLOTS {
      SlotExit(p, cells[k], st, t, m, k);
      var next := OneSlot(p, st, t, k);
      DoneSlotsStayTame(p, cells[k], st, next, t, m, k);
      SlotsExit(p, cells, next, t, m, start, k + 1);
    }
  }

  /** Timer, probe, exits and tally of one row against cooldown and exits of the scalar replay. */
  lemma RowExits(p: Params, w: Row, st: State, t: Tick, m: Mode)
    requires Comparable(p, m) && TameTick(p, t)
    requires RowMatches(w, st)
    requires PositiveEntries(st.slots) && TameSlots(p, st.slots) && SlotsInReach(p, st.slots, t.candle)
    ensures var after := AfterExits(p, st, t);
            && RowMatches(ExitRow(Encode(p), TimedRow(w), t, m), after)
            && TameSlots(p, after.slots)
            && KeepsEntries(st, after)
  {
    hide ProbedCell, ClosedCell, TallyOf, TameSlot, OneSlot, Outcome, SlotsInReach, Comparable, TameTick;
    var timed := TimedRow(w);
    ExitPhase(p, st, t);
    SlotsExit(p, timed.cells, CoolDown(st), t, m, w.tally, 0);
  }

  /** Every open slot was open before, at the same price. */
  predicate KeepsEntries(st: State, after: State) {
    forall j :: 0 <= j < SLOTS && after.slots[j].Some? ==>
      st.slots[j].Some? && after.slots[j].value.entryPrice == st.slots[j].value.entryPrice
  }

  /** A row with nothing open may skip the exit phase: so, in effect, does the scalar replay. */
  lemma RowIdles(p: Params, w: Row, st: State, t: Tick)
    requires RowMatches(w, st) && PositiveEntries(st.slots)
    requires forall k :: 0 <= k < SLOTS ==> !w.cells[k].inTrade
    ensures RowMatches(TimedRow(w), AfterExits(p, st, t)) && KeepsEntries(st, AfterExits(p, st, t))
    ensures TameSlots(p, AfterExits(p, st, t).slots)
  {
    NothingLeaves(p, CoolDown(st), t, 0);
  }

  lemma {:induction false} NothingLeaves(p: Params, st: State, t: Tick, k: nat)
    requires k <= SLOTS && PositiveEntries(st.slots) && forall j :: k <= j < SLOTS ==> st.slots[j].None?
    ensures ExitFrom(p, st, t, k) == st
    decreases SLOTS - k
  {
    if k < SLOTS {
      NothingLeaves(p, st, t, k + 1);
    }
  }

  // ---------------------------------------------------------------- the entry phase of one row

  lemma {:induction false} SameSide(cells: seq<Cell>, slots: seq<Option<Slot>>)
    requires SlotsMatch(cells, slots, 0)
    ensures SignedCells(cells) == SignedOpen(slots)
  {
    if cells != [] {
      SameSide(cells[..|cells| - 1], slots[..|slots| - 1]);
    }
  }

  lemma {:induction false} SameFirst(cells: seq<Cell>, slots: seq<Option<Slot>>, k: nat)
    requires SlotsMatch(cells, slots, 0) && k <= |cells|
    requires forall j :: 0 <= j < k ==> cells[j].inTrade
    ensures FirstFreeFrom(cells, k) == FirstOpen(slots)
    decreases |cells| - k
  {
    if k < |cells| && cells[k].inTrade {
      SameFirst(cells, slots, k + 1);
    }
  }

  lemma SameAdmission(p: Params, g: Gate, m: Mode)
    requires Comparable(p, m) && g.action != 0 && TameGate(p, g)
    ensures RowGateValid(Encode(p), g, m) <==> GateValid(p, g)
    ensures Direction(g, m) == ActionOf(p, g)
  {
  }

  lemma RowEnters(p: Params, w: Row, st: State, t: Tick, m: Mode)
    requires Comparable(p, m) && TameTick(p, t) && RowMatches(w, st) && TameSlots(p, st.slots)
    requires t.gate.Some? && t.gate.value.action != 0
    ensures RowMatches(EntryRow(Encode(p), w, t, m), Entry(p, st, t))
    ensures TameSlots(p, Entry(p, st, t).slots)
  {
    SameSide(w.cells, st.slots);
    SameFirst(w.cells, st.slots, 0);
    SameAdmission(p, t.gate.value, m);
    hide RowGateValid, GateValid, TallyOf, Encode;
    assert HasFree(w.cells) <==> FirstOpen(st.slots) < SLOTS by {
      if FirstOpen(st.slots) < SLOTS {
        assert !w.cells[FirstOpen(st.slots)].inTrade;
      }
    }
    assert HasFree(w.cells) ==> FirstFree(w.cells) == FirstOpen(st.slots);
    if NewEntry(Encode(p), w, t.gate.value, m) {
      var after, filled := Entry(p, st, t), EntryRow(Encode(p), w, t, m);
      assert CellIsSlot(filled.cells[FirstOpen(st.slots)], NewSlot(p, t), 0);
    }
  }

  lemma NoGateNoEntry(p: Params, st: State, t: Tick)
    requires t.gate.None? || t.gate.value.action == 0
    ensures Entry(p, st, t) == st
  {
  }

  // ---------------------------------------------------------------- one row, one candle

  /** Slots in reach of every candle from `n` on. */
  ghost predicate ReachesOn(p: Params, slots: seq<Option<Slot>>, ticks: seq<Tick>, n: nat) {
    forall j :: n <= j < |ticks| ==> SlotsInReach(p, slots, ticks[j].candle)
  }

  lemma RowStepMatches(p: Params, w: Row, st: State, ticks: seq<Tick>, n: nat, m: Mode, live: bool)
    requires n < |ticks| && Comparable(p, m) && Tame(p, ticks)
    requires RowMatches(w, st) && PositiveEntries(st.slots) && TameSlots(p, st.slots)
             && ReachesOn(p, st.slots, ticks, n)
    requires live || forall k :: 0 <= k < SLOTS ==> !w.cells[k].inTrade
    ensures var after := Entry(p, AfterExits(p, st, ticks[n]), ticks[n]);
            && RowMatches(RowStep(Encode(p), w, ticks[n], m, live), after)
            && TameSlots(p, after.slots) && ReachesOn(p, after.slots, ticks, n + 1)
  {
    var t := ticks[n];
    var exited := AfterExits(p, st, t);
    assert TameTick(p, t) && SlotsInReach(p, st.slots, t.candle);
    if live {
      RowExits(p, w, st, t, m);
    } else {
      RowIdles(p, w, st, t);
    }
    var row := if live then ExitRow(Encode(p), TimedRow(w), t, m) else TimedRow(w);
    assert GatePasses(t, m) <==> t.gate.Some? && t.gate.value.action != 0;
    if GatePasses(t, m) {
      RowEnters(p, row, exited, t, m);
    } else {
      NoGateNoEntry(p, exited, t);
    }
    EntryReachesOn(p, st, exited, ticks, n);
  }

  lemma EntryReachesOn(p: Params, st: State, exited: State, ticks: seq<Tick>, n: nat)
    requires n < |ticks| && Tame(p, ticks) && ReachesOn(p, st.slots, ticks, n) && KeepsEntries(st, exited)
    ensures ReachesOn(p, Entry(p, exited, ticks[n]).slots, ticks, n + 1)
  {
    hide Enters;
    var after := Entry(p, exited, ticks[n]);
    if Enters(p, exited, ticks[n]) {
      EnteringNeeds(p, exited, ticks[n]);
    }
    forall j, k | n + 1 <= j < |ticks| && 0 <= k < SLOTS && after.slots[k].Some?
      ensures InReach(p, after.slots[k].value, ticks[j].candle)
    {
      assert SlotsInReach(p, st.slots, ticks[j].candle);
    }
  }

  // ---------------------------------------------------------------- all rows, all candles

  function EncodeAll(ps: seq<Params>): (r: seq<RowConfig>)
    ensures |r| == |ps| && forall n :: 0 <= n < |r| ==> r[n] == Encode(ps[n])
  {
    seq(|ps|, n requires 0 <= n < |ps| => Encode(ps[n]))
  }

  lemma TameIsPositive(p: Params, ticks: seq<Tick>)
    requires Tame(p, ticks)
    ensures PositiveCloses(ticks)
  {
  }

  /** After `n` candles row `i` of the batch is in step with the replay of parameter set `i`. */
  lemma {:induction false} RowsInStep(ps: seq<Params>, ticks: seq<Tick>, m: Mode, n: nat, i: nat)
    requires n <= |ticks| && i < |ps|
    requires Comparable(ps[i], m) && Tame(ps[i], ticks)
    ensures PositiveCloses(ticks[..n])
    ensures var st := Run(ps[i], ticks[..n]);
            && RowMatches(BatchRun(EncodeAll(ps), ticks[..n], m)[i], st)
            && TameSlots(ps[i], st.slots) && ReachesOn(ps[i], st.slots, ticks, n)
  {
    TameIsPositive(ps[i], ticks);
    if n == 0 {
      StartMatches(ps[i], ticks);
    } else {
      hide Tame, RowMatches, TameSlots, ReachesOn, Comparable, RowStep, Entry, AfterExits, EncodeAll, PositiveEntries;
      RowsInStep(ps, ticks, m, n - 1, i);
      assert ticks[..n][..n - 1] == ticks[..n - 1];
      var rows := BatchRun(EncodeAll(ps), ticks[..n - 1], m);
      IdleMeansIdle(rows, Run(ps[i], ticks[..n - 1]), i);
      RowStepMatches(ps[i], rows[i], Run(ps[i], ticks[..n - 1]), ticks, n - 1, m, AnyInTrade(rows));
    }
  }

  lemma StartMatches(p: Params, ticks: seq<Tick>)
    ensures RowMatches(ZERO_ROW, START) && TameSlots(p, START.slots) && ReachesOn(p, START.slots, ticks, 0)
  {
  }

  lemma IdleMeansIdle(rows: seq<Row>, st: State, i: nat)
    requires i < |rows| && RowMatches(rows[i], st)
    ensures AnyInTrade(rows) || forall k :: 0 <= k < SLOTS ==> !rows[i].cells[k].inTrade
  {
  }

  /** For every row, the sweep's basis points, wins and losses are those of the scalar replay's trades. */
  lemma SweepCountsTheReplaysTrades(ps: seq<Params>, ticks: seq<Tick>, m: Mode, i: nat)
    requires i < |ps|
    requires Comparable(ps[i], m) && Tame(ps[i], ticks)
    ensures PositiveCloses(ticks)
    ensures BatchRun(EncodeAll(ps), ticks, m)[i].tally == TallyOf(Run(ps[i], ticks).trades)
  {
    assert ticks[..|ticks|] == ticks;
    RowsInStep(ps, ticks, m, |ticks|, i);
  }

  // ---------------------------------------------------------------- why a hold of at least a minute

  /** The sweep's row and the replay of one parameter set, run by itself, come to the same tally. */
  ghost predicate TalliesAgree(p: Params, ticks: seq<Tick>, m: Mode) {
    PositiveCloses(ticks) && BatchRun([Encode(p)], ticks, m)[0].tally == TallyOf(Run(p, ticks).trades)
  }

  /** No stop, target, breakeven or trailing rule fires on a long trade entered at `price` when the next candle stands
      still at `later`. */
  predicate Rests(p: Params, price: real, later: real)
    requires price > 0.0
  {
    var move := PctChange(later, price);
    && -1.0 < move < 1.0
    && (p.stopLoss.Some? ==> -p.stopLoss.value < move)
    && (p.takeProfit.Some? ==> move < p.takeProfit.value)
    && (p.breakeven.Some? ==> move < p.breakeven.value || 0.0 < move)
    && (p.trailing.Some? ==> move <= 0.0 || 0.0 < p.trailing.value)
  }

  lemma TimesDiv(q: real, y: real)
    requires y > 0.0
    ensures y * q / y == q
  {
  }

  lemma ScaledMoves(price: real, move: real)
    requires price > 0.0
    ensures PctChange(Scaled(price, move), price) == move
  {
    TimesDiv(move, price);
    assert price * (1.0 + move) - price == price * move;
  }

  /** Unless every trade leaves at once, there is such a price: a little below the entry if there is no stop at the
      entry, else a little above it. */
  lemma RestingPrice(p: Params, m: Mode, price: real) returns (later: real)
    requires Matched(p, m) && !AlwaysLeaves(p) && price > 0.0
    ensures Rests(p, price, later) && 0.0 < later < 49.0 * price
  {
    var move := 0.5;
    if p.stopLoss != Some(0.0) {
      move := if p.stopLoss.Some? && p.stopLoss.value < 1.0 then -p.stopLoss.value / 2.0 else -0.5;
    } else if p.takeProfit.Some? && p.takeProfit.value < 1.0 {
      move := p.takeProfit.value / 2.0;
    }
    later := Scaled(price, move);
    ScaledMoves(price, move);
    ScaledBetween(price, move);
  }

  lemma TimesCommutes(x: real, y: real)
    ensures x * y == y * x
  {
  }

  lemma ScaledBetween(price: real, move: real)
    requires price > 0.0 && -0.5 <= move <= 0.5
    ensures 0.5 * price <= Scaled(price, move) <= 1.5 * price
  {
    RealTimesMonotone(0.5, 1.0 + move, price);
    RealTimesMonotone(1.0 + move, 1.5, price);
    TimesCommutes(price, 1.0 + move);
  }

  /** A hazard above the exit threshold. */
  function CalmHazard(p: Params): real {
    if p.hazardExit.Some? then p.hazardExit.value + 1.0 else 0.0
  }

  /** A gate just good enough for the parameter set. */
  function JustAdmitted(p: Params): Gate {
    Gate(if p.meanReversion then -1 else 1, p.hazardThreshold.GetOr(1.0), Max(1, p.minRepetitions) as real,
         p.coherence.GetOr(0.0), p.stability.GetOr(0.0), p.entropy.GetOr(999.0), true, 0)
  }

  function Opening(p: Params, price: real): Tick {
    Tick(Candle(0, price, price, price), Some(JustAdmitted(p)), CalmHazard(p), None)
  }

  function Quiet(p: Params, later: real): Tick {
    Tick(Candle(5000, later, later, later), None, CalmHazard(p), None)
  }

  function TwoCandles(p: Params, price: real, later: real): seq<Tick> {
    [Opening(p, price), Quiet(p, later)]
  }

  lemma TwoCandlesAreTame(p: Params, price: real, later: real)
    requires price > 0.0 && p.sizing(price) > 0 && 0.0 < later < 49.0 * price
    ensures Tame(p, TwoCandles(p, price, later))
  {
  }

  /** Without a hold the two part: the sweep times the trade out at the next candle and counts it, the replay, which
      takes zero for "no limit", keeps it. */
  lemma ZeroHoldSplits(p: Params, m: Mode, price: real, later: real)
    requires Matched(p, m) && p.holdMinutes <= 0 && price > 0.0 && p.sizing(price) > 0
    requires later > 0.0 && Rests(p, price, later)
    ensures var ticks := TwoCandles(p, price, later);
            && PositiveCloses(ticks) && Run(p, ticks).trades == []
            && BatchRun([Encode(p)], ticks, m)[0].tally.wins + BatchRun([Encode(p)], ticks, m)[0].tally.losses == 1
  {
    ReplayKeeps(p, price, later);
    SweepTimesOut(p, m, price, later);
  }

  /** A matched parameter set that gets an order at all tallies alike on every tame timeline if and only if it holds for
      at least a minute or holds nothing beyond the next candle. */
  lemma TalliesAgreeIffHeld(p: Params, m: Mode, price: real)
    requires Matched(p, m) && price > 0.0 && p.sizing(price) > 0
    ensures p.holdMinutes >= 1 || AlwaysLeaves(p) <==> forall ticks :: Tame(p, ticks) ==> TalliesAgree(p, ticks, m)
  {
    hide Tame, Matched, Run, BatchRun, Encode, TallyOf, TwoCandles, Rests, AlwaysLeaves;
    if p.holdMinutes >= 1 || AlwaysLeaves(p) {
      forall ticks | Tame(p, ticks)
        ensures TalliesAgree(p, ticks, m)
      {
        SweepCountsTheReplaysTrades([p], ticks, m, 0);
        assert EncodeAll([p]) == [Encode(p)];
      }
    } else {
      var later := RestingPrice(p, m, price);
      TwoCandlesAreTame(p, price, later);
      ZeroHoldSplits(p, m, price, later);
      NothingTallied();
      assert !TalliesAgree(p, TwoCandles(p, price, later), m);
    }
  }

  lemma NothingTallied()
    ensures TallyOf([]) == Tally(0.0, 0, 0)
  {
  }

  lemma ReplayKeeps(p: Params, price: real, later: real)
    requires p.holdMinutes <= 0 && price > 0.0 && p.sizing(price) > 0 && later > 0.0 && Rests(p, price, later)
    ensures var ticks := TwoCandles(p, price, later); PositiveCloses(ticks) && Run(p, ticks).trades == []
  {
    hide FirstOpen, SignedOpen, ExitFrom, OneSlot, GateValid, Rests;
    var ticks := TwoCandles(p, price, later);
    assert ticks[..1] == [Opening(p, price)] && ticks[..1][..0] == [];
    NothingLeaves(p, CoolDown(START), Opening(p, price), 0);
    var st := Entry(p, AfterExits(p, START, Opening(p, price)), Opening(p, price));
    assert Run(p, ticks[..1]) == st;
    OpeningEntry(p, price);
    OpenSlotStays(p, price, later, st);
  }

  lemma OpeningEntry(p: Params, price: real)
    requires price > 0.0 && p.sizing(price) > 0
    ensures var st := Entry(p, START, Opening(p, price));
            && st.trades == [] && (forall j :: 1 <= j < SLOTS ==> st.slots[j].None?)
            && (st.slots[0].Some? ==> st.slots[0].value == NewSlot(p, Opening(p, price)))
  {
    hide TradeFee, GateValid, SignedOpen;
  }

  lemma RestingSlotStays(p: Params, price: real, later: real)
    requires p.holdMinutes <= 0 && price > 0.0 && Rests(p, price, later)
    ensures !Leaves(p, AgedSlot(p, NewSlot(p, Opening(p, price)), Quiet(p, later).candle), Quiet(p, later))
  {
    hide TradeFee, SlotUsd, PctChange;
  }

  lemma OpenSlotStays(p: Params, price: real, later: real, st: State)
    requires p.holdMinutes <= 0 && price > 0.0 && Rests(p, price, later)
    requires PositiveEntries(st.slots) && st.trades == [] && forall j :: 1 <= j < SLOTS ==> st.slots[j].None?
    requires st.slots[0].Some? ==> st.slots[0].value == NewSlot(p, Opening(p, price))
    ensures AfterExits(p, st, Quiet(p, later)).trades == []
  {
    hide AgedSlot, NewSlot, Leaves, TradeOf, Rests;
    RestingSlotStays(p, price, later);
    NothingLeaves(p, OneSlot(p, CoolDown(st), Quiet(p, later), 0), Quiet(p, later), 1);
  }

  lemma {:induction false} ClosedCellsHaveNoSide(cells: seq<Cell>)
    requires forall k :: 0 <= k < |cells| ==> !cells[k].inTrade
    ensures SignedCells(cells) == 0
  {
    if cells != [] {
      ClosedCellsHaveNoSide(cells[..|cells| - 1]);
    }
  }

  predicate JustOpened(w: Row, price: real) {
    && |w.cells| == SLOTS && w.cells[0] == Cell(true, false, 1, price, 0, 0.0) && w.tally == Tally(0.0, 0, 0)
    && forall k :: 1 <= k < SLOTS ==> !w.cells[k].inTrade
  }

  lemma SweepTimesOut(p: Params, m: Mode, price: real, later: real)
    requires Matched(p, m) && p.holdMinutes <= 0 && price > 0.0
    ensures var tally := BatchRun([Encode(p)], TwoCandles(p, price, later), m)[0].tally; tally.wins + tally.losses == 1
  {
    hide RowStep, Encode, Matched;
    var ticks, cfgs := TwoCandles(p, price, later), [Encode(p)];
    assert ticks[..1] == [Opening(p, price)] && ticks[..1][..0] == [];
    var rows := BatchRun(cfgs, ticks[..1], m);
    assert rows[0] == RowStep(Encode(p), ZERO_ROW, Opening(p, price), m, AnyInTrade(BatchRun(cfgs, [], m)));
    RowOpens(p, m, price, rows[0]);
    assert rows[0].cells[0].inTrade && AnyInTrade(rows);
    RowCloses(p, m, price, later, rows[0]);
  }

  lemma RowOpens(p: Params, m: Mode, price: real, w: Row)
    requires Matched(p, m) && w == RowStep(Encode(p), ZERO_ROW, Opening(p, price), m, false)
    ensures JustOpened(w, price)
  {
    var timed := TimedRow(ZERO_ROW);
    assert !timed.cells[0].inTrade;
    ClosedCellsHaveNoSide(timed.cells);
    assert FirstFreeFrom(timed.cells, 0) == 0 == FirstFree(timed.cells);
    assert Direction(JustAdmitted(p), m) == 1;
    assert RowGateValid(Encode(p), JustAdmitted(p), m);
    assert NewEntry(Encode(p), timed, JustAdmitted(p), m);
  }

  lemma RowCloses(p: Params, m: Mode, price: real, later: real, w: Row)
    requires p.holdMinutes <= 0 && price > 0.0 && JustOpened(w, price)
    ensures var tally := RowStep(Encode(p), w, Quiet(p, later), m, true).tally; tally.wins + tally.losses == 1
  {
    hide ExecPnl, CellExitPrice;
    var r, t := Encode(p), Quiet(p, later);
    var probed := ProbedCells(r, TimedRow(w).cells, t.candle, m);
    assert ValidExit(r, probed[0], t, m);
    hide ValidExit;
    forall k | 1 <= k < SLOTS
      ensures !ValidExit(r, probed[k], t, m)
    {
      ClosedNeverExits(r, probed[k], t, m);
    }
    var start := w.tally;
    assert TallyUpTo(r, probed, t, m, start, 1).wins + TallyUpTo(r, probed, t, m, start, 1).losses == 1;
    assert TallyUpTo(r, probed, t, m, start, 3) == TallyUpTo(r, probed, t, m, start, 1);
    assert TallyUpTo(r, probed, t, m, start, 5) == TallyUpTo(r, probed, t, m, start, 3);
  }

  lemma ClosedNeverExits(r: RowConfig, x: Cell, t: Tick, m: Mode)
    requires !x.inTrade
    ensures !ValidExit(r, x, t, m)
  {
  }
}
