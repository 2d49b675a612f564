/** The scalar replay of one parameter set: five optional slots, a cooldown, and cash. */
module ParityReplay {
  import opened Common
  import opened Pricing
  import opened Tpsl

  const SLOTS := 5
  const COOLDOWN := 12

  /** A gate with its metrics already extracted; `action` is 1 to buy, -1 to sell, 0 for neither, and `source`
      the number of the kind of signal it came from. */
  datatype Gate = Gate(
    action: Side,
    hazard: real,
    reps: real,
    coherence: real,
    stability: real,
    entropy: real,
    stPeak: bool,
    source: nat)

  /** A candle with the gate at its timestamp, if any, the continuous hazard there, and what the regime filter
      says about either side, if there is one. */
  datatype Tick = Tick(candle: Candle, gate: Option<Gate>, hazard: real, regime: Option<Regime>)

  datatype Regime = Regime(longOk: bool, shortOk: bool)

  /** `sizing` is what the risk sizer makes of a price. */
  datatype Params = Params(
    inst: Inst,
    holdMinutes: int,
    stopLoss: Option<real>,
    takeProfit: Option<real>,
    trailing: Option<real>,
    breakeven: Option<real>,
    hazardExit: Option<real>,
    hazardThreshold: Option<real>,
    minRepetitions: int,
    coherence: Option<real>,
    stability: Option<real>,
    entropy: Option<real>,
    meanReversion: bool,
    stPeakMode: bool,
    costBps: real,
    sizing: real -> nat)
  {
    function HoldLimit(): nat {
      Max(0, 12 * holdMinutes)
    }
  }

  datatype Slot = Slot(
    direction: Side,
    units: nat,
    entryPrice: real,
    entryTime: Time,
    holdTicks: int,
    peakProfit: real,
    breakevenActivated: bool,
    entryCommission: real,
    maxAdverse: real,
    maxFavorable: real)

  datatype ClosedTrade = ClosedTrade(
    direction: Side,
    units: nat,
    entryTime: Time,
    exitTime: Time,
    entryPrice: real,
    exitPrice: real,
    pnl: real,
    commission: real,
    mae: real,
    mfe: real,
    reason: ExitReason)

  // ---------------------------------------------------------------- one slot, one candle

  function PctChange(price: real, entry: real): real
    requires entry != 0.0
  {
    (price - entry) / entry
  }

  function Drawdown(s: Slot, c: Candle): real
    requires s.entryPrice != 0.0
  {
    if s.direction == 1 then PctChange(c.low, s.entryPrice) else -PctChange(c.high, s.entryPrice)
  }

  function Profit(s: Slot, c: Candle): real
    requires s.entryPrice != 0.0
  {
    if s.direction == 1 then PctChange(c.high, s.entryPrice) else -PctChange(c.low, s.entryPrice)
  }

  /** Its profit in the quote currency. */
  function SlotGross(s: Slot, price: real): real {
    Along((price - s.entryPrice) * s.units as real, s.direction)
  }

  /** The dollar profit of a slot if it could be sold at `price`. */
  function SlotUsd(p: Params, s: Slot, price: real): real {
    ConvertToUsd(p.inst, SlotGross(s, price), price)
  }

  /** One candle older, with peak, breakeven latch and dollar excursions brought up to date. */
  function AgedSlot(p: Params, s: Slot, c: Candle): Slot
    requires s.entryPrice != 0.0
  {
    s.(holdTicks := s.holdTicks + 1,
       peakProfit := MaxR(s.peakProfit, Profit(s, c)),
       breakevenActivated := s.breakevenActivated || (p.breakeven.Some? && Profit(s, c) >= AbsR(p.breakeven.value)),
       maxFavorable := MaxR(s.maxFavorable, SlotUsd(p, s, if s.direction > 0 then c.high else c.low)),
       maxAdverse := MinR(s.maxAdverse, SlotUsd(p, s, if s.direction > 0 then c.low else c.high)))
  }

  lemma AgedKeepsEntry(p: Params, s: Slot, t: Tick)
    requires s.entryPrice != 0.0
    ensures var a := AgedSlot(p, s, t.candle);
            a.entryPrice == s.entryPrice && a.direction == s.direction && a.units == s.units
            && a.entryCommission == s.entryCommission && a.holdTicks == s.holdTicks + 1
  {
  }

  /** The six rules, each as seen by an aged slot. */
  predicate HitStop(p: Params, s: Slot, c: Candle)
    requires s.entryPrice != 0.0
  {
    p.stopLoss.Some? && Drawdown(s, c) <= -p.stopLoss.value
  }

  predicate HitTarget(p: Params, s: Slot, c: Candle)
    requires s.entryPrice != 0.0
  {
    p.takeProfit.Some? && Profit(s, c) >= p.takeProfit.value
  }

  predicate HitBreakeven(s: Slot, c: Candle)
    requires s.entryPrice != 0.0
  {
    s.breakevenActivated && Drawdown(s, c) <= 0.0
  }

  predicate HitHazard(p: Params, s: Slot, hazard: real) {
    p.hazardExit.Some? && p.hazardExit.value < 0.999 && s.holdTicks > 0 && hazard <= p.hazardExit.value
  }

  predicate HitTrail(p: Params, s: Slot, c: Candle)
    requires s.entryPrice != 0.0
  {
    p.trailing.Some? && s.peakProfit > 0.0 && s.peakProfit - Drawdown(s, c) >= p.trailing.value
  }

  predicate HitTime(p: Params, s: Slot) {
    p.HoldLimit() > 0 && s.holdTicks >= p.HoldLimit()
  }

  predicate Leaves(p: Params, s: Slot, t: Tick)
    requires s.entryPrice != 0.0
  {
    HitStop(p, s, t.candle) || HitTarget(p, s, t.candle) || HitBreakeven(s, t.candle)
    || HitHazard(p, s, t.hazard) || HitTrail(p, s, t.candle) || HitTime(p, s)
  }

  /** The price a fraction `move` above `entry`. */
  function Scaled(entry: real, move: real): real {
    entry * (1.0 + move)
  }

  /** A breakeven hit overrides a trailing hit, which overrides a target hit, which overrides a stop hit. */
  function ExitPrice(p: Params, s: Slot, c: Candle): real
    requires s.entryPrice != 0.0
  {
    if HitBreakeven(s, c) then s.entryPrice
    else if HitTrail(p, s, c) then Scaled(s.entryPrice, Along(s.peakProfit - p.trailing.value, s.direction))
    else if HitTarget(p, s, c) then Scaled(s.entryPrice, Along(p.takeProfit.value, s.direction))
    else if HitStop(p, s, c) then Scaled(s.entryPrice, -Along(p.stopLoss.value, s.direction))
    else c.close
  }

  function ReasonOf(p: Params, s: Slot, t: Tick): ExitReason
    requires s.entryPrice != 0.0
  {
    if HitHazard(p, s, t.hazard) then HazardExit
    else if HitBreakeven(s, t.candle) then BreakevenStopHit
    else if HitTrail(p, s, t.candle) then TrailingStopHit
    else if HitTarget(p, s, t.candle) then TakeProfitHit
    else if HitStop(p, s, t.candle) then StopLossHit
    else HoldExpiry
  }

  function TradeFee(p: Params, price: real, units: nat): real {
    Commission(p.inst, price, units, p.costBps / 2.0)
  }

  function TradeOf(p: Params, s: Slot, t: Tick): ClosedTrade
    requires s.entryPrice != 0.0
  {
    var price := ExitPrice(p, s, t.candle);
    var fee := TradeFee(p, price, s.units);
    ClosedTrade(s.direction, s.units, s.entryTime, t.candle.time, s.entryPrice, price,
                SlotUsd(p, s, price) - s.entryCommission - fee, s.entryCommission + fee,
                AbsR(s.maxAdverse), MaxR(0.0, s.maxFavorable), ReasonOf(p, s, t))
  }

  // ---------------------------------------------------------------- the state

  type Slots = s: seq<Option<Slot>> | |s| == SLOTS witness [None, None, None, None, None]

  /** Entry prices are candle closes, which are positive. */
  predicate PositiveEntries(slots: seq<Option<Slot>>) {
    forall k :: 0 <= k < |slots| && slots[k].Some? ==> slots[k].value.entryPrice > 0.0
  }

  datatype State = State(slots: Slots, cooldown: nat, realized: real, trades: seq<ClosedTrade>)

  const START := State([None, None, None, None, None], 0, 0.0, [])

  /** One slot in the exit phase: it stays empty, ages, or leaves with a trade. */
  function OneSlot(p: Params, st: State, t: Tick, k: nat): (after: State)
    requires k < SLOTS && PositiveEntries(st.slots)
    ensures PositiveEntries(after.slots)
  {
    if st.slots[k].None? then st
    else
      var s := AgedSlot(p, st.slots[k].value, t.candle);
      if !Leaves(p, s, t) then st.(slots := st.slots[k := Some(s)])
      else
        var price := ExitPrice(p, s, t.candle);
        State(st.slots[k := None], st.cooldown,
              st.realized + (SlotUsd(p, s, price) - TradeFee(p, price, s.units)),
              st.trades + [TradeOf(p, s, t)])
  }

  /** The exits of slots `k` and up, in slot order. */
  function ExitFrom(p: Params, st: State, t: Tick, k: nat): (after: State)
    requires k <= SLOTS && PositiveEntries(st.slots)
    ensures PositiveEntries(after.slots)
    decreases SLOTS - k
  {
    if k == SLOTS then st else ExitFrom(p, OneSlot(p, st, t, k), t, k + 1)
  }

  function ActionOf(p: Params, g: Gate): Side {
    if p.meanReversion then -g.action else g.action
  }

  predicate GateValid(p: Params, g: Gate) {
    && ActionOf(p, g) != 0
    && (p.hazardThreshold.Some? ==>
          if p.meanReversion then g.hazard >= p.hazardThreshold.value else g.hazard <= p.hazardThreshold.value)
    && g.reps >= Max(1, p.minRepetitions) as real
    && (p.coherence.Some? ==> g.coherence >= p.coherence.value)
    && (p.stability.Some? ==> g.stability >= p.stability.value)
    && (p.entropy.Some? ==> g.entropy <= p.entropy.value)
    && (p.meanReversion && p.stPeakMode ==> g.stPeak)
  }

  function SignedOpen(slots: seq<Option<Slot>>): int {
    if slots == [] then 0
    else SignedOpen(slots[..|slots| - 1]) + (match slots[|slots| - 1] case Some(s) => s.direction case None => 0)
  }

  /** The first empty slot, or the length if there is none. */
  function FirstOpen(slots: seq<Option<Slot>>): (k: nat)
    ensures k <= |slots|
    ensures forall j :: 0 <= j < k ==> slots[j].Some?
    ensures k < |slots| ==> slots[k].None?
  {
    if slots == [] || slots[0].None? then 0 else 1 + FirstOpen(slots[1..])
  }

  /** Whether the gate of a tick opens a trade in a state whose exits are done. */
  predicate Enters(p: Params, st: State, t: Tick) {
    && t.gate.Some?
    && GateValid(p, t.gate.value)
    && st.cooldown == 0
    && FirstOpen(st.slots) < SLOTS
    && (SignedOpen(st.slots) == 0 || Sign(SignedOpen(st.slots)) == ActionOf(p, t.gate.value))
    && p.sizing(t.candle.close) > 0
  }

  function NewSlot(p: Params, t: Tick): Slot
    requires t.gate.Some?
  {
    var units := p.sizing(t.candle.close);
    Slot(ActionOf(p, t.gate.value), units, t.candle.close, t.candle.time, 0, 0.0, false,
         TradeFee(p, t.candle.close, units), 0.0, 0.0)
  }

  function Entry(p: Params, st: State, t: Tick): State {
    if Enters(p, st, t) then
      State(st.slots[FirstOpen(st.slots) := Some(NewSlot(p, t))], COOLDOWN,
            st.realized - NewSlot(p, t).entryCommission, st.trades)
    else st
  }

  function CoolDown(st: State): State {
    st.(cooldown := if st.cooldown > 0 then st.cooldown - 1 else 0)
  }

  function AfterExits(p: Params, st: State, t: Tick): State
    requires PositiveEntries(st.slots)
  {
    ExitFrom(p, CoolDown(st), t, 0)
  }

  predicate PositiveCloses(ticks: seq<Tick>) {
    forall k :: 0 <= k < |ticks| ==> ticks[k].candle.close > 0.0
  }

  /** The state after the given ticks. */
  function Run(p: Params, ticks: seq<Tick>): (st: State)
    requires PositiveCloses(ticks)
    ensures PositiveEntries(st.slots)
  {
    if ticks == [] then START
    else
      var n := |ticks| - 1;
      var before := Run(p, ticks[..n]);
      var exited := AfterExits(p, before, ticks[n]);
      Entry(p, exited, ticks[n])
  }

  // ---------------------------------------------------------------- the replay as it runs

  method ReplayGpuParity(p: Params, ticks: seq<Tick>, nav: real)
    returns (trades: seq<ClosedTrade>, equity: seq<(Time, real)>, final: State)
    requires PositiveCloses(ticks)
    ensures final == Run(p, ticks) && trades == final.trades
    ensures |equity| == if ticks == [] then 0 else |ticks| + 1
    ensures forall k :: 0 <= k < |ticks| ==>
      equity[k] == (ticks[k].candle.time,
                    nav + Run(p, ticks[..k + 1]).realized
                    + UnrealizedOf(p, Run(p, ticks[..k + 1]).slots, ticks[k].candle.close))
    ensures ticks != [] ==> equity[|ticks|] == (ticks[|ticks| - 1].candle.time, nav + final.realized)
  {
    hide Entry, AfterExits, UnrealizedOf, PositiveEntries;
    var slots: Slots := [None, None, None, None, None];
    var realized, cooldown := 0.0, 0;
    trades, equity := [], [];
    for n := 0 to |ticks|
      invariant State(slots, cooldown, realized, trades) == Run(p, ticks[..n])
      invariant |equity| == n
      invariant forall k :: 0 <= k < n ==>
        equity[k] == (ticks[k].candle.time,
                      nav + Run(p, ticks[..k + 1]).realized
                      + UnrealizedOf(p, Run(p, ticks[..k + 1]).slots, ticks[k].candle.close))
    {
      var t := ticks[n];
      assert ticks[..n + 1][..n] == ticks[..n];
      slots, cooldown, realized, trades := ProcessSlots(p, slots, cooldown, realized, trades, t);
      slots, cooldown, realized := ProcessGate(p, slots, cooldown, realized, trades, t);
      assert State(slots, cooldown, realized, trades) == Run(p, ticks[..n + 1]);
      var unrealized := SumUnrealized(p, slots, t.candle.close);
      equity := equity + [(t.candle.time, nav + realized + unrealized)];
    }
    assert ticks[..|ticks|] == ticks;
    final := State(slots, cooldown, realized, trades);
    if equity != [] {
      equity := equity + [(equity[|equity| - 1].0, nav + realized)];
    }
  }

  /** Cooldown and exits of one candle. */
  method ProcessSlots(p: Params, slots0: Slots, cooldown0: nat, realized0: real, trades0: seq<ClosedTrade>, t: Tick)
    returns (slots: Slots, cooldown: nat, realized: real, trades: seq<ClosedTrade>)
    requires PositiveEntries(slots0)
    ensures State(slots, cooldown, realized, trades) == AfterExits(p, State(slots0, cooldown0, realized0, trades0), t)
  {
    hide OneSlot;
    slots, cooldown, realized, trades := slots0, cooldown0, realized0, trades0;
    if cooldown > 0 {
      cooldown := cooldown - 1;
    }
    ghost var start := State(slots, cooldown, realized, trades);
    for k := 0 to SLOTS
      invariant PositiveEntries(slots)
      invariant ExitFrom(p, State(slots, cooldown, realized, trades), t, k) == ExitFrom(p, start, t, 0)
    {
      slots, realized, trades := ProcessSlot(p, slots, cooldown, realized, trades, t, k);
    }
  }

  method ProcessSlot(p: Params, slots0: Slots, ghost cooldown: nat, realized0: real, trades0: seq<ClosedTrade>,
                     t: Tick, k: nat)
    returns (slots: Slots, realized: real, trades: seq<ClosedTrade>)
    requires k < SLOTS && PositiveEntries(slots0)
    ensures State(slots, cooldown, realized, trades) == OneSlot(p, State(slots0, cooldown, realized0, trades0), t, k)
    ensures PositiveEntries(slots)
  {
    hide Leaves, AgedSlot, ExitPrice, ReasonOf, SlotUsd, TradeFee;
    slots, realized, trades := slots0, realized0, trades0;
    if slots[k].None? {
      return;
    }
    AgedKeepsEntry(p, slots[k].value, t);
    var s := AgedSlot(p, slots[k].value, t.candle);
    var price, leaves := DecideExit(p, s, t);
    if !leaves {
      slots := slots[k := Some(s)];
      return;
    }
    var fee := TradeFee(p, price, s.units);
    var gross := SlotUsd(p, s, price);
    realized := realized + (gross - fee);
    trades := trades + [ClosedTrade(s.direction, s.units, s.entryTime, t.candle.time, s.entryPrice, price,
                                    gross - s.entryCommission - fee, s.entryCommission + fee,
                                    AbsR(s.maxAdverse), MaxR(0.0, s.maxFavorable), ReasonOf(p, s, t))];
    slots := slots[k := None];
  }

  /** The rules in the order the replay applies them: later ones override the exit price of earlier ones. */
  method DecideExit(p: Params, s: Slot, t: Tick) returns (price: real, leaves: bool)
    requires s.entryPrice != 0.0
    ensures leaves <==> Leaves(p, s, t)
    ensures leaves ==> price == ExitPrice(p, s, t.candle)
  {
    var drawdown, profit := Drawdown(s, t.candle), Profit(s, t.candle);
    var hitSl := p.stopLoss.Some? && drawdown <= -p.stopLoss.value;
    var hitTp := p.takeProfit.Some? && profit >= p.takeProfit.value;
    var hitBe := s.breakevenActivated && drawdown <= 0.0;
    var hitHaz := p.hazardExit.Some? && p.hazardExit.value < 0.999 && s.holdTicks > 0 && t.hazard <= p.hazardExit.value;
    var hitTrail := p.trailing.Some? && s.peakProfit > 0.0 && s.peakProfit - drawdown >= p.trailing.value;
    var hitTime := p.HoldLimit() > 0 && s.holdTicks >= p.HoldLimit();
    leaves := hitSl || hitTp || hitBe || hitHaz || hitTrail || hitTime;
    price := t.candle.close;
    if hitSl {
      price := Scaled(s.entryPrice, -Along(p.stopLoss.value, s.direction));
    }
    if hitTp {
      price := Scaled(s.entryPrice, Along(p.takeProfit.value, s.direction));
    }
    if hitTrail {
      price := Scaled(s.entryPrice, Along(s.peakProfit - p.trailing.value, s.direction));
    }
    if hitBe {
      price := s.entryPrice;
    }
  }

  method ProcessGate(p: Params, slots0: Slots, cooldown0: nat, realized0: real, trades: seq<ClosedTrade>, t: Tick)
    returns (slots: Slots, cooldown: nat, realized: real)
    ensures State(slots, cooldown, realized, trades) == Entry(p, State(slots0, cooldown0, realized0, trades), t)
  {
    slots, cooldown, realized := slots0, cooldown0, realized0;
    if t.gate.Some? {
      var signed := SignedOpen(slots);
      var currentSide := Sign(signed);
      var conflict := currentSide != 0 && currentSide != ActionOf(p, t.gate.value);
      var k := FirstOpen(slots);
      if GateValid(p, t.gate.value) && cooldown == 0 && k < SLOTS && !conflict {
        var units := p.sizing(t.candle.close);
        if units > 0 {
          var fee := TradeFee(p, t.candle.close, units);
          realized := realized - fee;
          var side := ActionOf(p, t.gate.value);
          var slot := Slot(side, units, t.candle.close, t.candle.time, 0, 0.0, false, fee, 0.0, 0.0);
          slots := slots[k := Some(slot)];
          cooldown := COOLDOWN;
        }
      }
    }
  }

  function UnrealizedOf(p: Params, slots: seq<Option<Slot>>, price: real): real {
    if slots == [] then 0.0
    else
      UnrealizedOf(p, slots[..|slots| - 1], price)
      + (match slots[|slots| - 1] case Some(s) => SlotUsd(p, s, price) case None => 0.0)
  }

  method SumUnrealized(p: Params, slots: Slots, price: real) returns (total: real)
    ensures total == UnrealizedOf(p, slots, price)
  {
    total := 0.0;
    for k := 0 to SLOTS
      invariant total == UnrealizedOf(p, slots[..k], price)
    {
      assert slots[..k + 1][..k] == slots[..k];
      if slots[k].Some? {
        total := total + SlotUsd(p, slots[k].value, price);
      }
    }
    assert slots[..SLOTS] == slots;
  }
}
