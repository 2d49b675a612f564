/** What the parity replay keeps after every candle: one side, short holds, spaced entries, balanced cash. */
module ParityInvariants {
  import opened Common
  import opened ParityReplay

  // ---------------------------------------------------------------- what the exit phase does to each slot

  /** An open slot is gone if a rule fired and one candle older if none did. */
  function Outcome(p: Params, slot: Option<Slot>, t: Tick): Option<Slot>
    requires slot.Some? ==> slot.value.entryPrice != 0.0
  {
    if slot.None? then None
    else
      var s := AgedSlot(p, slot.value, t.candle);
      if Leaves(p, s, t) then None else Some(s)
  }

  lemma OneSlotActsOnOne(p: Params, st: State, t: Tick, k: nat)
    requires k < SLOTS && PositiveEntries(st.slots)
    ensures var after := OneSlot(p, st, t, k);
            after.cooldown == st.cooldown && after.slots == st.slots[k := Outcome(p, st.slots[k], t)]
  {
    hide Leaves, AgedSlot;
  }

  lemma {:induction false} ExitsActSlotBySlot(p: Params, st: State, t: Tick, k: nat)
    requires k <= SLOTS && PositiveEntries(st.slots)
    ensures var after := ExitFrom(p, st, t, k);
            && after.cooldown == st.cooldown
            && forall j :: 0 <= j < SLOTS ==>
              after.slots[j] == if j < k then st.slots[j] else Outcome(p, st.slots[j], t)
    decreases SLOTS - k
  {
    hide OneSlot, Outcome;
    if k < SLOTS {
      OneSlotActsOnOne(p, st, t, k);
      ExitsActSlotBySlot(p, OneSlot(p, st, t, k), t, k + 1);
    }
  }

  lemma ExitPhase(p: Params, st: State, t: Tick)
    requires PositiveEntries(st.slots)
    ensures var after := AfterExits(p, st, t);
            && after.cooldown == (if st.cooldown > 0 then st.cooldown - 1 else 0)
            && forall j :: 0 <= j < SLOTS ==> after.slots[j] == Outcome(p, st.slots[j], t)
  {
    hide OneSlot, Outcome;
    ExitsActSlotBySlot(p, CoolDown(st), t, 0);
  }

  // ---------------------------------------------------------------- one side, short holds

  predicate OneSided(slots: seq<Option<Slot>>) {
    && (forall j :: 0 <= j < |slots| && slots[j].Some? ==> slots[j].value.direction != 0)
    && (forall i, j :: 0 <= i < |slots| && 0 <= j < |slots| && slots[i].Some? && slots[j].Some? ==>
          slots[i].value.direction == slots[j].value.direction)
  }

  predicate ShortHolds(p: Params, slots: seq<Option<Slot>>) {
    p.HoldLimit() > 0 ==>
      forall j :: 0 <= j < |slots| && slots[j].Some? ==> slots[j].value.holdTicks < p.HoldLimit()
  }

  /** The signed count of a one-sided book is zero only if it is empty. */
  lemma {:induction false} OneSidedCount(slots: seq<Option<Slot>>, side: Side)
    requires side != 0 && forall j :: 0 <= j < |slots| && slots[j].Some? ==> slots[j].value.direction == side
    ensures if exists j :: 0 <= j < |slots| && slots[j].Some? then Sign(SignedOpen(slots)) == side
            else SignedOpen(slots) == 0
  {
    if slots != [] {
      var n := |slots| - 1;
      OneSidedCount(slots[..n], side);
      if j :| 0 <= j < |slots| && slots[j].Some? {
        assert j < n ==> slots[..n][j].Some?;
      }
      if slots[n].None? && exists j :: 0 <= j < |slots| && slots[j].Some? {
        var j :| 0 <= j < |slots| && slots[j].Some?;
        assert slots[..n][j].Some?;
      }
    }
  }

  lemma EntryKeepsOneSide(p: Params, st: State, t: Tick)
    requires OneSided(st.slots) && ShortHolds(p, st.slots)
    ensures OneSided(Entry(p, st, t).slots) && ShortHolds(p, Entry(p, st, t).slots)
  {
    if Enters(p, st, t) {
      hide GateValid;
      assert ActionOf(p, t.gate.value) != 0 by { ValidGateActs(p, t.gate.value); }
      if j :| 0 <= j < SLOTS && st.slots[j].Some? {
        OneSidedCount(st.slots, st.slots[j].value.direction);
      }
    }
  }

  lemma ValidGateActs(p: Params, g: Gate)
    requires GateValid(p, g)
    ensures ActionOf(p, g) != 0
  {
  }

  lemma OutcomeShape(p: Params, slot: Option<Slot>, t: Tick)
    requires slot.Some? ==> slot.value.entryPrice != 0.0
    ensures var o := Outcome(p, slot, t);
            o.Some? ==> slot.Some? && o.value.direction == slot.value.direction
                        && (p.HoldLimit() > 0 ==> o.value.holdTicks < p.HoldLimit())
  {
  }

  lemma ExitsKeepOneSide(p: Params, st: State, t: Tick)
    requires PositiveEntries(st.slots) && OneSided(st.slots)
    ensures OneSided(AfterExits(p, st, t).slots) && ShortHolds(p, AfterExits(p, st, t).slots)
  {
    hide AfterExits, Outcome;
    ExitPhase(p, st, t);
    var exited := AfterExits(p, st, t);
    forall j | 0 <= j < SLOTS && exited.slots[j].Some?
      ensures st.slots[j].Some? && exited.slots[j].value.direction == st.slots[j].value.direction
      ensures p.HoldLimit() > 0 ==> exited.slots[j].value.holdTicks < p.HoldLimit()
    {
      OutcomeShape(p, st.slots[j], t);
    }
  }

  /** After every candle all open slots are on one side and short of the hold limit. */
  lemma {:induction false} EveryRunIsOneSidedAndShort(p: Params, ticks: seq<Tick>)
    requires PositiveCloses(ticks)
    ensures OneSided(Run(p, ticks).slots) && ShortHolds(p, Run(p, ticks).slots)
  {
    hide Entry, AfterExits, OneSided, ShortHolds;
    if ticks == [] {
      NothingOpen(p);
    } else {
      var n := |ticks| - 1;
      EveryRunIsOneSidedAndShort(p, ticks[..n]);
      ExitsKeepOneSide(p, Run(p, ticks[..n]), ticks[n]);
      EntryKeepsOneSide(p, AfterExits(p, Run(p, ticks[..n]), ticks[n]), ticks[n]);
    }
  }

  lemma NothingOpen(p: Params)
    ensures OneSided(START.slots) && ShortHolds(p, START.slots)
  {
  }

  // ---------------------------------------------------------------- spaced entries

  /** Candle `i` opened a trade. */
  predicate EntersAt(p: Params, ticks: seq<Tick>, i: nat)
    requires PositiveCloses(ticks) && i < |ticks|
  {
    Enters(p, AfterExits(p, Run(p, ticks[..i]), ticks[i]), ticks[i])
  }

  /** After an entry at candle `i` the cooldown has counted down by one for every candle since. */
  lemma {:induction false} CooldownRemembers(p: Params, ticks: seq<Tick>, i: nat)
    requires PositiveCloses(ticks) && i < |ticks| && EntersAt(p, ticks, i)
    ensures Run(p, ticks).cooldown >= COOLDOWN - (|ticks| - 1 - i)
  {
    hide Enters, AfterExits, Outcome;
    var n := |ticks| - 1;
    ExitPhase(p, Run(p, ticks[..n]), ticks[n]);
    if i < n {
      assert ticks[..n][..i] == ticks[..i];
      CooldownRemembers(p, ticks[..n], i);
    }
  }

  /** Any two entries are at least twelve candles apart. */
  lemma EntriesAreSpaced(p: Params, ticks: seq<Tick>, i: nat, j: nat)
    requires PositiveCloses(ticks) && i < j < |ticks|
    requires EntersAt(p, ticks, i) && EntersAt(p, ticks, j)
    ensures j - i >= 12
  {
    hide AfterExits, Outcome, GateValid;
    assert ticks[..j][..i] == ticks[..i];
    CooldownRemembers(p, ticks[..j], i);
    ExitPhase(p, Run(p, ticks[..j]), ticks[j]);
  }

  // ---------------------------------------------------------------- cash

  function Pnl(trade: ClosedTrade): real {
    trade.pnl
  }

  function PnlOf(trades: seq<ClosedTrade>): real {
    SumBy(trades, Pnl)
  }

  function FeeOf(slot: Option<Slot>): real {
    match slot case Some(s) => s.entryCommission case None => 0.0
  }

  /** Entry commissions paid for slots that are still open. */
  function OpenFees(slots: seq<Option<Slot>>): real {
    if slots == [] then 0.0 else OpenFees(slots[..|slots| - 1]) + FeeOf(slots[|slots| - 1])
  }

  predicate CashBalanced(st: State) {
    st.realized == PnlOf(st.trades) - OpenFees(st.slots)
  }

  lemma {:induction false} FeesAfterUpdate(slots: seq<Option<Slot>>, k: nat, slot: Option<Slot>)
    requires k < |slots|
    ensures OpenFees(slots[k := slot]) == OpenFees(slots) - FeeOf(slots[k]) + FeeOf(slot)
  {
    var n := |slots| - 1;
    if k < n {
      FeesAfterUpdate(slots[..n], k, slot);
      assert slots[k := slot][..n] == slots[..n][k := slot];
    } else {
      assert slots[k := slot][..n] == slots[..n];
    }
  }

  lemma OneSlotKeepsCash(p: Params, st: State, t: Tick, k: nat)
    requires k < SLOTS && PositiveEntries(st.slots) && CashBalanced(st)
    ensures CashBalanced(OneSlot(p, st, t, k))
  {
    hide Leaves, AgedSlot, ExitPrice, SlotUsd, TradeFee;
    if st.slots[k].Some? {
      AgedKeepsEntry(p, st.slots[k].value, t);
      var s := AgedSlot(p, st.slots[k].value, t.candle);
      FeesAfterUpdate(st.slots, k, Some(s));
      FeesAfterUpdate(st.slots, k, None);
      assert (st.trades + [TradeOf(p, s, t)])[..|st.trades|] == st.trades;
    }
  }

  lemma {:induction false} ExitsKeepCash(p: Params, st: State, t: Tick, k: nat)
    requires k <= SLOTS && PositiveEntries(st.slots) && CashBalanced(st)
    ensures CashBalanced(ExitFrom(p, st, t, k))
    decreases SLOTS - k
  {
    hide OneSlot, CashBalanced;
    if k < SLOTS {
      OneSlotKeepsCash(p, st, t, k);
      ExitsKeepCash(p, OneSlot(p, st, t, k), t, k + 1);
    }
  }

  /** After every candle realized cash is the profit of the closed trades less the entry fees of the open ones. */
  lemma {:induction false} EveryRunBalancesCash(p: Params, ticks: seq<Tick>)
    requires PositiveCloses(ticks)
    ensures CashBalanced(Run(p, ticks))
  {
    hide Enters, NewSlot;
    if ticks != [] {
      var n := |ticks| - 1;
      EveryRunBalancesCash(p, ticks[..n]);
      var before, t := Run(p, ticks[..n]), ticks[n];
      ExitsKeepCash(p, CoolDown(before), t, 0);
      var exited := AfterExits(p, before, t);
      if Enters(p, exited, t) {
        EnteringNeeds(p, exited, t);
        FeesAfterUpdate(exited.slots, FirstOpen(exited.slots), Some(NewSlot(p, t)));
      }
    } else {
      assert OpenFees(START.slots) == 0.0 by {
        NoFees(START.slots);
      }
    }
  }

  lemma NoFees(slots: seq<Option<Slot>>)
    requires forall j :: 0 <= j < |slots| ==> slots[j].None?
    ensures OpenFees(slots) == 0.0
  {
  }

  lemma EnteringNeeds(p: Params, st: State, t: Tick)
    requires Enters(p, st, t)
    ensures t.gate.Some? && FirstOpen(st.slots) < SLOTS && st.slots[FirstOpen(st.slots)].None?
  {
  }

  // ---------------------------------------------------------------- what an entry says about its gate

  /** An acting gate with every metric on the right side of the threshold given for it. */
  predicate MeetsThresholds(p: Params, g: Gate) {
    && g.action != 0
    && (p.hazardThreshold.Some? && p.meanReversion ==> p.hazardThreshold.value <= g.hazard)
    && (p.hazardThreshold.Some? && !p.meanReversion ==> g.hazard <= p.hazardThreshold.value)
    && p.minRepetitions as real <= g.reps && 1.0 <= g.reps
    && (p.coherence.Some? ==> p.coherence.value <= g.coherence)
    && (p.stability.Some? ==> p.stability.value <= g.stability)
    && (p.entropy.Some? ==> g.entropy <= p.entropy.value)
    && (p.meanReversion && p.stPeakMode ==> g.stPeak)
  }

  /** A trade is opened on the side its gate acts on, the other one in mean reversion, at the close of its candle; and
      the gate has every metric on the right side of the threshold given for it. */
  lemma EntriesMeetTheirThresholds(p: Params, ticks: seq<Tick>, i: nat)
    requires PositiveCloses(ticks) && i < |ticks| && EntersAt(p, ticks, i)
    ensures ticks[i].gate.Some? && MeetsThresholds(p, ticks[i].gate.value)
    ensures Opens(p, ticks[i], Run(p, ticks[..i + 1]))
  {
    hide AfterExits, SignedOpen;
    assert ticks[..i + 1][..i] == ticks[..i];
    var exited := AfterExits(p, Run(p, ticks[..i]), ticks[i]);
    EnteringNeeds(p, exited, ticks[i]);
    assert OpenedAt(p, ticks[i], Run(p, ticks[..i + 1]).slots[FirstOpen(exited.slots)]);
  }

  predicate Opens(p: Params, t: Tick, st: State) {
    exists k :: 0 <= k < SLOTS && OpenedAt(p, t, st.slots[k])
  }

  /** The slot is what the tick's gate opens. */
  predicate OpenedAt(p: Params, t: Tick, slot: Option<Slot>) {
    && slot.Some? && t.gate.Some?
    && slot.value.direction == (if p.meanReversion then 0 - t.gate.value.action else t.gate.value.action)
    && slot.value.units == p.sizing(t.candle.close)
    && slot.value.entryPrice == t.candle.close && slot.value.entryTime == t.candle.time
    && slot.value.holdTicks == 0 && slot.value.peakProfit == 0.0 && !slot.value.breakevenActivated
  }

  /** Without an entry among the last `m` candles the cooldown has run down that far; without any there is none. */
  lemma {:induction false} CooldownForgets(p: Params, ticks: seq<Tick>, m: nat)
    requires PositiveCloses(ticks) && m <= |ticks|
    requires forall j :: |ticks| - m <= j < |ticks| ==> !EntersAt(p, ticks, j)
    ensures Run(p, ticks).cooldown <= if m == |ticks| then 0 else Max(0, 12 - m)
  {
    hide Enters, AfterExits, Outcome;
    if ticks != [] {
      var n := |ticks| - 1;
      ExitPhase(p, Run(p, ticks[..n]), ticks[n]);
      var k := if m == 0 then 0 else m - 1;
      forall j | n - k <= j < n
        ensures !EntersAt(p, ticks[..n], j)
      {
        assert ticks[..n][..j] == ticks[..j];
        assert !EntersAt(p, ticks, j);
      }
      CooldownForgets(p, ticks[..n], k);
      assert m > 0 ==> !EntersAt(p, ticks, n);
    }
  }

  predicate Recent(p: Params, ticks: seq<Tick>, i: nat)
    requires PositiveCloses(ticks) && i <= |ticks|
  {
    exists j :: Max(0, i - 11) <= j < i && EntersAt(p, ticks, j)
  }

  /** Nothing is open on another side than `side`, and there is room. */
  predicate Joins(slots: seq<Option<Slot>>, side: Side) {
    && (exists k :: 0 <= k < |slots| && slots[k].None?)
    && forall k :: 0 <= k < |slots| && slots[k].Some? ==> slots[k].value.direction == side
  }

  lemma JoinsIffFree(st: State, side: Side)
    requires OneSided(st.slots) && side != 0
    ensures Joins(st.slots, side)
            <==> FirstOpen(st.slots) < SLOTS && (SignedOpen(st.slots) == 0 || Sign(SignedOpen(st.slots)) == side)
  {
    if k :| 0 <= k < SLOTS && st.slots[k].Some? {
      OneSidedCount(st.slots, st.slots[k].value.direction);
    } else {
      OneSidedCount(st.slots, side);
    }
  }

  /** A candle opens a trade if and only if its gate meets the thresholds, the exits have left room on its side, the
      order has a size, and none of the eleven candles before opened one. */
  lemma EntersIffClear(p: Params, ticks: seq<Tick>, i: nat)
    requires PositiveCloses(ticks) && i < |ticks|
    ensures EntersAt(p, ticks, i)
            <==> && ticks[i].gate.Some? && MeetsThresholds(p, ticks[i].gate.value)
                 && Joins(AfterExits(p, Run(p, ticks[..i]), ticks[i]).slots, ActionOf(p, ticks[i].gate.value))
                 && p.sizing(ticks[i].candle.close) > 0
                 && !Recent(p, ticks, i)
  {
    hide AfterExits, Outcome, SignedOpen, Run, Joins, OneSided, ShortHolds;
    var before := Run(p, ticks[..i]);
    EveryRunIsOneSidedAndShort(p, ticks[..i]);
    ExitsKeepOneSide(p, before, ticks[i]);
    ExitPhase(p, before, ticks[i]);
    if ticks[i].gate.Some? && ticks[i].gate.value.action != 0 {
      JoinsIffFree(AfterExits(p, before, ticks[i]), ActionOf(p, ticks[i].gate.value));
    }
    if EntersAt(p, ticks, i) {
      forall j | Max(0, i - 11) <= j < i
        ensures !EntersAt(p, ticks, j)
      {
        if EntersAt(p, ticks, j) {
          EntriesAreSpaced(p, ticks, j, i);
        }
      }
    } else if !Recent(p, ticks, i) {
      var m := if i < 11 then i else 11;
      forall j | i - m <= j < i
        ensures !EntersAt(p, ticks[..i], j)
      {
        assert ticks[..i][..j] == ticks[..j];
        assert !EntersAt(p, ticks, j);
      }
      CooldownForgets(p, ticks[..i], m);
    }
  }

  /** With a hold of so many minutes no open slot has seen more than twelve candles for each. */
  lemma HoldsAreShortInMinutes(p: Params, ticks: seq<Tick>, k: nat)
    requires PositiveCloses(ticks) && k < SLOTS && p.holdMinutes >= 1 && Run(p, ticks).slots[k].Some?
    ensures Run(p, ticks).slots[k].value.holdTicks < 12 * p.holdMinutes
  {
    hide Run;
    EveryRunIsOneSidedAndShort(p, ticks);
  }
}
