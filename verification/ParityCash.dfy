/** What the parity replay earns, told in units times price moves, and over which candles. */
module ParityCash {
  import opened Common
  import opened Pricing
  import opened Flows
  import opened ParityReplay
  import opened ParityInvariants
  import SweepParity

  function Signed(direction: Side, units: nat): int {
    if direction > 0 then units else if direction < 0 then 0 - units else 0
  }

  /** Dollars that `units` on a side earn between two prices. */
  function Earns(p: Params, direction: Side, units: nat, from: real, to: real): real {
    Dollars(p.inst, Earned(Signed(direction, units), from, to), to)
  }

  lemma GrossIsEarned(s: Slot, price: real)
    ensures SlotGross(s, price) == Earned(Signed(s.direction, s.units), s.entryPrice, price)
  {
  }

  lemma SlotUsdIsEarned(p: Params, s: Slot, price: real)
    ensures SlotUsd(p, s, price) == Earns(p, s.direction, s.units, s.entryPrice, price)
  {
    hide ConvertToUsd, Dollars, SlotGross, Earned;
    GrossIsEarned(s, price);
    ConversionIsDollars(p.inst, SlotGross(s, price), price);
  }

  // ---------------------------------------------------------------- what a trade pays

  predicate PaysFees(p: Params, trade: ClosedTrade, entryFee: real, exitFee: real) {
    && trade.commission == entryFee + exitFee
    && IsFee(p.inst, entryFee, trade.units, trade.entryPrice, p.costBps / 2.0)
    && IsFee(p.inst, exitFee, trade.units, trade.exitPrice, p.costBps / 2.0)
  }

  /** A trade pays what its units earned less its commission, half the fee at the entry and half at the exit. */
  ghost predicate TradePays(p: Params, trade: ClosedTrade) {
    && trade.units > 0 && trade.direction != 0
    && trade.pnl + trade.commission == Earns(p, trade.direction, trade.units, trade.entryPrice, trade.exitPrice)
    && exists entryFee, exitFee :: PaysFees(p, trade, entryFee, exitFee)
  }

  predicate SlotPaid(p: Params, slot: Option<Slot>) {
    slot.Some? ==>
      && slot.value.units > 0 && slot.value.direction != 0
      && IsFee(p.inst, slot.value.entryCommission, slot.value.units, slot.value.entryPrice, p.costBps / 2.0)
  }

  // ---------------------------------------------------------------- what a slot has lived through

  /** What the slot would earn at the best and at the worst price of a candle. */
  function AtBest(p: Params, direction: Side, units: nat, entry: real, c: Candle): real {
    Earns(p, direction, units, entry, if direction > 0 then c.high else c.low)
  }

  function AtWorst(p: Params, direction: Side, units: nat, entry: real, c: Candle): real {
    Earns(p, direction, units, entry, if direction > 0 then c.low else c.high)
  }

  /** `x` is the best of zero and what could be earned in the candles from `from` up to, not including, `to`. */
  ghost predicate IsBest(p: Params, direction: Side, units: nat, entry: real, ticks: seq<Tick>, from: nat, to: nat,
                         x: real)
    requires to <= |ticks|
  {
    && x >= 0.0
    && (forall k :: from <= k < to ==> AtBest(p, direction, units, entry, ticks[k].candle) <= x)
    && (x == 0.0 || exists k :: from <= k < to && AtBest(p, direction, units, entry, ticks[k].candle) == x)
  }

  ghost predicate IsWorst(p: Params, direction: Side, units: nat, entry: real, ticks: seq<Tick>, from: nat, to: nat,
                          x: real)
    requires to <= |ticks|
  {
    && x <= 0.0
    && (forall k :: from <= k < to ==> x <= AtWorst(p, direction, units, entry, ticks[k].candle))
    && (x == 0.0 || exists k :: from <= k < to && AtWorst(p, direction, units, entry, ticks[k].candle) == x)
  }

  /** The slot was entered at the close of candle `i` and has seen every candle since, `n` having been seen in all. */
  ghost predicate EnteredAt(p: Params, s: Slot, ticks: seq<Tick>, i: nat, n: nat)
    requires n <= |ticks|
  {
    && i < n && s.entryPrice == ticks[i].candle.close && s.entryTime == ticks[i].candle.time
    && s.holdTicks == n - 1 - i
    && IsBest(p, s.direction, s.units, s.entryPrice, ticks, i + 1, n, s.maxFavorable)
    && IsWorst(p, s.direction, s.units, s.entryPrice, ticks, i + 1, n, s.maxAdverse)
  }

  ghost predicate Lived(p: Params, slot: Option<Slot>, ticks: seq<Tick>, n: nat)
    requires n <= |ticks|
  {
    slot.Some? ==> exists i: nat :: EnteredAt(p, slot.value, ticks, i, n)
  }

  /** The trade was entered at candle `i` and left at candle `j`, and shows the best and worst in between. */
  ghost predicate HeldFrom(p: Params, trade: ClosedTrade, ticks: seq<Tick>, i: nat, j: nat)
    requires j < |ticks|
  {
    && i < j && trade.entryPrice == ticks[i].candle.close && trade.entryTime == ticks[i].candle.time
    && trade.exitTime == ticks[j].candle.time
    && IsBest(p, trade.direction, trade.units, trade.entryPrice, ticks, i + 1, j + 1, trade.mfe)
    && IsWorst(p, trade.direction, trade.units, trade.entryPrice, ticks, i + 1, j + 1, -trade.mae)
  }

  ghost predicate Held(p: Params, trade: ClosedTrade, ticks: seq<Tick>) {
    exists i: nat, j: nat :: j < |ticks| && HeldFrom(p, trade, ticks, i, j)
  }

  ghost predicate GoodTrades(p: Params, trades: seq<ClosedTrade>, ticks: seq<Tick>) {
    forall k :: 0 <= k < |trades| ==> TradePays(p, trades[k]) && Held(p, trades[k], ticks)
  }

  /** Part way through the exit phase of candle `n`: the slots before `k` have seen it, the others have not. */
  ghost predicate GoodState(p: Params, st: State, ticks: seq<Tick>, n: nat, k: nat)
    requires n < |ticks|
  {
    && GoodTrades(p, st.trades, ticks) && PositiveEntries(st.slots)
    && (forall j :: 0 <= j < SLOTS ==> SlotPaid(p, st.slots[j]))
    && (forall j :: 0 <= j < SLOTS ==> Lived(p, st.slots[j], ticks, if j < k then n + 1 else n))
  }

  lemma AgedLives(p: Params, s: Slot, ticks: seq<Tick>, i: nat, n: nat)
    requires n < |ticks| && s.entryPrice != 0.0 && EnteredAt(p, s, ticks, i, n)
    ensures EnteredAt(p, AgedSlot(p, s, ticks[n].candle), ticks, i, n + 1)
  {
    hide Earns, SlotUsd, Profit;
    var c, a := ticks[n].candle, AgedSlot(p, s, ticks[n].candle);
    SlotUsdIsEarned(p, s, if s.direction > 0 then c.high else c.low);
    SlotUsdIsEarned(p, s, if s.direction > 0 then c.low else c.high);
    assert a.maxFavorable == MaxR(s.maxFavorable, AtBest(p, s.direction, s.units, s.entryPrice, c));
    assert a.maxAdverse == MinR(s.maxAdverse, AtWorst(p, s.direction, s.units, s.entryPrice, c));
    hide AtBest, AtWorst;
    BestGrows(p, s.direction, s.units, s.entryPrice, ticks, i + 1, n, s.maxFavorable);
    WorstGrows(p, s.direction, s.units, s.entryPrice, ticks, i + 1, n, s.maxAdverse);
  }

  lemma BestGrows(p: Params, direction: Side, units: nat, entry: real, ticks: seq<Tick>, from: nat, n: nat, x: real)
    requires from <= n < |ticks| && IsBest(p, direction, units, entry, ticks, from, n, x)
    ensures IsBest(p, direction, units, entry, ticks, from, n + 1,
                   MaxR(x, AtBest(p, direction, units, entry, ticks[n].candle)))
  {
    hide AtBest;
  }

  lemma WorstGrows(p: Params, direction: Side, units: nat, entry: real, ticks: seq<Tick>, from: nat, n: nat, x: real)
    requires from <= n < |ticks| && IsWorst(p, direction, units, entry, ticks, from, n, x)
    ensures IsWorst(p, direction, units, entry, ticks, from, n + 1,
                    MinR(x, AtWorst(p, direction, units, entry, ticks[n].candle)))
  {
    hide AtWorst;
  }

  lemma TradeOfIsGood(p: Params, s: Slot, ticks: seq<Tick>, i: nat, n: nat)
    requires i < n < |ticks| && s.entryPrice != 0.0 && SlotPaid(p, Some(s)) && EnteredAt(p, s, ticks, i, n + 1)
    ensures TradePays(p, TradeOf(p, s, ticks[n])) && Held(p, TradeOf(p, s, ticks[n]), ticks)
  {
    hide Earns, SlotUsd, ExitPrice, IsFee, Commission, ReasonOf, AtBest, AtWorst;
    var trade := TradeOf(p, s, ticks[n]);
    SlotUsdIsEarned(p, s, trade.exitPrice);
    CommissionIsFee(p.inst, trade.exitPrice, s.units, p.costBps / 2.0);
    assert PaysFees(p, trade, s.entryCommission, TradeFee(p, trade.exitPrice, s.units));
    assert HeldFrom(p, trade, ticks, i, n);
  }

  lemma OneSlotIsGood(p: Params, st: State, ticks: seq<Tick>, n: nat, k: nat)
    requires n < |ticks| && k < SLOTS && GoodState(p, st, ticks, n, k)
    ensures GoodState(p, OneSlot(p, st, ticks[n], k), ticks, n, k + 1)
  {
    hide EnteredAt, TradePays, Held, IsFee, AgedSlot, Leaves, TradeOf, SlotUsd, TradeFee, ExitPrice;
    if st.slots[k].Some? {
      var s := st.slots[k].value;
      var i: nat :| EnteredAt(p, s, ticks, i, n);
      AgedLives(p, s, ticks, i, n);
      AgedKeepsEntry(p, s, ticks[n]);
      var a := AgedSlot(p, s, ticks[n].candle);
      SameFee(p, s, a);
      EnteredBefore(p, s, ticks, i, n);
      TradeOfIsGood(p, a, ticks, i, n);
    }
  }

  lemma SameFee(p: Params, s: Slot, a: Slot)
    requires s.entryCommission == a.entryCommission && s.units == a.units && s.entryPrice == a.entryPrice
    requires s.direction == a.direction
    ensures SlotPaid(p, Some(s)) <==> SlotPaid(p, Some(a))
  {
  }

  lemma EnteredBefore(p: Params, s: Slot, ticks: seq<Tick>, i: nat, n: nat)
    requires n <= |ticks| && EnteredAt(p, s, ticks, i, n)
    ensures i < n
  {
  }

  lemma {:induction false} ExitsAreGood(p: Params, st: State, ticks: seq<Tick>, n: nat, k: nat)
    requires n < |ticks| && k <= SLOTS && GoodState(p, st, ticks, n, k)
    ensures GoodState(p, ExitFrom(p, st, ticks[n], k), ticks, n, SLOTS)
    decreases SLOTS - k
  {
    hide OneSlot, GoodTrades, SlotPaid, Lived;
    if k < SLOTS {
      OneSlotIsGood(p, st, ticks, n, k);
      ExitsAreGood(p, OneSlot(p, st, ticks[n], k), ticks, n, k + 1);
    }
  }

  /** What holds after the first `n` candles. */
  ghost predicate Good(p: Params, st: State, ticks: seq<Tick>, n: nat)
    requires n <= |ticks|
  {
    && GoodTrades(p, st.trades, ticks)
    && forall j :: 0 <= j < SLOTS ==> SlotPaid(p, st.slots[j]) && Lived(p, st.slots[j], ticks, n)
  }

  lemma EntryIsGood(p: Params, st: State, ticks: seq<Tick>, n: nat)
    requires n < |ticks| && Good(p, st, ticks, n + 1)
    ensures Good(p, Entry(p, st, ticks[n]), ticks, n + 1)
  {
    hide IsFee, Enters, GoodTrades, Commission;
    if Enters(p, st, ticks[n]) {
      EnteringNeeds(p, st, ticks[n]);
      EnteringIsSized(p, st, ticks[n]);
      var s := NewSlot(p, ticks[n]);
      CommissionIsFee(p.inst, s.entryPrice, s.units, p.costBps / 2.0);
      assert EnteredAt(p, s, ticks, n, n + 1);
    }
  }

  lemma EnteringIsSized(p: Params, st: State, t: Tick)
    requires Enters(p, st, t)
    ensures t.gate.Some? && p.sizing(t.candle.close) > 0 && ActionOf(p, t.gate.value) != 0
  {
  }

  /** After every candle: every trade pays what its units earned between the close it was entered at and its exit
      price, less its fees, and shows the best and the worst in between; every open slot has seen all candles since
      its entry. */
  lemma {:induction false} EveryRunIsGood(p: Params, ticks: seq<Tick>, n: nat)
    requires PositiveCloses(ticks) && n <= |ticks|
    ensures Good(p, Run(p, ticks[..n]), ticks, n)
  {
    hide GoodTrades, SlotPaid, Lived, Entry, ExitFrom;
    if n == 0 {
      NothingIsGood(p, ticks);
    } else {
      EveryRunIsGood(p, ticks, n - 1);
      assert ticks[..n][..n - 1] == ticks[..n - 1];
      var before := Run(p, ticks[..n - 1]);
      ExitsAreGood(p, CoolDown(before), ticks, n - 1, 0);
      EntryIsGood(p, AfterExits(p, before, ticks[n - 1]), ticks, n - 1);
    }
  }

  lemma NothingIsGood(p: Params, ticks: seq<Tick>)
    ensures Good(p, START, ticks, 0)
  {
  }

  // ---------------------------------------------------------------- consequences

  /** The trades of a replay. */
  lemma EveryTradePays(p: Params, ticks: seq<Tick>, k: nat)
    requires PositiveCloses(ticks) && k < |Run(p, ticks).trades|
    ensures TradePays(p, Run(p, ticks).trades[k]) && Held(p, Run(p, ticks).trades[k], ticks)
  {
    hide TradePays, Held;
    assert ticks[..|ticks|] == ticks;
    EveryRunIsGood(p, ticks, |ticks|);
  }

  /** What the open slots would earn at `price`. */
  function OpenEarns(p: Params, slots: seq<Option<Slot>>, price: real): real {
    if slots == [] then 0.0
    else
      OpenEarns(p, slots[..|slots| - 1], price)
      + match slots[|slots| - 1]
        case Some(s) => Earns(p, s.direction, s.units, s.entryPrice, price)
        case None => 0.0
  }

  /** The unrealized part of an equity point. */
  lemma {:induction false} UnrealizedIsEarned(p: Params, slots: seq<Option<Slot>>, price: real)
    ensures UnrealizedOf(p, slots, price) == OpenEarns(p, slots, price)
  {
    hide SlotUsd, Earns;
    if slots != [] {
      var n := |slots| - 1;
      UnrealizedIsEarned(p, slots[..n], price);
      if slots[n].Some? {
        SlotUsdIsEarned(p, slots[n].value, price);
      }
    }
  }

  function Earning(p: Params): ClosedTrade -> real {
    (trade: ClosedTrade) => Earns(p, trade.direction, trade.units, trade.entryPrice, trade.exitPrice)
  }

  function CommissionOf(trade: ClosedTrade): real {
    trade.commission
  }

  lemma {:induction false} TradesEarned(p: Params, trades: seq<ClosedTrade>)
    requires forall k :: 0 <= k < |trades| ==> TradePays(p, trades[k])
    ensures SumBy(trades, Pnl) == SumBy(trades, Earning(p)) - SumBy(trades, CommissionOf)
  {
    hide Earns, IsFee;
    if trades != [] {
      assert TradePays(p, trades[|trades| - 1]);
      TradesEarned(p, trades[..|trades| - 1]);
    }
  }

  /** Realized cash after any candles is what the closed trades earned, less their commissions and the entry
      commissions of the open slots. */
  lemma RealizedIsEarned(p: Params, ticks: seq<Tick>)
    requires PositiveCloses(ticks)
    ensures var st := Run(p, ticks);
            st.realized == SumBy(st.trades, Earning(p)) - SumBy(st.trades, CommissionOf) - OpenFees(st.slots)
  {
    hide TradePays, Held, Run, Earning;
    EveryRunBalancesCash(p, ticks);
    forall k | 0 <= k < |Run(p, ticks).trades|
      ensures TradePays(p, Run(p, ticks).trades[k])
    {
      EveryTradePays(p, ticks, k);
    }
    TradesEarned(p, Run(p, ticks).trades);
  }

  /** Every point of the equity curve: starting capital, what the closed trades earned less all commissions, and what
      the open slots would earn at the close. */
  lemma EquityIsEarned(p: Params, ticks: seq<Tick>, nav: real, close: real)
    requires PositiveCloses(ticks)
    ensures var st := Run(p, ticks);
            nav + st.realized + UnrealizedOf(p, st.slots, close)
            == nav + SumBy(st.trades, Earning(p)) - SumBy(st.trades, CommissionOf) - OpenFees(st.slots)
               + OpenEarns(p, st.slots, close)
  {
    hide Run, Earning, UnrealizedOf, OpenEarns;
    RealizedIsEarned(p, ticks);
    UnrealizedIsEarned(p, Run(p, ticks).slots, close);
  }

  /** Before commissions a trade gains exactly if the return the exporter computes from its prices is positive. */
  lemma ProfitHasTheSignOfTheReturn(p: Params, ticks: seq<Tick>, k: nat)
    requires PositiveCloses(ticks) && k < |Run(p, ticks).trades|
    requires CountedInDollars(p.inst) ==> Run(p, ticks).trades[k].exitPrice > 0.0
    ensures var trade := Run(p, ticks).trades[k];
            && trade.entryPrice > 0.0
            && (trade.pnl + trade.commission > 0.0 <==> SweepParity.GrossReturn(trade) > 0.0)
            && (trade.pnl + trade.commission < 0.0 <==> SweepParity.GrossReturn(trade) < 0.0)
  {
    hide Run, IsFee, EnteredAt;
    var trade := Run(p, ticks).trades[k];
    EveryTradePays(p, ticks, k);
    var i: nat, j: nat :| j < |ticks| && HeldFrom(p, trade, ticks, i, j);
    assert ticks[i].candle.close > 0.0;
    SignOfEarning(p, trade);
  }

  lemma SignOfQuotient(x: real, y: real)
    requires y > 0.0
    ensures x > 0.0 <==> x / y > 0.0
    ensures x < 0.0 <==> x / y < 0.0
  {
  }

  lemma SignOfProduct(x: real, n: nat)
    requires n > 0
    ensures x > 0.0 <==> n as real * x > 0.0
    ensures x < 0.0 <==> n as real * x < 0.0
  {
  }

  lemma SignOfEarning(p: Params, trade: ClosedTrade)
    requires trade.units > 0 && trade.direction != 0 && trade.entryPrice > 0.0
    requires CountedInDollars(p.inst) ==> trade.exitPrice > 0.0
    ensures var earned := Earns(p, trade.direction, trade.units, trade.entryPrice, trade.exitPrice);
            && (earned > 0.0 <==> SweepParity.GrossReturn(trade) > 0.0)
            && (earned < 0.0 <==> SweepParity.GrossReturn(trade) < 0.0)
  {
    var move := if trade.direction > 0 then trade.exitPrice - trade.entryPrice else trade.entryPrice - trade.exitPrice;
    SignOfQuotient(move, trade.entryPrice);
    SignOfProduct(move, trade.units);
    var amount := Earned(Signed(trade.direction, trade.units), trade.entryPrice, trade.exitPrice);
    assert amount == trade.units as real * move;
    if CountedInDollars(p.inst) {
      SignOfQuotient(amount, trade.exitPrice);
    }
  }
}
