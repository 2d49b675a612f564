/** How long a backtest can hold a trade: every candle ages it by one tick, and the expiry pass,
    which the backtest never refuses, removes it as soon as it is old enough. */
module HoldBound {
  import opened Common
  import opened TradeState
  import opened PositionTracker
  import opened RiskLimits
  import opened Books
  import opened Agreement
  import opened ExitAgreement
  import opened OrderAgreement
  import opened Simulator
  import opened LossBound

  /** The trade was entered at candle `j` and has been aged by every candle since, `n` candles having been seen. */
  ghost predicate EnteredAt(p: Params, t: Trade, candles: seq<Candle>, j: nat, n: nat) {
    && j < n <= |candles|
    && t.entryTs == candles[j].time
    && t.elapsedSecs == p.tickSecs * (n - 1 - j)
  }

  ghost predicate HeldSoFar(p: Params, t: Trade, candles: seq<Candle>, n: nat) {
    && t.holdSecs == HoldSecs(p) && t.maxHoldSecs.None?
    && t.elapsedSecs < t.holdSecs
    && exists j :: EnteredAt(p, t, candles, j, n)
  }

  ghost predicate AllHeld(p: Params, trades: seq<Trade>, candles: seq<Candle>, n: nat) {
    forall k :: 0 <= k < |trades| ==> HeldSoFar(p, trades[k], candles, n)
  }

  /** Exits only take trades away. */
  lemma ExitsKeepHeld(p: Params, b: Books, c: Candle, d: Decision, candles: seq<Candle>, n: nat)
    requires Agree(b) && HazardExitOff(p) && AllHeld(p, b.store.TradesOf(p.inst), candles, n)
    ensures AllHeld(p, ExitPhase(p, b, c, d).0.store.TradesOf(p.inst), candles, n)
  {
    hide HeldSoFar, CloseDown, Checked, ExitsOf, Agree, InstAgrees, SweepOk, ZeroAmong, RiskV.RecordFill, RiskV.Flatten;
    var inst, trades, tickets := p.inst, b.store.TradesOf(p.inst), b.tracker.TicketsOf(p.inst);
    var checked := Checked(b, inst, c.high, c.low, p.cfg, d.scalping);
    var exits := ExitsOf(tickets, c.high, c.low, p.cfg, d.scalping);
    var start := Sweep(checked, trades, false, false);
    CheckedIs(b, inst, c.high, c.low, p.cfg, d.scalping);
    SweepInOrder(p, b, c, d);
    SimulatedSweep(start, inst, exits, c.time);
    CloseDownKeepsStore(start, Simulated, inst, exits, c.time, |exits|);
    KeptTradesHeld(p, trades, Gone(exits, Simulated), candles, n);
  }

  /** The exit sweep of a candle starts in order. */
  lemma SweepInOrder(p: Params, b: Books, c: Candle, d: Decision)
    requires Agree(b)
    ensures var inst, tickets := p.inst, b.tracker.TicketsOf(p.inst);
            var exits := ExitsOf(tickets, c.high, c.low, p.cfg, d.scalping);
            var start := Sweep(Checked(b, inst, c.high, c.low, p.cfg, d.scalping), b.store.TradesOf(inst), false,
                               false);
            && SweepOk(start, inst) && |exits| == |start.trades|
            && !ZeroAmong(start.trades, Gone(exits, Simulated), |exits|)
  {
    hide Checked, SameTrade, ZeroAmong;
    var inst := p.inst;
    assert InstAgrees(b, inst);
    CheckedIs(b, inst, c.high, c.low, p.cfg, d.scalping);
    CheckedAgrees(b, inst, c.high, c.low, p.cfg, d.scalping);
    assert InstAgrees(Checked(b, inst, c.high, c.low, p.cfg, d.scalping), inst);
    CheckerSparesZero(b, Simulated, inst, c.high, c.low, p.cfg, d.scalping,
                      |ExitsOf(b.tracker.TicketsOf(inst), c.high, c.low, p.cfg, d.scalping)|);
  }

  lemma KeptTradesHeld(p: Params, trades: seq<Trade>, gone: seq<bool>, candles: seq<Candle>, n: nat)
    requires |trades| == |gone|
    requires forall k :: 0 <= k < |trades| && !gone[k] ==> HeldSoFar(p, trades[k], candles, n)
    ensures AllHeld(p, Keep(trades, gone), candles, n)
  {
    forall k | 0 <= k < |Keep(trades, gone)|
      ensures HeldSoFar(p, Keep(trades, gone)[k], candles, n)
    {
      var i := KeepMember(trades, gone, k);
    }
  }

  /** One more candle: aged by one tick, still held unless that made it expire. */
  lemma AgedTradeHeld(p: Params, t: Trade, candles: seq<Candle>, n: nat)
    requires n < |candles| && HeldSoFar(p, t, candles, n)
    requires !t.Aged(p.tickSecs).Expired()
    ensures HeldSoFar(p, t.Aged(p.tickSecs), candles, n + 1)
  {
    var j :| EnteredAt(p, t, candles, j, n);
    assert p.tickSecs * (n - 1 - j) + p.tickSecs == p.tickSecs * (n - j);
    assert EnteredAt(p, t.Aged(p.tickSecs), candles, j, n + 1);
  }

  /** Unless it raises, the expiry pass ages every trade of the instrument and leaves none that is old enough. */
  lemma ExpiryKeepsHeld(p: Params, b: Books, candles: seq<Candle>, n: nat)
    requires n < |candles|
    requires Agree(b) && AllHeld(p, b.store.TradesOf(p.inst), candles, n)
    ensures var (a, ending) := ExpiryPass(b, Simulated, p.inst, candles[n].close, candles[n].time, p.tickSecs);
            !ending.Aborted? ==> AllHeld(p, a.store.TradesOf(p.inst), candles, n + 1)
  {
    hide HeldSoFar, CloseDown, SameTrade, ZeroAmong, RiskV.RecordFill, RiskV.Flatten, NetOfTickets, NetOfTrades;
    var inst, c := p.inst, candles[n];
    var trades, tickets := b.store.TradesOf(inst), b.tracker.TicketsOf(inst);
    assert InstAgrees(b, inst);
    SlotsHeldIffNet(trades, tickets);
    ExpiryPassAgrees(b, Simulated, inst, c.close, c.time, p.tickSecs);
    if trades != [] && !ZeroExpires(b, Simulated, inst, p.tickSecs) {
      var aged := AgeAll(trades, p.tickSecs);
      var exits := ExpiriesOf(aged, c.close);
      SurvivorsHeld(p, trades, c.close, candles, n);
      AgedSlotsAgree(trades, tickets, p.tickSecs);
      ZeroExpiresIsZeroAmong(b, Simulated, inst, c.close, p.tickSecs);
      var start := Sweep(b, aged, false, false);
      SimulatedSweep(start, inst, exits, c.time);
      CloseDownKeepsStore(start, Simulated, inst, exits, c.time, |exits|);
      KeptTradesHeld(p, aged, Gone(exits, Simulated), candles, n + 1);
    }
  }

  lemma SurvivorsHeld(p: Params, trades: seq<Trade>, price: real, candles: seq<Candle>, n: nat)
    requires n < |candles| && AllHeld(p, trades, candles, n)
    ensures var aged := AgeAll(trades, p.tickSecs);
            var gone := Gone(ExpiriesOf(aged, price), Simulated);
            forall k :: 0 <= k < |aged| && !gone[k] ==> HeldSoFar(p, aged[k], candles, n + 1)
  {
    hide HeldSoFar;
    var aged := AgeAll(trades, p.tickSecs);
    var gone := Gone(ExpiriesOf(aged, price), Simulated);
    forall k | 0 <= k < |aged| && !gone[k]
      ensures HeldSoFar(p, aged[k], candles, n + 1)
    {
      AgedTradeHeld(p, trades[k], candles, n);
    }
  }

  /** A new trade starts its clock at this candle. */
  lemma EntryKeepsHeld(p: Params, b: Books, d: Decision, candles: seq<Candle>, n: nat)
    requires n < |candles|
    requires Agree(b) && AllHeld(p, b.store.TradesOf(p.inst), candles, n + 1)
    ensures var r := Gated(RequestAt(p, candles[n], d), d.blocked);
            AllHeld(p, Transact(b, p.limits, p.inst, r, FILLED).store.TradesOf(p.inst), candles, n + 1)
  {
    hide Transact, Plan, Refused, Appends, Agree, OnlyTouches, HeldSoFar;
    var r := Gated(RequestAt(p, candles[n], d), d.blocked);
    if Refused(b, p.limits, p.inst, r, FILLED) {
      WellFormedStore(b);
      RefusalLeavesNoTrace(b, p.limits, p.inst, r, FILLED);
    } else if r.hardBlocked {
      HardBlockAgrees(b, p.limits, p.inst, r, FILLED);
    } else if Appends(b.store, p.limits, p.inst, r) {
      AppendGoesThrough(b, p.limits, p.inst, r, FILLED);
      AppendAgrees(b, p.limits, p.inst, r, FILLED);
      FreshTradeHeld(p, d, candles, n);
    } else {
      NoOrderAgrees(b, p.limits, p.inst, r, FILLED);
    }
  }

  lemma WellFormedStore(b: Books)
    requires Agree(b)
    ensures b.store.WellFormed()
  {
  }

  lemma FreshTradeHeld(p: Params, d: Decision, candles: seq<Candle>, n: nat)
    requires n < |candles|
    ensures HeldSoFar(p, NewTrade(Gated(RequestAt(p, candles[n], d), d.blocked)), candles, n + 1)
  {
    assert EnteredAt(p, NewTrade(Gated(RequestAt(p, candles[n], d), d.blocked)), candles, n, n + 1);
  }

  lemma CandleKeepsHeld(p: Params, b: Books, d: Decision, candles: seq<Candle>, n: nat)
    requires n < |candles| && HazardExitOff(p)
    requires Agree(b) && AllHeld(p, b.store.TradesOf(p.inst), candles, n)
    ensures var a := CandleStep(p, b, candles[n], d);
            a.Some? ==> Agree(a.value) && AllHeld(p, a.value.store.TradesOf(p.inst), candles, n + 1)
  {
    hide AllHeld, TpslPass, ExpiryPass, Transact, Agree;
    var c, r := candles[n], Gated(RequestAt(p, candles[n], d), d.blocked);
    ExitsKeepHeld(p, b, c, d, candles, n);
    TpslPassAgrees(b, Simulated, p.inst, c.high, c.low, c.time, p.cfg, d.scalping);
    var exited := ExitPhase(p, b, c, d).0;
    ExpiryKeepsHeld(p, exited, candles, n);
    ExpiryPassAgrees(exited, Simulated, p.inst, c.close, c.time, p.tickSecs);
    if !ZeroExpires(exited, Simulated, p.inst, p.tickSecs) {
      var expired := ExpiryPass(exited, Simulated, p.inst, c.close, c.time, p.tickSecs).0;
      EntryKeepsHeld(p, expired, d, candles, n);
      TransactAgrees(expired, p.limits, p.inst, r, FILLED);
      MarkAgrees(Transact(expired, p.limits, p.inst, r, FILLED), p.inst, c.close, c.high, c.low);
    }
  }

  /** After every candle a backtest gets to, each open trade's clock shows one tick per candle since its entry
      and is short of its hold. */
  lemma {:induction false} EveryOpenTradeIsHeldSoFar(p: Params, costBps: real, candles: seq<Candle>,
                                                     decisions: seq<Decision>, n: nat)
    requires n <= |candles| == |decisions| && HazardExitOff(p)
    ensures var b := Replay(p, EmptyBooks(costBps), candles, decisions, n);
            b.Some? ==> Agree(b.value) && AllHeld(p, b.value.store.TradesOf(p.inst), candles, n)
  {
    hide CandleStep, Agree;
    if n == 0 {
      EmptyBooksAgree(costBps);
    } else {
      EveryOpenTradeIsHeldSoFar(p, costBps, candles, decisions, n - 1);
      var before := Replay(p, EmptyBooks(costBps), candles, decisions, n - 1);
      if before.Some? {
        CandleKeepsHeld(p, before.value, decisions[n - 1], candles, n - 1);
      }
    }
  }

  /** Hence a trade open after `n` candles was entered at one of the last ceil(hold / tick) of them. */
  lemma HoldIsBounded(p: Params, costBps: real, candles: seq<Candle>, decisions: seq<Decision>, n: nat, k: nat)
    returns (j: nat)
    requires n <= |candles| == |decisions| && p.tickSecs > 0 && HazardExitOff(p)
    requires var b := Replay(p, EmptyBooks(costBps), candles, decisions, n);
             b.Some? && k < |b.value.store.TradesOf(p.inst)|
    ensures EnteredAt(p, Replay(p, EmptyBooks(costBps), candles, decisions, n).value.store.TradesOf(p.inst)[k],
            candles, j, n)
    ensures n - j <= (HoldSecs(p) + p.tickSecs - 1) / p.tickSecs
  {
    hide CandleStep, Agree;
    EveryOpenTradeIsHeldSoFar(p, costBps, candles, decisions, n);
    var t := Replay(p, EmptyBooks(costBps), candles, decisions, n).value.store.TradesOf(p.inst)[k];
    assert HeldSoFar(p, t, candles, n);
    j :| EnteredAt(p, t, candles, j, n);
    CeilingBound(p.tickSecs, n - 1 - j, HoldSecs(p));
  }

  lemma CeilingBound(tick: nat, m: int, hold: int)
    requires tick > 0 && tick * m < hold
    ensures m + 1 <= (hold + tick - 1) / tick
  {
    var q := (hold + tick - 1) / tick;
    assert hold <= tick * q;
    if q <= m {
      TimesMonotone(tick, q, m);
      assert false;
    }
  }

  /** In minutes: with a hold of at least one, at most that many minutes' worth of candles. */
  lemma HoldIsBoundedInMinutes(p: Params, costBps: real, candles: seq<Candle>, decisions: seq<Decision>, n: nat, k: nat)
    returns (j: nat)
    requires n <= |candles| == |decisions| && p.tickSecs > 0 && HazardExitOff(p) && p.holdMinutes >= 1
    requires var b := Replay(p, EmptyBooks(costBps), candles, decisions, n);
             b.Some? && k < |b.value.store.TradesOf(p.inst)|
    ensures EnteredAt(p, Replay(p, EmptyBooks(costBps), candles, decisions, n).value.store.TradesOf(p.inst)[k],
                      candles, j, n)
    ensures n - j <= (60 * p.holdMinutes + p.tickSecs - 1) / p.tickSecs
  {
    hide Replay;
    j := HoldIsBounded(p, costBps, candles, decisions, n, k);
    assert HoldSecs(p) == 60 * p.holdMinutes;
  }
}
