/** Cash is accounted for in every run of the engine and at every point of a backtest's equity curve, and the log says
    why trades left. */
module EngineCash {
  import opened Common
  import opened Tpsl
  import opened PositionTracker
  import opened Flows
  import opened CashConservation
  import opened CashFlow
  import opened RiskLimits
  import opened TradeState
  import opened Books
  import B = Books
  import opened Simulator

  /** The books balance, and every record and ticket has paid what it should. */
  ghost predicate Accounted(v: TrackerV) {
    Pays(v) && exists entered: nat :: Balanced(v, entered)
  }

  /** Realized cash of such a tracker is what its log earned less all commissions, and its open profit is what its
      tickets would earn. */
  lemma AccountedCash(v: TrackerV, inst: Inst, price: real)
    requires Accounted(v)
    ensures v.realized == SumBy(v.log, DollarsEarned) - SumBy(v.log, CommissionOf) - OpenCosts(v)
    ensures v.Unrealized(inst, price) == DollarsOpen(inst, v.TicketsOf(inst), price)
  {
    hide LogPays, TicketsPaid;
    LogEarned(v.log, v.costBps);
    UnrealizedIsOpen(inst, v.TicketsOf(inst), price);
  }

  lemma EmptyIsAccounted(costBps: real)
    ensures Accounted(EmptyTracker(costBps))
  {
    EveryRunIsBalanced(costBps, []);
    EveryRunPays(costBps, []);
  }

  // ---------------------------------------------------------------- the tracker's own operations

  lemma CloseAccounts(v: TrackerV, inst: Inst, i: int, c: Closing)
    requires Accounted(v)
    ensures Accounted(v.Close(inst, i, c))
  {
    hide Pays, Balanced, TrackerV.Close;
    var entered: nat :| Balanced(v, entered);
    ClosePays(v, inst, i, c);
    CloseConserves(v, entered, inst, i, c);
  }

  lemma CloseAllAccounts(v: TrackerV, inst: Inst, c: Closing)
    requires Accounted(v)
    ensures Accounted(v.CloseAll(inst, c))
  {
    hide Pays, Balanced, TrackerV.CloseAll;
    var entered: nat :| Balanced(v, entered);
    CloseAllPays(v, inst, c);
    CloseAllConserves(v, entered, inst, c);
  }

  lemma SyncAccounts(v: TrackerV, inst: Inst, target: int, price: real, time: Time, isBundle: bool)
    requires Accounted(v)
    ensures Accounted(v.SyncToNet(inst, target, price, time, isBundle))
  {
    hide Pays, Balanced, TrackerV.SyncToNet;
    var entered: nat :| Balanced(v, entered);
    SyncPays(v, inst, target, price, time, isBundle);
    SyncConserves(v, entered, inst, target, price, time, isBundle);
  }

  lemma MarkAccounts(v: TrackerV, inst: Inst, price: real, high: real, low: real)
    requires Accounted(v)
    ensures Accounted(v.Mark(inst, price, high, low))
  {
    hide Pays, Balanced, TrackerV.Mark;
    var entered: nat :| Balanced(v, entered);
    MarkPays(v, inst, price, high, low);
    MarkConserves(v, entered, inst, price, high, low);
  }

  /** The checker touches stop states only. */
  lemma CheckAccounts(b: Books, inst: Inst, high: real, low: real, cfg: TpslConfig, scalping: bool)
    requires Accounted(b.tracker)
    ensures Accounted(Checked(b, inst, high, low, cfg, scalping).tracker)
  {
    hide Pays, IntraCandle;
    var v, w := b.tracker, Checked(b, inst, high, low, cfg, scalping).tracker;
    var entered: nat :| Balanced(v, entered);
    RestatedPays(v, w, inst);
    RestatedCosts(v.TicketsOf(inst), w.TicketsOf(inst));
    CostsAfter(v, w, inst);
    assert Balanced(w, entered);
  }

  // ---------------------------------------------------------------- the engine's operations

  lemma VenueCloseAccounts(b: Books, venue: Venue, inst: Inst, i: int, c: Closing)
    requires Accounted(b.tracker)
    ensures Accounted(VenueClose(b, venue, inst, i, c).0.tracker)
  {
    hide Accounted, TrackerV.Close, RiskV.RecordFill, FillPrice;
    CloseAccounts(b.tracker, inst, i, c);
    if venue.Live? && venue.closeAnswers(i).Filled? {
      CloseAccounts(b.tracker, inst, i, c.(price := FillPrice(venue.closeAnswers(i).price, c.price)));
    }
  }

  lemma {:induction false} CloseDownAccounts(s: Sweep, venue: Venue, inst: Inst, exits: seq<Option<Exit>>, time: Time,
                                             n: nat)
    requires n <= |exits| && Accounted(s.books.tracker)
    ensures Accounted(CloseDown(s, venue, inst, exits, time, n).books.tracker)
    decreases n
  {
    hide Accounted, VenueClose;
    if n > 0 {
      var i := n - 1;
      if exits[i].Some? && i < |s.trades| {
        var exit := exits[i].value;
        var closing := Closing(exit.price, time, exit.reason, exit.price);
        VenueCloseAccounts(s.books, venue, inst, i, closing);
        var (books, ok) := VenueClose(s.books, venue, inst, i, closing);
        CloseDownAccounts(if ok then Sweep(books, RemoveAt(s.trades, i), true, false) else s.(books := books), venue,
                          inst, exits, time, i);
      } else {
        CloseDownAccounts(s, venue, inst, exits, time, i);
      }
    }
  }

  lemma TpslPassAccounts(b: Books, venue: Venue, inst: Inst, high: real, low: real, time: Time, cfg: TpslConfig,
                         scalping: bool)
    requires Accounted(b.tracker)
    ensures Accounted(TpslPass(b, venue, inst, high, low, time, cfg, scalping).0.tracker)
  {
    hide Accounted, Checked, CloseDown, IntraCandle, RiskV.RecordFill, RiskV.Flatten, NetOfTickets;
    CheckAccounts(b, inst, high, low, cfg, scalping);
    var exits := ExitsOf(b.tracker.TicketsOf(inst), high, low, cfg, scalping);
    var start := Sweep(Checked(b, inst, high, low, cfg, scalping), b.store.TradesOf(inst), false, false);
    CloseDownAccounts(start, Simulated, inst, exits, time, |exits|);
    CloseDownAccounts(start, venue, inst, exits, time, |exits|);
  }

  lemma ExpiryPassAccounts(b: Books, venue: Venue, inst: Inst, price: real, time: Time, tickSecs: int)
    requires Accounted(b.tracker)
    ensures Accounted(ExpiryPass(b, venue, inst, price, time, tickSecs).0.tracker)
  {
    hide Accounted, CloseDown, RiskV.RecordFill, RiskV.Flatten, NetOfTickets;
    var aged := AgeAll(b.store.TradesOf(inst), tickSecs);
    var exits := ExpiriesOf(aged, price);
    CloseDownAccounts(Sweep(b, aged, false, false), venue, inst, exits, time, |exits|);
  }

  lemma TransactAccounts(b: Books, limits: Limits, inst: Inst, r: Request, order: Answer)
    requires Accounted(b.tracker)
    ensures Accounted(Transact(b, limits, inst, r, order).tracker)
  {
    hide Accounted, Plan, TrackerV.SyncToNet, RiskV.CanAdd;
    var target := Plan(b.store, limits, inst, b.risk.NetUnits(inst), r).1.targetUnits;
    SyncAccounts(b.tracker, inst, target, r.price, r.now, r.isBundle);
  }

  lemma StepAccounts(b: Books, e: Event)
    requires Accounted(b.tracker)
    ensures Accounted(Step(b, e).tracker)
  {
    hide Accounted, TpslPass, ExpiryPass, Transact, TrackerV.Mark;
    match e
    case TpslCheck(inst, venue, high, low, time, cfg, scalping) =>
      TpslPassAccounts(b, venue, inst, high, low, time, cfg, scalping);
    case ExpiryCheck(inst, venue, price, time, tickSecs) => ExpiryPassAccounts(b, venue, inst, price, time, tickSecs);
    case Allocation(inst, limits, r, w, tickSecs) =>
      ExpiryPassAccounts(b, w.venue, inst, r.price, r.now, tickSecs);
      TransactAccounts(ExpiryPass(b, w.venue, inst, r.price, r.now, tickSecs).0, limits, inst, Gated(r, w.blocked),
                       w.order);
    case MarkPrices(inst, price, high, low) => MarkAccounts(b.tracker, inst, price, high, low);
  }

  /** Every run of the engine keeps its cash accounted for, whatever raises, is refused or is filled in part. */
  lemma {:induction false} EngineRunAccounts(b: Books, events: seq<Event>)
    requires Accounted(b.tracker)
    ensures Accounted(B.Run(b, events).tracker)
  {
    hide Accounted, Step;
    if events != [] {
      var n := |events| - 1;
      EngineRunAccounts(b, events[..n]);
      StepAccounts(B.Run(b, events[..n]), events[n]);
    }
  }

  // ---------------------------------------------------------------- what is logged

  /** Nothing on file changes, and each record added is a close of this kind. */
  ghost predicate LogsOnly(before: seq<TradeRecord>, after: seq<TradeRecord>, c: Closing) {
    && |before| <= |after| && after[..|before|] == before
    && forall k :: |before| <= k < |after| ==>
         after[k].exitPrice == c.price && after[k].exitTime == c.time && after[k].exitReason == c.reason
  }

  lemma LogsOnlyOn(a: seq<TradeRecord>, b: seq<TradeRecord>, after: seq<TradeRecord>, c: Closing)
    requires LogsOnly(a, b, c) && LogsOnly(b, after, c)
    ensures LogsOnly(a, after, c)
  {
    assert after[..|a|] == after[..|b|][..|a|];
    forall k | |a| <= k < |after|
      ensures after[k].exitPrice == c.price && after[k].exitTime == c.time && after[k].exitReason == c.reason
    {
      assert k < |b| ==> after[..|b|][k] == b[k];
    }
  }

  lemma CloseLogsOnly(v: TrackerV, inst: Inst, i: int, c: Closing)
    ensures LogsOnly(v.log, v.Close(inst, i, c).log, c)
  {
    if v.Closable(inst, i) {
      RecordTellsTheClose(v, inst, i, c);
    }
  }

  lemma {:induction false} CloseDownLogsOnly(s: Sweep, inst: Inst, exits: seq<Option<Exit>>, time: Time, n: nat,
                                             e: Exit)
    requires n <= |exits| && forall k :: 0 <= k < n && exits[k].Some? ==> exits[k].value == e
    ensures LogsOnly(s.books.tracker.log, CloseDown(s, Simulated, inst, exits, time, n).books.tracker.log,
                     Closing(e.price, time, e.reason, e.price))
    decreases n
  {
    hide LogsOnly, TrackerV.Close, TrackerV.Closable;
    var c := Closing(e.price, time, e.reason, e.price);
    if n == 0 {
      NothingLogged(s.books.tracker.log, c);
    } else if exits[n - 1].None? || n - 1 >= |s.trades| {
      CloseDownLogsOnly(s, inst, exits, time, n - 1, e);
    } else {
      var (books, ok) := VenueClose(s.books, Simulated, inst, n - 1, c);
      CloseLogsOnly(s.books.tracker, inst, n - 1, c);
      if ok && s.trades[n - 1].entryPrice != 0.0 {
        var next := Sweep(books, RemoveAt(s.trades, n - 1), true, false);
        CloseDownLogsOnly(next, inst, exits, time, n - 1, e);
        LogsOnlyOn(s.books.tracker.log, books.tracker.log,
                   CloseDown(next, Simulated, inst, exits, time, n - 1).books.tracker.log, c);
      } else if !ok {
        var next := s.(books := books);
        CloseDownLogsOnly(next, inst, exits, time, n - 1, e);
        LogsOnlyOn(s.books.tracker.log, books.tracker.log,
                   CloseDown(next, Simulated, inst, exits, time, n - 1).books.tracker.log, c);
      }
    }
  }

  lemma NothingLogged(log: seq<TradeRecord>, c: Closing)
    ensures LogsOnly(log, log, c)
  {
  }

  /** All that an expiry pass of a backtest adds to the log is trades that leave at the price and time of the pass, as
      expired. */
  lemma ExpiriesAreLogged(b: Books, inst: Inst, price: real, time: Time, tickSecs: int)
    ensures LogsOnly(b.tracker.log, ExpiryPass(b, Simulated, inst, price, time, tickSecs).0.tracker.log,
                     Closing(price, time, HoldExpiry, price))
  {
    hide LogsOnly, CloseDown, AnyExit, RiskV.NetUnits, TrackerV.NetUnits, RiskV.RecordFill, StoreTrades, StoreV.Replace;
    var aged := AgeAll(b.store.TradesOf(inst), tickSecs);
    var exits := ExpiriesOf(aged, price);
    CloseDownLogsOnly(Sweep(b, aged, false, false), inst, exits, time, |exits|, Exit(HoldExpiry, price));
    NothingLogged(b.tracker.log, Closing(price, time, HoldExpiry, price));
  }

  // ---------------------------------------------------------------- the backtest

  lemma CandleAccounts(p: Params, b: Books, c: Candle, d: Decision)
    requires Accounted(b.tracker)
    ensures CandleStep(p, b, c, d).Some? ==> Accounted(CandleStep(p, b, c, d).value.tracker)
  {
    hide Accounted, TpslPass, ExpiryPass, Transact, TrackerV.Mark, TrackerV.CloseAll, TrackerV.NetUnits;
    CloseAllAccounts(b.tracker, p.inst, Closing(c.close, c.time, HazardExit, 0.0));
    var sold := AfterHazard(p, b, c, d);
    TpslPassAccounts(sold, Simulated, p.inst, c.high, c.low, c.time, p.cfg, d.scalping);
    var exited := ExitPhase(p, b, c, d).0;
    ExpiryPassAccounts(exited, Simulated, p.inst, c.close, c.time, p.tickSecs);
    var expired := ExpiryPass(exited, Simulated, p.inst, c.close, c.time, p.tickSecs).0;
    TransactAccounts(expired, p.limits, p.inst, Gated(RequestAt(p, c, d), d.blocked), FILLED);
    MarkAccounts(expired.tracker, p.inst, c.close, c.high, c.low);
    MarkAccounts(Transact(expired, p.limits, p.inst, Gated(RequestAt(p, c, d), d.blocked), FILLED).tracker, p.inst,
                 c.close, c.high, c.low);
  }

  /** After a candle every ticket has seen it: the peak of its stop state is no worse than the candle's extreme in its
      favour, and what it would earn at the close is between its excursions. */
  lemma TicketsHaveSeenTheCandle(p: Params, b: Books, c: Candle, d: Decision, k: nat)
    requires CandleStep(p, b, c, d).Some?
    requires k < |CandleStep(p, b, c, d).value.tracker.TicketsOf(p.inst)|
    ensures var t := CandleStep(p, b, c, d).value.tracker.TicketsOf(p.inst)[k];
            && (t.units > 0 && t.tpsl.direction > 0 ==> c.high <= t.tpsl.peakPrice)
            && (t.units < 0 && t.tpsl.direction < 0 ==> t.tpsl.peakPrice <= c.low)
            && t.maxAdverse <= WouldEarn(p.inst, t, c.close) <= t.maxFavorable
  {
    hide ExitPhase, EntryPhase, WouldEarn, GrossUsd;
    var entered := EntryPhase(p, ExitPhase(p, b, c, d).0, c, d).0;
    var t := entered.tracker.TicketsOf(p.inst)[k];
    SeenIsBetween(p.inst, t, c.close, c.high, c.low);
  }

  lemma SeenIsBetween(inst: Inst, t: Ticket, price: real, high: real, low: real)
    ensures var m := MarkOne(inst, t, price, high, low);
            m.maxAdverse <= WouldEarn(inst, m, price) <= m.maxFavorable
  {
    hide GrossUsd, Earned, Dollars;
    GrossUsdIsWouldEarn(inst, t, price);
  }

  lemma {:induction false} ReplayAccounts(p: Params, costBps: real, candles: seq<Candle>, decisions: seq<Decision>,
                                          n: nat)
    requires n <= |candles| == |decisions|
    ensures var b := Replay(p, EmptyBooks(costBps), candles, decisions, n);
            b.Some? ==> Accounted(b.value.tracker)
  {
    hide Accounted, CandleStep;
    if n == 0 {
      EmptyIsAccounted(costBps);
    } else {
      ReplayAccounts(p, costBps, candles, decisions, n - 1);
      var before := Replay(p, EmptyBooks(costBps), candles, decisions, n - 1);
      if before.Some? {
        CandleAccounts(p, before.value, candles[n - 1], decisions[n - 1]);
      }
    }
  }

  /** The tracker a backtest hands back is flat, and its cash is what the logged trades earned less all commissions. */
  lemma FinalIsCashFlow(p: Params, costBps: real, candles: seq<Candle>, decisions: seq<Decision>)
    requires |candles| == |decisions| && candles != []
    requires Replay(p, EmptyBooks(costBps), candles, decisions, |candles|).Some?
    ensures var v := Final(p, EmptyBooks(costBps), candles, decisions);
            && v.NetUnits(p.inst) == 0
            && v.realized == SumBy(v.log, DollarsEarned) - SumBy(v.log, CommissionOf) - OpenCosts(v)
  {
    hide Replay, Accounted, TrackerV.Close, OpenCosts;
    var n := |candles|;
    var tracker := Replay(p, EmptyBooks(costBps), candles, decisions, n).value.tracker;
    ReplayAccounts(p, costBps, candles, decisions, n);
    CloseAllAccounts(tracker, p.inst, Liquidation(candles[n - 1]));
    NothingLeft(tracker, p.inst, Liquidation(candles[n - 1]));
    AccountedCash(Final(p, EmptyBooks(costBps), candles, decisions), p.inst, 0.0);
  }

  lemma {:induction false} NothingLeft(v: TrackerV, inst: Inst, c: Closing)
    ensures v.CloseAll(inst, c).TicketsOf(inst) == []
    decreases |v.TicketsOf(inst)|
  {
    if v.TicketsOf(inst) != [] {
      NothingLeft(v.Close(inst, 0, c), inst, c);
    }
  }

  /** Every point of the equity curve of a backtest is the starting capital, plus what the logged trades earned, less
      all commissions, plus what the open tickets would earn at the close. */
  lemma EquityPointIsCashFlow(p: Params, costBps: real, nav: real, candles: seq<Candle>, decisions: seq<Decision>,
                              curve: seq<(Time, real)>, k: nat)
    requires k < |curve| <= |candles| == |decisions|
    requires IsEquityCurve(curve, p, EmptyBooks(costBps), nav, candles, decisions)
    ensures Replay(p, EmptyBooks(costBps), candles, decisions, k + 1).Some?
    ensures var v := Replay(p, EmptyBooks(costBps), candles, decisions, k + 1).value.tracker;
            && curve[k].0 == candles[k].time
            && curve[k].1 == nav + SumBy(v.log, DollarsEarned) - SumBy(v.log, CommissionOf) - OpenCosts(v)
                             + DollarsOpen(p.inst, v.TicketsOf(p.inst), candles[k].close)
  {
    hide Replay, Accounted, OpenCosts, DollarsOpen;
    assert IsPoint(curve[k], p, EmptyBooks(costBps), nav, candles, decisions, k);
    ReplayAccounts(p, costBps, candles, decisions, k + 1);
    AccountedCash(Replay(p, EmptyBooks(costBps), candles, decisions, k + 1).value.tracker, p.inst, candles[k].close);
  }
}
