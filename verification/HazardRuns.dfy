/** What a backtest with the hazard exit on can do to a trade: the exit sells the ticket before the stop is looked
    at, and the trade stays behind without a ticket that could ever be closed for it. */
module HazardRuns {
  import opened Common
  import opened Tpsl
  import opened TradeState
  import opened PositionTracker
  import opened RiskLimits
  import opened Books
  import opened Agreement
  import opened OrderAgreement
  import opened Simulator
  import opened LossBound
  import opened HoldBound

  // ---------------------------------------------------------------- one short trade

  /** A short position of `units` entered at `price`, which the guard lets through as a first order. */
  datatype Short = Short(units: nat, price: real) {
    function Net(): int {
      0 - units
    }
  }

  ghost predicate Admissible(p: Params, s: Short) {
    s.units > 0 && s.price > 0.0 && EMPTY_RISK.CanAdd(p.limits, p.inst, s.Net(), Some(s.price))
  }

  function Still(time: Time, price: real): Candle {
    Candle(time, price, price, price)
  }

  function Enter(s: Short): Decision {
    Decision(0.0, true, -1, s.units, "", false, false, false, false)
  }

  /** No signal, and a hazard right at the exit threshold. */
  function Hazardous(p: Params): Decision {
    Decision(p.hazardExit.GetOr(0.0), false, 0, 0, "", false, false, false, false)
  }

  /** The first candle at the entry price, all others at `later`. */
  function CandlesOf(s: Short, later: real, n: nat): (r: seq<Candle>)
    ensures |r| == n && forall k :: 0 <= k < n ==> r[k] == Still(k, if k == 0 then s.price else later)
  {
    seq(n, k requires 0 <= k < n => Still(k, if k == 0 then s.price else later))
  }

  function DecisionsOf(p: Params, s: Short, n: nat): (r: seq<Decision>)
    ensures |r| == n && forall k :: 0 <= k < n ==> r[k] == if k == 0 then Enter(s) else Hazardous(p)
  {
    seq(n, k requires 0 <= k < n => if k == 0 then Enter(s) else Hazardous(p))
  }

  // ---------------------------------------------------------------- what becomes of it

  predicate OneTrade(p: Params, b: Books, s: Short) {
    var trades := b.store.TradesOf(p.inst);
    && |trades| == 1 && trades[0].entryTs == 0 && trades[0].NetUnits() == s.Net() && NetOfTrades(trades) == s.Net()
    && b.risk.NetUnits(p.inst) == s.Net()
  }

  /** The trade and its ticket are open. */
  predicate Opened(p: Params, b: Books, s: Short) {
    var tickets := b.tracker.TicketsOf(p.inst);
    && OneTrade(p, b, s) && b.tracker.log == []
    && |tickets| == 1 && tickets[0].units == s.Net() && tickets[0].entryPrice == s.price
  }

  /** The trade is open and its ticket is gone. */
  predicate Orphaned(p: Params, b: Books, s: Short) {
    OneTrade(p, b, s) && b.tracker.TicketsOf(p.inst) == []
  }

  lemma EnteringIsAdmitted(p: Params, costBps: real, s: Short)
    requires Admissible(p, s)
    ensures var b, r := EmptyBooks(costBps), RequestAt(p, Still(0, s.price), Enter(s));
            && Agree(b) && Appends(b.store, p.limits, p.inst, r)
            && b.risk.CanAdd(p.limits, p.inst, s.Net(), Some(r.price))
            && NewTrade(r).NetUnits() == s.Net() && NewTrade(r).entryTs == 0
  {
    hide RiskV.CanAdd;
    EmptyBooksAgree(costBps);
  }

  /** Flat books see nothing of a candle but its request. */
  lemma FlatCandle(p: Params, b: Books, c: Candle, d: Decision)
    requires b.tracker.NetUnits(p.inst) == 0 && b.risk.NetUnits(p.inst) == 0
    ensures var entered := Transact(b, p.limits, p.inst, Gated(RequestAt(p, c, d), d.blocked), FILLED);
            CandleStep(p, b, c, d) == Some(AfterMark(p, entered, c))
  {
    hide Transact, TrackerV.Mark, NetOfTickets;
  }

  lemma Enters(p: Params, costBps: real, s: Short)
    requires Admissible(p, s)
    ensures var a := CandleStep(p, EmptyBooks(costBps), Still(0, s.price), Enter(s));
            a.Some? && Opened(p, a.value, s)
  {
    hide Agree, Appends, Refused, Transact, CandleStep, TrackerV.Mark;
    var b, c, r := EmptyBooks(costBps), Still(0, s.price), RequestAt(p, Still(0, s.price), Enter(s));
    EnteringIsAdmitted(p, costBps, s);
    AppendAgrees(b, p.limits, p.inst, r, FILLED);
    OpeningLogsNothing(b.tracker, p.inst, r);
    FlatCandle(p, b, c, Enter(s));
    var entered := Transact(b, p.limits, p.inst, r, FILLED);
    MarkKeepsPrices(entered.tracker, p.inst, c);
    assert entered.store.TradesOf(p.inst) == [NewTrade(r)];
    NetOfOne(NewTrade(r));
  }

  lemma NetOfOne(t: Trade)
    ensures NetOfTrades([t]) == t.NetUnits()
  {
  }

  /** An expiry pass has no ticket to close for an orphan: it ages it, or leaves even its age alone. */
  lemma ExpiryKeepsOrphan(p: Params, b: Books, s: Short, c: Candle)
    requires Orphaned(p, b, s) && s.units > 0
    ensures var (a, ending) := ExpiryPass(b, Simulated, p.inst, c.close, c.time, p.tickSecs);
            !ending.Aborted? && Orphaned(p, a, s) && a.tracker == b.tracker
  {
    hide NetOfTickets;
    var trades := b.store.TradesOf(p.inst);
    var aged := AgeAll(trades, p.tickSecs);
    NetOfOne(aged[0]);
    assert aged == [aged[0]] && aged[0].NetUnits() == trades[0].NetUnits();
    var exits := ExpiriesOf(aged, c.close);
    var start := Sweep(b, aged, false, false);
    NothingToClose(start, p.inst, exits, c.time, |exits|);
  }

  lemma {:induction false} NothingToClose(s: Sweep, inst: Inst, exits: seq<Option<Exit>>, time: Time, n: nat)
    requires n <= |exits| && s.books.tracker.TicketsOf(inst) == []
    ensures CloseDown(s, Simulated, inst, exits, time, n) == s
    decreases n
  {
    if n > 0 {
      NothingToClose(s, inst, exits, time, n - 1);
    }
  }

  /** Without a signal the planner wants the orphan's units, which the inventory still has: no order. */
  lemma QuietPlanKeepsOrphan(p: Params, b: Books, s: Short, c: Candle)
    requires Orphaned(p, b, s)
    ensures var a := Transact(b, p.limits, p.inst, RequestAt(p, c, Hazardous(p)), FILLED);
            Orphaned(p, a, s) && a.tracker == b.tracker
  {
    hide NetOfTrades, RiskV.CanAdd, TrackerV.SyncToNet;
  }

  lemma MarkKeepsOrphan(p: Params, b: Books, s: Short, c: Candle)
    requires Orphaned(p, b, s)
    ensures Orphaned(p, AfterMark(p, b, c), s) && AfterMark(p, b, c).tracker.log == b.tracker.log
  {
    hide NetOfTrades;
  }

  /** The rest of a candle, once nothing is left to exit. */
  lemma OrphanStays(p: Params, b: Books, s: Short, c: Candle)
    requires Orphaned(p, b, s) && s.units > 0
    ensures var a := CandleStep(p, b, c, Hazardous(p));
            a.Some? && Orphaned(p, a.value, s) && a.value.tracker.log == b.tracker.log
  {
    hide Orphaned, ExpiryPass, Transact, AfterMark, RequestAt;
    var d := Hazardous(p);
    NothingToExit(p, b, s, c, d);
    ExpiryKeepsOrphan(p, b, s, c);
    var expired := ExpiryPass(b, Simulated, p.inst, c.close, c.time, p.tickSecs).0;
    RequestNames(p, c, d);
    QuietPlanKeepsOrphan(p, expired, s, c);
    MarkKeepsOrphan(p, Transact(expired, p.limits, p.inst, RequestAt(p, c, d), FILLED), s, c);
  }

  lemma NothingToExit(p: Params, b: Books, s: Short, c: Candle, d: Decision)
    requires Orphaned(p, b, s)
    ensures ExitPhase(p, b, c, d) == (b, NothingClosed)
  {
  }

  lemma RequestNames(p: Params, c: Candle, d: Decision)
    ensures RequestAt(p, c, d).price == c.close && RequestAt(p, c, d).now == c.time
  {
  }

  /** The hazard exit sells at the close, wherever the stop is, and leaves the trade behind. */
  lemma HazardOrphans(p: Params, b: Books, s: Short, c: Candle)
    requires Opened(p, b, s) && s.units > 0 && !HazardExitOff(p)
    ensures var a := CandleStep(p, b, c, Hazardous(p));
            && a.Some? && Orphaned(p, a.value, s) && |a.value.tracker.log| == 1
            && var record := a.value.tracker.log[0];
            record.exitPrice == c.close && record.entryPrice == s.price && record.direction == -1
  {
    hide TpslPass, EntryPhase, AfterMark;
    var d := Hazardous(p);
    var sold := AfterHazard(p, b, c, d);
    SellsTheTicket(p, b, s, c);
    OrphanStays(p, sold, s, c);
    SoldOnce(p, b, s, c);
  }

  lemma SellsTheTicket(p: Params, b: Books, s: Short, c: Candle)
    requires Opened(p, b, s) && s.units > 0 && !HazardExitOff(p)
    ensures var sold := AfterHazard(p, b, c, Hazardous(p));
            && Orphaned(p, sold, s) && |sold.tracker.log| == 1
            && var record := sold.tracker.log[0];
            record.exitPrice == c.close && record.entryPrice == s.price && record.direction == -1
  {
    hide GrossUsd, ExitCost, NetOfTrades;
    var tickets := b.tracker.TicketsOf(p.inst);
    assert tickets == [tickets[0]] && NetOfTickets(tickets) == s.Net();
    assert RemoveAt(tickets, 0) == [];
    var closing := Closing(c.close, c.time, HazardExit, 0.0);
    assert b.tracker.CloseAll(p.inst, closing) == b.tracker.Close(p.inst, 0, closing);
  }

  /** The candle goes on as if the books had been without the ticket from the start. */
  lemma SoldOnce(p: Params, b: Books, s: Short, c: Candle)
    requires Orphaned(p, AfterHazard(p, b, c, Hazardous(p)), s)
    ensures CandleStep(p, b, c, Hazardous(p)) == CandleStep(p, AfterHazard(p, b, c, Hazardous(p)), c, Hazardous(p))
  {
    hide TpslPass, EntryPhase, AfterMark, TrackerV.CloseAll;
  }

  /** From the second candle on the trade is an orphan, and its exit is on the log. */
  lemma {:induction false} OrphanedForGood(p: Params, costBps: real, s: Short, later: real, n: nat, k: nat)
    requires Admissible(p, s) && !HazardExitOff(p) && 2 <= k <= n
    ensures var a := Replay(p, EmptyBooks(costBps), CandlesOf(s, later, n), DecisionsOf(p, s, n), k);
            && a.Some? && Orphaned(p, a.value, s) && |a.value.tracker.log| == 1
            && var record := a.value.tracker.log[0];
            record.exitPrice == later && record.entryPrice == s.price && record.direction == -1
    decreases k
  {
    hide CandleStep, Opened, Orphaned, Admissible, HazardExitOff;
    var b, candles, decisions := EmptyBooks(costBps), CandlesOf(s, later, n), DecisionsOf(p, s, n);
    AdmissibleHolds(p, s);
    if k == 2 {
      Enters(p, costBps, s);
      assert Replay(p, b, candles, decisions, 0) == Some(b);
      assert Replay(p, b, candles, decisions, 1) == CandleStep(p, b, candles[0], decisions[0]);
      assert candles[1].close == later;
      HazardOrphans(p, Replay(p, b, candles, decisions, 1).value, s, candles[1]);
    } else {
      OrphanedForGood(p, costBps, s, later, n, k - 1);
      OrphanStays(p, Replay(p, b, candles, decisions, k - 1).value, s, candles[k - 1]);
    }
  }

  lemma AdmissibleHolds(p: Params, s: Short)
    requires Admissible(p, s)
    ensures s.units > 0 && s.price > 0.0
  {
  }

  // ---------------------------------------------------------------- the two bounds hold exactly without it

  /** A backtest that gets to its end logs no trade that left worse than its stop. */
  ghost predicate StopsHold(p: Params, costBps: real, candles: seq<Candle>, decisions: seq<Decision>)
    requires |candles| == |decisions|
  {
    Replay(p, EmptyBooks(costBps), candles, decisions, |candles|).Some? ==>
      LogOk(Final(p, EmptyBooks(costBps), candles, decisions).log, p.cfg)
  }

  /** A close beyond the stop of the short. */
  function Beyond(p: Params, s: Short): real
    requires s.price > 0.0 && p.cfg.EffectiveSl(s.price).Some?
  {
    StopPrice(s.price, p.cfg.EffectiveSl(s.price).value, -1) + 1.0
  }

  /** Parameters with a stop respect it in every backtest if and only if the hazard exit is off. */
  lemma StopsHoldIffHazardExitOff(p: Params, s: Short)
    requires p.cfg.pipScale >= 0.0 && Admissible(p, s) && p.cfg.EffectiveSl(s.price).Some?
    ensures HazardExitOff(p) <==>
            forall costBps, candles, decisions :: |candles| == |decisions| && Plausible(candles) ==>
              StopsHold(p, costBps, candles, decisions)
  {
    hide Replay, Final, LogOk, Admissible;
    if HazardExitOff(p) {
      forall costBps, candles, decisions | |candles| == |decisions| && Plausible(candles)
        ensures StopsHold(p, costBps, candles, decisions)
      {
        EveryTradeRespectsItsStop(p, costBps, candles, decisions);
      }
    } else {
      AdmissibleHolds(p, s);
      var candles, decisions := CandlesOf(s, Beyond(p, s), 2), DecisionsOf(p, s, 2);
      BeyondIsPositive(p, s);
      HazardExitIgnoresStop(p, s);
      assert !StopsHold(p, 0.0, candles, decisions);
    }
  }

  lemma BeyondIsPositive(p: Params, s: Short)
    requires p.cfg.pipScale >= 0.0 && s.price > 0.0 && p.cfg.EffectiveSl(s.price).Some?
    ensures Beyond(p, s) > 0.0 && Plausible(CandlesOf(s, Beyond(p, s), 2))
  {
    hide TpslConfig.EffectiveSl, TpslConfig.EffectiveTp;
    StopDistanceNonNegative(s.price, p.cfg);
  }

  lemma HazardExitIgnoresStop(p: Params, s: Short)
    requires Admissible(p, s) && p.cfg.EffectiveSl(s.price).Some? && !HazardExitOff(p)
    ensures !StopsHold(p, 0.0, CandlesOf(s, Beyond(p, s), 2), DecisionsOf(p, s, 2))
  {
    hide Replay, Admissible, CandlesOf, DecisionsOf, TpslConfig.EffectiveSl, OneTrade;
    AdmissibleHolds(p, s);
    var candles, decisions := CandlesOf(s, Beyond(p, s), 2), DecisionsOf(p, s, 2);
    OrphanedForGood(p, 0.0, s, Beyond(p, s), 2, 2);
    var log := Final(p, EmptyBooks(0.0), candles, decisions).log;
    assert !NoWorseThanStop(log[0].exitPrice, log[0].entryPrice, log[0].direction, p.cfg);
  }

  /** Every open trade was entered at one of the last ceil(hold / tick) candles. */
  ghost predicate HoldsBounded(p: Params, costBps: real, candles: seq<Candle>, decisions: seq<Decision>, n: nat)
    requires n <= |candles| == |decisions| && p.tickSecs > 0
  {
    var b := Replay(p, EmptyBooks(costBps), candles, decisions, n);
    b.Some? ==> forall k :: 0 <= k < |b.value.store.TradesOf(p.inst)| ==>
      IsRecent(p, b.value.store.TradesOf(p.inst)[k], candles, n)
  }

  ghost predicate IsRecent(p: Params, t: Trade, candles: seq<Candle>, n: nat)
    requires n <= |candles| && p.tickSecs > 0
  {
    exists j :: 0 <= j < n && t.entryTs == candles[j].time && n - j <= (HoldSecs(p) + p.tickSecs - 1) / p.tickSecs
  }

  lemma HoldsWithoutHazardExit(p: Params, costBps: real, candles: seq<Candle>, decisions: seq<Decision>, n: nat)
    requires n <= |candles| == |decisions| && p.tickSecs > 0 && HazardExitOff(p)
    ensures HoldsBounded(p, costBps, candles, decisions, n)
  {
    hide Replay, HoldSecs;
    var b := Replay(p, EmptyBooks(costBps), candles, decisions, n);
    if b.Some? {
      forall k | 0 <= k < |b.value.store.TradesOf(p.inst)|
        ensures IsRecent(p, b.value.store.TradesOf(p.inst)[k], candles, n)
      {
        var j := HoldIsBounded(p, costBps, candles, decisions, n, k);
      }
    }
  }

  /** No backtest holds a trade longer than its hold, if and only if the hazard exit is off. */
  lemma HoldsAreBoundedIffHazardExitOff(p: Params, s: Short)
    requires p.tickSecs > 0 && Admissible(p, s)
    ensures HazardExitOff(p) <==>
            forall costBps, candles, decisions, n: nat :: n <= |candles| == |decisions| ==>
              HoldsBounded(p, costBps, candles, decisions, n)
  {
    hide Replay, Admissible, HoldsBounded;
    if HazardExitOff(p) {
      forall costBps, candles, decisions, n: nat | n <= |candles| == |decisions|
        ensures HoldsBounded(p, costBps, candles, decisions, n)
      {
        HoldsWithoutHazardExit(p, costBps, candles, decisions, n);
      }
    } else {
      var n: nat := Max(2, (HoldSecs(p) + p.tickSecs - 1) / p.tickSecs + 1);
      OrphanNeverExpires(p, s, n);
      assert !HoldsBounded(p, 0.0, CandlesOf(s, s.price, n), DecisionsOf(p, s, n), n);
    }
  }

  /** An orphan entered at the first candle is still open after more candles than its hold allows. */
  lemma OrphanNeverExpires(p: Params, s: Short, n: nat)
    requires p.tickSecs > 0 && Admissible(p, s) && !HazardExitOff(p)
    requires n >= 2 && n > (HoldSecs(p) + p.tickSecs - 1) / p.tickSecs
    ensures !HoldsBounded(p, 0.0, CandlesOf(s, s.price, n), DecisionsOf(p, s, n), n)
  {
    hide Replay, Admissible, HoldSecs;
    var candles, decisions := CandlesOf(s, s.price, n), DecisionsOf(p, s, n);
    OrphanedForGood(p, 0.0, s, s.price, n, n);
    var trades := Replay(p, EmptyBooks(0.0), candles, decisions, n).value.store.TradesOf(p.inst);
    assert !IsRecent(p, trades[0], candles, n);
  }
}
