/** No trade of a backtest leaves below its stop: the checker looks at the stop first, it looks at every
    ticket because the books agree, and everything else in the candle happens between low and high. */
module LossBound {
  import opened Common
  import opened Tpsl
  import opened TradeState
  import opened PositionTracker
  import opened RiskLimits
  import opened Books
  import opened Agreement
  import opened ExitAgreement
  import opened OrderAgreement
  import opened Simulator

  /** Every logged trade left no worse than its stop. */
  ghost predicate LogOk(log: seq<TradeRecord>, cfg: TpslConfig) {
    forall k :: 0 <= k < |log| ==> NoWorseThanStop(log[k].exitPrice, log[k].entryPrice, log[k].direction, cfg)
  }

  /** Every ticket could be sold at `price` without breaching its stop. */
  ghost predicate SafeAt(ts: seq<Ticket>, price: real, cfg: TpslConfig) {
    forall k :: 0 <= k < |ts| ==> NoWorseThanStop(price, ts[k].entryPrice, Sign(ts[k].units), cfg)
  }

  ghost predicate PositivePrices(ts: seq<Ticket>) {
    forall k :: 0 <= k < |ts| ==> ts[k].entryPrice > 0.0
  }

  /** Every exit the closing loop will act on is no worse than the stop of its slot. */
  ghost predicate ExitsOk(ts: seq<Ticket>, exits: seq<Option<Exit>>, n: nat, cfg: TpslConfig)
    requires n <= |ts| && n <= |exits|
  {
    forall k :: 0 <= k < n && exits[k].Some? ==>
      NoWorseThanStop(exits[k].value.price, ts[k].entryPrice, Sign(ts[k].units), cfg)
  }

  lemma {:induction false} CloseDownLogsOk(s: Sweep, inst: Inst, exits: seq<Option<Exit>>, time: Time, n: nat,
                                           cfg: TpslConfig)
    requires n <= |exits| && n <= |s.trades|
    requires SweepOk(s, inst)
    requires LogOk(s.books.tracker.log, cfg)
    requires ExitsOk(s.books.tracker.TicketsOf(inst), exits, n, cfg)
    ensures LogOk(CloseDown(s, Simulated, inst, exits, time, n).books.tracker.log, cfg)
    decreases n
  {
    if n > 0 {
      var i := n - 1;
      if exits[i].None? {
        CloseDownLogsOk(s, inst, exits, time, i, cfg);
      } else {
        var exit := exits[i].value;
        CloseOneSlot(s, Simulated, inst, i, exit, time);
        var (books, ok) := VenueClose(s.books, Simulated, inst, i, Closing(exit.price, time, exit.reason, exit.price));
        assert SameTrade(s.trades[i], s.books.tracker.TicketsOf(inst)[i]);
        CloseDownLogsOk(Sweep(books, RemoveAt(s.trades, i), true, false), inst, exits, time, i, cfg);
      }
    }
  }

  lemma SweepIsParallel(s: Sweep, inst: Inst)
    requires SweepOk(s, inst)
    ensures |s.trades| == |s.books.tracker.TicketsOf(inst)|
  {
  }

  /** A simulated sweep closes every slot with an exit: what is left is what had none. */
  lemma SimulatedSweep(s: Sweep, inst: Inst, exits: seq<Option<Exit>>, time: Time)
    requires SweepOk(s, inst) && |exits| == |s.trades| && !ZeroAmong(s.trades, Gone(exits, Simulated), |exits|)
    ensures var t := CloseDown(s, Simulated, inst, exits, time, |exits|);
            var gone := Gone(exits, Simulated);
            && t.trades == Keep(s.trades, gone)
            && t.books.tracker.TicketsOf(inst) == Keep(s.books.tracker.TicketsOf(inst), gone)
            && (t.closedAny <==> s.closedAny || AnyExit(exits))
  {
    hide CloseDown, Keep, KeepBelow, SweepOk, OnlyTouches, ZeroAmong;
    var n, gone, tickets := |exits|, Gone(exits, Simulated), s.books.tracker.TicketsOf(inst);
    SweepIsParallel(s, inst);
    CloseDownSweeps(s, Simulated, inst, exits, time, n);
    KeepBelowAll(s.trades, gone);
    KeepBelowAll(tickets, gone);
    if AnyExit(exits) {
      var k :| 0 <= k < n && exits[k].Some?;
      assert gone[k];
    }
  }

  /** Whatever a sweep keeps was safe before and still is. */
  lemma KeptStaysSafe(ts: seq<Ticket>, gone: seq<bool>, price: real, cfg: TpslConfig)
    requires |ts| == |gone| && PositivePrices(ts)
    requires forall k :: 0 <= k < |ts| && !gone[k] ==> NoWorseThanStop(price, ts[k].entryPrice, Sign(ts[k].units), cfg)
    ensures SafeAt(Keep(ts, gone), price, cfg) && PositivePrices(Keep(ts, gone))
  {
    forall k | 0 <= k < |Keep(ts, gone)|
      ensures NoWorseThanStop(price, Keep(ts, gone)[k].entryPrice, Sign(Keep(ts, gone)[k].units), cfg)
      ensures Keep(ts, gone)[k].entryPrice > 0.0
    {
      var i := KeepMember(ts, gone, k);
    }
  }

  /** What holds between candles. */
  ghost predicate Sound(p: Params, b: Books) {
    Agree(b) && LogOk(b.tracker.log, p.cfg) && PositivePrices(b.tracker.TicketsOf(p.inst))
  }

  /** What a sweep over the checked tickets leaves is logged and kept within the stops. */
  lemma CheckedSweepKeepsSound(p: Params, b: Books, c: Candle, d: Decision)
    requires p.cfg.pipScale >= 0.0 && c.low <= c.close <= c.high
    requires Sound(p, b)
    ensures var exits := ExitsOf(b.tracker.TicketsOf(p.inst), c.high, c.low, p.cfg, d.scalping);
            var checked := Checked(b, p.inst, c.high, c.low, p.cfg, d.scalping);
            var s := CloseDown(Sweep(checked, b.store.TradesOf(p.inst), false, false), Simulated, p.inst, exits,
                               c.time, |exits|);
            && !s.aborted
            && LogOk(s.books.tracker.log, p.cfg)
            && SafeAt(s.books.tracker.TicketsOf(p.inst), c.close, p.cfg)
            && PositivePrices(s.books.tracker.TicketsOf(p.inst))
            && (!s.closedAny ==> s.books == checked)
  {
    hide IntraCandle, Checked, NoWorseThanStop, SameSlots, TpslConfig.Active;
    var inst := p.inst;
    var tickets, trades := b.tracker.TicketsOf(inst), b.store.TradesOf(inst);
    var checked := Checked(b, inst, c.high, c.low, p.cfg, d.scalping);
    var exits := ExitsOf(tickets, c.high, c.low, p.cfg, d.scalping);
    CheckedAgrees(b, inst, c.high, c.low, p.cfg, d.scalping);
    assert InstAgrees(b, inst) && InstAgrees(checked, inst);
    CheckedIs(b, inst, c.high, c.low, p.cfg, d.scalping);
    CheckerSparesZero(b, Simulated, inst, c.high, c.low, p.cfg, d.scalping, |exits|);
    CheckedExitsOk(tickets, trades, c, p.cfg, d.scalping);
    SlotsHeldIffNet(trades, tickets);
    SlotsAreParallel(trades, tickets);
    var gone := Gone(exits, Simulated);
    var start := Sweep(checked, trades, false, false);
    CloseDownLogsOk(start, inst, exits, c.time, |exits|, p.cfg);
    CloseDownSweeps(start, Simulated, inst, exits, c.time, |exits|);
    SimulatedSweep(start, inst, exits, c.time);
    KeptStaysSafe(checked.tracker.TicketsOf(inst), gone, c.close, p.cfg);
  }

  lemma SlotsAreParallel(trades: seq<Trade>, tickets: seq<Ticket>)
    requires SameSlots(trades, tickets)
    ensures |trades| == |tickets|
  {
  }

  lemma CheckedIs(b: Books, inst: Inst, high: real, low: real, cfg: TpslConfig, scalping: bool)
    ensures var c := Checked(b, inst, high, low, cfg, scalping);
            && c.tracker.TicketsOf(inst) == CheckedTickets(b.tracker.TicketsOf(inst), high, low, cfg, scalping)
            && c.tracker.log == b.tracker.log && c.store == b.store && c.risk == b.risk
  {
    hide IntraCandle;
  }

  /** After the exit check of a candle, every remaining ticket is safe anywhere inside it. */
  lemma ExitsKeepSound(p: Params, b: Books, c: Candle, d: Decision)
    requires p.cfg.pipScale >= 0.0 && c.low <= c.close <= c.high && HazardExitOff(p)
    requires Sound(p, b)
    ensures var (a, ending) := ExitPhase(p, b, c, d);
            Sound(p, a) && SafeAt(a.tracker.TicketsOf(p.inst), c.close, p.cfg) && !ending.Aborted?
  {
    hide IntraCandle, CloseDown, Checked, SameSlots, RiskV.RecordFill, RiskV.Flatten, LowestExitPrice, StoreTrades,
         LogOk,
         PositivePrices, NetOfTickets, NetOfTrades;
    var inst := p.inst;
    var tickets := b.tracker.TicketsOf(inst);
    TpslPassAgrees(b, Simulated, inst, c.high, c.low, c.time, p.cfg, d.scalping);
    assert InstAgrees(b, inst);
    SlotsHeldIffNet(b.store.TradesOf(inst), tickets);
    if tickets == [] || !p.cfg.Active() {
      NothingToBreach(tickets, c.close, p.cfg);
    } else {
      CheckedSweepKeepsSound(p, b, c, d);
      CheckedIs(b, inst, c.high, c.low, p.cfg, d.scalping);
      NoExitNothingClosed(p, b, c, d);
    }
  }

  /** Without a stop, or without a ticket, there is nothing to breach. */
  lemma NothingToBreach(ts: seq<Ticket>, price: real, cfg: TpslConfig)
    requires ts == [] || !cfg.Active()
    ensures SafeAt(ts, price, cfg)
  {
  }

  lemma NoExitNothingClosed(p: Params, b: Books, c: Candle, d: Decision)
    ensures var exits := ExitsOf(b.tracker.TicketsOf(p.inst), c.high, c.low, p.cfg, d.scalping);
            var checked := Checked(b, p.inst, c.high, c.low, p.cfg, d.scalping);
            var start := Sweep(checked, b.store.TradesOf(p.inst), false, false);
            !AnyExit(exits) ==> CloseDown(start, Simulated, p.inst, exits, c.time, |exits|) == start
  {
    hide IntraCandle, Checked;
    var exits := ExitsOf(b.tracker.TicketsOf(p.inst), c.high, c.low, p.cfg, d.scalping);
    var start := Sweep(Checked(b, p.inst, c.high, c.low, p.cfg, d.scalping), b.store.TradesOf(p.inst), false, false);
    if !AnyExit(exits) {
      IdleSweep(start, Simulated, p.inst, exits, c.time, |exits|);
    }
  }

  lemma {:induction false} IdleSweep(s: Sweep, venue: Venue, inst: Inst, exits: seq<Option<Exit>>, time: Time, n: nat)
    requires n <= |exits| && !AnyExit(exits)
    ensures CloseDown(s, venue, inst, exits, time, n) == s
    decreases n
  {
    if n > 0 {
      IdleSweep(s, venue, inst, exits, time, n - 1);
    }
  }

  /** The checker's exits are no worse than the stops, and those it leaves open are safe at the close. */
  lemma CheckedExitsOk(ts: seq<Ticket>, trades: seq<Trade>, c: Candle, cfg: TpslConfig, scalping: bool)
    requires cfg.pipScale >= 0.0 && c.low <= c.close <= c.high
    requires SameSlots(trades, ts) && PositivePrices(ts)
    ensures var after := CheckedTickets(ts, c.high, c.low, cfg, scalping);
            var exits := ExitsOf(ts, c.high, c.low, cfg, scalping);
            && PositivePrices(after)
            && ExitsOk(after, exits, |exits|, cfg)
            && (forall k :: 0 <= k < |ts| && exits[k].None? ==>
                  NoWorseThanStop(c.close, after[k].entryPrice, Sign(after[k].units), cfg))
  {
    var exits := ExitsOf(ts, c.high, c.low, cfg, scalping);
    forall k | 0 <= k < |ts|
      ensures exits[k].Some? ==> NoWorseThanStop(exits[k].value.price, ts[k].entryPrice, Sign(ts[k].units), cfg)
      ensures exits[k].None? ==> NoWorseThanStop(c.close, ts[k].entryPrice, Sign(ts[k].units), cfg)
    {
      assert SameTrade(trades[k], ts[k]);
      if exits[k].Some? {
        TriggeredExitNoWorseThanStop(c.high, c.low, ts[k].tpsl, cfg, scalping);
      } else {
        SurvivorNoWorseThanStop(c.high, c.low, ts[k].tpsl, cfg, scalping, c.close);
      }
    }
  }

  /** Trades whose tickets have positive prices were not entered at zero. */
  lemma SoundNeverExpiresAtZero(p: Params, b: Books, venue: Venue)
    requires Sound(p, b)
    ensures !ZeroExpires(b, venue, p.inst, p.tickSecs)
  {
    var trades, tickets := b.store.TradesOf(p.inst), b.tracker.TicketsOf(p.inst);
    assert InstAgrees(b, p.inst);
    forall k | 0 <= k < |trades|
      ensures !ExpiresAtZero(trades[k], p.tickSecs)
    {
      assert SameTrade(trades[k], tickets[k]);
    }
  }

  /** Expiries sell at the close, where every ticket is safe. */
  lemma ExpiryKeepsSound(p: Params, b: Books, c: Candle)
    requires Sound(p, b) && SafeAt(b.tracker.TicketsOf(p.inst), c.close, p.cfg)
    ensures var (a, ending) := ExpiryPass(b, Simulated, p.inst, c.close, c.time, p.tickSecs);
            Sound(p, a) && SafeAt(a.tracker.TicketsOf(p.inst), c.close, p.cfg) && !ending.Aborted?
  {
    hide SameSlots, NoWorseThanStop, RiskV.RecordFill, RiskV.Flatten, StoreTrades, ZeroAmong, NetOfTickets;
    var inst := p.inst;
    var trades, tickets := b.store.TradesOf(inst), b.tracker.TicketsOf(inst);
    SoundNeverExpiresAtZero(p, b, Simulated);
    ExpiryPassAgrees(b, Simulated, inst, c.close, c.time, p.tickSecs);
    assert InstAgrees(b, inst);
    if b.risk.NetUnits(inst) != 0 && trades != [] {
      var aged := AgeAll(trades, p.tickSecs);
      AgedSlotsAgree(trades, tickets, p.tickSecs);
      SlotsAreParallel(trades, tickets);
      ZeroExpiresIsZeroAmong(b, Simulated, inst, c.close, p.tickSecs);
      var exits := ExpiriesOf(aged, c.close);
      var start := Sweep(b, aged, false, false);
      ExpiriesAreSafe(tickets, exits, c.close, p.cfg);
      CloseDownLogsOk(start, inst, exits, c.time, |exits|, p.cfg);
      SimulatedSweep(start, inst, exits, c.time);
      KeptStaysSafe(tickets, Gone(exits, Simulated), c.close, p.cfg);
    }
  }

  lemma ExpiriesAreSafe(ts: seq<Ticket>, exits: seq<Option<Exit>>, price: real, cfg: TpslConfig)
    requires |ts| == |exits| && SafeAt(ts, price, cfg)
    requires forall k :: 0 <= k < |exits| && exits[k].Some? ==> exits[k].value.price == price
    ensures ExitsOk(ts, exits, |exits|, cfg)
  {
  }

  /** Selling everything at a safe price logs only sound trades. */
  lemma {:induction false} CloseAllLogsOk(v: TrackerV, inst: Inst, c: Closing, cfg: TpslConfig)
    requires LogOk(v.log, cfg) && SafeAt(v.TicketsOf(inst), c.price, cfg)
    ensures LogOk(v.CloseAll(inst, c).log, cfg)
    decreases |v.TicketsOf(inst)|
  {
    var ts := v.TicketsOf(inst);
    if ts != [] {
      assert NoWorseThanStop(c.price, ts[0].entryPrice, Sign(ts[0].units), cfg);
      CloseAllLogsOk(v.Close(inst, 0, c), inst, c, cfg);
    }
  }

  /** A new ticket is entered at the close; a hard block sells everything there. */
  lemma EntryKeepsSound(p: Params, b: Books, r: Request)
    requires p.cfg.pipScale >= 0.0 && r.price > 0.0
    requires Sound(p, b) && SafeAt(b.tracker.TicketsOf(p.inst), r.price, p.cfg)
    ensures var a := Transact(b, p.limits, p.inst, r, FILLED);
            Sound(p, a) && SafeAt(a.tracker.TicketsOf(p.inst), r.price, p.cfg)
  {
    hide Plan, Transact, SameSlots, NoWorseThanStop, Refused, Appends, TrackerV.Open, TrackerV.CloseAll;
    var inst := p.inst;
    TransactAgrees(b, p.limits, inst, r, FILLED);
    if Refused(b, p.limits, inst, r, FILLED) {
      RefusalLeavesNoTrace(b, p.limits, inst, r, FILLED);
    } else if r.hardBlocked {
      CloseAllLogsOk(b.tracker, inst, Closing(r.price, r.now, PositionSync, r.price), p.cfg);
      CloseAllEmpties(b.tracker, inst, Closing(r.price, r.now, PositionSync, r.price));
      HardBlockCloses(b, p.limits, inst, r);
    } else if Appends(b.store, p.limits, inst, r) {
      AppendGoesThrough(b, p.limits, inst, r, FILLED);
      AppendAgrees(b, p.limits, inst, r, FILLED);
      OpeningLogsNothing(b.tracker, inst, r);
      var ticket := OpenedTicket(b.tracker, inst, r);
      EntryNoWorseThanStop(r.price, ticket.entryPrice, Sign(ticket.units), p.cfg);
    } else {
      NoOrderAgrees(b, p.limits, inst, r, FILLED);
    }
  }

  lemma OpeningLogsNothing(v: TrackerV, inst: Inst, r: Request)
    ensures v.Open(inst, NewTrade(r).NetUnits(), r.price, r.now, r.isBundle).log == v.log
  {
  }

  lemma HardBlockCloses(b: Books, limits: Limits, inst: Inst, r: Request)
    requires Agree(b) && r.hardBlocked && !Refused(b, limits, inst, r, FILLED)
    ensures var a := Transact(b, limits, inst, r, FILLED).tracker;
            a == b.tracker || a == b.tracker.CloseAll(inst, Closing(r.price, r.now, PositionSync, r.price))
  {
    hide SameSlots, TrackerV.CloseAll, RiskV.CanAdd, RiskV.RecordFill;
    assert InstAgrees(b, inst);
  }

  lemma CandleKeepsSound(p: Params, b: Books, c: Candle, d: Decision)
    requires p.cfg.pipScale >= 0.0 && HazardExitOff(p)
    requires c.low <= c.close <= c.high && c.close > 0.0
    requires Sound(p, b)
    ensures var a := CandleStep(p, b, c, d);
            a.Some? && Sound(p, a.value) && SafeAt(a.value.tracker.TicketsOf(p.inst), c.close, p.cfg)
  {
    hide ExitPhase, ExpiryPass, Transact, Agree, NoWorseThanStop;
    var r := Gated(RequestAt(p, c, d), d.blocked);
    ExitsKeepSound(p, b, c, d);
    var exited := ExitPhase(p, b, c, d).0;
    ExpiryKeepsSound(p, exited, c);
    var expired := ExpiryPass(exited, Simulated, p.inst, c.close, c.time, p.tickSecs).0;
    EntryKeepsSound(p, expired, r);
    var entered := Transact(expired, p.limits, p.inst, r, FILLED);
    MarkAgrees(entered, p.inst, c.close, c.high, c.low);
    MarkKeepsPrices(entered.tracker, p.inst, c);
  }

  lemma MarkKeepsPrices(v: TrackerV, inst: Inst, c: Candle)
    ensures var w := v.Mark(inst, c.close, c.high, c.low);
            && w.log == v.log && |w.TicketsOf(inst)| == |v.TicketsOf(inst)|
            && forall k :: 0 <= k < |w.TicketsOf(inst)| ==>
                 && w.TicketsOf(inst)[k].entryPrice == v.TicketsOf(inst)[k].entryPrice
                 && w.TicketsOf(inst)[k].units == v.TicketsOf(inst)[k].units
  {
    hide GrossUsd;
  }

  ghost predicate Plausible(candles: seq<Candle>) {
    forall k :: 0 <= k < |candles| ==> candles[k].low <= candles[k].close <= candles[k].high && candles[k].close > 0.0
  }

  lemma {:induction false} ReplayIsSound(p: Params, costBps: real, candles: seq<Candle>, decisions: seq<Decision>,
                                         n: nat)
    requires n <= |candles| == |decisions|
    requires p.cfg.pipScale >= 0.0 && HazardExitOff(p) && Plausible(candles)
    ensures var b := Replay(p, EmptyBooks(costBps), candles, decisions, n);
            && b.Some? && Sound(p, b.value)
            && (n > 0 ==> SafeAt(b.value.tracker.TicketsOf(p.inst), candles[n - 1].close, p.cfg))
  {
    hide CandleStep, Agree, SafeAt;
    if n == 0 {
      EmptyBooksAgree(costBps);
    } else {
      ReplayIsSound(p, costBps, candles, decisions, n - 1);
      var before := Replay(p, EmptyBooks(costBps), candles, decisions, n - 1);
      CandleKeepsSound(p, before.value, candles[n - 1], decisions[n - 1]);
    }
  }

  /** With plausible candles every backtest runs to its end, and every trade of it, however it was closed, left
      no worse than its stop. */
  lemma EveryTradeRespectsItsStop(p: Params, costBps: real, candles: seq<Candle>, decisions: seq<Decision>)
    requires |candles| == |decisions|
    requires p.cfg.pipScale >= 0.0 && HazardExitOff(p) && Plausible(candles)
    ensures Replay(p, EmptyBooks(costBps), candles, decisions, |candles|).Some?
    ensures LogOk(Final(p, EmptyBooks(costBps), candles, decisions).log, p.cfg)
  {
    hide CandleStep, Agree, SafeAt;
    ReplayIsSound(p, costBps, candles, decisions, |candles|);
    if candles != [] {
      var tracker := Replay(p, EmptyBooks(costBps), candles, decisions, |candles|).value.tracker;
      CloseAllLogsOk(tracker, p.inst, Liquidation(candles[|candles| - 1]), p.cfg);
    }
  }
}
