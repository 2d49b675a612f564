/** The engine and its planner as they run: loops over working copies that update the three books in turn. */
module ExecutionEngine {
  import opened Common
  import opened Tpsl
  import opened TradeState
  import opened PositionTracker
  import opened RiskLimits
  import opened Books

  class TradePlanner {
    const store: TradeStateStore

    constructor (store: TradeStateStore)
      ensures this.store == store
    {
      this.store := store;
    }

    method EvaluateHardBlocks(inst: Inst, trades: seq<Trade>, changed: bool) returns (outcome: PlanOutcome)
      modifies store
      ensures outcome == PlanOutcome(0, false, trades != [] || changed)
      ensures var gone := old(store.View()).Remove(inst);
              store.View() == if trades != [] then gone.(pendingClose := gone.pendingClose + {inst}) else gone
    {
      store.RemoveTrades(inst);
      if trades != [] {
        store.MarkPendingClose(inst);
        store.ClearLastSignal(inst);
      }
      outcome := PlanOutcome(0, false, trades != [] || changed);
    }

    method PlanAllocation(inst: Inst, currentUnits: int, r: Request, limits: Limits) returns (outcome: PlanOutcome)
      modifies store
      ensures (store.View(), outcome) == Plan(old(store.View()), limits, inst, currentUnits, r)
    {
      hide NetOfTrades, StoreV.Replace, StoreV.Remove, StoreV.SetLastSignal, Appends, Admits, NewTrade;
      var trades := store.GetTrades(inst);
      var changed := false;
      if inst in store.pendingClose && NetOfTrades(trades) == currentUnits {
        store.ClearPendingClose(inst);
        changed := true;
      }
      if r.hardBlocked {
        outcome := EvaluateHardBlocks(inst, trades, changed);
        return;
      }
      var ready, appends := CheckEntry(inst, trades, r, limits);
      PlanIgnoresPending(store.View(), old(store.View()), limits, inst, r);
      if appends {
        trades := trades + [NewTrade(r)];
        store.SetLastSignal(inst, r.signalKey);
        changed := true;
      }
      if trades != [] {
        store.ReplaceTrades(inst, trades);
      } else {
        store.RemoveTrades(inst);
      }
      outcome := PlanOutcome(NetOfTrades(trades), ready, changed);
    }

    /** The guards in front of a new trade: whether the request is still ready after them, and whether it adds one. */
    method CheckEntry(inst: Inst, trades: seq<Trade>, r: Request, limits: Limits) returns (ready: bool, appends: bool)
      requires trades == store.View().TradesOf(inst)
      ensures appends <==> Appends(store.View(), limits, inst, r)
      ensures ready <==> appends || (Admits(store.View(), inst, r) && (r.side == 0 || r.units == 0))
    {
      hide NetOfTrades, StoreV.TotalCount;
      var net := NetOfTrades(trades);
      ready, appends := r.ready, false;
      if r.disableStacking && net != 0 && ready {
        ready := false;
      }
      var currentSide: Side := if net > 0 then 1 else if net < 0 then -1 else 0;
      if currentSide != 0 && r.side != 0 && r.side != currentSide {
        ready := false;
      }
      if ready && r.side != 0 && r.units > 0 {
        var duplicate := r.signalKey != "" && inst in store.lastEntrySignal
                         && store.lastEntrySignal[inst] == r.signalKey;
        var count := store.TotalTradeCount();
        if duplicate {
          ready := false;
        } else if limits.maxPositionsPerPair > 0 && |trades| >= limits.maxPositionsPerPair {
          ready := false;
        } else if limits.maxTotalPositions > 0 && count >= limits.maxTotalPositions as real {
          ready := false;
        } else {
          appends := true;
        }
      }
    }
  }

  /** Whether a request adds a trade does not depend on what is pending. */
  lemma PlanIgnoresPending(s: StoreV, t: StoreV, limits: Limits, inst: Inst, r: Request)
    requires s.trades == t.trades && s.lastSignal == t.lastSignal
    ensures Appends(s, limits, inst, r) <==> Appends(t, limits, inst, r)
    ensures Admits(s, inst, r) <==> Admits(t, inst, r)
  {
    hide StoreV.TotalCount;
    SameCount(s, t);
  }

  class Engine {
    const risk: RiskManager
    const store: TradeStateStore
    const planner: TradePlanner
    const tracker: TPSLPositionTracker

    constructor (risk: RiskManager, store: TradeStateStore, planner: TradePlanner, tracker: TPSLPositionTracker)
      requires planner.store == store
      ensures Valid()
      ensures this.risk == risk && this.store == store && this.planner == planner && this.tracker == tracker
    {
      this.risk, this.store, this.planner, this.tracker := risk, store, planner, tracker;
    }

    ghost predicate Valid() {
      planner.store == store
    }

    ghost function View(): Books
      reads risk, store, tracker
    {
      Books(store.View(), tracker.View(), risk.View())
    }

    /** Ask whoever plays the tracker to close a slot; live, a fill also reaches the risk inventory. */
    method CloseSlot(venue: Venue, inst: Inst, i: int, c: Closing) returns (ok: bool)
      modifies tracker, risk`positions, risk`exposure
      ensures (View(), ok) == VenueClose(old(View()), venue, inst, i, c)
    {
      if venue.Simulated? {
        var record := tracker.CloseTicket(inst, i, c);
        return record.Some?;
      }
      var tickets := tracker.GetTickets(inst);
      if i < 0 || i >= |tickets| {
        return false;
      }
      var answer := venue.closeAnswers(i);
      if answer.Rejected? {
        return false;
      }
      var fill := FillPrice(answer.price, c.price);
      var record := tracker.CloseTicket(inst, i, c.(price := fill));
      if record.None? {
        return false;
      }
      risk.RecordFill(inst, answer.units.GetOr(-tickets[i].units), Some(fill));
      return true;
    }

    method SyncRiskAfterTrackerExit(venue: Venue, inst: Inst, price: real, fallback: real)
      modifies risk`positions, risk`exposure
      ensures View() == SyncRisk(old(View()), venue, inst, price, fallback)
    {
      var net := tracker.NetUnits(inst);
      if venue.Live? && net == risk.NetUnits(inst) {
        return;
      }
      risk.Flatten(inst);
      if net != 0 {
        risk.RecordFill(inst, net, Some(if venue.Simulated? && price == 0.0 then fallback else price));
      }
    }

    /** Close the slots with an exit, highest index first so that earlier indices stay good. The profit reported
        after a close is divided by the entry price, and a zero there raises. */
    method CloseFromBack(venue: Venue, inst: Inst, exits: seq<Option<Exit>>, time: Time, copy: seq<Trade>)
      returns (trades: seq<Trade>, closedAny: bool, raised: bool)
      modifies tracker, risk`positions, risk`exposure
      ensures Sweep(View(), trades, closedAny, raised)
              == CloseDown(Sweep(old(View()), copy, false, false), venue, inst, exits, time, |exits|)
    {
      trades, closedAny, raised := copy, false, false;
      var n := |exits|;
      while n > 0
        invariant 0 <= n <= |exits| && !raised
        invariant CloseDown(Sweep(View(), trades, closedAny, false), venue, inst, exits, time, n)
                  == CloseDown(Sweep(old(View()), copy, false, false), venue, inst, exits, time, |exits|)
      {
        n := n - 1;
        if exits[n].Some? && n < |trades| {
          var exit := exits[n].value;
          var ok := CloseSlot(venue, inst, n, Closing(exit.price, time, exit.reason, exit.price));
          if ok {
            closedAny := true;
            if trades[n].entryPrice == 0.0 {
              raised := true;
              return;
            }
            trades := RemoveAt(trades, n);
          }
        }
      }
    }

    method CheckTpslExitIntraCandle(venue: Venue, inst: Inst, high: real, low: real, time: Time, cfg: TpslConfig,
                                    scalping: bool) returns (ending: Ending)
      requires Valid()
      modifies tracker, risk`positions, risk`exposure, store
      ensures (View(), ending) == TpslPass(old(View()), venue, inst, high, low, time, cfg, scalping)
    {
      hide CloseDown, SyncRisk, LowestExitPrice, Checked, StoreV.Replace, StoreV.Remove;
      var net := tracker.NetUnits(inst);
      if net == 0 || !cfg.Active() {
        return NothingClosed;
      }
      var exits, any := CheckEveryTicket(inst, high, low, cfg, scalping);
      if !any {
        return NothingClosed;
      }
      var trades := store.GetTrades(inst);
      var closedAny, raised;
      trades, closedAny, raised := CloseFromBack(venue, inst, exits, time, trades);
      if raised {
        return Aborted;
      }
      if !closedAny {
        return NothingClosed;
      }
      if trades != [] {
        store.ReplaceTrades(inst, trades);
      } else {
        store.RemoveTrades(inst);
      }
      var left := tracker.GetTickets(inst);
      var price := LowestExitPrice(exits);
      SyncRiskAfterTrackerExit(venue, inst, price, if left != [] then left[0].entryPrice else price);
      return Closed;
    }

    /** Run the checker over the live ticket list, updating each ticket's state as it goes. */
    method CheckEveryTicket(inst: Inst, high: real, low: real, cfg: TpslConfig, scalping: bool)
      returns (exits: seq<Option<Exit>>, any: bool)
      requires inst in tracker.tickets
      modifies tracker`tickets
      ensures View() == Checked(old(View()), inst, high, low, cfg, scalping)
      ensures exits == ExitsOf(old(View()).tracker.TicketsOf(inst), high, low, cfg, scalping)
      ensures any <==> AnyExit(exits)
    {
      hide IntraCandle;
      exits, any := [], false;
      ghost var before := tracker.tickets[inst];
      while |exits| < |tracker.tickets[inst]|
        invariant inst in tracker.tickets && |exits| <= |before| == |tracker.tickets[inst]|
        invariant tracker.tickets == old(tracker.tickets)[inst := tracker.tickets[inst]]
        invariant forall j :: 0 <= j < |exits| ==>
          tracker.tickets[inst][j] == before[j].(tpsl := IntraCandle(high, low, before[j].tpsl, cfg, scalping).1)
        invariant forall j :: |exits| <= j < |before| ==> tracker.tickets[inst][j] == before[j]
        invariant forall j :: 0 <= j < |exits| ==> exits[j] == IntraCandle(high, low, before[j].tpsl, cfg, scalping).0
        invariant any <==> exists j :: 0 <= j < |exits| && exits[j].Some?
        decreases |before| - |exits|
      {
        var ticket := tracker.tickets[inst][|exits|];
        var hit, state := CheckIntraCandle(high, low, ticket.tpsl, cfg, scalping);
        tracker.tickets := tracker.tickets[inst := tracker.tickets[inst][|exits| := ticket.(tpsl := state)]];
        exits := exits + [hit];
        any := any || hit.Some?;
      }
      assert tracker.tickets[inst] == CheckedTickets(before, high, low, cfg, scalping);
    }

    method CheckTimeExpiry(venue: Venue, inst: Inst, price: real, time: Time, tickSecs: int) returns (ending: Ending)
      requires Valid()
      modifies tracker, risk`positions, risk`exposure, store
      ensures (View(), ending) == ExpiryPass(old(View()), venue, inst, price, time, tickSecs)
    {
      if risk.NetUnits(inst) == 0 {
        return NothingClosed;
      }
      var trades := store.GetTrades(inst);
      if trades == [] {
        return NothingClosed;
      }
      var exits, any;
      trades, exits, any := AgeTrades(trades, price, tickSecs);
      if !any {
        store.ReplaceTrades(inst, trades);
        return NothingClosed;
      }
      var closedAny, raised;
      trades, closedAny, raised := CloseFromBack(venue, inst, exits, time, trades);
      if raised {
        return Aborted;
      }
      if !closedAny {
        return NothingClosed;
      }
      if trades != [] {
        store.ReplaceTrades(inst, trades);
      } else {
        store.RemoveTrades(inst);
      }
      SyncRiskAfterTrackerExit(venue, inst, price, price);
      return Closed;
    }

    method AgeTrades(copy: seq<Trade>, price: real, tickSecs: int)
      returns (aged: seq<Trade>, exits: seq<Option<Exit>>, any: bool)
      ensures aged == AgeAll(copy, tickSecs)
      ensures exits == ExpiriesOf(aged, price)
      ensures any <==> AnyExit(exits)
    {
      aged, exits, any := copy, [], false;
      for k := 0 to |copy|
        invariant |aged| == |copy| && |exits| == k
        invariant forall j :: 0 <= j < k ==> aged[j] == copy[j].Aged(tickSecs)
        invariant forall j :: k <= j < |copy| ==> aged[j] == copy[j]
        invariant forall j :: 0 <= j < k ==>
                  exits[j] == if aged[j].Expired() then Some(Exit(HoldExpiry, price)) else None
        invariant any <==> exists j :: 0 <= j < k && exits[j].Some?
      {
        var trade := aged[k].(elapsedSecs := aged[k].elapsedSecs + tickSecs);
        aged := aged[k := trade];
        var expired := (trade.maxHoldSecs.Some? && trade.elapsedSecs >= trade.maxHoldSecs.value)
                       || trade.elapsedSecs >= trade.holdSecs;
        if expired {
          exits := exits + [Some(Exit(HoldExpiry, price))];
          any := true;
        } else {
          exits := exits + [None];
        }
      }
    }

    /** Besides how it ends, an allocation tells which order it handed to the broker, if any. */
    method ExecuteAllocation(inst: Inst, r: Request, w: Weather, tickSecs: int) returns (ending: Ending, ordered: int)
      requires Valid()
      modifies tracker, risk`positions, risk`exposure, store
      ensures (View(), ending) == Allocate(old(View()), risk.limits, inst, r, w, tickSecs)
      ensures ordered == AllocationOrder(old(View()), risk.limits, inst, r, w, tickSecs)
    {
      hide ExpiryPass, Plan, Settle, RiskV.CanAdd;
      ordered := 0;
      var ready := r.ready;
      if w.blocked {
        ready := false;
      }
      ending := CheckTimeExpiry(w.venue, inst, r.price, r.now, tickSecs);
      if ending.Aborted? {
        return;
      }
      var current := risk.NetUnits(inst);
      var prior := store.TakeSnapshot(inst);
      ghost var before := View();
      var gated := r.(ready := ready);
      var outcome := planner.PlanAllocation(inst, current, gated, risk.limits);
      ordered := SettleOrder(before, prior, inst, gated, w.order, outcome.targetUnits);
    }

    /** Guard, order, and either rollback or ticket sync, once the plan is on file. */
    method SettleOrder(ghost before: Books, prior: Snapshot, inst: Inst, r: Request, order: Answer, target: int)
      returns (ordered: int)
      requires View() == before.(store := store.View()) && prior == before.store.TakeSnapshot(inst)
      modifies tracker, risk`positions, risk`exposure, store
      ensures View() == Settle(before, risk.limits, inst, r, order, old(store.View()), target)
      ensures var delta := target - before.risk.NetUnits(inst);
              ordered == if before.risk.CanAdd(risk.limits, inst, delta, Some(r.price)) then delta else 0
    {
      hide TrackerV.SyncToNet, RiskV.RecordFill, RiskV.CanAdd, StoreV.Restore, StoreV.TakeSnapshot;
      var delta := target - risk.NetUnits(inst);
      if delta == 0 {
        return 0;
      }
      var allowed := risk.CanAdd(inst, delta, Some(r.price));
      ordered := if allowed then delta else 0;
      if !allowed || !order.Executes(delta) {
        store.Restore(inst, prior);
        return;
      }
      risk.RecordFill(inst, order.units.GetOr(delta), Some(order.price.GetOr(r.price)));
      tracker.SyncToNetPosition(inst, target, r.price, r.now, r.isBundle);
    }
  }
}
