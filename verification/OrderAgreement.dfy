/** Allocations: a refused one leaves no trace, one that is filled in full changes all three books alike. */
module OrderAgreement {
  import opened Common
  import opened Pricing
  import opened Tpsl
  import opened TradeState
  import opened PositionTracker
  import opened RiskLimits
  import opened Books
  import opened Agreement
  import opened ExitAgreement

  lemma PlanTouchesOne(store: StoreV, limits: Limits, inst: Inst, current: int, r: Request)
    ensures store.SameElsewhere(Plan(store, limits, inst, current, r).0, inst)
  {
    hide Appends, Admits, NetOfTrades, StoreV.TradesOf, NewTrade;
  }

  /** A refused order leaves no trace: the planner's changes are rolled back in full. */
  lemma RefusalLeavesNoTrace(b: Books, limits: Limits, inst: Inst, r: Request, order: Answer)
    requires b.store.WellFormed()
    requires Refused(b, limits, inst, r, order)
    ensures Transact(b, limits, inst, r, order) == b
  {
    var store := Plan(b.store, limits, inst, b.risk.NetUnits(inst), r).0;
    PlanTouchesOne(b.store, limits, inst, b.risk.NetUnits(inst), r);
    RestoreUndoes(b.store, store, inst);
  }

  /** An order that is rejected, or of which nothing at all is filled, is refused. */
  lemma UnfilledOrderLeavesNoTrace(b: Books, limits: Limits, inst: Inst, r: Request, order: Answer)
    requires b.store.WellFormed() && DeltaOf(b, limits, inst, r) != 0
    requires order == Rejected || (order.Filled? && order.units == Some(0))
    ensures Transact(b, limits, inst, r, order) == b
  {
    hide Transact, Plan;
    RefusalLeavesNoTrace(b, limits, inst, r, order);
  }

  /** One that is filled with anything, and got past the guard, is not: the inventory moves by the fill. */
  lemma AnyFillIsRecorded(b: Books, limits: Limits, inst: Inst, r: Request, order: Answer)
    requires DeltaOf(b, limits, inst, r) != 0 && order.Filled? && order.units != Some(0)
    requires b.risk.CanAdd(limits, inst, DeltaOf(b, limits, inst, r), Some(r.price))
    ensures Transact(b, limits, inst, r, order).risk.NetUnits(inst)
            == b.risk.NetUnits(inst) + match order.units
                                       case Some(filled) => filled
                                       case None => DeltaOf(b, limits, inst, r)
  {
    hide Plan, TrackerV.SyncToNet, UsdNotional, RiskV.CanAdd;
  }

  /** A filled order agrees if the new slots do and add up to the target. */
  lemma FilledOrderAgrees(b: Books, inst: Inst, store: StoreV, tracker: TrackerV, target: int, price: Option<real>)
    requires Agree(b)
    requires b.store.SameElsewhere(store, inst)
    requires inst in store.trades ==> store.trades[inst] != []
    requires inst in store.lastSignal ==> store.lastSignal[inst] != ""
    requires tracker.tickets - {inst} == b.tracker.tickets - {inst}
    requires SameSlots(store.TradesOf(inst), tracker.TicketsOf(inst)) && tracker.NetUnits(inst) == target
    ensures var c := Books(store, tracker, b.risk.RecordFill(inst, target - b.risk.NetUnits(inst), price));
            Agree(c) && OnlyTouches(b, c, inst)
  {
    AgreeFromOne(b, Books(store, tracker, b.risk.RecordFill(inst, target - b.risk.NetUnits(inst), price)), inst);
  }

  lemma SyncToNothing(v: TrackerV, inst: Inst, price: real, time: Time, isBundle: bool)
    requires v.NetUnits(inst) != 0
    ensures var w := v.SyncToNet(inst, 0, price, time, isBundle);
            w.TicketsOf(inst) == [] && w.NetUnits(inst) == 0 && w.tickets - {inst} == v.tickets - {inst}
  {
    CloseAllEmpties(v, inst, Closing(price, time, PositionSync, price));
  }

  /** A hard block closes everything the instrument holds, in all three books. */
  lemma HardBlockAgrees(b: Books, limits: Limits, inst: Inst, r: Request, order: Answer)
    requires Agree(b) && r.hardBlocked
    requires !Refused(b, limits, inst, r, order) && order.InFull(DeltaOf(b, limits, inst, r))
    ensures var c := Transact(b, limits, inst, r, order);
            && Agree(c) && OnlyTouches(b, c, inst)
            && c.store.TradesOf(inst) == [] && c.tracker.TicketsOf(inst) == [] && c.risk.NetUnits(inst) == 0
  {
    hide SameSlots, TrackerV.SyncToNet, RiskV.CanAdd, Appends, NetOfTrades, NetOfTickets;
    assert InstAgrees(b, inst);
    SlotsHeldIffNet(b.store.TradesOf(inst), b.tracker.TicketsOf(inst));
    var (store, outcome) := Plan(b.store, limits, inst, b.risk.NetUnits(inst), r);
    assert store.TradesOf(inst) == [] && outcome.targetUnits == 0;
    PlanTouchesOne(b.store, limits, inst, b.risk.NetUnits(inst), r);
    if b.risk.NetUnits(inst) != 0 {
      var tracker := b.tracker.SyncToNet(inst, 0, r.price, r.now, r.isBundle);
      SyncToNothing(b.tracker, inst, r.price, r.now, r.isBundle);
      FilledOrderAgrees(b, inst, store, tracker, 0, Some(order.price.GetOr(r.price)));
    } else {
      AgreeFromOne(b, b.(store := store), inst);
    }
  }

  lemma AppendedSlotAgrees(trades: seq<Trade>, tickets: seq<Ticket>, trade: Trade, ticket: Ticket)
    requires SameSlots(trades, tickets) && SameTrade(trade, ticket)
    requires tickets != [] ==> Sign(ticket.units) == Sign(NetOfTickets(tickets))
    ensures SameSlots(trades + [trade], tickets + [ticket])
    ensures NetOfTrades(trades + [trade]) == NetOfTickets(tickets + [ticket]) == NetOfTickets(tickets) + ticket.units
    ensures Abs(NetOfTickets(tickets)) < Abs(NetOfTickets(tickets) + ticket.units)
    ensures NetOfTickets(tickets) != 0 ==> Sign(NetOfTickets(tickets)) == Sign(ticket.units)
  {
    SlotsHeldIffNet(trades, tickets);
    if tickets != [] {
      OneSidedNet(tickets);
    }
    SlotsHeldIffNet(trades + [trade], tickets + [ticket]);
    assert (tickets + [ticket])[..|tickets|] == tickets;
  }

  /** An order that goes through: the plan stays on file, the tracker is synced to it, the inventory to the fill. */
  lemma ExecutedTransact(b: Books, limits: Limits, inst: Inst, r: Request, order: Answer)
    requires DeltaOf(b, limits, inst, r) != 0 && !Refused(b, limits, inst, r, order)
    ensures order.Filled?
    ensures var (store, outcome) := Plan(b.store, limits, inst, b.risk.NetUnits(inst), r);
            Transact(b, limits, inst, r, order)
            == Books(store, b.tracker.SyncToNet(inst, outcome.targetUnits, r.price, r.now, r.isBundle),
                     b.risk.RecordFill(inst, order.units.GetOr(DeltaOf(b, limits, inst, r)),
                     Some(order.price.GetOr(r.price))))
  {
    hide Plan;
  }

  /** The ticket an opening adds. */
  function OpenedTicket(v: TrackerV, inst: Inst, r: Request): Ticket {
    var units := NewTrade(r).NetUnits();
    Ticket(units, r.price, r.now, Commission(inst, r.price, Abs(units), v.costBps), r.isBundle,
           Reset(r.price, if units > 0 then 1 else -1), 0.0, 0.0)
  }

  /** The plan for an admitted request: one more trade, and its units on top of the net. */
  lemma PlanAppends(store: StoreV, limits: Limits, inst: Inst, current: int, r: Request)
    requires store.WellFormed() && !r.hardBlocked && Appends(store, limits, inst, r)
    ensures var (after, outcome) := Plan(store, limits, inst, current, r);
            && after.TradesOf(inst) == store.TradesOf(inst) + [NewTrade(r)]
            && outcome.targetUnits == NetOfTrades(store.TradesOf(inst) + [NewTrade(r)])
            && outcome.targetUnits == NetOfTrades(store.TradesOf(inst)) + NewTrade(r).NetUnits()
            && store.SameElsewhere(after, inst)
            && (inst in after.lastSignal ==> after.lastSignal[inst] != "")
  {
    PlanTouchesOne(store, limits, inst, current, r);
    var trades := store.TradesOf(inst);
    assert (trades + [NewTrade(r)])[..|trades|] == trades;
    hide Appends;
  }

  /** Growing a position on its own side opens exactly the difference. */
  lemma SyncOpensDifference(v: TrackerV, inst: Inst, units: int, price: real, time: Time, isBundle: bool)
    requires units != 0 && (v.NetUnits(inst) != 0 ==> Sign(v.NetUnits(inst)) == Sign(units))
    ensures v.SyncToNet(inst, v.NetUnits(inst) + units, price, time, isBundle)
            == v.Open(inst, units, price, time, isBundle)
  {
    hide NetOfTickets;
  }

  /** Seen from agreeing books, the order for an admitted request is for exactly the new trade's units. */
  lemma AppendOrders(b: Books, limits: Limits, inst: Inst, r: Request)
    requires Agree(b) && !r.hardBlocked && Appends(b.store, limits, inst, r)
    ensures DeltaOf(b, limits, inst, r) == NewTrade(r).NetUnits() != 0
    ensures b.risk.NetUnits(inst) != 0 ==> Sign(b.risk.NetUnits(inst)) == Sign(NewTrade(r).NetUnits())
    ensures b.risk.NetUnits(inst) == b.tracker.NetUnits(inst) == NetOfTrades(b.store.TradesOf(inst))
  {
    assert InstAgrees(b, inst);
    SlotsHeldIffNet(b.store.TradesOf(inst), b.tracker.TicketsOf(inst));
    PlanAppends(b.store, limits, inst, b.risk.NetUnits(inst), r);
    hide Plan, SameSlots, NetOfTickets, NetOfTrades;
  }

  /** The sync to the plan adds the same slot to the tickets. */
  lemma AppendSyncs(b: Books, limits: Limits, inst: Inst, r: Request)
    requires Agree(b) && !r.hardBlocked && Appends(b.store, limits, inst, r)
    ensures var target := b.risk.NetUnits(inst) + NewTrade(r).NetUnits();
            var tracker := b.tracker.SyncToNet(inst, target, r.price, r.now, r.isBundle);
            && tracker == b.tracker.Open(inst, NewTrade(r).NetUnits(), r.price, r.now, r.isBundle)
            && tracker.TicketsOf(inst) == b.tracker.TicketsOf(inst) + [OpenedTicket(b.tracker, inst, r)]
            && tracker.tickets - {inst} == b.tracker.tickets - {inst}
            && tracker.NetUnits(inst) == target
            && SameSlots(b.store.TradesOf(inst) + [NewTrade(r)], tracker.TicketsOf(inst))
  {
    hide NetOfTickets, NetOfTrades, Plan, TrackerV.SyncToNet, DeltaOf, Commission, Appends, SameSlots,
         RiskV.WellFormed, StoreV.WellFormed;
    var trades, tickets := b.store.TradesOf(inst), b.tracker.TicketsOf(inst);
    assert InstAgrees(b, inst);
    SlotsHeldIffNet(trades, tickets);
    AppendOrders(b, limits, inst, r);
    AppendedSlotAgrees(trades, tickets, NewTrade(r), OpenedTicket(b.tracker, inst, r));
    SyncOpensDifference(b.tracker, inst, NewTrade(r).NetUnits(), r.price, r.now, r.isBundle);
  }

  /** For an admitted request, guard and broker see the units of the new trade. */
  lemma AppendGoesThrough(b: Books, limits: Limits, inst: Inst, r: Request, order: Answer)
    requires Agree(b) && !r.hardBlocked && Appends(b.store, limits, inst, r)
    ensures var delta := NewTrade(r).NetUnits();
            !Refused(b, limits, inst, r, order)
            <==> b.risk.CanAdd(limits, inst, delta, Some(r.price)) && order.Executes(delta)
  {
    hide Plan, Appends, RiskV.CanAdd, Agree;
    AppendOrders(b, limits, inst, r);
  }

  /** An admitted request that the guard lets through and the broker fills adds the same slot to both lists. */
  lemma AppendAgrees(b: Books, limits: Limits, inst: Inst, r: Request, order: Answer)
    requires Agree(b) && !r.hardBlocked && Appends(b.store, limits, inst, r)
    requires b.risk.CanAdd(limits, inst, NewTrade(r).NetUnits(), Some(r.price))
    requires order.Filled? && order.InFull(NewTrade(r).NetUnits())
    ensures var c := Transact(b, limits, inst, r, order);
            && Agree(c) && OnlyTouches(b, c, inst)
            && c.store.TradesOf(inst) == b.store.TradesOf(inst) + [NewTrade(r)]
            && c.tracker == b.tracker.Open(inst, NewTrade(r).NetUnits(), r.price, r.now, r.isBundle)
            && c.tracker.TicketsOf(inst) == b.tracker.TicketsOf(inst) + [OpenedTicket(b.tracker, inst, r)]
            && c.risk.NetUnits(inst) == b.risk.NetUnits(inst) + NewTrade(r).NetUnits()
  {
    hide Plan, SameSlots, OnlyTouches, NetOfTickets, NetOfTrades, Appends, Refused, Transact, DeltaOf, InstAgrees,
         SameTrade, RiskV.CanAdd, RiskV.WellFormed, TrackerV.SyncToNet, TrackerV.Open, StoreV.SameElsewhere,
         OpenedTicket, Commission;
    AppendOrders(b, limits, inst, r);
    AppendGoesThrough(b, limits, inst, r, order);
    AppendSyncs(b, limits, inst, r);
    PlanAppends(b.store, limits, inst, b.risk.NetUnits(inst), r);
    ExecutedTransact(b, limits, inst, r, order);
    var (store, outcome) := Plan(b.store, limits, inst, b.risk.NetUnits(inst), r);
    var tracker := b.tracker.SyncToNet(inst, outcome.targetUnits, r.price, r.now, r.isBundle);
    FilledOrderAgrees(b, inst, store, tracker, outcome.targetUnits, Some(order.price.GetOr(r.price)));
  }

  /** The broker fills the order that follows the plan with what was asked for, if at all. */
  ghost predicate FillsPlan(b: Books, limits: Limits, inst: Inst, r: Request, order: Answer) {
    var delta := DeltaOf(b, limits, inst, r);
    delta == 0 || Refused(b, limits, inst, r, order) || order.InFull(delta)
  }

  lemma FullFillAgrees(b: Books, limits: Limits, inst: Inst, r: Request, order: Answer)
    requires Agree(b) && FillsPlan(b, limits, inst, r, order)
    ensures var c := Transact(b, limits, inst, r, order);
            Agree(c) && OnlyTouches(b, c, inst)
  {
    if Refused(b, limits, inst, r, order) {
      RefusalLeavesNoTrace(b, limits, inst, r, order);
    } else if order.InFull(DeltaOf(b, limits, inst, r)) && r.hardBlocked {
      HardBlockAgrees(b, limits, inst, r, order);
    } else if order.InFull(DeltaOf(b, limits, inst, r)) && Appends(b.store, limits, inst, r) {
      AppendOrders(b, limits, inst, r);
      AppendGoesThrough(b, limits, inst, r, order);
      AppendAgrees(b, limits, inst, r, order);
    } else {
      NoOrderAgrees(b, limits, inst, r, order);
    }
  }

  /** Nothing to order: the plan only clears flags. */
  lemma NoOrderAgrees(b: Books, limits: Limits, inst: Inst, r: Request, order: Answer)
    requires Agree(b)
    requires DeltaOf(b, limits, inst, r) == 0 || (!r.hardBlocked && !Appends(b.store, limits, inst, r))
    ensures var c := Transact(b, limits, inst, r, order);
            && Agree(c) && OnlyTouches(b, c, inst)
            && c.store.TradesOf(inst) == b.store.TradesOf(inst) && c.tracker == b.tracker && c.risk == b.risk
  {
    var trades, tickets := b.store.TradesOf(inst), b.tracker.TicketsOf(inst);
    var c := Transact(b, limits, inst, r, order);
    assert InstAgrees(b, inst);
    SlotsHeldIffNet(trades, tickets);
    PlanTouchesOne(b.store, limits, inst, b.risk.NetUnits(inst), r);
    if !r.hardBlocked && Appends(b.store, limits, inst, r) {
      AppendedSlotAgrees(trades, tickets, NewTrade(r), OpenedTicket(b.tracker, inst, r));
      PlanAppends(b.store, limits, inst, b.risk.NetUnits(inst), r);
      assert false;
    } else {
      assert c == b.(store := Plan(b.store, limits, inst, b.risk.NetUnits(inst), r).0);
      assert c.store.TradesOf(inst) == trades;
      assert inst in c.store.lastSignal ==>
             inst in b.store.lastSignal && c.store.lastSignal[inst] == b.store.lastSignal[inst];
      hide Plan, SameSlots, Transact;
      AgreeFromOne(b, c, inst);
    }
  }

  /** An order filled otherwise than asked puts the fill in the inventory and the plan in the other two books. */
  lemma PartialFillSplits(b: Books, limits: Limits, inst: Inst, r: Request, order: Answer)
    requires Agree(b) && !FillsPlan(b, limits, inst, r, order)
    ensures var c := Transact(b, limits, inst, r, order);
            !InstAgrees(c, inst) && OnlyTouches(b, c, inst)
  {
    hide Plan, Transact, RiskV.CanAdd, SameSlots, TrackerV.SyncToNet, Agree, StoreV.SameElsewhere;
    var full := order.(units := None);
    assert !Refused(b, limits, inst, r, full);
    FullFillAgrees(b, limits, inst, r, full);
    ExecutedTransact(b, limits, inst, r, order);
    ExecutedTransact(b, limits, inst, r, full);
    var c, d := Transact(b, limits, inst, r, order), Transact(b, limits, inst, r, full);
    assert Agree(d) ==> InstAgrees(d, inst);
  }

  /** Planning and settling keep agreement if and only if the order, when filled, is filled in full: the tracker
      is synced to the plan and the inventory to the fill. */
  lemma TransactAgrees(b: Books, limits: Limits, inst: Inst, r: Request, order: Answer)
    requires Agree(b)
    ensures var c := Transact(b, limits, inst, r, order);
            (Agree(c) <==> FillsPlan(b, limits, inst, r, order)) && OnlyTouches(b, c, inst)
  {
    var c := Transact(b, limits, inst, r, order);
    if FillsPlan(b, limits, inst, r, order) {
      FullFillAgrees(b, limits, inst, r, order);
    } else {
      PartialFillSplits(b, limits, inst, r, order);
      hide InstAgrees, Transact;
      assert Agree(c) ==> InstAgrees(c, inst);
    }
  }

  /** Every refused allocation leaves the books exactly as the expiry pass left them, whether they agree or not. */
  lemma RefusedAllocationIsJustExpiry(b: Books, limits: Limits, inst: Inst, r: Request, w: Weather, tickSecs: int)
    requires b.store.WellFormed()
    requires Refused(ExpiryPass(b, w.venue, inst, r.price, r.now, tickSecs).0, limits, inst, Gated(r, w.blocked),
             w.order)
    ensures Allocate(b, limits, inst, r, w, tickSecs).0 == ExpiryPass(b, w.venue, inst, r.price, r.now, tickSecs).0
  {
    ExpiryKeepsWellFormed(b, w.venue, inst, r.price, r.now, tickSecs);
    RefusalLeavesNoTrace(ExpiryPass(b, w.venue, inst, r.price, r.now, tickSecs).0, limits, inst, Gated(r, w.blocked),
                         w.order);
  }

  // ---------------------------------------------------------------- the structural breaker

  /** While the breaker blocks, an allocation without hard blocks leaves the trade list its expiry pass left, whatever
      the request asks for and whatever the books are. */
  lemma BlockedAllocationEntersNothing(b: Books, limits: Limits, inst: Inst, r: Request, w: Weather, tickSecs: int)
    requires w.blocked && !r.hardBlocked
    ensures Allocate(b, limits, inst, r, w, tickSecs).0.store.TradesOf(inst)
            == ExpiryPass(b, w.venue, inst, r.price, r.now, tickSecs).0.store.TradesOf(inst)
  {
    hide ExpiryPass, RiskV.CanAdd, TrackerV.SyncToNet, NetOfTrades, RiskV.RecordFill;
  }

  /** From books that agree after the expiry pass it sends no order, and tickets and risk stay too. */
  lemma BlockedAllocationOrdersNothing(b: Books, limits: Limits, inst: Inst, r: Request, w: Weather, tickSecs: int)
    requires w.blocked && !r.hardBlocked
    requires Agree(ExpiryPass(b, w.venue, inst, r.price, r.now, tickSecs).0)
    ensures AllocationOrder(b, limits, inst, r, w, tickSecs) == 0
    ensures var expired := ExpiryPass(b, w.venue, inst, r.price, r.now, tickSecs).0;
            var c := Allocate(b, limits, inst, r, w, tickSecs).0;
            c.tracker == expired.tracker && c.risk == expired.risk
  {
    hide ExpiryPass, RiskV.CanAdd, TrackerV.SyncToNet, NetOfTrades, NetOfTickets, SameSlots;
    var expired := ExpiryPass(b, w.venue, inst, r.price, r.now, tickSecs).0;
    assert InstAgrees(expired, inst);
    SlotsHeldIffNet(expired.store.TradesOf(inst), expired.tracker.TicketsOf(inst));
  }

  /** While it does not, the request is planned and settled as it is. */
  lemma UnblockedAllocationTransacts(b: Books, limits: Limits, inst: Inst, r: Request, w: Weather, tickSecs: int)
    requires !w.blocked
    ensures var (expired, ending) := ExpiryPass(b, w.venue, inst, r.price, r.now, tickSecs);
            && Allocate(b, limits, inst, r, w, tickSecs)
               == (if ending.Aborted? then expired else Transact(expired, limits, inst, r, w.order), ending)
            && (!ending.Aborted? && expired.risk.CanAdd(limits, inst, DeltaOf(expired, limits, inst, r), Some(r.price))
                ==> AllocationOrder(b, limits, inst, r, w, tickSecs) == DeltaOf(expired, limits, inst, r))
  {
    hide ExpiryPass, RiskV.CanAdd, Transact, DeltaOf;
  }

  // ---------------------------------------------------------------- signals

  /** A signal that was the last to enter does not enter again: nothing is added to the trade list. */
  lemma RepeatedSignalEntersNothing(b: Books, limits: Limits, inst: Inst, r: Request, w: Weather, tickSecs: int)
    requires !r.hardBlocked && r.signalKey != ""
    requires ExpiryPass(b, w.venue, inst, r.price, r.now, tickSecs).0.store.LastSignalOf(inst) == Some(r.signalKey)
    ensures Allocate(b, limits, inst, r, w, tickSecs).0.store.TradesOf(inst)
            == ExpiryPass(b, w.venue, inst, r.price, r.now, tickSecs).0.store.TradesOf(inst)
  {
    hide ExpiryPass, RiskV.CanAdd, TrackerV.SyncToNet, NetOfTrades, RiskV.RecordFill;
  }

  /** A signal that enters is remembered as the last one, if it has a key. */
  lemma EnteredSignalIsRemembered(b: Books, limits: Limits, inst: Inst, r: Request, order: Answer)
    requires |Transact(b, limits, inst, r, order).store.TradesOf(inst)| > |b.store.TradesOf(inst)|
    ensures r.signalKey != "" ==>
              Transact(b, limits, inst, r, order).store.LastSignalOf(inst) == Some(r.signalKey)
  {
    hide RiskV.CanAdd, TrackerV.SyncToNet, NetOfTrades, RiskV.RecordFill, StoreV.TotalCount;
  }

  /** What enters is one trade on the side asked for, of the units and the hold asked for, at the price and time of the
      request, and its clock starts at zero. It never opposes what is open, and never joins it if stacking is off. */
  lemma EnteredTradeIsAsAsked(b: Books, limits: Limits, inst: Inst, r: Request, order: Answer)
    requires |Transact(b, limits, inst, r, order).store.TradesOf(inst)| > |b.store.TradesOf(inst)|
    ensures var trades := b.store.TradesOf(inst);
            && r.ready && !r.hardBlocked && r.side != 0 && r.units > 0
            && Transact(b, limits, inst, r, order).store.TradesOf(inst)
               == trades + [Trade(r.side, r.units, r.now, r.holdSecs, None, 0, r.price)]
            && (NetOfTrades(trades) != 0 ==> !r.disableStacking && Sign(NetOfTrades(trades)) == r.side)
  {
    hide RiskV.CanAdd, TrackerV.SyncToNet, NetOfTrades, RiskV.RecordFill, StoreV.TotalCount;
  }

  // ---------------------------------------------------------------- what a plan reports

  /** A plan reports a change exactly if the trade list changes or a pending close is confirmed; and a close stays
      pending only while the inventory does not show what the trades say and something is left. */
  lemma PlanReportsChanges(store: StoreV, limits: Limits, inst: Inst, currentUnits: int, r: Request)
    requires store.WellFormed()
    ensures var (after, outcome) := Plan(store, limits, inst, currentUnits, r);
            var confirmed := inst in store.pendingClose && NetOfTrades(store.TradesOf(inst)) == currentUnits;
            && (outcome.stateChanged <==> after.TradesOf(inst) != store.TradesOf(inst) || confirmed)
            && outcome.targetUnits == NetOfTrades(after.TradesOf(inst))
            && (outcome.ready ==> r.ready && !r.hardBlocked)
            && (!r.hardBlocked ==> (inst in after.pendingClose
                                    <==> inst in store.pendingClose && !confirmed && after.TradesOf(inst) != []))
            && (r.hardBlocked ==> after.TradesOf(inst) == [] && after.LastSignalOf(inst) == None
                                  && (inst in after.pendingClose <==> store.TradesOf(inst) != []))
  {
    hide StoreV.TotalCount;
  }
}
