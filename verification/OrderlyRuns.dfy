/** Runs that cannot split the books: every allocation names a price and every executed order is filled in full. */
module OrderlyRuns {
  import opened Common
  import opened Tpsl
  import opened TradeState
  import opened PositionTracker
  import opened RiskLimits
  import opened Books
  import opened Agreement
  import opened ExitAgreement
  import opened OrderAgreement
  import opened RunAgreement

  predicate AllPriced(trades: seq<Trade>) {
    forall k :: 0 <= k < |trades| ==> trades[k].entryPrice != 0.0
  }

  /** No trade on file was entered at zero. */
  ghost predicate Priced(store: StoreV) {
    forall inst :: AllPriced(store.TradesOf(inst))
  }

  lemma PricedFromOne(before: StoreV, after: StoreV, inst: Inst)
    requires Priced(before) && before.SameElsewhere(after, inst) && AllPriced(after.TradesOf(inst))
    ensures Priced(after)
  {
    forall other | other != inst
      ensures after.TradesOf(other) == before.TradesOf(other)
    {
      SameLookup(before.trades, after.trades, inst, other);
    }
  }

  /** Closing slots enters no trade. */
  lemma {:induction false} CloseDownKeepsPriced(s: Sweep, venue: Venue, inst: Inst, exits: seq<Option<Exit>>,
                                                time: Time, n: nat)
    requires n <= |exits| && AllPriced(s.trades)
    ensures AllPriced(CloseDown(s, venue, inst, exits, time, n).trades)
    decreases n
  {
    hide VenueClose;
    if n > 0 {
      var i := n - 1;
      if exits[i].Some? && i < |s.trades| {
        var exit := exits[i].value;
        var (books, ok) := VenueClose(s.books, venue, inst, i, Closing(exit.price, time, exit.reason, exit.price));
        var next := if ok then Sweep(books, RemoveAt(s.trades, i), true, false) else s.(books := books);
        CloseDownKeepsPriced(next, venue, inst, exits, time, i);
      } else {
        CloseDownKeepsPriced(s, venue, inst, exits, time, i);
      }
    }
  }

  lemma TpslPassKeepsPriced(b: Books, venue: Venue, inst: Inst, high: real, low: real, time: Time, cfg: TpslConfig,
                            scalping: bool)
    requires AllPriced(b.store.TradesOf(inst))
    ensures AllPriced(TpslPass(b, venue, inst, high, low, time, cfg, scalping).0.store.TradesOf(inst))
  {
    hide CloseDown, IntraCandle, RiskV.RecordFill, RiskV.Flatten, NetOfTickets, LowestExitPrice;
    var exits := ExitsOf(b.tracker.TicketsOf(inst), high, low, cfg, scalping);
    var start := Sweep(Checked(b, inst, high, low, cfg, scalping), b.store.TradesOf(inst), false, false);
    CloseDownKeepsPriced(start, venue, inst, exits, time, |exits|);
    CloseDownKeepsStore(start, venue, inst, exits, time, |exits|);
  }

  lemma ExpiryPassKeepsPriced(b: Books, venue: Venue, inst: Inst, price: real, time: Time, tickSecs: int)
    requires AllPriced(b.store.TradesOf(inst))
    ensures AllPriced(ExpiryPass(b, venue, inst, price, time, tickSecs).0.store.TradesOf(inst))
  {
    hide CloseDown, RiskV.RecordFill, RiskV.Flatten, NetOfTickets;
    var aged := AgeAll(b.store.TradesOf(inst), tickSecs);
    var exits := ExpiriesOf(aged, price);
    CloseDownKeepsPriced(Sweep(b, aged, false, false), venue, inst, exits, time, |exits|);
    CloseDownKeepsStore(Sweep(b, aged, false, false), venue, inst, exits, time, |exits|);
  }

  lemma PlanKeepsPriced(store: StoreV, limits: Limits, inst: Inst, current: int, r: Request)
    requires AllPriced(store.TradesOf(inst)) && r.price != 0.0
    ensures AllPriced(Plan(store, limits, inst, current, r).0.TradesOf(inst))
  {
    hide Appends, NetOfTrades;
  }

  lemma TransactKeepsPriced(b: Books, limits: Limits, inst: Inst, r: Request, order: Answer)
    requires b.store.WellFormed() && AllPriced(b.store.TradesOf(inst)) && r.price != 0.0
    ensures AllPriced(Transact(b, limits, inst, r, order).store.TradesOf(inst))
  {
    hide Plan, AllPriced, RiskV.CanAdd, RiskV.RecordFill, TrackerV.SyncToNet, StoreV.Restore;
    if Refused(b, limits, inst, r, order) {
      RefusalLeavesNoTrace(b, limits, inst, r, order);
    } else {
      PlanKeepsPriced(b.store, limits, inst, b.risk.NetUnits(inst), r);
    }
  }

  ghost predicate NamesPrice(e: Event) {
    e.Allocation? ==> e.request.price != 0.0
  }

  lemma StepKeepsPriced(b: Books, e: Event)
    requires Agree(b) && Priced(b.store) && NamesPrice(e)
    ensures Priced(Step(b, e).store)
  {
    hide TpslPass, ExpiryPass, Transact, InstAgrees, AllPriced, TrackerV.Mark, RiskV.WellFormed, ZeroExpires,
         FillsInPart;
    assert AllPriced(b.store.TradesOf(e.inst));
    StepAgrees(b, e);
    match e
    case TpslCheck(inst, venue, high, low, time, cfg, scalping) =>
      TpslPassKeepsPriced(b, venue, inst, high, low, time, cfg, scalping);
      PricedFromOne(b.store, Step(b, e).store, inst);
    case ExpiryCheck(inst, venue, price, time, tickSecs) =>
      ExpiryPassKeepsPriced(b, venue, inst, price, time, tickSecs);
      PricedFromOne(b.store, Step(b, e).store, inst);
    case Allocation(inst, limits, r, w, tickSecs) =>
      ExpiryPassKeepsPriced(b, w.venue, inst, r.price, r.now, tickSecs);
      ExpiryKeepsWellFormed(b, w.venue, inst, r.price, r.now, tickSecs);
      var expired := ExpiryPass(b, w.venue, inst, r.price, r.now, tickSecs).0;
      TransactKeepsPriced(expired, limits, inst, Gated(r, w.blocked), w.order);
      PricedFromOne(b.store, Step(b, e).store, inst);
    case MarkPrices(inst, price, high, low) =>
  }

  /** A priced book has nothing that could expire at zero. */
  lemma PricedNeverSplits(b: Books, e: Event)
    requires Priced(b.store) && (e.Allocation? ==> !FillsInPart(b, e))
    ensures !Splits(b, e)
  {
    hide FillsInPart;
    assert AllPriced(b.store.TradesOf(e.inst));
  }

  /** Every allocation names a price, and every order of the run that is executed at all is filled in full. */
  ghost predicate Orderly(b: Books, events: seq<Event>) {
    && (forall n :: 0 <= n < |events| ==> NamesPrice(events[n]))
    && (forall n :: 0 <= n < |events| && events[n].Allocation? ==> !FillsInPart(Run(b, events[..n]), events[n]))
  }

  /** In every state an orderly run from agreeing, priced books can reach, the books agree. */
  lemma {:induction false} OrderlyRunAgrees(b: Books, events: seq<Event>)
    requires Agree(b) && Priced(b.store) && Orderly(b, events)
    ensures Agree(Run(b, events)) && Priced(Run(b, events).store)
  {
    hide Step, Agree, Splits, FillsInPart, Priced;
    if events != [] {
      var n := |events| - 1;
      var before := events[..n];
      assert forall k :: 0 <= k < n ==> events[..k] == before[..k];
      OrderlyRunAgrees(b, before);
      PricedNeverSplits(Run(b, before), events[n]);
      StepAgrees(Run(b, before), events[n]);
      StepKeepsPriced(Run(b, before), events[n]);
    }
  }

  /** In particular from empty books. */
  lemma EveryRunAgrees(costBps: real, events: seq<Event>)
    requires Orderly(EmptyBooks(costBps), events)
    ensures Agree(Run(EmptyBooks(costBps), events)) && Priced(Run(EmptyBooks(costBps), events).store)
  {
    hide Agree, Priced, Run;
    EmptyBooksAgree(costBps);
    NothingIsPriced(costBps);
    OrderlyRunAgrees(EmptyBooks(costBps), events);
  }

  lemma NothingIsPriced(costBps: real)
    ensures Priced(EmptyBooks(costBps).store)
  {
  }

  // ---------------------------------------------------------------- concrete failures

  const EURO: Inst := "EUR_USD"

  /** One unit held long, entered at `price` at time zero and to be held for a minute. */
  function OneUnit(price: real): Books {
    Books(StoreV(map[EURO := [Trade(1, 1, 0, 60, None, 0, price)]], {}, map[]),
          TrackerV(map[EURO := [Ticket(1, price, 0, 0.0, false, Reset(price, 1), 0.0, 0.0)]], 0.0, [], 0.0),
          RiskV(map[EURO := 1], map[EURO := price]))
  }

  lemma OneUnitAgrees(price: real)
    ensures Agree(OneUnit(price))
  {
    var b := OneUnit(price);
    var trades, tickets := b.store.TradesOf(EURO), b.tracker.TicketsOf(EURO);
    assert tickets[..0] == [];
    assert NetOfTickets(tickets) == 1;
    assert SameTrade(trades[0], tickets[0]);
  }

  /** A unit on file at a price of zero, as a reconcile leaves it for a position without a price: its minute
      over, the expiry pass closes the ticket and raises before the trade is taken off the list. */
  lemma ZeroPriceExpirySplits()
    ensures Agree(OneUnit(0.0))
    ensures var (c, ending) := ExpiryPass(OneUnit(0.0), Simulated, EURO, 1.0, 60000, 60);
            ending.Aborted? && !InstAgrees(c, EURO)
  {
    OneUnitAgrees(0.0);
    assert ExpiresAtZero(OneUnit(0.0).store.TradesOf(EURO)[0], 60);
    ExpirySweepSplits(OneUnit(0.0), Simulated, EURO, 1.0, 60000, 60);
  }

  /** A unit held long, and a hazard exit that sells the ticket alone. */
  lemma HazardExitSplitsOneUnit(c: Closing)
    ensures Agree(OneUnit(1.0))
    ensures var b := OneUnit(1.0); !InstAgrees(b.(tracker := b.tracker.CloseAll(EURO, c)), EURO)
  {
    OneUnitAgrees(1.0);
    HazardExitSplits(OneUnit(1.0), EURO, c);
  }

  /** Two more units asked for, one filled. */
  const MORE: Request := Request(1000, true, 1, 2, 60, "", false, 1.0, false, false)
  const WIDE: Limits := Limits(0.0, 0.0, 0, 0, 0, None)

  lemma HalfFilledOrderSplits()
    ensures Agree(OneUnit(1.0))
    ensures !InstAgrees(Transact(OneUnit(1.0), WIDE, EURO, MORE, Filled(None, Some(1))), EURO)
  {
    hide TrackerV.SyncToNet, Total;
    var b, order := OneUnit(1.0), Filled(None, Some(1));
    OneUnitAgrees(1.0);
    var trades := b.store.TradesOf(EURO);
    assert trades[..0] == [] && NetOfTrades(trades) == 1;
    assert Appends(b.store, WIDE, EURO, MORE);
    AppendOrders(b, WIDE, EURO, MORE);
    assert !Refused(b, WIDE, EURO, MORE, order);
    PartialFillSplits(b, WIDE, EURO, MORE, order);
  }
}
