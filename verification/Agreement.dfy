/** The engine relies on slot `i` of the trade list and slot `i` of the ticket list being the same
    trade, and on the risk inventory holding their sum. Nothing in it checks this. */
module Agreement {
  import opened Common
  import opened TradeState
  import opened PositionTracker
  import opened Books

  ghost predicate SameTrade(trade: Trade, ticket: Ticket) {
    && trade.NetUnits() == ticket.units
    && ticket.units != 0
    && trade.entryPrice == ticket.entryPrice == ticket.tpsl.entryPrice
    && ticket.tpsl.direction == Sign(ticket.units)
  }

  /** Slot by slot the same trades, all on one side. */
  ghost predicate SameSlots(trades: seq<Trade>, tickets: seq<Ticket>) {
    && |trades| == |tickets|
    && (forall k :: 0 <= k < |trades| ==> SameTrade(trades[k], tickets[k]))
    && (forall k :: 0 <= k < |tickets| ==> Sign(tickets[k].units) == Sign(tickets[0].units))
  }

  ghost predicate InstAgrees(b: Books, inst: Inst) {
    && SameSlots(b.store.TradesOf(inst), b.tracker.TicketsOf(inst))
    && b.risk.NetUnits(inst) == b.tracker.NetUnits(inst)
  }

  /** The three books tell the same story about every instrument. */
  ghost predicate Agree(b: Books) {
    && b.store.WellFormed()
    && b.risk.WellFormed()
    && forall inst :: InstAgrees(b, inst)
  }

  /** Nothing on file about any instrument but `inst` differs. */
  ghost predicate OnlyTouches(b: Books, c: Books, inst: Inst) {
    && b.store.SameElsewhere(c.store, inst)
    && b.tracker.tickets - {inst} == c.tracker.tickets - {inst}
    && b.risk.positions - {inst} == c.risk.positions - {inst}
    && b.risk.exposure - {inst} == c.risk.exposure - {inst}
  }

  lemma OnlyTouchesNothing(b: Books, inst: Inst)
    ensures OnlyTouches(b, b, inst)
  {
  }

  /** Two steps that touch one instrument touch one instrument. */
  lemma OnlyTouchesChains(b: Books, c: Books, d: Books, inst: Inst)
    requires OnlyTouches(b, c, inst) && OnlyTouches(c, d, inst)
    ensures OnlyTouches(b, d, inst)
  {
  }

  lemma OthersKeepAgreeing(b: Books, c: Books, inst: Inst, other: Inst)
    requires OnlyTouches(b, c, inst) && other != inst && InstAgrees(b, other)
    ensures InstAgrees(c, other)
  {
    SameLookup(b.store.trades, c.store.trades, inst, other);
    SameLookup(b.tracker.tickets, c.tracker.tickets, inst, other);
    SameLookup(b.risk.positions, c.risk.positions, inst, other);
  }

  lemma SameLookup<V>(m: map<Inst, V>, n: map<Inst, V>, inst: Inst, other: Inst)
    requires m - {inst} == n - {inst} && other != inst
    ensures other in m <==> other in n
    ensures other in m ==> m[other] == n[other]
  {
    assert other in m <==> other in m - {inst};
    assert other in n <==> other in n - {inst};
    assert other in m ==> (m - {inst})[other] == (n - {inst})[other];
  }

  // ---------------------------------------------------------------- sums over slots

  lemma {:induction false} NetWithout(ts: seq<Ticket>, i: nat)
    requires i < |ts|
    ensures NetOfTickets(RemoveAt(ts, i)) == NetOfTickets(ts) - ts[i].units
  {
    var n := |ts| - 1;
    if i < n {
      NetWithout(ts[..n], i);
      assert RemoveAt(ts, i)[..n - 1] == RemoveAt(ts[..n], i);
    } else {
      assert RemoveAt(ts, i) == ts[..n];
    }
  }

  /** Tickets on one side cannot cancel out. */
  lemma {:induction false} OneSidedNet(ts: seq<Ticket>)
    requires ts != [] && ts[0].units != 0
    requires forall k :: 0 <= k < |ts| ==> Sign(ts[k].units) == Sign(ts[0].units)
    ensures Sign(NetOfTickets(ts)) == Sign(ts[0].units)
    ensures forall k :: 0 <= k < |ts| ==> Abs(ts[k].units) <= Abs(NetOfTickets(ts))
  {
    var n := |ts| - 1;
    if n > 0 {
      OneSidedNet(ts[..n]);
    } else {
      assert ts[..n] == [];
    }
  }

  lemma {:induction false} SameNet(trades: seq<Trade>, tickets: seq<Ticket>)
    requires |trades| == |tickets|
    requires forall k :: 0 <= k < |trades| ==> trades[k].NetUnits() == tickets[k].units
    ensures NetOfTrades(trades) == NetOfTickets(tickets)
  {
    if trades != [] {
      SameNet(trades[..|trades| - 1], tickets[..|tickets| - 1]);
    }
  }

  lemma SlotsHeldIffNet(trades: seq<Trade>, tickets: seq<Ticket>)
    requires SameSlots(trades, tickets)
    ensures NetOfTrades(trades) == NetOfTickets(tickets)
    ensures NetOfTickets(tickets) == 0 <==> tickets == []
  {
    SameNet(trades, tickets);
    if tickets != [] {
      OneSidedNet(tickets);
    }
  }

  lemma SlotsWithout(trades: seq<Trade>, tickets: seq<Ticket>, i: nat)
    requires SameSlots(trades, tickets) && i < |trades|
    ensures SameSlots(RemoveAt(trades, i), RemoveAt(tickets, i))
  {
  }

  // ---------------------------------------------------------------- touching one instrument

  /** What is left to show once only `inst` has been touched. */
  lemma AgreeFromOne(b: Books, c: Books, inst: Inst)
    requires Agree(b) && OnlyTouches(b, c, inst) && InstAgrees(c, inst)
    requires inst in c.store.trades ==> c.store.trades[inst] != []
    requires inst in c.store.lastSignal ==> c.store.lastSignal[inst] != ""
    requires c.risk.WellFormed()
    ensures Agree(c)
  {
    forall other | other != inst
      ensures InstAgrees(c, other)
    {
      OthersKeepAgreeing(b, c, inst, other);
    }
    forall other | other in c.store.trades
      ensures c.store.trades[other] != []
    {
      if other != inst {
        SameLookup(b.store.trades, c.store.trades, inst, other);
      }
    }
    forall other | other in c.store.lastSignal
      ensures c.store.lastSignal[other] != ""
    {
      if other != inst {
        SameLookup(b.store.lastSignal, c.store.lastSignal, inst, other);
      }
    }
  }

  lemma EmptyBooksAgree(costBps: real)
    ensures Agree(EmptyBooks(costBps))
  {
  }

  lemma MarkAgrees(b: Books, inst: Inst, price: real, high: real, low: real)
    requires Agree(b)
    ensures var c := b.(tracker := b.tracker.Mark(inst, price, high, low));
            Agree(c) && OnlyTouches(b, c, inst)
  {
    if inst in b.tracker.tickets {
      hide GrossUsd;
      var c := b.(tracker := b.tracker.Mark(inst, price, high, low));
      var trades, ts, us := b.store.TradesOf(inst), b.tracker.TicketsOf(inst), c.tracker.TicketsOf(inst);
      assert InstAgrees(b, inst);
      forall k | 0 <= k < |ts|
        ensures SameTrade(trades[k], us[k])
      {
        assert SameTrade(trades[k], ts[k]);
      }
      SameNet(trades, ts);
      SameNet(trades, us);
      AgreeFromOne(b, c, inst);
    }
  }

  lemma {:induction false} CloseAllEmpties(v: TrackerV, inst: Inst, c: Closing)
    ensures var w := v.CloseAll(inst, c);
            w.TicketsOf(inst) == [] && w.tickets - {inst} == v.tickets - {inst} && w.costBps == v.costBps
    decreases |v.TicketsOf(inst)|
  {
    if v.TicketsOf(inst) != [] {
      CloseAllEmpties(v.Close(inst, 0, c), inst, c);
    }
  }

  /** The hazard exit closes tickets alone: the books agree afterwards exactly when it had nothing to close. */
  lemma HazardExitSplits(b: Books, inst: Inst, c: Closing)
    requires InstAgrees(b, inst)
    ensures InstAgrees(b.(tracker := b.tracker.CloseAll(inst, c)), inst) <==> b.tracker.TicketsOf(inst) == []
  {
    CloseAllEmpties(b.tracker, inst, c);
  }
}
