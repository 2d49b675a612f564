/** What the ticket book earns, told in money flows: units times price moves, less a share of the value traded. */
module CashFlow {
  import opened Common
  import opened Pricing
  import opened Tpsl
  import opened PositionTracker
  import opened CashConservation
  import opened Flows

  lemma GrossIsEarned(t: Ticket, price: real)
    ensures Gross(t, price) == Earned(t.units, t.entryPrice, price)
  {
  }

  // ---------------------------------------------------------------- records and tickets

  function SignedUnits(record: TradeRecord): int {
    if record.direction > 0 then record.units else 0 - record.units
  }

  /** A record pays what its units earned less its commission, which is a fee at the entry and one at the exit. */
  ghost predicate RecordPays(record: TradeRecord, bps: real) {
    && record.direction != 0 && record.units > 0
    && IsWorth(record.instrument, record.pnl + record.commission,
               Earned(SignedUnits(record), record.entryPrice, record.exitPrice), record.exitPrice)
    && exists entryFee, exitFee :: TwoFees(record, entryFee, exitFee, bps)
  }

  predicate TwoFees(record: TradeRecord, entryFee: real, exitFee: real, bps: real) {
    && record.commission == entryFee + exitFee
    && IsFee(record.instrument, entryFee, record.units, record.entryPrice, bps)
    && IsFee(record.instrument, exitFee, record.units, record.exitPrice, bps)
  }

  predicate TicketPaid(inst: Inst, t: Ticket, bps: real) {
    t.units != 0 && IsFee(inst, t.entryCost, Abs(t.units), t.entryPrice, bps)
  }

  ghost predicate TicketsPaid(inst: Inst, ts: seq<Ticket>, bps: real) {
    forall k :: 0 <= k < |ts| ==> TicketPaid(inst, ts[k], bps)
  }

  ghost predicate LogPays(log: seq<TradeRecord>, bps: real) {
    forall k :: 0 <= k < |log| ==> RecordPays(log[k], bps)
  }

  ghost predicate Pays(v: TrackerV) {
    LogPays(v.log, v.costBps) && forall inst :: TicketsPaid(inst, v.TicketsOf(inst), v.costBps)
  }

  lemma RecordOfPays(inst: Inst, t: Ticket, c: Closing, bps: real)
    requires TicketPaid(inst, t, bps)
    ensures RecordPays(RecordOf(inst, t, c, bps), bps)
  {
    hide IsWorth, IsFee, ConvertToUsd, Commission, Gross;
    var record := RecordOf(inst, t, c, bps);
    CommissionIsFee(inst, c.price, Abs(t.units), bps);
    ConversionIsWorth(inst, Gross(t, c.price), c.price);
    GrossIsEarned(t, c.price);
    assert SignedUnits(record) == t.units;
    assert TwoFees(record, t.entryCost, ExitCost(inst, t, c.price, bps), bps);
  }

  lemma OpenPays(v: TrackerV, inst: Inst, units: int, price: real, time: Time, isBundle: bool)
    requires Pays(v)
    ensures Pays(v.Open(inst, units, price, time, isBundle))
  {
    hide IsFee, RecordPays, Commission;
    var w := v.Open(inst, units, price, time, isBundle);
    CommissionIsFee(inst, price, Abs(units), v.costBps);
    forall other
      ensures TicketsPaid(other, w.TicketsOf(other), w.costBps)
    {
      assert TicketsPaid(other, v.TicketsOf(other), v.costBps);
    }
  }

  lemma ClosePays(v: TrackerV, inst: Inst, i: int, c: Closing)
    requires Pays(v)
    ensures Pays(v.Close(inst, i, c))
  {
    hide IsFee, RecordPays, RecordOf, GrossUsd, ExitCost;
    var w := v.Close(inst, i, c);
    assert TicketsPaid(inst, v.TicketsOf(inst), v.costBps);
    forall other
      ensures TicketsPaid(other, w.TicketsOf(other), w.costBps)
    {
      assert TicketsPaid(other, v.TicketsOf(other), v.costBps);
    }
    if 0 <= i < |v.TicketsOf(inst)| {
      RecordOfPays(inst, v.TicketsOf(inst)[i], c, v.costBps);
    }
  }

  lemma {:induction false} CloseAllPays(v: TrackerV, inst: Inst, c: Closing)
    requires Pays(v)
    ensures Pays(v.CloseAll(inst, c))
    decreases |v.TicketsOf(inst)|
  {
    hide Pays;
    if v.TicketsOf(inst) != [] {
      ClosePays(v, inst, 0, c);
      CloseAllPays(v.Close(inst, 0, c), inst, c);
    }
  }

  /** Rewriting anything but units, entry and entry cost of tickets. */
  lemma RestatedPays(v: TrackerV, w: TrackerV, inst: Inst)
    requires Pays(v) && w == v.(tickets := v.tickets[inst := w.TicketsOf(inst)])
    requires |w.TicketsOf(inst)| == |v.TicketsOf(inst)|
    requires forall k :: 0 <= k < |v.TicketsOf(inst)| ==>
               var t, u := v.TicketsOf(inst)[k], w.TicketsOf(inst)[k];
               t.units == u.units && t.entryPrice == u.entryPrice && t.entryCost == u.entryCost
    ensures Pays(w)
  {
    hide RecordPays, IsFee;
    forall other
      ensures TicketsPaid(other, w.TicketsOf(other), w.costBps)
    {
      assert TicketsPaid(other, v.TicketsOf(other), v.costBps);
    }
  }

  lemma MarkPays(v: TrackerV, inst: Inst, price: real, high: real, low: real)
    requires Pays(v)
    ensures Pays(v.Mark(inst, price, high, low))
  {
    hide Pays, GrossUsd;
    if inst in v.tickets {
      RestatedPays(v, v.Mark(inst, price, high, low), inst);
    }
  }

  lemma SyncPays(v: TrackerV, inst: Inst, target: int, price: real, time: Time, isBundle: bool)
    requires Pays(v)
    ensures Pays(v.SyncToNet(inst, target, price, time, isBundle))
  {
    hide Pays, TrackerV.Open, TrackerV.CloseAll, TrackerV.NetUnits;
    var c := Closing(price, time, PositionSync, price);
    CloseAllPays(v, inst, c);
    OpenPays(v.CloseAll(inst, c), inst, target, price, time, isBundle);
    OpenPays(v, inst, target - v.NetUnits(inst), price, time, isBundle);
  }

  lemma {:induction false} EveryRunPays(costBps: real, ops: seq<Op>)
    ensures Pays(Run(EmptyTracker(costBps), ops))
  {
    hide Pays, TrackerV.Open, TrackerV.Close, TrackerV.CloseAll, TrackerV.Mark, TrackerV.SyncToNet;
    if ops == [] {
      NothingPays(costBps);
    } else {
      var n := |ops| - 1;
      EveryRunPays(costBps, ops[..n]);
      var v := Run(EmptyTracker(costBps), ops[..n]);
      match ops[n]
      case OpenOp(inst, units, price, time, isBundle) => OpenPays(v, inst, units, price, time, isBundle);
      case CloseOp(inst, i, c) => ClosePays(v, inst, i, c);
      case CloseAllOp(inst, c) => CloseAllPays(v, inst, c);
      case MarkOp(inst, price, high, low) => MarkPays(v, inst, price, high, low);
      case SyncOp(inst, target, price, time, isBundle) => SyncPays(v, inst, target, price, time, isBundle);
    }
  }

  lemma NothingPays(costBps: real)
    ensures Pays(EmptyTracker(costBps))
  {
  }

  // ---------------------------------------------------------------- the cash law

  function DollarsEarned(record: TradeRecord): real {
    Dollars(record.instrument, Earned(SignedUnits(record), record.entryPrice, record.exitPrice), record.exitPrice)
  }

  function CommissionOf(record: TradeRecord): real {
    record.commission
  }

  /** What open tickets would earn at `price`. */
  function DollarsOpen(inst: Inst, ts: seq<Ticket>, price: real): real {
    if ts == [] then 0.0
    else
      var last := ts[|ts| - 1];
      DollarsOpen(inst, ts[..|ts| - 1], price) + Dollars(inst, Earned(last.units, last.entryPrice, price), price)
  }

  lemma {:induction false} UnrealizedIsOpen(inst: Inst, ts: seq<Ticket>, price: real)
    ensures UnrealizedOf(inst, ts, price) == DollarsOpen(inst, ts, price)
  {
    hide ConvertToUsd, Gross, Earned, Dollars;
    if ts != [] {
      var n := |ts| - 1;
      UnrealizedIsOpen(inst, ts[..n], price);
      GrossIsEarned(ts[n], price);
      ConversionIsWorth(inst, Gross(ts[n], price), price);
      WorthIsDollars(inst, GrossUsd(inst, ts[n], price), Gross(ts[n], price), price);
    }
  }

  lemma {:induction false} LogEarned(log: seq<TradeRecord>, bps: real)
    requires LogPays(log, bps)
    ensures SumBy(log, Pnl) == SumBy(log, DollarsEarned) - SumBy(log, CommissionOf)
  {
    hide IsWorth, IsFee, Earned, Dollars;
    if log != [] {
      var n := |log| - 1;
      var record := log[n];
      assert RecordPays(record, bps);
      LogEarned(log[..n], bps);
      WorthIsDollars(record.instrument, record.pnl + record.commission,
                     Earned(SignedUnits(record), record.entryPrice, record.exitPrice), record.exitPrice);
    }
  }

  /** From an empty tracker, over any operations: realized cash is what the logged trades earned, less their
      commissions and those paid for open tickets; and open profit is what the open tickets would earn. */
  lemma CashLaw(costBps: real, ops: seq<Op>, inst: Inst, price: real)
    ensures var v := Run(EmptyTracker(costBps), ops);
            && v.realized == SumBy(v.log, DollarsEarned) - SumBy(v.log, CommissionOf) - OpenCosts(v)
            && v.Unrealized(inst, price) == DollarsOpen(inst, v.TicketsOf(inst), price)
  {
    hide Run, LogPays, TicketsPaid;
    var v := Run(EmptyTracker(costBps), ops);
    EveryRunPays(costBps, ops);
    EveryRunIsBalanced(costBps, ops);
    LogEarned(v.log, v.costBps);
    UnrealizedIsOpen(inst, v.TicketsOf(inst), price);
  }

  /** The record of a close says what was held, from when to when, in at which price, out at which price and why. */
  lemma RecordTellsTheClose(v: TrackerV, inst: Inst, i: int, c: Closing)
    requires v.Closable(inst, i)
    ensures var after, t, n := v.Close(inst, i, c), v.TicketsOf(inst)[i], |v.log|;
            && |after.log| == n + 1 && after.log[..n] == v.log
            && var record := after.log[n];
               && record.instrument == inst && SignedUnits(record) == t.units
               && record.entryTime == t.entryTime && record.exitTime == c.time
               && record.entryPrice == t.entryPrice && record.exitPrice == c.price
               && record.exitReason == c.reason && record.triggerPrice == c.trigger
               && (record.isBundle <==> t.isBundle)
               && after.TicketsOf(inst) == v.TicketsOf(inst)[..i] + v.TicketsOf(inst)[i + 1..]
               && forall other :: other != inst ==> after.TicketsOf(other) == v.TicketsOf(other)
  {
    hide GrossUsd, ExitCost;
  }

  // ---------------------------------------------------------------- the excursions of a ticket

  datatype Seen = Seen(price: real, high: real, low: real)

  function MarkedBy(inst: Inst, t: Ticket, seen: seq<Seen>): Ticket {
    if seen == [] then t
    else
      var last := seen[|seen| - 1];
      MarkOne(inst, MarkedBy(inst, t, seen[..|seen| - 1]), last.price, last.high, last.low)
  }

  function WouldEarn(inst: Inst, t: Ticket, price: real): real {
    Dollars(inst, Earned(t.units, t.entryPrice, price), price)
  }

  lemma GrossUsdIsWouldEarn(inst: Inst, t: Ticket, price: real)
    ensures GrossUsd(inst, t, price) == WouldEarn(inst, t, price)
  {
    hide ConvertToUsd, Gross, Earned, Dollars;
    GrossIsEarned(t, price);
    ConversionIsWorth(inst, Gross(t, price), price);
    WorthIsDollars(inst, GrossUsd(inst, t, price), Gross(t, price), price);
  }

  /** `x` is the best of zero and what the ticket would have earned at each of the prices seen. */
  ghost predicate IsBestEarning(inst: Inst, t: Ticket, seen: seq<Seen>, x: real) {
    && x >= 0.0 && (forall k :: 0 <= k < |seen| ==> WouldEarn(inst, t, seen[k].price) <= x)
    && (x == 0.0 || exists k :: 0 <= k < |seen| && WouldEarn(inst, t, seen[k].price) == x)
  }

  ghost predicate IsWorstEarning(inst: Inst, t: Ticket, seen: seq<Seen>, x: real) {
    && x <= 0.0 && (forall k :: 0 <= k < |seen| ==> x <= WouldEarn(inst, t, seen[k].price))
    && (x == 0.0 || exists k :: 0 <= k < |seen| && WouldEarn(inst, t, seen[k].price) == x)
  }

  /** After any marks a fresh ticket holds the best and the worst of what it would have earned. */
  lemma {:induction false} MarksKeepExtremes(inst: Inst, t: Ticket, seen: seq<Seen>)
    requires t.maxFavorable == t.maxAdverse == 0.0
    ensures var m := MarkedBy(inst, t, seen);
            && m.units == t.units && m.entryPrice == t.entryPrice
            && IsBestEarning(inst, t, seen, m.maxFavorable) && IsWorstEarning(inst, t, seen, m.maxAdverse)
  {
    hide Dollars, Earned, GrossUsd;
    if seen != [] {
      var n := |seen| - 1;
      var front := seen[..n];
      MarksKeepExtremes(inst, t, front);
      var before := MarkedBy(inst, t, front);
      GrossUsdIsWouldEarn(inst, before, seen[n].price);
      assert forall k :: 0 <= k < n ==> front[k] == seen[k];
    }
  }

  /** And that is what its record shows, as sizes. */
  lemma RecordShowsExtremes(inst: Inst, t: Ticket, seen: seq<Seen>, c: Closing, bps: real)
    requires t.maxFavorable == t.maxAdverse == 0.0
    ensures var record := RecordOf(inst, MarkedBy(inst, t, seen), c, bps);
            IsBestEarning(inst, t, seen, record.mfe) && IsWorstEarning(inst, t, seen, -record.mae)
  {
    hide IsBestEarning, IsWorstEarning, MarkedBy, Commission, ConvertToUsd;
    MarksKeepExtremes(inst, t, seen);
    ExtremeSigns(inst, t, seen);
  }

  lemma ExtremeSigns(inst: Inst, t: Ticket, seen: seq<Seen>)
    ensures forall x :: IsBestEarning(inst, t, seen, x) ==> x >= 0.0
    ensures forall x :: IsWorstEarning(inst, t, seen, x) ==> x <= 0.0
  {
  }

  /** The peak of the stop state is the best extreme seen in the trade's favour. */
  lemma {:induction false} MarksKeepPeak(inst: Inst, t: Ticket, seen: seq<Seen>)
    requires t.units != 0 && t.tpsl == Reset(t.entryPrice, Sign(t.units))
    ensures var m := MarkedBy(inst, t, seen);
            && m.units == t.units && m.tpsl == t.tpsl.(peakPrice := m.tpsl.peakPrice)
            && (t.units > 0 ==> t.entryPrice <= m.tpsl.peakPrice
                                && forall k :: 0 <= k < |seen| ==> seen[k].high <= m.tpsl.peakPrice)
            && (t.units < 0 ==> m.tpsl.peakPrice <= t.entryPrice
                                && forall k :: 0 <= k < |seen| ==> m.tpsl.peakPrice <= seen[k].low)
            && (m.tpsl.peakPrice == t.entryPrice
                || exists k :: 0 <= k < |seen|
                               && m.tpsl.peakPrice == if t.units > 0 then seen[k].high else seen[k].low)
  {
    hide GrossUsd;
    if seen != [] {
      var n := |seen| - 1;
      var front := seen[..n];
      MarksKeepPeak(inst, t, front);
      assert forall k :: 0 <= k < n ==> front[k] == seen[k];
    }
  }
}
