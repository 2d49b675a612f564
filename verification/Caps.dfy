/** No run takes the engine past its caps on stacks, trades, instruments and units, whatever the broker refuses
    and whatever raises, as long as the limits in force are never looser than the caps. */
module Caps {
  import opened Common
  import opened Tpsl
  import opened TradeState
  import opened PositionTracker
  import opened RiskLimits
  import opened Books
  import opened Agreement
  import opened ExitAgreement
  import opened OrderAgreement
  import opened RunAgreement

  /** The caps on how many trades are open. */
  ghost predicate WithinTradeCaps(store: StoreV, limits: Limits) {
    && (limits.maxPositionsPerPair > 0 ==> forall inst :: |store.TradesOf(inst)| <= limits.maxPositionsPerPair)
    && (limits.maxTotalPositions > 0 ==> store.TotalCount() <= limits.maxTotalPositions as real)
  }

  /** The caps on what the risk inventory holds. */
  ghost predicate WithinInventoryCaps(risk: RiskV, limits: Limits) {
    && |risk.positions| <= Max(0, limits.maxTotalPositions)
    && (limits.maxNetUnitsPerPair != 0 ==>
          forall inst :: risk.NetUnits(inst) != 0 ==> Abs(risk.NetUnits(inst)) <= limits.maxNetUnitsPerPair)
    && (limits.maxTotalUnits.Some? ==>
      risk.positions == map[] || risk.TotalUnits() <= limits.maxTotalUnits.value as real)
  }

  ghost predicate WithinCaps(b: Books, limits: Limits) {
    WithinTradeCaps(b.store, limits) && WithinInventoryCaps(b.risk, limits)
  }

  /** Every cap of `caps` is one of `limits` too, and no looser there. */
  predicate NoLooser(limits: Limits, caps: Limits) {
    && (caps.maxPositionsPerPair > 0 ==> 0 < limits.maxPositionsPerPair <= caps.maxPositionsPerPair)
    && limits.maxTotalPositions <= caps.maxTotalPositions
    && (caps.maxTotalPositions > 0 ==> 0 < limits.maxTotalPositions)
    && (caps.maxNetUnitsPerPair != 0 ==>
      limits.maxNetUnitsPerPair != 0 && limits.maxNetUnitsPerPair <= caps.maxNetUnitsPerPair)
    && (caps.maxTotalUnits.Some? ==>
      limits.maxTotalUnits.Some? && limits.maxTotalUnits.value <= caps.maxTotalUnits.value)
  }

  // ---------------------------------------------------------------- totals after touching one instrument

  lemma CountsDifferAtOne(s: StoreV, t: StoreV, inst: Inst)
    requires s.SameElsewhere(t, inst)
    ensures t.TotalCount() == s.TotalCount() - |s.TradesOf(inst)| as real + |t.TradesOf(inst)| as real
    ensures forall other :: other != inst ==> t.TradesOf(other) == s.TradesOf(other)
  {
    var m, n := s.Counts(), t.Counts();
    forall i | i != inst
      ensures i in m <==> i in n
      ensures i in m ==> m[i] == n[i]
      ensures t.TradesOf(i) == s.TradesOf(i)
    {
      SameLookup(s.trades, t.trades, inst, i);
    }
    assert m - {inst} == n - {inst};
    TotalDiffersAt(m, n, inst);
  }

  lemma UnitsDifferAtOne(r: RiskV, t: RiskV, inst: Inst)
    requires r.positions - {inst} == t.positions - {inst}
    ensures t.TotalUnits() == r.TotalUnits() - Abs(r.NetUnits(inst)) as real + Abs(t.NetUnits(inst)) as real
  {
    var m, n := r.AbsPositions(), t.AbsPositions();
    forall i | i != inst
      ensures i in m <==> i in n
      ensures i in m ==> m[i] == n[i]
    {
      SameLookup(r.positions, t.positions, inst, i);
    }
    assert m - {inst} == n - {inst};
    TotalDiffersAt(m, n, inst);
  }

  lemma PositionsDifferAtOne(r: RiskV, t: RiskV, inst: Inst)
    requires r.positions - {inst} == t.positions - {inst}
    ensures |t.positions| ==
            |r.positions| - (if inst in r.positions then 1 else 0) + (if inst in t.positions then 1 else 0)
    ensures forall other :: other != inst ==> t.NetUnits(other) == r.NetUnits(other)
  {
    forall i | i != inst
      ensures t.NetUnits(i) == r.NetUnits(i)
    {
      SameLookup(r.positions, t.positions, inst, i);
    }
    SizeWithout(r.positions, inst);
    SizeWithout(t.positions, inst);
  }

  lemma SizeWithout<V>(m: map<Inst, V>, k: Inst)
    ensures |m - {k}| == |m| - (if k in m then 1 else 0)
  {
    assert (m - {k}).Keys == m.Keys - {k};
    assert |m.Keys| == |m| && |(m - {k}).Keys| == |m - {k}|;
  }

  // ---------------------------------------------------------------- shrinking an instrument

  /** `c` holds no more than `b` of one instrument and the same of the others. */
  ghost predicate Shrinks(b: Books, c: Books, inst: Inst) {
    && OnlyTouches(b, c, inst)
    && |c.store.TradesOf(inst)| <= |b.store.TradesOf(inst)|
    && Abs(c.risk.NetUnits(inst)) <= Abs(b.risk.NetUnits(inst))
  }

  lemma ShrinkingStaysWithinCaps(b: Books, c: Books, caps: Limits, inst: Inst)
    requires b.risk.WellFormed() && c.risk.WellFormed() && Shrinks(b, c, inst) && WithinCaps(b, caps)
    ensures WithinCaps(c, caps)
  {
    hide StoreV.SameElsewhere, StoreV.TotalCount, RiskV.TotalUnits;
    CountsDifferAtOne(b.store, c.store, inst);
    UnitsDifferAtOne(b.risk, c.risk, inst);
    PositionsDifferAtOne(b.risk, c.risk, inst);
    if b.risk.positions == map[] {
      forall i | i in c.risk.positions
        ensures false
      {
        SameLookup(b.risk.positions, c.risk.positions, inst, i);
      }
    }
  }

  // ---------------------------------------------------------------- tickets backed by the inventory

  ghost predicate Sided(ts: seq<Ticket>) {
    forall k :: 0 <= k < |ts| ==> ts[k].units != 0 && Sign(ts[k].units) == Sign(ts[0].units)
  }

  /** The tickets are on one side, and the inventory holds at least as much on that side. Unlike agreement,
      this survives exceptions. */
  ghost predicate InstBacked(b: Books, inst: Inst) {
    var ts, net := b.tracker.TicketsOf(inst), b.risk.NetUnits(inst);
    Sided(ts) && (ts != [] ==> Sign(net) == Sign(ts[0].units) && Abs(NetOfTickets(ts)) <= Abs(net))
  }

  ghost predicate Backed(b: Books) {
    b.store.WellFormed() && b.risk.WellFormed() && forall inst :: InstBacked(b, inst)
  }

  lemma BackedFromOne(b: Books, c: Books, inst: Inst)
    requires Backed(b) && OnlyTouches(b, c, inst) && InstBacked(c, inst)
    requires c.store.WellFormed() && c.risk.WellFormed()
    ensures Backed(c)
  {
    forall other | other != inst
      ensures InstBacked(c, other)
    {
      SameLookup(b.tracker.tickets, c.tracker.tickets, inst, other);
      SameLookup(b.risk.positions, c.risk.positions, inst, other);
      assert InstBacked(b, other);
    }
  }

  /** Closing `units` fills some of them, and nothing else. */
  predicate SaneFill(filled: int, units: int) {
    if units > 0 then -units <= filled <= 0 else 0 <= filled <= -units
  }

  /** No close below slot `n` is answered with more than was asked for, or with the other side. */
  ghost predicate SaneCloses(venue: Venue, ts: seq<Ticket>, n: nat) {
    venue.Live? ==> forall i :: 0 <= i < n && i < |ts| && venue.closeAnswers(i).Filled? ==>
      SaneFill(venue.closeAnswers(i).units.GetOr(-ts[i].units), ts[i].units)
  }

  /** Taking a ticket out of a backed list, with a sane fill against the inventory, leaves the list backed. */
  lemma OneFewerStaysBacked(ts: seq<Ticket>, i: nat, net: int, filled: int)
    requires i < |ts| && Sided(ts) && SaneFill(filled, ts[i].units)
    requires Sign(net) == Sign(ts[0].units) && Abs(NetOfTickets(ts)) <= Abs(net)
    ensures var rest, left := RemoveAt(ts, i), net + filled;
            && Sided(rest) && Abs(left) <= Abs(net)
            && (rest != [] ==> Sign(left) == Sign(rest[0].units) && Abs(NetOfTickets(rest)) <= Abs(left))
  {
    hide NetOfTickets;
    NetWithout(ts, i);
    OneSidedNet(ts);
    var rest := RemoveAt(ts, i);
    if rest != [] {
      assert rest[0] == (if i == 0 then ts[1] else ts[0]);
      OneSidedNet(rest);
    }
  }

  lemma NothingIsSane(units: int)
    ensures SaneFill(0, units)
  {
  }

  /** What a close that goes through does to the two books. */
  lemma VenueCloseShape(b: Books, venue: Venue, inst: Inst, i: nat, c: Closing)
    requires Sided(b.tracker.TicketsOf(inst))
    ensures var ts := b.tracker.TicketsOf(inst);
            var (d, ok) := VenueClose(b, venue, inst, i, c);
            && (ok ==> i < |ts| && d.tracker.TicketsOf(inst) == RemoveAt(ts, i) && d.store == b.store
                       && d.tracker.tickets - {inst} == b.tracker.tickets - {inst})
            && (!ok ==> d == b)
            && (ok && venue.Simulated? ==> d.risk == b.risk)
            && (ok && venue.Live? ==>
                  venue.closeAnswers(i).Filled?
                  && d.risk == b.risk.RecordFill(inst, venue.closeAnswers(i).units.GetOr(-ts[i].units),
                                                 Some(FillPrice(venue.closeAnswers(i).price, c.price))))
  {
    hide GrossUsd, ExitCost, RecordOf, RiskV.RecordFill, FillPrice;
  }

  /** One ticket fewer, and the inventory down by no more than it. */
  lemma CloseOneStaysBacked(b: Books, venue: Venue, inst: Inst, i: nat, c: Closing)
    requires InstBacked(b, inst) && b.risk.WellFormed() && SaneCloses(venue, b.tracker.TicketsOf(inst), i + 1)
    ensures var d := VenueClose(b, venue, inst, i, c).0;
            && InstBacked(d, inst) && d.risk.WellFormed() && d.store == b.store && OnlyTouches(b, d, inst)
            && Abs(d.risk.NetUnits(inst)) <= Abs(b.risk.NetUnits(inst))
            && SaneCloses(venue, d.tracker.TicketsOf(inst), i)
  {
    hide VenueClose, NetOfTickets, SaneFill, Sided, FillPrice, RiskV.RecordFill, RiskV.NetUnits, RiskV.WellFormed;
    var ts, net := b.tracker.TicketsOf(inst), b.risk.NetUnits(inst);
    VenueCloseShape(b, venue, inst, i, c);
    var (d, ok) := VenueClose(b, venue, inst, i, c);
    if ok {
      NothingIsSane(ts[i].units);
      var answer := if venue.Live? then venue.closeAnswers(i) else Rejected;
      var filled := if answer.Filled? then answer.units.GetOr(-ts[i].units) else 0;
      OneFewerStaysBacked(ts, i, net, filled);
      if venue.Live? {
        FillTouchesOne(b.risk, inst, filled, Some(FillPrice(answer.price, c.price)));
      }
    }
  }

  lemma {:induction false} CloseDownStaysBacked(s: Sweep, venue: Venue, inst: Inst, exits: seq<Option<Exit>>,
                                                time: Time, n: nat)
    requires n <= |exits| && InstBacked(s.books, inst) && s.books.risk.WellFormed()
    requires SaneCloses(venue, s.books.tracker.TicketsOf(inst), n)
    ensures var t := CloseDown(s, venue, inst, exits, time, n);
            && InstBacked(t.books, inst) && t.books.risk.WellFormed() && t.books.store == s.books.store
            && OnlyTouches(s.books, t.books, inst) && |t.trades| <= |s.trades|
            && Abs(t.books.risk.NetUnits(inst)) <= Abs(s.books.risk.NetUnits(inst))
    decreases n
  {
    hide VenueClose, InstBacked, OnlyTouches, RiskV.WellFormed, RiskV.NetUnits;
    if n == 0 {
      OnlyTouchesNothing(s.books, inst);
    } else {
      var i := n - 1;
      if exits[i].Some? && i < |s.trades| {
        var exit := exits[i].value;
        var closing := Closing(exit.price, time, exit.reason, exit.price);
        CloseOneStaysBacked(s.books, venue, inst, i, closing);
        var (books, ok) := VenueClose(s.books, venue, inst, i, closing);
        var next := if ok then Sweep(books, RemoveAt(s.trades, i), true, false) else s.(books := books);
        CloseDownStaysBacked(next, venue, inst, exits, time, i);
        OnlyTouchesChains(s.books, books, CloseDown(next, venue, inst, exits, time, i).books, inst);
      } else {
        CloseDownStaysBacked(s, venue, inst, exits, time, i);
      }
    }
  }

  lemma SyncRiskStaysBacked(b: Books, venue: Venue, inst: Inst, price: real, fallback: real)
    requires InstBacked(b, inst) && b.risk.WellFormed()
    ensures var c := SyncRisk(b, venue, inst, price, fallback);
            && InstBacked(c, inst) && c.risk.WellFormed() && c.store == b.store && OnlyTouches(b, c, inst)
            && Abs(c.risk.NetUnits(inst)) <= Abs(b.risk.NetUnits(inst))
  {
    hide NetOfTickets;
    var ts := b.tracker.TicketsOf(inst);
    SyncRiskAgrees(b, venue, inst, price, fallback);
    if ts != [] {
      OneSidedNet(ts);
    } else {
      NothingNets();
    }
    hide SyncRisk;
  }

  lemma NothingNets()
    ensures NetOfTickets([]) == 0
  {
  }

  /** Storing what a sweep left and syncing the inventory. */
  lemma FinishedSweepShrinks(b: Books, s: Sweep, venue: Venue, inst: Inst, price: real, fallback: real)
    requires b.store.WellFormed() && s.books.store == b.store && OnlyTouches(b, s.books, inst)
    requires InstBacked(s.books, inst) && s.books.risk.WellFormed()
    requires |s.trades| <= |b.store.TradesOf(inst)|
    requires Abs(s.books.risk.NetUnits(inst)) <= Abs(b.risk.NetUnits(inst))
    ensures var stored := s.books.(store := StoreTrades(s.books.store, inst, s.trades));
            var c := SyncRisk(stored, venue, inst, price, fallback);
            Shrinks(b, c, inst) && InstBacked(c, inst) && c.risk.WellFormed() && c.store.WellFormed()
  {
    hide SyncRisk, Sided, NetOfTickets, RiskV.WellFormed, RiskV.NetUnits;
    var stored := s.books.(store := StoreTrades(s.books.store, inst, s.trades));
    SyncRiskStaysBacked(stored, venue, inst, price, fallback);
    OnlyTouchesChains(b, stored, SyncRisk(stored, venue, inst, price, fallback), inst);
  }

  lemma CheckedStaysBacked(b: Books, inst: Inst, high: real, low: real, cfg: TpslConfig, scalping: bool)
    requires InstBacked(b, inst)
    ensures var c := Checked(b, inst, high, low, cfg, scalping);
            && InstBacked(c, inst) && OnlyTouches(b, c, inst)
            && |c.tracker.TicketsOf(inst)| == |b.tracker.TicketsOf(inst)|
            && forall k :: 0 <= k < |c.tracker.TicketsOf(inst)| ==>
                 c.tracker.TicketsOf(inst)[k].units == b.tracker.TicketsOf(inst)[k].units
  {
    hide IntraCandle;
    RestatedNet(b.tracker.TicketsOf(inst), Checked(b, inst, high, low, cfg, scalping).tracker.TicketsOf(inst));
  }

  lemma {:induction false} RestatedNet(ts: seq<Ticket>, us: seq<Ticket>)
    requires |ts| == |us| && forall k :: 0 <= k < |ts| ==> ts[k].units == us[k].units
    ensures NetOfTickets(ts) == NetOfTickets(us)
  {
    if ts != [] {
      RestatedNet(ts[..|ts| - 1], us[..|us| - 1]);
    }
  }

  /** Exits, partial and interrupted ones included, only take away. */
  lemma TpslPassShrinks(b: Books, venue: Venue, inst: Inst, high: real, low: real, time: Time, cfg: TpslConfig,
                        scalping: bool)
    requires Backed(b) && SaneCloses(venue, b.tracker.TicketsOf(inst), |b.tracker.TicketsOf(inst)|)
    ensures var c := TpslPass(b, venue, inst, high, low, time, cfg, scalping).0;
            Shrinks(b, c, inst) && Backed(c)
  {
    hide CloseDown, IntraCandle, Checked, SyncRisk, InstBacked, RiskV.WellFormed, RiskV.NetUnits, StoreV.WellFormed,
         OnlyTouches, StoreV.Replace, StoreV.Remove, LowestExitPrice;
    assert InstBacked(b, inst);
    CheckedStaysBacked(b, inst, high, low, cfg, scalping);
    var checked := Checked(b, inst, high, low, cfg, scalping);
    CheckedKeepsTheRest(b, inst, high, low, cfg, scalping);
    OnlyTouchesNothing(b, inst);
    var exits := ExitsOf(b.tracker.TicketsOf(inst), high, low, cfg, scalping);
    var start := Sweep(checked, b.store.TradesOf(inst), false, false);
    CloseDownStaysBacked(start, venue, inst, exits, time, |exits|);
    var s := CloseDown(start, venue, inst, exits, time, |exits|);
    OnlyTouchesChains(b, checked, s.books, inst);
    var left, price := s.books.tracker.TicketsOf(inst), LowestExitPrice(exits);
    FinishedSweepShrinks(b, s, venue, inst, price, if left != [] then left[0].entryPrice else price);
    BackedFromOne(b, TpslPass(b, venue, inst, high, low, time, cfg, scalping).0, inst);
  }

  lemma CheckedKeepsTheRest(b: Books, inst: Inst, high: real, low: real, cfg: TpslConfig, scalping: bool)
    ensures var c := Checked(b, inst, high, low, cfg, scalping); c.store == b.store && c.risk == b.risk
  {
  }

  /** So do expiries, whether or not one of them raises. */
  lemma ExpiryPassShrinks(b: Books, venue: Venue, inst: Inst, price: real, time: Time, tickSecs: int)
    requires Backed(b) && SaneCloses(venue, b.tracker.TicketsOf(inst), |b.store.TradesOf(inst)|)
    ensures var c := ExpiryPass(b, venue, inst, price, time, tickSecs).0;
            Shrinks(b, c, inst) && Backed(c)
  {
    hide CloseDown, SyncRisk, InstBacked, RiskV.WellFormed, RiskV.NetUnits, OnlyTouches, StoreTrades;
    assert InstBacked(b, inst);
    OnlyTouchesNothing(b, inst);
    var aged := AgeAll(b.store.TradesOf(inst), tickSecs);
    AgingTouchesOne(b, inst, aged);
    var exits := ExpiriesOf(aged, price);
    var start := Sweep(b, aged, false, false);
    CloseDownStaysBacked(start, venue, inst, exits, time, |exits|);
    var s := CloseDown(start, venue, inst, exits, time, |exits|);
    FinishedSweepShrinks(b, s, venue, inst, price, price);
    BackedFromOne(b, ExpiryPass(b, venue, inst, price, time, tickSecs).0, inst);
  }

  lemma AgingTouchesOne(b: Books, inst: Inst, aged: seq<Trade>)
    requires Backed(b)
    ensures var c := b.(store := b.store.Replace(inst, aged));
            OnlyTouches(b, c, inst) && InstBacked(c, inst) && c.store.WellFormed()
  {
    assert InstBacked(b, inst);
  }

  // ---------------------------------------------------------------- growing an instrument

  lemma CountIsWhole(store: StoreV) returns (count: int)
    ensures store.TotalCount() == count as real
  {
    var lengths: map<Inst, int> := map i | i in store.trades :: |store.trades[i]|;
    count := TotalOfWholeNumbers(store.Counts(), lengths);
  }

  lemma PlanCounts(store: StoreV, limits: Limits, inst: Inst, current: int, r: Request)
    ensures var after := Plan(store, limits, inst, current, r).0;
            |after.TradesOf(inst)| <= |store.TradesOf(inst)|
            || (Appends(store, limits, inst, r) && |after.TradesOf(inst)| == |store.TradesOf(inst)| + 1)
  {
    hide NetOfTrades, StoreV.TotalCount, Admits;
  }

  /** Whatever the plan does to the store, it fits under the trade caps. */
  lemma PlanStaysWithinTradeCaps(store: StoreV, limits: Limits, caps: Limits, inst: Inst, current: int, r: Request)
    requires WithinTradeCaps(store, caps) && NoLooser(limits, caps)
    ensures WithinTradeCaps(Plan(store, limits, inst, current, r).0, caps)
  {
    hide Plan, StoreV.TotalCount, StoreV.SameElsewhere, Admits, StoreV.TradesOf, StoreV.LastSignalOf;
    var after := Plan(store, limits, inst, current, r).0;
    PlanTouchesOne(store, limits, inst, current, r);
    CountsDifferAtOne(store, after, inst);
    PlanCounts(store, limits, inst, current, r);
    var count := CountIsWhole(store);
    assert caps.maxTotalPositions > 0 && Appends(store, limits, inst, r) ==> count + 1 <= caps.maxTotalPositions;
  }

  lemma PlanKeepsWellFormed(store: StoreV, limits: Limits, inst: Inst, current: int, r: Request)
    requires store.WellFormed()
    ensures Plan(store, limits, inst, current, r).0.WellFormed()
  {
    hide NetOfTrades, Appends;
  }

  /** Whatever the guard approves, once filled in full, fits under the inventory caps. */
  lemma FillStaysWithinInventoryCaps(r: RiskV, limits: Limits, caps: Limits, inst: Inst, delta: int,
                                     price: Option<real>)
    requires WithinInventoryCaps(r, caps) && r.WellFormed() && NoLooser(limits, caps)
    requires r.WithinUnitCaps(limits, inst, delta)
    ensures WithinInventoryCaps(r.RecordFill(inst, delta, price), caps)
  {
    hide RiskV.RecordFill, RiskV.TotalUnits;
    var t := r.RecordFill(inst, delta, price);
    FillTouchesOne(r, inst, delta, price);
    UnitsAfterFill(r, inst, delta, price);
    PositionsDifferAtOne(r, t, inst);
  }

  lemma FillTouchesOne(r: RiskV, inst: Inst, filled: int, price: Option<real>)
    requires r.WellFormed()
    ensures var t := r.RecordFill(inst, filled, price);
            && r.positions - {inst} == t.positions - {inst} && r.exposure - {inst} == t.exposure - {inst}
            && t.NetUnits(inst) == r.NetUnits(inst) + filled && t.WellFormed()
  {
  }

  /** Syncing to a target leaves one-sided tickets that add up to it. */
  lemma SyncStaysSided(v: TrackerV, inst: Inst, target: int, price: real, time: Time, isBundle: bool)
    requires Sided(v.TicketsOf(inst))
    ensures var w := v.SyncToNet(inst, target, price, time, isBundle);
            Sided(w.TicketsOf(inst)) && w.NetUnits(inst) == target && w.tickets - {inst} == v.tickets - {inst}
  {
    hide TrackerV.Open, TrackerV.CloseAll;
    var ts := v.TicketsOf(inst);
    if ts != [] {
      OneSidedNet(ts);
    }
    var c := Closing(price, time, PositionSync, price);
    CloseAllEmpties(v, inst, c);
    OpenAdds(v, inst, target - v.NetUnits(inst), price, time, isBundle);
    OpenAdds(v.CloseAll(inst, c), inst, target, price, time, isBundle);
  }

  lemma OpenAdds(v: TrackerV, inst: Inst, units: int, price: real, time: Time, isBundle: bool)
    ensures var ts, w := v.TicketsOf(inst), v.Open(inst, units, price, time, isBundle);
            && w.NetUnits(inst) == v.NetUnits(inst) + units
            && w.tickets - {inst} == v.tickets - {inst}
            && (units == 0 ==> w.TicketsOf(inst) == ts)
            && (units != 0 ==> |w.TicketsOf(inst)| == |ts| + 1 && w.TicketsOf(inst)[..|ts|] == ts
                               && w.TicketsOf(inst)[|ts|].units == units)
  {
    hide NetOfTickets;
    var ts, w := v.TicketsOf(inst), v.Open(inst, units, price, time, isBundle);
    if units != 0 {
      NetOfLonger(ts, w.TicketsOf(inst)[|ts|]);
      assert w.TicketsOf(inst) == ts + [w.TicketsOf(inst)[|ts|]];
    }
  }

  lemma NetOfLonger(ts: seq<Ticket>, t: Ticket)
    ensures NetOfTickets(ts + [t]) == NetOfTickets(ts) + t.units
  {
    assert (ts + [t])[..|ts|] == ts;
  }

  /** Planning, guarding and settling an allocation stays within caps that the limits in force do not exceed. */
  lemma TransactStaysWithinCaps(b: Books, limits: Limits, caps: Limits, inst: Inst, r: Request, order: Answer)
    requires Backed(b) && WithinCaps(b, caps) && NoLooser(limits, caps)
    requires FillsPlan(b, limits, inst, r, order)
    ensures var c := Transact(b, limits, inst, r, order);
            WithinCaps(c, caps) && Backed(c)
  {
    hide Plan, WithinTradeCaps, WithinInventoryCaps, InstBacked, RiskV.RecordFill, TrackerV.SyncToNet,
         RiskV.WithinUnitCaps, RiskV.WithinExposureCaps, StoreV.WellFormed, RiskV.WellFormed, OnlyTouches;
    var current := b.risk.NetUnits(inst);
    var (store, outcome) := Plan(b.store, limits, inst, current, r);
    PlanStaysWithinTradeCaps(b.store, limits, caps, inst, current, r);
    PlanKeepsWellFormed(b.store, limits, inst, current, r);
    var delta := DeltaOf(b, limits, inst, r);
    if Refused(b, limits, inst, r, order) {
      RefusalLeavesNoTrace(b, limits, inst, r, order);
    } else if delta == 0 {
      assert InstBacked(b, inst);
      StoreAloneStaysBacked(b, store);
    } else {
      ExecutedTransact(b, limits, inst, r, order);
      ApprovedWithinUnitCaps(b.risk, limits, inst, delta, Some(r.price));
      FillTouchesOne(b.risk, inst, delta, Some(order.price.GetOr(r.price)));
      FillStaysWithinInventoryCaps(b.risk, limits, caps, inst, delta, Some(order.price.GetOr(r.price)));
      PlanTouchesOne(b.store, limits, inst, current, r);
      ExecutedStaysBacked(b, inst, store, outcome.targetUnits, r, Some(order.price.GetOr(r.price)));
    }
  }

  lemma ApprovedWithinUnitCaps(r: RiskV, limits: Limits, inst: Inst, delta: int, price: Option<real>)
    requires delta != 0 && r.CanAdd(limits, inst, delta, price)
    ensures r.WithinUnitCaps(limits, inst, delta)
  {
  }

  lemma StoreAloneStaysBacked(b: Books, store: StoreV)
    requires Backed(b) && store.WellFormed()
    ensures Backed(b.(store := store))
  {
    forall inst
      ensures InstBacked(b.(store := store), inst)
    {
      assert InstBacked(b, inst);
    }
  }

  lemma ExecutedStaysBacked(b: Books, inst: Inst, store: StoreV, target: int, r: Request, price: Option<real>)
    requires Backed(b) && store.WellFormed() && b.store.SameElsewhere(store, inst)
    requires b.risk.RecordFill(inst, target - b.risk.NetUnits(inst), price).WellFormed()
    ensures Backed(Books(store, b.tracker.SyncToNet(inst, target, r.price, r.now, r.isBundle),
                         b.risk.RecordFill(inst, target - b.risk.NetUnits(inst), price)))
  {
    hide TrackerV.SyncToNet, NetOfTickets, StoreV.WellFormed, StoreV.SameElsewhere;
    assert InstBacked(b, inst);
    SyncStaysSided(b.tracker, inst, target, r.price, r.now, r.isBundle);
    var c := Books(store, b.tracker.SyncToNet(inst, target, r.price, r.now, r.isBundle),
                   b.risk.RecordFill(inst, target - b.risk.NetUnits(inst), price));
    var ts := c.tracker.TicketsOf(inst);
    if ts != [] {
      OneSidedNet(ts);
    }
    BackedFromOne(b, c, inst);
  }

  /** The guard saw the order for an opening, which moves the position away from zero. */
  lemma OpeningIsGuarded(b: Books, limits: Limits, inst: Inst, r: Request, order: Answer)
    requires Agree(b)
    requires !r.hardBlocked && Appends(b.store, limits, inst, r) && !Refused(b, limits, inst, r, order)
    ensures var delta := NewTrade(r).NetUnits();
            && delta != 0 && DeltaOf(b, limits, inst, r) == delta
            && b.risk.CanAdd(limits, inst, delta, Some(r.price))
            && !b.risk.Reducing(inst, delta)
  {
    hide Appends, RiskV.WithinUnitCaps, RiskV.WithinExposureCaps;
    AppendOrders(b, limits, inst, r);
  }

  /** An opening filled at the checked price also leaves both dollar exposure caps intact. */
  lemma OpeningStaysWithinExposureCaps(b: Books, limits: Limits, inst: Inst, r: Request, order: Answer)
    requires Agree(b) && order.Filled? && order.price.GetOr(r.price) == r.price
    requires !r.hardBlocked && Appends(b.store, limits, inst, r)
    requires !Refused(b, limits, inst, r, order) && order.InFull(DeltaOf(b, limits, inst, r))
    ensures var c := Transact(b, limits, inst, r, order);
            && (limits.maxPositionSize > 0.0 ==> c.risk.ExposureOf(inst) <= limits.maxPositionSize)
            && (limits.maxTotalExposure > 0.0 ==> c.risk.TotalExposure() <= limits.maxTotalExposure)
  {
    hide Plan, Appends, Refused, Transact, RiskV.CanAdd, RiskV.Reducing, TrackerV.SyncToNet, Agree;
    OpeningIsGuarded(b, limits, inst, r, order);
    ExecutedTransact(b, limits, inst, r, order);
    ApprovedFillWithinExposureCaps(b.risk, limits, inst, NewTrade(r).NetUnits(), r.price);
  }

  // ---------------------------------------------------------------- whole runs

  /** What is assumed of the broker: closes fill no more than asked, executed orders exactly what was asked. */
  ghost predicate SaneFills(b: Books, e: Event) {
    var tickets := b.tracker.TicketsOf(e.inst);
    match e
    case TpslCheck(_, venue, _, _, _, _, _) => SaneCloses(venue, tickets, |tickets|)
    case ExpiryCheck(_, venue, _, _, _) => SaneCloses(venue, tickets, |tickets|)
    case Allocation(inst, limits, r, w, tickSecs) =>
      && SaneCloses(w.venue, tickets, |tickets|)
      && !FillsInPart(b, e)
    case MarkPrices(_, _, _, _) => true
  }

  lemma MarkStaysBacked(b: Books, inst: Inst, price: real, high: real, low: real)
    requires Backed(b)
    ensures var c := b.(tracker := b.tracker.Mark(inst, price, high, low));
            Backed(c) && Shrinks(b, c, inst)
  {
    hide GrossUsd;
    var c := b.(tracker := b.tracker.Mark(inst, price, high, low));
    assert InstBacked(b, inst);
    RestatedNet(b.tracker.TicketsOf(inst), c.tracker.TicketsOf(inst));
    BackedFromOne(b, c, inst);
  }

  lemma StepStaysWithinCaps(b: Books, caps: Limits, e: Event)
    requires Backed(b) && WithinCaps(b, caps) && SaneFills(b, e)
    requires e.Allocation? ==> NoLooser(e.limits, caps)
    ensures Backed(Step(b, e)) && WithinCaps(Step(b, e), caps)
  {
    hide TpslPass, ExpiryPass, Transact, WithinCaps, InstBacked, StoreV.WellFormed, Shrinks, TrackerV.Mark, NoLooser,
         FillsPlan;
    match e
    case TpslCheck(inst, venue, high, low, time, cfg, scalping) =>
      TpslPassShrinks(b, venue, inst, high, low, time, cfg, scalping);
      ShrinkingStaysWithinCaps(b, Step(b, e), caps, inst);
    case ExpiryCheck(inst, venue, price, time, tickSecs) =>
      ExpiryPassShrinks(b, venue, inst, price, time, tickSecs);
      ShrinkingStaysWithinCaps(b, Step(b, e), caps, inst);
    case Allocation(inst, limits, r, w, tickSecs) =>
      var expired := ExpiryPass(b, w.venue, inst, r.price, r.now, tickSecs).0;
      ExpiryPassShrinks(b, w.venue, inst, r.price, r.now, tickSecs);
      ShrinkingStaysWithinCaps(b, expired, caps, inst);
      TransactStaysWithinCaps(expired, limits, caps, inst, Gated(r, w.blocked), w.order);
    case MarkPrices(inst, price, high, low) =>
      MarkStaysBacked(b, inst, price, high, low);
      ShrinkingStaysWithinCaps(b, Step(b, e), caps, inst);
  }

  /** Every allocation is made under limits no looser than `caps`, and the broker fills sanely. */
  ghost predicate Capped(b: Books, caps: Limits, events: seq<Event>) {
    && (forall n :: 0 <= n < |events| && events[n].Allocation? ==> NoLooser(events[n].limits, caps))
    && (forall n :: 0 <= n < |events| ==> SaneFills(Run(b, events[..n]), events[n]))
  }

  /** From any backed books within the caps, in every state such a run can reach, exceptions and disagreeing books
      included, every cap holds. */
  lemma {:induction false} RunStaysWithinCaps(start: Books, caps: Limits, events: seq<Event>)
    requires Backed(start) && WithinCaps(start, caps) && Capped(start, caps, events)
    ensures var b := Run(start, events);
            WithinCaps(b, caps) && Backed(b)
  {
    hide Step, Backed, SaneFills, WithinCaps, NoLooser;
    if events != [] {
      var n := |events| - 1;
      var before := events[..n];
      assert forall k :: 0 <= k < n ==> events[..k] == before[..k];
      RunStaysWithinCaps(start, caps, before);
      StepStaysWithinCaps(Run(start, before), caps, events[n]);
    }
  }

  lemma EmptyBooksWithinCaps(costBps: real, caps: Limits)
    ensures WithinCaps(EmptyBooks(costBps), caps) && Backed(EmptyBooks(costBps))
  {
    assert EmptyBooks(costBps).store.Counts() == map[];
  }

  /** In particular from empty books. */
  lemma EveryRunStaysWithinCaps(costBps: real, caps: Limits, events: seq<Event>)
    requires Capped(EmptyBooks(costBps), caps, events)
    ensures var b := Run(EmptyBooks(costBps), events);
            WithinCaps(b, caps) && Backed(b)
  {
    EmptyBooksWithinCaps(costBps, caps);
    RunStaysWithinCaps(EmptyBooks(costBps), caps, events);
  }
}
