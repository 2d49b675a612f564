/** Rebuilding the three books from what the broker reports: the exposure tracker replaces tickets and
    risk inventory, then the coordinator replaces the planner's trades. */
module Reconcile {
  import opened Common
  import opened Tpsl
  import opened TradeState
  import opened PositionTracker
  import opened RiskLimits
  import opened Books
  import opened Agreement
  import opened OrderlyRuns
  import opened TimeSort

  /** An open trade and a position as the broker's reply lists them, numbers already coerced. */
  datatype RawTrade = RawTrade(instrument: Inst, units: Option<int>, price: Option<real>, openedAt: Option<Time>)
  datatype RawPosition = RawPosition(instrument: Inst, units: int, price: Option<real>)

  datatype BrokerTrade = BrokerTrade(units: int, entryPrice: real, entryTime: Time)

  /** An empty filter lets everything through. */
  predicate Admitted(scope: set<Inst>, inst: Inst) {
    scope == {} || inst in scope
  }

  predicate InScope(scope: set<Inst>, inst: Inst) {
    inst != "" && Admitted(scope, inst)
  }

  predicate Listed(positions: seq<RawPosition>, inst: Inst) {
    exists k :: 0 <= k < |positions| && positions[k].instrument == inst
  }

  predicate Usable(e: RawTrade, scope: set<Inst>) {
    InScope(scope, e.instrument) && e.units.Some? && e.units.value != 0 && e.price.Some? && e.openedAt.Some?
  }

  function Coerced(e: RawTrade): BrokerTrade
    requires e.units.Some? && e.price.Some? && e.openedAt.Some?
  {
    BrokerTrade(e.units.value, e.price.value, e.openedAt.value)
  }

  /** The usable open trades of one instrument, in the order of the reply. */
  function Reported(raw: seq<RawTrade>, scope: set<Inst>, inst: Inst): (r: seq<BrokerTrade>)
    ensures forall k :: 0 <= k < |r| ==> r[k].units != 0
    ensures !InScope(scope, inst) ==> r == []
  {
    if raw == [] then []
    else
      var n := |raw| - 1;
      Reported(raw[..n], scope, inst)
      + (if Usable(raw[n], scope) && raw[n].instrument == inst
         then [Coerced(raw[n])] else [])
  }

  function EntryTimeOf(t: BrokerTrade): Time {
    t.entryTime
  }

  // ---------------------------------------------------------------- what the broker holds

  /** The first position entry of an instrument that is not flat. */
  function FirstHeld(positions: seq<RawPosition>, inst: Inst): (r: Option<RawPosition>)
    ensures r.Some? ==> r.value.units != 0
  {
    if positions == [] then None
    else
      var n := |positions| - 1;
      var before := FirstHeld(positions[..n], inst);
      if before.Some? then before
      else if positions[n].instrument == inst && positions[n].units != 0 then Some(positions[n]) else None
  }

  /** The broker's reply: open trades, positions, and the clock that dates a trade made up from a position. */
  datatype Reply = Reply(trades: seq<RawTrade>, positions: seq<RawPosition>, now: Time)

  /** The broker's trades in an instrument, by entry time; a position without trades counts as one trade. */
  function BrokerTrades(reply: Reply, scope: set<Inst>, inst: Inst): (r: seq<BrokerTrade>)
  {
    var reported := Sort(Reported(reply.trades, scope, inst), EntryTimeOf);
    var held := FirstHeld(reply.positions, inst);
    if reported != [] then reported
    else if InScope(scope, inst) && held.Some?
    then [BrokerTrade(held.value.units, held.value.price.GetOr(0.0), reply.now)]
    else []
  }

  lemma BrokerTradesHold(reply: Reply, scope: set<Inst>, inst: Inst)
    ensures NoneFlat(BrokerTrades(reply, scope, inst))
    ensures !InScope(scope, inst) ==> BrokerTrades(reply, scope, inst) == []
  {
    var reported := Reported(reply.trades, scope, inst);
    var sorted := Sort(reported, EntryTimeOf);
    SortKeepsEntries(reported, EntryTimeOf);
    forall k | 0 <= k < |sorted|
      ensures sorted[k].units != 0
    {
      assert sorted[k] in multiset(sorted);
      assert sorted[k] in multiset(reported);
    }
  }

  predicate IsOpenTrade(e: RawTrade, inst: Inst, t: BrokerTrade) {
    e.instrument == inst && t.units != 0 && e.units == Some(t.units) && e.price == Some(t.entryPrice)
    && e.openedAt == Some(t.entryTime)
  }

  /** A trade is among the broker's exactly if the reply lists it with units, price and time; or, where it lists none,
      if it is the first position that is not flat, dated now and at its price or zero. */
  lemma BrokerTradesAreListed(reply: Reply, scope: set<Inst>, inst: Inst, t: BrokerTrade)
    requires inst != "" && (scope == {} || inst in scope)
    ensures var listed := Lists(reply.trades, inst, t);
            var ts := BrokerTrades(reply, scope, inst);
            && (listed ==> t in ts)
            && (t in ts && !listed ==>
                  t.entryTime == reply.now && |ts| == 1
                  && exists j :: 0 <= j < |reply.positions| && IsHeld(reply.positions[j], inst, t))
  {
    ReportedAreListed(reply.trades, scope, inst, t);
    var reported := Reported(reply.trades, scope, inst);
    SortKeepsEntries(reported, EntryTimeOf);
    assert t in Sort(reported, EntryTimeOf) <==> t in multiset(Sort(reported, EntryTimeOf));
    assert t in reported <==> t in multiset(reported);
    assert Sort<BrokerTrade>([], EntryTimeOf) == [];
    FirstHeldIsListed(reply.positions, inst);
  }

  predicate IsHeld(p: RawPosition, inst: Inst, t: BrokerTrade) {
    p.instrument == inst && p.units == t.units != 0 && t.entryPrice == p.price.GetOr(0.0)
  }

  ghost predicate Lists(raw: seq<RawTrade>, inst: Inst, t: BrokerTrade) {
    exists k :: 0 <= k < |raw| && IsOpenTrade(raw[k], inst, t)
  }

  lemma ListsOneMore(raw: seq<RawTrade>, inst: Inst, t: BrokerTrade)
    requires raw != []
    ensures var n := |raw| - 1;
            Lists(raw, inst, t) <==> Lists(raw[..n], inst, t) || IsOpenTrade(raw[n], inst, t)
  {
    hide IsOpenTrade;
    var n := |raw| - 1;
    if k :| 0 <= k < n && IsOpenTrade(raw[..n][k], inst, t) {
      assert IsOpenTrade(raw[k], inst, t);
    }
    if k :| 0 <= k < n && IsOpenTrade(raw[k], inst, t) {
      assert IsOpenTrade(raw[..n][k], inst, t);
    }
  }

  /** What one more entry adds to what is reported. */
  lemma ReportsOneMore(raw: seq<RawTrade>, scope: set<Inst>, inst: Inst, t: BrokerTrade)
    requires raw != [] && inst != "" && (scope == {} || inst in scope)
    ensures var n := |raw| - 1;
            t in Reported(raw, scope, inst)
            <==> t in Reported(raw[..n], scope, inst) || IsOpenTrade(raw[n], inst, t)
  {
  }

  lemma {:induction false} ReportedAreListed(raw: seq<RawTrade>, scope: set<Inst>, inst: Inst, t: BrokerTrade)
    requires inst != "" && (scope == {} || inst in scope)
    ensures t in Reported(raw, scope, inst) <==> Lists(raw, inst, t)
  {
    if raw != [] {
      hide Reported, Lists, IsOpenTrade;
      ReportedAreListed(raw[..|raw| - 1], scope, inst, t);
      ListsOneMore(raw, inst, t);
      ReportsOneMore(raw, scope, inst, t);
    }
  }

  lemma {:induction false} FirstHeldIsListed(positions: seq<RawPosition>, inst: Inst)
    ensures var held := FirstHeld(positions, inst);
            held.Some? ==> held.value.instrument == inst && held.value in positions
  {
    if positions != [] {
      FirstHeldIsListed(positions[..|positions| - 1], inst);
    }
  }

  predicate NoneFlat(ts: seq<BrokerTrade>) {
    forall k :: 0 <= k < |ts| ==> ts[k].units != 0
  }

  function NetOfBroker(ts: seq<BrokerTrade>): int {
    if ts == [] then 0 else NetOfBroker(ts[..|ts| - 1]) + ts[|ts| - 1].units
  }

  function GrossUnits(ts: seq<BrokerTrade>): nat {
    if ts == [] then 0 else GrossUnits(ts[..|ts| - 1]) + Abs(ts[|ts| - 1].units)
  }

  function GrossValue(ts: seq<BrokerTrade>): real {
    if ts == [] then 0.0
    else GrossValue(ts[..|ts| - 1]) + Abs(ts[|ts| - 1].units) as real * ts[|ts| - 1].entryPrice
  }

  /** The average entry price, weighted by units whatever their side. */
  function ReferencePrice(ts: seq<BrokerTrade>): real
    requires ts != []
  {
    if GrossUnits(ts) > 0 then GrossValue(ts) / GrossUnits(ts) as real else ts[0].entryPrice
  }

  function Rebuilt(t: BrokerTrade): Ticket {
    Ticket(t.units, t.entryPrice, t.entryTime, 0.0, false, Reset(t.entryPrice, if t.units > 0 then 1 else -1), 0.0, 0.0)
  }

  function RebuiltTickets(ts: seq<BrokerTrade>): (r: seq<Ticket>)
    ensures |r| == |ts|
    ensures forall k :: 0 <= k < |r| ==> r[k] == Rebuilt(ts[k])
  {
    seq(|ts|, k requires 0 <= k < |ts| => Rebuilt(ts[k]))
  }

  lemma ReplaceByRebuilt(v: TrackerV, inst: Inst, ts: seq<BrokerTrade>)
    requires NoneFlat(ts)
    ensures var after := v.Replace(inst, RebuiltTickets(ts));
            && after == v.(tickets := after.tickets)
            && after.TicketsOf(inst) == RebuiltTickets(ts)
            && forall other :: other != inst ==> after.TicketsOf(other) == v.TicketsOf(other)
  {
    AllHold(RebuiltTickets(ts));
  }

  function Lookup(m: map<Inst, seq<BrokerTrade>>, inst: Inst): seq<BrokerTrade> {
    if inst in m then m[inst] else []
  }

  predicate NoEmptyLists(m: map<Inst, seq<BrokerTrade>>) {
    forall inst :: inst in m ==> m[inst] != []
  }

  /** How one more position entry changes what the broker is taken to hold. */
  lemma BrokerTradesStep(reply: Reply, scope: set<Inst>, n: nat, inst: Inst)
    requires n < |reply.positions|
    ensures var p, shorter, longer := reply.positions[n], reply.(positions := reply.positions[..n]),
            reply.(positions := reply.positions[..n + 1]);
            var before := BrokerTrades(shorter, scope, inst);
            BrokerTrades(longer, scope, inst)
            == if InScope(scope, inst) && inst == p.instrument && p.units != 0 && before == []
               then [BrokerTrade(p.units, p.price.GetOr(0.0), reply.now)]
               else before
  {
    assert reply.positions[..n + 1][..n] == reply.positions[..n];
    hide Sort, Reported;
  }

  /** The dictionary holds the broker's trades of every instrument. */
  ghost predicate Holds(broker: map<Inst, seq<BrokerTrade>>, reply: Reply, scope: set<Inst>) {
    NoEmptyLists(broker) && forall inst :: Lookup(broker, inst) == BrokerTrades(reply, scope, inst)
  }

  /** Every instrument's usable trades so far, in the order of the reply. */
  ghost predicate Collected(unsorted: map<Inst, seq<BrokerTrade>>, raw: seq<RawTrade>, scope: set<Inst>) {
    NoEmptyLists(unsorted) && forall inst :: Lookup(unsorted, inst) == Reported(raw, scope, inst)
  }

  lemma NothingCollected(scope: set<Inst>)
    ensures Collected(map[], [], scope)
  {
  }

  lemma CollectOneMore(unsorted: map<Inst, seq<BrokerTrade>>, raw: seq<RawTrade>, scope: set<Inst>, e: RawTrade)
    requires Collected(unsorted, raw, scope)
    ensures var known := if e.instrument in unsorted then unsorted[e.instrument] else [];
            Collected(if Usable(e, scope) then unsorted[e.instrument := known + [Coerced(e)]] else unsorted,
                      raw + [e], scope)
  {
    assert (raw + [e])[..|raw|] == raw;
    forall inst
      ensures Reported(raw + [e], scope, inst)
              == Reported(raw, scope, inst) + if Usable(e, scope) && e.instrument == inst then [Coerced(e)] else []
    {
    }
    hide Reported;
  }

  lemma SortedHolds(unsorted: map<Inst, seq<BrokerTrade>>, sorted: map<Inst, seq<BrokerTrade>>, raw: seq<RawTrade>,
                    scope: set<Inst>)
    requires Collected(unsorted, raw, scope)
    requires sorted.Keys == unsorted.Keys
    requires forall inst :: inst in sorted ==> sorted[inst] == Sort(unsorted[inst], EntryTimeOf)
    ensures forall now :: Holds(sorted, Reply(raw, [], now), scope)
  {
    hide Reported;
    assert Sort<BrokerTrade>([], EntryTimeOf) == [];
  }

  ghost predicate Names(named: set<Inst>, positions: seq<RawPosition>, scope: set<Inst>) {
    forall inst :: inst in named <==> Listed(positions, inst) && InScope(scope, inst)
  }

  function AddPosition(broker: map<Inst, seq<BrokerTrade>>, p: RawPosition, now: Time): map<Inst, seq<BrokerTrade>> {
    if p.units != 0 && p.instrument !in broker
    then broker[p.instrument := [BrokerTrade(p.units, p.price.GetOr(0.0), now)]]
    else broker
  }

  lemma AddPositionHolds(broker: map<Inst, seq<BrokerTrade>>, reply: Reply, scope: set<Inst>, n: nat)
    requires n < |reply.positions| && Holds(broker, reply.(positions := reply.positions[..n]), scope)
    ensures var p := reply.positions[n];
            Holds(if InScope(scope, p.instrument) then AddPosition(broker, p, reply.now) else broker,
                  reply.(positions := reply.positions[..n + 1]), scope)
  {
    var p, shorter, longer := reply.positions[n], reply.(positions := reply.positions[..n]),
      reply.(positions := reply.positions[..n + 1]);
    var next := if InScope(scope, p.instrument) then AddPosition(broker, p, reply.now) else broker;
    forall inst
      ensures Lookup(next, inst) == BrokerTrades(longer, scope, inst)
    {
      BrokerTradesStep(reply, scope, n, inst);
      hide BrokerTrades;
      assert Lookup(broker, inst) == BrokerTrades(shorter, scope, inst);
    }
  }

  lemma NameOne(named: set<Inst>, positions: seq<RawPosition>, scope: set<Inst>, n: nat)
    requires n < |positions| && Names(named, positions[..n], scope)
    ensures var inst := positions[n].instrument;
            Names(if InScope(scope, inst) then named + {inst} else named, positions[..n + 1], scope)
  {
    var longer, shorter := positions[..n + 1], positions[..n];
    forall inst
      ensures Listed(longer, inst) <==> Listed(shorter, inst) || inst == positions[n].instrument
    {
      if Listed(shorter, inst) {
        var k :| 0 <= k < n && shorter[k].instrument == inst;
        assert longer[k].instrument == inst;
      }
      if inst == positions[n].instrument {
        assert longer[n].instrument == inst;
      }
      if Listed(longer, inst) {
        var k :| 0 <= k < n + 1 && longer[k].instrument == inst;
        assert k < n ==> shorter[k].instrument == inst;
      }
    }
  }

  // ---------------------------------------------------------------- tickets and risk

  /** The inventory holds the net of these trades, valued at their reference price. */
  ghost predicate OnFile(r: RiskV, inst: Inst, ts: seq<BrokerTrade>)
    requires ts != []
  {
    && r.NetUnits(inst) == NetOfBroker(ts)
    && (NetOfBroker(ts) != 0 ==>
          inst in r.exposure && Some(r.exposure[inst]) == UsdNotional(inst, NetOfBroker(ts), Some(ReferencePrice(ts))))
  }

  ghost predicate SameRisk(r: RiskV, s: RiskV, inst: Inst) {
    && r.NetUnits(inst) == s.NetUnits(inst) && (inst in r.positions <==> inst in s.positions)
    && r.ExposureOf(inst) == s.ExposureOf(inst) && (inst in r.exposure <==> inst in s.exposure)
  }

  /** The instruments whose tickets are replaced. */
  ghost predicate Reached(v: TrackerV, r: RiskV, reply: Reply, scope: set<Inst>, inst: Inst) {
    inst in scope || inst in r.positions || inst in v.tickets || (Listed(reply.positions, inst) && InScope(scope, inst))
  }

  /** Every reached instrument has the broker's trades for tickets; no other has any. */
  ghost predicate TicketsMirror(v: TrackerV, r: RiskV, after: TrackerV, reply: Reply, scope: set<Inst>) {
    forall inst :: after.TicketsOf(inst)
                   == if Reached(v, r, reply, scope, inst) then RebuiltTickets(BrokerTrades(reply, scope, inst)) else []
  }

  /** Admitted instruments have the broker's net on file; the others keep what they had. */
  ghost predicate RiskMirrors(r: RiskV, after: RiskV, reply: Reply, scope: set<Inst>) {
    forall inst ::
      if BrokerTrades(reply, scope, inst) != [] then OnFile(after, inst, BrokerTrades(reply, scope, inst))
      else if Admitted(scope, inst) then inst !in after.positions
      else SameRisk(r, after, inst)
  }

  /** Part way through: what is left in `rest` is as it was in `r`, the rest of the broker's list is on file. */
  ghost predicate Recorded(r: RiskV, s: RiskV, broker: map<Inst, seq<BrokerTrade>>, rest: set<Inst>) {
    && s.WellFormed()
    && (forall inst :: inst in broker && broker[inst] != [] && inst !in rest ==> OnFile(s, inst, broker[inst]))
    && (forall inst :: inst !in broker || inst in rest ==> SameRisk(r, s, inst))
  }

  lemma RecordOne(r: RiskV, s: RiskV, broker: map<Inst, seq<BrokerTrade>>, rest: set<Inst>, inst: Inst)
    requires Recorded(r, s, broker, rest) && inst in rest && inst in broker && broker[inst] != []
    requires inst !in r.positions
    ensures var net := NetOfBroker(broker[inst]);
            var after := if net != 0 then s.RecordFill(inst, net, Some(ReferencePrice(broker[inst]))) else s;
            Recorded(r, after, broker, rest - {inst})
  {
    hide ReferencePrice, NetOfBroker, OnFile, RiskV.RecordFill, RiskV.WellFormed;
    var net := NetOfBroker(broker[inst]);
    var after := if net != 0 then s.RecordFill(inst, net, Some(ReferencePrice(broker[inst]))) else s;
    assert SameRisk(r, s, inst);
    FillsOnFile(s, inst, broker[inst]);
    forall other | other in broker && broker[other] != [] && other !in rest
      ensures OnFile(after, other, broker[other])
    {
      SameOnFile(s, after, other, broker[other]);
    }
  }

  lemma FillsOnFile(s: RiskV, inst: Inst, ts: seq<BrokerTrade>)
    requires s.WellFormed() && inst !in s.positions && ts != []
    ensures var net := NetOfBroker(ts);
            var after := if net != 0 then s.RecordFill(inst, net, Some(ReferencePrice(ts))) else s;
            && after.WellFormed() && OnFile(after, inst, ts)
            && forall other :: other != inst ==> SameRisk(s, after, other)
  {
    hide ReferencePrice, NetOfBroker;
  }

  lemma SameOnFile(s: RiskV, after: RiskV, inst: Inst, ts: seq<BrokerTrade>)
    requires ts != [] && OnFile(s, inst, ts) && SameRisk(s, after, inst)
    ensures OnFile(after, inst, ts)
  {
    hide ReferencePrice, NetOfBroker, UsdNotional;
  }

  ghost predicate TicketsSet(v: TrackerV, after: TrackerV, targets: set<Inst>, broker: map<Inst, seq<BrokerTrade>>) {
    && after == v.(tickets := after.tickets)
    && forall inst :: after.TicketsOf(inst)
                      == if inst in targets then RebuiltTickets(Lookup(broker, inst)) else v.TicketsOf(inst)
  }

  lemma TicketsFollow(v: TrackerV, r: RiskV, after: TrackerV, named: set<Inst>, broker: map<Inst, seq<BrokerTrade>>,
                      reply: Reply, scope: set<Inst>)
    requires Holds(broker, reply, scope) && Names(named, reply.positions, scope)
    requires TicketsSet(v, after, scope + r.positions.Keys + v.tickets.Keys + named, broker)
    ensures TicketsMirror(v, r, after, reply, scope)
  {
    hide BrokerTrades, RebuiltTickets, Listed;
  }

  /** Admitted instruments are flat, the others are as they were. */
  ghost predicate Flattened(r: RiskV, after: RiskV, scope: set<Inst>, rest: set<Inst>) {
    && (forall inst :: inst in r.positions && inst !in rest && Admitted(scope, inst) ==>
      inst !in after.positions && inst !in after.exposure)
    && (forall inst :: inst !in r.positions || inst in rest || !Admitted(scope, inst) ==> SameRisk(r, after, inst))
  }

  lemma RiskFollowsAt(r: RiskV, mid: RiskV, after: RiskV, broker: map<Inst, seq<BrokerTrade>>, scope: set<Inst>,
                      inst: Inst)
    requires Flattened(r, mid, scope, {}) && Recorded(mid, after, broker, {}) && NoEmptyLists(broker)
    requires inst in broker ==> InScope(scope, inst)
    ensures if Lookup(broker, inst) != [] then OnFile(after, inst, Lookup(broker, inst))
            else if Admitted(scope, inst) then inst !in after.positions
            else SameRisk(r, after, inst)
  {
    hide OnFile, UsdNotional, RiskV.WellFormed, RiskV.NetUnits, RiskV.ExposureOf;
    if inst !in broker {
      assert SameRisk(mid, after, inst);
      assert inst !in r.positions || !Admitted(scope, inst) ==> SameRisk(r, mid, inst);
    }
  }

  lemma RiskFollows(r: RiskV, mid: RiskV, after: RiskV, broker: map<Inst, seq<BrokerTrade>>, reply: Reply,
                    scope: set<Inst>)
    requires Flattened(r, mid, scope, {}) && Holds(broker, reply, scope)
    requires Recorded(mid, after, broker, {})
    ensures RiskMirrors(r, after, reply, scope)
  {
    hide Flattened, Recorded, BrokerTrades, OnFile, SameRisk, InScope, Admitted, NoneFlat, NoEmptyLists;
    HeldTradesAreWhole(broker, reply, scope);
    forall inst
      ensures if BrokerTrades(reply, scope, inst) != [] then OnFile(after, inst, BrokerTrades(reply, scope, inst))
              else if Admitted(scope, inst) then inst !in after.positions
              else SameRisk(r, after, inst)
    {
      assert Lookup(broker, inst) == BrokerTrades(reply, scope, inst);
      RiskFollowsAt(r, mid, after, broker, scope, inst);
    }
  }

  /** No answer about positions, or an empty one nobody allowed for, calls the reconcile off. */
  predicate GoesAhead(answer: Option<Reply>, allowEmpty: bool) {
    answer.Some? && (answer.value.positions != [] || allowEmpty)
  }

  ghost predicate BooksMirror(v: TrackerV, r: RiskV, after: TrackerV, risk: RiskV, reply: Reply, scope: set<Inst>,
                              broker: map<Inst, seq<BrokerTrade>>)
  {
    Holds(broker, reply, scope) && TicketsMirror(v, r, after, reply, scope) && RiskMirrors(r, risk, reply, scope)
  }

  lemma HeldTradesAreWhole(broker: map<Inst, seq<BrokerTrade>>, reply: Reply, scope: set<Inst>)
    requires Holds(broker, reply, scope)
    ensures forall inst :: inst in broker ==> NoneFlat(broker[inst]) && InScope(scope, inst)
  {
    forall inst | inst in broker
      ensures NoneFlat(broker[inst]) && InScope(scope, inst)
    {
      BrokerTradesHold(reply, scope, inst);
      assert Lookup(broker, inst) == BrokerTrades(reply, scope, inst);
    }
  }

  class ExposureTracker {
    const tracker: TPSLPositionTracker
    const risk: RiskManager

    constructor (tracker: TPSLPositionTracker, risk: RiskManager)
      ensures this.tracker == tracker && this.risk == risk
    {
      this.tracker, this.risk := tracker, risk;
    }

    method BrokerTradeMap(raw: seq<RawTrade>, scope: set<Inst>) returns (byInst: map<Inst, seq<BrokerTrade>>)
      ensures forall now :: Holds(byInst, Reply(raw, [], now), scope)
    {
      hide Collected, Holds;
      var unsorted: map<Inst, seq<BrokerTrade>> := map[];
      NothingCollected(scope);
      for n := 0 to |raw|
        invariant Collected(unsorted, raw[..n], scope)
      {
        CollectOneMore(unsorted, raw[..n], scope, raw[n]);
        assert raw[..n + 1] == raw[..n] + [raw[n]];
        var e := raw[n];
        if Usable(e, scope) {
          var known := if e.instrument in unsorted then unsorted[e.instrument] else [];
          unsorted := unsorted[e.instrument := known + [Coerced(e)]];
        }
      }
      assert raw[..|raw|] == raw;
      byInst := map inst | inst in unsorted :: Sort(unsorted[inst], EntryTimeOf);
      SortedHolds(unsorted, byInst, raw, scope);
    }

    /** Positions of instruments without open trades stand in for a trade each. */
    method AddPositions(byInst: map<Inst, seq<BrokerTrade>>, reply: Reply, scope: set<Inst>)
      returns (broker: map<Inst, seq<BrokerTrade>>, named: set<Inst>)
      requires Holds(byInst, reply.(positions := []), scope)
      ensures Holds(broker, reply, scope)
      ensures Names(named, reply.positions, scope)
    {
      broker, named := byInst, {};
      var positions := reply.positions;
      assert positions[..0] == [];
      assert Names({}, [], scope);
      hide Holds, Names;
      for n := 0 to |positions|
        invariant Holds(broker, reply.(positions := positions[..n]), scope)
        invariant Names(named, positions[..n], scope)
      {
        AddPositionHolds(broker, reply, scope, n);
        NameOne(named, positions, scope, n);
        var p := positions[n];
        if InScope(scope, p.instrument) {
          named := named + {p.instrument};
          if p.units != 0 && p.instrument !in broker {
            broker := broker[p.instrument := [BrokerTrade(p.units, p.price.GetOr(0.0), reply.now)]];
          }
        }
      }
      assert positions[..|positions|] == positions;
      assert reply.(positions := positions) == reply;
    }

    method RebuildTickets(targets: set<Inst>, broker: map<Inst, seq<BrokerTrade>>)
      requires forall inst :: inst in broker ==> NoneFlat(broker[inst])
      modifies tracker
      ensures TicketsSet(old(tracker.View()), tracker.View(), targets, broker)
    {
      hide Holding, RebuiltTickets;
      var rest := targets;
      while rest != {}
        invariant rest <= targets
        invariant TicketsSet(old(tracker.View()), tracker.View(), targets - rest, broker)
        decreases |rest|
      {
        var inst :| inst in rest;
        var rebuilt := RebuiltTickets(if inst in broker then broker[inst] else []);
        ReplaceByRebuilt(tracker.View(), inst, Lookup(broker, inst));
        tracker.ReplaceTickets(inst, rebuilt);
        rest := rest - {inst};
      }
      assert targets - {} == targets;
    }

    method FlattenRisk(scope: set<Inst>)
      requires risk.View().WellFormed()
      modifies risk`positions, risk`exposure
      ensures risk.View().WellFormed()
      ensures Flattened(old(risk.View()), risk.View(), scope, {})
    {
      var rest := risk.positions.Keys;
      while rest != {}
        invariant rest <= old(risk.positions).Keys
        invariant risk.View().WellFormed()
        invariant Flattened(old(risk.View()), risk.View(), scope, rest)
        decreases |rest|
      {
        var inst :| inst in rest;
        if Admitted(scope, inst) {
          risk.Flatten(inst);
        }
        rest := rest - {inst};
      }
    }

    method NetAndReference(ts: seq<BrokerTrade>) returns (net: int, price: real)
      requires ts != []
      ensures net == NetOfBroker(ts) && price == ReferencePrice(ts)
    {
      net := 0;
      var gross, weighted := 0, 0.0;
      for k := 0 to |ts|
        invariant net == NetOfBroker(ts[..k]) && gross == GrossUnits(ts[..k]) && weighted == GrossValue(ts[..k])
      {
        assert ts[..k + 1][..k] == ts[..k];
        net := net + ts[k].units;
        gross := gross + Abs(ts[k].units);
        weighted := weighted + Abs(ts[k].units) as real * ts[k].entryPrice;
      }
      assert ts[..|ts|] == ts;
      price := if gross > 0 then weighted / gross as real else ts[0].entryPrice;
    }

    /** Put the broker's net units on file, instrument by instrument; what is flat at the broker is skipped. */
    method RecordNets(broker: map<Inst, seq<BrokerTrade>>)
      requires NoEmptyLists(broker)
      requires risk.View().WellFormed()
      requires forall inst :: inst in broker ==> inst !in risk.positions
      modifies risk`positions, risk`exposure
      ensures Recorded(old(risk.View()), risk.View(), broker, {})
    {
      var rest := broker.Keys;
      assert Recorded(risk.View(), risk.View(), broker, rest);
      hide Recorded, ReferencePrice, NetOfBroker;
      while rest != {}
        invariant rest <= broker.Keys
        invariant Recorded(old(risk.View()), risk.View(), broker, rest)
        decreases |rest|
      {
        var inst :| inst in rest;
        var net, price := NetAndReference(broker[inst]);
        RecordOne(old(risk.View()), risk.View(), broker, rest, inst);
        if net != 0 {
          risk.RecordFill(inst, net, Some(price));
        }
        rest := rest - {inst};
      }
    }

    method ReconcilePortfolio(scope: set<Inst>, answer: Option<Reply>, allowEmpty: bool)
      returns (broker: map<Inst, seq<BrokerTrade>>)
      requires risk.View().WellFormed()
      modifies tracker, risk`positions, risk`exposure
      ensures tracker.View() == old(tracker.View()).(tickets := tracker.tickets)
      ensures risk.View().WellFormed()
      ensures if GoesAhead(answer, allowEmpty)
              then BooksMirror(old(tracker.View()), old(risk.View()), tracker.View(), risk.View(), answer.value,
                scope, broker)
              else broker == map[] && tracker.View() == old(tracker.View()) && risk.View() == old(risk.View())
    {
      if answer.None? || (answer.value.positions == [] && !allowEmpty) {
        return map[];
      }
      hide BooksMirror;
      broker := Rebuild(scope, answer.value);
    }

    /** All that follows once the answers are in. */
    method Rebuild(scope: set<Inst>, reply: Reply) returns (broker: map<Inst, seq<BrokerTrade>>)
      requires risk.View().WellFormed()
      modifies tracker, risk`positions, risk`exposure
      ensures tracker.View() == old(tracker.View()).(tickets := tracker.tickets)
      ensures risk.View().WellFormed()
      ensures BooksMirror(old(tracker.View()), old(risk.View()), tracker.View(), risk.View(), reply, scope, broker)
    {
      hide TicketsMirror, RiskMirrors, Names, BrokerTrades, RebuiltTickets, Lookup;
      var byInst := BrokerTradeMap(reply.trades, scope);
      var named;
      assert Reply(reply.trades, [], reply.now) == reply.(positions := []);
      broker, named := AddPositions(byInst, reply, scope);
      HeldTradesAreWhole(broker, reply, scope);
      var targets := scope + risk.positions.Keys + tracker.tickets.Keys + named;
      RebuildTickets(targets, broker);
      TicketsFollow(old(tracker.View()), old(risk.View()), tracker.View(), named, broker, reply, scope);
      FlattenRisk(scope);
      ghost var mid := risk.View();
      RecordNets(broker);
      RiskFollows(old(risk.View()), mid, risk.View(), broker, reply, scope);
    }
  }

  // ---------------------------------------------------------------- the planner's trades

  /** Minutes from the strategy profile, at least one, else the configured default. */
  function HoldSecs(profileMinutes: Option<int>, default: int): int {
    if profileMinutes.Some? then Max(60, profileMinutes.value * 60) else default
  }

  /** A trade as old as the broker says it is, to the whole second; a clock behind the broker's counts as age zero. */
  function RebuiltTrade(t: BrokerTrade, holdSecs: int, now: Time): Trade {
    Trade(if t.units > 0 then 1 else -1, Abs(t.units), t.entryTime, holdSecs, None,
          Max(0, (now - t.entryTime) / 1000), t.entryPrice)
  }

  function RebuiltTrades(ts: seq<BrokerTrade>, holdSecs: int, now: Time): (r: seq<Trade>)
    ensures |r| == |ts|
    ensures forall k :: 0 <= k < |r| ==> r[k] == RebuiltTrade(ts[k], holdSecs, now)
  {
    seq(|ts|, k requires 0 <= k < |ts| => RebuiltTrade(ts[k], holdSecs, now))
  }

  /** What the coordinator knows about an instrument besides the broker's trades: its profile's
      holding time and the signal key of its latest gate, empty if there is none. */
  datatype Profile = Profile(holdMinutes: Option<int>, gateKey: string)

  datatype Config = Config(holdSeconds: int, profiles: Inst -> Profile)

  /** The planner's book of one instrument after the broker's trades have replaced it. */
  ghost predicate TradesRebuilt(s: StoreV, inst: Inst, ts: seq<BrokerTrade>, cfg: Config, now: Time) {
    && s.TradesOf(inst) == RebuiltTrades(ts, HoldSecs(cfg.profiles(inst).holdMinutes, cfg.holdSeconds), now)
    && inst !in s.pendingClose
    && s.LastSignalOf(inst)
       == if ts == [] || cfg.profiles(inst).gateKey == "" then None else Some(cfg.profiles(inst).gateKey)
  }

  ghost predicate SameTrades(s: StoreV, t: StoreV, inst: Inst) {
    && s.TradesOf(inst) == t.TradesOf(inst)
    && (inst in s.pendingClose <==> inst in t.pendingClose)
    && s.LastSignalOf(inst) == t.LastSignalOf(inst)
  }

  /** The store once the broker's trades have replaced an instrument's. */
  function RebuiltStore(s: StoreV, inst: Inst, ts: seq<BrokerTrade>, cfg: Config, now: Time): StoreV {
    if ts == [] then s.Remove(inst)
    else
      var profile := cfg.profiles(inst);
      StoreV(s.Replace(inst, RebuiltTrades(ts, HoldSecs(profile.holdMinutes, cfg.holdSeconds), now)).trades,
             s.pendingClose - {inst},
             if profile.gateKey != "" then s.lastSignal[inst := profile.gateKey] else s.lastSignal - {inst})
  }

  lemma RebuiltStoreMirrors(s: StoreV, inst: Inst, ts: seq<BrokerTrade>, cfg: Config, now: Time)
    requires s.WellFormed()
    ensures var after := RebuiltStore(s, inst, ts, cfg, now);
            && after.WellFormed() && TradesRebuilt(after, inst, ts, cfg, now)
            && forall other :: other != inst ==> SameTrades(s, after, other)
  {
  }

  /** Rebuilt for the instruments in `done`, untouched elsewhere. */
  ghost predicate StoreMirrors(s: StoreV, after: StoreV, done: seq<Inst>, broker: map<Inst, seq<BrokerTrade>>,
                               cfg: Config, now: Time)
  {
    && after.WellFormed()
    && (forall inst :: inst in done ==> TradesRebuilt(after, inst, Lookup(broker, inst), cfg, now))
    && (forall inst :: inst !in done ==> SameTrades(s, after, inst))
  }

  /** One call of the coordinator's reconcile and what it meets: the broker's answer, if any, and the time. */
  datatype Round = Round(enabled: seq<Inst>, answer: Option<Reply>, allowEmpty: bool, cfg: Config, now: Time) {
    function Scope(): set<Inst> {
      set inst | inst in enabled && inst != ""
    }

    predicate Completes() {
      GoesAhead(answer, allowEmpty)
    }

    /** What the broker holds, as far as the round looks. */
    function Held(inst: Inst): seq<BrokerTrade>
      requires Completes()
    {
      BrokerTrades(answer.value, Scope(), inst)
    }

    function HoldSecsOf(inst: Inst): int {
      HoldSecs(cfg.profiles(inst).holdMinutes, cfg.holdSeconds)
    }
  }

  // ---------------------------------------------------------------- entry cooldowns

  /** The latest entry, or zero. */
  function LatestEntry(ts: seq<BrokerTrade>): Time {
    if ts == [] then 0 else Max(LatestEntry(ts[..|ts| - 1]), ts[|ts| - 1].entryTime)
  }

  /** The cooldown of an instrument without trades is cleared, that of one with trades runs from the latest. */
  function CooldownAfter(lastEntry: map<Inst, Time>, inst: Inst, ts: seq<BrokerTrade>): map<Inst, Time> {
    if ts == [] then lastEntry - {inst}
    else if LatestEntry(ts) > 0 then lastEntry[inst := LatestEntry(ts)]
    else lastEntry
  }

  function CooldownsAfter(lastEntry: map<Inst, Time>, broker: map<Inst, seq<BrokerTrade>>, done: seq<Inst>)
    : map<Inst, Time>
  {
    if done == [] then lastEntry
    else
      var inst := done[|done| - 1];
      CooldownAfter(CooldownsAfter(lastEntry, broker, done[..|done| - 1]), inst, Lookup(broker, inst))
  }

  lemma {:induction false} LatestEntryIsLatest(ts: seq<BrokerTrade>)
    ensures forall k :: 0 <= k < |ts| ==> ts[k].entryTime <= LatestEntry(ts)
    ensures LatestEntry(ts) > 0 ==> exists k :: 0 <= k < |ts| && ts[k].entryTime == LatestEntry(ts)
  {
    if ts != [] {
      var n := |ts| - 1;
      LatestEntryIsLatest(ts[..n]);
      if LatestEntry(ts) > 0 && LatestEntry(ts) != ts[n].entryTime {
        var k :| 0 <= k < n && ts[..n][k].entryTime == LatestEntry(ts);
        assert ts[k].entryTime == LatestEntry(ts);
      }
    }
  }

  /** After the loop over the enabled instruments, each of them has no cooldown if it has no trades, and one that
      runs from its latest entry if it has. */
  lemma {:induction false} CooldownRunsFromLatestEntry(lastEntry: map<Inst, Time>,
                                                       broker: map<Inst, seq<BrokerTrade>>, done: seq<Inst>,
                                                       inst: Inst)
    requires inst in done
    ensures var after, ts := CooldownsAfter(lastEntry, broker, done), Lookup(broker, inst);
            && (ts == [] ==> inst !in after)
            && (LatestEntry(ts) > 0 ==> inst in after && after[inst] == LatestEntry(ts))
            && (LatestEntry(ts) > 0 ==> forall k :: 0 <= k < |ts| ==> ts[k].entryTime <= after[inst])
  {
    hide LatestEntry;
    LatestEntryIsLatest(Lookup(broker, inst));
    var n := |done| - 1;
    if done[n] != inst {
      assert inst in done[..n];
      CooldownRunsFromLatestEntry(lastEntry, broker, done[..n], inst);
    }
  }

  class Coordinator {
    const exposure: ExposureTracker
    const store: TradeStateStore
    var lastEntryTs: map<Inst, Time>

    constructor (exposure: ExposureTracker, store: TradeStateStore)
      ensures this.exposure == exposure && this.store == store && lastEntryTs == map[]
    {
      this.exposure, this.store, lastEntryTs := exposure, store, map[];
    }

    method BuildTrades(trades: seq<BrokerTrade>, holdSecs: int, now: Time) returns (rebuilt: seq<Trade>, latest: Time)
      ensures rebuilt == RebuiltTrades(trades, holdSecs, now) && latest == LatestEntry(trades)
    {
      rebuilt, latest := [], 0;
      for k := 0 to |trades|
        invariant |rebuilt| == k && latest == LatestEntry(trades[..k])
        invariant forall j :: 0 <= j < k ==> rebuilt[j] == RebuiltTrade(trades[j], holdSecs, now)
      {
        assert trades[..k + 1][..k] == trades[..k];
        latest := Max(latest, trades[k].entryTime);
        rebuilt := rebuilt + [RebuiltTrade(trades[k], holdSecs, now)];
      }
      assert trades[..|trades|] == trades;
      assert rebuilt == RebuiltTrades(trades, holdSecs, now);
    }

    method RebuildTrades(inst: Inst, trades: seq<BrokerTrade>, cfg: Config, now: Time)
      modifies store, `lastEntryTs
      ensures lastEntryTs == CooldownAfter(old(lastEntryTs), inst, trades)
      ensures store.View() == RebuiltStore(old(store.View()), inst, trades, cfg, now)
    {
      hide RebuiltTrades, LatestEntry;
      if trades == [] {
        store.RemoveTrades(inst);
        lastEntryTs := lastEntryTs - {inst};
        return;
      }
      var profile := cfg.profiles(inst);
      var holdSecs := cfg.holdSeconds;
      if profile.holdMinutes.Some? {
        holdSecs := Max(60, profile.holdMinutes.value * 60);
      }
      var rebuilt, latest := BuildTrades(trades, holdSecs, now);
      store.ReplaceTrades(inst, rebuilt);
      store.ClearPendingClose(inst);
      if latest > 0 {
        lastEntryTs := lastEntryTs[inst := latest];
      }
      if profile.gateKey != "" {
        store.SetLastSignal(inst, profile.gateKey);
      } else {
        store.ClearLastSignal(inst);
      }
    }

    method ReconcilePortfolio(round: Round) returns (ghost broker: map<Inst, seq<BrokerTrade>>)
      requires store.View().WellFormed() && exposure.risk.View().WellFormed()
      modifies exposure.tracker, exposure.risk`positions, exposure.risk`exposure, store, `lastEntryTs
      ensures lastEntryTs == CooldownsAfter(old(lastEntryTs), broker, round.enabled)
      ensures Reconciled(Books(old(store.View()), old(exposure.tracker.View()), old(exposure.risk.View())),
                         Books(store.View(), exposure.tracker.View(), exposure.risk.View()), round, broker)
    {
      hide StoreMirrors, BooksMirror, TradesRebuilt, SameTrades, RebuiltStore, CooldownsAfter, RiskV.WellFormed;
      ghost var start, lastEntry := store.View(), lastEntryTs;
      var brokerTrades := exposure.ReconcilePortfolio(round.Scope(), round.answer, round.allowEmpty);
      broker := brokerTrades;
      var enabled := round.enabled;
      NothingMirroredYet(start, lastEntry, broker, round.cfg, round.now);
      ghost var tickets, risk := exposure.tracker.View(), exposure.risk.View();
      for n := 0 to |enabled|
        invariant exposure.tracker.View() == tickets && exposure.risk.View() == risk
        invariant StoreMirrors(start, store.View(), enabled[..n], broker, round.cfg, round.now)
        invariant lastEntryTs == CooldownsAfter(lastEntry, broker, enabled[..n])
      {
        var inst := enabled[n];
        ghost var before := store.View();
        RebuildTrades(inst, if inst in brokerTrades then brokerTrades[inst] else [], round.cfg, round.now);
        RebuildMirrorsOneMore(start, before, enabled, n, broker, round.cfg, round.now);
        OneMoreCooldown(lastEntry, broker, enabled, n);
      }
      assert enabled[..|enabled|] == enabled;
    }
  }

  lemma NothingMirroredYet(s: StoreV, lastEntry: map<Inst, Time>, broker: map<Inst, seq<BrokerTrade>>, cfg: Config,
                           now: Time)
    requires s.WellFormed()
    ensures StoreMirrors(s, s, [], broker, cfg, now) && CooldownsAfter(lastEntry, broker, []) == lastEntry
  {
  }

  lemma OneMoreCooldown(lastEntry: map<Inst, Time>, broker: map<Inst, seq<BrokerTrade>>, enabled: seq<Inst>, n: nat)
    requires n < |enabled|
    ensures CooldownsAfter(lastEntry, broker, enabled[..n + 1])
            == CooldownAfter(CooldownsAfter(lastEntry, broker, enabled[..n]), enabled[n], Lookup(broker, enabled[n]))
  {
    assert enabled[..n + 1][..n] == enabled[..n];
  }

  lemma RebuildMirrorsOneMore(s: StoreV, before: StoreV, enabled: seq<Inst>, n: nat,
                              broker: map<Inst, seq<BrokerTrade>>, cfg: Config, now: Time)
    requires n < |enabled| && StoreMirrors(s, before, enabled[..n], broker, cfg, now)
    ensures StoreMirrors(s, RebuiltStore(before, enabled[n], Lookup(broker, enabled[n]), cfg, now), enabled[..n + 1],
                         broker, cfg, now)
  {
    hide TradesRebuilt, SameTrades, RebuiltStore;
    RebuiltStoreMirrors(before, enabled[n], Lookup(broker, enabled[n]), cfg, now);
    MirrorOneMore(s, before, RebuiltStore(before, enabled[n], Lookup(broker, enabled[n]), cfg, now), enabled, n,
                  broker, cfg, now);
  }

  lemma MirrorOneMore(s: StoreV, before: StoreV, after: StoreV, enabled: seq<Inst>, n: nat,
                      broker: map<Inst, seq<BrokerTrade>>, cfg: Config, now: Time)
    requires n < |enabled| && StoreMirrors(s, before, enabled[..n], broker, cfg, now)
    requires after.WellFormed() && TradesRebuilt(after, enabled[n], Lookup(broker, enabled[n]), cfg, now)
    requires forall other :: other != enabled[n] ==> SameTrades(before, after, other)
    ensures StoreMirrors(s, after, enabled[..n + 1], broker, cfg, now)
  {
    hide RebuiltTrades;
    assert enabled[..n + 1] == enabled[..n] + [enabled[n]];
    forall inst | inst in enabled[..n] && inst != enabled[n]
      ensures TradesRebuilt(after, inst, Lookup(broker, inst), cfg, now)
    {
      assert SameTrades(before, after, inst);
    }
    forall inst | inst !in enabled[..n + 1]
      ensures SameTrades(s, after, inst)
    {
      assert SameTrades(before, after, inst);
    }
  }

  // ---------------------------------------------------------------- what a reconcile achieves

  /** Tickets and risk follow the broker if the reconcile goes ahead and stay if it does not; the trade lists
      of the enabled instruments follow whatever dictionary came out of it. */
  ghost predicate Reconciled(before: Books, after: Books, round: Round, broker: map<Inst, seq<BrokerTrade>>) {
    && after.tracker == before.tracker.(tickets := after.tracker.tickets)
    && after.risk.WellFormed()
    && StoreMirrors(before.store, after.store, round.enabled, broker, round.cfg, round.now)
    && if round.Completes()
       then BooksMirror(before.tracker, before.risk, after.tracker, after.risk, round.answer.value, round.Scope(),
         broker)
       else broker == map[] && after.tracker == before.tracker && after.risk == before.risk
  }

  predicate OneSided(ts: seq<BrokerTrade>) {
    forall k :: 0 <= k < |ts| ==> Sign(ts[k].units) == Sign(ts[0].units)
  }

  lemma {:induction false} NetOfRebuilt(ts: seq<BrokerTrade>)
    ensures NetOfTickets(RebuiltTickets(ts)) == NetOfBroker(ts)
  {
    if ts != [] {
      var n := |ts| - 1;
      NetOfRebuilt(ts[..n]);
      assert RebuiltTickets(ts)[..n] == RebuiltTickets(ts[..n]);
    }
  }

  lemma RebuiltSlots(ts: seq<BrokerTrade>, holdSecs: int, now: Time)
    requires NoneFlat(ts)
    ensures SameSlots(RebuiltTrades(ts, holdSecs, now), RebuiltTickets(ts)) <==> OneSided(ts)
  {
    var trades, tickets := RebuiltTrades(ts, holdSecs, now), RebuiltTickets(ts);
    assert forall k :: 0 <= k < |ts| ==> SameTrade(trades[k], tickets[k]);
    assert forall k :: 0 <= k < |ts| ==> tickets[k].units == ts[k].units;
  }

  /** From any books at all, the reconciled ones hold the broker's trades slot by slot in every enabled
      instrument, and agree there exactly when the broker's trades are on one side. */
  lemma EnabledInstrumentsMirror(before: Books, after: Books, round: Round, broker: map<Inst, seq<BrokerTrade>>,
                                 inst: Inst)
    requires Reconciled(before, after, round, broker) && round.Completes()
    requires inst in round.enabled && inst != ""
    ensures var ts := round.Held(inst);
            && after.tracker.TicketsOf(inst) == RebuiltTickets(ts)
            && after.store.TradesOf(inst) == RebuiltTrades(ts, round.HoldSecsOf(inst), round.now)
            && after.risk.NetUnits(inst) == NetOfBroker(ts) == after.tracker.NetUnits(inst)
            && (InstAgrees(after, inst) <==> OneSided(ts))
  {
    var ts := round.Held(inst);
    assert Lookup(broker, inst) == ts;
    BrokerTradesHold(round.answer.value, round.Scope(), inst);
    NetOfRebuilt(ts);
    hide BrokerTrades;
    RebuiltSlots(ts, round.HoldSecsOf(inst), round.now);
    assert ts == [] ==> NetOfBroker(ts) == 0;
  }

  /** No trade and no risk in `inst`; tickets do not count. */
  predicate Vacant(b: Books, inst: Inst) {
    b.store.TradesOf(inst) == [] && b.risk.NetUnits(inst) == 0
  }

  /** Outside the enabled instruments the tickets are wiped and the other two books are not: these agree afterwards
      exactly when there was neither a trade nor risk, which for books that agreed before means no trade. */
  lemma OthersLoseTheirTickets(before: Books, after: Books, round: Round, broker: map<Inst, seq<BrokerTrade>>,
                               inst: Inst)
    requires Reconciled(before, after, round, broker) && round.Completes()
    requires round.Scope() != {} && inst !in round.enabled
    ensures after.tracker.TicketsOf(inst) == []
    ensures after.store.TradesOf(inst) == before.store.TradesOf(inst)
    ensures after.risk.NetUnits(inst) == before.risk.NetUnits(inst)
    ensures InstAgrees(after, inst) <==> Vacant(before, inst)
    ensures InstAgrees(before, inst) ==> (Vacant(before, inst) <==> before.store.TradesOf(inst) == [])
  {
    BrokerTradesHold(round.answer.value, round.Scope(), inst);
    assert SameTrades(before.store, after.store, inst);
    assert SameRisk(before.risk, after.risk, inst);
    if InstAgrees(before, inst) {
      SlotsHeldIffNet(before.store.TradesOf(inst), before.tracker.TicketsOf(inst));
    }
  }

  /** So, with something enabled, a completed reconcile leaves three agreeing books, whatever they were before,
      exactly when no enabled instrument is hedged at the broker and the others had neither trades nor risk. */
  lemma ReconcileRestoresAgreement(before: Books, after: Books, round: Round, broker: map<Inst, seq<BrokerTrade>>)
    requires Reconciled(before, after, round, broker) && round.Completes()
    requires round.enabled != [] && "" !in round.enabled
    ensures Agree(after) <==>
            && (forall inst :: inst in round.enabled ==> OneSided(round.Held(inst)))
            && (forall inst :: inst !in round.enabled ==> Vacant(before, inst))
  {
    assert round.enabled[0] in round.Scope();
    forall inst
      ensures inst in round.enabled ==> (InstAgrees(after, inst) <==> OneSided(round.Held(inst)))
      ensures inst !in round.enabled ==> (InstAgrees(after, inst) <==> Vacant(before, inst))
    {
      if inst in round.enabled {
        EnabledInstrumentsMirror(before, after, round, broker, inst);
      } else {
        OthersLoseTheirTickets(before, after, round, broker, inst);
      }
    }
    hide InstAgrees, OneSided, BrokerTrades, BooksMirror;
  }

  /** A reconcile that is called off still clears the trade lists of the enabled instruments, and only those:
      what agreed before agrees afterwards exactly when nothing was held. */
  lemma CalledOffReconcileSplits(before: Books, after: Books, round: Round, broker: map<Inst, seq<BrokerTrade>>,
                                 inst: Inst)
    requires Reconciled(before, after, round, broker) && !round.Completes()
    requires InstAgrees(before, inst) && inst in round.enabled
    ensures after.store.TradesOf(inst) == []
    ensures InstAgrees(after, inst) <==> before.store.TradesOf(inst) == []
  {
    assert Lookup(broker, inst) == [];
    SlotsHeldIffNet(before.store.TradesOf(inst), before.tracker.TicketsOf(inst));
  }

  /** Without a filter, an instrument the broker reports trades but no position for, and that was on no
      book before, gets risk but no tickets. */
  lemma UnlistedTradesGetNoTickets(before: Books, after: Books, round: Round, broker: map<Inst, seq<BrokerTrade>>,
                                   inst: Inst)
    requires Reconciled(before, after, round, broker) && round.Completes()
    requires round.Scope() == {}
    ensures after.tracker.NetUnits(inst) == after.risk.NetUnits(inst)
            <==> Reached(before.tracker, before.risk, round.answer.value, {}, inst)
                 || NetOfBroker(round.Held(inst)) == 0
  {
    var ts := round.Held(inst);
    NetOfRebuilt(ts);
    hide BrokerTrades;
    assert ts == [] ==> NetOfBroker(ts) == 0;
  }

  // ---------------------------------------------------------------- ages and prices

  /** A rebuilt trade is as old as its entry at the broker: its hold has run out exactly if that many seconds have
      passed since. */
  lemma RebuiltTradeExpiresOnTime(t: BrokerTrade, holdSecs: int, now: Time)
    requires holdSecs > 0
    ensures var trade := RebuiltTrade(t, holdSecs, now);
            && trade.entryTs == t.entryTime && trade.entryPrice == t.entryPrice && trade.NetUnits() == t.units
            && (trade.Expired() <==> now - t.entryTime >= 1000 * holdSecs)
            && trade.elapsedSecs >= 0
            && (now >= t.entryTime ==> 1000 * trade.elapsedSecs <= now - t.entryTime < 1000 * trade.elapsedSecs + 1000)
  {
  }

  /** The hold in question is that of the instrument's profile in minutes, or the configured default in seconds. */
  lemma RebuiltTradesHoldTheirMinutes(s: StoreV, inst: Inst, ts: seq<BrokerTrade>, cfg: Config, now: Time, k: nat)
    requires TradesRebuilt(s, inst, ts, cfg, now) && k < |ts|
    ensures |s.TradesOf(inst)| == |ts|
    ensures var trade, minutes := s.TradesOf(inst)[k], cfg.profiles(inst).holdMinutes;
            && (minutes.Some? && minutes.value >= 1 ==>
                  (trade.Expired() <==> now - ts[k].entryTime >= 60000 * minutes.value))
            && (minutes.None? && cfg.holdSeconds > 0 ==>
                  (trade.Expired() <==> now - ts[k].entryTime >= 1000 * cfg.holdSeconds))
  {
    var holdSecs := HoldSecs(cfg.profiles(inst).holdMinutes, cfg.holdSeconds);
    if holdSecs > 0 {
      RebuiltTradeExpiresOnTime(ts[k], holdSecs, now);
    }
  }

  /** The reference price weighs every entry price by its units: it lies between the lowest and the highest. */
  lemma ReferencePriceIsBetween(ts: seq<BrokerTrade>, low: real, high: real)
    requires ts != [] && forall k :: 0 <= k < |ts| ==> low <= ts[k].entryPrice <= high
    ensures low <= ReferencePrice(ts) <= high
  {
    hide GrossUnits, GrossValue;
    GrossValueIsBetween(ts, low, high);
    if GrossUnits(ts) > 0 {
      QuotientBetween(GrossValue(ts), GrossUnits(ts), low, high);
    }
  }

  lemma QuotientBetween(x: real, n: nat, low: real, high: real)
    requires n > 0 && low * n as real <= x <= high * n as real
    ensures low <= x / n as real <= high
  {
    var q := x / n as real;
    assert q * n as real == x;
    TimesKeepsOrder(q, low, n);
    TimesKeepsOrder(high, q, n);
  }

  lemma TimesKeepsOrder(a: real, b: real, n: nat)
    requires n > 0
    ensures a < b ==> a * n as real < b * n as real
  {
  }

  lemma {:induction false} GrossValueIsBetween(ts: seq<BrokerTrade>, low: real, high: real)
    requires forall k :: 0 <= k < |ts| ==> low <= ts[k].entryPrice <= high
    ensures low * GrossUnits(ts) as real <= GrossValue(ts) <= high * GrossUnits(ts) as real
  {
    hide GrossUnits, GrossValue, Abs;
    GrossSteps(ts);
    if ts != [] {
      var n := |ts| - 1;
      GrossValueIsBetween(ts[..n], low, high);
      WeightedBetween(GrossUnits(ts[..n]), GrossValue(ts[..n]), Abs(ts[n].units), ts[n].entryPrice, low, high);
    }
  }

  lemma GrossSteps(ts: seq<BrokerTrade>)
    ensures ts == [] ==> GrossUnits(ts) == 0 && GrossValue(ts) == 0.0
    ensures ts != [] ==>
              var n := |ts| - 1;
              && GrossUnits(ts) == GrossUnits(ts[..n]) + Abs(ts[n].units)
              && GrossValue(ts) == GrossValue(ts[..n]) + Abs(ts[n].units) as real * ts[n].entryPrice
  {
  }

  lemma WeightedBetween(n: nat, x: real, m: nat, price: real, low: real, high: real)
    requires low * n as real <= x <= high * n as real && low <= price <= high
    ensures low * (n + m) as real <= x + m as real * price <= high * (n + m) as real
  {
    assert (price - low) * m as real >= 0.0 && (high - price) * m as real >= 0.0;
    assert (n + m) as real == n as real + m as real;
  }

  /** Bought or sold at the reference price, the same units would have come to the same value. */
  lemma ReferencePriceTimesUnits(ts: seq<BrokerTrade>)
    requires ts != [] && NoneFlat(ts)
    ensures GrossUnits(ts) > 0 && ReferencePrice(ts) * GrossUnits(ts) as real == SumBy(ts, ValueOf)
  {
    hide ValueOf;
    GrossIsPositive(ts);
    GrossValueIsSum(ts);
  }

  /** Units times price, whatever the side. */
  function ValueOf(t: BrokerTrade): real {
    (if t.units < 0 then 0 - t.units else t.units) as real * t.entryPrice
  }

  lemma GrossIsPositive(ts: seq<BrokerTrade>)
    requires ts != [] && NoneFlat(ts)
    ensures GrossUnits(ts) > 0
  {
  }

  lemma {:induction false} GrossValueIsSum(ts: seq<BrokerTrade>)
    ensures GrossValue(ts) == SumBy(ts, ValueOf)
  {
    if ts != [] {
      GrossValueIsSum(ts[..|ts| - 1]);
    }
  }

  // ---------------------------------------------------------------- concrete failures

  const POUND: Inst := "GBP_USD"

  /** A position without a price is filed at zero, in books that agree: what an expiry pass can split later. */
  lemma PricelessPositionIsFiledAtZero(before: Books, after: Books, round: Round, broker: map<Inst, seq<BrokerTrade>>,
                                       inst: Inst)
    requires Reconciled(before, after, round, broker) && round.Completes()
    requires inst in round.enabled && inst != ""
    requires Reported(round.answer.value.trades, round.Scope(), inst) == []
    requires FirstHeld(round.answer.value.positions, inst).Some?
    requires FirstHeld(round.answer.value.positions, inst).value.price == None
    ensures InstAgrees(after, inst)
    ensures |after.store.TradesOf(inst)| == 1 && after.store.TradesOf(inst)[0].entryPrice == 0.0
  {
    hide Reconciled, InstAgrees;
    EnabledInstrumentsMirror(before, after, round, broker, inst);
    assert Sort<BrokerTrade>([], EntryTimeOf) == [];
  }

  /** A unit of euros on all three books, and a broker that does not answer. */
  lemma SilentBrokerSplitsOneUnit(cfg: Config, now: Time)
    ensures var b := OneUnit(1.0);
            var round := Round([EURO], None, false, cfg, now);
            var after := b.(store := b.store.Remove(EURO));
            Agree(b) && Reconciled(b, after, round, map[]) && !InstAgrees(after, EURO)
  {
    var b := OneUnit(1.0);
    var round := Round([EURO], None, false, cfg, now);
    var after := b.(store := b.store.Remove(EURO));
    OneUnitAgrees(1.0);
    assert forall inst :: inst !in [EURO] ==> inst != EURO;
    assert StoreMirrors(b.store, after.store, [EURO], map[], cfg, now);
    CalledOffReconcileSplits(b, after, round, map[], EURO);
  }

  /** The same unit, and a reconcile that looks at pounds only, of which there are none. */
  lemma PoundsOnlySplitsOneUnit(cfg: Config, now: Time)
    ensures var b := OneUnit(1.0);
            var round := Round([POUND], Some(Reply([], [RawPosition(POUND, 0, None)], now)), false, cfg, now);
            var after := b.(tracker := b.tracker.(tickets := map[]));
            Agree(b) && Reconciled(b, after, round, map[]) && !InstAgrees(after, EURO)
  {
    var b := OneUnit(1.0);
    var reply := Reply([], [RawPosition(POUND, 0, None)], now);
    var round := Round([POUND], Some(reply), false, cfg, now);
    var after := b.(tracker := b.tracker.(tickets := map[]));
    OneUnitAgrees(1.0);
    EuroIsNotPound();
    NothingAtBroker(reply, round.Scope());
    assert round.Scope() == {POUND};
    assert forall inst :: inst in [POUND] ==> inst == POUND;
    assert StoreMirrors(b.store, after.store, [POUND], map[], cfg, now);
    assert TicketsMirror(b.tracker, b.risk, after.tracker, reply, round.Scope());
    assert RiskMirrors(b.risk, after.risk, reply, round.Scope());
    OthersLoseTheirTickets(b, after, round, map[], EURO);
  }

  lemma EuroIsNotPound()
    ensures EURO != POUND
  {
    assert EURO[0] != POUND[0];
  }

  lemma NothingAtBroker(reply: Reply, scope: set<Inst>)
    requires reply.trades == [] && |reply.positions| == 1 && reply.positions[0].units == 0
    ensures forall inst :: BrokerTrades(reply, scope, inst) == []
    ensures Holds(map[], reply, scope)
  {
    assert Sort<BrokerTrade>([], EntryTimeOf) == [];
    forall inst
      ensures FirstHeld(reply.positions, inst) == None
    {
      assert FirstHeld(reply.positions[..0], inst) == None;
    }
  }

  /** One unit of euros open at the broker, listed as a trade and not as a position, and no list of instruments. */
  lemma UnlistedUnitSplits(cfg: Config, now: Time)
    ensures var b := EmptyBooks(0.0);
            var trade := RawTrade(EURO, Some(1), Some(1.0), Some(0));
            var round := Round([], Some(Reply([trade], [RawPosition(POUND, 0, None)], now)), false, cfg, now);
            var broker := map[EURO := [BrokerTrade(1, 1.0, 0)]];
            var after := b.(risk := b.risk.RecordFill(EURO, 1, Some(1.0)));
            Agree(b) && Reconciled(b, after, round, broker) && !InstAgrees(after, EURO)
  {
    var b := EmptyBooks(0.0);
    var reply := Reply([RawTrade(EURO, Some(1), Some(1.0), Some(0))], [RawPosition(POUND, 0, None)], now);
    var round := Round([], Some(reply), false, cfg, now);
    var broker := map[EURO := [BrokerTrade(1, 1.0, 0)]];
    var after := b.(risk := b.risk.RecordFill(EURO, 1, Some(1.0)));
    hide Agree, InstAgrees, BrokerTrades, BooksMirror, EmptyTracker, RiskV.RecordFill;
    EmptyBooksAgree(0.0);
    EuroIsNotPound();
    assert round.Scope() == {};
    assert StoreMirrors(b.store, after.store, [], broker, cfg, now);
    UnlistedUnitMirrors(reply, 0.0);
    OneUnitAtBroker(reply);
    OneUnitNets();
    UnlistedTradesGetNoTickets(b, after, round, broker, EURO);
    assert InstAgrees(after, EURO) ==> after.tracker.NetUnits(EURO) == after.risk.NetUnits(EURO) by {
      AgreeingNets(after, EURO);
    }
  }

  lemma AgreeingNets(b: Books, inst: Inst)
    ensures InstAgrees(b, inst) ==> b.tracker.NetUnits(inst) == b.risk.NetUnits(inst)
  {
  }

  lemma OneUnitNets()
    ensures var one := [BrokerTrade(1, 1.0, 0)]; NetOfBroker(one) == 1 && ReferencePrice(one) == 1.0
  {
    var one := [BrokerTrade(1, 1.0, 0)];
    assert one[..0] == [] && GrossUnits(one) == 1 && GrossValue(one) == 1.0;
  }

  lemma UnlistedUnitMirrors(reply: Reply, costBps: real)
    requires reply.trades == [RawTrade(EURO, Some(1), Some(1.0), Some(0))]
    requires reply.positions == [RawPosition(POUND, 0, None)]
    ensures var b := EmptyBooks(costBps);
            var risk := b.risk.RecordFill(EURO, 1, Some(1.0));
            && BooksMirror(b.tracker, b.risk, b.tracker, risk, reply, {}, map[EURO := [BrokerTrade(1, 1.0, 0)]])
            && risk.WellFormed() && !Reached(b.tracker, b.risk, reply, {}, EURO)
  {
    hide BrokerTrades, NetOfBroker, ReferencePrice;
    var b := EmptyBooks(costBps);
    EuroIsNotPound();
    OneUnitAtBroker(reply);
    OneUnitNets();
    assert !Reached(b.tracker, b.risk, reply, {}, EURO);
    assert RiskMirrors(b.risk, b.risk.RecordFill(EURO, 1, Some(1.0)), reply, {});
  }

  lemma OneUnitAtBroker(reply: Reply)
    requires reply.trades == [RawTrade(EURO, Some(1), Some(1.0), Some(0))]
    requires |reply.positions| == 1 && reply.positions[0].units == 0
    ensures forall inst :: BrokerTrades(reply, {}, inst) == if inst == EURO then [BrokerTrade(1, 1.0, 0)] else []
    ensures Holds(map[EURO := [BrokerTrade(1, 1.0, 0)]], reply, {})
  {
    var one := [BrokerTrade(1, 1.0, 0)];
    assert one[..0] == [] && Sort(one, EntryTimeOf) == one && Sort<BrokerTrade>([], EntryTimeOf) == [];
    forall inst
      ensures FirstHeld(reply.positions, inst) == None
      ensures Reported(reply.trades, {}, inst) == if inst == EURO then one else []
    {
      assert FirstHeld(reply.positions[..0], inst) == None;
      assert Reported(reply.trades[..0], {}, inst) == [];
    }
  }
}
