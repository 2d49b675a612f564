/** The three books of the execution engine as one value, and what each engine operation does to it. */
module Books {
  import opened Common
  import opened Tpsl
  import opened TradeState
  import opened PositionTracker
  import opened RiskLimits

  datatype Books = Books(store: StoreV, tracker: TrackerV, risk: RiskV)

  /** A broker's reply to an order or a close: refused, or filled, possibly with its own price and units. */
  datatype Answer = Rejected | Filled(price: Option<real>, units: Option<int>) {
    /** An order for `delta` counts as executed unless nothing at all was filled. */
    predicate Executes(delta: int) {
      Filled? && units.GetOr(delta) != 0
    }

    /** Filled, and with what was asked for. */
    predicate InFull(asked: int) {
      Filled? ==> units.GetOr(asked) == asked
    }
  }

  /** The two things that can play the tracker: the backtest ticket book, which never refuses,
      or the live exposure tracker, which asks the broker about every slot it closes. */
  datatype Venue = Simulated | Live(closeAnswers: int -> Answer)

  function FillPrice(reported: Option<real>, asked: real): real {
    if reported.Some? && reported.value != 0.0 then reported.value else asked
  }

  /** Close slot `i`; the flag says whether a trade record came out of it. */
  function VenueClose(b: Books, venue: Venue, inst: Inst, i: int, c: Closing): (Books, bool) {
    var closable := b.tracker.Closable(inst, i);
    match venue
    case Simulated => (b.(tracker := b.tracker.Close(inst, i, c)), closable)
    case Live(answers) =>
      if i < 0 || i >= |b.tracker.TicketsOf(inst)| || answers(i).Rejected? then (b, false)
      else
        var fill := FillPrice(answers(i).price, c.price);
        var tracker := b.tracker.Close(inst, i, c.(price := fill));
        if !closable then (b.(tracker := tracker), false)
        else
          var filled := answers(i).units.GetOr(-b.tracker.TicketsOf(inst)[i].units);
          (Books(b.store, tracker, b.risk.RecordFill(inst, filled, Some(fill))), true)
  }

  // ---------------------------------------------------------------- closing from the back

  /** A closing loop in flight: the books, the working copy of the trade list, whether anything was closed,
      and whether an exception has ended the loop. */
  datatype Sweep = Sweep(books: Books, trades: seq<Trade>, closedAny: bool, aborted: bool)

  /** How a pass over an instrument ends; an aborted one has raised, and its working copy is lost. */
  datatype Ending = NothingClosed | Closed | Aborted

  /** Work through the slots below `n` from the back, closing those with an exit. A slot is closed before the
      profit it reports is divided by the trade's entry price, so a zero there aborts the loop half way. */
  function CloseDown(s: Sweep, venue: Venue, inst: Inst, exits: seq<Option<Exit>>, time: Time, n: nat): Sweep
    requires n <= |exits|
    decreases n
  {
    if n == 0 then s
    else
      var i := n - 1;
      if exits[i].None? || i >= |s.trades| then CloseDown(s, venue, inst, exits, time, i)
      else
        var exit := exits[i].value;
        var (books, ok) := VenueClose(s.books, venue, inst, i, Closing(exit.price, time, exit.reason, exit.price));
        if !ok then CloseDown(s.(books := books), venue, inst, exits, time, i)
        else if s.trades[i].entryPrice == 0.0 then Sweep(books, s.trades, true, true)
        else CloseDown(Sweep(books, RemoveAt(s.trades, i), true, false), venue, inst, exits, time, i)
  }

  /** Bring the risk inventory in line with the tickets. */
  function SyncRisk(b: Books, venue: Venue, inst: Inst, price: real, fallback: real): Books {
    var net := b.tracker.NetUnits(inst);
    if venue.Live? then
      if net == b.risk.NetUnits(inst) then b
      else
        b.(risk := if net != 0 then b.risk.Flatten(inst).RecordFill(inst, net, Some(price)) else b.risk.Flatten(inst))
    else
      var at := if price != 0.0 then price else fallback;
      b.(risk := if net != 0 then b.risk.Flatten(inst).RecordFill(inst, net, Some(at)) else b.risk.Flatten(inst))
  }

  function StoreTrades(store: StoreV, inst: Inst, trades: seq<Trade>): StoreV {
    if trades != [] then store.Replace(inst, trades) else store.Remove(inst)
  }

  // ---------------------------------------------------------------- stop-loss / take-profit pass

  function ExitsOf(ts: seq<Ticket>, high: real, low: real, cfg: TpslConfig, scalping: bool): (r: seq<Option<Exit>>)
    ensures |r| == |ts|
    ensures forall k :: 0 <= k < |r| ==> r[k] == IntraCandle(high, low, ts[k].tpsl, cfg, scalping).0
  {
    seq(|ts|, k requires 0 <= k < |ts| => IntraCandle(high, low, ts[k].tpsl, cfg, scalping).0)
  }

  function CheckedTickets(ts: seq<Ticket>, high: real, low: real, cfg: TpslConfig, scalping: bool): (r: seq<Ticket>)
    ensures |r| == |ts|
    ensures forall k :: 0 <= k < |r| ==>
      r[k] == ts[k].(tpsl := IntraCandle(high, low, ts[k].tpsl, cfg, scalping).1)
  {
    seq(|ts|, k requires 0 <= k < |ts| => ts[k].(tpsl := IntraCandle(high, low, ts[k].tpsl, cfg, scalping).1))
  }

  /** The price of the lowest slot with an exit, the last one a loop from the back visits. */
  function LowestExitPrice(exits: seq<Option<Exit>>): real {
    if exits == [] then 0.0
    else if exits[0].Some? then exits[0].value.price
    else LowestExitPrice(exits[1..])
  }

  predicate AnyExit(exits: seq<Option<Exit>>) {
    exists k :: 0 <= k < |exits| && exits[k].Some?
  }

  /** The checker has run on every ticket; nothing has been closed yet. */
  function Checked(b: Books, inst: Inst, high: real, low: real, cfg: TpslConfig, scalping: bool): Books {
    b.(tracker := b.tracker.(tickets :=
      b.tracker.tickets[inst := CheckedTickets(b.tracker.TicketsOf(inst), high, low, cfg, scalping)]))
  }

  function TpslPass(b: Books, venue: Venue, inst: Inst, high: real, low: real, time: Time, cfg: TpslConfig,
                    scalping: bool)
    : (Books, Ending)
  {
    if b.tracker.NetUnits(inst) == 0 || !cfg.Active() then (b, NothingClosed)
    else
      var exits := ExitsOf(b.tracker.TicketsOf(inst), high, low, cfg, scalping);
      var checked := Checked(b, inst, high, low, cfg, scalping);
      if !AnyExit(exits) then (checked, NothingClosed)
      else
        var s := CloseDown(Sweep(checked, b.store.TradesOf(inst), false, false), venue, inst, exits, time, |exits|);
        if s.aborted then (s.books, Aborted)
        else if !s.closedAny then (s.books, NothingClosed)
        else
          var left := s.books.tracker.TicketsOf(inst);
          var price := LowestExitPrice(exits);
          (SyncRisk(s.books.(store := StoreTrades(s.books.store, inst, s.trades)), venue, inst, price,
                    if left != [] then left[0].entryPrice else price),
           Closed)
  }

  // ---------------------------------------------------------------- hold-expiry pass

  function ExpiriesOf(aged: seq<Trade>, price: real): (r: seq<Option<Exit>>)
    ensures |r| == |aged|
    ensures forall k :: 0 <= k < |r| ==> r[k] == if aged[k].Expired() then Some(Exit(HoldExpiry, price)) else None
  {
    seq(|aged|, k requires 0 <= k < |aged| => if aged[k].Expired() then Some(Exit(HoldExpiry, price)) else None)
  }

  function ExpiryPass(b: Books, venue: Venue, inst: Inst, price: real, time: Time, tickSecs: int): (Books, Ending) {
    var trades := b.store.TradesOf(inst);
    if b.risk.NetUnits(inst) == 0 || trades == [] then (b, NothingClosed)
    else
      var aged := AgeAll(trades, tickSecs);
      var exits := ExpiriesOf(aged, price);
      if !AnyExit(exits) then (b.(store := b.store.Replace(inst, aged)), NothingClosed)
      else
        var s := CloseDown(Sweep(b, aged, false, false), venue, inst, exits, time, |exits|);
        if s.aborted then (s.books, Aborted)
        else if !s.closedAny then (s.books, NothingClosed)
        else
          (SyncRisk(s.books.(store := StoreTrades(s.books.store, inst, s.trades)), venue, inst, price, price), Closed)
  }

  // ---------------------------------------------------------------- planning

  /** What the caller asks for; `hardBlocked` says the list of hard blocks is not empty. */
  datatype Request = Request(
    now: Time,
    ready: bool,
    side: Side,
    units: nat,
    holdSecs: int,
    signalKey: string,
    hardBlocked: bool,
    price: real,
    isBundle: bool,
    disableStacking: bool)

  datatype PlanOutcome = PlanOutcome(targetUnits: int, ready: bool, stateChanged: bool)

  /** The guards between a ready request and a new trade, other than the caps. */
  predicate Admits(store: StoreV, inst: Inst, r: Request) {
    var net := NetOfTrades(store.TradesOf(inst));
    && r.ready
    && !(r.disableStacking && net != 0)
    && !(net != 0 && r.side != 0 && r.side != Sign(net))
  }

  ghost predicate Appends(store: StoreV, limits: Limits, inst: Inst, r: Request) {
    && Admits(store, inst, r)
    && r.side != 0
    && r.units > 0
    && !(r.signalKey != "" && store.LastSignalOf(inst) == Some(r.signalKey))
    && !(limits.maxPositionsPerPair > 0 && |store.TradesOf(inst)| >= limits.maxPositionsPerPair)
    && !(limits.maxTotalPositions > 0 && store.TotalCount() >= limits.maxTotalPositions as real)
  }

  /** The engine passes no global limit on holding times, so only the trade's own hold counts. */
  function NewTrade(r: Request): Trade {
    Trade(r.side, r.units, r.now, r.holdSecs, None, 0, r.price)
  }

  ghost function Plan(store: StoreV, limits: Limits, inst: Inst, currentUnits: int, r: Request): (StoreV, PlanOutcome) {
    var trades := store.TradesOf(inst);
    var cleared := inst in store.pendingClose && NetOfTrades(trades) == currentUnits;
    var s := if cleared then store.(pendingClose := store.pendingClose - {inst}) else store;
    if r.hardBlocked then
      var gone := s.Remove(inst);
      (if trades != [] then gone.(pendingClose := gone.pendingClose + {inst}) else gone,
       PlanOutcome(0, false, trades != [] || cleared))
    else if Appends(store, limits, inst, r) then
      (s.SetLastSignal(inst, r.signalKey).Replace(inst, trades + [NewTrade(r)]),
       PlanOutcome(NetOfTrades(trades + [NewTrade(r)]), true, true))
    else
      (StoreTrades(s, inst, trades),
       PlanOutcome(NetOfTrades(trades), Admits(store, inst, r) && (r.side == 0 || r.units == 0), cleared))
  }

  // ---------------------------------------------------------------- allocation

  /** How the outside world treats one allocation: the breaker's flag, the answers to expiry
      closings, and the answer to the order itself. */
  datatype Weather = Weather(blocked: bool, venue: Venue, order: Answer)

  /** The request as the engine sees it while the structural breaker may be blocking. */
  function Gated(r: Request, blocked: bool): Request {
    if blocked then r.(ready := false) else r
  }

  /** The order that follows the plan for a gated request. */
  ghost function DeltaOf(b: Books, limits: Limits, inst: Inst, r: Request): int {
    Plan(b.store, limits, inst, b.risk.NetUnits(inst), r).1.targetUnits - b.risk.NetUnits(inst)
  }

  /** The guard or the broker stops that order. */
  ghost predicate Refused(b: Books, limits: Limits, inst: Inst, r: Request, order: Answer) {
    var delta := DeltaOf(b, limits, inst, r);
    delta != 0 && (!b.risk.CanAdd(limits, inst, delta, Some(r.price)) || !order.Executes(delta))
  }

  /** What becomes of books `b` once the plan has put `store` on file and asks for `target` units. */
  ghost function Settle(b: Books, limits: Limits, inst: Inst, r: Request, order: Answer, store: StoreV, target: int)
    : Books
  {
    var delta := target - b.risk.NetUnits(inst);
    if delta == 0 then
      b.(store := store)
    else if !b.risk.CanAdd(limits, inst, delta, Some(r.price)) || !order.Executes(delta) then
      b.(store := store.Restore(inst, b.store.TakeSnapshot(inst)))
    else
      Books(store,
            b.tracker.SyncToNet(inst, target, r.price, r.now, r.isBundle),
            b.risk.RecordFill(inst, order.units.GetOr(delta), Some(order.price.GetOr(r.price))))
  }

  /** Planning and settling a gated request: all that follows the expiry pass. */
  ghost function Transact(b: Books, limits: Limits, inst: Inst, r: Request, order: Answer): Books {
    var (store, outcome) := Plan(b.store, limits, inst, b.risk.NetUnits(inst), r);
    Settle(b, limits, inst, r, order, store, outcome.targetUnits)
  }

  /** An expiry pass that raises takes the rest of the allocation with it. */
  ghost function Allocate(b: Books, limits: Limits, inst: Inst, r: Request, w: Weather, tickSecs: int)
    : (Books, Ending)
  {
    var (expired, ending) := ExpiryPass(b, w.venue, inst, r.price, r.now, tickSecs);
    if ending.Aborted? then (expired, ending)
    else (Transact(expired, limits, inst, Gated(r, w.blocked), w.order), ending)
  }

  /** The order an allocation hands to the broker, zero if it does not get that far. */
  ghost function AllocationOrder(b: Books, limits: Limits, inst: Inst, r: Request, w: Weather, tickSecs: int): int {
    var (expired, ending) := ExpiryPass(b, w.venue, inst, r.price, r.now, tickSecs);
    var delta := DeltaOf(expired, limits, inst, Gated(r, w.blocked));
    if !ending.Aborted? && expired.risk.CanAdd(limits, inst, delta, Some(r.price)) then delta else 0
  }

  // ---------------------------------------------------------------- runs

  /** What can happen to the books; the limits of an allocation are those in force at the time. */
  datatype Event =
    | TpslCheck(inst: Inst, venue: Venue, high: real, low: real, time: Time, cfg: TpslConfig, scalping: bool)
    | ExpiryCheck(inst: Inst, venue: Venue, price: real, time: Time, tickSecs: int)
    | Allocation(inst: Inst, limits: Limits, request: Request, weather: Weather, tickSecs: int)
    | MarkPrices(inst: Inst, price: real, high: real, low: real)

  /** One event; an exception is caught by the loop that drives the engine, which carries on with what is left. */
  ghost function Step(b: Books, e: Event): Books {
    match e
    case TpslCheck(inst, venue, high, low, time, cfg, scalping) =>
      TpslPass(b, venue, inst, high, low, time, cfg, scalping).0
    case ExpiryCheck(inst, venue, price, time, tickSecs) => ExpiryPass(b, venue, inst, price, time, tickSecs).0
    case Allocation(inst, limits, request, weather, tickSecs) => Allocate(b, limits, inst, request, weather, tickSecs).0
    case MarkPrices(inst, price, high, low) => b.(tracker := b.tracker.Mark(inst, price, high, low))
  }

  ghost function Run(b: Books, events: seq<Event>): Books {
    if events == [] then b else Step(Run(b, events[..|events| - 1]), events[|events| - 1])
  }

  function EmptyBooks(costBps: real): Books {
    Books(EMPTY_STORE, EmptyTracker(costBps), EMPTY_RISK)
  }
}
