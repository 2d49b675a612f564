/** The backtest as it runs: events are aligned with each candle, the exits come first, and what the signal side makes
    of the gate on offer becomes an allocation, no sooner than a minute after the last entry. */
module SimulationReplay {
  import opened Common
  import opened Tpsl
  import opened PositionTracker
  import opened Books
  import opened Agreement
  import opened OrderAgreement
  import opened TradeState
  import opened ExecutionEngine
  import opened Simulator
  import opened LossBound
  import opened HoldBound
  import opened SessionPolicy
  import E = EventAlignment
  import T = TimeSort

  const ENTRY_COOLDOWN := 60000

  /** What the thresholds and bundles make of the gate on offer. */
  datatype Verdict = Verdict(admitted: bool, isBundle: bool)

  /** The signal side, one function each for admission, direction (from the gate, the last close, this close and whether
      it is a bundle), size at a price, and the key of a signal. */
  datatype Policy = Policy(
    admits: Option<string> -> Verdict,
    side: (Option<string>, Option<real>, real, bool) -> Side,
    size: real -> nat,
    signalKey: Option<string> -> string,
    session: Option<Window>)

  /** The two flags of the structural breaker at a candle. */
  datatype Breaker = Breaker(blocked: bool, scalping: bool)

  datatype Setup = Setup(p: Params, policy: Policy, signatures: seq<E.Signature>, gates: seq<E.Gate>) {
    ghost predicate Valid() {
      T.Ascending(signatures, E.SignatureTime) && T.Ascending(gates, E.GateTime)
    }
  }

  /** What is carried from candle to candle besides the books. */
  datatype Memory = Memory(lastMid: Option<real>, lastEntry: Option<Time>)

  datatype Sim = Sim(books: Books, memory: Memory)

  // ---------------------------------------------------------------- one candle

  /** What the exits need of a decision. */
  function ExitDecision(hazard: real, breaker: Breaker): Decision {
    Decision(hazard, false, 0, 0, "", false, false, breaker.blocked, breaker.scalping)
  }

  predicate Cooling(memory: Memory, now: Time) {
    memory.lastEntry.Some? && now - memory.lastEntry.value < ENTRY_COOLDOWN
  }

  /** The decision at a candle, once the exits have left `exited`. */
  function DecisionAt(s: Setup, memory: Memory, exited: Books, c: Candle, gate: Option<string>, hazard: real,
                      breaker: Breaker): Decision
  {
    var verdict := s.policy.admits(gate);
    var hardBlocked := !Tradable(s.policy.session, c.time, exited.tracker.NetUnits(s.p.inst) != 0);
    Decision(hazard, verdict.admitted && !Cooling(memory, c.time),
             s.policy.side(gate, memory.lastMid, c.close, verdict.isBundle), s.policy.size(c.close),
             s.policy.signalKey(gate), hardBlocked, verdict.isBundle, breaker.blocked, breaker.scalping)
  }

  /** An order in the direction of a ready signal. */
  predicate IsEntry(d: Decision, gate: Option<string>, ordered: int) {
    && ordered != 0 && d.admitted && !d.hardBlocked && gate.Some?
    && ((d.side == 1 && ordered > 0) || (d.side == -1 && ordered < 0))
  }

  ghost function OrderAt(p: Params, exited: Books, c: Candle, d: Decision): int {
    AllocationOrder(exited, p.limits, p.inst, RequestAt(p, c, d), WeatherAt(d), p.tickSecs)
  }

  function MemoryAfter(memory: Memory, c: Candle, entered: bool): Memory {
    Memory(Some(c.close), if entered then Some(c.time) else memory.lastEntry)
  }

  /** Nothing in the exits depends on the signal side. */
  lemma ExitsIgnoreSignals(p: Params, b: Books, c: Candle, d: Decision, e: Decision)
    requires d.hazard == e.hazard && d.scalping == e.scalping
    ensures ExitPhase(p, b, c, d) == ExitPhase(p, b, c, e)
  {
    hide TpslPass;
  }

  ghost function EntryDecision(s: Setup, sim: Sim, c: Candle, gate: Option<string>, hazard: real, breaker: Breaker)
    : Decision
  {
    DecisionAt(s, sim.memory, ExitPhase(s.p, sim.books, c, ExitDecision(hazard, breaker)).0, c, gate, hazard, breaker)
  }

  lemma EntryDecisionKeeps(s: Setup, sim: Sim, c: Candle, gate: Option<string>, hazard: real, breaker: Breaker)
    ensures var d, e := EntryDecision(s, sim, c, gate, hazard, breaker), ExitDecision(hazard, breaker);
            d.hazard == e.hazard && d.scalping == e.scalping
  {
  }

  /** Whether the candle ends with an entry order. */
  ghost predicate EntersAt(s: Setup, sim: Sim, c: Candle, gate: Option<string>, hazard: real, breaker: Breaker)
  {
    var d := EntryDecision(s, sim, c, gate, hazard, breaker);
    IsEntry(d, gate, OrderAt(s.p, ExitPhase(s.p, sim.books, c, d).0, c, d))
  }

  ghost function SimStep(s: Setup, sim: Sim, c: Candle, gate: Option<string>, hazard: real, breaker: Breaker)
    : Option<Sim>
  {
    match CandleStep(s.p, sim.books, c, EntryDecision(s, sim, c, gate, hazard, breaker))
    case None => None
    case Some(books) => Some(Sim(books, MemoryAfter(sim.memory, c, EntersAt(s, sim, c, gate, hazard, breaker))))
  }

  /** A step, phase by phase. */
  lemma StepByPhases(s: Setup, sim: Sim, c: Candle, gate: Option<string>, hazard: real, breaker: Breaker)
    ensures var (exited, ending) := ExitPhase(s.p, sim.books, c, ExitDecision(hazard, breaker));
            var d := DecisionAt(s, sim.memory, exited, c, gate, hazard, breaker);
            var (entered, last) := EntryPhase(s.p, exited, c, d);
            SimStep(s, sim, c, gate, hazard, breaker)
            == if ending.Aborted? || last.Aborted? then None
               else Some(Sim(AfterMark(s.p, entered, c),
                             MemoryAfter(sim.memory, c, IsEntry(d, gate, OrderAt(s.p, exited, c, d)))))
  {
    hide ExitPhase, EntryPhase, DecisionAt, IsEntry, OrderAt, AfterMark, MemoryAfter;
    EntryDecisionKeeps(s, sim, c, gate, hazard, breaker);
    ExitsIgnoreSignals(s.p, sim.books, c, EntryDecision(s, sim, c, gate, hazard, breaker),
                       ExitDecision(hazard, breaker));
  }

  // ---------------------------------------------------------------- all candles

  /** The gate on offer at candle `n`. */
  function GateAt(s: Setup, candles: seq<Candle>, n: nat): Option<string>
    requires n < |candles|
  {
    var offered := E.Offered(s.gates, if n == 0 then None else Some(candles[n - 1].time), candles[n].time);
    if offered.Some? then Some(s.gates[offered.value].payload) else None
  }

  function HazardAtCandle(s: Setup, candles: seq<Candle>, n: nat): real
    requires n < |candles|
  {
    E.HazardAt(s.signatures, candles[n].time)
  }

  const NO_MEMORY := Memory(None, None)

  /** The state after the first `n` candles, if the backtest gets that far. */
  ghost function Backtest(s: Setup, start: Books, candles: seq<Candle>, breakers: seq<Breaker>, n: nat): Option<Sim>
    requires n <= |candles| == |breakers|
  {
    if n == 0 then Some(Sim(start, NO_MEMORY))
    else
      match Backtest(s, start, candles, breakers, n - 1)
      case None => None
      case Some(sim) =>
        SimStep(s, sim, candles[n - 1], GateAt(s, candles, n - 1), HazardAtCandle(s, candles, n - 1), breakers[n - 1])
  }

  /** Candle `n` ends with an entry order. */
  ghost predicate Enters(s: Setup, start: Books, candles: seq<Candle>, breakers: seq<Breaker>, n: nat)
    requires n < |candles| == |breakers|
  {
    var sim := Backtest(s, start, candles, breakers, n);
    sim.Some?
    && EntersAt(s, sim.value, candles[n], GateAt(s, candles, n), HazardAtCandle(s, candles, n), breakers[n])
  }

  lemma NothingYet(s: Setup, start: Books, candles: seq<Candle>, breakers: seq<Breaker>)
    requires |candles| == |breakers|
    ensures Backtest(s, start, candles, breakers, 0) == Some(Sim(start, NO_MEMORY))
  {
  }

  lemma OneMoreCandle(s: Setup, start: Books, candles: seq<Candle>, breakers: seq<Breaker>, n: nat)
    requires n < |candles| == |breakers|
    ensures Backtest(s, start, candles, breakers, n + 1)
            == match Backtest(s, start, candles, breakers, n)
               case None => None
               case Some(sim) =>
                 SimStep(s, sim, candles[n], GateAt(s, candles, n), E.HazardAt(s.signatures, candles[n].time),
                         breakers[n])
  {
    hide SimStep, GateAt;
  }

  lemma {:induction false} StoppedForGood(s: Setup, start: Books, candles: seq<Candle>, breakers: seq<Breaker>,
                                          n: nat, m: nat)
    requires n <= m <= |candles| == |breakers| && Backtest(s, start, candles, breakers, n).None?
    ensures Backtest(s, start, candles, breakers, m).None?
  {
    hide SimStep;
    if n < m {
      StoppedForGood(s, start, candles, breakers, n, m - 1);
    }
  }

  /** The decision such a backtest takes at candle `n`, if it gets that far. */
  ghost function DecisionOf(s: Setup, start: Books, candles: seq<Candle>, breakers: seq<Breaker>, n: nat): Decision
    requires n < |candles| == |breakers|
  {
    match Backtest(s, start, candles, breakers, n)
    case None => ExitDecision(0.0, breakers[n])
    case Some(sim) =>
      EntryDecision(s, sim, candles[n], GateAt(s, candles, n), HazardAtCandle(s, candles, n), breakers[n])
  }

  ghost function Decisions(s: Setup, start: Books, candles: seq<Candle>, breakers: seq<Breaker>): (r: seq<Decision>)
    requires |candles| == |breakers|
    ensures |r| == |candles| && forall n :: 0 <= n < |r| ==> r[n] == DecisionOf(s, start, candles, breakers, n)
  {
    seq(|candles|, n requires 0 <= n < |candles| => DecisionOf(s, start, candles, breakers, n))
  }

  /** A backtest over gates and signatures is a replay under the decisions it takes, so whatever holds of every replay
      holds of it. */
  lemma {:induction false} BacktestIsAReplay(s: Setup, start: Books, candles: seq<Candle>, breakers: seq<Breaker>,
                                             n: nat)
    requires n <= |candles| == |breakers|
    ensures var sim := Backtest(s, start, candles, breakers, n);
            Replay(s.p, start, candles, Decisions(s, start, candles, breakers), n)
            == if sim.Some? then Some(sim.value.books) else None
  {
    hide CandleStep, EntryDecision, EntersAt, GateAt, HazardAtCandle;
    if n > 0 {
      BacktestIsAReplay(s, start, candles, breakers, n - 1);
      assert Decisions(s, start, candles, breakers)[n - 1] == DecisionOf(s, start, candles, breakers, n - 1);
    }
  }

  // ---------------------------------------------------------------- entries are spaced

  predicate InOrder(candles: seq<Candle>) {
    forall i, j :: 0 <= i < j < |candles| ==> candles[i].time <= candles[j].time
  }

  /** After an entry at candle `i`, memory holds its time or that of a later entry. */
  lemma {:induction false} EntryIsRemembered(s: Setup, start: Books, candles: seq<Candle>, breakers: seq<Breaker>,
                                             i: nat, n: nat)
    requires i < n <= |candles| == |breakers| && InOrder(candles)
    requires Enters(s, start, candles, breakers, i)
    ensures var sim := Backtest(s, start, candles, breakers, n);
            sim.Some? ==> sim.value.memory.lastEntry.Some? && sim.value.memory.lastEntry.value >= candles[i].time
    decreases n
  {
    hide CandleStep, EntryDecision, EntersAt, GateAt, HazardAtCandle;
    if i < n - 1 {
      EntryIsRemembered(s, start, candles, breakers, i, n - 1);
    }
  }

  lemma EnteringIsNotCooling(s: Setup, sim: Sim, c: Candle, gate: Option<string>, hazard: real, breaker: Breaker)
    requires EntersAt(s, sim, c, gate, hazard, breaker)
    ensures !Cooling(sim.memory, c.time)
  {
    hide ExitPhase, OrderAt;
  }

  /** Any two entry orders of a backtest are at least a minute apart. */
  lemma EntryOrdersAreSpaced(s: Setup, start: Books, candles: seq<Candle>, breakers: seq<Breaker>, i: nat, j: nat)
    requires i < j < |candles| == |breakers| && InOrder(candles)
    requires Enters(s, start, candles, breakers, i) && Enters(s, start, candles, breakers, j)
    ensures candles[j].time - candles[i].time >= 60000
  {
    hide EntersAt, Backtest, GateAt, HazardAtCandle;
    EntryIsRemembered(s, start, candles, breakers, i, j);
    EnteringIsNotCooling(s, Backtest(s, start, candles, breakers, j).value, candles[j], GateAt(s, candles, j),
                         HazardAtCandle(s, candles, j), breakers[j]);
  }

  /** A candle that ends with an entry order had a gate on offer that was admitted, in a session still open through its
      buffer unless something was held, and the order goes the way the signal points. */
  lemma EntriesAreAdmitted(s: Setup, start: Books, candles: seq<Candle>, breakers: seq<Breaker>, n: nat)
    requires n < |candles| == |breakers| && Enters(s, start, candles, breakers, n)
    ensures var sim, gate := Backtest(s, start, candles, breakers, n).value, GateAt(s, candles, n);
            var d := DecisionOf(s, start, candles, breakers, n);
            var exited := ExitPhase(s.p, sim.books, candles[n], d).0;
            && gate.Some? && s.policy.admits(gate).admitted
            && d.side == s.policy.side(gate, LastClose(candles, n), candles[n].close, s.policy.admits(gate).isBundle)
            && d.units == s.policy.size(candles[n].close) && d.signalKey == s.policy.signalKey(gate)
            && (d.side == 1 || d.side == -1)
            && (d.side == 1 <==> OrderAt(s.p, exited, candles[n], d) > 0)
            && Tradable(s.policy.session, candles[n].time, exited.tracker.NetUnits(s.p.inst) != 0)
  {
    hide ExitPhase, OrderAt, GateAt, HazardAtCandle, Tradable, CandleStep;
    MemoryHoldsLastClose(s, start, candles, breakers, n);
    var sim, gate, hazard := Backtest(s, start, candles, breakers, n).value, GateAt(s, candles, n),
                             HazardAtCandle(s, candles, n);
    EntryDecisionKeeps(s, sim, candles[n], gate, hazard, breakers[n]);
    ExitsIgnoreSignals(s.p, sim.books, candles[n], EntryDecision(s, sim, candles[n], gate, hazard, breakers[n]),
                       ExitDecision(hazard, breakers[n]));
  }

  /** Whatever else is decided at a candle, it sees the hazard of that moment and the breaker's flags as they are. */
  lemma DecisionsSeeTheCandle(s: Setup, start: Books, candles: seq<Candle>, breakers: seq<Breaker>, n: nat)
    requires n < |candles| == |breakers|
    ensures var d := DecisionOf(s, start, candles, breakers, n);
            && (d.blocked <==> breakers[n].blocked) && (d.scalping <==> breakers[n].scalping)
            && (Backtest(s, start, candles, breakers, n).Some? ==>
                  match E.Latest(s.signatures, candles[n].time)
                  case Some(signature) => d.hazard == signature.hazard
                  case None => d.hazard == 999.0)
  {
    hide Backtest, ExitPhase, GateAt, Tradable, Cooling;
  }

  /** A trade that a candle adds is on the side decided, of the size the policy gives at the close, entered at that
      close and time, to be held for the minutes given and at least one. Its signal is new and remembered, and it joins
      others only where stacking is allowed. */
  lemma EnteredTradeIsAsDecided(p: Params, b: Books, c: Candle, d: Decision)
    requires var expired := ExpiryPass(b, Simulated, p.inst, c.close, c.time, p.tickSecs).0;
             |EntryPhase(p, b, c, d).0.store.TradesOf(p.inst)| > |expired.store.TradesOf(p.inst)|
    ensures var expired := ExpiryPass(b, Simulated, p.inst, c.close, c.time, p.tickSecs).0;
            && d.admitted && !d.hardBlocked && !d.blocked && d.side != 0
            && EntryPhase(p, b, c, d).0.store.TradesOf(p.inst)
               == expired.store.TradesOf(p.inst)
                  + [Trade(d.side, d.units, c.time, if p.holdMinutes < 1 then 60 else 60 * p.holdMinutes, None, 0,
                           c.close)]
            && (NetOfTrades(expired.store.TradesOf(p.inst)) != 0 ==> !p.disableStacking)
            && (d.signalKey != "" ==>
                  && expired.store.LastSignalOf(p.inst) != Some(d.signalKey)
                  && EntryPhase(p, b, c, d).0.store.LastSignalOf(p.inst) == Some(d.signalKey))
  {
    hide ExpiryPass, Transact;
    var (expired, ending) := ExpiryPass(b, Simulated, p.inst, c.close, c.time, p.tickSecs);
    if !ending.Aborted? {
      EnteredTradeIsAsAsked(expired, p.limits, p.inst, Gated(RequestAt(p, c, d), d.blocked), FILLED);
      EnteredSignalIsRemembered(expired, p.limits, p.inst, Gated(RequestAt(p, c, d), d.blocked), FILLED);
      if d.signalKey != "" && expired.store.LastSignalOf(p.inst) == Some(d.signalKey) {
        RepeatedSignalEntersNothing(b, p.limits, p.inst, RequestAt(p, c, d), WeatherAt(d), p.tickSecs);
      }
    }
  }

  /** The close of the candle before. */
  function LastClose(candles: seq<Candle>, n: nat): Option<real>
    requires n <= |candles|
  {
    if n == 0 then None else Some(candles[n - 1].close)
  }

  lemma MemoryHoldsLastClose(s: Setup, start: Books, candles: seq<Candle>, breakers: seq<Breaker>, n: nat)
    requires n <= |candles| == |breakers| && Backtest(s, start, candles, breakers, n).Some?
    ensures Backtest(s, start, candles, breakers, n).value.memory.lastMid == LastClose(candles, n)
  {
    hide CandleStep, EntersAt, EntryDecision, GateAt, HazardAtCandle;
  }

  // ---------------------------------------------------------------- the bounds carry over

  /** Stops and holds of a backtest over gates and signatures, with the hazard exit off. */
  lemma BacktestKeepsItsBounds(s: Setup, costBps: real, candles: seq<Candle>, breakers: seq<Breaker>)
    requires |candles| == |breakers| && Plausible(candles)
    requires s.p.cfg.pipScale >= 0.0 && HazardExitOff(s.p)
    ensures var sim := Backtest(s, EmptyBooks(costBps), candles, breakers, |candles|);
            && sim.Some? && Agree(sim.value.books)
            && LogOk(sim.value.books.tracker.log, s.p.cfg)
            && AllHeld(s.p, sim.value.books.store.TradesOf(s.p.inst), candles, |candles|)
  {
    hide Replay, Backtest, Plausible, Agree, LogOk, AllHeld, PositivePrices, SafeAt;
    var decisions := Decisions(s, EmptyBooks(costBps), candles, breakers);
    BacktestIsAReplay(s, EmptyBooks(costBps), candles, breakers, |candles|);
    ReplayIsSound(s.p, costBps, candles, decisions, |candles|);
    EveryOpenTradeIsHeldSoFar(s.p, costBps, candles, decisions, |candles|);
  }

  // ---------------------------------------------------------------- the context as it runs

  class SimulationReplayContext {
    const setup: Setup
    const nav: real
    const engine: Engine
    const feed: E.EventFeed
    var lastMid: Option<real>
    var lastEntryTime: Option<Time>
    var equityCurve: seq<(Time, real)>

    constructor (setup: Setup, nav: real, engine: Engine, feed: E.EventFeed)
      ensures this.setup == setup && this.nav == nav && this.engine == engine && this.feed == feed
      ensures View() == Sim(engine.View(), NO_MEMORY) && equityCurve == []
    {
      this.setup, this.nav, this.engine, this.feed := setup, nav, engine, feed;
      lastMid, lastEntryTime, equityCurve := None, None, [];
    }

    ghost predicate Valid()
      reads this, engine, engine.risk, feed
    {
      && setup.Valid() && engine.Valid() && engine.risk.limits == setup.p.limits
      && feed.Valid() && feed.signatures == setup.signatures && feed.gates == setup.gates
    }

    ghost function View(): Sim
      reads this, engine, engine.risk, engine.store, engine.tracker
    {
      Sim(engine.View(), Memory(lastMid, lastEntryTime))
    }

    method CurrentGate() returns (gate: Option<string>)
      requires feed.currentGate.Some? ==> feed.currentGate.value < |feed.gates|
      ensures gate == match feed.currentGate case Some(g) => Some(feed.gates[g].payload) case None => None
    {
      gate := if feed.currentGate.Some? then Some(feed.gates[feed.currentGate.value].payload) else None;
    }

    method ProcessExits(c: Candle, breaker: Breaker) returns (ending: Ending)
      requires Valid()
      modifies engine.tracker, engine.risk`positions, engine.risk`exposure, engine.store
      ensures (engine.View(), ending)
              == ExitPhase(setup.p, old(engine.View()), c, ExitDecision(feed.currentHazard, breaker))
    {
      hide TpslPass, TrackerV.CloseAll, E.EventFeed.Valid;
      var p := setup.p;
      if p.hazardExit.Some? && p.hazardExit.value < 0.999 {
        var net := engine.tracker.NetUnits(p.inst);
        if net != 0 && feed.currentHazard <= p.hazardExit.value {
          engine.tracker.ClosePosition(p.inst, Closing(c.close, c.time, HazardExit, 0.0));
        }
      }
      ending := engine.CheckTpslExitIntraCandle(Simulated, p.inst, c.high, c.low, c.time, p.cfg, breaker.scalping);
    }

    /** What the signal side decides at a candle. */
    method Decide(c: Candle, breaker: Breaker, gate: Option<string>) returns (d: Decision)
      ensures d == DecisionAt(setup, View().memory, engine.View(), c, gate, feed.currentHazard, breaker)
    {
      hide Tradable;
      var policy := setup.policy;
      var verdict := policy.admits(gate);
      var admitted := verdict.admitted;
      if lastEntryTime.Some? && c.time - lastEntryTime.value < ENTRY_COOLDOWN {
        admitted := false;
      }
      var net := engine.tracker.NetUnits(setup.p.inst);
      var hardBlocked := !Tradable(policy.session, c.time, net != 0);
      var side := policy.side(gate, lastMid, c.close, verdict.isBundle);
      d := Decision(feed.currentHazard, admitted, side, policy.size(c.close), policy.signalKey(gate), hardBlocked,
                    verdict.isBundle, breaker.blocked, breaker.scalping);
    }

    method EvaluateEntry(c: Candle, breaker: Breaker, gate: Option<string>) returns (ending: Ending)
      requires Valid()
      modifies this`lastMid, this`lastEntryTime
      modifies engine.tracker, engine.risk`positions, engine.risk`exposure, engine.store
      ensures var exited := old(engine.View());
              var d := DecisionAt(setup, old(View()).memory, exited, c, gate, feed.currentHazard, breaker);
              && (engine.View(), ending) == EntryPhase(setup.p, exited, c, d)
              && View().memory == MemoryAfter(old(View()).memory, c, IsEntry(d, gate, OrderAt(setup.p, exited, c, d)))
    {
      hide Allocate, AllocationOrder, DecisionAt, IsEntry, RequestAt, E.EventFeed.Valid;
      var d := Decide(c, breaker, gate);
      lastMid := Some(c.close);
      var ordered;
      ending, ordered := engine.ExecuteAllocation(setup.p.inst, RequestAt(setup.p, c, d), WeatherAt(d),
                                                  setup.p.tickSecs);
      if IsEntry(d, gate, ordered) {
        lastEntryTime := Some(c.time);
      }
    }

    /** One candle; an exception leaves it half done. */
    method ProcessCandle(c: Candle, breaker: Breaker) returns (raised: bool, ghost gate: Option<string>)
      requires Valid() && (feed.seen.Some? ==> feed.seen.value <= c.time)
      modifies this, feed, engine.tracker, engine.risk`positions, engine.risk`exposure, engine.store
      ensures Valid() && feed.seen == Some(c.time)
      ensures match E.Offered(setup.gates, old(feed.seen), c.time)
              case Some(g) => g < |setup.gates| && gate == Some(setup.gates[g].payload)
              case None => gate == None
      ensures var after := SimStep(setup, old(View()), c, gate, E.HazardAt(setup.signatures, c.time), breaker);
              if raised then after.None? else after == Some(View())
      ensures var point := (c.time, Equity(nav, engine.View().tracker, setup.p.inst, c.close));
              !raised ==> equityCurve == old(equityCurve) + [point]
    {
      hide ExitPhase, EntryPhase, SimStep, DecisionAt, E.Offered, E.HazardAt, E.Merged, E.Separates, IsEntry, OrderAt,
           MemoryAfter, AfterMark, Equity;
      ghost var before := View();
      feed.AlignEvents(c.time);
      var current := CurrentGate();
      gate := current;
      StepByPhases(setup, before, c, gate, feed.currentHazard, breaker);
      var ending := ProcessExits(c, breaker);
      if ending.Aborted? {
        raised := true;
        return;
      }
      ending := EvaluateEntry(c, breaker, current);
      if ending.Aborted? {
        raised := true;
        return;
      }
      Snapshot(c);
      raised := false;
    }

    /** Mark what is open and note the equity. */
    method Snapshot(c: Candle)
      modifies this`equityCurve, engine.tracker
      ensures engine.View() == AfterMark(setup.p, old(engine.View()), c)
      ensures equityCurve == old(equityCurve) + [(c.time, Equity(nav, engine.View().tracker, setup.p.inst, c.close))]
    {
      engine.tracker.Mark(setup.p.inst, c.close, c.high, c.low);
      var unrealized := engine.tracker.Unrealized(setup.p.inst, c.close);
      equityCurve := equityCurve + [(c.time, nav + engine.tracker.realized + unrealized)];
    }

    /** The whole backtest; unless something raises, it returns with the tracker liquidated and one equity point per
        candle. */
    method Run(candles: seq<Candle>, breakers: seq<Breaker>) returns (finished: bool)
      requires Valid() && feed.seen == None && View().memory == NO_MEMORY && equityCurve == []
      requires InOrder(candles) && |candles| == |breakers|
      modifies this, feed, engine.tracker, engine.risk`positions, engine.risk`exposure, engine.store
      ensures finished <==> Backtest(setup, old(engine.View()), candles, breakers, |candles|).Some?
      ensures var start, decisions := old(engine.View()), Decisions(setup, old(engine.View()), candles, breakers);
              finished ==>
                && Replay(setup.p, start, candles, decisions, |candles|).Some?
                && engine.tracker.View() == Final(setup.p, start, candles, decisions)
                && |equityCurve| == |candles|
                && IsEquityCurve(equityCurve, setup.p, start, nav, candles, decisions)
    {
      hide SimStep, Decisions, Replay, Backtest, E.Offered, Equity, CandleStep;
      ghost var start, decisions := engine.View(), Decisions(setup, engine.View(), candles, breakers);
      NothingYet(setup, start, candles, breakers);
      for n := 0 to |candles|
        invariant Valid() && feed.seen == (if n == 0 then None else Some(candles[n - 1].time))
        invariant Some(View()) == Backtest(setup, start, candles, breakers, n)
        invariant |equityCurve| == n && IsEquityCurve(equityCurve, setup.p, start, nav, candles, decisions)
      {
        ghost var curve := equityCurve;
        var raised, gate := ProcessCandle(candles[n], breakers[n]);
        OneMoreCandle(setup, start, candles, breakers, n);
        assert gate == GateAt(setup, candles, n);
        if raised {
          StoppedForGood(setup, start, candles, breakers, n + 1, |candles|);
          return false;
        }
        BacktestIsAReplay(setup, start, candles, breakers, n + 1);
        assert IsPoint(equityCurve[n], setup.p, start, nav, candles, decisions, n);
        assert forall k :: 0 <= k < n ==> equityCurve[k] == curve[k];
      }
      BacktestIsAReplay(setup, start, candles, breakers, |candles|);
      if candles != [] {
        var net := engine.tracker.NetUnits(setup.p.inst);
        if net != 0 {
          engine.tracker.ClosePosition(setup.p.inst, Liquidation(candles[|candles| - 1]));
        }
      }
      finished := true;
    }
  }
}
