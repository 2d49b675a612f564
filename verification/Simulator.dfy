/** The backtest: one candle after another through exits, entry, marking and the equity snapshot,
    and liquidation of whatever is open at the end. An exception ends it without a result. */
module Simulator {
  import opened Common
  import opened Tpsl
  import opened PositionTracker
  import opened RiskLimits
  import opened Books

  datatype Params = Params(
    inst: Inst,
    cfg: TpslConfig,
    limits: Limits,
    tickSecs: nat,
    holdMinutes: int,
    disableStacking: bool,
    hazardExit: Option<real>)

  /** What the signal side decides at a candle, the hazard it sees, and the two flags of the structural breaker. */
  datatype Decision = Decision(
    hazard: real,
    admitted: bool,
    side: Side,
    units: nat,
    signalKey: string,
    hardBlocked: bool,
    isBundle: bool,
    blocked: bool,
    scalping: bool)

  function HoldSecs(p: Params): int {
    Max(60, p.holdMinutes * 60)
  }

  function RequestAt(p: Params, c: Candle, d: Decision): Request {
    var ready := d.admitted && !d.hardBlocked;
    Request(c.time, ready, d.side, if ready && d.side != 0 then d.units else 0, HoldSecs(p), d.signalKey,
            d.hardBlocked, c.close, d.isBundle, p.disableStacking)
  }

  /** The backtest fills every order at the candle's close. */
  const FILLED := Filled(None, None)

  function WeatherAt(d: Decision): Weather {
    Weather(d.blocked, Simulated, FILLED)
  }

  /** Thresholds from 0.999 up switch the hazard exit off. */
  predicate HazardExitOff(p: Params) {
    p.hazardExit.None? || p.hazardExit.value >= 0.999
  }

  function AfterHazard(p: Params, b: Books, c: Candle, d: Decision): Books {
    if !HazardExitOff(p) && b.tracker.NetUnits(p.inst) != 0 && d.hazard <= p.hazardExit.value
    then b.(tracker := b.tracker.CloseAll(p.inst, Closing(c.close, c.time, HazardExit, 0.0)))
    else b
  }

  function ExitPhase(p: Params, b: Books, c: Candle, d: Decision): (Books, Ending) {
    TpslPass(AfterHazard(p, b, c, d), Simulated, p.inst, c.high, c.low, c.time, p.cfg, d.scalping)
  }

  ghost function EntryPhase(p: Params, b: Books, c: Candle, d: Decision): (Books, Ending) {
    Allocate(b, p.limits, p.inst, RequestAt(p, c, d), WeatherAt(d), p.tickSecs)
  }

  function AfterMark(p: Params, b: Books, c: Candle): Books {
    b.(tracker := b.tracker.Mark(p.inst, c.close, c.high, c.low))
  }

  /** One candle, unless an exception gets in the way. */
  ghost function CandleStep(p: Params, b: Books, c: Candle, d: Decision): Option<Books> {
    var (exited, ending) := ExitPhase(p, b, c, d);
    if ending.Aborted? then None
    else
      var (entered, ending) := EntryPhase(p, exited, c, d);
      if ending.Aborted? then None else Some(AfterMark(p, entered, c))
  }

  /** The books after the first `n` candles, if the replay gets that far. */
  ghost function Replay(p: Params, b: Books, candles: seq<Candle>, decisions: seq<Decision>, n: nat): Option<Books>
    requires n <= |candles| == |decisions|
  {
    if n == 0 then Some(b)
    else
      var before := Replay(p, b, candles, decisions, n - 1);
      if before.None? then None else CandleStep(p, before.value, candles[n - 1], decisions[n - 1])
  }

  function Liquidation(c: Candle): Closing {
    Closing(c.close, c.time, SimulationEnd, 0.0)
  }

  /** The tracker handed back: whatever is still open has been sold at the last close. */
  ghost function Final(p: Params, b: Books, candles: seq<Candle>, decisions: seq<Decision>): TrackerV
    requires |candles| == |decisions|
    requires Replay(p, b, candles, decisions, |candles|).Some?
  {
    var tracker := Replay(p, b, candles, decisions, |candles|).value.tracker;
    if candles != [] && tracker.NetUnits(p.inst) != 0 then tracker.CloseAll(p.inst, Liquidation(candles[|candles| - 1]))
    else tracker
  }

  function Equity(nav: real, tracker: TrackerV, inst: Inst, close: real): real {
    nav + tracker.realized + tracker.Unrealized(inst, close)
  }

  ghost predicate IsPoint(point: (Time, real), p: Params, b: Books, nav: real, candles: seq<Candle>,
                          decisions: seq<Decision>, k: nat)
    requires k < |candles| == |decisions|
  {
    match Replay(p, b, candles, decisions, k + 1)
    case None => false
    case Some(after) => point == (candles[k].time, Equity(nav, after.tracker, p.inst, candles[k].close))
  }

  /** One point per candle: starting capital, realized and unrealized profit. */
  ghost predicate IsEquityCurve(curve: seq<(Time, real)>, p: Params, b: Books, nav: real, candles: seq<Candle>,
                                decisions: seq<Decision>)
    requires |curve| <= |candles| == |decisions|
  {
    forall k :: 0 <= k < |curve| ==> IsPoint(curve[k], p, b, nav, candles, decisions, k)
  }

  /** A held position is sold at the close exactly when there is a threshold below 0.999 and the hazard is no higher
      than it; then, or else, the checker looks at what is left. */
  lemma HazardExitDecides(p: Params, b: Books, c: Candle, d: Decision)
    ensures var sells := p.hazardExit.Some? && p.hazardExit.value < 0.999 && d.hazard <= p.hazardExit.value
                         && b.tracker.NetUnits(p.inst) != 0;
            var sold := b.(tracker := b.tracker.CloseAll(p.inst, Closing(c.close, c.time, HazardExit, 0.0)));
            && (sells ==> ExitPhase(p, b, c, d)
                          == TpslPass(sold, Simulated, p.inst, c.high, c.low, c.time, p.cfg, d.scalping))
            && (!sells ==> ExitPhase(p, b, c, d)
                           == TpslPass(b, Simulated, p.inst, c.high, c.low, c.time, p.cfg, d.scalping))
  {
    hide TpslPass, TrackerV.CloseAll;
  }
}
