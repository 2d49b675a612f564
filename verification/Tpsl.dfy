/** Stop-loss, take-profit, breakeven and trailing rules of one open trade. */
module Tpsl {
  import opened Common

  datatype ExitReason =
    | StopLossHit
    | TakeProfitHit
    | TrailingStopHit
    | BreakevenStopHit
    | HoldExpiry
    | PositionSync
    | HazardExit
    | SimulationEnd

  /** Per-trade state of the checker. */
  datatype TpslState = TpslState(entryPrice: real, direction: Side, peakPrice: real, breakevenActivated: bool) {
    /** The best price seen since entry, once `price` has been seen too. */
    function UpdatePeak(price: real): TpslState {
      if direction > 0 then this.(peakPrice := MaxR(peakPrice, price))
      else if direction < 0 then this.(peakPrice := MinR(peakPrice, price))
      else this
    }
  }

  function Reset(entryPrice: real, direction: Side): TpslState {
    TpslState(entryPrice, direction, entryPrice, false)
  }

  datatype TpslConfig = TpslConfig(
    stopLossPct: Option<real>,
    takeProfitPct: Option<real>,
    stopLossPips: Option<int>,
    takeProfitPips: Option<int>,
    trailingStopPct: Option<real>,
    breakevenTriggerPct: Option<real>,
    pipScale: real)
  {
    predicate Active() {
      stopLossPct.Some? || takeProfitPct.Some? || stopLossPips.Some? || takeProfitPips.Some?
      || trailingStopPct.Some? || breakevenTriggerPct.Some?
    }

    /** A percentage wins over a pip count; pips are turned into a fraction of the entry price. */
    function EffectiveSl(entry: real): Option<real>
      requires entry != 0.0
    {
      if stopLossPct.Some? then Some(AbsR(stopLossPct.value))
      else if stopLossPips.Some? then Some(Abs(stopLossPips.value) as real * pipScale / entry)
      else None
    }

    function EffectiveTp(entry: real): Option<real>
      requires entry != 0.0
    {
      if takeProfitPct.Some? then Some(AbsR(takeProfitPct.value))
      else if takeProfitPips.Some? then Some(Abs(takeProfitPips.value) as real * pipScale / entry)
      else None
    }
  }

  datatype Exit = Exit(reason: ExitReason, price: real)

  /** The price a fraction `dist` away from `entry`, on the losing side of `direction`. */
  function StopPrice(entry: real, dist: real, direction: Side): real {
    entry * (1.0 - Along(dist, direction))
  }

  function TargetPrice(entry: real, dist: real, direction: Side): real {
    entry * (1.0 + Along(dist, direction))
  }

  /** `price` is at or beyond `level` on the losing side. */
  predicate AtOrWorse(price: real, level: real, direction: Side) {
    Along(price - level, direction) <= 0.0
  }

  function Adverse(high: real, low: real, direction: Side): real {
    if direction > 0 then low else high
  }

  function Favorable(high: real, low: real, direction: Side): real {
    if direction > 0 then high else low
  }

  predicate StopHit(high: real, low: real, s: TpslState, cfg: TpslConfig)
    requires s.entryPrice != 0.0
  {
    var sl := cfg.EffectiveSl(s.entryPrice);
    sl.Some? && AtOrWorse(Adverse(high, low, s.direction), StopPrice(s.entryPrice, sl.value, s.direction), s.direction)
  }

  predicate TargetHit(high: real, low: real, s: TpslState, cfg: TpslConfig)
    requires s.entryPrice != 0.0
  {
    var tp := cfg.EffectiveTp(s.entryPrice);
    tp.Some? &&
    Along(Favorable(high, low, s.direction) - TargetPrice(s.entryPrice, tp.value, s.direction), s.direction) >= 0.0
  }

  /** The breakeven latch after a candle that hit neither stop nor target. */
  predicate Armed(high: real, low: real, s: TpslState, cfg: TpslConfig)
    requires s.entryPrice != 0.0
  {
    s.breakevenActivated ||
    (cfg.breakevenTriggerPct.Some? &&
     Along((Favorable(high, low, s.direction) - s.entryPrice) / s.entryPrice, s.direction)
     >= AbsR(cfg.breakevenTriggerPct.value))
  }

  /** The trailing distance in force: halved while the breaker reports a scalping regime. */
  function TrailPct(pct: real, scalping: bool): real {
    if scalping then pct / 2.0 else pct
  }

  /** Which exit, if any, a candle triggers, and the state afterwards. */
  function IntraCandle(high: real, low: real, s: TpslState, cfg: TpslConfig, scalping: bool)
    : (Option<Exit>, TpslState)
  {
    if !cfg.Active() || s.direction == 0 || s.entryPrice == 0.0 then (None, s)
    else if StopHit(high, low, s, cfg) then
      (Some(Exit(StopLossHit, StopPrice(s.entryPrice, cfg.EffectiveSl(s.entryPrice).value, s.direction))), s)
    else if TargetHit(high, low, s, cfg) then
      (Some(Exit(TakeProfitHit, TargetPrice(s.entryPrice, cfg.EffectiveTp(s.entryPrice).value, s.direction))), s)
    else
      var latched := s.(breakevenActivated := Armed(high, low, s, cfg));
      var adverse := Adverse(high, low, s.direction);
      if cfg.breakevenTriggerPct.Some? && latched.breakevenActivated
        && AtOrWorse(adverse, s.entryPrice, s.direction) then
        (Some(Exit(BreakevenStopHit, s.entryPrice)), latched)
      else if cfg.trailingStopPct.None? then
        (None, latched)
      else
        var peaked := latched.UpdatePeak(Favorable(high, low, s.direction));
        var level := StopPrice(peaked.peakPrice, AbsR(TrailPct(cfg.trailingStopPct.value, scalping)), s.direction);
        if Along(peaked.peakPrice - s.entryPrice, s.direction) > 0.0 && AtOrWorse(adverse, level, s.direction) then
          (Some(Exit(TrailingStopHit, level)), peaked)
        else
          (None, peaked)
  }

  /** The checker as it runs: it walks the four rules in turn and updates the state it is given. */
  method CheckIntraCandle(high: real, low: real, state: TpslState, cfg: TpslConfig, scalping: bool)
    returns (hit: Option<Exit>, after: TpslState)
    ensures (hit, after) == IntraCandle(high, low, state, cfg, scalping)
  {
    hide TpslConfig.EffectiveSl, TpslConfig.EffectiveTp, TpslConfig.Active, TpslState.UpdatePeak, AbsR, StopPrice,
         TargetPrice;
    hit, after := None, state;
    if !cfg.Active() || state.direction == 0 {
      return;
    }
    var entry, direction := state.entryPrice, state.direction;
    if entry == 0.0 {
      return;
    }
    var slDist, tpDist := cfg.EffectiveSl(entry), cfg.EffectiveTp(entry);
    var adverse := if direction > 0 then low else high;
    var favorable := if direction > 0 then high else low;

    if slDist.Some? {
      var slPrice := StopPrice(entry, slDist.value, direction);
      if Along(adverse - slPrice, direction) <= 0.0 {
        hit := Some(Exit(StopLossHit, slPrice));
        return;
      }
    }
    if tpDist.Some? {
      var tpPrice := TargetPrice(entry, tpDist.value, direction);
      if Along(favorable - tpPrice, direction) >= 0.0 {
        hit := Some(Exit(TakeProfitHit, tpPrice));
        return;
      }
    }
    if cfg.breakevenTriggerPct.Some? {
      if !after.breakevenActivated {
        var pnlFav := Along((favorable - entry) / entry, direction);
        if pnlFav >= AbsR(cfg.breakevenTriggerPct.value) {
          after := after.(breakevenActivated := true);
        }
      }
      if after.breakevenActivated && Along(adverse - entry, direction) <= 0.0 {
        hit := Some(Exit(BreakevenStopHit, entry));
        return;
      }
    }
    if cfg.trailingStopPct.Some? {
      var trailPct := cfg.trailingStopPct.value;
      if scalping {
        trailPct := trailPct / 2.0;
      }
      after := after.UpdatePeak(favorable);
      if Along(after.peakPrice - entry, direction) > 0.0 {
        var level := StopPrice(after.peakPrice, AbsR(trailPct), direction);
        if Along(adverse - level, direction) <= 0.0 {
          hit := Some(Exit(TrailingStopHit, level));
        }
      }
    }
  }

  // ---------------------------------------------------------------- what the order of the rules buys

  /** `price` is no worse than the stop level of a trade entered at `entry`. */
  predicate NoWorseThanStop(price: real, entry: real, direction: Side, cfg: TpslConfig)
  {
    entry != 0.0 && cfg.EffectiveSl(entry).Some? ==>
      Along(price - StopPrice(entry, cfg.EffectiveSl(entry).value, direction), direction) >= 0.0
  }

  lemma StopDistanceNonNegative(entry: real, cfg: TpslConfig)
    requires entry > 0.0 && cfg.pipScale >= 0.0
    ensures cfg.EffectiveSl(entry).Some? ==> cfg.EffectiveSl(entry).value >= 0.0
    ensures cfg.EffectiveTp(entry).Some? ==> cfg.EffectiveTp(entry).value >= 0.0
  {
  }

  /** Leaving at the entry price or better is never worse than the stop. */
  lemma EntryNoWorseThanStop(price: real, entry: real, direction: Side, cfg: TpslConfig)
    requires entry > 0.0 && cfg.pipScale >= 0.0
    requires Along(price - entry, direction) >= 0.0
    ensures NoWorseThanStop(price, entry, direction, cfg)
  {
    if cfg.EffectiveSl(entry).Some? {
      StopDistanceNonNegative(entry, cfg);
      var d := cfg.EffectiveSl(entry).value;
      assert entry * d >= 0.0;
    }
  }

  /** Whatever rule fires, its exit price is no worse than the stop: the stop is looked at first. */
  lemma TriggeredExitNoWorseThanStop(high: real, low: real, s: TpslState, cfg: TpslConfig, scalping: bool)
    requires s.entryPrice > 0.0 && cfg.pipScale >= 0.0
    requires IntraCandle(high, low, s, cfg, scalping).0.Some?
    ensures NoWorseThanStop(IntraCandle(high, low, s, cfg, scalping).0.value.price, s.entryPrice, s.direction, cfg)
  {
    var exit := IntraCandle(high, low, s, cfg, scalping).0.value;
    match exit.reason
    case TakeProfitHit =>
      StopDistanceNonNegative(s.entryPrice, cfg);
      var d := cfg.EffectiveTp(s.entryPrice).value;
      assert s.entryPrice * d >= 0.0;
      EntryNoWorseThanStop(exit.price, s.entryPrice, s.direction, cfg);
    case BreakevenStopHit =>
      EntryNoWorseThanStop(exit.price, s.entryPrice, s.direction, cfg);
    case _ =>
  }

  /** A trade the checker leaves open could be sold anywhere in the candle without breaching its stop. */
  lemma SurvivorNoWorseThanStop(high: real, low: real, s: TpslState, cfg: TpslConfig, scalping: bool, price: real)
    requires s.direction != 0 && s.entryPrice > 0.0
    requires IntraCandle(high, low, s, cfg, scalping).0.None?
    requires low <= price <= high
    ensures NoWorseThanStop(price, s.entryPrice, s.direction, cfg)
  {
  }

  /** The checker never touches entry or direction, and its latch only ever closes. */
  lemma CheckerKeepsIdentity(high: real, low: real, s: TpslState, cfg: TpslConfig, scalping: bool)
    ensures var after := IntraCandle(high, low, s, cfg, scalping).1;
            after.entryPrice == s.entryPrice && after.direction == s.direction
            && (s.breakevenActivated ==> after.breakevenActivated)
            && Along(after.peakPrice - s.peakPrice, s.direction) >= 0.0
  {
  }
}
