/** The checker's rules told in moves from the entry instead of price levels: when each of them fires, and at which
    price the trade then leaves. */
module TpslMoves {
  import opened Common
  import opened Tpsl

  /** How far from the entry the stop is, in price. */
  function StopDistance(entry: real, cfg: TpslConfig): Option<real> {
    if cfg.stopLossPct.Some? then Some(entry * AbsR(cfg.stopLossPct.value))
    else if cfg.stopLossPips.Some? then Some(Abs(cfg.stopLossPips.value) as real * cfg.pipScale)
    else None
  }

  function TargetDistance(entry: real, cfg: TpslConfig): Option<real> {
    if cfg.takeProfitPct.Some? then Some(entry * AbsR(cfg.takeProfitPct.value))
    else if cfg.takeProfitPips.Some? then Some(Abs(cfg.takeProfitPips.value) as real * cfg.pipScale)
    else None
  }

  /** How far a price is from the entry, in the trade's favour. */
  function Move(s: TpslState, price: real): real {
    if s.direction > 0 then price - s.entryPrice else s.entryPrice - price
  }

  /** The worst and the best move a candle reaches. */
  function WorstMove(s: TpslState, high: real, low: real): real {
    MinR(Move(s, high), Move(s, low))
  }

  function BestMove(s: TpslState, high: real, low: real): real {
    MaxR(Move(s, high), Move(s, low))
  }

  /** The best price since entry, this candle included: no seen price is better, and it has been seen. */
  predicate IsBestPrice(best: real, s: TpslState, high: real, low: real) {
    && Move(s, s.peakPrice) <= Move(s, best) && BestMove(s, high, low) <= Move(s, best)
    && (best == s.peakPrice || best == high || best == low)
  }

  lemma ShareOfEntry(distance: real, entry: real)
    requires entry != 0.0
    ensures entry * (distance / entry) == distance
  {
  }

  lemma LevelsAreDistances(s: TpslState, cfg: TpslConfig)
    requires s.entryPrice != 0.0
    ensures var sl, d := cfg.EffectiveSl(s.entryPrice), StopDistance(s.entryPrice, cfg);
            (sl.Some? <==> d.Some?) && (sl.Some? ==> s.entryPrice * sl.value == d.value)
    ensures var tp, d := cfg.EffectiveTp(s.entryPrice), TargetDistance(s.entryPrice, cfg);
            (tp.Some? <==> d.Some?) && (tp.Some? ==> s.entryPrice * tp.value == d.value)
  {
    hide AbsR, Abs;
    if cfg.stopLossPct.None? && cfg.stopLossPips.Some? {
      ShareOfEntry(Abs(cfg.stopLossPips.value) as real * cfg.pipScale, s.entryPrice);
    }
    if cfg.takeProfitPct.None? && cfg.takeProfitPips.Some? {
      ShareOfEntry(Abs(cfg.takeProfitPips.value) as real * cfg.pipScale, s.entryPrice);
    }
  }

  /** The price `dist` of a share of `base` away. */
  lemma LevelMoves(base: real, dist: real, direction: Side)
    requires direction != 0
    ensures Along(StopPrice(base, dist, direction) - base, direction) == -(base * dist)
    ensures Along(TargetPrice(base, dist, direction) - base, direction) == base * dist
  {
  }

  predicate StopReached(high: real, low: real, s: TpslState, cfg: TpslConfig) {
    var d := StopDistance(s.entryPrice, cfg);
    d.Some? && WorstMove(s, high, low) <= -d.value
  }

  predicate TargetReached(high: real, low: real, s: TpslState, cfg: TpslConfig) {
    var d := TargetDistance(s.entryPrice, cfg);
    d.Some? && BestMove(s, high, low) >= d.value
  }

  /** The latch has closed before or closes now. */
  predicate BreakevenArmed(high: real, low: real, s: TpslState, cfg: TpslConfig) {
    cfg.breakevenTriggerPct.Some?
    && (s.breakevenActivated || BestMove(s, high, low) >= s.entryPrice * AbsR(cfg.breakevenTriggerPct.value))
  }

  lemma StopHitIsReached(high: real, low: real, s: TpslState, cfg: TpslConfig)
    requires s.entryPrice > 0.0 && s.direction != 0 && low <= high
    ensures StopHit(high, low, s, cfg) <==> StopReached(high, low, s, cfg)
    ensures StopHit(high, low, s, cfg) ==>
              Move(s, StopPrice(s.entryPrice, cfg.EffectiveSl(s.entryPrice).value, s.direction))
              == -StopDistance(s.entryPrice, cfg).value
  {
    hide TpslConfig.EffectiveSl, TpslConfig.EffectiveTp, StopDistance, TargetDistance, StopPrice, TargetPrice;
    LevelsAreDistances(s, cfg);
    if cfg.EffectiveSl(s.entryPrice).Some? {
      LevelMoves(s.entryPrice, cfg.EffectiveSl(s.entryPrice).value, s.direction);
    }
  }

  lemma TargetHitIsReached(high: real, low: real, s: TpslState, cfg: TpslConfig)
    requires s.entryPrice > 0.0 && s.direction != 0 && low <= high
    ensures TargetHit(high, low, s, cfg) <==> TargetReached(high, low, s, cfg)
    ensures TargetHit(high, low, s, cfg) ==>
              Move(s, TargetPrice(s.entryPrice, cfg.EffectiveTp(s.entryPrice).value, s.direction))
              == TargetDistance(s.entryPrice, cfg).value
  {
    hide TpslConfig.EffectiveSl, TpslConfig.EffectiveTp, StopDistance, TargetDistance, StopPrice, TargetPrice;
    LevelsAreDistances(s, cfg);
    if cfg.EffectiveTp(s.entryPrice).Some? {
      LevelMoves(s.entryPrice, cfg.EffectiveTp(s.entryPrice).value, s.direction);
    }
  }

  lemma DivideBy(move: real, entry: real, share: real)
    requires entry > 0.0
    ensures move / entry >= share <==> move >= entry * share
  {
    var q := move / entry;
    assert q * entry == move;
    if q >= share {
      assert (q - share) * entry >= 0.0;
    } else {
      assert (share - q) * entry > 0.0;
    }
  }

  lemma NegatedQuotient(move: real, entry: real)
    requires entry > 0.0
    ensures -(move / entry) == -move / entry
  {
    var q := move / entry;
    assert q * entry == move;
    QuotientIs(-q, -move, entry);
  }

  lemma QuotientIs(q: real, move: real, entry: real)
    requires entry > 0.0 && q * entry == move
    ensures q == move / entry
  {
  }

  lemma ArmedIsArmed(high: real, low: real, s: TpslState, cfg: TpslConfig)
    requires s.entryPrice > 0.0 && s.direction != 0 && low <= high && cfg.breakevenTriggerPct.Some?
    ensures Armed(high, low, s, cfg) <==> BreakevenArmed(high, low, s, cfg)
  {
    hide AbsR;
    var favorable := Favorable(high, low, s.direction);
    var move := if s.direction > 0 then favorable - s.entryPrice else s.entryPrice - favorable;
    assert move == BestMove(s, high, low);
    DivideBy(move, s.entryPrice, AbsR(cfg.breakevenTriggerPct.value));
    NegatedQuotient(favorable - s.entryPrice, s.entryPrice);
    assert Along((favorable - s.entryPrice) / s.entryPrice, s.direction) == move / s.entryPrice;
  }

  /** The share of the best price that the trailing stop gives back; half of it in a scalping regime. */
  function TrailShare(pct: real, scalping: bool): real {
    var share := if pct < 0.0 then -pct else pct;
    if scalping then share / 2.0 else share
  }

  /** The trailing stop has something to protect, and the candle comes back to it. */
  predicate TrailReached(high: real, low: real, s: TpslState, cfg: TpslConfig, best: real, scalping: bool) {
    && cfg.trailingStopPct.Some? && Move(s, best) > 0.0
    && WorstMove(s, high, low) <= Move(s, best) - best * TrailShare(cfg.trailingStopPct.value, scalping)
  }

  predicate Leaves(exit: Option<Exit>, reason: ExitReason) {
    exit.Some? && exit.value.reason == reason
  }

  /** Whether the latch has closed does not matter to the peak. */
  lemma PeakIsBest(high: real, low: real, s: TpslState, latched: bool)
    requires s.direction != 0 && low <= high
    ensures var peaked := s.(breakevenActivated := latched).UpdatePeak(Favorable(high, low, s.direction));
            IsBestPrice(peaked.peakPrice, s, high, low)
            && peaked.direction == s.direction && peaked.entryPrice == s.entryPrice
            && peaked.breakevenActivated == latched
  {
  }

  lemma EvenIsReached(high: real, low: real, s: TpslState)
    requires s.direction != 0 && low <= high
    ensures AtOrWorse(Adverse(high, low, s.direction), s.entryPrice, s.direction) <==> WorstMove(s, high, low) <= 0.0
    ensures forall best :: Along(best - s.entryPrice, s.direction) == Move(s, best)
  {
  }

  lemma TrailIsReached(high: real, low: real, s: TpslState, best: real, pct: real, scalping: bool)
    requires s.direction != 0 && low <= high
    ensures var level := StopPrice(best, AbsR(TrailPct(pct, scalping)), s.direction);
            && Move(s, level) == Move(s, best) - best * TrailShare(pct, scalping)
            && (AtOrWorse(Adverse(high, low, s.direction), level, s.direction)
                <==> WorstMove(s, high, low) <= Move(s, best) - best * TrailShare(pct, scalping))
  {
    hide StopPrice;
    LevelMoves(best, AbsR(TrailPct(pct, scalping)), s.direction);
    assert AbsR(TrailPct(pct, scalping)) == TrailShare(pct, scalping);
  }

  /** When each rule fires, in the order stop, target, breakeven, trailing, and how far from the entry the exit is. A
      state that is not stopped, taken or broken even keeps the best price when a trailing stop is set. */
  lemma CheckerInMoves(high: real, low: real, s: TpslState, cfg: TpslConfig, scalping: bool)
    requires s.entryPrice > 0.0 && s.direction != 0 && low <= high && cfg.Active()
    ensures var (exit, after) := IntraCandle(high, low, s, cfg, scalping);
            var stop, target := StopReached(high, low, s, cfg), TargetReached(high, low, s, cfg);
            var even := BreakevenArmed(high, low, s, cfg) && WorstMove(s, high, low) <= 0.0;
            var trail := TrailReached(high, low, s, cfg, after.peakPrice, scalping);
            && (Leaves(exit, StopLossHit) <==> stop)
            && (Leaves(exit, TakeProfitHit) <==> !stop && target)
            && (Leaves(exit, BreakevenStopHit) <==> !stop && !target && even)
            && (Leaves(exit, TrailingStopHit) <==> !stop && !target && !even && trail)
            && (exit.None? <==> !stop && !target && !even && !trail)
            && (Leaves(exit, StopLossHit) ==> Move(s, exit.value.price) == -StopDistance(s.entryPrice, cfg).value)
            && (Leaves(exit, TakeProfitHit) ==> Move(s, exit.value.price) == TargetDistance(s.entryPrice, cfg).value)
            && (Leaves(exit, BreakevenStopHit) ==> exit.value.price == s.entryPrice)
            && (Leaves(exit, TrailingStopHit) ==>
                  Move(s, exit.value.price) == Move(s, after.peakPrice)
                                               - after.peakPrice * TrailShare(cfg.trailingStopPct.value, scalping))
            && (!stop && !target && !even && cfg.trailingStopPct.Some? ==>
                  IsBestPrice(after.peakPrice, s, high, low))
            && (stop || target ==> after == s)
            && (!stop && !target ==>
                  (after.breakevenActivated <==> s.breakevenActivated || BreakevenArmed(high, low, s, cfg)))
  {
    hide StopHit, TargetHit, Armed, StopReached, TargetReached, BreakevenArmed, IsBestPrice, StopPrice, TargetPrice,
         TpslConfig.EffectiveSl, TpslConfig.EffectiveTp, StopDistance, TargetDistance, TpslConfig.Active, TrailShare,
         TrailPct, AbsR, Move, WorstMove, AtOrWorse, Adverse, Favorable, Along, TpslState.UpdatePeak;
    StopHitIsReached(high, low, s, cfg);
    TargetHitIsReached(high, low, s, cfg);
    UnarmedWithoutTrigger(high, low, s, cfg);
    EvenIsReached(high, low, s);
    PeakIsBest(high, low, s, Armed(high, low, s, cfg));
    if cfg.trailingStopPct.Some? {
      var peaked := s.(breakevenActivated := Armed(high, low, s, cfg)).UpdatePeak(Favorable(high, low, s.direction));
      TrailIsReached(high, low, s, peaked.peakPrice, cfg.trailingStopPct.value, scalping);
    }
  }

  /** The checker looks at a trade if and only if there is something to look for. */
  lemma CheckerIsIdleWithoutRules(high: real, low: real, s: TpslState, cfg: TpslConfig, scalping: bool)
    ensures cfg.Active() <==> StopDistance(s.entryPrice, cfg).Some? || TargetDistance(s.entryPrice, cfg).Some?
                              || cfg.trailingStopPct.Some? || cfg.breakevenTriggerPct.Some?
    ensures !cfg.Active() ==> IntraCandle(high, low, s, cfg, scalping) == (None, s)
  {
  }

  lemma UnarmedWithoutTrigger(high: real, low: real, s: TpslState, cfg: TpslConfig)
    requires s.entryPrice > 0.0 && s.direction != 0 && low <= high
    ensures cfg.breakevenTriggerPct.None? ==>
              !BreakevenArmed(high, low, s, cfg) && (Armed(high, low, s, cfg) <==> s.breakevenActivated)
    ensures cfg.breakevenTriggerPct.Some? ==> (Armed(high, low, s, cfg) <==> BreakevenArmed(high, low, s, cfg))
    ensures s.breakevenActivated ==> Armed(high, low, s, cfg)
  {
    if cfg.breakevenTriggerPct.Some? {
      ArmedIsArmed(high, low, s, cfg);
    }
  }

  /** A target is not filled better because the candle runs further past it. */
  lemma TargetExitIgnoresOverrun(high: real, low: real, s: TpslState, cfg: TpslConfig, scalping: bool, further: real)
    requires s.direction != 0 && low <= high
    requires if s.direction > 0 then further >= high else further <= low
    requires Leaves(IntraCandle(high, low, s, cfg, scalping).0, TakeProfitHit)
    ensures var (h, l) := if s.direction > 0 then (further, low) else (high, further);
            IntraCandle(h, l, s, cfg, scalping).0 == IntraCandle(high, low, s, cfg, scalping).0
  {
    hide TpslConfig.EffectiveSl, TpslConfig.EffectiveTp, StopPrice, TargetPrice;
  }

  /** A stop is not filled worse because the candle falls further through it. */
  lemma StopExitIgnoresOverrun(high: real, low: real, s: TpslState, cfg: TpslConfig, scalping: bool, further: real)
    requires s.direction != 0 && low <= high
    requires if s.direction > 0 then further <= low else further >= high
    requires Leaves(IntraCandle(high, low, s, cfg, scalping).0, StopLossHit)
    ensures var (h, l) := if s.direction > 0 then (high, further) else (further, low);
            IntraCandle(h, l, s, cfg, scalping).0 == IntraCandle(high, low, s, cfg, scalping).0
  {
    hide TpslConfig.EffectiveSl, TpslConfig.EffectiveTp, StopPrice, TargetPrice;
  }
}
