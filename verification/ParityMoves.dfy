/** The rules of the parity replay told in price moves from the entry instead of percentages and overwrites. */
module ParityMoves {
  import opened Common
  import opened Tpsl
  import opened ParityReplay

  /** How far a price is from the entry, in the slot's favour. */
  function Move(s: Slot, price: real): real {
    if s.direction > 0 then price - s.entryPrice else s.entryPrice - price
  }

  function WorstMove(s: Slot, c: Candle): real {
    Move(s, if s.direction > 0 then c.low else c.high)
  }

  function BestMove(s: Slot, c: Candle): real {
    Move(s, if s.direction > 0 then c.high else c.low)
  }

  lemma PctOfMove(s: Slot, price: real)
    requires s.entryPrice > 0.0
    ensures PctChange(price, s.entryPrice) * s.entryPrice == price - s.entryPrice
    ensures -PctChange(price, s.entryPrice) * s.entryPrice == s.entryPrice - price
  {
  }

  lemma ShareCompares(q: real, share: real, entry: real)
    requires entry > 0.0
    ensures q <= share <==> q * entry <= share * entry
    ensures q >= share <==> q * entry >= share * entry
  {
    if q <= share {
      assert (share - q) * entry >= 0.0;
    } else {
      assert (q - share) * entry > 0.0;
    }
  }

  lemma ExcursionsAreMoves(s: Slot, c: Candle)
    requires s.entryPrice > 0.0 && s.direction != 0
    ensures Drawdown(s, c) * s.entryPrice == WorstMove(s, c)
    ensures Profit(s, c) * s.entryPrice == BestMove(s, c)
  {
    hide PctChange;
    PctOfMove(s, c.low);
    PctOfMove(s, c.high);
  }

  // ---------------------------------------------------------------- when a slot leaves

  predicate StopReached(p: Params, s: Slot, c: Candle) {
    p.stopLoss.Some? && WorstMove(s, c) <= -p.stopLoss.value * s.entryPrice
  }

  predicate TargetReached(p: Params, s: Slot, c: Candle) {
    p.takeProfit.Some? && BestMove(s, c) >= p.takeProfit.value * s.entryPrice
  }

  predicate BackAtEntry(s: Slot, c: Candle) {
    s.breakevenActivated && WorstMove(s, c) <= 0.0
  }

  /** From its best profit the slot has given back the trailing share of the entry. */
  predicate TrailReached(p: Params, s: Slot, c: Candle) {
    p.trailing.Some? && s.peakProfit > 0.0
    && s.peakProfit * s.entryPrice - WorstMove(s, c) >= p.trailing.value * s.entryPrice
  }

  predicate HazardReached(p: Params, s: Slot, hazard: real) {
    p.hazardExit.Some? && p.hazardExit.value < 0.999 && s.holdTicks > 0 && hazard <= p.hazardExit.value
  }

  /** Twelve candles a minute. */
  predicate TimeReached(p: Params, s: Slot) {
    p.holdMinutes >= 1 && s.holdTicks >= 12 * p.holdMinutes
  }

  lemma StopIsReached(p: Params, s: Slot, c: Candle)
    requires s.entryPrice > 0.0 && s.direction != 0
    ensures HitStop(p, s, c) <==> StopReached(p, s, c)
  {
    hide Drawdown, WorstMove;
    ExcursionsAreMoves(s, c);
    if p.stopLoss.Some? {
      ShareCompares(Drawdown(s, c), -p.stopLoss.value, s.entryPrice);
    }
  }

  lemma TargetIsReached(p: Params, s: Slot, c: Candle)
    requires s.entryPrice > 0.0 && s.direction != 0
    ensures HitTarget(p, s, c) <==> TargetReached(p, s, c)
  {
    hide Profit, BestMove;
    ExcursionsAreMoves(s, c);
    if p.takeProfit.Some? {
      ShareCompares(Profit(s, c), p.takeProfit.value, s.entryPrice);
    }
  }

  lemma EvenIsReached(s: Slot, c: Candle)
    requires s.entryPrice > 0.0 && s.direction != 0
    ensures HitBreakeven(s, c) <==> BackAtEntry(s, c)
  {
    hide Drawdown, WorstMove;
    ExcursionsAreMoves(s, c);
    ShareCompares(Drawdown(s, c), 0.0, s.entryPrice);
  }

  lemma TrailIsReached(p: Params, s: Slot, c: Candle)
    requires s.entryPrice > 0.0 && s.direction != 0
    ensures HitTrail(p, s, c) <==> TrailReached(p, s, c)
  {
    hide Drawdown, WorstMove;
    ExcursionsAreMoves(s, c);
    if p.trailing.Some? {
      DropCompares(s.peakProfit, Drawdown(s, c), p.trailing.value, s.entryPrice);
    }
  }

  lemma DropCompares(a: real, d: real, share: real, entry: real)
    requires entry > 0.0
    ensures a - d >= share <==> a * entry - d * entry >= share * entry
  {
    ShareCompares(a - d, share, entry);
    assert (a - d) * entry == a * entry - d * entry;
  }

  /** A slot leaves exactly when one of six things happens. */
  lemma LeavesInMoves(p: Params, s: Slot, t: Tick)
    requires s.entryPrice > 0.0 && s.direction != 0
    ensures Leaves(p, s, t)
            <==> StopReached(p, s, t.candle) || TargetReached(p, s, t.candle) || BackAtEntry(s, t.candle)
                 || HazardReached(p, s, t.hazard) || TrailReached(p, s, t.candle) || TimeReached(p, s)
  {
    hide StopReached, TargetReached, BackAtEntry, TrailReached, HitStop, HitTarget, HitBreakeven, HitTrail;
    StopIsReached(p, s, t.candle);
    TargetIsReached(p, s, t.candle);
    EvenIsReached(s, t.candle);
    TrailIsReached(p, s, t.candle);
  }

  // ---------------------------------------------------------------- where it leaves

  lemma ScaledIsMove(s: Slot, share: real)
    requires s.direction != 0
    ensures Move(s, Scaled(s.entryPrice, Along(share, s.direction))) == share * s.entryPrice
    ensures Move(s, Scaled(s.entryPrice, -Along(share, s.direction))) == -share * s.entryPrice
  {
  }

  /** At the entry if it came back to it, else below its best by the trailing share, else at the target, else at the
      stop, each a share of the entry away, else at the close. */
  lemma ExitPriceInMoves(p: Params, s: Slot, t: Tick)
    requires s.entryPrice > 0.0 && s.direction != 0
    ensures var c, price := t.candle, ExitPrice(p, s, t.candle);
            && (BackAtEntry(s, c) ==> price == s.entryPrice)
            && (!BackAtEntry(s, c) && TrailReached(p, s, c) ==>
                  Move(s, price) == (s.peakProfit - p.trailing.value) * s.entryPrice)
            && (!BackAtEntry(s, c) && !TrailReached(p, s, c) && TargetReached(p, s, c) ==>
                  Move(s, price) == p.takeProfit.value * s.entryPrice)
            && (!BackAtEntry(s, c) && !TrailReached(p, s, c) && !TargetReached(p, s, c) && StopReached(p, s, c) ==>
                  Move(s, price) == -p.stopLoss.value * s.entryPrice)
            && (!BackAtEntry(s, c) && !TrailReached(p, s, c) && !TargetReached(p, s, c) && !StopReached(p, s, c) ==>
                  price == c.close)
  {
    hide HitStop, HitTarget, HitBreakeven, HitTrail, WorstMove, BestMove, Scaled, Move, Along;
    StopIsReached(p, s, t.candle);
    TargetIsReached(p, s, t.candle);
    EvenIsReached(s, t.candle);
    TrailIsReached(p, s, t.candle);
    if p.trailing.Some? {
      ScaledIsMove(s, s.peakProfit - p.trailing.value);
    }
    if p.takeProfit.Some? {
      ScaledIsMove(s, p.takeProfit.value);
    }
    if p.stopLoss.Some? {
      ScaledIsMove(s, p.stopLoss.value);
    }
  }

  /** The reason given is the rule that set the price, unless the hazard was reached. */
  lemma ReasonInMoves(p: Params, s: Slot, t: Tick)
    requires s.entryPrice > 0.0 && s.direction != 0
    ensures var c, reason := t.candle, TradeOf(p, s, t).reason;
            && (reason == HazardExit <==> HazardReached(p, s, t.hazard))
            && (reason == BreakevenStopHit <==> BackAtEntry(s, c) && !HazardReached(p, s, t.hazard))
            && (reason == TrailingStopHit <==>
                  TrailReached(p, s, c) && !BackAtEntry(s, c) && !HazardReached(p, s, t.hazard))
            && (reason == TakeProfitHit <==>
                  TargetReached(p, s, c) && !TrailReached(p, s, c) && !BackAtEntry(s, c)
                  && !HazardReached(p, s, t.hazard))
            && (reason == StopLossHit <==>
                  StopReached(p, s, c) && !TargetReached(p, s, c) && !TrailReached(p, s, c) && !BackAtEntry(s, c)
                  && !HazardReached(p, s, t.hazard))
  {
    hide HitStop, HitTarget, HitBreakeven, HitTrail, StopReached, TargetReached, BackAtEntry, TrailReached, ExitPrice,
         SlotUsd, TradeFee;
    StopIsReached(p, s, t.candle);
    TargetIsReached(p, s, t.candle);
    EvenIsReached(s, t.candle);
    TrailIsReached(p, s, t.candle);
  }

  // ---------------------------------------------------------------- how it ages

  /** A candle ages a slot by one, raises its best profit to that of the candle if that is better, and closes the latch
      if the candle's best move reaches the trigger's share of the entry. */
  lemma AgesInMoves(p: Params, s: Slot, c: Candle)
    requires s.entryPrice > 0.0 && s.direction != 0
    ensures var a := AgedSlot(p, s, c);
            && a.holdTicks == s.holdTicks + 1
            && s.peakProfit <= a.peakProfit && BestMove(s, c) <= a.peakProfit * s.entryPrice
            && (a.peakProfit == s.peakProfit || a.peakProfit * s.entryPrice == BestMove(s, c))
            && (a.breakevenActivated <==> s.breakevenActivated || TriggerReached(p, s, c))
  {
    hide Profit, BestMove, SlotUsd, TriggerReached, MaxR, AbsR;
    ExcursionsAreMoves(s, c);
    BestOf(s.peakProfit, Profit(s, c), s.entryPrice);
    TriggerIsReached(p, s, c);
  }

  lemma BestOf(peak: real, q: real, entry: real)
    requires entry > 0.0
    ensures var best := MaxR(peak, q);
            peak <= best && q * entry <= best * entry && (best == peak || best * entry == q * entry)
  {
    ShareCompares(q, peak, entry);
  }

  predicate TriggerReached(p: Params, s: Slot, c: Candle) {
    p.breakeven.Some? && BestMove(s, c) >= AbsR(p.breakeven.value) * s.entryPrice
  }

  lemma TriggerIsReached(p: Params, s: Slot, c: Candle)
    requires s.entryPrice > 0.0 && s.direction != 0
    ensures p.breakeven.Some? && Profit(s, c) >= AbsR(p.breakeven.value) <==> TriggerReached(p, s, c)
  {
    hide Profit, BestMove, AbsR;
    ExcursionsAreMoves(s, c);
    if p.breakeven.Some? {
      ShareCompares(Profit(s, c), AbsR(p.breakeven.value), s.entryPrice);
    }
  }
}
