/** From the files to equal tallies: the replay looks gates up in what the collapse made of the gate file and hazards in
    its samples of the signature file, the sweep reads the arrays the mapping and the merge filled, and both come to the
    same count. */
module TimelineParity {
  import opened Common
  import opened ParityReplay
  import opened BatchSweep
  import opened SweepParity
  import opened HazardSeries
  import G = GateMapping
  import E = EventAlignment

  function AsGate(g: G.Gate, stPeak: bool): Gate {
    Gate(g.action, g.hazard, g.reps, g.coherence, g.stability, g.entropy, stPeak, g.source)
  }

  /** The replay's dictionary of collapsed gates by timestamp. */
  function LookUp(flagged: seq<G.Flagged>, ts: Time): Option<Gate> {
    if flagged == [] then None
    else
      var last := flagged[|flagged| - 1];
      if last.gate.ts == ts then Some(AsGate(last.gate, last.stPeak)) else LookUp(flagged[..|flagged| - 1], ts)
  }

  /** Candles in order of time, with regime flags index by index, and the file of signatures. */
  datatype Market = Market(candles: seq<Candle>, regimes: seq<Option<Regime>>, signatures: seq<E.Signature>) {
    predicate Aligned() {
      |candles| == |regimes|
      && forall i, j :: 0 <= i < j < |candles| ==> candles[i].time <= candles[j].time
    }

    function Times(): (r: seq<Time>)
      ensures |r| == |candles| && forall i :: 0 <= i < |r| ==> r[i] == candles[i].time
    {
      seq(|candles|, i requires 0 <= i < |candles| => candles[i].time)
    }
  }

  function ReplayTicks(market: Market, flagged: seq<G.Flagged>): (r: seq<Tick>)
    requires market.Aligned()
    ensures |r| == |market.candles|
    ensures forall i :: 0 <= i < |r| ==>
              r[i] == Tick(market.candles[i], LookUp(flagged, market.candles[i].time),
                           ReplayHazard(market.signatures, market.Times(), i), market.regimes[i])
  {
    seq(|market.candles|, i requires 0 <= i < |market.candles| =>
      Tick(market.candles[i], LookUp(flagged, market.candles[i].time),
           ReplayHazard(market.signatures, market.Times(), i), market.regimes[i]))
  }

  function SweepTicks(market: Market, dense: seq<Option<G.Gate>>, stPeak: seq<bool>): (r: seq<Tick>)
    requires market.Aligned() && |dense| == |stPeak| == |market.candles|
    ensures |r| == |market.candles|
    ensures forall i :: 0 <= i < |r| ==>
              r[i] == Tick(market.candles[i], if dense[i].Some? then Some(AsGate(dense[i].value, stPeak[i])) else None,
                           SweepHazard(market.signatures, market.Times(), i), market.regimes[i])
  {
    seq(|market.candles|, i requires 0 <= i < |market.candles| =>
      Tick(market.candles[i], if dense[i].Some? then Some(AsGate(dense[i].value, stPeak[i])) else None,
           SweepHazard(market.signatures, market.Times(), i), market.regimes[i]))
  }

  lemma {:induction false} LookUpFinds(flagged: seq<G.Flagged>, ts: Time)
    requires forall i, j :: 0 <= i < j < |flagged| ==> flagged[i].gate.ts < flagged[j].gate.ts
    ensures forall k :: 0 <= k < |flagged| && flagged[k].gate.ts == ts ==>
              LookUp(flagged, ts) == Some(AsGate(flagged[k].gate, flagged[k].stPeak))
    ensures (forall k :: 0 <= k < |flagged| ==> flagged[k].gate.ts != ts) ==> LookUp(flagged, ts) == None
  {
    if flagged != [] {
      LookUpFinds(flagged[..|flagged| - 1], ts);
    }
  }

  // ---------------------------------------------------------------- what a parameter set reads

  predicate ReadsPeaks(p: Params) {
    p.meanReversion && p.stPeakMode
  }

  predicate ReadsHazard(p: Params) {
    p.hazardExit.Some? && p.hazardExit.value < 0.999
  }

  /** Two ticks that are the same to a parameter set. */
  predicate ReadsAlike(p: Params, s: Tick, t: Tick) {
    && s.candle == t.candle
    && (ReadsHazard(p) ==> s.hazard == t.hazard)
    && (s.gate.Some? <==> t.gate.Some?)
    && (s.gate.Some? ==>
          && s.gate.value.(stPeak := t.gate.value.stPeak) == t.gate.value
          && (ReadsPeaks(p) ==> s.gate == t.gate))
  }

  lemma SlotReadsAlike(p: Params, st: State, s: Tick, t: Tick, k: nat)
    requires k < SLOTS && PositiveEntries(st.slots) && ReadsAlike(p, s, t)
    ensures OneSlot(p, st, s, k) == OneSlot(p, st, t, k)
  {
    hide AgedSlot, ExitPrice, SlotUsd, TradeFee, HitStop, HitTarget, HitBreakeven, HitTrail, HitTime;
  }

  lemma {:induction false} ExitsReadAlike(p: Params, st: State, s: Tick, t: Tick, k: nat)
    requires k <= SLOTS && PositiveEntries(st.slots) && ReadsAlike(p, s, t)
    ensures ExitFrom(p, st, s, k) == ExitFrom(p, st, t, k)
    decreases SLOTS - k
  {
    hide OneSlot, ReadsAlike;
    if k < SLOTS {
      SlotReadsAlike(p, st, s, t, k);
      ExitsReadAlike(p, OneSlot(p, st, s, k), s, t, k + 1);
    }
  }

  lemma EntryReadsAlike(p: Params, st: State, s: Tick, t: Tick)
    requires ReadsAlike(p, s, t)
    ensures Entry(p, st, s) == Entry(p, st, t)
  {
    hide SignedOpen, FirstOpen, TradeFee;
  }

  /** What a parameter set does not read does not matter to its replay. */
  lemma {:induction false} RunReadsAlike(p: Params, some: seq<Tick>, others: seq<Tick>)
    requires |some| == |others| && PositiveCloses(some)
    requires forall i :: 0 <= i < |some| ==> ReadsAlike(p, some[i], others[i])
    ensures PositiveCloses(others) && Run(p, some) == Run(p, others)
  {
    hide Entry, ExitFrom;
    assert forall i :: 0 <= i < |some| ==> some[i].candle == others[i].candle;
    if some != [] {
      var n := |some| - 1;
      RunReadsAlike(p, some[..n], others[..n]);
      var before := Run(p, some[..n]);
      ExitsReadAlike(p, CoolDown(before), some[n], others[n], 0);
      EntryReadsAlike(p, AfterExits(p, before, some[n]), some[n], others[n]);
    }
  }

  // ---------------------------------------------------------------- the two timelines

  /** Every gate that acts right before a candle's acting gate is itself at a candle. */
  ghost predicate NoActingGateBetween(gates: seq<G.Gate>, times: seq<Time>) {
    forall ts :: ts in times ==> G.PreviousOnGrid(gates, times, ts)
  }

  /** A whole number of sampling intervals lies between the first candle and any other. */
  predicate OnSamples(times: seq<Time>) {
    forall i :: 0 <= i < |times| ==> (times[i] - times[0]) % SAMPLING == 0
  }

  /** What the files must look like for a parameter set: each condition only where the set reads what it is about. */
  ghost predicate FilesFit(p: Params, market: Market, gates: seq<G.Gate>) {
    && (ReadsPeaks(p) ==> NoActingGateBetween(gates, market.Times()))
    && (ReadsHazard(p) ==> OnSamples(market.Times()))
  }

  /** To a parameter set both sides look alike, candle by candle. */
  lemma SameTimeline(p: Params, market: Market, gates: seq<G.Gate>, decay: real -> real, flagged: seq<G.Flagged>,
                     dense: seq<Option<G.Gate>>, stPeak: seq<bool>, i: nat)
    requires market.Aligned() && i < |market.candles|
    requires G.CollapsedFrom(flagged, gates, decay) && G.MappedFrom(dense, stPeak, market.Times(), gates, decay)
    requires FilesFit(p, market, gates)
    ensures ReadsAlike(p, SweepTicks(market, dense, stPeak)[i], ReplayTicks(market, flagged)[i])
  {
    hide G.IsPeak, G.Last, G.Gridded, G.PreviousOnGrid, G.OnFile, ReplayHazard, SweepHazard;
    var times := market.Times();
    assert times[i] in times;
    G.SameGateUpToPeak(times, gates, decay, flagged, dense, stPeak, i);
    LookUpFinds(flagged, times[i]);
    if ReadsHazard(p) {
      SeriesAgreeIffSampled(times, i);
    }
  }

  /** For every parameter set of a sweep: what the sweep counts on mapped gates and merged hazards is what the replay's
      trades on collapsed gates and sampled hazards come to. */
  lemma SweepOfAFileCountsTheReplaysTrades(ps: seq<Params>, i: nat, m: Mode, market: Market, gates: seq<G.Gate>,
                                           decay: real -> real, flagged: seq<G.Flagged>, dense: seq<Option<G.Gate>>,
                                           stPeak: seq<bool>)
    requires market.Aligned() && G.CollapsedFrom(flagged, gates, decay)
    requires G.MappedFrom(dense, stPeak, market.Times(), gates, decay)
    requires i < |ps| && FilesFit(ps[i], market, gates)
    requires Comparable(ps[i], m) && Tame(ps[i], SweepTicks(market, dense, stPeak))
    ensures PositiveCloses(ReplayTicks(market, flagged))
    ensures BatchRun(EncodeAll(ps), SweepTicks(market, dense, stPeak), m)[i].tally
            == TallyOf(Run(ps[i], ReplayTicks(market, flagged)).trades)
  {
    hide G.CollapsedFrom, FilesFit, Tame, Comparable, ReplayTicks, SweepTicks, BatchRun, Run, EncodeAll,
         ReadsAlike, ReplayHazard, SweepHazard, LookUp;
    var swept, replayed := SweepTicks(market, dense, stPeak), ReplayTicks(market, flagged);
    SweepCountsTheReplaysTrades(ps, swept, m, i);
    forall j | 0 <= j < |swept|
      ensures ReadsAlike(ps[i], swept[j], replayed[j])
    {
      SameTimeline(ps[i], market, gates, decay, flagged, dense, stPeak, j);
    }
    RunReadsAlike(ps[i], swept, replayed);
  }
}
