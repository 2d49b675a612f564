/** Two ways to lay gates on the timeline: the replay collapses a sorted list, the sweep fills dense
    arrays by candle index. Both keep the last gate of each timestamp and flag the same tension peaks. */
module GateMapping {
  import opened Common
  import opened TimeSort

  datatype Gate = Gate(
    ts: Time,
    action: Side,
    hazard: real,
    reps: real,
    coherence: real,
    stability: real,
    entropy: real,
    source: nat)

  /** Structural tension; `decay` stands for the exponential of the negated hazard. */
  function Tension(g: Gate, decay: real -> real): real {
    g.reps * g.coherence * decay(g.hazard)
  }

  /** The last gate on file for a timestamp. */
  function Last(gates: seq<Gate>, ts: Time): Option<Gate> {
    if gates == [] then None
    else if gates[|gates| - 1].ts == ts then Some(gates[|gates| - 1])
    else Last(gates[..|gates| - 1], ts)
  }

  ghost predicate Acts(gates: seq<Gate>, ts: Time) {
    Last(gates, ts).Some? && Last(gates, ts).value.action != 0
  }

  /** `prev` is the acting timestamp right before `ts`. */
  ghost predicate ActsBefore(gates: seq<Gate>, prev: Time, ts: Time) {
    prev < ts && Acts(gates, prev) && forall mid :: prev < mid < ts ==> !Acts(gates, mid)
  }

  predicate Drops(gates: seq<Gate>, decay: real -> real, prev: Time, ts: Time)
    requires Last(gates, prev).Some? && Last(gates, ts).Some?
  {
    var before, now := Tension(Last(gates, prev).value, decay), Tension(Last(gates, ts).value, decay);
    before > 0.0 && now < before
  }

  /** A timestamp with a gate. */
  predicate OnFile(gates: seq<Gate>, ts: Time) {
    Last(gates, ts).Some?
  }

  /** The gate at `ts` acts, and its tension has dropped from a positive one at the acting gate before. */
  ghost predicate IsPeak(gates: seq<Gate>, decay: real -> real, ts: Time) {
    Acts(gates, ts) && exists prev :: ActsBefore(gates, prev, ts) && Drops(gates, decay, prev, ts)
  }

  lemma {:induction false} LastIsThere(gates: seq<Gate>, ts: Time)
    ensures Last(gates, ts).Some? <==> exists k :: 0 <= k < |gates| && gates[k].ts == ts
    ensures Last(gates, ts).Some? ==> Last(gates, ts).value.ts == ts
  {
    if gates != [] {
      var n := |gates| - 1;
      LastIsThere(gates[..n], ts);
      if k :| 0 <= k < n && gates[k].ts == ts {
        assert gates[..n][k].ts == ts;
      }
    }
  }

  // ---------------------------------------------------------------- the stable sort

  function TimeOf(g: Gate): Time {
    g.ts
  }

  lemma {:induction false} LastIsLastAt(gates: seq<Gate>, ts: Time)
    ensures var same := At(gates, ts, TimeOf);
            Last(gates, ts) == if same == [] then None else Some(same[|same| - 1])
  {
    if gates != [] {
      LastIsLastAt(gates[..|gates| - 1], ts);
    }
  }

  /** Sorting does not change which gate is the last of its timestamp. */
  lemma SortKeepsLast(gates: seq<Gate>, ts: Time)
    ensures Ascending(Sort(gates, TimeOf), TimeOf)
    ensures Last(Sort(gates, TimeOf), ts) == Last(gates, ts)
  {
    SortIsStable(gates, ts, TimeOf);
    LastIsLastAt(gates, ts);
    LastIsLastAt(Sort(gates, TimeOf), ts);
  }

  // ---------------------------------------------------------------- the replay's collapse

  datatype Flagged = Flagged(gate: Gate, stPeak: bool)

  /** Strictly ascending, and holding exactly the last gate of every timestamp on file. */
  ghost predicate Collapses(collapsed: seq<Gate>, gates: seq<Gate>) {
    && (forall i, j :: 0 <= i < j < |collapsed| ==> collapsed[i].ts < collapsed[j].ts)
    && (forall k :: 0 <= k < |collapsed| ==> Last(gates, collapsed[k].ts) == Some(collapsed[k]))
    && (forall ts :: OnFile(gates, ts) ==> exists k :: 0 <= k < |collapsed| && collapsed[k].ts == ts)
  }

  /** The dictionary pass over the sorted gates: later gates overwrite earlier ones at the same timestamp. */
  method LatestByTime(sorted: seq<Gate>) returns (latest: seq<Gate>)
    requires Ascending(sorted, TimeOf)
    ensures Collapses(latest, sorted)
  {
    hide Collapses;
    latest := [];
    NothingCollapses();
    for n := 0 to |sorted|
      invariant Collapses(latest, sorted[..n])
      invariant latest != [] ==> n > 0 && latest[|latest| - 1].ts == sorted[n - 1].ts
      invariant latest == [] ==> n == 0
    {
      var g := sorted[n];
      CollapseOneMore(latest, sorted[..n], g);
      assert sorted[..n + 1] == sorted[..n] + [g];
      var last := |latest| - 1;
      if latest != [] && latest[last].ts == g.ts {
        latest := latest[last := g];
      } else {
        latest := latest + [g];
      }
    }
    assert sorted[..|sorted|] == sorted;
  }

  lemma NothingCollapses()
    ensures Collapses([], [])
  {
  }

  /** A gate that is no earlier than the others overwrites the last entry or becomes a new one. */
  lemma CollapseOneMore(latest: seq<Gate>, gates: seq<Gate>, g: Gate)
    requires Collapses(latest, gates) && (latest == [] <==> gates == [])
    requires latest != [] ==> latest[|latest| - 1].ts <= g.ts
    ensures var last := |latest| - 1;
            Collapses(if latest != [] && latest[last].ts == g.ts then latest[last := g] else latest + [g], gates + [g])
  {
    hide Last;
    var last := |latest| - 1;
    var next := if latest != [] && latest[last].ts == g.ts then latest[last := g] else latest + [g];
    LastOfLonger(gates, g);
    forall ts | OnFile(gates + [g], ts)
      ensures exists k :: 0 <= k < |next| && next[k].ts == ts
    {
      if ts == g.ts {
        assert next[|next| - 1].ts == ts;
      } else {
        assert OnFile(gates, ts);
        var k :| 0 <= k < |latest| && latest[k].ts == ts;
        assert next[k].ts == ts;
      }
    }
  }

  lemma LastOfLonger(gates: seq<Gate>, g: Gate)
    ensures forall ts :: Last(gates + [g], ts) == if g.ts == ts then Some(g) else Last(gates, ts)
  {
    assert (gates + [g])[..|gates|] == gates;
  }

  /** What the collapse hands to the replay. */
  ghost predicate CollapsedFrom(flagged: seq<Flagged>, gates: seq<Gate>, decay: real -> real) {
    && (forall i, j :: 0 <= i < j < |flagged| ==> flagged[i].gate.ts < flagged[j].gate.ts)
    && (forall k :: 0 <= k < |flagged| ==> Last(gates, flagged[k].gate.ts) == Some(flagged[k].gate))
    && (forall ts :: OnFile(gates, ts) ==> exists k :: 0 <= k < |flagged| && flagged[k].gate.ts == ts)
    && (forall k :: 0 <= k < |flagged| ==> (flagged[k].stPeak <==> IsPeak(gates, decay, flagged[k].gate.ts)))
  }

  method CollapseGates(gates: seq<Gate>, decay: real -> real) returns (flagged: seq<Flagged>)
    ensures CollapsedFrom(flagged, gates, decay)
  {
    var sorted := Sort(gates, TimeOf);
    forall ts
      ensures Last(sorted, ts) == Last(gates, ts)
    {
      SortKeepsLast(gates, ts);
    }
    SortKeepsLast(gates, 0);
    var collapsed := LatestByTime(sorted);
    assert forall ts :: OnFile(gates, ts) ==> OnFile(sorted, ts);
    flagged := FlagCollapsed(gates, collapsed, decay);
    assert forall k :: 0 <= k < |collapsed| ==> flagged[k].gate == collapsed[k];
  }

  /** One pass over the collapsed gates, remembering the tension of the acting gate before. */
  method FlagCollapsed(ghost gates: seq<Gate>, collapsed: seq<Gate>, decay: real -> real)
    returns (flagged: seq<Flagged>)
    requires Collapses(collapsed, gates)
    ensures |flagged| == |collapsed| && forall k :: 0 <= k < |flagged| ==> flagged[k].gate == collapsed[k]
    ensures forall k :: 0 <= k < |flagged| ==> (flagged[k].stPeak <==> IsPeak(gates, decay, collapsed[k].ts))
  {
    hide IsPeak, Tension;
    flagged := [];
    var prev: Option<real> := None;
    ghost var at: Time := 0;
    for n := 0 to |collapsed|
      invariant |flagged| == n && forall k :: 0 <= k < n ==> flagged[k].gate == collapsed[k]
      invariant forall k :: 0 <= k < n ==> (flagged[k].stPeak <==> IsPeak(gates, decay, collapsed[k].ts))
      invariant prev.None? ==> forall k :: 0 <= k < n ==> collapsed[k].action == 0
      invariant prev.Some? ==> Acts(gates, at) && prev.value == Tension(Last(gates, at).value, decay)
      invariant prev.Some? && n < |collapsed| ==> at < collapsed[n].ts
      invariant prev.Some? ==> forall k :: 0 <= k < n && at < collapsed[k].ts ==> collapsed[k].action == 0
    {
      var g := collapsed[n];
      var peak := false;
      if g.action == 0 {
        NotPeak(gates, decay, g.ts);
      } else {
        var curr := Tension(g, decay);
        peak := prev.Some? && prev.value > 0.0 && curr < prev.value;
        if prev.Some? {
          PreviousAct(gates, collapsed, n, at);
          PeakFromPrevious(gates, decay, at, g.ts);
        } else {
          NoPreviousAct(gates, collapsed, n);
          NotPeak(gates, decay, g.ts);
        }
        prev, at := Some(curr), g.ts;
      }
      flagged := flagged + [Flagged(g, peak)];
    }
  }

  lemma NotPeak(gates: seq<Gate>, decay: real -> real, ts: Time)
    requires !Acts(gates, ts) || forall prev :: !ActsBefore(gates, prev, ts)
    ensures !IsPeak(gates, decay, ts)
  {
  }

  /** Between two neighbours of the collapsed list there is nothing on file. */
  lemma PreviousAct(gates: seq<Gate>, collapsed: seq<Gate>, n: nat, at: Time)
    requires Collapses(collapsed, gates) && n < |collapsed|
    requires Acts(gates, at) && at < collapsed[n].ts
    requires forall k :: 0 <= k < n && at < collapsed[k].ts ==> collapsed[k].action == 0
    ensures ActsBefore(gates, at, collapsed[n].ts)
  {
    forall mid | at < mid < collapsed[n].ts
      ensures !Acts(gates, mid)
    {
      if OnFile(gates, mid) {
        var k :| 0 <= k < |collapsed| && collapsed[k].ts == mid;
        assert k < n;
      }
    }
  }

  lemma NoPreviousAct(gates: seq<Gate>, collapsed: seq<Gate>, n: nat)
    requires Collapses(collapsed, gates) && n < |collapsed|
    requires forall k :: 0 <= k < n ==> collapsed[k].action == 0
    ensures forall prev :: !ActsBefore(gates, prev, collapsed[n].ts)
  {
    forall prev | prev < collapsed[n].ts
      ensures !Acts(gates, prev)
    {
      if OnFile(gates, prev) {
        var k :| 0 <= k < |collapsed| && collapsed[k].ts == prev;
        assert k < n;
      }
    }
  }

  /** The acting timestamp before is unique, so one comparison decides. */
  lemma PeakFromPrevious(gates: seq<Gate>, decay: real -> real, at: Time, ts: Time)
    requires ActsBefore(gates, at, ts) && Acts(gates, ts)
    ensures IsPeak(gates, decay, ts) <==> Drops(gates, decay, at, ts)
  {
    forall prev | ActsBefore(gates, prev, ts)
      ensures prev == at
    {
    }
  }

  // ---------------------------------------------------------------- the sweep's dense arrays

  ghost predicate StrictlyAscending(times: seq<Time>) {
    forall i, j :: 0 <= i < j < |times| ==> times[i] < times[j]
  }

  /** The gates at candle timestamps. */
  function Gridded(gates: seq<Gate>, times: seq<Time>): seq<Gate> {
    if gates == [] then []
    else
      var n := |gates| - 1;
      Gridded(gates[..n], times) + (if gates[n].ts in times then [gates[n]] else [])
  }

  lemma {:induction false} LastGridded(gates: seq<Gate>, times: seq<Time>, ts: Time)
    ensures Last(Gridded(gates, times), ts) == if ts in times then Last(gates, ts) else None
  {
    if gates != [] {
      var n := |gates| - 1;
      LastGridded(gates[..n], times, ts);
      if gates[n].ts in times {
        var g := Gridded(gates, times);
        assert g[..|g| - 1] == Gridded(gates[..n], times);
      } else {
        assert Gridded(gates, times) == Gridded(gates[..n], times);
      }
    }
  }

  lemma {:induction false} GriddedIsOnGrid(gates: seq<Gate>, times: seq<Time>)
    ensures forall k :: 0 <= k < |Gridded(gates, times)| ==> Gridded(gates, times)[k].ts in times
  {
    if gates != [] {
      GriddedIsOnGrid(gates[..|gates| - 1], times);
    }
  }

  /** What the mapping hands to the sweep. */
  ghost predicate MappedFrom(dense: seq<Option<Gate>>, stPeak: seq<bool>, times: seq<Time>, gates: seq<Gate>,
                             decay: real -> real)
  {
    && |dense| == |stPeak| == |times|
    && (forall i :: 0 <= i < |times| ==> dense[i] == Last(gates, times[i]))
    && (forall i :: 0 <= i < |times| ==> (stPeak[i] <==> IsPeak(Gridded(gates, times), decay, times[i])))
  }

  /** Lay the gates on the candle grid in file order, then flag the drops between neighbouring acting gates.
      A gate between two candles is passed over, so only the gridded ones count for the flags. */
  method MapGates(times: seq<Time>, gates: seq<Gate>, decay: real -> real)
    returns (dense: seq<Option<Gate>>, stPeak: seq<bool>)
    requires StrictlyAscending(times)
    ensures MappedFrom(dense, stPeak, times, gates, decay)
  {
    dense := seq(|times|, _ => None);
    for n := 0 to |gates|
      invariant |dense| == |times|
      invariant forall i :: 0 <= i < |times| ==> dense[i] == Last(gates[..n], times[i])
    {
      assert gates[..n + 1][..n] == gates[..n];
      if gates[n].ts in times {
        var i :| 0 <= i < |times| && times[i] == gates[n].ts;
        dense := dense[i := Some(gates[n])];
      }
    }
    assert gates[..|gates|] == gates;
    GriddedIsOnGrid(gates, times);
    forall i | 0 <= i < |times|
      ensures dense[i] == Last(Gridded(gates, times), times[i])
    {
      LastGridded(gates, times, times[i]);
    }
    stPeak := FlagPeaks(times, Gridded(gates, times), decay, dense);
  }

  method FlagPeaks(times: seq<Time>, ghost gates: seq<Gate>, decay: real -> real, dense: seq<Option<Gate>>)
    returns (stPeak: seq<bool>)
    requires StrictlyAscending(times) && |dense| == |times|
    requires forall k :: 0 <= k < |gates| ==> gates[k].ts in times
    requires forall i :: 0 <= i < |times| ==> dense[i] == Last(gates, times[i])
    ensures |stPeak| == |times|
    ensures forall i :: 0 <= i < |times| ==> (stPeak[i] <==> IsPeak(gates, decay, times[i]))
  {
    stPeak := [];
    var shifted := 0.0;            // the tension of the acting gate before, or the zero the shift puts in front
    ghost var at: Option<Time> := None;
    for n := 0 to |times|
      invariant |stPeak| == n
      invariant forall i :: 0 <= i < n ==> (stPeak[i] <==> IsPeak(gates, decay, times[i]))
      invariant at.None? ==> shifted == 0.0 && forall i :: 0 <= i < n ==> !Acts(gates, times[i])
      invariant at.Some? ==> Acts(gates, at.value) && shifted == Tension(Last(gates, at.value).value, decay)
      invariant at.Some? && n < |times| ==> at.value < times[n]
      invariant at.Some? ==> forall i :: 0 <= i < n && at.value < times[i] ==> !Acts(gates, times[i])
    {
      if dense[n].Some? && dense[n].value.action != 0 {
        var curr := Tension(dense[n].value, decay);
        OffGridNothingActs(times, gates, n);
        if at.Some? {
          assert ActsBefore(gates, at.value, times[n]);
          PeakFromPrevious(gates, decay, at.value, times[n]);
        }
        stPeak := stPeak + [curr < shifted && shifted > 0.0];
        shifted, at := curr, Some(times[n]);
      } else {
        stPeak := stPeak + [false];
      }
    }
  }

  lemma OffGridNothingActs(times: seq<Time>, gates: seq<Gate>, n: nat)
    requires StrictlyAscending(times) && n < |times|
    requires forall k :: 0 <= k < |gates| ==> gates[k].ts in times
    ensures forall ts :: ts < times[n] && Acts(gates, ts) ==> exists i :: 0 <= i < n && times[i] == ts
  {
    forall ts | ts < times[n] && Acts(gates, ts)
      ensures exists i :: 0 <= i < n && times[i] == ts
    {
      LastIsThere(gates, ts);
      var i :| 0 <= i < |times| && times[i] == ts;
      assert i < n;
    }
  }

  // ---------------------------------------------------------------- when the flags agree

  /** If anything acts before `ts`, something acts last before it. */
  lemma {:induction false} SomethingActsLast(gates: seq<Gate>, earlier: Time, ts: Time, n: nat) returns (prev: Time)
    requires Acts(gates, earlier) && earlier < ts && ts - earlier <= n
    ensures ActsBefore(gates, prev, ts) && earlier <= prev
    decreases n
  {
    hide Acts;
    if mid :| earlier < mid < ts && Acts(gates, mid) {
      prev := SomethingActsLast(gates, mid, ts, n - 1);
    } else {
      prev := earlier;
    }
  }

  lemma GriddedActs(gates: seq<Gate>, times: seq<Time>, t: Time)
    ensures Acts(Gridded(gates, times), t) <==> t in times && Acts(gates, t)
    ensures t in times ==> Last(Gridded(gates, times), t) == Last(gates, t)
  {
    LastGridded(gates, times, t);
  }

  /** If a gate acts at `ts`, the one that acts right before it, if there is one, is at a candle. Gates elsewhere do
      not matter. */
  ghost predicate PreviousOnGrid(gates: seq<Gate>, times: seq<Time>, ts: Time) {
    Acts(gates, ts) ==> forall prev :: ActsBefore(gates, prev, ts) ==> prev in times
  }

  /** Then the gridded gates give the same flag. */
  lemma SamePeak(times: seq<Time>, gates: seq<Gate>, decay: real -> real, ts: Time)
    requires ts in times && PreviousOnGrid(gates, times, ts)
    ensures IsPeak(Gridded(gates, times), decay, ts) <==> IsPeak(gates, decay, ts)
  {
    hide Last, Gridded, Tension, Acts;
    var gridded := Gridded(gates, times);
    forall t
      ensures Acts(gridded, t) <==> t in times && Acts(gates, t)
      ensures t in times ==> Last(gridded, t) == Last(gates, t)
    {
      GriddedActs(gates, times, t);
    }
    if Acts(gates, ts) {
      forall prev
        ensures ActsBefore(gridded, prev, ts) <==> ActsBefore(gates, prev, ts)
      {
        if ActsBefore(gridded, prev, ts) {
          var last := SomethingActsLast(gates, prev, ts, ts - prev);
          assert last == prev;
        }
      }
    }
    ActingIsOnFile(gates, gridded);
  }

  lemma ActingIsOnFile(gates: seq<Gate>, gridded: seq<Gate>)
    ensures forall t :: Acts(gates, t) ==> Last(gates, t).Some?
    ensures forall t :: Acts(gridded, t) ==> Last(gridded, t).Some?
  {
  }

  // ---------------------------------------------------------------- and only then

  /** The same timestamps, actions and hazards with repetitions and coherence that give a tension of two at
      `peak` and of one everywhere else. */
  function Retuned(gates: seq<Gate>, decay: real -> real, peak: Time): (r: seq<Gate>)
    requires forall h :: decay(h) > 0.0
    ensures |r| == |gates|
  {
    if gates == [] then []
    else Retuned(gates[..|gates| - 1], decay, peak) + [RetunedGate(gates[|gates| - 1], decay, peak)]
  }

  function RetunedGate(g: Gate, decay: real -> real, peak: Time): Gate
    requires decay(g.hazard) > 0.0
  {
    g.(reps := (if g.ts == peak then 2.0 else 1.0) / decay(g.hazard), coherence := 1.0)
  }

  /** Two files of gates that differ at most in repetitions and coherence. */
  ghost predicate SameLayout(gates: seq<Gate>, others: seq<Gate>) {
    |gates| == |others|
    && forall k :: 0 <= k < |gates| ==>
         others[k] == gates[k].(reps := others[k].reps, coherence := others[k].coherence)
  }

  lemma {:induction false} RetunedKeepsLayout(gates: seq<Gate>, decay: real -> real, peak: Time)
    requires forall h :: decay(h) > 0.0
    ensures SameLayout(gates, Retuned(gates, decay, peak))
  {
    if gates != [] {
      RetunedKeepsLayout(gates[..|gates| - 1], decay, peak);
    }
  }

  lemma RetunedTension(g: Gate, decay: real -> real, peak: Time)
    requires decay(g.hazard) > 0.0
    ensures Tension(RetunedGate(g, decay, peak), decay) == if g.ts == peak then 2.0 else 1.0
  {
  }

  lemma {:induction false} LastRetuned(gates: seq<Gate>, decay: real -> real, peak: Time, ts: Time)
    requires forall h :: decay(h) > 0.0
    ensures var r := Last(Retuned(gates, decay, peak), ts);
            if Last(gates, ts).None? then r.None?
            else r == Some(RetunedGate(Last(gates, ts).value, decay, peak)) && Last(gates, ts).value.ts == ts
  {
    if gates != [] {
      var n := |gates| - 1;
      LastRetuned(gates[..n], decay, peak, ts);
      assert Retuned(gates, decay, peak)[..n] == Retuned(gates[..n], decay, peak);
    }
  }

  /** Gates with the same layout act at the same times. */
  lemma {:induction false} SameLayoutActs(gates: seq<Gate>, others: seq<Gate>, ts: Time)
    requires SameLayout(gates, others)
    ensures Acts(gates, ts) <==> Acts(others, ts)
  {
    if gates != [] {
      SameLayoutActs(gates[..|gates| - 1], others[..|others| - 1], ts);
    }
  }

  /** A gate acting between candles right before `ts`: with its tension twice the others', the file has a peak
      at `ts`, and the gridded gates have none. */
  lemma OffGridPreviousSplits(times: seq<Time>, gates: seq<Gate>, decay: real -> real, prev: Time, ts: Time)
    requires forall h :: decay(h) > 0.0
    requires ts in times && Acts(gates, ts) && ActsBefore(gates, prev, ts) && prev !in times
    ensures var others := Retuned(gates, decay, prev);
            IsPeak(others, decay, ts) && !IsPeak(Gridded(others, times), decay, ts)
  {
    hide Last, Gridded, Retuned, RetunedGate, Tension, Acts;
    var others := Retuned(gates, decay, prev);
    var gridded := Gridded(others, times);
    RetunedKeepsLayout(gates, decay, prev);
    forall t
      ensures Acts(others, t) <==> Acts(gates, t)
      ensures Acts(gridded, t) <==> t in times && Acts(gates, t)
      ensures t in times ==> Last(gridded, t) == Last(others, t)
      ensures Last(others, t).Some? ==> Tension(Last(others, t).value, decay) == if t == prev then 2.0 else 1.0
    {
      SameLayoutActs(gates, others, t);
      GriddedActs(others, times, t);
      LastRetuned(gates, decay, prev, t);
      if Last(gates, t).Some? {
        RetunedTension(Last(gates, t).value, decay, prev);
      }
    }
    ActingIsOnFile(others, gridded);
    assert ActsBefore(others, prev, ts) && Drops(others, decay, prev, ts);
  }

  /** The flag at a candle agrees for all repetitions and coherences exactly when, if a gate acts there, the one that
      acts right before it is at a candle too. */
  lemma PeaksAgreeIffPreviousOnGrid(times: seq<Time>, gates: seq<Gate>, decay: real -> real, ts: Time)
    requires ts in times && forall h :: decay(h) > 0.0
    ensures PreviousOnGrid(gates, times, ts) <==>
            forall others :: SameLayout(gates, others) ==>
              (IsPeak(Gridded(others, times), decay, ts) <==> IsPeak(others, decay, ts))
  {
    hide Last, Gridded, Retuned, Tension, IsPeak, Acts;
    if PreviousOnGrid(gates, times, ts) {
      forall others | SameLayout(gates, others)
        ensures IsPeak(Gridded(others, times), decay, ts) <==> IsPeak(others, decay, ts)
      {
        forall t
          ensures Acts(others, t) <==> Acts(gates, t)
        {
          SameLayoutActs(gates, others, t);
        }
        SamePeak(times, others, decay, ts);
      }
    } else {
      var prev :| ActsBefore(gates, prev, ts) && prev !in times;
      RetunedKeepsLayout(gates, decay, prev);
      OffGridPreviousSplits(times, gates, decay, prev, ts);
    }
  }

  // ---------------------------------------------------------------- both ways agree

  /** What the replay looks up at a candle is what the sweep has in its arrays there, but perhaps for the flag. */
  lemma SameGateUpToPeak(times: seq<Time>, gates: seq<Gate>, decay: real -> real, flagged: seq<Flagged>,
                         dense: seq<Option<Gate>>, stPeak: seq<bool>, i: nat)
    requires CollapsedFrom(flagged, gates, decay) && MappedFrom(dense, stPeak, times, gates, decay)
    requires i < |times|
    ensures if dense[i].Some?
            then exists k :: 0 <= k < |flagged| && flagged[k].gate == dense[i].value && flagged[k].gate.ts == times[i]
                             && (PreviousOnGrid(gates, times, times[i]) ==> flagged[k].stPeak == stPeak[i])
            else forall k :: 0 <= k < |flagged| ==> flagged[k].gate.ts != times[i]
  {
    hide IsPeak, Gridded, Tension, PreviousOnGrid;
    if PreviousOnGrid(gates, times, times[i]) {
      SamePeak(times, gates, decay, times[i]);
    }
    if OnFile(gates, times[i]) {
      var k :| 0 <= k < |flagged| && flagged[k].gate.ts == times[i];
      assert flagged[k].gate == dense[i].value;
    }
  }

  /** The flag too, as long as the gate that acts right before an acting one is at a candle. */
  lemma SameGateAtEveryCandle(times: seq<Time>, gates: seq<Gate>, decay: real -> real, flagged: seq<Flagged>,
                              dense: seq<Option<Gate>>, stPeak: seq<bool>, i: nat)
    requires CollapsedFrom(flagged, gates, decay) && MappedFrom(dense, stPeak, times, gates, decay)
    requires i < |times| && PreviousOnGrid(gates, times, times[i])
    ensures if dense[i].Some?
            then exists k :: 0 <= k < |flagged| && flagged[k] == Flagged(dense[i].value, stPeak[i])
            else forall k :: 0 <= k < |flagged| ==> flagged[k].gate.ts != times[i]
  {
    hide CollapsedFrom, PreviousOnGrid;
    SameGateUpToPeak(times, gates, decay, flagged, dense, stPeak, i);
    if dense[i].Some? {
      var k :| 0 <= k < |flagged| && flagged[k].gate == dense[i].value && flagged[k].stPeak == stPeak[i];
      assert flagged[k] == Flagged(dense[i].value, stPeak[i]);
    }
  }

  /** Three gates, the second between two candles: the sweep sees a drop from three to two, the replay a rise
      from one to two. */
  lemma OffGridGateSplits()
    ensures var gates := [Gate(0, 1, 0.0, 3.0, 1.0, 1.0, 0.0, 0), Gate(1, 1, 0.0, 1.0, 1.0, 1.0, 0.0, 0),
                          Gate(2, 1, 0.0, 2.0, 1.0, 1.0, 0.0, 0)];
            var decay := (hazard: real) => 1.0;
            IsPeak(Gridded(gates, [0, 2]), decay, 2) && !IsPeak(gates, decay, 2)
  {
    hide Last, Gridded;
    var gates := [Gate(0, 1, 0.0, 3.0, 1.0, 1.0, 0.0, 0), Gate(1, 1, 0.0, 1.0, 1.0, 1.0, 0.0, 0),
                  Gate(2, 1, 0.0, 2.0, 1.0, 1.0, 0.0, 0)];
    var decay := (hazard: real) => 1.0;
    var gridded := Gridded(gates, [0, 2]);
    forall ts
      ensures Last(gates, ts) == if 0 <= ts <= 2 then Some(gates[ts]) else None
      ensures Last(gridded, ts) == if ts == 2 then Some(gates[2]) else if ts == 0 then Some(gates[0]) else None
    {
      LastGridded(gates, [0, 2], ts);
      LastOfThree(gates, ts);
    }
    assert ActsBefore(gridded, 0, 2) && Drops(gridded, decay, 0, 2);
    assert ActsBefore(gates, 1, 2) && !Drops(gates, decay, 1, 2);
    assert forall prev :: ActsBefore(gates, prev, 2) ==> prev == 1;
  }

  lemma LastOfThree(gates: seq<Gate>, ts: Time)
    requires |gates| == 3 && gates[0].ts == 0 && gates[1].ts == 1 && gates[2].ts == 2
    ensures Last(gates, ts) == if 0 <= ts <= 2 then Some(gates[ts]) else None
  {
    assert Last(gates[..2][..1], ts) == if ts == 0 then Some(gates[0]) else None;
    assert Last(gates[..2], ts) == if ts == 1 then Some(gates[1]) else Last(gates[..2][..1], ts);
  }

  // ---------------------------------------------------------------- what tension says

  /** Tension grows with repetitions and with coherence, in proportion, and depends on nothing else but the hazard. */
  lemma TensionScales(g: Gate, h: Gate, decay: real -> real, k: real)
    requires g.hazard == h.hazard
    ensures h.reps == k * g.reps && h.coherence == g.coherence ==> Tension(h, decay) == k * Tension(g, decay)
    ensures h.coherence == k * g.coherence && h.reps == g.reps ==> Tension(h, decay) == k * Tension(g, decay)
  {
  }

  /** Of two gates alike but for the hazard the one with the lower decay is under less tension. */
  lemma TensionDecays(g: Gate, h: Gate, decay: real -> real)
    requires g.reps == h.reps > 0.0 && g.coherence == h.coherence > 0.0
    ensures Tension(g, decay) < Tension(h, decay) <==> decay(g.hazard) < decay(h.hazard)
  {
    var weight := g.reps * g.coherence;
    assert weight > 0.0;
    if decay(g.hazard) < decay(h.hazard) {
      assert weight * (decay(h.hazard) - decay(g.hazard)) > 0.0;
    } else {
      assert weight * (decay(g.hazard) - decay(h.hazard)) >= 0.0;
    }
  }

  /** A peak is a fall: the gate that acted last before it was under more tension. Where tension never falls from one
      acting gate to the next, nothing is flagged. */
  lemma PeaksAreFalls(gates: seq<Gate>, decay: real -> real, ts: Time)
    ensures IsPeak(gates, decay, ts) ==>
              exists prev :: ActsBefore(gates, prev, ts) && TensionAt(gates, decay, prev) > TensionAt(gates, decay, ts)
    ensures (forall prev :: ActsBefore(gates, prev, ts) ==>
                              TensionAt(gates, decay, prev) <= TensionAt(gates, decay, ts))
            ==> !IsPeak(gates, decay, ts)
    ensures (exists prev :: ActsBefore(gates, prev, ts) && TensionAt(gates, decay, prev) > 0.0
                            && TensionAt(gates, decay, prev) > TensionAt(gates, decay, ts)) && Acts(gates, ts)
            ==> IsPeak(gates, decay, ts)
  {
    hide Tension, Last;
  }

  /** The tension of the last gate on file for a moment, none if there is none. */
  function TensionAt(gates: seq<Gate>, decay: real -> real, ts: Time): real {
    match Last(gates, ts) case Some(g) => Tension(g, decay) case None => 0.0
  }
}
