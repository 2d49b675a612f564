/** The continuous hazard, twice: the replay samples a file of signatures every five seconds and looks candles up in the
    samples, the sweep moves a cursor through the file from candle to candle. */
module HazardSeries {
  import opened Common
  import opened TimeSort
  import opened EventAlignment

  const SAMPLING := 5000

  /** A moment the replay takes a sample at. */
  predicate Sampled(ts: Time, start: Time, end: Time) {
    start <= ts <= end && (ts - start) % SAMPLING == 0
  }

  lemma NextSample(ts: Time, start: Time, end: Time)
    requires Sampled(ts, start, end)
    ensures forall t :: Sampled(t, start, end) && t < ts + SAMPLING <==> t == ts || (Sampled(t, start, end) && t < ts)
    ensures ts + SAMPLING <= end ==> Sampled(ts + SAMPLING, start, end)
  {
  }

  lemma FirstSample(start: Time, end: Time)
    ensures start <= end ==> Sampled(start, start, end)
    ensures forall t :: Sampled(t, start, end) ==> start <= t <= end
  {
  }

  function UpTo(sigs: seq<Signature>, end: Time): seq<Signature> {
    if sigs == [] then []
    else UpTo(sigs[..|sigs| - 1], end) + (if sigs[|sigs| - 1].ts <= end then [sigs[|sigs| - 1]] else [])
  }

  lemma {:induction false} UpToKeepsLatest(sigs: seq<Signature>, end: Time, ts: Time)
    requires ts <= end
    ensures Latest(UpTo(sigs, end), ts) == Latest(sigs, ts)
  {
    hide Latest;
    if sigs != [] {
      var n := |sigs| - 1;
      UpToKeepsLatest(sigs[..n], end, ts);
      LatestOfLonger(sigs[..n], sigs[n], ts);
      LatestOfLonger(UpTo(sigs[..n], end), sigs[n], ts);
      assert sigs == sigs[..n] + [sigs[n]];
      if sigs[n].ts > end {
        assert UpTo(sigs, end) == UpTo(sigs[..n], end);
      }
    }
  }

  method KeepUpTo(file: seq<Signature>, end: Time) returns (points: seq<Signature>)
    ensures points == UpTo(file, end)
  {
    points := [];
    for n := 0 to |file|
      invariant points == UpTo(file[..n], end)
    {
      assert file[..n + 1][..n] == file[..n];
      if file[n].ts <= end {
        points := points + [file[n]];
      }
    }
    assert file[..|file|] == file;
  }

  /** The replay's dictionary: signatures up to the end, sorted, and the hazard at every fifth second. */
  method LoadContinuousHazard(file: seq<Signature>, start: Time, end: Time) returns (byTs: map<Time, real>)
    ensures forall ts :: ts in byTs <==> Sampled(ts, start, end)
    ensures forall ts :: ts in byTs ==> byTs[ts] == HazardAt(file, ts)
  {
    hide HazardAt, Merged, Ascending, Sampled, UpTo, Sort;
    var points := KeepUpTo(file, end);
    SortIsStable(points, start, SignatureTime);
    points := Sort(points, SignatureTime);
    byTs := map[];
    var ts, k, hazard := start, 0, NO_HAZARD;
    ghost var since: Option<Time> := None;
    NothingMerged(points);
    FirstSample(start, end);
    while ts <= end
      invariant ts <= end ==> Sampled(ts, start, end)
      invariant Merged(points, since, k, hazard) && (since.Some? ==> since.value <= ts)
      invariant forall t :: t in byTs <==> Sampled(t, start, end) && t < ts
      invariant ts > end ==> forall t :: Sampled(t, start, end) ==> t < ts
      invariant forall t :: t in byTs ==> byTs[t] == HazardAt(file, t)
      decreases end - ts
    {
      k, hazard := Advance(points, ts, since, k, hazard);
      since := Some(ts);
      SampleIsHazard(file, end, ts, k, hazard);
      NextSample(ts, start, end);
      byTs := byTs[ts := hazard];
      ts := ts + SAMPLING;
    }
  }

  lemma NothingMerged(points: seq<Signature>)
    ensures Merged(points, None, 0, NO_HAZARD)
  {
  }

  lemma SampleIsHazard(file: seq<Signature>, end: Time, ts: Time, k: nat, hazard: real)
    requires ts <= end && Merged(Sort(UpTo(file, end), SignatureTime), Some(ts), k, hazard)
    ensures hazard == HazardAt(file, ts)
  {
    hide Latest, UpTo;
    SortKeepsLatest(UpTo(file, end), ts);
    UpToKeepsLatest(file, end, ts);
  }

  lemma MergedIsHazard(file: seq<Signature>, ts: Time, k: nat, hazard: real)
    requires Merged(Sort(file, SignatureTime), Some(ts), k, hazard)
    ensures hazard == HazardAt(file, ts)
  {
    hide Latest;
    SortKeepsLatest(file, ts);
  }

  /** The newest of the first `i + 1` candle times. */
  function Newest(times: seq<Time>, i: nat): Time
    requires i < |times|
  {
    if i == 0 then times[0] else Max(Newest(times, i - 1), times[i])
  }

  lemma {:induction false} NewestOfAscending(times: seq<Time>, i: nat)
    requires i < |times| && forall a, b :: 0 <= a < b < |times| ==> times[a] <= times[b]
    ensures Newest(times, i) == times[i]
  {
    if i > 0 {
      NewestOfAscending(times, i - 1);
    }
  }

  /** The sweep's series: the cursor never goes back, whatever order the candles come in. */
  method MergeHazards(file: seq<Signature>, times: seq<Time>) returns (series: seq<real>)
    ensures |series| == |times|
    ensures forall i :: 0 <= i < |times| ==> series[i] == HazardAt(file, Newest(times, i))
  {
    hide HazardAt, Merged, Ascending;
    var points := Sort(file, SignatureTime);
    SortIsStable(file, 0, SignatureTime);
    series := [];
    var k, hazard := 0, NO_HAZARD;
    NothingMerged(points);
    for i := 0 to |times|
      invariant |series| == i && Merged(points, if i == 0 then None else Some(Newest(times, i - 1)), k, hazard)
      invariant forall j :: 0 <= j < i ==> series[j] == HazardAt(file, Newest(times, j))
    {
      k, hazard := Advance(points, times[i], if i == 0 then None else Some(Newest(times, i - 1)), k, hazard);
      MergedIsHazard(file, Newest(times, i), k, hazard);
      series := series + [hazard];
    }
  }

  // ---------------------------------------------------------------- when the two agree

  /** What the replay sees at a candle: candles it took no sample at get the sentinel. */
  function ReplayHazard(file: seq<Signature>, times: seq<Time>, i: nat): real
    requires i < |times|
  {
    if Sampled(times[i], times[0], times[|times| - 1]) then HazardAt(file, times[i]) else NO_HAZARD
  }

  function SweepHazard(file: seq<Signature>, times: seq<Time>, i: nat): real
    requires i < |times|
  {
    HazardAt(file, Newest(times, i))
  }

  /** Candles in order see the same hazard in both, whatever is in the file, if and only if a whole number of sampling
      intervals has passed since the first candle. */
  lemma SeriesAgreeIffSampled(times: seq<Time>, i: nat)
    requires i < |times| && forall a, b :: 0 <= a < b < |times| ==> times[a] <= times[b]
    ensures (times[i] - times[0]) % 5000 == 0
            <==> forall file :: ReplayHazard(file, times, i) == SweepHazard(file, times, i)
  {
    NewestOfAscending(times, i);
    assert times[0] <= times[i] <= times[|times| - 1];
    if (times[i] - times[0]) % SAMPLING != 0 {
      var file := [Signature(times[0], 0.0)];
      assert Latest(file[..0], times[i]) == None;
      assert SweepHazard(file, times, i) == 0.0 && ReplayHazard(file, times, i) == NO_HAZARD;
    }
  }
}
