/** The overlap audit: one sweep over sorted entry and exit events finds the peaks and the mean of what
    was open, over all times. */
module OverlapAudit {
  import opened Common

  datatype Trade = Trade(inst: Inst, entry: Time, exit: Time, notional: real)

  /** An entry (+1) or an exit (-1). */
  datatype Event = Event(time: Time, delta: int, inst: Inst, notional: real)

  predicate WellFormed(trades: seq<Trade>) {
    forall k :: 0 <= k < |trades| ==> trades[k].entry <= trades[k].exit && trades[k].notional >= 0.0
  }

  // ---------------------------------------------------------------- what the audit is about

  /** What an open trade weighs: one, its notional, or one if it is in a given instrument. */
  type Weight = (Inst, real) -> real

  const EACH: Weight := (i, n) => 1.0
  const NOTIONAL: Weight := (i, n) => n

  function Within(inst: Inst): Weight {
    (i, n) => if i == inst then 1.0 else 0.0
  }

  /** The weight open at time `t`; a trade is open from its entry up to, not including, its exit. */
  function Load(trades: seq<Trade>, t: Time, w: Weight): real {
    if trades == [] then 0.0
    else
      var last := trades[|trades| - 1];
      Load(trades[..|trades| - 1], t, w) + (if last.entry <= t < last.exit then w(last.inst, last.notional) else 0.0)
  }

  /** `peak` is the largest load over all times, or zero if nothing is ever open. */
  ghost predicate IsPeakLoad(trades: seq<Trade>, w: Weight, peak: real) {
    && (forall t :: Load(trades, t, w) <= peak)
    && (peak == 0.0 || exists t :: Load(trades, t, w) == peak)
  }

  function TotalHeld(trades: seq<Trade>): int {
    if trades == [] then 0
    else TotalHeld(trades[..|trades| - 1]) + (trades[|trades| - 1].exit - trades[|trades| - 1].entry)
  }

  // ---------------------------------------------------------------- events and their order

  function EventsOf(trades: seq<Trade>): seq<Event> {
    if trades == [] then []
    else
      var last := trades[|trades| - 1];
      EventsOf(trades[..|trades| - 1])
      + [Event(last.entry, 1, last.inst, last.notional), Event(last.exit, -1, last.inst, last.notional)]
  }

  /** By time; at one time exits before entries. */
  predicate Before(a: Event, b: Event) {
    a.time < b.time || (a.time == b.time && a.delta <= b.delta)
  }

  predicate Sorted(es: seq<Event>) {
    forall i, j :: 0 <= i < j < |es| ==> Before(es[i], es[j])
  }

  function Insert(es: seq<Event>, e: Event): seq<Event> {
    if es == [] || Before(es[|es| - 1], e) then es + [e] else Insert(es[..|es| - 1], e) + [es[|es| - 1]]
  }

  function SortEvents(es: seq<Event>): seq<Event> {
    if es == [] then [] else Insert(SortEvents(es[..|es| - 1]), es[|es| - 1])
  }

  lemma {:induction false} InsertSorts(es: seq<Event>, e: Event)
    requires Sorted(es)
    ensures Sorted(Insert(es, e)) && |Insert(es, e)| == |es| + 1
    ensures Insert(es, e)[|es|] == if es != [] && !Before(es[|es| - 1], e) then es[|es| - 1] else e
  {
    if es != [] && !Before(es[|es| - 1], e) {
      InsertSorts(es[..|es| - 1], e);
    }
  }

  lemma {:induction false} SortSorts(es: seq<Event>)
    ensures Sorted(SortEvents(es))
  {
    if es != [] {
      SortSorts(es[..|es| - 1]);
      InsertSorts(SortEvents(es[..|es| - 1]), es[|es| - 1]);
    }
  }

  predicate UnitDeltas(es: seq<Event>) {
    forall k :: 0 <= k < |es| ==> (es[k].delta == 1 || es[k].delta == -1) && es[k].notional >= 0.0
  }

  lemma {:induction false} InsertKeepsUnits(es: seq<Event>, e: Event)
    requires UnitDeltas(es) && UnitDeltas([e])
    ensures UnitDeltas(Insert(es, e))
  {
    assert [e][0] == e;
    if es != [] && !Before(es[|es| - 1], e) {
      InsertKeepsUnits(es[..|es| - 1], e);
    }
  }

  lemma {:induction false} SortKeepsUnits(es: seq<Event>)
    requires UnitDeltas(es)
    ensures UnitDeltas(SortEvents(es))
  {
    if es != [] {
      SortKeepsUnits(es[..|es| - 1]);
      InsertKeepsUnits(SortEvents(es[..|es| - 1]), es[|es| - 1]);
    }
  }

  lemma {:induction false} EventsAreUnits(trades: seq<Trade>)
    requires WellFormed(trades)
    ensures UnitDeltas(EventsOf(trades))
  {
    if trades != [] {
      EventsAreUnits(trades[..|trades| - 1]);
    }
  }

  // ---------------------------------------------------------------- levels

  function Signed(e: Event, w: Weight): real {
    if e.delta > 0 then w(e.inst, e.notional) else -w(e.inst, e.notional)
  }

  /** The running total after some events. */
  function Level(es: seq<Event>, w: Weight): real {
    if es == [] then 0.0 else Level(es[..|es| - 1], w) + Signed(es[|es| - 1], w)
  }

  /** The total of the events up to a time, in whatever order they are listed. */
  function LevelAt(es: seq<Event>, t: Time, w: Weight): real {
    if es == [] then 0.0
    else LevelAt(es[..|es| - 1], t, w) + (if es[|es| - 1].time <= t then Signed(es[|es| - 1], w) else 0.0)
  }

  lemma LevelAtAppend(es: seq<Event>, e: Event, t: Time, w: Weight)
    ensures LevelAt(es + [e], t, w) == LevelAt(es, t, w) + (if e.time <= t then Signed(e, w) else 0.0)
  {
    assert (es + [e])[..|es|] == es;
  }

  lemma {:induction false} LevelAtInsert(es: seq<Event>, e: Event, t: Time, w: Weight)
    ensures LevelAt(Insert(es, e), t, w) == LevelAt(es + [e], t, w)
  {
    LevelAtAppend(es, e, t, w);
    if es != [] && !Before(es[|es| - 1], e) {
      var n := |es| - 1;
      LevelAtInsert(es[..n], e, t, w);
      LevelAtAppend(es[..n], e, t, w);
      LevelAtAppend(Insert(es[..n], e), es[n], t, w);
    }
  }

  lemma {:induction false} LevelAtSort(es: seq<Event>, t: Time, w: Weight)
    ensures LevelAt(SortEvents(es), t, w) == LevelAt(es, t, w)
  {
    if es != [] {
      var n := |es| - 1;
      LevelAtSort(es[..n], t, w);
      LevelAtInsert(SortEvents(es[..n]), es[n], t, w);
      LevelAtAppend(SortEvents(es[..n]), es[n], t, w);
    }
  }

  /** The events up to `t` add up to what is open at `t`. */
  lemma {:induction false} LevelAtIsLoad(trades: seq<Trade>, t: Time, w: Weight)
    requires WellFormed(trades)
    ensures LevelAt(EventsOf(trades), t, w) == Load(trades, t, w)
  {
    if trades != [] {
      var n := |trades| - 1;
      var last := trades[n];
      LevelAtIsLoad(trades[..n], t, w);
      var entry, exit := Event(last.entry, 1, last.inst, last.notional), Event(last.exit, -1, last.inst, last.notional);
      LevelAtAppend(EventsOf(trades[..n]), entry, t, w);
      LevelAtAppend(EventsOf(trades[..n]) + [entry], exit, t, w);
      assert EventsOf(trades) == EventsOf(trades[..n]) + [entry] + [exit];
    }
  }

  /** The sorted events of `trades`. */
  function Timeline(trades: seq<Trade>): seq<Event> {
    SortEvents(EventsOf(trades))
  }

  lemma TimelineFacts(trades: seq<Trade>)
    requires WellFormed(trades)
    ensures Sorted(Timeline(trades)) && UnitDeltas(Timeline(trades))
  {
    SortSorts(EventsOf(trades));
    EventsAreUnits(trades);
    SortKeepsUnits(EventsOf(trades));
  }

  lemma TimelineLoad(trades: seq<Trade>, t: Time, w: Weight)
    requires WellFormed(trades)
    ensures LevelAt(Timeline(trades), t, w) == Load(trades, t, w)
  {
    LevelAtSort(EventsOf(trades), t, w);
    LevelAtIsLoad(trades, t, w);
  }

  // ---------------------------------------------------------------- from running totals to loads

  ghost predicate NonNegative(w: Weight) {
    forall i, n :: n >= 0.0 ==> w(i, n) >= 0.0
  }

  /** Once every event up to `t` is in and no later one is, the running total is the load at `t`. */
  lemma {:induction false} LevelSettles(es: seq<Event>, n: nat, t: Time, w: Weight)
    requires n <= |es|
    requires forall k :: 0 <= k < n ==> es[k].time <= t
    requires forall k :: n <= k < |es| ==> t < es[k].time
    ensures Level(es[..n], w) == LevelAt(es, t, w)
  {
    if |es| > n {
      LevelSettles(es[..|es| - 1], n, t, w);
      assert es[..|es| - 1][..n] == es[..n];
    } else if n > 0 {
      LevelSettles(es[..n - 1], n - 1, t, w);
      assert es[..n] == es && es[..n - 1][..n - 1] == es[..n - 1];
    } else {
      assert es == [];
    }
  }

  /** Right after an entry the running total is at most the load of that moment: only entries are still to come. */
  lemma {:induction false} EntryBelowLoad(es: seq<Event>, n: nat, t: Time, w: Weight)
    requires n <= |es| && NonNegative(w) && UnitDeltas(es)
    requires forall k :: 0 <= k < n ==> es[k].time <= t
    requires forall k :: n <= k < |es| && es[k].time <= t ==> es[k].delta == 1
    ensures Level(es[..n], w) <= LevelAt(es, t, w)
    decreases |es|
  {
    if |es| > n {
      EntryBelowLoad(es[..|es| - 1], n, t, w);
      assert es[..|es| - 1][..n] == es[..n];
    } else {
      LevelSettles(es, n, t, w);
    }
  }

  /** What the running maximum knows after `n` events. */
  ghost predicate RunningPeak(trades: seq<Trade>, w: Weight, n: nat, peak: real)
    requires n <= |Timeline(trades)|
  {
    && (forall j :: 0 <= j <= n ==> Level(Timeline(trades)[..j], w) <= peak)
    && (peak == 0.0 || exists t :: peak <= Load(trades, t, w))
  }

  /** One more event: after an exit nothing needs doing, after an entry the new total is a candidate. */
  lemma PeakAdvances(trades: seq<Trade>, w: Weight, n: nat, peak: real, next: real)
    requires WellFormed(trades) && NonNegative(w) && n < |Timeline(trades)|
    requires RunningPeak(trades, w, n, peak)
    requires next == MaxR(peak, Level(Timeline(trades)[..n + 1], w))
    ensures RunningPeak(trades, w, n + 1, next)
  {
    var es := Timeline(trades);
    TimelineFacts(trades);
    var level := Level(es[..n + 1], w);
    assert es[..n + 1][..n] == es[..n];
    assert level == Level(es[..n], w) + Signed(es[n], w);
    if es[n].delta == 1 {
      forall k | n + 1 <= k < |es| && es[k].time <= es[n].time
        ensures es[k].delta == 1
      {
        assert Before(es[n], es[k]);
      }
      forall k | 0 <= k < n + 1
        ensures es[k].time <= es[n].time
      {
        assert k < n ==> Before(es[k], es[n]);
      }
      EntryBelowLoad(es, n + 1, es[n].time, w);
      TimelineLoad(trades, es[n].time, w);
    } else {
      assert Level(es[..n], w) <= peak;
    }
  }

  /** How many of the sorted events are at or before `t`. */
  function EventsUpTo(es: seq<Event>, t: Time): (n: nat)
    ensures n <= |es|
    ensures n < |es| ==> t < es[n].time
    ensures forall k :: 0 <= k < n ==> es[k].time <= t
  {
    if es == [] || es[0].time > t then 0
    else
      var rest := EventsUpTo(es[1..], t);
      assert forall k :: 1 <= k < rest + 1 ==> es[k] == es[1..][k - 1];
      1 + rest
  }

  lemma PeakIsReached(trades: seq<Trade>, w: Weight, peak: real)
    requires WellFormed(trades)
    requires RunningPeak(trades, w, |Timeline(trades)|, peak)
    ensures IsPeakLoad(trades, w, peak)
  {
    var es := Timeline(trades);
    TimelineFacts(trades);
    forall t
      ensures Load(trades, t, w) <= peak
    {
      var n := EventsUpTo(es, t);
      forall k | n <= k < |es|
        ensures t < es[k].time
      {
        assert n < k ==> Before(es[n], es[k]);
      }
      LevelSettles(es, n, t, w);
      TimelineLoad(trades, t, w);
    }
    if peak != 0.0 {
      var t :| peak <= Load(trades, t, w);
      assert Load(trades, t, w) == peak;
    }
  }

  // ---------------------------------------------------------------- area

  function Net(es: seq<Event>): int {
    if es == [] then 0 else Net(es[..|es| - 1]) + es[|es| - 1].delta
  }

  /** The area under the running count from each event to `t`. */
  function Area(es: seq<Event>, t: Time): int {
    if es == [] then 0
    else
      var last := es[|es| - 1];
      Area(es[..|es| - 1], t) + (if last.delta > 0 then 1 else -1) * (t - last.time)
  }

  lemma AreaAppend(es: seq<Event>, e: Event, t: Time)
    ensures Area(es + [e], t) == Area(es, t) + (if e.delta > 0 then 1 else -1) * (t - e.time)
  {
    assert (es + [e])[..|es|] == es;
  }

  lemma {:induction false} AreaInsert(es: seq<Event>, e: Event, t: Time)
    ensures Area(Insert(es, e), t) == Area(es + [e], t)
  {
    hide Area, Before;
    assert es != [] ==> es[..|es| - 1] + [es[|es| - 1]] == es;
    AreaAppend(es, e, t);
    if es != [] && !Before(es[|es| - 1], e) {
      var n := |es| - 1;
      AreaInsert(es[..n], e, t);
      AreaAppend(es[..n], e, t);
      AreaAppend(es[..n], es[n], t);
      AreaAppend(Insert(es[..n], e), es[n], t);
    }
  }

  lemma {:induction false} AreaSort(es: seq<Event>, t: Time)
    ensures Area(SortEvents(es), t) == Area(es, t)
  {
    if es != [] {
      var n := |es| - 1;
      AreaSort(es[..n], t);
      AreaInsert(SortEvents(es[..n]), es[n], t);
      AreaAppend(SortEvents(es[..n]), es[n], t);
    }
  }

  lemma {:induction false} AreaOfTrades(trades: seq<Trade>, t: Time)
    ensures Area(EventsOf(trades), t) == TotalHeld(trades)
  {
    if trades != [] {
      var n := |trades| - 1;
      var last := trades[n];
      AreaOfTrades(trades[..n], t);
      var entry, exit := Event(last.entry, 1, last.inst, last.notional), Event(last.exit, -1, last.inst, last.notional);
      AreaAppend(EventsOf(trades[..n]), entry, t);
      AreaAppend(EventsOf(trades[..n]) + [entry], exit, t);
      assert EventsOf(trades) == EventsOf(trades[..n]) + [entry] + [exit];
    }
  }

  /** Moving the right edge by `d` adds the running count `d` times. */
  lemma {:induction false} AreaMoves(es: seq<Event>, t: Time, d: int)
    requires UnitDeltas(es)
    ensures Area(es, t + d) == Area(es, t) + Net(es) * d
  {
    if es != [] {
      var n := |es| - 1;
      AreaMoves(es[..n], t, d);
      assert (Net(es[..n]) + es[n].delta) * d == Net(es[..n]) * d + es[n].delta * d;
    }
  }

  lemma {:induction false} NetIsLevel(es: seq<Event>)
    requires UnitDeltas(es)
    ensures Net(es) as real == Level(es, EACH)
  {
    if es != [] {
      NetIsLevel(es[..|es| - 1]);
    }
  }

  // ---------------------------------------------------------------- the sweep

  datatype WindowAudit = WindowAudit(
    totalTrades: nat,
    maxConcurrent: int,
    peakNotional: real,
    weightedSum: int,
    totalDuration: int,
    flatDuration: int,
    peakAt: Option<Time>,
    maxByInstrument: map<Inst, int>)

  function Lookup(m: map<Inst, int>, inst: Inst): int {
    if inst in m then m[inst] else 0
  }

  method Audit(trades: seq<Trade>) returns (r: WindowAudit)
    requires WellFormed(trades)
    ensures r.totalTrades == |trades|
    ensures IsPeakLoad(trades, EACH, r.maxConcurrent as real)
    ensures IsPeakLoad(trades, NOTIONAL, r.peakNotional) && IsFirstMoment(trades, r.peakNotional, r.peakAt)
    ensures forall inst :: IsPeakLoad(trades, Within(inst), Lookup(r.maxByInstrument, inst) as real)
    ensures var es := Timeline(trades);
            r.flatDuration == if es == [] then 0 else |FlatTimes(trades, es[0].time, es[|es| - 1].time)|
    ensures r.weightedSum == TotalHeld(trades)
    ensures var es := Timeline(trades); r.totalDuration == if es == [] then 0 else es[|es| - 1].time - es[0].time
  {
    var es := Timeline(trades);
    TimelineFacts(trades);
    var maxConcurrent, peakNotional, peakAt, byInstrument := SweepPeaks(trades, es);
    var weighted, total, flat := SweepDurations(trades, es);
    if es == [] {
      AreaOfTrades(trades, 0);
      AreaSort(EventsOf(trades), 0);
    } else {
      AreaOfTrades(trades, es[|es| - 1].time);
      AreaSort(EventsOf(trades), es[|es| - 1].time);
    }
    r := WindowAudit(|trades|, maxConcurrent, peakNotional, weighted, total, flat, peakAt, byInstrument);
  }

  /** The durations half of the loop body. */
  method SweepDurations(ghost trades: seq<Trade>, es: seq<Event>) returns (weighted: int, total: int, flat: int)
    requires WellFormed(trades) && es == Timeline(trades)
    ensures weighted == if es == [] then 0 else Area(es, es[|es| - 1].time)
    ensures total == if es == [] then 0 else es[|es| - 1].time - es[0].time
    ensures flat == if es == [] then 0 else |FlatTimes(trades, es[0].time, es[|es| - 1].time)|
  {
    hide Timeline, FlatTimes, Area, WellFormed, Before;
    TimelineFacts(trades);
    weighted, total, flat := 0, 0, 0;
    var concurrent := 0;
    for n := 0 to |es|
      invariant concurrent == Net(es[..n])
      invariant n > 0 ==> weighted == Area(es[..n], es[n - 1].time) && total == es[n - 1].time - es[0].time
      invariant n > 0 ==> flat == |FlatTimes(trades, es[0].time, es[n - 1].time)|
      invariant n == 0 ==> weighted == total == flat == 0
    {
      SweepStep(es, n);
      if n > 0 {
        var duration := es[n].time - es[n - 1].time;
        weighted := weighted + concurrent * duration;
        total := total + duration;
        FlatTimesGrow(trades, n);
        if concurrent == 0 {
          flat := flat + duration;
        }
      } else {
        NoFlatTimes(trades, es[0].time);
      }
      concurrent := concurrent + es[n].delta;
    }
    assert es[..|es|] == es;
  }

  lemma SweepStep(es: seq<Event>, n: nat)
    requires n < |es| && UnitDeltas(es)
    ensures Net(es[..n + 1]) == Net(es[..n]) + es[n].delta
    ensures n > 0 ==> Area(es[..n + 1], es[n].time)
                      == Area(es[..n], es[n - 1].time) + Net(es[..n]) * (es[n].time - es[n - 1].time)
    ensures n == 0 ==> Net(es[..n]) == 0 && Area(es[..n + 1], es[n].time) == 0
  {
    assert es[..n + 1] == es[..n] + [es[n]] && es[..n + 1][..n] == es[..n];
    AreaAppend(es[..n], es[n], es[n].time);
    if n > 0 {
      AreaMoves(es[..n], es[n - 1].time, es[n].time - es[n - 1].time);
    }
  }

  // ---------------------------------------------------------------- time with nothing open

  /** The moments from `from` up to `to` at which nothing is open. */
  function FlatTimes(trades: seq<Trade>, from: Time, to: Time): set<Time> {
    set t: Time | from <= t < to && Load(trades, t, EACH) == 0.0
  }

  lemma NoFlatTimes(trades: seq<Trade>, t: Time)
    ensures FlatTimes(trades, t, t) == {}
  {
  }

  /** All moments of a stretch are flat. */
  lemma {:induction false} AllFlat(trades: seq<Trade>, from: Time, n: nat)
    requires forall t :: from <= t < from + n ==> Load(trades, t, EACH) == 0.0
    ensures |FlatTimes(trades, from, from + n)| == n
  {
    hide Load;
    if n > 0 {
      AllFlat(trades, from, n - 1);
      assert FlatTimes(trades, from, from + n) == FlatTimes(trades, from, from + n - 1) + {from + n - 1};
    } else {
      assert FlatTimes(trades, from, from) == {};
    }
  }

  /** Between two neighbouring events the running count is the load. */
  lemma LoadBetween(trades: seq<Trade>, n: nat, t: Time)
    requires WellFormed(trades) && 0 < n < |Timeline(trades)|
    requires Timeline(trades)[n - 1].time <= t < Timeline(trades)[n].time
    ensures Load(trades, t, EACH) == Net(Timeline(trades)[..n]) as real
  {
    hide Timeline, WellFormed;
    var es := Timeline(trades);
    TimelineFacts(trades);
    forall k | 0 <= k < |es|
      ensures k < n ==> es[k].time <= t
      ensures n <= k ==> t < es[k].time
    {
      assert k < n - 1 ==> Before(es[k], es[n - 1]);
      assert n < k ==> Before(es[n], es[k]);
    }
    LevelSettles(es, n, t, EACH);
    TimelineLoad(trades, t, EACH);
    NetIsLevel(es[..n]);
  }

  /** The moments between two events are all flat or none is. */
  lemma FlatTimesGrow(trades: seq<Trade>, n: nat)
    requires WellFormed(trades) && 0 < n < |Timeline(trades)|
    ensures var es := Timeline(trades);
            var gap := if Net(es[..n]) == 0 then es[n].time - es[n - 1].time else 0;
            |FlatTimes(trades, es[0].time, es[n].time)| == |FlatTimes(trades, es[0].time, es[n - 1].time)| + gap
  {
    hide Timeline, WellFormed, Net, Load;
    var es := Timeline(trades);
    TimelineFacts(trades);
    var first, last, next := es[0].time, es[n - 1].time, es[n].time;
    assert first <= last <= next by {
      assert n > 1 ==> Before(es[0], es[n - 1]);
      assert Before(es[n - 1], es[n]);
    }
    var between := FlatTimes(trades, last, next);
    assert FlatTimes(trades, first, next) == FlatTimes(trades, first, last) + between;
    forall t | last <= t < next
      ensures Load(trades, t, EACH) == Net(es[..n]) as real
    {
      LoadBetween(trades, n, t);
    }
    if Net(es[..n]) == 0 {
      AllFlat(trades, last, next - last);
    } else {
      assert between == {};
    }
  }

  // ---------------------------------------------------------------- the moment of the peak

  /** The first moment at which the notional peak is reached, if there is a peak at all. */
  ghost predicate IsFirstMoment(trades: seq<Trade>, peak: real, at: Option<Time>) {
    match at
    case None => peak == 0.0
    case Some(ts) => Load(trades, ts, NOTIONAL) == peak && forall t :: t < ts ==> Load(trades, t, NOTIONAL) < peak
  }

  /** The running notional first reaches `peak` with event `m`. */
  ghost predicate FirstReachedWith(es: seq<Event>, peak: real, m: nat) {
    m < |es| && Level(es[..m + 1], NOTIONAL) == peak && forall j :: 0 <= j <= m ==> Level(es[..j], NOTIONAL) < peak
  }

  lemma PeakMoment(trades: seq<Trade>, peak: real, m: nat)
    requires WellFormed(trades) && FirstReachedWith(Timeline(trades), peak, m) && IsPeakLoad(trades, NOTIONAL, peak)
    ensures IsFirstMoment(trades, peak, Some(Timeline(trades)[m].time))
  {
    hide Timeline, WellFormed;
    var es := Timeline(trades);
    var ts := es[m].time;
    TimelineFacts(trades);
    assert es[..m + 1][..m] == es[..m];
    assert Level(es[..m + 1], NOTIONAL) == Level(es[..m], NOTIONAL) + Signed(es[m], NOTIONAL);
    assert es[m].delta == 1;
    forall k | 0 <= k < |es|
      ensures k < m + 1 ==> es[k].time <= ts
      ensures m + 1 <= k && es[k].time <= ts ==> es[k].delta == 1
    {
      assert k < m ==> Before(es[k], es[m]);
      assert m < k ==> Before(es[m], es[k]);
    }
    EntryBelowLoad(es, m + 1, ts, NOTIONAL);
    TimelineLoad(trades, ts, NOTIONAL);
    forall t | t < ts
      ensures Load(trades, t, NOTIONAL) < peak
    {
      EarlierIsLower(trades, peak, m, t);
    }
  }

  lemma EarlierIsLower(trades: seq<Trade>, peak: real, m: nat, t: Time)
    requires WellFormed(trades) && FirstReachedWith(Timeline(trades), peak, m) && t < Timeline(trades)[m].time
    ensures Load(trades, t, NOTIONAL) < peak
  {
    hide Timeline, WellFormed, Level;
    var es := Timeline(trades);
    TimelineFacts(trades);
    var n := EventsUpTo(es, t);
    assert n <= m;
    forall k | n <= k < |es|
      ensures t < es[k].time
    {
      assert n < k ==> Before(es[n], es[k]);
    }
    LevelSettles(es, n, t, NOTIONAL);
    TimelineLoad(trades, t, NOTIONAL);
  }

  // ---------------------------------------------------------------- the peaks

  /** The peaks half of the loop body. */
  method SweepPeaks(ghost trades: seq<Trade>, es: seq<Event>)
    returns (maxConcurrent: int, peakNotional: real, peakAt: Option<Time>, maxByInstrument: map<Inst, int>)
    requires WellFormed(trades) && es == Timeline(trades)
    ensures IsPeakLoad(trades, EACH, maxConcurrent as real)
    ensures IsPeakLoad(trades, NOTIONAL, peakNotional) && IsFirstMoment(trades, peakNotional, peakAt)
    ensures forall inst :: IsPeakLoad(trades, Within(inst), Lookup(maxByInstrument, inst) as real)
  {
    hide IsPeakLoad, Timeline, RunningPeak, InstrumentPeaks, WellFormed, IsFirstMoment, Sorted, FirstReachedWith,
         Level, UnitDeltas;
    TimelineFacts(trades);
    var concurrent, notional := 0, 0.0;
    var byInstrument: map<Inst, int> := map[];
    maxConcurrent, peakNotional, peakAt, maxByInstrument := 0, 0.0, None, map[];
    NothingRuns(trades);
    ghost var m: nat := 0;
    for n := 0 to |es|
      invariant concurrent as real == Level(es[..n], EACH) && notional == Level(es[..n], NOTIONAL)
      invariant RunningPeak(trades, EACH, n, maxConcurrent as real)
      invariant RunningPeak(trades, NOTIONAL, n, peakNotional)
      invariant InstrumentPeaks(trades, n, byInstrument, maxByInstrument)
      invariant peakAt.None? ==> peakNotional == 0.0
      invariant peakAt.Some? ==> m < n && peakAt == Some(es[m].time) && FirstReachedWith(es, peakNotional, m)
    {
      var e := es[n];
      LevelSteps(es, n);
      InstrumentPeaksAdvance(trades, n, byInstrument, maxByInstrument);
      concurrent := concurrent + e.delta;
      notional := notional + (if e.delta > 0 then e.notional else -e.notional);
      byInstrument := byInstrument[e.inst := Lookup(byInstrument, e.inst) + e.delta];
      PeakAdvances(trades, EACH, n, maxConcurrent as real, MaxR(maxConcurrent as real, concurrent as real));
      maxConcurrent := Max(maxConcurrent, concurrent);
      PeakAdvances(trades, NOTIONAL, n, peakNotional, MaxR(peakNotional, notional));
      if notional > peakNotional {
        NewPeakWith(trades, n, peakNotional, notional);
        peakNotional, peakAt, m := notional, Some(e.time), n;
      }
      maxByInstrument := maxByInstrument[e.inst := Max(Lookup(maxByInstrument, e.inst), byInstrument[e.inst])];
    }
    assert es[..|es|] == es;
    PeakIsReached(trades, EACH, maxConcurrent as real);
    PeakIsReached(trades, NOTIONAL, peakNotional);
    if peakAt.Some? {
      PeakMoment(trades, peakNotional, m);
    } else {
      NoMoment(trades, peakNotional);
    }
    InstrumentPeaksAreReached(trades, byInstrument, maxByInstrument);
  }

  lemma NothingRuns(trades: seq<Trade>)
    ensures RunningPeak(trades, EACH, 0, 0.0) && RunningPeak(trades, NOTIONAL, 0, 0.0)
            && InstrumentPeaks(trades, 0, map[], map[])
    ensures Level([], EACH) == 0.0 == Level([], NOTIONAL)
  {
  }

  lemma LevelSteps(es: seq<Event>, n: nat)
    requires n < |es| && UnitDeltas(es)
    ensures Level(es[..n + 1], EACH) == Level(es[..n], EACH) + es[n].delta as real
    ensures Level(es[..n + 1], NOTIONAL)
            == Level(es[..n], NOTIONAL) + (if es[n].delta > 0 then es[n].notional else -es[n].notional)
  {
    assert es[..n + 1][..n] == es[..n];
  }

  lemma NewPeakWith(trades: seq<Trade>, n: nat, peak: real, next: real)
    requires n < |Timeline(trades)| && RunningPeak(trades, NOTIONAL, n, peak)
    requires next == Level(Timeline(trades)[..n + 1], NOTIONAL) && peak < next
    ensures FirstReachedWith(Timeline(trades), next, n)
  {
    hide Timeline, Level;
  }

  lemma NoMoment(trades: seq<Trade>, peak: real)
    requires peak == 0.0
    ensures IsFirstMoment(trades, peak, None)
  {
  }

  lemma InstrumentPeaksAreReached(trades: seq<Trade>, counts: map<Inst, int>, peaks: map<Inst, int>)
    requires WellFormed(trades) && InstrumentPeaks(trades, |Timeline(trades)|, counts, peaks)
    ensures forall inst :: IsPeakLoad(trades, Within(inst), Lookup(peaks, inst) as real)
  {
    hide IsPeakLoad, Timeline, RunningPeak;
    forall inst
      ensures IsPeakLoad(trades, Within(inst), Lookup(peaks, inst) as real)
    {
      PeakIsReached(trades, Within(inst), Lookup(peaks, inst) as real);
    }
  }

  /** The per-instrument counters and peaks after `n` events. */
  ghost predicate InstrumentPeaks(trades: seq<Trade>, n: nat, counts: map<Inst, int>, peaks: map<Inst, int>)
    requires n <= |Timeline(trades)|
  {
    forall inst :: Lookup(counts, inst) as real == Level(Timeline(trades)[..n], Within(inst))
                   && RunningPeak(trades, Within(inst), n, Lookup(peaks, inst) as real)
  }

  lemma InstrumentPeaksAdvance(trades: seq<Trade>, n: nat, counts: map<Inst, int>, peaks: map<Inst, int>)
    requires WellFormed(trades) && n < |Timeline(trades)| && InstrumentPeaks(trades, n, counts, peaks)
    ensures var e := Timeline(trades)[n];
            var counts' := counts[e.inst := Lookup(counts, e.inst) + e.delta];
            InstrumentPeaks(trades, n + 1, counts', peaks[e.inst := Max(Lookup(peaks, e.inst), counts'[e.inst])])
  {
    hide Timeline;
    var es, e := Timeline(trades), Timeline(trades)[n];
    TimelineFacts(trades);
    assert es[..n + 1][..n] == es[..n];
    var counts' := counts[e.inst := Lookup(counts, e.inst) + e.delta];
    var peaks' := peaks[e.inst := Max(Lookup(peaks, e.inst), counts'[e.inst])];
    forall inst
      ensures Lookup(counts', inst) as real == Level(es[..n + 1], Within(inst))
      ensures RunningPeak(trades, Within(inst), n + 1, Lookup(peaks', inst) as real)
    {
      assert RunningPeak(trades, Within(inst), n, Lookup(peaks, inst) as real);
      var level := Level(es[..n + 1], Within(inst));
      assert level == Level(es[..n], Within(inst)) + Signed(e, Within(inst));
      assert Level(es[..n], Within(inst)) <= Lookup(peaks, inst) as real;
      PeakAdvances(trades, Within(inst), n, Lookup(peaks, inst) as real, MaxR(Lookup(peaks, inst) as real, level));
    }
  }
}
