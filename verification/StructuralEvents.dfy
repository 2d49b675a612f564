/** Bit transitions as structural states: the batch transform, the one-bit-at-a-time processor, and run-length
    aggregation. */
module StructuralEvents {
  import opened Common

  type Byte = b: nat | b < 256

  datatype State = NullState | Oscillation | RegimeShift

  datatype Event = Event(index: nat, state: State, prev: Byte, curr: Byte)

  predicate IsBit(b: Byte) {
    b == 0 || b == 1
  }

  predicate AllBits(bits: seq<Byte>) {
    forall k :: 0 <= k < |bits| ==> IsBit(bits[k])
  }

  function StateOf(prev: Byte, curr: Byte): State
    requires IsBit(prev) && IsBit(curr)
  {
    if prev != curr then Oscillation else if prev == 1 then RegimeShift else NullState
  }

  /** Event `j` describes the step from bit `j` to bit `j + 1`. */
  predicate Describes(e: Event, bits: seq<Byte>, j: nat) {
    && j + 1 < |bits| && IsBit(bits[j]) && IsBit(bits[j + 1])
    && e == Event(j, StateOf(bits[j], bits[j + 1]), bits[j], bits[j + 1])
  }

  /** One event per neighbouring pair; a single byte that is not a bit discards the whole stream. */
  method TransformRich(bits: seq<Byte>) returns (events: seq<Event>)
    ensures |bits| >= 2 && AllBits(bits) ==> |events| == |bits| - 1
    ensures forall i :: 0 <= i < |events| ==> Describes(events[i], bits, i)
    ensures |bits| < 2 || !AllBits(bits) ==> events == []
  {
    if |bits| < 2 {
      return [];
    }
    var invalid := false;
    events := [];
    for i := 0 to |bits| - 1
      invariant invalid ==> !AllBits(bits)
      invariant !invalid ==> |events| == i && (i > 0 ==> AllBits(bits[..i + 1]))
      invariant forall j :: 0 <= j < |events| ==> Describes(events[j], bits, j)
    {
      var prev, curr := bits[i], bits[i + 1];
      if !IsBit(prev) || !IsBit(curr) {
        invalid := true;
      } else if !invalid {
        var state := NullState;
        if (prev == 0 && curr == 1) || (prev == 1 && curr == 0) {
          state := Oscillation;
        } else if prev == 1 && curr == 1 {
          state := RegimeShift;
        }
        events := events + [Event(i, state, prev, curr)];
      }
    }
    assert bits[..|bits|] == bits;
    if invalid {
      events := [];
    }
  }

  class StructuralProcessor {
    var prevBit: Option<Byte>

    constructor ()
      ensures prevBit == None
    {
      prevBit := None;
    }

    /** A byte that is not a bit is ignored; the first bit only primes the processor. */
    method Process(current: Byte) returns (state: Option<State>)
      requires prevBit.Some? ==> IsBit(prevBit.value)
      modifies this
      ensures prevBit == if IsBit(current) then Some(current) else old(prevBit)
      ensures state == if IsBit(current) && old(prevBit).Some? then Some(StateOf(old(prevBit).value, current)) else None
    {
      if current != 0 && current != 1 {
        return None;
      }
      if prevBit.None? {
        prevBit := Some(current);
        return None;
      }
      var prev := prevBit.value;
      if prev == 0 && current == 0 {
        state := Some(NullState);
      } else if (prev == 0 && current == 1) || (prev == 1 && current == 0) {
        state := Some(Oscillation);
      } else {
        state := Some(RegimeShift);
      }
      prevBit := Some(current);
    }
  }

  /** Feeding a stream of bits one at a time gives the states of the batch transform, in order. */
  method Feed(bits: seq<Byte>) returns (states: seq<State>, events: seq<Event>)
    requires AllBits(bits)
    ensures |states| == |events| && forall i :: 0 <= i < |states| ==> states[i] == events[i].state
    ensures |states| == if bits == [] then 0 else |bits| - 1
  {
    events := TransformRich(bits);
    states := [];
    var processor := new StructuralProcessor();
    for n := 0 to |bits|
      invariant processor.prevBit == if n == 0 then None else Some(bits[n - 1])
      invariant |states| == if n == 0 then 0 else n - 1
      invariant forall i :: 0 <= i < |states| ==> states[i] == StateOf(bits[i], bits[i + 1])
    {
      var state := processor.Process(bits[n]);
      if state.Some? {
        states := states + [state.value];
      }
    }
    forall i | 0 <= i < |states|
      ensures states[i] == events[i].state
    {
      assert Describes(events[i], bits, i);
    }
  }

  // ---------------------------------------------------------------- aggregation

  datatype Run = Run(index: nat, state: State, count: nat)

  function Repeat(state: State, count: nat): (r: seq<State>)
    ensures |r| == count
  {
    seq(count, _ => state)
  }

  function Expand(runs: seq<Run>): seq<State> {
    if runs == [] then [] else Expand(runs[..|runs| - 1]) + Repeat(runs[|runs| - 1].state, runs[|runs| - 1].count)
  }

  function StatesOf(events: seq<Event>): (r: seq<State>)
    ensures |r| == |events|
    ensures forall k :: 0 <= k < |r| ==> r[k] == events[k].state
  {
    seq(|events|, k requires 0 <= k < |events| => events[k].state)
  }

  /** Events numbered from their own position, as the transform numbers them. */
  predicate Numbered(events: seq<Event>) {
    forall k :: 0 <= k < |events| ==> events[k].index == k
  }

  /** Run `k` is not empty, differs from the next, and starts where the ones before it end. */
  predicate ProperRun(runs: seq<Run>, k: nat)
    requires k < |runs|
  {
    && runs[k].count > 0
    && (k + 1 < |runs| ==> runs[k].state != runs[k + 1].state)
    && runs[k].index == |Expand(runs[..k])|
  }

  ghost predicate ProperRuns(runs: seq<Run>) {
    forall k :: 0 <= k < |runs| ==> ProperRun(runs, k)
  }

  method Aggregate(events: seq<Event>) returns (runs: seq<Run>)
    requires Numbered(events)
    ensures ProperRuns(runs) && Expand(runs) == StatesOf(events)
  {
    hide Expand, Repeat, ProperRuns;
    if events == [] {
      NoRuns();
      return [];
    }
    runs := [Run(events[0].index, events[0].state, 1)];
    OneRun(events[0].state);
    assert StatesOf(events)[..1] == [events[0].state];
    for i := 1 to |events|
      invariant ProperRuns(runs) && runs != []
      invariant Expand(runs) == StatesOf(events)[..i]
    {
      var last := |runs| - 1;
      assert StatesOf(events)[..i + 1] == StatesOf(events)[..i] + [events[i].state];
      if events[i].state == runs[last].state {
        GrowLast(runs);
        runs := runs[last := runs[last].(count := runs[last].count + 1)];
      } else {
        AddRun(runs, events[i].state);
        runs := runs + [Run(events[i].index, events[i].state, 1)];
      }
    }
    assert StatesOf(events)[..|events|] == StatesOf(events);
  }

  lemma NoRuns()
    ensures ProperRuns([]) && Expand([]) == []
  {
  }

  lemma OneRun(state: State)
    ensures ProperRuns([Run(0, state, 1)]) && Expand([Run(0, state, 1)]) == [state]
  {
    assert [Run(0, state, 1)][..0] == [];
    assert Repeat(state, 1) == [state];
  }

  lemma GrowLast(runs: seq<Run>)
    requires ProperRuns(runs) && runs != []
    ensures var last := |runs| - 1;
            var next := runs[last := runs[last].(count := runs[last].count + 1)];
            ProperRuns(next) && Expand(next) == Expand(runs) + [runs[last].state]
  {
    hide Expand, Repeat;
    var last := |runs| - 1;
    var next := runs[last := runs[last].(count := runs[last].count + 1)];
    ExpandGrown(runs);
    forall k | 0 <= k < |next|
      ensures ProperRun(next, k)
    {
      assert ProperRun(runs, k) && next[..k] == runs[..k];
    }
  }

  lemma ExpandGrown(runs: seq<Run>)
    requires runs != []
    ensures var last := |runs| - 1;
            Expand(runs[last := runs[last].(count := runs[last].count + 1)]) == Expand(runs) + [runs[last].state]
  {
    var last := |runs| - 1;
    assert runs[last := runs[last].(count := runs[last].count + 1)][..last] == runs[..last];
  }

  lemma ExpandAdded(runs: seq<Run>, index: nat, state: State)
    ensures Expand(runs + [Run(index, state, 1)]) == Expand(runs) + [state]
  {
    assert (runs + [Run(index, state, 1)])[..|runs|] == runs;
    assert Repeat(state, 1) == [state];
  }

  lemma AddRun(runs: seq<Run>, state: State)
    requires ProperRuns(runs) && runs != [] && state != runs[|runs| - 1].state
    ensures var next := runs + [Run(|Expand(runs)|, state, 1)];
            ProperRuns(next) && Expand(next) == Expand(runs) + [state]
  {
    hide Expand, Repeat;
    var n := |runs|;
    var next := runs + [Run(|Expand(runs)|, state, 1)];
    ExpandAdded(runs, |Expand(runs)|, state);
    assert next[..n] == runs;
    forall k | 0 <= k <= n
      ensures ProperRun(next, k)
    {
      assert k < n ==> ProperRun(runs, k) && next[..k] == runs[..k];
    }
  }

  /** The runs are determined by the states: there is only one way to write a stream in proper runs. */
  lemma {:induction false} RunsAreUnique(a: seq<Run>, b: seq<Run>)
    requires ProperRuns(a) && ProperRuns(b) && Expand(a) == Expand(b)
    ensures a == b
    decreases |a|
  {
    hide ProperRuns, Repeat, Expand;
    RunsAreNotEmpty(a);
    RunsAreNotEmpty(b);
    if a != [] && b != [] {
      var m, n := |a| - 1, |b| - 1;
      SameLastRun(a, b);
      LastRunFollows(a);
      LastRunFollows(b);
      ProperPrefix(a);
      ProperPrefix(b);
      RunsAreUnique(a[..m], b[..n]);
      assert a == a[..m] + [a[m]] && b == b[..n] + [b[n]];
    }
  }

  lemma RunsAreNotEmpty(a: seq<Run>)
    requires ProperRuns(a)
    ensures a == [] <==> Expand(a) == []
  {
    assert a != [] ==> ProperRun(a, |a| - 1);
  }

  lemma LastRunFollows(a: seq<Run>)
    requires ProperRuns(a) && a != []
    ensures var m := |a| - 1; a[m].index <= |Expand(a)| && Expand(a)[..a[m].index] == Expand(a[..m])
  {
    assert ProperRun(a, |a| - 1);
  }

  lemma ProperPrefix(a: seq<Run>)
    requires ProperRuns(a) && a != []
    ensures ProperRuns(a[..|a| - 1])
  {
    hide Expand;
    var front := a[..|a| - 1];
    forall k | 0 <= k < |front|
      ensures ProperRun(front, k)
    {
      assert ProperRun(a, k) && front[..k] == a[..k];
    }
  }

  /** The last run begins right after the last change of state. */
  lemma LastRunShape(a: seq<Run>)
    requires ProperRuns(a) && a != []
    ensures var s, last := Expand(a), a[|a| - 1];
            && |s| == last.index + last.count
            && (forall k :: last.index <= k < |s| ==> s[k] == last.state)
            && (last.index > 0 ==> s[last.index - 1] != last.state)
  {
    var m := |a| - 1;
    assert ProperRun(a, m);
    if m > 0 {
      assert ProperRun(a, m - 1);
      assert a[..m][..m - 1] == a[..m - 1];
      assert Expand(a[..m]) == Expand(a[..m - 1]) + Repeat(a[m - 1].state, a[m - 1].count);
      assert a[m - 1].state != a[m].state;
    } else {
      assert a[..0] == [];
    }
  }

  lemma SameLastRun(a: seq<Run>, b: seq<Run>)
    requires ProperRuns(a) && ProperRuns(b) && a != [] && b != [] && Expand(a) == Expand(b)
    ensures a[|a| - 1] == b[|b| - 1]
  {
    hide Expand;
    assert ProperRun(a, |a| - 1) && ProperRun(b, |b| - 1);
    LastRunShape(a);
    LastRunShape(b);
    var s, p, q := Expand(a), a[|a| - 1], b[|b| - 1];
    assert s[|s| - 1] == p.state == q.state;
  }

  // ---------------------------------------------------------------- what states say about bits

  /** A step oscillates if the bits differ, shifts if both are set, and is null if neither is. */
  lemma StatesSay(prev: Byte, curr: Byte)
    requires IsBit(prev) && IsBit(curr)
    ensures StateOf(prev, curr) == Oscillation <==> prev + curr == 1
    ensures StateOf(prev, curr) == RegimeShift <==> prev + curr == 2
    ensures StateOf(prev, curr) == NullState <==> prev + curr == 0
  {
  }

  /** Nothing is lost: a stream of at least two bits is determined by the states of its steps, unless it oscillates
      throughout, when its first bit is needed too. */
  lemma StatesDetermineBits(a: seq<Byte>, b: seq<Byte>)
    requires |a| == |b| >= 2 && AllBits(a) && AllBits(b)
    requires forall i :: 0 <= i < |a| - 1 ==> StateOf(a[i], a[i + 1]) == StateOf(b[i], b[i + 1])
    requires a[0] == b[0] || exists i :: 0 <= i < |a| - 1 && StateOf(a[i], a[i + 1]) != Oscillation
    ensures a == b
  {
    if a[0] != b[0] {
      var i :| 0 <= i < |a| - 1 && StateOf(a[i], a[i + 1]) != Oscillation;
      BitsFollow(a, b, i, 0);
    }
    forall j | 0 <= j < |a|
      ensures a[j] == b[j]
    {
      BitsFollow(a, b, 0, j);
    }
  }

  /** Streams with the same states that share one bit share every other. */
  lemma {:induction false} BitsFollow(a: seq<Byte>, b: seq<Byte>, i: nat, j: nat)
    requires |a| == |b| && AllBits(a) && AllBits(b) && i < |a| && j < |a| && a[i] == b[i]
    requires forall k :: 0 <= k < |a| - 1 ==> StateOf(a[k], a[k + 1]) == StateOf(b[k], b[k + 1])
    ensures a[j] == b[j]
    decreases if i < j then j - i else i - j
  {
    if i < j {
      BitsFollow(a, b, i, j - 1);
    } else if j < i {
      BitsFollow(a, b, i, j + 1);
    }
  }
}
