/** Counting how often a window's signature has been seen lately: a deque per signature, pruned from the
    front only when that signature comes up, against counting by hand. */
module Repetition {
  import opened Common

  // ---------------------------------------------------------------- counting by hand

  /** The windows up to `i`, `i` included, with the signature of `i` and a stamp of at least `since`. */
  ghost function Occurrences(sigs: seq<string>, stamps: seq<int>, i: nat, since: int): set<nat>
    requires i < |sigs| == |stamps|
  {
    set j: nat | 0 <= j <= i && sigs[j] == sigs[i] && stamps[j] >= since
  }

  // ---------------------------------------------------------------- what a deque holds

  /** The stamps, from `since` on, of the first `n` windows with signature `s`. */
  function Recent(sigs: seq<string>, stamps: seq<int>, s: string, n: nat, since: int): seq<int>
    requires n <= |sigs| == |stamps|
  {
    if n == 0 then []
    else
      Recent(sigs, stamps, s, n - 1, since)
      + (if sigs[n - 1] == s && stamps[n - 1] >= since then [stamps[n - 1]] else [])
  }

  predicate Nondecreasing(stamps: seq<int>) {
    forall i, j :: 0 <= i < j < |stamps| ==> stamps[i] <= stamps[j]
  }

  /** How many of the first `n` windows that is. */
  lemma {:induction false} RecentCounts(sigs: seq<string>, stamps: seq<int>, s: string, n: nat, since: int)
    requires n <= |sigs| == |stamps|
    ensures |Recent(sigs, stamps, s, n, since)| == |set j: nat | 0 <= j < n && sigs[j] == s && stamps[j] >= since|
  {
    var all := set j: nat | 0 <= j < n && sigs[j] == s && stamps[j] >= since;
    if n == 0 {
      assert all == {};
    } else {
      RecentCounts(sigs, stamps, s, n - 1, since);
      var fewer := set j: nat | 0 <= j < n - 1 && sigs[j] == s && stamps[j] >= since;
      if sigs[n - 1] == s && stamps[n - 1] >= since {
        assert all == fewer + {n - 1};
      } else {
        assert all == fewer;
      }
    }
  }

  /** The stamps in a deque are in order, at least `since`, and stamps of earlier windows. */
  lemma {:induction false} RecentInOrder(sigs: seq<string>, stamps: seq<int>, s: string, n: nat, since: int)
    requires n <= |sigs| == |stamps| && Nondecreasing(stamps)
    ensures Nondecreasing(Recent(sigs, stamps, s, n, since))
    ensures forall k :: 0 <= k < |Recent(sigs, stamps, s, n, since)| ==>
      Recent(sigs, stamps, s, n, since)[k] >= since && n > 0 && Recent(sigs, stamps, s, n, since)[k] <= stamps[n - 1]
  {
    if n > 0 {
      RecentInOrder(sigs, stamps, s, n - 1, since);
    }
  }

  lemma RecentStep(sigs: seq<string>, stamps: seq<int>, s: string, n: nat, since: int)
    requires n <= |sigs| == |stamps|
    ensures n == 0 ==> Recent(sigs, stamps, s, n, since) == []
    ensures n > 0 ==> var g := Recent(sigs, stamps, s, n - 1, since);
                      Recent(sigs, stamps, s, n, since)
                      == if sigs[n - 1] == s && stamps[n - 1] >= since then g + [stamps[n - 1]] else g
  {
  }

  /** Dropping exactly the front entries before `cut` leaves what is recent since `cut`. */
  lemma {:induction false} Prune(sigs: seq<string>, stamps: seq<int>, s: string, n: nat, since: int, cut: int, k: nat)
    requires n <= |sigs| == |stamps| && since <= cut
    requires var h := Recent(sigs, stamps, s, n, since);
             k <= |h| && (forall i :: 0 <= i < k ==> h[i] < cut) && (forall i :: k <= i < |h| ==> h[i] >= cut)
    ensures Recent(sigs, stamps, s, n, since)[k..] == Recent(sigs, stamps, s, n, cut)
  {
    hide Recent;
    RecentStep(sigs, stamps, s, n, since);
    RecentStep(sigs, stamps, s, n, cut);
    if n > 0 {
      var h, g := Recent(sigs, stamps, s, n, since), Recent(sigs, stamps, s, n - 1, since);
      if sigs[n - 1] == s && stamps[n - 1] >= since {
        assert forall i :: 0 <= i < |g| ==> g[i] == h[i];
        if stamps[n - 1] >= cut {
          assert h[|g|] >= cut;
          Prune(sigs, stamps, s, n - 1, since, cut, k);
          assert h[k..] == g[k..] + [stamps[n - 1]];
        } else {
          assert h[|g|] < cut;
          Prune(sigs, stamps, s, n - 1, since, cut, |g|);
        }
      } else {
        Prune(sigs, stamps, s, n - 1, since, cut, k);
      }
    }
  }

  // ---------------------------------------------------------------- the loops

  function DequeOf(history: map<string, seq<int>>, s: string): seq<int> {
    if s in history then history[s] else []
  }

  predicate HoldsSince(history: map<string, seq<int>>, s: string, sigs: seq<string>, stamps: seq<int>, n: nat,
                       since: int)
    requires n <= |sigs| == |stamps|
  {
    DequeOf(history, s) == Recent(sigs, stamps, s, n, since)
  }

  ghost predicate DequeOk(history: map<string, seq<int>>, s: string, sigs: seq<string>, stamps: seq<int>, n: nat,
                          horizon: int)
    requires n <= |sigs| == |stamps|
  {
    exists since :: since <= horizon && HoldsSince(history, s, sigs, stamps, n, since)
  }

  /** Every deque holds what is recent since some point that no later window looks behind. */
  ghost predicate DequesOk(history: map<string, seq<int>>, sigs: seq<string>, stamps: seq<int>, n: nat, horizon: int)
    requires n <= |sigs| == |stamps|
  {
    forall s :: DequeOk(history, s, sigs, stamps, n, horizon)
  }

  lemma NoDeques(sigs: seq<string>, stamps: seq<int>, horizon: int)
    requires |sigs| == |stamps|
    ensures DequesOk(map[], sigs, stamps, 0, horizon)
  {
    forall s
      ensures DequeOk(map[], s, sigs, stamps, 0, horizon)
    {
      assert HoldsSince(map[], s, sigs, stamps, 0, horizon);
    }
  }

  /** Pop from the front while the front is older than `cut`. */
  method PopOlder(deque: seq<int>, cut: int, ghost sigs: seq<string>, ghost stamps: seq<int>, ghost s: string,
                  ghost n: nat, ghost since: int) returns (pruned: seq<int>)
    requires n <= |sigs| == |stamps| && Nondecreasing(stamps) && since <= cut
    requires deque == Recent(sigs, stamps, s, n, since)
    ensures pruned == Recent(sigs, stamps, s, n, cut)
  {
    RecentInOrder(sigs, stamps, s, n, since);
    pruned := deque;
    ghost var k := 0;
    while pruned != [] && pruned[0] < cut
      invariant k <= |deque| && pruned == deque[k..]
      invariant forall i :: 0 <= i < k ==> deque[i] < cut
      decreases |pruned|
    {
      pruned := pruned[1..];
      k := k + 1;
    }
    if pruned != [] {
      assert pruned[0] == deque[k];
    }
    Prune(sigs, stamps, s, n, since, cut, k);
  }

  /** A deque that was in order stays in order as the horizon moves on and another window comes in. */
  lemma DequesAdvance(history: map<string, seq<int>>, next: map<string, seq<int>>, sigs: seq<string>,
                      stamps: seq<int>, n: nat, horizon: int, later: int, cut: int)
    requires n < |sigs| == |stamps| && horizon <= later && cut <= later && cut <= stamps[n]
    requires DequesOk(history, sigs, stamps, n, horizon)
    requires next == history[sigs[n] := Recent(sigs, stamps, sigs[n], n, cut) + [stamps[n]]]
    ensures DequesOk(next, sigs, stamps, n + 1, later)
  {
    var m := n + 1;
    forall s
      ensures DequeOk(next, s, sigs, stamps, m, later)
    {
      if s == sigs[n] {
        assert HoldsSince(next, s, sigs, stamps, m, cut);
      } else {
        assert DequeOk(history, s, sigs, stamps, n, horizon);
        var since :| since <= horizon && HoldsSince(history, s, sigs, stamps, n, since);
        assert HoldsSince(next, s, sigs, stamps, m, since);
      }
    }
  }

  lemma RecentIsOccurrences(sigs: seq<string>, stamps: seq<int>, i: nat, since: int)
    requires i < |sigs| == |stamps|
    ensures |Recent(sigs, stamps, sigs[i], i + 1, since)| == |Occurrences(sigs, stamps, i, since)|
  {
    RecentCounts(sigs, stamps, sigs[i], i + 1, since);
    assert Occurrences(sigs, stamps, i, since)
           == set j: nat | 0 <= j < i + 1 && sigs[j] == sigs[i] && stamps[j] >= since;
  }

  /** The gate deriver: append the window's end, then drop ends older than the retention. */
  method CountByTime(sigs: seq<string>, ends: seq<int>, retention: nat) returns (counts: seq<nat>)
    requires |sigs| == |ends| && Nondecreasing(ends)
    ensures |counts| == |sigs|
    ensures forall i :: 0 <= i < |sigs| ==> counts[i] == |Occurrences(sigs, ends, i, ends[i] - retention)|
  {
    hide DequesOk, Occurrences;
    counts := [];
    var history: map<string, seq<int>> := map[];
    ghost var horizon := if ends == [] then 0 else ends[0] - retention;
    NoDeques(sigs, ends, horizon);
    for n := 0 to |sigs|
      invariant |counts| == n && DequesOk(history, sigs, ends, n, horizon)
      invariant n < |ends| ==> horizon <= ends[n] - retention
      invariant forall i :: 0 <= i < n ==> counts[i] == |Occurrences(sigs, ends, i, ends[i] - retention)|
    {
      var count;
      history, count := ObserveEnd(history, sigs, ends, n, retention, horizon);
      horizon := ends[n] - retention;
      counts := counts + [count];
    }
  }

  /** One window of the gate deriver. */
  method ObserveEnd(history0: map<string, seq<int>>, sigs: seq<string>, ends: seq<int>, n: nat, retention: nat,
                    ghost horizon: int) returns (history: map<string, seq<int>>, count: nat)
    requires n < |sigs| == |ends| && Nondecreasing(ends)
    requires DequesOk(history0, sigs, ends, n, horizon) && horizon <= ends[n] - retention
    ensures DequesOk(history, sigs, ends, n + 1, ends[n] - retention)
    ensures count == |Occurrences(sigs, ends, n, ends[n] - retention)|
  {
    var s, cut := sigs[n], ends[n] - retention;
    assert DequeOk(history0, s, sigs, ends, n, horizon);
    ghost var since :| since <= horizon && HoldsSince(history0, s, sigs, ends, n, since);
    var deque := DequeOf(history0, s) + [ends[n]];
    deque := PopOlder(deque, cut, sigs, ends, s, n + 1, since);
    history := history0[s := deque];
    DequesAdvance(history0, history, sigs, ends, n, horizon, cut, cut);
    RecentIsOccurrences(sigs, ends, n, cut);
    count := |deque|;
  }

  /** Where the analyser puts its windows. */
  method WindowOffsets(bits: nat, windowBits: nat, stepBits: nat, maxWindows: nat) returns (offsets: seq<nat>)
    ensures windowBits == 0 ==> offsets == []
    ensures forall k :: 0 <= k < |offsets| ==> offsets[k] == k * Max(1, stepBits) && offsets[k] + windowBits <= bits
    ensures maxWindows > 0 ==> |offsets| <= maxWindows
    ensures windowBits > 0 && !(maxWindows > 0 && |offsets| == maxWindows) ==>
      bits < |offsets| * Max(1, stepBits) + windowBits
  {
    offsets := [];
    if bits == 0 || windowBits == 0 || bits < windowBits {
      return;
    }
    var step := Max(1, stepBits);
    var start := 0;
    while start + windowBits <= bits
      invariant start == |offsets| * step
      invariant maxWindows > 0 ==> |offsets| <= maxWindows
      invariant forall k :: 0 <= k < |offsets| ==> offsets[k] == k * step && offsets[k] + windowBits <= bits
      decreases bits - start
    {
      if maxWindows > 0 && |offsets| >= maxWindows {
        break;
      }
      offsets := offsets + [start];
      start := start + step;
    }
  }

  function Indices(n: nat): (r: seq<int>)
    ensures |r| == n && forall k :: 0 <= k < n ==> r[k] == k
  {
    seq(n, k => k)
  }

  /** The oldest index still inside the lookback of window `i`; a lookback of zero keeps everything. */
  function LookbackCut(i: nat, lookback: nat): int {
    if lookback > 0 then i - lookback + 1 else 0
  }

  /** The byte-stream analyser: drop indices outside the lookback, then append; tally the counts in a histogram. */
  method CountByIndex(sigs: seq<string>, lookback: nat) returns (counts: seq<nat>, histogram: map<nat, nat>)
    ensures |counts| == |sigs|
    ensures forall i :: 0 <= i < |sigs| ==>
      counts[i] == |Occurrences(sigs, Indices(|sigs|), i, LookbackCut(i, lookback))|
    ensures forall c :: c in histogram ==> histogram[c] == |With(counts, c)|
    ensures Total(Reals(histogram)) == |sigs| as real
  {
    hide Occurrences, DequesOk, Total, With;
    var stamps := Indices(|sigs|);
    counts, histogram := [], map[];
    var history: map<string, seq<int>> := map[];
    ghost var horizon := LookbackCut(0, lookback);
    NoDeques(sigs, stamps, horizon);
    EmptyHistogram();
    for n := 0 to |sigs|
      invariant |counts| == n && DequesOk(history, sigs, stamps, n, horizon)
      invariant horizon <= LookbackCut(n, lookback)
      invariant forall i :: 0 <= i < n ==> counts[i] == |Occurrences(sigs, stamps, i, LookbackCut(i, lookback))|
      invariant Tallies(histogram, counts)
      invariant Total(Reals(histogram)) == n as real
    {
      var count;
      history, count := ObserveIndex(history, sigs, stamps, n, lookback, horizon);
      horizon := LookbackCut(n, lookback);
      TallyOneMore(histogram, counts, count);
      counts := counts + [count];
      histogram := histogram[count := (if count in histogram then histogram[count] else 0) + 1];
    }
  }

  /** One window of the analyser: prune its deque, append, count. */
  method ObserveIndex(history0: map<string, seq<int>>, sigs: seq<string>, ghost stamps: seq<int>, n: nat,
                      lookback: nat, ghost horizon: int) returns (history: map<string, seq<int>>, count: nat)
    requires n < |sigs| && stamps == Indices(|sigs|)
    requires DequesOk(history0, sigs, stamps, n, horizon) && horizon <= LookbackCut(n, lookback)
    ensures DequesOk(history, sigs, stamps, n + 1, LookbackCut(n, lookback))
    ensures count == |Occurrences(sigs, stamps, n, LookbackCut(n, lookback))|
  {
    var s := sigs[n];
    ghost var cut := LookbackCut(n, lookback);
    assert DequeOk(history0, s, sigs, stamps, n, horizon);
    ghost var since :| since <= horizon && HoldsSince(history0, s, sigs, stamps, n, since);
    var deque := DequeOf(history0, s);
    if lookback > 0 {
      deque := PopOlder(deque, n - lookback + 1, sigs, stamps, s, n, since);
    } else {
      AllSince(sigs, stamps, s, n, since);
    }
    deque := deque + [n];
    history := history0[s := deque];
    DequesAdvance(history0, history, sigs, stamps, n, horizon, cut, cut);
    RecentIsOccurrences(sigs, stamps, n, cut);
    count := |deque|;
  }

  /** Without a lookback nothing is ever dropped. */
  lemma {:induction false} AllSince(sigs: seq<string>, stamps: seq<int>, s: string, n: nat, since: int)
    requires n <= |sigs| == |stamps| && since <= 0 && forall k :: 0 <= k < |stamps| ==> stamps[k] >= 0
    ensures Recent(sigs, stamps, s, n, since) == Recent(sigs, stamps, s, n, 0)
  {
    if n > 0 {
      AllSince(sigs, stamps, s, n - 1, since);
    }
  }

  /** The windows with a given count. */
  function With(counts: seq<nat>, c: nat): set<nat> {
    set i: nat | 0 <= i < |counts| && counts[i] == c
  }

  function Reals(histogram: map<nat, nat>): map<nat, real> {
    map c | c in histogram :: histogram[c] as real
  }

  ghost predicate Tallies(histogram: map<nat, nat>, counts: seq<nat>) {
    && (forall c :: c in histogram ==> histogram[c] == |With(counts, c)|)
    && (forall i :: 0 <= i < |counts| ==> counts[i] in histogram)
  }

  lemma EmptyHistogram()
    ensures Total(Reals(map[])) == 0.0
  {
    assert Reals(map[]) == map[];
  }

  lemma WithOneMore(counts: seq<nat>, c: nat, k: nat)
    ensures |With(counts + [c], k)| == |With(counts, k)| + (if k == c then 1 else 0)
  {
    assert With(counts + [c], k) == if k == c then With(counts, k) + {|counts|} else With(counts, k);
  }

  lemma TallyOneMore(histogram: map<nat, nat>, counts: seq<nat>, c: nat)
    requires Tallies(histogram, counts)
    ensures var next := histogram[c := (if c in histogram then histogram[c] else 0) + 1];
            Tallies(next, counts + [c]) && Total(Reals(next)) == Total(Reals(histogram)) + 1.0
  {
    var next := histogram[c := (if c in histogram then histogram[c] else 0) + 1];
    forall k | k in next
      ensures next[k] == |With(counts + [c], k)|
    {
      WithOneMore(counts, c, k);
      if k !in histogram {
        assert With(counts, k) == {};
      }
    }
    TotalUpdate(Reals(histogram), c, next[c] as real);
    assert Reals(histogram)[c := next[c] as real] == Reals(next);
  }
}
