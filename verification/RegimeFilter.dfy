/** The moving-average regime filter: prefix sums against the direct mean of each window. */
module RegimeFilter {
  import opened Common

  /** The mean of the `window` closes ending at `i`. */
  function WindowMean(closes: seq<real>, window: nat, i: nat): real
    requires 0 < window <= i + 1 <= |closes|
  {
    Sum(closes[i + 1 - window..i + 1]) / window as real
  }

  lemma {:induction false} SumSplits(xs: seq<real>, k: nat)
    requires k <= |xs|
    ensures Sum(xs) == Sum(xs[..k]) + Sum(xs[k..])
  {
    if k == |xs| {
      assert xs[..k] == xs && xs[k..] == [];
    } else {
      var n := |xs| - 1;
      SumSplits(xs[..n], k);
      assert xs[..n][..k] == xs[..k] && xs[..n][k..] == xs[k..][..n - k];
    }
  }

  method CumulativeSums(closes: seq<real>) returns (sums: seq<real>)
    ensures |sums| == |closes|
    ensures forall i :: 0 <= i < |closes| ==> sums[i] == Sum(closes[..i + 1])
  {
    sums := [];
    var total := 0.0;
    for n := 0 to |closes|
      invariant |sums| == n && total == Sum(closes[..n])
      invariant forall i :: 0 <= i < n ==> sums[i] == Sum(closes[..i + 1])
    {
      assert closes[..n + 1][..n] == closes[..n];
      total := total + closes[n];
      sums := sums + [total];
    }
  }

  /** The difference of two prefix sums is the sum of the window between them. */
  lemma WindowSum(closes: seq<real>, window: nat, i: nat)
    requires 0 < window <= i + 1 <= |closes|
    ensures Sum(closes[i + 1 - window..i + 1]) == Sum(closes[..i + 1]) - Sum(closes[..i + 1 - window])
  {
    SumSplits(closes[..i + 1], i + 1 - window);
    assert closes[..i + 1][..i + 1 - window] == closes[..i + 1 - window];
    assert closes[..i + 1][i + 1 - window..] == closes[i + 1 - window..i + 1];
  }

  datatype Filters = Filters(longOk: seq<bool>, shortOk: seq<bool>)

  /** No filter for a degenerate window or too few closes. Where a full window exists, a side is admitted
      exactly if the close is on the right side of the window's mean; before that both sides are. */
  method BuildRegimeFilters(closes: seq<real>, window: int) returns (filters: Option<Filters>)
    ensures filters.None? <==> window <= 1 || |closes| < window + 1
    ensures filters.Some? ==> |filters.value.longOk| == |filters.value.shortOk| == |closes|
    ensures filters.Some? ==> forall i :: 0 <= i < |closes| ==>
      if i < window - 1 then filters.value.longOk[i] && filters.value.shortOk[i]
      else && (filters.value.longOk[i] <==> closes[i] >= WindowMean(closes, window, i))
           && (filters.value.shortOk[i] <==> closes[i] <= WindowMean(closes, window, i))
  {
    if window <= 1 || |closes| < window + 1 {
      return None;
    }
    var sums := CumulativeSums(closes);
    var sma: seq<Option<real>> := seq(|closes|, i requires 0 <= i < |closes| =>
      if i < window - 1 then None
      else Some((sums[i] - (if i >= window then sums[i - window] else 0.0)) / window as real));
    forall i | window - 1 <= i < |closes|
      ensures sma[i] == Some(WindowMean(closes, window, i))
    {
      WindowSum(closes, window, i);
      assert i == window - 1 ==> closes[..i + 1 - window] == [];
    }
    var longOk := seq(|closes|, i requires 0 <= i < |closes| => sma[i].None? || closes[i] >= sma[i].value);
    var shortOk := seq(|closes|, i requires 0 <= i < |closes| => sma[i].None? || closes[i] <= sma[i].value);
    filters := Some(Filters(longOk, shortOk));
  }

  /** Where there is a full window, at least one side is admitted, and both only at the mean itself. */
  lemma OneSideUnlessAtTheMean(closes: seq<real>, window: nat, i: nat, longOk: bool, shortOk: bool)
    requires 0 < window <= i + 1 <= |closes|
    requires longOk <==> closes[i] >= WindowMean(closes, window, i)
    requires shortOk <==> closes[i] <= WindowMean(closes, window, i)
    ensures longOk || shortOk
    ensures longOk && shortOk <==> closes[i] == WindowMean(closes, window, i)
  {
  }
}
