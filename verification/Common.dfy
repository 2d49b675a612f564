/** Vocabulary shared by every module: options, signed numbers, list surgery and
    sums over the dictionaries the books are kept in. */
module Common {

  datatype Option<+T> = None | Some(value: T) {
    function GetOr(default: T): T {
      match this
      case Some(v) => v
      case None => default
    }
  }

  /** An instrument symbol, already upper-cased. */
  type Inst = string

  /** A timestamp in milliseconds. */
  type Time = int

  datatype Candle = Candle(time: Time, high: real, low: real, close: real)

  /** The requested direction of a trade: long, short or none. */
  type Side = s: int | -1 <= s <= 1 witness 0

  function Abs(x: int): nat {
    if x < 0 then -x else x
  }

  function AbsR(x: real): real {
    if x < 0.0 then -x else x
  }

  function MaxR(x: real, y: real): real {
    if x < y then y else x
  }

  function MinR(x: real, y: real): real {
    if y < x then y else x
  }

  function Max(x: int, y: int): int {
    if x < y then y else x
  }

  function Sign(x: int): Side {
    if x > 0 then 1 else if x < 0 then -1 else 0
  }

  /** `x * direction` for a direction of 1, -1 or 0. */
  function Along(x: real, direction: Side): real {
    if direction > 0 then x else if direction < 0 then -x else 0.0
  }

  /** The sum of what `value` makes of every entry. */
  function SumBy<T>(xs: seq<T>, value: T -> real): real {
    if xs == [] then 0.0 else SumBy(xs[..|xs| - 1], value) + value(xs[|xs| - 1])
  }

  function Itself(x: real): real {
    x
  }

  function Sum(xs: seq<real>): real {
    SumBy(xs, Itself)
  }

  function RemoveAt<T>(s: seq<T>, i: nat): (r: seq<T>)
    requires i < |s|
    ensures |r| == |s| - 1
    ensures forall k :: 0 <= k < i ==> r[k] == s[k]
    ensures forall k :: i <= k < |r| ==> r[k] == s[k + 1]
  {
    s[..i] + s[i + 1..]
  }

  /** The entries of `xs` whose flag in `gone` is off, in their old order. */
  function Keep<T>(xs: seq<T>, gone: seq<bool>): (r: seq<T>)
    requires |xs| == |gone|
  {
    if xs == [] then []
    else
      var n := |xs| - 1;
      Keep(xs[..n], gone[..n]) + (if gone[n] then [] else [xs[n]])
  }

  /** What is kept was there before and was not flagged. */
  lemma {:induction false} KeepMember<T>(xs: seq<T>, gone: seq<bool>, k: nat) returns (i: nat)
    requires |xs| == |gone|
    requires k < |Keep(xs, gone)|
    ensures i < |xs| && !gone[i] && xs[i] == Keep(xs, gone)[k]
  {
    var n := |xs| - 1;
    if k < |Keep(xs[..n], gone[..n])| {
      i := KeepMember(xs[..n], gone[..n], k);
    } else {
      i := n;
    }
  }

  /** Only the first `n` entries are subject to their flag. */
  function KeepBelow<T>(xs: seq<T>, gone: seq<bool>, n: nat): (r: seq<T>)
    requires n <= |xs| && n <= |gone|
  {
    Keep(xs[..n], gone[..n]) + xs[n..]
  }

  lemma KeepBelowNothing<T>(xs: seq<T>, gone: seq<bool>)
    ensures KeepBelow(xs, gone, 0) == xs
  {
  }

  lemma KeepBelowAll<T>(xs: seq<T>, gone: seq<bool>)
    requires |xs| == |gone|
    ensures KeepBelow(xs, gone, |xs|) == Keep(xs, gone)
  {
    assert xs[..|xs|] == xs && gone[..|gone|] == gone;
  }

  lemma KeepBelowStep<T>(xs: seq<T>, gone: seq<bool>, n: nat)
    requires 0 < n <= |xs| && n <= |gone|
    ensures KeepBelow(xs, gone, n) == KeepBelow(if gone[n - 1] then RemoveAt(xs, n - 1) else xs, gone, n - 1)
  {
    assert xs[..n][..n - 1] == xs[..n - 1] && gone[..n][..n - 1] == gone[..n - 1];
    if gone[n - 1] {
      assert RemoveAt(xs, n - 1)[..n - 1] == xs[..n - 1] && RemoveAt(xs, n - 1)[n - 1..] == xs[n..];
    } else {
      assert [xs[n - 1]] + xs[n..] == xs[n - 1..];
    }
  }

  lemma TimesMonotone(m: nat, a: int, b: int)
    requires a <= b
    ensures m * a <= m * b
  {
  }

  // ---------------------------------------------------------------- sums over dictionaries

  /** The sum of a dictionary's values. */
  ghost function Total<K(!new)>(m: map<K, real>): real
    decreases |m|
  {
    if m == map[] then 0.0
    else
      var k :| k in m;
      m[k] + Total(m - {k})
  }

  /** The sum does not depend on which entry is taken out first. */
  lemma {:induction false} TotalSplit<K(!new)>(m: map<K, real>, k: K)
    requires k in m
    ensures Total(m) == m[k] + Total(m - {k})
    decreases |m|
  {
    var p :| p in m && Total(m) == m[p] + Total(m - {p});
    if p != k {
      TotalSplit(m - {p}, k);
      TotalSplit(m - {k}, p);
      assert m - {p} - {k} == m - {k} - {p};
    }
  }

  lemma TotalWithout<K(!new)>(m: map<K, real>, k: K)
    ensures Total(m - {k}) == Total(m) - (if k in m then m[k] else 0.0)
  {
    if k in m {
      TotalSplit(m, k);
    } else {
      assert m - {k} == m;
    }
  }

  lemma TotalUpdate<K(!new)>(m: map<K, real>, k: K, v: real)
    ensures Total(m[k := v]) == Total(m) - (if k in m then m[k] else 0.0) + v
  {
    TotalSplit(m[k := v], k);
    assert m[k := v] - {k} == m - {k};
    TotalWithout(m, k);
  }

  /** Two dictionaries that differ at most at `k`. */
  lemma TotalDiffersAt<K(!new)>(m: map<K, real>, n: map<K, real>, k: K)
    requires m - {k} == n - {k}
    ensures Total(n) == Total(m) - (if k in m then m[k] else 0.0) + (if k in n then n[k] else 0.0)
  {
    TotalWithout(m, k);
    TotalWithout(n, k);
  }

  /** A sum of whole numbers is whole. */
  lemma {:induction false} TotalOfWholeNumbers<K(!new)>(m: map<K, real>, whole: map<K, int>) returns (n: int)
    requires forall k :: k in m ==> k in whole && m[k] == whole[k] as real
    ensures Total(m) == n as real
    decreases |m|
  {
    if m == map[] {
      n := 0;
    } else {
      var k :| k in m && Total(m) == m[k] + Total(m - {k});
      var rest := TotalOfWholeNumbers(m - {k}, whole);
      n := whole[k] + rest;
    }
  }

  /** Python's `sum(d.values())`. */
  method SumValues<K(!new,==)>(m: map<K, real>) returns (sum: real)
    ensures sum == Total(m)
  {
    sum := 0.0;
    var rest := m;
    while rest != map[]
      invariant sum + Total(rest) == Total(m)
      decreases |rest|
    {
      var k :| k in rest;
      TotalSplit(rest, k);
      sum := sum + rest[k];
      rest := rest - {k};
    }
  }
}
