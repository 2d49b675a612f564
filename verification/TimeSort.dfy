/** A stable sort by time, as `sorted` and `list.sort` with a time key perform it. */
module TimeSort {
  import opened Common

  function Insert<T>(s: seq<T>, t: T, key: T -> Time): (r: seq<T>)
    ensures |r| == |s| + 1
  {
    if s == [] || key(s[|s| - 1]) <= key(t) then s + [t]
    else Insert(s[..|s| - 1], t, key) + [s[|s| - 1]]
  }

  function Sort<T>(s: seq<T>, key: T -> Time): (r: seq<T>)
    ensures |r| == |s|
  {
    if s == [] then [] else Insert(Sort(s[..|s| - 1], key), s[|s| - 1], key)
  }

  ghost predicate Ascending<T>(s: seq<T>, key: T -> Time) {
    forall i, j :: 0 <= i < j < |s| ==> key(s[i]) <= key(s[j])
  }

  /** The entries of one moment, in order. */
  function At<T>(s: seq<T>, time: Time, key: T -> Time): seq<T> {
    if s == [] then []
    else At(s[..|s| - 1], time, key) + (if key(s[|s| - 1]) == time then [s[|s| - 1]] else [])
  }

  lemma {:induction false} InsertAscends<T>(s: seq<T>, t: T, key: T -> Time)
    requires Ascending(s, key)
    ensures Ascending(Insert(s, t, key), key)
    ensures var last := Insert(s, t, key)[|s|];
            last == t || (s != [] && last == s[|s| - 1] && key(t) <= key(last))
  {
    if s != [] && key(s[|s| - 1]) > key(t) {
      InsertAscends(s[..|s| - 1], t, key);
    }
  }

  lemma {:induction false} InsertIsStable<T>(s: seq<T>, t: T, time: Time, key: T -> Time)
    requires Ascending(s, key)
    ensures At(Insert(s, t, key), time, key) == At(s, time, key) + (if key(t) == time then [t] else [])
  {
    if s != [] && key(s[|s| - 1]) > key(t) {
      var n := |s| - 1;
      InsertIsStable(s[..n], t, time, key);
      assert Insert(s, t, key)[..n + 1] == Insert(s[..n], t, key);
    } else {
      assert (s + [t])[..|s|] == s;
    }
  }

  /** The result is in order of time, and entries of the same moment keep their order. */
  lemma {:induction false} SortIsStable<T>(s: seq<T>, time: Time, key: T -> Time)
    ensures Ascending(Sort(s, key), key)
    ensures At(Sort(s, key), time, key) == At(s, time, key)
  {
    if s != [] {
      var n := |s| - 1;
      SortIsStable(s[..n], time, key);
      InsertAscends(Sort(s[..n], key), s[n], key);
      InsertIsStable(Sort(s[..n], key), s[n], time, key);
    }
  }

  lemma {:induction false} InsertKeepsEntries<T>(s: seq<T>, t: T, key: T -> Time)
    ensures multiset(Insert(s, t, key)) == multiset(s) + multiset{t}
  {
    if s != [] && key(s[|s| - 1]) > key(t) {
      var n := |s| - 1;
      InsertKeepsEntries(s[..n], t, key);
      assert s == s[..n] + [s[n]];
    }
  }

  /** The sort neither loses nor makes up an entry. */
  lemma {:induction false} SortKeepsEntries<T>(s: seq<T>, key: T -> Time)
    ensures multiset(Sort(s, key)) == multiset(s)
  {
    hide Insert;
    if s != [] {
      var n := |s| - 1;
      SortKeepsEntries(s[..n], key);
      InsertKeepsEntries(Sort(s[..n], key), s[n], key);
      assert s == s[..n] + [s[n]];
    }
  }
}
