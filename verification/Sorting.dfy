/** Python's `sorted` (stable, by a numeric key), `statistics.fmean` and `statistics.median`, over exact reals. */
module Sorting {
  import opened Counting

  predicate SortedBy<T>(s: seq<T>, key: T -> real) {
    forall i, j :: 0 <= i < j < |s| ==> key(s[i]) <= key(s[j])
  }

  predicate Sorted(s: seq<real>) {
    forall i, j :: 0 <= i < j < |s| ==> s[i] <= s[j]
  }

  /** Puts `x` before the first element whose key is not smaller, which keeps the sort stable. */
  function InsertBy<T>(x: T, s: seq<T>, key: T -> real): (r: seq<T>)
    ensures multiset(r) == multiset{x} + multiset(s) && |r| == |s| + 1
  {
    if s == [] then [x]
    else if key(x) <= key(s[0]) then [x] + s
    else
      assert s == [s[0]] + s[1..];
      [s[0]] + InsertBy(x, s[1..], key)
  }

  lemma {:induction false} InsertBySorted<T>(x: T, s: seq<T>, key: T -> real)
    requires SortedBy(s, key)
    ensures SortedBy(InsertBy(x, s, key), key)
  {
    if s != [] && key(x) > key(s[0]) {
      InsertBySorted(x, s[1..], key);
      var rest := InsertBy(x, s[1..], key);
      forall j | 0 <= j < |rest| ensures key(s[0]) <= key(rest[j]) {
        assert rest[j] in multiset{x} + multiset(s[1..]);
      }
    }
  }

  function SortBy<T>(s: seq<T>, key: T -> real): (r: seq<T>)
    ensures multiset(r) == multiset(s) && |r| == |s|
  {
    if s == [] then []
    else
      assert s == [s[0]] + s[1..];
      InsertBy(s[0], SortBy(s[1..], key), key)
  }

  lemma {:induction false} SortBySorted<T>(s: seq<T>, key: T -> real)
    ensures SortedBy(SortBy(s, key), key)
  {
    if s != [] {
      SortBySorted(s[1..], key);
      InsertBySorted(s[0], SortBy(s[1..], key), key);
    }
  }

  function Sort(s: seq<real>): (r: seq<real>)
    ensures multiset(r) == multiset(s) && |r| == |s|
    ensures Sorted(r)
  {
    var key := (x: real) => x;
    var r := SortBy(s, key);
    assert Sorted(r) by {
      SortBySorted(s, key);
      assert forall i, j :: 0 <= i < j < |r| ==> key(r[i]) <= key(r[j]);
    }
    r
  }

  lemma {:induction false} SortedLast(s: seq<real>, t: seq<real>)
    requires s != [] && t != [] && Sorted(t) && multiset(s) == multiset(t)
    ensures s[|s| - 1] <= t[|t| - 1]
  {
    assert s[|s| - 1] in multiset(t);
    var j :| 0 <= j < |t| && t[j] == s[|s| - 1];
  }

  /** Sorted permutations of each other end alike, and without their last elements are permutations again. */
  lemma {:induction false} SameLast(s: seq<real>, t: seq<real>)
    requires Sorted(s) && Sorted(t) && multiset(s) == multiset(t) && s != []
    ensures |s| == |t| && s[|s| - 1] == t[|s| - 1]
    ensures multiset(s[..|s| - 1]) == multiset(t[..|s| - 1])
  {
    assert |s| == |multiset(s)| == |multiset(t)| == |t|;
    SortedLast(s, t);
    SortedLast(t, s);
    DropLast(s);
    DropLast(t);
  }

  /** A list has only one sorted permutation. */
  lemma {:induction false} SortedUnique(s: seq<real>, t: seq<real>)
    requires Sorted(s) && Sorted(t) && multiset(s) == multiset(t)
    ensures s == t
  {
    if s == [] {
      assert |t| == |multiset(t)| == |multiset(s)| == 0;
    } else {
      var n := |s| - 1;
      SameLast(s, t);
      SortedUnique(s[..n], t[..n]);
      assert s == s[..n] + [s[n]] && t == t[..n] + [t[n]];
    }
  }

  function Map<T, U>(f: T -> U, s: seq<T>): (r: seq<U>)
    ensures |r| == |s| && forall i :: 0 <= i < |s| ==> r[i] == f(s[i])
  {
    seq(|s|, i requires 0 <= i < |s| => f(s[i]))
  }

  lemma {:induction false} MapPermutation<T, U>(f: T -> U, s: seq<T>, t: seq<T>)
    requires multiset(s) == multiset(t)
    ensures multiset(Map(f, s)) == multiset(Map(f, t))
  {
    if s == [] {
      assert |t| == |multiset(t)| == 0;
    } else {
      var k := SplitPermutation(s, t);
      var n := |s| - 1;
      MapPermutation(f, s[..n], t[..k] + t[k + 1..]);
      assert Map(f, s) == Map(f, s[..n]) + [f(s[n])];
      assert Map(f, t[..k] + t[k + 1..]) == Map(f, t[..k]) + Map(f, t[k + 1..]);
      assert Map(f, t) == Map(f, t[..k]) + [f(t[k])] + Map(f, t[k + 1..]);
    }
  }

  ghost predicate Monotone(f: real -> real) {
    forall x, y :: x <= y ==> f(x) <= f(y)
  }

  /** Sorting commutes with a non-decreasing map. */
  lemma {:induction false} SortMap(f: real -> real, s: seq<real>)
    requires Monotone(f)
    ensures Sort(Map(f, s)) == Map(f, Sort(s))
  {
    MapPermutation(f, s, Sort(s));
    SortedUnique(Sort(Map(f, s)), Map(f, Sort(s)));
  }

  lemma {:induction false} SortPermutation(s: seq<real>, t: seq<real>)
    requires multiset(s) == multiset(t)
    ensures Sort(s) == Sort(t)
  {
    SortedUnique(Sort(s), Sort(t));
  }

  function Itself(): real -> real {
    (v: real) => v
  }

  /** `statistics.fmean` */
  function Mean(s: seq<real>): real
    requires s != []
  {
    SumBy(s, Itself()) / |s| as real
  }

  /** `statistics.median`; the source never calls it on an empty list. */
  function Median(s: seq<real>): real
    requires s != []
  {
    MedianOfSorted(Sort(s))
  }

  function MedianOfSorted(d: seq<real>): real
    requires d != []
  {
    if |d| % 2 == 1 then d[|d| / 2] else (d[|d| / 2 - 1] + d[|d| / 2]) / 2.0
  }

  ghost predicate Midpoint(f: real -> real, x: real, y: real) {
    f((x + y) / 2.0) == (f(x) + f(y)) / 2.0
  }

  ghost predicate KeepsMidpoints(f: real -> real) {
    forall x, y :: Midpoint(f, x, y)
  }

  lemma {:induction false} MedianOfSortedMap(f: real -> real, d: seq<real>)
    requires d != [] && KeepsMidpoints(f)
    ensures MedianOfSorted(Map(f, d)) == f(MedianOfSorted(d))
  {
    assert Midpoint(f, d[(|d| - 1) / 2], d[|d| / 2]);
  }

  /** The median follows a non-decreasing map that keeps midpoints. */
  lemma {:induction false} MedianMap(f: real -> real, s: seq<real>)
    requires s != [] && Monotone(f) && KeepsMidpoints(f)
    ensures Median(Map(f, s)) == f(Median(s))
  {
    SortMap(f, s);
    MedianOfSortedMap(f, Sort(s));
  }

  /** In a sorted list nothing up to the middle lies above the median, nothing from it below. */
  lemma {:induction false} MedianBetween(d: seq<real>)
    requires d != [] && Sorted(d)
    ensures forall i :: 0 <= i < (|d| + 1) / 2 ==> d[i] <= MedianOfSorted(d)
    ensures forall i :: |d| / 2 <= i < |d| ==> d[i] >= MedianOfSorted(d)
  {
  }

  /** At most half of a list lies strictly above its median, and at most half strictly below. */
  lemma {:induction false} MedianCounts(s: seq<real>)
    requires s != []
    ensures CountBy(s, v => v > Median(s)) <= |s| / 2
    ensures CountBy(s, v => v < Median(s)) <= |s| / 2
  {
    var d, m := Sort(s), Median(s);
    MedianBetween(d);
    CountPermutation(s, d, v => v > m);
    CountTail(d, (|d| + 1) / 2, v => v > m);
    CountPermutation(s, d, v => v < m);
    CountHead(d, |d| / 2, v => v < m);
  }
}
