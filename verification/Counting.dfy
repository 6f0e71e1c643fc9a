/** Counting and summing over sequences, and why neither depends on the order of the elements. */
module Counting {

  datatype Option<+T> = None | Some(value: T)

  function CountBy<T>(s: seq<T>, p: T -> bool): nat {
    if s == [] then 0 else CountBy(s[..|s| - 1], p) + (if p(s[|s| - 1]) then 1 else 0)
  }

  function SumBy<T>(s: seq<T>, f: T -> real): real {
    if s == [] then 0.0 else SumBy(s[..|s| - 1], f) + f(s[|s| - 1])
  }

  predicate Distinct<T(==)>(s: seq<T>) {
    forall i, j :: 0 <= i < j < |s| ==> s[i] != s[j]
  }

  lemma {:induction false} Regroup<T>(x: seq<T>, y: seq<T>, z: seq<T>)
    ensures x + y + z == x + (y + z)
  {
  }

  lemma {:induction false} TailConcat<T>(a: seq<T>, b: seq<T>)
    requires a != []
    ensures (a + b)[0] == a[0] && (a + b)[1..] == a[1..] + b
  {
  }

  lemma {:induction false} CountAppend<T>(s: seq<T>, x: T, p: T -> bool)
    ensures CountBy(s + [x], p) == CountBy(s, p) + (if p(x) then 1 else 0)
  {
    assert (s + [x])[..|s|] == s;
  }

  lemma {:induction false} CountConcat<T>(s: seq<T>, t: seq<T>, p: T -> bool)
    ensures CountBy(s + t, p) == CountBy(s, p) + CountBy(t, p)
  {
    if t == [] {
      assert s + t == s;
    } else {
      var init := t[..|t| - 1];
      assert (s + t)[..|s + t| - 1] == s + init;
      CountConcat(s, init, p);
    }
  }

  lemma {:induction false} SumConcat<T>(s: seq<T>, t: seq<T>, f: T -> real)
    ensures SumBy(s + t, f) == SumBy(s, f) + SumBy(t, f)
  {
    if t == [] {
      assert s + t == s;
    } else {
      var init := t[..|t| - 1];
      assert (s + t)[..|s + t| - 1] == s + init;
      SumConcat(s, init, f);
    }
  }

  /** Splits a permutation of `s` around an occurrence of the last element of `s`. */
  lemma {:induction false} SplitPermutation<T>(s: seq<T>, t: seq<T>) returns (k: nat)
    requires s != [] && multiset(s) == multiset(t)
    ensures k < |t| && t[k] == s[|s| - 1]
    ensures t == t[..k] + [t[k]] + t[k + 1..]
    ensures multiset(s[..|s| - 1]) == multiset(t[..k] + t[k + 1..])
  {
    var last := s[|s| - 1];
    assert s == s[..|s| - 1] + [last];
    assert last in multiset(s);
    k :| 0 <= k < |t| && t[k] == last;
    assert t == t[..k] + [t[k]] + t[k + 1..];
    assert multiset(t) == multiset(t[..k]) + multiset{last} + multiset(t[k + 1..]);
    assert multiset(s) == multiset(s[..|s| - 1]) + multiset{last};
    var a, b, m := multiset(t[..k]), multiset(t[k + 1..]), multiset{last};
    assert multiset(t[..k] + t[k + 1..]) == a + b;
    assert (a + m + b) - m == a + b;
    assert (multiset(s[..|s| - 1]) + m) - m == multiset(s[..|s| - 1]);
  }

  lemma {:induction false} CountPermutation<T>(s: seq<T>, t: seq<T>, p: T -> bool)
    requires multiset(s) == multiset(t)
    ensures CountBy(s, p) == CountBy(t, p)
  {
    if s == [] {
      assert |t| == |multiset(t)| == 0;
    } else {
      var k := SplitPermutation(s, t);
      CountPermutation(s[..|s| - 1], t[..k] + t[k + 1..], p);
      CountConcat(t[..k], t[k + 1..], p);
      CountAppend(t[..k], t[k], p);
      CountConcat(t[..k] + [t[k]], t[k + 1..], p);
    }
  }

  lemma {:induction false} SumPermutation<T>(s: seq<T>, t: seq<T>, f: T -> real)
    requires multiset(s) == multiset(t)
    ensures SumBy(s, f) == SumBy(t, f)
  {
    if s == [] {
      assert |t| == |multiset(t)| == 0;
    } else {
      var k := SplitPermutation(s, t);
      SumPermutation(s[..|s| - 1], t[..k] + t[k + 1..], f);
      SumConcat(t[..k], t[k + 1..], f);
      SumConcat(t[..k], [t[k]], f);
      SumConcat(t[..k] + [t[k]], t[k + 1..], f);
      assert [t[k]][..0] == [];
      assert SumBy([t[k]], f) == SumBy([t[k]][..0], f) + f(t[k]);
    }
  }

  /** A count grows with its predicate, so two predicates agreeing on the elements count the same. */
  lemma {:induction false} CountMonotone<T>(s: seq<T>, p: T -> bool, q: T -> bool)
    requires forall i :: 0 <= i < |s| && p(s[i]) ==> q(s[i])
    ensures CountBy(s, p) <= CountBy(s, q)
  {
    if s != [] {
      CountMonotone(s[..|s| - 1], p, q);
      assert p(s[|s| - 1]) ==> q(s[|s| - 1]);
    }
  }

  /** The same, element by element over two sequences of one length. */
  lemma {:induction false} CountMonotone2<T, U>(s: seq<T>, t: seq<U>, p: T -> bool, q: U -> bool)
    requires |s| == |t|
    requires forall i :: 0 <= i < |s| && p(s[i]) ==> q(t[i])
    ensures CountBy(s, p) <= CountBy(t, q)
  {
    if s != [] {
      CountMonotone2(s[..|s| - 1], t[..|t| - 1], p, q);
      assert p(s[|s| - 1]) ==> q(t[|t| - 1]);
    }
  }

  lemma {:induction false} SumScale<T, U>(s: seq<T>, t: seq<U>, f: T -> real, g: U -> real, c: real)
    requires |s| == |t|
    requires forall i :: 0 <= i < |s| ==> g(t[i]) == c * f(s[i])
    ensures SumBy(t, g) == c * SumBy(s, f)
  {
    if s != [] {
      SumScale(s[..|s| - 1], t[..|t| - 1], f, g, c);
      assert g(t[|t| - 1]) == c * f(s[|s| - 1]);
    }
  }

  lemma {:induction false} CountBound<T>(s: seq<T>, p: T -> bool)
    ensures CountBy(s, p) <= |s|
    ensures CountBy(s, p) == |s| <==> forall i :: 0 <= i < |s| ==> p(s[i])
    ensures CountBy(s, p) == 0 <==> forall i :: 0 <= i < |s| ==> !p(s[i])
  {
    if s != [] {
      CountBound(s[..|s| - 1], p);
    }
  }

  /** A prefix counts no more than the whole. */
  lemma {:induction false} CountPrefix<T>(s: seq<T>, k: nat, p: T -> bool)
    requires k <= |s|
    ensures CountBy(s[..k], p) <= CountBy(s, p)
  {
    assert s == s[..k] + s[k..];
    CountConcat(s[..k], s[k..], p);
  }

  /** Distinct elements that lie in `u` are at most `|u|` many. */
  lemma {:induction false} CountDistinctIn<T>(s: seq<T>, u: set<T>)
    requires Distinct(s)
    ensures CountBy(s, x => x in u) <= |u|
    ensures (CountBy(s, x => x in u) == |u|) <==> (forall x :: x in u ==> x in s)
  {
    var p := (x: T) => x in u;
    if s == [] {
      if exists x :: x in u {
        assert u != {};
      }
    } else {
      var init, last := s[..|s| - 1], s[|s| - 1];
      if last in u {
        CountSubset(init, u, u - {last});
        CountDistinctIn(init, u - {last});
        assert forall x :: x in u ==> (x in s <==> x in init || x == last);
      } else {
        CountDistinctIn(init, u);
        assert forall x :: x in u ==> (x in s <==> x in init);
      }
    }
  }

  lemma {:induction false} CountSubset<T>(s: seq<T>, u: set<T>, v: set<T>)
    requires v <= u && forall x :: x in s && x in u ==> x in v
    ensures CountBy(s, x => x in u) == CountBy(s, x => x in v)
  {
    CountMonotone(s, x => x in u, x => x in v);
    CountMonotone(s, x => x in v, x => x in u);
  }

  /** Elements that all lie in one part of a sequence are at most as many as that part is long. */
  lemma {:induction false} CountTail<T>(s: seq<T>, h: nat, p: T -> bool)
    requires h <= |s| && forall i :: 0 <= i < h ==> !p(s[i])
    ensures CountBy(s, p) <= |s| - h
  {
    assert s == s[..h] + s[h..];
    CountConcat(s[..h], s[h..], p);
    CountBound(s[..h], p);
    CountBound(s[h..], p);
  }

  lemma {:induction false} CountHead<T>(s: seq<T>, h: nat, p: T -> bool)
    requires h <= |s| && forall i :: h <= i < |s| ==> !p(s[i])
    ensures CountBy(s, p) <= h
  {
    assert s == s[..h] + s[h..];
    CountConcat(s[..h], s[h..], p);
    CountBound(s[..h], p);
    CountBound(s[h..], p);
  }

  lemma {:induction false} DropLast<T>(s: seq<T>)
    requires s != []
    ensures multiset(s[..|s| - 1]) == multiset(s) - multiset{s[|s| - 1]}
  {
    assert s == s[..|s| - 1] + [s[|s| - 1]];
  }

  /** A predicate that holds exactly on the block [i, j) counts its length. */
  lemma {:induction false} CountBlock<T>(s: seq<T>, i: nat, j: nat, p: T -> bool)
    requires i <= j <= |s|
    requires forall k :: 0 <= k < |s| ==> (p(s[k]) <==> i <= k < j)
    ensures CountBy(s, p) == j - i
  {
    if s != [] {
      var n := |s| - 1;
      assert p(s[n]) <==> i <= n < j;
      if j == |s| && i < j {
        CountBlock(s[..n], i, j - 1, p);
      } else if i == j == |s| {
        CountBlock(s[..n], n, n, p);
      } else {
        CountBlock(s[..n], i, j, p);
      }
    }
  }

  function Filter<T(!new)>(s: seq<T>, p: T -> bool): (r: seq<T>)
    ensures |r| == CountBy(s, p)
    ensures forall x :: x in r <==> x in s && p(x)
  {
    if s == [] then []
    else
      assert s == s[..|s| - 1] + [s[|s| - 1]];
      Filter(s[..|s| - 1], p) + (if p(s[|s| - 1]) then [s[|s| - 1]] else [])
  }

  lemma {:induction false} FilterMultiplicity<T(!new)>(s: seq<T>, p: T -> bool, x: T)
    ensures multiset(Filter(s, p))[x] == if p(x) then multiset(s)[x] else 0
  {
    if s != [] {
      assert s == s[..|s| - 1] + [s[|s| - 1]];
      FilterMultiplicity(s[..|s| - 1], p, x);
    }
  }

  lemma {:induction false} FilterPermutation<T(!new)>(s: seq<T>, t: seq<T>, p: T -> bool)
    requires multiset(s) == multiset(t)
    ensures multiset(Filter(s, p)) == multiset(Filter(t, p))
  {
    forall x ensures multiset(Filter(s, p))[x] == multiset(Filter(t, p))[x] {
      FilterMultiplicity(s, p, x);
      FilterMultiplicity(t, p, x);
    }
  }

  lemma {:induction false} DistinctMultiplicity<T>(s: seq<T>, x: T)
    requires Distinct(s)
    ensures multiset(s)[x] == if x in s then 1 else 0
  {
    if s != [] {
      var n := |s| - 1;
      assert s == s[..n] + [s[n]];
      DistinctMultiplicity(s[..n], x);
      assert s[n] !in s[..n];
    }
  }

  lemma {:induction false} PermutationDistinct<T>(s: seq<T>, t: seq<T>)
    requires Distinct(s) && multiset(s) == multiset(t)
    ensures Distinct(t)
  {
    if !Distinct(t) {
      var i, j :| 0 <= i < j < |t| && t[i] == t[j];
      assert t == t[..j] + t[j..] && t[i] in t[..j] && t[j] in t[j..];
      assert multiset(s)[t[i]] >= 2;
      DistinctMultiplicity(s, t[i]);
    }
  }

  /** Duplicate-free lists of the same elements are permutations of one another. */
  lemma {:induction false} DistinctSameElements<T(!new)>(s: seq<T>, t: seq<T>)
    requires Distinct(s) && Distinct(t) && forall x :: x in s <==> x in t
    ensures multiset(s) == multiset(t)
  {
    forall x ensures multiset(s)[x] == multiset(t)[x] {
      DistinctMultiplicity(s, x);
      DistinctMultiplicity(t, x);
    }
  }

  /** The elements in order of their first occurrence: the keys of a dictionary filled in a loop. */
  function Uniques<T(==,!new)>(s: seq<T>): (r: seq<T>)
    ensures Distinct(r) && forall x :: x in r <==> x in s
  {
    if s == [] then []
    else
      var r := Uniques(s[..|s| - 1]);
      assert s == s[..|s| - 1] + [s[|s| - 1]];
      if s[|s| - 1] in r then r else r + [s[|s| - 1]]
  }

  lemma {:induction false} FilterSame<T(!new)>(s: seq<T>, p: T -> bool, q: T -> bool)
    requires forall i :: 0 <= i < |s| ==> p(s[i]) == q(s[i])
    ensures Filter(s, p) == Filter(s, q)
  {
    if s != [] {
      FilterSame(s[..|s| - 1], p, q);
      assert p(s[|s| - 1]) == q(s[|s| - 1]);
    }
  }

  function Find<K, V>(m: map<K, V>, k: K): Option<V> {
    if k in m then Some(m[k]) else None
  }

  /** The dictionary that a loop over `keys` fills with the values `f` gives. */
  function Tabulate<K(!new), V>(keys: set<K>, f: K -> Option<V>): map<K, V> {
    map k | k in keys && f(k).Some? :: f(k).value
  }

  lemma {:induction false} TabulateAdd<K(!new), V>(keys: set<K>, f: K -> Option<V>, k: K)
    requires k !in keys
    ensures Tabulate(keys + {k}, f) == if f(k).Some? then Tabulate(keys, f)[k := f(k).value] else Tabulate(keys, f)
  {
  }

  lemma {:induction false} TabulateSame<K(!new), V>(keys: set<K>, f: K -> Option<V>, g: K -> Option<V>)
    requires forall k :: k in keys ==> f(k) == g(k)
    ensures Tabulate(keys, f) == Tabulate(keys, g)
  {
  }
}
