/** Cohen's kappa as computed in evaluation/research/expert_labels.py, over exact reals. */
module CohenKappa {
  import opened Counting
  import opened RealArithmetic

  const LABELS := ["true_issue", "not_issue", "insufficient_evidence"]

  type Pair = (string, string)

  function Zip(first: seq<string>, second: seq<string>): (r: seq<Pair>)
    requires |first| == |second|
    ensures |r| == |first| && forall i :: 0 <= i < |r| ==> r[i] == (first[i], second[i])
  {
    seq(|first|, i requires 0 <= i < |first| => (first[i], second[i]))
  }

  function Is(c: string): string -> bool {
    l => l == c
  }

  function Agree(): Pair -> bool {
    (p: Pair) => p.0 == p.1
  }

  function ExpectedAt(first: seq<string>, second: seq<string>, c: string): nat {
    CountBy(first, Is(c)) * CountBy(second, Is(c))
  }

  /** The sum over LABELS of the products of the two counts. */
  function ExpectedCount(first: seq<string>, second: seq<string>): nat {
    ExpectedAt(first, second, LABELS[0]) + ExpectedAt(first, second, LABELS[1]) + ExpectedAt(first, second, LABELS[2])
  }

  function Observed(first: seq<string>, second: seq<string>): nat
    requires |first| == |second|
  {
    CountBy(Zip(first, second), Agree())
  }

  function Kappa(first: seq<string>, second: seq<string>): Option<real> {
    if |first| != |second| || first == [] then None
    else KappaOf(Observed(first, second), ExpectedCount(first, second), |first|)
  }

  function KappaOf(agreements: nat, products: nat, n: nat): Option<real>
    requires n > 0
  {
    var observed := agreements as real / n as real;
    var expected := products as real / (n * n) as real;
    if expected == 1.0 then None else Some((observed - expected) / (1.0 - expected))
  }

  // ---- The counts behind the ratio ----

  lemma {:induction false} LabelTotals(s: seq<string>)
    ensures CountBy(s, Is(LABELS[0])) + CountBy(s, Is(LABELS[1])) + CountBy(s, Is(LABELS[2])) <= |s|
  {
    if s != [] {
      LabelTotals(s[..|s| - 1]);
      assert LABELS[0][0] != LABELS[1][0] && LABELS[1][0] != LABELS[2][0] && LABELS[0][0] != LABELS[2][0];
    }
  }

  /** Two lists that both use a label often must agree on it often. */
  lemma {:induction false} Overlap(first: seq<string>, second: seq<string>, c: string)
    requires |first| == |second|
    ensures CountBy(first, Is(c)) + CountBy(second, Is(c)) <= |first| + Observed(first, second)
  {
    if first != [] {
      var n := |first| - 1;
      Overlap(first[..n], second[..n], c);
      assert Zip(first, second)[..n] == Zip(first[..n], second[..n]);
    }
  }

  lemma {:induction false} ObservedAll(first: seq<string>, second: seq<string>)
    requires |first| == |second|
    ensures Observed(first, second) <= |first|
    ensures Observed(first, second) == |first| <==> first == second
  {
    var z := Zip(first, second);
    CountBound(z, Agree());
    if first != second {
      var i :| 0 <= i < |first| && first[i] != second[i];
      assert !Agree()(z[i]);
    }
  }

  /** The counts of three labels in two lists of length n, and the number m of agreements. */
  ghost predicate Counts(a: int, b: int, c: int, x: int, y: int, z: int, n: int, m: int) {
    && a >= 0 && b >= 0 && c >= 0 && a + b + c <= n
    && x >= 0 && y >= 0 && z >= 0 && x + y + z <= n
    && 0 <= m <= n && a + x <= n + m && b + y <= n + m && c + z <= n + m
  }

  lemma SquareNonNegative(d: int)
    ensures d * d >= 0
  {
  }

  lemma IntMulMonotone(c: int, x: int, y: int)
    requires c >= 0 && x <= y
    ensures c * x <= c * y && x * c <= y * c
  {
  }

  lemma NonNegativeProduct(a: int, b: int)
    requires a >= 0 && b >= 0
    ensures a * b >= 0
  {
  }

  lemma FourProducts(a: int, x: int, n: int)
    requires a + x <= n && a + x >= 0
    ensures 4 * (a * x) <= n * (a + x)
  {
    var s := a + x;
    assert s * s == 4 * (a * x) + (a - x) * (a - x);
    SquareNonNegative(a - x);
    IntMulMonotone(s, s, n);
  }

  lemma MixedProducts(b: int, c: int, y: int, z: int, p: int, q: int)
    requires b >= 0 && c >= 0 && y >= 0 && z >= 0 && b + c <= p && y + z <= q
    ensures b * y + c * z <= p * q
  {
    assert (b + c) * (y + z) == b * y + c * z + b * z + c * y;
    NonNegativeProduct(b, z);
    NonNegativeProduct(c, y);
    IntMulMonotone(b + c, y + z, q);
    IntMulMonotone(q, b + c, p);
  }

  lemma Complement(n: int, p: int, q: int)
    ensures (n - p) * (n - q) == n * n - n * (p + q) + p * q
  {
  }

  lemma DominantProducts(n: int, p: int, q: int, m: int)
    requires p + q <= n && p + q >= 0 && n - (p + q) <= m && n >= 0
    ensures 4 * (p * q) <= n * (p + q) && n * n - n * (p + q) <= n * m
  {
    FourProducts(p, q, n);
    IntMulMonotone(n, n - (p + q), m);
  }

  lemma DominantSum(ax: int, rest: int, pq: int, ns: int, nn: int, nm: int)
    requires ax == nn - ns + pq && rest <= pq && 4 * pq <= ns && nn - ns <= nm
    ensures 2 * (ax + rest) <= nm + nn
  {
  }

  /** The bound from below when one label dominates both lists. */
  lemma Dominant(a: int, b: int, c: int, x: int, y: int, z: int, n: int, m: int)
    requires Counts(a, b, c, x, y, z, n, m) && a + x > n
    ensures 2 * (a * x + (b * y + c * z)) <= n * m + n * n
  {
    var p, q := n - a, n - x;
    MixedProducts(b, c, y, z, p, q);
    Complement(n, p, q);
    DominantProducts(n, p, q, m);
    DominantSum(a * x, b * y + c * z, p * q, n * (p + q), n * n, n * m);
  }

  /** The bound from below when no label does. */
  lemma Balanced(a: int, b: int, c: int, x: int, y: int, z: int, n: int, m: int)
    requires Counts(a, b, c, x, y, z, n, m) && a + x <= n && b + y <= n && c + z <= n
    ensures 2 * (a * x + b * y + c * z) <= n * m + n * n
  {
    FourProducts(a, x, n);
    FourProducts(b, y, n);
    FourProducts(c, z, n);
    NonNegativeProduct(n, m);
    BalancedSum(n, a + x, b + y, c + z);
    BalancedTotal(a * x, b * y, c * z, n * (a + x), n * (b + y), n * (c + z), n * n, n * m);
  }

  lemma BalancedTotal(ax: int, by': int, cz: int, r: int, s: int, t: int, nn: int, nm: int)
    requires 4 * ax <= r && 4 * by' <= s && 4 * cz <= t && r + s + t <= 2 * nn && nm >= 0
    ensures 2 * (ax + by' + cz) <= nm + nn
  {
  }

  lemma BalancedSum(n: int, r: int, s: int, t: int)
    requires n >= 0 && r + s + t <= 2 * n
    ensures n * r + n * s + n * t <= 2 * (n * n)
  {
    IntMulMonotone(n, r + s + t, 2 * n);
    assert n * (r + s + t) == n * r + n * s + n * t;
  }

  lemma {:induction false} LowerBound(a: int, b: int, c: int, x: int, y: int, z: int, n: int, m: int)
    requires Counts(a, b, c, x, y, z, n, m)
    ensures 2 * (a * x + b * y + c * z) <= n * m + n * n
  {
    if a + x > n {
      Dominant(a, b, c, x, y, z, n, m);
    } else if b + y > n {
      Dominant(b, a, c, y, x, z, n, m);
    } else if c + z > n {
      Dominant(c, a, b, z, x, y, n, m);
    } else {
      Balanced(a, b, c, x, y, z, n, m);
    }
  }

  /** The expected agreement is full exactly when one label fills both lists. */
  lemma {:induction false} UpperBound(a: int, b: int, c: int, x: int, y: int, z: int, n: int)
    requires Counts(a, b, c, x, y, z, n, n) && n > 0
    ensures 0 <= a * x + b * y + c * z <= n * n
    ensures a * x + b * y + c * z == n * n <==> (a == x == n || b == y == n || c == z == n)
  {
    NonNegativeProduct(a, x);
    NonNegativeProduct(b, y);
    NonNegativeProduct(c, z);
    OneLabel(a, b, c, x, y, z, n);
    OneLabel(b, a, c, y, x, z, n);
    OneLabel(c, a, b, z, x, y, n);
    if x < n && y < n && z < n {
      Slack(a, b, c, x, y, z, n);
    } else {
      assert x == n || y == n || z == n;
    }
  }

  lemma OneLabel(a: int, b: int, c: int, x: int, y: int, z: int, n: int)
    requires Counts(a, b, c, x, y, z, n, n) && n > 0
    ensures x == n ==> a * x + b * y + c * z == a * n && a * n <= n * n && (a * n == n * n <==> a == n)
  {
    if x == n {
      assert y == 0 && z == 0;
      IntMulMonotone(n, a, n);
      if a < n {
        IntMulMonotone(n, a, n - 1);
        assert n * (n - 1) == n * n - n;
      }
    }
  }

  lemma Slack(a: int, b: int, c: int, x: int, y: int, z: int, n: int)
    requires Counts(a, b, c, x, y, z, n, n) && n > 0 && x < n && y < n && z < n
    ensures a * x + b * y + c * z < n * n
  {
    IntMulMonotone(a, x, n - 1);
    IntMulMonotone(b, y, n - 1);
    IntMulMonotone(c, z, n - 1);
    SlackSum(a, b, c, n);
  }

  lemma SlackSum(a: int, b: int, c: int, n: int)
    requires a + b + c <= n && n > 0
    ensures a * (n - 1) + b * (n - 1) + c * (n - 1) < n * n
  {
    assert a * (n - 1) + b * (n - 1) + c * (n - 1) == (a + b + c) * (n - 1);
    IntMulMonotone(n - 1, a + b + c, n);
    assert n * (n - 1) == n * n - n;
  }

  // ---- The laws of kappa ----

  ghost predicate AllAre(s: seq<string>, c: string) {
    forall i :: 0 <= i < |s| ==> s[i] == c
  }

  /** Both lists say one and the same label throughout. */
  ghost predicate ConstantTogether(first: seq<string>, second: seq<string>) {
    exists c :: c in LABELS && AllAre(first, c) && AllAre(second, c)
  }

  lemma {:induction false} CountAll(s: seq<string>, c: string)
    ensures CountBy(s, Is(c)) == |s| <==> AllAre(s, c)
  {
    CountBound(s, Is(c));
  }

  lemma {:induction false} PairCounts(first: seq<string>, second: seq<string>)
    requires |first| == |second|
    ensures Counts(CountBy(first, Is(LABELS[0])), CountBy(first, Is(LABELS[1])), CountBy(first, Is(LABELS[2])),
                   CountBy(second, Is(LABELS[0])), CountBy(second, Is(LABELS[1])), CountBy(second, Is(LABELS[2])),
                   |first|, Observed(first, second))
  {
    LabelTotals(first);
    LabelTotals(second);
    ObservedAll(first, second);
    Overlap(first, second, LABELS[0]);
    Overlap(first, second, LABELS[1]);
    Overlap(first, second, LABELS[2]);
  }

  lemma {:induction false} ExpectedBounds(first: seq<string>, second: seq<string>)
    requires |first| == |second| && first != []
    ensures 2 * ExpectedCount(first, second) <= |first| * Observed(first, second) + |first| * |first|
    ensures ExpectedCount(first, second) <= |first| * |first|
    ensures ExpectedCount(first, second) == |first| * |first| <==> ConstantTogether(first, second)
  {
    PairCounts(first, second);
    var n := |first|;
    var a, b, c := CountBy(first, Is(LABELS[0])), CountBy(first, Is(LABELS[1])), CountBy(first, Is(LABELS[2]));
    var x, y, z := CountBy(second, Is(LABELS[0])), CountBy(second, Is(LABELS[1])), CountBy(second, Is(LABELS[2]));
    LowerBound(a, b, c, x, y, z, n, Observed(first, second));
    UpperBound(a, b, c, x, y, z, n);
    FullLabel(first, second);
  }

  lemma {:induction false} FullLabel(first: seq<string>, second: seq<string>)
    ensures ConstantTogether(first, second) <==>
              exists i :: 0 <= i < 3 && CountBy(first, Is(LABELS[i])) == |first|
                          && CountBy(second, Is(LABELS[i])) == |second|
  {
    CountAll(first, LABELS[0]);
    CountAll(first, LABELS[1]);
    CountAll(first, LABELS[2]);
    CountAll(second, LABELS[0]);
    CountAll(second, LABELS[1]);
    CountAll(second, LABELS[2]);
  }

  /** (m/d - e/d) / (1 - e/d) over a common denominator. */
  lemma {:induction false} CommonQuotient(m: real, e: real, d: real)
    requires d > 0.0 && e < d
    ensures 1.0 - e / d != 0.0 && (m / d - e / d) / (1.0 - e / d) == (m - e) / (d - e)
  {
    var u, v := m / d, e / d;
    assert u * d == m && v * d == e;
    if 1.0 - v <= 0.0 {
      MulMonotone(d, 1.0, v);
    }
    assert m - e == d * (u - v) && d - e == d * (1.0 - v);
    CancelFactor(u - v, 1.0 - v, m - e, d - e, d);
  }

  lemma SameFraction(m: nat, n: nat)
    requires n > 0
    ensures m as real / n as real == (n * m) as real / (n * n) as real
  {
    var r := n as real;
    assert (n * m) as real == r * m as real && (n * n) as real == r * r;
    CancelFactor(m as real, r, (n * m) as real, (n * n) as real, r);
  }

  lemma SquarePositive(n: nat)
    requires n > 0
    ensures n * n > 0
  {
  }

  lemma {:induction false} QuotientLaws(m: nat, e: nat, n: nat, nm: nat, nn: nat)
    requires n > 0 && m <= n && nm == n * m && nn == n * n && e <= nn && 2 * e <= nm + nn
    ensures KappaOf(m, e, n).None? <==> e == nn
    ensures KappaOf(m, e, n).Some? ==>
              -1.0 <= KappaOf(m, e, n).value <= 1.0 && (KappaOf(m, e, n).value == 1.0 <==> m == n)
  {
    SquarePositive(n);
    SameFraction(m, n);
    UnitQuotient(e as real, nn as real);
    IntMulMonotone(n, m, n);
    assert nm == nn <==> m == n by {
      if m < n {
        IntMulMonotone(n, m, n - 1);
        assert n * (n - 1) == nn - n;
      }
    }
    if e < nn {
      CommonQuotient(nm as real, e as real, nn as real);
      UnitQuotient((nm - e) as real, (nn - e) as real);
    }
  }

  /**
   * Kappa, for any labels, is undefined exactly on lists of different lengths, on empty lists and where both lists
   * are constantly the same label; otherwise it lies in [-1, 1], and is 1 exactly when the lists agree everywhere.
   */
  lemma {:induction false} KappaBounds(first: seq<string>, second: seq<string>)
    ensures Kappa(first, second).Some? <==>
              |first| == |second| && first != [] && !ConstantTogether(first, second)
    ensures Kappa(first, second).Some? ==> -1.0 <= Kappa(first, second).value <= 1.0
    ensures Kappa(first, second).Some? ==> (Kappa(first, second).value == 1.0 <==> first == second)
  {
    if |first| == |second| && first != [] {
      var n := |first|;
      var m, e := Observed(first, second), ExpectedCount(first, second);
      ExpectedBounds(first, second);
      ObservedAll(first, second);
      QuotientLaws(m, e, n, n * m, n * n);
    }
  }

  lemma {:induction false} ObservedSymmetric(first: seq<string>, second: seq<string>)
    requires |first| == |second|
    ensures Observed(first, second) == Observed(second, first)
  {
    CountMonotone2(Zip(first, second), Zip(second, first), Agree(), Agree());
    CountMonotone2(Zip(second, first), Zip(first, second), Agree(), Agree());
  }

  lemma {:induction false} KappaSymmetric(first: seq<string>, second: seq<string>)
    ensures Kappa(first, second) == Kappa(second, first)
  {
    if |first| == |second| {
      ObservedSymmetric(first, second);
      Commute(CountBy(first, Is(LABELS[0])), CountBy(second, Is(LABELS[0])));
      Commute(CountBy(first, Is(LABELS[1])), CountBy(second, Is(LABELS[1])));
      Commute(CountBy(first, Is(LABELS[2])), CountBy(second, Is(LABELS[2])));
    }
  }

  lemma Commute(a: nat, b: nat)
    ensures a * b == b * a
  {
  }

  // ---- Kappa of a list of pairs ----

  function Firsts(pairs: seq<Pair>): (r: seq<string>)
    ensures |r| == |pairs| && forall i :: 0 <= i < |r| ==> r[i] == pairs[i].0
  {
    seq(|pairs|, i requires 0 <= i < |pairs| => pairs[i].0)
  }

  function Seconds(pairs: seq<Pair>): (r: seq<string>)
    ensures |r| == |pairs| && forall i :: 0 <= i < |r| ==> r[i] == pairs[i].1
  {
    seq(|pairs|, i requires 0 <= i < |pairs| => pairs[i].1)
  }

  lemma {:induction false} PairsCount(pairs: seq<Pair>, c: string)
    ensures CountBy(Firsts(pairs), Is(c)) == CountBy(pairs, (p: Pair) => p.0 == c)
    ensures CountBy(Seconds(pairs), Is(c)) == CountBy(pairs, (p: Pair) => p.1 == c)
  {
    CountMonotone2(Firsts(pairs), pairs, Is(c), (p: Pair) => p.0 == c);
    CountMonotone2(pairs, Firsts(pairs), (p: Pair) => p.0 == c, Is(c));
    CountMonotone2(Seconds(pairs), pairs, Is(c), (p: Pair) => p.1 == c);
    CountMonotone2(pairs, Seconds(pairs), (p: Pair) => p.1 == c, Is(c));
  }

  lemma {:induction false} ExpectedAtPermutation(s: seq<Pair>, t: seq<Pair>, c: string)
    requires multiset(s) == multiset(t)
    ensures ExpectedAt(Firsts(s), Seconds(s), c) == ExpectedAt(Firsts(t), Seconds(t), c)
  {
    PairsCount(s, c);
    PairsCount(t, c);
    CountPermutation(s, t, (p: Pair) => p.0 == c);
    CountPermutation(s, t, (p: Pair) => p.1 == c);
  }

  lemma {:induction false} KappaPermutation(s: seq<Pair>, t: seq<Pair>)
    requires multiset(s) == multiset(t)
    ensures Kappa(Firsts(s), Seconds(s)) == Kappa(Firsts(t), Seconds(t))
  {
    assert |s| == |multiset(s)| == |multiset(t)| == |t|;
    ExpectedAtPermutation(s, t, LABELS[0]);
    ExpectedAtPermutation(s, t, LABELS[1]);
    ExpectedAtPermutation(s, t, LABELS[2]);
    assert Zip(Firsts(s), Seconds(s)) == s && Zip(Firsts(t), Seconds(t)) == t;
    CountPermutation(s, t, Agree());
  }

  // ---- The value of kappa in counts ----

  /** How often an item of the first list and an item of the second, paired at random, carry one and the same label. */
  function Crossings(first: seq<string>, second: seq<string>): nat {
    if first == [] then 0
    else
      var c := first[|first| - 1];
      Crossings(first[..|first| - 1], second) + if c in LABELS then CountBy(second, Is(c)) else 0
  }

  lemma OneMoreTimes(a: nat, x: nat, hit: bool)
    ensures (a + if hit then 1 else 0) * x == a * x + if hit then x else 0
  {
  }

  lemma {:induction false} ExpectedNext(first: seq<string>, second: seq<string>, c: string)
    requires first != []
    ensures ExpectedAt(first, second, c) == ExpectedAt(first[..|first| - 1], second, c)
            + if first[|first| - 1] == c then CountBy(second, Is(c)) else 0
  {
    var n := |first| - 1;
    OneMoreTimes(CountBy(first[..n], Is(c)), CountBy(second, Is(c)), first[n] == c);
  }

  lemma LabelsDiffer()
    ensures LABELS[0] != LABELS[1] && LABELS[1] != LABELS[2] && LABELS[0] != LABELS[2]
  {
    assert LABELS[0][0] != LABELS[1][0] && LABELS[1][0] != LABELS[2][0] && LABELS[0][0] != LABELS[2][0];
  }

  lemma {:induction false} CrossingsAre(first: seq<string>, second: seq<string>)
    ensures Crossings(first, second) == ExpectedCount(first, second)
  {
    if first != [] {
      CrossingsAre(first[..|first| - 1], second);
      LabelsDiffer();
      ExpectedNext(first, second, LABELS[0]);
      ExpectedNext(first, second, LABELS[1]);
      ExpectedNext(first, second, LABELS[2]);
    }
  }

  /** The positions below n at which two lists agree. */
  function MatchesBelow(first: seq<string>, second: seq<string>, n: nat): set<nat>
    requires n <= |first| && n <= |second|
  {
    set i: nat | i < n && first[i] == second[i]
  }

  function Matches(first: seq<string>, second: seq<string>): nat
    requires |first| == |second|
  {
    |MatchesBelow(first, second, |first|)|
  }

  lemma {:induction false} MatchesNext(first: seq<string>, second: seq<string>, n: nat)
    requires n < |first| && n < |second|
    ensures |MatchesBelow(first, second, n + 1)| ==
              |MatchesBelow(first, second, n)| + if first[n] == second[n] then 1 else 0
  {
    var before := MatchesBelow(first, second, n);
    assert MatchesBelow(first, second, n + 1) == if first[n] == second[n] then before + {n} else before;
  }

  lemma {:induction false} MatchesAre(first: seq<string>, second: seq<string>, n: nat)
    requires n <= |first| == |second|
    ensures |MatchesBelow(first, second, n)| == CountBy(Zip(first, second)[..n], Agree())
  {
    if n > 0 {
      MatchesAre(first, second, n - 1);
      MatchesNext(first, second, n - 1);
      assert Zip(first, second)[..n][..n - 1] == Zip(first, second)[..n - 1];
    }
  }

  lemma {:induction false} MatchesObserved(first: seq<string>, second: seq<string>)
    requires |first| == |second|
    ensures Matches(first, second) == Observed(first, second)
  {
    MatchesAre(first, second, |first|);
    assert Zip(first, second)[..|first|] == Zip(first, second);
  }

  /** kappa times (n^2 - crossings) is n times the matches less the crossings. */
  predicate Balances(kappa: real, n: nat, matches: nat, crossings: nat) {
    kappa * (n * n - crossings) as real == (n * matches - crossings) as real
  }

  /** The matches are more, or fewer, than pairing at random would give. */
  predicate AboveChance(n: nat, matches: nat, crossings: nat) {
    n * matches > crossings
  }

  predicate BelowChance(n: nat, matches: nat, crossings: nat) {
    n * matches < crossings
  }

  lemma {:induction false} QuotientBalances(m: nat, e: nat, n: nat, nm: nat, nn: nat)
    requires n > 0 && nm == n * m && nn == n * n && e < nn
    ensures KappaOf(m, e, n).Some? && KappaOf(m, e, n).value * (nn - e) as real == (nm - e) as real
  {
    SameFraction(m, n);
    CommonQuotient(nm as real, e as real, nn as real);
  }

  lemma SignOfFactor(k: real, d: real, p: real)
    requires d > 0.0 && k * d == p
    ensures (k > 0.0 <==> p > 0.0) && (k < 0.0 <==> p < 0.0)
  {
    if k > 0.0 {
      var c := MulPositive(k, d);
    } else if k < 0.0 {
      var c := MulPositive(-k, d);
    }
  }

  lemma {:induction false} KappaOfExact(m: nat, e: nat, n: nat)
    requires n > 0 && e < n * n
    ensures KappaOf(m, e, n).Some? && Balances(KappaOf(m, e, n).value, n, m, e)
    ensures KappaOf(m, e, n).value > 0.0 <==> AboveChance(n, m, e)
    ensures KappaOf(m, e, n).value < 0.0 <==> BelowChance(n, m, e)
  {
    QuotientBalances(m, e, n, n * m, n * n);
    SignOfFactor(KappaOf(m, e, n).value, (n * n - e) as real, (n * m - e) as real);
  }

  lemma {:induction false} NotFull(first: seq<string>, second: seq<string>)
    requires Kappa(first, second).Some?
    ensures first != [] && ExpectedCount(first, second) < |first| * |first|
  {
    KappaBounds(first, second);
    ExpectedBounds(first, second);
  }

  /**
   * Kappa in whole numbers; it is positive, zero or negative
   * as the lists agree more, as much or less than by chance.
   */
  lemma {:induction false} KappaExact(first: seq<string>, second: seq<string>)
    requires Kappa(first, second).Some?
    ensures Balances(Kappa(first, second).value, |first|, Matches(first, second), Crossings(first, second))
    ensures Kappa(first, second).value > 0.0 <==>
              AboveChance(|first|, Matches(first, second), Crossings(first, second))
    ensures Kappa(first, second).value < 0.0 <==>
              BelowChance(|first|, Matches(first, second), Crossings(first, second))
  {
    NotFull(first, second);
    CrossingsAre(first, second);
    MatchesObserved(first, second);
    KappaOfExact(Observed(first, second), ExpectedCount(first, second), |first|);
  }
}
