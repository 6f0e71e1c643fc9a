/** The z-score, MAD and IQR detectors of evaluation/baselines/statistical.py, over exact reals. */
module OutlierRules {
  import opened Counting
  import opened RealArithmetic
  import opened Sorting

  function Abs(x: real): real {
    if x < 0.0 then -x else x
  }

  /** How many values a list of flags marks. */
  function Flagged(flags: seq<bool>): nat {
    CountBy(flags, b => b)
  }

  function NoFlags(values: seq<real>): seq<bool> {
    seq(|values|, _ => false)
  }

  // ---- z-score ----

  function SquaredDistance(m: real): real -> real {
    v => (v - m) * (v - m)
  }

  function Variance(values: seq<real>): real
    requires values != []
  {
    SumBy(values, SquaredDistance(Mean(values))) / |values| as real
  }

  /** `sigma` is `statistics.pstdev(values)`. */
  predicate IsDeviation(sigma: real, values: seq<real>) {
    values != [] ==> sigma >= 0.0 && sigma * sigma == Variance(values)
  }

  function FarFrom(m: real, sigma: real, k: real): real -> bool
    requires sigma != 0.0
  {
    v => Abs(v - m) / sigma > k
  }

  function ZScore(values: seq<real>, k: real, sigma: real): seq<bool>
    requires IsDeviation(sigma, values)
  {
    if |values| < 2 || sigma == 0.0 then NoFlags(values)
    else Map(FarFrom(Mean(values), sigma, k), values)
  }

  // ---- median absolute deviation ----

  function Distance(m: real): real -> real {
    v => Abs(v - m)
  }

  function Mad(values: seq<real>): real
    requires values != []
  {
    Median(Map(Distance(Median(values)), values))
  }

  function ModifiedScoreAbove(med: real, mad: real, k: real): real -> bool
    requires mad != 0.0
  {
    v => Abs(0.6745 * (v - med) / mad) > k
  }

  function MadRule(values: seq<real>, k: real): seq<bool> {
    if |values| < 2 then NoFlags(values)
    else if Mad(values) == 0.0 then NoFlags(values)
    else Map(ModifiedScoreAbove(Median(values), Mad(values), k), values)
  }

  // ---- Tukey's fence ----

  function LowerHalf(d: seq<real>): seq<real> {
    d[..|d| / 2]
  }

  function UpperHalf(d: seq<real>): seq<real> {
    if |d| % 2 == 0 then d[|d| / 2..] else d[|d| / 2 + 1..]
  }

  function Outside(lo: real, hi: real): real -> bool {
    v => v < lo || v > hi
  }

  datatype Quartiles = Quartiles(q1: real, q3: real) {
    function Range(): real {
      q3 - q1
    }

    function Fence(k: real): real -> bool {
      Outside(q1 - k * Range(), q3 + k * Range())
    }
  }

  function QuartilesOf(values: seq<real>): Quartiles
    requires |values| >= 4
  {
    var d := Sort(values);
    Quartiles(Median(LowerHalf(d)), Median(UpperHalf(d)))
  }

  function IqrRule(values: seq<real>, k: real): seq<bool> {
    if |values| < 4 then NoFlags(values)
    else
      var q := QuartilesOf(values);
      if q.Range() == 0.0 then NoFlags(values) else Map(q.Fence(k), values)
  }

  // ---- How much each rule can flag ----

  lemma {:induction false} FlaggedMap(p: real -> bool, values: seq<real>)
    ensures Flagged(Map(p, values)) == CountBy(values, p)
  {
    CountMonotone2(values, Map(p, values), p, b => b);
    CountMonotone2(Map(p, values), values, b => b, p);
  }

  lemma {:induction false} FlaggedNone(values: seq<real>)
    ensures Flagged(NoFlags(values)) == 0
  {
    CountBound(NoFlags(values), b => b);
  }

  /** Markov's inequality for a finite list. */
  lemma {:induction false} SumDominatesCount(s: seq<real>, f: real -> real, p: real -> bool, c: real)
    requires forall i :: 0 <= i < |s| ==> f(s[i]) >= 0.0 && (p(s[i]) ==> f(s[i]) > c)
    ensures SumBy(s, f) >= CountBy(s, p) as real * c
    ensures CountBy(s, p) > 0 ==> SumBy(s, f) > CountBy(s, p) as real * c
  {
    if s != [] {
      var init, last := s[..|s| - 1], s[|s| - 1];
      SumDominatesCount(init, f, p, c);
      MarkovStep(SumBy(init, f), CountBy(init, p), c, f(last), p(last));
    }
  }

  lemma MarkovStep(sum: real, n: nat, c: real, x: real, hit: bool)
    requires sum >= n as real * c && (n > 0 ==> sum > n as real * c) && x >= 0.0 && (hit ==> x > c)
    ensures var n' := if hit then n + 1 else n;
            sum + x >= n' as real * c && (n' > 0 ==> sum + x > n' as real * c)
  {
    assert (n + 1) as real * c == n as real * c + c;
  }

  lemma {:induction false} FarIsLarge(x: real, sigma: real, k: real)
    requires sigma > 0.0 && k > 0.0 && Abs(x) / sigma > k
    ensures x * x > (k * sigma) * (k * sigma)
  {
    var a := Abs(x);
    var b := MulPositive(a / sigma - k, sigma);
    assert a == a / sigma * sigma;
    var t := k * sigma;
    assert a > t;
    var c := MulPositive(k, sigma);
    var d := MulPositive(a - t, a + t);
    assert a * a == x * x;
  }

  lemma {:induction false} FarSquare(v: real, m: real, sigma: real, k: real, c: real)
    requires sigma > 0.0 && k > 0.0 && c == (k * sigma) * (k * sigma)
    ensures SquaredDistance(m)(v) >= 0.0 && (FarFrom(m, sigma, k)(v) ==> SquaredDistance(m)(v) > c)
  {
    var square := Square(v - m);
    if FarFrom(m, sigma, k)(v) {
      FarIsLarge(v - m, sigma, k);
    }
  }

  lemma {:induction false} ChebyshevSum(values: seq<real>, m: real, sigma: real, k: real, c: real)
    requires sigma > 0.0 && k > 0.0 && c == (k * sigma) * (k * sigma)
    ensures var sum, far := SumBy(values, SquaredDistance(m)), CountBy(values, FarFrom(m, sigma, k));
            sum >= far as real * c && (far > 0 ==> sum > far as real * c)
  {
    var p, f := FarFrom(m, sigma, k), SquaredDistance(m);
    forall i | 0 <= i < |values| ensures f(values[i]) >= 0.0 && (p(values[i]) ==> f(values[i]) > c) {
      FarSquare(values[i], m, sigma, k, c);
    }
    SumDominatesCount(values, f, p, c);
  }

  lemma {:induction false} VarianceSum(values: seq<real>, sigma: real)
    requires IsDeviation(sigma, values) && values != []
    ensures SumBy(values, SquaredDistance(Mean(values))) == sigma * sigma * |values| as real
  {
    DivideBack(SumBy(values, SquaredDistance(Mean(values))), |values| as real);
  }

  lemma DivideBack(x: real, n: real)
    requires n != 0.0
    ensures x / n * n == x
  {
  }

  /** Chebyshev: at most n/k^2 values are flagged, and strictly fewer if any is. */
  lemma {:induction false} ZScoreBound(values: seq<real>, k: real, sigma: real)
    requires IsDeviation(sigma, values) && k > 0.0
    ensures Flagged(ZScore(values, k, sigma)) as real * (k * k) <= |values| as real
    ensures Flagged(ZScore(values, k, sigma)) > 0 ==>
              Flagged(ZScore(values, k, sigma)) as real * (k * k) < |values| as real
  {
    var flagged := Flagged(ZScore(values, k, sigma));
    if |values| < 2 || sigma == 0.0 {
      FlaggedNone(values);
      assert flagged == 0;
    } else {
      var m := Mean(values);
      var c := (k * sigma) * (k * sigma);
      ChebyshevSum(values, m, sigma, k, c);
      FlaggedMap(FarFrom(m, sigma, k), values);
      VarianceSum(values, sigma);
      ChebyshevArithmetic(flagged as real, |values| as real, k, sigma, SumBy(values, SquaredDistance(m)), c);
    }
  }

  lemma {:induction false} ChebyshevArithmetic(flagged: real, n: real, k: real, sigma: real, sum: real, c: real)
    requires sigma > 0.0 && c == (k * sigma) * (k * sigma)
    requires sum == sigma * sigma * n && sum >= flagged * c
    requires flagged > 0.0 ==> sum > flagged * c
    ensures flagged * (k * k) <= n && (flagged > 0.0 ==> flagged * (k * k) < n)
  {
    var v := MulPositive(sigma, sigma);
    var e := n - flagged * (k * k);
    assert v * e == sum - flagged * c;
    if e < 0.0 {
      var d := MulPositive(v, -e);
    } else if e == 0.0 {
      assert v * e == 0.0;
    }
  }

  lemma {:induction false} AboveMad(x: real, mad: real, k: real)
    requires mad > 0.0 && k >= 0.6745 && Abs(0.6745 * x / mad) > k
    ensures Abs(x) > mad
  {
    var q := x / mad;
    assert 0.6745 * x / mad == 0.6745 * q;
    assert x == q * mad;
    if q > 1.0 {
      var d := MulPositive(q - 1.0, mad);
    } else {
      assert q < -1.0;
      var d := MulPositive(-q - 1.0, mad);
    }
  }

  lemma {:induction false} MadPositive(values: seq<real>)
    requires values != []
    ensures Mad(values) >= 0.0
  {
    var devs := Map(Distance(Median(values)), values);
    assert forall i :: 0 <= i < |devs| ==> devs[i] == Abs(values[i] - Median(values));
    MedianInRange(devs, 0.0);
  }

  lemma {:induction false} MedianInRange(s: seq<real>, lo: real)
    requires s != [] && forall i :: 0 <= i < |s| ==> s[i] >= lo
    ensures Median(s) >= lo
  {
    var d := Sort(s);
    assert forall i :: 0 <= i < |d| ==> d[i] in multiset(s);
  }

  lemma {:induction false} FlaggedIsFar(med: real, mad: real, k: real, v: real)
    requires k >= 0.6745 && mad > 0.0 && ModifiedScoreAbove(med, mad, k)(v)
    ensures Distance(med)(v) > mad
  {
    AboveMad(v - med, mad, k);
  }

  lemma {:induction false} MadCount(values: seq<real>, med: real, mad: real, k: real)
    requires values != [] && k >= 0.6745 && mad > 0.0 && mad == Median(Map(Distance(med), values))
    ensures CountBy(values, ModifiedScoreAbove(med, mad, k)) <= |values| / 2
  {
    var devs, p := Map(Distance(med), values), ModifiedScoreAbove(med, mad, k);
    MedianCounts(devs);
    forall i | 0 <= i < |values| && p(values[i]) ensures devs[i] > mad {
      FlaggedIsFar(med, mad, k, values[i]);
    }
    CountMonotone2(values, devs, p, v => v > Median(devs));
  }

  /** With the cut-off at least 0.6745, at most half of the values are flagged. */
  lemma {:induction false} MadBound(values: seq<real>, k: real)
    requires k >= 0.6745
    ensures Flagged(MadRule(values, k)) <= |values| / 2
  {
    FlaggedNone(values);
    if |values| >= 2 && Mad(values) != 0.0 {
      MadPositive(values);
      FlaggedMap(ModifiedScoreAbove(Median(values), Mad(values), k), values);
      MadCount(values, Median(values), Mad(values), k);
    }
  }

  lemma {:induction false} SortedMedian(d: seq<real>)
    requires d != [] && Sorted(d)
    ensures Median(d) == MedianOfSorted(d)
  {
    SortedUnique(Sort(d), d);
  }

  lemma {:induction false} BelowQ1(d: seq<real>)
    requires Sorted(d) && |d| >= 4
    ensures CountBy(d, v => v < Median(LowerHalf(d))) <= |d| / 2 / 2
  {
    var low := LowerHalf(d);
    SortedMedian(low);
    MedianBetween(low);
    var q := Median(low);
    forall i | |low| / 2 <= i < |d| ensures d[i] >= q {
      assert i < |low| ==> low[i] == d[i];
      assert i >= |low| ==> d[i] >= d[|low| - 1] == low[|low| - 1];
    }
    CountHead(d, |low| / 2, v => v < q);
  }

  lemma {:induction false} AboveQ3(d: seq<real>)
    requires Sorted(d) && |d| >= 4
    ensures CountBy(d, v => v > Median(UpperHalf(d))) <= |d| / 2 / 2
  {
    var up := UpperHalf(d);
    var off := |d| - |up|;
    SortedMedian(up);
    MedianBetween(up);
    var q := Median(up);
    forall i | 0 <= i < |d| - |up| / 2 ensures d[i] <= q {
      assert i >= off ==> up[i - off] == d[i];
      assert i < off ==> d[i] <= d[off] == up[0];
    }
    CountTail(d, |d| - |up| / 2, v => v > q);
  }

  lemma {:induction false} LowerQuartile(d: seq<real>)
    requires Sorted(d) && |d| >= 4
    ensures Median(LowerHalf(d)) <= d[|LowerHalf(d)| - 1]
  {
    var low := LowerHalf(d);
    SortedMedian(low);
    MedianBetween(low);
    assert low[|low| - 1] == d[|low| - 1] && low[|low| / 2] <= low[|low| - 1];
  }

  lemma {:induction false} UpperQuartile(d: seq<real>)
    requires Sorted(d) && |d| >= 4
    ensures d[|d| - |UpperHalf(d)|] <= Median(UpperHalf(d))
  {
    var up := UpperHalf(d);
    SortedMedian(up);
    MedianBetween(up);
    assert up[0] == d[|d| - |up|];
  }

  lemma {:induction false} QuartilesOrdered(d: seq<real>)
    requires Sorted(d) && |d| >= 4
    ensures Median(LowerHalf(d)) <= Median(UpperHalf(d))
  {
    LowerQuartile(d);
    UpperQuartile(d);
  }

  lemma {:induction false} CountEither(s: seq<real>, p: real -> bool, q: real -> bool, r: real -> bool)
    requires forall i :: 0 <= i < |s| && p(s[i]) ==> q(s[i]) || r(s[i])
    ensures CountBy(s, p) <= CountBy(s, q) + CountBy(s, r)
  {
    if s != [] {
      CountEither(s[..|s| - 1], p, q, r);
      assert p(s[|s| - 1]) ==> q(s[|s| - 1]) || r(s[|s| - 1]);
    }
  }

  lemma FenceOutside(q: Quartiles, k: real, v: real)
    requires k >= 0.0 && q.q1 <= q.q3 && q.Fence(k)(v)
    ensures v < q.q1 || v > q.q3
  {
    MulMonotone(k, 0.0, q.Range());
  }

  /** A fence with k >= 0 leaves at most half of the values outside. */
  lemma {:induction false} IqrBound(values: seq<real>, k: real)
    requires k >= 0.0
    ensures Flagged(IqrRule(values, k)) <= |values| / 2
  {
    FlaggedNone(values);
    if |values| >= 4 && QuartilesOf(values).Range() != 0.0 {
      FlaggedMap(QuartilesOf(values).Fence(k), values);
      CountPermutation(values, Sort(values), QuartilesOf(values).Fence(k));
      FenceCount(Sort(values), k);
    }
  }

  lemma {:induction false} FenceCount(d: seq<real>, k: real)
    requires k >= 0.0 && Sorted(d) && |d| >= 4
    ensures CountBy(d, Quartiles(Median(LowerHalf(d)), Median(UpperHalf(d))).Fence(k)) <= |d| / 2
  {
    var q := Quartiles(Median(LowerHalf(d)), Median(UpperHalf(d)));
    var below, above := (v: real) => v < Median(LowerHalf(d)), (v: real) => v > Median(UpperHalf(d));
    QuartilesOrdered(d);
    BelowQ1(d);
    AboveQ3(d);
    forall i | 0 <= i < |d| && q.Fence(k)(d[i]) ensures below(d[i]) || above(d[i]) {
      FenceOutside(q, k, d[i]);
    }
    CountEither(d, q.Fence(k), below, above);
  }

  // ---- Moving and stretching the scale changes no flag ----

  ghost predicate AffineAt(f: real -> real, a: real, b: real, x: real) {
    f(x) == a * x + b
  }

  /** `f` stretches by `a` and moves by `b`. */
  ghost predicate IsAffine(f: real -> real, a: real, b: real) {
    forall x :: AffineAt(f, a, b, x)
  }

  lemma {:induction false} AffineOrder(f: real -> real, a: real, b: real)
    requires IsAffine(f, a, b) && a >= 0.0
    ensures Monotone(f) && KeepsMidpoints(f)
  {
    forall x, y | x <= y ensures f(x) <= f(y) {
      assert AffineAt(f, a, b, x) && AffineAt(f, a, b, y);
      AffineMonotone(x, y, f(x), f(y), a, b);
    }
    forall x, y ensures Midpoint(f, x, y) {
      assert AffineAt(f, a, b, x) && AffineAt(f, a, b, y) && AffineAt(f, a, b, (x + y) / 2.0);
      MidpointAffine(x, y, f(x), f(y), f((x + y) / 2.0), a, b);
    }
  }

  lemma AffineMonotone(x: real, y: real, x': real, y': real, a: real, b: real)
    requires a >= 0.0 && x <= y && x' == a * x + b && y' == a * y + b
    ensures x' <= y'
  {
    MulMonotone(a, x, y);
  }

  lemma MidpointAffine(x: real, y: real, x': real, y': real, mid': real, a: real, b: real)
    requires x' == a * x + b && y' == a * y + b && mid' == a * ((x + y) / 2.0) + b
    ensures mid' == (x' + y') / 2.0
  {
  }

  lemma {:induction false} SumMap(s: seq<real>, f: real -> real, a: real, b: real)
    requires IsAffine(f, a, b)
    ensures SumBy(Map(f, s), Itself()) == a * SumBy(s, Itself()) + b * |s| as real
  {
    if s != [] {
      var init, last := s[..|s| - 1], s[|s| - 1];
      SumMap(init, f, a, b);
      assert Map(f, s)[..|s| - 1] == Map(f, init);
      assert AffineAt(f, a, b, last);
      SumMapStep(SumBy(init, Itself()), last, |init| as real, a, b);
    }
  }

  lemma SumMapStep(sum: real, last: real, n: real, a: real, b: real)
    ensures a * sum + b * n + (a * last + b) == a * (sum + last) + b * (n + 1.0)
  {
  }

  lemma {:induction false} MeanMap(s: seq<real>, f: real -> real, a: real, b: real)
    requires IsAffine(f, a, b) && s != []
    ensures Mean(Map(f, s)) == f(Mean(s))
  {
    SumMap(s, f, a, b);
    assert AffineAt(f, a, b, Mean(s));
    QuotientAffine(SumBy(s, Itself()), SumBy(Map(f, s), Itself()), |s| as real, a, b);
  }

  lemma QuotientAffine(x: real, x': real, n: real, a: real, b: real)
    requires n > 0.0 && x' == a * x + b * n
    ensures x' / n == a * (x / n) + b
  {
    assert x' == (a * (x / n) + b) * n;
    DivideCancel(a * (x / n) + b, n);
  }

  lemma {:induction false} SquareMap(f: real -> real, a: real, b: real, m: real, v: real)
    requires IsAffine(f, a, b)
    ensures SquaredDistance(f(m))(f(v)) == (a * a) * SquaredDistance(m)(v)
  {
    assert AffineAt(f, a, b, m) && AffineAt(f, a, b, v);
    SquareScaled(v - m, f(v) - f(m), a);
  }

  lemma SquareScaled(d: real, d': real, a: real)
    requires d' == a * d
    ensures d' * d' == (a * a) * (d * d)
  {
  }

  lemma {:induction false} VarianceScales(s: seq<real>, t: seq<real>, sum: real, sum': real, c: real)
    requires s != [] && |t| == |s| && sum' == c * sum
    requires sum == SumBy(s, SquaredDistance(Mean(s))) && sum' == SumBy(t, SquaredDistance(Mean(t)))
    ensures Variance(t) == c * Variance(s)
  {
    QuotientScaled(sum, sum', |s| as real, c);
  }

  lemma {:induction false} VarianceMap(s: seq<real>, f: real -> real, a: real, b: real)
    requires IsAffine(f, a, b) && s != []
    ensures Variance(Map(f, s)) == (a * a) * Variance(s)
  {
    VarianceMapBy(s, f, a, b, Mean(s), a * a);
  }

  lemma {:induction false} SumOfSquaresMap(s: seq<real>, f: real -> real, a: real, b: real, m: real, c: real)
    requires IsAffine(f, a, b) && c == a * a
    ensures SumBy(Map(f, s), SquaredDistance(f(m))) == c * SumBy(s, SquaredDistance(m))
  {
    SquaresScale(s, f, a, b, m, c);
    SumScales(s, f, SquaredDistance(m), SquaredDistance(f(m)), c);
  }

  lemma {:induction false} VarianceMapBy(s: seq<real>, f: real -> real, a: real, b: real, m: real, c: real)
    requires IsAffine(f, a, b) && s != [] && c == a * a && m == Mean(s)
    ensures Variance(Map(f, s)) == c * Variance(s)
  {
    MeanMap(s, f, a, b);
    SumOfSquaresMap(s, f, a, b, m, c);
    VarianceScales(s, Map(f, s), SumBy(s, SquaredDistance(m)), SumBy(Map(f, s), SquaredDistance(f(m))), c);
  }

  ghost predicate Scales(s: seq<real>, f: real -> real, g: real -> real, h: real -> real, c: real) {
    forall i :: 0 <= i < |s| ==> h(f(s[i])) == c * g(s[i])
  }

  lemma {:induction false} SumScales(s: seq<real>, f: real -> real, g: real -> real, h: real -> real, c: real)
    requires Scales(s, f, g, h, c)
    ensures SumBy(Map(f, s), h) == c * SumBy(s, g)
  {
    SumScale(s, Map(f, s), g, h, c);
  }

  lemma {:induction false} SquaresScale(s: seq<real>, f: real -> real, a: real, b: real, m: real, c: real)
    requires IsAffine(f, a, b) && c == a * a
    ensures Scales(s, f, SquaredDistance(m), SquaredDistance(f(m)), c)
  {
    forall i | 0 <= i < |s| ensures SquaredDistance(f(m))(f(s[i])) == c * SquaredDistance(m)(s[i]) {
      SquareMap(f, a, b, m, s[i]);
    }
  }

  lemma QuotientScaled(x: real, x': real, n: real, c: real)
    requires n != 0.0 && x' == c * x
    ensures x' / n == c * (x / n)
  {
    assert (c * (x / n)) * n == x';
    DivideCancel(c * (x / n), n);
  }

  lemma {:induction false} DistanceMap(f: real -> real, a: real, b: real, m: real, v: real)
    requires IsAffine(f, a, b) && a > 0.0
    ensures f(v) - f(m) == a * (v - m) && Abs(f(v) - f(m)) == a * Abs(v - m)
  {
    assert AffineAt(f, a, b, m) && AffineAt(f, a, b, v);
    if v - m > 0.0 {
      var p := MulPositive(a, v - m);
    } else if v - m < 0.0 {
      var p := MulPositive(a, m - v);
    }
  }

  lemma {:induction false} FarMap(f: real -> real, a: real, b: real, m: real, sigma: real, sigma': real, k: real,
                                  v: real)
    requires IsAffine(f, a, b) && a > 0.0 && sigma != 0.0 && sigma' != 0.0 && sigma' == a * sigma
    ensures FarFrom(f(m), sigma', k)(f(v)) == FarFrom(m, sigma, k)(v)
  {
    DistanceMap(f, a, b, m, v);
    CancelFactor(Abs(v - m), sigma, Abs(f(v) - f(m)), sigma', a);
  }

  lemma {:induction false} DeviationMap(s: seq<real>, f: real -> real, a: real, b: real, sigma: real)
    requires IsAffine(f, a, b) && a > 0.0 && IsDeviation(sigma, s)
    ensures IsDeviation(a * sigma, Map(f, s))
  {
    if s != [] {
      MulMonotone(a, 0.0, sigma);
      VarianceMap(s, f, a, b);
      SquareOfProduct(a, sigma, Variance(s), Variance(Map(f, s)));
    }
  }

  lemma SquareOfProduct(a: real, sigma: real, v: real, v': real)
    requires sigma * sigma == v && v' == (a * a) * v
    ensures (a * sigma) * (a * sigma) == v'
  {
  }

  /** Moving and stretching the values, and the deviation with them, changes no z-score flag. */
  lemma {:induction false} ZScoreMap(s: seq<real>, k: real, sigma: real, f: real -> real, a: real, b: real)
    requires IsAffine(f, a, b) && a > 0.0 && IsDeviation(sigma, s)
    ensures IsDeviation(a * sigma, Map(f, s)) && ZScore(Map(f, s), k, a * sigma) == ZScore(s, k, sigma)
  {
    DeviationMap(s, f, a, b, sigma);
    if s != [] && sigma > 0.0 {
      var m, sigma' := Mean(s), a * sigma;
      var positive := MulPositive(a, sigma);
      MeanMap(s, f, a, b);
      forall i | 0 <= i < |s| ensures FarFrom(f(m), sigma', k)(Map(f, s)[i]) == FarFrom(m, sigma, k)(s[i]) {
        FarMap(f, a, b, m, sigma, sigma', k, s[i]);
      }
      assert Map(FarFrom(f(m), sigma', k), Map(f, s)) == Map(FarFrom(m, sigma, k), s);
    }
  }

  lemma {:induction false} MedianAffine(s: seq<real>, f: real -> real, a: real, b: real)
    requires IsAffine(f, a, b) && a > 0.0 && s != []
    ensures Median(Map(f, s)) == f(Median(s))
  {
    AffineOrder(f, a, b);
    MedianMap(f, s);
  }

  lemma {:induction false} DistancesMap(s: seq<real>, f: real -> real, a: real, b: real, m: real, stretch: real -> real)
    requires IsAffine(f, a, b) && a > 0.0 && IsAffine(stretch, a, 0.0)
    ensures Map(Distance(f(m)), Map(f, s)) == Map(stretch, Map(Distance(m), s))
  {
    forall i | 0 <= i < |s| ensures Distance(f(m))(f(s[i])) == stretch(Distance(m)(s[i])) {
      DistanceMap(f, a, b, m, s[i]);
      assert AffineAt(stretch, a, 0.0, Distance(m)(s[i]));
    }
  }

  lemma {:induction false} MadMap(s: seq<real>, f: real -> real, a: real, b: real, stretch: real -> real)
    requires IsAffine(f, a, b) && a > 0.0 && s != [] && IsAffine(stretch, a, 0.0)
    ensures Mad(Map(f, s)) == stretch(Mad(s))
  {
    MedianAffine(s, f, a, b);
    DistancesMap(s, f, a, b, Median(s), stretch);
    MedianAffine(Map(Distance(Median(s)), s), stretch, a, 0.0);
  }

  lemma {:induction false} ScoreMap(f: real -> real, a: real, b: real, m: real, mad: real, mad': real, k: real, v: real)
    requires IsAffine(f, a, b) && a > 0.0 && mad != 0.0 && mad' != 0.0 && mad' == a * mad
    ensures ModifiedScoreAbove(f(m), mad', k)(f(v)) == ModifiedScoreAbove(m, mad, k)(v)
  {
    DistanceMap(f, a, b, m, v);
    CancelFactor(0.6745 * (v - m), mad, 0.6745 * (f(v) - f(m)), mad', a);
  }

  lemma {:induction false} ScoresMap(s: seq<real>, f: real -> real, a: real, b: real, m: real, mad: real, mad': real,
                                     k: real)
    requires IsAffine(f, a, b) && a > 0.0 && mad != 0.0 && mad' != 0.0 && mad' == a * mad
    ensures Map(ModifiedScoreAbove(f(m), mad', k), Map(f, s)) == Map(ModifiedScoreAbove(m, mad, k), s)
  {
    forall i | 0 <= i < |s| ensures ModifiedScoreAbove(f(m), mad', k)(f(s[i])) == ModifiedScoreAbove(m, mad, k)(s[i]) {
      ScoreMap(f, a, b, m, mad, mad', k, s[i]);
    }
  }

  lemma {:induction false} MadRuleMap(s: seq<real>, k: real, f: real -> real, a: real, b: real)
    requires IsAffine(f, a, b) && a > 0.0
    ensures MadRule(Map(f, s), k) == MadRule(s, k)
  {
    if |s| >= 2 {
      var stretch := Stretch(a);
      var m, mad := Median(s), Mad(s);
      MadMap(s, f, a, b, stretch);
      MedianAffine(s, f, a, b);
      MadPositive(s);
      StretchSign(a, mad);
      if mad != 0.0 {
        ScoresMap(s, f, a, b, m, mad, stretch(mad), k);
      }
    }
  }

  function Stretch(a: real): (f: real -> real)
    ensures IsAffine(f, a, 0.0)
  {
    v => a * v
  }

  lemma StretchSign(a: real, x: real)
    requires a > 0.0 && x >= 0.0
    ensures Stretch(a)(x) == a * x && (Stretch(a)(x) == 0.0 <==> x == 0.0)
  {
    if x > 0.0 {
      var p := MulPositive(a, x);
    }
  }

  lemma {:induction false} QuartilesMap(s: seq<real>, f: real -> real, a: real, b: real)
    requires IsAffine(f, a, b) && a > 0.0 && |s| >= 4
    ensures QuartilesOf(Map(f, s)) == Quartiles(f(QuartilesOf(s).q1), f(QuartilesOf(s).q3))
  {
    AffineOrder(f, a, b);
    SortMap(f, s);
    HalvesMap(Sort(s), f, a, b);
  }

  lemma {:induction false} HalvesMap(d: seq<real>, f: real -> real, a: real, b: real)
    requires IsAffine(f, a, b) && a > 0.0 && |d| >= 4
    ensures Median(LowerHalf(Map(f, d))) == f(Median(LowerHalf(d)))
    ensures Median(UpperHalf(Map(f, d))) == f(Median(UpperHalf(d)))
  {
    assert LowerHalf(Map(f, d)) == Map(f, LowerHalf(d));
    assert UpperHalf(Map(f, d)) == Map(f, UpperHalf(d));
    MedianAffine(LowerHalf(d), f, a, b);
    MedianAffine(UpperHalf(d), f, a, b);
  }

  lemma ScaledLess(u: real, u': real, v: real, v': real, a: real, b: real)
    requires a > 0.0 && u' == a * u + b && v' == a * v + b
    ensures u' < v' <==> u < v
  {
    if u < v {
      var p := MulPositive(a, v - u);
    } else {
      MulMonotone(a, v, u);
    }
  }

  lemma {:induction false} FenceMap(q: Quartiles, r: Quartiles, k: real, v: real, v': real, a: real, b: real)
    requires a > 0.0 && r.q1 == a * q.q1 + b && r.q3 == a * q.q3 + b && v' == a * v + b
    ensures r.Fence(k)(v') == q.Fence(k)(v)
  {
    assert r.Range() == a * q.Range();
    ScaledLess(v, v', q.q1 - k * q.Range(), r.q1 - k * r.Range(), a, b);
    ScaledLess(q.q3 + k * q.Range(), r.q3 + k * r.Range(), v, v', a, b);
  }

  lemma {:induction false} FencesMap(s: seq<real>, f: real -> real, a: real, b: real, q: Quartiles, k: real)
    requires IsAffine(f, a, b) && a > 0.0
    ensures Map(Quartiles(f(q.q1), f(q.q3)).Fence(k), Map(f, s)) == Map(q.Fence(k), s)
    ensures Quartiles(f(q.q1), f(q.q3)).Range() == 0.0 <==> q.Range() == 0.0
  {
    var r := Quartiles(f(q.q1), f(q.q3));
    assert AffineAt(f, a, b, q.q1) && AffineAt(f, a, b, q.q3);
    ScaledLess(q.q1, r.q1, q.q3, r.q3, a, b);
    ScaledLess(q.q3, r.q3, q.q1, r.q1, a, b);
    forall i | 0 <= i < |s| ensures r.Fence(k)(f(s[i])) == q.Fence(k)(s[i]) {
      assert AffineAt(f, a, b, s[i]);
      FenceMap(q, r, k, s[i], f(s[i]), a, b);
    }
  }

  lemma {:induction false} IqrRuleMap(s: seq<real>, k: real, f: real -> real, a: real, b: real)
    requires IsAffine(f, a, b) && a > 0.0
    ensures IqrRule(Map(f, s), k) == IqrRule(s, k)
  {
    if |s| >= 4 {
      QuartilesMap(s, f, a, b);
      FencesMap(s, f, a, b, QuartilesOf(s), k);
    }
  }
}
