/**
  * The medians, quartiles, percentiles, summaries and outlier flags of the evaluation package, told without sorting:
  * by how many values lie below a value and how many do not lie above it.
  */
module OrderStatistics {
  import opened Counting
  import opened RealArithmetic
  import opened Sorting
  import opened Percentiles
  import opened OutlierRules

  function Under(x: real): real -> bool {
    (v: real) => v < x
  }

  function UpTo(x: real): real -> bool {
    (v: real) => v <= x
  }

  /** x is the k-th smallest of the values, counted from one: fewer than k lie below it, and k do not lie above it. */
  predicate IsKth(values: seq<real>, k: int, x: real) {
    CountBy(values, Under(x)) < k <= CountBy(values, UpTo(x))
  }

  /** There is only one k-th smallest value. */
  lemma {:induction false} KthUnique(values: seq<real>, k: int, x: real, y: real)
    requires IsKth(values, k, x) && IsKth(values, k, y)
    ensures x == y
  {
    if x < y {
      CountMonotone(values, UpTo(x), Under(y));
    } else if y < x {
      CountMonotone(values, UpTo(y), Under(x));
    }
  }

  lemma {:induction false} SortedKth(d: seq<real>, k: int)
    requires Sorted(d) && 1 <= k <= |d|
    ensures IsKth(d, k, d[k - 1])
  {
    var x := d[k - 1];
    CountHead(d, k - 1, Under(x));
    CountPrefix(d, k, UpTo(x));
    CountBound(d[..k], UpTo(x));
  }

  lemma {:induction false} KthOfSort(values: seq<real>, k: int)
    requires 1 <= k <= |values|
    ensures IsKth(values, k, Sort(values)[k - 1])
  {
    var d := Sort(values);
    SortedKth(d, k);
    CountPermutation(values, d, Under(d[k - 1]));
    CountPermutation(values, d, UpTo(d[k - 1]));
  }

  /** m lies midway between the k-th and the l-th smallest value. */
  ghost predicate Midway(values: seq<real>, k: int, l: int, m: real) {
    exists lo, hi :: IsKth(values, k, lo) && IsKth(values, l, hi) && 2.0 * m == lo + hi
  }

  // ---- The median and the quartiles ----

  /** m is the median of the n values that follow the `low` smallest ones. */
  ghost predicate IsPartMedian(values: seq<real>, low: int, n: int, m: real) {
    Midway(values, low + (n + 1) / 2, low + n / 2 + 1, m)
  }

  ghost predicate IsMedian(values: seq<real>, m: real) {
    IsPartMedian(values, 0, |values|, m)
  }

  lemma {:induction false} Between(values: seq<real>, k: int, l: int, lo: real, hi: real, m: real)
    requires IsKth(values, k, lo) && IsKth(values, l, hi) && 2.0 * m == lo + hi
    ensures Midway(values, k, l, m)
  {
  }

  lemma {:induction false} MiddlePair(d: seq<real>)
    requires d != []
    ensures 2.0 * MedianOfSorted(d) == d[(|d| + 1) / 2 - 1] + d[|d| / 2 + 1 - 1]
  {
  }

  lemma {:induction false} MidwayUnique(values: seq<real>, k: int, l: int, x: real, y: real)
    requires Midway(values, k, l, x) && Midway(values, k, l, y)
    ensures x == y
  {
    var a, b :| IsKth(values, k, a) && IsKth(values, l, b) && 2.0 * x == a + b;
    var c, d :| IsKth(values, k, c) && IsKth(values, l, d) && 2.0 * y == c + d;
    KthUnique(values, k, a, c);
    KthUnique(values, l, b, d);
  }

  /** Two values of a part of the sorted list, the part beginning after the `low` smallest values. */
  lemma {:induction false} PartPair(values: seq<real>, d: seq<real>, low: nat, part: seq<real>, k: int, l: int, m: real)
    requires d == Sort(values) && low + |part| <= |d| && part == d[low..low + |part|]
    requires 1 <= k <= |part| && 1 <= l <= |part| && 2.0 * m == part[k - 1] + part[l - 1]
    ensures Midway(values, low + k, low + l, m)
  {
    KthOfSort(values, low + k);
    KthOfSort(values, low + l);
    Between(values, low + k, low + l, d[low + k - 1], d[low + l - 1], m);
  }

  /** The median of n consecutive values of the sorted list, those from `low` on. */
  lemma {:induction false} PartMedian(values: seq<real>, d: seq<real>, low: nat, n: nat, part: seq<real>)
    requires d == Sort(values) && 0 < n && low + n <= |d| && part == d[low..low + n]
    ensures IsPartMedian(values, low, n, MedianOfSorted(part))
  {
    MiddlePair(part);
    PartPair(values, d, low, part, (n + 1) / 2, n / 2 + 1, MedianOfSorted(part));
  }

  lemma {:induction false} MedianOfAll(values: seq<real>, d: seq<real>)
    requires d == Sort(values) != []
    ensures IsMedian(values, MedianOfSorted(d))
  {
    PartMedian(values, d, 0, |d|, d);
  }

  lemma {:induction false} MedianExact(values: seq<real>)
    requires values != []
    ensures IsMedian(values, Median(values))
  {
    MedianOfAll(values, Sort(values));
  }

  lemma {:induction false} PartUnique(values: seq<real>, low: int, n: int, p: real, q: real)
    requires IsPartMedian(values, low, n, p) && IsPartMedian(values, low, n, q)
    ensures p == q
  {
    MidwayUnique(values, low + (n + 1) / 2, low + n / 2 + 1, p, q);
  }

  lemma {:induction false} MedianUnique(values: seq<real>, m: real)
    requires values != [] && IsMedian(values, m)
    ensures m == Median(values)
  {
    MedianExact(values);
    PartUnique(values, 0, |values|, m, Median(values));
  }

  lemma {:induction false} HalvesAre(d: seq<real>, n: nat, h: nat)
    requires |d| == n >= 4 && h == n / 2 && Sorted(d)
    ensures LowerHalf(d) == d[0..0 + h] && UpperHalf(d) == d[n - h..n - h + h]
    ensures Sorted(LowerHalf(d)) && Sorted(UpperHalf(d))
  {
  }

  lemma {:induction false} QuartileMedians(values: seq<real>)
    requires |values| >= 4
    ensures var d := Sort(values);
            QuartilesOf(values) == Quartiles(MedianOfSorted(LowerHalf(d)), MedianOfSorted(UpperHalf(d)))
  {
    var d := Sort(values);
    HalvesAre(d, |d|, |d| / 2);
    SortedUnique(Sort(LowerHalf(d)), LowerHalf(d));
    SortedUnique(Sort(UpperHalf(d)), UpperHalf(d));
  }

  /** The median of the h smallest values. */
  ghost predicate LowMedian(values: seq<real>, h: nat, q: real) {
    IsPartMedian(values, 0, h, q)
  }

  /** The median of the h largest values. */
  ghost predicate HighMedian(values: seq<real>, h: nat, q: real) {
    IsPartMedian(values, |values| - h, h, q)
  }

  lemma {:induction false} LowPart(values: seq<real>, d: seq<real>, h: nat, part: seq<real>)
    requires d == Sort(values) && 0 < h <= |d| && part == d[0..0 + h]
    ensures LowMedian(values, h, MedianOfSorted(part))
  {
    PartMedian(values, d, 0, h, part);
  }

  lemma {:induction false} FirstQuartile(values: seq<real>, h: nat)
    requires |values| >= 4 && h == |values| / 2
    ensures LowMedian(values, h, QuartilesOf(values).q1)
  {
    QuartileMedians(values);
    HalvesAre(Sort(values), |values|, h);
    LowPart(values, Sort(values), h, LowerHalf(Sort(values)));
  }

  lemma {:induction false} HighPart(values: seq<real>, d: seq<real>, h: nat, part: seq<real>)
    requires d == Sort(values) && 0 < h <= |d| && part == d[|d| - h..|d| - h + h]
    ensures HighMedian(values, h, MedianOfSorted(part))
  {
    PartMedian(values, d, |d| - h, h, part);
  }

  lemma {:induction false} ThirdQuartile(values: seq<real>, h: nat)
    requires |values| >= 4 && h == |values| / 2
    ensures HighMedian(values, h, QuartilesOf(values).q3)
  {
    QuartileMedians(values);
    HalvesAre(Sort(values), |values|, h);
    HighPart(values, Sort(values), h, UpperHalf(Sort(values)));
  }

  /** The quartiles are the medians of the h smallest and the h largest values, with h half of them, rounded down. */
  ghost predicate AreQuartiles(values: seq<real>, q: Quartiles) {
    LowMedian(values, |values| / 2, q.q1) && HighMedian(values, |values| / 2, q.q3)
  }

  lemma {:induction false} QuartilesExact(values: seq<real>)
    requires |values| >= 4
    ensures AreQuartiles(values, QuartilesOf(values))
  {
    FirstQuartile(values, |values| / 2);
    ThirdQuartile(values, |values| / 2);
  }

  lemma {:induction false} LowUnique(values: seq<real>, h: nat, p: real, q: real)
    requires LowMedian(values, h, p) && LowMedian(values, h, q)
    ensures p == q
  {
    PartUnique(values, 0, h, p, q);
  }

  lemma {:induction false} HighUnique(values: seq<real>, h: nat, p: real, q: real)
    requires HighMedian(values, h, p) && HighMedian(values, h, q)
    ensures p == q
  {
    PartUnique(values, |values| - h, h, p, q);
  }

  lemma {:induction false} QuartilesUnique(values: seq<real>, q: Quartiles)
    requires |values| >= 4 && AreQuartiles(values, q)
    ensures QuartilesOf(values) == q
  {
    QuartilesExact(values);
    LowUnique(values, |values| / 2, q.q1, QuartilesOf(values).q1);
    HighUnique(values, |values| / 2, q.q3, QuartilesOf(values).q3);
  }

  // ---- Percentiles ----

  /** With w of the way from the i-th value on, counted from zero: between it and the next one, in proportion. */
  ghost predicate Interpolates(values: seq<real>, i: int, w: real, p: real) {
    exists lo, hi ::
      IsKth(values, i + 1, lo) && (w > 0.0 ==> IsKth(values, i + 2, hi)) && (w == 0.0 ==> hi == lo)
      && p == Lerp(lo, hi, w)
  }

  /** (n - 1) * fraction, split into a whole and a broken part. */
  predicate Splits(n: nat, fraction: real, i: int, w: real) {
    0.0 <= w < 1.0 && Scale((n - 1) as real, fraction) == i as real + w
  }

  lemma {:induction false} PercentileExact(values: seq<real>, fraction: real, i: int, w: real)
    requires values != [] && 0.0 <= fraction <= 1.0 && Splits(|values|, fraction, i, w)
    ensures 0 <= i < |values| && Interpolates(values, i, w, Percentile(Sort(values), fraction))
  {
    var d := Sort(values);
    var p := Position(|d|, fraction);
    assert p.Floor == i;
    KthOfSort(values, i + 1);
    if w > 0.0 {
      assert i + 1 < |d|;
      KthOfSort(values, i + 2);
    } else {
      LerpNowhere(d[i], d[UpperIndex(|d|, i)]);
    }
  }

  lemma LerpNowhere(a: real, b: real)
    ensures Lerp(a, b, 0.0) == a == Lerp(a, a, 0.0)
  {
  }

  // ---- Summaries ----

  /** The value is reported, rounded to six digits. */
  predicate Reports(o: Option<real>, x: real) {
    o == Some(Round6(x))
  }

  predicate IsMean(values: seq<real>, m: real) {
    m * |values| as real == SumBy(values, Itself())
  }

  lemma {:induction false} ListMean(values: seq<real>)
    requires values != []
    ensures IsMean(values, Mean(values))
  {
    QuotientTimes(SumBy(values, Itself()), |values| as real);
  }

  lemma {:induction false} MeanOfPermutation(s: seq<real>, t: seq<real>, m: real)
    requires multiset(s) == multiset(t) && |s| == |t| && IsMean(s, m)
    ensures IsMean(t, m)
  {
    SumPermutation(s, t, Itself());
  }

  lemma {:induction false} MeanExact(values: seq<real>)
    requires values != []
    ensures IsMean(values, Mean(Sort(values)))
  {
    ListMean(Sort(values));
    MeanOfPermutation(Sort(values), values, Mean(Sort(values)));
  }

  lemma QuotientTimes(x: real, n: real)
    requires n != 0.0
    ensures x / n * n == x
  {
  }

  lemma {:induction false} SortTwice(values: seq<real>)
    ensures Sort(Sort(values)) == Sort(values)
  {
    SortedUnique(Sort(Sort(values)), Sort(values));
  }

  ghost predicate ReportsMedian(values: seq<real>, o: Option<real>) {
    exists m :: IsMedian(values, m) && Reports(o, m)
  }

  ghost predicate ReportsMean(values: seq<real>, o: Option<real>) {
    exists m :: IsMean(values, m) && Reports(o, m)
  }

  ghost predicate ReportsKth(values: seq<real>, k: int, o: Option<real>) {
    exists x :: IsKth(values, k, x) && Reports(o, x)
  }

  ghost predicate ReportsPercentile(values: seq<real>, fraction: real, o: Option<real>) {
    exists i, w, p :: Splits(|values|, fraction, i, w) && Interpolates(values, i, w, p) && Reports(o, p)
  }

  lemma {:induction false} SomePercentile(values: seq<real>, fraction: real)
    requires values != [] && 0.0 <= fraction <= 1.0
    ensures ReportsPercentile(values, fraction, Some(Round6(Percentile(Sort(values), fraction))))
  {
    var p := Position(|values|, fraction);
    var i, w := p.Floor, p - p.Floor as real;
    assert Splits(|values|, fraction, i, w);
    PercentileExact(values, fraction, i, w);
    assert Reports(Some(Round6(Percentile(Sort(values), fraction))), Percentile(Sort(values), fraction));
  }

  lemma {:induction false} SummaryParts(values: seq<real>)
    requires values != []
    ensures var s, d := Describe(values), Sort(values);
            && s.n == |values| && Reports(s.median, Median(d)) && Reports(s.mean, Mean(d))
            && Reports(s.min, d[0]) && Reports(s.max, d[|values| - 1])
            && s.p95 == if |values| >= 20 then Some(Round6(Percentile(d, 0.95))) else None
  {
  }

  lemma {:induction false} SortedMedianExact(values: seq<real>)
    requires values != []
    ensures IsMedian(values, Median(Sort(values)))
  {
    SortTwice(values);
    MedianOfAll(values, Sort(values));
  }

  lemma {:induction false} ReportedKth(values: seq<real>, k: int, o: Option<real>, d: seq<real>)
    requires d == Sort(values) && 1 <= k <= |d| && Reports(o, d[k - 1])
    ensures ReportsKth(values, k, o)
  {
    KthOfSort(values, k);
  }

  /** Every number of a summary, up to its rounding; the 95th percentile from twenty values on. */
  lemma {:induction false} DescribeExact(values: seq<real>)
    requires values != []
    ensures var s := Describe(values);
            && s.n == |values| && ReportsMedian(values, s.median) && ReportsMean(values, s.mean)
            && ReportsKth(values, 1, s.min) && ReportsKth(values, |values|, s.max)
            && (if |values| >= 20 then ReportsPercentile(values, 0.95, s.p95) else s.p95.None?)
  {
    SummaryParts(values);
    SortedMedianExact(values);
    MeanExact(values);
    ReportedKth(values, 1, Describe(values).min, Sort(values));
    ReportedKth(values, |values|, Describe(values).max, Sort(values));
    SomePercentile(values, 0.95);
  }

  /** The bounds of a bootstrap interval cut equal tails off the estimates. */
  lemma {:induction false} BootstrapExact(data: seq<real>, statistic: seq<real> -> real, confidence: real,
                                          draws: seq<seq<nat>>)
    requires Draws(draws, |data|)
    ensures var b, e := BootstrapInterval(data, statistic, confidence, draws), Estimates(data, statistic, draws);
            var tail := (1.0 - confidence) / 2.0;
            && (b.TooFewValues? <==> |data| < 10)
            && (b.Interval? <==> |data| >= 10 && 0.0 < confidence < 1.0 && |draws| >= 100)
            && (b.Interval? ==>
                  ReportsPercentile(e, tail, Some(b.lower)) && ReportsPercentile(e, 1.0 - tail, Some(b.upper)))
  {
    if BootstrapInterval(data, statistic, confidence, draws).Interval? {
      IntervalTails(data, statistic, confidence, draws, (1.0 - confidence) / 2.0);
    }
  }

  lemma {:induction false} IntervalTails(data: seq<real>, statistic: seq<real> -> real, confidence: real,
                                         draws: seq<seq<nat>>, tail: real)
    requires Draws(draws, |data|) && BootstrapInterval(data, statistic, confidence, draws).Interval?
    requires tail == (1.0 - confidence) / 2.0
    ensures var b, e := BootstrapInterval(data, statistic, confidence, draws), Estimates(data, statistic, draws);
            ReportsPercentile(e, tail, Some(b.lower)) && ReportsPercentile(e, 1.0 - tail, Some(b.upper))
  {
    IntervalIs(data, statistic, confidence, draws, tail);
    SomePercentile(Estimates(data, statistic, draws), tail);
    SomePercentile(Estimates(data, statistic, draws), 1.0 - tail);
  }

  lemma {:induction false} IntervalIs(data: seq<real>, statistic: seq<real> -> real, confidence: real,
                                      draws: seq<seq<nat>>, tail: real)
    requires Draws(draws, |data|) && BootstrapInterval(data, statistic, confidence, draws).Interval?
    requires tail == (1.0 - confidence) / 2.0
    ensures var e := Sort(Estimates(data, statistic, draws));
            && e != [] && 0.0 <= tail <= 1.0
            && BootstrapInterval(data, statistic, confidence, draws)
               == Interval(Round6(Percentile(e, tail)), Round6(Percentile(e, 1.0 - tail)))
  {
  }

  // ---- Which values are flagged ----

  lemma OverQuotient(x: real, y: real, k: real)
    requires y > 0.0
    ensures x / y > k <==> x > k * y
  {
    assert x / y * y == x;
    if x / y > k {
      var c := MulPositive(x / y - k, y);
      assert (x / y - k) * y == x - k * y;
    } else {
      MulMonotone(y, x / y, k);
    }
  }

  lemma SameQuotient(x: real, y: real, n: real)
    requires n > 0.0 && x * n == y * n
    ensures x == y
  {
    if x > y {
      var c := MulPositive(x - y, n);
    } else if x < y {
      var c := MulPositive(y - x, n);
    }
  }

  lemma {:induction false} MeanUnique(values: seq<real>, m: real)
    requires values != [] && IsMean(values, m)
    ensures m == Mean(values)
  {
    ListMean(values);
    SameQuotient(m, Mean(values), |values| as real);
  }

  /** Farther than k deviations from m. */
  predicate Far(m: real, sigma: real, k: real, v: real) {
    Abs(v - m) > k * sigma
  }

  lemma FarExactly(m: real, sigma: real, k: real, v: real)
    requires sigma > 0.0
    ensures FarFrom(m, sigma, k)(v) <==> Far(m, sigma, k, v)
  {
    OverQuotient(Abs(v - m), sigma, k);
  }

  /** A value is flagged exactly when there are two values, they are spread, and it is more than k deviations away. */
  lemma {:induction false} ZScoreExact(values: seq<real>, k: real, sigma: real, m: real, i: nat)
    requires IsDeviation(sigma, values) && IsMean(values, m) && i < |values|
    ensures |ZScore(values, k, sigma)| == |values|
    ensures ZScore(values, k, sigma)[i] <==> |values| >= 2 && sigma > 0.0 && Far(m, sigma, k, values[i])
  {
    MeanUnique(values, m);
    if |values| >= 2 && sigma > 0.0 {
      FarExactly(m, sigma, k, values[i]);
    }
  }

  /** The median distance from the median. */
  ghost predicate IsMad(values: seq<real>, med: real, mad: real) {
    IsMedian(values, med) && IsMedian(Map(Distance(med), values), mad)
  }

  lemma {:induction false} MadUnique(values: seq<real>, med: real, mad: real)
    requires values != [] && IsMad(values, med, mad)
    ensures med == Median(values) && mad == Mad(values)
  {
    MedianUnique(values, med);
    MedianUnique(Map(Distance(med), values), mad);
  }

  lemma ScoreExactly(med: real, mad: real, k: real, v: real)
    requires mad > 0.0
    ensures ModifiedScoreAbove(med, mad, k)(v) <==> 0.6745 * Abs(v - med) > k * mad
  {
    OverQuotient(0.6745 * Abs(v - med), mad, k);
    AbsOfQuotient(v - med, mad);
  }

  lemma AbsOfQuotient(d: real, mad: real)
    requires mad > 0.0
    ensures Abs(0.6745 * d / mad) == 0.6745 * Abs(d) / mad
  {
    var q := 0.6745 * d / mad;
    assert q * mad == 0.6745 * d;
    if q < 0.0 {
      MulMonotone(mad, q, 0.0);
      assert (-q) * mad == -(q * mad);
      DivideCancel(-q, mad);
    } else {
      MulMonotone(mad, 0.0, q);
    }
  }

  /** Flagged exactly when 0.6745 times the distance from the median is over k median distances, which are not zero. */
  lemma {:induction false} MadExact(values: seq<real>, k: real, med: real, mad: real, i: nat)
    requires i < |values| && IsMad(values, med, mad)
    ensures |MadRule(values, k)| == |values|
    ensures MadRule(values, k)[i] <==>
              |values| >= 2 && mad > 0.0 && 0.6745 * Abs(values[i] - med) > k * mad
  {
    MadUnique(values, med, mad);
    MadPositive(values);
    if |values| >= 2 && mad > 0.0 {
      ScoreExactly(med, mad, k, values[i]);
    }
  }

  /** Beyond a quartile by more than k times the distance of the quartiles. */
  predicate BeyondFence(q: Quartiles, k: real, v: real) {
    q.q1 - v > k * (q.q3 - q.q1) || v - q.q3 > k * (q.q3 - q.q1)
  }

  /** Flagged exactly when there are four values, the quartiles differ, and it lies beyond the fence. */
  lemma {:induction false} IqrExact(values: seq<real>, k: real, q: Quartiles, i: nat)
    requires i < |values| && (|values| >= 4 ==> AreQuartiles(values, q))
    ensures |IqrRule(values, k)| == |values|
    ensures IqrRule(values, k)[i] <==> |values| >= 4 && q.q1 != q.q3 && BeyondFence(q, k, values[i])
  {
    if |values| >= 4 {
      QuartilesUnique(values, q);
      FenceExactly(q, k, values[i]);
    }
  }

  lemma FenceExactly(q: Quartiles, k: real, v: real)
    ensures q.Fence(k)(v) <==> BeyondFence(q, k, v)
  {
  }
}
