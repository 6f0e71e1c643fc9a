/** Interpolated percentiles, summaries and bootstrap intervals of the evaluation package, over exact reals. */
module Percentiles {
  import opened Counting
  import opened RealArithmetic
  import opened Sorting

  const MIN_N_FOR_P95 := 20
  const MIN_N_FOR_BOOTSTRAP := 10
  const SIX_DIGITS := 1000000.0

  function Lerp(a: real, b: real, w: real): real {
    a * (1.0 - w) + b * w
  }

  function UpperIndex(n: nat, lower: nat): (i: nat)
    requires lower < n
    ensures lower <= i < n
  {
    if lower + 1 < n - 1 then lower + 1 else n - 1
  }

  /** The value at a fractional index; `int` truncates a non-negative number. */
  function At(d: seq<real>, position: real): real
    requires d != [] && 0.0 <= position <= (|d| - 1) as real
  {
    var lower := position.Floor;
    Lerp(d[lower], d[UpperIndex(|d|, lower)], position - lower as real)
  }

  function Scale(m: real, fraction: real): real {
    m * fraction
  }

  lemma ScaleMonotone(m: real, f: real, g: real)
    requires m >= 0.0 && f <= g
    ensures Scale(m, f) <= Scale(m, g)
  {
    MulMonotone(m, f, g);
  }

  lemma ScaleInRange(m: real, fraction: real)
    requires m >= 0.0 && 0.0 <= fraction <= 1.0
    ensures 0.0 <= Scale(m, fraction) <= m
  {
    MulMonotone(m, 0.0, fraction);
    MulMonotone(m, fraction, 1.0);
  }

  function Position(n: nat, fraction: real): (p: real)
    requires n > 0 && 0.0 <= fraction <= 1.0
    ensures 0.0 <= p <= (n - 1) as real
  {
    ScaleInRange((n - 1) as real, fraction);
    Scale((n - 1) as real, fraction)
  }

  function Percentile(d: seq<real>, fraction: real): real
    requires d != [] && 0.0 <= fraction <= 1.0
  {
    At(d, Position(|d|, fraction))
  }

  lemma LerpBetween(a: real, b: real, w: real)
    requires a <= b && 0.0 <= w <= 1.0
    ensures a <= Lerp(a, b, w) <= b
  {
    assert Lerp(a, b, w) == a + (b - a) * w;
    ScaleInRange(b - a, w);
  }

  lemma LerpMonotone(a: real, b: real, w: real, w': real)
    requires a <= b && w <= w'
    ensures Lerp(a, b, w) <= Lerp(a, b, w')
  {
    assert Lerp(a, b, w) == a + (b - a) * w && Lerp(a, b, w') == a + (b - a) * w';
    MulMonotone(b - a, w, w');
  }

  lemma {:induction false} AtBetween(d: seq<real>, p: real)
    requires d != [] && Sorted(d) && 0.0 <= p <= (|d| - 1) as real
    ensures d[p.Floor] <= At(d, p) <= d[UpperIndex(|d|, p.Floor)]
  {
    var upper := UpperIndex(|d|, p.Floor);
    assert d[p.Floor] <= d[upper];
    LerpBetween(d[p.Floor], d[upper], p - p.Floor as real);
  }

  lemma {:induction false} AtMonotone(d: seq<real>, p: real, q: real)
    requires d != [] && Sorted(d) && 0.0 <= p <= q <= (|d| - 1) as real
    ensures At(d, p) <= At(d, q)
  {
    var i, j := p.Floor, q.Floor;
    if i == j {
      var upper := UpperIndex(|d|, i);
      assert d[i] <= d[upper];
      LerpMonotone(d[i], d[upper], p - i as real, q - i as real);
    } else {
      AtBetween(d, p);
      AtBetween(d, q);
      assert d[UpperIndex(|d|, i)] <= d[j];
    }
  }

  /** A percentile lies between its two neighbours. */
  lemma {:induction false} PercentileBetween(d: seq<real>, fraction: real)
    requires d != [] && Sorted(d) && 0.0 <= fraction <= 1.0
    ensures var lower := Position(|d|, fraction).Floor;
            d[lower] <= Percentile(d, fraction) <= d[UpperIndex(|d|, lower)]
  {
    AtBetween(d, Position(|d|, fraction));
  }

  lemma {:induction false} PercentileInRange(d: seq<real>, fraction: real)
    requires d != [] && Sorted(d) && 0.0 <= fraction <= 1.0
    ensures d[0] <= Percentile(d, fraction) <= d[|d| - 1]
  {
    PercentileBetween(d, fraction);
  }

  lemma {:induction false} PercentileMonotone(d: seq<real>, f: real, g: real)
    requires d != [] && Sorted(d) && 0.0 <= f <= g <= 1.0
    ensures Percentile(d, f) <= Percentile(d, g)
  {
    ScaleMonotone((|d| - 1) as real, f, g);
    AtMonotone(d, Position(|d|, f), Position(|d|, g));
  }

  lemma {:induction false} PercentileIsMedian(d: seq<real>)
    requires d != []
    ensures Percentile(d, 0.5) == MedianOfSorted(d)
  {
    var n, h := |d|, (|d| - 1) / 2;
    if n % 2 == 1 {
      assert Position(n, 0.5) == h as real;
    } else {
      assert Position(n, 0.5) == h as real + 0.5;
    }
    assert Position(n, 0.5).Floor == h;
  }

  lemma {:induction false} PercentileEnds(d: seq<real>)
    requires d != []
    ensures Percentile(d, 0.0) == d[0] && Percentile(d, 1.0) == d[|d| - 1]
  {
    assert Position(|d|, 0.0) == 0.0 && Position(|d|, 1.0) == (|d| - 1) as real;
  }

  // ---- describe ----

  datatype Summary = Summary(n: nat, median: Option<real>, p95: Option<real>, mean: Option<real>,
                             min: Option<real>, max: Option<real>)

  function Round6(x: real): real {
    RoundAt(x, SIX_DIGITS)
  }

  function Describe(values: seq<real>): Summary {
    var d := Sort(values);
    if d == [] then Summary(0, None, None, None, None, None)
    else
      Summary(|d|,
              Some(Round6(Median(d))),
              if |d| >= MIN_N_FOR_P95 then Some(Round6(Percentile(d, 0.95))) else None,
              Some(Round6(Mean(d))),
              Some(Round6(d[0])),
              Some(Round6(d[|d| - 1])))
  }

  lemma {:induction false} SumBetween(s: seq<real>, lo: real, hi: real)
    requires forall i :: 0 <= i < |s| ==> lo <= s[i] <= hi
    ensures lo * |s| as real <= SumBy(s, Itself()) <= hi * |s| as real
  {
    if s != [] {
      SumBetween(s[..|s| - 1], lo, hi);
    }
  }

  lemma {:induction false} MeanBetween(s: seq<real>, lo: real, hi: real)
    requires s != [] && forall i :: 0 <= i < |s| ==> lo <= s[i] <= hi
    ensures lo <= Mean(s) <= hi
  {
    var n := |s| as real;
    SumBetween(s, lo, hi);
    DivideMonotone(lo * n, SumBy(s, Itself()), n);
    DivideMonotone(SumBy(s, Itself()), hi * n, n);
    DivideCancel(lo, n);
    DivideCancel(hi, n);
  }

  lemma {:induction false} MedianIsPercentile(d: seq<real>)
    requires d != [] && Sorted(d)
    ensures Median(d) == Percentile(d, 0.5)
  {
    SortedUnique(Sort(d), d);
    PercentileIsMedian(d);
  }

  lemma {:induction false} SortedOrdered(d: seq<real>)
    requires d != [] && Sorted(d)
    ensures d[0] <= Median(d) <= Percentile(d, 0.95) <= d[|d| - 1]
    ensures d[0] <= Mean(d) <= d[|d| - 1]
  {
    MedianIsPercentile(d);
    PercentileInRange(d, 0.5);
    PercentileInRange(d, 0.95);
    PercentileMonotone(d, 0.5, 0.95);
    MeanBetween(d, d[0], d[|d| - 1]);
  }

  /** A summary is ordered: min <= median <= p95 <= max, and the mean lies between min and max. */
  lemma {:induction false} DescribeOrdered(values: seq<real>)
    requires values != []
    ensures var s := Describe(values);
            s.n == |values| && s.min.Some? && s.median.Some? && s.mean.Some? && s.max.Some?
            && s.min.value <= s.median.value <= s.max.value && s.min.value <= s.mean.value <= s.max.value
            && (s.p95.Some? <==> |values| >= MIN_N_FOR_P95)
            && (s.p95.Some? ==> s.median.value <= s.p95.value <= s.max.value)
  {
    var d := Sort(values);
    SortedOrdered(d);
    SummaryRounds(d[0], Median(d), Percentile(d, 0.95), d[|d| - 1]);
    SummaryRounds(d[0], Mean(d), Mean(d), d[|d| - 1]);
  }

  lemma SummaryRounds(a: real, b: real, c: real, d: real)
    requires a <= b <= c <= d
    ensures Round6(a) <= Round6(b) <= Round6(c) <= Round6(d)
  {
    RoundAtMonotone(a, b, SIX_DIGITS);
    RoundAtMonotone(b, c, SIX_DIGITS);
    RoundAtMonotone(c, d, SIX_DIGITS);
  }

  /** A summary does not depend on the order of the measurements. */
  lemma {:induction false} DescribePermutation(s: seq<real>, t: seq<real>)
    requires multiset(s) == multiset(t)
    ensures Describe(s) == Describe(t)
  {
    SortPermutation(s, t);
  }

  // ---- bootstrap_interval ----

  datatype Bootstrap = TooFewValues | BadArguments | Interval(lower: real, upper: real)

  /** The draws of the generator: for each resample, an index into the data for each of its places. */
  ghost predicate Draws(draws: seq<seq<nat>>, n: nat) {
    forall i :: 0 <= i < |draws| ==> |draws[i]| == n && forall j :: 0 <= j < n ==> draws[i][j] < n
  }

  function Resample(data: seq<real>, draw: seq<nat>): (r: seq<real>)
    requires |draw| == |data| && forall j :: 0 <= j < |draw| ==> draw[j] < |data|
    ensures |r| == |data| && forall j :: 0 <= j < |r| ==> r[j] in data
  {
    seq(|data|, j requires 0 <= j < |data| => data[draw[j]])
  }

  function Estimates(data: seq<real>, statistic: seq<real> -> real, draws: seq<seq<nat>>): (e: seq<real>)
    requires Draws(draws, |data|)
    ensures |e| == |draws|
  {
    seq(|draws|, i requires 0 <= i < |draws| => statistic(Resample(data, draws[i])))
  }

  /** `|draws|` is the number of resamples. */
  function BootstrapInterval(data: seq<real>, statistic: seq<real> -> real, confidence: real,
                             draws: seq<seq<nat>>): Bootstrap
    requires Draws(draws, |data|)
  {
    if |data| < MIN_N_FOR_BOOTSTRAP then TooFewValues
    else if !(0.0 < confidence < 1.0) || |draws| < 100 then BadArguments
    else
      var estimates, tail := Sort(Estimates(data, statistic, draws)), (1.0 - confidence) / 2.0;
      Interval(Round6(Percentile(estimates, tail)), Round6(Percentile(estimates, 1.0 - tail)))
  }

  /** Whatever the statistic and the draws, the bounds are in order and within any range that holds every estimate. */
  lemma {:induction false} SortedWithin(s: seq<real>, lo: real, hi: real)
    requires s != [] && forall i :: 0 <= i < |s| ==> lo <= s[i] <= hi
    ensures |Sort(s)| == |s| && lo <= Sort(s)[0] && Sort(s)[|s| - 1] <= hi
  {
    var e := Sort(s);
    assert |e| == |s|;
    assert e[0] in multiset(s) && e[|e| - 1] in multiset(s);
  }

  lemma {:induction false} TailsOrdered(e: seq<real>, tail: real, lo: real, hi: real)
    requires e != [] && Sorted(e) && lo <= e[0] && e[|e| - 1] <= hi && 0.0 <= tail <= 1.0 - tail
    ensures Round6(lo) <= Round6(Percentile(e, tail)) <= Round6(Percentile(e, 1.0 - tail)) <= Round6(hi)
  {
    PercentileMonotone(e, tail, 1.0 - tail);
    PercentileInRange(e, tail);
    PercentileInRange(e, 1.0 - tail);
    SummaryRounds(lo, Percentile(e, tail), Percentile(e, 1.0 - tail), hi);
  }

  lemma {:induction false} BootstrapOrdered(data: seq<real>, statistic: seq<real> -> real, confidence: real,
                                            draws: seq<seq<nat>>, lo: real, hi: real)
    requires Draws(draws, |data|)
    requires forall i :: 0 <= i < |draws| ==> lo <= Estimates(data, statistic, draws)[i] <= hi
    ensures var b := BootstrapInterval(data, statistic, confidence, draws);
            b.Interval? ==> Round6(lo) <= b.lower <= b.upper <= Round6(hi)
  {
    if BootstrapInterval(data, statistic, confidence, draws).Interval? {
      SortedWithin(Estimates(data, statistic, draws), lo, hi);
      TailsOrdered(Sort(Estimates(data, statistic, draws)), (1.0 - confidence) / 2.0, lo, hi);
    }
  }

  function MedianOrZero(s: seq<real>): real {
    if s == [] then 0.0 else Median(s)
  }

  lemma {:induction false} MedianBetweenBounds(s: seq<real>, lo: real, hi: real)
    requires s != [] && forall x :: x in s ==> lo <= x <= hi
    ensures lo <= Median(s) <= hi
  {
    var d := Sort(s);
    forall i | 0 <= i < |d| ensures lo <= d[i] <= hi {
      assert d[i] in multiset(s);
      assert d[i] in s;
    }
    MedianIsPercentile(d);
    PercentileInRange(d, 0.5);
    SortedUnique(Sort(d), d);
  }

  /** For the median, the interval lies within the range of the data. */
  lemma {:induction false} BootstrapMedianInRange(data: seq<real>, confidence: real, draws: seq<seq<nat>>, lo: real,
                                                  hi: real)
    requires Draws(draws, |data|) && forall x :: x in data ==> lo <= x <= hi
    ensures var b := BootstrapInterval(data, MedianOrZero, confidence, draws);
            b.Interval? ==> Round6(lo) <= b.lower <= b.upper <= Round6(hi)
  {
    if data != [] {
      forall i | 0 <= i < |draws| ensures lo <= Estimates(data, MedianOrZero, draws)[i] <= hi {
        var r := Resample(data, draws[i]);
        forall x | x in r ensures lo <= x <= hi {
          assert x in data;
        }
        MedianBetweenBounds(r, lo, hi);
        assert Estimates(data, MedianOrZero, draws)[i] == MedianOrZero(r);
      }
      BootstrapOrdered(data, MedianOrZero, confidence, draws, lo, hi);
    }
  }
}
