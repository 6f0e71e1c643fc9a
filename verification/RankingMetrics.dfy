/**
 * Precision, recall, NDCG and review volume of
 * evaluation/research/prioritization.py and evaluation/workload/experiment.py.
 */
module RankingMetrics {
  import opened Counting
  import opened RealArithmetic

  /** The discount of a rank: any positive, strictly decreasing function, such as 1 / log2(rank + 2). */
  ghost predicate Discount(d: nat -> real) {
    (forall r :: d(r) > 0.0) && (forall q, r :: q < r ==> d(q) > d(r))
  }

  function TopN(n: nat, kPercent: int): (top: nat)
    ensures top >= 1
  {
    var r := RoundHalfEven((n * kPercent) as real / 100.0);
    if r > 1 then r else 1
  }

  /** `s[:m]`, which Python clips to the length of the list. */
  function Take<T>(s: seq<T>, m: nat): (r: seq<T>)
    ensures |r| == if m < |s| then m else |s|
  {
    if m < |s| then s[..m] else s
  }

  function Hits(ordered: seq<string>, relevant: set<string>, top: nat): (hits: seq<bool>)
    ensures |hits| == |Take(ordered, top)|
    ensures forall i :: 0 <= i < |hits| ==> hits[i] == (ordered[i] in relevant)
  {
    seq(|Take(ordered, top)|, i requires 0 <= i < |Take(ordered, top)| => ordered[i] in relevant)
  }

  function Dcg(hits: seq<bool>, d: nat -> real): real {
    if hits == [] then 0.0
    else Dcg(hits[..|hits| - 1], d) + (if hits[|hits| - 1] then d(|hits| - 1) else 0.0)
  }

  function Ideal(m: nat, d: nat -> real): real {
    if m == 0 then 0.0 else Ideal(m - 1, d) + d(m - 1)
  }

  function Min(a: nat, b: nat): nat {
    if a < b then a else b
  }

  datatype Metrics = Metrics(topN: nat, precision: real, recall: Option<real>, ndcg: Option<real>)

  function Found(hits: seq<bool>): nat {
    CountBy(hits, b => b)
  }

  function MetricsAt(ordered: seq<string>, relevant: set<string>, d: nat -> real, k: int): Metrics {
    var top := TopN(|ordered|, k);
    var hits := Hits(ordered, relevant, top);
    var ideal := Ideal(Min(top, |relevant|), d);
    Metrics(top,
            Found(hits) as real / top as real,
            if relevant != {} then Some(Found(hits) as real / |relevant| as real) else None,
            if ideal != 0.0 then Some(Dcg(hits, d) / ideal) else None)
  }

  /** The positions, counted from one, that hold a relevant entity. */
  function Positions(ordered: seq<string>, relevant: set<string>): seq<nat> {
    if ordered == [] then []
    else
      var n := |ordered| - 1;
      Positions(ordered[..n], relevant) + (if ordered[n] in relevant then [n + 1] else [])
  }

  function MaxOr(s: seq<nat>, default: nat): nat {
    if s == [] then default
    else if |s| == 1 then s[0]
    else
      var rest := MaxOr(s[..|s| - 1], default);
      if s[|s| - 1] > rest then s[|s| - 1] else rest
  }

  /** The `max(..., default=0)` form of prioritization.py. */
  function ReviewVolume(ordered: seq<string>, relevant: set<string>): nat {
    MaxOr(Positions(ordered, relevant), 0)
  }

  method ComputeRankingMetrics(ordered: seq<string>, relevant: set<string>, d: nat -> real, ks: seq<int>)
    returns (out: map<int, Metrics>, volume: nat)
    ensures out == map k | k in ks :: MetricsAt(ordered, relevant, d, k)
    ensures volume == ReviewVolume(ordered, relevant)
  {
    var n := |ordered|;
    out := map[];
    for i := 0 to |ks|
      invariant out == map k | k in ks[..i] :: MetricsAt(ordered, relevant, d, k)
    {
      var k := ks[i];
      var top := TopN(n, k);
      var hits := Hits(ordered, relevant, top);
      var dcg := Dcg(hits, d);
      var ideal := Ideal(Min(top, |relevant|), d);
      var recall := if relevant != {} then Some(Found(hits) as real / |relevant| as real) else None;
      var ndcg := if ideal != 0.0 then Some(dcg / ideal) else None;
      out := out[k := Metrics(top, Found(hits) as real / top as real, recall, ndcg)];
      assert forall x :: x in ks[..i + 1] <==> x in ks[..i] || x == k;
    }
    assert ks[..|ks|] == ks;
    volume := MaxOr(Positions(ordered, relevant), 0);
  }

  /** The loop form of experiment.py. */
  method ReviewVolumeToFindAll(ordered: seq<string>, relevant: set<string>) returns (lastPos: nat)
    ensures lastPos == ReviewVolume(ordered, relevant)
  {
    if relevant == {} {
      VolumeIsLast(ordered, relevant);
      return 0;
    }
    lastPos := 0;
    for i := 0 to |ordered|
      invariant lastPos == ReviewVolume(ordered[..i], relevant)
    {
      VolumeStep(ordered[..i], ordered[i], relevant);
      assert ordered[..i + 1] == ordered[..i] + [ordered[i]];
      if ordered[i] in relevant {
        lastPos := i + 1;
      }
    }
    assert ordered[..|ordered|] == ordered;
  }

  /** `_recall_at_k`: found within the first `topN`, over the number of pathological entities. */
  function RecallAtK(ordered: seq<string>, relevant: set<string>, topN: nat): real {
    if relevant == {} then 0.0
    else CountBy(Take(ordered, topN), id => id in relevant) as real / |relevant| as real
  }

  // ---- The two review volumes agree, and are the least complete prefix ----

  lemma {:induction false} PositionsBound(ordered: seq<string>, relevant: set<string>)
    ensures forall p :: p in Positions(ordered, relevant) ==> p <= |ordered|
  {
    if ordered != [] {
      PositionsBound(ordered[..|ordered| - 1], relevant);
    }
  }

  lemma {:induction false} MaxOrIn(s: seq<nat>, default: nat)
    requires s != []
    ensures MaxOr(s, default) in s
  {
    if |s| > 1 {
      MaxOrIn(s[..|s| - 1], default);
    }
  }

  lemma {:induction false} VolumeStep(ordered: seq<string>, e: string, relevant: set<string>)
    ensures ReviewVolume(ordered + [e], relevant) ==
              if e in relevant then |ordered| + 1 else ReviewVolume(ordered, relevant)
  {
    var all := ordered + [e];
    assert all[..|all| - 1] == ordered;
    if e in relevant {
      var p := Positions(ordered, relevant);
      assert Positions(all, relevant) == p + [|ordered| + 1];
      PositionsBound(ordered, relevant);
      if p != [] {
        MaxOrIn(p, 0);
        assert (p + [|ordered| + 1])[..|p|] == p;
      }
    } else {
      assert Positions(all, relevant) == Positions(ordered, relevant);
    }
  }

  /** Nothing relevant lies behind the review volume, and the last entity within it is relevant. */
  lemma {:induction false} VolumeIsLast(ordered: seq<string>, relevant: set<string>)
    ensures ReviewVolume(ordered, relevant) <= |ordered|
    ensures forall i :: ReviewVolume(ordered, relevant) <= i < |ordered| ==> ordered[i] !in relevant
    ensures ReviewVolume(ordered, relevant) > 0 ==> ordered[ReviewVolume(ordered, relevant) - 1] in relevant
  {
    if ordered != [] {
      var init, last := ordered[..|ordered| - 1], ordered[|ordered| - 1];
      VolumeIsLast(init, relevant);
      VolumeStep(init, last, relevant);
      assert ordered == init + [last];
    }
  }

  ghost predicate Complete(ordered: seq<string>, relevant: set<string>, m: nat) {
    forall x :: x in relevant ==> x in Take(ordered, m)
  }

  /** The review volume is the least length of a prefix that holds every relevant entity. */
  lemma {:induction false} VolumeIsLeastCompletePrefix(ordered: seq<string>, relevant: set<string>, m: nat)
    requires Distinct(ordered) && forall x :: x in relevant ==> x in ordered
    ensures Complete(ordered, relevant, m) <==> ReviewVolume(ordered, relevant) <= m
  {
    var v := ReviewVolume(ordered, relevant);
    VolumeIsLast(ordered, relevant);
    if v <= m {
      forall x | x in relevant ensures x in Take(ordered, m) {
        var i :| 0 <= i < |ordered| && ordered[i] == x;
        assert i < v;
        assert Take(ordered, m)[i] == x;
      }
    } else {
      assert ordered[v - 1] !in ordered[..m];
    }
  }

  // ---- Recall ----

  lemma {:induction false} FoundInPrefix(ordered: seq<string>, relevant: set<string>, top: nat)
    ensures Found(Hits(ordered, relevant, top)) == CountBy(Take(ordered, top), id => id in relevant)
  {
    var hits, prefix := Hits(ordered, relevant, top), Take(ordered, top);
    CountMonotone2(hits, prefix, b => b, id => id in relevant);
    CountMonotone2(prefix, hits, id => id in relevant, b => b);
  }

  /** The two recall functions agree wherever both report a number. */
  lemma {:induction false} RecallsAgree(ordered: seq<string>, relevant: set<string>, d: nat -> real, k: int)
    requires relevant != {}
    ensures MetricsAt(ordered, relevant, d, k).recall == Some(RecallAtK(ordered, relevant, TopN(|ordered|, k)))
  {
    FoundInPrefix(ordered, relevant, TopN(|ordered|, k));
  }

  lemma {:induction false} FoundAll(ordered: seq<string>, relevant: set<string>, top: nat)
    ensures Found(Hits(ordered, relevant, top)) <= top
    ensures Found(Hits(ordered, relevant, top)) == top <==>
              top <= |ordered| && forall i :: 0 <= i < top ==> ordered[i] in relevant
  {
    CountBound(Hits(ordered, relevant, top), b => b);
  }

  /** Precision is at most one, and one exactly when the whole reviewed part is there and relevant. */
  lemma {:induction false} PrecisionIsOne(ordered: seq<string>, relevant: set<string>, d: nat -> real, k: int)
    ensures var m := MetricsAt(ordered, relevant, d, k);
            m.precision <= 1.0
            && (m.precision == 1.0 <==> m.topN <= |ordered| && forall i :: 0 <= i < m.topN ==> ordered[i] in relevant)
  {
    var top := TopN(|ordered|, k);
    FoundAll(ordered, relevant, top);
    FractionIsOne(Found(Hits(ordered, relevant, top)), top);
  }

  /** Precision and recall count the same finds. */
  lemma {:induction false} PrecisionAndRecall(ordered: seq<string>, relevant: set<string>, d: nat -> real, k: int)
    requires relevant != {}
    ensures var m := MetricsAt(ordered, relevant, d, k);
            m.recall.Some? && SameFinds(m.precision, m.topN as real, m.recall.value, |relevant| as real)
  {
    var m := MetricsAt(ordered, relevant, d, k);
    ShareOfBoth(Found(Hits(ordered, relevant, m.topN)) as real, m.precision, m.topN as real, m.recall.value,
                |relevant| as real);
  }

  predicate SameFinds(precision: real, top: real, recall: real, all: real) {
    precision * top == recall * all
  }

  lemma {:induction false} ShareOfBoth(found: real, precision: real, top: real, recall: real, all: real)
    requires top != 0.0 && all != 0.0 && precision == found / top && recall == found / all
    ensures SameFinds(precision, top, recall, all)
  {
    assert precision * top == found && recall * all == found;
  }

  lemma {:induction false} RecallMonotone(ordered: seq<string>, relevant: set<string>, a: nat, b: nat)
    requires a <= b
    ensures RecallAtK(ordered, relevant, a) <= RecallAtK(ordered, relevant, b)
  {
    if relevant != {} {
      var p := (id: string) => id in relevant;
      assert Take(Take(ordered, b), a) == Take(ordered, a);
      if a < |Take(ordered, b)| {
        CountPrefix(Take(ordered, b), a, p);
      }
      DivideMonotone(CountBy(Take(ordered, a), p) as real, CountBy(Take(ordered, b), p) as real, |relevant| as real);
    }
  }

  lemma {:induction false} TakeDistinct(ordered: seq<string>, m: nat)
    requires Distinct(ordered)
    ensures Distinct(Take(ordered, m))
  {
  }

  /** Recall is at most one, and one exactly from the review volume on. */
  lemma {:induction false} RecallCompleteAtVolume(ordered: seq<string>, relevant: set<string>, top: nat)
    requires Distinct(ordered) && relevant != {} && forall x :: x in relevant ==> x in ordered
    ensures RecallAtK(ordered, relevant, top) <= 1.0
    ensures RecallAtK(ordered, relevant, top) == 1.0 <==> ReviewVolume(ordered, relevant) <= top
  {
    TakeDistinct(ordered, top);
    CountDistinctIn(Take(ordered, top), relevant);
    VolumeIsLeastCompletePrefix(ordered, relevant, top);
    var found := CountBy(Take(ordered, top), x => x in relevant);
    FractionIsOne(found, |relevant|);
  }

  lemma FractionIsOne(found: nat, all: nat)
    requires found <= all && all > 0
    ensures found as real / all as real <= 1.0
    ensures found as real / all as real == 1.0 <==> found == all
  {
    var q := found as real / all as real;
    assert q * all as real == found as real;
    if found < all {
      DivideMonotone(found as real, all as real, all as real);
      assert 1.0 * all as real != found as real;
    }
  }

  lemma {:induction false} TopNMonotone(n: nat, j: int, k: int)
    requires j <= k
    ensures TopN(n, j) <= TopN(n, k)
    ensures 1 <= k <= 100 && n > 0 ==> TopN(n, k) <= n
  {
    ScaledIntegers(n, j, k);
    DivideMonotone((n * j) as real, (n * k) as real, 100.0);
    RoundHalfEvenMonotone((n * j) as real / 100.0, (n * k) as real / 100.0);
    if k <= 100 {
      ScaledIntegers(n, k, 100);
      DivideMonotone((n * k) as real, (n * 100) as real, 100.0);
      RoundHalfEvenMonotone((n * k) as real / 100.0, n as real);
      assert RoundHalfEven(n as real) == n;
    }
  }

  lemma ScaledIntegers(n: nat, j: int, k: int)
    requires j <= k
    ensures n * j <= n * k
  {
  }

  // ---- NDCG ----

  lemma {:induction false} IdealGrows(m: nat, n: nat, d: nat -> real)
    requires Discount(d) && m <= n
    ensures 0.0 <= Ideal(m, d) <= Ideal(n, d)
    ensures m < n ==> Ideal(m, d) < Ideal(n, d)
  {
    if m < n {
      IdealGrows(m, n - 1, d);
    } else if m > 0 {
      IdealGrows(m - 1, m - 1, d);
    }
  }

  /** The first `m` entries are all hits. */
  predicate LeadingHits(hits: seq<bool>, m: nat) {
    m <= |hits| && forall i :: 0 <= i < m ==> hits[i]
  }

  /** Hits at later ranks gain less, so a gain is ideal exactly when the hits come first. */
  lemma {:induction false} DcgBound(hits: seq<bool>, d: nat -> real)
    requires Discount(d)
    ensures Found(hits) <= |hits| && 0.0 <= Dcg(hits, d) <= Ideal(Found(hits), d)
    ensures Dcg(hits, d) == Ideal(Found(hits), d) <==> LeadingHits(hits, Found(hits))
  {
    CountBound(hits, b => b);
    if hits != [] {
      var init, n := hits[..|hits| - 1], |hits| - 1;
      DcgBound(init, d);
      assert Found(hits) == Found(init) + (if hits[n] then 1 else 0);
      if hits[n] && Found(init) < n {
        assert d(Found(init)) > d(n);
        assert !LeadingHits(hits, Found(hits)) by {
          if LeadingHits(hits, Found(hits)) {
            CountBound(init, b => b);
            LeadingCount(hits, Found(hits));
          }
        }
      }
    }
  }

  /** If the first m entries are hits and the last entry is one more, there are more than m hits. */
  lemma {:induction false} LeadingCount(hits: seq<bool>, m: nat)
    requires LeadingHits(hits, m) && hits != [] && hits[|hits| - 1] && m < |hits|
    ensures Found(hits) > m
  {
    CountPrefix(hits[..|hits| - 1], m, b => b);
    assert hits[..|hits| - 1][..m] == hits[..m];
    CountBound(hits[..m], b => b);
  }

  lemma {:induction false} FoundBound(ordered: seq<string>, relevant: set<string>, top: nat)
    requires Distinct(ordered)
    ensures Found(Hits(ordered, relevant, top)) <= Min(top, |relevant|)
  {
    FoundInPrefix(ordered, relevant, top);
    TakeDistinct(ordered, top);
    CountDistinctIn(Take(ordered, top), relevant);
    CountBound(Take(ordered, top), id => id in relevant);
  }

  lemma {:induction false} LeadingAll(hits: seq<bool>, m: nat)
    requires LeadingHits(hits, m) && Found(hits) <= m
    ensures Found(hits) == m
  {
    CountPrefix(hits, m, b => b);
    CountBound(hits[..m], b => b);
  }

  /**
   * NDCG is defined exactly when something is relevant, lies in [0, 1], and is one exactly when the
   * first min(top, |relevant|) entities are all relevant.
   */
  lemma {:induction false} NdcgOptimal(ordered: seq<string>, relevant: set<string>, d: nat -> real, k: int)
    requires Discount(d) && Distinct(ordered)
    ensures var m := MetricsAt(ordered, relevant, d, k);
            (m.ndcg.Some? <==> relevant != {})
            && (m.ndcg.Some? ==> 0.0 <= m.ndcg.value <= 1.0)
            && (m.ndcg.Some? ==>
                  (m.ndcg.value == 1.0 <==>
                     LeadingHits(Hits(ordered, relevant, m.topN), Min(m.topN, |relevant|))))
  {
    var top := TopN(|ordered|, k);
    var hits, m := Hits(ordered, relevant, top), Min(top, |relevant|);
    IdealGrows(0, m, d);
    if relevant != {} {
      FoundBound(ordered, relevant, top);
      DcgBound(hits, d);
      IdealGrows(Found(hits), m, d);
      if LeadingHits(hits, m) { LeadingAll(hits, m); }
      RatioBounds(Dcg(hits, d), Ideal(m, d));
    }
  }

  lemma RatioBounds(x: real, y: real)
    requires 0.0 <= x <= y && y > 0.0
    ensures 0.0 <= x / y <= 1.0
    ensures x / y == 1.0 <==> x == y
  {
    DivideMonotone(0.0, x, y);
    DivideMonotone(x, y, y);
    assert x / y * y == x;
  }

  // ---- Exactly when NDCG stays within one ----

  /** A discount that falls so slowly that m gains stay below m + 1. */
  function Flat(m: nat): nat -> real {
    (r: nat) => 1.0 + 1.0 / Scaled(m + 1, r + 1)
  }

  function Scaled(m: nat, n: nat): real {
    m as real * n as real
  }

  lemma Reciprocal(x: real, y: real)
    requires 0.0 < x < y
    ensures 0.0 < 1.0 / y < 1.0 / x
  {
    var p, q := 1.0 / x, 1.0 / y;
    assert p * x == 1.0 && q * y == 1.0;
    if q <= 0.0 {
      MulMonotone(y, q, 0.0);
    }
    if p <= q {
      MulMonotone(x, p, q);
      var excess := MulPositive(q, y - x);
    }
  }

  lemma {:induction false} ScaledGrows(m: nat, q: nat, r: nat)
    requires m > 0 && 0 < q < r
    ensures 0.0 < Scaled(m, q) < Scaled(m, r) && m as real <= Scaled(m, q)
  {
    var a := MulPositive(m as real, q as real);
    var b := MulPositive(m as real, (r - q) as real);
    assert Scaled(m, r) - Scaled(m, q) == m as real * (r - q) as real;
    MulMonotone(m as real, 1.0, q as real);
  }

  lemma {:induction false} FlatFalls(m: nat, q: nat, r: nat)
    requires q < r
    ensures Flat(m)(q) > Flat(m)(r) > 1.0
  {
    ScaledGrows(m + 1, q + 1, r + 1);
    Reciprocal(Scaled(m + 1, q + 1), Scaled(m + 1, r + 1));
  }

  lemma {:induction false} FlatBounded(m: nat, r: nat)
    ensures 1.0 < Flat(m)(r) <= 1.0 + 1.0 / (m + 1) as real
  {
    FlatFalls(m, r, r + 1);
    ScaledGrows(m + 1, r + 1, r + 2);
    if Scaled(m + 1, r + 1) > (m + 1) as real {
      Reciprocal((m + 1) as real, Scaled(m + 1, r + 1));
    }
  }

  lemma {:induction false} FlatDiscounts(m: nat)
    ensures Discount(Flat(m))
  {
    forall r ensures Flat(m)(r) > 0.0 {
      FlatBounded(m, r);
    }
    forall q, r | q < r ensures Flat(m)(q) > Flat(m)(r) {
      FlatFalls(m, q, r);
    }
  }

  lemma {:induction false} IdealAtMost(n: nat, d: nat -> real, c: real)
    requires forall r :: d(r) <= c
    ensures Ideal(n, d) <= n as real * c
  {
    if n > 0 {
      IdealAtMost(n - 1, d, c);
      assert n as real * c == (n - 1) as real * c + c;
    }
  }

  lemma {:induction false} DcgAtLeast(hits: seq<bool>, d: nat -> real)
    requires forall r :: d(r) >= 1.0
    ensures Dcg(hits, d) >= Found(hits) as real
  {
    if hits != [] {
      DcgAtLeast(hits[..|hits| - 1], d);
      assert Found(hits) == Found(hits[..|hits| - 1]) + (if hits[|hits| - 1] then 1 else 0);
    }
  }

  lemma {:induction false} BelowNext(m: nat, c: real, x: real)
    requires c == 1.0 + 1.0 / (m + 1) as real && x <= m as real * c
    ensures x < (m + 1) as real
  {
    var q := 1.0 / (m + 1) as real;
    assert q * (m + 1) as real == 1.0;
    assert m as real * c == m as real + m as real * q;
    Reciprocal((m + 1) as real, (m + 2) as real);
    assert m as real * q == 1.0 - q;
  }

  /** More hits than the ideal counts: under a flat discount they gain more than the ideal. */
  lemma {:induction false} TooManyHits(hits: seq<bool>, m: nat)
    requires Found(hits) > m
    ensures Dcg(hits, Flat(m)) > Ideal(m, Flat(m))
  {
    var d, c := Flat(m), 1.0 + 1.0 / (m + 1) as real;
    forall r ensures 1.0 <= d(r) <= c {
      FlatBounded(m, r);
    }
    IdealAtMost(m, d, c);
    BelowNext(m, c, Ideal(m, d));
    DcgAtLeast(hits, d);
  }

  /** The hits within the depth number at most as many as the ideal counts; a duplicate-free ordering sees to that. */
  predicate FewHits(ordered: seq<string>, relevant: set<string>, k: int) {
    var top := TopN(|ordered|, k);
    Found(Hits(ordered, relevant, top)) <= Min(top, |relevant|)
  }

  lemma {:induction false} NdcgIsRatio(ordered: seq<string>, relevant: set<string>, d: nat -> real, k: int)
    requires Discount(d) && relevant != {}
    ensures var m, top := MetricsAt(ordered, relevant, d, k), TopN(|ordered|, k);
            var x, y := Dcg(Hits(ordered, relevant, top), d), Ideal(Min(top, |relevant|), d);
            y > 0.0 && m.ndcg == Some(x / y) && (x / y <= 1.0 <==> x <= y)
  {
    var top := TopN(|ordered|, k);
    var x, y := Dcg(Hits(ordered, relevant, top), d), Ideal(Min(top, |relevant|), d);
    IdealGrows(0, Min(top, |relevant|), d);
    QuotientAtMostOne(x, y);
  }

  lemma QuotientAtMostOne(x: real, y: real)
    requires y > 0.0
    ensures x / y <= 1.0 <==> x <= y
  {
    assert x / y * y == x;
    if x <= y {
      DivideMonotone(x, y, y);
    } else {
      DivideMonotone(y, x, y);
    }
  }

  /**
   * Without the assumption of a duplicate-free ordering: NDCG is at most one for every discount if and only if the hits
   * within the depth number at most min(top, |relevant|). A repeated entity matters only where it makes more hits.
   */
  lemma {:induction false} NdcgAtMostOneIffFewHits(ordered: seq<string>, relevant: set<string>, k: int)
    requires relevant != {}
    ensures (forall d :: Discount(d) ==>
               MetricsAt(ordered, relevant, d, k).ndcg.Some? && MetricsAt(ordered, relevant, d, k).ndcg.value <= 1.0)
            <==> FewHits(ordered, relevant, k)
  {
    var top := TopN(|ordered|, k);
    var hits, m := Hits(ordered, relevant, top), Min(top, |relevant|);
    if FewHits(ordered, relevant, k) {
      forall d | Discount(d)
        ensures MetricsAt(ordered, relevant, d, k).ndcg.Some? && MetricsAt(ordered, relevant, d, k).ndcg.value <= 1.0
      {
        DcgBound(hits, d);
        IdealGrows(Found(hits), m, d);
        NdcgIsRatio(ordered, relevant, d, k);
      }
    } else {
      FlatDiscounts(m);
      TooManyHits(hits, m);
      NdcgIsRatio(ordered, relevant, Flat(m), k);
    }
  }

  // ---- The metrics in counts ----

  lemma {:induction false} HalfToEven(x: real, r: int)
    requires r == RoundHalfEven(x) && (x - r as real == 0.5 || r as real - x == 0.5)
    ensures r % 2 == 0
  {
  }

  /** The depth is n * k / 100 to the nearest integer, halves to the even one, and at least one. */
  lemma {:induction false} TopNNearest(n: nat, k: int)
    ensures TopN(n, k) == 1 <==> n * k < 150
    ensures TopN(n, k) > 1 ==> -50 <= n * k - 100 * TopN(n, k) <= 50
    ensures TopN(n, k) > 1 && (n * k - 100 * TopN(n, k) == 50 || n * k - 100 * TopN(n, k) == -50) ==>
              TopN(n, k) % 2 == 0
  {
    NearestHundredth(n * k, RoundHalfEven((n * k) as real / 100.0));
  }

  lemma NearestHundredth(p: int, r: int)
    requires r == RoundHalfEven(p as real / 100.0)
    ensures -50 <= p - 100 * r <= 50 && (r <= 1 <==> p < 150)
    ensures p - 100 * r == 50 || p - 100 * r == -50 ==> r % 2 == 0
  {
    var x := p as real / 100.0;
    if p - 100 * r == 50 || p - 100 * r == -50 {
      HalfToEven(x, r);
    }
  }

  /** The relevant positions within the depth. */
  function FoundAt(ordered: seq<string>, relevant: set<string>, top: nat): set<nat> {
    set i: nat | i < top && i < |ordered| && ordered[i] in relevant
  }

  lemma {:induction false} FoundNext(ordered: seq<string>, relevant: set<string>, top: nat)
    requires top < |ordered|
    ensures |FoundAt(ordered, relevant, top + 1)| ==
              |FoundAt(ordered, relevant, top)| + if ordered[top] in relevant then 1 else 0
  {
    var before := FoundAt(ordered, relevant, top);
    assert FoundAt(ordered, relevant, top + 1) == if ordered[top] in relevant then before + {top} else before;
  }

  lemma {:induction false} FoundUpTo(ordered: seq<string>, relevant: set<string>, top: nat)
    requires top <= |ordered|
    ensures |FoundAt(ordered, relevant, top)| == CountBy(ordered[..top], id => id in relevant)
  {
    if top > 0 {
      FoundUpTo(ordered, relevant, top - 1);
      FoundNext(ordered, relevant, top - 1);
      assert ordered[..top][..top - 1] == ordered[..top - 1];
    }
  }

  lemma {:induction false} FoundExactly(ordered: seq<string>, relevant: set<string>, top: nat)
    ensures |FoundAt(ordered, relevant, top)| == Found(Hits(ordered, relevant, top))
  {
    var m := if top < |ordered| then top else |ordered|;
    FoundInPrefix(ordered, relevant, top);
    FoundUpTo(ordered, relevant, m);
    assert FoundAt(ordered, relevant, m) == FoundAt(ordered, relevant, top);
    assert ordered[..|ordered|] == ordered;
  }

  /** Precision is the relevant positions over the depth, recall the same over all that is relevant. */
  lemma {:induction false} SharesExact(ordered: seq<string>, relevant: set<string>, d: nat -> real, k: int)
    ensures var m := MetricsAt(ordered, relevant, d, k); var found := |FoundAt(ordered, relevant, m.topN)| as real;
            && m.precision == found / m.topN as real
            && m.recall == if relevant == {} then None else Some(found / |relevant| as real)
  {
    FoundExactly(ordered, relevant, TopN(|ordered|, k));
  }

  /** The gain of one position. */
  function Gain(hit: bool, d: nat -> real, i: nat): real {
    if hit then d(i) else 0.0
  }

  lemma {:induction false} DcgUpdate(hits: seq<bool>, d: nat -> real, i: nat, hit: bool)
    requires i < |hits|
    ensures Dcg(hits[i := hit], d) == Dcg(hits, d) - Gain(hits[i], d, i) + Gain(hit, d, i)
  {
    var n := |hits| - 1;
    if i < n {
      DcgUpdate(hits[..n], d, i, hit);
      assert hits[i := hit][..n] == hits[..n][i := hit];
    } else {
      assert hits[i := hit][..n] == hits[..n];
    }
  }

  lemma {:induction false} NoHitsNoGain(hits: seq<bool>, d: nat -> real)
    requires Found(hits) == 0
    ensures Dcg(hits, d) == 0.0
  {
    if hits != [] {
      NoHitsNoGain(hits[..|hits| - 1], d);
    }
  }

  /** The gain that an NDCG stands for: its share of the ideal. */
  function Share(ndcg: real, ideal: real): real {
    ndcg * ideal
  }

  lemma QuotientShare(x: real, y: real)
    requires y != 0.0
    ensures Share(x / y, y) == x
  {
  }

  lemma {:induction false} NdcgShare(ordered: seq<string>, relevant: set<string>, d: nat -> real, k: int)
    requires Discount(d) && relevant != {}
    ensures var m := MetricsAt(ordered, relevant, d, k);
            m.ndcg.Some? && Share(m.ndcg.value, Ideal(Min(m.topN, |relevant|), d))
                            == Dcg(Hits(ordered, relevant, m.topN), d)
  {
    var top := TopN(|ordered|, k);
    IdealGrows(0, Min(top, |relevant|), d);
    QuotientShare(Dcg(Hits(ordered, relevant, top), d), Ideal(Min(top, |relevant|), d));
  }

  /** Without a relevant entity within the depth, NDCG is zero. */
  lemma {:induction false} NdcgZero(ordered: seq<string>, relevant: set<string>, d: nat -> real, k: int)
    requires Discount(d) && relevant != {} && FoundAt(ordered, relevant, TopN(|ordered|, k)) == {}
    ensures MetricsAt(ordered, relevant, d, k).ndcg == Some(0.0)
  {
    FoundExactly(ordered, relevant, TopN(|ordered|, k));
    NoHitsNoGain(Hits(ordered, relevant, TopN(|ordered|, k)), d);
    IdealGrows(0, Min(TopN(|ordered|, k), |relevant|), d);
  }

  /**
    * Replacing the entity at one position within the depth changes the gain by what that position gains and loses, and
    * nothing else: the two lemmas determine NDCG for every ordering.
    */
  lemma {:induction false} NdcgUpdate(ordered: seq<string>, relevant: set<string>, d: nat -> real, k: int, i: nat,
                                      e: string)
    requires Discount(d) && relevant != {} && i < |ordered| && i < TopN(|ordered|, k)
    ensures var m, n := MetricsAt(ordered, relevant, d, k), MetricsAt(ordered[i := e], relevant, d, k);
            var ideal := Ideal(Min(TopN(|ordered|, k), |relevant|), d);
            && m.ndcg.Some? && n.ndcg.Some?
            && Share(n.ndcg.value, ideal)
               == Share(m.ndcg.value, ideal) - Gain(ordered[i] in relevant, d, i) + Gain(e in relevant, d, i)
  {
    var top := TopN(|ordered|, k);
    NdcgShare(ordered, relevant, d, k);
    NdcgShare(ordered[i := e], relevant, d, k);
    DcgUpdate(Hits(ordered, relevant, top), d, i, e in relevant);
    assert Hits(ordered[i := e], relevant, top) == Hits(ordered, relevant, top)[i := e in relevant];
  }
}
