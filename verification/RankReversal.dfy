/**
  * The sign and the value of the rank correlation of evaluation/research/external_itsm.py: reversed rankings negate it,
  * it is 1 or -1 exactly on equal or opposite ranks, and without ties it follows from the squared rank differences.
  */
module RankReversal {
  import opened Counting
  import opened RealArithmetic
  import opened Sorting
  import opened RankCorrelation

  // ---- Ranks of a reversed list ----

  ghost predicate StrictlyDecreasing(f: real -> real) {
    forall x, y :: x < y ==> f(x) > f(y)
  }

  /** The ranks counted from the other end. */
  function Opposite(n: nat): real -> real {
    (r: real) => (n + 1) as real - r
  }

  lemma {:induction false} CountsReverse(f: real -> real, values: seq<real>, v: real)
    requires StrictlyDecreasing(f)
    ensures CountBy(Map(f, values), Below(f(v))) == CountBy(values, Above(v))
    ensures CountBy(Map(f, values), Tied(f(v))) == CountBy(values, Tied(v))
  {
    var mapped := Map(f, values);
    forall i | 0 <= i < |values|
      ensures (mapped[i] < f(v) <==> values[i] > v) && (mapped[i] == f(v) <==> values[i] == v)
    {
      assert values[i] < v || values[i] == v || v < values[i];
    }
    CountMonotone2(values, mapped, Above(v), Below(f(v)));
    CountMonotone2(mapped, values, Below(f(v)), Above(v));
    CountMonotone2(values, mapped, Tied(v), Tied(f(v)));
    CountMonotone2(mapped, values, Tied(f(v)), Tied(v));
  }

  /** A strictly decreasing map turns the ranks around. */
  lemma {:induction false} RanksReversed(f: real -> real, values: seq<real>)
    requires StrictlyDecreasing(f)
    ensures AverageRanks(Map(f, values)) == Map(Opposite(|values|), AverageRanks(values))
  {
    forall i | 0 <= i < |values|
      ensures AverageRanks(Map(f, values))[i] == Map(Opposite(|values|), AverageRanks(values))[i]
    {
      CountsReverse(f, values, values[i]);
      Trichotomy(values, values[i]);
    }
  }

  /** Ranks are their own ranks. */
  lemma {:induction false} RanksOfRanks(values: seq<real>)
    ensures AverageRanks(AverageRanks(values)) == AverageRanks(values)
  {
    forall i | 0 <= i < |values| ensures AverageRanks(AverageRanks(values))[i] == AverageRanks(values)[i] {
      RankCounts(values, i);
    }
  }

  lemma {:induction false} RankCounts(values: seq<real>, i: nat)
    requires i < |values|
    ensures AverageRank(AverageRanks(values), AverageRanks(values)[i]) == AverageRank(values, values[i])
  {
    var ranks, v := AverageRanks(values), values[i];
    forall j | 0 <= j < |values|
      ensures (ranks[j] < ranks[i] <==> values[j] < v) && (ranks[j] == ranks[i] <==> values[j] == v)
    {
      if values[j] < v {
        RankStrict(values, values[j], v);
      } else if values[j] > v {
        RankStrict(values, v, values[j]);
      }
    }
    CountMonotone2(values, ranks, Below(v), Below(ranks[i]));
    CountMonotone2(ranks, values, Below(ranks[i]), Below(v));
    CountMonotone2(values, ranks, Tied(v), Tied(ranks[i]));
    CountMonotone2(ranks, values, Tied(ranks[i]), Tied(v));
  }

  // ---- Moments of a list turned around ----

  function Negated(a: seq<real>): (r: seq<real>)
    ensures |r| == |a|
  {
    Map((x: real) => -x, a)
  }

  lemma {:induction false} MomentsNegated(a: seq<real>, b: seq<real>)
    requires |a| == |b|
    ensures var m := MomentsOf(a, b); MomentsOf(Negated(a), b) == Moments(m.xx, m.yy, -m.xy)
  {
    if a != [] {
      var n := |a| - 1;
      MomentsNegated(a[..n], b[..n]);
      assert Negated(a)[..n] == Negated(a[..n]);
      NegatedStep(MomentsOf(a[..n], b[..n]), a[n], b[n]);
    }
  }

  lemma NegatedStep(m: Moments, x: real, y: real)
    ensures Moments(m.xx, m.yy, -m.xy).Extend(-x, y)
            == Moments(m.Extend(x, y).xx, m.Extend(x, y).yy, -m.Extend(x, y).xy)
  {
    assert (-x) * (-x) == x * x && (-x) * y == -(x * y);
  }

  lemma {:induction false} OppositeSum(n: nat, s: seq<real>)
    ensures SumBy(Map(Opposite(n), s), Itself()) == (n + 1) as real * |s| as real - SumBy(s, Itself())
  {
    if s != [] {
      var k := |s| - 1;
      OppositeSum(n, s[..k]);
      assert Map(Opposite(n), s)[..k] == Map(Opposite(n), s[..k]);
      assert (n + 1) as real * (k + 1) as real == (n + 1) as real * k as real + (n + 1) as real;
    }
  }

  lemma {:induction false} OppositeMean(n: nat, s: seq<real>)
    requires s != []
    ensures Mean(Map(Opposite(n), s)) == (n + 1) as real - Mean(s)
  {
    OppositeSum(n, s);
    MeanFrom(SumBy(s, Itself()), SumBy(Map(Opposite(n), s), Itself()), |s| as real, (n + 1) as real);
  }

  lemma MeanFrom(sum: real, sum': real, n: real, c: real)
    requires n > 0.0 && sum' == c * n - sum
    ensures sum' / n == c - sum / n
  {
    assert (c - sum / n) * n == sum';
    DivideCancel(c - sum / n, n);
  }

  lemma {:induction false} DeviationsOpposite(n: nat, s: seq<real>)
    requires s != []
    ensures Deviations(Map(Opposite(n), s)) == Negated(Deviations(s))
  {
    OppositeMean(n, s);
    forall i | 0 <= i < |s| ensures Deviations(Map(Opposite(n), s))[i] == Negated(Deviations(s))[i] {
    }
  }

  lemma {:induction false} CentredOpposite(n: nat, a: seq<real>, b: seq<real>)
    requires |a| == |b| && a != []
    ensures var m := Centred(a, b); Centred(Map(Opposite(n), a), b) == Moments(m.xx, m.yy, -m.xy)
  {
    DeviationsOpposite(n, a);
    MomentsNegated(Deviations(a), Deviations(b));
  }

  lemma RatioNegated(m: Moments, root: real)
    requires m.IsRoot(root)
    ensures var k := Moments(m.xx, m.yy, -m.xy);
            && k.IsRoot(root) && (k.Ratio(root).Some? <==> m.Ratio(root).Some?)
            && (m.Ratio(root).Some? ==> k.Ratio(root).value == -m.Ratio(root).value)
  {
    if m.xx != 0.0 && m.yy != 0.0 {
      QuotientNegated(m.xy, root, m.xx * m.yy);
    }
  }

  lemma QuotientNegated(x: real, root: real, product: real)
    requires root != 0.0 && root * root == product
    ensures (-x) / root == -(x / root)
  {
    assert (-(x / root)) * root == -x;
    DivideCancel(-(x / root), root);
  }

  lemma {:induction false} CorrelationOpposite(n: nat, a: seq<real>, b: seq<real>, root: real)
    requires Comparable(a, b) && IsRoot(root, a, b)
    ensures IsRoot(root, Map(Opposite(n), a), b)
    ensures Correlation(Map(Opposite(n), a), b, root).Some? <==> Correlation(a, b, root).Some?
    ensures Correlation(a, b, root).Some? ==>
              Correlation(Map(Opposite(n), a), b, root).value == -Correlation(a, b, root).value
  {
    CentredOpposite(n, a, b);
    RatioNegated(Centred(a, b), root);
  }

  /** Turning one list around, by any strictly decreasing map, negates the correlation and keeps it defined. */
  lemma {:induction false} SpearmanReversed(f: real -> real, x: seq<real>, y: seq<real>, root: real)
    requires StrictlyDecreasing(f) && IsRoot(root, AverageRanks(x), AverageRanks(y))
    ensures IsRoot(root, AverageRanks(Map(f, x)), AverageRanks(y))
    ensures Spearman(Map(f, x), y, root).Some? <==> Spearman(x, y, root).Some?
    ensures Spearman(x, y, root).Some? ==> Spearman(Map(f, x), y, root).value == -Spearman(x, y, root).value
  {
    RanksReversed(f, x);
    if Comparable(x, y) {
      CorrelationOpposite(|x|, AverageRanks(x), AverageRanks(y), root);
    }
  }

  /** So a non-constant list against its own reversal has correlation -1. */
  lemma {:induction false} SpearmanOfReversal(f: real -> real, x: seq<real>, root: real)
    requires StrictlyDecreasing(f) && |x| >= 3 && !Constant(x) && IsRoot(root, AverageRanks(x), AverageRanks(x))
    ensures IsRoot(root, AverageRanks(Map(f, x)), AverageRanks(x)) && Spearman(Map(f, x), x, root) == Some(-1.0)
  {
    SpearmanSelf(x, root);
    SpearmanReversed(f, x, x, root);
  }

  // ---- When the correlation is perfect ----

  function Residual(x: real, y: real, t: real): real {
    y - t * x
  }

  function Residuals(a: seq<real>, b: seq<real>, t: real): (r: seq<real>)
    requires |a| == |b|
    ensures |r| == |a| && forall i :: 0 <= i < |a| ==> r[i] == Residual(a[i], b[i], t)
  {
    seq(|a|, i requires 0 <= i < |a| => Residual(a[i], b[i], t))
  }

  /** The sum of squared residuals of b against t times a. */
  function ResidualSum(m: Moments, t: real): real {
    m.yy - 2.0 * (t * m.xy) + t * t * m.xx
  }

  lemma {:induction false} ResidualSquares(a: seq<real>, b: seq<real>, t: real)
    requires |a| == |b|
    ensures MomentsOf(Residuals(a, b, t), b).xx == ResidualSum(MomentsOf(a, b), t)
  {
    if a != [] {
      var n := |a| - 1;
      ResidualSquares(a[..n], b[..n], t);
      assert Residuals(a, b, t)[..n] == Residuals(a[..n], b[..n], t);
      ResidualStep(MomentsOf(a[..n], b[..n]), a[n], b[n], t);
    }
  }

  lemma ResidualStep(m: Moments, x: real, y: real, t: real)
    ensures ResidualSum(m, t) + Residual(x, y, t) * Residual(x, y, t) == ResidualSum(m.Extend(x, y), t)
  {
  }

  lemma SlopeFits(m: Moments, t: real)
    requires m.xx > 0.0 && t == m.xy / m.xx && m.xy * m.xy == m.xx * m.yy
    ensures ResidualSum(m, t) == 0.0
  {
    assert t * m.xx == m.xy;
    assert t * t * m.xx == t * m.xy;
    SlopeSquare(m.xx, m.yy, m.xy, t, t * m.xy);
  }

  lemma SlopeSquare(xx: real, yy: real, xy: real, t: real, p: real)
    requires xx > 0.0 && t * xx == xy && p == t * xy && xy * xy == xx * yy
    ensures p == yy
  {
    assert xx * p == xy * xy;
    assert xx * (p - yy) == 0.0;
    if p - yy > 0.0 {
      var c := MulPositive(xx, p - yy);
    } else if p - yy < 0.0 {
      var c := MulPositive(xx, yy - p);
    }
  }

  lemma Slope(m: Moments) returns (t: real)
    requires m.xx > 0.0 && m.xy * m.xy == m.xx * m.yy
    ensures IsProduct(t, m.xx, m.xy) && ResidualSum(m, t) == 0.0
  {
    t := m.xy / m.xx;
    SlopeFits(m, t);
  }

  ghost predicate Multiple(a: seq<real>, b: seq<real>, t: real) {
    |a| == |b| && forall i :: 0 <= i < |a| ==> IsProduct(t, a[i], b[i])
  }

  predicate IsProduct(x: real, y: real, product: real) {
    x * y == product
  }

  /** Equality in Cauchy-Schwarz: one list is a multiple of the other. */
  lemma {:induction false} Proportional(a: seq<real>, b: seq<real>) returns (t: real)
    requires |a| == |b| && MomentsOf(a, b).xx > 0.0
    requires var m := MomentsOf(a, b); m.xy * m.xy == m.xx * m.yy
    ensures IsProduct(t, MomentsOf(a, b).xx, MomentsOf(a, b).xy) && Multiple(a, b, t)
  {
    t := Slope(MomentsOf(a, b));
    ResidualSquares(a, b, t);
    SquaresVanish(Residuals(a, b, t), b);
    forall i | 0 <= i < |a| ensures IsProduct(t, a[i], b[i]) {
      assert Residuals(a, b, t)[i] == Residual(a[i], b[i], t);
    }
  }

  function Line(t: real, m: real): real -> real {
    (v: real) => t * (v - m) + m
  }

  lemma LineGap(t: real, m: real, x: real, y: real)
    ensures Line(t, m)(y) - Line(t, m)(x) == t * (y - x)
  {
    assert t * (y - m) - t * (x - m) == t * (y - x);
  }

  lemma LinePoints(t: real, m: real, x: real, y: real)
    requires x < y
    ensures t > 0.0 ==> Line(t, m)(x) < Line(t, m)(y)
    ensures t < 0.0 ==> Line(t, m)(x) > Line(t, m)(y)
  {
    LineGap(t, m, x, y);
    if t > 0.0 {
      var c := MulPositive(t, y - x);
    } else if t < 0.0 {
      var c := MulPositive(-t, y - x);
      assert (-t) * (y - x) == -(t * (y - x));
    }
  }

  lemma {:induction false} LineOrder(t: real, m: real)
    ensures t > 0.0 ==> StrictlyIncreasing(Line(t, m))
    ensures t < 0.0 ==> StrictlyDecreasing(Line(t, m))
  {
    forall x: real, y: real | x < y
      ensures t > 0.0 ==> Line(t, m)(x) < Line(t, m)(y)
      ensures t < 0.0 ==> Line(t, m)(x) > Line(t, m)(y)
    {
      LinePoints(t, m, x, y);
    }
  }

  /** Two lists of ranks have the same mean. */
  lemma {:induction false} SameMean(x: seq<real>, y: seq<real>)
    requires |x| == |y| > 0
    ensures Mean(AverageRanks(x)) == Mean(AverageRanks(y))
  {
    RankSum(x);
    RankSum(y);
  }

  lemma LineAt(t: real, m: real, u: real, v: real, d: real, e: real)
    requires d == u - m && e == v - m && IsProduct(t, d, e)
    ensures v == Line(t, m)(u)
  {
  }

  lemma {:induction false} DeviationAt(s: seq<real>, m: real, i: nat)
    requires i < |s| && Mean(s) == m
    ensures Deviations(s)[i] == s[i] - m
  {
  }

  lemma {:induction false} OnLine(a: seq<real>, b: seq<real>, m: real, t: real)
    requires |a| == |b| > 0 && Mean(a) == m && Mean(b) == m && Multiple(Deviations(a), Deviations(b), t)
    ensures b == Map(Line(t, m), a)
  {
    forall i | 0 <= i < |a| ensures b[i] == Line(t, m)(a[i]) {
      DeviationAt(a, m, i);
      DeviationAt(b, m, i);
      LineAt(t, m, a[i], b[i], Deviations(a)[i], Deviations(b)[i]);
    }
  }

  /** Ranks that are proportional to other ranks are those ranks, or those ranks turned around. */
  lemma {:induction false} ProportionalRanks(x: seq<real>, y: seq<real>, t: real)
    requires |x| == |y| > 0
    requires Multiple(Deviations(AverageRanks(x)), Deviations(AverageRanks(y)), t)
    ensures t > 0.0 ==> AverageRanks(y) == AverageRanks(x)
    ensures t < 0.0 ==> AverageRanks(y) == Map(Opposite(|x|), AverageRanks(x))
  {
    var a, line := AverageRanks(x), Line(t, Mean(AverageRanks(x)));
    SameMean(x, y);
    OnLine(a, AverageRanks(y), Mean(a), t);
    LineOrder(t, Mean(a));
    RanksOfRanks(x);
    RanksOfRanks(y);
    if t > 0.0 {
      RanksInvariant(line, a);
    } else if t < 0.0 {
      RanksReversed(line, a);
    }
  }

  lemma PerfectRatio(m: Moments, root: real)
    requires m.IsRoot(root) && m.xx > 0.0 && m.yy > 0.0 && m.Ratio(root).Some?
    ensures m.Ratio(root).value == 1.0 ==> m.xy > 0.0 && m.xy * m.xy == m.xx * m.yy
    ensures m.Ratio(root).value == -1.0 ==> m.xy < 0.0 && m.xy * m.xy == m.xx * m.yy
  {
    var product := MulPositive(m.xx, m.yy);
    assert m.xy / root * root == m.xy;
  }

  lemma SlopeSign(t: real, xx: real, xy: real)
    requires xx > 0.0 && IsProduct(t, xx, xy)
    ensures (xy > 0.0 ==> t > 0.0) && (xy < 0.0 ==> t < 0.0)
  {
    if t <= 0.0 {
      MulMonotone(xx, t, 0.0);
    }
    if t >= 0.0 {
      MulMonotone(xx, 0.0, t);
    }
  }

  lemma {:induction false} PerfectMoments(a: seq<real>, b: seq<real>, root: real, v: real)
    requires Comparable(a, b) && IsRoot(root, a, b) && !Constant(a) && !Constant(b)
    requires Correlation(a, b, root) == Some(v) && (v == 1.0 || v == -1.0)
    ensures var m := Centred(a, b);
            m.xx > 0.0 && m.xy * m.xy == m.xx * m.yy && (if v == 1.0 then m.xy > 0.0 else m.xy < 0.0)
  {
    SpreadVanishes(a, b);
    CauchySchwarz(Deviations(a), Deviations(b));
    PerfectRatio(Centred(a, b), root);
  }

  lemma {:induction false} PerfectLine(a: seq<real>, b: seq<real>, root: real, v: real) returns (t: real)
    requires Comparable(a, b) && IsRoot(root, a, b) && !Constant(a) && !Constant(b)
    requires Correlation(a, b, root) == Some(v) && (v == 1.0 || v == -1.0)
    ensures if v == 1.0 then t > 0.0 else t < 0.0
    ensures Multiple(Deviations(a), Deviations(b), t)
  {
    PerfectMoments(a, b, root, v);
    t := Proportional(Deviations(a), Deviations(b));
    SlopeSign(t, Centred(a, b).xx, Centred(a, b).xy);
  }

  lemma {:induction false} PerfectRanks(x: seq<real>, y: seq<real>, root: real, v: real)
    requires IsRoot(root, AverageRanks(x), AverageRanks(y)) && Comparable(x, y) && !Constant(x) && !Constant(y)
    requires Spearman(x, y, root) == Some(v) && (v == 1.0 || v == -1.0)
    ensures v == 1.0 ==> AverageRanks(x) == AverageRanks(y)
    ensures v == -1.0 ==> AverageRanks(y) == Map(Opposite(|x|), AverageRanks(x))
  {
    RanksConstant(x);
    RanksConstant(y);
    var t := PerfectLine(AverageRanks(x), AverageRanks(y), root, v);
    ProportionalRanks(x, y, t);
  }

  ghost predicate OppositeRanks(x: seq<real>, y: seq<real>) {
    |x| == |y| && forall i :: 0 <= i < |x| ==> AverageRanks(x)[i] + AverageRanks(y)[i] == (|x| + 1) as real
  }

  lemma {:induction false} OppositeIsMap(x: seq<real>, y: seq<real>)
    requires |x| == |y|
    ensures OppositeRanks(x, y) <==> AverageRanks(y) == Map(Opposite(|x|), AverageRanks(x))
  {
    if OppositeRanks(x, y) {
      forall i | 0 <= i < |x| ensures AverageRanks(y)[i] == Map(Opposite(|x|), AverageRanks(x))[i] {
        assert AverageRanks(x)[i] + AverageRanks(y)[i] == (|x| + 1) as real;
      }
    }
  }

  lemma {:induction false} OppositeBack(x: seq<real>, y: seq<real>)
    requires OppositeRanks(x, y)
    ensures AverageRanks(x) == Map(Opposite(|x|), AverageRanks(y))
  {
    forall i | 0 <= i < |x| ensures AverageRanks(x)[i] == Map(Opposite(|x|), AverageRanks(y))[i] {
      assert AverageRanks(x)[i] + AverageRanks(y)[i] == (|x| + 1) as real;
    }
  }

  lemma {:induction false} EqualRanksCorrelate(x: seq<real>, y: seq<real>, root: real)
    requires IsRoot(root, AverageRanks(x), AverageRanks(y)) && Comparable(x, y) && !Constant(x)
    requires AverageRanks(x) == AverageRanks(y)
    ensures Spearman(x, y, root) == Some(1.0)
  {
    SpearmanSelf(x, root);
  }

  lemma {:induction false} SelfOpposite(n: nat, b: seq<real>, root: real)
    requires |b| >= 3 && !Constant(b) && IsRoot(root, Map(Opposite(n), b), b)
    ensures Correlation(Map(Opposite(n), b), b, root) == Some(-1.0)
  {
    SpreadVanishes(b, b);
    MomentsSelf(Deviations(b));
    SquaresVanish(Deviations(b), Deviations(b));
    CentredOpposite(n, b, b);
    OppositeRatio(Centred(b, b), root);
  }

  lemma OppositeRatio(m: Moments, root: real)
    requires m.xx == m.yy == m.xy && m.xx > 0.0 && Moments(m.xx, m.yy, -m.xy).IsRoot(root)
    ensures Moments(m.xx, m.yy, -m.xy).Ratio(root) == Some(-1.0)
  {
    RatioSelf(m, root);
    RatioNegated(m, root);
  }

  lemma {:induction false} OppositeRanksCorrelate(x: seq<real>, y: seq<real>, root: real)
    requires IsRoot(root, AverageRanks(x), AverageRanks(y)) && Comparable(x, y) && !Constant(y)
    requires OppositeRanks(x, y)
    ensures Spearman(x, y, root) == Some(-1.0)
  {
    OppositeBack(x, y);
    RanksConstant(y);
    SelfOpposite(|x|, AverageRanks(y), root);
  }

  /** The correlation is 1 exactly on equal ranks, and -1 exactly where each pair of ranks sums to n + 1. */
  lemma {:induction false} SpearmanPerfect(x: seq<real>, y: seq<real>, root: real)
    requires IsRoot(root, AverageRanks(x), AverageRanks(y)) && Comparable(x, y) && !Constant(x) && !Constant(y)
    ensures Spearman(x, y, root) == Some(1.0) <==> AverageRanks(x) == AverageRanks(y)
    ensures Spearman(x, y, root) == Some(-1.0) <==> OppositeRanks(x, y)
  {
    OppositeIsMap(x, y);
    if Spearman(x, y, root) == Some(1.0) {
      PerfectRanks(x, y, root, 1.0);
    }
    if Spearman(x, y, root) == Some(-1.0) {
      PerfectRanks(x, y, root, -1.0);
    }
    if AverageRanks(x) == AverageRanks(y) {
      EqualRanksCorrelate(x, y, root);
    }
    if OppositeRanks(x, y) {
      OppositeRanksCorrelate(x, y, root);
    }
  }

  // ---- The formula by squared differences of ranks ----

  function Gap2(x: real, y: real): real {
    (x - y) * (x - y)
  }

  /** The sum of squared differences of two lists. */
  function Distance2(a: seq<real>, b: seq<real>): real
    requires |a| == |b|
  {
    if a == [] then 0.0
    else
      var n := |a| - 1;
      Distance2(a[..n], b[..n]) + Gap2(a[n], b[n])
  }

  function Gap(m: Moments): real {
    m.xx + m.yy - 2.0 * m.xy
  }

  lemma {:induction false} MomentsDistance(a: seq<real>, b: seq<real>)
    requires |a| == |b|
    ensures Distance2(a, b) == Gap(MomentsOf(a, b))
  {
    if a != [] {
      var n := |a| - 1;
      MomentsDistance(a[..n], b[..n]);
      GapStep(MomentsOf(a[..n], b[..n]), a[n], b[n]);
    }
  }

  lemma GapStep(m: Moments, x: real, y: real)
    ensures Gap(m.Extend(x, y)) == Gap(m) + Gap2(x, y)
  {
  }

  lemma {:induction false} DistanceMoved(a: seq<real>, b: seq<real>, c: seq<real>, d: seq<real>)
    requires |a| == |b| == |c| == |d|
    requires forall i :: 0 <= i < |a| ==> c[i] - d[i] == a[i] - b[i]
    ensures Distance2(a, b) == Distance2(c, d)
  {
    if a != [] {
      var n := |a| - 1;
      DistanceMoved(a[..n], b[..n], c[..n], d[..n]);
      assert c[n] - d[n] == a[n] - b[n];
    }
  }

  lemma {:induction false} RanksDistance(x: seq<real>, y: seq<real>)
    requires |x| == |y| > 0
    ensures var a, b := AverageRanks(x), AverageRanks(y);
            Distance2(a, b) == Gap(Centred(a, b))
  {
    var a, b := AverageRanks(x), AverageRanks(y);
    SameMean(x, y);
    MomentsDistance(Deviations(a), Deviations(b));
    DistanceMoved(a, b, Deviations(a), Deviations(b));
  }

  /** The squared differences of the ranks determine the correlation: the spreads less them are twice the covariance. */
  lemma {:induction false} SpearmanByDistance(x: seq<real>, y: seq<real>, root: real)
    requires IsRoot(root, AverageRanks(x), AverageRanks(y)) && Spearman(x, y, root).Some?
    ensures var m := Centred(AverageRanks(x), AverageRanks(y));
            && IsProduct(Spearman(x, y, root).value, root, m.xy)
            && 2.0 * m.xy == m.xx + m.yy - Distance2(AverageRanks(x), AverageRanks(y))
  {
    RanksDistance(x, y);
    RatioTimesRoot(Centred(AverageRanks(x), AverageRanks(y)), root);
  }

  lemma RootNotZero(xx: real, yy: real, root: real)
    requires root * root == xx * yy && xx != 0.0 && yy != 0.0
    ensures root != 0.0
  {
  }

  lemma RatioTimesRoot(m: Moments, root: real)
    requires m.IsRoot(root) && m.Ratio(root).Some?
    ensures IsProduct(m.Ratio(root).value, root, m.xy)
  {
    RootNotZero(m.xx, m.yy, root);
    assert m.xy / root * root == m.xy;
  }

  // ---- Lists without ties ----

  function Squared(): real -> real {
    (v: real) => v * v
  }

  function UpTo(n: nat): (r: seq<real>)
    ensures |r| == n && forall i :: 0 <= i < n ==> r[i] == (i + 1) as real
  {
    seq(n, i => (i + 1) as real)
  }

  /** 1 + 4 + ... + n^2 */
  lemma {:induction false} SumOfSquares(n: nat)
    ensures 6.0 * SumBy(UpTo(n), Squared()) == (n * (n + 1) * (2 * n + 1)) as real
  {
    if n > 0 {
      SumOfSquares(n - 1);
      assert UpTo(n)[..n - 1] == UpTo(n - 1);
      SquaresStep(n, SumBy(UpTo(n - 1), Squared()));
    }
  }

  lemma SquaresStep(n: nat, before: real)
    requires n > 0 && 6.0 * before == ((n - 1) * n * (2 * (n - 1) + 1)) as real
    ensures 6.0 * (before + Squared()(n as real)) == (n * (n + 1) * (2 * n + 1)) as real
  {
    assert (n - 1) * n * (2 * (n - 1) + 1) + 6 * (n * n) == n * (n + 1) * (2 * n + 1);
    CastProduct(n, n);
  }

  /** In the order of a list without ties the ranks are 1, 2, ..., n. */
  lemma {:induction false} OrderedRanks(x: seq<real>)
    requires Distinct(x)
    ensures multiset(AverageRanks(x)) == multiset(UpTo(|x|))
  {
    var order, n := Order(x), |x|;
    var at := ValueAt(AverageRanks(x));
    forall k | 0 <= k < n ensures Map(at, order)[k] == UpTo(n)[k] {
      assert forall i, j :: 0 <= i < j < n ==> x[order[i]] != x[order[j]];
      assert TieBlock(x, order, k, k);
      BlockRank(x, order, k, k, k);
    }
    assert Map(at, order) == UpTo(n);
    MapPermutation(at, Indices(n), order);
    assert Map(at, Indices(n)) == AverageRanks(x);
  }

  /** The sum of squares about m. */
  function About(n: nat, m: real, sum: real, squares: real): real {
    squares - 2.0 * (m * sum) + n as real * (m * m)
  }

  lemma {:induction false} MomentsSquares(t: seq<real>)
    ensures MomentsOf(t, t).xx == SumBy(t, Squared())
  {
    if t != [] {
      MomentsSquares(t[..|t| - 1]);
    }
  }

  lemma {:induction false} SquaresAbout(s: seq<real>, m: real, t: seq<real>)
    requires |t| == |s| && forall i :: 0 <= i < |s| ==> t[i] == s[i] - m
    ensures SumBy(t, Squared()) == About(|s|, m, SumBy(s, Itself()), SumBy(s, Squared()))
  {
    if s != [] {
      var n := |s| - 1;
      SquaresAbout(s[..n], m, t[..n]);
      AboutStep(n, m, SumBy(s[..n], Itself()), SumBy(s[..n], Squared()), s[n], t[n]);
    }
  }

  lemma AboutStep(n: nat, m: real, sum: real, squares: real, v: real, d: real)
    requires d == v - m
    ensures About(n + 1, m, sum + v, squares + Squared()(v)) == About(n, m, sum, squares) + Squared()(d)
  {
  }

  /** n^3 - n */
  function Cubic(n: nat): int {
    n * n * n - n
  }

  /** n real ranks with their mean, their sum and the sum of their squares. */
  predicate Totals(n: nat, mean: real, sum: real, squares: real) {
    && IsProduct(mean, n as real, sum) && 2.0 * sum == (n * (n + 1)) as real
    && 6.0 * squares == (n * (n + 1) * (2 * n + 1)) as real
  }

  lemma CastProduct(a: int, b: int)
    ensures (a * b) as real == a as real * b as real
  {
  }

  /** The counts behind the sums, as real numbers. */
  lemma Casts(n: nat, r: real)
    requires r == n as real
    ensures (n * (n + 1)) as real == r * (r + 1.0)
    ensures (n * (n + 1) * (2 * n + 1)) as real == r * (r + 1.0) * (2.0 * r + 1.0)
    ensures Cubic(n) as real == r * r * r - r
  {
    CastProduct(n, n + 1);
    CastProduct(n * (n + 1), 2 * n + 1);
    CastProduct(n, n);
    CastProduct(n * n, n);
  }

  lemma HalfMean(r: real, sum: real, m: real)
    requires r > 0.0 && 2.0 * sum == r * (r + 1.0) && m * r == sum
    ensures 2.0 * m == r + 1.0
  {
    assert r * (2.0 * m - (r + 1.0)) == 0.0;
    if 2.0 * m > r + 1.0 {
      var c := MulPositive(r, 2.0 * m - (r + 1.0));
    } else if 2.0 * m < r + 1.0 {
      var c := MulPositive(r, r + 1.0 - 2.0 * m);
    }
  }

  lemma SpreadProducts(r: real, m: real, sum: real, squares: real)
    requires 2.0 * m == r + 1.0 && 2.0 * sum == r * (r + 1.0) && 6.0 * squares == r * (r + 1.0) * (2.0 * r + 1.0)
    ensures 12.0 * (squares - m * sum) == r * r * r - r
  {
    assert 4.0 * (m * sum) == (2.0 * m) * (2.0 * sum);
  }

  lemma SpreadSum(r: real, m: real, sum: real, squares: real)
    requires r > 0.0 && m * r == sum && 2.0 * sum == r * (r + 1.0)
    requires 6.0 * squares == r * (r + 1.0) * (2.0 * r + 1.0)
    ensures 12.0 * (squares - 2.0 * (m * sum) + r * (m * m)) == r * r * r - r
  {
    HalfMean(r, sum, m);
    SpreadProducts(r, m, sum, squares);
    assert r * (m * m) == m * (m * r);
  }

  lemma SpreadFrom(n: nat, m: real, sum: real, squares: real)
    requires n > 0 && Totals(n, m, sum, squares)
    ensures 12.0 * About(n, m, sum, squares) == Cubic(n) as real
  {
    Casts(n, n as real);
    SpreadSum(n as real, m, sum, squares);
  }

  lemma MeanTimes(sum: real, n: real)
    requires n != 0.0
    ensures IsProduct(sum / n, n, sum)
  {
  }

  lemma {:induction false} RankTotals(x: seq<real>)
    requires Distinct(x) && x != []
    ensures var a := AverageRanks(x); Totals(|x|, Mean(a), SumBy(a, Itself()), SumBy(a, Squared()))
  {
    RankSum(x);
    OrderedRanks(x);
    SumPermutation(AverageRanks(x), UpTo(|x|), Squared());
    SumOfSquares(|x|);
    MeanTimes(SumBy(AverageRanks(x), Itself()), |x| as real);
  }

  lemma {:induction false} DeviationsAbout(a: seq<real>)
    requires a != []
    ensures MomentsOf(Deviations(a), Deviations(a)).xx == About(|a|, Mean(a), SumBy(a, Itself()), SumBy(a, Squared()))
  {
    MomentsSquares(Deviations(a));
    SquaresAbout(a, Mean(a), Deviations(a));
  }

  /** Without ties, the spread of the ranks is (n^3 - n) / 12. */
  lemma {:induction false} SpreadWithoutTies(x: seq<real>)
    requires Distinct(x) && x != []
    ensures var d := Deviations(AverageRanks(x)); 12.0 * MomentsOf(d, d).xx == Cubic(|x|) as real
  {
    var a := AverageRanks(x);
    RankTotals(x);
    DeviationsAbout(a);
    SpreadFrom(|x|, Mean(a), SumBy(a, Itself()), SumBy(a, Squared()));
  }

  lemma {:induction false} SpreadAlone(a: seq<real>, b: seq<real>)
    requires |a| == |b|
    ensures MomentsOf(a, b).xx == MomentsOf(a, a).xx && MomentsOf(a, b).yy == MomentsOf(b, b).xx
  {
    if a != [] {
      SpreadAlone(a[..|a| - 1], b[..|b| - 1]);
    }
  }

  lemma {:induction false} SpreadsWithoutTies(x: seq<real>, y: seq<real>)
    requires Distinct(x) && Distinct(y) && Comparable(x, y)
    ensures var m := Centred(AverageRanks(x), AverageRanks(y));
            m.xx == m.yy > 0.0 && 12.0 * m.xx == Cubic(|x|) as real
  {
    SpreadWithoutTies(x);
    SpreadWithoutTies(y);
    SpreadAlone(Deviations(AverageRanks(x)), Deviations(AverageRanks(y)));
    assert x[0] != x[1];
    RanksConstant(x);
    SquaresVanish(Deviations(AverageRanks(x)), Deviations(AverageRanks(y)));
    DeviationsVanish(AverageRanks(x));
  }

  /** rho = 1 - 6 d / (n^3 - n) */
  ghost predicate Textbook(n: nat, rho: Option<real>, d: real) {
    rho.Some? && IsProduct(rho.value, Cubic(n) as real, Cubic(n) as real - 6.0 * d)
  }

  /** The textbook formula: without ties the squared rank differences alone give the correlation. */
  lemma {:induction false} SpearmanWithoutTies(x: seq<real>, y: seq<real>, root: real)
    requires Distinct(x) && Distinct(y) && Comparable(x, y) && IsRoot(root, AverageRanks(x), AverageRanks(y))
    ensures Textbook(|x|, Spearman(x, y, root), Distance2(AverageRanks(x), AverageRanks(y)))
  {
    SpreadsWithoutTies(x, y);
    RanksDistance(x, y);
    TextbookRanks(AverageRanks(x), AverageRanks(y), root, |x|, Distance2(AverageRanks(x), AverageRanks(y)));
  }

  lemma {:induction false} TextbookRanks(a: seq<real>, b: seq<real>, root: real, n: nat, d: real)
    requires Comparable(a, b) && IsRoot(root, a, b) && Gap(Centred(a, b)) == d
    requires Centred(a, b).xx == Centred(a, b).yy > 0.0 && 12.0 * Centred(a, b).xx == Cubic(n) as real
    ensures Textbook(n, Correlation(a, b, root), d)
  {
    TextbookMoments(Centred(a, b), root, Cubic(n) as real, d);
  }

  lemma TextbookMoments(m: Moments, root: real, cubic: real, d: real)
    requires m.IsRoot(root) && m.xx == m.yy > 0.0 && 12.0 * m.xx == cubic && Gap(m) == d
    ensures m.Ratio(root).Some? && IsProduct(m.Ratio(root).value, cubic, cubic - 6.0 * d)
  {
    RootOfSquare(root, m.xx);
    RatioTimesRoot(m, root);
    TextbookProduct(m.Ratio(root).value, root, m.xy, cubic, d);
  }

  lemma TextbookProduct(v: real, root: real, xy: real, cubic: real, d: real)
    requires IsProduct(v, root, xy) && 12.0 * root == cubic && 2.0 * xy == 2.0 * root - d
    ensures IsProduct(v, cubic, cubic - 6.0 * d)
  {
    assert v * cubic == 12.0 * (v * root);
  }
}
