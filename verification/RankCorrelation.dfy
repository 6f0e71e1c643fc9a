/** Tie-averaged ranks and the Spearman correlation of evaluation/research/external_itsm.py, over exact reals. */
module RankCorrelation {
  import opened Counting
  import opened RealArithmetic
  import opened Sorting

  function Below(v: real): real -> bool {
    u => u < v
  }

  function Tied(v: real): real -> bool {
    u => u == v
  }

  function Above(v: real): real -> bool {
    u => u > v
  }

  /** The average rank of `v` among `values`: what the tie-walking loops are meant to compute. */
  function AverageRank(values: seq<real>, v: real): real {
    CountBy(values, Below(v)) as real + (CountBy(values, Tied(v)) as real + 1.0) / 2.0
  }

  function AverageRanks(values: seq<real>): (r: seq<real>)
    ensures |r| == |values|
  {
    Map(v => AverageRank(values, v), values)
  }

  function Indices(n: nat): (r: seq<int>)
    ensures |r| == n && forall i :: 0 <= i < n ==> r[i] == i
  {
    seq(n, i => i)
  }

  function ValueAt(values: seq<real>): int -> real {
    i => if 0 <= i < |values| then values[i] else 0.0
  }

  /** `order` lists every index of `values` once, by non-decreasing value. */
  ghost predicate IsOrder(values: seq<real>, order: seq<int>) {
    && |order| == |values|
    && multiset(order) == multiset(Indices(|values|))
    && (forall k :: 0 <= k < |order| ==> 0 <= order[k] < |values|)
    && Distinct(order)
    && (forall i, j :: 0 <= i < j < |order| ==> values[order[i]] <= values[order[j]])
  }

  /** `sorted(range(len(values)), key=lambda i: values[i])` */
  function Order(values: seq<real>): (order: seq<int>)
    ensures IsOrder(values, order)
  {
    var indices, key := Indices(|values|), ValueAt(values);
    var order := SortBy(indices, key);
    assert forall k :: 0 <= k < |order| ==> order[k] in multiset(indices);
    PermutationDistinct(indices, order);
    SortBySorted(indices, key);
    assert forall i, j :: 0 <= i < j < |order| ==> key(order[i]) <= key(order[j]);
    order
  }

  /** The values read through an order. */
  function Through(values: seq<real>, order: seq<int>): (d: seq<real>)
    ensures |d| == |order|
  {
    Map(ValueAt(values), order)
  }

  lemma {:induction false} ThroughOrder(values: seq<real>, order: seq<int>)
    requires IsOrder(values, order)
    ensures Sorted(Through(values, order)) && multiset(Through(values, order)) == multiset(values)
  {
    MapPermutation(ValueAt(values), Indices(|values|), order);
    assert Map(ValueAt(values), Indices(|values|)) == values;
  }

  /** Positions i to j hold equal values, and the neighbouring positions do not. */
  ghost predicate TieBlock(values: seq<real>, order: seq<int>, i: nat, j: nat)
    requires IsOrder(values, order)
  {
    && i <= j < |order| && values[order[i]] == values[order[j]]
    && (i == 0 || values[order[i - 1]] < values[order[i]])
    && (j + 1 == |order| || values[order[j]] < values[order[j + 1]])
  }

  /** Every position of a tie block has the average of the positions, counted from one, as its rank. */
  lemma {:induction false} BlockRank(values: seq<real>, order: seq<int>, i: nat, j: nat, k: nat)
    requires IsOrder(values, order) && TieBlock(values, order, i, j) && i <= k <= j
    ensures AverageRank(values, values[order[k]]) == (i + j) as real / 2.0 + 1.0
  {
    var d, v := Through(values, order), values[order[i]];
    ThroughOrder(values, order);
    assert values[order[k]] == v;
    CountBlock(d, 0, i, Below(v));
    CountBlock(d, i, j + 1, Tied(v));
    CountPermutation(d, values, Below(v));
    CountPermutation(d, values, Tied(v));
  }

  /** `ranks` gives every tie block of `order` the average of its positions, counted from one. */
  ghost predicate TieAveraged(values: seq<real>, order: seq<int>, ranks: seq<real>)
    requires IsOrder(values, order) && |ranks| == |values|
  {
    forall i: nat, j: nat, k: nat :: TieBlock(values, order, i, j) && i <= k <= j ==>
        ranks[order[k]] == (i + j) as real / 2.0 + 1.0
  }

  method Ranks(values: seq<real>) returns (ranks: seq<real>)
    ensures ranks == AverageRanks(values)
  {
    var order := Order(values);
    assert TieAveraged(values, order, AverageRanks(values)) by {
      forall i: nat, j: nat, k: nat | TieBlock(values, order, i, j) && i <= k <= j
        ensures AverageRanks(values)[order[k]] == (i + j) as real / 2.0 + 1.0
      {
        BlockRank(values, order, i, j, k);
      }
    }
    ranks := WalkTies(values, order, AverageRanks(values));
  }

  /** The tie-walking loops fill in the one list that averages every tie block. */
  method WalkTies(values: seq<real>, order: seq<int>, ghost want: seq<real>) returns (r: seq<real>)
    requires IsOrder(values, order) && |want| == |values| && TieAveraged(values, order, want)
    ensures r == want
  {
    var ranks := new real[|values|](_ => 0.0);
    var i := 0;
    while i < |order|
      invariant 0 <= i <= |order|
      invariant 0 < i < |order| ==> values[order[i - 1]] < values[order[i]]
      invariant forall k :: 0 <= k < i ==> ranks[order[k]] == want[order[k]]
    {
      var j := i;
      while j + 1 < |order| && values[order[j + 1]] == values[order[i]]
        invariant i <= j < |order| && values[order[i]] == values[order[j]]
      {
        j := j + 1;
      }
      assert TieBlock(values, order, i, j);
      for k := i to j + 1
        invariant forall m :: 0 <= m < k ==> ranks[order[m]] == want[order[m]]
      {
        ranks[order[k]] := (i + j) as real / 2.0 + 1.0;
      }
      i := j + 1;
    }
    forall m | 0 <= m < |values| ensures ranks[m] == want[m] {
      var k := OrderCovers(values, order, m);
    }
    r := ranks[..];
  }

  /** Every index occurs in an order. */
  lemma {:induction false} OrderCovers(values: seq<real>, order: seq<int>, m: nat) returns (k: nat)
    requires IsOrder(values, order) && m < |values|
    ensures k < |order| && order[k] == m
  {
    assert Indices(|values|)[m] == m;
    assert m in multiset(order);
    k :| 0 <= k < |order| && order[k] == m;
  }

  // ---- The ranks of n values sum to n(n+1)/2 ----

  function RankWithin(values: seq<real>): real -> real {
    v => AverageRank(values, v)
  }

  /** How one more value shifts the ranks of the others. */
  lemma {:induction false} RanksShift(values: seq<real>, others: seq<real>, x: real)
    ensures SumBy(others, RankWithin(values + [x]))
         == SumBy(others, RankWithin(values)) + CountBy(others, Above(x)) as real
            + CountBy(others, Tied(x)) as real / 2.0
  {
    if others != [] {
      var v := others[|others| - 1];
      RanksShift(values, others[..|others| - 1], x);
      CountAppend(values, x, Below(v));
      CountAppend(values, x, Tied(v));
    }
  }

  lemma {:induction false} Trichotomy(values: seq<real>, x: real)
    ensures CountBy(values, Below(x)) + CountBy(values, Tied(x)) + CountBy(values, Above(x)) == |values|
  {
    if values != [] {
      Trichotomy(values[..|values| - 1], x);
    }
  }

  function Triangle(n: nat): real {
    (n * (n + 1)) as real / 2.0
  }

  lemma TriangleStep(n: nat)
    ensures Triangle(n + 1) == Triangle(n) + n as real + 1.0
  {
    assert (n + 1) * (n + 2) == n * (n + 1) + 2 * (n + 1);
  }

  lemma {:induction false} RanksTotal(values: seq<real>)
    ensures SumBy(values, RankWithin(values)) == Triangle(|values|)
  {
    if values != [] {
      var init, x := values[..|values| - 1], values[|values| - 1];
      assert values == init + [x];
      RanksTotal(init);
      RanksShift(init, init, x);
      Trichotomy(init, x);
      TriangleStep(|init|);
      CountAppend(init, x, Below(x));
      CountAppend(init, x, Tied(x));
    }
  }

  /** The ranks of n values sum to n(n+1)/2, however many ties there are. */
  lemma {:induction false} RankSum(values: seq<real>)
    ensures SumBy(AverageRanks(values), Itself()) == Triangle(|values|)
  {
    RanksTotal(values);
    var f := RankWithin(values);
    SumScale(values, AverageRanks(values), f, v => v, 1.0);
  }

  // ---- Ranks see only the order of the values ----

  ghost predicate StrictlyIncreasing(f: real -> real) {
    forall x, y :: x < y ==> f(x) < f(y)
  }

  lemma {:induction false} CountsFollow(f: real -> real, values: seq<real>, v: real)
    requires StrictlyIncreasing(f)
    ensures CountBy(Map(f, values), Below(f(v))) == CountBy(values, Below(v))
    ensures CountBy(Map(f, values), Tied(f(v))) == CountBy(values, Tied(v))
  {
    var mapped := Map(f, values);
    forall i | 0 <= i < |values|
      ensures (mapped[i] < f(v) <==> values[i] < v) && (mapped[i] == f(v) <==> values[i] == v)
    {
      assert values[i] < v || values[i] == v || v < values[i];
    }
    CountMonotone2(values, mapped, Below(v), Below(f(v)));
    CountMonotone2(mapped, values, Below(f(v)), Below(v));
    CountMonotone2(values, mapped, Tied(v), Tied(f(v)));
    CountMonotone2(mapped, values, Tied(f(v)), Tied(v));
  }

  lemma {:induction false} RanksInvariant(f: real -> real, values: seq<real>)
    requires StrictlyIncreasing(f)
    ensures AverageRanks(Map(f, values)) == AverageRanks(values)
  {
    forall i | 0 <= i < |values| ensures AverageRanks(Map(f, values))[i] == AverageRanks(values)[i] {
      CountsFollow(f, values, values[i]);
    }
  }

  lemma {:induction false} RankStrict(values: seq<real>, u: real, v: real)
    requires u in values && u < v
    ensures AverageRank(values, u) + 0.5 <= AverageRank(values, v)
  {
    CountMonotone(values, Below(u), Below(v));
    BelowOrTied(values, u, v);
    CountBound(values, Tied(u));
  }

  lemma {:induction false} BelowOrTied(values: seq<real>, u: real, v: real)
    requires u < v
    ensures CountBy(values, Below(u)) + CountBy(values, Tied(u)) <= CountBy(values, Below(v))
  {
    if values != [] {
      BelowOrTied(values[..|values| - 1], u, v);
    }
  }

  // ---- Spearman ----

  function Deviations(s: seq<real>): (d: seq<real>)
    requires s != []
    ensures |d| == |s|
  {
    var m := Mean(s);
    Map(v => v - m, s)
  }

  /** The sums of squares and the sum of products of two lists, read pairwise. */
  datatype Moments = Moments(xx: real, yy: real, xy: real) {
    function Extend(x: real, y: real): Moments {
      Moments(xx + x * x, yy + y * y, xy + x * y)
    }

    /** The Cauchy-Schwarz inequality. */
    predicate Bounded() {
      xx >= 0.0 && yy >= 0.0 && xy * xy <= xx * yy
    }

    predicate IsRoot(root: real) {
      root >= 0.0 && root * root == xx * yy
    }

    function Swap(): Moments {
      Moments(yy, xx, xy)
    }

    function Ratio(root: real): Option<real>
      requires IsRoot(root)
    {
      if xx == 0.0 || yy == 0.0 then None
      else
        assert root != 0.0;
        Some(xy / root)
    }
  }

  function MomentsOf(a: seq<real>, b: seq<real>): Moments
    requires |a| == |b|
  {
    if a == [] then Moments(0.0, 0.0, 0.0)
    else MomentsOf(a[..|a| - 1], b[..|b| - 1]).Extend(a[|a| - 1], b[|b| - 1])
  }

  /** sxx, syy and sxy of two lists of ranks. */
  function Centred(a: seq<real>, b: seq<real>): Moments
    requires |a| == |b| && a != []
  {
    MomentsOf(Deviations(a), Deviations(b))
  }

  predicate Comparable(x: seq<real>, y: seq<real>) {
    |x| == |y| && |x| >= 3
  }

  /** `root` is the square root the correlation divides by. */
  predicate IsRoot(root: real, a: seq<real>, b: seq<real>) {
    Comparable(a, b) ==> Centred(a, b).IsRoot(root)
  }

  function Correlation(a: seq<real>, b: seq<real>, root: real): Option<real>
    requires IsRoot(root, a, b)
  {
    if Comparable(a, b) then Centred(a, b).Ratio(root) else None
  }

  function Spearman(x: seq<real>, y: seq<real>, root: real): Option<real>
    requires IsRoot(root, AverageRanks(x), AverageRanks(y))
  {
    Correlation(AverageRanks(x), AverageRanks(y), root)
  }

  method ComputeSpearman(x: seq<real>, y: seq<real>, root: real) returns (rho: Option<real>)
    requires IsRoot(root, AverageRanks(x), AverageRanks(y))
    ensures rho == Spearman(x, y, root)
  {
    if |x| != |y| || |x| < 3 {
      return None;
    }
    var rx := Ranks(x);
    var ry := Ranks(y);
    var m := Centred(rx, ry);
    return m.Ratio(root);
  }

  /** The step of Cauchy-Schwarz: 2sab <= pbb + qaa whenever ss <= pq. */
  lemma {:induction false} CauchyStep(p: real, q: real, s: real, a: real, b: real)
    requires p >= 0.0 && q >= 0.0 && s * s <= p * q
    ensures 2.0 * (s * a * b) <= p * b * b + q * a * a
  {
    var x, y, m := p * b * b, q * a * a, (a * b) * (a * b);
    var aa := Square(a);
    var bb := Square(b);
    var mm := Square(a * b);
    var dd := Square(x - y);
    MulMonotone(mm, s * s, p * q);
    CrossSquare(s, a, b);
    CrossProduct(p, q, a, b);
    MulMonotone(p, 0.0, bb);
    MulMonotone(q, 0.0, aa);
    SquareCompare(2.0 * (s * a * b), x + y, x * y, dd);
  }

  lemma CrossSquare(s: real, a: real, b: real)
    ensures (2.0 * (s * a * b)) * (2.0 * (s * a * b)) == 4.0 * ((a * b) * (a * b) * (s * s))
  {
  }

  lemma CrossProduct(p: real, q: real, a: real, b: real)
    ensures (p * b * b) * (q * a * a) == (a * b) * (a * b) * (p * q)
    ensures p * b * b == p * (b * b) && q * a * a == q * (a * a)
  {
  }

  lemma SquareCompare(c: real, t: real, product: real, rest: real)
    requires t >= 0.0 && t * t == rest + 4.0 * product
    requires rest >= 0.0 && c * c <= 4.0 * product
    ensures c <= t
  {
    SquareOrder(c, t);
  }

  lemma {:induction false} ExtendBounded(m: Moments, x: real, y: real)
    requires m.Bounded()
    ensures m.Extend(x, y).Bounded()
  {
    var xx := Square(x);
    var yy := Square(y);
    CauchyStep(m.xx, m.yy, m.xy, x, y);
    GrowIdentity(m.xx, m.yy, m.xy, x, y);
  }

  lemma GrowIdentity(p: real, q: real, s: real, x: real, y: real)
    ensures (p + x * x) * (q + y * y) - (s + x * y) * (s + x * y)
         == (p * q - s * s) + (p * y * y + q * x * x - 2.0 * (s * x * y))
  {
  }

  lemma {:induction false} CauchySchwarz(a: seq<real>, b: seq<real>)
    requires |a| == |b|
    ensures MomentsOf(a, b).Bounded()
  {
    if a != [] {
      CauchySchwarz(a[..|a| - 1], b[..|b| - 1]);
      ExtendBounded(MomentsOf(a[..|a| - 1], b[..|b| - 1]), a[|a| - 1], b[|b| - 1]);
    }
  }

  lemma {:induction false} MomentsSwap(a: seq<real>, b: seq<real>)
    requires |a| == |b|
    ensures MomentsOf(b, a) == MomentsOf(a, b).Swap()
  {
    if a != [] {
      MomentsSwap(a[..|a| - 1], b[..|b| - 1]);
    }
  }

  lemma ExtendVanishes(m: Moments, x: real, y: real)
    requires m.xx >= 0.0
    ensures m.xx == 0.0 && x == 0.0 ==> m.Extend(x, y).xx == 0.0
    ensures m.xx != 0.0 || x != 0.0 ==> m.Extend(x, y).xx > 0.0
  {
    var square := Square(x);
  }

  lemma RatioSwap(m: Moments, root: real)
    requires m.IsRoot(root)
    ensures m.Swap().IsRoot(root) && m.Swap().Ratio(root) == m.Ratio(root)
  {
    assert m.yy * m.xx == m.xx * m.yy;
  }

  predicate AllZero(a: seq<real>) {
    forall i :: 0 <= i < |a| ==> a[i] == 0.0
  }

  /** The sum of squares of one list vanishes exactly when the list does, whatever it is paired with. */
  lemma {:induction false} SquaresVanish(a: seq<real>, b: seq<real>)
    requires |a| == |b|
    ensures AllZero(a) ==> MomentsOf(a, b).xx == 0.0
    ensures !AllZero(a) ==> MomentsOf(a, b).xx > 0.0
  {
    if a != [] {
      var init, last := a[..|a| - 1], a[|a| - 1];
      SquaresVanish(init, b[..|b| - 1]);
      ExtendVanishes(MomentsOf(init, b[..|b| - 1]), last, b[|b| - 1]);
      assert AllZero(a) <==> AllZero(init) && last == 0.0;
    }
  }

  lemma {:induction false} MomentsSelf(a: seq<real>)
    ensures MomentsOf(a, a).xx == MomentsOf(a, a).yy == MomentsOf(a, a).xy
  {
    if a != [] {
      MomentsSelf(a[..|a| - 1]);
    }
  }

  predicate Constant(s: seq<real>) {
    forall i, j :: 0 <= i < |s| && 0 <= j < |s| ==> s[i] == s[j]
  }

  lemma {:induction false} ConstantSum(s: seq<real>, c: real)
    requires forall i :: 0 <= i < |s| ==> s[i] == c
    ensures SumBy(s, Itself()) == c * |s| as real
  {
    if s != [] {
      ConstantSum(s[..|s| - 1], c);
    }
  }

  lemma ConstantMean(sum: real, n: real, c: real)
    requires n != 0.0 && sum == c * n
    ensures sum / n == c
  {
    DivideCancel(c, n);
  }

  lemma {:induction false} DeviationsVanish(s: seq<real>)
    requires s != []
    ensures AllZero(Deviations(s)) <==> Constant(s)
  {
    var d := Deviations(s);
    if Constant(s) {
      ConstantSum(s, s[0]);
      ConstantMean(SumBy(s, Itself()), |s| as real, s[0]);
    } else {
      var i, j :| 0 <= i < |s| && 0 <= j < |s| && s[i] != s[j];
      assert d[i] == s[i] - Mean(s) && d[j] == s[j] - Mean(s);
    }
  }

  /** Ranks are constant exactly when the values are. */
  lemma {:induction false} RanksConstant(x: seq<real>)
    ensures Constant(AverageRanks(x)) <==> Constant(x)
  {
    if !Constant(x) {
      var i, j :| 0 <= i < |x| && 0 <= j < |x| && x[i] < x[j];
      RankStrict(x, x[i], x[j]);
      assert AverageRanks(x)[i] < AverageRanks(x)[j];
    }
  }

  lemma {:induction false} RatioBounds(m: Moments, root: real)
    requires m.Bounded() && m.IsRoot(root) && m.Ratio(root).Some?
    ensures -1.0 <= m.Ratio(root).value <= 1.0
  {
    SquareOrder(m.xy, root);
    DivideMonotone(m.xy, root, root);
    DivideMonotone(-root, m.xy, root);
  }

  lemma {:induction false} RatioSelf(m: Moments, root: real)
    requires m.IsRoot(root) && m.xx == m.yy == m.xy && m.xx > 0.0
    ensures m.Ratio(root) == Some(1.0)
  {
    RootOfSquare(root, m.xx);
    DivideCancel(1.0, root);
  }

  lemma {:induction false} SpreadVanishes(a: seq<real>, b: seq<real>)
    requires |a| == |b| && a != []
    ensures Centred(a, b).xx == 0.0 <==> Constant(a)
    ensures Centred(a, b).yy == 0.0 <==> Constant(b)
  {
    SquaresVanish(Deviations(a), Deviations(b));
    SquaresVanish(Deviations(b), Deviations(a));
    MomentsSwap(Deviations(a), Deviations(b));
    DeviationsVanish(a);
    DeviationsVanish(b);
  }

  /** Spearman is defined exactly on two non-constant lists of one length, at least three, and lies in [-1, 1]. */
  lemma {:induction false} SpearmanBounds(x: seq<real>, y: seq<real>, root: real)
    requires IsRoot(root, AverageRanks(x), AverageRanks(y))
    ensures Spearman(x, y, root).Some? <==> Comparable(x, y) && !Constant(x) && !Constant(y)
    ensures Spearman(x, y, root).Some? ==> -1.0 <= Spearman(x, y, root).value <= 1.0
  {
    var a, b := AverageRanks(x), AverageRanks(y);
    RanksConstant(x);
    RanksConstant(y);
    if Comparable(a, b) {
      SpreadVanishes(a, b);
      CauchySchwarz(Deviations(a), Deviations(b));
      if Centred(a, b).Ratio(root).Some? {
        RatioBounds(Centred(a, b), root);
      }
    }
  }

  lemma {:induction false} SpearmanSymmetric(x: seq<real>, y: seq<real>, root: real)
    requires IsRoot(root, AverageRanks(x), AverageRanks(y))
    ensures IsRoot(root, AverageRanks(y), AverageRanks(x)) && Spearman(x, y, root) == Spearman(y, x, root)
  {
    if Comparable(x, y) {
      MomentsSwap(Deviations(AverageRanks(x)), Deviations(AverageRanks(y)));
      RatioSwap(Centred(AverageRanks(x), AverageRanks(y)), root);
    }
  }

  /** A non-constant list correlates with itself perfectly. */
  lemma {:induction false} SpearmanSelf(x: seq<real>, root: real)
    requires IsRoot(root, AverageRanks(x), AverageRanks(x)) && |x| >= 3 && !Constant(x)
    ensures Spearman(x, x, root) == Some(1.0)
  {
    var a := AverageRanks(x);
    RanksConstant(x);
    SpreadVanishes(a, a);
    MomentsSelf(Deviations(a));
    SquaresVanish(Deviations(a), Deviations(a));
    RatioSelf(Centred(a, a), root);
  }

  /** Spearman sees only the order of each list. */
  lemma {:induction false} SpearmanInvariant(f: real -> real, g: real -> real, x: seq<real>, y: seq<real>, root: real)
    requires StrictlyIncreasing(f) && StrictlyIncreasing(g)
    requires IsRoot(root, AverageRanks(x), AverageRanks(y))
    ensures IsRoot(root, AverageRanks(Map(f, x)), AverageRanks(Map(g, y)))
    ensures Spearman(Map(f, x), Map(g, y), root) == Spearman(x, y, root)
  {
    RanksInvariant(f, x);
    RanksInvariant(g, y);
  }
}
