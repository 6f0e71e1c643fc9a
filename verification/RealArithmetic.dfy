/** Products, quotients and Python's `round` over exact reals. */
module RealArithmetic {

  /** The product of two positive numbers. It is returned because the sign of `x * x` is otherwise simplified away. */
  lemma MulPositive(a: real, b: real) returns (c: real)
    requires a > 0.0 && b > 0.0
    ensures c == a * b && c > 0.0
  {
    c := a * b;
  }

  lemma Square(x: real) returns (y: real)
    ensures y == x * x && y >= 0.0
    ensures x == 0.0 <==> y == 0.0
  {
    if x > 0.0 {
      y := MulPositive(x, x);
    } else if x < 0.0 {
      y := MulPositive(-x, -x);
    } else {
      y := 0.0;
    }
  }

  lemma MulMonotone(c: real, x: real, y: real)
    requires c >= 0.0 && x <= y
    ensures c * x <= c * y
  {
    assert c * y - c * x == c * (y - x);
  }

  lemma SquareOrder(s: real, r: real)
    requires r >= 0.0 && s * s <= r * r
    ensures -r <= s <= r
  {
    if s > r {
      var c := MulPositive(s - r, s + r);
    }
    if s < -r {
      var c := MulPositive(-r - s, r - s);
    }
  }

  lemma RootOfSquare(root: real, s: real)
    requires root >= 0.0 && s > 0.0 && root * root == s * s
    ensures root == s
  {
    SquareOrder(root, s);
    SquareOrder(s, root);
  }

  lemma DivideCancel(x: real, c: real)
    requires c != 0.0
    ensures x * c / c == x
  {
  }

  /** Cancelling a common factor. */
  lemma CancelFactor(x: real, y: real, x': real, y': real, a: real)
    requires a != 0.0 && y != 0.0 && y' != 0.0 && x' == a * x && y' == a * y
    ensures x' / y' == x / y
  {
    assert (x / y) * y' == x';
    DivideCancel(x / y, y');
  }

  /** A quotient of numbers with |x| <= y lies in [-1, 1], and is 1 exactly when x is y. */
  lemma UnitQuotient(x: real, y: real)
    requires y > 0.0 && -y <= x <= y
    ensures -1.0 <= x / y <= 1.0 && (x / y == 1.0 <==> x == y)
  {
    DivideMonotone(x, y, y);
    DivideMonotone(-y, x, y);
    DivideCancel(-1.0, y);
    assert x / y * y == x;
  }

  lemma DivideMonotone(x: real, y: real, c: real)
    requires x <= y && c > 0.0
    ensures x / c <= y / c
  {
    var p, q := x / c, y / c;
    assert c * p == x && c * q == y;
    if p > q {
      var d := MulPositive(c, p - q);
    }
  }

  /** Python's `round`: to the nearest integer, halves to the even neighbour. */
  function RoundHalfEven(x: real): (r: int)
    ensures -0.5 <= x - r as real <= 0.5
  {
    var f := x.Floor;
    var d := x - f as real;
    if d < 0.5 then f
    else if d > 0.5 then f + 1
    else if f % 2 == 0 then f
    else f + 1
  }

  /** Python's `round(x, d)` with `scale == 10 ** d`, on exact numbers. */
  function RoundAt(x: real, scale: real): real
    requires scale > 0.0
  {
    RoundHalfEven(x * scale) as real / scale
  }

  lemma {:induction false} RoundHalfEvenMonotone(x: real, y: real)
    requires x <= y
    ensures RoundHalfEven(x) <= RoundHalfEven(y)
  {
    assert x.Floor <= y.Floor;
  }

  lemma {:induction false} RoundAtMonotone(x: real, y: real, scale: real)
    requires scale > 0.0 && x <= y
    ensures RoundAt(x, scale) <= RoundAt(y, scale)
  {
    MulMonotone(scale, x, y);
    RoundHalfEvenMonotone(x * scale, y * scale);
    DivideMonotone(RoundHalfEven(x * scale) as real, RoundHalfEven(y * scale) as real, scale);
  }

  /** Rounding keeps the numbers that are already on the grid. */
  lemma {:induction false} RoundAtGrid(x: real, scale: real, n: int)
    requires scale > 0.0 && x * scale == n as real
    ensures RoundAt(x, scale) == x
  {
    assert RoundHalfEven(n as real) == n;
    DivideCancel(x, scale);
  }
}
