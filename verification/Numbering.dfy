/** Ids made of a prefix, a hyphen and a decimal index. */
module Numbering {
  const DIGITS := "0123456789"

  function Decimal(n: nat): (s: string)
    ensures s != []
  {
    if n < 10 then [DIGITS[n]] else Decimal(n / 10) + [DIGITS[n % 10]]
  }

  function Numbered(prefix: string, n: nat): string {
    prefix + "-" + Decimal(n)
  }

  lemma {:induction false} DigitsDiffer(i: nat, j: nat)
    requires i < 10 && j < 10
    ensures DIGITS[i] != '-' && (DIGITS[i] == DIGITS[j] <==> i == j)
  {
    assert DIGITS[0] == '0' && DIGITS[1] == '1' && DIGITS[2] == '2' && DIGITS[3] == '3' && DIGITS[4] == '4';
    assert DIGITS[5] == '5' && DIGITS[6] == '6' && DIGITS[7] == '7' && DIGITS[8] == '8' && DIGITS[9] == '9';
  }

  lemma {:induction false} NoHyphen(n: nat)
    ensures '-' !in Decimal(n)
  {
    DigitsDiffer(n % 10, 0);
    if n >= 10 {
      NoHyphen(n / 10);
    }
  }

  lemma {:induction false} DecimalInjective(m: nat, n: nat)
    requires Decimal(m) == Decimal(n)
    ensures m == n
  {
    var s, t := Decimal(m), Decimal(n);
    DigitsDiffer(m % 10, n % 10);
    assert s[|s| - 1] == DIGITS[m % 10] && t[|t| - 1] == DIGITS[n % 10];
    if m >= 10 && n >= 10 {
      assert Decimal(m / 10) == s[..|s| - 1] && Decimal(n / 10) == t[..|t| - 1];
      DecimalInjective(m / 10, n / 10);
    }
  }

  /** A text that ends in two hyphen-free parts after a hyphen is split in one way only. */
  lemma {:induction false} LastHyphen(p: string, a: string, q: string, b: string)
    requires '-' !in a && '-' !in b && p + "-" + a == q + "-" + b
    ensures p == q && a == b
  {
    var s := p + "-" + a;
    assert s[|p|] == '-' && s[|q|] == '-' && |s| == |p| + 1 + |a| == |q| + 1 + |b|;
    assert forall k :: |p| < k < |s| ==> s[k] == a[k - |p| - 1] != '-';
    assert forall k :: |q| < k < |s| ==> s[k] == b[k - |q| - 1] != '-';
    assert |p| == |q|;
    assert p == s[..|p|] && q == s[..|p|] && a == s[|p| + 1..] && b == s[|p| + 1..];
  }

  /** The index of a numbered id can be read back, whatever the prefixes: the digits after the last hyphen. */
  lemma {:induction false} NumberedInjective(p: string, m: nat, q: string, n: nat)
    requires Numbered(p, m) == Numbered(q, n)
    ensures p == q && m == n
  {
    NoHyphen(m);
    NoHyphen(n);
    LastHyphen(p, Decimal(m), q, Decimal(n));
    DecimalInjective(m, n);
  }
}
