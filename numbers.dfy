/**
  Integer arithmetic as the backend (Python) and the frontend (JavaScript) perform it, and the
  decimal rendering both use when a number is put into a string.
  Dafny's `/` and `%` are Euclidean; for a positive divisor `/` is the floor, which is what
  JavaScript's `Math.floor(a / b)` computes on integers. Python's `int()` of a quotient and
  JavaScript's `%` truncate toward zero instead, so they are written out here.
*/
module Numbers {

  /** `Math.floor(a / b)` for integers and a positive divisor. */
  function FloorDiv(a: int, b: int): (q: int)
    requires b > 0
    ensures b * q <= a < b * q + b
  {
    a / b
  }

  /** Python's `int(a / b)`: the quotient truncated toward zero. */
  function TruncDiv(a: int, b: int): int
    requires b > 0
  {
    if a >= 0 then a / b else -((-a) / b)
  }

  /** JavaScript's `a % b`: the remainder carries the sign of the dividend. */
  function TruncRem(a: int, b: int): int
    requires b > 0
  {
    if a >= 0 then a % b else -((-a) % b)
  }

  /** Truncating division and remainder rebuild the dividend, and both round toward zero. */
  lemma TruncDivRem(a: int, b: int)
    requires b > 0
    ensures a == b * TruncDiv(a, b) + TruncRem(a, b)
    ensures a >= 0 ==> TruncDiv(a, b) >= 0 && 0 <= TruncRem(a, b) < b
    ensures a < 0 ==> TruncDiv(a, b) <= 0 && -b < TruncRem(a, b) <= 0
  {
    var q, r := TruncDiv(a, b), TruncRem(a, b);
    if a >= 0 {
      DivMod(a, b);
    } else {
      DivMod(-a, b);
      assert -a == b * (-q) + (-r);
      NegMul(b, q);
    }
  }

  /** Euclidean division by a positive divisor, spelled out for the solver. */
  lemma DivMod(n: int, b: int)
    requires n >= 0 && b > 0
    ensures n == b * (n / b) + n % b && 0 <= n % b < b && n / b >= 0
  {}

  lemma NegMul(b: int, q: int)
    ensures b * (-q) == -(b * q)
  {}

  predicate IsDigit(c: char) {
    '0' <= c <= '9'
  }

  predicate AllDigits(s: string) {
    forall i | 0 <= i < |s| :: IsDigit(s[i])
  }

  function DigitChar(d: nat): (c: char)
    requires d < 10
    ensures IsDigit(c)
  {
    ('0' as int + d) as char
  }

  function DigitValue(c: char): (d: nat)
    requires IsDigit(c)
    ensures d < 10 && DigitChar(d) == c
  {
    c as int - '0' as int
  }

  /** The decimal digits of `n`, most significant first, without leading zeros. */
  function NatToString(n: nat): (s: string)
    ensures |s| >= 1 && AllDigits(s)
    ensures |s| > 1 ==> s[0] != '0'
    decreases n
  {
    if n < 10 then [DigitChar(n)] else NatToString(n / 10) + [DigitChar(n % 10)]
  }

  /** How Python's `str()` and a JavaScript template literal print an integer. */
  function IntToString(i: int): (s: string)
    ensures |s| >= 1
    ensures s[0] == '-' <==> i < 0
  {
    if i < 0 then "-" + NatToString(-i) else NatToString(i)
  }

  /** Reads a string of decimal digits back as a number. */
  function ParseNat(s: string): nat
    requires AllDigits(s)
  {
    if s == [] then 0 else 10 * ParseNat(s[..|s| - 1]) + DigitValue(s[|s| - 1])
  }

  /** Printing a natural number and reading it back gives the number. */
  lemma {:induction false} ParseNatToString(n: nat)
    ensures ParseNat(NatToString(n)) == n
  {
    var s := NatToString(n);
    if n < 10 {
      assert s[..|s| - 1] == [];
    } else {
      assert s[..|s| - 1] == NatToString(n / 10);
      ParseNatToString(n / 10);
    }
  }

  /** Different numbers print differently. */
  lemma NatToStringInjective(m: nat, n: nat)
    requires NatToString(m) == NatToString(n)
    ensures m == n
  {
    ParseNatToString(m);
    ParseNatToString(n);
  }
}
