/** C integer arithmetic where it differs from Dafny's. */
module CArith {

  /** How often b goes into a. */
  function Quotient(a: nat, b: nat): nat
    requires b > 0
    decreases a
  {
    if a < b then 0 else 1 + Quotient(a - b, b)
  }

  /** C's signed division, which truncates toward zero. */
  function TruncDiv(a: int, b: int): int
    requires b != 0
  {
    var q: int := Quotient(Abs(a), Abs(b));
    if (a >= 0) == (b > 0) then q else -q
  }

  function Abs(a: int): nat {
    if a < 0 then -a else a
  }

  lemma {:induction false} QuotientBounds(a: nat, b: nat)
    requires b > 0
    ensures b * Quotient(a, b) <= a < b * Quotient(a, b) + b
    decreases a
  {
    if a < b {
    } else {
      QuotientBounds(a - b, b);
      var q := Quotient(a - b, b);
      assert b * (1 + q) == b + b * q;
    }
  }

  /** The quotient is the one with q*b nearest a on the zero side. */
  lemma TruncDivBounds(a: int, b: int)
    requires b > 0
    ensures a >= 0 ==> 0 <= TruncDiv(a, b) && b * TruncDiv(a, b) <= a < b * TruncDiv(a, b) + b
    ensures a <= 0 ==> TruncDiv(a, b) <= 0 && b * TruncDiv(a, b) - b < a <= b * TruncDiv(a, b)
  {
    var q: int := Quotient(Abs(a), b);
    QuotientBounds(Abs(a), b);
    assert b * (-q) == -(b * q);
  }

  lemma MulLess(x: int, y: int, b: int)
    requires b > 0 && b * x < b * y
    ensures x < y
  {
  }

  /** Truncating division by a positive number is monotone. */
  lemma TruncDivMonotone(a: int, a': int, b: int)
    requires b > 0 && a <= a'
    ensures TruncDiv(a, b) <= TruncDiv(a', b)
  {
    TruncDivBounds(a, b);
    TruncDivBounds(a', b);
    var x, y := TruncDiv(a, b), TruncDiv(a', b);
    if x > y {
      assert b * (y + 1) == b * y + b;
      if a >= 0 {
        MulLess(x, y + 1, b);
      } else if a' <= 0 {
        assert b * (x - 1) == b * x - b;
        MulLess(x - 1, y, b);
      }
    }
  }

  /** The bounds pin the quotient down. */
  lemma TruncDivUnique(a: int, b: int, q: int)
    requires b > 0
    requires if a >= 0 then b * q <= a < b * q + b else b * q - b < a <= b * q
    ensures TruncDiv(a, b) == q
  {
    TruncDivBounds(a, b);
    var x := TruncDiv(a, b);
    if a >= 0 {
      NotPast(a, b, x, q);
      NotPast(a, b, q, x);
    } else {
      assert b * (-q) == -(b * q) && b * (-x) == -(b * x);
      NotPast(-a, b, -x, -q);
      NotPast(-a, b, -q, -x);
    }
  }

  lemma NotPast(a: int, b: int, x: int, q: int)
    requires b > 0 && b * x <= a < b * q + b
    ensures x <= q
  {
    assert b * (q + 1) == b * q + b;
    MulLess(x, q + 1, b);
  }

  lemma TruncDivAddDivisor(a: int, b: int, q: int)
    requires b > 0 && (a >= 0 || a + b < 0) && TruncDiv(a, b) == q
    ensures TruncDiv(a + b, b) == q + 1
  {
    TruncDivBounds(a, b);
    assert b * (q + 1) == b * q + b;
    TruncDivUnique(a + b, b, q + 1);
  }

  /** Between -divisor and the divisor the quotient is zero, and -divisor itself gives -1. */
  lemma TruncDivSmall(a: int, b: int)
    requires b > 0 && -b <= a < b
    ensures TruncDiv(a, b) == if a == -b then -1 else 0
  {
    TruncDivUnique(a, b, if a == -b then -1 else 0);
  }

  /** Adding at most the divisor to the dividend raises the quotient by at most one. */
  lemma TruncDivStep(a: int, d: int, b: int)
    requires b > 0 && d <= b
    ensures TruncDiv(a + d, b) <= TruncDiv(a, b) + 1
  {
    TruncDivMonotone(a + d, a + b, b);
    if a >= 0 || a + b < 0 {
      TruncDivAddDivisor(a, b, TruncDiv(a, b));
    } else {
      TruncDivSmall(a, b);
      TruncDivSmall(a + b, b);
    }
  }

  /** Adding at most k divisors raises the quotient by at most k. */
  lemma {:induction false} TruncDivSteps(a: int, d: int, b: int, k: nat)
    requires b > 0 && d <= k * b
    ensures TruncDiv(a + d, b) <= TruncDiv(a, b) + k
    decreases k
  {
    if k == 0 {
      TruncDivMonotone(a + d, a, b);
    } else {
      assert (k - 1) * b == k * b - b;
      TruncDivSteps(a, d - b, b, k - 1);
      TruncDivStep(a + d - b, b, b);
    }
  }
}
