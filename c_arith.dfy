/**
 * C integer division. C's `/` truncates toward zero, Dafny's `/` is
 * Euclidean; the two differ whenever the numerator is negative.
 */
module CArith {

  function Abs(x: int): nat
  {
    if x < 0 then -x else x
  }

  /** C's `a / b`: the quotient truncated toward zero. */
  function Quot(a: int, b: int): int
    requires b != 0
  {
    if a >= 0 then
      if b > 0 then a / b else -(a / -b)
    else
      if b > 0 then -(-a / b) else -a / -b
  }

  /**
   * The remainder truncation leaves is smaller than the divisor and never
   * has the opposite sign of the numerator.
   */
  lemma QuotRemainder(a: int, b: int)
    requires b != 0
    ensures Abs(a - Quot(a, b) * b) < Abs(b)
    ensures a >= 0 ==> a - Quot(a, b) * b >= 0
    ensures a <= 0 ==> a - Quot(a, b) * b <= 0
  {
  }

  /** Truncation is the only quotient with those two properties. */
  lemma {:induction false} QuotUnique(a: int, b: int, q: int)
    requires b != 0
    requires Abs(a - q * b) < Abs(b)
    requires a >= 0 ==> a - q * b >= 0
    requires a <= 0 ==> a - q * b <= 0
    ensures q == Quot(a, b)
  {
    var p := Quot(a, b);
    QuotRemainder(a, b);
    if q != p {
      var d := (q - p) * b;
      assert d == q * b - p * b by {
        MulSubtract(q, p, b);
      }
      AtLeastDivisor(q - p, b);
      assert false;
    }
  }

  lemma MulSubtract(q: int, p: int, b: int)
    ensures (q - p) * b == q * b - p * b
  {
  }

  lemma AtLeastDivisor(k: int, b: int)
    requires k != 0 && b != 0
    ensures Abs(k * b) >= Abs(b)
  {
    AbsMul(k, b);
    MulAtLeast(Abs(k), Abs(b));
  }

  lemma AbsMul(k: int, b: int)
    ensures Abs(k * b) == Abs(k) * Abs(b)
  {
    if k < 0 {
      assert k * b == -((-k) * b);
    }
    if b < 0 {
      assert k * b == -(k * -b);
    }
  }

  lemma {:induction false} MulAtLeast(k: nat, b: nat)
    requires k >= 1
    ensures k * b >= b
  {
    if k > 1 {
      MulAtLeast(k - 1, b);
      assert k * b == (k - 1) * b + b;
    }
  }

  /** A quotient and remainder in range are the ones Euclidean division gives. */
  lemma ModUnique(x: int, q: int, m: int, r: int)
    requires m > 0 && x == q * m + r && 0 <= r < m
    ensures x % m == r && x / m == q
  {
    var q', r' := x / m, x % m;
    assert x == q' * m + r';
    if q != q' {
      MulSubtract(q, q', m);
      AtLeastDivisor(q - q', m);
      assert false;
    }
  }

  /** On a non-negative numerator and a positive divisor both divisions agree. */
  lemma QuotNonNegative(a: nat, b: int)
    requires b > 0
    ensures Quot(a, b) == a / b
  {
  }

  /** Truncation is symmetric: negating the numerator negates the quotient. */
  lemma QuotNegate(a: int, b: int)
    requires b != 0
    ensures Quot(-a, b) == -Quot(a, b)
  {
  }
}
