/** Integer operators of C and C++ that differ from Dafny's. */
module CInt {
  function Abs(a: int): int { if a < 0 then -a else a }

  function Max(a: int, b: int): (m: int)
    ensures m >= a && m >= b && (m == a || m == b)
  {
    if a > b then a else b
  }

  /**
   * C's `/` on `int`: the quotient is truncated toward zero, so the remainder
   * takes the sign of the dividend (Dafny's `/` is Euclidean instead).
   */
  function Div(a: int, b: int): (q: int)
    requires b != 0
    ensures a >= 0 ==> 0 <= a - q * b < Abs(b)
    ensures a < 0 ==> -Abs(b) < a - q * b <= 0
  {
    if a >= 0 then (if b > 0 then a / b else -(a / -b))
    else (if b > 0 then -((-a) / b) else (-a) / (-b))
  }

  /** On a non-negative dividend and a positive divisor, C and Dafny agree. */
  lemma DivNonNegative(a: int, b: int)
    requires a >= 0 && b > 0
    ensures Div(a, b) == a / b
  {
  }

  lemma MulLeq(x: int, y: int, b: int)
    requires x <= y && b >= 0
    ensures x * b <= y * b
  {
    assert y * b - x * b == (y - x) * b;
  }

  /** Dividing a non-negative numerator by a fixed positive divisor is monotone. */
  lemma DivMonotone(a: int, a': int, b: int)
    requires 0 <= a <= a' && b > 0
    ensures Div(a, b) <= Div(a', b)
  {
    var q, q' := a / b, a' / b;
    if q > q' {
      MulLeq(q' + 1, q, b);
      assert a' < (q' + 1) * b;
    }
  }

  /** An exact multiple divides back to its factor. */
  lemma DivExact(k: int, b: int)
    requires k >= 0 && b > 0
    ensures Div(k * b, b) == k
  {
    var q := Div(k * b, b);
    assert k * b - q * b == (k - q) * b;
    if k - q >= 1 {
      MulLeq(1, k - q, b);
    } else if k - q <= -1 {
      MulLeq(k - q, -1, b);
    }
  }

  /** A quotient and remainder in range are the Euclidean ones. */
  lemma DivModUnique(n: int, d: int, q: int, r: int)
    requires d > 0 && n == q * d + r && 0 <= r < d
    ensures n / d == q && n % d == r
  {
    var q', r' := n / d, n % d;
    assert (q - q') * d == r' - r;
    if q > q' {
      MulLeq(1, q - q', d);
    } else if q < q' {
      MulLeq(1, q' - q, d);
    }
  }
}
