/** Small facts of integer and real arithmetic that the solver does not find on its own. */
module Arith {

  lemma MulAtLeast(a: int, d: int)
    requires a >= 1 && d > 0
    ensures a * d >= d
  {
    assert a * d == (a - 1) * d + d;
  }

  /** Quotient and remainder are the only pair that reassembles `n`. */
  lemma DivModUnique(n: int, d: int, q: int, r: int)
    requires d > 0 && 0 <= r < d && n == q * d + r
    ensures n / d == q && n % d == r
  {
    var q', r' := n / d, n % d;
    assert (q - q') * d == r' - r;
    if q > q' {
      MulAtLeast(q - q', d);
    } else if q < q' {
      MulAtLeast(q' - q, d);
    }
  }

  lemma MulUnit(d: real, t: real)
    requires d >= 0.0 && 0.0 <= t <= 1.0
    ensures 0.0 <= d * t <= d
  {
    assert d - d * t == d * (1.0 - t);
  }

  /** A quotient of a part by the whole lies in [0, 1]. */
  lemma DivUnit(a: real, b: real)
    requires 0.0 <= a <= b && b > 0.0
    ensures 0.0 <= a / b <= 1.0
  {
    var q := a / b;
    assert q * b == a;
  }

  /** Scaling by a positive factor keeps a strict order. */
  lemma MulStrict(a: real, c: real, w: real)
    requires a < c && w > 0.0
    ensures a * w < c * w
  {
    assert c * w - a * w == (c - a) * w;
  }
}
