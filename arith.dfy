/** Facts about integer multiplication and Euclidean division that the solver does not
    find unaided. */
module Arith {

  /** A positive factor keeps a non-zero multiplier away from zero. */
  lemma MulBounds(b: int, d: int)
    requires b > 0
    ensures d >= 1 ==> b * d >= b
    ensures d <= -1 ==> b * d <= -b
  {
    if d >= 1 { assert b * d == b * (d - 1) + b; }
    if d <= -1 { assert b * d == b * (d + 1) - b; }
  }

  /** Quotient and remainder are the only pair with x == b * q + r and 0 <= r < b. */
  lemma DivModUnique(x: int, b: int, q: int, r: int)
    requires b > 0 && 0 <= r < b && x == b * q + r
    ensures x / b == q && x % b == r
  {
    assert x == b * (x / b) + x % b;
    assert b * (q - x / b) == x % b - r;
    MulBounds(b, q - x / b);
  }

  /** A quotient stays below m when the dividend stays below b * m. */
  lemma DivBelow(x: int, b: int, m: int)
    requires b > 0 && 0 <= x < b * m
    ensures x / b < m
  {
    assert x == b * (x / b) + x % b;
    MulBounds(b, x / b - m + 1);
    assert b * (x / b - m + 1) == b * (x / b) - b * m + b;
  }

  /** Adding one to x moves its remainder one step along, wrapping to 0. */
  lemma ModSucc(x: int, b: int)
    requires b > 0
    ensures (x + 1) % b == if x % b + 1 < b then x % b + 1 else 0
  {
    var q, r := x / b, x % b;
    assert x == b * q + r;
    if r + 1 < b {
      DivModUnique(x + 1, b, q, r + 1);
    } else {
      assert x + 1 == b * (q + 1);
      DivModUnique(x + 1, b, q + 1, 0);
    }
  }
}
