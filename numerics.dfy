// C# numeric conversions the engine relies on, written out over Dafny's
// unbounded int and real.

module Numerics {

  /** C# `(int)r` on a floating-point value: truncation toward zero. */
  function Truncate(r: real): (n: int)
    ensures r >= 0.0 ==> n as real <= r < n as real + 1.0
    ensures r < 0.0 ==> n as real - 1.0 < r <= n as real
  {
    if r >= 0.0 then r.Floor else -((-r).Floor)
  }

  /** C# `a / b` on ints with a positive divisor: the quotient is truncated toward zero. */
  function Div(a: int, b: int): (q: int)
    requires b > 0
    ensures a >= 0 ==> 0 <= q * b <= a < (q + 1) * b
    ensures a < 0 ==> (q - 1) * b < a <= q * b <= 0
  {
    if a >= 0 then DivBounds(a, b); a / b else DivBounds(-a, b); -((-a) / b)
  }

  /** Euclidean division of a non-negative dividend brackets it between two multiples. */
  lemma DivBounds(n: int, b: int)
    requires n >= 0 && b > 0
    ensures 0 <= (n / b) * b <= n < (n / b + 1) * b
  {
    var q := n / b;
    assert n == q * b + n % b;
    assert (q + 1) * b == q * b + b;
  }

  /** The fraction part of a non-negative real. */
  function Frac(x: real): (f: real)
    requires x >= 0.0
    ensures 0.0 <= f < 1.0
    ensures x == x.Floor as real + f
  {
    x - x.Floor as real
  }

  /**
   * C# `x % m` on floats (fmod, the remainder of truncated division), for the
   * case the engine uses: a non-negative dividend and a whole positive modulus.
   * There fmod is x - m * Floor(x / m), and Floor(x / m) == Floor(x) / m.
   */
  function FloatRem(x: real, m: int): (r: real)
    requires x >= 0.0 && m >= 1
    ensures 0.0 <= r < m as real
  {
    (x.Floor % m) as real + Frac(x)
  }

  /** The remainder lies in [0, m) and differs from x by a whole multiple of m. */
  lemma FloatRemSpec(x: real, m: int)
    requires x >= 0.0 && m >= 1
    ensures 0.0 <= FloatRem(x, m) < m as real
    ensures x == ((x.Floor / m) * m) as real + FloatRem(x, m)
  {
    var n := x.Floor;
    assert n == (n / m) * m + n % m;
  }

  /** A dividend already below the modulus is returned unchanged. */
  lemma FloatRemBelow(x: real, m: int)
    requires 0.0 <= x < m as real && m >= 1
    ensures FloatRem(x, m) == x
  {
    var n := x.Floor;
    assert 0 <= n < m;
    assert n % m == n;
  }
}
