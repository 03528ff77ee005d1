/** The arithmetic of JavaScript numbers the site uses, on integers. */
module JsMath {

  /** Milliseconds in a day, the divisor of every day count on the site. */
  const MsPerDay: int := 1000 * 60 * 60 * 24

  /** `Math.ceil(a / b)` for an integer `a` and a positive integer `b`. */
  function CeilDiv(a: int, b: int): (r: int)
    requires b > 0
    ensures (r - 1) * b < a <= r * b
  {
    var q := (-a) / b;
    assert -a == q * b + (-a) % b;
    -q
  }

  /** The ceiling is the only integer with that property. */
  lemma CeilDivUnique(a: int, b: int, r: int)
    requires b > 0
    requires (r - 1) * b < a <= r * b
    ensures r == CeilDiv(a, b)
  {
  }

  /** A positive quotient rounds up to at least one. */
  lemma CeilDivPositive(a: int, b: int)
    requires a > 0 && b > 0
    ensures CeilDiv(a, b) >= 1
  {
  }

  /** The ceiling is monotonic in the dividend. */
  lemma CeilDivMonotonic(a: int, a': int, b: int)
    requires b > 0 && a <= a'
    ensures CeilDiv(a, b) <= CeilDiv(a', b)
  {
  }
}
