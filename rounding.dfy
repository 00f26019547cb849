/**
 * `Math.round(n / d)` for integers n and a positive integer d, computed
 * exactly. `Math.round(x)` is floor(x + 1/2): the nearest integer, with
 * halves going up, so the result is floor((2n + d) / (2d)).
 */
module Rounding {

  /** `r` is the nearest integer to n/d, halves going up: r - 1/2 <= n/d < r + 1/2. */
  ghost predicate IsRounded(r: int, n: int, d: int) {
    d * (2 * r - 1) <= 2 * n < d * (2 * r + 1)
  }

  /** `Math.round(n / d)` for a positive denominator. */
  function RoundDiv(n: int, d: int): (r: int)
    requires d > 0
    ensures IsRounded(r, n, d)
  {
    var r := (2 * n + d) / (2 * d);
    assert 2 * d * r <= 2 * n + d < 2 * d * r + 2 * d;
    r
  }

  /** Cancelling a positive factor from both sides of a comparison. */
  lemma CancelFactor(d: int, x: int, y: int)
    requires d > 0
    ensures d * x <= d * y ==> x <= y
    ensures d * x < d * y ==> x < y
  {
    if x > y {
      assert d * x - d * y == d * (x - y);
    }
  }

  /** The characterisation fixes the result: there is exactly one rounded quotient. */
  lemma RoundedUnique(r: int, r': int, n: int, d: int)
    requires d > 0 && IsRounded(r, n, d) && IsRounded(r', n, d)
    ensures r == r'
  {
    CancelFactor(d, 2 * r - 1, 2 * r' + 1);
    CancelFactor(d, 2 * r' - 1, 2 * r + 1);
  }

  /** A larger numerator never rounds to a smaller quotient. */
  lemma RoundDivMonotonic(m: int, n: int, d: int)
    requires m <= n && d > 0
    ensures RoundDiv(m, d) <= RoundDiv(n, d)
  {
    var a, b := RoundDiv(m, d), RoundDiv(n, d);
    CancelFactor(d, 2 * a - 1, 2 * b + 1);
  }

  /** `Math.round(n / d * 100)`: a part of a whole as a rounded percentage. */
  function RoundedPercent(n: int, d: int): (r: int)
    requires d > 0
    ensures IsRounded(r, 100 * n, d)
  {
    RoundDiv(100 * n, d)
  }

  /** A part of a whole rounds to a percentage between 0 and 100. */
  lemma RoundedPercentBounds(n: int, d: int)
    requires 0 <= n <= d
    requires d > 0
    ensures 0 <= RoundedPercent(n, d) <= 100
  {
    var r := RoundedPercent(n, d);
    CancelFactor(d, 2 * r - 1, 200);
    CancelFactor(d, 0, 2 * r + 1);
  }

  /**
   * When two parts make up the whole, their rounded percentages add up to 100
   * or, when both round up from a half, to 101.
   */
  lemma RoundedPercentsOfSplit(a: int, b: int, m: int, n: int, d: int)
    requires d > 0 && m + n == d
    requires IsRounded(a, 100 * m, d) && IsRounded(b, 100 * n, d)
    ensures a + b == 100 || a + b == 101
  {
    var lo, hi := 2 * (a + b) - 2, 2 * (a + b) + 2;
    assert d * lo == d * (2 * a - 1) + d * (2 * b - 1);
    assert d * hi == d * (2 * a + 1) + d * (2 * b + 1);
    CancelFactor(d, lo, 200);
    CancelFactor(d, 200, hi);
  }
}
