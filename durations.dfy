/** Durations as integer nanoseconds, and the arithmetic the back-off
    formulas use: exact integer powers, the exponential function and the
    truncating float-to-duration conversion. */
module Durations {

  /** A signed time span in nanoseconds. Unbounded: int64 overflow is not modelled. */
  type Duration = int

  const Nanosecond: Duration := 1
  const Millisecond: Duration := 1_000_000 * Nanosecond
  const Second: Duration := 1000 * Millisecond
  const Minute: Duration := 60 * Second
  const Hour: Duration := 60 * Minute

  /** base^k on integers, the value math.Pow gives for an integer base when no rounding occurs. */
  function Pow(base: int, k: nat): (r: int)
    ensures k == 0 ==> r == 1
    ensures base >= 1 ==> r >= 1
    decreases k
  {
    if k == 0 then 1 else base * Pow(base, k - 1)
  }

  /** The float64 value closest to Euler's number, 6121026514868073 * 2^-51, exactly. */
  const E: real := 6121026514868073.0 / 2251799813685248.0

  /** r^k on reals. */
  function PowR(r: real, k: nat): (p: real)
    ensures r > 0.0 ==> p > 0.0
    ensures r >= 1.0 ==> p >= 1.0
    decreases k
  {
    if k == 0 then 1.0 else r * PowR(r, k - 1)
  }

  /** e^k for an integer exponent, computed exactly on reals. */
  function Exp(k: int): (r: real)
    ensures r > 0.0
    ensures k == 0 ==> r == 1.0
    ensures k >= 0 ==> r >= 1.0
  {
    if k >= 0 then PowR(E, k) else 1.0 / PowR(E, -k)
  }

  /** Conversion of a real to a duration, truncating toward zero as Go's float64-to-integer conversion does. */
  function Trunc(x: real): (d: Duration)
    ensures x >= 0.0 ==> d as real <= x < d as real + 1.0
    ensures x <= 0.0 ==> d as real - 1.0 < x <= d as real
  {
    if x >= 0.0 then x.Floor else -((-x).Floor)
  }

  /** Truncation toward zero keeps the order of its arguments. */
  lemma TruncMonotone(x: real, y: real)
    requires x <= y
    ensures Trunc(x) <= Trunc(y)
  {
  }

  /** e^(k+1) = e * e^k for a non-negative exponent. */
  lemma ExpSucc(k: nat)
    ensures Exp(k + 1) == E * Exp(k)
  {
  }

  /** Dividing a non-negative amount by a larger divisor gives a smaller share. */
  lemma DivAntitone(x: real, y: real, z: real)
    requires x >= 0.0 && 0.0 < y <= z
    ensures x / z <= x / y
  {
    assert x / z * z == x;
    assert x / y * y == x;
    assert x / z * y <= x / z * z;
  }

  /** E lies within half a float64 step (2^-52, the spacing between 2 and 4
      being 2^-51) of e, which is between 2.71828182845904523 and
      2.71828182845904524; so E is the float64 nearest e. */
  lemma ENearest()
    ensures 2.71828182845904524 - 1.0 / 4503599627370496.0 < E < 2.71828182845904523 + 1.0 / 4503599627370496.0
  {
  }
}
