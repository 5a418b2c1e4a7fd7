/** Integer semantics of the JVM and of the native (C++) side that the rest of
    the model relies on: 32- and 64-bit ranges, two's-complement wrap-around,
    Java's truncating division, Long.signum and the float-to-integer casts. */
module JavaInt {

  const INT_MIN: int := -0x8000_0000
  const INT_MAX: int := 0x7FFF_FFFF
  const LONG_MIN: int := -0x8000_0000_0000_0000
  const LONG_MAX: int := 0x7FFF_FFFF_FFFF_FFFF

  /** The values of a Java `int`. */
  predicate IsInt32(x: int) { INT_MIN <= x <= INT_MAX }

  /** The values of a Java `long`. */
  predicate IsInt64(x: int) { LONG_MIN <= x <= LONG_MAX }

  function Abs(x: int): int { if x < 0 then -x else x }

  /** Two's-complement wrap-around of a `long` operation. */
  function Wrap64(x: int): (r: int)
    ensures IsInt64(r)
    ensures (r - x) % 0x1_0000_0000_0000_0000 == 0
    ensures IsInt64(x) ==> r == x
  {
    (x - LONG_MIN) % 0x1_0000_0000_0000_0000 + LONG_MIN
  }

  /** Java's `/` on integers: the quotient is truncated toward zero, so the
      remainder takes the sign of the dividend (Dafny's own `/` is Euclidean). */
  function Quot(a: int, b: int): (q: int)
    requires b != 0
    ensures a >= 0 ==> 0 <= a - q * b < Abs(b)
    ensures a < 0 ==> -Abs(b) < a - q * b <= 0
  {
    if a >= 0 then
      (if b > 0 then a / b else -(a / -b))
    else
      (if b > 0 then -((-a) / b) else (-a) / (-b))
  }

  /** `Long.signum`. */
  function Signum(x: int): (s: int)
    ensures s == -1 || s == 0 || s == 1
    ensures s < 0 <==> x < 0
    ensures s == 0 <==> x == 0
  {
    if x < 0 then -1 else if x == 0 then 0 else 1
  }

  /** Truncation of a real toward zero, the integer part that a C++
      `(long) f` cast keeps (the cast is undefined outside the range). */
  function Trunc(x: real): (n: int)
    ensures x >= 0.0 ==> n as real <= x < n as real + 1.0
    ensures x < 0.0 ==> n as real - 1.0 < x <= n as real
  {
    if x >= 0.0 then x.Floor else -((-x).Floor)
  }

  /** Java's `(int) f` cast of a (non-NaN) float: truncation toward zero,
      saturating at the bounds of `int`. */
  function FloatToInt(x: real): (n: int)
    ensures IsInt32(n)
    ensures INT_MIN as real <= x <= INT_MAX as real ==> n == Trunc(x)
    ensures x >= INT_MAX as real ==> n == INT_MAX
    ensures x <= INT_MIN as real ==> n == INT_MIN
  {
    if x >= INT_MAX as real then INT_MAX
    else if x <= INT_MIN as real then INT_MIN
    else Trunc(x)
  }
}
