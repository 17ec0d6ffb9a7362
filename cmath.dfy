/** The two pieces of C++ arithmetic the games rely on that Dafny's own operators do not
    match: `static_cast<int>` of a floating-point value (truncation toward zero) and the
    integer `%` operator (whose result takes the sign of the dividend). */
module CMath {

  function Abs(n: int): nat {
    if n < 0 then -n else n
  }

  /** `static_cast<int>(x)`: drops the fractional part, rounding toward zero. */
  function Trunc(x: real): (n: int)
    ensures x >= 0.0 ==> 0 <= n && n as real <= x < n as real + 1.0
    ensures x < 0.0 ==> n <= 0 && n as real - 1.0 < x <= n as real
  {
    if x >= 0.0 then x.Floor else -((-x).Floor)
  }

  /** C++ `a / b` on integers: the quotient truncated toward zero. */
  function Quot(a: int, b: int): int
    requires b != 0
  {
    if a >= 0 then a / b else -((-a) / b)
  }

  /** C++ `a % b`: the remainder of the division truncated toward zero, so that the
      quotient times the divisor plus the remainder gives back the dividend. */
  function Rem(a: int, b: int): (r: int)
    requires b != 0
    ensures a == Quot(a, b) * b + r
    ensures a >= 0 ==> 0 <= r < Abs(b)
    ensures a < 0 ==> 0 - Abs(b) < r <= 0
  {
    if a >= 0 then a % b
    else
      assert -a == (-a) / b * b + (-a) % b;
      -((-a) % b)
  }
}
