/** Numeric building blocks shared by the firmware model: the NaN-aware float
    value, 32-bit unsigned clock arithmetic, the square root the firmware takes
    from its maths library, and the float-to-integer truncation of C. */
module Arith {

  /** A float read from a driver: `None` stands for NaN. */
  datatype Option<+T> = None | Some(value: T)

  /** 2^32: `unsigned long` and `uint32_t` on the ESP32 are 32 bits wide. */
  const U32: nat := 0x1_0000_0000

  /** `a - b` on 32-bit unsigned values, which wraps around modulo 2^32. */
  function WrapSub(a: nat, b: nat): (d: nat)
    requires a < U32 && b < U32
    ensures d < U32
    ensures a >= b ==> d == a - b
    ensures a < b ==> d == U32 + a - b
  {
    (a - b) % U32
  }

  /** The wrapped difference is zero exactly when the two clock values agree. */
  lemma WrapSubZero(a: nat, b: nat)
    requires a < U32 && b < U32
    ensures WrapSub(a, b) == 0 <==> a == b
  {
  }

  /** What the model assumes of the library square root on its domain. */
  ghost predicate IsSqrt(sqrt: real -> real) {
    forall x: real :: x >= 0.0 ==> sqrt(x) >= 0.0 && sqrt(x) * sqrt(x) == x
  }

  /** A non-negative square root is unique: any `s >= 0` with `s * s == x` is
      what the library returns. */
  lemma SqrtUnique(sqrt: real -> real, x: real, s: real)
    requires IsSqrt(sqrt)
    requires s >= 0.0 && s * s == x
    ensures sqrt(x) == s
  {
    var r := sqrt(x);
    assert r >= 0.0 && r * r == x;
    assert (r - s) * (r + s) == 0.0;
    if r + s != 0.0 {
      assert r - s == ((r - s) * (r + s)) / (r + s);
    }
  }

  /** A square root of a value at most 1 is at most 1. */
  lemma SqrtAtMostOne(sqrt: real -> real, x: real)
    requires IsSqrt(sqrt)
    requires 0.0 <= x <= 1.0
    ensures 0.0 <= sqrt(x) <= 1.0
  {
    var r := sqrt(x);
    assert r >= 0.0 && r * r == x;
  }

  /** Scaling by a factor in [0, 1] moves a value toward 0 and never past it. */
  lemma ScaledWithin(x: real, k: real)
    requires 0.0 <= k <= 1.0
    ensures x >= 0.0 ==> 0.0 <= x * k <= x
  {
    if x >= 0.0 {
      assert x * (1.0 - k) >= 0.0;
    }
  }

  lemma DivideMonotone(a: real, b: real, d: real)
    requires d > 0.0 && a <= b
    ensures a / d <= b / d
  {
    assert b / d - a / d == (b - a) / d;
  }

  lemma MultiplyMonotone(x: real, y: real, c: real)
    requires x <= y && c >= 0.0
    ensures x * c <= y * c
  {
    assert y * c - x * c == (y - x) * c;
  }

  function Abs(x: real): real {
    if x < 0.0 then -x else x
  }

  /** C's conversion of a float to an integer type: truncation toward zero. */
  function Trunc(x: real): (n: int)
    ensures x >= 0.0 ==> 0 <= n && n as real <= x < n as real + 1.0
    ensures x < 0.0 ==> n <= 0 && n as real - 1.0 < x <= n as real
  {
    if x >= 0.0 then x.Floor else -((-x).Floor)
  }

  /** Truncation never decreases when its argument does not. */
  lemma TruncMonotone(x: real, y: real)
    requires x <= y
    ensures Trunc(x) <= Trunc(y)
  {
    if x >= 0.0 {
      assert x.Floor <= y.Floor;
    } else if y < 0.0 {
      assert (-y).Floor <= (-x).Floor;
    }
  }
}
