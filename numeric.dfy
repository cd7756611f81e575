/** Scalar conversions of the resizer. The source computes in single-precision
    float; the model computes in `real`, so IEEE rounding is not modelled. */
module Numeric {

  /** One 8-bit channel sample (the source's `unsigned char`). */
  newtype byte = b: int | 0 <= b < 256

  /** C++ conversion of a float to `int`: truncation toward zero. */
  function Trunc(x: real): (r: int)
    ensures 0.0 <= x ==> 0 <= r && r as real <= x < r as real + 1.0
    ensures x < 0.0 ==> r <= 0 && r as real - 1.0 < x <= r as real
  {
    if x >= 0.0 then x.Floor else -((-x).Floor)
  }

  /** The resizer's own `floor_`: the truncated integer part for a
      non-negative argument, and one more than the truncation for a negative
      one. The float it returns is always a whole number, so it is modelled
      as an `int`. */
  function Floor(x: real): (r: int)
    ensures 0.0 <= x ==> r as real <= x < r as real + 1.0
    ensures x < 0.0 ==> x + 1.0 <= r as real < x + 2.0
  {
    if x < 0.0 then Trunc(x) + 1 else Trunc(x)
  }

  /** The resizer's own `fabs_`. */
  function Abs(x: real): (r: real)
    ensures 0.0 <= r && (r == x || r == -x)
  {
    if x < 0.0 then -x else x
  }

  /** `static_cast<unsigned char>` of a float, whose result C++ defines only
      when the truncated value fits in a byte. */
  function ToByte(s: real): (b: byte)
    requires -1.0 < s < 256.0
    ensures b as int == Trunc(s)
    ensures 0.0 <= s ==> b as real <= s < b as real + 1.0
  {
    Trunc(s) as byte
  }

  /** A sum just below zero, within one of it, truncates to the byte 0. */
  lemma NegativeSumToZero(s: real)
    requires -1.0 < s < 0.0
    ensures ToByte(s) == 0
  {
  }

  /** For negative arguments `Floor` is not the mathematical floor: it lies
      strictly above its argument. */
  lemma FloorAboveNegative(x: real)
    requires x < 0.0
    ensures x.Floor < Floor(x) && x < Floor(x) as real
  {
  }

  /** On whole numbers `Floor` is the identity. */
  lemma {:induction false} FloorOfWhole(n: nat)
    ensures Floor(n as real) == n
  {
  }
}
