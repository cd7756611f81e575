/** Keys' cubic-convolution kernel, the one-dimensional weight function of
    the resizer. */
module Kernel {

  /** The sharpening parameter the coefficient builder passes to the kernel. */
  const A: real := -0.5

  /** The cubic used for distances up to 1. */
  function NearPiece(x: real, a: real): real
  {
    1.0 - (a + 3.0) * x * x + (a + 2.0) * x * x * x
  }

  /** The cubic used for distances strictly between 1 and 2. */
  function FarPiece(x: real, a: real): real
  {
    -4.0 * a + 8.0 * a * x - 5.0 * a * x * x + a * x * x * x
  }

  /** The kernel weight at distance `x`: the near piece up to 1, the far
      piece below 2, and nothing from 2 on. */
  function WeightCoeff(x: real, a: real): (w: real)
    ensures x == 0.0 ==> w == 1.0
    ensures x == 1.0 ==> w == 0.0
    ensures 2.0 <= x ==> w == 0.0
  {
    if x <= 1.0 then NearPiece(x, a)
    else if x < 2.0 then FarPiece(x, a)
    else 0.0
  }

  /** The far piece factors as a·(x-1)·(x-2)². */
  lemma FarPieceFactors(x: real, a: real)
    ensures FarPiece(x, a) == a * (x - 1.0) * (x - 2.0) * (x - 2.0)
  {
  }

  /** The kernel is continuous: both pieces vanish where they meet at 1, and
      the far piece vanishes where it meets the zero tail at 2. */
  lemma KernelContinuous(a: real)
    ensures NearPiece(1.0, a) == 0.0 == FarPiece(1.0, a)
    ensures FarPiece(2.0, a) == 0.0
  {
  }

  /** Partition of unity: for any sharpening parameter, the four weights a
      point at fractional offset `t` receives from its four neighbours (at
      distances 1+t, t, 1-t and 2-t) add up to 1. */
  lemma WeightsSumToOne(t: real, a: real)
    requires 0.0 <= t < 1.0
    ensures WeightCoeff(1.0 + t, a) + WeightCoeff(t, a)
          + WeightCoeff(1.0 - t, a) + WeightCoeff(2.0 - t, a) == 1.0
  {
    if t == 0.0 {
      KernelContinuous(a);
    } else {
      FarPieceFactors(1.0 + t, a);
      FarPieceFactors(2.0 - t, a);
      assert FarPiece(1.0 + t, a) + FarPiece(2.0 - t, a) == a * t - a * t * t;
      assert NearPiece(t, a) + NearPiece(1.0 - t, a) == 1.0 + a * t * t - a * t;
    }
  }
}
