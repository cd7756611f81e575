/** The per-channel gather: the weighted sum of the 4x4 source neighbourhood
    of a sampling position. */
module Gather {
  import opened Numeric
  import opened Sums
  import opened Coefficients
  import opened Layout

  /** First row (or column) of the neighbourhood of coordinate `x`: one
      before the sample the coordinate falls in. */
  function Anchor(x: real): (x0: int)
    ensures 0.0 <= x ==> x0 as real <= x - 1.0 < x0 as real + 1.0
  {
    Floor(x) - 1
  }

  /** The 4x4 block of pixels whose top-left corner is (x0, y0) lies inside
      `src`. */
  predicate BlockInBounds(src: Image, x0: int, y0: int)
  {
    0 <= x0 && x0 + 3 < src.rows && 0 <= y0 && y0 + 3 < src.cols
  }

  /** All sixteen neighbours of position (x, y) are pixels of `src`. */
  predicate ReadsInBounds(src: Image, x: real, y: real)
  {
    BlockInBounds(src, Anchor(x), Anchor(y))
  }

  /** Channel `d` of the sixteen pixels of the block at (x0, y0), row-major:
      cell i*4+j is pixel (x0+i, y0+j). */
  function Neighbourhood(src: Image, x0: int, y0: int, d: int): (s: seq<real>)
    requires src.Valid() && BlockInBounds(src, x0, y0) && 0 <= d < src.channels
    ensures |s| == 16
  {
    seq(16, k requires 0 <= k < 16 =>
      FlatIndexInBounds(x0 + k / 4, y0 + k % 4, d, src.rows, src.cols, src.channels);
      src.data[FlatIndex(x0 + k / 4, y0 + k % 4, d, src.cols, src.channels)] as real)
  }

  /** Channel `d` of the bicubic interpolation of `src` at (x, y), before the
      conversion to a byte: the coefficient matrix weighted against the
      neighbourhood. */
  function WeightedSum(src: Image, x: real, y: real, d: int): real
    requires src.Valid() && ReadsInBounds(src, x, y) && 0 <= d < src.channels
  {
    Dot(CoeffMatrix(x, y), Neighbourhood(src, Anchor(x), Anchor(y), d), 16)
  }

  /** The offset read for cell (i, j) of the block lies in the buffer and
      holds that cell of the neighbourhood. */
  lemma {:induction false} NeighbourAt(src: Image, x0: int, y0: int, d: int, i: int, j: int)
    requires src.Valid() && BlockInBounds(src, x0, y0) && 0 <= d < src.channels
    requires 0 <= i < 4 && 0 <= j < 4
    ensures 0 <= ((x0 + i) * src.cols + y0 + j) * src.channels + d < |src.data|
    ensures Neighbourhood(src, x0, y0, d)[i * 4 + j]
         == src.data[((x0 + i) * src.cols + y0 + j) * src.channels + d] as real
  {
    FlatIndexInBounds(x0 + i, y0 + j, d, src.rows, src.cols, src.channels);
    assert (i * 4 + j) / 4 == i && (i * 4 + j) % 4 == j;
  }

  /** The accumulation loop of the gather: weights the sixteen pixels of the
      block at (x0, y0) with the first sixteen cells of `coeff`, row by row. */
  method SumNeighbourhood(src: Image, coeff: array<real>, x0: int, y0: int, channels: nat, d: nat)
    returns (sum: real)
    requires src.Valid() && BlockInBounds(src, x0, y0)
    requires channels == src.channels && d < channels && 16 <= coeff.Length
    ensures sum == Dot(coeff[..16], Neighbourhood(src, x0, y0, d), 16)
  {
    ghost var w, s := coeff[..16], Neighbourhood(src, x0, y0, d);
    sum := 0.0;
    for i := 0 to 4
      invariant sum == Dot(w, s, i * 4)
    {
      for j := 0 to 4
        invariant sum == Dot(w, s, i * 4 + j)
      {
        NeighbourAt(src, x0, y0, d, i, j);
        var weight := coeff[i * 4 + j];
        var sample := src.data[((x0 + i) * src.cols + y0 + j) * channels + d] as real;
        DotStep(w, s, i * 4 + j, weight, sample);
        sum := sum + weight * sample;
      }
    }
  }

  /** Computes channel `d` of the interpolated pixel at (x, y) and converts it
      to a byte by truncation. */
  method BGRAfterBiCubic(src: Image, x: real, y: real, channels: nat, d: nat) returns (r: byte)
    requires src.Valid() && ReadsInBounds(src, x, y)
    requires channels == src.channels && d < channels
    requires -1.0 < WeightedSum(src, x, y, d) < 256.0
    ensures r as int == Trunc(WeightedSum(src, x, y, d))
  {
    var coeff := new real[16];
    var x0 := Floor(x) - 1;
    var y0 := Floor(y) - 1;
    CalcCoeff4x4(x, y, coeff);
    var sum := SumNeighbourhood(src, coeff, x0, y0, channels, d);
    r := ToByte(sum);
  }

  /** Interpolating a constant image at a non-negative position yields the
      constant: the kernel preserves flat regions. */
  lemma {:induction false} ConstantImageInterpolates(src: Image, x: real, y: real, d: int, c: byte)
    requires src.Valid() && ReadsInBounds(src, x, y) && 0 <= d < src.channels
    requires 0.0 <= x && 0.0 <= y
    requires forall k :: 0 <= k < |src.data| ==> src.data[k] == c
    ensures WeightedSum(src, x, y, d) == c as real
  {
    var s := Neighbourhood(src, Anchor(x), Anchor(y), d);
    forall k | 0 <= k < 16
      ensures s[k] == c as real
    {
      NeighbourAt(src, Anchor(x), Anchor(y), d, k / 4, k % 4);
    }
    DotOfConstant(CoeffMatrix(x, y), s, c as real, 16);
    CoeffsSumToOne(x, y);
  }

  /** The kernel interpolates: at a whole-number position the weighted sum is
      exactly the source sample there. */
  lemma {:induction false} WholePositionInterpolates(src: Image, m: nat, p: nat, d: int)
    requires src.Valid() && ReadsInBounds(src, m as real, p as real) && 0 <= d < src.channels
    ensures m < src.rows && p < src.cols
    ensures 0 <= FlatIndex(m, p, d, src.cols, src.channels) < |src.data|
    ensures WeightedSum(src, m as real, p as real, d)
         == src.data[FlatIndex(m, p, d, src.cols, src.channels)] as real
  {
    FloorOfWhole(m);
    FloorOfWhole(p);
    var x0, y0 := Anchor(m as real), Anchor(p as real);
    assert x0 + 1 == m && y0 + 1 == p;
    var w, s := CoeffMatrix(m as real, p as real), Neighbourhood(src, x0, y0, d);
    WholePositionMatrix(m, p);
    DotOfSelector(w, s, 5, 16);
    NeighbourAt(src, x0, y0, d, 1, 1);
  }
}
