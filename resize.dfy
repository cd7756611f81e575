/** The resampler: maps every output pixel back into the source and, away
    from the border, interpolates it bicubically. */
module Resize {
  import opened Numeric
  import opened Layout
  import opened Gather

  /** Output extent along an axis of `n` source pixels: `int(n * ratio)`. */
  function ScaledDim(n: nat, ratio: real): (m: nat)
    requires 0.0 <= ratio
    ensures m as real <= n as real * ratio < m as real + 1.0
  {
    assert 0.0 <= n as real * ratio;
    Trunc(n as real * ratio)
  }

  /** Output extents never shrink as the ratio grows. */
  lemma {:induction false} ScaledDimMonotone(n: nat, r1: real, r2: real)
    requires 0.0 <= r1 <= r2
    ensures ScaledDim(n, r1) <= ScaledDim(n, r2)
  {
    var m1, m2 := ScaledDim(n, r1), ScaledDim(n, r2);
    assert n as real * r2 - n as real * r1 == n as real * (r2 - r1);
    assert 0.0 <= n as real * (r2 - r1);
    assert (m1 as real) < m2 as real + 1.0;
  }

  /** The resampler's perimeter test: the source position lies more than one
      pixel inside the top and left edges and more than two inside the bottom
      and right edges. */
  predicate CheckPerimeter(src: Image, x: real, y: real)
  {
    x < src.rows as real - 2.0 && x > 1.0 && y < src.cols as real - 2.0 && y > 1.0
  }

  /** Output pixel (i, j) maps to source position (i / ratio, j / ratio) and
      passes the perimeter test there. */
  predicate Interior(src: Image, ratio: real, i: int, j: int)
    requires 0.0 < ratio
  {
    CheckPerimeter(src, i as real / ratio, j as real / ratio)
  }

  /** A non-empty output axis implies a positive ratio. */
  lemma {:induction false} PositiveExtent(n: nat, ratio: real)
    requires 0.0 <= ratio && 0 < ScaledDim(n, ratio)
    ensures 0.0 < ratio
  {
  }

  /** The perimeter test is sufficient for the gather: it keeps all sixteen
      neighbours inside the source, at non-negative coordinates. */
  lemma {:induction false} PerimeterKeepsReadsInBounds(src: Image, x: real, y: real)
    requires CheckPerimeter(src, x, y)
    ensures 0.0 <= x && 0.0 <= y && ReadsInBounds(src, x, y)
  {
  }

  /** Every offset the gather reads for a position that passes the perimeter
      test lies inside the source buffer. */
  lemma {:induction false} PerimeterReadIndices(src: Image, x: real, y: real, d: int, i: int, j: int)
    requires src.Valid() && CheckPerimeter(src, x, y)
    requires 0 <= d < src.channels && 0 <= i < 4 && 0 <= j < 4
    ensures 0 <= ((Anchor(x) + i) * src.cols + Anchor(y) + j) * src.channels + d
               < src.rows * src.cols * src.channels
  {
    PerimeterKeepsReadsInBounds(src, x, y);
    NeighbourAt(src, Anchor(x), Anchor(y), d, i, j);
  }

  /** Channel `d` of the bicubic interpolation at interior output pixel
      (i, j), before the conversion to a byte. */
  function OutputSum(src: Image, ratio: real, i: int, j: int, d: int): real
    requires src.Valid() && 0.0 < ratio && Interior(src, ratio, i, j) && 0 <= d < src.channels
  {
    WeightedSum(src, i as real / ratio, j as real / ratio, d)
  }

  /** The weighted sum at every interior output pixel truncates to a byte, so the
      conversion of every computed sample is defined. */
  ghost predicate SumsInRange(src: Image, ratio: real)
    requires src.Valid() && 0.0 <= ratio
  {
    forall i, j, d ::
      0 <= i < ScaledDim(src.rows, ratio) && 0 <= j < ScaledDim(src.cols, ratio) && 0 <= d < src.channels
      && Interior(src, ratio, i, j) ==>
        -1.0 < OutputSum(src, ratio, i, j, d) < 256.0
  }

  /** Channel `d` of output pixel (i, j): the interpolated sample where the
      pixel is interior, 0 elsewhere. */
  function OutputSample(src: Image, ratio: real, i: int, j: int, d: int): byte
    requires src.Valid() && 0.0 <= ratio && SumsInRange(src, ratio)
    requires 0 <= i < ScaledDim(src.rows, ratio) && 0 <= j < ScaledDim(src.cols, ratio)
    requires 0 <= d < src.channels
  {
    PositiveExtent(src.rows, ratio);
    if Interior(src, ratio, i, j) then ToByte(OutputSum(src, ratio, i, j, d)) else 0
  }

  /** Number of samples in the output buffer. */
  function OutputLength(src: Image, ratio: real): nat
    requires 0.0 <= ratio
  {
    ScaledDim(src.rows, ratio) * ScaledDim(src.cols, ratio) * src.channels
  }

  /** The output sample at buffer offset `k`: the sample of the pixel and
      channel that the offset addresses. */
  function OutputAt(src: Image, ratio: real, k: int): byte
    requires src.Valid() && 0.0 <= ratio && SumsInRange(src, ratio)
    requires 0 <= k < OutputLength(src, ratio)
  {
    FlatIndexCovers(k, ScaledDim(src.rows, ratio), ScaledDim(src.cols, ratio), src.channels);
    var (i, j, d) := PixelOf(k, ScaledDim(src.cols, ratio), src.channels);
    OutputSample(src, ratio, i, j, d)
  }

  /** The whole output buffer, offset by offset. */
  function ResizedData(src: Image, ratio: real): (s: seq<byte>)
    requires src.Valid() && 0.0 <= ratio && SumsInRange(src, ratio)
    ensures |s| == OutputLength(src, ratio)
  {
    seq(OutputLength(src, ratio), k requires 0 <= k < OutputLength(src, ratio) => OutputAt(src, ratio, k))
  }

  /** The first `n` samples of `res` are those of the resized image and the
      rest are still zero. */
  ghost predicate FilledUpTo(src: Image, ratio: real, res: seq<byte>, n: int)
    requires src.Valid() && 0.0 <= ratio && SumsInRange(src, ratio)
    requires |res| == OutputLength(src, ratio)
  {
    forall k :: 0 <= k < |res| ==> res[k] == if k < n then OutputAt(src, ratio, k) else 0
  }

  /** Writing the expected sample at offset `n` extends the filled prefix by
      one. */
  lemma {:induction false} FillStep(src: Image, ratio: real, res: seq<byte>, n: int, b: byte)
    requires src.Valid() && 0.0 <= ratio && SumsInRange(src, ratio)
    requires |res| == OutputLength(src, ratio) && 0 <= n < |res|
    requires FilledUpTo(src, ratio, res, n) && b == OutputAt(src, ratio, n)
    ensures FilledUpTo(src, ratio, res[n := b], n + 1)
  {
  }

  /** Resizes `src` by `ratio`: allocates a zeroed buffer of the scaled
      extent and fills in every output pixel whose source position passes the
      perimeter test with its bicubic interpolation, channel by channel. */
  method ResizeImage(src: Image, ratio: real) returns (out: Image)
    requires src.Valid() && 0.0 <= ratio && SumsInRange(src, ratio)
    ensures out.rows == ScaledDim(src.rows, ratio) && out.cols == ScaledDim(src.cols, ratio)
    ensures out.channels == src.channels
    ensures out.Valid()
    ensures out.data == ResizedData(src, ratio)
  {
    var channels := src.channels;
    var resizeRows := ScaledDim(src.rows, ratio);
    var resizeCols := ScaledDim(src.cols, ratio);
    var res := new byte[channels * resizeRows * resizeCols](_ => 0);
    assert res.Length == resizeRows * resizeCols * channels == OutputLength(src, ratio);
    for i := 0 to resizeRows
      invariant FilledUpTo(src, ratio, res[..], FlatIndex(i, 0, 0, resizeCols, channels))
    {
      PositiveExtent(src.rows, ratio);
      ResizeRow(src, ratio, res, i);
      NextPixel(i, resizeCols, resizeCols, channels);
    }
    assert FlatIndex(resizeRows, 0, 0, resizeCols, channels) == res.Length;
    FilledIsResized(src, ratio, res[..]);
    out := Image(resizeRows, resizeCols, channels, res[..]);
  }

  /** Once every sample has been written, the buffer is the resized image. */
  lemma {:induction false} FilledIsResized(src: Image, ratio: real, res: seq<byte>)
    requires src.Valid() && 0.0 <= ratio && SumsInRange(src, ratio)
    requires |res| == OutputLength(src, ratio)
    requires FilledUpTo(src, ratio, res, |res|)
    ensures res == ResizedData(src, ratio)
  {
  }

  /** The resampler's middle loop for output row `i`: every pixel of the row,
      left to right. */
  method ResizeRow(src: Image, ratio: real, res: array<byte>, i: int)
    requires src.Valid() && 0.0 < ratio && SumsInRange(src, ratio)
    requires res.Length == OutputLength(src, ratio)
    requires 0 <= i < ScaledDim(src.rows, ratio)
    requires FilledUpTo(src, ratio, res[..], FlatIndex(i, 0, 0, ScaledDim(src.cols, ratio), src.channels))
    modifies res
    ensures FilledUpTo(src, ratio, res[..], FlatIndex(i, ScaledDim(src.cols, ratio), 0, ScaledDim(src.cols, ratio), src.channels))
  {
    var resizeCols := ScaledDim(src.cols, ratio);
    for j := 0 to resizeCols
      invariant FilledUpTo(src, ratio, res[..], FlatIndex(i, j, 0, resizeCols, src.channels))
    {
      ResizePixel(src, ratio, res, i, j);
      NextPixel(i, j, resizeCols, src.channels);
    }
  }

  /** The body of the resampler's inner loop for output pixel (i, j): maps
      it to the source, and if the source position passes the perimeter test
      writes each channel's interpolated sample to its slot; otherwise leaves
      the pixel at zero. */
  method ResizePixel(src: Image, ratio: real, res: array<byte>, i: int, j: int)
    requires src.Valid() && 0.0 < ratio && SumsInRange(src, ratio)
    requires res.Length == OutputLength(src, ratio)
    requires 0 <= i < ScaledDim(src.rows, ratio) && 0 <= j < ScaledDim(src.cols, ratio)
    requires FilledUpTo(src, ratio, res[..], FlatIndex(i, j, 0, ScaledDim(src.cols, ratio), src.channels))
    modifies res
    ensures FilledUpTo(src, ratio, res[..], FlatIndex(i, j, src.channels, ScaledDim(src.cols, ratio), src.channels))
  {
    var srcX := i as real / ratio;
    var srcY := j as real / ratio;
    if CheckPerimeter(src, srcX, srcY) {
      WritePixel(src, ratio, res, i, j);
    } else {
      BorderPixelSkipped(src, ratio, res[..], i, j);
    }
  }

  /** The resampler's channel loop for an interior output pixel (i, j):
      writes each channel's interpolated sample to its slot. */
  method WritePixel(src: Image, ratio: real, res: array<byte>, i: int, j: int)
    requires src.Valid() && 0.0 < ratio && SumsInRange(src, ratio)
    requires res.Length == OutputLength(src, ratio)
    requires 0 <= i < ScaledDim(src.rows, ratio) && 0 <= j < ScaledDim(src.cols, ratio)
    requires Interior(src, ratio, i, j)
    requires FilledUpTo(src, ratio, res[..], FlatIndex(i, j, 0, ScaledDim(src.cols, ratio), src.channels))
    modifies res
    ensures FilledUpTo(src, ratio, res[..], FlatIndex(i, j, src.channels, ScaledDim(src.cols, ratio), src.channels))
  {
    var channels := src.channels;
    var resizeCols := ScaledDim(src.cols, ratio);
    var srcX := i as real / ratio;
    var srcY := j as real / ratio;
    PerimeterKeepsReadsInBounds(src, srcX, srcY);
    for d := 0 to channels
      invariant FilledUpTo(src, ratio, res[..], FlatIndex(i, j, d, resizeCols, channels))
    {
      WriteSlot(src, ratio, i, j, d);
      SampleAt(src, ratio, i, j, d);
      var sample := BGRAfterBiCubic(src, srcX, srcY, channels, d);
      ghost var before := res[..];
      res[((i * resizeCols) + j) * channels + d] := sample;
      assert res[..] == before[FlatIndex(i, j, d, resizeCols, channels) := sample];
      FillStep(src, ratio, before, FlatIndex(i, j, d, resizeCols, channels), sample);
    }
  }

  /** At an interior output pixel the weighted sum truncates to a byte and the
      output sample is its truncation toward zero. */
  lemma {:induction false} SampleAt(src: Image, ratio: real, i: int, j: int, d: int)
    requires src.Valid() && 0.0 < ratio && SumsInRange(src, ratio)
    requires 0 <= i < ScaledDim(src.rows, ratio) && 0 <= j < ScaledDim(src.cols, ratio)
    requires 0 <= d < src.channels && Interior(src, ratio, i, j)
    ensures -1.0 < WeightedSum(src, i as real / ratio, j as real / ratio, d) < 256.0
    ensures OutputSample(src, ratio, i, j, d) as int == Trunc(WeightedSum(src, i as real / ratio, j as real / ratio, d))
  {
    var sum := OutputSum(src, ratio, i, j, d);
    assert -1.0 < sum < 256.0;
    assert OutputSample(src, ratio, i, j, d) == ToByte(sum);
  }

  /** Skipping an output pixel that fails the perimeter test leaves its
      channels at the zero they must hold. */
  lemma {:induction false} BorderPixelSkipped(src: Image, ratio: real, res: seq<byte>, i: int, j: int)
    requires src.Valid() && 0.0 < ratio && SumsInRange(src, ratio)
    requires |res| == OutputLength(src, ratio)
    requires 0 <= i < ScaledDim(src.rows, ratio) && 0 <= j < ScaledDim(src.cols, ratio)
    requires !Interior(src, ratio, i, j)
    ensures FilledUpTo(src, ratio, res, FlatIndex(i, j, 0, ScaledDim(src.cols, ratio), src.channels))
        ==> FilledUpTo(src, ratio, res, FlatIndex(i, j, src.channels, ScaledDim(src.cols, ratio), src.channels))
  {
    var cols := ScaledDim(src.cols, ratio);
    if FilledUpTo(src, ratio, res, FlatIndex(i, j, 0, cols, src.channels)) {
      forall k | 0 <= k < |res|
        ensures res[k] == if k < FlatIndex(i, j, src.channels, cols, src.channels) then OutputAt(src, ratio, k) else 0
      {
        var base := FlatIndex(i, j, 0, cols, src.channels);
        if base <= k < base + src.channels {
          WriteSlot(src, ratio, i, j, k - base);
        }
      }
    }
  }

  /** The offset of channel `d` of output pixel (i, j) is in the output
      buffer and holds that pixel's sample. */
  lemma {:induction false} WriteSlot(src: Image, ratio: real, i: int, j: int, d: int)
    requires src.Valid() && 0.0 <= ratio && SumsInRange(src, ratio)
    requires 0 <= i < ScaledDim(src.rows, ratio) && 0 <= j < ScaledDim(src.cols, ratio)
    requires 0 <= d < src.channels
    ensures 0 <= FlatIndex(i, j, d, ScaledDim(src.cols, ratio), src.channels) < OutputLength(src, ratio)
    ensures OutputAt(src, ratio, FlatIndex(i, j, d, ScaledDim(src.cols, ratio), src.channels))
         == OutputSample(src, ratio, i, j, d)
  {
    FlatIndexInBounds(i, j, d, ScaledDim(src.rows, ratio), ScaledDim(src.cols, ratio), src.channels);
    DecodeFlatIndex(i, j, d, ScaledDim(src.cols, ratio), src.channels);
  }

  /** What the resized buffer holds for channel `d` of output pixel (i, j):
      0 where the pixel fails the perimeter test, and otherwise the bicubic
      interpolation at (i / ratio, j / ratio) truncated toward zero. */
  lemma {:induction false} ResizedPixel(src: Image, ratio: real, i: int, j: int, d: int)
    requires src.Valid() && 0.0 < ratio && SumsInRange(src, ratio)
    requires 0 <= i < ScaledDim(src.rows, ratio) && 0 <= j < ScaledDim(src.cols, ratio)
    requires 0 <= d < src.channels
    ensures 0 <= FlatIndex(i, j, d, ScaledDim(src.cols, ratio), src.channels) < OutputLength(src, ratio)
    ensures !Interior(src, ratio, i, j) ==>
      ResizedData(src, ratio)[FlatIndex(i, j, d, ScaledDim(src.cols, ratio), src.channels)] == 0
    ensures Interior(src, ratio, i, j) ==>
      var b := ResizedData(src, ratio)[FlatIndex(i, j, d, ScaledDim(src.cols, ratio), src.channels)];
      ReadsInBounds(src, i as real / ratio, j as real / ratio) &&
      b as int == Trunc(WeightedSum(src, i as real / ratio, j as real / ratio, d))
  {
    WriteSlot(src, ratio, i, j, d);
    if Interior(src, ratio, i, j) {
      PerimeterKeepsReadsInBounds(src, i as real / ratio, j as real / ratio);
      SampleAt(src, ratio, i, j, d);
    }
  }

  /** A source with at most three rows or at most three columns has no pixel
      that passes the perimeter test, so the whole output is zero. */
  lemma {:induction false} SmallSourceAllZero(src: Image, ratio: real)
    requires src.Valid() && 0.0 <= ratio && (src.rows <= 3 || src.cols <= 3)
    ensures SumsInRange(src, ratio)
    ensures forall k :: 0 <= k < OutputLength(src, ratio) ==> ResizedData(src, ratio)[k] == 0
  {
    forall k | 0 <= k < OutputLength(src, ratio)
      ensures ResizedData(src, ratio)[k] == 0
    {
      FlatIndexCovers(k, ScaledDim(src.rows, ratio), ScaledDim(src.cols, ratio), src.channels);
      PositiveExtent(src.rows, ratio);
    }
  }

  /** Resizing an image whose samples all equal `c` is always defined, and
      every interior output sample is `c` again. */
  lemma {:induction false} ConstantImageResizes(src: Image, ratio: real, c: byte)
    requires src.Valid() && 0.0 <= ratio
    requires forall k :: 0 <= k < |src.data| ==> src.data[k] == c
    ensures SumsInRange(src, ratio)
    ensures forall i, j, d ::
      (0 <= i < ScaledDim(src.rows, ratio) && 0 <= j < ScaledDim(src.cols, ratio) && 0 <= d < src.channels
       && Interior(src, ratio, i, j)) ==> OutputSample(src, ratio, i, j, d) == c
  {
    forall i, j, d |
      0 <= i < ScaledDim(src.rows, ratio) && 0 <= j < ScaledDim(src.cols, ratio) && 0 <= d < src.channels
      && Interior(src, ratio, i, j)
      ensures OutputSum(src, ratio, i, j, d) == c as real
    {
      PerimeterKeepsReadsInBounds(src, i as real / ratio, j as real / ratio);
      ConstantImageInterpolates(src, i as real / ratio, j as real / ratio, d, c);
    }
  }

  /** Resizing by 1 keeps the extent, is always defined, and reproduces
      every interior sample of the source. */
  lemma {:induction false} IdentityRatio(src: Image)
    requires src.Valid()
    ensures ScaledDim(src.rows, 1.0) == src.rows && ScaledDim(src.cols, 1.0) == src.cols
    ensures SumsInRange(src, 1.0)
    ensures forall i, j, d ::
      0 <= i < src.rows && 0 <= j < src.cols && 0 <= d < src.channels && Interior(src, 1.0, i, j) ==>
        0 <= FlatIndex(i, j, d, src.cols, src.channels) < |src.data| &&
        OutputSample(src, 1.0, i, j, d) == src.data[FlatIndex(i, j, d, src.cols, src.channels)]
  {
    forall i, j, d |
      0 <= i < src.rows && 0 <= j < src.cols && 0 <= d < src.channels && Interior(src, 1.0, i, j)
      ensures 0 <= FlatIndex(i, j, d, src.cols, src.channels) < |src.data|
      ensures OutputSum(src, 1.0, i, j, d) == src.data[FlatIndex(i, j, d, src.cols, src.channels)] as real
    {
      assert i as real / 1.0 == i as real && j as real / 1.0 == j as real;
      PerimeterKeepsReadsInBounds(src, i as real, j as real);
      WholePositionInterpolates(src, i, j, d);
    }
  }
}
