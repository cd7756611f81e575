/** The raster layout shared by source and output images: rows of pixels,
    row-major, with the channels of one pixel adjacent. */
module Layout {
  import opened Numeric

  /** An image: `rows` (height), `cols` (width), `channels` per pixel and the
      contiguous sample buffer. */
  datatype Image = Image(rows: nat, cols: nat, channels: nat, data: seq<byte>) {
    /** The buffer holds exactly one sample per pixel and channel. */
    predicate Valid() {
      |data| == rows * cols * channels
    }
  }

  /** Buffer offset of channel `d` of pixel (`r`, `c`) in an image `cols`
      pixels wide with `channels` samples per pixel. */
  function FlatIndex(r: int, c: int, d: int, cols: int, channels: int): int
  {
    (r * cols + c) * channels + d
  }

  /** The pixel and channel that a buffer offset belongs to. */
  function PixelOf(k: int, cols: int, channels: int): (int, int, int)
    requires 0 < cols && 0 < channels
  {
    (k / channels / cols, (k / channels) % cols, k % channels)
  }

  /** Placing `q` in slot `p` of a block of `n` slots of width `m` stays
      inside the block. */
  lemma {:induction false} SlotInBounds(p: int, q: int, n: int, m: int)
    requires 0 <= p < n && 0 <= q < m
    ensures 0 <= p * m + q < n * m
  {
    NonNegativeProduct(n - (p + 1), m);
    assert n * m - (p * m + m) == (n - (p + 1)) * m;
  }

  /** A product of non-negative factors is non-negative. */
  lemma {:induction false} NonNegativeProduct(a: int, m: int)
    requires 0 <= a && 0 <= m
    ensures 0 <= a * m
  {
  }

  /** A product with a positive factor is positive only if the other factor
      is. */
  lemma {:induction false} PositiveFactor(a: int, m: int)
    requires 0 < m && 0 < a * m
    ensures 0 < a
  {
  }

  /** Division by the slot width recovers the slot and the place in it. */
  lemma {:induction false} SlotDecode(p: int, q: int, m: int)
    requires 0 <= q < m
    ensures (p * m + q) / m == p && (p * m + q) % m == q
  {
    var k := p * m + q;
    var s, t := k / m, k % m;
    assert m * s + t == k;
    assert (s - p) * m == q - t;
    PositiveFactor(1 - (s - p), m);
    PositiveFactor(1 + (s - p), m);
  }

  /** Every offset computed for a pixel and channel inside the image lies
      inside its buffer. */
  lemma {:induction false} FlatIndexInBounds(r: int, c: int, d: int, rows: nat, cols: nat, channels: nat)
    requires 0 <= r < rows && 0 <= c < cols && 0 <= d < channels
    ensures 0 <= FlatIndex(r, c, d, cols, channels) < rows * cols * channels
  {
    SlotInBounds(r, c, rows, cols);
    SlotInBounds(r * cols + c, d, rows * cols, channels);
  }

  /** The offset determines the pixel and channel it was computed from. */
  lemma {:induction false} DecodeFlatIndex(r: int, c: int, d: int, cols: int, channels: int)
    requires 0 <= c < cols && 0 <= d < channels
    ensures PixelOf(FlatIndex(r, c, d, cols, channels), cols, channels) == (r, c, d)
  {
    SlotDecode(r * cols + c, d, channels);
    SlotDecode(r, c, cols);
  }

  /** Distinct pixel–channel triples have distinct offsets. */
  lemma {:induction false} FlatIndexInjective(r: int, c: int, d: int, r': int, c': int, d': int, cols: int, channels: int)
    requires 0 <= c < cols && 0 <= d < channels
    requires 0 <= c' < cols && 0 <= d' < channels
    requires FlatIndex(r, c, d, cols, channels) == FlatIndex(r', c', d', cols, channels)
    ensures r == r' && c == c' && d == d'
  {
    DecodeFlatIndex(r, c, d, cols, channels);
    DecodeFlatIndex(r', c', d', cols, channels);
  }

  /** The channels of one pixel are followed directly by those of the next
      pixel, and the last pixel of a row by the first of the next row. */
  lemma {:induction false} NextPixel(r: int, c: int, cols: int, channels: int)
    ensures FlatIndex(r, c, 0, cols, channels) + channels == FlatIndex(r, c + 1, 0, cols, channels)
    ensures FlatIndex(r, cols, 0, cols, channels) == FlatIndex(r + 1, 0, 0, cols, channels)
  {
    assert (r * cols + c) * channels + channels == (r * cols + c + 1) * channels;
    assert r * cols + cols == (r + 1) * cols;
  }

  /** Every buffer offset is the offset of some pixel and channel inside the
      image. */
  lemma {:induction false} FlatIndexCovers(k: int, rows: nat, cols: nat, channels: nat)
    requires 0 <= k < rows * cols * channels
    ensures 0 < cols && 0 < channels
    ensures var (r, c, d) := PixelOf(k, cols, channels);
      0 <= r < rows && 0 <= c < cols && 0 <= d < channels && FlatIndex(r, c, d, cols, channels) == k
  {
    assert cols != 0 && channels != 0;
    var p := k / channels;
    assert p * channels + k % channels == k;
    assert 0 <= p < rows * cols by {
      PositiveFactor(rows * cols - p, channels);
    }
    var r := p / cols;
    assert r * cols + p % cols == p;
    assert 0 <= r < rows by {
      PositiveFactor(rows - r, cols);
    }
  }
}
