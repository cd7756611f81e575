# Bicubic image resize — a Dafny model

This project models the header `resize.hpp` of a small C++ image resizer.
The resizer scales an interleaved 8-bit image by a real `ratio` using
bicubic convolution: Keys' cubic kernel with `a = -0.5`, applied as a
separable 4x4 weighting of the sixteen source pixels around each sampling
position.

The model has seven modules:

- `Numeric`: `float`-to-`int` truncation, the header's own `floor_` and
  `fabs_`, and the cast of a sum to `unsigned char`.
- `Kernel`: the piecewise cubic `WeightCoeff`.
- `Sums`: the sixteen-term weighted sums and outer products that the proofs
  reason about.
- `Coefficients`: `CalcCoeff4x4`, a method filling the caller's coefficient
  array in place.
- `Layout`: the image record and the row-major, channel-interleaved buffer
  offsets.
- `Gather`: `BGRAfterBiCubic`, a method accumulating the weighted sum of one
  channel.
- `Resize`: `ResizeImage`, a method that allocates a zeroed output buffer
  and fills it in place in a loop over rows, columns and channels.

Every method is proved against a specification function:
- `CoeffMatrix` for the coefficients;
- `WeightedSum` for one interpolated channel;
- `ResizedData` for the output buffer.

The properties of those functions are proved as lemmas:
- the kernel's values at its breakpoints, and its continuity;
- partition of unity in two dimensions;
- exact interpolation at whole-number positions;
- the perimeter test keeps the gather inside the source;
- output writes are in bounds and distinct;
- border pixels stay zero;
- behaviour on constant images, at ratio 1, and on sources too small to
  have an interior.

`float` is modelled as `real` throughout. The kernel's sharpening
parameter `a = -0.5` (resize.hpp:28) is the constant `Kernel.A`. The image
record (the header's `RGBImage`) is the datatype `Layout.Image`, whose
`Valid()` predicate says the buffer holds exactly one sample per pixel and
channel.

## Model

| member | source | states |
|---|---|---|
| Numeric.Trunc | resize.hpp:69-70 | `int(x)` truncates toward zero: for `x >= 0` the result brackets `x` from below, for `x < 0` from above |
| Numeric.Floor | resize.hpp:7-9 | `floor_(x)` brackets `x` (`r <= x < r + 1`) for `x >= 0`; for `x < 0` it lies in `[x + 1, x + 2)` |
| Numeric.FloorAboveNegative | resize.hpp:7-9 | for negative `x`, `floor_` is strictly above the true floor and above `x` itself (e.g. -1.5 gives 0, not -2) |
| Numeric.FloorOfWhole | resize.hpp:7-9 | `floor_` is the identity on whole numbers |
| Numeric.Abs | resize.hpp:12-14 | `fabs_` is non-negative and equals `x` or `-x` |
| Numeric.ToByte | resize.hpp:63 | the cast to `unsigned char` is defined for every sum in `(-1, 256)` and yields the sum truncated toward zero; for a non-negative sum that is its integer part |
| Numeric.NegativeSumToZero | resize.hpp:63 | a sum in `(-1, 0)`, which the kernel's negative lobes can produce, casts to 0 |
| Kernel.WeightCoeff | resize.hpp:17-24 | the kernel weighs distance 0 with 1, and distance 1 and every distance from 2 on with 0 |
| Kernel.FarPieceFactors | resize.hpp:21 | the second cubic piece factors as `a(x-1)(x-2)^2` |
| Kernel.KernelContinuous | resize.hpp:17-24 | both pieces vanish at 1, where they meet, and the second vanishes at 2, where the zero tail starts |
| Kernel.WeightsSumToOne | resize.hpp:17-24 | for every `a`, the four weights at distances `1+t, t, 1-t, 2-t` (`0 <= t < 1`) add up to 1 |
| Coefficients.Offset | resize.hpp:30-34 | for a non-negative coordinate the offset `u` used by the coefficient builder lies in `[1, 2)` |
| Coefficients.OffsetMatrixCell | resize.hpp:36-41 | cell `i*4+j` of the matrix is `WeightCoeff(|u-i|) * WeightCoeff(|v-j|)`, a separable product |
| Coefficients.FillMatrix | resize.hpp:36-41 | the nested loops write cell `k` of the matrix to `coeff[k]` for `k < 16` and leave every other cell unchanged |
| Coefficients.CalcCoeff4x4 | resize.hpp:27-42 | the caller's `coeff[0..15]` holds the coefficient matrix of position `(x, y)` afterwards, and nothing beyond it changes |
| Coefficients.AxisWeightsSumToOne | resize.hpp:36-41 | along one axis the four weights for an offset in `[1, 2)` sum to 1 |
| Coefficients.OffsetsSumToOne | resize.hpp:36-41 | the sixteen weights for offsets in `[1, 2)` sum to 1 |
| Coefficients.CoeffsSumToOne | resize.hpp:27-42 | partition of unity: for every `x, y >= 0` the sixteen coefficients sum to 1 |
| Coefficients.CentredMatrix | resize.hpp:36-41 | at offsets `(1, 1)` the matrix is 1 in cell (1, 1) and 0 in every other cell |
| Coefficients.WholePositionMatrix | resize.hpp:30-41 | at a whole-number position the coefficient matrix selects cell (1, 1) alone |
| Sums.OuterTotal | resize.hpp:36-41 | the first `n` rows of an outer product total the first `n` row weights times the column total |
| Sums.OuterOfUnits | resize.hpp:36-41 | an outer product of two weight vectors that each sum to 1 sums to 1 |
| Sums.OuterOfSelectors | resize.hpp:36-41 | the outer product of two vectors selecting index 1 selects cell 5 |
| Sums.DotOfConstant | resize.hpp:56-62 | weighting samples that all equal `c` yields `c` times the total weight |
| Sums.DotOfSelector | resize.hpp:56-62 | weights that select one cell yield that cell's sample |
| Layout.FlatIndex | resize.hpp:60 | the row-major, channel-interleaved offset of channel `d` of pixel `(r, c)`, used for reads and writes alike (its properties are stated by the next rows) |
| Layout.FlatIndexInBounds | resize.hpp:88 | the offset of a pixel and channel inside the image lies inside its buffer |
| Layout.DecodeFlatIndex | resize.hpp:88 | the pixel and channel can be recovered from their offset |
| Layout.FlatIndexInjective | resize.hpp:88 | distinct (row, column, channel) triples are written at distinct offsets |
| Layout.NextPixel | resize.hpp:81-91 | the loops visit offsets consecutively: a pixel's channels are directly followed by the next pixel's, and a row's last pixel by the next row's first |
| Layout.FlatIndexCovers | resize.hpp:78-79 | every offset of the output buffer belongs to some pixel and channel of the output image |
| Gather.NeighbourAt | resize.hpp:59-60 | cell `i*4+j` of the neighbourhood is the source sample at `((x0+i)*cols + y0+j)*channels + d`, and that offset is in bounds |
| Gather.SumNeighbourhood | resize.hpp:56-62 | the summation loop computes the weighted sum of the sixteen neighbours in the order the source accumulates it |
| Gather.Anchor | resize.hpp:52-53 | for a non-negative coordinate the first row (column) read is one before the pixel the coordinate falls in |
| Gather.BGRAfterBiCubic | resize.hpp:45-64 | the returned byte is the bicubic weighted sum at `(x, y)` for channel `d`, truncated toward zero |
| Gather.ConstantImageInterpolates | resize.hpp:56-62 | interpolating a constant image at a non-negative position yields the constant |
| Gather.WholePositionInterpolates | resize.hpp:52-62 | at a whole-number position the weighted sum is exactly the source sample there |
| Resize.ScaledDim | resize.hpp:69-70 | the output extent is `int(n * ratio)`: the largest whole number not above `n * ratio` |
| Resize.ScaledDimMonotone | resize.hpp:69-70 | output extents never shrink as the ratio grows |
| Resize.CheckPerimeter | resize.hpp:74-76 | the perimeter test: the position is more than 1 inside the top and left edges and more than 2 inside the bottom and right edges (its consequences are stated by the next two rows) |
| Resize.PositiveExtent | resize.hpp:69-70 | a non-empty output axis implies a positive ratio, so `i / ratio` is defined |
| Resize.PerimeterKeepsReadsInBounds | resize.hpp:74-76 | a position passing the perimeter test is non-negative and has its whole 4x4 block inside the source |
| Resize.PerimeterReadIndices | resize.hpp:52-60 | every offset read for a position passing the perimeter test lies in `[0, rows*cols*channels)` |
| Resize.ResizeImage | resize.hpp:66-95 | the result has extents `int(rows*ratio)` by `int(cols*ratio)` and the source's channel count, and its buffer is `ResizedData` |
| Resize.ResizeRow | resize.hpp:83-92 | one pass of the column loop writes every sample of row `i` and keeps the rest of the buffer as it must be |
| Resize.ResizePixel | resize.hpp:84-91 | one output pixel: interior pixels get their interpolated samples and border pixels stay zero |
| Resize.WritePixel | resize.hpp:87-90 | the channel loop writes each channel's interpolated sample into its slot |
| Resize.FillStep | resize.hpp:88-89 | writing the expected sample at the next offset extends the correctly filled prefix by one |
| Resize.FilledIsResized | resize.hpp:94 | a fully filled buffer is the resized image |
| Resize.WriteSlot | resize.hpp:88-89 | the offset written for pixel (i, j) and channel `d` is in the output buffer and addresses that pixel and channel |
| Resize.SampleAt | resize.hpp:63 | at an interior pixel the sum lies in `(-1, 256)` and the output sample is the sum truncated toward zero |
| Resize.BorderPixelSkipped | resize.hpp:79 | a pixel that fails the perimeter test keeps the zero from the fill in every channel |
| Resize.ResizedPixel | resize.hpp:79-91 | in the output, a border pixel is 0 in every channel, and an interior pixel holds the interpolation at `(i/ratio, j/ratio)` truncated toward zero |
| Resize.SmallSourceAllZero | resize.hpp:74-79 | a source with at most three rows or columns yields an all-zero output |
| Resize.ConstantImageResizes | resize.hpp:84-91 | resizing a constant image is always defined and every interior output sample is the constant |
| Resize.IdentityRatio | resize.hpp:69-91 | resizing by 1 keeps both extents, is always defined, and reproduces every interior source sample exactly |

## Left out

- The `Timer` and the `printf` of the output size (resize.hpp:68, 72) are timing and console output, with no effect on the result.
- The OpenACC `parallel loop gang` / `loop vector` annotations (resize.hpp:80, 82) are not modelled. The loops run sequentially. `Layout.FlatIndexInjective` states why parallel writes would not collide.
- IEEE single-precision arithmetic is not modelled: every `float` is a `real`. Results are exact, not bit-exact. The kernel facts and partition of unity hold only over the reals.
- Integer overflow of `int` in the dimensions, buffer size and offsets is not modelled. All integers are unbounded.
- Resize.ResizeImage: requires `ratio >= 0`. For a negative ratio the source computes non-positive extents (resize.hpp:69-70). Their product is still a non-negative buffer size, so the loops run zero times and the source returns an image with non-positive extents. `Image`'s `nat` fields cannot represent those extents.
- Resize.ResizeImage: requires `SumsInRange`, meaning every interior weighted sum lies in `(-1, 256)`.
  - The source casts the float sum straight to `unsigned char` (resize.hpp:63). C++ defines that conversion exactly when the value truncated toward zero fits in the target type. A sum in `(-1, 0)` therefore gives 0 (`Numeric.NegativeSumToZero`); a sum at or below -1, or at or above 256, is undefined behaviour.
  - The model follows the code: it neither clamps nor wraps around.
  - `Resize.ConstantImageResizes` and `Resize.IdentityRatio` show that the precondition holds for constant images and for ratio 1.
  - The bicubic kernel can overshoot by more than that near sharp edges. For such images the precondition fails, exactly where the source's behaviour is undefined.
- Gather.BGRAfterBiCubic: requires `channels == src.channels`. The only caller (resize.hpp:89) passes `src.channels`.
- The `RGBImage` struct and its memory ownership are defined in `utils.hpp`, which is not part of this model.
  - The image is a datatype with named fields `rows`, `cols`, `channels` and `data`.
  - The positional aggregate order at resize.hpp:94 cannot be checked against that struct. The model returns rows, columns and channels by name.
  - Because the image is a value, the source image is never modified.
- The coefficient loops of `CalcCoeff4x4` sit in `Coefficients.FillMatrix`. The summation loop of `BGRAfterBiCubic` sits in `Gather.SumNeighbourhood`.
- The column loop and the per-pixel body of `ResizeImage` sit in `Resize.ResizeRow`, `Resize.ResizePixel` and `Resize.WritePixel`. These helper methods keep each proof small; the loop structure and the order of writes are unchanged.
- `floor_` returns a whole-number `float`. The model returns it as an `int`, which is the value the source then uses both as an offset and as an integer.
