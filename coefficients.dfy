/** The coefficient builder: the 4x4 separable weight matrix for one
    sampling position. */
module Coefficients {
  import opened Numeric
  import opened Kernel
  import opened Sums

  /** The fractional offset of `x` from its anchor `Floor(x) - 1`; in [1, 2)
      for a non-negative coordinate. */
  function Offset(x: real): (u: real)
    ensures 0.0 <= x ==> 1.0 <= u < 2.0
  {
    x - Floor(x) as real + 1.0
  }

  /** Weight of the `k`-th neighbour (k in 0..3, counted from the anchor)
      along one axis, for offset `u`. */
  function AxisWeight(u: real, k: int): real
  {
    WeightCoeff(Abs(u - k as real), A)
  }

  /** The four weights along one axis for offset `u`. */
  function AxisWeights(u: real): (w: seq<real>)
    ensures |w| == 4
  {
    seq(4, k => AxisWeight(u, k))
  }

  /** The matrix for offsets (u, v), row-major: cell i*4+j is the product
      of row weight i and column weight j. */
  function OffsetMatrix(u: real, v: real): (w: seq<real>)
    ensures |w| == 16
  {
    Outer(AxisWeights(u), AxisWeights(v))
  }

  /** Cell k of the matrix for offsets (u, v). */
  lemma OffsetMatrixCell(u: real, v: real, k: int)
    requires 0 <= k < 16
    ensures OffsetMatrix(u, v)[k] == AxisWeight(u, k / 4) * AxisWeight(v, k % 4)
  {
  }

  /** The matrix for sampling position (x, y). */
  function CoeffMatrix(x: real, y: real): seq<real>
  {
    OffsetMatrix(Offset(x), Offset(y))
  }

  /** Fills cells 0..15 of the caller's buffer with the coefficient matrix
      and touches no other cell. */
  method CalcCoeff4x4(x: real, y: real, coeff: array<real>)
    requires 16 <= coeff.Length
    modifies coeff
    ensures coeff[..16] == CoeffMatrix(x, y)
    ensures coeff[16..] == old(coeff[16..])
  {
    var u := x - Floor(x) as real;
    var v := y - Floor(y) as real;
    u := u + 1.0;
    v := v + 1.0;
    assert u == Offset(x) && v == Offset(y);
    FillMatrix(u, v, coeff);
  }

  /** The loops of the coefficient builder, once the offsets are known. */
  method FillMatrix(u: real, v: real, coeff: array<real>)
    requires 16 <= coeff.Length
    modifies coeff
    ensures coeff[..16] == OffsetMatrix(u, v)
    ensures coeff[16..] == old(coeff[16..])
  {
    for i := 0 to 4
      invariant forall k :: 0 <= k < i * 4 ==> coeff[k] == AxisWeight(u, k / 4) * AxisWeight(v, k % 4)
      invariant forall k :: 16 <= k < coeff.Length ==> coeff[k] == old(coeff[k])
    {
      for j := 0 to 4
        invariant forall k :: 0 <= k < i * 4 + j ==> coeff[k] == AxisWeight(u, k / 4) * AxisWeight(v, k % 4)
        invariant forall k :: 16 <= k < coeff.Length ==> coeff[k] == old(coeff[k])
      {
        coeff[i * 4 + j] := WeightCoeff(Abs(u - i as real), A) * WeightCoeff(Abs(v - j as real), A);
        assert (i * 4 + j) / 4 == i && (i * 4 + j) % 4 == j;
        assert coeff[i * 4 + j] == AxisWeight(u, i) * AxisWeight(v, j);
      }
    }
    forall k | 0 <= k < 16
      ensures coeff[k] == OffsetMatrix(u, v)[k]
    {
      OffsetMatrixCell(u, v, k);
    }
    assert coeff[..16] == OffsetMatrix(u, v);
  }

  /** Along one axis the four weights add up to 1 for any offset in
      [1, 2), i.e. for any non-negative coordinate. */
  lemma AxisWeightsSumToOne(u: real)
    requires 1.0 <= u < 2.0
    ensures AxisWeight(u, 0) + AxisWeight(u, 1) + AxisWeight(u, 2) + AxisWeight(u, 3) == 1.0
  {
    var t := u - 1.0;
    assert Abs(u - 0 as real) == 1.0 + t;
    assert Abs(u - 1 as real) == t;
    assert Abs(u - 2 as real) == 1.0 - t;
    assert Abs(u - 3 as real) == 2.0 - t;
    WeightsSumToOne(t, A);
  }

  /** Partition of unity in two dimensions for offsets in [1, 2). */
  lemma OffsetsSumToOne(u: real, v: real)
    requires 1.0 <= u < 2.0 && 1.0 <= v < 2.0
    ensures Total(OffsetMatrix(u, v), 16) == 1.0
  {
    AxisWeightsSumToOne(u);
    AxisWeightsSumToOne(v);
    TotalOfFour(AxisWeights(u));
    TotalOfFour(AxisWeights(v));
    OuterOfUnits(AxisWeights(u), AxisWeights(v));
  }

  /** Partition of unity in two dimensions: for any non-negative position
      the sixteen coefficients add up to 1. */
  lemma CoeffsSumToOne(x: real, y: real)
    requires 0.0 <= x && 0.0 <= y
    ensures Total(CoeffMatrix(x, y), 16) == 1.0
  {
    OffsetsSumToOne(Offset(x), Offset(y));
  }

  /** At offsets (1, 1) the matrix is 1 in cell 5, i.e. (1, 1), and 0
      elsewhere. */
  lemma CentredMatrix()
    ensures OffsetMatrix(1.0, 1.0) == seq(16, k => if k == 5 then 1.0 else 0.0)
  {
    assert AxisWeight(1.0, 0) == 0.0 && AxisWeight(1.0, 1) == 1.0;
    assert AxisWeight(1.0, 2) == 0.0 && AxisWeight(1.0, 3) == 0.0;
    assert AxisWeights(1.0) == [0.0, 1.0, 0.0, 0.0];
    OuterOfSelectors(AxisWeights(1.0), AxisWeights(1.0));
  }

  /** At a whole-number position the matrix selects the anchor's neighbour
      (1, 1), which is the sample at the position itself. */
  lemma {:induction false} WholePositionMatrix(m: nat, n: nat)
    ensures CoeffMatrix(m as real, n as real) == seq(16, k => if k == 5 then 1.0 else 0.0)
  {
    FloorOfWhole(m);
    FloorOfWhole(n);
    assert Offset(m as real) == 1.0 && Offset(n as real) == 1.0;
    CentredMatrix();
  }
}
