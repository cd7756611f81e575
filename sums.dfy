/** Finite sums over the sixteen-cell neighbourhood, in the order the
    resizer accumulates them: cell 0 first, cell 15 last. */
module Sums {

  /** w[0] + ... + w[n-1]. */
  function Total(w: seq<real>, n: nat): real
    requires n <= |w|
  {
    if n == 0 then 0.0 else Total(w, n - 1) + w[n - 1]
  }

  /** w[0]*s[0] + ... + w[n-1]*s[n-1]. */
  function Dot(w: seq<real>, s: seq<real>, n: nat): real
    requires n <= |w| && n <= |s|
  {
    if n == 0 then 0.0 else Dot(w, s, n - 1) + w[n - 1] * s[n - 1]
  }

  /** Accumulating the product of the next weight and the next sample
      extends the sum by one cell. */
  lemma {:induction false} DotStep(w: seq<real>, s: seq<real>, n: nat, a: real, b: real)
    requires n < |w| && n < |s| && a == w[n] && b == s[n]
    ensures Dot(w, s, n) + a * b == Dot(w, s, n + 1)
  {
  }

  /** One accumulation step against a constant sample. */
  lemma ScaleStep(c: real, sum: real, w: real, s: real, total: real)
    requires s == c && total == sum + w
    ensures c * sum + w * s == c * total
  {
  }

  /** Weighting samples that all equal `c` gives `c` times the total weight. */
  lemma {:induction false} DotOfConstant(w: seq<real>, s: seq<real>, c: real, n: nat)
    requires n <= |w| && n <= |s|
    requires forall k :: 0 <= k < n ==> s[k] == c
    ensures Dot(w, s, n) == c * Total(w, n)
  {
    if n > 0 {
      DotOfConstant(w, s, c, n - 1);
      ScaleStep(c, Total(w, n - 1), w[n - 1], s[n - 1], Total(w, n));
    }
  }

  /** Weights that are 1 at cell `m` and 0 elsewhere pick out sample `m`
      once the sum has passed it. */
  lemma {:induction false} DotOfSelector(w: seq<real>, s: seq<real>, m: nat, n: nat)
    requires n <= |w| && n <= |s| && m < |s|
    requires forall k :: 0 <= k < n ==> w[k] == if k == m then 1.0 else 0.0
    ensures Dot(w, s, n) == if m < n then s[m] else 0.0
  {
    if n > 0 {
      DotOfSelector(w, s, m, n - 1);
    }
  }

  /** All four entries of a weight vector, added up. */
  lemma {:induction false} TotalOfFour(b: seq<real>)
    requires |b| == 4
    ensures Total(b, 4) == b[0] + b[1] + b[2] + b[3]
  {
    assert Total(b, 1) == b[0];
    assert Total(b, 2) == b[0] + b[1];
    assert Total(b, 3) == b[0] + b[1] + b[2];
  }

  /** Four products with a common factor. */
  lemma Distribute(c: real, b0: real, b1: real, b2: real, b3: real)
    ensures c * b0 + c * b1 + c * b2 + c * b3 == c * (b0 + b1 + b2 + b3)
  {
  }

  /** Multiplication distributes over a sum of two. */
  lemma AddScaled(s: real, x: real, t: real)
    ensures (s + x) * t == s * t + x * t
  {
  }

  /** `w` holds, row-major, the products of the row weights `a` and the
      column weights `b`. */
  ghost predicate IsOuter(w: seq<real>, a: seq<real>, b: seq<real>)
  {
    |w| == 16 && |a| == 4 && |b| == 4 &&
    forall i, j :: 0 <= i < 4 && 0 <= j < 4 ==> w[i * 4 + j] == a[i] * b[j]
  }

  /** Row `n` of an outer product adds a[n] times the total of the column
      weights. */
  lemma {:induction false} OuterRow(w: seq<real>, a: seq<real>, b: seq<real>, n: nat)
    requires IsOuter(w, a, b) && n < 4
    ensures Total(w, n * 4 + 4) == Total(w, n * 4) + a[n] * Total(b, 4)
  {
    var p := n * 4;
    assert w[p] == a[n] * b[0] && w[p + 1] == a[n] * b[1] by { assert p == n * 4 + 0; }
    assert w[p + 2] == a[n] * b[2] && w[p + 3] == a[n] * b[3];
    assert Total(w, p + 2) == Total(w, p) + w[p] + w[p + 1];
    TotalOfFour(b);
    Distribute(a[n], b[0], b[1], b[2], b[3]);
  }

  /** The first `n` rows of an outer product total the first `n` row
      weights times the total of the column weights. */
  lemma {:induction false} OuterTotal(w: seq<real>, a: seq<real>, b: seq<real>, n: nat)
    requires IsOuter(w, a, b) && n <= 4
    ensures Total(w, n * 4) == Total(a, n) * Total(b, 4)
  {
    if n > 0 {
      OuterTotal(w, a, b, n - 1);
      OuterRow(w, a, b, n - 1);
      AddScaled(Total(a, n - 1), a[n - 1], Total(b, 4));
    }
  }

  /** The row-major 4x4 outer product of the weight vectors `a` and `b`. */
  function Outer(a: seq<real>, b: seq<real>): (w: seq<real>)
    requires |a| == 4 && |b| == 4
    ensures |w| == 16
  {
    seq(16, k requires 0 <= k < 16 => a[k / 4] * b[k % 4])
  }

  /** Cell (i, j) of an outer product is a[i] * b[j]. */
  lemma {:induction false} OuterCell(a: seq<real>, b: seq<real>, i: int, j: int)
    requires |a| == 4 && |b| == 4 && 0 <= i < 4 && 0 <= j < 4
    ensures Outer(a, b)[i * 4 + j] == a[i] * b[j]
  {
    assert (i * 4 + j) / 4 == i && (i * 4 + j) % 4 == j;
  }

  /** `Outer` builds what `IsOuter` describes. */
  lemma {:induction false} OuterIsOuter(a: seq<real>, b: seq<real>)
    requires |a| == 4 && |b| == 4
    ensures IsOuter(Outer(a, b), a, b)
  {
    forall i, j | 0 <= i < 4 && 0 <= j < 4
      ensures Outer(a, b)[i * 4 + j] == a[i] * b[j]
    {
      OuterCell(a, b, i, j);
    }
  }

  /** Cells that are the products of two weight vectors which each total 1
      total 1. */
  lemma {:induction false} UnitsTotalOne(w: seq<real>, a: seq<real>, b: seq<real>)
    requires IsOuter(w, a, b) && Total(a, 4) == 1.0 && Total(b, 4) == 1.0
    ensures Total(w, 16) == 1.0
  {
    OuterTotal(w, a, b, 4);
    assert 4 * 4 == 16;
  }

  /** The outer product of two weight vectors that each total 1 totals 1. */
  lemma {:induction false} OuterOfUnits(a: seq<real>, b: seq<real>)
    requires |a| == 4 && |b| == 4 && Total(a, 4) == 1.0 && Total(b, 4) == 1.0
    ensures Total(Outer(a, b), 16) == 1.0
  {
    OuterIsOuter(a, b);
    UnitsTotalOne(Outer(a, b), a, b);
  }

  /** The outer product of two unit vectors that select index 1 is 1 at
      cell 5, i.e. (1, 1), and 0 elsewhere. */
  lemma {:induction false} OuterOfSelectors(a: seq<real>, b: seq<real>)
    requires a == [0.0, 1.0, 0.0, 0.0] && b == [0.0, 1.0, 0.0, 0.0]
    ensures Outer(a, b) == seq(16, k => if k == 5 then 1.0 else 0.0)
  {
    forall k | 0 <= k < 16
      ensures Outer(a, b)[k] == if k == 5 then 1.0 else 0.0
    {
      assert k == (k / 4) * 4 + k % 4;
      OuterCell(a, b, k / 4, k % 4);
    }
  }
}
