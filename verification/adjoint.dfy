/**
 * The discrete integration-by-parts identity that makes `-Divergence` the adjoint
 * of `Gradient`: for every square grid `A` and field `P` with n >= 2,
 * `sum(A * div(P)) == -sum(grad(A) . P)`.
 */
module Adjoint {
  import opened Grids
  import opened Operators

  /**
   * For pairwise terms `R[i][k]` (standing for "row or entry i of A against row or entry k
   * of P"), the terms the backward difference produces on each index `i`.
   */
  function BackwardTerms(r: Grid, n: nat): (b: seq<real>)
    requires n >= 2 && IsSquareOf(r, n)
    ensures |b| == n
  {
    seq(n, i requires 0 <= i < n =>
      if i == 0 then r[0][0]
      else if i == n - 1 then -r[n - 1][n - 2]
      else r[i][i] - r[i][i - 1])
  }

  /** The terms the forward difference produces on each index `i`. */
  function ForwardTerms(r: Grid, n: nat): (f: seq<real>)
    requires n >= 2 && IsSquareOf(r, n)
    ensures |f| == n
  {
    seq(n, i requires 0 <= i < n => if i < n - 1 then r[i + 1][i] - r[i][i] else 0.0)
  }

  /** Summation by parts on the prefixes that stop before the last index. */
  lemma {:induction false} PrefixSummationByParts(r: Grid, n: nat, k: nat)
    requires n >= 2 && IsSquareOf(r, n) && 1 <= k <= n - 1
    ensures Sum(BackwardTerms(r, n)[..k]) == r[k - 1][k - 1] - Sum(ForwardTerms(r, n)[..k - 1])
  {
    var b, f := BackwardTerms(r, n), ForwardTerms(r, n);
    if k == 1 {
      assert b[..1][..0] == [];
      assert f[..0] == [];
    } else {
      PrefixSummationByParts(r, n, k - 1);
      assert b[..k][..k - 1] == b[..k - 1];
      assert f[..k - 1][..k - 2] == f[..k - 2];
    }
  }

  /** Summation by parts: the backward terms sum to minus the forward terms. */
  lemma SummationByParts(r: Grid, n: nat)
    requires n >= 2 && IsSquareOf(r, n)
    ensures Sum(BackwardTerms(r, n)) == -Sum(ForwardTerms(r, n))
  {
    var b, f := BackwardTerms(r, n), ForwardTerms(r, n);
    PrefixSummationByParts(r, n, n - 1);
    assert b[..n][..n - 1] == b[..n - 1];
    assert b[..n] == b;
    assert f[..n] == f;
    assert f[..n][..n - 1] == f[..n - 1];
    assert f[..n - 1][..n - 2] == f[..n - 2];
  }

  lemma Distribute(a: real, p1: real, p0: real, prod: real, r1: real, r0: real)
    requires prod == a * (p1 - p0) && r1 == a * p1 && r0 == a * p0
    ensures prod == r1 - r0
  {
  }

  lemma DistributeLeft(a1: real, a0: real, p: real, prod: real, r1: real, r0: real)
    requires prod == (a1 - a0) * p && r1 == a1 * p && r0 == a0 * p
    ensures prod == r1 - r0
  {
  }

  lemma Negate(a: real, p: real, prod: real, r: real)
    requires prod == a * -p && r == a * p
    ensures prod == -r
  {
  }

  /** The pairwise products of row `i` of `A` with row `i` of `Py`. */
  function RowProducts(a: Grid, py: Grid, n: nat, i: nat): (r: Grid)
    requires IsSquareOf(a, n) && IsSquareOf(py, n) && i < n
    ensures IsSquareOf(r, n)
  {
    seq(n, j requires 0 <= j < n => seq(n, k requires 0 <= k < n => a[i][j] * py[i][k]))
  }

  lemma RowBackwardCell(a: Grid, py: Grid, n: nat, i: nat, j: nat)
    requires n >= 2 && IsSquareOf(a, n) && IsSquareOf(py, n) && i < n && j < n
    ensures Products(a[i], BackwardColumns(py, n)[i])[j] == BackwardTerms(RowProducts(a, py, n, i), n)[j]
  {
    var r := RowProducts(a, py, n, i);
    var prod := Products(a[i], BackwardColumns(py, n)[i])[j];
    if j == 0 {
    } else if j == n - 1 {
      Negate(a[i][n - 1], py[i][n - 2], prod, r[n - 1][n - 2]);
    } else {
      Distribute(a[i][j], py[i][j], py[i][j - 1], prod, r[j][j], r[j][j - 1]);
    }
  }

  lemma RowForwardCell(a: Grid, py: Grid, n: nat, i: nat, j: nat)
    requires n >= 2 && IsSquareOf(a, n) && IsSquareOf(py, n) && i < n && j < n
    ensures Products(ForwardColumns(a, n)[i], py[i])[j] == ForwardTerms(RowProducts(a, py, n, i), n)[j]
  {
    var r := RowProducts(a, py, n, i);
    var prod := Products(ForwardColumns(a, n)[i], py[i])[j];
    if j < n - 1 {
      DistributeLeft(a[i][j + 1], a[i][j], py[i][j], prod, r[j + 1][j], r[j][j]);
    }
  }

  /** Along one row, `<a, backward(q)> == -<forward(a), q>`. */
  lemma RowAdjoint(a: Grid, py: Grid, n: nat, i: nat)
    requires n >= 2 && IsSquareOf(a, n) && IsSquareOf(py, n) && i < n
    ensures RowDot(a[i], BackwardColumns(py, n)[i]) == -RowDot(ForwardColumns(a, n)[i], py[i])
  {
    var r := RowProducts(a, py, n, i);
    var lhs := Products(a[i], BackwardColumns(py, n)[i]);
    var rhs := Products(ForwardColumns(a, n)[i], py[i]);
    forall j | 0 <= j < n
      ensures lhs[j] == BackwardTerms(r, n)[j]
    {
      RowBackwardCell(a, py, n, i, j);
    }
    forall j | 0 <= j < n
      ensures rhs[j] == ForwardTerms(r, n)[j]
    {
      RowForwardCell(a, py, n, i, j);
    }
    assert lhs == BackwardTerms(r, n);
    assert rhs == ForwardTerms(r, n);
    SummationByParts(r, n);
  }

  /** The row inner products of the rows of `A` with the rows of `Px`. */
  function RowPairings(a: Grid, px: Grid, n: nat): (r: Grid)
    requires IsSquareOf(a, n) && IsSquareOf(px, n)
    ensures IsSquareOf(r, n)
  {
    seq(n, i requires 0 <= i < n => seq(n, k requires 0 <= k < n => RowDot(a[i], px[k])))
  }

  lemma ColumnBackwardCell(a: Grid, px: Grid, n: nat, i: nat)
    requires n >= 2 && IsSquareOf(a, n) && IsSquareOf(px, n) && i < n
    ensures RowDots(a, BackwardRows(px, n), n)[i] == BackwardTerms(RowPairings(a, px, n), n)[i]
  {
    var br := BackwardRows(px, n);
    if i == 0 {
      assert br[0] == px[0];
    } else if i == n - 1 {
      RowDotLinearRight(a[i], px[n - 2], px[n - 2], br[i], -1.0, 0.0);
    } else {
      RowDotLinearRight(a[i], px[i], px[i - 1], br[i], 1.0, -1.0);
    }
  }

  lemma ColumnForwardCell(a: Grid, px: Grid, n: nat, i: nat)
    requires n >= 2 && IsSquareOf(a, n) && IsSquareOf(px, n) && i < n
    ensures RowDots(ForwardRows(a, n), px, n)[i] == ForwardTerms(RowPairings(a, px, n), n)[i]
  {
    var fr := ForwardRows(a, n);
    if i < n - 1 {
      RowDotLinearLeft(a[i + 1], a[i], fr[i], px[i], 1.0, -1.0);
    } else {
      RowDotLinearLeft(a[i], a[i], fr[i], px[i], 0.0, 0.0);
    }
  }

  /** Down the rows, `sum(A * backward(Px)) == -sum(forward(A) * Px)`. */
  lemma ColumnAdjoint(a: Grid, px: Grid, n: nat)
    requires n >= 2 && IsSquareOf(a, n) && IsSquareOf(px, n)
    ensures Dot(a, BackwardRows(px, n), n) == -Dot(ForwardRows(a, n), px, n)
  {
    var r := RowPairings(a, px, n);
    var lhs, rhs := RowDots(a, BackwardRows(px, n), n), RowDots(ForwardRows(a, n), px, n);
    forall i | 0 <= i < n
      ensures lhs[i] == BackwardTerms(r, n)[i]
    {
      ColumnBackwardCell(a, px, n, i);
    }
    forall i | 0 <= i < n
      ensures rhs[i] == ForwardTerms(r, n)[i]
    {
      ColumnForwardCell(a, px, n, i);
    }
    assert lhs == BackwardTerms(r, n);
    assert rhs == ForwardTerms(r, n);
    SummationByParts(r, n);
  }

  /** Across all rows, `sum(A * backward_columns(Py)) == -sum(forward_columns(A) * Py)`. */
  lemma RowsAdjoint(a: Grid, py: Grid, n: nat)
    requires n >= 2 && IsSquareOf(a, n) && IsSquareOf(py, n)
    ensures Dot(a, BackwardColumns(py, n), n) == -Dot(ForwardColumns(a, n), py, n)
  {
    var lhs, rhs := RowDots(a, BackwardColumns(py, n), n), RowDots(ForwardColumns(a, n), py, n);
    forall i | 0 <= i < n
      ensures lhs[i] == -rhs[i]
    {
      RowAdjoint(a, py, n, i);
    }
    SumNegation(rhs, lhs);
  }

  /** The pairing with a divergence splits into its row and column parts. */
  lemma DotDivergenceSplit(a: Grid, p: Field, n: nat)
    requires n >= 2 && IsSquareOf(a, n) && IsFieldOf(p, n)
    ensures Dot(a, Divergence(p, n), n) ==
      Dot(a, BackwardRows(p.x, n), n) + Dot(a, BackwardColumns(p.y, n), n)
  {
    var br, bc, d := BackwardRows(p.x, n), BackwardColumns(p.y, n), Divergence(p, n);
    var whole, rows, cols := RowDots(a, d, n), RowDots(a, br, n), RowDots(a, bc, n);
    forall i | 0 <= i < n
      ensures whole[i] == rows[i] + cols[i]
    {
      RowDotLinearRight(a[i], br[i], bc[i], d[i], 1.0, 1.0);
    }
    SumAddition(rows, cols, whole);
  }

  /** Adjointness: `sum(A * div(P)) == -sum(grad(A) . P)`. */
  lemma GradientDivergenceAdjoint(a: Grid, p: Field, n: nat)
    requires n >= 2 && IsSquareOf(a, n) && IsFieldOf(p, n)
    ensures Dot(a, Divergence(p, n), n) ==
      -(Dot(Gradient(a, n).x, p.x, n) + Dot(Gradient(a, n).y, p.y, n))
  {
    DotDivergenceSplit(a, p, n);
    ColumnAdjoint(a, p.x, n);
    RowsAdjoint(a, p.y, n);
  }
}
