/**
 * Peyré's discrete gradient and divergence on a square n-by-n grid.
 *
 * `Gradient` and `Divergence` state the per-cell index rule and are what the rest
 * of the model uses. `GradientByShift` and `DivergenceByShift` build the same
 * results the way the array code does (shift by concatenation, subtract, overwrite
 * the boundary rows and columns) and are proved equal to them.
 */
module Operators {
  import opened Grids

  /** Forward difference down the rows, zero on the last row. */
  function ForwardRows(m: Grid, n: nat): (fx: Grid)
    requires IsSquareOf(m, n)
    ensures IsSquareOf(fx, n)
  {
    seq(n, i requires 0 <= i < n => seq(n, j requires 0 <= j < n =>
      if i < n - 1 then m[i + 1][j] - m[i][j] else 0.0))
  }

  /** Forward difference along each row, zero on the last column. */
  function ForwardColumns(m: Grid, n: nat): (fy: Grid)
    requires IsSquareOf(m, n)
    ensures IsSquareOf(fy, n)
  {
    seq(n, i requires 0 <= i < n => seq(n, j requires 0 <= j < n =>
      if j < n - 1 then m[i][j + 1] - m[i][j] else 0.0))
  }

  /** The discrete gradient `[fx, fy]`. */
  function Gradient(m: Grid, n: nat): (g: Field)
    requires IsSquareOf(m, n)
    ensures IsFieldOf(g, n)
  {
    Field(ForwardRows(m, n), ForwardColumns(m, n))
  }

  /** Backward difference down the rows: `Px[0]` on row 0, `-Px[n-2]` on row n-1. */
  function BackwardRows(px: Grid, n: nat): (fx: Grid)
    requires n >= 2 && IsSquareOf(px, n)
    ensures IsSquareOf(fx, n)
  {
    seq(n, i requires 0 <= i < n => seq(n, j requires 0 <= j < n =>
      if i == 0 then px[0][j]
      else if i == n - 1 then -px[n - 2][j]
      else px[i][j] - px[i - 1][j]))
  }

  /** Backward difference along each row: `Py[:,0]` on column 0, `-Py[:,n-2]` on column n-1. */
  function BackwardColumns(py: Grid, n: nat): (fy: Grid)
    requires n >= 2 && IsSquareOf(py, n)
    ensures IsSquareOf(fy, n)
  {
    seq(n, i requires 0 <= i < n => seq(n, j requires 0 <= j < n =>
      if j == 0 then py[i][0]
      else if j == n - 1 then -py[i][n - 2]
      else py[i][j] - py[i][j - 1]))
  }

  /** The discrete divergence `fx + fy` of `p = [Px, Py]`. */
  function Divergence(p: Field, n: nat): (d: Grid)
    requires n >= 2 && IsFieldOf(p, n)
    ensures IsSquareOf(d, n)
  {
    Add(BackwardRows(p.x, n), BackwardColumns(p.y, n), n)
  }

  // ---------------------------------------------------------------------------
  // The array code's construction

  /** `concat(m[1:len(m)], [m[-1]])`: rows 1..n-1, then the last row again. */
  function ShiftRows(m: Grid): Grid
    requires |m| >= 1
  {
    m[1..|m|] + [m[|m| - 1]]
  }

  /** `concat(m[:, 1:len(m)], m[:, -1])`: the column slice is bounded by the row count. */
  function ShiftColumns(m: Grid): Grid
    requires forall i :: 0 <= i < |m| ==> |m[i]| == |m|
  {
    seq(|m|, i requires 0 <= i < |m| => m[i][1..|m|] + [m[i][|m| - 1]])
  }

  /** `gradient2D`: subtract the grid from its shifted copies. It needs at least one row. */
  function GradientByShift(m: Grid, n: nat): (g: Field)
    requires n >= 1 && IsSquareOf(m, n)
    ensures g == Gradient(m, n)
  {
    var x := ShiftRows(m);
    var y := ShiftColumns(m);
    assert IsSquareOf(x, n);
    assert forall i :: 0 <= i < n ==> |y[i]| == n;
    var g := Field(Sub(x, m, n), Sub(y, m, n));
    GridExtensionality(g.x, ForwardRows(m, n), n);
    GridExtensionality(g.y, ForwardColumns(m, n), n);
    g
  }

  /** `Px - concat([Px[0]], Px[0:n-1])`, then row 0 set to `Px[0]` and row n-1 to `-Px[-2]`. */
  function ShiftedRowsPart(px: Grid, n: nat): (fx: Grid)
    requires n >= 2 && IsSquareOf(px, n)
    ensures fx == BackwardRows(px, n)
  {
    var shifted := [px[0]] + px[0..n - 1];
    assert IsSquareOf(shifted, n);
    var raw := Sub(px, shifted, n);
    var fx := raw[0 := px[0]][n - 1 := seq(n, j requires 0 <= j < n => -px[n - 2][j])];
    GridExtensionality(fx, BackwardRows(px, n), n);
    fx
  }

  /** `Py - concat(Py[:,0], Py[:, 0:len(Py)-1])`, then column 0 set to `Py[:,0]` and column n-1 to `-Py[:,-2]`. */
  function ShiftedColumnsPart(py: Grid, n: nat): (fy: Grid)
    requires n >= 2 && IsSquareOf(py, n)
    ensures fy == BackwardColumns(py, n)
  {
    var shifted := seq(n, i requires 0 <= i < n => [py[i][0]] + py[i][0..n - 1]);
    assert IsSquareOf(shifted, n);
    var raw := Sub(py, shifted, n);
    var fy := seq(n, i requires 0 <= i < n => raw[i][0 := py[i][0]][n - 1 := -py[i][n - 2]]);
    GridExtensionality(fy, BackwardColumns(py, n), n);
    fy
  }

  /** `divergence2D`: the sum of the two overwritten backward differences. */
  function DivergenceByShift(p: Field, n: nat): (d: Grid)
    requires n >= 2 && IsFieldOf(p, n)
    ensures d == Divergence(p, n)
  {
    Add(ShiftedRowsPart(p.x, n), ShiftedColumnsPart(p.y, n), n)
  }

  // ---------------------------------------------------------------------------
  // Properties

  /** A grid has an all-zero gradient exactly when it is constant. */
  lemma GradientZeroIffConstant(m: Grid, n: nat)
    requires n >= 1 && IsSquareOf(m, n)
    ensures Gradient(m, n) == ZeroField(n) <==> m == Constant(n, m[0][0])
  {
    var g := Gradient(m, n);
    if m == Constant(n, m[0][0]) {
      GridExtensionality(g.x, Zero(n), n);
      GridExtensionality(g.y, Zero(n), n);
    }
    if g == ZeroField(n) {
      forall i, j | 0 <= i < n && 0 <= j < n
        ensures m[i][j] == m[0][0]
      {
        FirstColumnConstant(m, n, i);
        RowConstant(m, n, i, j);
      }
      GridExtensionality(m, Constant(n, m[0][0]), n);
    }
  }

  lemma {:induction false} FirstColumnConstant(m: Grid, n: nat, i: nat)
    requires IsSquareOf(m, n) && i < n
    requires Gradient(m, n) == ZeroField(n)
    ensures m[i][0] == m[0][0]
  {
    if i > 0 {
      FirstColumnConstant(m, n, i - 1);
      assert Gradient(m, n).x[i - 1][0] == 0.0;
    }
  }

  lemma {:induction false} RowConstant(m: Grid, n: nat, i: nat, j: nat)
    requires IsSquareOf(m, n) && i < n && j < n
    requires Gradient(m, n) == ZeroField(n)
    ensures m[i][j] == m[i][0]
  {
    if j > 0 {
      RowConstant(m, n, i, j - 1);
      assert Gradient(m, n).y[i][j - 1] == 0.0;
    }
  }

  /** A difference of two combinations is the combination of the differences. */
  lemma CombinationOfDifferences(alpha: real, beta: real, a1: real, a0: real, b1: real, b0: real,
                                 da: real, db: real, dc: real)
    requires da == a1 - a0 && db == b1 - b0
    requires dc == (alpha * a1 + beta * b1) - (alpha * a0 + beta * b0)
    ensures dc == alpha * da + beta * db
  {
  }

  lemma CombinationOfZeros(alpha: real, beta: real, da: real, db: real, dc: real)
    requires da == 0.0 && db == 0.0 && dc == 0.0
    ensures dc == alpha * da + beta * db
  {
  }

  lemma CombinationOfCopies(alpha: real, beta: real, a: real, b: real, da: real, db: real, dc: real)
    requires da == a && db == b && dc == alpha * a + beta * b
    ensures dc == alpha * da + beta * db
  {
  }

  lemma CombinationOfNegations(alpha: real, beta: real, a: real, b: real, da: real, db: real, dc: real)
    requires da == -a && db == -b && dc == -(alpha * a + beta * b)
    ensures dc == alpha * da + beta * db
  {
  }

  /** The gradient is linear. */
  lemma GradientLinear(alpha: real, a: Grid, beta: real, b: Grid, n: nat)
    requires IsSquareOf(a, n) && IsSquareOf(b, n)
    ensures Gradient(Combine(alpha, a, beta, b, n), n) ==
      Field(Combine(alpha, Gradient(a, n).x, beta, Gradient(b, n).x, n),
            Combine(alpha, Gradient(a, n).y, beta, Gradient(b, n).y, n))
  {
    ForwardRowsLinear(alpha, a, beta, b, n);
    ForwardColumnsLinear(alpha, a, beta, b, n);
  }

  lemma ForwardRowsLinear(alpha: real, a: Grid, beta: real, b: Grid, n: nat)
    requires IsSquareOf(a, n) && IsSquareOf(b, n)
    ensures ForwardRows(Combine(alpha, a, beta, b, n), n) ==
      Combine(alpha, ForwardRows(a, n), beta, ForwardRows(b, n), n)
  {
    var l := ForwardRows(Combine(alpha, a, beta, b, n), n);
    var r := Combine(alpha, ForwardRows(a, n), beta, ForwardRows(b, n), n);
    forall i, j | 0 <= i < n && 0 <= j < n
      ensures l[i][j] == r[i][j]
    {
      ForwardRowsLinearAt(alpha, a, beta, b, n, i, j);
    }
    GridExtensionality(l, r, n);
  }

  lemma ForwardRowsLinearAt(alpha: real, a: Grid, beta: real, b: Grid, n: nat, i: nat, j: nat)
    requires IsSquareOf(a, n) && IsSquareOf(b, n) && i < n && j < n
    ensures ForwardRows(Combine(alpha, a, beta, b, n), n)[i][j] ==
      alpha * ForwardRows(a, n)[i][j] + beta * ForwardRows(b, n)[i][j]
  {
    var c, da, db := ForwardRows(Combine(alpha, a, beta, b, n), n), ForwardRows(a, n), ForwardRows(b, n);
    if i < n - 1 {
      CombinationOfDifferences(alpha, beta, a[i + 1][j], a[i][j], b[i + 1][j], b[i][j], da[i][j], db[i][j], c[i][j]);
    } else {
      CombinationOfZeros(alpha, beta, da[i][j], db[i][j], c[i][j]);
    }
  }

  lemma ForwardColumnsLinear(alpha: real, a: Grid, beta: real, b: Grid, n: nat)
    requires IsSquareOf(a, n) && IsSquareOf(b, n)
    ensures ForwardColumns(Combine(alpha, a, beta, b, n), n) ==
      Combine(alpha, ForwardColumns(a, n), beta, ForwardColumns(b, n), n)
  {
    var l := ForwardColumns(Combine(alpha, a, beta, b, n), n);
    var r := Combine(alpha, ForwardColumns(a, n), beta, ForwardColumns(b, n), n);
    forall i, j | 0 <= i < n && 0 <= j < n
      ensures l[i][j] == r[i][j]
    {
      ForwardColumnsLinearAt(alpha, a, beta, b, n, i, j);
    }
    GridExtensionality(l, r, n);
  }

  lemma ForwardColumnsLinearAt(alpha: real, a: Grid, beta: real, b: Grid, n: nat, i: nat, j: nat)
    requires IsSquareOf(a, n) && IsSquareOf(b, n) && i < n && j < n
    ensures ForwardColumns(Combine(alpha, a, beta, b, n), n)[i][j] ==
      alpha * ForwardColumns(a, n)[i][j] + beta * ForwardColumns(b, n)[i][j]
  {
    var c, da, db := ForwardColumns(Combine(alpha, a, beta, b, n), n), ForwardColumns(a, n), ForwardColumns(b, n);
    if j < n - 1 {
      CombinationOfDifferences(alpha, beta, a[i][j + 1], a[i][j], b[i][j + 1], b[i][j], da[i][j], db[i][j], c[i][j]);
    } else {
      CombinationOfZeros(alpha, beta, da[i][j], db[i][j], c[i][j]);
    }
  }

  /** The divergence is linear. */
  lemma DivergenceLinear(alpha: real, p: Field, beta: real, q: Field, n: nat)
    requires n >= 2 && IsFieldOf(p, n) && IsFieldOf(q, n)
    ensures Divergence(Field(Combine(alpha, p.x, beta, q.x, n), Combine(alpha, p.y, beta, q.y, n)), n) ==
      Combine(alpha, Divergence(p, n), beta, Divergence(q, n), n)
  {
    BackwardRowsLinear(alpha, p.x, beta, q.x, n);
    BackwardColumnsLinear(alpha, p.y, beta, q.y, n);
    AddOfCombinations(alpha, BackwardRows(p.x, n), beta, BackwardRows(q.x, n),
                      BackwardColumns(p.y, n), BackwardColumns(q.y, n), n);
  }

  lemma BackwardRowsLinear(alpha: real, px: Grid, beta: real, qx: Grid, n: nat)
    requires n >= 2 && IsSquareOf(px, n) && IsSquareOf(qx, n)
    ensures BackwardRows(Combine(alpha, px, beta, qx, n), n) ==
      Combine(alpha, BackwardRows(px, n), beta, BackwardRows(qx, n), n)
  {
    var l := BackwardRows(Combine(alpha, px, beta, qx, n), n);
    var r := Combine(alpha, BackwardRows(px, n), beta, BackwardRows(qx, n), n);
    forall i, j | 0 <= i < n && 0 <= j < n
      ensures l[i][j] == r[i][j]
    {
      BackwardRowsLinearAt(alpha, px, beta, qx, n, i, j);
    }
    GridExtensionality(l, r, n);
  }

  lemma BackwardColumnsLinear(alpha: real, py: Grid, beta: real, qy: Grid, n: nat)
    requires n >= 2 && IsSquareOf(py, n) && IsSquareOf(qy, n)
    ensures BackwardColumns(Combine(alpha, py, beta, qy, n), n) ==
      Combine(alpha, BackwardColumns(py, n), beta, BackwardColumns(qy, n), n)
  {
    var l := BackwardColumns(Combine(alpha, py, beta, qy, n), n);
    var r := Combine(alpha, BackwardColumns(py, n), beta, BackwardColumns(qy, n), n);
    forall i, j | 0 <= i < n && 0 <= j < n
      ensures l[i][j] == r[i][j]
    {
      BackwardColumnsLinearAt(alpha, py, beta, qy, n, i, j);
    }
    GridExtensionality(l, r, n);
  }

  lemma BackwardRowsLinearAt(alpha: real, px: Grid, beta: real, qx: Grid, n: nat, i: nat, j: nat)
    requires n >= 2 && IsSquareOf(px, n) && IsSquareOf(qx, n) && i < n && j < n
    ensures BackwardRows(Combine(alpha, px, beta, qx, n), n)[i][j] ==
      alpha * BackwardRows(px, n)[i][j] + beta * BackwardRows(qx, n)[i][j]
  {
    var c, dp, dq := BackwardRows(Combine(alpha, px, beta, qx, n), n), BackwardRows(px, n), BackwardRows(qx, n);
    if i == 0 {
      CombinationOfCopies(alpha, beta, px[0][j], qx[0][j], dp[i][j], dq[i][j], c[i][j]);
    } else if i == n - 1 {
      CombinationOfNegations(alpha, beta, px[n - 2][j], qx[n - 2][j], dp[i][j], dq[i][j], c[i][j]);
    } else {
      CombinationOfDifferences(alpha, beta, px[i][j], px[i - 1][j], qx[i][j], qx[i - 1][j],
                               dp[i][j], dq[i][j], c[i][j]);
    }
  }

  lemma BackwardColumnsLinearAt(alpha: real, py: Grid, beta: real, qy: Grid, n: nat, i: nat, j: nat)
    requires n >= 2 && IsSquareOf(py, n) && IsSquareOf(qy, n) && i < n && j < n
    ensures BackwardColumns(Combine(alpha, py, beta, qy, n), n)[i][j] ==
      alpha * BackwardColumns(py, n)[i][j] + beta * BackwardColumns(qy, n)[i][j]
  {
    var c, dp, dq := BackwardColumns(Combine(alpha, py, beta, qy, n), n), BackwardColumns(py, n), BackwardColumns(qy, n);
    if j == 0 {
      CombinationOfCopies(alpha, beta, py[i][0], qy[i][0], dp[i][j], dq[i][j], c[i][j]);
    } else if j == n - 1 {
      CombinationOfNegations(alpha, beta, py[i][n - 2], qy[i][n - 2], dp[i][j], dq[i][j], c[i][j]);
    } else {
      CombinationOfDifferences(alpha, beta, py[i][j], py[i][j - 1], qy[i][j], qy[i][j - 1],
                               dp[i][j], dq[i][j], c[i][j]);
    }
  }

  /** The divergence of the zero field is the zero grid. */
  lemma DivergenceOfZero(n: nat)
    requires n >= 2
    ensures Divergence(ZeroField(n), n) == Zero(n)
  {
    GridExtensionality(Divergence(ZeroField(n), n), Zero(n), n);
  }

  /** Row n-1 of `Px` and column n-1 of `Py` never reach the divergence. */
  lemma DivergenceIgnoresFarEdge(p: Field, q: Field, n: nat)
    requires n >= 2 && IsFieldOf(p, n) && IsFieldOf(q, n)
    requires forall i, j :: 0 <= i < n - 1 && 0 <= j < n ==> p.x[i][j] == q.x[i][j]
    requires forall i, j :: 0 <= i < n && 0 <= j < n - 1 ==> p.y[i][j] == q.y[i][j]
    ensures Divergence(p, n) == Divergence(q, n)
  {
    GridExtensionality(Divergence(p, n), Divergence(q, n), n);
  }
}
