/** Square sample grids over exact reals, their cellwise algebra and inner products. */
module Grids {

  /** A 2-D array of samples, row-major: `m[i][j]` is row `i`, column `j`. */
  type Grid = seq<seq<real>>

  /** A pair of grids: the x- and y-channels of a gradient or of the dual variable. */
  datatype Field = Field(x: Grid, y: Grid)

  predicate IsSquareOf(m: Grid, n: nat) {
    |m| == n && forall i :: 0 <= i < n ==> |m[i]| == n
  }

  predicate IsFieldOf(p: Field, n: nat) {
    IsSquareOf(p.x, n) && IsSquareOf(p.y, n)
  }

  function Zero(n: nat): (z: Grid)
    ensures IsSquareOf(z, n)
    ensures forall i, j :: 0 <= i < n && 0 <= j < n ==> z[i][j] == 0.0
  {
    Constant(n, 0.0)
  }

  function Constant(n: nat, c: real): (m: Grid)
    ensures IsSquareOf(m, n)
    ensures forall i, j :: 0 <= i < n && 0 <= j < n ==> m[i][j] == c
  {
    seq(n, i => seq(n, j => c))
  }

  function ZeroField(n: nat): (p: Field)
    ensures IsFieldOf(p, n)
  {
    Field(Zero(n), Zero(n))
  }

  /** Cellwise `a - b`. */
  function Sub(a: Grid, b: Grid, n: nat): (r: Grid)
    requires IsSquareOf(a, n) && IsSquareOf(b, n)
    ensures IsSquareOf(r, n)
    ensures forall i, j :: 0 <= i < n && 0 <= j < n ==> r[i][j] == a[i][j] - b[i][j]
  {
    seq(n, i requires 0 <= i < n => seq(n, j requires 0 <= j < n => a[i][j] - b[i][j]))
  }

  /** Cellwise `a + b`. */
  function Add(a: Grid, b: Grid, n: nat): (r: Grid)
    requires IsSquareOf(a, n) && IsSquareOf(b, n)
    ensures IsSquareOf(r, n)
    ensures forall i, j :: 0 <= i < n && 0 <= j < n ==> r[i][j] == a[i][j] + b[i][j]
  {
    seq(n, i requires 0 <= i < n => seq(n, j requires 0 <= j < n => a[i][j] + b[i][j]))
  }

  /** Cellwise `c * a`. */
  function Scale(c: real, a: Grid, n: nat): (r: Grid)
    requires IsSquareOf(a, n)
    ensures IsSquareOf(r, n)
    ensures forall i, j :: 0 <= i < n && 0 <= j < n ==> r[i][j] == c * a[i][j]
  {
    seq(n, i requires 0 <= i < n => seq(n, j requires 0 <= j < n => c * a[i][j]))
  }

  /** Cellwise `alpha * a + beta * b`, the combination linearity is stated with. */
  function Combine(alpha: real, a: Grid, beta: real, b: Grid, n: nat): (r: Grid)
    requires IsSquareOf(a, n) && IsSquareOf(b, n)
    ensures IsSquareOf(r, n)
    ensures forall i, j :: 0 <= i < n && 0 <= j < n ==> r[i][j] == alpha * a[i][j] + beta * b[i][j]
  {
    seq(n, i requires 0 <= i < n => seq(n, j requires 0 <= j < n => alpha * a[i][j] + beta * b[i][j]))
  }

  /** Adding two combinations with the same coefficients combines the sums. */
  lemma AddOfCombinations(alpha: real, a: Grid, beta: real, b: Grid, c: Grid, d: Grid, n: nat)
    requires IsSquareOf(a, n) && IsSquareOf(b, n) && IsSquareOf(c, n) && IsSquareOf(d, n)
    ensures Add(Combine(alpha, a, beta, b, n), Combine(alpha, c, beta, d, n), n) ==
      Combine(alpha, Add(a, c, n), beta, Add(b, d, n), n)
  {
    var l := Add(Combine(alpha, a, beta, b, n), Combine(alpha, c, beta, d, n), n);
    var r := Combine(alpha, Add(a, c, n), beta, Add(b, d, n), n);
    forall i, j | 0 <= i < n && 0 <= j < n
      ensures l[i][j] == r[i][j]
    {
      SumOfCombinations(alpha, beta, a[i][j], b[i][j], c[i][j], d[i][j],
        Combine(alpha, a, beta, b, n)[i][j], Combine(alpha, c, beta, d, n)[i][j],
        l[i][j], Add(a, c, n)[i][j], Add(b, d, n)[i][j]);
    }
    GridExtensionality(l, r, n);
  }

  lemma SumOfCombinations(alpha: real, beta: real, px: real, qx: real, py: real, qy: real,
                          cx: real, cy: real, dc: real, dp: real, dq: real)
    requires cx == alpha * px + beta * qx && cy == alpha * py + beta * qy
    requires dc == cx + cy && dp == px + py && dq == qx + qy
    ensures dc == alpha * dp + beta * dq
  {
  }

  /** Two grids of one shape that agree on every cell are equal. */
  lemma GridExtensionality(a: Grid, b: Grid, n: nat)
    requires IsSquareOf(a, n) && IsSquareOf(b, n)
    requires forall i, j :: 0 <= i < n && 0 <= j < n ==> a[i][j] == b[i][j]
    ensures a == b
  {
    forall i | 0 <= i < n
      ensures a[i] == b[i]
    {
      assert forall j :: 0 <= j < n ==> a[i][j] == b[i][j];
    }
  }

  /** The sum of a sequence, accumulated from the front. */
  function Sum(s: seq<real>): real
  {
    if |s| == 0 then 0.0 else Sum(s[..|s| - 1]) + s[|s| - 1]
  }

  /** Sums of sequences that are pointwise linear combinations combine the same way. */
  lemma {:induction false} SumLinear(s: seq<real>, t: seq<real>, u: seq<real>, alpha: real, beta: real)
    requires |s| == |t| == |u|
    requires forall k :: 0 <= k < |u| ==> u[k] == alpha * s[k] + beta * t[k]
    ensures Sum(u) == alpha * Sum(s) + beta * Sum(t)
  {
    if |u| > 0 {
      var m := |u| - 1;
      SumLinear(s[..m], t[..m], u[..m], alpha, beta);
    }
  }

  /** Negating every term negates the sum. */
  lemma SumNegation(s: seq<real>, t: seq<real>)
    requires |s| == |t|
    requires forall k :: 0 <= k < |t| ==> t[k] == -s[k]
    ensures Sum(t) == -Sum(s)
  {
    forall k | 0 <= k < |t|
      ensures t[k] == -1.0 * s[k] + 0.0 * s[k]
    {
    }
    SumLinear(s, s, t, -1.0, 0.0);
  }

  /** Adding sequences termwise adds their sums. */
  lemma SumAddition(s: seq<real>, t: seq<real>, u: seq<real>)
    requires |s| == |t| == |u|
    requires forall k :: 0 <= k < |u| ==> u[k] == s[k] + t[k]
    ensures Sum(u) == Sum(s) + Sum(t)
  {
    forall k | 0 <= k < |u|
      ensures u[k] == 1.0 * s[k] + 1.0 * t[k]
    {
    }
    SumLinear(s, t, u, 1.0, 1.0);
  }

  /** The elementwise products of two rows. */
  function Products(u: seq<real>, v: seq<real>): (p: seq<real>)
    requires |u| == |v|
    ensures |p| == |u|
    ensures forall k :: 0 <= k < |u| ==> p[k] == u[k] * v[k]
  {
    seq(|u|, k requires 0 <= k < |u| => u[k] * v[k])
  }

  /** The inner product of two rows. */
  function RowDot(u: seq<real>, v: seq<real>): real
    requires |u| == |v|
  {
    Sum(Products(u, v))
  }

  /** The inner products of corresponding rows of two grids. */
  function RowDots(a: Grid, b: Grid, n: nat): (d: seq<real>)
    requires IsSquareOf(a, n) && IsSquareOf(b, n)
    ensures |d| == n
    ensures forall i :: 0 <= i < n ==> d[i] == RowDot(a[i], b[i])
  {
    seq(n, i requires 0 <= i < n => RowDot(a[i], b[i]))
  }

  /** The Frobenius inner product `sum(a * b)` of two grids of one shape. */
  function Dot(a: Grid, b: Grid, n: nat): real
    requires IsSquareOf(a, n) && IsSquareOf(b, n)
  {
    Sum(RowDots(a, b, n))
  }

  /** The inner product is linear in its second argument. */
  lemma RowDotLinearRight(u: seq<real>, v: seq<real>, w: seq<real>, z: seq<real>, alpha: real, beta: real)
    requires |u| == |v| == |w| == |z|
    requires forall k :: 0 <= k < |z| ==> z[k] == alpha * v[k] + beta * w[k]
    ensures RowDot(u, z) == alpha * RowDot(u, v) + beta * RowDot(u, w)
  {
    var n := |u|;
    var pz, pv, pw := Products(u, z), Products(u, v), Products(u, w);
    forall k | 0 <= k < n
      ensures pz[k] == alpha * pv[k] + beta * pw[k]
    {
      calc {
        pz[k];
        u[k] * (alpha * v[k] + beta * w[k]);
        alpha * (u[k] * v[k]) + beta * (u[k] * w[k]);
      }
    }
    SumLinear(pv, pw, pz, alpha, beta);
  }

  /** The inner product is linear in its first argument. */
  lemma RowDotLinearLeft(v: seq<real>, w: seq<real>, z: seq<real>, u: seq<real>, alpha: real, beta: real)
    requires |u| == |v| == |w| == |z|
    requires forall k :: 0 <= k < |z| ==> z[k] == alpha * v[k] + beta * w[k]
    ensures RowDot(z, u) == alpha * RowDot(v, u) + beta * RowDot(w, u)
  {
    var n := |u|;
    var pz, pv, pw := Products(z, u), Products(v, u), Products(w, u);
    forall k | 0 <= k < n
      ensures pz[k] == alpha * pv[k] + beta * pw[k]
    {
      calc {
        pz[k];
        (alpha * v[k] + beta * w[k]) * u[k];
        alpha * (v[k] * u[k]) + beta * (w[k] * u[k]);
      }
    }
    SumLinear(pv, pw, pz, alpha, beta);
  }
}
