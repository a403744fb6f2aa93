/**
 * One step of Chambolle's dual projection and a run of several steps.
 *
 * The step computes `g = grad(div(xi) - f/mi)`, the pointwise magnitude `d = |g|`, the
 * new dual field `xi' = (xi + tau*g) / (1 + tau*d)` and the reconstruction
 * `x2 = mi * div(xi')`. The square root is not computed: `d` is a witness grid with
 * `d >= 0` and `d*d == gx*gx + gy*gy` in every cell.
 */
module DualUpdate {
  import opened Results
  import opened Grids
  import opened Operators
  import opened Reals

  /** The ascent direction `grad(div(xi) - f/mi)`; with `mi == 0` the quotient `f/mi` is not finite. */
  function DualGradient(xi: Field, f: Grid, mi: real, n: nat): (g: Result<Field>)
    requires n >= 2 && IsFieldOf(xi, n) && IsSquareOf(f, n)
    ensures g.Success? <==> mi != 0.0
    ensures g.Success? ==> IsFieldOf(g.value, n)
  {
    if mi == 0.0 then Failure(NonFiniteValues)
    else Success(Gradient(Sub(Divergence(xi, n), Scale(1.0 / mi, f, n), n), n))
  }

  /** `d` is the pointwise Euclidean length of the field `g`. */
  predicate IsMagnitude(d: Grid, g: Field, n: nat)
    requires IsSquareOf(d, n) && IsFieldOf(g, n)
  {
    forall i, j :: 0 <= i < n && 0 <= j < n ==>
      d[i][j] >= 0.0 && d[i][j] * d[i][j] == g.x[i][j] * g.x[i][j] + g.y[i][j] * g.y[i][j]
  }

  /** No cell of the update divides by zero. */
  predicate NonZeroDenominators(d: Grid, tau: real, n: nat)
    requires IsSquareOf(d, n)
  {
    forall i, j :: 0 <= i < n && 0 <= j < n ==> 1.0 + tau * d[i][j] != 0.0
  }

  /** The cellwise quotients `(a + tau*g) / (1 + tau*d)`. */
  function Quotients(a: Grid, g: Grid, d: Grid, tau: real, n: nat): (q: Grid)
    requires IsSquareOf(a, n) && IsSquareOf(g, n) && IsSquareOf(d, n)
    requires NonZeroDenominators(d, tau, n)
    ensures IsSquareOf(q, n)
    ensures forall i, j :: 0 <= i < n && 0 <= j < n ==>
      (1.0 + tau * d[i][j]) * q[i][j] == a[i][j] + tau * g[i][j]
  {
    var q := seq(n, i requires 0 <= i < n => seq(n, j requires 0 <= j < n =>
      (a[i][j] + tau * g[i][j]) / (1.0 + tau * d[i][j])));
    assert forall i, j :: 0 <= i < n && 0 <= j < n ==>
      (1.0 + tau * d[i][j]) * q[i][j] == a[i][j] + tau * g[i][j] by {
      forall i, j | 0 <= i < n && 0 <= j < n
        ensures (1.0 + tau * d[i][j]) * q[i][j] == a[i][j] + tau * g[i][j]
      {
        QuotientSolves(a[i][j] + tau * g[i][j], 1.0 + tau * d[i][j], q[i][j]);
      }
    }
    q
  }

  lemma QuotientSolves(a: real, c: real, q: real)
    requires c != 0.0 && q == a / c
    ensures c * q == a
  {
  }

  /**
   * The dual update `xi' = (xi + tau*g) / (1 + tau*d)`, characterised by the equation it
   * solves; a zero denominator makes the quotient not finite.
   */
  function Update(xi: Field, g: Field, d: Grid, tau: real, n: nat): (r: Result<Field>)
    requires IsFieldOf(xi, n) && IsFieldOf(g, n) && IsSquareOf(d, n)
    ensures r.Success? <==> NonZeroDenominators(d, tau, n)
    ensures r.Success? ==> IsFieldOf(r.value, n)
    ensures r.Success? ==> forall i, j :: 0 <= i < n && 0 <= j < n ==>
      (1.0 + tau * d[i][j]) * r.value.x[i][j] == xi.x[i][j] + tau * g.x[i][j] &&
      (1.0 + tau * d[i][j]) * r.value.y[i][j] == xi.y[i][j] + tau * g.y[i][j]
  {
    if NonZeroDenominators(d, tau, n) then
      Success(Field(Quotients(xi.x, g.x, d, tau, n), Quotients(xi.y, g.y, d, tau, n)))
    else
      Failure(NonFiniteValues)
  }

  /** With a non-negative step the denominator `1 + tau*d` is at least 1, so the update is defined. */
  lemma DenominatorAtLeastOne(g: Field, d: Grid, tau: real, n: nat)
    requires IsFieldOf(g, n) && IsSquareOf(d, n) && IsMagnitude(d, g, n) && tau >= 0.0
    ensures forall i, j :: 0 <= i < n && 0 <= j < n ==> 1.0 + tau * d[i][j] >= 1.0
    ensures NonZeroDenominators(d, tau, n)
  {
    forall i, j | 0 <= i < n && 0 <= j < n
      ensures 1.0 + tau * d[i][j] >= 1.0
    {
      NonNegativeProduct(tau, d[i][j]);
    }
  }

  /** The state after one step: the dual field and the reconstruction `x2`. */
  datatype Iterate = Iterate(xi: Field, x2: Grid)

  /**
   * One step of the projection loop: the dual update followed by the reconstruction
   * `x2 = mi * div(xi')`. `d` must be the magnitude of this step's direction.
   */
  function Step(xi: Field, f: Grid, mi: real, tau: real, d: Grid, n: nat): (r: Result<Iterate>)
    requires n >= 2 && IsFieldOf(xi, n) && IsSquareOf(f, n) && IsSquareOf(d, n)
    requires mi != 0.0 ==> IsMagnitude(d, DualGradient(xi, f, mi, n).value, n)
    ensures r.Success? <==> mi != 0.0 && NonZeroDenominators(d, tau, n)
    ensures r.Success? ==> IsFieldOf(r.value.xi, n) && IsSquareOf(r.value.x2, n)
    ensures r.Success? ==> Update(xi, DualGradient(xi, f, mi, n).value, d, tau, n) == Success(r.value.xi)
    ensures r.Success? ==> r.value.x2 == Scale(mi, Divergence(r.value.xi, n), n)
  {
    if mi == 0.0 then Failure(NonFiniteValues)
    else
      var u := Update(xi, DualGradient(xi, f, mi, n).value, d, tau, n);
      if u.Failure? then Failure(u.error)
      else Success(Iterate(u.value, Scale(mi, Divergence(u.value, n), n)))
  }

  /** `ds[k]` is the magnitude witness for step k of a run from `xi`. */
  predicate ValidWitnesses(xi: Field, f: Grid, mi: real, tau: real, ds: seq<Grid>, n: nat)
    requires n >= 2 && IsFieldOf(xi, n) && IsSquareOf(f, n)
    decreases |ds|
  {
    |ds| == 0 ||
    (IsSquareOf(ds[0], n) &&
     (mi != 0.0 ==> IsMagnitude(ds[0], DualGradient(xi, f, mi, n).value, n)) &&
     (Step(xi, f, mi, tau, ds[0], n).Success? ==>
        ValidWitnesses(Step(xi, f, mi, tau, ds[0], n).value.xi, f, mi, tau, ds[1..], n)))
  }

  /** `|ds|` steps of the loop body from the state `(xi, x2)`. */
  function Run(xi: Field, x2: Grid, f: Grid, mi: real, tau: real, ds: seq<Grid>, n: nat): (r: Result<Iterate>)
    requires n >= 2 && IsFieldOf(xi, n) && IsSquareOf(x2, n) && IsSquareOf(f, n)
    requires ValidWitnesses(xi, f, mi, tau, ds, n)
    ensures r.Success? ==> IsFieldOf(r.value.xi, n) && IsSquareOf(r.value.x2, n)
    ensures |ds| == 0 ==> r == Success(Iterate(xi, x2))
    ensures |ds| > 0 && mi == 0.0 ==> r == Failure(NonFiniteValues)
    decreases |ds|
  {
    if |ds| == 0 then Success(Iterate(xi, x2))
    else
      match Step(xi, f, mi, tau, ds[0], n)
      case Failure(e) => Failure(e)
      case Success(s) => Run(s.xi, s.x2, f, mi, tau, ds[1..], n)
  }

  /** The initial state of both projection loops: zero dual field, zero reconstruction. */
  function Initial(n: nat): (s: Iterate)
    ensures IsFieldOf(s.xi, n) && IsSquareOf(s.x2, n)
    ensures forall i, j :: 0 <= i < n && 0 <= j < n ==>
      s.xi.x[i][j] == 0.0 && s.xi.y[i][j] == 0.0 && s.x2[i][j] == 0.0
  {
    Iterate(ZeroField(n), Zero(n))
  }

  /** The gradient of the zero grid is the zero field. */
  lemma GradientOfZero(n: nat)
    ensures Gradient(Zero(n), n) == ZeroField(n)
  {
    var g := Gradient(Zero(n), n);
    GridExtensionality(g.x, ZeroField(n).x, n);
    GridExtensionality(g.y, ZeroField(n).y, n);
  }

  /** With `f == 0` and `xi == 0` the step direction is zero. */
  lemma DualGradientAtRest(mi: real, n: nat)
    requires n >= 2 && mi != 0.0
    ensures DualGradient(ZeroField(n), Zero(n), mi, n) == Success(ZeroField(n))
  {
    DivergenceOfZero(n);
    var m := Sub(Divergence(ZeroField(n), n), Scale(1.0 / mi, Zero(n), n), n);
    GridExtensionality(m, Zero(n), n);
    GradientOfZero(n);
  }

  /** A non-negative number whose square is zero is zero (`e` is `d` under a second name). */
  lemma ZeroSquare(d: real, e: real)
    requires d == e && d >= 0.0 && d * e == 0.0
    ensures d == 0.0
  {
    ProductZero(d, e);
  }

  /** The only magnitude of the zero field is the zero grid. */
  lemma MagnitudeOfZero(d: Grid, n: nat)
    requires IsSquareOf(d, n) && IsMagnitude(d, ZeroField(n), n)
    ensures d == Zero(n)
  {
    forall i, j | 0 <= i < n && 0 <= j < n
      ensures d[i][j] == 0.0
    {
      ZeroSquare(d[i][j], d[i][j]);
    }
    GridExtensionality(d, Zero(n), n);
  }

  /** With a zero direction and zero magnitude the update leaves the zero field unchanged. */
  lemma UpdateAtRest(tau: real, n: nat)
    ensures Update(ZeroField(n), ZeroField(n), Zero(n), tau, n) == Success(ZeroField(n))
  {
    var z, d := ZeroField(n), Zero(n);
    assert NonZeroDenominators(d, tau, n);
    var u := Update(z, z, d, tau, n).value;
    forall i, j | 0 <= i < n && 0 <= j < n
      ensures u.x[i][j] == 0.0 && u.y[i][j] == 0.0
    {
      assert 1.0 + tau * d[i][j] == 1.0;
    }
    GridExtensionality(u.x, z.x, n);
    GridExtensionality(u.y, z.y, n);
  }

  lemma ReconstructionAtRest(mi: real, n: nat)
    requires n >= 2
    ensures Scale(mi, Divergence(ZeroField(n), n), n) == Zero(n)
  {
    DivergenceOfZero(n);
    GridExtensionality(Scale(mi, Zero(n), n), Zero(n), n);
  }

  /** One step from the zero state on a zero image stays at the zero state. */
  lemma StepAtRest(mi: real, tau: real, d: Grid, n: nat)
    requires n >= 2 && mi != 0.0 && IsSquareOf(d, n)
    requires IsMagnitude(d, DualGradient(ZeroField(n), Zero(n), mi, n).value, n)
    ensures Step(ZeroField(n), Zero(n), mi, tau, d, n) == Success(Initial(n))
  {
    DualGradientAtRest(mi, n);
    MagnitudeOfZero(d, n);
    UpdateAtRest(tau, n);
    ReconstructionAtRest(mi, n);
  }

  /** Zero input is a fixed point: on a zero image the state stays zero for every number of steps. */
  lemma {:induction false} RunAtRest(mi: real, tau: real, ds: seq<Grid>, n: nat)
    requires n >= 2 && mi != 0.0
    requires ValidWitnesses(ZeroField(n), Zero(n), mi, tau, ds, n)
    ensures Run(ZeroField(n), Zero(n), Zero(n), mi, tau, ds, n) == Success(Initial(n))
    decreases |ds|
  {
    if |ds| > 0 {
      StepAtRest(mi, tau, ds[0], n);
      RunAtRest(mi, tau, ds[1..], n);
    }
  }

  /** Every cell of the dual field lies in the closed unit disc. */
  predicate Feasible(xi: Field, n: nat)
    requires IsFieldOf(xi, n)
  {
    forall i, j :: 0 <= i < n && 0 <= j < n ==> xi.x[i][j] * xi.x[i][j] + xi.y[i][j] * xi.y[i][j] <= 1.0
  }

  lemma CauchySchwarz(x: real, y: real, gx: real, gy: real)
    ensures (x * gx + y * gy) * (x * gx + y * gy) <= (x * x + y * y) * (gx * gx + gy * gy)
  {
    var w := x * gy - y * gx;
    assert (x * gx + y * gy) * (x * gx + y * gy) + w * w == (x * x + y * y) * (gx * gx + gy * gy);
    assert w * w >= 0.0;
  }

  lemma InnerAtMostMagnitude(x: real, y: real, gx: real, gy: real, d: real)
    requires x * x + y * y <= 1.0 && d >= 0.0 && d * d == gx * gx + gy * gy
    ensures x * gx + y * gy <= d
  {
    var s := x * gx + y * gy;
    CauchySchwarz(x, y, gx, gy);
    var r := x * x + y * y;
    assert r * (d * d) <= d * d by {
      assert (1.0 - r) * (d * d) >= 0.0;
    }
    SquareOrder(s, d);
  }

  lemma SquareOrder(s: real, d: real)
    requires d >= 0.0 && s * s <= d * d
    ensures s <= d
  {
    if s > d {
      PositiveProduct(s - d, s);
      NonNegativeProduct(s - d, d);
    }
  }

  lemma NumeratorBound(x: real, y: real, gx: real, gy: real, d: real, t: real)
    requires x * x + y * y <= 1.0 && d >= 0.0 && d * d == gx * gx + gy * gy && t >= 0.0
    ensures (x + t * gx) * (x + t * gx) + (y + t * gy) * (y + t * gy) <= (1.0 + t * d) * (1.0 + t * d)
  {
    InnerAtMostMagnitude(x, y, gx, gy, d);
    var s := x * gx + y * gy;
    assert (x + t * gx) * (x + t * gx) + (y + t * gy) * (y + t * gy)
      == (x * x + y * y) + 2.0 * t * s + t * t * (gx * gx + gy * gy);
    assert (1.0 + t * d) * (1.0 + t * d) == 1.0 + 2.0 * t * d + t * t * (d * d);
    assert t * s <= t * d by {
      assert t * (d - s) >= 0.0;
    }
  }

  lemma QuotientBound(c: real, ux: real, uy: real, qx: real, qy: real)
    requires c >= 1.0 && c * qx == ux && c * qy == uy && ux * ux + uy * uy <= c * c
    ensures qx * qx + qy * qy <= 1.0
  {
    var q := qx * qx + qy * qy;
    assert ux * ux + uy * uy == (c * c) * q;
    if q > 1.0 {
      PositiveProduct(c, c);
      PositiveProduct(c * c, q - 1.0);
    }
  }

  lemma CellStaysFeasible(x: real, y: real, gx: real, gy: real, d: real, t: real, qx: real, qy: real)
    requires x * x + y * y <= 1.0 && d >= 0.0 && d * d == gx * gx + gy * gy && t >= 0.0
    requires (1.0 + t * d) * qx == x + t * gx && (1.0 + t * d) * qy == y + t * gy
    ensures qx * qx + qy * qy <= 1.0
  {
    NumeratorBound(x, y, gx, gy, d, t);
    assert t * d >= 0.0;
    QuotientBound(1.0 + t * d, x + t * gx, y + t * gy, qx, qy);
  }

  /** With `tau >= 0` the dual update keeps every cell of `xi` in the unit disc. */
  lemma UpdateKeepsFeasible(xi: Field, g: Field, d: Grid, tau: real, n: nat)
    requires IsFieldOf(xi, n) && IsFieldOf(g, n) && IsSquareOf(d, n)
    requires IsMagnitude(d, g, n) && Feasible(xi, n) && tau >= 0.0
    ensures Update(xi, g, d, tau, n).Success?
    ensures Feasible(Update(xi, g, d, tau, n).value, n)
  {
    DenominatorAtLeastOne(g, d, tau, n);
    var u := Update(xi, g, d, tau, n).value;
    forall i, j | 0 <= i < n && 0 <= j < n
      ensures u.x[i][j] * u.x[i][j] + u.y[i][j] * u.y[i][j] <= 1.0
    {
      CellStaysFeasible(xi.x[i][j], xi.y[i][j], g.x[i][j], g.y[i][j], d[i][j], tau, u.x[i][j], u.y[i][j]);
    }
  }

  /**
   * Over a whole run with `tau >= 0` and `mi != 0`, every step is defined and the dual field
   * stays feasible.
   */
  lemma {:induction false} RunKeepsFeasible(xi: Field, x2: Grid, f: Grid, mi: real, tau: real, ds: seq<Grid>, n: nat)
    requires n >= 2 && IsFieldOf(xi, n) && IsSquareOf(x2, n) && IsSquareOf(f, n)
    requires ValidWitnesses(xi, f, mi, tau, ds, n)
    requires Feasible(xi, n) && tau >= 0.0 && mi != 0.0
    ensures Run(xi, x2, f, mi, tau, ds, n).Success?
    ensures Feasible(Run(xi, x2, f, mi, tau, ds, n).value.xi, n)
    decreases |ds|
  {
    if |ds| > 0 {
      UpdateKeepsFeasible(xi, DualGradient(xi, f, mi, n).value, ds[0], tau, n);
      var s := Step(xi, f, mi, tau, ds[0], n).value;
      RunKeepsFeasible(s.xi, s.x2, f, mi, tau, ds[1..], n);
    }
  }
}
