/**
 * `generateSphericalObject`: the quadratic phase surface `f*((X-x0)^2 + (Y-y0)^2) + h`
 * evaluated on meshgrids `X` and `Y` of one shape.
 */
module SphericalObject {
  import opened Grids
  import opened Reals

  /** The defaults `x0 = y0 = 0`, `f = 1`, `h = 0`. */
  const DefaultCentreX: real := 0.0
  const DefaultCentreY: real := 0.0
  const DefaultCurvature: real := 1.0
  const DefaultHeight: real := 0.0

  /** The squared distance of `(x, y)` from the centre. */
  function SquaredDistance(x: real, y: real, x0: real, y0: real): (d: real)
    ensures d >= 0.0
  {
    (x - x0) * (x - x0) + (y - y0) * (y - y0)
  }

  /** The surface at one point. */
  function Surface(x: real, y: real, x0: real, y0: real, f: real, h: real): real
  {
    f * SquaredDistance(x, y, x0, y0) + h
  }

  /** `xs` and `ys` are grids of one shape. */
  predicate SameShape(xs: Grid, ys: Grid)
  {
    |xs| == |ys| && forall i :: 0 <= i < |xs| ==> |xs[i]| == |ys[i]|
  }

  /** The surface on the meshgrids, cell by cell. */
  function Generate(xs: Grid, ys: Grid, x0: real, y0: real, f: real, h: real): (r: Grid)
    requires SameShape(xs, ys)
    ensures SameShape(r, xs)
    ensures forall i, j :: 0 <= i < |xs| && 0 <= j < |xs[i]| ==>
      r[i][j] == Surface(xs[i][j], ys[i][j], x0, y0, f, h)
  {
    seq(|xs|, i requires 0 <= i < |xs| =>
      seq(|xs[i]|, j requires 0 <= j < |xs[i]| => Surface(xs[i][j], ys[i][j], x0, y0, f, h)))
  }

  /** A real whose square is zero is zero (`b` is `a` under a second name). */
  lemma SquareZero(a: real, b: real)
    requires a == b && a * b == 0.0
    ensures a == 0.0
  {
    ProductZero(a, b);
  }

  /** The squared distance is zero exactly at the centre. */
  lemma DistanceZeroIffCentre(x: real, y: real, x0: real, y0: real)
    ensures SquaredDistance(x, y, x0, y0) == 0.0 <==> x == x0 && y == y0
  {
    var dx, dy := x - x0, y - y0;
    if SquaredDistance(x, y, x0, y0) == 0.0 {
      assert dx * dx >= 0.0 && dy * dy >= 0.0;
      SquareZero(dx, dx);
      SquareZero(dy, dy);
    }
  }

  /** The value at the centre is the height `h`. */
  lemma CentreIsHeight(x0: real, y0: real, f: real, h: real)
    ensures Surface(x0, y0, x0, y0, f, h) == h
  {
  }

  lemma ProductSign(f: real, d: real)
    requires d >= 0.0
    ensures f >= 0.0 ==> f * d >= 0.0
    ensures f <= 0.0 ==> f * d <= 0.0
  {
  }

  /** An upward surface (`f >= 0`) never goes below `h`; a downward one never above. */
  lemma HeightBounds(x: real, y: real, x0: real, y0: real, f: real, h: real)
    ensures f >= 0.0 ==> Surface(x, y, x0, y0, f, h) >= h
    ensures f <= 0.0 ==> Surface(x, y, x0, y0, f, h) <= h
  {
    ProductSign(f, SquaredDistance(x, y, x0, y0));
  }

  /** The surface touches the height `h` exactly at the centre, unless it is flat. */
  lemma HeightOnlyAtCentre(x: real, y: real, x0: real, y0: real, f: real, h: real)
    ensures Surface(x, y, x0, y0, f, h) == h <==> f == 0.0 || (x == x0 && y == y0)
  {
    DistanceZeroIffCentre(x, y, x0, y0);
    var d := SquaredDistance(x, y, x0, y0);
    if f != 0.0 && d != 0.0 {
      assert f * d != 0.0;
    }
  }

  /** Away from a flat surface, the value determines the squared distance from the centre. */
  lemma DistanceFromValue(x: real, y: real, x0: real, y0: real, f: real, h: real)
    requires f != 0.0
    ensures (Surface(x, y, x0, y0, f, h) - h) / f == SquaredDistance(x, y, x0, y0)
  {
  }

  /** The surface is symmetric under reflection through the centre in either axis. */
  lemma ReflectionSymmetric(x: real, y: real, x0: real, y0: real, f: real, h: real)
    ensures Surface(2.0 * x0 - x, y, x0, y0, f, h) == Surface(x, y, x0, y0, f, h)
    ensures Surface(x, 2.0 * y0 - y, x0, y0, f, h) == Surface(x, y, x0, y0, f, h)
  {
    assert (2.0 * x0 - x - x0) * (2.0 * x0 - x - x0) == (x - x0) * (x - x0);
    assert (2.0 * y0 - y - y0) * (2.0 * y0 - y - y0) == (y - y0) * (y - y0);
  }

  /** With the defaults the surface is `X^2 + Y^2`. */
  lemma DefaultsGiveParaboloid(xs: Grid, ys: Grid)
    requires SameShape(xs, ys)
    ensures forall i, j :: 0 <= i < |xs| && 0 <= j < |xs[i]| ==>
      Generate(xs, ys, DefaultCentreX, DefaultCentreY, DefaultCurvature, DefaultHeight)[i][j] ==
        xs[i][j] * xs[i][j] + ys[i][j] * ys[i][j]
  {
  }

  /** On the whole grid, an upward surface stays at or above `h` and a downward one at or below. */
  lemma GridHeightBounds(xs: Grid, ys: Grid, x0: real, y0: real, f: real, h: real)
    requires SameShape(xs, ys)
    ensures forall i, j :: 0 <= i < |xs| && 0 <= j < |xs[i]| ==>
      (f >= 0.0 ==> Generate(xs, ys, x0, y0, f, h)[i][j] >= h) &&
      (f <= 0.0 ==> Generate(xs, ys, x0, y0, f, h)[i][j] <= h)
  {
    var r := Generate(xs, ys, x0, y0, f, h);
    forall i, j | 0 <= i < |xs| && 0 <= j < |xs[i]|
      ensures (f >= 0.0 ==> r[i][j] >= h) && (f <= 0.0 ==> r[i][j] <= h)
    {
      HeightBounds(xs[i][j], ys[i][j], x0, y0, f, h);
    }
  }
}
