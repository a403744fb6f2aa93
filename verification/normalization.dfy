/**
 * `normalizeImage`: the affine rescale `(I * (F / M) + F) / 2` with `M = max|I|`, which
 * maps `[-M, M]` onto `[0, F]` (default `F = 255.0`). The image is given by its cells
 * in row-major order; the formula treats every cell alike.
 */
module Normalization {
  import opened Results
  import opened Reals

  /** The default `normFactor`. */
  const DefaultFactor: real := 255.0

  /** `np.max(np.abs(I))` of a non-empty image. */
  function MaxAbs(cells: seq<real>): (m: real)
    requires |cells| > 0
    ensures m >= 0.0
    ensures forall i :: 0 <= i < |cells| ==> Abs(cells[i]) <= m
    ensures exists i :: 0 <= i < |cells| && Abs(cells[i]) == m
  {
    if |cells| == 1 then Abs(cells[0])
    else
      var rest := MaxAbs(cells[..|cells| - 1]);
      var last := Abs(cells[|cells| - 1]);
      if last > rest then last else rest
  }

  /** The cell formula, for `m != 0`. */
  function Rescale(v: real, m: real, factor: real): real
    requires m != 0.0
  {
    (v * (factor / m) + factor) / 2.0
  }

  /** The message numpy gives for the maximum of an empty array. */
  const EmptyMaximum: string := "zero-size array to reduction operation maximum which has no identity"

  /** Every cell is rescaled by the one maximum `m`. */
  predicate RescaledBy(out: seq<real>, cells: seq<real>, m: real, factor: real)
    requires m != 0.0
  {
    |out| == |cells| && forall i :: 0 <= i < |cells| ==> out[i] == Rescale(cells[i], m, factor)
  }

  /**
   * The compiled `normalizeImage`: an empty image has no maximum, and an all-zero image
   * divides by zero, which the compiled code raises as an error.
   */
  function Normalize(cells: seq<real>, factor: real): (r: Result<seq<real>>)
    ensures r.Failure? <==> |cells| == 0 || forall i :: 0 <= i < |cells| ==> cells[i] == 0.0
    ensures |cells| == 0 ==> r == Failure(ValueError(EmptyMaximum))
    ensures |cells| > 0 && MaxAbs(cells) == 0.0 ==> r == Failure(ZeroDivisionError)
    ensures r.Success? ==> MaxAbs(cells) > 0.0 && RescaledBy(r.value, cells, MaxAbs(cells), factor)
  {
    if |cells| == 0 then Failure(ValueError(EmptyMaximum))
    else
      var m := MaxAbs(cells);
      if m == 0.0 then
        assert forall i :: 0 <= i < |cells| ==> cells[i] == 0.0 by {
          forall i | 0 <= i < |cells| ensures cells[i] == 0.0 { assert Abs(cells[i]) <= m; }
        }
        Failure(ZeroDivisionError)
      else
        assert exists i :: 0 <= i < |cells| && cells[i] != 0.0;
        Success(seq(|cells|, i requires 0 <= i < |cells| => Rescale(cells[i], m, factor)))
  }

  /**
   * The uncompiled copy: the same formula, but numpy's float division by a zero maximum
   * gives infinities and NaNs instead of an error.
   */
  function NormalizeUncompiled(cells: seq<real>, factor: real): (r: Result<seq<real>>)
    ensures |cells| == 0 ==> r == Failure(ValueError(EmptyMaximum))
    ensures |cells| > 0 && MaxAbs(cells) == 0.0 ==> r == Failure(NonFiniteValues)
    ensures r.Success? ==> MaxAbs(cells) > 0.0 && RescaledBy(r.value, cells, MaxAbs(cells), factor)
  {
    if |cells| == 0 then Failure(ValueError(EmptyMaximum))
    else
      var m := MaxAbs(cells);
      if m == 0.0 then Failure(NonFiniteValues)
      else Success(seq(|cells|, i requires 0 <= i < |cells| => Rescale(cells[i], m, factor)))
  }

  /** The two copies agree on every image except the all-zero one, where only the error differs. */
  lemma CopiesAgree(cells: seq<real>, factor: real)
    ensures Normalize(cells, factor).Success? <==> NormalizeUncompiled(cells, factor).Success?
    ensures Normalize(cells, factor).Success? ==> Normalize(cells, factor) == NormalizeUncompiled(cells, factor)
  {
  }

  lemma ScaledMonotone(a: real, b: real, q: real)
    requires a <= b && q >= 0.0
    ensures a * q <= b * q
  {
  }

  lemma ScaledStrict(a: real, b: real, q: real)
    requires a < b && q > 0.0
    ensures a * q < b * q
  {
  }

  lemma QuotientTimesDivisor(f: real, m: real)
    requires m != 0.0
    ensures (f / m) * m == f
  {
  }

  /** A cell within `[-m, m]` is rescaled into `[0, F]`. */
  lemma RescaleInRange(v: real, m: real, factor: real)
    requires m > 0.0 && factor >= 0.0 && Abs(v) <= m
    ensures 0.0 <= Rescale(v, m, factor) <= factor
  {
    var q := factor / m;
    QuotientTimesDivisor(factor, m);
    ScaledMonotone(v, m, q);
    ScaledMonotone(-m, v, q);
    assert (-m) * q == -(q * m);
  }

  /** With `F > 0` the rescale is strictly increasing. */
  lemma RescaleOrder(a: real, b: real, m: real, factor: real)
    requires m > 0.0 && factor > 0.0
    ensures a <= b <==> Rescale(a, m, factor) <= Rescale(b, m, factor)
  {
    var q := factor / m;
    assert q > 0.0;
    if a <= b {
      ScaledMonotone(a, b, q);
    } else {
      ScaledStrict(b, a, q);
    }
  }

  /** The rescale sends 0 to `F/2`, `m` to `F` and `-m` to 0. */
  lemma RescaleLandmarks(m: real, factor: real)
    requires m != 0.0
    ensures Rescale(0.0, m, factor) == factor / 2.0
    ensures Rescale(m, m, factor) == factor
    ensures Rescale(-m, m, factor) == 0.0
  {
    QuotientTimesDivisor(factor, m);
    assert m * (factor / m) == factor;
    assert (-m) * (factor / m) == -factor;
  }

  lemma LandmarksAt(v: real, y: real, m: real, factor: real)
    requires m != 0.0 && y == Rescale(v, m, factor)
    ensures v == 0.0 ==> y == factor / 2.0
    ensures v == m ==> y == factor
    ensures v == -m ==> y == 0.0
  {
    RescaleLandmarks(m, factor);
  }

  /** The inverse rescale `(2y - F) * M / F`. */
  function Restore(y: real, m: real, factor: real): real
    requires factor != 0.0
  {
    (2.0 * y - factor) * m / factor
  }

  /** With `F != 0`, restoring a rescaled cell gives the cell back. */
  lemma RestoreRescale(v: real, m: real, factor: real)
    requires m != 0.0 && factor != 0.0
    ensures Restore(Rescale(v, m, factor), m, factor) == v
  {
    var q := factor / m;
    QuotientTimesDivisor(factor, m);
    assert 2.0 * Rescale(v, m, factor) - factor == v * q;
    assert v * q * m == v * factor;
  }

  /** With `F >= 0` every output lies in `[0, F]`. */
  lemma InRange(cells: seq<real>, factor: real)
    requires factor >= 0.0 && Normalize(cells, factor).Success?
    ensures forall i :: 0 <= i < |cells| ==> 0.0 <= Normalize(cells, factor).value[i] <= factor
  {
    var m, out := MaxAbs(cells), Normalize(cells, factor).value;
    forall i | 0 <= i < |cells|
      ensures 0.0 <= out[i] <= factor
    {
      RescaleInRange(cells[i], m, factor);
    }
  }

  /**
   * With the default `normFactor` every image that is neither empty nor all zero
   * normalises, into the 8-bit range `[0, 255]`.
   */
  lemma DefaultInRange(cells: seq<real>)
    requires |cells| > 0 && exists i :: 0 <= i < |cells| && cells[i] != 0.0
    ensures Normalize(cells, DefaultFactor).Success?
    ensures forall i :: 0 <= i < |cells| ==> 0.0 <= Normalize(cells, DefaultFactor).value[i] <= 255.0
  {
    InRange(cells, DefaultFactor);
  }

  /** With `F > 0` the cells keep their order, in both directions. */
  lemma PreservesOrder(cells: seq<real>, factor: real, i: nat, j: nat)
    requires factor > 0.0 && Normalize(cells, factor).Success?
    requires i < |cells| && j < |cells|
    ensures cells[i] <= cells[j] <==> Normalize(cells, factor).value[i] <= Normalize(cells, factor).value[j]
  {
    RescaleOrder(cells[i], cells[j], MaxAbs(cells), factor);
  }

  /** A zero cell maps to `F/2`; a cell at `M` maps to `F` and a cell at `-M` to 0. */
  lemma Landmarks(cells: seq<real>, factor: real, i: nat)
    requires Normalize(cells, factor).Success? && i < |cells|
    ensures cells[i] == 0.0 ==> Normalize(cells, factor).value[i] == factor / 2.0
    ensures cells[i] == MaxAbs(cells) ==> Normalize(cells, factor).value[i] == factor
    ensures cells[i] == -MaxAbs(cells) ==> Normalize(cells, factor).value[i] == 0.0
  {
    var m, out := MaxAbs(cells), Normalize(cells, factor).value;
    LandmarksAt(cells[i], out[i], m, factor);
  }

  /** With `F != 0` the rescale is invertible: restoring each output gives the input back. */
  lemma RestoreRoundTrip(cells: seq<real>, factor: real, i: nat)
    requires factor != 0.0 && Normalize(cells, factor).Success? && i < |cells|
    ensures Restore(Normalize(cells, factor).value[i], MaxAbs(cells), factor) == cells[i]
  {
    RestoreRescale(cells[i], MaxAbs(cells), factor);
  }
}
