/**
 * The two copies of the routine that fail on every call, as written, next to their
 * corrected forms.
 *
 * The root `chambolleProjection.py` returns `arr_sum(fx, fy)` from `divergence2D`, but
 * nothing in that module defines or imports `arr_sum`, so the lookup raises a
 * `NameError`, and the projection loop, whose first step always runs, fails with it.
 * The CPU `chambolleProjectionStopCriterion` in `src/chambolleProjection.py` calls
 * `np.cuda.Stream.null.synchronize()` before its loop; numpy has no `cuda` attribute,
 * so it raises an `AttributeError`.
 */
module BrokenCopies {
  import opened Results
  import opened Grids
  import opened Operators
  import Adjoint
  import DualUpdate
  import ReferenceRule
  import SelfReferentialRule
  import Projection

  /** The names the root `chambolleProjection.py` binds at module level (imports and definitions). */
  const RootModuleNames: set<string> :=
    {"jit", "time", "plt", "np", "gradient2D", "divergence2D", "chambolleProjection"}

  /** The globals the root `divergence2D` reads: `np` for the shifted copies and `arr_sum` for the sum. */
  const DivergenceGlobals: set<string> := {"np", "arr_sum"}

  /** Of the globals the root divergence reads, `arr_sum` alone is not bound in its module. */
  lemma OnlyArrSumUnbound()
    ensures DivergenceGlobals - RootModuleNames == {"arr_sum"}
  {
  }

  /**
   * The attributes of the numpy module among the names the projection code reads from
   * `np`: all of them except `cuda`, which belongs to CuPy.
   */
  const NumpyAttributes: set<string> :=
    {"array", "zeros", "sqrt", "power", "tile", "divide", "var", "linalg", "abs", "concatenate"}

  /** The attributes the CPU `chambolleProjectionStopCriterion` and its operators read from `np`. */
  const StopCriterionAttributes: set<string> :=
    {"array", "zeros", "cuda", "sqrt", "power", "tile", "divide", "linalg", "abs", "concatenate"}

  /** Of the attributes the CPU stop-criterion routine reads, `cuda` alone is missing from numpy. */
  lemma OnlyCudaMissing()
    ensures StopCriterionAttributes - NumpyAttributes == {"cuda"}
  {
  }

  /**
   * The root `divergence2D` as written: the row and column parts are built exactly as in
   * the other copies, then summed through the global `arr_sum`, taken to be the
   * elementwise sum when it is bound.
   */
  function DivergenceAsWritten(p: Field, n: nat, names: set<string>): (r: Result<Grid>)
    requires n >= 2 && IsFieldOf(p, n)
    ensures "arr_sum" in names ==> r == Success(Divergence(p, n))
    ensures "arr_sum" !in names ==> r == Failure(NameError("arr_sum"))
  {
    var fx := ShiftedRowsPart(p.x, n);
    var fy := ShiftedColumnsPart(p.y, n);
    if "arr_sum" !in names then Failure(NameError("arr_sum"))
    else Success(Add(fx, fy, n))
  }

  /** In its own module `arr_sum` is unbound, so the root divergence fails on every field. */
  lemma DivergenceAsWrittenFails(p: Field, n: nat)
    requires n >= 2 && IsFieldOf(p, n)
    ensures DivergenceAsWritten(p, n, RootModuleNames) == Failure(NameError("arr_sum"))
  {
    assert "arr_sum" !in RootModuleNames;
  }

  /** The evident intent: `fx + fy`, as `src/chambolleProjection.py` and both GPU copies return. */
  function DivergenceCorrected(p: Field, n: nat): (d: Grid)
    requires n >= 2 && IsFieldOf(p, n)
    ensures IsSquareOf(d, n)
    ensures d == Divergence(p, n)
    ensures Success(d) == DivergenceAsWritten(p, n, RootModuleNames + {"arr_sum"})
  {
    Add(ShiftedRowsPart(p.x, n), ShiftedColumnsPart(p.y, n), n)
  }

  /** The corrected root divergence is the negative adjoint of the gradient. */
  lemma CorrectedDivergenceAdjoint(a: Grid, p: Field, n: nat)
    requires n >= 2 && IsSquareOf(a, n) && IsFieldOf(p, n)
    ensures Dot(a, DivergenceCorrected(p, n), n) ==
      -(Dot(Gradient(a, n).x, p.x, n) + Dot(Gradient(a, n).y, p.y, n))
  {
    Adjoint.GradientDivergenceAdjoint(a, p, n);
  }

  /**
   * The root `chambolleProjection` as written, in a module binding `names`: its loop guard
   * holds at the start, so the first step runs and evaluates `divergence2D(xi)` before
   * anything else. `iterations` is never read.
   */
  function ProjectionAsWritten(f: Grid, iterations: int, mi: real, tau: real, tol: real,
                               ds: seq<Grid>, obs: seq<real>, n: nat, names: set<string>): (p: Projection.Projected)
    requires n >= 2 && IsSquareOf(f, n) && DualUpdate.ValidWitnesses(ZeroField(n), f, mi, tau, ds, n)
    ensures "arr_sum" !in names ==> p == Projection.StepFailed(NameError("arr_sum"))
    ensures "arr_sum" in names ==> p == Projection.ReferenceProjection(f, mi, tau, tol, ds, obs, n)
  {
    assert ReferenceRule.Start.n - ReferenceRule.Start.itMin < ReferenceRule.Window;
    match DivergenceAsWritten(ZeroField(n), n, names)
    case Failure(e) => Projection.StepFailed(e)
    case Success(_) => Projection.ReferenceProjection(f, mi, tau, tol, ds, obs, n)
  }

  /** The root projection fails with the `NameError` on every input. */
  lemma ProjectionAsWrittenFails(f: Grid, iterations: int, mi: real, tau: real, tol: real,
                                 ds: seq<Grid>, obs: seq<real>, n: nat)
    requires n >= 2 && IsSquareOf(f, n) && DualUpdate.ValidWitnesses(ZeroField(n), f, mi, tau, ds, n)
    ensures ProjectionAsWritten(f, iterations, mi, tau, tol, ds, obs, n, RootModuleNames) ==
      Projection.StepFailed(NameError("arr_sum"))
  {
    assert "arr_sum" !in RootModuleNames;
  }

  /**
   * The root projection with its divergence corrected, which is also what the root
   * `chambolleProjectionGPU` computes: the reference routine, with `iterations` unread.
   */
  function RootProjection(f: Grid, iterations: int, mi: real, tau: real, tol: real,
                          ds: seq<Grid>, obs: seq<real>, n: nat): (p: Projection.Projected)
    requires n >= 2 && IsSquareOf(f, n) && DualUpdate.ValidWitnesses(ZeroField(n), f, mi, tau, ds, n)
    ensures p.Projected? ==> ReferenceRule.RunCpu(ReferenceRule.Start, obs, tol).Finished?
    ensures p.Projected? ==>
      p.iterations == ReferenceRule.RunCpu(ReferenceRule.Start, obs, tol).itMin &&
      p.err == ReferenceRule.RunCpu(ReferenceRule.Start, obs, tol).rmsMin
    ensures p == ProjectionAsWritten(f, iterations, mi, tau, tol, ds, obs, n, RootModuleNames + {"arr_sum"})
  {
    Projection.ReferenceProjection(f, mi, tau, tol, ds, obs, n)
  }

  /** `iterations` does not influence the result: stopping depends only on the guard and the break. */
  lemma IterationsUnused(f: Grid, i1: int, i2: int, mi: real, tau: real, tol: real,
                         ds: seq<Grid>, obs: seq<real>, n: nat)
    requires n >= 2 && IsSquareOf(f, n) && DualUpdate.ValidWitnesses(ZeroField(n), f, mi, tau, ds, n)
    ensures RootProjection(f, i1, mi, tau, tol, ds, obs, n) == RootProjection(f, i2, mi, tau, tol, ds, obs, n)
    ensures ProjectionAsWritten(f, i1, mi, tau, tol, ds, obs, n, RootModuleNames) ==
      ProjectionAsWritten(f, i2, mi, tau, tol, ds, obs, n, RootModuleNames)
  {
  }

  /**
   * The CPU `chambolleProjectionStopCriterion` as written, against a numpy providing
   * `attrs`: `np.cuda` is looked up before the loop, and the loop is otherwise the
   * self-referential routine. When the lookup succeeds it reports `n = j + 2` and the gap
   * at the first step `j` whose ratio falls below `tol`, with the image after `j + 1`
   * steps; with no such step the observations run out; with `mi != 0` and `tau >= 0` no
   * step fails.
   */
  function StopCriterionCpuAsWritten(f: Grid, mi: real, tau: real, tol: real,
                                     ds: seq<Grid>, errs: seq<real>, n: nat, attrs: set<string>): (p: Projection.Projected)
    requires n >= 2 && IsSquareOf(f, n) && DualUpdate.ValidWitnesses(ZeroField(n), f, mi, tau, ds, n)
    ensures "cuda" !in attrs ==> p == Projection.StepFailed(AttributeError("numpy", "cuda"))
    ensures "cuda" in attrs ==> p == Projection.SelfReferentialProjection(f, mi, tau, tol, ds, errs, n)
    ensures p.Projected? ==>
      var j := SelfReferentialRule.NextStop(errs, 0, tol);
      j < |errs| && p.iterations == j + 2 && p.err == SelfReferentialRule.Gap(errs, j) &&
      j + 1 <= |ds| && Projection.ReconstructionAfter(f, mi, tau, ds, n, j + 1) == Success(p.image)
    ensures "cuda" in attrs && SelfReferentialRule.NextStop(errs, 0, tol) == |errs| ==> p == Projection.OutOfInput
    ensures "cuda" in attrs && mi != 0.0 && tau >= 0.0 ==> !p.StepFailed?
  {
    if "cuda" !in attrs then Projection.StepFailed(AttributeError("numpy", "cuda"))
    else
      var p := Projection.SelfReferentialProjection(f, mi, tau, tol, ds, errs, n);
      SelfReferentialRule.SelfReferentialRun(errs, tol);
      assert mi != 0.0 && tau >= 0.0 ==> !p.StepFailed? by {
        if mi != 0.0 && tau >= 0.0 {
          Projection.SelfReferentialNeverFails(f, mi, tau, tol, ds, errs, n);
        }
      }
      if p.Projected? then Projection.SelfReferentialReturnsLastImage(f, mi, tau, tol, ds, errs, n); p
      else p
  }

  /** It fails with the `AttributeError` on every input. */
  lemma StopCriterionCpuFails(f: Grid, mi: real, tau: real, tol: real, ds: seq<Grid>, errs: seq<real>, n: nat)
    requires n >= 2 && IsSquareOf(f, n) && DualUpdate.ValidWitnesses(ZeroField(n), f, mi, tau, ds, n)
    ensures StopCriterionCpuAsWritten(f, mi, tau, tol, ds, errs, n, NumpyAttributes) ==
      Projection.StepFailed(AttributeError("numpy", "cuda"))
  {
    assert "cuda" !in NumpyAttributes;
  }
}
