/**
 * The two projection routines as a whole: the dual iteration from the zero state, stopped
 * by one of the two rules, returning the reconstruction of the LAST step executed.
 *
 * The error sequences the rules observe (`rms` for the reference rule, `err` for the
 * self-referential rule) are inputs rather than computed from the reconstructions.
 * `ds[k]` is the magnitude witness of step `k + 1`. When a finite input runs out before
 * the loop would stop, the result is `OutOfInput`.
 */
module Projection {
  import opened Results
  import opened Grids
  import opened DualUpdate
  import ReferenceRule
  import SelfReferentialRule

  /** Witnesses valid for a run are valid for every prefix of it. */
  lemma {:induction false} WitnessesPrefix(xi: Field, f: Grid, mi: real, tau: real, ds: seq<Grid>, k: nat, n: nat)
    requires n >= 2 && IsFieldOf(xi, n) && IsSquareOf(f, n)
    requires ValidWitnesses(xi, f, mi, tau, ds, n) && k <= |ds|
    ensures ValidWitnesses(xi, f, mi, tau, ds[..k], n)
    decreases k
  {
    if k > 0 {
      assert ds[..k][0] == ds[0];
      assert ds[..k][1..] == ds[1..][..k - 1];
      if Step(xi, f, mi, tau, ds[0], n).Success? {
        WitnessesPrefix(Step(xi, f, mi, tau, ds[0], n).value.xi, f, mi, tau, ds[1..], k - 1, n);
      }
    }
  }

  /** The reconstruction `x2` after the first `k` steps from the zero state. */
  function ReconstructionAfter(f: Grid, mi: real, tau: real, ds: seq<Grid>, n: nat, k: nat): (r: Result<Grid>)
    requires n >= 2 && IsSquareOf(f, n) && ValidWitnesses(ZeroField(n), f, mi, tau, ds, n) && k <= |ds|
    ensures r.Success? ==> IsSquareOf(r.value, n)
    ensures k == 0 ==> r == Success(Zero(n))
    ensures k > 0 && mi == 0.0 ==> r == Failure(NonFiniteValues)
  {
    WitnessesPrefix(ZeroField(n), f, mi, tau, ds, k, n);
    var s := Run(ZeroField(n), Zero(n), f, mi, tau, ds[..k], n);
    if s.Failure? then Failure(s.error) else Success(s.value.x2)
  }

  /** What a projection routine returns: the image, the step count it reports and its error. */
  datatype Projected =
    | Projected(image: Grid, iterations: int, err: real)
    | StepFailed(error: PyError)
    | OutOfInput

  /** `chambolleProjection` (and `chambolleProjectionGPU`): `[x_best, it_min, rms_min]`. */
  function ReferenceProjection(f: Grid, mi: real, tau: real, tol: real, ds: seq<Grid>, obs: seq<real>, n: nat): (p: Projected)
    requires n >= 2 && IsSquareOf(f, n) && ValidWitnesses(ZeroField(n), f, mi, tau, ds, n)
    ensures p.Projected? ==> ReferenceRule.RunCpu(ReferenceRule.Start, obs, tol).Finished?
    ensures p.Projected? ==>
      p.iterations == ReferenceRule.RunCpu(ReferenceRule.Start, obs, tol).itMin &&
      p.err == ReferenceRule.RunCpu(ReferenceRule.Start, obs, tol).rmsMin
    ensures ReferenceRule.RunCpu(ReferenceRule.Start, obs, tol).Exhausted? ==> p == OutOfInput
  {
    ReferenceRule.ReferenceRun(obs, tol);
    match ReferenceRule.RunCpu(ReferenceRule.Start, obs, tol)
    case Exhausted(_) => OutOfInput
    case Finished(_, last, it, m) =>
      if last > |ds| then OutOfInput
      else
        match ReconstructionAfter(f, mi, tau, ds, n, last)
        case Failure(e) => StepFailed(e)
        case Success(x) => Projected(x, it, m)
  }

  /**
   * The reference routine returns the best step and error over the observations it used,
   * but the image of the last step executed: 99 steps after the best one when it
   * stagnated, the best step itself when it converged.
   */
  lemma ReferenceReturnsLastImage(f: Grid, mi: real, tau: real, tol: real, ds: seq<Grid>, obs: seq<real>, n: nat)
    requires n >= 2 && IsSquareOf(f, n) && ValidWitnesses(ZeroField(n), f, mi, tau, ds, n)
    requires ReferenceProjection(f, mi, tau, tol, ds, obs, n).Projected?
    ensures var p, r := ReferenceProjection(f, mi, tau, tol, ds, obs, n), ReferenceRule.RunCpu(ReferenceRule.Start, obs, tol);
      0 <= r.lastStep <= |ds| && r.lastStep <= |obs| &&
      ReferenceRule.IsBest(obs[..r.lastStep], p.iterations, p.err) &&
      ReconstructionAfter(f, mi, tau, ds, n, r.lastStep) == Success(p.image) &&
      (r.reason == ReferenceRule.Stagnated ==> r.lastStep == p.iterations + ReferenceRule.Window - 1) &&
      (r.reason == ReferenceRule.Converged ==> r.lastStep == p.iterations)
  {
    ReferenceRule.ReferenceRun(obs, tol);
  }

  /**
   * The reference routine with `x_best` taken at the best step `it_min`, as the name
   * `x_best` and the documented meaning of `it_min` (the number of iterations needed to
   * reach the returned image) intend. The loop runs exactly as before, so it fails where
   * the routine as written fails.
   */
  function ReferenceProjectionBest(f: Grid, mi: real, tau: real, tol: real, ds: seq<Grid>, obs: seq<real>, n: nat): (p: Projected)
    requires n >= 2 && IsSquareOf(f, n) && ValidWitnesses(ZeroField(n), f, mi, tau, ds, n)
    ensures p.Projected? ==> ReferenceRule.RunCpu(ReferenceRule.Start, obs, tol).Finished?
    ensures p.Projected? ==>
      p.iterations == ReferenceRule.RunCpu(ReferenceRule.Start, obs, tol).itMin &&
      p.err == ReferenceRule.RunCpu(ReferenceRule.Start, obs, tol).rmsMin
    ensures p.Projected? ==>
      0 <= p.iterations <= |ds| && ReconstructionAfter(f, mi, tau, ds, n, p.iterations) == Success(p.image)
    ensures ReferenceRule.RunCpu(ReferenceRule.Start, obs, tol).Exhausted? ==> p == OutOfInput
  {
    ReferenceRule.ReferenceRun(obs, tol);
    match ReferenceRule.RunCpu(ReferenceRule.Start, obs, tol)
    case Exhausted(_) => OutOfInput
    case Finished(_, last, it, m) =>
      if last > |ds| then OutOfInput
      else
        match ReconstructionAfter(f, mi, tau, ds, n, last)
        case Failure(e) => StepFailed(e)
        case Success(_) =>
          match ReconstructionAfter(f, mi, tau, ds, n, it)
          case Failure(e) => StepFailed(e)
          case Success(x) => Projected(x, it, m)
  }

  /** When the rule converged its last step is its best step, so the two routines agree. */
  lemma BestAgreesOnConvergence(f: Grid, mi: real, tau: real, tol: real, ds: seq<Grid>, obs: seq<real>, n: nat)
    requires n >= 2 && IsSquareOf(f, n) && ValidWitnesses(ZeroField(n), f, mi, tau, ds, n)
    requires ReferenceRule.RunCpu(ReferenceRule.Start, obs, tol).Finished?
    requires ReferenceRule.RunCpu(ReferenceRule.Start, obs, tol).reason == ReferenceRule.Converged
    ensures ReferenceProjectionBest(f, mi, tau, tol, ds, obs, n) == ReferenceProjection(f, mi, tau, tol, ds, obs, n)
  {
    ReferenceRule.ReferenceRun(obs, tol);
  }

  /**
   * When no error goes below 1.0 the routine as written reports `it_min = 0` but returns
   * the image after 99 steps, while the image at step 0 is the initial zero image.
   */
  lemma StagnatedImageIsNotBest(f: Grid, mi: real, tau: real, tol: real, ds: seq<Grid>, obs: seq<real>, n: nat)
    requires n >= 2 && IsSquareOf(f, n) && ValidWitnesses(ZeroField(n), f, mi, tau, ds, n)
    requires |obs| >= ReferenceRule.Window - 1 && forall j :: 0 <= j < |obs| ==> obs[j] >= 1.0
    requires |ds| >= ReferenceRule.Window - 1
    requires ReferenceProjection(f, mi, tau, tol, ds, obs, n).Projected?
    ensures ReferenceProjection(f, mi, tau, tol, ds, obs, n).iterations == 0
    ensures ReconstructionAfter(f, mi, tau, ds, n, ReferenceRule.Window - 1) ==
      Success(ReferenceProjection(f, mi, tau, tol, ds, obs, n).image)
    ensures ReferenceProjectionBest(f, mi, tau, tol, ds, obs, n) == Projected(Zero(n), 0, 1.0)
  {
    ReferenceRule.NoImprovementStagnates(obs, tol);
  }

  /** `gpuChambolleProjectionStopCriterion`: `[x2, n, g_err]`. */
  function SelfReferentialProjection(f: Grid, mi: real, tau: real, tol: real, ds: seq<Grid>, errs: seq<real>, n: nat): (p: Projected)
    requires n >= 2 && IsSquareOf(f, n) && ValidWitnesses(ZeroField(n), f, mi, tau, ds, n)
    ensures p.Projected? ==>
      SelfReferentialRule.Run(SelfReferentialRule.Start, errs, tol) == SelfReferentialRule.Stopped(p.iterations, p.err)
    ensures SelfReferentialRule.Run(SelfReferentialRule.Start, errs, tol).Running? ==> p == OutOfInput
  {
    match SelfReferentialRule.Run(SelfReferentialRule.Start, errs, tol)
    case Running(_) => OutOfInput
    case Stopped(count, g) =>
      if count < 1 || count - 1 > |ds| then OutOfInput
      else
        match ReconstructionAfter(f, mi, tau, ds, n, count - 1)
        case Failure(e) => StepFailed(e)
        case Success(x) => Projected(x, count, g)
  }

  /**
   * The self-referential routine returns the image after the step at which the ratio first
   * fell below `tol`, and reports one more than the number of steps executed.
   */
  lemma SelfReferentialReturnsLastImage(f: Grid, mi: real, tau: real, tol: real, ds: seq<Grid>, errs: seq<real>, n: nat)
    requires n >= 2 && IsSquareOf(f, n) && ValidWitnesses(ZeroField(n), f, mi, tau, ds, n)
    requires SelfReferentialProjection(f, mi, tau, tol, ds, errs, n).Projected?
    ensures var p, j := SelfReferentialProjection(f, mi, tau, tol, ds, errs, n), SelfReferentialRule.NextStop(errs, 0, tol);
      j < |errs| && p.iterations == j + 2 && p.err == SelfReferentialRule.Gap(errs, j) &&
      j + 1 <= |ds| && ReconstructionAfter(f, mi, tau, ds, n, j + 1) == Success(p.image)
  {
    SelfReferentialRule.SelfReferentialRun(errs, tol);
  }

  /** The keyword defaults that every copy of both routines declares. */
  const DefaultMi: real := 100.0
  const DefaultTau: real := 0.25
  const DefaultTol: real := 0.00001

  /** With `mi != 0` and `tau >= 0` every reconstruction exists: no step divides by zero. */
  lemma StepsSucceed(f: Grid, mi: real, tau: real, ds: seq<Grid>, n: nat, k: nat)
    requires n >= 2 && IsSquareOf(f, n) && ValidWitnesses(ZeroField(n), f, mi, tau, ds, n)
    requires mi != 0.0 && tau >= 0.0 && k <= |ds|
    ensures ReconstructionAfter(f, mi, tau, ds, n, k).Success?
  {
    WitnessesPrefix(ZeroField(n), f, mi, tau, ds, k, n);
    assert Feasible(ZeroField(n), n);
    RunKeepsFeasible(ZeroField(n), Zero(n), f, mi, tau, ds[..k], n);
  }

  /** With `mi != 0` and `tau >= 0` the reference routine never fails: it projects or runs out of observations. */
  lemma ReferenceNeverFails(f: Grid, mi: real, tau: real, tol: real, ds: seq<Grid>, obs: seq<real>, n: nat)
    requires n >= 2 && IsSquareOf(f, n) && ValidWitnesses(ZeroField(n), f, mi, tau, ds, n)
    requires mi != 0.0 && tau >= 0.0
    ensures !ReferenceProjection(f, mi, tau, tol, ds, obs, n).StepFailed?
  {
    ReferenceRule.ReferenceRun(obs, tol);
    var r := ReferenceRule.RunCpu(ReferenceRule.Start, obs, tol);
    if r.Finished? && r.lastStep <= |ds| {
      StepsSucceed(f, mi, tau, ds, n, r.lastStep);
    }
  }

  /** With `mi != 0` and `tau >= 0` the self-referential routine never fails: it projects or runs out of observations. */
  lemma SelfReferentialNeverFails(f: Grid, mi: real, tau: real, tol: real, ds: seq<Grid>, errs: seq<real>, n: nat)
    requires n >= 2 && IsSquareOf(f, n) && ValidWitnesses(ZeroField(n), f, mi, tau, ds, n)
    requires mi != 0.0 && tau >= 0.0
    ensures !SelfReferentialProjection(f, mi, tau, tol, ds, errs, n).StepFailed?
  {
    var r := SelfReferentialRule.Run(SelfReferentialRule.Start, errs, tol);
    if r.Running? || r.n < 1 || r.n - 1 > |ds| {
      assert SelfReferentialProjection(f, mi, tau, tol, ds, errs, n) == OutOfInput;
    } else {
      StepsSucceed(f, mi, tau, ds, n, r.n - 1);
    }
  }

  /** Called with their defaults, neither routine fails. */
  lemma DefaultsNeverFail(f: Grid, ds: seq<Grid>, obs: seq<real>, errs: seq<real>, n: nat)
    requires n >= 2 && IsSquareOf(f, n) && ValidWitnesses(ZeroField(n), f, DefaultMi, DefaultTau, ds, n)
    ensures !ReferenceProjection(f, DefaultMi, DefaultTau, DefaultTol, ds, obs, n).StepFailed?
    ensures !SelfReferentialProjection(f, DefaultMi, DefaultTau, DefaultTol, ds, errs, n).StepFailed?
  {
    ReferenceNeverFails(f, DefaultMi, DefaultTau, DefaultTol, ds, obs, n);
    SelfReferentialNeverFails(f, DefaultMi, DefaultTau, DefaultTol, ds, errs, n);
  }

  /**
   * With its default `tol` and a positive first error, the self-referential routine
   * reports more than two iterations whenever it projects.
   */
  lemma DefaultSelfReferentialStopsLate(f: Grid, ds: seq<Grid>, errs: seq<real>, n: nat)
    requires n >= 2 && IsSquareOf(f, n) && ValidWitnesses(ZeroField(n), f, DefaultMi, DefaultTau, ds, n)
    requires |errs| > 0 && errs[0] > 0.0
    ensures SelfReferentialProjection(f, DefaultMi, DefaultTau, DefaultTol, ds, errs, n).Projected? ==>
      SelfReferentialProjection(f, DefaultMi, DefaultTau, DefaultTol, ds, errs, n).iterations > 2
  {
    SelfReferentialRule.NoStopAfterOneStep(errs, DefaultTol);
  }

  /** On an all-zero image with `mi != 0` every reconstruction is zero, so the returned image is zero. */
  lemma ZeroImageProjectsToZero(mi: real, tau: real, tol: real, ds: seq<Grid>, obs: seq<real>, n: nat)
    requires n >= 2 && mi != 0.0 && ValidWitnesses(ZeroField(n), Zero(n), mi, tau, ds, n)
    ensures ReferenceProjection(Zero(n), mi, tau, tol, ds, obs, n).Projected? ||
      ReferenceProjection(Zero(n), mi, tau, tol, ds, obs, n).OutOfInput?
    ensures ReferenceProjection(Zero(n), mi, tau, tol, ds, obs, n).Projected? ==>
      ReferenceProjection(Zero(n), mi, tau, tol, ds, obs, n).image == Zero(n)
  {
    ReferenceRule.ReferenceRun(obs, tol);
    var r := ReferenceRule.RunCpu(ReferenceRule.Start, obs, tol);
    if r.Finished? && r.lastStep <= |ds| {
      WitnessesPrefix(ZeroField(n), Zero(n), mi, tau, ds, r.lastStep, n);
      RunAtRest(mi, tau, ds[..r.lastStep], n);
    }
  }
}
