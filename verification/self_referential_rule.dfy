/**
 * The stopping rule of the variant without a reference image
 * (`gpuChambolleProjectionStopCriterion`).
 *
 * After every step the loop observes `err`, the relative change of the reconstruction,
 * and appends it to a list. It computes `gErr = |(previous err - this err) / 2|` (the
 * previous err being 0 before the first step) and the ratio `pr = gErr / err[0]`, and
 * stops as soon as `pr < tol`. There is no step cap. A ratio whose denominator `err[0]`
 * is zero is not a finite number; such a ratio never compares below `tol`.
 */
module SelfReferentialRule {
  import opened Reals

  /** The outcome of a floating-point division: a finite value, or an infinity or NaN. */
  datatype Ratio = Finite(value: real) | NotFinite

  /** `r < tol` as the comparison behaves on the ratio. */
  predicate Below(r: Ratio, tol: real)
  {
    r.Finite? && r.value < tol
  }

  /** The quotient `num / den`, not finite when `den` is zero. */
  function Divide(num: real, den: real): (r: Ratio)
    ensures r.Finite? <==> den != 0.0
    ensures r.Finite? ==> r.value * den == num
  {
    if den == 0.0 then NotFinite else Finite(num / den)
  }

  /** The loop variables: step counter, previous error, error list, last gap and last ratio. */
  datatype SelfState = SelfState(n: int, errPrev: real, errs: seq<real>, gErr: real, pr: Ratio)

  /** The state before the first step: `n = 1`, `err_n = 0`, `err = []`, `pr = 1`. */
  const Start: SelfState := SelfState(1, 0.0, [], 0.0, Finite(1.0))

  /** One loop body after the step has produced the error `e`. */
  function SelfStep(s: SelfState, e: real): (t: SelfState)
    requires |s.errs| == s.n - 1
    ensures |t.errs| == t.n - 1 && t.n == s.n + 1
    ensures t.errs == s.errs + [e] && t.errPrev == e
    ensures t.gErr >= 0.0 && 2.0 * t.gErr == Abs(s.errPrev - e)
    ensures t.pr.Finite? <==> t.errs[0] != 0.0
    ensures t.pr.Finite? ==> t.pr.value * t.errs[0] == t.gErr
  {
    var errs := s.errs + [e];
    var g := Abs((s.errPrev - errs[s.n - 1]) / 2.0);
    SelfState(s.n + 1, errs[s.n - 1], errs, g, Divide(g, errs[0]))
  }

  /** The end of a run: stopped with the returned `n` and `g_err`, or still running when the observations ran out. */
  datatype SelfResult = Stopped(n: int, gErr: real) | Running(state: SelfState)

  /**
   * The loop: step, then break when `pr < tol`. Each step consumes one observation and
   * appends it to the error list; a stop reports a later `n` and a non-negative `g_err`.
   */
  function Run(s: SelfState, obs: seq<real>, tol: real): (r: SelfResult)
    requires |s.errs| == s.n - 1
    ensures |obs| == 0 ==> r == Running(s)
    ensures r.Running? ==> r.state.n == s.n + |obs| && r.state.errs == s.errs + obs
    ensures r.Stopped? ==> s.n < r.n <= s.n + |obs| && r.gErr >= 0.0
    decreases |obs|
  {
    if |obs| == 0 then Running(s)
    else
      var t := SelfStep(s, obs[0]);
      assert t.errs + obs[1..] == s.errs + obs;
      if Below(t.pr, tol) then Stopped(t.n, t.gErr) else Run(t, obs[1..], tol)
  }

  /** The gap observed at step `k + 1` (0-based `k`), with the error before the first step taken as 0. */
  function Gap(obs: seq<real>, k: nat): (g: real)
    requires k < |obs|
    ensures g >= 0.0
  {
    Abs(((if k == 0 then 0.0 else obs[k - 1]) - obs[k]) / 2.0)
  }

  /** The ratio compared at step `k + 1`. */
  function RatioAt(obs: seq<real>, k: nat): Ratio
    requires k < |obs|
  {
    Divide(Gap(obs, k), obs[0])
  }

  /** The loop stops at step `k + 1`. */
  predicate StopsAt(obs: seq<real>, k: nat, tol: real)
    requires k < |obs|
  {
    Below(RatioAt(obs, k), tol)
  }

  /** The loop variables after the first `k` steps, as a closed form. */
  function StateAfter(obs: seq<real>, k: nat): (s: SelfState)
    requires k <= |obs|
    ensures |s.errs| == s.n - 1
  {
    if k == 0 then Start
    else SelfState(k + 1, obs[k - 1], obs[..k], Gap(obs, k - 1), RatioAt(obs, k - 1))
  }

  /** One step moves the closed form from `k` to `k + 1`. */
  lemma StepAdvances(obs: seq<real>, k: nat)
    requires k < |obs|
    ensures SelfStep(StateAfter(obs, k), obs[k]) == StateAfter(obs, k + 1)
  {
    var t := SelfStep(StateAfter(obs, k), obs[k]);
    assert obs[..k] + [obs[k]] == obs[..k + 1];
    assert t.errs[0] == obs[0];
    if k > 0 {
      assert obs[..k][0] == obs[0];
    }
  }

  /** The first step at or after `k` where the loop stops, or `|obs|` when there is none. */
  function NextStop(obs: seq<real>, k: nat, tol: real): (j: nat)
    requires k <= |obs|
    ensures k <= j <= |obs|
    ensures j < |obs| ==> StopsAt(obs, j, tol)
    ensures forall i :: k <= i < j ==> !StopsAt(obs, i, tol)
    decreases |obs| - k
  {
    if k == |obs| || StopsAt(obs, k, tol) then k else NextStop(obs, k + 1, tol)
  }

  /** What the loop returns from the state after `k` steps, by the first later stopping step. */
  function Outcome(obs: seq<real>, k: nat, tol: real): SelfResult
    requires k <= |obs|
  {
    var j := NextStop(obs, k, tol);
    if j < |obs| then Stopped(j + 2, Gap(obs, j)) else Running(StateAfter(obs, |obs|))
  }

  /** From the state after `k` steps the loop returns `Outcome(obs, k, tol)`. */
  lemma {:induction false} RunFrom(obs: seq<real>, k: nat, tol: real)
    requires k <= |obs|
    ensures Run(StateAfter(obs, k), obs[k..], tol) == Outcome(obs, k, tol)
    decreases |obs| - k
  {
    if k < |obs| {
      StepAdvances(obs, k);
      assert obs[k..][1..] == obs[k + 1..];
      if !StopsAt(obs, k, tol) {
        RunFrom(obs, k + 1, tol);
      }
    }
  }

  /**
   * From the start, the rule stops exactly at the first step whose ratio is below `tol`
   * and returns `n = j + 2` for that 0-based step `j` (one more than the steps executed)
   * with that step's gap; with no such step it never stops.
   */
  lemma SelfReferentialRun(obs: seq<real>, tol: real)
    ensures NextStop(obs, 0, tol) < |obs| ==>
      Run(Start, obs, tol) == Stopped(NextStop(obs, 0, tol) + 2, Gap(obs, NextStop(obs, 0, tol)))
    ensures NextStop(obs, 0, tol) == |obs| ==> Run(Start, obs, tol) == Running(StateAfter(obs, |obs|))
  {
    RunFrom(obs, 0, tol);
    assert obs[0..] == obs;
  }

  /** With a positive first error the first ratio is exactly 1/2. */
  lemma FirstRatioIsHalf(obs: seq<real>)
    requires |obs| > 0 && obs[0] > 0.0
    ensures RatioAt(obs, 0) == Finite(0.5)
  {
    var g := Gap(obs, 0);
    assert g == 0.5 * obs[0] by {
      assert g == Abs((0.0 - obs[0]) / 2.0);
    }
    var r := Divide(g, obs[0]);
    assert r == RatioAt(obs, 0);
    assert r.Finite? && r.value * obs[0] == g;
    Cancel(r.value, 0.5, obs[0]);
  }

  lemma Cancel(v: real, w: real, a: real)
    requires a > 0.0 && v * a == w * a
    ensures v == w
  {
  }

  /** Hence with `tol <= 1/2` the rule never stops after a single step. */
  lemma NoStopAfterOneStep(obs: seq<real>, tol: real)
    requires |obs| > 0 && obs[0] > 0.0 && tol <= 0.5
    ensures Run(Start, obs, tol) != Stopped(2, Gap(obs, 0))
    ensures Run(Start, obs, tol).Stopped? ==> Run(Start, obs, tol).n > 2
  {
    FirstRatioIsHalf(obs);
    SelfReferentialRun(obs, tol);
    assert !StopsAt(obs, 0, tol);
  }

  /** With a zero first error every ratio is not finite, so the rule never stops. */
  lemma ZeroFirstErrorNeverStops(obs: seq<real>, tol: real)
    requires |obs| > 0 && obs[0] == 0.0
    ensures Run(Start, obs, tol) == Running(StateAfter(obs, |obs|))
  {
    SelfReferentialRun(obs, tol);
  }

  /** The loop written out with mutable loop variables and a `while true` with `break`. */
  method SelfReferentialLoop(obs: seq<real>, tol: real) returns (r: SelfResult)
    ensures r == Run(Start, obs, tol)
  {
    var n, errPrev, errs, gErr, pr := 1, 0.0, [], 0.0, Finite(1.0);
    var k := 0;
    while true
      invariant 0 <= k <= |obs| && n == k + 1 && |errs| == k
      invariant Run(SelfState(n, errPrev, errs, gErr, pr), obs[k..], tol) == Run(Start, obs, tol)
      decreases |obs| - k
    {
      if k == |obs| {
        return Running(SelfState(n, errPrev, errs, gErr, pr));
      }
      assert obs[k..][1..] == obs[k + 1..];
      errs := errs + [obs[k]];
      gErr := Abs((errPrev - errs[n - 1]) / 2.0);
      errPrev := errs[n - 1];
      pr := Divide(gErr, errs[0]);
      n := n + 1;
      k := k + 1;
      if Below(pr, tol) {
        break;
      }
    }
    r := Stopped(n, gErr);
  }
}
