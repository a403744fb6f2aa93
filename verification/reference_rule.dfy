/**
 * The stopping rule of the reference-image variant of the projection (`chambolleProjection`
 * and `chambolleProjectionGPU`).
 *
 * After every step the loop observes `rms`, the error of the reconstruction against the
 * reference image. It keeps the best error `rmsMin` (initially 1.0) and the step `itMin`
 * that reached it, and a window of the last 100 values `rmsMin` had before each step.
 * It stops on a new best whose improvement is below `tol` while the window has moved
 * by less than `10*tol` (convergence), or once 100 steps have passed without a new best
 * (stagnation). The observed errors are an input sequence: `obs[k]` is the error after
 * step `k + 1`.
 */
module ReferenceRule {

  /** The number of entries the window keeps, and the patience of the stagnation guard. */
  const Window: nat := 100

  /** The loop variables: step counter, best step, best error and the window. */
  datatype RefState = RefState(n: int, itMin: int, rmsMin: real, window: seq<real>)

  /** The state before the first step. */
  const Start: RefState := RefState(1, 0, 1.0, [])

  /** Appends `v`, first dropping the oldest entry when the window is full. */
  function Push(w: seq<real>, v: real): seq<real>
  {
    if |w| < Window then w + [v] else w[1..] + [v]
  }

  /**
   * The window is a queue of the newest entries: a push keeps the newest entries of
   * `w + [v]` in order, drops nothing while there is room, drops exactly one entry when
   * the window is full, and never holds more than `Window` entries when `w` did not.
   */
  lemma PushKeepsNewest(w: seq<real>, v: real)
    ensures 0 < |Push(w, v)| <= |w| + 1
    ensures Push(w, v) == (w + [v])[|w| + 1 - |Push(w, v)|..]
    ensures |w| < Window ==> |Push(w, v)| == |w| + 1
    ensures |w| >= Window ==> |Push(w, v)| == |w|
    ensures |w| <= Window ==> |Push(w, v)| <= Window
  {
  }

  /** The smaller of two errors. */
  function Min(a: real, b: real): (m: real)
    ensures m <= a && m <= b && (m == a || m == b)
  {
    if b < a then b else a
  }

  /** The best error after observing `c`, starting from `m`. */
  function MinOf(m: real, c: seq<real>): (r: real)
    ensures r <= m
    ensures forall j :: 0 <= j < |c| ==> r <= c[j]
    ensures r == m || exists j :: 0 <= j < |c| && r == c[j]
  {
    if |c| == 0 then m else Min(MinOf(m, c[..|c| - 1]), c[|c| - 1])
  }

  /**
   * `it` and `m` are the loop's best step and best error after observing `c`: `m` is the
   * least of 1.0 and the observations, and `it` is the first step that reached it, or 0
   * when no observation went below 1.0.
   */
  predicate IsBest(c: seq<real>, it: int, m: real)
  {
    0 <= it <= |c| && m <= 1.0 &&
    (forall j :: 0 <= j < |c| ==> m <= c[j]) &&
    (it == 0 ==> m == 1.0) &&
    (it > 0 ==> c[it - 1] == m && m < 1.0 && forall j :: 0 <= j < it - 1 ==> c[j] > m)
  }

  /** The window after observing `c`: the best error before each of the last (at most 100) steps. */
  predicate IsWindowOf(w: seq<real>, c: seq<real>)
  {
    |w| == (if |c| < Window then |c| else Window) &&
    forall i :: 0 <= i < |w| ==> WindowCell(w, c, i)
  }

  /** Entry `i` of the window is the best error before the step it stands for. */
  predicate WindowCell(w: seq<real>, c: seq<real>, i: nat)
    requires i < |w| <= |c|
  {
    w[i] == MinOf(1.0, c[..|c| - |w| + i])
  }

  /** What holds of the loop variables at the top of the loop after observing `c`. */
  predicate Inv(s: RefState, c: seq<real>)
  {
    s.n == |c| + 1 && 1 <= s.n - s.itMin <= Window &&
    IsBest(c, s.itMin, s.rmsMin) && IsWindowOf(s.window, c)
  }

  /** The outcome of one loop body: go on with the next step, or break. */
  datatype StepOutcome = Continue(next: RefState) | Halt(last: RefState)

  /**
   * One loop body after the step has produced the error `rms`: push the current best
   * onto the window, then on a new best either break (when both the window and the
   * local improvement are within tolerance) or record it and go on.
   */
  function RefStep(s: RefState, rms: real, tol: real): (r: StepOutcome)
    ensures r.Halt? <==>
      rms < s.rmsMin &&
      Push(s.window, s.rmsMin)[0] - Push(s.window, s.rmsMin)[|Push(s.window, s.rmsMin)| - 1] < 10.0 * tol &&
      s.rmsMin - rms < tol
    ensures r.Halt? ==> r.last == RefState(s.n, s.n, rms, Push(s.window, s.rmsMin))
    ensures r.Continue? ==> r.next.n == s.n + 1 && r.next.window == Push(s.window, s.rmsMin)
    ensures r.Continue? && rms < s.rmsMin ==> r.next.rmsMin == rms && r.next.itMin == s.n
    ensures r.Continue? && rms >= s.rmsMin ==> r.next.rmsMin == s.rmsMin && r.next.itMin == s.itMin
  {
    var w := Push(s.window, s.rmsMin);
    if rms < s.rmsMin then
      if w[0] - w[|w| - 1] < 10.0 * tol && s.rmsMin - rms < tol then
        Halt(RefState(s.n, s.n, rms, w))
      else
        Continue(RefState(s.n + 1, s.n, rms, w))
    else
      Continue(RefState(s.n + 1, s.itMin, s.rmsMin, w))
  }

  /** Why a run ended. */
  datatype Reason = Converged | Stagnated

  /**
   * The end of a run: `lastStep` is the step whose reconstruction the loop returns; or
   * `Exhausted` when the observations ran out while the loop would go on.
   */
  datatype RunResult =
    | Finished(reason: Reason, lastStep: int, itMin: int, rmsMin: real)
    | Exhausted(state: RefState)

  /** The `while n - it_min < 100` loop of the CPU variant (guard before each step). */
  function RunCpu(s: RefState, obs: seq<real>, tol: real): (r: RunResult)
    ensures s.n - s.itMin >= Window ==> r == Finished(Stagnated, s.n - 1, s.itMin, s.rmsMin)
    ensures r.Exhausted? ==> r.state.n - r.state.itMin < Window
    decreases |obs|
  {
    if s.n - s.itMin >= Window then Finished(Stagnated, s.n - 1, s.itMin, s.rmsMin)
    else if |obs| == 0 then Exhausted(s)
    else
      match RefStep(s, obs[0], tol)
      case Halt(t) => Finished(Converged, t.n, t.itMin, t.rmsMin)
      case Continue(t) => RunCpu(t, obs[1..], tol)
  }

  /**
   * The `for _ in iter(int, 1)` loop of the GPU variant (the break is checked after each
   * step). Each step consumes one observation; a finished run stopped within them, on its
   * best step when it converged, and 99 steps after its best when it stagnated.
   */
  function RunGpu(s: RefState, obs: seq<real>, tol: real): (r: RunResult)
    ensures |obs| == 0 ==> r == Exhausted(s)
    ensures r.Exhausted? ==> r.state.n == s.n + |obs|
    ensures r.Finished? ==> s.n <= r.lastStep < s.n + |obs|
    ensures r.Finished? && r.reason == Converged ==> r.lastStep == r.itMin
    ensures s.n - s.itMin < Window && r.Finished? && r.reason == Stagnated ==>
      r.lastStep == r.itMin + Window - 1
    decreases |obs|
  {
    if |obs| == 0 then Exhausted(s)
    else
      match RefStep(s, obs[0], tol)
      case Halt(t) => Finished(Converged, t.n, t.itMin, t.rmsMin)
      case Continue(t) =>
        if t.n - t.itMin >= Window then Finished(Stagnated, t.n - 1, t.itMin, t.rmsMin)
        else RunGpu(t, obs[1..], tol)
  }

  /** The loop's best error is the least of 1.0 and everything observed. */
  lemma BestIsMinimum(c: seq<real>, it: int, m: real)
    requires IsBest(c, it, m)
    ensures m == MinOf(1.0, c)
  {
  }

  /** A new observation either becomes the best (when strictly below it) or leaves the best alone. */
  lemma BestExtends(c: seq<real>, it: int, m: real, o: real)
    requires IsBest(c, it, m)
    ensures o < m ==> IsBest(c + [o], |c| + 1, o)
    ensures o >= m ==> IsBest(c + [o], it, m)
  {
    var c' := c + [o];
    assert forall j :: 0 <= j < |c| ==> c'[j] == c[j];
  }

  /** The best error only goes down as more is observed. */
  lemma MinOfAntitone(c: seq<real>, i: nat, j: nat)
    requires i <= j <= |c|
    ensures MinOf(1.0, c[..j]) <= MinOf(1.0, c[..i])
  {
    var a, b := c[..i], c[..j];
    assert forall k :: 0 <= k < |a| ==> a[k] == b[k];
  }

  /** Pushing the current best keeps the window in step with the observations. */
  lemma {:induction false} WindowExtends(w: seq<real>, c: seq<real>, o: real)
    requires IsWindowOf(w, c)
    ensures IsWindowOf(Push(w, MinOf(1.0, c)), c + [o])
  {
    var c', w' := c + [o], Push(w, MinOf(1.0, c));
    assert |w'| == (if |c'| < Window then |c'| else Window) by {
      assert |c'| == |c| + 1;
    }
    forall i | 0 <= i < |w'|
      ensures WindowCell(w', c', i)
    {
      WindowExtendsAt(w, c, o, i);
    }
  }

  /** One entry of the pushed window is the best error before the step it stands for. */
  lemma {:induction false} WindowExtendsAt(w: seq<real>, c: seq<real>, o: real, i: nat)
    requires IsWindowOf(w, c) && i < |Push(w, MinOf(1.0, c))|
    ensures |Push(w, MinOf(1.0, c))| <= |c + [o]|
    ensures WindowCell(Push(w, MinOf(1.0, c)), c + [o], i)
  {
    var c', w' := c + [o], Push(w, MinOf(1.0, c));
    var k := |c| + 1 - |w'| + i;
    assert c'[..k] == c[..k];
    if i == |w'| - 1 {
      assert c[..|c|] == c;
    } else if |w| < Window {
      assert WindowCell(w, c, i);
      assert w'[i] == w[i];
    } else {
      assert WindowCell(w, c, i + 1);
      assert w'[i] == w[i + 1];
    }
  }

  /** The window is non-increasing from oldest to newest, so its gap is never negative. */
  lemma WindowNonIncreasing(w: seq<real>, c: seq<real>)
    requires IsWindowOf(w, c)
    ensures |w| <= Window
    ensures forall i, j :: 0 <= i <= j < |w| ==> w[j] <= w[i]
    ensures |w| > 0 ==> w[0] - w[|w| - 1] >= 0.0
  {
    forall i, j | 0 <= i <= j < |w|
      ensures w[j] <= w[i]
    {
      assert WindowCell(w, c, i) && WindowCell(w, c, j);
      MinOfAntitone(c, |c| - |w| + i, |c| - |w| + j);
    }
  }

  /** The start state satisfies the loop invariant with nothing observed. */
  lemma StartInv()
    ensures Inv(Start, [])
  {
  }

  /**
   * One loop body keeps the invariant; when it breaks, the step it breaks on is the
   * new best.
   */
  lemma RefStepKeepsInv(s: RefState, c: seq<real>, o: real, tol: real)
    requires Inv(s, c) && s.n - s.itMin < Window
    ensures RefStep(s, o, tol).Continue? ==> Inv(RefStep(s, o, tol).next, c + [o])
    ensures RefStep(s, o, tol).Halt? ==>
      RefStep(s, o, tol).last.n == |c| + 1 && RefStep(s, o, tol).last.itMin == |c| + 1 &&
      IsBest(c + [o], RefStep(s, o, tol).last.itMin, RefStep(s, o, tol).last.rmsMin)
  {
    BestExtends(c, s.itMin, s.rmsMin, o);
    BestIsMinimum(c, s.itMin, s.rmsMin);
    WindowExtends(s.window, c, o);
  }

  /**
   * What a run that started after observing `c`, with all observations `all`, returns:
   * a finished run reports the best step and error among the observations it consumed,
   * a stagnated run stopped 99 steps after its best, a converged run stopped on its best,
   * and an exhausted run is still in the loop.
   */
  predicate Summarises(r: RunResult, c: seq<real>, all: seq<real>)
  {
    (r.Finished? ==> |c| <= r.lastStep <= |all| && IsBest(all[..r.lastStep], r.itMin, r.rmsMin)) &&
    (r.Finished? && r.reason == Stagnated ==> r.lastStep == r.itMin + Window - 1) &&
    (r.Finished? && r.reason == Converged ==> r.lastStep == r.itMin > |c|) &&
    (r.Exhausted? ==> Inv(r.state, all))
  }

  /** A run from an invariant state is summarised by `Summarises`. */
  lemma {:induction false} RunCpuSound(s: RefState, c: seq<real>, rest: seq<real>, tol: real)
    requires Inv(s, c)
    ensures Summarises(RunCpu(s, rest, tol), c, c + rest)
    decreases |rest|
  {
    if s.n - s.itMin >= Window {
      GuardSound(s, c, rest, tol);
    } else if |rest| == 0 {
      assert c + rest == c;
    } else if RefStep(s, rest[0], tol).Halt? {
      HaltSound(s, c, rest, tol);
    } else {
      var o := rest[0];
      var t := RefStep(s, o, tol).next;
      RefStepKeepsInv(s, c, o, tol);
      RunCpuSound(t, c + [o], rest[1..], tol);
      ContinueSound(s, c, rest, tol);
    }
  }

  lemma GuardSound(s: RefState, c: seq<real>, rest: seq<real>, tol: real)
    requires Inv(s, c) && s.n - s.itMin >= Window
    ensures Summarises(RunCpu(s, rest, tol), c, c + rest)
  {
    assert (c + rest)[..|c|] == c;
  }

  lemma HaltSound(s: RefState, c: seq<real>, rest: seq<real>, tol: real)
    requires Inv(s, c) && s.n - s.itMin < Window && |rest| > 0 && RefStep(s, rest[0], tol).Halt?
    ensures Summarises(RunCpu(s, rest, tol), c, c + rest)
  {
    RefStepKeepsInv(s, c, rest[0], tol);
    assert (c + rest)[..|c| + 1] == c + [rest[0]];
  }

  lemma ContinueSound(s: RefState, c: seq<real>, rest: seq<real>, tol: real)
    requires Inv(s, c) && s.n - s.itMin < Window && |rest| > 0 && RefStep(s, rest[0], tol).Continue?
    requires Summarises(RunCpu(RefStep(s, rest[0], tol).next, rest[1..], tol), c + [rest[0]], c + [rest[0]] + rest[1..])
    ensures Summarises(RunCpu(s, rest, tol), c, c + rest)
  {
    assert c + [rest[0]] + rest[1..] == c + rest;
  }

  /** The reference rule from the start: the run-level summary of `RunCpuSound`. */
  lemma ReferenceRun(obs: seq<real>, tol: real)
    ensures RunCpu(Start, obs, tol).Finished? ==>
      0 <= RunCpu(Start, obs, tol).lastStep <= |obs| &&
      IsBest(obs[..RunCpu(Start, obs, tol).lastStep], RunCpu(Start, obs, tol).itMin, RunCpu(Start, obs, tol).rmsMin)
    ensures RunCpu(Start, obs, tol).Finished? && RunCpu(Start, obs, tol).reason == Stagnated ==>
      RunCpu(Start, obs, tol).lastStep == RunCpu(Start, obs, tol).itMin + Window - 1
    ensures RunCpu(Start, obs, tol).Finished? && RunCpu(Start, obs, tol).reason == Converged ==>
      RunCpu(Start, obs, tol).lastStep == RunCpu(Start, obs, tol).itMin >= 1
    ensures RunCpu(Start, obs, tol).Exhausted? ==> Inv(RunCpu(Start, obs, tol).state, obs)
  {
    StartInv();
    RunCpuSound(Start, [], obs, tol);
    assert [] + obs == obs;
  }

  /** If no observed error goes below the initial 1.0, the loop gives up after 99 steps. */
  lemma NoImprovementStagnates(obs: seq<real>, tol: real)
    requires |obs| >= Window - 1
    requires forall j :: 0 <= j < |obs| ==> obs[j] >= 1.0
    ensures RunCpu(Start, obs, tol) == Finished(Stagnated, Window - 1, 0, 1.0)
  {
    ReferenceRun(obs, tol);
    var r := RunCpu(Start, obs, tol);
    if r.Finished? {
      var c := obs[..r.lastStep];
      assert forall j :: 0 <= j < |c| ==> c[j] >= 1.0;
    }
  }

  /** Before the first new best every window entry is 1.0. */
  lemma WindowBeforeFirstBest(s: RefState, c: seq<real>)
    requires Inv(s, c) && s.itMin == 0
    ensures forall i :: 0 <= i < |s.window| ==> s.window[i] == 1.0
  {
    forall i | 0 <= i < |s.window|
      ensures s.window[i] == 1.0
    {
      var p := c[..|c| - |s.window| + i];
      assert WindowCell(s.window, c, i);
      assert forall j :: 0 <= j < |p| ==> p[j] == c[j];
    }
  }

  /**
   * At the first new best the window gap is 0, so the loop breaks exactly when the error
   * lies within `tol` below 1.0.
   */
  lemma FirstImprovement(s: RefState, c: seq<real>, o: real, tol: real)
    requires Inv(s, c) && s.n - s.itMin < Window && s.itMin == 0
    requires o < 1.0
    ensures RefStep(s, o, tol).Halt? <==> 1.0 - o < tol
  {
    WindowBeforeFirstBest(s, c);
    var w := Push(s.window, s.rmsMin);
    assert w[0] == 1.0;
  }

  /** The GPU loop (break after the increment) runs exactly like the CPU loop (guard at the top). */
  lemma {:induction false} CpuGpuAgree(s: RefState, obs: seq<real>, tol: real)
    requires s.n - s.itMin < Window
    ensures RunCpu(s, obs, tol) == RunGpu(s, obs, tol)
    decreases |obs|
  {
    if |obs| > 0 {
      match RefStep(s, obs[0], tol)
      case Halt(t) =>
      case Continue(t) =>
        if t.n - t.itMin < Window {
          CpuGpuAgree(t, obs[1..], tol);
        }
    }
  }

  /** `rms_min_A.append(rms_min)`, after `rms_min_A.pop(0)` when the list is full. */
  method PushBest(window: seq<real>, rmsMin: real) returns (w: seq<real>)
    ensures w == Push(window, rmsMin)
  {
    if |window| < Window {
      w := window + [rmsMin];
    } else {
      w := window[1..] + [rmsMin];
    }
  }

  /** The CPU loop written out with mutable loop variables, as the source writes it. */
  method ReferenceLoopCpu(obs: seq<real>, tol: real) returns (r: RunResult)
    ensures r == RunCpu(Start, obs, tol)
  {
    var n, itMin, rmsMin, window := 1, 0, 1.0, [];
    var k := 0;
    while n - itMin < Window
      invariant 0 <= k <= |obs| && n == k + 1
      invariant RunCpu(RefState(n, itMin, rmsMin, window), obs[k..], tol) == RunCpu(Start, obs, tol)
      decreases |obs| - k
    {
      if k == |obs| {
        return Exhausted(RefState(n, itMin, rmsMin, window));
      }
      var rms := obs[k];
      assert obs[k..][1..] == obs[k + 1..];
      ghost var s := RefState(n, itMin, rmsMin, window);
      window := PushBest(window, rmsMin);
      if rms < rmsMin {
        var rmsDiff := window[0] - window[|window| - 1];
        var localDiff := rmsMin - rms;
        if rmsDiff < 10.0 * tol {
          if localDiff < tol {
            rmsMin := rms;
            itMin := n;
            assert RefStep(s, rms, tol) == Halt(RefState(n, itMin, rmsMin, window));
            return Finished(Converged, n, itMin, rmsMin);
          }
        }
        rmsMin := rms;
        itMin := n;
      }
      n := n + 1;
      k := k + 1;
      assert RefStep(s, rms, tol) == Continue(RefState(n, itMin, rmsMin, window));
    }
    r := Finished(Stagnated, n - 1, itMin, rmsMin);
  }

  /** The GPU loop: unconditional, with the stagnation break after the increment. */
  method ReferenceLoopGpu(obs: seq<real>, tol: real) returns (r: RunResult)
    ensures r == RunGpu(Start, obs, tol)
    ensures r == RunCpu(Start, obs, tol)
  {
    CpuGpuAgree(Start, obs, tol);
    var n, itMin, rmsMin, window := 1, 0, 1.0, [];
    var k := 0;
    while true
      invariant 0 <= k <= |obs| && n == k + 1
      invariant RunGpu(RefState(n, itMin, rmsMin, window), obs[k..], tol) == RunGpu(Start, obs, tol)
      decreases |obs| - k
    {
      if k == |obs| {
        return Exhausted(RefState(n, itMin, rmsMin, window));
      }
      var rms := obs[k];
      assert obs[k..][1..] == obs[k + 1..];
      ghost var s := RefState(n, itMin, rmsMin, window);
      window := PushBest(window, rmsMin);
      if rms < rmsMin {
        var rmsDiff := window[0] - window[|window| - 1];
        var localDiff := rmsMin - rms;
        if rmsDiff < 10.0 * tol {
          if localDiff < tol {
            rmsMin := rms;
            itMin := n;
            assert RefStep(s, rms, tol) == Halt(RefState(n, itMin, rmsMin, window));
            return Finished(Converged, n, itMin, rmsMin);
          }
        }
        rmsMin := rms;
        itMin := n;
      }
      n := n + 1;
      k := k + 1;
      assert RefStep(s, rms, tol) == Continue(RefState(n, itMin, rmsMin, window));
      if n - itMin >= Window {
        return Finished(Stagnated, n - 1, itMin, rmsMin);
      }
    }
  }
}
