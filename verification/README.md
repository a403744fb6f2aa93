# InterGen's Chambolle projection, modelled in Dafny

InterGen generates fringe-pattern (interferogram) images. It can separate an image's
slowly varying background from its fringes using Chambolle's projection algorithm. The
repository implements this in several copies:

- a numpy copy in `src/chambolleProjection.py`;
- a CuPy copy in `src/chambolleProjectionGPU.py`;
- two legacy copies at the repository root.

All of them share the same building blocks:

- Gabriel Peyré's discrete `gradient2D` and `divergence2D`;
- the dual update `xi <- (xi + tau*g) / (1 + tau*|g|)`, where `g = grad(div(xi) - f/mi)`;
- the reconstruction `x2 = mi * div(xi)`;
- one of two stopping rules:
  - the reference rule, driven by the RMS error against a reference image;
  - the self-referential rule, driven by the relative change between reconstructions.

Two image helpers are also part of the model: `normalizeImage` and
`generateSphericalObject`.

Apart from `np` versus `cp`, the copies of each operator are textually the same, with one
exception: the legacy CPU `divergence2D` sums through an `arr_sum` that nothing defines
(see "## Findings"). One Dafny member therefore models every copy, and `BrokenCopies`
models the exception. Values are exact reals. The
model treats two quantities as inputs rather than computing them:

- The square root `d = sqrt(gx^2 + gy^2)`. A witness grid stands in for it: `d >= 0` and
  `d*d == gx^2 + gy^2`.
- The per-iteration errors that the stopping rules read. These are the RMS (`var`)
  against the reference image, and the 2-norm quotients. They arrive as sequences of
  observations.

Modules:

- `Results`: the Python exceptions, plus `Result`.
- `Reals`: `abs`, sign facts about products and the zero-product rule, shared by the modules below.
- `Grids`: square grids, cellwise algebra and inner products.
- `Operators`: gradient and divergence, each as an index rule and as the array code's
  shift construction, proved equal.
- `Adjoint`: `<a, div p> = -<grad a, p>`.
- `DualUpdate`: one Chambolle step and runs of steps.
- `ReferenceRule` and `SelfReferentialRule`: the two stopping rules, as functions and as
  loops.
- `Projection`: the full routines.
- `BrokenCopies`: the two copies that fail as written, next to their corrected forms.
- `Normalization` and `SphericalObject`: the two image helpers.

## Model

| member | source | states |
|---|---|---|
| Operators.GradientByShift | src/chambolleProjection.py:21-31 | Shifting rows (and columns) up by one, repeating the last, then subtracting equals the forward-difference rule: `fx[i][j] = m[i+1][j] - m[i][j]` below the last row and 0 on it; `fy` likewise along columns. |
| Operators.DivergenceByShift | src/chambolleProjection.py:49-60 | The shift, subtract and edge overwrites equal the backward-difference rule. First row `px[0]`; interior rows `px[i]-px[i-1]`; last row `-px[n-2]`. Likewise along columns. The result is summed. |
| Operators.ShiftedRowsPart | src/chambolleProjectionGPU.py:51-53 | The row half of the GPU divergence, with its first- and last-row overwrites, is the backward row difference. |
| Operators.ShiftedColumnsPart | src/chambolleProjectionGPU.py:55-57 | The column half of the GPU divergence, with its first- and last-column overwrites, is the backward column difference. |
| Operators.GradientZeroIffConstant | src/chambolleProjectionGPU.py:19-30 | The gradient of a square grid vanishes exactly when the grid is constant. |
| Operators.GradientLinear | chambolleProjectionGPU.py:7-19 | The gradient is linear: `grad(alpha*a + beta*b) = alpha*grad a + beta*grad b` in both channels. |
| Operators.DivergenceLinear | chambolleProjectionGPU.py:21-33 | The divergence is linear in the field. |
| Operators.DivergenceOfZero | src/chambolleProjectionGPU.py:48-59 | The divergence of the zero field is the zero grid. |
| Operators.DivergenceIgnoresFarEdge | src/chambolleProjection.py:52-58 | The last row of `Px` and the last column of `Py` never affect the divergence, because the overwrites replace every cell that reads them. |
| Adjoint.GradientDivergenceAdjoint | src/chambolleProjection.py:5-60 | Peyré's pair is adjoint up to sign: `sum(a * div p) = -(sum(grad_x a * p.x) + sum(grad_y a * p.y))` for every square grid `a` and field `p`. |
| Adjoint.SummationByParts | src/chambolleProjection.py:52-54 | The backward-difference terms of a matrix sum to minus its forward-difference terms. This is the discrete summation by parts behind the adjointness. |
| DualUpdate.DualGradient | src/chambolleProjection.py:104 | `grad(div(xi) - f/mi)` exists exactly when `mi != 0`; dividing by zero gives non-finite values. |
| DualUpdate.Update | src/chambolleProjection.py:105-107 | The division is defined exactly when no denominator `1 + tau*d` is zero. Each cell of both channels then solves `(1 + tau*d) * xi' = xi + tau*g`. |
| DualUpdate.DenominatorAtLeastOne | src/chambolleProjectionGPU.py:105-107 | When `d` is the gradient magnitude and `tau >= 0`, every denominator is at least 1, so the update never divides by zero. |
| DualUpdate.Step | src/chambolleProjection.py:104-109 | One iteration succeeds exactly when `mi != 0` and the denominators are non-zero. The new `xi` is the update of the old `xi` by the dual gradient. The reconstruction is `mi * div(xi')`. |
| DualUpdate.Initial | src/chambolleProjection.py:94-96 | Both channels of `xi` and the reconstruction start as zero grids. |
| DualUpdate.Run | src/chambolleProjectionGPU.py:185-193 | Zero steps leave the state unchanged. Any step with `mi = 0` fails with non-finite values. |
| DualUpdate.StepAtRest | src/chambolleProjectionGPU.py:104-109 | From the zero state and the zero image, one step returns the zero state. |
| DualUpdate.RunAtRest | src/chambolleProjection.py:93-109 | The zero state is a fixed point of every run on the zero image. |
| DualUpdate.UpdateKeepsFeasible | src/chambolleProjection.py:105-107 | With `tau >= 0` and `d` the gradient magnitude, if every cell of `xi` has `xi.x^2 + xi.y^2 <= 1`, the update succeeds and keeps that bound. This is the dual feasibility of Chambolle's scheme. |
| DualUpdate.RunKeepsFeasible | src/chambolleProjection.py:103-109 | Every run from a feasible `xi` with `mi != 0` and `tau >= 0` succeeds and ends feasible. |
| ReferenceRule.PushKeepsNewest | src/chambolleProjection.py:114-118 | The window of previous best errors is a queue of the newest values. A push keeps the newest entries of `window + [v]` in order. It drops nothing while the window holds fewer than 100 values and exactly one when it is full, so the window never exceeds 100. |
| ReferenceRule.MinOf | src/chambolleProjection.py:120 | The running best error is a lower bound of 1.0 and of every observation, and equals one of them. |
| ReferenceRule.RefStep | src/chambolleProjection.py:114-131 | One iteration halts exactly when three conditions hold: the error improves on the best, the window span `window[0] - window[-1]` is below `10*tol`, and the improvement is below `tol`. A halt records the step as the best. An improvement that does not halt becomes the new best. Otherwise the best is kept and the step counter advances. |
| ReferenceRule.RunCpu | src/chambolleProjection.py:103-134 | If the guard `n - it_min < 100` fails, the loop stops at once: the reason is stagnation and the last step is `n - 1`. A run that runs out of observations still satisfies the guard. |
| ReferenceRule.RunGpu | src/chambolleProjectionGPU.py:102-137 | The GPU loop consumes one observation per step. A finished run stops within the observations. A converged run stops on its best step. From a state within the guard, a stagnated run stops 99 steps after its best. CpuGpuAgree relates it to the CPU loop. |
| ReferenceRule.BestIsMinimum | chambolleProjection.py:63-74 | The recorded best error is the minimum of 1.0 and all the observations so far. |
| ReferenceRule.WindowNonIncreasing | chambolleProjectionGPU.py:58-66 | The window holds at most 100 values and never increases from oldest to newest, so the span `window[0] - window[-1]` is never negative. |
| ReferenceRule.RefStepKeepsInv | src/chambolleProjectionGPU.py:114-131 | One step keeps these invariants: the counter, the best error and its step, and the window as the last 100 best values. A halting step is recorded as the best step. |
| ReferenceRule.RunCpuSound | src/chambolleProjectionGPU.py:102-137 | From any state meeting the invariants, a run reports a best that is the true minimum of the errors observed up to its last step. The last step is the best step (convergence) or 99 steps after it (stagnation). |
| ReferenceRule.ReferenceRun | src/chambolleProjection.py:93-138 | The routine's result: `it_min` is the first step attaining the minimum error among the steps run, and `rms_min` is that minimum. On convergence the loop ran exactly `it_min` steps; on stagnation it ran `it_min + 99`. |
| ReferenceRule.NoImprovementStagnates | chambolleProjection.py:41-77 | If no error falls below 1.0, the routine stops after 99 steps with `it_min = 0` and `rms_min = 1.0`. |
| ReferenceRule.WindowBeforeFirstBest | chambolleProjection.py:57-61 | Until a first improvement, every value in the window is the initial 1.0. |
| ReferenceRule.FirstImprovement | chambolleProjection.py:63-71 | The first improvement halts the loop exactly when `1.0 - rms < tol`, because the window span is then zero. |
| ReferenceRule.CpuGpuAgree | src/chambolleProjectionGPU.py:133-137 | The GPU copy, which tests its guard after the increment, returns the same result as the CPU copy, which tests it before, on every observation sequence. |
| ReferenceRule.ReferenceLoopCpu | chambolleProjectionGPU.py:47-78 | The `while n - it_min < 100` loop computes the reference rule. |
| ReferenceRule.ReferenceLoopGpu | src/chambolleProjectionGPU.py:97-143 | The unbounded loop with its two `break`s computes the reference rule, and gives the CPU result. |
| SelfReferentialRule.Divide | src/chambolleProjectionGPU.py:201 | The quotient `g_err / err[0]` is finite exactly when `err[0] != 0`, and then multiplies back to `g_err`. |
| SelfReferentialRule.SelfStep | src/chambolleProjectionGPU.py:195-205 | One iteration appends the error, keeps it as the previous error, sets `g_err = abs(prev - err)/2 >= 0`, and sets `pr = g_err / err[0]`. It advances `n`. |
| SelfReferentialRule.Run | src/chambolleProjectionGPU.py:185-208 | The loop consumes one observation per step and appends it to the error list. A run that is still going has appended every observation. A stop reports a later `n`, within the observations, and a non-negative `g_err`. RunFrom and SelfReferentialRun give its closed form. |
| SelfReferentialRule.StepAdvances | src/chambolleProjectionGPU.py:194-205 | Steps compose: stepping the state after `k` observations with observation `k` gives the state after `k+1`. |
| SelfReferentialRule.NextStop | src/chambolleProjectionGPU.py:207-208 | The first step at or after `k` whose ratio is below `tol`, with nothing earlier stopping. If no step stops, the number of observations. |
| SelfReferentialRule.RunFrom | src/chambolleProjectionGPU.py:185-208 | From the state after `k` observations, the rest of the loop stops exactly at the first stopping step, or keeps running. |
| SelfReferentialRule.SelfReferentialRun | src/chambolleProjectionGPU.py:174-210 | The routine returns `n = j + 2` and `g_err = abs(err[j-1] - err[j])/2` (with `err[-1]` read as 0) for the first `j` whose ratio is below `tol`. If no such `j` exists it is still running. |
| SelfReferentialRule.FirstRatioIsHalf | src/chambolleProjectionGPU.py:180-202 | With a positive first error, the first ratio is exactly 1/2, because `err_n` starts at 0. |
| SelfReferentialRule.NoStopAfterOneStep | src/chambolleProjectionGPU.py:199-208 | With `tol <= 1/2` and a positive first error, the routine never stops after its first step, so a stop reports `n > 2`. |
| SelfReferentialRule.ZeroFirstErrorNeverStops | src/chambolleProjectionGPU.py:199-208 | If the first error is zero, every ratio is non-finite and never below `tol`, so the loop never stops. |
| SelfReferentialRule.SelfReferentialLoop | src/chambolleProjectionGPU.py:185-208 | The unbounded loop with `break` computes the self-referential rule. |
| Projection.ReconstructionAfter | src/chambolleProjection.py:109 | Before any step the reconstruction is zero. After any step with `mi = 0` it is non-finite. |
| Projection.ReferenceProjection | src/chambolleProjectionGPU.py:141-143 | The routine returns `it_min` and `rms_min` of the reference rule, and reports running out of observations when the rule does. |
| Projection.ReferenceReturnsLastImage | src/chambolleProjection.py:136-138 | The returned `x_best` is the reconstruction after the last step run, not the one at `it_min`. On stagnation that is 99 steps after the best. |
| Projection.ReferenceProjectionBest | src/chambolleProjection.py:84-138 | The corrected reference routine runs the same loop and fails where it fails. It returns `it_min` and `rms_min`, together with the reconstruction after `it_min` steps, which the docstring calls the result image. |
| Projection.BestAgreesOnConvergence | src/chambolleProjection.py:124-136 | When the rule converges, the last step run is the best step, so the corrected routine returns what the routine as written returns. |
| Projection.StagnatedImageIsNotBest | src/chambolleProjection.py:99-136 | If no error falls below 1.0, the routine as written reports `it_min = 0` but returns the image after 99 steps. The corrected routine returns the initial zero image. |
| Projection.SelfReferentialProjection | src/chambolleProjectionGPU.py:145-210 | The routine returns `n` and `g_err` as the self-referential rule stops. |
| Projection.SelfReferentialReturnsLastImage | src/chambolleProjectionGPU.py:204-210 | The returned image is the reconstruction after `j + 1` steps when the reported `n` is `j + 2`. |
| Projection.StepsSucceed | src/chambolleProjection.py:104-109 | With `mi != 0` and `tau >= 0`, every reconstruction along a run exists: no step divides by zero. |
| Projection.ReferenceNeverFails | src/chambolleProjection.py:103-138 | With `mi != 0` and `tau >= 0`, the reference routine never fails: it projects or runs out of observations. |
| Projection.SelfReferentialNeverFails | src/chambolleProjectionGPU.py:185-210 | With `mi != 0` and `tau >= 0`, the self-referential routine never fails: it projects or runs out of observations. |
| Projection.DefaultsNeverFail | src/chambolleProjection.py:62-140 | At the keyword defaults `mi = 100`, `tau = 0.25` and `tol = 1e-5`, neither routine fails. |
| Projection.DefaultSelfReferentialStopsLate | src/chambolleProjectionGPU.py:145-208 | At the default `tol = 1e-5`, with a positive first error, the self-referential routine reports more than two iterations whenever it projects. |
| Projection.ZeroImageProjectsToZero | src/chambolleProjection.py:93-138 | Projecting the zero image with `mi != 0` never fails, and any image it returns is zero. |
| BrokenCopies.OnlyArrSumUnbound | chambolleProjection.py:1-31 | The legacy `divergence2D` reads two globals, `np` and `arr_sum`. The module's imports and definitions bind `np` but not `arr_sum`. |
| BrokenCopies.DivergenceAsWritten | chambolleProjection.py:19-31 | The legacy divergence returns Peyré's divergence when `arr_sum` is bound, and raises `NameError('arr_sum')` when it is not. |
| BrokenCopies.DivergenceAsWrittenFails | chambolleProjection.py:1-31 | In the module as written, which never binds `arr_sum`, every call raises the `NameError`. |
| BrokenCopies.DivergenceCorrected | chambolleProjection.py:23-30 | Summing `fx + fy` is Peyré's divergence, the same as the legacy copy once `arr_sum` is bound. |
| BrokenCopies.CorrectedDivergenceAdjoint | chambolleProjection.py:6-31 | The corrected legacy divergence is adjoint (up to sign) to the legacy gradient. |
| BrokenCopies.ProjectionAsWritten | chambolleProjection.py:33-79 | The legacy routine fails with the `NameError` exactly when `arr_sum` is unbound. Otherwise it is the reference routine. |
| BrokenCopies.ProjectionAsWrittenFails | chambolleProjection.py:46-47 | As written, the first step's `divergence2D(xi)` raises, so the legacy routine fails on every input. |
| BrokenCopies.RootProjection | chambolleProjectionGPU.py:35-82 | The legacy GPU routine returns the reference rule's `it_min` and `rms_min`. It is the legacy CPU routine with `arr_sum` bound. |
| BrokenCopies.IterationsUnused | chambolleProjectionGPU.py:35-47 | The `iterations` parameter has no effect on either legacy routine. |
| BrokenCopies.OnlyCudaMissing | src/chambolleProjection.py:169-205 | The CPU stop-criterion routine and its operators read ten attributes from `np`. Numpy has all of them except `cuda`. |
| BrokenCopies.StopCriterionCpuAsWritten | src/chambolleProjection.py:169-205 | The CPU stop-criterion routine fails with `AttributeError('numpy', 'cuda')` exactly when numpy lacks `cuda`. Otherwise it behaves as the self-referential routine. It returns `n = j + 2` and the gap at step `j`, where `j` is the first step whose ratio falls below `tol`. The image it returns is the reconstruction after `j + 1` steps. Without such a step it runs out of observations. With `mi != 0` and `tau >= 0`, no step fails. |
| BrokenCopies.StopCriterionCpuFails | src/chambolleProjection.py:173 | numpy has no `cuda` attribute, so the routine fails on every input. |
| Normalization.MaxAbs | src/normalizeImage.py:23 | `max(abs(I))` of a non-empty image bounds every cell's magnitude and is attained by some cell. |
| Normalization.Normalize | src/normalizeImage.py:5-24 | The compiled copy fails exactly when the image is empty (`ValueError`) or all zero (`ZeroDivisionError`). Otherwise every cell is rescaled by `max(abs(I))`. |
| Normalization.NormalizeUncompiled | normalizeImage.py:5-8 | The uncompiled legacy copy raises `ValueError` on an empty image. An all-zero image gives non-finite values instead of raising. |
| Normalization.CopiesAgree | normalizeImage.py:6-7 | The two copies succeed on the same images and then agree. |
| Normalization.InRange | src/normalizeImage.py:23 | Every normalised cell lies in `[0, normFactor]` when `normFactor >= 0`. |
| Normalization.DefaultInRange | src/normalizeImage.py:6-23 | With the default `normFactor = 255.0`, every image that is neither empty nor all zero normalises into `[0, 255]`. |
| Normalization.PreservesOrder | src/normalizeImage.py:6-23 | For `normFactor > 0`, normalisation preserves and reflects the order of any two cells. |
| Normalization.Landmarks | normalizeImage.py:7 | `0` maps to `normFactor/2`, `max(abs(I))` maps to `normFactor`, and `-max(abs(I))` maps to `0`. |
| Normalization.RestoreRoundTrip | src/normalizeImage.py:22-24 | The inverse affine map recovers every original cell from the normalised image and `max(abs(I))`. |
| SphericalObject.Generate | src/generateSphericalObject.py:28 | The result has the meshgrids' shape. Each cell is the surface at that cell's coordinates. |
| SphericalObject.DistanceZeroIffCentre | src/generateSphericalObject.py:27-28 | The squared distance is zero exactly at the centre `(x0, y0)`. |
| SphericalObject.CentreIsHeight | generateSphericalObject.py:6 | The surface at its centre equals `h`. |
| SphericalObject.HeightBounds | src/generateSphericalObject.py:5-28 | For `f >= 0` the surface lies on or above `h`; for `f <= 0`, on or below. |
| SphericalObject.HeightOnlyAtCentre | generateSphericalObject.py:4-6 | The surface equals `h` exactly at the centre, unless `f = 0`. |
| SphericalObject.DistanceFromValue | generateSphericalObject.py:5-6 | For `f != 0`, `(value - h) / f` recovers the squared distance from the centre. |
| SphericalObject.ReflectionSymmetric | src/generateSphericalObject.py:4-28 | The surface is symmetric under reflection through `x = x0` and through `y = y0`. |
| SphericalObject.DefaultsGiveParaboloid | src/generateSphericalObject.py:5 | With the defaults `x0 = y0 = 0`, `f = 1`, `h = 0`, each cell is `X^2 + Y^2`. |
| SphericalObject.GridHeightBounds | generateSphericalObject.py:1-6 | Every cell of a generated grid is on the side of `h` that the sign of `f` gives. |

## Left out

- The square root and the error measures are inputs, not computed:
  - The square root in the dual update: a witness grid `d` with `d >= 0` and `d*d = gx^2 + gy^2` stands for it.
  - `np.var` against `f_ref`, and the spectral norms `np.linalg.norm(., 2)`: the stopping rules read the resulting errors as a sequence of observations, one per iteration.
  - Consequence: the model does not relate those numbers to the reconstructions.
- Floating point is not modelled; values are exact reals.
  - Where IEEE arithmetic would give NaN or infinity, the model reports it: `f/mi` with `mi = 0`, `g_err/err[0]` with `err[0] = 0`, and `normalizeImage` of a zero image without numba.
  - It does so with the `NonFiniteValues` error or the `NotFinite` ratio, which never compares below `tol`. NaN propagation is not traced further.
- Termination of the unbounded loops is out of scope. The loops run over a finite observation sequence; a run that exhausts it reports `Exhausted`, `Running` or `OutOfInput`.
- Operators.GradientByShift requires a non-empty grid. The array code raises `IndexError` on an empty grid, and that error path is not modelled.
- Operators.DivergenceByShift requires `n >= 2`. For a 1x1 field, the read of row `-2` raises `IndexError`, and that path is not modelled.
- Rectangular grids and numpy broadcasting are out of scope:
  - The operators take square `n x n` grids, as their documentation says.
  - `np.tile(d, [2, 1, 1])` is modelled as the same `d` applied to both channels.
- `generateSphericalObject`'s broadcasting of meshgrids of different shapes is out of scope; SphericalObject.Generate requires two meshgrids of one shape.
- Normalization.Normalize and Normalization.NormalizeUncompiled take the image as its cells in row-major order, because the formula treats every cell alike and ignores the shape.
- numba's `@jit(nopython=True, parallel=True)` and CuPy device execution are not modelled. `cp.cuda.Stream.null.synchronize()` in the GPU routine is an I/O barrier with no effect on values.
- Projection.ReconstructionAfter does not relate the reconstruction to `f` beyond its zero and failure cases. The reconstruction after each step is the one `DualUpdate.Step` computes, and later rows state what the routines return in terms of it.
- `time`, `matplotlib`, the commented-out plots, the interferogram generator, `gauss_n`, `generateRandomPolynomial`, the drivers (`runChambolle*.py`, `runInterGen.py`, `main.py`, `InterGen.py`), the GUI and `src/__init__.py` are not part of this model.

## Findings

| source | as written | input that shows it | evidently intended | confidence | as-written member | corrected member |
|---|---|---|---|---|---|---|
| chambolleProjection.py:31 | `divergence2D` returns `arr_sum(fx, fy)`, but the module never defines or imports `arr_sum` | any call, e.g. the first iteration of `chambolleProjection(f, f_ref)` for any 2x2 `f` | `fx + fy`, as in every other copy | high (not executed) | BrokenCopies.DivergenceAsWritten | BrokenCopies.DivergenceCorrected |
| src/chambolleProjection.py:173 | the CPU `chambolleProjectionStopCriterion` calls `np.cuda.Stream.null.synchronize()`, but numpy has no `cuda` attribute | any call, e.g. `chambolleProjectionStopCriterion(f)` for any 2x2 `f` | no synchronisation on the CPU; the self-referential loop as in the GPU copy | high (not executed) | BrokenCopies.StopCriterionCpuAsWritten | Projection.SelfReferentialProjection |
| src/chambolleProjection.py:136 | `x_best = x2` returns the image of the last step run, while `it_min` and `rms_min` describe the best step; after stagnation the image is 99 steps past `it_min` | any run in which no error falls below 1.0: the routine reports `it_min = 0` but returns the image after 99 steps (Projection.StagnatedImageIsNotBest) | the reconstruction at step `it_min`, as the name `x_best` and the docstring's account of `it_min` say | medium (not executed) | Projection.ReferenceProjection | Projection.ReferenceProjectionBest |
