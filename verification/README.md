# RK4 integrator: a Dafny model of `RungeKutta.py`

`RungeKutta` is a fixed-step Runge-Kutta integrator for `dy = f(t, y) dt`, where `y` is
a vector of dimension `k`. Its stages and weights `1, 2, 2, 1` are those of the classical
fourth-order method, but every stage is evaluated one step late (see the timing paragraph
below), so it is the classical method only when `f` does not depend on `t`.

The object is built from a horizon `T`, a seed `y0` and a step `delta_t`, and it records
the seed `(0, y0)`. One call of `iterate()` then advances `tn` by `delta_t` while
`tn < T`, appends one time and one state per step, converts the time list to an array and
transposes the state array. Two views read the result:
- `get_paths()` gives the times and the `k`-by-`len(t)` states;
- `get_diff_paths()` gives all times but the last, and the consecutive differences of the
  states along the time axis.

This project models that class over exact reals. The modules are:
- `Errors`: the failure kinds and a `Result` type.
- `Vectors`: elementwise vector arithmetic.
- `Arrays`: the two shapes the state buffer takes, a 1-D seed or a 2-D array, with
  `vstack`, transpose and `diff` along the time axis.
- `Simpson`: cubic polynomials, their integrals, and Simpson's rule, which integrates
  cubics exactly.
- `Rk4`: one evaluation of the derivative, the four stages, and the step, with the
  departure-time step that the docstring describes beside it.
- `Trajectory`: the accumulated clock and the step count. It also holds `Prefix`, the
  samples after `n` steps, `Halts`, whether a pass ends, and `Trace`, the whole pass,
  which serves as a reference.
- `RungeKutta`: the object (`Init`, the `Iterate` method with its `while` loop,
  `GetPaths`, `GetDiffPaths`) and its lifecycle, from `Fresh` to `Iterated`.
- `Scenarios`: small runs worked out exactly.

The derivative `f` is a parameter of type `Derivative`. `Unbound` is the base class's `f`,
whose body is `pass`. `Bound(fn)` is a function supplied by a subclass, with the class-level
`params` folded into it. Python exceptions become `Err` values:
- `NotImplemented`: `f` is the base-class stub.
- `DimensionMismatch`: `f` returns a vector whose length is not `k`.
- `AlreadyIterated`: a second pass tries to append to the array `t`.
- `NoTimeAxis`: `np.diff(..., axis=1)` is applied to the 1-D seed.

Three behaviours of the code are modelled as written:
- **No step.** When `T <= 0` the loop body never runs, so `paths` stays the 1-D `y0`.
  `get_paths` then returns that vector, and `get_diff_paths` fails with `NoTimeAxis`.
  The class docstring (RungeKutta.py:25-32) promises a `k`-by-`len(t)` array and a
  `k`-by-`(len(t)-1)` array instead. The model follows the code, and defines the
  documented views beside it (see Findings).
- **A step that is not positive.** With `T > 0` and `delta_t <= 0` the clock never
  reaches `T`, so a first pass ends only when some step raises, and then fails with that
  step's error. `Trajectory.Halts` says when a pass ends, and `Iterate` requires it of a
  first pass (`RungeKutta.Terminates`).
- **A second pass.** With `T > 0`, a second `iterate` evaluates its first step and then
  fails on `self.t.append`, because `t` is now an array. With `T <= 0` it only transposes
  the 1-D seed again, which changes nothing.

Timing of the stages, kept from the code: `tn` is advanced before `k1` is evaluated
(lines 52-53). The state recorded at `tn` is computed from the state recorded at
`tn - delta_t`, with `k1` at `tn`, `k2` and `k3` at `tn + delta_t/2` and `k4` at
`tn + delta_t`: every stage is one step late. For a derivative that depends on time alone
a step adds Simpson's rule over `[tn, tn + delta_t]` (`Rk4.StepTimeOnlyIsSimpson`), the
interval after the recorded time instead of the one before it. For a cubic in `t` that is
the exact integral over the wrong interval (`Rk4.StepCubicLate`). When `f` ignores `t` the
stage times do not matter, and the step is the classical one (`Rk4.DepartureStepAutonomous`).
See Findings.

## Model

| member | source | states |
|---|---|---|
| `RungeKutta.Init` | RungeKutta.py:35-41 | construction records only the seed: times `[0]` and the 1-D array `y0`; the object is fresh and keeps `T`, `y0` and `delta_t`, and `get_paths` returns exactly the seed |
| `RungeKutta.Iterate` | RungeKutta.py:48-63 | for a pass that ends (`Terminates`: the object was already iterated, or `Trajectory.Halts`), the method computes the reference pass `Run`; a successful pass leaves a valid, iterated object with `T`, `y0` and `delta_t` unchanged, whose state columns each follow the RK4 rule from the previous one; on an object already iterated it succeeds exactly when `T <= 0` |
| `RungeKutta.StepLoop` | RungeKutta.py:49-61 | for any pass that ends, including one with `delta_t <= 0` that ends when a step fails, the `while tn < T` loop records exactly the reference trajectory `Trace`, with times and stacked states in lockstep, or fails with the error of the first step that fails |
| `RungeKutta.RunIsValid` | RungeKutta.py:48-63 | after a successful pass the object satisfies `Integrator.Valid`: the times start at 0 and go up by `delta_t`; every time but the last is before `T` and the last is not; `paths` is `k`-by-`len(t)` with first column `y0`; and each column is one RK4 step from the column before it |
| `RungeKutta.GetPaths` | RungeKutta.py:65-66 | the view starts at time 0; it is the 1-D `y0` exactly when one time is recorded; otherwise it is a well-formed `k`-by-`len(t)` array whose first column is `y0` |
| `RungeKutta.DropLast` | RungeKutta.py:69 | `t[:-1]` is one shorter than `t` and agrees with `t` on every remaining index |
| `RungeKutta.GetDiffPaths` | RungeKutta.py:68-69 | succeeds exactly after a pass that took steps, and fails with `NoTimeAxis` otherwise; the times are `t` without its last entry; the differences are `k`-by-`(len(t)-1)`, and column `i` is state column `i+1` minus state column `i` |
| `RungeKutta.IntendedPaths` | RungeKutta.py:25-28 | the `get_paths` result the docstring promises, for every valid object: the times, and a `k`-by-`len(t)` array whose first column is `y0`; it equals `GetPaths` whenever `paths` is 2-D |
| `RungeKutta.IntendedDiffPaths` | RungeKutta.py:30-32 | the `get_diff_paths` result the docstring promises, for every valid object: `t` without its last entry, and a `k`-by-`(len(t)-1)` array whose column `i` is column `i+1` minus column `i` of `IntendedPaths`; it equals `GetDiffPaths` wherever that succeeds |
| `RungeKutta.TimeGrid` | RungeKutta.py:49-60 | after a pass that took steps, `t[i] == i * delta_t` and the times strictly increase |
| `RungeKutta.LastSampleOvershoot` | RungeKutta.py:51-52 | after a pass that took steps there are `StepCount + 1` samples, and the last time is at least `T` and less than `T + delta_t` |
| `RungeKutta.SecondIterate` | RungeKutta.py:60-62 | a second pass changes nothing when `T <= 0`; with `T > 0` it fails as not implemented for the stub `f`, and on the append for any `f` that keeps the dimension |
| `RungeKutta.FirstIterateErrors` | RungeKutta.py:45-59 | with an `f` that keeps the dimension, a first pass ends exactly when `T <= 0` or `delta_t > 0`, and then succeeds; with the stub `f` it always ends, succeeding exactly when `T <= 0` and otherwise failing as not implemented (the stub returns `None`, and line 54 cannot use it) |
| `RungeKutta.ZeroDerivativeKeepsSeed` | RungeKutta.py:49-63 | with `f` identically zero, a pass that ends succeeds, and every state column equals `y0` |
| `RungeKutta.DiffPathsAccumulate` | RungeKutta.py:68-69 | the differenced view loses no information: running sums of each differenced row, started at the row's first entry, rebuild that row of `paths` |
| `Rk4.Eval` | RungeKutta.py:45-46 | one call of `f` succeeds exactly when `f` is supplied and returns a vector of the state's length, and then returns that vector; the stub fails as not implemented, and a wrong length fails as a dimension mismatch |
| `Rk4.EvalStages` | RungeKutta.py:53-58 | when all four stage evaluations succeed, every stage has the state's dimension; the arguments of the four evaluations are stated by `Rk4.StepRule` |
| `Rk4.Step` | RungeKutta.py:52-59 | a step succeeds exactly when its four stages do, fails with the stages' error otherwise, and keeps the dimension |
| `Rk4.Nudge` | RungeKutta.py:54-58 | the state at which a later stage is evaluated is `y + h * k` component by component, where `h` is `delta_t/2` for `k2` and `k3` and `delta_t` for `k4` |
| `Rk4.StepRule` | RungeKutta.py:53-59 | a successful step has a supplied `f`; its stages are `k1 = f(tn, y)`, `k2 = f(tn + delta_t/2, y + delta_t/2 k1)`, `k3 = f(tn + delta_t/2, y + delta_t/2 k2)` and `k4 = f(tn + delta_t, y + delta_t k3)`; and each component of the new state (`Combine`) is `y[j] + delta_t/6 * (k1[j] + 2 k2[j] + 2 k3[j] + k4[j])` |
| `Rk4.StepSucceedsWhenDimensionKept` | RungeKutta.py:53-58 | a step never fails for an `f` that maps `k`-vectors to `k`-vectors |
| `Rk4.StepUnbound` | RungeKutta.py:45-46 | with the stub `f` a step fails as not implemented |
| `Rk4.StepWrongDimension` | RungeKutta.py:53 | when `f(tn, y)` has the wrong length, the step fails at its first stage with a dimension mismatch |
| `Rk4.StepZeroDerivative` | RungeKutta.py:52-59 | with `f` identically zero a step returns the state unchanged |
| `Rk4.StepTimeOnlyIsSimpson` | RungeKutta.py:52-59 | for `f(t, y) = g(t)` a step adds `delta_t/6 * (g(tn) + 4 g(tn + delta_t/2) + g(tn + delta_t))`, Simpson's rule over `[tn, tn + delta_t]` |
| `Rk4.StepConstantDerivative` | RungeKutta.py:52-59 | for a constant derivative `c` the weights add up to one whole step: the state moves by exactly `delta_t * c` |
| `Rk4.StepLinearField` | RungeKutta.py:52-59 | for the linear field `f(t, y) = a y` one step multiplies the state by `1 + h a + (h a)^2/2 + (h a)^3/6 + (h a)^4/24` with `h = delta_t`: the Taylor polynomial of the exact factor `exp(h a)` to fourth order |
| `Rk4.StepScalarTimeOnly` | RungeKutta.py:52-59 | for a one-dimensional `f` that depends on time alone, with values `p`, `q` and `e` at `tn`, `tn + delta_t/2` and `tn + delta_t`, a step adds Simpson's rule `delta_t/6 * (p + 4 q + e)` to the state |
| `Rk4.StepCubicLate` | RungeKutta.py:52-59 | for `f(t, y) = c0 + c1 t + c2 t^2 + c3 t^3` a step taken at `tn` adds the exact integral of `f` over `[tn, tn + delta_t]`, an interval that starts at the time the new state is recorded at |
| `Rk4.DepartureStep` | RungeKutta.py:6-8 | the Runge-Kutta step for `dy = f(t, y) dt` that the docstring names: the state at `tn` from the state at `tn - delta_t`, with stages at `tn - delta_t`, `tn - delta_t/2` and `tn`; it succeeds exactly when those stages do, and keeps the dimension |
| `Rk4.DepartureStepCubicExact` | RungeKutta.py:6-8 | for a cubic time field the departure-time step adds the exact integral over `[tn - delta_t, tn]`, so it records the solution at `tn` |
| `Rk4.DepartureStepAutonomous` | RungeKutta.py:52-58 | for an `f` that ignores `t` the code's step and the departure-time step give the same result |
| `Trajectory.ClockIsMultiple` | RungeKutta.py:49-52 | `Clock(delta_t, n)`, the `tn` after `n` additions of `delta_t` to 0, is `n * delta_t` |
| `Trajectory.ClockNeverAdvances` | RungeKutta.py:51-52 | with `delta_t <= 0` and `T > 0` the clock never passes 0, so the guard `tn < T` stays true and the loop ends only if a step fails |
| `Trajectory.ClockIncreasing` | RungeKutta.py:52 | with `delta_t > 0` a later clock reading is strictly greater |
| `Trajectory.RecurrenceFollowsClock` | RungeKutta.py:49-60 | times that start at 0 and go up by `delta_t` are the clock's readings |
| `Trajectory.StepCountBrackets` | RungeKutta.py:51-52 | `StepCount(T, delta_t)`, the number of steps the loop takes, is 0 for `T <= 0`; otherwise `StepCount * delta_t` reaches `T` and one step fewer does not |
| `Trajectory.BeforeHorizonIff` | RungeKutta.py:51-52 | after `n` steps the loop guard still holds exactly when `n < StepCount` |
| `Trajectory.Prefix` | RungeKutta.py:51-61 | after `n` successful steps, `n + 1` times and `n + 1` states are recorded, starting with time 0 and `y0` |
| `Trajectory.PrefixTimes` | RungeKutta.py:52-60 | the `i`-th recorded time is the clock's `i`-th reading |
| `Trajectory.PrefixDims` | RungeKutta.py:53-61 | every recorded state has the dimension of `y0` |
| `Trajectory.PrefixSteps` | RungeKutta.py:52-61 | each recorded state is one RK4 step from the state before it, taken at its own recorded time |
| `Trajectory.PrefixFailurePersists` | RungeKutta.py:53-59 | once a step has failed, every longer pass fails with the same error |
| `Trajectory.PrefixStep` | RungeKutta.py:52-61 | one more loop iteration appends the advanced time and the new state, or fails with the step's error |
| `Trajectory.PrefixZeroDerivative` | RungeKutta.py:52-59 | with `f` identically zero every recorded state is `y0` |
| `Trajectory.PrefixSucceeds` | RungeKutta.py:53-61 | a pass never fails for an `f` that keeps the dimension |
| `Trajectory.Trace` | RungeKutta.py:48-61 | a pass that ends records at least the seed, with times and states in lockstep, time 0 and `y0` first; only `[0]` when `T <= 0`; with `T > 0` a successful pass has `delta_t > 0` and `StepCount + 1` samples |
| `Trajectory.TraceFailsAt` | RungeKutta.py:51-59 | a step that fails before the clock reaches `T`, for any `delta_t`, makes the pass end and fail with that step's error |
| `Trajectory.TraceStopsAt` | RungeKutta.py:51 | once the clock has reached `T` after `n` steps, the pass has recorded exactly those `n` steps |
| `Trajectory.TraceTimes` | RungeKutta.py:49-60 | the recorded times are the clock's readings: they start at 0 and go up by `delta_t` |
| `Trajectory.TraceReachesHorizon` | RungeKutta.py:51-52 | with `T > 0` every recorded time but the last is before `T`, and the last is not |
| `Trajectory.TraceDims` | RungeKutta.py:53-61 | every recorded state has the dimension of `y0` |
| `Trajectory.TraceSteps` | RungeKutta.py:52-61 | each recorded state is one RK4 step from the one before it |
| `Trajectory.TraceZeroDerivative` | RungeKutta.py:52-61 | with `f` identically zero the pass succeeds, and every recorded state is `y0` |
| `Trajectory.TraceErrors` | RungeKutta.py:45-59 | a pass that ends with an `f` that keeps the dimension and `T <= 0` or `delta_t > 0` succeeds; with the stub `f` every pass ends, succeeding exactly when `T <= 0` and otherwise failing as not implemented |
| `Trajectory.HaltsWhenDimensionKept` | RungeKutta.py:51-59 | with an `f` that keeps the dimension no step fails, so a pass ends exactly when `T <= 0` or `delta_t > 0`; with `T > 0` and `delta_t <= 0` it loops forever |
| `Arrays.VStack` | RungeKutta.py:61 | stacking a state under the buffer gives a well-formed 2-D array with that state as its last row and one more row (two rows when the buffer was the 1-D seed) |
| `Arrays.Stack` | RungeKutta.py:41-61 | the recorded states, seen as one array, are well formed when they share a dimension, and stay 1-D exactly when only the seed is recorded |
| `Arrays.VStackExtendsStack` | RungeKutta.py:61 | one more `vstack` is the stack of the states with the new one appended |
| `Arrays.Transpose` | RungeKutta.py:63 | `.T` leaves a 1-D array alone and swaps the rows and columns of a 2-D one, entry by entry |
| `Arrays.TransposeTwice` | RungeKutta.py:63 | transposing twice gives back the array |
| `Arrays.ColumnOfTranspose` | RungeKutta.py:61-63 | after stacking and transposing, column `i` is the `i`-th recorded state |
| `Arrays.Diff` | RungeKutta.py:69 | `np.diff(..., axis=1)` fails on a 1-D array; on a 2-D array it keeps the rows, is one column narrower, and holds the consecutive differences of each row |
| `Arrays.DiffColumns` | RungeKutta.py:69 | column `i` of `np.diff(..., axis=1)` is column `i+1` minus column `i` |
| `Arrays.AccumulateDifferences` | RungeKutta.py:69 | running sums of a row's differences, started at its first entry, give back the row |
| `Arrays.DifferencesAccumulate` | RungeKutta.py:69 | the differences of running sums are the summands |
| `Scenarios.ZeroHorizon` | RungeKutta.py:48-69 | with `T = 0` the pass succeeds for any `f` and `delta_t`; `get_paths` is `([0], y0)` and `get_diff_paths` fails |
| `Scenarios.ZeroHorizonIntended` | RungeKutta.py:25-32 | with `T = 0` the documented views give `y0` as a `k`-by-1 array, and no times with `k` empty rows of differences |
| `Scenarios.OneStepZeroDerivative` | RungeKutta.py:48-69 | `T = 1`, `y0 = [1]`, `delta_t = 1`, `f = 0`: times `[0, 1]`, states `[[1, 1]]`, differenced times `[0]`, differences `[[0]]` |
| `Scenarios.OneStepTrace` | RungeKutta.py:49-61 | that pass records times `[0, 1]` and states `[1]`, `[1]` |
| `Scenarios.OneStepRun` | RungeKutta.py:48-63 | after that pass the object holds times `[0, 1]` and the transposed states `[[1, 1]]` |
| `Scenarios.OneStepViews` | RungeKutta.py:65-69 | that object is valid, and its two views are the ones listed above |
| `Scenarios.Overshoot` | RungeKutta.py:51-60 | `T = 1`, `delta_t = 0.3`: times `[0, 0.3, 0.6, 0.9, 1.2]`, four steps, the last overshooting `T` |
| `Scenarios.LateFirstStep` | RungeKutta.py:48-60 | `f(t, y) = t`, `y0 = [0]`, `delta_t = h`: the first step records `3 h^2 / 2` at time `h`, while the departure-time step gives `h^2 / 2`, the solution of `dy = t dt` at `h`; the two differ whenever `h != 0` |
| `Scenarios.StuckClock` | RungeKutta.py:51-59 | `T = 1`, `delta_t = 0`: with `f = 0` the pass never ends; with the stub `f` it ends, failing as not implemented |

## Left out

- Floating point: arithmetic is over exact reals. With IEEE doubles the accumulated `tn`
  can fall just short of `T`, giving one more step than the model (`T = 1`,
  `delta_t = 0.1`). Non-finite values (NaN, infinities) are not modelled.
- Non-termination: a first pass with `T > 0` and `delta_t <= 0` in which no step fails
  loops forever in the code, for instance with any `f` that keeps the dimension
  (`Trajectory.HaltsWhenDimensionKept`). `Iterate` requires `Terminates`, which excludes
  exactly those passes; passes with `delta_t <= 0` that end because a step raises are
  modelled. The code has no step-size check, and neither does the model.
- `RungeKutta.Iterate`: a pass that fails part-way is modelled only by its error. The
  times and states already appended to the object before the failing step are not kept.
- `Rk4.EvalStages`: its contract gives only the lengths of the stages. The arguments of
  the four evaluations are stated once, by `Rk4.StepRule`, so that every unfolding of a
  step does not carry them.
- numpy: broadcasting, array dtype and casting are not modelled, and neither is the
  in-place `+=` on an integer `y0`. An `f` that returns a vector of the wrong length fails
  with `DimensionMismatch`, where numpy would broadcast a length-1 result or raise its own
  error.
- The subclass and `params` mechanism: the class-level `params` slot and the override of
  `f` are folded into the `Bound` function value.
- Dimension zero: `k = 0` is not rejected by the code or the model.
- Numerical accuracy: convergence over many steps is not stated. Only the one-step factor
  for a linear field is (`Rk4.StepLinearField`), with the one-step results for cubic time
  fields (`Rk4.StepCubicLate`, `Rk4.DepartureStepCubicExact`).

## Findings

| source | as written | input that shows it | evidently intended | confidence | as-written member | corrected member |
|---|---|---|---|---|---|---|
| RungeKutta.py:25-32 | when no step is taken, `paths` stays the 1-D `y0` (lines 41, 63): `get_paths` returns a length-`k` vector, and `get_diff_paths` raises because `np.diff(..., axis=1)` has no axis 1 (line 69) | `T = 0`, any `y0`, `delta_t` and `f` | the shapes the docstring promises: `y0` as a `k`-by-1 array, and no differenced times with a `k`-by-0 array | medium; not executed | `Scenarios.ZeroHorizon` | `RungeKutta.IntendedDiffPaths` |
| RungeKutta.py:52-58 | `tn` is advanced before the stages (line 52), so the state recorded at `tn` is built from `k1` at `tn` and `k4` at `tn + delta_t`; for an `f` of time alone it adds the integral over `[tn, tn + delta_t]` | `f(t, y) = t`, `y0 = [0]`, `delta_t = h`, `T >= h`: the state recorded at time `h` is `3 h^2 / 2`, where the solution of `dy = t dt` is `h^2 / 2` | the Runge-Kutta method of the docstring (lines 6-7): stages at `tn - delta_t`, `tn - delta_t/2` and `tn`, giving `h^2 / 2` here and the exact solution for any cubic time field | medium; not executed | `Scenarios.LateFirstStep` | `Rk4.DepartureStepCubicExact` |

The object model keeps the code's behaviour. `RungeKutta.IntendedPaths` and
`RungeKutta.IntendedDiffPaths` give the documented views for every valid object, and their
contracts prove that they agree with `GetPaths` and `GetDiffPaths` wherever a step was
taken. `Scenarios.ZeroHorizonIntended` works out the `T = 0` case. In the same way the
object model keeps the code's stage times. `Rk4.DepartureStep` is the step with the stage
times the docstring implies, and it is defined beside `Rk4.Step`. `Rk4.DepartureStepAutonomous`
proves that the two agree for every `f` that ignores `t`.
