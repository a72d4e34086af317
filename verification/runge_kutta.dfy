/** The `RungeKutta` class: configuration, the one stepping pass, and the two result views. */
module RungeKutta {
  import opened Vectors
  import opened Errors
  import opened Arrays
  import opened Rk4
  import opened Trajectory

  /** Before and after the stepping pass. */
  datatype Phase = Fresh | Iterated

  /** The object's fields: `T`, `y0`, `delta_t`, the time buffer `t`, the state buffer `paths`. */
  datatype Integrator = Integrator(
    horizon: real,
    y0: Vector,
    dt: real,
    times: seq<real>,
    paths: Array,
    phase: Phase)
  {
    /** `k`, the dimension of the state. */
    function Dim(): nat {
      |y0|
    }

    /** Only the seed is recorded: time 0 and the 1-D array `y0`. */
    predicate Seeded() {
      times == [0.0] && paths == Flat(y0)
    }

    /** The states the object can be in. Fresh, or after a pass that took no step, it holds
        the seed only. After a pass that took steps: the times start at 0 and go up by
        `dt`, every time but the last is before `T` and the last is not, and `paths` is a
        `k`-by-`len(t)` array whose first column is `y0`. */
    predicate Valid() {
      match phase
      case Fresh => Seeded()
      case Iterated =>
        if horizon <= 0.0 then Seeded()
        else
          && 0.0 < dt
          && 2 <= |times|
          && times[0] == 0.0
          && (forall i :: 0 <= i < |times| - 1 ==> times[i + 1] == times[i] + dt)
          && (forall i :: 0 <= i < |times| - 1 ==> times[i] < horizon)
          && horizon <= times[|times| - 1]
          && paths.Grid? && paths.WellFormed()
          && |paths.rows| == |y0| && paths.width == |times|
          && Column(paths, 0) == y0
    }
  }

  /** `RungeKutta(T, y0, delta_t)`: the seed `(0, y0)` is recorded and no step is taken. */
  function Init(T: real, y0: Vector, dt: real): (r: Integrator)
    ensures r.Valid() && r.phase == Fresh
    ensures r.horizon == T && r.y0 == y0 && r.dt == dt && r.Dim() == |y0|
    ensures GetPaths(r) == ([0.0], Flat(y0))
  {
    Integrator(T, y0, dt, [0.0], Flat(y0), Fresh)
  }

  /** The stepping pass returns. A second pass always does: with a positive horizon it
      fails within its first step. A first pass does when it takes no step, when its step
      is positive, or when some step fails (see `Halts`). */
  ghost predicate Terminates(s: Integrator, d: Derivative) {
    s.phase == Iterated || Halts(d, s.horizon, s.dt, s.y0)
  }

  /** Each recorded state is the Runge-Kutta step from the one before it, taken at the
      later sample's time. */
  predicate FollowsRk4(d: Derivative, s: Integrator)
    requires s.Valid()
  {
    s.paths.Grid? ==>
      forall i :: 0 <= i < |s.times| - 1 ==>
        Step(d, s.dt, s.times[i + 1], Column(s.paths, i)) == Ok(Column(s.paths, i + 1))
  }

  /** What `iterate` does, defined through the recursive trajectory. A first pass records the
      trajectory and transposes the stacked states. A second pass with a positive horizon
      takes its first step and then fails to append to the time array; with no step to take
      it only transposes `paths` once more. */
  ghost function Run(s: Integrator, d: Derivative): Result<Integrator>
    requires s.Valid() && Terminates(s, d)
  {
    match s.phase
    case Fresh =>
      (match Trace(d, s.horizon, s.dt, s.y0)
       case Err(e) => Err(e)
       case Ok(tr) =>
         TraceDims(d, s.horizon, s.dt, s.y0);
         Ok(s.(times := tr.times, paths := Transpose(Stack(s.Dim(), tr.states)), phase := Iterated)))
    case Iterated =>
      if 0.0 < s.horizon then
        var _ :- Step(d, s.dt, 0.0 + s.dt, s.y0);
        Err(AlreadyIterated)
      else
        Ok(s.(paths := Transpose(s.paths)))
  }

  /** `iterate()`. A first pass runs the stepping loop and transposes the stacked states.
      A second pass with a positive horizon takes its first step and then fails where it
      appends to `self.t`, which the first pass turned into an array. */
  method Iterate(s: Integrator, d: Derivative) returns (r: Result<Integrator>)
    requires s.Valid() && Terminates(s, d)
    ensures r == Run(s, d)
    ensures r.Ok? ==> r.value.Valid() && r.value.phase == Iterated
    ensures r.Ok? ==> r.value.horizon == s.horizon && r.value.y0 == s.y0 && r.value.dt == s.dt
    ensures r.Ok? ==> FollowsRk4(d, r.value)
    ensures s.phase == Iterated ==> (r.Ok? <==> s.horizon <= 0.0)
  {
    if s.phase == Iterated {
      var tn := 0.0;
      if tn < s.horizon {
        tn := tn + s.dt;
        var next := Step(d, s.dt, tn, s.y0);
        if next.Err? {
          return Err(next.error);
        }
        return Err(AlreadyIterated);
      }
      return Ok(s.(paths := Transpose(s.paths)));
    }
    var recorded := StepLoop(d, s.horizon, s.dt, s.y0);
    if recorded.Err? {
      return Err(recorded.error);
    }
    TraceDims(d, s.horizon, s.dt, s.y0);
    r := Ok(s.(times := recorded.value.0, paths := Transpose(recorded.value.1), phase := Iterated));
    RunIsValid(s, d);
  }

  /** The loop of a first pass, from the seed buffers `[0]` and `y0` that construction
      leaves: while `tn < T`, advance `tn` by `dt`, take one Runge-Kutta step from `yn`,
      append `tn` to the times and stack `yn` under the states. It records exactly the
      reference trajectory, or fails with the failure of the first step that fails. The
      ghost `bound` is the most steps it can take. */
  method StepLoop(d: Derivative, T: real, dt: real, y0: Vector) returns (r: Result<(seq<real>, Array)>)
    requires Halts(d, T, dt, y0)
    ensures var tr := Trace(d, T, dt, y0);
      && (r.Ok? <==> tr.Ok?)
      && (r.Err? ==> r.error == tr.error)
      && (r.Ok? ==> r.value.0 == tr.value.times && r.value.1 == Stack(|y0|, tr.value.states))
  {
    var tn := 0.0;
    var yn := y0;
    var times := [0.0];
    var paths := Flat(y0);
    ghost var states := [y0];
    ghost var n: nat := 0;
    ghost var bound := StepBound(d, T, dt, y0);
    while tn < T
      invariant tn == Clock(dt, n) && n <= bound
      invariant T <= 0.0 ==> n == 0
      invariant dt <= 0.0 ==> tn <= 0.0
      invariant |times| == |states| == n + 1 && yn == states[n]
      invariant paths == Stack(|y0|, states)
      invariant Prefix(d, dt, y0, n) == Ok(Samples(times, states))
      decreases bound - n
    {
      StepsRemain(d, T, dt, y0, n);
      tn := tn + dt;
      var next := Step(d, dt, tn, yn);
      PrefixStep(d, dt, y0, n, times, states, tn, next);
      if next.Err? {
        TraceFailsAt(d, T, dt, y0, n + 1);
        return Err(next.error);
      }
      yn := next.value;
      PrefixDims(d, dt, y0, n);
      VStackExtendsStack(|y0|, states, yn);
      times := times + [tn];
      paths := VStack(paths, yn);
      states := states + [yn];
      n := n + 1;
    }
    if 0.0 < T {
      // The loop exited with T <= tn, and dt <= 0 would keep tn <= 0 < T.
      assert 0.0 < dt;
      TraceStopsAt(d, T, dt, y0, n);
    }
    assert Trace(d, T, dt, y0) == Prefix(d, dt, y0, n);
    r := Ok((times, paths));
  }

  /** How many steps the loop of a first pass can take at most: the step count, or with a
      step that is not positive the index of a step that fails. */
  ghost function StepBound(d: Derivative, T: real, dt: real, y0: Vector): (r: nat)
    requires Halts(d, T, dt, y0)
    ensures 0.0 < T && 0.0 < dt ==> r == StepCount(T, dt)
    ensures 0.0 < T && dt <= 0.0 ==> Prefix(d, dt, y0, r).Err?
  {
    if T <= 0.0 then 0
    else if 0.0 < dt then StepCount(T, dt)
    else var n: nat :| Prefix(d, dt, y0, n).Err?; n
  }

  /** Inside the loop of a first pass another step is due: the horizon is positive and the
      step count, or the failing step, is still ahead. */
  lemma StepsRemain(d: Derivative, T: real, dt: real, y0: Vector, n: nat)
    requires Halts(d, T, dt, y0)
    requires Clock(dt, n) < T && (T <= 0.0 ==> n == 0) && n <= StepBound(d, T, dt, y0)
    requires Prefix(d, dt, y0, n).Ok?
    ensures 0.0 < T && n < StepBound(d, T, dt, y0)
  {
    if 0.0 < dt {
      BeforeHorizonIff(T, dt, n);
    }
  }

  /** A successful pass leaves the object iterated, with its configuration untouched, in a
      valid state whose columns follow the Runge-Kutta rule. */
  lemma RunIsValid(s: Integrator, d: Derivative)
    requires s.Valid() && Terminates(s, d)
    ensures var r := Run(s, d);
      r.Ok? ==>
        && r.value.phase == Iterated
        && r.value.horizon == s.horizon && r.value.y0 == s.y0 && r.value.dt == s.dt
        && r.value.Valid() && FollowsRk4(d, r.value)
  {
    var r := Run(s, d);
    if s.phase == Fresh && r.Ok? {
      TraceTimes(d, s.horizon, s.dt, s.y0);
      TraceDims(d, s.horizon, s.dt, s.y0);
      TraceSteps(d, s.horizon, s.dt, s.y0);
      var tr := Trace(d, s.horizon, s.dt, s.y0).value;
      if 0.0 < s.horizon {
        TraceReachesHorizon(d, s.horizon, s.dt, s.y0);
        forall i | 0 <= i < |tr.times|
          ensures Column(r.value.paths, i) == tr.states[i]
        {
          ColumnOfTranspose(s.Dim(), tr.states, i);
        }
      }
    }
  }

  /** `get_paths()`: the time buffer and the state buffer as they are. After a pass that took
      steps this is `len(t)` times and a `k`-by-`len(t)` array; otherwise the seed alone,
      with `paths` still the 1-D `y0`. */
  function GetPaths(s: Integrator): (r: (seq<real>, Array))
    requires s.Valid()
    ensures 1 <= |r.0| && r.0[0] == 0.0
    ensures |r.0| == 1 <==> r.1.Flat?
    ensures r.1.Flat? ==> r.1 == Flat(s.y0)
    ensures r.1.Grid? ==> r.1.WellFormed() && |r.1.rows| == s.Dim() && r.1.width == |r.0|
                          && Column(r.1, 0) == s.y0
  {
    (s.times, s.paths)
  }

  /** `t[:-1]`: every time but the last. */
  function DropLast(t: seq<real>): (r: seq<real>)
    ensures |r| == (if |t| == 0 then 0 else |t| - 1)
    ensures forall i :: 0 <= i < |r| ==> r[i] == t[i]
  {
    if |t| == 0 then [] else t[..|t| - 1]
  }

  /** `get_diff_paths()`: the times but the last, and the consecutive differences of the
      states. It fails while `paths` is the 1-D seed: before the pass, and after a pass
      that took no step. */
  function GetDiffPaths(s: Integrator): (r: Result<(seq<real>, Array)>)
    requires s.Valid()
    ensures r.Ok? <==> s.phase == Iterated && 0.0 < s.horizon
    ensures r.Err? ==> r.error == NoTimeAxis
    ensures r.Ok? ==> |r.value.0| == |s.times| - 1 && r.value.0 == s.times[..|s.times| - 1]
    ensures r.Ok? ==> r.value.1.Grid? && r.value.1.WellFormed()
                      && |r.value.1.rows| == s.Dim() && r.value.1.width == |s.times| - 1
    ensures r.Ok? ==> forall i :: 0 <= i < |s.times| - 1 ==>
                        Column(r.value.1, i) == Sub(Column(s.paths, i + 1), Column(s.paths, i))
  {
    var diffs :- Diff(s.paths);
    Ok((DropLast(s.times), diffs))
  }

  /** The result the class documentation promises from `get_paths`: `len(t)` times and a
      `k`-by-`len(t)` array. It differs from `GetPaths` only while `paths` is the 1-D seed,
      which it reads as a single column. */
  function IntendedPaths(s: Integrator): (r: (seq<real>, Array))
    requires s.Valid()
    ensures r.0 == s.times
    ensures r.1.Grid? && r.1.WellFormed() && |r.1.rows| == s.Dim() && r.1.width == |r.0|
    ensures Column(r.1, 0) == s.y0
    ensures s.paths.Grid? ==> r == GetPaths(s)
  {
    (s.times, AsColumn(s.paths))
  }

  /** The result the class documentation promises from `get_diff_paths`, for every object:
      `len(t) - 1` times and a `k`-by-`(len(t) - 1)` array of differences. Wherever
      `GetDiffPaths` succeeds the two agree; where it fails this gives no times and `k`
      empty rows. */
  function IntendedDiffPaths(s: Integrator): (r: (seq<real>, Array))
    requires s.Valid()
    ensures |r.0| == |s.times| - 1 && r.0 == s.times[..|s.times| - 1]
    ensures r.1.Grid? && r.1.WellFormed()
    ensures |r.1.rows| == s.Dim() && r.1.width == |s.times| - 1
    ensures forall i :: 0 <= i < |s.times| - 1 ==>
              Column(r.1, i) == Sub(Column(IntendedPaths(s).1, i + 1), Column(IntendedPaths(s).1, i))
    ensures GetDiffPaths(s).Ok? ==> GetDiffPaths(s).value == r
  {
    DiffColumns(AsColumn(s.paths));
    (DropLast(s.times), Diff(AsColumn(s.paths)).value)
  }

  /** After a pass that took steps the `i`-th time is exactly `i * dt`, and the times
      strictly increase. */
  lemma TimeGrid(s: Integrator)
    requires s.Valid() && s.phase == Iterated && 0.0 < s.horizon
    ensures forall i :: 0 <= i < |s.times| ==> s.times[i] == i as real * s.dt
    ensures forall i, j :: 0 <= i < j < |s.times| ==> s.times[i] < s.times[j]
  {
    forall i | 0 <= i < |s.times|
      ensures s.times[i] == Clock(s.dt, i) == i as real * s.dt
    {
      RecurrenceFollowsClock(s.times, s.dt, i);
      ClockIsMultiple(s.dt, i);
    }
    forall i, j | 0 <= i < j < |s.times|
      ensures s.times[i] < s.times[j]
    {
      RecurrenceFollowsClock(s.times, s.dt, i);
      RecurrenceFollowsClock(s.times, s.dt, j);
      ClockIncreasing(s.dt, i, j);
    }
  }

  /** After a pass that took steps there is one sample per step plus the seed, and the last
      time overshoots the horizon by less than one step. */
  lemma LastSampleOvershoot(s: Integrator)
    requires s.Valid() && s.phase == Iterated && 0.0 < s.horizon
    ensures |s.times| == StepCount(s.horizon, s.dt) + 1
    ensures s.horizon <= s.times[|s.times| - 1] < s.horizon + s.dt
  {
    var last := |s.times| - 1;
    RecurrenceFollowsClock(s.times, s.dt, last);
    RecurrenceFollowsClock(s.times, s.dt, last - 1);
    BeforeHorizonIff(s.horizon, s.dt, last);
    BeforeHorizonIff(s.horizon, s.dt, last - 1);
  }

  /** A pass on an object that has already been iterated: with a positive horizon it fails,
      as not implemented or on the mismatched first step if the derivative is at fault, and
      otherwise on the append; with no step to take it changes nothing. */
  lemma SecondIterate(s: Integrator, d: Derivative)
    requires s.Valid() && s.phase == Iterated
    ensures s.horizon <= 0.0 ==> Run(s, d) == Ok(s)
    ensures 0.0 < s.horizon && d.Unbound? ==> Run(s, d) == Err(NotImplemented)
    ensures 0.0 < s.horizon && d.Bound? && ReturnsDim(d.fn, s.Dim()) ==> Run(s, d) == Err(AlreadyIterated)
  {
    if 0.0 < s.horizon && d.Bound? && ReturnsDim(d.fn, s.Dim()) {
      StepSucceedsWhenDimensionKept(d.fn, s.dt, 0.0 + s.dt, s.y0);
    }
  }

  /** A first pass with a derivative that keeps the dimension of `y0` ends exactly when it
      takes no step or its step is positive, and then succeeds. With the base-class
      derivative it always ends, and succeeds exactly when no step is taken. */
  lemma FirstIterateErrors(s: Integrator, fn: (real, Vector) -> Vector)
    requires s.Valid() && s.phase == Fresh
    ensures ReturnsDim(fn, s.Dim()) ==>
              (Terminates(s, Bound(fn)) <==> s.horizon <= 0.0 || 0.0 < s.dt)
    ensures ReturnsDim(fn, s.Dim()) && Terminates(s, Bound(fn)) ==> Run(s, Bound(fn)).Ok?
    ensures Terminates(s, Unbound)
    ensures Run(s, Unbound).Ok? <==> s.horizon <= 0.0
    ensures 0.0 < s.horizon ==> Run(s, Unbound) == Err(NotImplemented)
  {
    TraceErrors(fn, s.horizon, s.dt, s.y0);
    if ReturnsDim(fn, s.Dim()) {
      HaltsWhenDimensionKept(fn, s.horizon, s.dt, s.y0);
    }
  }

  /** With a zero derivative every recorded state is `y0`: after the pass every column of
      `paths` equals `y0`. */
  lemma ZeroDerivativeKeepsSeed(s: Integrator)
    requires s.Valid() && s.phase == Fresh && Terminates(s, Bound(ZeroField()))
    ensures var r := Run(s, Bound(ZeroField()));
      && r.Ok?
      && (r.value.paths.Flat? ==> r.value.paths == Flat(s.y0))
      && (r.value.paths.Grid? ==>
            (&& r.value.paths.WellFormed() && r.value.paths.width == |r.value.times|
             && forall i :: 0 <= i < r.value.paths.width ==> Column(r.value.paths, i) == s.y0))
  {
    var d := Bound(ZeroField());
    HaltsWhenDimensionKept(ZeroField(), s.horizon, s.dt, s.y0);
    TraceZeroDerivative(s.horizon, s.dt, s.y0);
    TraceDims(d, s.horizon, s.dt, s.y0);
    var tr := Trace(d, s.horizon, s.dt, s.y0).value;
    var r := Run(s, d).value;
    if 1 < |tr.states| {
      forall i | 0 <= i < |tr.states|
        ensures Column(r.paths, i) == s.y0
      {
        ColumnOfTranspose(s.Dim(), tr.states, i);
      }
    }
  }

  /** The differenced view loses nothing: running sums of each differenced row, started from
      the row's first entry, give back that row of `paths`. */
  lemma DiffPathsAccumulate(s: Integrator)
    requires s.Valid() && s.phase == Iterated && 0.0 < s.horizon
    ensures var r := GetDiffPaths(s);
      r.Ok? && forall j :: 0 <= j < s.Dim() ==>
        Accumulate(s.paths.rows[j][0], r.value.1.rows[j]) == s.paths.rows[j]
  {
    var diffs := GetDiffPaths(s).value.1;
    forall j | 0 <= j < s.Dim()
      ensures Accumulate(s.paths.rows[j][0], diffs.rows[j]) == s.paths.rows[j]
    {
      var row := s.paths.rows[j];
      assert diffs.rows[j] == Differences(row);
      AccumulateDifferences(row);
    }
  }
}
