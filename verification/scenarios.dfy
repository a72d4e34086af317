/** Small examples of the integrator, worked out exactly. */
module Scenarios {
  import opened Vectors
  import opened Errors
  import opened Arrays
  import opened Rk4
  import opened Simpson
  import opened Trajectory
  import opened RungeKutta

  /** `T = 0`: no step is taken, only the seed is recorded, and the differenced view fails
      because `paths` is still the 1-D `y0`. */
  lemma ZeroHorizon(y0: Vector, dt: real, d: Derivative)
    ensures var r := Run(Init(0.0, y0, dt), d);
      && r.Ok?
      && GetPaths(r.value) == ([0.0], Flat(y0))
      && GetDiffPaths(r.value) == Err(NoTimeAxis)
  {
  }

  /** `T = 0` under the documented views: `y0` as a `k`-by-1 array, and no times with
      `k` empty rows of differences. */
  lemma ZeroHorizonIntended(y0: Vector, dt: real, d: Derivative)
    ensures var r := Run(Init(0.0, y0, dt), d);
      && r.Ok? && r.value.Valid()
      && IntendedPaths(r.value).0 == [0.0]
      && IntendedPaths(r.value).1 == AsColumn(Flat(y0))
      && IntendedDiffPaths(r.value).0 == []
      && IntendedDiffPaths(r.value).1 == Grid(0, seq(|y0|, j => []))
  {
    var r := Run(Init(0.0, y0, dt), d).value;
    var e := IntendedDiffPaths(r).1;
    assert |e.rows| == |y0|;
    forall j | 0 <= j < |y0|
      ensures e.rows[j] == []
    {
      assert |e.rows[j]| == 0;
    }
  }

  /** The trajectory behind `OneStepZeroDerivative`: one step, to time 1, that keeps the
      state at 1. */
  lemma OneStepTrace()
    ensures Trace(Bound(ZeroField()), 1.0, 1.0, [1.0]) == Ok(Samples([0.0, 1.0], [[1.0], [1.0]]))
  {
    StepCountBrackets(1.0, 1.0);
    assert StepCount(1.0, 1.0) == 1;
    assert Trace(Bound(ZeroField()), 1.0, 1.0, [1.0])
           == Prefix(Bound(ZeroField()), 1.0, [1.0], StepCount(1.0, 1.0));
    assert Clock(1.0, 1) == 1.0;
    StepZeroDerivative(1.0, 1.0, [1.0]);
    assert Prefix(Bound(ZeroField()), 1.0, [1.0], 1)
           == Ok(Samples([0.0] + [1.0], [[1.0]] + [[1.0]]));
    assert [0.0] + [1.0] == [0.0, 1.0];
    assert [[1.0]] + [[1.0]] == [[1.0], [1.0]];
  }

  /** The object after that pass. */
  lemma OneStepRun()
    ensures Run(Init(1.0, [1.0], 1.0), Bound(ZeroField()))
            == Ok(Integrator(1.0, [1.0], 1.0, [0.0, 1.0], Grid(2, [[1.0, 1.0]]), Iterated))
  {
    var s := Init(1.0, [1.0], 1.0);
    OneStepTrace();
    var p := Transpose(Grid(1, [[1.0], [1.0]]));
    assert p.rows[0] == [1.0, 1.0];
    assert p == Grid(2, [[1.0, 1.0]]);
    assert Stack(s.Dim(), [[1.0], [1.0]]) == Grid(1, [[1.0], [1.0]]);
    assert Run(s, Bound(ZeroField())) == Ok(s.(times := [0.0, 1.0], paths := p, phase := Iterated));
  }

  /** The views of the object after that pass. */
  lemma OneStepViews()
    ensures var r := Integrator(1.0, [1.0], 1.0, [0.0, 1.0], Grid(2, [[1.0, 1.0]]), Iterated);
      && r.Valid()
      && GetPaths(r) == ([0.0, 1.0], Grid(2, [[1.0, 1.0]]))
      && GetDiffPaths(r) == Ok(([0.0], Grid(1, [[0.0]])))
  {
    var p := Grid(2, [[1.0, 1.0]]);
    var r := Integrator(1.0, [1.0], 1.0, [0.0, 1.0], p, Iterated);
    assert Column(p, 0) == [1.0];
    var diffs := Diff(p).value;
    assert diffs.rows[0] == [0.0];
    assert diffs == Grid(1, [[0.0]]);
    assert DropLast(r.times) == [0.0];
  }

  /** `T = 1`, `y0 = [1]`, `dt = 1`, zero derivative: one step to time 1, the state stays 1,
      and the single difference is 0. */
  lemma OneStepZeroDerivative()
    ensures var r := Run(Init(1.0, [1.0], 1.0), Bound(ZeroField()));
      && r.Ok? && r.value.Valid()
      && GetPaths(r.value) == ([0.0, 1.0], Grid(2, [[1.0, 1.0]]))
      && GetDiffPaths(r.value) == Ok(([0.0], Grid(1, [[0.0]])))
  {
    OneStepRun();
    OneStepViews();
  }

  /** `T = 1`, `dt = 0.3`: four steps, the last one overshooting the horizon by 0.2. */
  lemma Overshoot(y0: Vector)
    ensures var r := Run(Init(1.0, y0, 0.3), Bound(ZeroField()));
      r.Ok? && r.value.times == [0.0, 0.3, 0.6, 0.9, 1.2]
  {
    var s := Init(1.0, y0, 0.3);
    StepCountBrackets(1.0, 0.3);
    assert StepCount(1.0, 0.3) == 4;
    ZeroDerivativeKeepsSeed(s);
    var r := Run(s, Bound(ZeroField())).value;
    RunIsValid(s, Bound(ZeroField()));
    TimeGrid(r);
  }

  /** `T = 1`, `dt = 0`: the clock never moves, so the pass runs until a step fails. With a
      zero derivative no step fails and the pass never ends; with the base-class derivative
      the first step fails as not implemented. */
  lemma StuckClock(y0: Vector)
    ensures !Terminates(Init(1.0, y0, 0.0), Bound(ZeroField()))
    ensures Terminates(Init(1.0, y0, 0.0), Unbound)
    ensures Run(Init(1.0, y0, 0.0), Unbound) == Err(NotImplemented)
  {
    var s := Init(1.0, y0, 0.0);
    HaltsWhenDimensionKept(ZeroField(), 1.0, 0.0, y0);
    FirstIterateErrors(s, ZeroField());
  }

  /** `dy = t dt` from `y0 = [0]`, whose solution is `t^2 / 2`. The first step records
      `3 h^2 / 2` at time `h`, the integral over `[h, 2 h]`, where the solution is `h^2 / 2`;
      the departure-time step records `h^2 / 2`. */
  lemma LateFirstStep(h: real)
    ensures Prefix(Bound(CubicField(0.0, 1.0, 0.0, 0.0)), h, [0.0], 1)
            == Ok(Samples([0.0, h], [[0.0], [3.0 * h * h / 2.0]]))
    ensures DepartureStep(Bound(CubicField(0.0, 1.0, 0.0, 0.0)), h, h, [0.0]) == Ok([h * h / 2.0])
    ensures h != 0.0 ==> 3.0 * h * h / 2.0 != h * h / 2.0
  {
    var d := Bound(CubicField(0.0, 1.0, 0.0, 0.0));
    assert Clock(h, 1) == h;
    StepCubicLate(0.0, 1.0, 0.0, 0.0, h, h, 0.0);
    assert CubicIntegral(0.0, 1.0, 0.0, 0.0, h + h) - CubicIntegral(0.0, 1.0, 0.0, 0.0, h)
           == 3.0 * h * h / 2.0;
    assert Step(d, h, Clock(h, 1), [0.0]) == Ok([3.0 * h * h / 2.0]);
    assert Prefix(d, h, [0.0], 1) == Ok(Samples([0.0] + [h], [[0.0]] + [[3.0 * h * h / 2.0]]));
    assert [0.0] + [h] == [0.0, h];
    assert [[0.0]] + [[3.0 * h * h / 2.0]] == [[0.0], [3.0 * h * h / 2.0]];
    DepartureStepCubicExact(0.0, 1.0, 0.0, 0.0, h, h, 0.0);
    assert CubicIntegral(0.0, 1.0, 0.0, 0.0, h) - CubicIntegral(0.0, 1.0, 0.0, 0.0, h - h)
           == h * h / 2.0;
  }
}
