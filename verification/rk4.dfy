/** One step of the integrator: four evaluations of the derivative combined with the
    classical Runge-Kutta weights 1, 2, 2, 1, at stage times one step later than the
    classical method's (`StepCubicLate`). */
module Rk4 {
  import opened Vectors
  import opened Errors
  import opened Simpson

  /** The derivative `f(t, y, params)`. `Unbound` is the base class's own `f`, whose body
      is `pass`; `Bound` is an override or an assigned function, with `params` folded in. */
  datatype Derivative = Unbound | Bound(fn: (real, Vector) -> Vector)

  /** `fn` maps every state of length `k` to a derivative of length `k`. */
  ghost predicate ReturnsDim(fn: (real, Vector) -> Vector, k: nat) {
    forall t: real, y: Vector :: |y| == k ==> |fn(t, y)| == k
  }

  /** One call of the derivative at `(t, y)`. */
  function Eval(d: Derivative, t: real, y: Vector): (r: Result<Vector>)
    ensures r.Ok? <==> d.Bound? && |d.fn(t, y)| == |y|
    ensures r.Ok? ==> r.value == d.fn(t, y)
    ensures d.Unbound? ==> r == Err(NotImplemented)
    ensures d.Bound? && r.Err? ==> r == Err(DimensionMismatch)
  {
    match d
    case Unbound => Err(NotImplemented)
    case Bound(fn) =>
      var k := fn(t, y);
      if |k| == |y| then Ok(k) else Err(DimensionMismatch)
  }

  /** The four stage derivatives of one step. */
  datatype Stages = Stages(k1: Vector, k2: Vector, k3: Vector, k4: Vector)

  /** The stages of the step that arrives at time `tn`, leaving state `y`: `k1` at the
      arrival time itself, `k2` and `k3` half a step later, `k4` a whole step later. */
  function EvalStages(d: Derivative, dt: real, tn: real, y: Vector): (r: Result<Stages>)
    ensures r.Ok? ==> (|r.value.k1| == |y| && |r.value.k2| == |y|
                       && |r.value.k3| == |y| && |r.value.k4| == |y|)
  {
    var k1 :- Eval(d, tn, y);
    var k2 :- Eval(d, tn + dt / 2.0, Nudge(y, dt / 2.0, k1));
    var k3 :- Eval(d, tn + dt / 2.0, Nudge(y, dt / 2.0, k2));
    var k4 :- Eval(d, tn + dt, Nudge(y, dt, k3));
    Ok(Stages(k1, k2, k3, k4))
  }

  /** The state recorded at time `tn` (already advanced by `dt`) from the previous state `y`. */
  function Step(d: Derivative, dt: real, tn: real, y: Vector): (r: Result<Vector>)
    ensures r.Ok? <==> EvalStages(d, dt, tn, y).Ok?
    ensures r.Err? ==> r.error == EvalStages(d, dt, tn, y).error
    ensures r.Ok? ==> |r.value| == |y|
  {
    var st :- EvalStages(d, dt, tn, y);
    Ok(Combine(dt, y, st))
  }

  /** The state `y + h * k` at which a later stage is evaluated. */
  function Nudge(y: Vector, h: real, k: Vector): (r: Vector)
    requires |k| == |y|
    ensures |r| == |y|
    ensures forall j :: 0 <= j < |y| ==> r[j] == y[j] + h * k[j]
  {
    seq(|y|, j requires 0 <= j < |y| => y[j] + h * k[j])
  }

  /** The state `y + dt / 6 * (k1 + 2 k2 + 2 k3 + k4)`. */
  function Combine(dt: real, y: Vector, st: Stages): (r: Vector)
    requires |st.k1| == |y| && |st.k2| == |y| && |st.k3| == |y| && |st.k4| == |y|
    ensures |r| == |y|
  {
    seq(|y|, j requires 0 <= j < |y| =>
      y[j] + dt / 6.0 * (st.k1[j] + 2.0 * st.k2[j] + 2.0 * st.k3[j] + st.k4[j]))
  }

  /** Each component moves by `dt / 6` times the weighted sum `k1 + 2 k2 + 2 k3 + k4` of
      the stage derivatives, which are the derivative at `(tn, y)`, at `(tn + dt/2,
      y + dt/2 k1)`, at `(tn + dt/2, y + dt/2 k2)` and at `(tn + dt, y + dt k3)`. */
  lemma StepRule(d: Derivative, dt: real, tn: real, y: Vector)
    requires Step(d, dt, tn, y).Ok?
    ensures d.Bound?
    ensures var st := EvalStages(d, dt, tn, y).value;
      && st.k1 == d.fn(tn, y)
      && st.k2 == d.fn(tn + dt / 2.0, Nudge(y, dt / 2.0, st.k1))
      && st.k3 == d.fn(tn + dt / 2.0, Nudge(y, dt / 2.0, st.k2))
      && st.k4 == d.fn(tn + dt, Nudge(y, dt, st.k3))
    ensures var st := EvalStages(d, dt, tn, y).value;
      forall j :: 0 <= j < |y| ==>
        Step(d, dt, tn, y).value[j]
        == y[j] + dt / 6.0 * (st.k1[j] + 2.0 * st.k2[j] + 2.0 * st.k3[j] + st.k4[j])
  {
  }

  /** A step fails exactly when the derivative is unbound, or when it returns a vector of
      the wrong length at one of the four stages; it never fails for a derivative that
      keeps the dimension. */
  lemma StepSucceedsWhenDimensionKept(fn: (real, Vector) -> Vector, dt: real, tn: real, y: Vector)
    requires ReturnsDim(fn, |y|)
    ensures Step(Bound(fn), dt, tn, y).Ok?
  {
  }

  /** With the base-class derivative no step can be taken. */
  lemma StepUnbound(dt: real, tn: real, y: Vector)
    ensures Step(Unbound, dt, tn, y) == Err(NotImplemented)
  {
  }

  /** A derivative that always returns a vector of the wrong length fails at the first stage. */
  lemma StepWrongDimension(fn: (real, Vector) -> Vector, dt: real, tn: real, y: Vector)
    requires |fn(tn, y)| != |y|
    ensures Step(Bound(fn), dt, tn, y) == Err(DimensionMismatch)
  {
  }

  /** The derivative that is zero everywhere. */
  function ZeroField(): (fn: (real, Vector) -> Vector)
    ensures forall t, y :: fn(t, y) == Zeros(|y|)
  {
    (t: real, y: Vector) => Zeros(|y|)
  }

  /** A zero derivative leaves the state where it is. */
  lemma StepZeroDerivative(dt: real, tn: real, y: Vector)
    ensures Step(Bound(ZeroField()), dt, tn, y) == Ok(y)
  {
    var z := Zeros(|y|);
    var st := EvalStages(Bound(ZeroField()), dt, tn, y);
    assert st == Ok(Stages(z, z, z, z));
    var r := Step(Bound(ZeroField()), dt, tn, y);
    StepRule(Bound(ZeroField()), dt, tn, y);
    assert r.Ok? && |r.value| == |y|;
    assert forall j :: 0 <= j < |y| ==> r.value[j] == y[j];
    assert r.value == y;
  }

  /** When the derivative depends on time alone, `g(t)`, a step adds Simpson's rule for the
      integral of `g` over `[tn, tn + dt]`: the interval starts at the arrival time `tn`
      rather than at the departure time `tn - dt`. */
  lemma StepTimeOnlyIsSimpson(fn: (real, Vector) -> Vector, g: real -> Vector, dt: real, tn: real, y: Vector)
    requires forall t, z :: fn(t, z) == g(t)
    requires forall t :: |g(t)| == |y|
    ensures var r := Step(Bound(fn), dt, tn, y);
      && r.Ok?
      && forall j :: 0 <= j < |y| ==>
           r.value[j] == y[j] + dt / 6.0 * (g(tn)[j] + 4.0 * g(tn + dt / 2.0)[j] + g(tn + dt)[j])
  {
    var d := Bound(fn);
    var st := EvalStages(d, dt, tn, y);
    assert st.Ok?;
    assert st.value == Stages(g(tn), g(tn + dt / 2.0), g(tn + dt / 2.0), g(tn + dt));
    StepRule(d, dt, tn, y);
  }

  /** For a constant derivative `c` the weights add up to one whole step: the state moves
      by exactly `dt * c`. */
  lemma StepConstantDerivative(c: Vector, dt: real, tn: real, y: Vector)
    requires |c| == |y|
    ensures Step(Bound((t: real, z: Vector) => c), dt, tn, y) == Ok(Add(y, Scale(dt, c)))
  {
    var r := Step(Bound((t: real, z: Vector) => c), dt, tn, y);
    StepTimeOnlyIsSimpson((t: real, z: Vector) => c, t => c, dt, tn, y);
    var e := Add(y, Scale(dt, c));
    assert r.Ok? && |r.value| == |e|;
    assert forall j :: 0 <= j < |y| ==> r.value[j] == e[j];
    assert r.value == e;
  }

  /** The degree-four Taylor polynomial of `exp(x)`: `1 + x + x^2/2 + x^3/6 + x^4/24`. */
  function ExpQuartic(x: real): real
  {
    1.0 + x + x * x / 2.0 + x * x * x / 6.0 + x * x * x * x / 24.0
  }

  /** Nudging `y` along a multiple of itself scales it, by `g = 1 + h b`. */
  lemma NudgeAlongSelf(y: Vector, h: real, b: real, g: real)
    requires g == 1.0 + h * b
    ensures Nudge(y, h, Scale(b, y)) == Scale(g, y)
  {
    var r := Nudge(y, h, Scale(b, y));
    var e := Scale(g, y);
    forall j | 0 <= j < |y|
      ensures r[j] == e[j]
    {
      assert r[j] == y[j] + h * (b * y[j]);
    }
  }

  /** Stages that are all multiples of `y` combine to a multiple of `y`, by
      `g = 1 + dt / 6 (b1 + 2 b2 + 2 b3 + b4)`. */
  lemma CombineMultiples(dt: real, y: Vector, b1: real, b2: real, b3: real, b4: real, g: real)
    requires g == 1.0 + dt / 6.0 * (b1 + 2.0 * b2 + 2.0 * b3 + b4)
    ensures Combine(dt, y, Stages(Scale(b1, y), Scale(b2, y), Scale(b3, y), Scale(b4, y)))
            == Scale(g, y)
  {
    var st := Stages(Scale(b1, y), Scale(b2, y), Scale(b3, y), Scale(b4, y));
    var r := Combine(dt, y, st);
    var e := Scale(g, y);
    forall j | 0 <= j < |y|
      ensures r[j] == e[j]
    {
      var c := y[j];
      assert r[j] == c + dt / 6.0 * (b1 * c + 2.0 * (b2 * c) + 2.0 * (b3 * c) + b4 * c);
    }
  }

  /** The growth factor of one step for the linear field `f(t, y) = a y`. */
  lemma LinearGrowth(a: real, dt: real)
    ensures var p1 := 1.0 + dt / 2.0 * a;
      var p2 := 1.0 + dt / 2.0 * (a * p1);
      var p3 := 1.0 + dt * (a * p2);
      1.0 + dt / 6.0 * (a + 2.0 * (a * p1) + 2.0 * (a * p2) + a * p3) == ExpQuartic(dt * a)
  {
  }

  /** For the linear field `f(t, y) = a y` one step multiplies every component by
      `ExpQuartic(dt a)`, the Taylor polynomial of the exact factor `exp(dt a)` up to the
      fourth power. This field does not depend on time, so the late stage times of the code
      do not show here; `StepCubicLate` shows them for a field that does. */
  lemma StepLinearField(a: real, dt: real, tn: real, y: Vector)
    ensures Step(Bound((t: real, z: Vector) => Scale(a, z)), dt, tn, y)
            == Ok(Scale(ExpQuartic(dt * a), y))
  {
    var d := Bound((t: real, z: Vector) => Scale(a, z));
    var p1 := 1.0 + dt / 2.0 * a;
    var p2 := 1.0 + dt / 2.0 * (a * p1);
    var p3 := 1.0 + dt * (a * p2);
    var k1 := Scale(a, y);
    NudgeAlongSelf(y, dt / 2.0, a, p1);
    ScaleTwice(a, p1, y);
    var k2 := Scale(a * p1, y);
    NudgeAlongSelf(y, dt / 2.0, a * p1, p2);
    ScaleTwice(a, p2, y);
    var k3 := Scale(a * p2, y);
    NudgeAlongSelf(y, dt, a * p2, p3);
    ScaleTwice(a, p3, y);
    var k4 := Scale(a * p3, y);
    assert EvalStages(d, dt, tn, y) == Ok(Stages(k1, k2, k3, k4));
    LinearGrowth(a, dt);
    CombineMultiples(dt, y, a, a * p1, a * p2, a * p3, ExpQuartic(dt * a));
  }

  /** The one-dimensional field `f(t, y) = [Cubic(t)]`, which depends on time alone. */
  function CubicField(c0: real, c1: real, c2: real, c3: real): (fn: (real, Vector) -> Vector)
    ensures forall t, y :: fn(t, y) == [Cubic(c0, c1, c2, c3, t)]
  {
    (t: real, z: Vector) => [Cubic(c0, c1, c2, c3, t)]
  }

  /** A one-dimensional field whose value depends on time alone, `[p]` at `tn`, `[q]` at
      `tn + dt/2` and `[e]` at `tn + dt`: one step adds `SimpsonRule(dt, p, q, e)`, Simpson's
      rule for it over `[tn, tn + dt]`. */
  lemma StepScalarTimeOnly(fn: (real, Vector) -> Vector, dt: real, tn: real, tm: real, te: real,
                           y: real, p: real, q: real, e: real, s: real)
    requires tm == tn + dt / 2.0 && te == tn + dt
    requires forall z :: fn(tn, z) == [p]
    requires forall z :: fn(tm, z) == [q]
    requires forall z :: fn(te, z) == [e]
    requires s == SimpsonRule(dt, p, q, e)
    ensures Step(Bound(fn), dt, tn, [y]) == Ok([y + s])
  {
    var d := Bound(fn);
    assert EvalStages(d, dt, tn, [y]) == Ok(Stages([p], [q], [q], [e]));
    StepRule(d, dt, tn, [y]);
    var r := Step(d, dt, tn, [y]).value;
    assert r[0] == y + dt / 6.0 * (p + 2.0 * q + 2.0 * q + e);
    assert r == [r[0]];
  }

  /** The step the code takes on a cubic time field integrates that field exactly, but over
      `[tn, tn + dt]`, where `tn` is the time the result is recorded at: every stage is one
      step late, so for a field that depends on time the state at `tn` is not the solution
      at `tn`. */
  lemma StepCubicLate(c0: real, c1: real, c2: real, c3: real, dt: real, tn: real, y: real)
    ensures Step(Bound(CubicField(c0, c1, c2, c3)), dt, tn, [y])
            == Ok([y + (CubicIntegral(c0, c1, c2, c3, tn + dt) - CubicIntegral(c0, c1, c2, c3, tn))])
  {
    var p := Cubic(c0, c1, c2, c3, tn);
    var q := Cubic(c0, c1, c2, c3, tn + dt / 2.0);
    var e := Cubic(c0, c1, c2, c3, tn + dt);
    var i := CubicIntegral(c0, c1, c2, c3, tn + dt) - CubicIntegral(c0, c1, c2, c3, tn);
    SimpsonCubicSamples(c0, c1, c2, c3, tn, dt, p, q, e, i);
    StepScalarTimeOnly(CubicField(c0, c1, c2, c3), dt, tn, tn + dt / 2.0, tn + dt, y, p, q, e, i);
  }

  /** The Runge-Kutta step for `dy = f(t, y) dt` as the class docstring describes it: the
      state recorded at `tn` from the state `y` recorded at the departure time `tn - dt`,
      with `k1` at `tn - dt`, `k2` and `k3` half a step later and `k4` at `tn`. */
  function DepartureStep(d: Derivative, dt: real, tn: real, y: Vector): (r: Result<Vector>)
    ensures r.Ok? <==> EvalStages(d, dt, tn - dt, y).Ok?
    ensures r.Ok? ==> |r.value| == |y|
  {
    Step(d, dt, tn - dt, y)
  }

  /** On a cubic time field the departure-time step adds the exact integral over
      `[tn - dt, tn]`: it records the solution of `dy = Cubic(t) dt` at `tn`. */
  lemma DepartureStepCubicExact(c0: real, c1: real, c2: real, c3: real, dt: real, tn: real, y: real)
    ensures DepartureStep(Bound(CubicField(c0, c1, c2, c3)), dt, tn, [y])
            == Ok([y + (CubicIntegral(c0, c1, c2, c3, tn) - CubicIntegral(c0, c1, c2, c3, tn - dt))])
  {
    var a := tn - dt;
    StepCubicLate(c0, c1, c2, c3, dt, a, y);
    assert CubicIntegral(c0, c1, c2, c3, a + dt) == CubicIntegral(c0, c1, c2, c3, tn) by {
      assert a + dt == tn;
    }
  }

  /** For a field that ignores time the two steps agree, so the code's step differs from the
      departure-time step only through the stage times. */
  lemma DepartureStepAutonomous(g: Vector -> Vector, dt: real, tn: real, y: Vector)
    ensures DepartureStep(Bound((t: real, z: Vector) => g(z)), dt, tn, y)
            == Step(Bound((t: real, z: Vector) => g(z)), dt, tn, y)
  {
  }
}
