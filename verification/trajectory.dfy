/** The trajectory the stepping pass records, defined recursively step by step: a reference
    for the loop in `RungeKutta.Iterate`, with the step count and the time grid worked out. */
module Trajectory {
  import opened Vectors
  import opened Errors
  import opened Rk4

  /** Recorded samples: times and states, meant to be co-indexed. */
  datatype Samples = Samples(times: seq<real>, states: seq<Vector>)

  /** The loop's `tn` after `n` passes of `tn += delta_t`, starting from `tn = 0`. */
  function Clock(dt: real, n: nat): real {
    if n == 0 then 0.0 else Clock(dt, n - 1) + dt
  }

  /** Over exact reals the accumulated clock is the multiple `n * dt`. */
  lemma {:induction false} ClockIsMultiple(dt: real, n: nat)
    ensures Clock(dt, n) == n as real * dt
  {
    if n > 0 {
      ClockIsMultiple(dt, n - 1);
    }
  }

  /** With a step that is not positive the clock never moves past 0, so for a positive
      horizon the loop guard `tn < T` holds forever: the pass ends only if a step fails
      (see `Halts`). */
  lemma {:induction false} ClockNeverAdvances(T: real, dt: real, n: nat)
    requires 0.0 < T && dt <= 0.0
    ensures Clock(dt, n) <= 0.0 < T
  {
    if n > 0 {
      ClockNeverAdvances(T, dt, n - 1);
    }
  }

  /** Times that start at 0 and go up by `dt` are the clock's readings. */
  lemma {:induction false} RecurrenceFollowsClock(ts: seq<real>, dt: real, i: nat)
    requires 0 < |ts| && ts[0] == 0.0
    requires forall j :: 0 <= j < |ts| - 1 ==> ts[j + 1] == ts[j] + dt
    requires i < |ts|
    ensures ts[i] == Clock(dt, i)
  {
    if i > 0 {
      RecurrenceFollowsClock(ts, dt, i - 1);
    }
  }

  /** With a positive step the clock only moves forward. */
  lemma {:induction false} ClockIncreasing(dt: real, i: nat, j: nat)
    requires 0.0 < dt && i < j
    ensures Clock(dt, i) < Clock(dt, j)
  {
    if i < j - 1 {
      ClockIncreasing(dt, i, j - 1);
    }
  }

  /** The number of steps the pass takes: the least `n` with `n * dt >= T` (see
      `StepCountBrackets`). */
  function StepCount(T: real, dt: real): nat
    requires 0.0 < dt
  {
    if T <= 0.0 then 0
    else
      var q := T / dt;
      var f := q.Floor;
      assert 0 <= f;
      if f as real == q then f else f + 1
  }

  /** No step for a horizon that is not positive; otherwise `StepCount` steps reach the
      horizon and one fewer do not. */
  lemma StepCountBrackets(T: real, dt: real)
    requires 0.0 < dt
    ensures T <= 0.0 ==> StepCount(T, dt) == 0
    ensures 0.0 < T ==> (StepCount(T, dt) - 1) as real * dt < T <= StepCount(T, dt) as real * dt
  {
    if 0.0 < T {
      var q := T / dt;
      var f := q.Floor;
      var n := StepCount(T, dt);
      QuotientTimesDivisor(T, dt);
      if f as real == q {
        assert n == f;
        BelowQuotient((n - 1) as real, q, dt, T);
        SameAsQuotient(n as real, q, dt, T);
      } else {
        assert n == f + 1;
        assert (n - 1) as real < q < n as real;
        BelowQuotient((n - 1) as real, q, dt, T);
        AboveQuotient(n as real, q, dt, T);
      }
    }
  }

  // Small facts about the quotient `T / dt`, each in a context of its own.

  lemma QuotientTimesDivisor(T: real, dt: real)
    requires 0.0 < dt
    ensures (T / dt) * dt == T
  {
  }

  lemma BelowQuotient(a: real, q: real, dt: real, T: real)
    requires a < q && 0.0 < dt && q * dt == T
    ensures a * dt < T
  {
    MulStrict(a, q, dt);
  }

  lemma AboveQuotient(b: real, q: real, dt: real, T: real)
    requires q < b && 0.0 < dt && q * dt == T
    ensures T < b * dt
  {
    MulStrict(q, b, dt);
  }

  lemma SameAsQuotient(b: real, q: real, dt: real, T: real)
    requires b == q && q * dt == T
    ensures T == b * dt
  {
  }

  lemma MulStrict(a: real, b: real, c: real)
    requires a < b && 0.0 < c
    ensures a * c < b * c
  {
    assert (b - a) * c > 0.0;
  }

  lemma MulMonotone(a: real, b: real, c: real)
    requires a <= b && 0.0 < c
    ensures a * c <= b * c
  {
    if a < b {
      MulStrict(a, b, c);
    }
  }

  /** After `n` steps the clock is still before the horizon exactly when fewer than
      `StepCount` steps have been taken. */
  lemma BeforeHorizonIff(T: real, dt: real, n: nat)
    requires 0.0 < dt
    ensures Clock(dt, n) < T <==> n < StepCount(T, dt)
  {
    ClockIsMultiple(dt, n);
    var c := StepCount(T, dt);
    StepCountBrackets(T, dt);
    if n < c {
      MulMonotone(n as real, (c - 1) as real, dt);
    } else if 0.0 < T {
      MulMonotone(c as real, n as real, dt);
    }
  }

  /** The samples recorded by the first `n` steps from `y0`, the seed `(0, y0)` included, or
      the failure of the first step that fails. Step `i` arrives at the clock's `i`-th
      reading and starts from the state recorded before it. */
  function Prefix(d: Derivative, dt: real, y0: Vector, n: nat): (r: Result<Samples>)
    ensures r.Ok? ==> |r.value.times| == |r.value.states| == n + 1
    ensures r.Ok? ==> r.value.times[0] == 0.0 && r.value.states[0] == y0
  {
    if n == 0 then Ok(Samples([0.0], [y0]))
    else
      var p :- Prefix(d, dt, y0, n - 1);
      var y :- Step(d, dt, Clock(dt, n), p.states[n - 1]);
      Ok(Samples(p.times + [Clock(dt, n)], p.states + [y]))
  }

  /** The `i`-th recorded time is the clock's `i`-th reading. */
  lemma {:induction false} PrefixTimes(d: Derivative, dt: real, y0: Vector, n: nat)
    ensures var r := Prefix(d, dt, y0, n);
      r.Ok? ==> forall i :: 0 <= i <= n ==> r.value.times[i] == Clock(dt, i)
  {
    if n > 0 {
      PrefixTimes(d, dt, y0, n - 1);
    }
  }

  /** Every recorded state has the dimension of `y0`. */
  lemma {:induction false} PrefixDims(d: Derivative, dt: real, y0: Vector, n: nat)
    ensures var r := Prefix(d, dt, y0, n);
      r.Ok? ==> forall i :: 0 <= i <= n ==> |r.value.states[i]| == |y0|
  {
    if n > 0 {
      PrefixDims(d, dt, y0, n - 1);
    }
  }

  /** Each recorded state is one Runge-Kutta step from the one before it, taken at its own
      time. */
  lemma {:induction false} PrefixSteps(d: Derivative, dt: real, y0: Vector, n: nat)
    ensures var r := Prefix(d, dt, y0, n);
      r.Ok? ==>
        forall i :: 0 <= i < n ==>
          Step(d, dt, r.value.times[i + 1], r.value.states[i]) == Ok(r.value.states[i + 1])
  {
    if n > 0 {
      PrefixSteps(d, dt, y0, n - 1);
    }
  }

  /** Once a step has failed, every longer pass fails with the same error. */
  lemma {:induction false} PrefixFailurePersists(d: Derivative, dt: real, y0: Vector, n: nat, m: nat)
    requires n <= m && Prefix(d, dt, y0, n).Err?
    ensures Prefix(d, dt, y0, m) == Err(Prefix(d, dt, y0, n).error)
  {
    if n < m {
      PrefixFailurePersists(d, dt, y0, n, m - 1);
    }
  }

  /** One more step after `n` recorded samples, arriving at time `tn` with outcome `next`:
      the new sample, or the step's failure. */
  lemma PrefixStep(d: Derivative, dt: real, y0: Vector, n: nat, ts: seq<real>, ys: seq<Vector>,
                   tn: real, next: Result<Vector>)
    requires Prefix(d, dt, y0, n) == Ok(Samples(ts, ys))
    requires tn == Clock(dt, n) + dt && next == Step(d, dt, tn, ys[|ys| - 1])
    ensures Prefix(d, dt, y0, n + 1)
      == if next.Err? then Err(next.error) else Ok(Samples(ts + [tn], ys + [next.value]))
  {
  }

  /** Whether the pass ends: it takes no step, or its clock moves forward and so reaches the
      horizon, or — with a clock stuck at or below 0 — some step fails. */
  ghost predicate Halts(d: Derivative, T: real, dt: real, y0: Vector) {
    T <= 0.0 || 0.0 < dt || exists n: nat :: Prefix(d, dt, y0, n).Err?
  }

  /** The whole trajectory of a pass from `y0`: the seed `(0, y0)` followed by one sample per
      step, `StepCount` steps in all. With `T <= 0` no step is taken, whatever `dt` is; with
      `T > 0` and `dt <= 0` the pass can end only with the failure of a step. */
  ghost function Trace(d: Derivative, T: real, dt: real, y0: Vector): (r: Result<Samples>)
    requires Halts(d, T, dt, y0)
    ensures r.Ok? ==> 1 <= |r.value.times| == |r.value.states|
    ensures r.Ok? ==> r.value.times[0] == 0.0 && r.value.states[0] == y0
    ensures r.Ok? && T <= 0.0 ==> r.value.times == [0.0]
    ensures r.Ok? && 0.0 < T ==> 0.0 < dt && |r.value.times| == StepCount(T, dt) + 1
  {
    if T <= 0.0 then Prefix(d, dt, y0, 0)
    else if 0.0 < dt then Prefix(d, dt, y0, StepCount(T, dt))
    else var n: nat :| Prefix(d, dt, y0, n).Err?; Prefix(d, dt, y0, n)
  }

  /** A pass that has failed by step `n`, before its clock reached the horizon, fails with
      the error of that step. */
  lemma TraceFailsAt(d: Derivative, T: real, dt: real, y0: Vector, n: nat)
    requires 0.0 < T && Prefix(d, dt, y0, n).Err?
    requires 0.0 < dt ==> n <= StepCount(T, dt)
    ensures Halts(d, T, dt, y0)
    ensures Trace(d, T, dt, y0) == Prefix(d, dt, y0, n)
  {
    if 0.0 < dt {
      PrefixFailurePersists(d, dt, y0, n, StepCount(T, dt));
    } else {
      forall m: nat | Prefix(d, dt, y0, m).Err?
        ensures Prefix(d, dt, y0, m) == Prefix(d, dt, y0, n)
      {
        if n <= m {
          PrefixFailurePersists(d, dt, y0, n, m);
        } else {
          PrefixFailurePersists(d, dt, y0, m, n);
        }
      }
    }
  }

  /** A pass whose clock has reached the horizon after `n` steps records those `n` steps. */
  lemma TraceStopsAt(d: Derivative, T: real, dt: real, y0: Vector, n: nat)
    requires 0.0 < T && 0.0 < dt && n <= StepCount(T, dt) && T <= Clock(dt, n)
    ensures Trace(d, T, dt, y0) == Prefix(d, dt, y0, n)
  {
    BeforeHorizonIff(T, dt, n);
  }

  /** The recorded times are the clock's readings: they start at 0 and go up by `dt`. */
  lemma TraceTimes(d: Derivative, T: real, dt: real, y0: Vector)
    requires Halts(d, T, dt, y0)
    ensures var r := Trace(d, T, dt, y0);
      r.Ok? ==>
        && (forall i :: 0 <= i < |r.value.times| ==> r.value.times[i] == Clock(dt, i))
        && (forall i :: 0 <= i < |r.value.times| - 1 ==> r.value.times[i + 1] == r.value.times[i] + dt)
  {
    if T <= 0.0 || 0.0 < dt {
      var n := if T <= 0.0 then 0 else StepCount(T, dt);
      var r := Prefix(d, dt, y0, n);
      assert Trace(d, T, dt, y0) == r;
      PrefixTimes(d, dt, y0, n);
      if r.Ok? {
        forall i | 0 <= i < |r.value.times| - 1
          ensures r.value.times[i + 1] == r.value.times[i] + dt
        {
          assert Clock(dt, i + 1) == Clock(dt, i) + dt;
        }
      }
    }
  }

  /** With a positive horizon every recorded time but the last is before the horizon, and
      the last is not. */
  lemma TraceReachesHorizon(d: Derivative, T: real, dt: real, y0: Vector)
    requires 0.0 < T && 0.0 < dt
    ensures var r := Trace(d, T, dt, y0);
      r.Ok? ==>
        && (forall i :: 0 <= i < |r.value.times| - 1 ==> r.value.times[i] < T)
        && T <= r.value.times[|r.value.times| - 1]
  {
    var r := Trace(d, T, dt, y0);
    if r.Ok? {
      TraceTimes(d, T, dt, y0);
      var last := |r.value.times| - 1;
      BeforeHorizonIff(T, dt, last);
      forall i | 0 <= i < last
        ensures r.value.times[i] < T
      {
        BeforeHorizonIff(T, dt, i);
      }
    }
  }

  /** Every recorded state has the dimension of `y0`. */
  lemma TraceDims(d: Derivative, T: real, dt: real, y0: Vector)
    requires Halts(d, T, dt, y0)
    ensures var r := Trace(d, T, dt, y0);
      r.Ok? ==> forall i :: 0 <= i < |r.value.states| ==> |r.value.states[i]| == |y0|
  {
    if T <= 0.0 || 0.0 < dt {
      var n := if T <= 0.0 then 0 else StepCount(T, dt);
      assert Trace(d, T, dt, y0) == Prefix(d, dt, y0, n);
      PrefixDims(d, dt, y0, n);
    }
  }

  /** Each recorded state is one Runge-Kutta step from the one before it, taken at its own
      time. */
  lemma TraceSteps(d: Derivative, T: real, dt: real, y0: Vector)
    requires Halts(d, T, dt, y0)
    ensures var r := Trace(d, T, dt, y0);
      r.Ok? ==>
        forall i :: 0 <= i < |r.value.states| - 1 ==>
          Step(d, dt, r.value.times[i + 1], r.value.states[i]) == Ok(r.value.states[i + 1])
  {
    if T <= 0.0 || 0.0 < dt {
      var n := if T <= 0.0 then 0 else StepCount(T, dt);
      assert Trace(d, T, dt, y0) == Prefix(d, dt, y0, n);
      PrefixSteps(d, dt, y0, n);
    }
  }

  /** A zero derivative keeps every recorded state equal to the seed. */
  lemma {:induction false} PrefixZeroDerivative(dt: real, y0: Vector, n: nat)
    ensures var r := Prefix(Bound(ZeroField()), dt, y0, n);
      r.Ok? && forall i :: 0 <= i <= n ==> r.value.states[i] == y0
  {
    if n > 0 {
      PrefixZeroDerivative(dt, y0, n - 1);
      StepZeroDerivative(dt, Clock(dt, n), y0);
    }
  }

  /** A derivative that keeps the dimension never makes the pass fail. */
  lemma {:induction false} PrefixSucceeds(fn: (real, Vector) -> Vector, dt: real, y0: Vector, n: nat)
    requires ReturnsDim(fn, |y0|)
    ensures Prefix(Bound(fn), dt, y0, n).Ok?
  {
    if n > 0 {
      PrefixSucceeds(fn, dt, y0, n - 1);
      PrefixDims(Bound(fn), dt, y0, n - 1);
      var p := Prefix(Bound(fn), dt, y0, n - 1).value;
      StepSucceedsWhenDimensionKept(fn, dt, Clock(dt, n), p.states[n - 1]);
    }
  }

  /** The trajectory of a zero derivative is the seed repeated, one copy per sample. */
  lemma TraceZeroDerivative(T: real, dt: real, y0: Vector)
    requires T <= 0.0 || 0.0 < dt
    ensures var r := Trace(Bound(ZeroField()), T, dt, y0);
      r.Ok? && forall i :: 0 <= i < |r.value.states| ==> r.value.states[i] == y0
  {
    var n := if T <= 0.0 then 0 else StepCount(T, dt);
    PrefixZeroDerivative(dt, y0, n);
  }

  /** With a derivative that keeps the dimension no step fails, so the pass ends exactly
      when it takes no step or its clock moves forward. */
  lemma HaltsWhenDimensionKept(fn: (real, Vector) -> Vector, T: real, dt: real, y0: Vector)
    requires ReturnsDim(fn, |y0|)
    ensures Halts(Bound(fn), T, dt, y0) <==> T <= 0.0 || 0.0 < dt
  {
    forall n: nat
      ensures Prefix(Bound(fn), dt, y0, n).Ok?
    {
      PrefixSucceeds(fn, dt, y0, n);
    }
  }

  /** The pass succeeds for every derivative that keeps the dimension; with the base-class
      derivative it always ends, succeeding exactly when no step is taken and otherwise
      failing as not implemented. */
  lemma TraceErrors(fn: (real, Vector) -> Vector, T: real, dt: real, y0: Vector)
    ensures ReturnsDim(fn, |y0|) && (T <= 0.0 || 0.0 < dt) ==> Trace(Bound(fn), T, dt, y0).Ok?
    ensures Halts(Unbound, T, dt, y0)
    ensures Trace(Unbound, T, dt, y0).Ok? <==> T <= 0.0
    ensures 0.0 < T ==> Trace(Unbound, T, dt, y0) == Err(NotImplemented)
  {
    if ReturnsDim(fn, |y0|) && (T <= 0.0 || 0.0 < dt) {
      PrefixSucceeds(fn, dt, y0, if T <= 0.0 then 0 else StepCount(T, dt));
    }
    StepUnbound(dt, Clock(dt, 1), y0);
    assert Prefix(Unbound, dt, y0, 1) == Err(NotImplemented);
    if 0.0 < T {
      if 0.0 < dt {
        BeforeHorizonIff(T, dt, 0);
      }
      TraceFailsAt(Unbound, T, dt, y0, 1);
    }
  }
}
