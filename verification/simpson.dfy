/** Simpson's rule on cubic polynomials: it integrates them exactly. The Runge-Kutta step
    reduces to Simpson's rule when the derivative depends on time alone, so this fixes the
    interval a step integrates over. */
module Simpson {

  /** The polynomial `c0 + c1 t + c2 t^2 + c3 t^3`. */
  function Cubic(c0: real, c1: real, c2: real, c3: real, t: real): real
  {
    c0 + c1 * t + c2 * (t * t) + c3 * (t * t * t)
  }

  /** The antiderivative of `Cubic` that vanishes at 0. */
  function CubicIntegral(c0: real, c1: real, c2: real, c3: real, t: real): real
  {
    c0 * t + c1 * (t * t) / 2.0 + c2 * (t * t * t) / 3.0 + c3 * (t * t * t * t) / 4.0
  }

  /** Simpson's rule integrates a cubic exactly over `[a, a + h]`. */
  lemma SimpsonCubic(c0: real, c1: real, c2: real, c3: real, a: real, h: real)
    ensures h / 6.0 * (Cubic(c0, c1, c2, c3, a) + 4.0 * Cubic(c0, c1, c2, c3, a + h / 2.0)
                       + Cubic(c0, c1, c2, c3, a + h))
            == CubicIntegral(c0, c1, c2, c3, a + h) - CubicIntegral(c0, c1, c2, c3, a)
  {
    SimpsonRuleGrouped(c0, c1, c2, c3, a, h);
    SimpsonRuleByPower(c0, c1, c2, c3, a, h);
    IntegralByPower(c0, c1, c2, c3, a, h);
  }

  /** Simpson's rule over an interval of length `h`, with the samples `p`, `q` and `e` at its
      start, midpoint and end. */
  function SimpsonRule(h: real, p: real, q: real, e: real): real
  {
    h / 6.0 * (p + 4.0 * q + e)
  }

  /** `SimpsonCubic` with the samples and the integral given as values. */
  lemma SimpsonCubicSamples(c0: real, c1: real, c2: real, c3: real, a: real, h: real,
                            p: real, q: real, e: real, i: real)
    requires p == Cubic(c0, c1, c2, c3, a)
    requires q == Cubic(c0, c1, c2, c3, a + h / 2.0)
    requires e == Cubic(c0, c1, c2, c3, a + h)
    requires i == CubicIntegral(c0, c1, c2, c3, a + h) - CubicIntegral(c0, c1, c2, c3, a)
    ensures i == SimpsonRule(h, p, q, e)
  {
    assert i == SimpsonRule(h, Cubic(c0, c1, c2, c3, a), Cubic(c0, c1, c2, c3, a + h / 2.0),
                            Cubic(c0, c1, c2, c3, a + h)) by {
      SimpsonCubic(c0, c1, c2, c3, a, h);
    }
  }

  // The proof goes through one power of `t` at a time. The sums grouped by power are
  // named functions, so that each step of the chain stays a small problem for the solver.

  /** Simpson's weighted sum at `a`, `m` and `b`, grouped by power of `t`. */
  function SumByPower(c0: real, c1: real, c2: real, c3: real, a: real, m: real, b: real): real
  {
    6.0 * c0 + c1 * (a + 4.0 * m + b) + c2 * (a * a + 4.0 * (m * m) + b * b)
    + c3 * (a * a * a + 4.0 * (m * m * m) + b * b * b)
  }

  /** Simpson's rule over `[a, a + h]`, grouped by power of `t`. */
  function RuleByPower(c0: real, c1: real, c2: real, c3: real, a: real, h: real): real
  {
    h / 6.0 * SumByPower(c0, c1, c2, c3, a, a + h / 2.0, a + h)
  }

  /** The increment of `CubicIntegral` over `[a, a + h]`, grouped by power of `t`. */
  function IncrementByPower(c0: real, c1: real, c2: real, c3: real, a: real, h: real): real
  {
    var b := a + h;
    c0 * h + c1 * ((b * b - a * a) / 2.0) + c2 * ((b * b * b - a * a * a) / 3.0)
    + c3 * ((b * b * b * b - a * a * a * a) / 4.0)
  }

  lemma SimpsonSumByPower(c0: real, c1: real, c2: real, c3: real, a: real, m: real, b: real)
    ensures Cubic(c0, c1, c2, c3, a) + 4.0 * Cubic(c0, c1, c2, c3, m) + Cubic(c0, c1, c2, c3, b)
            == SumByPower(c0, c1, c2, c3, a, m, b)
  {
    CollectWeighted(c1, a, m, b);
    CollectWeighted(c2, a * a, m * m, b * b);
    CollectWeighted(c3, a * a * a, m * m * m, b * b * b);
  }

  lemma SimpsonRuleGrouped(c0: real, c1: real, c2: real, c3: real, a: real, h: real)
    ensures h / 6.0 * (Cubic(c0, c1, c2, c3, a) + 4.0 * Cubic(c0, c1, c2, c3, a + h / 2.0)
                       + Cubic(c0, c1, c2, c3, a + h))
            == RuleByPower(c0, c1, c2, c3, a, h)
  {
    SimpsonSumByPower(c0, c1, c2, c3, a, a + h / 2.0, a + h);
  }

  lemma SimpsonRuleByPower(c0: real, c1: real, c2: real, c3: real, a: real, h: real)
    ensures RuleByPower(c0, c1, c2, c3, a, h) == IncrementByPower(c0, c1, c2, c3, a, h)
  {
    var m := a + h / 2.0;
    var b := a + h;
    SimpsonLinear(a, h);
    SimpsonQuadratic(a, h);
    SimpsonCubicTerm(a, h);
    ScaleByPower(c0, c1, c2, c3, h,
      a + 4.0 * m + b, a * a + 4.0 * (m * m) + b * b, a * a * a + 4.0 * (m * m * m) + b * b * b,
      (b * b - a * a) / 2.0, (b * b * b - a * a * a) / 3.0, (b * b * b * b - a * a * a * a) / 4.0);
  }

  lemma IntegralByPower(c0: real, c1: real, c2: real, c3: real, a: real, h: real)
    ensures CubicIntegral(c0, c1, c2, c3, a + h) - CubicIntegral(c0, c1, c2, c3, a)
            == IncrementByPower(c0, c1, c2, c3, a, h)
  {
    var b := a + h;
    Distribute(c0, a, h);
    CollectQuotient(c1, b * b, a * a, 2.0);
    CollectQuotient(c2, b * b * b, a * a * a, 3.0);
    CollectQuotient(c3, b * b * b * b, a * a * a * a, 4.0);
  }

  /** Simpson's rule on `t`, `t^2` and `t^3` over `[a, a + h]`. */
  lemma SimpsonLinear(a: real, h: real)
    ensures h / 6.0 * (a + 4.0 * (a + h / 2.0) + (a + h)) == ((a + h) * (a + h) - a * a) / 2.0
  {
  }

  lemma SimpsonQuadratic(a: real, h: real)
    ensures h / 6.0 * (a * a + 4.0 * ((a + h / 2.0) * (a + h / 2.0)) + (a + h) * (a + h))
            == ((a + h) * (a + h) * (a + h) - a * a * a) / 3.0
  {
  }

  lemma SimpsonCubicTerm(a: real, h: real)
    ensures h / 6.0 * (a * a * a + 4.0 * ((a + h / 2.0) * (a + h / 2.0) * (a + h / 2.0))
                       + (a + h) * (a + h) * (a + h))
            == ((a + h) * (a + h) * (a + h) * (a + h) - a * a * a * a) / 4.0
  {
  }

  lemma ScaleByPower(c0: real, c1: real, c2: real, c3: real, h: real,
                     s1: real, s2: real, s3: real, i1: real, i2: real, i3: real)
    requires h / 6.0 * s1 == i1 && h / 6.0 * s2 == i2 && h / 6.0 * s3 == i3
    ensures h / 6.0 * (6.0 * c0 + c1 * s1 + c2 * s2 + c3 * s3) == c0 * h + c1 * i1 + c2 * i2 + c3 * i3
  {
    assert h / 6.0 * (c1 * s1) == c1 * i1;
    assert h / 6.0 * (c2 * s2) == c2 * i2;
    assert h / 6.0 * (c3 * s3) == c3 * i3;
  }

  lemma CollectWeighted(c: real, x: real, y: real, z: real)
    ensures c * x + 4.0 * (c * y) + c * z == c * (x + 4.0 * y + z)
  {
  }

  lemma CollectQuotient(c: real, x: real, y: real, k: real)
    requires k != 0.0
    ensures c * x / k - c * y / k == c * ((x - y) / k)
  {
  }

  lemma Distribute(c: real, a: real, h: real)
    ensures c * (a + h) == c * a + c * h
  {
  }
}
