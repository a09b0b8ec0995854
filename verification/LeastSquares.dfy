/** Fitting a quadratic to samples by least squares, over the reals.

    This is the mathematics behind the peak resolver of cpp_17/navigation/peak_finder.cpp and of
    its Python twin: moments of the samples, the three normal equations, what it means to solve
    them, and how a solution moves when the samples are shifted, scaled or mirrored.

    Proofs over recursive sums hide every definition and work from one-step lemmas, so that the
    nonlinear arithmetic stays inside small lemmas about a handful of numbers. */
module LeastSquares {

  /** The parabola `b0 + b1*t + b2*t*t`. */
  datatype Quadratic = Quadratic(b0: real, b1: real, b2: real) {
    function Weigh(w0: real, w1: real, w2: real): real {
      b0 * w0 + b1 * w1 + b2 * w2
    }

    function At(t: real): real {
      Weigh(1.0, t, t * t)
    }

    function Minus(q: Quadratic): Quadratic {
      Quadratic(b0 - q.b0, b1 - q.b1, b2 - q.b2)
    }
  }

  const ZERO := Quadratic(0.0, 0.0, 0.0)

  // ---------- Products ----------

  lemma Split(a: real, b: real, c: real)
    ensures a * (b + c) == a * b + a * c
  {}

  lemma Regroup(a: real, b: real, c: real)
    ensures a * (b * c) == b * (a * c)
  {}

  lemma Group(a: real, b: real, c: real)
    ensures a * (b * c) == (a * b) * c
  {}

  lemma WeighAdds(q: Quadratic, v0: real, v1: real, v2: real, w0: real, w1: real, w2: real)
    ensures q.Weigh(v0 + w0, v1 + w1, v2 + w2) == q.Weigh(v0, v1, v2) + q.Weigh(w0, w1, w2)
  {
    Split(q.b0, v0, w0);
    Split(q.b1, v1, w1);
    Split(q.b2, v2, w2);
  }

  lemma WeighScales(q: Quadratic, f: real, w0: real, w1: real, w2: real)
    ensures q.Weigh(f * w0, f * w1, f * w2) == f * q.Weigh(w0, w1, w2)
  {
    Regroup(q.b0, f, w0);
    Regroup(q.b1, f, w1);
    Regroup(q.b2, f, w2);
    Split(f, q.b0 * w0 + q.b1 * w1, q.b2 * w2);
    Split(f, q.b0 * w0, q.b1 * w1);
  }

  lemma MinusWeighs(p: Quadratic, q: Quadratic, w0: real, w1: real, w2: real)
    ensures q.Minus(p).Weigh(w0, w1, w2) == q.Weigh(w0, w1, w2) - p.Weigh(w0, w1, w2)
  {
    Split(w0, q.b0, -p.b0);
    Split(w1, q.b1, -p.b1);
    Split(w2, q.b2, -p.b2);
  }

  /** Named, so that proofs can treat a square as a number of its own. */
  function Squared(r: real): real {
    r * r
  }

  lemma ZeroFactor(r: real, s: real)
    requires r * s == 0.0
    ensures r == 0.0 || s == 0.0
  {
    if r != 0.0 {
      assert s == (r * s) / r;
    }
  }

  lemma SquareIsZero(r: real, rest: real)
    requires rest >= 0.0 && rest + r * r == 0.0
    ensures r == 0.0 && rest == 0.0
  {
    assert r * r >= 0.0;
    assert rest == 0.0;
    ZeroFactor(r, r);
  }

  // ---------- Moments and normal equations ----------

  /** The sums the fit is computed from: the count, the powers of x up to the fourth, and y weighted
      by the powers of x up to the second. */
  datatype Moments = Moments(n: real, x1: real, x2: real, x3: real, x4: real, y: real, xy: real, x2y: real) {
    function Plus(m: Moments): Moments {
      Moments(n + m.n, x1 + m.x1, x2 + m.x2, x3 + m.x3, x4 + m.x4, y + m.y, xy + m.xy, x2y + m.x2y)
    }
  }

  function OneSample(u: real, v: real): Moments {
    Moments(1.0, u, u * u, u * (u * u), (u * u) * (u * u), v, u * v, (u * u) * v)
  }

  lemma PlusSample(m: Moments, u: real, v: real)
    ensures var m' := m.Plus(OneSample(u, v));
            && m'.n == m.n + 1.0 && m'.x1 == m.x1 + u && m'.x2 == m.x2 + u * u
            && m'.x3 == m.x3 + u * (u * u) && m'.x4 == m.x4 + (u * u) * (u * u)
  {}

  const NO_SAMPLES := Moments(0.0, 0.0, 0.0, 0.0, 0.0, 0.0, 0.0, 0.0)

  function Gather(x: seq<real>, y: seq<real>): Moments
    requires |x| == |y|
  {
    if |x| == 0 then NO_SAMPLES
    else
      var k := |x| - 1;
      Gather(x[..k], y[..k]).Plus(OneSample(x[k], y[k]))
  }

  lemma {:induction false} GatherLast(x: seq<real>, y: seq<real>)
    requires |x| == |y| > 0
    ensures var k := |x| - 1; Gather(x, y) == Gather(x[..k], y[..k]).Plus(OneSample(x[k], y[k]))
  {
    hide OneSample;
    hide Moments.Plus;
  }

  lemma {:induction false} GatherEmpty(x: seq<real>, y: seq<real>)
    requires |x| == |y| == 0
    ensures Gather(x, y) == NO_SAMPLES
  {}

  lemma PlusNothing(m: Moments)
    ensures m.Plus(NO_SAMPLES) == m && NO_SAMPLES.Plus(m) == m
  {}

  lemma PlusAssociates(a: Moments, b: Moments, c: Moments)
    ensures a.Plus(b).Plus(c) == a.Plus(b.Plus(c))
  {}

  lemma {:induction false} GatherConcat(x: seq<real>, y: seq<real>, x': seq<real>, y': seq<real>)
    requires |x| == |y| && |x'| == |y'|
    ensures Gather(x + x', y + y') == Gather(x, y).Plus(Gather(x', y'))
    decreases |x'|
  {
    hide *;
    if |x'| == 0 {
      assert x + x' == x && y + y' == y;
      GatherEmpty(x', y');
      PlusNothing(Gather(x, y));
    } else {
      var k := |x'| - 1;
      GatherConcat(x, y, x'[..k], y'[..k]);
      assert (x + x')[..|x| + k] == x + x'[..k] && (y + y')[..|x| + k] == y + y'[..k];
      assert (x + x')[|x| + k] == x'[k] && (y + y')[|x| + k] == y'[k];
      GatherLast(x', y');
      GatherLast(x + x', y + y');
      PlusAssociates(Gather(x, y), Gather(x'[..k], y'[..k]), OneSample(x'[k], y'[k]));
    }
  }

  lemma {:induction false} GatherOne(x: seq<real>, y: seq<real>)
    requires |x| == |y| == 1
    ensures Gather(x, y) == OneSample(x[0], y[0])
  {
    hide *;
    GatherLast(x, y);
    GatherEmpty(x[..0], y[..0]);
    PlusNothing(OneSample(x[0], y[0]));
  }

  /** The three normal equations of the least-squares problem. */
  predicate NormalEquations(m: Moments, q: Quadratic) {
    && q.Weigh(m.n, m.x1, m.x2) == m.y
    && q.Weigh(m.x1, m.x2, m.x3) == m.xy
    && q.Weigh(m.x2, m.x3, m.x4) == m.x2y
  }

  // ---------- Squared error ----------

  /** The sum of squared residuals, the quantity least squares minimises. */
  ghost function SquaredError(x: seq<real>, y: seq<real>, q: Quadratic): real
    requires |x| == |y|
  {
    if |x| == 0 then 0.0
    else
      var k := |x| - 1;
      SquaredError(x[..k], y[..k], q) + (y[k] - q.At(x[k])) * (y[k] - q.At(x[k]))
  }

  lemma {:induction false} ErrorEmpty(x: seq<real>, y: seq<real>, q: Quadratic)
    requires |x| == |y| == 0
    ensures SquaredError(x, y, q) == 0.0
  {}

  lemma {:induction false} ErrorLast(x: seq<real>, y: seq<real>, q: Quadratic)
    requires |x| == |y| > 0
    ensures var k := |x| - 1;
            SquaredError(x, y, q) == SquaredError(x[..k], y[..k], q) + (y[k] - q.At(x[k])) * (y[k] - q.At(x[k]))
  {
    hide Quadratic.At;
  }

  /** The sum of the squares of a quadratic's values. */
  ghost function SumOfSquares(x: seq<real>, q: Quadratic): real {
    if |x| == 0 then 0.0
    else
      var k := |x| - 1;
      SumOfSquares(x[..k], q) + q.At(x[k]) * q.At(x[k])
  }

  lemma {:induction false} SumOfSquaresEmpty(x: seq<real>, q: Quadratic)
    requires |x| == 0
    ensures SumOfSquares(x, q) == 0.0
  {}

  lemma {:induction false} SumOfSquaresLast(x: seq<real>, q: Quadratic)
    requires |x| > 0
    ensures var k := |x| - 1; SumOfSquares(x, q) == SumOfSquares(x[..k], q) + q.At(x[k]) * q.At(x[k])
  {
    hide Quadratic.At;
  }

  lemma {:induction false} SumOfSquaresNonNegative(x: seq<real>, q: Quadratic)
    ensures SumOfSquares(x, q) >= 0.0
  {
    hide *;
    if |x| == 0 {
      SumOfSquaresEmpty(x, q);
    } else {
      SumOfSquaresNonNegative(x[..|x| - 1], q);
      SumOfSquaresLast(x, q);
      assert q.At(x[|x| - 1]) * q.At(x[|x| - 1]) >= 0.0;
    }
  }

  // ---------- Residuals ----------

  /** The residuals, summed with weights 1, x and x*x. */
  datatype Defect = Defect(d0: real, d1: real, d2: real) {
    /** Account for a residual `r` at abscissa `u`. */
    function With(u: real, r: real): Defect {
      Defect(d0 + r, d1 + r * u, d2 + r * (u * u))
    }

    /** The residuals weighted by a quadratic's values instead of by powers of x. */
    function Along(q: Quadratic): real {
      q.Weigh(d0, d1, d2)
    }
  }

  const NO_DEFECT := Defect(0.0, 0.0, 0.0)

  ghost function Residuals(x: seq<real>, y: seq<real>, q: Quadratic): Defect
    requires |x| == |y|
  {
    if |x| == 0 then NO_DEFECT
    else
      var k := |x| - 1;
      Residuals(x[..k], y[..k], q).With(x[k], y[k] - q.At(x[k]))
  }

  lemma {:induction false} ResidualsEmpty(x: seq<real>, y: seq<real>, q: Quadratic)
    requires |x| == |y| == 0
    ensures Residuals(x, y, q) == NO_DEFECT
  {}

  lemma {:induction false} ResidualsLast(x: seq<real>, y: seq<real>, q: Quadratic)
    requires |x| == |y| > 0
    ensures var k := |x| - 1;
            Residuals(x, y, q) == Residuals(x[..k], y[..k], q).With(x[k], y[k] - q.At(x[k]))
  {
    hide Quadratic.At;
    hide Defect.With;
  }

  /** The residual sums are what the moments leave over in the normal equations. */
  predicate Balance(m: Moments, d: Defect, q: Quadratic) {
    && d.d0 == m.y - q.Weigh(m.n, m.x1, m.x2)
    && d.d1 == m.xy - q.Weigh(m.x1, m.x2, m.x3)
    && d.d2 == m.x2y - q.Weigh(m.x2, m.x3, m.x4)
  }

  lemma NothingBalances(q: Quadratic)
    ensures Balance(NO_SAMPLES, NO_DEFECT, q)
  {}

  /** A sample's moments, weighed by a quadratic, are multiples of the quadratic's value there. */
  lemma WeighSample(q: Quadratic, u: real)
    ensures q.Weigh(u, u * u, u * (u * u)) == u * q.At(u)
    ensures q.Weigh(u * u, u * (u * u), (u * u) * (u * u)) == (u * u) * q.At(u)
  {
    var w := u * u;
    assert u * 1.0 == u && w * 1.0 == w;
    assert w * u == u * w;
    WeighScales(q, u, 1.0, u, w);
    WeighScales(q, w, 1.0, u, w);
    assert q.At(u) == q.Weigh(1.0, u, w);
    hide Quadratic.Weigh;
  }

  lemma BalanceStep(m: Moments, d: Defect, q: Quadratic, u: real, v: real)
    requires Balance(m, d, q)
    ensures Balance(m.Plus(OneSample(u, v)), d.With(u, v - q.At(u)), q)
  {
    var w := u * u;
    WeighSample(q, u);
    WeighAdds(q, m.n, m.x1, m.x2, 1.0, u, w);
    WeighAdds(q, m.x1, m.x2, m.x3, u, w, u * w);
    WeighAdds(q, m.x2, m.x3, m.x4, w, u * w, w * w);
    Split(u, v, -q.At(u));
    Split(w, v, -q.At(u));
    assert q.Weigh(1.0, u, w) == q.At(u);
    hide Quadratic.Weigh;
    hide Quadratic.At;
  }

  lemma {:induction false} ResidualsBalance(x: seq<real>, y: seq<real>, q: Quadratic)
    requires |x| == |y|
    ensures Balance(Gather(x, y), Residuals(x, y, q), q)
  {
    hide *;
    if |x| == 0 {
      GatherEmpty(x, y);
      ResidualsEmpty(x, y, q);
      NothingBalances(q);
    } else {
      var k := |x| - 1;
      ResidualsBalance(x[..k], y[..k], q);
      BalanceStep(Gather(x[..k], y[..k]), Residuals(x[..k], y[..k], q), q, x[k], y[k]);
      GatherLast(x, y);
      ResidualsLast(x, y, q);
    }
  }

  lemma NoDefectMeansSolved(m: Moments, d: Defect, q: Quadratic)
    requires Balance(m, d, q)
    ensures NormalEquations(m, q) <==> d == NO_DEFECT
  {
    hide Quadratic.Weigh;
  }

  /** The normal equations say exactly that the residuals are orthogonal to 1, x and x*x. */
  lemma {:induction false} NormalEquationsAreOrthogonality(x: seq<real>, y: seq<real>, q: Quadratic)
    requires |x| == |y|
    ensures NormalEquations(Gather(x, y), q) <==> Residuals(x, y, q) == NO_DEFECT
  {
    hide *;
    ResidualsBalance(x, y, q);
    NoDefectMeansSolved(Gather(x, y), Residuals(x, y, q), q);
  }

  // ---------- Least squares ----------

  lemma SquareOfDifference(r: real, t: real)
    ensures (r - t) * (r - t) == r * r + t * t - 2.0 * (r * t)
  {
    Split(r - t, r, -t);
    Split(r, r, -t);
    Split(t, r, -t);
  }

  lemma NothingAlong(d: Quadratic)
    ensures NO_DEFECT.Along(d) == 0.0
  {}

  lemma AlongStep(e: Defect, d: Quadratic, u: real, r: real)
    ensures e.With(u, r).Along(d) == e.Along(d) + r * d.At(u)
  {
    var w := u * u;
    assert r * 1.0 == r;
    WeighAdds(d, e.d0, e.d1, e.d2, r, r * u, r * w);
    WeighScales(d, r, 1.0, u, w);
    hide Quadratic.Weigh;
  }

  lemma MinusAt(p: Quadratic, q: Quadratic, u: real)
    ensures q.Minus(p).At(u) == q.At(u) - p.At(u)
  {
    MinusWeighs(p, q, 1.0, u, u * u);
    hide Quadratic.Weigh;
  }

  /** How the squared error changes from one quadratic to another. */
  lemma {:induction false} ErrorExpansion(x: seq<real>, y: seq<real>, p: Quadratic, q: Quadratic)
    requires |x| == |y|
    ensures var d := q.Minus(p);
            SquaredError(x, y, q) == SquaredError(x, y, p) + SumOfSquares(x, d) - 2.0 * Residuals(x, y, p).Along(d)
  {
    hide *;
    var d := q.Minus(p);
    if |x| == 0 {
      ResidualsEmpty(x, y, p);
      NothingAlong(d);
      ErrorEmpty(x, y, p);
      ErrorEmpty(x, y, q);
      SumOfSquaresEmpty(x, d);
    } else {
      var k := |x| - 1;
      var u, r, t := x[k], y[k] - p.At(x[k]), d.At(x[k]);
      ErrorExpansion(x[..k], y[..k], p, q);
      MinusAt(p, q, u);
      assert y[k] - q.At(u) == r - t;
      SquareOfDifference(r, t);
      AlongStep(Residuals(x[..k], y[..k], p), d, u, r);
      ErrorLast(x, y, p);
      ErrorLast(x, y, q);
      SumOfSquaresLast(x, d);
      ResidualsLast(x, y, p);
    }
  }

  ghost predicate ThreeAbscissae(x: seq<real>) {
    exists i, j, k :: 0 <= i < |x| && 0 <= j < |x| && 0 <= k < |x| && x[i] != x[j] && x[i] != x[k] && x[j] != x[k]
  }

  lemma {:induction false} ZeroSumMeansZeroEverywhere(x: seq<real>, q: Quadratic, i: nat)
    requires SumOfSquares(x, q) == 0.0 && i < |x|
    ensures q.At(x[i]) == 0.0
  {
    hide *;
    var k := |x| - 1;
    SumOfSquaresLast(x, q);
    SumOfSquaresNonNegative(x[..k], q);
    SquareIsZero(q.At(x[k]), SumOfSquares(x[..k], q));
    if i != k {
      ZeroSumMeansZeroEverywhere(x[..k], q, i);
    }
  }

  /** Two distinct roots fix a quadratic's linear term. */
  lemma TwoRoots(q: Quadratic, t: real, u: real)
    requires t != u && q.At(t) == 0.0 && q.At(u) == 0.0
    ensures q.b1 + q.b2 * (u + t) == 0.0
  {
    var s := q.b1 + q.b2 * (u + t);
    assert (u - t) * s == q.At(u) - q.At(t) by {
      Split(u - t, q.b1, q.b2 * (u + t));
      Regroup(u - t, q.b2, u + t);
      assert (u - t) * (u + t) == u * u - t * t;
    }
    ZeroFactor(u - t, s);
  }

  /** A quadratic with three distinct roots is zero. */
  lemma ThreeRoots(q: Quadratic, t: real, u: real, v: real)
    requires t != u && t != v && u != v
    requires q.At(t) == 0.0 && q.At(u) == 0.0 && q.At(v) == 0.0
    ensures q == ZERO
  {
    TwoRoots(q, t, u);
    TwoRoots(q, t, v);
    assert q.b2 * (u - v) == 0.0 by {
      Split(q.b2, u, t);
      Split(q.b2, v, t);
      Split(q.b2, u, -v);
    }
    ZeroFactor(q.b2, u - v);
    assert q.b2 * (u + t) == 0.0 && q.b2 * (t * t) == 0.0 && q.b1 * t == 0.0;
  }

  lemma {:induction false} ZeroQuadraticHasZeroSum(x: seq<real>)
    ensures SumOfSquares(x, ZERO) == 0.0
  {
    if |x| != 0 {
      ZeroQuadraticHasZeroSum(x[..|x| - 1]);
      assert ZERO.At(x[|x| - 1]) == 0.0;
    }
  }

  lemma {:induction false} VanishingQuadratic(x: seq<real>, q: Quadratic)
    requires ThreeAbscissae(x)
    ensures SumOfSquares(x, q) == 0.0 <==> q == ZERO
  {
    hide SumOfSquares;
    hide Quadratic.At;
    if SumOfSquares(x, q) == 0.0 {
      var i, j, k :| 0 <= i < |x| && 0 <= j < |x| && 0 <= k < |x| && x[i] != x[j] && x[i] != x[k] && x[j] != x[k];
      ZeroSumMeansZeroEverywhere(x, q, i);
      ZeroSumMeansZeroEverywhere(x, q, j);
      ZeroSumMeansZeroEverywhere(x, q, k);
      ThreeRoots(q, x[i], x[j], x[k]);
    } else {
      ZeroQuadraticHasZeroSum(x);
    }
  }

  lemma MinusIsZero(p: Quadratic, q: Quadratic)
    ensures q.Minus(p) == ZERO <==> p == q
  {}

  /** A solution of the normal equations is the one quadratic of least squared error. */
  lemma {:induction false} SolutionMinimisesError(x: seq<real>, y: seq<real>, p: Quadratic, q: Quadratic)
    requires |x| == |y| && ThreeAbscissae(x)
    requires NormalEquations(Gather(x, y), p)
    ensures SquaredError(x, y, p) <= SquaredError(x, y, q)
    ensures SquaredError(x, y, p) == SquaredError(x, y, q) <==> p == q
  {
    hide *;
    NormalEquationsAreOrthogonality(x, y, p);
    NothingAlong(q.Minus(p));
    ErrorExpansion(x, y, p, q);
    SumOfSquaresNonNegative(x, q.Minus(p));
    VanishingQuadratic(x, q.Minus(p));
    MinusIsZero(p, q);
  }

  // ---------- How a solution follows its samples ----------

  function Shifted(x: seq<real>, s: real): (x': seq<real>)
    ensures |x'| == |x|
  {
    seq(|x|, i requires 0 <= i < |x| => x[i] + s)
  }

  /** The same parabola, drawn `s` further right. */
  function Moved(q: Quadratic, s: real): Quadratic {
    Quadratic(q.b0 - q.b1 * s + q.b2 * (s * s), q.b1 - 2.0 * (q.b2 * s), q.b2)
  }

  lemma SquareOfSum(s: real, t: real)
    ensures (t + s) * (t + s) == t * t + 2.0 * (s * t) + s * s
  {
    Split(t + s, t, s);
    Split(t, t, s);
    Split(s, t, s);
  }

  lemma MovedAt(q: Quadratic, s: real, t: real)
    ensures Moved(q, s).At(t + s) == q.At(t)
  {
    var c := q.b2;
    SquareOfSum(s, t);
    Split(q.b1, t, s);
    assert c * (t * t + 2.0 * (s * t) + s * s) == c * (t * t) + 2.0 * (c * (s * t)) + c * (s * s) by {
      Split(c, t * t + 2.0 * (s * t), s * s);
      Split(c, t * t, 2.0 * (s * t));
    }
    assert (c * s) * (t + s) == c * (s * t) + c * (s * s) by {
      Split(c * s, t, s);
    }
    assert (q.b1 - 2.0 * (c * s)) * (t + s) == q.b1 * (t + s) - 2.0 * ((c * s) * (t + s)) by {
      Split(t + s, q.b1, -(2.0 * (c * s)));
    }
  }

  function ShiftedDefect(d: Defect, s: real): Defect {
    Defect(d.d0, d.d1 + s * d.d0, d.d2 + 2.0 * (s * d.d1) + (s * s) * d.d0)
  }

  lemma DefectShiftStep(d: Defect, s: real, u: real, t: real, r: real)
    requires t == u + s
    ensures ShiftedDefect(d, s).With(t, r) == ShiftedDefect(d.With(u, r), s)
  {
    ShiftedLinear(d.d0, d.d1, s, u, t, r);
    ShiftedSquare(d.d0, d.d1, d.d2, s, u, t, r);
    assert ShiftedDefect(d, s).With(t, r).d1 == (d.d1 + s * d.d0) + r * t;
    assert ShiftedDefect(d.With(u, r), s).d1 == (d.d1 + r * u) + s * (d.d0 + r);
    assert ShiftedDefect(d, s).With(t, r).d2 == (d.d2 + 2.0 * (s * d.d1) + (s * s) * d.d0) + r * (t * t);
    assert ShiftedDefect(d.With(u, r), s).d2 == (d.d2 + r * (u * u)) + 2.0 * (s * (d.d1 + r * u)) + (s * s) * (d.d0 + r);
  }

  lemma ShiftedLinear(d0: real, d1: real, s: real, u: real, t: real, r: real)
    requires t == u + s
    ensures (d1 + s * d0) + r * t == (d1 + r * u) + s * (d0 + r)
  {
    Split(s, d0, r);
    Split(r, u, s);
  }

  lemma ShiftedSquare(d0: real, d1: real, d2: real, s: real, u: real, t: real, r: real)
    requires t == u + s
    ensures (d2 + 2.0 * (s * d1) + (s * s) * d0) + r * (t * t)
            == (d2 + r * (u * u)) + 2.0 * (s * (d1 + r * u)) + (s * s) * (d0 + r)
  {
    var p, q := r * u, s * s;
    Split(s, d1, p);
    Split(q, d0, r);
    ShiftedWeight(s, u, r);
    assert t * t == (u + s) * (u + s);
  }

  lemma ShiftedWeight(s: real, u: real, r: real)
    ensures r * ((u + s) * (u + s)) == r * (u * u) + 2.0 * (s * (r * u)) + (s * s) * r
  {
    SquareOfSum(s, u);
    Split(r, u * u + 2.0 * (s * u), s * s);
    Split(r, u * u, 2.0 * (s * u));
    Regroup(s, r, u);
  }

  lemma {:induction false} ResidualsShift(x: seq<real>, y: seq<real>, q: Quadratic, s: real)
    requires |x| == |y|
    ensures Residuals(Shifted(x, s), y, Moved(q, s)) == ShiftedDefect(Residuals(x, y, q), s)
  {
    var x', q' := Shifted(x, s), Moved(q, s);
    if |x| == 0 {
      NoDefectShifts(s);
    } else {
      var k := |x| - 1;
      assert x'[..k] == Shifted(x[..k], s) && x'[k] == x[k] + s;
      hide *;
      ResidualsShift(x[..k], y[..k], q, s);
      MovedAt(q, s, x[k]);
      ResidualsLast(x, y, q);
      ResidualsLast(x', y, q');
      DefectShiftStep(Residuals(x[..k], y[..k], q), s, x[k], x[k] + s, y[k] - q.At(x[k]));
    }
  }

  lemma NoDefectShifts(s: real)
    ensures ShiftedDefect(NO_DEFECT, s) == NO_DEFECT
  {}

  lemma {:induction false} SolutionShifts(x: seq<real>, y: seq<real>, q: Quadratic, s: real)
    requires |x| == |y| && NormalEquations(Gather(x, y), q)
    ensures NormalEquations(Gather(Shifted(x, s), y), Moved(q, s))
  {
    hide *;
    NormalEquationsAreOrthogonality(x, y, q);
    ResidualsShift(x, y, q, s);
    NoDefectShifts(s);
    NormalEquationsAreOrthogonality(Shifted(x, s), y, Moved(q, s));
  }

  function Rescaled(y: seq<real>, c: real, d: real): (y': seq<real>)
    ensures |y'| == |y|
  {
    if |y| == 0 then [] else Rescaled(y[..|y| - 1], c, d) + [RescaledValue(y[|y| - 1], c, d)]
  }

  function RescaledValue(v: real, c: real, d: real): real {
    c * v + d
  }

  lemma {:induction false} RescaledLast(y: seq<real>, c: real, d: real)
    requires |y| > 0
    ensures var n := |y| - 1;
            Rescaled(y, c, d)[..n] == Rescaled(y[..n], c, d) && Rescaled(y, c, d)[n] == RescaledValue(y[n], c, d)
  {
    hide RescaledValue;
  }

  lemma {:induction false} RescaledAt(y: seq<real>, c: real, d: real, i: nat)
    requires i < |y|
    ensures Rescaled(y, c, d)[i] == RescaledValue(y[i], c, d)
  {
    hide *;
    RescaledLast(y, c, d);
    if i < |y| - 1 {
      RescaledAt(y[..|y| - 1], c, d, i);
      assert Rescaled(y, c, d)[i] == Rescaled(y, c, d)[..|y| - 1][i];
    }
  }

  lemma {:induction false} RescaledSlice(y: seq<real>, c: real, d: real, lo: nat, hi: nat)
    requires lo <= hi <= |y|
    ensures Rescaled(y, c, d)[lo..hi] == Rescaled(y[lo..hi], c, d)
  {
    hide *;
    forall i | 0 <= i < hi - lo ensures Rescaled(y, c, d)[lo..hi][i] == Rescaled(y[lo..hi], c, d)[i] {
      RescaledAt(y, c, d, lo + i);
      RescaledAt(y[lo..hi], c, d, i);
    }
  }

  function Stretched(q: Quadratic, c: real, d: real): Quadratic {
    Quadratic(c * q.b0 + d, c * q.b1, c * q.b2)
  }

  lemma StretchedAt(q: Quadratic, c: real, d: real, u: real)
    ensures Stretched(q, c, d).At(u) == RescaledValue(q.At(u), c, d)
  {
    var w := u * u;
    Split(c, q.b0 + q.b1 * u, q.b2 * w);
    Split(c, q.b0, q.b1 * u);
  }

  function ScaledDefect(e: Defect, c: real): Defect {
    Defect(c * e.d0, c * e.d1, c * e.d2)
  }

  lemma NoDefectScales(c: real)
    ensures ScaledDefect(NO_DEFECT, c) == NO_DEFECT
  {}

  lemma DefectScaleStep(e: Defect, c: real, u: real, r: real)
    ensures ScaledDefect(e, c).With(u, c * r) == ScaledDefect(e.With(u, r), c)
  {
    Split(c, e.d0, r);
    Split(c, e.d1, r * u);
    Split(c, e.d2, r * (u * u));
  }

  lemma RescaledDifference(v: real, t: real, c: real, d: real)
    ensures RescaledValue(v, c, d) - RescaledValue(t, c, d) == c * (v - t)
  {
    Split(c, v, -t);
  }

  lemma {:induction false} ResidualsRescale(x: seq<real>, y: seq<real>, q: Quadratic, c: real, d: real)
    requires |x| == |y|
    ensures Residuals(x, Rescaled(y, c, d), Stretched(q, c, d)) == ScaledDefect(Residuals(x, y, q), c)
  {
    hide *;
    var y', q' := Rescaled(y, c, d), Stretched(q, c, d);
    if |x| == 0 {
      ResidualsEmpty(x, y, q);
      ResidualsEmpty(x, y', q');
      NoDefectScales(c);
    } else {
      var k := |x| - 1;
      ResidualsRescale(x[..k], y[..k], q, c, d);
      RescaledLast(y, c, d);
      ResidualsLast(x, y, q);
      ResidualsLast(x, y', q');
      StretchedAt(q, c, d, x[k]);
      var r := y[k] - q.At(x[k]);
      RescaledDifference(y[k], q.At(x[k]), c, d);
      assert y'[k] - q'.At(x[k]) == c * r;
      DefectScaleStep(Residuals(x[..k], y[..k], q), c, x[k], r);
    }
  }

  lemma {:induction false} SolutionRescales(x: seq<real>, y: seq<real>, q: Quadratic, c: real, d: real)
    requires |x| == |y| && NormalEquations(Gather(x, y), q)
    ensures NormalEquations(Gather(x, Rescaled(y, c, d)), Stretched(q, c, d))
  {
    hide *;
    NormalEquationsAreOrthogonality(x, y, q);
    ResidualsRescale(x, y, q, c, d);
    NoDefectScales(c);
    NormalEquationsAreOrthogonality(x, Rescaled(y, c, d), Stretched(q, c, d));
  }

  lemma WithNoResidual(d: Defect, u: real)
    ensures d.With(u, 0.0) == d
  {}

  lemma {:induction false} NoResiduals(x: seq<real>, y: seq<real>, q: Quadratic)
    requires |x| == |y| && forall i :: 0 <= i < |x| ==> y[i] == q.At(x[i])
    ensures Residuals(x, y, q) == NO_DEFECT
  {
    hide *;
    if |x| == 0 {
      ResidualsEmpty(x, y, q);
    } else {
      NoResiduals(x[..|x| - 1], y[..|x| - 1], q);
      ResidualsLast(x, y, q);
      WithNoResidual(NO_DEFECT, x[|x| - 1]);
    }
  }

  /** Samples taken from a parabola are fitted by that parabola. */
  lemma {:induction false} ParabolaFitsItself(x: seq<real>, y: seq<real>, q: Quadratic)
    requires |x| == |y| && forall i :: 0 <= i < |x| ==> y[i] == q.At(x[i])
    ensures NormalEquations(Gather(x, y), q)
  {
    hide *;
    NoResiduals(x, y, q);
    NormalEquationsAreOrthogonality(x, y, q);
  }

  // ---------- Symmetric samples ----------

  ghost predicate Mirrored(x: seq<real>, y: seq<real>)
    requires |x| == |y|
  {
    forall i :: 0 <= i < |x| ==> x[i] == -x[|x| - 1 - i] && y[i] == y[|x| - 1 - i]
  }

  lemma MirroredInside(x: seq<real>, y: seq<real>)
    requires |x| == |y| >= 2 && Mirrored(x, y)
    ensures Mirrored(x[1..|x| - 1], y[1..|x| - 1])
  {
    var k := |x| - 1;
    var x', y' := x[1..k], y[1..k];
    forall i | 0 <= i < |x'| ensures x'[i] == -x'[|x'| - 1 - i] && y'[i] == y'[|x'| - 1 - i] {
      assert x'[i] == x[i + 1] && x'[|x'| - 1 - i] == x[k - (i + 1)];
      assert y'[i] == y[i + 1] && y'[|x'| - 1 - i] == y[k - (i + 1)];
    }
  }

  predicate OddMomentsVanish(m: Moments) {
    m.x1 == 0.0 && m.x3 == 0.0 && m.xy == 0.0
  }

  lemma MirroredPair(m: Moments, u: real, v: real)
    requires OddMomentsVanish(m)
    ensures OddMomentsVanish(OneSample(u, v).Plus(m).Plus(OneSample(-u, v)))
  {
    assert (-u) * (-u) == u * u;
    assert (-u) * (u * u) == -(u * (u * u));
    assert (-u) * v == -(u * v);
  }

  lemma NothingIsOdd()
    ensures OddMomentsVanish(NO_SAMPLES)
  {}

  lemma ZeroSampleIsOdd(v: real)
    ensures OddMomentsVanish(OneSample(0.0, v))
  {}

  /** Odd moments of samples that mirror each other about zero vanish. */
  lemma {:induction false} MirroredMoments(x: seq<real>, y: seq<real>)
    requires |x| == |y| && Mirrored(x, y)
    ensures OddMomentsVanish(Gather(x, y))
    decreases |x|
  {
    hide *;
    if |x| == 0 {
      GatherEmpty(x, y);
      NothingIsOdd();
    } else if |x| == 1 {
      MirroredEnds(x, y);
      GatherOne(x, y);
      ZeroSampleIsOdd(y[0]);
    } else {
      var k := |x| - 1;
      MirroredEnds(x, y);
      MirroredInside(x, y);
      MirroredMoments(x[1..k], y[1..k]);
      assert x[..k] == [x[0]] + x[1..k] && y[..k] == [y[0]] + y[1..k];
      GatherConcat([x[0]], [y[0]], x[1..k], y[1..k]);
      GatherOne([x[0]], [y[0]]);
      GatherLast(x, y);
      MirroredPair(Gather(x[1..k], y[1..k]), x[0], y[0]);
    }
  }

  lemma MirroredEnds(x: seq<real>, y: seq<real>)
    requires |x| == |y| > 0 && Mirrored(x, y)
    ensures x[|x| - 1] == -x[0] && y[|y| - 1] == y[0]
    ensures |x| == 1 ==> x[0] == 0.0
  {
    assert x[0] == -x[|x| - 1];
  }

  // ---------- The vertex ----------

  ghost function Vertex(q: Quadratic): real
    requires q.b2 != 0.0
  {
    -q.b1 / (2.0 * q.b2)
  }

  lemma VertexEquation(q: Quadratic)
    requires q.b2 != 0.0
    ensures q.b1 == -2.0 * (q.b2 * Vertex(q))
  {
    assert (2.0 * q.b2) * Vertex(q) == -q.b1;
  }

  /** The vertex is where the parabola turns: everywhere else it is off by `b2` times a square. */
  lemma VertexIsExtremum(q: Quadratic, t: real)
    requires q.b2 != 0.0
    ensures q.At(t) == q.At(Vertex(q)) + q.b2 * ((t - Vertex(q)) * (t - Vertex(q)))
  {
    VertexEquation(q);
    TurnAt(q, Vertex(q), t);
  }

  lemma TurnAt(q: Quadratic, v: real, t: real)
    requires q.b1 == -2.0 * (q.b2 * v)
    ensures q.At(t) == q.At(v) + q.b2 * ((t - v) * (t - v))
  {
    var c := q.b2;
    assert q.b1 * t == -2.0 * (c * (v * t));
    assert q.b1 * v == -2.0 * (c * (v * v));
    SquareOfDifference(t, v);
    assert c * (t * t + v * v - 2.0 * (t * v)) == c * (t * t) + c * (v * v) - 2.0 * (c * (v * t)) by {
      Split(c, t * t + v * v, -(2.0 * (t * v)));
      Split(c, t * t, v * v);
    }
  }

  lemma MovedVertex(q: Quadratic, s: real)
    requires q.b2 != 0.0
    ensures Vertex(Moved(q, s)) == Vertex(q) + s
  {
    VertexEquation(q);
    VertexEquation(Moved(q, s));
    var v, v' := Vertex(q), Vertex(Moved(q, s));
    assert q.b2 * v' == q.b2 * v + q.b2 * s;
    Split(q.b2, v', -v - s);
    Split(q.b2, -v, -s);
    assert q.b2 * (v' - v - s) == 0.0;
    ZeroFactor(q.b2, v' - v - s);
  }
}
