/** Whether a fit is curved, told from the samples without fitting: the curvature and the slope of the
    least-squares parabola vanish with two fixed linear combinations of the samples. */
module Curvature {
  import opened LeastSquares
  import opened Elimination
  import opened FitWindows
  import opened PeakResolver

  /** The samples, each weighted by a quadratic's value at its abscissa, added up. */
  function Weighted(x: seq<real>, y: seq<real>, w: Quadratic): real
    requires |x| == |y|
  {
    if |x| == 0 then 0.0
    else
      var k := |x| - 1;
      Weighted(x[..k], y[..k], w) + w.At(x[k]) * y[k]
  }

  /** A quadratic orthogonal to 1 and to x over the abscissae. */
  function CurvatureWeights(m: Moments): Quadratic {
    Quadratic(m.x1 * m.x3 - Squared(m.x2), m.x1 * m.x2 - m.n * m.x3, m.n * m.x2 - Squared(m.x1))
  }

  function SlopeWeights(m: Moments): Quadratic {
    Quadratic(0.0, m.x2, -m.x1)
  }

  /** The combinations for the window of `n` bins around a peak; they do not depend on the samples. */
  function CurvatureOf(y: seq<real>): real {
    if |y| == 0 then 0.0
    else
      var x := OffsetWindow(|y|);
      Weighted(x, y, CurvatureWeights(Gather(x, x)))
  }

  function SlopeOf(y: seq<real>): real {
    if |y| == 0 then 0.0
    else
      var x := OffsetWindow(|y|);
      Weighted(x, y, SlopeWeights(Gather(x, x)))
  }

  // ---------- Through the moments ----------

  lemma WeightedStep(w: Quadratic, u: real, v: real)
    ensures var s := OneSample(u, v); w.Weigh(s.y, s.xy, s.x2y) == w.At(u) * v
  {
    var a, b, c := w.b0, w.b1 * u, w.b2 * (u * u);
    Split(v, a + b, c);
    Split(v, a, b);
    Regroup(v, w.b1, u);
    Regroup(v, w.b2, u * u);
    assert w.At(u) == a + b + c;
  }

  lemma NoSampleWeighs(w: Quadratic)
    ensures w.Weigh(NO_SAMPLES.y, NO_SAMPLES.xy, NO_SAMPLES.x2y) == 0.0
  {}

  lemma {:induction false} WeightedEmpty(x: seq<real>, y: seq<real>, w: Quadratic)
    requires |x| == |y| == 0
    ensures Weighted(x, y, w) == 0.0
  {}

  lemma {:induction false} WeightedLast(x: seq<real>, y: seq<real>, w: Quadratic)
    requires |x| == |y| > 0
    ensures var k := |x| - 1; Weighted(x, y, w) == Weighted(x[..k], y[..k], w) + w.At(x[k]) * y[k]
  {}

  lemma PlusSamples(m: Moments, s: Moments)
    ensures var m' := m.Plus(s); m'.y == m.y + s.y && m'.xy == m.xy + s.xy && m'.x2y == m.x2y + s.x2y
  {}

  lemma {:induction false} WeightedFromMoments(x: seq<real>, y: seq<real>, w: Quadratic)
    requires |x| == |y|
    ensures var m := Gather(x, y); Weighted(x, y, w) == w.Weigh(m.y, m.xy, m.x2y)
  {
    hide *;
    if |x| == 0 {
      WeightedEmpty(x, y, w);
      GatherEmpty(x, y);
      NoSampleWeighs(w);
    } else {
      var k := |x| - 1;
      WeightedFromMoments(x[..k], y[..k], w);
      WeightedLast(x, y, w);
      GatherLast(x, y);
      var m, s := Gather(x[..k], y[..k]), OneSample(x[k], y[k]);
      PlusSamples(m, s);
      WeighAdds(w, m.y, m.xy, m.x2y, s.y, s.xy, s.x2y);
      WeightedStep(w, x[k], y[k]);
    }
  }

  lemma WeighIs(w: Quadratic, a: real, b: real, c: real)
    ensures w.Weigh(a, b, c) == w.b0 * a + w.b1 * b + w.b2 * c
  {}

  lemma WeighAddsThree(q: Quadratic, a0: real, a1: real, a2: real, b0: real, b1: real, b2: real,
                       c0: real, c1: real, c2: real, s0: real, s1: real, s2: real)
    requires s0 == a0 + b0 + c0 && s1 == a1 + b1 + c1 && s2 == a2 + b2 + c2
    ensures q.Weigh(s0, s1, s2) == q.Weigh(a0, a1, a2) + q.Weigh(b0, b1, b2) + q.Weigh(c0, c1, c2)
  {
    hide Quadratic.Weigh;
    WeighAdds(q, a0, a1, a2, b0, b1, b2);
    WeighAdds(q, a0 + b0, a1 + b1, a2 + b2, c0, c1, c2);
  }

  /** Weighing the rows of a symmetric scheme by one quadratic and the results by another commutes. */
  lemma WeighingCommutes(w: Quadratic, q: Quadratic, m: Moments)
    ensures w.Weigh(q.Weigh(m.n, m.x1, m.x2), q.Weigh(m.x1, m.x2, m.x3), q.Weigh(m.x2, m.x3, m.x4))
            == q.Weigh(w.Weigh(m.n, m.x1, m.x2), w.Weigh(m.x1, m.x2, m.x3), w.Weigh(m.x2, m.x3, m.x4))
  {
    CommuteTerms(w, q, m.n, m.x1, m.x2, m.x3, m.x4);
  }

  lemma WeighScaled(q: Quadratic, f: real, v0: real, v1: real, v2: real, s0: real, s1: real, s2: real)
    requires s0 == f * v0 && s1 == f * v1 && s2 == f * v2
    ensures q.Weigh(s0, s1, s2) == f * q.Weigh(v0, v1, v2)
  {
    WeighScales(q, f, v0, v1, v2);
  }

  lemma CommuteTerms(w: Quadratic, q: Quadratic, n: real, x1: real, x2: real, x3: real, x4: real)
    ensures w.Weigh(q.Weigh(n, x1, x2), q.Weigh(x1, x2, x3), q.Weigh(x2, x3, x4))
            == q.Weigh(w.Weigh(n, x1, x2), w.Weigh(x1, x2, x3), w.Weigh(x2, x3, x4))
  {
    hide *;
    var w0, w1, w2 := w.b0, w.b1, w.b2;
    WeighIs(w, n, x1, x2);
    WeighIs(w, x1, x2, x3);
    WeighIs(w, x2, x3, x4);
    WeighIs(w, q.Weigh(n, x1, x2), q.Weigh(x1, x2, x3), q.Weigh(x2, x3, x4));
    WeighScaled(q, w0, n, x1, x2, w0 * n, w0 * x1, w0 * x2);
    WeighScaled(q, w1, x1, x2, x3, w1 * x1, w1 * x2, w1 * x3);
    WeighScaled(q, w2, x2, x3, x4, w2 * x2, w2 * x3, w2 * x4);
    WeighAddsThree(q, w0 * n, w0 * x1, w0 * x2, w1 * x1, w1 * x2, w1 * x3, w2 * x2, w2 * x3, w2 * x4,
                   w.Weigh(n, x1, x2), w.Weigh(x1, x2, x3), w.Weigh(x2, x3, x4));
  }

  lemma WeightsAreOrthogonal(m: Moments)
    ensures var w := CurvatureWeights(m); w.Weigh(m.n, m.x1, m.x2) == 0.0 && w.Weigh(m.x1, m.x2, m.x3) == 0.0
  {
    var n, a, b, c := m.n, m.x1, m.x2, m.x3;
    Cross(n, a, b, c);
  }

  lemma Cross(n: real, a: real, b: real, c: real)
    ensures (a * c - Squared(b)) * n + (a * b - n * c) * a + (n * b - Squared(a)) * b == 0.0
    ensures (a * c - Squared(b)) * a + (a * b - n * c) * b + (n * b - Squared(a)) * c == 0.0
  {
    assert (a * c - b * b) * n == a * c * n - b * b * n;
    assert (a * b - n * c) * a == a * b * a - n * c * a;
    assert (n * b - a * a) * b == n * b * b - a * a * b;
    assert (a * c - b * b) * a == a * c * a - b * b * a;
    assert (a * b - n * c) * b == a * b * b - n * c * b;
    assert (n * b - a * a) * c == n * b * c - a * a * c;
  }

  lemma OnlyCurvatureWeighs(q: Quadratic, c: real)
    ensures q.Weigh(0.0, 0.0, c) == q.b2 * c
  {}

  /** The weights see nothing of a parabola but its curvature. */
  lemma CurvatureWeighs(m: Moments, q: Quadratic)
    requires NormalEquations(m, q)
    ensures var w := CurvatureWeights(m); w.Weigh(m.y, m.xy, m.x2y) == q.b2 * w.Weigh(m.x2, m.x3, m.x4)
  {
    hide Quadratic.Weigh, CurvatureWeights;
    var w := CurvatureWeights(m);
    WeighingCommutes(w, q, m);
    WeightsAreOrthogonal(m);
    OnlyCurvatureWeighs(q, w.Weigh(m.x2, m.x3, m.x4));
  }

  lemma WeightsNotZero(m: Moments)
    requires Gap(m) != 0.0
    ensures CurvatureWeights(m) != ZERO
  {}

  lemma FormIs(m: Moments, q: Quadratic)
    ensures Form(m, q) == q.Weigh(q.Weigh(m.n, m.x1, m.x2), q.Weigh(m.x1, m.x2, m.x3), q.Weigh(m.x2, m.x3, m.x4))
  {}

  /** And they do see it. */
  lemma {:induction false} CurvatureIsSeen(x: seq<real>, y: seq<real>)
    requires |x| == |y| && ThreeAbscissae(x) && Gap(Gather(x, y)) != 0.0
    ensures var m := Gather(x, y); CurvatureWeights(m).Weigh(m.x2, m.x3, m.x4) != 0.0
  {
    hide *;
    var m := Gather(x, y);
    var w := CurvatureWeights(m);
    WeightsNotZero(m);
    VanishingQuadratic(x, w);
    SumOfSquaresFromMoments(x, y, w);
    FormIs(m, w);
    WeightsAreOrthogonal(m);
    OnlyCurvatureWeighs(w, w.Weigh(m.x2, m.x3, m.x4));
    NotFromZero(w.b2, w.Weigh(m.x2, m.x3, m.x4));
  }

  lemma NotFromZero(a: real, b: real)
    ensures a * b != 0.0 ==> b != 0.0
  {}

  lemma FactorIff(k: real, a: real, b: real)
    requires k == a * b && b != 0.0
    ensures a != 0.0 <==> k != 0.0
  {
    if a * b == 0.0 {
      ZeroFactor(a, b);
    }
  }

  // ---------- Through the samples ----------

  lemma SameWeights(m: Moments, m': Moments)
    requires SameAbscissae(m, m')
    ensures CurvatureWeights(m) == CurvatureWeights(m') && SlopeWeights(m) == SlopeWeights(m')
  {}

  lemma {:induction false} SolutionCurvedIff(x: seq<real>, y: seq<real>, q: Quadratic)
    requires |x| == |y| && NormalEquations(Gather(x, y), q) && ThreeAbscissae(x) && Gap(Gather(x, y)) != 0.0
    ensures q.b2 != 0.0 <==> Weighted(x, y, CurvatureWeights(Gather(x, y))) != 0.0
  {
    hide *;
    var m := Gather(x, y);
    var w := CurvatureWeights(m);
    WeightedFromMoments(x, y, w);
    CurvatureWeighs(m, q);
    CurvatureIsSeen(x, y);
    FactorIff(w.Weigh(m.y, m.xy, m.x2y), q.b2, w.Weigh(m.x2, m.x3, m.x4));
  }

  lemma {:induction false} SolutionSlopedIff(x: seq<real>, y: seq<real>, q: Quadratic)
    requires |x| == |y| && NormalEquations(Gather(x, y), q) && q.b2 == 0.0 && Gap(Gather(x, y)) != 0.0
    ensures q.b1 != 0.0 <==> Weighted(x, y, SlopeWeights(Gather(x, y))) != 0.0
  {
    hide *;
    var m := Gather(x, y);
    WeightedFromMoments(x, y, SlopeWeights(m));
    SlopeWeighs(m, q);
    FactorIff(SlopeWeights(m).Weigh(m.y, m.xy, m.x2y), q.b1, -Gap(m));
  }

  /** What is known of the window of the samples. */
  lemma {:induction false} WindowIs(y: seq<real>)
    requires |y| >= MIN_BINS_TO_OPERATE_ON
    ensures var x := OffsetWindow(|y|);
            && |y| >= 5 && |x| == |y| && ThreeAbscissae(x) && Gap(Gather(x, y)) != 0.0
            && CurvatureOf(y) == Weighted(x, y, CurvatureWeights(Gather(x, y)))
            && SlopeOf(y) == Weighted(x, y, SlopeWeights(Gather(x, y)))
  {
    hide Gather, Gap, Weighted, ThreeAbscissae, OffsetWindow, CurvatureWeights, SlopeWeights;
    var x := OffsetWindow(|y|);
    OffsetGap(y);
    OffsetHasThreeAbscissae(|y|);
    AbscissaMoments(x, y, x);
    SameWeights(Gather(x, y), Gather(x, x));
  }

  /** A fit is curved exactly when the curvature combination of its samples is not zero. */
  lemma CurvedIff(y: seq<real>)
    requires |y| >= MIN_BINS_TO_OPERATE_ON
    ensures OffsetFit(y).b2 != 0.0 <==> CurvatureOf(y) != 0.0
  {
    hide *;
    WindowIs(y);
    OffsetFitSolves(y);
    SolutionCurvedIff(OffsetWindow(|y|), y, OffsetFit(y));
  }

  /** A fit that is not curved slopes exactly when the slope combination is not zero. */
  lemma SlopedIff(y: seq<real>)
    requires |y| >= MIN_BINS_TO_OPERATE_ON && OffsetFit(y).b2 == 0.0
    ensures OffsetFit(y).b1 != 0.0 <==> SlopeOf(y) != 0.0
  {
    hide *;
    WindowIs(y);
    OffsetFitSolves(y);
    SolutionSlopedIff(OffsetWindow(|y|), y, OffsetFit(y));
  }

  lemma SlopeWeighs(m: Moments, q: Quadratic)
    requires NormalEquations(m, q) && q.b2 == 0.0
    ensures SlopeWeights(m).Weigh(m.y, m.xy, m.x2y) == q.b1 * -Gap(m)
  {
    hide Quadratic.Weigh, NormalEquations, Squared;
    StraightEquations(m, q);
    SlopeTerms(q.b0, q.b1, m.x1, m.x2, m.x3, m.xy, m.x2y);
    WeighIs(SlopeWeights(m), m.y, m.xy, m.x2y);
  }

  lemma StraightEquations(m: Moments, q: Quadratic)
    requires NormalEquations(m, q) && q.b2 == 0.0
    ensures m.xy == q.b0 * m.x1 + q.b1 * m.x2 && m.x2y == q.b0 * m.x2 + q.b1 * m.x3
  {}

  lemma SlopeTerms(b0: real, b1: real, x1: real, x2: real, x3: real, xy: real, x2y: real)
    requires xy == b0 * x1 + b1 * x2 && x2y == b0 * x2 + b1 * x3
    ensures x2 * xy + -x1 * x2y == b1 * -(x1 * x3 - Squared(x2))
  {
    Split(x2, b0 * x1, b1 * x2);
    Split(x1, b0 * x2, b1 * x3);
    Regroup(x2, b0, x1);
    Regroup(x1, b0, x2);
    Regroup(x2, b1, x2);
    Regroup(x1, b1, x3);
    Split(b1, Squared(x2), -(x1 * x3));
  }

  // ---------- Five bins ----------

  lemma {:induction false} GatherFive(x: seq<real>, y: seq<real>)
    requires |x| == |y| == 5
    ensures Gather(x, y)
            == OneSample(x[0], y[0]).Plus(OneSample(x[1], y[1])).Plus(OneSample(x[2], y[2]))
                                    .Plus(OneSample(x[3], y[3])).Plus(OneSample(x[4], y[4]))
  {
    hide Gather, OneSample, Moments.Plus;
    GatherOne(x[..1], y[..1]);
    assert x[..2][..1] == x[..1] && y[..2][..1] == y[..1];
    GatherLast(x[..2], y[..2]);
    assert x[..3][..2] == x[..2] && y[..3][..2] == y[..2];
    GatherLast(x[..3], y[..3]);
    assert x[..4][..3] == x[..3] && y[..4][..3] == y[..3];
    GatherLast(x[..4], y[..4]);
    GatherLast(x, y);
  }

  lemma {:induction false} WeightedFive(x: seq<real>, y: seq<real>, w: Quadratic)
    requires |x| == |y| == 5
    ensures Weighted(x, y, w) == w.At(x[0]) * y[0] + w.At(x[1]) * y[1] + w.At(x[2]) * y[2] + w.At(x[3]) * y[3] + w.At(x[4]) * y[4]
  {
    hide Weighted, Quadratic.At;
    WeightedEmpty(x[..0], y[..0], w);
    assert x[..1][..0] == x[..0] && y[..1][..0] == y[..0];
    WeightedLast(x[..1], y[..1], w);
    assert x[..2][..1] == x[..1] && y[..2][..1] == y[..1];
    WeightedLast(x[..2], y[..2], w);
    assert x[..3][..2] == x[..2] && y[..3][..2] == y[..2];
    WeightedLast(x[..3], y[..3], w);
    assert x[..4][..3] == x[..3] && y[..4][..3] == y[..3];
    WeightedLast(x[..4], y[..4], w);
    WeightedLast(x, y, w);
  }

  lemma FiveAbscissae()
    ensures OffsetWindow(5) == [-2.0, -1.0, 0.0, 1.0, 2.0]
  {}

  lemma FiveMoments()
    ensures var m := Gather(OffsetWindow(5), OffsetWindow(5)); m.n == 5.0 && m.x1 == 0.0 && m.x2 == 10.0 && m.x3 == 0.0
  {
    hide *;
    FiveAbscissae();
    GatherFive(OffsetWindow(5), OffsetWindow(5));
    FirstSample(-2.0, -2.0);
    var a := OneSample(-2.0, -2.0);
    PlusSample(a, -1.0, -1.0);
    var b := a.Plus(OneSample(-1.0, -1.0));
    PlusSample(b, 0.0, 0.0);
    var c := b.Plus(OneSample(0.0, 0.0));
    PlusSample(c, 1.0, 1.0);
    PlusSample(c.Plus(OneSample(1.0, 1.0)), 2.0, 2.0);
  }

  lemma FirstSample(u: real, v: real)
    ensures var m := OneSample(u, v); m.n == 1.0 && m.x1 == u && m.x2 == u * u && m.x3 == u * (u * u)
  {}

  lemma FiveWeights(m: Moments)
    requires m.n == 5.0 && m.x1 == 0.0 && m.x2 == 10.0 && m.x3 == 0.0
    ensures CurvatureWeights(m) == Quadratic(-100.0, 0.0, 50.0) && SlopeWeights(m) == Quadratic(0.0, 10.0, 0.0)
  {}

  lemma ValueAt(b0: real, b1: real, b2: real, t: real, v: real)
    requires v == b0 + b1 * t + b2 * (t * t)
    ensures Quadratic(b0, b1, b2).At(t) == v
  {}

  lemma FiveValues()
    ensures var w := Quadratic(-100.0, 0.0, 50.0);
            w.At(-2.0) == w.At(2.0) == 100.0 && w.At(-1.0) == w.At(1.0) == -50.0 && w.At(0.0) == -100.0
    ensures var w := Quadratic(0.0, 10.0, 0.0);
            w.At(-2.0) == -20.0 && w.At(-1.0) == -10.0 && w.At(0.0) == 0.0 && w.At(1.0) == 10.0 && w.At(2.0) == 20.0
  {
    hide *;
    ValueAt(-100.0, 0.0, 50.0, -2.0, 100.0);
    ValueAt(-100.0, 0.0, 50.0, -1.0, -50.0);
    ValueAt(-100.0, 0.0, 50.0, 0.0, -100.0);
    ValueAt(-100.0, 0.0, 50.0, 1.0, -50.0);
    ValueAt(-100.0, 0.0, 50.0, 2.0, 100.0);
    ValueAt(0.0, 10.0, 0.0, -2.0, -20.0);
    ValueAt(0.0, 10.0, 0.0, -1.0, -10.0);
    ValueAt(0.0, 10.0, 0.0, 0.0, 0.0);
    ValueAt(0.0, 10.0, 0.0, 1.0, 10.0);
    ValueAt(0.0, 10.0, 0.0, 2.0, 20.0);
  }

  lemma {:induction false} WindowOfFive(y: seq<real>)
    requires |y| == 5
    ensures var x := OffsetWindow(5);
            && CurvatureOf(y) == Weighted(x, y, CurvatureWeights(Gather(x, x)))
            && SlopeOf(y) == Weighted(x, y, SlopeWeights(Gather(x, x)))
  {}

  /** For a window of five bins the combinations are small whole numbers. */
  lemma FiveBins(y: seq<real>)
    requires |y| == 5
    ensures CurvatureOf(y) == 50.0 * (2.0 * y[0] - y[1] - 2.0 * y[2] - y[3] + 2.0 * y[4])
    ensures SlopeOf(y) == 10.0 * (-2.0 * y[0] - y[1] + y[3] + 2.0 * y[4])
  {
    hide *;
    var x := OffsetWindow(5);
    WindowOfFive(y);
    FiveAbscissae();
    FiveMoments();
    FiveWeights(Gather(x, x));
    FiveValues();
    WeightedFive(x, y, Quadratic(-100.0, 0.0, 50.0));
    WeightedFive(x, y, Quadratic(0.0, 10.0, 0.0));
  }
}
