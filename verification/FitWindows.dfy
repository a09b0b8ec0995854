/** The two windows of abscissae the resolvers fit over, and why elimination never divides by zero on
    them: offsets around the peak (cpp_17/navigation/peak_finder.cpp) and absolute bin numbers
    (pythonexamples/NavigationModePeakDetectionFromOneFFTofRawData.py). */
module FitWindows {
  import opened LeastSquares
  import opened Elimination

  /** How many bins of a window of `n` lie before the peak. */
  function BinsToOffset(n: int): int
    requires n > 0
  {
    (n - 1) / 2
  }

  /** `n` consecutive whole numbers from `first`. */
  function Run(first: int, n: nat): (x: seq<real>)
    ensures |x| == n && forall i :: 0 <= i < n ==> x[i] == (first + i) as real
  {
    seq(n, i => (first + i) as real)
  }

  function OffsetWindow(n: nat): (x: seq<real>)
    requires n > 0
    ensures |x| == n
  {
    Run(-BinsToOffset(n), n)
  }

  function AbsoluteWindow(peak: nat, n: nat): (x: seq<real>)
    requires n > 0
    ensures |x| == n
  {
    Run(peak - BinsToOffset(n), n)
  }

  lemma AbsoluteIsShifted(peak: nat, n: nat)
    requires n > 0
    ensures AbsoluteWindow(peak, n) == Shifted(OffsetWindow(n), peak as real)
  {}

  lemma RunHasThreeAbscissae(first: int, n: nat)
    requires n >= 3
    ensures ThreeAbscissae(Run(first, n))
  {
    var x := Run(first, n);
    assert x[0] != x[1] && x[0] != x[2] && x[1] != x[2];
  }

  // ---------- Moments of the abscissae alone ----------

  lemma SecondMomentLast(m: Moments, u: real, v: real)
    ensures m.Plus(OneSample(u, v)).x2 == m.x2 + Squared(u) && Squared(u) >= 0.0
  {}

  lemma {:induction false} SecondMomentNonNegative(x: seq<real>, y: seq<real>)
    requires |x| == |y|
    ensures Gather(x, y).x2 >= 0.0
  {
    hide Gather;
    if |x| == 0 {
      GatherEmpty(x, y);
    } else {
      var k := |x| - 1;
      hide *;
      SecondMomentNonNegative(x[..k], y[..k]);
      GatherLast(x, y);
      SecondMomentLast(Gather(x[..k], y[..k]), x[k], y[k]);
    }
  }

  lemma {:induction false} SecondMomentAtLeast(x: seq<real>, y: seq<real>, i: nat)
    requires |x| == |y| && i < |x|
    ensures Gather(x, y).x2 >= Squared(x[i])
  {
    hide *;
    var k := |x| - 1;
    SecondMomentNonNegative(x[..k], y[..k]);
    GatherLast(x, y);
    SecondMomentLast(Gather(x[..k], y[..k]), x[k], y[k]);
    if i != k {
      SecondMomentAtLeast(x[..k], y[..k], i);
    }
  }

  lemma SquarePositive(r: real)
    requires r != 0.0
    ensures Squared(r) > 0.0
  {
    assert Squared(r) >= 0.0;
    if Squared(r) == 0.0 {
      ZeroFactor(r, r);
    }
  }

  lemma {:induction false} SecondMomentPositive(x: seq<real>, y: seq<real>, i: nat)
    requires |x| == |y| && i < |x| && x[i] != 0.0
    ensures Gather(x, y).x2 > 0.0
  {
    hide *;
    SecondMomentAtLeast(x, y, i);
    SquarePositive(x[i]);
  }

  /** Two sets of moments of the same abscissae. */
  predicate SameAbscissae(m: Moments, m': Moments) {
    m.n == m'.n && m.x1 == m'.x1 && m.x2 == m'.x2 && m.x3 == m'.x3 && m.x4 == m'.x4
  }

  lemma SameAbscissaeStep(m: Moments, m': Moments, u: real, v: real, v': real)
    requires SameAbscissae(m, m')
    ensures SameAbscissae(m.Plus(OneSample(u, v)), m'.Plus(OneSample(u, v')))
  {}

  /** The moments of the abscissae do not depend on the samples. */
  lemma {:induction false} AbscissaMoments(x: seq<real>, y: seq<real>, y': seq<real>)
    requires |x| == |y| == |y'|
    ensures SameAbscissae(Gather(x, y), Gather(x, y'))
  {
    if |x| == 0 {
    } else {
      hide *;
      var k := |x| - 1;
      AbscissaMoments(x[..k], y[..k], y'[..k]);
      GatherLast(x, y);
      GatherLast(x, y');
      SameAbscissaeStep(Gather(x[..k], y[..k]), Gather(x[..k], y'[..k]), x[k], y[k], y'[k]);
    }
  }

  // ---------- Offsets around the peak ----------

  lemma {:induction false} OffsetPivots(y: seq<real>)
    requires |y| >= 5
    ensures PivotsNonzero(Gather(OffsetWindow(|y|), y))
  {
    hide *;
    OffsetGap(y);
    OffsetHasThreeAbscissae(|y|);
    SecondPivotFromGap(Gather(OffsetWindow(|y|), y));
    LastPivotNonzero(OffsetWindow(|y|), y);
  }

  lemma OffsetHasThreeAbscissae(n: nat)
    requires n >= 3
    ensures ThreeAbscissae(OffsetWindow(n))
  {
    RunHasThreeAbscissae(0 - BinsToOffset(n), n);
  }

  /** The bins either side of the peak, as far as the window reaches before it. */
  lemma {:induction false} SymmetricMoments(o: nat, y: seq<real>)
    requires o >= 2 && |y| == 2 * o + 1
    ensures var m := Gather(Run(0 - o, |y|), y); m.x1 == 0.0 && m.x3 == 0.0 && m.x2 > 0.0
  {
    var s := Run(0 - o, |y|);
    var flat := seq(|y|, _ => 0.0);
    assert Mirrored(s, flat);
    assert s[0] != 0.0;
    hide Gather;
    MirroredMoments(s, flat);
    AbscissaMoments(s, y, flat);
    SecondMomentPositive(s, y, 0);
  }

  /** The window is symmetric about the peak, except that an even one has one bin more after it. */
  lemma {:induction false} OffsetGap(y: seq<real>)
    requires |y| >= 5
    ensures var m := Gather(OffsetWindow(|y|), y); m.x2 != 0.0 && Gap(m) != 0.0
  {
    hide *;
    var n := |y|;
    if n % 2 == 1 {
      OddOffset(n);
      SymmetricMoments((n - 1) / 2, y);
      OddWindowGap(Gather(OffsetWindow(n), y));
    } else {
      EvenOffset(n);
      var s := Run(1 - n / 2, n - 1);
      SymmetricMoments(n / 2 - 1, y[..n - 1]);
      GatherLast(OffsetWindow(n), y);
      EvenWindowGap(Gather(s, y[..n - 1]), (n / 2) as real, y[n - 1]);
    }
  }

  lemma OddOffset(n: nat)
    requires n > 0 && n % 2 == 1
    ensures OffsetWindow(n) == Run(0 - (n - 1) / 2, n)
  {}

  lemma EvenOffset(n: nat)
    requires n >= 2 && n % 2 == 0
    ensures OffsetWindow(n)[..n - 1] == Run(0 - (n / 2 - 1), n - 1) == Run(1 - n / 2, n - 1)
    ensures OffsetWindow(n)[n - 1] == (n / 2) as real > 0.0
  {}

  lemma ProductPositive(a: real, b: real)
    requires a > 0.0 && b > 0.0
    ensures a * b > 0.0
  {}

  lemma OddWindowGap(m: Moments)
    requires m.x1 == 0.0 && m.x2 > 0.0
    ensures Gap(m) != 0.0
  {
    SquarePositive(m.x2);
    assert m.x1 * m.x3 == 0.0;
    hide Squared;
  }

  lemma EvenWindowGap(m: Moments, k: real, v: real)
    requires m.x1 == 0.0 && m.x3 == 0.0 && m.x2 > 0.0 && k > 0.0
    ensures var m' := m.Plus(OneSample(k, v)); m'.x2 != 0.0 && Gap(m') != 0.0
  {
    ProductPositive(k, k);
    EvenGap(m.x2, k * k, k, k * (k * k));
  }

  /** `w` is the square and `c` the cube of the one bin that has no mirror image. */
  lemma EvenGap(e: real, w: real, k: real, c: real)
    requires e > 0.0 && w > 0.0 && w * w == k * c
    ensures k * c - Squared(e + w) != 0.0
  {
    Split(e + w, e, w);
    Split(e, e, w);
    Split(w, e, w);
    ProductPositive(e, e);
    ProductPositive(e, w);
  }

  // ---------- Absolute bin numbers ----------

  ghost predicate NonNegative(x: seq<real>) {
    forall i :: 0 <= i < |x| ==> x[i] >= 0.0
  }

  lemma NonNegativePrefix(x: seq<real>)
    requires |x| > 0 && NonNegative(x)
    ensures NonNegative(x[..|x| - 1]) && x[|x| - 1] >= 0.0
  {}

  /** The sum of `x[i] * (x[i] - v)^2`, through the moments. */
  function Spread(m: Moments, v: real): real {
    m.x3 - 2.0 * (v * m.x2) + (v * v) * m.x1
  }

  lemma NothingSpreads(v: real)
    ensures Spread(NO_SAMPLES, v) == 0.0
  {}

  lemma SpreadTerm(u: real, v: real)
    ensures u * ((u - v) * (u - v)) == u * (u * u) - 2.0 * (v * (u * u)) + (v * v) * u
  {
    SquareOfDifference(u, v);
    Split(u, u * u + v * v, -(2.0 * (u * v)));
    Split(u, u * u, v * v);
    Regroup(u, u, v);
  }

  /** One more abscissa adds its own term. */
  lemma SpreadStep(m: Moments, v: real, u: real, w: real)
    ensures Spread(m.Plus(OneSample(u, w)), v) == Spread(m, v) + u * Squared(u - v)
  {
    SpreadTerm(u, v);
    Split(v, m.x2, u * u);
    Split(v * v, m.x1, u);
  }

  lemma TermSign(u: real, d: real)
    requires u >= 0.0
    ensures u * Squared(d) >= 0.0
    ensures u != 0.0 && d != 0.0 ==> u * Squared(d) > 0.0
  {
    if u == 0.0 || d == 0.0 {
      assert u * Squared(d) == 0.0;
    } else {
      SquarePositive(d);
      hide Squared;
      ProductPositive(u, Squared(d));
    }
  }

  lemma SpreadGrows(m: Moments, v: real, u: real, w: real)
    requires u >= 0.0
    ensures Spread(m.Plus(OneSample(u, w)), v) >= Spread(m, v)
    ensures u != 0.0 && u != v ==> Spread(m.Plus(OneSample(u, w)), v) > Spread(m, v)
  {
    hide *;
    SpreadStep(m, v, u, w);
    TermSign(u, u - v);
  }

  lemma {:induction false} SpreadNonNegative(x: seq<real>, y: seq<real>, v: real)
    requires |x| == |y| && NonNegative(x)
    ensures Spread(Gather(x, y), v) >= 0.0
  {
    if |x| == 0 {
      hide *;
      GatherEmpty(x, y);
      NothingSpreads(v);
    } else {
      var k := |x| - 1;
      hide *;
      NonNegativePrefix(x);
      SpreadNonNegative(x[..k], y[..k], v);
      GatherLast(x, y);
      SpreadGrows(Gather(x[..k], y[..k]), v, x[k], y[k]);
    }
  }

  lemma {:induction false} SpreadPositive(x: seq<real>, y: seq<real>, v: real, i: nat)
    requires |x| == |y| && NonNegative(x)
    requires i < |x| && x[i] != 0.0 && x[i] != v
    ensures Spread(Gather(x, y), v) > 0.0
  {
    var k := |x| - 1;
    hide *;
    NonNegativePrefix(x);
    if i == k {
      SpreadNonNegative(x[..k], y[..k], v);
    } else {
      SpreadPositive(x[..k], y[..k], v, i);
    }
    GatherLast(x, y);
    SpreadGrows(Gather(x[..k], y[..k]), v, x[k], y[k]);
  }

  lemma NothingLeavesNoGap()
    ensures Gap(NO_SAMPLES) == 0.0
  {}

  lemma GapIs(m: Moments, x1: real, x2: real, x3: real)
    requires m.x1 == x1 && m.x2 == x2 && m.x3 == x3
    ensures Gap(m) == x1 * x3 - Squared(x2)
  {
    hide Squared;
  }

  lemma GapStep(m: Moments, v: real, w: real)
    ensures Gap(m.Plus(OneSample(v, w))) == Gap(m) + v * Spread(m, v)
  {
    hide *;
    PlusSample(m, v, w);
    Group(v, v, v * v);
    GapIs(m, m.x1, m.x2, m.x3);
    GapIs(m.Plus(OneSample(v, w)), m.x1 + v, m.x2 + v * v, m.x3 + v * (v * v));
    GapAlgebra(m.x1, m.x2, m.x3, v, v * v, v * (v * v));
    SpreadTimes(m.x1, m.x2, m.x3, v);
    SpreadIs(m, v);
  }

  lemma SpreadIs(m: Moments, v: real)
    ensures Spread(m, v) == m.x3 - 2.0 * (v * m.x2) + (v * v) * m.x1
  {}

  lemma SpreadTimes(x1: real, x2: real, x3: real, v: real)
    ensures v * (x3 - 2.0 * (v * x2) + (v * v) * x1) == v * x3 - 2.0 * ((v * v) * x2) + (v * (v * v)) * x1
  {
    Split(v, x3 - 2.0 * (v * x2), (v * v) * x1);
    Split(v, x3, -(2.0 * (v * x2)));
    Group(v, v, x2);
    Group(v, v * v, x1);
  }

  lemma GapAlgebra(x1: real, x2: real, x3: real, v: real, s: real, c: real)
    requires v * c == s * s
    ensures (x1 + v) * (x3 + c) - Squared(x2 + s)
            == (x1 * x3 - Squared(x2)) + (v * x3 - 2.0 * (s * x2) + c * x1)
  {
    Split(x1 + v, x3, c);
    Split(x3, x1, v);
    Split(c, x1, v);
    Split(x2 + s, x2, s);
    Split(x2, x2, s);
    Split(s, x2, s);
  }

  lemma ProductNonNegative(a: real, b: real)
    requires a >= 0.0 && b >= 0.0
    ensures a * b >= 0.0
  {}

  lemma {:induction false} GapNonNegative(x: seq<real>, y: seq<real>)
    requires |x| == |y| && NonNegative(x)
    ensures Gap(Gather(x, y)) >= 0.0
  {
    if |x| == 0 {
      hide *;
      GatherEmpty(x, y);
      NothingLeavesNoGap();
    } else {
      var k := |x| - 1;
      hide *;
      NonNegativePrefix(x);
      GapNonNegative(x[..k], y[..k]);
      SpreadNonNegative(x[..k], y[..k], x[k]);
      GatherLast(x, y);
      GapStep(Gather(x[..k], y[..k]), x[k], y[k]);
      ProductNonNegative(x[k], Spread(Gather(x[..k], y[..k]), x[k]));
    }
  }

  /** Two different positive abscissae leave a gap. */
  lemma {:induction false} GapPositive(x: seq<real>, y: seq<real>, i: nat, j: nat)
    requires |x| == |y| && NonNegative(x)
    requires i < j < |x| && x[i] != 0.0 && x[j] != 0.0 && x[i] != x[j]
    ensures Gap(Gather(x, y)) > 0.0
  {
    var k := |x| - 1;
    hide *;
    NonNegativePrefix(x);
    GatherLast(x, y);
    GapStep(Gather(x[..k], y[..k]), x[k], y[k]);
    if j == k {
      GapNonNegative(x[..k], y[..k]);
      SpreadPositive(x[..k], y[..k], x[k], i);
      ProductPositive(x[k], Spread(Gather(x[..k], y[..k]), x[k]));
    } else {
      GapPositive(x[..k], y[..k], i, j);
      SpreadNonNegative(x[..k], y[..k], x[k]);
      ProductNonNegative(x[k], Spread(Gather(x[..k], y[..k]), x[k]));
    }
  }

  lemma {:induction false} AbsolutePivots(peak: nat, y: seq<real>)
    requires |y| >= 5 && peak >= BinsToOffset(|y|)
    ensures PivotsNonzero(Gather(AbsoluteWindow(peak, |y|), y))
  {
    var x := AbsoluteWindow(peak, |y|);
    RunHasThreeAbscissae(peak - BinsToOffset(|y|), |y|);
    assert NonNegative(x) && x[1] != 0.0 && x[2] != 0.0 && x[1] != x[2];
    hide *;
    SecondMomentPositive(x, y, 1);
    GapPositive(x, y, 1, 2);
    SecondPivotFromGap(Gather(x, y));
    LastPivotNonzero(x, y);
  }
}
