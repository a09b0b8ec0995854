/** Gaussian elimination of the three normal equations, in the order the resolvers do it: the x*x
    equation first clears the constant term of the other two, then the x equation clears the linear
    term of the last. Proves that the pivots decide everything and when they are nonzero. */
module Elimination {
  import opened LeastSquares

  function LessMultiple(a: real, f: real, b: real): real {
    a - f * b
  }

  /** An equation `c0*b0 + c1*b1 + c2*b2 == rhs`. */
  datatype Row = Row(c0: real, c1: real, c2: real, rhs: real) {
    predicate Holds(q: Quadratic) {
      q.Weigh(c0, c1, c2) == rhs
    }

    /** This equation less `f` times another. */
    function Less(f: real, r: Row): Row {
      Row(LessMultiple(c0, f, r.c0), LessMultiple(c1, f, r.c1), LessMultiple(c2, f, r.c2), LessMultiple(rhs, f, r.rhs))
    }
  }

  function QuadraticRow(m: Moments): Row { Row(m.x2, m.x3, m.x4, m.x2y) }

  function LinearRow(m: Moments): Row { Row(m.x1, m.x2, m.x3, m.xy) }

  function ConstantRow(m: Moments): Row { Row(m.n, m.x1, m.x2, m.y) }

  lemma WeighLess(q: Quadratic, f: real, v0: real, v1: real, v2: real, w0: real, w1: real, w2: real)
    ensures q.Weigh(v0 - f * w0, v1 - f * w1, v2 - f * w2) == q.Weigh(v0, v1, v2) - f * q.Weigh(w0, w1, w2)
  {
    LessProduct(q.b0, v0, f, w0);
    LessProduct(q.b1, v1, f, w1);
    LessProduct(q.b2, v2, f, w2);
    Split(f, q.b0 * w0 + q.b1 * w1, q.b2 * w2);
    Split(f, q.b0 * w0, q.b1 * w1);
  }

  lemma LessProduct(b: real, v: real, f: real, w: real)
    ensures b * (v - f * w) == b * v - f * (b * w)
  {
    Split(b, v, -(f * w));
    Regroup(b, f, w);
  }

  /** Subtracting a multiple of a true equation keeps another equation's solutions. */
  lemma LessKeepsSolutions(r: Row, f: real, p: Row, q: Quadratic)
    requires p.Holds(q)
    ensures r.Holds(q) <==> r.Less(f, p).Holds(q)
  {
    WeighLess(q, f, r.c0, r.c1, r.c2, p.c0, p.c1, p.c2);
    assert f * q.Weigh(p.c0, p.c1, p.c2) == f * p.rhs;
    hide Quadratic.Weigh;
  }

  /** The linear equation once the constant term has been cleared. */
  function ReducedLinear(m: Moments): Row
    requires m.x2 != 0.0
  {
    LinearRow(m).Less(m.x1 / m.x2, QuadraticRow(m))
  }

  function HalfReducedConstant(m: Moments): Row
    requires m.x2 != 0.0
  {
    ConstantRow(m).Less(m.n / m.x2, QuadraticRow(m))
  }

  /** The constant equation once the constant and the linear terms have been cleared. */
  function ReducedConstant(m: Moments): Row
    requires m.x2 != 0.0 && ReducedLinear(m).c1 != 0.0
  {
    HalfReducedConstant(m).Less(HalfReducedConstant(m).c1 / ReducedLinear(m).c1, ReducedLinear(m))
  }

  /** Every division of the elimination is by a nonzero number. */
  predicate PivotsNonzero(m: Moments) {
    m.x2 != 0.0 && ReducedLinear(m).c1 != 0.0 && ReducedConstant(m).c2 != 0.0
  }

  function Solve(m: Moments): Quadratic
    requires PivotsNonzero(m)
  {
    Substitute(QuadraticRow(m), ReducedLinear(m), ReducedConstant(m))
  }

  /** Back substitution through a triangular system. */
  function Substitute(a: Row, b: Row, c: Row): Quadratic
    requires a.c0 != 0.0 && b.c1 != 0.0 && c.c2 != 0.0
  {
    var b2 := c.rhs / c.c2;
    var b1 := (b.rhs - b.c2 * b2) / b.c1;
    Quadratic((a.rhs - a.c1 * b1 - a.c2 * b2) / a.c0, b1, b2)
  }

  lemma QuotientIsSolution(a: real, b: real, t: real)
    requires a != 0.0
    ensures a * t == b <==> t == b / a
  {}

  lemma ClearsFirst(r: Row, p: Row)
    requires p.c0 != 0.0
    ensures r.Less(r.c0 / p.c0, p).c0 == 0.0
  {
    QuotientIsSolution(p.c0, r.c0, r.c0 / p.c0);
  }

  lemma ClearsSecond(r: Row, p: Row)
    requires r.c0 == p.c0 == 0.0 && p.c1 != 0.0
    ensures r.Less(r.c1 / p.c1, p).c0 == 0.0 && r.Less(r.c1 / p.c1, p).c1 == 0.0
  {
    QuotientIsSolution(p.c1, r.c1, r.c1 / p.c1);
  }

  lemma ReducedRowsCleared(m: Moments)
    requires m.x2 != 0.0
    ensures ReducedLinear(m).c0 == 0.0
    ensures ReducedLinear(m).c1 != 0.0 ==> ReducedConstant(m).c0 == 0.0 && ReducedConstant(m).c1 == 0.0
  {
    ClearsFirst(LinearRow(m), QuadraticRow(m));
    ClearsFirst(ConstantRow(m), QuadraticRow(m));
    hide Row.Less;
    if ReducedLinear(m).c1 != 0.0 {
      ClearsSecond(HalfReducedConstant(m), ReducedLinear(m));
    }
  }

  lemma NormalEquationsAsRows(m: Moments, q: Quadratic)
    ensures NormalEquations(m, q) <==> QuadraticRow(m).Holds(q) && LinearRow(m).Holds(q) && ConstantRow(m).Holds(q)
  {
    hide Quadratic.Weigh;
  }

  /** The elimination keeps the solutions of the normal equations. */
  lemma EliminationKeepsSolutions(m: Moments, q: Quadratic)
    requires m.x2 != 0.0 && ReducedLinear(m).c1 != 0.0
    ensures NormalEquations(m, q)
            <==> QuadraticRow(m).Holds(q) && ReducedLinear(m).Holds(q) && ReducedConstant(m).Holds(q)
  {
    NormalEquationsAsRows(m, q);
    hide NormalEquations;
    hide Row.Less;
    hide Row.Holds;
    if QuadraticRow(m).Holds(q) {
      LessKeepsSolutions(LinearRow(m), m.x1 / m.x2, QuadraticRow(m), q);
      LessKeepsSolutions(ConstantRow(m), m.n / m.x2, QuadraticRow(m), q);
      if ReducedLinear(m).Holds(q) {
        LessKeepsSolutions(HalfReducedConstant(m), HalfReducedConstant(m).c1 / ReducedLinear(m).c1, ReducedLinear(m), q);
      }
    }
  }

  predicate Triangular(b: Row, c: Row) {
    b.c0 == 0.0 && c.c0 == 0.0 && c.c1 == 0.0
  }

  lemma SubstitutionSolves(a: Row, b: Row, c: Row, q: Quadratic)
    requires a.c0 != 0.0 && b.c1 != 0.0 && c.c2 != 0.0 && Triangular(b, c)
    ensures a.Holds(q) && b.Holds(q) && c.Holds(q) <==> q == Substitute(a, b, c)
  {
    QuotientIsSolution(c.c2, c.rhs, q.b2);
    QuotientIsSolution(b.c1, b.rhs - b.c2 * q.b2, q.b1);
    QuotientIsSolution(a.c0, a.rhs - a.c1 * q.b1 - a.c2 * q.b2, q.b0);
    assert c.Holds(q) <==> q.b2 * c.c2 == c.rhs;
    assert b.Holds(q) <==> q.b1 * b.c1 + q.b2 * b.c2 == b.rhs;
    assert a.Holds(q) <==> q.b0 * a.c0 + q.b1 * a.c1 + q.b2 * a.c2 == a.rhs;
    hide Row.Holds;
  }

  /** When no pivot is zero, elimination finds the one solution of the normal equations. */
  lemma EliminationSolves(m: Moments, q: Quadratic)
    requires PivotsNonzero(m)
    ensures NormalEquations(m, q) <==> q == Solve(m)
  {
    EliminationKeepsSolutions(m, q);
    ReducedRowsCleared(m);
    SubstitutionSolves(QuadraticRow(m), ReducedLinear(m), ReducedConstant(m), q);
    hide NormalEquations;
    hide Row.Holds;
    hide Substitute;
    hide ReducedLinear;
    hide ReducedConstant;
  }

  // ---------- When the pivots are nonzero ----------

  /** What Cauchy and Schwarz leave between `x1 * x3` and the square of `x2`. */
  function Gap(m: Moments): real {
    m.x1 * m.x3 - Squared(m.x2)
  }

  lemma SecondPivot(a: real, b: real, c: real)
    requires a != 0.0 && b * c - Squared(a) != 0.0
    ensures a - (b / a) * c != 0.0
  {
    var f := b / a;
    QuotientIsSolution(a, b, f);
    assert a * (f * c) == b * c by {
      assert (a * f) * c == b * c;
    }
    Split(a, a, -(f * c));
    assert a * (a - f * c) != 0.0;
  }

  lemma SecondPivotFromGap(m: Moments)
    requires m.x2 != 0.0 && Gap(m) != 0.0
    ensures ReducedLinear(m).c1 != 0.0
  {
    SecondPivot(m.x2, m.x1, m.x3);
  }

  /** The moments' quadratic form. */
  ghost function Form(m: Moments, q: Quadratic): real {
    q.Weigh(q.Weigh(m.n, m.x1, m.x2), q.Weigh(m.x1, m.x2, m.x3), q.Weigh(m.x2, m.x3, m.x4))
  }

  lemma NothingForms(q: Quadratic)
    ensures Form(NO_SAMPLES, q) == 0.0
  {}

  lemma FormStep(m: Moments, q: Quadratic, u: real, v: real)
    ensures Form(m.Plus(OneSample(u, v)), q) == Form(m, q) + q.At(u) * q.At(u)
  {
    hide Quadratic.Weigh, Quadratic.At, Moments.Plus, OneSample;
    var m', t := m.Plus(OneSample(u, v)), q.At(u);
    PlusSample(m, u, v);
    WeighSample(q, u);
    AtIsWeigh(q, u);
    WeighMore(q, m.n, m.x1, m.x2, 1.0, u, u * u, t, m'.n, m'.x1, m'.x2);
    WeighMore(q, m.x1, m.x2, m.x3, u, u * u, u * (u * u), u * t, m'.x1, m'.x2, m'.x3);
    WeighMore(q, m.x2, m.x3, m.x4, u * u, u * (u * u), (u * u) * (u * u), (u * u) * t, m'.x2, m'.x3, m'.x4);
    FormParts(q, q.Weigh(m.n, m.x1, m.x2), q.Weigh(m.x1, m.x2, m.x3), q.Weigh(m.x2, m.x3, m.x4), t, u, u * u,
              q.Weigh(m'.n, m'.x1, m'.x2), q.Weigh(m'.x1, m'.x2, m'.x3), q.Weigh(m'.x2, m'.x3, m'.x4));
  }

  lemma AtIsWeigh(q: Quadratic, u: real)
    ensures q.At(u) == q.Weigh(1.0, u, u * u)
  {}

  /** A sample's powers, `w0` to `w2`, are added to three moments. */
  lemma WeighMore(q: Quadratic, v0: real, v1: real, v2: real, w0: real, w1: real, w2: real, t: real,
                  s0: real, s1: real, s2: real)
    requires q.Weigh(w0, w1, w2) == t
    requires s0 == v0 + w0 && s1 == v1 + w1 && s2 == v2 + w2
    ensures q.Weigh(s0, s1, s2) == q.Weigh(v0, v1, v2) + t
  {
    WeighAdds(q, v0, v1, v2, w0, w1, w2);
  }

  lemma FormParts(q: Quadratic, c0: real, c1: real, c2: real, a: real, u: real, w: real, s0: real, s1: real, s2: real)
    requires a == q.Weigh(1.0, u, w)
    requires s0 == c0 + a && s1 == c1 + u * a && s2 == c2 + w * a
    ensures q.Weigh(s0, s1, s2) == q.Weigh(c0, c1, c2) + a * a
  {
    hide Quadratic.Weigh;
    WeighScales(q, a, 1.0, u, w);
    WeighMore(q, c0, c1, c2, a * 1.0, a * u, a * w, a * a, s0, s1, s2);
  }

  /** A quadratic's squares summed over the abscissae, through the moments. */
  lemma {:induction false} SumOfSquaresFromMoments(x: seq<real>, y: seq<real>, q: Quadratic)
    requires |x| == |y|
    ensures SumOfSquares(x, q) == Form(Gather(x, y), q)
  {
    hide *;
    if |x| == 0 {
      SumOfSquaresEmpty(x, q);
      GatherEmpty(x, y);
      NothingForms(q);
    } else {
      var k := |x| - 1;
      SumOfSquaresFromMoments(x[..k], y[..k], q);
      FormStep(Gather(x[..k], y[..k]), q, x[k], y[k]);
      SumOfSquaresLast(x, q);
      GatherLast(x, y);
    }
  }

  /** The last pivot: were it zero, a nonzero quadratic would vanish at three abscissae. */
  lemma {:induction false} LastPivotNonzero(x: seq<real>, y: seq<real>)
    requires |x| == |y| && ThreeAbscissae(x)
    requires Gather(x, y).x2 != 0.0 && ReducedLinear(Gather(x, y)).c1 != 0.0
    ensures PivotsNonzero(Gather(x, y))
  {
    hide Gather;
    hide ReducedLinear;
    hide ReducedConstant;
    hide Form;
    hide SumOfSquares;
    var m := Gather(x, y);
    if ReducedConstant(m).c2 == 0.0 {
      var q := SingularDirection(m);
      SumOfSquaresFromMoments(x, y, q);
      VanishingQuadratic(x, q);
      assert false;
    }
  }

  /** The same abscissae with nothing measured. */
  function Silent(m: Moments): Moments {
    m.(y := 0.0, xy := 0.0, x2y := 0.0)
  }

  lemma SilentRows(m: Moments)
    requires m.x2 != 0.0 && ReducedLinear(m).c1 != 0.0
    ensures var h := Silent(m);
            && QuadraticRow(h) == QuadraticRow(m).(rhs := 0.0)
            && ReducedLinear(h) == ReducedLinear(m).(rhs := 0.0)
            && ReducedConstant(h) == ReducedConstant(m).(rhs := 0.0)
  {
    LessSilent(LinearRow(m), m.x1 / m.x2, QuadraticRow(m));
    LessSilent(ConstantRow(m), m.n / m.x2, QuadraticRow(m));
    hide Row.Less;
    LessSilent(HalfReducedConstant(m), HalfReducedConstant(m).c1 / ReducedLinear(m).c1, ReducedLinear(m));
  }

  lemma LessSilent(r: Row, f: real, p: Row)
    ensures r.(rhs := 0.0).Less(f, p.(rhs := 0.0)) == r.Less(f, p).(rhs := 0.0)
  {}

  /** With a zero last pivot the equations have a direction in which they say nothing. */
  lemma SingularDirection(m: Moments) returns (q: Quadratic)
    requires m.x2 != 0.0 && ReducedLinear(m).c1 != 0.0 && ReducedConstant(m).c2 == 0.0
    ensures q.b2 == 1.0 && Form(m, q) == 0.0
  {
    hide *;
    q := FreeSolution(QuadraticRow(m), ReducedLinear(m), ReducedConstant(m)) by {
      QuadraticRowPivot(m);
      ReducedRowsAreTriangular(m);
    }
    SilentRows(m);
    SilentMoments(m);
    EliminationKeepsSolutions(Silent(m), q);
    SilentForm(m, q);
  }

  lemma QuadraticRowPivot(m: Moments)
    ensures QuadraticRow(m).c0 == m.x2
  {}

  lemma ReducedRowsAreTriangular(m: Moments)
    requires m.x2 != 0.0 && ReducedLinear(m).c1 != 0.0
    ensures Triangular(ReducedLinear(m), ReducedConstant(m))
  {
    ReducedRowsCleared(m);
  }

  lemma SilentMoments(m: Moments)
    ensures Silent(m).x2 == m.x2
  {}

  lemma SilentForm(m: Moments, q: Quadratic)
    requires NormalEquations(Silent(m), q)
    ensures Form(m, q) == 0.0
  {}

  lemma FreeSolution(a: Row, b: Row, c: Row) returns (q: Quadratic)
    requires a.c0 != 0.0 && b.c1 != 0.0 && c.c2 == 0.0 && Triangular(b, c)
    ensures q.b2 == 1.0 && a.(rhs := 0.0).Holds(q) && b.(rhs := 0.0).Holds(q) && c.(rhs := 0.0).Holds(q)
  {
    var b1 := -b.c2 / b.c1;
    var b0 := (-a.c1 * b1 - a.c2) / a.c0;
    QuotientIsSolution(b.c1, -b.c2, b1);
    QuotientIsSolution(a.c0, -a.c1 * b1 - a.c2, b0);
    q := Quadratic(b0, b1, 1.0);
  }
}
