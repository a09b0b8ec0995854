/** Sub-resolving a peak by fitting a parabola to the bins around it:
    `Peak_finder::peak_resolve` and the Python function of the same name, and why the two agree. */
module PeakResolver {
  import opened LeastSquares
  import opened Elimination
  import opened FitWindows
  import opened Floats
  import opened Options
  import opened VectorMaths

  const MIN_BINS_TO_OPERATE_ON := 5
  const MAX_BINS_TO_OPERATE_ON := 15

  // ---------- What resolving a peak means ----------

  /** The fit window of `n` bins lies within the data. */
  predicate WindowFits(size: nat, peak: int, n: int) {
    n > 0 && 0 <= peak - BinsToOffset(n) && peak - BinsToOffset(n) + n <= size
  }

  function Window(data: seq<real>, peak: int, n: int): (y: seq<real>)
    requires WindowFits(|data|, peak, n)
    ensures |y| == n
  {
    data[peak - BinsToOffset(n)..peak - BinsToOffset(n) + n]
  }

  /** The least-squares parabola of the samples `y` over the abscissae `x`. */
  ghost function Fit(x: seq<real>, y: seq<real>): (q: Quadratic)
    requires |x| == |y| && PivotsNonzero(Gather(x, y))
    ensures NormalEquations(Gather(x, y), q)
  {
    EliminationSolves(Gather(x, y), Solve(Gather(x, y)));
    var q :| NormalEquations(Gather(x, y), q);
    q
  }

  lemma {:induction false} FitIs(x: seq<real>, y: seq<real>, q: Quadratic)
    requires |x| == |y| && PivotsNonzero(Gather(x, y)) && NormalEquations(Gather(x, y), q)
    ensures Fit(x, y) == q
  {
    EliminationSolves(Gather(x, y), q);
    EliminationSolves(Gather(x, y), Fit(x, y));
  }

  /** The parabola fitted around a peak, in offsets from it. */
  ghost function OffsetFit(y: seq<real>): Quadratic
    requires |y| >= MIN_BINS_TO_OPERATE_ON
  {
    OffsetPivots(y);
    Fit(OffsetWindow(|y|), y)
  }

  ghost function AbsoluteFit(peak: nat, y: seq<real>): Quadratic
    requires |y| >= MIN_BINS_TO_OPERATE_ON && peak >= BinsToOffset(|y|)
  {
    AbsolutePivots(peak, y);
    Fit(AbsoluteWindow(peak, |y|), y)
  }

  /** Where a parabola turns; a straight line turns nowhere, a level one nowhere in particular. */
  ghost function TurningPoint(q: Quadratic): Extended {
    if q.b2 != 0.0 then Finite(Vertex(q))
    else if q.b1 != 0.0 then Infinite
    else NotANumber
  }

  ghost function ResolvedBin(data: seq<real>, peak: nat, n: nat): Extended
    requires n >= MIN_BINS_TO_OPERATE_ON && WindowFits(|data|, peak, n)
  {
    TurningPoint(OffsetFit(Window(data, peak, n))).Plus(peak as real)
  }

  // ---------- The C++ resolver ----------

  lemma LastAbscissa(m: Moments, s1: real, s2: real, s3: real, s4: real, u: real, v: real, p2: real, p3: real, p4: real)
    requires m.x1 == s1 && m.x2 == s2 && m.x3 == s3 && m.x4 == s4
    requires p2 == PlusProduct(0.0, u, u) && p3 == PlusCube(0.0, u) && p4 == PlusProduct(0.0, p2, p2)
    ensures var m' := m.Plus(OneSample(u, v));
            m'.x1 == s1 + u && m'.x2 == PlusProduct(s2, u, u) && m'.x3 == s3 + p3 && m'.x4 == s4 + p4
  {}

  lemma {:induction false} AbscissaSumsAreMoments(x: seq<real>, y: seq<real>, zero: seq<real>,
                                                  x2: seq<real>, x3: seq<real>, x4: seq<real>)
    requires |x| == |y| == |zero| == |x2| == |x3| == |x4| && AllZero(zero)
    requires ProductsAdded(zero, x, x, x2) && CubesAdded(zero, x, x3) && ProductsAdded(zero, x2, x2, x4)
    ensures var m := Gather(x, y); m.x1 == Sum(x) && m.x2 == Dot(x, x) && m.x3 == Sum(x3) && m.x4 == Sum(x4)
  {
    if |x| == 0 {
      GatherEmpty(x, y);
    } else {
      var k := |x| - 1;
      hide *;
      LastZero(zero);
      LastProductAdded(zero, x, x, x2);
      LastCubeAdded(zero, x, x3);
      LastProductAdded(zero, x2, x2, x4);
      AbscissaSumsAreMoments(x[..k], y[..k], zero[..k], x2[..k], x3[..k], x4[..k]);
      LastSum(x);
      LastDot(x, x);
      LastSum(x3);
      LastSum(x4);
      GatherLast(x, y);
      LastAbscissa(Gather(x[..k], y[..k]), Sum(x[..k]), Dot(x[..k], x[..k]), Sum(x3[..k]), Sum(x4[..k]),
                   x[k], y[k], x2[k], x3[k], x4[k]);
    }
  }

  lemma LastSample(m: Moments, s0: real, s1: real, s2: real, u: real, v: real, p2: real, py: real, p2y: real)
    requires m.y == s0 && m.xy == s1 && m.x2y == s2
    requires p2 == PlusProduct(0.0, u, u) && py == PlusProduct(0.0, u, v) && p2y == PlusProduct(0.0, p2, v)
    ensures var m' := m.Plus(OneSample(u, v)); m'.y == s0 + v && m'.xy == s1 + py && m'.x2y == s2 + p2y
  {}

  lemma {:induction false} SampleSumsAreMoments(x: seq<real>, y: seq<real>, zero: seq<real>,
                                                x2: seq<real>, xy: seq<real>, x2y: seq<real>)
    requires |x| == |y| == |zero| == |x2| == |xy| == |x2y| && AllZero(zero)
    requires ProductsAdded(zero, x, x, x2) && ProductsAdded(zero, x, y, xy) && ProductsAdded(zero, x2, y, x2y)
    ensures var m := Gather(x, y); m.y == Sum(y) && m.xy == Sum(xy) && m.x2y == Sum(x2y)
  {
    if |x| == 0 {
      GatherEmpty(x, y);
    } else {
      var k := |x| - 1;
      hide *;
      LastZero(zero);
      LastProductAdded(zero, x, x, x2);
      LastProductAdded(zero, x, y, xy);
      LastProductAdded(zero, x2, y, x2y);
      SampleSumsAreMoments(x[..k], y[..k], zero[..k], x2[..k], xy[..k], x2y[..k]);
      LastSum(y);
      LastSum(xy);
      LastSum(x2y);
      GatherLast(x, y);
      LastSample(Gather(x[..k], y[..k]), Sum(y[..k]), Sum(xy[..k]), Sum(x2y[..k]), x[k], y[k], x2[k], xy[k], x2y[k]);
    }
  }

  /** The sums over the abscissae; `x2` receives their squares. */
  method AbscissaSums(x: array<real>, n: nat, x2: array<real>, ghost zero: seq<real>, ghost y: seq<real>)
    returns (sx: real, sx2: real, sx3: real, sx4: real)
    requires n <= x.Length && x2.Length == n == |zero| == |y| && x != x2 && AllZero(zero) && x2[..] == zero
    modifies x2
    ensures ProductsAdded(zero, x[..n], x[..n], x2[..])
    ensures var m := Gather(x[..n], y); sx == m.x1 && sx2 == m.x2 && sx3 == m.x3 && sx4 == m.x4
  {
    hide *;
    assert x2[..n] == x2[..];
    sx := ScalarSum(x, n, 0.0);
    sx2 := ScalarSquare(x, n, 0.0);
    var x3 := new real[n](_ => 0.0);
    SeqOfZeros(x3[..n], zero);
    VectorCube(x, n, x3);
    ghost var cubes := x3[..n];
    sx3 := ScalarSum(x3, n, 0.0);
    VectorSquare(x, n, x2);
    ghost var squares := x2[..n];
    assert x2[..n] == x2[..];
    var x4 := new real[n](_ => 0.0);
    SeqOfZeros(x4[..n], zero);
    VectorMultiply(x2, x2, n, x4);
    assert x2[..n] == squares;
    sx4 := ScalarSum(x4, n, 0.0);
    AbscissaSumsAreMoments(x[..n], y, zero, squares, cubes, x4[..n]);
  }

  /** The sums over the samples. */
  method SampleSums(x: array<real>, x2: array<real>, y: array<real>, n: nat, ghost zero: seq<real>)
    returns (sy: real, sxy: real, sx2y: real)
    requires n <= x.Length && n <= y.Length && x2.Length == n == |zero| && AllZero(zero)
    requires ProductsAdded(zero, x[..n], x[..n], x2[..])
    ensures var m := Gather(x[..n], y[..n]); sy == m.y && sxy == m.xy && sx2y == m.x2y
  {
    hide *;
    assert x2[..n] == x2[..];
    sy := ScalarSum(y, n, 0.0);
    var xy := new real[n](_ => 0.0);
    SeqOfZeros(xy[..n], zero);
    VectorMultiply(x, y, n, xy);
    ghost var products := xy[..n];
    sxy := ScalarSum(xy, n, 0.0);
    var x2y := new real[n](_ => 0.0);
    SeqOfZeros(x2y[..n], zero);
    VectorMultiply(x2, y, n, x2y);
    sx2y := ScalarSum(x2y, n, 0.0);
    SampleSumsAreMoments(x[..n], y[..n], zero, x2[..n], products, x2y[..n]);
  }

  lemma {:induction false} SeqOfZeros(s: seq<real>, zero: seq<real>)
    requires |s| == |zero| && AllZero(zero) && forall i :: 0 <= i < |s| ==> s[i] == 0.0
    ensures s == zero
  {
    if |s| != 0 {
      SeqOfZeros(s[..|s| - 1], zero[..|s| - 1]);
    }
  }

  /** The sums of one window, loop by loop. */
  method GatherMoments(x: array<real>, y: array<real>, n: nat) returns (m: Moments)
    requires n <= x.Length && n <= y.Length
    ensures m == Gather(x[..n], y[..n])
  {
    hide *;
    var x2 := new real[n](_ => 0.0);
    ghost var zero, ys := x2[..], y[..n];
    ZerosAreAllZero(zero);
    var sx, sx2, sx3, sx4 := AbscissaSums(x, n, x2, zero, ys);
    assert y[..n] == ys;
    var sy, sxy, sx2y := SampleSums(x, x2, y, n, zero);
    m := Moments(n as real, sx, sx2, sx3, sx4, sy, sxy, sx2y);
    GatherCounts(x[..n], ys);
  }

  lemma {:induction false} GatherCounts(x: seq<real>, y: seq<real>)
    requires |x| == |y|
    ensures Gather(x, y).n == |x| as real
  {
    if |x| != 0 {
      GatherCounts(x[..|x| - 1], y[..|x| - 1]);
    }
  }

  /** The array holds the coefficients of an equation, from column `first` on. */
  predicate Stores(a: array<real>, row: Row, first: nat)
    reads a
  {
    && a.Length == 4
    && (first == 0 ==> a[0] == row.c0)
    && a[1] == row.c1 && a[2] == row.c2 && a[3] == row.rhs
  }

  /** `row -= f * pivot` in place, from column `first` on. */
  method SubtractMultiple(row: array<real>, f: real, pivot: array<real>, first: nat, ghost r: Row, ghost p: Row)
    requires row != pivot && first <= 1 && Stores(row, r, 0) && Stores(pivot, p, 0)
    modifies row
    ensures Stores(row, r.Less(f, p), first)
  {
    hide LessMultiple;
    var index := first;
    ghost var was := row[..];
    while index <= 3
      invariant first <= index <= 4
      invariant forall i :: 0 <= i < 4 ==> row[i] == if first <= i < index then LessMultiple(was[i], f, pivot[i]) else was[i]
    {
      row[index] := LessMultiple(row[index], f, pivot[index]);
      index := index + 1;
    }
  }

  /** The elimination over three arrays, in place. `first` is the column where its last loop starts:
      1 in C++, 0 in Python. */
  method Eliminate(m: Moments, first: nat) returns (b1: real, b2: real)
    requires PivotsNonzero(m) && first <= 1
    ensures b1 == Solve(m).b1 && b2 == Solve(m).b2
  {
    hide Row.Less;
    var a := new real[4] [m.x2, m.x3, m.x4, m.x2y];
    var b := new real[4] [m.x1, m.x2, m.x3, m.xy];
    var c := new real[4] [m.n, m.x1, m.x2, m.y];
    assert Stores(a, QuadraticRow(m), 0) && Stores(b, LinearRow(m), 0) && Stores(c, ConstantRow(m), 0);

    var f := c[0] / a[0];
    SubtractMultiple(c, f, a, 0, ConstantRow(m), QuadraticRow(m));
    f := b[0] / a[0];
    SubtractMultiple(b, f, a, 0, LinearRow(m), QuadraticRow(m));
    f := c[1] / b[1];
    SubtractMultiple(c, f, b, first, HalfReducedConstant(m), ReducedLinear(m));

    b2 := c[3] / c[2];
    b1 := (b[3] - b[2] * b2) / b[1];
  }

  lemma DividedTurningPoint(q: Quadratic, peak: real, start: real, offset: real)
    requires start + offset == peak
    ensures Divide(-q.b1, 2.0 * q.b2).Plus(start).Plus(offset) == TurningPoint(q).Plus(peak)
    ensures Divide(-q.b1, 2.0 * q.b2) == TurningPoint(q)
  {}

  /** `n` consecutive numbers from `startValue`, and the `n` samples from `startBin`. */
  method FillWindow(data: seq<real>, startValue: int, startBin: nat, n: nat, x: array<real>, y: array<real>)
    requires n <= x.Length && n <= y.Length && x != y && startBin + n <= |data|
    modifies x, y
    ensures x[..n] == Run(startValue, n) && y[..n] == data[startBin..startBin + n]
  {
    var next := startValue;
    for index := 0 to n
      invariant next == startValue + index
      invariant forall i :: 0 <= i < index ==> x[i] == (startValue + i) as real
    {
      x[index] := next as real;
      next := next + 1;
    }
    for index := 0 to n
      invariant forall i :: 0 <= i < n ==> x[i] == (startValue + i) as real
      invariant forall i :: 0 <= i < index ==> y[i] == data[startBin + i]
    {
      y[index] := data[startBin + index];
    }
  }

  /** What the bounds and the windows of a peak come to. */
  lemma WindowsOf(data: seq<real>, peak: nat, n: nat, start: int, offset: int)
    requires n >= MIN_BINS_TO_OPERATE_ON && WindowFits(|data|, peak, n)
    requires offset == (n - 1) / 2 && start == peak - offset
    ensures 0 <= start && start + n <= |data| && n >= 5 && peak >= BinsToOffset(n)
    ensures OffsetWindow(n) == Run(0 - offset, n) && AbsoluteWindow(peak, n) == Run(start, n)
    ensures Window(data, peak, n) == data[start..start + n]
    ensures start as real - (0 - offset) as real == peak as real
  {}

  method PeakResolve(data: seq<real>, peakBin: nat, n: nat) returns (bin: Extended)
    requires MIN_BINS_TO_OPERATE_ON <= n <= MAX_BINS_TO_OPERATE_ON && WindowFits(|data|, peakBin, n)
    ensures bin == ResolvedBin(data, peakBin, n)
  {
    hide *;
    var binsToOffset := (n - 1) / 2;
    var x := new real[MAX_BINS_TO_OPERATE_ON](_ => 0.0);
    var y := new real[MAX_BINS_TO_OPERATE_ON](_ => 0.0);
    var startBin := peakBin - binsToOffset;
    WindowsOf(data, peakBin, n, startBin, binsToOffset);
    FillWindow(data, 0 - binsToOffset, startBin, n, x, y);
    ghost var w := y[..n];
    var m := GatherMoments(x, y, n);
    OffsetPivots(w);
    var b1, b2 := Eliminate(m, 1);
    ghost var q := Solve(m);
    EliminationSolves(m, q);
    OffsetFitIs(w, q);
    DividedTurningPoint(q, peakBin as real, startBin as real, -((0 - binsToOffset) as real));
    ResolvedBinIs(data, peakBin, n);
    bin := Divide(-b1, 2.0 * b2).Plus(startBin as real).Plus(-((0 - binsToOffset) as real));
  }

  lemma ResolvedBinIs(data: seq<real>, peak: nat, n: nat)
    requires n >= MIN_BINS_TO_OPERATE_ON && WindowFits(|data|, peak, n)
    ensures ResolvedBin(data, peak, n) == TurningPoint(OffsetFit(Window(data, peak, n))).Plus(peak as real)
  {}

  lemma {:induction false} OffsetFitIs(y: seq<real>, q: Quadratic)
    requires |y| >= MIN_BINS_TO_OPERATE_ON && NormalEquations(Gather(OffsetWindow(|y|), y), q)
    ensures OffsetFit(y) == q
  {
    OffsetPivots(y);
    FitIs(OffsetWindow(|y|), y, q);
  }

  lemma {:induction false} AbsoluteFitIs(peak: nat, y: seq<real>, q: Quadratic)
    requires |y| >= MIN_BINS_TO_OPERATE_ON && peak >= BinsToOffset(|y|)
    requires NormalEquations(Gather(AbsoluteWindow(peak, |y|), y), q)
    ensures AbsoluteFit(peak, y) == q
  {
    AbsolutePivots(peak, y);
    FitIs(AbsoluteWindow(peak, |y|), y, q);
  }

  // ---------- The Python resolver ----------

  /** The bin the Python resolver returns. Dividing by zero, it raises an error instead. */
  ghost function PythonBin(data: seq<real>, peak: nat, n: nat): Option<real>
    requires n >= MIN_BINS_TO_OPERATE_ON && WindowFits(|data|, peak, n)
  {
    var q := AbsoluteFit(peak, Window(data, peak, n));
    if q.b2 != 0.0 then Some(Vertex(q)) else None
  }

  lemma PythonBinIs(data: seq<real>, peak: nat, n: nat, q: Quadratic)
    requires n >= MIN_BINS_TO_OPERATE_ON && WindowFits(|data|, peak, n)
    requires peak >= BinsToOffset(n) && q == AbsoluteFit(peak, Window(data, peak, n))
    ensures q.b2 != 0.0 ==> 2.0 * q.b2 != 0.0 && PythonBin(data, peak, n) == Some(-q.b1 / (2.0 * q.b2))
    ensures q.b2 == 0.0 ==> PythonBin(data, peak, n) == None
  {
    hide AbsoluteFit, Window;
  }

  /** None stands for the error. */
  method PythonPeakResolve(data: seq<real>, peakBin: nat, n: nat) returns (bin: Option<real>)
    requires n >= MIN_BINS_TO_OPERATE_ON && WindowFits(|data|, peakBin, n)
    ensures bin == PythonBin(data, peakBin, n)
  {
    hide *;
    var binsToOffset := (n - 1) / 2;
    var x, y := new real[n](_ => 0.0), new real[n](_ => 0.0);
    var startBin := peakBin - binsToOffset;
    WindowsOf(data, peakBin, n, startBin, binsToOffset);
    FillWindow(data, startBin, startBin, n, x, y);
    ghost var w := y[..n];
    var m := GatherMoments(x, y, n);
    AbsolutePivots(peakBin, w);
    var b1, b2 := Eliminate(m, 0);
    ghost var q := Solve(m);
    EliminationSolves(m, q);
    AbsoluteFitIs(peakBin, w, q);
    PythonBinIs(data, peakBin, n, q);
    if b2 == 0.0 {
      return None;
    }
    bin := Some(-b1 / (2.0 * b2));
  }

  // ---------- What the resolvers promise ----------

  /** The parabola behind the resolved bin has the least squared error of all parabolas, alone. */
  lemma {:induction false} ResolvedFitIsBest(y: seq<real>, q: Quadratic)
    requires |y| >= MIN_BINS_TO_OPERATE_ON
    ensures var x, p := OffsetWindow(|y|), OffsetFit(y);
            && SquaredError(x, y, p) <= SquaredError(x, y, q)
            && (SquaredError(x, y, p) == SquaredError(x, y, q) <==> p == q)
  {
    hide Gather;
    hide SquaredError;
    hide NormalEquations;
    hide PivotsNonzero;
    OffsetPivots(y);
    OffsetHasThreeAbscissae(|y|);
    SolutionMinimisesError(OffsetWindow(|y|), y, OffsetFit(y), q);
  }

  /** Fitting in absolute bin numbers moves the parabola to the peak and changes nothing else. */
  lemma AbsoluteFitIsMoved(peak: nat, y: seq<real>)
    requires |y| >= MIN_BINS_TO_OPERATE_ON && peak >= BinsToOffset(|y|)
    ensures AbsoluteFit(peak, y) == Moved(OffsetFit(y), peak as real)
  {
    assert |y| >= 5;
    hide *;
    OffsetFitSolves(y);
    AbsoluteIsShifted(peak, |y|);
    SolutionShifts(OffsetWindow(|y|), y, OffsetFit(y), peak as real);
    AbsoluteFitIs(peak, y, Moved(OffsetFit(y), peak as real));
  }

  lemma {:induction false} OffsetFitSolves(y: seq<real>)
    requires |y| >= MIN_BINS_TO_OPERATE_ON
    ensures NormalEquations(Gather(OffsetWindow(|y|), y), OffsetFit(y))
  {
    OffsetPivots(y);
    hide Gather;
    hide NormalEquations;
    hide PivotsNonzero;
  }

  lemma WindowReachesBack(size: nat, peak: nat, n: nat)
    requires WindowFits(size, peak, n)
    ensures peak >= BinsToOffset(n)
  {}

  /** The C++ and the Python resolver give the same bin exactly when the fitted parabola is curved.
      Otherwise Python raises an error, and C++ goes on with an infinity or with not a number. */
  lemma ResolversAgreeIff(data: seq<real>, peak: nat, n: nat)
    requires n >= MIN_BINS_TO_OPERATE_ON && WindowFits(|data|, peak, n)
    ensures var p, curved := PythonBin(data, peak, n), OffsetFit(Window(data, peak, n)).b2 != 0.0;
            && (p.Some? && ResolvedBin(data, peak, n) == Finite(p.value) <==> curved)
            && (p.None? && !ResolvedBin(data, peak, n).Finite? <==> !curved)
  {
    hide *;
    var y := Window(data, peak, n);
    WindowReachesBack(|data|, peak, n);
    AbsoluteFitIsMoved(peak, y);
    MovedBin(OffsetFit(y), peak as real);
    ResolvedBinIs(data, peak, n);
    PythonBinIs(data, peak, n, Moved(OffsetFit(y), peak as real));
  }

  lemma MovedBin(q: Quadratic, s: real)
    ensures var m, bin := Moved(q, s), TurningPoint(q).Plus(s);
            && (m.b2 != 0.0 <==> q.b2 != 0.0) && (bin.Finite? <==> q.b2 != 0.0)
            && (q.b2 != 0.0 ==> 2.0 * m.b2 != 0.0 && bin == Finite(-m.b1 / (2.0 * m.b2)))
  {
    if q.b2 != 0.0 {
      MovedVertex(q, s);
    }
  }

  /** The window of a peak, bin by bin. */
  lemma WindowBins(data: seq<real>, peak: nat, n: nat, k: nat)
    requires WindowFits(|data|, peak, n) && k < n
    ensures 0 <= peak - (n - 1) / 2 + k < |data|
    ensures Window(data, peak, n)[k] == data[peak - (n - 1) / 2 + k] && OffsetWindow(n)[k] == (k - (n - 1) / 2) as real
  {}

  /** Samples of a parabola around the peak resolve to its vertex. */
  lemma ParabolaResolvesExactly(data: seq<real>, peak: nat, n: nat, q: Quadratic)
    requires n >= 5 && 0 <= peak - (n - 1) / 2 && peak - (n - 1) / 2 + n <= |data|
    requires forall i :: peak - (n - 1) / 2 <= i < peak - (n - 1) / 2 + n ==> data[i] == q.At((i - peak) as real)
    requires q.b2 != 0.0
    ensures OffsetFit(Window(data, peak, n)) == q
    ensures ResolvedBin(data, peak, n) == Finite(peak as real - q.b1 / (2.0 * q.b2))
  {
    assert WindowFits(|data|, peak, n);
    assert TurningPoint(q).Plus(peak as real) == Finite(peak as real - q.b1 / (2.0 * q.b2));
    hide *;
    var y := Window(data, peak, n);
    forall k | 0 <= k < n ensures y[k] == q.At(OffsetWindow(n)[k]) {
      WindowBins(data, peak, n, k);
      assert (peak - (n - 1) / 2 + k) - peak == k - (n - 1) / 2;
    }
    ParabolaFitsItself(OffsetWindow(n), y, q);
    OffsetFitIs(y, q);
    ResolvedBinIs(data, peak, n);
  }

  /** Gain and offset of the signal do not move a peak. */
  lemma {:induction false} ResolvedBinIgnoresGainAndOffset(data: seq<real>, data': seq<real>, peak: nat, n: nat,
                                                           c: real, d: real)
    requires n >= MIN_BINS_TO_OPERATE_ON && WindowFits(|data|, peak, n) && c != 0.0
    requires |data'| == |data| && forall i :: 0 <= i < |data| ==> data'[i] == c * data[i] + d
    ensures ResolvedBin(data', peak, n) == ResolvedBin(data, peak, n)
  {
    assert n >= 5;
    hide *;
    RescaledIs(data, data', c, d);
    var y := Window(data, peak, n);
    var x, q := OffsetWindow(n), OffsetFit(y);
    RescaledWindow(data, peak, n, c, d);
    OffsetFitSolves(y);
    SolutionRescales(x, y, q, c, d);
    OffsetFitIs(Rescaled(y, c, d), Stretched(q, c, d));
    StretchedTurningPoint(q, c, d);
    ResolvedBinIs(data, peak, n);
    ResolvedBinIs(data', peak, n);
  }

  lemma {:induction false} RescaledIs(data: seq<real>, data': seq<real>, c: real, d: real)
    requires |data'| == |data| && forall i :: 0 <= i < |data| ==> data'[i] == c * data[i] + d
    ensures data' == Rescaled(data, c, d)
  {
    hide Rescaled;
    forall i | 0 <= i < |data| ensures data'[i] == Rescaled(data, c, d)[i] {
      RescaledAt(data, c, d, i);
    }
  }

  lemma {:induction false} RescaledWindow(data: seq<real>, peak: nat, n: nat, c: real, d: real)
    requires WindowFits(|data|, peak, n)
    ensures Window(Rescaled(data, c, d), peak, n) == Rescaled(Window(data, peak, n), c, d)
  {
    hide Rescaled;
    RescaledSlice(data, c, d, peak - BinsToOffset(n), peak - BinsToOffset(n) + n);
  }

  lemma StretchedTurningPoint(q: Quadratic, c: real, d: real)
    requires c != 0.0
    ensures TurningPoint(Stretched(q, c, d)) == TurningPoint(q)
  {
    if q.b2 == 0.0 {
      if q.b1 != 0.0 && c * q.b1 == 0.0 {
        ZeroFactor(c, q.b1);
      }
    } else {
      if c * q.b2 == 0.0 {
        ZeroFactor(c, q.b2);
      }
      CommonFactor(c, q.b1, q.b2);
    }
  }

  lemma CommonFactor(c: real, a: real, b: real)
    requires c != 0.0 && b != 0.0 && c * b != 0.0
    ensures -(c * a) / (2.0 * (c * b)) == -a / (2.0 * b)
  {
    var v := -a / (2.0 * b);
    QuotientIsSolution(2.0 * b, -a, v);
    Regroup(c, 2.0 * b, v);
    assert (2.0 * (c * b)) * v == c * ((2.0 * b) * v);
    QuotientIsSolution(2.0 * (c * b), -(c * a), v);
  }

  /** Over an odd window, data symmetric about the peak resolve to the peak itself, or, where they
      fit a level line best, to no number at all. */
  lemma SymmetricPeakResolvesToItself(data: seq<real>, peak: nat, n: nat)
    requires n >= MIN_BINS_TO_OPERATE_ON && n % 2 == 1 && WindowFits(|data|, peak, n)
    requires forall i :: peak - (n - 1) / 2 <= i < peak ==> data[i] == data[2 * peak - i]
    ensures ResolvedBin(data, peak, n)
            == if OffsetFit(Window(data, peak, n)).b2 != 0.0 then Finite(peak as real) else NotANumber
  {
    var y := Window(data, peak, n);
    MirroredWindow(data, peak, n);
    hide Gather;
    hide OffsetFit;
    hide Fit;
    hide OffsetWindow;
    OffsetFitSolves(y);
    MirroredMoments(OffsetWindow(n), y);
    OffsetGap(y);
    NoLinearTerm(Gather(OffsetWindow(n), y), OffsetFit(y));
    ResolvedBinIs(data, peak, n);
  }

  lemma MirroredWindow(data: seq<real>, peak: nat, n: nat)
    requires n % 2 == 1 && WindowFits(|data|, peak, n)
    requires forall i :: peak - (n - 1) / 2 <= i < peak ==> data[i] == data[2 * peak - i]
    ensures Mirrored(OffsetWindow(n), Window(data, peak, n))
  {
    var o, x, y := (n - 1) / 2, OffsetWindow(n), Window(data, peak, n);
    assert n == 2 * o + 1;
    forall k | 0 <= k < n ensures x[k] == -x[n - 1 - k] && y[k] == y[n - 1 - k] {
      WindowBins(data, peak, n, k);
      WindowBins(data, peak, n, n - 1 - k);
      if k < o {
        assert data[peak - o + k] == data[2 * peak - (peak - o + k)];
      } else if k > o {
        assert data[peak + o - k] == data[2 * peak - (peak + o - k)];
      }
    }
    hide *;
  }

  lemma NoLinearTerm(m: Moments, q: Quadratic)
    requires NormalEquations(m, q) && OddMomentsVanish(m) && m.x2 != 0.0
    ensures q.b1 == 0.0
  {
    assert q.b0 * m.x1 == 0.0 && q.b2 * m.x3 == 0.0;
    ZeroFactor(q.b1, m.x2);
  }
}
