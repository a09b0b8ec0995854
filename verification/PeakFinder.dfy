/** `Peak_finder` of cpp_17/navigation/peak_finder.cpp: an object that buffers azimuths, combines
    them, scans the result for peaks, resolves each peak and reports the plausible ones. */
module PeakFinder {
  import opened PeakScan
  import opened LeastSquares
  import opened Curvature
  import opened FitWindows
  import opened Floats
  import opened Options
  import opened PeakResolver
  import opened Sequences

  datatype BufferMode = Off | Average | Max

  datatype Configuration = Configuration(rangeInBins: nat, rangeGain: real, rangeOffset: real, rangeResolution: real)

  datatype FftData = FftData(azimuth: nat, angle: real, ntpSeconds: nat, ntpSplitSeconds: nat, data: seq<nat>)

  datatype Target = Target(range: Extended, power: real)

  datatype AzimuthTarget = AzimuthTarget(
    azimuth: nat, angle: real, targets: seq<Target>, ntpSeconds: nat, ntpSplitSeconds: nat)

  const UINT16 := 0x1_0000

  // ---------- Reporting targets ----------

  ghost function RangeOf(bin: Extended, c: Configuration): Extended {
    bin.Times(c.rangeGain).Times(c.rangeResolution).Plus(c.rangeOffset)
  }

  /** What the comparisons let through: they reject an infinity and a number out of bounds, but a
      comparison with not-a-number is false. */
  predicate Plausible(range: Extended, lo: real, hi: real) {
    match range
    case Finite(r) => lo <= r <= hi
    case Infinite => false
    case NotANumber => true
  }

  /** The target a peak gives rise to, if its range is plausible. */
  ghost function TargetOf(data: seq<real>, c: Configuration, n: nat, p: int): seq<Target>
    requires n >= MIN_BINS_TO_OPERATE_ON && WindowFits(|data|, p, n)
  {
    var range := RangeOf(ResolvedBin(data, p, n), c);
    if Plausible(range, n as real * c.rangeResolution, c.rangeInBins as real * c.rangeResolution) then [Target(range, data[p])] else []
  }

  lemma TargetOfIs(data: seq<real>, c: Configuration, n: nat, p: int)
    requires n >= MIN_BINS_TO_OPERATE_ON && WindowFits(|data|, p, n)
    ensures var range := TurningPoint(OffsetFit(Window(data, p, n))).Plus(p as real)
                         .Times(c.rangeGain).Times(c.rangeResolution).Plus(c.rangeOffset);
            TargetOf(data, c, n, p)
            == if Plausible(range, n as real * c.rangeResolution, c.rangeInBins as real * c.rangeResolution)
               then [Target(range, data[p])] else []
  {
    hide OffsetFit, TurningPoint, Window;
  }

  lemma TurningPointIs(q: Quadratic, s: real)
    ensures TurningPoint(q).Plus(s)
            == if q.b2 != 0.0 then Finite(s - q.b1 / (2.0 * q.b2)) else if q.b1 != 0.0 then Infinite else NotANumber
  {}

  lemma RangeIs(bin: real, c: Configuration, r: real)
    requires r == bin * c.rangeGain * c.rangeResolution + c.rangeOffset
    ensures Finite(bin).Times(c.rangeGain).Times(c.rangeResolution).Plus(c.rangeOffset) == Finite(r)
  {}

  lemma NoRange(c: Configuration)
    ensures NotANumber.Times(c.rangeGain).Times(c.rangeResolution).Plus(c.rangeOffset) == NotANumber
    ensures Infinite.Times(c.rangeGain).Times(c.rangeResolution).Plus(c.rangeOffset)
            == if c.rangeGain == 0.0 || c.rangeResolution == 0.0 then NotANumber else Infinite
  {}

  lemma PlausibleMeans(r: real, lo: real, hi: real)
    ensures Plausible(Finite(r), lo, hi) <==> lo <= r <= hi
    ensures Plausible(NotANumber, lo, hi) && !Plausible(Infinite, lo, hi)
  {}

  /** What becomes of a peak, by the least-squares parabola `q` of its window. A curved one gives a target exactly when
      its vertex, made a range, is within bounds; a sloping one is dropped; a level one gives a target whose range
      is not a number, and so does a sloping one under a zero gain or resolution. */
  lemma TargetOfMeans(data: seq<real>, c: Configuration, n: nat, p: int, q: Quadratic)
    requires n >= MIN_BINS_TO_OPERATE_ON && WindowFits(|data|, p, n) && q == OffsetFit(Window(data, p, n))
    ensures && (q.b2 != 0.0 ==>
                  var r := (p as real - q.b1 / (2.0 * q.b2)) * c.rangeGain * c.rangeResolution + c.rangeOffset;
                  TargetOf(data, c, n, p)
                  == if n as real * c.rangeResolution <= r <= c.rangeInBins as real * c.rangeResolution
                     then [Target(Finite(r), data[p])] else [])
            && (q.b2 == 0.0 ==>
                  TargetOf(data, c, n, p)
                  == if q.b1 != 0.0 && c.rangeGain != 0.0 && c.rangeResolution != 0.0 then []
                     else [Target(NotANumber, data[p])])
  {
    hide *;
    TargetOfIs(data, c, n, p);
    TurningPointIs(q, p as real);
    NoRange(c);
    PlausibleMeans(0.0, n as real * c.rangeResolution, c.rangeInBins as real * c.rangeResolution);
    if q.b2 != 0.0 {
      RangeIs(p as real - q.b1 / (2.0 * q.b2), c,
              (p as real - q.b1 / (2.0 * q.b2)) * c.rangeGain * c.rangeResolution + c.rangeOffset);
      PlausibleMeans((p as real - q.b1 / (2.0 * q.b2)) * c.rangeGain * c.rangeResolution + c.rangeOffset,
                     n as real * c.rangeResolution, c.rangeInBins as real * c.rangeResolution);
    }
  }

  /** So a peak among samples of a curved parabola is reported at the range of its vertex, if that is within
      bounds, and not otherwise. */
  lemma ParabolaIsReportedAtItsVertex(data: seq<real>, c: Configuration, n: nat, p: nat, q: Quadratic)
    requires n >= 5 && 0 <= p - (n - 1) / 2 && p - (n - 1) / 2 + n <= |data|
    requires forall i :: p - (n - 1) / 2 <= i < p - (n - 1) / 2 + n ==> data[i] == q.At((i - p) as real)
    requires q.b2 != 0.0
    ensures WindowFits(|data|, p, n) && n >= MIN_BINS_TO_OPERATE_ON
    ensures var r := (p as real - q.b1 / (2.0 * q.b2)) * c.rangeGain * c.rangeResolution + c.rangeOffset;
            TargetOf(data, c, n, p)
            == if n as real * c.rangeResolution <= r <= c.rangeInBins as real * c.rangeResolution
               then [Target(Finite(r), data[p])] else []
  {
    hide *;
    EnoughBins(|data|, p, n);
    ParabolaResolvesExactly(data, p, n, q);
    TargetOfMeans(data, c, n, p, q);
  }

  lemma EnoughBins(size: nat, p: nat, n: nat)
    requires n >= 5 && 0 <= p - (n - 1) / 2 && p - (n - 1) / 2 + n <= size
    ensures WindowFits(size, p, n) && n >= MIN_BINS_TO_OPERATE_ON
  {}

  ghost predicate AllFit(size: nat, n: int, peaks: seq<int>) {
    forall i :: 0 <= i < |peaks| ==> WindowFits(size, peaks[i], n)
  }

  /** The targets of those peaks that resolve to a plausible range, in order. */
  ghost function Targets(data: seq<real>, c: Configuration, n: nat, peaks: seq<int>): seq<Target>
    requires n >= MIN_BINS_TO_OPERATE_ON && AllFit(|data|, n, peaks)
  {
    if peaks == [] then [] else TargetOf(data, c, n, peaks[0]) + Targets(data, c, n, peaks[1..])
  }

  lemma {:induction false} FirstTarget(data: seq<real>, c: Configuration, n: nat, p: int, peaks: seq<int>)
    requires n >= MIN_BINS_TO_OPERATE_ON && AllFit(|data|, n, [p] + peaks)
    ensures WindowFits(|data|, p, n) && AllFit(|data|, n, peaks)
    ensures Targets(data, c, n, [p] + peaks) == TargetOf(data, c, n, p) + Targets(data, c, n, peaks)
  {
    hide TargetOf;
    hide WindowFits;
    assert ([p] + peaks)[0] == p && ([p] + peaks)[1..] == peaks;
    forall i | 0 <= i < |peaks| ensures WindowFits(|data|, peaks[i], n) {
      assert ([p] + peaks)[i + 1] == peaks[i];
    }
  }

  function Listed<T>(o: Option<T>): seq<T> {
    match o case None => [] case Some(t) => [t]
  }

  lemma ListedMeans<T>(o: Option<T>, s: seq<T>)
    ensures s + Listed(o) == match o case None => s case Some(t) => s + [t]
  {}

  function Take<T>(s: seq<T>, n: nat): seq<T> {
    if |s| <= n then s else s[..n]
  }

  /** The limit on targets is looked at only after one has been added. */
  function Limit(maxPeaks: nat): nat {
    if maxPeaks == 0 then 1 else maxPeaks
  }

  /** A scan may be resolved when the window of its first peak does not reach back before bin 0. */
  predicate SafeScan(n: int, peaks: seq<int>)
    requires n > 0
  {
    |peaks| > 0 ==> peaks[0] >= BinsToOffset(n)
  }

  /** Then every window of the scan lies within the data; and only then. */
  lemma SafeScanFits(data: seq<real>, threshold: real, n: int, from: int, awaiting: bool)
    requires n >= MIN_BINS_TO_OPERATE_ON && 0 <= from
    ensures var peaks := Scan(data, threshold, n, from, awaiting, |data| - n);
            SafeScan(n, peaks) <==> AllFit(|data|, n, peaks)
  {
    hide Scan, Next;
    var peaks := Scan(data, threshold, n, from, awaiting, |data| - n);
    if SafeScan(n, peaks) {
      forall i | 0 <= i < |peaks| ensures WindowFits(|data|, peaks[i], n) {
        ScanIsSound(data, threshold, n, from, awaiting, |data| - n, i);
        if i > 0 {
          PeaksAscend(data, threshold, n, from, awaiting, |data| - n, 0, i);
        }
      }
    }
  }

  /** Starting the search no nearer than half a window is enough, whatever the data. */
  lemma FarEnoughIsSafe(data: seq<real>, threshold: real, n: int, from: int, awaiting: bool)
    requires n >= MIN_BINS_TO_OPERATE_ON && from >= BinsToOffset(n)
    ensures SafeScan(n, Scan(data, threshold, n, from, awaiting, |data| - n))
  {
    if Scan(data, threshold, n, from, awaiting, |data| - n) != [] {
      ScanIsSound(data, threshold, n, from, awaiting, |data| - n, 0);
    }
  }

  // ---------- Holding the maximum ----------

  /** Every buffered azimuth has at least the bins that are combined. */
  ghost predicate Covers(buffer: seq<seq<real>>, bins: nat) {
    forall c :: 0 <= c < |buffer| ==> |buffer[c]| >= bins
  }

  /** `v` is the greatest of zero and half of every value of the buffered azimuths in bins `lo` to `hi`. */
  ghost predicate IsMaximum(buffer: seq<seq<real>>, bins: nat, lo: int, hi: int, v: real)
    requires Covers(buffer, bins) && 0 <= lo && hi < bins
  {
    && v >= 0.0
    && (forall c, b :: 0 <= c < |buffer| && lo <= b <= hi ==> buffer[c][b] / 2.0 <= v)
    && (v == 0.0 || exists c, b :: 0 <= c < |buffer| && lo <= b <= hi && buffer[c][b] / 2.0 == v)
  }

  ghost predicate HeldMaximum(buffer: seq<seq<real>>, bins: nat, combined: seq<real>)
    requires Covers(buffer, bins)
  {
    |combined| == bins && forall b :: 0 <= b < bins ==> IsMaximum(buffer, bins, 0, b, combined[b])
  }

  /** The maximum is carried over from bin to bin, so the combined azimuth never falls. */
  lemma HeldMaximumNeverFalls(buffer: seq<seq<real>>, bins: nat, combined: seq<real>)
    requires Covers(buffer, bins) && HeldMaximum(buffer, bins, combined)
    ensures NeverFalls(combined)
  {
    forall i | 0 <= i < |combined| - 1 ensures combined[i] <= combined[i + 1] {
      assert IsMaximum(buffer, bins, 0, i, combined[i]);
      assert IsMaximum(buffer, bins, 0, i + 1, combined[i + 1]);
    }
  }

  /** Every value of bin `b` is matched by some value of bin `b'`. */
  ghost predicate Matched(buffer: seq<seq<real>>, bins: nat, b: int, b': int)
    requires Covers(buffer, bins) && 0 <= b < bins && 0 <= b' < bins
  {
    forall c :: 0 <= c < |buffer| ==> Reached(buffer, bins, buffer[c][b], b')
  }

  /** Some value of bin `b` is at least `v`. */
  ghost predicate Reached(buffer: seq<seq<real>>, bins: nat, v: real, b: int)
    requires Covers(buffer, bins) && 0 <= b < bins
  {
    exists c :: 0 <= c < |buffer| && v <= buffer[c][b]
  }

  ghost predicate LaterBinsMatch(buffer: seq<seq<real>>, bins: nat)
    requires Covers(buffer, bins)
  {
    forall b, b' :: 0 <= b < b' < bins ==> Matched(buffer, bins, b, b')
  }

  ghost predicate PerBinMaximum(buffer: seq<seq<real>>, bins: nat, combined: seq<real>)
    requires Covers(buffer, bins)
  {
    |combined| == bins && forall b :: 0 <= b < bins ==> IsMaximum(buffer, bins, b, b, combined[b])
  }

  /** What max mode is for is each bin's own maximum. The held maximum is that exactly when no bin's
      values are all below a value of an earlier bin. */
  lemma HeldMaximumIsPerBinIff(buffer: seq<seq<real>>, bins: nat, combined: seq<real>)
    requires Covers(buffer, bins) && |buffer| > 0 && HeldMaximum(buffer, bins, combined)
    requires forall c, b :: 0 <= c < |buffer| && 0 <= b < bins ==> buffer[c][b] >= 0.0
    ensures PerBinMaximum(buffer, bins, combined) <==> LaterBinsMatch(buffer, bins)
  {
    if PerBinMaximum(buffer, bins, combined) {
      forall b, b' | 0 <= b < b' < bins ensures Matched(buffer, bins, b, b') {
        assert IsMaximum(buffer, bins, 0, b', combined[b']) && IsMaximum(buffer, bins, b', b', combined[b']);
        OwnMaximumMatches(buffer, bins, b, b', combined[b']);
      }
    }
    if LaterBinsMatch(buffer, bins) {
      forall b | 0 <= b < bins ensures IsMaximum(buffer, bins, b, b, combined[b]) {
        MatchedMaximumIsOwn(buffer, bins, b, combined[b]);
      }
    }
  }

  lemma OwnMaximumMatches(buffer: seq<seq<real>>, bins: nat, b: nat, b': nat, v: real)
    requires Covers(buffer, bins) && |buffer| > 0 && b < b' < bins
    requires IsMaximum(buffer, bins, 0, b', v) && IsMaximum(buffer, bins, b', b', v)
    requires forall c, b :: 0 <= c < |buffer| && 0 <= b < bins ==> buffer[c][b] >= 0.0
    ensures Matched(buffer, bins, b, b')
  {
    forall c | 0 <= c < |buffer| ensures Reached(buffer, bins, buffer[c][b], b') {
      assert buffer[c][b] / 2.0 <= v;
      if v == 0.0 {
        assert buffer[0][b'] >= 0.0 >= buffer[c][b];
      } else {
        var c', k :| 0 <= c' < |buffer| && b' <= k <= b' && buffer[c'][k] / 2.0 == v;
        assert buffer[c][b] <= buffer[c'][b'];
      }
    }
  }

  lemma MatchedMaximumIsOwn(buffer: seq<seq<real>>, bins: nat, b: nat, v: real)
    requires Covers(buffer, bins) && b < bins && IsMaximum(buffer, bins, 0, b, v)
    requires forall k :: 0 <= k < b ==> Matched(buffer, bins, k, b)
    ensures IsMaximum(buffer, bins, b, b, v)
  {
    if v != 0.0 {
      var c, k :| 0 <= c < |buffer| && 0 <= k <= b && buffer[c][k] / 2.0 == v;
      if k < b {
        assert Matched(buffer, bins, k, b) && Reached(buffer, bins, buffer[c][k], b);
        var c' :| 0 <= c' < |buffer| && buffer[c][k] <= buffer[c'][b];
        assert buffer[c'][b] / 2.0 <= v;
        assert buffer[c'][b] / 2.0 == v;
      }
    }
  }

  /** A buffer whose second bin is below its first. */
  lemma HeldMaximumIsNotPerBin(combined: seq<real>)
    requires HeldMaximum([[2.0, 0.0]], 2, combined)
    ensures combined == [1.0, 1.0] && !PerBinMaximum([[2.0, 0.0]], 2, combined)
  {
    var buffer := [[2.0, 0.0]];
    assert IsMaximum(buffer, 2, 0, 0, combined[0]) && IsMaximum(buffer, 2, 0, 1, combined[1]);
    assert buffer[0][0] / 2.0 == 1.0 && buffer[0][1] / 2.0 == 0.0;
    assert !IsMaximum(buffer, 2, 1, 1, combined[1]);
  }

  /** What the loop of max mode computes when its maximum starts again with every bin. */
  method CombineMaxPerBin(buffer: seq<seq<real>>, bins: nat) returns (combined: seq<real>)
    requires Covers(buffer, bins)
    ensures PerBinMaximum(buffer, bins, combined)
  {
    combined := [];
    for bin := 0 to bins
      invariant |combined| == bin
      invariant forall b :: 0 <= b < bin ==> IsMaximum(buffer, bins, b, b, combined[b])
    {
      var max := 0.0;
      for counter := 0 to |buffer|
        invariant max >= 0.0
        invariant forall c :: 0 <= c < counter ==> buffer[c][bin] / 2.0 <= max
        invariant max == 0.0 || exists c :: 0 <= c < counter && buffer[c][bin] / 2.0 == max
      {
        var value := buffer[counter][bin] / 2.0;
        if value > max {
          max := value;
        }
      }
      combined := combined + [max];
    }
  }

  // ---------- Averaging ----------

  /** The power of the first `n` buffered values of a bin, added up. */
  function TotalPower(buffer: seq<seq<real>>, bins: nat, b: nat, power: real -> real, n: nat): real
    requires forall c :: 0 <= c < |buffer| ==> |buffer[c]| >= bins
    requires b < bins && n <= |buffer|
  {
    if n == 0 then 0.0 else TotalPower(buffer, bins, b, power, n - 1) + power(buffer[n - 1][b] / 2.0)
  }

  /** Average mode: bin by bin the level of the mean power. */
  function MeanAzimuth(buffer: seq<seq<real>>, bins: nat, power: real -> real,
                       level: real -> real): (combined: seq<real>)
    requires buffer != [] && forall c :: 0 <= c < |buffer| ==> |buffer[c]| >= bins
    ensures |combined| == bins
  {
    seq(bins, b requires 0 <= b < bins => level(TotalPower(buffer, bins, b, power, |buffer|) / |buffer| as real))
  }

  /** Azimuths that come later do not count among the first. */
  lemma {:induction false} TotalOfFirst(buffer: seq<seq<real>>, more: seq<seq<real>>, bins: nat, b: nat,
                                        power: real -> real, n: nat)
    requires Covers(buffer, bins) && Covers(more, bins) && b < bins && n <= |buffer| && buffer <= more
    ensures TotalPower(more, bins, b, power, n) == TotalPower(buffer, bins, b, power, n)
  {
    if n > 0 {
      TotalOfFirst(buffer, more, bins, b, power, n - 1);
    }
  }

  lemma MeanIs(total: real, n: real)
    requires n > 0.0
    ensures n * (total / n) == total
  {}

  /** A single azimuth is its own mean. */
  lemma {:induction false} MeanOfOne(azimuth: seq<real>, bins: nat, b: nat, power: real -> real, level: real -> real)
    requires b < bins <= |azimuth|
    ensures MeanAzimuth([azimuth], bins, power, level)[b] == level(power(azimuth[b] / 2.0))
  {
    assert TotalPower([azimuth], bins, b, power, 1) == TotalPower([azimuth], bins, b, power, 0) + power(azimuth[b] / 2.0);
  }

  /** Every azimuth weighs the same: with one more, `n + 1` times the new mean power is `n` times the old one and the
      power of the new value. */
  lemma {:induction false} MeanGrows(buffer: seq<seq<real>>, azimuth: seq<real>, bins: nat, b: nat,
                                     power: real -> real, level: real -> real)
    returns (mean: real, mean': real)
    requires buffer != [] && Covers(buffer, bins) && b < bins <= |azimuth|
    ensures MeanAzimuth(buffer, bins, power, level)[b] == level(mean)
    ensures Covers(buffer + [azimuth], bins) && MeanAzimuth(buffer + [azimuth], bins, power, level)[b] == level(mean')
    ensures (|buffer| + 1) as real * mean' == |buffer| as real * mean + power(azimuth[b] / 2.0)
  {
    var n, more := |buffer|, buffer + [azimuth];
    var total, total' := TotalPower(buffer, bins, b, power, n), TotalPower(more, bins, b, power, n + 1);
    mean, mean' := total / n as real, total' / (n + 1) as real;
    TotalOfFirst(buffer, more, bins, b, power, n);
    assert total' == total + power(azimuth[b] / 2.0);
    hide TotalPower;
    MeanIs(total, n as real);
    MeanIs(total', (n + 1) as real);
  }

  /** Ten to the power of a tenth, and ten times the logarithm: increasing, and the second undoes the first. */
  ghost predicate Decibels(power: real -> real, level: real -> real) {
    && (forall v, w :: v <= w ==> power(v) <= power(w))
    && (forall v, w :: 0.0 < v <= w ==> level(v) <= level(w))
    && (forall v :: power(v) > 0.0 && level(power(v)) == v)
  }

  ghost predicate AllBetween(buffer: seq<seq<real>>, bins: nat, b: nat, lo: real, hi: real)
    requires Covers(buffer, bins) && b < bins
  {
    forall c :: 0 <= c < |buffer| ==> lo <= buffer[c][b] / 2.0 <= hi
  }

  ghost predicate PowersBetween(buffer: seq<seq<real>>, bins: nat, b: nat, power: real -> real, p: real, q: real)
    requires Covers(buffer, bins) && b < bins
  {
    forall c :: 0 <= c < |buffer| ==> p <= power(buffer[c][b] / 2.0) <= q
  }

  function Scaled(n: nat, p: real): real {
    n as real * p
  }

  lemma ScaledStep(n: nat, p: real)
    ensures Scaled(0, p) == 0.0 && (n > 0 ==> Scaled(n, p) == Scaled(n - 1, p) + p)
  {}

  lemma {:induction false} TotalBetween(buffer: seq<seq<real>>, bins: nat, b: nat, power: real -> real, n: nat,
                                        p: real, q: real)
    requires Covers(buffer, bins) && b < bins && n <= |buffer| && PowersBetween(buffer, bins, b, power, p, q)
    ensures Scaled(n, p) <= TotalPower(buffer, bins, b, power, n) <= Scaled(n, q)
  {
    hide Scaled;
    ScaledStep(n, p);
    ScaledStep(n, q);
    if n > 0 {
      TotalBetween(buffer, bins, b, power, n - 1, p, q);
    }
  }

  lemma TimesKeepsOrder(n: real, v: real, w: real)
    requires n > 0.0
    ensures v < w ==> n * v < n * w
  {
    if v < w {
      ProductPositive(n, w - v);
      Split(n, w, -v);
    }
  }

  lemma MeanBetween(total: real, n: real, p: real, q: real)
    requires n > 0.0 && n * p <= total <= n * q
    ensures p <= total / n <= q
  {
    var mean := total / n;
    assert n * mean == total;
    TimesKeepsOrder(n, mean, p);
    TimesKeepsOrder(n, q, mean);
  }

  /** The mean of a bin lies between its least and its greatest value. */
  lemma MeanAzimuthBetween(buffer: seq<seq<real>>, bins: nat, b: nat, power: real -> real, level: real -> real,
                           lo: real, hi: real)
    requires buffer != [] && Covers(buffer, bins) && b < bins && AllBetween(buffer, bins, b, lo, hi)
    requires Decibels(power, level)
    ensures lo <= MeanAzimuth(buffer, bins, power, level)[b] <= hi
  {
    var n := |buffer|;
    var total := TotalPower(buffer, bins, b, power, n);
    TotalBetween(buffer, bins, b, power, n, power(lo), power(hi));
    MeanBetween(total, n as real, power(lo), power(hi));
    assert level(power(lo)) <= level(total / n as real) <= level(power(hi));
  }

  // ---------- Buffering ----------

  datatype Buffering<T> = Buffering(held: seq<T>, batches: seq<seq<T>>)

  /** A frame that is not accepted changes nothing. */
  function BufferStep<T>(b: Buffering<T>, accepted: bool, bufferLength: nat, frame: T): Buffering<T> {
    var held := b.held + [frame];
    if !accepted then b
    else if |held| < bufferLength then Buffering(held, b.batches)
    else Buffering([], b.batches + [held])
  }

  /** Only frames of the right size are accepted. */
  function BufferRun(frames: seq<FftData>, bins: nat, bufferLength: nat): Buffering<FftData> {
    if |frames| == 0 then Buffering([], [])
    else
      var last := frames[|frames| - 1];
      BufferStep(BufferRun(frames[..|frames| - 1], bins, bufferLength), |last.data| == bins, bufferLength, last)
  }

  function Accepted(frames: seq<FftData>, bins: nat): seq<FftData> {
    if |frames| == 0 then []
    else
      var last := frames[|frames| - 1];
      Accepted(frames[..|frames| - 1], bins) + (if |last.data| == bins then [last] else [])
  }

  /** The test comes after the push, so a batch has at least one azimuth. Over a whole run the k-th processed batch is
      exactly the k-th `l` accepted frames, and what is held is the remainder, fewer than `l`. */
  ghost predicate PartitionsRun<T>(frames: seq<T>, l: nat, r: Buffering<T>) {
    && |frames| == |r.batches| * l + |r.held|
    && |r.held| < l
    && r.held == frames[|frames| - |r.held|..]
    && forall k :: 0 <= k < |r.batches| ==> IsBatch(frames, l, k, r.batches[k])
  }

  ghost predicate IsBatch<T>(frames: seq<T>, l: nat, k: nat, batch: seq<T>) {
    0 <= k * l <= k * l + l <= |frames| && batch == frames[k * l..k * l + l]
  }

  lemma BatchOfLongerRun<T>(front: seq<T>, frame: T, l: nat, k: nat, batch: seq<T>)
    requires IsBatch(front, l, k, batch)
    ensures IsBatch(front + [frame], l, k, batch)
  {
    var a := k * l;
    assert (front + [frame])[a..a + l] == front[a..a + l];
  }

  lemma FilledBatch<T>(frames: seq<T>, l: nat, q: nat)
    requires |frames| == q * l + l
    ensures IsBatch(frames, l, q, frames[|frames| - l..]) && |frames| == (q + 1) * l
  {
    assert q * l >= 0;
  }

  lemma StepKeepsPartition<T>(front: seq<T>, frame: T, bufferLength: nat, r: Buffering<T>)
    requires PartitionsRun(front, if bufferLength == 0 then 1 else bufferLength, r)
    ensures PartitionsRun(front + [frame], if bufferLength == 0 then 1 else bufferLength, BufferStep(r, true, bufferLength, frame))
  {
    var l, q := if bufferLength == 0 then 1 else bufferLength, |r.batches|;
    var all, r' := front + [frame], BufferStep(r, true, bufferLength, frame);
    assert r.held + [frame] == all[|front| - |r.held|..];
    forall k | 0 <= k < q ensures IsBatch(all, l, k, r.batches[k]) {
      BatchOfLongerRun(front, frame, l, k, r.batches[k]);
    }
    if |r.held| + 1 == l {
      FilledBatch(all, l, q);
    }
    hide IsBatch;
  }

  lemma {:induction false} BatchesPartitionTheRun(frames: seq<FftData>, bins: nat, bufferLength: nat)
    ensures PartitionsRun(Accepted(frames, bins), if bufferLength == 0 then 1 else bufferLength, BufferRun(frames, bins, bufferLength))
  {
    if |frames| > 0 {
      var front, last := frames[..|frames| - 1], frames[|frames| - 1];
      BatchesPartitionTheRun(front, bins, bufferLength);
      if |last.data| == bins {
        StepKeepsPartition(Accepted(front, bins), last, bufferLength, BufferRun(front, bins, bufferLength));
      } else {
        assert Accepted(front, bins) + [] == Accepted(front, bins);
      }
      hide PartitionsRun;
    }
  }

  /** So the number of batches and of held frames are quotient and remainder. */
  lemma {:induction false} BatchCount(frames: seq<FftData>, bins: nat, bufferLength: nat)
    ensures var l, r, n := if bufferLength == 0 then 1 else bufferLength, BufferRun(frames, bins, bufferLength), |Accepted(frames, bins)|;
            |r.batches| == n / l && |r.held| == n % l
  {
    BatchesPartitionTheRun(frames, bins, bufferLength);
    var r := BufferRun(frames, bins, bufferLength);
    QuotientAndRemainder(|Accepted(frames, bins)|, if bufferLength == 0 then 1 else bufferLength, |r.batches|, |r.held|);
  }

  lemma QuotientAndRemainder(a: int, l: int, q: int, r: int)
    requires 0 <= r < l && a == q * l + r
    ensures a / l == q && a % l == r
  {
    assert a == (a / l) * l + a % l;
    MultipleBetween(a / l - q, l, r - a % l);
  }

  lemma MultipleBetween(d: int, l: int, m: int)
    requires -l < m < l && d * l == m
    ensures d == 0
  {}

  // ---------- The object ----------

  function AsReals(data: seq<nat>): (r: seq<real>)
    ensures |r| == |data| && forall i :: 0 <= i < |data| ==> r[i] == data[i] as real
  {
    seq(|data|, i requires 0 <= i < |data| => data[i] as real)
  }

  /** Everything `find_peaks` depends on, other than the azimuth it is given. */
  datatype Settings = Settings(
    threshold: real, bins: nat, minBin: nat, maxPeaks: nat, callback: bool, configuration: Configuration)

  ghost predicate Usable(s: Settings) {
    && MIN_BINS_TO_OPERATE_ON <= s.bins <= MAX_BINS_TO_OPERATE_ON
    && s.configuration.rangeInBins < UINT16
  }

  ghost function PeaksOf(s: Settings, data: seq<real>): seq<int>
    requires Usable(s)
  {
    Scan(data, s.threshold, s.bins, s.minBin, false, |data| - s.bins)
  }

  /** The targets of one azimuth: those of its scan with a plausible range, up to the limit. */
  ghost function TargetsOf(s: Settings, data: seq<real>): seq<Target>
    requires Usable(s) && SafeScan(s.bins, PeaksOf(s, data))
  {
    SafeScanFits(data, s.threshold, s.bins, s.minBin, false);
    Take(Targets(data, s.configuration, s.bins, PeaksOf(s, data)), Limit(s.maxPeaks))
  }

  /** The callback is called once, and only if there is a target. */
  ghost function ReportOf(s: Settings, fft: FftData, data: seq<real>): Option<AzimuthTarget>
    requires Usable(s) && SafeScan(s.bins, PeaksOf(s, data))
  {
    var targets := TargetsOf(s, data);
    if targets == [] || !s.callback then None
    else Some(AzimuthTarget(fft.azimuth, fft.angle, targets, fft.ntpSeconds, fft.ntpSplitSeconds))
  }

  /** What is held after a frame, as the buffer holds it. */
  function HeldAfter(mode: BufferMode, bins: nat, bufferLength: nat, held: seq<seq<real>>,
                     data: seq<real>): seq<seq<real>> {
    if mode == Off then held else BufferStep(Buffering(held, []), |data| == bins, bufferLength, data).held
  }

  /** The azimuth that is scanned when a frame arrives, if there is one that can have a peak: none for a
      frame of the wrong size or while the buffer fills, and none that matters in max mode. */
  ghost function NextAzimuth(mode: BufferMode, bins: nat, bufferLength: nat, held: seq<seq<real>>, data: seq<real>,
                             power: real -> real, level: real -> real): Option<seq<real>>
    requires Covers(held, bins)
  {
    if |data| != bins then None
    else if mode == Off then Some(data)
    else
      var batches := BufferStep(Buffering(held, []), true, bufferLength, data).batches;
      if mode == Max || batches == [] then None
      else Some(MeanAzimuth(batches[0], bins, power, level))
  }

  class Finder {
    var threshold: real
    var binsToOperateOn: nat
    var minBinToOperateOn: nat
    var awaitingRise: bool
    var dataBuffer: seq<seq<real>>
    var bufferMode: BufferMode
    var bufferLength: nat
    var maxPeaksPerAzimuth: nat
    var configuration: Option<Configuration>
    var hasCallback: bool

    ghost predicate Valid()
      reads this
    {
      && configuration.Some?
      && Usable(Current())
      && Covers(dataBuffer, configuration.value.rangeInBins)
    }

    ghost function Current(): Settings
      reads `threshold, `binsToOperateOn, `minBinToOperateOn, `maxPeaksPerAzimuth, `hasCallback, `configuration
      requires configuration.Some?
    {
      Settings(threshold, binsToOperateOn, minBinToOperateOn, maxPeaksPerAzimuth, hasCallback, configuration.value)
    }

    lemma CurrentIs()
      requires configuration.Some?
      ensures Current() == Settings(threshold, binsToOperateOn, minBinToOperateOn, maxPeaksPerAzimuth, hasCallback, configuration.value)
    {}

    lemma ValidMeans()
      requires Valid()
      ensures configuration.Some? && Usable(Current())
    {}

    lemma ScannedIs(fft: FftData, power: real -> real, level: real -> real)
      requires Valid()
      ensures Covers(dataBuffer, configuration.value.rangeInBins)
      ensures Scanned(fft, power, level)
              == NextAzimuth(bufferMode, configuration.value.rangeInBins, bufferLength, dataBuffer, AsReals(fft.data), power, level)
    {}

    constructor ()
      ensures threshold == 0.0 && binsToOperateOn == 4 && minBinToOperateOn == 50 && !awaitingRise && dataBuffer == []
      ensures bufferMode == Off && bufferLength == 10 && maxPeaksPerAzimuth == 10 && configuration == None && !hasCallback
    {
      threshold, binsToOperateOn, minBinToOperateOn := 0.0, 4, 50;
      awaitingRise, dataBuffer := false, [];
      bufferMode, bufferLength, maxPeaksPerAzimuth := Off, 10, 10;
      configuration, hasCallback := None, false;
    }

    /** The callback may also be taken away again. */
    method SetTargetCallback(present: bool)
      modifies this`hasCallback
      ensures hasCallback == present
    {
      hasCallback := present;
    }

    /** The number of bins asked for is brought between 5 and 15. Frames that are held must have the
        bins that will be combined. */
    method Configure(config: Configuration, thresh: real, bins: nat, minBin: nat, mode: BufferMode, length: nat,
                     maxPeaks: nat)
      requires config.rangeInBins < UINT16
      requires Covers(dataBuffer, config.rangeInBins)
      modifies this
      ensures Valid() && configuration == Some(config) && awaitingRise == old(awaitingRise)
      ensures threshold == thresh && minBinToOperateOn == minBin && bufferMode == mode && bufferLength == length
      ensures maxPeaksPerAzimuth == maxPeaks && dataBuffer == old(dataBuffer) && hasCallback == old(hasCallback)
      ensures if bins < 5 then binsToOperateOn == 5 else if bins > 15 then binsToOperateOn == 15 else binsToOperateOn == bins
    {
      configuration := Some(config);
      threshold := thresh;
      var capped := if bins < MAX_BINS_TO_OPERATE_ON then bins else MAX_BINS_TO_OPERATE_ON;
      binsToOperateOn := if capped > MIN_BINS_TO_OPERATE_ON then capped else MIN_BINS_TO_OPERATE_ON;
      minBinToOperateOn := minBin;
      bufferMode := mode;
      bufferLength := length;
      maxPeaksPerAzimuth := maxPeaks;
    }

    method FindPeakBin(data: seq<real>, startBin: nat, endBin: nat, n: nat) returns (bin: nat)
      requires endBin == |data| && n >= 2
      modifies this`awaitingRise
      ensures bin <= endBin && (bin < endBin ==> awaitingRise)
      ensures bin < endBin ==>
                && startBin <= bin <= endBin - n && data[bin] > threshold && data[bin + 1] < data[bin]
                && (old(awaitingRise) ==> bin > startBin && data[bin - 1] <= data[bin])
      ensures Next(data, threshold, startBin, old(awaitingRise), startBin, endBin - n)
              == if bin < endBin then Some(bin) else None
    {
      hide Next;
      if startBin > endBin - n {
        return endBin;
      }
      var peakBin := startBin;
      while peakBin <= endBin - n
        invariant startBin <= peakBin <= endBin - n + 1
        invariant awaitingRise == (old(awaitingRise) && !StopsFalling(data, startBin, peakBin))
        invariant NoCandidate(data, threshold, startBin, old(awaitingRise), peakBin)
      {
        OneMoreBin(data, startBin, peakBin);
        if awaitingRise && data[peakBin] > data[peakBin + 1] {
          peakBin := peakBin + 1;
          continue;
        } else if awaitingRise {
          awaitingRise := false;
        }
        if data[peakBin] > threshold && data[peakBin + 1] < data[peakBin] {
          awaitingRise := true;
          NextIsFirst(data, threshold, startBin, old(awaitingRise), endBin - n, peakBin);
          FirstCandidateIsSound(data, threshold, startBin, old(awaitingRise), endBin - n);
          return peakBin;
        }
        peakBin := peakBin + 1;
      }
      return endBin;
    }

    /** One peak's target, unless its range is infinite or out of bounds. */
    static method ResolveTarget(data: seq<real>, peakBin: nat, n: nat, c: Configuration)
    returns (target: Option<Target>)
      requires MIN_BINS_TO_OPERATE_ON <= n <= MAX_BINS_TO_OPERATE_ON && WindowFits(|data|, peakBin, n)
      ensures TargetOf(data, c, n, peakBin) == Listed(target)
    {
      hide ResolvedBin;
      var minimumRange, maximumRange := n as real * c.rangeResolution, c.rangeInBins as real * c.rangeResolution;
      var resolvedBin := PeakResolve(data, peakBin, n);
      var range := resolvedBin.Times(c.rangeGain).Times(c.rangeResolution).Plus(c.rangeOffset);
      if range.Infinite? || (range.Finite? && (range.value < minimumRange || range.value > maximumRange)) {
        return None;
      }
      return Some(Target(range, data[peakBin]));
    }

    /** One turn of the loop of `find_peaks`: search for a peak and resolve it. */
    method NextTarget(data: seq<real>, minBin: nat, ghost targets: seq<Target>)
    returns (peakBin: nat, target: Option<Target>)
      requires configuration.Some? && Progress(Current(), data, minBin, awaitingRise, false, targets)
      modifies this`awaitingRise
      ensures target.None? || peakBin < |data|
      ensures peakBin < |data| ==>
                && minBin <= peakBin && peakBin + binsToOperateOn <= |data| < 0x1_0000
                && Progress(Current(), data, peakBin + binsToOperateOn, awaitingRise, false, targets + Listed(target))
      ensures peakBin >= |data| ==>
                && peakBin == |data| == configuration.value.rangeInBins
                && forall b: nat, a: bool :: Progress(Current(), data, b, a, true, targets)
    {
      hide *;
      var endBin: nat := configuration.value.rangeInBins;
      ghost var s, awaited := Current(), awaitingRise;
      CurrentIs();
      ProgressBounds(s, data, minBin, awaited, targets);
      peakBin := FindPeakBin(data, minBin, endBin, binsToOperateOn);
      target := None;
      if peakBin < endBin {
        PeakFound(s, data, minBin, awaited, targets, peakBin);
        target := ResolveTarget(data, peakBin, binsToOperateOn, configuration.value);
      } else {
        NoPeakLeft(s, data, minBin, awaited, targets);
      }
    }

    method FindPeaks(fft: FftData, data: seq<real>) returns (report: Option<AzimuthTarget>)
      requires configuration.Some? && Usable(Current())
      requires |data| == configuration.value.rangeInBins
      requires SafeScan(binsToOperateOn, PeaksOf(Current(), data))
      modifies this`awaitingRise
      ensures report == ReportOf(Current(), fft, data)
    {
      hide *;
      awaitingRise := false;
      var peakBin, peaksFound, minBin: nat := 0, 0, minBinToOperateOn;
      var targets := [];
      CurrentIs();
      StartOfScan(Current(), data);
      LimitMeans(maxPeaksPerAzimuth);
      while peakBin != configuration.value.rangeInBins
        invariant Progress(Current(), data, minBin, awaitingRise, peakBin == |data|, targets)
        invariant peaksFound == |targets| < Limit(maxPeaksPerAzimuth)
        decreases peakBin != |data|, |data| - minBin
      {
        ghost var before := targets;
        var target;
        peakBin, target := NextTarget(data, minBin, targets);
        minBin := (peakBin + binsToOperateOn) % 0x1_0000;
        ListedMeans(target, targets);
        if peakBin < configuration.value.rangeInBins {
          if target.None? {
            continue;
          }
          targets := targets + [target.value];
          peaksFound := peaksFound + 1;
        }
        if peaksFound >= maxPeaksPerAzimuth {
          break;
        }
      }
      EndOfScan(Current(), fft, data, minBin, awaitingRise, peakBin == |data|, targets);
      if peaksFound > 0 && hasCallback {
        report := Some(AzimuthTarget(fft.azimuth, fft.angle, targets, fft.ntpSeconds, fft.ntpSplitSeconds));
      } else {
        report := None;
      }
    }

    /** Average mode; `power` and `level` stand for the conversions from and to decibels. */
    method CombineAverage(power: real -> real, level: real -> real, bins: nat) returns (combined: seq<real>)
      requires dataBuffer != [] && Covers(dataBuffer, bins)
      ensures combined == MeanAzimuth(dataBuffer, bins, power, level)
    {
      combined := [];
      for bin := 0 to bins
        invariant combined == MeanAzimuth(dataBuffer, bins, power, level)[..bin]
      {
        var total := 0.0;
        for counter := 0 to |dataBuffer|
          invariant total == TotalPower(dataBuffer, bins, bin, power, counter)
        {
          var value := dataBuffer[counter][bin] / 2.0;
          total := total + power(value);
        }
        combined := combined + [level(total / |dataBuffer| as real)];
      }
    }

    method CombineMax(bins: nat) returns (combined: seq<real>)
      requires Covers(dataBuffer, bins)
      ensures HeldMaximum(dataBuffer, bins, combined)
    {
      combined := [];
      var max := 0.0;
      for bin := 0 to bins
        invariant |combined| == bin
        invariant forall b :: 0 <= b < bin ==> IsMaximum(dataBuffer, bins, 0, b, combined[b])
        invariant IsMaximum(dataBuffer, bins, 0, bin - 1, max)
      {
        for counter := 0 to |dataBuffer|
          invariant max >= 0.0
          invariant forall c, b :: 0 <= c < |dataBuffer| && 0 <= b < bin ==> dataBuffer[c][b] / 2.0 <= max
          invariant forall c :: 0 <= c < counter ==> dataBuffer[c][bin] / 2.0 <= max
          invariant max == 0.0 || exists c, b :: 0 <= c < |dataBuffer| && 0 <= b <= bin && dataBuffer[c][b] / 2.0 == max
        {
          var value := dataBuffer[counter][bin] / 2.0;
          if value > max {
            max := value;
          }
        }
        combined := combined + [max];
      }
    }

    /** The azimuth that is scanned when a frame arrives. */
    ghost function Scanned(fft: FftData, power: real -> real, level: real -> real): Option<seq<real>>
      requires Valid()
      reads this
    {
      NextAzimuth(bufferMode, configuration.value.rangeInBins, bufferLength, dataBuffer, AsReals(fft.data), power, level)
    }

    /** One frame arrives. */
    method FftDataHandler(fft: FftData, power: real -> real,
                          level: real -> real) returns (report: Option<AzimuthTarget>)
      requires Valid()
      requires Scanned(fft, power, level).Some? ==>
                 SafeScan(binsToOperateOn, PeaksOf(Current(), Scanned(fft, power, level).value))
      modifies this`awaitingRise, this`dataBuffer
      ensures Valid()
      ensures dataBuffer == HeldAfter(bufferMode, configuration.value.rangeInBins, bufferLength, old(dataBuffer), AsReals(fft.data))
      ensures report == match old(Scanned(fft, power, level))
                        case None => None
                        case Some(azimuth) => ReportOf(Current(), fft, azimuth)
    {
      hide Scan, Next, PeaksOf, SafeScan, TargetsOf, ReportOf, HeldMaximum, NeverFalls, MeanAzimuth;
      var bins := configuration.value.rangeInBins;
      report := None;
      if |fft.data| != bins {
        return;
      }
      var buffered;
      if bufferMode != Off {
        dataBuffer := dataBuffer + [AsReals(fft.data)];
        if |dataBuffer| < bufferLength {
          return;
        }
        if bufferMode == Average {
          buffered := CombineAverage(power, level, bins);
        } else {
          buffered := CombineMax(bins);
          HeldMaximumReportsNothing(Current(), fft, dataBuffer, bins, buffered);
        }
        dataBuffer := [];
      } else {
        buffered := AsReals(fft.data);
      }
      report := FindPeaks(fft, buffered);
    }
  }

  // ---------- Whole runs ----------

  function Rows(frames: seq<FftData>): (rows: seq<seq<real>>)
    ensures |rows| == |frames|
    ensures forall i :: 0 <= i < |frames| ==> rows[i] == AsReals(frames[i].data)
  {
    seq(|frames|, i requires 0 <= i < |frames| => AsReals(frames[i].data))
  }

  ghost predicate RightSize(frames: seq<FftData>, bins: nat) {
    forall i :: 0 <= i < |frames| ==> |frames[i].data| == bins
  }

  /** The frames of a batch that are combined; without buffering each is one by itself. */
  function BatchLength(mode: BufferMode, bufferLength: nat): nat {
    if mode == Off then 1 else bufferLength
  }

  ghost predicate IsFullBatch(batch: seq<FftData>, bins: nat) {
    batch != [] && RightSize(batch, bins)
  }

  /** The azimuth a batch is combined to. */
  ghost function BatchAzimuth(mode: BufferMode, batch: seq<FftData>, bins: nat, power: real -> real,
                              level: real -> real): seq<real>
    requires IsFullBatch(batch, bins)
  {
    if mode == Off then AsReals(batch[|batch| - 1].data) else MeanAzimuth(Rows(batch), bins, power, level)
  }

  ghost predicate SafeBatch(s: Settings, mode: BufferMode, batch: seq<FftData>, power: real -> real,
                            level: real -> real)
    requires Usable(s)
  {
    && IsFullBatch(batch, s.configuration.rangeInBins)
    && (mode != Max ==> SafeScan(s.bins, PeaksOf(s, BatchAzimuth(mode, batch, s.configuration.rangeInBins, power, level))))
  }

  ghost predicate AllSafe(s: Settings, mode: BufferMode, batches: seq<seq<FftData>>, power: real -> real,
                          level: real -> real)
    requires Usable(s)
  {
    forall k :: 0 <= k < |batches| ==> SafeBatch(s, mode, batches[k], power, level)
  }

  /** What is reported for a batch, with the time and the angle of its last frame. */
  ghost function BatchReport(s: Settings, mode: BufferMode, batch: seq<FftData>, power: real -> real,
                             level: real -> real):
    Option<AzimuthTarget>
    requires Usable(s) && SafeBatch(s, mode, batch, power, level)
  {
    if mode == Max then None
    else ReportOf(s, batch[|batch| - 1], BatchAzimuth(mode, batch, s.configuration.rangeInBins, power, level))
  }

  ghost function BatchReports(s: Settings, mode: BufferMode, batches: seq<seq<FftData>>, power: real -> real,
                              level: real -> real):
    seq<AzimuthTarget>
    requires Usable(s) && AllSafe(s, mode, batches, power, level)
  {
    if |batches| == 0 then []
    else
      var k := |batches| - 1;
      BatchReports(s, mode, batches[..k], power, level) + Listed(BatchReport(s, mode, batches[k], power, level))
  }

  lemma {:induction false} StepOfRun(frames: seq<FftData>, k: nat, bins: nat, l: nat)
    requires k < |frames|
    ensures BufferRun(frames[..k + 1], bins, l) == BufferStep(BufferRun(frames[..k], bins, l), |frames[k].data| == bins, l, frames[k])
  {
    assert frames[..k + 1][..k] == frames[..k];
  }

  lemma {:induction false} BatchesGrow(frames: seq<FftData>, k: nat, bins: nat, l: nat)
    requires k <= |frames|
    ensures BufferRun(frames[..k], bins, l).batches <= BufferRun(frames, bins, l).batches
    decreases |frames| - k
  {
    if k == |frames| {
      assert frames[..k] == frames;
    } else {
      StepOfRun(frames, k, bins, l);
      BatchesGrow(frames, k + 1, bins, l);
    }
  }

  lemma {:induction false} RunHoldsRightSize(frames: seq<FftData>, bins: nat, l: nat)
    ensures RightSize(BufferRun(frames, bins, l).held, bins)
  {
    if |frames| > 0 {
      RunHoldsRightSize(frames[..|frames| - 1], bins, l);
    }
  }

  lemma RowsPush(frames: seq<FftData>, fft: FftData)
    ensures Rows(frames + [fft]) == Rows(frames) + [AsReals(fft.data)]
  {}

  /** One frame: the handler's buffer and azimuth are those of the batching. */
  lemma StepScans(mode: BufferMode, bins: nat, bufferLength: nat, b: Buffering<FftData>, fft: FftData,
                  power: real -> real, level: real -> real)
    requires RightSize(b.held, bins) && (mode == Off ==> b.held == [])
    ensures var l := BatchLength(mode, bufferLength);
            var b' := BufferStep(b, |fft.data| == bins, l, fft);
            && Covers(Rows(b.held), bins) && RightSize(b'.held, bins) && (mode == Off ==> b'.held == [])
            && HeldAfter(mode, bins, bufferLength, Rows(b.held), AsReals(fft.data)) == Rows(b'.held)
            && var next := NextAzimuth(mode, bins, bufferLength, Rows(b.held), AsReals(fft.data), power, level);
               if b'.batches == b.batches then next == None
               else
                 && var batch := b.held + [fft];
                    b'.batches == b.batches + [batch] && IsFullBatch(batch, bins)
                    && next == if mode == Max then None else Some(BatchAzimuth(mode, batch, bins, power, level))
  {
    hide MeanAzimuth;
    RowsPush(b.held, fft);
    assert Rows([]) == [];
  }

  lemma {:induction false} RunStarts(frames: seq<FftData>, bins: nat, l: nat, s: Settings, mode: BufferMode,
                                     power: real -> real, level: real -> real)
    requires Usable(s)
    ensures var run := BufferRun(frames[..0], bins, l);
            && run.held == [] && Rows(run.held) == [] && AllSafe(s, mode, run.batches, power, level)
            && BatchReports(s, mode, run.batches, power, level) == []
  {}

  lemma PrefixIsSafe(s: Settings, mode: BufferMode, some: seq<seq<FftData>>, all: seq<seq<FftData>>,
                     power: real -> real, level: real -> real)
    requires Usable(s) && some <= all && AllSafe(s, mode, all, power, level)
    ensures AllSafe(s, mode, some, power, level)
  {
    hide SafeBatch, Usable;
    forall k | 0 <= k < |some| ensures SafeBatch(s, mode, some[k], power, level) {
      assert some[k] == all[k];
    }
  }

  lemma {:induction false} ReportsPush(s: Settings, mode: BufferMode, batches: seq<seq<FftData>>, batch: seq<FftData>,
                                       power: real -> real, level: real -> real)
    requires Usable(s) && AllSafe(s, mode, batches + [batch], power, level)
    ensures AllSafe(s, mode, batches, power, level) && SafeBatch(s, mode, batch, power, level)
    ensures BatchReports(s, mode, batches + [batch], power, level)
            == BatchReports(s, mode, batches, power, level) + Listed(BatchReport(s, mode, batch, power, level))
  {
    hide SafeBatch, Usable, BatchReport, Listed;
    PrefixIsSafe(s, mode, batches, batches + [batch], power, level);
    assert (batches + [batch])[|batches|] == batch && (batches + [batch])[..|batches|] == batches;
  }

  /** The reports of a run are those of its first batches and then those of the others; one batch has at most one. */
  lemma {:induction false} ReportsSplit(s: Settings, mode: BufferMode, some: seq<seq<FftData>>,
                                        others: seq<seq<FftData>>,
                                        power: real -> real, level: real -> real)
    requires Usable(s) && AllSafe(s, mode, some, power, level) && AllSafe(s, mode, others, power, level)
    ensures AllSafe(s, mode, some + others, power, level)
    ensures BatchReports(s, mode, some + others, power, level)
            == BatchReports(s, mode, some, power, level) + BatchReports(s, mode, others, power, level)
    decreases |others|
  {
    hide *;
    AllSafeTogether(s, mode, some, others, power, level);
    if |others| == 0 {
      NoReports(s, mode, others, power, level);
      assert some + others == some;
    } else {
      var k := |others| - 1;
      assert others[..k] + [others[k]] == others;
      assert some + others == some + others[..k] + [others[k]];
      ReportsPush(s, mode, others[..k], others[k], power, level);
      ReportsSplit(s, mode, some, others[..k], power, level);
      ReportsPush(s, mode, some + others[..k], others[k], power, level);
      Associate(BatchReports(s, mode, some, power, level), BatchReports(s, mode, others[..k], power, level),
                Listed(BatchReport(s, mode, others[k], power, level)));
    }
  }

  lemma AllSafeTogether(s: Settings, mode: BufferMode, some: seq<seq<FftData>>, others: seq<seq<FftData>>,
                        power: real -> real, level: real -> real)
    requires Usable(s) && AllSafe(s, mode, some, power, level) && AllSafe(s, mode, others, power, level)
    ensures AllSafe(s, mode, some + others, power, level)
  {
    hide SafeBatch, Usable;
  }

  lemma {:induction false} NoReports(s: Settings, mode: BufferMode, batches: seq<seq<FftData>>, power: real -> real,
                                     level: real -> real)
    requires Usable(s) && AllSafe(s, mode, batches, power, level) && |batches| == 0
    ensures BatchReports(s, mode, batches, power, level) == []
  {}

  /** A batch is reported by its last frame, without buffering from its values, in average mode from the means. */
  lemma {:induction false} OneBatchReports(s: Settings, mode: BufferMode, batch: seq<FftData>, power: real -> real,
                                           level: real -> real)
    requires Usable(s) && AllSafe(s, mode, [batch], power, level)
    ensures |batch| > 0 && forall i :: 0 <= i < |batch| ==> |batch[i].data| == s.configuration.rangeInBins
    ensures var reports, last := BatchReports(s, mode, [batch], power, level), batch[|batch| - 1];
            match mode
            case Max => reports == []
            case Off =>
              && SafeScan(s.bins, PeaksOf(s, AsReals(last.data)))
              && reports == Listed(ReportOf(s, last, AsReals(last.data)))
            case Average =>
              var mean := MeanAzimuth(Rows(batch), s.configuration.rangeInBins, power, level);
              && SafeScan(s.bins, PeaksOf(s, mean))
              && reports == Listed(ReportOf(s, last, mean))
  {
    hide PeaksOf, SafeScan, ReportOf, Usable, MeanAzimuth, Listed;
    assert [batch][0] == batch;
    assert [batch][..0] == [];
    assert BatchReports(s, mode, [batch][..0], power, level) == [];
    BatchReportIs(s, mode, batch, power, level);
    assert [] + Listed(BatchReport(s, mode, batch, power, level)) == Listed(BatchReport(s, mode, batch, power, level));
    assert Listed<AzimuthTarget>(None) == [] by { ListedMeans<AzimuthTarget>(None, []); }
  }

  /** What a safe batch reports, and why it may be scanned. */
  lemma BatchReportIs(s: Settings, mode: BufferMode, batch: seq<FftData>, power: real -> real, level: real -> real)
    requires Usable(s) && SafeBatch(s, mode, batch, power, level)
    ensures IsFullBatch(batch, s.configuration.rangeInBins) && batch != []
    ensures mode == Max ==> BatchReport(s, mode, batch, power, level) == None
    ensures mode != Max ==>
              var azimuth := BatchAzimuth(mode, batch, s.configuration.rangeInBins, power, level);
              && SafeScan(s.bins, PeaksOf(s, azimuth))
              && BatchReport(s, mode, batch, power, level) == ReportOf(s, batch[|batch| - 1], azimuth)
  {
    hide BatchAzimuth, PeaksOf, SafeScan, ReportOf, Usable;
  }

  /** One turn of the run. */
  lemma {:induction false} RunStep(frames: seq<FftData>, k: nat, bins: nat, l: nat, s: Settings, mode: BufferMode,
                                   bufferLength: nat, held: seq<seq<real>>, power: real -> real, level: real -> real)
    requires Usable(s) && k < |frames| && bins == s.configuration.rangeInBins && l == BatchLength(mode, bufferLength)
    requires AllSafe(s, mode, BufferRun(frames, bins, l).batches, power, level)
    requires var run := BufferRun(frames[..k], bins, l);
             held == Rows(run.held) && (mode == Off ==> run.held == []) && AllSafe(s, mode, run.batches, power, level)
    ensures var run, next := BufferRun(frames[..k], bins, l), BufferRun(frames[..k + 1], bins, l);
            var azimuth := if Covers(held, bins) then NextAzimuth(mode, bins, bufferLength, held, AsReals(frames[k].data), power, level)
                           else None;
            && Covers(held, bins) && (mode == Off ==> next.held == [])
            && HeldAfter(mode, bins, bufferLength, held, AsReals(frames[k].data)) == Rows(next.held)
            && (azimuth.Some? ==> SafeScan(s.bins, PeaksOf(s, azimuth.value)))
            && AllSafe(s, mode, next.batches, power, level)
            && BatchReports(s, mode, next.batches, power, level)
               == BatchReports(s, mode, run.batches, power, level)
                + Listed(if azimuth.Some? then ReportOf(s, frames[k], azimuth.value) else None)
  {
    hide *;
    var run, next, fft := BufferRun(frames[..k], bins, l), BufferRun(frames[..k + 1], bins, l), frames[k];
    StepOfRun(frames, k, bins, l);
    BatchesGrow(frames, k + 1, bins, l);
    RunHoldsRightSize(frames[..k], bins, l);
    StepScans(mode, bins, bufferLength, run, fft, power, level);
    PrefixIsSafe(s, mode, next.batches, BufferRun(frames, bins, l).batches, power, level);
    if next.batches == run.batches {
      NothingListed(BatchReports(s, mode, run.batches, power, level));
    } else {
      var batch := run.held + [fft];
      assert batch[|batch| - 1] == fft;
      ReportsPush(s, mode, run.batches, batch, power, level);
      BatchReportIs(s, mode, batch, power, level);
    }
  }

  lemma NothingListed<T>(some: seq<T>)
    ensures some + Listed(None) == some
  {}

  /** The frames of a run, one after the other. What is reported is what the batches give rise to, in order;
      the batches are consecutive groups of the accepted frames (`BatchesPartitionTheRun`). */
  method Replay(finder: Finder, frames: seq<FftData>, power: real -> real, level: real -> real)
    returns (reports: seq<AzimuthTarget>)
    requires finder.Valid() && finder.dataBuffer == []
    requires AllSafe(finder.Current(), finder.bufferMode,
                     BufferRun(frames, finder.configuration.value.rangeInBins,
                               BatchLength(finder.bufferMode, finder.bufferLength)).batches, power, level)
    modifies finder`awaitingRise, finder`dataBuffer
    ensures finder.Valid()
    ensures var run := BufferRun(frames, finder.configuration.value.rangeInBins,
                                 BatchLength(finder.bufferMode, finder.bufferLength));
            finder.dataBuffer == Rows(run.held)
            && reports == BatchReports(finder.Current(), finder.bufferMode, run.batches, power, level)
  {
    hide *;
    finder.ValidMeans();
    ghost var s, mode := finder.Current(), finder.bufferMode;
    finder.CurrentIs();
    ghost var bins, l := s.configuration.rangeInBins, BatchLength(mode, finder.bufferLength);
    ghost var all := BufferRun(frames, bins, l).batches;
    ghost var run := BufferRun(frames[..0], bins, l);
    reports := [];
    RunStarts(frames, bins, l, s, mode, power, level);
    for k := 0 to |frames|
      invariant finder.Valid() && finder.Current() == s
      invariant run == BufferRun(frames[..k], bins, l) && finder.dataBuffer == Rows(run.held)
      invariant mode == Off ==> run.held == []
      invariant AllSafe(s, mode, run.batches, power, level) && reports == BatchReports(s, mode, run.batches, power, level)
    {
      finder.ValidMeans();
      finder.CurrentIs();
      ghost var next := BufferRun(frames[..k + 1], bins, l);
      RunStep(frames, k, bins, l, s, mode, finder.bufferLength, finder.dataBuffer, power, level);
      finder.ScannedIs(frames[k], power, level);
      var report := finder.FftDataHandler(frames[k], power, level);
      ListedMeans(report, reports);
      if report.Some? {
        reports := reports + [report.value];
      }
      run := next;
    }
    assert frames[..|frames|] == frames;
  }

  /** Max mode reports nothing, whatever was received: the combined azimuth never falls, so it has no
      peak. */
  lemma HeldMaximumReportsNothing(s: Settings, fft: FftData, buffer: seq<seq<real>>, bins: nat, combined: seq<real>)
    requires Usable(s) && Covers(buffer, bins) && HeldMaximum(buffer, bins, combined)
    ensures SafeScan(s.bins, PeaksOf(s, combined)) && ReportOf(s, fft, combined) == None
  {
    hide Scan, HeldMaximum, NeverFalls;
    HeldMaximumNeverFalls(buffer, bins, combined);
    NoPeakWithoutFall(combined, s.threshold, s.bins, s.minBin, false, |combined| - s.bins);
  }

  /** The peaks still to be found from `minBin` on. */
  ghost function Remaining(s: Settings, data: seq<real>, minBin: nat, awaiting: bool, finished: bool): seq<int>
    requires Usable(s)
  {
    if finished then [] else Scan(data, s.threshold, s.bins, minBin, awaiting, |data| - s.bins)
  }

  /** The loop of `find_peaks` loses nothing: the targets so far and those of the peaks still to be
      found make up the targets of the whole scan. */
  ghost predicate Progress(s: Settings, data: seq<real>, minBin: nat, awaiting: bool, finished: bool,
                           targets: seq<Target>) {
    && Usable(s)
    && |data| == s.configuration.rangeInBins
    && AllFit(|data|, s.bins, PeaksOf(s, data))
    && AllFit(|data|, s.bins, Remaining(s, data, minBin, awaiting, finished))
    && Targets(data, s.configuration, s.bins, PeaksOf(s, data))
       == targets + Targets(data, s.configuration, s.bins, Remaining(s, data, minBin, awaiting, finished))
  }

  lemma LimitMeans(maxPeaks: nat)
    ensures Limit(maxPeaks) == if maxPeaks == 0 then 1 else maxPeaks
  {}

  lemma StartOfScan(s: Settings, data: seq<real>)
    requires Usable(s) && |data| == s.configuration.rangeInBins && SafeScan(s.bins, PeaksOf(s, data))
    ensures Progress(s, data, s.minBin, false, 0 == |data|, [])
    ensures s.bins >= 2
  {
    SafeScanFits(data, s.threshold, s.bins, s.minBin, false);
    var ts := Targets(data, s.configuration, s.bins, PeaksOf(s, data));
    assert [] + ts == ts;
    hide Targets;
  }

  lemma ProgressBounds(s: Settings, data: seq<real>, minBin: nat, awaiting: bool, targets: seq<Target>)
    requires Progress(s, data, minBin, awaiting, false, targets)
    ensures |data| == s.configuration.rangeInBins < 0x1_0000
    ensures MIN_BINS_TO_OPERATE_ON <= s.bins <= MAX_BINS_TO_OPERATE_ON && 5 <= s.bins
  {
    hide Targets, PeaksOf, Remaining, AllFit;
  }

  /** A search that finds nothing: no peaks remain. */
  lemma {:induction false} NoPeakLeft(s: Settings, data: seq<real>, minBin: nat, awaiting: bool, targets: seq<Target>)
    requires Progress(s, data, minBin, awaiting, false, targets)
    requires 5 <= s.bins && Next(data, s.threshold, minBin, awaiting, minBin, |data| - s.bins) == None
    ensures forall b: nat, a: bool :: Progress(s, data, b, a, true, targets)
  {
    hide Targets, PeaksOf, Scan, Next, AllFit;
    ScanUnfolds(data, s.threshold, s.bins, minBin, awaiting, |data| - s.bins);
    forall b: nat, a: bool ensures Progress(s, data, b, a, true, targets) {
      assert Remaining(s, data, b, a, true) == Remaining(s, data, minBin, awaiting, false);
    }
  }

  /** A search that finds a peak: the others remain. */
  lemma {:induction false} PeakFound(s: Settings, data: seq<real>, minBin: nat, awaiting: bool, targets: seq<Target>,
                                     p: nat)
    requires Progress(s, data, minBin, awaiting, false, targets)
    requires 5 <= s.bins && Next(data, s.threshold, minBin, awaiting, minBin, |data| - s.bins) == Some(p)
    ensures MIN_BINS_TO_OPERATE_ON <= s.bins && WindowFits(|data|, p, s.bins) && minBin <= p && p + s.bins <= |data|
    ensures Progress(s, data, p + s.bins, true, false, targets + TargetOf(data, s.configuration, s.bins, p))
  {
    hide *;
    ScanUnfolds(data, s.threshold, s.bins, minBin, awaiting, |data| - s.bins);
    PeakScanned(s, data, minBin, awaiting, targets, p);
  }

  lemma {:induction false} PeakScanned(s: Settings, data: seq<real>, minBin: nat, awaiting: bool,
                                       targets: seq<Target>, p: nat)
    requires Progress(s, data, minBin, awaiting, false, targets) && 5 <= s.bins && p + s.bins <= |data|
    requires Scan(data, s.threshold, s.bins, minBin, awaiting, |data| - s.bins)
             == [p] + Scan(data, s.threshold, s.bins, p + s.bins, true, |data| - s.bins)
    ensures MIN_BINS_TO_OPERATE_ON <= s.bins && WindowFits(|data|, p, s.bins)
    ensures Progress(s, data, p + s.bins, true, false, targets + TargetOf(data, s.configuration, s.bins, p))
  {
    hide Targets, TargetOf, PeaksOf, Scan, Next, AllFit, WindowFits;
    var rest := Scan(data, s.threshold, s.bins, p + s.bins, true, |data| - s.bins);
    FirstTarget(data, s.configuration, s.bins, p, rest);
    Associate(targets, TargetOf(data, s.configuration, s.bins, p), Targets(data, s.configuration, s.bins, rest));
  }

  /** When the loop ends, because no peak remains or the limit is reached, it has the report. */
  lemma EndOfScan(s: Settings, fft: FftData, data: seq<real>, minBin: nat, awaiting: bool, finished: bool,
                  targets: seq<Target>)
    requires Progress(s, data, minBin, awaiting, finished, targets)
    requires SafeScan(s.bins, PeaksOf(s, data))
    requires |targets| <= Limit(s.maxPeaks) && (finished || |targets| == Limit(s.maxPeaks))
    ensures ReportOf(s, fft, data)
            == if targets == [] || !s.callback then None
               else Some(AzimuthTarget(fft.azimuth, fft.angle, targets, fft.ntpSeconds, fft.ntpSplitSeconds))
  {
    assert finished ==> Targets(data, s.configuration, s.bins, []) == [];
    hide Targets, PeaksOf, Take, Limit, Scan, SafeScan, AllFit;
    TakeOfLonger(targets, Targets(data, s.configuration, s.bins, PeaksOf(s, data)), Limit(s.maxPeaks), finished);
  }

  lemma TakeOfLonger<T>(short: seq<T>, long: seq<T>, n: nat, whole: bool)
    requires short <= long && |short| <= n && (whole ==> short == long) && (whole || |short| == n)
    ensures Take(long, n) == short
  {}

  // ---------- Are the reported ranges within bounds? ----------

  predicate InBounds(range: Extended, c: Configuration, n: nat) {
    range.Finite? && n as real * c.rangeResolution <= range.value <= c.rangeInBins as real * c.rangeResolution
  }

  ghost predicate AllInBounds(targets: seq<Target>, c: Configuration, n: nat) {
    forall i :: 0 <= i < |targets| ==> InBounds(targets[i].range, c, n)
  }

  /** Around the peak the samples bend, or slope in a way that yields an infinity, which is rejected. */
  predicate HarmlessPeak(data: seq<real>, c: Configuration, n: nat, p: int)
    requires WindowFits(|data|, p, n)
  {
    var y := Window(data, p, n);
    CurvatureOf(y) != 0.0 || (SlopeOf(y) != 0.0 && c.rangeGain != 0.0 && c.rangeResolution != 0.0)
  }

  /** What that means for the fit. */
  lemma HarmlessMeans(data: seq<real>, c: Configuration, n: nat, p: int)
    requires n >= MIN_BINS_TO_OPERATE_ON && WindowFits(|data|, p, n)
    ensures var q := OffsetFit(Window(data, p, n));
            HarmlessPeak(data, c, n, p) <==> q.b2 != 0.0 || (q.b1 != 0.0 && c.rangeGain != 0.0 && c.rangeResolution != 0.0)
  {
    hide OffsetFit, CurvatureOf, SlopeOf;
    var y := Window(data, p, n);
    CurvedIff(y);
    if OffsetFit(y).b2 == 0.0 {
      SlopedIff(y);
    }
  }

  /** What is reported for a peak lies within bounds exactly when the peak is harmless. */
  lemma TargetInBoundsIff(data: seq<real>, c: Configuration, n: nat, p: int)
    requires n >= MIN_BINS_TO_OPERATE_ON && WindowFits(|data|, p, n)
    ensures AllInBounds(TargetOf(data, c, n, p), c, n) <==> HarmlessPeak(data, c, n, p)
    ensures |TargetOf(data, c, n, p)| <= 1
  {
    hide OffsetFit, TurningPoint, TargetOf, Window, HarmlessPeak;
    HarmlessMeans(data, c, n, p);
    TargetOfMeans(data, c, n, p, OffsetFit(Window(data, p, n)));
    var t := TargetOf(data, c, n, p);
    if t != [] {
      assert t == [t[0]];
    }
  }

  lemma {:induction false} TargetsSplit(data: seq<real>, c: Configuration, n: nat, peaks: seq<int>, j: nat)
    requires n >= MIN_BINS_TO_OPERATE_ON && AllFit(|data|, n, peaks) && j <= |peaks|
    ensures AllFit(|data|, n, peaks[..j]) && AllFit(|data|, n, peaks[j..])
    ensures Targets(data, c, n, peaks) == Targets(data, c, n, peaks[..j]) + Targets(data, c, n, peaks[j..])
  {
    hide TargetOf, WindowFits;
    if j == 0 {
      assert peaks[0..] == peaks;
    } else {
      assert peaks[..j][1..] == peaks[1..][..j - 1] && peaks[1..][j - 1..] == peaks[j..];
      TargetsSplit(data, c, n, peaks[1..], j - 1);
      Associate(TargetOf(data, c, n, peaks[0]), Targets(data, c, n, peaks[1..][..j - 1]), Targets(data, c, n, peaks[j..]));
    }
  }

  /** Every target belongs to a peak of the scan, that with as many targets before it, and shows the
      power measured there. */
  lemma {:induction false} TargetsComeFromPeaks(data: seq<real>, c: Configuration, n: nat, peaks: seq<int>, i: nat)
    returns (j: nat)
    requires n >= MIN_BINS_TO_OPERATE_ON && AllFit(|data|, n, peaks)
    requires i < |Targets(data, c, n, peaks)|
    ensures i <= j < |peaks| && TargetOf(data, c, n, peaks[j]) == [Targets(data, c, n, peaks)[i]]
    ensures AllFit(|data|, n, peaks[..j]) && |Targets(data, c, n, peaks[..j])| == i
    ensures Targets(data, c, n, peaks)[i].power == data[peaks[j]]
    decreases |peaks|
  {
    hide ResolvedBin, RangeOf, Plausible, WindowFits;
    var first := TargetOf(data, c, n, peaks[0]);
    if |first| == 1 && i == 0 {
      j := 0;
    } else {
      j := TargetsComeFromPeaks(data, c, n, peaks[1..], i - |first|);
      j := j + 1;
      assert peaks[..j][1..] == peaks[1..][..j - 1] && peaks[..j][0] == peaks[0];
    }
  }

  /** The search gets to peak `j` before the limit on targets ends it. */
  ghost predicate IsReached(data: seq<real>, c: Configuration, n: nat, peaks: seq<int>, limit: nat, j: nat)
    requires n >= MIN_BINS_TO_OPERATE_ON && AllFit(|data|, n, peaks) && j < |peaks|
  {
    TargetsSplit(data, c, n, peaks, j);
    |Targets(data, c, n, peaks[..j])| < limit
  }

  ghost predicate ReachedPeaksHarmless(data: seq<real>, c: Configuration, n: nat, peaks: seq<int>, limit: nat)
    requires n >= MIN_BINS_TO_OPERATE_ON && AllFit(|data|, n, peaks)
  {
    forall j :: 0 <= j < |peaks| && IsReached(data, c, n, peaks, limit, j) ==> HarmlessPeak(data, c, n, peaks[j])
  }

  lemma {:induction false} ReachedPeakReports(data: seq<real>, c: Configuration, n: nat, peaks: seq<int>, limit: nat,
                                              j: nat)
    requires n >= MIN_BINS_TO_OPERATE_ON && AllFit(|data|, n, peaks) && j < |peaks|
    requires IsReached(data, c, n, peaks, limit, j)
    ensures forall t :: t in TargetOf(data, c, n, peaks[j]) ==> t in Take(Targets(data, c, n, peaks), limit)
  {
    hide TargetOf, WindowFits;
    TargetsSplit(data, c, n, peaks, j);
    var before, one := Targets(data, c, n, peaks[..j]), TargetOf(data, c, n, peaks[j]);
    assert peaks[j..][0] == peaks[j] && peaks[j..][1..] == peaks[j + 1..];
    assert Targets(data, c, n, peaks[j..]) == one + Targets(data, c, n, peaks[j + 1..]);
    TargetInBoundsIff(data, c, n, peaks[j]);
    if one != [] {
      var all := Targets(data, c, n, peaks);
      assert one == [one[0]] && all[|before|] == one[0];
      assert Take(all, limit)[|before|] == one[0];
    }
  }

  lemma MembersInBounds(some: seq<Target>, all: seq<Target>, c: Configuration, n: nat)
    requires AllInBounds(all, c, n) && forall t :: t in some ==> t in all
    ensures AllInBounds(some, c, n)
  {
    hide InBounds;
    forall i | 0 <= i < |some| ensures InBounds(some[i].range, c, n) {
      assert some[i] in all;
    }
  }

  /** Whatever is reported under the limit lies within bounds exactly when every peak the search gets
      to is harmless. */
  lemma {:induction false} TakenInBoundsIff(data: seq<real>, c: Configuration, n: nat, peaks: seq<int>, limit: nat)
    requires n >= MIN_BINS_TO_OPERATE_ON && AllFit(|data|, n, peaks)
    ensures AllInBounds(Take(Targets(data, c, n, peaks), limit), c, n) <==> ReachedPeaksHarmless(data, c, n, peaks, limit)
  {
    hide Targets, TargetOf, HarmlessPeak, WindowFits, InBounds, IsReached;
    var taken := Take(Targets(data, c, n, peaks), limit);
    if AllInBounds(taken, c, n) {
      forall j | 0 <= j < |peaks| && IsReached(data, c, n, peaks, limit, j) ensures HarmlessPeak(data, c, n, peaks[j]) {
        ReachedPeakReports(data, c, n, peaks, limit, j);
        MembersInBounds(TargetOf(data, c, n, peaks[j]), taken, c, n);
        TargetInBoundsIff(data, c, n, peaks[j]);
      }
    }
    if ReachedPeaksHarmless(data, c, n, peaks, limit) {
      forall i | 0 <= i < |taken| ensures InBounds(taken[i].range, c, n) {
        var j := TargetsComeFromPeaks(data, c, n, peaks, i);
        ReachedMeans(data, c, n, peaks, limit, j, i);
        TargetInBoundsIff(data, c, n, peaks[j]);
        assert TargetOf(data, c, n, peaks[j])[0] == taken[i];
      }
    }
  }

  lemma {:induction false} ReachedMeans(data: seq<real>, c: Configuration, n: nat, peaks: seq<int>, limit: nat,
                                        j: nat, i: nat)
    requires n >= MIN_BINS_TO_OPERATE_ON && AllFit(|data|, n, peaks) && j < |peaks|
    requires AllFit(|data|, n, peaks[..j]) && |Targets(data, c, n, peaks[..j])| == i
    ensures IsReached(data, c, n, peaks, limit, j) <==> i < limit
  {}

  /** Without a limit every peak counts. */
  lemma {:induction false} TargetsInBoundsIff(data: seq<real>, c: Configuration, n: nat, peaks: seq<int>)
    requires n >= MIN_BINS_TO_OPERATE_ON && AllFit(|data|, n, peaks)
    ensures AllInBounds(Targets(data, c, n, peaks), c, n)
            <==> forall j :: 0 <= j < |peaks| ==> HarmlessPeak(data, c, n, peaks[j])
  {
    hide Targets, HarmlessPeak, AllInBounds, WindowFits;
    var limit := |Targets(data, c, n, peaks)| + 1;
    TakenInBoundsIff(data, c, n, peaks, limit);
    forall j | 0 <= j < |peaks| ensures IsReached(data, c, n, peaks, limit, j) {
      TargetsSplit(data, c, n, peaks, j);
    }
  }

  /** All ranges reported for an azimuth lie within bounds exactly when every peak the search gets to is
      harmless; and there are no more of them than the limit. */
  lemma ReportInBoundsIff(s: Settings, data: seq<real>)
    requires Usable(s) && SafeScan(s.bins, PeaksOf(s, data))
    ensures |TargetsOf(s, data)| <= Limit(s.maxPeaks) && AllFit(|data|, s.bins, PeaksOf(s, data))
    ensures AllInBounds(TargetsOf(s, data), s.configuration, s.bins)
            <==> ReachedPeaksHarmless(data, s.configuration, s.bins, PeaksOf(s, data), Limit(s.maxPeaks))
  {
    hide Scan, Next, Targets, AllInBounds, ReachedPeaksHarmless;
    SafeScanFits(data, s.threshold, s.bins, s.minBin, false);
    TakenInBoundsIff(data, s.configuration, s.bins, PeaksOf(s, data), Limit(s.maxPeaks));
  }

  // ---------- What is reported, and of which peaks ----------

  /** `all` lists what the pieces with the numbers `js` hold, one element each, in order; the others are empty. */
  ghost predicate Picks<T>(pieces: seq<seq<T>>, js: seq<nat>, all: seq<T>) {
    && |js| == |all|
    && (forall i, k :: 0 <= i < k < |js| ==> js[i] < js[k])
    && (forall i :: 0 <= i < |js| ==> js[i] < |pieces| && pieces[js[i]] == [all[i]])
    && (forall j :: 0 <= j < |pieces| && j !in js ==> pieces[j] == [])
  }

  function OneHigher(js: seq<nat>): (r: seq<nat>)
    ensures |r| == |js| && forall i :: 0 <= i < |js| ==> r[i] == js[i] + 1
    ensures forall j :: j in js ==> j + 1 in r
  {
    var r := seq(|js|, i requires 0 <= i < |js| => js[i] + 1);
    assert forall i :: 0 <= i < |js| ==> r[i] == js[i] + 1;
    r
  }

  lemma PickAfter<T>(piece: seq<T>, pieces: seq<seq<T>>, js: seq<nat>, all: seq<T>)
    requires Picks(pieces, js, all)
    ensures var more, higher := [piece] + pieces, OneHigher(js);
            && (forall i :: 0 <= i < |js| ==> 0 < higher[i] < |more| && more[higher[i]] == [all[i]])
            && (forall i, k :: 0 <= i < k < |js| ==> higher[i] < higher[k])
            && (forall j :: 0 < j < |more| && j !in higher ==> more[j] == [])
  {
    hide *;
    var more, higher := [piece] + pieces, OneHigher(js);
    PicksMean(pieces, js, all);
    forall i | 0 <= i < |js| ensures 0 < higher[i] < |more| && more[higher[i]] == [all[i]] {
      PickedHigher(piece, pieces, js, all, i);
    }
    forall i, k | 0 <= i < k < |js| ensures higher[i] < higher[k] {
      assert js[i] < js[k];
    }
    forall j | 0 < j < |more| && j !in higher ensures more[j] == [] {
      NotPickedHigher(piece, pieces, js, all, j);
    }
  }

  lemma PicksMean<T>(pieces: seq<seq<T>>, js: seq<nat>, all: seq<T>)
    requires Picks(pieces, js, all)
    ensures |js| == |all| && forall i, k :: 0 <= i < k < |js| ==> js[i] < js[k]
  {}

  lemma PickedHigher<T>(piece: seq<T>, pieces: seq<seq<T>>, js: seq<nat>, all: seq<T>, i: nat)
    requires Picks(pieces, js, all) && i < |js|
    ensures var more, higher := [piece] + pieces, OneHigher(js); 0 < higher[i] < |more| && more[higher[i]] == [all[i]]
  {
    hide OneHigher;
    assert ([piece] + pieces)[js[i] + 1] == pieces[js[i]];
  }

  lemma NotPickedHigher<T>(piece: seq<T>, pieces: seq<seq<T>>, js: seq<nat>, all: seq<T>, j: nat)
    requires Picks(pieces, js, all) && 0 < j <= |pieces| && j !in OneHigher(js)
    ensures ([piece] + pieces)[j] == []
  {
    hide OneHigher;
    assert ([piece] + pieces)[j] == pieces[j - 1] && (j - 1) + 1 !in OneHigher(js);
  }

  lemma PickOneMore<T>(piece: seq<T>, pieces: seq<seq<T>>, js: seq<nat>, all: seq<T>) returns (js': seq<nat>)
    requires Picks(pieces, js, all) && |piece| <= 1
    ensures Picks([piece] + pieces, js', piece + all)
  {
    hide OneHigher;
    PickAfter(piece, pieces, js, all);
    if piece == [] {
      js' := OneHigher(js);
      assert piece + all == all;
    } else {
      js' := [0] + OneHigher(js);
      PickFirst(piece, [piece] + pieces, OneHigher(js), all);
    }
  }

  lemma PickFirst<T>(piece: seq<T>, more: seq<seq<T>>, higher: seq<nat>, all: seq<T>)
    requires |piece| == 1 && |more| > 0 && more[0] == piece && |higher| == |all|
    requires forall i :: 0 <= i < |higher| ==> 0 < higher[i] < |more| && more[higher[i]] == [all[i]]
    requires forall i, k :: 0 <= i < k < |higher| ==> higher[i] < higher[k]
    requires forall j :: 0 < j < |more| && j !in higher ==> more[j] == []
    ensures Picks(more, [0] + higher, piece + all)
  {
    var js, both := [0] + higher, piece + all;
    forall i | 0 <= i < |js| ensures js[i] < |more| && more[js[i]] == [both[i]] {
      if i > 0 {
        assert js[i] == higher[i - 1] && both[i] == all[i - 1];
      }
    }
    forall i, k | 0 <= i < k < |js| ensures js[i] < js[k] {
      assert js[k] == higher[k - 1];
    }
    forall j | 0 <= j < |more| && j !in js ensures more[j] == [] {
      assert js[0] == 0;
    }
  }

  ghost function Pieces(data: seq<real>, c: Configuration, n: nat, peaks: seq<int>): (pieces: seq<seq<Target>>)
    requires n >= MIN_BINS_TO_OPERATE_ON && AllFit(|data|, n, peaks)
    ensures |pieces| == |peaks| && forall j :: 0 <= j < |peaks| ==> pieces[j] == TargetOf(data, c, n, peaks[j])
  {
    seq(|peaks|, j requires 0 <= j < |peaks| => TargetOf(data, c, n, peaks[j]))
  }

  lemma {:induction false} PeaksWithTargets(data: seq<real>, c: Configuration, n: nat,
                                            peaks: seq<int>) returns (js: seq<nat>)
    requires n >= MIN_BINS_TO_OPERATE_ON && AllFit(|data|, n, peaks)
    ensures Picks(Pieces(data, c, n, peaks), js, Targets(data, c, n, peaks))
  {
    hide TargetOf, WindowFits, Picks, Pieces;
    if |peaks| == 0 {
      js := [];
      NothingPicked<Target>();
    } else {
      js := PeaksWithTargets(data, c, n, peaks[1..]);
      TargetInBoundsIff(data, c, n, peaks[0]);
      js := PickOneMore(TargetOf(data, c, n, peaks[0]), Pieces(data, c, n, peaks[1..]), js, Targets(data, c, n, peaks[1..]));
      assert Pieces(data, c, n, peaks) == [TargetOf(data, c, n, peaks[0])] + Pieces(data, c, n, peaks[1..]);
    }
  }

  lemma NothingPicked<T>()
    ensures Picks<T>([], [], [])
  {}

  lemma PicksTaken<T>(pieces: seq<seq<T>>, js: seq<nat>, all: seq<T>, limit: nat, j: nat)
    requires Picks(pieces, js, all) && j < |pieces| && j !in Take(js, limit)
    requires |js| <= limit || (limit > 0 && j < js[limit - 1])
    ensures pieces[j] == []
  {}

  /** What is reported of an azimuth: the targets of its peaks in order, until the limit is reached; only a peak
      without a target is left out, and those after the limit. The limit is at least one. */
  lemma {:induction false} ReportedPeaks(s: Settings, data: seq<real>) returns (js: seq<nat>)
    requires Usable(s) && SafeScan(s.bins, PeaksOf(s, data))
    ensures AllFit(|data|, s.bins, PeaksOf(s, data))
    ensures |js| == |TargetsOf(s, data)| <= if s.maxPeaks == 0 then 1 else s.maxPeaks
    ensures forall i, k :: 0 <= i < k < |js| ==> js[i] < js[k]
    ensures forall i :: 0 <= i < |js| ==>
              js[i] < |PeaksOf(s, data)| && TargetOf(data, s.configuration, s.bins, PeaksOf(s, data)[js[i]]) == [TargetsOf(s, data)[i]]
    ensures forall j :: 0 <= j < |PeaksOf(s, data)| && j !in js
                        && (|js| < (if s.maxPeaks == 0 then 1 else s.maxPeaks) || j < js[|js| - 1])
              ==> TargetOf(data, s.configuration, s.bins, PeaksOf(s, data)[j]) == []
  {
    hide Scan, Next, Targets, TargetOf, SafeScan, WindowFits, Pieces;
    SafeScanFits(data, s.threshold, s.bins, s.minBin, false);
    var peaks, limit := PeaksOf(s, data), Limit(s.maxPeaks);
    var all := PeaksWithTargets(data, s.configuration, s.bins, peaks);
    js := Take(all, limit);
    forall j | 0 <= j < |peaks| && j !in js && (|js| < limit || j < js[|js| - 1])
      ensures TargetOf(data, s.configuration, s.bins, peaks[j]) == []
    {
      PicksTaken(Pieces(data, s.configuration, s.bins, peaks), all, Targets(data, s.configuration, s.bins, peaks), limit, j);
    }
  }

  /** The peaks of an azimuth lie from the first bin to scan on, each at least a window before the end of the data;
      each is above the threshold and above its right neighbour, and further peaks are more than a window apart
      and no lower than their left neighbours. */
  lemma {:induction false} PeaksOfMean(s: Settings, data: seq<real>, i: nat)
    requires Usable(s) && i < |PeaksOf(s, data)|
    ensures var peaks := PeaksOf(s, data); var p := peaks[i];
            && s.minBin <= p && p + s.bins <= |data| && s.bins >= 5 && data[p] > s.threshold && data[p + 1] < data[p]
            && (p > s.minBin ==> data[p - 1] <= data[p])
            && (i > 0 ==> peaks[i - 1] + s.bins < p)
  {
    hide Scan, Next;
    ScanIsSound(data, s.threshold, s.bins, s.minBin, false, |data| - s.bins, i);
    if i > 0 {
      PeaksAreSeparated(data, s.threshold, s.bins, s.minBin, false, |data| - s.bins, i - 1);
    }
  }

  /** No bin is passed over: not before the first peak, and not from a window after a peak on. */
  lemma {:induction false} PeaksOfMissNone(s: Settings, data: seq<real>, m: int)
    requires Usable(s) && s.minBin <= m && m + s.bins <= |data| && data[m] > s.threshold && data[m + 1] < data[m]
    ensures var peaks := PeaksOf(s, data);
            && |peaks| > 0 && peaks[0] <= m
            && forall i :: 0 <= i < |peaks| && 0 <= peaks[i] && peaks[i] + s.bins < m && data[m - 1] <= data[m]
                 ==> i + 1 < |peaks| && peaks[i + 1] <= m
  {
    hide Scan, Next;
    var peaks := PeaksOf(s, data);
    FirstPeakIsFirst(data, s.threshold, s.bins, s.minBin, |data| - s.bins, m);
    forall i | 0 <= i < |peaks| && 0 <= peaks[i] && peaks[i] + s.bins < m && data[m - 1] <= data[m]
      ensures i + 1 < |peaks| && peaks[i + 1] <= m
    {
      NextPeakIsFirst(data, s.threshold, s.bins, s.minBin, false, |data| - s.bins, i, m);
    }
  }

  /** Every target shows the power of its peak, which is above the threshold, and its range is that of the vertex of
      the least-squares parabola there, if it has one, and then lies within bounds. */
  lemma {:induction false} ReportedTargetMeans(s: Settings, data: seq<real>, i: nat) returns (p: nat)
    requires Usable(s) && SafeScan(s.bins, PeaksOf(s, data)) && i < |TargetsOf(s, data)|
    ensures p in PeaksOf(s, data) && p + s.bins <= |data| && s.bins >= 5 && WindowFits(|data|, p, s.bins)
    ensures TargetsOf(s, data)[i].power == data[p] > s.threshold && data[p + 1] < data[p]
    ensures var c, q, range := s.configuration, OffsetFit(Window(data, p, s.bins)), TargetsOf(s, data)[i].range;
            if q.b2 != 0.0 then
              && range == Finite((p as real - q.b1 / (2.0 * q.b2)) * c.rangeGain * c.rangeResolution + c.rangeOffset)
              && s.bins as real * c.rangeResolution <= range.value <= c.rangeInBins as real * c.rangeResolution
            else range == NotANumber && (q.b1 == 0.0 || c.rangeGain == 0.0 || c.rangeResolution == 0.0)
  {
    hide PeaksOf, TargetsOf, TargetOf, SafeScan, OffsetFit, Window;
    var js := ReportedPeaks(s, data);
    p := PeaksOf(s, data)[js[i]];
    PeaksOfMean(s, data, js[i]);
    TargetOfMeans(data, s.configuration, s.bins, p, OffsetFit(Window(data, p, s.bins)));
    assert [TargetsOf(s, data)[i]][0] == TargetsOf(s, data)[i];
  }

  /** A report is made exactly when there are targets and somebody to report them to; it has the number, the angle and
      the time of the azimuth. */
  lemma ReportMeans(s: Settings, fft: FftData, data: seq<real>)
    requires Usable(s) && SafeScan(s.bins, PeaksOf(s, data))
    ensures var report := ReportOf(s, fft, data);
            && (report.Some? <==> |TargetsOf(s, data)| > 0 && s.callback)
            && (report.Some? ==>
                  && report.value.azimuth == fft.azimuth && report.value.angle == fft.angle
                  && report.value.ntpSeconds == fft.ntpSeconds && report.value.ntpSplitSeconds == fft.ntpSplitSeconds
                  && report.value.targets == TargetsOf(s, data))
  {
    hide TargetsOf;
  }

  /** What a frame does to the buffer, and what is then scanned. One of the wrong size does nothing. Without buffering
      each frame is scanned by itself. Otherwise the frame that fills the buffer empties it. */
  lemma FrameMeans(mode: BufferMode, bins: nat, bufferLength: nat, held: seq<seq<real>>, data: seq<real>,
                   power: real -> real, level: real -> real)
    requires Covers(held, bins)
    ensures var held', next := HeldAfter(mode, bins, bufferLength, held, data),
                               NextAzimuth(mode, bins, bufferLength, held, data, power, level);
            if |data| != bins then held' == held && next == None
            else if mode == Off then held' == held && next == Some(data)
            else if |held| + 1 < bufferLength then held' == held + [data] && next == None
            else if mode == Max then held' == [] && next == None
            else held' == [] && next == Some(MeanAzimuth(held + [data], bins, power, level))
  {
    hide MeanAzimuth;
  }

  /** An azimuth with a peak whose best fit is a level line. */
  const LEVEL: seq<real> := [110.0, 100.0, 120.0, 100.0, 110.0, 0.0, 0.0]

  lemma LevelFit()
    ensures OffsetFit(LEVEL[..5]) == Quadratic(108.0, 0.0, 0.0)
  {
    hide *;
    LevelSamples();
    var x, y := [-2.0, -1.0, 0.0, 1.0, 2.0], [110.0, 100.0, 120.0, 100.0, 110.0];
    LevelGathered(x, y);
    LevelEquations();
    OffsetFitIs(y, Quadratic(108.0, 0.0, 0.0));
  }

  lemma LevelSamples()
    ensures OffsetWindow(5) == [-2.0, -1.0, 0.0, 1.0, 2.0]
    ensures LEVEL[..5] == [110.0, 100.0, 120.0, 100.0, 110.0] && MIN_BINS_TO_OPERATE_ON == 5
  {}

  function LevelSum(): Moments {
    OneSample(-2.0, 110.0).Plus(OneSample(-1.0, 100.0)).Plus(OneSample(0.0, 120.0)).Plus(OneSample(1.0, 100.0)).Plus(OneSample(2.0, 110.0))
  }

  lemma {:induction false} LevelGathered(x: seq<real>, y: seq<real>)
    requires x == [-2.0, -1.0, 0.0, 1.0, 2.0] && y == [110.0, 100.0, 120.0, 100.0, 110.0]
    ensures Gather(x, y) == LevelSum()
  {
    hide Gather, OneSample, Moments.Plus;
    GatherFive(x, y);
  }

  lemma LevelEquations()
    ensures NormalEquations(LevelSum(), Quadratic(108.0, 0.0, 0.0))
  {
    hide OneSample;
    LevelSampleValues();
    assert LevelSum() == Moments(5.0, 0.0, 10.0, 0.0, 34.0, 540.0, 0.0, 1080.0);
  }

  lemma LevelSampleValues()
    ensures OneSample(-2.0, 110.0) == Moments(1.0, -2.0, 4.0, -8.0, 16.0, 110.0, -220.0, 440.0)
    ensures OneSample(-1.0, 100.0) == Moments(1.0, -1.0, 1.0, -1.0, 1.0, 100.0, -100.0, 100.0)
    ensures OneSample(0.0, 120.0) == Moments(1.0, 0.0, 0.0, 0.0, 0.0, 120.0, 0.0, 0.0)
    ensures OneSample(1.0, 100.0) == Moments(1.0, 1.0, 1.0, 1.0, 1.0, 100.0, 100.0, 100.0)
    ensures OneSample(2.0, 110.0) == Moments(1.0, 2.0, 4.0, 8.0, 16.0, 110.0, 220.0, 440.0)
  {}

  /** Such a peak is reported, and its range is not a number. */
  lemma LevelFitIsReported(s: Settings)
    requires Usable(s) && s.bins == 5 && s.minBin == 2 && s.threshold == 115.0
    ensures PeaksOf(s, LEVEL) == [2]
    ensures TargetsOf(s, LEVEL) == [Target(NotANumber, 120.0)]
  {
    LevelScan(s);
    LevelTarget(s.configuration);
    hide *;
    OnlyTarget(s, LEVEL, 2);
  }

  lemma LevelScan(s: Settings)
    requires Usable(s) && s.bins == 5 && s.minBin == 2 && s.threshold == 115.0
    ensures PeaksOf(s, LEVEL) == [2] && SafeScan(5, [2]) && WindowFits(7, 2, 5) && |LEVEL| == 7
  {
    assert Drops(LEVEL, 115.0, 2);
    NextIsFirst(LEVEL, 115.0, 2, false, 2, 2);
    assert Scan(LEVEL, 115.0, 5, 7, true, 2) == [];
  }

  lemma LevelTarget(c: Configuration)
    ensures WindowFits(7, 2, 5) && |LEVEL| == 7 && TargetOf(LEVEL, c, 5, 2) == [Target(NotANumber, 120.0)]
  {
    hide OffsetFit, Fit;
    assert Window(LEVEL, 2, 5) == LEVEL[..5];
    LevelFit();
    assert ResolvedBin(LEVEL, 2, 5) == NotANumber;
  }

  lemma OnlyTarget(s: Settings, data: seq<real>, p: int)
    requires Usable(s) && PeaksOf(s, data) == [p] && SafeScan(s.bins, [p]) && WindowFits(|data|, p, s.bins)
    requires MIN_BINS_TO_OPERATE_ON <= s.bins && |TargetOf(data, s.configuration, s.bins, p)| == 1
    ensures TargetsOf(s, data) == TargetOf(data, s.configuration, s.bins, p)
  {
    hide Scan, TargetOf, WindowFits;
    assert [p][1..] == [];
    assert Targets(data, s.configuration, s.bins, [p][1..]) == [];
  }
}
