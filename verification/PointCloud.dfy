/** The rotation accumulator of ros2/src/nav_ros/src/point_cloud_publisher.cpp: bins above a threshold
    are collected sweep by sweep and published as one cloud each time the azimuth wraps; every fourth
    wrap the settings are taken again from the node's parameters. */
module PointCloud {
  import opened Bytes
  import opened Sequences

  const CONFIG_PUBLISH_COUNT := 4

  datatype Sweep = Sweep(azimuth: u16, angle: real, data: seq<byte>)

  datatype Point = Point(azimuth: int, bin: nat, intensity: byte)

  datatype Settings = Settings(
    azimuthOffset: u16, startAzimuth: u16, endAzimuth: u16, startBin: u16, endBin: u16, powerThreshold: u16)

  /** The node's parameters, which anyone may set to any integer. */
  datatype Parameters = Parameters(
    azimuthOffset: int, startAzimuth: int, endAzimuth: int, startBin: int, endBin: int, powerThreshold: int)

  datatype Radar = Radar(azimuthSamples: u16, rangeInBins: u16)

  datatype State = State(
    radar: Radar, settings: Settings, parameters: Parameters, points: seq<Point>, lastAzimuth: int, rotationCount: nat)

  // ---------- Azimuths ----------

  /** The conversion of a floating point number to `int`. */
  function Truncate(x: real): int {
    if x >= 0.0 then x.Floor else -((-x).Floor)
  }

  function SampleQuotient(angle: real, samples: nat): real
    requires samples > 0
  {
    angle / (360.0 / samples as real)
  }

  /** Before the radar has been configured there are no samples and the quotient is infinite. */
  function AzimuthIndex(angle: real, samples: nat): int {
    if samples == 0 then 0 else Truncate(SampleQuotient(angle, samples))
  }

  function Shifted(index: int, offset: int, samples: int): int {
    if index + offset >= samples then index + offset - samples else index + offset
  }

  lemma MultiplyKeepsOrder(a: nat, b: nat, c: nat)
    requires a <= b
    ensures a * c <= b * c
  {}

  /** Named, so that proofs can treat a product as a number of its own. */
  function Product(a: real, b: real): real {
    a * b
  }

  lemma ProductIsPositive(m: real, e: real)
    requires m > 0.0 && e > 0.0
    ensures m * e > 0.0
  {}

  lemma ProductKeepsOrder(x: real, y: real, f: real)
    requires f > 0.0
    ensures x <= y <==> Product(x, f) <= Product(y, f)
  {
    var d := y - x;
    assert d * f == y * f - x * f;
    assert d > 0.0 ==> d * f > 0.0;
    assert d < 0.0 ==> d * f < 0.0;
  }

  lemma ProductDistributes(a: real, b: real, f: real)
    ensures Product(a + b, f) == Product(a, f) + Product(b, f) && Product(a - b, f) == Product(a, f) - Product(b, f)
  {}

  /** Dividing by a sample's share of the turn is counting turns of the angle times the samples. */
  lemma QuotientTurns(angle: real, samples: nat)
    requires samples > 0
    ensures SampleQuotient(angle, samples) * 360.0 == Product(angle, samples as real)
  {
    var m := samples as real;
    var q, d := SampleQuotient(angle, samples), 360.0 / m;
    assert d * m == 360.0;
    assert q * d == angle;
    assert q * (d * m) == (q * d) * m;
  }

  lemma ProductNotNegative(a: real, m: real)
    requires a >= 0.0 && m > 0.0
    ensures Product(a, m) >= 0.0
  {}

  /** The index says between which two samples the angle lies. */
  lemma IndexMeans(angle: real, samples: nat, k: int)
    requires angle >= 0.0 && samples > 0
    ensures AzimuthIndex(angle, samples) == k
            <==> k as real * 360.0 <= Product(angle, samples as real) < (k + 1) as real * 360.0
  {
    hide SampleQuotient, Product;
    QuotientTurns(angle, samples);
    ProductNotNegative(angle, samples as real);
  }

  /** Angles below zero are truncated towards zero too, and without samples the index is 0. */
  lemma IndexOfOpposite(angle: real, samples: nat)
    ensures AzimuthIndex(-angle, samples) == -AzimuthIndex(angle, samples) && AzimuthIndex(angle, 0) == 0
  {
    if samples > 0 {
      assert SampleQuotient(-angle, samples) == -SampleQuotient(angle, samples);
    }
    hide SampleQuotient;
  }

  /** Whatever the rounding of an angle, it gives one of the samples. */
  lemma IndexInRange(angle: real, samples: nat)
    requires 0.0 <= angle < 360.0 && samples > 0
    ensures 0 <= AzimuthIndex(angle, samples) < samples
  {
    hide AzimuthIndex, Product;
    var k := AzimuthIndex(angle, samples);
    IndexMeans(angle, samples, k);
    ProductKeepsOrder(360.0, angle, samples as real);
    ProductNotNegative(angle, samples as real);
    FullTurn(samples);
  }

  lemma FullTurn(samples: nat)
    ensures Product(360.0, samples as real) == 360.0 * samples as real
  {}

  /** The exact angle of an encoder azimuth; a client computes it from the azimuth, with rounding
      (cpp_17/network/radar_client.cpp). */
  function EncoderAngle(azimuth: nat, encoder: nat): real
    requires encoder > 0
  {
    azimuth as real * 360.0 / encoder as real
  }

  /** How many units there are in a turn of 360 degrees, so that every encoder azimuth and every sample
      starts at a whole number of units. */
  function Units(encoder: nat, samples: nat): (f: real)
    requires encoder > 0 && samples > 0
    ensures f > 0.0
  {
    ProductIsPositive(samples as real, encoder as real);
    samples as real * encoder as real
  }

  /** How far off an angle may be without reaching the next azimuth's share of a sample: one unit. */
  function Tolerance(encoder: nat, samples: nat): real
    requires encoder > 0 && samples > 0
  {
    360.0 / Units(encoder, samples)
  }

  lemma ToleranceIsOneUnit(encoder: nat, samples: nat)
    requires encoder > 0 && samples > 0
    ensures Product(Tolerance(encoder, samples), Units(encoder, samples)) == 360.0
  {
    hide Units;
  }

  lemma ExactUnits(azimuth: nat, encoder: nat, samples: nat, p: nat)
    requires encoder > 0 && samples > 0 && p == azimuth * samples
    ensures Product(EncoderAngle(azimuth, encoder), Units(encoder, samples)) == p as real * 360.0
  {
    var m, e, a, exact := samples as real, encoder as real, azimuth as real, EncoderAngle(azimuth, encoder);
    assert exact * e == a * 360.0;
    assert exact * (m * e) == (exact * e) * m;
    assert (a * 360.0) * m == (a * m) * 360.0;
    assert (azimuth * samples) as real == a * m;
  }

  lemma UnitsOfAngle(angle: real, encoder: nat, samples: nat)
    requires encoder > 0 && samples > 0
    ensures Product(angle, Units(encoder, samples)) == Product(Product(angle, samples as real), encoder as real)
  {}

  /** An angle in units, against the exact one of `p` units: a computed angle is less than one unit away. */
  lemma AngleUnits(angle: real, azimuth: nat, encoder: nat, samples: nat, p: nat) returns (units: real)
    requires encoder > 0 && samples > 0 && p == azimuth * samples
    ensures units * 360.0 == Product(Product(angle, samples as real), encoder as real)
    ensures angle >= EncoderAngle(azimuth, encoder) <==> units >= p as real
    ensures angle - EncoderAngle(azimuth, encoder) < Tolerance(encoder, samples) <==> units < (p + 1) as real
    ensures EncoderAngle(azimuth, encoder) - angle < Tolerance(encoder, samples) <==> units > p as real - 1.0
  {
    hide *;
    var f, exact, step := Units(encoder, samples), EncoderAngle(azimuth, encoder), Tolerance(encoder, samples);
    UnitsOfAngle(angle, encoder, samples);
    ExactUnits(azimuth, encoder, samples, p);
    ToleranceIsOneUnit(encoder, samples);
    ProductKeepsOrder(exact, angle, f);
    ProductKeepsOrder(exact + step, angle, f);
    ProductKeepsOrder(angle, exact - step, f);
    ProductDistributes(exact, step, f);
    units := Product(angle, f) / 360.0;
  }

  /** In those units a sample is `encoder` wide. */
  lemma IndexOfUnits(angle: real, encoder: nat, samples: nat, units: real, k: int, start: int)
    requires angle >= 0.0 && encoder > 0 && samples > 0 && start == k * encoder
    requires units * 360.0 == Product(Product(angle, samples as real), encoder as real)
    ensures AzimuthIndex(angle, samples) == k <==> start as real <= units < (start + encoder) as real
  {
    hide *;
    var t, low := Product(angle, samples as real), k as real * 360.0;
    IndexMeans(angle, samples, k);
    ProductKeepsOrder(low, t, encoder as real);
    ProductKeepsOrder(low + 360.0, t, encoder as real);
    ProductDistributes(low, 360.0, encoder as real);
    SampleStart(k, encoder, start);
    FullTurn(encoder);
  }

  lemma SampleStart(k: int, encoder: nat, start: int)
    requires start == k * encoder
    ensures Product(k as real * 360.0, encoder as real) == start as real * 360.0
  {
    assert (k * encoder) as real == k as real * encoder as real;
  }

  /** The index of a computed angle against the exact one, the azimuth scaled down to the samples:
      within the tolerance they differ by at most one, and they are the same exactly when the angle was
      not rounded down or the azimuth is not the first of its sample. */
  lemma RoundedIndexIff(angle: real, azimuth: nat, encoder: nat, samples: nat)
    requires angle >= 0.0 && encoder > 0 && samples > 0
    requires -Tolerance(encoder, samples) < angle - EncoderAngle(azimuth, encoder) < Tolerance(encoder, samples)
    ensures var index, exact := AzimuthIndex(angle, samples), azimuth * samples / encoder;
            && (index == exact <==> angle >= EncoderAngle(azimuth, encoder) || azimuth * samples % encoder != 0)
            && (index == exact || index == exact - 1)
  {
    hide AzimuthIndex, EncoderAngle, Tolerance;
    var p := azimuth * samples;
    var units := AngleUnits(angle, azimuth, encoder, samples, p);
    var k, r := p / encoder, p % encoder;
    assert p == k * encoder + r;
    IndexOfUnits(angle, encoder, samples, units, k, p - r);
    IndexOfUnits(angle, encoder, samples, units, k - 1, p - r - encoder);
  }

  /** With an encoder of 5600 and 400 samples, azimuth 14 is the first of sample 1. The `float` nearest
      to its angle, 0.9 degrees, is a little less, so it goes to sample 0. */
  lemma RoundedDownToThePreviousSample()
    ensures var angle := 15099494.0 / 16777216.0;
            && AzimuthIndex(angle, 400) == 0 && 14 * 400 / 5600 == 1 && angle < EncoderAngle(14, 5600)
            && EncoderAngle(14, 5600) - angle < Tolerance(5600, 400)
  {
    IndexMeans(15099494.0 / 16777216.0, 400, 0);
  }

  lemma OneTurn(x: nat, m: nat)
    requires x < m + m
    ensures m > 0 && x % m == if x < m then x else x - m
  {
    var q := x / m;
    assert x == q * m + x % m;
    if q >= 2 {
      MultiplyKeepsOrder(2, q, m);
      assert false;
    }
  }

  /** The shift is a rotation of the samples, so it neither merges nor loses any. */
  lemma ShiftRotates(i: int, j: int, offset: int, samples: int)
    requires 0 <= i < samples && 0 <= j < samples && 0 <= offset <= samples
    ensures Shifted(i, offset, samples) == (i + offset) % samples
    ensures Shifted(i, offset, samples) == Shifted(j, offset, samples) ==> i == j
  {
    OneTurn(i + offset, samples);
  }

  /** The shift keeps every sample among the samples exactly when the offset does not exceed their number. */
  lemma ShiftStaysInRangeIff(offset: u16, samples: nat)
    requires samples > 0
    ensures (forall i :: 0 <= i < samples ==> 0 <= Shifted(i, offset, samples) < samples) <==> offset <= samples
  {
    if offset > samples {
      assert Shifted(samples - 1, offset, samples) >= samples;
    }
  }

  // ---------- One sweep ----------

  predicate InWindow(settings: Settings, bin: int) {
    settings.startBin <= bin < settings.endBin
  }

  function PointsFrom(settings: Settings, azimuth: int, data: seq<byte>, bin: nat): seq<Point>
    decreases |data| - bin
  {
    if bin >= |data| then []
    else
      (if InWindow(settings, bin) && data[bin] > settings.powerThreshold then [Point(azimuth, bin, data[bin])] else [])
      + PointsFrom(settings, azimuth, data, bin + 1)
  }

  predicate AzimuthWanted(settings: Settings, radar: Radar, sweep: Sweep) {
    settings.startAzimuth <= AzimuthIndex(sweep.angle, radar.azimuthSamples) < settings.endAzimuth
  }

  /** The index of a sweep, adjusted to where the radar's own zero is to be shown. */
  function PlottedAzimuth(settings: Settings, radar: Radar, sweep: Sweep): int {
    Shifted(AzimuthIndex(sweep.angle, radar.azimuthSamples), settings.azimuthOffset, radar.azimuthSamples)
  }

  function Detections(settings: Settings, radar: Radar, sweep: Sweep): seq<Point> {
    if AzimuthWanted(settings, radar, sweep)
    then PointsFrom(settings, PlottedAzimuth(settings, radar, sweep), sweep.data, settings.startBin)
    else []
  }

  ghost predicate Ascending(points: seq<Point>) {
    forall i, j :: 0 <= i < j < |points| ==> points[i].bin < points[j].bin
  }

  predicate IsDetection(settings: Settings, radar: Radar, sweep: Sweep, p: Point) {
    && AzimuthWanted(settings, radar, sweep)
    && p.azimuth == PlottedAzimuth(settings, radar, sweep)
    && InWindow(settings, p.bin) && p.bin < |sweep.data|
    && p.intensity == sweep.data[p.bin] && p.intensity > settings.powerThreshold
  }

  lemma {:induction false} PointsFromMember(settings: Settings, azimuth: int, data: seq<byte>, bin: nat, p: Point)
    ensures p in PointsFrom(settings, azimuth, data, bin)
            <==> (bin <= p.bin < |data| && InWindow(settings, p.bin)
                  && data[p.bin] > settings.powerThreshold && p == Point(azimuth, p.bin, data[p.bin]))
    decreases |data| - bin
  {
    if bin < |data| {
      PointsFromMember(settings, azimuth, data, bin + 1, p);
    }
  }

  lemma {:induction false} PointsFromAscend(settings: Settings, azimuth: int, data: seq<byte>, bin: nat)
    ensures Ascending(PointsFrom(settings, azimuth, data, bin))
    decreases |data| - bin
  {
    if bin < |data| {
      PointsFromAscend(settings, azimuth, data, bin + 1);
      var rest := PointsFrom(settings, azimuth, data, bin + 1);
      forall i | 0 <= i < |rest| ensures rest[i].bin > bin {
        PointsFromMember(settings, azimuth, data, bin + 1, rest[i]);
      }
    }
  }

  /** A sweep contributes its bins above the threshold inside the windows, each once, nearest first. */
  lemma DetectionsAreExactly(settings: Settings, radar: Radar, sweep: Sweep)
    ensures Ascending(Detections(settings, radar, sweep))
    ensures forall p :: p in Detections(settings, radar, sweep) <==> IsDetection(settings, radar, sweep, p)
  {
    var azimuth := PlottedAzimuth(settings, radar, sweep);
    PointsFromAscend(settings, azimuth, sweep.data, settings.startBin);
    forall p ensures p in Detections(settings, radar, sweep) <==> IsDetection(settings, radar, sweep, p) {
      PointsFromMember(settings, azimuth, sweep.data, settings.startBin, p);
    }
  }

  lemma IndexIs(angle: real, samples: nat, k: int)
    requires 0.0 <= angle < 360.0 && samples > 0
    requires k as real * 360.0 <= angle * samples as real < (k + 1) as real * 360.0
    ensures AzimuthIndex(angle, samples) == k && 0 <= k < samples
  {
    hide AzimuthIndex;
    IndexMeans(angle, samples, k);
    IndexInRange(angle, samples);
  }

  lemma DetectionByIndex(settings: Settings, radar: Radar, sweep: Sweep, k: int, p: Point)
    requires k == AzimuthIndex(sweep.angle, radar.azimuthSamples)
    ensures p in Detections(settings, radar, sweep)
            <==> && settings.startAzimuth <= k < settings.endAzimuth
                 && settings.startBin <= p.bin < settings.endBin && p.bin < |sweep.data|
                 && p.intensity == sweep.data[p.bin] && p.intensity > settings.powerThreshold
                 && p.azimuth == if k + settings.azimuthOffset >= radar.azimuthSamples
                                 then k + settings.azimuthOffset - radar.azimuthSamples else k + settings.azimuthOffset
  {
    hide AzimuthIndex, Detections;
    DetectionsAreExactly(settings, radar, sweep);
  }

  lemma TurnedOn(k: int, offset: int, samples: int)
    requires 0 <= k < samples && 0 <= offset <= samples
    ensures (k + offset) % samples == if k + offset >= samples then k + offset - samples else k + offset
  {
    OneTurn(k + offset, samples);
  }

  /** In terms of the settings alone: with `k` the sample the angle lies in, a point is detected exactly if the sample,
      before it is adjusted, and the bin are inside their windows and the bin holds more than the threshold, and
      its azimuth is the sample turned on by the offset. */
  lemma DetectionMeans(settings: Settings, radar: Radar, sweep: Sweep, k: int, p: Point)
    requires 0.0 <= sweep.angle < 360.0 && radar.azimuthSamples > 0
    requires k as real * 360.0 <= sweep.angle * radar.azimuthSamples as real < (k + 1) as real * 360.0
    ensures 0 <= k < radar.azimuthSamples
    ensures p in Detections(settings, radar, sweep)
            <==> && settings.startAzimuth <= k < settings.endAzimuth
                 && settings.startBin <= p.bin < settings.endBin && p.bin < |sweep.data|
                 && p.intensity == sweep.data[p.bin] && p.intensity > settings.powerThreshold
                 && p.azimuth == if k + settings.azimuthOffset >= radar.azimuthSamples
                                 then k + settings.azimuthOffset - radar.azimuthSamples else k + settings.azimuthOffset
    ensures settings.azimuthOffset <= radar.azimuthSamples && p in Detections(settings, radar, sweep)
            ==> p.azimuth == (k + settings.azimuthOffset) % radar.azimuthSamples
  {
    hide *;
    IndexIs(sweep.angle, radar.azimuthSamples, k);
    DetectionByIndex(settings, radar, sweep, k, p);
    if settings.azimuthOffset <= radar.azimuthSamples {
      TurnedOn(k, settings.azimuthOffset, radar.azimuthSamples);
    }
  }

  // ---------- Taking the parameters ----------

  /** Assigning an `int` to a 16-bit field. */
  function Narrow(x: int): u16 {
    x % 0x1_0000
  }

  /** Assigning a parameter, which has 64 bits, to an `int`, which keeps 32 of them. */
  function ToInt(x: int): int {
    (x + 0x8000_0000) % 0x1_0000_0000 - 0x8000_0000
  }

  /** Each parameter that is in its range as an `int` takes effect; for the azimuth offset only the upper
      limit counts. */
  function Taken(radar: Radar, s: Settings, p: Parameters): Settings {
    var m, n := radar.azimuthSamples, radar.rangeInBins;
    Settings(
      if ToInt(p.azimuthOffset) > m then s.azimuthOffset else Narrow(ToInt(p.azimuthOffset)),
      if 0 <= ToInt(p.startAzimuth) <= m then ToInt(p.startAzimuth) else s.startAzimuth,
      if 0 <= ToInt(p.endAzimuth) <= m then ToInt(p.endAzimuth) else s.endAzimuth,
      if 0 <= ToInt(p.startBin) <= n then ToInt(p.startBin) else s.startBin,
      if 0 <= ToInt(p.endBin) <= n then ToInt(p.endBin) else s.endBin,
      if 0 <= ToInt(p.powerThreshold) <= 255 then ToInt(p.powerThreshold) else s.powerThreshold)
  }

  /** Each parameter that is not in its range is put back into it. */
  function PutBack(radar: Radar, s: Settings, p: Parameters): Parameters {
    var m, n := radar.azimuthSamples, radar.rangeInBins;
    Parameters(
      if ToInt(p.azimuthOffset) > m then m else p.azimuthOffset,
      if 0 <= ToInt(p.startAzimuth) <= m then p.startAzimuth else 0,
      if 0 <= ToInt(p.endAzimuth) <= m then p.endAzimuth else m,
      if 0 <= ToInt(p.startBin) <= n then p.startBin else 0,
      if 0 <= ToInt(p.endBin) <= n then p.endBin else n,
      if 0 <= ToInt(p.powerThreshold) <= 255 then p.powerThreshold else s.powerThreshold)
  }

  function Refreshed(s: State): State {
    s.(settings := Taken(s.radar, s.settings, s.parameters), parameters := PutBack(s.radar, s.settings, s.parameters))
  }

  function Refreshes(s: State, k: nat): State {
    if k == 0 then s else Refreshed(Refreshes(s, k - 1))
  }

  /** A parameter out of range is put back into range by one refresh and takes effect with the next;
      after that nothing changes any more. */
  lemma {:induction false} TwoRefreshesSettle(s: State, k: nat)
    requires k >= 2
    ensures Refreshes(s, k) == Refreshes(s, 2)
  {
    hide Refreshed, Refreshes;
    if k > 2 {
      TwoRefreshesSettle(s, k - 1);
      OneMoreRefresh(s, k - 1);
      FirstRefreshes(s);
      ThirdRefreshIsIdle(s);
    }
  }

  lemma OneMoreRefresh(s: State, k: nat)
    ensures Refreshes(s, 0) == s && Refreshes(s, k + 1) == Refreshed(Refreshes(s, k))
  {
    hide Refreshed;
  }

  lemma {:induction false} FirstRefreshes(s: State)
    ensures Refreshes(s, 1) == Refreshed(s) && Refreshes(s, 2) == Refreshed(Refreshed(s))
  {
    hide Refreshed, Refreshes;
    OneMoreRefresh(s, 0);
    OneMoreRefresh(s, 1);
  }

  lemma ThirdRefreshIsIdle(s: State)
    ensures Refreshed(Refreshed(Refreshed(s))) == Refreshed(Refreshed(s))
  {
    hide ToInt, Narrow;
    ToIntOfSmall(0);
    ToIntOfSmall(s.radar.azimuthSamples);
    ToIntOfSmall(s.radar.rangeInBins);
    ToIntOfSmall(s.settings.powerThreshold);
  }

  lemma ToIntOfSmall(x: int)
    ensures -0x8000_0000 <= x < 0x8000_0000 ==> ToInt(x) == x
    ensures -0x8000_0000 <= ToInt(x) < 0x8000_0000
  {}

  /** Once settled, the shift stays among the samples exactly when the offset parameter was not a number
      that is negative as an `int` and wraps around to more than the number of samples: nothing rejects
      those. */
  lemma {:induction false} OffsetUsableIff(s: State)
    ensures var p := ToInt(s.parameters.azimuthOffset);
            Refreshes(s, 2).settings.azimuthOffset <= s.radar.azimuthSamples
            <==> (p >= 0 || Narrow(p) <= s.radar.azimuthSamples)
  {
    hide ToInt;
    ToIntOfSmall(s.radar.azimuthSamples);
    FirstRefreshes(s);
  }

  /** Numbers that look harmless, or that look out of range. */
  lemma OffsetsThatWrap()
    ensures ToInt(-1) == -1 && Narrow(ToInt(-1)) == 65535
    ensures ToInt(4294967295) == -1 && ToInt(4294967296) == 0
  {}

  predicate SameIn32Bits(x: int, v: int) {
    -0x8000_0000 <= v < 0x8000_0000 && (x - v) % 0x1_0000_0000 == 0
  }

  lemma ToIntIs(x: int, v: int)
    requires -0x8000_0000 <= v < 0x8000_0000 && (x - v) % 0x1_0000_0000 == 0
    ensures ToInt(x) == v
  {}

  lemma NarrowIs(x: int)
    ensures (x - Narrow(x)) % 0x1_0000 == 0
  {}

  /** What a refresh does with each parameter, by its value `v` in 32 bits. */
  lemma RefreshMeans(s: State, v: Parameters)
    requires SameIn32Bits(s.parameters.azimuthOffset, v.azimuthOffset)
    requires SameIn32Bits(s.parameters.startAzimuth, v.startAzimuth) && SameIn32Bits(s.parameters.endAzimuth, v.endAzimuth)
    requires SameIn32Bits(s.parameters.startBin, v.startBin) && SameIn32Bits(s.parameters.endBin, v.endBin)
    requires SameIn32Bits(s.parameters.powerThreshold, v.powerThreshold)
    ensures var was, now, p, q := s.settings, Refreshed(s).settings, s.parameters, Refreshed(s).parameters;
            && (if v.azimuthOffset > s.radar.azimuthSamples
                then now.azimuthOffset == was.azimuthOffset && q.azimuthOffset == s.radar.azimuthSamples
                else (v.azimuthOffset - now.azimuthOffset) % 0x1_0000 == 0 && q.azimuthOffset == p.azimuthOffset)
            && (if 0 <= v.startAzimuth <= s.radar.azimuthSamples
                then now.startAzimuth == v.startAzimuth && q.startAzimuth == p.startAzimuth
                else now.startAzimuth == was.startAzimuth && q.startAzimuth == 0)
            && (if 0 <= v.endAzimuth <= s.radar.azimuthSamples
                then now.endAzimuth == v.endAzimuth && q.endAzimuth == p.endAzimuth
                else now.endAzimuth == was.endAzimuth && q.endAzimuth == s.radar.azimuthSamples)
            && (if 0 <= v.startBin <= s.radar.rangeInBins
                then now.startBin == v.startBin && q.startBin == p.startBin
                else now.startBin == was.startBin && q.startBin == 0)
            && (if 0 <= v.endBin <= s.radar.rangeInBins
                then now.endBin == v.endBin && q.endBin == p.endBin
                else now.endBin == was.endBin && q.endBin == s.radar.rangeInBins)
            && (if 0 <= v.powerThreshold <= 255
                then now.powerThreshold == v.powerThreshold && q.powerThreshold == p.powerThreshold
                else now.powerThreshold == was.powerThreshold && q.powerThreshold == was.powerThreshold)
    ensures Refreshed(s) == s.(settings := Refreshed(s).settings, parameters := Refreshed(s).parameters)
  {
    hide ToInt, Narrow;
    ToIntIs(s.parameters.azimuthOffset, v.azimuthOffset);
    ToIntIs(s.parameters.startAzimuth, v.startAzimuth);
    ToIntIs(s.parameters.endAzimuth, v.endAzimuth);
    ToIntIs(s.parameters.startBin, v.startBin);
    ToIntIs(s.parameters.endBin, v.endBin);
    ToIntIs(s.parameters.powerThreshold, v.powerThreshold);
    NarrowIs(v.azimuthOffset);
  }

  // ---------- Runs ----------

  datatype Event =
    | SweepArrived(sweep: Sweep)
    | RadarConfigured(radar: Radar)
    | ParametersSet(parameters: Parameters)

  datatype Outcome = Outcome(state: State, clouds: seq<seq<Point>>, configurations: nat)

  function AfterSweep(s: State, sweep: Sweep): Outcome {
    var points := s.points + Detections(s.settings, s.radar, sweep);
    var wraps := sweep.azimuth < s.lastAzimuth;
    var next := s.(points := if wraps then [] else points, lastAzimuth := sweep.azimuth,
                   rotationCount := if wraps then s.rotationCount + 1 else s.rotationCount);
    var clouds := if wraps then [points] else [];
    if next.rotationCount >= CONFIG_PUBLISH_COUNT then Outcome(Refreshed(next).(rotationCount := 0), clouds, 1)
    else Outcome(next, clouds, 0)
  }

  function Apply(s: State, e: Event): Outcome {
    match e
    case SweepArrived(sweep) => AfterSweep(s, sweep)
    case RadarConfigured(radar) => Outcome(s.(radar := radar, settings := s.settings.(endBin := radar.rangeInBins)), [], 1)
    case ParametersSet(parameters) => Outcome(s.(parameters := parameters), [], 0)
  }

  function Run(s: State, events: seq<Event>): Outcome
    decreases |events|
  {
    if events == [] then Outcome(s, [], 0)
    else
      var first := Apply(s, events[0]);
      var rest := Run(first.state, events[1..]);
      Outcome(rest.state, first.clouds + rest.clouds, first.configurations + rest.configurations)
  }

  /** The detections of every sweep, each under the settings in force when it arrives. */
  function Detected(s: State, events: seq<Event>): seq<Point>
    decreases |events|
  {
    if events == [] then []
    else
      (if events[0].SweepArrived? then Detections(s.settings, s.radar, events[0].sweep) else [])
      + Detected(Apply(s, events[0]).state, events[1..])
  }

  lemma ApplyConserves(s: State, e: Event)
    ensures Concat(Apply(s, e).clouds) + Apply(s, e).state.points
            == s.points + (if e.SweepArrived? then Detections(s.settings, s.radar, e.sweep) else [])
  {
    hide Detections, Refreshes;
    if e.SweepArrived? {
      var points := s.points + Detections(s.settings, s.radar, e.sweep);
      assert Concat([points]) == points + Concat([]);
    }
  }

  /** One sweep: when the azimuth goes back, everything collected is published, this sweep's detections included, and
      the fourth time the settings are refreshed besides. */
  lemma AfterSweepMeans(s: State, sweep: Sweep)
    ensures var a, found, wraps := AfterSweep(s, sweep), Detections(s.settings, s.radar, sweep), sweep.azimuth < s.lastAzimuth;
            && a.clouds == (if wraps then [s.points + found] else [])
            && a.state.points == (if wraps then [] else s.points + found)
            && a.state.lastAzimuth == sweep.azimuth && a.state.radar == s.radar
            && if s.rotationCount + (if wraps then 1 else 0) < 4 then
                 && a.state.rotationCount == s.rotationCount + (if wraps then 1 else 0) && a.configurations == 0
                 && a.state.settings == s.settings && a.state.parameters == s.parameters
               else
                 && a.state.rotationCount == 0 && a.configurations == 1
                 && a.state.settings == Refreshed(s).settings && a.state.parameters == Refreshed(s).parameters
  {
    hide Detections, Taken, PutBack;
  }

  /** After a sweep a point is published or buffered exactly if it was buffered before or the sweep has it. */
  lemma SweepAdds(s: State, sweep: Sweep, k: int, p: Point)
    requires 0.0 <= sweep.angle < 360.0 && 0 < s.radar.azimuthSamples && s.settings.azimuthOffset <= s.radar.azimuthSamples
    requires k as real * 360.0 <= sweep.angle * s.radar.azimuthSamples as real < (k + 1) as real * 360.0
    ensures var a := AfterSweep(s, sweep);
            p in a.state.points || (exists i :: 0 <= i < |a.clouds| && p in a.clouds[i])
            <==> p in s.points
                 || (&& s.settings.startAzimuth <= k < s.settings.endAzimuth
                     && s.settings.startBin <= p.bin < s.settings.endBin && p.bin < |sweep.data|
                     && p.intensity == sweep.data[p.bin] && p.intensity > s.settings.powerThreshold
                     && p.azimuth == (k + s.settings.azimuthOffset) % s.radar.azimuthSamples)
  {
    hide *;
    SweepMembers(s, sweep, p);
    IndexIs(sweep.angle, s.radar.azimuthSamples, k);
    DetectionByIndex(s.settings, s.radar, sweep, k, p);
    TurnedOn(k, s.settings.azimuthOffset, s.radar.azimuthSamples);
  }

  lemma SweepMembers(s: State, sweep: Sweep, p: Point)
    ensures var a := AfterSweep(s, sweep);
            p in a.state.points || (exists i :: 0 <= i < |a.clouds| && p in a.clouds[i])
            <==> p in s.points || p in Detections(s.settings, s.radar, sweep)
  {
    hide Detections, AfterSweep;
    AfterSweepMeans(s, sweep);
    var a, found := AfterSweep(s, sweep), Detections(s.settings, s.radar, sweep);
    if sweep.azimuth < s.lastAzimuth {
      assert a.clouds[0] == s.points + found;
    }
    assert p in s.points + found <==> p in s.points || p in found;
  }

  /** Whatever happens in a run, including reconfiguration and changes of parameters, every detection
      is in exactly one published cloud or still buffered, in the order of detection. */
  lemma {:induction false} DetectionsAreConserved(s: State, events: seq<Event>)
    ensures Concat(Run(s, events).clouds) + Run(s, events).state.points == s.points + Detected(s, events)
    decreases |events|
  {
    hide Apply;
    if events != [] {
      var a := Apply(s, events[0]);
      var rest := Run(a.state, events[1..]);
      ApplyConserves(s, events[0]);
      DetectionsAreConserved(a.state, events[1..]);
      ConcatAppend(a.clouds, rest.clouds);
      var now := if events[0].SweepArrived? then Detections(s.settings, s.radar, events[0].sweep) else [];
      Associate(Concat(a.clouds), Concat(rest.clouds), rest.state.points);
      Associate(Concat(a.clouds), a.state.points, Detected(a.state, events[1..]));
      Associate(s.points, now, Detected(a.state, events[1..]));
    }
  }

  // ---------- Runs of sweeps alone ----------

  function Arrivals(sweeps: seq<Sweep>): (events: seq<Event>)
    ensures |events| == |sweeps| && forall i :: 0 <= i < |events| ==> events[i] == SweepArrived(sweeps[i])
  {
    seq(|sweeps|, i requires 0 <= i < |sweeps| => SweepArrived(sweeps[i]))
  }

  function Wraps(last: int, sweeps: seq<Sweep>): nat
    decreases |sweeps|
  {
    if sweeps == [] then 0
    else (if sweeps[0].azimuth < last then 1 else 0) + Wraps(sweeps[0].azimuth, sweeps[1..])
  }

  function AllDetections(settings: Settings, radar: Radar, sweeps: seq<Sweep>): seq<Point> {
    if sweeps == [] then [] else Detections(settings, radar, sweeps[0]) + AllDetections(settings, radar, sweeps[1..])
  }

  lemma ArrivalsTail(sweeps: seq<Sweep>)
    requires sweeps != []
    ensures Arrivals(sweeps)[0] == SweepArrived(sweeps[0]) && Arrivals(sweeps)[1..] == Arrivals(sweeps[1..])
  {}

  lemma RefreshedPart(s: State)
    ensures Refreshed(s).radar == s.radar && Refreshed(s).points == s.points
    ensures Refreshed(s).lastAzimuth == s.lastAzimuth && Refreshed(s).rotationCount == s.rotationCount
  {}

  lemma SweepCounts(s: State, sweep: Sweep)
    requires s.rotationCount < 4
    ensures var a := AfterSweep(s, sweep); var w := if sweep.azimuth < s.lastAzimuth then 1 else 0;
            && |a.clouds| == w
            && a.state.rotationCount == (s.rotationCount + w) % 4
            && a.configurations == (s.rotationCount + w) / 4
            && a.state.radar == s.radar && a.state.lastAzimuth == sweep.azimuth
  {
    hide Detections, Taken, PutBack;
  }

  lemma {:induction false} NoSweeps(s: State)
    requires s.rotationCount < 4
    ensures Run(s, Arrivals([])) == Outcome(s, [], 0) && Wraps(s.lastAzimuth, []) == 0
    ensures s.rotationCount % 4 == s.rotationCount && s.rotationCount / 4 == 0
  {
    assert Arrivals([]) == [];
  }

  lemma {:induction false} OneWrap(last: int, sweep: Sweep)
    ensures Wraps(last, [sweep]) == if sweep.azimuth < last then 1 else 0
  {
    assert [sweep][1..] == [];
  }

  lemma CountOn(a: nat, b: nat)
    ensures (a % 4 + b) % 4 == (a + b) % 4
    ensures a / 4 + (a % 4 + b) / 4 == (a + b) / 4
  {}

  /** One cloud for every wrap, and one refresh for every fourth. */
  lemma {:induction false} CloudsCountWraps(s: State, sweeps: seq<Sweep>)
    requires s.rotationCount < 4
    ensures var r := Run(s, Arrivals(sweeps)); var w := Wraps(s.lastAzimuth, sweeps);
            && |r.clouds| == w
            && r.state.rotationCount == (s.rotationCount + w) % 4
            && r.configurations == (s.rotationCount + w) / 4
            && r.state.radar == s.radar
    decreases |sweeps|
  {
    hide AfterSweep;
    if sweeps == [] {
      NoSweeps(s);
    } else {
      ArrivalsTail(sweeps);
      SweepCounts(s, sweeps[0]);
      CloudsCountWraps(AfterSweep(s, sweeps[0]).state, sweeps[1..]);
      CountOn(s.rotationCount + Wraps(s.lastAzimuth, sweeps[..1]), Wraps(sweeps[0].azimuth, sweeps[1..]));
      OneWrap(s.lastAzimuth, sweeps[0]);
      assert sweeps[..1] == [sweeps[0]];
    }
  }

  lemma {:induction false} RefreshesPart(s: State, t: State, k: nat)
    requires t.radar == s.radar && t.settings == s.settings && t.parameters == s.parameters
    ensures Refreshes(t, k).settings == Refreshes(s, k).settings && Refreshes(t, k).parameters == Refreshes(s, k).parameters
    ensures Refreshes(t, k).radar == t.radar == Refreshes(s, k).radar
  {
    hide Taken, PutBack;
    if k > 0 {
      RefreshesPart(s, t, k - 1);
    }
  }

  lemma {:induction false} RefreshesFromRefreshed(s: State, k: nat)
    ensures Refreshes(Refreshed(s), k) == Refreshes(s, k + 1)
  {
    if k > 0 {
      RefreshesFromRefreshed(s, k - 1);
    }
  }

  /** The settings after a run are those of as many refreshes as there were groups of four wraps. */
  lemma {:induction false} RunRefreshes(s: State, sweeps: seq<Sweep>)
    requires s.rotationCount < 4
    ensures var r := Run(s, Arrivals(sweeps)).state;
            var t := Refreshes(s, (s.rotationCount + Wraps(s.lastAzimuth, sweeps)) / 4);
            r.settings == t.settings && r.parameters == t.parameters
    decreases |sweeps|
  {
    hide Detections, Refreshed, AfterSweep;
    if sweeps != [] {
      ArrivalsTail(sweeps);
      AfterSweepMeans(s, sweeps[0]);
      var next := AfterSweep(s, sweeps[0]).state;
      RunRefreshes(next, sweeps[1..]);
      var k := (next.rotationCount + Wraps(next.lastAzimuth, sweeps[1..])) / 4;
      if sweeps[0].azimuth < s.lastAzimuth && s.rotationCount + 1 == 4 {
        RefreshedPart(s);
        RefreshesFromRefreshed(s, k);
        RefreshesPart(Refreshed(s), next, k);
      } else {
        RefreshesPart(s, next, k);
      }
    }
  }

  /** Eight rotations after the last outside change the settings are final, whatever the parameters were. */
  lemma {:induction false} EightRotationsSettle(s: State, sweeps: seq<Sweep>)
    requires s.rotationCount < 4 && Wraps(s.lastAzimuth, sweeps) >= 8
    ensures Run(s, Arrivals(sweeps)).state.settings == Refreshes(s, 2).settings
    ensures Run(s, Arrivals(sweeps)).state.parameters == Refreshes(s, 2).parameters
  {
    hide Run, Refreshes, Wraps;
    RunRefreshes(s, sweeps);
    TwoRefreshesSettle(s, (s.rotationCount + Wraps(s.lastAzimuth, sweeps)) / 4);
  }

  predicate Settled(s: State) {
    Refreshed(s) == s
  }

  lemma SettledStays(s: State, sweep: Sweep)
    requires Settled(s)
    ensures var t := AfterSweep(s, sweep).state; Settled(t) && t.settings == s.settings && t.radar == s.radar
  {
    hide Detections;
  }

  /** With settings that no longer change, what is detected depends on the sweeps alone. */
  lemma {:induction false} SettledDetections(s: State, sweeps: seq<Sweep>)
    requires Settled(s)
    ensures Detected(s, Arrivals(sweeps)) == AllDetections(s.settings, s.radar, sweeps)
    decreases |sweeps|
  {
    hide Detections, AfterSweep, Settled;
    if sweeps != [] {
      ArrivalsTail(sweeps);
      SettledStays(s, sweeps[0]);
      SettledDetections(AfterSweep(s, sweeps[0]).state, sweeps[1..]);
    }
  }

  /** Over any run of sweeps with settled settings the clouds and what is buffered hold the filtered
      detections of the sweeps, in order. */
  lemma {:induction false} SettledRunsConserve(s: State, sweeps: seq<Sweep>)
    requires Settled(s)
    ensures Concat(Run(s, Arrivals(sweeps)).clouds) + Run(s, Arrivals(sweeps)).state.points
            == s.points + AllDetections(s.settings, s.radar, sweeps)
  {
    DetectionsAreConserved(s, Arrivals(sweeps));
    SettledDetections(s, sweeps);
  }

  /** A cloud ends with the sweep that wraps, although that sweep is the first of the next rotation. */
  lemma {:induction false} CloudEndsWithTheWrap(s: State, sweeps: seq<Sweep>)
    requires Settled(s) && s.rotationCount < 4
    requires sweeps != [] && Wraps(s.lastAzimuth, sweeps[..|sweeps| - 1]) == 0 && Wraps(s.lastAzimuth, sweeps) == 1
    ensures Run(s, Arrivals(sweeps)).clouds == [s.points + AllDetections(s.settings, s.radar, sweeps)]
    ensures Run(s, Arrivals(sweeps)).state.points == []
  {
    hide Settled, AfterSweep, Detections, Refreshed;
    CloudsCountWraps(s, sweeps);
    SettledRunsConserve(s, sweeps);
    LastWrapEmpties(s, sweeps);
    var r := Run(s, Arrivals(sweeps));
    assert r.clouds[1..] == [] && Concat(r.clouds) == r.clouds[0] + [];
    assert r.clouds[0] + [] + [] == r.clouds[0];
    assert r.clouds == [r.clouds[0]];
  }

  lemma {:induction false} LastWrapEmpties(s: State, sweeps: seq<Sweep>)
    requires sweeps != [] && Wraps(s.lastAzimuth, sweeps[..|sweeps| - 1]) < Wraps(s.lastAzimuth, sweeps)
    ensures Run(s, Arrivals(sweeps)).state.points == []
    decreases |sweeps|
  {
    hide Detections;
    ArrivalsTail(sweeps);
    var next := AfterSweep(s, sweeps[0]).state;
    if |sweeps| == 1 {
      assert Arrivals(sweeps)[1..] == [] && sweeps[1..] == [];
    } else {
      assert sweeps[..|sweeps| - 1][1..] == sweeps[1..][..|sweeps[1..]| - 1];
      assert sweeps[..|sweeps| - 1][0] == sweeps[0];
      LastWrapEmpties(next, sweeps[1..]);
    }
  }

  // ---------- The node ----------

  function Points(azimuths: seq<int>, bins: seq<nat>, intensities: seq<byte>): (points: seq<Point>)
    requires |azimuths| == |bins| == |intensities|
    ensures |points| == |intensities|
  {
    seq(|intensities|, i requires 0 <= i < |intensities| => Point(azimuths[i], bins[i], intensities[i]))
  }

  lemma PointsPush(azimuths: seq<int>, bins: seq<nat>, intensities: seq<byte>, p: Point)
    requires |azimuths| == |bins| == |intensities|
    ensures Points(azimuths + [p.azimuth], bins + [p.bin], intensities + [p.intensity])
            == Points(azimuths, bins, intensities) + [p]
  {}

  lemma PointsFromStep(settings: Settings, azimuth: int, data: seq<byte>, bin: nat, before: seq<Point>)
    requires bin < |data|
    ensures var rest := PointsFrom(settings, azimuth, data, bin + 1);
            before + PointsFrom(settings, azimuth, data, bin)
            == if InWindow(settings, bin) && data[bin] > settings.powerThreshold
               then before + [Point(azimuth, bin, data[bin])] + rest else before + rest
  {
    Associate(before, [Point(azimuth, bin, data[bin])], PointsFrom(settings, azimuth, data, bin + 1));
  }

  lemma {:induction false} NothingPastTheEnd(settings: Settings, azimuth: int, data: seq<byte>, bin: nat)
    requires bin >= |data|
    ensures PointsFrom(settings, azimuth, data, bin) == []
  {}

  class Publisher {
    var radar: Radar
    var settings: Settings
    var parameters: Parameters
    var azimuthValues: seq<int>
    var binValues: seq<nat>
    var intensityValues: seq<byte>
    var lastAzimuth: int
    var rotatedOnce: bool
    var rotationCount: nat

    /** The three buffers stay equally long, so publishing stays within all of them. */
    ghost predicate Valid()
      reads this
    {
      |azimuthValues| == |binValues| == |intensityValues|
    }

    ghost function View(): State
      requires Valid()
      reads this
    {
      State(radar, settings, parameters, Points(azimuthValues, binValues, intensityValues), lastAzimuth, rotationCount)
    }

    constructor (initial: Parameters)
      ensures Valid() && parameters == initial && !rotatedOnce
      ensures View() == State(Radar(0, 0),
                              Settings(Narrow(initial.azimuthOffset), Narrow(initial.startAzimuth), Narrow(initial.endAzimuth),
                                       Narrow(initial.startBin), Narrow(initial.endBin), Narrow(initial.powerThreshold)),
                              initial, [], 0, 0)
    {
      radar := Radar(0, 0);
      parameters := initial;
      settings := Settings(Narrow(initial.azimuthOffset), Narrow(initial.startAzimuth), Narrow(initial.endAzimuth),
                           Narrow(initial.startBin), Narrow(initial.endBin), Narrow(initial.powerThreshold));
      azimuthValues, binValues, intensityValues := [], [], [];
      lastAzimuth, rotatedOnce, rotationCount := 0, false, 0;
    }

    method ConfigurationDataHandler(configured: Radar)
      requires Valid()
      modifies `radar, `settings
      ensures Valid() && View() == Apply(old(View()), RadarConfigured(configured)).state
      ensures radar == configured && settings == old(settings).(endBin := configured.rangeInBins)
    {
      radar := configured;
      settings := settings.(endBin := configured.rangeInBins);
    }

    /** Walks the three buffers side by side. */
    method PublishPointCloud() returns (cloud: seq<Point>)
      requires Valid()
      ensures cloud == View().points
    {
      cloud := [];
      var i := 0;
      while i < |intensityValues|
        invariant 0 <= i <= |intensityValues|
        invariant cloud == View().points[..i]
      {
        cloud := cloud + [Point(azimuthValues[i], binValues[i], intensityValues[i])];
        i := i + 1;
      }
    }

    method Collect(sweep: Sweep)
      requires Valid()
      modifies `azimuthValues, `binValues, `intensityValues
      ensures Valid() && View() == old(View()).(points := old(View()).points + Detections(settings, radar, sweep))
    {
      hide AzimuthIndex, PointsFrom, Points;
      var azimuthIndex := AzimuthIndex(sweep.angle, radar.azimuthSamples);
      var adjusted := azimuthIndex + settings.azimuthOffset;
      if adjusted >= radar.azimuthSamples {
        adjusted := adjusted - radar.azimuthSamples;
      }
      if settings.startAzimuth <= azimuthIndex && azimuthIndex < settings.endAzimuth {
        CollectBins(sweep.data, adjusted);
      }
      assert View().points == old(View()).points + Detections(settings, radar, sweep);
    }

    method CollectBins(data: seq<byte>, adjusted: int)
      requires Valid()
      modifies `azimuthValues, `binValues, `intensityValues
      ensures Valid()
      ensures View().points == old(View()).points + PointsFrom(settings, adjusted, data, settings.startBin)
    {
      hide PointsFrom, Points;
      ghost var total := View().points + PointsFrom(settings, adjusted, data, settings.startBin);
      var bin := settings.startBin as nat;
      while bin < |data|
        invariant Valid()
        invariant View().points + PointsFrom(settings, adjusted, data, bin) == total
        decreases |data| - bin
      {
        PointsFromStep(settings, adjusted, data, bin, View().points);
        if bin >= settings.startBin && bin < settings.endBin {
          if data[bin] > settings.powerThreshold {
            PointsPush(azimuthValues, binValues, intensityValues, Point(adjusted, bin, data[bin]));
            azimuthValues := azimuthValues + [adjusted];
            binValues := binValues + [bin];
            intensityValues := intensityValues + [data[bin]];
          }
        }
        bin := bin + 1;
      }
      NothingPastTheEnd(settings, adjusted, data, bin);
      assert View().points + [] == View().points;
    }

    method RefreshAzimuths()
      modifies `settings, `parameters
      ensures var taken, back := Taken(radar, old(settings), old(parameters)), PutBack(radar, old(settings), old(parameters));
              && settings == old(settings).(azimuthOffset := taken.azimuthOffset, startAzimuth := taken.startAzimuth,
                                            endAzimuth := taken.endAzimuth)
              && parameters == old(parameters).(azimuthOffset := back.azimuthOffset, startAzimuth := back.startAzimuth,
                                                endAzimuth := back.endAzimuth)
    {
      hide Narrow, ToInt;
      var p, m := parameters, radar.azimuthSamples;
      var azimuthOffset := ToInt(p.azimuthOffset);
      if azimuthOffset > m {
        parameters := parameters.(azimuthOffset := m);
      } else {
        settings := settings.(azimuthOffset := Narrow(azimuthOffset));
      }
      var startAzimuth := ToInt(p.startAzimuth);
      if startAzimuth < 0 || startAzimuth > m {
        parameters := parameters.(startAzimuth := 0);
      } else {
        settings := settings.(startAzimuth := startAzimuth);
      }
      var endAzimuth := ToInt(p.endAzimuth);
      if endAzimuth < 0 || endAzimuth > m {
        parameters := parameters.(endAzimuth := m);
      } else {
        settings := settings.(endAzimuth := endAzimuth);
      }
    }

    method RefreshBins()
      modifies `settings, `parameters
      ensures var taken, back := Taken(radar, old(settings), old(parameters)), PutBack(radar, old(settings), old(parameters));
              && settings == old(settings).(startBin := taken.startBin, endBin := taken.endBin,
                                            powerThreshold := taken.powerThreshold)
              && parameters == old(parameters).(startBin := back.startBin, endBin := back.endBin,
                                                powerThreshold := back.powerThreshold)
    {
      hide Narrow, ToInt;
      var p, n := parameters, radar.rangeInBins;
      var startBin := ToInt(p.startBin);
      if startBin < 0 || startBin > n {
        parameters := parameters.(startBin := 0);
      } else {
        settings := settings.(startBin := startBin);
      }
      var endBin := ToInt(p.endBin);
      if endBin < 0 || endBin > n {
        parameters := parameters.(endBin := n);
      } else {
        settings := settings.(endBin := endBin);
      }
      var powerThreshold := ToInt(p.powerThreshold);
      if powerThreshold < 0 || powerThreshold > 255 {
        parameters := parameters.(powerThreshold := settings.powerThreshold);
      } else {
        settings := settings.(powerThreshold := powerThreshold);
      }
    }

    method Refresh()
      requires Valid()
      modifies `settings, `parameters
      ensures Valid() && View() == Refreshed(old(View()))
    {
      hide Narrow, ToInt, PointsFrom;
      RefreshAzimuths();
      RefreshBins();
    }

    /** Returns the clouds and the number of configuration messages published. */
    method FftDataHandler(sweep: Sweep) returns (clouds: seq<seq<Point>>, configurations: nat)
      requires Valid()
      modifies this
      ensures Valid() && Outcome(View(), clouds, configurations) == AfterSweep(old(View()), sweep)
      ensures rotatedOnce == (old(rotatedOnce) || clouds != [])
    {
      hide Detections, Refreshed;
      Collect(sweep);
      clouds, configurations := [], 0;
      if sweep.azimuth < lastAzimuth {
        rotationCount := rotationCount + 1;
        rotatedOnce := true;
        var cloud := PublishPointCloud();
        clouds := [cloud];
        binValues, azimuthValues, intensityValues := [], [], [];
        assert View().points == [];
      }
      lastAzimuth := sweep.azimuth;
      if rotationCount >= CONFIG_PUBLISH_COUNT {
        Refresh();
        configurations := 1;
        rotationCount := 0;
      }
    }
  }
}
