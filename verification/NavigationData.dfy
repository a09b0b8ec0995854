/** The two decoders of a navigation data payload: cpp_17/network/radar_client.cpp copies the records
    out of the message first, cpp/radarclient.cpp walks the whole payload with a moving offset. */
module NavigationData {
  import opened Bytes
  import opened Floats
  import opened Sequences

  const HEADER_LENGTH := 10
  const RECORD_LENGTH := 6
  const RANGE_MULTIPLIER := 1000000.0

  datatype Record = Record(resolved: u32, power: u16)

  datatype Peak = Peak(range: real, power: u16)

  datatype Navigation = Navigation(azimuth: u16, angle: Extended, seconds: u32, splitSeconds: u32, peaks: seq<Peak>)

  function ToPeak(r: Record): Peak {
    Peak(r.resolved as real / RANGE_MULTIPLIER, r.power)
  }

  function Peaks(records: seq<Record>): (peaks: seq<Peak>)
    ensures |peaks| == |records|
  {
    seq(|records|, i requires 0 <= i < |records| => ToPeak(records[i]))
  }

  function RecordAt(b: seq<byte>, i: nat): Record
    requires i + RECORD_LENGTH <= |b|
  {
    Record(ToU32(b[i..i + 4]), ToU16(b[i + 4..i + 6]))
  }

  /** The whole records in a run of bytes; what is left over is too short to be one. */
  function Records(b: seq<byte>): (rs: seq<Record>)
    ensures |rs| == |b| / RECORD_LENGTH
  {
    if |b| < RECORD_LENGTH then [] else [RecordAt(b, 0)] + Records(b[RECORD_LENGTH..])
  }

  function Encode(rs: seq<Record>): (b: seq<byte>)
    ensures |b| == RECORD_LENGTH * |rs|
  {
    if rs == [] then [] else FromU32(rs[0].resolved) + FromU16(rs[0].power) + Encode(rs[1..])
  }

  /** The azimuth's share of the turn; no number before the encoder size is known. */
  function AngleOf(azimuth: u16, encoderSize: u16): Extended {
    Divide(azimuth as real * 360.0, encoderSize as real)
  }

  function Contents(payload: seq<byte>, encoderSize: u16): Navigation
    requires |payload| >= HEADER_LENGTH
  {
    var azimuth := ToU16(payload[..2]);
    Navigation(azimuth, AngleOf(azimuth, encoderSize), ToU32(payload[2..6]), ToU32(payload[6..10]),
               Peaks(Records(payload[HEADER_LENGTH..])))
  }

  // ---------- Encoding and decoding ----------

  /** Decoding inverts encoding, and bytes after the last whole record are ignored. */
  lemma {:induction false} DecodeInvertsEncode(rs: seq<Record>, tail: seq<byte>)
    requires |tail| < RECORD_LENGTH
    ensures Records(Encode(rs) + tail) == rs
  {
    hide ToU16, ToU32, FromU16, FromU32;
    if rs == [] {
      assert Encode(rs) + tail == tail;
    } else {
      var range, power, rest := FromU32(rs[0].resolved), FromU16(rs[0].power), Encode(rs[1..]);
      var b := Encode(rs) + tail;
      U32RoundTrip(rs[0].resolved);
      U16RoundTrip(rs[0].power, [0, 0]);
      assert b[0..4] == range && b[4..6] == power;
      assert b[RECORD_LENGTH..] == rest + tail;
      DecodeInvertsEncode(rs[1..], tail);
    }
  }

  /** Encoding inverts decoding up to the bytes that were ignored. */
  lemma {:induction false} EncodeInvertsDecode(b: seq<byte>)
    ensures var n := RECORD_LENGTH * (|b| / RECORD_LENGTH); Encode(Records(b)) == b[..n]
  {
    hide ToU16, ToU32, FromU16, FromU32;
    if |b| >= RECORD_LENGTH {
      var n, rest := RECORD_LENGTH * (|b| / RECORD_LENGTH), b[RECORD_LENGTH..];
      EncodeInvertsDecode(rest);
      U32BytesRoundTrip(b[0..4]);
      U16RoundTrip(0, b[4..6]);
      assert Records(b)[1..] == Records(rest);
      assert rest[..n - RECORD_LENGTH] == b[RECORD_LENGTH..n];
      assert b[..n] == b[0..4] + b[4..6] + b[RECORD_LENGTH..n];
    } else {
      assert b[..0] == [];
    }
  }

  // ---------- The two loops ----------

  lemma {:induction false} FirstRecord(a: seq<byte>, b: seq<byte>)
    requires |a| >= RECORD_LENGTH
    ensures Records(a) == [RecordAt(a, 0)] + Records(a[RECORD_LENGTH..])
    ensures Records(a + b) == [RecordAt(a, 0)] + Records(a[RECORD_LENGTH..] + b)
  {
    hide ToU16, ToU32;
    assert (a + b)[0..4] == a[0..4] && (a + b)[4..6] == a[4..6];
    assert (a + b)[RECORD_LENGTH..] == a[RECORD_LENGTH..] + b;
  }

  lemma {:induction false} NoRecords(b: seq<byte>)
    requires |b| < RECORD_LENGTH
    ensures Records(b) == []
  {}

  lemma {:induction false} RecordsAppendWhole(a: seq<byte>, b: seq<byte>, n: nat)
    requires |a| == RECORD_LENGTH * n
    ensures Records(a + b) == Records(a) + Records(b)
    decreases n
  {
    hide Records, RecordAt;
    if n == 0 {
      NoRecords(a);
      assert a + b == b;
    } else {
      FirstRecord(a, b);
      RecordsAppendWhole(a[RECORD_LENGTH..], b, n - 1);
      Associate([RecordAt(a, 0)], Records(a[RECORD_LENGTH..]), Records(b));
    }
  }

  lemma PeaksPush(rs: seq<Record>, r: Record)
    ensures Peaks(rs + [r]) == Peaks(rs) + [ToPeak(r)]
  {}

  lemma NoPeaks()
    ensures Peaks([]) == []
  {}

  /** Reading one more record of `b` after the first `n`. */
  lemma NextRecord(b: seq<byte>, n: nat)
    requires RECORD_LENGTH * n + RECORD_LENGTH <= |b|
    ensures var i := RECORD_LENGTH * n; Records(b[..i + RECORD_LENGTH]) == Records(b[..i]) + [RecordAt(b, i)]
  {
    hide ToU16, ToU32, Records;
    var i := RECORD_LENGTH * n;
    var one := b[i..i + RECORD_LENGTH];
    assert b[..i + RECORD_LENGTH] == b[..i] + one;
    RecordsAppendWhole(b[..i], one, n);
    assert one[0..4] == b[i..i + 4] && one[4..6] == b[i + 4..i + 6];
    FirstRecord(one, []);
    NoRecords(one[RECORD_LENGTH..]);
  }

  /** Only the whole records matter. */
  lemma {:induction false} WholeRecords(b: seq<byte>)
    ensures Records(b[..RECORD_LENGTH * (|b| / RECORD_LENGTH)]) == Records(b)
  {
    hide Records;
    var n := |b| / RECORD_LENGTH;
    var whole, rest := b[..RECORD_LENGTH * n], b[RECORD_LENGTH * n..];
    assert b == whole + rest;
    RecordsAppendWhole(whole, rest, n);
    NoRecords(rest);
  }

  /** `Radar_client::handle_navigation_data_message`. */
  method DecodeCopied(payload: seq<byte>, encoderSize: u16) returns (navigation: Navigation)
    requires |payload| >= HEADER_LENGTH
    ensures navigation == Contents(payload, encoderSize)
    ensures |navigation.peaks| == (|payload| - 10) / 6
  {
    hide ToU16, ToU32, Records, Peaks, AngleOf;
    var targets := payload[HEADER_LENGTH..];
    var azimuth, seconds, splitSeconds := ToU16(payload[..2]), ToU32(payload[2..6]), ToU32(payload[6..10]);
    var peaks: seq<Peak> := [];
    var count := |targets| / RECORD_LENGTH;
    var i := 0;
    ghost var n := 0;
    NoRecords(targets[..0]);
    NoPeaks();
    while i < count * RECORD_LENGTH
      invariant i == RECORD_LENGTH * n && 0 <= n <= count
      invariant peaks == Peaks(Records(targets[..i]))
    {
      var resolved := ToU32(targets[i..i + 4]);
      var power := ToU16(targets[i + 4..i + 6]);
      NextRecord(targets, n);
      PeaksPush(Records(targets[..i]), RecordAt(targets, i));
      peaks := peaks + [Peak(resolved as real / RANGE_MULTIPLIER, power)];
      i, n := i + RECORD_LENGTH, n + 1;
    }
    WholeRecords(targets);
    navigation := Navigation(azimuth, AngleOf(azimuth, encoderSize), seconds, splitSeconds, peaks);
  }

  lemma OffsetRecord(payload: seq<byte>, i: nat)
    requires HEADER_LENGTH <= i && i + RECORD_LENGTH <= |payload|
    ensures RecordAt(payload[HEADER_LENGTH..], i - HEADER_LENGTH) == RecordAt(payload, i)
  {
    hide ToU16, ToU32;
    var t, j := payload[HEADER_LENGTH..], i - HEADER_LENGTH;
    assert t[j..j + 4] == payload[i..i + 4] && t[j + 4..j + 6] == payload[i + 4..i + 6];
  }

  /** `RadarClient::HandleNavigationDataMessage`. */
  method DecodeInPlace(payload: seq<byte>, encoderSize: u16) returns (navigation: Navigation)
    requires |payload| >= HEADER_LENGTH
    ensures navigation == Contents(payload, encoderSize)
  {
    hide ToU16, ToU32, Records, Peaks, AngleOf;
    ghost var targets := payload[HEADER_LENGTH..];
    var azimuth, seconds, splitSeconds := ToU16(payload[0..2]), ToU32(payload[2..6]), ToU32(payload[6..10]);
    var peaks: seq<Peak> := [];
    var offset := 2 + 4 + 4;
    var count := (|payload| - offset) / RECORD_LENGTH;
    var i := offset;
    ghost var n := 0;
    NoRecords(targets[..0]);
    NoPeaks();
    while i < 10 + count * RECORD_LENGTH
      invariant i == offset + RECORD_LENGTH * n && 0 <= n <= count
      invariant peaks == Peaks(Records(targets[..i - offset]))
    {
      var resolved := ToU32(payload[i..i + 4]);
      var power := ToU16(payload[i + 4..i + 6]);
      NextRecord(targets, n);
      PeaksPush(Records(targets[..i - offset]), RecordAt(targets, i - offset));
      OffsetRecord(payload, i);
      peaks := peaks + [Peak(resolved as real / RANGE_MULTIPLIER, power)];
      i, n := i + RECORD_LENGTH, n + 1;
    }
    WholeRecords(targets);
    navigation := Navigation(azimuth, AngleOf(azimuth, encoderSize), seconds, splitSeconds, peaks);
  }

  // ---------- Byte by byte ----------

  /** The record with number `i` starts six bytes further for each record before it. */
  lemma {:induction false} RecordsAt(b: seq<byte>, i: nat)
    requires 6 * i + 6 <= |b|
    ensures |Records(b)| == |b| / 6 && i < |Records(b)| && Records(b)[i] == RecordAt(b, 6 * i)
  {
    hide ToU16, ToU32, Records, RecordAt;
    var before, rest := b[..6 * i], b[6 * i + 6..];
    NextRecord(b, i);
    assert b == b[..6 * i + 6] + rest;
    RecordsAppendWhole(b[..6 * i + 6], rest, i + 1);
    assert |Records(before)| == i;
  }

  /** The header: two bytes of azimuth and twice four bytes of time, the most significant first. */
  lemma HeaderMeans(payload: seq<byte>, encoderSize: u16)
    requires |payload| >= 10
    ensures var n := Contents(payload, encoderSize);
            && n.azimuth == payload[0] as int * 256 + payload[1] as int
            && n.seconds == payload[2] as int * 16777216 + payload[3] as int * 65536 + payload[4] as int * 256 + payload[5] as int
            && n.splitSeconds == payload[6] as int * 16777216 + payload[7] as int * 65536 + payload[8] as int * 256 + payload[9] as int
            && (encoderSize != 0 ==> n.angle == Finite(n.azimuth as real * 360.0 / encoderSize as real))
            && (encoderSize == 0 ==> n.angle == if n.azimuth == 0 then NotANumber else Infinite)
            && |n.peaks| == (|payload| - 10) / 6
  {
    hide ToU16, ToU32;
    U16Value(payload[..2]);
    U32Value(payload[2..6]);
    U32Value(payload[6..10]);
  }

  /** Each peak: four bytes of range in millionths, two of power. */
  lemma PeakMeans(payload: seq<byte>, encoderSize: u16, i: nat)
    requires 10 + 6 * i + 6 <= |payload|
    ensures var n, o := Contents(payload, encoderSize), 10 + 6 * i;
            && i < |n.peaks|
            && n.peaks[i].range == (payload[o] as int * 16777216 + payload[o + 1] as int * 65536 + payload[o + 2] as int * 256
                                    + payload[o + 3] as int) as real / 1000000.0
            && n.peaks[i].power == payload[o + 4] as int * 256 + payload[o + 5] as int
  {
    hide ToU16, ToU32, Records;
    var o := 10 + 6 * i;
    RecordsAt(payload[10..], i);
    OffsetRecord(payload, o);
    U32Value(payload[o..o + 4]);
    U16Value(payload[o + 4..o + 6]);
  }

  /** A payload built from header fields and records is decoded into exactly those. */
  lemma {:induction false} PayloadRoundTrip(azimuth: u16, seconds: u32, splitSeconds: u32, rs: seq<Record>,
                                            tail: seq<byte>,
                                            encoderSize: u16)
    requires |tail| < RECORD_LENGTH
    ensures Contents(FromU16(azimuth) + FromU32(seconds) + FromU32(splitSeconds) + (Encode(rs) + tail), encoderSize)
            == Navigation(azimuth, AngleOf(azimuth, encoderSize), seconds, splitSeconds, Peaks(rs))
  {
    hide ToU16, ToU32, FromU16, FromU32, Records, Encode, AngleOf;
    var a, s, p, body := FromU16(azimuth), FromU32(seconds), FromU32(splitSeconds), Encode(rs) + tail;
    var payload := a + s + p + body;
    assert payload[..2] == a && payload[2..6] == s && payload[6..10] == p && payload[10..] == body;
    U16RoundTrip(azimuth, [0, 0]);
    U32RoundTrip(seconds);
    U32RoundTrip(splitSeconds);
    DecodeInvertsEncode(rs, tail);
  }
}
