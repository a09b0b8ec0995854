/** The list of blanked sectors and its byte form (cpp_17/navigation/sector_blanking.cpp). An angle is
    the 32-bit word of its `float`; `normalise` is what constructing an `Angle` does to that word. */
module SectorBlanking {
  import opened Bytes
  import opened Sequences

  const MAX_SECTORS := 8

  datatype Sector = Sector(start: u32, finish: u32)

  datatype Outcome = Accepted(sectors: seq<Sector>) | BadLength | CountMismatch

  /** `(buffer.size() - 1) / 8` in 64-bit unsigned arithmetic, where the empty buffer wraps around. */
  function SectorCount(size: nat): nat {
    (size - 1) % 0x1_0000_0000_0000_0000 / 8
  }

  function Encode(sectors: seq<Sector>): (b: seq<byte>)
    ensures |b| == 8 * |sectors|
  {
    if sectors == [] then [] else FromU32(sectors[0].start) + FromU32(sectors[0].finish) + Encode(sectors[1..])
  }

  function ToVector(sectors: seq<Sector>): seq<byte> {
    [|sectors| % 0x100] + Encode(sectors)
  }

  function SectorAt(b: seq<byte>, i: nat, normalise: u32 -> u32): Sector
    requires i + 8 <= |b|
  {
    Sector(normalise(ToU32(b[i..i + 4])), normalise(ToU32(b[i + 4..i + 8])))
  }

  /** The first `n` sectors of a byte stream. */
  function Decode(b: seq<byte>, n: nat, normalise: u32 -> u32): (sectors: seq<Sector>)
    requires 8 * n <= |b|
    ensures |sectors| == n
  {
    if n == 0 then [] else Decode(b, n - 1, normalise) + [SectorAt(b, 8 * (n - 1), normalise)]
  }

  function FromVector(buffer: seq<byte>, normalise: u32 -> u32): Outcome
    requires |buffer| < 0x1_0000_0000_0000_0000
  {
    var n := SectorCount(|buffer|);
    if n % 4 != 0 then BadLength
    else if buffer == [] || buffer[0] != n then CountMismatch
    else Accepted(Decode(buffer[1..], n, normalise))
  }

  ghost predicate Normal(sectors: seq<Sector>, normalise: u32 -> u32) {
    forall s :: s in sectors ==> normalise(s.start) == s.start && normalise(s.finish) == s.finish
  }

  lemma {:induction false} EncodeLast(sectors: seq<Sector>)
    requires sectors != []
    ensures var l := |sectors| - 1;
            Encode(sectors) == Encode(sectors[..l]) + (FromU32(sectors[l].start) + FromU32(sectors[l].finish))
  {
    hide FromU32;
    var l := |sectors| - 1;
    var last := FromU32(sectors[l].start) + FromU32(sectors[l].finish);
    if l == 0 {
      assert Encode(sectors[1..]) == [] && Encode(sectors[..0]) == [];
      assert last + [] == last == [] + last;
    } else {
      EncodeLast(sectors[1..]);
      assert sectors[1..][..l - 1] == sectors[..l][1..];
      Associate(FromU32(sectors[0].start) + FromU32(sectors[0].finish), Encode(sectors[..l][1..]), last);
    }
  }

  function NormalisedSector(s: Sector, normalise: u32 -> u32): Sector {
    Sector(normalise(s.start), normalise(s.finish))
  }

  function NormalisedSectors(sectors: seq<Sector>, normalise: u32 -> u32): (normalised: seq<Sector>)
    ensures |normalised| == |sectors|
  {
    seq(|sectors|, i requires 0 <= i < |sectors| => NormalisedSector(sectors[i], normalise))
  }

  lemma {:induction false} EncodeAt(sectors: seq<Sector>, i: nat)
    requires i < |sectors|
    ensures Encode(sectors)[8 * i..8 * i + 4] == FromU32(sectors[i].start)
    ensures Encode(sectors)[8 * i + 4..8 * i + 8] == FromU32(sectors[i].finish)
  {
    hide FromU32;
    var one, rest := FromU32(sectors[0].start) + FromU32(sectors[0].finish), Encode(sectors[1..]);
    assert Encode(sectors) == one + rest;
    if i > 0 {
      EncodeAt(sectors[1..], i - 1);
      var j := 8 * (i - 1);
      assert (one + rest)[8 * i..8 * i + 4] == rest[j..j + 4] && (one + rest)[8 * i + 4..8 * i + 8] == rest[j + 4..j + 8];
    }
  }

  lemma {:induction false} DecodeAt(b: seq<byte>, n: nat, normalise: u32 -> u32, i: nat)
    requires i < n && 8 * n <= |b|
    ensures Decode(b, n, normalise)[i] == SectorAt(b, 8 * i, normalise)
  {
    hide SectorAt;
    if i < n - 1 {
      DecodeAt(b, n - 1, normalise, i);
    }
  }

  /** Reading normalises. */
  lemma {:induction false} DecodeNormalises(sectors: seq<Sector>, normalise: u32 -> u32)
    ensures Decode(Encode(sectors), |sectors|, normalise) == NormalisedSectors(sectors, normalise)
  {
    hide ToU32, FromU32, Encode, Decode;
    forall i | 0 <= i < |sectors|
      ensures Decode(Encode(sectors), |sectors|, normalise)[i] == NormalisedSectors(sectors, normalise)[i]
    {
      EncodeAt(sectors, i);
      DecodeAt(Encode(sectors), |sectors|, normalise, i);
      U32RoundTrip(sectors[i].start);
      U32RoundTrip(sectors[i].finish);
    }
  }

  lemma NormalIff(sectors: seq<Sector>, normalise: u32 -> u32)
    ensures NormalisedSectors(sectors, normalise) == sectors <==> Normal(sectors, normalise)
  {
    if NormalisedSectors(sectors, normalise) == sectors {
      forall s | s in sectors ensures NormalisedSector(s, normalise) == s {
        var i :| 0 <= i < |sectors| && sectors[i] == s;
        assert NormalisedSectors(sectors, normalise)[i] == NormalisedSector(s, normalise);
      }
    }
    if Normal(sectors, normalise) {
      forall i | 0 <= i < |sectors| ensures NormalisedSectors(sectors, normalise)[i] == sectors[i] {
        assert sectors[i] in sectors;
      }
    }
  }

  lemma EncodedCount(sectors: seq<Sector>)
    requires |sectors| < 0x1000_0000_0000_0000
    ensures SectorCount(|ToVector(sectors)|) == |sectors|
  {}

  /** The check meant for the length looks at the number of sectors instead, so a list survives the
      round trip exactly when it holds a multiple of four sectors, their number fits a byte and every
      angle is one that normalising leaves as it is. */
  lemma RoundTripIff(sectors: seq<Sector>, normalise: u32 -> u32)
    requires |sectors| < 0x1000_0000_0000_0000
    ensures FromVector(ToVector(sectors), normalise) == Accepted(sectors)
            <==> |sectors| % 4 == 0 && |sectors| < 0x100 && Normal(sectors, normalise)
    ensures FromVector(ToVector(sectors), normalise) == BadLength <==> |sectors| % 4 != 0
  {
    hide Decode, Encode, SectorCount, Normal, NormalisedSectors;
    EncodedCount(sectors);
    assert ToVector(sectors)[1..] == Encode(sectors);
    DecodeNormalises(sectors, normalise);
    NormalIff(sectors, normalise);
  }

  /** The lists that can be built with `add` hold at most eight sectors, so the number has to be 0, 4 or 8. */
  lemma BuiltListsRoundTripIff(sectors: seq<Sector>, normalise: u32 -> u32)
    requires |sectors| <= 8
    ensures FromVector(ToVector(sectors), normalise) == Accepted(sectors)
            <==> |sectors| in {0, 4, 8} && Normal(sectors, normalise)
  {
    hide Normal;
    RoundTripIff(sectors, normalise);
  }

  /** Nothing limits an accepted list to the maximum, nor the buffer to the sectors it announces. */
  lemma AcceptedBuffers(buffer: seq<byte>, normalise: u32 -> u32)
    requires 0 < |buffer| < 0x1_0000_0000_0000_0000
    ensures var n := buffer[0] as int;
            FromVector(buffer, normalise).Accepted? <==> n % 4 == 0 && 8 * n + 1 <= |buffer| < 8 * n + 9
  {
    hide Decode;
  }

  lemma DecodeOneMore(buffer: seq<byte>, i: nat, normalise: u32 -> u32)
    requires 8 * i + 9 <= |buffer|
    ensures Decode(buffer[1..], i + 1, normalise)
            == Decode(buffer[1..], i, normalise)
             + [Sector(normalise(ToU32(buffer[8 * i + 1..8 * i + 5])), normalise(ToU32(buffer[8 * i + 5..8 * i + 9])))]
  {
    hide ToU32;
    var body := buffer[1..];
    assert body[8 * i..8 * i + 4] == buffer[8 * i + 1..8 * i + 5];
    assert body[8 * i + 4..8 * i + 8] == buffer[8 * i + 5..8 * i + 9];
  }

  lemma {:induction false} DecodeNone(b: seq<byte>, normalise: u32 -> u32)
    ensures Decode(b, 0, normalise) == []
  {}

  /** The bytes of a list: their number, then for each sector four bytes of its start and four of its finish, the
      most significant first. */
  lemma {:induction false} VectorBytes(sectors: seq<Sector>, i: nat)
    requires i < |sectors|
    ensures var b, s, o := ToVector(sectors), sectors[i], 1 + 8 * i;
            && |b| == 1 + 8 * |sectors| && b[0] == |sectors| % 256
            && b[o..o + 4] == [s.start / 16777216, s.start / 65536 % 256, s.start / 256 % 256, s.start % 256]
            && b[o + 4..o + 8] == [s.finish / 16777216, s.finish / 65536 % 256, s.finish / 256 % 256, s.finish % 256]
  {
    hide FromU32, Encode;
    EncodeAt(sectors, i);
    U32Bytes(sectors[i].start);
    U32Bytes(sectors[i].finish);
    var b, body, o := ToVector(sectors), Encode(sectors), 1 + 8 * i;
    assert b == [|sectors| % 256] + body;
    assert b[o..o + 4] == body[8 * i..8 * i + 4] && b[o + 4..o + 8] == body[8 * i + 4..8 * i + 8];
  }

  /** An accepted list has as many sectors as the first byte says, each from the eight bytes at its place, the most
      significant of each four first, and normalised. */
  lemma {:induction false} AcceptedSectors(buffer: seq<byte>, normalise: u32 -> u32, i: nat, start: u32, finish: u32)
    requires |buffer| < 0x1_0000_0000_0000_0000 && 8 * i + 9 <= |buffer|
    requires FromVector(buffer, normalise).Accepted? && i < buffer[0]
    requires var o := 8 * i + 1;
             && start == buffer[o] as int * 16777216 + buffer[o + 1] as int * 65536 + buffer[o + 2] as int * 256 + buffer[o + 3] as int
             && finish == buffer[o + 4] as int * 16777216 + buffer[o + 5] as int * 65536 + buffer[o + 6] as int * 256 + buffer[o + 7] as int
    ensures var sectors := FromVector(buffer, normalise).sectors;
            |sectors| == buffer[0] && sectors[i] == Sector(normalise(start), normalise(finish))
  {
    hide ToU32, Decode, SectorCount;
    CountedSectorsFit(buffer);
    DecodeAt(buffer[1..], SectorCount(|buffer|), normalise, i);
    var body, o := buffer[1..], 8 * i + 1;
    assert body[8 * i..8 * i + 4] == buffer[o..o + 4] && body[8 * i + 4..8 * i + 8] == buffer[o + 4..o + 8];
    U32Value(buffer[o..o + 4]);
    U32Value(buffer[o + 4..o + 8]);
  }

  class BlankingSectorList {
    var sectors: seq<Sector>

    constructor ()
      ensures sectors == []
    {
      sectors := [];
    }

    /** The list keeps the first eight of the initial sectors. */
    constructor FromList(init: seq<Sector>)
      ensures |init| <= 8 ==> sectors == init
      ensures |init| > 8 ==> sectors == init[..8]
    {
      sectors := init[..if |init| < MAX_SECTORS then |init| else MAX_SECTORS];
    }

    /** The overload for a sector that is copied reports failure even when it has added the sector. */
    method AddCopy(sector: Sector) returns (ok: bool)
      modifies this
      ensures sectors == if old(|sectors|) < 8 then old(sectors) + [sector] else old(sectors)
      ensures !ok
    {
      if |sectors| >= MAX_SECTORS {
        return false;
      }
      sectors := sectors + [sector];
      return false;
    }

    method AddMoved(sector: Sector) returns (ok: bool)
      modifies this
      ensures sectors == if ok then old(sectors) + [sector] else old(sectors)
      ensures ok <==> old(|sectors|) < 8
    {
      if |sectors| >= MAX_SECTORS {
        return false;
      }
      sectors := sectors + [sector];
      return true;
    }

    method AsVector() returns (buffer: seq<byte>)
      ensures buffer == ToVector(sectors)
    {
      hide FromU32;
      buffer := [|sectors| % 0x100];
      var i := 0;
      while i < |sectors|
        invariant 0 <= i <= |sectors|
        invariant buffer == [|sectors| % 0x100] + Encode(sectors[..i])
      {
        var start, finish := FromU32(sectors[i].start), FromU32(sectors[i].finish);
        EncodeLast(sectors[..i + 1]);
        assert sectors[..i + 1][..i] == sectors[..i];
        Associate([|sectors| % 0x100], Encode(sectors[..i]), start + finish);
        Associate(buffer, start, finish);
        buffer := buffer + start;
        buffer := buffer + finish;
        i := i + 1;
      }
      assert sectors[..i] == sectors;
    }

    /** Appends what the buffer holds to the list, or leaves the list as it is. */
    method TakeVector(buffer: seq<byte>, normalise: u32 -> u32) returns (r: Outcome)
      requires |buffer| < 0x1_0000_0000_0000_0000
      modifies this
      ensures r == FromVector(buffer, normalise)
      ensures sectors == if r.Accepted? then old(sectors) + r.sectors else old(sectors)
    {
      hide ToU32, Decode, SectorCount;
      var count := SectorCount(|buffer|);
      if count % 4 != 0 {
        return BadLength;
      }
      CountedBufferIsNotEmpty(buffer);
      if buffer[0] != count {
        return CountMismatch;
      }
      var it, kept := 1, |sectors|;
      ghost var body := buffer[1..];
      CountedSectorsFit(buffer);
      DecodeNone(body, normalise);
      for i := 0 to count
        invariant it == 1 + 8 * i
        invariant sectors == old(sectors) + Decode(body, i, normalise)
      {
        var start := normalise(ToU32(buffer[it..it + 4]));
        it := it + 4;
        var finish := normalise(ToU32(buffer[it..it + 4]));
        it := it + 4;
        DecodeOneMore(buffer, i, normalise);
        Associate(old(sectors), Decode(body, i, normalise), [Sector(start, finish)]);
        sectors := sectors + [Sector(start, finish)];
      }
      r := Accepted(sectors[kept..]);
    }
  }

  lemma CountedBufferIsNotEmpty(buffer: seq<byte>)
    requires SectorCount(|buffer|) % 4 == 0
    ensures buffer != []
  {}

  lemma CountedSectorsFit(buffer: seq<byte>)
    requires 0 < |buffer| < 0x1_0000_0000_0000_0000
    ensures 8 * SectorCount(|buffer|) + 1 <= |buffer|
  {}
}
