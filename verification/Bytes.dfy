/** Bytes and the network-order integers the Colossus protocol is made of
    (cpp_17/utility/net_conversion.cpp). */
module Bytes {

  type byte = x: int | 0 <= x < 256

  type u16 = x: int | 0 <= x < 0x1_0000

  type u32 = x: int | 0 <= x < 0x1_0000_0000

  function ToU16(b: seq<byte>): u16
    requires |b| == 2
  {
    (b[0] as int) * 0x100 + b[1]
  }

  function FromU16(v: u16): (b: seq<byte>)
    ensures |b| == 2
  {
    [v / 0x100, v % 0x100]
  }

  function ToU32(b: seq<byte>): u32
    requires |b| == 4
  {
    (ToU16(b[..2]) as int) * 0x1_0000 + ToU16(b[2..])
  }

  function FromU32(v: u32): (b: seq<byte>)
    ensures |b| == 4
  {
    FromU16(v / 0x1_0000) + FromU16(v % 0x1_0000)
  }

  lemma U16RoundTrip(v: u16, b: seq<byte>)
    requires |b| == 2
    ensures ToU16(FromU16(v)) == v && FromU16(ToU16(b)) == b
  {}

  lemma U32RoundTrip(v: u32)
    ensures ToU32(FromU32(v)) == v
  {
    hide ToU16, FromU16;
    var hi, lo := v / 0x1_0000, v % 0x1_0000;
    U16RoundTrip(hi, [0, 0]);
    U16RoundTrip(lo, [0, 0]);
    assert FromU32(v)[..2] == FromU16(hi) && FromU32(v)[2..] == FromU16(lo);
  }

  lemma U32BytesRoundTrip(b: seq<byte>)
    requires |b| == 4
    ensures FromU32(ToU32(b)) == b
  {
    hide ToU16, FromU16;
    U16RoundTrip(0, b[..2]);
    U16RoundTrip(0, b[2..]);
    var v := ToU32(b);
    assert v / 0x1_0000 == ToU16(b[..2]) && v % 0x1_0000 == ToU16(b[2..]);
    assert b == b[..2] + b[2..];
  }

  /** The first byte weighs most. */
  lemma U16Value(b: seq<byte>)
    requires |b| == 2
    ensures ToU16(b) == b[0] as int * 256 + b[1] as int
  {}

  lemma U32Value(b: seq<byte>)
    requires |b| == 4
    ensures ToU32(b) == b[0] as int * 16777216 + b[1] as int * 65536 + b[2] as int * 256 + b[3] as int
  {
    U16Value(b[..2]);
    U16Value(b[2..]);
  }

  /** The bytes of a number, the greatest first. */
  lemma U16Bytes(v: u16)
    ensures FromU16(v) == [v / 256, v % 256]
  {}

  lemma TopDigits(v: int)
    requires 0 <= v
    ensures v / 65536 / 256 == v / 16777216
  {}

  lemma LowDigits(v: int)
    requires 0 <= v
    ensures v % 65536 / 256 == v / 256 % 256
  {}

  lemma LastDigit(v: int)
    requires 0 <= v
    ensures v % 65536 % 256 == v % 256
  {}

  lemma U32Bytes(v: u32)
    ensures FromU32(v) == [v / 16777216, v / 65536 % 256, v / 256 % 256, v % 256]
  {
    hide ToU16, FromU16;
    U16Bytes(v / 65536);
    U16Bytes(v % 65536);
    TopDigits(v);
    LowDigits(v);
    LastDigit(v);
  }

  /** Network order is the order of the numbers: the first byte that differs decides. */
  lemma U16Order(b: seq<byte>, c: seq<byte>)
    requires |b| == |c| == 2
    ensures ToU16(b) < ToU16(c) <==> exists k :: 0 <= k < 2 && b[..k] == c[..k] && b[k] < c[k]
  {
    hide ToU16;
    U16Value(b);
    U16Value(c);
    if b[0] < c[0] {
      assert b[..0] == c[..0];
    } else if b[0] == c[0] && b[1] < c[1] {
      assert b[..1] == c[..1];
    }
    forall k | 0 <= k < 2 && b[..k] == c[..k] && b[k] < c[k] ensures ToU16(b) < ToU16(c) {
      assert k == 1 ==> b[0] == b[..1][0] == c[..1][0] == c[0];
    }
  }

  lemma U32Order(b: seq<byte>, c: seq<byte>)
    requires |b| == |c| == 4
    ensures ToU32(b) < ToU32(c) <==> exists k :: 0 <= k < 4 && b[..k] == c[..k] && b[k] < c[k]
  {
    hide ToU16, ToU32;
    U32Value(b);
    U32Value(c);
    var k := if b[0] != c[0] then 0 else if b[1] != c[1] then 1 else if b[2] != c[2] then 2 else 3;
    assert b[..k] == c[..k];
    FirstDifferenceDecides(b, c, k);
    assert b[k] < c[k] ==> ToU32(b) < ToU32(c);
    assert b[k] >= c[k] ==> ToU32(b) >= ToU32(c);
  }

  lemma FirstDifferenceDecides(b: seq<byte>, c: seq<byte>, k: nat)
    requires |b| == |c| && k < |b| && b[..k] == c[..k] && (k == |b| - 1 || b[k] != c[k])
    ensures (exists j :: 0 <= j < |b| && b[..j] == c[..j] && b[j] < c[j]) <==> b[k] < c[k]
  {
    forall j | 0 <= j < |b| && b[..j] == c[..j] && b[j] < c[j] ensures j == k {
      if j < k {
        SamePrefix(b, c, k, j);
      } else if k < j {
        SamePrefix(b, c, j, k);
      }
    }
  }

  lemma SamePrefix(b: seq<byte>, c: seq<byte>, n: nat, i: nat)
    requires n <= |b| == |c| && b[..n] == c[..n] && i < n
    ensures b[i] == c[i]
  {
    assert b[i] == b[..n][i] == c[..n][i];
  }

  function Zeros(n: nat): (z: seq<byte>)
    ensures |z| == n && forall i :: 0 <= i < n ==> z[i] == 0
  {
    seq(n, _ => 0)
  }
}
