/** Colossus network messages: cpp_17/network/colossus_network_message.{h,cpp} and the overlay
    arithmetic of colossus_message_base.h. A message is one contiguous vector of bytes: a 22-byte
    header, then a message header, then any payload. */
module ColossusMessage {
  import opened Bytes
  import opened Sequences

  const SIGNATURE: seq<byte> := [0x00, 0x01, 0x03, 0x03, 0x07, 0x07, 0x0F, 0x0F,
                                 0x1F, 0x1F, 0x3F, 0x3F, 0x7F, 0x7F, 0xFE, 0xFE]
  const VERSION: byte := 1
  const HEADER_SIZE := 22
  const LARGEST_PAYLOAD := 1_000_000

  // ---------- The bytes of a message ----------

  function PayloadSizeField(m: seq<byte>): u32
    requires |m| >= HEADER_SIZE
  {
    ToU32(m[18..22])
  }

  /** The message with the payload size in its header brought up to date, in 32 bits. */
  function WithSize(m: seq<byte>): (r: seq<byte>)
    requires |m| >= HEADER_SIZE
    ensures |r| == |m|
  {
    m[..18] + FromU32((|m| - HEADER_SIZE) % 0x1_0000_0000) + m[22..]
  }

  predicate ValidHeader(m: seq<byte>)
    requires |m| >= HEADER_SIZE
  {
    m[..16] == SIGNATURE && m[16] == VERSION && PayloadSizeField(m) < LARGEST_PAYLOAD
  }

  /** Everything in a version 1 message before the payload size. */
  function Preamble(kind: byte): (m: seq<byte>)
    ensures |m| == 18
  {
    SIGNATURE + [VERSION, kind]
  }

  /** A complete version 1 message. */
  function Frame(kind: byte, payload: seq<byte>): (m: seq<byte>)
    requires |payload| < 0x1_0000_0000
    ensures |m| == HEADER_SIZE + |payload|
  {
    Preamble(kind) + FromU32(|payload|) + payload
  }

  predicate WellFormed(m: seq<byte>) {
    |m| >= HEADER_SIZE && ValidHeader(m) && |m| == HEADER_SIZE + PayloadSizeField(m)
  }

  lemma FrameParts(kind: byte, payload: seq<byte>)
    requires |payload| < 0x1_0000_0000
    ensures var m := Frame(kind, payload);
            && m[..16] == SIGNATURE && m[16] == VERSION && m[17] == kind && m[22..] == payload
            && m[18..22] == FromU32(|payload|) && PayloadSizeField(m) == |payload|
  {
    U32RoundTrip(|payload|);
    assert Frame(kind, payload)[18..22] == FromU32(|payload|);
  }

  /** The well-formed messages are exactly the frames of payloads below the limit. */
  lemma WellFormedIsFrame(m: seq<byte>)
    ensures WellFormed(m)
            <==> |m| >= HEADER_SIZE && |m| - HEADER_SIZE < LARGEST_PAYLOAD && m == Frame(m[17], m[22..])
  {
    if WellFormed(m) {
      U32BytesRoundTrip(m[18..22]);
      assert m == m[..16] + [m[16], m[17]] + m[18..22] + m[22..];
    }
    if |m| >= HEADER_SIZE && |m| - HEADER_SIZE < LARGEST_PAYLOAD && m == Frame(m[17], m[22..]) {
      FrameParts(m[17], m[22..]);
    }
  }

  /** The bytes of a message, one by one: signature, version 1, type, size with its greatest byte first. */
  lemma FrameBytes(kind: byte, payload: seq<byte>)
    requires |payload| < 0x1_0000_0000
    ensures var n := |payload|;
            Frame(kind, payload)
            == [0, 1, 3, 3, 7, 7, 15, 15, 31, 31, 63, 63, 127, 127, 254, 254, 1, kind,
                n / 16777216, n / 65536 % 256, n / 256 % 256, n % 256] + payload
  {
    U32Bytes(|payload|);
    hide FromU32;
  }

  lemma SizeFieldBytes(m: seq<byte>)
    requires |m| >= 22
    ensures HEADER_SIZE == 22
    ensures PayloadSizeField(m) == m[18] as int * 16777216 + m[19] as int * 65536 + m[20] as int * 256 + m[21] as int
  {
    U32Value(m[18..22]);
    hide ToU32;
  }

  /** Which headers are valid, byte by byte. */
  lemma ValidHeaderIff(m: seq<byte>)
    requires |m| >= 22
    ensures HEADER_SIZE == 22
    ensures ValidHeader(m)
            <==> (m[..16] == [0, 1, 3, 3, 7, 7, 15, 15, 31, 31, 63, 63, 127, 127, 254, 254] && m[16] == 1
                  && m[18] as int * 16777216 + m[19] as int * 65536 + m[20] as int * 256 + m[21] as int < 1000000)
  {
    SizeFieldBytes(m);
    hide PayloadSizeField, ToU32;
  }

  // ---------- Building a message ----------

  datatype Part = Header(bytes: seq<byte>) | Payload(bytes: seq<byte>)

  /** A message under construction: its bytes, and whether a payload has been added. */
  datatype Draft = Draft(bytes: seq<byte>, hasProtobuf: bool)

  /** Adding a header puts it before the payload. Without a payload it goes right after the network
      header, on top of whatever is there; the vector still grows by its length. */
  function AddHeader(d: Draft, header: seq<byte>): Draft
    requires |d.bytes| >= HEADER_SIZE
  {
    var rest := d.bytes[22..];
    if d.hasProtobuf then d.(bytes := WithSize(d.bytes[..22] + header + rest))
    else d.(bytes := WithSize(d.bytes[..22] + header + (rest + Zeros(|header|))[|header|..]))
  }

  function AddPayload(d: Draft, payload: seq<byte>): Draft
    requires |d.bytes| >= HEADER_SIZE
  {
    Draft(WithSize(d.bytes + payload), true)
  }

  lemma WithSizeParts(m: seq<byte>)
    requires 22 <= |m| < 0x1_0000_0000
    ensures HEADER_SIZE == 22 && |m| - 22 < 0x1_0000_0000
    ensures WithSize(m)[..18] == m[..18] && WithSize(m)[18..22] == FromU32(|m| - 22) && WithSize(m)[22..] == m[22..]
  {
    hide FromU32;
    assert (|m| - 22) % 0x1_0000_0000 == |m| - 22;
  }

  /** The size field counts the bytes after the network header, the greatest byte first. */
  lemma SizeBroughtUpToDate(m: seq<byte>)
    requires 22 <= |m| < 0x1_0000_0000
    ensures HEADER_SIZE == 22 && WithSize(m)[..18] == m[..18] && WithSize(m)[22..] == m[22..]
    ensures var n := |m| - 22; WithSize(m)[18..22] == [n / 16777216, n / 65536 % 256, n / 256 % 256, n % 256]
  {
    hide WithSize, FromU32;
    WithSizeParts(m);
    U32Bytes(|m| - 22);
  }

  /** A header that is added comes right after the network header: before a payload, or else over what is there, so that
      a second header replaces the bytes of the first. */
  lemma HeaderAdded(d: Draft, header: seq<byte>)
    requires 22 <= |d.bytes| && |d.bytes| + |header| < 0x1_0000_0000
    ensures HEADER_SIZE == 22 && AddHeader(d, header).hasProtobuf == d.hasProtobuf
    ensures var r, k, n := AddHeader(d, header).bytes, 22 + |header|, |d.bytes| + |header| - 22;
            && |r| == |d.bytes| + |header| && r[..18] == d.bytes[..18] && r[22..k] == header
            && r[18..22] == [n / 16777216, n / 65536 % 256, n / 256 % 256, n % 256]
            && (d.hasProtobuf ==> r[k..] == d.bytes[22..])
            && (!d.hasProtobuf ==> forall i :: k <= i < |r| ==> r[i] == if i < |d.bytes| then d.bytes[i] else 0)
  {
    hide WithSize;
    var rest := d.bytes[22..];
    var tail := if d.hasProtobuf then rest else (rest + Zeros(|header|))[|header|..];
    var m, r := d.bytes[..22] + header + tail, AddHeader(d, header).bytes;
    SizeBroughtUpToDate(m);
    assert r == WithSize(m) && m[22..] == header + tail && m[..18] == d.bytes[..18];
    BothParts(r, header, tail);
  }

  lemma BothParts(r: seq<byte>, header: seq<byte>, tail: seq<byte>)
    requires |r| >= 22 && r[22..] == header + tail
    ensures r[22..22 + |header|] == header && r[22 + |header|..] == tail
    ensures forall i :: 22 + |header| <= i < |r| ==> r[i] == tail[i - 22 - |header|]
  {
    assert r[22..22 + |header|] == r[22..][..|header|] && r[22 + |header|..] == r[22..][|header|..];
    forall i | 22 + |header| <= i < |r| ensures r[i] == tail[i - 22 - |header|] {
      assert r[i] == r[22 + |header|..][i - 22 - |header|];
    }
  }

  /** A payload that is added comes after everything else. */
  lemma PayloadAdded(d: Draft, payload: seq<byte>)
    requires 22 <= |d.bytes| && |d.bytes| + |payload| < 0x1_0000_0000
    ensures HEADER_SIZE == 22 && AddPayload(d, payload).hasProtobuf
    ensures var r, n := AddPayload(d, payload).bytes, |d.bytes| + |payload| - 22;
            && r[..18] == d.bytes[..18] && r[22..] == d.bytes[22..] + payload
            && r[18..22] == [n / 16777216, n / 65536 % 256, n / 256 % 256, n % 256]
  {
    hide WithSize;
    SizeBroughtUpToDate(d.bytes + payload);
    assert (d.bytes + payload)[22..] == d.bytes[22..] + payload;
  }

  function Add(d: Draft, part: Part): (r: Draft)
    requires |d.bytes| >= HEADER_SIZE
    ensures |r.bytes| == |d.bytes| + |part.bytes|
  {
    match part
    case Header(h) => AddHeader(d, h)
    case Payload(p) => AddPayload(d, p)
  }

  function Build(d: Draft, parts: seq<Part>): Draft
    requires |d.bytes| >= HEADER_SIZE
    decreases |parts|
  {
    if parts == [] then d else Build(Add(d, parts[0]), parts[1..])
  }

  function Empty(kind: byte): (d: Draft)
    ensures |d.bytes| == HEADER_SIZE
  {
    Draft(Preamble(kind) + Zeros(4), false)
  }

  function Headers(parts: seq<Part>): seq<byte> {
    if parts == [] then []
    else (if parts[0].Header? then parts[0].bytes else []) + Headers(parts[1..])
  }

  function Payloads(parts: seq<Part>): seq<byte> {
    if parts == [] then []
    else (if parts[0].Payload? then parts[0].bytes else []) + Payloads(parts[1..])
  }

  function HeaderCount(parts: seq<Part>): nat {
    if parts == [] then 0 else (if parts[0].Header? then 1 else 0) + HeaderCount(parts[1..])
  }

  /** A draft that holds a message header `h` and a payload `p`. */
  ghost predicate Holds(d: Draft, kind: byte, h: seq<byte>, p: seq<byte>) {
    && d.bytes == Preamble(kind) + FromU32((|h| + |p|) % 0x1_0000_0000) + h + p
    && (p != [] ==> d.hasProtobuf)
  }

  lemma HeldSize(d: Draft, kind: byte, h: seq<byte>, p: seq<byte>)
    requires Holds(d, kind, h, p)
    ensures |d.bytes| == 22 + |h| + |p| && HEADER_SIZE == 22
  {
    hide FromU32, Preamble;
  }

  lemma PayloadHolds(d: Draft, kind: byte, h: seq<byte>, p: seq<byte>, more: seq<byte>)
    requires Holds(d, kind, h, p)
    ensures |d.bytes| >= HEADER_SIZE && Holds(AddPayload(d, more), kind, h, p + more)
  {
    hide FromU32, Preamble;
    var m := d.bytes + more;
    assert m[..18] == Preamble(kind);
    assert m[22..] == h + (p + more);
  }

  lemma HeaderHolds(d: Draft, kind: byte, h: seq<byte>, p: seq<byte>)
    requires Holds(d, kind, [], p)
    ensures |d.bytes| >= HEADER_SIZE && Holds(AddHeader(d, h), kind, h, p)
  {
    hide FromU32, Preamble;
    assert d.bytes[22..] == p;
    var tail := if d.hasProtobuf then p else (p + Zeros(|h|))[|h|..];
    assert tail == p;
    var m := d.bytes[..22] + h + p;
    assert m[..18] == Preamble(kind);
    assert m[22..] == h + p;
  }

  lemma {:induction false} BuildNothing(d: Draft, parts: seq<Part>)
    requires |d.bytes| >= 22 && parts == []
    ensures HEADER_SIZE == 22 && Build(d, parts) == d && Headers(parts) == [] && Payloads(parts) == []
  {}

  lemma {:induction false} BuildPayload(d: Draft, parts: seq<Part>)
    requires |d.bytes| >= 22 && parts != [] && parts[0].Payload?
    ensures HEADER_SIZE == 22 && |AddPayload(d, parts[0].bytes).bytes| >= 22
    ensures Build(d, parts) == Build(AddPayload(d, parts[0].bytes), parts[1..])
    ensures Headers(parts) == Headers(parts[1..]) && Payloads(parts) == parts[0].bytes + Payloads(parts[1..])
    ensures HeaderCount(parts) == HeaderCount(parts[1..])
  {
    hide WithSize;
    assert [] + Headers(parts[1..]) == Headers(parts[1..]);
  }

  lemma {:induction false} BuildHeader(d: Draft, parts: seq<Part>)
    requires |d.bytes| >= 22 && parts != [] && parts[0].Header?
    ensures HEADER_SIZE == 22 && |AddHeader(d, parts[0].bytes).bytes| >= 22
    ensures Build(d, parts) == Build(AddHeader(d, parts[0].bytes), parts[1..])
    ensures Headers(parts) == parts[0].bytes + Headers(parts[1..]) && Payloads(parts) == Payloads(parts[1..])
    ensures HeaderCount(parts) == 1 + HeaderCount(parts[1..])
  {
    hide WithSize;
    assert [] + Payloads(parts[1..]) == Payloads(parts[1..]);
  }

  /** Once the message header is in, payloads go behind it in order. */
  lemma {:induction false} BuildPayloads(d: Draft, kind: byte, h: seq<byte>, p: seq<byte>, parts: seq<Part>)
    requires Holds(d, kind, h, p) && HeaderCount(parts) == 0
    ensures |d.bytes| >= HEADER_SIZE && Headers(parts) == []
    ensures Holds(Build(d, parts), kind, h, p + Payloads(parts))
    decreases |parts|
  {
    hide *;
    HeldSize(d, kind, h, p);
    if parts == [] {
      BuildNothing(d, parts);
      assert p + [] == p;
    } else if parts[0].Header? {
      BuildHeader(d, parts);
    } else {
      BuildPayload(d, parts);
      PayloadHolds(d, kind, h, p, parts[0].bytes);
      BuildPayloads(AddPayload(d, parts[0].bytes), kind, h, p + parts[0].bytes, parts[1..]);
      Associate(p, parts[0].bytes, Payloads(parts[1..]));
    }
  }

  /** The message header goes before the payloads, whenever it comes. */
  lemma {:induction false} BuildWithHeader(d: Draft, kind: byte, p: seq<byte>, parts: seq<Part>)
    requires Holds(d, kind, [], p) && HeaderCount(parts) <= 1
    ensures |d.bytes| >= HEADER_SIZE
    ensures Holds(Build(d, parts), kind, Headers(parts), p + Payloads(parts))
    decreases |parts|
  {
    hide *;
    HeldSize(d, kind, [], p);
    if parts == [] {
      BuildNothing(d, parts);
      assert p + [] == p;
    } else if parts[0].Header? {
      BuildHeader(d, parts);
      HeaderHolds(d, kind, parts[0].bytes, p);
      BuildPayloads(AddHeader(d, parts[0].bytes), kind, parts[0].bytes, p, parts[1..]);
      assert parts[0].bytes + [] == parts[0].bytes;
    } else {
      BuildPayload(d, parts);
      PayloadHolds(d, kind, [], p, parts[0].bytes);
      BuildWithHeader(AddPayload(d, parts[0].bytes), kind, p + parts[0].bytes, parts[1..]);
      Associate(p, parts[0].bytes, Payloads(parts[1..]));
    }
  }

  lemma EmptyHolds(kind: byte)
    ensures Holds(Empty(kind), kind, [], [])
  {
    assert FromU32(0) == Zeros(4);
    assert Preamble(kind) + Zeros(4) + [] + [] == Preamble(kind) + Zeros(4);
  }

  lemma HeldIsFrame(d: Draft, kind: byte, h: seq<byte>, p: seq<byte>)
    requires Holds(d, kind, h, p) && |h| + |p| < 0x1_0000_0000
    ensures d.bytes == Frame(kind, h + p)
  {
    hide FromU32, Preamble;
  }

  /** In whatever order one message header and any number of payloads are added, the message is the
      same: the network header, the message header, the payloads. */
  lemma {:induction false} OrderDoesNotMatter(kind: byte, parts: seq<Part>)
    requires HeaderCount(parts) <= 1 && |Headers(parts)| + |Payloads(parts)| < 0x1_0000_0000
    ensures Build(Empty(kind), parts).bytes == Frame(kind, Headers(parts) + Payloads(parts))
  {
    hide *;
    EmptyHolds(kind);
    BuildWithHeader(Empty(kind), kind, [], parts);
    assert [] + Payloads(parts) == Payloads(parts);
    HeldIsFrame(Build(Empty(kind), parts), kind, Headers(parts), Payloads(parts));
  }

  // ---------- Reading a message through an overlay ----------

  /** The bytes of the message header an overlay of `size` bytes shows. */
  function HeaderView(m: seq<byte>, size: nat): seq<byte>
    requires |m| >= HEADER_SIZE + size
  {
    m[HEADER_SIZE..HEADER_SIZE + size]
  }

  /** `to_vector()`: from the end of the message header to where the size field says the payload ends. */
  function PayloadView(m: seq<byte>, size: nat): seq<byte>
    requires |m| >= HEADER_SIZE && size <= PayloadSizeField(m) <= |m| - HEADER_SIZE
  {
    m[HEADER_SIZE + size..HEADER_SIZE + PayloadSizeField(m)]
  }

  /** What was put into a message comes back out of it. */
  lemma ViewsRecoverParts(kind: byte, h: seq<byte>, p: seq<byte>)
    requires |h| + |p| < 0x1_0000_0000
    ensures var m := Frame(kind, h + p);
            && PayloadSizeField(m) == |m| - HEADER_SIZE
            && HeaderView(m, |h|) == h && PayloadView(m, |h|) == p
  {
    FrameParts(kind, h + p);
    var m := Frame(kind, h + p);
    assert m[22..] == h + p;
    assert m[22..22 + |h|] == m[22..][..|h|] == h;
    assert m[22 + |h|..22 + |h| + |p|] == m[22..][|h|..] == p;
  }

  // ---------- The object ----------

  class Message {
    var data: array<byte>
    var hasProtobuf: bool

    ghost function Value(): Draft
      reads this, data
    {
      Draft(data[..], hasProtobuf)
    }

    /** There is a network header, and once there is a payload its size field is right. */
    ghost predicate Valid()
      reads this, data
    {
      data.Length >= HEADER_SIZE && (hasProtobuf ==> PayloadSizeField(data[..]) == data.Length - HEADER_SIZE)
    }

    constructor ()
      ensures Valid() && fresh(data) && Value() == Empty(0)
    {
      data := new byte[22](_ => 0);
      hasProtobuf := false;
      new;
      AddSignature();
      data[16] := VERSION;
      assert data[..] == Empty(0).bytes;
    }

    constructor FromBuffer(message: seq<byte>)
      ensures fresh(data) && data[..] == message && !hasProtobuf
    {
      data := new byte[|message|](i requires 0 <= i < |message| => message[i]);
      hasProtobuf := false;
    }

    method Replace(src: seq<byte>)
      modifies this`data
      ensures fresh(data) && data[..] == src && hasProtobuf == old(hasProtobuf)
    {
      data := new byte[|src|](i requires 0 <= i < |src| => src[i]);
    }

    method AddSignature()
      requires data.Length >= 16
      modifies data
      ensures data[..] == SIGNATURE + old(data[..])[16..]
    {
      for i := 0 to 16
        invariant forall k :: 0 <= k < i ==> data[k] == SIGNATURE[k]
        invariant forall k :: i <= k < data.Length ==> data[k] == old(data[k])
      {
        data[i] := SIGNATURE[i];
      }
    }

    method PayloadSize() returns (size: u32)
      requires data.Length == 0 || data.Length >= HEADER_SIZE
      ensures size == if data.Length == 0 then 0 else PayloadSizeField(data[..])
    {
      if data.Length == 0 {
        return 0;
      }
      size := ToU32(data[18..22]);
      assert data[18..22] == data[..][18..22];
    }

    method IsValid() returns (valid: bool)
      requires data.Length == 0 || data.Length >= HEADER_SIZE
      ensures valid <==> data.Length != 0 && ValidHeader(data[..])
    {
      hide ToU32;
      if data.Length == 0 {
        return false;
      }
      var size := PayloadSize();
      assert data[..][..16] == data[..16];
      valid := data[..16] == SIGNATURE && data[16] == VERSION && data[17] <= 255 && size < LARGEST_PAYLOAD;
    }

    method UpdatePayloadSize()
      requires data.Length >= HEADER_SIZE
      modifies data
      ensures data[..] == WithSize(old(data[..]))
    {
      var size := FromU32((data.Length - HEADER_SIZE) % 0x1_0000_0000);
      data[18], data[19], data[20], data[21] := size[0], size[1], size[2], size[3];
      assert data[..][18..22] == size;
      assert data[..][..18] == old(data[..])[..18] && data[..][22..] == old(data[..])[22..];
      assert data[..] == data[..][..18] + data[..][18..22] + data[..][22..];
    }

    /** `vector::resize`: a new block, the old bytes and zeros. */
    method Resize(size: nat)
      requires size >= data.Length
      modifies this`data
      ensures fresh(data) && data[..] == old(data[..]) + Zeros(size - old(data.Length)) && hasProtobuf == old(hasProtobuf)
    {
      var was := data;
      data := new byte[size](i requires 0 <= i < size reads was => if i < was.Length then was[i] else 0);
    }

    /** `std::copy_backward` within one block: last byte first, so that source and target may overlap. */
    method CopyBackward(start: nat, finish: nat, target: nat)
      requires start <= finish <= target <= data.Length
      modifies data
      ensures data[..] == old(data[..])[..target - (finish - start)] + old(data[start..finish]) + old(data[..])[target..]
    {
      var from, to := finish, target;
      ghost var was := data[..];
      while from > start
        invariant start <= from <= finish && to - from == target - finish
        invariant forall k :: 0 <= k < to || target <= k < data.Length ==> data[k] == was[k]
        invariant forall k :: to <= k < target ==> data[k] == was[k - (target - finish)]
      {
        from, to := from - 1, to - 1;
        data[to] := data[from];
      }
      MovedBack(was, data[..], start, finish, target);
    }

    /** `std::copy` from elsewhere to position `at`. */
    method CopyIn(src: seq<byte>, at: nat)
      requires at + |src| <= data.Length
      modifies data
      ensures data[..] == old(data[..])[..at] + src + old(data[..])[at + |src|..]
    {
      for i := 0 to |src|
        invariant forall k :: 0 <= k < i ==> data[at + k] == src[k]
        invariant forall k :: 0 <= k < at || at + i <= k < data.Length ==> data[k] == old(data[k])
      {
        data[at + i] := src[i];
      }
    }

    method AppendHeader(header: seq<byte>)
      requires Valid() && data.Length + |header| - HEADER_SIZE < 0x1_0000_0000
      modifies this`data
      ensures fresh(data) && Valid() && Value() == AddHeader(old(Value()), header)
    {
      hide FromU32, ToU32, Zeros;
      ghost var was, h := data[..], |header|;
      Resize(data.Length + |header|);
      ghost var grown := data[..];
      assert grown[..22] == was[..22] && grown[22..] == was[22..] + Zeros(h);
      assert grown[18..22] == was[18..22];
      if hasProtobuf {
        var size := PayloadSize();
        assert size == |was| - 22 && data[22..22 + size] == grown[22..22 + size];
        CopyBackward(HEADER_SIZE, HEADER_SIZE + size, data.Length);
        MovedUp(was, grown, data[..], h);
      }
      ghost var moved := data[..];
      assert moved[..22] == was[..22];
      CopyIn(header, HEADER_SIZE);
      assert data[..] == was[..22] + header + moved[22 + h..];
      assert !hasProtobuf ==> moved[22 + h..] == (was[22..] + Zeros(h))[h..];
      UpdatePayloadSize();
      SizeIsRight(was[..22] + header + moved[22 + h..]);
    }

    method AppendPayload(protocolBuffer: seq<byte>)
      requires Valid() && data.Length + |protocolBuffer| - HEADER_SIZE < 0x1_0000_0000
      modifies this
      ensures fresh(data) && Valid() && Value() == AddPayload(old(Value()), protocolBuffer)
    {
      ghost var was := data[..];
      var at := data.Length;
      Resize(data.Length + |protocolBuffer|);
      CopyIn(protocolBuffer, at);
      assert data[..] == was + protocolBuffer;
      UpdatePayloadSize();
      SizeIsRight(was + protocolBuffer);
      hasProtobuf := true;
    }

    /** Hands over the bytes and leaves the message empty. */
    method Relinquish() returns (bytes: seq<byte>)
      requires data.Length >= 16
      modifies this`data, data
      ensures bytes == SIGNATURE + old(data[..])[16..]
      ensures data[..] == [] && fresh(data) && hasProtobuf == old(hasProtobuf)
    {
      AddSignature();
      bytes := data[..];
      data := new byte[0];
    }
  }

  lemma SizeIsRight(m: seq<byte>)
    requires HEADER_SIZE <= |m| && |m| - HEADER_SIZE < 0x1_0000_0000
    ensures PayloadSizeField(WithSize(m)) == |m| - HEADER_SIZE
  {
    U32RoundTrip(|m| - HEADER_SIZE);
    assert WithSize(m)[18..22] == FromU32(|m| - HEADER_SIZE);
  }

  /** Room for `h` bytes was added at the end, and what follows the network header was moved there. */
  lemma MovedUp(was: seq<byte>, grown: seq<byte>, moved: seq<byte>, h: nat)
    requires |was| >= 22 && |grown| == |was| + h && grown[..22] == was[..22] && grown[22..] == was[22..] + Zeros(h)
    requires moved == grown[..22 + h] + grown[22..|was|] + grown[|was| + h..]
    ensures moved[..22] == was[..22] && moved[22 + h..] == was[22..]
  {
    assert grown[22..|was|] == grown[22..][..|was| - 22];
  }

  lemma MovedBack(was: seq<byte>, now: seq<byte>, start: nat, finish: nat, target: nat)
    requires start <= finish <= target <= |was| == |now|
    requires forall k :: 0 <= k < target - (finish - start) || target <= k < |was| ==> now[k] == was[k]
    requires forall k :: target - (finish - start) <= k < target ==> now[k] == was[k - (target - finish)]
    ensures now == was[..target - (finish - start)] + was[start..finish] + was[target..]
  {
    var to := target - (finish - start);
    assert now[..to] == was[..to] && now[target..] == was[target..];
    assert now[to..target] == was[start..finish];
    assert now == now[..to] + now[to..target] + now[target..];
  }
}
