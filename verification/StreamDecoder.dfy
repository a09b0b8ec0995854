/** What the read loop of cpp_17/network/tcp_radar_client.cpp makes of a stream of bytes: it slides
    one byte at a time until the next sixteen are the signature, then reads a header and the payload
    the header announces. */
module StreamDecoder {
  import opened Bytes
  import opened ColossusMessage
  import opened Sequences

  datatype Segment =
    | Message(bytes: seq<byte>)      // a whole message, delivered
    | BadHeader(bytes: seq<byte>)    // a signature followed by an invalid header, dropped
    | Skipped(bytes: seq<byte>)      // one byte where no signature was seen, dropped
    | Truncated(bytes: seq<byte>)    // the stream ended inside a message: the reader gives up

  predicate AtSignature(s: seq<byte>) {
    |s| >= 16 && s[..16] == SIGNATURE
  }

  /** How long the first segment of a stream that starts with a signature is. */
  function Announced(s: seq<byte>): nat
    requires |s| >= HEADER_SIZE
  {
    if ValidHeader(s[..HEADER_SIZE]) then HEADER_SIZE + PayloadSizeField(s[..HEADER_SIZE]) else HEADER_SIZE
  }

  function First(s: seq<byte>): (g: Segment)
    requires s != []
    ensures g.bytes != [] && |g.bytes| <= |s| && s[..|g.bytes|] == g.bytes
    ensures g.Truncated? ==> g.bytes == s
  {
    if !AtSignature(s) then Skipped(s[..1])
    else if |s| < HEADER_SIZE then assert s[..|s|] == s; Truncated(s)
    else if !ValidHeader(s[..HEADER_SIZE]) then BadHeader(s[..HEADER_SIZE])
    else if |s| < Announced(s) then assert s[..|s|] == s; Truncated(s)
    else Message(s[..Announced(s)])
  }

  function Decode(s: seq<byte>): seq<Segment> {
    if s == [] then [] else [First(s)] + Decode(s[|First(s).bytes|..])
  }

  function Messages(gs: seq<Segment>): seq<seq<byte>> {
    if gs == [] then []
    else (if gs[0].Message? then [gs[0].bytes] else []) + Messages(gs[1..])
  }

  function Flatten(gs: seq<Segment>): seq<byte> {
    if gs == [] then [] else gs[0].bytes + Flatten(gs[1..])
  }

  lemma {:induction false} MessagesAppend(a: seq<Segment>, b: seq<Segment>)
    ensures Messages(a + b) == Messages(a) + Messages(b)
  {
    if a == [] {
      assert a + b == b;
    } else {
      MessagesAppend(a[1..], b);
      AppendToTail(a, b);
      Associate(if a[0].Message? then [a[0].bytes] else [], Messages(a[1..]), Messages(b));
    }
  }

  lemma {:induction false} FlattenAppend(a: seq<Segment>, b: seq<Segment>)
    ensures Flatten(a + b) == Flatten(a) + Flatten(b)
  {
    if a == [] {
      assert a + b == b;
    } else {
      FlattenAppend(a[1..], b);
      AppendToTail(a, b);
      Associate(a[0].bytes, Flatten(a[1..]), Flatten(b));
    }
  }

  // ---------- Every byte is accounted for ----------

  /** A segment keeps the promise of its kind. */
  predicate Honest(g: Segment) {
    match g
    case Message(m) => WellFormed(m)
    case BadHeader(m) => |m| == HEADER_SIZE && m[..16] == SIGNATURE && !ValidHeader(m)
    case Skipped(m) => |m| == 1
    case Truncated(m) => |m| >= 16 && m[..16] == SIGNATURE
  }

  ghost predicate AllHonest(gs: seq<Segment>) {
    forall i :: 0 <= i < |gs| ==> Honest(gs[i]) && (gs[i].Truncated? ==> i == |gs| - 1)
  }

  lemma FirstIsHonest(s: seq<byte>)
    requires s != []
    ensures Honest(First(s))
  {
    hide SIGNATURE, ToU32;
    if AtSignature(s) && |s| >= HEADER_SIZE {
      var n := Announced(s);
      if |s| >= n {
        assert s[..n][..HEADER_SIZE] == s[..HEADER_SIZE];
        assert s[..n][18..22] == s[..HEADER_SIZE][18..22] && s[..n][..16] == s[..HEADER_SIZE][..16];
      }
      assert s[..HEADER_SIZE][..16] == s[..16];
    }
  }

  /** The segments partition the stream, and each is what its kind says. */
  lemma {:induction false} DecodePartitions(s: seq<byte>)
    ensures Flatten(Decode(s)) == s && AllHonest(Decode(s))
  {
    hide Honest, First;
    if s != [] {
      var g := First(s);
      FirstIsHonest(s);
      DecodePartitions(s[|g.bytes|..]);
      assert s == g.bytes + s[|g.bytes|..];
      var rest := Decode(s[|g.bytes|..]);
      forall i | 0 <= i < |Decode(s)| ensures Honest(Decode(s)[i]) && (Decode(s)[i].Truncated? ==> i == |Decode(s)| - 1) {
        if i > 0 {
          assert Decode(s)[i] == rest[i - 1];
        }
      }
    }
  }

  /** What comes first in a stream, byte by byte. */
  lemma FirstMeans(s: seq<byte>)
    requires s != []
    ensures var g := First(s);
            if |s| < 16 || s[..16] != [0, 1, 3, 3, 7, 7, 15, 15, 31, 31, 63, 63, 127, 127, 254, 254] then g == Skipped([s[0]])
            else if |s| < 22 then g == Truncated(s)
            else
              var n := s[18] as int * 16777216 + s[19] as int * 65536 + s[20] as int * 256 + s[21] as int;
              if s[16] != 1 || n >= 1000000 then g == BadHeader(s[..22])
              else if |s| < 22 + n then g == Truncated(s)
              else g == Message(s[..22 + n])
  {
    if |s| >= 22 {
      var m := s[..22];
      ValidHeaderIff(m);
      SizeFieldBytes(m);
      assert m[..16] == s[..16];
    }
    hide ValidHeader, PayloadSizeField;
    assert s[..1] == [s[0]];
  }

  /** A message on the wire, byte by byte, is what the first segment is when it comes next. */
  lemma WireMessageIsFirst(kind: byte, payload: seq<byte>, rest: seq<byte>)
    requires |payload| < 1000000
    ensures var n := |payload|;
            var m := [0, 1, 3, 3, 7, 7, 15, 15, 31, 31, 63, 63, 127, 127, 254, 254, 1, kind,
                      n / 16777216, n / 65536 % 256, n / 256 % 256, n % 256] + payload;
            AtSignature(m + rest) && First(m + rest) == Message(m)
  {
    FrameBytes(kind, payload);
    ItemIsDecoded(Good(kind, payload), rest);
    hide Frame, First;
    assert Decode(Frame(kind, payload) + rest)[0] == First(Frame(kind, payload) + rest);
  }

  /** In particular a header whose size bytes are 0, 0, 0 and `k` announces exactly `k` bytes of payload. */
  lemma SmallMessageIsFirst(kind: byte, payload: seq<byte>, rest: seq<byte>)
    requires |payload| < 256
    ensures var m := [0, 1, 3, 3, 7, 7, 15, 15, 31, 31, 63, 63, 127, 127, 254, 254, 1, kind, 0, 0, 0, |payload|] + payload;
            AtSignature(m + rest) && First(m + rest) == Message(m)
  {
    hide First;
    WireMessageIsFirst(kind, payload, rest);
  }

  // ---------- Resynchronisation ----------

  predicate ContainsSignature(s: seq<byte>) {
    exists i :: 0 <= i <= |s| && AtSignature(s[i..])
  }

  /** The signature starts with its only zero, so it cannot overlap itself. */
  lemma NoSelfOverlap(k: int)
    requires 0 < k < 16
    ensures SIGNATURE[k] != SIGNATURE[0]
  {}

  /** No signature is seen in noise, not even one that would run over into a signature after it. */
  lemma NoiseIsNotSignature(noise: seq<byte>, rest: seq<byte>)
    requires noise != [] && !ContainsSignature(noise) && (rest == [] || AtSignature(rest))
    ensures !AtSignature(noise + rest)
  {
    var s, k := noise + rest, |noise|;
    if k >= 16 {
      assert s[..16] == noise[..16] && noise[0..] == noise;
      assert !AtSignature(noise[0..]);
    } else if rest != [] {
      NoSelfOverlap(k);
      assert s[k] == rest[0] == rest[..16][0] == SIGNATURE[0];
      assert |s| >= 16 ==> s[..16][k] == s[k];
    }
  }

  function Skips(noise: seq<byte>): seq<Segment> {
    if noise == [] then [] else [Skipped(noise[..1])] + Skips(noise[1..])
  }

  lemma {:induction false} SkipsHoldNoMessage(noise: seq<byte>)
    ensures Messages(Skips(noise)) == []
  {
    if noise != [] {
      SkipsHoldNoMessage(noise[1..]);
      assert Skips(noise)[1..] == Skips(noise[1..]);
    }
  }

  lemma {:induction false} NoiseIsSkipped(noise: seq<byte>, rest: seq<byte>)
    requires !ContainsSignature(noise) && (rest == [] || AtSignature(rest))
    ensures Decode(noise + rest) == Skips(noise) + Decode(rest)
  {
    hide *;
    if noise == [] {
      NoSkips();
      assert noise + rest == rest && [] + Decode(rest) == Decode(rest);
    } else {
      NoiseIsNotSignature(noise, rest);
      TailOfNoise(noise);
      NoiseIsSkipped(noise[1..], rest);
      AppendToTail(noise, rest);
      assert (noise + rest)[..1] == noise[..1];
      DecodeSkips(noise + rest);
      SkipsUnfold(noise);
      Associate([Skipped(noise[..1])], Skips(noise[1..]), Decode(rest));
    }
  }

  lemma NoSkips()
    ensures Skips([]) == []
  {}

  lemma {:induction false} SkipsUnfold(noise: seq<byte>)
    requires noise != []
    ensures Skips(noise) == [Skipped(noise[..1])] + Skips(noise[1..])
  {}

  lemma {:induction false} DecodeSkips(s: seq<byte>)
    requires s != [] && !AtSignature(s)
    ensures Decode(s) == [Skipped(s[..1])] + Decode(s[1..])
  {
    hide AtSignature;
  }

  lemma TailOfNoise(noise: seq<byte>)
    requires noise != [] && !ContainsSignature(noise)
    ensures !ContainsSignature(noise[1..])
  {
    hide AtSignature;
    forall i | 0 <= i <= |noise[1..]| ensures !AtSignature(noise[1..][i..]) {
      assert noise[1..][i..] == noise[i + 1..];
    }
  }

  /** What may follow noise: a message, or a signature whose header is not valid. */
  datatype Item = Good(kind: byte, payload: seq<byte>) | Bad(header: seq<byte>)

  predicate Proper(item: Item) {
    match item
    case Good(_, payload) => |payload| < LARGEST_PAYLOAD
    case Bad(h) => |h| == HEADER_SIZE && h[..16] == SIGNATURE && !ValidHeader(h)
  }

  function ItemBytes(item: Item): seq<byte>
    requires Proper(item)
  {
    match item
    case Good(kind, payload) => Frame(kind, payload)
    case Bad(h) => h
  }

  function ItemSegment(item: Item): Segment
    requires Proper(item)
  {
    match item
    case Good(kind, payload) => Message(Frame(kind, payload))
    case Bad(h) => BadHeader(h)
  }

  lemma {:induction false} ItemIsDecoded(item: Item, rest: seq<byte>)
    requires Proper(item)
    ensures AtSignature(ItemBytes(item) + rest)
    ensures Decode(ItemBytes(item) + rest) == [ItemSegment(item)] + Decode(rest)
  {
    hide SIGNATURE, Frame, ToU32;
    var m := ItemBytes(item);
    var s := m + rest;
    if item.Good? {
      FrameParts(item.kind, item.payload);
    }
    assert s[..HEADER_SIZE] == m[..HEADER_SIZE] && s[..16] == m[..16] == m[..HEADER_SIZE][..16];
    assert m[..HEADER_SIZE][18..22] == m[18..22];
    assert s[..|m|] == m && s[|m|..] == rest;
    if item.Bad? {
      assert m[..HEADER_SIZE] == m;
    }
    assert First(s) == ItemSegment(item);
  }

  /** A stream of noise and items. */
  datatype Block = Block(noise: seq<byte>, item: Item)

  ghost predicate ProperStream(blocks: seq<Block>) {
    forall i :: 0 <= i < |blocks| ==> !ContainsSignature(blocks[i].noise) && Proper(blocks[i].item)
  }

  ghost function StreamOf(blocks: seq<Block>, tail: seq<byte>): seq<byte>
    requires ProperStream(blocks)
  {
    if blocks == [] then tail else blocks[0].noise + (ItemBytes(blocks[0].item) + StreamOf(blocks[1..], tail))
  }

  ghost function Sent(blocks: seq<Block>): seq<seq<byte>>
    requires ProperStream(blocks)
  {
    if blocks == [] then []
    else (if blocks[0].item.Good? then [ItemBytes(blocks[0].item)] else []) + Sent(blocks[1..])
  }

  /** What is cut from the blocks, and then `ending`. */
  ghost function Segments(blocks: seq<Block>, ending: seq<Segment>): seq<Segment>
    requires ProperStream(blocks)
  {
    if blocks == [] then ending
    else Skips(blocks[0].noise) + ([ItemSegment(blocks[0].item)] + Segments(blocks[1..], ending))
  }

  /** The end of a stream: noise, and an item of which the last bytes have not arrived. */
  ghost predicate CutShort(item: Item, cut: seq<byte>) {
    Proper(item) && |cut| < |ItemBytes(item)| && cut == ItemBytes(item)[..|cut|]
  }

  /** An item cut inside its signature looks like noise, later it is a truncated message. */
  ghost function Ending(noise: seq<byte>, cut: seq<byte>): seq<Segment> {
    if |cut| < 16 then Skips(noise + cut) else Skips(noise) + [Truncated(cut)]
  }

  lemma ItemStart(item: Item)
    requires Proper(item)
    ensures |ItemBytes(item)| >= HEADER_SIZE && ItemBytes(item)[..16] == SIGNATURE
    ensures item.Bad? ==> |ItemBytes(item)| == HEADER_SIZE
    ensures item.Good? ==>
              ValidHeader(ItemBytes(item)[..HEADER_SIZE])
              && PayloadSizeField(ItemBytes(item)[..HEADER_SIZE]) == |ItemBytes(item)| - HEADER_SIZE
  {
    hide SIGNATURE, Frame, ToU32;
    if item.Good? {
      FrameParts(item.kind, item.payload);
      var m := ItemBytes(item);
      assert m[..HEADER_SIZE][..16] == m[..16] && m[..HEADER_SIZE][18..22] == m[18..22];
    }
  }

  /** A cut inside the signature adds no signature to noise. */
  lemma ShortCutIsNoise(noise: seq<byte>, item: Item, cut: seq<byte>)
    requires !ContainsSignature(noise) && CutShort(item, cut) && |cut| < 16
    ensures !ContainsSignature(noise + cut)
  {
    forall i | 0 <= i <= |noise + cut| ensures !AtSignature((noise + cut)[i..]) {
      NoSignatureAcross(noise, item, cut, i);
    }
  }

  lemma NoSignatureAcross(noise: seq<byte>, item: Item, cut: seq<byte>, i: nat)
    requires !ContainsSignature(noise) && CutShort(item, cut) && |cut| < 16 && i <= |noise + cut|
    ensures !AtSignature((noise + cut)[i..])
  {
    hide SIGNATURE, ItemBytes, Proper;
    ItemStart(item);
    var t, k := (noise + cut)[i..], |noise| - i;
    if k >= 16 {
      assert !AtSignature(noise[i..]);
      assert t[..16] == noise[i..][..16];
    } else if |t| >= 16 {
      assert t[..16][k] == cut[0] == ItemBytes(item)[..16][0] == SIGNATURE[0];
      NoSelfOverlap(k);
    }
  }

  /** A cut after the signature leaves a truncated message. */
  lemma LongCutIsTruncated(item: Item, cut: seq<byte>)
    requires CutShort(item, cut) && |cut| >= 16
    ensures AtSignature(cut) && First(cut) == Truncated(cut)
  {
    hide SIGNATURE, ItemBytes, Proper, PayloadSizeField, ValidHeader;
    ItemStart(item);
    var m := ItemBytes(item);
    assert cut[..16] == m[..16];
    if |cut| >= HEADER_SIZE {
      assert cut[..HEADER_SIZE] == m[..HEADER_SIZE];
    }
  }

  lemma {:induction false} EndingIsDecoded(noise: seq<byte>, item: Item, cut: seq<byte>)
    requires !ContainsSignature(noise) && CutShort(item, cut)
    ensures Decode(noise + cut) == Ending(noise, cut) && Messages(Ending(noise, cut)) == []
  {
    hide ContainsSignature, CutShort, First, AtSignature;
    if |cut| < 16 {
      ShortCutIsNoise(noise, item, cut);
      NoiseIsSkipped(noise + cut, []);
      SkipsHoldNoMessage(noise + cut);
      assert (noise + cut) + [] == noise + cut && Skips(noise + cut) + [] == Skips(noise + cut);
    } else {
      LongCutIsTruncated(item, cut);
      NoiseIsSkipped(noise, cut);
      SkipsHoldNoMessage(noise);
      MessagesAppend(Skips(noise), [Truncated(cut)]);
      assert cut[|cut|..] == [] && [Truncated(cut)][1..] == [];
      assert Decode(cut) == [Truncated(cut)];
    }
  }

  /** Exact decoding: from noise that holds no signature, messages with any payload, and invalid
      headers, in any order, the loop recovers precisely the messages, byte for byte and in order,
      also when the stream ends inside an item. */
  lemma {:induction false} DecodesExactly(blocks: seq<Block>, noise: seq<byte>, item: Item, cut: seq<byte>)
    requires ProperStream(blocks) && !ContainsSignature(noise) && CutShort(item, cut)
    ensures Decode(StreamOf(blocks, noise + cut)) == Segments(blocks, Ending(noise, cut))
    ensures Messages(Decode(StreamOf(blocks, noise + cut))) == Sent(blocks)
  {
    hide ContainsSignature, Proper, Frame, First, AtSignature, ItemBytes, ItemSegment, Ending, CutShort;
    if blocks == [] {
      EndingIsDecoded(noise, item, cut);
    } else {
      var b, rest := blocks[0], StreamOf(blocks[1..], noise + cut);
      DecodesExactly(blocks[1..], noise, item, cut);
      ItemIsDecoded(b.item, rest);
      NoiseIsSkipped(b.noise, ItemBytes(b.item) + rest);
      SkipsHoldNoMessage(b.noise);
      var segment, later := ItemSegment(b.item), Segments(blocks[1..], Ending(noise, cut));
      MessagesAppend(Skips(b.noise), [segment] + later);
      ItemMessage(b.item, later);
      assert [] + Messages([segment] + later) == Messages([segment] + later);
    }
  }

  lemma {:induction false} ItemMessage(item: Item, later: seq<Segment>)
    requires Proper(item)
    ensures Messages([ItemSegment(item)] + later) == (if item.Good? then [ItemBytes(item)] else []) + Messages(later)
  {
    hide Frame, ValidHeader;
    assert ([ItemSegment(item)] + later)[1..] == later;
  }

  // ---------- Peeks that come in pieces ----------

  /** What the loop cuts from a stream when the k-th peek starts with a piece of `pieces[k]` bytes: it
      sees a signature only where there is one and the peek was whole. */
  function Read(s: seq<byte>, pieces: seq<nat>): seq<Segment>
    decreases |pieces|
  {
    if s == [] || pieces == [] then []
    else
      var g := if AtSignature(s) && pieces[0] == 16 then First(s) else Skipped(s[..1]);
      [g] + Read(s[|g.bytes|..], pieces[1..])
  }

  /** No peek made at a signature came in pieces. */
  predicate WholeAtSignatures(s: seq<byte>, pieces: seq<nat>)
    decreases |pieces|
  {
    if s == [] || pieces == [] then true
    else
      var g := if AtSignature(s) && pieces[0] == 16 then First(s) else Skipped(s[..1]);
      (AtSignature(s) ==> pieces[0] == 16) && WholeAtSignatures(s[|g.bytes|..], pieces[1..])
  }

  /** The stream is cut as the reference decoder cuts it exactly when that is so: a signature once
      missed is not made up for. */
  lemma {:induction false} ReadIsDecodeIff(s: seq<byte>, pieces: seq<nat>)
    requires Flatten(Read(s, pieces)) == s
    ensures Read(s, pieces) == Decode(s) <==> WholeAtSignatures(s, pieces)
    decreases |pieces|
  {
    hide AtSignature;
    if s != [] {
      var g := if AtSignature(s) && pieces[0] == 16 then First(s) else Skipped(s[..1]);
      var rest := s[|g.bytes|..];
      assert Read(s, pieces) == [g] + Read(rest, pieces[1..]);
      assert Flatten(Read(s, pieces)) == g.bytes + Flatten(Read(rest, pieces[1..]));
      ReadIsDecodeIff(rest, pieces[1..]);
      FirstSkips(s);
      assert Decode(s)[0] == First(s);
      if g == First(s) {
        assert Decode(s)[1..] == Decode(rest) && Read(s, pieces)[1..] == Read(rest, pieces[1..]);
      } else {
        assert Read(s, pieces)[0] != Decode(s)[0];
      }
    }
  }

  lemma FirstSkips(s: seq<byte>)
    requires s != []
    ensures First(s) == Skipped(s[..1]) <==> !AtSignature(s)
  {}

  /** One more peek, made where the peeks before have got to. */
  lemma {:induction false} ReadMore(s: seq<byte>, pieces: seq<nat>, rest: seq<byte>, k: nat)
    requires |Read(s, pieces)| == |pieces| && Flatten(Read(s, pieces)) + rest == s
    ensures Read(s, pieces + [k]) == Read(s, pieces) + Read(rest, [k])
    decreases |pieces|
  {
    hide AtSignature, First;
    if pieces == [] {
      assert [] + [k] == [k] && [] + rest == rest && [] + Read(rest, [k]) == Read(rest, [k]);
    } else {
      var g := if AtSignature(s) && pieces[0] == 16 then First(s) else Skipped(s[..1]);
      var later := Read(s[|g.bytes|..], pieces[1..]);
      assert Read(s, pieces)[1..] == later;
      assert s[|g.bytes|..] == Flatten(later) + rest by {
        Associate(g.bytes, Flatten(later), rest);
        assert (g.bytes + (Flatten(later) + rest))[|g.bytes|..] == Flatten(later) + rest;
      }
      ReadMore(s[|g.bytes|..], pieces[1..], rest, k);
      AppendToTail(pieces, [k]);
      Associate([g], later, Read(rest, [k]));
    }
  }

  // ---------- More of the stream ----------

  /** Messages already decoded are not changed by what arrives later. */
  lemma {:induction false} LaterBytesTakeNothingBack(s: seq<byte>, more: seq<byte>)
    ensures Messages(Decode(s)) <= Messages(Decode(s + more))
  {
    hide First;
    if s == [] {
    } else {
      var g := First(s);
      if g.Truncated? {
        TruncatedIsLast(s);
      } else if g.Skipped? && AtSignature(s + more) {
        SkippedIsNoSignature(s);
        ShortStreamHasNoMessage(s, more);
      } else {
        FirstIsStable(s, more);
        var k := |g.bytes|;
        assert (s + more)[k..] == s[k..] + more;
        LaterBytesTakeNothingBack(s[k..], more);
        HeadOfDecode(s);
        HeadOfDecode(s + more);
      }
    }
  }

  lemma SkippedIsNoSignature(s: seq<byte>)
    requires s != [] && First(s).Skipped?
    ensures !AtSignature(s)
  {}

  lemma {:induction false} HeadOfDecode(s: seq<byte>)
    requires s != []
    ensures var g := First(s);
            Messages(Decode(s)) == (if g.Message? then [g.bytes] else []) + Messages(Decode(s[|g.bytes|..]))
  {
    hide First;
    assert Decode(s)[1..] == Decode(s[|First(s).bytes|..]);
  }

  lemma {:induction false} TruncatedIsLast(s: seq<byte>)
    requires s != [] && First(s).Truncated?
    ensures Messages(Decode(s)) == []
  {
    hide First;
    HeadOfDecode(s);
  }

  /** A segment that was complete stays what it was, unless a skipped byte turns out to start a signature. */
  lemma FirstIsStable(s: seq<byte>, more: seq<byte>)
    requires s != [] && !First(s).Truncated? && (First(s).Skipped? ==> !AtSignature(s + more))
    ensures First(s + more) == First(s)
  {
    hide SIGNATURE, ToU32;
    var t := s + more;
    assert |s| >= 16 ==> t[..16] == s[..16];
    assert |s| >= HEADER_SIZE ==> t[..HEADER_SIZE] == s[..HEADER_SIZE];
    assert forall k :: 0 <= k <= |s| ==> t[..k] == s[..k];
  }

  lemma LongEnoughToTell(s: seq<byte>, more: seq<byte>)
    ensures |s| >= 16 ==> AtSignature(s + more) == AtSignature(s)
  {
    hide SIGNATURE;
    assert |s| >= 16 ==> (s + more)[..16] == s[..16];
  }

  lemma {:induction false} ShortStreamHasNoMessage(s: seq<byte>, more: seq<byte>)
    requires !AtSignature(s) && AtSignature(s + more)
    ensures Messages(Decode(s)) == []
  {
    hide SIGNATURE;
    LongEnoughToTell(s, more);
    TooShortForMessage(s);
  }

  lemma {:induction false} TooShortForMessage(s: seq<byte>)
    requires |s| < 16
    ensures Messages(Decode(s)) == []
  {
    if s != [] {
      assert First(s) == Skipped(s[..1]);
      TooShortForMessage(s[1..]);
      HeadOfDecode(s);
    }
  }
}
