/** The reading side of cpp_17/network/tcp_radar_client.cpp: the read loop and `handle_data`. */
module TcpRadarClient {
  import opened Bytes
  import opened ColossusMessage
  import opened StreamDecoder
  import opened TcpSocket

  datatype ConnectionState = Disconnected | Connecting | Connected

  class Client {
    const socket: Socket
    var connectionState: ConnectionState
    var reading: bool
    var running: bool
    /** Everything handed to the receive queue, oldest first. */
    var enqueued: seq<seq<byte>>

    /** A client that has just connected. */
    constructor (socket: Socket)
      ensures this.socket == socket && reading && running && connectionState == Connected && enqueued == []
    {
      this.socket := socket;
      connectionState, reading, running, enqueued := Connected, true, true, [];
    }

    method SetConnectionState(state: ConnectionState)
      modifies this`connectionState
      ensures connectionState == if running then state else old(connectionState)
    {
      if !running {
        return;
      }
      connectionState := state;
    }

    /** Reads what follows a signature. It takes exactly the first segment off the stream, delivers it
        if it is a message, and fails if the stream ends inside it. */
    method HandleData() returns (ok: bool)
      requires reading && running && AtSignature(socket.incoming)
      modifies this`connectionState, this`enqueued, socket`incoming, socket`pieces
      ensures socket.pieces == old(socket.pieces)
      ensures ok <==> !First(old(socket.incoming)).Truncated?
      ensures socket.incoming == old(socket.incoming)[|First(old(socket.incoming)).bytes|..]
      ensures enqueued == old(enqueued) + Messages([First(old(socket.incoming))])
      ensures connectionState == if ok then old(connectionState) else Disconnected
    {
      hide SIGNATURE, ToU32, FromU32, Restarts, First, Messages, WithSize, AtSignature, ValidHeader, PayloadSizeField;
      ghost var s := socket.incoming;
      FirstAtSignature(s);
      var msg := new Message();
      var bytesRead, data := socket.Receive([], HEADER_SIZE, Consume);
      if bytesRead <= 0 || !reading || !running {
        SetConnectionState(Disconnected);
        return false;
      }
      assert data == s[..HEADER_SIZE];
      msg.Replace(data);
      var valid := msg.IsValid();
      var size := msg.PayloadSize();
      if valid && size != 0 {
        var bytesTransferred, payloadData := socket.Receive([], size, Consume);
        if bytesTransferred <= 0 || !reading || !running {
          SetConnectionState(Disconnected);
          return false;
        }
        assert payloadData == s[HEADER_SIZE..][..size];
        msg.AppendPayload(payloadData);
        var bytes := msg.Relinquish();
        Reassembled(s, size, bytes);
        enqueued := enqueued + [bytes];
      } else if valid {
        var bytes := msg.Relinquish();
        Unchanged(s, bytes);
        enqueued := enqueued + [bytes];
      }
      return true;
    }

    /** The read loop, until nothing is left to read: from then on the loop only spins, or, if the
        stream ended inside a message, it has stopped. However the network splits the stream, what is
        enqueued are honest messages cut out of it, and every other byte is accounted for. They are what
        the reference decoder cuts exactly when no peek made at a signature came in pieces. */
    method ReadThreadHandler() returns (ghost segments: seq<Segment>)
      requires reading && running
      modifies this`connectionState, this`enqueued, this`reading, socket`incoming, socket`pieces
      ensures socket.incoming == []
      ensures Flatten(segments) == old(socket.incoming) && AllHonest(segments)
      ensures enqueued == old(enqueued) + Messages(segments)
      ensures reading <==> segments == [] || !segments[|segments| - 1].Truncated?
      ensures connectionState == if reading then old(connectionState) else Disconnected
      ensures old(socket.pieces) <= socket.pieces
      ensures segments == Read(old(socket.incoming), socket.pieces[|old(socket.pieces)|..])
      ensures segments == Decode(old(socket.incoming))
              <==> WholeAtSignatures(old(socket.incoming), socket.pieces[|old(socket.pieces)|..])
    {
      hide *;
      segments := [];
      ghost var stream, before, pieces := socket.incoming, socket.pieces, [];
      NothingRead(stream);
      assert before + [] == before;
      var idle := false;
      while reading && running && !idle
        invariant running && Covered(stream, socket.incoming, segments)
        invariant socket.pieces == before + pieces && ReadsTo(stream, pieces, segments)
        invariant enqueued == old(enqueued) + Messages(segments)
        invariant reading <==> !EndsTruncated(segments)
        invariant connectionState == if reading then old(connectionState) else Disconnected
        invariant !reading || idle ==> socket.incoming == []
        decreases |socket.incoming|, reading, !idle
      {
        SignatureSize();
        var bytesRead, signature := socket.Receive([], |SIGNATURE|, Peek);
        if bytesRead == 0 {
          idle := true;
          continue;
        }
        ghost var s, first := socket.incoming, socket.pieces[|before + pieces|];
        PeekTells(s, signature, first);
        OneMorePeek(stream, s, pieces, segments, first);
        pieces := pieces + [first];
        assert socket.pieces == before + pieces;
        if signature != SIGNATURE {
          SkippedOne(stream, s, segments);
          bytesRead, signature := socket.Receive(signature, 1, Consume);
          segments := segments + [Skipped(s[..1])];
          // that byte has been peeked, so this read cannot have failed
          continue;
        }
        TookFirst(stream, s, segments);
        var ok := HandleData();
        segments := segments + [First(s)];
        if !ok || !reading || !running {
          SetConnectionState(Disconnected);
          reading := false;
        }
      }
      AllCovered(stream, segments);
      AllRead(stream, before, pieces, segments);
    }
  }

  lemma SignatureSize()
    ensures |SIGNATURE| == 16
  {}

  /** The segment a signature starts, case by case. */
  lemma FirstAtSignature(s: seq<byte>)
    requires AtSignature(s)
    ensures |s| < HEADER_SIZE ==> First(s) == Truncated(s)
    ensures |s| >= HEADER_SIZE && !ValidHeader(s[..HEADER_SIZE]) ==> First(s) == BadHeader(s[..HEADER_SIZE])
    ensures |s| >= HEADER_SIZE && ValidHeader(s[..HEADER_SIZE]) ==>
              var n := HEADER_SIZE + PayloadSizeField(s[..HEADER_SIZE]);
              First(s) == if |s| < n then Truncated(s) else Message(s[..n])
    ensures Messages([First(s)]) == if First(s).Message? then [First(s).bytes] else []
  {
    hide SIGNATURE, ToU32, ValidHeader;
    assert [First(s)][1..] == [];
  }

  /** A header without payload is delivered as it came. */
  lemma Unchanged(s: seq<byte>, bytes: seq<byte>)
    requires |s| >= HEADER_SIZE && ValidHeader(s[..HEADER_SIZE]) && bytes == SIGNATURE + s[..HEADER_SIZE][16..]
    ensures bytes == s[..HEADER_SIZE]
  {
    hide SIGNATURE, ToU32;
    SignatureSize();
    assert s[..HEADER_SIZE] == s[..HEADER_SIZE][..16] + s[..HEADER_SIZE][16..];
  }

  /** The header and the payload read separately, put together again, are what was on the stream. */
  lemma Reassembled(s: seq<byte>, size: nat, bytes: seq<byte>)
    requires |s| >= HEADER_SIZE + size && ValidHeader(s[..HEADER_SIZE]) && size == PayloadSizeField(s[..HEADER_SIZE])
    requires bytes == SIGNATURE + WithSize(s[..HEADER_SIZE] + s[HEADER_SIZE..][..size])[16..]
    ensures AtSignature(s) && First(s) == Message(bytes) && |bytes| == HEADER_SIZE + size
  {
    hide SIGNATURE, ToU32, FromU32;
    SignatureSize();
    var m := s[..HEADER_SIZE + size];
    assert s[..HEADER_SIZE] + s[HEADER_SIZE..][..size] == m;
    assert m[18..22] == s[..HEADER_SIZE][18..22] && m[..16] == s[..HEADER_SIZE][..16] == s[..16];
    U32BytesRoundTrip(m[18..22]);
    assert WithSize(m) == m;
    assert bytes == m;
  }

  predicate EndsTruncated(segments: seq<Segment>) {
    segments != [] && segments[|segments| - 1].Truncated?
  }

  /** The segments cut so far and the rest of the stream make up the whole stream. */
  ghost predicate Covered(stream: seq<byte>, rest: seq<byte>, segments: seq<Segment>) {
    && Flatten(segments) + rest == stream
    && AllHonest(segments)
    && (EndsTruncated(segments) ==> rest == [])
  }

  /** The segments are those the peeks so far lead to. */
  ghost predicate ReadsTo(stream: seq<byte>, pieces: seq<nat>, segments: seq<Segment>) {
    Read(stream, pieces) == segments && |segments| == |pieces|
  }

  lemma NothingRead(stream: seq<byte>)
    ensures Covered(stream, stream, []) && ReadsTo(stream, [], [])
    ensures Messages([]) == [] && !EndsTruncated([])
  {
    assert [] + stream == stream;
  }

  /** A peek is the signature exactly when there is one and it did not come in pieces. */
  lemma PeekTells(s: seq<byte>, peeked: seq<byte>, first: nat)
    requires |peeked| == 16 && InPieces(s, peeked[0..], first)
    ensures peeked == SIGNATURE <==> AtSignature(s) && first == 16
  {
    hide SIGNATURE, Restarts, InPieces;
    assert peeked[0..] == peeked;
    if peeked == SIGNATURE {
      PeekedSignatureIsReal(s, peeked, first);
    }
    if AtSignature(s) {
      PeekFindsIff(s, peeked, first);
      FirstPieceFits(s, peeked, first);
    }
  }

  lemma FirstPieceFits(s: seq<byte>, p: seq<byte>, k: nat)
    requires InPieces(s, p, k)
    ensures k <= |p|
  {}

  lemma {:induction false} OneMoreSegment(segments: seq<Segment>, g: Segment)
    requires AllHonest(segments) && !EndsTruncated(segments) && Honest(g)
    ensures AllHonest(segments + [g]) && EndsTruncated(segments + [g]) == g.Truncated?
    ensures Flatten(segments + [g]) == Flatten(segments) + g.bytes
    ensures Messages(segments + [g]) == Messages(segments) + Messages([g])
  {
    hide Honest;
    FlattenAppend(segments, [g]);
    MessagesAppend(segments, [g]);
    assert Flatten([g][1..]) == [];
    assert g.bytes + [] == g.bytes;
  }

  lemma {:induction false} SkippedOne(stream: seq<byte>, s: seq<byte>, segments: seq<Segment>)
    requires s != [] && Covered(stream, s, segments) && !EndsTruncated(segments)
    ensures Covered(stream, s[1..], segments + [Skipped(s[..1])]) && !EndsTruncated(segments + [Skipped(s[..1])])
    ensures Messages(segments + [Skipped(s[..1])]) == Messages(segments)
  {
    hide AllHonest, EndsTruncated, Flatten, Messages;
    OneMoreSegment(segments, Skipped(s[..1]));
    SkippedIsNoMessage(s[..1]);
    CutOff(Flatten(segments), s, 1);
    assert Messages(segments) + [] == Messages(segments);
  }

  lemma SkippedIsNoMessage(b: seq<byte>)
    ensures Messages([Skipped(b)]) == []
  {
    assert [Skipped(b)][1..] == [];
  }

  /** After one more peek there is one more segment. */
  lemma OneMorePeek(stream: seq<byte>, s: seq<byte>, pieces: seq<nat>, segments: seq<Segment>, first: nat)
    requires s != [] && Covered(stream, s, segments) && ReadsTo(stream, pieces, segments)
    ensures AtSignature(s) && first == 16 ==> ReadsTo(stream, pieces + [first], segments + [First(s)])
    ensures !(AtSignature(s) && first == 16) ==> ReadsTo(stream, pieces + [first], segments + [Skipped(s[..1])])
  {
    hide AtSignature, First, AllHonest, EndsTruncated, Flatten;
    ReadMore(stream, pieces, s, first);
    assert [first][1..] == [];
    var g := if AtSignature(s) && first == 16 then First(s) else Skipped(s[..1]);
    assert Read(s, [first]) == [g] + Read(s[|g.bytes|..], [first][1..]) == [g];
  }

  lemma {:induction false} TookFirst(stream: seq<byte>, s: seq<byte>, segments: seq<Segment>)
    requires s != [] && Covered(stream, s, segments) && !EndsTruncated(segments)
    ensures Covered(stream, s[|First(s).bytes|..], segments + [First(s)])
    ensures EndsTruncated(segments + [First(s)]) == First(s).Truncated?
    ensures Messages(segments + [First(s)]) == Messages(segments) + Messages([First(s)])
    ensures First(s).Truncated? ==> s[|First(s).bytes|..] == []
  {
    hide AllHonest, EndsTruncated, AtSignature, Flatten, Messages, First;
    FirstIsHonest(s);
    OneMoreSegment(segments, First(s));
    CutOff(Flatten(segments), s, |First(s).bytes|);
  }

  lemma CutOff(front: seq<byte>, s: seq<byte>, k: nat)
    requires k <= |s|
    ensures (front + s[..k]) + s[k..] == front + s
  {}

  lemma {:induction false} AllCovered(stream: seq<byte>, segments: seq<Segment>)
    requires Covered(stream, [], segments)
    ensures Flatten(segments) == stream && AllHonest(segments)
    ensures EndsTruncated(segments) <==> segments != [] && segments[|segments| - 1].Truncated?
  {
    hide AllHonest, Flatten;
    assert Flatten(segments) + [] == Flatten(segments);
  }

  lemma {:induction false} AllRead(stream: seq<byte>, before: seq<nat>, pieces: seq<nat>, segments: seq<Segment>)
    requires ReadsTo(stream, pieces, segments) && Flatten(segments) == stream
    ensures before <= before + pieces && (before + pieces)[|before|..] == pieces && segments == Read(stream, pieces)
    ensures segments == Decode(stream) <==> WholeAtSignatures(stream, pieces)
  {
    hide Read, Decode, Flatten, WholeAtSignatures;
    ReadIsDecodeIff(stream, pieces);
  }
}
