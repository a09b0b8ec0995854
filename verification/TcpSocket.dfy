/** `Tcp_socket::receive` of cpp_17/network/tcp_socket.cpp, over a socket that may hand out the stream
    in pieces of any size. */
module TcpSocket {
  import opened Bytes
  import opened ColossusMessage
  import opened StreamDecoder

  datatype ReceiveOption = Consume | Peek

  /** `p` consists of pieces that each start again at the front of `s`: what repeated peeks return. */
  predicate Restarts(s: seq<byte>, p: seq<byte>)
    decreases |p|
  {
    p == [] || exists k :: 0 < k <= |p| && k <= |s| && p[..k] == s[..k] && Restarts(s, p[k..])
  }

  /** What a peek returns: a first piece of `k` bytes and then others. */
  predicate InPieces(s: seq<byte>, p: seq<byte>, k: nat) {
    0 < k <= |p| && k <= |s| && p[..k] == s[..k] && Restarts(s, p[k..])
  }

  lemma {:induction false} OnePiece(s: seq<byte>, k: nat)
    requires 0 < k <= |s|
    ensures InPieces(s, s[..k], k)
  {
    assert s[..k][k..] == [];
    NoPieces(s);
  }

  lemma {:induction false} PiecesAppend(s: seq<byte>, p: seq<byte>, k: nat, more: nat)
    requires InPieces(s, p, k) && 0 < more <= |s|
    ensures InPieces(s, p + s[..more], k)
  {
    hide Restarts;
    var q := p + s[..more];
    assert q[..k] == p[..k] && q[k..] == p[k..] + s[..more];
    RestartsAppend(s, p[k..], more);
  }

  lemma {:induction false} RestartsAppend(s: seq<byte>, p: seq<byte>, k: nat)
    requires Restarts(s, p) && 0 < k <= |s|
    ensures Restarts(s, p + s[..k])
    decreases |p|
  {
    hide *;
    var q := p + s[..k];
    if p == [] {
      assert q[..k] == s[..k] && q[k..] == [];
      NoPieces(s);
      OnePieceMore(s, q, k);
    } else {
      var j := FirstPiece(s, p);
      RestartsAppend(s, p[j..], k);
      assert q[..j] == p[..j] && q[j..] == p[j..] + s[..k];
      OnePieceMore(s, q, j);
    }
  }

  lemma {:induction false} NoPieces(s: seq<byte>)
    ensures Restarts(s, [])
  {}

  lemma FirstPiece(s: seq<byte>, p: seq<byte>) returns (k: nat)
    requires Restarts(s, p) && p != []
    ensures 0 < k <= |p| && k <= |s| && p[..k] == s[..k] && Restarts(s, p[k..])
  {
    k :| 0 < k <= |p| && k <= |s| && p[..k] == s[..k] && Restarts(s, p[k..]);
  }

  lemma {:induction false} OnePieceMore(s: seq<byte>, p: seq<byte>, k: nat)
    requires 0 < k <= |p| && k <= |s| && p[..k] == s[..k] && Restarts(s, p[k..])
    ensures Restarts(s, p)
  {}

  /** A peek put together from pieces never looks like a signature; only a whole one can. */
  lemma {:induction false} PeekedSignatureIsReal(s: seq<byte>, p: seq<byte>, k: nat)
    requires InPieces(s, p, k) && p == SIGNATURE
    ensures AtSignature(s)
  {
    hide Restarts;
    if k < 16 {
      SecondPieceShows(s, p, k);
    }
  }

  /** A second piece starts with the first byte of the stream again. */
  lemma SecondPieceShows(s: seq<byte>, p: seq<byte>, k: nat)
    requires k < |p| && InPieces(s, p, k)
    ensures p[k] == p[0]
    ensures |p| == 16 && p[0] == SIGNATURE[0] ==> p != SIGNATURE
  {
    hide Restarts;
    var j := FirstPiece(s, p[k..]);
    assert p[k] == p[k..][..j][0] == s[..j][0] == s[..k][0] == p[..k][0] == p[0];
    if |p| == 16 {
      NoSelfOverlap(k);
    }
  }

  /** At a signature a peek finds it exactly when the first piece was all of it: a second piece would
      have to start with the signature's only zero. */
  lemma {:induction false} PeekFindsIff(s: seq<byte>, p: seq<byte>, k: nat)
    requires AtSignature(s) && |p| == 16 && InPieces(s, p, k)
    ensures p == SIGNATURE <==> k == 16
  {
    hide Restarts;
    if k < 16 {
      SecondPieceShows(s, p, k);
      assert p[0] == p[..k][0] == s[..k][0] == s[..16][0];
    } else {
      assert p[..16] == p;
    }
  }

  /** So every stream that starts with a signature can be peeked in a way that misses it. */
  lemma SplitPeekCanMiss(rest: seq<byte>)
    ensures AtSignature(SIGNATURE + rest)
    ensures var p := SIGNATURE[..1] + SIGNATURE[..15]; InPieces(SIGNATURE + rest, p, 1) && |p| == 16 && p != SIGNATURE
  {
    hide Restarts, InPieces;
    var s := SIGNATURE + rest;
    assert s[..16] == SIGNATURE && s[..1] == SIGNATURE[..1] && s[..15] == SIGNATURE[..15];
    OnePiece(s, 1);
    PiecesAppend(s, s[..1], 1, 15);
    PeekFindsIff(s, s[..1] + s[..15], 1);
  }

  class Socket {
    /** What the peer has sent and nobody has consumed yet. */
    var incoming: seq<byte>
    /** How long the first piece of each peek was that returned anything. */
    ghost var pieces: seq<nat>

    constructor (stream: seq<byte>)
      ensures incoming == stream && pieces == []
    {
      incoming, pieces := stream, [];
    }

    /** The system call: at the end of the stream 0, otherwise any number of bytes from the front. */
    method Recv(n: nat, option: ReceiveOption) returns (status: int, buf: seq<byte>)
      requires n > 0
      modifies this`incoming
      ensures old(incoming) == [] ==> status == 0 && buf == [] && incoming == []
      ensures old(incoming) != [] ==> 0 < status <= n && status <= |old(incoming)| && buf == old(incoming)[..status]
      ensures old(incoming) != [] ==> incoming == if option == Peek then old(incoming) else old(incoming)[status..]
    {
      if incoming == [] {
        return 0, [];
      }
      var most := if n < |incoming| then n else |incoming|;
      status :| 0 < status <= most;
      buf := incoming[..status];
      if option == Consume {
        incoming := incoming[status..];
      }
    }

    /** Adds the bytes received to `data`. A consuming call returns exactly the next bytes of the
        stream however it is split, or 0 when there are not enough. A peeking call starts again at the
        front with every piece. */
    method Receive(data: seq<byte>, bytesToRead: nat, option: ReceiveOption) returns (bytesRead: int,
                   received: seq<byte>)
      requires bytesToRead > 0
      modifies this`incoming, this`pieces
      ensures option == Consume && |old(incoming)| >= bytesToRead ==>
                && bytesRead == bytesToRead && received == data + old(incoming)[..bytesToRead]
                && incoming == old(incoming)[bytesToRead..]
      ensures option == Consume && |old(incoming)| < bytesToRead ==>
                bytesRead == 0 && received == data + old(incoming) && incoming == []
      ensures option == Consume || incoming == [] ==> pieces == old(pieces)
      ensures option == Peek ==> incoming == old(incoming)
      ensures option == Peek && incoming == [] ==> bytesRead == 0 && received == data
      ensures option == Peek && incoming != [] ==>
                && bytesRead == bytesToRead == |received| - |data| && received[..|data|] == data
                && |pieces| == |old(pieces)| + 1 && pieces == old(pieces) + [pieces[|old(pieces)|]]
                && InPieces(incoming, received[|data|..], pieces[|old(pieces)|])
    {
      hide Restarts;
      ghost var stream, first := incoming, 0;
      bytesRead, received := 0, data;
      while bytesRead < bytesToRead
        invariant 0 <= bytesRead <= bytesToRead && |received| == |data| + bytesRead && received[..|data|] == data
        invariant option == Consume ==>
                    bytesRead <= |stream| && received[|data|..] == stream[..bytesRead] && incoming == stream[bytesRead..]
        invariant option == Peek ==> incoming == stream
        invariant option == Peek && bytesRead > 0 ==> InPieces(stream, received[|data|..], first)
        invariant pieces == old(pieces)
      {
        var status, buf := Recv(bytesToRead - bytesRead, option);
        if status <= 0 {
          assert received == data + received[|data|..];
          return 0, received;
        }
        ghost var before := received;
        bytesRead := bytesRead + status;
        received := received + buf;
        assert received[|data|..] == before[|data|..] + buf;
        if option == Peek {
          if before == data {
            first := status;
            assert received[|data|..] == buf;
            OnePiece(stream, status);
          } else {
            PiecesAppend(stream, before[|data|..], first, status);
          }
        }
      }
      assert received == data + received[|data|..];
      if option == Peek {
        pieces := pieces + [first];
      }
    }
  }
}
