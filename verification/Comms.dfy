/**
 Length-prefixed messages over a stream socket that delivers whatever fragments it likes.
 */
module Comms {
  import opened Wrappers
  import opened Bytes

  const HEADER := 4

  /** One end of a connection: what has been written to it, and what it can still be read. */
  class Socket {
    var incoming: Data
    var outgoing: Data

    constructor (incoming: Data)
      ensures this.incoming == incoming && outgoing == []
    {
      this.incoming, outgoing := incoming, [];
    }

    method SendAll(data: Data)
      modifies this`outgoing
      ensures outgoing == old(outgoing) + data
    {
      outgoing := outgoing + data;
    }

    /** Some non-empty piece of at most `count` bytes, or nothing once the peer has closed. */
    method Recv(count: nat) returns (piece: Data)
      requires count > 0
      modifies this`incoming
      ensures piece + incoming == old(incoming)
      ensures |piece| <= count
      ensures piece == [] <==> old(incoming) == []
    {
      if incoming == [] {
        return [];
      }
      var n :| 1 <= n <= count && n <= |incoming|;
      piece := incoming[..n];
      incoming := incoming[n..];
    }
  }

  // ------------------------------------------------------------------ the wire format

  predicate Sendable(data: Data) {
    |data| < Pow256(HEADER)
  }

  function Frame(data: Data): Data {
    BigEndian(|data|, HEADER) + data
  }

  /** A message that fits in 32 bits travels behind its length in four bytes, most significant first. */
  lemma FrameLayout(data: Data)
    ensures Sendable(data) <==> |data| < 0x1_0000_0000
    ensures |Frame(data)| == 4 + |data| && Frame(data)[4..] == data
    ensures var f := Frame(data);
            Sendable(data) ==>
              0x100_0000 * f[0] as int + 0x1_0000 * f[1] as int + 0x100 * f[2] as int + f[3] as int == |data|
  {
    assert Pow256(4) == 256 * Pow256(3) && Pow256(3) == 256 * Pow256(2) && Pow256(2) == 256 * Pow256(1);
    assert Pow256(1) == 256 * Pow256(0);
    var n, f := |data|, Frame(data);
    LastByte(n, 4);
    LastByte(n / 256, 3);
    LastByte(n / 256 / 256, 2);
    LastByte(n / 256 / 256 / 256, 1);
    assert f[..4] == BigEndian(n, 4);
    assert f[3] == n % 256 && f[2] == n / 256 % 256;
    assert f[1] == n / 256 / 256 % 256 && f[0] == n / 256 / 256 / 256 % 256;
  }

  lemma LastByte(n: nat, k: nat)
    requires k > 0
    ensures BigEndian(n, k)[k - 1] == n % 256
    ensures forall i | 0 <= i < k - 1 :: BigEndian(n, k)[i] == BigEndian(n / 256, k - 1)[i]
  {
  }

  function Frames(messages: seq<Data>): Data {
    if messages == [] then [] else Frame(messages[0]) + Frames(messages[1..])
  }

  /** What reading `count` bytes yields and leaves: all of them, or nothing and an empty stream. */
  function Chunk(stream: Data, count: nat): (Option<Data>, Data) {
    if |stream| >= count then (Some(stream[..count]), stream[count..]) else (None, [])
  }

  /** What receiving one message yields and leaves. */
  function Parse(stream: Data): (Option<Data>, Data) {
    var (header, rest) := Chunk(stream, HEADER);
    match header
    case None => (None, [])
    case Some(h) => Chunk(rest, Decode(h))
  }

  // ------------------------------------------------------------------ send and receive

  /** A length that does not fit the header is refused before anything is written. */
  method SendMessage(sock: Socket, data: Data) returns (sent: bool)
    modifies sock`outgoing
    ensures sent == Sendable(data)
    ensures sock.outgoing == old(sock.outgoing) + if sent then Frame(data) else []
  {
    if |data| >= Pow256(HEADER) {
      return false;
    }
    sock.SendAll(BigEndian(|data|, HEADER));
    sock.SendAll(data);
    sent := true;
  }

  /** Reads exactly `count` bytes however they are fragmented, or gives up at the end of the stream. */
  method RecvAll(sock: Socket, count: nat) returns (r: Option<Data>)
    modifies sock`incoming
    ensures (r, sock.incoming) == Chunk(old(sock.incoming), count)
  {
    var buf: Data := [];
    var left: nat := count;
    while left > 0
      invariant |buf| + left == count
      invariant buf + sock.incoming == old(sock.incoming)
    {
      var piece := sock.Recv(left);
      if piece == [] {
        return None;
      }
      buf := buf + piece;
      left := left - |piece|;
    }
    assert old(sock.incoming)[..count] == buf && old(sock.incoming)[count..] == sock.incoming;
    return Some(buf);
  }

  /** The outcome depends on the bytes alone, not on how the socket cuts them up. */
  method RecvMessage(sock: Socket) returns (r: Option<Data>)
    modifies sock`incoming
    ensures (r, sock.incoming) == Parse(old(sock.incoming))
  {
    var header := RecvAll(sock, HEADER);
    if header == None {
      return None;
    }
    r := RecvAll(sock, Decode(header.value));
  }

  // ------------------------------------------------------------------ whole conversations

  /** The results of k successive receives. */
  function Receives(stream: Data, k: nat): (r: seq<Option<Data>>)
    ensures |r| == k
    decreases k
  {
    if k == 0 then [] else
      var (m, rest) := Parse(stream);
      [m] + Receives(rest, k - 1)
  }

  /** How many whole frames lie within the first `cut` bytes. */
  function Complete(messages: seq<Data>, cut: nat): (n: nat)
    ensures n <= |messages|
  {
    if messages == [] || |Frame(messages[0])| > cut then 0
    else 1 + Complete(messages[1..], cut - |Frame(messages[0])|)
  }

  lemma ParseFrame(data: Data, rest: Data)
    requires Sendable(data)
    ensures Parse(Frame(data) + rest) == (Some(data), rest)
  {
    var stream := Frame(data) + rest;
    DecodeBigEndian(|data|, HEADER);
    assert stream[..HEADER] == BigEndian(|data|, HEADER);
    assert stream[HEADER..] == data + rest;
  }

  /** A frame cut short yields no message and swallows the rest of the stream. */
  lemma ParseCutFrame(data: Data, cut: nat)
    requires Sendable(data) && cut < |Frame(data)|
    ensures Parse(Frame(data)[..cut]) == (None, [])
  {
    if cut >= HEADER {
      DecodeBigEndian(|data|, HEADER);
      assert Frame(data)[..cut][..HEADER] == BigEndian(|data|, HEADER);
    }
  }

  lemma {:induction false} ReceivesNothing(k: nat)
    ensures forall i | 0 <= i < k :: Receives([], k)[i] == None
  {
    if k > 0 { ReceivesNothing(k - 1); }
  }

  /**
   Receiving from any prefix of a framed conversation returns its complete messages in order and
   then nothing, for ever: never a partial or a wrong message.
   */
  lemma {:induction false} PrefixRoundTrip(messages: seq<Data>, cut: nat, k: nat)
    requires (forall m | m in messages :: Sendable(m)) && cut <= |Frames(messages)|
    ensures var got := Receives(Frames(messages)[..cut], k);
            forall i | 0 <= i < k ::
              got[i] == if i < Complete(messages, cut) then Some(messages[i]) else None
  {
    hide Frame, Parse;
    if k > 0 {
      if messages == [] {
        assert Frames(messages)[..cut] == [];
        ReceivesNothing(k);
      } else {
        var frame, tail := Frame(messages[0]), Frames(messages[1..]);
        if |frame| <= cut {
          assert Frames(messages)[..cut] == frame + tail[..cut - |frame|];
          ParseFrame(messages[0], tail[..cut - |frame|]);
          PrefixRoundTrip(messages[1..], cut - |frame|, k - 1);
        } else {
          assert Frames(messages)[..cut] == frame[..cut];
          ParseCutFrame(messages[0], cut);
          ReceivesNothing(k - 1);
        }
      }
    }
  }

  lemma {:induction false} WholeIsComplete(messages: seq<Data>)
    ensures Complete(messages, |Frames(messages)|) == |messages|
  {
    if messages != [] { WholeIsComplete(messages[1..]); }
  }

  /** What one side sends in order, empty messages included, the other receives in order. */
  lemma RoundTrip(messages: seq<Data>)
    requires forall m | m in messages :: Sendable(m)
    ensures Receives(Frames(messages), |messages|)
         == seq(|messages|, i requires 0 <= i < |messages| => Some(messages[i]))
  {
    hide Frames, Complete, Receives;
    var n := |Frames(messages)|;
    WholeIsComplete(messages);
    PrefixRoundTrip(messages, n, |messages|);
    assert Frames(messages)[..n] == Frames(messages);
  }

  /** A stream that holds the frames of what was sent so far still does after one more send. */
  lemma {:induction false} FramesAppend(messages: seq<Data>, m: Data)
    ensures Frames(messages + [m]) == Frames(messages) + Frame(m)
  {
    if messages == [] {
      assert messages + [m] == [m];
    } else {
      FramesAppend(messages[1..], m);
      assert (messages + [m])[1..] == messages[1..] + [m];
    }
  }
}
