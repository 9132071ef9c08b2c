/**
 Splitting a UDP datagram: the engine may flush several handshake packets into
 one datagram, so the known handshake shapes are cut off one by one and anything
 else takes the rest.
 */
module UdpSplit {
  import opened Bits
  import opened Framing
  import Opcodes

  const HELLO_SUB_VERSION: Byte := 0
  const HELLO_SUB_CONFIG: Byte := 1
  const HELLO_SUB_CONFIRM: Byte := 2
  const HELLO_SUB_VERIFIED: Byte := 3
  const HELLO_SUB_NONE: Byte := 0xFF
  const HELLO_THERE_HEADER := 3
  const HELLO_CONFIG_HEADER := 4
  const HELLO_VERSION_LEN := 6
  const HELLO_SHORT_LEN := 2

  /** A header ending in a 16-bit length, plus that many bytes, as far as the data goes. */
  function StringPacketLength(data: seq<Byte>, header: nat): (n: nat)
    requires header >= 2
    ensures n <= |data|
    ensures n < |data| ==> n >= header
  {
    if |data| < header then |data| else Min(header + FromBigEndian(data[header - 2..]), |data|)
  }

  /** The length of the first packet of a datagram. */
  function FirstUdpPacketLength(data: seq<Byte>): (n: nat)
    ensures n <= |data|
    ensures data != [] ==> n > 0
  {
    if data == [] then 0
    else if data[0] == Opcodes.HELLO_THERE then StringPacketLength(data, HELLO_THERE_HEADER)
    else if data[0] != Opcodes.HELLO then |data|
    else
      var sub := if |data| >= HELLO_SHORT_LEN then data[1] else HELLO_SUB_NONE;
      if sub == HELLO_SUB_CONFIG then StringPacketLength(data, HELLO_CONFIG_HEADER)
      else if sub == HELLO_SUB_VERSION then Min(|data|, HELLO_VERSION_LEN)
      else if sub == HELLO_SUB_CONFIRM || sub == HELLO_SUB_VERIFIED then Min(|data|, HELLO_SHORT_LEN)
      else |data|
  }

  /** The packets of a datagram, in order. */
  function Split(data: seq<Byte>): seq<seq<Byte>>
    decreases |data|
  {
    if data == [] then []
    else
      var n := FirstUdpPacketLength(data);
      [data[..n]] + Split(data[n..])
  }

  function Flatten(pieces: seq<seq<Byte>>): seq<Byte> {
    if pieces == [] then [] else pieces[0] + Flatten(pieces[1..])
  }

  /** The pieces are non-empty and put together again give the datagram. */
  lemma {:induction false} SplitCovers(data: seq<Byte>)
    ensures Flatten(Split(data)) == data
    ensures forall i :: 0 <= i < |Split(data)| ==> Split(data)[i] != []
    decreases |data|
  {
    if data != [] {
      var n := FirstUdpPacketLength(data);
      SplitCovers(data[n..]);
      assert Split(data)[1..] == Split(data[n..]);
      assert data == data[..n] + data[n..];
    }
  }

  /** A handshake packet that says itself where it ends, and ends there. */
  predicate SelfDelimiting(p: seq<Byte>) {
    || (|p| >= 3 && p[0] == Opcodes.HELLO_THERE && |p| == 3 + FromBigEndian(p[1..]))
    || (|p| >= 2 && p[0] == Opcodes.HELLO &&
        (|| (p[1] == HELLO_SUB_CONFIG && |p| >= 4 && |p| == 4 + FromBigEndian(p[2..]))
         || (p[1] == HELLO_SUB_VERSION && |p| == 6)
         || ((p[1] == HELLO_SUB_CONFIRM || p[1] == HELLO_SUB_VERIFIED) && |p| == 2)))
  }

  /** A packet that, being last, is not cut. */
  predicate Whole(p: seq<Byte>) {
    p != [] && FirstUdpPacketLength(p) == |p|
  }

  /** The splitter cuts after p, with more behind it, exactly when p delimits itself. */
  lemma {:induction false} CutExactly(p: seq<Byte>, rest: seq<Byte>)
    requires p != [] && rest != []
    ensures FirstUdpPacketLength(p + rest) == |p| <==> SelfDelimiting(p)
  {
    var data := p + rest;
    assert data[0] == p[0] && (|p| >= 2 ==> data[1] == p[1]);
    if |p| >= 3 {
      assert data[1..][0] == p[1] && data[1..][1] == p[2];
    }
    if |p| >= 4 {
      assert data[2..][0] == p[2] && data[2..][1] == p[3];
    }
  }

  /** What a batch must be for the splitter to give it back: self-delimiting packets, then one whole one. */
  ghost predicate Batch(pieces: seq<seq<Byte>>) {
    && (forall i :: 0 <= i < |pieces| - 1 ==> SelfDelimiting(pieces[i]))
    && (pieces != [] ==> Whole(pieces[|pieces| - 1]))
  }

  lemma {:induction false} BatchTail(pieces: seq<seq<Byte>>)
    requires |pieces| > 1
    ensures Batch(pieces) <==> SelfDelimiting(pieces[0]) && Batch(pieces[1..])
  {
    hide SelfDelimiting, Whole;
    var tail := pieces[1..];
    if SelfDelimiting(pieces[0]) && Batch(tail) {
      forall i | 0 <= i < |pieces| - 1 ensures SelfDelimiting(pieces[i]) {
        if i > 0 {
          assert pieces[i] == tail[i - 1];
        }
      }
    }
  }

  /** Cutting one piece off and splitting what follows. */
  lemma {:induction false} SplitAfter(p: seq<Byte>, rest: seq<Byte>, tail: seq<seq<Byte>>)
    requires p != []
    ensures Split(p + rest) == [p] + tail <==> FirstUdpPacketLength(p + rest) == |p| && Split(rest) == tail
  {
    var data := p + rest;
    var n := FirstUdpPacketLength(data);
    assert Split(data)[0] == data[..n] && Split(data)[1..] == Split(data[n..]);
    assert data[..|p|] == p && data[|p|..] == rest;
    if Split(data) == [p] + tail {
      assert data[..n] == p && |data[..n]| == n;
      assert ([p] + tail)[1..] == tail;
    }
  }

  /**
   The splitter inverts batching exactly: joining packets and splitting gives the
   packets back if and only if all but the last are well-formed handshake packets
   and the last is not cut.
   */
  lemma {:induction false} SplitInverts(pieces: seq<seq<Byte>>)
    requires forall i :: 0 <= i < |pieces| ==> pieces[i] != []
    ensures Split(Flatten(pieces)) == pieces <==> Batch(pieces)
  {
    hide Split, SelfDelimiting, FirstUdpPacketLength, Batch;
    if pieces == [] {
      NothingToSplit();
    } else {
      var p, tail := pieces[0], pieces[1..];
      assert pieces == [p] + tail;
      SplitAfter(p, Flatten(tail), tail);
      SplitInverts(tail);
      if tail == [] {
        assert pieces == [p];
        LastOne(p);
      } else {
        assert tail[0] != [] && Flatten(tail) != [];
        CutExactly(p, Flatten(tail));
        BatchTail(pieces);
      }
    }
  }

  lemma {:induction false} NothingToSplit()
    ensures Split([]) == [] && Batch([])
  {
  }

  lemma {:induction false} LastOne(p: seq<Byte>)
    requires p != []
    ensures Batch([p]) <==> FirstUdpPacketLength(p + Flatten([])) == |p|
    ensures Split(Flatten([])) == []
  {
    assert p + Flatten([]) == p;
  }

  /** The loop over a datagram, with the pieces it hands on. */
  method SplitDatagram(data: seq<Byte>) returns (pieces: seq<seq<Byte>>)
    ensures pieces == Split(data)
  {
    pieces := [];
    var cursor := 0;
    while cursor < |data|
      invariant cursor <= |data|
      invariant pieces + Split(data[cursor..]) == Split(data)
    {
      var rest := data[cursor..];
      var pkt := FirstUdpPacketLength(rest);
      if pkt == 0 || pkt > |rest| {
        pkt := |rest|;
      }
      assert rest[pkt..] == data[cursor + pkt..];
      ConcatAssoc(pieces, [rest[..pkt]], Split(rest[pkt..]));
      pieces := pieces + [rest[..pkt]];
      cursor := cursor + pkt;
    }
    assert data[cursor..] == [];
  }
}
