/**
 TCP frames, `[u16 length][opcode][body]` with the length counting itself, and
 the accumulator that reassembles them from arbitrary chunks; UDP frames,
 `[u16 sequence][opcode][body]`.
 */
module Framing {
  import opened Bits

  const MAX_TCP_FRAME_LEN := 0xFFFF
  const TCP_HEADER_LEN := 2
  const TCP_MIN_FRAME_LEN := 3
  const UDP_HEADER_LEN := 3

  datatype Frame = Frame(opcode: Byte, body: seq<Byte>)
  datatype UdpFrame = UdpFrame(sequence: U16, opcode: Byte, body: seq<Byte>)

  function BigEndian(v: U16): (b: seq<Byte>)
    ensures |b| == 2
  {
    [v / 0x100, v % 0x100]
  }

  function FromBigEndian(b: seq<Byte>): U16
    requires |b| >= 2
  {
    0x100 * (b[0] as int) + b[1]
  }

  function EncodeTcpFrame(opcode: Byte, body: seq<Byte>): Option<seq<Byte>> {
    var total := TCP_HEADER_LEN + 1 + |body|;
    if total > MAX_TCP_FRAME_LEN then None
    else Some(BigEndian(total) + [opcode] + body)
  }

  function EncodeUdpFrame(sequence: U16, opcode: Byte, body: seq<Byte>): seq<Byte> {
    BigEndian(sequence) + [opcode] + body
  }

  function DecodeUdpFrame(data: seq<Byte>): Option<UdpFrame> {
    if |data| < UDP_HEADER_LEN then None
    else Some(UdpFrame(FromBigEndian(data), data[2], data[UDP_HEADER_LEN..]))
  }

  /** A datagram decodes to a frame exactly when it is that frame's encoding. */
  lemma {:induction false} UdpFrameRoundTrip(data: seq<Byte>, f: UdpFrame)
    ensures DecodeUdpFrame(data) == Some(f) <==> data == EncodeUdpFrame(f.sequence, f.opcode, f.body)
  {
    if |data| >= 3 {
      assert data == [data[0], data[1]] + [data[2]] + data[3..];
      var e := EncodeUdpFrame(f.sequence, f.opcode, f.body);
      assert e[3..] == f.body;
    }
  }

  // ---- The accumulator as a state ------------------------------------------------

  datatype Acc = Acc(buffer: seq<Byte>, failed: bool)

  /** The length field at the front announces less than the smallest frame. */
  predicate BadFront(b: seq<Byte>) {
    |b| >= TCP_HEADER_LEN && FromBigEndian(b) < TCP_MIN_FRAME_LEN
  }

  predicate FrontComplete(b: seq<Byte>) {
    |b| >= TCP_HEADER_LEN && TCP_MIN_FRAME_LEN <= FromBigEndian(b) <= |b|
  }

  function FrontFrame(b: seq<Byte>): Frame
    requires FrontComplete(b)
  {
    Frame(b[2], b[3..FromBigEndian(b)])
  }

  function FeedStep(a: Acc, data: seq<Byte>): Acc {
    if a.failed then a
    else
      var b := a.buffer + data;
      Acc(b, BadFront(b))
  }

  function NextStep(a: Acc): (Acc, Option<Frame>) {
    if a.failed || |a.buffer| < TCP_HEADER_LEN then (a, None)
    else if BadFront(a.buffer) then (a.(failed := true), None)
    else if !FrontComplete(a.buffer) then (a, None)
    else (a.(buffer := a.buffer[FromBigEndian(a.buffer)..]), Some(FrontFrame(a.buffer)))
  }

  class TcpFrameAccumulator {
    var buffer: seq<Byte>
    var failed: bool

    constructor ()
      ensures Model() == Acc([], false)
    {
      buffer, failed := [], false;
    }

    function Model(): Acc
      reads this
    {
      Acc(buffer, failed)
    }

    method Feed(data: seq<Byte>) returns (ok: bool)
      modifies this
      ensures Model() == FeedStep(old(Model()), data)
      ensures ok == !failed
    {
      if failed {
        return false;
      }
      buffer := buffer + data;
      if |buffer| >= TCP_HEADER_LEN {
        var total := FromBigEndian(buffer);
        if total < TCP_MIN_FRAME_LEN {
          failed := true;
          return false;
        }
      }
      return true;
    }

    method Next() returns (frame: Option<Frame>)
      modifies this
      ensures (Model(), frame) == NextStep(old(Model()))
    {
      if failed || |buffer| < TCP_HEADER_LEN {
        return None;
      }
      var total := FromBigEndian(buffer);
      if total < TCP_MIN_FRAME_LEN {
        failed := true;
        return None;
      }
      if |buffer| < total {
        return None;
      }
      frame := Some(Frame(buffer[TCP_HEADER_LEN], buffer[TCP_HEADER_LEN + 1..total]));
      buffer := buffer[total..];
    }

    function Failed(): bool
      reads this
    {
      failed
    }

    function Buffered(): nat
      reads this
    {
      |buffer|
    }
  }

  // ---- Parsing a whole stream at once ----------------------------------------------

  /** All complete frames of a stream, what is left, and whether it stops at an undersize header. */
  datatype Parsed = Parsed(frames: seq<Frame>, rest: seq<Byte>, bad: bool)

  function Parse(s: seq<Byte>): Parsed
    decreases |s|
  {
    if !FrontComplete(s) then Parsed([], s, BadFront(s))
    else
      var p := Parse(s[FromBigEndian(s)..]);
      p.(frames := [FrontFrame(s)] + p.frames)
  }

  /** An encoded frame; nothing when its body is too long for one. */
  function FrameBytes(f: Frame): seq<Byte> {
    EncodeTcpFrame(f.opcode, f.body).GetOr([])
  }

  /** The fields of a packet under its opcode, framed. */
  function Framed(opcode: Byte, fs: seq<Field>): seq<Byte> {
    FrameBytes(Frame(opcode, Payload(fs)))
  }

  function EncodeAll(frames: seq<Frame>): seq<Byte> {
    if frames == [] then [] else FrameBytes(frames[0]) + EncodeAll(frames[1..])
  }

  /** The bytes of the front frame are what encoding it gives. */
  lemma {:induction false} FrontFrameBytes(s: seq<Byte>)
    requires FrontComplete(s)
    ensures FrameBytes(FrontFrame(s)) == s[..FromBigEndian(s)]
  {
    var n := FromBigEndian(s);
    assert s[..n] == [s[0], s[1]] + [s[2]] + s[3..n];
  }

  lemma {:induction false} FrontExtends(a: seq<Byte>, b: seq<Byte>)
    requires FrontComplete(a)
    ensures FrontComplete(a + b) && FromBigEndian(a + b) == FromBigEndian(a)
    ensures FrontFrame(a + b) == FrontFrame(a)
    ensures (a + b)[FromBigEndian(a)..] == a[FromBigEndian(a)..] + b
  {
  }

  /** Parsing can be resumed: the leftover of one chunk, continued, gives the rest of the frames. */
  lemma {:induction false} ParseConcat(a: seq<Byte>, b: seq<Byte>)
    ensures var p, q := Parse(a), Parse(Parse(a).rest + b);
            Parse(a + b) == Parsed(p.frames + q.frames, q.rest, q.bad)
    decreases |a|
  {
    var q := Parse(Parse(a).rest + b);
    if FrontComplete(a) {
      var more := a[FromBigEndian(a)..];
      ParseConcat(more, b);
      FrontExtends(a, b);
      ConcatAssoc([FrontFrame(a)], Parse(more).frames, q.frames);
    } else {
      assert [] + q.frames == q.frames;
    }
  }

  /** A stream is the encodings of its frames followed by what is left. */
  lemma {:induction false} ParseExact(s: seq<Byte>)
    ensures s == EncodeAll(Parse(s).frames) + Parse(s).rest
    ensures !FrontComplete(Parse(s).rest) && Parse(s).bad == BadFront(Parse(s).rest)
    decreases |s|
  {
    hide FrontFrame, FrameBytes, FromBigEndian, EncodeAll, BadFront, Parse;
    ParseStep(s);
    if FrontComplete(s) {
      var n := FromBigEndian(s);
      var p := Parse(s[n..]);
      FrontFrameBytes(s);
      ParseExact(s[n..]);
      EncodeAllCons(FrontFrame(s), p.frames);
      ConcatAssoc(s[..n], EncodeAll(p.frames), p.rest);
      assert s == s[..n] + s[n..];
    } else {
      NoFrames(s);
    }
  }

  lemma {:induction false} ParseStep(s: seq<Byte>)
    ensures FrontComplete(s) ==>
            var p := Parse(s[FromBigEndian(s)..]);
            Parse(s) == Parsed([FrontFrame(s)] + p.frames, p.rest, p.bad)
    ensures !FrontComplete(s) ==> Parse(s) == Parsed([], s, BadFront(s))
  {
  }

  lemma {:induction false} NoFrames(s: seq<Byte>)
    ensures EncodeAll([]) + s == s
  {
  }

  lemma {:induction false} EncodeAllCons(f: Frame, fs: seq<Frame>)
    ensures EncodeAll([f] + fs) == FrameBytes(f) + EncodeAll(fs)
  {
    assert ([f] + fs)[1..] == fs;
  }

  predicate Sendable(f: Frame) {
    |f.body| + 3 <= MAX_TCP_FRAME_LEN
  }

  lemma {:induction false} ParseOneFrame(f: Frame, b: seq<Byte>)
    requires Sendable(f)
    ensures Parse(FrameBytes(f) + b) == Parse(b).(frames := [f] + Parse(b).frames)
  {
    var e := FrameBytes(f);
    var s := e + b;
    assert s[3..|f.body| + 3] == f.body;
    assert s[|e|..] == b;
    assert FrontComplete(s) && FromBigEndian(s) == |e| && FrontFrame(s) == f;
  }

  /** Framing round trip: a sequence of sendable frames parses back to itself, with whatever follows untouched. */
  lemma {:induction false} ParseEncoded(frames: seq<Frame>, b: seq<Byte>)
    requires forall f :: f in frames ==> Sendable(f)
    ensures Parse(EncodeAll(frames) + b) == Parse(b).(frames := frames + Parse(b).frames)
  {
    if frames == [] {
      assert EncodeAll(frames) + b == b;
    } else {
      var f, fs := frames[0], frames[1..];
      ConcatAssoc(FrameBytes(f), EncodeAll(fs), b);
      ParseOneFrame(f, EncodeAll(fs) + b);
      ParseEncoded(fs, b);
      ConcatAssoc([f], fs, Parse(b).frames);
      assert frames == [f] + fs;
    }
  }

  /** Bytes that are whole frames and nothing else. */
  predicate IsFrames(b: seq<Byte>) {
    Parse(b).rest == [] && !Parse(b).bad
  }

  lemma {:induction false} FramesConcat(a: seq<Byte>, b: seq<Byte>)
    requires IsFrames(a)
    ensures Parse(a + b) == Parse(b).(frames := Parse(a).frames + Parse(b).frames)
  {
    ParseConcat(a, b);
    assert [] + b == b;
  }

  lemma {:induction false} OneFrame(f: Frame)
    requires Sendable(f)
    ensures Parse(FrameBytes(f)) == Parsed([f], [], false)
  {
    ParseOneFrame(f, []);
    assert FrameBytes(f) + [] == FrameBytes(f);
    assert [f] + Parse([]).frames == [f];
  }

  lemma {:induction false} EncodeAllConcat(a: seq<Frame>, b: seq<Frame>)
    ensures EncodeAll(a + b) == EncodeAll(a) + EncodeAll(b)
  {
    if a == [] {
      assert a + b == b;
    } else {
      assert (a + b)[1..] == a[1..] + b;
      EncodeAllConcat(a[1..], b);
    }
  }

  // ---- Any interleaving of Feed and Next ------------------------------------------------

  datatype AccOp = Feed(data: seq<Byte>) | Next

  /** offered: every byte handed to Feed; taken: those it stored; popped: every frame Next returned. */
  datatype AccHistory = AccHistory(acc: Acc, offered: seq<Byte>, taken: seq<Byte>, popped: seq<Frame>)

  function AccStep(h: AccHistory, op: AccOp): AccHistory {
    match op
    case Feed(data) =>
      AccHistory(FeedStep(h.acc, data), h.offered + data, if h.acc.failed then h.taken else h.taken + data, h.popped)
    case Next =>
      var (a, f) := NextStep(h.acc);
      h.(acc := a, popped := h.popped + if f.Some? then [f.value] else [])
  }

  function AccRun(ops: seq<AccOp>): AccHistory {
    if ops == [] then AccHistory(Acc([], false), [], [], [])
    else AccStep(AccRun(ops[..|ops| - 1]), ops[|ops| - 1])
  }

  /** What reassembly keeps true at every point of every run. */
  ghost predicate Consistent(h: AccHistory) {
    && h.taken <= h.offered
    && (!h.acc.failed ==> h.taken == h.offered)
    && (h.acc.failed ==> BadFront(h.acc.buffer))
    && h.taken == EncodeAll(h.popped) + h.acc.buffer
    && Parse(h.offered).frames == h.popped + Parse(h.acc.buffer).frames
    && (!h.acc.failed ==> Parse(h.offered).rest == Parse(h.acc.buffer).rest)
    && Parse(h.offered).bad == Parse(h.acc.buffer).bad
  }

  lemma {:induction false} FeedConsistent(h: AccHistory, data: seq<Byte>)
    requires Consistent(h)
    ensures Consistent(AccStep(h, Feed(data)))
  {
    hide EncodeAll, Parse, BadFront;
    if h.acc.failed {
      BadStays(h.acc.buffer, []);
      assert h.acc.buffer + [] == h.acc.buffer;
      BadStreamStays(h.offered, data);
    } else {
      ParseConcat(h.offered, data);
      ParseConcat(h.acc.buffer, data);
      var q := Parse(Parse(h.acc.buffer).rest + data);
      ConcatAssoc(h.popped, Parse(h.acc.buffer).frames, q.frames);
      ConcatAssoc(EncodeAll(h.popped), h.acc.buffer, data);
    }
  }

  /** Nothing can be parsed behind an undersize header. */
  lemma {:induction false} BadStays(b: seq<Byte>, data: seq<Byte>)
    requires BadFront(b)
    ensures Parse(b + data) == Parsed([], b + data, true)
  {
  }

  lemma {:induction false} BadStreamStays(s: seq<Byte>, data: seq<Byte>)
    requires Parse(s).bad
    ensures Parse(s + data).bad && Parse(s + data).frames == Parse(s).frames
  {
    hide Parse, BadFront;
    ParseConcat(s, data);
    ParseExact(s);
    BadStays(Parse(s).rest, data);
    assert Parse(s).frames + [] == Parse(s).frames;
  }

  lemma {:induction false} NextConsistent(h: AccHistory)
    requires Consistent(h)
    ensures Consistent(AccStep(h, Next))
  {
    hide Parse, EncodeAll, FrontFrame, FrameBytes, FromBigEndian, BadFront, Consistent;
    var b := h.acc.buffer;
    if !h.acc.failed && FrontComplete(b) {
      FrontTaken(h);
    } else {
      assert h.popped + [] == h.popped;
      NothingTaken(h);
    }
  }

  lemma {:induction false} NothingTaken(h: AccHistory)
    requires Consistent(h) && (h.acc.failed || !FrontComplete(h.acc.buffer))
    ensures Consistent(AccStep(h, Next))
  {
    hide Parse, EncodeAll, FrontFrame;
    assert h.popped + [] == h.popped;
  }

  lemma {:induction false} FrontTaken(h: AccHistory)
    requires Consistent(h) && !h.acc.failed && FrontComplete(h.acc.buffer)
    ensures Consistent(AccStep(h, Next))
  {
    hide Parse, EncodeAll, FrontFrame, FrameBytes, FromBigEndian, BadFront;
    var b := h.acc.buffer;
    var n, f := FromBigEndian(b), FrontFrame(b);
    ParseStep(b);
    FrontFrameBytes(b);
    EncodeAllConcat(h.popped, [f]);
    EncodeAllCons(f, []);
    NoFrames(b[n..]);
    NoFrames(FrameBytes(f));
    assert [f] + [] == [f] && FrameBytes(f) + EncodeAll([]) == FrameBytes(f);
    assert b == b[..n] + b[n..];
    ConcatAssoc(EncodeAll(h.popped), b[..n], b[n..]);
    ConcatAssoc(h.popped, [f], Parse(b[n..]).frames);
    NextTakes(h.acc);
  }

  lemma {:induction false} NextTakes(a: Acc)
    requires !a.failed && FrontComplete(a.buffer)
    ensures NextStep(a) == (a.(buffer := a.buffer[FromBigEndian(a.buffer)..]), Some(FrontFrame(a.buffer)))
  {
  }

  /**
   Reassembly is chunking-independent: after any interleaving of Feed and Next the
   popped frames are a prefix of the one-shot parse of everything offered, the
   bytes taken are the popped frames re-encoded followed by the buffer, and a
   failed accumulator holds an undersize header at its front.
   */
  lemma {:induction false} Reassembly(ops: seq<AccOp>)
    ensures Consistent(AccRun(ops))
    ensures AccRun(ops).popped <= Parse(AccRun(ops).offered).frames
  {
    if ops != [] {
      var before := ops[..|ops| - 1];
      Reassembly(before);
      match ops[|ops| - 1]
      case Feed(data) => FeedConsistent(AccRun(before), data);
      case Next => NextConsistent(AccRun(before));
    }
  }

  /** Failure latches exactly when the bytes an operation looks at start with an undersize header. */
  lemma {:induction false} FailureExact(ops: seq<AccOp>, op: AccOp)
    ensures var h, h' := AccRun(ops), AccRun(ops + [op]);
            var seen := if op.Feed? && !h.acc.failed then h.acc.buffer + op.data else h.acc.buffer;
            h'.acc.failed <==> BadFront(seen)
  {
    Reassembly(ops);
    assert (ops + [op])[..|ops|] == ops;
  }

  function Nexts(n: nat): seq<AccOp> {
    seq(n, _ => Next)
  }

  /** Everything offered has been popped, failed on, or is an incomplete frame. */
  ghost predicate FullyDrained(h: AccHistory) {
    && h.popped == Parse(h.offered).frames
    && h.acc.failed == Parse(h.offered).bad
    && (!h.acc.failed ==> h.acc.buffer == Parse(h.offered).rest)
  }

  /**
   Draining reaches every frame: enough Next calls pop the whole one-shot parse, and
   one more latches a bad stream.
   */
  lemma {:induction false} DrainReachesAll(ops: seq<AccOp>, n: nat)
    requires |Parse(AccRun(ops).acc.buffer).frames| < n
    ensures FullyDrained(AccRun(ops + Nexts(n)))
    decreases n
  {
    hide FullyDrained, AccRun, Parse, Nexts, NextStep, FrontComplete;
    var more := ops + [Next];
    NextsSplit(ops, n);
    NextPops(ops);
    var a := AccRun(ops).acc;
    if !a.failed && FrontComplete(a.buffer) {
      DrainReachesAll(more, n - 1);
    } else {
      Drained(ops);
      Quiet(more, n - 1);
    }
  }

  /** One Next takes one frame off what is left to parse, or finds nothing and goes on finding nothing. */
  lemma {:induction false} NextPops(ops: seq<AccOp>)
    ensures var a, b := AccRun(ops).acc, AccRun(ops + [Next]).acc;
            if !a.failed && FrontComplete(a.buffer) then |Parse(b.buffer).frames| == |Parse(a.buffer).frames| - 1
            else NextStep(b) == (b, None)
  {
    hide AccRun;
    NextsSplit(ops, 1);
  }

  lemma {:induction false} NextsSplit(ops: seq<AccOp>, n: nat)
    requires n > 0
    ensures ops + Nexts(n) == (ops + [Next]) + Nexts(n - 1)
    ensures AccRun(ops + [Next]) == AccStep(AccRun(ops), Next)
  {
    assert (ops + [Next])[..|ops|] == ops;
  }

  lemma {:induction false} Drained(ops: seq<AccOp>)
    requires AccRun(ops).acc.failed || !FrontComplete(AccRun(ops).acc.buffer)
    ensures FullyDrained(AccRun(ops + [Next]))
  {
    Reassembly(ops);
    NextsSplit(ops, 1);
    var h := AccRun(ops);
    assert h.popped + [] == h.popped;
  }

  /** Once Next has nothing to return, further Next calls change nothing. */
  lemma {:induction false} Quiet(ops: seq<AccOp>, n: nat)
    requires NextStep(AccRun(ops).acc) == (AccRun(ops).acc, None)
    ensures AccRun(ops + Nexts(n)) == AccRun(ops)
  {
    if n == 0 {
      assert ops + Nexts(0) == ops;
    } else {
      Quiet(ops, n - 1);
      assert (ops + Nexts(n))[..|ops| + n - 1] == ops + Nexts(n - 1);
      assert AccRun(ops).popped + [] == AccRun(ops).popped;
    }
  }
}
