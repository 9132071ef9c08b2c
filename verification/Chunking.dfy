/**
 A session does not depend on how TCP cut its bytes, wherever UDP packets fall: what
 it has done is always a prefix of the one-shot parse with the packets between, and
 all of it within the per-drain limits. The reassembly buffer plays no part in what
 a frame does, so it is forgotten when lives are compared.
 */
module Chunking {
  import opened Bits
  import opened Cursors
  import opened Framing
  import opened Queues
  import opened Packets
  import opened Protocol
  import opened Sessions
  import opened Safety
  import Opcodes

  // ---- Handling whole frames, without a buffer ------------------------------------------------

  const EMPTY: Acc := Acc([], false)

  /** A life with the reassembly buffer forgotten. */
  function Blank(l: Life): Life {
    l.(conn := l.conn.(tcp := EMPTY))
  }

  function ShutLife(l: Life): Life {
    l.(conn := l.conn.(state := Closed))
  }

  function FrameLife(l: Life, f: Frame): Life {
    if l.conn.state.Closed? then l else AfterHandled(l, FrameOf(l.conn, f))
  }

  function FramesLife(l: Life, fs: seq<Frame>): Life
    decreases |fs|
  {
    if fs == [] then l else FramesLife(FrameLife(l, fs[0]), fs[1..])
  }

  lemma {:induction false} FramesLifeConcat(l: Life, a: seq<Frame>, b: seq<Frame>)
    ensures FramesLife(l, a + b) == FramesLife(FramesLife(l, a), b)
    decreases |a|
  {
    hide FrameLife;
    if a == [] {
      assert a + b == b;
    } else {
      assert (a + b)[1..] == a[1..] + b;
      FramesLifeConcat(FrameLife(l, a[0]), a[1..], b);
    }
  }

  lemma {:induction false} ClosedStays(l: Life, fs: seq<Frame>)
    requires l.conn.state == Closed
    ensures FramesLife(l, fs) == l
  {
    if fs != [] {
      ClosedStays(l, fs[1..]);
    }
  }

  // ---- The buffer plays no part in handling a frame -----------------------------------------------

  function WithTcp(h: Handled, a: Acc): Handled {
    h.(conn := h.conn.(tcp := a))
  }

  lemma {:induction false} BringupTcpFree(c: Conn, a: Acc)
    ensures Bringup(c.(tcp := a)) == Bringup(c)
  {
    hide Join, FrameBytes, AddToRoster, WorldStats, Player;
    assert BringupParts(c.(tcp := a)) == BringupParts(c);
  }

  lemma {:induction false} LoginTcpFree(c: Conn, pass: Text, a: Acc)
    ensures LoginDone(c.(tcp := a), pass) == WithTcp(LoginDone(c, pass), a)
  {
    hide Bringup;
    BringupTcpFree(c.(state := Verified), a);
  }

  lemma {:induction false} UsernameTcpFree(c: Conn, r: Cursor, a: Acc)
    ensures UsernameOf(c.(tcp := a), r) == WithTcp(UsernameOf(c, r), a)
  {
    hide LoginDone, ReadLogin;
    var login := ReadLogin(r);
    if login.Some? && login.value.secondary.Some? {
      LoginTcpFree(c.(username := login.value.primary), login.value.secondary.value, a);
    }
  }

  lemma {:induction false} PasswordTcpFree(c: Conn, r: Cursor, a: Acc)
    ensures PasswordOf(c.(tcp := a), r) == WithTcp(PasswordOf(c, r), a)
  {
    hide LoginDone, ReadLogin;
    var login := ReadLogin(r);
    if login.Some? {
      LoginTcpFree(c, login.value.secondary.GetOr(login.value.primary), a);
    }
  }

  lemma {:induction false} RequestsTcpFree(c: Conn, body: seq<Byte>, a: Acc)
    ensures BpsOf(c.(tcp := a), Start(body)) == WithTcp(BpsOf(c, Start(body)), a)
    ensures TcpReincarnateOf(c.(tcp := a), body) == WithTcp(TcpReincarnateOf(c, body), a)
  {
    hide ReadI32, ReadRequest, RequestCommand;
  }

  lemma {:induction false} LoginFramesTcpFree(c: Conn, f: Frame, a: Acc)
    ensures UsernameFrameOf(c.(tcp := a), f) == WithTcp(UsernameFrameOf(c, f), a)
    ensures PasswordFrameOf(c.(tcp := a), f) == WithTcp(PasswordFrameOf(c, f), a)
  {
    hide UsernameOf, PasswordOf, PostLinkHelloOk;
    UsernameTcpFree(c, Start(f.body), a);
    PasswordTcpFree(c, Start(f.body), a);
  }

  lemma {:induction false} GameFramesTcpFree(c: Conn, f: Frame, a: Acc)
    ensures VerifiedFrameOf(c.(tcp := a), f) == WithTcp(VerifiedFrameOf(c, f), a)
    ensures InGameFrameOf(c.(tcp := a), f) == WithTcp(InGameFrameOf(c, f), a)
  {
    hide BpsOf, TcpReincarnateOf;
    RequestsTcpFree(c, f.body, a);
  }

  lemma {:induction false} FrameTcpFree(c: Conn, f: Frame, a: Acc)
    ensures FrameOf(c.(tcp := a), f) == WithTcp(FrameOf(c, f), a)
  {
    hide UsernameFrameOf, PasswordFrameOf, VerifiedFrameOf, InGameFrameOf, AwaitingKeyEchoOk, Opcodes.IsKnownOpcode;
    LoginFramesTcpFree(c, f, a);
    GameFramesTcpFree(c, f, a);
  }

  lemma {:induction false} BlankHandled(l: Life, f: Frame)
    ensures Blank(AfterHandled(l, FrameOf(l.conn, f))) == AfterHandled(Blank(l), FrameOf(Blank(l).conn, f))
  {
    hide FrameOf;
    FrameTcpFree(l.conn, f, EMPTY);
  }

  // ---- One drain --------------------------------------------------------------------------------------

  /** After s, the drained step s' has handled k of the frames p holds. */
  ghost predicate HasHandled(l: Life, l': Life, p: Parsed, k: nat) {
    && k <= |p.frames|
    && var m := FramesLife(Blank(l), p.frames[..k]);
       if l'.conn.state.Closed? then Blank(l') == ShutLife(m)
       else Blank(l') == m && Parse(l'.conn.tcp.buffer) == p.(frames := p.frames[k..]) && !l'.conn.tcp.failed
  }

  /** All frames are handled, and a bad header has closed the connection. */
  predicate Finished(l: Life, l': Life, p: Parsed) {
    Blank(l') == if p.bad then ShutLife(FramesLife(Blank(l), p.frames)) else FramesLife(Blank(l), p.frames)
  }

  lemma {:induction false} NextOfParse(a: Acc)
    requires !a.failed
    ensures var (b, f) := NextStep(a);
            var p := Parse(a.buffer);
            && (f.Some? ==> p.frames != [] && f.value == p.frames[0] && !b.failed &&
                            Parse(b.buffer) == p.(frames := p.frames[1..]))
            && (f.None? ==> p.frames == [] && b.failed == p.bad && b.buffer == a.buffer)
  {
  }

  /** Closed by one of the first k frames, or by the undersize header behind all of them. */
  ghost predicate CutShort(l: Life, p: Parsed, k: nat, n: nat) {
    k <= |p.frames| && (FramesLife(Blank(l), p.frames[..k]).conn.state == Closed || (k == |p.frames| < n && p.bad))
  }

  lemma {:induction false} DrainHandles(l: Life, s: Step, n: nat) returns (k: nat)
    requires !s.close && s.conn.state != Closed && !s.conn.tcp.failed
    ensures k <= n && HasHandled(Extend(l, s), Extend(l, Drain(s, n)), Parse(s.conn.tcp.buffer), k)
    ensures n > |Parse(s.conn.tcp.buffer).frames| ==>
            Finished(Extend(l, s), Extend(l, Drain(s, n)), Parse(s.conn.tcp.buffer))
    ensures Drain(s, n).conn.state != Closed ==> k == Min(n, |Parse(s.conn.tcp.buffer).frames|)
    ensures Drain(s, n).conn.state == Closed ==> CutShort(Extend(l, s), Parse(s.conn.tcp.buffer), k, n)
    decreases n
  {
    hide Parse, NextStep, FrameOf, HasHandled, Finished, CutShort;
    var p := Parse(s.conn.tcp.buffer);
    k := 0;
    if n == 0 {
      StoppedAtOnce(Extend(l, s), Extend(l, s), p);
    } else {
      var (a, f) := NextStep(s.conn.tcp);
      NextOfParse(s.conn.tcp);
      var popped := s.(conn := s.conn.(tcp := a));
      if a.failed || f.None? {
        StoppedAtOnce(Extend(l, s), Extend(l, Drain(s, n)), p);
        if a.failed {
          BadFrontCuts(Extend(l, s), p, n);
        }
      } else {
        var h := FrameOf(popped.conn, f.value);
        var s' := AfterFrame(popped, h);
        FrameOfSafe(popped.conn, f.value);
        PoppedHandled(l, s, a, f.value);
        if s'.close {
          k := 1;
          ClosedByFrame(Extend(l, s), Extend(l, s'), p, n);
        } else {
          var j := DrainHandles(l, s', n - 1);
          k := j + 1;
          HandledMore(Extend(l, s), Extend(l, s'), Extend(l, Drain(s, n)), p, j);
          if Drain(s, n).conn.state == Closed {
            CutLater(Extend(l, s), Extend(l, s'), p, j, n);
          }
        }
      }
    }
  }

  /** No frame handled: nothing was complete, or the front is bad. */
  lemma {:induction false} StoppedAtOnce(l: Life, l': Life, p: Parsed)
    requires l.conn.state != Closed && Parse(l.conn.tcp.buffer) == p && !l.conn.tcp.failed
    requires l' == l || (p.frames == [] && Blank(l') == (if p.bad then ShutLife(Blank(l)) else Blank(l)) &&
                         l'.conn.tcp.buffer == l.conn.tcp.buffer && l'.conn.tcp.failed == p.bad)
    ensures HasHandled(l, l', p, 0)
    ensures p.frames == [] && l' != l ==> Finished(l, l', p)
    ensures p.frames == [] && l' == l && !p.bad ==> Finished(l, l', p)
  {
    hide Parse;
    assert p.frames[..0] == [] && p.frames[0..] == p.frames;
  }

  /** Handling the popped frame with the buffer is handling it without. */
  lemma {:induction false} PoppedHandled(l: Life, s: Step, a: Acc, f: Frame)
    requires !s.close && s.conn.state != Closed
    ensures var popped := s.(conn := s.conn.(tcp := a));
            Blank(Extend(l, AfterFrame(popped, FrameOf(popped.conn, f)))) == FrameLife(Blank(Extend(l, s)), f)
  {
    hide FrameOf;
    var popped := s.(conn := s.conn.(tcp := a));
    var h := FrameOf(popped.conn, f);
    ConcatAssoc(l.cmds, s.cmds, h.cmds);
    ConcatAssoc(l.sent, s.tcpOut, h.out);
    assert Extend(l, AfterFrame(popped, h)) == AfterHandled(Extend(l, popped), h);
    BlankHandled(Extend(l, popped), f);
    assert Blank(Extend(l, popped)) == Blank(Extend(l, s));
  }

  lemma {:induction false} OneFrameLife(l: Life, f: Frame)
    ensures FramesLife(l, [f]) == FrameLife(l, f)
  {
    hide FrameLife;
    assert [f][1..] == [];
  }

  lemma {:induction false} BadFrontCuts(l: Life, p: Parsed, n: nat)
    requires p.frames == [] && p.bad && n > 0
    ensures CutShort(l, p, 0, n)
  {
  }

  lemma {:induction false} CutLater(l: Life, l1: Life, p: Parsed, j: nat, n: nat)
    requires p.frames != [] && n > 0 && Blank(l1) == FrameLife(Blank(l), p.frames[0])
    requires CutShort(l1, p.(frames := p.frames[1..]), j, n - 1)
    ensures CutShort(l, p, j + 1, n)
  {
    hide FrameLife;
    assert p.frames[..j + 1][1..] == p.frames[1..][..j];
  }

  lemma {:induction false} ClosedByFrame(l: Life, l': Life, p: Parsed, n: nat)
    requires p.frames != [] && l'.conn.state == Closed && Blank(l') == FrameLife(Blank(l), p.frames[0])
    ensures HasHandled(l, l', p, 1) && Finished(l, l', p) && CutShort(l, p, 1, n)
  {
    hide FrameLife;
    OneFrameLife(Blank(l), p.frames[0]);
    assert p.frames[..1] == [p.frames[0]];
    ClosedStays(Blank(l'), p.frames[1..]);
  }

  lemma {:induction false} HandledMore(l: Life, l1: Life, l': Life, p: Parsed, j: nat)
    requires p.frames != [] && Blank(l1) == FrameLife(Blank(l), p.frames[0])
    requires HasHandled(l1, l', p.(frames := p.frames[1..]), j)
    ensures HasHandled(l, l', p, j + 1)
    ensures Finished(l1, l', p.(frames := p.frames[1..])) ==> Finished(l, l', p)
  {
    hide FrameLife, Parse;
    var rest := p.frames[1..];
    assert p.frames[..j + 1] == [p.frames[0]] + rest[..j];
    assert p.frames[..j + 1][1..] == rest[..j];
    assert p.frames[j + 1..] == rest[j..];
  }

  // ---- Acts: frames, packets and closing ---------------------------------------------------------

  /** What a connection goes through: a whole frame, a UDP packet, a player id, or being cut off. */
  datatype Act = Got(f: Frame) | Arrived(opcode: Byte, body: seq<Byte>) | Identified(playerId: int) | Cut

  function ActLife(l: Life, a: Act): Life {
    match a
    case Got(f) => FrameLife(l, f)
    case Arrived(opcode, body) => Extend(l, UdpStep(l.conn, opcode, body))
    case Identified(pid) => Extend(l, StepOf(l.conn, Assign(pid)))
    case Cut => ShutLife(l)
  }

  function ActsLife(l: Life, acts: seq<Act>): Life {
    if acts == [] then l else ActLife(ActsLife(l, acts[..|acts| - 1]), acts[|acts| - 1])
  }

  function Gots(fs: seq<Frame>): (acts: seq<Act>)
    ensures |acts| == |fs|
  {
    seq(|fs|, i requires 0 <= i < |fs| => Got(fs[i]))
  }

  function FramesIn(acts: seq<Act>): seq<Frame> {
    if acts == [] then []
    else FramesIn(acts[..|acts| - 1]) + if acts[|acts| - 1].Got? then [acts[|acts| - 1].f] else []
  }

  function OthersIn(acts: seq<Act>): seq<Act> {
    if acts == [] then []
    else
      var a := acts[|acts| - 1];
      OthersIn(acts[..|acts| - 1]) + if a.Arrived? || a.Identified? then [a] else []
  }

  lemma {:induction false} ActsLifeConcat(l: Life, a: seq<Act>, b: seq<Act>)
    ensures ActsLife(l, a + b) == ActsLife(ActsLife(l, a), b)
    decreases |b|
  {
    hide ActLife;
    if b == [] {
      assert a + b == a;
    } else {
      var n := |b| - 1;
      assert (a + b)[..|a| + n] == a + b[..n];
      ActsLifeConcat(l, a, b[..n]);
    }
  }

  lemma {:induction false} PartsConcat(a: seq<Act>, b: seq<Act>)
    ensures FramesIn(a + b) == FramesIn(a) + FramesIn(b) && OthersIn(a + b) == OthersIn(a) + OthersIn(b)
    decreases |b|
  {
    if b == [] {
      assert a + b == a;
    } else {
      var n, x := |b| - 1, b[|b| - 1];
      assert (a + b)[..|a| + n] == a + b[..n];
      PartsConcat(a, b[..n]);
      ConcatAssoc(FramesIn(a), FramesIn(b[..n]), if x.Got? then [x.f] else []);
      ConcatAssoc(OthersIn(a), OthersIn(b[..n]), if x.Arrived? || x.Identified? then [x] else []);
    }
  }

  lemma {:induction false} OneAct(l: Life, a: Act)
    ensures ActsLife(l, [a]) == ActLife(l, a)
  {
    hide ActLife;
    assert [a][..0] == [];
    assert ActsLife(l, []) == l;
  }

  lemma {:induction false} OneActParts(a: Act)
    ensures FramesIn([a]) == if a.Got? then [a.f] else []
    ensures OthersIn([a]) == if a.Arrived? || a.Identified? then [a] else []
  {
    assert [a][..0] == [];
  }

  /** Some frames, and being cut off behind them if so. */
  function Chunk(fs: seq<Frame>, cut: bool): seq<Act> {
    Gots(fs) + if cut then [Cut] else []
  }

  lemma {:induction false} GotsLife(l: Life, fs: seq<Frame>)
    ensures ActsLife(l, Gots(fs)) == FramesLife(l, fs)
  {
    hide ActLife, FrameLife;
    if fs != [] {
      var n := |fs| - 1;
      GotsLife(l, fs[..n]);
      assert Gots(fs) == Gots(fs[..n]) + [Got(fs[n])];
      assert fs == fs[..n] + [fs[n]];
      FramesLifeConcat(l, fs[..n], [fs[n]]);
      OneFrameLife(FramesLife(l, fs[..n]), fs[n]);
      ActsLifeConcat(l, Gots(fs[..n]), [Got(fs[n])]);
      OneAct(ActsLife(l, Gots(fs[..n])), Got(fs[n]));
      GotLife(FramesLife(l, fs[..n]), fs[n]);
    }
  }

  lemma {:induction false} GotsParts(fs: seq<Frame>)
    ensures FramesIn(Gots(fs)) == fs && OthersIn(Gots(fs)) == []
  {
    if fs != [] {
      var n := |fs| - 1;
      GotsParts(fs[..n]);
      assert Gots(fs)[..n] == Gots(fs[..n]);
      assert fs == fs[..n] + [fs[n]];
    }
  }

  lemma {:induction false} GotLife(l: Life, f: Frame)
    ensures ActLife(l, Got(f)) == FrameLife(l, f)
  {
    hide FrameLife;
  }

  lemma {:induction false} ChunkLife(l: Life, fs: seq<Frame>, cut: bool)
    ensures ActsLife(l, Chunk(fs, cut)) == if cut then ShutLife(FramesLife(l, fs)) else FramesLife(l, fs)
  {
    hide FramesLife, ActsLife, Gots, FrameLife, UdpStep, StepOf;
    GotsLife(l, fs);
    if cut {
      ActsLifeConcat(l, Gots(fs), [Cut]);
      OneAct(ActsLife(l, Gots(fs)), Cut);
    } else {
      assert Gots(fs) + [] == Gots(fs);
    }
  }

  lemma {:induction false} ChunkParts(fs: seq<Frame>, cut: bool)
    ensures FramesIn(Chunk(fs, cut)) == fs && OthersIn(Chunk(fs, cut)) == []
  {
    hide FramesIn, OthersIn, Gots;
    GotsParts(fs);
    PartsConcat(Gots(fs), if cut then [Cut] else []);
    if cut {
      OneActParts(Cut);
    } else {
      NoActs();
    }
    assert fs + [] == fs;
  }

  // ---- One input -----------------------------------------------------------------------------------

  predicate WithinLimits(c: Conn, data: seq<Byte>) {
    |c.tcp.buffer + data| <= MAX_BUFFERED_BYTES && |Parse(c.tcp.buffer + data).frames| < MAX_FRAMES_PER_DRAIN
  }

  /** A live connection handles the first k frames a chunk completes, all of them within the limits. */
  lemma {:induction false} ChunkHandled(l: Life, data: seq<Byte>) returns (k: nat)
    requires l.conn.state != Closed && !l.conn.tcp.failed
    ensures var (q, l') := (Parse(l.conn.tcp.buffer + data), Extend(l, TcpStep(l.conn, data)));
            && k <= |q.frames|
            && Blank(l') == ActsLife(Blank(l), Chunk(q.frames[..k], l'.conn.state.Closed?))
            && (l'.conn.state != Closed ==>
                  !l'.conn.tcp.failed && Parse(l'.conn.tcp.buffer) == q.(frames := q.frames[k..]))
            && (WithinLimits(l.conn, data) ==>
                  && Blank(l') == ActsLife(Blank(l), Chunk(q.frames, q.bad))
                  && (l'.conn.state != Closed ==> k == |q.frames|))
  {
    hide Parse, Drain, FramesLife, BadFront, ActsLife, Chunk;
    var a := FeedStep(l.conn.tcp, data);
    var fed := Still(l.conn.(tcp := a));
    var l' := Extend(l, TcpStep(l.conn, data));
    var q := Parse(l.conn.tcp.buffer + data);
    ExtendStill(l, fed.conn);
    if a.failed || |a.buffer| > MAX_BUFFERED_BYTES {
      k := 0;
      ExtendStill(l, fed.conn.(state := Closed));
      ExtendSame(l, Still(fed.conn.(state := Closed)), Shut(fed));
      if a.failed {
        BadNow(a.buffer);
      }
      assert q.frames[..0] == [];
      NoFramesLife(Blank(l));
    } else {
      k := DrainHandles(l, fed, MAX_FRAMES_PER_DRAIN);
    }
    ChunkLife(Blank(l), q.frames[..k], l'.conn.state.Closed?);
    ChunkLife(Blank(l), q.frames, q.bad);
  }

  /**
   Exactly when a chunk closes a live connection: it overfills the buffer of 65536
   bytes, an undersize header stands at the front, one of the first 256 frames is
   refused, or fewer than 256 frames end in an undersize header.
   */
  lemma {:induction false} ChunkCloses(l: Life, data: seq<Byte>)
    requires l.conn.state != Closed && !l.conn.tcp.failed
    ensures var b := l.conn.tcp.buffer + data;
            var p := Parse(b);
            TcpStep(l.conn, data).conn.state == Closed
            <==> || |b| > 65536 || BadFront(b)
                 || FramesLife(Blank(l), p.frames[..Min(256, |p.frames|)]).conn.state == Closed
                 || (|p.frames| < 256 && p.bad)
  {
    hide Parse, Drain, FramesLife, BadFront, HasHandled, Finished;
    var a := FeedStep(l.conn.tcp, data);
    var fed := Still(l.conn.(tcp := a));
    var p := Parse(a.buffer);
    if !a.failed && |a.buffer| <= MAX_BUFFERED_BYTES {
      var k := DrainHandles(l, fed, MAX_FRAMES_PER_DRAIN);
      ExtendStill(l, fed.conn);
      var m, frames := Min(256, |p.frames|), p.frames;
      HandledState(Extend(l, fed), Extend(l, Drain(fed, MAX_FRAMES_PER_DRAIN)), p, k);
      if Drain(fed, MAX_FRAMES_PER_DRAIN).conn.state == Closed && k <= m {
        FramesLifeConcat(Blank(l), frames[..k], frames[k..m]);
        assert frames[..k] + frames[k..m] == frames[..m];
        if FramesLife(Blank(l), frames[..k]).conn.state == Closed {
          ClosedStays(FramesLife(Blank(l), frames[..k]), frames[k..m]);
        }
      }
    }
  }

  lemma {:induction false} HandledState(l: Life, l': Life, p: Parsed, k: nat)
    requires HasHandled(l, l', p, k)
    ensures k <= |p.frames|
    ensures l'.conn.state != Closed ==> FramesLife(Blank(l), p.frames[..k]).conn.state != Closed
    ensures Finished(l, l', p) && p.bad ==> l'.conn.state == Closed
  {
    hide Parse, FramesLife;
  }

  lemma {:induction false} NoFramesLife(l: Life)
    ensures FramesLife(l, []) == l
  {
  }

  lemma {:induction false} BadNow(b: seq<Byte>)
    requires BadFront(b)
    ensures Parse(b) == Parsed([], b, true)
  {
  }

  lemma {:induction false} GamePacketTcpFree(c: Conn, opcode: Byte, body: seq<Byte>, a: Acc)
    ensures var (s, t) := (GamePacketOf(c, opcode, body), GamePacketOf(c.(tcp := a), opcode, body));
            t == s.(conn := s.conn.(tcp := a)) && s.conn.tcp == c.tcp && s.conn.state == c.state
  {
    hide ReadRequest, RequestCommand, DecodedOf, ActionCommands, UdpAck, UdpUpdateStats, SessionPlayerId;
  }

  /** The reassembly buffer plays no part in a UDP packet either. */
  lemma {:induction false} UdpTcpFree(c: Conn, opcode: Byte, body: seq<Byte>, a: Acc)
    ensures var (s, t) := (UdpStep(c, opcode, body), UdpStep(c.(tcp := a), opcode, body));
            && t == s.(conn := s.conn.(tcp := a))
            && s.conn.tcp == c.tcp && (s.conn.state == Closed <==> c.state == Closed)
  {
    hide GamePacketOf, ReadKeyEcho, HandshakeDatagrams, UdpPong, IdentifiedUdp, ReadI32;
    GamePacketTcpFree(c, opcode, body, a);
    HandshakeTcpFree(c, a);
  }

  lemma {:induction false} HandshakeTcpFree(c: Conn, a: Acc)
    ensures HandshakeDatagrams(c.(tcp := a)) == HandshakeDatagrams(c)
  {
    hide UdpHandshakeAck, UdpStreamDefs, UdpStreamUnpause;
  }

  /** A packet, or a player id, does to the blanked life what it does to the life. */
  lemma {:induction false} OtherHandled(l: Life, x: Input)
    requires !x.Tcp?
    ensures var l' := Extend(l, StepOf(l.conn, x));
            && Blank(l') == ActLife(Blank(l), if x.Udp? then Arrived(x.opcode, x.body) else Identified(x.playerId))
            && l'.conn.tcp == l.conn.tcp && (l'.conn.state == Closed <==> l.conn.state == Closed)
  {
    hide UdpStep, FrameLife;
    if x.Udp? {
      UdpTcpFree(l.conn, x.opcode, x.body, EMPTY);
    }
  }

  /** A closed connection takes no notice of further bytes, frames or being cut off. */
  lemma {:induction false} ClosedChunk(l: Life, data: seq<Byte>, fs: seq<Frame>, cut: bool)
    requires l.conn.state == Closed
    ensures Extend(l, TcpStep(l.conn, data)) == l && ActsLife(Blank(l), Chunk(fs, cut)) == Blank(l)
  {
    hide FramesLife;
    assert l.cmds + [] == l.cmds && l.sent + [] == l.sent;
    ChunkLife(Blank(l), fs, cut);
    ClosedStays(Blank(l), fs);
  }

  // ---- Runs ------------------------------------------------------------------------------------------

  /** All TCP bytes, in order. */
  function Offered(xs: seq<Input>): seq<Byte> {
    if xs == [] then []
    else Offered(xs[..|xs| - 1]) + match xs[|xs| - 1] { case Tcp(data) => data case _ => [] }
  }

  function OtherAct(x: Input): seq<Act> {
    match x
    case Tcp(_) => []
    case Udp(opcode, body) => [Arrived(opcode, body)]
    case Assign(pid) => [Identified(pid)]
  }

  /** Everything but the TCP bytes, in order. */
  function Others(xs: seq<Input>): seq<Act> {
    if xs == [] then [] else Others(xs[..|xs| - 1]) + OtherAct(xs[|xs| - 1])
  }

  /** l has done acts, which hold the first k frames of the stream, and keeps the others unless it is closed. */
  ghost predicate Traced(start: Life, l: Life, stream: seq<Byte>, others: seq<Act>, acts: seq<Act>, k: nat) {
    && k <= |Parse(stream).frames|
    && Blank(l) == ActsLife(Blank(start), acts)
    && FramesIn(acts) == Parse(stream).frames[..k] && OthersIn(acts) == others
    && (l.conn.state != Closed ==>
          !l.conn.tcp.failed && Parse(l.conn.tcp.buffer) == Parse(stream).(frames := Parse(stream).frames[k..]))
  }

  /** Frames of a stream stay the front of a longer one. */
  lemma {:induction false} FrontKept(stream: seq<Byte>, data: seq<Byte>)
    ensures Parse(stream).frames <= Parse(stream + data).frames
  {
    ParseConcat(stream, data);
  }

  lemma {:induction false} FeedTraced(buffer: seq<Byte>, stream: seq<Byte>, data: seq<Byte>, k: nat)
    requires k <= |Parse(stream).frames| && Parse(buffer) == Parse(stream).(frames := Parse(stream).frames[k..])
    ensures k <= |Parse(stream + data).frames| && Parse(stream).frames[..k] == Parse(stream + data).frames[..k]
    ensures Parse(buffer + data) == Parse(stream + data).(frames := Parse(stream + data).frames[k..])
  {
    hide Parse;
    ParseConcat(buffer, data);
    ParseConcat(stream, data);
    var p, q := Parse(stream), Parse(Parse(stream).rest + data);
    assert p.frames[k..] + q.frames == (p.frames + q.frames)[k..];
    assert p.frames[..k] == (p.frames + q.frames)[..k];
  }

  lemma {:induction false} ChunkTraced(start: Life, l: Life, stream: seq<Byte>, others: seq<Act>, data: seq<Byte>,
                                       acts: seq<Act>, k: nat) returns (acts': seq<Act>, k': nat)
    requires Traced(start, l, stream, others, acts, k)
    ensures Traced(start, Extend(l, TcpStep(l.conn, data)), stream + data, others, acts', k')
  {
    hide Parse, ActsLife, FramesIn, OthersIn, TcpStep, Blank, Chunk;
    FrontKept(stream, data);
    acts', k' := acts, k;
    if l.conn.state == Closed {
      ClosedChunk(l, data, [], false);
      assert Parse(stream + data).frames[..k] == Parse(stream).frames[..k];
    } else {
      var all := Parse(stream + data).frames;
      FeedTraced(l.conn.tcp.buffer, stream, data, k);
      var j := ChunkHandled(l, data);
      var more := Chunk(all[k..][..j], Extend(l, TcpStep(l.conn, data)).conn.state.Closed?);
      acts', k' := acts + more, k + j;
      ChunkParts(all[k..][..j], Extend(l, TcpStep(l.conn, data)).conn.state.Closed?);
      ActsLifeConcat(Blank(start), acts, more);
      PartsConcat(acts, more);
      assert all[..k] + all[k..][..j] == all[..k + j] && all[k..][j..] == all[k + j..];
      assert others + [] == others;
    }
  }

  lemma {:induction false} OtherTraced(start: Life, l: Life, stream: seq<Byte>, others: seq<Act>, x: Input,
                                       acts: seq<Act>, k: nat)
    requires Traced(start, l, stream, others, acts, k) && !x.Tcp?
    ensures Traced(start, Extend(l, StepOf(l.conn, x)), stream, others + OtherAct(x), acts + OtherAct(x), k)
  {
    hide Parse, ActsLife, FramesIn, OthersIn, StepOf, ActLife, Blank;
    OtherHandled(l, x);
    var a := if x.Udp? then Arrived(x.opcode, x.body) else Identified(x.playerId);
    assert OtherAct(x) == [a];
    OneAct(Blank(l), a);
    OneActParts(a);
    ActsLifeConcat(Blank(start), acts, [a]);
    PartsConcat(acts, [a]);
    assert FramesIn(acts) + [] == FramesIn(acts);
  }

  /**
   Whatever the chunks, the limits and the packets between them: what a connection
   has done is what handling the first k frames of the one-shot parse of all its
   bytes does, for some k, with the packets somewhere between them in order; if it
   is not closed it still holds exactly the frames after those.
   */
  lemma {:induction false} HandledIsPrefix(start: Life, xs: seq<Input>) returns (acts: seq<Act>, k: nat)
    requires start.conn.tcp == EMPTY && start.conn.state != Closed
    ensures Traced(start, LifeOf(start, xs), Offered(xs), Others(xs), acts, k)
  {
    hide Traced, TcpStep, StepOf, ActsLife, FramesIn, OthersIn;
    if xs == [] {
      acts, k := [], 0;
      StartTraced(start);
    } else {
      var before, x := xs[..|xs| - 1], xs[|xs| - 1];
      acts, k := HandledIsPrefix(start, before);
      var l := LifeOf(start, before);
      match x {
        case Tcp(data) =>
          assert Others(before) + [] == Others(before);
          acts, k := ChunkTraced(start, l, Offered(before), Others(before), data, acts, k);
          TcpStepIs(l.conn, data);
        case Udp(_, _) =>
          assert Offered(before) + [] == Offered(before);
          OtherTraced(start, l, Offered(before), Others(before), x, acts, k);
          acts := acts + OtherAct(x);
        case Assign(_) =>
          assert Offered(before) + [] == Offered(before);
          OtherTraced(start, l, Offered(before), Others(before), x, acts, k);
          acts := acts + OtherAct(x);
      }
    }
  }

  lemma {:induction false} TcpStepIs(c: Conn, data: seq<Byte>)
    ensures StepOf(c, Tcp(data)) == TcpStep(c, data)
  {
    hide TcpStep;
  }

  lemma {:induction false} StartTraced(start: Life)
    requires start.conn.tcp == EMPTY && start.conn.state != Closed
    ensures Traced(start, start, [], [], [], 0)
  {
  }

  // ---- Within the limits ------------------------------------------------------------------------------

  /** What an input completes, judged by the bytes alone: nothing can follow an undersize header. */
  function NewActs(before: seq<Byte>, x: Input): seq<Act> {
    if !x.Tcp? then OtherAct(x)
    else if Parse(before).bad then []
    else
      var q := Parse(Parse(before).rest + x.data);
      Chunk(q.frames, q.bad)
  }

  /** Frames in the order they become complete, the other inputs where they fall between them. */
  function ActsOf(xs: seq<Input>): seq<Act> {
    if xs == [] then []
    else
      var before := xs[..|xs| - 1];
      ActsOf(before) + NewActs(Offered(before), xs[|xs| - 1])
  }

  /** No chunk reaches a live connection with more than it handles in one go. */
  ghost predicate Calm(start: Life, xs: seq<Input>) {
    forall i :: 0 <= i < |xs| && xs[i].Tcp? && LifeOf(start, xs[..i]).conn.state != Closed ==>
      WithinLimits(LifeOf(start, xs[..i]).conn, xs[i].data)
  }

  lemma {:induction false} CalmInit(start: Life, xs: seq<Input>)
    requires xs != [] && Calm(start, xs)
    ensures var (before, x) := (xs[..|xs| - 1], xs[|xs| - 1]);
            && Calm(start, before)
            && (x.Tcp? && LifeOf(start, before).conn.state != Closed ==>
                  WithinLimits(LifeOf(start, before).conn, x.data))
  {
    hide LifeOf, WithinLimits;
    var before := xs[..|xs| - 1];
    forall i | 0 <= i < |before| ensures before[..i] == xs[..i] {
    }
  }

  /** l has done acts; unless it is closed it holds exactly the incomplete end of the stream. */
  ghost predicate Caught(start: Life, l: Life, stream: seq<Byte>, acts: seq<Act>) {
    && Blank(l) == ActsLife(Blank(start), acts)
    && (l.conn.state != Closed ==> l.conn.tcp == Acc(Parse(stream).rest, false) && !Parse(stream).bad)
  }

  lemma {:induction false} ChunkCaught(start: Life, l: Life, stream: seq<Byte>, acts: seq<Act>, data: seq<Byte>)
    requires Caught(start, l, stream, acts) && (l.conn.state != Closed ==> WithinLimits(l.conn, data))
    ensures Caught(start, Extend(l, TcpStep(l.conn, data)), stream + data, acts + NewActs(stream, Tcp(data)))
  {
    hide Parse, ActsLife, TcpStep, Chunk, WithinLimits;
    var p := Parse(stream);
    var q := Parse(p.rest + data);
    ParseConcat(stream, data);
    ActsLifeConcat(Blank(start), acts, NewActs(stream, Tcp(data)));
    if l.conn.state == Closed {
      ClosedChunk(l, data, q.frames, q.bad);
      NothingDone(Blank(l));
    } else {
      var k := ChunkHandled(l, data);
      ChunkLife(Blank(l), q.frames, q.bad);
      var l' := Extend(l, TcpStep(l.conn, data));
      if l'.conn.state != Closed {
        NoFrameLeft(l'.conn.tcp.buffer);
      }
    }
  }

  lemma {:induction false} NothingDone(l: Life)
    ensures ActsLife(l, []) == l
  {
  }

  lemma {:induction false} NoFrameLeft(s: seq<Byte>)
    ensures Parse(s).frames == [] ==> Parse(s).rest == s
  {
  }

  lemma {:induction false} OtherCaught(start: Life, l: Life, stream: seq<Byte>, acts: seq<Act>, x: Input)
    requires Caught(start, l, stream, acts) && !x.Tcp?
    ensures Caught(start, Extend(l, StepOf(l.conn, x)), stream, acts + NewActs(stream, x))
  {
    hide Parse, ActsLife, StepOf, ActLife;
    OtherHandled(l, x);
    var a := if x.Udp? then Arrived(x.opcode, x.body) else Identified(x.playerId);
    assert OtherAct(x) == [a];
    OneAct(Blank(l), a);
    ActsLifeConcat(Blank(start), acts, [a]);
  }

  lemma {:induction false} SessionCaught(start: Life, xs: seq<Input>)
    requires start.conn.tcp == EMPTY && start.conn.state != Closed && Calm(start, xs)
    ensures Caught(start, LifeOf(start, xs), Offered(xs), ActsOf(xs))
  {
    hide Caught, TcpStep, StepOf, ActsLife, NewActs, Calm, WithinLimits;
    if xs == [] {
      StartCaught(start);
    } else {
      var before, x := xs[..|xs| - 1], xs[|xs| - 1];
      CalmInit(start, xs);
      SessionCaught(start, before);
      var l := LifeOf(start, before);
      if x.Tcp? {
        TcpStepIs(l.conn, x.data);
        ChunkCaught(start, l, Offered(before), ActsOf(before), x.data);
      } else {
        assert Offered(before) + [] == Offered(before);
        OtherCaught(start, l, Offered(before), ActsOf(before), x);
      }
    }
  }

  lemma {:induction false} StartCaught(start: Life)
    requires start.conn.tcp == EMPTY && start.conn.state != Closed
    ensures Caught(start, start, [], [])
  {
  }

  /**
   As long as no chunk exceeds the limits, a session is exactly the handling of its
   frames in the order they become complete, with every packet where it fell
   between them: nothing else of how the bytes were cut matters.
   */
  lemma {:induction false} SessionIsActs(start: Life, xs: seq<Input>)
    requires start.conn.tcp == EMPTY && start.conn.state != Closed && Calm(start, xs)
    ensures Blank(LifeOf(start, xs)) == ActsLife(Blank(start), ActsOf(xs))
    ensures FramesIn(ActsOf(xs)) == Parse(Offered(xs)).frames && OthersIn(ActsOf(xs)) == Others(xs)
  {
    hide ActsLife, FramesIn, OthersIn, Calm, LifeOf, ActsOf, Others;
    SessionCaught(start, xs);
    ActsHoldFrames(xs);
  }

  /** The acts are the frames of the one-shot parse and the other inputs, each in order. */
  lemma {:induction false} ActsHoldFrames(xs: seq<Input>)
    ensures FramesIn(ActsOf(xs)) == Parse(Offered(xs)).frames && OthersIn(ActsOf(xs)) == Others(xs)
  {
    hide Parse, FramesIn, OthersIn, Chunk;
    if xs == [] {
      NoActs();
    } else {
      var before, x := xs[..|xs| - 1], xs[|xs| - 1];
      ActsHoldFrames(before);
      var stream, acts := Offered(before), NewActs(Offered(before), x);
      PartsConcat(ActsOf(before), acts);
      if x.Tcp? {
        ParseConcat(stream, x.data);
        var q := Parse(Parse(stream).rest + x.data);
        ChunkParts(q.frames, q.bad);
        NoActs();
        assert Others(before) + [] == Others(before);
        if Parse(stream).bad {
          BadStreamStays(stream, x.data);
          assert Parse(stream).frames + [] == Parse(stream).frames;
        }
      } else {
        assert acts == [acts[0]];
        OneActParts(acts[0]);
        assert stream + [] == stream && Parse(stream).frames + [] == Parse(stream).frames;
      }
    }
  }

  lemma {:induction false} NoActs()
    ensures FramesIn([]) == [] && OthersIn([]) == [] && Parse([]).frames == []
  {
  }

  /** Two ways of cutting the same bytes, with the packets between the same frames, give the same session. */
  lemma {:induction false} ChunkingIndependent(start: Life, xs: seq<Input>, ys: seq<Input>)
    requires start.conn.tcp == EMPTY && start.conn.state != Closed
    requires Calm(start, xs) && Calm(start, ys) && ActsOf(xs) == ActsOf(ys)
    ensures Blank(LifeOf(start, xs)) == Blank(LifeOf(start, ys))
  {
    hide LifeOf, ActsOf, ActsLife, Calm;
    SessionCaught(start, xs);
    SessionCaught(start, ys);
  }

  ghost predicate TcpOnly(xs: seq<Input>) {
    forall i :: 0 <= i < |xs| ==> xs[i].Tcp?
  }

  /** Without packets the acts are fixed by the bytes: any two ways of cutting them are alike. */
  lemma {:induction false} TcpOnlyActs(xs: seq<Input>)
    requires TcpOnly(xs)
    ensures ActsOf(xs) == Chunk(Parse(Offered(xs)).frames, Parse(Offered(xs)).bad)
  {
    hide Parse, Gots;
    if xs == [] {
      NoActs();
      NoBytes();
    } else {
      var before, x := xs[..|xs| - 1], xs[|xs| - 1];
      TcpOnlyActs(before);
      var p := Parse(Offered(before));
      var q := Parse(p.rest + x.data);
      ParseConcat(Offered(before), x.data);
      if p.bad {
        BadStreamStays(Offered(before), x.data);
        assert ActsOf(before) + [] == ActsOf(before);
      } else {
        GotsConcat(p.frames, q.frames);
        assert Gots(p.frames) + [] == Gots(p.frames);
        ConcatAssoc(Gots(p.frames), Gots(q.frames), if q.bad then [Cut] else []);
      }
    }
  }

  /** So two ways of cutting the same bytes, with no packet between them, give the same session. */
  lemma {:induction false} CutsIndependent(start: Life, xs: seq<Input>, ys: seq<Input>)
    requires start.conn.tcp == EMPTY && start.conn.state != Closed
    requires TcpOnly(xs) && Calm(start, xs) && TcpOnly(ys) && Calm(start, ys) && Offered(xs) == Offered(ys)
    ensures Blank(LifeOf(start, xs)) == Blank(LifeOf(start, ys))
  {
    hide LifeOf, ActsOf, ActsLife, Calm, Chunk, Offered;
    TcpOnlyActs(xs);
    TcpOnlyActs(ys);
    ChunkingIndependent(start, xs, ys);
  }

  lemma {:induction false} GotsConcat(a: seq<Frame>, b: seq<Frame>)
    ensures Gots(a + b) == Gots(a) + Gots(b)
  {
  }
}
