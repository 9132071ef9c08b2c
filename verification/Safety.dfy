/**
 Safety over whole runs of one connection: the state only moves forward, Closed
 absorbs, the UDP link means the session's own key was echoed, the backlog stays
 bounded, and everything sent on TCP parses.
 */
module Safety {
  import opened Bits
  import opened Cursors
  import opened Framing
  import opened Queues
  import opened Packets
  import opened Protocol
  import opened Sessions
  import Opcodes

  function Rank(state: ConnState): nat {
    match state
    case AwaitingKeyEcho => 0
    case AwaitingUsername => 1
    case AwaitingPassword => 2
    case Verified => 3
    case InGame => 4
    case Closed => 5
  }

  predicate SameIdentity(c: Conn, d: Conn) {
    c.sessionId == d.sessionId && c.cfg == d.cfg && c.key == d.key
  }

  /** From c to d nothing moved backwards. */
  predicate Onward(c: Conn, d: Conn) {
    SameIdentity(c, d) && Rank(c.state) <= Rank(d.state)
  }

  predicate BufferOk(c: Conn) {
    c.state != Closed ==> |c.tcp.buffer| <= MAX_BUFFERED_BYTES
  }

  // ---- One frame -----------------------------------------------------------------------------

  lemma {:induction false} LoginOnward(c: Conn, pass: Text)
    ensures var h := LoginDone(c, pass);
            h.conn == c.(state := Verified) && h.ok && IsFrames(h.out)
  {
    hide Bringup, IsFrames;
    BringupCounts(c.(state := Verified), 0);
  }

  /** A frame never moves the state back, links or feeds, and what it answers parses. */
  predicate FrameSafe(c: Conn, h: Handled) {
    && Onward(c, h.conn) && h.conn.tcp == c.tcp && h.conn.udpLinked == c.udpLinked && IsFrames(h.out)
    && (c.state == Closed ==> h == Ignored(false, c))
    && (c.state != Closed ==> h.conn.state != Closed)
  }

  lemma {:induction false} UsernameSafe(c: Conn, r: Cursor)
    requires c.state == AwaitingUsername
    ensures FrameSafe(c, UsernameOf(c, r))
  {
    hide LoginDone, ReadLogin, Framed, IsFrames;
    NothingSent();
    FramedPart(Opcodes.LOGIN_STATUS, [Octet(1), Octet(ASK_PASSWORD)]);
    var login := ReadLogin(r);
    if login.Some? && login.value.secondary.Some? {
      LoginOnward(c.(username := login.value.primary), login.value.secondary.value);
    }
  }

  lemma {:induction false} PasswordSafe(c: Conn, r: Cursor)
    requires c.state == AwaitingPassword
    ensures FrameSafe(c, PasswordOf(c, r))
  {
    hide LoginDone, ReadLogin, IsFrames;
    NothingSent();
    var login := ReadLogin(r);
    if login.Some? {
      LoginOnward(c, login.value.secondary.GetOr(login.value.primary));
    }
  }

  lemma {:induction false} BpsSafe(c: Conn, r: Cursor)
    requires c.state != Closed
    ensures FrameSafe(c, BpsOf(c, r))
  {
    hide ReadI32, Framed, IsFrames;
    NothingSent();
    var rate := ReadI32(r).1;
    if rate.Some? {
      FramedPart(Opcodes.BPS, [Int32(rate.value), Octet(1)]);
    }
  }

  lemma {:induction false} IgnoredSafe(c: Conn, ok: bool)
    requires c.state == Closed ==> !ok
    ensures FrameSafe(c, Ignored(ok, c))
  {
    hide IsFrames;
    NothingSent();
  }

  lemma {:induction false} ReincarnateSafe(c: Conn, body: seq<Byte>)
    requires c.state != Closed
    ensures FrameSafe(c, TcpReincarnateOf(c, body))
  {
    hide IsFrames, ReadRequest, RequestCommand;
    NothingSent();
  }

  lemma {:induction false} WantSafe(c: Conn)
    requires c.state == Verified
    ensures FrameSafe(c, Handled(true, c.(state := InGame), [Plain(WantUpdates, c.sessionId, [])], []))
  {
    hide IsFrames;
    NothingSent();
  }

  lemma {:induction false} FrameOfSafe(c: Conn, f: Frame)
    requires c.state != Closed
    ensures FrameSafe(c, FrameOf(c, f))
  {
    hide FrameSafe, UsernameOf, PasswordOf, BpsOf, TcpReincarnateOf, AwaitingKeyEchoOk, PostLinkHelloOk,
      Opcodes.IsKnownOpcode;
    var h := FrameOf(c, f);
    if h == Ignored(h.ok, c) {
      IgnoredSafe(c, h.ok);
    } else {
      match c.state
      case AwaitingUsername => UsernameSafe(c, Start(f.body));
      case AwaitingPassword => PasswordSafe(c, Start(f.body));
      case Verified => if f.opcode == Opcodes.BPS { BpsSafe(c, Start(f.body)); } else { WantSafe(c); }
      case InGame => if f.opcode == Opcodes.BPS { BpsSafe(c, Start(f.body)); } else { ReincarnateSafe(c, f.body); }
      case AwaitingKeyEcho =>
    }
  }

  // ---- One step ---------------------------------------------------------------------------------

  /** A step from c: the flag, the output and the backlog, besides moving onward. */
  ghost predicate TcpSafe(c: Conn, s: Step) {
    && Onward(c, s.conn) && s.conn.udpLinked == c.udpLinked
    && IsFrames(s.tcpOut)
    && (s.close <==> s.conn.state == Closed)
    && BufferOk(s.conn)
  }

  lemma {:induction false} NextShrinks(a: Acc)
    ensures |NextStep(a).0.buffer| <= |a.buffer|
  {
  }

  lemma {:induction false} DrainSafe(c: Conn, s: Step, n: nat)
    requires TcpSafe(c, s) && !s.close
    ensures TcpSafe(c, Drain(s, n))
    decreases n
  {
    hide NextStep, FrameOf, IsFrames;
    if n > 0 {
      var (a, f) := NextStep(s.conn.tcp);
      NextShrinks(s.conn.tcp);
      var popped := s.(conn := s.conn.(tcp := a));
      if !a.failed && f.Some? {
        var h := FrameOf(popped.conn, f.value);
        FrameOfSafe(popped.conn, f.value);
        FramesJoin(popped.tcpOut, h.out);
        var s' := AfterFrame(popped, h);
        if !s'.close {
          DrainSafe(c, s', n - 1);
        }
      }
    }
  }

  lemma {:induction false} FramesJoin(a: seq<Byte>, b: seq<Byte>)
    requires IsFrames(a) && IsFrames(b)
    ensures IsFrames(a + b)
  {
    hide Parse;
    FramesConcat(a, b);
  }

  /**
   A TCP chunk: the close flag says exactly that the connection is now Closed, and a
   live one holds at most 65536 bytes.
   */
  lemma {:induction false} TcpStepSafe(c: Conn, data: seq<Byte>)
    ensures TcpSafe(c, TcpStep(c, data))
  {
    hide Drain, FeedStep, IsFrames;
    NothingSent();
    var a := FeedStep(c.tcp, data);
    if c.state != Closed && !a.failed && |a.buffer| <= MAX_BUFFERED_BYTES {
      DrainSafe(c, Still(c.(tcp := a)), MAX_FRAMES_PER_DRAIN);
    }
  }

  /** A request the game refuses: unreadable, or naming what no client may. */
  predicate Refused(c: Conn, body: seq<Byte>) {
    var r := ReadRequest(body);
    r.None? || RequestCommand(c.sessionId, r.value).None?
  }

  predicate Echoes(c: Conn, x: Input) {
    x.Udp? && x.opcode == Opcodes.HELLO && ReadKeyEcho(x.body) == Some(c.key)
  }

  lemma {:induction false} IdentifiedParses()
    ensures IsFrames(IdentifiedUdp())
  {
    hide Framed, IsFrames;
    FramedPart(Opcodes.IDENTIFIED_UDP, []);
  }

  /**
   A UDP packet never closes the connection. It sets the close flag for one that
   is Closed already, or in the game for a refused request; it links exactly on an
   echo of the session's own key.
   */
  lemma {:induction false} UdpStepSafe(c: Conn, opcode: Byte, body: seq<Byte>)
    ensures var s := UdpStep(c, opcode, body);
            && Onward(c, s.conn) && s.conn.tcp == c.tcp && IsFrames(s.tcpOut)
            && (s.conn.state == Closed <==> c.state == Closed)
            && (s.close <==>
                  c.state == Closed || (c.state == InGame && opcode == Opcodes.REINCARNATE && Refused(c, body)))
            && (s.conn.udpLinked <==> c.udpLinked || (c.state != Closed && Echoes(c, Udp(opcode, body))))
  {
    hide IsFrames, IdentifiedUdp, HandshakeDatagrams, UdpPong, ReadRequest, RequestCommand, ReadKeyEcho, DecodedOf,
      UdpAck, UdpUpdateStats,
      ActionCommands;
    NothingSent();
    IdentifiedParses();
  }

  // ---- Whole runs --------------------------------------------------------------------------------

  lemma {:induction false} LifeSnoc(start: Life, xs: seq<Input>, x: Input)
    ensures LifeOf(start, xs + [x]) == Extend(LifeOf(start, xs), StepOf(LifeOf(start, xs).conn, x))
  {
    assert (xs + [x])[..|xs|] == xs;
  }

  lemma {:induction false} StepOnward(c: Conn, x: Input)
    ensures Onward(c, StepOf(c, x).conn)
  {
    hide TcpStep, UdpStep, IsFrames, BufferOk;
    match x
    case Tcp(data) => TcpStepSafe(c, data);
    case Udp(opcode, body) => UdpStepSafe(c, opcode, body);
    case Assign(_) =>
  }

  /** However a run goes on, the state never moves back, and session, settings and key never change. */
  lemma {:induction false} RunOnward(start: Life, xs: seq<Input>, ys: seq<Input>)
    ensures Onward(LifeOf(start, xs).conn, LifeOf(start, xs + ys).conn)
    decreases |ys|
  {
    hide StepOf;
    if ys == [] {
      assert xs + ys == xs;
    } else {
      var n := |ys| - 1;
      RunOnward(start, xs, ys[..n]);
      assert xs + ys == xs + ys[..n] + [ys[n]];
      LifeSnoc(start, xs + ys[..n], ys[n]);
      StepOnward(LifeOf(start, xs + ys[..n]).conn, ys[n]);
    }
  }

  /** A closed connection answers nothing, queues nothing and never leaves Closed. */
  lemma {:induction false} ClosedIsFinal(start: Life, xs: seq<Input>, ys: seq<Input>)
    requires LifeOf(start, xs).conn.state == Closed
    ensures var l, l' := LifeOf(start, xs), LifeOf(start, xs + ys);
            l'.conn.state == Closed && l'.cmds == l.cmds && l'.sent == l.sent && l'.conn.tcp == l.conn.tcp
    decreases |ys|
  {
    hide Drain, FeedStep, HandshakeDatagrams, GamePacketOf, LinkOf, UdpPong, ReadKeyEcho;
    if ys == [] {
      assert xs + ys == xs;
    } else {
      var n := |ys| - 1;
      ClosedIsFinal(start, xs, ys[..n]);
      assert xs + ys == xs + ys[..n] + [ys[n]];
      LifeSnoc(start, xs + ys[..n], ys[n]);
      var l := LifeOf(start, xs + ys[..n]);
      assert l.cmds + [] == l.cmds && l.sent + [] == l.sent;
    }
  }

  /** A live connection has got an echo of its key at some point of the run. */
  ghost predicate EchoSeen(start: Life, xs: seq<Input>) {
    exists i :: 0 <= i < |xs| && Echoes(start.conn, xs[i]) && LifeOf(start, xs[..i]).conn.state != Closed
  }

  lemma {:induction false} EchoSeenSnoc(start: Life, xs: seq<Input>, x: Input)
    ensures EchoSeen(start, xs + [x]) <==>
            EchoSeen(start, xs) || (Echoes(start.conn, x) && LifeOf(start, xs).conn.state != Closed)
  {
    hide LifeOf, Echoes;
    var all := xs + [x];
    forall i | 0 <= i < |xs| ensures all[..i] == xs[..i] && all[i] == xs[i] {
    }
    assert all[|xs|] == x && all[..|xs|] == xs;
    if EchoSeen(start, xs) {
      var i :| 0 <= i < |xs| && Echoes(start.conn, xs[i]) && LifeOf(start, xs[..i]).conn.state != Closed;
      assert Echoes(start.conn, all[i]) && LifeOf(start, all[..i]).conn.state != Closed;
    }
  }

  lemma {:induction false} StepLinks(c: Conn, x: Input)
    ensures StepOf(c, x).conn.udpLinked <==> c.udpLinked || (c.state != Closed && Echoes(c, x))
  {
    hide TcpStep, UdpStep, IsFrames, BufferOk, ReadKeyEcho;
    match x
    case Tcp(data) => TcpStepSafe(c, data);
    case Udp(opcode, body) => UdpStepSafe(c, opcode, body);
    case Assign(_) =>
  }

  /**
   The UDP link is exactly the record of a key echo: a session is linked if and
   only if, while it was not closed, a HELLO arrived carrying precisely its key.
   */
  lemma {:induction false} LinkedExactly(id: nat, cfg: Config, key: Text, xs: seq<Input>)
    ensures LifeOf(Accepted(id, cfg, key), xs).conn.udpLinked <==> EchoSeen(Accepted(id, cfg, key), xs)
  {
    hide StepOf, EchoSeen, Echoes, AcceptBurst;
    var start := Accepted(id, cfg, key);
    if xs == [] {
      NoEcho(start);
    } else {
      var before, x := xs[..|xs| - 1], xs[|xs| - 1];
      LinkedExactly(id, cfg, key, before);
      assert xs == before + [x];
      EchoSeenSnoc(start, before, x);
      LifeSnoc(start, before, x);
      StepLinks(LifeOf(start, before).conn, x);
      RunOnward(start, [], before);
      assert [] + before == before;
      EchoesByKey(start.conn, LifeOf(start, before).conn, x);
    }
  }

  lemma {:induction false} NoEcho(start: Life)
    ensures !EchoSeen(start, [])
  {
  }

  lemma {:induction false} EchoesByKey(c: Conn, d: Conn, x: Input)
    requires c.key == d.key
    ensures Echoes(c, x) == Echoes(d, x)
  {
  }

  /** No login without the echo: a live state past AwaitingKeyEcho means the key was echoed. */
  lemma {:induction false} LiveMeansEchoed(id: nat, cfg: Config, key: Text, xs: seq<Input>)
    requires 0 < Rank(LifeOf(Accepted(id, cfg, key), xs).conn.state) < 5
    ensures EchoSeen(Accepted(id, cfg, key), xs)
  {
    hide SentOk, AllWellFormed, EchoSeen, LifeOf;
    EveryLife(id, cfg, key, xs);
    LinkedExactly(id, cfg, key, xs);
  }

  /** A verified session has queued an accepted user name, then an accepted password, then its connection. */
  lemma {:induction false} VerifiedMeansLoggedIn(id: nat, cfg: Config, key: Text, xs: seq<Input>)
    requires LifeOf(Accepted(id, cfg, key), xs).conn.state in {Verified, InGame}
    ensures var cmds := LifeOf(Accepted(id, cfg, key), xs).cmds;
            && |cmds| >= 3
            && cmds[0].kind.LoginUser? && GoodName(cmds[0].text)
            && cmds[1].kind.LoginPassword? && GoodName(cmds[1].text)
            && cmds[2].kind.ClientConnected?
            && (LifeOf(Accepted(id, cfg, key), xs).conn.state == InGame <==> |cmds| >= 4)
  {
    hide SentOk, LifeOf, Printable, PhaseOf;
    var l := LifeOf(Accepted(id, cfg, key), xs);
    EveryLife(id, cfg, key, xs);
    PhaseShape(l.cmds);
    var ks := Kinds(l.cmds);
    var m := Min(|ks|, 4);
    forall i | 0 <= i < 3 ensures ks[i] == LOGIN_KINDS[i] {
      assert ks[i] == ks[..m][i] && LOGIN_KINDS[..m][i] == LOGIN_KINDS[i];
    }
    assert ks[0] == l.cmds[0].kind && ks[1] == l.cmds[1].kind && ks[2] == l.cmds[2].kind;
    assert WellFormed(l.cmds[0], l.conn.sessionId) && WellFormed(l.cmds[1], l.conn.sessionId);
  }

  lemma {:induction false} StepBuffer(c: Conn, x: Input)
    requires BufferOk(c)
    ensures BufferOk(StepOf(c, x).conn)
  {
    hide TcpStep, UdpStep, IsFrames;
    match x
    case Tcp(data) => TcpStepSafe(c, data);
    case Udp(opcode, body) => UdpStepSafe(c, opcode, body);
    case Assign(_) =>
  }

  /** A connection that is not closed never holds more than 65536 bytes of backlog. */
  lemma {:induction false} BacklogBounded(id: nat, cfg: Config, key: Text, xs: seq<Input>)
    ensures BufferOk(LifeOf(Accepted(id, cfg, key), xs).conn)
  {
    hide StepOf, AcceptBurst;
    if xs != [] {
      BacklogBounded(id, cfg, key, xs[..|xs| - 1]);
      StepBuffer(LifeOf(Accepted(id, cfg, key), xs[..|xs| - 1]).conn, xs[|xs| - 1]);
    }
  }

  /** A fresh accumulator drains these bytes to whole frames: nothing left over, no failure. */
  ghost predicate DrainsWhole(out: seq<Byte>) {
    var h := AccRun([Feed(out)] + Nexts(|Parse(out).frames| + 1));
    h.acc == Acc([], false) && h.popped == Parse(out).frames && EncodeAll(h.popped) == out
  }

  /** Whatever is sent on accepting a connection or by any step of it drains whole. */
  lemma {:induction false} OutputDrains(c: Conn, x: Input)
    ensures DrainsWhole(AcceptBurst(c)) && DrainsWhole(StepOf(c, x).tcpOut)
  {
    hide TcpStep, UdpStep, IsFrames, DrainsWhole, BufferOk, AcceptBurst;
    var out := StepOf(c, x).tcpOut;
    NothingSent();
    AcceptSent(c);
    match x {
      case Tcp(data) => TcpStepSafe(c, data);
      case Udp(opcode, body) => UdpStepSafe(c, opcode, body);
      case Assign(_) =>
    }
    FramesDrain(out);
    FramesDrain(AcceptBurst(c));
  }

  lemma {:induction false} FramesDrain(out: seq<Byte>)
    requires IsFrames(out)
    ensures DrainsWhole(out)
  {
    hide Parse, Nexts, EncodeAll, AccRun;
    var n := |Parse(out).frames| + 1;
    FedOnce(out);
    DrainReachesAll([Feed(out)], n);
    OfferedKept([Feed(out)], n);
    ParseExact(out);
    assert EncodeAll(Parse(out).frames) + [] == EncodeAll(Parse(out).frames);
  }

  lemma {:induction false} FedOnce(out: seq<Byte>)
    ensures AccRun([Feed(out)]).offered == out && AccRun([Feed(out)]).acc.buffer == out
  {
    assert [Feed(out)][..0] == [] && [] + out == out;
  }

  lemma {:induction false} OfferedKept(ops: seq<AccOp>, n: nat)
    ensures AccRun(ops + Nexts(n)).offered == AccRun(ops).offered
  {
    if n == 0 {
      assert ops + Nexts(0) == ops;
    } else {
      OfferedKept(ops, n - 1);
      assert (ops + Nexts(n))[..|ops| + n - 1] == ops + Nexts(n - 1);
    }
  }
}
