/**
 Which frames a session survives, byte by byte and state by state, and what each
 does to it; so that harmless frames anywhere in a client's script change nothing.
 */
module Survival {
  import opened Bits
  import opened Cursors
  import opened Framing
  import opened Queues
  import opened Packets
  import opened PacketBytes
  import opened Protocol
  import opened Sessions
  import opened Logins
  import opened Handshake
  import opened Chunking
  import Opcodes

  // ---- Reading numbers off bytes -----------------------------------------------------------------

  /** Four bytes as a signed number, high byte first. */
  function Word(b: seq<Byte>): I32
    requires |b| == 4
  {
    SignExtend(0x100_0000 * (b[0] as int) + 0x1_0000 * (b[1] as int) + 0x100 * (b[2] as int) + b[3])
  }

  lemma {:induction false} WordBytes(b: seq<Byte>)
    requires |b| == 4
    ensures var v := 0x100_0000 * (b[0] as int) + 0x1_0000 * (b[1] as int) + 0x100 * (b[2] as int) + b[3];
            0 <= v < 0x1_0000_0000 && Be32(v) == b && Be32(Word(b)) == b
  {
    hide Be16;
    var x, y := 0x100 * (b[0] as int) + b[1], 0x100 * (b[2] as int) + b[3];
    var v := 0x1_0000 * x + y;
    assert v / 0x1_0000 == x;
    HalfBytes(b[0], b[1]);
    HalfBytes(b[2], b[3]);
    Low16(v);
    assert v % 0x1_0000 == y;
    assert Be32(v) == b;
    Low32Bytes(Word(b));
    assert Word(b) % 0x1_0000_0000 == v;
  }

  lemma {:induction false} HalfBytes(x: Byte, y: Byte)
    ensures Be16(0x100 * (x as int) + y) == [x, y]
  {
  }

  /** Reading a 32-bit number takes exactly four bytes and nothing else decides whether it can. */
  lemma {:induction false} TakeWord(b: seq<Byte>)
    ensures ReadI32(Start(b)).1 == if |b| < 4 then None else Some(Word(b[..4]))
    ensures |b| >= 4 ==> ReadI32(Start(b)).0 == Start(b[4..])
  {
    hide BitsOf, ValueOf, SignExtend, Unpack, ReadI32, Word;
    TakeI32(b);
    if |b| >= 4 {
      WordRead(b);
    }
  }

  lemma {:induction false} WordRead(b: seq<Byte>)
    requires |b| >= 4
    ensures ReadI32(Start(b)).1 == Some(Word(b[..4]))
  {
    hide BitsOf, ValueOf, SignExtend, Unpack, Be32;
    var w := b[..4];
    WordBytes(w);
    var v := 0x100_0000 * (w[0] as int) + 0x1_0000 * (w[1] as int) + 0x100 * (w[2] as int) + w[3];
    FourBytesBits(v);
    assert b == w + b[4..];
    UnpackConcat(w, b[4..]);
    assert Unpack(b)[..32] == BitsOf(v, 32);
    ValueOfBitsOf(v, 32);
    Pow2Values();
    assert v % 0x1_0000_0000 == v;
  }

  // ---- The survival condition ------------------------------------------------------------------------

  /** The right protocol version stands at this place. */
  predicate RightVersion(body: seq<Byte>, at: nat) {
    |body| >= at + 4 && body[at..at + 4] == [0, 0, 0x4E, 0x89]
  }

  /** A counted printable text of at most 255 characters stands in front. */
  predicate TextInFront(body: seq<Byte>) {
    var t := FrontText(body, 256);
    t.Some? && forall i :: 0 <= i < |t.value.text| ==> 0x20 <= t.value.text[i] <= 0x7E
  }

  predicate LoginReads(body: seq<Byte>) {
    TextInFront(body) || (body != [] && TextInFront(body[1..]))
  }

  /** What the bytes of a login say: the text in front, or behind a type byte one or two texts. */
  function LoginTexts(body: seq<Byte>): Login
    requires LoginReads(body)
  {
    if TextInFront(body) then Login(FrontText(body, 256).value.text, None)
    else
      var first := FrontText(body[1..], 256).value;
      Login(first.text, if TextInFront(first.rest) then Some(FrontText(first.rest, 256).value.text) else None)
  }

  /** Thirteen bytes asking for team 1 or 2, or twenty-one naming two ids that are not negative. */
  predicate RequestAllowed(body: seq<Byte>) {
    && |body| >= 13
    && if body[4] == 1 then body[5..9] == [0, 0, 0, 1] || body[5..9] == [0, 0, 0, 2]
       else |body| >= 21 && body[5] < 0x80 && body[9] < 0x80
  }

  /** The opcodes of the protocol that a client may send. */
  predicate Listed(opcode: Byte) {
    || opcode == 0x00 || opcode == 0x02 || opcode == 0x03 || opcode == 0x08 || opcode == 0x09 || opcode == 0x0A
    || opcode == 0x0B || opcode == 0x0C || opcode == 0x0E || opcode == 0x0F || opcode == 0x13 || opcode == 0x15
    || opcode == 0x16 || opcode == 0x17 || opcode == 0x18 || opcode == 0x1A || opcode == 0x1E || opcode == 0x20
    || opcode == 0x21 || opcode == 0x22 || opcode == 0x23 || opcode == 0x24 || opcode == 0x25 || opcode == 0x28
    || opcode == 0x2B || opcode == 0x2F || opcode == 0x32 || opcode == 0x33 || opcode == 0x35 || opcode == 0x39
    || opcode == 0x3A || opcode == 0x4D || opcode == 0x4E || opcode == 0x4F || opcode == 0x54
  }

  lemma {:induction false} KnownListed(opcode: Byte)
    ensures Opcodes.IsKnownOpcode(opcode) <==> Listed(opcode)
  {
    if Opcodes.IsKnownOpcode(opcode) {
      var i :| 0 <= i < |Opcodes.KNOWN| && Opcodes.KNOWN[i] == opcode;
    }
    if Listed(opcode) {
      assert exists i :: 0 <= i < 35 && Opcodes.KNOWN[i] == opcode;
    }
  }

  /** The frames a session survives. */
  predicate Survives(state: ConnState, f: Frame) {
    && Listed(f.opcode)
    && (f.opcode == 0x54 ||
        match state
        case AwaitingKeyEcho =>
          f.opcode == 0x13 && f.body != [] && (f.body[0] == 0 ==> RightVersion(f.body, 1))
        case AwaitingUsername =>
          || (f.opcode == 0x13 && f.body != [] && (f.body[0] == 2 || (f.body[0] == 0 && RightVersion(f.body, 1))))
          || (f.opcode == 0x21 && LoginReads(f.body))
        case AwaitingPassword => f.opcode == 0x21 && LoginReads(f.body)
        case Verified => f.opcode == 0x4E ==> |f.body| >= 4
        case InGame => (f.opcode == 0x4E ==> |f.body| >= 4) && (f.opcode == 0x25 ==> RequestAllowed(f.body))
        case Closed => false)
  }

  /** The frames that do something to a session that survives them. */
  predicate Acts(state: ConnState, f: Frame) {
    match state
    case AwaitingKeyEcho => false
    case AwaitingUsername => f.opcode == 0x21
    case AwaitingPassword => f.opcode == 0x21
    case Verified => f.opcode == 0x4E || f.opcode == 0x39
    case InGame => f.opcode == 0x4E || f.opcode == 0x25
    case Closed => false
  }

  lemma {:induction false} VersionRead(body: seq<Byte>)
    requires body != []
    ensures HelloVersionOk(ReadByte(Start(body)).0) <==> RightVersion(body, 1)
  {
    hide ReadI32, ReadByte, Word, Unpack;
    TakeByte(body);
    TakeWord(body[1..]);
    if |body| >= 5 {
      var w := body[1..][..4];
      assert w == body[1..5];
      WordBytes(w);
      VersionWord(w);
    }
  }

  lemma {:induction false} VersionWord(w: seq<Byte>)
    requires |w| == 4
    ensures Word(w) == PROTOCOL_VERSION <==> w == [0, 0, 0x4E, 0x89]
  {
    hide Word, Be32;
    WordBytes(w);
    VersionSpelled();
    if w == [0, 0, 0x4E, 0x89] {
      VersionWorth();
    }
  }

  lemma {:induction false} VersionSpelled()
    ensures Be32(PROTOCOL_VERSION) == [0, 0, 0x4E, 0x89]
  {
  }

  lemma {:induction false} VersionWorth()
    ensures Word([0, 0, 0x4E, 0x89]) == PROTOCOL_VERSION
  {
  }

  lemma {:induction false} TakenText(body: seq<Byte>)
    ensures var (c, t) := TakeAcceptable(Start(body));
            if TextInFront(body) then
              var front := FrontText(body, 256).value;
              c == Start(front.rest) && t == Some(front.text)
            else t == None
    ensures TextInFront(body) ==> FrontText(body, 256).Some?
  {
    hide ReadString, Unpack;
    ReadStringExact(body, MAX_STRING_LEN);
  }

  lemma {:induction false} LoginRead(body: seq<Byte>)
    ensures ReadLogin(Start(body)) == if LoginReads(body) then Some(LoginTexts(body)) else None
  {
    hide TakeAcceptable, TextInFront, ReadByte, Unpack, FrontText;
    TakenText(body);
    TakeByte(body);
    if body != [] && !TextInFront(body) {
      TakenText(body[1..]);
      if TextInFront(body[1..]) {
        TakenText(FrontText(body[1..], 256).value.rest);
      }
    }
  }

  lemma {:induction false} HellosSurvive(f: Frame)
    ensures AwaitingKeyEchoOk(f.opcode, Start(f.body))
            <==> f.opcode == 0x13 && f.body != [] && (f.body[0] == 0 ==> RightVersion(f.body, 1))
    ensures PostLinkHelloOk(Start(f.body))
            <==> f.body != [] && (f.body[0] == 2 || (f.body[0] == 0 && RightVersion(f.body, 1)))
  {
    hide ReadByte, HelloVersionOk, Unpack, RightVersion;
    TakeByte(f.body);
    if f.body != [] {
      VersionRead(f.body);
    }
  }

  // ---- Requests, byte by byte --------------------------------------------------------------------------

  /** What a request's bytes ask for. */
  lemma {:induction false} RequestBytes(body: seq<Byte>)
    requires |body| >= 13 && (body[4] == 1 || |body| >= 21)
    ensures var (sequence, first, second) := (FromBigEndian(body), Word(body[5..9]), Word(body[9..13]));
            ReadRequest(body)
            == Some(if body[4] == 1 then Request(sequence, true, first, 0, 0)
                    else Request(sequence, false, 0, first, second))
  {
    hide ReadU16, ReadByte, ReadI32, Unpack, Word, FromBigEndian;
    TakeU16(body);
    TakeU16(body[2..]);
    assert body[2..][2..] == body[4..];
    TakeByte(body[4..]);
    assert body[4..][1..] == body[5..];
    TakeWord(body[5..]);
    assert body[5..][4..] == body[9..] && body[5..][..4] == body[5..9];
    TakeWord(body[9..]);
    assert body[9..][4..] == body[13..] && body[9..][..4] == body[9..13];
    TakeWord(body[13..]);
    if |body| >= 21 {
      assert body[13..][4..] == body[17..];
      TakeWord(body[17..]);
    }
  }

  lemma {:induction false} WordSign(b: seq<Byte>)
    requires |b| == 4
    ensures Word(b) >= 0 <==> b[0] < 0x80
    ensures (Word(b) == 1 <==> b == [0, 0, 0, 1]) && (Word(b) == 2 <==> b == [0, 0, 0, 2])
  {
  }

  /** The command a request's bytes ask for. */
  function Asked(id: nat, body: seq<Byte>): ClientCommand
    requires |body| >= 13
  {
    if body[4] == 1 then TeamCommand(id, body[8]) else SpawnCommand(id, Word(body[5..9]), Word(body[9..13]))
  }

  lemma {:induction false} RequestTaken(c: Conn, body: seq<Byte>)
    ensures TcpReincarnateOf(c, body)
            == if !RequestAllowed(body) then Ignored(false, c)
               else Handled(true, c, [Asked(c.sessionId, body)], [])
  {
    hide ReadRequest, Word, FromBigEndian;
    RequestReadable(body);
    if |body| >= 13 && (body[4] == 1 || |body| >= 21) {
      RequestBytes(body);
      WordSign(body[5..9]);
      WordSign(body[9..13]);
    }
  }

  lemma {:induction false} RateTaken(c: Conn, body: seq<Byte>)
    ensures BpsOf(c, Start(body))
            == if |body| < 4 then Ignored(false, c) else Handled(true, c, [], Packet(0x4E, body[..4] + [1]))
  {
    hide ReadI32, Word, BpsReply, Be32, Be16, Unpack;
    TakeWord(body);
    if |body| >= 4 {
      WordBytes(body[..4]);
      BpsBytes(Word(body[..4]));
    }
  }

  // ---- The guarantee ------------------------------------------------------------------------------------

  /**
   Exactly which frames an open session survives, from the bytes alone: before the
   link a HELLO with the right version if it states one, then a HELLO confirmation or
   a readable LOGIN, and once logged in every known packet but a BPS without a rate
   and, in the game, a request that is cut short or asks for what is not allowed.
   */
  lemma {:induction false} FrameSurvival(c: Conn, f: Frame)
    requires c.state != Closed
    ensures FrameOf(c, f).ok <==> Survives(c.state, f)
  {
    hide AwaitingKeyEchoOk, PostLinkHelloOk, ReadLogin, BpsOf, TcpReincarnateOf, LoginReads, RightVersion,
      RequestAllowed, Opcodes.IsKnownOpcode, Listed, Bringup, LoginTexts, Asked, Packet;
    KnownListed(f.opcode);
    HellosSurvive(f);
    LoginRead(f.body);
    RateTaken(c, f.body);
    RequestTaken(c, f.body);
  }

  /**
   What a survived frame does: nothing at all, except a login, a granted rate, the
   wish for updates of a verified session, and a request in the game; a frame that is
   not survived leaves nothing but the closing.
   */
  lemma {:induction false} FrameEffects(c: Conn, f: Frame)
    requires c.state != Closed
    ensures var h := FrameOf(c, f);
            && (!Survives(c.state, f) ==> h == Handled(false, c, [], []))
            && (Survives(c.state, f) && !Acts(c.state, f) ==> h == Handled(true, c, [], []))
            && (Survives(c.state, f) && (c.state == Verified || c.state == InGame) && f.opcode == 0x4E ==>
                  h == Handled(true, c, [], Packet(0x4E, f.body[..4] + [1])))
            && (Survives(c.state, f) && c.state == Verified && f.opcode == 0x39 ==>
                  h == Handled(true, c.(state := InGame), [Plain(WantUpdates, c.sessionId, [])], []))
            && (Survives(c.state, f) && c.state == InGame && f.opcode == 0x25 ==>
                  h == Handled(true, c, [Asked(c.sessionId, f.body)], []))
  {
    hide AwaitingKeyEchoOk, PostLinkHelloOk, ReadLogin, BpsOf, TcpReincarnateOf, LoginReads, RightVersion,
      RequestAllowed, Opcodes.IsKnownOpcode, Listed, LoginDone, Word, Packet;
    KnownListed(f.opcode);
    HellosSurvive(f);
    LoginRead(f.body);
    RateTaken(c, f.body);
    RequestTaken(c, f.body);
  }

  /**
   What a login does, from its bytes: a name with a password verifies the session, a
   name alone is answered by asking for the password, and once it was, the second
   text, or the only one, is the password.
   */
  lemma {:induction false} LoginEffects(c: Conn, f: Frame)
    requires f.opcode == 0x21 && LoginReads(f.body)
    ensures var (h, t) := (FrameOf(c, f), LoginTexts(f.body));
            && (c.state == AwaitingUsername && t.secondary.Some? ==>
                  var c' := LoggedInAs(c, t.primary);
                  h == Handled(true, c', LoginCommands(c.sessionId, t.primary, t.secondary.value), Bringup(c')))
            && (c.state == AwaitingUsername && t.secondary.None? ==>
                  h == Handled(true, c.(username := t.primary, state := AwaitingPassword),
                               [Plain(LoginUser, c.sessionId, t.primary)], [0, 5, 0x22, 1, 1]))
            && (c.state == AwaitingPassword ==>
                  h == Handled(true, c.(state := Verified),
                               [Plain(LoginPassword, c.sessionId, t.secondary.GetOr(t.primary)),
                                Plain(ClientConnected, c.sessionId, c.username)],
                               Bringup(c.(state := Verified))))
  {
    hide ReadLogin, LoginReads, LoginTexts, Bringup, LoginStatus;
    LoginRead(f.body);
    LoginStatusBytes(true, ASK_PASSWORD);
    assert f == LoginFrame(f.body);
    LoginFrameOf(c, f.body);
  }

  // ---- UDP packets --------------------------------------------------------------------------------------

  /** The key is echoed: a one, then the key as a counted text. */
  predicate EchoOf(body: seq<Byte>, key: Text) {
    && body != [] && body[0] == 1
    && var t := FrontText(body[1..], 256);
       t.Some? && t.value.text == key
  }

  lemma {:induction false} EchoRead(body: seq<Byte>, key: Text)
    ensures ReadKeyEcho(body) == Some(key) <==> EchoOf(body, key)
  {
    hide ReadString, ReadByte, FrontText, Unpack;
    TakeByte(body);
    if body != [] {
      ReadStringExact(body[1..], MAX_STRING_LEN);
    }
  }

  lemma {:induction false} PingTaken(c: Conn, body: seq<Byte>)
    requires c.state != Closed
    ensures UdpStep(c, 0x0B, body)
            == Still(c).(datagrams := [[0x0C] + if |body| < 4 then [0, 0, 0, 0] else body[..4]])
  {
    hide ReadI32, UdpPong, Word, Be32;
    TakeWord(body);
    SmallAs32();
    if |body| < 4 {
      PongBytes(0);
    } else {
      WordBytes(body[..4]);
      PongBytes(Word(body[..4]));
    }
  }

  /** The acknowledgement of a request under this sequence. */
  function RequestAck(sequence: U16, body: seq<Byte>): seq<Byte>
    requires |body| >= 2
  {
    [2] + Be16(sequence) + [0, 9, 1, 0x25] + body[..2]
  }

  /** A request that is allowed is queued, acknowledged under the next sequence and, for a team, reported. */
  lemma {:induction false} UdpRequestTaken(c: Conn, body: seq<Byte>)
    ensures UdpReincarnateOf(c, body)
            == if !RequestAllowed(body) then Still(c).(close := true)
               else
                 var sequence := (c.udpSequence + 1) % 0x1_0000;
                 Step(c.(udpSequence := sequence), [Asked(c.sessionId, body)], [], RequestAck(sequence, body),
                      if body[4] == 1 then [UdpUpdateStats(PlayerId(c), body[8])] else [], false)
  {
    hide ReadRequest, Word, Be16, UdpAck, UdpUpdateStats;
    RequestReadable(body);
    if |body| >= 13 && (body[4] == 1 || |body| >= 21) {
      RequestBytes(body);
      WordSign(body[5..9]);
      WordSign(body[9..13]);
      AckBytes((c.udpSequence + 1) % 0x1_0000, 0x25, FromBigEndian(body));
      HalfBytes(body[0], body[1]);
      assert body[..2] == [body[0], body[1]];
    }
  }

  /**
   What a UDP packet other than a handshake does to an open session, from its bytes: a
   ping is answered with its own four bytes, a request in the game is taken or refused,
   input in the game only queues commands, and the session's own key links it once. Any
   other packet does nothing at all.
   */
  lemma {:induction false} PacketEffects(c: Conn, opcode: Byte, body: seq<Byte>)
    requires c.state != Closed && opcode != 0x03
    ensures var s := UdpStep(c, opcode, body);
            if opcode == 0x0B then
              s == Still(c).(datagrams := [[0x0C] + if |body| < 4 then [0, 0, 0, 0] else body[..4]])
            else if opcode == 0x25 && c.state == InGame then s == UdpReincarnateOf(c, body)
            else if (opcode == 0x09 || opcode == 0x0A) && c.state == InGame then s == Still(c).(cmds := s.cmds)
            else if opcode == 0x13 && !c.udpLinked && EchoOf(body, c.key) then
              s == Still(c.(udpLinked := true,
                            state := if c.state == AwaitingKeyEcho then AwaitingUsername else c.state))
                   .(tcpOut := [0, 3, 0x4D])
            else s == Still(c)
  {
    hide ReadKeyEcho, UdpPong, ReadI32, EchoOf, UdpReincarnateOf, DecodedOf, ActionCommands, IdentifiedUdp;
    if opcode == 0x0B {
      PingTaken(c, body);
    }
    EchoRead(body, c.key);
    HelloBytes([]);
  }

  // ---- Scripts with harmless frames between ---------------------------------------------------------------

  /** Frames that a session in this state survives and that do nothing to it. */
  ghost predicate Idle(state: ConnState, fs: seq<Frame>) {
    forall i :: 0 <= i < |fs| ==> Survives(state, fs[i]) && !Acts(state, fs[i])
  }

  lemma {:induction false} IdleLife(l: Life, fs: seq<Frame>)
    requires l.conn.state != Closed && Idle(l.conn.state, fs)
    ensures ActsLife(l, Gots(fs)) == l
  {
    hide FrameOf, Survives, Acts;
    GotsLife(l, fs);
    IdleFrames(l, fs);
  }

  lemma {:induction false} IdleFrames(l: Life, fs: seq<Frame>)
    requires l.conn.state != Closed && Idle(l.conn.state, fs)
    ensures FramesLife(l, fs) == l
    decreases |fs|
  {
    hide FrameOf, Survives, Acts;
    if fs != [] {
      FrameEffects(l.conn, fs[0]);
      assert l.cmds + [] == l.cmds && l.sent + [] == l.sent;
      assert FrameLife(l, fs[0]) == l;
      IdleFrames(l, fs[1..]);
    }
  }

  /** The echo, one typed login and the wish for updates, with harmless frames anywhere between. */
  function ClientActs(key: Text, user: Text, pass: Text, rest: seq<Byte>, wish: seq<Byte>, before: seq<Frame>,
                  linked: seq<Frame>, verified: seq<Frame>, playing: seq<Frame>): seq<Act>
    requires |user| < 0xFFFF && |pass| < 0xFFFF
  {
    Gots(before) + [Arrived(Opcodes.HELLO, EchoBody(key))]
    + Gots(linked) + [Got(LoginFrame(TypedBody(user, pass, rest)))]
    + Gots(verified) + [Got(WantFrame(wish))]
    + Gots(playing)
  }

  /** Harmless frames, then one act that matters. */
  lemma {:induction false} IdleThen(l: Life, done: seq<Act>, fs: seq<Frame>, a: Act, start: Life)
    requires ActsLife(start, done) == l && l.conn.state != Closed && Idle(l.conn.state, fs)
    ensures ActsLife(start, done + Gots(fs) + [a]) == ActLife(l, a)
    ensures ActsLife(start, done + Gots(fs)) == l
  {
    hide ActLife, Survives, Acts, ActsLife, Gots;
    ActsLifeConcat(start, done, Gots(fs));
    IdleLife(l, fs);
    ActsLifeConcat(start, done + Gots(fs), [a]);
    OneAct(l, a);
  }

  lemma {:induction false} EchoActs(c: Conn, cmds: seq<ClientCommand>, sent: seq<Byte>)
    requires c.state == AwaitingKeyEcho && !c.udpLinked && IsAscii(c.key) && |c.key| <= 255
    ensures ActLife(Life(c, cmds, sent), Arrived(Opcodes.HELLO, EchoBody(c.key)))
            == Life(c.(udpLinked := true, state := AwaitingUsername), cmds, sent + IdentifiedUdp())
  {
    hide UdpStep, EchoBody, IsAscii, IdentifiedUdp, FrameLife;
    EchoLinks(c);
    assert cmds + [] == cmds;
  }

  lemma {:induction false} LoginActs(c: Conn, cmds: seq<ClientCommand>, sent: seq<Byte>, user: Text, pass: Text,
                                     rest: seq<Byte>)
    requires c.state == AwaitingUsername && GoodName(user) && |user| <= 254 && GoodName(pass)
    ensures ActLife(Life(c, cmds, sent), Got(LoginFrame(TypedBody(user, pass, rest))))
            == Life(LoggedInAs(c, user), cmds + LoginCommands(c.sessionId, user, pass),
                    sent + Bringup(LoggedInAs(c, user)))
  {
    hide ReadLogin, TypedBody, Printable, Bringup, FrameOf;
    TypedLogin(user, pass, rest);
    LoginFrameOf(c, TypedBody(user, pass, rest));
    var done := LoginDone(c.(username := user), pass);
    assert [Plain(LoginUser, c.sessionId, user)] + done.cmds == LoginCommands(c.sessionId, user, pass);
  }

  lemma {:induction false} WishActs(c: Conn, cmds: seq<ClientCommand>, sent: seq<Byte>, wish: seq<Byte>)
    requires c.state == Verified
    ensures ActLife(Life(c, cmds, sent), Got(WantFrame(wish)))
            == Life(c.(state := InGame), cmds + [Plain(WantUpdates, c.sessionId, [])], sent)
  {
    hide FrameOf, Opcodes.IsKnownOpcode;
    assert Survives(Verified, WantFrame(wish)) by { WantKnown(wish); }
    FrameEffects(c, WantFrame(wish));
    assert sent + [] == sent;
  }

  lemma {:induction false} WantKnown(wish: seq<Byte>)
    ensures Survives(Verified, WantFrame(wish))
  {
  }

  lemma {:induction false} ScriptPlays(id: nat, cfg: Config, key: Text, user: Text, pass: Text, rest: seq<Byte>,
                                       wish: seq<Byte>, before: seq<Frame>, linked: seq<Frame>,
                                       verified: seq<Frame>, playing: seq<Frame>)
    requires IsAscii(key) && |key| <= 255 && GoodName(user) && |user| <= 254 && GoodName(pass)
    requires Idle(AwaitingKeyEcho, before) && Idle(AwaitingUsername, linked)
    requires Idle(Verified, verified) && Idle(InGame, playing)
    ensures var c := NewConn(id, cfg, key);
            var c' := LoggedInAs(c.(udpLinked := true), user);
            ActsLife(Accepted(id, cfg, key), ClientActs(key, user, pass, rest, wish, before, linked, verified, playing))
            == Life(c'.(state := InGame), LoginCommands(id, user, pass) + [Plain(WantUpdates, id, [])],
                    AcceptBurst(c) + IdentifiedUdp() + Bringup(c'))
  {
    hide ActsLife, ActLife, Gots, Idle, AcceptBurst, IdentifiedUdp, Bringup, EchoBody, TypedBody, IsAscii, Printable;
    var start, c := Accepted(id, cfg, key), NewConn(id, cfg, key);
    var echo := Arrived(Opcodes.HELLO, EchoBody(key));
    var login, wanted := Got(LoginFrame(TypedBody(user, pass, rest))), Got(WantFrame(wish));
    assert ActsLife(start, []) == start by { NothingDone(start); }
    IdleThen(start, [], before, echo, start);
    assert [] + Gots(before) == Gots(before);
    EchoActs(c, [], AcceptBurst(c));
    var done1 := Gots(before) + [echo];
    var c1 := c.(udpLinked := true, state := AwaitingUsername);
    var sent1 := AcceptBurst(c) + IdentifiedUdp();
    IdleThen(Life(c1, [], sent1), done1, linked, login, start);
    LoginActs(c1, [], sent1, user, pass, rest);
    var done2 := done1 + Gots(linked) + [login];
    var c2 := LoggedInAs(c1, user);
    var cmds2 := LoginCommands(id, user, pass);
    assert [] + cmds2 == cmds2;
    IdleThen(Life(c2, cmds2, sent1 + Bringup(c2)), done2, verified, wanted, start);
    WishActs(c2, cmds2, sent1 + Bringup(c2), wish);
    var done3 := done2 + Gots(verified) + [wanted];
    IdleThen(Life(c2.(state := InGame), cmds2 + [Plain(WantUpdates, id, [])], sent1 + Bringup(c2)), done3, playing,
             echo, start);
  }

  /**
   Harmless frames change nothing: however a client's bytes are cut, if it echoes its
   key, logs in and asks for updates with any frames between that its state survives
   and that do nothing, it ends in the game under its name, having queued exactly the
   four login commands and been sent exactly the accept burst, IDENTIFIED_UDP and the
   bring-up.
   */
  lemma {:induction false} HarmlessFramesBetween(id: nat, cfg: Config, key: Text, user: Text, pass: Text,
                                                 rest: seq<Byte>, wish: seq<Byte>, before: seq<Frame>,
                                                 linked: seq<Frame>, verified: seq<Frame>, playing: seq<Frame>,
                                                 xs: seq<Input>)
    requires IsAscii(key) && |key| <= 255 && GoodName(user) && |user| <= 254 && GoodName(pass)
    requires Idle(AwaitingKeyEcho, before) && Idle(AwaitingUsername, linked)
    requires Idle(Verified, verified) && Idle(InGame, playing)
    requires Calm(Accepted(id, cfg, key), xs)
    requires ActsOf(xs) == ClientActs(key, user, pass, rest, wish, before, linked, verified, playing)
    ensures var c := NewConn(id, cfg, key);
            var c' := LoggedInAs(c.(udpLinked := true), user);
            && Blank(LifeOf(Accepted(id, cfg, key), xs)).conn == c'.(state := InGame)
            && LifeOf(Accepted(id, cfg, key), xs).cmds
               == LoginCommands(id, user, pass) + [Plain(WantUpdates, id, [])]
            && LifeOf(Accepted(id, cfg, key), xs).sent == AcceptBurst(c) + IdentifiedUdp() + Bringup(c')
  {
    hide ActsLife, Idle, AcceptBurst, IdentifiedUdp, Bringup, IsAscii, Printable, Calm, LifeOf, ActsOf, ClientActs;
    var start := Accepted(id, cfg, key);
    SessionCaught(start, xs);
    assert Blank(start) == start;
    ScriptPlays(id, cfg, key, user, pass, rest, wish, before, linked, verified, playing);
  }
}
