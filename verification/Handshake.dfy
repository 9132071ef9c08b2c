/**
 A client against the server, end to end: the key it is sent is the key it can
 echo, its requests are read as it meant them and acknowledged, and a client that
 follows the protocol is in the game after three messages.
 */
module Handshake {
  import opened Bits
  import opened Cursors
  import opened Framing
  import opened Queues
  import opened Packets
  import opened Protocol
  import opened Sessions
  import opened Logins
  import ActionInput
  import Opcodes

  // ---- The session key there and back -----------------------------------------------------------

  const CLIENT_STRING_CAP := 0xFFFF

  /** What a client makes of a HELLO frame carrying the session key. */
  function ReadSessionKey(f: Frame): Option<Text> {
    var (c1, sub) := ReadByte(Start(f.body));
    if f.opcode != Opcodes.HELLO || sub != Some(2) then None else ReadString(c1, CLIENT_STRING_CAP).1
  }

  function SessionKeyFields(key: Text): seq<Field> {
    [Octet(2)] + StringFields(key)
  }

  /** The body of the HELLO a client sends over UDP to echo a key. */
  function EchoBody(key: Text): seq<Byte> {
    Payload([Octet(HELLO_KEY_ECHO)] + StringFields(key))
  }

  lemma {:induction false} TextBehindTag(tag: Byte, t: Text)
    requires |t| < 0xFFFF
    ensures var fs := [Octet(tag)] + StringFields(t); |fs| >= 2 && StringAt(t, fs, 1) && fs[1] == Int16(|t| + 1)
  {
    hide AsciiOnly;
  }

  /** A type octet and a text read back. */
  lemma {:induction false} TaggedText(tag: Byte, t: Text, cap: nat)
    requires |t| < 0xFFFF && cap < 0x1_0000
    ensures var c := Start(Payload([Octet(tag)] + StringFields(t)));
            && ReadByte(c).1 == Some(tag)
            && ReadString(ReadByte(c).0, cap).1 == if |t| < cap then Some(Sanitized(t)) else None
  {
    hide Read, From, ReadString, ReadByte, Sanitized, AsciiOnly, StringAt, StringFields;
    var fs := [Octet(tag)] + StringFields(t);
    var c := Start(Payload(fs));
    var tail := Zeros(Padding(TotalWidth(fs)));
    AtStart(fs);
    ReadByteAt(c, fs, 0, tail);
    var c1 := ReadByte(c).0;
    TextBehindTag(tag, t);
    if |t| < cap {
      ReadStringAt(c1, t, fs, 1, tail, cap);
    } else {
      TooLong(c1, t, fs, tail, cap);
    }
  }

  lemma {:induction false} TooLong(c: Cursor, t: Text, fs: seq<Field>, tail: seq<bool>, cap: nat)
    requires |t| < 0xFFFF && cap <= |t| && |fs| >= 2 && fs[1] == Int16(|t| + 1) && At(c, fs, 1, tail)
    ensures ReadString(c, cap).1 == None
  {
    hide Read, From, ReadU16;
    ReadU16At(c, fs, 1, tail);
  }

  lemma {:induction false} KeyEchoRead(key: Text)
    requires |key| < 0xFFFF
    ensures ReadKeyEcho(EchoBody(key)) == if |key| <= 255 then Some(Sanitized(key)) else None
  {
    hide ReadString, ReadByte, Sanitized;
    TaggedText(HELLO_KEY_ECHO, key, MAX_STRING_LEN);
  }

  predicate IsAscii(t: Text) {
    forall i :: 0 <= i < |t| ==> t[i] < 0x80
  }

  lemma {:induction false} SanitizedExact(t: Text)
    ensures Sanitized(t) == t <==> IsAscii(t)
    ensures IsAscii(Sanitized(t))
  {
    if !IsAscii(t) {
      var i :| 0 <= i < |t| && t[i] >= 0x80;
      assert Sanitized(t)[i] != t[i];
    }
  }

  lemma {:induction false} SanitizedTwice(t: Text)
    ensures Sanitized(Sanitized(t)) == Sanitized(t)
  {
    SanitizedExact(t);
    SanitizedExact(Sanitized(t));
  }

  function KeyFrame(key: Text): Frame {
    Frame(Opcodes.HELLO, Payload(SessionKeyFields(key)))
  }

  lemma {:induction false} SessionKeyRead(key: Text)
    requires |key| < 0xFFFE
    ensures ReadSessionKey(KeyFrame(key)) == Some(Sanitized(key))
  {
    hide ReadString, ReadByte, Sanitized;
    TaggedText(2, key, CLIENT_STRING_CAP);
  }

  /** The accept burst is two HELLO frames, the second carrying the key. */
  lemma {:induction false} BurstFrames(c: Conn)
    requires Sendable(KeyFrame(c.key)) && |c.cfg.udpHost| <= 65000
    ensures var frames := Parse(AcceptBurst(c)).frames;
            |frames| == 2 && frames[0].opcode == Opcodes.HELLO && frames[1] == KeyFrame(c.key)
  {
    hide Framed, Parse, StringFields;
    var fs := [Octet(1), Int16(c.cfg.bindPort), Int16(1)] + StringFields(c.cfg.udpHost);
    HostWidth(c);
    FramedParse(Opcodes.HELLO, fs);
    FramedParse(Opcodes.HELLO, SessionKeyFields(c.key));
    FramesConcat(Framed(Opcodes.HELLO, fs), Framed(Opcodes.HELLO, SessionKeyFields(c.key)));
  }

  lemma {:induction false} HostWidth(c: Conn)
    requires |c.cfg.udpHost| <= 65000
    ensures |Payload([Octet(1), Int16(c.cfg.bindPort), Int16(1)] + StringFields(c.cfg.udpHost))| <= 65532
  {
    hide Payload, StringFields;
    var head := [Octet(1), Int16(c.cfg.bindPort), Int16(1)];
    ShortWidths(head[0], head[1], head[2], head[0]);
    StringFieldsWidth(c.cfg.udpHost);
    TotalWidthConcat(head, StringFields(c.cfg.udpHost));
    PayloadLength(head + StringFields(c.cfg.udpHost));
  }

  /**
   A client that echoes the key it was sent links its endpoint if and only if the
   key is ASCII and has at most 255 characters, as every key the acceptor makes is.
   */
  lemma {:induction false} EchoOfSentKeyLinks(id: nat, cfg: Config, key: Text)
    requires Sendable(KeyFrame(key)) && |key| < 0xFFFE && |cfg.udpHost| <= 65000
    ensures |Parse(AcceptBurst(NewConn(id, cfg, key))).frames| == 2
    ensures var c := NewConn(id, cfg, key);
            var seen := ReadSessionKey(Parse(AcceptBurst(c)).frames[1]);
            && seen.Some?
            && (UdpStep(c, Opcodes.HELLO, EchoBody(seen.value)).conn.udpLinked <==> IsAscii(key) && |key| <= 255)
  {
    hide Parse, AcceptBurst, KeyFrame, ReadSessionKey, ReadKeyEcho, EchoBody, Sanitized, IsAscii, IdentifiedUdp;
    BurstFrames(NewConn(id, cfg, key));
    SessionKeyRead(key);
    KeyEchoRead(Sanitized(key));
    SanitizedTwice(key);
    SanitizedExact(key);
  }

  /** With the one-byte key 0xE9 the client reads and echoes a question mark, and is never linked. */
  lemma {:induction false} AccentedKey(id: nat, cfg: Config)
    requires |cfg.udpHost| <= 65000
    ensures |Parse(AcceptBurst(NewConn(id, cfg, [0xE9]))).frames| == 2
    ensures var c := NewConn(id, cfg, [0xE9]);
            var seen := ReadSessionKey(Parse(AcceptBurst(c)).frames[1]);
            seen == Some([0x3F]) && !UdpStep(c, Opcodes.HELLO, EchoBody(seen.value)).conn.udpLinked
  {
    hide Parse, AcceptBurst, ReadSessionKey, UdpStep, EchoBody, KeyFrame;
    var key: Text := [0xE9];
    OneByteKeyFits();
    EchoOfSentKeyLinks(id, cfg, key);
    BurstFrames(NewConn(id, cfg, key));
    SessionKeyRead(key);
    assert key[0] >= 0x80 && Sanitized(key) == [0x3F];
  }

  lemma {:induction false} OneByteKeyFits()
    ensures Sendable(KeyFrame([0xE9]))
  {
    hide Payload, StringFields;
    var fs := SessionKeyFields([0xE9]);
    ShortWidths(Octet(2), Octet(2), Octet(2), Octet(2));
    StringFieldsWidth([0xE9]);
    TotalWidthConcat([Octet(2)], StringFields([0xE9]));
    PayloadLength(fs);
  }

  // ---- Into the game ------------------------------------------------------------------------------

  function WantFrame(body: seq<Byte>): Frame {
    Frame(Opcodes.WANT_UPDATES, body)
  }

  /** Echo, one typed login, WANT_UPDATES. */
  function ClientScript(key: Text, user: Text, pass: Text, rest: seq<Byte>): seq<Input>
    requires |user| < 0xFFFF && |pass| < 0xFFFF
  {
    [Udp(Opcodes.HELLO, EchoBody(key)),
     Tcp(FrameBytes(LoginFrame(TypedBody(user, pass, rest)))),
     Tcp(FrameBytes(WantFrame([])))]
  }

  lemma {:induction false} ThreeInputs(start: Life, x: Input, y: Input, z: Input)
    ensures var a := Extend(start, StepOf(start.conn, x));
            var b := Extend(a, StepOf(a.conn, y));
            LifeOf(start, [x, y, z]) == Extend(b, StepOf(b.conn, z))
  {
    hide StepOf;
    assert [x, y, z][..2] == [x, y] && [x, y][..1] == [x] && [x][..0] == [];
    assert LifeOf(start, []) == start;
    assert LifeOf(start, [x]) == Extend(start, StepOf(start.conn, x));
    assert LifeOf(start, [x, y]) == Extend(LifeOf(start, [x]), StepOf(LifeOf(start, [x]).conn, y));
  }

  lemma {:induction false} WantStep(c: Conn)
    requires c.state == Verified && c.tcp == Acc([], false)
    ensures TcpStep(c, FrameBytes(WantFrame([])))
            == Step(c.(state := InGame), [Plain(WantUpdates, c.sessionId, [])], [], [], [], false)
  {
    hide TcpStep, FrameBytes, BpsOf;
    WantFrameOf(c);
    OneFrameStep(c, WantFrame([]));
  }

  lemma {:induction false} WantFrameOf(c: Conn)
    requires c.state == Verified
    ensures FrameOf(c, WantFrame([])) == Handled(true, c.(state := InGame), [Plain(WantUpdates, c.sessionId, [])], [])
  {
    hide BpsOf;
  }

  lemma {:induction false} EchoLinks(c: Conn)
    requires c.state == AwaitingKeyEcho && !c.udpLinked && IsAscii(c.key) && |c.key| <= 255
    ensures UdpStep(c, Opcodes.HELLO, EchoBody(c.key))
            == Still(c.(udpLinked := true, state := AwaitingUsername)).(tcpOut := IdentifiedUdp())
  {
    hide ReadKeyEcho, EchoBody, Sanitized, IsAscii, IdentifiedUdp;
    KeyEchoRead(c.key);
    SanitizedExact(c.key);
  }

  /**
   A client that follows the protocol gets into the game: whatever its key and its
   name and password, three messages leave it InGame under its name, having queued
   exactly the four login commands and been sent exactly the accept burst,
   IDENTIFIED_UDP and the bring-up.
   */
  lemma {:induction false} FollowingTheProtocol(id: nat, cfg: Config, key: Text, user: Text, pass: Text,
                                                rest: seq<Byte>)
    requires IsAscii(key) && |key| <= 255 && GoodName(user) && |user| <= 254 && GoodName(pass)
    requires Sendable(LoginFrame(TypedBody(user, pass, rest)))
    ensures var c := NewConn(id, cfg, key);
            var c' := LoggedInAs(c.(udpLinked := true), user);
            LifeOf(Accepted(id, cfg, key), ClientScript(key, user, pass, rest))
            == Life(c'.(state := InGame), LoginCommands(id, user, pass) + [Plain(WantUpdates, id, [])],
                    AcceptBurst(c) + IdentifiedUdp() + Bringup(c'))
  {
    hide TcpStep, UdpStep, FrameBytes, EchoBody, TypedBody, Bringup, AcceptBurst, IdentifiedUdp, Printable, IsAscii,
      LifeOf;
    var c := NewConn(id, cfg, key);
    var c1 := c.(udpLinked := true, state := AwaitingUsername);
    var c2 := LoggedInAs(c1, user);
    var script := ClientScript(key, user, pass, rest);
    ThreeInputs(Accepted(id, cfg, key), script[0], script[1], script[2]);
    assert script == [script[0], script[1], script[2]];
    EchoLinks(c);
    TypedLoginCompletes(c1, user, pass, rest);
    WantStep(c2);
    var sent := AcceptBurst(c) + IdentifiedUdp() + Bringup(c2);
    assert sent + [] == sent;
    assert [] + [] + LoginCommands(id, user, pass) == LoginCommands(id, user, pass);
  }

  // ---- Reincarnation requests ------------------------------------------------------------------------

  /** A spawn request as clients send it. */
  function SpawnRequestFields(sequence: U16, length: U16, mode: Byte, entry: I32, base: I32, x: I32,
                              y: I32): seq<Field> {
    [Int16(sequence), Int16(length), Octet(mode), Int32(entry), Int32(base), Int32(x), Int32(y)]
  }

  function TeamRequestFields(sequence: U16, length: U16, team: I32, second: I32): seq<Field> {
    [Int16(sequence), Int16(length), Octet(1), Int32(team), Int32(second)]
  }

  /** The five leading values of a request. */
  lemma {:induction false} RequestHead(c: Cursor, fs: seq<Field>, tail: seq<bool>, sequence: U16, mode: Byte,
                                       first: I32, second: I32)
    requires |fs| >= 5 && At(c, fs, 0, tail) && fs[0] == Int16(sequence) && fs[1].width == 16 && fs[2] == Octet(mode)
    requires fs[3] == Int32(first) && fs[4] == Int32(second)
    ensures var c3 := ReadByte(ReadU16(ReadU16(c).0).0).0;
            && ReadU16(c).1 == Some(sequence)
            && ReadByte(ReadU16(ReadU16(c).0).0).1 == Some(mode)
            && ReadI32(c3).1 == Some(first) && ReadI32(ReadI32(c3).0).1 == Some(second)
            && At(ReadI32(ReadI32(c3).0).0, fs, 5, tail)
  {
    hide ReadU16, ReadByte, ReadI32, From, SignExtend;
    ReadU16At(c, fs, 0, tail);
    var c1 := ReadU16(c).0;
    ReadU16At(c1, fs, 1, tail);
    var c2 := ReadU16(c1).0;
    ReadByteAt(c2, fs, 2, tail);
    var c3 := ReadByte(c2).0;
    ReadI32At(c3, fs, 3, tail, first);
    ReadI32At(ReadI32(c3).0, fs, 4, tail, second);
  }

  /** Spawn requests are read as they were meant, for every value. */
  lemma {:induction false} SpawnRequestRead(sequence: U16, length: U16, mode: Byte, entry: I32, base: I32, x: I32,
                                            y: I32)
    requires mode != 1
    ensures ReadRequest(Payload(SpawnRequestFields(sequence, length, mode, entry, base, x, y)))
            == Some(Request(sequence, false, 0, entry, base))
  {
    hide ReadU16, ReadByte, ReadI32, From, SignExtend, Payload, Encode;
    var fs := SpawnRequestFields(sequence, length, mode, entry, base, x, y);
    var tail := Zeros(Padding(TotalWidth(fs)));
    var c := Start(Payload(fs));
    AtStart(fs);
    RequestHead(c, fs, tail, sequence, mode, entry, base);
    var c5 := ReadI32(ReadI32(ReadByte(ReadU16(ReadU16(c).0).0).0).0).0;
    ReadI32At(c5, fs, 5, tail, x);
    ReadI32At(ReadI32(c5).0, fs, 6, tail, y);
  }

  lemma {:induction false} TeamRequestRead(sequence: U16, length: U16, team: I32, second: I32)
    ensures ReadRequest(Payload(TeamRequestFields(sequence, length, team, second)))
            == Some(Request(sequence, true, team, 0, 0))
  {
    hide ReadU16, ReadByte, ReadI32, From, SignExtend, Payload, Encode;
    var fs := TeamRequestFields(sequence, length, team, second);
    AtStart(fs);
    RequestHead(Start(Payload(fs)), fs, Zeros(Padding(TotalWidth(fs))), sequence, 1, team, second);
  }

  lemma {:induction false} TakeI32(b: seq<Byte>)
    ensures ReadI32(Start(b)).1.Some? <==> |b| >= 4
    ensures |b| >= 4 ==> ReadI32(Start(b)).0 == Start(b[4..])
  {
    hide BitsOf, ValueOf, SignExtend;
    if |b| >= 4 {
      assert b == b[..4] + b[4..];
      UnpackConcat(b[..4], b[4..]);
    }
  }

  /** A request is readable exactly when it has 13 bytes, or 21 unless it asks for a team. */
  lemma {:induction false} RequestReadable(body: seq<Byte>)
    ensures ReadRequest(body).Some? <==> |body| >= 13 && (body[4] == 1 || |body| >= 21)
  {
    hide ReadU16, ReadByte, ReadI32, Unpack;
    TakeU16(body);
    if |body| >= 2 {
      TakeU16(body[2..]);
      if |body| >= 4 {
        assert body[2..][2..] == body[4..];
        RequestRest(body, body[4..]);
      }
    }
  }

  lemma {:induction false} RequestRest(body: seq<Byte>, rest: seq<Byte>)
    requires |body| >= 4 && rest == body[4..]
    requires ReadU16(ReadU16(Start(body)).0).0 == Start(rest) && ReadU16(Start(body)).1.Some?
    ensures ReadRequest(body).Some? <==> |body| >= 13 && (body[4] == 1 || |body| >= 21)
  {
    hide ReadU16, ReadByte, ReadI32, Unpack;
    TakeByte(rest);
    if rest != [] {
      var r3 := rest[1..];
      TakeI32(r3);
      if |r3| >= 4 {
        TakeI32(r3[4..]);
        if |r3| >= 8 {
          assert r3[4..][4..] == r3[8..];
          TakeI32(r3[8..]);
          if |r3| >= 12 {
            TakeI32(r3[8..][4..]);
          }
        }
      }
    }
  }

  // ---- What a request gets back -----------------------------------------------------------------------

  datatype Ack = Ack(sequence: U16, length: U16, count: Byte, opcode: Byte, acked: U16)

  /** A client reading an acknowledgement datagram. */
  function ReadAck(data: seq<Byte>): Option<Ack> {
    var (c1, kind) := ReadByte(Start(data));
    var (c2, sequence) := ReadU16(c1);
    var (c3, length) := ReadU16(c2);
    var (c4, count) := ReadByte(c3);
    var (c5, opcode) := ReadByte(c4);
    var (c6, acked) := ReadU16(c5);
    if c6.failed || kind != Some(Opcodes.ACK) then None
    else Some(Ack(sequence.GetOr(0), length.GetOr(0), count.GetOr(0), opcode.GetOr(0), acked.GetOr(0)))
  }

  lemma {:induction false} AckRead(sequence: U16, opcode: Byte, acked: U16)
    ensures ReadAck(UdpAck(sequence, opcode, acked)) == Some(Ack(sequence, 9, 1, opcode, acked))
    ensures |UdpAck(sequence, opcode, acked)| == 9
  {
    hide ReadU16, ReadByte, From, Encode, Payload;
    var fs := [Octet(Opcodes.ACK), Int16(sequence), Int16(9), Octet(1), Octet(opcode), Int16(acked)];
    var tail := Zeros(Padding(TotalWidth(fs)));
    var c := Start(Payload(fs));
    AtStart(fs);
    ReadByteAt(c, fs, 0, tail);
    var c1 := ReadByte(c).0;
    ReadU16At(c1, fs, 1, tail);
    var c2 := ReadU16(c1).0;
    ReadU16At(c2, fs, 2, tail);
    var c3 := ReadU16(c2).0;
    ReadByteAt(c3, fs, 3, tail);
    var c4 := ReadByte(c3).0;
    ReadByteAt(c4, fs, 4, tail);
    ReadU16At(ReadByte(c4).0, fs, 5, tail);
    AckWidth(fs);
  }

  lemma {:induction false} AckWidth(fs: seq<Field>)
    requires |fs| == 6 && fs[0].width == 8 && fs[1].width == 16 && fs[2].width == 16 && fs[3].width == 8 &&
             fs[4].width == 8
    requires fs[5].width == 16
    ensures |Payload(fs)| == 9
  {
    hide Payload, Encode;
    ShortWidths(fs[0], fs[1], fs[2], fs[3]);
    ShortWidths(fs[4], fs[5], fs[4], fs[5]);
    TotalWidthConcat(fs[..4], fs[4..]);
    assert fs == fs[..4] + fs[4..] && fs[..4] == [fs[0], fs[1], fs[2], fs[3]] && fs[4..] == [fs[4], fs[5]];
    PayloadLength(fs);
  }

  /**
   A spawn request over UDP in the game: with non-negative ids it queues exactly
   that request and is acknowledged under the next sequence number by its own; any
   other id leaves the session untouched and only raises the close flag.
   */
  lemma {:induction false} UdpSpawnRequest(c: Conn, sequence: U16, length: U16, mode: Byte, entry: I32, base: I32,
                                           x: I32, y: I32)
    requires c.state == InGame && mode != 1
    ensures var body := Payload(SpawnRequestFields(sequence, length, mode, entry, base, x, y));
            var s := UdpStep(c, Opcodes.REINCARNATE, body);
            var next := (c.udpSequence + 1) % 0x1_0000;
            if entry >= 0 && base >= 0 then
              && s.cmds == [SpawnCommand(c.sessionId, entry, base)] && s.conn == c.(udpSequence := next) && !s.close
              && ReadAck(s.udpOut) == Some(Ack(next, 9, 1, Opcodes.REINCARNATE, sequence)) && s.datagrams == []
            else s == Still(c).(close := true)
  {
    hide ReadRequest, ReadAck, Payload, SpawnRequestFields, UdpAck;
    SpawnRequestRead(sequence, length, mode, entry, base, x, y);
    AckRead((c.udpSequence + 1) % 0x1_0000, Opcodes.REINCARNATE, sequence);
  }

  /**
   A team request: teams 1 and 2 are queued and acknowledged, with the sender's own
   team record; others are refused.
   */
  lemma {:induction false} UdpTeamRequest(c: Conn, sequence: U16, length: U16, team: I32, second: I32)
    requires c.state == InGame
    ensures var s := UdpStep(c, Opcodes.REINCARNATE, Payload(TeamRequestFields(sequence, length, team, second)));
            var next := (c.udpSequence + 1) % 0x1_0000;
            if team == 1 || team == 2 then
              && s.cmds == [TeamCommand(c.sessionId, team)] && s.conn == c.(udpSequence := next) && !s.close
              && ReadAck(s.udpOut) == Some(Ack(next, 9, 1, Opcodes.REINCARNATE, sequence))
              && s.datagrams == [UdpUpdateStats(PlayerId(c), team)]
            else s == Still(c).(close := true)
  {
    hide ReadRequest, ReadAck, Payload, TeamRequestFields, UdpAck, UdpUpdateStats;
    TeamRequestRead(sequence, length, team, second);
    AckRead((c.udpSequence + 1) % 0x1_0000, Opcodes.REINCARNATE, sequence);
  }

  /** A client reading a pong. */
  function ReadPong(data: seq<Byte>): Option<I32> {
    var (c1, kind) := ReadByte(Start(data));
    if kind != Some(Opcodes.UDP_PING) then None else ReadI32(c1).1
  }

  /** A live session answers a ping in every state with its own timestamp, and nothing else happens. */
  lemma {:induction false} PingAnswered(c: Conn, timestamp: I32)
    requires c.state != Closed
    ensures var s := UdpStep(c, Opcodes.CLIENT_PING, Payload([Int32(timestamp)]));
            s == Still(c).(datagrams := s.datagrams) && |s.datagrams| == 1 &&
              ReadPong(s.datagrams[0]) == Some(timestamp)
  {
    hide ReadI32, ReadByte, From, Encode, Payload, SignExtend;
    var ping, pong := [Int32(timestamp)], [Octet(Opcodes.UDP_PING), Int32(timestamp)];
    AtStart(ping);
    ReadI32At(Start(Payload(ping)), ping, 0, Zeros(Padding(TotalWidth(ping))), timestamp);
    AtStart(pong);
    var tail := Zeros(Padding(TotalWidth(pong)));
    ReadByteAt(Start(Payload(pong)), pong, 0, tail);
    ReadI32At(ReadByte(Start(Payload(pong))).0, pong, 1, tail, timestamp);
  }

  // ---- Control input -----------------------------------------------------------------------------------

  /** The changes on channels a tank has, in order. */
  function Drivable(changes: seq<ActionInput.Change>): seq<ActionInput.Change> {
    if changes == [] then []
    else
      var last := changes[|changes| - 1];
      Drivable(changes[..|changes| - 1]) + if 0 <= last.channel <= ActionInput.ACTION_MAX_CHANNEL then [last] else []
  }

  /** One input command of this session per change, with its channel and its value. */
  ghost predicate Conveys(cmds: seq<ClientCommand>, id: nat, changes: seq<ActionInput.Change>) {
    && |cmds| == |changes|
    && forall i :: 0 <= i < |cmds| ==>
         cmds[i] == Plain(CommandKind.ActionInput, id, []).(channel := changes[i].channel, value := changes[i].value)
  }

  lemma {:induction false} CommandsConvey(id: nat, changes: seq<ActionInput.Change>)
    requires forall i :: 0 <= i < |changes| ==> -1.0 <= changes[i].value <= 1.0
    ensures Conveys(ActionCommands(id, changes), id, Drivable(changes))
  {
    if changes != [] {
      CommandsConvey(id, changes[..|changes| - 1]);
    }
  }

  /**
   Control input end to end: what a client encodes in an update reaches the tick
   thread change by change, in order, with exactly the value it stands for; entries
   on channels no tank has are dropped, and the session itself is untouched.
   */
  lemma {:induction false} UpdateDelivered(c: Conn, timestamp: I32, entries: seq<ActionInput.Entry>)
    requires c.state == InGame && |entries| <= ActionInput.MAX_ACTION_CHANGES
    requires forall e :: e in entries ==> ActionInput.Encodable(e)
    ensures var s := UdpStep(c, Opcodes.ACTION_UPDATE, Payload(ActionInput.UpdateFields(timestamp, entries)));
            && Conveys(s.cmds, c.sessionId, Drivable(ActionInput.Meaning(entries)))
            && s == Still(c).(cmds := s.cmds)
  {
    hide Conveys, Drivable, Payload, ActionCommands, ActionInput.UpdateFields, ActionInput.ActionUpdateOf,
      ActionInput.Encodable;
    ActionInput.UpdateRoundTrip(timestamp, entries);
    CommandsConvey(c.sessionId, ActionInput.Meaning(entries));
  }

  /** The same for a dump: 21 commands, one for each channel from 1 to 21. */
  lemma {:induction false} DumpDelivered(c: Conn, timestamp: I32, raws: seq<U16>)
    requires c.state == InGame && |raws| == ActionInput.ACTION_MAX_CHANNEL && ActionInput.EncodableDump(1, raws)
    ensures var s := UdpStep(c, Opcodes.ACTION_DUMP, Payload(ActionInput.DumpFields(timestamp, raws)));
            && Conveys(s.cmds, c.sessionId, ActionInput.DumpMeaning(1, raws))
            && |s.cmds| == 21
            && s == Still(c).(cmds := s.cmds)
  {
    hide Payload, ActionCommands, ActionInput.DumpFields, ActionInput.ActionDumpOf, ActionInput.EncodableDump,
      ActionInput.ChannelValue;
    ActionInput.DumpRoundTrip(timestamp, raws);
    var changes := ActionInput.DumpMeaning(1, raws);
    CommandsConvey(c.sessionId, changes);
    AllDrivable(changes);
  }

  lemma {:induction false} AllDrivable(changes: seq<ActionInput.Change>)
    requires forall i :: 0 <= i < |changes| ==> 0 <= changes[i].channel <= ActionInput.ACTION_MAX_CHANNEL
    ensures Drivable(changes) == changes
  {
    if changes != [] {
      AllDrivable(changes[..|changes| - 1]);
    }
  }
}
