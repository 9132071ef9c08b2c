/**
 What a client is sent on the way into the game, byte for byte: the accept burst,
 the link, the login and the bring-up, and the answer to a UDP handshake.
 */
module Greetings {
  import opened Bits
  import opened Cursors
  import opened Framing
  import opened Queues
  import opened Packets
  import opened PacketBytes
  import opened Protocol
  import opened Sessions
  import opened Logins
  import opened Handshake
  import opened Chunking
  import opened Survival
  import Opcodes

  /** On accepting: where the UDP side is, then the session key. */
  function AcceptGreeting(c: Conn): seq<Byte> {
    Fitted(0x13, [1] + Be16(c.cfg.bindPort) + [0, 1] + Counted(c.cfg.udpHost)) + Fitted(0x13, [2] + Counted(c.key))
  }

  lemma {:induction false} AcceptSpelled(c: Conn)
    ensures AcceptBurst(c) == AcceptGreeting(c)
  {
    hide HelloUdpConfig, HelloSessionKey, Fitted, Counted, Be16;
    UdpConfigBytes(c.cfg.bindPort, c.cfg.udpHost);
    HelloBytes(c.key);
  }

  /** The packets after the login, with the player under this id and name. */
  function LoginGreeting(cfg: Config, playerId: int, name: Text): seq<Byte> {
    [0, 4, 0x13, 3]
    + Fitted(0x28, cfg.teamInfo)
    + [0, 5, 0x22, 1, 8]
    + Packet(0x17, Be32(playerId) + [0])
    + Packet(0x2F, [0, 0, 0, 0, 1, 0, 0, 0, 1, 0, 0, 0x75, 0x30])
    + Packet(0x23, Counted(Ascii("Wulf Forge Headless")))
    + Fitted(0x24, cfg.behavior)
    + Fitted(0x32, cfg.translation)
    + Fitted(0x1A, Be32(playerId) + [0, 0, 0, 0] + [0, 0] + [0, 2] + Counted(name) + [0, 1, 0]
                   + [0, 0, 0, 0, 0, 0, 0, 0, 0, 0, 0, 0])
    + Fitted(0x16, Counted(cfg.mapName) + [1, 1, 0, 1, 0, 0])
  }

  lemma {:induction false} JoinStep(parts: seq<seq<Byte>>, k: nat)
    requires k < |parts|
    ensures Join(parts[..k + 1]) == Join(parts[..k]) + parts[k]
  {
    assert parts[..k + 1][..k] == parts[..k];
  }

  lemma {:induction false} JoinTen(p: seq<seq<Byte>>)
    requires |p| == 10
    ensures Join(p) == p[0] + p[1] + p[2] + p[3] + p[4] + p[5] + p[6] + p[7] + p[8] + p[9]
  {
    hide Join;
    JoinNone();
    JoinStep(p, 0);
    JoinStep(p, 1);
    JoinStep(p, 2);
    JoinStep(p, 3);
    JoinStep(p, 4);
    JoinStep(p, 5);
    JoinStep(p, 6);
    JoinStep(p, 7);
    JoinStep(p, 8);
    JoinStep(p, 9);
    assert p[..0] == [] && p[..10] == p && [] + p[0] == p[0];
  }

  lemma {:induction false} JoinNone()
    ensures Join([]) == []
  {
  }

  lemma {:induction false} TableSpelled(opcode: Byte, body: seq<Byte>)
    ensures FrameBytes(Frame(opcode, body)) == Fitted(opcode, body)
  {
  }

  lemma {:induction false} ClockSpelled()
    ensures GameClock(0) == Packet(0x2F, [0, 0, 0, 0, 1, 0, 0, 0, 1, 0, 0, 0x75, 0x30])
  {
    hide Be32, GameClock;
    GameClockBytes(0);
    SmallAs32();
    assert Be32(0) + [1, 0, 0, 0, 1, 0, 0, 0x75, 0x30] == [0, 0, 0, 0, 1, 0, 0, 0, 1, 0, 0, 0x75, 0x30];
  }

  /** The bring-up, packet by packet. */
  lemma {:induction false} BringupSpelled(c: Conn)
    requires c.playerId < 0
    ensures Bringup(c) == LoginGreeting(c.cfg, SessionPlayerId(c.sessionId), c.username)
  {
    hide Join, Fitted, Packet, Counted, Be32, Be16, FrameBytes, AddToRoster, WorldStats, Player, GameClock, Motd,
      LoginStatus, HelloVerified, SessionPlayerId, Ascii;
    var pid := SessionPlayerId(c.sessionId);
    JoinTen(BringupParts(c));
    HelloBytes([]);
    TableSpelled(Opcodes.TEAM_INFO, c.cfg.teamInfo);
    LoginStatusBytes(true, LOGIN_OK);
    PlayerBytes(pid, false);
    ClockSpelled();
    MotdSpelled();
    TableSpelled(Opcodes.BEHAVIOR, c.cfg.behavior);
    TableSpelled(Opcodes.TRANSLATION, c.cfg.translation);
    RosterBytes(pid, 0, c.username);
    OneAs16();
    WorldStatsBytes(c.cfg.mapName);
  }

  lemma {:induction false} MotdSpelled()
    ensures Motd(Ascii("Wulf Forge Headless")) == Packet(0x23, Counted(Ascii("Wulf Forge Headless")))
  {
    hide Motd, Ascii;
    MotdBytes(Ascii("Wulf Forge Headless"));
  }

  /**
   Everything a client is sent that echoes its key, logs in and asks for updates, with
   any harmless frames between and however its bytes are cut: on accepting the port and
   host of the UDP side and its key, the link notice, and the ten packets of the
   bring-up, under its session's player id and its own name.
   */
  lemma {:induction false} GreetingSpelled(id: nat, cfg: Config, key: Text, user: Text, pass: Text, rest: seq<Byte>,
                                           wish: seq<Byte>, before: seq<Frame>, linked: seq<Frame>,
                                           verified: seq<Frame>, playing: seq<Frame>, xs: seq<Input>)
    requires IsAscii(key) && |key| <= 255 && GoodName(user) && |user| <= 254 && GoodName(pass)
    requires Idle(AwaitingKeyEcho, before) && Idle(AwaitingUsername, linked)
    requires Idle(Verified, verified) && Idle(InGame, playing)
    requires Calm(Accepted(id, cfg, key), xs)
    requires ActsOf(xs) == ClientActs(key, user, pass, rest, wish, before, linked, verified, playing)
    ensures LifeOf(Accepted(id, cfg, key), xs).sent
            == AcceptGreeting(NewConn(id, cfg, key)) + [0, 3, 0x4D]
               + LoginGreeting(cfg, if id <= 0x7fff_ffff then id else 0x7fff_ffff, user)
  {
    hide AcceptBurst, Bringup, IsAscii, Printable, Calm, LifeOf, ActsOf, ClientActs, Idle, AcceptGreeting,
      LoginGreeting, IdentifiedUdp;
    HarmlessFramesBetween(id, cfg, key, user, pass, rest, wish, before, linked, verified, playing, xs);
    AcceptSpelled(NewConn(id, cfg, key));
    HelloBytes([]);
    BringupSpelled(LoggedInAs(NewConn(id, cfg, key).(udpLinked := true), user));
  }

  /** Asking for the password. */
  lemma {:induction false} PasswordAsked(c: Conn, user: Text)
    requires c.state == AwaitingUsername && c.tcp == Acc([], false) && GoodName(user)
    ensures TcpStep(c, FrameBytes(LoginFrame(TextBytes(user)))).tcpOut == [0, 5, 0x22, 1, 1]
  {
    hide TextBytes, TcpStep, FrameBytes, LoginStatus, Printable;
    TwoStepLoginCompletes(c, user, user);
    LoginStatusBytes(true, ASK_PASSWORD);
  }

  /**
   A UDP handshake of an open session is acknowledged and told of the streams and its
   player id; it changes nothing.
   */
  lemma {:induction false} HandshakeAnswered(c: Conn, body: seq<Byte>)
    requires c.state != Closed && c.playerId < 0
    ensures var s := UdpStep(c, 0x03, body);
            && s.conn == c && s.cmds == [] && s.tcpOut == [] && s.udpOut == [] && !s.close
            && s.datagrams
               == [[2, 0, 0, 0, 0, 0],
                   [3] + [0, 0, 0, 0] + Be32(SessionPlayerId(c.sessionId)) + [0, 0, 0, 4]
                   + (StreamName(0) + (StreamName(1) + (StreamName(2) + StreamName(3)))) + [0, 0, 0, 4]
                   + [0, 0, 0, 0, 0, 0, 0, 1, 0, 0, 0, 1, 0, 0, 0, 1, 0, 0, 0, 2, 0, 0, 0, 1, 0, 0, 0, 3, 0, 0, 0, 1],
                   [4, 1, 0, 1], [4, 3, 0, 1]]
  {
    hide UdpHandshakeAck, UdpStreamDefs, UdpStreamUnpause, Be32, SessionPlayerId, StreamName;
    UnpauseBytes(0, 1);
    UnpauseBytes(0, 3);
    StreamDefsBytes(0, SessionPlayerId(c.sessionId));
    SmallAs32();
    assert [2, 0] + [0, 0, 0, 0] == [2, 0, 0, 0, 0, 0];
  }
}
