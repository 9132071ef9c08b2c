/**
 A client's whole TCP stream: what its connection answers and what the bridge
 pushes reach it in some order, chunk by chunk. The connection's own output says
 nothing about other players, so the rosters agree on the whole stream too, not
 only on what the bridge pushed.
 */
module ClientStream {
  import opened Bits
  import opened Cursors
  import opened Framing
  import opened Queues
  import opened Packets
  import opened Protocol
  import opened Sessions
  import opened Bridge
  import opened Roster
  import R = Roster
  import History
  import Opcodes

  // ---- Frames about nobody else ---------------------------------------------------------------

  predicate OwnFrame(f: Frame, pid: int) {
    var t := ReadPlayer(f);
    t.None? || t.value.playerId == pid
  }

  ghost predicate OwnFrames(frames: seq<Frame>, pid: int) {
    forall i :: 0 <= i < |frames| ==> OwnFrame(frames[i], pid)
  }

  /** Whole frames whose player records are about this player only. */
  ghost predicate OwnOnly(b: seq<Byte>, pid: int) {
    IsFrames(b) && OwnFrames(Parse(b).frames, pid)
  }

  lemma {:induction false} OwnNothing(pid: int)
    ensures OwnOnly([], pid)
  {
  }

  lemma {:induction false} OwnConcat(a: seq<Byte>, b: seq<Byte>, pid: int)
    requires OwnOnly(a, pid) && OwnOnly(b, pid)
    ensures OwnOnly(a + b, pid)
  {
    hide Parse, OwnFrame;
    FramesConcat(a, b);
  }

  lemma {:induction false} OwnJoin(parts: seq<seq<Byte>>, pid: int)
    requires forall i :: 0 <= i < |parts| ==> OwnOnly(parts[i], pid)
    ensures OwnOnly(Protocol.Join(parts), pid)
  {
    hide OwnOnly;
    if parts == [] {
      OwnNothing(pid);
    } else {
      var n := |parts| - 1;
      OwnJoin(parts[..n], pid);
      OwnConcat(Protocol.Join(parts[..n]), parts[n], pid);
    }
  }

  lemma {:induction false} OwnFramed(opcode: Byte, fs: seq<Field>, pid: int)
    requires opcode != Opcodes.ADD_TO_ROSTER && opcode != Opcodes.UPDATE_STATS
    ensures OwnOnly(Framed(opcode, fs), pid)
  {
    hide Framed, Parse, ReadI32, ReadU16;
    FramedParse(opcode, fs);
  }

  lemma {:induction false} OwnTable(opcode: Byte, body: seq<Byte>, pid: int)
    requires opcode != Opcodes.ADD_TO_ROSTER && opcode != Opcodes.UPDATE_STATS
    ensures OwnOnly(FrameBytes(Frame(opcode, body)), pid)
  {
    hide Parse, ReadI32, ReadU16;
    var f := Frame(opcode, body);
    if Sendable(f) {
      OneFrame(f);
    } else {
      OwnNothing(pid);
    }
  }

  lemma {:induction false} OwnRecord(pid: I32, name: Text)
    ensures OwnOnly(AddToRoster(pid, 0, name), pid)
  {
    hide Parse, AddToRoster, ReadPlayer;
    AddToRosterIsFrame(pid, 0, name);
    if |name| <= MAX_ROSTER_NAME {
      RosterAnnounces(pid, 0, name);
    } else {
      OwnNothing(pid);
    }
  }

  // ---- What a connection sends -----------------------------------------------------------------

  /** No other player id has been given to the connection, as none ever is. */
  predicate OwnId(c: Conn) {
    c.playerId < 0
  }

  lemma {:induction false} OwnBringup(c: Conn)
    requires OwnId(c)
    ensures OwnOnly(Bringup(c), SessionPlayerId(c.sessionId))
  {
    hide OwnOnly, Framed, FrameBytes, Ascii, AddToRosterFields, WorldStatsFields, Protocol.Join;
    var pid := SessionPlayerId(c.sessionId);
    OwnFramed(Opcodes.HELLO, [Octet(3)], pid);
    OwnTable(Opcodes.TEAM_INFO, c.cfg.teamInfo, pid);
    OwnFramed(Opcodes.LOGIN_STATUS, [Octet(1), Octet(LOGIN_OK)], pid);
    OwnFramed(Opcodes.PLAYER, [Int32(pid), Octet(0)], pid);
    OwnFramed(Opcodes.GAME_CLOCK, [Int32(0), Octet(1), Int32(1), Int32(30000)], pid);
    OwnFramed(Opcodes.MOTD, StringFields(Ascii("Wulf Forge Headless")), pid);
    OwnTable(Opcodes.BEHAVIOR, c.cfg.behavior, pid);
    OwnTable(Opcodes.TRANSLATION, c.cfg.translation, pid);
    OwnRecord(pid, c.username);
    OwnFramed(Opcodes.WORLD_STATS, WorldStatsFields(c.cfg.mapName), pid);
    OwnJoin(BringupParts(c), pid);
  }

  lemma {:induction false} OwnAccept(c: Conn, pid: int)
    ensures OwnOnly(AcceptBurst(c), pid)
  {
    hide OwnOnly, Framed;
    OwnFramed(Opcodes.HELLO, [Octet(1), Int16(c.cfg.bindPort), Int16(1)] + StringFields(c.cfg.udpHost), pid);
    OwnFramed(Opcodes.HELLO, [Octet(2)] + StringFields(c.key), pid);
    OwnConcat(HelloUdpConfig(c.cfg.bindPort, c.cfg.udpHost), HelloSessionKey(c.key), pid);
  }

  /** A frame's answer is about the own player only, and the connection keeps its identity. */
  ghost predicate OwnHandled(c: Conn, h: Handled) {
    OwnId(h.conn) && h.conn.sessionId == c.sessionId && OwnOnly(h.out, SessionPlayerId(c.sessionId))
  }

  lemma {:induction false} OwnLogin(c: Conn, r: Cursor)
    requires OwnId(c)
    ensures OwnHandled(c, UsernameOf(c, r)) && OwnHandled(c, PasswordOf(c, r))
  {
    hide OwnOnly, Framed, ReadLogin, Bringup, SessionPlayerId;
    var pid := SessionPlayerId(c.sessionId);
    OwnNothing(pid);
    OwnFramed(Opcodes.LOGIN_STATUS, [Octet(1), Octet(ASK_PASSWORD)], pid);
    var login := ReadLogin(r);
    if login.Some? {
      OwnBringup(c.(username := login.value.primary, state := Verified));
      OwnBringup(c.(state := Verified));
    }
  }

  lemma {:induction false} OwnGame(c: Conn, f: Frame)
    requires OwnId(c)
    ensures OwnHandled(c, BpsOf(c, Start(f.body))) && OwnHandled(c, TcpReincarnateOf(c, f.body))
    ensures OwnHandled(c, VerifiedFrameOf(c, f)) && OwnHandled(c, InGameFrameOf(c, f))
  {
    hide OwnOnly, Framed, ReadI32, ReadRequest, RequestCommand, SessionPlayerId;
    var pid := SessionPlayerId(c.sessionId);
    OwnNothing(pid);
    var rate := ReadI32(Start(f.body)).1;
    if rate.Some? {
      OwnFramed(Opcodes.BPS, [Int32(rate.value), Octet(1)], pid);
    }
  }

  lemma {:induction false} OwnFrameOf(c: Conn, f: Frame)
    requires OwnId(c)
    ensures OwnHandled(c, FrameOf(c, f))
  {
    hide OwnHandled, UsernameFrameOf, PasswordFrameOf, VerifiedFrameOf, InGameFrameOf, AwaitingKeyEchoOk,
      Opcodes.IsKnownOpcode,
      BpsOf, TcpReincarnateOf, Start;
    OwnIgnored(c, FrameOf(c, f).ok);
    OwnLoginFrames(c, f);
    OwnGame(c, f);
  }

  lemma {:induction false} OwnLoginFrames(c: Conn, f: Frame)
    requires OwnId(c)
    ensures OwnHandled(c, UsernameFrameOf(c, f)) && OwnHandled(c, PasswordFrameOf(c, f))
  {
    hide OwnHandled, UsernameOf, PasswordOf, PostLinkHelloOk;
    OwnIgnored(c, UsernameFrameOf(c, f).ok);
    OwnIgnored(c, false);
    OwnLogin(c, Start(f.body));
  }

  lemma {:induction false} OwnIgnored(c: Conn, ok: bool)
    requires OwnId(c)
    ensures OwnHandled(c, Ignored(ok, c))
  {
    hide OwnOnly;
    OwnNothing(SessionPlayerId(c.sessionId));
  }

  lemma {:induction false} OwnDrain(s: Step, n: nat)
    requires OwnId(s.conn) && OwnOnly(s.tcpOut, SessionPlayerId(s.conn.sessionId))
    ensures OwnOnly(Drain(s, n).tcpOut, SessionPlayerId(s.conn.sessionId))
    decreases n
  {
    hide OwnOnly, NextStep, FrameOf, SessionPlayerId;
    if n > 0 {
      var (a, f) := NextStep(s.conn.tcp);
      var popped := s.(conn := s.conn.(tcp := a));
      if !a.failed && f.Some? {
        var h := FrameOf(popped.conn, f.value);
        OwnFrameOf(popped.conn, f.value);
        OwnConcat(popped.tcpOut, h.out, SessionPlayerId(s.conn.sessionId));
        var s' := AfterFrame(popped, h);
        if !s'.close {
          OwnDrain(s', n - 1);
        }
      }
    }
  }

  /** Whatever arrives, a connection's answer says nothing about other players. */
  lemma {:induction false} OwnStep(c: Conn, x: Input)
    requires OwnId(c)
    ensures OwnOnly(StepOf(c, x).tcpOut, SessionPlayerId(c.sessionId))
  {
    hide OwnOnly, Drain, FeedStep, Framed, HandshakeDatagrams, GamePacketOf, ReadKeyEcho, SessionPlayerId, UdpPong;
    var pid := SessionPlayerId(c.sessionId);
    OwnNothing(pid);
    OwnFramed(Opcodes.IDENTIFIED_UDP, [], pid);
    match x {
      case Tcp(data) => OwnDrain(Still(c.(tcp := FeedStep(c.tcp, data))), MAX_FRAMES_PER_DRAIN);
      case Udp(opcode, body) => GameSilent(c, opcode, body);
      case Assign(_) =>
    }
  }

  lemma {:induction false} GameSilent(c: Conn, opcode: Byte, body: seq<Byte>)
    ensures GamePacketOf(c, opcode, body).tcpOut == []
  {
    hide ReadRequest, RequestCommand, DecodedOf, UdpAck, UdpUpdateStats, ActionCommands;
  }

  // ---- The merged stream ------------------------------------------------------------------------

  /** One write to a client's socket: by its connection, or a message of the bridge. */
  datatype Chunk = Own(bytes: seq<Byte>) | Pushed(m: Message)

  /** Everything written, in order, as messages. */
  function Written(chunks: seq<Chunk>, id: nat): seq<Message> {
    if chunks == [] then []
    else
      var last := chunks[|chunks| - 1];
      Written(chunks[..|chunks| - 1], id) + [if last.Own? then OutboundMessage(id, true, last.bytes) else last.m]
  }

  function PushedIn(chunks: seq<Chunk>): seq<Message> {
    if chunks == [] then []
    else
      var last := chunks[|chunks| - 1];
      PushedIn(chunks[..|chunks| - 1]) + if last.Pushed? then [last.m] else []
  }

  /** The bytes are the accept burst or some answer of a connection of this session. */
  ghost predicate SentBy(b: seq<Byte>, id: nat) {
    || (exists c: Conn :: c.sessionId == id && OwnId(c) && b == AcceptBurst(c))
    || (exists c: Conn, x: Input :: c.sessionId == id && OwnId(c) && b == StepOf(c, x).tcpOut)
  }

  ghost predicate OwnSentBy(chunks: seq<Chunk>, id: nat) {
    forall i :: 0 <= i < |chunks| && chunks[i].Own? ==> SentBy(chunks[i].bytes, id)
  }

  /** The rosters differ at most in what they say about this player. */
  ghost predicate SameOff(a: Roster, b: Roster, pid: int) {
    forall p :: p != pid ==> (p in a <==> p in b) && (p in a && p in b ==> a[p] == b[p])
  }

  lemma {:induction false} FramesOff(a: Roster, b: Roster, frames: seq<Frame>, pid: int)
    requires SameOff(a, b, pid)
    ensures SameOff(ApplyFrames(a, frames), ApplyFrames(b, frames), pid)
  {
    hide ReadPlayer;
    if frames != [] {
      FramesOff(a, b, frames[..|frames| - 1], pid);
    }
  }

  lemma {:induction false} OwnFramesOff(a: Roster, b: Roster, frames: seq<Frame>, pid: int)
    requires SameOff(a, b, pid) && OwnFrames(frames, pid)
    ensures SameOff(ApplyFrames(a, frames), b, pid)
  {
    hide ReadPlayer;
    if frames != [] {
      var n := |frames| - 1;
      OwnFramesOff(a, b, frames[..n], pid);
      assert OwnFrame(frames[n], pid);
    }
  }

  lemma {:induction false} OwnChunk(b: seq<Byte>, id: nat)
    requires SentBy(b, id)
    ensures OwnOnly(b, SessionPlayerId(id))
  {
    hide OwnOnly, AcceptBurst, StepOf;
    if c: Conn :| c.sessionId == id && OwnId(c) && b == AcceptBurst(c) {
      OwnAccept(c, SessionPlayerId(id));
    } else {
      var c: Conn, x: Input :| c.sessionId == id && OwnId(c) && b == StepOf(c, x).tcpOut;
      OwnStep(c, x);
    }
  }

  lemma {:induction false} WrittenWhole(chunks: seq<Chunk>, id: nat)
    requires OwnSentBy(chunks, id) && AllWhole(PushedIn(chunks))
    ensures AllWhole(Written(chunks, id))
    ensures SameOff(ApplyMessages(map[], Written(chunks, id), id), ApplyMessages(map[], PushedIn(chunks), id),
        SessionPlayerId(id))
  {
    hide SentBy, SessionPlayerId, Parse, ApplyFrames, ApplyMessages, ReadPlayer;
    if chunks != [] {
      var n := |chunks| - 1;
      var pid := SessionPlayerId(id);
      var init := chunks[..n];
      assert forall i :: 0 <= i < |PushedIn(init)| ==> PushedIn(chunks)[i] == PushedIn(init)[i];
      WrittenWhole(init, id);
      var a, b := ApplyMessages(map[], Written(init, id), id), ApplyMessages(map[], PushedIn(init), id);
      match chunks[n] {
        case Own(bytes) =>
          OwnChunk(bytes, id);
          OwnFramesOff(a, b, Parse(bytes).frames, pid);
          assert PushedIn(chunks) == PushedIn(init);
        case Pushed(m) =>
          assert PushedIn(chunks)[|PushedIn(init)|] == m;
          FramesOff(a, b, FrameList(m), pid);
      }
      WrittenStep(chunks, id);
    }
  }

  lemma {:induction false} WrittenStep(chunks: seq<Chunk>, id: nat)
    requires chunks != []
    ensures var init, last := chunks[..|chunks| - 1], chunks[|chunks| - 1];
            var m := if last.Own? then OutboundMessage(id, true, last.bytes) else last.m;
            && ApplyMessages(map[], Written(chunks, id), id)
              == ApplyMessage(ApplyMessages(map[], Written(init, id), id), m, id)
            && (last.Pushed? ==> ApplyMessages(map[], PushedIn(chunks), id)
                                 == ApplyMessage(ApplyMessages(map[], PushedIn(init), id), m, id))
  {
    hide ApplyMessage;
    var init, last := chunks[..|chunks| - 1], chunks[|chunks| - 1];
    var m := if last.Own? then OutboundMessage(id, true, last.bytes) else last.m;
    assert (Written(init, id) + [m])[..|Written(init, id)|] == Written(init, id);
    assert (PushedIn(init) + [m])[..|PushedIn(init)|] == PushedIn(init);
  }

  lemma {:induction false} FewerPlayers(ids: set<nat>)
    requires DistinctPlayers(ids)
    ensures DistinctOthers(ids)
  {
    hide SessionPlayerId;
  }

  // ---- Agreement on the whole stream ------------------------------------------------------------

  lemma {:induction false} OffAgrees(a: Roster, b: Roster, sessions: map<nat, Session>, viewer: nat)
    requires SameOff(a, b, SessionPlayerId(viewer)) && Agrees(b, sessions, viewer)
    requires viewer in sessions && WellKept(sessions) && DistinctPlayers(sessions.Keys)
    ensures Agrees(a, sessions, viewer)
  {
  }

  /**
   However a live client's stream mixes its connection's own output with the
   messages the bridge addressed to it since it joined, the roster it folds from the
   whole stream gives every other live session's name and current team.
   */
  lemma {:induction false} WholeStreamAgrees(w: World, events: seq<History.Event>, id: nat, chunks: seq<Chunk>)
    requires w.sessions == map[] && DistinctPlayers(JoiningIds(events))
    requires forall i :: 0 <= i < |events| ==> R.NameFits(events[i])
    requires History.Aligned(History.Run(w, events)) && id in History.Run(w, events).world.sessions
    requires OwnSentBy(chunks, id) && PushedIn(chunks) == OnlyTo(History.Since(History.Run(w, events), id), id)
    ensures Agrees(ClientRoster(Written(chunks, id), id), History.Run(w, events).world.sessions, id)
    ensures IsFrames(StreamTo(Written(chunks, id), id))
  {
    hide Agrees, SameOff, ClientRoster, Written, PushedIn, OwnSentBy, AllWhole, History.Run, ApplyMessages, WellKept;
    var h := History.Run(w, events);
    FewerPlayers(JoiningIds(events));
    RosterInvariantHolds(w, events);
    OnlyToApplied(map[], History.Since(h, id), id);
    WrittenWhole(chunks, id);
    StreamIsMessages(Written(chunks, id), id);
    OffAgrees(ApplyMessages(map[], Written(chunks, id), id), ApplyMessages(map[], PushedIn(chunks), id),
        h.world.sessions, id);
  }
}
