/**
 The connection object: fields that handlers update in place, a frame
 accumulator of its own and the shared command queue. Every handler is proved
 against its function in `Protocol`.
 */
module Connections {
  import opened Bits
  import opened Cursors
  import opened BitStream
  import opened Framing
  import opened Queues
  import opened Packets
  import opened Protocol
  import ActionInput
  import Opcodes

  /** What the socket layer sends after a step. */
  datatype StepResult = StepResult(tcpOut: seq<Byte>, udpOut: seq<Byte>, datagrams: seq<seq<Byte>>, close: bool)

  const NOTHING := StepResult([], [], [], false)

  method ReadAcceptableString(reader: BitReader) returns (r: Option<Text>)
    requires reader.Valid()
    modifies reader
    ensures reader.Valid() && (reader.Cur(), r) == TakeAcceptable(old(reader.Cur()))
  {
    var value := reader.ReadString(MAX_STRING_LEN);
    if reader.failed || value.None? || !IsAcceptableString(value.value) {
      return None;
    }
    return value;
  }

  method ReadLoginPayload(reader: BitReader) returns (login: Option<Login>)
    requires reader.Valid()
    ensures login == ReadLogin(reader.Cur())
  {
    var direct := reader.Copy();
    var value := ReadAcceptableString(direct);
    if value.Some? {
      return Some(Login(value.value, None));
    }
    var typed := reader.Copy();
    var kind := typed.ReadByte();
    if kind.None? {
      return None;
    }
    var primary := ReadAcceptableString(typed);
    if primary.None? {
      return None;
    }
    var secondary := ReadAcceptableString(typed);
    return Some(Login(primary.value, secondary));
  }

  method ReadUdpKeyEcho(body: seq<Byte>) returns (key: Option<Text>)
    ensures key == ReadKeyEcho(body)
  {
    var reader := new BitReader(body);
    var sub := reader.ReadByte();
    if sub != Some(HELLO_KEY_ECHO) {
      return None;
    }
    key := reader.ReadString(MAX_STRING_LEN);
  }

  method ReadReincarnateRequest(body: seq<Byte>) returns (request: Option<Request>)
    ensures request == ReadRequest(body)
  {
    var reader := new BitReader(body);
    var sequence := reader.ReadU16();
    var length := reader.ReadU16();
    var mode := reader.ReadByte();
    var first := reader.ReadI32();
    var second := reader.ReadI32();
    if reader.failed {
      return None;
    }
    if mode == Some(1) {
      return Some(Request(sequence.GetOr(0), true, first.GetOr(0), 0, 0));
    }
    var _ := reader.ReadI32();
    var _ := reader.ReadI32();
    if reader.failed {
      return None;
    }
    return Some(Request(sequence.GetOr(0), false, 0, first.GetOr(0), second.GetOr(0)));
  }

  method HandleAwaitingKeyEcho(opcode: Byte, reader: BitReader) returns (ok: bool)
    requires reader.Valid()
    modifies reader
    ensures ok == AwaitingKeyEchoOk(opcode, old(reader.Cur()))
  {
    if opcode != Opcodes.HELLO {
      return false;
    }
    var sub := reader.ReadByte();
    if sub.None? {
      return false;
    }
    if sub.value != HELLO_VERSION {
      return true;
    }
    var version := reader.ReadI32();
    return version == Some(PROTOCOL_VERSION);
  }

  method HandlePostLinkHello(reader: BitReader) returns (ok: bool)
    requires reader.Valid()
    modifies reader
    ensures ok == PostLinkHelloOk(old(reader.Cur()))
  {
    var sub := reader.ReadByte();
    if sub.None? {
      return false;
    }
    if sub.value == HELLO_CONFIRM {
      return true;
    }
    if sub.value != HELLO_VERSION {
      return false;
    }
    var version := reader.ReadI32();
    return version == Some(PROTOCOL_VERSION);
  }

  class Connection {
    const sessionId: nat
    const cfg: Config
    const key: Text
    const inbound: ConcurrentQueue<ClientCommand>
    const tcp: TcpFrameAccumulator
    var state: ConnState
    var udpLinked: bool
    var playerId: int
    var udpSequence: U16
    var username: Text

    function Model(): Conn
      reads this, tcp
    {
      Conn(sessionId, cfg, key, tcp.Model(), state, udpLinked, playerId, udpSequence, username)
    }

    constructor (sessionId: nat, cfg: Config, key: Text, inbound: ConcurrentQueue<ClientCommand>)
      ensures Model() == NewConn(sessionId, cfg, key) && this.inbound == inbound && fresh(tcp)
    {
      this.sessionId, this.cfg, this.key, this.inbound := sessionId, cfg, key, inbound;
      tcp := new TcpFrameAccumulator();
      state, udpLinked, playerId, udpSequence, username := AwaitingKeyEcho, false, -1, 0, [];
    }

    method SetPlayerId(pid: int)
      modifies `playerId
      ensures Model() == old(Model()).(playerId := pid)
    {
      playerId := pid;
    }

    method OnAccept() returns (out: seq<Byte>)
      ensures out == AcceptBurst(Model())
    {
      out := HelloUdpConfig(cfg.bindPort, cfg.udpHost) + HelloSessionKey(key);
    }

    method LinkUdpAndIdentify() returns (out: seq<Byte>)
      modifies `udpLinked, `state
      ensures Model() == LinkOf(old(Model())).conn && out == LinkOf(old(Model())).tcpOut
    {
      if udpLinked {
        return [];
      }
      udpLinked := true;
      if state == AwaitingKeyEcho {
        state := AwaitingUsername;
      }
      out := IdentifiedUdp();
    }

    method EmitBringup() returns (out: seq<Byte>)
      ensures out == Bringup(Model())
    {
      hide BringupParts;
      var parts := BringupParts(Model());
      out := [];
      for i := 0 to |parts|
        invariant out == Join(parts[..i])
      {
        assert parts[..i + 1][..i] == parts[..i];
        out := out + parts[i];
      }
      assert parts[..|parts|] == parts;
    }

    method CompleteLoginWithPassword(pass: Text) returns (out: seq<Byte>)
      modifies `state, inbound
      ensures Model() == LoginDone(old(Model()), pass).conn && out == LoginDone(old(Model()), pass).out
      ensures inbound.items == old(inbound.items) + LoginDone(old(Model()), pass).cmds
    {
      hide Bringup;
      inbound.Push(Plain(LoginPassword, sessionId, pass));
      state := Verified;
      out := EmitBringup();
      inbound.Push(Plain(ClientConnected, sessionId, username));
    }

    method HandleLoginUsername(reader: BitReader) returns (ok: bool, out: seq<Byte>)
      requires reader.Valid()
      modifies `state, `username, inbound
      ensures var h := UsernameOf(old(Model()), reader.Cur());
              && Model() == h.conn && ok == h.ok && out == h.out
              && inbound.items == old(inbound.items) + h.cmds
    {
      hide ReadLogin, Bringup, LoginStatus;
      var login := ReadLoginPayload(reader);
      if login.None? {
        return false, [];
      }
      username := login.value.primary;
      inbound.Push(Plain(LoginUser, sessionId, login.value.primary));
      if login.value.secondary.Some? {
        out := CompleteLoginWithPassword(login.value.secondary.value);
        return true, out;
      }
      state := AwaitingPassword;
      return true, LoginStatus(true, ASK_PASSWORD);
    }

    method HandleLoginPassword(reader: BitReader) returns (ok: bool, out: seq<Byte>)
      requires reader.Valid()
      modifies `state, inbound
      ensures var h := PasswordOf(old(Model()), reader.Cur());
              && Model() == h.conn && ok == h.ok && out == h.out
              && inbound.items == old(inbound.items) + h.cmds
    {
      hide ReadLogin, Bringup;
      var login := ReadLoginPayload(reader);
      if login.None? {
        return false, [];
      }
      out := CompleteLoginWithPassword(login.value.secondary.GetOr(login.value.primary));
      return true, out;
    }

    method HandleBpsRequest(reader: BitReader) returns (ok: bool, out: seq<Byte>)
      requires reader.Valid()
      modifies reader
      ensures var h := BpsOf(Model(), old(reader.Cur())); ok == h.ok && out == h.out
    {
      var rate := reader.ReadI32();
      if rate.None? {
        return false, [];
      }
      return true, BpsReply(rate.value);
    }

    method QueueTeamReincarnate(team: int) returns (ok: bool)
      modifies inbound
      ensures ok == (team == 1 || team == 2)
      ensures inbound.items == old(inbound.items) + if ok then [TeamCommand(sessionId, team)] else []
    {
      if team != 1 && team != 2 {
        return false;
      }
      inbound.Push(TeamCommand(sessionId, team));
      return true;
    }

    method QueueSpawnReincarnate(selected: int, base: int) returns (ok: bool)
      modifies inbound
      ensures ok == (selected >= 0 && base >= 0)
      ensures inbound.items == old(inbound.items) + if ok then [SpawnCommand(sessionId, selected, base)] else []
    {
      if selected < 0 || base < 0 {
        return false;
      }
      inbound.Push(SpawnCommand(sessionId, selected, base));
      return true;
    }

    method QueueRequest(r: Request) returns (ok: bool)
      modifies inbound
      ensures ok == RequestCommand(sessionId, r).Some?
      ensures inbound.items == old(inbound.items) + if ok then [RequestCommand(sessionId, r).value] else []
    {
      if r.isTeamSwitch {
        ok := QueueTeamReincarnate(r.teamId);
      } else {
        ok := QueueSpawnReincarnate(r.selectedEntry, r.baseId);
      }
    }

    method HandleReincarnateRequest(body: seq<Byte>) returns (ok: bool)
      modifies inbound
      ensures var h := TcpReincarnateOf(Model(), body);
              ok == h.ok && inbound.items == old(inbound.items) + h.cmds
    {
      hide ReadRequest, RequestCommand;
      var request := ReadReincarnateRequest(body);
      if request.None? {
        return false;
      }
      ok := QueueRequest(request.value);
    }

    method BuildUdpAck(opcode: Byte, ackedSequence: U16) returns (out: seq<Byte>)
      modifies `udpSequence
      ensures Model() == old(Model()).(udpSequence := (old(udpSequence) + 1) % 0x1_0000)
      ensures out == UdpAck((old(udpSequence) + 1) % 0x1_0000, opcode, ackedSequence)
    {
      udpSequence := (udpSequence + 1) % 0x1_0000;
      out := UdpAck(udpSequence, opcode, ackedSequence);
    }

    method HandleUdpReincarnateRequest(body: seq<Byte>) returns (r: StepResult)
      modifies `udpSequence, inbound
      ensures var s := UdpReincarnateOf(old(Model()), body);
              && Model() == s.conn && r == StepResult(s.tcpOut, s.udpOut, s.datagrams, s.close)
              && inbound.items == old(inbound.items) + s.cmds
    {
      hide ReadRequest, RequestCommand, UdpAck, UdpUpdateStats;
      var request := ReadReincarnateRequest(body);
      if request.None? {
        return NOTHING.(close := true);
      }
      var queued := QueueRequest(request.value);
      if !queued {
        return NOTHING.(close := true);
      }
      var ack := BuildUdpAck(Opcodes.REINCARNATE, request.value.sequence);
      r := NOTHING.(udpOut := ack);
      if request.value.isTeamSwitch {
        var pid := if playerId >= 0 then playerId else SessionPlayerId(sessionId);
        var stats := BuildUdpUpdateStats(pid, request.value.teamId);
        r := r.(datagrams := [stats]);
      }
    }

    method HandleUdpActionInput(opcode: Byte, body: seq<Byte>)
      modifies inbound
      ensures inbound.items == old(inbound.items) + UdpActionsOf(Model(), opcode, body).cmds
    {
      hide ActionInput.ActionDumpOf, ActionInput.ActionUpdateOf;
      var decoded: ActionInput.DecodedActions;
      if opcode == Opcodes.ACTION_DUMP {
        decoded := ActionInput.DecodeActionDump(body);
      } else {
        decoded := ActionInput.DecodeActionUpdate(body);
      }
      if !decoded.ok {
        return;
      }
      var changes := decoded.changes;
      for i := 0 to |changes|
        invariant inbound.items == old(inbound.items) + ActionCommands(sessionId, changes[..i])
      {
        assert changes[..i + 1][..i] == changes[..i];
        if changes[i].channel < 0 || changes[i].channel > ActionInput.ACTION_MAX_CHANNEL {
          continue;
        }
        inbound.Push(ActionCommand(sessionId, changes[i]));
      }
      assert changes[..|changes|] == changes;
    }

    method HandleUsernameFrame(frame: Frame) returns (ok: bool, out: seq<Byte>)
      modifies `state, `username, inbound
      ensures var h := UsernameFrameOf(old(Model()), frame);
              && Model() == h.conn && ok == h.ok && out == h.out
              && inbound.items == old(inbound.items) + h.cmds
    {
      hide UsernameOf, PostLinkHelloOk;
      var reader := new BitReader(frame.body);
      if frame.opcode == Opcodes.HELLO {
        ok := HandlePostLinkHello(reader);
        return ok, [];
      }
      if frame.opcode != Opcodes.LOGIN {
        return false, [];
      }
      ok, out := HandleLoginUsername(reader);
    }

    method HandlePasswordFrame(frame: Frame) returns (ok: bool, out: seq<Byte>)
      modifies `state, inbound
      ensures var h := PasswordFrameOf(old(Model()), frame);
              && Model() == h.conn && ok == h.ok && out == h.out
              && inbound.items == old(inbound.items) + h.cmds
    {
      hide PasswordOf;
      if frame.opcode != Opcodes.LOGIN {
        return false, [];
      }
      var reader := new BitReader(frame.body);
      ok, out := HandleLoginPassword(reader);
    }

    method HandleVerifiedFrame(frame: Frame) returns (ok: bool, out: seq<Byte>)
      modifies `state, inbound
      ensures var h := VerifiedFrameOf(old(Model()), frame);
              && Model() == h.conn && ok == h.ok && out == h.out
              && inbound.items == old(inbound.items) + h.cmds
    {
      hide BpsOf;
      if frame.opcode == Opcodes.BPS {
        var reader := new BitReader(frame.body);
        ok, out := HandleBpsRequest(reader);
        BpsKeeps(Model(), Start(frame.body));
        return;
      }
      if frame.opcode == Opcodes.WANT_UPDATES {
        state := InGame;
        inbound.Push(Plain(WantUpdates, sessionId, []));
      }
      return true, [];
    }

    method HandleInGameFrame(frame: Frame) returns (ok: bool, out: seq<Byte>)
      modifies inbound
      ensures var h := InGameFrameOf(Model(), frame);
              && h.conn == Model() && ok == h.ok && out == h.out
              && inbound.items == old(inbound.items) + h.cmds
    {
      hide BpsOf, TcpReincarnateOf;
      if frame.opcode == Opcodes.BPS {
        var reader := new BitReader(frame.body);
        ok, out := HandleBpsRequest(reader);
        BpsKeeps(Model(), Start(frame.body));
        return;
      }
      if frame.opcode == Opcodes.REINCARNATE {
        ok := HandleReincarnateRequest(frame.body);
        RequestKeeps(Model(), frame.body);
        return ok, [];
      }
      return true, [];
    }

    method HandleFrame(frame: Frame) returns (ok: bool, out: seq<Byte>)
      modifies `state, `username, inbound
      ensures var h := FrameOf(old(Model()), frame);
              && Model() == h.conn && ok == h.ok && out == h.out
              && inbound.items == old(inbound.items) + h.cmds
    {
      hide UsernameFrameOf, PasswordFrameOf, VerifiedFrameOf, InGameFrameOf, AwaitingKeyEchoOk, Opcodes.IsKnownOpcode;
      out := [];
      if !Opcodes.IsKnownOpcode(frame.opcode) {
        return false, [];
      }
      if frame.opcode == Opcodes.GENERIC {
        return true, [];
      }
      match state {
        case AwaitingKeyEcho =>
          var reader := new BitReader(frame.body);
          ok := HandleAwaitingKeyEcho(frame.opcode, reader);
        case AwaitingUsername =>
          ok, out := HandleUsernameFrame(frame);
        case AwaitingPassword =>
          ok, out := HandlePasswordFrame(frame);
        case Verified =>
          ok, out := HandleVerifiedFrame(frame);
        case InGame =>
          ok, out := HandleInGameFrame(frame);
        case Closed =>
          ok := false;
      }
    }

    /** At most `limit` complete frames are handled; the rest waits for the next chunk. */
    method DrainFrames(limit: nat) returns (r: StepResult)
      modifies `state, `username, tcp, inbound
      ensures var s := Drain(Still(old(Model())), limit);
              && Model() == s.conn && r == StepResult(s.tcpOut, s.udpOut, s.datagrams, s.close)
              && inbound.items == old(inbound.items) + s.cmds
    {
      hide FrameOf, NextStep, Drain;
      r := NOTHING;
      var processed := 0;
      ghost var s := Still(Model());
      while processed < limit
        invariant processed <= limit
        invariant s.conn == Model() && r == StepResult(s.tcpOut, s.udpOut, s.datagrams, s.close) && !s.close
        invariant inbound.items == old(inbound.items) + s.cmds
        invariant Drain(s, limit - processed) == Drain(Still(old(Model())), limit)
      {
        DrainStep(s, limit - processed);
        var frame := tcp.Next();
        s := s.(conn := Model());
        if tcp.Failed() {
          state := Closed;
          return r.(close := true);
        }
        if frame.None? {
          return;
        }
        var ok, out := HandleFrame(frame.value);
        s := AfterFrame(s, FrameOf(s.conn, frame.value));
        r := r.(tcpOut := r.tcpOut + out);
        if !ok {
          state := Closed;
          return r.(close := true);
        }
        processed := processed + 1;
      }
      DrainNone(s);
    }

    method OnTcpData(data: seq<Byte>) returns (r: StepResult)
      modifies `state, `username, tcp, inbound
      ensures var s := TcpStep(old(Model()), data);
              && Model() == s.conn && r == StepResult(s.tcpOut, s.udpOut, s.datagrams, s.close)
              && inbound.items == old(inbound.items) + s.cmds
    {
      hide FeedStep, Drain;
      if state == Closed {
        return NOTHING.(close := true);
      }
      var feedOk := tcp.Feed(data);
      if !feedOk || tcp.Buffered() > MAX_BUFFERED_BYTES {
        state := Closed;
        return NOTHING.(close := true);
      }
      r := DrainFrames(MAX_FRAMES_PER_DRAIN);
    }

    method HandleGamePacket(opcode: Byte, body: seq<Byte>) returns (r: StepResult)
      modifies `udpSequence, inbound
      ensures var s := GamePacketOf(old(Model()), opcode, body);
              && Model() == s.conn && r == StepResult(s.tcpOut, s.udpOut, s.datagrams, s.close)
              && inbound.items == old(inbound.items) + s.cmds
    {
      hide UdpReincarnateOf, DecodedOf, ActionCommands;
      r := NOTHING;
      if state != InGame {
        return;
      }
      if opcode == Opcodes.REINCARNATE {
        r := HandleUdpReincarnateRequest(body);
      } else {
        HandleUdpActionInput(opcode, body);
      }
    }

    /** The client's own timestamp back, or zero for a body without one. */
    method BuildPong(body: seq<Byte>) returns (out: seq<Byte>)
      ensures out == UdpPong(ReadI32(Start(body)).1.GetOr(0))
    {
      var reader := new BitReader(body);
      var timestamp := reader.ReadI32();
      out := UdpPong(timestamp.GetOr(0));
    }

    /** Only an echo of this session's own key links it; any other HELLO is ignored. */
    method HandleKeyEcho(body: seq<Byte>) returns (r: StepResult)
      modifies `udpLinked, `state
      ensures var s := if ReadKeyEcho(body) == Some(key) then LinkOf(old(Model())) else Still(old(Model()));
              Model() == s.conn && r == StepResult(s.tcpOut, [], [], false)
    {
      hide ReadKeyEcho, IdentifiedUdp;
      var echo := ReadUdpKeyEcho(body);
      if echo != Some(key) {
        return NOTHING;
      }
      var out := LinkUdpAndIdentify();
      return NOTHING.(tcpOut := out);
    }

    method OnUdpPacket(opcode: Byte, body: seq<Byte>) returns (r: StepResult)
      modifies `state, `udpLinked, `udpSequence, inbound
      ensures var s := UdpStep(old(Model()), opcode, body);
              && Model() == s.conn && r == StepResult(s.tcpOut, s.udpOut, s.datagrams, s.close)
              && inbound.items == old(inbound.items) + s.cmds
    {
      hide GamePacketOf, ReadKeyEcho, HandshakeDatagrams, UdpPong, IdentifiedUdp, Unpack;
      r := NOTHING;
      if state == Closed {
        return r.(close := true);
      }
      if opcode == Opcodes.D_HANDSHAKE {
        return r.(datagrams := HandshakeDatagrams(Model()));
      }
      if opcode == Opcodes.CLIENT_PING {
        var pong := BuildPong(body);
        return r.(datagrams := [pong]);
      }
      if IsGameOpcode(opcode) {
        r := HandleGamePacket(opcode, body);
        return;
      }
      if opcode != Opcodes.HELLO {
        return;
      }
      r := HandleKeyEcho(body);
    }
  }

  lemma {:induction false} DrainNone(s: Step)
    ensures Drain(s, 0) == s
  {
  }

  lemma {:induction false} BpsKeeps(c: Conn, r: Cursor)
    ensures BpsOf(c, r).conn == c && BpsOf(c, r).cmds == []
  {
  }

  lemma {:induction false} RequestKeeps(c: Conn, body: seq<Byte>)
    ensures TcpReincarnateOf(c, body).conn == c && TcpReincarnateOf(c, body).out == []
  {
  }

  lemma {:induction false} DrainStep(s: Step, n: nat)
    requires n > 0
    ensures var (a, f) := NextStep(s.conn.tcp);
            var popped := s.(conn := s.conn.(tcp := a));
            Drain(s, n)
            == if a.failed then Shut(popped)
               else if f.None? then popped
               else
                 var s' := AfterFrame(popped, FrameOf(popped.conn, f.value));
                 if s'.close then s' else Drain(s', n - 1)
  {
  }
}
