/**
 The session protocol as functions: what one TCP chunk or one UDP packet does to
 a connection's state, what it sends back, and which commands it queues. The
 `Connection` class is proved against these.
 */
module Protocol {
  import opened Bits
  import opened Cursors
  import opened Framing
  import opened Queues
  import opened Packets
  import ActionInput
  import Opcodes

  const MAX_STRING_LEN := 256
  const MAX_BUFFERED_BYTES := 65536
  const MAX_FRAMES_PER_DRAIN := 256

  const HELLO_VERSION: Byte := 0
  const HELLO_KEY_ECHO: Byte := 1
  const HELLO_CONFIRM: Byte := 2
  const ASK_PASSWORD: Byte := 1
  const LOGIN_OK: Byte := 8

  datatype ConnState = AwaitingKeyEcho | AwaitingUsername | AwaitingPassword | Verified | InGame | Closed

  /** Server settings, with the bodies of the three fixed table packets of the bring-up. */
  datatype Config = Config(bindPort: U16, mapName: Text, udpHost: Text,
                           teamInfo: seq<Byte>, behavior: seq<Byte>, translation: seq<Byte>)

  datatype Conn = Conn(
    sessionId: nat, cfg: Config, key: Text, tcp: Acc, state: ConnState,
    udpLinked: bool, playerId: int, udpSequence: U16, username: Text)

  function NewConn(sessionId: nat, cfg: Config, key: Text): Conn {
    Conn(sessionId, cfg, key, Acc([], false), AwaitingKeyEcho, false, -1, 0, [])
  }

  /** What a step leaves: the new state, the queued commands and everything to send. */
  datatype Step = Step(
    conn: Conn, cmds: seq<ClientCommand>,
    tcpOut: seq<Byte>, udpOut: seq<Byte>, datagrams: seq<seq<Byte>>, close: bool)

  function Still(c: Conn): Step {
    Step(c, [], [], [], [], false)
  }

  function PlayerId(c: Conn): int {
    if c.playerId >= 0 then c.playerId else SessionPlayerId(c.sessionId)
  }

  // ---- Reading what the client sends ---------------------------------------------------------

  predicate Printable(t: Text) {
    forall i :: 0 <= i < |t| ==> 0x20 <= t[i] <= 0x7E
  }

  predicate IsAcceptableString(t: Text) {
    |t| <= MAX_STRING_LEN && Printable(t)
  }

  function TakeAcceptable(c: Cursor): (r: (Cursor, Option<Text>))
    ensures r.1.Some? ==> |r.1.value| < MAX_STRING_LEN && Printable(r.1.value)
  {
    var (c', t) := ReadString(c, MAX_STRING_LEN);
    (c', if t.None? || !IsAcceptableString(t.value) then None else t)
  }

  datatype Login = Login(primary: Text, secondary: Option<Text>)

  /** The text alone if the body reads as one, else a type byte and one or two texts. */
  function ReadLogin(c: Cursor): Option<Login> {
    var direct := TakeAcceptable(c).1;
    if direct.Some? then Some(Login(direct.value, None))
    else
      var (c1, kind) := ReadByte(c);
      if kind.None? then None
      else
        var (c2, primary) := TakeAcceptable(c1);
        if primary.None? then None
        else Some(Login(primary.value, TakeAcceptable(c2).1))
  }

  /** The key a HELLO key echo carries, if the body is one. */
  function ReadKeyEcho(body: seq<Byte>): Option<Text> {
    var (c1, sub) := ReadByte(Start(body));
    if sub != Some(HELLO_KEY_ECHO) then None else ReadString(c1, MAX_STRING_LEN).1
  }

  datatype Request = Request(sequence: U16, isTeamSwitch: bool, teamId: int, selectedEntry: int, baseId: int)

  function ReadRequest(body: seq<Byte>): Option<Request> {
    var (c1, sequence) := ReadU16(Start(body));
    var c2 := ReadU16(c1).0;
    var (c3, mode) := ReadByte(c2);
    var (c4, first) := ReadI32(c3);
    var (c5, second) := ReadI32(c4);
    if c5.failed then None
    else if mode == Some(1) then Some(Request(sequence.GetOr(0), true, first.GetOr(0), 0, 0))
    else
      var c7 := ReadI32(ReadI32(c5).0).0;
      if c7.failed then None
      else Some(Request(sequence.GetOr(0), false, 0, first.GetOr(0), second.GetOr(0)))
  }

  // ---- Commands ----------------------------------------------------------------------------------

  function SpawnCommand(id: nat, selected: int, base: int): ClientCommand {
    Plain(Reincarnate, id, []).(unitId := selected, padId := base)
  }

  function TeamCommand(id: nat, team: int): ClientCommand {
    Plain(Reincarnate, id, []).(team := team)
  }

  /** The command a reincarnation request queues, if its values are allowed. */
  function RequestCommand(id: nat, r: Request): Option<ClientCommand> {
    if r.isTeamSwitch then
      if r.teamId == 1 || r.teamId == 2 then Some(TeamCommand(id, r.teamId)) else None
    else
      if r.selectedEntry < 0 || r.baseId < 0 then None else Some(SpawnCommand(id, r.selectedEntry, r.baseId))
  }

  function ActionCommand(id: nat, x: ActionInput.Change): ClientCommand {
    Plain(CommandKind.ActionInput, id, []).(
      channel := x.channel, value := if x.value < -1.0 then -1.0 else if x.value > 1.0 then 1.0 else x.value)
  }

  /** One command per change on a drivable channel. */
  function ActionCommands(id: nat, changes: seq<ActionInput.Change>): seq<ClientCommand> {
    if changes == [] then []
    else
      var n := |changes| - 1;
      ActionCommands(id, changes[..n])
      + if 0 <= changes[n].channel <= ActionInput.ACTION_MAX_CHANNEL then [ActionCommand(id, changes[n])] else []
  }

  // ---- Packets --------------------------------------------------------------------------------------

  function AcceptBurst(c: Conn): seq<Byte> {
    HelloUdpConfig(c.cfg.bindPort, c.cfg.udpHost) + HelloSessionKey(c.key)
  }

  /** The ten packets after login, in order. */
  function BringupParts(c: Conn): (parts: seq<seq<Byte>>)
    ensures |parts| == 10
  {
    [HelloVerified(),
     FrameBytes(Frame(Opcodes.TEAM_INFO, c.cfg.teamInfo)),
     LoginStatus(true, LOGIN_OK),
     Player(PlayerId(c), false),
     GameClock(0),
     Motd(Ascii("Wulf Forge Headless")),
     FrameBytes(Frame(Opcodes.BEHAVIOR, c.cfg.behavior)),
     FrameBytes(Frame(Opcodes.TRANSLATION, c.cfg.translation)),
     AddToRoster(PlayerId(c), 0, c.username),
     WorldStats(c.cfg.mapName)]
  }

  function Join(parts: seq<seq<Byte>>): seq<Byte> {
    if parts == [] then [] else Join(parts[..|parts| - 1]) + parts[|parts| - 1]
  }

  function Bringup(c: Conn): seq<Byte> {
    Join(BringupParts(c))
  }

  // ---- One TCP frame -------------------------------------------------------------------------------------

  /** Whether the connection survives, and what the frame did. */
  datatype Handled = Handled(ok: bool, conn: Conn, cmds: seq<ClientCommand>, out: seq<Byte>)

  function Ignored(ok: bool, c: Conn): Handled {
    Handled(ok, c, [], [])
  }

  function HelloVersionOk(c: Cursor): bool {
    ReadI32(c).1 == Some(PROTOCOL_VERSION)
  }

  /** Before the UDP link only HELLO is allowed, and a version must match if it is sent. */
  function AwaitingKeyEchoOk(opcode: Byte, c: Cursor): bool {
    var (c1, sub) := ReadByte(c);
    opcode == Opcodes.HELLO && sub.Some? && (sub.value == HELLO_VERSION ==> HelloVersionOk(c1))
  }

  function PostLinkHelloOk(c: Cursor): bool {
    var (c1, sub) := ReadByte(c);
    sub == Some(HELLO_CONFIRM) || (sub == Some(HELLO_VERSION) && HelloVersionOk(c1))
  }

  function LoginDone(c: Conn, pass: Text): Handled {
    var c' := c.(state := Verified);
    Handled(true, c', [Plain(LoginPassword, c.sessionId, pass), Plain(ClientConnected, c.sessionId, c.username)],
        Bringup(c'))
  }

  function UsernameOf(c: Conn, r: Cursor): Handled {
    var login := ReadLogin(r);
    if login.None? then Ignored(false, c)
    else
      var named := c.(username := login.value.primary);
      var user := [Plain(LoginUser, c.sessionId, login.value.primary)];
      if login.value.secondary.Some? then
        var done := LoginDone(named, login.value.secondary.value);
        done.(cmds := user + done.cmds)
      else Handled(true, named.(state := AwaitingPassword), user, LoginStatus(true, ASK_PASSWORD))
  }

  function PasswordOf(c: Conn, r: Cursor): Handled {
    var login := ReadLogin(r);
    if login.None? then Ignored(false, c)
    else LoginDone(c, login.value.secondary.GetOr(login.value.primary))
  }

  function BpsOf(c: Conn, r: Cursor): Handled {
    var rate := ReadI32(r).1;
    if rate.None? then Ignored(false, c) else Handled(true, c, [], BpsReply(rate.value))
  }

  function TcpReincarnateOf(c: Conn, body: seq<Byte>): Handled {
    var request := ReadRequest(body);
    if request.None? then Ignored(false, c)
    else
      var cmd := RequestCommand(c.sessionId, request.value);
      if cmd.None? then Ignored(false, c) else Handled(true, c, [cmd.value], [])
  }

  function UsernameFrameOf(c: Conn, f: Frame): Handled {
    if f.opcode == Opcodes.HELLO then Ignored(PostLinkHelloOk(Start(f.body)), c)
    else if f.opcode == Opcodes.LOGIN then UsernameOf(c, Start(f.body))
    else Ignored(false, c)
  }

  function PasswordFrameOf(c: Conn, f: Frame): Handled {
    if f.opcode == Opcodes.LOGIN then PasswordOf(c, Start(f.body)) else Ignored(false, c)
  }

  function VerifiedFrameOf(c: Conn, f: Frame): Handled {
    if f.opcode == Opcodes.BPS then BpsOf(c, Start(f.body))
    else if f.opcode == Opcodes.WANT_UPDATES then
      Handled(true, c.(state := InGame), [Plain(WantUpdates, c.sessionId, [])], [])
    else Ignored(true, c)
  }

  function InGameFrameOf(c: Conn, f: Frame): Handled {
    if f.opcode == Opcodes.BPS then BpsOf(c, Start(f.body))
    else if f.opcode == Opcodes.REINCARNATE then TcpReincarnateOf(c, f.body)
    else Ignored(true, c)
  }

  function FrameOf(c: Conn, f: Frame): Handled {
    if !Opcodes.IsKnownOpcode(f.opcode) then Ignored(false, c)
    else if f.opcode == Opcodes.GENERIC then Ignored(true, c)
    else
      match c.state
      case AwaitingKeyEcho => Ignored(AwaitingKeyEchoOk(f.opcode, Start(f.body)), c)
      case AwaitingUsername => UsernameFrameOf(c, f)
      case AwaitingPassword => PasswordFrameOf(c, f)
      case Verified => VerifiedFrameOf(c, f)
      case InGame => InGameFrameOf(c, f)
      case Closed => Ignored(false, c)
  }

  // ---- A TCP chunk ------------------------------------------------------------------------------------------

  function Shut(s: Step): Step {
    s.(conn := s.conn.(state := Closed), close := true)
  }

  function AfterFrame(s: Step, h: Handled): Step {
    var s' := s.(conn := h.conn, cmds := s.cmds + h.cmds, tcpOut := s.tcpOut + h.out);
    if h.ok then s' else Shut(s')
  }

  /** Up to n buffered frames, one by one, until one closes the connection. */
  function Drain(s: Step, n: nat): Step
    decreases n
  {
    if n == 0 then s
    else
      var (a, f) := NextStep(s.conn.tcp);
      var popped := s.(conn := s.conn.(tcp := a));
      if a.failed then Shut(popped)
      else if f.None? then popped
      else
        var s' := AfterFrame(popped, FrameOf(popped.conn, f.value));
        if s'.close then s' else Drain(s', n - 1)
  }

  function TcpStep(c: Conn, data: seq<Byte>): Step {
    if c.state.Closed? then Still(c).(close := true)
    else
      var a := FeedStep(c.tcp, data);
      var fed := Still(c.(tcp := a));
      if a.failed || |a.buffer| > MAX_BUFFERED_BYTES then Shut(fed)
      else Drain(fed, MAX_FRAMES_PER_DRAIN)
  }

  // ---- A UDP packet ---------------------------------------------------------------------------------------------

  function LinkOf(c: Conn): Step {
    if c.udpLinked then Still(c)
    else
      Still(c.(udpLinked := true, state := if c.state.AwaitingKeyEcho? then AwaitingUsername else c.state))
        .(tcpOut := IdentifiedUdp())
  }

  function HandshakeDatagrams(c: Conn): seq<seq<Byte>> {
    [UdpHandshakeAck(0), UdpStreamDefs(0, PlayerId(c)), UdpStreamUnpause(1), UdpStreamUnpause(3)]
  }

  function UdpReincarnateOf(c: Conn, body: seq<Byte>): Step {
    var request := ReadRequest(body);
    if request.None? then Still(c).(close := true)
    else
      var r := request.value;
      var cmd := RequestCommand(c.sessionId, r);
      if cmd.None? then Still(c).(close := true)
      else
        var sequence := (c.udpSequence + 1) % 0x1_0000;
        Step(c.(udpSequence := sequence), [cmd.value], [],
             UdpAck(sequence, Opcodes.REINCARNATE, r.sequence),
             if r.isTeamSwitch then [UdpUpdateStats(PlayerId(c), r.teamId)] else [], false)
  }

  function DecodedOf(opcode: Byte, body: seq<Byte>): ActionInput.DecodedActions {
    if opcode == Opcodes.ACTION_DUMP then ActionInput.ActionDumpOf(body) else ActionInput.ActionUpdateOf(body)
  }

  function UdpActionsOf(c: Conn, opcode: Byte, body: seq<Byte>): Step {
    var d := DecodedOf(opcode, body);
    if d.ok then Still(c).(cmds := ActionCommands(c.sessionId, d.changes)) else Still(c)
  }

  /** Requests and control input count only in the game. */
  function GamePacketOf(c: Conn, opcode: Byte, body: seq<Byte>): Step {
    if !c.state.InGame? then Still(c)
    else if opcode == Opcodes.REINCARNATE then UdpReincarnateOf(c, body)
    else UdpActionsOf(c, opcode, body)
  }

  predicate IsGameOpcode(opcode: Byte) {
    opcode == Opcodes.REINCARNATE || opcode == Opcodes.ACTION_UPDATE || opcode == Opcodes.ACTION_DUMP
  }

  function UdpStep(c: Conn, opcode: Byte, body: seq<Byte>): Step {
    if c.state.Closed? then Still(c).(close := true)
    else if opcode == Opcodes.D_HANDSHAKE then Still(c).(datagrams := HandshakeDatagrams(c))
    else if opcode == Opcodes.CLIENT_PING then Still(c).(datagrams := [UdpPong(ReadI32(Start(body)).1.GetOr(0))])
    else if IsGameOpcode(opcode) then GamePacketOf(c, opcode, body)
    else if opcode == Opcodes.HELLO && ReadKeyEcho(body) == Some(c.key) then LinkOf(c)
    else Still(c)
  }
}
