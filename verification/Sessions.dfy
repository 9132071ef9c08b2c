/**
 Whole runs of one connection: arbitrary bytes on both transports. What its
 state, its output and the commands it queues keep, whatever the client sends.
 A run is a list of inputs; beside the connection it carries everything queued and
 everything sent on TCP, and one invariant over the three is kept by every frame,
 every drain and every packet.
 */
module Sessions {
  import opened Bits
  import opened Cursors
  import opened Framing
  import opened Queues
  import opened Packets
  import opened Protocol
  import ActionInput
  import Opcodes

  // ---- The grammar of a session's commands ---------------------------------------------------

  datatype Phase = Fresh | Named | Passed | Connected | Live | Gone | Broken

  function NextPhase(p: Phase, kind: CommandKind): Phase {
    match kind
    case LoginUser => if p.Fresh? then Named else Broken
    case LoginPassword => if p.Named? then Passed else Broken
    case ClientConnected => if p.Passed? then Connected else Broken
    case WantUpdates => if p.Connected? then Live else Broken
    case Reincarnate => if p.Live? then Live else Broken
    case ActionInput => if p.Live? then Live else Broken
    case Disconnected => if p.Gone? || p.Broken? then Broken else Gone
  }

  function PhaseOf(cmds: seq<ClientCommand>): Phase {
    if cmds == [] then Fresh else NextPhase(PhaseOf(cmds[..|cmds| - 1]), cmds[|cmds| - 1].kind)
  }

  lemma {:induction false} PhaseSnoc(cmds: seq<ClientCommand>, c: ClientCommand)
    ensures PhaseOf(cmds + [c]) == NextPhase(PhaseOf(cmds), c.kind)
  {
    assert (cmds + [c])[..|cmds|] == cmds;
  }

  const LOGIN_KINDS: seq<CommandKind> := [LoginUser, LoginPassword, ClientConnected, WantUpdates]

  function Kinds(cmds: seq<ClientCommand>): (ks: seq<CommandKind>)
    ensures |ks| == |cmds|
  {
    seq(|cmds|, i requires 0 <= i < |cmds| => cmds[i].kind)
  }

  function Reached(p: Phase): nat {
    match p
    case Fresh => 0
    case Named => 1
    case Passed => 2
    case Connected => 3
    case _ => 4
  }

  /** The login commands in order, as far as they go, and only requests and input behind all four. */
  ghost predicate InOrder(ks: seq<CommandKind>) {
    && ks[..Min(|ks|, 4)] == LOGIN_KINDS[..Min(|ks|, 4)]
    && forall i :: 4 <= i < |ks| ==> ks[i] == Reincarnate || ks[i] == CommandKind.ActionInput
  }

  /** What each phase says about the commands so far. */
  lemma {:induction false} PhaseShape(cmds: seq<ClientCommand>)
    ensures var p := PhaseOf(cmds);
            && (!p.Gone? && !p.Broken? ==>
                  InOrder(Kinds(cmds)) && (if p.Live? then |cmds| >= 4 else |cmds| == Reached(p)))
            && (p.Gone? ==> cmds != [] && InOrder(Kinds(cmds)[..|cmds| - 1]) && cmds[|cmds| - 1].kind.Disconnected?)
  {
    hide PhaseOf, InOrder;
    if cmds == [] {
      NoKinds();
    } else {
      var n := |cmds| - 1;
      PhaseShape(cmds[..n]);
      PhaseSnoc(cmds[..n], cmds[n]);
      assert cmds == cmds[..n] + [cmds[n]];
      assert Kinds(cmds) == Kinds(cmds[..n]) + [cmds[n].kind] && Kinds(cmds)[..n] == Kinds(cmds[..n]);
      if !PhaseOf(cmds[..n]).Gone? && !PhaseOf(cmds[..n]).Broken? {
        InOrderSnoc(Kinds(cmds[..n]), cmds[n].kind);
      }
    }
  }

  lemma {:induction false} NoKinds()
    ensures PhaseOf([]) == Fresh && InOrder(Kinds([]))
  {
  }

  /** The next login command, or input behind all four, keeps the order. */
  lemma {:induction false} InOrderSnoc(ks: seq<CommandKind>, k: CommandKind)
    requires InOrder(ks)
    ensures (if |ks| < 4 then k == LOGIN_KINDS[|ks|] else k == Reincarnate || k == CommandKind.ActionInput) ==>
            InOrder(ks + [k])
  {
    if |ks| < 4 && k == LOGIN_KINDS[|ks|] {
      assert ks[..|ks|] == ks && (ks + [k])[..|ks| + 1] == ks + [k];
      assert LOGIN_KINDS[..|ks| + 1] == LOGIN_KINDS[..|ks|] + [LOGIN_KINDS[|ks|]];
    } else if |ks| >= 4 {
      assert (ks + [k])[..4] == ks[..4];
    }
  }

  /** The phases a connection in this state can be in. */
  predicate PhaseFits(state: ConnState, p: Phase) {
    match state
    case AwaitingKeyEcho => p == Fresh
    case AwaitingUsername => p == Fresh
    case AwaitingPassword => p == Named
    case Verified => p == Connected
    case InGame => p == Live
    case Closed => p != Gone && p != Broken
  }

  // ---- Well-formed commands -----------------------------------------------------------------------

  /** Everything the tick thread may rely on about a command of session id. */
  predicate WellFormed(cmd: ClientCommand, id: nat) {
    && cmd.sessionId == id
    && match cmd.kind
       case ActionInput => 0 <= cmd.channel <= 21 && -1.0 <= cmd.value <= 1.0
       case Reincarnate =>
         || (1 <= cmd.team <= 2 && cmd.unitId == 0 && cmd.padId == 0)
         || (cmd.team == 0 && cmd.unitId >= 0 && cmd.padId >= 0)
       case LoginUser => Printable(cmd.text) && |cmd.text| <= 255
       case LoginPassword => Printable(cmd.text) && |cmd.text| <= 255
       case ClientConnected => Printable(cmd.text) && |cmd.text| <= 255
       case WantUpdates => true
       case Disconnected => true
  }

  ghost predicate AllWellFormed(cmds: seq<ClientCommand>, id: nat) {
    forall i :: 0 <= i < |cmds| ==> WellFormed(cmds[i], id)
  }

  lemma {:induction false} LoginReadable(c: Cursor)
    ensures var l := ReadLogin(c);
            l.Some? ==> Printable(l.value.primary) && |l.value.primary| <= 255 &&
                        (l.value.secondary.Some? ==>
                          Printable(l.value.secondary.value) && |l.value.secondary.value| <= 255)
  {
    hide ReadString, Printable, ReadByte;
  }

  lemma {:induction false} ActionCommandsFacts(id: nat, changes: seq<ActionInput.Change>, before: seq<ClientCommand>)
    requires AllWellFormed(before, id) && PhaseOf(before) == Live
    ensures AllWellFormed(before + ActionCommands(id, changes), id)
    ensures PhaseOf(before + ActionCommands(id, changes)) == Live
  {
    if changes == [] {
      assert before + [] == before;
    } else {
      var n := |changes| - 1;
      ActionCommandsFacts(id, changes[..n], before);
      var out := before + ActionCommands(id, changes[..n]);
      if 0 <= changes[n].channel <= ActionInput.ACTION_MAX_CHANNEL {
        var c := ActionCommand(id, changes[n]);
        assert WellFormed(c, id);
        PhaseSnoc(out, c);
        ConcatAssoc(before, ActionCommands(id, changes[..n]), [c]);
      } else {
        assert ActionCommands(id, changes) == ActionCommands(id, changes[..n]);
      }
    }
  }

  // ---- What goes out on TCP -----------------------------------------------------------------------

  function OpcodesOf(b: seq<Byte>): seq<Byte> {
    var frames := Parse(b).frames;
    seq(|frames|, i requires 0 <= i < |frames| => frames[i].opcode)
  }

  function Count(ops: seq<Byte>, op: Byte): nat {
    if ops == [] then 0 else Count(ops[..|ops| - 1], op) + if ops[|ops| - 1] == op then 1 else 0
  }

  lemma {:induction false} CountConcat(a: seq<Byte>, b: seq<Byte>, op: Byte)
    ensures Count(a + b, op) == Count(a, op) + Count(b, op)
    decreases |b|
  {
    if b == [] {
      assert a + b == a;
    } else {
      assert (a + b)[..|a| + |b| - 1] == a + b[..|b| - 1];
      CountConcat(a, b[..|b| - 1], op);
    }
  }

  lemma {:induction false} OpcodesConcat(a: seq<Byte>, b: seq<Byte>)
    requires IsFrames(a) && IsFrames(b)
    ensures IsFrames(a + b) && OpcodesOf(a + b) == OpcodesOf(a) + OpcodesOf(b)
  {
    hide Parse;
    FramesConcat(a, b);
  }

  /** Whole frames, none of them under another opcode and at most one in all. */
  ghost predicate OnePart(b: seq<Byte>, op: Byte) {
    IsFrames(b) && (OpcodesOf(b) == [] || OpcodesOf(b) == [op])
  }

  lemma {:induction false} FramedPart(opcode: Byte, fs: seq<Field>)
    ensures OnePart(Framed(opcode, fs), opcode)
    ensures OpcodesOf(Framed(opcode, fs)) == if |Payload(fs)| <= 65532 then [opcode] else []
  {
    hide Framed, Parse;
    FramedParse(opcode, fs);
  }

  lemma {:induction false} TablePart(opcode: Byte, body: seq<Byte>)
    ensures OnePart(FrameBytes(Frame(opcode, body)), opcode)
    ensures OpcodesOf(FrameBytes(Frame(opcode, body))) == if |body| <= 65532 then [opcode] else []
  {
    hide Parse;
    var f := Frame(opcode, body);
    if Sendable(f) {
      OneFrame(f);
    } else {
      NoBytes();
    }
  }

  lemma {:induction false} NoBytes()
    ensures Parse([]) == Parsed([], [], false)
  {
  }

  const BRINGUP_OPCODES: seq<Byte> := [
    Opcodes.HELLO, Opcodes.TEAM_INFO, Opcodes.LOGIN_STATUS, Opcodes.PLAYER, Opcodes.GAME_CLOCK,
    Opcodes.MOTD, Opcodes.BEHAVIOR, Opcodes.TRANSLATION, Opcodes.ADD_TO_ROSTER, Opcodes.WORLD_STATS]

  /** Parts under distinct opcodes, joined, hold each opcode at most once. */
  lemma {:induction false} JoinCounts(parts: seq<seq<Byte>>, ops: seq<Byte>, op: Byte)
    requires |parts| == |ops| && forall i :: 0 <= i < |parts| ==> OnePart(parts[i], ops[i])
    requires forall i, j :: 0 <= i < j < |ops| ==> ops[i] != ops[j]
    ensures IsFrames(Join(parts)) && Count(OpcodesOf(Join(parts)), op) <= if op in ops then 1 else 0
  {
    hide Parse, IsFrames, OpcodesOf;
    if parts == [] {
      NothingSent();
    } else {
      var n := |parts| - 1;
      JoinCounts(parts[..n], ops[..n], op);
      assert ops == ops[..n] + [ops[n]] && OnePart(parts[n], ops[n]);
      OpcodesConcat(Join(parts[..n]), parts[n]);
      CountConcat(OpcodesOf(Join(parts[..n])), OpcodesOf(parts[n]), op);
      CountOne(ops[n], op);
    }
  }

  /** The bring-up is whole frames and holds each of its opcodes at most once, others never. */
  lemma {:induction false} BringupCounts(c: Conn, op: Byte)
    ensures IsFrames(Bringup(c)) && Count(OpcodesOf(Bringup(c)), op) <= if op in BRINGUP_OPCODES then 1 else 0
  {
    hide OnePart, Framed, FrameBytes, Ascii, AddToRosterFields, WorldStatsFields, IsFrames, OpcodesOf, Payload, Join;
    FramedPart(Opcodes.HELLO, [Octet(3)]);
    TablePart(Opcodes.TEAM_INFO, c.cfg.teamInfo);
    FramedPart(Opcodes.LOGIN_STATUS, [Octet(1), Octet(LOGIN_OK)]);
    FramedPart(Opcodes.PLAYER, [Int32(PlayerId(c)), Octet(0)]);
    FramedPart(Opcodes.GAME_CLOCK, [Int32(0), Octet(1), Int32(1), Int32(30000)]);
    FramedPart(Opcodes.MOTD, StringFields(Ascii("Wulf Forge Headless")));
    TablePart(Opcodes.BEHAVIOR, c.cfg.behavior);
    TablePart(Opcodes.TRANSLATION, c.cfg.translation);
    FramedPart(Opcodes.ADD_TO_ROSTER, AddToRosterFields(PlayerId(c), 0, c.username, []));
    FramedPart(Opcodes.WORLD_STATS, WorldStatsFields(c.cfg.mapName));
    JoinCounts(BringupParts(c), BRINGUP_OPCODES, op);
  }

  lemma {:induction false} CountOne(x: Byte, op: Byte)
    ensures Count([x], op) == if x == op then 1 else 0
  {
    assert [x][..0] == [];
  }

  lemma {:induction false} NothingSent()
    ensures IsFrames([]) && OpcodesOf([]) == []
  {
  }

  lemma {:induction false} JoinAll(parts: seq<seq<Byte>>, ops: seq<Byte>)
    requires |parts| == |ops| && forall i :: 0 <= i < |parts| ==> IsFrames(parts[i]) && OpcodesOf(parts[i]) == [ops[i]]
    ensures IsFrames(Join(parts)) && OpcodesOf(Join(parts)) == ops
  {
    hide IsFrames, OpcodesOf;
    if parts == [] {
      NothingSent();
    } else {
      var n := |parts| - 1;
      JoinAll(parts[..n], ops[..n]);
      OpcodesConcat(Join(parts[..n]), parts[n]);
      assert ops == ops[..n] + [ops[n]];
    }
  }

  /** Map name, user name and tables are short enough for a frame. */
  predicate TablesFit(c: Conn) {
    && |c.cfg.teamInfo| <= 65532 && |c.cfg.behavior| <= 65532 && |c.cfg.translation| <= 65532
    && |c.cfg.mapName| <= 65523 && |c.username| <= MAX_ROSTER_NAME
  }

  lemma {:induction false} SmallPayloads(c: Conn)
    ensures |Payload([Octet(3)])| <= 65532
    ensures |Payload([Octet(1), Octet(LOGIN_OK)])| <= 65532
    ensures |Payload([Int32(PlayerId(c)), Octet(0)])| <= 65532
    ensures |Payload([Int32(0), Octet(1), Int32(1), Int32(30000)])| <= 65532
    ensures |Payload(StringFields(Ascii("Wulf Forge Headless")))| <= 65532
  {
    hide Encode;
    ShortWidths(Octet(3), Octet(3), Octet(3), Octet(3));
    ShortWidths(Octet(1), Octet(LOGIN_OK), Octet(3), Octet(3));
    ShortWidths(Int32(PlayerId(c)), Octet(0), Octet(3), Octet(3));
    ShortWidths(Int32(0), Octet(1), Int32(1), Int32(30000));
    StringFieldsWidth(Ascii("Wulf Forge Headless"));
    PayloadLength([Octet(3)]);
    PayloadLength([Octet(1), Octet(LOGIN_OK)]);
    PayloadLength([Int32(PlayerId(c)), Octet(0)]);
    PayloadLength([Int32(0), Octet(1), Int32(1), Int32(30000)]);
    PayloadLength(StringFields(Ascii("Wulf Forge Headless")));
  }

  /** A completed login sends exactly the ten bring-up packets, in order, if and only if the tables fit their frames. */
  lemma {:induction false} BringupExact(c: Conn)
    ensures IsFrames(Bringup(c))
    ensures OpcodesOf(Bringup(c)) == BRINGUP_OPCODES <==> TablesFit(c)
  {
    hide IsFrames, OpcodesOf, BringupParts, Join;
    BringupPartsExact(c);
    JoinLength(BringupParts(c), BRINGUP_OPCODES);
    if TablesFit(c) {
      JoinAll(BringupParts(c), BRINGUP_OPCODES);
    }
  }

  /** Each part is its one packet, except a table, map name or user name too long for a frame, which is nothing. */
  lemma {:induction false} BringupPartsExact(c: Conn)
    ensures var parts := BringupParts(c);
            && (forall i :: 0 <= i < 10 ==> OnePart(parts[i], BRINGUP_OPCODES[i]))
            && (TablesFit(c) <==> forall i :: 0 <= i < 10 ==> OpcodesOf(parts[i]) == [BRINGUP_OPCODES[i]])
  {
    hide IsFrames, OpcodesOf, Framed, FrameBytes, Ascii, AddToRosterFields, WorldStatsFields, Payload, OnePart;
    SmallPayloads(c);
    WorldStatsLength(c.cfg.mapName);
    AddToRosterIsFrame(PlayerId(c), 0, c.username);
    FramedPart(Opcodes.HELLO, [Octet(3)]);
    TablePart(Opcodes.TEAM_INFO, c.cfg.teamInfo);
    FramedPart(Opcodes.LOGIN_STATUS, [Octet(1), Octet(LOGIN_OK)]);
    FramedPart(Opcodes.PLAYER, [Int32(PlayerId(c)), Octet(0)]);
    FramedPart(Opcodes.GAME_CLOCK, [Int32(0), Octet(1), Int32(1), Int32(30000)]);
    FramedPart(Opcodes.MOTD, StringFields(Ascii("Wulf Forge Headless")));
    TablePart(Opcodes.BEHAVIOR, c.cfg.behavior);
    TablePart(Opcodes.TRANSLATION, c.cfg.translation);
    FramedPart(Opcodes.ADD_TO_ROSTER, AddToRosterFields(PlayerId(c), 0, c.username, []));
    FramedPart(Opcodes.WORLD_STATS, WorldStatsFields(c.cfg.mapName));
    var parts := BringupParts(c);
    assert OpcodesOf(parts[1]) == [Opcodes.TEAM_INFO] <==> |c.cfg.teamInfo| <= 65532;
    assert OpcodesOf(parts[6]) == [Opcodes.BEHAVIOR] <==> |c.cfg.behavior| <= 65532;
    assert OpcodesOf(parts[7]) == [Opcodes.TRANSLATION] <==> |c.cfg.translation| <= 65532;
    assert OpcodesOf(parts[8]) == [Opcodes.ADD_TO_ROSTER] <==> |c.username| <= MAX_ROSTER_NAME;
    assert OpcodesOf(parts[9]) == [Opcodes.WORLD_STATS] <==> |c.cfg.mapName| <= 65523;
    assert TablesFit(c) <== forall i :: 0 <= i < 10 ==> OpcodesOf(parts[i]) == [BRINGUP_OPCODES[i]];
  }

  /** Joined parts hold as many frames as there are parts only if no part is empty. */
  lemma {:induction false} JoinLength(parts: seq<seq<Byte>>, ops: seq<Byte>)
    requires |parts| == |ops| && forall i :: 0 <= i < |parts| ==> OnePart(parts[i], ops[i])
    ensures IsFrames(Join(parts)) && |OpcodesOf(Join(parts))| <= |parts|
    ensures |OpcodesOf(Join(parts))| == |parts| ==> forall i :: 0 <= i < |parts| ==> OpcodesOf(parts[i]) == [ops[i]]
  {
    hide IsFrames, OpcodesOf;
    if parts == [] {
      NothingSent();
    } else {
      var n := |parts| - 1;
      JoinLength(parts[..n], ops[..n]);
      assert OnePart(parts[n], ops[n]);
      OpcodesConcat(Join(parts[..n]), parts[n]);
      assert forall i :: 0 <= i < n ==> parts[..n][i] == parts[i] && ops[..n][i] == ops[i];
    }
  }

  // ---- The life of a connection -------------------------------------------------------------------

  datatype Input = Tcp(data: seq<Byte>) | Udp(opcode: Byte, body: seq<Byte>) | Assign(playerId: int)

  function StepOf(c: Conn, x: Input): Step {
    match x
    case Tcp(data) => TcpStep(c, data)
    case Udp(opcode, body) => UdpStep(c, opcode, body)
    case Assign(pid) => Still(c.(playerId := pid))
  }

  /** The connection with everything it has queued and sent on TCP. */
  datatype Life = Life(conn: Conn, cmds: seq<ClientCommand>, sent: seq<Byte>)

  function Accepted(id: nat, cfg: Config, key: Text): Life {
    Life(NewConn(id, cfg, key), [], AcceptBurst(NewConn(id, cfg, key)))
  }

  function Extend(l: Life, s: Step): Life {
    Life(s.conn, l.cmds + s.cmds, l.sent + s.tcpOut)
  }

  function LifeOf(start: Life, xs: seq<Input>): Life {
    if xs == [] then start
    else
      var l := LifeOf(start, xs[..|xs| - 1]);
      Extend(l, StepOf(l.conn, xs[|xs| - 1]))
  }

  predicate GoodName(t: Text) {
    Printable(t) && |t| <= 255
  }

  const ONCE: seq<Byte> := [
    Opcodes.TEAM_INFO, Opcodes.PLAYER, Opcodes.GAME_CLOCK, Opcodes.MOTD,
    Opcodes.BEHAVIOR, Opcodes.TRANSLATION, Opcodes.ADD_TO_ROSTER, Opcodes.WORLD_STATS]

  /**
   Output so far: whole frames, one IDENTIFIED_UDP iff linked, and bring-up packets at
   most once and only after login.
   */
  ghost predicate SentOk(sent: seq<Byte>, linked: bool, loggedIn: bool) {
    && IsFrames(sent)
    && Count(OpcodesOf(sent), Opcodes.IDENTIFIED_UDP) == (if linked then 1 else 0)
    && forall op :: op in ONCE ==> Count(OpcodesOf(sent), op) <= if loggedIn then 1 else 0
  }

  predicate LoggedIn(p: Phase) {
    p == Connected || p == Live
  }

  predicate LinkFits(c: Conn) {
    (c.state == AwaitingKeyEcho ==> !c.udpLinked) && (c.state != AwaitingKeyEcho && c.state != Closed ==> c.udpLinked)
  }

  predicate NameFits(c: Conn) {
    c.state == AwaitingPassword || c.state == Verified || c.state == InGame ==> GoodName(c.username)
  }

  /** What every reachable life of a connection satisfies. */
  ghost predicate LifeOk(l: Life) {
    && PhaseFits(l.conn.state, PhaseOf(l.cmds))
    && AllWellFormed(l.cmds, l.conn.sessionId)
    && SentOk(l.sent, l.conn.udpLinked, LoggedIn(PhaseOf(l.cmds)))
    && LinkFits(l.conn) && NameFits(l.conn) && (!l.conn.udpLinked ==> l.cmds == [])
  }

  // ---- Output -------------------------------------------------------------------------------------

  lemma {:induction false} SentNothing(sent: seq<Byte>, linked: bool, loggedIn: bool)
    requires SentOk(sent, linked, loggedIn)
    ensures SentOk(sent + [], linked, loggedIn)
  {
    assert sent + [] == sent;
  }

  /** Adding one packet that is neither IDENTIFIED_UDP nor part of the bring-up. */
  lemma {:induction false} SentPlain(sent: seq<Byte>, linked: bool, loggedIn: bool, b: seq<Byte>, op: Byte)
    requires SentOk(sent, linked, loggedIn) && OnePart(b, op) && op != Opcodes.IDENTIFIED_UDP && op !in ONCE
    ensures SentOk(sent + b, linked, loggedIn)
  {
    hide IsFrames, OpcodesOf, Count;
    OpcodesConcat(sent, b);
    forall x | x in ONCE || x == Opcodes.IDENTIFIED_UDP
      ensures Count(OpcodesOf(sent + b), x) == Count(OpcodesOf(sent), x)
    {
      CountConcat(OpcodesOf(sent), OpcodesOf(b), x);
      CountOne(op, x);
      CountNone(x);
    }
  }

  lemma {:induction false} CountNone(op: Byte)
    ensures Count([], op) == 0
  {
  }

  lemma {:induction false} SentLink(sent: seq<Byte>, loggedIn: bool)
    requires SentOk(sent, false, loggedIn)
    ensures SentOk(sent + IdentifiedUdp(), true, loggedIn)
  {
    hide IsFrames, OpcodesOf, Count, Framed, Payload;
    PayloadLength([]);
    FramedPart(Opcodes.IDENTIFIED_UDP, []);
    OpcodesConcat(sent, IdentifiedUdp());
    forall x | x in ONCE || x == Opcodes.IDENTIFIED_UDP
      ensures Count(OpcodesOf(sent + IdentifiedUdp()), x)
              == Count(OpcodesOf(sent), x) + if x == Opcodes.IDENTIFIED_UDP then 1 else 0
    {
      CountConcat(OpcodesOf(sent), OpcodesOf(IdentifiedUdp()), x);
      CountOne(Opcodes.IDENTIFIED_UDP, x);
    }
  }

  lemma {:induction false} SentBringup(sent: seq<Byte>, linked: bool, c: Conn)
    requires SentOk(sent, linked, false)
    ensures SentOk(sent + Bringup(c), linked, true)
  {
    hide IsFrames, OpcodesOf, Count, Bringup;
    BringupCounts(c, 0);
    OpcodesConcat(sent, Bringup(c));
    forall x | x in ONCE || x == Opcodes.IDENTIFIED_UDP
      ensures Count(OpcodesOf(sent + Bringup(c)), x)
              <= Count(OpcodesOf(sent), x) + if x == Opcodes.IDENTIFIED_UDP then 0 else 1
      ensures Count(OpcodesOf(sent + Bringup(c)), x) >= Count(OpcodesOf(sent), x)
    {
      BringupCounts(c, x);
      CountConcat(OpcodesOf(sent), OpcodesOf(Bringup(c)), x);
    }
  }

  lemma {:induction false} AcceptSent(c: Conn)
    ensures SentOk(AcceptBurst(c), false, false)
  {
    hide IsFrames, OpcodesOf, Count, Framed;
    var a, b := HelloUdpConfig(c.cfg.bindPort, c.cfg.udpHost), HelloSessionKey(c.key);
    FramedPart(Opcodes.HELLO, [Octet(1), Int16(c.cfg.bindPort), Int16(1)] + StringFields(c.cfg.udpHost));
    FramedPart(Opcodes.HELLO, [Octet(2)] + StringFields(c.key));
    NothingSent();
    forall x: Byte { CountNone(x); }
    assert SentOk([], false, false);
    SentPlain([], false, false, a, Opcodes.HELLO);
    assert [] + a == a;
    SentPlain(a, false, false, b, Opcodes.HELLO);
  }

  // ---- One frame -------------------------------------------------------------------------------------

  /** The life after a frame: a rejected one closes the connection and leaves nothing else. */
  function AfterHandled(l: Life, h: Handled): Life {
    Life(if h.ok then h.conn else h.conn.(state := Closed), l.cmds + h.cmds, l.sent + h.out)
  }

  lemma {:induction false} ClosedFits(state: ConnState, p: Phase)
    requires PhaseFits(state, p)
    ensures PhaseFits(Closed, p)
  {
  }

  /** Staying put, or closing, without queueing or sending anything. */
  lemma {:induction false} QuietKeeps(l: Life, h: Handled)
    requires LifeOk(l) && h.conn == l.conn && h.cmds == [] && h.out == []
    ensures LifeOk(AfterHandled(l, h))
  {
    hide SentOk, PhaseOf, WellFormed;
    ClosedFits(l.conn.state, PhaseOf(l.cmds));
    SentNothing(l.sent, l.conn.udpLinked, LoggedIn(PhaseOf(l.cmds)));
    assert l.cmds + [] == l.cmds;
  }

  lemma {:induction false} BpsKeeps(l: Life, r: Cursor)
    requires LifeOk(l)
    ensures LifeOk(AfterHandled(l, BpsOf(l.conn, r)))
  {
    hide SentOk, PhaseOf, WellFormed, Framed;
    var rate := ReadI32(r).1;
    if rate.None? {
      QuietKeeps(l, BpsOf(l.conn, r));
    } else {
      FramedPart(Opcodes.BPS, [Int32(rate.value), Octet(1)]);
      SentPlain(l.sent, l.conn.udpLinked, LoggedIn(PhaseOf(l.cmds)), BpsReply(rate.value), Opcodes.BPS);
      assert l.cmds + [] == l.cmds;
    }
  }

  lemma {:induction false} RequestCommandOk(id: nat, r: Request)
    ensures var cmd := RequestCommand(id, r);
            cmd.Some? ==> WellFormed(cmd.value, id) && cmd.value.kind.Reincarnate?
  {
  }

  lemma {:induction false} AppendOk(cmds: seq<ClientCommand>, c: ClientCommand, id: nat)
    requires AllWellFormed(cmds, id) && WellFormed(c, id)
    ensures AllWellFormed(cmds + [c], id)
  {
  }

  lemma {:induction false} ReincarnateKeeps(l: Life, body: seq<Byte>)
    requires LifeOk(l) && l.conn.state == InGame
    ensures LifeOk(AfterHandled(l, TcpReincarnateOf(l.conn, body)))
  {
    hide SentOk, PhaseOf, WellFormed, ReadRequest, RequestCommand;
    var h := TcpReincarnateOf(l.conn, body);
    if h.ok {
      var cmd := h.cmds[0];
      RequestCommandOk(l.conn.sessionId, ReadRequest(body).value);
      AppendOk(l.cmds, cmd, l.conn.sessionId);
      PhaseSnoc(l.cmds, cmd);
      SentNothing(l.sent, l.conn.udpLinked, true);
    } else {
      QuietKeeps(l, h);
    }
  }

  lemma {:induction false} WantKeeps(l: Life)
    requires LifeOk(l) && l.conn.state == Verified
    ensures var cmd := Plain(WantUpdates, l.conn.sessionId, []);
            LifeOk(AfterHandled(l, Handled(true, l.conn.(state := InGame), [cmd], [])))
  {
    hide SentOk, PhaseOf, Printable;
    var cmd := Plain(WantUpdates, l.conn.sessionId, []);
    AppendOk(l.cmds, cmd, l.conn.sessionId);
    PhaseSnoc(l.cmds, cmd);
    SentNothing(l.sent, l.conn.udpLinked, true);
  }

  /** Completing the login after LoginUser has been queued. */
  lemma {:induction false} LoginDoneKeeps(c: Conn, cmds: seq<ClientCommand>, sent: seq<Byte>, pass: Text)
    requires PhaseOf(cmds) == Named && AllWellFormed(cmds, c.sessionId) && SentOk(sent, c.udpLinked, false)
    requires c.udpLinked && GoodName(c.username) && GoodName(pass)
    ensures var h := LoginDone(c, pass);
            h.ok && LifeOk(Life(h.conn, cmds + h.cmds, sent + h.out))
  {
    hide SentOk, PhaseOf, Printable, Bringup;
    var p := Plain(LoginPassword, c.sessionId, pass);
    var j := Plain(ClientConnected, c.sessionId, c.username);
    AppendOk(cmds, p, c.sessionId);
    PhaseSnoc(cmds, p);
    AppendOk(cmds + [p], j, c.sessionId);
    PhaseSnoc(cmds + [p], j);
    assert cmds + [p, j] == cmds + [p] + [j];
    SentBringup(sent, c.udpLinked, c.(state := Verified));
  }

  lemma {:induction false} UsernameKeeps(l: Life, r: Cursor)
    requires LifeOk(l) && l.conn.state == AwaitingUsername
    ensures LifeOk(AfterHandled(l, UsernameOf(l.conn, r)))
  {
    hide SentOk, PhaseOf, Printable, LoginDone, ReadLogin, Framed;
    var login := ReadLogin(r);
    if login.None? {
      QuietKeeps(l, UsernameOf(l.conn, r));
    } else {
      LoginReadable(r);
      var c := l.conn.(username := login.value.primary);
      var user := Plain(LoginUser, c.sessionId, login.value.primary);
      AppendOk(l.cmds, user, c.sessionId);
      PhaseSnoc(l.cmds, user);
      if login.value.secondary.Some? {
        LoginDoneKeeps(c, l.cmds + [user], l.sent, login.value.secondary.value);
        ConcatAssoc(l.cmds, [user], LoginDone(c, login.value.secondary.value).cmds);
      } else {
        FramedPart(Opcodes.LOGIN_STATUS, [Octet(1), Octet(ASK_PASSWORD)]);
        SentPlain(l.sent, c.udpLinked, false, LoginStatus(true, ASK_PASSWORD), Opcodes.LOGIN_STATUS);
      }
    }
  }

  lemma {:induction false} PasswordKeeps(l: Life, r: Cursor)
    requires LifeOk(l) && l.conn.state == AwaitingPassword
    ensures LifeOk(AfterHandled(l, PasswordOf(l.conn, r)))
  {
    hide SentOk, PhaseOf, Printable, LoginDone, ReadLogin;
    var login := ReadLogin(r);
    if login.None? {
      QuietKeeps(l, PasswordOf(l.conn, r));
    } else {
      LoginReadable(r);
      LoginDoneKeeps(l.conn, l.cmds, l.sent, login.value.secondary.GetOr(login.value.primary));
    }
  }

  lemma {:induction false} FrameKeeps(l: Life, f: Frame)
    requires LifeOk(l)
    ensures LifeOk(AfterHandled(l, FrameOf(l.conn, f)))
  {
    hide LifeOk, UsernameOf, PasswordOf, BpsOf, TcpReincarnateOf, AwaitingKeyEchoOk, PostLinkHelloOk,
      Opcodes.IsKnownOpcode;
    var h := FrameOf(l.conn, f);
    if h == Ignored(h.ok, l.conn) {
      QuietKeeps(l, h);
    } else {
      match l.conn.state
      case AwaitingUsername => UsernameKeeps(l, Start(f.body));
      case AwaitingPassword => PasswordKeeps(l, Start(f.body));
      case Verified =>
        if f.opcode == Opcodes.BPS { BpsKeeps(l, Start(f.body)); } else { WantKeeps(l); }
      case InGame =>
        if f.opcode == Opcodes.BPS { BpsKeeps(l, Start(f.body)); } else { ReincarnateKeeps(l, f.body); }
      case AwaitingKeyEcho =>
      case Closed =>
    }
  }

  // ---- One step ------------------------------------------------------------------------------------------

  lemma {:induction false} TcpFieldFree(l: Life, a: Acc)
    requires LifeOk(l)
    ensures LifeOk(l.(conn := l.conn.(tcp := a)))
  {
    hide SentOk, PhaseOf, WellFormed;
  }

  lemma {:induction false} ShutKeeps(l: Life)
    requires LifeOk(l)
    ensures LifeOk(l.(conn := l.conn.(state := Closed)))
  {
    hide SentOk, PhaseOf, WellFormed;
    ClosedFits(l.conn.state, PhaseOf(l.cmds));
  }

  lemma {:induction false} DrainKeeps(l: Life, s: Step, n: nat)
    requires LifeOk(Extend(l, s)) && !s.close
    ensures LifeOk(Extend(l, Drain(s, n)))
    decreases n
  {
    hide LifeOk, FrameOf, NextStep;
    if n > 0 {
      var (a, f) := NextStep(s.conn.tcp);
      var popped := s.(conn := s.conn.(tcp := a));
      TcpFieldFree(Extend(l, s), a);
      assert Extend(l, popped) == Extend(l, s).(conn := popped.conn);
      if a.failed {
        ShutKeeps(Extend(l, popped));
      } else if f.Some? {
        var h := FrameOf(popped.conn, f.value);
        FrameKeeps(Extend(l, popped), f.value);
        var s' := AfterFrame(popped, h);
        ConcatAssoc(l.cmds, popped.cmds, h.cmds);
        ConcatAssoc(l.sent, popped.tcpOut, h.out);
        assert Extend(l, s') == AfterHandled(Extend(l, popped), h);
        if !s'.close {
          DrainKeeps(l, s', n - 1);
        }
      }
    }
  }

  lemma {:induction false} ExtendStill(l: Life, c: Conn)
    ensures Extend(l, Still(c)) == l.(conn := c)
  {
    assert l.cmds + [] == l.cmds && l.sent + [] == l.sent;
  }

  lemma {:induction false} TcpKeeps(l: Life, data: seq<Byte>)
    requires LifeOk(l)
    ensures LifeOk(Extend(l, TcpStep(l.conn, data)))
  {
    hide LifeOk, Drain, FeedStep, Extend;
    ExtendStill(l, l.conn);
    var a := FeedStep(l.conn.tcp, data);
    var fed := Still(l.conn.(tcp := a));
    ExtendStill(l, fed.conn);
    TcpFieldFree(l, a);
    ExtendSame(l, Still(l.conn), Still(l.conn).(close := true));
    if !l.conn.state.Closed? {
      if a.failed || |a.buffer| > MAX_BUFFERED_BYTES {
        ExtendStill(l, fed.conn.(state := Closed));
        ShutKeeps(l.(conn := fed.conn));
        ExtendSame(l, Still(fed.conn.(state := Closed)), Shut(fed));
      } else {
        DrainKeeps(l, fed, MAX_FRAMES_PER_DRAIN);
      }
    }
  }

  lemma {:induction false} ExtendSame(l: Life, s: Step, t: Step)
    requires s.conn == t.conn && s.cmds == t.cmds && s.tcpOut == t.tcpOut
    ensures Extend(l, s) == Extend(l, t)
  {
  }

  lemma {:induction false} LinkKeeps(l: Life)
    requires LifeOk(l) && l.conn.state != Closed
    ensures LifeOk(Extend(l, LinkOf(l.conn)))
  {
    hide SentOk, PhaseOf, WellFormed, IdentifiedUdp;
    if l.conn.udpLinked {
      ExtendStill(l, l.conn);
    } else {
      SentLink(l.sent, LoggedIn(PhaseOf(l.cmds)));
      assert l.cmds + [] == l.cmds;
    }
  }

  lemma {:induction false} UdpReincarnateKeeps(l: Life, body: seq<Byte>)
    requires LifeOk(l) && l.conn.state == InGame
    ensures LifeOk(Extend(l, UdpReincarnateOf(l.conn, body)))
  {
    hide SentOk, PhaseOf, WellFormed, ReadRequest, RequestCommand, UdpAck, UdpUpdateStats;
    var s := UdpReincarnateOf(l.conn, body);
    SentNothing(l.sent, l.conn.udpLinked, LoggedIn(PhaseOf(l.cmds)));
    if s.cmds != [] {
      RequestCommandOk(l.conn.sessionId, ReadRequest(body).value);
      AppendOk(l.cmds, s.cmds[0], l.conn.sessionId);
      PhaseSnoc(l.cmds, s.cmds[0]);
      assert s.cmds == [s.cmds[0]];
    } else {
      assert l.cmds + [] == l.cmds;
    }
  }

  lemma {:induction false} ActionsKeep(l: Life, opcode: Byte, body: seq<Byte>)
    requires LifeOk(l) && l.conn.state == InGame
    ensures LifeOk(Extend(l, UdpActionsOf(l.conn, opcode, body)))
  {
    hide SentOk, PhaseOf, WellFormed, DecodedOf;
    SentNothing(l.sent, l.conn.udpLinked, LoggedIn(PhaseOf(l.cmds)));
    ActionCommandsFacts(l.conn.sessionId, DecodedOf(opcode, body).changes, l.cmds);
    assert l.cmds + [] == l.cmds;
  }

  lemma {:induction false} UdpKeeps(l: Life, opcode: Byte, body: seq<Byte>)
    requires LifeOk(l)
    ensures LifeOk(Extend(l, UdpStep(l.conn, opcode, body)))
  {
    hide LifeOk, Extend, LinkOf, UdpReincarnateOf, UdpActionsOf, ReadKeyEcho, HandshakeDatagrams, UdpPong;
    var c := l.conn;
    var s := UdpStep(c, opcode, body);
    ExtendStill(l, c);
    if s.conn == c && s.cmds == [] && s.tcpOut == [] {
      ExtendSame(l, Still(c), s);
    } else if IsGameOpcode(opcode) {
      if opcode == Opcodes.REINCARNATE { UdpReincarnateKeeps(l, body); } else { ActionsKeep(l, opcode, body); }
    } else {
      LinkKeeps(l);
    }
  }

  lemma {:induction false} AssignKeeps(l: Life, pid: int)
    requires LifeOk(l)
    ensures LifeOk(Extend(l, StepOf(l.conn, Assign(pid))))
  {
    hide SentOk, PhaseOf, WellFormed;
    ExtendStill(l, l.conn.(playerId := pid));
  }

  /**
   Every run of a connection, whatever bytes arrive in whatever pieces: its
   commands follow the login grammar and are well formed, its TCP output is whole
   frames with at most one IDENTIFIED_UDP and one bring-up, and the state past the
   key echo implies the UDP link.
   */
  lemma {:induction false} EveryLife(id: nat, cfg: Config, key: Text, xs: seq<Input>)
    ensures LifeOk(LifeOf(Accepted(id, cfg, key), xs))
  {
    hide LifeOk, TcpStep, UdpStep;
    if xs == [] {
      FirstLife(id, cfg, key);
    } else {
      EveryLife(id, cfg, key, xs[..|xs| - 1]);
      var l := LifeOf(Accepted(id, cfg, key), xs[..|xs| - 1]);
      match xs[|xs| - 1]
      case Tcp(data) => TcpKeeps(l, data);
      case Udp(opcode, body) => UdpKeeps(l, opcode, body);
      case Assign(pid) => AssignKeeps(l, pid);
    }
  }

  lemma {:induction false} FirstLife(id: nat, cfg: Config, key: Text)
    ensures LifeOk(Accepted(id, cfg, key))
  {
    hide SentOk;
    AcceptSent(NewConn(id, cfg, key));
  }
}
