/**
 The fixed-layout packets the server sends, each as the list of fields its
 builder appends, and what a client makes of the two that tell it about a player.
 */
module Packets {
  import opened Bits
  import opened Cursors
  import opened BitStream
  import opened Framing
  import Opcodes

  const PROTOCOL_VERSION: I32 := 0x4E89
  const MAX_PLAYER_ID := 0x7fff_ffff

  /** A framed packet is one frame, or nothing when its body is too long. */
  lemma {:induction false} FramedParse(opcode: Byte, fs: seq<Field>)
    ensures IsFrames(Framed(opcode, fs))
    ensures Parse(Framed(opcode, fs)).frames
            == if |Payload(fs)| + 3 <= MAX_TCP_FRAME_LEN then [Frame(opcode, Payload(fs))] else []
  {
    var f := Frame(opcode, Payload(fs));
    if Sendable(f) {
      OneFrame(f);
    }
  }

  /** The player id a session gets: its own id, capped at the largest 32-bit one. */
  function SessionPlayerId(sessionId: nat): (pid: I32)
    ensures pid >= 0
  {
    if sessionId <= MAX_PLAYER_ID then sessionId else MAX_PLAYER_ID
  }

  // ---- Handshake and bring-up -------------------------------------------------------

  function HelloUdpConfig(port: int, host: Text): seq<Byte> {
    Framed(Opcodes.HELLO, [Octet(1), Int16(port), Int16(1)] + StringFields(host))
  }

  function HelloSessionKey(key: Text): seq<Byte> {
    Framed(Opcodes.HELLO, [Octet(2)] + StringFields(key))
  }

  function HelloVerified(): seq<Byte> {
    Framed(Opcodes.HELLO, [Octet(3)])
  }

  function IdentifiedUdp(): seq<Byte> {
    Framed(Opcodes.IDENTIFIED_UDP, [])
  }

  function LoginStatus(isDonor: bool, code: Byte): seq<Byte> {
    Framed(Opcodes.LOGIN_STATUS, [Octet(if isDonor then 1 else 0), Octet(code)])
  }

  function BpsReply(rate: int): seq<Byte> {
    Framed(Opcodes.BPS, [Int32(rate), Octet(1)])
  }

  function Player(playerId: int, isGuest: bool): seq<Byte> {
    Framed(Opcodes.PLAYER, [Int32(playerId), Octet(if isGuest then 1 else 0)])
  }

  function GameClock(ticks: int): seq<Byte> {
    Framed(Opcodes.GAME_CLOCK, [Int32(ticks), Octet(1), Int32(1), Int32(30000)])
  }

  function Motd(message: Text): seq<Byte> {
    Framed(Opcodes.MOTD, StringFields(message))
  }

  function WorldStatsFields(mapName: Text): seq<Field> {
    StringFields(mapName) + [Octet(1), Octet(1), Fixed1616(1.0)]
  }

  function WorldStats(mapName: Text): seq<Byte> {
    Framed(Opcodes.WORLD_STATS, WorldStatsFields(mapName))
  }

  lemma {:induction false} WorldStatsLength(mapName: Text)
    ensures |Payload(WorldStatsFields(mapName))| == |mapName| + 9
  {
    hide Encode;
    var tail := [Octet(1), Octet(1), Fixed1616(1.0)];
    StringFieldsWidth(mapName);
    ShortWidths(tail[0], tail[1], tail[2], tail[2]);
    TotalWidthConcat(StringFields(mapName), tail);
    PayloadLength(StringFields(mapName) + tail);
  }

  // ---- Raw datagrams ------------------------------------------------------------------

  function UdpHandshakeAck(ticks: int): seq<Byte> {
    Payload([Octet(Opcodes.ACK), Octet(0), Int32(ticks)])
  }

  const STREAM_NAMES: seq<string> := ["Unreliable", "Reliable", "Stream 2", "Game Data"]

  function StreamNameFields(i: nat): seq<Field>
    decreases |STREAM_NAMES| - i
  {
    if i >= |STREAM_NAMES| then []
    else StringFields(Ascii(STREAM_NAMES[i])) + [Int32(1), Int32(i)] + StreamNameFields(i + 1)
  }

  function StreamConfigFields(i: nat): seq<Field>
    decreases |STREAM_NAMES| - i
  {
    if i >= |STREAM_NAMES| then [] else [Int32(i), Int32(1)] + StreamConfigFields(i + 1)
  }

  function UdpStreamDefs(ticks: int, playerId: int): seq<Byte> {
    Payload([Octet(Opcodes.D_HANDSHAKE), Int32(ticks), Int32(playerId), Int32(4)]
            + StreamNameFields(0) + [Int32(4)] + StreamConfigFields(0))
  }

  function UdpStreamUnpause(streamId: Byte): seq<Byte> {
    Payload([Octet(Opcodes.STREAM_CONTROL), Octet(streamId), Int16(1)])
  }

  function UdpPong(timestamp: int): seq<Byte> {
    Payload([Octet(Opcodes.UDP_PING), Int32(timestamp)])
  }

  function UdpAck(sequence: int, opcode: Byte, ackedSequence: int): seq<Byte> {
    Payload([Octet(Opcodes.ACK), Int16(sequence), Int16(9), Octet(1), Octet(opcode), Int16(ackedSequence)])
  }

  // ---- Team records ---------------------------------------------------------------------

  function AccountFields(accountId: int, team: int): seq<Field> {
    [Int32(accountId), Int32(0), Int16(team), Int16(2)]
  }

  function ScoreFields(): seq<Field> {
    [Int16(0), Int16(0), Fixed1616(0.0), Int32(0)]
  }

  function AddToRosterFields(accountId: int, team: int, name: Text, nametag: Text): seq<Field> {
    AccountFields(accountId, team) + StringFields(name) + StringFields(nametag) + ScoreFields()
  }

  function AddToRoster(accountId: int, team: int, name: Text): seq<Byte> {
    Framed(Opcodes.ADD_TO_ROSTER, AddToRosterFields(accountId, team, name, []))
  }

  method WriteAccount(w: BitWriter, accountId: int, team: int)
    requires w.Valid()
    modifies w
    ensures w.Valid() && w.fields == old(w.fields) + AccountFields(accountId, team)
  {
    hide Int16, Int32;
    w.WriteI32(accountId);
    w.WriteI32(0);
    w.WriteU16(team % 0x1_0000);
    w.WriteU16(2);
    SameLowBits(team);
  }

  method WriteScore(w: BitWriter)
    requires w.Valid()
    modifies w
    ensures w.Valid() && w.fields == old(w.fields) + ScoreFields()
  {
    w.WriteU16(0);
    w.WriteU16(0);
    w.WriteFixed1616(0.0);
    w.WriteI32(0);
  }

  method BuildAddToRoster(accountId: int, team: int, name: Text, nametag: Text) returns (out: seq<Byte>)
    ensures out == Framed(Opcodes.ADD_TO_ROSTER, AddToRosterFields(accountId, team, name, nametag))
  {
    var w := new BitWriter();
    WriteAccount(w, accountId, team);
    assert w.fields == AccountFields(accountId, team);
    w.WriteString(name);
    w.WriteString(nametag);
    WriteScore(w);
    var body := w.Bytes();
    out := EncodeTcpFrame(Opcodes.ADD_TO_ROSTER, body).GetOr([]);
  }

  function StatsHead(playerId: int, team: int): seq<Field> {
    [Int32(playerId), Int32(6), Int16(team), Int16(33)]
  }

  function StatsTail(): seq<Field> {
    [Int16(3), Int16(5), Int16(9), Fixed1616(1.0)] + [Fixed1616(1.0), Int32(10)]
  }

  function UpdateStatsFields(playerId: int, team: int): seq<Field> {
    StatsHead(playerId, team) + StatsTail()
  }

  function UdpUpdateStats(playerId: int, team: int): seq<Byte> {
    Payload([Octet(Opcodes.UPDATE_STATS)] + UpdateStatsFields(playerId, team))
  }

  lemma {:induction false} SameLowBits(v: int)
    ensures Int16(v % 0x1_0000) == Int16(v)
  {
  }

  method WriteStatsHead(w: BitWriter, playerId: int, team: int)
    requires w.Valid()
    modifies w
    ensures w.Valid() && w.fields == old(w.fields) + StatsHead(playerId, team)
  {
    hide Int16, Int32;
    w.WriteI32(playerId);
    w.WriteI32(6);
    w.WriteU16(team % 0x1_0000);
    w.WriteU16(33);
    SameLowBits(team);
  }

  method WriteStatsTail(w: BitWriter)
    requires w.Valid()
    modifies w
    ensures w.Valid() && w.fields == old(w.fields) + StatsTail()
  {
    hide Int16, Int32, Fixed1616;
    w.WriteU16(3);
    w.WriteU16(5);
    w.WriteU16(9);
    w.WriteFixed1616(1.0);
    w.WriteFixed1616(1.0);
    w.WriteI32(10);
  }

  method BuildUdpUpdateStats(playerId: int, team: int) returns (out: seq<Byte>)
    ensures out == UdpUpdateStats(playerId, team)
  {
    hide StatsHead, StatsTail, Payload, Octet;
    var w := new BitWriter();
    w.WriteByte(Opcodes.UPDATE_STATS);
    assert w.fields == [Octet(Opcodes.UPDATE_STATS)];
    WriteStatsHead(w, playerId, team);
    WriteStatsTail(w);
    ConcatAssoc([Octet(Opcodes.UPDATE_STATS)], StatsHead(playerId, team), StatsTail());
    out := w.Bytes();
  }

  /** The raw datagram's opcode and body, rewrapped as a TCP frame. */
  function UpdateStatsFramed(playerId: int, team: int): seq<Byte> {
    var raw := UdpUpdateStats(playerId, team);
    if raw == [] then [] else FrameBytes(Frame(raw[0], raw[1..]))
  }

  method BuildUpdateStatsFramed(playerId: int, team: int) returns (out: seq<Byte>)
    ensures out == UpdateStatsFramed(playerId, team)
  {
    var raw := BuildUdpUpdateStats(playerId, team);
    if raw == [] {
      return [];
    }
    out := EncodeTcpFrame(raw[0], raw[1..]).GetOr([]);
  }

  /** A leading octet is the first byte, and the rest is packed as if it stood alone. */
  lemma {:induction false} LeadingOctet(b: Byte, fs: seq<Field>)
    ensures Payload([Octet(b)] + fs) == [b] + Payload(fs)
  {
    hide BitsOf, Pack, PackOne;
    var all := [Octet(b)] + fs;
    assert all[1..] == fs;
    PackCons(BitsOf(b, 8), Encode(fs));
    PackOneBits(b);
  }

  lemma {:induction false} UpdateStatsWidth(playerId: int, team: int)
    ensures TotalWidth(UpdateStatsFields(playerId, team)) == 240
  {
    var a, b := StatsHead(playerId, team), StatsTail();
    var b1, b2 := b[..4], b[4..];
    ShortWidths(a[0], a[1], a[2], a[3]);
    ShortWidths(b[0], b[1], b[2], b[3]);
    ShortWidths(b[4], b[5], b[5], b[5]);
    assert b1 == [b[0], b[1], b[2], b[3]] && b2 == [b[4], b[5]] && b == b1 + b2;
    TotalWidthConcat(b1, b2);
    TotalWidthConcat(a, b);
  }

  /** Both spellings of the team record carry the same body, and it always fits. */
  lemma {:induction false} UpdateStatsIsFrame(playerId: int, team: int)
    ensures var f := Frame(Opcodes.UPDATE_STATS, Payload(UpdateStatsFields(playerId, team)));
            Sendable(f) && UpdateStatsFramed(playerId, team) == FrameBytes(f)
  {
    var fs := UpdateStatsFields(playerId, team);
    LeadingOctet(Opcodes.UPDATE_STATS, fs);
    UpdateStatsWidth(playerId, team);
    PayloadLength(fs);
  }

  lemma {:induction false} AddToRosterWidth(accountId: int, team: int, name: Text)
    ensures TotalWidth(AddToRosterFields(accountId, team, name, [])) == 240 + 8 * |name|
  {
    var head, tail := AccountFields(accountId, team), ScoreFields();
    ShortWidths(head[0], head[1], head[2], head[3]);
    ShortWidths(tail[0], tail[1], tail[2], tail[3]);
    StringFieldsWidth(name);
    StringFieldsWidth([]);
    TotalWidthConcat(head, StringFields(name));
    TotalWidthConcat(head + StringFields(name), StringFields([]));
    TotalWidthConcat(head + StringFields(name) + StringFields([]), tail);
  }

  /** Longest name with which a roster record still fits a frame. */
  const MAX_ROSTER_NAME := 65502

  lemma {:induction false} AddToRosterIsFrame(accountId: int, team: int, name: Text)
    ensures var f := Frame(Opcodes.ADD_TO_ROSTER, Payload(AddToRosterFields(accountId, team, name, [])));
            && (Sendable(f) <==> |name| <= MAX_ROSTER_NAME)
            && AddToRoster(accountId, team, name) == if |name| <= MAX_ROSTER_NAME then FrameBytes(f) else []
  {
    AddToRosterWidth(accountId, team, name);
    PayloadLength(AddToRosterFields(accountId, team, name, []));
  }

  // ---- What a client learns about players ---------------------------------------------------

  /** What a frame says about a player: who it is, or only its new team. */
  datatype PlayerRecord =
    | Introduced(playerId: I32, team: U16, name: Text, nametag: Text)
    | Changed(playerId: I32, team: U16)

  const RECORD_TEXT_CAP := 0xFFFF

  /** The record a frame carries, if it is a roster or a stats record. */
  function ReadPlayer(f: Frame): Option<PlayerRecord> {
    if f.opcode != Opcodes.ADD_TO_ROSTER && f.opcode != Opcodes.UPDATE_STATS then None
    else
      var (c1, id) := ReadI32(Start(f.body));
      var c2 := ReadI32(c1).0;
      var (c3, team) := ReadU16(c2);
      if c3.failed then None
      else if f.opcode == Opcodes.UPDATE_STATS then Some(Changed(id.GetOr(0), team.GetOr(0)))
      else
        var (c4, name) := ReadString(ReadU16(c3).0, RECORD_TEXT_CAP);
        var nametag := ReadString(c4, RECORD_TEXT_CAP).1;
        if name.None? || nametag.None? then None
        else Some(Introduced(id.GetOr(0), team.GetOr(0), name.value, nametag.value))
  }

  lemma {:induction false} TeamFieldsAt(c: Cursor, fs: seq<Field>, playerId: I32, second: int, team: U16,
                                        tail: seq<bool>)
    requires |fs| >= 3 && fs[0] == Int32(playerId) && fs[1] == Int32(second) && fs[2] == Int16(team)
    requires At(c, fs, 0, tail)
    ensures var c2 := ReadI32(ReadI32(c).0).0;
            && ReadI32(c).1 == Some(playerId) && ReadU16(c2).1 == Some(team)
            && !ReadU16(c2).0.failed && At(ReadU16(c2).0, fs, 3, tail)
  {
    hide ReadI32, ReadU16, Read, From;
    ReadI32At(c, fs, 0, tail, playerId);
    var c1 := ReadI32(c).0;
    ReadI32At(c1, fs, 1, tail, second);
    ReadU16At(ReadI32(c1).0, fs, 2, tail);
  }

  /** The client reads back player and team from a stats record. */
  lemma {:induction false} StatsRead(playerId: I32, team: U16)
    ensures ReadPlayer(Frame(Opcodes.UPDATE_STATS, Payload(UpdateStatsFields(playerId, team))))
            == Some(Changed(playerId, team))
  {
    hide ReadI32, ReadU16, ReadString, Payload;
    var fs := UpdateStatsFields(playerId, team);
    AtStart(fs);
    TeamFieldsAt(Start(Payload(fs)), fs, playerId, 6, team, Zeros(Padding(TotalWidth(fs))));
  }

  lemma {:induction false} TextStands(before: seq<Field>, t: Text, after: seq<Field>)
    ensures StringAt(t, before + StringFields(t) + after, |before|)
  {
    hide AsciiOnly, Int16;
    var fs, chars := before + StringFields(t) + after, StringFields(t);
    forall j | 0 <= j < |chars| ensures fs[|before| + j] == chars[j] {
    }
    forall j | 0 <= j < |t| ensures fs[|before| + 1 + j] == Field(AsciiOnly(t[j]), 8) {
      assert fs[|before| + (1 + j)] == chars[1 + j];
    }
  }

  /** Where the two texts of a roster record stand. */
  lemma {:induction false} RosterTexts(playerId: int, team: int, name: Text)
    ensures var fs := AddToRosterFields(playerId, team, name, []);
            && |fs| == |name| + 12 && StringAt(name, fs, 4) && StringAt([], fs, |name| + 6)
            && fs[0] == Int32(playerId) && fs[1] == Int32(0) && fs[2] == Int16(team) && fs[3] == Int16(2)
  {
    hide StringAt, Int16, Int32, Fixed1616, StringFields;
    var head, texts := AccountFields(playerId, team), StringFields(name);
    ConcatAssoc(head + texts, StringFields([]), ScoreFields());
    TextStands(head, name, StringFields([]) + ScoreFields());
    TextStands(head + texts, [], ScoreFields());
  }

  /** The client reads back player, team, the name as sent and an empty nametag from a roster record. */
  lemma {:induction false} RosterRead(playerId: I32, team: U16, name: Text)
    requires |name| <= MAX_ROSTER_NAME
    ensures ReadPlayer(Frame(Opcodes.ADD_TO_ROSTER, Payload(AddToRosterFields(playerId, team, name, []))))
            == Some(Introduced(playerId, team, Sanitized(name), []))
  {
    hide ReadI32, ReadU16, ReadString, Payload, AddToRosterFields, StringAt, From, Sanitized, Read, Int16, Int32;
    var fs := AddToRosterFields(playerId, team, name, []);
    var tail := Zeros(Padding(TotalWidth(fs)));
    var c := Start(Payload(fs));
    AtStart(fs);
    RosterTexts(playerId, team, name);
    TeamFieldsAt(c, fs, playerId, 0, team, tail);
    var c3 := ReadU16(ReadI32(ReadI32(c).0).0).0;
    SecondU16(c3, fs, tail);
    var c4 := ReadU16(c3).0;
    ReadStringAt(c4, name, fs, 4, tail, RECORD_TEXT_CAP);
    ReadStringAt(ReadString(c4, RECORD_TEXT_CAP).0, [], fs, |name| + 6, tail, RECORD_TEXT_CAP);
    NothingSanitized();
  }

  lemma {:induction false} SecondU16(c: Cursor, fs: seq<Field>, tail: seq<bool>)
    requires |fs| >= 4 && fs[3] == Int16(2) && At(c, fs, 3, tail)
    ensures At(ReadU16(c).0, fs, 4, tail)
  {
    hide ReadU16, Read, From;
    ReadU16At(c, fs, 3, tail);
  }

  lemma {:induction false} NothingSanitized()
    ensures Sanitized([]) == []
  {
  }

  // ---- Spawning ---------------------------------------------------------------------------

  function ReincarnateResult(code: Byte, message: Text): seq<Byte> {
    Framed(Opcodes.REINCARNATE, [Octet(code)] + StringFields(message))
  }

  function BirthNotice(playerId: int): seq<Byte> {
    Framed(Opcodes.BIRTH_NOTICE, [Int32(playerId), Int32(1)])
  }

  function TankSpawnFields(sequence: int, netId: int, unitType: int, team: int, pos: seq<real>,
                           rot: seq<real>): seq<Field>
    requires |pos| == |rot| == 3
  {
    [Int32(sequence), Flag(true), Field(0, 5), Field(1, 10), Field(1, 10), Int32(unitType), Int32(netId), Octet(team),
     Fixed1616(pos[0]), Fixed1616(pos[1]), Fixed1616(pos[2]),
     Fixed1616(rot[0]), Fixed1616(rot[1]), Fixed1616(rot[2])]
  }

  function TankSpawn(sequence: int, netId: int, unitType: int, team: int, pos: seq<real>, rot: seq<real>): seq<Byte>
    requires |pos| == |rot| == 3
  {
    Framed(Opcodes.TANK_SPAWN, TankSpawnFields(sequence, netId, unitType, team, pos, rot))
  }
}
