/**
 Every packet the server builds, byte for byte as it is on the wire: length,
 opcode and body spelled out, independently of the field lists they are built from.
 Numbers stand high byte first; a text is counted with its zero byte; a packet whose
 body does not fit a frame is no bytes at all.
 */
module PacketBytes {
  import opened Bits
  import opened Cursors
  import opened BitStream
  import opened Framing
  import opened Packets
  import Opcodes

  // ---- Spelling fields ---------------------------------------------------------------------------

  /** The low 16 bits, high byte first. */
  function Be16(v: int): (b: seq<Byte>)
    ensures |b| == 2
  {
    [v / 0x100 % 0x100, v % 0x100]
  }

  /** The low 32 bits, high byte first. */
  function Be32(v: int): (b: seq<Byte>)
    ensures |b| == 4
  {
    Be16(v / 0x1_0000) + Be16(v)
  }

  /** A counted text with its terminator. */
  function Counted(t: Text): (b: seq<Byte>)
    ensures |b| == |t| + 3
  {
    Be16(|t| + 1) + Sanitized(t) + [0]
  }

  /** A frame: its own length, its opcode and its body. */
  function Packet(opcode: Byte, body: seq<Byte>): seq<Byte> {
    Be16(|body| + 3) + [opcode] + body
  }

  /** A frame, or nothing when the body is too long for one. */
  function Fitted(opcode: Byte, body: seq<Byte>): seq<Byte> {
    if |body| <= 65532 then Packet(opcode, body) else []
  }

  /** Whole bytes only. */
  predicate Aligned(f: Field) {
    (f.width == 8 || f.width == 16 || f.width == 32) && f.value < Pow2(f.width)
  }

  function SpellOne(f: Field): seq<Byte> {
    if f.width == 8 then [f.value % 0x100] else if f.width == 16 then Be16(f.value) else Be32(f.value)
  }

  function Spell(fs: seq<Field>): seq<Byte> {
    if fs == [] then [] else SpellOne(fs[0]) + Spell(fs[1..])
  }

  ghost predicate AllAligned(fs: seq<Field>) {
    forall i :: 0 <= i < |fs| ==> Aligned(fs[i])
  }

  lemma {:induction false} SpellConcat(a: seq<Field>, b: seq<Field>)
    ensures Spell(a + b) == Spell(a) + Spell(b)
  {
    if a == [] {
      assert a + b == b;
    } else {
      assert (a + b)[1..] == a[1..] + b;
      SpellConcat(a[1..], b);
      ConcatAssoc(SpellOne(a[0]), Spell(a[1..]), Spell(b));
    }
  }

  /** Two bytes, high byte first, are a number's sixteen bits. */
  lemma {:induction false} TwoBytes(x: Byte, y: Byte)
    ensures BitsOf(0x100 * x + y, 16) == BitsOf(x, 8) + BitsOf(y, 8)
  {
    Pow2Values();
    BitsOfJoined(x, y, 8, 8);
  }

  lemma {:induction false} FourBytes(x: U16, y: U16)
    ensures BitsOf(0x1_0000 * x + y, 32) == BitsOf(x, 16) + BitsOf(y, 16)
  {
    Pow2Values();
    BitsOfJoined(x, y, 16, 16);
  }

  lemma {:induction false} OneByteBits(x: Byte)
    ensures Unpack([x]) == BitsOf(x, 8)
  {
    assert [x][1..] == [];
    assert Unpack([x]) == BitsOf(x, 8) + Unpack([]);
  }

  lemma {:induction false} TwoBytesBits(v: U16)
    ensures Unpack(Be16(v)) == BitsOf(v, 16)
  {
    hide BitsOf, Unpack;
    assert Be16(v) == [v / 0x100] + [v % 0x100];
    UnpackConcat([v / 0x100], [v % 0x100]);
    OneByteBits(v / 0x100);
    OneByteBits(v % 0x100);
    TwoBytes(v / 0x100, v % 0x100);
  }

  lemma {:induction false} OneSpelled(f: Field)
    requires Aligned(f)
    ensures Unpack(SpellOne(f)) == BitsOf(f.value, f.width)
  {
    hide BitsOf, Unpack, Be16, Be32, Pow2;
    Pow2Values();
    if f.width == 8 {
      OneByteBits(f.value);
    } else if f.width == 16 {
      TwoBytesBits(f.value);
    } else {
      FourBytesBits(f.value);
    }
  }

  lemma {:induction false} FourBytesBits(v: U32)
    ensures Unpack(Be32(v)) == BitsOf(v, 32)
  {
    hide BitsOf, Unpack, Be16, Be32;
    var x, y := v / 0x1_0000, v % 0x1_0000;
    Low16(v);
    assert Be32(v) == Be16(x) + Be16(y) by { Be32Halves(v); }
    UnpackConcat(Be16(x), Be16(y));
    TwoBytesBits(x);
    TwoBytesBits(y);
    FourBytes(x, y);
  }

  lemma {:induction false} SpelledBits(fs: seq<Field>)
    requires AllAligned(fs)
    ensures Unpack(Spell(fs)) == Encode(fs)
  {
    hide Unpack, BitsOf, SpellOne, Aligned;
    if fs == [] {
      NoBits();
    } else {
      SpelledBits(fs[1..]);
      OneSpelled(fs[0]);
      UnpackConcat(SpellOne(fs[0]), Spell(fs[1..]));
    }
  }

  lemma {:induction false} NoBits()
    ensures Unpack([]) == []
  {
  }

  /** Whole-byte fields are their bytes, one after the other. */
  lemma {:induction false} SpellExact(fs: seq<Field>)
    requires AllAligned(fs)
    ensures Payload(fs) == Spell(fs)
  {
    hide Pack, Unpack, Encode, Aligned;
    SpelledBits(fs);
    PackUnpack(Spell(fs));
  }

  lemma {:induction false} AlignedKinds(v: int)
    ensures Aligned(Octet(v)) && Aligned(Int16(v)) && Aligned(Int32(v))
    ensures SpellOne(Octet(v)) == [v % 0x100] && SpellOne(Int16(v)) == Be16(v) && SpellOne(Int32(v)) == Be32(v)
  {
    hide Be16, Be32, Pow2;
    Pow2Values();
    Low16(v);
    Low32Bytes(v);
  }

  /** Cutting a number to its low bits leaves its low bytes. */
  lemma {:induction false} Low16(v: int)
    ensures Be16(v % 0x1_0000) == Be16(v)
  {
    var n, j := v % 0x1_0000, v / 0x1_0000;
    assert v == n + 0x1_0000 * j;
    Shifted(n, 0x100, 0x100 * j);
    Wrapped(n / 0x100, j);
    Wrapped(n, 0x100 * j);
  }

  lemma {:induction false} Low32Bytes(v: int)
    ensures Be32(v % 0x1_0000_0000) == Be32(v)
  {
    hide Be16;
    var m, k := v % 0x1_0000_0000, v / 0x1_0000_0000;
    assert v == m + 0x1_0000_0000 * k;
    Shifted(m, 0x1_0000, 0x1_0000 * k);
    Same16(m / 0x1_0000, k);
    Same16(m, 0x1_0000 * k);
  }

  lemma {:induction false} Same16(v: int, k: int)
    ensures Be16(v + 0x1_0000 * k) == Be16(v)
  {
    hide Be16;
    Low16(v);
    Low16(v + 0x1_0000 * k);
    assert (v + 0x1_0000 * k) % 0x1_0000 == v % 0x1_0000;
  }

  lemma {:induction false} Be32Halves(v: int)
    ensures Be32(v) == Be16(v / 0x1_0000) + Be16(v)
  {
  }

  lemma {:induction false} Shifted(m: int, d: int, k: int)
    requires d == 0x100 || d == 0x1_0000
    ensures (m + d * k) / d == m / d + k
  {
  }

  lemma {:induction false} Wrapped(m: int, k: int)
    ensures (m + 0x100 * k) % 0x100 == m % 0x100
  {
  }

  lemma {:induction false} SpellSingle(f: Field)
    ensures Spell([f]) == SpellOne(f)
  {
    assert [f][1..] == [];
    assert Spell([f]) == SpellOne(f) + Spell([]);
  }

  lemma {:induction false} SpellPair(f: Field, g: Field)
    ensures Spell([f, g]) == SpellOne(f) + SpellOne(g)
  {
    hide Spell, SpellOne;
    assert [f, g] == [f] + [g];
    SpellConcat([f], [g]);
    SpellSingle(f);
    SpellSingle(g);
  }

  lemma {:induction false} SpellThree(f: Field, g: Field, h: Field)
    ensures Spell([f, g, h]) == SpellOne(f) + SpellOne(g) + SpellOne(h)
  {
    hide Spell, SpellOne;
    assert [f, g, h] == [f, g] + [h];
    SpellConcat([f, g], [h]);
    SpellPair(f, g);
    SpellSingle(h);
  }

  lemma {:induction false} SpellFour(f: Field, g: Field, h: Field, k: Field)
    ensures Spell([f, g, h, k]) == SpellOne(f) + SpellOne(g) + SpellOne(h) + SpellOne(k)
  {
    hide Spell, SpellOne;
    assert [f, g, h, k] == [f, g, h] + [k];
    SpellConcat([f, g, h], [k]);
    SpellThree(f, g, h);
    SpellSingle(k);
  }

  lemma {:induction false} CharsSpelled(t: Text)
    ensures Spell(CharFields(t)) == Sanitized(t) && AllAligned(CharFields(t))
  {
    hide Be16, Be32, Pow2, Aligned;
    if t != [] {
      CharsSpelled(t[1..]);
      assert CharFields(t)[1..] == CharFields(t[1..]);
      assert Sanitized(t) == [AsciiOnly(t[0])] + Sanitized(t[1..]);
      AlignedKinds(AsciiOnly(t[0]));
      assert CharFields(t)[0] == Octet(AsciiOnly(t[0]));
      forall i | 0 <= i < |t| ensures Aligned(CharFields(t)[i]) {
        if i > 0 {
          assert CharFields(t)[i] == CharFields(t[1..])[i - 1];
        }
      }
    }
  }

  lemma {:induction false} TextSpelled(t: Text)
    ensures Spell(StringFields(t)) == Counted(t) && AllAligned(StringFields(t))
  {
    hide Spell, SpellOne, Be16, CharFields, Sanitized, Aligned;
    var head, chars, end := [Int16(|t| + 1)], CharFields(t), [Field(0, 8)];
    CharsSpelled(t);
    AlignedKinds(|t| + 1);
    AlignedKinds(0);
    assert Field(0, 8) == Octet(0);
    SpellConcat(head, chars);
    SpellConcat(head + chars, end);
    SpellSingle(head[0]);
    SpellSingle(end[0]);
    forall i | 0 <= i < |StringFields(t)| ensures Aligned(StringFields(t)[i]) {
      if 1 <= i <= |t| {
        assert StringFields(t)[i] == chars[i - 1];
      }
    }
  }

  lemma {:induction false} AlignedConcat(a: seq<Field>, b: seq<Field>)
    requires AllAligned(a) && AllAligned(b)
    ensures AllAligned(a + b)
  {
    hide Aligned;
  }

  /** A framed packet is its frame, if it fits. */
  lemma {:induction false} FramedBytes(opcode: Byte, fs: seq<Field>)
    requires AllAligned(fs)
    ensures Framed(opcode, fs) == Fitted(opcode, Spell(fs))
  {
    hide Payload, Spell, Aligned;
    SpellExact(fs);
  }

  // ---- On accepting and linking ----------------------------------------------------------------------

  /** Where the client finds the server's UDP side: its port and its host. */
  lemma {:induction false} UdpConfigBytes(port: U16, host: Text)
    ensures HelloUdpConfig(port, host) == Fitted(0x13, [1] + Be16(port) + [0, 1] + Counted(host))
  {
    hide Spell, SpellOne, Be16, Aligned, StringFields, Framed;
    var head := [Octet(1), Int16(port), Int16(1)];
    AlignedKinds(1);
    AlignedKinds(port);
    SpellThree(head[0], head[1], head[2]);
    TextSpelled(host);
    SpellConcat(head, StringFields(host));
    AlignedConcat(head, StringFields(host));
    FramedBytes(Opcodes.HELLO, head + StringFields(host));
    OneAs16();
    assert [1] + Be16(port) + Be16(1) + Counted(host) == [1] + Be16(port) + [0, 1] + Counted(host);
  }

  lemma {:induction false} OneAs16()
    ensures Be16(1) == [0, 1] && Be16(2) == [0, 2] && Be16(0) == [0, 0]
  {
  }

  lemma {:induction false} SmallAs32()
    ensures Be32(0) == [0, 0, 0, 0] && Be32(1) == [0, 0, 0, 1] && Be32(4) == [0, 0, 0, 4]
    ensures Be32(2) == [0, 0, 0, 2] && Be32(3) == [0, 0, 0, 3]
    ensures Be32(30000) == [0, 0, 0x75, 0x30] && Be32(65536) == [0, 1, 0, 0]
  {
  }

  lemma {:induction false} TaggedBytes(opcode: Byte, tag: Byte, t: Text)
    ensures Framed(opcode, [Octet(tag)] + StringFields(t)) == Fitted(opcode, [tag] + Counted(t))
  {
    hide Spell, SpellOne, Be16, Aligned, StringFields, Framed;
    AlignedKinds(tag);
    SpellSingle(Octet(tag));
    TextSpelled(t);
    SpellConcat([Octet(tag)], StringFields(t));
    AlignedConcat([Octet(tag)], StringFields(t));
    FramedBytes(opcode, [Octet(tag)] + StringFields(t));
  }

  /** The session key, the confirmation and the link notice. */
  lemma {:induction false} HelloBytes(key: Text)
    ensures HelloSessionKey(key) == Fitted(0x13, [2] + Counted(key))
    ensures HelloVerified() == [0, 4, 0x13, 3] && IdentifiedUdp() == [0, 3, 0x4D]
  {
    hide Spell, SpellOne, Counted, Aligned, StringFields, Framed;
    TaggedBytes(Opcodes.HELLO, 2, key);
    AlignedKinds(3);
    SpellSingle(Octet(3));
    FramedBytes(Opcodes.HELLO, [Octet(3)]);
    NothingSpelled();
    FramedBytes(Opcodes.IDENTIFIED_UDP, []);
  }

  lemma {:induction false} NothingSpelled()
    ensures Spell([]) == []
  {
  }

  // ---- Login and bring-up --------------------------------------------------------------------------------

  /** Donor flag and code of a login status. */
  lemma {:induction false} LoginStatusBytes(isDonor: bool, code: Byte)
    ensures LoginStatus(isDonor, code) == [0, 5, 0x22, if isDonor then 1 else 0, code]
  {
    hide Spell, SpellOne, Aligned, Framed;
    var a, b := Octet(if isDonor then 1 else 0), Octet(code);
    AlignedKinds(if isDonor then 1 else 0);
    AlignedKinds(code);
    SpellPair(a, b);
    FramedBytes(Opcodes.LOGIN_STATUS, [a, b]);
  }

  /** The rate a client asked for, granted. */
  lemma {:induction false} BpsBytes(rate: int)
    ensures BpsReply(rate) == Packet(0x4E, Be32(rate) + [1])
  {
    hide Spell, SpellOne, Aligned, Framed, Be32, Be16;
    AlignedKinds(rate);
    AlignedKinds(1);
    SpellPair(Int32(rate), Octet(1));
    FramedBytes(Opcodes.BPS, [Int32(rate), Octet(1)]);
  }

  lemma {:induction false} PlayerBytes(playerId: int, isGuest: bool)
    ensures Player(playerId, isGuest) == Packet(0x17, Be32(playerId) + [if isGuest then 1 else 0])
  {
    hide Spell, SpellOne, Aligned, Framed, Be32, Be16;
    var guest := if isGuest then 1 else 0;
    AlignedKinds(playerId);
    AlignedKinds(guest);
    SpellPair(Int32(playerId), Octet(guest));
    FramedBytes(Opcodes.PLAYER, [Int32(playerId), Octet(guest)]);
  }

  lemma {:induction false} GameClockBytes(ticks: int)
    ensures GameClock(ticks) == Packet(0x2F, Be32(ticks) + [1, 0, 0, 0, 1, 0, 0, 0x75, 0x30])
  {
    hide Spell, SpellOne, Aligned, Framed, Be32, Be16;
    AlignedKinds(ticks);
    AlignedKinds(1);
    AlignedKinds(30000);
    SpellFour(Int32(ticks), Octet(1), Int32(1), Int32(30000));
    FramedBytes(Opcodes.GAME_CLOCK, [Int32(ticks), Octet(1), Int32(1), Int32(30000)]);
    SmallAs32();
    assert Be32(ticks) + [1] + Be32(1) + Be32(30000) == Be32(ticks) + [1, 0, 0, 0, 1, 0, 0, 0x75, 0x30];
  }

  lemma {:induction false} MotdBytes(message: Text)
    ensures Motd(message) == Fitted(0x23, Counted(message))
  {
    hide Spell, Counted, Aligned, StringFields, Framed;
    TextSpelled(message);
    FramedBytes(Opcodes.MOTD, StringFields(message));
  }

  lemma {:induction false} OneFixed()
    ensures Fixed1616(1.0) == Int32(65536) && Fixed1616(0.0) == Int32(0)
  {
    assert 1.0 * SCALE_1616 == 65536.0;
  }

  lemma {:induction false} WorldStatsBytes(mapName: Text)
    ensures WorldStats(mapName) == Fitted(0x16, Counted(mapName) + [1, 1, 0, 1, 0, 0])
  {
    hide Spell, SpellOne, Counted, Aligned, StringFields, Framed, Be32, Fixed1616, Be16;
    var tail := [Octet(1), Octet(1), Int32(65536)];
    OneFixed();
    AlignedKinds(1);
    AlignedKinds(65536);
    SpellThree(tail[0], tail[1], tail[2]);
    TextSpelled(mapName);
    SpellConcat(StringFields(mapName), tail);
    AlignedConcat(StringFields(mapName), tail);
    FramedBytes(Opcodes.WORLD_STATS, StringFields(mapName) + tail);
    SmallAs32();
    assert [1] + [1] + Be32(65536) == [1, 1, 0, 1, 0, 0];
  }

  // ---- Records of players ---------------------------------------------------------------------------------

  /** A roster record: player, team, name, an empty nametag and no scores. */
  lemma {:induction false} RosterBytes(playerId: int, team: int, name: Text)
    ensures AddToRoster(playerId, team, name)
            == Fitted(0x1A, Be32(playerId) + [0, 0, 0, 0] + Be16(team) + [0, 2] + Counted(name) + [0, 1, 0]
                            + [0, 0, 0, 0, 0, 0, 0, 0, 0, 0, 0, 0])
  {
    hide Spell, SpellOne, Counted, Aligned, StringFields, Framed, Be32, Be16, Fixed1616;
    var head, tail := AccountFields(playerId, team), [Int16(0), Int16(0), Int32(0), Int32(0)];
    OneFixed();
    assert ScoreFields() == tail;
    AlignedKinds(playerId);
    AlignedKinds(team);
    AlignedKinds(0);
    AlignedKinds(2);
    SpellFour(head[0], head[1], head[2], head[3]);
    SpellFour(tail[0], tail[1], tail[2], tail[3]);
    TextSpelled(name);
    TextSpelled([]);
    EmptyCounted();
    SpellConcat(head, StringFields(name));
    SpellConcat(head + StringFields(name), StringFields([]));
    SpellConcat(head + StringFields(name) + StringFields([]), tail);
    AlignedConcat(head, StringFields(name));
    AlignedConcat(head + StringFields(name), StringFields([]));
    AlignedConcat(head + StringFields(name) + StringFields([]), tail);
    SmallAs32();
    OneAs16();
    assert Be16(0) + Be16(0) + Be32(0) + Be32(0) == [0, 0, 0, 0, 0, 0, 0, 0, 0, 0, 0, 0];
    FramedBytes(Opcodes.ADD_TO_ROSTER, AddToRosterFields(playerId, team, name, []));
  }

  lemma {:induction false} EmptyCounted()
    ensures Counted([]) == [0, 1, 0]
  {
  }

  lemma {:induction false} StatsSpelled(playerId: int, team: int)
    ensures Payload(UpdateStatsFields(playerId, team))
            == Be32(playerId) + [0, 0, 0, 6] + Be16(team)
               + [0, 33, 0, 3, 0, 5, 0, 9, 0, 1, 0, 0, 0, 1, 0, 0, 0, 0, 0, 10]
  {
    hide Spell, SpellOne, Aligned, Be32, Be16, Fixed1616;
    var head := StatsHead(playerId, team);
    var a, b := [Int16(3), Int16(5), Int16(9), Int32(65536)], [Int32(65536), Int32(10)];
    OneFixed();
    assert StatsTail() == a + b;
    AlignedKinds(playerId);
    AlignedKinds(team);
    StatsConstants();
    SpellFour(head[0], head[1], head[2], head[3]);
    SpellFour(a[0], a[1], a[2], a[3]);
    SpellPair(b[0], b[1]);
    SpellConcat(a, b);
    SpellConcat(head, a + b);
    AlignedConcat(a, b);
    AlignedConcat(head, a + b);
    SpellExact(head + (a + b));
    StatsJoined(Be32(playerId), Be16(team));
  }

  lemma {:induction false} StatsJoined(player: seq<Byte>, team: seq<Byte>)
    ensures player + [0, 0, 0, 6] + team + [0, 33]
            + ([0, 3] + [0, 5] + [0, 9] + [0, 1, 0, 0] + ([0, 1, 0, 0] + [0, 0, 0, 10]))
            == player + [0, 0, 0, 6] + team + [0, 33, 0, 3, 0, 5, 0, 9, 0, 1, 0, 0, 0, 1, 0, 0, 0, 0, 0, 10]
  {
    assert [0, 33] + ([0, 3] + [0, 5] + [0, 9] + [0, 1, 0, 0] + ([0, 1, 0, 0] + [0, 0, 0, 10]))
           == [0, 33, 0, 3, 0, 5, 0, 9, 0, 1, 0, 0, 0, 1, 0, 0, 0, 0, 0, 10];
    ConcatAssoc(player + [0, 0, 0, 6] + team, [0, 33],
                [0, 3] + [0, 5] + [0, 9] + [0, 1, 0, 0] + ([0, 1, 0, 0] + [0, 0, 0, 10]));
  }

  lemma {:induction false} StatsConstants()
    ensures Aligned(Int32(6)) && SpellOne(Int32(6)) == Be32(6) == [0, 0, 0, 6]
    ensures Aligned(Int16(33)) && SpellOne(Int16(33)) == Be16(33) == [0, 33]
    ensures Aligned(Int16(3)) && SpellOne(Int16(3)) == Be16(3) == [0, 3]
    ensures Aligned(Int16(5)) && SpellOne(Int16(5)) == Be16(5) == [0, 5]
    ensures Aligned(Int16(9)) && SpellOne(Int16(9)) == Be16(9) == [0, 9]
    ensures Aligned(Int32(10)) && SpellOne(Int32(10)) == Be32(10) == [0, 0, 0, 10]
    ensures Aligned(Int32(65536)) && SpellOne(Int32(65536)) == Be32(65536) == [0, 1, 0, 0]
  {
    hide Aligned, SpellOne, Int16, Int32, Octet;
    AlignedKinds(6);
    AlignedKinds(33);
    AlignedKinds(3);
    AlignedKinds(5);
    AlignedKinds(9);
    AlignedKinds(10);
    AlignedKinds(65536);
  }

  /** A stats record, framed and as a datagram: player and team, and fixed ratings. */
  lemma {:induction false} StatsBytes(playerId: int, team: int)
    ensures var body := Be32(playerId) + [0, 0, 0, 6] + Be16(team)
                        + [0, 33, 0, 3, 0, 5, 0, 9, 0, 1, 0, 0, 0, 1, 0, 0, 0, 0, 0, 10];
            UpdateStatsFramed(playerId, team) == Packet(0x1C, body) && UdpUpdateStats(playerId, team) == [0x1C] + body
  {
    hide UpdateStatsFields, Payload, Be32, Be16;
    StatsSpelled(playerId, team);
    LeadingOctet(Opcodes.UPDATE_STATS, UpdateStatsFields(playerId, team));
    UpdateStatsIsFrame(playerId, team);
    FrameIsPacket(Frame(Opcodes.UPDATE_STATS, Payload(UpdateStatsFields(playerId, team))));
  }

  lemma {:induction false} FrameIsPacket(f: Frame)
    requires Sendable(f)
    ensures FrameBytes(f) == Packet(f.opcode, f.body)
  {
  }

  /** The answer to a reincarnation request: a code and a text. */
  lemma {:induction false} ResultBytes(code: Byte, message: Text)
    ensures ReincarnateResult(code, message) == Fitted(0x25, [code] + Counted(message))
  {
    hide StringFields, Framed, Counted;
    TaggedBytes(Opcodes.REINCARNATE, code, message);
  }

  lemma {:induction false} BirthBytes(playerId: int)
    ensures BirthNotice(playerId) == Packet(0x1E, Be32(playerId) + [0, 0, 0, 1])
  {
    hide Spell, SpellOne, Aligned, Framed, Be32, Be16;
    AlignedKinds(playerId);
    AlignedKinds(1);
    SpellPair(Int32(playerId), Int32(1));
    FramedBytes(Opcodes.BIRTH_NOTICE, [Int32(playerId), Int32(1)]);
    SmallAs32();
  }

  // ---- Raw datagrams --------------------------------------------------------------------------------------

  lemma {:induction false} PongBytes(timestamp: int)
    ensures UdpPong(timestamp) == [0x0C] + Be32(timestamp)
  {
    hide Spell, SpellOne, Aligned, Be32, Payload;
    AlignedKinds(0x0C);
    AlignedKinds(timestamp);
    SpellPair(Octet(Opcodes.UDP_PING), Int32(timestamp));
    SpellExact([Octet(Opcodes.UDP_PING), Int32(timestamp)]);
  }

  lemma {:induction false} AckBytes(sequence: int, opcode: Byte, acked: int)
    ensures UdpAck(sequence, opcode, acked) == [2] + Be16(sequence) + [0, 9, 1, opcode] + Be16(acked)
  {
    hide Spell, SpellOne, Aligned, Be16, Payload;
    var a, b := [Octet(Opcodes.ACK), Int16(sequence), Int16(9), Octet(1)], [Octet(opcode), Int16(acked)];
    AlignedKinds(2);
    AlignedKinds(sequence);
    AlignedKinds(1);
    AlignedKinds(opcode);
    AlignedKinds(acked);
    StatsConstants();
    SpellFour(a[0], a[1], a[2], a[3]);
    SpellPair(b[0], b[1]);
    SpellConcat(a, b);
    SpellExact(a + b);
    assert a + b == [Octet(Opcodes.ACK), Int16(sequence), Int16(9), Octet(1), Octet(opcode), Int16(acked)];
    assert [2] + Be16(sequence) + Be16(9) + [1] + ([opcode] + Be16(acked))
           == [2] + Be16(sequence) + [0, 9, 1, opcode] + Be16(acked);
  }

  /** The answer to a UDP handshake: acknowledged, the four streams announced, two of them opened. */
  lemma {:induction false} UnpauseBytes(ticks: int, stream: Byte)
    ensures UdpHandshakeAck(ticks) == [2, 0] + Be32(ticks)
    ensures UdpStreamUnpause(stream) == [4, stream, 0, 1]
  {
    hide Spell, SpellOne, Aligned, Be16, Be32, Payload;
    AlignedKinds(2);
    AlignedKinds(0);
    AlignedKinds(1);
    AlignedKinds(4);
    AlignedKinds(ticks);
    AlignedKinds(stream);
    SpellThree(Octet(Opcodes.ACK), Octet(0), Int32(ticks));
    SpellExact([Octet(Opcodes.ACK), Octet(0), Int32(ticks)]);
    SpellThree(Octet(Opcodes.STREAM_CONTROL), Octet(stream), Int16(1));
    SpellExact([Octet(Opcodes.STREAM_CONTROL), Octet(stream), Int16(1)]);
    OneAs16();
  }

  /** Number i of the stream definitions: its name, one, and its number. */
  function StreamName(i: nat): seq<Byte>
    requires i < 4
  {
    Counted(Ascii(["Unreliable", "Reliable", "Stream 2", "Game Data"][i])) + [0, 0, 0, 1] + Be32(i)
  }

  lemma {:induction false} NamesSpelled(i: nat)
    requires i < 4
    ensures AllAligned(StreamNameFields(i) + []) && AllAligned(StreamConfigFields(i) + [])
    ensures Spell(StreamNameFields(i)) == StreamName(i) + if i < 3 then Spell(StreamNameFields(i + 1)) else []
    ensures Spell(StreamConfigFields(i))
            == Be32(i) + [0, 0, 0, 1] + if i < 3 then Spell(StreamConfigFields(i + 1)) else []
    decreases 4 - i
  {
    hide Spell, SpellOne, Aligned, Be32, Counted, StringFields, Ascii;
    var name := StringFields(Ascii(STREAM_NAMES[i]));
    var numbers, pair := [Int32(1), Int32(i)], [Int32(i), Int32(1)];
    if i < 3 {
      NamesSpelled(i + 1);
    }
    var names, configs := StreamNameFields(i + 1), StreamConfigFields(i + 1);
    assert names == names + [] && configs == configs + [];
    NothingSpelled();
    TextSpelled(Ascii(STREAM_NAMES[i]));
    AlignedKinds(1);
    AlignedKinds(i);
    SmallAs32();
    SpellPair(numbers[0], numbers[1]);
    SpellPair(pair[0], pair[1]);
    SpellConcat(name, numbers);
    SpellConcat(name + numbers, names);
    SpellConcat(pair, configs);
    AlignedConcat(name, numbers);
    AlignedConcat(name + numbers, names);
    AlignedConcat(pair, configs);
    assert StreamNameFields(i) == name + numbers + names && StreamConfigFields(i) == pair + configs;
    ConcatAssoc(Counted(Ascii(STREAM_NAMES[i])), Be32(1), Be32(i));
  }

  lemma {:induction false} AllNames()
    ensures Spell(StreamNameFields(0)) == StreamName(0) + (StreamName(1) + (StreamName(2) + StreamName(3)))
    ensures Spell(StreamConfigFields(0))
            == [0, 0, 0, 0, 0, 0, 0, 1, 0, 0, 0, 1, 0, 0, 0, 1, 0, 0, 0, 2, 0, 0, 0, 1, 0, 0, 0, 3, 0, 0, 0, 1]
    ensures AllAligned(StreamNameFields(0)) && AllAligned(StreamConfigFields(0))
  {
    hide Spell, Aligned, Be32, StreamNameFields, StreamConfigFields, StreamName;
    NamesSpelled(0);
    NamesSpelled(1);
    NamesSpelled(2);
    NamesSpelled(3);
    assert StreamNameFields(0) + [] == StreamNameFields(0) && StreamConfigFields(0) + [] == StreamConfigFields(0);
    assert StreamName(3) + [] == StreamName(3);
    ConfigsSpelled();
  }

  /** The stream definitions carry the player id and the four streams in order, then their settings. */
  lemma {:induction false} StreamDefsBytes(ticks: int, playerId: int)
    ensures UdpStreamDefs(ticks, playerId)
            == [3] + Be32(ticks) + Be32(playerId) + [0, 0, 0, 4]
               + (StreamName(0) + (StreamName(1) + (StreamName(2) + StreamName(3)))) + [0, 0, 0, 4]
               + [0, 0, 0, 0, 0, 0, 0, 1, 0, 0, 0, 1, 0, 0, 0, 1, 0, 0, 0, 2, 0, 0, 0, 1, 0, 0, 0, 3, 0, 0, 0, 1]
  {
    hide Spell, SpellOne, Aligned, AllAligned, Be32, Payload, StreamNameFields, StreamConfigFields, StreamName;
    var head := [Octet(Opcodes.D_HANDSHAKE), Int32(ticks), Int32(playerId), Int32(4)];
    var names, configs := StreamNameFields(0), StreamConfigFields(0);
    AllNames();
    HeadSpelled(ticks, playerId);
    SpellConcat(head, names);
    SpellConcat(head + names, [Int32(4)]);
    SpellConcat(head + names + [Int32(4)], configs);
    AlignedConcat(head, names);
    AlignedConcat(head + names, [Int32(4)]);
    AlignedConcat(head + names + [Int32(4)], configs);
    SpellExact(head + names + [Int32(4)] + configs);
  }

  lemma {:induction false} HeadSpelled(ticks: int, playerId: int)
    ensures var head := [Octet(Opcodes.D_HANDSHAKE), Int32(ticks), Int32(playerId), Int32(4)];
            Spell(head) == [3] + Be32(ticks) + Be32(playerId) + [0, 0, 0, 4] && AllAligned(head)
    ensures Spell([Int32(4)]) == [0, 0, 0, 4] && AllAligned([Int32(4)])
  {
    hide Spell, SpellOne, Aligned, Be32;
    AlignedKinds(3);
    AlignedKinds(ticks);
    AlignedKinds(playerId);
    AlignedKinds(4);
    SmallAs32();
    SpellFour(Octet(Opcodes.D_HANDSHAKE), Int32(ticks), Int32(playerId), Int32(4));
    SpellSingle(Int32(4));
  }

  lemma {:induction false} ConfigsSpelled()
    ensures Be32(0) + [0, 0, 0, 1]
            + (Be32(1) + [0, 0, 0, 1] + (Be32(2) + [0, 0, 0, 1] + (Be32(3) + [0, 0, 0, 1] + [])))
            == [0, 0, 0, 0, 0, 0, 0, 1, 0, 0, 0, 1, 0, 0, 0, 1, 0, 0, 0, 2, 0, 0, 0, 1, 0, 0, 0, 3, 0, 0, 0, 1]
  {
    hide Be32;
    SmallAs32();
  }
}
