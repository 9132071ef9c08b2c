/**
 Mask-driven entity records and the update packets that carry them, with the
 client's reader. A record's payload is chosen by its mask and its unit type, so
 one bit too many or too few would shift everything behind it.
 */
module EntityCodec {
  import opened Bits
  import opened Cursors
  import opened BitStream
  import opened Quantization
  import Framing
  import Opcodes

  const CARGO_BOX := 19
  const DECORATION := 37

  const MASK_POS_ROT: U32 := 10    // position (2) and rotation (8)
  const MASK_FULL: U32 := 43       // definition (1), position, rotation, health (32)

  const MAX_SNAPSHOT_ENTITIES := 255

  datatype Entity = Entity(
    netId: int, unitType: int, team: int, isManned: bool,
    pos: Vec3, rot: Vec3, health: real, energy: real, cargoUnitType: int)

  const DEFAULT_ENTITY := Entity(0, 0, 1, true, Vec3(0.0, 0.0, 0.0), Vec3(0.0, 0.0, 0.0), 1.0, 1.0, 25)

  datatype EntityWrite = EntityWrite(entity: Entity, mask: U32)

  const POS_CONFIG := QuantConfig(4, 16, 1, 8192.0, 16384.0)
  const ROT_CONFIG := QuantConfig(4, 16, 1, 6.3, 12.6)
  const STAT_CONFIG := QuantConfig(10, 0, 10, 1.0, 1.0)

  lemma {:induction false} ConfigFacts()
    ensures POS_CONFIG == MakeQuantConfig(QuantSpec(4, 16, 8192.0, 16384.0))
    ensures ROT_CONFIG == MakeQuantConfig(QuantSpec(4, 16, 6.3, 12.6))
    ensures STAT_CONFIG == MakeQuantConfig(QuantSpec(10, 0, 1.0, 1.0))
    ensures FullPriority(POS_CONFIG) == FullPriority(ROT_CONFIG) == 15
    ensures QuantizedBits(POS_CONFIG, 15) == QuantizedBits(ROT_CONFIG, 15) == 16
  {
    Pow2Values();
  }

  predicate Has(mask: nat, bit: nat) {
    BitAt(mask, bit) == 1
  }

  // ---- Writing ---------------------------------------------------------------------

  function HeadFields(e: Entity, mask: U32): seq<Field> {
    [Int32(e.netId), Flag(e.isManned), Field(mask, 10), Field(0, 16)]
  }

  function LowByte(v: int): Field {
    Field(v % 0x1_0000_0000, 8)
  }

  function ExtraFields(e: Entity): seq<Field> {
    if e.unitType == DECORATION then [Int32(0), Int32(0)]
    else if e.unitType == CARGO_BOX then [LowByte(e.cargoUnitType)]
    else []
  }

  function DefinitionFields(e: Entity): seq<Field> {
    [LowByte(e.unitType), LowByte(e.team), LowByte(e.team)] + ExtraFields(e) + [Flag(true)]
  }

  function PosFields(e: Entity): (fs: seq<Field>)
    ensures |fs| == 4
  {
    ConfigFacts();
    Vec3Fields(e.pos, POS_CONFIG)
  }

  function RotFields(e: Entity): (fs: seq<Field>)
    ensures |fs| == 4
  {
    ConfigFacts();
    Vec3Fields(e.rot, ROT_CONFIG)
  }

  function StatField(value: real): Field {
    LevelField(value, STAT_CONFIG, 0)
  }

  function GroupFields(e: Entity, mask: U32): seq<Field> {
    (if Has(mask, 1) then PosFields(e) else [])
    + (if Has(mask, 3) then RotFields(e) else [])
    + (if Has(mask, 5) then [StatField(e.health)] else [])
  }

  function EntityFields(e: Entity, mask: U32): seq<Field> {
    HeadFields(e, mask) + (if Has(mask, 0) then DefinitionFields(e) else []) + GroupFields(e, mask)
  }

  method WriteExtra(w: BitWriter, e: Entity)
    requires w.Valid()
    modifies w
    ensures w.Valid() && w.fields == old(w.fields) + ExtraFields(e)
  {
    if e.unitType == DECORATION {
      w.WriteI32(0);
      w.WriteI32(0);
    } else if e.unitType == CARGO_BOX {
      w.WriteBits(e.cargoUnitType % 0x1_0000_0000, 8);
    }
  }

  method WriteDefinition(w: BitWriter, e: Entity)
    requires w.Valid()
    modifies w
    ensures w.Valid() && w.fields == old(w.fields) + DefinitionFields(e)
  {
    w.WriteBits(e.unitType % 0x1_0000_0000, 8);
    w.WriteBits(e.team % 0x1_0000_0000, 8);
    w.WriteBits(e.team % 0x1_0000_0000, 8);
    ghost var three := [LowByte(e.unitType), LowByte(e.team), LowByte(e.team)];
    assert w.fields == old(w.fields) + three;
    WriteExtra(w, e);
    ConcatAssoc(old(w.fields), three, ExtraFields(e));
    w.WriteBool(true);
    ConcatAssoc(old(w.fields), three + ExtraFields(e), [Flag(true)]);
  }

  method WriteHead(w: BitWriter, e: Entity, mask: U32)
    requires w.Valid()
    modifies w
    ensures w.Valid() && w.fields == old(w.fields) + HeadFields(e, mask)
  {
    w.WriteI32(e.netId);
    w.WriteBool(e.isManned);
    w.WriteBits(mask, 10);
    w.WriteBits(0, 16);
  }

  method WriteGroups(w: BitWriter, e: Entity, mask: U32)
    requires w.Valid()
    modifies w
    ensures w.Valid() && w.fields == old(w.fields) + GroupFields(e, mask)
  {
    ConfigFacts();
    ghost var pre := w.fields;
    ghost var pos := if Has(mask, 1) then PosFields(e) else [];
    ghost var rot := if Has(mask, 3) then RotFields(e) else [];
    if Has(mask, 1) {
      WriteVec3(w, e.pos, POS_CONFIG);
    }
    assert w.fields == pre + pos;
    if Has(mask, 3) {
      WriteVec3(w, e.rot, ROT_CONFIG);
    }
    assert w.fields == pre + pos + rot;
    ConcatAssoc(pre, pos, rot);
    if Has(mask, 5) {
      WriteStat(w, e.health);
    }
    ConcatAssoc(pre, pos + rot, if Has(mask, 5) then [StatField(e.health)] else []);
  }

  method WriteStat(w: BitWriter, value: real)
    requires w.Valid()
    modifies w
    ensures w.Valid() && w.fields == old(w.fields) + [StatField(value)]
  {
    WriteQuantized(w, value, STAT_CONFIG, 0);
  }

  method WriteEntity(w: BitWriter, e: Entity, mask: U32)
    requires w.Valid()
    modifies w
    ensures w.Valid() && w.fields == old(w.fields) + EntityFields(e, mask)
  {
    ghost var pre, def := w.fields, if Has(mask, 0) then DefinitionFields(e) else [];
    WriteHead(w, e, mask);
    if Has(mask, 0) {
      WriteDefinition(w, e);
    }
    assert w.fields == pre + HeadFields(e, mask) + def;
    ConcatAssoc(pre, HeadFields(e, mask), def);
    WriteGroups(w, e, mask);
    ConcatAssoc(pre, HeadFields(e, mask) + def, GroupFields(e, mask));
  }

  function ListFields(writes: seq<EntityWrite>): seq<Field> {
    if writes == [] then []
    else EntityFields(writes[0].entity, writes[0].mask) + ListFields(writes[1..])
  }

  lemma {:induction false} ListFieldsSnoc(a: seq<EntityWrite>, w: EntityWrite)
    ensures ListFields(a + [w]) == ListFields(a) + EntityFields(w.entity, w.mask)
  {
    if a == [] {
      assert ListFields([w]) == EntityFields(w.entity, w.mask) + ListFields([]);
    } else {
      assert (a + [w])[0] == a[0] && (a + [w])[1..] == a[1..] + [w];
      ListFieldsSnoc(a[1..], w);
      ConcatAssoc(EntityFields(a[0].entity, a[0].mask), ListFields(a[1..]), EntityFields(w.entity, w.mask));
    }
  }

  /** At most 255 entities fit the count byte; the rest are dropped. */
  function Cut(writes: seq<EntityWrite>): (r: seq<EntityWrite>)
    ensures |r| <= MAX_SNAPSHOT_ENTITIES
  {
    writes[..Min(|writes|, MAX_SNAPSHOT_ENTITIES)]
  }

  function StatsFields(health: real, energy: real, count: nat): seq<Field> {
    [Flag(true), Field(0, 5), StatField(health), StatField(energy), Field(count, 8)]
  }

  /** The part of an update packet behind opcode and timestamp. */
  function BodyFields(sequence: int, writes: seq<EntityWrite>, health: real, energy: real): seq<Field> {
    [Int32(sequence)] + StatsFields(health, energy, |Cut(writes)|) + ListFields(Cut(writes))
  }

  method WriteStats(w: BitWriter, health: real, energy: real, count: Byte)
    requires w.Valid()
    modifies w
    ensures w.Valid() && w.fields == old(w.fields) + StatsFields(health, energy, count)
  {
    w.WriteBool(true);
    w.WriteBits(0, 5);
    WriteStat(w, health);
    WriteStat(w, energy);
    w.WriteBits(count, 8);
  }

  method WriteList(w: BitWriter, writes: seq<EntityWrite>, count: nat)
    requires w.Valid() && count <= |writes|
    modifies w
    ensures w.Valid() && w.fields == old(w.fields) + ListFields(writes[..count])
  {
    ghost var pre := w.fields;
    var i := 0;
    while i < count
      invariant i <= count && w.Valid() && w.fields == pre + ListFields(writes[..i])
    {
      WriteEntity(w, writes[i].entity, writes[i].mask);
      ListFieldsSnoc(writes[..i], writes[i]);
      assert writes[..i + 1] == writes[..i] + [writes[i]];
      ConcatAssoc(pre, ListFields(writes[..i]), EntityFields(writes[i].entity, writes[i].mask));
      i := i + 1;
    }
  }

  method WriteBody(w: BitWriter, sequence: int, writes: seq<EntityWrite>, health: real, energy: real)
    requires w.Valid()
    modifies w
    ensures w.Valid() && w.fields == old(w.fields) + BodyFields(sequence, writes, health, energy)
  {
    var count := Min(|writes|, MAX_SNAPSHOT_ENTITIES);
    w.WriteI32(sequence);
    WriteStats(w, health, energy, count);
    ghost var stats := StatsFields(health, energy, count);
    ConcatAssoc(old(w.fields), [Int32(sequence)], stats);
    WriteList(w, writes, count);
    ConcatAssoc(old(w.fields), [Int32(sequence)] + stats, ListFields(Cut(writes)));
  }

  function UpdateFields(opcode: Byte, timestamp: Option<int>, sequence: int,
                        writes: seq<EntityWrite>, health: real, energy: real): seq<Field> {
    [Octet(opcode)] + (if timestamp.Some? then [Int32(timestamp.value)] else [])
    + BodyFields(sequence, writes, health, energy)
  }

  /** A raw in-game datagram; only a view update carries the timestamp. */
  method BuildUpdateArray(opcode: Byte, timestamp: Option<int>, sequence: int,
                          writes: seq<EntityWrite>, health: real, energy: real) returns (out: seq<Byte>)
    ensures out == Payload(UpdateFields(opcode, timestamp, sequence, writes, health, energy))
  {
    var w := new BitWriter();
    w.WriteByte(opcode);
    if timestamp.Some? {
      w.WriteI32(timestamp.value);
    }
    assert w.fields == [Octet(opcode)] + if timestamp.Some? then [Int32(timestamp.value)] else [];
    WriteBody(w, sequence, writes, health, energy);
    out := w.Bytes();
  }

  function AllFull(entities: seq<Entity>): (writes: seq<EntityWrite>)
    ensures |writes| == |entities|
  {
    seq(|entities|, i requires 0 <= i < |entities| => EntityWrite(entities[i], MASK_FULL))
  }

  function SnapshotFields(sequence: int, entities: seq<Entity>, health: real, energy: real): seq<Field> {
    [Int32(sequence)] + BodyFields(sequence, AllFull(entities), health, energy)
  }

  /** The reliable snapshot of the whole world for a client that has not spawned yet. */
  method BuildViewUpdateSnapshot(sequence: int, entities: seq<Entity>, health: real, energy: real)
    returns (out: seq<Byte>)
    ensures out == Framing.Framed(Opcodes.VIEW_UPDATE, SnapshotFields(sequence, entities, health, energy))
  {
    var w := new BitWriter();
    w.WriteI32(sequence);
    WriteBody(w, sequence, AllFull(entities), health, energy);
    var body := w.Bytes();
    out := Framing.EncodeTcpFrame(Opcodes.VIEW_UPDATE, body).GetOr([]);
  }

  // ---- The client's reader -----------------------------------------------------------

  datatype Levels = Levels(priority: nat, x: nat, y: nat, z: nat)

  datatype Record = Record(
    netId: I32, isManned: bool, mask: nat, kind: nat, team: nat,
    pos: Option<Levels>, rot: Option<Levels>, health: Option<nat>)

  /** Reads n bits on a cursor that may already have failed; 0 then. */
  function Take(c: Cursor, n: nat): (Cursor, nat) {
    var (c', v) := Read(c, n);
    (c', v.GetOr(0))
  }

  function TakeLevels(c: Cursor): (Cursor, Levels) {
    var (c1, p) := Take(c, 4);
    var (c2, x) := Take(c1, 16);
    var (c3, y) := Take(c2, 16);
    var (c4, z) := Take(c3, 16);
    (c4, Levels(p, x, y, z))
  }

  function SkipExtra(c: Cursor, kind: nat): Cursor {
    if kind == DECORATION then Take(Take(c, 32).0, 32).0
    else if kind == CARGO_BOX then Take(c, 8).0
    else c
  }

  function TakeDefinition(c: Cursor): (Cursor, nat, nat) {
    var (c1, kind) := Take(c, 8);
    var (c2, team) := Take(c1, 8);
    var (c3, _) := Take(c2, 8);
    (Take(SkipExtra(c3, kind), 1).0, kind, team)
  }

  function TakeHead(c: Cursor): (Cursor, I32, bool, nat) {
    var (c1, id) := ReadI32(c);
    var (c2, manned) := Take(c1, 1);
    var (c3, mask) := Take(c2, 10);
    (Take(c3, 16).0, id.GetOr(0), manned != 0, mask)
  }

  function TakeMaybeLevels(c: Cursor, present: bool): (Cursor, Option<Levels>) {
    if present then
      var (c', l) := TakeLevels(c);
      (c', Some(l))
    else (c, None)
  }

  function If(present: bool, width: nat): nat {
    if present then width else 0
  }

  /** Every group the mask announces, in mask-bit order, whether or not this server sends it. */
  function TakeVectors(c: Cursor, mask: nat): (Cursor, Option<Levels>, Option<Levels>) {
    var (c1, pos) := TakeMaybeLevels(c, Has(mask, 1));
    var (c2, _) := TakeMaybeLevels(c1, Has(mask, 2));
    var (c3, rot) := TakeMaybeLevels(c2, Has(mask, 3));
    (TakeMaybeLevels(c3, Has(mask, 4)).0, pos, rot)
  }

  function TakeScalars(c: Cursor, mask: nat): (Cursor, Option<nat>) {
    var (c1, health) := Take(c, If(Has(mask, 5), 10));
    var c2 := Take(c1, If(Has(mask, 7), 10)).0;
    (Take(c2, If(Has(mask, 8), 32)).0, if Has(mask, 5) then Some(health) else None)
  }

  function TakeGroups(c: Cursor, mask: nat): (Cursor, Option<Levels>, Option<Levels>, Option<nat>) {
    var (c1, pos, rot) := TakeVectors(c, mask);
    var (c2, health) := TakeScalars(c1, mask);
    (c2, pos, rot, health)
  }

  function TakeEntity(c: Cursor): (Cursor, Record) {
    var (c1, id, manned, mask) := TakeHead(c);
    var (c2, kind, team) := if Has(mask, 0) then TakeDefinition(c1) else (c1, 0, 0);
    var (c3, pos, rot, health) := TakeGroups(c2, mask);
    (c3, Record(id, manned, mask, kind, team, pos, rot, health))
  }

  function TakeEntities(c: Cursor, n: nat): (Cursor, seq<Record>)
    decreases n
  {
    if n == 0 then (c, [])
    else
      var (c1, r) := TakeEntity(c);
      var (c2, rs) := TakeEntities(c1, n - 1);
      (c2, [r] + rs)
  }

  // ---- What the reader gets ------------------------------------------------------------

  lemma {:induction false} TakeAt(c: Cursor, fs: seq<Field>, k: nat, tail: seq<bool>)
    requires k < |fs| && At(c, fs, k, tail) && fs[k].width <= 32
    ensures Take(c, fs[k].width).1 == fs[k].value % Pow2(fs[k].width)
    ensures fs[k].value < Pow2(fs[k].width) ==> Take(c, fs[k].width).1 == fs[k].value
    ensures At(Take(c, fs[k].width).0, fs, k + 1, tail)
  {
    ReadAt(c, fs, k, tail);
    if fs[k].value < Pow2(fs[k].width) {
      DivModUnique(fs[k].value, Pow2(fs[k].width), 0, fs[k].value);
    }
  }

  lemma {:induction false} TakeNothing(c: Cursor)
    requires !c.failed
    ensures Take(c, 0) == (c, 0)
  {
    assert c.rest[0..] == c.rest;
  }

  lemma {:induction false} HalfOfLow(v: nat, n: nat)
    requires n > 0
    ensures v % Pow2(n) / 2 == v / 2 % Pow2(n - 1) && v % Pow2(n) % 2 == v % 2
  {
    DivModStep(v, Pow2(n - 1));
  }

  lemma {:induction false} BitAtLow(v: nat, n: nat, i: nat)
    requires i < n
    ensures BitAt(v % Pow2(n), i) == BitAt(v, i)
  {
    HalfOfLow(v, n);
    if i > 0 {
      BitAtLow(v / 2, n - 1, i - 1);
    }
  }

  /** The mask a reader sees has the same bits as the one written. */
  lemma {:induction false} MaskSeen(mask: U32, i: nat)
    requires i < 10
    ensures Has(mask % 0x400, i) == Has(mask, i)
  {
    assert Pow2(10) == 0x400;
    BitAtLow(mask, 10, i);
  }

  lemma {:induction false} HeadAt(c: Cursor, e: Entity, mask: U32, rest: seq<bool>)
    requires At(c, HeadFields(e, mask), 0, rest)
    ensures TakeHead(c) == (Cursor(rest, false), SignExtend(e.netId % 0x1_0000_0000), e.isManned, mask % 0x400)
  {
    hide From, SignExtend, BitsOf;
    var fs := HeadFields(e, mask);
    assert Pow2(1) == 2 && Pow2(10) == 0x400;
    ReadI32At(c, fs, 0, rest, e.netId);
    var c1 := ReadI32(c).0;
    TakeAt(c1, fs, 1, rest);
    var c2 := Take(c1, 1).0;
    TakeAt(c2, fs, 2, rest);
    TakeAt(Take(c2, 10).0, fs, 3, rest);
    AtEnd(TakeHead(c).0, fs, rest);
  }

  function LevelsOf(v: Vec3, cfg: QuantConfig): Levels
    requires Usable(cfg, 15)
  {
    Levels(15, Quantize(v.x, cfg, 15), Quantize(v.y, cfg, 15), Quantize(v.z, cfg, 15))
  }

  lemma {:induction false} LevelAt(c: Cursor, value: real, cfg: QuantConfig, fs: seq<Field>, k: nat, rest: seq<bool>)
    requires QuantizedBits(cfg, 15) == 16 && Usable(cfg, 15)
    requires k < |fs| && fs[k] == LevelField(value, cfg, 15) && At(c, fs, k, rest)
    ensures Take(c, 16).1 == Quantize(value, cfg, 15) && At(Take(c, 16).0, fs, k + 1, rest)
  {
    QuantizeLevels(value, cfg, 15);
    TakeAt(c, fs, k, rest);
  }

  lemma {:induction false} LevelsAt(c: Cursor, v: Vec3, cfg: QuantConfig, rest: seq<bool>)
    requires cfg.headerBits == 4 && QuantizedBits(cfg, 15) == 16 && Usable(cfg, 15)
    requires FullPriority(cfg) == 15 && At(c, Vec3Fields(v, cfg), 0, rest)
    ensures TakeLevels(c) == (Cursor(rest, false), LevelsOf(v, cfg))
  {
    var fs := Vec3Fields(v, cfg);
    assert Pow2(4) == 16;
    TakeAt(c, fs, 0, rest);
    var c1 := Take(c, 4).0;
    LevelAt(c1, v.x, cfg, fs, 1, rest);
    var c2 := Take(c1, 16).0;
    LevelAt(c2, v.y, cfg, fs, 2, rest);
    LevelAt(Take(c2, 16).0, v.z, cfg, fs, 3, rest);
  }

  function Kind(e: Entity): nat {
    e.unitType % 0x100
  }

  /** A reader that knows only the low byte of the type skips the right extra payload. */
  predicate KindClear(e: Entity) {
    Kind(e) == DECORATION || Kind(e) == CARGO_BOX ==> e.unitType == Kind(e)
  }

  lemma {:induction false} LowByteSeen(v: int)
    ensures v % 0x1_0000_0000 % 0x100 == v % 0x100
  {
  }

  lemma {:induction false} DefinitionStart(c: Cursor, e: Entity, rest: seq<bool>)
    requires At(c, DefinitionFields(e), 0, rest)
    ensures var (c1, kind) := Take(c, 8);
            var (c2, team) := Take(c1, 8);
            kind == Kind(e) && team == e.team % 0x100 && At(Take(c2, 8).0, DefinitionFields(e), 3, rest)
  {
    var fs := DefinitionFields(e);
    assert Pow2(8) == 0x100;
    TakeAt(c, fs, 0, rest);
    var c1 := Take(c, 8).0;
    TakeAt(c1, fs, 1, rest);
    TakeAt(Take(c1, 8).0, fs, 2, rest);
    LowByteSeen(e.unitType);
    LowByteSeen(e.team);
  }

  lemma {:induction false} ExtraAt(c: Cursor, e: Entity, rest: seq<bool>)
    requires KindClear(e) && At(c, DefinitionFields(e), 3, rest)
    ensures Take(SkipExtra(c, Kind(e)), 1).0 == Cursor(rest, false)
  {
    hide Take, From, Pow2;
    var fs := DefinitionFields(e);
    TakeAt(c, fs, 3, rest);
    if e.unitType == DECORATION {
      TakeAt(Take(c, 32).0, fs, 4, rest);
    }
    if |fs| > 4 {
      TakeAt(SkipExtra(c, Kind(e)), fs, |fs| - 1, rest);
    }
    AtEnd(Take(SkipExtra(c, Kind(e)), 1).0, fs, rest);
  }

  lemma {:induction false} DefinitionAt(c: Cursor, e: Entity, rest: seq<bool>)
    requires KindClear(e) && At(c, DefinitionFields(e), 0, rest)
    ensures TakeDefinition(c) == (Cursor(rest, false), Kind(e), e.team % 0x100)
  {
    DefinitionStart(c, e, rest);
    ExtraAt(Take(Take(Take(c, 8).0, 8).0, 8).0, e, rest);
  }

  /** The mask announces no group this server does not send. */
  predicate GroupsSent(mask: U32) {
    !Has(mask, 2) && !Has(mask, 4) && !Has(mask, 7) && !Has(mask, 8)
  }

  lemma {:induction false} PosAt(c: Cursor, e: Entity, present: bool, rest: seq<bool>)
    requires At(c, if present then PosFields(e) else [], 0, rest)
    ensures Usable(POS_CONFIG, 15)
    ensures TakeMaybeLevels(c, present)
            == (Cursor(rest, false), if present then Some(LevelsOf(e.pos, POS_CONFIG)) else None)
  {
    ConfigFacts();
    if present {
      LevelsAt(c, e.pos, POS_CONFIG, rest);
    }
  }

  lemma {:induction false} RotAt(c: Cursor, e: Entity, present: bool, rest: seq<bool>)
    requires At(c, if present then RotFields(e) else [], 0, rest)
    ensures Usable(ROT_CONFIG, 15)
    ensures TakeMaybeLevels(c, present)
            == (Cursor(rest, false), if present then Some(LevelsOf(e.rot, ROT_CONFIG)) else None)
  {
    ConfigFacts();
    if present {
      LevelsAt(c, e.rot, ROT_CONFIG, rest);
    }
  }

  lemma {:induction false} StatAt(c: Cursor, value: real, fs: seq<Field>, k: nat, rest: seq<bool>)
    requires k < |fs| && fs[k] == StatField(value) && At(c, fs, k, rest)
    ensures Take(c, 10).1 == Quantize(value, STAT_CONFIG, 0) && At(Take(c, 10).0, fs, k + 1, rest)
  {
    QuantizeLevels(value, STAT_CONFIG, 0);
    TakeAt(c, fs, k, rest);
  }

  lemma {:induction false} HealthAt(c: Cursor, e: Entity, present: bool, rest: seq<bool>)
    requires At(c, if present then [StatField(e.health)] else [], 0, rest)
    ensures Take(c, If(present, 10))
            == (Cursor(rest, false), if present then Quantize(e.health, STAT_CONFIG, 0) else 0)
  {
    if present {
      StatAt(c, e.health, [StatField(e.health)], 0, rest);
    } else {
      TakeNothing(c);
    }
  }

  lemma {:induction false} GroupsAt(c: Cursor, e: Entity, mask: U32, seen: nat, rest: seq<bool>)
    requires GroupsSent(mask) && seen == mask % 0x400 && At(c, GroupFields(e, mask), 0, rest)
    ensures Usable(POS_CONFIG, 15) && Usable(ROT_CONFIG, 15)
    ensures TakeGroups(c, seen) == (
              Cursor(rest, false),
              if Has(mask, 1) then Some(LevelsOf(e.pos, POS_CONFIG)) else None,
              if Has(mask, 3) then Some(LevelsOf(e.rot, ROT_CONFIG)) else None,
              if Has(mask, 5) then Some(Quantize(e.health, STAT_CONFIG, 0)) else None)
  {
    forall i | 0 <= i < 10 ensures Has(seen, i) == Has(mask, i) {
      MaskSeen(mask, i);
    }
    var pos := if Has(mask, 1) then PosFields(e) else [];
    var rot := if Has(mask, 3) then RotFields(e) else [];
    var health := if Has(mask, 5) then [StatField(e.health)] else [];
    FromConcat(pos + rot, health, rest);
    FromConcat(pos, rot, From(health, 0, rest));
    PosAt(c, e, Has(mask, 1), From(rot, 0, From(health, 0, rest)));
    var c1 := TakeMaybeLevels(c, Has(mask, 1)).0;
    RotAt(c1, e, Has(mask, 3), From(health, 0, rest));
    HealthAt(TakeMaybeLevels(c1, Has(mask, 3)).0, e, Has(mask, 5), rest);
    TakeNothing(Cursor(rest, false));
  }

  /** The reader consumes exactly the bits the writer produced. */
  predicate InSync(e: Entity, mask: U32) {
    GroupsSent(mask) && (Has(mask, 0) ==> KindClear(e))
  }

  function RecordOf(e: Entity, mask: U32): Record {
    ConfigFacts();
    Record(
      SignExtend(e.netId % 0x1_0000_0000), e.isManned, mask % 0x400,
      if Has(mask, 0) then Kind(e) else 0,
      if Has(mask, 0) then e.team % 0x100 else 0,
      if Has(mask, 1) then Some(LevelsOf(e.pos, POS_CONFIG)) else None,
      if Has(mask, 3) then Some(LevelsOf(e.rot, ROT_CONFIG)) else None,
      if Has(mask, 5) then Some(Quantize(e.health, STAT_CONFIG, 0)) else None)
  }

  lemma {:induction false} EntityAt(c: Cursor, e: Entity, mask: U32, rest: seq<bool>)
    requires InSync(e, mask) && At(c, EntityFields(e, mask), 0, rest)
    ensures TakeEntity(c) == (Cursor(rest, false), RecordOf(e, mask))
  {
    var head, groups := HeadFields(e, mask), GroupFields(e, mask);
    var def := if Has(mask, 0) then DefinitionFields(e) else [];
    var after := From(groups, 0, rest);
    FromConcat(head + def, groups, rest);
    FromConcat(head, def, after);
    HeadAt(c, e, mask, From(def, 0, after));
    MaskSeen(mask, 0);
    var c1 := TakeHead(c).0;
    if Has(mask, 0) {
      DefinitionAt(c1, e, after);
    }
    GroupsAt(Cursor(after, false), e, mask, mask % 0x400, rest);
  }

  // ---- Widths --------------------------------------------------------------------------

  function ExtraWidth(kind: int): nat {
    if kind == DECORATION then 64 else if kind == CARGO_BOX then 8 else 0
  }

  /** Bits the writer produces for one entity. */
  function EntityWidth(e: Entity, mask: U32): (w: nat)
    ensures w <= 262
  {
    59 + If(Has(mask, 0), 25 + ExtraWidth(e.unitType))
    + If(Has(mask, 1), 52) + If(Has(mask, 3), 52) + If(Has(mask, 5), 10)
  }

  /** Bits the reader consumes for one entity. */
  function RecordWidth(mask: nat, kind: nat): nat {
    59 + If(Has(mask, 0), 25 + ExtraWidth(kind)) + GroupsWidthRead(mask)
  }

  lemma {:induction false} Vec3Width(v: Vec3, cfg: QuantConfig)
    requires cfg.headerBits == 4 && QuantizedBits(cfg, 15) == 16 && Usable(cfg, 15) && FullPriority(cfg) == 15
    ensures TotalWidth(Vec3Fields(v, cfg)) == 52
  {
    var fs := Vec3Fields(v, cfg);
    ShortWidths(fs[0], fs[1], fs[2], fs[3]);
    assert fs == [fs[0], fs[1], fs[2], fs[3]];
  }

  lemma {:induction false} DefinitionWidth(e: Entity)
    ensures TotalWidth(DefinitionFields(e)) == 25 + ExtraWidth(e.unitType)
  {
    var three := [LowByte(e.unitType), LowByte(e.team), LowByte(e.team)];
    ShortWidths(three[0], three[1], three[2], Flag(true));
    ShortWidths(Int32(0), Int32(0), Int32(0), Int32(0));
    ShortWidths(LowByte(e.cargoUnitType), Flag(true), Flag(true), Flag(true));
    ShortWidths(Flag(true), Flag(true), Flag(true), Flag(true));
    TotalWidthConcat(three, ExtraFields(e));
    TotalWidthConcat(three + ExtraFields(e), [Flag(true)]);
  }

  lemma {:induction false} EntityFieldsWidth(e: Entity, mask: U32)
    ensures TotalWidth(EntityFields(e, mask)) == EntityWidth(e, mask)
  {
    var head := HeadFields(e, mask);
    var def := if Has(mask, 0) then DefinitionFields(e) else [];
    ShortWidths(head[0], head[1], head[2], head[3]);
    DefinitionWidth(e);
    GroupsWidth(e, mask);
    TotalWidthConcat(head, def);
    TotalWidthConcat(head + def, GroupFields(e, mask));
  }

  lemma {:induction false} GroupsWidth(e: Entity, mask: U32)
    ensures TotalWidth(GroupFields(e, mask)) == If(Has(mask, 1), 52) + If(Has(mask, 3), 52) + If(Has(mask, 5), 10)
  {
    hide Vec3Fields, Quantize, BitAt;
    var pos := if Has(mask, 1) then PosFields(e) else [];
    var rot := if Has(mask, 3) then RotFields(e) else [];
    var health := if Has(mask, 5) then [StatField(e.health)] else [];
    ConfigFacts();
    ShortWidths(StatField(e.health), Flag(true), Flag(true), Flag(true));
    Vec3Width(e.pos, POS_CONFIG);
    Vec3Width(e.rot, ROT_CONFIG);
    TotalWidthConcat(pos, rot);
    TotalWidthConcat(pos + rot, health);
  }

  /** c' is c after consuming n bits, unless reading has failed. */
  predicate Consumed(c: Cursor, c': Cursor, n: nat) {
    !c'.failed ==> !c.failed && |c.rest| == |c'.rest| + n
  }

  lemma {:induction false} LevelsConsumed(c: Cursor, present: bool)
    ensures Consumed(c, TakeMaybeLevels(c, present).0, If(present, 52))
  {
  }

  lemma {:induction false} DefinitionConsumed(c: Cursor)
    ensures var (c', kind, _) := TakeDefinition(c); Consumed(c, c', 25 + ExtraWidth(kind))
  {
  }

  lemma {:induction false} TakeConsumed(c: Cursor, n: nat)
    ensures Consumed(c, Take(c, n).0, n)
  {
  }

  lemma {:induction false} VectorsConsumed(c: Cursor, mask: nat)
    ensures Consumed(c, TakeVectors(c, mask).0,
                     If(Has(mask, 1), 52) + If(Has(mask, 2), 52) + If(Has(mask, 3), 52) + If(Has(mask, 4), 52))
  {
    LevelsConsumed(c, Has(mask, 1));
    var c1 := TakeMaybeLevels(c, Has(mask, 1)).0;
    LevelsConsumed(c1, Has(mask, 2));
    var c2 := TakeMaybeLevels(c1, Has(mask, 2)).0;
    LevelsConsumed(c2, Has(mask, 3));
    LevelsConsumed(TakeMaybeLevels(c2, Has(mask, 3)).0, Has(mask, 4));
  }

  lemma {:induction false} ScalarsConsumed(c: Cursor, mask: nat)
    ensures Consumed(c, TakeScalars(c, mask).0, If(Has(mask, 5), 10) + If(Has(mask, 7), 10) + If(Has(mask, 8), 32))
  {
    var c1 := Take(c, If(Has(mask, 5), 10)).0;
    TakeConsumed(c, If(Has(mask, 5), 10));
    TakeConsumed(c1, If(Has(mask, 7), 10));
    TakeConsumed(Take(c1, If(Has(mask, 7), 10)).0, If(Has(mask, 8), 32));
  }

  function GroupsWidthRead(mask: nat): nat {
    If(Has(mask, 1), 52) + If(Has(mask, 2), 52) + If(Has(mask, 3), 52) + If(Has(mask, 4), 52)
    + (If(Has(mask, 5), 10) + If(Has(mask, 7), 10) + If(Has(mask, 8), 32))
  }

  lemma {:induction false} GroupsConsumed(c: Cursor, mask: nat)
    ensures Consumed(c, TakeGroups(c, mask).0, GroupsWidthRead(mask))
  {
    VectorsConsumed(c, mask);
    ScalarsConsumed(TakeVectors(c, mask).0, mask);
  }

  lemma {:induction false} HeadConsumed(c: Cursor)
    ensures Consumed(c, TakeHead(c).0, 59)
  {
  }

  lemma {:induction false} EntityConsumed(c: Cursor)
    ensures var (c', r) := TakeEntity(c); Consumed(c, c', RecordWidth(r.mask, r.kind))
  {
    var (c1, _, _, mask) := TakeHead(c);
    HeadConsumed(c);
    DefinitionConsumed(c1);
    var (c2, kind, _) := if Has(mask, 0) then TakeDefinition(c1) else (c1, 0, 0);
    assert Consumed(c1, c2, If(Has(mask, 0), 25 + ExtraWidth(kind)));
    GroupsConsumed(c2, mask);
    ConsumedTwice(c, c1, c2, TakeGroups(c2, mask).0, 59, If(Has(mask, 0), 25 + ExtraWidth(kind)),
        GroupsWidthRead(mask));
  }

  lemma {:induction false} ConsumedTwice(c: Cursor, c1: Cursor, c2: Cursor, c3: Cursor, k: nat, m: nat, n: nat)
    requires Consumed(c, c1, k) && Consumed(c1, c2, m) && Consumed(c2, c3, n)
    ensures Consumed(c, c3, k + m + n)
  {
  }

  /** Mask and kind are read before anything can shift. */
  lemma {:induction false} EntityHeadSeen(c: Cursor, e: Entity, mask: U32, rest: seq<bool>)
    requires At(c, EntityFields(e, mask), 0, rest)
    ensures TakeEntity(c).1.mask == mask % 0x400
    ensures Has(mask, 0) ==> TakeEntity(c).1.kind == Kind(e)
  {
    var head, groups := HeadFields(e, mask), GroupFields(e, mask);
    var def := if Has(mask, 0) then DefinitionFields(e) else [];
    FromConcat(head + def, groups, rest);
    FromConcat(head, def, From(groups, 0, rest));
    HeadAt(c, e, mask, From(def, 0, From(groups, 0, rest)));
    MaskSeen(mask, 0);
    if Has(mask, 0) {
      DefinitionStart(TakeHead(c).0, e, From(groups, 0, rest));
    }
  }

  lemma {:induction false} WiderUnlessInSync(e: Entity, mask: U32)
    requires !InSync(e, mask)
    ensures RecordWidth(mask % 0x400, Kind(e)) > EntityWidth(e, mask)
  {
    forall i | 0 <= i < 10 ensures Has(mask % 0x400, i) == Has(mask, i) {
      MaskSeen(mask, i);
    }
  }

  /**
   The mask-driven reader gets a record back whole and stops on its last bit
   exactly when the record is in sync: no unsent group announced and, with a
   definition, no unit type whose low byte poses as a decoration or a cargo box.
   */
  lemma {:induction false} EntityRoundTrip(c: Cursor, e: Entity, mask: U32, rest: seq<bool>)
    requires At(c, EntityFields(e, mask), 0, rest)
    ensures InSync(e, mask) <==> TakeEntity(c).0 == Cursor(rest, false)
    ensures InSync(e, mask) ==> TakeEntity(c).1 == RecordOf(e, mask)
  {
    hide InSync, EntityFields, TakeEntity, EntityWidth, RecordOf, TotalWidth, BitAt;
    if InSync(e, mask) {
      EntityAt(c, e, mask, rest);
    } else {
      MaskSeen(mask, 0);
      WiderUnlessInSync(e, mask);
      EntityHeadSeen(c, e, mask, rest);
      EntityConsumed(c);
      EntityFieldsWidth(e, mask);
      FromLength(EntityFields(e, mask), 0, |EntityFields(e, mask)|, rest);
      var all := EntityFields(e, mask);
      assert all[0..|all|] == all;
    }
  }

  // ---- What a client sees ------------------------------------------------------------------

  /** Zero is seen exactly; anything else clamped and less than one step higher. */
  predicate Within(got: real, value: real, cfg: QuantConfig, step: real) {
    if value == 0.0 then got == 0.0 else 0.0 <= got - Clamped(value, cfg) < step
  }

  function Seen(l: Levels, cfg: QuantConfig): Vec3
    requires QuantizedBits(cfg, 15) == 16
  {
    Vec3(Dequantize(l.x, cfg, 15), Dequantize(l.y, cfg, 15), Dequantize(l.z, cfg, 15))
  }

  predicate VecWithin(got: Vec3, v: Vec3, cfg: QuantConfig, step: real) {
    Within(got.x, v.x, cfg, step) && Within(got.y, v.y, cfg, step) && Within(got.z, v.z, cfg, step)
  }

  lemma {:induction false} ValueSeen(value: real, cfg: QuantConfig, priority: nat)
    requires Proper(cfg, priority)
    ensures Steps(QuantizedBits(cfg, priority)) > 0.0
    ensures Within(Dequantize(Quantize(value, cfg, priority), cfg, priority), value, cfg,
                   Scale(1.0, cfg.range, Steps(QuantizedBits(cfg, priority))))
  {
    hide Quantize, Dequantize, Clamped, Scale;
    StepsPositive(QuantizedBits(cfg, priority));
    QuantizeLevels(value, cfg, priority);
    if value != 0.0 {
      QuantizeError(value, cfg, priority);
    } else {
      ZeroSeen(cfg, priority);
    }
  }

  lemma {:induction false} ZeroSeen(cfg: QuantConfig, priority: nat)
    requires Proper(cfg, priority)
    ensures Dequantize(0, cfg, priority) == 0.0
  {
  }

  lemma {:induction false} VecSeen(v: Vec3, cfg: QuantConfig)
    requires QuantizedBits(cfg, 15) == 16 && cfg.range > 0.0
    ensures VecWithin(Seen(LevelsOf(v, cfg), cfg), v, cfg, Scale(1.0, cfg.range, 65534.0))
  {
    hide Quantize, Dequantize, Within, Scale;
    Pow2Values();
    ValueSeen(v.x, cfg, 15);
    ValueSeen(v.y, cfg, 15);
    ValueSeen(v.z, cfg, 15);
  }

  /**
   From a record in sync the client decodes position and rotation to less than one
   step of 16384/65534 and 12.6/65534, and health to less than 1/1022, above the
   clamped values the server has.
   */
  lemma {:induction false} EntitySeen(c: Cursor, e: Entity, mask: U32, rest: seq<bool>)
    requires At(c, EntityFields(e, mask), 0, rest) && InSync(e, mask)
    ensures QuantizedBits(POS_CONFIG, 15) == QuantizedBits(ROT_CONFIG, 15) == 16
    ensures var r := TakeEntity(c).1;
            && (Has(mask, 1) ==>
              r.pos.Some? && VecWithin(Seen(r.pos.value, POS_CONFIG), e.pos, POS_CONFIG, Scale(1.0, 16384.0, 65534.0)))
            && (Has(mask, 3) ==>
              r.rot.Some? && VecWithin(Seen(r.rot.value, ROT_CONFIG), e.rot, ROT_CONFIG, Scale(1.0, 12.6, 65534.0)))
            && (Has(mask, 5) ==>
              r.health.Some? && Within(Dequantize(r.health.value, STAT_CONFIG, 0), e.health, STAT_CONFIG,
                                                          Scale(1.0, 1.0, 1022.0)))
  {
    hide InSync, EntityFields, TakeEntity, BitAt, VecWithin, Within, Seen, LevelsOf, Scale, Quantize, Dequantize;
    ConfigFacts();
    Pow2Values();
    EntityAt(c, e, mask, rest);
    VecSeen(e.pos, POS_CONFIG);
    VecSeen(e.rot, ROT_CONFIG);
    ValueSeen(e.health, STAT_CONFIG, 0);
  }

  lemma {:induction false} NotInSync()
    ensures !InSync(DEFAULT_ENTITY, 4) && !InSync(DEFAULT_ENTITY.(unitType := 0x100 + DECORATION), MASK_FULL)
  {
    assert Shr(4, 2) == 1 && Shr(MASK_FULL, 0) == MASK_FULL;
  }

  /**
   A mask announcing group 2, which the writer skips, and a type 256 above a
   decoration: the reader overruns both records.
   */
  lemma {:induction false} OutOfSyncExamples(c: Cursor, d: Cursor, rest: seq<bool>)
    requires At(c, EntityFields(DEFAULT_ENTITY, 4), 0, rest)
    requires At(d, EntityFields(DEFAULT_ENTITY.(unitType := 0x100 + DECORATION), MASK_FULL), 0, rest)
    ensures TakeEntity(c).0 != Cursor(rest, false) && TakeEntity(d).0 != Cursor(rest, false)
  {
    hide EntityFields, TakeEntity;
    NotInSync();
    EntityRoundTrip(c, DEFAULT_ENTITY, 4, rest);
    EntityRoundTrip(d, DEFAULT_ENTITY.(unitType := 0x100 + DECORATION), MASK_FULL, rest);
  }

  // ---- Whole packets ---------------------------------------------------------------------

  ghost predicate AllInSync(ws: seq<EntityWrite>) {
    forall i :: 0 <= i < |ws| ==> InSync(ws[i].entity, ws[i].mask)
  }

  function RecordsOf(ws: seq<EntityWrite>): (rs: seq<Record>)
    ensures |rs| == |ws|
  {
    seq(|ws|, i requires 0 <= i < |ws| => RecordOf(ws[i].entity, ws[i].mask))
  }

  lemma {:induction false} RecordsCons(ws: seq<EntityWrite>)
    requires ws != []
    ensures RecordsOf(ws) == [RecordOf(ws[0].entity, ws[0].mask)] + RecordsOf(ws[1..])
  {
    assert forall i :: 1 <= i < |ws| ==> ws[i] == ws[1..][i - 1];
  }

  lemma {:induction false} TakeEntitiesStep(c: Cursor, n: nat, c': Cursor)
    requires n > 0 && TakeEntity(c).0 == c'
    ensures TakeEntities(c, n) == (TakeEntities(c', n - 1).0, [TakeEntity(c).1] + TakeEntities(c', n - 1).1)
  {
  }

  /** Every record starts where the one before it ended, and the last ends the list. */
  lemma {:induction false} ListAt(c: Cursor, ws: seq<EntityWrite>, rest: seq<bool>)
    requires AllInSync(ws) && At(c, ListFields(ws), 0, rest)
    ensures TakeEntities(c, |ws|) == (Cursor(rest, false), RecordsOf(ws))
    decreases |ws|
  {
    hide TakeEntity, EntityFields, RecordOf;
    if ws != [] {
      var first := EntityFields(ws[0].entity, ws[0].mask);
      var after := From(ListFields(ws[1..]), 0, rest);
      FromConcat(first, ListFields(ws[1..]), rest);
      EntityAt(c, ws[0].entity, ws[0].mask, after);
      ListAt(Cursor(after, false), ws[1..], rest);
      TakeEntitiesStep(c, |ws|, Cursor(after, false));
      RecordsCons(ws);
    }
  }

  datatype Update = Update(opcode: Byte, timestamp: Option<I32>, sequence: I32,
                           health: nat, energy: nat, records: seq<Record>)

  function TakeStats(c: Cursor): (Cursor, nat, nat) {
    var (c1, present) := Take(c, 1);
    if present == 0 then (c1, 0, 0)
    else
      var (c2, health) := Take(Take(c1, 5).0, 10);
      var (c3, energy) := Take(c2, 10);
      (c3, health, energy)
  }

  /** The part behind opcode and timestamp, and the cursor at its end. */
  function TakeBody(c: Cursor, opcode: Byte, timestamp: Option<I32>): (Cursor, Update) {
    var (c1, sequence) := ReadI32(c);
    var (c2, health, energy) := TakeStats(c1);
    var (c3, count) := Take(c2, 8);
    var (c4, records) := TakeEntities(c3, count);
    (c4, Update(opcode, timestamp, sequence.GetOr(0), health, energy, records))
  }

  /** The client's reading of a raw update datagram; nothing if it is not one or runs short. */
  function ReadDatagram(bytes: seq<Byte>): Option<Update> {
    var (c1, op) := ReadByte(Start(bytes));
    if op != Some(Opcodes.UPDATE_ARRAY) && op != Some(Opcodes.VIEW_UPDATE) then None
    else if op.value == Opcodes.VIEW_UPDATE then
      var (c2, ts) := ReadI32(c1);
      var (c3, u) := TakeBody(c2, op.value, ts);
      if c3.failed then None else Some(u)
    else
      var (c3, u) := TakeBody(c1, op.value, None);
      if c3.failed then None else Some(u)
  }

  lemma {:induction false} StatsAt(c: Cursor, health: real, energy: real, count: nat, rest: seq<bool>)
    requires count <= 255 && At(c, StatsFields(health, energy, count), 0, rest)
    ensures TakeStats(c).1 == Quantize(health, STAT_CONFIG, 0) && TakeStats(c).2 == Quantize(energy, STAT_CONFIG, 0)
    ensures Take(TakeStats(c).0, 8) == (Cursor(rest, false), count)
  {
    hide Take, From, Quantize, StatField, Pow2;
    var fs := StatsFields(health, energy, count);
    Pow2Values();
    TakeAt(c, fs, 0, rest);
    var c1 := Take(c, 1).0;
    TakeAt(c1, fs, 1, rest);
    var c2 := Take(c1, 5).0;
    StatAt(c2, health, fs, 2, rest);
    StatAt(Take(c2, 10).0, energy, fs, 3, rest);
    TakeAt(TakeStats(c).0, fs, 4, rest);
    AtEnd(Take(TakeStats(c).0, 8).0, fs, rest);
  }

  /** What a reader gets from a body holding these writes. */
  function UpdateOf(opcode: Byte, timestamp: Option<I32>, sequence: int,
                    ws: seq<EntityWrite>, health: real, energy: real): Update {
    Update(opcode, timestamp, SignExtend(sequence % 0x1_0000_0000),
           Quantize(health, STAT_CONFIG, 0), Quantize(energy, STAT_CONFIG, 0), RecordsOf(Cut(ws)))
  }

  lemma {:induction false} BodyAt(c: Cursor, opcode: Byte, timestamp: Option<I32>, sequence: int,
               ws: seq<EntityWrite>, health: real, energy: real, rest: seq<bool>)
    requires AllInSync(Cut(ws)) && At(c, BodyFields(sequence, ws, health, energy), 0, rest)
    ensures TakeBody(c, opcode, timestamp)
            == (Cursor(rest, false), UpdateOf(opcode, timestamp, sequence, ws, health, energy))
  {
    var seqno, stats, list := [Int32(sequence)], StatsFields(health, energy, |Cut(ws)|), ListFields(Cut(ws));
    var after := From(list, 0, rest);
    FromConcat(seqno + stats, list, rest);
    FromConcat(seqno, stats, after);
    ReadI32At(c, seqno, 0, From(stats, 0, after), sequence);
    StatsAt(ReadI32(c).0, health, energy, |Cut(ws)|, after);
    ListAt(Cursor(after, false), Cut(ws), rest);
  }

  /**
   Datagram round trip: whatever the list and the masks, as long as the records
   that survive the cut are in sync, the client reads back the header, both stat
   levels and every surviving record.
   */
  lemma {:induction false} DatagramRoundTrip(timestamp: Option<I32>, sequence: I32, ws: seq<EntityWrite>,
                                             health: real, energy: real)
    requires AllInSync(Cut(ws))
    ensures var opcode := if timestamp.Some? then Opcodes.VIEW_UPDATE else Opcodes.UPDATE_ARRAY;
            ReadDatagram(Payload(UpdateFields(opcode, timestamp, sequence, ws, health, energy)))
            == Some(Update(opcode, timestamp, sequence, Quantize(health, STAT_CONFIG, 0),
                           Quantize(energy, STAT_CONFIG, 0), RecordsOf(Cut(ws))))
  {
    var opcode := if timestamp.Some? then Opcodes.VIEW_UPDATE else Opcodes.UPDATE_ARRAY;
    var fs := UpdateFields(opcode, timestamp, sequence, ws, health, energy);
    var pad := Zeros(Padding(TotalWidth(fs)));
    var c := Start(Payload(fs));
    AtStart(fs);
    UpdatePrefixAt(c, opcode, timestamp, sequence, ws, health, energy, pad);
    var c1 := ReadByte(c).0;
    var c2 := if timestamp.Some? then ReadI32(c1).0 else c1;
    BodyAt(c2, opcode, timestamp, sequence, ws, health, energy, pad);
    SignExtendInverse(sequence);
  }

  lemma {:induction false} UpdatePrefixAt(c: Cursor, opcode: Byte, timestamp: Option<I32>, sequence: int,
                       ws: seq<EntityWrite>, health: real, energy: real, rest: seq<bool>)
    requires At(c, UpdateFields(opcode, timestamp, sequence, ws, health, energy), 0, rest)
    ensures ReadByte(c).1 == Some(opcode)
    ensures var c1 := ReadByte(c).0;
            var c2 := if timestamp.Some? then ReadI32(c1).0 else c1;
            && (timestamp.Some? ==> ReadI32(c1).1 == timestamp)
            && At(c2, BodyFields(sequence, ws, health, energy), 0, rest)
  {
    hide ReadByte, ReadI32, BodyFields;
    var op, ts := [Octet(opcode)], if timestamp.Some? then [Int32(timestamp.value)] else [];
    var body := BodyFields(sequence, ws, health, energy);
    FromConcat(op + ts, body, rest);
    FromConcat(op, ts, From(body, 0, rest));
    ReadByteAt(c, op, 0, From(ts, 0, From(body, 0, rest)));
    if timestamp.Some? {
      ReadI32At(ReadByte(c).0, ts, 0, From(body, 0, rest), timestamp.value);
    }
  }

  lemma {:induction false} ListWidth(ws: seq<EntityWrite>)
    ensures TotalWidth(ListFields(ws)) <= 262 * |ws|
  {
    if ws != [] {
      EntityFieldsWidth(ws[0].entity, ws[0].mask);
      ListWidth(ws[1..]);
      TotalWidthConcat(EntityFields(ws[0].entity, ws[0].mask), ListFields(ws[1..]));
    }
  }

  lemma {:induction false} BodyWidth(sequence: int, ws: seq<EntityWrite>, health: real, energy: real)
    ensures TotalWidth(BodyFields(sequence, ws, health, energy)) <= 66 + 262 * 255
  {
    var stats := StatsFields(health, energy, |Cut(ws)|);
    ShortWidths(stats[0], stats[1], stats[2], stats[3]);
    ShortWidths(stats[4], stats[4], stats[4], stats[4]);
    ShortWidths(Int32(sequence), stats[4], stats[4], stats[4]);
    assert stats == [stats[0], stats[1], stats[2], stats[3]] + [stats[4]];
    TotalWidthConcat([stats[0], stats[1], stats[2], stats[3]], [stats[4]]);
    ListWidth(Cut(ws));
    TotalWidthConcat([Int32(sequence)], stats);
    TotalWidthConcat([Int32(sequence)] + stats, ListFields(Cut(ws)));
  }

  /** Snapshot size: for any entity list the framed snapshot is a frame, of at most 8368 bytes and never empty. */
  lemma {:induction false} SnapshotFits(sequence: int, entities: seq<Entity>, health: real, energy: real)
    ensures var fs := SnapshotFields(sequence, entities, health, energy);
            && |Payload(fs)| <= 8365
            && Framing.Sendable(Framing.Frame(Opcodes.VIEW_UPDATE, Payload(fs)))
            && |Framing.Framed(Opcodes.VIEW_UPDATE, fs)| == |Payload(fs)| + 3
  {
    var fs := SnapshotFields(sequence, entities, health, energy);
    var body := BodyFields(sequence, AllFull(entities), health, energy);
    BodyWidth(sequence, AllFull(entities), health, energy);
    ShortWidths(Int32(sequence), Int32(0), Int32(0), Int32(0));
    TotalWidthConcat([Int32(sequence)], body);
    PayloadLength(fs);
  }

  /** The client's reading of a snapshot frame. */
  function ReadSnapshot(body: seq<Byte>): Option<Update> {
    var (c1, ts) := ReadI32(Start(body));
    var (c2, u) := TakeBody(c1, Opcodes.VIEW_UPDATE, ts);
    if c2.failed then None else Some(u)
  }

  /** Snapshot round trip: the client reads every entity of the first 255 with its definition, and both stat levels. */
  lemma {:induction false} SnapshotRoundTrip(sequence: I32, entities: seq<Entity>, health: real, energy: real)
    requires AllInSync(Cut(AllFull(entities)))
    ensures ReadSnapshot(Payload(SnapshotFields(sequence, entities, health, energy)))
            == Some(Update(Opcodes.VIEW_UPDATE, Some(sequence), sequence, Quantize(health, STAT_CONFIG, 0),
                           Quantize(energy, STAT_CONFIG, 0), RecordsOf(Cut(AllFull(entities)))))
  {
    hide BodyFields, TakeBody, From, ReadI32, AllInSync, SignExtend;
    var ws := AllFull(entities);
    var body := BodyFields(sequence, ws, health, energy);
    var fs := SnapshotFields(sequence, entities, health, energy);
    var pad := Zeros(Padding(TotalWidth(fs)));
    var c := Start(Payload(fs));
    AtStart(fs);
    FromConcat([Int32(sequence)], body, pad);
    ReadI32At(c, [Int32(sequence)], 0, From(body, 0, pad), sequence);
    AtEnd(ReadI32(c).0, [Int32(sequence)], From(body, 0, pad));
    BodyAt(ReadI32(c).0, Opcodes.VIEW_UPDATE, Some(sequence), sequence, ws, health, energy, pad);
    SignExtendInverse(sequence);
  }
}
