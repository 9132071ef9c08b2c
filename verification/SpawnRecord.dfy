/**
 The spawn notice: a client reading the TANK_SPAWN it is sent learns the id, the
 team and, within half a unit of fixed point, the place of its own tank. The reader
 skips the vitals that are always included and takes six coordinates, three of the
 place and three of the heading, in units of 1/65536.
 */
module SpawnRecord {
  import opened Bits
  import opened Cursors
  import opened BitStream
  import opened Framing
  import opened EntityCodec
  import opened Queues
  import opened Packets
  import opened Bridge
  import Opcodes

  /** A client's view of a spawn notice; coordinates in units of 1/65536. */
  datatype Notice = Notice(sequence: int, unitType: int, netId: int, team: Byte, place: seq<int>)

  function TakeFixed(c: Cursor, n: nat): (Cursor, seq<int>)
    decreases n
  {
    if n == 0 then (c, [])
    else
      var (c1, v) := ReadI32(c);
      var (c2, more) := TakeFixed(c1, n - 1);
      (c2, [v.GetOr(0)] + more)
  }

  /** The reader of TANK_SPAWN with vitals. */
  function ReadNotice(f: Frame): Option<Notice> {
    var (c1, sequence) := ReadI32(Start(f.body));
    var (c2, vitals) := Read(c1, 1);
    var c3 := Read(c2, 5).0;
    var c4 := Read(c3, 10).0;
    var c5 := Read(c4, 10).0;
    var (c6, unitType) := ReadI32(c5);
    var (c7, netId) := ReadI32(c6);
    var (c8, team) := ReadByte(c7);
    var (c9, place) := TakeFixed(c8, 6);
    if c9.failed || f.opcode != Opcodes.TANK_SPAWN || vitals != Some(1) then None
    else Some(Notice(sequence.GetOr(0), unitType.GetOr(0), netId.GetOr(0), team.GetOr(0), place))
  }

  /** What a client reads for these values. */
  function ReadBacks(values: seq<real>): (raw: seq<int>)
    ensures |raw| == |values|
  {
    seq(|values|, i requires 0 <= i < |values| => ReadBack(values[i]))
  }

  /** Every coordinate within half a unit of the last place. */
  ghost predicate Near(raw: seq<int>, exact: seq<real>) {
    |raw| == |exact| && forall i :: 0 <= i < |raw| ==> HalfUnit(raw[i], exact[i])
  }

  ghost predicate AllRepresentable(values: seq<real>) {
    forall i :: 0 <= i < |values| ==> Representable(values[i])
  }

  lemma {:induction false} NearExact(values: seq<real>)
    ensures Near(ReadBacks(values), values) <==> AllRepresentable(values)
  {
    hide HalfUnit, ReadBack, Representable;
    forall i | 0 <= i < |values| ensures HalfUnit(ReadBacks(values)[i], values[i]) <==> Representable(values[i]) {
      HalfUnitExact(values[i]);
    }
  }

  lemma {:induction false} FixedAt(c: Cursor, fs: seq<Field>, k: nat, tail: seq<bool>, values: seq<real>)
    requires At(c, fs, k, tail) && k + |values| == |fs|
    requires forall i :: 0 <= i < |values| ==> fs[k + i] == Fixed1616(values[i])
    ensures var (c', raw) := TakeFixed(c, |values|); At(c', fs, |fs|, tail) && raw == ReadBacks(values)
    decreases |values|
  {
    hide From, Read, ReadI32, Int32, Round, ReadBack, HalfUnit, Representable;
    if values != [] {
      var x, rest := values[0], values[1..];
      assert fs[k] == fs[k + 0];
      Fixed1616Accuracy(x, c, fs, k, tail);
      forall i | 0 <= i < |rest| ensures fs[k + 1 + i] == Fixed1616(rest[i]) {
        assert rest[i] == values[i + 1] && fs[k + 1 + i] == fs[k + (i + 1)];
      }
      FixedAt(ReadI32(c).0, fs, k + 1, tail, rest);
      assert ReadBacks(values) == [ReadBack(x)] + ReadBacks(rest);
    } else {
      assert ReadBacks(values) == [];
    }
  }

  function Low32(v: int): I32 {
    SignExtend(v % 0x1_0000_0000)
  }

  /** The vitals between sequence number and unit type are skipped whole. */
  lemma {:induction false} VitalsAt(c: Cursor, fs: seq<Field>, tail: seq<bool>)
    requires |fs| >= 5 && At(c, fs, 1, tail) && fs[1] == Flag(true) && fs[2].width == 5 && fs[3].width == 10 &&
             fs[4].width == 10
    ensures Read(c, 1).1 == Some(1)
    ensures At(Read(Read(Read(Read(c, 1).0, 5).0, 10).0, 10).0, fs, 5, tail)
  {
    hide From, Read;
    assert Pow2(1) == 2;
    ReadAt(c, fs, 1, tail);
    var c1 := Read(c, 1).0;
    ReadAt(c1, fs, 2, tail);
    var c2 := Read(c1, 5).0;
    ReadAt(c2, fs, 3, tail);
    ReadAt(Read(c2, 10).0, fs, 4, tail);
  }

  lemma {:induction false} NoticeRead(sequence: int, netId: int, unitType: int, team: int, pos: seq<real>,
                                      rot: seq<real>)
    requires |pos| == |rot| == 3
    ensures var body := Payload(TankSpawnFields(sequence, netId, unitType, team, pos, rot));
            ReadNotice(Frame(Opcodes.TANK_SPAWN, body))
            == Some(Notice(Low32(sequence), Low32(unitType), Low32(netId), team % 0x100, ReadBacks(pos + rot)))
  {
    hide From, Read, ReadI32, ReadByte, Encode, Payload, TakeFixed, Fixed1616, SignExtend, ReadBacks;
    var fs := TankSpawnFields(sequence, netId, unitType, team, pos, rot);
    var tail := Zeros(Padding(TotalWidth(fs)));
    var c := Start(Payload(fs));
    AtStart(fs);
    ReadI32At(c, fs, 0, tail, sequence);
    var c1 := ReadI32(c).0;
    VitalsAt(c1, fs, tail);
    var c5 := Read(Read(Read(Read(c1, 1).0, 5).0, 10).0, 10).0;
    ReadI32At(c5, fs, 5, tail, unitType);
    var c6 := ReadI32(c5).0;
    ReadI32At(c6, fs, 6, tail, netId);
    var c7 := ReadI32(c6).0;
    ReadByteAt(c7, fs, 7, tail);
    var values := pos + rot;
    forall i | 0 <= i < 6 ensures fs[8 + i] == Fixed1616(values[i]) {
      assert i < 3 ==> values[i] == pos[i];
      assert i >= 3 ==> values[i] == rot[i - 3];
    }
    FixedAt(ReadByte(c7).0, fs, 8, tail, values);
  }

  lemma {:induction false} NoticeWidth(sequence: int, netId: int, unitType: int, team: int, pos: seq<real>,
                                       rot: seq<real>)
    requires |pos| == |rot| == 3
    ensures |Payload(TankSpawnFields(sequence, netId, unitType, team, pos, rot))| <= 65532
  {
    hide Payload, Encode;
    var fs := TankSpawnFields(sequence, netId, unitType, team, pos, rot);
    SmallFields(fs);
    PayloadLength(fs);
  }

  lemma {:induction false} SmallFields(fs: seq<Field>)
    requires forall i :: 0 <= i < |fs| ==> fs[i].width <= 32
    ensures TotalWidth(fs) <= 32 * |fs|
  {
    if fs != [] {
      SmallFields(fs[1..]);
    }
  }

  /** Place and heading of an entity. */
  function Place(e: Entity): seq<real> {
    [e.pos.x, e.pos.y, e.pos.z, e.rot.x, e.rot.y, e.rot.z]
  }

  /**
   The first thing a spawning session is sent is one TANK_SPAWN frame, whatever is
   spawned where. From it the client reads the sequence, and the id and team that
   the bridge now keeps for its tank whenever they fit their fields; it reads the
   place to within 1/131072 if and only if every scaled coordinate fits 32 bits.
   */
  lemma {:induction false} SpawnTold(w: World, id: nat, pad: Entity, sequence: U32, reply: Option<int>)
    requires id in w.sessions
    ensures var (w', out) := SpawnOnPadOf(w, id, pad, sequence, reply);
            && id in w'.sessions && out != [] && out[0].sessionId == id && out[0].reliable
            && IsFrames(out[0].bytes) && |Parse(out[0].bytes).frames| == 1
            && var e, n := w'.sessions[id].entity, ReadNotice(Parse(out[0].bytes).frames[0]);
               && n.Some? && n.value.sequence == SignExtend(sequence)
               && n.value.netId == Low32(e.netId) && n.value.team == e.team % 0x100 && n.value.unitType == e.unitType
               && (-0x8000_0000 <= e.netId < 0x8000_0000 <==> n.value.netId == e.netId)
               && (0 <= e.team < 0x100 <==> n.value.team == e.team)
               && (Near(n.value.place, Place(e)) <==> AllRepresentable(Place(e)))
  {
    hide Near, ReadNotice, TankSpawnFields, Parse, Payload, ToAll, Ascending, SpawnPosition, IsFrames, AllRepresentable,
      ReadBacks;
    var e := SpawnedEntity(w, id, pad, reply);
    var pos, rot := [e.pos.x, e.pos.y, e.pos.z], [e.rot.x, e.rot.y, e.rot.z];
    assert pos + rot == Place(e);
    NoticeRead(sequence, e.netId, e.unitType, e.team, pos, rot);
    NearExact(Place(e));
    NoticeWidth(sequence, e.netId, e.unitType, e.team, pos, rot);
    FramedParse(Opcodes.TANK_SPAWN, TankSpawnFields(sequence, e.netId, e.unitType, e.team, pos, rot));
  }
}
