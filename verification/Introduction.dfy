/**
 Introduction discipline: the first record of an entity sent to a session
 carries its definition, every later one only position and rotation. Stated on
 what a client decodes from the datagrams it is sent.
 */
module Introduction {
  import opened Bits
  import opened Quantization
  import opened Framing
  import opened EntityCodec
  import opened Queues
  import opened Packets
  import opened Bridge
  import opened History
  import Opcodes

  // ---- What a client decodes ----------------------------------------------------------------

  function RecordsIn(m: Message): seq<Record> {
    if m.reliable then []
    else
      var u := ReadDatagram(m.bytes);
      if u.None? then [] else u.value.records
  }

  /** Every record decoded by a session from its datagrams, in order. */
  function RecordsTo(msgs: seq<Message>, id: nat): seq<Record> {
    if msgs == [] then []
    else
      var m := msgs[|msgs| - 1];
      RecordsTo(msgs[..|msgs| - 1], id) + if m.sessionId == id then RecordsIn(m) else []
  }

  function Ids(rs: seq<Record>): (ids: seq<int>)
    ensures |ids| == |rs|
  {
    seq(|rs|, i requires 0 <= i < |rs| => rs[i].netId)
  }

  /** First sight carries the full mask, every later sight position and rotation only. */
  ghost predicate Disciplined(rs: seq<Record>) {
    forall i :: 0 <= i < |rs| ==> rs[i].mask == MaskFor(Ids(rs[..i]), rs[i].netId)
  }

  ghost predicate NoDuplicates(s: seq<int>) {
    forall i, j :: 0 <= i < j < |s| ==> s[i] != s[j]
  }

  ghost predicate SameElements(a: seq<int>, b: seq<int>) {
    forall x :: x in a <==> x in b
  }

  /** The session's memory is exactly what its client has been told, under the discipline. */
  ghost predicate Remembers(introduced: seq<int>, rs: seq<Record>) {
    Disciplined(rs) && NoDuplicates(introduced) && SameElements(introduced, Ids(rs))
  }

  // ---- Appending records --------------------------------------------------------------------------

  lemma {:induction false} IdsConcat(a: seq<Record>, b: seq<Record>)
    ensures Ids(a + b) == Ids(a) + Ids(b)
  {
  }

  lemma {:induction false} RecordsToConcat(a: seq<Message>, b: seq<Message>, id: nat)
    ensures RecordsTo(a + b, id) == RecordsTo(a, id) + RecordsTo(b, id)
    decreases |b|
  {
    hide RecordsIn;
    if b == [] {
      assert a + b == a && RecordsTo(a, id) + [] == RecordsTo(a, id);
    } else {
      var n := |b| - 1;
      assert (a + b)[..|a| + n] == a + b[..n];
      RecordsToConcat(a, b[..n], id);
      ConcatAssoc(RecordsTo(a, id), RecordsTo(b[..n], id), if b[n].sessionId == id then RecordsIn(b[n]) else []);
    }
  }

  /** A record sent under the mask the memory calls for keeps memory and client in step. */
  lemma {:induction false} RecordRemembered(introduced: seq<int>, rs: seq<Record>, r: Record)
    requires Remembers(introduced, rs) && r.mask == MaskFor(introduced, r.netId)
    ensures Remembers(Introduce(introduced, r.netId), rs + [r])
  {
    var all := rs + [r];
    IdsConcat(rs, [r]);
    assert Ids([r]) == [r.netId];
    forall i | 0 <= i < |all| ensures all[i].mask == MaskFor(Ids(all[..i]), all[i].netId) {
      assert all[..i] == if i < |rs| then rs[..i] else rs;
    }
  }

  // ---- What a round of snapshots writes -------------------------------------------------------------

  /** An entity whose record survives the wire: a 32-bit id and an unambiguous type. */
  predicate OnWire(e: Entity) {
    -0x8000_0000 <= e.netId < 0x8000_0000 && KindClear(e)
  }

  ghost predicate AllOnWire(es: seq<Entity>) {
    forall i :: 0 <= i < |es| ==> OnWire(es[i])
  }

  lemma {:induction false} MasksInSync(e: Entity, mask: U32)
    requires OnWire(e) && (mask == MASK_FULL || mask == MASK_POS_ROT)
    ensures InSync(e, mask) && RecordOf(e, mask).netId == e.netId && RecordOf(e, mask).mask == mask
  {
    SignExtendInverse(e.netId);
    assert Shr(43, 2) == 10 && Shr(43, 4) == 2 && Shr(43, 7) == 0 && Shr(43, 8) == 0;
    assert Shr(10, 2) == 2 && Shr(10, 4) == 0 && Shr(10, 7) == 0 && Shr(10, 8) == 0 && Shr(10, 0) == 10;
  }

  /** Writes whose entities survive the wire and whose masks are one of the two in use. */
  ghost predicate GoodWrites(ws: seq<EntityWrite>) {
    forall i :: 0 <= i < |ws| ==> OnWire(ws[i].entity) && (ws[i].mask == MASK_FULL || ws[i].mask == MASK_POS_ROT)
  }

  lemma {:induction false} GoodWritesInSync(ws: seq<EntityWrite>)
    requires GoodWrites(ws)
    ensures AllInSync(ws)
    ensures forall i :: 0 <= i < |ws| ==>
            RecordsOf(ws)[i].netId == ws[i].entity.netId && RecordsOf(ws)[i].mask == ws[i].mask
  {
    hide InSync, RecordOf;
    forall i | 0 <= i < |ws| ensures InSync(ws[i].entity, ws[i].mask) {
      MasksInSync(ws[i].entity, ws[i].mask);
    }
    forall i | 0 <= i < |ws|
      ensures RecordsOf(ws)[i].netId == ws[i].entity.netId && RecordsOf(ws)[i].mask == ws[i].mask
    {
      MasksInSync(ws[i].entity, ws[i].mask);
    }
  }

  lemma {:induction false} DecodedOthers(id: nat, sequence: U32, ws: seq<EntityWrite>)
    requires GoodWrites(ws)
    ensures RecordsIn(OthersMessage(id, sequence, ws)) == RecordsOf(Cut(ws))
    ensures ReadDatagram(OthersMessage(id, sequence, ws).bytes).Some?
    ensures ReadDatagram(OthersMessage(id, sequence, ws).bytes).value.opcode == Opcodes.UPDATE_ARRAY
  {
    hide InSync, UpdateFields, RecordsOf, ReadDatagram;
    GoodWritesInSync(Cut(ws));
    DatagramRoundTrip(None, SignExtend(sequence), ws, 1.0, 1.0);
  }

  lemma {:induction false} DecodedSelf(id: nat, sequence: U32, ts: I32, self: EntityWrite)
    requires GoodWrites([self])
    ensures RecordsIn(SelfMessage(id, sequence, ts, self)) == [RecordOf(self.entity, self.mask)]
    ensures ReadDatagram(SelfMessage(id, sequence, ts, self).bytes).Some?
    ensures ReadDatagram(SelfMessage(id, sequence, ts, self).bytes).value.opcode == Opcodes.VIEW_UPDATE
    ensures ReadDatagram(SelfMessage(id, sequence, ts, self).bytes).value.timestamp == Some(ts)
  {
    hide InSync, UpdateFields, ReadDatagram, RecordOf;
    assert Cut([self]) == [self];
    GoodWritesInSync([self]);
    assert RecordsOf([self]) == [RecordOf(self.entity, self.mask)];
    DatagramRoundTrip(Some(ts), SignExtend(sequence), [self], self.entity.health, self.entity.energy);
  }

  // ---- The list of others ---------------------------------------------------------------------------

  function OtherEntities(dynamic: seq<Entity>, selfId: int): seq<Entity> {
    if dynamic == [] then []
    else
      OtherEntities(dynamic[..|dynamic| - 1], selfId)
      + if dynamic[|dynamic| - 1].netId == selfId then [] else [dynamic[|dynamic| - 1]]
  }

  function WriteIds(ws: seq<EntityWrite>): (ids: seq<int>)
    ensures |ids| == |ws|
  {
    seq(|ws|, i requires 0 <= i < |ws| => ws[i].entity.netId)
  }

  /**
   The written entities are the other dynamic ones, all of them, in order, each under
   the mask its place calls for.
   */
  lemma {:induction false} OthersListed(dynamic: seq<Entity>, selfId: int, introduced: seq<int>)
    requires AllOnWire(dynamic)
    ensures var (ws, seen) := Others(dynamic, selfId, introduced);
            && |ws| == |OtherEntities(dynamic, selfId)|
            && (forall i :: 0 <= i < |ws| ==>
              ws[i].entity == OtherEntities(dynamic, selfId)[i] && ws[i].entity.netId != selfId)
            && GoodWrites(ws)
  {
    hide OnWire;
    if dynamic != [] {
      OthersListed(dynamic[..|dynamic| - 1], selfId, introduced);
    }
  }

  /** The memory after writing a list, entry by entry. */
  function IntroduceAll(introduced: seq<int>, ids: seq<int>): seq<int> {
    if ids == [] then introduced else Introduce(IntroduceAll(introduced, ids[..|ids| - 1]), ids[|ids| - 1])
  }

  lemma {:induction false} OthersMasks(dynamic: seq<Entity>, selfId: int, introduced: seq<int>)
    ensures var (ws, seen) := Others(dynamic, selfId, introduced);
            && seen == IntroduceAll(introduced, WriteIds(ws))
            && forall i :: 0 <= i < |ws| ==>
                 ws[i].mask == MaskFor(IntroduceAll(introduced, WriteIds(ws)[..i]), ws[i].entity.netId)
  {
    if dynamic != [] {
      var n := |dynamic| - 1;
      OthersMasks(dynamic[..n], selfId, introduced);
      var (ws, seen) := Others(dynamic[..n], selfId, introduced);
      var e := dynamic[n];
      if e.netId != selfId {
        var all := ws + [EntityWrite(e, MaskFor(seen, e.netId))];
        assert WriteIds(all) == WriteIds(ws) + [e.netId];
        assert WriteIds(all)[..|ws|] == WriteIds(ws);
        forall i | 0 <= i < |all|
          ensures all[i].mask == MaskFor(IntroduceAll(introduced, WriteIds(all)[..i]), all[i].entity.netId)
        {
          if i < |ws| {
            assert WriteIds(all)[..i] == WriteIds(ws)[..i];
          }
        }
      }
    }
  }

  lemma {:induction false} IntroduceAllElements(introduced: seq<int>, ids: seq<int>)
    ensures forall x :: x in IntroduceAll(introduced, ids) <==> x in introduced || x in ids
    ensures NoDuplicates(introduced) ==> NoDuplicates(IntroduceAll(introduced, ids))
  {
    if ids != [] {
      IntroduceAllElements(introduced, ids[..|ids| - 1]);
      assert ids == ids[..|ids| - 1] + [ids[|ids| - 1]];
    }
  }

  lemma {:induction false} IntroduceLast(introduced: seq<int>, ids: seq<int>)
    requires ids != []
    ensures IntroduceAll(introduced, ids) == Introduce(IntroduceAll(introduced, ids[..|ids| - 1]), ids[|ids| - 1])
  {
  }

  lemma {:induction false} IntroduceNone(introduced: seq<int>)
    ensures IntroduceAll(introduced, []) == introduced
  {
  }

  /** Writes sent in full keep memory and client in step. */
  lemma {:induction false} WritesRemembered(introduced: seq<int>, rs: seq<Record>, ws: seq<EntityWrite>)
    requires Remembers(introduced, rs) && GoodWrites(ws)
    requires forall i :: 0 <= i < |ws| ==>
             ws[i].mask == MaskFor(IntroduceAll(introduced, WriteIds(ws)[..i]), ws[i].entity.netId)
    ensures Remembers(IntroduceAll(introduced, WriteIds(ws)), rs + RecordsOf(ws))
    decreases |ws|
  {
    hide Remembers, RecordOf, OnWire, IntroduceAll, Introduce;
    if ws == [] {
      IntroduceNone(introduced);
      assert WriteIds(ws) == [];
      assert rs + RecordsOf(ws) == rs;
    } else {
      var n := |ws| - 1;
      var init := ws[..n];
      assert WriteIds(ws)[..n] == WriteIds(init);
      IntroduceLast(introduced, WriteIds(ws));
      forall i | 0 <= i < n
        ensures init[i].mask == MaskFor(IntroduceAll(introduced, WriteIds(init)[..i]), init[i].entity.netId)
      {
        assert WriteIds(init)[..i] == WriteIds(ws)[..i];
      }
      WritesRemembered(introduced, rs, init);
      GoodWritesInSync(ws);
      var r := RecordsOf(ws)[n];
      RecordRemembered(IntroduceAll(introduced, WriteIds(init)), rs + RecordsOf(init), r);
      assert RecordsOf(ws) == RecordsOf(init) + [r];
      ConcatAssoc(rs, RecordsOf(init), [r]);
    }
  }

  // ---- One emission --------------------------------------------------------------------------------------

  predicate InGame(s: Session) {
    s.wantsUpdates && s.spawned
  }

  /** The entities of this round that are not the session's own, with their masks. */
  function OthersFor(s: Session, dynamic: seq<Entity>): seq<EntityWrite> {
    Others(dynamic, s.entity.netId, s.introduced).0
  }

  lemma {:induction false} SelfFound(dynamic: seq<Entity>, selfId: int)
    ensures SelfIn(dynamic, selfId).Some? ==>
            SelfIn(dynamic, selfId).value in dynamic && SelfIn(dynamic, selfId).value.netId == selfId
  {
    if dynamic != [] {
      SelfFound(dynamic[..|dynamic| - 1], selfId);
    }
  }

  /** The session's own record of a round: the world's copy of its tank, else the one it was given. */
  function SelfWrite(s: Session, dynamic: seq<Entity>): EntityWrite {
    var selfId := s.entity.netId;
    EntityWrite(SelfIn(dynamic, selfId).GetOr(s.entity), MaskFor(Others(dynamic, selfId, s.introduced).1, selfId))
  }

  lemma {:induction false} SelfWriteFacts(s: Session, dynamic: seq<Entity>)
    requires AllOnWire(dynamic) && OnWire(s.entity)
    ensures SelfWrite(s, dynamic).mask == MASK_FULL || SelfWrite(s, dynamic).mask == MASK_POS_ROT
    ensures SelfWrite(s, dynamic).entity.netId == s.entity.netId && GoodWrites([SelfWrite(s, dynamic)])
    ensures OnWire(SelfWrite(s, dynamic).entity)
  {
    hide Others;
    SelfFound(dynamic, s.entity.netId);
  }

  lemma {:induction false} EmissionMessages(id: nat, s: Session, statics: seq<Entity>, dynamic: seq<Entity>,
                                            sequence: U32, ts: I32)
    requires InGame(s)
    ensures var others, self := OthersFor(s, dynamic), SelfMessage(id, sequence, ts, SelfWrite(s, dynamic));
            EmitSessionOf(id, s, statics, dynamic, sequence, ts).1
            == if others == [] then [self] else [OthersMessage(id, sequence, others), self]
  {
    hide Others, SelfIn, OthersMessage, SelfMessage;
  }

  lemma {:induction false} EmissionRecords(id: nat, s: Session, statics: seq<Entity>, dynamic: seq<Entity>,
                                           sequence: U32, ts: I32)
    requires InGame(s) && AllOnWire(dynamic) && OnWire(s.entity)
    ensures var out := EmitSessionOf(id, s, statics, dynamic, sequence, ts).1;
            var self := SelfWrite(s, dynamic);
            && RecordsTo(out, id) == RecordsOf(Cut(OthersFor(s, dynamic))) + [RecordOf(self.entity, self.mask)]
            && |out| == (if OthersFor(s, dynamic) == [] then 1 else 2)
  {
    hide RecordsIn, RecordOf, Others, SelfWrite, GoodWrites, OthersMessage, SelfMessage, OnWire, RecordsOf, RecordsTo,
      EmitSessionOf;
    EmissionMessages(id, s, statics, dynamic, sequence, ts);
    OthersListed(dynamic, s.entity.netId, s.introduced);
    var others, self := OthersFor(s, dynamic), SelfWrite(s, dynamic);
    SelfWriteFacts(s, dynamic);
    DecodedOthers(id, sequence, others);
    DecodedSelf(id, sequence, ts, self);
    Addressed(id, sequence, ts, others, self);
    TwoMessages(OthersMessage(id, sequence, others), SelfMessage(id, sequence, ts, self), id);
    if others == [] {
      assert RecordsOf(Cut(others)) == [];
      assert [] + [RecordOf(self.entity, self.mask)] == [RecordOf(self.entity, self.mask)];
    }
  }

  /** The ids of everything one round sends: the others up to the cut, then the session's own. */
  lemma {:induction false} EmissionIds(id: nat, s: Session, statics: seq<Entity>, dynamic: seq<Entity>, sequence: U32,
                                       ts: I32)
    requires InGame(s) && AllOnWire(dynamic) && OnWire(s.entity)
    ensures var out := EmitSessionOf(id, s, statics, dynamic, sequence, ts).1;
            var listed := OtherEntities(dynamic, s.entity.netId);
            var n := Min(|listed|, 255);
            && |out| == (if listed == [] then 1 else 2)
            && |RecordsTo(out, id)| == n + 1
            && (forall i :: 0 <= i < n ==> RecordsTo(out, id)[i].netId == listed[i].netId != s.entity.netId)
            && RecordsTo(out, id)[n].netId == s.entity.netId
  {
    hide RecordsIn, RecordOf, Others, SelfIn, OnWire, RecordsTo, EmitSessionOf;
    EmissionRecords(id, s, statics, dynamic, sequence, ts);
    OthersListed(dynamic, s.entity.netId, s.introduced);
    var others, self := OthersFor(s, dynamic), SelfWrite(s, dynamic);
    SelfWriteFacts(s, dynamic);
    CutGood(others);
    GoodWritesInSync(Cut(others));
    MasksInSync(self.entity, self.mask);
  }

  /** r is e's record, with its definition or with position and rotation only. */
  ghost predicate RecordFor(r: Record, e: Entity) {
    r.netId == e.netId && (r == RecordOf(e, MASK_FULL) || r == RecordOf(e, MASK_POS_ROT))
  }

  /** An 0x0E datagram from which the client reads the listed entities, in order, up to 255, and full stats. */
  ghost predicate ListsOthers(m: Message, id: nat, sequence: U32, listed: seq<Entity>) {
    && m.sessionId == id && !m.reliable
    && var u := ReadDatagram(m.bytes);
       && u.Some? && u.value.opcode == Opcodes.UPDATE_ARRAY && u.value.timestamp == None
       && u.value.sequence == SignExtend(sequence) && |u.value.records| == Min(|listed|, 255)
       && u.value.health == u.value.energy == Quantize(1.0, STAT_CONFIG, 0)
       && forall i :: 0 <= i < |u.value.records| ==> RecordFor(u.value.records[i], listed[i])
  }

  /** An 0x0F datagram from which the client reads the clock, exactly this entity, and its health and energy. */
  ghost predicate ShowsSelf(m: Message, id: nat, sequence: U32, ts: I32, self: Entity) {
    && m.sessionId == id && !m.reliable
    && var u := ReadDatagram(m.bytes);
       && u.Some? && u.value.opcode == Opcodes.VIEW_UPDATE && u.value.timestamp == Some(ts)
       && u.value.sequence == SignExtend(sequence) && |u.value.records| == 1
       && u.value.health == Quantize(self.health, STAT_CONFIG, 0)
       && u.value.energy == Quantize(self.energy, STAT_CONFIG, 0)
       && RecordFor(u.value.records[0], self)
  }

  lemma {:induction false} OthersRead(id: nat, s: Session, dynamic: seq<Entity>, sequence: U32)
    requires AllOnWire(dynamic)
    ensures ListsOthers(OthersMessage(id, sequence, OthersFor(s, dynamic)), id, sequence,
                        OtherEntities(dynamic, s.entity.netId))
  {
    hide Others, RecordOf, OnWire, ReadDatagram, Payload, UpdateFields, AllInSync, InSync, Quantize;
    var ws, listed := OthersFor(s, dynamic), OtherEntities(dynamic, s.entity.netId);
    OthersListed(dynamic, s.entity.netId, s.introduced);
    CutGood(ws);
    GoodWritesInSync(Cut(ws));
    DatagramRoundTrip(None, SignExtend(sequence), ws, 1.0, 1.0);
    var records := RecordsOf(Cut(ws));
    forall i | 0 <= i < |records| ensures RecordFor(records[i], listed[i]) {
      assert ws[i].entity == listed[i];
    }
  }

  lemma {:induction false} SelfRead(id: nat, s: Session, dynamic: seq<Entity>, sequence: U32, ts: I32)
    requires AllOnWire(dynamic) && OnWire(s.entity)
    ensures ShowsSelf(SelfMessage(id, sequence, ts, SelfWrite(s, dynamic)), id, sequence, ts,
                      SelfIn(dynamic, s.entity.netId).GetOr(s.entity))
  {
    hide Others, SelfIn, RecordOf, OnWire, ReadDatagram, Payload, UpdateFields, AllInSync, InSync, Quantize;
    var self := SelfWrite(s, dynamic);
    SelfWriteFacts(s, dynamic);
    assert Cut([self]) == [self];
    GoodWritesInSync([self]);
    DatagramRoundTrip(Some(ts), SignExtend(sequence), [self], self.entity.health, self.entity.energy);
    assert RecordsOf([self])[0] == RecordOf(self.entity, self.mask);
  }

  /**
   What one round sends an in-game session, datagram by datagram: unless there are
   no others, an 0x0E with every other dynamic entity in order, cut at 255, and
   always an 0x0F with the clock, exactly its own entity and its health and energy; the
   others are never its own.
   */
  lemma {:induction false} EmissionContents(id: nat, s: Session, statics: seq<Entity>, dynamic: seq<Entity>,
                                            sequence: U32, ts: I32)
    requires InGame(s) && AllOnWire(dynamic) && OnWire(s.entity)
    ensures var out := EmitSessionOf(id, s, statics, dynamic, sequence, ts).1;
            var listed := OtherEntities(dynamic, s.entity.netId);
            var self := SelfIn(dynamic, s.entity.netId).GetOr(s.entity);
            && (forall i :: 0 <= i < |listed| ==> listed[i].netId != s.entity.netId) && self.netId == s.entity.netId
            && (listed == [] ==> |out| == 1 && ShowsSelf(out[0], id, sequence, ts, self))
            && (listed != [] ==>
              |out| == 2 && ListsOthers(out[0], id, sequence, listed) && ShowsSelf(out[1], id, sequence, ts, self))
  {
    hide Others, SelfIn, OnWire, ListsOthers, ShowsSelf, EmitSessionOf, OthersMessage, SelfMessage;
    EmissionMessages(id, s, statics, dynamic, sequence, ts);
    OthersListed(dynamic, s.entity.netId, s.introduced);
    OthersRead(id, s, dynamic, sequence);
    SelfRead(id, s, dynamic, sequence, ts);
    SelfWriteFacts(s, dynamic);
  }

  lemma {:induction false} CutGood(ws: seq<EntityWrite>)
    requires GoodWrites(ws)
    ensures GoodWrites(Cut(ws))
  {
    hide OnWire;
  }

  lemma {:induction false} Addressed(id: nat, sequence: U32, ts: I32, others: seq<EntityWrite>, self: EntityWrite)
    ensures OthersMessage(id, sequence, others).sessionId == SelfMessage(id, sequence, ts, self).sessionId == id
  {
  }

  lemma {:induction false} TwoMessages(a: Message, b: Message, id: nat)
    requires a.sessionId == id && b.sessionId == id
    ensures RecordsTo([b], id) == RecordsIn(b)
    ensures RecordsTo([a, b], id) == RecordsTo([a] + [b], id) == RecordsIn(a) + RecordsIn(b)
  {
    hide RecordsIn;
    assert [a, b] == [a] + [b];
    assert RecordsTo([], id) == [];
    assert [b][..0] == [] && [a][..0] == [];
    RecordsToConcat([a], [b], id);
  }

  // ---- Memory and client across one emission -----------------------------------------------------------

  /** Nothing that the 255-entity cut drops is being introduced by this very list. */
  ghost predicate NothingLost(s: Session, dynamic: seq<Entity>) {
    var ws := OthersFor(s, dynamic);
    forall i :: 255 <= i < |ws| ==> ws[i].entity.netId in s.introduced || ws[i].entity.netId in WriteIds(Cut(ws))
  }

  /** What the client has been told after a round, up to the cut. */
  lemma {:induction false} CutRemembered(s: Session, dynamic: seq<Entity>, rs: seq<Record>)
    requires Remembers(s.introduced, rs) && AllOnWire(dynamic)
    ensures var ws := Cut(OthersFor(s, dynamic));
            Remembers(IntroduceAll(s.introduced, WriteIds(ws)), rs + RecordsOf(ws))
  {
    hide Remembers, Others, OnWire, RecordOf;
    var ws := OthersFor(s, dynamic);
    OthersListed(dynamic, s.entity.netId, s.introduced);
    OthersMasks(dynamic, s.entity.netId, s.introduced);
    var cut := Cut(ws);
    forall i | 0 <= i < |cut|
      ensures cut[i].mask == MaskFor(IntroduceAll(s.introduced, WriteIds(cut)[..i]), cut[i].entity.netId)
    {
      assert WriteIds(cut)[..i] == WriteIds(ws)[..i];
    }
    CutGood(ws);
    WritesRemembered(s.introduced, rs, cut);
  }

  lemma {:induction false} SameMemory(a: seq<int>, b: seq<int>, rs: seq<Record>)
    requires Remembers(a, rs) && NoDuplicates(b) && SameElements(a, b)
    ensures Remembers(b, rs)
  {
  }

  /**
   The discipline across one round, exactly: memory and client stay in step if
   and only if no entity beyond the 255th is first met in this very list.
   */
  lemma {:induction false} EmissionKeepsDiscipline(id: nat, s: Session, statics: seq<Entity>, dynamic: seq<Entity>,
                                                   sequence: U32, ts: I32, rs: seq<Record>)
    requires InGame(s) && AllOnWire(dynamic) && OnWire(s.entity) && Remembers(s.introduced, rs)
    ensures var (s', out) := EmitSessionOf(id, s, statics, dynamic, sequence, ts);
            Remembers(s'.introduced, rs + RecordsTo(out, id)) <==> NothingLost(s, dynamic)
  {
    hide Remembers, Others, OnWire, RecordOf, EmitSessionOf, SelfIn, RecordsTo, IntroduceAll, RecordsOf;
    var ws, self := OthersFor(s, dynamic), SelfWrite(s, dynamic);
    var cut := Cut(ws);
    var told := rs + RecordsOf(cut);
    CutRemembered(s, dynamic, rs);
    EmissionRecords(id, s, statics, dynamic, sequence, ts);
    SelfWriteFacts(s, dynamic);
    MasksInSync(self.entity, self.mask);
    var r := RecordOf(self.entity, self.mask);
    ConcatAssoc(rs, RecordsOf(cut), [r]);
    MemoryAfter(id, s, statics, dynamic, sequence, ts);
    OthersMasks(dynamic, s.entity.netId, s.introduced);
    OthersListed(dynamic, s.entity.netId, s.introduced);
    var sent, seen := IntroduceAll(s.introduced, WriteIds(cut)), IntroduceAll(s.introduced, WriteIds(ws));
    NoDuplicatesOf(s.introduced, rs);
    IntroduceAllElements(s.introduced, WriteIds(cut));
    IntroduceAllElements(s.introduced, WriteIds(ws));
    CutIds(ws);
    if NothingLost(s, dynamic) {
      assert SameElements(sent, seen);
      SameMemory(sent, seen, told);
      RecordRemembered(seen, told, r);
    } else {
      var i :| 255 <= i < |ws| && ws[i].entity.netId !in s.introduced && ws[i].entity.netId !in WriteIds(cut);
      var x := ws[i].entity.netId;
      assert WriteIds(ws)[i] == x && x in seen && x !in sent;
      NotTold(sent, told, r, x);
      Forgotten(EmitSessionOf(id, s, statics, dynamic, sequence, ts).0.introduced, told + [r], x);
    }
  }

  lemma {:induction false} MemoryAfter(id: nat, s: Session, statics: seq<Entity>, dynamic: seq<Entity>, sequence: U32,
                                       ts: I32)
    requires InGame(s)
    ensures var (ws, seen) := Others(dynamic, s.entity.netId, s.introduced);
            && SelfWrite(s, dynamic).mask == MaskFor(seen, s.entity.netId)
            && EmitSessionOf(id, s, statics, dynamic, sequence, ts).0
              == s.(introduced := Introduce(seen, s.entity.netId))
  {
    hide Others, SelfIn, OthersMessage, SelfMessage;
  }

  lemma {:induction false} NoDuplicatesOf(introduced: seq<int>, rs: seq<Record>)
    requires Remembers(introduced, rs)
    ensures NoDuplicates(introduced)
  {
  }

  lemma {:induction false} CutIds(ws: seq<EntityWrite>)
    ensures forall x :: x in WriteIds(Cut(ws)) ==> x in WriteIds(ws)
    ensures forall x :: x in WriteIds(ws) ==>
            x in WriteIds(Cut(ws)) || exists i :: 255 <= i < |ws| && ws[i].entity.netId == x
  {
    var n := Min(|ws|, 255);
    assert WriteIds(Cut(ws)) == WriteIds(ws)[..n];
    forall x | x in WriteIds(ws)
      ensures x in WriteIds(Cut(ws)) || exists i :: 255 <= i < |ws| && ws[i].entity.netId == x
    {
      var i :| 0 <= i < |ws| && WriteIds(ws)[i] == x;
      if i < n {
        assert WriteIds(Cut(ws))[i] == x;
      }
    }
  }

  lemma {:induction false} NotTold(sent: seq<int>, told: seq<Record>, r: Record, x: int)
    requires Remembers(sent, told) && x !in sent && x != r.netId
    ensures x !in Ids(told + [r])
  {
    IdsConcat(told, [r]);
    assert Ids([r]) == [r.netId];
  }

  lemma {:induction false} Forgotten(introduced: seq<int>, rs: seq<Record>, x: int)
    requires x in introduced && x !in Ids(rs)
    ensures !Remembers(introduced, rs)
  {
  }

  // ---- Every run ---------------------------------------------------------------------------------------

  lemma {:induction false} OnlyToSelf(id: nat, s: Session, statics: seq<Entity>, dynamic: seq<Entity>, sequence: U32,
                                      ts: I32, other: nat)
    requires other != id
    ensures RecordsTo(EmitSessionOf(id, s, statics, dynamic, sequence, ts).1, other) == []
  {
    hide Others, SelfIn, RecordsIn;
    var out := EmitSessionOf(id, s, statics, dynamic, sequence, ts).1;
    NotAddressed(out, other);
  }

  lemma {:induction false} NotAddressed(msgs: seq<Message>, id: nat)
    requires forall i :: 0 <= i < |msgs| ==> msgs[i].sessionId != id || msgs[i].reliable
    ensures RecordsTo(msgs, id) == []
  {
    if msgs != [] {
      NotAddressed(msgs[..|msgs| - 1], id);
    }
  }

  /** A session not in the game is sent no record and forgets nothing. */
  lemma {:induction false} OutOfGame(id: nat, s: Session, statics: seq<Entity>, dynamic: seq<Entity>, sequence: U32,
                                     ts: I32)
    requires !InGame(s)
    ensures EmitSessionOf(id, s, statics, dynamic, sequence, ts).0 == s
    ensures RecordsTo(EmitSessionOf(id, s, statics, dynamic, sequence, ts).1, id) == []
  {
    NotAddressed(EmitSessionOf(id, s, statics, dynamic, sequence, ts).1, id);
  }

  /** In a round each session is served once, from its own record. */
  lemma {:induction false} EmitAllOne(sessions: map<nat, Session>, ids: seq<nat>, statics: seq<Entity>,
                                      dynamic: seq<Entity>,
                                      sequence: U32, ts: I32, id: nat)
    requires id in sessions && forall i :: 0 <= i < |ids| ==> ids[i] in sessions
    requires forall i, j :: 0 <= i < j < |ids| ==> ids[i] < ids[j]
    ensures var (after, out) := EmitAllOf(sessions, ids, statics, dynamic, sequence, ts);
            var (s, own) := EmitSessionOf(id, sessions[id], statics, dynamic, sequence, ts);
            && after[id] == (if id in ids then s else sessions[id])
            && RecordsTo(out, id) == (if id in ids then RecordsTo(own, id) else [])
  {
    hide EmitSessionOf, RecordsTo;
    if ids == [] {
      assert RecordsTo([], id) == [] by { NotAddressed([], id); }
    } else {
      var n := |ids| - 1;
      assert ids == ids[..n] + [ids[n]];
      EmitAllOne(sessions, ids[..n], statics, dynamic, sequence, ts, id);
      EmitAllOne(sessions, ids[..n], statics, dynamic, sequence, ts, ids[n]);
      var (done, out) := EmitAllOf(sessions, ids[..n], statics, dynamic, sequence, ts);
      var more := EmitSessionOf(ids[n], done[ids[n]], statics, dynamic, sequence, ts).1;
      RecordsToConcat(out, more, id);
      if ids[n] != id {
        OnlyToSelf(ids[n], done[ids[n]], statics, dynamic, sequence, ts, id);
      }
    }
  }

  ghost predicate AllReliable(msgs: seq<Message>) {
    forall i :: 0 <= i < |msgs| ==> msgs[i].reliable
  }

  lemma {:induction false} BroadcastsReliable(ids: seq<nat>, except: nat, bytes: seq<Byte>)
    ensures AllReliable(ToPeers(ids, except, bytes)) && AllReliable(ToAll(ids, bytes))
  {
    if ids != [] {
      BroadcastsReliable(ids[..|ids| - 1], except, bytes);
    }
  }

  lemma {:induction false} IntroductionsReliable(ids: seq<nat>, sessions: map<nat, Session>, joined: nat)
    requires joined in sessions && forall i :: 0 <= i < |ids| ==> ids[i] in sessions
    ensures AllReliable(Introductions(ids, sessions, joined))
  {
    hide AddToRoster;
    if ids != [] {
      IntroductionsReliable(ids[..|ids| - 1], sessions, joined);
    }
  }

  /** Commands send no datagram and leave every memory alone; a newcomer starts with none. */
  lemma {:induction false} CommandQuiet(w: World, e: Event)
    requires e.Command?
    ensures var (w', out) := EventOf(w, e);
            && AllReliable(out)
            && (forall id :: id in w.sessions && id in w'.sessions ==>
              w'.sessions[id].introduced == w.sessions[id].introduced)
            && (Joins(w, e) ==> w'.sessions[e.cmd.sessionId].introduced == [])
  {
    hide Ascending, ToPeers, ToAll, Introductions, ReincarnateResult, UpdateStatsFramed, TankSpawnOf, BirthNotice,
      ResolveSpawnPad;
    var cmd := e.cmd;
    if Joins(w, e) {
      var after := AddSessionOf(w, cmd).0.sessions;
      IntroductionsReliable(Ascending(after.Keys), after, cmd.sessionId);
    } else if cmd.kind.Reincarnate? && cmd.sessionId in w.sessions {
      var pid := w.sessions[cmd.sessionId].playerId;
      BroadcastsReliable(Ascending(w.sessions.Keys), cmd.sessionId, UpdateStatsFramed(pid, cmd.team));
      BroadcastsReliable(Ascending(w.sessions.Keys), cmd.sessionId, BirthNotice(pid));
    }
  }

  /** All entities of a round survive the wire. */
  ghost predicate RoundOnWire(w: World, e: Event) {
    e.Snapshots? ==>
      AllOnWire(Dynamic(w, e.provided)) &&
      forall id :: id in w.sessions && InGame(w.sessions[id]) ==> OnWire(w.sessions[id].entity)
  }

  /** No list of a round drops an entity it was about to introduce. */
  ghost predicate RoundLosesNothing(w: World, e: Event) {
    e.Snapshots? ==>
      forall id :: id in w.sessions && InGame(w.sessions[id]) ==> NothingLost(w.sessions[id], Dynamic(w, e.provided))
  }

  /** Every live session's memory is exactly what its client decoded since it joined, under the discipline. */
  ghost predicate AllRemember(h: History) {
    Aligned(h) && forall id :: id in h.world.sessions ==>
      Remembers(h.world.sessions[id].introduced, RecordsTo(Since(h, id), id))
  }

  lemma {:induction false} CommandRemembered(h: History, e: Event)
    requires AllRemember(h) && e.Command?
    ensures AllRemember(Step(h, e))
  {
    hide EventOf, Remembers, RecordsTo;
    CommandQuiet(h.world, e);
    StepAligned(h, e);
    SessionsAfter(h.world, e);
    var h', out := Step(h, e), EventOf(h.world, e).1;
    forall id | id in h'.world.sessions
      ensures Remembers(h'.world.sessions[id].introduced, RecordsTo(Since(h', id), id))
    {
      NotAddressed(out, id);
      if id in h.world.sessions {
        RecordsToConcat(Since(h, id), out, id);
        assert RecordsTo(Since(h, id), id) + [] == RecordsTo(Since(h, id), id);
      } else {
        NothingYet();
      }
    }
  }

  lemma {:induction false} NothingYet()
    ensures Remembers([], [])
  {
  }

  /** One session across a round of snapshots. */
  lemma {:induction false} RoundForOne(h: History, e: Event, id: nat)
    requires AllRemember(h) && e.Snapshots? && RoundOnWire(h.world, e) && id in h.world.sessions
    ensures id in Step(h, e).world.sessions && id in Step(h, e).joinedAt && Step(h, e).joinedAt[id] <= |Step(h, e).log|
    ensures Remembers(Step(h, e).world.sessions[id].introduced, RecordsTo(Since(Step(h, e), id), id))
            <==> (InGame(h.world.sessions[id]) ==> NothingLost(h.world.sessions[id], Dynamic(h.world, e.provided)))
  {
    hide Remembers, RecordsTo, EmitSessionOf, NothingLost, Dynamic, EmitAllOf, OnWire;
    StepAligned(h, e);
    SessionsAfter(h.world, e);
    var w, s := h.world, h.world.sessions[id];
    var ids, dynamic := Ascending(w.sessions.Keys), Dynamic(w, e.provided);
    AscendingFacts(w.sessions.Keys);
    EmitAllOne(w.sessions, ids, w.statics, dynamic, e.sequence, e.ts, id);
    var out := EventOf(w, e).1;
    RecordsToConcat(Since(h, id), out, id);
    var rs := RecordsTo(Since(h, id), id);
    if InGame(s) {
      EmissionKeepsDiscipline(id, s, w.statics, dynamic, e.sequence, e.ts, rs);
    } else {
      OutOfGame(id, s, w.statics, dynamic, e.sequence, e.ts);
      assert rs + [] == rs;
    }
  }

  /** One event, exactly: everybody's memory stays right if and only if no list loses an introduction. */
  lemma {:induction false} EventRemembered(h: History, e: Event)
    requires AllRemember(h) && RoundOnWire(h.world, e)
    ensures AllRemember(Step(h, e)) <==> RoundLosesNothing(h.world, e)
  {
    hide Remembers, EventOf, NothingLost, Dynamic, RecordsTo, OnWire;
    if e.Command? {
      CommandRemembered(h, e);
    } else {
      StepAligned(h, e);
      SessionsAfter(h.world, e);
      forall id | id in h.world.sessions
        ensures Remembers(Step(h, e).world.sessions[id].introduced, RecordsTo(Since(Step(h, e), id), id))
                <==> (InGame(h.world.sessions[id]) ==> NothingLost(h.world.sessions[id], Dynamic(h.world, e.provided)))
      {
        RoundForOne(h, e, id);
      }
    }
  }

  function Before(w: World, events: seq<Event>, k: nat): World
    requires k <= |events|
  {
    Run(w, events[..k]).world
  }

  ghost predicate RunOnWire(w: World, events: seq<Event>) {
    forall k :: 0 <= k < |events| ==> RoundOnWire(Before(w, events, k), events[k])
  }

  ghost predicate RunLosesNothing(w: World, events: seq<Event>) {
    forall k :: 0 <= k < |events| ==> RoundLosesNothing(Before(w, events, k), events[k])
  }

  ghost predicate AlwaysRemember(w: World, events: seq<Event>) {
    forall k :: 0 <= k <= |events| ==> AllRemember(Run(w, events[..k]))
  }

  /**
   Introduction discipline over whole runs: at every moment every live client has
   seen each entity's definition first and only position and rotation after, with
   the session's memory equal to the ids sent, if and only if no round's list has
   an entity beyond the 255th that it is the first to mention.
   */
  lemma {:induction false} IntroductionDiscipline(w: World, events: seq<Event>)
    requires w.sessions == map[] && RunOnWire(w, events)
    ensures AlwaysRemember(w, events) <==> RunLosesNothing(w, events)
  {
    hide AllRemember, RoundLosesNothing, RoundOnWire, Run, Step, RunOnWire, RunLosesNothing;
    if events == [] {
      NoEvents(w, events);
    } else {
      var n := |events| - 1;
      var init, e := events[..n], events[n];
      PrefixOnWire(w, events);
      IntroductionDiscipline(w, init);
      RunSnoc(w, init, e);
      assert events == init + [e];
      PrefixSplit(w, events);
      if AllRemember(Run(w, init)) {
        EventRemembered(Run(w, init), e);
      }
    }
  }

  lemma {:induction false} PrefixOnWire(w: World, events: seq<Event>)
    requires events != [] && RunOnWire(w, events)
    ensures var n := |events| - 1; RunOnWire(w, events[..n]) && RoundOnWire(Run(w, events[..n]).world, events[n])
  {
    hide RoundOnWire, Run;
    var n := |events| - 1;
    var init := events[..n];
    forall k | 0 <= k < n ensures RoundOnWire(Before(w, init, k), init[k]) {
      assert init[..k] == events[..k] && RoundOnWire(Before(w, events, k), events[k]);
    }
    assert RoundOnWire(Before(w, events, n), events[n]);
  }

  lemma {:induction false} PrefixSplit(w: World, events: seq<Event>)
    requires events != []
    ensures var n := |events| - 1;
            && (AlwaysRemember(w, events) <==> AlwaysRemember(w, events[..n]) && AllRemember(Run(w, events)))
            && (AlwaysRemember(w, events[..n]) ==> AllRemember(Run(w, events[..n])))
            && (RunLosesNothing(w, events) <==>
                RunLosesNothing(w, events[..n]) && RoundLosesNothing(Run(w, events[..n]).world, events[n]))
  {
    hide AllRemember, RoundLosesNothing, Run;
    var n := |events| - 1;
    assert forall k :: 0 <= k <= n ==> events[..n][..k] == events[..k];
    assert events[..n + 1] == events && events[..n][..n] == events[..n];
  }

  lemma {:induction false} NoEvents(w: World, events: seq<Event>)
    requires w.sessions == map[] && events == []
    ensures AlwaysRemember(w, events) && RunLosesNothing(w, events)
  {
    StartRemembers(w);
  }

  lemma {:induction false} StartRemembers(w: World)
    requires w.sessions == map[]
    ensures AllRemember(Run(w, []))
  {
  }

  /** With at most 255 others no list can lose anything. */
  lemma {:induction false} FewOthersSuffice(s: Session, dynamic: seq<Entity>)
    requires |dynamic| <= 255
    ensures NothingLost(s, dynamic)
  {
    OthersShort(dynamic, s.entity.netId, s.introduced);
  }

  lemma {:induction false} OthersShort(dynamic: seq<Entity>, selfId: int, introduced: seq<int>)
    ensures |Others(dynamic, selfId, introduced).0| <= |dynamic|
  {
    if dynamic != [] {
      OthersShort(dynamic[..|dynamic| - 1], selfId, introduced);
    }
  }

  /** So over whole runs: rounds of at most 255 dynamic entities keep every client in step for ever. */
  lemma {:induction false} FewOthersAlwaysRemember(w: World, events: seq<Event>)
    requires w.sessions == map[] && RunOnWire(w, events)
    requires forall k :: 0 <= k < |events| && events[k].Snapshots? ==>
             |Dynamic(Before(w, events, k), events[k].provided)| <= 255
    ensures AlwaysRemember(w, events)
  {
    hide Dynamic, NothingLost, RunOnWire, AlwaysRemember, Run;
    forall k | 0 <= k < |events| ensures RoundLosesNothing(Before(w, events, k), events[k]) {
      if events[k].Snapshots? {
        var before := Before(w, events, k);
        var dynamic := Dynamic(before, events[k].provided);
        forall id | id in before.sessions && InGame(before.sessions[id])
          ensures NothingLost(before.sessions[id], dynamic)
        {
          FewOthersSuffice(before.sessions[id], dynamic);
        }
      }
    }
    IntroductionDiscipline(w, events);
  }

  // ---- The entry map ---------------------------------------------------------------------------------------

  lemma {:induction false} FullInSync(entities: seq<Entity>)
    requires AllOnWire(entities)
    ensures GoodWrites(Cut(AllFull(entities))) && AllInSync(Cut(AllFull(entities)))
    ensures |Cut(AllFull(entities))| == Min(|entities|, 255)
    ensures forall i :: 0 <= i < |Cut(AllFull(entities))| ==>
            Cut(AllFull(entities))[i] == EntityWrite(entities[i], MASK_FULL)
  {
    hide OnWire, InSync;
    GoodWritesInSync(Cut(AllFull(entities)));
  }

  /**
   A session that wants updates and has not spawned gets one reliable frame per
   round, from which it reads the fixtures and then the dynamic entities, in order,
   each with its full definition, up to 255 of them; its memory is not touched.
   */
  lemma {:induction false} EntryMapContents(id: nat, s: Session, statics: seq<Entity>, dynamic: seq<Entity>,
                                            sequence: U32, ts: I32)
    requires s.wantsUpdates && !s.spawned && AllOnWire(statics + dynamic)
    ensures var (s', out) := EmitSessionOf(id, s, statics, dynamic, sequence, ts);
            && s' == s && |out| == 1 && out[0].sessionId == id && out[0].reliable
            && Parse(out[0].bytes).rest == [] && |Parse(out[0].bytes).frames| == 1
            && Parse(out[0].bytes).frames[0].opcode == Opcodes.VIEW_UPDATE
    ensures var bytes := EmitSessionOf(id, s, statics, dynamic, sequence, ts).1[0].bytes;
            var u := ReadSnapshot(Parse(bytes).frames[0].body);
            && u.Some? && |u.value.records| == Min(|statics + dynamic|, 255)
            && u.value.timestamp == Some(SignExtend(sequence)) && u.value.sequence == SignExtend(sequence)
            && u.value.health == u.value.energy == Quantize(1.0, STAT_CONFIG, 0)
            && forall i :: 0 <= i < |u.value.records| ==>
                 && u.value.records[i].netId == (statics + dynamic)[i].netId && u.value.records[i].mask == MASK_FULL
                 && u.value.records[i] == RecordOf((statics + dynamic)[i], MASK_FULL)
  {
    hide Parse, SnapshotFields, ReadSnapshot, RecordOf, OnWire, Cut, FrameBytes, AllInSync, GoodWrites, Payload;
    var full := statics + dynamic;
    var fs := SnapshotFields(SignExtend(sequence), full, 1.0, 1.0);
    FullInSync(full);
    SnapshotFits(SignExtend(sequence), full, 1.0, 1.0);
    OneFrame(Frame(Opcodes.VIEW_UPDATE, Payload(fs)));
    SnapshotRoundTrip(SignExtend(sequence), full, 1.0, 1.0);
    GoodWritesInSync(Cut(AllFull(full)));
  }
}
