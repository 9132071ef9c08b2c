/**
 A world that is too crowded: a run, from any map, in which one player joins,
 spawns and is shown 256 other entities, after which its client gets an entity
 it has never been told of without its definition. The run uses one session and
 what the engine may supply.
 */
module Crowd {
  import opened Bits
  import opened EntityCodec
  import opened Queues
  import opened Packets
  import opened Bridge
  import opened History
  import opened Introduction
  import Spawning

  function Crowd(n: nat): (es: seq<Entity>)
    ensures |es| == n
  {
    seq(n, i => DEFAULT_ENTITY.(netId := i + 2))
  }

  /** In the game under entity 1, and not yet shown anything. */
  ghost predicate Newcomer(s: Session) {
    InGame(s) && s.entity.netId == 1 && OnWire(s.entity) && s.introduced == []
  }

  // ---- Two rounds -------------------------------------------------------------------------------

  lemma {:induction false} CrowdListed(n: nat)
    ensures |Others(Crowd(n), 1, []).0| == n
    ensures forall i :: 0 <= i < n ==> Others(Crowd(n), 1, []).0[i].entity.netId == i + 2
  {
    if n > 0 {
      assert Crowd(n)[..n - 1] == Crowd(n - 1);
      CrowdListed(n - 1);
    }
  }

  lemma {:induction false} CrowdOnWire(n: nat)
    requires n <= 256
    ensures AllOnWire(Crowd(n))
  {
  }

  /** The last of 256 others is remembered but never sent, and its first record has no definition. */
  lemma {:induction false} LostInTheCrowd(id: nat, s: Session, statics: seq<Entity>, sequence: U32, ts: I32)
    requires Newcomer(s)
    ensures var (s1, out) := EmitSessionOf(id, s, statics, Crowd(256), sequence, ts);
            var out' := EmitSessionOf(id, s1, statics, [Crowd(256)[255]], sequence, ts).1;
            && 257 !in Ids(RecordsTo(out, id))
            && |RecordsTo(out', id)| == 2
            && RecordsTo(out', id)[0].netId == 257
            && RecordsTo(out', id)[0].mask == MASK_POS_ROT
  {
    hide EmitSessionOf, RecordsTo, RecordOf, Remembers, NothingLost, OnWire, Others;
    var crowd := Crowd(256);
    CrowdOnWire(256);
    CrowdListed(256);
    EmissionIds(id, s, statics, crowd, sequence, ts);
    OthersListed(crowd, 1, []);
    MemoryAfter(id, s, statics, crowd, sequence, ts);
    OthersMasks(crowd, 1, []);
    var ws := Others(crowd, 1, []).0;
    IntroduceAllElements([], WriteIds(ws));
    assert WriteIds(ws)[255] == 257;
    var s1 := EmitSessionOf(id, s, statics, crowd, sequence, ts).0;
    LateSight(id, s1, statics, crowd[255], sequence, ts);
  }

  /** An entity already in memory is sent without its definition. */
  lemma {:induction false} LateSight(id: nat, s: Session, statics: seq<Entity>, e: Entity, sequence: U32, ts: I32)
    requires InGame(s) && OnWire(e) && OnWire(s.entity) && e.netId != s.entity.netId && e.netId in s.introduced
    ensures var out := EmitSessionOf(id, s, statics, [e], sequence, ts).1;
            |RecordsTo(out, id)| == 2 && RecordsTo(out, id)[0].netId == e.netId &&
              RecordsTo(out, id)[0].mask == MASK_POS_ROT
  {
    hide EmitSessionOf, RecordsTo, RecordOf, OnWire, SelfIn;
    EmissionRecords(id, s, statics, [e], sequence, ts);
    assert [e][..0] == [];
    var w := EntityWrite(e, MASK_POS_ROT);
    assert Others([e][..0], s.entity.netId, s.introduced) == ([], s.introduced);
    assert OthersFor(s, [e]) == [] + [w];
    assert Cut([w]) == [w];
    RecordsCons([w]);
    MasksInSync(e, MASK_POS_ROT);
  }

  // ---- The run ---------------------------------------------------------------------------------------

  /** One player joins, asks for updates, picks team 1 and spawns as the engine's entity 1. */
  function Arrival(id: nat): seq<Event> {
    [Command(Plain(ClientConnected, id, Ascii("pilot")), 0, None),
     Command(Plain(WantUpdates, id, []), 0, None),
     Command(Plain(Reincarnate, id, []).(team := 1), 0, None),
     Command(Plain(Reincarnate, id, []), 0, Some(1))]
  }

  /** The engine shows 256 other entities, then only the last of them. */
  function CrowdRun(id: nat): seq<Event> {
    Arrival(id) + [Snapshots(Some(Crowd(256)), 0, 0), Snapshots(Some([Crowd(256)[255]]), 0, 0)]
  }

  lemma {:induction false} JoinedWorld(w: World, id: nat)
    requires w.sessions == map[] && HasPad(w.statics, 1)
    ensures var w2 := EventOf(EventOf(w, Arrival(id)[0]).0, Arrival(id)[1]).0;
            && id in w2.sessions && w2.statics == w.statics
            && w2.sessions[id].wantsUpdates && w2.sessions[id].introduced == []
  {
    hide Introductions, Ascending, Digits;
  }

  lemma {:induction false} TeamWorld(w: World, id: nat)
    requires id in w.sessions
    ensures var w' := EventOf(w, Arrival(id)[2]).0;
            id in w'.sessions && w'.statics == w.statics && w'.sessions[id] == w.sessions[id].(team := 1)
  {
    hide ToPeers, Ascending, ReincarnateResult, UpdateStatsFramed;
  }

  lemma {:induction false} SpawnedWorld(w: World, id: nat)
    requires id in w.sessions && w.sessions[id].team == 1 && HasPad(w.statics, 1)
    requires w.sessions[id].wantsUpdates && w.sessions[id].introduced == []
    ensures var w' := EventOf(w, Arrival(id)[3]).0;
            id in w'.sessions && w'.statics == w.statics && Newcomer(w'.sessions[id])
  {
    hide ToAll, Ascending, ReincarnateResult, TankSpawnOf, BirthNotice, ResolveSpawnPad, SpawnPosition;
    Spawning.ResolveExact(w.statics, 1, 0, 0);
  }

  /** After its arrival the player is a newcomer who has been sent no record. */
  lemma {:induction false} Arrived(w: World, id: nat)
    requires w.sessions == map[] && HasPad(w.statics, 1)
    ensures var h := Run(w, Arrival(id));
            && Aligned(h) && id in h.world.sessions && Newcomer(h.world.sessions[id])
            && RecordsTo(Since(h, id), id) == []
  {
    hide EventOf, Newcomer, RecordsTo, Remembers, HasPad;
    var a := Arrival(id);
    assert a == [a[0], a[1], a[2], a[3]];
    FourSteps(w, a[0], a[1], a[2], a[3]);
    JoinedWorld(w, id);
    var w2 := EventOf(EventOf(w, a[0]).0, a[1]).0;
    TeamWorld(w2, id);
    SpawnedWorld(EventOf(w2, a[2]).0, id);
    assert Run(w, []).world == w;
    IntroductionDiscipline(w, a);
    assert a[..4] == a;
    assert AllRemember(Run(w, a[..4]));
    NoMemory(Run(w, a), id);
  }

  lemma {:induction false} SomeId(rs: seq<Record>)
    ensures rs != [] ==> exists x :: x in Ids(rs)
  {
    if rs != [] {
      assert Ids(rs)[0] in Ids(rs);
    }
  }

  lemma {:induction false} NoMemory(h: History, id: nat)
    requires AllRemember(h) && id in h.world.sessions && Newcomer(h.world.sessions[id])
    ensures RecordsTo(Since(h, id), id) == []
  {
    hide RecordsTo, OnWire;
    var rs := RecordsTo(Since(h, id), id);
    SomeId(rs);
  }

  /** What a round adds to what an in-game session has been sent. */
  lemma {:induction false} RoundHeard(h: History, e: Event, id: nat)
    requires Aligned(h) && e.Snapshots? && id in h.world.sessions
    ensures var h' := Step(h, e);
            var (s, out) := EmitSessionOf(id, h.world.sessions[id], h.world.statics, Dynamic(h.world, e.provided),
                e.sequence, e.ts);
            && Aligned(h') && id in h'.world.sessions && h'.world.sessions[id] == s &&
              h'.world.statics == h.world.statics
            && RecordsTo(Since(h', id), id) == RecordsTo(Since(h, id), id) + RecordsTo(out, id)
  {
    hide RecordsTo, EmitSessionOf, Dynamic, EmitAllOf;
    StepAligned(h, e);
    SessionsAfter(h.world, e);
    var ids := Ascending(h.world.sessions.Keys);
    AscendingFacts(h.world.sessions.Keys);
    EmitAllOne(h.world.sessions, ids, h.world.statics, Dynamic(h.world, e.provided), e.sequence, e.ts, id);
    RecordsToConcat(Since(h, id), EventOf(h.world, e).1, id);
  }

  /** A record under position and rotation only for an id never sent breaks the discipline. */
  lemma {:induction false} BreaksDiscipline(a: seq<Record>, b: seq<Record>)
    requires b != [] && b[0].mask == MASK_POS_ROT && b[0].netId !in Ids(a)
    ensures !Disciplined(a + b)
  {
    assert (a + b)[..|a|] == a && (a + b)[|a|] == b[0];
  }

  /**
   From every map there is a run after which a live client has been sent an entity
   without ever having been sent its definition.
   */
  lemma {:induction false} CrowdLosesOne(lines: seq<StateLine>, land: Option<LandSummary>, id: nat)
    ensures var h := Run(BootstrapOf(map[], lines, land), CrowdRun(id));
            Aligned(h) && id in h.world.sessions && !Disciplined(RecordsTo(Since(h, id), id))
  {
    hide EmitSessionOf, RecordsTo, Newcomer, Run, Step, BootstrapOf, HasPad, Disciplined;
    var w := BootstrapOf(map[], lines, land);
    Spawning.BootstrapPads(lines, land);
    Arrived(w, id);
    var h := Run(w, Arrival(id));
    var e1, e2 := Snapshots(Some(Crowd(256)), 0, 0), Snapshots(Some([Crowd(256)[255]]), 0, 0);
    RunSnoc(w, Arrival(id), e1);
    RunSnoc(w, Arrival(id) + [e1], e2);
    assert CrowdRun(id) == Arrival(id) + [e1] + [e2];
    RoundHeard(h, e1, id);
    RoundHeard(Step(h, e1), e2, id);
    var s := h.world.sessions[id];
    LostInTheCrowd(id, s, h.world.statics, 0, 0);
    var (s1, out) := EmitSessionOf(id, s, h.world.statics, Crowd(256), 0, 0);
    var out' := EmitSessionOf(id, s1, h.world.statics, [Crowd(256)[255]], 0, 0).1;
    assert [] + RecordsTo(out, id) == RecordsTo(out, id);
    BreaksDiscipline(RecordsTo(out, id), RecordsTo(out', id));
  }
}
