/**
 What players see: after every round of snapshots each client has been shown the
 tanks of exactly the spawned players, or exactly the world the engine provided.
 */
module Sights {
  import opened Bits
  import opened Lists
  import opened Framing
  import opened Quantization
  import opened EntityCodec
  import opened Queues
  import opened Packets
  import opened Bridge
  import opened History
  import opened Roster
  import opened Introduction
  import opened Spawning
  import Opcodes

  // ---- Lists of sessions --------------------------------------------------------------------------

  function TanksOf(sessions: map<nat, Session>, ids: seq<nat>): (es: seq<Entity>)
    requires forall i :: 0 <= i < |ids| ==> ids[i] in sessions
    ensures |es| == |ids|
  {
    seq(|ids|, i requires 0 <= i < |ids| => sessions[ids[i]].entity)
  }

  /** The spawned sessions among all, but not those whose tank has the id `but`. */
  ghost predicate ListsSpawned(ids: seq<nat>, sessions: map<nat, Session>, all: seq<nat>, but: Option<int>) {
    && Increasing(ids)
    && forall k: nat :: k in ids <==>
         k in all && k in sessions && sessions[k].spawned && (but.Some? ==> sessions[k].entity.netId != but.value)
  }

  lemma {:induction false} ListedBefore(ids: seq<nat>, sessions: map<nat, Session>, all: seq<nat>, but: Option<int>)
    requires Increasing(all) && all != [] && all[|all| - 1] in sessions && ListsSpawned(ids, sessions, all, but)
    ensures var (n, k) := (|all| - 1, all[|all| - 1]);
            && Increasing(all[..n])
            && if sessions[k].spawned && (but.Some? ==> sessions[k].entity.netId != but.value)
               then ids != [] && ids[|ids| - 1] == k && ListsSpawned(ids[..|ids| - 1], sessions, all[..n], but)
               else ListsSpawned(ids, sessions, all[..n], but)
  {
    var n, k := |all| - 1, all[|all| - 1];
    assert all == all[..n] + [k];
    assert k !in all[..n];
    if sessions[k].spawned && (but.Some? ==> sessions[k].entity.netId != but.value) {
      assert k in ids;
      forall j: nat | j in ids ensures j <= k {
        assert j in all;
      }
      LastIsGreatest(ids, k);
      forall j: nat
        ensures j in ids[..|ids| - 1] <==>
                j in all[..n] && j in sessions && sessions[j].spawned
                && (but.Some? ==> sessions[j].entity.netId != but.value)
      {
        assert j in all <==> j in all[..n] || j == k;
        assert j in ids[..|ids| - 1] <==> j in ids && j != k;
      }
    }
  }

  lemma {:induction false} TanksAre(sessions: map<nat, Session>, all: seq<nat>, ids: seq<nat>)
    requires Increasing(all) && (forall i :: 0 <= i < |all| ==> all[i] in sessions)
    requires ListsSpawned(ids, sessions, all, None)
    ensures SpawnedTanks(sessions, all) == TanksOf(sessions, ids)
  {
    hide Increasing, ListsSpawned;
    if all == [] {
      NobodyListed(ids, sessions, None);
    } else {
      ListedBefore(ids, sessions, all, None);
      ListedIn(ids, sessions, all, None);
      if sessions[all[|all| - 1]].spawned {
        TanksAre(sessions, all[..|all| - 1], ids[..|ids| - 1]);
        assert TanksOf(sessions, ids) == TanksOf(sessions, ids[..|ids| - 1]) + [sessions[ids[|ids| - 1]].entity];
      } else {
        TanksAre(sessions, all[..|all| - 1], ids);
      }
    }
  }

  lemma {:induction false} NobodyListed(ids: seq<nat>, sessions: map<nat, Session>, but: Option<int>)
    requires ListsSpawned(ids, sessions, [], but)
    ensures ids == []
  {
    SomethingIn(ids);
  }

  lemma {:induction false} ListedIn(ids: seq<nat>, sessions: map<nat, Session>, all: seq<nat>, but: Option<int>)
    requires ListsSpawned(ids, sessions, all, but)
    ensures forall i :: 0 <= i < |ids| ==>
              ids[i] in sessions && sessions[ids[i]].spawned
              && (but.Some? ==> sessions[ids[i]].entity.netId != but.value)
  {
    forall i | 0 <= i < |ids|
      ensures ids[i] in sessions && sessions[ids[i]].spawned
              && (but.Some? ==> sessions[ids[i]].entity.netId != but.value)
    {
      assert ids[i] in ids;
    }
  }

  /** Leaving out the viewer's own id from the spawned tanks. */
  lemma {:induction false} OtherTanksAre(sessions: map<nat, Session>, all: seq<nat>, ids: seq<nat>, own: int)
    requires Increasing(all) && (forall i :: 0 <= i < |all| ==> all[i] in sessions)
    requires ListsSpawned(ids, sessions, all, Some(own))
    ensures forall i :: 0 <= i < |ids| ==> ids[i] in sessions
    ensures OtherEntities(SpawnedTanks(sessions, all), own) == TanksOf(sessions, ids)
  {
    hide Increasing, ListsSpawned;
    ListedIn(ids, sessions, all, Some(own));
    if all == [] {
      NobodyListed(ids, sessions, Some(own));
    } else {
      var n, k := |all| - 1, all[|all| - 1];
      var before := SpawnedTanks(sessions, all[..n]);
      ListedBefore(ids, sessions, all, Some(own));
      if sessions[k].spawned {
        assert (before + [sessions[k].entity])[..|before|] == before;
        if sessions[k].entity.netId != own {
          OtherTanksAre(sessions, all[..n], ids[..|ids| - 1], own);
          assert TanksOf(sessions, ids) == TanksOf(sessions, ids[..|ids| - 1]) + [sessions[k].entity];
        } else {
          OtherTanksAre(sessions, all[..n], ids, own);
          assert OtherEntities(before, own) + [] == OtherEntities(before, own);
        }
      } else {
        OtherTanksAre(sessions, all[..n], ids, own);
        assert before + [] == before;
      }
    }
  }

  /** The last session whose tank has this id. */
  ghost predicate LastWith(k: nat, sessions: map<nat, Session>, own: int) {
    && k in sessions && sessions[k].spawned && sessions[k].entity.netId == own
    && forall j :: j in sessions && sessions[j].spawned && sessions[j].entity.netId == own ==> j <= k
  }

  lemma {:induction false} SelfTankIs(sessions: map<nat, Session>, all: seq<nat>, k: nat, own: int)
    requires Increasing(all) && (forall i :: 0 <= i < |all| ==> all[i] in sessions)
    requires k in all && LastWith(k, sessions, own)
    ensures SelfIn(SpawnedTanks(sessions, all), own) == Some(sessions[k].entity)
  {
    var n, last := |all| - 1, all[|all| - 1];
    var before := SpawnedTanks(sessions, all[..n]);
    assert all == all[..n] + [last];
    if sessions[last].spawned {
      assert (before + [sessions[last].entity])[..|before|] == before;
    } else {
      assert before + [] == before;
    }
    if k != last {
      assert k in all[..n];
      var m :| 0 <= m < n && all[m] == k;
      assert k < last;
      SelfTankIs(sessions, all[..n], k, own);
    }
  }

  // ---- Lists of provided entities -------------------------------------------------------------------

  /** The places of the entities that are not the viewer's own. */
  ghost predicate ListsOtherPlaces(places: seq<nat>, es: seq<Entity>, own: int) {
    Increasing(places) && forall j: nat :: j in places <==> j < |es| && es[j].netId != own
  }

  function At(es: seq<Entity>, places: seq<nat>): (picked: seq<Entity>)
    requires forall i :: 0 <= i < |places| ==> places[i] < |es|
    ensures |picked| == |places|
  {
    seq(|places|, i requires 0 <= i < |places| => es[places[i]])
  }

  lemma {:induction false} OthersAt(es: seq<Entity>, places: seq<nat>, own: int)
    requires ListsOtherPlaces(places, es, own)
    ensures forall i :: 0 <= i < |places| ==> places[i] < |es|
    ensures OtherEntities(es, own) == At(es, places)
  {
    forall i | 0 <= i < |places| ensures places[i] < |es| {
      assert places[i] in places;
    }
    if es != [] {
      var n := |es| - 1;
      if es[n].netId != own {
        assert n in places;
        forall j: nat | j in places ensures j <= n {
        }
        LastIsGreatest(places, n);
        OthersAt(es[..n], places[..|places| - 1], own);
        assert At(es, places) == At(es[..n], places[..|places| - 1]) + [es[n]];
      } else {
        assert n !in places;
        OthersAt(es[..n], places, own);
        assert At(es, places) == At(es[..n], places);
      }
    }
  }

  /** The viewer's own entity: the last one with its id, else the one the bridge keeps. */
  ghost predicate IsOwn(self: Entity, es: seq<Entity>, own: int, kept: Entity) {
    || ((forall j :: 0 <= j < |es| ==> es[j].netId != own) && self == kept)
    || exists j :: 0 <= j < |es| && es[j].netId == own && es[j] == self
                   && forall m :: j < m < |es| ==> es[m].netId != own
  }

  lemma {:induction false} OwnIs(self: Entity, es: seq<Entity>, own: int, kept: Entity)
    requires IsOwn(self, es, own, kept)
    ensures SelfIn(es, own).GetOr(kept) == self
  {
    if es != [] && es[|es| - 1].netId != own {
      var init := es[..|es| - 1];
      assert forall j :: 0 <= j < |init| ==> init[j] == es[j];
      OwnIs(self, init, own, kept);
    }
  }

  // ---- One round, one viewer ------------------------------------------------------------------------

  lemma {:induction false} ToItself(id: nat, s: Session, statics: seq<Entity>, dynamic: seq<Entity>, sequence: U32,
                                    ts: I32, other: nat)
    ensures var out := EmitSessionOf(id, s, statics, dynamic, sequence, ts).1;
            OnlyTo(out, other) == if other == id then out else []
  {
    hide Others, SelfIn, OnlyTo, SelfMessage, OthersMessage, SnapshotMessage;
    EmittedTo(id, s, statics, dynamic, sequence, ts);
    hide EmitSessionOf;
    var out := EmitSessionOf(id, s, statics, dynamic, sequence, ts).1;
    if other == id {
      AllTo(out, id);
    } else {
      NoneTo(out, other);
    }
  }

  lemma {:induction false} EmittedTo(id: nat, s: Session, statics: seq<Entity>, dynamic: seq<Entity>, sequence: U32,
                                     ts: I32)
    ensures var out := EmitSessionOf(id, s, statics, dynamic, sequence, ts).1;
            forall i :: 0 <= i < |out| ==> out[i].sessionId == id
  {
    hide Others, SelfIn;
  }

  lemma {:induction false} AllTo(msgs: seq<Message>, id: nat)
    requires forall i :: 0 <= i < |msgs| ==> msgs[i].sessionId == id
    ensures OnlyTo(msgs, id) == msgs
  {
    if msgs != [] {
      AllTo(msgs[..|msgs| - 1], id);
    }
  }

  lemma {:induction false} ServedOnce(sessions: map<nat, Session>, ids: seq<nat>, statics: seq<Entity>,
                                      dynamic: seq<Entity>, sequence: U32, ts: I32, id: nat)
    requires id in sessions && (forall i :: 0 <= i < |ids| ==> ids[i] in sessions) && Increasing(ids)
    ensures OnlyTo(EmitAllOf(sessions, ids, statics, dynamic, sequence, ts).1, id)
            == if id in ids then EmitSessionOf(id, sessions[id], statics, dynamic, sequence, ts).1 else []
  {
    hide EmitSessionOf, OnlyTo;
    if ids == [] {
      NoneTo([], id);
    } else {
      var n := |ids| - 1;
      assert ids == ids[..n] + [ids[n]];
      ServedOnce(sessions, ids[..n], statics, dynamic, sequence, ts, id);
      EmitAllOne(sessions, ids[..n], statics, dynamic, sequence, ts, ids[n]);
      var (done, out) := EmitAllOf(sessions, ids[..n], statics, dynamic, sequence, ts);
      ToItself(ids[n], done[ids[n]], statics, dynamic, sequence, ts, id);
      OnlyToConcat(out, EmitSessionOf(ids[n], done[ids[n]], statics, dynamic, sequence, ts).1, id);
      if id == ids[n] {
        assert id !in ids[..n];
        assert [] + EmitSessionOf(id, sessions[id], statics, dynamic, sequence, ts).1
               == EmitSessionOf(id, sessions[id], statics, dynamic, sequence, ts).1;
      } else {
        assert OnlyTo(out, id) + [] == OnlyTo(out, id);
      }
    }
  }

  /** What one round pushes to one session. */
  function NewsOf(w: World, events: seq<Event>, e: Event, id: nat): seq<Message>
    requires |Run(w, events).log| <= |Run(w, events + [e]).log|
  {
    OnlyTo(Run(w, events + [e]).log[|Run(w, events).log|..], id)
  }

  lemma {:induction false} RoundNews(w: World, events: seq<Event>, provided: Option<seq<Entity>>, sequence: U32,
                                     ts: I32, id: nat)
    requires id in Run(w, events).world.sessions
    ensures var (h, e) := (Run(w, events), Snapshots(provided, sequence, ts));
            && h.log <= Run(w, events + [e]).log
            && NewsOf(w, events, e, id)
               == EmitSessionOf(id, h.world.sessions[id], h.world.statics, Dynamic(h.world, provided), sequence, ts).1
  {
    hide EmitSessionOf, Dynamic, OnlyTo, Ascending, EmitAllOf;
    var h, e := Run(w, events), Snapshots(provided, sequence, ts);
    RunSnoc(w, events, e);
    AscendingFacts(h.world.sessions.Keys);
    ServedOnce(h.world.sessions, Ascending(h.world.sessions.Keys), h.world.statics, Dynamic(h.world, provided),
               sequence, ts, id);
  }

  /** What an in-game client is shown: the others in order, if there are any, and its own tank with the clock. */
  ghost predicate Shown(out: seq<Message>, id: nat, sequence: U32, ts: I32, others: seq<Entity>, self: Entity) {
    if others == [] then |out| == 1 && ShowsSelf(out[0], id, sequence, ts, self)
    else |out| == 2 && ListsOthers(out[0], id, sequence, others) && ShowsSelf(out[1], id, sequence, ts, self)
  }

  // ---- Tanks over runs --------------------------------------------------------------------------------

  /** Every tank is a plain one. */
  ghost predicate PlainTanks(w: World) {
    forall k :: k in w.sessions && w.sessions[k].spawned ==> w.sessions[k].entity.unitType == 0
  }

  lemma {:induction false} EventKeepsPlain(w: World, e: Event)
    requires PlainTanks(w)
    ensures PlainTanks(EventOf(w, e).0)
  {
    hide ResolveSpawnPad, Ascending, ToAll, TankSpawnOf, SpawnPosition, EmitAllOf, AddSessionOf, TeamSwitchOf;
    if IssuedBy(w, e) == [] {
      OtherEventsKeepTanks(w, e);
    }
  }

  lemma {:induction false} RunPlain(w: World, events: seq<Event>)
    requires w.sessions == map[]
    ensures PlainTanks(Run(w, events).world)
  {
    hide EventOf;
    if events != [] {
      RunPlain(w, events[..|events| - 1]);
      EventKeepsPlain(Run(w, events[..|events| - 1]).world, events[|events| - 1]);
    }
  }

  /** Every tank's id fits its 32-bit field. */
  ghost predicate TankIdsFit(sessions: map<nat, Session>) {
    forall k :: k in sessions && sessions[k].spawned ==>
      -0x8000_0000 <= sessions[k].entity.netId < 0x8000_0000
  }

  lemma {:induction false} PlainOnWire(e: Entity)
    requires e.unitType == 0 && -0x8000_0000 <= e.netId < 0x8000_0000
    ensures OnWire(e)
  {
  }

  lemma {:induction false} TanksOnWire(w: World, ids: seq<nat>)
    requires PlainTanks(w) && TankIdsFit(w.sessions)
    requires forall i :: 0 <= i < |ids| ==> ids[i] in w.sessions && w.sessions[ids[i]].spawned
    ensures AllOnWire(TanksOf(w.sessions, ids))
  {
    hide OnWire;
    forall i | 0 <= i < |ids| ensures OnWire(TanksOf(w.sessions, ids)[i]) {
      PlainOnWire(w.sessions[ids[i]].entity);
    }
  }

  lemma {:induction false} ListOfSpawned(w: World) returns (ids: seq<nat>)
    ensures ListsSpawned(ids, w.sessions, Ascending(w.sessions.Keys), None)
  {
    AscendingFacts(w.sessions.Keys);
    ids := SpawnedAmong(w, Ascending(w.sessions.Keys));
  }

  lemma {:induction false} SpawnedAmong(w: World, all: seq<nat>) returns (ids: seq<nat>)
    requires Increasing(all) && forall i :: 0 <= i < |all| ==> all[i] in w.sessions
    ensures ListsSpawned(ids, w.sessions, all, None)
  {
    hide ListsSpawned;
    ids := [];
    assert ListsSpawned([], w.sessions, [], None) by { ListsNobody(w.sessions); }
    if all != [] {
      var n := |all| - 1;
      assert all == all[..n] + [all[n]];
      ids := SpawnedAmong(w, all[..n]);
      NotListed(w, all, ids);
      if w.sessions[all[n]].spawned {
        ids := ListedMore(w, all[..n], all[n], ids);
      }
    }
  }

  lemma {:induction false} ListsNobody(sessions: map<nat, Session>)
    ensures ListsSpawned([], sessions, [], None)
  {
  }

  lemma {:induction false} NotListed(w: World, all: seq<nat>, ids: seq<nat>)
    requires all != [] && ListsSpawned(ids, w.sessions, all[..|all| - 1], None)
    requires all[|all| - 1] in w.sessions
    ensures !w.sessions[all[|all| - 1]].spawned ==> ListsSpawned(ids, w.sessions, all, None)
  {
    var n, k := |all| - 1, all[|all| - 1];
    assert all == all[..n] + [k];
    forall j: nat ensures j in all <==> j in all[..n] || j == k {
    }
  }

  lemma {:induction false} ListedMore(w: World, before: seq<nat>, k: nat, ids: seq<nat>) returns (more: seq<nat>)
    requires ListsSpawned(ids, w.sessions, before, None) && k in w.sessions && w.sessions[k].spawned
    requires forall i :: 0 <= i < |before| ==> before[i] < k
    ensures ListsSpawned(more, w.sessions, before + [k], None)
  {
    more := ids + [k];
    forall i | 0 <= i < |ids| ensures ids[i] < k {
      assert ids[i] in ids;
    }
    forall j: nat ensures j in more <==> j in before + [k] && j in w.sessions && w.sessions[j].spawned {
      assert j in more <==> j in ids || j == k;
      assert j in before + [k] <==> j in before || j == k;
    }
  }

  lemma {:induction false} DynamicOnWire(w: World)
    requires PlainTanks(w) && TankIdsFit(w.sessions)
    ensures AllOnWire(Dynamic(w, None))
  {
    hide PlainTanks, TankIdsFit, ListsSpawned;
    var ids := ListOfSpawned(w);
    AscendingFacts(w.sessions.Keys);
    TanksAre(w.sessions, Ascending(w.sessions.Keys), ids);
    ListedIn(ids, w.sessions, Ascending(w.sessions.Keys), None);
    TanksOnWire(w, ids);
  }

  // ---- Without an engine world ------------------------------------------------------------------------

  lemma {:induction false} AmongAll(w: World, ids: seq<nat>, but: Option<int>)
    requires Increasing(ids)
    requires forall k: nat :: k in ids <==>
             k in w.sessions && w.sessions[k].spawned && (but.Some? ==> w.sessions[k].entity.netId != but.value)
    ensures ListsSpawned(ids, w.sessions, Ascending(w.sessions.Keys), but)
    ensures Increasing(Ascending(w.sessions.Keys)) && forall k :: k in w.sessions ==> k in Ascending(w.sessions.Keys)
  {
    AscendingFacts(w.sessions.Keys);
  }

  /**
   Without an engine world, after any run: a round shows an in-game client one record
   for every spawned session whose tank does not share its own id, in order of their
   session ids and up to 255, each of that session's own tank as the bridge keeps it,
   then its own tank, and nothing else.
   */
  lemma {:induction false} RoundShowsTanks(w: World, events: seq<Event>, sequence: U32, ts: I32, id: nat,
                                           ids: seq<nat>, self: nat)
    requires w.sessions == map[]
    requires var ss := Run(w, events).world.sessions;
             && id in ss && ss[id].wantsUpdates && ss[id].spawned && TankIdsFit(ss)
             && Increasing(ids)
             && (forall k: nat :: k in ids <==>
                   k in ss && ss[k].spawned && ss[k].entity.netId != ss[id].entity.netId)
             && LastWith(self, ss, ss[id].entity.netId)
    ensures var (h, e) := (Run(w, events), Snapshots(None, sequence, ts));
            && h.log <= Run(w, events + [e]).log
            && (forall i :: 0 <= i < |ids| ==> ids[i] in h.world.sessions)
            && Shown(NewsOf(w, events, e, id), id, sequence, ts, TanksOf(h.world.sessions, ids),
                     h.world.sessions[self].entity)
  {
    hide Run, EmitSessionOf, Shown, ShowsSelf, ListsOthers, TankIdsFit, PlainTanks, OnWire, Increasing, LastWith,
      NewsOf, ListsSpawned, SpawnedTanks, Ascending;
    var x := Run(w, events).world;
    var own, all := x.sessions[id].entity.netId, Ascending(x.sessions.Keys);
    RunPlain(w, events);
    RoundNews(w, events, None, sequence, ts, id);
    AmongAll(x, ids, Some(own));
    OtherTanksAre(x.sessions, all, ids, own);
    SelfThere(x, self, own);
    SelfTankIs(x.sessions, all, self, own);
    DynamicOnWire(x);
    OwnOnWire(x, id);
    ContentsShown(id, x.sessions[id], x.statics, Dynamic(x, None), sequence, ts);
  }

  lemma {:induction false} SelfThere(w: World, self: nat, own: int)
    requires LastWith(self, w.sessions, own)
    ensures self in Ascending(w.sessions.Keys) && self in w.sessions
  {
    AscendingFacts(w.sessions.Keys);
  }

  lemma {:induction false} OwnOnWire(w: World, id: nat)
    requires PlainTanks(w) && TankIdsFit(w.sessions) && id in w.sessions && w.sessions[id].spawned
    ensures OnWire(w.sessions[id].entity)
  {
    hide OnWire;
    PlainOnWire(w.sessions[id].entity);
  }

  lemma {:induction false} ContentsShown(id: nat, s: Session, statics: seq<Entity>, dynamic: seq<Entity>,
                                         sequence: U32, ts: I32)
    requires s.wantsUpdates && s.spawned && AllOnWire(dynamic) && OnWire(s.entity)
    ensures Shown(EmitSessionOf(id, s, statics, dynamic, sequence, ts).1, id, sequence, ts,
                  OtherEntities(dynamic, s.entity.netId), SelfIn(dynamic, s.entity.netId).GetOr(s.entity))
  {
    hide EmitSessionOf, ShowsSelf, ListsOthers, OnWire;
    EmissionContents(id, s, statics, dynamic, sequence, ts);
  }

  /**
   Everybody sees everybody: without an engine, after any run from any map, a round
   shows an in-game client the tank of every other spawned session, in order of their
   session ids and up to 255, and its own.
   */
  lemma {:induction false} EverybodySeen(w: World, events: seq<Event>, sequence: U32, ts: I32, id: nat,
                                         ids: seq<nat>)
    requires Numbered(w) && w.sessions == map[] && forall i :: 0 <= i < |events| ==> EngineFree(events[i])
    requires var ss := Run(w, events).world.sessions;
             && id in ss && ss[id].wantsUpdates && ss[id].spawned && TankIdsFit(ss)
             && Increasing(ids) && forall k: nat :: k in ids <==> k in ss && ss[k].spawned && k != id
    ensures var (h, e) := (Run(w, events), Snapshots(None, sequence, ts));
            && h.log <= Run(w, events + [e]).log
            && (forall i :: 0 <= i < |ids| ==> ids[i] in h.world.sessions)
            && Shown(NewsOf(w, events, e, id), id, sequence, ts, TanksOf(h.world.sessions, ids),
                     h.world.sessions[id].entity)
  {
    hide Run, EmitSessionOf, Shown, TankIdsFit, Increasing, NewsOf, FreshIds, EngineFree, Issued;
    IdsNeverReused(w, events);
    OthersDiffer(Run(w, events).world, id, ids);
    RoundShowsTanks(w, events, sequence, ts, id, ids, id);
  }

  lemma {:induction false} OthersDiffer(w: World, id: nat, ids: seq<nat>)
    requires FreshIds(w) && id in w.sessions && w.sessions[id].spawned
    requires forall k: nat :: k in ids <==> k in w.sessions && w.sessions[k].spawned && k != id
    ensures forall k: nat :: k in ids <==>
              k in w.sessions && w.sessions[k].spawned && w.sessions[k].entity.netId != w.sessions[id].entity.netId
    ensures LastWith(id, w.sessions, w.sessions[id].entity.netId)
  {
  }

  /** The one frame of the entry map: these entities, in order, with their definitions, up to 255, and full stats. */
  ghost predicate Mapped(out: seq<Message>, id: nat, sequence: U32, full: seq<Entity>) {
    && |out| == 1 && out[0].sessionId == id && out[0].reliable
    && Parse(out[0].bytes).rest == [] && |Parse(out[0].bytes).frames| == 1
    && Parse(out[0].bytes).frames[0].opcode == Opcodes.VIEW_UPDATE
    && var u := ReadSnapshot(Parse(out[0].bytes).frames[0].body);
       && u.Some? && |u.value.records| == Min(|full|, 255)
       && u.value.timestamp == Some(SignExtend(sequence)) && u.value.sequence == SignExtend(sequence)
       && u.value.health == u.value.energy == Quantize(1.0, STAT_CONFIG, 0)
       && forall i :: 0 <= i < |u.value.records| ==> u.value.records[i] == RecordOf(full[i], MASK_FULL)
  }

  lemma {:induction false} MapShown(id: nat, s: Session, statics: seq<Entity>, dynamic: seq<Entity>, sequence: U32,
                                    ts: I32)
    requires s.wantsUpdates && !s.spawned && AllOnWire(statics + dynamic)
    ensures Mapped(EmitSessionOf(id, s, statics, dynamic, sequence, ts).1, id, sequence, statics + dynamic)
  {
    hide EmitSessionOf, OnWire, Parse, ReadSnapshot, RecordOf;
    EntryMapContents(id, s, statics, dynamic, sequence, ts);
  }

  /**
   The entry map without an engine world: a client that wants updates and has not
   spawned is shown the fixtures and then the tanks of all spawned sessions, in order
   of their session ids, and nothing else.
   */
  lemma {:induction false} EntryMapShowsTanks(w: World, events: seq<Event>, sequence: U32, ts: I32, id: nat,
                                              ids: seq<nat>)
    requires w.sessions == map[] && AllOnWire(w.statics)
    requires var ss := Run(w, events).world.sessions;
             && id in ss && ss[id].wantsUpdates && !ss[id].spawned && TankIdsFit(ss)
             && Increasing(ids) && forall k: nat :: k in ids <==> k in ss && ss[k].spawned
    ensures var (h, e) := (Run(w, events), Snapshots(None, sequence, ts));
            && h.log <= Run(w, events + [e]).log
            && (forall i :: 0 <= i < |ids| ==> ids[i] in h.world.sessions)
            && Mapped(NewsOf(w, events, e, id), id, sequence, w.statics + TanksOf(h.world.sessions, ids))
  {
    hide Run, EmitSessionOf, Mapped, TankIdsFit, PlainTanks, OnWire, Increasing, NewsOf, ListsSpawned, SpawnedTanks,
      Ascending;
    var x := Run(w, events).world;
    var all := Ascending(x.sessions.Keys);
    RunPlain(w, events);
    RunStaticsKept(w, events);
    RoundNews(w, events, None, sequence, ts, id);
    AmongAll(x, ids, None);
    ListedIn(ids, x.sessions, all, None);
    TanksAre(x.sessions, all, ids);
    DynamicOnWire(x);
    MapShown(id, x.sessions[id], x.statics, Dynamic(x, None), sequence, ts);
  }

  /** A client that has not asked for updates is shown nothing. */
  lemma {:induction false} UnwantedUnshown(w: World, events: seq<Event>, provided: Option<seq<Entity>>, sequence: U32,
                                           ts: I32, id: nat)
    requires var ss := Run(w, events).world.sessions; id in ss && !ss[id].wantsUpdates
    ensures var e := Snapshots(provided, sequence, ts);
            Run(w, events).log <= Run(w, events + [e]).log && NewsOf(w, events, e, id) == []
  {
    hide Run, NewsOf, Dynamic;
    RoundNews(w, events, provided, sequence, ts, id);
  }

  // ---- With an engine world ----------------------------------------------------------------------------

  /**
   With a world provided by the engine, a round shows an in-game client exactly its
   entities but the client's own, in order and up to 255, and then its own: the last
   with its id there, or the tank the bridge keeps when there is none.
   */
  lemma {:induction false} RoundShowsProvided(w: World, events: seq<Event>, es: seq<Entity>, sequence: U32, ts: I32,
                                              id: nat, places: seq<nat>, self: Entity)
    requires AllOnWire(es)
    requires var ss := Run(w, events).world.sessions;
             && id in ss && ss[id].wantsUpdates && ss[id].spawned && OnWire(ss[id].entity)
             && ListsOtherPlaces(places, es, ss[id].entity.netId)
             && IsOwn(self, es, ss[id].entity.netId, ss[id].entity)
    ensures var e := Snapshots(Some(es), sequence, ts);
            && Run(w, events).log <= Run(w, events + [e]).log
            && (forall i :: 0 <= i < |places| ==> places[i] < |es|)
            && Shown(NewsOf(w, events, e, id), id, sequence, ts, At(es, places), self)
  {
    hide Run, EmitSessionOf, Shown, OnWire, ListsOtherPlaces, IsOwn, NewsOf;
    var x := Run(w, events).world;
    var s := x.sessions[id];
    RoundNews(w, events, Some(es), sequence, ts, id);
    OthersAt(es, places, s.entity.netId);
    OwnIs(self, es, s.entity.netId, s.entity);
    ContentsShown(id, s, x.statics, es, sequence, ts);
  }

  /** With a world provided, the entry map shows the fixtures and then its entities. */
  lemma {:induction false} EntryMapShowsProvided(w: World, events: seq<Event>, es: seq<Entity>, sequence: U32, ts: I32,
                                                 id: nat)
    requires AllOnWire(w.statics + es)
    requires var ss := Run(w, events).world.sessions; id in ss && ss[id].wantsUpdates && !ss[id].spawned
    ensures var e := Snapshots(Some(es), sequence, ts);
            && Run(w, events).log <= Run(w, events + [e]).log
            && Mapped(NewsOf(w, events, e, id), id, sequence, w.statics + es)
  {
    hide Run, EmitSessionOf, Mapped, OnWire, NewsOf;
    var x := Run(w, events).world;
    RunStaticsKept(w, events);
    RoundNews(w, events, Some(es), sequence, ts, id);
    MapShown(id, x.sessions[id], x.statics, es, sequence, ts);
  }
}
