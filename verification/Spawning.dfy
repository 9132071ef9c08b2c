/**
 Spawning: after bootstrap both teams own a repair pad for good, so every spawn
 request from a player with a team succeeds; and, without an engine, entity ids
 are never shared and never used twice.
 */
module Spawning {
  import opened Bits
  import opened EntityCodec
  import opened Queues
  import opened Bridge
  import opened History

  // ---- Bootstrap ---------------------------------------------------------------------------

  /** Fixtures carry the ids 1, 2, ... in order and the next id follows them. */
  ghost predicate Numbered(w: World) {
    w.nextId == |w.statics| + 1 && forall i :: 0 <= i < |w.statics| ==> w.statics[i].netId == i + 1
  }

  lemma {:induction false} LinesNumbered(w: World, lines: seq<StateLine>)
    requires Numbered(w)
    ensures Numbered(LoadLines(w, lines)) && LoadLines(w, lines).sessions == w.sessions
  {
    if lines != [] {
      LinesNumbered(w, lines[..|lines| - 1]);
    }
  }

  lemma {:induction false} EnsurePadFacts(w: World, before: seq<Entity>, team: int, land: LandSummary)
    requires Numbered(w) && before <= w.statics
    ensures var w' := EnsurePad(w, before, team, land);
            && Numbered(w') && w.statics <= w'.statics && w'.sessions == w.sessions && HasPad(w'.statics, team)
            && (HasPad(before, team) ==> w' == w)
  {
    var w' := EnsurePad(w, before, team, land);
    if HasPad(before, team) {
      var i :| 0 <= i < |before| && IsPadOf(before[i], team);
      assert IsPadOf(w'.statics[i], team);
    } else {
      assert IsPadOf(w'.statics[|w.statics|], team);
    }
  }

  lemma {:induction false} PadKept(a: seq<Entity>, b: seq<Entity>, team: int)
    requires a <= b && HasPad(a, team)
    ensures HasPad(b, team)
  {
    var i :| 0 <= i < |a| && IsPadOf(a[i], team);
    assert IsPadOf(b[i], team);
  }

  /** Whatever the map's state file holds, teams 1 and 2 each end up with a repair pad and all fixtures are numbered. */
  lemma {:induction false} BootstrapPads(lines: seq<StateLine>, land: Option<LandSummary>)
    ensures var w := BootstrapOf(map[], lines, land);
            Numbered(w) && HasPad(w.statics, 1) && HasPad(w.statics, 2) && w.sessions == map[]
  {
    hide EnsurePad, HasPad;
    var loaded := LoadLines(World(map[], [], 1), lines);
    var summary := land.GetOr(FALLBACK_LAND);
    LinesNumbered(World(map[], [], 1), lines);
    EnsurePadFacts(loaded, loaded.statics, 1, summary);
    var one := EnsurePad(loaded, loaded.statics, 1, summary);
    EnsurePadFacts(one, loaded.statics, 2, summary);
    PadKept(one.statics, EnsurePad(one, loaded.statics, 2, summary).statics, 1);
  }

  // ---- Resolving a pad ------------------------------------------------------------------------

  /** Some pad of the team with the wanted id. */
  ghost predicate HasNumberedPad(statics: seq<Entity>, team: int, wanted: int) {
    exists i :: 0 <= i < |statics| && IsPadOf(statics[i], team) && statics[i].netId == wanted
  }

  predicate Fits(e: Entity, team: int, wanted: Option<int>) {
    IsPadOf(e, team) && (wanted.Some? ==> e.netId == wanted.value)
  }

  /** The first fixture that fits. */
  ghost predicate Foremost(pad: Entity, statics: seq<Entity>, team: int, wanted: Option<int>) {
    exists i :: 0 <= i < |statics| && statics[i] == pad && Fits(statics[i], team, wanted)
                && forall j :: 0 <= j < i ==> !Fits(statics[j], team, wanted)
  }

  lemma {:induction false} FirstPadFacts(statics: seq<Entity>, team: int, wanted: Option<int>)
    ensures var r := FirstPad(statics, team, wanted);
            && (r.Some? ==> Foremost(r.value, statics, team, wanted))
            && (r.None? ==> forall i :: 0 <= i < |statics| ==> !Fits(statics[i], team, wanted))
  {
    if statics != [] && !Fits(statics[0], team, wanted) {
      var rest := statics[1..];
      FirstPadFacts(rest, team, wanted);
      assert forall i :: 1 <= i < |statics| ==> statics[i] == rest[i - 1];
      var r := FirstPad(rest, team, wanted);
      if r.Some? {
        var i :| 0 <= i < |rest| && rest[i] == r.value && Fits(rest[i], team, wanted)
                 && forall j :: 0 <= j < i ==> !Fits(rest[j], team, wanted);
        assert statics[i + 1] == r.value;
      }
    }
  }

  /** The first pad of the team with the selected id, else with the id of the base, else the first of all. */
  ghost predicate Chosen(pad: Entity, statics: seq<Entity>, team: int, selected: int, base: int) {
    if selected != 0 && HasNumberedPad(statics, team, selected) then Foremost(pad, statics, team, Some(selected))
    else if base != 0 && HasNumberedPad(statics, team, base) then Foremost(pad, statics, team, Some(base))
    else Foremost(pad, statics, team, None)
  }

  lemma {:induction false} ForemostFacts(pad: Entity, statics: seq<Entity>, team: int, wanted: Option<int>)
    requires Foremost(pad, statics, team, wanted)
    ensures pad in statics && IsPadOf(pad, team) && HasPad(statics, team)
    ensures wanted.Some? ==> HasNumberedPad(statics, team, wanted.value)
  {
    var i :| 0 <= i < |statics| && statics[i] == pad && Fits(statics[i], team, wanted)
             && forall j :: 0 <= j < i ==> !Fits(statics[j], team, wanted);
    assert IsPadOf(statics[i], team);
  }

  lemma {:induction false} NoneFit(statics: seq<Entity>, team: int, wanted: Option<int>)
    requires forall i :: 0 <= i < |statics| ==> !Fits(statics[i], team, wanted)
    ensures if wanted.Some? then !HasNumberedPad(statics, team, wanted.value) else !HasPad(statics, team)
  {
    assert forall i :: 0 <= i < |statics| ==>
        (Fits(statics[i], team, wanted) <==>
         IsPadOf(statics[i], team) && (wanted.Some? ==> statics[i].netId == wanted.value));
  }

  lemma {:induction false} FirstPadExact(statics: seq<Entity>, team: int, wanted: Option<int>)
    ensures var r := FirstPad(statics, team, wanted);
            && (r.Some? <==>
                  if wanted.Some? then HasNumberedPad(statics, team, wanted.value) else HasPad(statics, team))
            && (r.Some? ==> r.value in statics && IsPadOf(r.value, team) && Foremost(r.value, statics, team, wanted))
  {
    hide FirstPad, Fits, HasPad, HasNumberedPad, Foremost;
    FirstPadFacts(statics, team, wanted);
    var r := FirstPad(statics, team, wanted);
    if r.Some? {
      ForemostFacts(r.value, statics, team, wanted);
    } else {
      NoneFit(statics, team, wanted);
    }
  }

  /**
   A spawn pad is always a repair pad of the session's own team: the first with the
   selected id if there is one, else the first with the id of the base, else the first
   of all; and there is none exactly when the team owns no pad.
   */
  lemma {:induction false} ResolveExact(statics: seq<Entity>, team: int, selected: int, base: int)
    ensures var r := ResolveSpawnPad(statics, team, selected, base);
            && (r.Some? <==> HasPad(statics, team))
            && (r.Some? ==>
                  r.value in statics && IsPadOf(r.value, team) && Chosen(r.value, statics, team, selected, base))
  {
    hide FirstPad, Foremost, HasPad, HasNumberedPad;
    FirstPadExact(statics, team, Some(selected));
    FirstPadExact(statics, team, Some(base));
    FirstPadExact(statics, team, None);
    var r := ResolveSpawnPad(statics, team, selected, base);
    if r.Some? {
      PadOwned(r.value, statics, team);
    }
  }

  lemma {:induction false} PadOwned(pad: Entity, statics: seq<Entity>, team: int)
    requires pad in statics && IsPadOf(pad, team)
    ensures HasPad(statics, team)
  {
    var i :| 0 <= i < |statics| && statics[i] == pad;
    assert IsPadOf(statics[i], team);
  }

  // ---- Fixtures and ids over runs -----------------------------------------------------------------

  lemma {:induction false} StaticsKept(w: World, e: Event)
    ensures EventOf(w, e).0.statics == w.statics
  {
    hide Ascending, ToPeers, ToAll, Introductions, EmitAllOf, ResolveSpawnPad;
  }

  lemma {:induction false} RunStaticsKept(w: World, events: seq<Event>)
    ensures Run(w, events).world.statics == w.statics
  {
    hide EventOf;
    if events != [] {
      RunStaticsKept(w, events[..|events| - 1]);
      StaticsKept(Run(w, events[..|events| - 1]).world, events[|events| - 1]);
    }
  }

  /** A spawn request: a reincarnation naming no team. */
  predicate RequestsSpawn(cmd: ClientCommand) {
    cmd.kind.Reincarnate? && cmd.team == 0
  }

  /** The request put the player on a pad of its own team and told it so first. */
  ghost predicate Spawned(w: World, cmd: ClientCommand, sequence: U32, reply: Option<int>) {
    var (w', out) := CommandOf(w, cmd, sequence, reply);
    var id := cmd.sessionId;
    && id in w.sessions && id in w'.sessions
    && w'.sessions[id].spawned
    && w'.sessions[id].entity.team == w.sessions[id].team
    && w'.sessions[id].entity.netId == SpawnId(w, reply)
    && |out| > 1 && out[0] == OutboundMessage(id, true, TankSpawnOf(w'.sessions[id].entity, sequence))
    && exists pad :: pad in w.statics && IsPadOf(pad, w.sessions[id].team)
         && w'.sessions[id].entity.pos == SpawnPosition(pad, w.sessions[id].playerId)
         && w'.sessions[id].entity.rot == pad.rot
  }

  lemma {:induction false} SpawnExact(w: World, cmd: ClientCommand, sequence: U32, reply: Option<int>)
    requires RequestsSpawn(cmd) && cmd.sessionId in w.sessions
    ensures Spawned(w, cmd, sequence, reply) <==> HasPad(w.statics, w.sessions[cmd.sessionId].team)
    ensures !HasPad(w.statics, w.sessions[cmd.sessionId].team) ==> CommandOf(w, cmd, sequence, reply).0 == w
  {
    hide Ascending, ToAll, TankSpawnOf, ResolveSpawnPad;
    var team := w.sessions[cmd.sessionId].team;
    ResolveExact(w.statics, team, cmd.unitId, cmd.padId);
    if HasPad(w.statics, team) {
      var pad := ResolveSpawnPad(w.statics, team, cmd.unitId, cmd.padId).value;
      assert pad in w.statics && IsPadOf(pad, team);
    }
  }

  /** Spawn guarantee: from any map, after any run, a player of team 1 or 2 that asks to spawn does. */
  lemma {:induction false} SpawnGuarantee(lines: seq<StateLine>, land: Option<LandSummary>, events: seq<Event>,
                                          cmd: ClientCommand, sequence: U32, reply: Option<int>)
    requires RequestsSpawn(cmd)
    ensures var w := Run(BootstrapOf(map[], lines, land), events).world;
            cmd.sessionId in w.sessions && 1 <= w.sessions[cmd.sessionId].team <= 2 ==> Spawned(w, cmd, sequence, reply)
  {
    hide BootstrapOf, Run, Spawned;
    BootstrapPads(lines, land);
    RunStaticsKept(BootstrapOf(map[], lines, land), events);
    var w := Run(BootstrapOf(map[], lines, land), events).world;
    if cmd.sessionId in w.sessions {
      SpawnExact(w, cmd, sequence, reply);
    }
  }

  /** Spawned tanks have ids above the fixtures, below the next id, and all different. */
  ghost predicate FreshIds(w: World) {
    && (forall a :: a in w.sessions && w.sessions[a].spawned ==> |w.statics| < w.sessions[a].entity.netId < w.nextId)
    && (forall a, b :: a in w.sessions && b in w.sessions && a != b ==>
          w.sessions[a].spawned && w.sessions[b].spawned ==> w.sessions[a].entity.netId != w.sessions[b].entity.netId)
  }

  predicate EngineFree(e: Event) {
    e.Command? ==> e.reply.None?
  }

  /** Ids handed out by an event. */
  function IssuedBy(w: World, e: Event): seq<int> {
    if e.Command? && RequestsSpawn(e.cmd) && e.cmd.sessionId in w.sessions
       && ResolveSpawnPad(w.statics, w.sessions[e.cmd.sessionId].team, e.cmd.unitId, e.cmd.padId).Some?
    then [SpawnId(w, e.reply)]
    else []
  }

  function Issued(w: World, events: seq<Event>): seq<int> {
    if events == [] then []
    else
      var n := |events| - 1;
      Issued(w, events[..n]) + IssuedBy(Run(w, events[..n]).world, events[n])
  }

  /** Same tanks for the sessions that are still there, and newcomers have none. */
  ghost predicate SameTanks(w: World, w': World) {
    && w'.statics == w.statics && w'.nextId == w.nextId
    && forall id :: id in w'.sessions && w'.sessions[id].spawned ==>
         id in w.sessions && w.sessions[id].spawned && w'.sessions[id].entity == w.sessions[id].entity
  }

  lemma {:induction false} SpawnFresh(w: World, id: nat, pad: Entity, sequence: U32)
    requires FreshIds(w) && w.nextId > |w.statics| && id in w.sessions
    ensures FreshIds(SpawnOnPadOf(w, id, pad, sequence, None).0)
  {
    hide Ascending, ToAll, TankSpawnOf, SpawnPosition;
  }

  lemma {:induction false} JoinKeepsTanks(w: World, cmd: ClientCommand)
    ensures SameTanks(w, AddSessionOf(w, cmd).0)
  {
    hide Ascending, Introductions;
  }

  lemma {:induction false} RequestKeepsTanks(w: World, cmd: ClientCommand, sequence: U32, reply: Option<int>)
    requires cmd.kind.Reincarnate? ==> IssuedBy(w, Command(cmd, sequence, reply)) == []
    ensures cmd.kind.Reincarnate? ==> SameTanks(w, ReincarnateOf(w, cmd, sequence, reply).0)
  {
    hide Ascending, ToPeers, ResolveSpawnPad, SpawnOnPadOf;
  }

  lemma {:induction false} OtherEventsKeepTanks(w: World, e: Event)
    requires IssuedBy(w, e) == []
    ensures SameTanks(w, EventOf(w, e).0)
  {
    hide AddSessionOf, ReincarnateOf, EmitAllOf, ResolveSpawnPad;
    if e.Command? {
      JoinKeepsTanks(w, e.cmd);
      RequestKeepsTanks(w, e.cmd, e.sequence, e.reply);
    }
    if e.Snapshots? {
      RoundKeepsTanks(w.sessions, Ascending(w.sessions.Keys), w.statics, Dynamic(w, e.provided), e.sequence, e.ts);
    }
  }

  lemma {:induction false} EventFresh(w: World, e: Event)
    requires FreshIds(w) && w.nextId > |w.statics| && EngineFree(e)
    ensures FreshIds(EventOf(w, e).0)
    ensures EventOf(w, e).0.nextId == w.nextId + |IssuedBy(w, e)|
    ensures forall i :: 0 <= i < |IssuedBy(w, e)| ==> IssuedBy(w, e)[i] == w.nextId
  {
    hide FreshIds, ResolveSpawnPad, SpawnedEntity, Ascending, ToAll, TankSpawnOf;
    if IssuedBy(w, e) == [] {
      OtherEventsKeepTanks(w, e);
      SameTanksFresh(w, EventOf(w, e).0);
    } else {
      var pad := ResolveSpawnPad(w.statics, w.sessions[e.cmd.sessionId].team, e.cmd.unitId, e.cmd.padId).value;
      SpawnFresh(w, e.cmd.sessionId, pad, e.sequence);
    }
  }

  lemma {:induction false} SameTanksFresh(w: World, w': World)
    requires FreshIds(w) && SameTanks(w, w')
    ensures FreshIds(w')
  {
  }

  lemma {:induction false} RoundKeepsTanks(sessions: map<nat, Session>, ids: seq<nat>, statics: seq<Entity>,
                                           dynamic: seq<Entity>,
                                           sequence: U32, ts: I32)
    requires forall i :: 0 <= i < |ids| ==> ids[i] in sessions
    ensures var after := EmitAllOf(sessions, ids, statics, dynamic, sequence, ts).0;
            forall id :: id in sessions ==>
              after[id].entity == sessions[id].entity && after[id].spawned == sessions[id].spawned
  {
    hide Others, SelfIn, OthersMessage, SelfMessage, SnapshotMessage;
    if ids != [] {
      RoundKeepsTanks(sessions, ids[..|ids| - 1], statics, dynamic, sequence, ts);
    }
  }

  /**
   Fresh ids: without an engine, in every reachable state all fixture and tank
   ids differ, and the ids handed out over the run are strictly increasing from
   the first free one, so none is ever used twice.
   */
  lemma {:induction false} IdsNeverReused(w: World, events: seq<Event>)
    requires Numbered(w) && w.sessions == map[] && forall i :: 0 <= i < |events| ==> EngineFree(events[i])
    ensures var w' := Run(w, events).world;
            && FreshIds(w')
            && w'.nextId == w.nextId + |Issued(w, events)|
            && forall i :: 0 <= i < |Issued(w, events)| ==> Issued(w, events)[i] == w.nextId + i
  {
    hide EventOf, IssuedBy, FreshIds, EngineFree;
    if events == [] {
      assert FreshIds(w) by { NoTanks(w); }
    } else {
      var n := |events| - 1;
      IdsNeverReused(w, events[..n]);
      RunStaticsKept(w, events[..n]);
      assert EngineFree(events[n]);
      EventFresh(Run(w, events[..n]).world, events[n]);
      AtMostOne(Run(w, events[..n]).world, events[n]);
    }
  }

  lemma {:induction false} NoTanks(w: World)
    requires w.sessions == map[]
    ensures FreshIds(w)
  {
  }

  lemma {:induction false} AtMostOne(w: World, e: Event)
    ensures |IssuedBy(w, e)| <= 1
  {
  }
}
