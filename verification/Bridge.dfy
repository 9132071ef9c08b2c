/**
 The world bridge: it drains the command queue once per tick, keeps one record
 per logged-in session, and pushes rosters, spawn notices and entity updates to
 every session. Each method is proved against a function on `World`.
 */
module Bridge {
  import opened Bits
  import opened Quantization
  import opened EntityCodec
  import opened Queues
  import opened Packets
  import Framing
  import Opcodes

  const REPAIR_PAD := 27
  const TEAM_SWITCH_OK: Byte := 17
  const INVALID_TEAM: Byte := 18
  const INVALID_ENTRY: Byte := 4
  const SPAWN_LANES := 6

  datatype Session = Session(
    playerId: I32, team: int, name: Text, entity: Entity,
    spawned: bool, wantsUpdates: bool, introduced: seq<int>)

  datatype World = World(sessions: map<nat, Session>, statics: seq<Entity>, nextId: int)

  type Message = OutboundMessage

  /** A call to the engine's input handler. */
  datatype Drive = Drive(netId: int, channel: int, value: real)

  // ---- Iterating sessions in key order ---------------------------------------------------

  ghost predicate Least(m: nat, s: set<nat>) {
    m in s && forall k :: k in s ==> m <= k
  }

  lemma {:induction false} LeastExists(s: set<nat>)
    requires s != {}
    ensures exists m :: Least(m, s)
  {
    var x :| x in s;
    var rest := s - {x};
    if rest == {} {
      assert s == {x} && Least(x, s);
    } else {
      LeastExists(rest);
      var m :| Least(m, rest);
      forall k | k in s ensures (if x <= m then x else m) <= k {
        assert k == x || k in rest;
      }
      assert Least(if x <= m then x else m, s);
    }
  }

  function LeastOf(s: set<nat>): (m: nat)
    requires s != {}
    ensures Least(m, s)
  {
    LeastExists(s);
    var m :| m in s && forall k :: k in s ==> m <= k;
    m
  }

  function Ascending(s: set<nat>): (ids: seq<nat>)
    ensures forall i :: 0 <= i < |ids| ==> ids[i] in s
    decreases |s|
  {
    if s == {} then []
    else
      var m := LeastOf(s);
      [m] + Ascending(s - {m})
  }

  /** Every key once, in increasing order. */
  lemma {:induction false} AscendingFacts(s: set<nat>)
    ensures forall k :: k in s ==> k in Ascending(s)
    ensures forall i, j :: 0 <= i < j < |Ascending(s)| ==> Ascending(s)[i] < Ascending(s)[j]
    decreases |s|
  {
    if s != {} {
      var m := LeastOf(s);
      var rest := Ascending(s - {m});
      AscendingFacts(s - {m});
      forall k | k in s ensures k in [m] + rest {
        assert k == m || k in s - {m};
      }
    }
  }

  // ---- Messages to several sessions ---------------------------------------------------------

  /** The same reliable bytes to every id but one. */
  function ToPeers(ids: seq<nat>, except: nat, bytes: seq<Byte>): seq<Message> {
    if ids == [] then []
    else
      var id := ids[|ids| - 1];
      ToPeers(ids[..|ids| - 1], except, bytes)
      + if id == except then [] else [OutboundMessage(id, true, bytes)]
  }

  function ToAll(ids: seq<nat>, bytes: seq<Byte>): seq<Message> {
    if ids == [] then []
    else ToAll(ids[..|ids| - 1], bytes) + [OutboundMessage(ids[|ids| - 1], true, bytes)]
  }

  /** Roster records both ways between a newcomer and every session already there. */
  function Introductions(ids: seq<nat>, sessions: map<nat, Session>, joined: nat): seq<Message>
    requires joined in sessions && forall i :: 0 <= i < |ids| ==> ids[i] in sessions
  {
    if ids == [] then []
    else
      var id := ids[|ids| - 1];
      Introductions(ids[..|ids| - 1], sessions, joined)
      + if id == joined then []
        else
          var existing, newcomer := sessions[id], sessions[joined];
          [OutboundMessage(joined, true, AddToRoster(existing.playerId, existing.team, existing.name)),
           OutboundMessage(id, true, AddToRoster(newcomer.playerId, newcomer.team, newcomer.name))]
  }

  // ---- Commands --------------------------------------------------------------------------------

  function Digits(n: nat): Text {
    if n < 10 then ['0' as int + n] else Digits(n / 10) + ['0' as int + n % 10]
  }

  function NewSession(cmd: ClientCommand): Session {
    var pid := SessionPlayerId(cmd.sessionId);
    var name := if cmd.text == [] then Ascii("player") + Digits(pid) else cmd.text;
    Session(pid, 0, name, DEFAULT_ENTITY, false, false, [])
  }

  function AddSessionOf(w: World, cmd: ClientCommand): (World, seq<Message>) {
    if cmd.sessionId in w.sessions then (w, [])
    else
      var sessions := w.sessions[cmd.sessionId := NewSession(cmd)];
      (w.(sessions := sessions), Introductions(Ascending(sessions.Keys), sessions, cmd.sessionId))
  }

  function WantUpdatesOf(w: World, id: nat): World {
    if id !in w.sessions then w
    else w.(sessions := w.sessions[id := w.sessions[id].(wantsUpdates := true)])
  }

  function RemoveSessionOf(w: World, id: nat): World {
    w.(sessions := map k | k in w.sessions && k != id :: w.sessions[k])
  }

  function TeamSwitchOf(w: World, id: nat, team: int): (World, seq<Message>)
    requires id in w.sessions
  {
    var s := w.sessions[id];
    if team == 1 || team == 2 then
      (w.(sessions := w.sessions[id := s.(team := team)]),
       [OutboundMessage(id, true, ReincarnateResult(TEAM_SWITCH_OK, []))]
       + ToPeers(Ascending(w.sessions.Keys), id, UpdateStatsFramed(s.playerId, team)))
    else
      (w, [OutboundMessage(id, true, ReincarnateResult(INVALID_TEAM, Ascii("Invalid team.")))])
  }

  predicate IsPadOf(e: Entity, team: int) {
    e.unitType == REPAIR_PAD && e.team == team
  }

  /** The first pad of the team, or the first one with the wanted id. */
  function FirstPad(statics: seq<Entity>, team: int, wanted: Option<int>): Option<Entity> {
    if statics == [] then None
    else if IsPadOf(statics[0], team) && (wanted.Some? ==> statics[0].netId == wanted.value) then Some(statics[0])
    else FirstPad(statics[1..], team, wanted)
  }

  function ResolveSpawnPad(statics: seq<Entity>, team: int, selected: int, base: int): Option<Entity> {
    var bySelected := if selected == 0 then None else FirstPad(statics, team, Some(selected));
    var byBase := if base == 0 then None else FirstPad(statics, team, Some(base));
    if bySelected.Some? then bySelected
    else if byBase.Some? then byBase
    else FirstPad(statics, team, None)
  }

  /** Players are spread over six lanes next to the pad. */
  function SpawnPosition(pad: Entity, playerId: int): Vec3 {
    pad.pos.(x := pad.pos.x + (playerId % SPAWN_LANES) as real * 100.0)
  }

  /** The engine's id when it spawned a tank, the next free id otherwise. */
  function SpawnId(w: World, reply: Option<int>): int {
    if reply.Some? && reply.value != 0 then reply.value else w.nextId
  }

  function SpawnedEntity(w: World, id: nat, pad: Entity, reply: Option<int>): Entity
    requires id in w.sessions
  {
    var s := w.sessions[id];
    DEFAULT_ENTITY.(netId := SpawnId(w, reply), unitType := 0, team := s.team, isManned := true,
                    pos := SpawnPosition(pad, s.playerId), rot := pad.rot)
  }

  function TankSpawnOf(e: Entity, sequence: U32): seq<Byte> {
    TankSpawn(sequence, e.netId, e.unitType, e.team, [e.pos.x, e.pos.y, e.pos.z], [e.rot.x, e.rot.y, e.rot.z])
  }

  function SpawnOnPadOf(w: World, id: nat, pad: Entity, sequence: U32, reply: Option<int>): (World, seq<Message>)
    requires id in w.sessions
  {
    var e := SpawnedEntity(w, id, pad, reply);
    (World(w.sessions[id := w.sessions[id].(entity := e, spawned := true)], w.statics,
           if reply.Some? && reply.value != 0 then w.nextId else w.nextId + 1),
     [OutboundMessage(id, true, TankSpawnOf(e, sequence)), OutboundMessage(id, true, ReincarnateResult(0, []))]
     + ToAll(Ascending(w.sessions.Keys), BirthNotice(w.sessions[id].playerId)))
  }

  function ReincarnateOf(w: World, cmd: ClientCommand, sequence: U32, reply: Option<int>): (World, seq<Message>) {
    if cmd.sessionId !in w.sessions then (w, [])
    else if cmd.team != 0 then TeamSwitchOf(w, cmd.sessionId, cmd.team)
    else
      var pad := ResolveSpawnPad(w.statics, w.sessions[cmd.sessionId].team, cmd.unitId, cmd.padId);
      if pad.None? then
        (w, [OutboundMessage(cmd.sessionId, true, ReincarnateResult(INVALID_ENTRY, Ascii("Invalid Entry Point.")))])
      else SpawnOnPadOf(w, cmd.sessionId, pad.value, sequence, reply)
  }

  /** reply is what the engine's spawn handler would answer, if one is installed. */
  function CommandOf(w: World, cmd: ClientCommand, sequence: U32, reply: Option<int>): (World, seq<Message>) {
    match cmd.kind
    case ClientConnected => AddSessionOf(w, cmd)
    case WantUpdates => (WantUpdatesOf(w, cmd.sessionId), [])
    case Disconnected => (RemoveSessionOf(w, cmd.sessionId), [])
    case Reincarnate => ReincarnateOf(w, cmd, sequence, reply)
    case ActionInput => (w, [])
    case LoginUser => (w, [])
    case LoginPassword => (w, [])
  }

  /** Control input reaches the tank of the session that sent it, once there is one. */
  function DriveOf(w: World, cmd: ClientCommand, hosting: bool): seq<Drive> {
    if cmd.kind.ActionInput? && hosting && cmd.sessionId in w.sessions && w.sessions[cmd.sessionId].spawned
    then [Drive(w.sessions[cmd.sessionId].entity.netId, cmd.channel, cmd.value)]
    else []
  }

  // ---- Snapshots -------------------------------------------------------------------------------

  function SpawnedTanks(sessions: map<nat, Session>, ids: seq<nat>): seq<Entity>
    requires forall i :: 0 <= i < |ids| ==> ids[i] in sessions
  {
    if ids == [] then []
    else
      var s := sessions[ids[|ids| - 1]];
      SpawnedTanks(sessions, ids[..|ids| - 1]) + if s.spawned then [s.entity] else []
  }

  /** The engine's entities when it supplies them, the sessions' own tanks otherwise. */
  function Dynamic(w: World, provided: Option<seq<Entity>>): seq<Entity> {
    if provided.Some? then provided.value else SpawnedTanks(w.sessions, Ascending(w.sessions.Keys))
  }

  function MaskFor(introduced: seq<int>, netId: int): U32 {
    if netId in introduced then MASK_POS_ROT else MASK_FULL
  }

  function Introduce(introduced: seq<int>, netId: int): seq<int> {
    if netId in introduced then introduced else introduced + [netId]
  }

  /** Everything but the session's own entity, with the mask each record is sent under. */
  function Others(dynamic: seq<Entity>, selfId: int, introduced: seq<int>): (seq<EntityWrite>, seq<int>) {
    if dynamic == [] then ([], introduced)
    else
      var (ws, seen) := Others(dynamic[..|dynamic| - 1], selfId, introduced);
      var e := dynamic[|dynamic| - 1];
      if e.netId == selfId then (ws, seen)
      else (ws + [EntityWrite(e, MaskFor(seen, e.netId))], Introduce(seen, e.netId))
  }

  /** The last entity with the session's own id. */
  function SelfIn(dynamic: seq<Entity>, selfId: int): Option<Entity> {
    if dynamic == [] then None
    else if dynamic[|dynamic| - 1].netId == selfId then Some(dynamic[|dynamic| - 1])
    else SelfIn(dynamic[..|dynamic| - 1], selfId)
  }

  function OthersMessage(id: nat, sequence: U32, others: seq<EntityWrite>): Message {
    OutboundMessage(id, false,
                    Payload(UpdateFields(Opcodes.UPDATE_ARRAY, None, SignExtend(sequence), others, 1.0, 1.0)))
  }

  function SelfMessage(id: nat, sequence: U32, ts: I32, self: EntityWrite): Message {
    OutboundMessage(id, false, Payload(UpdateFields(Opcodes.VIEW_UPDATE, Some(ts), SignExtend(sequence),
                                                    [self], self.entity.health, self.entity.energy)))
  }

  function SnapshotMessage(id: nat, sequence: U32, full: seq<Entity>): Message {
    OutboundMessage(id, true, Framing.Framed(Opcodes.VIEW_UPDATE, SnapshotFields(SignExtend(sequence), full, 1.0, 1.0)))
  }

  function EmitSessionOf(id: nat, s: Session, statics: seq<Entity>, dynamic: seq<Entity>, sequence: U32, ts: I32)
    : (Session, seq<Message>)
  {
    if !s.wantsUpdates then (s, [])
    else if !s.spawned then (s, [SnapshotMessage(id, sequence, statics + dynamic)])
    else
      var selfId := s.entity.netId;
      var (others, seen) := Others(dynamic, selfId, s.introduced);
      var self := SelfIn(dynamic, selfId).GetOr(s.entity);
      (s.(introduced := Introduce(seen, selfId)),
       (if others == [] then [] else [OthersMessage(id, sequence, others)])
       + [SelfMessage(id, sequence, ts, EntityWrite(self, MaskFor(seen, selfId)))])
  }

  function EmitAllOf(sessions: map<nat, Session>, ids: seq<nat>, statics: seq<Entity>, dynamic: seq<Entity>,
                     sequence: U32, ts: I32): (r: (map<nat, Session>, seq<Message>))
    requires forall i :: 0 <= i < |ids| ==> ids[i] in sessions
    ensures r.0.Keys == sessions.Keys
  {
    if ids == [] then (sessions, [])
    else
      var id := ids[|ids| - 1];
      var (done, out) := EmitAllOf(sessions, ids[..|ids| - 1], statics, dynamic, sequence, ts);
      assert id in done.Keys;
      var (s, more) := EmitSessionOf(id, done[id], statics, dynamic, sequence, ts);
      (done[id := s], out + more)
  }

  function EmitSnapshotsOf(w: World, provided: Option<seq<Entity>>, sequence: U32, ts: I32): (World, seq<Message>) {
    var (sessions, out) :=
      EmitAllOf(w.sessions, Ascending(w.sessions.Keys), w.statics, Dynamic(w, provided), sequence, ts);
    (w.(sessions := sessions), out)
  }

  lemma {:induction false} NobodyToServe(w: World, env: Environment)
    requires |w.sessions| == 0
    ensures EmitSnapshotsOf(w, env.provided, env.sequence, env.ts) == (w, [])
  {
    assert w.sessions.Keys == {};
  }

  // ---- A tick ------------------------------------------------------------------------------------

  /** What a tick gets from outside: the engine world, the engine's spawn replies, and the clock. */
  datatype Environment = Environment(
    provided: Option<seq<Entity>>, spawnHandler: Option<nat -> int>, hosting: bool, sequence: U32, ts: I32)

  function Reply(env: Environment, call: nat): Option<int> {
    if env.spawnHandler.None? then None else Some(env.spawnHandler.value(call))
  }

  function CommandsOf(w: World, cmds: seq<ClientCommand>, env: Environment): (World, seq<Message>) {
    if cmds == [] then (w, [])
    else
      var n := |cmds| - 1;
      var (w1, out) := CommandsOf(w, cmds[..n], env);
      var (w2, more) := CommandOf(w1, cmds[n], env.sequence, Reply(env, n));
      (w2, out + more)
  }

  /** The input calls of a batch, each in the world its command meets. */
  function DrivesOf(w: World, cmds: seq<ClientCommand>, env: Environment): seq<Drive> {
    if cmds == [] then []
    else
      var n := |cmds| - 1;
      DrivesOf(w, cmds[..n], env) + DriveOf(CommandsOf(w, cmds[..n], env).0, cmds[n], env.hosting)
  }

  /** All commands, then one round of snapshots. */
  function TickOf(w: World, cmds: seq<ClientCommand>, env: Environment): (World, seq<Message>) {
    var (w1, out) := CommandsOf(w, cmds, env);
    var (w2, more) := EmitSnapshotsOf(w1, env.provided, env.sequence, env.ts);
    (w2, out + more)
  }

  // ---- Bootstrap -----------------------------------------------------------------------------------

  /** A line of a map's state file: nothing usable, or a fixture. */
  datatype StateLine = Skipped | Fixture(isCrate: bool, token: string, team: int, pos: Vec3, rot: Vec3)

  datatype LandSummary = LandSummary(width: real, height: real, maxHeight: real)

  const FALLBACK_LAND := LandSummary(1000.0, 1000.0, 0.0)

  function UnitTypeForStateToken(token: string, isCrate: bool): int {
    if isCrate then 19
    else if token == "e" then 25
    else if token == "s" then 29
    else if token == "g" then 30
    else if token == "r" then REPAIR_PAD
    else if token == "f" then 26
    else if token == "u" then 20
    else if token == "h" then 35
    else 0
  }

  function StateEntity(line: StateLine, netId: int): Option<Entity> {
    if line.Skipped? || UnitTypeForStateToken(line.token, line.isCrate) == 0 then None
    else Some(DEFAULT_ENTITY.(netId := netId, unitType := UnitTypeForStateToken(line.token, line.isCrate),
                              team := line.team, isManned := false, pos := line.pos, rot := line.rot))
  }

  function LoadLines(w: World, lines: seq<StateLine>): World {
    if lines == [] then w
    else
      var before := LoadLines(w, lines[..|lines| - 1]);
      var e := StateEntity(lines[|lines| - 1], before.nextId);
      if e.None? then before else before.(statics := before.statics + [e.value], nextId := before.nextId + 1)
  }

  predicate HasPad(statics: seq<Entity>, team: int) {
    exists i :: 0 <= i < |statics| && IsPadOf(statics[i], team)
  }

  function FallbackPad(team: int, netId: int, land: LandSummary): Entity {
    DEFAULT_ENTITY.(netId := netId, unitType := REPAIR_PAD, team := team, isManned := false,
                    pos := Vec3(land.width * (if team == 1 then 0.42 else 0.58), land.height * 0.50,
                                land.maxHeight + 200.0))
  }

  /** Adds a pad for the team unless it already had one in `before`. */
  function EnsurePad(w: World, before: seq<Entity>, team: int, land: LandSummary): World {
    if HasPad(before, team) then w
    else w.(statics := w.statics + [FallbackPad(team, w.nextId, land)], nextId := w.nextId + 1)
  }

  function BootstrapOf(sessions: map<nat, Session>, lines: seq<StateLine>, land: Option<LandSummary>): World {
    var loaded := LoadLines(World(sessions, [], 1), lines);
    var summary := land.GetOr(FALLBACK_LAND);
    EnsurePad(EnsurePad(loaded, loaded.statics, 1, summary), loaded.statics, 2, summary)
  }

  // ---- The bridge object -----------------------------------------------------------------------------

  class MvpOnlineBridge {
    const inbound: ConcurrentQueue<ClientCommand>
    const outbound: ConcurrentQueue<OutboundMessage>
    var sessions: map<nat, Session>
    var staticEntities: seq<Entity>
    var nextEntityId: int
    var driven: seq<Drive>

    function State(): World
      reads this
    {
      World(sessions, staticEntities, nextEntityId)
    }

    constructor (inbound: ConcurrentQueue<ClientCommand>, outbound: ConcurrentQueue<OutboundMessage>,
                 lines: seq<StateLine>, land: Option<LandSummary>)
      ensures this.inbound == inbound && this.outbound == outbound && driven == []
      ensures State() == BootstrapOf(map[], lines, land)
    {
      this.inbound, this.outbound := inbound, outbound;
      sessions, staticEntities, nextEntityId, driven := map[], [], 1, [];
      new;
      LoadMapBootstrap(lines, land);
    }

    method LoadMapBootstrap(lines: seq<StateLine>, land: Option<LandSummary>)
      modifies this
      ensures State() == BootstrapOf(old(sessions), lines, land) && driven == old(driven)
    {
      staticEntities := [];
      nextEntityId := 1;
      LoadStateEntities(lines);
      EnsureFallbackRepairPads(land);
    }

    method LoadStateEntities(lines: seq<StateLine>)
      modifies `staticEntities, `nextEntityId
      ensures State() == LoadLines(old(State()), lines)
    {
      var i := 0;
      while i < |lines|
        invariant i <= |lines| && State() == LoadLines(old(State()), lines[..i])
      {
        var entity := StateEntity(lines[i], nextEntityId);
        assert lines[..i + 1][..i] == lines[..i];
        i := i + 1;
        if entity.None? {
          continue;
        }
        staticEntities := staticEntities + [entity.value];
        nextEntityId := nextEntityId + 1;
      }
      assert lines[..i] == lines;
    }

    method ExistingRepairPad(team: int) returns (found: bool)
      ensures found == HasPad(staticEntities, team)
    {
      for i := 0 to |staticEntities|
        invariant !HasPad(staticEntities[..i], team)
      {
        if IsPadOf(staticEntities[i], team) {
          return true;
        }
        assert forall k :: 0 <= k < i ==> staticEntities[..i][k] == staticEntities[k];
      }
      assert staticEntities[..|staticEntities|] == staticEntities;
      return false;
    }

    method EnsureFallbackRepairPads(land: Option<LandSummary>)
      modifies `staticEntities, `nextEntityId
      ensures State() == EnsurePad(EnsurePad(old(State()), old(staticEntities), 1, land.GetOr(FALLBACK_LAND)),
                                   old(staticEntities), 2, land.GetOr(FALLBACK_LAND))
    {
      var summary := land.GetOr(FALLBACK_LAND);
      var has1 := ExistingRepairPad(1);
      var has2 := ExistingRepairPad(2);
      if !has1 {
        staticEntities, nextEntityId := staticEntities + [FallbackPad(1, nextEntityId, summary)], nextEntityId + 1;
      }
      if !has2 {
        staticEntities, nextEntityId := staticEntities + [FallbackPad(2, nextEntityId, summary)], nextEntityId + 1;
      }
    }

    method PushPeers(except: nat, bytes: seq<Byte>)
      modifies outbound
      ensures outbound.items == old(outbound.items) + ToPeers(Ascending(sessions.Keys), except, bytes)
    {
      var ids := Ascending(sessions.Keys);
      for i := 0 to |ids|
        invariant outbound.items == old(outbound.items) + ToPeers(ids[..i], except, bytes)
      {
        assert ids[..i + 1][..i] == ids[..i];
        if ids[i] == except {
          continue;
        }
        outbound.Push(OutboundMessage(ids[i], true, bytes));
      }
      assert ids[..|ids|] == ids;
    }

    method PushAll(bytes: seq<Byte>)
      modifies outbound
      ensures outbound.items == old(outbound.items) + ToAll(Ascending(sessions.Keys), bytes)
    {
      var ids := Ascending(sessions.Keys);
      for i := 0 to |ids|
        invariant outbound.items == old(outbound.items) + ToAll(ids[..i], bytes)
      {
        assert ids[..i + 1][..i] == ids[..i];
        outbound.Push(OutboundMessage(ids[i], true, bytes));
      }
      assert ids[..|ids|] == ids;
    }

    method EmitRosterCatchup(joined: nat)
      requires joined in sessions
      modifies outbound
      ensures outbound.items == old(outbound.items) + Introductions(Ascending(sessions.Keys), sessions, joined)
    {
      hide Framing.Framed, AddToRosterFields, Ascending;
      var ids := Ascending(sessions.Keys);
      for i := 0 to |ids|
        invariant outbound.items == old(outbound.items) + Introductions(ids[..i], sessions, joined)
      {
        assert ids[..i + 1][..i] == ids[..i];
        if ids[i] == joined {
          continue;
        }
        var existing, newcomer := sessions[ids[i]], sessions[joined];
        var toNewcomer := BuildAddToRoster(existing.playerId, existing.team, existing.name, []);
        var toExisting := BuildAddToRoster(newcomer.playerId, newcomer.team, newcomer.name, []);
        outbound.Push(OutboundMessage(joined, true, toNewcomer));
        outbound.Push(OutboundMessage(ids[i], true, toExisting));
      }
      assert ids[..|ids|] == ids;
    }

    method AddSession(cmd: ClientCommand) returns (changed: bool)
      modifies `sessions, outbound
      ensures State() == AddSessionOf(old(State()), cmd).0
      ensures outbound.items == old(outbound.items) + AddSessionOf(old(State()), cmd).1
    {
      if cmd.sessionId in sessions {
        return false;
      }
      sessions := sessions[cmd.sessionId := NewSession(cmd)];
      EmitRosterCatchup(cmd.sessionId);
      return true;
    }

    method MarkWantUpdates(id: nat) returns (changed: bool)
      modifies `sessions
      ensures State() == WantUpdatesOf(old(State()), id)
    {
      if id !in sessions {
        return false;
      }
      if !sessions[id].wantsUpdates {
        sessions := sessions[id := sessions[id].(wantsUpdates := true)];
        return true;
      }
      assert sessions[id := sessions[id].(wantsUpdates := true)] == sessions;
      return false;
    }

    method RemoveSession(id: nat) returns (changed: bool)
      modifies `sessions
      ensures State() == RemoveSessionOf(old(State()), id)
    {
      changed := id in sessions;
      sessions := map k | k in sessions && k != id :: sessions[k];
    }

    method HandleTeamSwitch(id: nat, team: int)
      requires id in sessions
      modifies `sessions, outbound
      ensures State() == TeamSwitchOf(old(State()), id, team).0
      ensures outbound.items == old(outbound.items) + TeamSwitchOf(old(State()), id, team).1
    {
      hide Framing.Framed, ReincarnateResult, UpdateStatsFramed, Ascending, ToPeers, Ascii;
      if team == 1 || team == 2 {
        ghost var keys := sessions.Keys;
        sessions := sessions[id := sessions[id].(team := team)];
        assert sessions.Keys == keys;
        outbound.Push(OutboundMessage(id, true, ReincarnateResult(TEAM_SWITCH_OK, [])));
        var framed := BuildUpdateStatsFramed(sessions[id].playerId, team);
        PushPeers(id, framed);
        return;
      }
      outbound.Push(OutboundMessage(id, true, ReincarnateResult(INVALID_TEAM, Ascii("Invalid team."))));
    }

    method SpawnOnPad(id: nat, pad: Entity, sequence: U32, reply: Option<int>)
      requires id in sessions
      modifies `sessions, `nextEntityId, outbound
      ensures State() == SpawnOnPadOf(old(State()), id, pad, sequence, reply).0
      ensures outbound.items == old(outbound.items) + SpawnOnPadOf(old(State()), id, pad, sequence, reply).1
    {
      hide TankSpawnOf, ReincarnateResult, BirthNotice, Ascending, ToAll;
      ghost var keys := sessions.Keys;
      var s := sessions[id];
      var position := pad.pos.(x := pad.pos.x + (s.playerId % SPAWN_LANES) as real * 100.0);
      var netId := 0;
      if reply.Some? {
        netId := reply.value;
      }
      if netId == 0 {
        netId := nextEntityId;
        nextEntityId := nextEntityId + 1;
      }
      var e := DEFAULT_ENTITY.(netId := netId, unitType := 0, team := s.team, isManned := true,
                               pos := position, rot := pad.rot);
      sessions := sessions[id := s.(entity := e, spawned := true)];
      assert sessions.Keys == keys;
      outbound.Push(OutboundMessage(id, true, TankSpawnOf(e, sequence)));
      outbound.Push(OutboundMessage(id, true, ReincarnateResult(0, [])));
      PushAll(BirthNotice(s.playerId));
    }

    method HandleReincarnate(cmd: ClientCommand, sequence: U32, reply: Option<int>) returns (changed: bool)
      modifies `sessions, `nextEntityId, outbound
      ensures State() == ReincarnateOf(old(State()), cmd, sequence, reply).0
      ensures outbound.items == old(outbound.items) + ReincarnateOf(old(State()), cmd, sequence, reply).1
    {
      if cmd.sessionId !in sessions {
        return false;
      }
      if cmd.team != 0 {
        HandleTeamSwitch(cmd.sessionId, cmd.team);
        return false;
      }
      var pad := ResolveSpawnPad(staticEntities, sessions[cmd.sessionId].team, cmd.unitId, cmd.padId);
      if pad.None? {
        var refusal := ReincarnateResult(INVALID_ENTRY, Ascii("Invalid Entry Point."));
        outbound.Push(OutboundMessage(cmd.sessionId, true, refusal));
        return false;
      }
      SpawnOnPad(cmd.sessionId, pad.value, sequence, reply);
      return true;
    }

    method HandleActionInput(cmd: ClientCommand, hosting: bool)
      modifies `driven
      ensures driven == old(driven) + DriveOf(State(), cmd.(kind := CommandKind.ActionInput), hosting)
    {
      if !hosting {
        return;
      }
      if cmd.sessionId !in sessions || !sessions[cmd.sessionId].spawned {
        return;
      }
      driven := driven + [Drive(sessions[cmd.sessionId].entity.netId, cmd.channel, cmd.value)];
    }

    method HandleCommand(cmd: ClientCommand, sequence: U32, hosting: bool, reply: Option<int>) returns (changed: bool)
      modifies this, outbound
      ensures State() == CommandOf(old(State()), cmd, sequence, reply).0
      ensures outbound.items == old(outbound.items) + CommandOf(old(State()), cmd, sequence, reply).1
      ensures driven == old(driven) + DriveOf(old(State()), cmd, hosting)
    {
      changed := false;
      match cmd.kind {
        case ClientConnected => changed := AddSession(cmd);
        case WantUpdates => changed := MarkWantUpdates(cmd.sessionId);
        case Disconnected => changed := RemoveSession(cmd.sessionId);
        case Reincarnate => changed := HandleReincarnate(cmd, sequence, reply);
        case ActionInput => HandleActionInput(cmd, hosting);
        case LoginUser =>
        case LoginPassword =>
      }
    }

    /** The records of one session's datagram of other entities; marks each entity as introduced. */
    method CollectOthers(id: nat, dynamic: seq<Entity>) returns (others: seq<EntityWrite>, self: Option<Entity>)
      requires id in sessions
      modifies `sessions
      ensures var s := old(sessions)[id];
              var (ws, seen) := Others(dynamic, s.entity.netId, s.introduced);
              && others == ws && self == SelfIn(dynamic, s.entity.netId)
              && sessions == old(sessions)[id := s.(introduced := seen)]
    {
      ghost var s := sessions[id];
      var selfId := sessions[id].entity.netId;
      others, self := [], None;
      assert sessions == sessions[id := s.(introduced := s.introduced)];
      for i := 0 to |dynamic|
        invariant (others, s.introduced) == Others(dynamic[..i], selfId, old(sessions)[id].introduced)
        invariant self == SelfIn(dynamic[..i], selfId)
        invariant s == old(sessions)[id].(introduced := s.introduced)
        invariant sessions == old(sessions)[id := s]
      {
        assert dynamic[..i + 1][..i] == dynamic[..i];
        var e := dynamic[i];
        if e.netId == selfId {
          self := Some(e);
          continue;
        }
        var introduced := sessions[id].introduced;
        others := others + [EntityWrite(e, MaskFor(introduced, e.netId))];
        s := s.(introduced := Introduce(introduced, e.netId));
        sessions := sessions[id := sessions[id].(introduced := Introduce(introduced, e.netId))];
      }
      assert dynamic[..|dynamic|] == dynamic;
    }

    /** Others first, then the session's own entity with the clock the client interpolates against. */
    method EmitInGame(id: nat, dynamic: seq<Entity>, sequence: U32, ts: I32)
      requires id in sessions && sessions[id].wantsUpdates && sessions[id].spawned
      modifies `sessions, outbound
      ensures sessions
              == old(sessions)[id := EmitSessionOf(id, old(sessions)[id], staticEntities, dynamic, sequence, ts).0]
      ensures outbound.items
              == old(outbound.items) + EmitSessionOf(id, old(sessions)[id], staticEntities, dynamic, sequence, ts).1
    {
      hide Payload, UpdateFields, Others, SelfIn;
      var selfId := sessions[id].entity.netId;
      var others, self := CollectOthers(id, dynamic);
      if others != [] {
        var update := BuildUpdateArray(Opcodes.UPDATE_ARRAY, None, SignExtend(sequence), others, 1.0, 1.0);
        outbound.Push(OutboundMessage(id, false, update));
      }
      var introduced := sessions[id].introduced;
      var snap := EntityWrite(self.GetOr(sessions[id].entity), MaskFor(introduced, selfId));
      sessions := sessions[id := sessions[id].(introduced := Introduce(introduced, selfId))];
      var view := BuildUpdateArray(Opcodes.VIEW_UPDATE, Some(ts), SignExtend(sequence), [snap],
                                   snap.entity.health, snap.entity.energy);
      outbound.Push(OutboundMessage(id, false, view));
    }

    method EmitSession(id: nat, dynamic: seq<Entity>, sequence: U32, ts: I32)
      requires id in sessions
      modifies `sessions, outbound
      ensures sessions
              == old(sessions)[id := EmitSessionOf(id, old(sessions)[id], staticEntities, dynamic, sequence, ts).0]
      ensures outbound.items
              == old(outbound.items) + EmitSessionOf(id, old(sessions)[id], staticEntities, dynamic, sequence, ts).1
    {
      hide Framing.Framed, SnapshotFields, Others, SelfIn;
      if !sessions[id].wantsUpdates {
        assert sessions == sessions[id := sessions[id]];
        return;
      }
      if !sessions[id].spawned {
        assert sessions == sessions[id := sessions[id]];
        var bytes := BuildViewUpdateSnapshot(SignExtend(sequence), staticEntities + dynamic, 1.0, 1.0);
        outbound.Push(OutboundMessage(id, true, bytes));
        return;
      }
      EmitInGame(id, dynamic, sequence, ts);
    }

    method EmitSnapshots(provided: Option<seq<Entity>>, sequence: U32, ts: I32)
      modifies `sessions, outbound
      ensures State() == EmitSnapshotsOf(old(State()), provided, sequence, ts).0
      ensures outbound.items == old(outbound.items) + EmitSnapshotsOf(old(State()), provided, sequence, ts).1
    {
      hide EmitSessionOf, Dynamic, Ascending;
      var dynamic := Dynamic(State(), provided);
      var ids := Ascending(sessions.Keys);
      for i := 0 to |ids|
        invariant sessions.Keys == old(sessions).Keys
        invariant sessions == EmitAllOf(old(sessions), ids[..i], staticEntities, dynamic, sequence, ts).0
        invariant outbound.items
                  == old(outbound.items) + EmitAllOf(old(sessions), ids[..i], staticEntities, dynamic, sequence, ts).1
      {
        assert ids[..i + 1][..i] == ids[..i];
        EmitSession(ids[i], dynamic, sequence, ts);
      }
      assert ids[..|ids|] == ids;
    }

    /** The drained commands in order; changed says that some session may see something new. */
    method HandleCommands(cmds: seq<ClientCommand>, env: Environment) returns (changed: bool)
      modifies this, outbound
      ensures State() == CommandsOf(old(State()), cmds, env).0
      ensures outbound.items == old(outbound.items) + CommandsOf(old(State()), cmds, env).1
      ensures driven == old(driven) + DrivesOf(old(State()), cmds, env)
    {
      hide CommandOf, DriveOf;
      changed := false;
      for i := 0 to |cmds|
        invariant State() == CommandsOf(old(State()), cmds[..i], env).0
        invariant outbound.items == old(outbound.items) + CommandsOf(old(State()), cmds[..i], env).1
        invariant driven == old(driven) + DrivesOf(old(State()), cmds[..i], env)
      {
        assert cmds[..i + 1][..i] == cmds[..i];
        var visible := HandleCommand(cmds[i], env.sequence, env.hosting, Reply(env, i));
        changed := changed || visible;
      }
      assert cmds[..|cmds|] == cmds;
    }

    /** Snapshots are skipped only when nothing changed and no session is there to get one. */
    method Tick(env: Environment)
      modifies this, inbound, outbound
      ensures inbound.items == []
      ensures State() == TickOf(old(State()), old(inbound.items), env).0
      ensures outbound.items == old(outbound.items) + TickOf(old(State()), old(inbound.items), env).1
      ensures driven == old(driven) + DrivesOf(old(State()), old(inbound.items), env)
    {
      hide EmitSnapshotsOf, CommandsOf, DrivesOf;
      var cmds := inbound.DrainAll();
      var visibilityChanged := HandleCommands(cmds, env);
      if visibilityChanged || |sessions| > 0 {
        EmitSnapshots(env.provided, env.sequence, env.ts);
      } else {
        NobodyToServe(State(), env);
        assert outbound.items + [] == outbound.items;
      }
    }
  }
}
