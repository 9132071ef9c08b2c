/**
 Replicated rosters: a client that folds the player records of its reliable byte
 stream knows every other live session's name and current team, in every reachable state.
 */
module Roster {
  import opened Bits
  import opened Cursors
  import opened Framing
  import opened EntityCodec
  import opened Queues
  import opened Packets
  import opened Bridge
  import opened History
  import Opcodes

  /** What a client knows of a player. */
  datatype Entry = Entry(team: int, name: Text, nametag: Text)

  type Roster = map<int, Entry>

  // ---- The client's side ------------------------------------------------------------------

  /** The reliable bytes a session gets, back to back. */
  function StreamTo(msgs: seq<Message>, id: nat): seq<Byte> {
    if msgs == [] then []
    else
      var m := msgs[|msgs| - 1];
      StreamTo(msgs[..|msgs| - 1], id) + if m.reliable && m.sessionId == id then m.bytes else []
  }

  /** The messages addressed to a session, in order. */
  function OnlyTo(msgs: seq<Message>, id: nat): seq<Message> {
    if msgs == [] then []
    else OnlyTo(msgs[..|msgs| - 1], id) + if msgs[|msgs| - 1].sessionId == id then [msgs[|msgs| - 1]] else []
  }

  lemma {:induction false} StreamConcat(a: seq<Message>, b: seq<Message>, id: nat)
    ensures StreamTo(a + b, id) == StreamTo(a, id) + StreamTo(b, id)
    decreases |b|
  {
    if b == [] {
      assert a + b == a;
    } else {
      var n, m := |b| - 1, b[|b| - 1];
      assert (a + b)[..|a| + n] == a + b[..n];
      StreamConcat(a, b[..n], id);
      ConcatAssoc(StreamTo(a, id), StreamTo(b[..n], id), if m.reliable && m.sessionId == id then m.bytes else []);
    }
  }

  lemma {:induction false} OnlyToConcat(a: seq<Message>, b: seq<Message>, id: nat)
    ensures OnlyTo(a + b, id) == OnlyTo(a, id) + OnlyTo(b, id)
    decreases |b|
  {
    if b == [] {
      assert a + b == a;
    } else {
      var n := |b| - 1;
      assert (a + b)[..|a| + n] == a + b[..n];
      OnlyToConcat(a, b[..n], id);
    }
  }

  /** Messages to others play no part in a session's stream. */
  lemma {:induction false} OnlyToStream(msgs: seq<Message>, id: nat)
    ensures StreamTo(OnlyTo(msgs, id), id) == StreamTo(msgs, id)
  {
    if msgs != [] {
      var n, m := |msgs| - 1, msgs[|msgs| - 1];
      OnlyToStream(msgs[..n], id);
      var before := OnlyTo(msgs[..n], id);
      if m.sessionId == id {
        assert (before + [m])[..|before|] == before;
      } else {
        assert before + [] == before && StreamTo(msgs[..n], id) + [] == StreamTo(msgs[..n], id);
      }
    }
  }

  lemma {:induction false} NoneTo(msgs: seq<Message>, id: nat)
    requires forall i :: 0 <= i < |msgs| ==> msgs[i].sessionId != id
    ensures OnlyTo(msgs, id) == []
  {
    if msgs != [] {
      NoneTo(msgs[..|msgs| - 1], id);
    }
  }

  /** A roster record replaces what was known of the player, a stats record only its team. */
  function Noted(r: Roster, rec: PlayerRecord): Roster {
    match rec
    case Introduced(playerId, team, name, nametag) => r[playerId := Entry(team, name, nametag)]
    case Changed(playerId, team) =>
      r[playerId := if playerId in r then r[playerId].(team := team) else Entry(team, [], [])]
  }

  function ApplyFrame(r: Roster, f: Frame): Roster {
    var rec := ReadPlayer(f);
    if rec.None? then r else Noted(r, rec.value)
  }

  function ApplyFrames(r: Roster, frames: seq<Frame>): Roster {
    if frames == [] then r
    else ApplyFrame(ApplyFrames(r, frames[..|frames| - 1]), frames[|frames| - 1])
  }

  /** The roster a client builds from everything sent to it. */
  function ClientRoster(msgs: seq<Message>, id: nat): Roster {
    ApplyFrames(map[], Parse(StreamTo(msgs, id)).frames)
  }

  // ---- Message by message ---------------------------------------------------------------------

  function FrameList(m: Message): seq<Frame> {
    Parse(m.bytes).frames
  }

  /** A reliable message is whole frames and nothing else. */
  predicate Whole(m: Message) {
    m.reliable ==> IsFrames(m.bytes)
  }

  ghost predicate AllWhole(msgs: seq<Message>) {
    forall i :: 0 <= i < |msgs| ==> Whole(msgs[i])
  }

  function ApplyMessage(r: Roster, m: Message, id: nat): Roster {
    if m.reliable && m.sessionId == id then ApplyFrames(r, FrameList(m)) else r
  }

  function ApplyMessages(r: Roster, msgs: seq<Message>, id: nat): Roster {
    if msgs == [] then r
    else ApplyMessage(ApplyMessages(r, msgs[..|msgs| - 1], id), msgs[|msgs| - 1], id)
  }

  lemma {:induction false} ApplyFramesConcat(r: Roster, a: seq<Frame>, b: seq<Frame>)
    ensures ApplyFrames(r, a + b) == ApplyFrames(ApplyFrames(r, a), b)
    decreases |b|
  {
    hide ApplyFrame;
    if b == [] {
      assert a + b == a;
    } else {
      var n := |b| - 1;
      assert (a + b)[..|a| + n] == a + b[..n];
      ApplyFramesConcat(r, a, b[..n]);
    }
  }

  lemma {:induction false} ApplyMessagesConcat(r: Roster, a: seq<Message>, b: seq<Message>, id: nat)
    ensures ApplyMessages(r, a + b, id) == ApplyMessages(ApplyMessages(r, a, id), b, id)
    decreases |b|
  {
    hide ApplyMessage;
    if b == [] {
      assert a + b == a;
    } else {
      var n := |b| - 1;
      assert (a + b)[..|a| + n] == a + b[..n];
      ApplyMessagesConcat(r, a, b[..n], id);
    }
  }

  lemma {:induction false} OnlyToApplied(r: Roster, msgs: seq<Message>, id: nat)
    requires AllWhole(msgs)
    ensures AllWhole(OnlyTo(msgs, id)) && ApplyMessages(r, OnlyTo(msgs, id), id) == ApplyMessages(r, msgs, id)
  {
    hide ApplyFrames, Whole, FrameList;
    if msgs != [] {
      var n, m := |msgs| - 1, msgs[|msgs| - 1];
      assert AllWhole(msgs[..n]) && Whole(m);
      OnlyToApplied(r, msgs[..n], id);
      var before := OnlyTo(msgs[..n], id);
      if m.sessionId == id {
        assert (before + [m])[..|before|] == before;
      } else {
        assert before + [] == before;
      }
    }
  }

  /** Cutting the byte stream into frames and going message by message give the same roster. */
  lemma {:induction false} StreamIsMessages(msgs: seq<Message>, id: nat)
    requires AllWhole(msgs)
    ensures ClientRoster(msgs, id) == ApplyMessages(map[], msgs, id)
    ensures Parse(StreamTo(msgs, id)).rest == [] && !Parse(StreamTo(msgs, id)).bad
  {
    hide ApplyFrame;
    if msgs != [] {
      var n := |msgs| - 1;
      var m, before := msgs[n], StreamTo(msgs[..n], id);
      assert AllWhole(msgs[..n]);
      StreamIsMessages(msgs[..n], id);
      if m.reliable && m.sessionId == id {
        assert Whole(m);
        FramesConcat(before, m.bytes);
        ApplyFramesConcat(map[], Parse(before).frames, FrameList(m));
      } else {
        assert before + [] == before;
      }
    }
  }

  // ---- What each kind of message does ------------------------------------------------------------

  /** A message that leaves every roster alone. */
  ghost predicate Neutral(m: Message) {
    Whole(m) && (m.reliable ==> forall i :: 0 <= i < |FrameList(m)| ==> ReadPlayer(FrameList(m)[i]).None?)
  }

  ghost predicate AllNeutral(msgs: seq<Message>) {
    forall i :: 0 <= i < |msgs| ==> Neutral(msgs[i])
  }

  lemma {:induction false} NeutralFrames(r: Roster, frames: seq<Frame>)
    requires forall i :: 0 <= i < |frames| ==> ReadPlayer(frames[i]).None?
    ensures ApplyFrames(r, frames) == r
  {
    if frames != [] {
      NeutralFrames(r, frames[..|frames| - 1]);
    }
  }

  lemma {:induction false} NeutralMessages(r: Roster, msgs: seq<Message>, id: nat)
    requires AllNeutral(msgs)
    ensures ApplyMessages(r, msgs, id) == r
  {
    hide ReadPlayer;
    if msgs != [] {
      var n := |msgs| - 1;
      assert AllNeutral(msgs[..n]) && Neutral(msgs[n]);
      NeutralMessages(r, msgs[..n], id);
      if msgs[n].reliable {
        NeutralFrames(r, FrameList(msgs[n]));
      }
    }
  }

  lemma {:induction false} FramedNeutral(id: nat, opcode: Byte, fs: seq<Field>)
    requires opcode != Opcodes.ADD_TO_ROSTER && opcode != Opcodes.UPDATE_STATS
    ensures Neutral(OutboundMessage(id, true, Framed(opcode, fs)))
  {
    hide Framed, Parse;
    FramedParse(opcode, fs);
  }

  /** The bytes are one frame carrying this record. */
  ghost predicate Announces(bytes: seq<Byte>, rec: PlayerRecord) {
    exists f :: Parse(bytes) == Parsed([f], [], false) && ReadPlayer(f) == Some(rec)
  }

  lemma {:induction false} RosterAnnounces(playerId: I32, team: U16, name: Text)
    requires |name| <= MAX_ROSTER_NAME
    ensures Announces(AddToRoster(playerId, team, name), Introduced(playerId, team, Sanitized(name), []))
  {
    var f := Frame(Opcodes.ADD_TO_ROSTER, Payload(AddToRosterFields(playerId, team, name, [])));
    hide AddToRosterFields, ReadPlayer, Payload, Sanitized;
    AddToRosterIsFrame(playerId, team, name);
    OneFrame(f);
    RosterRead(playerId, team, name);
  }

  lemma {:induction false} StatsAnnounces(playerId: I32, team: U16)
    ensures Announces(UpdateStatsFramed(playerId, team), Changed(playerId, team))
  {
    var f := Frame(Opcodes.UPDATE_STATS, Payload(UpdateStatsFields(playerId, team)));
    hide UpdateStatsFields, UpdateStatsFramed, ReadPlayer, Payload;
    UpdateStatsIsFrame(playerId, team);
    OneFrame(f);
    StatsRead(playerId, team);
  }

  lemma {:induction false} AnnouncementApplied(r: Roster, m: Message, id: nat, rec: PlayerRecord)
    requires m.reliable && Announces(m.bytes, rec)
    ensures Whole(m)
    ensures ApplyMessage(r, m, id) == if m.sessionId == id then Noted(r, rec) else r
  {
    hide ReadPlayer, Parse, Noted;
    var f :| Parse(m.bytes) == Parsed([f], [], false) && ReadPlayer(f) == Some(rec);
    assert [f][..0] == [];
    assert ApplyFrames(r, [f]) == ApplyFrame(ApplyFrames(r, []), f);
  }

  lemma {:induction false} NotedTwice(r: Roster, rec: PlayerRecord)
    ensures Noted(Noted(r, rec), rec) == Noted(r, rec)
  {
  }

  lemma {:induction false} ToPeersApplied(r: Roster, ids: seq<nat>, except: nat, bytes: seq<Byte>,
                                          viewer: nat, rec: PlayerRecord)
    requires Announces(bytes, rec)
    ensures AllWhole(ToPeers(ids, except, bytes))
    ensures ApplyMessages(r, ToPeers(ids, except, bytes), viewer)
            == if viewer in ids && viewer != except then Noted(r, rec) else r
  {
    hide Announces, Whole, ApplyMessage, Noted;
    if ids != [] {
      var n, id := |ids| - 1, ids[|ids| - 1];
      var before := ToPeers(ids[..n], except, bytes);
      assert ids == ids[..n] + [id];
      ToPeersApplied(r, ids[..n], except, bytes, viewer, rec);
      NotedTwice(r, rec);
      if id == except {
        assert before + [] == before;
      } else {
        var m := OutboundMessage(id, true, bytes);
        AnnouncementApplied(ApplyMessages(r, before, viewer), m, viewer, rec);
        assert (before + [m])[..|before|] == before;
      }
    }
  }

  lemma {:induction false} ToAllNeutral(ids: seq<nat>, playerId: int)
    ensures AllNeutral(ToAll(ids, BirthNotice(playerId)))
  {
    hide Neutral;
    if ids != [] {
      ToAllNeutral(ids[..|ids| - 1], playerId);
      FramedNeutral(ids[|ids| - 1], Opcodes.BIRTH_NOTICE, [Int32(playerId), Int32(1)]);
    }
  }

  // ---- Agreement ------------------------------------------------------------------------------------

  /** Session records carry their own player id, a real team and a name that fits a roster frame. */
  ghost predicate WellKept(sessions: map<nat, Session>) {
    forall id :: id in sessions ==>
      && sessions[id].playerId == SessionPlayerId(id)
      && 0 <= sessions[id].team <= 2
      && |sessions[id].name| <= MAX_ROSTER_NAME
  }

  /** What a client should know of a session: its team, its name as ASCII, and no nametag. */
  function EntryOf(s: Session): Entry {
    Entry(s.team, Sanitized(s.name), [])
  }

  /** The roster r of session `viewer` shows every other session's team and name. */
  ghost predicate Agrees(r: Roster, sessions: map<nat, Session>, viewer: nat) {
    forall id :: id in sessions && id != viewer ==>
      sessions[id].playerId in r && r[sessions[id].playerId] == EntryOf(sessions[id])
  }

  ghost predicate DistinctPlayers(ids: set<nat>) {
    forall a, b :: a in ids && b in ids && SessionPlayerId(a) == SessionPlayerId(b) ==> a == b
  }

  /** No viewer hears of two sessions under one player id; its own id it may share, being never told about itself. */
  ghost predicate DistinctOthers(ids: set<nat>) {
    forall v :: v in ids ==> DistinctPlayers(ids - {v})
  }

  lemma {:induction false} WithoutOne(ids: set<nat>, v: nat)
    requires DistinctOthers(ids) && v in ids
    ensures DistinctPlayers(ids - {v})
  {
  }

  lemma {:induction false} FewerOthers(ids: set<nat>, all: set<nat>)
    requires DistinctOthers(all) && ids <= all
    ensures DistinctOthers(ids)
  {
    hide SessionPlayerId;
    forall v | v in ids ensures DistinctPlayers(ids - {v}) {
      WithoutOne(all, v);
    }
  }

  /** A newcomer hears of everybody else. */
  lemma {:induction false} NewcomerHears(r: Roster, ids: seq<nat>, sessions: map<nat, Session>, joined: nat)
    requires joined in sessions && forall i :: 0 <= i < |ids| ==> ids[i] in sessions
    requires WellKept(sessions) && DistinctOthers(sessions.Keys)
    ensures var r' := ApplyMessages(r, Introductions(ids, sessions, joined), joined);
            forall i :: 0 <= i < |ids| && ids[i] != joined ==>
              SessionPlayerId(ids[i]) in r' && r'[SessionPlayerId(ids[i])] == EntryOf(sessions[ids[i]])
  {
    hide AddToRoster, Announces, ApplyMessage, ApplyMessages, WellKept, DistinctOthers, SessionPlayerId, Whole;
    if ids != [] {
      var n, id := |ids| - 1, ids[|ids| - 1];
      var before := Introductions(ids[..n], sessions, joined);
      NewcomerHears(r, ids[..n], sessions, joined);
      assert DistinctPlayers(sessions.Keys - {joined}) by {
        WithoutOne(sessions.Keys, joined);
      }
      if id != joined {
        IntroductionApplied(r, ids, sessions, joined, joined);
      } else {
        assert before + [] == before;
      }
    }
  }

  /** One exchange of roster records, as seen by either side or by a bystander. */
  lemma {:induction false} IntroductionApplied(r: Roster, ids: seq<nat>, sessions: map<nat, Session>, joined: nat,
                                               viewer: nat)
    requires ids != [] && ids[|ids| - 1] != joined
    requires joined in sessions && forall i :: 0 <= i < |ids| ==> ids[i] in sessions
    requires WellKept(sessions)
    ensures var n, id := |ids| - 1, ids[|ids| - 1];
            var r1 := ApplyMessages(r, Introductions(ids[..n], sessions, joined), viewer);
            ApplyMessages(r, Introductions(ids, sessions, joined), viewer)
            == if viewer == joined then r1[SessionPlayerId(id) := EntryOf(sessions[id])]
               else if viewer == id then r1[SessionPlayerId(joined) := EntryOf(sessions[joined])]
               else r1
    ensures Whole(Introductions(ids, sessions, joined)[|Introductions(ids[..|ids| - 1], sessions, joined)|])
    ensures Whole(Introductions(ids, sessions, joined)[|Introductions(ids[..|ids| - 1], sessions, joined)| + 1])
  {
    hide AddToRoster, Announces, ApplyMessage, Whole;
    var n, id := |ids| - 1, ids[|ids| - 1];
    var before := Introductions(ids[..n], sessions, joined);
    var existing, newcomer := sessions[id], sessions[joined];
    var m1 := OutboundMessage(joined, true, AddToRoster(existing.playerId, existing.team, existing.name));
    var m2 := OutboundMessage(id, true, AddToRoster(newcomer.playerId, newcomer.team, newcomer.name));
    RosterAnnounces(existing.playerId, existing.team, existing.name);
    RosterAnnounces(newcomer.playerId, newcomer.team, newcomer.name);
    var r1 := ApplyMessages(r, before, viewer);
    AnnouncementApplied(r1, m1, viewer,
                        Introduced(existing.playerId, existing.team, Sanitized(existing.name), []));
    AnnouncementApplied(ApplyMessage(r1, m1, viewer), m2, viewer,
                        Introduced(newcomer.playerId, newcomer.team, Sanitized(newcomer.name), []));
    ApplyTwo(r, before, m1, m2, viewer);
    assert Introductions(ids, sessions, joined) == before + [m1, m2];
  }

  lemma {:induction false} ApplyTwo(r: Roster, msgs: seq<Message>, m1: Message, m2: Message, id: nat)
    ensures ApplyMessages(r, msgs + [m1, m2], id)
            == ApplyMessage(ApplyMessage(ApplyMessages(r, msgs, id), m1, id), m2, id)
  {
    hide ApplyMessage;
    assert (msgs + [m1, m2])[..|msgs| + 1] == msgs + [m1];
    assert (msgs + [m1])[..|msgs|] == msgs;
  }

  /** Everybody already there hears of the newcomer, and of nothing else. */
  lemma {:induction false} PeersHear(r: Roster, ids: seq<nat>, sessions: map<nat, Session>, joined: nat, viewer: nat)
    requires joined in sessions && forall i :: 0 <= i < |ids| ==> ids[i] in sessions
    requires WellKept(sessions) && viewer != joined
    ensures ApplyMessages(r, Introductions(ids, sessions, joined), viewer)
            == if viewer in ids then r[SessionPlayerId(joined) := EntryOf(sessions[joined])] else r
  {
    hide ApplyMessage, WellKept, SessionPlayerId, Whole;
    if ids != [] {
      var n, id := |ids| - 1, ids[|ids| - 1];
      assert ids == ids[..n] + [id];
      PeersHear(r, ids[..n], sessions, joined, viewer);
      if id != joined {
        IntroductionApplied(r, ids, sessions, joined, viewer);
      } else {
        assert Introductions(ids, sessions, joined) == Introductions(ids[..n], sessions, joined);
      }
    }
  }

  lemma {:induction false} IntroductionsWhole(ids: seq<nat>, sessions: map<nat, Session>, joined: nat)
    requires joined in sessions && forall i :: 0 <= i < |ids| ==> ids[i] in sessions
    requires WellKept(sessions)
    ensures AllWhole(Introductions(ids, sessions, joined))
  {
    hide Whole, AddToRoster;
    if ids != [] {
      var n, id := |ids| - 1, ids[|ids| - 1];
      var before := Introductions(ids[..n], sessions, joined);
      IntroductionsWhole(ids[..n], sessions, joined);
      if id != joined {
        IntroductionApplied(map[], ids, sessions, joined, joined);
      }
    }
  }

  // ---- One event -------------------------------------------------------------------------------------

  /** Same sessions with the same players, teams and names. */
  ghost predicate SamePeople(a: map<nat, Session>, b: map<nat, Session>) {
    && a.Keys == b.Keys
    && forall id :: id in a ==> a[id].playerId == b[id].playerId && a[id].team == b[id].team && a[id].name == b[id].name
  }

  lemma {:induction false} EmitSessionNeutral(id: nat, s: Session, statics: seq<Entity>, dynamic: seq<Entity>,
                                              sequence: U32, ts: I32)
    ensures AllNeutral(EmitSessionOf(id, s, statics, dynamic, sequence, ts).1)
    ensures var s' := EmitSessionOf(id, s, statics, dynamic, sequence, ts).0;
            s'.playerId == s.playerId && s'.team == s.team && s'.name == s.name
  {
    hide Others, SelfIn, OthersMessage, SelfMessage, ReadPlayer;
    FramedNeutral(id, Opcodes.VIEW_UPDATE, SnapshotFields(SignExtend(sequence), statics + dynamic, 1.0, 1.0));
    var (others, seen) := Others(dynamic, s.entity.netId, s.introduced);
    Unreliable(OthersMessage(id, sequence, others));
    var self := SelfIn(dynamic, s.entity.netId).GetOr(s.entity);
    Unreliable(SelfMessage(id, sequence, ts, EntityWrite(self, MaskFor(seen, s.entity.netId))));
  }

  lemma {:induction false} Unreliable(m: Message)
    ensures !m.reliable ==> Neutral(m)
    ensures forall id, sequence, others :: m == OthersMessage(id, sequence, others) ==> !m.reliable
    ensures forall id, sequence, ts, self :: m == SelfMessage(id, sequence, ts, self) ==> !m.reliable
  {
  }

  lemma {:induction false} EmitAllNeutral(sessions: map<nat, Session>, ids: seq<nat>, statics: seq<Entity>,
                                          dynamic: seq<Entity>,
                                          sequence: U32, ts: I32)
    requires forall i :: 0 <= i < |ids| ==> ids[i] in sessions
    ensures AllNeutral(EmitAllOf(sessions, ids, statics, dynamic, sequence, ts).1)
    ensures SamePeople(sessions, EmitAllOf(sessions, ids, statics, dynamic, sequence, ts).0)
  {
    hide Neutral, EmitSessionOf;
    if ids != [] {
      var n := |ids| - 1;
      EmitAllNeutral(sessions, ids[..n], statics, dynamic, sequence, ts);
      var done := EmitAllOf(sessions, ids[..n], statics, dynamic, sequence, ts).0;
      EmitSessionNeutral(ids[n], done[ids[n]], statics, dynamic, sequence, ts);
    }
  }

  lemma {:induction false} SpawnNeutral(w: World, id: nat, pad: Entity, sequence: U32, reply: Option<int>)
    requires id in w.sessions
    ensures AllNeutral(SpawnOnPadOf(w, id, pad, sequence, reply).1)
    ensures SamePeople(w.sessions, SpawnOnPadOf(w, id, pad, sequence, reply).0.sessions)
  {
    hide Neutral, Ascending, ToAll;
    var e := SpawnedEntity(w, id, pad, reply);
    TankSpawnNeutral(id, e, sequence);
    ResultNeutral(id, 0, []);
    ToAllNeutral(Ascending(w.sessions.Keys), w.sessions[id].playerId);
  }

  lemma {:induction false} TankSpawnNeutral(id: nat, e: Entity, sequence: U32)
    ensures Neutral(OutboundMessage(id, true, TankSpawnOf(e, sequence)))
  {
    hide Neutral, Framed;
    FramedNeutral(id, Opcodes.TANK_SPAWN,
                  TankSpawnFields(sequence, e.netId, e.unitType, e.team,
                                  [e.pos.x, e.pos.y, e.pos.z], [e.rot.x, e.rot.y, e.rot.z]));
  }

  lemma {:induction false} ResultNeutral(id: nat, code: Byte, message: Text)
    ensures Neutral(OutboundMessage(id, true, ReincarnateResult(code, message)))
  {
    FramedNeutral(id, Opcodes.REINCARNATE, [Octet(code)] + StringFields(message));
  }

  /** A step of the sessions that keeps every live viewer's roster right, given what it was sent. */
  ghost predicate KeepsAgreement(before: map<nat, Session>, out: seq<Message>, after: map<nat, Session>) {
    && WellKept(after)
    && AllWhole(out)
    && (forall r, viewer :: viewer in before && viewer in after && Agrees(r, before, viewer) ==>
          Agrees(ApplyMessages(r, out, viewer), after, viewer))
    && (forall viewer :: viewer !in before && viewer in after ==>
      Agrees(ApplyMessages(map[], out, viewer), after, viewer))
  }

  lemma {:induction false} NeutralKeeps(before: map<nat, Session>, out: seq<Message>, after: map<nat, Session>)
    requires WellKept(before) && AllNeutral(out) && SamePeople(before, after)
    ensures KeepsAgreement(before, out, after)
  {
    hide Neutral, Whole, ApplyMessage;
    assert AllWhole(out) by {
      forall i | 0 <= i < |out| ensures Whole(out[i]) {
        NeutralIsWhole(out[i]);
      }
    }
    forall r: Roster, viewer | viewer in before && viewer in after && Agrees(r, before, viewer)
      ensures Agrees(ApplyMessages(r, out, viewer), after, viewer)
    {
      NeutralMessages(r, out, viewer);
    }
  }

  lemma {:induction false} NeutralIsWhole(m: Message)
    requires Neutral(m)
    ensures Whole(m)
  {
  }

  /** What a session already there makes of a join. */
  lemma {:induction false} JoinHeard(before: map<nat, Session>, after: map<nat, Session>, joined: nat,
                                     r: Roster, viewer: nat)
    requires viewer in before && joined !in before && Agrees(r, before, viewer) && WellKept(after)
    requires joined in after && after == before[joined := after[joined]] && DistinctOthers(after.Keys)
    ensures Agrees(ApplyMessages(r, Introductions(Ascending(after.Keys), after, joined), viewer), after, viewer)
  {
    hide ApplyMessages, Introductions, Ascending, SessionPlayerId, DistinctOthers;
    AscendingFacts(after.Keys);
    PeersHear(r, Ascending(after.Keys), after, joined, viewer);
    WithoutOne(after.Keys, viewer);
  }

  lemma {:induction false} JoinKeeps(w: World, cmd: ClientCommand)
    requires WellKept(w.sessions) && cmd.sessionId !in w.sessions && |cmd.text| <= MAX_ROSTER_NAME
    requires DistinctOthers(w.sessions.Keys + {cmd.sessionId})
    ensures KeepsAgreement(w.sessions, AddSessionOf(w, cmd).1, AddSessionOf(w, cmd).0.sessions)
  {
    hide Whole, ApplyMessages, Introductions, AllWhole, Ascending, SessionPlayerId, Digits, Ascii, DistinctOthers;
    var j := cmd.sessionId;
    var after := AddSessionOf(w, cmd).0.sessions;
    var ids := Ascending(after.Keys);
    var out := Introductions(ids, after, j);
    NewNameFits(cmd);
    assert after.Keys == w.sessions.Keys + {j};
    assert WellKept(after);
    AscendingFacts(after.Keys);
    IntroductionsWhole(ids, after, j);
    forall r: Roster, viewer | viewer in w.sessions && viewer in after && Agrees(r, w.sessions, viewer)
      ensures Agrees(ApplyMessages(r, out, viewer), after, viewer)
    {
      JoinHeard(w.sessions, after, j, r, viewer);
    }
    NewcomerHears(map[], ids, after, j);
    assert forall id :: id in after ==> id in ids;
    assert Agrees(ApplyMessages(map[], out, j), after, j);
  }

  lemma {:induction false} NewNameFits(cmd: ClientCommand)
    requires |cmd.text| <= MAX_ROSTER_NAME
    ensures |NewSession(cmd).name| <= MAX_ROSTER_NAME
  {
    DigitsShort(SessionPlayerId(cmd.sessionId), 10);
  }

  function Pow10(k: nat): nat {
    if k == 0 then 1 else 10 * Pow10(k - 1)
  }

  lemma {:induction false} DigitsShort(n: nat, k: nat)
    requires k > 0 && n < Pow10(k)
    ensures |Digits(n)| <= k
    decreases k
  {
    if n >= 10 {
      DigitsShort(n / 10, k - 1);
    }
  }

  /** What one viewer makes of a team switch. */
  lemma {:induction false} SwitchHeard(w: World, id: nat, team: int, r: Roster, viewer: nat)
    requires WellKept(w.sessions) && id in w.sessions && DistinctOthers(w.sessions.Keys) && 1 <= team <= 2
    requires viewer in w.sessions && Agrees(r, w.sessions, viewer)
    ensures Agrees(ApplyMessages(r, TeamSwitchOf(w, id, team).1, viewer), TeamSwitchOf(w, id, team).0.sessions, viewer)
  {
    hide Whole, ApplyMessage, AllWhole, ToPeers, Ascending, UpdateStatsFramed, Announces, ReincarnateResult,
      ApplyMessages, Neutral, DistinctOthers, SessionPlayerId;
    WithoutOne(w.sessions.Keys, viewer);
    var s := w.sessions[id];
    var bytes := UpdateStatsFramed(s.playerId, team);
    var first := [OutboundMessage(id, true, ReincarnateResult(TEAM_SWITCH_OK, []))];
    var ids := Ascending(w.sessions.Keys);
    var peers := ToPeers(ids, id, bytes);
    AscendingFacts(w.sessions.Keys);
    StatsAnnounces(s.playerId, team);
    ResultNeutral(id, TEAM_SWITCH_OK, []);
    NeutralMessages(r, first, viewer);
    ToPeersApplied(r, ids, id, bytes, viewer, Changed(s.playerId, team));
    ApplyMessagesConcat(r, first, peers, viewer);
  }

  lemma {:induction false} SwitchWhole(w: World, id: nat, team: int)
    requires WellKept(w.sessions) && id in w.sessions && 1 <= team <= 2
    ensures AllWhole(TeamSwitchOf(w, id, team).1)
  {
    hide Whole, AllWhole, ToPeers, Ascending, UpdateStatsFramed, Announces, ReincarnateResult, Neutral;
    var s := w.sessions[id];
    var bytes := UpdateStatsFramed(s.playerId, team);
    var ids := Ascending(w.sessions.Keys);
    StatsAnnounces(s.playerId, team);
    ResultNeutral(id, TEAM_SWITCH_OK, []);
    ToPeersApplied(map[], ids, id, bytes, id, Changed(s.playerId, team));
    WholeConcat([OutboundMessage(id, true, ReincarnateResult(TEAM_SWITCH_OK, []))], ToPeers(ids, id, bytes));
  }

  lemma {:induction false} ValidSwitchKeeps(w: World, id: nat, team: int)
    requires WellKept(w.sessions) && id in w.sessions && DistinctOthers(w.sessions.Keys) && 1 <= team <= 2
    ensures KeepsAgreement(w.sessions, TeamSwitchOf(w, id, team).1, TeamSwitchOf(w, id, team).0.sessions)
  {
    hide Whole, AllWhole, ApplyMessages, Agrees, ToPeers, Ascending, UpdateStatsFramed, ReincarnateResult;
    var (w', out) := TeamSwitchOf(w, id, team);
    assert w'.sessions.Keys == w.sessions.Keys;
    SwitchWhole(w, id, team);
    forall r: Roster, viewer | viewer in w.sessions && viewer in w'.sessions && Agrees(r, w.sessions, viewer)
      ensures Agrees(ApplyMessages(r, out, viewer), w'.sessions, viewer)
    {
      SwitchHeard(w, id, team, r, viewer);
    }
  }

  lemma {:induction false} SwitchKeeps(w: World, id: nat, team: int)
    requires WellKept(w.sessions) && id in w.sessions && DistinctOthers(w.sessions.Keys)
    ensures KeepsAgreement(w.sessions, TeamSwitchOf(w, id, team).1, TeamSwitchOf(w, id, team).0.sessions)
  {
    hide KeepsAgreement, WellKept, ToPeers, Ascending, UpdateStatsFramed, ReincarnateResult, Neutral;
    if team == 1 || team == 2 {
      ValidSwitchKeeps(w, id, team);
    } else {
      ResultNeutral(id, INVALID_TEAM, Ascii("Invalid team."));
      NeutralKeeps(w.sessions, TeamSwitchOf(w, id, team).1, w.sessions);
    }
  }

  lemma {:induction false} WholeConcat(a: seq<Message>, b: seq<Message>)
    requires AllNeutral(a) && AllWhole(b)
    ensures AllWhole(a + b)
  {
    hide Whole, Neutral;
    forall i | 0 <= i < |a| ensures Whole(a[i]) {
      NeutralIsWhole(a[i]);
    }
  }

  lemma {:induction false} LeaveKeeps(w: World, id: nat)
    requires WellKept(w.sessions)
    ensures KeepsAgreement(w.sessions, [], RemoveSessionOf(w, id).sessions)
  {
  }

  /** Names handed to the bridge fit a roster record. */
  predicate NameFits(e: Event) {
    e.Command? && e.cmd.kind.ClientConnected? ==> |e.cmd.text| <= MAX_ROSTER_NAME
  }

  lemma {:induction false} ReincarnateKeeps(w: World, cmd: ClientCommand, sequence: U32, reply: Option<int>)
    requires WellKept(w.sessions) && DistinctOthers(w.sessions.Keys)
    ensures var (w', out) := ReincarnateOf(w, cmd, sequence, reply);
            KeepsAgreement(w.sessions, out, w'.sessions)
  {
    hide KeepsAgreement, TeamSwitchOf, SpawnOnPadOf, ResolveSpawnPad, ReincarnateResult;
    var id := cmd.sessionId;
    if id !in w.sessions {
      NeutralKeeps(w.sessions, [], w.sessions);
    } else if cmd.team != 0 {
      SwitchKeeps(w, id, cmd.team);
    } else {
      var pad := ResolveSpawnPad(w.statics, w.sessions[id].team, cmd.unitId, cmd.padId);
      if pad.None? {
        ResultNeutral(id, INVALID_ENTRY, Ascii("Invalid Entry Point."));
        NeutralKeeps(w.sessions, ReincarnateOf(w, cmd, sequence, reply).1, w.sessions);
      } else {
        SpawnNeutral(w, id, pad.value, sequence, reply);
        NeutralKeeps(w.sessions, SpawnOnPadOf(w, id, pad.value, sequence, reply).1,
                     SpawnOnPadOf(w, id, pad.value, sequence, reply).0.sessions);
      }
    }
  }

  lemma {:induction false} EventKeeps(w: World, e: Event)
    requires WellKept(w.sessions) && NameFits(e) && DistinctOthers(EventOf(w, e).0.sessions.Keys + w.sessions.Keys)
    ensures KeepsAgreement(w.sessions, EventOf(w, e).1, EventOf(w, e).0.sessions)
  {
    hide KeepsAgreement, EmitAllOf, ReincarnateOf, AddSessionOf, RemoveSessionOf, DistinctOthers;
    SessionsAfter(w, e);
    FewerOthers(w.sessions.Keys, EventOf(w, e).0.sessions.Keys + w.sessions.Keys);
    match e
    case Snapshots(provided, sequence, ts) =>
      EmitAllNeutral(w.sessions, Ascending(w.sessions.Keys), w.statics, Dynamic(w, provided), sequence, ts);
      NeutralKeeps(w.sessions, EventOf(w, e).1, EventOf(w, e).0.sessions);
    case Command(cmd, sequence, reply) =>
      match cmd.kind
      case ClientConnected =>
        if cmd.sessionId in w.sessions {
          assert AddSessionOf(w, cmd) == (w, []) by { AlreadyThere(w, cmd); }
          NeutralKeeps(w.sessions, [], w.sessions);
        } else {
          assert w.sessions.Keys + {cmd.sessionId} == EventOf(w, e).0.sessions.Keys + w.sessions.Keys;
          JoinKeeps(w, cmd);
        }
      case Disconnected => LeaveKeeps(w, cmd.sessionId);
      case Reincarnate =>
        ReincarnateKeeps(w, cmd, sequence, reply);
      case WantUpdates => NeutralKeeps(w.sessions, [], WantUpdatesOf(w, cmd.sessionId).sessions);
      case ActionInput => NeutralKeeps(w.sessions, [], w.sessions);
      case LoginUser => NeutralKeeps(w.sessions, [], w.sessions);
      case LoginPassword => NeutralKeeps(w.sessions, [], w.sessions);
  }

  lemma {:induction false} AlreadyThere(w: World, cmd: ClientCommand)
    requires cmd.sessionId in w.sessions
    ensures AddSessionOf(w, cmd) == (w, [])
  {
  }

  // ---- All runs ----------------------------------------------------------------------------------------

  /** Every live session's client, folding its byte stream since it joined, agrees with the bridge. */
  ghost predicate RostersAgree(h: History) {
    Aligned(h) && forall id :: id in h.world.sessions ==> Agrees(ClientRoster(Since(h, id), id), h.world.sessions, id)
  }

  /** Ids that ever asked to join. */
  function JoiningIds(events: seq<Event>): set<nat> {
    if events == [] then {}
    else
      var e := events[|events| - 1];
      JoiningIds(events[..|events| - 1])
      + if e.Command? && e.cmd.kind.ClientConnected? then {e.cmd.sessionId} else {}
  }

  ghost predicate RosterInvariant(h: History) {
    && Aligned(h)
    && WellKept(h.world.sessions)
    && (forall id :: id in h.world.sessions ==>
          AllWhole(Since(h, id)) && Agrees(ApplyMessages(map[], Since(h, id), id), h.world.sessions, id))
  }

  lemma {:induction false} StepKeepsRosters(h: History, e: Event)
    requires RosterInvariant(h) &&
             KeepsAgreement(h.world.sessions, EventOf(h.world, e).1, EventOf(h.world, e).0.sessions)
    ensures RosterInvariant(Step(h, e))
  {
    hide EventOf, WellKept, Whole, Agrees, ApplyMessages, AllWhole;
    StepAligned(h, e);
    SessionsAfter(h.world, e);
    var h', out := Step(h, e), EventOf(h.world, e).1;
    forall id | id in h'.world.sessions
      ensures AllWhole(Since(h', id)) && Agrees(ApplyMessages(map[], Since(h', id), id), h'.world.sessions, id)
    {
      if id in h.world.sessions {
        AllWholeConcat(Since(h, id), out);
        ApplyMessagesConcat(map[], Since(h, id), out, id);
      }
    }
  }

  lemma {:induction false} AllWholeConcat(a: seq<Message>, b: seq<Message>)
    requires AllWhole(a) && AllWhole(b)
    ensures AllWhole(a + b)
  {
    hide Whole;
  }

  lemma {:induction false} RosterInvariantHolds(w: World, events: seq<Event>)
    requires w.sessions == map[] && DistinctOthers(JoiningIds(events))
    requires forall i :: 0 <= i < |events| ==> NameFits(events[i])
    ensures RosterInvariant(Run(w, events)) && Run(w, events).world.sessions.Keys <= JoiningIds(events)
  {
    hide EventOf, KeepsAgreement, RosterInvariant, NameFits, DistinctOthers;
    if events == [] {
      EmptyRosters(w);
    } else {
      var before, e := events[..|events| - 1], events[|events| - 1];
      FewerOthers(JoiningIds(before), JoiningIds(events));
      RosterInvariantHolds(w, before);
      var h := Run(w, before);
      SessionsAfter(h.world, e);
      assert WellKept(h.world.sessions) by { InvariantWellKept(h); }
      FewerOthers(EventOf(h.world, e).0.sessions.Keys + h.world.sessions.Keys, JoiningIds(events));
      EventKeeps(h.world, e);
      StepKeepsRosters(h, e);
    }
  }

  lemma {:induction false} InvariantWellKept(h: History)
    requires RosterInvariant(h)
    ensures WellKept(h.world.sessions)
  {
  }

  lemma {:induction false} EmptyRosters(w: World)
    requires w.sessions == map[]
    ensures RosterInvariant(Run(w, [])) && Run(w, []).world.sessions.Keys == {}
  {
  }

  /**
   Replicated rosters: under any interleaving of joins, leaves, rejoins, team
   switches, spawns and snapshots, every live client's folded roster gives every
   other live session's name and current team, provided no two joining sessions
   beside it share a player id and names fit a frame.
   */
  lemma {:induction false} RosterAgreement(w: World, events: seq<Event>)
    requires w.sessions == map[] && DistinctOthers(JoiningIds(events))
    requires forall i :: 0 <= i < |events| ==> NameFits(events[i])
    ensures RostersAgree(Run(w, events))
  {
    hide Agrees, Run, ClientRoster;
    RosterInvariantHolds(w, events);
    var h := Run(w, events);
    forall id | id in h.world.sessions ensures Agrees(ClientRoster(Since(h, id), id), h.world.sessions, id) {
      StreamIsMessages(Since(h, id), id);
    }
  }

  // ---- Exactly when it holds ------------------------------------------------------------------------------

  /** Player ids are shared only by session ids from 0x7fffffff on. */
  lemma {:induction false} DistinctPlayersExact(ids: set<nat>)
    ensures DistinctPlayers(ids)
            <==> forall a, b :: a in ids && b in ids && a >= MAX_PLAYER_ID && b >= MAX_PLAYER_ID ==> a == b
  {
    if a, b :| a in ids && b in ids && a >= MAX_PLAYER_ID && b >= MAX_PLAYER_ID && a != b {
      assert SessionPlayerId(a) == SessionPlayerId(b);
    }
  }

  function Join(id: nat): Event {
    Command(Plain(ClientConnected, id, []), 0, None)
  }

  function Switch(id: nat, team: int): Event {
    Command(Plain(Reincarnate, id, []).(team := team), 0, None)
  }

  /** Three sessions join and one of them picks a team. */
  function CollisionRun(viewer: nat, a: nat, b: nat): seq<Event> {
    [Join(viewer), Join(a), Join(b), Switch(a, 1)]
  }

  lemma {:induction false} JoinStep(h: History, id: nat)
    requires Aligned(h) && id !in h.world.sessions && WellKept(h.world.sessions)
    ensures var h' := Step(h, Join(id));
            && Aligned(h') && WellKept(h'.world.sessions) && AllWhole(EventOf(h.world, Join(id)).1)
            && h'.world.sessions.Keys == h.world.sessions.Keys + {id} && h'.world.sessions[id].team == 0
            && (forall k :: k in h.world.sessions ==> h'.world.sessions[k] == h.world.sessions[k])
  {
    hide Whole, Ascending, Digits, Ascii, Introductions, SessionPlayerId;
    StepAligned(h, Join(id));
    NewNameFits(Join(id).cmd);
    var after := Step(h, Join(id)).world.sessions;
    assert after == h.world.sessions[id := NewSession(Join(id).cmd)];
    IntroductionsWhole(Ascending(after.Keys), after, id);
  }

  /** After a switch of a, a viewer's roster has a's new team under a's player id. */
  lemma {:induction false} SwitchSeen(w: World, a: nat, viewer: nat, r: Roster)
    requires WellKept(w.sessions) && a in w.sessions && viewer in w.sessions && a != viewer
    ensures var (w', out) := EventOf(w, Switch(a, 1));
            && AllWhole(out) && w'.sessions == w.sessions[a := w.sessions[a].(team := 1)]
            && ApplyMessages(r, out, viewer) == Noted(r, Changed(SessionPlayerId(a), 1))
  {
    hide Whole, Ascending, UpdateStatsFramed, ReincarnateResult, ToPeers, ApplyMessages, Announces, Neutral;
    var s := w.sessions[a];
    var ids, bytes := Ascending(w.sessions.Keys), UpdateStatsFramed(s.playerId, 1);
    var first := [OutboundMessage(a, true, ReincarnateResult(TEAM_SWITCH_OK, []))];
    AscendingFacts(w.sessions.Keys);
    StatsAnnounces(s.playerId, 1);
    ResultNeutral(a, TEAM_SWITCH_OK, []);
    NeutralMessages(r, first, viewer);
    ToPeersApplied(r, ids, a, bytes, viewer, Changed(s.playerId, 1));
    WholeConcat(first, ToPeers(ids, a, bytes));
    ApplyMessagesConcat(r, first, ToPeers(ids, a, bytes), viewer);
  }

  lemma {:induction false} TeamNoted(r: Roster, playerId: I32, team: U16)
    ensures var r' := Noted(r, Changed(playerId, team)); playerId in r' && r'[playerId].team == team
  {
  }

  /** Two players under one id cannot be told apart by a third session. */
  lemma {:induction false} CollisionDisagrees(w: World, viewer: nat, a: nat, b: nat)
    requires w.sessions == map[] && viewer != a && viewer != b && a != b
    requires SessionPlayerId(a) == SessionPlayerId(b)
    ensures !RostersAgree(Run(w, CollisionRun(viewer, a, b)))
  {
    hide EventOf, ApplyMessages, Whole, AllWhole, ClientRoster, SessionPlayerId, Noted, Sanitized;
    var h0 := Run(w, []);
    var h1 := Step(h0, Join(viewer));
    var h2 := Step(h1, Join(a));
    var h3 := Step(h2, Join(b));
    var h4 := Step(h3, Switch(a, 1));
    FourSteps(w, Join(viewer), Join(a), Join(b), Switch(a, 1));
    JoinStep(h0, viewer);
    JoinStep(h1, a);
    JoinStep(h2, b);
    StepAligned(h0, Join(viewer));
    StepAligned(h1, Join(a));
    StepAligned(h2, Join(b));
    StepAligned(h3, Switch(a, 1));
    var sent := Since(h3, viewer);
    AllWholeConcat(Since(h1, viewer), EventOf(h1.world, Join(a)).1);
    AllWholeConcat(Since(h2, viewer), EventOf(h2.world, Join(b)).1);
    var r := ApplyMessages(map[], sent, viewer);
    SwitchSeen(h3.world, a, viewer, r);
    var out := EventOf(h3.world, Switch(a, 1)).1;
    AllWholeConcat(sent, out);
    ApplyMessagesConcat(map[], sent, out, viewer);
    StreamIsMessages(Since(h4, viewer), viewer);
    TeamNoted(r, SessionPlayerId(a), 1);
    assert h4.world.sessions[b].team == 0 &&
           ClientRoster(Since(h4, viewer), viewer)[h4.world.sessions[b].playerId].team == 1;
  }

  ghost predicate FromIds(events: seq<Event>, ids: set<nat>) {
    JoiningIds(events) <= ids && forall i :: 0 <= i < |events| ==> NameFits(events[i])
  }

  /** Two others under one player id are possible exactly when two of at least three ids share one. */
  lemma {:induction false} DistinctOthersExact(ids: set<nat>)
    ensures DistinctOthers(ids) <==> DistinctPlayers(ids) || |ids| <= 2
  {
    hide SessionPlayerId;
    if !DistinctOthers(ids) {
      var v :| v in ids && !DistinctPlayers(ids - {v});
      var a, b :| a in ids - {v} && b in ids - {v} && SessionPlayerId(a) == SessionPlayerId(b) && a != b;
      SubsetSize({v, a, b}, ids);
    } else if !DistinctPlayers(ids) && |ids| >= 3 {
      var a, b :| a in ids && b in ids && SessionPlayerId(a) == SessionPlayerId(b) && a != b;
      ThirdId(ids, a, b);
    }
  }

  /**
   Rosters agree in every run over these session ids exactly when no two of them
   share a player id or there are at most two: a pair is never told about itself.
   */
  lemma {:induction false} AgreementExact(w: World, ids: set<nat>)
    requires w.sessions == map[]
    ensures DistinctPlayers(ids) || |ids| <= 2
            <==> forall events :: FromIds(events, ids) ==> RostersAgree(Run(w, events))
  {
    hide RostersAgree, Run, SessionPlayerId;
    DistinctOthersExact(ids);
    if DistinctOthers(ids) {
      forall events | FromIds(events, ids) ensures RostersAgree(Run(w, events)) {
        RosterAgreement(w, events);
      }
    } else {
      var a, b :| a in ids && b in ids && SessionPlayerId(a) == SessionPlayerId(b) && a != b;
      ThirdId(ids, a, b);
      var viewer :| viewer in ids && viewer != a && viewer != b;
      CollisionDisagrees(w, viewer, a, b);
      CollisionIds(viewer, a, b);
      assert FromIds(CollisionRun(viewer, a, b), ids);
    }
  }

  lemma {:induction false} ThirdId(ids: set<nat>, a: nat, b: nat)
    requires |ids| >= 3
    ensures exists v :: v in ids && v != a && v != b
  {
    if forall v :: v in ids ==> v == a || v == b {
      assert ids <= {a, b};
      SubsetSize(ids, {a, b});
    }
  }

  lemma {:induction false} SubsetSize(x: set<nat>, y: set<nat>)
    requires x <= y
    ensures |x| <= |y|
    decreases |x|
  {
    if e :| e in x {
      SubsetSize(x - {e}, y - {e});
    }
  }

  lemma {:induction false} CollisionIds(viewer: nat, a: nat, b: nat)
    ensures JoiningIds(CollisionRun(viewer, a, b)) == {viewer, a, b}
  {
    var e := CollisionRun(viewer, a, b);
    assert e[..3][..2][..1][..0] == [];
    assert e[..3][2] == Join(b) && e[..3][..2][1] == Join(a) && e[..3][..2][..1][0] == Join(viewer);
    assert JoiningIds(e[..3][..2][..1]) == {viewer};
    assert JoiningIds(e[..3][..2]) == {viewer, a};
  }
}
