/**
 What the bridge answers to each command, to whom, byte for byte, and what it keeps
 of it: every message a command causes and every record it changes, spelled out.
 */
module Answers {
  import opened Bits
  import opened Cursors
  import opened Quantization
  import opened EntityCodec
  import opened Queues
  import opened Packets
  import opened PacketBytes
  import opened Bridge
  import opened Roster
  import opened Spawning
  import History

  // ---- Who is told ---------------------------------------------------------------------------------

  function Telling(id: nat, bytes: seq<Byte>): Message {
    OutboundMessage(id, true, bytes)
  }

  lemma {:induction false} OneMessage(m: Message, k: nat)
    ensures OnlyTo([m], k) == if m.sessionId == k then [m] else []
  {
    assert [m][..0] == [];
    assert OnlyTo([], k) == [];
  }

  lemma {:induction false} TwoTold(a: nat, b: nat, x: seq<Byte>, y: seq<Byte>, k: nat)
    ensures OnlyTo([Telling(a, x), Telling(b, y)], k)
            == (if k == a then [Telling(a, x)] else []) + (if k == b then [Telling(b, y)] else [])
  {
    hide OnlyTo;
    OneMessage(Telling(a, x), k);
    OneMessage(Telling(b, y), k);
    assert [Telling(a, x), Telling(b, y)] == [Telling(a, x)] + [Telling(b, y)];
    OnlyToConcat([Telling(a, x)], [Telling(b, y)], k);
  }

  lemma {:induction false} PeersTold(ids: seq<nat>, except: nat, bytes: seq<Byte>, k: nat)
    requires forall i, j :: 0 <= i < j < |ids| ==> ids[i] < ids[j]
    ensures OnlyTo(ToPeers(ids, except, bytes), k) == if k in ids && k != except then [Telling(k, bytes)] else []
  {
    hide OnlyTo;
    if ids == [] {
      NoneTo([], k);
    } else {
      var n, id := |ids| - 1, ids[|ids| - 1];
      var before, m := ToPeers(ids[..n], except, bytes), Telling(id, bytes);
      assert ids == ids[..n] + [id] && id !in ids[..n];
      PeersTold(ids[..n], except, bytes, k);
      OneMessage(m, k);
      OnlyToConcat(before, [m], k);
      assert before + [] == before;
    }
  }

  lemma {:induction false} AllTold(ids: seq<nat>, bytes: seq<Byte>, k: nat)
    requires forall i, j :: 0 <= i < j < |ids| ==> ids[i] < ids[j]
    ensures OnlyTo(ToAll(ids, bytes), k) == if k in ids then [Telling(k, bytes)] else []
  {
    hide OnlyTo;
    if ids == [] {
      NoneTo([], k);
    } else {
      var n, id := |ids| - 1, ids[|ids| - 1];
      var before, m := ToAll(ids[..n], bytes), Telling(id, bytes);
      assert ids == ids[..n] + [id] && id !in ids[..n];
      AllTold(ids[..n], bytes, k);
      OneMessage(m, k);
      OnlyToConcat(before, [m], k);
    }
  }

  // ---- Team switches ----------------------------------------------------------------------------------

  /** The stats record of a player's new team, framed. */
  function StatsFrame(playerId: int, team: int): seq<Byte> {
    Packet(0x1C, Be32(playerId) + [0, 0, 0, 6] + Be16(team)
                 + [0, 33, 0, 3, 0, 5, 0, 9, 0, 1, 0, 0, 0, 1, 0, 0, 0, 0, 0, 10])
  }

  /**
   A request for team 1 or 2 changes that team and nothing else; its sender gets the
   code 17, every other session one stats record of the player with the new team.
   */
  lemma {:induction false} TeamSwitchAnswered(w: World, cmd: ClientCommand, sequence: U32, reply: Option<int>, k: nat)
    requires cmd.kind.Reincarnate? && cmd.sessionId in w.sessions && (cmd.team == 1 || cmd.team == 2)
    ensures var (id, s) := (cmd.sessionId, w.sessions[cmd.sessionId]);
            var (w', out) := CommandOf(w, cmd, sequence, reply);
            && w' == w.(sessions := w.sessions[id := s.(team := cmd.team)])
            && OnlyTo(out, k)
               == if k == id then [Telling(id, Packet(0x25, [17, 0, 1, 0]))]
                  else if k in w.sessions then [Telling(k, StatsFrame(s.playerId, cmd.team))]
                  else []
  {
    hide OnlyTo, ToPeers, Ascending, UpdateStatsFramed, ReincarnateResult, Be32, Be16;
    var id, s := cmd.sessionId, w.sessions[cmd.sessionId];
    var first := Telling(id, ReincarnateResult(TEAM_SWITCH_OK, []));
    var bytes := UpdateStatsFramed(s.playerId, cmd.team);
    AscendingFacts(w.sessions.Keys);
    PeersTold(Ascending(w.sessions.Keys), id, bytes, k);
    OneMessage(first, k);
    OnlyToConcat([first], ToPeers(Ascending(w.sessions.Keys), id, bytes), k);
    ResultBytes(17, []);
    EmptyCounted();
    assert [17] + [0, 1, 0] == [17, 0, 1, 0];
    StatsBytes(s.playerId, cmd.team);
  }

  /** Any other team is refused with the code 18 and changes nothing. */
  lemma {:induction false} InvalidTeamAnswered(w: World, cmd: ClientCommand, sequence: U32, reply: Option<int>, k: nat)
    requires cmd.kind.Reincarnate? && cmd.sessionId in w.sessions
    requires cmd.team != 0 && cmd.team != 1 && cmd.team != 2
    ensures var (w', out) := CommandOf(w, cmd, sequence, reply);
            && w' == w
            && OnlyTo(out, k)
               == if k == cmd.sessionId then [Telling(k, Packet(0x25, [18] + Counted(Ascii("Invalid team."))))] else []
  {
    hide OnlyTo, ReincarnateResult, Counted, Ascii;
    OneMessage(Telling(cmd.sessionId, ReincarnateResult(INVALID_TEAM, Ascii("Invalid team."))), k);
    ResultBytes(18, Ascii("Invalid team."));
  }

  // ---- Spawning -----------------------------------------------------------------------------------------

  /** Without a pad of its team a spawn request is refused with the code 4 and changes nothing. */
  lemma {:induction false} NoPadAnswered(w: World, cmd: ClientCommand, sequence: U32, reply: Option<int>, k: nat)
    requires RequestsSpawn(cmd) && cmd.sessionId in w.sessions
    requires forall i :: 0 <= i < |w.statics| ==>
             !(w.statics[i].unitType == 27 && w.statics[i].team == w.sessions[cmd.sessionId].team)
    ensures var (w', out) := CommandOf(w, cmd, sequence, reply);
            && w' == w
            && OnlyTo(out, k)
               == if k == cmd.sessionId
                  then [Telling(k, Packet(0x25, [4] + Counted(Ascii("Invalid Entry Point."))))]
                  else []
  {
    hide OnlyTo, ReincarnateResult, Counted, Ascii, ResolveSpawnPad, SpawnOnPadOf;
    ResolveExact(w.statics, w.sessions[cmd.sessionId].team, cmd.unitId, cmd.padId);
    OneMessage(Telling(cmd.sessionId, ReincarnateResult(INVALID_ENTRY, Ascii("Invalid Entry Point."))), k);
    ResultBytes(4, Ascii("Invalid Entry Point."));
  }

  /** The tank a player gets on a pad: plain, manned and full, in the player's lane of six beside the pad. */
  function TankOn(pad: Entity, playerId: int, team: int, netId: int): Entity {
    Entity(netId, 0, team, true,
           Vec3(pad.pos.x + (playerId % 6) as real * 100.0, pad.pos.y, pad.pos.z), pad.rot, 1.0, 1.0, 25)
  }

  /**
   A spawn request of a session whose team owns a pad puts a tank beside the pad chosen,
   under the engine's id if it gave one and the next free id otherwise. The sender is
   told of the tank, then gets the code 0, and every session, the sender too, one
   birth notice of the player.
   */
  lemma {:induction false} SpawnAnswered(w: World, cmd: ClientCommand, sequence: U32, reply: Option<int>, k: nat)
    requires RequestsSpawn(cmd) && cmd.sessionId in w.sessions && HasPad(w.statics, w.sessions[cmd.sessionId].team)
    ensures var (id, s) := (cmd.sessionId, w.sessions[cmd.sessionId]);
            var (w', out) := CommandOf(w, cmd, sequence, reply);
            var engine := reply.Some? && reply.value != 0;
            var birth := Packet(0x1E, Be32(s.playerId) + [0, 0, 0, 1]);
            exists pad ::
              && pad in w.statics && pad.unitType == 27 && pad.team == s.team
              && Chosen(pad, w.statics, s.team, cmd.unitId, cmd.padId)
              && var e := TankOn(pad, s.playerId, s.team, if engine then reply.value else w.nextId);
                 && w' == World(w.sessions[id := s.(entity := e, spawned := true)], w.statics,
                                if engine then w.nextId else w.nextId + 1)
                 && OnlyTo(out, k)
                    == if k == id
                       then [Telling(id, TankSpawnOf(e, sequence)), Telling(id, Packet(0x25, [0, 0, 1, 0])),
                             Telling(id, birth)]
                       else if k in w.sessions then [Telling(k, birth)]
                       else []
  {
    hide OnlyTo, ReincarnateResult, ResolveSpawnPad, SpawnOnPadOf, BirthNotice, TankSpawnOf, Ascending, ToAll, Be32,
      Be16, HasPad, TankOn, Chosen;
    var s := w.sessions[cmd.sessionId];
    ResolveExact(w.statics, s.team, cmd.unitId, cmd.padId);
    var pad := ResolveSpawnPad(w.statics, s.team, cmd.unitId, cmd.padId).value;
    PadAnswered(w, cmd.sessionId, pad, sequence, reply, k);
    assert pad in w.statics && pad.unitType == 27 && pad.team == s.team
           && Chosen(pad, w.statics, s.team, cmd.unitId, cmd.padId);
  }

  lemma {:induction false} PadAnswered(w: World, id: nat, pad: Entity, sequence: U32, reply: Option<int>, k: nat)
    requires id in w.sessions
    ensures var (s, engine) := (w.sessions[id], reply.Some? && reply.value != 0);
            var (w', out) := SpawnOnPadOf(w, id, pad, sequence, reply);
            var birth := Packet(0x1E, Be32(s.playerId) + [0, 0, 0, 1]);
            var e := TankOn(pad, s.playerId, s.team, if engine then reply.value else w.nextId);
            && w' == World(w.sessions[id := s.(entity := e, spawned := true)], w.statics,
                           if engine then w.nextId else w.nextId + 1)
            && OnlyTo(out, k)
               == if k == id
                  then [Telling(id, TankSpawnOf(e, sequence)), Telling(id, Packet(0x25, [0, 0, 1, 0])),
                        Telling(id, birth)]
                  else if k in w.sessions then [Telling(k, birth)]
                  else []
  {
    hide OnlyTo, ReincarnateResult, BirthNotice, TankSpawnOf, Ascending, ToAll, Be32, Be16, Packet;
    var s, e := w.sessions[id], SpawnedEntity(w, id, pad, reply);
    var first, second := Telling(id, TankSpawnOf(e, sequence)), Telling(id, ReincarnateResult(0, []));
    var births := ToAll(Ascending(w.sessions.Keys), BirthNotice(s.playerId));
    AscendingFacts(w.sessions.Keys);
    AllTold(Ascending(w.sessions.Keys), BirthNotice(s.playerId), k);
    TwoTold(id, id, first.bytes, second.bytes, k);
    OnlyToConcat([first, second], births, k);
    JoinThree(first, second, Telling(k, BirthNotice(s.playerId)));
    ResultBytes(0, []);
    EmptyCounted();
    assert [0] + [0, 1, 0] == [0, 0, 1, 0];
    BirthBytes(s.playerId);
  }

  lemma {:induction false} JoinThree(a: Message, b: Message, c: Message)
    ensures [a] + [b] + [c] == [a, b, c] && [] + [] + [c] == [c]
  {
  }

  /** Two players sent to one pad stand apart unless their player ids leave the same lane. */
  lemma {:induction false} LanesApart(pad: Entity, a: int, b: int, team: int, idA: int, idB: int)
    ensures var (p, q) := (TankOn(pad, a, team, idA).pos.x, TankOn(pad, b, team, idB).pos.x);
            if a % 6 == b % 6 then p == q else p - q >= 100.0 || q - p >= 100.0
    ensures 0.0 <= TankOn(pad, a, team, idA).pos.x - pad.pos.x <= 500.0
  {
    var i, j := a % 6, b % 6;
    assert i >= j + 1 || j >= i + 1 || i == j;
  }

  // ---- Joining ------------------------------------------------------------------------------------------

  /** The roster record of a session, framed; nothing when its name is too long for a frame. */
  function RosterFrame(s: Session): seq<Byte> {
    Fitted(0x1A, Be32(s.playerId) + [0, 0, 0, 0] + Be16(s.team) + [0, 2] + Counted(s.name) + [0, 1, 0]
                 + [0, 0, 0, 0, 0, 0, 0, 0, 0, 0, 0, 0])
  }

  lemma {:induction false} RosterFramed(s: Session)
    ensures AddToRoster(s.playerId, s.team, s.name) == RosterFrame(s)
  {
    hide AddToRoster, Be32, Be16, Counted;
    RosterBytes(s.playerId, s.team, s.name);
  }

  /** One record of each session in the list but the newcomer, to the newcomer. */
  function Introduced(ids: seq<nat>, sessions: map<nat, Session>, joined: nat): seq<Message>
    requires forall i :: 0 <= i < |ids| ==> ids[i] in sessions
  {
    if ids == [] then []
    else
      var id := ids[|ids| - 1];
      Introduced(ids[..|ids| - 1], sessions, joined)
      + if id == joined then [] else [Telling(joined, RosterFrame(sessions[id]))]
  }

  lemma {:induction false} IntroductionsTold(ids: seq<nat>, sessions: map<nat, Session>, joined: nat, k: nat)
    requires joined in sessions && forall i :: 0 <= i < |ids| ==> ids[i] in sessions
    requires forall i, j :: 0 <= i < j < |ids| ==> ids[i] < ids[j]
    ensures OnlyTo(Introductions(ids, sessions, joined), k)
            == if k == joined then Introduced(ids, sessions, joined)
               else if k in ids then [Telling(k, RosterFrame(sessions[joined]))]
               else []
  {
    hide OnlyTo, AddToRoster, RosterFrame;
    if ids == [] {
      NoneTo([], k);
    } else {
      var n, id := |ids| - 1, ids[|ids| - 1];
      var before := Introductions(ids[..n], sessions, joined);
      assert ids == ids[..n] + [id] && id !in ids[..n];
      IntroductionsTold(ids[..n], sessions, joined, k);
      if id != joined {
        RosterFramed(sessions[id]);
        RosterFramed(sessions[joined]);
        var m1, m2 := Telling(joined, RosterFrame(sessions[id])), Telling(id, RosterFrame(sessions[joined]));
        TwoTold(joined, id, m1.bytes, m2.bytes, k);
        OnlyToConcat(before, [m1, m2], k);
        assert Introductions(ids, sessions, joined) == before + [m1, m2];
        TakeApart(OnlyTo(before, k), k == joined, k == id, m1, m2);
      } else {
        assert before + [] == before;
        assert Introduced(ids, sessions, joined) == Introduced(ids[..n], sessions, joined);
      }
    }
  }

  lemma {:induction false} TakeApart(before: seq<Message>, a: bool, b: bool, m1: Message, m2: Message)
    requires !(a && b)
    ensures before + ((if a then [m1] else []) + (if b then [m2] else []))
            == if a then before + [m1] else if b then before + [m2] else before
  {
  }

  /** A number in decimal digits. */
  function Number(t: Text): int {
    if t == [] then 0 else 10 * Number(t[..|t| - 1]) + t[|t| - 1] - 0x30
  }

  lemma {:induction false} DigitsRead(n: nat)
    ensures Number(Digits(n)) == n && Digits(n) != []
    ensures forall i :: 0 <= i < |Digits(n)| ==> 0x30 <= Digits(n)[i] <= 0x39
  {
    if n < 10 {
      assert Digits(n)[..0] == [];
      assert Number([]) == 0;
    } else {
      DigitsRead(n / 10);
      assert Digits(n)[..|Digits(n / 10)|] == Digits(n / 10);
    }
  }

  /** The record of a session that has just joined: its player id, no team, its name, nothing else. */
  predicate FreshRecord(s: Session, sessionId: nat, text: Text) {
    && s.playerId == (if sessionId <= 0x7fff_ffff then sessionId else 0x7fff_ffff) && s.team == 0
    && s.entity == DEFAULT_ENTITY && !s.spawned && !s.wantsUpdates && s.introduced == []
    && if text != [] then s.name == text
       else |s.name| > 6 && s.name[..6] == Ascii("player") && Number(s.name[6..]) == s.playerId
  }

  /**
   A connection adds its session with a fresh record and nothing else; the newcomer is
   told of every other session, in order of their ids, and each of them of it, once.
   */
  lemma {:induction false} JoinAnswered(w: World, cmd: ClientCommand, sequence: U32, reply: Option<int>, k: nat)
    requires cmd.kind.ClientConnected? && cmd.sessionId !in w.sessions
    ensures var (id, (w', out)) := (cmd.sessionId, CommandOf(w, cmd, sequence, reply));
            && id in w'.sessions && FreshRecord(w'.sessions[id], id, cmd.text)
            && w' == w.(sessions := w.sessions[id := w'.sessions[id]])
            && OnlyTo(out, k)
               == if k == id then Introduced(Ascending(w'.sessions.Keys), w'.sessions, id)
                  else if k in w.sessions then [Telling(k, RosterFrame(w'.sessions[id]))]
                  else []
  {
    hide OnlyTo, Introductions, Introduced, Ascending, RosterFrame, Digits, Ascii, Number;
    var s := NewSession(cmd);
    var sessions := w.sessions[cmd.sessionId := s];
    var pid := SessionPlayerId(cmd.sessionId);
    DigitsRead(pid);
    PlayerName(pid);
    AscendingFacts(sessions.Keys);
    IntroductionsTold(Ascending(sessions.Keys), sessions, cmd.sessionId, k);
  }

  lemma {:induction false} PlayerName(pid: nat)
    ensures var t := Ascii("player") + Digits(pid); |t| > 6 && t[..6] == Ascii("player") && t[6..] == Digits(pid)
  {
    hide Digits;
    DigitsRead(pid);
  }

  // ---- The other commands ----------------------------------------------------------------------------------

  /** The other commands tell nobody anything. */
  lemma {:induction false} QuietCommands(w: World, cmd: ClientCommand, sequence: U32, reply: Option<int>)
    requires !cmd.kind.Reincarnate? && (cmd.kind.ClientConnected? ==> cmd.sessionId in w.sessions)
    ensures var (id, (w', out)) := (cmd.sessionId, CommandOf(w, cmd, sequence, reply));
            && out == [] && w'.statics == w.statics && w'.nextId == w.nextId
            && (forall k :: k in w'.sessions && k != id ==> k in w.sessions && w'.sessions[k] == w.sessions[k])
            && (forall k :: k in w.sessions && k != id ==> k in w'.sessions)
            && (cmd.kind.WantUpdates? && id in w.sessions ==>
                  id in w'.sessions && w'.sessions[id] == w.sessions[id].(wantsUpdates := true))
            && (cmd.kind.Disconnected? ==> id !in w'.sessions)
            && (cmd.kind.ActionInput? || cmd.kind.LoginUser? || cmd.kind.LoginPassword? || cmd.kind.ClientConnected?
                ==> w' == w)
  {
    hide Ascending, Introductions;
  }

  /** A request of a session the bridge does not have does nothing. */
  lemma {:induction false} UnknownRequest(w: World, cmd: ClientCommand, sequence: U32, reply: Option<int>)
    requires cmd.sessionId !in w.sessions && !cmd.kind.ClientConnected?
    ensures CommandOf(w, cmd, sequence, reply) == (w, [])
  {
    assert RemoveSessionOf(w, cmd.sessionId).sessions == w.sessions;
  }
}
