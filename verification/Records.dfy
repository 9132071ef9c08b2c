/**
 What the bridge keeps of a session is what that session's own commands made it: its
 name, team, wish for updates and tank, after any run; and every accepted input of a
 session with a tank reaches the engine, once and in order.
 */
module Records {
  import opened Bits
  import opened EntityCodec
  import opened Queues
  import opened Protocol
  import opened Sessions
  import opened Bridge
  import opened Spawning
  import opened Server
  import opened Answers
  import opened Interleaving
  import opened Lists
  import Roster
  import History

  // ---- A session's record from its commands ---------------------------------------------------------

  /** The team of the last request for team 1 or 2, or none. */
  function LastTeam(own: seq<ClientCommand>): int {
    if own == [] then 0
    else
      var c := own[|own| - 1];
      if c.kind.Reincarnate? && (c.team == 1 || c.team == 2) then c.team else LastTeam(own[..|own| - 1])
  }

  /** The name the session connected with. */
  function JoinText(own: seq<ClientCommand>): Text {
    if own == [] then []
    else if own[|own| - 1].kind.ClientConnected? then own[|own| - 1].text
    else JoinText(own[..|own| - 1])
  }

  predicate Wishes(own: seq<ClientCommand>) {
    own != [] && (own[|own| - 1].kind.WantUpdates? || Wishes(own[..|own| - 1]))
  }

  /** Some spawn request came while the session's team owned a pad. */
  ghost predicate GotTank(statics: seq<Entity>, own: seq<ClientCommand>) {
    && own != []
    && var before := own[..|own| - 1];
       (RequestsSpawn(own[|own| - 1]) && HasPad(statics, LastTeam(before))) || GotTank(statics, before)
  }

  /** The record is what these commands make it. */
  ghost predicate MadeBy(s: Session, id: nat, statics: seq<Entity>, own: seq<ClientCommand>) {
    && s.playerId == (if id <= 0x7fff_ffff then id else 0x7fff_ffff)
    && s.team == LastTeam(own) && s.wantsUpdates == Wishes(own) && s.spawned == GotTank(statics, own)
    && if JoinText(own) != [] then s.name == JoinText(own)
       else |s.name| > 6 && s.name[..6] == Ascii("player") && Number(s.name[6..]) == s.playerId
  }

  ghost predicate RecordsFit(w: World, cmds: seq<ClientCommand>) {
    forall id: nat :: id in w.sessions ==> MadeBy(w.sessions[id], id, w.statics, Of(cmds, id))
  }

  lemma {:induction false} OneMore(statics: seq<Entity>, own: seq<ClientCommand>, c: ClientCommand)
    ensures LastTeam(own + [c])
            == if c.kind.Reincarnate? && (c.team == 1 || c.team == 2) then c.team else LastTeam(own)
    ensures JoinText(own + [c]) == if c.kind.ClientConnected? then c.text else JoinText(own)
    ensures Wishes(own + [c]) <==> c.kind.WantUpdates? || Wishes(own)
    ensures GotTank(statics, own + [c])
            <==> (RequestsSpawn(c) && HasPad(statics, LastTeam(own))) || GotTank(statics, own)
  {
    hide HasPad;
    assert (own + [c])[..|own|] == own;
  }

  /** Before its connection a session has asked for nothing. */
  lemma {:induction false} NothingAsked(statics: seq<Entity>, own: seq<ClientCommand>)
    requires NotYet(PhaseOf(own))
    ensures LastTeam(own) == 0 && !Wishes(own) && !GotTank(statics, own)
  {
    hide HasPad, LastTeam, Wishes, GotTank, PhaseOf;
    if own == [] {
      NothingYetAsked(statics);
    } else {
      var n := |own| - 1;
      assert own == own[..n] + [own[n]];
      PhaseSnoc(own[..n], own[n]);
      OneMore(statics, own[..n], own[n]);
      NothingAsked(statics, own[..n]);
    }
  }

  lemma {:induction false} NothingYetAsked(statics: seq<Entity>)
    ensures LastTeam([]) == 0 && !Wishes([]) && !GotTank(statics, [])
  {
  }

  /** What a command of its own does to a session's record. */
  lemma {:induction false} OwnCommand(w: World, cmd: ClientCommand, sequence: U32, reply: Option<int>,
                                      own: seq<ClientCommand>)
    requires cmd.sessionId in w.sessions ==> MadeBy(w.sessions[cmd.sessionId], cmd.sessionId, w.statics, own)
    requires cmd.sessionId in w.sessions ==> !cmd.kind.ClientConnected?
    requires cmd.sessionId !in w.sessions && cmd.kind.ClientConnected? ==> NotYet(PhaseOf(own))
    ensures var w' := CommandOf(w, cmd, sequence, reply).0;
            cmd.sessionId in w'.sessions ==>
              MadeBy(w'.sessions[cmd.sessionId], cmd.sessionId, w'.statics, own + [cmd])
  {
    hide HasPad, LastTeam, JoinText, Wishes, GotTank, Number, TankOn, CommandOf, Ascii, PhaseOf;
    var id := cmd.sessionId;
    OneMore(w.statics, own, cmd);
    if id !in w.sessions {
      if cmd.kind.ClientConnected? {
        NothingAsked(w.statics, own);
        JoinAnswered(w, cmd, sequence, reply, id);
      } else {
        UnknownRequest(w, cmd, sequence, reply);
      }
    } else if !cmd.kind.Reincarnate? {
      QuietCommands(w, cmd, sequence, reply);
    } else {
      OwnRequest(w, cmd, sequence, reply);
    }
  }

  /** What a request does to its sender's record. */
  lemma {:induction false} OwnRequest(w: World, cmd: ClientCommand, sequence: U32, reply: Option<int>)
    requires cmd.kind.Reincarnate? && cmd.sessionId in w.sessions
    ensures var (w', s) := (CommandOf(w, cmd, sequence, reply).0, w.sessions[cmd.sessionId]);
            && cmd.sessionId in w'.sessions && w'.statics == w.statics
            && var s' := w'.sessions[cmd.sessionId];
               && s'.playerId == s.playerId && s'.name == s.name && s'.wantsUpdates == s.wantsUpdates
               && s'.team == (if cmd.team == 1 || cmd.team == 2 then cmd.team else s.team)
               && s'.spawned == (s.spawned || (RequestsSpawn(cmd) && HasPad(w.statics, s.team)))
    ensures forall k :: k in w.sessions && k != cmd.sessionId ==>
              var w' := CommandOf(w, cmd, sequence, reply).0;
              k in w'.sessions && w'.sessions[k] == w.sessions[k]
  {
    hide TankOn, CommandOf, HasPad;
    var s := w.sessions[cmd.sessionId];
    if cmd.team == 1 || cmd.team == 2 {
      TeamSwitchAnswered(w, cmd, sequence, reply, 0);
    } else if cmd.team != 0 {
      InvalidTeamAnswered(w, cmd, sequence, reply, 0);
    } else if HasPad(w.statics, s.team) {
      SpawnAnswered(w, cmd, sequence, reply, 0);
    } else {
      NoPadThere(w.statics, s.team);
      NoPadAnswered(w, cmd, sequence, reply, 0);
    }
  }

  lemma {:induction false} NoPadThere(statics: seq<Entity>, team: int)
    requires !HasPad(statics, team)
    ensures forall i :: 0 <= i < |statics| ==> !(statics[i].unitType == 27 && statics[i].team == team)
  {
    assert forall i :: 0 <= i < |statics| ==> !IsPadOf(statics[i], team);
  }

  /** A command leaves every other session's record alone. */
  lemma {:induction false} OthersUntouched(w: World, cmd: ClientCommand, sequence: U32, reply: Option<int>, k: nat)
    requires k != cmd.sessionId
    ensures var w' := CommandOf(w, cmd, sequence, reply).0;
            && w'.statics == w.statics
            && (k in w'.sessions <==> k in w.sessions) && (k in w.sessions ==> w'.sessions[k] == w.sessions[k])
  {
    hide CommandOf;
    var e := History.Command(cmd, sequence, reply);
    StaticsKept(w, e);
    History.SessionsAfter(w, e);
    assert History.EventOf(w, e).0 == CommandOf(w, cmd, sequence, reply).0;
    var w' := CommandOf(w, cmd, sequence, reply).0;
    assert k in w'.sessions.Keys <==> k in w.sessions.Keys;
    if cmd.kind.Reincarnate? && cmd.sessionId in w.sessions {
      OwnRequest(w, cmd, sequence, reply);
    } else if cmd.kind.ClientConnected? && cmd.sessionId !in w.sessions {
      JoinAnswered(w, cmd, sequence, reply, k);
    } else if cmd.sessionId in w.sessions {
      QuietCommands(w, cmd, sequence, reply);
    } else {
      UnknownRequest(w, cmd, sequence, reply);
    }
  }

  lemma {:induction false} CommandFits(w: World, cmds: seq<ClientCommand>, e: History.Event)
    requires RecordsFit(w, cmds) && e.Command? && Mirrors(w, cmds) && Lawful(cmds + [e.cmd])
    ensures RecordsFit(History.EventOf(w, e).0, cmds + [e.cmd])
  {
    hide MadeBy, Of, CommandOf, PhaseOf, Lawful, Mirrors;
    var cmd := e.cmd;
    var own := Of(cmds, cmd.sessionId);
    var w' := History.EventOf(w, e).0;
    MirrorsAt(w, cmds, cmd.sessionId);
    if cmd.kind.ClientConnected? {
      JoinsFromNotYet(cmds, cmd);
    }
    OwnCommand(w, cmd, e.sequence, e.reply, own);
    forall id: nat | id in w'.sessions ensures MadeBy(w'.sessions[id], id, w'.statics, Of(cmds + [cmd], id)) {
      OfSnoc(cmds, cmd, id);
      if id != cmd.sessionId {
        OthersUntouched(w, cmd, e.sequence, e.reply, id);
      }
    }
  }

  /** A round touches nothing of a record but what the client has been told. */
  lemma {:induction false} RoundKeepsRecords(sessions: map<nat, Session>, ids: seq<nat>, statics: seq<Entity>,
                                             dynamic: seq<Entity>, sequence: U32, ts: I32)
    requires forall i :: 0 <= i < |ids| ==> ids[i] in sessions
    ensures var after := EmitAllOf(sessions, ids, statics, dynamic, sequence, ts).0;
            forall id :: id in sessions ==> id in after && SameButTold(sessions[id], after[id])
  {
    hide Others, SelfIn, OthersMessage, SelfMessage, SnapshotMessage;
    if ids != [] {
      RoundKeepsRecords(sessions, ids[..|ids| - 1], statics, dynamic, sequence, ts);
    }
  }

  predicate SameButTold(s: Session, t: Session) {
    t == s.(introduced := t.introduced)
  }

  lemma {:induction false} RoundFits(w: World, cmds: seq<ClientCommand>, e: History.Event)
    requires RecordsFit(w, cmds) && e.Snapshots?
    ensures RecordsFit(History.EventOf(w, e).0, cmds)
  {
    hide Of, EmitAllOf, Dynamic, HasPad, LastTeam, JoinText, Wishes, GotTank, Number, Ascii;
    var w' := History.EventOf(w, e).0;
    RoundKeepsRecords(w.sessions, Ascending(w.sessions.Keys), w.statics, Dynamic(w, e.provided), e.sequence, e.ts);
    forall id: nat | id in w'.sessions ensures MadeBy(w'.sessions[id], id, w'.statics, Of(cmds, id)) {
      assert id in w'.sessions.Keys && id in w.sessions.Keys;
      assert SameButTold(w.sessions[id], w'.sessions[id]);
    }
  }

  /** After any lawful run every record in the world is what its session's own commands made it. */
  lemma {:induction false} RecordsFollowCommands(w: World, events: seq<History.Event>)
    requires w.sessions == map[] && Lawful(CommandsIn(events))
    ensures RecordsFit(History.Run(w, events).world, CommandsIn(events))
  {
    hide RecordsFit, History.EventOf, Lawful, Mirrors;
    if events == [] {
      NobodyFits(w);
    } else {
      var before, e := events[..|events| - 1], events[|events| - 1];
      if e.Command? {
        LawfulPrefix(CommandsIn(before), [e.cmd]);
        RecordsFollowCommands(w, before);
        WorldMirrors(w, before);
        CommandFits(History.Run(w, before).world, CommandsIn(before), e);
      } else {
        assert CommandsIn(before) + [] == CommandsIn(before);
        RecordsFollowCommands(w, before);
        RoundFits(History.Run(w, before).world, CommandsIn(before), e);
      }
    }
  }

  lemma {:induction false} NobodyFits(w: World)
    requires w.sessions == map[]
    ensures RecordsFit(w, [])
  {
  }

  /**
   The server's records: for any interleaving, after every event, what the bridge keeps
   of each session it has is what the commands of that session it has handled made it.
   */
  lemma {:induction false} ServerRecords(cfg: Config, w: World, turns: seq<Turn>, i: nat, id: nat)
    requires w.sessions == map[] && i <= |SiteRun(cfg, w, turns).events|
    ensures var events := SiteRun(cfg, w, turns).events[..i];
            var x := History.Run(w, events).world;
            id in x.sessions ==> MadeBy(x.sessions[id], id, w.statics, Of(CommandsIn(events), id))
  {
    hide SiteRun, CommandsIn, History.Run, MadeBy, Of, Served;
    var events := SiteRun(cfg, w, turns).events[..i];
    TakesPrefix(cfg, w, turns, i);
    ServedLawful(cfg, NetTurns(turns), events);
    RecordsFollowCommands(w, events);
    RunStaticsKept(w, events);
  }

  // ---- Every input arrives --------------------------------------------------------------------------------

  /** The inputs of a batch whose sessions have a tank when the bridge gets to them. */
  ghost predicate ListsInputs(places: seq<nat>, w: World, cmds: seq<ClientCommand>, env: Environment) {
    && Increasing(places)
    && forall j: nat :: j in places <==>
         j < |cmds| && cmds[j].kind.ActionInput? &&
         var ss := CommandsOf(w, cmds[..j], env).0.sessions;
         cmds[j].sessionId in ss && ss[cmds[j].sessionId].spawned
  }

  /** The call an input amounts to. */
  ghost predicate Drives(d: Drive, w: World, cmds: seq<ClientCommand>, env: Environment, j: nat) {
    && j < |cmds|
    && var ss := CommandsOf(w, cmds[..j], env).0.sessions;
       && cmds[j].sessionId in ss
       && d == Drive(ss[cmds[j].sessionId].entity.netId, cmds[j].channel, cmds[j].value)
  }

  lemma {:induction false} InputsBefore(places: seq<nat>, w: World, cmds: seq<ClientCommand>, env: Environment)
    requires cmds != [] && ListsInputs(places, w, cmds, env)
    ensures var n := |cmds| - 1;
            if DriveOf(CommandsOf(w, cmds[..n], env).0, cmds[n], true) != []
            then places != [] && places[|places| - 1] == n
                 && ListsInputs(places[..|places| - 1], w, cmds[..n], env)
            else ListsInputs(places, w, cmds[..n], env)
  {
    hide CommandsOf;
    var n := |cmds| - 1;
    assert forall j :: 0 <= j <= n ==> cmds[..n][..j] == cmds[..j];
    if DriveOf(CommandsOf(w, cmds[..n], env).0, cmds[n], true) != [] {
      assert n in places;
      LastIsGreatest(places, n);
    } else {
      assert n !in places;
    }
  }

  lemma {:induction false} DrivesBefore(d: Drive, w: World, cmds: seq<ClientCommand>, env: Environment, j: nat)
    requires cmds != [] && Drives(d, w, cmds[..|cmds| - 1], env, j)
    ensures Drives(d, w, cmds, env, j)
  {
    hide CommandsOf;
    assert cmds[..|cmds| - 1][..j] == cmds[..j];
  }

  lemma {:induction false} NoInputs(places: seq<nat>, w: World, env: Environment)
    requires ListsInputs(places, w, [], env)
    ensures places == []
  {
    hide CommandsOf;
    SomethingIn(places);
  }

  /**
   Every input of a batch whose session has a tank by then makes exactly one call to
   the engine, in order, for that tank and with its own channel and value; and no other
   call is made.
   */
  lemma {:induction false} InputsArrive(w: World, cmds: seq<ClientCommand>, env: Environment, places: seq<nat>)
    requires env.hosting && ListsInputs(places, w, cmds, env)
    ensures |DrivesOf(w, cmds, env)| == |places|
    ensures forall i :: 0 <= i < |places| ==> Drives(DrivesOf(w, cmds, env)[i], w, cmds, env, places[i])
  {
    hide CommandsOf, ListsInputs, Drives;
    if cmds == [] {
      NoInputs(places, w, env);
    } else {
      var n := |cmds| - 1;
      var init, last := cmds[..n], DriveOf(CommandsOf(w, cmds[..n], env).0, cmds[n], true);
      InputsBefore(places, w, cmds, env);
      var rest := if last == [] then places else places[..|places| - 1];
      InputsArrive(w, init, env, rest);
      forall i | 0 <= i < |rest| ensures Drives(DrivesOf(w, cmds, env)[i], w, cmds, env, rest[i]) {
        DrivesBefore(DrivesOf(w, init, env)[i], w, cmds, env, rest[i]);
      }
      if last != [] {
        LastDrives(w, cmds, env);
      }
    }
  }

  lemma {:induction false} LastDrives(w: World, cmds: seq<ClientCommand>, env: Environment)
    requires cmds != []
    ensures var last := DriveOf(CommandsOf(w, cmds[..|cmds| - 1], env).0, cmds[|cmds| - 1], true);
            last != [] ==> |last| == 1 && Drives(last[0], w, cmds, env, |cmds| - 1)
  {
    hide CommandsOf;
  }

  /** Without an engine no call is made. */
  lemma {:induction false} NoEngineNoCall(w: World, cmds: seq<ClientCommand>, env: Environment)
    requires !env.hosting
    ensures DrivesOf(w, cmds, env) == []
  {
    if cmds != [] {
      NoEngineNoCall(w, cmds[..|cmds| - 1], env);
    }
  }
}
