/**
 The two threads together: network happenings, single pushes and bridge ticks in
 any order, with the command queue between them. A tick drains what is queued at
 that moment, even between two pushes of one network step.
 */
module Interleaving {
  import opened Bits
  import opened EntityCodec
  import opened Queues
  import opened Packets
  import opened Protocol
  import opened Sessions
  import opened Bridge
  import opened Server
  import History
  import Roster

  /** The network thread takes its next step, queues one command of it, or the tick thread runs. */
  datatype Turn = OnNet(h: Happening) | PushNext | Ticked(env: Environment)

  /**
   Connections, the commands of the current network step not queued yet, the queue
   and the bridge, with everything pushed, every input call and every event so far.
   */
  datatype Site = Site(
    net: Net, unsent: seq<ClientCommand>, queue: QueueState<ClientCommand>, world: World,
    pushed: seq<Message>, driven: seq<Drive>, events: seq<History.Event>)

  function Opened(w: World): Site {
    Site(NEW_NET, [], QueueState([], []), w, [], [], [])
  }

  /** What a happening is going to put on the queue. */
  function NewCommands(cfg: Config, n: Net, h: Happening): seq<ClientCommand> {
    match h
    case Accept(_) => []
    case Deliver(id, x) => if id !in n.lives then [] else StepOf(n.lives[id].conn, x).cmds
    case Reap(id) => if id !in n.lives then [] else [Plain(Disconnected, id, [])]
  }

  function Pushes(cmds: seq<ClientCommand>): seq<QueueOp<ClientCommand>> {
    if cmds == [] then [] else [Pushed(cmds[0])] + Pushes(cmds[1..])
  }

  /** A step begins once all commands of the one before it are queued. */
  function TurnOf(cfg: Config, s: Site, t: Turn): Site {
    match t
    case OnNet(h) =>
      s.(net := NetStep(cfg, s.net, h), unsent := NewCommands(cfg, s.net, h),
         queue := QueueRun(s.queue, Pushes(s.unsent)))
    case PushNext =>
      if s.unsent == [] then s
      else s.(unsent := s.unsent[1..], queue := QueueStep(s.queue, Pushed(s.unsent[0])))
    case Ticked(env) =>
      var cmds := s.queue.items;
      var (w, out) := TickOf(s.world, cmds, env);
      Site(s.net, s.unsent, QueueStep(s.queue, QueueOp.Drained), w,
           s.pushed + out, s.driven + DrivesOf(s.world, cmds, env), s.events + History.TickEvents(cmds, env))
  }

  function SiteRun(cfg: Config, w: World, turns: seq<Turn>): Site {
    if turns == [] then Opened(w) else TurnOf(cfg, SiteRun(cfg, w, turns[..|turns| - 1]), turns[|turns| - 1])
  }

  function NetTurns(turns: seq<Turn>): seq<Happening> {
    if turns == [] then []
    else
      var t := turns[|turns| - 1];
      NetTurns(turns[..|turns| - 1]) + if t.OnNet? then [t.h] else []
  }

  // ---- The queue between the threads ------------------------------------------------------------

  lemma {:induction false} LogGrows(cfg: Config, n: Net, h: Happening)
    ensures NetStep(cfg, n, h).log == n.log + NewCommands(cfg, n, h)
  {
    hide StepOf, Accepted;
    assert n.log + [] == n.log;
  }

  lemma {:induction false} PushesKeepDelivered(q: QueueState<ClientCommand>, cmds: seq<ClientCommand>)
    ensures PushesOf(Pushes(cmds)) == cmds
    ensures QueueRun(q, Pushes(cmds)).delivered == q.delivered
    decreases |cmds|
  {
    if cmds != [] {
      PushesKeepDelivered(QueueStep(q, Pushed(cmds[0])), cmds[1..]);
      assert Pushes(cmds)[1..] == Pushes(cmds[1..]);
      assert cmds == [cmds[0]] + cmds[1..];
    }
  }

  lemma {:induction false} EventsCarry(cmds: seq<ClientCommand>, env: Environment)
    ensures CommandsIn(History.CommandEvents(cmds, env)) == cmds
  {
    if cmds != [] {
      var n := |cmds| - 1;
      EventsCarry(cmds[..n], env);
      assert History.CommandEvents(cmds, env)[..n] == History.CommandEvents(cmds[..n], env);
    }
  }

  lemma {:induction false} TickCarries(events: seq<History.Event>, cmds: seq<ClientCommand>, env: Environment)
    ensures CommandsIn(events + History.TickEvents(cmds, env)) == CommandsIn(events) + cmds
  {
    hide CommandsIn, History.CommandEvents;
    var last := History.Snapshots(env.provided, env.sequence, env.ts);
    EventsCarry(cmds, env);
    CommandsInConcat(events, History.TickEvents(cmds, env));
    CommandsInSnoc(History.CommandEvents(cmds, env), last);
    assert cmds + [] == cmds;
  }

  // ---- What every interleaving keeps ------------------------------------------------------------

  /**
   The network ran on its own turns, what the bridge has taken, what is queued and what
   is about to be queued are all it ever produced, and the bridge ran on its events.
   */
  ghost predicate InStep(cfg: Config, w: World, turns: seq<Turn>) {
    var s := SiteRun(cfg, w, turns);
    && s.net == NetRun(cfg, NEW_NET, NetTurns(turns))
    && s.queue.delivered + s.queue.items + s.unsent == s.net.log
    && CommandsIn(s.events) == s.queue.delivered
    && s.world == History.Run(w, s.events).world && s.pushed == History.Run(w, s.events).log
  }

  lemma {:induction false} NetTurnInStep(cfg: Config, w: World, turns: seq<Turn>, h: Happening)
    requires InStep(cfg, w, turns)
    ensures InStep(cfg, w, turns + [OnNet(h)])
  {
    hide NetStep, History.Run, CommandsIn, QueueRun, Pushes, NewCommands;
    var all := turns + [OnNet(h)];
    assert all[..|turns|] == turns;
    var s := SiteRun(cfg, w, turns);
    assert NetTurns(all)[..|NetTurns(turns)|] == NetTurns(turns);
    LogGrows(cfg, s.net, h);
    PushesKeepDelivered(s.queue, s.unsent);
    FirstInFirstOut(s.queue, Pushes(s.unsent));
  }

  lemma {:induction false} PushInStep(cfg: Config, w: World, turns: seq<Turn>)
    requires InStep(cfg, w, turns)
    ensures InStep(cfg, w, turns + [PushNext])
  {
    hide NetStep, NetRun, History.Run, CommandsIn, NewCommands, TickOf, DrivesOf, History.TickEvents, QueueRun;
    var all := turns + [PushNext];
    assert all[..|turns|] == turns;
    var s := SiteRun(cfg, w, turns);
    assert NetTurns(turns) + [] == NetTurns(turns);
    if s.unsent != [] {
      ConcatAssoc(s.queue.delivered, s.queue.items, [s.unsent[0]]);
      ConcatAssoc(s.queue.delivered + s.queue.items, [s.unsent[0]], s.unsent[1..]);
      assert s.unsent == [s.unsent[0]] + s.unsent[1..];
    }
  }

  lemma {:induction false} TickInStep(cfg: Config, w: World, turns: seq<Turn>, env: Environment)
    requires InStep(cfg, w, turns)
    ensures InStep(cfg, w, turns + [Ticked(env)])
  {
    hide NetRun, History.Run, CommandsIn, TickOf, DrivesOf, History.TickEvents;
    var all := turns + [Ticked(env)];
    assert all[..|turns|] == turns;
    var s := SiteRun(cfg, w, turns);
    assert NetTurns(turns) + [] == NetTurns(turns);
    History.TickIsRun(w, s.events, s.queue.items, env);
    TickCarries(s.events, s.queue.items, env);
    assert s.queue.delivered + s.queue.items + [] == s.queue.delivered + s.queue.items;
  }

  lemma {:induction false} SiteInStep(cfg: Config, w: World, turns: seq<Turn>)
    ensures InStep(cfg, w, turns)
  {
    hide InStep, SiteRun;
    if turns == [] {
      OpenedInStep(cfg, w);
    } else {
      var n := |turns| - 1;
      SiteInStep(cfg, w, turns[..n]);
      assert turns == turns[..n] + [turns[n]];
      match turns[n]
      case OnNet(h) => NetTurnInStep(cfg, w, turns[..n], h);
      case PushNext => PushInStep(cfg, w, turns[..n]);
      case Ticked(env) => TickInStep(cfg, w, turns[..n], env);
    }
  }

  lemma {:induction false} OpenedInStep(cfg: Config, w: World)
    ensures InStep(cfg, w, [])
  {
    hide TurnOf, NetStep;
  }

  /** At every moment of every interleaving the bridge has taken a prefix of what the network produced. */
  lemma {:induction false} TakesPrefix(cfg: Config, w: World, turns: seq<Turn>, i: nat)
    requires i <= |SiteRun(cfg, w, turns).events|
    ensures Served(cfg, NetTurns(turns), SiteRun(cfg, w, turns).events[..i])
  {
    hide SiteRun, NetRun, CommandsIn, History.Run;
    var events := SiteRun(cfg, w, turns).events;
    SiteInStep(cfg, w, turns);
    CommandsInConcat(events[..i], events[i..]);
    assert events == events[..i] + events[i..];
  }

  // ---- The guarantees ------------------------------------------------------------------------------

  function WorldBefore(w: World, events: seq<History.Event>, i: nat): World
    requires i <= |events|
  {
    History.Run(w, events[..i]).world
  }

  /**
   No stray commands: in any interleaving, every command the bridge has handled was
   well formed, a request or input only for a session it knew at that moment, and a
   connection only for one it did not.
   */
  lemma {:induction false} NoStrayCommand(cfg: Config, w: World, turns: seq<Turn>, i: nat)
    requires w.sessions == map[]
    requires i < |SiteRun(cfg, w, turns).events| && SiteRun(cfg, w, turns).events[i].Command?
    ensures var events := SiteRun(cfg, w, turns).events;
            var cmd, sessions := events[i].cmd, WorldBefore(w, events, i).sessions;
            && WellFormed(cmd, cmd.sessionId)
            && (cmd.kind.WantUpdates? || cmd.kind.Reincarnate? || cmd.kind.ActionInput? ==> cmd.sessionId in sessions)
            && (cmd.kind.ClientConnected? ==> cmd.sessionId !in sessions)
  {
    hide SiteRun, Queued, CommandsIn, WellFormed, History.Run;
    var events := SiteRun(cfg, w, turns).events;
    TakesPrefix(cfg, w, turns, i);
    TakesPrefix(cfg, w, turns, i + 1);
    CommandsInSnoc(events[..i], events[i]);
    assert events[..i + 1] == events[..i] + [events[i]];
    NextCommandFits(cfg, NetTurns(turns), w, events[..i]);
  }

  /**
   In any interleaving, from the moment a session's Disconnected is handled nothing
   is ever pushed to that session again.
   */
  lemma {:induction false} SilentAfterDisconnect(cfg: Config, w: World, turns: seq<Turn>, i: nat)
    requires w.sessions == map[]
    requires i < |SiteRun(cfg, w, turns).events|
    requires var e := SiteRun(cfg, w, turns).events[i]; e.Command? && e.cmd.kind.Disconnected?
    ensures var s := SiteRun(cfg, w, turns);
            var before := History.Run(w, s.events[..i + 1]).log;
            && before <= s.pushed
            && forall j :: |before| <= j < |s.pushed| ==> s.pushed[j].sessionId != s.events[i].cmd.sessionId
  {
    hide SiteRun, CommandsIn, History.Run, Served, NetRun;
    var s := SiteRun(cfg, w, turns);
    var a, b := s.events[..i + 1], s.events[i + 1..];
    SiteInStep(cfg, w, turns);
    TakesPrefix(cfg, w, turns, |s.events|);
    assert s.events[..|s.events|] == s.events && a + b == s.events;
    assert a == s.events[..i] + [s.events[i]];
    CommandsInSnoc(s.events[..i], s.events[i]);
    SilentOnceServed(cfg, NetTurns(turns), w, a, b, |CommandsIn(a)| - 1);
  }

  /**
   The server end to end: whatever clients send and whenever the ticks fall, every
   live client's roster agrees with the bridge after every event, as long as at
   most 2147483647 sessions have been accepted.
   */
  lemma {:induction false} ServerRosterAgreement(cfg: Config, w: World, turns: seq<Turn>, i: nat)
    requires w.sessions == map[] && SiteRun(cfg, w, turns).net.nextId <= MAX_PLAYER_ID + 1
    requires i <= |SiteRun(cfg, w, turns).events|
    ensures Roster.RostersAgree(History.Run(w, SiteRun(cfg, w, turns).events[..i]))
  {
    hide SiteRun, NetRun, Served, History.Run, Roster.RostersAgree, CommandsIn;
    SiteInStep(cfg, w, turns);
    TakesPrefix(cfg, w, turns, i);
    ServedRosters(cfg, NetTurns(turns), w, SiteRun(cfg, w, turns).events[..i]);
  }

  // ---- Input calls -----------------------------------------------------------------------------------

  /** d is the call of some handled input, in range, for the tank its own session had at that moment. */
  ghost predicate Sound(d: Drive, w: World, events: seq<History.Event>) {
    exists i :: 0 <= i < |events| && events[i].Command? && DrivenBy(d, WorldBefore(w, events, i), events[i].cmd)
  }

  predicate DrivenBy(d: Drive, w: World, cmd: ClientCommand) {
    && cmd.kind.ActionInput? && cmd.sessionId in w.sessions && w.sessions[cmd.sessionId].spawned
    && d == Drive(w.sessions[cmd.sessionId].entity.netId, cmd.channel, cmd.value)
    && 0 <= d.channel <= 21 && -1.0 <= d.value <= 1.0
  }

  ghost predicate AllFit(cmds: seq<ClientCommand>) {
    forall j :: 0 <= j < |cmds| ==> WellFormed(cmds[j], cmds[j].sessionId)
  }

  /** Every call of a batch comes from one of its commands, in the world that command met. */
  lemma {:induction false} DriveOrigin(w: World, cmds: seq<ClientCommand>, env: Environment, d: Drive) returns (j: nat)
    requires d in DrivesOf(w, cmds, env)
    ensures j < |cmds| && d in DriveOf(CommandsOf(w, cmds[..j], env).0, cmds[j], env.hosting)
  {
    hide DriveOf, CommandsOf;
    var n := |cmds| - 1;
    if d in DrivesOf(w, cmds[..n], env) {
      j := DriveOrigin(w, cmds[..n], env, d);
      assert cmds[..n][..j] == cmds[..j];
    } else {
      j := n;
    }
  }

  lemma {:induction false} SoundLater(d: Drive, w: World, a: seq<History.Event>, b: seq<History.Event>)
    requires Sound(d, w, a)
    ensures Sound(d, w, a + b)
  {
    hide DrivenBy, History.Run;
    var i :| 0 <= i < |a| && a[i].Command? && DrivenBy(d, WorldBefore(w, a, i), a[i].cmd);
    assert (a + b)[..i] == a[..i] && (a + b)[i] == a[i];
    assert DrivenBy(d, WorldBefore(w, a + b, i), (a + b)[i].cmd);
  }

  lemma {:induction false} TickSound(w: World, events: seq<History.Event>, cmds: seq<ClientCommand>, env: Environment,
                                     d: Drive)
    requires d in DrivesOf(History.Run(w, events).world, cmds, env)
    requires AllFit(cmds)
    ensures Sound(d, w, events + History.TickEvents(cmds, env))
  {
    hide History.Run, CommandsOf, DrivesOf, Printable;
    var j := DriveOrigin(History.Run(w, events).world, cmds, env, d);
    History.CommandsAreEvents(w, events, cmds[..j], env);
    var all := events + History.TickEvents(cmds, env);
    var i := |events| + j;
    assert all[..i] == events + History.CommandEvents(cmds[..j], env);
    assert all[i] == History.Command(cmds[j], env.sequence, Reply(env, j));
    assert WellFormed(cmds[j], cmds[j].sessionId);
    assert DrivenBy(d, WorldBefore(w, all, i), all[i].cmd);
  }

  /**
   In any interleaving, every input call that reached the engine is on a channel
   from 0 to 21, within -1 and 1, and for the tank that the sending session had
   spawned when the bridge handled its command.
   */
  lemma {:induction false} DrivesInRange(cfg: Config, w: World, turns: seq<Turn>, d: Drive)
    requires d in SiteRun(cfg, w, turns).driven
    ensures Sound(d, w, SiteRun(cfg, w, turns).events)
  {
    hide Sound, NetStep, TickOf, DrivesOf, History.TickEvents, QueueRun, AllFit, NetRun, CommandsIn, History.Run;
    var n := |turns| - 1;
    var s := SiteRun(cfg, w, turns[..n]);
    if d in s.driven {
      DrivesInRange(cfg, w, turns[..n], d);
      if turns[n].Ticked? {
        SoundLater(d, w, s.events, History.TickEvents(s.queue.items, turns[n].env));
      }
    } else {
      SiteInStep(cfg, w, turns[..n]);
      QueueItemsWellFormed(cfg, w, turns[..n]);
      TickSound(w, s.events, s.queue.items, turns[n].env, d);
    }
  }

  lemma {:induction false} QueueItemsWellFormed(cfg: Config, w: World, turns: seq<Turn>)
    ensures AllFit(SiteRun(cfg, w, turns).queue.items)
  {
    hide SiteRun, NetRun, WellFormed, CommandsIn, History.Run;
    SiteInStep(cfg, w, turns);
    var q := SiteRun(cfg, w, turns).queue;
    forall j | 0 <= j < |q.items| ensures WellFormed(q.items[j], q.items[j].sessionId) {
      assert (q.delivered + q.items)[|q.delivered| + j] == q.items[j];
      assert (q.delivered + q.items)[|q.delivered| + j] == Queued(cfg, NetTurns(turns))[|q.delivered| + j];
      QueueWellFormed(cfg, NetTurns(turns), |q.delivered| + j);
    }
  }
}
