/**
 The whole server: connections, the command queue and the bridge. Whatever the
 clients send, the bridge only ever sees commands in their grammar, so each
 session exists for it exactly between its connection and its disconnection.
 */
module Server {
  import opened Bits
  import opened Framing
  import opened Queues
  import opened Packets
  import opened Protocol
  import opened Sessions
  import opened Bridge
  import opened EntityCodec
  import Safety
  import History
  import Roster

  // ---- The network thread as runs ------------------------------------------------------------

  datatype Happening = Accept(key: Text) | Deliver(id: nat, input: Input) | Reap(id: nat)

  /** The live connections, the next session id, and every command ever queued. */
  datatype Net = Net(lives: map<nat, Life>, nextId: nat, log: seq<ClientCommand>)

  const NEW_NET := Net(map[], 1, [])

  function NetStep(cfg: Config, n: Net, h: Happening): Net {
    match h
    case Accept(key) => n.(lives := n.lives[n.nextId := Accepted(n.nextId, cfg, key)], nextId := n.nextId + 1)
    case Deliver(id, x) =>
      if id !in n.lives then n
      else
        var s := StepOf(n.lives[id].conn, x);
        n.(lives := n.lives[id := Extend(n.lives[id], s)], log := n.log + s.cmds)
    case Reap(id) =>
      if id !in n.lives then n else n.(lives := n.lives - {id}, log := n.log + [Plain(Disconnected, id, [])])
  }

  function NetRun(cfg: Config, n: Net, hs: seq<Happening>): Net {
    if hs == [] then n else NetStep(cfg, NetRun(cfg, n, hs[..|hs| - 1]), hs[|hs| - 1])
  }

  /** The commands of one session, in order. */
  function Of(cmds: seq<ClientCommand>, id: nat): seq<ClientCommand> {
    if cmds == [] then []
    else Of(cmds[..|cmds| - 1], id) + if cmds[|cmds| - 1].sessionId == id then [cmds[|cmds| - 1]] else []
  }

  lemma {:induction false} OfConcat(a: seq<ClientCommand>, b: seq<ClientCommand>, id: nat)
    ensures Of(a + b, id) == Of(a, id) + Of(b, id)
    decreases |b|
  {
    if b == [] {
      assert a + b == a;
    } else {
      var n := |b| - 1;
      assert (a + b)[..|a| + n] == a + b[..n];
      OfConcat(a, b[..n], id);
    }
  }

  lemma {:induction false} OfSame(cmds: seq<ClientCommand>, id: nat, k: nat)
    requires forall i :: 0 <= i < |cmds| ==> cmds[i].sessionId == id
    ensures Of(cmds, k) == if k == id then cmds else []
  {
    if cmds != [] {
      OfSame(cmds[..|cmds| - 1], id, k);
    }
  }

  /** What the network thread keeps for every session id, connected, gone or not yet given out. */
  ghost predicate TraceOk(n: Net, id: nat) {
    var t := Of(n.log, id);
    if id in n.lives then
      LifeOk(n.lives[id]) && n.lives[id].conn.sessionId == id && n.lives[id].cmds == t && 0 < id < n.nextId
    else if 0 < id < n.nextId then PhaseOf(t) == Gone && AllWellFormed(t, id)
    else t == []
  }

  ghost predicate NetOk(n: Net) {
    n.nextId > 0 && forall id: nat :: TraceOk(n, id)
  }

  lemma {:induction false} NewNetOk()
    ensures NetOk(NEW_NET)
  {
  }

  lemma {:induction false} AcceptKeeps(cfg: Config, n: Net, key: Text)
    requires NetOk(n)
    ensures NetOk(NetStep(cfg, n, Accept(key)))
  {
    hide LifeOk, AllWellFormed, Of, AcceptBurst;
    var n' := NetStep(cfg, n, Accept(key));
    FirstLife(n.nextId, cfg, key);
    forall id: nat ensures TraceOk(n', id) {
      assert TraceOk(n, id);
    }
  }

  lemma {:induction false} StepKeeps(l: Life, x: Input)
    requires LifeOk(l)
    ensures LifeOk(Extend(l, StepOf(l.conn, x)))
    ensures Extend(l, StepOf(l.conn, x)).conn.sessionId == l.conn.sessionId
    ensures forall i :: 0 <= i < |StepOf(l.conn, x).cmds| ==> StepOf(l.conn, x).cmds[i].sessionId == l.conn.sessionId
  {
    hide TcpStep, UdpStep, LifeOk;
    match x {
      case Tcp(data) => TcpKeeps(l, data);
      case Udp(opcode, body) => UdpKeeps(l, opcode, body);
      case Assign(pid) => AssignKeeps(l, pid);
    }
    SameSession(l.conn, x);
    NewCommandsOwn(l, StepOf(l.conn, x));
  }

  lemma {:induction false} SameSession(c: Conn, x: Input)
    ensures StepOf(c, x).conn.sessionId == c.sessionId
  {
    hide StepOf;
    Safety.StepOnward(c, x);
  }

  lemma {:induction false} NewCommandsOwn(l: Life, s: Step)
    requires LifeOk(Extend(l, s))
    ensures forall i :: 0 <= i < |s.cmds| ==> s.cmds[i].sessionId == s.conn.sessionId
  {
    hide SentOk, PhaseOf;
    var cmds := l.cmds + s.cmds;
    forall i | 0 <= i < |s.cmds| ensures s.cmds[i].sessionId == s.conn.sessionId {
      assert cmds[|l.cmds| + i] == s.cmds[i];
      assert WellFormed(cmds[|l.cmds| + i], s.conn.sessionId);
    }
  }

  lemma {:induction false} DeliverKeeps(cfg: Config, n: Net, id: nat, x: Input)
    requires NetOk(n)
    ensures NetOk(NetStep(cfg, n, Deliver(id, x)))
  {
    hide LifeOk, AllWellFormed, Of, StepOf;
    if id in n.lives {
      var n' := NetStep(cfg, n, Deliver(id, x));
      assert TraceOk(n, id);
      StepKeeps(n.lives[id], x);
      var s := StepOf(n.lives[id].conn, x);
      forall k: nat ensures TraceOk(n', k) {
        assert TraceOk(n, k);
        OfConcat(n.log, s.cmds, k);
        OfSame(s.cmds, id, k);
        assert Of(n.log, k) + [] == Of(n.log, k);
      }
    }
  }

  lemma {:induction false} GoneAfter(l: Life, id: nat)
    requires LifeOk(l) && l.conn.sessionId == id
    ensures var t := l.cmds + [Plain(Disconnected, id, [])]; PhaseOf(t) == Gone && AllWellFormed(t, id)
  {
    hide SentOk, PhaseOf;
    PhaseSnoc(l.cmds, Plain(Disconnected, id, []));
    AppendOk(l.cmds, Plain(Disconnected, id, []), id);
  }

  lemma {:induction false} ReapKeeps(cfg: Config, n: Net, id: nat)
    requires NetOk(n)
    ensures NetOk(NetStep(cfg, n, Reap(id)))
  {
    hide LifeOk, AllWellFormed, Of, PhaseOf;
    if id in n.lives {
      var n' := NetStep(cfg, n, Reap(id));
      assert TraceOk(n, id);
      GoneAfter(n.lives[id], id);
      var last := [Plain(Disconnected, id, [])];
      forall k: nat ensures TraceOk(n', k) {
        assert TraceOk(n, k);
        OfConcat(n.log, last, k);
        OfSame(last, id, k);
        assert Of(n.log, k) + [] == Of(n.log, k);
      }
    }
  }

  lemma {:induction false} NetRunKeeps(cfg: Config, n: Net, hs: seq<Happening>)
    requires NetOk(n)
    ensures NetOk(NetRun(cfg, n, hs))
  {
    hide NetOk, NetStep;
    if hs != [] {
      var before := NetRun(cfg, n, hs[..|hs| - 1]);
      NetRunKeeps(cfg, n, hs[..|hs| - 1]);
      match hs[|hs| - 1]
      case Accept(key) => AcceptKeeps(cfg, before, key);
      case Deliver(id, x) => DeliverKeeps(cfg, before, id, x);
      case Reap(id) => ReapKeeps(cfg, before, id);
    }
  }

  // ---- Grammar of the queue --------------------------------------------------------------------

  lemma {:induction false} BrokenStays(a: seq<ClientCommand>, b: seq<ClientCommand>)
    requires PhaseOf(a) == Broken
    ensures PhaseOf(a + b) == Broken
    decreases |b|
  {
    if b == [] {
      assert a + b == a;
    } else {
      BrokenStays(a, b[..|b| - 1]);
      assert (a + b)[..|a| + |b| - 1] == a + b[..|b| - 1];
    }
  }

  /** No session's commands have left the grammar. */
  ghost predicate Lawful(cmds: seq<ClientCommand>) {
    forall id: nat :: PhaseOf(Of(cmds, id)) != Broken
  }

  lemma {:induction false} LawfulPrefix(a: seq<ClientCommand>, b: seq<ClientCommand>)
    requires Lawful(a + b)
    ensures Lawful(a)
  {
    hide Of, PhaseOf;
    forall id: nat ensures PhaseOf(Of(a, id)) != Broken {
      OfConcat(a, b, id);
      if PhaseOf(Of(a, id)) == Broken {
        BrokenStays(Of(a, id), Of(b, id));
      }
      assert PhaseOf(Of(a + b, id)) != Broken;
    }
  }

  /** From a fresh server, whatever happens on the network. */
  function Queued(cfg: Config, hs: seq<Happening>): seq<ClientCommand> {
    NetRun(cfg, NEW_NET, hs).log
  }

  lemma {:induction false} QueueLawful(cfg: Config, hs: seq<Happening>)
    ensures Lawful(Queued(cfg, hs))
  {
    hide NetRun, Of, SentOk, AllWellFormed;
    NewNetOk();
    NetRunKeeps(cfg, NEW_NET, hs);
    var n := NetRun(cfg, NEW_NET, hs);
    forall id: nat ensures PhaseOf(Of(n.log, id)) != Broken {
      assert TraceOk(n, id);
      if id !in n.lives {
        NoCommands();
      }
    }
  }

  lemma {:induction false} NoCommands()
    ensures PhaseOf([]) == Fresh
  {
  }

  /**
   Every session's commands, in the order the bridge will see them, are a prefix
   of user name, password, connection and WANT_UPDATES followed by requests and
   input only, with at most one Disconnected, at the very end.
   */
  lemma {:induction false} CommandGrammar(cfg: Config, hs: seq<Happening>, id: nat)
    ensures var t := Of(Queued(cfg, hs), id);
            InOrder(Kinds(t)) || (t != [] && InOrder(Kinds(t)[..|t| - 1]) && t[|t| - 1].kind.Disconnected?)
  {
    hide Queued, Of, InOrder, PhaseOf;
    QueueLawful(cfg, hs);
    PhaseShape(Of(Queued(cfg, hs), id));
    assert PhaseOf(Of(Queued(cfg, hs), id)) != Broken;
  }

  lemma {:induction false} OfHolds(cmds: seq<ClientCommand>, i: nat)
    requires i < |cmds|
    ensures exists j :: 0 <= j < |Of(cmds, cmds[i].sessionId)| && Of(cmds, cmds[i].sessionId)[j] == cmds[i]
  {
    var n := |cmds| - 1;
    var id := cmds[i].sessionId;
    if i == n {
      assert Of(cmds, id)[|Of(cmds[..n], id)|] == cmds[i];
    } else {
      OfHolds(cmds[..n], i);
      var j :| 0 <= j < |Of(cmds[..n], id)| && Of(cmds[..n], id)[j] == cmds[i];
      assert Of(cmds, id)[j] == cmds[i];
    }
  }

  /** Every queued command is well formed and comes from a session id that was given out. */
  lemma {:induction false} QueueWellFormed(cfg: Config, hs: seq<Happening>, i: nat)
    requires i < |Queued(cfg, hs)|
    ensures var cmd := Queued(cfg, hs)[i];
            WellFormed(cmd, cmd.sessionId) && 0 < cmd.sessionId < NetRun(cfg, NEW_NET, hs).nextId
  {
    hide NetRun, Of, SentOk, PhaseOf, WellFormed;
    NewNetOk();
    NetRunKeeps(cfg, NEW_NET, hs);
    var n := NetRun(cfg, NEW_NET, hs);
    var cmd := n.log[i];
    OfHolds(n.log, i);
    assert TraceOk(n, cmd.sessionId);
    var j :| 0 <= j < |Of(n.log, cmd.sessionId)| && Of(n.log, cmd.sessionId)[j] == cmd;
    assert WellFormed(Of(n.log, cmd.sessionId)[j], cmd.sessionId);
  }

  // ---- What the bridge sees ---------------------------------------------------------------------

  /** The commands the bridge has handled, in order. */
  function CommandsIn(events: seq<History.Event>): seq<ClientCommand> {
    if events == [] then []
    else
      var e := events[|events| - 1];
      CommandsIn(events[..|events| - 1]) + if e.Command? then [e.cmd] else []
  }

  predicate Present(p: Phase) {
    p == Connected || p == Live
  }

  /** A session is in the world exactly between the handling of its connection and of its disconnection. */
  ghost predicate Mirrors(w: World, cmds: seq<ClientCommand>) {
    forall id: nat :: id in w.sessions <==> Present(PhaseOf(Of(cmds, id)))
  }

  lemma {:induction false} OfSnoc(cmds: seq<ClientCommand>, c: ClientCommand, id: nat)
    ensures Of(cmds + [c], id) == if c.sessionId == id then Of(cmds, id) + [c] else Of(cmds, id)
  {
    assert (cmds + [c])[..|cmds|] == cmds;
    assert Of(cmds, id) + [] == Of(cmds, id);
  }

  lemma {:induction false} CommandMirrors(w: World, cmds: seq<ClientCommand>, e: History.Event)
    requires Mirrors(w, cmds) && e.Command? && Lawful(cmds) && Lawful(cmds + [e.cmd])
    ensures Mirrors(History.EventOf(w, e).0, cmds + [e.cmd])
  {
    hide History.EventOf, Of, PhaseOf;
    History.SessionsAfter(w, e);
    forall id: nat ensures id in History.EventOf(w, e).0.sessions <==> Present(PhaseOf(Of(cmds + [e.cmd], id))) {
      OfSnoc(cmds, e.cmd, id);
      PhaseSnoc(Of(cmds, id), e.cmd);
      assert PhaseOf(Of(cmds, id)) != Broken && PhaseOf(Of(cmds + [e.cmd], id)) != Broken;
      assert id in w.sessions <==> Present(PhaseOf(Of(cmds, id)));
      assert id in History.EventOf(w, e).0.sessions <==> id in History.EventOf(w, e).0.sessions.Keys;
    }
  }

  lemma {:induction false} WorldMirrors(w: World, events: seq<History.Event>)
    requires w.sessions == map[] && Lawful(CommandsIn(events))
    ensures Mirrors(History.Run(w, events).world, CommandsIn(events))
  {
    hide History.EventOf, Lawful, Mirrors;
    if events == [] {
      NobodyYet(w);
    } else {
      var before, e := events[..|events| - 1], events[|events| - 1];
      var h := History.Run(w, before);
      if e.Command? {
        LawfulPrefix(CommandsIn(before), [e.cmd]);
        WorldMirrors(w, before);
        CommandMirrors(h.world, CommandsIn(before), e);
      } else {
        assert CommandsIn(before) + [] == CommandsIn(before);
        WorldMirrors(w, before);
        History.SessionsAfter(h.world, e);
        SameKeysMirror(h.world, History.EventOf(h.world, e).0, CommandsIn(before));
      }
    }
  }

  lemma {:induction false} SameKeysMirror(w: World, w': World, cmds: seq<ClientCommand>)
    requires Mirrors(w, cmds) && w.sessions.Keys == w'.sessions.Keys
    ensures Mirrors(w', cmds)
  {
    hide Of, PhaseOf;
    forall id: nat ensures id in w'.sessions <==> Present(PhaseOf(Of(cmds, id))) {
      assert id in w.sessions <==> id in w'.sessions.Keys;
    }
  }

  lemma {:induction false} NobodyYet(w: World)
    requires w.sessions == map[]
    ensures Mirrors(w, []) && History.Run(w, []).world == w
  {
  }

  // ---- Commands taken in order ----------------------------------------------------------------------

  /** The bridge has handled these events, taking its commands from the queue in order. */
  ghost predicate Served(cfg: Config, hs: seq<Happening>, events: seq<History.Event>) {
    CommandsIn(events) <= Queued(cfg, hs)
  }

  lemma {:induction false} ServedLawful(cfg: Config, hs: seq<Happening>, events: seq<History.Event>)
    requires Served(cfg, hs, events)
    ensures Lawful(CommandsIn(events))
  {
    hide Queued, CommandsIn, Lawful;
    QueueLawful(cfg, hs);
    var p, q := CommandsIn(events), Queued(cfg, hs);
    assert q == p + q[|p|..];
    LawfulPrefix(p, q[|p|..]);
  }

  /** The next command in the queue fits the world that has taken all before it. */
  lemma {:induction false} NextCommandFits(cfg: Config, hs: seq<Happening>, w: World, events: seq<History.Event>)
    requires w.sessions == map[] && Served(cfg, hs, events) && |CommandsIn(events)| < |Queued(cfg, hs)|
    ensures var cmd, sessions := Queued(cfg, hs)[|CommandsIn(events)|], History.Run(w, events).world.sessions;
            && WellFormed(cmd, cmd.sessionId)
            && (cmd.kind.WantUpdates? || cmd.kind.Reincarnate? || cmd.kind.ActionInput? ==> cmd.sessionId in sessions)
            && (cmd.kind.ClientConnected? ==> cmd.sessionId !in sessions)
  {
    hide Queued, CommandsIn, WellFormed, Of, PhaseOf, History.Run, Lawful, Mirrors;
    var p, q := CommandsIn(events), Queued(cfg, hs);
    var cmd := q[|p|];
    var id := cmd.sessionId;
    QueueWellFormed(cfg, hs, |p|);
    ServedLawful(cfg, hs, events);
    WorldMirrors(w, events);
    QueueLawful(cfg, hs);
    assert q == (p + [cmd]) + q[|p| + 1..];
    LawfulPrefix(p + [cmd], q[|p| + 1..]);
    OfSnoc(p, cmd, id);
    PhaseSnoc(Of(p, id), cmd);
    LawfulAt(p + [cmd], id);
    MirrorsAt(History.Run(w, events).world, p, id);
  }

  lemma {:induction false} LawfulAt(cmds: seq<ClientCommand>, id: nat)
    requires Lawful(cmds)
    ensures PhaseOf(Of(cmds, id)) != Broken
  {
  }

  lemma {:induction false} MirrorsAt(w: World, cmds: seq<ClientCommand>, id: nat)
    requires Mirrors(w, cmds)
    ensures id in w.sessions <==> Present(PhaseOf(Of(cmds, id)))
  {
  }

  // ---- Who is spoken to ----------------------------------------------------------------------------

  ghost predicate Addressed(msgs: seq<Message>, ids: set<nat>) {
    forall i :: 0 <= i < |msgs| ==> msgs[i].sessionId in ids
  }

  lemma {:induction false} PeersAddressed(ids: seq<nat>, except: nat, bytes: seq<Byte>, all: set<nat>)
    requires forall i :: 0 <= i < |ids| ==> ids[i] in all
    ensures Addressed(ToPeers(ids, except, bytes), all) && Addressed(ToAll(ids, bytes), all)
  {
    if ids != [] {
      PeersAddressed(ids[..|ids| - 1], except, bytes, all);
    }
  }

  lemma {:induction false} IntroductionsAddressed(ids: seq<nat>, sessions: map<nat, Session>, joined: nat)
    requires joined in sessions && forall i :: 0 <= i < |ids| ==> ids[i] in sessions
    ensures Addressed(Introductions(ids, sessions, joined), sessions.Keys)
  {
    if ids != [] {
      IntroductionsAddressed(ids[..|ids| - 1], sessions, joined);
    }
  }

  lemma {:induction false} EmitAddressed(sessions: map<nat, Session>, ids: seq<nat>, statics: seq<Entity>,
                                         dynamic: seq<Entity>,
                                         sequence: U32, ts: I32)
    requires forall i :: 0 <= i < |ids| ==> ids[i] in sessions
    ensures Addressed(EmitAllOf(sessions, ids, statics, dynamic, sequence, ts).1, sessions.Keys)
  {
    hide EmitSessionOf;
    if ids != [] {
      var n := |ids| - 1;
      EmitAddressed(sessions, ids[..n], statics, dynamic, sequence, ts);
      OwnMessages(ids[n], EmitAllOf(sessions, ids[..n], statics, dynamic, sequence, ts).0[ids[n]], statics, dynamic,
          sequence, ts);
    }
  }

  lemma {:induction false} OwnMessages(id: nat, s: Session, statics: seq<Entity>, dynamic: seq<Entity>, sequence: U32,
                                       ts: I32)
    ensures Addressed(EmitSessionOf(id, s, statics, dynamic, sequence, ts).1, {id})
  {
    hide Others, SelfIn;
  }

  lemma {:induction false} SwitchAddressed(w: World, id: nat, team: int)
    requires id in w.sessions
    ensures Addressed(TeamSwitchOf(w, id, team).1, w.sessions.Keys)
  {
    hide ToPeers, Ascending, ReincarnateResult, UpdateStatsFramed;
    PeersAddressed(Ascending(w.sessions.Keys), id, UpdateStatsFramed(w.sessions[id].playerId, team), w.sessions.Keys);
  }

  lemma {:induction false} SpawnAddressed(w: World, id: nat, pad: Entity, sequence: U32, reply: Option<int>)
    requires id in w.sessions
    ensures Addressed(SpawnOnPadOf(w, id, pad, sequence, reply).1, w.sessions.Keys)
  {
    hide ToAll, Ascending, ReincarnateResult, TankSpawnOf, BirthNotice, SpawnedEntity;
    PeersAddressed(Ascending(w.sessions.Keys), id, BirthNotice(w.sessions[id].playerId), w.sessions.Keys);
  }

  lemma {:induction false} CommandAddressed(w: World, cmd: ClientCommand, sequence: U32, reply: Option<int>)
    ensures Addressed(CommandOf(w, cmd, sequence, reply).1, CommandOf(w, cmd, sequence, reply).0.sessions.Keys)
  {
    hide TeamSwitchOf, SpawnOnPadOf, ResolveSpawnPad, Introductions, Ascending, ReincarnateResult;
    match cmd.kind
    case ClientConnected =>
      if cmd.sessionId !in w.sessions {
        var sessions := w.sessions[cmd.sessionId := NewSession(cmd)];
        IntroductionsAddressed(Ascending(sessions.Keys), sessions, cmd.sessionId);
      }
    case Reincarnate =>
      if cmd.sessionId in w.sessions {
        var e := History.Command(cmd, sequence, reply);
        KeysKept(w, cmd, sequence, reply);
        if cmd.team != 0 {
          SwitchAddressed(w, cmd.sessionId, cmd.team);
        } else {
          var pad := ResolveSpawnPad(w.statics, w.sessions[cmd.sessionId].team, cmd.unitId, cmd.padId);
          if pad.Some? {
            SpawnAddressed(w, cmd.sessionId, pad.value, sequence, reply);
          }
        }
      }
    case _ =>
  }

  lemma {:induction false} KeysKept(w: World, cmd: ClientCommand, sequence: U32, reply: Option<int>)
    requires cmd.kind.Reincarnate?
    ensures ReincarnateOf(w, cmd, sequence, reply).0.sessions.Keys == w.sessions.Keys
  {
    hide ReincarnateOf;
    History.SessionsAfter(w, History.Command(cmd, sequence, reply));
  }

  /** The bridge speaks only to sessions it knows. */
  lemma {:induction false} EventAddressed(w: World, e: History.Event)
    ensures Addressed(History.EventOf(w, e).1, History.EventOf(w, e).0.sessions.Keys)
  {
    hide CommandOf, EmitAllOf;
    match e
    case Command(cmd, sequence, reply) => CommandAddressed(w, cmd, sequence, reply);
    case Snapshots(provided, sequence, ts) =>
      EmitAddressed(w.sessions, Ascending(w.sessions.Keys), w.statics, Dynamic(w, provided), sequence, ts);
  }

  // ---- Silence after a disconnection ---------------------------------------------------------------

  lemma {:induction false} GoneStays(a: seq<ClientCommand>, b: seq<ClientCommand>, id: nat)
    requires Lawful(a + b) && PhaseOf(Of(a, id)) == Gone
    ensures PhaseOf(Of(a + b, id)) == Gone
    decreases |b|
  {
    hide Of;
    OfConcat(a, b, id);
    assert PhaseOf(Of(a + b, id)) != Broken;
    GoneOrBroken(Of(a, id), Of(b, id));
  }

  lemma {:induction false} GoneOrBroken(a: seq<ClientCommand>, b: seq<ClientCommand>)
    requires PhaseOf(a) == Gone || PhaseOf(a) == Broken
    ensures PhaseOf(a + b) == Gone || PhaseOf(a + b) == Broken
    ensures PhaseOf(a + b) == Gone ==> b == []
    decreases |b|
  {
    if b == [] {
      assert a + b == a;
    } else {
      GoneOrBroken(a, b[..|b| - 1]);
      assert (a + b)[..|a| + |b| - 1] == a + b[..|b| - 1];
    }
  }

  /** Once a Disconnected has been handled, the session is gone. */
  lemma {:induction false} DisconnectedIsGone(cmds: seq<ClientCommand>, i: nat)
    requires Lawful(cmds) && i < |cmds| && cmds[i].kind.Disconnected?
    ensures PhaseOf(Of(cmds, cmds[i].sessionId)) == Gone
  {
    hide Of, PhaseOf;
    var id := cmds[i].sessionId;
    var front := cmds[..i] + [cmds[i]];
    assert cmds == front + cmds[i + 1..];
    LawfulPrefix(front, cmds[i + 1..]);
    OfSnoc(cmds[..i], cmds[i], id);
    PhaseSnoc(Of(cmds[..i], id), cmds[i]);
    assert PhaseOf(Of(front, id)) != Broken;
    GoneStays(front, cmds[i + 1..], id);
  }

  lemma {:induction false} CommandsInSnoc(events: seq<History.Event>, e: History.Event)
    ensures CommandsIn(events + [e]) == CommandsIn(events) + if e.Command? then [e.cmd] else []
  {
    assert (events + [e])[..|events|] == events;
  }

  lemma {:induction false} CommandsInConcat(a: seq<History.Event>, b: seq<History.Event>)
    ensures CommandsIn(a + b) == CommandsIn(a) + CommandsIn(b)
    decreases |b|
  {
    if b == [] {
      assert a + b == a;
    } else {
      var n := |b| - 1;
      CommandsInConcat(a, b[..n]);
      assert a + b == (a + b[..n]) + [b[n]];
      CommandsInSnoc(a + b[..n], b[n]);
    }
  }

  /** Nothing that happens later is addressed to a session that is gone. */
  lemma {:induction false} SilentOnceGone(w: World, a: seq<History.Event>, b: seq<History.Event>, id: nat)
    requires w.sessions == map[] && Lawful(CommandsIn(a + b)) && PhaseOf(Of(CommandsIn(a), id)) == Gone
    ensures var before, after := History.Run(w, a).log, History.Run(w, a + b).log;
            before <= after && forall j :: |before| <= j < |after| ==> after[j].sessionId != id
    decreases |b|
  {
    hide History.EventOf, Of, PhaseOf, CommandsIn, Lawful, Mirrors;
    if b == [] {
      assert a + b == a;
    } else {
      var n := |b| - 1;
      var mid := a + b[..n];
      assert a + b == mid + [b[n]];
      CommandsInSnoc(mid, b[n]);
      LawfulPrefix(CommandsIn(mid), if b[n].Command? then [b[n].cmd] else []);
      SilentOnceGone(w, a, b[..n], id);
      History.RunSnoc(w, mid, b[n]);
      var h := History.Run(w, mid);
      EventAddressed(h.world, b[n]);
      AbsentOnceGone(w, a, b, id);
      var out := History.EventOf(h.world, b[n]).1;
      assert History.Run(w, a + b).log == h.log + out;
    }
  }

  lemma {:induction false} AbsentOnceGone(w: World, a: seq<History.Event>, b: seq<History.Event>, id: nat)
    requires w.sessions == map[] && Lawful(CommandsIn(a + b)) && PhaseOf(Of(CommandsIn(a), id)) == Gone
    ensures id !in History.Run(w, a + b).world.sessions
  {
    hide History.Run, Of, PhaseOf, CommandsIn, Lawful;
    CommandsInConcat(a, b);
    GoneStays(CommandsIn(a), CommandsIn(b), id);
    WorldMirrors(w, a + b);
    assert id in History.Run(w, a + b).world.sessions <==> Present(PhaseOf(Of(CommandsIn(a + b), id)));
  }

  // ---- Silence before a connection -----------------------------------------------------------------

  predicate NotYet(p: Phase) {
    p == Fresh || p == Named || p == Passed
  }

  lemma {:induction false} NotYetBefore(cmds: seq<ClientCommand>, c: ClientCommand, id: nat)
    requires NotYet(PhaseOf(Of(cmds + [c], id)))
    ensures NotYet(PhaseOf(Of(cmds, id)))
  {
    hide Of, PhaseOf;
    OfSnoc(cmds, c, id);
    PhaseSnoc(Of(cmds, id), c);
  }

  /** Until a session's connection has been handled nothing is addressed to it. */
  lemma {:induction false} SilentBeforeJoin(w: World, events: seq<History.Event>, id: nat)
    requires w.sessions == map[] && Lawful(CommandsIn(events)) && NotYet(PhaseOf(Of(CommandsIn(events), id)))
    ensures Roster.OnlyTo(History.Run(w, events).log, id) == []
  {
    hide History.EventOf, Of, PhaseOf, CommandsIn, Lawful, Mirrors, NotYet;
    if events != [] {
      var n := |events| - 1;
      var before, e := events[..n], events[n];
      assert events == before + [e];
      CommandsInSnoc(before, e);
      if e.Command? {
        LawfulPrefix(CommandsIn(before), [e.cmd]);
        NotYetBefore(CommandsIn(before), e.cmd, id);
      } else {
        assert CommandsIn(before) + [] == CommandsIn(before);
      }
      SilentBeforeJoin(w, before, id);
      var h := History.Run(w, before);
      EventAddressed(h.world, e);
      WorldMirrors(w, events);
      NotYetAbsent(History.Run(w, events).world, CommandsIn(events), id);
      Roster.NoneTo(History.EventOf(h.world, e).1, id);
      Roster.OnlyToConcat(h.log, History.EventOf(h.world, e).1, id);
    }
  }

  lemma {:induction false} NotYetAbsent(w: World, cmds: seq<ClientCommand>, id: nat)
    requires Mirrors(w, cmds) && NotYet(PhaseOf(Of(cmds, id)))
    ensures id !in w.sessions
  {
    hide Of, PhaseOf;
    MirrorsAt(w, cmds, id);
  }

  /** The command that brings a session into the world finds it not yet there. */
  lemma {:induction false} JoinsFromNotYet(cmds: seq<ClientCommand>, c: ClientCommand)
    requires Lawful(cmds + [c]) && c.kind.ClientConnected?
    ensures NotYet(PhaseOf(Of(cmds, c.sessionId)))
  {
    hide Of, PhaseOf;
    OfSnoc(cmds, c, c.sessionId);
    PhaseSnoc(Of(cmds, c.sessionId), c);
    assert PhaseOf(Of(cmds + [c], c.sessionId)) != Broken;
  }

  /** All that was ever addressed to a live session has been pushed since it joined. */
  lemma {:induction false} SinceHoldsAll(w: World, events: seq<History.Event>, id: nat)
    requires w.sessions == map[] && Lawful(CommandsIn(events))
    requires History.Aligned(History.Run(w, events)) && id in History.Run(w, events).world.sessions
    ensures Roster.OnlyTo(History.Run(w, events).log, id)
            == Roster.OnlyTo(History.Since(History.Run(w, events), id), id)
  {
    hide History.EventOf, Of, PhaseOf, CommandsIn, Lawful, NotYet, Roster.OnlyTo;
    if events != [] {
      var n := |events| - 1;
      var before, e := events[..n], events[n];
      assert events == before + [e];
      CommandsInSnoc(before, e);
      var h := History.Run(w, before);
      var out := History.EventOf(h.world, e).1;
      History.RunAligned(w, before);
      History.SessionsAfter(h.world, e);
      SinceStep(h, e, id);
      LawfulPrefix(CommandsIn(before), if e.Command? then [e.cmd] else []);
      Roster.OnlyToConcat(h.log, out, id);
      if id in h.world.sessions {
        SinceHoldsAll(w, before, id);
        Roster.OnlyToConcat(History.Since(h, id), out, id);
      } else {
        JoinsFromNotYet(CommandsIn(before), e.cmd);
        SilentBeforeJoin(w, before, id);
      }
    }
  }

  lemma {:induction false} SinceStep(h: History.History, e: History.Event, id: nat)
    requires History.Aligned(h) && id in History.EventOf(h.world, e).0.sessions
    ensures var h' := History.Step(h, e);
            && History.Aligned(h') && id in h'.joinedAt
            && (id in h.world.sessions ==>
                  History.Since(h', id) == History.Since(h, id) + History.EventOf(h.world, e).1)
            && (id !in h.world.sessions ==>
                  History.Joins(h.world, e) && e.cmd.sessionId == id
                  && History.Since(h', id) == History.EventOf(h.world, e).1)
  {
    hide History.EventOf;
    History.StepAligned(h, e);
    History.SessionsAfter(h.world, e);
  }

  /** Nothing that happens after a Disconnected is addressed to that session. */
  lemma {:induction false} SilentOnceServed(cfg: Config, hs: seq<Happening>, w: World,
                                            a: seq<History.Event>, b: seq<History.Event>, i: nat)
    requires w.sessions == map[] && Served(cfg, hs, a + b)
    requires i < |CommandsIn(a)| && CommandsIn(a)[i].kind.Disconnected?
    ensures var before, after := History.Run(w, a).log, History.Run(w, a + b).log;
            before <= after && forall j :: |before| <= j < |after| ==> after[j].sessionId != CommandsIn(a)[i].sessionId
  {
    hide History.Run, CommandsIn, Lawful, Served, PhaseOf, Of;
    ServedLawful(cfg, hs, a + b);
    CommandsInConcat(a, b);
    LawfulPrefix(CommandsIn(a), CommandsIn(b));
    DisconnectedIsGone(CommandsIn(a), i);
    SilentOnceGone(w, a, b, CommandsIn(a)[i].sessionId);
  }

  // ---- Rosters of the whole server ---------------------------------------------------------------------

  lemma {:induction false} CommandOfEvent(events: seq<History.Event>, i: nat) returns (j: nat)
    requires i < |events| && events[i].Command?
    ensures j < |CommandsIn(events)| && CommandsIn(events)[j] == events[i].cmd
  {
    var n := |events| - 1;
    if i == n {
      j := |CommandsIn(events)| - 1;
    } else {
      j := CommandOfEvent(events[..n], i);
    }
  }

  lemma {:induction false} ServedEvent(cfg: Config, hs: seq<Happening>, events: seq<History.Event>, i: nat)
    requires Served(cfg, hs, events) && i < |events| && events[i].Command?
    ensures WellFormed(events[i].cmd, events[i].cmd.sessionId)
    ensures 0 < events[i].cmd.sessionId < NetRun(cfg, NEW_NET, hs).nextId
  {
    hide NetRun, CommandsIn, WellFormed;
    var j := CommandOfEvent(events, i);
    QueueWellFormed(cfg, hs, j);
  }

  lemma {:induction false} JoiningBelow(events: seq<History.Event>, bound: nat)
    requires forall i :: 0 <= i < |events| && events[i].Command? ==> events[i].cmd.sessionId < bound
    ensures forall id :: id in Roster.JoiningIds(events) ==> id < bound
  {
    if events != [] {
      JoiningBelow(events[..|events| - 1], bound);
    }
  }

  /** Names fit and player ids are distinct, if few enough sessions were accepted. */
  lemma {:induction false} ServedJoins(cfg: Config, hs: seq<Happening>, events: seq<History.Event>)
    requires Served(cfg, hs, events) && NetRun(cfg, NEW_NET, hs).nextId <= MAX_PLAYER_ID + 1
    ensures forall i :: 0 <= i < |events| ==> Roster.NameFits(events[i])
    ensures Roster.DistinctPlayers(Roster.JoiningIds(events))
  {
    hide NetRun, Served, Printable;
    forall i | 0 <= i < |events| ensures Roster.NameFits(events[i]) {
      if events[i].Command? {
        ServedEvent(cfg, hs, events, i);
      }
    }
    forall i | 0 <= i < |events| && events[i].Command? ensures events[i].cmd.sessionId < MAX_PLAYER_ID + 1 {
      ServedEvent(cfg, hs, events, i);
    }
    JoiningBelow(events, MAX_PLAYER_ID + 1);
    Roster.DistinctPlayersExact(Roster.JoiningIds(events));
  }

  /** Rosters agree once the bridge has handled these events, if few enough sessions were accepted. */
  lemma {:induction false} ServedRosters(cfg: Config, hs: seq<Happening>, w: World, events: seq<History.Event>)
    requires w.sessions == map[] && Served(cfg, hs, events) && NetRun(cfg, NEW_NET, hs).nextId <= MAX_PLAYER_ID + 1
    ensures Roster.RostersAgree(History.Run(w, events))
  {
    hide NetRun, Served, History.Run, Roster.RostersAgree;
    ServedJoins(cfg, hs, events);
    Roster.RosterAgreement(w, events);
  }
}
