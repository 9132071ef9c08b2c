/**
 Runs of the bridge: any sequence of commands and snapshot rounds, with
 everything pushed so far and the moment each live session joined. A tick is a
 run of this kind, so what holds of every run holds between any two ticks and
 inside them.
 */
module History {
  import opened Bits
  import opened EntityCodec
  import opened Queues
  import opened Bridge

  datatype Event =
    | Command(cmd: ClientCommand, sequence: U32, reply: Option<int>)
    | Snapshots(provided: Option<seq<Entity>>, sequence: U32, ts: I32)

  datatype History = History(world: World, log: seq<Message>, joinedAt: map<nat, nat>)

  predicate Joins(w: World, e: Event) {
    e.Command? && e.cmd.kind.ClientConnected? && e.cmd.sessionId !in w.sessions
  }

  function EventOf(w: World, e: Event): (World, seq<Message>) {
    match e
    case Command(cmd, sequence, reply) => CommandOf(w, cmd, sequence, reply)
    case Snapshots(provided, sequence, ts) => EmitSnapshotsOf(w, provided, sequence, ts)
  }

  function JoinedAt(h: History, e: Event): map<nat, nat> {
    if Joins(h.world, e) then h.joinedAt[e.cmd.sessionId := |h.log|]
    else if e.Command? && e.cmd.kind.Disconnected? then h.joinedAt - {e.cmd.sessionId}
    else h.joinedAt
  }

  function Step(h: History, e: Event): History {
    var (w, out) := EventOf(h.world, e);
    History(w, h.log + out, JoinedAt(h, e))
  }

  function Run(w: World, events: seq<Event>): History {
    if events == [] then History(w, [], map[])
    else Step(Run(w, events[..|events| - 1]), events[|events| - 1])
  }

  /** What has been pushed since a live session joined. */
  function Since(h: History, id: nat): seq<Message>
    requires id in h.joinedAt && h.joinedAt[id] <= |h.log|
  {
    h.log[h.joinedAt[id]..]
  }

  /** Sessions and joining moments go together. */
  ghost predicate Aligned(h: History) {
    h.joinedAt.Keys == h.world.sessions.Keys && forall id :: id in h.joinedAt ==> h.joinedAt[id] <= |h.log|
  }

  lemma {:induction false} SessionsAfter(w: World, e: Event)
    ensures EventOf(w, e).0.sessions.Keys
            == if Joins(w, e) then w.sessions.Keys + {e.cmd.sessionId}
               else if e.Command? && e.cmd.kind.Disconnected? then w.sessions.Keys - {e.cmd.sessionId}
               else w.sessions.Keys
  {
    hide Introductions, EmitAllOf, ToPeers, ToAll, ResolveSpawnPad, Ascending;
  }

  lemma {:induction false} StepAligned(h: History, e: Event)
    requires Aligned(h)
    ensures Aligned(Step(h, e))
    ensures forall id :: id in h.joinedAt && id in Step(h, e).joinedAt ==>
              Since(Step(h, e), id) == Since(h, id) + EventOf(h.world, e).1
    ensures Joins(h.world, e) ==> Since(Step(h, e), e.cmd.sessionId) == EventOf(h.world, e).1
  {
    hide EventOf;
    SessionsAfter(h.world, e);
    var out := EventOf(h.world, e).1;
    assert h.log + out == Step(h, e).log;
  }

  lemma {:induction false} RunAligned(w: World, events: seq<Event>)
    requires w.sessions == map[]
    ensures Aligned(Run(w, events))
  {
    hide Step, EventOf;
    if events != [] {
      RunAligned(w, events[..|events| - 1]);
      StepAligned(Run(w, events[..|events| - 1]), events[|events| - 1]);
    }
  }

  // ---- Ticks are runs ----------------------------------------------------------------------

  function CommandEvents(cmds: seq<ClientCommand>, env: Environment): (events: seq<Event>)
    ensures |events| == |cmds|
  {
    seq(|cmds|, i requires 0 <= i < |cmds| => Command(cmds[i], env.sequence, Reply(env, i)))
  }

  function TickEvents(cmds: seq<ClientCommand>, env: Environment): seq<Event> {
    CommandEvents(cmds, env) + [Snapshots(env.provided, env.sequence, env.ts)]
  }

  lemma {:induction false} CommandsAreEvents(w: World, events: seq<Event>, cmds: seq<ClientCommand>, env: Environment)
    ensures var h, h' := Run(w, events), Run(w, events + CommandEvents(cmds, env));
            h'.world == CommandsOf(h.world, cmds, env).0 && h'.log == h.log + CommandsOf(h.world, cmds, env).1
    decreases |cmds|
  {
    hide CommandOf;
    if cmds == [] {
      assert events + CommandEvents(cmds, env) == events;
    } else {
      var n := |cmds| - 1;
      CommandsAreEvents(w, events, cmds[..n], env);
      var last := Command(cmds[n], env.sequence, Reply(env, n));
      assert CommandEvents(cmds, env) == CommandEvents(cmds[..n], env) + [last];
      RunSnoc(w, events + CommandEvents(cmds[..n], env), last);
      ConcatAssoc(events, CommandEvents(cmds[..n], env), [last]);
    }
  }

  lemma {:induction false} RunSnoc(w: World, events: seq<Event>, e: Event)
    ensures Run(w, events + [e]) == Step(Run(w, events), e)
  {
    assert (events + [e])[..|events|] == events;
  }

  lemma {:induction false} FourSteps(w: World, e1: Event, e2: Event, e3: Event, e4: Event)
    ensures Run(w, [e1, e2, e3, e4]) == Step(Step(Step(Step(Run(w, []), e1), e2), e3), e4)
  {
    hide Step;
    RunSnoc(w, [], e1);
    RunSnoc(w, [e1], e2);
    RunSnoc(w, [e1, e2], e3);
    RunSnoc(w, [e1, e2, e3], e4);
    assert [] + [e1] == [e1] && [e1] + [e2] == [e1, e2] && [e1, e2] + [e3] == [e1, e2, e3];
    assert [e1, e2, e3] + [e4] == [e1, e2, e3, e4];
  }

  /**
   A tick of the bridge does to the world and the queue exactly what its events do: the
   commands in order and then one round of snapshots, all under the tick's sequence.
   */
  lemma {:induction false} TickIsRun(w: World, events: seq<Event>, cmds: seq<ClientCommand>, env: Environment)
    ensures var h, h' := Run(w, events), Run(w, events + TickEvents(cmds, env));
            h'.world == TickOf(h.world, cmds, env).0 && h'.log == h.log + TickOf(h.world, cmds, env).1
    ensures var es, n := TickEvents(cmds, env), |cmds|;
            && |es| == n + 1 && es[n] == Snapshots(env.provided, env.sequence, env.ts)
            && forall i :: 0 <= i < n ==> es[i] == Command(cmds[i], env.sequence, Reply(env, i))
  {
    hide CommandsOf, EmitSnapshotsOf;
    var last := Snapshots(env.provided, env.sequence, env.ts);
    CommandsAreEvents(w, events, cmds, env);
    RunSnoc(w, events + CommandEvents(cmds, env), last);
    ConcatAssoc(events, CommandEvents(cmds, env), [last]);
    var h := Run(w, events);
    ConcatAssoc(h.log, CommandsOf(h.world, cmds, env).1,
                EmitSnapshotsOf(CommandsOf(h.world, cmds, env).0, env.provided, env.sequence, env.ts).1);
  }
}
