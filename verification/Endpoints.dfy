/**
 The server down to the UDP endpoints: what a session's endpoint is sent, datagram
 by datagram, over any run of both threads, and what its client reads from it.
 */
module Endpoints {
  import opened Bits
  import opened Cursors
  import opened Framing
  import opened EntityCodec
  import opened Queues
  import opened Packets
  import opened Protocol
  import opened Sessions
  import opened Safety
  import opened Logins
  import opened Bridge
  import opened Roster
  import opened Routing
  import opened Server
  import opened Delivery
  import opened Interleaving
  import opened Introduction
  import opened Sockets
  import History
  import Opcodes
  import PacketBytes

  // ---- One flush ---------------------------------------------------------------------------------

  /** The unreliable messages to a session, in order. */
  function UnreliableTo(msgs: seq<Message>, id: nat): seq<seq<Byte>> {
    if msgs == [] then []
    else
      var m := msgs[|msgs| - 1];
      UnreliableTo(msgs[..|msgs| - 1], id) + if !m.reliable && m.sessionId == id then [m.bytes] else []
  }

  lemma {:induction false} UnreliableConcat(a: seq<Message>, b: seq<Message>, id: nat)
    ensures UnreliableTo(a + b, id) == UnreliableTo(a, id) + UnreliableTo(b, id)
    decreases |b|
  {
    if b == [] {
      assert a + b == a;
    } else {
      var n, m := |b| - 1, b[|b| - 1];
      assert (a + b)[..|a| + n] == a + b[..n];
      UnreliableConcat(a, b[..n], id);
      ConcatAssoc(UnreliableTo(a, id), UnreliableTo(b[..n], id),
                  if !m.reliable && m.sessionId == id then [m.bytes] else []);
    }
  }

  lemma {:induction false} UnspokenUnreliable(msgs: seq<Message>, id: nat)
    requires OnlyTo(msgs, id) == []
    ensures UnreliableTo(msgs, id) == []
  {
    if msgs != [] {
      UnspokenUnreliable(msgs[..|msgs| - 1], id);
    }
  }

  lemma {:induction false} FlushOneDatagram(peers: map<nat, Peer>, m: Message, e: Endpoint)
    ensures DatagramsTo(FlushOne(peers, m), e)
            == if !m.reliable && m.sessionId in peers && peers[m.sessionId].udpAddr == Some(e) then [m.bytes] else []
  {
    if FlushOne(peers, m) != [] {
      assert FlushOne(peers, m)[..0] == [];
    }
  }

  /**
   A flush sends to the endpoint of a live session, held by no other, exactly the
   session's unreliable messages, whole and in order.
   */
  lemma {:induction false} FlushDatagrams(peers: map<nat, Peer>, msgs: seq<Message>, id: nat, e: Endpoint)
    requires id in peers && peers[id].udpAddr == Some(e)
    requires forall k :: k in peers && peers[k].udpAddr == Some(e) ==> k == id
    ensures DatagramsTo(FlushOf(peers, msgs), e) == UnreliableTo(msgs, id)
  {
    hide DatagramsTo, FlushOne;
    if msgs == [] {
      NoDatagram(e);
    } else {
      var n, m := |msgs| - 1, msgs[|msgs| - 1];
      FlushDatagrams(peers, msgs[..n], id, e);
      DatagramsConcat(FlushOf(peers, msgs[..n]), FlushOne(peers, m), e);
      FlushOneDatagram(peers, m, e);
    }
  }

  lemma {:induction false} NoDatagram(e: Endpoint)
    ensures DatagramsTo([], e) == []
  {
  }

  /** No datagram goes to an endpoint that no live session has. */
  lemma {:induction false} NoEndpointNoDatagram(peers: map<nat, Peer>, msgs: seq<Message>, e: Endpoint)
    requires forall k :: k in peers ==> peers[k].udpAddr != Some(e)
    ensures DatagramsTo(FlushOf(peers, msgs), e) == []
  {
    hide DatagramsTo, FlushOne;
    if msgs == [] {
      NoDatagram(e);
    } else {
      var n := |msgs| - 1;
      NoEndpointNoDatagram(peers, msgs[..n], e);
      DatagramsConcat(FlushOf(peers, msgs[..n]), FlushOne(peers, msgs[n]), e);
      FlushOneDatagram(peers, msgs[n], e);
    }
  }

  /** A datagram a client takes for entity updates. */
  predicate IsUpdate(b: seq<Byte>) {
    b != [] && (b[0] == Opcodes.VIEW_UPDATE || b[0] == Opcodes.UPDATE_ARRAY)
  }

  function Updates(datagrams: seq<seq<Byte>>): seq<seq<Byte>> {
    if datagrams == [] then []
    else
      var last := datagrams[|datagrams| - 1];
      Updates(datagrams[..|datagrams| - 1]) + if IsUpdate(last) then [last] else []
  }

  lemma {:induction false} UpdatesConcat(a: seq<seq<Byte>>, b: seq<seq<Byte>>)
    ensures Updates(a + b) == Updates(a) + Updates(b)
    decreases |b|
  {
    if b == [] {
      assert a + b == a;
    } else {
      var n := |b| - 1;
      assert (a + b)[..|a| + n] == a + b[..n];
      UpdatesConcat(a, b[..n]);
      ConcatAssoc(Updates(a), Updates(b[..n]), if IsUpdate(b[n]) then [b[n]] else []);
    }
  }

  lemma {:induction false} NoneUpdates(datagrams: seq<seq<Byte>>)
    requires forall i :: 0 <= i < |datagrams| ==> !IsUpdate(datagrams[i])
    ensures Updates(Filled(datagrams)) == []
  {
    if datagrams != [] {
      var n := |datagrams| - 1;
      NoneUpdates(datagrams[..n]);
      var last := [datagrams[n]];
      UpdatesConcat(Filled(datagrams[..n]), if datagrams[n] == [] then [] else last);
      assert last[..0] == [];
    }
  }

  /** What a connection answers over UDP is never an entity update. */
  lemma {:induction false} RepliesNoUpdates(c: Conn, x: Input)
    ensures var s := StepOf(c, x);
            forall i :: 0 <= i < |[s.udpOut] + s.datagrams| ==> !IsUpdate(([s.udpOut] + s.datagrams)[i])
  {
    hide TcpStep, PacketBytes.Be16, PacketBytes.Be32, UdpHandshakeAck, UdpStreamDefs, UdpStreamUnpause, UdpPong, UdpAck,
      UdpUpdateStats, ReadKeyEcho, ReadRequest, RequestCommand, DecodedOf, ActionCommands, ReadI32, SessionPlayerId,
      PacketBytes.StreamName;
    match x {
      case Tcp(data) => TcpRepliesNone(c, data);
      case Udp(opcode, body) =>
        PacketBytes.UnpauseBytes(0, 1);
        PacketBytes.UnpauseBytes(0, 3);
        PacketBytes.StreamDefsBytes(0, PlayerId(c));
        PacketBytes.PongBytes(ReadI32(Start(body)).1.GetOr(0));
        var request := ReadRequest(body);
        if request.Some? {
          PacketBytes.AckBytes((c.udpSequence + 1) % 0x1_0000, Opcodes.REINCARNATE, request.value.sequence);
          PacketBytes.StatsBytes(PlayerId(c), request.value.teamId);
        }
      case Assign(_) =>
    }
  }

  lemma {:induction false} TcpRepliesNone(c: Conn, data: seq<Byte>)
    ensures TcpStep(c, data).udpOut == [] && TcpStep(c, data).datagrams == []
  {
    hide Drain, FeedStep;
    DrainNoUdp(Still(c.(tcp := FeedStep(c.tcp, data))), MAX_FRAMES_PER_DRAIN);
  }

  lemma {:induction false} OwnSendsNoUpdates(cfg: Config, n: Net, h: Happening, from: Endpoint, e: Endpoint)
    ensures Updates(DatagramsTo(OwnSends(cfg, n, h, from), e)) == []
  {
    hide StepOf, AcceptBurst, Updates, DatagramsTo, TcpSends, UdpSends, Filled;
    NoneUpdates([]);
    FilledNone();
    NoDatagram(e);
    match h
    case Accept(key) =>
      FirstDatagram(n.nextId, AcceptBurst(NewConn(n.nextId, cfg, key)), from, [], e);
    case Deliver(id, x) =>
      if id in n.lives {
        var s := StepOf(n.lives[id].conn, x);
        RepliesNoUpdates(n.lives[id].conn, x);
        NoneUpdates([s.udpOut] + s.datagrams);
        StepDatagrams(id, s.tcpOut, from, s.udpOut, s.datagrams, e);
      }
    case Reap(_) =>
  }

  lemma {:induction false} FilledNone()
    ensures Filled([]) == []
  {
  }

  // ---- Endpoints over a run ---------------------------------------------------------------------------

  /** Endpoints belong to sessions that were accepted, and live ones have one exactly when linked. */
  ghost predicate EndpointsFit(s: Wire) {
    && (forall k :: k in s.endpoints ==> k < s.site.net.nextId)
    && (forall k :: k in s.site.net.lives ==>
          k < s.site.net.nextId && (k in s.endpoints <==> s.site.net.lives[k].conn.udpLinked))
  }

  /** The endpoint e is, or will be, this session's alone. */
  ghost predicate Sole(s: Wire, id: nat, e: Endpoint) {
    forall k :: k in s.endpoints ==> (s.endpoints[k] == e <==> k == id)
  }

  lemma {:induction false} StepKeepsLink(c: Conn, x: Input)
    requires c.udpLinked
    ensures StepOf(c, x).conn.udpLinked
  {
    hide TcpStep, UdpStep, BufferOk, IsFrames;
    match x {
      case Tcp(data) => TcpStepSafe(c, data);
      case Udp(opcode, body) => UdpStepSafe(c, opcode, body);
      case Assign(_) =>
    }
  }

  lemma {:induction false} NetKeepsEndpoints(cfg: Config, n: Net, h: Happening, from: Endpoint,
                                             eps: map<nat, Endpoint>, k: nat)
    requires forall j :: j in eps ==> j < n.nextId
    requires forall j :: j in n.lives ==> j < n.nextId && (j in eps <==> n.lives[j].conn.udpLinked)
    ensures var (n', eps') := (NetStep(cfg, n, h), EndpointsAfter(n, h, from, eps));
            && (k in eps' ==> k < n'.nextId) && (k in eps ==> k in eps' && eps'[k] == eps[k])
            && (k in n'.lives ==> k < n'.nextId && (k in eps' <==> n'.lives[k].conn.udpLinked))
  {
    hide StepOf, AcceptBurst;
    if h.Deliver? && h.id in n.lives && n.lives[h.id].conn.udpLinked {
      StepKeepsLink(n.lives[h.id].conn, h.input);
    }
  }

  lemma {:induction false} MoveKeepsEndpoints(cfg: Config, s: Wire, m: Move)
    requires s.flushed <= |s.site.pushed| && EndpointsFit(s)
    ensures EndpointsFit(MoveOf(cfg, s, m))
    ensures forall k :: k in s.endpoints ==>
              k in MoveOf(cfg, s, m).endpoints && MoveOf(cfg, s, m).endpoints[k] == s.endpoints[k]
  {
    hide NetStep, EndpointsAfter, OwnSends, FlushOf, Batch, QueueRun, TickOf, DrivesOf, History.TickEvents, PeersOf;
    if m.Turned? && m.t.OnNet? {
      var n, n' := s.site.net, NetStep(cfg, s.site.net, m.t.h);
      var eps' := EndpointsAfter(n, m.t.h, m.from, s.endpoints);
      forall k: nat
        ensures k in eps' ==> k < n'.nextId
        ensures k in s.endpoints ==> k in eps' && eps'[k] == s.endpoints[k]
        ensures k in n'.lives ==> k < n'.nextId && (k in eps' <==> n'.lives[k].conn.udpLinked)
      {
        NetKeepsEndpoints(cfg, n, m.t.h, m.from, s.endpoints, k);
      }
    } else {
      assert MoveOf(cfg, s, m).site.net == s.site.net && MoveOf(cfg, s, m).endpoints == s.endpoints;
    }
  }

  lemma {:induction false} EndpointsKept(cfg: Config, w: World, moves: seq<Move>)
    ensures EndpointsFit(WireRun(cfg, w, moves))
  {
    hide MoveOf, EndpointsFit;
    if moves == [] {
      NoEndpoints(w);
    } else {
      var before := moves[..|moves| - 1];
      EndpointsKept(cfg, w, before);
      MoveKeepsEndpoints(cfg, WireRun(cfg, w, before), moves[|moves| - 1]);
    }
  }

  lemma {:induction false} NoEndpoints(w: World)
    ensures EndpointsFit(Wire(Opened(w), 0, [], map[]))
  {
  }

  /** To a live session that is not linked nothing has been pushed. */
  lemma {:induction false} UnlinkedUnspoken(cfg: Config, w: World, turns: seq<Turn>, id: nat)
    requires w.sessions == map[]
    requires var n := SiteRun(cfg, w, turns).net; id in n.lives && !n.lives[id].conn.udpLinked
    ensures OnlyTo(SiteRun(cfg, w, turns).pushed, id) == []
  {
    hide SiteRun, NetRun, CommandsIn, Of, PhaseOf, History.Run, Lawful, SentOk, AllWellFormed;
    var s := SiteRun(cfg, w, turns);
    SiteInStep(cfg, w, turns);
    NewNetOk();
    NetRunKeeps(cfg, NEW_NET, NetTurns(turns));
    assert TraceOk(s.net, id);
    QuietUnspoken(cfg, w, turns, id);
  }

  /** Nothing is pushed to a session that has queued nothing. */
  lemma {:induction false} QuietUnspoken(cfg: Config, w: World, turns: seq<Turn>, id: nat)
    requires w.sessions == map[] && Of(SiteRun(cfg, w, turns).net.log, id) == []
    ensures OnlyTo(SiteRun(cfg, w, turns).pushed, id) == []
  {
    hide SiteRun, NetRun, CommandsIn, Of, PhaseOf, History.Run, Lawful;
    var s := SiteRun(cfg, w, turns);
    SiteInStep(cfg, w, turns);
    var rest := s.queue.items + s.unsent;
    ConcatAssoc(s.queue.delivered, s.queue.items, s.unsent);
    OfConcat(CommandsIn(s.events), rest, id);
    NoCommands();
    assert s.events[..|s.events|] == s.events;
    TakesPrefix(cfg, w, turns, |s.events|);
    ServedLawful(cfg, NetTurns(turns), s.events);
    SilentBeforeJoin(w, s.events, id);
  }

  /** The updates sent to e are those among the session's flushed messages, whole and in order. */
  ghost predicate Relayed(s: Wire, id: nat, e: Endpoint)
    requires s.flushed <= |s.site.pushed|
  {
    Updates(DatagramsTo(s.sends, e)) == Updates(UnreliableTo(s.site.pushed[..s.flushed], id))
  }

  lemma {:induction false} TurnRelays(cfg: Config, s: Wire, t: Turn, from: Endpoint, id: nat, e: Endpoint)
    requires s.flushed <= |s.site.pushed| && Relayed(s, id, e)
    ensures Relayed(MoveOf(cfg, s, Turned(t, from)), id, e)
  {
    hide TurnOf, OwnSends, EndpointsAfter, Updates, DatagramsTo, UnreliableTo;
    TurnBounds(cfg, s.site, t, id);
    assert TurnOf(cfg, s.site, t).pushed[..s.flushed] == s.site.pushed[..s.flushed];
    if t.OnNet? {
      var own := OwnSends(cfg, s.site.net, t.h, from);
      DatagramsConcat(s.sends, own, e);
      UpdatesConcat(DatagramsTo(s.sends, e), DatagramsTo(own, e));
      OwnSendsNoUpdates(cfg, s.site.net, t.h, from, e);
      assert Updates(DatagramsTo(s.sends, e)) + [] == Updates(DatagramsTo(s.sends, e));
    } else {
      assert s.sends + [] == s.sends;
    }
  }

  lemma {:induction false} FlushRelays(cfg: Config, s: Wire, n: nat, id: nat, e: Endpoint)
    requires s.flushed <= |s.site.pushed| && Relayed(s, id, e) && Sole(s, id, e) && EndpointsFit(s)
    requires !(id in s.site.net.lives && id in s.endpoints) ==> OnlyTo(s.site.pushed, id) == []
    ensures Relayed(MoveOf(cfg, s, Flushed(n)), id, e)
  {
    hide Updates, DatagramsTo, UnreliableTo, FlushOf, OnlyTo, TurnOf;
    var peers, msgs := PeersOf(s.site.net, s.endpoints), Batch(s, n);
    var done := s.site.pushed[..s.flushed];
    assert s.site.pushed[..s.flushed + |msgs|] == done + msgs;
    DatagramsConcat(s.sends, FlushOf(peers, msgs), e);
    UpdatesConcat(DatagramsTo(s.sends, e), DatagramsTo(FlushOf(peers, msgs), e));
    UnreliableConcat(done, msgs, id);
    UpdatesConcat(UnreliableTo(done, id), UnreliableTo(msgs, id));
    if id in s.site.net.lives && id in s.endpoints {
      FlushDatagrams(peers, msgs, id, e);
    } else {
      assert s.site.pushed == done + msgs + s.site.pushed[s.flushed + |msgs|..];
      OnlyToConcat(done + msgs, s.site.pushed[s.flushed + |msgs|..], id);
      OnlyToConcat(done, msgs, id);
      UnspokenUnreliable(msgs, id);
      NoEndpointNoDatagram(peers, msgs, e);
    }
  }

  /**
   The datagrams written to the endpoint of a live session, if no other session ever
   had it: leaving out the connection's own answers, they are exactly the session's
   flushed unreliable messages, whole, in order, and none lost.
   */
  lemma {:induction false} EndpointIsStream(cfg: Config, w: World, moves: seq<Move>, id: nat, e: Endpoint)
    requires w.sessions == map[] && Sole(WireRun(cfg, w, moves), id, e)
    requires var n := WireRun(cfg, w, moves).site.net; id in n.lives || id >= n.nextId
    ensures Relayed(WireRun(cfg, w, moves), id, e)
  {
    hide MoveOf, Relayed, SiteRun, OnlyTo, TurnOf;
    if moves == [] {
      NothingRelayed(w, id, e);
    } else {
      var before, m := moves[..|moves| - 1], moves[|moves| - 1];
      var s, turns := WireRun(cfg, w, before), TurnsIn(before);
      EndpointsKept(cfg, w, before);
      MoveKeepsEndpoints(cfg, s, m);
      SiteOfWire(cfg, w, before);
      EarlierThere(cfg, s, m, id);
      EndpointIsStream(cfg, w, before, id, e);
      match m
      case Turned(t, from) => TurnRelays(cfg, s, t, from, id, e);
      case Flushed(n) =>
        if id !in s.site.net.lives {
          NothingAhead(cfg, w, turns, id);
        } else if id !in s.endpoints {
          UnlinkedUnspoken(cfg, w, turns, id);
        }
        FlushRelays(cfg, s, n, id, e);
    }
  }

  lemma {:induction false} NothingRelayed(w: World, id: nat, e: Endpoint)
    ensures Relayed(Wire(Opened(w), 0, [], map[]), id, e)
  {
  }

  lemma {:induction false} EarlierThere(cfg: Config, s: Wire, m: Move, id: nat)
    requires s.flushed <= |s.site.pushed|
    requires var n := MoveOf(cfg, s, m).site.net; id in n.lives || id >= n.nextId
    ensures id in s.site.net.lives || id >= s.site.net.nextId
  {
    hide TurnOf, OwnSends, EndpointsAfter, FlushOf, Batch;
    if m.Turned? {
      TurnBounds(cfg, s.site, m.t, id);
    }
  }

  // ---- What the client reads at its endpoint ------------------------------------------------------------

  function RecordsInDatagram(b: seq<Byte>): seq<Record> {
    var u := ReadDatagram(b);
    if u.None? then [] else u.value.records
  }

  /** Every record read from these datagrams, in order. */
  function RecordsFrom(datagrams: seq<seq<Byte>>): seq<Record> {
    if datagrams == [] then []
    else RecordsFrom(datagrams[..|datagrams| - 1]) + RecordsInDatagram(datagrams[|datagrams| - 1])
  }

  lemma {:induction false} OnlyUpdatesRead(b: seq<Byte>)
    ensures !IsUpdate(b) ==> RecordsInDatagram(b) == []
  {
    hide TakeBody, ReadI32;
    TakeByte(b);
  }

  lemma {:induction false} RecordsOfUpdates(datagrams: seq<seq<Byte>>)
    ensures RecordsFrom(Updates(datagrams)) == RecordsFrom(datagrams)
  {
    hide RecordsInDatagram, IsUpdate;
    if datagrams != [] {
      var n, last := |datagrams| - 1, datagrams[|datagrams| - 1];
      RecordsOfUpdates(datagrams[..n]);
      var before := Updates(datagrams[..n]);
      OnlyUpdatesRead(last);
      if IsUpdate(last) {
        assert (before + [last])[..|before|] == before;
      } else {
        assert before + [] == before && RecordsFrom(before) + [] == RecordsFrom(before);
      }
    }
  }

  lemma {:induction false} RecordsOfMessages(msgs: seq<Message>, id: nat)
    ensures RecordsFrom(UnreliableTo(msgs, id)) == RecordsTo(msgs, id)
  {
    hide ReadDatagram;
    if msgs != [] {
      var n, m := |msgs| - 1, msgs[|msgs| - 1];
      RecordsOfMessages(msgs[..n], id);
      var before := UnreliableTo(msgs[..n], id);
      if !m.reliable && m.sessionId == id {
        assert (before + [m.bytes])[..|before|] == before;
      } else {
        assert before + [] == before && RecordsTo(msgs[..n], id) + [] == RecordsTo(msgs[..n], id);
      }
    }
  }

  lemma {:induction false} RecordsOnlyTo(msgs: seq<Message>, id: nat)
    ensures RecordsTo(OnlyTo(msgs, id), id) == RecordsTo(msgs, id)
  {
    hide RecordsIn;
    if msgs != [] {
      var n, m := |msgs| - 1, msgs[|msgs| - 1];
      RecordsOnlyTo(msgs[..n], id);
      var before := OnlyTo(msgs[..n], id);
      if m.sessionId == id {
        assert (before + [m])[..|before|] == before;
      } else {
        assert before + [] == before && RecordsTo(msgs[..n], id) + [] == RecordsTo(msgs[..n], id);
      }
    }
  }

  /**
   The introduction discipline at the endpoint: for any interleaving, whenever the
   messages flushed are those of the first i events and no list of theirs lost a first
   mention, the records a live client reads from the datagrams that reached its own
   endpoint introduce every entity before updating it, and the bridge's memory of the
   session is exactly the ids read.
   */
  lemma {:induction false} ServerEndpointDiscipline(cfg: Config, w: World, moves: seq<Move>, i: nat, id: nat,
                                                    e: Endpoint)
    requires w.sessions == map[] && Sole(WireRun(cfg, w, moves), id, e)
    requires var s := WireRun(cfg, w, moves);
             && id in s.site.net.lives && i <= |s.site.events|
             && RunOnWire(w, s.site.events[..i]) && RunLosesNothing(w, s.site.events[..i])
             && var h := History.Run(w, s.site.events[..i]);
                h.log == s.site.pushed[..s.flushed] && id in h.world.sessions
    ensures var s := WireRun(cfg, w, moves);
            Remembers(History.Run(w, s.site.events[..i]).world.sessions[id].introduced,
                      RecordsFrom(DatagramsTo(s.sends, e)))
  {
    hide WireRun, Sole, RunOnWire, RunLosesNothing, History.Run, Remembers, RecordsFrom, DatagramsTo, Updates,
      RecordsTo, UnreliableTo, OnlyTo, SiteRun, CommandsIn, NetRun, Served;
    var s, turns := WireRun(cfg, w, moves), TurnsIn(moves);
    var events := s.site.events[..i];
    var h := History.Run(w, events);
    EndpointIsStream(cfg, w, moves, id, e);
    RecordsOfUpdates(DatagramsTo(s.sends, e));
    RecordsOfUpdates(UnreliableTo(h.log, id));
    RecordsOfMessages(h.log, id);
    SiteOfWire(cfg, w, moves);
    TakesPrefix(cfg, w, turns, i);
    ServedLawful(cfg, NetTurns(turns), events);
    History.RunAligned(w, events);
    SinceHoldsAll(w, events, id);
    RecordsOnlyTo(h.log, id);
    RecordsOnlyTo(History.Since(h, id), id);
    IntroductionDiscipline(w, events);
    assert events[..|events|] == events;
    AllRememberOne(w, events, id);
  }

  lemma {:induction false} AllRememberOne(w: World, events: seq<History.Event>, id: nat)
    requires AlwaysRemember(w, events) && id in History.Run(w, events).world.sessions
    ensures var h := History.Run(w, events);
            && id in h.joinedAt && h.joinedAt[id] <= |h.log|
            && Remembers(h.world.sessions[id].introduced, RecordsTo(History.Since(h, id), id))
  {
    hide History.Run, Remembers, RecordsTo;
    assert events[..|events|] == events;
    assert AllRemember(History.Run(w, events[..|events|]));
  }
}
