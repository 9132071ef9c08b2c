/**
 Both threads down to the sockets: what the connections answer and what the
 network thread flushes for the bridge, write by write, whatever the order.
 */
module Sockets {
  import opened Bits
  import opened Framing
  import opened Queues
  import opened Packets
  import opened Protocol
  import opened Sessions
  import opened Bridge
  import opened Roster
  import R = Roster
  import opened Routing
  import opened Server
  import opened Interleaving
  import opened ClientStream
  import opened Delivery
  import History

  /** A turn of either thread, with where its input came from, or a flush of the next n pushed messages. */
  datatype Move = Turned(t: Turn, from: Endpoint) | Flushed(n: nat)

  /** The server, how many of the pushed messages have been flushed, every send in order, and the endpoints. */
  datatype Wire = Wire(site: Site, flushed: nat, sends: seq<Send>, endpoints: map<nat, Endpoint>)

  /** The live clients, with the endpoints linked so far. */
  function PeersOf(n: Net, endpoints: map<nat, Endpoint>): (peers: map<nat, Peer>)
    ensures peers.Keys == n.lives.Keys
  {
    map id | id in n.lives :: Peer(n.lives[id].conn, if id in endpoints then Some(endpoints[id]) else None)
  }

  /** The next n messages to flush, or as many as there are. */
  function Batch(s: Wire, n: nat): (msgs: seq<Message>)
    requires s.flushed <= |s.site.pushed|
    ensures s.flushed + |msgs| <= |s.site.pushed|
  {
    s.site.pushed[s.flushed..Min(s.flushed + n, |s.site.pushed|)]
  }

  function MoveOf(cfg: Config, s: Wire, m: Move): (s': Wire)
    requires s.flushed <= |s.site.pushed|
    ensures s'.flushed <= |s'.site.pushed|
  {
    match m
    case Turned(t, from) =>
      Wire(TurnOf(cfg, s.site, t), s.flushed,
           s.sends + (if t.OnNet? then OwnSends(cfg, s.site.net, t.h, from) else []),
           if t.OnNet? then EndpointsAfter(s.site.net, t.h, from, s.endpoints) else s.endpoints)
    case Flushed(n) =>
      s.(flushed := s.flushed + |Batch(s, n)|,
         sends := s.sends + FlushOf(PeersOf(s.site.net, s.endpoints), Batch(s, n)))
  }

  function WireRun(cfg: Config, w: World, moves: seq<Move>): (s: Wire)
    ensures s.flushed <= |s.site.pushed|
  {
    if moves == [] then Wire(Opened(w), 0, [], map[])
    else MoveOf(cfg, WireRun(cfg, w, moves[..|moves| - 1]), moves[|moves| - 1])
  }

  function TurnsIn(moves: seq<Move>): seq<Turn> {
    if moves == [] then []
    else
      var m := moves[|moves| - 1];
      TurnsIn(moves[..|moves| - 1]) + if m.Turned? then [m.t] else []
  }

  /** Flushing is invisible to the two threads' turns. */
  lemma {:induction false} SiteOfWire(cfg: Config, w: World, moves: seq<Move>)
    ensures WireRun(cfg, w, moves).site == SiteRun(cfg, w, TurnsIn(moves))
  {
    hide TurnOf, FlushOf, OwnSends, Batch, PeersOf, EndpointsAfter;
    if moves != [] {
      var n := |moves| - 1;
      SiteOfWire(cfg, w, moves[..n]);
      var turns := TurnsIn(moves[..n]);
      if moves[n].Turned? {
        assert (turns + [moves[n].t])[..|turns|] == turns;
      } else {
        assert turns + [] == turns;
      }
    }
  }

  // ---- One socket, write by write ---------------------------------------------------------------

  function PushedChunks(msgs: seq<Message>, id: nat): seq<Chunk> {
    if msgs == [] then []
    else
      var m := msgs[|msgs| - 1];
      PushedChunks(msgs[..|msgs| - 1], id) + if m.sessionId == id then [Chunk.Pushed(m)] else []
  }

  function OwnChunks(cfg: Config, n: Net, h: Happening, id: nat): seq<Chunk> {
    match h
    case Accept(key) => if n.nextId == id then [Own(AcceptBurst(NewConn(id, cfg, key)))] else []
    case Deliver(k, x) => if k == id && id in n.lives then [Own(StepOf(n.lives[id].conn, x).tcpOut)] else []
    case Reap(_) => []
  }

  function NewChunks(cfg: Config, s: Wire, m: Move, id: nat): seq<Chunk>
    requires s.flushed <= |s.site.pushed|
  {
    match m
    case Turned(t, _) => if t.OnNet? then OwnChunks(cfg, s.site.net, t.h, id) else []
    case Flushed(n) => if id in s.site.net.lives then PushedChunks(Batch(s, n), id) else []
  }

  /** The writes to one session's socket, each with its origin. */
  function ChunksFor(cfg: Config, w: World, moves: seq<Move>, id: nat): seq<Chunk> {
    if moves == [] then []
    else
      var before := moves[..|moves| - 1];
      ChunksFor(cfg, w, before, id) + NewChunks(cfg, WireRun(cfg, w, before), moves[|moves| - 1], id)
  }

  lemma {:induction false} WrittenConcat(a: seq<Chunk>, b: seq<Chunk>, id: nat)
    ensures Written(a + b, id) == Written(a, id) + Written(b, id)
    ensures PushedIn(a + b) == PushedIn(a) + PushedIn(b)
    decreases |b|
  {
    if b == [] {
      assert a + b == a;
    } else {
      var n := |b| - 1;
      assert (a + b)[..|a| + n] == a + b[..n];
      WrittenConcat(a, b[..n], id);
      ConcatAssoc(Written(a, id), Written(b[..n], id),
                  [if b[n].Own? then OutboundMessage(id, true, b[n].bytes) else b[n].m]);
      ConcatAssoc(PushedIn(a), PushedIn(b[..n]), if b[n].Pushed? then [b[n].m] else []);
    }
  }

  lemma {:induction false} PushedChunksAreMessages(msgs: seq<Message>, id: nat)
    ensures Written(PushedChunks(msgs, id), id) == OnlyTo(msgs, id)
    ensures PushedIn(PushedChunks(msgs, id)) == OnlyTo(msgs, id)
  {
    if msgs != [] {
      var n, m := |msgs| - 1, msgs[|msgs| - 1];
      PushedChunksAreMessages(msgs[..n], id);
      if m.sessionId == id {
        WrittenConcat(PushedChunks(msgs[..n], id), [Chunk.Pushed(m)], id);
        OneChunk(Chunk.Pushed(m), id);
      } else {
        assert PushedChunks(msgs[..n], id) + [] == PushedChunks(msgs[..n], id);
        assert OnlyTo(msgs[..n], id) + [] == OnlyTo(msgs[..n], id);
      }
    }
  }

  lemma {:induction false} OneChunk(c: Chunk, id: nat)
    ensures Written([c], id) == [if c.Own? then OutboundMessage(id, true, c.bytes) else c.m]
    ensures PushedIn([c]) == if c.Pushed? then [c.m] else []
  {
    assert [c][..0] == [];
  }

  /** A flush writes to a live session's socket its reliable messages in order, and to no other socket anything. */
  lemma {:induction false} FlushReaches(peers: map<nat, Peer>, msgs: seq<Message>, id: nat)
    ensures SocketBytes(FlushOf(peers, msgs), id) == if id in peers then StreamTo(msgs, id) else []
  {
    hide SocketBytes;
    if msgs == [] {
      NothingSent(id);
    } else {
      var n, m := |msgs| - 1, msgs[|msgs| - 1];
      FlushReaches(peers, msgs[..n], id);
      SocketConcat(FlushOf(peers, msgs[..n]), FlushOne(peers, m), id);
      FlushOneReaches(peers, m, id);
    }
  }

  lemma {:induction false} NothingSent(id: nat)
    ensures SocketBytes([], id) == []
  {
  }

  lemma {:induction false} FlushOneReaches(peers: map<nat, Peer>, m: Message, id: nat)
    ensures SocketBytes(FlushOne(peers, m), id)
            == if id in peers && m.reliable && m.sessionId == id then m.bytes else []
  {
    if FlushOne(peers, m) != [] {
      assert FlushOne(peers, m)[..0] == [];
    }
  }

  lemma {:induction false} OwnBytes(cfg: Config, n: Net, h: Happening, from: Endpoint, id: nat)
    ensures SocketBytes(OwnSends(cfg, n, h, from), id) == StreamTo(Written(OwnChunks(cfg, n, h, id), id), id)
  {
    hide AcceptBurst, StepOf, SocketBytes, TcpSends, UdpSends;
    NothingSent(id);
    match h
    case Accept(key) => TcpAlone(n.nextId, AcceptBurst(NewConn(n.nextId, cfg, key)), id);
    case Deliver(k, x) =>
      if k in n.lives {
        StepBytes(k, StepOf(n.lives[k].conn, x), from, id);
      }
    case Reap(_) =>
  }

  lemma {:induction false} StepBytes(k: nat, s: Step, from: Endpoint, id: nat)
    ensures SocketBytes(TcpSends(k, s.tcpOut) + UdpSends(from, s.udpOut, s.datagrams), id)
            == if k == id then s.tcpOut else []
    ensures StreamTo(Written([Own(s.tcpOut)], id), id) == s.tcpOut
  {
    hide SocketBytes, TcpSends, UdpSends;
    NothingSent(id);
    TcpAlone(k, s.tcpOut, id);
    StepSends([], k, s.tcpOut, from, s.udpOut, s.datagrams, id);
    assert [] + TcpSends(k, s.tcpOut) == TcpSends(k, s.tcpOut);
  }

  lemma {:induction false} TcpAlone(k: nat, bytes: seq<Byte>, id: nat)
    ensures SocketBytes(TcpSends(k, bytes), id) == if k == id then bytes else []
    ensures StreamTo(Written([Own(bytes)], id), id) == bytes
  {
    TcpSent([], k, bytes, id);
    assert [] + TcpSends(k, bytes) == TcpSends(k, bytes);
    OneChunk(Own(bytes), id);
    var m := OutboundMessage(id, true, bytes);
    assert [m][..0] == [] && [] + bytes == bytes;
  }

  lemma {:induction false} MoveBytes(cfg: Config, s: Wire, m: Move, id: nat)
    requires s.flushed <= |s.site.pushed|
    ensures SocketBytes(MoveOf(cfg, s, m).sends, id)
            == SocketBytes(s.sends, id) + StreamTo(Written(NewChunks(cfg, s, m, id), id), id)
  {
    hide OwnSends, OwnChunks, SocketBytes, FlushOf, StreamTo, Written, Batch, PushedChunks, TurnOf, PeersOf;
    SilentChunks(id);
    match m
    case Turned(t, from) =>
      if t.OnNet? {
        SocketConcat(s.sends, OwnSends(cfg, s.site.net, t.h, from), id);
        OwnBytes(cfg, s.site.net, t.h, from, id);
      } else {
        assert s.sends + [] == s.sends && SocketBytes(s.sends, id) + [] == SocketBytes(s.sends, id);
      }
    case Flushed(n) =>
      var peers, msgs := PeersOf(s.site.net, s.endpoints), Batch(s, n);
      SocketConcat(s.sends, FlushOf(peers, msgs), id);
      FlushReaches(peers, msgs, id);
      PushedChunksAreMessages(msgs, id);
      OnlyToStream(msgs, id);
      assert id in peers.Keys <==> id in s.site.net.lives.Keys;
  }

  lemma {:induction false} SilentChunks(id: nat)
    ensures StreamTo(Written([], id), id) == []
  {
  }

  /**
   Everything written to one socket, in order, is the stream of its writes: its own
   connection's answers and the messages flushed to it, each whole and in its place.
   */
  lemma {:induction false} SocketIsStream(cfg: Config, w: World, moves: seq<Move>, id: nat)
    ensures SocketBytes(WireRun(cfg, w, moves).sends, id) == StreamTo(Written(ChunksFor(cfg, w, moves, id), id), id)
  {
    hide MoveOf, NewChunks, StreamTo, Written, SocketBytes;
    if moves == [] {
      NothingSent(id);
      SilentChunks(id);
    } else {
      var before, m := moves[..|moves| - 1], moves[|moves| - 1];
      var s := WireRun(cfg, w, before);
      var old', new' := ChunksFor(cfg, w, before, id), NewChunks(cfg, s, m, id);
      SocketIsStream(cfg, w, before, id);
      MoveBytes(cfg, s, m, id);
      WrittenConcat(old', new', id);
      StreamConcat(Written(old', id), Written(new', id), id);
    }
  }

  // ---- Which messages are among them -------------------------------------------------------------

  /** Nothing is pushed for a session id that has not been given out. */
  lemma {:induction false} NothingAhead(cfg: Config, w: World, turns: seq<Turn>, id: nat)
    requires w.sessions == map[] && id >= SiteRun(cfg, w, turns).net.nextId
    ensures OnlyTo(SiteRun(cfg, w, turns).pushed, id) == []
  {
    hide SiteRun, NetRun, CommandsIn, Of, PhaseOf, History.Run, Lawful;
    var s := SiteRun(cfg, w, turns);
    SiteInStep(cfg, w, turns);
    NewNetOk();
    NetRunKeeps(cfg, NEW_NET, NetTurns(turns));
    assert TraceOk(s.net, id);
    var p := CommandsIn(s.events);
    var rest := s.queue.items + s.unsent;
    ConcatAssoc(s.queue.delivered, s.queue.items, s.unsent);
    OfConcat(p, rest, id);
    NoCommands();
    assert s.events[..|s.events|] == s.events;
    TakesPrefix(cfg, w, turns, |s.events|);
    ServedLawful(cfg, NetTurns(turns), s.events);
    SilentBeforeJoin(w, s.events, id);
  }

  /** A live session's flushed messages are all among its writes; a session not accepted yet has none. */
  ghost predicate Complete(s: Wire, chunks: seq<Chunk>, id: nat)
    requires s.flushed <= |s.site.pushed|
  {
    && (id in s.site.net.lives ==> PushedIn(chunks) == OnlyTo(s.site.pushed[..s.flushed], id))
    && (id >= s.site.net.nextId ==> chunks == [])
  }

  lemma {:induction false} FlushedAreWritten(cfg: Config, w: World, moves: seq<Move>, id: nat)
    requires w.sessions == map[]
    ensures Complete(WireRun(cfg, w, moves), ChunksFor(cfg, w, moves, id), id)
  {
    hide MoveOf, NewChunks, Complete, SiteRun, TurnOf;
    if moves == [] {
      CompleteAtFirst(w, id);
    } else {
      var before, m := moves[..|moves| - 1], moves[|moves| - 1];
      var s, chunks := WireRun(cfg, w, before), ChunksFor(cfg, w, before, id);
      FlushedAreWritten(cfg, w, before, id);
      SiteOfWire(cfg, w, before);
      var turns := TurnsIn(before);
      NetBounds(cfg, w, turns, id);
      if id >= s.site.net.nextId {
        NothingAhead(cfg, w, turns, id);
      }
      match m
      case Turned(t, from) => TurnCompletes(cfg, s, chunks, t, from, id);
      case Flushed(n) => FlushCompletes(cfg, s, chunks, n, id);
    }
  }

  lemma {:induction false} CompleteAtFirst(w: World, id: nat)
    ensures Complete(Wire(Opened(w), 0, [], map[]), [], id)
  {
  }

  lemma {:induction false} NetBounds(cfg: Config, w: World, turns: seq<Turn>, id: nat)
    ensures var n := SiteRun(cfg, w, turns).net;
            id in n.lives ==> id < n.nextId && n.lives[id].conn.sessionId == id
  {
    hide SiteRun, NetRun, Of, History.Run, CommandsIn, LifeOk;
    SiteInStep(cfg, w, turns);
    NewNetOk();
    NetRunKeeps(cfg, NEW_NET, NetTurns(turns));
    assert TraceOk(SiteRun(cfg, w, turns).net, id);
  }

  lemma {:induction false} TurnCompletes(cfg: Config, s: Wire, chunks: seq<Chunk>, t: Turn, from: Endpoint, id: nat)
    requires s.flushed <= |s.site.pushed| && Complete(s, chunks, id)
    requires id in s.site.net.lives ==> id < s.site.net.nextId
    requires id >= s.site.net.nextId ==> OnlyTo(s.site.pushed, id) == []
    ensures Complete(MoveOf(cfg, s, Turned(t, from)), chunks + NewChunks(cfg, s, Turned(t, from), id), id)
  {
    hide TurnOf, OwnChunks, OnlyTo, PushedIn, OwnSends, EndpointsAfter;
    var new' := NewChunks(cfg, s, Turned(t, from), id);
    var site' := TurnOf(cfg, s.site, t);
    TurnBounds(cfg, s.site, t, id);
    assert site'.pushed[..s.flushed] == s.site.pushed[..s.flushed];
    WrittenConcat(chunks, new', id);
    NoChunks();
    if t.OnNet? {
      OwnChunksOnly(cfg, s.site.net, t.h, id);
    }
    if id >= s.site.net.nextId {
      OnlyToConcat(s.site.pushed[..s.flushed], s.site.pushed[s.flushed..], id);
      assert s.site.pushed == s.site.pushed[..s.flushed] + s.site.pushed[s.flushed..];
    }
  }

  /** A turn adds to what is pushed, and only an accept brings a session, under the next id. */
  lemma {:induction false} TurnBounds(cfg: Config, s: Site, t: Turn, id: nat)
    ensures var s' := TurnOf(cfg, s, t);
            && s.pushed <= s'.pushed && s.net.nextId <= s'.net.nextId
            && (id in s'.net.lives && id !in s.net.lives ==> id == s.net.nextId)
            && (t.OnNet? && t.h.Accept? ==> s'.net.nextId == s.net.nextId + 1)
  {
    hide StepOf, AcceptBurst, QueueRun, TickOf, DrivesOf, History.TickEvents;
  }

  /** A connection's writes carry no message, and there are none before it is accepted. */
  lemma {:induction false} OwnChunksOnly(cfg: Config, n: Net, h: Happening, id: nat)
    ensures PushedIn(OwnChunks(cfg, n, h, id)) == []
    ensures id !in n.lives && (h.Accept? ==> id != n.nextId) ==> OwnChunks(cfg, n, h, id) == []
  {
    hide StepOf, AcceptBurst, PushedIn;
    NoChunks();
    var own := OwnChunks(cfg, n, h, id);
    if own != [] {
      OneChunk(own[0], id);
      assert own == [own[0]];
    }
  }

  lemma {:induction false} NoChunks()
    ensures PushedIn([]) == []
  {
  }

  lemma {:induction false} FlushCompletes(cfg: Config, s: Wire, chunks: seq<Chunk>, n: nat, id: nat)
    requires s.flushed <= |s.site.pushed| && Complete(s, chunks, id)
    requires id in s.site.net.lives ==> id < s.site.net.nextId
    ensures var m := Flushed(n); Complete(MoveOf(cfg, s, m), chunks + NewChunks(cfg, s, m, id), id)
  {
    hide OnlyTo, PushedIn, FlushOf, PeersOf, PushedChunks, SiteRun;
    var msgs := Batch(s, n);
    PushedChunksAreMessages(msgs, id);
    WrittenConcat(chunks, PushedChunks(msgs, id), id);
    OnlyToConcat(s.site.pushed[..s.flushed], msgs, id);
    assert s.site.pushed[..s.flushed + |msgs|] == s.site.pushed[..s.flushed] + msgs;
  }

  // ---- Where the other writes come from ----------------------------------------------------------

  /** No player id is assigned from outside, as nothing in the program does. */
  ghost predicate NoneAssigned(moves: seq<Move>) {
    forall i :: 0 <= i < |moves| ==> !Assigns(moves[i])
  }

  predicate Assigns(m: Move) {
    m.Turned? && m.t.OnNet? && m.t.h.Deliver? && m.t.h.input.Assign?
  }

  ghost predicate OwnIds(n: Net) {
    forall id :: id in n.lives ==> OwnId(n.lives[id].conn)
  }

  lemma {:induction false} FrameOwnId(c: Conn, f: Frame)
    requires OwnId(c)
    ensures OwnId(FrameOf(c, f).conn)
  {
    hide OwnOnly;
    OwnFrameOf(c, f);
  }

  lemma {:induction false} DrainOwnId(s: Step, n: nat)
    requires OwnId(s.conn)
    ensures OwnId(Drain(s, n).conn)
    decreases n
  {
    hide FrameOf, NextStep;
    if n > 0 {
      var (a, f) := NextStep(s.conn.tcp);
      var popped := s.(conn := s.conn.(tcp := a));
      if !a.failed && f.Some? {
        FrameOwnId(popped.conn, f.value);
        var s' := AfterFrame(popped, FrameOf(popped.conn, f.value));
        if !s'.close {
          DrainOwnId(s', n - 1);
        }
      }
    }
  }

  lemma {:induction false} StepOwnId(c: Conn, x: Input)
    requires OwnId(c) && !x.Assign?
    ensures OwnId(StepOf(c, x).conn)
  {
    hide Drain, FeedStep, ReadRequest, RequestCommand, DecodedOf, ActionCommands, ReadKeyEcho, HandshakeDatagrams;
    if x.Tcp? {
      DrainOwnId(Still(c.(tcp := FeedStep(c.tcp, x.data))), MAX_FRAMES_PER_DRAIN);
    }
  }

  lemma {:induction false} OwnIdsKept(cfg: Config, w: World, moves: seq<Move>)
    requires NoneAssigned(moves)
    ensures OwnIds(WireRun(cfg, w, moves).site.net)
  {
    hide StepOf, AcceptBurst, QueueRun, TickOf, FlushOf, Batch, OwnSends, EndpointsAfter;
    if moves != [] {
      var before, m := moves[..|moves| - 1], moves[|moves| - 1];
      OwnIdsKept(cfg, w, before);
      assert !Assigns(m);
      var n := WireRun(cfg, w, before).site.net;
      if m.Turned? && m.t.OnNet? && m.t.h.Deliver? && m.t.h.id in n.lives {
        StepOwnId(n.lives[m.t.h.id].conn, m.t.h.input);
      }
    }
  }

  /** Every write that is not a message is the accept burst or an answer of the session's own connection. */
  lemma {:induction false} ChunksOwn(cfg: Config, w: World, moves: seq<Move>, id: nat)
    requires NoneAssigned(moves)
    ensures OwnSentBy(ChunksFor(cfg, w, moves, id), id)
  {
    hide SentBy, NewChunks, WireRun;
    if moves != [] {
      var before, m := moves[..|moves| - 1], moves[|moves| - 1];
      ChunksOwn(cfg, w, before, id);
      OwnIdsKept(cfg, w, before);
      SiteOfWire(cfg, w, before);
      NetBounds(cfg, w, TurnsIn(before), id);
      NewChunksOwn(cfg, WireRun(cfg, w, before), m, id);
    }
  }

  lemma {:induction false} NewChunksOwn(cfg: Config, s: Wire, m: Move, id: nat)
    requires s.flushed <= |s.site.pushed| && OwnIds(s.site.net)
    requires id in s.site.net.lives ==> s.site.net.lives[id].conn.sessionId == id
    ensures OwnSentBy(NewChunks(cfg, s, m, id), id)
  {
    hide StepOf, AcceptBurst, Batch;
    match m
    case Turned(t, _) =>
      if t.OnNet? && t.h.Accept? && s.site.net.nextId == id {
        var c := NewConn(id, cfg, t.h.key);
        assert c.sessionId == id && OwnId(c);
      }
    case Flushed(n) => NoOwnPushed(Batch(s, n), id);
  }

  lemma {:induction false} NoOwnPushed(msgs: seq<Message>, id: nat)
    ensures forall i :: 0 <= i < |PushedChunks(msgs, id)| ==> PushedChunks(msgs, id)[i].Pushed?
  {
    if msgs != [] {
      NoOwnPushed(msgs[..|msgs| - 1], id);
    }
  }

  // ---- The guarantee -------------------------------------------------------------------------------

  /**
   The server down to the socket: whatever clients send and however the two threads
   and the flushes interleave, whenever the messages flushed are those of the first i
   events, the bytes written so far to a live client's socket are whole frames, and
   the roster the client folds from them gives every other session's name and team as
   the bridge had them after those events.
   */
  lemma {:induction false} ServerSocketAgreement(cfg: Config, w: World, moves: seq<Move>, i: nat, id: nat)
    requires w.sessions == map[] && NoneAssigned(moves)
    requires var s := WireRun(cfg, w, moves);
             && s.site.net.nextId <= MAX_PLAYER_ID + 1 && id in s.site.net.lives
             && i <= |s.site.events|
             && var h := History.Run(w, s.site.events[..i]);
                h.log == s.site.pushed[..s.flushed] && id in h.world.sessions
    ensures var s := WireRun(cfg, w, moves);
            var p := Parse(SocketBytes(s.sends, id));
            && p.rest == [] && !p.bad
            && Agrees(ApplyFrames(map[], p.frames), History.Run(w, s.site.events[..i]).world.sessions, id)
  {
    hide WireRun, ChunksFor, Written, PushedIn, SocketBytes, StreamTo, Parse, ApplyFrames, Agrees, OwnSentBy,
      History.Run, History.Aligned, CommandsIn, NetRun, Served, SiteRun, OnlyTo, NoneAssigned;
    var s, turns, chunks := WireRun(cfg, w, moves), TurnsIn(moves), ChunksFor(cfg, w, moves, id);
    var events := s.site.events[..i];
    var h := History.Run(w, events);
    SiteOfWire(cfg, w, moves);
    SocketIsStream(cfg, w, moves, id);
    FlushedAreWritten(cfg, w, moves, id);
    ChunksOwn(cfg, w, moves, id);
    TakesPrefix(cfg, w, turns, i);
    SiteInStep(cfg, w, turns);
    ServedJoins(cfg, NetTurns(turns), events);
    ServedLawful(cfg, NetTurns(turns), events);
    History.RunAligned(w, events);
    SinceHoldsAll(w, events, id);
    WholeStreamAgrees(w, events, id, chunks);
  }
}
