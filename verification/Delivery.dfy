/**
 What the acceptor does is a run of the network thread: every datagram, however it
 is split and routed, amounts to deliveries to single connections, in their state,
 their commands, their endpoints and every send, in order.
 */
module Delivery {
  import opened Bits
  import opened Framing
  import opened Queues
  import opened Packets
  import opened Protocol
  import opened Sessions
  import opened Safety
  import opened UdpSplit
  import opened Bridge
  import opened Routing
  import opened Server
  import Opcodes

  // ---- What a run of the network thread sends ---------------------------------------------------

  /** What a network step sends; UDP goes back to where the packet came from. */
  function OwnSends(cfg: Config, n: Net, h: Happening, from: Endpoint): seq<Send> {
    match h
    case Accept(key) => TcpSends(n.nextId, AcceptBurst(NewConn(n.nextId, cfg, key)))
    case Deliver(id, x) =>
      if id !in n.lives then []
      else
        var s := StepOf(n.lives[id].conn, x);
        TcpSends(id, s.tcpOut) + UdpSends(from, s.udpOut, s.datagrams)
    case Reap(_) => []
  }

  /** A session's endpoint is where the packet came from that linked it. */
  function EndpointsAfter(n: Net, h: Happening, from: Endpoint, eps: map<nat, Endpoint>): map<nat, Endpoint> {
    match h
    case Accept(_) => eps
    case Deliver(id, x) =>
      if id in n.lives && !n.lives[id].conn.udpLinked && StepOf(n.lives[id].conn, x).conn.udpLinked
      then eps[id := from]
      else eps
    case Reap(_) => eps
  }

  function RunSends(cfg: Config, n: Net, hs: seq<Happening>, from: Endpoint): seq<Send> {
    if hs == [] then []
    else
      var before := hs[..|hs| - 1];
      RunSends(cfg, n, before, from) + OwnSends(cfg, NetRun(cfg, n, before), hs[|hs| - 1], from)
  }

  function RunEndpoints(cfg: Config, n: Net, hs: seq<Happening>, from: Endpoint,
                        eps: map<nat, Endpoint>): map<nat, Endpoint> {
    if hs == [] then eps
    else
      var before := hs[..|hs| - 1];
      EndpointsAfter(NetRun(cfg, n, before), hs[|hs| - 1], from, RunEndpoints(cfg, n, before, from, eps))
  }

  /**
   The acceptor's clients and queue are those of the run, base being what the bridge
   has already taken; endpoints are known exactly for linked sessions.
   */
  ghost predicate Shows(n: Net, r: Routed, base: seq<ClientCommand>, eps: map<nat, Endpoint>) {
    && r.peers.Keys == n.lives.Keys
    && (forall id :: id in r.peers ==> ShowsPeer(n.lives[id].conn, r.peers[id], id, eps))
    && n.log == base + r.cmds
  }

  predicate ShowsPeer(c: Conn, p: Peer, id: nat, eps: map<nat, Endpoint>) {
    p.conn == c && (id in eps <==> c.udpLinked) && p.udpAddr == if id in eps then Some(eps[id]) else None
  }

  /** From r to r' the acceptor did what the run hs does, and sent exactly what it sends. */
  ghost predicate Amounts(cfg: Config, n: Net, r: Routed, r': Routed, base: seq<ClientCommand>,
                          eps: map<nat, Endpoint>, hs: seq<Happening>, from: Endpoint) {
    && Shows(NetRun(cfg, n, hs), r', base, RunEndpoints(cfg, n, hs, from, eps))
    && r'.sends == r.sends + RunSends(cfg, n, hs, from)
  }

  lemma {:induction false} NetRunConcat(cfg: Config, n: Net, a: seq<Happening>, b: seq<Happening>)
    ensures NetRun(cfg, n, a + b) == NetRun(cfg, NetRun(cfg, n, a), b)
    decreases |b|
  {
    hide NetStep;
    if b == [] {
      assert a + b == a;
    } else {
      NetRunConcat(cfg, n, a, b[..|b| - 1]);
      assert (a + b)[..|a| + |b| - 1] == a + b[..|b| - 1];
    }
  }

  lemma {:induction false} RunsConcat(cfg: Config, n: Net, a: seq<Happening>, b: seq<Happening>, from: Endpoint,
                                      eps: map<nat, Endpoint>)
    ensures RunSends(cfg, n, a + b, from) == RunSends(cfg, n, a, from) + RunSends(cfg, NetRun(cfg, n, a), b, from)
    ensures RunEndpoints(cfg, n, a + b, from, eps)
            == RunEndpoints(cfg, NetRun(cfg, n, a), b, from, RunEndpoints(cfg, n, a, from, eps))
    decreases |b|
  {
    hide NetRun, OwnSends, EndpointsAfter;
    if b == [] {
      assert a + b == a;
    } else {
      var init, h := b[..|b| - 1], b[|b| - 1];
      RunsConcat(cfg, n, a, init, from, eps);
      NetRunConcat(cfg, n, a, init);
      assert (a + b)[..|a + b| - 1] == a + init;
      var m := NetRun(cfg, n, a);
      ConcatAssoc(RunSends(cfg, n, a, from), RunSends(cfg, m, init, from),
                  OwnSends(cfg, NetRun(cfg, m, init), h, from));
    }
  }

  lemma {:induction false} OneHappening(cfg: Config, n: Net, h: Happening, from: Endpoint, eps: map<nat, Endpoint>)
    ensures NetRun(cfg, n, [h]) == NetStep(cfg, n, h)
    ensures RunSends(cfg, n, [h], from) == OwnSends(cfg, n, h, from)
    ensures RunEndpoints(cfg, n, [h], from, eps) == EndpointsAfter(n, h, from, eps)
  {
    hide NetStep, OwnSends, EndpointsAfter;
    assert [h][..0] == [];
    assert NetRun(cfg, n, []) == n && RunSends(cfg, n, [], from) == [] && RunEndpoints(cfg, n, [], from, eps) == eps;
  }

  lemma {:induction false} NothingAmounts(cfg: Config, n: Net, r: Routed, r': Routed, base: seq<ClientCommand>,
                                          eps: map<nat, Endpoint>, from: Endpoint)
    requires Shows(n, r, base, eps) && r'.peers == r.peers && r'.cmds == r.cmds && r'.sends == r.sends
    ensures Amounts(cfg, n, r, r', base, eps, [], from)
  {
    assert r.sends + [] == r.sends;
  }

  lemma {:induction false} AmountsThen(cfg: Config, n: Net, r: Routed, r1: Routed, r2: Routed,
                                       base: seq<ClientCommand>, eps: map<nat, Endpoint>, a: seq<Happening>,
                                       b: seq<Happening>, from: Endpoint)
    requires Amounts(cfg, n, r, r1, base, eps, a, from)
    requires Amounts(cfg, NetRun(cfg, n, a), r1, r2, base, RunEndpoints(cfg, n, a, from, eps), b, from)
    ensures Amounts(cfg, n, r, r2, base, eps, a + b, from)
  {
    hide Shows, NetRun, RunSends, RunEndpoints;
    NetRunConcat(cfg, n, a, b);
    RunsConcat(cfg, n, a, b, from, eps);
    ConcatAssoc(r.sends, RunSends(cfg, n, a, from), RunSends(cfg, NetRun(cfg, n, a), b, from));
  }

  // ---- One delivery ---------------------------------------------------------------------------------

  /** Handing a connection one input, and noting its endpoint if that linked it. */
  lemma {:induction false} DeliverAmounts(cfg: Config, n: Net, r: Routed, base: seq<ClientCommand>,
                                          eps: map<nat, Endpoint>, id: nat, x: Input, from: Endpoint, r': Routed)
    requires Shows(n, r, base, eps) && id in r.peers
    requires var (c, s) := (r.peers[id].conn, StepOf(r.peers[id].conn, x));
             && (c.udpLinked ==> s.conn.udpLinked)
             && r'.cmds == r.cmds + s.cmds
             && r'.sends == r.sends + (TcpSends(id, s.tcpOut) + UdpSends(from, s.udpOut, s.datagrams))
             && r'.peers == r.peers[id := Peer(s.conn, if !c.udpLinked && s.conn.udpLinked then Some(from)
                                                       else r.peers[id].udpAddr)]
    ensures Amounts(cfg, n, r, r', base, eps, [Deliver(id, x)], from)
  {
    hide StepOf, NetRun, RunSends, RunEndpoints, UdpSends, TcpSends;
    var h := Deliver(id, x);
    OneHappening(cfg, n, h, from, eps);
    var s := StepOf(r.peers[id].conn, x);
    assert id in n.lives.Keys && ShowsPeer(n.lives[id].conn, r.peers[id], id, eps);
    ConcatAssoc(base, r.cmds, s.cmds);
    var n', eps' := NetStep(cfg, n, h), EndpointsAfter(n, h, from, eps);
    forall k | k in r'.peers ensures ShowsPeer(n'.lives[k].conn, r'.peers[k], k, eps') {
      if k != id {
        assert k in r.peers && ShowsPeer(n.lives[k].conn, r.peers[k], k, eps);
      }
    }
  }

  lemma {:induction false} UnlinkedSilent(c: Conn, opcode: Byte, body: seq<Byte>)
    ensures !UdpStep(c, opcode, body).conn.udpLinked ==> UdpStep(c, opcode, body).tcpOut == []
  {
    hide ReadKeyEcho, HandshakeDatagrams, UdpPong, UdpAck, UdpUpdateStats, DecodedOf, ActionCommands;
  }

  lemma {:induction false} LinkOneAmounts(cfg: Config, n: Net, r: Routed, base: seq<ClientCommand>,
                                          eps: map<nat, Endpoint>, id: nat, f: UdpFrame, from: Endpoint)
    returns (hs: seq<Happening>)
    requires Shows(n, r, base, eps) && id in r.peers
    ensures Amounts(cfg, n, r, LinkOne(r, id, f, from), base, eps, hs, from)
  {
    hide UdpStep, NetRun, RunSends, RunEndpoints, UdpSends, Amounts;
    var p, x := r.peers[id], Udp(f.opcode, f.body);
    if p.conn.udpLinked {
      hs := [];
      NothingAmounts(cfg, n, r, r, base, eps, from);
    } else {
      hs := [Deliver(id, x)];
      var s := UdpStep(p.conn, f.opcode, f.body);
      UnlinkedSilent(p.conn, f.opcode, f.body);
      var tcp := if s.conn.udpLinked then TcpSends(id, s.tcpOut) else [];
      assert tcp == TcpSends(id, s.tcpOut);
      ConcatAssoc(r.sends, tcp, UdpSends(from, s.udpOut, s.datagrams));
      DeliverAmounts(cfg, n, r, base, eps, id, x, from, LinkOne(r, id, f, from));
    }
  }

  lemma {:induction false} TryLinkAmounts(cfg: Config, n: Net, r: Routed, base: seq<ClientCommand>,
                                          eps: map<nat, Endpoint>, ids: seq<nat>, f: UdpFrame, from: Endpoint)
    returns (hs: seq<Happening>)
    requires Shows(n, r, base, eps) && forall i :: 0 <= i < |ids| ==> ids[i] in r.peers
    ensures Amounts(cfg, n, r, TryLinkOf(r, ids, f, from), base, eps, hs, from)
    decreases |ids|
  {
    hide LinkOne, NetRun, Shows, RunSends, RunEndpoints;
    if ids == [] || r.done {
      hs := [];
      NothingAmounts(cfg, n, r, r, base, eps, from);
    } else {
      var r1 := LinkOne(r, ids[0], f, from);
      var first := LinkOneAmounts(cfg, n, r, base, eps, ids[0], f, from);
      var rest := TryLinkAmounts(cfg, NetRun(cfg, n, first), r1, base, RunEndpoints(cfg, n, first, from, eps), ids[1..],
                                 f, from);
      hs := first + rest;
      AmountsThen(cfg, n, r, r1, TryLinkOf(r1, ids[1..], f, from), base, eps, first, rest, from);
    }
  }

  lemma {:induction false} RouteAmounts(cfg: Config, n: Net, r: Routed, base: seq<ClientCommand>,
                                        eps: map<nat, Endpoint>, f: UdpFrame, from: Endpoint)
    returns (hs: seq<Happening>)
    requires Shows(n, r, base, eps)
    ensures Amounts(cfg, n, r, RouteOf(r, f, from), base, eps, hs, from)
  {
    hide UdpStep, NetRun, Ascending, Opcodes.IsKnownOpcode, BufferOk, IsFrames, RunSends, RunEndpoints, UdpSends,
      TcpSends, Amounts;
    var id := FirstAt(r.peers, Ascending(r.peers.Keys), from);
    if RouteOf(r, f, from) == r {
      hs := [];
      NothingAmounts(cfg, n, r, r, base, eps, from);
    } else {
      var p, x := r.peers[id.value], Udp(f.opcode, f.body);
      hs := [Deliver(id.value, x)];
      UdpStepSafe(p.conn, f.opcode, f.body);
      var s := UdpStep(p.conn, f.opcode, f.body);
      assert ShowsPeer(n.lives[id.value].conn, p, id.value, eps);
      assert p.(conn := s.conn) == Peer(s.conn, p.udpAddr);
      ConcatAssoc(r.sends, TcpSends(id.value, s.tcpOut), UdpSends(from, s.udpOut, s.datagrams));
      DeliverAmounts(cfg, n, r, base, eps, id.value, x, from, RouteOf(r, f, from));
    }
  }

  // ---- One datagram ------------------------------------------------------------------------------------

  lemma {:induction false} LinkStageAmounts(cfg: Config, n: Net, r: Routed, base: seq<ClientCommand>,
                                            eps: map<nat, Endpoint>, f: Option<UdpFrame>, from: Endpoint)
    returns (hs: seq<Happening>)
    requires Shows(n, r, base, eps)
    ensures Amounts(cfg, n, r, LinkStage(r, f, from), base, eps, hs, from)
  {
    hide TryLinkOf, NetRun, Shows, Ascending, RunSends, RunEndpoints, Amounts;
    hs := [];
    if r.done || f.None? {
      NothingAmounts(cfg, n, r, r, base, eps, from);
    } else {
      hs := TryLinkAmounts(cfg, n, r, base, eps, Ascending(r.peers.Keys), f.value, from);
    }
  }

  lemma {:induction false} RouteStageAmounts(cfg: Config, n: Net, r: Routed, base: seq<ClientCommand>,
                                             eps: map<nat, Endpoint>, f: Option<UdpFrame>, from: Endpoint)
    returns (hs: seq<Happening>)
    requires Shows(n, r, base, eps)
    ensures Amounts(cfg, n, r, RouteStage(r, f, from), base, eps, hs, from)
  {
    hide RouteOf, NetRun, Shows, RunSends, RunEndpoints, Amounts;
    hs := [];
    if r.done || f.None? {
      NothingAmounts(cfg, n, r, r, base, eps, from);
    } else {
      hs := RouteAmounts(cfg, n, r, base, eps, f.value, from);
    }
  }

  lemma {:induction false} PacketAmounts(cfg: Config, n: Net, r: Routed, base: seq<ClientCommand>,
                                         eps: map<nat, Endpoint>, data: seq<Byte>, from: Endpoint)
    returns (hs: seq<Happening>)
    requires Shows(n, r, base, eps)
    ensures Amounts(cfg, n, r, PacketOf(r, data, from), base, eps, hs, from)
  {
    hide LinkStage, RouteStage, NetRun, DecodeUdpFrame, DecodeRawUdpPayload, Shows, RunSends, RunEndpoints;
    var sequenced, raw := DecodeUdpFrame(data), DecodeRawUdpPayload(data);
    var r0 := r.(done := false);
    assert Shows(n, r0, base, eps) by { SameShown(n, r, r0, base, eps); }
    var a := LinkStageAmounts(cfg, n, r0, base, eps, sequenced, from);
    var r1 := LinkStage(r0, sequenced, from);
    var b := LinkStageAmounts(cfg, NetRun(cfg, n, a), r1, base, RunEndpoints(cfg, n, a, from, eps), raw, from);
    var r2 := LinkStage(r1, raw, from);
    AmountsThen(cfg, n, r0, r1, r2, base, eps, a, b, from);
    var ab := a + b;
    var c := RouteStageAmounts(cfg, NetRun(cfg, n, ab), r2, base, RunEndpoints(cfg, n, ab, from, eps), raw, from);
    var r3 := RouteStage(r2, raw, from);
    AmountsThen(cfg, n, r0, r2, r3, base, eps, ab, c, from);
    var abc := ab + c;
    var d := RouteStageAmounts(cfg, NetRun(cfg, n, abc), r3, base, RunEndpoints(cfg, n, abc, from, eps), sequenced,
                               from);
    AmountsThen(cfg, n, r0, r3, RouteStage(r3, sequenced, from), base, eps, abc, d, from);
    hs := abc + d;
  }

  lemma {:induction false} SameShown(n: Net, r: Routed, r': Routed, base: seq<ClientCommand>, eps: map<nat, Endpoint>)
    requires Shows(n, r, base, eps) && r'.peers == r.peers && r'.cmds == r.cmds
    ensures Shows(n, r', base, eps)
  {
  }

  /**
   A datagram, split and routed, does to the connections and the queue exactly what
   some run of single deliveries does, sends exactly what that run sends, in order,
   and leaves endpoints known exactly for linked sessions.
   */
  lemma {:induction false} DatagramIsRun(cfg: Config, n: Net, r: Routed, base: seq<ClientCommand>,
                                         eps: map<nat, Endpoint>, pieces: seq<seq<Byte>>, from: Endpoint)
    returns (hs: seq<Happening>)
    requires Shows(n, r, base, eps)
    ensures Amounts(cfg, n, r, PacketsOf(r, pieces, from), base, eps, hs, from)
  {
    hide PacketOf, NetRun, Shows, RunSends, RunEndpoints;
    if pieces == [] {
      hs := [];
      NothingAmounts(cfg, n, r, r, base, eps, from);
    } else {
      var m := |pieces| - 1;
      var first := DatagramIsRun(cfg, n, r, base, eps, pieces[..m], from);
      var r1 := PacketsOf(r, pieces[..m], from);
      var rest := PacketAmounts(cfg, NetRun(cfg, n, first), r1, base, RunEndpoints(cfg, n, first, from, eps), pieces[m],
                                from);
      hs := first + rest;
      AmountsThen(cfg, n, r, r1, PacketOf(r1, pieces[m], from), base, eps, first, rest, from);
    }
  }

  // ---- The other operations -----------------------------------------------------------------------------

  lemma {:induction false} DrainNoUdp(s: Step, n: nat)
    requires s.udpOut == [] && s.datagrams == []
    ensures Drain(s, n).udpOut == [] && Drain(s, n).datagrams == []
    decreases n
  {
    hide FrameOf, NextStep;
    if n > 0 {
      var (a, f) := NextStep(s.conn.tcp);
      var popped := s.(conn := s.conn.(tcp := a));
      if !a.failed && f.Some? {
        var s' := AfterFrame(popped, FrameOf(popped.conn, f.value));
        if !s'.close {
          DrainNoUdp(s', n - 1);
        }
      }
    }
  }

  lemma {:induction false} TcpNoUdp(c: Conn, data: seq<Byte>, to: Endpoint)
    ensures UdpSends(to, TcpStep(c, data).udpOut, TcpStep(c, data).datagrams) == []
  {
    hide Drain, FeedStep;
    DrainNoUdp(Still(c.(tcp := FeedStep(c.tcp, data))), MAX_FRAMES_PER_DRAIN);
  }

  /** Bytes on a client's TCP socket. */
  lemma {:induction false} PumpIsRun(cfg: Config, n: Net, r: Routed, base: seq<ClientCommand>,
                                     eps: map<nat, Endpoint>, id: nat, data: seq<Byte>, from: Endpoint)
    requires Shows(n, r, base, eps) && id in r.peers
    ensures var s := TcpStep(r.peers[id].conn, data);
            Amounts(cfg, n, r,
                    r.(peers := r.peers[id := r.peers[id].(conn := s.conn)], cmds := r.cmds + s.cmds,
                       sends := r.sends + TcpSends(id, s.tcpOut)),
                    base, eps, [Deliver(id, Tcp(data))], from)
  {
    hide TcpStep, NetRun, BufferOk, IsFrames, RunSends, RunEndpoints, TcpSends, UdpSends, Amounts;
    var p := r.peers[id];
    var s := TcpStep(p.conn, data);
    TcpStepSafe(p.conn, data);
    TcpNoUdp(p.conn, data, from);
    assert p.(conn := s.conn) == Peer(s.conn, p.udpAddr);
    assert TcpSends(id, s.tcpOut) + [] == TcpSends(id, s.tcpOut);
    DeliverAmounts(cfg, n, r, base, eps, id, Tcp(data), from,
                   r.(peers := r.peers[id := p.(conn := s.conn)], cmds := r.cmds + s.cmds,
                      sends := r.sends + TcpSends(id, s.tcpOut)));
  }

  lemma {:induction false} AcceptIsRun(cfg: Config, n: Net, r: Routed, base: seq<ClientCommand>,
                                       eps: map<nat, Endpoint>, key: Text, from: Endpoint)
    requires Shows(n, r, base, eps) && n.nextId !in eps
    ensures var c := NewConn(n.nextId, cfg, key);
            Amounts(cfg, n, r,
                    r.(peers := r.peers[n.nextId := Peer(c, None)],
                       sends := r.sends + TcpSends(n.nextId, AcceptBurst(c))),
                    base, eps, [Accept(key)], from)
    ensures NetRun(cfg, n, [Accept(key)]).nextId == n.nextId + 1
  {
    hide AcceptBurst, NetRun, Bringup, TcpSends, RunSends, RunEndpoints;
    OneHappening(cfg, n, Accept(key), from, eps);
    var n', peers := NetStep(cfg, n, Accept(key)), r.peers[n.nextId := Peer(NewConn(n.nextId, cfg, key), None)];
    forall id | id in peers ensures ShowsPeer(n'.lives[id].conn, peers[id], id, eps) {
      if id != n.nextId {
        assert id in r.peers && ShowsPeer(n.lives[id].conn, r.peers[id], id, eps);
      }
    }
  }

  lemma {:induction false} ReapOneIsRun(cfg: Config, n: Net, r: Routed, base: seq<ClientCommand>,
                                        eps: map<nat, Endpoint>, id: nat, from: Endpoint)
    requires Shows(n, r, base, eps)
    ensures Amounts(cfg, n, r,
                    if id in r.peers
                    then r.(peers := r.peers - {id}, cmds := r.cmds + [Plain(Disconnected, id, [])])
                    else r,
                    base, eps, [Reap(id)], from)
  {
    hide NetRun, RunSends, RunEndpoints, ShowsPeer;
    OneHappening(cfg, n, Reap(id), from, eps);
    assert r.sends + [] == r.sends;
    assert id in r.peers.Keys <==> id in n.lives.Keys;
    if id in r.peers {
      ConcatAssoc(base, r.cmds, [Plain(Disconnected, id, [])]);
    }
  }

  function Reaps(dead: seq<nat>): seq<Happening> {
    seq(|dead|, i requires 0 <= i < |dead| => Reap(dead[i]))
  }

  /** Reaping announces every dead client once, whatever the list repeats, and sends nothing. */
  lemma {:induction false} ReapIsRun(cfg: Config, n: Net, r: Routed, base: seq<ClientCommand>,
                                     eps: map<nat, Endpoint>, dead: seq<nat>, from: Endpoint)
    requires Shows(n, r, base, eps)
    ensures var (left, cmds) := ReapOf(r.peers, dead);
            Amounts(cfg, n, r, r.(peers := left, cmds := r.cmds + cmds), base, eps, Reaps(dead), from)
  {
    hide NetRun, Shows, RunSends, RunEndpoints;
    if dead == [] {
      assert r.cmds + [] == r.cmds;
      NothingAmounts(cfg, n, r, r, base, eps, from);
      assert Reaps(dead) == [];
    } else {
      var m := |dead| - 1;
      ReapIsRun(cfg, n, r, base, eps, dead[..m], from);
      var (left, cmds) := ReapOf(r.peers, dead[..m]);
      var r1 := r.(peers := left, cmds := r.cmds + cmds);
      var before := Reaps(dead[..m]);
      ReapOneIsRun(cfg, NetRun(cfg, n, before), r1, base, RunEndpoints(cfg, n, before, from, eps), dead[m], from);
      assert Reaps(dead) == before + [Reap(dead[m])];
      ConcatAssoc(r.cmds, cmds, [Plain(Disconnected, dead[m], [])]);
      var last := ReapOf(r.peers, dead);
      AmountsThen(cfg, n, r, r1, r.(peers := last.0, cmds := r.cmds + last.1), base, eps, before, [Reap(dead[m])],
                  from);
    }
  }
}
