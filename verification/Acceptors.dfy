/**
 The acceptor: it owns the live connections, feeds them what the sockets
 delivered, links and routes UDP packets, and reaps the dead. Sends are returned
 in order instead of being written to a socket.
 */
module Acceptors {
  import opened Bits
  import opened Framing
  import opened Queues
  import opened Protocol
  import opened Connections
  import opened UdpSplit
  import opened Bridge
  import opened Routing
  import Opcodes

  datatype TcpClient = TcpClient(conn: Connection, udpAddr: Option<Endpoint>)

  class Acceptor {
    const cfg: Config
    const inbound: ConcurrentQueue<ClientCommand>
    var clients: map<nat, TcpClient>
    var nextSessionId: nat

    ghost predicate Valid()
      reads this
    {
      && (forall id :: id in clients ==>
        clients[id].conn.inbound == inbound && clients[id].conn.sessionId == id < nextSessionId)
      && (forall a, b :: a in clients && b in clients && a != b ==>
            clients[a].conn != clients[b].conn && clients[a].conn.tcp != clients[b].conn.tcp)
    }

    /** Everything the clients update in place. */
    ghost function Owned(): set<object>
      reads this
    {
      (set id | id in clients :: clients[id].conn) + (set id | id in clients :: clients[id].conn.tcp)
    }

    ghost function Peers(): (peers: map<nat, Peer>)
      reads this, Owned()
      ensures peers.Keys == clients.Keys
    {
      map id | id in clients :: Peer(clients[id].conn.Model(), clients[id].udpAddr)
    }

    constructor (cfg: Config, inbound: ConcurrentQueue<ClientCommand>)
      ensures Valid() && clients == map[] && nextSessionId == 1 && this.cfg == cfg && this.inbound == inbound
    {
      this.cfg, this.inbound := cfg, inbound;
      clients, nextSessionId := map[], 1;
    }

    /** A new connection under the next id, greeted with the accept burst. */
    method AcceptNewConnection(key: Text) returns (sends: seq<Send>)
      requires Valid()
      modifies this
      ensures Valid() && nextSessionId == old(nextSessionId) + 1
      ensures fresh(Owned() - old(Owned()))
      ensures old(nextSessionId) !in old(clients)
      ensures Peers() == old(Peers())[old(nextSessionId) := Peer(NewConn(old(nextSessionId), cfg, key), None)]
      ensures sends == TcpSends(old(nextSessionId), AcceptBurst(NewConn(old(nextSessionId), cfg, key)))
    {
      hide AcceptBurst, Owned, Peers;
      var sid := nextSessionId;
      nextSessionId := nextSessionId + 1;
      var conn := new Connection(sid, cfg, key, inbound);
      var hello := conn.OnAccept();
      sends := TcpSends(sid, hello);
      Untouched(sid, conn);
      Register(sid, conn);
    }

    /** A connection that was not there before is none of the clients' objects, and making it changed none of them. */
    twostate lemma {:induction false} Untouched(id: nat, new conn: Connection)
      requires Valid() && clients == old(clients) && fresh(conn) && fresh(conn.tcp) && nextSessionId == id + 1
      requires old(nextSessionId) == id && old(Valid())
      requires forall k :: k in clients ==> clients[k].conn.Model() == old(clients[k].conn.Model())
      ensures conn !in Owned() && conn.tcp !in Owned() && Owned() == old(Owned()) && Peers() == old(Peers()) &&
              id !in clients
    {
    }

    method Register(id: nat, conn: Connection)
      requires Valid() && id < nextSessionId && id !in clients && conn.sessionId == id && conn.inbound == inbound
      requires conn !in Owned() && conn.tcp !in Owned()
      modifies this`clients
      ensures Valid() && Owned() <= old(Owned()) + {conn, conn.tcp}
      ensures Peers() == old(Peers())[id := Peer(conn.Model(), None)]
    {
      hide Owned, Peers, Valid;
      clients := clients[id := TcpClient(conn, None)];
      MoreValid(id, conn);
      MoreObjects(id, conn);
      MorePeers(id, conn);
    }

    twostate lemma {:induction false} MoreValid(id: nat, new conn: Connection)
      requires old(Valid()) && clients == old(clients)[id := TcpClient(conn, None)] &&
               nextSessionId == old(nextSessionId)
      requires id < nextSessionId && conn.sessionId == id && conn.inbound == inbound
      requires conn !in old(Owned()) && conn.tcp !in old(Owned())
      ensures Valid()
    {
      forall a | a in old(clients) ensures old(clients)[a].conn != conn && old(clients)[a].conn.tcp != conn.tcp {
        assert old(clients)[a].conn in old(Owned()) && old(clients)[a].conn.tcp in old(Owned());
      }
    }

    twostate lemma {:induction false} MorePeers(id: nat, new conn: Connection)
      requires id !in old(clients) && clients == old(clients)[id := TcpClient(conn, None)]
      requires forall k :: k in old(clients) ==> clients[k].conn.Model() == old(clients[k].conn.Model())
      ensures Peers() == old(Peers())[id := Peer(conn.Model(), None)]
    {
    }

    twostate lemma {:induction false} MoreObjects(id: nat, new conn: Connection)
      requires clients == old(clients)[id := TcpClient(conn, None)]
      ensures Owned() <= old(Owned()) + {conn, conn.tcp}
    {
      forall o | o in Owned() ensures o in old(Owned()) + {conn, conn.tcp} {
        var k :| k in clients && (o == clients[k].conn || o == clients[k].conn.tcp);
        assert k != id ==> clients[k] == old(clients)[k];
      }
    }

    /** Hands a UDP packet to one connection. */
    method DeliverUdp(id: nat, f: UdpFrame) returns (r: StepResult)
      requires Valid() && id in clients
      modifies clients[id].conn, inbound
      ensures Valid() && Owned() == old(Owned())
      ensures var s := UdpStep(old(clients[id].conn.Model()), f.opcode, f.body);
              && r == StepResult(s.tcpOut, s.udpOut, s.datagrams, s.close)
              && inbound.items == old(inbound.items) + s.cmds
              && Peers() == old(Peers())[id := old(Peers())[id].(conn := s.conn)]
    {
      hide UdpStep, Owned, Peers;
      r := clients[id].conn.OnUdpPacket(f.opcode, f.body);
      OnlyOne(id);
    }

    /** When one connection has stepped and the others have kept their state, one peer has changed. */
    twostate lemma {:induction false} OnlyOne(id: nat)
      requires id in clients && clients == old(clients)
      requires forall k :: k in clients && k != id ==> clients[k].conn.Model() == old(clients[k].conn.Model())
      ensures Peers() == old(Peers())[id := old(Peers())[id].(conn := clients[id].conn.Model())]
    {
    }

    /** Hands bytes to one connection; dead says that it has to be reaped. */
    method PumpTcpClient(id: nat, data: seq<Byte>) returns (dead: bool, sends: seq<Send>)
      requires Valid() && id in clients
      modifies clients[id].conn, clients[id].conn.tcp, inbound
      ensures Valid()
      ensures var s := TcpStep(old(clients[id].conn.Model()), data);
              && dead == s.close && sends == TcpSends(id, s.tcpOut)
              && inbound.items == old(inbound.items) + s.cmds
              && Peers() == old(Peers())[id := old(Peers())[id].(conn := s.conn)]
    {
      hide TcpStep, Owned, Peers;
      var step := clients[id].conn.OnTcpData(data);
      OnlyOne(id);
      return step.close, TcpSends(id, step.tcpOut);
    }

    /** The clients and the queue, with what has been sent so far and whether the packet is taken. */
    ghost function State(sends: seq<Send>, done: bool): Routed
      reads this, Owned(), inbound
    {
      Routed(Peers(), inbound.items, sends, done)
    }

    twostate lemma {:induction false} SameObjects()
      requires clients.Keys == old(clients.Keys)
      requires forall k :: k in clients ==> clients[k].conn == old(clients)[k].conn
      ensures Owned() == old(Owned())
    {
    }

    method SetEndpoint(id: nat, from: Endpoint)
      requires Valid() && id in clients
      modifies this`clients
      ensures Valid() && Owned() == old(Owned())
      ensures Peers() == old(Peers())[id := old(Peers())[id].(udpAddr := Some(from))]
    {
      hide Owned;
      clients := clients[id := clients[id].(udpAddr := Some(from))];
      SameObjects();
    }

    lemma {:induction false} PeerAt(id: nat)
      requires id in clients
      ensures Peers()[id] == Peer(clients[id].conn.Model(), clients[id].udpAddr)
    {
    }

    lemma {:induction false} OwnedHas()
      ensures forall id :: id in clients ==> clients[id].conn in Owned() && clients[id].conn.tcp in Owned()
    {
    }

    method TryLinkClient(id: nat, f: UdpFrame, from: Endpoint, before: seq<Send>) returns (done: bool, sends: seq<Send>)
      requires Valid() && id in clients
      modifies this`clients, clients[id].conn, inbound
      ensures Valid() && Owned() == old(Owned()) && clients.Keys == old(clients.Keys)
      ensures State(sends, done) == LinkOne(old(State(before, false)), id, f, from)
    {
      hide UdpStep, UdpSends, TcpSends, Owned, Peers, Valid;
      var client := clients[id];
      PeerAt(id);
      if client.conn.udpLinked {
        return false, before;
      }
      var step := DeliverUdp(id, f);
      PeerAt(id);
      if client.conn.udpLinked {
        SetEndpoint(id, from);
        return true, before + TcpSends(id, step.tcpOut) + UdpSends(from, step.udpOut, step.datagrams);
      }
      sends := before + UdpSends(from, step.udpOut, step.datagrams);
      assert before + [] == before;
      done := step.datagrams != [] || step.udpOut != [];
    }

    /** Offers the packet to the unlinked clients in order of their ids until one links or answers. */
    method TryLinkUdpFrame(f: UdpFrame, from: Endpoint, before: seq<Send>) returns (done: bool, sends: seq<Send>)
      requires Valid()
      modifies this`clients, Owned(), inbound
      ensures Valid() && Owned() == old(Owned()) && clients.Keys == old(clients.Keys)
      ensures State(sends, done) == TryLinkOf(old(State(before, false)), Ascending(old(clients.Keys)), f, from)
    {
      hide LinkOne, Ascending, Owned, Peers, Valid;
      var ids := Ascending(clients.Keys);
      done, sends := false, before;
      var i := 0;
      assert ids[0..] == ids;
      while i < |ids| && !done
        invariant i <= |ids| && Valid() && Owned() == old(Owned()) && clients.Keys == old(clients.Keys)
        invariant TryLinkOf(State(sends, done), ids[i..], f, from) == TryLinkOf(old(State(before, false)), ids, f, from)
      {
        assert ids[i..][0] == ids[i] && ids[i..][1..] == ids[i + 1..];
        OwnedHas();
        done, sends := TryLinkClient(ids[i], f, from, sends);
        i := i + 1;
      }
    }

    /** Routes a known packet from a linked endpoint to the first session there. */
    method TryRouteLinkedUdpFrame(f: UdpFrame, from: Endpoint, before: seq<Send>) returns (done: bool, sends: seq<Send>)
      requires Valid()
      modifies Owned(), inbound
      ensures Valid() && Owned() == old(Owned())
      ensures State(sends, done) == RouteOf(old(State(before, false)), f, from)
    {
      hide UdpStep, DatagramSends, Ascending;
      if !Opcodes.IsKnownOpcode(f.opcode) {
        return false, before;
      }
      var ids := Ascending(clients.Keys);
      var i := 0;
      assert ids[0..] == ids;
      while i < |ids| && clients[ids[i]].udpAddr != Some(from)
        invariant i <= |ids|
        invariant FirstAt(Peers(), ids[i..], from) == FirstAt(Peers(), ids, from)
      {
        assert ids[i..][0] == ids[i] && ids[i..][1..] == ids[i + 1..];
        i := i + 1;
      }
      if i == |ids| {
        return false, before;
      }
      assert ids[i..][0] == ids[i];
      var step := DeliverUdp(ids[i], f);
      return true, before + TcpSends(ids[i], step.tcpOut) + UdpSends(from, step.udpOut, step.datagrams);
    }

    method HandleOneUdpPacket(data: seq<Byte>, from: Endpoint, before: seq<Send>) returns (sends: seq<Send>)
      requires Valid()
      modifies this`clients, Owned(), inbound
      ensures Valid() && Owned() == old(Owned()) && clients.Keys == old(clients.Keys)
      ensures var r := PacketOf(old(State(before, false)), data, from); State(sends, r.done) == r
    {
      hide TryLinkOf, RouteOf, Ascending, DecodeUdpFrame, DecodeRawUdpPayload, Owned, Peers, Valid;
      var sequenced := DecodeUdpFrame(data);
      var done := false;
      sends := before;
      if sequenced.Some? {
        done, sends := TryLinkUdpFrame(sequenced.value, from, sends);
        if done {
          return;
        }
      }
      var raw := DecodeRawUdpPayload(data);
      if raw.Some? {
        done, sends := TryLinkUdpFrame(raw.value, from, sends);
        if done {
          return;
        }
        done, sends := TryRouteLinkedUdpFrame(raw.value, from, sends);
        if done {
          return;
        }
      }
      if sequenced.Some? {
        done, sends := TryRouteLinkedUdpFrame(sequenced.value, from, sends);
      }
    }

    /** Cuts a datagram into its packets and handles each in turn. */
    method HandleUdpDatagram(data: seq<Byte>, from: Endpoint) returns (sends: seq<Send>)
      requires Valid()
      modifies this`clients, Owned(), inbound
      ensures Valid() && Owned() == old(Owned()) && clients.Keys == old(clients.Keys)
      ensures var r := PacketsOf(old(State([], false)), Split(data), from); State(sends, r.done) == r
    {
      hide PacketOf, Split, FirstUdpPacketLength, Peers, Valid;
      var pieces := SplitDatagram(data);
      sends := [];
      var i := 0;
      assert pieces[..0] == [] && Peers() == old(Peers());
      while i < |pieces|
        invariant i <= |pieces| && Valid() && Owned() == old(Owned()) && clients.Keys == old(clients.Keys)
        invariant var r := PacketsOf(old(State([], false)), pieces[..i], from); State(sends, r.done) == r
      {
        ghost var r := PacketsOf(old(State([], false)), pieces[..i], from);
        DoneIgnored(r, pieces[i], from);
        sends := HandleOneUdpPacket(pieces[i], from, sends);
        assert pieces[..i + 1][..i] == pieces[..i];
        i := i + 1;
      }
      assert pieces[..i] == pieces;
    }

    method ReapClient(id: nat)
      requires Valid()
      modifies this`clients, inbound
      ensures Valid() && Owned() <= old(Owned())
      ensures Peers() == old(Peers()) - {id}
      ensures inbound.items == old(inbound.items) + if id in old(Peers()) then [Plain(Disconnected, id, [])] else []
    {
      hide Peers, Valid;
      if id in clients {
        inbound.Push(Plain(Disconnected, id, []));
        Forget(id);
      } else {
        assert Peers() - {id} == Peers();
      }
    }

    method Forget(id: nat)
      requires Valid()
      modifies this`clients
      ensures Valid() && Owned() <= old(Owned()) && Peers() == old(Peers()) - {id}
    {
      hide Owned;
      clients := clients - {id};
      FewerObjects();
    }

    twostate lemma {:induction false} FewerObjects()
      requires clients.Keys <= old(clients.Keys) && forall k :: k in clients ==> clients[k] == old(clients)[k]
      ensures Owned() <= old(Owned())
    {
    }

    /** Closes and forgets the dead clients, announcing each on the queue. */
    method ReapClients(dead: seq<nat>)
      requires Valid()
      modifies this`clients, inbound
      ensures Valid() && Owned() <= old(Owned())
      ensures (Peers(), inbound.items)
              == (ReapOf(old(Peers()), dead).0, old(inbound.items) + ReapOf(old(Peers()), dead).1)
    {
      hide Peers, Owned, Valid;
      var i := 0;
      while i < |dead|
        invariant i <= |dead| && Valid() && Owned() <= old(Owned())
        invariant Peers() == ReapOf(old(Peers()), dead[..i]).0
        invariant inbound.items == old(inbound.items) + ReapOf(old(Peers()), dead[..i]).1
      {
        assert dead[..i + 1] == dead[..i] + [dead[i]];
        ReapClient(dead[i]);
        ReapOfAbsent(old(Peers()), dead[..i], dead[i]);
        ConcatAssoc(old(inbound.items), ReapOf(old(Peers()), dead[..i]).1,
                    if dead[i] in ReapOf(old(Peers()), dead[..i]).0 then [Plain(Disconnected, dead[i], [])] else []);
        i := i + 1;
      }
      assert dead[..i] == dead;
    }

    /** Sends the queued messages of the tick thread to those still connected. */
    method FlushOutboundMessages(outbound: ConcurrentQueue<OutboundMessage>) returns (sends: seq<Send>)
      requires Valid()
      modifies outbound
      ensures Valid() && Peers() == old(Peers()) && outbound.items == []
      ensures sends == FlushOf(Peers(), old(outbound.items))
    {
      hide Owned, Valid;
      var messages := outbound.DrainAll();
      sends := [];
      for i := 0 to |messages|
        invariant sends == FlushOf(Peers(), messages[..i])
      {
        assert messages[..i + 1][..i] == messages[..i];
        var m := messages[i];
        if m.sessionId in clients {
          if m.reliable {
            sends := sends + [ToTcp(m.sessionId, m.bytes)];
          } else if clients[m.sessionId].udpAddr.Some? {
            sends := sends + [ToUdp(clients[m.sessionId].udpAddr.value, m.bytes)];
          } else {
            assert sends + [] == sends;
          }
        } else {
          assert sends + [] == sends;
        }
      }
      assert messages[..|messages|] == messages;
    }
  }

  lemma {:induction false} ReapOfAbsent(peers: map<nat, Peer>, dead: seq<nat>, id: nat)
    ensures ReapOf(peers, dead + [id]).0 == ReapOf(peers, dead).0 - {id}
    ensures ReapOf(peers, dead + [id]).1
            == ReapOf(peers, dead).1 + if id in ReapOf(peers, dead).0 then [Plain(Disconnected, id, [])] else []
  {
    assert (dead + [id])[..|dead|] == dead;
    var left := ReapOf(peers, dead).0;
    if id !in left {
      assert left - {id} == left;
    }
  }

  /** A packet is offered afresh whatever became of the one before it. */
  lemma {:induction false} DoneIgnored(r: Routed, data: seq<Byte>, from: Endpoint)
    ensures PacketOf(r, data, from) == PacketOf(r.(done := false), data, from)
  {
  }
}
