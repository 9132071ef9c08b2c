/**
 The acceptor's bookkeeping as functions: which session a UDP packet reaches,
 when an endpoint is linked, and what accepting, reaping and flushing leave.
 */
module Routing {
  import opened Bits
  import opened Framing
  import opened Queues
  import opened Packets
  import opened Protocol
  import opened UdpSplit
  import opened Bridge
  import Opcodes

  datatype Endpoint = Endpoint(address: U32, port: U16)

  /** A client's protocol state and, once linked, where its UDP goes. */
  datatype Peer = Peer(conn: Conn, udpAddr: Option<Endpoint>)

  datatype Send = ToTcp(id: nat, bytes: seq<Byte>) | ToUdp(to: Endpoint, bytes: seq<Byte>)

  function TcpSends(id: nat, bytes: seq<Byte>): seq<Send> {
    if bytes == [] then [] else [ToTcp(id, bytes)]
  }

  function DatagramSends(to: Endpoint, datagrams: seq<seq<Byte>>): seq<Send> {
    if datagrams == [] then []
    else
      var last := datagrams[|datagrams| - 1];
      DatagramSends(to, datagrams[..|datagrams| - 1]) + if last == [] then [] else [ToUdp(to, last)]
  }

  function UdpSends(to: Endpoint, udpOut: seq<Byte>, datagrams: seq<seq<Byte>>): seq<Send> {
    (if udpOut == [] then [] else [ToUdp(to, udpOut)]) + DatagramSends(to, datagrams)
  }

  /** The clients, what they queued, what was sent, and whether the packet has been taken. */
  datatype Routed = Routed(peers: map<nat, Peer>, cmds: seq<ClientCommand>, sends: seq<Send>, done: bool)

  /** Offers the packet to one client that is not linked yet. */
  function LinkOne(r: Routed, id: nat, f: UdpFrame, from: Endpoint): (r': Routed)
    requires id in r.peers
    ensures r'.peers.Keys == r.peers.Keys
  {
    var p := r.peers[id];
    if p.conn.udpLinked then r
    else
      var s := UdpStep(p.conn, f.opcode, f.body);
      var linked := s.conn.udpLinked;
      Routed(r.peers[id := Peer(s.conn, if linked then Some(from) else p.udpAddr)], r.cmds + s.cmds,
             r.sends + (if linked then TcpSends(id, s.tcpOut) else []) + UdpSends(from, s.udpOut, s.datagrams),
             linked || s.datagrams != [] || s.udpOut != [])
  }

  /** Offers it to these clients in turn until one takes it. */
  function TryLinkOf(r: Routed, ids: seq<nat>, f: UdpFrame, from: Endpoint): (r': Routed)
    requires forall i :: 0 <= i < |ids| ==> ids[i] in r.peers
    ensures r'.peers.Keys == r.peers.Keys
    decreases |ids|
  {
    if ids == [] || r.done then r else TryLinkOf(LinkOne(r, ids[0], f, from), ids[1..], f, from)
  }

  function FirstAt(peers: map<nat, Peer>, ids: seq<nat>, from: Endpoint): (id: Option<nat>)
    requires forall i :: 0 <= i < |ids| ==> ids[i] in peers
    ensures id.Some? ==> id.value in peers && peers[id.value].udpAddr == Some(from)
  {
    if ids == [] then None
    else if peers[ids[0]].udpAddr == Some(from) then Some(ids[0])
    else FirstAt(peers, ids[1..], from)
  }

  /** A known packet from a linked endpoint goes to that endpoint's session. */
  function RouteOf(r: Routed, f: UdpFrame, from: Endpoint): (r': Routed)
    ensures r'.peers.Keys == r.peers.Keys
  {
    var id := FirstAt(r.peers, Ascending(r.peers.Keys), from);
    if !Opcodes.IsKnownOpcode(f.opcode) || id.None? then r
    else
      var p := r.peers[id.value];
      var s := UdpStep(p.conn, f.opcode, f.body);
      Routed(r.peers[id.value := p.(conn := s.conn)], r.cmds + s.cmds,
             r.sends + TcpSends(id.value, s.tcpOut) + UdpSends(from, s.udpOut, s.datagrams), true)
  }

  /** `[opcode][body]`, possibly behind its own total length. */
  function DecodeRawUdpPayload(data: seq<Byte>): Option<UdpFrame> {
    if data == [] then None
    else
      var payload := if |data| > 2 && FromBigEndian(data) == |data| then data[2..] else data;
      Some(UdpFrame(0, payload[0], payload[1..]))
  }

  function LinkStage(r: Routed, f: Option<UdpFrame>, from: Endpoint): (r': Routed)
    ensures r'.peers.Keys == r.peers.Keys
  {
    if r.done || f.None? then r else TryLinkOf(r, Ascending(r.peers.Keys), f.value, from)
  }

  function RouteStage(r: Routed, f: Option<UdpFrame>, from: Endpoint): (r': Routed)
    ensures r'.peers.Keys == r.peers.Keys
  {
    if r.done || f.None? then r else RouteOf(r, f.value, from)
  }

  /** One packet, tried in both framings for linking, then for a linked session. */
  function PacketOf(r: Routed, data: seq<Byte>, from: Endpoint): (r': Routed)
    ensures r'.peers.Keys == r.peers.Keys
  {
    var sequenced, raw := DecodeUdpFrame(data), DecodeRawUdpPayload(data);
    var r1 := LinkStage(r.(done := false), sequenced, from);
    var r2 := LinkStage(r1, raw, from);
    RouteStage(RouteStage(r2, raw, from), sequenced, from)
  }

  function PacketsOf(r: Routed, pieces: seq<seq<Byte>>, from: Endpoint): (r': Routed)
    ensures r'.peers.Keys == r.peers.Keys
  {
    if pieces == [] then r
    else PacketOf(PacketsOf(r, pieces[..|pieces| - 1], from), pieces[|pieces| - 1], from)
  }

  /** Removes the dead clients, each announced by one Disconnected. */
  function ReapOf(peers: map<nat, Peer>, dead: seq<nat>): (map<nat, Peer>, seq<ClientCommand>) {
    if dead == [] then (peers, [])
    else
      var (left, cmds) := ReapOf(peers, dead[..|dead| - 1]);
      var id := dead[|dead| - 1];
      if id !in left then (left, cmds) else (left - {id}, cmds + [Plain(Disconnected, id, [])])
  }

  /** Reliable bytes go to the session's socket, the others to its endpoint once there is one. */
  function FlushOne(peers: map<nat, Peer>, m: OutboundMessage): seq<Send> {
    if m.sessionId !in peers then []
    else if m.reliable then [ToTcp(m.sessionId, m.bytes)]
    else if peers[m.sessionId].udpAddr.Some? then [ToUdp(peers[m.sessionId].udpAddr.value, m.bytes)]
    else []
  }

  function FlushOf(peers: map<nat, Peer>, msgs: seq<OutboundMessage>): seq<Send> {
    if msgs == [] then [] else FlushOf(peers, msgs[..|msgs| - 1]) + FlushOne(peers, msgs[|msgs| - 1])
  }

  // ---- What a socket gets ----------------------------------------------------------------------------

  /** Everything written to a session's TCP socket, in order. */
  function SocketBytes(sends: seq<Send>, id: nat): seq<Byte> {
    if sends == [] then []
    else
      var last := sends[|sends| - 1];
      SocketBytes(sends[..|sends| - 1], id) + if last.ToTcp? && last.id == id then last.bytes else []
  }

  lemma {:induction false} SocketConcat(a: seq<Send>, b: seq<Send>, id: nat)
    ensures SocketBytes(a + b, id) == SocketBytes(a, id) + SocketBytes(b, id)
    decreases |b|
  {
    if b == [] {
      assert a + b == a;
    } else {
      var n := |b| - 1;
      assert (a + b)[..|a| + n] == a + b[..n];
      SocketConcat(a, b[..n], id);
      ConcatAssoc(SocketBytes(a, id), SocketBytes(b[..n], id), if b[n].ToTcp? && b[n].id == id then b[n].bytes else []);
    }
  }

  lemma {:induction false} TcpSent(before: seq<Send>, id: nat, bytes: seq<Byte>, k: nat)
    ensures SocketBytes(before + TcpSends(id, bytes), k) == SocketBytes(before, k) + if k == id then bytes else []
  {
    if bytes == [] {
      assert before + [] == before;
    } else {
      assert (before + [ToTcp(id, bytes)])[..|before|] == before;
    }
  }

  /** Every datagram sent to an endpoint, in order. */
  function DatagramsTo(sends: seq<Send>, to: Endpoint): seq<seq<Byte>> {
    if sends == [] then []
    else
      var last := sends[|sends| - 1];
      DatagramsTo(sends[..|sends| - 1], to) + if last.ToUdp? && last.to == to then [last.bytes] else []
  }

  lemma {:induction false} DatagramsConcat(a: seq<Send>, b: seq<Send>, to: Endpoint)
    ensures DatagramsTo(a + b, to) == DatagramsTo(a, to) + DatagramsTo(b, to)
    decreases |b|
  {
    if b == [] {
      assert a + b == a;
    } else {
      var n := |b| - 1;
      assert (a + b)[..|a| + n] == a + b[..n];
      DatagramsConcat(a, b[..n], to);
      ConcatAssoc(DatagramsTo(a, to), DatagramsTo(b[..n], to),
                  if b[n].ToUdp? && b[n].to == to then [b[n].bytes] else []);
    }
  }

  /** The datagrams that hold anything. */
  function Filled(datagrams: seq<seq<Byte>>): seq<seq<Byte>> {
    if datagrams == [] then []
    else
      var last := datagrams[|datagrams| - 1];
      Filled(datagrams[..|datagrams| - 1]) + if last == [] then [] else [last]
  }

  lemma {:induction false} DatagramsSent(to: Endpoint, datagrams: seq<seq<Byte>>, e: Endpoint)
    ensures DatagramsTo(DatagramSends(to, datagrams), e) == if e == to then Filled(datagrams) else []
  {
    if datagrams != [] {
      var n, last := |datagrams| - 1, datagrams[|datagrams| - 1];
      DatagramsSent(to, datagrams[..n], e);
      if last != [] {
        var before := DatagramSends(to, datagrams[..n]);
        assert (before + [ToUdp(to, last)])[..|before|] == before;
      } else {
        assert DatagramSends(to, datagrams) == DatagramSends(to, datagrams[..n]);
      }
    }
  }

  /** A step's UDP output goes to one endpoint: the packet itself first, then its datagrams in order. */
  lemma {:induction false} StepDatagrams(id: nat, tcpOut: seq<Byte>, to: Endpoint, udpOut: seq<Byte>,
                                         datagrams: seq<seq<Byte>>, e: Endpoint)
    ensures DatagramsTo(TcpSends(id, tcpOut) + UdpSends(to, udpOut, datagrams), e)
            == if e == to then Filled([udpOut] + datagrams) else []
  {
    hide DatagramsTo, Filled, DatagramSends;
    var first := if udpOut == [] then [] else [ToUdp(to, udpOut)];
    DatagramsConcat(TcpSends(id, tcpOut), UdpSends(to, udpOut, datagrams), e);
    DatagramsConcat(first, DatagramSends(to, datagrams), e);
    DatagramsSent(to, datagrams, e);
    FilledConcat([udpOut], datagrams);
    FirstDatagram(id, tcpOut, to, udpOut, e);
  }

  lemma {:induction false} FirstDatagram(id: nat, tcpOut: seq<Byte>, to: Endpoint, udpOut: seq<Byte>, e: Endpoint)
    ensures DatagramsTo(TcpSends(id, tcpOut), e) == []
    ensures DatagramsTo(if udpOut == [] then [] else [ToUdp(to, udpOut)], e) == if e == to then Filled([udpOut]) else []
  {
    assert [udpOut][..0] == [] && Filled([]) == [] && DatagramsTo([], e) == [];
    assert [ToUdp(to, udpOut)][..0] == [] && [ToTcp(id, tcpOut)][..0] == [];
  }

  lemma {:induction false} FilledConcat(a: seq<seq<Byte>>, b: seq<seq<Byte>>)
    ensures Filled(a + b) == Filled(a) + Filled(b)
    decreases |b|
  {
    if b == [] {
      assert a + b == a;
    } else {
      var n := |b| - 1;
      assert (a + b)[..|a| + n] == a + b[..n];
      FilledConcat(a, b[..n]);
      ConcatAssoc(Filled(a), Filled(b[..n]), if b[n] == [] then [] else [b[n]]);
    }
  }

  lemma {:induction false} DatagramsElsewhere(to: Endpoint, datagrams: seq<seq<Byte>>, id: nat)
    ensures SocketBytes(DatagramSends(to, datagrams), id) == []
  {
    if datagrams != [] {
      var n := |datagrams| - 1;
      DatagramsElsewhere(to, datagrams[..n], id);
      SocketConcat(DatagramSends(to, datagrams[..n]), if datagrams[n] == [] then [] else [ToUdp(to, datagrams[n])], id);
    }
  }

  /** Of everything a step sends only its TCP output reaches a socket, and only the client's own. */
  lemma {:induction false} StepSends(before: seq<Send>, id: nat, tcpOut: seq<Byte>, to: Endpoint, udpOut: seq<Byte>,
                                     datagrams: seq<seq<Byte>>, k: nat)
    ensures SocketBytes(before + TcpSends(id, tcpOut) + UdpSends(to, udpOut, datagrams), k)
            == SocketBytes(before, k) + if k == id then tcpOut else []
  {
    var first := if udpOut == [] then [] else [ToUdp(to, udpOut)];
    SocketConcat(before + TcpSends(id, tcpOut), UdpSends(to, udpOut, datagrams), k);
    TcpSent(before, id, tcpOut, k);
    SocketConcat(first, DatagramSends(to, datagrams), k);
    DatagramsElsewhere(to, datagrams, k);
  }

  // ---- Linking ------------------------------------------------------------------------------------

  /** The client is waiting for exactly this key. */
  predicate Awaits(p: Peer, key: Text) {
    !p.conn.udpLinked && p.conn.state != Closed && p.conn.key == key
  }

  predicate IsKeyEcho(f: UdpFrame, key: Text) {
    f.opcode == Opcodes.HELLO && ReadKeyEcho(f.body) == Some(key)
  }

  /** What a key echo leaves of a client: linked, one step onward, its endpoint known. */
  function LinkedPeer(p: Peer, from: Endpoint): Peer {
    Peer(LinkOf(p.conn).conn, Some(from))
  }

  lemma {:induction false} EchoStep(c: Conn, f: UdpFrame, key: Text)
    requires IsKeyEcho(f, key) && !c.udpLinked
    ensures var s := UdpStep(c, f.opcode, f.body);
            if Awaits(Peer(c, None), key) then s == LinkOf(c) && s.conn.udpLinked && s.tcpOut == IdentifiedUdp()
            else s.conn == c && s.cmds == [] && s.tcpOut == [] && s.udpOut == [] && s.datagrams == []
  {
    hide ReadKeyEcho, IdentifiedUdp;
  }

  lemma {:induction false} EchoOffered(r: Routed, id: nat, f: UdpFrame, key: Text, from: Endpoint)
    requires id in r.peers && IsKeyEcho(f, key) && !r.done
    ensures var (r', p) := (LinkOne(r, id, f, from), r.peers[id]);
            if Awaits(p, key) then
              r' == Routed(r.peers[id := LinkedPeer(p, from)], r.cmds, r.sends + TcpSends(id, IdentifiedUdp()), true)
            else r' == r
  {
    hide ReadKeyEcho, IdentifiedUdp, UdpStep;
    var p := r.peers[id];
    if !p.conn.udpLinked {
      EchoStep(p.conn, f, key);
      assert r.cmds + [] == r.cmds;
      assert r.sends + [] + UdpSends(from, [], []) == r.sends;
      assert r.sends + TcpSends(id, IdentifiedUdp()) + UdpSends(from, [], [])
             == r.sends + TcpSends(id, IdentifiedUdp());
      assert p == Peer(p.conn, p.udpAddr);
      assert r.peers[id := p] == r.peers;
    }
  }

  /** The first of these clients that awaits the key. */
  function FirstAwaiting(peers: map<nat, Peer>, ids: seq<nat>, key: Text): (id: Option<nat>)
    requires forall i :: 0 <= i < |ids| ==> ids[i] in peers
    ensures id.Some? ==> id.value in peers && Awaits(peers[id.value], key)
    ensures id.None? ==> forall i :: 0 <= i < |ids| ==> !Awaits(peers[ids[i]], key)
  {
    if ids == [] then None
    else if Awaits(peers[ids[0]], key) then Some(ids[0])
    else FirstAwaiting(peers, ids[1..], key)
  }

  lemma {:induction false} EchoLinksFirst(r: Routed, ids: seq<nat>, f: UdpFrame, key: Text, from: Endpoint)
    requires forall i :: 0 <= i < |ids| ==> ids[i] in r.peers
    requires IsKeyEcho(f, key) && !r.done
    ensures var id := FirstAwaiting(r.peers, ids, key);
            TryLinkOf(r, ids, f, from) ==
            if id.None? then r
            else Routed(r.peers[id.value := LinkedPeer(r.peers[id.value], from)], r.cmds,
                        r.sends + TcpSends(id.value, IdentifiedUdp()), true)
    decreases |ids|
  {
    hide LinkOne, Awaits, IsKeyEcho, LinkedPeer, IdentifiedUdp, TcpSends;
    if ids != [] {
      EchoOffered(r, ids[0], f, key, from);
      var r' := LinkOne(r, ids[0], f, from);
      if Awaits(r.peers[ids[0]], key) {
        assert TryLinkOf(r', ids[1..], f, from) == r';
      } else {
        EchoLinksFirst(r, ids[1..], f, key, from);
      }
    }
  }

  /** In increasing order, the first that awaits the key is the least that does. */
  lemma {:induction false} FirstIsLeast(peers: map<nat, Peer>, ids: seq<nat>, key: Text)
    requires forall i :: 0 <= i < |ids| ==> ids[i] in peers
    requires forall i, j :: 0 <= i < j < |ids| ==> ids[i] < ids[j]
    ensures var id := FirstAwaiting(peers, ids, key);
            id.Some? ==> id.value in ids && forall k :: k in ids && Awaits(peers[k], key) ==> id.value <= k
  {
    hide Awaits;
    if ids != [] && !Awaits(peers[ids[0]], key) {
      FirstIsLeast(peers, ids[1..], key);
      assert forall k :: k in ids ==> k == ids[0] || k in ids[1..];
    }
  }

  /**
   A key echo links exactly the lowest session that is live, unlinked and has that
   key, sends it IDENTIFIED_UDP and remembers the endpoint; no other session
   changes, nothing is queued, and without such a session nothing happens at all.
   */
  lemma {:induction false} EchoLinksLowest(peers: map<nat, Peer>, f: UdpFrame, key: Text, from: Endpoint)
    requires IsKeyEcho(f, key)
    ensures var r := TryLinkOf(Routed(peers, [], [], false), Ascending(peers.Keys), f, from);
            && (r.done <==> exists k :: k in peers && Awaits(peers[k], key))
            && (r.done ==> exists id ::
                  && id in peers && Awaits(peers[id], key)
                  && (forall k :: k in peers && Awaits(peers[k], key) ==> id <= k)
                  && r == Routed(peers[id := LinkedPeer(peers[id], from)], [], TcpSends(id, IdentifiedUdp()), true))
            && (!r.done ==> r == Routed(peers, [], [], false))
  {
    hide TryLinkOf, Awaits, IsKeyEcho, LinkedPeer, IdentifiedUdp, TcpSends, FirstAwaiting, Ascending;
    var ids := Ascending(peers.Keys);
    AscendingFacts(peers.Keys);
    EchoLinksFirst(Routed(peers, [], [], false), ids, f, key, from);
    FirstIsLeast(peers, ids, key);
    var first := FirstAwaiting(peers, ids, key);
    if first.Some? {
      assert [] + TcpSends(first.value, IdentifiedUdp()) == TcpSends(first.value, IdentifiedUdp());
      assert Awaits(peers[first.value], key);
    } else {
      forall k | k in peers ensures !Awaits(peers[k], key) {
        var i :| 0 <= i < |ids| && ids[i] == k;
      }
    }
  }

  // ---- Packets of linked clients --------------------------------------------------------------------

  /** A packet means nothing to a client that is linked already, closed, or not asked by it for anything. */
  ghost predicate Deaf(p: Peer, f: UdpFrame) {
    || p.conn.udpLinked || p.conn.state == Closed
    || (&& f.opcode != Opcodes.D_HANDSHAKE && f.opcode != Opcodes.CLIENT_PING
        && (IsGameOpcode(f.opcode) ==> p.conn.state != InGame) && !IsKeyEcho(f, p.conn.key))
  }

  ghost predicate AllDeaf(peers: map<nat, Peer>, f: Option<UdpFrame>) {
    f.Some? ==> forall id :: id in peers ==> Deaf(peers[id], f.value)
  }

  lemma {:induction false} DeafOffered(r: Routed, id: nat, f: UdpFrame, from: Endpoint)
    requires id in r.peers && Deaf(r.peers[id], f) && !r.done
    ensures LinkOne(r, id, f, from) == r
  {
    hide ReadKeyEcho;
    var p := r.peers[id];
    assert p == Peer(p.conn, p.udpAddr) && r.peers[id := p] == r.peers;
    assert r.cmds + [] == r.cmds && r.sends + [] + UdpSends(from, [], []) == r.sends;
  }

  lemma {:induction false} NothingToLink(r: Routed, ids: seq<nat>, f: UdpFrame, from: Endpoint)
    requires AllDeaf(r.peers, Some(f)) && forall i :: 0 <= i < |ids| ==> ids[i] in r.peers
    ensures TryLinkOf(r, ids, f, from) == r
    decreases |ids|
  {
    hide LinkOne, Deaf;
    if ids != [] && !r.done {
      DeafOffered(r, ids[0], f, from);
      NothingToLink(r, ids[1..], f, from);
    }
  }

  /** The lowest session at an endpoint, in increasing order of ids. */
  lemma {:induction false} FirstAtIsLowest(peers: map<nat, Peer>, ids: seq<nat>, from: Endpoint)
    requires forall i :: 0 <= i < |ids| ==> ids[i] in peers
    requires forall i, j :: 0 <= i < j < |ids| ==> ids[i] < ids[j]
    ensures var id := FirstAt(peers, ids, from);
            && (id.None? ==> forall k :: k in ids ==> peers[k].udpAddr != Some(from))
            && (id.Some? ==> id.value in ids && peers[id.value].udpAddr == Some(from)
                             && forall k :: k in ids && peers[k].udpAddr == Some(from) ==> id.value <= k)
  {
    if ids != [] && peers[ids[0]].udpAddr != Some(from) {
      FirstAtIsLowest(peers, ids[1..], from);
      assert forall k :: k in ids ==> k == ids[0] || k in ids[1..];
    }
  }

  /**
   What a linked client means by a datagram, if anything: opcode and body, possibly
   behind the datagram's own length; else, if that is no known packet, opcode and
   body behind a sequence number.
   */
  function MeantBy(data: seq<Byte>): Option<UdpFrame> {
    var prefixed := |data| > 2 && 0x100 * (data[0] as int) + data[1] == |data|;
    if prefixed && Opcodes.IsKnownOpcode(data[2]) then Some(UdpFrame(0, data[2], data[3..]))
    else if !prefixed && data != [] && Opcodes.IsKnownOpcode(data[0]) then Some(UdpFrame(0, data[0], data[1..]))
    else if |data| >= 3 && Opcodes.IsKnownOpcode(data[2]) then
      Some(UdpFrame(0x100 * (data[0] as int) + data[1], data[2], data[3..]))
    else None
  }

  lemma {:induction false} OnePiece(data: seq<Byte>)
    requires data != [] && data[0] != Opcodes.HELLO && data[0] != Opcodes.HELLO_THERE
    ensures Split(data) == [data]
  {
    assert FirstUdpPacketLength(data) == |data|;
    assert data[..|data|] == data && data[|data|..] == [];
    assert Split([]) == [];
  }

  /** No client that is not linked has to do with the datagram, whichever way it is read. */
  ghost predicate NobodyLinks(peers: map<nat, Peer>, data: seq<Byte>) {
    AllDeaf(peers, DecodeUdpFrame(data)) && AllDeaf(peers, DecodeRawUdpPayload(data))
  }

  /** Then it is taken by the routing alone. */
  lemma {:induction false} OnlyRouted(r: Routed, data: seq<Byte>, from: Endpoint)
    requires NobodyLinks(r.peers, data)
    ensures PacketOf(r, data, from)
            == RouteStage(RouteStage(r.(done := false), DecodeRawUdpPayload(data), from), DecodeUdpFrame(data), from)
  {
    hide Deaf, LinkOne, RouteStage, Ascending, DecodeUdpFrame, DecodeRawUdpPayload, TryLinkOf;
    var sequenced, raw := DecodeUdpFrame(data), DecodeRawUdpPayload(data);
    var r0 := r.(done := false);
    if sequenced.Some? {
      NothingToLink(r0, Ascending(r.peers.Keys), sequenced.value, from);
    }
    if raw.Some? {
      NothingToLink(r0, Ascending(r.peers.Keys), raw.value, from);
    }
  }

  lemma {:induction false} RouteDelivers(r: Routed, f: UdpFrame, from: Endpoint, id: nat)
    requires id in r.peers && r.peers[id].udpAddr == Some(from)
    requires forall k :: k in r.peers && r.peers[k].udpAddr == Some(from) ==> id <= k
    ensures var s := UdpStep(r.peers[id].conn, f.opcode, f.body);
            RouteOf(r, f, from)
            == if Opcodes.IsKnownOpcode(f.opcode)
               then Routed(r.peers[id := r.peers[id].(conn := s.conn)], r.cmds + s.cmds,
                           r.sends + TcpSends(id, s.tcpOut) + UdpSends(from, s.udpOut, s.datagrams), true)
               else r
  {
    hide UdpStep, Opcodes.IsKnownOpcode, Ascending;
    AscendingFacts(r.peers.Keys);
    FirstAtIsLowest(r.peers, Ascending(r.peers.Keys), from);
  }

  lemma {:induction false} OnePacket(r: Routed, data: seq<Byte>, from: Endpoint)
    ensures PacketsOf(r, [data], from) == PacketOf(r, data, from)
  {
    assert [data][..0] == [];
    assert PacketsOf(r, [], from) == r;
  }

  lemma {:induction false} DecodedAs(data: seq<Byte>)
    requires data != []
    ensures var (raw, sequenced, meant) := (DecodeRawUdpPayload(data), DecodeUdpFrame(data), MeantBy(data));
            && raw.Some?
            && meant == (if Opcodes.IsKnownOpcode(raw.value.opcode) then raw
                         else if sequenced.Some? && Opcodes.IsKnownOpcode(sequenced.value.opcode) then sequenced
                         else None)
  {
    hide Opcodes.IsKnownOpcode;
    if |data| >= 3 {
      assert data[2..][0] == data[2] && data[2..][1..] == data[3..];
    }
  }

  /**
   A packet of a linked client: unless it means something to a client that is not linked,
   a datagram that is no HELLO goes to the lowest session at the endpoint it came from,
   if it is a known packet. That session takes exactly one step of the protocol, its commands
   are queued, its TCP output goes to its socket and its UDP output back to that
   endpoint, in order; nothing else changes.
   */
  lemma {:induction false} LinkedPacketTaken(r: Routed, data: seq<Byte>, from: Endpoint, id: nat)
    requires NobodyLinks(r.peers, data)
    requires data != [] && data[0] != Opcodes.HELLO && data[0] != Opcodes.HELLO_THERE && MeantBy(data).Some?
    requires id in r.peers && r.peers[id].udpAddr == Some(from)
    requires forall k :: k in r.peers && r.peers[k].udpAddr == Some(from) ==> id <= k
    ensures var r' := PacketsOf(r, Split(data), from);
            var s := UdpStep(r.peers[id].conn, MeantBy(data).value.opcode, MeantBy(data).value.body);
            && r'.peers == r.peers[id := Peer(s.conn, Some(from))] && r'.cmds == r.cmds + s.cmds
            && (forall k :: SocketBytes(r'.sends, k) == SocketBytes(r.sends, k) + if k == id then s.tcpOut else [])
            && (forall e :: DatagramsTo(r'.sends, e)
                            == DatagramsTo(r.sends, e) + if e == from then Filled([s.udpOut] + s.datagrams) else [])
  {
    hide UdpStep, Opcodes.IsKnownOpcode, PacketOf, RouteOf, Split, MeantBy, DecodeRawUdpPayload, DecodeUdpFrame,
      SocketBytes, DatagramsTo, UdpSends, TcpSends, Filled;
    OnePiece(data);
    OnePacket(r, data, from);
    OnlyRouted(r, data, from);
    DecodedAs(data);
    var r0, f := r.(done := false), MeantBy(data).value;
    RouteDelivers(r0, DecodeRawUdpPayload(data).value, from, id);
    RouteDelivers(r0, f, from, id);
    var s := UdpStep(r.peers[id].conn, f.opcode, f.body);
    var tcp, udp := TcpSends(id, s.tcpOut), UdpSends(from, s.udpOut, s.datagrams);
    ConcatAssoc(r.sends, tcp, udp);
    forall k ensures SocketBytes(r.sends + tcp + udp, k) == SocketBytes(r.sends, k) + if k == id then s.tcpOut else [] {
      StepSends(r.sends, id, s.tcpOut, from, s.udpOut, s.datagrams, k);
    }
    forall e ensures DatagramsTo(r.sends + tcp + udp, e)
                     == DatagramsTo(r.sends, e) + if e == from then Filled([s.udpOut] + s.datagrams) else []
    {
      DatagramsConcat(r.sends, tcp + udp, e);
      StepDatagrams(id, s.tcpOut, from, s.udpOut, s.datagrams, e);
    }
  }

  /** Any other datagram changes nothing: one that is no known packet, or one from an endpoint nobody has. */
  lemma {:induction false} OtherPacketIgnored(r: Routed, data: seq<Byte>, from: Endpoint)
    requires NobodyLinks(r.peers, data)
    requires data != [] && data[0] != Opcodes.HELLO && data[0] != Opcodes.HELLO_THERE
    requires MeantBy(data).None? || forall k :: k in r.peers ==> r.peers[k].udpAddr != Some(from)
    ensures PacketsOf(r, Split(data), from) == r.(done := false)
  {
    hide UdpStep, Opcodes.IsKnownOpcode, PacketOf, RouteOf, Split, MeantBy, DecodeRawUdpPayload, DecodeUdpFrame;
    OnePiece(data);
    OnePacket(r, data, from);
    OnlyRouted(r, data, from);
    DecodedAs(data);
    var r0 := r.(done := false);
    UnknownIgnored(r0, DecodeRawUdpPayload(data).value, from);
    if DecodeUdpFrame(data).Some? {
      UnknownIgnored(r0, DecodeUdpFrame(data).value, from);
    }
  }

  lemma {:induction false} UnknownIgnored(r: Routed, f: UdpFrame, from: Endpoint)
    requires !Opcodes.IsKnownOpcode(f.opcode) || forall k :: k in r.peers ==> r.peers[k].udpAddr != Some(from)
    ensures RouteOf(r, f, from) == r
  {
    hide UdpStep, Opcodes.IsKnownOpcode, Ascending;
  }

  // ---- Packets of clients that are not linked --------------------------------------------------------

  /** It waits for its link and can still answer. */
  predicate Open(p: Peer) {
    !p.conn.udpLinked && p.conn.state != Closed
  }

  lemma {:induction false} OpenAnswers(r: Routed, id: nat, f: UdpFrame, from: Endpoint)
    requires id in r.peers && Open(r.peers[id]) && !r.done
    requires f.opcode == Opcodes.D_HANDSHAKE || f.opcode == Opcodes.CLIENT_PING
    ensures var s := UdpStep(r.peers[id].conn, f.opcode, f.body);
            && s.cmds == [] && s.tcpOut == [] && s.udpOut == [] && s.datagrams != []
            && LinkOne(r, id, f, from) == Routed(r.peers, r.cmds, r.sends + UdpSends(from, [], s.datagrams), true)
  {
    hide ReadKeyEcho, UdpPong;
    var p := r.peers[id];
    assert p == Peer(p.conn, p.udpAddr) && r.peers[id := p] == r.peers;
    assert r.cmds + [] == r.cmds && r.sends + [] == r.sends;
  }

  lemma {:induction false} FirstOpenAnswers(r: Routed, ids: seq<nat>, id: nat, f: UdpFrame, from: Endpoint)
    requires (forall i :: 0 <= i < |ids| ==> ids[i] in r.peers) && id in ids && Open(r.peers[id]) && !r.done
    requires forall i, j :: 0 <= i < j < |ids| ==> ids[i] < ids[j]
    requires forall k :: k in r.peers && Open(r.peers[k]) ==> id <= k
    requires f.opcode == Opcodes.D_HANDSHAKE || f.opcode == Opcodes.CLIENT_PING
    ensures TryLinkOf(r, ids, f, from)
            == Routed(r.peers, r.cmds,
                      r.sends + UdpSends(from, [], UdpStep(r.peers[id].conn, f.opcode, f.body).datagrams), true)
    decreases |ids|
  {
    hide LinkOne, UdpStep, UdpSends;
    if ids[0] == id {
      OpenAnswers(r, id, f, from);
    } else {
      assert id in ids[1..];
      DeafOffered(r, ids[0], f, from);
      FirstOpenAnswers(r, ids[1..], id, f, from);
    }
  }

  /**
   A UDP handshake or ping, sent raw, while some session waits for its link: the lowest
   open one of these answers it to the sender as the protocol says, whoever that is;
   no session changes and nothing else is sent or queued.
   */
  lemma {:induction false} LowestOpenAnswers(r: Routed, data: seq<Byte>, from: Endpoint, id: nat)
    requires data != [] && (data[0] == Opcodes.D_HANDSHAKE || data[0] == Opcodes.CLIENT_PING)
    requires |data| > 2 ==> 0x100 * (data[0] as int) + data[1] != |data|
    requires AllDeaf(r.peers, DecodeUdpFrame(data))
    requires id in r.peers && Open(r.peers[id]) && forall k :: k in r.peers && Open(r.peers[k]) ==> id <= k
    ensures var (r', s) := (PacketsOf(r, Split(data), from), UdpStep(r.peers[id].conn, data[0], data[1..]));
            && r'.peers == r.peers && r'.cmds == r.cmds
            && (forall k :: SocketBytes(r'.sends, k) == SocketBytes(r.sends, k))
            && (forall e :: DatagramsTo(r'.sends, e)
                            == DatagramsTo(r.sends, e) + if e == from then Filled(s.datagrams) else [])
  {
    hide UdpStep, PacketOf, Split, TryLinkOf, DecodeUdpFrame, Ascending, Deaf, SocketBytes, DatagramsTo, Filled,
      DatagramSends;
    OnePiece(data);
    OnePacket(r, data, from);
    AscendingFacts(r.peers.Keys);
    var r0, f := r.(done := false), UdpFrame(0, data[0], data[1..]);
    var s := UdpStep(r.peers[id].conn, data[0], data[1..]);
    FirstOpenAnswers(r0, Ascending(r.peers.Keys), id, f, from);
    AnsweredFirst(r, data, from, f);
    forall k ensures SocketBytes(r.sends + UdpSends(from, [], s.datagrams), k) == SocketBytes(r.sends, k) {
      StepSends(r.sends, id, [], from, [], s.datagrams, k);
      assert r.sends + TcpSends(id, []) == r.sends && SocketBytes(r.sends, k) + [] == SocketBytes(r.sends, k);
    }
    forall e ensures DatagramsTo(r.sends + UdpSends(from, [], s.datagrams), e)
                     == DatagramsTo(r.sends, e) + if e == from then Filled(s.datagrams) else []
    {
      assert [] + DatagramSends(from, s.datagrams) == DatagramSends(from, s.datagrams);
      DatagramsConcat(r.sends, DatagramSends(from, s.datagrams), e);
      DatagramsSent(from, s.datagrams, e);
    }
  }

  /** What the raw reading of a packet reaches on its way to the clients that are not linked. */
  lemma {:induction false} AnsweredFirst(r: Routed, data: seq<Byte>, from: Endpoint, f: UdpFrame)
    requires AllDeaf(r.peers, DecodeUdpFrame(data)) && DecodeRawUdpPayload(data) == Some(f)
    ensures var r' := TryLinkOf(r.(done := false), Ascending(r.peers.Keys), f, from);
            r'.done ==> PacketOf(r, data, from) == r'
  {
    hide Deaf, LinkOne, RouteOf, Ascending, DecodeUdpFrame, DecodeRawUdpPayload, TryLinkOf;
    if DecodeUdpFrame(data).Some? {
      NothingToLink(r.(done := false), Ascending(r.peers.Keys), DecodeUdpFrame(data).value, from);
    }
  }

  // ---- The echo as a datagram ------------------------------------------------------------------------

  lemma {:induction false} EchoRouted(r: Routed, f: UdpFrame, key: Text, from: Endpoint)
    requires IsKeyEcho(f, key) && forall k :: k in r.peers && r.peers[k].udpAddr.Some? ==> r.peers[k].conn.udpLinked
    ensures RouteOf(r, f, from).(done := false) == r.(done := false)
  {
    hide ReadKeyEcho, Ascending, Opcodes.IsKnownOpcode;
    var id := FirstAt(r.peers, Ascending(r.peers.Keys), from);
    if id.Some? {
      var p := r.peers[id.value];
      EchoIdle(p.conn, f, key);
      assert p == p.(conn := p.conn) && r.peers[id.value := p] == r.peers;
      assert r.cmds + [] == r.cmds && r.sends + TcpSends(id.value, []) + UdpSends(from, [], []) == r.sends;
    }
  }

  lemma {:induction false} EchoIdle(c: Conn, f: UdpFrame, key: Text)
    requires IsKeyEcho(f, key) && c.udpLinked
    ensures var s := UdpStep(c, f.opcode, f.body);
            s.conn == c && s.cmds == [] && s.tcpOut == [] && s.udpOut == [] && s.datagrams == []
  {
    hide ReadKeyEcho;
  }

  /**
   The datagram with which a client echoes a key: it links exactly the lowest
   session that is live, unlinked and has that key, sends it IDENTIFIED_UDP and
   remembers where the datagram came from; without such a session nothing changes.
   */
  lemma {:induction false} EchoDatagramLinks(peers: map<nat, Peer>, data: seq<Byte>, key: Text, from: Endpoint)
    requires forall k :: k in peers && peers[k].udpAddr.Some? ==> peers[k].conn.udpLinked
    requires |data| >= 4 && data[0] == Opcodes.HELLO && data[1] == HELLO_SUB_CONFIG && data[2] <= 1
    requires |data| == 0x100 * (data[2] as int) + data[3] + 4 && |data| < 0x1000
    requires ReadKeyEcho(data[1..]) == Some(key)
    ensures var r := PacketsOf(Routed(peers, [], [], false), Split(data), from);
            && r.cmds == []
            && ((exists k :: k in peers && Awaits(peers[k], key)) ==> exists id ::
                  && id in peers && Awaits(peers[id], key)
                  && (forall k :: k in peers && Awaits(peers[k], key) ==> id <= k)
                  && r.peers == peers[id := LinkedPeer(peers[id], from)] && r.sends == TcpSends(id, IdentifiedUdp()))
            && ((forall k :: k in peers ==> !Awaits(peers[k], key)) ==> r.peers == peers && r.sends == [])
  {
    hide TryLinkOf, RouteOf, Awaits, LinkedPeer, IdentifiedUdp, TcpSends, Ascending, Split, PacketOf, ReadKeyEcho,
      Opcodes.IsKnownOpcode;
    var r0 := Routed(peers, [], [], false);
    var sequenced, raw := UdpFrame(FromBigEndian(data), data[2], data[3..]), UdpFrame(0, data[0], data[1..]);
    WholeEcho(data);
    OnePacket(r0, data, from);
    AscendingFacts(peers.Keys);
    NothingToLink(r0, Ascending(peers.Keys), sequenced, from);
    EchoLinksLowest(peers, raw, key, from);
    EchoRouted(r0, raw, key, from);
    EchoStages(r0, data, from, raw, sequenced);
    UnroutedIfUnknown(r0, sequenced, from, raw);
  }

  lemma {:induction false} WholeEcho(data: seq<Byte>)
    requires |data| >= 4 && data[0] == Opcodes.HELLO && data[1] == HELLO_SUB_CONFIG
    requires |data| == 0x100 * (data[2] as int) + data[3] + 4 && |data| < 0x1000
    ensures Split(data) == [data]
    ensures DecodeUdpFrame(data) == Some(UdpFrame(FromBigEndian(data), data[2], data[3..]))
    ensures DecodeRawUdpPayload(data) == Some(UdpFrame(0, data[0], data[1..]))
  {
    assert data[2..][0] == data[2] && data[2..][1] == data[3];
    assert FirstUdpPacketLength(data) == |data|;
    assert data[..|data|] == data && data[|data|..] == [] && Split([]) == [];
  }

  lemma {:induction false} EchoStages(r: Routed, data: seq<Byte>, from: Endpoint, raw: UdpFrame, sequenced: UdpFrame)
    requires !r.done && DecodeUdpFrame(data) == Some(sequenced) && DecodeRawUdpPayload(data) == Some(raw)
    requires TryLinkOf(r, Ascending(r.peers.Keys), sequenced, from) == r
    ensures var linked := TryLinkOf(r, Ascending(r.peers.Keys), raw, from);
            PacketOf(r, data, from)
            == if linked.done then linked
               else RouteStage(RouteOf(linked, raw, from), Some(sequenced), from)
  {
    hide TryLinkOf, RouteOf, Ascending, DecodeUdpFrame, DecodeRawUdpPayload;
    assert r.(done := false) == r;
  }

  /** Nobody at the endpoint of the echo: the other reading reaches nobody either. */
  lemma {:induction false} UnroutedIfUnknown(r: Routed, f: UdpFrame, from: Endpoint, first: UdpFrame)
    requires first.opcode == Opcodes.HELLO
    ensures !RouteOf(r, first, from).done ==> RouteOf(r, f, from) == r || r.done
  {
    hide UdpStep, Ascending;
    assert Opcodes.KNOWN[10] == Opcodes.HELLO;
  }
}
