/** The relay's datagram routing (server.py:957-1108, 1155-1246, 1259-1355):
    who is sent a game datagram or an ICMP message, the flow table that brings a
    host's reply back to the player it answers, and how a link gets its address
    (server.py:316-353, 805-815, 1155-1198). */
module UdpRouting {
  import opened Wire

  type Ip = nat     // 0: none
  type Port = nat   // 0: none
  type NodeId = nat // 0: none, or the relay itself

  const KNOWN_TTL := 120
  const LEARN_TTL := 60
  const FLOW_TTL := 120
  const TABLE_MAX := 2048

  /** A tunnel endpoint: a UDP address, or the identity of a UDP-over-TCP link. */
  datatype Addr = Udp(ip: Ip, port: Port) | Tun(w: nat)

  datatype Link = Link(w: nat, tcpIp: Ip, udpPort: Port, udpAddr: Option<Addr>, seenUdp: int, udpTcp: bool)
  datatype Node = Node(nid: NodeId, links: seq<Link>)

  datatype Known = Known(addr: Addr, seen: int)
  datatype Triple = Triple(gport: Port, cip: Ip, cport: Port)

  /** The destination a flow was recorded for: a node, or an address. */
  datatype Dest = ToNode(nid: NodeId) | ToAddr(addr: Addr)
  datatype Key = Key(dest: Dest, triple: Triple)
  datatype Flow = Flow(key: Key, player: Addr, seen: int)

  /** What happened to the flow table. */
  datatype Mark = Recorded(key: Key, player: Addr) | Cleared

  /** Tables are in their dictionaries' order; `marks` is the flow table's history. */
  datatype State = State(nodes: seq<Node>, known: seq<Known>, learned: map<(Addr, Port), Known>, flows: seq<Flow>, marks: seq<Mark>)

  datatype Message =
    | C2S(triple: Triple, allowed: bool)
    | P2P(dest: NodeId, triple: Triple, allowed: bool)
    | S2C(triple: Triple)
    | Icmp(request: bool, src: NodeId, dest: NodeId)

  // ---- the dictionaries ---------------------------------------------------------

  /** known_udp[addr] = now */
  function Hear(ks: seq<Known>, addr: Addr, now: int): seq<Known> {
    if ks == [] then [Known(addr, now)]
    else if ks[0].addr == addr then [Known(addr, now)] + ks[1..]
    else [ks[0]] + Hear(ks[1..], addr, now)
  }

  function FindFlow(fs: seq<Flow>, k: Key): (i: nat)
    ensures i <= |fs|
    ensures i < |fs| ==> fs[i].key == k
    ensures forall j | 0 <= j < i :: fs[j].key != k
  {
    if fs == [] then 0 else if fs[0].key == k then 0 else 1 + FindFlow(fs[1..], k)
  }

  function PlayerOf(fs: seq<Flow>, k: Key): Option<Addr> {
    var i := FindFlow(fs, k);
    if i < |fs| then Some(fs[i].player) else None
  }

  /** udp_flows[k] = [player, now] */
  function SetFlow(fs: seq<Flow>, k: Key, player: Addr, now: int): (r: seq<Flow>)
    ensures FindFlow(fs, k) < |fs| ==> r == fs[FindFlow(fs, k) := Flow(k, player, now)]
    ensures FindFlow(fs, k) == |fs| ==> r == fs + [Flow(k, player, now)]
  {
    var i := FindFlow(fs, k);
    if i < |fs| then fs[i := Flow(k, player, now)] else fs + [Flow(k, player, now)]
  }

  function Record(s: State, k: Key, player: Addr, now: int): State {
    s.(flows := SetFlow(s.flows, k, player, now), marks := s.marks + [Recorded(k, player)])
  }

  function RecordAll(s: State, dests: seq<Addr>, t: Triple, player: Addr, now: int): State {
    if dests == [] then s
    else Record(RecordAll(s, dests[..|dests| - 1], t, player, now), Key(ToAddr(dests[|dests| - 1]), t), player, now)
  }

  /** The overflow clear. */
  function Bounded(s: State): State {
    if |s.flows| > TABLE_MAX then s.(flows := [], marks := s.marks + [Cleared]) else s
  }

  // ---- endpoints --------------------------------------------------------------------

  /** link_endpoint, and the body of node_udp_addrs' loop. */
  function Endpoint(l: Link, now: int): Option<Addr> {
    if l.udpTcp then Some(Tun(l.w))
    else if l.udpAddr.Some? && now - l.seenUdp < KNOWN_TTL then l.udpAddr
    else if l.udpPort != 0 && l.tcpIp != 0 then Some(Udp(l.tcpIp, l.udpPort))
    else None
  }

  /** `a` joins the list unless it is there. */
  function Once(out: seq<Addr>, a: Option<Addr>): seq<Addr> {
    if a.None? || a.value in out then out else out + [a.value]
  }

  function Endpoints(ls: seq<Link>, now: int): seq<Addr> {
    if ls == [] then [] else Once(Endpoints(ls[..|ls| - 1], now), Endpoint(ls[|ls| - 1], now))
  }

  function NodeIndex(ns: seq<Node>, nid: NodeId): (i: nat)
    ensures i <= |ns|
    ensures i < |ns| ==> ns[i].nid == nid
    ensures forall j | 0 <= j < i :: ns[j].nid != nid
  {
    if ns == [] then 0 else if ns[0].nid == nid then 0 else 1 + NodeIndex(ns[1..], nid)
  }

  /** node_udp_addrs */
  function NodeAddrs(ns: seq<Node>, nid: NodeId, now: int): seq<Addr> {
    var i := NodeIndex(ns, nid);
    if i < |ns| then Endpoints(ns[i].links, now) else []
  }

  function Except(xs: seq<Addr>, a: Addr): seq<Addr> {
    if xs == [] then []
    else Except(xs[..|xs| - 1], a) + if xs[|xs| - 1] != a then [xs[|xs| - 1]] else []
  }

  /** The known endpoints heard recently, other than src. */
  function Recent(ks: seq<Known>, src: Addr, now: int): seq<Addr> {
    if ks == [] then []
    else
      var k := ks[|ks| - 1];
      Recent(ks[..|ks| - 1], src, now) + if k.addr != src && now - k.seen < KNOWN_TTL then [k.addr] else []
  }

  /** The UDP-over-TCP links, as they join the fan-out. */
  function WithTunnels(out: seq<Addr>, ls: seq<Link>, src: Addr): seq<Addr> {
    if ls == [] then out
    else
      var l := ls[|ls| - 1];
      var r := WithTunnels(out, ls[..|ls| - 1], src);
      if l.udpTcp && Tun(l.w) != src then Once(r, Some(Tun(l.w))) else r
  }

  function AllLinks(ns: seq<Node>): seq<Link> {
    if ns == [] then [] else AllLinks(ns[..|ns| - 1]) + ns[|ns| - 1].links
  }

  /** A sender's sticky replier, while fresh and not the sender itself. */
  predicate Sticky(s: State, gport: Port, src: Addr, now: int) {
    (src, gport) in s.learned && now - s.learned[(src, gport)].seen < LEARN_TTL && s.learned[(src, gport)].addr != src
  }

  /** udp_targets */
  function Targets(s: State, gport: Port, src: Addr, now: int): seq<Addr> {
    if Sticky(s, gport, src, now) then [s.learned[(src, gport)].addr]
    else WithTunnels(Recent(s.known, src, now), AllLinks(s.nodes), src)
  }

  function DropStale(s: State, gport: Port, src: Addr, now: int): State {
    if Sticky(s, gport, src, now) then s else s.(learned := s.learned - {(src, gport)})
  }

  // ---- who owns an address ---------------------------------------------------------------

  /** The links with their nodes, in order. */
  function Pairs(ns: seq<Node>): seq<(NodeId, Link)> {
    if ns == [] then []
    else
      var n := ns[|ns| - 1];
      Pairs(ns[..|ns| - 1]) + seq(|n.links|, i requires 0 <= i < |n.links| => (n.nid, n.links[i]))
  }

  /** The pair with this address seen last (the first such); -1 stands for none. */
  function Owner(ps: seq<(NodeId, Link)>, addr: Addr): Option<(NodeId, int)> {
    if ps == [] then None
    else
      var r, p := Owner(ps[..|ps| - 1], addr), ps[|ps| - 1];
      if p.1.udpAddr == Some(addr) && p.1.seenUdp > (if r.Some? then r.value.1 else -1) then Some((p.0, p.1.seenUdp)) else r
  }

  function Declarer(ps: seq<(NodeId, Link)>, addr: Addr): Option<NodeId> {
    if ps == [] then None
    else if ps[0].1.udpPort != 0 && ps[0].1.tcpIp != 0 && Udp(ps[0].1.tcpIp, ps[0].1.udpPort) == addr then Some(ps[0].0)
    else Declarer(ps[1..], addr)
  }

  /** node_by_udp_addr */
  function NodeByAddr(ns: seq<Node>, addr: Addr): Option<NodeId> {
    var o := Owner(Pairs(ns), addr);
    if o.Some? then Some(o.value.0) else Declarer(Pairs(ns), addr)
  }

  // ---- record_udp_proof --------------------------------------------------------------------

  function FirstUnseen(ls: seq<Link>): (i: nat)
    ensures i <= |ls|
  {
    if ls == [] || ls[0].udpAddr.None? then 0 else 1 + FirstUnseen(ls[1..])
  }

  function Stalest(ls: seq<Link>): (i: nat)
    requires ls != []
    ensures i < |ls|
  {
    if |ls| == 1 then 0
    else
      var i := Stalest(ls[..|ls| - 1]);
      if ls[|ls| - 1].seenUdp < ls[i].seenUdp then |ls| - 1 else i
  }

  function Attach(ls: seq<Link>, addr: Addr, now: int): (r: seq<Link>)
    ensures |r| == |ls|
  {
    if ls == [] || exists l <- ls :: l.udpAddr == Some(addr) then ls
    else
      var i := if FirstUnseen(ls) < |ls| then FirstUnseen(ls) else Stalest(ls);
      ls[i := ls[i].(udpAddr := Some(addr), seenUdp := now)]
  }

  function Prove(s: State, addr: Addr, now: int): State {
    var o := NodeByAddr(s.nodes, addr);
    if o.None? || NodeIndex(s.nodes, o.value) == |s.nodes| then s
    else
      var i := NodeIndex(s.nodes, o.value);
      s.(nodes := s.nodes[i := s.nodes[i].(links := Attach(s.nodes[i].links, addr, now))], known := Hear(s.known, addr, now))
  }

  // ---- registrations, announcements, UDP-over-TCP mode ------------------------------------------

  /** The first link that passes. */
  function First(ls: seq<Link>, p: Link -> bool): (i: nat)
    ensures i <= |ls| && (i < |ls| ==> p(ls[i]))
    ensures forall j | 0 <= j < i :: !p(ls[j])
  {
    if ls == [] || p(ls[0]) then 0 else 1 + First(ls[1..], p)
  }

  function LinkIndex(ls: seq<Link>, w: nat): nat {
    First(ls, (l: Link) => l.w == w)
  }

  /** Does registering this port give the link a new address? */
  predicate Readdresses(l: Link, port: Port) {
    port != 0 && (l.udpPort != port || l.udpAddr.None?)
  }

  /** A link record after register_node; moded: its UDP-over-TCP switch came first. */
  function Refreshed(l: Link, ip: Ip, port: Port, moded: bool, now: int): Link {
    var l1 := if Readdresses(l, port) then l.(tcpIp := ip, udpPort := port, udpAddr := Some(Udp(ip, port)), seenUdp := now)
              else l.(tcpIp := ip);
    if moded then l1.(udpTcp := true) else l1
  }

  /** The record of connection w, made if it is new. */
  function LinkOf(ls: seq<Link>, w: nat): Link {
    if LinkIndex(ls, w) < |ls| then ls[LinkIndex(ls, w)] else Link(w, 0, 0, None, 0, false)
  }

  function LinksOf(ns: seq<Node>, nid: NodeId): seq<Link> {
    if NodeIndex(ns, nid) < |ns| then ns[NodeIndex(ns, nid)].links else []
  }

  function WithLinks(ns: seq<Node>, nid: NodeId, ls: seq<Link>): seq<Node> {
    if NodeIndex(ns, nid) < |ns| then ns[NodeIndex(ns, nid) := Node(nid, ls)] else ns + [Node(nid, ls)]
  }

  function PutLink(ls: seq<Link>, l: Link): seq<Link> {
    if LinkIndex(ls, l.w) < |ls| then ls[LinkIndex(ls, l.w) := l] else ls + [l]
  }

  /** An accepted registration, as far as routing sees it. */
  function OnRegister(s: State, w: nat, nid: NodeId, ip: Ip, port: Port, moded: bool, now: int): State {
    var ls := LinksOf(s.nodes, nid);
    var l := LinkOf(ls, w);
    s.(nodes := WithLinks(s.nodes, nid, PutLink(ls, Refreshed(l, ip, port, moded, now))),
       known := if Readdresses(l, port) then Hear(s.known, Udp(ip, port), now) else s.known)
  }

  predicate SameIp(l: Link, addr: Addr) {
    addr.Udp? && l.tcpIp == addr.ip
  }

  /** The link of that IP heard longest ago (the first such). */
  function StalestAt(ls: seq<Link>, addr: Addr): (r: Option<nat>)
    ensures r.Some? ==> r.value < |ls|
  {
    if ls == [] then None
    else
      var n := |ls| - 1;
      var r := StalestAt(ls[..n], addr);
      if SameIp(ls[n], addr) && (r.None? || ls[n].seenUdp < ls[r.value].seenUdp) then Some(n) else r
  }

  /** The link an announced endpoint joins: the one that declared it, else one of that
      IP not heard yet, else the stalest of that IP, else the first. */
  function AnnounceTarget(ls: seq<Link>, addr: Addr): (i: nat)
    requires ls != []
    ensures i < |ls|
  {
    var declared := First(ls, (l: Link) => SameIp(l, addr) && l.udpPort == addr.port);
    var unheard := First(ls, (l: Link) => SameIp(l, addr) && l.udpAddr.None?);
    if declared < |ls| then declared
    else if unheard < |ls| then unheard
    else if StalestAt(ls, addr).Some? then StalestAt(ls, addr).value
    else 0
  }

  function Announced(ls: seq<Link>, addr: Addr, now: int): seq<Link>
    requires ls != []
  {
    var i := AnnounceTarget(ls, addr);
    ls[i := ls[i].(udpAddr := Some(addr), seenUdp := now)]
  }

  /** A U_NODE datagram from addr, with a valid token. */
  function OnAnnounce(s: State, nid: NodeId, addr: Addr, now: int): State {
    var ls := LinksOf(s.nodes, nid);
    if ls == [] then s
    else s.(nodes := WithLinks(s.nodes, nid, Announced(ls, addr, now)), known := Hear(s.known, addr, now))
  }

  /** T_UDP_MODE on a connection registered under nid. */
  function OnMode(s: State, w: nat, nid: NodeId): State {
    var ls := LinksOf(s.nodes, nid);
    if LinkIndex(ls, w) == |ls| then s
    else s.(nodes := WithLinks(s.nodes, nid, PutLink(ls, LinkOf(ls, w).(udpTcp := true))))
  }

  // ---- the flow a reply follows -----------------------------------------------------------------

  /** The entry of the replying address, or of its node. */
  function Exact(s: State, t: Triple, src: Addr): (i: nat)
    ensures i <= |s.flows|
  {
    var i := FindFlow(s.flows, Key(ToAddr(src), t));
    var o := NodeByAddr(s.nodes, src);
    if i < |s.flows| || o.None? then i else FindFlow(s.flows, Key(ToNode(o.value), t))
  }

  /** The freshest unexpired entry of the triple (the first such), whatever its destination. */
  function Freshest(fs: seq<Flow>, t: Triple, now: int): Option<nat> {
    if fs == [] then None
    else
      var n := |fs| - 1;
      var r := Freshest(fs[..n], t, now);
      if fs[n].key.triple == t && now - fs[n].seen < FLOW_TTL && fs[n].seen > -1
         && (r.Some? && r.value < n ==> fs[n].seen > fs[r.value].seen)
      then Some(n) else r
  }

  function ReplyFlow(s: State, t: Triple, src: Addr, now: int): Option<nat> {
    if Exact(s, t, src) < |s.flows| then Some(Exact(s, t, src)) else Freshest(s.flows, t, now)
  }

  // ---- handle_udp_payload --------------------------------------------------------------------------

  /** The new state and the addresses sent a copy, in order. */
  function OnC2S(s0: State, src: Addr, t: Triple, allowed: bool, now: int): (State, seq<Addr>) {
    var s := Prove(s0, src, now);
    if !allowed then (s, [])
    else
      var s1 := s.(known := Hear(s.known, src, now));
      var dests := Targets(s1, t.gport, src, now);
      var s2 := DropStale(s1, t.gport, src, now);
      if dests == [] then (s2, []) else (Bounded(RecordAll(s2, dests, t, src, now)), dests)
  }

  function OnP2P(s: State, src: Addr, dest: NodeId, t: Triple, allowed: bool, now: int): (State, seq<Addr>) {
    if !allowed then (s, [])
    else
      var first := Except(NodeAddrs(s.nodes, dest, now), src);
      var s1 := if first == [] then Prove(s, src, now) else s;
      var taddrs := if first == [] then Except(NodeAddrs(s1.nodes, dest, now), src) else first;
      if taddrs == [] then (s1, [])
      else (Bounded(Record(s1.(known := Hear(s1.known, src, now)), Key(ToNode(dest), t), src, now)), taddrs)
  }

  function OnS2C(s0: State, src: Addr, t: Triple, now: int): (State, seq<Addr>) {
    var s := Prove(s0, src, now);
    var r := ReplyFlow(s, t, src, now);
    if r.None? || r.value >= |s.flows| then (s, [])
    else
      var f := s.flows[r.value];
      if now - f.seen > FLOW_TTL || f.player == src then (s, [])
      else
        var learned := s.learned[(f.player, t.gport) := Known(src, now)];
        (s.(flows := s.flows[r.value := f.(seen := now)], learned := if |learned| > TABLE_MAX then map[] else learned), [f.player])
  }

  function OnIcmp(s: State, src: Addr, request: bool, claimed: NodeId, dest: NodeId, now: int): (State, seq<Addr>) {
    var o := NodeByAddr(s.nodes, src);
    var from := if o.Some? then o.value else claimed;
    if (o.None? && claimed == 0) || (dest == 0 && !request) || (dest != 0 && dest == from) then (s, [])
    else
      var heard := s.(known := Hear(s.known, src, now));
      if dest == 0 then (heard, [src]) // the relay's own echo reply
      else
        var taddrs := Except(NodeAddrs(s.nodes, dest, now), src);
        if taddrs == [] then (s, []) else (heard, taddrs)
  }

  function Handle(s: State, src: Addr, m: Message, now: int): (State, seq<Addr>) {
    match m
    case C2S(t, allowed) => OnC2S(s, src, t, allowed, now)
    case P2P(dest, t, allowed) => OnP2P(s, src, dest, t, allowed, now)
    case S2C(t) => OnS2C(s, src, t, now)
    case Icmp(request, claimed, dest) => OnIcmp(s, src, request, claimed, dest, now)
  }
}
