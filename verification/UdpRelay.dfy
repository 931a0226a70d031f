/** The relay's datagram handlers over its dictionaries, each proved to make the
    step of the routing functions (server.py:957-1108, 1205-1246, 1259-1355). */
module UdpRelay {
  import opened Wire
  import opened UdpRouting

  /** The pairs of one node's links. */
  function Own(n: Node, k: nat): (r: seq<(NodeId, Link)>)
    requires k <= |n.links|
    ensures |r| == k && forall i | 0 <= i < k :: r[i] == (n.nid, n.links[i])
  {
    seq(k, i requires 0 <= i < k => (n.nid, n.links[i]))
  }

  lemma PairsSnoc(ns: seq<Node>, i: nat)
    requires i < |ns|
    ensures Pairs(ns[..i + 1]) == Pairs(ns[..i]) + Own(ns[i], |ns[i].links|)
  {
    assert ns[..i + 1][..i] == ns[..i];
  }

  lemma OwnerSnoc(ps: seq<(NodeId, Link)>, p: (NodeId, Link), addr: Addr)
    ensures Owner(ps + [p], addr)
         == if p.1.udpAddr == Some(addr) && p.1.seenUdp > (if Owner(ps, addr).Some? then Owner(ps, addr).value.1 else -1)
            then Some((p.0, p.1.seenUdp)) else Owner(ps, addr)
  {
    assert (ps + [p])[..|ps|] == ps;
  }

  lemma {:induction false} DeclarerSnoc(ps: seq<(NodeId, Link)>, qs: seq<(NodeId, Link)>, addr: Addr)
    ensures Declarer(ps + qs, addr) == if Declarer(ps, addr).Some? then Declarer(ps, addr) else Declarer(qs, addr)
  {
    if ps == [] {
      assert ps + qs == qs;
    } else {
      assert (ps + qs)[1..] == ps[1..] + qs;
      DeclarerSnoc(ps[1..], qs, addr);
    }
  }

  class Router {
    var nodes: seq<Node>
    var known: seq<Known>
    var learned: map<(Addr, Port), Known>
    var flows: seq<Flow>
    ghost var marks: seq<Mark>

    ghost function View(): State
      reads this
    {
      State(nodes, known, learned, flows, marks)
    }

    constructor ()
      ensures View() == State([], [], map[], [], [])
    {
      nodes, known, learned, flows, marks := [], [], map[], [], [];
    }

    /** The first loop of node_by_udp_addr: the endpoint's link seen last. */
    method OwnerOf(addr: Addr) returns (best: Option<(NodeId, int)>)
      ensures best == Owner(Pairs(nodes), addr)
    {
      best := None;
      var i := 0;
      while i < |nodes|
        invariant 0 <= i <= |nodes| && best == Owner(Pairs(nodes[..i]), addr)
      {
        best := OwnerAmong(nodes[i], addr, best, Pairs(nodes[..i]));
        PairsSnoc(nodes, i);
        i := i + 1;
      }
      assert nodes[..i] == nodes;
    }

    method OwnerAmong(n: Node, addr: Addr, start: Option<(NodeId, int)>, ghost before: seq<(NodeId, Link)>)
      returns (best: Option<(NodeId, int)>)
      requires start == Owner(before, addr)
      ensures best == Owner(before + Own(n, |n.links|), addr)
    {
      best := start;
      var j := 0;
      assert before + Own(n, 0) == before;
      while j < |n.links|
        invariant 0 <= j <= |n.links| && best == Owner(before + Own(n, j), addr)
      {
        var l := n.links[j];
        OwnerSnoc(before + Own(n, j), (n.nid, l), addr);
        assert before + Own(n, j) + [(n.nid, l)] == before + Own(n, j + 1);
        if l.udpAddr == Some(addr) && l.seenUdp > (if best.Some? then best.value.1 else -1) {
          best := Some((n.nid, l.seenUdp));
        }
        j := j + 1;
      }
    }

    /** Its second loop: the first link that declared the address. */
    method DeclarerOf(addr: Addr) returns (nid: Option<NodeId>)
      ensures nid == Declarer(Pairs(nodes), addr)
    {
      var i := 0;
      while i < |nodes|
        invariant 0 <= i <= |nodes| && Declarer(Pairs(nodes[..i]), addr) == None
      {
        nid := DeclaredBy(nodes[i], addr);
        PairsSnoc(nodes, i);
        DeclarerSnoc(Pairs(nodes[..i]), Own(nodes[i], |nodes[i].links|), addr);
        if nid.Some? {
          FirstDeclarer(nodes, i + 1, addr);
          return;
        }
        i := i + 1;
      }
      assert nodes[..i] == nodes;
      return None;
    }

    method DeclaredBy(n: Node, addr: Addr) returns (nid: Option<NodeId>)
      ensures nid == Declarer(Own(n, |n.links|), addr)
    {
      var j := 0;
      while j < |n.links|
        invariant 0 <= j <= |n.links| && Declarer(Own(n, |n.links|), addr) == Declarer(Own(n, |n.links|)[j..], addr)
      {
        var l := n.links[j];
        if l.udpPort != 0 && l.tcpIp != 0 && Udp(l.tcpIp, l.udpPort) == addr {
          return Some(n.nid);
        }
        assert Own(n, |n.links|)[j..][1..] == Own(n, |n.links|)[j + 1..];
        j := j + 1;
      }
      return None;
    }

    method NodeByUdpAddr(addr: Addr) returns (nid: Option<NodeId>)
      ensures nid == NodeByAddr(nodes, addr)
    {
      var best := OwnerOf(addr);
      if best.Some? {
        return Some(best.value.0);
      }
      nid := DeclarerOf(addr);
    }

    /** node_udp_addrs */
    method NodeUdpAddrs(nid: NodeId, now: int) returns (out: seq<Addr>)
      ensures out == NodeAddrs(nodes, nid, now)
    {
      out := [];
      var i := NodeIndex(nodes, nid);
      if i < |nodes| {
        var links := nodes[i].links;
        var j := 0;
        while j < |links|
          invariant 0 <= j <= |links| && out == Endpoints(links[..j], now)
        {
          assert links[..j + 1][..j] == links[..j];
          var a := Endpoint(links[j], now);
          if a.Some? && a.value !in out {
            out := out + [a.value];
          }
          j := j + 1;
        }
        assert links[..j] == links;
      }
    }

    /** udp_targets */
    method UdpTargets(gport: Port, src: Addr, now: int) returns (out: seq<Addr>)
      modifies this`learned
      ensures out == Targets(old(View()), gport, src, now) && View() == DropStale(old(View()), gport, src, now)
    {
      if (src, gport) in learned {
        var e := learned[(src, gport)];
        if now - e.seen < LEARN_TTL && e.addr != src {
          return [e.addr];
        }
      }
      learned := learned - {(src, gport)};
      out := Listeners(src, now);
      out := AddTunnels(out, src);
    }

    method Listeners(src: Addr, now: int) returns (out: seq<Addr>)
      ensures out == Recent(known, src, now)
    {
      out := [];
      var i := 0;
      while i < |known|
        invariant 0 <= i <= |known| && out == Recent(known[..i], src, now)
      {
        assert known[..i + 1][..i] == known[..i];
        if known[i].addr != src && now - known[i].seen < KNOWN_TTL {
          out := out + [known[i].addr];
        }
        i := i + 1;
      }
      assert known[..i] == known;
    }

    method AddTunnels(start: seq<Addr>, src: Addr) returns (out: seq<Addr>)
      ensures out == WithTunnels(start, AllLinks(nodes), src)
    {
      out := start;
      var i := 0;
      while i < |nodes|
        invariant 0 <= i <= |nodes| && out == WithTunnels(start, AllLinks(nodes[..i]), src)
      {
        out := TunnelsOf(nodes[i].links, out, src, start, AllLinks(nodes[..i]));
        assert nodes[..i + 1][..i] == nodes[..i];
        i := i + 1;
      }
      assert nodes[..i] == nodes;
    }

    method TunnelsOf(links: seq<Link>, so: seq<Addr>, src: Addr, ghost start: seq<Addr>, ghost before: seq<Link>)
      returns (out: seq<Addr>)
      requires so == WithTunnels(start, before, src)
      ensures out == WithTunnels(start, before + links, src)
    {
      out := so;
      var j := 0;
      assert before + links[..0] == before;
      while j < |links|
        invariant 0 <= j <= |links| && out == WithTunnels(start, before + links[..j], src)
      {
        assert (before + links[..j + 1])[..|before| + j] == before + links[..j];
        var l := links[j];
        if l.udpTcp && Tun(l.w) != src && Tun(l.w) !in out {
          out := out + [Tun(l.w)];
        }
        j := j + 1;
      }
      assert links[..j] == links;
    }

    /** The fallback scan of an S2C. */
    method FreshestFlow(t: Triple, now: int) returns (best: Option<nat>)
      ensures best == Freshest(flows, t, now)
    {
      best := None;
      var seen := -1;
      var i := 0;
      while i < |flows|
        invariant 0 <= i <= |flows|
        invariant best == Freshest(flows[..i], t, now)
        invariant best.Some? ==> best.value < i && seen == flows[best.value].seen > -1
        invariant best.None? ==> seen == -1
      {
        assert flows[..i + 1][..i] == flows[..i];
        var f := flows[i];
        if f.key.triple == t && f.seen > seen && now - f.seen < FLOW_TTL {
          best, seen := Some(i), f.seen;
        }
        i := i + 1;
      }
      assert flows[..i] == flows;
    }

    /** known_udp[addr] = now */
    method Note(addr: Addr, now: int)
      modifies this`known
      ensures View() == old(View()).(known := Hear(old(known), addr, now))
    {
      known := Hear(known, addr, now);
    }

    /** The link that takes a proven endpoint: the first unseen, else the stalest. */
    method LinkToAttach(links: seq<Link>) returns (best: nat)
      requires links != []
      ensures best == if FirstUnseen(links) < |links| then FirstUnseen(links) else Stalest(links)
    {
      best := 0;
      while best < |links| && links[best].udpAddr.Some?
        invariant best <= |links| && FirstUnseen(links) == best + FirstUnseen(links[best..])
      {
        assert links[best..][1..] == links[best + 1..];
        best := best + 1;
      }
      if best < |links| {
        return;
      }
      best := 0;
      var i := 1;
      while i < |links|
        invariant 1 <= i <= |links| && best < i && best == Stalest(links[..i])
      {
        assert links[..i + 1][..i] == links[..i];
        if links[i].seenUdp < links[best].seenUdp {
          best := i;
        }
        i := i + 1;
      }
      assert links[..i] == links;
    }

    method RecordUdpProof(addr: Addr, now: int)
      modifies this`nodes, this`known
      ensures View() == Prove(old(View()), addr, now)
    {
      var nid := NodeByUdpAddr(addr);
      if nid.None? {
        return;
      }
      var i := NodeIndex(nodes, nid.value);
      if i == |nodes| {
        return;
      }
      var links := nodes[i].links;
      if links != [] && !(exists l <- links :: l.udpAddr == Some(addr)) {
        var best := LinkToAttach(links);
        links := links[best := links[best].(udpAddr := Some(addr), seenUdp := now)];
      }
      nodes := nodes[i := nodes[i].(links := links)];
      Note(addr, now);
    }

    /** The link records after an accepted registration of connection w. */
    method Register(w: nat, nid: NodeId, ip: Ip, port: Port, moded: bool, now: int)
      modifies this`nodes, this`known
      ensures View() == OnRegister(old(View()), w, nid, ip, port, moded, now)
    {
      var ls := LinksOf(nodes, nid);
      var l := LinkOf(ls, w).(tcpIp := ip);
      if port != 0 && (l.udpPort != port || l.udpAddr.None?) {
        l := l.(udpPort := port, udpAddr := Some(Udp(ip, port)), seenUdp := now);
        Note(Udp(ip, port), now);
      }
      if moded {
        l := l.(udpTcp := true);
      }
      nodes := WithLinks(nodes, nid, PutLink(ls, l));
    }

    /** The three scans for the link an announced endpoint joins. */
    method LinkToAnnounce(links: seq<Link>, addr: Addr) returns (best: nat)
      requires links != []
      ensures best == AnnounceTarget(links, addr)
    {
      best := 0;
      while best < |links| && !(SameIp(links[best], addr) && links[best].udpPort == addr.port)
        invariant best <= |links| && forall j | 0 <= j < best :: !(SameIp(links[j], addr) && links[j].udpPort == addr.port)
      {
        best := best + 1;
      }
      if best < |links| {
        return;
      }
      best := 0;
      while best < |links| && !(SameIp(links[best], addr) && links[best].udpAddr.None?)
        invariant best <= |links| && forall j | 0 <= j < best :: !(SameIp(links[j], addr) && links[j].udpAddr.None?)
      {
        best := best + 1;
      }
      if best < |links| {
        return;
      }
      var found := StalestOfIp(links, addr);
      best := if found.Some? then found.value else 0;
    }

    method StalestOfIp(links: seq<Link>, addr: Addr) returns (r: Option<nat>)
      ensures r == StalestAt(links, addr)
    {
      r := None;
      var i := 0;
      while i < |links|
        invariant 0 <= i <= |links| && r == StalestAt(links[..i], addr)
      {
        assert links[..i + 1][..i] == links[..i];
        if SameIp(links[i], addr) && (r.None? || links[i].seenUdp < links[r.value].seenUdp) {
          r := Some(i);
        }
        i := i + 1;
      }
      assert links[..i] == links;
    }

    /** U_NODE: the endpoint joins a link of the node. */
    method Announce(nid: NodeId, addr: Addr, now: int)
      modifies this`nodes, this`known
      ensures View() == OnAnnounce(old(View()), nid, addr, now)
    {
      var i := NodeIndex(nodes, nid);
      if i == |nodes| || nodes[i].links == [] {
        return;
      }
      var ls := nodes[i].links;
      var best := LinkToAnnounce(ls, addr);
      nodes := nodes[i := Node(nid, ls[best := ls[best].(udpAddr := Some(addr), seenUdp := now)])];
      Note(addr, now);
    }

    /** T_UDP_MODE on a connection registered under nid. */
    method UdpMode(w: nat, nid: NodeId)
      modifies this`nodes
      ensures View() == OnMode(old(View()), w, nid)
    {
      var ls := LinksOf(nodes, nid);
      if LinkIndex(ls, w) < |ls| {
        nodes := WithLinks(nodes, nid, PutLink(ls, LinkOf(ls, w).(udpTcp := true)));
      }
    }

    /** udp_flows[k] = [player, now] */
    method Store(k: Key, player: Addr, now: int)
      modifies this`flows, this`marks
      ensures View() == Record(old(View()), k, player, now)
    {
      flows := SetFlow(flows, k, player, now);
      marks := marks + [Recorded(k, player)];
    }

    method ClearOverflow()
      modifies this`flows, this`marks
      ensures View() == Bounded(old(View()))
    {
      if |flows| > TABLE_MAX {
        flows, marks := [], marks + [Cleared];
      }
    }

    method StoreAll(dests: seq<Addr>, t: Triple, player: Addr, now: int)
      modifies this`flows, this`marks
      ensures View() == RecordAll(old(View()), dests, t, player, now)
    {
      var i := 0;
      while i < |dests|
        invariant 0 <= i <= |dests| && View() == RecordAll(old(View()), dests[..i], t, player, now)
      {
        assert dests[..i + 1][..i] == dests[..i];
        Store(Key(ToAddr(dests[i]), t), player, now);
        i := i + 1;
      }
      assert dests[..i] == dests;
    }

    method HandleC2S(src: Addr, t: Triple, allowed: bool, now: int) returns (out: seq<Addr>)
      modifies this
      ensures (View(), out) == OnC2S(old(View()), src, t, allowed, now)
    {
      RecordUdpProof(src, now);
      if !allowed {
        return [];
      }
      Note(src, now);
      out := UdpTargets(t.gport, src, now);
      if out != [] {
        StoreAll(out, t, src, now);
        ClearOverflow();
      }
    }

    method HandleP2P(src: Addr, dest: NodeId, t: Triple, allowed: bool, now: int) returns (out: seq<Addr>)
      modifies this
      ensures (View(), out) == OnP2P(old(View()), src, dest, t, allowed, now)
    {
      if !allowed {
        return [];
      }
      out := NodeUdpAddrs(dest, now);
      out := Except(out, src);
      if out == [] {
        RecordUdpProof(src, now);
        out := NodeUdpAddrs(dest, now);
        out := Except(out, src);
      }
      if out != [] {
        Note(src, now);
        Store(Key(ToNode(dest), t), src, now);
        ClearOverflow();
      }
    }

    /** The entry an S2C follows: its exact flow, else the freshest. */
    method FlowFor(src: Addr, t: Triple, now: int) returns (r: Option<nat>)
      ensures r == ReplyFlow(View(), t, src, now)
    {
      var i := FindFlow(flows, Key(ToAddr(src), t));
      if i == |flows| {
        var nid := NodeByUdpAddr(src);
        if nid.Some? {
          i := FindFlow(flows, Key(ToNode(nid.value), t));
        }
      }
      if i < |flows| {
        return Some(i);
      }
      r := FreshestFlow(t, now);
    }

    method HandleS2C(src: Addr, t: Triple, now: int) returns (out: seq<Addr>)
      modifies this
      ensures (View(), out) == OnS2C(old(View()), src, t, now)
    {
      RecordUdpProof(src, now);
      var r := FlowFor(src, t, now);
      if r.None? || r.value >= |flows| {
        return [];
      }
      var f := flows[r.value];
      if now - f.seen > FLOW_TTL || f.player == src {
        return [];
      }
      flows := flows[r.value := f.(seen := now)];
      learned := learned[(f.player, t.gport) := Known(src, now)];
      if |learned| > TABLE_MAX {
        learned := map[];
      }
      return [f.player];
    }

    method HandleIcmp(src: Addr, request: bool, claimed: NodeId, dest: NodeId, now: int) returns (out: seq<Addr>)
      modifies this
      ensures (View(), out) == OnIcmp(old(View()), src, request, claimed, dest, now)
    {
      var sender := NodeByUdpAddr(src);
      if sender.None? && claimed == 0 {
        return [];
      }
      var from := if sender.Some? then sender.value else claimed;
      if dest == 0 {
        if !request {
          return [];
        }
        Note(src, now);
        return [src];
      }
      if dest == from {
        return [];
      }
      out := NodeUdpAddrs(dest, now);
      out := Except(out, src);
      if out != [] {
        Note(src, now);
      }
    }
  }

  /** A declarer among the first nodes is the declarer among all. */
  lemma {:induction false} FirstDeclarer(ns: seq<Node>, i: nat, addr: Addr)
    requires i <= |ns| && Declarer(Pairs(ns[..i]), addr).Some?
    ensures Declarer(Pairs(ns), addr) == Declarer(Pairs(ns[..i]), addr)
    decreases |ns| - i
  {
    if i < |ns| {
      PairsSnoc(ns, i);
      DeclarerSnoc(Pairs(ns[..i]), Own(ns[i], |ns[i].links|), addr);
      FirstDeclarer(ns, i + 1, addr);
    } else {
      assert ns[..i] == ns;
    }
  }
}
