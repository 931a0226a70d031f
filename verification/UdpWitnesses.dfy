/** Rooms of the relay in which one link is handed two copies of a datagram
    (server.py:1032-1142), built from registrations, announcements and switches. */
module UdpWitnesses {
  import opened Wire
  import opened UdpRouting
  import opened UdpTheorems

  ghost predicate Reachable(s: State) {
    exists states, acts :: Run(states, acts) && states[|acts|] == s
  }

  lemma StartReachable()
    ensures Reachable(START)
  {
    var none: seq<Action> := [];
    assert Run([START], none) && [START][|none|] == START;
  }

  lemma ReachOn(s: State, a: Action, s': State)
    requires Reachable(s) && s' == Apply(s, a)
    ensures Reachable(s')
  {
    var states, acts :| Run(states, acts) && states[|acts|] == s;
    var ss, aa := states + [s'], acts + [a];
    forall k | 0 <= k < |aa| ensures ss[k + 1] == Apply(ss[k], aa[k]) {
      if k < |acts| { assert ss[k] == states[k] && ss[k + 1] == states[k + 1] && aa[k] == acts[k]; }
    }
    assert Run(ss, aa) && ss[|aa|] == s';
  }

  lemma AloneLinks(ls: seq<Link>, ls': seq<Link>)
    ensures LinksOf([Node(1, ls)], 1) == ls && WithLinks([Node(1, ls)], 1, ls') == [Node(1, ls')]
    ensures LinksOf([], 1) == [] && WithLinks([], 1, ls') == [Node(1, ls')]
  {
    assert [Node(1, ls)][0 := Node(1, ls')] == [Node(1, ls')];
  }

  /** Node 1, alone in the room, with these links and these addresses heard. */
  function Alone(ls: seq<Link>, ks: seq<Known>): State {
    START.(nodes := [Node(1, ls)], known := ks)
  }

  /** A connection switches to UDP-over-TCP: the first of the links is its. */
  lemma SwitchReachable(l: Link, rest: seq<Link>, ks: seq<Known>)
    requires Reachable(Alone([l] + rest, ks))
    ensures Reachable(Alone([l.(udpTcp := true)] + rest, ks))
  {
    var ls := [l] + rest;
    assert LinkIndex(ls, l.w) == 0;
    assert PutLink(ls, l.(udpTcp := true)) == [l.(udpTcp := true)] + rest;
    AloneLinks(ls, [l.(udpTcp := true)] + rest);
    ReachOn(Alone(ls, ks), Switches(l.w, 1), Alone([l.(udpTcp := true)] + rest, ks));
  }

  /** The room's first registration. */
  lemma FirstReachable(w: nat, ip: Ip, port: Port)
    ensures Reachable(Alone([Registered(w, ip, port)], if port == 0 then [] else [Known(Udp(ip, port), 0)]))
  {
    StartReachable();
    var l := Registered(w, ip, port);
    assert LinkOf([], w) == Link(w, 0, 0, None, 0, false);
    assert PutLink([], l) == [l];
    AloneLinks([], [l]);
    ReachOn(START, Registers(w, 1, ip, port, false, 0), Alone([l], if port == 0 then [] else [Known(Udp(ip, port), 0)]));
  }

  function Registered(w: nat, ip: Ip, port: Port): Link {
    Refreshed(Link(w, 0, 0, None, 0, false), ip, port, false, 0)
  }

  // ---- one link, heard at a UDP address and switched to UDP-over-TCP -----------------

  /** A room of one node with one link, which rides TCP and has been heard at UDP address a. */
  function OneTunnelled(w: nat, ip: Ip, a: Addr): State {
    START.(nodes := [Node(1, [Link(w, ip, 0, Some(a), 0, true)])], known := [Known(a, 0)])
  }

  /** The link registers without a UDP port, is announced from a, and switches. */
  lemma OneTunnelledReachable(w: nat, ip: Ip, a: Addr)
    ensures Reachable(OneTunnelled(w, ip, a))
  {
    FirstReachable(w, ip, 0);
    var l0 := Registered(w, ip, 0);
    var l1 := Link(w, ip, 0, Some(a), 0, false);
    assert Announced([l0], a, 0) == [l1];
    AloneLinks([l0], [l1]);
    ReachOn(Alone([l0], []), Announces(1, a, 0), Alone([l1], [Known(a, 0)]));
    assert [l1] + [] == [l1] && [l1.(udpTcp := true)] + [] == [l1.(udpTcp := true)];
    SwitchReachable(l1, [], [Known(a, 0)]);
  }

  lemma OneOwner(w: nat, ip: Ip, a: Addr, src: Addr)
    requires a != src
    ensures var ns := OneTunnelled(w, ip, a).nodes;
            AllLinks(ns) == [Link(w, ip, 0, Some(a), 0, true)] && NodeByAddr(ns, src) == None && NodeByAddr(ns, a) == Some(1)
  {
    var ns := OneTunnelled(w, ip, a).nodes;
    var l := Link(w, ip, 0, Some(a), 0, true);
    assert ns[..0] == [];
    assert Pairs(ns) == [(1, l)];
    OnePair((1, l), a);
    OnePair((1, l), src);
  }

  lemma OnePair(p: (NodeId, Link), addr: Addr)
    ensures Owner([p], addr) == if p.1.udpAddr == Some(addr) && p.1.seenUdp > -1 then Some((p.0, p.1.seenUdp)) else None
    ensures p.1.udpPort == 0 ==> Declarer([p], addr) == None
  {
    assert [p][..0] == [] && [p][1..] == [];
  }

  lemma OneHeard(a: Addr, src: Addr)
    requires a != src
    ensures Hear([Known(a, 0)], src, 0) == [Known(a, 0), Known(src, 0)]
    ensures Recent([Known(a, 0), Known(src, 0)], src, 0) == [a]
  {
    assert [Known(a, 0)][1..] == [] && [Known(a, 0)][..0] == [];
    assert [Known(a, 0), Known(src, 0)][..1] == [Known(a, 0)];
    assert Recent([Known(a, 0)], src, 0) == [a];
  }

  /** A link known by its UDP address as well is sent two copies of a fan-out. */
  lemma TunnelledLinkTwice(w: nat, ip: Ip, a: Addr, src: Addr, t: Triple)
    requires a.Udp? && src.Udp? && a != src
    ensures var s := OneTunnelled(w, ip, a);
            && Reachable(s)
            && Handle(s, src, C2S(t, true), 0).1 == [a, Tun(w)] && Carried(s.nodes, a) == Carried(s.nodes, Tun(w)) == OverLink(w)
  {
    var s := OneTunnelled(w, ip, a);
    OneTunnelledReachable(w, ip, a);
    OneOwner(w, ip, a, src);
    OneHeard(a, src);
    assert Prove(s, src, 0) == s;
    var l := Link(w, ip, 0, Some(a), 0, true);
    assert l in AllLinks(s.nodes);
    assert [l][..0] == [];
    assert WithTunnels([a], [l], src) == [a, Tun(w)];
  }

  // ---- two links of one node that declared one address --------------------------------

  /** A room of one node with two links heard at one address, the first of them flagged. */
  function TwoSiblings(w: nat, v: nat, ip: Ip, port: Port): State {
    var l, m := Link(w, ip, port, Some(Udp(ip, port)), 0, true), Link(v, ip, port, Some(Udp(ip, port)), 0, false);
    START.(nodes := [Node(1, [l, m])], known := [Known(Udp(ip, port), 0)])
  }

  /** Both register with the same port from the same IP; the first switches. */
  lemma TwoSiblingsReachable(w: nat, v: nat, ip: Ip, port: Port)
    requires w != v && port != 0
    ensures Reachable(TwoSiblings(w, v, ip, port))
  {
    FirstReachable(w, ip, port);
    var l, m, ks := Registered(w, ip, port), Registered(v, ip, port), [Known(Udp(ip, port), 0)];
    SecondReachable(l, v, ip, port, ks);
    SwitchReachable(l, [m], ks);
    assert [l.(udpTcp := true)] + [m] == [l.(udpTcp := true), m];
  }

  lemma SecondReachable(l: Link, v: nat, ip: Ip, port: Port, ks: seq<Known>)
    requires l.w != v && port != 0 && ks == [Known(Udp(ip, port), 0)] && Reachable(Alone([l], ks))
    ensures Reachable(Alone([l] + [Registered(v, ip, port)], ks))
  {
    var m := Registered(v, ip, port);
    assert LinkIndex([l], v) == 1;
    assert LinkOf([l], v) == Link(v, 0, 0, None, 0, false);
    assert PutLink([l], m) == [l] + [m];
    AloneLinks([l], [l] + [m]);
    assert Hear(ks, Udp(ip, port), 0) == ks;
    ReachOn(Alone([l], ks), Registers(v, 1, ip, port, false, 0), Alone([l] + [m], ks));
  }

  /** There an addressed datagram goes over the first link twice. */
  lemma SiblingTwice(w: nat, v: nat, ip: Ip, port: Port, src: Addr, t: Triple)
    requires w != v && port != 0 && src.Udp? && src != Udp(ip, port)
    ensures var s, a := TwoSiblings(w, v, ip, port), Udp(ip, port);
            && Reachable(s)
            && Handle(s, src, P2P(1, t, true), 0).1 == [Tun(w), a] && Carried(s.nodes, a) == Carried(s.nodes, Tun(w)) == OverLink(w)
  {
    var s, a := TwoSiblings(w, v, ip, port), Udp(ip, port);
    TwoSiblingsReachable(w, v, ip, port);
    var l, m := s.nodes[0].links[0], s.nodes[0].links[1];
    TwoEndpoints(l, m, a, src);
    assert Except(NodeAddrs(s.nodes, 1, 0), src) == [Tun(w), a];
    SiblingCarried(s.nodes, l, m, a);
  }

  lemma SiblingCarried(ns: seq<Node>, l: Link, m: Link, a: Addr)
    requires ns == [Node(1, [l, m])] && l.udpAddr == Some(a) && l.seenUdp == 0 && l.udpTcp && a.Udp?
    ensures Carried(ns, a) == Carried(ns, Tun(l.w)) == OverLink(l.w)
  {
    TwoOwners(ns[0], l, m, a);
    assert l in AllLinks(ns);
    assert Rides(ns, a, l.w) && Names(ns, Tun(l.w), l.w);
    CarriedOverLinkIff(ns, a, l.w);
    CarriedOverLinkIff(ns, Tun(l.w), l.w);
  }

  lemma TwoEndpoints(l: Link, m: Link, a: Addr, src: Addr)
    requires l.udpTcp && !m.udpTcp && m.udpAddr == Some(a) && m.seenUdp == 0 && a.Udp? && src.Udp? && a != src
    ensures Endpoints([l, m], 0) == [Tun(l.w), a] && Except([Tun(l.w), a], src) == [Tun(l.w), a]
  {
    EndpointsSnoc([], l, 0);
    EndpointsSnoc([l], m, 0);
    assert [] + [l] == [l] && [l] + [m] == [l, m];
    ExceptSnoc([], Tun(l.w), src);
    ExceptSnoc([Tun(l.w)], a, src);
    assert [] + [Tun(l.w)] == [Tun(l.w)] && [Tun(l.w)] + [a] == [Tun(l.w), a];
  }

  lemma EndpointsSnoc(ls: seq<Link>, l: Link, now: int)
    ensures Endpoints(ls + [l], now) == Once(Endpoints(ls, now), Endpoint(l, now))
  {
    assert (ls + [l])[..|ls|] == ls;
  }

  lemma ExceptSnoc(xs: seq<Addr>, x: Addr, a: Addr)
    ensures Except(xs + [x], a) == Except(xs, a) + if x != a then [x] else []
  {
    assert (xs + [x])[..|xs|] == xs;
  }

  lemma TwoOwners(n: Node, l: Link, m: Link, a: Addr)
    requires n == Node(1, [l, m]) && l.udpAddr == Some(a) && l.seenUdp == 0
    ensures NodeByAddr([n], a) == Some(1) && AllLinks([n]) == [l, m]
  {
    assert [n][..0] == [];
    var ps: seq<(NodeId, Link)> := [(1, l), (1, m)];
    assert Pairs([n]) == ps;
    assert ps[..1] == [(1, l)];
    OnePair((1, l), a);
    assert Owner(ps, a).Some? && Owner(ps, a).value.0 == 1;
  }
}
