/** What every run of the relay's datagram routing keeps. */
module UdpTheorems {
  import opened Wire
  import opened UdpRouting

  /** The last sender recorded for a key since the table was last cleared. */
  function LastSince(marks: seq<Mark>, k: Key): Option<Addr> {
    if marks == [] then None
    else
      var m := marks[|marks| - 1];
      if m.Cleared? then None
      else if m.key == k then Some(m.player)
      else LastSince(marks[..|marks| - 1], k)
  }

  predicate DistinctKeys(fs: seq<Flow>) {
    forall i, j | 0 <= i < j < |fs| :: fs[i].key != fs[j].key
  }

  predicate DistinctKnown(ks: seq<Known>) {
    forall i, j | 0 <= i < j < |ks| :: ks[i].addr != ks[j].addr
  }

  /** Every entry of the flow table is the last sender recorded for its key, and the table has all of them. */
  ghost predicate FlowsAreLast(s: State) {
    DistinctKeys(s.flows) && forall k :: PlayerOf(s.flows, k) == LastSince(s.marks, k)
  }

  ghost predicate Inv(s: State) {
    FlowsAreLast(s) && DistinctKnown(s.known) && |s.flows| <= TABLE_MAX
  }

  // ---- the flow table -------------------------------------------------------------------

  lemma RecordKeeps(s: State, k: Key, player: Addr, now: int)
    requires FlowsAreLast(s)
    ensures FlowsAreLast(Record(s, k, player, now))
  {
    var r := Record(s, k, player, now);
    forall x ensures PlayerOf(r.flows, x) == LastSince(r.marks, x) {
      assert r.marks[..|r.marks| - 1] == s.marks;
      SetThenFind(s.flows, k, player, now, x);
    }
  }

  lemma FindAt(fs: seq<Flow>, i: nat)
    requires DistinctKeys(fs) && i < |fs|
    ensures FindFlow(fs, fs[i].key) == i
  {
    var j := FindFlow(fs, fs[i].key);
    assert j <= i;
  }

  lemma SetThenFind(fs: seq<Flow>, k: Key, player: Addr, now: int, x: Key)
    requires DistinctKeys(fs)
    ensures DistinctKeys(SetFlow(fs, k, player, now))
    ensures PlayerOf(SetFlow(fs, k, player, now), x) == if x == k then Some(player) else PlayerOf(fs, x)
  {
    var r := SetFlow(fs, k, player, now);
    var i, j := FindFlow(fs, k), FindFlow(fs, x);
    assert DistinctKeys(r);
    if x == k {
      FindAt(r, if i < |fs| then i else |fs|);
    } else if j < |fs| {
      assert r[j] == fs[j];
      FindAt(r, j);
    } else {
      assert forall n | 0 <= n < |r| :: r[n].key != x;
    }
  }

  lemma {:induction false} RecordAllKeeps(s: State, dests: seq<Addr>, t: Triple, player: Addr, now: int)
    requires FlowsAreLast(s)
    ensures FlowsAreLast(RecordAll(s, dests, t, player, now)) && RecordAll(s, dests, t, player, now).known == s.known
  {
    if dests != [] {
      var n := |dests| - 1;
      RecordAllKeeps(s, dests[..n], t, player, now);
      RecordKeeps(RecordAll(s, dests[..n], t, player, now), Key(ToAddr(dests[n]), t), player, now);
    }
  }

  lemma BoundedKeeps(s: State)
    requires FlowsAreLast(s) && DistinctKnown(s.known)
    ensures Inv(Bounded(s))
  {
  }

  predicate Heard(ks: seq<Known>, a: Addr) {
    exists k <- ks :: k.addr == a
  }

  lemma HeardCons(k: Known, ks: seq<Known>, a: Addr)
    ensures Heard([k] + ks, a) <==> k.addr == a || Heard(ks, a)
  {
    assert ([k] + ks)[0] == k;
    assert forall x :: x in [k] + ks <==> x == k || x in ks;
  }

  lemma {:induction false} HearAdds(ks: seq<Known>, addr: Addr, now: int, a: Addr)
    ensures Heard(Hear(ks, addr, now), a) <==> a == addr || Heard(ks, a)
  {
    if ks == [] {
      HeardCons(Known(addr, now), [], a);
      assert [Known(addr, now)] + [] == [Known(addr, now)];
    } else {
      assert ks == [ks[0]] + ks[1..];
      HeardCons(ks[0], ks[1..], a);
      if ks[0].addr == addr {
        HeardCons(Known(addr, now), ks[1..], a);
      } else {
        HearAdds(ks[1..], addr, now, a);
        HeardCons(ks[0], Hear(ks[1..], addr, now), a);
      }
    }
  }

  lemma {:induction false} HearKeeps(ks: seq<Known>, addr: Addr, now: int)
    requires DistinctKnown(ks)
    ensures DistinctKnown(Hear(ks, addr, now))
  {
    if ks != [] && ks[0].addr != addr {
      HearKeeps(ks[1..], addr, now);
      var r := Hear(ks[1..], addr, now);
      HearAdds(ks[1..], addr, now, ks[0].addr);
      forall i | 0 <= i < |r| ensures r[i].addr != ks[0].addr {
        assert r[i] in r;
      }
    }
  }

  lemma ProveKeeps(s: State, addr: Addr, now: int)
    requires Inv(s)
    ensures Inv(Prove(s, addr, now))
    ensures Prove(s, addr, now).flows == s.flows && Prove(s, addr, now).marks == s.marks
    ensures Prove(s, addr, now).learned == s.learned
  {
    HearKeeps(s.known, addr, now);
  }

  lemma TouchKeeps(s: State, i: nat, now: int, r: State)
    requires Inv(s) && i < |s.flows| && r == s.(flows := s.flows[i := s.flows[i].(seen := now)], learned := r.learned)
    ensures Inv(r)
  {
    forall k ensures PlayerOf(r.flows, k) == PlayerOf(s.flows, k) {
      var j := FindFlow(s.flows, k);
      if j < |s.flows| {
        assert r.flows[j].key == k;
        FindAt(r.flows, j);
      }
    }
  }

  // ---- one copy each, none to the source -------------------------------------------------------

  predicate Distinct(out: seq<Addr>) {
    forall i, j | 0 <= i < j < |out| :: out[i] != out[j]
  }

  /** No address twice, and not src. */
  predicate OnceEach(out: seq<Addr>, src: Addr) {
    Distinct(out) && src !in out
  }

  lemma DistinctAppend(out: seq<Addr>, a: Addr)
    requires Distinct(out) && a !in out
    ensures Distinct(out + [a])
  {
    assert forall i | 0 <= i < |out| :: out[i] in out;
  }

  lemma {:induction false} EndpointsOnce(ls: seq<Link>, now: int)
    ensures Distinct(Endpoints(ls, now))
    ensures forall a :: a in Endpoints(ls, now) <==> exists l <- ls :: Endpoint(l, now) == Some(a)
  {
    if ls != [] {
      var n := |ls| - 1;
      EndpointsOnce(ls[..n], now);
      var r, e := Endpoints(ls[..n], now), Endpoint(ls[n], now);
      if e.Some? && e.value !in r { DistinctAppend(r, e.value); }
      assert ls == ls[..n] + [ls[n]];
      assert forall l :: l in ls <==> l in ls[..n] || l == ls[n];
    }
  }

  lemma {:induction false} ExceptOnce(xs: seq<Addr>, a: Addr)
    requires Distinct(xs)
    ensures OnceEach(Except(xs, a), a)
    ensures forall x :: x in Except(xs, a) <==> x in xs && x != a
  {
    if xs != [] {
      var n := |xs| - 1;
      ExceptOnce(xs[..n], a);
      assert xs == xs[..n] + [xs[n]];
      assert xs[n] !in xs[..n];
      DistinctAppend(Except(xs[..n], a), xs[n]);
    }
  }

  lemma {:induction false} RecentOnce(ks: seq<Known>, src: Addr, now: int)
    requires DistinctKnown(ks)
    ensures OnceEach(Recent(ks, src, now), src)
    ensures forall a :: a in Recent(ks, src, now) <==> a != src && exists k <- ks :: k.addr == a && now - k.seen < KNOWN_TTL
  {
    if ks != [] {
      var n := |ks| - 1;
      RecentOnce(ks[..n], src, now);
      assert ks == ks[..n] + [ks[n]];
      assert forall k :: k in ks <==> k in ks[..n] || k == ks[n];
      assert ks[n].addr !in Recent(ks[..n], src, now);
      DistinctAppend(Recent(ks[..n], src, now), ks[n].addr);
    }
  }

  lemma {:induction false} TunnelsOnce(out: seq<Addr>, ls: seq<Link>, src: Addr)
    requires OnceEach(out, src)
    ensures OnceEach(WithTunnels(out, ls, src), src)
    ensures forall a :: a in WithTunnels(out, ls, src) <==> a in out || (a != src && exists l <- ls :: l.udpTcp && a == Tun(l.w))
  {
    if ls != [] {
      var n := |ls| - 1;
      TunnelsOnce(out, ls[..n], src);
      var r := WithTunnels(out, ls[..n], src);
      if Tun(ls[n].w) !in r { DistinctAppend(r, Tun(ls[n].w)); }
      assert ls == ls[..n] + [ls[n]];
      assert forall l :: l in ls <==> l in ls[..n] || l == ls[n];
    }
  }

  lemma TargetsOnce(s: State, gport: Port, src: Addr, now: int)
    requires DistinctKnown(s.known)
    ensures OnceEach(Targets(s, gport, src, now), src)
  {
    RecentOnce(s.known, src, now);
    TunnelsOnce(Recent(s.known, src, now), AllLinks(s.nodes), src);
  }

  lemma NodeAddrsOnce(s: State, nid: NodeId, src: Addr, now: int)
    ensures OnceEach(Except(NodeAddrs(s.nodes, nid, now), src), src)
  {
    var i := NodeIndex(s.nodes, nid);
    if i < |s.nodes| {
      EndpointsOnce(s.nodes[i].links, now);
    }
    ExceptOnce(NodeAddrs(s.nodes, nid, now), src);
  }

  // ---- each message ---------------------------------------------------------------------------------

  lemma C2SKeeps(s: State, src: Addr, t: Triple, allowed: bool, now: int)
    requires Inv(s)
    ensures Inv(OnC2S(s, src, t, allowed, now).0) && OnceEach(OnC2S(s, src, t, allowed, now).1, src)
  {
    var p := Prove(s, src, now);
    ProveKeeps(s, src, now);
    HearKeeps(p.known, src, now);
    var s1 := p.(known := Hear(p.known, src, now));
    TargetsOnce(s1, t.gport, src, now);
    var s2 := DropStale(s1, t.gport, src, now);
    RecordAllKeeps(s2, Targets(s1, t.gport, src, now), t, src, now);
    BoundedKeeps(RecordAll(s2, Targets(s1, t.gport, src, now), t, src, now));
  }

  lemma P2PKeeps(s: State, src: Addr, dest: NodeId, t: Triple, allowed: bool, now: int)
    requires Inv(s)
    ensures Inv(OnP2P(s, src, dest, t, allowed, now).0) && OnceEach(OnP2P(s, src, dest, t, allowed, now).1, src)
  {
    ProveKeeps(s, src, now);
    NodeAddrsOnce(s, dest, src, now);
    NodeAddrsOnce(Prove(s, src, now), dest, src, now);
    var s1 := if Except(NodeAddrs(s.nodes, dest, now), src) == [] then Prove(s, src, now) else s;
    HearKeeps(s1.known, src, now);
    RecordKeeps(s1.(known := Hear(s1.known, src, now)), Key(ToNode(dest), t), src, now);
    BoundedKeeps(Record(s1.(known := Hear(s1.known, src, now)), Key(ToNode(dest), t), src, now));
  }

  lemma S2CKeeps(s: State, src: Addr, t: Triple, now: int)
    requires Inv(s)
    ensures Inv(OnS2C(s, src, t, now).0) && OnceEach(OnS2C(s, src, t, now).1, src)
  {
    var p := Prove(s, src, now);
    ProveKeeps(s, src, now);
    var r := ReplyFlow(p, t, src, now);
    if r.Some? && r.value < |p.flows| {
      var f := p.flows[r.value];
      var learned := p.learned[(f.player, t.gport) := Known(src, now)];
      TouchKeeps(p, r.value, now, p.(flows := p.flows[r.value := f.(seen := now)],
                                     learned := if |learned| > TABLE_MAX then map[] else learned));
    }
  }

  lemma IcmpKeeps(s: State, src: Addr, request: bool, claimed: NodeId, dest: NodeId, now: int)
    requires Inv(s)
    ensures Inv(OnIcmp(s, src, request, claimed, dest, now).0)
    ensures dest != 0 ==> OnceEach(OnIcmp(s, src, request, claimed, dest, now).1, src)
    ensures dest == 0 ==> OnIcmp(s, src, request, claimed, dest, now).1 in {[], [src]}
  {
    HearKeeps(s.known, src, now);
    NodeAddrsOnce(s, dest, src, now);
  }

  /** A datagram; a registration, announcement or switch of a link; or nodes and
      links that went away. */
  datatype Action =
    | Datagram(src: Addr, m: Message, now: int)
    | Registers(w: nat, nid: NodeId, ip: Ip, port: Port, moded: bool, at: int)
    | Announces(nid: NodeId, addr: Addr, at: int)
    | Switches(w: nat, nid: NodeId)
    | Leaves(nodes: seq<Node>)

  function Apply(s: State, a: Action): State {
    match a
    case Datagram(src, m, now) => Handle(s, src, m, now).0
    case Registers(w, nid, ip, port, moded, now) => OnRegister(s, w, nid, ip, port, moded, now)
    case Announces(nid, addr, now) => OnAnnounce(s, nid, addr, now)
    case Switches(w, nid) => OnMode(s, w, nid)
    case Leaves(nodes) => s.(nodes := nodes)
  }

  const START := State([], [], map[], [], [])

  ghost predicate Run(states: seq<State>, acts: seq<Action>) {
    && |states| == |acts| + 1 && states[0] == START
    && forall i | 0 <= i < |acts| :: states[i + 1] == Apply(states[i], acts[i])
  }

  lemma StepKeeps(s: State, a: Action)
    requires Inv(s)
    ensures Inv(Apply(s, a))
  {
    match a {
      case Datagram(src, m, now) =>
        match m {
          case C2S(t, allowed) => C2SKeeps(s, src, t, allowed, now);
          case P2P(dest, t, allowed) => P2PKeeps(s, src, dest, t, allowed, now);
          case S2C(t) => S2CKeeps(s, src, t, now);
          case Icmp(request, claimed, dest) => IcmpKeeps(s, src, request, claimed, dest, now);
        }
      case Registers(_, _, ip, port, _, now) => HearKeeps(s.known, Udp(ip, port), now);
      case Announces(_, addr, now) => HearKeeps(s.known, addr, now);
      case Switches(_, _) =>
      case Leaves(_) =>
    }
  }

  /** In every run the flow table holds, for every key, the last sender recorded
      for it since the last overflow clear, and has at most 2048 entries. */
  lemma {:induction false} FlowsInEveryRun(states: seq<State>, acts: seq<Action>, i: nat)
    requires Run(states, acts) && i < |states|
    ensures Inv(states[i])
    ensures forall k :: PlayerOf(states[i].flows, k) == LastSince(states[i].marks, k)
    ensures |states[i].flows| <= 2048
  {
    if i > 0 {
      FlowsInEveryRun(states, acts, i - 1);
      StepKeeps(states[i - 1], acts[i - 1]);
    }
  }

  /** A datagram is sent at most once to any address, and never back to its
      source but for the relay's own echo reply. */
  lemma OneCopyEach(states: seq<State>, acts: seq<Action>, i: nat, src: Addr, m: Message, now: int)
    requires Run(states, acts) && i < |states|
    ensures var out := Handle(states[i], src, m, now).1;
            OnceEach(out, src) || (m.Icmp? && m.dest == 0 && m.request && out == [src])
  {
    FlowsInEveryRun(states, acts, i);
    match m {
      case C2S(t, allowed) => C2SKeeps(states[i], src, t, allowed, now);
      case P2P(dest, t, allowed) => P2PKeeps(states[i], src, dest, t, allowed, now);
      case S2C(t) => S2CKeeps(states[i], src, t, now);
      case Icmp(request, claimed, dest) => IcmpKeeps(states[i], src, request, claimed, dest, now);
    }
  }

  // ---- whose address it is ----------------------------------------------------------------------------

  /** Link k of the list was heard at this address, none there later, and none as late before it. */
  predicate HeardLast(ps: seq<(NodeId, Link)>, addr: Addr, k: nat) {
    && k < |ps| && ps[k].1.udpAddr == Some(addr) && ps[k].1.seenUdp > -1
    && (forall j | 0 <= j < |ps| && ps[j].1.udpAddr == Some(addr) :: ps[j].1.seenUdp <= ps[k].1.seenUdp)
    && (forall j | 0 <= j < k && ps[j].1.udpAddr == Some(addr) :: ps[j].1.seenUdp < ps[k].1.seenUdp)
  }

  predicate Declares(l: Link, addr: Addr) {
    l.udpPort != 0 && l.tcpIp != 0 && Udp(l.tcpIp, l.udpPort) == addr
  }

  lemma {:induction false} OwnerIsFreshest(ps: seq<(NodeId, Link)>, addr: Addr) returns (k: nat)
    ensures Owner(ps, addr).Some? ==> HeardLast(ps, addr, k) && Owner(ps, addr).value == (ps[k].0, ps[k].1.seenUdp)
    ensures Owner(ps, addr).None? ==> forall p <- ps :: p.1.udpAddr == Some(addr) ==> p.1.seenUdp <= -1
  {
    k := 0;
    if ps != [] {
      var n := |ps| - 1;
      k := OwnerIsFreshest(ps[..n], addr);
      assert ps == ps[..n] + [ps[n]];
      if Owner(ps[..n], addr).None? {
        assert forall j | 0 <= j < n :: ps[j] in ps[..n];
      }
      if Owner(ps, addr) != Owner(ps[..n], addr) {
        k := n;
      }
    }
  }

  lemma {:induction false} DeclarerIsFirst(ps: seq<(NodeId, Link)>, addr: Addr) returns (k: nat)
    ensures Declarer(ps, addr).Some? ==>
              k < |ps| && Declares(ps[k].1, addr) && Declarer(ps, addr).value == ps[k].0 && forall j | 0 <= j < k :: !Declares(ps[j].1, addr)
    ensures Declarer(ps, addr).None? ==> forall p <- ps :: !Declares(p.1, addr)
  {
    k := 0;
    if ps != [] && !Declares(ps[0].1, addr) {
      k := DeclarerIsFirst(ps[1..], addr);
      k := k + 1;
    }
  }

  /** An address belongs to the node of the link heard there last, the earliest of
      those on a tie; never heard, to the node of the first link that declared it;
      and otherwise to nobody. */
  lemma AddressOwner(ns: seq<Node>, addr: Addr) returns (k: nat)
    ensures var ps, o := Pairs(ns), NodeByAddr(ns, addr);
            && (o.Some? ==>
                  && k < |ps| && ps[k].0 == o.value
                  && (HeardLast(ps, addr, k)
                      || (Declares(ps[k].1, addr) && (forall p <- ps :: p.1.udpAddr == Some(addr) ==> p.1.seenUdp <= -1)
                          && forall j | 0 <= j < k :: !Declares(ps[j].1, addr))))
            && (o.None? ==> forall p <- ps :: !Declares(p.1, addr) && (p.1.udpAddr == Some(addr) ==> p.1.seenUdp <= -1))
  {
    k := OwnerIsFreshest(Pairs(ns), addr);
    if Owner(Pairs(ns), addr).None? {
      k := DeclarerIsFirst(Pairs(ns), addr);
    }
  }

  lemma {:induction false} PairsHas(ns: seq<Node>, nid: NodeId, l: Link)
    ensures (nid, l) in Pairs(ns) <==> exists n <- ns :: n.nid == nid && l in n.links
  {
    if ns != [] {
      var n := ns[|ns| - 1];
      PairsHas(ns[..|ns| - 1], nid, l);
      assert ns == ns[..|ns| - 1] + [n];
      var own := seq(|n.links|, i requires 0 <= i < |n.links| => (n.nid, n.links[i]));
      assert Pairs(ns) == Pairs(ns[..|ns| - 1]) + own;
      if l in n.links && n.nid == nid {
        var i :| 0 <= i < |n.links| && n.links[i] == l;
        assert own[i] == (nid, l);
      }
    }
  }

  /** Link j of node nid, heard at an address now. */
  function Relinked(ns: seq<Node>, nid: NodeId, j: nat, addr: Addr, now: int): seq<Node>
    requires j < |LinksOf(ns, nid)|
  {
    var ls := LinksOf(ns, nid);
    WithLinks(ns, nid, ls[j := ls[j].(udpAddr := Some(addr), seenUdp := now)])
  }

  /** That link's node owns the address unless some link was heard there as late. */
  lemma RelinkedOwner(ns: seq<Node>, nid: NodeId, j: nat, addr: Addr, now: int)
    requires j < |LinksOf(ns, nid)| && now > -1
    requires forall n <- ns, l <- n.links :: l.udpAddr == Some(addr) ==> l.seenUdp < now
    ensures NodeByAddr(Relinked(ns, nid, j, addr, now), addr) == Some(nid)
  {
    var ns' := Relinked(ns, nid, j, addr, now);
    var ps := Pairs(ns');
    var i, ls := NodeIndex(ns, nid), LinksOf(ns, nid);
    var l := ls[j].(udpAddr := Some(addr), seenUdp := now);
    assert ns'[i] in ns' && ns'[i].nid == nid && ns'[i].links[j] == l && l in ns'[i].links;
    PairsHas(ns', nid, l);
    var k := AddressOwner(ns', addr);
    assert (nid, l) in ps;
    PairsHas(ns', ps[k].0, ps[k].1);
    HeardAtNow(ns, nid, j, addr, now, ps[k].0, ps[k].1);
  }

  /** Nobody but that node was heard there so late. */
  lemma HeardAtNow(ns: seq<Node>, nid: NodeId, j: nat, addr: Addr, now: int, other: NodeId, m: Link)
    requires j < |LinksOf(ns, nid)| && m.udpAddr == Some(addr) && m.seenUdp >= now
    requires forall n <- ns, l <- n.links :: l.udpAddr == Some(addr) ==> l.seenUdp < now
    requires exists n <- Relinked(ns, nid, j, addr, now) :: n.nid == other && m in n.links
    ensures other == nid
  {
    var ns' := Relinked(ns, nid, j, addr, now);
    var n :| n in ns' && n.nid == other && m in n.links;
    var k :| 0 <= k < |ns'| && ns'[k] == n;
    assert k != NodeIndex(ns, nid) ==> n in ns;
  }

  /** An announced endpoint is its node's from then on: unless some link was heard
      there as late, datagrams from it are taken for that node's. */
  lemma AnnouncedOwner(s: State, nid: NodeId, addr: Addr, now: int)
    requires LinksOf(s.nodes, nid) != [] && now > -1
    requires forall n <- s.nodes, l <- n.links :: l.udpAddr == Some(addr) ==> l.seenUdp < now
    ensures NodeByAddr(OnAnnounce(s, nid, addr, now).nodes, addr) == Some(nid)
  {
    RelinkedOwner(s.nodes, nid, AnnounceTarget(LinksOf(s.nodes, nid), addr), addr, now);
  }

  // ---- where a reply goes ---------------------------------------------------------------------------

  /** In every run, a reply for whose own address (or, failing that, whose node)
      a flow is recorded goes to the last sender recorded for exactly that
      destination and triple, and to nobody else; unless the entry has expired
      or the sender is the replier itself, when it goes nowhere. */
  lemma ReplyFollowsExactFlow(states: seq<State>, acts: seq<Action>, i: nat, src: Addr, t: Triple, now: int)
    requires Run(states, acts) && i < |states|
    requires Exact(Prove(states[i], src, now), t, src) < |states[i].flows|
    ensures var s, p := states[i], Prove(states[i], src, now);
            var f := s.flows[Exact(p, t, src)];
            && f.key.triple == t && LastSince(s.marks, f.key) == Some(f.player)
            && (f.key.dest == ToAddr(src) || (LastSince(s.marks, Key(ToAddr(src), t)) == None && NodeByAddr(p.nodes, src).Some?
                                              && f.key.dest == ToNode(NodeByAddr(p.nodes, src).value)))
            && Handle(s, src, S2C(t), now).1 == if now - f.seen > FLOW_TTL || f.player == src then [] else [f.player]
  {
    FlowsInEveryRun(states, acts, i);
    var s, p := states[i], Prove(states[i], src, now);
    ProveKeeps(s, src, now);
    var e := Exact(p, t, src);
    FindAt(s.flows, e);
    assert PlayerOf(s.flows, s.flows[e].key) == Some(s.flows[e].player);
    assert PlayerOf(s.flows, Key(ToAddr(src), t)) == LastSince(s.marks, Key(ToAddr(src), t));
  }

  lemma {:induction false} FreshestIs(fs: seq<Flow>, t: Triple, now: int)
    requires forall f <- fs :: f.seen >= 0
    ensures var r := Freshest(fs, t, now);
            && (r.Some? ==> r.value < |fs| && fs[r.value].key.triple == t && now - fs[r.value].seen < FLOW_TTL)
            && (forall j | 0 <= j < |fs| && fs[j].key.triple == t && now - fs[j].seen < FLOW_TTL ::
                  r.Some? && fs[j].seen <= fs[r.value].seen && (j < r.value ==> fs[j].seen < fs[r.value].seen))
  {
    if fs != [] {
      FreshestIs(fs[..|fs| - 1], t, now);
    }
  }

  /** Without a recorded flow a reply goes to the freshest unexpired player of
      the same triple, the earliest such entry; with none it goes nowhere. */
  lemma ReplyFallsBackToFreshest(s: State, src: Addr, t: Triple, now: int)
    requires forall f <- s.flows :: f.seen >= 0
    requires Exact(Prove(s, src, now), t, src) == |s.flows|
    ensures var r, out := Freshest(s.flows, t, now), Handle(s, src, S2C(t), now).1;
            if r.Some? then r.value < |s.flows| && out == (if s.flows[r.value].player == src then [] else [s.flows[r.value].player])
            else out == [] && forall f <- s.flows :: f.key.triple == t ==> now - f.seen >= FLOW_TTL
  {
    FreshestIs(s.flows, t, now);
  }

  // ---- the links behind the addresses ------------------------------------------------------------------

  /** What carries a copy: a control connection, or the UDP socket. */
  datatype Carrier = OverLink(w: nat) | Plain(addr: Addr) | Nowhere

  function LinkAt(ls: seq<Link>, addr: Addr): Option<Link> {
    if ls == [] then None else if ls[0].udpAddr == Some(addr) then Some(ls[0]) else LinkAt(ls[1..], addr)
  }

  /** udp_sendto, with no connection closing. */
  function Carried(ns: seq<Node>, addr: Addr): Carrier {
    if addr.Tun? then if exists l <- AllLinks(ns) :: l.w == addr.w then OverLink(addr.w) else Nowhere
    else
      var o := NodeByAddr(ns, addr);
      if o.Some? && NodeIndex(ns, o.value) < |ns| then
        var l := LinkAt(ns[NodeIndex(ns, o.value)].links, addr);
        if l.Some? && l.value.udpTcp then OverLink(l.value.w) else Plain(addr)
      else Plain(addr)
  }

  /** A UDP address whose owning node has a UDP-over-TCP link, w, first under it. */
  predicate Rides(ns: seq<Node>, addr: Addr, w: nat) {
    && addr.Udp? && NodeByAddr(ns, addr).Some? && NodeIndex(ns, NodeByAddr(ns, addr).value) < |ns|
    && var l := LinkAt(ns[NodeIndex(ns, NodeByAddr(ns, addr).value)].links, addr);
       l.Some? && l.value.udpTcp && l.value.w == w
  }

  /** The identity of an existing link. */
  predicate Names(ns: seq<Node>, addr: Addr, w: nat) {
    addr == Tun(w) && exists l <- AllLinks(ns) :: l.w == w
  }

  lemma CarriedOverLinkIff(ns: seq<Node>, addr: Addr, w: nat)
    ensures Carried(ns, addr) == OverLink(w) <==> Names(ns, addr, w) || Rides(ns, addr, w)
  {
  }

  /** Two different addresses are one carrier exactly when each names, or rides, one and the same link. */
  lemma SameCarrierIff(ns: seq<Node>, a: Addr, b: Addr)
    requires a != b
    ensures Carried(ns, a) == Carried(ns, b) != Nowhere
       <==> exists w :: (Names(ns, a, w) || Rides(ns, a, w)) && (Names(ns, b, w) || Rides(ns, b, w))
  {
    if w :| (Names(ns, a, w) || Rides(ns, a, w)) && (Names(ns, b, w) || Rides(ns, b, w)) {
      CarriedOverLinkIff(ns, a, w);
      CarriedOverLinkIff(ns, b, w);
    }
    if Carried(ns, a) == Carried(ns, b) != Nowhere {
      var c := Carried(ns, a);
      assert c.OverLink?;
      CarriedOverLinkIff(ns, a, c.w);
      CarriedOverLinkIff(ns, b, c.w);
    }
  }

  lemma {:induction false} LinkAtIn(ls: seq<Link>, addr: Addr)
    ensures LinkAt(ls, addr).Some? ==> LinkAt(ls, addr).value in ls
  {
    if ls != [] {
      LinkAtIn(ls[1..], addr);
    }
  }

  /** Without UDP-over-TCP links, different addresses are different carriers, so
      a datagram reaches no machine's endpoint twice. */
  lemma CarriersApart(ns: seq<Node>, a: Addr, b: Addr)
    requires forall n <- ns, l <- n.links :: !l.udpTcp
    requires a != b && Carried(ns, a) != Nowhere
    ensures Carried(ns, a) != Carried(ns, b)
  {
    SameCarrierIff(ns, a, b);
    NothingRides(ns, a);
    NothingRides(ns, b);
  }

  lemma NothingRides(ns: seq<Node>, addr: Addr)
    requires forall n <- ns, l <- n.links :: !l.udpTcp
    ensures forall w :: !Rides(ns, addr, w)
  {
    var o := NodeByAddr(ns, addr);
    if o.Some? && NodeIndex(ns, o.value) < |ns| {
      LinkAtIn(ns[NodeIndex(ns, o.value)].links, addr);
    }
  }

  /** Some two of the copies go over link w. */
  ghost predicate Twice(ns: seq<Node>, out: seq<Addr>, w: nat) {
    exists i, j :: 0 <= i < j < |out| && Carried(ns, out[i]) == OverLink(w) && Carried(ns, out[j]) == OverLink(w)
  }

  /** Some two addresses of the list go over link w: its identity and one that
      rides it, or two that ride it. */
  predicate Doubled(ns: seq<Node>, out: seq<Addr>, w: nat) {
    || (Tun(w) in out && Names(ns, Tun(w), w) && exists a <- out :: Rides(ns, a, w))
    || (exists a <- out, b <- out :: a != b && Rides(ns, a, w) && Rides(ns, b, w))
  }

  lemma TwiceDoubled(ns: seq<Node>, out: seq<Addr>, w: nat)
    requires Distinct(out) && Twice(ns, out, w)
    ensures Doubled(ns, out, w)
  {
    var i, j :| 0 <= i < j < |out| && Carried(ns, out[i]) == OverLink(w) && Carried(ns, out[j]) == OverLink(w);
    CarriedOverLinkIff(ns, out[i], w);
    CarriedOverLinkIff(ns, out[j], w);
    BothCarried(ns, out, w, out[i], out[j]);
  }

  lemma BothCarried(ns: seq<Node>, out: seq<Addr>, w: nat, a: Addr, b: Addr)
    requires a in out && b in out && a != b
    requires (Names(ns, a, w) || Rides(ns, a, w)) && (Names(ns, b, w) || Rides(ns, b, w))
    ensures Doubled(ns, out, w)
  {
  }

  lemma DoubledTwice(ns: seq<Node>, out: seq<Addr>, w: nat)
    requires Doubled(ns, out, w)
    ensures Twice(ns, out, w)
  {
    if Tun(w) in out && Names(ns, Tun(w), w) && exists a <- out :: Rides(ns, a, w) {
      var a :| a in out && Rides(ns, a, w);
      InOrder(ns, out, w, Tun(w), a);
    } else {
      var a, b :| a in out && b in out && a != b && Rides(ns, a, w) && Rides(ns, b, w);
      InOrder(ns, out, w, a, b);
    }
  }

  lemma InOrder(ns: seq<Node>, out: seq<Addr>, w: nat, a: Addr, b: Addr)
    requires a in out && b in out && a != b && (Names(ns, a, w) || Rides(ns, a, w)) && Rides(ns, b, w)
    ensures Twice(ns, out, w)
  {
    CarriedOverLinkIff(ns, a, w);
    CarriedOverLinkIff(ns, b, w);
    var i :| 0 <= i < |out| && out[i] == a;
    var j :| 0 <= j < |out| && out[j] == b;
    assert i < j || j < i;
  }

  lemma TwiceIff(ns: seq<Node>, out: seq<Addr>, w: nat)
    requires Distinct(out)
    ensures Twice(ns, out, w) <==> Doubled(ns, out, w)
  {
    if Twice(ns, out, w) { TwiceDoubled(ns, out, w); }
    if Doubled(ns, out, w) { DoubledTwice(ns, out, w); }
  }

  predicate HeardLately(s: State, src: Addr, now: int, a: Addr) {
    a != src && exists k <- s.known :: k.addr == a && now - k.seen < KNOWN_TTL
  }

  /** A fan-out hands a link two copies if and only if a UDP address heard lately
      rides it, and so does another, or the link's own identity is asked too:
      it is flagged UDP-over-TCP, or was itself heard lately. */
  lemma FanOutTwiceIff(s: State, gport: Port, src: Addr, now: int, w: nat)
    requires DistinctKnown(s.known) && !Sticky(s, gport, src, now)
    ensures Twice(s.nodes, Targets(s, gport, src, now), w) <==>
              || (Names(s.nodes, Tun(w), w) && Tun(w) != src
                  && (HeardLately(s, src, now, Tun(w)) || exists l <- AllLinks(s.nodes) :: l.udpTcp && l.w == w)
                  && exists k <- s.known :: HeardLately(s, src, now, k.addr) && Rides(s.nodes, k.addr, w))
              || (exists k <- s.known, m <- s.known ::
                    k.addr != m.addr && HeardLately(s, src, now, k.addr) && HeardLately(s, src, now, m.addr)
                    && Rides(s.nodes, k.addr, w) && Rides(s.nodes, m.addr, w))
  {
    var out := Targets(s, gport, src, now);
    TargetsOnce(s, gport, src, now);
    TwiceIff(s.nodes, out, w);
    forall a ensures a in out <==> HeardLately(s, src, now, a) || (a != src && exists l <- AllLinks(s.nodes) :: l.udpTcp && a == Tun(l.w)) {
      FanOutReaches(s, gport, src, now, a);
    }
  }

  /** An addressed datagram or ICMP message hands a link of the node two copies if
      and only if the link is flagged UDP-over-TCP and a sibling's endpoint rides
      it, or two siblings' endpoints do. */
  lemma NodeTwiceIff(s: State, nid: NodeId, src: Addr, now: int, w: nat)
    requires NodeIndex(s.nodes, nid) < |s.nodes|
    ensures var links := s.nodes[NodeIndex(s.nodes, nid)].links;
            Twice(s.nodes, Except(NodeAddrs(s.nodes, nid, now), src), w) <==>
              || (Names(s.nodes, Tun(w), w) && Tun(w) != src
                  && (exists l <- links :: Endpoint(l, now) == Some(Tun(w)))
                  && exists l <- links :: Endpoint(l, now).Some? && Endpoint(l, now).value != src && Rides(s.nodes, Endpoint(l, now).value, w))
              || (exists l <- links, m <- links ::
                    Endpoint(l, now).Some? && Endpoint(m, now).Some? && Endpoint(l, now) != Endpoint(m, now)
                    && Endpoint(l, now).value != src && Endpoint(m, now).value != src
                    && Rides(s.nodes, Endpoint(l, now).value, w) && Rides(s.nodes, Endpoint(m, now).value, w))
  {
    var links := s.nodes[NodeIndex(s.nodes, nid)].links;
    var out := Except(NodeAddrs(s.nodes, nid, now), src);
    NodeAddrsOnce(s, nid, src, now);
    EndpointsOnce(links, now);
    ExceptOnce(Endpoints(links, now), src);
    TwiceIff(s.nodes, out, w);
  }

  /** A fan-out reaches exactly the endpoints heard recently and the UDP-over-TCP
      links, but for the sender. */
  lemma FanOutReaches(s: State, gport: Port, src: Addr, now: int, a: Addr)
    requires DistinctKnown(s.known) && !Sticky(s, gport, src, now)
    ensures a in Targets(s, gport, src, now)
       <==> a != src && ((exists k <- s.known :: k.addr == a && now - k.seen < KNOWN_TTL)
                         || (exists l <- AllLinks(s.nodes) :: l.udpTcp && a == Tun(l.w)))
  {
    RecentOnce(s.known, src, now);
    TunnelsOnce(Recent(s.known, src, now), AllLinks(s.nodes), src);
  }
}
