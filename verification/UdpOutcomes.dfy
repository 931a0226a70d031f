/** What each datagram, and each change of a link, leaves in the tables, and the
    round trips over them (server.py:957-1108, 1155-1355). */
module UdpOutcomes {
  import opened Wire
  import opened UdpRouting
  import opened UdpTheorems

  // ---- the flow table --------------------------------------------------------------

  predicate Has(fs: seq<Flow>, k: Key) {
    exists f <- fs :: f.key == k
  }

  /** The table after some keys were recorded for one player: their entries are new,
      every other entry is as it was. */
  ghost predicate Recorded(before: seq<Flow>, after: seq<Flow>, ks: set<Key>, player: Addr, now: int) {
    && DistinctKeys(after)
    && (forall k <- ks :: Flow(k, player, now) in after)
    && (forall f: Flow | f.key !in ks :: f in after <==> f in before)
  }

  /** Hearing an address makes it known as of now, once, and touches no other. */
  lemma {:induction false} HearIs(ks: seq<Known>, addr: Addr, now: int)
    requires DistinctKnown(ks)
    ensures Known(addr, now) in Hear(ks, addr, now)
    ensures forall k: Known | k.addr != addr :: k in Hear(ks, addr, now) <==> k in ks
    ensures forall k <- Hear(ks, addr, now) :: k.addr == addr ==> k.seen == now
  {
    if ks != [] {
      assert ks == [ks[0]] + ks[1..];
      if ks[0].addr == addr {
        assert Hear(ks, addr, now) == [Known(addr, now)] + ks[1..];
        assert forall i | 0 < i < |ks| :: ks[i].addr != addr;
        forall k <- ks[1..] ensures k.addr != addr {
          var i :| 0 <= i < |ks[1..]| && ks[1..][i] == k;
          assert ks[i + 1] == k;
        }
      } else {
        HearIs(ks[1..], addr, now);
        assert Hear(ks, addr, now) == [ks[0]] + Hear(ks[1..], addr, now);
      }
    }
  }

  lemma FindHas(fs: seq<Flow>, k: Key)
    ensures FindFlow(fs, k) < |fs| <==> Has(fs, k)
  {
    if f :| f in fs && f.key == k {
      var j :| 0 <= j < |fs| && fs[j] == f;
      assert !(j < FindFlow(fs, k));
    }
    if FindFlow(fs, k) < |fs| {
      assert fs[FindFlow(fs, k)] in fs;
    }
  }

  lemma SetRecorded(fs: seq<Flow>, k: Key, player: Addr, now: int)
    requires DistinctKeys(fs)
    ensures Recorded(fs, SetFlow(fs, k, player, now), {k}, player, now)
    ensures |SetFlow(fs, k, player, now)| == |fs| + if Has(fs, k) then 0 else 1
  {
    var r, i := SetFlow(fs, k, player, now), FindFlow(fs, k);
    FindHas(fs, k);
    assert DistinctKeys(r) by { SetThenFind(fs, k, player, now, k); }
    assert r[if i < |fs| then i else |fs|] == Flow(k, player, now);
    forall f: Flow | f.key != k ensures f in r <==> f in fs {
      if f in fs {
        var j :| 0 <= j < |fs| && fs[j] == f;
        assert r[j] == f;
      }
      if f in r {
        var j :| 0 <= j < |r| && r[j] == f;
        assert fs[j] == f;
      }
    }
  }

  lemma {:induction false} PlayerIn(fs: seq<Flow>, f: Flow)
    requires DistinctKeys(fs) && f in fs
    ensures PlayerOf(fs, f.key) == Some(f.player)
  {
    var j :| 0 <= j < |fs| && fs[j] == f;
    FindAt(fs, j);
  }

  /** An addressed datagram that reaches somebody records its sender for exactly its
      node and triple, and makes it known; past 2048 entries the table is cleared. One
      that reaches nobody, or is not allowed, records nothing. */
  lemma P2PRecords(s: State, src: Addr, dest: NodeId, t: Triple, allowed: bool, now: int)
    requires UdpTheorems.Inv(s)
    ensures var (s', out) := Handle(s, src, P2P(dest, t, allowed), now);
            var k := Key(ToNode(dest), t);
            && (!allowed ==> out == [])
            && (out == [] ==> s'.flows == s.flows)
            && (out != [] ==>
                  && Known(src, now) in s'.known
                  && if |s.flows| + (if Has(s.flows, k) then 0 else 1) > 2048 then s'.flows == []
                     else Recorded(s.flows, s'.flows, {k}, src, now) && PlayerOf(s'.flows, k) == Some(src))
  {
    var (s', out) := Handle(s, src, P2P(dest, t, allowed), now);
    var k := Key(ToNode(dest), t);
    if allowed && out != [] {
      SetRecorded(s.flows, k, src, now);
      var s1 := if Except(NodeAddrs(s.nodes, dest, now), src) == [] then Prove(s, src, now) else s;
      ProveKeeps(s, src, now);
      HearIs(s1.known, src, now);
      PlayerIn(SetFlow(s.flows, k, src, now), Flow(k, src, now));
    }
  }

  /** The keys under which a fan-out is recorded. */
  function FanKeys(out: seq<Addr>, t: Triple): (ks: set<Key>)
    ensures forall a <- out :: Key(ToAddr(a), t) in ks
  {
    set a <- out :: Key(ToAddr(a), t)
  }

  /** How many of them the table does not have yet. */
  function Fresh(fs: seq<Flow>, out: seq<Addr>, t: Triple): nat {
    if out == [] then 0
    else Fresh(fs, out[..|out| - 1], t) + if Has(fs, Key(ToAddr(out[|out| - 1]), t)) then 0 else 1
  }

  lemma RecordedMore(a: seq<Flow>, b: seq<Flow>, c: seq<Flow>, ks: set<Key>, k: Key, player: Addr, now: int)
    requires Recorded(a, b, ks, player, now) && Recorded(b, c, {k}, player, now)
    ensures Recorded(a, c, ks + {k}, player, now)
  {
    forall x <- ks + {k} ensures Flow(x, player, now) in c {
      if x != k { assert Flow(x, player, now).key !in {k}; }
    }
  }

  lemma {:induction false} RecordAllIs(s: State, out: seq<Addr>, t: Triple, player: Addr, now: int)
    requires DistinctKeys(s.flows) && UdpTheorems.Distinct(out)
    ensures var fs := RecordAll(s, out, t, player, now).flows;
            Recorded(s.flows, fs, FanKeys(out, t), player, now) && |fs| == |s.flows| + Fresh(s.flows, out, t)
  {
    if out != [] {
      var n := |out| - 1;
      var k := Key(ToAddr(out[n]), t);
      RecordAllIs(s, out[..n], t, player, now);
      var m := RecordAll(s, out[..n], t, player, now);
      SetRecorded(m.flows, k, player, now);
      RecordedMore(s.flows, m.flows, SetFlow(m.flows, k, player, now), FanKeys(out[..n], t), k, player, now);
      assert FanKeys(out, t) == FanKeys(out[..n], t) + {k} by { assert out == out[..n] + [out[n]]; }
      NotRecorded(s.flows, m.flows, FanKeys(out[..n], t), player, now, k);
    }
  }

  lemma NotRecorded(a: seq<Flow>, b: seq<Flow>, ks: set<Key>, player: Addr, now: int, k: Key)
    requires Recorded(a, b, ks, player, now) && k !in ks
    ensures Has(a, k) <==> Has(b, k)
  {
  }

  /** An unaddressed datagram that reaches somebody records its sender under every
      address it is sent to, with its triple; past 2048 entries the table is cleared. */
  lemma C2SRecords(s: State, src: Addr, t: Triple, allowed: bool, now: int)
    requires UdpTheorems.Inv(s)
    ensures var (s', out) := Handle(s, src, C2S(t, allowed), now);
            && (!allowed ==> out == [])
            && (out == [] ==> s'.flows == s.flows)
            && (allowed ==> Known(src, now) in s'.known)
            && (out != [] ==>
                  if |s.flows| + Fresh(s.flows, out, t) > 2048 then s'.flows == []
                  else && Recorded(s.flows, s'.flows, FanKeys(out, t), src, now)
                       && forall a <- out :: PlayerOf(s'.flows, Key(ToAddr(a), t)) == Some(src))
  {
    if allowed {
      var p := Prove(s, src, now);
      ProveKeeps(s, src, now);
      HearKeeps(p.known, src, now);
      HearIs(p.known, src, now);
      var s1 := p.(known := Hear(p.known, src, now));
      var out := Targets(s1, t.gport, src, now);
      TargetsOnce(s1, t.gport, src, now);
      var s2 := DropStale(s1, t.gport, src, now);
      RecordAllIs(s2, out, t, src, now);
      RecordAllKnown(s2, out, t, src, now);
      forall a <- out ensures PlayerOf(RecordAll(s2, out, t, src, now).flows, Key(ToAddr(a), t)) == Some(src) {
        PlayerIn(RecordAll(s2, out, t, src, now).flows, Flow(Key(ToAddr(a), t), src, now));
      }
    }
  }

  lemma {:induction false} RecordAllKnown(s: State, out: seq<Addr>, t: Triple, player: Addr, now: int)
    ensures RecordAll(s, out, t, player, now).known == s.known
  {
    if out != [] {
      RecordAllKnown(s, out[..|out| - 1], t, player, now);
    }
  }

  // ---- the reply ---------------------------------------------------------------------

  lemma FlowAt(fs: seq<Flow>, f: Flow)
    requires DistinctKeys(fs) && f in fs
    ensures FindFlow(fs, f.key) < |fs| && fs[FindFlow(fs, f.key)] == f
  {
    var j :| 0 <= j < |fs| && fs[j] == f;
    FindAt(fs, j);
  }

  /** The node table is a dictionary. */
  predicate Keyed(ns: seq<Node>) {
    forall i, j | 0 <= i < j < |ns| :: ns[i].nid != ns[j].nid
  }

  lemma OnlyNode(ns: seq<Node>, n: Node)
    requires Keyed(ns) && n in ns
    ensures NodeIndex(ns, n.nid) < |ns| && LinksOf(ns, n.nid) == n.links
  {
    var j :| 0 <= j < |ns| && ns[j] == n;
    assert NodeIndex(ns, n.nid) <= j;
  }

  /** A proof of an endpoint its node owns leaves it that node's. */
  lemma ProofKeepsOwner(s: State, h: Addr, nid: NodeId, now: int)
    requires Keyed(s.nodes) && NodeByAddr(s.nodes, h) == Some(nid) && now > -1
    ensures NodeByAddr(Prove(s, h, now).nodes, h) == Some(nid)
  {
    var ls := LinksOf(s.nodes, nid);
    var i := NodeIndex(s.nodes, nid);
    if i < |s.nodes| && ls != [] && !(exists x <- ls :: x.udpAddr == Some(h)) {
      forall n <- s.nodes, x <- n.links ensures x.udpAddr == Some(h) ==> x.seenUdp < now {
        if x.udpAddr == Some(h) { NotHeard(s.nodes, h, nid, n.nid, x); }
      }
      var j := if FirstUnseen(ls) < |ls| then FirstUnseen(ls) else Stalest(ls);
      RelinkedOwner(s.nodes, nid, j, h, now);
      assert Prove(s, h, now).nodes == Relinked(s.nodes, nid, j, h, now);
    } else {
      assert Prove(s, h, now).nodes == s.nodes;
    }
  }

  /** An owner none of whose links was heard there has merely declared the address. */
  lemma NotHeard(ns: seq<Node>, h: Addr, nid: NodeId, other: NodeId, x: Link)
    requires Keyed(ns) && NodeByAddr(ns, h) == Some(nid) && !(exists y <- LinksOf(ns, nid) :: y.udpAddr == Some(h))
    requires x.udpAddr == Some(h) && exists n <- ns :: n.nid == other && x in n.links
    ensures x.seenUdp <= -1
  {
    var k := AddressOwner(ns, h);
    var ps := Pairs(ns);
    PairsHas(ns, other, x);
    assert (other, x) in ps;
    if HeardLast(ps, h, k) {
      assert ps[k] in ps;
      PairsHas(ns, ps[k].0, ps[k].1);
      var n :| n in ns && n.nid == nid && ps[k].1 in n.links;
      OnlyNode(ns, n);
      assert false;
    }
  }

  /** A reply that finds a live flow of another player goes to that player alone. The
      flow is fresh again, and for a minute the player's datagrams for that port go to
      the replier; past 2048 such pairs they are all forgotten. */
  lemma ReplyOutcome(s: State, h: Addr, t: Triple, f: Flow, now: int)
    requires UdpTheorems.Inv(s) && f in s.flows && now - f.seen <= 120 && f.player != h
    requires f.key == Key(ToAddr(h), t)
             || (!Has(s.flows, Key(ToAddr(h), t)) && exists nid :: NodeByAddr(Prove(s, h, now).nodes, h) == Some(nid) && f.key == Key(ToNode(nid), t))
    ensures var (s', out) := Handle(s, h, S2C(t), now);
            && out == [f.player]
            && Flow(f.key, f.player, now) in s'.flows && PlayerOf(s'.flows, f.key) == Some(f.player)
            && (if |s.learned| + (if (f.player, t.gport) in s.learned then 0 else 1) > 2048 then s'.learned == map[]
                else s'.learned == s.learned[(f.player, t.gport) := Known(h, now)])
  {
    var p := Prove(s, h, now);
    ProveKeeps(s, h, now);
    FlowAt(s.flows, f);
    FindHas(s.flows, Key(ToAddr(h), t));
    var i := FindFlow(s.flows, f.key);
    assert ReplyFlow(p, t, h, now) == Some(i);
    var s' := Handle(s, h, S2C(t), now).0;
    assert s'.flows[i] == Flow(f.key, f.player, now);
    S2CKeeps(s, h, t, now);
    PlayerIn(s'.flows, Flow(f.key, f.player, now));
  }

  /** An expired flow, or one of the replier itself, sends the reply nowhere and
      changes nothing but what the datagram proves. */
  lemma DeadReplyOutcome(s: State, h: Addr, t: Triple, f: Flow, now: int)
    requires UdpTheorems.Inv(s) && f in s.flows && f.key == Key(ToAddr(h), t) && (now - f.seen > 120 || f.player == h)
    ensures Handle(s, h, S2C(t), now) == (Prove(s, h, now), [])
  {
    ProveKeeps(s, h, now);
    FlowAt(s.flows, f);
  }

  /** The round trip of an addressed datagram: what a node answers, from any address it
      owns that has no flow of its own, within two minutes, goes to the sender alone. */
  lemma P2PRoundTrip(s: State, src: Addr, dest: NodeId, t: Triple, now: int, h: Addr, later: int)
    requires UdpTheorems.Inv(s) && Handle(s, src, P2P(dest, t, true), now).1 != [] && |s.flows| < 2048
    requires var s1 := Handle(s, src, P2P(dest, t, true), now).0;
             Keyed(s1.nodes) && NodeByAddr(s1.nodes, h) == Some(dest) && !Has(s1.flows, Key(ToAddr(h), t))
    requires h != src && -1 < later && later - now <= 120
    ensures Handle(Handle(s, src, P2P(dest, t, true), now).0, h, S2C(t), later).1 == [src]
  {
    var s1 := Handle(s, src, P2P(dest, t, true), now).0;
    P2PRecords(s, src, dest, t, true, now);
    P2PKeeps(s, src, dest, t, true, now);
    ProofKeepsOwner(s1, h, dest, later);
    ReplyOutcome(s1, h, t, Flow(Key(ToNode(dest), t), src, now), later);
  }

  /** The round trip of an unaddressed one: what any address it was sent to answers. */
  lemma C2SRoundTrip(s: State, src: Addr, t: Triple, now: int, h: Addr, later: int)
    requires UdpTheorems.Inv(s) && h in Handle(s, src, C2S(t, true), now).1
    requires |s.flows| + |Handle(s, src, C2S(t, true), now).1| <= 2048 && later - now <= 120
    ensures Handle(Handle(s, src, C2S(t, true), now).0, h, S2C(t), later).1 == [src]
  {
    var (s1, out) := Handle(s, src, C2S(t, true), now);
    C2SRecords(s, src, t, true, now);
    C2SKeeps(s, src, t, true, now);
    FreshAtMost(s.flows, out, t);
    assert h != src;
    ReplyOutcome(s1, h, t, Flow(Key(ToAddr(h), t), src, now), later);
  }

  lemma {:induction false} FreshAtMost(fs: seq<Flow>, out: seq<Addr>, t: Triple)
    ensures Fresh(fs, out, t) <= |out|
  {
    if out != [] {
      FreshAtMost(fs, out[..|out| - 1], t);
    }
  }

  /** And then, for less than a minute, the player's next datagrams for that port go to
      the replier alone instead of being fanned out. */
  lemma StickyRoundTrip(s: State, h: Addr, t: Triple, f: Flow, now: int, u: Triple, later: int)
    requires UdpTheorems.Inv(s) && f in s.flows && now - f.seen <= 120 && f.player != h && f.key == Key(ToAddr(h), t)
    requires |s.learned| < 2048 && later - now < 60 && u.gport == t.gport
    ensures Handle(Handle(s, h, S2C(t), now).0, f.player, C2S(u, true), later).1 == [h]
  {
    ReplyOutcome(s, h, t, f, now);
    var s1 := Handle(s, h, S2C(t), now).0;
    S2CKeeps(s, h, t, now);
    ProveKeeps(s1, f.player, later);
  }

  /** A replier learned a minute ago or longer, or that is the sender, is forgotten. */
  lemma StaleForgotten(s: State, src: Addr, t: Triple, now: int)
    requires UdpTheorems.Inv(s) && (src, t.gport) in s.learned
    requires now - s.learned[(src, t.gport)].seen >= 60 || s.learned[(src, t.gport)].addr == src
    ensures Handle(s, src, C2S(t, true), now).0.learned == s.learned - {(src, t.gport)}
  {
    var p := Prove(s, src, now);
    ProveKeeps(s, src, now);
    var s1 := p.(known := Hear(p.known, src, now));
    var s2 := DropStale(s1, t.gport, src, now);
    RecordAllLearned(s2, Targets(s1, t.gport, src, now), t, src, now);
  }

  lemma {:induction false} RecordAllLearned(s: State, out: seq<Addr>, t: Triple, player: Addr, now: int)
    ensures RecordAll(s, out, t, player, now).learned == s.learned
  {
    if out != [] {
      RecordAllLearned(s, out[..|out| - 1], t, player, now);
    }
  }

  // ---- ICMP ------------------------------------------------------------------------------

  /** An ICMP message goes to its node's endpoints but the sender's own, and a request to
      node 0 back to its sender. It goes nowhere from a sender neither known nor named, to
      node 0 unless it is a request, and to the sender's own node, which is the one its
      address belongs to whatever it says. */
  lemma IcmpOutcome(s: State, src: Addr, request: bool, claimed: NodeId, dest: NodeId, now: int)
    ensures var (s', out) := Handle(s, src, Icmp(request, claimed, dest), now);
            var o := NodeByAddr(s.nodes, src);
            var from := if o.Some? then o.value else claimed;
            && (out == [src] && dest == 0 <==> dest == 0 && request && (o.Some? || claimed != 0))
            && (dest != 0 && dest != from && (o.Some? || claimed != 0) ==> out == Except(NodeAddrs(s.nodes, dest, now), src))
            && (dest == 0 && (!request || (o.None? && claimed == 0)) ==> out == [])
            && (dest != 0 && (dest == from || (o.None? && claimed == 0)) ==> out == [])
            && s'.flows == s.flows && s'.learned == s.learned && s'.nodes == s.nodes
            && s'.known == if out == [] then s.known else Hear(s.known, src, now)
  {
  }

  // ---- endpoints and links ---------------------------------------------------------------------

  /** Where a link is reached: over its control connection once it is switched; else at
      the address heard within two minutes; else at the port it declared; else nowhere. */
  lemma EndpointIs(l: Link, now: int)
    ensures l.udpTcp ==> Endpoint(l, now) == Some(Tun(l.w))
    ensures !l.udpTcp && l.udpAddr.Some? && now - l.seenUdp < 120 ==> Endpoint(l, now) == l.udpAddr
    ensures !l.udpTcp && !(l.udpAddr.Some? && now - l.seenUdp < 120) ==>
              Endpoint(l, now) == if l.udpPort != 0 && l.tcpIp != 0 then Some(Udp(l.tcpIp, l.udpPort)) else None
  {
  }

  /** Link i is the first that passes. */
  predicate FirstSuch(ls: seq<Link>, p: Link -> bool, i: nat) {
    i < |ls| && p(ls[i]) && forall j | 0 <= j < i :: !p(ls[j])
  }

  /** Of those that pass, link i was heard longest ago, the first such on a tie. */
  predicate LongestAgo(ls: seq<Link>, p: Link -> bool, i: nat) {
    && i < |ls| && p(ls[i])
    && (forall j | 0 <= j < |ls| && p(ls[j]) :: ls[i].seenUdp <= ls[j].seenUdp)
    && (forall j | 0 <= j < i && p(ls[j]) :: ls[i].seenUdp < ls[j].seenUdp)
  }

  lemma {:induction false} StalestAtIs(ls: seq<Link>, addr: Addr)
    ensures StalestAt(ls, addr).Some? ==> LongestAgo(ls, (l: Link) => SameIp(l, addr), StalestAt(ls, addr).value)
    ensures StalestAt(ls, addr).None? ==> forall l <- ls :: !SameIp(l, addr)
  {
    if ls != [] {
      var n := |ls| - 1;
      StalestAtIs(ls[..n], addr);
      assert ls == ls[..n] + [ls[n]];
      assert forall j | 0 <= j < n :: ls[..n][j] == ls[j];
    }
  }

  lemma {:induction false} StalestIs(ls: seq<Link>)
    requires ls != []
    ensures LongestAgo(ls, (l: Link) => true, Stalest(ls))
  {
    if |ls| > 1 {
      var n := |ls| - 1;
      StalestIs(ls[..n]);
      assert forall j | 0 <= j < n :: ls[..n][j] == ls[j];
    }
  }

  lemma {:induction false} FirstUnseenIs(ls: seq<Link>)
    ensures FirstUnseen(ls) < |ls| ==> ls[FirstUnseen(ls)].udpAddr.None?
    ensures FirstUnseen(ls) <= |ls| && forall j | 0 <= j < FirstUnseen(ls) :: ls[j].udpAddr.Some?
  {
    if ls != [] && ls[0].udpAddr.Some? {
      FirstUnseenIs(ls[1..]);
    }
  }

  /** The link an announced endpoint joins: the first that declared it; else the first of
      that IP never heard; else the one of that IP heard longest ago; else the first. */
  lemma AnnounceTargetIs(ls: seq<Link>, addr: Addr)
    requires ls != []
    ensures var i := AnnounceTarget(ls, addr);
            if exists l <- ls :: addr.Udp? && l.tcpIp == addr.ip && l.udpPort == addr.port then
              FirstSuch(ls, (l: Link) => addr.Udp? && l.tcpIp == addr.ip && l.udpPort == addr.port, i)
            else if exists l <- ls :: addr.Udp? && l.tcpIp == addr.ip && l.udpAddr.None? then
              FirstSuch(ls, (l: Link) => addr.Udp? && l.tcpIp == addr.ip && l.udpAddr.None?, i)
            else if exists l <- ls :: addr.Udp? && l.tcpIp == addr.ip then
              LongestAgo(ls, (l: Link) => SameIp(l, addr), i)
            else i == 0
  {
    StalestAtIs(ls, addr);
  }

  /** A datagram from an address its node's links have not been heard at joins the first
      of them never heard, else the one heard longest ago, and no other link changes. */
  lemma ProofOutcome(s: State, addr: Addr, nid: NodeId, now: int)
    requires DistinctKnown(s.known) && NodeByAddr(s.nodes, addr) == Some(nid) && NodeIndex(s.nodes, nid) < |s.nodes|
    ensures var ls, ls' := LinksOf(s.nodes, nid), LinksOf(Prove(s, addr, now).nodes, nid);
            && Known(addr, now) in Prove(s, addr, now).known
            && if ls == [] || exists l <- ls :: l.udpAddr == Some(addr) then ls' == ls
               else exists i: nat :: i < |ls| && Takes(ls, i) && ls' == ls[i := ls[i].(udpAddr := Some(addr), seenUdp := now)]
  {
    HearIs(s.known, addr, now);
    var ls := LinksOf(s.nodes, nid);
    PutAt(s.nodes, nid, Attach(ls, addr, now));
    assert Prove(s, addr, now).nodes == WithLinks(s.nodes, nid, Attach(ls, addr, now));
    AttachOutcome(ls, addr, now);
  }

  /** The link that takes the endpoint. */
  predicate Takes(ls: seq<Link>, i: nat) {
    if exists l <- ls :: l.udpAddr.None? then FirstSuch(ls, (l: Link) => l.udpAddr.None?, i)
    else LongestAgo(ls, (l: Link) => true, i)
  }

  lemma TakerIs(ls: seq<Link>)
    requires ls != []
    ensures Takes(ls, if FirstUnseen(ls) < |ls| then FirstUnseen(ls) else Stalest(ls))
  {
    FirstUnseenIs(ls);
    StalestIs(ls);
    assert forall i | 0 <= i < |ls| :: ls[i] in ls;
  }

  lemma AttachOutcome(ls: seq<Link>, addr: Addr, now: int)
    ensures if ls == [] || exists l <- ls :: l.udpAddr == Some(addr) then Attach(ls, addr, now) == ls
            else exists i: nat :: i < |ls| && Takes(ls, i) && Attach(ls, addr, now) == ls[i := ls[i].(udpAddr := Some(addr), seenUdp := now)]
  {
    if ls != [] {
      TakerIs(ls);
    }
  }

  /** A registration's link: named after its connection, at the IP it came from. A port it
      had not declared, or a first one, becomes its address, heard now; no port, or the
      same again, leaves the address alone. A switch that came first is made good. */
  lemma RegisterOutcome(s: State, w: nat, nid: NodeId, ip: Ip, port: Port, moded: bool, now: int)
    requires DistinctKnown(s.known)
    ensures var s' := OnRegister(s, w, nid, ip, port, moded, now);
            var ls, ls' := LinksOf(s.nodes, nid), LinksOf(s'.nodes, nid);
            var i := LinkIndex(ls, w);
            && i < |ls'| && |ls'| == (if i < |ls| then |ls| else |ls| + 1)
            && (forall j | 0 <= j < |ls| && j != i :: ls'[j] == ls[j])
            && var l, l' := (if i < |ls| then ls[i] else Link(w, 0, 0, None, 0, false)), ls'[i];
               && l'.w == w && l'.tcpIp == ip && l'.udpTcp == (l.udpTcp || moded)
               && if port != 0 && (l.udpPort != port || l.udpAddr == None) then
                    l'.udpPort == port && l'.udpAddr == Some(Udp(ip, port)) && l'.seenUdp == now && Known(Udp(ip, port), now) in s'.known
                  else l'.udpPort == l.udpPort && l'.udpAddr == l.udpAddr && l'.seenUdp == l.seenUdp && s'.known == s.known
  {
    HearIs(s.known, Udp(ip, port), now);
    var ls := LinksOf(s.nodes, nid);
    var l' := Refreshed(LinkOf(ls, w), ip, port, moded, now);
    assert l'.w == w;
    PutAt(s.nodes, nid, PutLink(ls, l'));
  }

  lemma {:induction false} PutAt(ns: seq<Node>, nid: NodeId, ls: seq<Link>)
    ensures LinksOf(WithLinks(ns, nid, ls), nid) == ls
  {
    var i := NodeIndex(ns, nid);
    var ns' := WithLinks(ns, nid, ls);
    assert forall j | 0 <= j < i :: ns'[j] == ns[j];
    assert ns'[i] == Node(nid, ls);
    assert NodeIndex(ns', nid) == i;
  }

  /** T_UDP_MODE flags the connection's link and nothing else. */
  lemma ModeOutcome(s: State, w: nat, nid: NodeId)
    ensures var ls, s' := LinksOf(s.nodes, nid), OnMode(s, w, nid);
            var i := LinkIndex(ls, w);
            if i < |ls| then LinksOf(s'.nodes, nid) == ls[i := ls[i].(udpTcp := true)] && ls[i].w == w else s' == s
  {
    var ls := LinksOf(s.nodes, nid);
    if LinkIndex(ls, w) < |ls| {
      PutAt(s.nodes, nid, PutLink(ls, LinkOf(ls, w).(udpTcp := true)));
    }
  }
}
