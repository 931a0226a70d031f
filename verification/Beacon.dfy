/** The fan-out of a discovery beacon over the control connections
    (server.py:845-879, 1012-1030). */
module Beacon {
  import opened Wire
  import opened UdpRouting
  import M = Membership

  type Writer = nat

  /** What one beacon is fanned out over: the links of the nodes in order, the
      node each connection is registered under, and the connections closing. */
  datatype Room = Room(nodes: seq<Node>, owner: map<Writer, NodeId>, closing: set<Writer>, now: int)

  /** One copy: the connection, the node and endpoint it stands for, and whether
      the frame names the source node (T_BCAST_FROM). */
  datatype Copy = Copy(to: Writer, node: Option<NodeId>, ep: Option<Addr>, named: bool)

  function NodeOf(r: Room, w: Writer): Option<NodeId> {
    if w in r.owner then Some(r.owner[w]) else None
  }

  /** writer_node.get(owner, 0) */
  function SourceNode(r: Room, source: Writer): NodeId {
    if source in r.owner then r.owner[source] else 0
  }

  /** Neither the source, nor closing, nor registered under the source's node. */
  predicate Eligible(r: Room, source: Writer, w: Writer) {
    w != source && w !in r.closing && (SourceNode(r, source) == 0 || NodeOf(r, w) != Some(SourceNode(r, source)))
  }

  function CopyFor(r: Room, source: Writer, l: Link): Copy {
    Copy(l.w, NodeOf(r, l.w), Endpoint(l, r.now), SourceNode(r, source) != 0 && l.w in r.owner)
  }

  /** An endpoint of that node was handed a copy before. */
  predicate Handed(cs: seq<Copy>, node: Option<NodeId>, ep: Option<Addr>) {
    ep.Some? && exists c <- cs :: c.node == node && c.ep == ep
  }

  function FanOut(r: Room, source: Writer, ls: seq<Link>): seq<Copy> {
    if ls == [] then []
    else
      var l := ls[|ls| - 1];
      var cs := FanOut(r, source, ls[..|ls| - 1]);
      if Eligible(r, source, l.w) && !Handed(cs, NodeOf(r, l.w), Endpoint(l, r.now)) then cs + [CopyFor(r, source, l)] else cs
  }

  method FanOutBeacon(r: Room, source: Writer) returns (copies: seq<Copy>)
    ensures copies == FanOut(r, source, AllLinks(r.nodes))
  {
    copies := [];
    var sentEps: set<(Option<NodeId>, Addr)> := {};
    var i := 0;
    while i < |r.nodes|
      invariant 0 <= i <= |r.nodes| && copies == FanOut(r, source, AllLinks(r.nodes[..i]))
      invariant SentEps(sentEps, copies)
    {
      copies, sentEps := FanOutNode(r, source, r.nodes[i].links, copies, sentEps, AllLinks(r.nodes[..i]));
      assert r.nodes[..i + 1][..i] == r.nodes[..i];
      i := i + 1;
    }
    assert r.nodes[..i] == r.nodes;
  }

  /** The pairs recorded in sent_eps are those of the copies made. */
  ghost predicate SentEps(sent: set<(Option<NodeId>, Addr)>, cs: seq<Copy>) {
    forall node, a :: (node, a) in sent <==> Handed(cs, node, Some(a))
  }

  method FanOutNode(r: Room, source: Writer, links: seq<Link>, cs: seq<Copy>, sent: set<(Option<NodeId>, Addr)>, ghost before: seq<Link>)
    returns (copies: seq<Copy>, sentEps: set<(Option<NodeId>, Addr)>)
    requires cs == FanOut(r, source, before) && SentEps(sent, cs)
    ensures copies == FanOut(r, source, before + links) && SentEps(sentEps, copies)
  {
    copies, sentEps := cs, sent;
    assert before + links[..0] == before;
    var j := 0;
    while j < |links|
      invariant 0 <= j <= |links| && copies == FanOut(r, source, before + links[..j]) && SentEps(sentEps, copies)
    {
      FanOutSnoc(r, source, before + links[..j], links[j]);
      assert before + links[..j] + [links[j]] == before + links[..j + 1];
      copies, sentEps := FanOutLink(r, source, links[j], copies, sentEps);
      j := j + 1;
    }
    assert links[..j] == links;
  }

  /** One more link of the fan-out. */
  function OneMore(r: Room, source: Writer, cs: seq<Copy>, l: Link): seq<Copy> {
    if Eligible(r, source, l.w) && !Handed(cs, NodeOf(r, l.w), Endpoint(l, r.now)) then cs + [CopyFor(r, source, l)] else cs
  }

  lemma FanOutSnoc(r: Room, source: Writer, ls: seq<Link>, l: Link)
    ensures FanOut(r, source, ls + [l]) == OneMore(r, source, FanOut(r, source, ls), l)
  {
    assert (ls + [l])[..|ls|] == ls;
  }

  method FanOutLink(r: Room, source: Writer, l: Link, cs: seq<Copy>, sent: set<(Option<NodeId>, Addr)>)
    returns (copies: seq<Copy>, sentEps: set<(Option<NodeId>, Addr)>)
    requires SentEps(sent, cs)
    ensures copies == OneMore(r, source, cs, l) && SentEps(sentEps, copies)
  {
    copies, sentEps := cs, sent;
    var srcNode := SourceNode(r, source);
    if l.w == source || l.w in r.closing { return; }
    var node := NodeOf(r, l.w);
    if srcNode != 0 && node == Some(srcNode) { return; }
    var ep := Endpoint(l, r.now);
    if ep.Some? && (node, ep.value) in sentEps { return; }
    HandedSnoc(copies, CopyFor(r, source, l));
    copies := copies + [CopyFor(r, source, l)];
    if ep.Some? {
      sentEps := sentEps + {(node, ep.value)};
    }
  }

  lemma HandedSnoc(cs: seq<Copy>, c: Copy)
    ensures forall node, ep :: Handed(cs + [c], node, ep) <==> Handed(cs, node, ep) || (ep.Some? && c.node == node && c.ep == ep)
  {
    assert (cs + [c])[|cs|] == c;
    forall node, ep ensures Handed(cs + [c], node, ep) <==> Handed(cs, node, ep) || (ep.Some? && c.node == node && c.ep == ep) {
      if Handed(cs, node, ep) {
        var x :| x in cs && x.node == node && x.ep == ep;
        assert x in cs + [c];
      }
      if Handed(cs + [c], node, ep) {
        var x :| x in cs + [c] && x.node == node && x.ep == ep;
        assert x in cs || x == c;
      }
    }
  }

  // ---- who gets a copy ---------------------------------------------------------------

  /** Not two copies for one endpoint of one node. */
  predicate Apart(c: Copy, d: Copy) {
    c.ep.Some? ==> c.node != d.node || c.ep != d.ep
  }

  predicate AllApart(cs: seq<Copy>) {
    forall i, j | 0 <= i < j < |cs| :: Apart(cs[i], cs[j])
  }

  lemma ApartSnoc(cs: seq<Copy>, d: Copy)
    requires AllApart(cs) && !Handed(cs, d.node, d.ep)
    ensures AllApart(cs + [d])
  {
    forall i | 0 <= i < |cs| ensures Apart(cs[i], d) {
      assert cs[i] in cs;
    }
  }

  /** No copy goes to the source or to its node, and no endpoint of a node gets two. */
  lemma {:induction false} OncePerEndpoint(r: Room, source: Writer, ls: seq<Link>)
    ensures var cs := FanOut(r, source, ls);
            && (forall c <- cs :: Eligible(r, source, c.to) && c.node == NodeOf(r, c.to))
            && AllApart(cs)
  {
    if ls != [] {
      var n := |ls| - 1;
      OncePerEndpoint(r, source, ls[..n]);
      var cs, all, l := FanOut(r, source, ls[..n]), FanOut(r, source, ls), ls[n];
      if all != cs {
        ApartSnoc(cs, CopyFor(r, source, l));
      }
    }
  }

  /** Each copy goes to an open connection other than the source and not registered under
      the source's node, and stands for a link of that connection: its endpoint, and the
      node it is registered under. The frame names the source's node exactly when both
      ends are registered. */
  lemma {:induction false} CopiesNamed(r: Room, source: Writer, ls: seq<Link>)
    ensures forall c <- FanOut(r, source, ls) ::
              && c.to != source && c.to !in r.closing
              && (source in r.owner && r.owner[source] != 0 && c.to in r.owner ==> r.owner[c.to] != r.owner[source])
              && (exists l <- ls :: l.w == c.to && c.ep == Endpoint(l, r.now))
              && (c.node.Some? <==> c.to in r.owner) && (c.to in r.owner ==> c.node == Some(r.owner[c.to]))
              && (c.named <==> source in r.owner && r.owner[source] != 0 && c.to in r.owner)
  {
    if ls != [] {
      var n := |ls| - 1;
      CopiesNamed(r, source, ls[..n]);
      assert ls == ls[..n] + [ls[n]];
    }
  }

  /** A link has been served: a copy went to its connection, or to a live link of
      the same node with the same endpoint. */
  predicate Served(r: Room, source: Writer, ls: seq<Link>, l: Link) {
    || (exists c <- FanOut(r, source, ls) :: c.to == l.w)
    || Handed(FanOut(r, source, ls), NodeOf(r, l.w), Endpoint(l, r.now))
  }

  lemma {:induction false} Reaches(r: Room, source: Writer, ls: seq<Link>, l: Link)
    requires l in ls && Eligible(r, source, l.w)
    ensures Served(r, source, ls, l)
  {
    var n := |ls| - 1;
    var cs := FanOut(r, source, ls[..n]);
    assert ls == ls[..n] + [ls[n]];
    if Eligible(r, source, ls[n].w) { HandedSnoc(cs, CopyFor(r, source, ls[n])); }
    if l in ls[..n] {
      Reaches(r, source, ls[..n], l);
      if c :| c in cs && c.to == l.w {
        assert c in FanOut(r, source, ls);
      }
    } else {
      var all := FanOut(r, source, ls);
      if !Handed(cs, NodeOf(r, l.w), Endpoint(l, r.now)) {
        assert all[|all| - 1].to == l.w;
      }
    }
  }

  /** A live link other than the source is served exactly when its connection is
      not registered under the source's node. */
  lemma ServedIff(r: Room, source: Writer, l: Link)
    requires l in AllLinks(r.nodes) && l.w != source && l.w !in r.closing
    ensures Served(r, source, AllLinks(r.nodes), l)
       <==> SourceNode(r, source) == 0 || NodeOf(r, l.w) != Some(SourceNode(r, source))
  {
    OncePerEndpoint(r, source, AllLinks(r.nodes));
    if Eligible(r, source, l.w) {
      Reaches(r, source, AllLinks(r.nodes), l);
    }
  }

  /** Each link's connection is registered under the node that holds it. */
  predicate Settled(r: Room) {
    forall n <- r.nodes, l <- n.links :: NodeOf(r, l.w) == Some(n.nid)
  }

  lemma {:induction false} AllLinksHas(ns: seq<Node>, n: Node, l: Link)
    requires n in ns && l in n.links
    ensures l in AllLinks(ns)
  {
    var k := |ns| - 1;
    assert ns == ns[..k] + [ns[k]];
    if n in ns[..k] {
      AllLinksHas(ns[..k], n, l);
    }
  }

  /** Where every connection is registered under the node holding it, every live
      link of every other node is served. */
  lemma EveryOtherNodeServed(r: Room, source: Writer, n: Node, l: Link)
    requires Settled(r) && n in r.nodes && l in n.links && n.nid != SourceNode(r, source) && l.w != source && l.w !in r.closing
    ensures Served(r, source, AllLinks(r.nodes), l)
  {
    AllLinksHas(r.nodes, n, l);
    ServedIff(r, source, l);
  }

  // ---- a reachable room that misses a link ------------------------------------------------------

  /** The room of a membership book: the same nodes in the same order, each with
      a link record for every connection it holds. */
  ghost predicate Mirrors(r: Room, b: M.Book) {
    && r.owner == b.owner && r.closing == b.closing && |r.nodes| == |b.nodes|
    && forall i | 0 <= i < |r.nodes| ::
         r.nodes[i].nid == b.nodes[i].nid && forall w :: w in b.nodes[i].links <==> exists l <- r.nodes[i].links :: l.w == w
  }

  /** After three registrations: w under n1, w again under n2, then the source under n2. */
  function Reregistered(net: int, w: Writer, source: Writer, n1: NodeId, n2: NodeId, now: int): M.Book {
    M.Book(net, [M.Entry(n1, net + 2, now, {w}), M.Entry(n2, net + 3, now, {w, source})], map[w := n2, source := n2], {})
  }

  lemma ReregisteredReachable(net: int, w: Writer, source: Writer, n1: NodeId, n2: NodeId, now: int)
    requires M.Subnet(net) && M.IsId(n1) && M.IsId(n2) && n1 != n2 && source != w
    ensures M.Reachable(Reregistered(net, w, source, n1, n2, now))
  {
    var b0 := M.Book(net, [], map[], {});
    var e1, e2 := M.Entry(n1, net + 2, now, {w}), M.Entry(n2, net + 3, now, {w});
    var b1, b2 := b0.(nodes := [e1], owner := map[w := n1]), b0.(nodes := [e1, e2], owner := map[w := n2]);
    M.EmptyReachable(net);
    assert !M.Used(b0.nodes, net + 2) && [] + [e1] == [e1] && map[][w := n1] == map[w := n1];
    M.ReachNew(b0, w, n1, now, 2, b1);
    SecondAddress(b1, e1);
    assert [e1] + [e2] == [e1, e2] && map[w := n1][w := n2] == map[w := n2];
    M.ReachNew(b1, w, n2, now, 3, b2);
    ThirdRegistration(b2, e1, e2, w, source, now, Reregistered(net, w, source, n1, n2, now));
  }

  lemma SecondAddress(b: M.Book, e: M.Entry)
    requires b.nodes == [e] && e.virt == b.net + 2
    ensures M.FreeFrom(b.net, b.nodes, M.FIRST) == 3
  {
    assert e in b.nodes;
    assert M.Used(b.nodes, b.net + 2);
    assert !M.Used(b.nodes, b.net + 3);
  }

  lemma ThirdRegistration(b: M.Book, e1: M.Entry, e2: M.Entry, w: Writer, source: Writer, now: int, b': M.Book)
    requires M.Reachable(b) && M.IsId(e2.nid)
    requires b.nodes == [e1, e2] && e1.nid != e2.nid && e2.links == {w} && e2.seen == now && b.owner == map[w := e2.nid] && source != w
    requires b' == b.(nodes := [e1, e2.(links := {w, source})], owner := map[w := e2.nid, source := e2.nid])
    ensures M.Reachable(b')
  {
    assert b.nodes[1].nid == e2.nid;
    assert M.Find(b.nodes, e2.nid) == 1;
    assert {w} + {source} == {w, source};
    assert [e1, e2][1 := e2.(links := {w, source})] == [e1, e2.(links := {w, source})];
    assert b.owner[source := e2.nid] == b'.owner;
    M.ReachKnown(b, source, e2.nid, now, b');
  }

  /** A connection that registered a second time, under the source's node, is
      still a live link of its first node, and is not served: a room that three
      registrations reach, whatever the links' endpoints. */
  lemma ReregisteredMissed(net: int, w: Writer, source: Writer, n1: NodeId, n2: NodeId, now: int, l1: Link, l2: Link, ls: Link)
    returns (r: Room, b: M.Book)
    requires M.Subnet(net) && M.IsId(n1) && M.IsId(n2) && n1 != n2 && source != w
    requires l1.w == w && l2.w == w && ls.w == source
    ensures M.Reachable(b) && Mirrors(r, b)
    ensures r == Room([Node(n1, [l1]), Node(n2, [l2, ls])], map[w := n2, source := n2], {}, now)
    ensures l1 in AllLinks(r.nodes) && SourceNode(r, source) == n2 != n1 && !Served(r, source, AllLinks(r.nodes), l1)
  {
    b := Reregistered(net, w, source, n1, n2, now);
    ReregisteredReachable(net, w, source, n1, n2, now);
    var a, c := Node(n1, [l1]), Node(n2, [l2, ls]);
    r := Room([a, c], map[w := n2, source := n2], {}, now);
    MirrorsThree(r, b, w, source, l1, l2, ls);
    AllLinksHas(r.nodes, a, l1);
    ServedIff(r, source, l1);
  }

  lemma MirrorsThree(r: Room, b: M.Book, w: Writer, source: Writer, l1: Link, l2: Link, ls: Link)
    requires l1.w == w && l2.w == w && ls.w == source && r.owner == b.owner && r.closing == b.closing
    requires |r.nodes| == |b.nodes| == 2 && r.nodes[0].nid == b.nodes[0].nid && r.nodes[1].nid == b.nodes[1].nid
    requires r.nodes[0].links == [l1] && r.nodes[1].links == [l2, ls] && b.nodes[0].links == {w} && b.nodes[1].links == {w, source}
    ensures Mirrors(r, b)
  {
    assert l1 in r.nodes[0].links && l2 in r.nodes[1].links && ls in r.nodes[1].links;
  }
}
