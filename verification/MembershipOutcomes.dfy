/** How long an address is kept, and what registering and disconnecting leave in the
    book (server.py:226-351, 886-899). */
module MembershipOutcomes {
  import opened Wire
  import opened Membership

  /** An entry outlives a pruning while one of its connections is open, and for ten
      minutes after it was last seen. */
  lemma StaysIs(e: Entry, closing: set<Writer>, now: int)
    ensures Stays(e, closing, now) <==> (exists w <- e.links :: w !in closing) || now - e.seen <= 600000
  {
    if w :| w in e.links && w !in closing {
      assert w in e.links - closing;
    }
  }

  /** Node c has no link, and of those without was seen longest ago, the first of them listed. */
  predicate StalestAt(es: seq<Entry>, c: nat) {
    && c < |es| && es[c].links == {}
    && (forall k | 0 <= k < |es| && es[k].links == {} :: es[c].seen <= es[k].seen)
    && (forall k | 0 <= k < c && es[k].links == {} :: es[c].seen < es[k].seen)
  }

  /** No address is free, and this is the stalest node without a link. */
  predicate StalestOfFull(p: Book, nid: NodeId) {
    && (forall v | p.net + 2 <= v <= p.net + 254 :: Used(p.nodes, v))
    && exists c | 0 <= c < |p.nodes| :: p.nodes[c].nid == nid && StalestAt(p.nodes, c)
  }

  lemma StalestUnique(es: seq<Entry>, c: nat)
    requires StalestAt(es, c)
    ensures Stalest(es) == c
  {
    assert Stalest(es) < |es|;
  }

  lemma EvictedIs(p: Book, nid: NodeId)
    ensures Evicted(p, nid) <==> StalestOfFull(p, nid)
  {
    var v, c := FreeFrom(p.net, p.nodes, FIRST), Stalest(p.nodes);
    assert v > LAST <==> forall a | p.net + 2 <= a <= p.net + 254 :: Used(p.nodes, a);
    if k :| 0 <= k < |p.nodes| && p.nodes[k].nid == nid && StalestAt(p.nodes, k) {
      StalestUnique(p.nodes, k);
    }
  }

  /** The end of a connection: the node it was registered under loses that link and is
      seen now; its address, the other nodes and their registrations stay. */
  lemma DisconnectOutcome(b: Book, w: Writer, now: int)
    requires w in b.owner && exists e <- b.nodes :: e.nid == b.owner[w]
    ensures var d := Disconnect(b, w, now);
            && d.owner == b.owner - {w} && d.closing == b.closing + {w} && |d.nodes| == |b.nodes|
            && exists i: nat ::
                 && i < |b.nodes| && b.nodes[i].nid == b.owner[w]
                 && d.nodes[i] == b.nodes[i].(seen := now, links := b.nodes[i].links - {w})
                 && forall k | 0 <= k < |b.nodes| && k != i :: d.nodes[k] == b.nodes[k]
  {
    var i := Find(b.nodes, b.owner[w]);
    assert i < |b.nodes|;
  }

  /** A node whose last connection ends keeps its address for ten minutes against any
      registration but one that finds the network full and it the stalest; after that it
      loses it to the first registration of a node not listed. */
  lemma DarkNodeKeepsAddress(b: Book, w: Writer, now: int, e: Entry, w2: Writer, node: NodeId, later: int)
    requires Inv(b) && e in b.nodes && w in b.owner && b.owner[w] == e.nid && e.links - b.closing <= {w}
    ensures var d := Disconnect(b, w, now);
            var stranger := forall f <- b.nodes :: f.nid != node;
            !Holds(Register(d, w2, node, later).1, e.nid, e.virt)
            <==> stranger && (later - now > 600000 || StalestOfFull(Prune(d, later), e.nid))
  {
    var d := Disconnect(b, w, now);
    DisconnectKeeps(b, w, now);
    var i := Find(b.nodes, e.nid);
    var k :| 0 <= k < |b.nodes| && b.nodes[k] == e;
    assert i == k;
    var e' := e.(seen := now, links := e.links - {w});
    assert d.nodes[i] == e' && e' in d.nodes;
    SameIds(b, d, node);
    LosesAddressIff(d, w2, node, later, e');
    StaysIs(e', d.closing, later);
    EvictedIs(Prune(d, later), e.nid);
  }

  lemma SameIds(b: Book, d: Book, node: NodeId)
    requires |d.nodes| == |b.nodes| && forall k | 0 <= k < |b.nodes| :: d.nodes[k].nid == b.nodes[k].nid
    ensures (forall f <- d.nodes :: f.nid != node) <==> (forall f <- b.nodes :: f.nid != node)
  {
    if f :| f in b.nodes && f.nid == node {
      var k :| 0 <= k < |b.nodes| && b.nodes[k] == f;
      assert d.nodes[k] in d.nodes;
    }
    if f :| f in d.nodes && f.nid == node {
      var k :| 0 <= k < |d.nodes| && d.nodes[k] == f;
      assert b.nodes[k] in b.nodes;
    }
  }

  /** An accepted registration is on record: the connection is a link of its node and
      registered under it, and the node is seen now. */
  lemma RegisteredOutcome(b: Book, w: Writer, node: NodeId, now: int)
    requires Inv(b) && IsId(node) && Register(b, w, node, now).0
    ensures var r := Register(b, w, node, now).1;
            && w in r.owner && r.owner[w] == node
            && exists e <- r.nodes :: e.nid == node && w in e.links && e.seen == now
  {
    var q := if Find(b.nodes, node) < |b.nodes| then b else Enter(Prune(b, now), node).value;
    EntryListed(q, node);
    var i := Find(q.nodes, node);
    var r := Attach(q, w, node, now);
    assert r.nodes[i] in r.nodes;
  }

  lemma EntryListed(q: Book, node: NodeId)
    requires exists e <- q.nodes :: e.nid == node
    ensures Find(q.nodes, node) < |q.nodes|
  {
    var e :| e in q.nodes && e.nid == node;
    var k :| 0 <= k < |q.nodes| && q.nodes[k] == e;
  }

  /** A node not listed yet gets the lowest address that nobody listed after the pruning
      holds, and, when there is none, that of the stalest node without a link. */
  lemma NewAddress(b: Book, w: Writer, node: NodeId, now: int, e: Entry)
    requires Inv(b) && IsId(node) && (forall f <- b.nodes :: f.nid != node) && Register(b, w, node, now).0
    requires e in Register(b, w, node, now).1.nodes && e.nid == node
    ensures var p := Prune(b, now);
            if exists v :: p.net + 2 <= v <= p.net + 254 && !Used(p.nodes, v) then
              && p.net + 2 <= e.virt <= p.net + 254 && !Used(p.nodes, e.virt)
              && forall v | p.net + 2 <= v < e.virt :: Used(p.nodes, v)
            else exists f <- p.nodes :: StalestOfFull(p, f.nid) && e.virt == f.virt
    ensures e.links == {w} && e.seen == now
  {
    var p := Prune(b, now);
    PruneKeeps(b, now);
    StillUnknown(b, node, now);
    var q := Enter(p, node).value;
    EnterKeeps(p, node);
    var v, c := FreeFrom(p.net, p.nodes, FIRST), Stalest(p.nodes);
    LastIsNew(p, q, node);
    AttachedEntry(q, w, node, now, e);
    if v > LAST {
      EvictedIs(p, p.nodes[c].nid);
      assert p.nodes[c] in p.nodes;
    }
  }

  lemma LastIsNew(p: Book, q: Book, node: NodeId)
    requires Enter(p, node) == Some(q)
    ensures var v, c := FreeFrom(p.net, p.nodes, FIRST), Stalest(p.nodes);
            q.nodes != [] && (v > LAST ==> c < |p.nodes|)
            && q.nodes[|q.nodes| - 1] == Entry(node, if v <= LAST then p.net + v else p.nodes[c].virt, 0, {})
  {
  }

  /** The node's only entry, after the link was added. */
  lemma AttachedEntry(q: Book, w: Writer, node: NodeId, now: int, e: Entry)
    requires Inv(q) && q.nodes != [] && q.nodes[|q.nodes| - 1].nid == node && q.nodes[|q.nodes| - 1].links == {}
    requires Find(q.nodes, node) < |q.nodes| && e in Attach(q, w, node, now).nodes && e.nid == node
    ensures e.virt == q.nodes[|q.nodes| - 1].virt && e.links == {w} && e.seen == now
  {
    var i := Find(q.nodes, node);
    assert i == |q.nodes| - 1;
    var r := Attach(q, w, node, now);
    var k :| 0 <= k < |r.nodes| && r.nodes[k] == e;
    assert k == i;
  }
}
