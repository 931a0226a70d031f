/** Virtual-LAN membership (server.py:226-351, 886-899): which node holds which
    address of the /24, the links of each node, and the node of each link. */
module Membership {
  import opened Wire

  type Writer = nat // a control connection
  type NodeId = nat

  /** NODE_TTL, in milliseconds. */
  const NODE_TTL := 600000
  const FIRST := 2
  const LAST := 254

  datatype Entry = Entry(nid: NodeId, virt: int, seen: int, links: set<Writer>)

  /** `nodes` in the order of the code's dictionary; `owner` is writer_node;
      `closing` holds the connections whose is_closing() is true. */
  datatype Book = Book(net: int, nodes: seq<Entry>, owner: map<Writer, NodeId>, closing: set<Writer>)

  // ---- prune_nodes ---------------------------------------------------------------

  function Detached(e: Entry, closing: set<Writer>): Entry {
    e.(links := e.links - closing)
  }

  /** A node stays while any link lives, and NODE_TTL longer. */
  predicate Stays(e: Entry, closing: set<Writer>, now: int) {
    e.links - closing != {} || now - e.seen <= NODE_TTL
  }

  function Kept(es: seq<Entry>, closing: set<Writer>, now: int): seq<Entry> {
    if es == [] then []
    else
      var n := |es| - 1;
      Kept(es[..n], closing, now) + if Stays(es[n], closing, now) then [Detached(es[n], closing)] else []
  }

  function Without(owner: map<Writer, NodeId>, nid: NodeId): map<Writer, NodeId> {
    map w | w in owner && owner[w] != nid :: owner[w]
  }

  /** writer_node after one node's housekeeping. */
  function OwnerStep(owner: map<Writer, NodeId>, e: Entry, closing: set<Writer>, now: int): map<Writer, NodeId> {
    var o := owner - (e.links * closing);
    if Stays(e, closing, now) then o else Without(o, e.nid)
  }

  function OwnerKept(owner: map<Writer, NodeId>, es: seq<Entry>, closing: set<Writer>, now: int): map<Writer, NodeId> {
    if es == [] then owner
    else OwnerStep(OwnerKept(owner, es[..|es| - 1], closing, now), es[|es| - 1], closing, now)
  }

  function Prune(b: Book, now: int): Book {
    b.(nodes := Kept(b.nodes, b.closing, now), owner := OwnerKept(b.owner, b.nodes, b.closing, now))
  }

  // ---- register_node -----------------------------------------------------------------

  predicate Used(es: seq<Entry>, virt: int) {
    exists e <- es :: e.virt == virt
  }

  /** The lowest unused host number from i on; LAST + 1 when there is none. */
  function FreeFrom(net: int, es: seq<Entry>, i: int): (v: int)
    requires i <= LAST + 1
    ensures i <= v <= LAST + 1
    ensures v <= LAST ==> !Used(es, net + v)
    ensures forall a | net + i <= a < net + v :: Used(es, a)
    decreases LAST + 1 - i
  {
    if i > LAST || !Used(es, net + i) then i else FreeFrom(net, es, i + 1)
  }

  /** The first linkless entry with the oldest seen time; |es| when all have links. */
  function Stalest(es: seq<Entry>): (c: nat)
    ensures c <= |es|
    ensures c < |es| ==> es[c].links == {}
    ensures c < |es| ==> forall k | 0 <= k < |es| && es[k].links == {} :: es[c].seen <= es[k].seen && (k < c ==> es[c].seen < es[k].seen)
    ensures c == |es| ==> forall k | 0 <= k < |es| :: es[k].links != {}
  {
    if es == [] then 0
    else
      var n := |es| - 1;
      var c := Stalest(es[..n]);
      assert forall k | 0 <= k < n :: es[..n][k] == es[k];
      if es[n].links == {} && (c == n || es[n].seen < es[c].seen) then n
      else if c == n then n + 1
      else c
  }

  function Find(es: seq<Entry>, nid: NodeId): (i: nat)
    ensures i <= |es|
    ensures i < |es| ==> es[i].nid == nid
    ensures forall k | 0 <= k < i :: es[k].nid != nid
  {
    if es == [] then 0 else if es[0].nid == nid then 0 else 1 + Find(es[1..], nid)
  }

  function Add(b: Book, node: NodeId, virt: int): (q: Book)
    ensures q.nodes != [] && q.nodes[|q.nodes| - 1].nid == node
  {
    b.(nodes := b.nodes + [Entry(node, virt, 0, {})])
  }

  /** The book without its entry c. */
  function Drop(b: Book, c: nat): Book
    requires c < |b.nodes|
  {
    b.(nodes := b.nodes[..c] + b.nodes[c + 1..], owner := Without(b.owner, b.nodes[c].nid))
  }

  /** The new node's entry, on a pruned book; None when every address is held by a node with links. */
  function Enter(b: Book, node: NodeId): (r: Option<Book>)
    ensures r.Some? ==> r.value.nodes != [] && r.value.nodes[|r.value.nodes| - 1].nid == node
  {
    EnterWith(b, node, FreeFrom(b.net, b.nodes, FIRST), Stalest(b.nodes))
  }

  function EnterWith(b: Book, node: NodeId, v: int, c: nat): (r: Option<Book>)
    requires c <= |b.nodes|
    ensures r.Some? ==> r.value.nodes != [] && r.value.nodes[|r.value.nodes| - 1].nid == node
  {
    if v <= LAST then Some(Add(b, node, b.net + v))
    else if c == |b.nodes| then None
    else Some(Add(Drop(b, c), node, b.nodes[c].virt))
  }

  /** The link of a known node. */
  function Attach(b: Book, w: Writer, node: NodeId, now: int): Book
    requires Find(b.nodes, node) < |b.nodes|
  {
    var i := Find(b.nodes, node);
    b.(nodes := b.nodes[i := b.nodes[i].(seen := now, links := b.nodes[i].links + {w})], owner := b.owner[w := node])
  }

  function Register(b: Book, w: Writer, node: NodeId, now: int): (r: (bool, Book)) {
    if Find(b.nodes, node) < |b.nodes| then (true, Attach(b, w, node, now))
    else
      var p := Prune(b, now);
      match Enter(p, node)
      case None => (false, p)
      case Some(q) => (true, Attach(q, w, node, now))
  }

  /** The end of a control connection. */
  function Disconnect(b: Book, w: Writer, now: int): Book {
    var p := b.(closing := b.closing + {w}, owner := b.owner - {w});
    if w !in b.owner || Find(b.nodes, b.owner[w]) == |b.nodes| then p
    else
      var i := Find(b.nodes, b.owner[w]);
      p.(nodes := b.nodes[i := b.nodes[i].(seen := now, links := b.nodes[i].links - {w})])
  }

  /** members(): the nodes with a live link, and their addresses. */
  function Members(es: seq<Entry>, closing: set<Writer>): seq<(NodeId, int)> {
    if es == [] then []
    else
      var n := |es| - 1;
      Members(es[..n], closing) + if es[n].links - closing != {} then [(es[n].nid, es[n].virt)] else []
  }

  // ---- the invariant ----------------------------------------------------------------------

  predicate Distinct(es: seq<Entry>) {
    forall i, j | 0 <= i < j < |es| :: es[i].nid != es[j].nid && es[i].virt != es[j].virt
  }

  predicate InRange(net: int, es: seq<Entry>) {
    forall e <- es :: net + FIRST <= e.virt <= net + LAST
  }

  /** Every registered writer maps to a node that holds its link. */
  predicate Owned(es: seq<Entry>, owner: map<Writer, NodeId>) {
    forall w | w in owner :: exists e <- es :: e.nid == owner[w] && w in e.links
  }

  /** Node ids are nonzero 32-bit numbers. */
  predicate Ids(es: seq<Entry>) {
    forall e <- es :: IsId(e.nid)
  }

  predicate IsId(n: int) {
    0 < n < 0x1_0000_0000
  }

  /** A /24 network address. */
  predicate Subnet(net: int) {
    0 <= net < 0x1_0000_0000 && net % 256 == 0
  }

  predicate Inv(b: Book) {
    Subnet(b.net) && Ids(b.nodes) && Distinct(b.nodes) && InRange(b.net, b.nodes) && Owned(b.nodes, b.owner)
  }

  /** A node with a live link. */
  predicate Live(e: Entry, closing: set<Writer>) {
    e.links - closing != {}
  }

  // ---- pruning ------------------------------------------------------------------------------

  lemma {:induction false} KeptExactly(es: seq<Entry>, closing: set<Writer>, now: int, e: Entry)
    ensures e in Kept(es, closing, now) <==> exists o <- es :: e == Detached(o, closing) && Stays(o, closing, now)
  {
    if es != [] {
      var n := |es| - 1;
      KeptExactly(es[..n], closing, now, e);
      assert es == es[..n] + [es[n]];
    }
  }

  lemma {:induction false} KeptDistinct(es: seq<Entry>, closing: set<Writer>, now: int)
    requires Distinct(es)
    ensures Distinct(Kept(es, closing, now))
  {
    if es != [] {
      var n := |es| - 1;
      KeptDistinct(es[..n], closing, now);
      var k := Kept(es[..n], closing, now);
      forall i | 0 <= i < |k| ensures k[i].nid != es[n].nid && k[i].virt != es[n].virt {
        KeptExactly(es[..n], closing, now, k[i]);
      }
    }
  }

  lemma {:induction false} OwnerKeptExactly(owner: map<Writer, NodeId>, es: seq<Entry>, closing: set<Writer>, now: int, w: Writer)
    ensures w in OwnerKept(owner, es, closing, now) <==>
              w in owner && forall e <- es :: !(w in e.links && w in closing) && (Stays(e, closing, now) || e.nid != owner[w])
    ensures w in OwnerKept(owner, es, closing, now) ==> OwnerKept(owner, es, closing, now)[w] == owner[w]
  {
    if es != [] {
      var n := |es| - 1;
      OwnerKeptExactly(owner, es[..n], closing, now, w);
      assert es == es[..n] + [es[n]];
    }
  }

  /** Pruning drops exactly the registrations of closing connections. */
  lemma PruneOwners(b: Book, now: int)
    requires Inv(b)
    ensures Prune(b, now).owner == b.owner - b.closing
  {
    forall w ensures w in Prune(b, now).owner <==> w in b.owner && w !in b.closing {
      OwnerKeptExactly(b.owner, b.nodes, b.closing, now, w);
      if w in b.owner && w !in b.closing {
        var h :| h in b.nodes && h.nid == b.owner[w] && w in h.links;
        assert w in h.links - b.closing;
        forall e <- b.nodes ensures Stays(e, b.closing, now) || e.nid != b.owner[w] {
          if e.nid == h.nid { assert e == h; }
        }
      }
    }
    forall w | w in Prune(b, now).owner ensures Prune(b, now).owner[w] == b.owner[w] {
      OwnerKeptExactly(b.owner, b.nodes, b.closing, now, w);
    }
  }

  lemma PruneKeeps(b: Book, now: int)
    requires Inv(b)
    ensures Inv(Prune(b, now))
  {
    var p := Prune(b, now);
    KeptDistinct(b.nodes, b.closing, now);
    PruneOwners(b, now);
    forall e <- p.nodes ensures b.net + FIRST <= e.virt <= b.net + LAST && IsId(e.nid) {
      KeptExactly(b.nodes, b.closing, now, e);
    }
    forall w | w in p.owner ensures exists e <- p.nodes :: e.nid == p.owner[w] && w in e.links {
      var h :| h in b.nodes && h.nid == b.owner[w] && w in h.links;
      assert w in h.links - b.closing;
      KeptExactly(b.nodes, b.closing, now, Detached(h, b.closing));
      assert Detached(h, b.closing) in p.nodes;
    }
  }

  // ---- registering ------------------------------------------------------------------------------

  lemma AttachKeeps(b: Book, w: Writer, node: NodeId, now: int)
    requires Inv(b) && Find(b.nodes, node) < |b.nodes|
    ensures Inv(Attach(b, w, node, now))
  {
    var i, a := Find(b.nodes, node), Attach(b, w, node, now);
    forall x | x in a.owner ensures exists e <- a.nodes :: e.nid == a.owner[x] && x in e.links {
      if x == w {
        assert a.nodes[i] in a.nodes;
      } else {
        var k :| 0 <= k < |b.nodes| && b.nodes[k].nid == b.owner[x] && x in b.nodes[k].links;
        assert a.nodes[k] in a.nodes;
      }
    }
  }

  lemma FreshKeeps(b: Book, q: Book, node: NodeId, virt: int)
    requires Inv(b) && IsId(node) && Find(b.nodes, node) == |b.nodes|
    requires q == Add(b, node, virt) && !Used(b.nodes, virt) && b.net + FIRST <= virt <= b.net + LAST
    ensures Inv(q)
  {
    forall w | w in q.owner ensures exists e <- q.nodes :: e.nid == q.owner[w] && w in e.links {
      var h :| h in b.nodes && h.nid == b.owner[w] && w in h.links;
      assert h in q.nodes;
    }
  }

  lemma DropsOne(es: seq<Entry>, c: nat)
    requires Distinct(es) && c < |es|
    ensures var rest := es[..c] + es[c + 1..]; Distinct(rest) && forall e :: e in rest <==> e in es && e != es[c]
  {
    var rest := es[..c] + es[c + 1..];
    forall e ensures e in rest <==> e in es && e != es[c] {
      if e in es && e != es[c] {
        var k :| 0 <= k < |es| && es[k] == e;
        assert rest[if k < c then k else k - 1] == e;
      }
    }
  }

  /** A book without one linkless entry. */
  lemma EvictKeeps(b: Book, c: nat, q: Book)
    requires Inv(b) && c < |b.nodes| && b.nodes[c].links == {}
    requires q == Drop(b, c)
    ensures Inv(q) && !Used(q.nodes, b.nodes[c].virt)
    ensures forall e :: e in q.nodes <==> e in b.nodes && e != b.nodes[c]
  {
    DropsOne(b.nodes, c);
    forall w | w in q.owner ensures exists e <- q.nodes :: e.nid == q.owner[w] && w in e.links {
      var h :| h in b.nodes && h.nid == b.owner[w] && w in h.links;
      assert h in q.nodes;
    }
  }

  lemma EvictThenFresh(b: Book, c: nat, node: NodeId, q: Book)
    requires Inv(b) && IsId(node) && Find(b.nodes, node) == |b.nodes| && c < |b.nodes| && b.nodes[c].links == {}
    requires q == Add(Drop(b, c), node, b.nodes[c].virt)
    ensures Inv(q)
  {
    var m := Drop(b, c);
    EvictKeeps(b, c, m);
    assert b.nodes[c] in b.nodes;
    FreshKeeps(m, q, node, b.nodes[c].virt);
  }

  lemma EnterKeeps(b: Book, node: NodeId)
    requires Inv(b) && IsId(node) && Find(b.nodes, node) == |b.nodes| && Enter(b, node).Some?
    ensures Inv(Enter(b, node).value)
  {
    EnterWithKeeps(b, node, FreeFrom(b.net, b.nodes, FIRST), Stalest(b.nodes));
  }

  lemma EnterWithKeeps(b: Book, node: NodeId, v: int, c: nat)
    requires Inv(b) && IsId(node) && Find(b.nodes, node) == |b.nodes| && c <= |b.nodes| && EnterWith(b, node, v, c).Some?
    requires FIRST <= v && (v <= LAST ==> !Used(b.nodes, b.net + v)) && (c < |b.nodes| ==> b.nodes[c].links == {})
    ensures Inv(EnterWith(b, node, v, c).value)
  {
    if v <= LAST {
      FreshKeeps(b, Add(b, node, b.net + v), node, b.net + v);
    } else {
      EvictThenFresh(b, c, node, Add(Drop(b, c), node, b.nodes[c].virt));
    }
  }

  lemma RegisterKeeps(b: Book, w: Writer, node: NodeId, now: int)
    requires Inv(b) && IsId(node)
    ensures Inv(Register(b, w, node, now).1)
  {
    if Find(b.nodes, node) < |b.nodes| {
      AttachKeeps(b, w, node, now);
    } else {
      PruneKeeps(b, now);
      var p := Prune(b, now);
      StillUnknown(b, node, now);
      if Enter(p, node).Some? {
        EnterKeeps(p, node);
        AttachKeeps(Enter(p, node).value, w, node, now);
      }
    }
  }

  lemma StillUnknown(b: Book, node: NodeId, now: int)
    requires Find(b.nodes, node) == |b.nodes|
    ensures Find(Prune(b, now).nodes, node) == |Prune(b, now).nodes|
  {
    forall e <- Prune(b, now).nodes ensures e.nid != node {
      KeptExactly(b.nodes, b.closing, now, e);
    }
  }

  lemma DisconnectKeeps(b: Book, w: Writer, now: int)
    requires Inv(b)
    ensures Inv(Disconnect(b, w, now))
  {
    var d := Disconnect(b, w, now);
    forall x | x in d.owner ensures exists e <- d.nodes :: e.nid == d.owner[x] && x in e.links {
      var k :| 0 <= k < |b.nodes| && b.nodes[k].nid == b.owner[x] && x in b.nodes[k].links;
      assert d.nodes[k] in d.nodes;
    }
  }

  /** The address belongs to a node with a live link. */
  predicate HeldLive(es: seq<Entry>, closing: set<Writer>, virt: int) {
    exists e <- es :: e.virt == virt && Live(e, closing)
  }

  predicate FullOfLive(b: Book) {
    forall v | b.net + FIRST <= v <= b.net + LAST :: HeldLive(b.nodes, b.closing, v)
  }

  lemma PruneKeepsLive(b: Book, now: int, v: int)
    ensures HeldLive(Prune(b, now).nodes, b.closing, v) <==> HeldLive(b.nodes, b.closing, v)
  {
    var p := Prune(b, now);
    if HeldLive(b.nodes, b.closing, v) {
      var e :| e in b.nodes && e.virt == v && Live(e, b.closing);
      KeptExactly(b.nodes, b.closing, now, Detached(e, b.closing));
      assert Detached(e, b.closing) in p.nodes && Live(Detached(e, b.closing), b.closing);
    }
    if HeldLive(p.nodes, b.closing, v) {
      var e :| e in p.nodes && e.virt == v && Live(e, b.closing);
      KeptExactly(b.nodes, b.closing, now, e);
      var o :| o in b.nodes && e == Detached(o, b.closing);
      assert Live(o, b.closing);
    }
  }

  /** No link of a pruned book is closing. */
  predicate Clean(b: Book) {
    forall e <- b.nodes :: e.links !! b.closing
  }

  lemma FullNone(p: Book, node: NodeId)
    requires Inv(p) && FullOfLive(p)
    ensures Enter(p, node) == None
  {
    var v := FreeFrom(p.net, p.nodes, FIRST);
    assert HeldLive(p.nodes, p.closing, p.net + v) ==> Used(p.nodes, p.net + v);
    forall k | 0 <= k < |p.nodes| ensures p.nodes[k].links != {} {
      assert p.nodes[k] in p.nodes;
      assert HeldLive(p.nodes, p.closing, p.nodes[k].virt);
      var j :| 0 <= j < |p.nodes| && p.nodes[j].virt == p.nodes[k].virt && Live(p.nodes[j], p.closing);
      assert j == k;
    }
  }

  lemma NoneFull(p: Book, node: NodeId)
    requires Clean(p) && Enter(p, node) == None
    ensures FullOfLive(p)
  {
    forall a | p.net + FIRST <= a <= p.net + LAST ensures HeldLive(p.nodes, p.closing, a) {
      assert Used(p.nodes, a);
      var k :| 0 <= k < |p.nodes| && p.nodes[k].virt == a;
      assert p.nodes[k].links - p.closing == p.nodes[k].links != {};
      assert p.nodes[k] in p.nodes && Live(p.nodes[k], p.closing);
    }
  }

  lemma PruneClean(b: Book, now: int)
    ensures Clean(Prune(b, now))
  {
    forall e <- Prune(b, now).nodes ensures e.links !! b.closing {
      KeptExactly(b.nodes, b.closing, now, e);
    }
  }

  /** A registration is refused exactly when the node is unknown and all 253
      addresses belong to nodes with live links. */
  lemma RefusedIff(b: Book, w: Writer, node: NodeId, now: int)
    requires Inv(b)
    ensures !Register(b, w, node, now).0 <==> (forall e <- b.nodes :: e.nid != node) && FullOfLive(b)
  {
    var p := Prune(b, now);
    PruneKeeps(b, now);
    PruneClean(b, now);
    if FullOfLive(p) { FullNone(p, node); }
    if Enter(p, node) == None { NoneFull(p, node); }
    forall v ensures HeldLive(p.nodes, p.closing, v) <==> HeldLive(b.nodes, b.closing, v) { PruneKeepsLive(b, now, v); }
  }

  // ---- who keeps an address --------------------------------------------------------------------

  predicate Holds(b: Book, nid: NodeId, virt: int) {
    exists e <- b.nodes :: e.nid == nid && e.virt == virt
  }

  /** Eviction: no address is free after pruning, and of the nodes without links
      this is the one unseen for longest (the first such). */
  predicate Evicted(p: Book, nid: NodeId) {
    && FreeFrom(p.net, p.nodes, FIRST) > LAST
    && Stalest(p.nodes) < |p.nodes| && p.nodes[Stalest(p.nodes)].nid == nid
  }

  lemma AttachHolds(b: Book, w: Writer, node: NodeId, now: int, nid: NodeId, virt: int)
    requires Find(b.nodes, node) < |b.nodes|
    ensures Holds(Attach(b, w, node, now), nid, virt) <==> Holds(b, nid, virt)
  {
    var a := Attach(b, w, node, now);
    if Holds(b, nid, virt) {
      var k :| 0 <= k < |b.nodes| && b.nodes[k].nid == nid && b.nodes[k].virt == virt;
      assert a.nodes[k] in a.nodes;
    }
    if Holds(a, nid, virt) {
      var k :| 0 <= k < |a.nodes| && a.nodes[k].nid == nid && a.nodes[k].virt == virt;
      assert b.nodes[k] in b.nodes;
    }
  }

  lemma PruneHolds(b: Book, now: int, e: Entry)
    requires Distinct(b.nodes) && e in b.nodes
    ensures Holds(Prune(b, now), e.nid, e.virt) <==> Stays(e, b.closing, now)
  {
    var p := Prune(b, now);
    if Stays(e, b.closing, now) {
      KeptExactly(b.nodes, b.closing, now, Detached(e, b.closing));
      assert Detached(e, b.closing) in p.nodes;
    }
    if Holds(p, e.nid, e.virt) {
      var f :| f in p.nodes && f.nid == e.nid && f.virt == e.virt;
      KeptExactly(b.nodes, b.closing, now, f);
    }
  }

  lemma EnterHolds(p: Book, node: NodeId, e: Entry)
    requires Distinct(p.nodes) && Enter(p, node).Some? && e in p.nodes && e.nid != node
    ensures Holds(Enter(p, node).value, e.nid, e.virt) <==> !Evicted(p, e.nid)
  {
    EnterWithHolds(p, node, e, FreeFrom(p.net, p.nodes, FIRST), Stalest(p.nodes));
  }

  lemma EnterWithHolds(p: Book, node: NodeId, e: Entry, v: int, c: nat)
    requires Distinct(p.nodes) && c <= |p.nodes| && EnterWith(p, node, v, c).Some? && e in p.nodes && e.nid != node
    ensures Holds(EnterWith(p, node, v, c).value, e.nid, e.virt) <==> v <= LAST || p.nodes[c].nid != e.nid
  {
    var q := EnterWith(p, node, v, c).value;
    var k :| 0 <= k < |p.nodes| && p.nodes[k] == e;
    if v <= LAST {
      assert q.nodes[k] == e;
    } else if k != c {
      assert q.nodes[if k < c then k else k - 1] == e;
    } else {
      forall f <- q.nodes ensures f.nid != e.nid {
      }
    }
  }

  /** A registration takes an address from a node exactly when the registering
      node is unknown and the node is linkless and either unseen past NODE_TTL or
      evicted; a node with a live link never loses or changes its address. */
  lemma LosesAddressIff(b: Book, w: Writer, node: NodeId, now: int, e: Entry)
    requires Inv(b) && e in b.nodes
    ensures !Holds(Register(b, w, node, now).1, e.nid, e.virt)
       <==> (forall f <- b.nodes :: f.nid != node) && (!Stays(e, b.closing, now) || Evicted(Prune(b, now), e.nid))
    ensures Live(e, b.closing) ==> Holds(Register(b, w, node, now).1, e.nid, e.virt)
  {
    if Find(b.nodes, node) < |b.nodes| {
      AttachHolds(b, w, node, now, e.nid, e.virt);
      assert Holds(b, e.nid, e.virt);
    } else {
      var p := Prune(b, now);
      PruneHolds(b, now, e);
      StillUnknown(b, node, now);
      PruneKeeps(b, now);
      PrunedEntry(b, now, e);
      if Enter(p, node).Some? {
        var q := Enter(p, node).value;
        AttachHolds(q, w, node, now, e.nid, e.virt);
        if Stays(e, b.closing, now) {
          EnterHolds(p, node, Detached(e, b.closing));
        } else {
          StaysGone(b, now, node, e);
        }
      }
    }
  }

  lemma PrunedEntry(b: Book, now: int, e: Entry)
    requires Inv(b) && e in b.nodes
    ensures Stays(e, b.closing, now) ==> Detached(e, b.closing) in Prune(b, now).nodes
    ensures Live(e, b.closing) ==> Stays(e, b.closing, now) && !Evicted(Prune(b, now), e.nid)
  {
    var p := Prune(b, now);
    KeptExactly(b.nodes, b.closing, now, Detached(e, b.closing));
    if Live(e, b.closing) && Stalest(p.nodes) < |p.nodes| {
      var f := p.nodes[Stalest(p.nodes)];
      KeptExactly(b.nodes, b.closing, now, f);
    }
  }

  lemma StaysGone(b: Book, now: int, node: NodeId, e: Entry)
    requires Inv(b) && e in b.nodes && !Stays(e, b.closing, now) && Enter(Prune(b, now), node).Some? && e.nid != node
    ensures !Holds(Enter(Prune(b, now), node).value, e.nid, e.virt)
  {
    var p := Prune(b, now);
    var q := Enter(p, node).value;
    forall f <- q.nodes ensures f.nid != e.nid {
      if f.nid != node {
        assert f in p.nodes;
        KeptExactly(b.nodes, b.closing, now, f);
      }
    }
  }

  lemma DisconnectHolds(b: Book, w: Writer, now: int, nid: NodeId, virt: int)
    ensures Holds(Disconnect(b, w, now), nid, virt) <==> Holds(b, nid, virt)
  {
    var d := Disconnect(b, w, now);
    if Holds(b, nid, virt) {
      var k :| 0 <= k < |b.nodes| && b.nodes[k].nid == nid && b.nodes[k].virt == virt;
      assert d.nodes[k] in d.nodes;
    }
    if Holds(d, nid, virt) {
      var k :| 0 <= k < |d.nodes| && d.nodes[k].nid == nid && d.nodes[k].virt == virt;
      assert b.nodes[k] in b.nodes;
    }
  }

  // ---- runs --------------------------------------------------------------------------------------

  /** Registration of a connection (with a valid token), the start of a
      connection's closing, and the end of its handler. */
  datatype Action =
    | Registering(w: Writer, node: NodeId, now: int)
    | Closing(w: Writer)
    | Ending(w: Writer, now: int)

  function Apply(b: Book, a: Action): Book {
    match a
    case Registering(w, node, now) => Register(b, w, node, now).1
    case Closing(w) => b.(closing := b.closing + {w})
    case Ending(w, now) => Disconnect(b, w, now)
  }

  ghost predicate Run(books: seq<Book>, acts: seq<Action>) {
    && |books| == |acts| + 1 && books[0] == Book(books[0].net, [], map[], {}) && Subnet(books[0].net)
    && forall i | 0 <= i < |acts| :: (acts[i].Registering? ==> IsId(acts[i].node)) && books[i + 1] == Apply(books[i], acts[i])
  }

  lemma StepKeeps(b: Book, a: Action)
    requires Inv(b) && (a.Registering? ==> IsId(a.node))
    ensures Inv(Apply(b, a))
  {
    match a {
      case Registering(w, node, now) => RegisterKeeps(b, w, node, now);
      case Closing(_) =>
      case Ending(w, now) => DisconnectKeeps(b, w, now);
    }
  }

  /** In every run addresses and node ids are distinct, addresses are .2 to .254,
      and every registered connection maps to a node that holds its link. */
  lemma {:induction false} InvInEveryRun(books: seq<Book>, acts: seq<Action>, i: nat)
    requires Run(books, acts) && i < |books|
    ensures Inv(books[i])
    ensures var b := books[i];
            && (forall j, k | 0 <= j < k < |b.nodes| :: b.nodes[j].nid != b.nodes[k].nid && b.nodes[j].virt != b.nodes[k].virt)
            && (forall e <- b.nodes :: b.net + 2 <= e.virt <= b.net + 254)
            && (forall w | w in b.owner :: exists e <- b.nodes :: e.nid == b.owner[w] && w in e.links)
  {
    if i > 0 {
      InvInEveryRun(books, acts, i - 1);
      StepKeeps(books[i - 1], acts[i - 1]);
    }
  }

  /** As long as a node keeps a live link, its address stays the same, whatever
      the other registrations, prunings, evictions and disconnections. */
  lemma {:induction false} LiveKeepsAddress(books: seq<Book>, acts: seq<Action>, i: nat, j: nat, nid: NodeId, virt: int)
    requires Run(books, acts) && i <= j < |books| && Holds(books[i], nid, virt)
    requires forall k | i <= k < j :: exists e <- books[k].nodes :: e.nid == nid && Live(e, books[k].closing)
    ensures Holds(books[j], nid, virt)
  {
    if i < j {
      LiveKeepsAddress(books, acts, i, j - 1, nid, virt);
      InvInEveryRun(books, acts, j - 1);
      LiveKeepsStep(books[j - 1], acts[j - 1], nid, virt);
    }
  }

  lemma LiveKeepsStep(b: Book, a: Action, nid: NodeId, virt: int)
    requires Inv(b) && Holds(b, nid, virt) && exists e <- b.nodes :: e.nid == nid && Live(e, b.closing)
    ensures Holds(Apply(b, a), nid, virt)
  {
    var e :| e in b.nodes && e.nid == nid && e.virt == virt;
    match a {
      case Registering(w, node, now) => LosesAddressIff(b, w, node, now, e);
      case Closing(_) => assert e in Apply(b, a).nodes;
      case Ending(w, now) => DisconnectHolds(b, w, now, nid, virt);
    }
  }

  // ---- a book without dead links ------------------------------------------------------------------

  predicate AllLinked(b: Book) {
    b.closing == {} && forall e <- b.nodes :: e.links != {}
  }

  lemma {:induction false} NothingToPrune(es: seq<Entry>, owner: map<Writer, NodeId>, now: int)
    requires forall e <- es :: e.links != {}
    ensures Kept(es, {}, now) == es && OwnerKept(owner, es, {}, now) == owner
  {
    if es != [] {
      var n := |es| - 1;
      NothingToPrune(es[..n], owner, now);
      assert es == es[..n] + [es[n]];
      assert es[n] in es && es[n].links - {} == es[n].links;
      assert owner - (es[n].links * {}) == owner;
    }
  }

  lemma {:induction false} NotFound(es: seq<Entry>, nid: NodeId)
    requires forall e <- es :: e.nid != nid
    ensures Find(es, nid) == |es|
  {
    if es != [] {
      assert es[0] in es;
      NotFound(es[1..], nid);
    }
  }

  lemma PruneNothing(b: Book, now: int)
    requires AllLinked(b)
    ensures Prune(b, now) == b
  {
    NothingToPrune(b.nodes, b.owner, now);
  }

  lemma EnterWithFree(b: Book, node: NodeId, v: int, c: nat)
    requires c <= |b.nodes| && v <= LAST
    ensures EnterWith(b, node, v, c) == Some(Add(b, node, b.net + v))
  {
  }

  lemma RegisterBy(b: Book, w: Writer, node: NodeId, now: int, v: int)
    requires Find(b.nodes, node) == |b.nodes| && Prune(b, now) == b && v == FreeFrom(b.net, b.nodes, FIRST) <= LAST
    requires Find(Add(b, node, b.net + v).nodes, node) < |Add(b, node, b.net + v).nodes|
    ensures Register(b, w, node, now) == (true, Attach(Add(b, node, b.net + v), w, node, now))
  {
    EnterWithFree(b, node, v, Stalest(b.nodes));
    assert Enter(b, node) == EnterWith(b, node, v, Stalest(b.nodes));
  }

  /** A new node's registration, with an address free and nothing to prune. */
  lemma RegisterNew(b: Book, w: Writer, node: NodeId, now: int, v: int)
    requires AllLinked(b) && (forall e <- b.nodes :: e.nid != node) && v == FreeFrom(b.net, b.nodes, FIRST) <= LAST
    ensures Register(b, w, node, now)
         == (true, b.(nodes := b.nodes + [Entry(node, b.net + v, now, {w})], owner := b.owner[w := node]))
  {
    NotFound(b.nodes, node);
    PruneNothing(b, now);
    AttachLast(b, w, node, now, b.net + v);
    RegisterBy(b, w, node, now, v);
  }

  lemma AttachLast(b: Book, w: Writer, node: NodeId, now: int, virt: int)
    requires forall e <- b.nodes :: e.nid != node
    ensures Find(Add(b, node, virt).nodes, node) == |b.nodes|
    ensures Attach(Add(b, node, virt), w, node, now)
         == b.(nodes := b.nodes + [Entry(node, virt, now, {w})], owner := b.owner[w := node])
  {
    var q := Add(b, node, virt);
    var i := Find(q.nodes, node);
    assert q.nodes[|b.nodes|].nid == node;
    assert forall k | 0 <= k < |b.nodes| :: q.nodes[k] == b.nodes[k] && b.nodes[k] in b.nodes;
    assert i == |b.nodes|;
    assert {} + {w} == {w};
  }

  ghost predicate Reachable(b: Book) {
    exists books, acts :: Run(books, acts) && books[|acts|] == b
  }

  lemma ReachOn(b: Book, a: Action, b': Book)
    requires Reachable(b) && (a.Registering? ==> IsId(a.node)) && b' == Apply(b, a)
    ensures Reachable(b')
  {
    var books, acts :| Run(books, acts) && books[|acts|] == b;
    RunOn(books, acts, a, b');
  }

  lemma RunOn(books: seq<Book>, acts: seq<Action>, a: Action, b': Book)
    requires Run(books, acts) && (a.Registering? ==> IsId(a.node)) && b' == Apply(books[|acts|], a)
    ensures Run(books + [b'], acts + [a]) && (books + [b'])[|acts + [a]|] == b'
  {
    var bs, aa := books + [b'], acts + [a];
    forall i | 0 <= i < |aa| ensures (aa[i].Registering? ==> IsId(aa[i].node)) && bs[i + 1] == Apply(bs[i], aa[i]) {
      if i < |acts| { assert bs[i] == books[i] && bs[i + 1] == books[i + 1] && aa[i] == acts[i]; }
    }
  }

  lemma EmptyReachable(net: int)
    requires Subnet(net)
    ensures Reachable(Book(net, [], map[], {}))
  {
    var none: seq<Action> := [];
    var b := Book(net, [], map[], {});
    assert Run([b], none) && [b][|none|] == b;
  }

  /** A new node's registration, as a step of a run. */
  lemma ReachNew(b: Book, w: Writer, node: NodeId, now: int, v: int, b': Book)
    requires Reachable(b) && IsId(node) && AllLinked(b) && (forall e <- b.nodes :: e.nid != node)
    requires v == FreeFrom(b.net, b.nodes, FIRST) <= LAST
    requires b' == b.(nodes := b.nodes + [Entry(node, b.net + v, now, {w})], owner := b.owner[w := node])
    ensures Reachable(b')
  {
    RegisterNew(b, w, node, now, v);
    ReachRegistered(b, w, node, now, b');
  }

  lemma ReachRegistered(b: Book, w: Writer, node: NodeId, now: int, b': Book)
    requires Reachable(b) && IsId(node) && Register(b, w, node, now).1 == b'
    ensures Reachable(b')
  {
    ReachOn(b, Registering(w, node, now), b');
  }

  /** Another link of a known node, as a step of a run. */
  lemma ReachKnown(b: Book, w: Writer, node: NodeId, now: int, b': Book)
    requires Reachable(b) && IsId(node) && Find(b.nodes, node) < |b.nodes| && b' == Attach(b, w, node, now)
    ensures Reachable(b')
  {
    ReachOn(b, Registering(w, node, now), b');
  }

  // ---- the member list ------------------------------------------------------------------------------

  /** The member list holds exactly the live nodes with their addresses, each once. */
  lemma {:induction false} MembersExactly(es: seq<Entry>, closing: set<Writer>, m: (NodeId, int))
    ensures m in Members(es, closing) <==> exists e <- es :: m == (e.nid, e.virt) && Live(e, closing)
  {
    if es != [] {
      var n := |es| - 1;
      MembersExactly(es[..n], closing, m);
      assert es == es[..n] + [es[n]];
    }
  }

  /** No node and no address twice. */
  predicate Apart(ms: seq<(int, int)>) {
    forall i, j | 0 <= i < j < |ms| :: ms[i].0 != ms[j].0 && ms[i].1 != ms[j].1
  }

  lemma {:induction false} MembersDistinct(es: seq<Entry>, closing: set<Writer>)
    requires Distinct(es)
    ensures Apart(Members(es, closing))
  {
    if es != [] {
      var n := |es| - 1;
      MembersDistinct(es[..n], closing);
      var k := Members(es[..n], closing);
      forall i | 0 <= i < |k| ensures k[i].0 != es[n].nid && k[i].1 != es[n].virt {
        MembersExactly(es[..n], closing, k[i]);
      }
    }
  }

  // ---- the code over its dictionaries -----------------------------------------------------------------

  class Directory {
    const net: int
    var nodes: seq<Entry>
    var writerNode: map<Writer, NodeId>
    var closing: set<Writer>

    ghost function View(): Book
      reads this
    {
      Book(net, nodes, writerNode, closing)
    }

    constructor (net: int)
      ensures View() == Book(net, [], map[], {})
    {
      this.net := net;
      nodes, writerNode, closing := [], map[], {};
    }

    method PruneNodes(now: int)
      modifies this`nodes, this`writerNode
      ensures View() == Prune(old(View()), now)
    {
      var was := nodes;
      var kept: seq<Entry> := [];
      var i := 0;
      while i < |was|
        invariant 0 <= i <= |was|
        invariant kept == Kept(was[..i], closing, now)
        invariant writerNode == OwnerKept(old(writerNode), was[..i], closing, now)
      {
        assert was[..i + 1][..i] == was[..i];
        var e := was[i];
        writerNode := writerNode - (e.links * closing);
        if e.links - closing != {} || now - e.seen <= NODE_TTL {
          kept := kept + [e.(links := e.links - closing)];
        } else {
          writerNode := Without(writerNode, e.nid);
        }
        i := i + 1;
      }
      assert was[..i] == was;
      nodes := kept;
    }

    /** The lowest free host number, by trial in ascending order. */
    method FirstFree() returns (v: int)
      ensures v == FreeFrom(net, nodes, FIRST)
    {
      var used := set e <- nodes :: e.virt;
      v := FIRST;
      while v <= LAST && net + v in used
        invariant FIRST <= v <= LAST + 1
        invariant FreeFrom(net, nodes, v) == FreeFrom(net, nodes, FIRST)
      {
        v := v + 1;
      }
    }

    /** The stalest disconnected entry, -1 when there is none. */
    method StalestEntry() returns (c: int)
      ensures c == if Stalest(nodes) < |nodes| then Stalest(nodes) else -1
    {
      c := -1;
      var seen := 0;
      var i := 0;
      while i < |nodes|
        invariant 0 <= i <= |nodes|
        invariant c == if Stalest(nodes[..i]) < i then Stalest(nodes[..i]) else -1
        invariant 0 <= c ==> c < i && seen == nodes[c].seen
      {
        assert nodes[..i + 1][..i] == nodes[..i];
        if nodes[i].links == {} && (c < 0 || nodes[i].seen < seen) {
          c, seen := i, nodes[i].seen;
        }
        i := i + 1;
      }
      assert nodes[..i] == nodes;
    }

    /** An entry for a node not listed yet: the lowest free address, or the
        evicted stalest entry's. */
    method EnterNode(node: NodeId) returns (ok: bool)
      modifies this`nodes, this`writerNode
      ensures ok == Enter(old(View()), node).Some?
      ensures View() == if ok then Enter(old(View()), node).value else old(View())
    {
      var v := FirstFree();
      var c := StalestEntry();
      ok := EnterAt(node, v, if c < 0 then |nodes| else c);
    }

    method EnterAt(node: NodeId, v: int, c: nat) returns (ok: bool)
      requires c <= |nodes|
      modifies this`nodes, this`writerNode
      ensures ok == EnterWith(old(View()), node, v, c).Some?
      ensures View() == if ok then EnterWith(old(View()), node, v, c).value else old(View())
    {
      ok := v <= LAST || c < |nodes|;
      if v <= LAST {
        nodes := nodes + [Entry(node, net + v, 0, {})];
      } else if c < |nodes| {
        var evicted := nodes[c];
        nodes := nodes[..c] + nodes[c + 1..] + [Entry(node, evicted.virt, 0, {})];
        writerNode := Without(writerNode, evicted.nid);
      }
    }

    method RegisterNode(w: Writer, tokenOk: bool, node: NodeId, now: int) returns (ok: bool)
      modifies this`nodes, this`writerNode
      ensures ok == (tokenOk && Register(old(View()), w, node, now).0)
      ensures View() == if tokenOk then Register(old(View()), w, node, now).1 else old(View())
    {
      if !tokenOk {
        return false;
      }
      if Find(nodes, node) == |nodes| {
        PruneNodes(now);
        ok := EnterNode(node);
        if !ok {
          return false;
        }
      }
      var i := Find(nodes, node);
      nodes := nodes[i := nodes[i].(seen := now, links := nodes[i].links + {w})];
      writerNode := writerNode[w := node];
      return true;
    }

    /** The end of handle_peer for a connection. */
    method PeerGone(w: Writer, now: int)
      modifies this
      ensures View() == Disconnect(old(View()), w, now)
    {
      if w in writerNode {
        var i := Find(nodes, writerNode[w]);
        if i < |nodes| {
          nodes := nodes[i := nodes[i].(seen := now, links := nodes[i].links - {w})];
        }
      }
      writerNode := writerNode - {w};
      closing := closing + {w};
    }

    method LiveMembers() returns (ms: seq<(NodeId, int)>)
      ensures ms == Members(nodes, closing)
    {
      ms := [];
      var i := 0;
      while i < |nodes|
        invariant 0 <= i <= |nodes| && ms == Members(nodes[..i], closing)
      {
        assert nodes[..i + 1][..i] == nodes[..i];
        if nodes[i].links - closing != {} {
          ms := ms + [(nodes[i].nid, nodes[i].virt)];
        }
        i := i + 1;
      }
      assert nodes[..i] == nodes;
    }
  }
}
