/** The hook's copy of the member table and its two lookups (hook/hk_ports.c:322-395),
    and addressing from the relay's book to the hook's answers. */
module VirtualNet {
  import opened Wire
  import opened Assign
  import M = Membership

  // ---- address prefixes -----------------------------------------------------------

  function Pow2(n: nat): (p: int)
    ensures p > 0
  {
    if n == 0 then 1 else 2 * Pow2(n - 1)
  }

  /** The code's test: whole bytes first, then the masked byte (x & (0xFF << (8 - rem)) & 0xFF
      keeps the bits of x / 2^(8 - rem)). */
  predicate InPrefix(net: seq<byte>, ab: seq<byte>, bits: int)
    requires |net| == 4 && |ab| == 4 && 0 < bits <= 32
  {
    var full, rem := bits / 8, bits % 8;
    && net[..full] == ab[..full]
    && (rem != 0 ==> net[full] as int / Pow2(8 - rem) == ab[full] as int / Pow2(8 - rem))
  }

  lemma {:induction false} Pow2Add(a: nat, b: nat)
    ensures Pow2(a + b) == Pow2(a) * Pow2(b)
  {
    if a > 0 {
      Pow2Add(a - 1, b);
      assert Pow2(a + b) == 2 * Pow2(a + b - 1) == 2 * (Pow2(a - 1) * Pow2(b)) == (2 * Pow2(a - 1)) * Pow2(b);
    }
  }

  lemma DivMul(x: int, d: int, r: int, w: int)
    requires 0 <= x && 0 <= r < d && w > 0
    ensures w * d > 0 && (x * d + r) / (w * d) == x / w
  {
    var q, s := x / w, x % w;
    assert x == q * w + s;
    assert x * d + r == q * (w * d) + (s * d + r);
    assert s * d <= (w - 1) * d;
    assert (w - 1) * d == w * d - d;
    DivUnique(x * d + r, w * d, q, s * d + r);
  }

  lemma MulAtLeast(d: int, b: int)
    requires b > 0
    ensures d >= 1 ==> d * b >= b
    ensures d <= -1 ==> d * b <= -b
  {
    if d >= 1 { assert (d - 1) * b >= 0; }
    if d <= -1 { assert (-1 - d) * b >= 0; }
  }

  lemma DivUnique(a: int, b: int, q: int, r: int)
    requires b > 0 && a == q * b + r && 0 <= r < b
    ensures a / b == q
  {
    var d := a / b - q;
    assert a == (a / b) * b + a % b;
    assert d * b == (a / b) * b - q * b;
    MulAtLeast(d, b);
  }

  /** A number followed by one byte, cut inside that byte. */
  lemma CutByte(p: int, c: int, w: int, v: int)
    requires 0 <= p && 0 <= c < 256 && w > 0 && v > 0 && w * v == 256
    ensures (p * 256 + c) / w == p * v + c / w && 0 <= c / w < v
  {
    assert c == (c / w) * w + c % w;
    assert p * 256 == (p * v) * w;
    assert p * 256 + c == (p * v + c / w) * w + c % w;
    DivUnique(p * 256 + c, w, p * v + c / w, c % w);
    MulAtLeast(c / w - v + 1, w);
    assert (c / w - v + 1) * w == (c / w) * w - w * v + w;
  }

  lemma SplitUnique(p: int, a: int, p': int, a': int, v: int)
    requires v > 0 && 0 <= a < v && 0 <= a' < v
    ensures p * v + a == p' * v + a' <==> p == p' && a == a'
  {
    DivUnique(p * v + a, v, p, a);
    DivUnique(p' * v + a', v, p', a');
  }

  lemma CutEqual(p: int, c: int, p': int, c': int, rem: nat)
    requires 0 <= p && 0 <= p' && 0 <= c < 256 && 0 <= c' < 256 && rem <= 8
    ensures (p * 256 + c) / Pow2(8 - rem) == (p' * 256 + c') / Pow2(8 - rem)
       <==> p == p' && c / Pow2(8 - rem) == c' / Pow2(8 - rem)
  {
    var w, v := Pow2(8 - rem), Pow2(rem);
    Pow2Add(8 - rem, rem);
    Powers();
    CutByte(p, c, w, v);
    CutByte(p', c', w, v);
    SplitUnique(p, c / w, p', c' / w, v);
  }

  /** The code's byte-wise test is the comparison of the leading bits of the two addresses. */
  lemma PrefixMeansLeadingBits(net: seq<byte>, ab: seq<byte>, bits: int)
    requires |net| == 4 && |ab| == 4 && 0 < bits <= 32
    ensures InPrefix(net, ab, bits) <==> Get32(net) / Pow2(32 - bits) == Get32(ab) / Pow2(32 - bits)
  {
    if bits == 32 {
      WholeAddress(net, ab);
    } else {
      PartialPrefix(net, ab, bits, bits / 8, bits % 8);
    }
  }

  lemma WholeAddress(net: seq<byte>, ab: seq<byte>)
    requires |net| == 4 && |ab| == 4
    ensures InPrefix(net, ab, 32) <==> Get32(net) / Pow2(0) == Get32(ab) / Pow2(0)
  {
    assert Pow2(0) == 1;
    Put32OfGet32(net);
    Put32OfGet32(ab);
    assert net[..4] == net && ab[..4] == ab;
  }

  lemma PartialPrefix(net: seq<byte>, ab: seq<byte>, bits: int, full: nat, rem: nat)
    requires |net| == 4 && |ab| == 4 && 0 < bits < 32 && bits == 8 * full + rem && rem < 8
    ensures InPrefix(net, ab, bits) <==> Get32(net) / Pow2(32 - bits) == Get32(ab) / Pow2(32 - bits)
  {
    assert bits / 8 == full && bits % 8 == rem && 32 - bits == 32 - 8 * full - rem;
    LeadingBits(net, ab, full, rem);
    assert Pow2(8) == 256 by { Powers(); }
    assert rem == 0 ==> net[full] as int / Pow2(8 - rem) == 0 == ab[full] as int / Pow2(8 - rem);
  }

  lemma LeadingBits(net: seq<byte>, ab: seq<byte>, full: nat, rem: nat)
    requires |net| == 4 && |ab| == 4 && full < 4 && rem < 8
    ensures Get32(net) / Pow2(32 - 8 * full - rem) == Get32(ab) / Pow2(32 - 8 * full - rem)
       <==> net[..full] == ab[..full] && net[full] as int / Pow2(8 - rem) == ab[full] as int / Pow2(8 - rem)
  {
    Pow2Add(8 - rem, 24 - 8 * full);
    Cut(net, full, rem);
    Cut(ab, full, rem);
    CutEqual(Lead(net, full), net[full], Lead(ab, full), ab[full], rem);
    LeadEqual(net, ab, full);
  }

  /** The first n bytes as a number. */
  function Lead(b: seq<byte>, n: nat): (v: int)
    requires n <= |b|
    ensures v >= 0
  {
    if n == 0 then 0 else Lead(b, n - 1) * 256 + b[n - 1]
  }

  lemma {:induction false} LeadEqual(a: seq<byte>, b: seq<byte>, n: nat)
    requires n <= |a| && n <= |b|
    ensures Lead(a, n) == Lead(b, n) <==> a[..n] == b[..n]
  {
    if n > 0 {
      LeadEqual(a, b, n - 1);
      assert a[..n] == a[..n - 1] + [a[n - 1]] && b[..n] == b[..n - 1] + [b[n - 1]];
    }
  }

  lemma Cut(b: seq<byte>, full: nat, rem: nat)
    requires |b| == 4 && full < 4 && rem < 8
    ensures Pow2(8 - rem) * Pow2(24 - 8 * full) > 0
    ensures Get32(b) / (Pow2(8 - rem) * Pow2(24 - 8 * full)) == (Lead(b, full) * 256 + b[full]) / Pow2(8 - rem)
  {
    var d := Pow2(24 - 8 * full);
    var x := Lead(b, full) * 256 + b[full];
    var r := Below(b, full);
    DivMul(x, d, r, Pow2(8 - rem));
  }

  /** The bytes below byte `full`, as a number. */
  lemma Below(b: seq<byte>, full: nat) returns (r: int)
    requires |b| == 4 && full < 4
    ensures Get32(b) == (Lead(b, full) * 256 + b[full]) * Pow2(24 - 8 * full) + r && 0 <= r < Pow2(24 - 8 * full)
  {
    Powers();
    assert Lead(b, 1) == b[0] && Lead(b, 2) == b[0] as int * 256 + b[1] as int && Lead(b, 3) == Lead(b, 2) * 256 + b[2];
    assert b[2..][0] == b[2] && b[2..][1] == b[3];
    r := Get32(b) - (Lead(b, full) * 256 + b[full]) * Pow2(24 - 8 * full);
  }

  lemma Powers()
    ensures Pow2(0) == 1 && Pow2(8) == 256 && Pow2(16) == 65536 && Pow2(24) == 16777216
  {
    assert Pow2(4) == 16;
    Pow2Add(4, 4);
    Pow2Add(8, 8);
    Pow2Add(8, 16);
  }

  // ---- the hook's table and lookups -----------------------------------------------------

  /** The node of the first member with this address, 0 without one. */
  function FirstNode(ms: seq<Member>, virt: int): int {
    if ms == [] then 0 else if ms[0].1 == virt then ms[0].0 else FirstNode(ms[1..], virt)
  }

  function FirstVirt(ms: seq<Member>, node: int): int {
    if ms == [] then 0 else if ms[0].0 == node then ms[0].1 else FirstVirt(ms[1..], node)
  }

  /** What an address resolves to. */
  function Resolve(ms: seq<Member>, vnet: seq<byte>, bits: int, ab: seq<byte>): int
    requires |vnet| == 4 && |ab| == 4
  {
    if ms != [] && 0 < bits <= 32 && InPrefix(vnet, ab, bits) && vnet != ab then FirstNode(ms, Get32(ab)) else 0
  }

  /** The ASSIGN payloads the hook takes. */
  predicate Accepted(p: seq<byte>) {
    |p| >= HDR && 0 < p[8] <= 32 && Count(p) <= MAX_MEMBERS && |p| == HDR + 8 * Count(p)
  }

  /** A payload is taken exactly when its prefix length is 1 to 32, it names at most 256
      members, and it is as long as they need. */
  lemma AcceptedIs(p: seq<byte>)
    ensures Accepted(p) <==>
              && |p| >= 11 && 1 <= p[8] <= 32
              && var n := p[9] as int * 256 + p[10] as int; n <= 256 && |p| == 11 + 8 * n
  {
    if |p| >= 11 {
      assert p[9..][0] == p[9] && p[9..][1] == p[10];
    }
  }

  /** An address resolves only inside the subnet, other than as its network address, and
      then to the node of the first member that has it, else to 0. */
  lemma ResolveIs(ms: seq<Member>, vnet: seq<byte>, bits: int, ab: seq<byte>)
    requires |vnet| == 4 && |ab| == 4
    ensures (bits <= 0 || bits > 32 || vnet == ab) ==> Resolve(ms, vnet, bits, ab) == 0
    ensures 0 < bits <= 32 && vnet != ab && Get32(vnet) / Pow2(32 - bits) != Get32(ab) / Pow2(32 - bits) ==> Resolve(ms, vnet, bits, ab) == 0
    ensures 0 < bits <= 32 && vnet != ab && Get32(vnet) / Pow2(32 - bits) == Get32(ab) / Pow2(32 - bits) ==>
              FirstOf(ms, (m: Member) => m.1 == Get32(ab), (m: Member) => m.0, Resolve(ms, vnet, bits, ab))
  {
    FirstNodeOf(ms, Get32(ab));
    if 0 < bits <= 32 { PrefixMeansLeadingBits(vnet, ab, bits); }
  }

  /** v is what the first member that passes gives, and 0 when none does. */
  predicate FirstOf(ms: seq<Member>, passes: Member -> bool, gives: Member -> int, v: int) {
    || (v == 0 && forall m <- ms :: !passes(m))
    || (exists i | 0 <= i < |ms| :: passes(ms[i]) && v == gives(ms[i]) && forall j | 0 <= j < i :: !passes(ms[j]))
  }

  lemma {:induction false} FirstNodeOf(ms: seq<Member>, virt: int)
    ensures FirstOf(ms, (m: Member) => m.1 == virt, (m: Member) => m.0, FirstNode(ms, virt))
  {
    if ms != [] && ms[0].1 != virt {
      FirstNodeOf(ms[1..], virt);
      assert ms == [ms[0]] + ms[1..];
      Shifted(ms, (m: Member) => m.1 == virt, (m: Member) => m.0, FirstNode(ms, virt));
    }
  }

  /** A member in front that does not pass changes nothing. */
  lemma Shifted(ms: seq<Member>, passes: Member -> bool, gives: Member -> int, v: int)
    requires ms != [] && !passes(ms[0]) && FirstOf(ms[1..], passes, gives, v)
    ensures FirstOf(ms, passes, gives, v)
  {
    var rest := ms[1..];
    if i :| 0 <= i < |rest| && passes(rest[i]) && v == gives(rest[i]) && forall j | 0 <= j < i :: !passes(rest[j]) {
      assert ms[i + 1] == rest[i];
      assert forall j | 0 < j < i + 1 :: ms[j] == rest[j - 1];
    } else {
      assert ms == [ms[0]] + rest;
    }
  }

  /** A node's address is the first member's that names it, else 0. */
  lemma {:induction false} FirstVirtOf(ms: seq<Member>, node: int)
    ensures FirstOf(ms, (m: Member) => m.0 == node, (m: Member) => m.1, FirstVirt(ms, node))
  {
    if ms != [] && ms[0].0 != node {
      FirstVirtOf(ms[1..], node);
      Shifted(ms, (m: Member) => m.0 == node, (m: Member) => m.1, FirstVirt(ms, node));
    }
  }

  class Hook {
    const members: array<Member>
    var count: nat
    var myVirt: int
    var vnet: seq<byte>
    var bits: int
    var haveAssign: bool

    ghost predicate Valid()
      reads this
    {
      members.Length == MAX_MEMBERS && count <= MAX_MEMBERS && |vnet| == 4
    }

    constructor ()
      ensures Valid() && fresh(members) && count == 0 && !haveAssign
    {
      members := new Member[MAX_MEMBERS](_ => (0, 0));
      count, myVirt, vnet, bits, haveAssign := 0, 0, [0, 0, 0, 0], 0, false;
    }

    /** dt_apply_assign. */
    method ApplyAssign(p: seq<byte>)
      requires Valid()
      modifies this, members
      ensures Valid()
      ensures Accepted(p) ==>
                && Parsed(p) == Some(Table(myVirt, Get32(vnet), bits, members[..count]))
                && vnet == p[4..8] && haveAssign
      ensures !Accepted(p) ==>
                && members[..] == old(members[..]) && count == old(count) && myVirt == old(myVirt)
                && vnet == old(vnet) && bits == old(bits) && haveAssign == old(haveAssign)
    {
      if |p| < HDR {
        return;
      }
      var cnt := Get16(p[9..]);
      if p[8] <= 0 || p[8] > 32 || cnt > MAX_MEMBERS || |p| != HDR + 8 * cnt {
        return;
      }
      myVirt := Get32(p);
      vnet := p[4..8];
      Get32Prefix(p[4..], vnet);
      bits := p[8];
      count := 0;
      while count < cnt
        invariant count <= cnt && |vnet| == 4 && members.Length == MAX_MEMBERS
        invariant vnet == p[4..8] && bits == p[8] && myVirt == Get32(p)
        invariant forall i | 0 <= i < count :: members[i] == MemberAt(p, i)
        decreases cnt - count
      {
        members[count] := (Get32(p[HDR + 8 * count..]), Get32(p[HDR + 4 + 8 * count..]));
        count := count + 1;
      }
      assert members[..count] == MembersIn(p, Count(p));
      haveAssign := true;
    }

    /** dt_virt_node: the node behind a network-order address. */
    method VirtNode(ab: seq<byte>) returns (node: int)
      requires Valid() && |ab| == 4
      ensures node == Resolve(members[..count], vnet, bits, ab)
    {
      node := 0;
      if count > 0 && 0 < bits <= 32 {
        var full, rem := bits / 8, bits % 8;
        var ok := vnet[..full] == ab[..full];
        if ok && rem != 0 && vnet[full] as int / Pow2(8 - rem) != ab[full] as int / Pow2(8 - rem) {
          ok := false;
        }
        if ok && vnet != ab {
          var v := Get32(ab);
          var i := 0;
          while i < count && members[i].1 != v
            invariant 0 <= i <= count
            invariant FirstNode(members[..count], v) == FirstNode(members[i..count], v)
          {
            assert members[i..count][1..] == members[i + 1..count];
            i := i + 1;
          }
          if i < count {
            node := members[i].0;
          }
        }
      }
    }

    /** dt_node_virt: the address of a node. */
    method NodeVirt(node: int) returns (virt: int)
      requires Valid()
      ensures virt == FirstVirt(members[..count], node)
    {
      virt := 0;
      var i := 0;
      while i < count && members[i].0 != node
        invariant 0 <= i <= count
        invariant FirstVirt(members[..count], node) == FirstVirt(members[i..count], node)
      {
        assert members[i..count][1..] == members[i + 1..count];
        i := i + 1;
      }
      if i < count {
        virt := members[i].1;
      }
    }
  }

  // ---- from the relay's book to the hook's answers --------------------------------------------

  lemma {:induction false} FirstNodeIs(ms: seq<Member>, i: nat)
    requires i < |ms| && M.Apart(ms)
    ensures FirstNode(ms, ms[i].1) == ms[i].0 && FirstVirt(ms, ms[i].0) == ms[i].1
  {
    if i > 0 {
      FirstNodeIs(ms[1..], i - 1);
    }
  }

  lemma {:induction false} NoneFirst(ms: seq<Member>, v: int)
    ensures (forall m <- ms :: m.1 != v) ==> FirstNode(ms, v) == 0
    ensures (forall m <- ms :: m.0 != v) ==> FirstVirt(ms, v) == 0
  {
    if ms != [] {
      NoneFirst(ms[1..], v);
    }
  }

  lemma {:induction false} RangeCard(s: set<int>, lo: int, n: nat)
    requires forall x <- s :: lo <= x < lo + n
    ensures |s| <= n
  {
    if n == 0 {
      assert forall x :: x !in s;
    } else {
      RangeCard(s - {lo + n - 1}, lo, n - 1);
    }
  }

  lemma {:induction false} DistinctCard(xs: seq<int>)
    requires forall i, j | 0 <= i < j < |xs| :: xs[i] != xs[j]
    ensures |(set x | x in xs)| == |xs|
  {
    if xs != [] {
      var n := |xs| - 1;
      DistinctCard(xs[..n]);
      assert (set x | x in xs) == (set x | x in xs[..n]) + {xs[n]};
    }
  }

  function Addresses(ms: seq<Member>): (r: seq<int>)
    ensures |r| == |ms| && forall i | 0 <= i < |ms| :: r[i] == ms[i].1
  {
    seq(|ms|, i requires 0 <= i < |ms| => ms[i].1)
  }

  /** What send_assign encodes for a connection whose node has address my (0 without a node). */
  function Emitted(b: M.Book, my: int): Table {
    Table(my, b.net, 24, M.Members(b.nodes, b.closing))
  }

  /** The members of a book: nonzero 32-bit nodes and addresses .2 to .254 of the subnet, each once. */
  lemma BookMembers(b: M.Book)
    requires M.Inv(b)
    ensures var ms := M.Members(b.nodes, b.closing);
            && |ms| <= 253
            && M.Apart(ms)
            && (forall m <- ms :: M.IsId(m.0) && b.net + M.FIRST <= m.1 <= b.net + M.LAST)
  {
    var ms := M.Members(b.nodes, b.closing);
    M.MembersDistinct(b.nodes, b.closing);
    forall m <- ms ensures M.IsId(m.0) && b.net + M.FIRST <= m.1 <= b.net + M.LAST {
      M.MembersExactly(b.nodes, b.closing, m);
    }
    DistinctCard(Addresses(ms));
    RangeCard((set x | x in Addresses(ms)), b.net + M.FIRST, 253);
  }

  predicate InWidth(t: Table) {
    && 0 <= t.myVirt < 0x1_0000_0000 && 0 <= t.net < 0x1_0000_0000
    && (forall m <- t.members :: 0 <= m.0 < 0x1_0000_0000 && 0 <= m.1 < 0x1_0000_0000)
  }

  /** A table within the field widths reaches the hook unchanged. */
  lemma Taken(t: Table)
    requires InWidth(t) && 0 < t.bits <= 32 && |t.members| <= MAX_MEMBERS
    ensures Payload(t).Some? && Accepted(Payload(t).value) && Parsed(Payload(t).value) == Some(t)
  {
    HeaderFields(t, Records(t.members));
    Unmasked(t);
    DecodeOfEncode(t);
  }

  lemma Unmasked(t: Table)
    requires InWidth(t) && 0 < t.bits <= 32
    ensures Masked(t) == t
  {
    assert Masked(t).members == t.members;
  }

  /** Every ASSIGN the relay can emit is accepted by the hook, as the table it stands for. */
  lemma EmittedAccepted(b: M.Book, my: int)
    requires M.Inv(b) && 0 <= my < 0x1_0000_0000
    ensures Payload(Emitted(b, my)).Some? && Accepted(Payload(Emitted(b, my)).value)
    ensures Parsed(Payload(Emitted(b, my)).value) == Some(Emitted(b, my))
  {
    BookMembers(b);
    Taken(Emitted(b, my));
  }

  lemma MemberResolves(ms: seq<Member>, net: int, vnet: seq<byte>, ab: seq<byte>, i: nat)
    requires i < |ms| && M.Apart(ms)
    requires |vnet| == 4 && |ab| == 4 && Get32(vnet) == net && net % 256 == 0 && Get32(ab) == ms[i].1 && net < ms[i].1 < net + 256
    ensures Resolve(ms, vnet, 24, ab) == ms[i].0
  {
    FirstNodeIs(ms, i);
    Powers();
    PrefixMeansLeadingBits(vnet, ab, 24);
  }

  /** After that ASSIGN an address resolves to a node exactly when it is that
      live node's address, and to 0 otherwise; and a node to its address likewise. */
  lemma EndToEnd(b: M.Book, ms: seq<Member>, vnet: seq<byte>, ab: seq<byte>, node: int)
    requires M.Inv(b) && ms == M.Members(b.nodes, b.closing) && |vnet| == 4 && Get32(vnet) == b.net && |ab| == 4
    ensures forall m <- ms :: Get32(ab) == m.1 ==> Resolve(ms, vnet, 24, ab) == m.0 != 0
    ensures (forall m <- ms :: Get32(ab) != m.1) ==> Resolve(ms, vnet, 24, ab) == 0
    ensures forall m <- ms :: node == m.0 ==> FirstVirt(ms, node) == m.1 != 0
    ensures (forall m <- ms :: node != m.0) ==> FirstVirt(ms, node) == 0
  {
    BookMembers(b);
    NoneFirst(ms, Get32(ab));
    NoneFirst(ms, node);
    forall i | 0 <= i < |ms|
      ensures Get32(ab) == ms[i].1 ==> Resolve(ms, vnet, 24, ab) == ms[i].0
      ensures node == ms[i].0 ==> FirstVirt(ms, node) == ms[i].1
    {
      assert ms[i] in ms;
      FirstNodeIs(ms, i);
      if Get32(ab) == ms[i].1 {
        MemberResolves(ms, b.net, vnet, ab, i);
      }
    }
  }

  /** The whole way: the relay lists its live members and encodes them, the hook
      applies the payload, and its lookups answer for the relay's book. */
  method AssignThenLookUp(d: M.Directory, h: Hook, my: int, ab: seq<byte>, node: int) returns (n: int, v: int)
    requires h.Valid() && M.Inv(d.View()) && 0 <= my < 0x1_0000_0000 && |ab| == 4
    modifies h, h.members
    ensures h.Valid() && h.haveAssign && h.myVirt == my && h.members[..h.count] == M.Members(d.nodes, d.closing)
    ensures forall e <- d.nodes :: M.Live(e, d.closing) && Get32(ab) == e.virt ==> n == e.nid
    ensures (forall e <- d.nodes :: M.Live(e, d.closing) ==> Get32(ab) != e.virt) ==> n == 0
    ensures forall e <- d.nodes :: M.Live(e, d.closing) && node == e.nid ==> v == e.virt
    ensures (forall e <- d.nodes :: M.Live(e, d.closing) ==> node != e.nid) ==> v == 0
  {
    ghost var b := d.View();
    var ms := d.LiveMembers();
    var out := EncodeAssign(my, d.net, 24, ms);
    EmittedAccepted(b, my);
    h.ApplyAssign(out.value);
    n := h.VirtNode(ab);
    v := h.NodeVirt(node);
    EndToEnd(b, ms, h.vnet, ab, node);
    ForEntries(b, ms, Get32(ab), node, n, v);
  }

  /** The answers for members are answers for the live entries. */
  lemma ForEntries(b: M.Book, ms: seq<Member>, virt: int, node: int, n: int, v: int)
    requires ms == M.Members(b.nodes, b.closing)
    requires forall m <- ms :: (virt == m.1 ==> n == m.0) && (node == m.0 ==> v == m.1)
    requires (forall m <- ms :: virt != m.1) ==> n == 0
    requires (forall m <- ms :: node != m.0) ==> v == 0
    ensures forall e <- b.nodes :: M.Live(e, b.closing) ==> (virt == e.virt ==> n == e.nid) && (node == e.nid ==> v == e.virt)
    ensures (forall e <- b.nodes :: M.Live(e, b.closing) ==> virt != e.virt) ==> n == 0
    ensures (forall e <- b.nodes :: M.Live(e, b.closing) ==> node != e.nid) ==> v == 0
  {
    forall e <- b.nodes | M.Live(e, b.closing) ensures (e.nid, e.virt) in ms {
      M.MembersExactly(b.nodes, b.closing, (e.nid, e.virt));
    }
    forall m <- ms ensures exists e <- b.nodes :: m == (e.nid, e.virt) && M.Live(e, b.closing) {
      M.MembersExactly(b.nodes, b.closing, m);
    }
  }
}
