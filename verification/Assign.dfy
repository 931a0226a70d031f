/** The member table on the wire and in the hook (common.py:245-270,
    server.py:226-243, hook/hk_ports.c:328-395). */
module Assign {
  import opened Wire

  const HDR := 11
  const MAX_MEMBERS := 256

  type Member = (int, int) // node id, address

  datatype Table = Table(myVirt: int, net: int, bits: int, members: seq<Member>)

  // ---- the wire format ---------------------------------------------------------

  /** Python's & 0xFFFFFFFF. */
  function Mask32(v: int): (r: int)
    ensures 0 <= r < 0x1_0000_0000
  {
    v % 0x1_0000_0000
  }

  function Record(m: Member): (b: seq<byte>)
    ensures |b| == 8
  {
    Put32(Mask32(m.0)) + Put32(Mask32(m.1))
  }

  function Records(ms: seq<Member>): (b: seq<byte>)
    ensures |b| == 8 * |ms|
  {
    if ms == [] then [] else Records(ms[..|ms| - 1]) + Record(ms[|ms| - 1])
  }

  function Header(t: Table): (b: seq<byte>)
    requires |t.members| < 0x1_0000
    ensures |b| == HDR
  {
    Put32(Mask32(t.myVirt)) + Put32(Mask32(t.net)) + [t.bits % 256] + Put16(|t.members|)
  }

  /** The payload of a table; none when the count does not fit its 16 bits. */
  function Payload(t: Table): Option<seq<byte>> {
    if |t.members| < 0x1_0000 then Some(Header(t) + Records(t.members)) else None
  }

  function Masked(t: Table): Table {
    Table(Mask32(t.myVirt), Mask32(t.net), t.bits % 256,
          seq(|t.members|, i requires 0 <= i < |t.members| => (Mask32(t.members[i].0), Mask32(t.members[i].1))))
  }

  function Count(p: seq<byte>): (n: int)
    requires |p| >= HDR
    ensures 0 <= n < 0x1_0000
  {
    Get16(p[9..])
  }

  function MemberAt(p: seq<byte>, i: nat): (m: Member)
    requires HDR + 8 * i + 8 <= |p|
    ensures 0 <= m.0 < 0x1_0000_0000 && 0 <= m.1 < 0x1_0000_0000
  {
    (Get32(p[HDR + 8 * i..]), Get32(p[HDR + 8 * i + 4..]))
  }

  function MembersIn(p: seq<byte>, n: nat): (ms: seq<Member>)
    requires HDR + 8 * n <= |p|
    ensures |ms| == n && forall i | 0 <= i < n :: ms[i] == MemberAt(p, i)
  {
    seq(n, i requires 0 <= i < n => MemberAt(p, i))
  }

  function Parsed(p: seq<byte>): Option<Table> {
    if |p| < HDR || |p| != HDR + 8 * Count(p) then None
    else Some(Table(Get32(p), Get32(p[4..]), p[8], MembersIn(p, Count(p))))
  }

  lemma {:induction false} RecordAt(ms: seq<Member>, i: nat)
    requires i < |ms|
    ensures Records(ms)[8 * i..8 * i + 8] == Record(ms[i])
  {
    var n := |ms| - 1;
    if i < n {
      RecordAt(ms[..n], i);
      assert Records(ms)[8 * i..8 * i + 8] == Records(ms[..n])[8 * i..8 * i + 8];
    }
  }

  lemma RecordFields(p: seq<byte>, k: nat, m: Member)
    requires k + 8 <= |p| && p[k..k + 8] == Record(m)
    ensures Get32(p[k..]) == Mask32(m.0) && Get32(p[k + 4..]) == Mask32(m.1)
  {
    Get32OfPut32(Mask32(m.0), []);
    Get32OfPut32(Mask32(m.1), []);
    assert p[k..][..4] == p[k..k + 8][..4] == Put32(Mask32(m.0)) == (Put32(Mask32(m.0)) + [])[..4];
    assert p[k + 4..][..4] == p[k..k + 8][4..] == Put32(Mask32(m.1)) == (Put32(Mask32(m.1)) + [])[..4];
    Get32Prefix(p[k..], Put32(Mask32(m.0)) + []);
    Get32Prefix(p[k + 4..], Put32(Mask32(m.1)) + []);
  }

  lemma HeaderFields(t: Table, rest: seq<byte>)
    requires |t.members| < 0x1_0000
    ensures var p := Header(t) + rest;
            Get32(p) == Mask32(t.myVirt) && Get32(p[4..]) == Mask32(t.net) && p[8] == t.bits % 256 && Count(p) == |t.members|
  {
    var p := Header(t) + rest;
    assert p[0..8] == Record((t.myVirt, t.net));
    RecordFields(p, 0, (t.myVirt, t.net));
    assert p[0..] == p && Get32(p[4..]) == Mask32(t.net);
    assert p[8] == Header(t)[8];
    assert p[9] == Header(t)[9] == Put16(|t.members|)[0] && p[10] == Header(t)[10] == Put16(|t.members|)[1];
  }

  /** Decoding what was encoded gives the table back, each field modulo its width. */
  lemma DecodeOfEncode(t: Table)
    requires |t.members| < 0x1_0000
    ensures Payload(t).Some? && Parsed(Payload(t).value) == Some(Masked(t))
  {
    var p := Payload(t).value;
    HeaderFields(t, Records(t.members));
    forall i | 0 <= i < |t.members| ensures MemberAt(p, i) == Masked(t).members[i] {
      RecordAt(t.members, i);
      assert p[HDR + 8 * i..HDR + 8 * i + 8] == Records(t.members)[8 * i..8 * i + 8];
      RecordFields(p, HDR + 8 * i, t.members[i]);
    }
    assert MembersIn(p, Count(p)) == Masked(t).members;
  }

  /** Encoding what was decoded gives the bytes back. */
  lemma EncodeOfDecode(p: seq<byte>)
    requires Parsed(p).Some?
    ensures Payload(Parsed(p).value) == Some(p)
  {
    var t, n := Parsed(p).value, Count(p);
    HeaderOf(p);
    RecordsOf(p, n);
    Joined(p, 0, HDR, |p|);
    assert p[0..HDR] == p[..HDR] && p[0..|p|] == p;
  }

  lemma HeaderOf(p: seq<byte>)
    requires Parsed(p).Some?
    ensures Header(Parsed(p).value) == p[..HDR]
  {
    EightBytes(p, 0);
    assert p[0..] == p && p[0 + 4..] == p[4..];
    CountBytes(p);
    assert p[..HDR] == p[0..8] + [p[8]] + [p[9], p[10]];
  }

  lemma CountBytes(p: seq<byte>)
    requires |p| >= HDR
    ensures Put16(Count(p)) == [p[9], p[10]]
  {
    assert p[9..][0] == p[9] && p[9..][1] == p[10];
  }

  lemma FourBytes(p: seq<byte>, k: nat)
    requires k + 4 <= |p|
    ensures Put32(Get32(p[k..])) == p[k..k + 4]
  {
    Get32Prefix(p[k..], p[k..k + 4]);
    Put32OfGet32(p[k..k + 4]);
  }

  lemma RecordOf(p: seq<byte>, i: nat)
    requires HDR + 8 * i + 8 <= |p|
    ensures Record(MemberAt(p, i)) == p[HDR + 8 * i..HDR + 8 * i + 8]
  {
    EightBytes(p, HDR + 8 * i);
  }

  lemma EightBytes(p: seq<byte>, k: nat)
    requires k + 8 <= |p|
    ensures Record((Get32(p[k..]), Get32(p[k + 4..]))) == p[k..k + 8]
  {
    FourBytes(p, k);
    FourBytes(p, k + 4);
    assert p[k..k + 8] == p[k..k + 4] + p[k + 4..k + 8];
  }

  lemma {:induction false} RecordsOf(p: seq<byte>, n: nat)
    requires HDR + 8 * n <= |p|
    ensures Records(MembersIn(p, n)) == p[HDR..HDR + 8 * n]
  {
    if n > 0 {
      RecordsOf(p, n - 1);
      RecordOf(p, n - 1);
      assert MembersIn(p, n)[..n - 1] == MembersIn(p, n - 1);
      Joined(p, HDR, HDR + 8 * (n - 1), HDR + 8 * n);
    }
  }

  lemma Joined(p: seq<byte>, a: nat, b: nat, c: nat)
    requires a <= b <= c <= |p|
    ensures p[a..b] + p[b..c] == p[a..c]
  {
  }

  // ---- encode_assign and decode_assign ---------------------------------------------

  method EncodeAssign(myVirt: int, net: int, bits: int, members: seq<Member>) returns (out: Option<seq<byte>>)
    ensures out == Payload(Table(myVirt, net, bits, members))
  {
    if |members| >= 0x1_0000 {
      return None; // struct.error
    }
    var b := Header(Table(myVirt, net, bits, members));
    ghost var h := b;
    var i := 0;
    while i < |members|
      invariant 0 <= i <= |members| && b == h + Records(members[..i])
    {
      assert members[..i + 1][..i] == members[..i];
      b := b + Put32(Mask32(members[i].0)) + Put32(Mask32(members[i].1));
      assert b == h + (Records(members[..i]) + Record(members[i]));
      i := i + 1;
    }
    assert members[..i] == members;
    return Some(b);
  }

  method DecodeAssign(payload: seq<byte>) returns (r: Option<Table>)
    ensures r == Parsed(payload)
  {
    if |payload| < HDR {
      return None;
    }
    var n := Get16(payload[9..]);
    if |payload| != HDR + 8 * n {
      return None;
    }
    var members: seq<Member> := [];
    var i := 0;
    while i < n
      invariant 0 <= i <= n && |members| == i
      invariant forall k | 0 <= k < i :: members[k] == MemberAt(payload, k)
    {
      var off := HDR + 8 * i;
      members := members + [(Get32(payload[off..]), Get32(payload[off + 4..]))];
      i := i + 1;
    }
    assert members == MembersIn(payload, n);
    return Some(Table(Get32(payload), Get32(payload[4..]), payload[8], members));
  }
}
