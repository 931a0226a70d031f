/** The bytes of a control frame and of an ASSIGN, place by place (common.py:245-270,
    416-428, hook/hk_ports.c:208-246, 322-395). */
module Layouts {
  import opened Wire
  import opened Deframe
  import opened Assign

  /** Four bytes from place k on, most significant first. */
  function Big32(b: seq<byte>, k: nat): int
    requires k + 4 <= |b|
  {
    b[k] as int * 0x100_0000 + b[k + 1] as int * 0x1_0000 + b[k + 2] as int * 0x100 + b[k + 3] as int
  }

  /** Two bytes likewise. */
  function Big16(b: seq<byte>, k: nat): int
    requires k + 2 <= |b|
  {
    b[k] as int * 0x100 + b[k + 1] as int
  }

  lemma GetIsBig(b: seq<byte>, k: nat)
    requires k + 4 <= |b|
    ensures Get32(b[k..]) == Big32(b, k)
  {
    var t := b[k..];
    assert t[0] == b[k] && t[1] == b[k + 1] && t[2..][0] == b[k + 2] && t[2..][1] == b[k + 3];
  }

  /** A frame is its length, most significant byte first and counting the type and the
      payload, then the type, then the payload. */
  lemma FrameLayout(f: Frame)
    requires Sendable(f)
    ensures var b := Encode(f);
            |b| == 5 + |f.payload| && Big32(b, 0) == 1 + |f.payload| && b[4] == f.kind && b[5..] == f.payload
  {
    var b := Encode(f);
    Get32OfPut32(1 + |f.payload|, Body(f));
    GetIsBig(b, 0);
    assert b[0..] == b && b[4..] == Body(f);
    assert b[4] == b[4..][0] && b[5..] == b[4..][1..];
  }

  /** Reading: fewer than four bytes wait. A length of 0 or above 8 MiB ends the link at
      once, however many bytes follow. An incomplete frame waits. A whole one is taken by
      those places, and reading goes on behind it. */
  lemma ParseLayout(b: seq<byte>)
    ensures |b| < 4 ==> Parse(b) == Parsed([], Rest(b))
    ensures |b| >= 4 ==>
              var n := Big32(b, 0);
              if n == 0 || n > 8388608 then Parse(b) == Parsed([], BadLength)
              else if |b| < 4 + n then Parse(b) == Parsed([], Rest(b))
              else Parse(b) == Parsed([Frame(b[4], b[5..4 + n])] + Parse(b[4 + n..]).frames, Parse(b[4 + n..]).tail)
  {
    if |b| >= 4 {
      GetIsBig(b, 0);
      assert b[0..] == b && Get32(b) == Big32(b, 0);
      if Get32(b) >= 1 && Get32(b) <= 8388608 && |b| >= 4 + Get32(b) {
        ParseStep(b);
      }
    }
  }

  /** An ASSIGN is the connection's own address, the network, the prefix length, the
      member count, and eight bytes a member: its node, then its address. */
  lemma AssignLayout(t: Table)
    requires |t.members| < 65536
    ensures Payload(t).Some? && |Payload(t).value| == 11 + 8 * |t.members|
    ensures var b := Payload(t).value;
            && Big32(b, 0) == t.myVirt % 0x1_0000_0000 && Big32(b, 4) == t.net % 0x1_0000_0000 && b[8] == t.bits % 256
            && Big16(b, 9) == |t.members|
            && forall i | 0 <= i < |t.members| ::
                 Big32(b, 11 + 8 * i) == t.members[i].0 % 0x1_0000_0000 && Big32(b, 15 + 8 * i) == t.members[i].1 % 0x1_0000_0000
  {
    var b := Payload(t).value;
    DecodeOfEncode(t);
    DecodedLayout(b);
    var d := Assign.Parsed(b).value;
    forall i | 0 <= i < |t.members|
      ensures Big32(b, 11 + 8 * i) == t.members[i].0 % 0x1_0000_0000 && Big32(b, 15 + 8 * i) == t.members[i].1 % 0x1_0000_0000
    {
      assert d.members[i] == Masked(t).members[i] == (t.members[i].0 % 0x1_0000_0000, t.members[i].1 % 0x1_0000_0000);
    }
  }

  /** Reading it: exactly the payloads of that length are taken, field by field. */
  lemma DecodedLayout(b: seq<byte>)
    ensures Assign.Parsed(b).Some? <==> |b| >= 11 && |b| == 11 + 8 * (Big16(b, 9))
    ensures Assign.Parsed(b).Some? ==>
              var t := Assign.Parsed(b).value;
              && t.myVirt == Big32(b, 0) && t.net == Big32(b, 4) && t.bits == b[8] && |t.members| == Big16(b, 9)
              && forall i | 0 <= i < |t.members| :: t.members[i] == (Big32(b, 11 + 8 * i), Big32(b, 15 + 8 * i))
  {
    if |b| >= 11 {
      assert b[9..][0] == b[9] && b[9..][1] == b[10];
      GetIsBig(b, 0);
      GetIsBig(b, 4);
      assert b[0..] == b;
      if Assign.Parsed(b).Some? {
        forall i | 0 <= i < Count(b) ensures MemberAt(b, i) == (Big32(b, 11 + 8 * i), Big32(b, 15 + 8 * i)) {
          GetIsBig(b, 11 + 8 * i);
          GetIsBig(b, 15 + 8 * i);
        }
      }
    }
  }
}
