/** The ICMP echo reply and its checksum (hook/hk_udp.c:90-118), against the
    Internet checksum of RFC 1071 and the Echo Reply of RFC 792. */
module Icmp {
  import opened Wire

  const HEAD := 8
  /** Bytes up to which a 32-bit sum of 16-bit words cannot wrap. */
  const SUM_SAFE := 131072

  // ---- the checksum ---------------------------------------------------------------

  /** The sum of the big-endian 16-bit words, an odd last byte padded with zero. */
  function WordSum(b: seq<byte>): (s: int)
    ensures 0 <= s <= 65535 * ((|b| + 1) / 2)
  {
    if |b| == 0 then 0
    else if |b| == 1 then b[0] * 256
    else (b[0] as int * 256 + b[1] as int) + WordSum(b[2..])
  }

  /** What byte i weighs: the even ones are the high bytes of their words, a last odd one out included. */
  function Weight(i: nat): int {
    if i % 2 == 0 then 256 else 1
  }

  /** The sum weighs every byte by its place, whatever the length. */
  lemma {:induction false} SumByPlace(b: seq<byte>, i: nat, v: byte)
    requires i < |b|
    ensures WordSum(b[i := v]) - WordSum(b) == (v - b[i]) * Weight(i)
  {
    if |b| >= 2 {
      if i < 2 {
        assert b[i := v][2..] == b[2..];
      } else {
        assert b[i := v][2..] == b[2..][i - 2 := v];
        SumByPlace(b[2..], i - 2, v);
      }
    }
  }

  lemma {:induction false} ZeroSum(b: seq<byte>)
    requires forall x <- b :: x == 0
    ensures WordSum(b) == 0
  {
    assert forall i | 0 <= i < |b| :: b[i] in b;
    if |b| >= 2 {
      assert forall x <- b[2..] :: x in b;
      ZeroSum(b[2..]);
    }
  }

  /** An odd last byte counts as if a zero byte followed it. */
  lemma {:induction false} OddIsPadded(b: seq<byte>)
    requires |b| % 2 == 1
    ensures WordSum(b) == WordSum(b + [0]) && Checksum(b) == Checksum(b + [0])
  {
    if |b| == 1 {
      assert (b + [0])[2..] == [];
    } else {
      assert (b + [0])[2..] == b[2..] + [0];
      OddIsPadded(b[2..]);
    }
  }

  /** The end-around-carry fold. */
  function Fold(v: int): (r: int)
    requires 0 <= v
    ensures 0 <= r < 0x1_0000
    decreases v
  {
    if v < 0x1_0000 then v else Fold(v % 0x1_0000 + v / 0x1_0000)
  }

  function Checksum(b: seq<byte>): (c: int)
    ensures 0 <= c < 0x1_0000
  {
    65535 - Fold(WordSum(b))
  }

  /** Folding is addition in one's complement: the residue modulo 65535, with 65535 for a nonzero multiple. */
  lemma {:induction false} FoldIsOnesComplement(v: int)
    requires 0 <= v
    ensures Fold(v) == if v == 0 then 0 else (v - 1) % 65535 + 1
    decreases v
  {
    if v >= 0x1_0000 {
      var f := v % 0x1_0000 + v / 0x1_0000;
      FoldIsOnesComplement(f);
      SameResidue(v, f);
    }
  }

  lemma SameResidue(v: int, f: int)
    requires v >= 0x1_0000 && f == v % 0x1_0000 + v / 0x1_0000
    ensures (v - 1) % 65535 == (f - 1) % 65535
  {
    var q := v / 0x1_0000;
    assert v - 1 == (f - 1) + q * 65535;
    AddMultiple(f - 1, q);
  }

  lemma {:induction false} AddMultiple(x: int, q: nat)
    ensures (x + q * 65535) % 65535 == x % 65535
  {
    if q > 0 {
      AddMultiple(x, q - 1);
      assert x + q * 65535 == (x + (q - 1) * 65535) + 65535;
    }
  }

  /** No sum of that many words reaches 2^32. */
  lemma NoWrap(b: seq<byte>)
    requires |b| <= SUM_SAFE
    ensures WordSum(b) < 0x1_0000_0000
  {
    assert (|b| + 1) / 2 <= 65536;
  }

  /** The loop over the words, in 32-bit arithmetic. */
  method SumWords(b: seq<byte>) returns (sum: int)
    requires |b| <= SUM_SAFE
    ensures sum == WordSum(b) < 0x1_0000_0000
  {
    NoWrap(b);
    sum := 0;
    var p := 0;
    while |b| - p > 1
      invariant 0 <= p <= |b| && 0 <= sum
      invariant sum + WordSum(b[p..]) == WordSum(b)
    {
      var rest := b[p..];
      assert rest[2..] == b[p + 2..];
      assert WordSum(rest) == (rest[0] as int * 256 + rest[1] as int) + WordSum(rest[2..]);
      sum := (sum + (b[p] as int * 256 + b[p + 1] as int)) % 0x1_0000_0000;
      p := p + 2;
    }
    if p < |b| {
      assert WordSum(b[p..]) == b[p] as int * 256;
      sum := (sum + b[p] as int * 256) % 0x1_0000_0000;
    }
  }

  method Cksum(b: seq<byte>) returns (c: int)
    requires |b| <= SUM_SAFE
    ensures c == Checksum(b)
  {
    var sum := SumWords(b);
    while sum / 0x1_0000 != 0
      invariant 0 <= sum < 0x1_0000_0000 && Fold(sum) == Fold(WordSum(b))
      decreases sum
    {
      sum := sum % 0x1_0000 + sum / 0x1_0000;
    }
    c := (0xFFFF_FFFF - sum) % 0x1_0000; // (unsigned short)~sum
  }

  // ---- the reply ---------------------------------------------------------------------

  function Header(id: int, sq: int, c: int): (h: seq<byte>)
    requires 0 <= id && 0 <= sq && 0 <= c < 0x1_0000
    ensures |h| == HEAD
  {
    [0, 0, c / 256, c % 256, id / 256 % 256, id % 256, sq / 256 % 256, sq % 256]
  }

  function Reply(id: int, sq: int, data: seq<byte>): seq<byte>
    requires 0 <= id && 0 <= sq
  {
    Header(id, sq, Checksum(Header(id, sq, 0) + data)) + data
  }

  /** The reply is built in place: it fills the front of the buffer and leaves the rest. */
  method BuildRep(out: array<byte>, id: int, sq: int, data: seq<byte>) returns (n: nat)
    requires 0 <= id && 0 <= sq && HEAD + |data| <= out.Length && HEAD + |data| <= SUM_SAFE
    modifies out
    ensures n == HEAD + |data| && out[..n] == Reply(id, sq, data) && out[n..] == old(out[n..])
  {
    n := HEAD + |data|;
    out[0], out[1], out[2], out[3] := 0, 0, 0, 0;
    out[4], out[5] := id / 256 % 256, id % 256;
    out[6], out[7] := sq / 256 % 256, sq % 256;
    assert out[..HEAD] == Header(id, sq, 0);
    CopyData(out, data);
    assert out[..n] == Header(id, sq, 0) + data;
    var c := Cksum(out[..n]);
    out[2] := c / 256;
    out[3] := c % 256;
    assert out[..n] == Header(id, sq, c) + data;
  }

  /** memcpy(out + 8, data, dlen) */
  method CopyData(out: array<byte>, data: seq<byte>)
    requires HEAD + |data| <= out.Length
    modifies out
    ensures out[..] == old(out[..HEAD]) + data + old(out[HEAD + |data|..])
  {
    var i := 0;
    while i < |data|
      invariant 0 <= i <= |data|
      invariant out[..] == old(out[..HEAD]) + data[..i] + old(out[HEAD + i..])
    {
      out[HEAD + i] := data[i];
      i := i + 1;
    }
  }

  // ---- what the reply is worth -----------------------------------------------------------

  lemma ChecksumField(id: int, sq: int, data: seq<byte>, c: int)
    requires 0 <= id && 0 <= sq && 0 <= c < 0x1_0000
    ensures WordSum(Header(id, sq, c) + data) == WordSum(Header(id, sq, 0) + data) + c
  {
    var b, z := Header(id, sq, c) + data, Header(id, sq, 0) + data;
    assert b[2..][2..] == z[2..][2..];
    assert b[2..][0] == c / 256 && b[2..][1] == c % 256 && z[2..][0] == 0 && z[2..][1] == 0;
  }

  /** Recomputing the checksum over a message gives 0 for the built checksum and
      for no other value of the field, but for the second zero of one's complement. */
  lemma ChecksumVerifies(id: int, sq: int, data: seq<byte>, c: int)
    requires 0 <= id && 0 <= sq && 0 <= c < 0x1_0000
    ensures var built := Checksum(Header(id, sq, 0) + data);
            Checksum(Header(id, sq, c) + data) == 0 <==> c == built || (built == 0 && c == 65535)
  {
    var w := WordSum(Header(id, sq, 0) + data);
    ChecksumField(id, sq, data, c);
    FoldIsOnesComplement(w);
    FoldIsOnesComplement(w + c);
    Complement(w, c);
  }

  /** Adding c to w gives a nonzero multiple of 65535. */
  lemma Complement(w: int, c: int)
    requires 0 <= w && 0 <= c < 0x1_0000
    ensures var f := if w == 0 then 0 else (w - 1) % 65535 + 1;
            w + c > 0 && (w + c - 1) % 65535 == 65534 <==> c == 65535 - f || (f == 65535 && c == 65535)
  {
    if w > 0 {
      var q, r := (w - 1) / 65535, (w - 1) % 65535;
      assert w + c - 1 == (r + c) + q * 65535;
      AddMultiple(r + c, q);
    }
  }

  /** Recomputing the checksum over every built reply, odd lengths included, gives 0. */
  lemma ReplyVerifies(id: int, sq: int, data: seq<byte>)
    requires 0 <= id && 0 <= sq
    ensures Checksum(Reply(id, sq, data)) == 0
  {
    ChecksumVerifies(id, sq, data, Checksum(Header(id, sq, 0) + data));
  }

  /** The reply's fields read back: an Echo Reply of the request's id, sequence number and data. */
  lemma ReplyReadsBack(id: int, sq: int, data: seq<byte>)
    requires 0 <= id && 0 <= sq
    ensures var r := Reply(id, sq, data);
            && |r| == HEAD + |data| && r[0] == 0 && r[1] == 0
            && Get16(r[4..]) == id % 0x1_0000 && Get16(r[6..]) == sq % 0x1_0000 && r[HEAD..] == data
  {
    var r := Reply(id, sq, data);
    assert r[4..][0] == r[4] && r[4..][1] == r[5] && r[6..][0] == r[6] && r[6..][1] == r[7];
  }
}
