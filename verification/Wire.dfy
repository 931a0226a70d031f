/** Bytes, the big-endian integers of the wire format, and the length-prefixed
    frame layout shared by the relay and the hook: [u32 len][u8 type][payload],
    where len counts the type byte and the payload. */
module Wire {
  type byte = x: int | 0 <= x < 256

  datatype Option<+T> = None | Some(value: T)

  /** Longest body either side accepts before it drops the connection. */
  const MAX_BODY := 8388608

  function Put16(v: int): (b: seq<byte>)
    requires 0 <= v < 0x1_0000
    ensures |b| == 2
  {
    [v / 256, v % 256]
  }

  function Get16(b: seq<byte>): (v: int)
    requires |b| >= 2
    ensures 0 <= v < 0x1_0000
  {
    b[0] as int * 256 + b[1] as int
  }

  function Put32(v: int): (b: seq<byte>)
    requires 0 <= v < 0x1_0000_0000
    ensures |b| == 4
  {
    Put16(v / 0x1_0000) + Put16(v % 0x1_0000)
  }

  function Get32(b: seq<byte>): (v: int)
    requires |b| >= 4
    ensures 0 <= v < 0x1_0000_0000
  {
    Get16(b) * 0x1_0000 + Get16(b[2..])
  }

  lemma Get32OfPut32(v: int, rest: seq<byte>)
    requires 0 <= v < 0x1_0000_0000
    ensures Get32(Put32(v) + rest) == v
  {
    var hi, lo := v / 0x1_0000, v % 0x1_0000;
    var b := Put32(v) + rest;
    assert b[..4] == Put16(hi) + Put16(lo);
    assert b[0] == hi / 256 && b[1] == hi % 256 && b[2] == lo / 256 && b[3] == lo % 256;
    assert b[2..][0] == b[2] && b[2..][1] == b[3];
  }

  lemma Put32OfGet32(b: seq<byte>)
    requires |b| == 4
    ensures Put32(Get32(b)) == b
  {
    var hi, lo := Get16(b), Get16(b[2..]);
    assert Get32(b) / 0x1_0000 == hi && Get32(b) % 0x1_0000 == lo;
    assert hi / 256 == b[0] && hi % 256 == b[1];
    assert lo / 256 == b[2] && lo % 256 == b[3];
  }

  /** Reading depends only on the bytes read. */
  lemma Get32Prefix(a: seq<byte>, b: seq<byte>)
    requires |a| >= 4 && |b| >= 4 && a[..4] == b[..4]
    ensures Get32(a) == Get32(b)
  {
    assert a[0] == a[..4][0] == b[0] && a[1] == a[..4][1] == b[1];
    assert a[2] == a[..4][2] == b[2] && a[3] == a[..4][3] == b[3];
  }

  /** One control frame: a type byte and a payload. */
  datatype Frame = Frame(kind: byte, payload: seq<byte>)

  predicate Sendable(f: Frame) {
    1 + |f.payload| <= MAX_BODY
  }

  function Body(f: Frame): seq<byte> {
    [f.kind] + f.payload
  }

  /** The complete wire bytes of a frame. */
  function Encode(f: Frame): (b: seq<byte>)
    requires Sendable(f)
    ensures |b| == 5 + |f.payload|
  {
    Put32(1 + |f.payload|) + Body(f)
  }

  function EncodeAll(fs: seq<Frame>): seq<byte>
    requires forall f <- fs :: Sendable(f)
  {
    if fs == [] then [] else Encode(fs[0]) + EncodeAll(fs[1..])
  }

  lemma {:induction false} EncodeAllAppend(fs: seq<Frame>, gs: seq<Frame>)
    requires forall f <- fs + gs :: Sendable(f)
    ensures forall f <- fs :: Sendable(f)
    ensures forall f <- gs :: Sendable(f)
    ensures EncodeAll(fs + gs) == EncodeAll(fs) + EncodeAll(gs)
  {
    assert forall f <- fs :: f in fs + gs;
    assert forall f <- gs :: f in fs + gs;
    if fs == [] {
      assert fs + gs == gs;
    } else {
      assert (fs + gs)[0] == fs[0] && (fs + gs)[1..] == fs[1..] + gs;
      assert forall f <- fs[1..] + gs :: f in fs + gs;
      EncodeAllAppend(fs[1..], gs);
      assert Encode(fs[0]) + (EncodeAll(fs[1..]) + EncodeAll(gs))
          == (Encode(fs[0]) + EncodeAll(fs[1..])) + EncodeAll(gs);
    }
  }
}
