/** Control-link reassembly (hook/hk_stream.c:1526-1567) against the batch
    reading of the same byte stream (common.py:416-428). */
module Deframe {
  import opened Wire

  /** What is left when no further whole frame can be cut off. */
  datatype Tail = Rest(bytes: seq<byte>) | BadLength

  datatype Parsed = Parsed(frames: seq<Frame>, tail: Tail)

  predicate HeaderBad(b: seq<byte>)
    requires |b| >= 4
  {
    Get32(b) < 1 || Get32(b) > MAX_BODY
  }

  /** Less than one frame: nothing can be cut off and the length is not yet known to be bad. */
  predicate Incomplete(b: seq<byte>) {
    |b| < 4 || (!HeaderBad(b) && |b| < 4 + Get32(b))
  }

  function Head(b: seq<byte>): (f: Frame)
    requires |b| >= 4 && !HeaderBad(b) && |b| >= 4 + Get32(b)
    ensures Sendable(f)
  {
    Frame(b[4], b[5..4 + Get32(b)])
  }

  /** The reference: repeatedly read a length and a body, as tcp_read does,
      from the whole byte stream at once. */
  function Parse(b: seq<byte>): Parsed
    decreases |b|
  {
    if |b| < 4 then Parsed([], Rest(b))
    else if HeaderBad(b) then Parsed([], BadLength)
    else if |b| < 4 + Get32(b) then Parsed([], Rest(b))
    else
      var p := Parse(b[4 + Get32(b)..]);
      Parsed([Head(b)] + p.frames, p.tail)
  }

  lemma {:induction false} ParseTail(b: seq<byte>)
    ensures Parse(b).tail.Rest? ==>
              && Incomplete(Parse(b).tail.bytes)
              && |Parse(b).tail.bytes| <= |b|
    ensures forall f <- Parse(b).frames :: Sendable(f)
    decreases |b|
  {
    if |b| >= 4 && !HeaderBad(b) && |b| >= 4 + Get32(b) {
      ParseTail(b[4 + Get32(b)..]);
    }
  }

  /** One unfolding of Parse at a whole frame. */
  lemma ParseStep(b: seq<byte>)
    requires |b| >= 4 && !HeaderBad(b) && |b| >= 4 + Get32(b)
    ensures var p := Parse(b[4 + Get32(b)..]); Parse(b) == Parsed([Head(b)] + p.frames, p.tail)
  {
  }

  /** Bytes that arrive later do not change the frame at the front. */
  lemma HeadStays(a: seq<byte>, b: seq<byte>)
    requires |a| >= 4
    ensures Get32(a + b) == Get32(a)
    ensures !HeaderBad(a) && |a| >= 4 + Get32(a) ==>
              Head(a + b) == Head(a) && (a + b)[4 + Get32(a)..] == a[4 + Get32(a)..] + b
  {
    assert (a + b)[..4] == a[..4];
    Get32Prefix(a, a + b);
    if !HeaderBad(a) && |a| >= 4 + Get32(a) {
      var n := 4 + Get32(a);
      assert (a + b)[5..n] == a[5..n];
    }
  }

  ghost predicate Extends(whole: Parsed, first: Parsed, later: seq<byte>) {
    match first.tail
    case BadLength => whole == first
    case Rest(r) => whole == Parsed(first.frames + Parse(r + later).frames, Parse(r + later).tail)
  }

  lemma ExtendsCons(f: Frame, whole: Parsed, first: Parsed, later: seq<byte>)
    requires Extends(whole, first, later)
    ensures Extends(Parsed([f] + whole.frames, whole.tail), Parsed([f] + first.frames, first.tail), later)
  {
    if first.tail.Rest? {
      var p := Parse(first.tail.bytes + later);
      assert [f] + (first.frames + p.frames) == ([f] + first.frames) + p.frames;
    }
  }

  /** Parsing is incremental: what arrives later only extends the tail. */
  lemma {:induction false} ParseAppend(a: seq<byte>, b: seq<byte>)
    ensures Extends(Parse(a + b), Parse(a), b)
    decreases |a|
  {
    if |a| >= 4 {
      HeadStays(a, b);
      if !HeaderBad(a) && |a| >= 4 + Get32(a) {
        var n := 4 + Get32(a);
        ParseAppend(a[n..], b);
        ParseStep(a);
        ParseStep(a + b);
        ExtendsCons(Head(a), Parse(a[n..] + b), Parse(a[n..]), b);
      }
    }
  }

  lemma HeadOfEncoded(f: Frame, tl: seq<byte>, b: seq<byte>)
    requires Sendable(f) && b == Put32(1 + |f.payload|) + (Body(f) + tl)
    ensures !HeaderBad(b) && Get32(b) == 1 + |f.payload| && Head(b) == f
  {
    Get32OfPut32(1 + |f.payload|, Body(f) + tl);
    var n := 4 + Get32(b);
    assert b[4..n] == Body(f);
    assert b[4] == b[4..n][0] && b[5..n] == b[4..n][1..];
  }

  /** Round trip: the batch reader recovers exactly the frames sent, followed
      by whatever incomplete bytes come after them. */
  lemma {:induction false} ParseOfEncodeAll(fs: seq<Frame>, rest: seq<byte>)
    requires forall f <- fs :: Sendable(f)
    requires Incomplete(rest)
    ensures Parse(EncodeAll(fs) + rest) == Parsed(fs, Rest(rest))
  {
    if fs == [] {
      assert EncodeAll(fs) + rest == rest;
    } else {
      var tl := EncodeAll(fs[1..]) + rest;
      ParseOfEncodeAll(fs[1..], rest);
      assert EncodeAll(fs) + rest == Encode(fs[0]) + tl;
      ParseOfCons(fs[0], tl);
      assert [fs[0]] + fs[1..] == fs;
    }
  }

  lemma ParseOfCons(f: Frame, tl: seq<byte>)
    requires Sendable(f)
    ensures Parse(Encode(f) + tl) == Parsed([f] + Parse(tl).frames, Parse(tl).tail)
  {
    var b := Encode(f) + tl;
    assert b == Put32(1 + |f.payload|) + (Body(f) + tl);
    HeadOfEncoded(f, tl, b);
    assert b[4 + Get32(b)..] == tl;
    ParseStep(b);
  }

  /** A strict prefix of one frame's bytes is an incomplete tail. */
  lemma PrefixIsIncomplete(f: Frame, k: nat)
    requires Sendable(f) && k < |Encode(f)|
    ensures Incomplete(Encode(f)[..k])
  {
    var e := Encode(f);
    if k >= 4 {
      Get32OfPut32(1 + |f.payload|, Body(f));
      assert e[..k][..4] == e[..4];
      Get32Prefix(e, e[..k]);
    }
  }

  /** The first `off` bytes of `all` are exactly the frames `out`. */
  ghost predicate CutTo(all: seq<byte>, out: seq<Frame>, off: nat) {
    && off <= |all|
    && Parse(all) == Parsed(out + Parse(all[off..]).frames, Parse(all[off..]).tail)
  }

  /** Dispatch the frame at `off`. */
  method CutOne(all: seq<byte>, out: seq<Frame>, off: nat, ml: nat) returns (out': seq<Frame>)
    requires CutTo(all, out, off)
    requires |all| - off >= 4 && ml == Get32(all[off..]) && 1 <= ml <= MAX_BODY && |all| - off - 4 >= ml
    ensures CutTo(all, out', off + 4 + ml)
  {
    ghost var tl := all[off..];
    ParseStep(tl);
    assert tl[4 + ml..] == all[off + 4 + ml..];
    var f := Frame(all[off + 4], all[off + 5..off + 4 + ml]);
    assert Head(tl) == f;
    out' := out + [f];
    assert out + ([f] + Parse(tl[4 + ml..]).frames) == out' + Parse(tl[4 + ml..]).frames;
  }

  lemma CutEnd(all: seq<byte>, out: seq<Frame>, off: nat)
    requires CutTo(all, out, off)
    ensures |all| - off >= 4 && HeaderBad(all[off..]) ==> Parse(all) == Parsed(out, BadLength)
    ensures Incomplete(all[off..]) ==> Parse(all) == Parsed(out, Rest(all[off..]))
  {
    assert out + [] == out;
  }

  /** Cut whole frames off the front of the held bytes; stop at a bad length or a partial frame. */
  method CutFrames(all: seq<byte>) returns (out: seq<Frame>, bad: bool, off: nat)
    ensures off <= |all|
    ensures bad ==> Parse(all) == Parsed(out, BadLength)
    ensures !bad ==> Parse(all) == Parsed(out, Rest(all[off..])) && Incomplete(all[off..])
  {
    out, bad, off := [], false, 0;
    while |all| - off >= 4
      invariant CutTo(all, out, off)
      decreases |all| - off
    {
      var ml := Get32(all[off..]);
      if ml < 1 || ml > MAX_BODY {
        CutEnd(all, out, off);
        bad := true;
        return;
      }
      if |all| - off - 4 < ml {
        break;
      }
      out := CutOne(all, out, off, ml);
      off := off + 4 + ml;
    }
    CutEnd(all, out, off);
  }

  /** The control thread's inbound state: rbuf holds rn unparsed bytes. */
  class Reassembly {
    var rbuf: array<byte>
    var rn: nat
    ghost var stream: seq<byte>     // every byte received on this link
    ghost var dispatched: seq<Frame>

    /** Everything received parses to what was dispatched, and the buffer is the tail. */
    ghost predicate Valid()
      reads this, rbuf
    {
      && rn <= rbuf.Length
      && Parse(stream) == Parsed(dispatched, Rest(rbuf[..rn]))
    }

    constructor ()
      ensures Valid() && stream == [] && dispatched == [] && rn == 0
      ensures fresh(rbuf)
    {
      rbuf := new byte[0];
      rn := 0;
      stream, dispatched := [], [];
    }

    /** Grow the buffer to nc bytes, keeping its contents. */
    method Realloc(nc: nat)
      requires rn <= rbuf.Length && rn <= nc
      modifies this`rbuf
      ensures rbuf.Length == nc && fresh(rbuf)
      ensures rbuf[..rn] == old(rbuf[..rn])
    {
      var nb := new byte[nc];
      forall i | 0 <= i < rn {
        nb[i] := rbuf[i];
      }
      rbuf := nb;
    }

    /** Before a read: at least 65536 free bytes. */
    method MakeRoom()
      requires Valid()
      modifies this`rbuf
      ensures Valid() && rbuf[..rn] == old(rbuf[..rn])
      ensures rbuf.Length - rn >= 65536
      ensures rbuf == old(rbuf) || fresh(rbuf)
    {
      if rbuf.Length - rn < 65536 {
        var nc := if rbuf.Length != 0 then rbuf.Length * 2 else 131072;
        while nc - rn < 65536
          invariant nc >= rn && nc > 0
          decreases 65536 + rn - nc
        {
          nc := nc * 2;
        }
        Realloc(nc);
      }
    }

    /** Append what recv returned. */
    method Append(got: seq<byte>)
      requires rn + |got| <= rbuf.Length
      modifies this`rn, rbuf
      ensures rn == old(rn) + |got| && rbuf[..rn] == old(rbuf[..rn]) + got
    {
      forall i | 0 <= i < |got| {
        rbuf[rn + i] := got[i];
      }
      rn := rn + |got|;
    }

    /** Drop the parsed bytes from the front. */
    method Compact(off: nat)
      requires off <= rn <= rbuf.Length
      modifies this`rn, rbuf
      ensures rn == old(rn) - off && rbuf[..rn] == old(rbuf[off..rn])
    {
      forall i | 0 <= i < rn - off {
        rbuf[i] := rbuf[off + i];
      }
      rn := rn - off;
    }

    /** One read of the chunk `got` (recv never returns more than the free
        space it was offered), then dispatch of every whole frame. `out` is
        what was dispatched now; `bad` is the jump to redial. */
    method Receive(got: seq<byte>) returns (out: seq<Frame>, bad: bool)
      requires Valid() && |got| <= rbuf.Length - rn
      modifies this, rbuf
      ensures rbuf == old(rbuf) || fresh(rbuf)
      ensures stream == old(stream) + got
      ensures dispatched == old(dispatched) + out == Parse(stream).frames
      ensures bad <==> Parse(stream).tail.BadLength?
      ensures !bad ==> Valid() && Incomplete(rbuf[..rn])
    {
      ParseAppend(stream, got);
      Append(got);
      stream := stream + got;
      var off: nat;
      out, bad, off := CutFrames(rbuf[..rn]);
      assert rbuf[..rn][off..] == rbuf[off..rn];
      dispatched := dispatched + out;
      if bad {
        return;
      }
      if rn - off >= 4 {
        var ml := Get32(rbuf[off..off + 4]);
        if rbuf.Length < 4 + ml { // room for the whole frame
          ghost var tl := rbuf[off..rn];
          Realloc(4 + ml + 65536);
          assert rbuf[off..rn] == tl;
        }
      }
      Compact(off);
      ParseTail(stream);
    }
  }

  function Sum(ks: seq<nat>): nat {
    if ks == [] then 0 else Sum(ks[..|ks| - 1]) + ks[|ks| - 1]
  }

  function Min(a: int, b: int): int {
    if a <= b then a else b
  }

  /** Bytes already received decide a bad length for good. */
  lemma BadStays(all: seq<byte>, used: nat)
    requires used <= |all| && Parse(all[..used]).tail.BadLength?
    ensures Parse(all) == Parse(all[..used])
  {
    ParseAppend(all[..used], all[used..]);
    assert all[..used] + all[used..] == all;
  }

  /** Each read took all it was given, unless the buffer's free space or the end
      of the bytes came first. */
  predicate Cut(cuts: seq<nat>, sizes: seq<nat>, n: nat) {
    && |cuts| <= |sizes|
    && forall i | 0 <= i < |cuts| ::
         Sum(cuts[..i]) <= n && Min(Min(sizes[i], 65536), n - Sum(cuts[..i])) <= cuts[i] <= sizes[i]
  }

  lemma CutSnoc(cuts: seq<nat>, sizes: seq<nat>, n: nat, k: nat)
    requires Cut(cuts, sizes, n) && |cuts| < |sizes| && Sum(cuts) <= n
    requires Min(Min(sizes[|cuts|], 65536), n - Sum(cuts)) <= k <= sizes[|cuts|]
    ensures Cut(cuts + [k], sizes, n) && Sum(cuts + [k]) == Sum(cuts) + k
  {
    var more := cuts + [k];
    assert more[..|cuts|] == cuts;
    forall i | 0 <= i < |cuts| ensures more[..i] == cuts[..i] {
    }
  }

  /** One turn of the read: room is made, recv is offered all of it and returns
      what the socket has to give, and whole frames are dispatched. */
  method ReadOnce(r: Reassembly, all: seq<byte>, used: nat, size: nat) returns (more: seq<Frame>, bad: bool, k: nat)
    requires used <= |all| && r.Valid() && r.stream == all[..used]
    modifies r, r.rbuf
    ensures r.rbuf == old(r.rbuf) || fresh(r.rbuf)
    ensures Min(Min(size, 65536), |all| - used) <= k <= size && used + k <= |all|
    ensures old(r.dispatched) + more == Parse(all[..used + k]).frames
    ensures bad <==> Parse(all[..used + k]).tail.BadLength?
    ensures !bad ==> r.Valid() && r.stream == all[..used + k] && r.dispatched == old(r.dispatched) + more
  {
    r.MakeRoom();
    k := Min(Min(size, r.rbuf.Length - r.rn), |all| - used);
    assert all[..used] + all[used..used + k] == all[..used + k];
    more, bad := r.Receive(all[used..used + k]);
  }

  /** One link's whole life. sizes[i] is what the socket has to give at the i-th
      read; recv cuts it at the free space it is offered. However the relay's
      bytes are split, the frames dispatched are the parse of the bytes read, up
      to the first bad length. */
  method ReadLink(all: seq<byte>, sizes: seq<nat>) returns (out: seq<Frame>, bad: bool, used: nat, cuts: seq<nat>)
    ensures used == Sum(cuts) <= |all| && Cut(cuts, sizes, |all|)
    ensures out == Parse(all[..used]).frames && (bad <==> Parse(all[..used]).tail.BadLength?)
    ensures !bad ==> |cuts| == |sizes|
    ensures bad || used == |all| ==> out == Parse(all).frames && (bad <==> Parse(all).tail.BadLength?)
  {
    var r := new Reassembly();
    out, bad, used, cuts := [], false, 0, [];
    while |cuts| < |sizes| && !bad
      invariant used == Sum(cuts) <= |all| && Cut(cuts, sizes, |all|)
      invariant fresh(r) && fresh(r.rbuf)
      invariant !bad ==> r.Valid() && r.stream == all[..used] && r.dispatched == out
      invariant out == Parse(all[..used]).frames && (bad <==> Parse(all[..used]).tail.BadLength?)
      decreases |sizes| - |cuts|
    {
      var more: seq<Frame>;
      var k: nat;
      more, bad, k := ReadOnce(r, all, used, sizes[|cuts|]);
      CutSnoc(cuts, sizes, |all|, k);
      out, used, cuts := out + more, used + k, cuts + [k];
    }
    if bad {
      BadStays(all, used);
    }
    assert all[..|all|] == all;
  }
}
