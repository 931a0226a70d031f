/** The node-scoped port ledger (hook/hk_ledger.c): a fixed table of claims in
    shared memory, scanned and overwritten in place under one lock, against a
    simple map of claims. */
module Ledger {
  import opened Wire

  const SLP_MAX := 192
  const SOCK_DGRAM := 2

  datatype Row = Row(used: bool, pid: nat, node: nat, start: nat, vport: int, real_port: int, proto: byte, reuse: byte)

  /** What a claim is about. */
  datatype Key = Key(node: nat, vport: int, proto: byte)

  /** Who holds it, and how. */
  datatype Holder = Holder(pid: nat, start: nat, real_port: int, reuse: byte)

  /** The processes running now, with their start stamps. */
  type Procs = map<nat, nat>

  /** slp_alive: a zero stamp proves nothing, any other must match. */
  predicate Alive(procs: Procs, pid: nat, start: nat) {
    pid != 0 && pid in procs && (start == 0 || procs[pid] == start)
  }

  /** C's conversion to unsigned char. */
  function Byte(v: int): byte {
    v % 256
  }

  function KeyOf(r: Row): Key {
    Key(r.node, r.vport, r.proto)
  }

  function HolderOf(r: Row): Holder {
    Holder(r.pid, r.start, r.real_port, r.reuse)
  }

  // ---- the abstract ledger --------------------------------------------------

  /** Used rows have distinct keys. */
  ghost predicate Distinct(rows: seq<Row>) {
    forall i, j | 0 <= i < j < |rows| && rows[i].used && rows[j].used :: KeyOf(rows[i]) != KeyOf(rows[j])
  }

  /** The map of claims a table stands for. */
  ghost function Claims(rows: seq<Row>): map<Key, Holder>
    requires Distinct(rows)
  {
    map i | 0 <= i < |rows| && rows[i].used :: KeyOf(rows[i]) := HolderOf(rows[i])
  }

  lemma ClaimsAt(rows: seq<Row>, k: Key)
    requires Distinct(rows)
    ensures k in Claims(rows) <==> exists i :: 0 <= i < |rows| && rows[i].used && KeyOf(rows[i]) == k
    ensures forall i | 0 <= i < |rows| && rows[i].used && KeyOf(rows[i]) == k :: Claims(rows)[k] == HolderOf(rows[i])
  {
  }

  ghost predicate LiveHolder(m: map<Key, Holder>, procs: Procs, k: Key) {
    k in m && Alive(procs, m[k].pid, m[k].start)
  }

  /** Some row is free, or held by a dead process. */
  ghost predicate RoomFor(rows: seq<Row>, procs: Procs) {
    exists i :: 0 <= i < |rows| && (!rows[i].used || !Alive(procs, rows[i].pid, rows[i].start))
  }

  /** A live process holds this key in some row, one that passes the test. */
  ghost predicate HeldLive(rows: seq<Row>, procs: Procs, k: Key, shares: bool) {
    exists i :: 0 <= i < |rows| && rows[i].used && KeyOf(rows[i]) == k && Alive(procs, rows[i].pid, rows[i].start)
                && (shares ==> rows[i].reuse != 0)
  }

  ghost predicate NobodyHas(rows: seq<Row>, k: Key) {
    forall i | 0 <= i < |rows| && rows[i].used :: KeyOf(rows[i]) != k
  }

  /** What the rule answers, told by the rows. */
  lemma RuleOnRows(rows: seq<Row>, procs: Procs, k: Key, proto: int, reuse: int)
    requires Distinct(rows)
    ensures var rc := ClaimRule(Claims(rows), procs, k, proto, reuse, RoomFor(rows, procs));
            && (rc == 0 <==> !HeldLive(rows, procs, k, false) && RoomFor(rows, procs))
            && (rc == -2 <==> NobodyHas(rows, k) && !RoomFor(rows, procs))
            && (rc == 1 <==> proto == 2 && reuse != 0 && HeldLive(rows, procs, k, true))
            && rc in {0, 1, -1, -2}
  {
    ClaimsAt(rows, k);
    if i :| 0 <= i < |rows| && rows[i].used && KeyOf(rows[i]) == k {
      assert Claims(rows)[k] == HolderOf(rows[i]);
      assert HeldLive(rows, procs, k, false) <==> Alive(procs, rows[i].pid, rows[i].start);
      assert HeldLive(rows, procs, k, true) <==> Alive(procs, rows[i].pid, rows[i].start) && rows[i].reuse != 0;
    }
  }

  /** The claim rule, on the map alone (hasRoom is the table's one extra fact). */
  ghost function ClaimRule(m: map<Key, Holder>, procs: Procs, k: Key, proto: int, reuse: int, hasRoom: bool): int {
    if LiveHolder(m, procs, k) then
      if proto == SOCK_DGRAM && m[k].reuse != 0 && reuse != 0 then 1 else -1
    else if hasRoom then 0
    else -2
  }

  /** The map after a granted claim: the new holder, and perhaps one dead claim reaped. */
  ghost predicate Granted(before: map<Key, Holder>, after: map<Key, Holder>, procs: Procs, k: Key, h: Holder) {
    && k in after && after[k] == h
    && (forall x | x in after && x != k :: x in before && before[x] == after[x])
    && (forall x | x in before && x != k && x !in after :: !Alive(procs, before[x].pid, before[x].start))
    && (forall x, y | x in before && y in before && x != k && y != k && x !in after && y !in after :: x == y)
  }

  class Registry {
    const e: array<Row>
    var gen: nat

    ghost predicate Valid()
      reads this, e
    {
      e.Length == SLP_MAX && Distinct(e[..])
    }

    constructor ()
      ensures Valid() && fresh(e) && e.Length == 192
      ensures Claims(e[..]) == map[]
    {
      e := new Row[SLP_MAX](_ => Row(false, 0, 0, 0, 0, 0, 0, 0));
      gen := 0;
    }

    /** slp_claim, by process pid of `node`, once the table is attached. */
    method Claim(procs: Procs, node: nat, pid: nat, vport: int, proto: int, reuse: int, realPort: int) returns (rc: int)
      requires Valid() && pid in procs
      modifies this`gen, e
      ensures Valid()
      // granted: no live process holds the key, and some row is free or a dead process's
      ensures rc == 0 <==> !HeldLive(old(e[..]), procs, Key(node, vport, Byte(proto)), false) && old(RoomFor(e[..], procs))
      // no place: nobody has the key, and live processes hold every row
      ensures rc == -2 <==> NobodyHas(old(e[..]), Key(node, vport, Byte(proto))) && !old(RoomFor(e[..], procs))
      // shared: a live process holds the key, and both sockets are datagram sockets that reuse
      ensures rc == 1 <==> proto == 2 && reuse != 0 && HeldLive(old(e[..]), procs, Key(node, vport, Byte(proto)), true)
      ensures rc in {0, 1, -1, -2}
      ensures rc == ClaimRule(old(Claims(e[..])), procs, Key(node, vport, Byte(proto)), proto, reuse, old(RoomFor(e[..], procs)))
      ensures rc == 0 ==>
                Granted(old(Claims(e[..])), Claims(e[..]), procs, Key(node, vport, Byte(proto)),
                        Holder(pid, procs[pid], realPort, Byte(reuse)))
      ensures rc != 0 ==> e[..] == old(e[..])
    {
      ghost var rows := e[..];
      ghost var k := Key(node, vport, Byte(proto));
      RuleOnRows(rows, procs, k, proto, reuse);
      rc := -2;
      var found := Find(node, vport, proto);
      ClaimsAt(rows, k);
      if found >= 0 {
        var x := e[found];
        assert rows[found] == x;
        if !Alive(procs, x.pid, x.start) { // stale claim: take over
          e[found] := x.(pid := pid, real_port := realPort, start := procs[pid], reuse := Byte(reuse));
          rc := 0;
          RowReplaced(rows, found, e[found], procs);
        } else if proto == SOCK_DGRAM && x.reuse != 0 && reuse != 0 {
          rc := 1;
        } else {
          rc := -1;
        }
      } else {
        var slot := FreeSlot(procs);
        if slot >= 0 {
          e[slot] := Row(true, pid, node, procs[pid], vport, realPort, Byte(proto), Byte(reuse));
          gen := gen + 1;
          rc := 0;
          assert e[..] == rows[slot := e[slot]];
          RowReplaced(rows, slot, e[slot], procs);
        }
      }
    }

    /** The first row of this key, or -1. */
    method Find(node: nat, vport: int, proto: int) returns (found: int)
      ensures -1 <= found < e.Length
      ensures found >= 0 ==> e[found].used && KeyOf(e[found]) == Key(node, vport, Byte(proto))
      ensures found < 0 ==> forall i | 0 <= i < e.Length && e[i].used :: KeyOf(e[i]) != Key(node, vport, Byte(proto))
    {
      found := -1;
      for i := 0 to e.Length
        invariant found == -1
        invariant forall j | 0 <= j < i && e[j].used :: KeyOf(e[j]) != Key(node, vport, Byte(proto))
      {
        if e[i].used && e[i].node == node && e[i].vport == vport && e[i].proto == Byte(proto) {
          found := i;
          return;
        }
      }
    }

    /** The first free row, else the first dead one, else -1. */
    method FreeSlot(procs: Procs) returns (slot: int)
      ensures -1 <= slot < e.Length
      ensures slot >= 0 ==> !e[slot].used || !Alive(procs, e[slot].pid, e[slot].start)
      ensures slot < 0 ==> forall i | 0 <= i < e.Length :: e[i].used && Alive(procs, e[i].pid, e[i].start)
      ensures slot >= 0 && e[slot].used ==> forall i | 0 <= i < e.Length :: e[i].used
    {
      slot := -1;
      var reap := -1;
      for i := 0 to e.Length
        invariant slot == -1 && -1 <= reap < i
        invariant reap >= 0 ==> e[reap].used && !Alive(procs, e[reap].pid, e[reap].start)
        invariant forall j | 0 <= j < i :: e[j].used
        invariant reap < 0 ==> forall j | 0 <= j < i :: Alive(procs, e[j].pid, e[j].start)
      {
        if !e[i].used {
          slot := i;
          return;
        }
        if reap < 0 && !Alive(procs, e[i].pid, e[i].start) {
          reap := i;
        }
      }
      slot := reap;
    }

    /** slp_release: every row of this key held by this pid goes. */
    method Release(node: nat, pid: nat, vport: int, proto: int)
      requires Valid()
      modifies this`gen, e
      ensures Valid()
      ensures var k := Key(node, vport, Byte(proto));
              var m := old(Claims(e[..]));
              Claims(e[..]) == if k in m && m[k].pid == pid then m - {k} else m
    {
      ghost var rows := e[..];
      ghost var k := Key(node, vport, Byte(proto));
      for i := 0 to e.Length
        invariant forall j | i <= j < e.Length :: e[j] == rows[j]
        invariant forall j | 0 <= j < i :: e[j] == if Matches(rows[j], k, pid) then rows[j].(used := false) else rows[j]
      {
        if e[i].used && e[i].node == node && e[i].vport == vport && e[i].proto == Byte(proto) && e[i].pid == pid {
          e[i] := e[i].(used := false);
          gen := gen + 1;
        }
      }
      ReleasedDistinct(rows, e[..], k, pid);
      ReleasedClaims(rows, e[..], k, pid);
    }

    /** slp_taken: is the port claimed by this node, whatever the protocol? */
    method Taken(node: nat, vport: int) returns (t: bool)
      requires Valid()
      ensures t <==> exists k :: k in Claims(e[..]) && k.node == node && k.vport == vport
    {
      t := false;
      for i := 0 to e.Length
        invariant !t
        invariant forall j | 0 <= j < i && e[j].used :: !(e[j].node == node && e[j].vport == vport)
      {
        if e[i].used && e[i].node == node && e[i].vport == vport {
          t := true;
          assert KeyOf(e[..][i]) in Claims(e[..]);
          return;
        }
      }
    }

    /** slp_used: one used row per claim, so the count is the map's size. */
    method Used() returns (n: nat)
      requires Valid()
      ensures n == |Claims(e[..])|
    {
      n := 0;
      for i := 0 to e.Length
        invariant n == CountUsed(e[..i])
      {
        assert e[..i + 1][..i] == e[..i];
        if e[i].used {
          n := n + 1;
        }
      }
      assert e[..e.Length] == e[..];
      UsedAreClaims(e[..]);
    }
  }

  function CountUsed(rows: seq<Row>): nat {
    if rows == [] then 0 else CountUsed(rows[..|rows| - 1]) + if rows[|rows| - 1].used then 1 else 0
  }

  lemma {:induction false} UsedAreClaims(rows: seq<Row>)
    requires Distinct(rows)
    ensures CountUsed(rows) == |Claims(rows)|
  {
    if rows != [] {
      var n := |rows| - 1;
      assert rows == rows[..n] + [rows[n]];
      OneMore(rows[..n], rows[n]);
      UsedAreClaims(rows[..n]);
    }
  }

  ghost predicate Matches(r: Row, k: Key, pid: nat) {
    r.used && KeyOf(r) == k && r.pid == pid
  }

  /** Overwriting row i by a used row of a key nobody else has is a granted claim. */
  lemma RowReplaced(rows: seq<Row>, i: nat, r: Row, procs: Procs)
    requires Distinct(rows) && i < |rows| && r.used
    requires forall j | 0 <= j < |rows| && j != i && rows[j].used :: KeyOf(rows[j]) != KeyOf(r)
    requires rows[i].used ==> !Alive(procs, rows[i].pid, rows[i].start)
    ensures Distinct(rows[i := r])
    ensures Granted(Claims(rows), Claims(rows[i := r]), procs, KeyOf(r), HolderOf(r))
  {
    var rows' := rows[i := r];
    assert Distinct(rows') by {
      forall a, b | 0 <= a < b < |rows'| && rows'[a].used && rows'[b].used
        ensures KeyOf(rows'[a]) != KeyOf(rows'[b])
      {
        if a != i && b != i {
          assert KeyOf(rows[a]) != KeyOf(rows[b]);
        }
      }
    }
    var before, after := Claims(rows), Claims(rows');
    assert rows'[i] == r;
    assert KeyOf(rows'[i]) in after;
    forall x | x in after && x != KeyOf(r)
      ensures x in before && before[x] == after[x]
    {
      var j := RowOf(rows', x);
      EntryAt(rows, j);
    }
    forall x | x in before && x != KeyOf(r)
      ensures x in after || (rows[i].used && x == KeyOf(rows[i]) && before[x] == HolderOf(rows[i]))
    {
      var j := RowOf(rows, x);
      if j != i { EntryAt(rows', j); }
    }
  }

  ghost predicate Released(rows: seq<Row>, rows': seq<Row>, k: Key, pid: nat) {
    && |rows'| == |rows|
    && forall j | 0 <= j < |rows| :: rows'[j] == if Matches(rows[j], k, pid) then rows[j].(used := false) else rows[j]
  }

  lemma ReleasedDistinct(rows: seq<Row>, rows': seq<Row>, k: Key, pid: nat)
    requires Distinct(rows) && Released(rows, rows', k, pid)
    ensures Distinct(rows')
  {
    forall a, b | 0 <= a < b < |rows'| && rows'[a].used && rows'[b].used
      ensures KeyOf(rows'[a]) != KeyOf(rows'[b])
    {
      assert KeyOf(rows[a]) != KeyOf(rows[b]);
    }
  }

  lemma EntryAt(rows: seq<Row>, j: nat)
    requires Distinct(rows) && j < |rows| && rows[j].used
    ensures KeyOf(rows[j]) in Claims(rows) && Claims(rows)[KeyOf(rows[j])] == HolderOf(rows[j])
  {
  }

  lemma RowOf(rows: seq<Row>, x: Key) returns (j: nat)
    requires Distinct(rows) && x in Claims(rows)
    ensures j < |rows| && rows[j].used && KeyOf(rows[j]) == x && Claims(rows)[x] == HolderOf(rows[j])
  {
    j :| 0 <= j < |rows| && rows[j].used && KeyOf(rows[j]) == x;
  }

  lemma ReleasedClaims(rows: seq<Row>, rows': seq<Row>, k: Key, pid: nat)
    requires Distinct(rows) && Distinct(rows') && Released(rows, rows', k, pid)
    ensures var m := Claims(rows); Claims(rows') == if k in m && m[k].pid == pid then m - {k} else m
  {
    var m, m' := Claims(rows), Claims(rows');
    forall x
      ensures x in m' <==> x in m && !(x == k && m[x].pid == pid)
      ensures x in m' ==> m'[x] == m[x]
    {
      if x in m' { OnlyKept(rows, rows', k, pid, x); }
      if x in m && !(x == k && m[x].pid == pid) { KeptAfterRelease(rows, rows', k, pid, x); }
    }
    Dropped(m, m', k, pid);
  }

  /** A map that lost at most its entry k, and that only if it is the pid's. */
  lemma Dropped(m: map<Key, Holder>, m': map<Key, Holder>, k: Key, pid: nat)
    requires forall x :: x in m' <==> x in m && !(x == k && m[x].pid == pid)
    requires forall x | x in m' :: m'[x] == m[x]
    ensures m' == if k in m && m[k].pid == pid then m - {k} else m
  {
    assert m'.Keys == (if k in m && m[k].pid == pid then m - {k} else m).Keys;
  }

  lemma OnlyKept(rows: seq<Row>, rows': seq<Row>, k: Key, pid: nat, x: Key)
    requires Distinct(rows) && Distinct(rows') && Released(rows, rows', k, pid)
    requires x in Claims(rows')
    ensures x in Claims(rows) && !(x == k && Claims(rows)[x].pid == pid)
  {
    var j := RowOf(rows', x);
    EntryAt(rows, j);
  }

  lemma KeptAfterRelease(rows: seq<Row>, rows': seq<Row>, k: Key, pid: nat, x: Key)
    requires Distinct(rows) && Distinct(rows') && Released(rows, rows', k, pid)
    requires x in Claims(rows) && !(x == k && Claims(rows)[x].pid == pid)
    ensures x in Claims(rows') && Claims(rows')[x] == Claims(rows)[x]
  {
    var j := RowOf(rows, x);
    EntryAt(rows', j);
  }

  lemma OneMore(rows: seq<Row>, r: Row)
    requires Distinct(rows + [r])
    ensures Distinct(rows)
    ensures |Claims(rows + [r])| == |Claims(rows)| + if r.used then 1 else 0
  {
    var all := rows + [r];
    assert forall i | 0 <= i < |rows| :: all[i] == rows[i];
    assert Distinct(rows);
    OneMoreKey(rows, r);
    Sizes(Claims(rows), Claims(all), r.used, KeyOf(r));
  }

  /** Map sizes from the keys. */
  lemma Sizes(m: map<Key, Holder>, m': map<Key, Holder>, more: bool, k: Key)
    requires forall x :: x in m' <==> x in m || (more && x == k)
    requires more ==> k !in m
    ensures |m'| == |m| + if more then 1 else 0
  {
    assert m'.Keys == m.Keys + if more then {k} else {};
  }

  lemma OneMoreKey(rows: seq<Row>, r: Row)
    requires Distinct(rows + [r]) && Distinct(rows)
    ensures forall k :: k in Claims(rows + [r]) <==> k in Claims(rows) || (r.used && k == KeyOf(r))
    ensures r.used ==> KeyOf(r) !in Claims(rows)
  {
    var all := rows + [r];
    assert all[|rows|] == r;
    forall k ensures k in Claims(all) <==> k in Claims(rows) || (r.used && k == KeyOf(r)) {
      if k in Claims(all) {
        var j := RowOf(all, k);
        if j < |rows| { EntryAt(rows, j); }
      }
      if k in Claims(rows) {
        var j := RowOf(rows, k);
        assert all[j] == rows[j];
        EntryAt(all, j);
      }
      if r.used { EntryAt(all, |rows|); }
    }
    assert forall j | 0 <= j < |rows| && rows[j].used && r.used :: all[j] == rows[j] && KeyOf(all[j]) != KeyOf(all[|rows|]);
    ClaimsAt(rows, KeyOf(r));
  }

  // ---- every run of processes against one ledger ------------------------------

  /** The claims, the processes running, and who was granted what and has not let go. */
  datatype Sys = Sys(m: map<Key, Holder>, procs: Procs, held: set<(nat, Key)>)

  ghost predicate ClaimStep(s: Sys, s': Sys, pid: nat, k: Key, proto: int, reuse: int, realPort: int, hasRoom: bool) {
    && pid in s.procs
    && s'.procs == s.procs
    && k.proto == Byte(proto)
    && ((exists x :: x in s.m && !Alive(s.procs, s.m[x].pid, s.m[x].start)) ==> hasRoom) // a dead claim's row is room
    && var rc := ClaimRule(s.m, s.procs, k, proto, reuse, hasRoom);
       if rc == 0 then
         && Granted(s.m, s'.m, s.procs, k, Holder(pid, s.procs[pid], realPort, Byte(reuse)))
         && s'.held == s.held + {(pid, k)}
       else s'.m == s.m && s'.held == s.held
  }

  ghost predicate ReleaseStep(s: Sys, s': Sys, pid: nat, k: Key) {
    && pid in s.procs
    && s' == s.(m := if k in s.m && s.m[k].pid == pid then s.m - {k} else s.m, held := s.held - {(pid, k)})
  }

  ghost predicate StartStep(s: Sys, s': Sys, pid: nat, start: nat) {
    pid != 0 && pid !in s.procs && s' == s.(procs := s.procs[pid := start])
  }

  /** A process dies; its claims stay in the table. */
  ghost predicate ExitStep(s: Sys, s': Sys, pid: nat) {
    pid in s.procs && s' == s.(procs := s.procs - {pid}, held := set h | h in s.held && h.0 != pid)
  }

  ghost predicate Next(s: Sys, s': Sys) {
    || (exists pid, k, proto, reuse, realPort, hasRoom :: ClaimStep(s, s', pid, k, proto, reuse, realPort, hasRoom))
    || (exists pid, k :: ReleaseStep(s, s', pid, k))
    || (exists pid, start :: StartStep(s, s', pid, start))
    || (exists pid :: ExitStep(s, s', pid))
  }

  ghost predicate Run(states: seq<Sys>) {
    && states != [] && states[0] == Sys(map[], map[], {})
    && forall i | 0 <= i < |states| - 1 :: Next(states[i], states[i + 1])
  }

  /** Whoever was granted a claim and has neither released it nor died is its recorded holder. */
  ghost predicate SysInv(s: Sys) {
    && 0 !in s.procs
    && forall h | h in s.held ::
         h.0 in s.procs && h.1 in s.m && s.m[h.1].pid == h.0 && s.m[h.1].start == s.procs[h.0]
  }

  lemma ClaimKeepsHeld(s: Sys, s': Sys, pid: nat, k: Key, proto: int, reuse: int, realPort: int, hasRoom: bool)
    requires SysInv(s) && ClaimStep(s, s', pid, k, proto, reuse, realPort, hasRoom)
    ensures SysInv(s')
  {
    forall h | h in s'.held
      ensures h.0 in s'.procs && h.1 in s'.m && s'.m[h.1].pid == h.0 && s'.m[h.1].start == s'.procs[h.0]
    {
      if h in s.held {
        assert Alive(s.procs, s.m[h.1].pid, s.m[h.1].start);
      }
    }
  }

  lemma NextKeepsHeld(s: Sys, s': Sys)
    requires SysInv(s) && Next(s, s')
    ensures SysInv(s')
  {
    if pid, k, proto, reuse, realPort, hasRoom :| ClaimStep(s, s', pid, k, proto, reuse, realPort, hasRoom) {
      ClaimKeepsHeld(s, s', pid, k, proto, reuse, realPort, hasRoom);
    }
  }

  /** In every run, whatever processes die and whatever pids are reused: a
      granted claim stays its holder's until released, so no two live
      processes ever hold the same port of one node. */
  lemma {:induction false} ClaimsNeverOverlap(states: seq<Sys>, i: nat)
    requires Run(states) && i < |states|
    ensures SysInv(states[i])
    ensures forall p, q, k | (p, k) in states[i].held && (q, k) in states[i].held :: p == q
  {
    if i > 0 {
      ClaimsNeverOverlap(states, i - 1);
      NextKeepsHeld(states[i - 1], states[i]);
    }
  }

  /** A claim on a port held by a live process is never granted, to anyone. */
  lemma HeldIsRefused(s: Sys, holder: nat, k: Key, proto: int, reuse: int, hasRoom: bool)
    requires SysInv(s) && (holder, k) in s.held
    ensures ClaimRule(s.m, s.procs, k, proto, reuse, hasRoom) == 1 || ClaimRule(s.m, s.procs, k, proto, reuse, hasRoom) == -1
    ensures ClaimRule(s.m, s.procs, k, proto, reuse, hasRoom) == 1 <==>
              proto == SOCK_DGRAM && s.m[k].reuse != 0 && reuse != 0
  {
    assert Alive(s.procs, s.m[k].pid, s.m[k].start);
  }

  /** A claim of a key whose holder is not running is granted, whoever makes it. */
  lemma DeadIsGranted(s: Sys, s': Sys, pid: nat, k: Key, proto: int, reuse: int, realPort: int, hasRoom: bool)
    requires ClaimStep(s, s', pid, k, proto, reuse, realPort, hasRoom)
    requires k in s.m && !Alive(s.procs, s.m[k].pid, s.m[k].start)
    ensures (pid, k) in s'.held && k in s'.m && s'.m[k] == Holder(pid, s.procs[pid], realPort, Byte(reuse))
  {
  }

  /** A pid that runs again is not the process that claimed: with both start stamps known
      and different, the port is granted to the next claimer. */
  lemma ReusedPidFreesPort(s: Sys, s': Sys, pid: nat, k: Key, proto: int, reuse: int, realPort: int, hasRoom: bool)
    requires ClaimStep(s, s', pid, k, proto, reuse, realPort, hasRoom)
    requires k in s.m && s.m[k].pid in s.procs && s.m[k].start != 0 && s.m[k].start != s.procs[s.m[k].pid]
    ensures (pid, k) in s'.held && k in s'.m && s'.m[k].pid == pid
  {
    DeadIsGranted(s, s', pid, k, proto, reuse, realPort, hasRoom);
  }

  /** A process that dies holding a port leaves it to the next claimer, and a running
      one keeps it from every other. */
  lemma DeathFreesPort(s: Sys, dead: Sys, after: Sys, holder: nat, pid: nat, k: Key, proto: int, reuse: int, realPort: int, hasRoom: bool)
    requires SysInv(s) && (holder, k) in s.held && ExitStep(s, dead, holder)
    requires ClaimStep(dead, after, pid, k, proto, reuse, realPort, hasRoom)
    ensures (pid, k) in after.held && (holder, k) !in after.held && k in after.m && after.m[k].pid == pid
  {
    DeadIsGranted(dead, after, pid, k, proto, reuse, realPort, hasRoom);
  }
}
