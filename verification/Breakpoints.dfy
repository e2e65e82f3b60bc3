/** The breakpoint chain and the break instructions it puts into the inferior's memory. */
module Breakpoints {
  import opened Common

  type Addr = int
  type Memory = map<Addr, Byte>

  datatype Enable = Disabled | Enabled | Temporary | Delete

  datatype Breakpoint = Breakpoint(
    number: int, address: Addr, enable: Enable, ignoreCount: nat, frame: int, conditional: bool,
    shadow: seq<Byte>, inserted: bool, duplicate: bool)

  type Chain = seq<Breakpoint>

  // ---------------------------------------------------------------------------
  // Inferior memory

  predicate Mapped(m: Memory, a: Addr, n: nat) {
    forall x :: a <= x < a + n ==> x in m
  }

  function Bytes(m: Memory, a: Addr, n: nat): (r: seq<Byte>)
    requires Mapped(m, a, n)
    ensures |r| == n
  {
    seq(n, k requires 0 <= k < n => m[a + k])
  }

  function Write(m: Memory, a: Addr, bytes: seq<Byte>): (r: Memory)
    requires Mapped(m, a, |bytes|)
    ensures r.Keys == m.Keys
    ensures forall x :: x in m ==> r[x] == if a <= x < a + |bytes| then bytes[x - a] else m[x]
  {
    map x | x in m :: if a <= x < a + |bytes| then bytes[x - a] else m[x]
  }

  predicate Covers(n: nat, s: Addr, a: Addr) { s <= a < s + n }

  /** No two of the sites are closer than a break instruction is long. */
  predicate Apart(n: nat, sites: set<Addr>) {
    forall s, t :: s in sites && t in sites && s != t ==> s + n <= t || t + n <= s
  }

  /** `m` is the program's memory with a break instruction at each of the sites and nowhere else. */
  ghost predicate Planted(brk: seq<Byte>, prog: Memory, m: Memory, sites: set<Addr>) {
    && m.Keys == prog.Keys
    && (forall s, a :: s in sites && Covers(|brk|, s, a) ==> a in m && m[a] == brk[a - s])
    && (forall a :: a in m && (forall s :: s in sites ==> !Covers(|brk|, s, a)) ==> m[a] == prog[a])
  }

  lemma {:induction false} PlantedNowhere(brk: seq<Byte>, prog: Memory, m: Memory)
    requires Planted(brk, prog, m, {})
    ensures m == prog
  {
    assert forall a :: a in m ==> m[a] == prog[a];
  }

  lemma {:induction false} PlantOne(brk: seq<Byte>, prog: Memory, m: Memory, sites: set<Addr>, s: Addr)
    requires Planted(brk, prog, m, sites) && s !in sites && Apart(|brk|, sites + {s}) && Mapped(prog, s, |brk|)
    ensures Mapped(m, s, |brk|)
    ensures Bytes(m, s, |brk|) == Bytes(prog, s, |brk|)
    ensures Planted(brk, prog, Write(m, s, brk), sites + {s})
  {
    forall a | s <= a < s + |brk| ensures a in m && m[a] == prog[a] {
      forall t | t in sites ensures !Covers(|brk|, t, a) { assert t in sites + {s} && s in sites + {s}; }
    }
    var w := Write(m, s, brk);
    forall t, a | t in sites + {s} && Covers(|brk|, t, a) ensures a in w && w[a] == brk[a - t] {
      if t != s { assert s in sites + {s}; }
    }
    forall a | a in w && forall t :: t in sites + {s} ==> !Covers(|brk|, t, a) ensures w[a] == prog[a] {
      assert !Covers(|brk|, s, a);
      forall t | t in sites ensures !Covers(|brk|, t, a) { assert t in sites + {s}; }
    }
  }

  /** Writing back the program's own bytes. */
  lemma {:induction false} WriteBack(prog: Memory, m: Memory, s: Addr, n: nat, a: Addr)
    requires m.Keys == prog.Keys && Mapped(prog, s, n) && a in m
    ensures Write(m, s, Bytes(prog, s, n))[a] == if Covers(n, s, a) then prog[a] else m[a]
  {
    if Covers(n, s, a) {
      assert Bytes(prog, s, n)[a - s] == prog[s + (a - s)];
    }
  }

  lemma {:induction false} UnplantOne(brk: seq<Byte>, prog: Memory, m: Memory, sites: set<Addr>, s: Addr)
    requires Planted(brk, prog, m, sites) && s in sites && Apart(|brk|, sites) && Mapped(prog, s, |brk|)
    ensures Mapped(m, s, |brk|)
    ensures Planted(brk, prog, Write(m, s, Bytes(prog, s, |brk|)), sites - {s})
  {
    var w := Write(m, s, Bytes(prog, s, |brk|));
    forall t, a | t in sites - {s} && Covers(|brk|, t, a) ensures a in w && w[a] == brk[a - t] {
      WriteBack(prog, m, s, |brk|, a);
    }
    forall a | a in w && forall t :: t in sites - {s} ==> !Covers(|brk|, t, a) ensures w[a] == prog[a] {
      WriteBack(prog, m, s, |brk|, a);
      if !Covers(|brk|, s, a) {
        forall t | t in sites ensures !Covers(|brk|, t, a) {
          if t != s { assert t in sites - {s}; }
        }
      }
    }
  }

  // ---------------------------------------------------------------------------
  // insert_breakpoints and remove_breakpoints

  /** The chain and the memory after some breakpoints were inserted or removed, and whether all went well. */
  datatype Planting = Planting(chain: Chain, mem: Memory, ok: bool)

  predicate WantsIn(b: Breakpoint) { b.enable != Disabled && !b.inserted && !b.duplicate }

  function InsertFrom(brk: seq<Byte>, c: Chain, m: Memory, i: nat): (r: Planting)
    requires i <= |c|
    ensures |r.chain| == |c|
    decreases |c| - i
  {
    if i == |c| then Planting(c, m, true)
    else if !WantsIn(c[i]) then InsertFrom(brk, c, m, i + 1)
    else if !Mapped(m, c[i].address, |brk|) then Planting(c, m, false)
    else
      InsertFrom(brk, c[i := c[i].(shadow := Bytes(m, c[i].address, |brk|), inserted := true)],
                 Write(m, c[i].address, brk), i + 1)
  }

  function RemoveFrom(c: Chain, m: Memory, i: nat): (r: Planting)
    requires i <= |c|
    ensures |r.chain| == |c|
    decreases |c| - i
  {
    if i == |c| then Planting(c, m, true)
    else if !c[i].inserted then RemoveFrom(c, m, i + 1)
    else if !Mapped(m, c[i].address, |c[i].shadow|) then Planting(c, m, false)
    else RemoveFrom(c[i := c[i].(inserted := false)], Write(m, c[i].address, c[i].shadow), i + 1)
  }

  /** The breakpoint is in memory, or insert_breakpoints would put it there. */
  predicate Live(b: Breakpoint) { b.inserted || WantsIn(b) }

  predicate OneLivePerAddress(c: Chain) {
    forall i, j :: 0 <= i < j < |c| && Live(c[i]) && Live(c[j]) ==> c[i].address != c[j].address
  }

  predicate ShadowsTrue(brk: seq<Byte>, prog: Memory, c: Chain) {
    forall i :: 0 <= i < |c| && c[i].inserted ==>
      Mapped(prog, c[i].address, |brk|) && c[i].shadow == Bytes(prog, c[i].address, |brk|)
  }

  function Sites(c: Chain): (r: set<Addr>) {
    set i | 0 <= i < |c| && c[i].inserted :: c[i].address
  }

  /** All breakpoints are at instruction addresses of the program. */
  predicate InCode(code: set<Addr>, c: Chain) {
    forall i :: 0 <= i < |c| ==> c[i].address in code
  }

  predicate CodeOk(brk: seq<Byte>, prog: Memory, code: set<Addr>) {
    Apart(|brk|, code) && forall a :: a in code ==> Mapped(prog, a, |brk|)
  }

  /** Memory holds a break instruction at the inserted breakpoints and at the sites `extra`, which no
      live breakpoint shares; shadows hold the program's own bytes. */
  ghost predicate Consistent(brk: seq<Byte>, prog: Memory, code: set<Addr>, c: Chain, m: Memory, extra: set<Addr>) {
    && CodeOk(brk, prog, code) && InCode(code, c) && extra <= code
    && OneLivePerAddress(c) && ShadowsTrue(brk, prog, c)
    && (forall i :: 0 <= i < |c| && Live(c[i]) ==> c[i].address !in extra)
    && Planted(brk, prog, m, Sites(c) + extra)
  }

  /** Two chains that differ only in what is in memory. */
  predicate SameButInserted(c: Chain, d: Chain) {
    |c| == |d| && forall i :: 0 <= i < |c| ==> d[i] == c[i].(shadow := d[i].shadow, inserted := d[i].inserted)
  }

  predicate AllIn(c: Chain) {
    forall i :: 0 <= i < |c| ==> !WantsIn(c[i])
  }

  predicate NoneIn(c: Chain) {
    forall i :: 0 <= i < |c| ==> !c[i].inserted
  }

  lemma {:induction false} InsertOne(brk: seq<Byte>, prog: Memory, code: set<Addr>, c: Chain, m: Memory,
                                     extra: set<Addr>, i: nat)
    requires Consistent(brk, prog, code, c, m, extra) && i < |c| && WantsIn(c[i])
    ensures Mapped(m, c[i].address, |brk|)
    ensures var d := c[i := c[i].(shadow := Bytes(m, c[i].address, |brk|), inserted := true)];
            Consistent(brk, prog, code, d, Write(m, c[i].address, brk), extra)
  {
    var a := c[i].address;
    var sites := Sites(c) + extra;
    assert a !in sites by {
      forall j | 0 <= j < |c| && c[j].inserted ensures c[j].address != a { assert Live(c[j]) && Live(c[i]); }
    }
    assert sites + {a} <= code;
    PlantOne(brk, prog, m, sites, a);
    var d := c[i := c[i].(shadow := Bytes(m, a, |brk|), inserted := true)];
    assert Sites(d) + extra == sites + {a} by {
      forall s | s in sites + {a} ensures s in Sites(d) + extra {
        if s == a { assert d[i].inserted; }
        else if s in Sites(c) {
          var j :| 0 <= j < |c| && c[j].inserted && c[j].address == s;
          assert d[j].inserted && d[j].address == s;
        }
      }
    }
    assert forall j :: 0 <= j < |d| ==> Live(d[j]) == Live(c[j]) && d[j].address == c[j].address;
  }

  lemma {:induction false} InsertAllPlants(brk: seq<Byte>, prog: Memory, code: set<Addr>, c: Chain, m: Memory,
                                           extra: set<Addr>, i: nat)
    requires Consistent(brk, prog, code, c, m, extra) && i <= |c|
    requires forall j :: 0 <= j < i ==> !WantsIn(c[j])
    ensures var r := InsertFrom(brk, c, m, i);
            r.ok && Consistent(brk, prog, code, r.chain, r.mem, extra) && AllIn(r.chain) && SameButInserted(c, r.chain)
    decreases |c| - i
  {
    if i < |c| {
      if WantsIn(c[i]) {
        InsertOne(brk, prog, code, c, m, extra, i);
        var d := c[i := c[i].(shadow := Bytes(m, c[i].address, |brk|), inserted := true)];
        InsertAllPlants(brk, prog, code, d, Write(m, c[i].address, brk), extra, i + 1);
      } else {
        InsertAllPlants(brk, prog, code, c, m, extra, i + 1);
      }
    }
  }

  lemma {:induction false} RemoveOne(brk: seq<Byte>, prog: Memory, code: set<Addr>, c: Chain, m: Memory,
                                     extra: set<Addr>, i: nat)
    requires Consistent(brk, prog, code, c, m, extra) && i < |c| && c[i].inserted
    ensures Mapped(m, c[i].address, |c[i].shadow|)
    ensures Consistent(brk, prog, code, c[i := c[i].(inserted := false)], Write(m, c[i].address, c[i].shadow), extra)
  {
    var a := c[i].address;
    var sites := Sites(c) + extra;
    assert Live(c[i]) && a in Sites(c);
    UnplantOne(brk, prog, m, sites, a);
    var d := c[i := c[i].(inserted := false)];
    assert Sites(d) + extra == sites - {a} by {
      forall s | s in sites - {a} ensures s in Sites(d) + extra {
        if s in Sites(c) {
          var j :| 0 <= j < |c| && c[j].inserted && c[j].address == s;
          assert d[j].inserted && d[j].address == s;
        }
      }
      forall j | 0 <= j < |d| && d[j].inserted ensures d[j].address != a { assert Live(c[j]) && Live(c[i]); }
    }
    assert forall j :: 0 <= j < |d| ==> (Live(d[j]) ==> Live(c[j])) && d[j].address == c[j].address;
  }

  lemma {:induction false} RemoveAllRestores(brk: seq<Byte>, prog: Memory, code: set<Addr>, c: Chain, m: Memory,
                                             extra: set<Addr>, i: nat)
    requires Consistent(brk, prog, code, c, m, extra) && i <= |c|
    requires forall j :: 0 <= j < i ==> !c[j].inserted
    ensures var r := RemoveFrom(c, m, i);
            r.ok && Consistent(brk, prog, code, r.chain, r.mem, extra) && NoneIn(r.chain) && SameButInserted(c, r.chain)
    decreases |c| - i
  {
    if i < |c| {
      if c[i].inserted {
        RemoveOne(brk, prog, code, c, m, extra, i);
        RemoveAllRestores(brk, prog, code, c[i := c[i].(inserted := false)], Write(m, c[i].address, c[i].shadow), extra,
                          i + 1);
      } else {
        RemoveAllRestores(brk, prog, code, c, m, extra, i + 1);
      }
    }
  }

  // ---------------------------------------------------------------------------
  // Editing the chain: the duplicate flags

  predicate On(b: Breakpoint, a: Addr) { b.enable != Disabled && b.address == a }

  /** check_duplicates, from position `i` with `count` enabled breakpoints at `a` seen so far. */
  function MarkFrom(c: Chain, a: Addr, i: nat, count: nat): (r: Chain)
    requires i <= |c|
    ensures |r| == |c|
    decreases |c| - i
  {
    if i == |c| then c
    else if !On(c[i], a) then MarkFrom(c, a, i + 1, count)
    else MarkFrom(c[i := c[i].(duplicate := count + 1 > 1)], a, i + 1, count + 1)
  }

  function CheckDuplicates(c: Chain, a: Addr): (r: Chain) { MarkFrom(c, a, 0, 0) }

  /** An enabled breakpoint at the same address comes before number `i` of the chain. */
  predicate Earlier(c: Chain, i: int)
    requires 0 <= i < |c|
  {
    exists j :: 0 <= j < i && On(c[j], c[i].address)
  }

  /** The enabled breakpoints at `a` are marked as duplicates exactly when they are not the first. */
  predicate MarkedAt(c: Chain, a: Addr) {
    forall i :: 0 <= i < |c| && On(c[i], a) ==> (c[i].duplicate <==> Earlier(c, i))
  }

  ghost predicate Marked(c: Chain) {
    forall a :: MarkedAt(c, a)
  }

  /** At most one enabled breakpoint per address is not a duplicate. */
  predicate OneFirst(c: Chain) {
    forall i, j :: 0 <= i < j < |c| && On(c[i], c[j].address) && c[j].enable != Disabled ==>
      c[i].duplicate || c[j].duplicate
  }

  /** Chains that differ only in the duplicate flags of enabled breakpoints at `a`. */
  predicate SameButMarks(c: Chain, d: Chain, a: Addr) {
    && |c| == |d|
    && forall i :: 0 <= i < |c| ==> d[i] == if On(c[i], a) then c[i].(duplicate := d[i].duplicate) else c[i]
  }

  /** The turn of the loop that marks breakpoint `i`. */
  lemma {:induction false} MarkOne(c: Chain, a: Addr, i: nat, count: nat)
    requires i < |c| && On(c[i], a)
    requires count > 0 <==> exists j :: 0 <= j < i && On(c[j], a)
    requires forall k :: 0 <= k < i && On(c[k], a) ==> (c[k].duplicate <==> Earlier(c, k))
    ensures var d := c[i := c[i].(duplicate := count + 1 > 1)];
            && SameButMarks(c, d, a) && On(d[i], a)
            && forall k :: 0 <= k < i + 1 && On(d[k], a) ==> (d[k].duplicate <==> Earlier(d, k))
  {
    var d := c[i := c[i].(duplicate := count + 1 > 1)];
    forall k | 0 <= k < i + 1 && On(d[k], a) ensures d[k].duplicate <==> Earlier(d, k) {
      EarlierSame(c, d, a, k);
    }
  }

  lemma {:induction false} SameTwice(c: Chain, d: Chain, e: Chain, a: Addr)
    requires SameButMarks(c, d, a) && SameButMarks(d, e, a)
    ensures SameButMarks(c, e, a)
  {
  }

  lemma {:induction false} EarlierSame(c: Chain, d: Chain, a: Addr, k: nat)
    requires SameButMarks(c, d, a) && k < |c| && On(c[k], a)
    ensures Earlier(c, k) <==> Earlier(d, k)
    ensures Earlier(c, k) <==> exists j :: 0 <= j < k && On(c[j], a)
  {
    assert forall j :: 0 <= j < k ==> On(d[j], a) == On(c[j], a);
  }

  lemma {:induction false} MarkFromMarks(c: Chain, a: Addr, i: nat, count: nat)
    requires i <= |c|
    requires count > 0 <==> exists j :: 0 <= j < i && On(c[j], a)
    requires forall k :: 0 <= k < i && On(c[k], a) ==> (c[k].duplicate <==> Earlier(c, k))
    ensures SameButMarks(c, MarkFrom(c, a, i, count), a) && MarkedAt(MarkFrom(c, a, i, count), a)
    decreases |c| - i
  {
    if i < |c| {
      if On(c[i], a) {
        var d := c[i := c[i].(duplicate := count + 1 > 1)];
        MarkOne(c, a, i, count);
        MarkFromMarks(d, a, i + 1, count + 1);
        SameTwice(c, d, MarkFrom(d, a, i + 1, count + 1), a);
      } else {
        MarkFromMarks(c, a, i + 1, count);
      }
    }
  }

  /** Rescanning one address repairs it and leaves every other address as it was. */
  lemma {:induction false} CheckDuplicatesMarks(c: Chain, a: Addr)
    ensures var d := CheckDuplicates(c, a);
            && SameButMarks(c, d, a) && MarkedAt(d, a)
            && forall b :: b != a && MarkedAt(c, b) ==> MarkedAt(d, b)
  {
    MarkFromMarks(c, a, 0, 0);
    var d := CheckDuplicates(c, a);
    forall b | b != a && MarkedAt(c, b) ensures MarkedAt(d, b) {
      forall i | 0 <= i < |d| && On(d[i], b) ensures d[i].duplicate <==> Earlier(d, i) {
        assert d[i] == c[i];
        assert Earlier(c, i) == Earlier(d, i) by {
          assert forall j :: 0 <= j < i ==> On(d[j], b) == On(c[j], b);
        }
      }
    }
  }

  lemma {:induction false} MarkedOneFirst(c: Chain, a: Addr, i: nat, j: nat)
    requires MarkedAt(c, a) && i < j < |c| && On(c[i], a) && On(c[j], a)
    ensures c[j].duplicate
  {
    assert Earlier(c, j);
  }

  /** Rescanning keeps at most one breakpoint per address unmarked. */
  lemma {:induction false} CheckDuplicatesOneFirst(c: Chain, a: Addr)
    requires forall i, j ::
               0 <= i < j < |c| && c[i].address != a && On(c[i], c[j].address) && c[j].enable != Disabled ==>
                 c[i].duplicate || c[j].duplicate
    ensures OneFirst(CheckDuplicates(c, a))
  {
    CheckDuplicatesMarks(c, a);
    var d := CheckDuplicates(c, a);
    forall i, j | 0 <= i < j < |d| && On(d[i], d[j].address) && d[j].enable != Disabled
      ensures d[i].duplicate || d[j].duplicate
    {
      if d[j].address == a {
        MarkedOneFirst(d, a, i, j);
      } else {
        assert d[i] == c[i] && d[j] == c[j];
      }
    }
  }

  /** set_raw_breakpoint: the new breakpoint goes to the end of the chain. */
  function SetRaw(c: Chain, a: Addr): (r: Chain) {
    CheckDuplicates(c + [Breakpoint(0, a, Enabled, 0, 0, false, [], false, false)], a)
  }

  /** enable_breakpoint, disable_breakpoint and their variants. */
  function SetEnable(c: Chain, i: nat, e: Enable): (r: Chain)
    requires i < |c|
  {
    CheckDuplicates(c[i := c[i].(enable := e)], c[i].address)
  }

  /** delete_breakpoint: an inserted breakpoint is first taken out of memory. */
  function DeleteAt(c: Chain, m: Memory, i: nat): (r: (Chain, Memory))
    requires i < |c|
  {
    var b := c[i];
    (CheckDuplicates(c[..i] + c[i + 1..], b.address),
     if b.inserted && Mapped(m, b.address, |b.shadow|) then Write(m, b.address, b.shadow) else m)
  }

  /** What every edit keeps, seen from the breakpoints at address `b`. */
  lemma {:induction false} SetRawMarked(c: Chain, a: Addr)
    ensures Marked(c) ==> Marked(SetRaw(c, a))
    ensures OneFirst(c) ==> OneFirst(SetRaw(c, a))
    ensures NoneIn(c) ==> NoneIn(SetRaw(c, a))
  {
    var d := c + [Breakpoint(0, a, Enabled, 0, 0, false, [], false, false)];
    CheckDuplicatesMarks(d, a);
    if Marked(c) {
      forall b ensures MarkedAt(SetRaw(c, a), b) {
        if b != a {
          assert MarkedAt(c, b);
          forall i | 0 <= i < |d| && On(d[i], b) ensures d[i].duplicate <==> Earlier(d, i) {
            assert d[i] == c[i];
            assert forall j :: 0 <= j < i ==> d[j] == c[j];
            assert Earlier(c, i) <==> Earlier(d, i);
          }
        }
      }
    }
    if OneFirst(c) {
      CheckDuplicatesOneFirst(d, a);
    }
  }

  lemma {:induction false} SetEnableMarked(c: Chain, i: nat, e: Enable)
    requires i < |c|
    ensures Marked(c) ==> Marked(SetEnable(c, i, e))
    ensures OneFirst(c) ==> OneFirst(SetEnable(c, i, e))
    ensures NoneIn(c) ==> NoneIn(SetEnable(c, i, e))
  {
    var a := c[i].address;
    var d := c[i := c[i].(enable := e)];
    CheckDuplicatesMarks(d, a);
    if Marked(c) {
      forall b ensures MarkedAt(SetEnable(c, i, e), b) {
        if b != a {
          assert MarkedAt(c, b);
          forall k | 0 <= k < |d| && On(d[k], b) ensures d[k].duplicate <==> Earlier(d, k) {
            assert forall j :: 0 <= j < |c| ==> On(d[j], b) == On(c[j], b);
            assert d[k] == c[k] && (Earlier(c, k) <==> Earlier(d, k));
          }
        }
      }
    }
    if OneFirst(c) {
      CheckDuplicatesOneFirst(d, a);
    }
  }

  lemma {:induction false} DeleteMarked(c: Chain, m: Memory, i: nat)
    requires i < |c|
    ensures Marked(c) ==> Marked(DeleteAt(c, m, i).0)
    ensures OneFirst(c) ==> OneFirst(DeleteAt(c, m, i).0)
    ensures NoneIn(c) ==> NoneIn(DeleteAt(c, m, i).0) && DeleteAt(c, m, i).1 == m
  {
    var a := c[i].address;
    var d := c[..i] + c[i + 1..];
    CheckDuplicatesMarks(d, a);
    if Marked(c) {
      forall b ensures MarkedAt(DeleteAt(c, m, i).0, b) {
        if b != a {
          assert MarkedAt(c, b);
          forall k | 0 <= k < |d| && On(d[k], b) ensures d[k].duplicate <==> Earlier(d, k) {
            DeleteEarlier(c, i, k);
          }
        }
      }
    }
    if OneFirst(c) {
      CheckDuplicatesOneFirst(d, a);
    }
  }

  lemma {:induction false} DeleteEarlier(c: Chain, i: nat, k: nat)
    requires i < |c| && k < |c| - 1
    requires var d := c[..i] + c[i + 1..]; d[k].address != c[i].address
    ensures var d := c[..i] + c[i + 1..];
            var k' := if k < i then k else k + 1;
            d[k] == c[k'] && (Earlier(d, k) <==> Earlier(c, k'))
  {
    var d := c[..i] + c[i + 1..];
    var k' := if k < i then k else k + 1;
    if Earlier(c, k') {
      var j :| 0 <= j < k' && On(c[j], c[k'].address);
      assert d[if j < i then j else j - 1] == c[j];
    }
    if Earlier(d, k) {
      var j :| 0 <= j < k && On(d[j], d[k].address);
      assert c[if j < i then j else j + 1] == d[j];
    }
  }

  /** Two chains alike in addresses, marks and what is enabled. */
  predicate SameMarks(c: Chain, d: Chain) {
    |c| == |d| && forall i :: 0 <= i < |c| ==>
      && (c[i].enable != Disabled <==> d[i].enable != Disabled)
      && c[i].address == d[i].address && c[i].duplicate == d[i].duplicate
  }

  lemma {:induction false} MarkedSame(c: Chain, d: Chain)
    requires SameMarks(c, d) && Marked(c)
    ensures Marked(d)
  {
    forall a ensures MarkedAt(d, a) {
      assert MarkedAt(c, a);
      forall i | 0 <= i < |d| && On(d[i], a) ensures d[i].duplicate <==> Earlier(d, i) {
        assert On(c[i], a);
        assert forall j :: 0 <= j < i ==> On(c[j], a) == On(d[j], a);
      }
    }
  }

  // ---------------------------------------------------------------------------
  // What the flags are for

  /** Every enabled breakpoint has a break instruction at its address. */
  ghost predicate EnabledIsIn(c: Chain) {
    forall i :: 0 <= i < |c| && c[i].enable != Disabled ==>
      exists j :: 0 <= j < |c| && c[j].inserted && c[j].address == c[i].address
  }

  lemma {:induction false} FirstOn(c: Chain, a: Addr, i: nat) returns (j: nat)
    requires i < |c| && On(c[i], a)
    ensures j <= i && On(c[j], a) && !Earlier(c, j)
    decreases i
  {
    if Earlier(c, i) {
      var k :| 0 <= k < i && On(c[k], c[i].address);
      j := FirstOn(c, a, k);
    } else {
      j := i;
    }
  }

  lemma {:induction false} MarkedCovers(c: Chain)
    requires Marked(c) && AllIn(c)
    ensures EnabledIsIn(c)
  {
    forall i | 0 <= i < |c| && c[i].enable != Disabled
      ensures exists j :: 0 <= j < |c| && c[j].inserted && c[j].address == c[i].address
    {
      assert MarkedAt(c, c[i].address);
      var j := FirstOn(c, c[i].address, i);
      assert !WantsIn(c[j]);
      assert c[j].inserted;
    }
  }

  /** breakpoint_stop_status disables a temporary breakpoint without rescanning the chain.  The flags
      stay right exactly when it was not the unmarked one of several enabled at its address. */
  lemma {:induction false} DisableHitMarked(c: Chain, i: nat)
    requires Marked(c) && i < |c| && c[i].enable != Disabled
    ensures Marked(c[i := c[i].(enable := Disabled)]) <==>
            c[i].duplicate || forall j :: 0 <= j < |c| && j != i ==> !On(c[j], c[i].address)
  {
    var a, d := c[i].address, c[i := c[i].(enable := Disabled)];
    assert MarkedAt(c, a);
    if !c[i].duplicate && exists j :: 0 <= j < |c| && j != i && On(c[j], a) {
      var j :| 0 <= j < |c| && j != i && On(c[j], a);
      assert !Earlier(c, i);
      assert On(d[j], a);
      var k := FirstOn(d, a, j);
      assert Earlier(c, k);
      assert !MarkedAt(d, a);
    } else {
      forall b ensures MarkedAt(d, b) {
        assert MarkedAt(c, b);
        forall k | 0 <= k < |d| && On(d[k], b) ensures d[k].duplicate <==> Earlier(d, k) {
          assert d[k] == c[k];
          if Earlier(c, k) {
            var j := FirstOn(c, b, k);
            MarkedAtFirst(c, b, j);
            assert On(d[j], b);
          }
        }
      }
    }
  }

  lemma {:induction false} MarkedAtFirst(c: Chain, a: Addr, j: nat)
    requires MarkedAt(c, a) && j < |c| && On(c[j], a) && !Earlier(c, j)
    ensures !c[j].duplicate
  {
  }

  /** insert_breakpoints only puts in what wants in. */
  lemma {:induction false} InsertOnlyWanted(brk: seq<Byte>, c: Chain, m: Memory, i: nat)
    requires i <= |c|
    ensures var r := InsertFrom(brk, c, m, i).chain;
            SameButInserted(c, r) && forall k :: 0 <= k < |c| && r[k].inserted ==> c[k].inserted || WantsIn(c[k])
    decreases |c| - i
  {
    if i < |c| {
      if WantsIn(c[i]) && Mapped(m, c[i].address, |brk|) {
        var d := c[i := c[i].(shadow := Bytes(m, c[i].address, |brk|), inserted := true)];
        InsertOnlyWanted(brk, d, Write(m, c[i].address, brk), i + 1);
      } else if !WantsIn(c[i]) {
        InsertOnlyWanted(brk, c, m, i + 1);
      }
    }
  }

  /** In the other case the address is lost: after the hit, no insertion puts a break instruction there although
      breakpoint `j` is still enabled. */
  lemma {:induction false} LostBreakpoint(c: Chain, i: nat, j: nat, brk: seq<Byte>, m: Memory)
    requires Marked(c) && NoneIn(c) && i < |c| && c[i].enable != Disabled && !c[i].duplicate
    requires j < |c| && j != i && On(c[j], c[i].address)
    ensures var r := InsertFrom(brk, c[i := c[i].(enable := Disabled)], m, 0);
            r.chain[j].enable != Disabled && !EnabledIsIn(r.chain)
  {
    var a, d := c[i].address, c[i := c[i].(enable := Disabled)];
    InsertOnlyWanted(brk, d, m, 0);
    var r := InsertFrom(brk, d, m, 0).chain;
    assert MarkedAt(c, a);
    forall k | 0 <= k < |r| && r[k].address == a ensures !r[k].inserted {
      if k != i && On(c[k], a) {
        assert !Earlier(c, i);
        assert i < k && Earlier(c, k);
      }
    }
    assert r[j].enable != Disabled && r[j].address == a;
  }
}
