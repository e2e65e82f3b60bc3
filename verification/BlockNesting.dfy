/** The address structure of a block vector, and what it means for the lookup by pc. */
module BlockNesting {
  import opened Common
  import opened ScopeModel

  ghost predicate Contains(b: BlockRec, pc: int) { b.start <= pc < b.end }

  /** Block `j` is the superblock of block `i`: it encloses it, and every block between the two in the
      vector ends before `i` starts. */
  ghost predicate IsParent(v: seq<BlockRec>, j: int, i: int)
    requires 0 <= i < |v|
  {
    && 0 <= j < i
    && v[i].super == Some(v[j].serial)
    && v[j].start <= v[i].start && v[i].end <= v[j].end
    && EndBefore(v, j + 1, i)
  }

  ghost predicate EndBefore(v: seq<BlockRec>, from: int, i: int)
    requires 0 <= from <= i < |v|
  {
    forall k :: from <= k < i ==> v[k].end <= v[i].start
  }

  ghost predicate NestedAt(v: seq<BlockRec>, lo: int, hi: int, i: int)
    requires 0 <= i < |v|
  {
    && lo <= v[i].start <= v[i].end <= hi
    && (v[i].super == None ==> EndBefore(v, 0, i))
    && (v[i].super != None ==> exists j :: IsParent(v, j, i))
  }

  /** A vector of blocks in preorder between the addresses `lo` and `hi`. Blocks without a
      superblock are the roots. */
  ghost predicate Nested(v: seq<BlockRec>, lo: int, hi: int) {
    forall i :: 0 <= i < |v| ==> NestedAt(v, lo, hi, i)
  }

  ghost predicate DistinctSerials(v: seq<BlockRec>) {
    forall i, j :: 0 <= i < j < |v| ==> v[i].serial != v[j].serial
  }

  ghost predicate SerialsIn(v: seq<BlockRec>, lo: nat, hi: nat) {
    forall i :: 0 <= i < |v| ==> lo <= v[i].serial < hi
  }

  // ---------------------------------------------------------------------------
  // The vector of an address-ordered scope tree is nested

  /** Scopes one after another, and nested, between `lo` and `hi`. */
  ghost predicate ScopesWithin(base: int, scs: seq<Scope>, lo: int, hi: int)
    decreases scs
  {
    if scs == [] then lo <= hi
    else && lo <= scs[0].start + base
         && scs[0].start <= scs[0].end
         && ScopesWithin(base, scs[0].kids, scs[0].start + base, scs[0].end + base)
         && ScopesWithin(base, scs[1..], scs[0].end + base, hi)
  }

  ghost predicate FuncsWithin(base: int, fs: seq<Func>, lo: int, end: int)
    decreases |fs|
  {
    if fs == [] then lo <= end
    else && lo <= fs[0].addr
         && ScopesWithin(base, Kids(fs[0].body), fs[0].addr, FuncEnd(fs, end))
         && FuncsWithin(base, fs[1..], FuncEnd(fs, end), end)
  }

  ghost predicate Good(b: Built, lo: int, hi: int, n: nat) {
    Nested(b.blocks, lo, hi) && DistinctSerials(b.blocks) && SerialsIn(b.blocks, n, b.next) && n <= b.next
  }

  lemma {:induction false} NestedWiden(v: seq<BlockRec>, lo: int, hi: int, lo': int, hi': int)
    requires Nested(v, lo, hi) && lo' <= lo && hi <= hi'
    ensures Nested(v, lo', hi')
  {
    forall i | 0 <= i < |v| ensures NestedAt(v, lo', hi', i) {
      assert NestedAt(v, lo, hi, i);
    }
  }

  lemma {:induction false} ParentShift(a: seq<BlockRec>, b: seq<BlockRec>, j: int, k: int)
    requires 0 <= k < |b| && IsParent(b, j, k)
    ensures IsParent(a + b, j + |a|, k + |a|)
  {
    var v, i := a + b, k + |a|;
    forall m | j + |a| + 1 <= m < i ensures v[m].end <= v[i].start {
      assert v[m] == b[m - |a|];
    }
  }

  lemma {:induction false} NestedConcat(a: seq<BlockRec>, b: seq<BlockRec>, lo: int, mid: int, hi: int)
    requires Nested(a, lo, mid) && Nested(b, mid, hi) && lo <= mid <= hi
    ensures Nested(a + b, lo, hi)
  {
    var v := a + b;
    forall i | 0 <= i < |v| ensures NestedAt(v, lo, hi, i) {
      if i < |a| {
        assert NestedAt(a, lo, mid, i);
        if a[i].super != None {
          var j :| IsParent(a, j, i);
          assert IsParent(v, j, i);
        }
      } else {
        var k := i - |a|;
        assert NestedAt(b, mid, hi, k);
        if b[k].super != None {
          var j :| IsParent(b, j, k);
          ParentShift(a, b, j, k);
        } else {
          forall m | 0 <= m < i ensures v[m].end <= v[i].start {
            assert if m < |a| then NestedAt(a, lo, mid, m) else v[m] == b[m - |a|];
          }
        }
      }
    }
  }

  lemma {:induction false} EncloseParent(b: Built, lo: int, hi: int, n: nat, root: BlockRec, v: seq<BlockRec>, i: int)
    requires Good(b, lo, hi, n) && root.start == lo && root.end == hi && root.serial == b.next
    requires v == [root] + Adopt(b.blocks, b.next) && 1 <= i < |v|
    ensures NestedAt(v, lo, hi, i)
  {
    var w, k := b.blocks, i - 1;
    assert NestedAt(w, lo, hi, k);
    assert forall m :: 1 <= m < |v| ==>
             v[m].start == w[m - 1].start && v[m].end == w[m - 1].end && v[m].serial == w[m - 1].serial;
    if w[k].super == None {
      assert IsParent(v, 0, i);
    } else {
      var j :| IsParent(w, j, k);
      assert IsParent(v, j + 1, i);
    }
  }

  lemma {:induction false} EncloseGood(b: Built, lo: int, hi: int, n: nat, syms: seq<Symbol>, func: Option<Symbol>)
    requires Good(b, lo, hi, n) && lo <= hi
    ensures Good(Enclose(b, lo, hi, syms, func), lo, hi, n)
  {
    var w, v := b.blocks, Enclose(b, lo, hi, syms, func).blocks;
    forall i | 0 <= i < |v| ensures NestedAt(v, lo, hi, i) {
      if i > 0 {
        EncloseParent(b, lo, hi, n, v[0], v, i);
      }
    }
    assert forall m :: 1 <= m < |v| ==> v[m].serial == w[m - 1].serial;
  }

  lemma {:induction false} ScopesGood(base: int, scs: seq<Scope>, lo: int, hi: int, n: nat)
    requires ScopesWithin(base, scs, lo, hi)
    ensures lo <= hi && Good(ScopesBlocks(base, scs, n), lo, hi, n)
    decreases scs
  {
    if scs != [] {
      var sc := scs[0];
      var s, e := sc.start + base, sc.end + base;
      var inner := ScopesBlocks(base, sc.kids, n);
      ScopesGood(base, sc.kids, s, e, n);
      var first := ScopeBlocks(base, sc, n);
      if sc.syms != [] {
        EncloseGood(inner, s, e, n, sc.syms, None);
      }
      ScopesGood(base, scs[1..], e, hi, first.next);
      NestedWiden(first.blocks, s, e, lo, e);
      NestedConcat(first.blocks, ScopesBlocks(base, scs[1..], first.next).blocks, lo, e, hi);
    }
  }

  lemma {:induction false} FuncsGood(base: int, fs: seq<Func>, lo: int, end: int, n: nat)
    requires FuncsWithin(base, fs, lo, end)
    ensures lo <= end && Good(FuncsBlocks(base, fs, end, n), lo, end, n)
    decreases |fs|
  {
    if fs != [] {
      var f := fs[0];
      var e := FuncEnd(fs, end);
      var inner := ScopesBlocks(base, Kids(f.body), n);
      ScopesGood(base, Kids(f.body), f.addr, e, n);
      EncloseGood(inner, f.addr, e, n, f.syms, Some(f.name));
      var first := Enclose(inner, f.addr, e, f.syms, Some(f.name));
      FuncsGood(base, fs[1..], e, end, first.next);
      NestedWiden(first.blocks, f.addr, e, lo, e);
      NestedConcat(first.blocks, FuncsBlocks(base, fs[1..], end, first.next).blocks, lo, e, end);
    }
  }

  /** A vector with a single root, the block at index 0, spanning all the others. */
  ghost predicate WellFormedVector(v: seq<BlockRec>) {
    && v != []
    && Nested(v, v[0].start, v[0].end)
    && DistinctSerials(v)
    && forall i :: 0 <= i < |v| ==> (v[i].super == None <==> i == 0)
  }

  /** The file block and the global block around nested blocks. */
  lemma {:induction false} RootsWellFormed(b: Built, base: int, end: int, files: seq<Symbol>, globals: seq<Symbol>)
    requires Good(b, base, end, 0) && base <= end
    ensures var v := Enclose(Enclose(b, base, end, files, None), base, end, globals, None).blocks;
            WellFormedVector(v) && |v| >= 2 && v[0].syms == globals && v[1].syms == files
  {
    EncloseGood(b, base, end, 0, files, None);
    var f := Enclose(b, base, end, files, None);
    EncloseGood(f, base, end, 0, globals, None);
    var v := Enclose(f, base, end, globals, None).blocks;
    forall i | 1 <= i < |v| ensures v[i].super != None { assert v[i] == Adopt(f.blocks, f.next)[i - 1]; }
  }

  lemma {:induction false} VectorWellFormed(base: int, fs: seq<Func>, files: seq<Symbol>, globals: seq<Symbol>,
                                            end: int)
    requires FuncsWithin(base, fs, base, end)
    ensures WellFormedVector(VectorOf(base, fs, files, globals, end))
  {
    FuncsGood(base, fs, base, end, 0);
    RootsWellFormed(FuncsBlocks(base, fs, end, 0), base, end, files, globals);
  }

  // ---------------------------------------------------------------------------
  // What a nested vector means for a pc

  ghost predicate Ascending(v: seq<BlockRec>) {
    forall i, j :: 0 <= i <= j < |v| ==> v[i].start <= v[j].start
  }

  lemma {:induction false} NestedAscending(v: seq<BlockRec>, i: int, j: int)
    requires WellFormedVector(v) && 0 <= i <= j < |v|
    ensures v[i].start <= v[j].start
    decreases j
  {
    if i < j {
      assert NestedAt(v, v[0].start, v[0].end, j);
      var p :| IsParent(v, p, j);
      if i <= p {
        NestedAscending(v, i, p);
      } else {
        assert NestedAt(v, v[0].start, v[0].end, i);
      }
    }
  }

  lemma {:induction false} WellFormedAscending(v: seq<BlockRec>)
    requires WellFormedVector(v)
    ensures Ascending(v)
  {
    forall i, j | 0 <= i <= j < |v| ensures v[i].start <= v[j].start {
      NestedAscending(v, i, j);
    }
  }

  /** The index of the block that a superblock pointer names. */
  ghost function Parent(v: seq<BlockRec>, i: int): (j: int)
    requires WellFormedVector(v) && 0 < i < |v|
    ensures IsParent(v, j, i)
  {
    assert NestedAt(v, v[0].start, v[0].end, i);
    var j :| IsParent(v, j, i);
    j
  }

  /** A superblock pointer names no other block. */
  lemma {:induction false} ParentUnique(v: seq<BlockRec>, i: int, j: int)
    requires WellFormedVector(v) && 0 < i < |v| && 0 <= j < |v| && v[i].super == Some(v[j].serial)
    ensures j == Parent(v, i)
  {
    var p := Parent(v, i);
    assert v[p].serial == v[j].serial;
  }

  /** The blocks met by following superblock pointers from block `i`, starting with `i`. */
  ghost function Chain(v: seq<BlockRec>, i: int): (c: seq<int>)
    requires WellFormedVector(v) && 0 <= i < |v|
    decreases i
  {
    if i == 0 then [0] else [i] + Chain(v, Parent(v, i))
  }

  /** Starting from any block that contains pc, the superblock chain visits exactly the blocks up to
      it in the vector that contain pc, in descending order of index. */
  lemma {:induction false} ChainIsEnclosing(v: seq<BlockRec>, pc: int, b: int)
    requires WellFormedVector(v) && 0 <= b < |v| && Contains(v[b], pc)
    ensures forall i :: 0 <= i <= b ==> (i in Chain(v, b) <==> Contains(v[i], pc))
    ensures forall i, j :: 0 <= i < j < |Chain(v, b)| ==> 0 <= Chain(v, b)[j] < Chain(v, b)[i] <= b
    decreases b
  {
    if b > 0 {
      var p := Parent(v, b);
      ChainIsEnclosing(v, pc, p);
      var c := Chain(v, b);
      assert c[1..] == Chain(v, p);
      forall i | 0 <= i <= b ensures i in c <==> Contains(v[i], pc) {
        assert i in c <==> i == b || i in Chain(v, p);
        if p < i < b {
          assert v[i].end <= v[b].start;
          ChainBound(v, p, i);
        }
      }
    }
  }

  lemma {:induction false} ChainBound(v: seq<BlockRec>, p: int, i: int)
    requires WellFormedVector(v) && 0 <= p < |v| && p < i
    ensures i !in Chain(v, p)
    decreases p
  {
    if p > 0 {
      ChainBound(v, Parent(v, p), i);
      assert Chain(v, p)[1..] == Chain(v, Parent(v, p));
    }
  }

  /** The innermost block containing pc: it contains pc, and every other block that contains pc
      encloses it. */
  ghost predicate Innermost(v: seq<BlockRec>, pc: int, b: int) {
    && 0 <= b < |v|
    && Contains(v[b], pc)
    && forall i :: 0 <= i < |v| && Contains(v[i], pc) ==>
         v[i].start <= v[b].start && v[b].end <= v[i].end
  }

  lemma {:induction false} ChainEncloses(v: seq<BlockRec>, b: int, i: int)
    requires WellFormedVector(v) && 0 <= b < |v| && i in Chain(v, b)
    ensures 0 <= i <= b && v[i].start <= v[b].start && v[b].end <= v[i].end
    decreases b
  {
    if i != b && b > 0 {
      assert Chain(v, b)[1..] == Chain(v, Parent(v, b));
      ChainEncloses(v, Parent(v, b), i);
    }
  }

  /** The last block of the vector that contains pc is the innermost one, and its superblock chain is
      the set of all blocks that contain pc. */
  lemma {:induction false} LastContainingIsInnermost(v: seq<BlockRec>, pc: int, b: int)
    requires WellFormedVector(v) && 0 <= b < |v| && Contains(v[b], pc)
    requires forall i :: b < i < |v| ==> !Contains(v[i], pc)
    ensures Innermost(v, pc, b)
    ensures forall i :: 0 <= i < |v| ==> (i in Chain(v, b) <==> Contains(v[i], pc))
  {
    ChainIsEnclosing(v, pc, b);
    forall i | 0 <= i < |v|
      ensures i in Chain(v, b) <==> Contains(v[i], pc)
      ensures Contains(v[i], pc) ==> v[i].start <= v[b].start && v[b].end <= v[i].end
    {
      if i in Chain(v, b) {
        ChainEncloses(v, b, i);
      }
    }
  }
}
