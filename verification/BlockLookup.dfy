/** block_for_pc: the search for the innermost block that contains a pc. */
module BlockLookup {
  import opened ScopeModel
  import opened BlockNesting
  import opened SymbolReader

  /** Binary search for the last block that starts at or before pc. */
  method LastStartingBefore(v: array<Block>, ghost recs: seq<BlockRec>, pc: int) returns (bot: nat)
    requires Vector(v, recs) && Ascending(recs) && recs != [] && recs[0].start <= pc
    ensures bot < |recs| && recs[bot].start <= pc
    ensures forall i :: bot < i < |recs| ==> pc < recs[i].start
  {
    bot := 0;
    var top: nat := v.Length;
    while top - bot > 1
      invariant 0 <= bot < top <= |recs|
      invariant recs[bot].start <= pc
      invariant forall i :: top <= i < |recs| ==> pc < recs[i].start
    {
      var half := (top - bot + 1) / 2;
      assert v[bot + half].Rec() == recs[bot + half];
      if v[bot + half].start <= pc {
        bot := bot + half;
      } else {
        top := bot + half;
      }
    }
  }

  /** Search one file's vector, whose first block is known to contain pc. The scan backward always
      finds a block. */
  method SearchVector(v: array<Block>, ghost recs: seq<BlockRec>, pc: int) returns (b: Block?, ghost at: nat)
    requires Vector(v, recs) && WellFormedVector(recs) && Contains(recs[0], pc)
    ensures at < |recs| && b == v[at] && Innermost(recs, pc, at)
    ensures forall i :: 0 <= i < |recs| ==> (i in Chain(recs, at) <==> Contains(recs[i], pc))
  {
    WellFormedAscending(recs);
    var bot: int := LastStartingBefore(v, recs, pc);
    b, at := null, 0;
    while bot >= 0 && b == null
      invariant -1 <= bot < |recs|
      invariant b == null ==> forall i :: bot < i < |recs| ==> !Contains(recs[i], pc)
      invariant b == null && bot >= 0 ==> recs[bot].start <= pc
      invariant b != null ==> 0 <= bot == at && b == v[at] && Contains(recs[at], pc)
                              && forall i :: at < i < |recs| ==> !Contains(recs[i], pc)
      decreases bot, b == null
    {
      assert v[bot].Rec() == recs[bot];
      if v[bot].end > pc {
        b, at := v[bot], bot;
      } else {
        assert bot > 0 ==> recs[bot - 1].start <= recs[bot].start;
        bot := bot - 1;
      }
    }
    LastContainingIsInnermost(recs, pc, at);
  }

  ghost predicate Symtabs(symtabs: seq<array<Block>>, recs: seq<seq<BlockRec>>)
    reads symtabs, set v, b | v in symtabs && b in v[..] :: b
  {
    |symtabs| == |recs|
    && forall k :: 0 <= k < |recs| ==> Vector(symtabs[k], recs[k]) && WellFormedVector(recs[k])
  }

  /** The answer for pc in the file number `k` of the list. */
  ghost predicate IsBlockFor(recs: seq<seq<BlockRec>>, pc: int, k: int, at: int) {
    && 0 <= k < |recs|
    && WellFormedVector(recs[k]) && Innermost(recs[k], pc, at)
    && (forall j :: 0 <= j < k && recs[j] != [] ==> !Contains(recs[j][0], pc))
    && forall i :: 0 <= i < |recs[k]| ==> (i in Chain(recs[k], at) <==> Contains(recs[k][i], pc))
  }

  /** Find the first file that contains pc and in it the innermost block.  The blocks met by following
      superblock pointers from the answer are exactly the blocks of the file that contain pc. */
  method BlockForPc(symtabs: seq<array<Block>>, ghost recs: seq<seq<BlockRec>>, pc: int)
    returns (b: Block?, ghost k: nat, ghost at: nat)
    requires Symtabs(symtabs, recs)
    ensures b == null ==> forall j :: 0 <= j < |recs| ==> !Contains(recs[j][0], pc)
    ensures b != null ==> k < |recs| && at < |recs[k]| && b == symtabs[k][at] && IsBlockFor(recs, pc, k, at)
  {
    b, k, at := null, 0, 0;
    var s := 0;
    while s < |symtabs|
      invariant 0 <= s <= |symtabs|
      invariant forall j :: 0 <= j < s ==> !Contains(recs[j][0], pc)
    {
      var v := symtabs[s];
      assert v[0].Rec() == recs[s][0];
      if v[0].start <= pc && v[0].end > pc {
        k := s;
        b, at := SearchVector(v, recs[s], pc);
        return;
      }
      s := s + 1;
    }
  }

  // ---------------------------------------------------------------------------
  // From the symbols of a file to the answer

  /** In order of addresses no pair closes below where it opened. */
  lemma {:induction false} WithinStraight(base: int, scs: seq<Scope>, lo: int, hi: int)
    requires ScopesWithin(base, scs, lo, hi)
    ensures StraightAll(scs) == scs
    decreases scs
  {
    if scs != [] {
      WithinStraight(base, scs[0].kids, scs[0].start + base, scs[0].end + base);
      WithinStraight(base, scs[1..], scs[0].end + base, hi);
    }
  }

  lemma {:induction false} FuncsWithinStraight(base: int, fs: seq<Func>, lo: int, end: int)
    requires FuncsWithin(base, fs, lo, end)
    ensures StraightFuncs(fs) == fs
    decreases |fs|
  {
    if fs != [] {
      WithinStraight(base, Kids(fs[0].body), fs[0].addr, FuncEnd(fs, end));
      FuncsWithinStraight(base, fs[1..], FuncEnd(fs, end), end);
    }
  }

  /** The symbols of any address-ordered source file are read without error into a vector that is the
      preorder of its scopes, ascending, and fit for the lookup. */
  lemma {:induction false} ReadFileSearchable(base: int, fs: seq<Func>, es: seq<Event>, end: int)
    requires Core(es) == FuncsEvents(fs) && FuncsWithin(base, fs, base, end)
    ensures ReadFile(base, es, end) == Ok(VectorOf(base, fs, StaticNames(es), GlobalNames(es), end))
    ensures var v := VectorOf(base, fs, StaticNames(es), GlobalNames(es), end);
            && WellFormedVector(v) && Ascending(v)
            && |v| >= 2 && v[0].syms == GlobalNames(es) && v[1].syms == StaticNames(es)
            && (forall i :: 0 < i < |v| ==> 0 <= Parent(v, i) < i)
  {
    FuncsWithinStraight(base, fs, base, end);
    ReaderBuildsPreorder(base, fs, es, end);
    VectorWellFormed(base, fs, StaticNames(es), GlobalNames(es), end);
    WellFormedAscending(VectorOf(base, fs, StaticNames(es), GlobalNames(es), end));
  }
}
