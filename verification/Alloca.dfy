/** Storage that is reclaimed by its depth on the stack. */
module Alloca {

  /** STACK_DIR: does the stack grow upward? */
  datatype Direction = Upward | Downward

  predicate Deeper(d: Direction, x: int, y: int) { if d == Upward then x > y else x < y }

  /** The header of a block. `owner` is the frame that asked for it, of which the allocator knows the depth only. */
  datatype Block = Block(deep: int, owner: nat)

  /** A live call of a procedure that uses alloca; each has its own number, and probes the stack at its own depth. */
  datatype Frame = Frame(uid: nat, depth: int)

  datatype State = State(frames: seq<Frame>, chain: seq<Block>, freed: seq<Block>, calls: nat, blocks: nat)

  datatype Event = Call(depth: int) | Return | Allocate(size: nat)

  /** How many blocks at the head of the chain are deeper than `depth`: what the loop of alloca collects. */
  function Garbage(d: Direction, chain: seq<Block>, depth: int): (n: nat)
    ensures n <= |chain|
    ensures forall i :: 0 <= i < n ==> Deeper(d, chain[i].deep, depth)
    ensures n < |chain| ==> !Deeper(d, chain[n].deep, depth)
  {
    if chain != [] && Deeper(d, chain[0].deep, depth) then 1 + Garbage(d, chain[1..], depth) else 0
  }

  predicate Enabled(d: Direction, s: State, e: Event) {
    match e
    case Call(depth) => s.frames != [] ==> Deeper(d, depth, s.frames[|s.frames| - 1].depth)
    case Return => s.frames != []
    case Allocate(_) => s.frames != []
  }

  function Step(d: Direction, s: State, e: Event): (r: State)
    requires Enabled(d, s, e)
  {
    match e
    case Call(depth) => s.(frames := s.frames + [Frame(s.calls, depth)], calls := s.calls + 1)
    case Return => s.(frames := s.frames[..|s.frames| - 1])
    case Allocate(size) =>
      var f := s.frames[|s.frames| - 1];
      var n := Garbage(d, s.chain, f.depth);
      var s1 := s.(chain := s.chain[n..], freed := s.freed + s.chain[..n]);
      if size == 0 then s1 else s1.(chain := [Block(f.depth, f.uid)] + s1.chain, blocks := s.blocks + 1)
  }

  function Run(d: Direction, s: State, es: seq<Event>): (r: State)
    decreases |es|
  {
    if es == [] then s
    else Run(d, if Enabled(d, s, es[0]) then Step(d, s, es[0]) else s, es[1..])
  }

  const Init := State([], [], [], 0, 0)

  // ---------------------------------------------------------------------------
  // What every step keeps

  /** Each live frame is deeper than its callers, and younger. */
  predicate Stacked(d: Direction, fs: seq<Frame>, calls: nat) {
    && (forall i, j :: 0 <= i < j < |fs| ==> Deeper(d, fs[j].depth, fs[i].depth) && fs[i].uid < fs[j].uid)
    && forall i :: 0 <= i < |fs| ==> fs[i].uid < calls
  }

  /** No block is deeper than one allocated after it. */
  predicate Sorted(d: Direction, chain: seq<Block>) {
    forall i, j :: 0 <= i < j < |chain| ==> !Deeper(d, chain[j].deep, chain[i].deep)
  }

  predicate Known(bs: seq<Block>, calls: nat) { forall i :: 0 <= i < |bs| ==> bs[i].owner < calls }

  /** A block in the chain has the depth of the frame that asked for it, if that is live. */
  predicate AtDepth(chain: seq<Block>, fs: seq<Frame>) {
    forall i, j :: 0 <= i < |chain| && 0 <= j < |fs| && chain[i].owner == fs[j].uid ==> chain[i].deep == fs[j].depth
  }

  /** No live frame asked for any of these. */
  predicate Orphaned(bs: seq<Block>, fs: seq<Frame>) {
    forall i, j :: 0 <= i < |bs| && 0 <= j < |fs| ==> bs[i].owner != fs[j].uid
  }

  predicate Inv(d: Direction, s: State) {
    && Stacked(d, s.frames, s.calls) && Sorted(d, s.chain) && Known(s.chain, s.calls) && Known(s.freed, s.calls)
    && AtDepth(s.chain, s.frames) && Orphaned(s.freed, s.frames) && |s.chain| + |s.freed| == s.blocks
  }

  /** What is collected belongs to no live frame; what is left is not too deep. */
  lemma {:induction false} Collected(d: Direction, chain: seq<Block>, fs: seq<Frame>, calls: nat, n: nat)
    requires Stacked(d, fs, calls) && fs != [] && Sorted(d, chain) && AtDepth(chain, fs)
    requires n == Garbage(d, chain, fs[|fs| - 1].depth)
    ensures Orphaned(chain[..n], fs)
    ensures forall i :: n <= i < |chain| ==> !Deeper(d, chain[i].deep, fs[|fs| - 1].depth)
  {
    var top := fs[|fs| - 1];
    forall i, j | 0 <= i < n && 0 <= j < |fs| ensures chain[i].owner != fs[j].uid {
      assert j == |fs| - 1 || Deeper(d, top.depth, fs[j].depth);
    }
    forall i | n <= i < |chain| ensures !Deeper(d, chain[i].deep, top.depth) {
      assert i == n || !Deeper(d, chain[i].deep, chain[n].deep);
    }
  }

  lemma {:induction false} CallKeeps(d: Direction, s: State, depth: int)
    requires Inv(d, s) && Enabled(d, s, Call(depth))
    ensures Inv(d, Step(d, s, Call(depth)))
  {
    var k := |s.frames| - 1;
    forall i | 0 <= i < |s.frames| ensures Deeper(d, depth, s.frames[i].depth) {
      assert i == k || Deeper(d, s.frames[k].depth, s.frames[i].depth);
    }
  }

  lemma {:induction false} Suffix(d: Direction, chain: seq<Block>, fs: seq<Frame>, calls: nat, n: nat)
    requires n <= |chain| && Sorted(d, chain) && Known(chain, calls) && AtDepth(chain, fs)
    ensures Sorted(d, chain[n..]) && Known(chain[n..], calls) && AtDepth(chain[n..], fs)
  {
    var rest := chain[n..];
    forall i, j | 0 <= i < j < |rest| ensures !Deeper(d, rest[j].deep, rest[i].deep) {
      assert rest[i] == chain[n + i] && rest[j] == chain[n + j];
    }
    forall i, j | 0 <= i < |rest| && 0 <= j < |fs| && rest[i].owner == fs[j].uid ensures rest[i].deep == fs[j].depth {
      assert rest[i] == chain[n + i];
    }
  }

  lemma {:induction false} MoreFreed(freed: seq<Block>, part: seq<Block>, fs: seq<Frame>, calls: nat)
    requires Known(freed, calls) && Known(part, calls) && Orphaned(freed, fs) && Orphaned(part, fs)
    ensures Known(freed + part, calls) && Orphaned(freed + part, fs)
  {
    var all := freed + part;
    forall i, j | 0 <= i < |all| && 0 <= j < |fs| ensures all[i].owner != fs[j].uid {
      assert all[i] == if i < |freed| then freed[i] else part[i - |freed|];
    }
  }

  lemma {:induction false} RestNotDeeper(d: Direction, chain: seq<Block>, n: nat, depth: int)
    requires n <= |chain| && forall i :: n <= i < |chain| ==> !Deeper(d, chain[i].deep, depth)
    ensures forall i :: 0 <= i < |chain[n..]| ==> !Deeper(d, chain[n..][i].deep, depth)
  {
    forall i | 0 <= i < |chain[n..]| ensures !Deeper(d, chain[n..][i].deep, depth) {
      assert chain[n..][i] == chain[n + i];
    }
  }

  lemma {:induction false} AllocateKeeps(d: Direction, s: State, size: nat)
    requires Inv(d, s) && Enabled(d, s, Allocate(size))
    ensures Inv(d, Step(d, s, Allocate(size)))
  {
    var f := s.frames[|s.frames| - 1];
    var n := Garbage(d, s.chain, f.depth);
    var s1 := s.(chain := s.chain[n..], freed := s.freed + s.chain[..n]);
    CollectKeeps(d, s, n);
    if size != 0 {
      var s2 := s1.(chain := [Block(f.depth, f.uid)] + s1.chain, blocks := s1.blocks + 1);
      PushKeeps(d, s1, Block(f.depth, f.uid));
      assert Step(d, s, Allocate(size)) == s2;
    } else {
      assert Step(d, s, Allocate(size)) == s1;
    }
  }

  lemma {:induction false} CollectKeeps(d: Direction, s: State, n: nat)
    requires Inv(d, s) && s.frames != [] && n == Garbage(d, s.chain, s.frames[|s.frames| - 1].depth)
    ensures Inv(d, s.(chain := s.chain[n..], freed := s.freed + s.chain[..n]))
    ensures forall i :: 0 <= i < |s.chain[n..]| ==> !Deeper(d, s.chain[n..][i].deep, s.frames[|s.frames| - 1].depth)
  {
    Collected(d, s.chain, s.frames, s.calls, n);
    Suffix(d, s.chain, s.frames, s.calls, n);
    KnownPrefix(s.chain, n, s.calls);
    MoreFreed(s.freed, s.chain[..n], s.frames, s.calls);
    RestNotDeeper(d, s.chain, n, s.frames[|s.frames| - 1].depth);
  }

  lemma {:induction false} KnownPrefix(bs: seq<Block>, n: nat, calls: nat)
    requires n <= |bs| && Known(bs, calls)
    ensures Known(bs[..n], calls)
  {
  }

  lemma {:induction false} PushKeeps(d: Direction, s: State, b: Block)
    requires Inv(d, s) && s.frames != [] && b == Block(s.frames[|s.frames| - 1].depth, s.frames[|s.frames| - 1].uid)
    requires forall i :: 0 <= i < |s.chain| ==> !Deeper(d, s.chain[i].deep, b.deep)
    ensures Inv(d, s.(chain := [b] + s.chain, blocks := s.blocks + 1))
  {
    Pushed(d, s.chain, s.frames, s.calls, b);
  }

  lemma {:induction false} Pushed(d: Direction, chain: seq<Block>, fs: seq<Frame>, calls: nat, b: Block)
    requires Stacked(d, fs, calls) && Sorted(d, chain) && Known(chain, calls) && AtDepth(chain, fs) && fs != []
    requires b == Block(fs[|fs| - 1].depth, fs[|fs| - 1].uid)
    requires forall i :: 0 <= i < |chain| ==> !Deeper(d, chain[i].deep, b.deep)
    ensures Sorted(d, [b] + chain) && Known([b] + chain, calls) && AtDepth([b] + chain, fs)
  {
  }

  lemma {:induction false} StepKeeps(d: Direction, s: State, e: Event)
    requires Inv(d, s) && Enabled(d, s, e)
    ensures Inv(d, Step(d, s, e))
  {
    match e
    case Call(depth) => CallKeeps(d, s, depth);
    case Return =>
    case Allocate(size) => AllocateKeeps(d, s, size);
  }

  lemma {:induction false} RunKeeps(d: Direction, s: State, es: seq<Event>)
    requires Inv(d, s)
    ensures Inv(d, Run(d, s, es))
    decreases |es|
  {
    if es != [] {
      if Enabled(d, s, es[0]) {
        StepKeeps(d, s, es[0]);
        RunKeeps(d, Step(d, s, es[0]), es[1..]);
      } else {
        RunKeeps(d, s, es[1..]);
      }
    }
  }

  /** In every run of calls, returns and requests the chain is sorted by depth, and every block is in it or was
      freed. */
  lemma {:induction false} ChainSorted(d: Direction, es: seq<Event>)
    ensures var s := Run(d, Init, es); Sorted(d, s.chain) && |s.chain| + |s.freed| == s.blocks
  {
    RunKeeps(d, Init, es);
  }

  /** In every run no block is freed while the frame that asked for it is live; those that it asked for are at its
      depth. */
  lemma {:induction false} LiveBlocksSafe(d: Direction, es: seq<Event>, b: Block, f: Frame)
    requires f in Run(d, Init, es).frames && b.owner == f.uid
    ensures b !in Run(d, Init, es).freed
    ensures b in Run(d, Init, es).chain ==> b.deep == f.depth
  {
    RunKeeps(d, Init, es);
  }

  /** What the collection leaves in the chain, and what it takes. */
  lemma {:induction false} Remaining(d: Direction, chain: seq<Block>, fs: seq<Frame>, calls: nat, n: nat, b: Block)
    requires Stacked(d, fs, calls) && fs != [] && Sorted(d, chain) && AtDepth(chain, fs)
    requires n == Garbage(d, chain, fs[|fs| - 1].depth)
    ensures var deeper := Deeper(d, b.deep, fs[|fs| - 1].depth);
            && multiset(chain[n..])[b] == (if deeper then 0 else multiset(chain)[b])
            && multiset(chain[..n])[b] == (if deeper then multiset(chain)[b] else 0)
  {
    Collected(d, chain, fs, calls, n);
    assert chain == chain[..n] + chain[n..];
    if b in chain[n..] {
      var i :| 0 <= i < |chain[n..]| && chain[n..][i] == b;
      assert chain[n + i] == b;
    }
    assert b in multiset(chain[n..]) <==> b in chain[n..];
    assert b in multiset(chain[..n]) <==> b in chain[..n];
  }

  /** After a request exactly the blocks of before that are not deeper than the current frame remain, each as often as
      before, besides the new one; all others are freed.  That a frame has returned is not enough for its blocks to be
      freed: the current frame may be as deep. */
  lemma {:induction false} NoneDeeper(d: Direction, es: seq<Event>, s: State, size: nat, b: Block)
    requires s == Run(d, Init, es) && s.frames != []
    ensures var f, t := s.frames[|s.frames| - 1], Step(d, s, Allocate(size));
            var was, made := multiset(s.chain)[b], if size != 0 && b == Block(f.depth, f.uid) then 1 else 0;
            var deeper := Deeper(d, b.deep, f.depth);
            && multiset(t.chain)[b] == (if deeper then 0 else was) + made
            && multiset(t.freed)[b] == multiset(s.freed)[b] + (if deeper then was else 0)
  {
    RunKeeps(d, Init, es);
    Allocated(d, s, size, b);
  }

  lemma {:induction false} Allocated(d: Direction, s: State, size: nat, b: Block)
    requires Inv(d, s) && s.frames != []
    ensures var f, t := s.frames[|s.frames| - 1], Step(d, s, Allocate(size));
            var was, made := multiset(s.chain)[b], if size != 0 && b == Block(f.depth, f.uid) then 1 else 0;
            var deeper := Deeper(d, b.deep, f.depth);
            && multiset(t.chain)[b] == (if deeper then 0 else was) + made
            && multiset(t.freed)[b] == multiset(s.freed)[b] + (if deeper then was else 0)
  {
    var f := s.frames[|s.frames| - 1];
    var n := Garbage(d, s.chain, f.depth);
    Remaining(d, s.chain, s.frames, s.calls, n, b);
    var t, made := Step(d, s, Allocate(size)), Block(f.depth, f.uid);
    assert t.chain == (if size == 0 then [] else [made]) + s.chain[n..] && t.freed == s.freed + s.chain[..n];
    assert multiset([made]) == multiset{made};
  }

  // ---------------------------------------------------------------------------
  // alloca as it runs

  class Allocator {
    const dir: Direction
    var chain: seq<Block>
    ghost var freed: seq<Block>
    var blocks: nat

    constructor (dir: Direction)
      ensures this.dir == dir && chain == [] && freed == [] && blocks == 0
    {
      this.dir, chain, freed, blocks := dir, [], [], 0;
    }

    /** alloca, called from the frame `f`. */
    method Alloca(size: nat, f: Frame) returns (got: bool)
      modifies this
      ensures var n := Garbage(dir, old(chain), f.depth);
              && got == (size > 0) && freed == old(freed) + old(chain)[..n]
              && (if got then chain == [Block(f.depth, f.uid)] + old(chain)[n..] && blocks == old(blocks) + 1
                  else chain == old(chain)[n..] && blocks == old(blocks))
    {
      ghost var k: nat := 0;
      ghost var c := chain;
      while chain != [] && Deeper(dir, chain[0].deep, f.depth)
        invariant blocks == old(blocks) && k <= |c| && chain == c[k..] && freed == old(freed) + c[..k]
        invariant k + Garbage(dir, chain, f.depth) == Garbage(dir, c, f.depth)
        decreases |chain|
      {
        assert c[..k] + [c[k]] == c[..k + 1] && chain[1..] == c[k + 1..];
        freed := freed + [chain[0]];
        chain := chain[1..];
        k := k + 1;
      }
      assert Garbage(dir, chain, f.depth) == 0;
      if size == 0 {
        return false;
      }
      chain := [Block(f.depth, f.uid)] + chain;
      blocks := blocks + 1;
      return true;
    }
  }
}
