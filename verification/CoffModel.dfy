/** The second builder of block vectors, for COFF files.

    Here a function's symbol gives its end, a block's variables come after its opening mark, and the marks carry no
    number of their own; a counter is compared instead.  The blocks are closed as in `ScopeModel`. */
module CoffModel {
  import opened Common
  import opened ScopeModel
  import opened BlockNesting

  /** `end` is that of the function, from the symbol before its .bf. */
  datatype Mark =
    | Bf(name: Symbol, isStatic: bool, addr: int)
    | Ef(end: int)
    | Bb(addr: int)
    | Eb(addr: int)
    | CLocal(sym: Symbol)
    | CStatic(sym: Symbol)
    | CGlobal(sym: Symbol)

  /** `depth` counts the open .bb marks. */
  datatype CoffState = CoffState(s: State, depth: int)

  function Step(c: CoffState, e: Mark): (r: Result<CoffState>)
    requires MarksValid(c.s)
    ensures r.Ok? ==> MarksValid(r.value.s)
  {
    var s := c.s;
    match e
    case Bf(name, isStatic, addr) =>
      Ok(CoffState(s.(stack := [Context(Some(name), [], |s.pending|, addr, 0)],
                      files := if isStatic then s.files + [name] else s.files,
                      globals := if isStatic then s.globals else s.globals + [name]), 0))
    case Ef(end) =>
      if s.stack == [] then Err(BraceMismatch)
      else
        var top := s.stack[|s.stack| - 1];
        Ok(c.(s := Finish(s, top.name, s.locals, top.mark, top.start, end).(stack := [], locals := [])))
    case Bb(addr) =>
      Ok(CoffState(s.(stack := s.stack + [Context(None, s.locals, |s.pending|, addr, c.depth + 1)], locals := []),
                   c.depth + 1))
    case Eb(addr) =>
      if s.stack == [] || c.depth != s.stack[|s.stack| - 1].depth then Err(BraceMismatch)
      else
        var top := s.stack[|s.stack| - 1];
        var s1 := s.(stack := s.stack[..|s.stack| - 1], locals := top.locals);
        var own := s.locals != [] && |s.stack| > 1;
        Ok(CoffState(if own then Finish(s1, None, s.locals, top.mark, top.start, addr) else s1, c.depth - 1))
    case CLocal(sym) => Ok(c.(s := s.(locals := s.locals + [sym])))
    case CStatic(sym) => Ok(c.(s := s.(files := s.files + [sym])))
    case CGlobal(sym) => Ok(c.(s := s.(globals := s.globals + [sym])))
  }

  function Run(c: CoffState, es: seq<Mark>): (r: Result<CoffState>)
    requires MarksValid(c.s)
    ensures r.Ok? ==> MarksValid(r.value.s)
    decreases |es|
  {
    if es == [] then Ok(c)
    else
      match Step(c, es[0])
      case Err(x) => Err(x)
      case Ok(c1) => Run(c1, es[1..])
  }

  /** The vector of a file, None for a file without anything to debug. */
  function ReadCoffFile(start: int, es: seq<Mark>, end: int): (r: Result<Option<seq<BlockRec>>>) {
    match Run(CoffState(Start, 0), es)
    case Err(x) => Err(x)
    case Ok(c) =>
      var s := CloseLast(c.s, end);
      if s.pending == [] && s.files == [] && s.globals == [] then Ok(None)
      else Ok(Some(Reverse(EndFile(start, c.s, end).pending)))
  }

  // ---------------------------------------------------------------------------
  // Trees

  datatype CoffFunc = CoffFunc(name: Symbol, isStatic: bool, addr: int, end: int, syms: seq<Symbol>, scopes: seq<Scope>)

  function LocalMarks(syms: seq<Symbol>): (es: seq<Mark>) {
    if syms == [] then [] else [CLocal(syms[0])] + LocalMarks(syms[1..])
  }

  function ScopeMarks(sc: Scope): (es: seq<Mark>)
    decreases sc
  {
    [Bb(sc.start)] + LocalMarks(sc.syms) + ScopesMarks(sc.kids) + [Eb(sc.end)]
  }

  function ScopesMarks(scs: seq<Scope>): (es: seq<Mark>)
    decreases scs
  {
    if scs == [] then [] else ScopeMarks(scs[0]) + ScopesMarks(scs[1..])
  }

  function FuncMarks(f: CoffFunc): (es: seq<Mark>) {
    [Bf(f.name, f.isStatic, f.addr)] + LocalMarks(f.syms) + ScopesMarks(f.scopes) + [Ef(f.end)]
  }

  function AllMarks(fs: seq<CoffFunc>): (es: seq<Mark>) {
    if fs == [] then [] else FuncMarks(fs[0]) + AllMarks(fs[1..])
  }

  function CoffBlocks(fs: seq<CoffFunc>, n: nat): (r: Built) {
    if fs == [] then Built([], n)
    else
      var f := fs[0];
      var first := Enclose(ScopesBlocks(0, f.scopes, n), f.addr, f.end, f.syms, Some(f.name));
      var rest := CoffBlocks(fs[1..], first.next);
      Built(first.blocks + rest.blocks, rest.next)
  }

  /** The marks that open, fill or close lexical contexts. */
  function CoreMarks(es: seq<Mark>): (r: seq<Mark>) {
    if es == [] then []
    else if es[0].CStatic? || es[0].CGlobal? then CoreMarks(es[1..])
    else [es[0]] + CoreMarks(es[1..])
  }

  /** The name a mark adds to the file's own list, or to the global list. */
  function FileName(e: Mark): (r: seq<Symbol>) {
    if e.CStatic? then [e.sym] else if e.Bf? && e.isStatic then [e.name] else []
  }

  function ExternName(e: Mark): (r: seq<Symbol>) {
    if e.CGlobal? then [e.sym] else if e.Bf? && !e.isStatic then [e.name] else []
  }

  function FileNames(es: seq<Mark>): (r: seq<Symbol>) {
    if es == [] then [] else FileName(es[0]) + FileNames(es[1..])
  }

  function ExternNames(es: seq<Mark>): (r: seq<Symbol>) {
    if es == [] then [] else ExternName(es[0]) + ExternNames(es[1..])
  }

  // ---------------------------------------------------------------------------
  // The builder computes the preorder of the tree

  lemma {:induction false} RunConcat(c: CoffState, a: seq<Mark>, b: seq<Mark>)
    requires MarksValid(c.s)
    ensures Run(c, a + b) == match Run(c, a) { case Err(x) => Err(x) case Ok(c1) => Run(c1, b) }
    decreases |a|
  {
    if a == [] {
      assert a + b == b;
    } else {
      assert (a + b)[0] == a[0] && (a + b)[1..] == a[1..] + b;
      if Step(c, a[0]).Ok? { RunConcat(Step(c, a[0]).value, a[1..], b); }
    }
  }

  lemma {:induction false} RunOne(c: CoffState, e: Mark)
    requires MarksValid(c.s)
    ensures Run(c, [e]) == Step(c, e)
  {
    if Step(c, e).Ok? { assert Run(Step(c, e).value, [e][1..]) == Step(c, e); }
  }

  lemma {:induction false} RunLocals(c: CoffState, syms: seq<Symbol>)
    requires MarksValid(c.s)
    ensures Run(c, LocalMarks(syms)) == Ok(c.(s := c.s.(locals := c.s.locals + syms)))
    decreases |syms|
  {
    if syms == [] {
      assert c.s.locals + syms == c.s.locals;
    } else {
      RunConcat(c, [CLocal(syms[0])], LocalMarks(syms[1..]));
      RunOne(c, CLocal(syms[0]));
      RunLocals(c.(s := c.s.(locals := c.s.locals + [syms[0]])), syms[1..]);
      assert c.s.locals + [syms[0]] + syms[1..] == c.s.locals + syms;
    }
  }

  lemma {:induction false} RunThree(c: CoffState, a: seq<Mark>, b: seq<Mark>, d: seq<Mark>, c1: CoffState,
                                    c2: CoffState)
    requires MarksValid(c.s) && MarksValid(c1.s) && MarksValid(c2.s)
    requires Run(c, a) == Ok(c1) && Run(c1, b) == Ok(c2)
    ensures Run(c, a + b + d) == Run(c2, d)
  {
    RunConcat(c, a + b, d);
    RunConcat(c, a, b);
  }

  /** A block inside a function adds exactly its blocks and restores the symbols collected before it. */
  lemma {:induction false} RunScope(c: CoffState, sc: Scope)
    requires MarksValid(c.s) && c.s.stack != []
    ensures Run(c, ScopeMarks(sc)) == Ok(c.(s := Extend(c.s, ScopeBlocks(0, sc, c.s.count))))
    decreases sc, 1
  {
    var s := c.s;
    var ctx := Context(None, s.locals, |s.pending|, sc.start, c.depth + 1);
    var c1 := CoffState(s.(stack := s.stack + [ctx], locals := []), c.depth + 1);
    var c2 := c1.(s := c1.s.(locals := sc.syms));
    var inner := ScopesBlocks(0, sc.kids, s.count);
    var c3 := c2.(s := Extend(c2.s, inner));
    RunOne(c, Bb(sc.start));
    RunLocals(c1, sc.syms);
    assert [] + sc.syms == sc.syms;
    RunScopes(c2, sc.kids);
    RunThree(c, [Bb(sc.start)], LocalMarks(sc.syms), ScopesMarks(sc.kids), c1, c2);
    RunConcat(c, [Bb(sc.start)] + LocalMarks(sc.syms) + ScopesMarks(sc.kids), [Eb(sc.end)]);
    RunOne(c3, Eb(sc.end));
    ScopeEnds(c, sc, c3, inner);
  }

  lemma {:induction false} ScopeEnds(c: CoffState, sc: Scope, c3: CoffState, inner: Built)
    requires MarksValid(c.s) && c.s.stack != [] && inner == ScopesBlocks(0, sc.kids, c.s.count)
    requires var ctx := Context(None, c.s.locals, |c.s.pending|, sc.start, c.depth + 1);
             c3 == CoffState(Extend(c.s.(stack := c.s.stack + [ctx], locals := sc.syms), inner), c.depth + 1)
    ensures MarksValid(c3.s) && Step(c3, Eb(sc.end)) == Ok(c.(s := Extend(c.s, ScopeBlocks(0, sc, c.s.count))))
  {
    assert c3.s.stack[..|c3.s.stack| - 1] == c.s.stack;
    if sc.syms != [] {
      FinishEncloses(c.s, inner, None, sc.syms, sc.start, sc.end);
    }
  }

  lemma {:induction false} RunScopes(c: CoffState, scs: seq<Scope>)
    requires MarksValid(c.s) && c.s.stack != []
    ensures Run(c, ScopesMarks(scs)) == Ok(c.(s := Extend(c.s, ScopesBlocks(0, scs, c.s.count))))
    decreases scs, 0
  {
    if scs == [] {
      assert Reverse<BlockRec>([]) + c.s.pending == c.s.pending;
    } else {
      var first := ScopeBlocks(0, scs[0], c.s.count);
      RunConcat(c, ScopeMarks(scs[0]), ScopesMarks(scs[1..]));
      RunScope(c, scs[0]);
      RunScopes(c.(s := Extend(c.s, first)), scs[1..]);
      ExtendExtend(c.s, first, ScopesBlocks(0, scs[1..], first.next));
    }
  }

  /** Between functions nothing is open. */
  predicate Outermost(c: CoffState) { c.s.stack == [] && c.s.locals == [] }

  /** The marks of a function add its blocks and leave nothing open. */
  lemma {:induction false} RunFunction(c: CoffState, f: CoffFunc)
    requires Outermost(c)
    ensures var r := Run(c, FuncMarks(f));
            var b := Enclose(ScopesBlocks(0, f.scopes, c.s.count), f.addr, f.end, f.syms, Some(f.name));
            r.Ok? && Outermost(r.value) && SameScopes(r.value.s, Extend(c.s, b))
  {
    var n := Step(c, Bf(f.name, f.isStatic, f.addr)).value.s.(stack := []);
    RunOne(c, Bf(f.name, f.isStatic, f.addr));
    RunOpened(c, n, f, c.s.count);
    FinishEncloses(n, ScopesBlocks(0, f.scopes, c.s.count), Some(f.name), f.syms, f.addr, f.end);
  }

  function Opening(n: State, f: CoffFunc): (r: CoffState) {
    CoffState(n.(stack := [Context(Some(f.name), [], |n.pending|, f.addr, 0)]), 0)
  }

  lemma {:induction false} RunOpened(c: CoffState, n: State, f: CoffFunc, count: nat)
    requires Outermost(c) && n.stack == [] && n.locals == [] && n.count == count
    requires Run(c, [Bf(f.name, f.isStatic, f.addr)]) == Ok(Opening(n, f))
    ensures var inner := ScopesBlocks(0, f.scopes, count);
            Run(c, FuncMarks(f))
              == Ok(CoffState(Finish(Extend(n, inner), Some(f.name), f.syms, |n.pending|, f.addr, f.end), 0))
  {
    var bf, ls, ss := [Bf(f.name, f.isStatic, f.addr)], LocalMarks(f.syms), ScopesMarks(f.scopes);
    var c1 := Opening(n, f);
    var c2 := c1.(s := c1.s.(locals := f.syms));
    RunLocals(c1, f.syms);
    assert [] + f.syms == f.syms;
    RunScopes(c2, f.scopes);
    RunThree(c, bf, ls, ss, c1, c2);
    RunConcat(c, bf + ls + ss, [Ef(f.end)]);
    FunctionCloses(n, f, ScopesBlocks(0, f.scopes, count));
  }

  lemma {:induction false} FunctionCloses(n: State, f: CoffFunc, inner: Built)
    requires n.stack == [] && n.locals == []
    ensures var c3 := CoffState(Extend(Opening(n, f).s.(locals := f.syms), inner), 0);
            MarksValid(c3.s) &&
            Run(c3, [Ef(f.end)])
              == Ok(CoffState(Finish(Extend(n, inner), Some(f.name), f.syms, |n.pending|, f.addr, f.end), 0))
  {
    RunOne(CoffState(Extend(Opening(n, f).s.(locals := f.syms), inner), 0), Ef(f.end));
  }

  lemma {:induction false} RunAll(c: CoffState, fs: seq<CoffFunc>)
    requires Outermost(c)
    ensures var r := Run(c, AllMarks(fs));
            r.Ok? && Outermost(r.value) && SameScopes(r.value.s, Extend(c.s, CoffBlocks(fs, c.s.count)))
    decreases |fs|
  {
    if fs == [] {
      assert Reverse<BlockRec>([]) + c.s.pending == c.s.pending;
    } else {
      var f := fs[0];
      var first := Enclose(ScopesBlocks(0, f.scopes, c.s.count), f.addr, f.end, f.syms, Some(f.name));
      RunConcat(c, FuncMarks(f), AllMarks(fs[1..]));
      RunFunction(c, f);
      RunAll(Run(c, FuncMarks(f)).value, fs[1..]);
      ExtendExtend(c.s, first, CoffBlocks(fs[1..], first.next));
    }
  }

  // Symbols that belong to the file or are external may come anywhere, also inside functions.

  /** The two runs fail together, or agree on scopes and the first has the given file-level names. */
  predicate Follows(r: Result<CoffState>, c: Result<CoffState>, files: seq<Symbol>, globals: seq<Symbol>) {
    if r.Ok? then && c.Ok? && SameScopes(r.value.s, c.value.s) && r.value.depth == c.value.depth
                  && r.value.s.files == files && r.value.s.globals == globals
    else c.Err?
  }

  lemma {:induction false} StepCore(c: CoffState, d: CoffState, e: Mark)
    requires MarksValid(c.s) && MarksValid(d.s) && SameScopes(c.s, d.s) && c.depth == d.depth
    ensures Follows(Step(c, e), Step(d, e), c.s.files + FileName(e), c.s.globals + ExternName(e))
  {
    assert c.s.files + [] == c.s.files && c.s.globals + [] == c.s.globals;
    if e.Eb? {
    } else if e.Bf? {
    } else {
    }
  }

  lemma {:induction false} RunHead(c: CoffState, es: seq<Mark>)
    requires MarksValid(c.s) && es != []
    ensures var r := Step(c, es[0]);
            Run(c, es) == if r.Ok? then Run(r.value, es[1..]) else r
  {
  }

  lemma {:induction false} RunCore(c: CoffState, d: CoffState, es: seq<Mark>)
    requires MarksValid(c.s) && MarksValid(d.s) && SameScopes(c.s, d.s) && c.depth == d.depth
    ensures Follows(Run(c, es), Run(d, CoreMarks(es)), c.s.files + FileNames(es), c.s.globals + ExternNames(es))
    decreases |es|
  {
    if es == [] {
      assert c.s.files + [] == c.s.files && c.s.globals + [] == c.s.globals;
    } else {
      var e, rest := es[0], es[1..];
      var r := Step(c, e);
      StepCore(c, d, e);
      RunHead(c, es);
      assert [e] + rest == es;
      Names(c.s.files, e, rest);
      Names(c.s.globals, e, rest);
      if e.CStatic? || e.CGlobal? {
        RunCore(r.value, d, rest);
      } else {
        RunHead(d, CoreMarks(es));
        assert CoreMarks(es)[1..] == CoreMarks(rest);
        if r.Ok? {
          RunCore(r.value, Step(d, e).value, rest);
        }
      }
    }
  }

  lemma {:induction false} Names(before: seq<Symbol>, e: Mark, rest: seq<Mark>)
    ensures before + FileName(e) + FileNames(rest) == before + FileNames([e] + rest)
    ensures before + ExternName(e) + ExternNames(rest) == before + ExternNames([e] + rest)
  {
    assert ([e] + rest)[1..] == rest;
  }

  function CoffVector(start: int, fs: seq<CoffFunc>, files: seq<Symbol>, globals: seq<Symbol>,
                      end: int): (v: seq<BlockRec>) {
    Enclose(Enclose(CoffBlocks(fs, 0), start, end, files, None), start, end, globals, None).blocks
  }

  /** For every COFF source file, however its file-level symbols are interleaved, the vector is the preorder of the
      scope tree behind the global and the file block; a file of nothing has none. */
  lemma {:induction false} CoffBuildsPreorder(start: int, fs: seq<CoffFunc>, es: seq<Mark>, end: int)
    requires CoreMarks(es) == AllMarks(fs)
    ensures ReadCoffFile(start, es, end)
            == Ok(if es == [] then None else Some(CoffVector(start, fs, FileNames(es), ExternNames(es), end)))
  {
    var c := CoffState(Start, 0);
    RunAll(c, fs);
    RunCore(c, c, es);
    var s := Run(c, es).value.s;
    var b := CoffBlocks(fs, 0);
    assert [] + FileNames(es) == FileNames(es) && [] + ExternNames(es) == ExternNames(es);
    assert Reverse(b.blocks) + [] == Reverse(b.blocks);
    CloseFile(start, s, b, end);
    Something(fs, es);
  }

  /** A file with a function in it has blocks, any other mark outside functions is a name. */
  lemma {:induction false} Something(fs: seq<CoffFunc>, es: seq<Mark>)
    requires CoreMarks(es) == AllMarks(fs)
    ensures es == [] <==> CoffBlocks(fs, 0).blocks == [] && FileNames(es) == [] && ExternNames(es) == []
  {
    if fs == [] && es != [] {
      assert es[0].CStatic? || es[0].CGlobal?;
    } else if fs != [] {
      assert AllMarks(fs) != [];
    }
  }

  // ---------------------------------------------------------------------------
  // Looking an address up

  /** Functions one after another between `lo` and `hi`, with their scopes inside. */
  ghost predicate CoffWithin(fs: seq<CoffFunc>, lo: int, hi: int)
    decreases |fs|
  {
    if fs == [] then lo <= hi
    else lo <= fs[0].addr && ScopesWithin(0, fs[0].scopes, fs[0].addr, fs[0].end) && CoffWithin(fs[1..], fs[0].end, hi)
  }

  lemma {:induction false} CoffGood(fs: seq<CoffFunc>, lo: int, hi: int, n: nat)
    requires CoffWithin(fs, lo, hi)
    ensures lo <= hi && Good(CoffBlocks(fs, n), lo, hi, n)
    decreases |fs|
  {
    if fs != [] {
      var f := fs[0];
      var inner := ScopesBlocks(0, f.scopes, n);
      ScopesGood(0, f.scopes, f.addr, f.end, n);
      EncloseGood(inner, f.addr, f.end, n, f.syms, Some(f.name));
      var first := Enclose(inner, f.addr, f.end, f.syms, Some(f.name));
      CoffGood(fs[1..], f.end, hi, first.next);
      NestedWiden(first.blocks, f.addr, f.end, lo, f.end);
      NestedConcat(first.blocks, CoffBlocks(fs[1..], first.next).blocks, lo, f.end, hi);
    }
  }

  /** The vector of any address-ordered COFF file ascends, each block after the one around it, and the last block that
      contains an address is the innermost one. */
  lemma {:induction false} CoffSearchable(start: int, fs: seq<CoffFunc>, es: seq<Mark>, end: int)
    requires CoreMarks(es) == AllMarks(fs) && CoffWithin(fs, start, end) && es != []
    ensures var v := CoffVector(start, fs, FileNames(es), ExternNames(es), end);
            && ReadCoffFile(start, es, end) == Ok(Some(v)) && WellFormedVector(v) && Ascending(v)
            && |v| >= 2 && v[0].syms == ExternNames(es) && v[1].syms == FileNames(es)
            && forall pc: int, b: int ::
                 0 <= b < |v| && Contains(v[b], pc) && (forall i :: b < i < |v| ==> !Contains(v[i], pc)) ==>
                   Innermost(v, pc, b)
  {
    CoffBuildsPreorder(start, fs, es, end);
    CoffGood(fs, start, end, 0);
    var v := CoffVector(start, fs, FileNames(es), ExternNames(es), end);
    RootsWellFormed(CoffBlocks(fs, 0), start, end, FileNames(es), ExternNames(es));
    WellFormedAscending(v);
    forall pc: int, b: int | 0 <= b < |v| && Contains(v[b], pc) && (forall i :: b < i < |v| ==> !Contains(v[i], pc))
      ensures Innermost(v, pc, b)
    {
      LastContainingIsInnermost(v, pc, b);
    }
  }
}
