/** What the symbol reader's block builder computes, stated on values.

    A source file's symbols arrive as a stream of events.  `Step` is the effect of
    one event on the pending-block list and on the context stack; `Run` is the effect
    of a stream.  Apart from that, a source file is a tree of scopes, and
    `VectorOf` says directly what vector of blocks such a tree should give. The theorems
    connect the two for every tree. */
module ScopeModel {
  import opened Common

  type Symbol = nat

  /** A block as the lookup code sees it.  `serial` stands for the block's address and
      `super` for the superblock pointer. */
  datatype BlockRec = BlockRec(
    serial: nat, start: int, end: int, syms: seq<Symbol>, func: Option<Symbol>, super: Option<nat>)

  /** One symbol of the file, after its dbx type has been looked at. */
  datatype Event =
    | Fun(name: Symbol, addr: int, isStatic: bool)
    | LBrac(desc: int, addr: int)
    | RBrac(desc: int, addr: int)
    | Local(sym: Symbol)
    | Static(sym: Symbol)
    | Global(sym: Symbol)

  datatype Error = UnmatchedLBrac | BraceMismatch | NoOpenBrace

  datatype Result<+T> = Ok(value: T) | Err(error: Error)

  /** An open lexical context.  `mark` is the length of the pending-block list when the
      context was opened: the saved list head is the suffix of that length. */
  datatype Context = Context(name: Option<Symbol>, locals: seq<Symbol>, mark: nat, start: int, depth: int)

  datatype State = State(
    pending: seq<BlockRec>, stack: seq<Context>,
    locals: seq<Symbol>, files: seq<Symbol>, globals: seq<Symbol>, count: nat)

  /** Every saved list head is still a suffix of the pending list. */
  predicate MarksValid(s: State) {
    forall i :: 0 <= i < |s.stack| ==> s.stack[i].mark <= |s.pending|
  }

  /** Make the block numbered `serial` the superblock of every block that has none. */
  function Adopt(bs: seq<BlockRec>, serial: nat): (r: seq<BlockRec>)
    ensures |r| == |bs|
  {
    seq(|bs|, i requires 0 <= i < |bs| =>
      if bs[i].super == None then bs[i].(super := Some(serial)) else bs[i])
  }

  /** Close a block: it adopts the orphans made since `mark` and goes after them. */
  function Finish(s: State, name: Option<Symbol>, syms: seq<Symbol>, mark: nat, start: int, end: int): (r: State)
    requires mark <= |s.pending|
    ensures |r.pending| == |s.pending| + 1
  {
    var k := |s.pending| - mark;
    s.(pending := Adopt(s.pending[..k], s.count)
                  + [BlockRec(s.count, start, end, syms, name, None)]
                  + s.pending[k..],
       count := s.count + 1)
  }

  /** Open a function when no other is open. */
  function OpenFun(s: State, name: Symbol, addr: int, isStatic: bool): (r: State) {
    s.(stack := [Context(Some(name), [], |s.pending|, addr, 0)],
       locals := [],
       files := if isStatic then s.files + [name] else s.files,
       globals := if isStatic then s.globals else s.globals + [name])
  }

  /** The effect of one symbol.  `base` is the start address of the source file, to
      which brace addresses are relative. */
  function Step(base: int, s: State, e: Event): (r: Result<State>)
    requires MarksValid(s)
    ensures r.Ok? ==> MarksValid(r.value)
  {
    match e
    case Fun(name, addr, isStatic) =>
      var d := |s.stack|;
      if d > 1 then Err(UnmatchedLBrac)
      else
        var s1 := if d == 0 then s
                  else Finish(s, s.stack[0].name, s.locals, s.stack[0].mark, s.stack[0].start, addr);
        Ok(OpenFun(s1, name, addr, isStatic))
    case LBrac(desc, addr) =>
      Ok(s.(stack := s.stack + [Context(None, s.locals, |s.pending|, addr, desc)], locals := []))
    case RBrac(desc, addr) =>
      if s.stack == [] || s.stack[|s.stack| - 1].name.Some? then Err(NoOpenBrace)
      else
        var top := s.stack[|s.stack| - 1];
        var s1 := s.(stack := s.stack[..|s.stack| - 1], locals := top.locals);
        if desc != top.depth then Err(BraceMismatch)
        else if top.locals != [] && |s1.stack| > 1 then
          Ok(Finish(s1, None, top.locals, top.mark, Min(top.start, addr) + base, addr + base).(locals := []))
        else Ok(s1)
    case Local(sym) => Ok(s.(locals := s.locals + [sym]))
    case Static(sym) => Ok(s.(files := s.files + [sym]))
    case Global(sym) => Ok(s.(globals := s.globals + [sym]))
  }

  function Run(base: int, s: State, es: seq<Event>): (r: Result<State>)
    requires MarksValid(s)
    ensures r.Ok? ==> MarksValid(r.value)
    decreases |es|
  {
    if es == [] then Ok(s)
    else
      match Step(base, s, es[0])
      case Err(x) => Err(x)
      case Ok(s1) => Run(base, s1, es[1..])
  }

  const Start := State([], [], [], [], [], 0)

  /** Close the innermost context, if any, and forget the others. */
  function CloseLast(s: State, end: int): (r: State)
    requires MarksValid(s)
  {
    var d := |s.stack|;
    if d == 0 then s
    else Finish(s, s.stack[d - 1].name, s.locals, s.stack[d - 1].mark, s.stack[d - 1].start, end)
         .(stack := [], locals := [])
  }

  /** Close the last function, the file block and the global block. */
  function EndFile(base: int, s: State, end: int): (r: State)
    requires MarksValid(s)
  {
    var s1 := CloseLast(s, end);
    var s2 := Finish(s1, None, s1.files, 0, base, end).(files := []);
    Finish(s2, None, s2.globals, 0, base, end).(globals := [])
  }

  /** The vector of blocks the reader builds from a file's events. */
  function ReadFile(base: int, es: seq<Event>, end: int): (r: Result<seq<BlockRec>>) {
    match Run(base, Start, es)
    case Err(x) => Err(x)
    case Ok(s) => Ok(Reverse(EndFile(base, s, end).pending))
  }

  // ---------------------------------------------------------------------------
  // Scope trees

  /** A brace pair and the variables declared for it, which precede it in the stream. */
  datatype Scope = Scope(desc: int, syms: seq<Symbol>, start: int, end: int, kids: seq<Scope>)

  datatype Body = NoBraces | Braces(desc: int, start: int, end: int, kids: seq<Scope>)

  datatype Func = Func(name: Symbol, isStatic: bool, addr: int, syms: seq<Symbol>, body: Body)

  function LocalEvents(syms: seq<Symbol>): (es: seq<Event>) {
    if syms == [] then [] else [Local(syms[0])] + LocalEvents(syms[1..])
  }

  function ScopeEvents(sc: Scope): (es: seq<Event>)
    decreases sc
  {
    LocalEvents(sc.syms) + [LBrac(sc.desc, sc.start)] + ScopesEvents(sc.kids) + [RBrac(sc.desc, sc.end)]
  }

  function ScopesEvents(scs: seq<Scope>): (es: seq<Event>)
    decreases scs
  {
    if scs == [] then [] else ScopeEvents(scs[0]) + ScopesEvents(scs[1..])
  }

  function BodyEvents(b: Body): (es: seq<Event>) {
    match b
    case NoBraces => []
    case Braces(desc, start, end, kids) => [LBrac(desc, start)] + ScopesEvents(kids) + [RBrac(desc, end)]
  }

  function FuncEvents(f: Func): (es: seq<Event>) {
    [Fun(f.name, f.addr, f.isStatic)] + LocalEvents(f.syms) + BodyEvents(f.body)
  }

  function FuncsEvents(fs: seq<Func>): (es: seq<Event>) {
    if fs == [] then [] else FuncEvents(fs[0]) + FuncsEvents(fs[1..])
  }

  /** Some blocks in preorder and the next free serial number. */
  datatype Built = Built(blocks: seq<BlockRec>, next: nat)

  /** An enclosing block in front of the blocks it encloses. */
  function Enclose(b: Built, start: int, end: int, syms: seq<Symbol>, func: Option<Symbol>): (r: Built) {
    Built([BlockRec(b.next, start, end, syms, func, None)] + Adopt(b.blocks, b.next), b.next + 1)
  }

  /** The blocks of a scope in preorder.  A scope without variables has no block of its own. */
  function ScopeBlocks(base: int, sc: Scope, n: nat): (r: Built)
    decreases sc
  {
    var inner := ScopesBlocks(base, sc.kids, n);
    if sc.syms == [] then inner else Enclose(inner, sc.start + base, sc.end + base, sc.syms, None)
  }

  function ScopesBlocks(base: int, scs: seq<Scope>, n: nat): (r: Built)
    decreases scs
  {
    if scs == [] then Built([], n)
    else
      var first := ScopeBlocks(base, scs[0], n);
      var rest := ScopesBlocks(base, scs[1..], first.next);
      Built(first.blocks + rest.blocks, rest.next)
  }

  /** A pair that closes below where it opened starts where it closed. */
  function Straight(sc: Scope): (r: Scope)
    decreases sc
  {
    Scope(sc.desc, sc.syms, Min(sc.start, sc.end), sc.end, StraightAll(sc.kids))
  }

  function StraightAll(scs: seq<Scope>): (r: seq<Scope>)
    decreases scs
  {
    if scs == [] then [] else [Straight(scs[0])] + StraightAll(scs[1..])
  }

  function StraightFunc(f: Func): (r: Func) {
    if f.body.NoBraces? then f else f.(body := f.body.(kids := StraightAll(f.body.kids)))
  }

  function StraightFuncs(fs: seq<Func>): (r: seq<Func>)
    ensures |r| == |fs| && (fs != [] ==> r[0].addr == fs[0].addr)
    decreases |fs|
  {
    if fs == [] then [] else [StraightFunc(fs[0])] + StraightFuncs(fs[1..])
  }

  function Kids(b: Body): (r: seq<Scope>) {
    if b.NoBraces? then [] else b.kids
  }

  /** A function ends where the next one starts, the last one at the end of the file. */
  function FuncEnd(fs: seq<Func>, end: int): (r: int)
    requires fs != []
  {
    if |fs| == 1 then end else fs[1].addr
  }

  function FuncsBlocks(base: int, fs: seq<Func>, end: int, n: nat): (r: Built) {
    if fs == [] then Built([], n)
    else
      var f := fs[0];
      var first := Enclose(ScopesBlocks(base, Kids(f.body), n), f.addr, FuncEnd(fs, end), f.syms, Some(f.name));
      var rest := FuncsBlocks(base, fs[1..], end, first.next);
      Built(first.blocks + rest.blocks, rest.next)
  }

  /** The global block, the file block, then the functions and their scopes in preorder. */
  function VectorOf(base: int, fs: seq<Func>, files: seq<Symbol>, globals: seq<Symbol>, end: int): (v: seq<BlockRec>) {
    Enclose(Enclose(FuncsBlocks(base, fs, end, 0), base, end, files, None), base, end, globals, None).blocks
  }

  // ---------------------------------------------------------------------------
  // The builder computes the preorder of the scope tree

  lemma {:induction false} RunConcat(base: int, s: State, a: seq<Event>, b: seq<Event>)
    requires MarksValid(s)
    ensures Run(base, s, a + b) ==
            match Run(base, s, a) { case Err(x) => Err(x) case Ok(s1) => Run(base, s1, b) }
    decreases |a|
  {
    if a == [] {
      assert a + b == b;
    } else {
      assert (a + b)[0] == a[0] && (a + b)[1..] == a[1..] + b;
      if Step(base, s, a[0]).Ok? {
        RunConcat(base, Step(base, s, a[0]).value, a[1..], b);
      }
    }
  }

  lemma {:induction false} RunOne(base: int, s: State, e: Event)
    requires MarksValid(s)
    ensures Run(base, s, [e]) == Step(base, s, e)
  {
    if Step(base, s, e).Ok? {
      assert Run(base, Step(base, s, e).value, [e][1..]) == Step(base, s, e);
    }
  }

  lemma {:induction false} RunHead(base: int, s: State, es: seq<Event>)
    requires MarksValid(s) && es != []
    ensures var r := Step(base, s, es[0]);
            Run(base, s, es) == if r.Ok? then Run(base, r.value, es[1..]) else r
  {
  }

  lemma {:induction false} RunLocals(base: int, s: State, syms: seq<Symbol>)
    requires MarksValid(s)
    ensures Run(base, s, LocalEvents(syms)) == Ok(s.(locals := s.locals + syms))
    decreases |syms|
  {
    if syms == [] {
      assert s.locals + syms == s.locals;
    } else {
      var s1 := s.(locals := s.locals + [syms[0]]);
      RunConcat(base, s, [Local(syms[0])], LocalEvents(syms[1..]));
      RunOne(base, s, Local(syms[0]));
      RunLocals(base, s1, syms[1..]);
      assert s.locals + [syms[0]] + syms[1..] == s.locals + syms;
    }
  }

  /** The state after the blocks `b` have been added in front of those of `s`. */
  function Extend(s: State, b: Built): (r: State) {
    s.(pending := Reverse(b.blocks) + s.pending, count := b.next)
  }

  /** Closing a block over the blocks made since `mark` puts it in front of them in preorder. */
  lemma {:induction false} FinishEncloses(s: State, b: Built, name: Option<Symbol>, syms: seq<Symbol>, start: int,
                                          end: int)
    ensures Finish(Extend(s, b), name, syms, |s.pending|, start, end)
         == Extend(s, Enclose(b, start, end, syms, name))
  {
    var e := Extend(s, b);
    assert e.pending[..|b.blocks|] == Reverse(b.blocks);
    assert e.pending[|b.blocks|..] == s.pending;
    var rec := BlockRec(b.next, start, end, syms, name, None);
    assert Adopt(Reverse(b.blocks), b.next) == Reverse(Adopt(b.blocks, b.next));
    ReverseConcat([rec], Adopt(b.blocks, b.next));
    assert Reverse([rec]) == [rec];
  }

  lemma {:induction false} ExtendExtend(s: State, a: Built, b: Built)
    ensures Extend(Extend(s, a), b) == Extend(s, Built(a.blocks + b.blocks, b.next))
  {
    ReverseConcat(a.blocks, b.blocks);
  }

  /** A scope inside a function adds exactly its blocks, whatever is on the list and the stack. */
  lemma {:induction false} RunScope(base: int, s: State, sc: Scope)
    requires MarksValid(s) && |s.stack| >= 2 && s.locals == []
    ensures Run(base, s, ScopeEvents(sc)) == Ok(Extend(s, ScopeBlocks(base, Straight(sc), s.count)))
    decreases sc
  {
    var l, lb, k, rb := LocalEvents(sc.syms), [LBrac(sc.desc, sc.start)], ScopesEvents(sc.kids),
      [RBrac(sc.desc, sc.end)];
    RunConcat(base, s, l + lb + k, rb);
    RunConcat(base, s, l + lb, k);
    RunConcat(base, s, l, lb);
    RunLocals(base, s, sc.syms);
    assert [] + sc.syms == sc.syms;
    var s1 := s.(locals := sc.syms);
    RunOne(base, s1, lb[0]);
    var ctx := Context(None, sc.syms, |s.pending|, sc.start, sc.desc);
    var s2 := s.(stack := s.stack + [ctx]);
    assert Run(base, s1, lb) == Ok(s2);
    RunScopes(base, s2, sc.kids);
    var inner := ScopesBlocks(base, StraightAll(sc.kids), s.count);
    var s3 := Extend(s2, inner);
    RunOne(base, s3, rb[0]);
    ScopeCloses(base, s, sc, ctx, inner);
  }

  /** The closing brace makes the scope's block, if it has variables, over the blocks made within. */
  lemma {:induction false} ScopeCloses(base: int, s: State, sc: Scope, ctx: Context, inner: Built)
    requires MarksValid(s) && |s.stack| >= 2 && s.locals == []
             && ctx == Context(None, sc.syms, |s.pending|, sc.start, sc.desc)
    requires inner == ScopesBlocks(base, StraightAll(sc.kids), s.count)
    ensures var s3 := Extend(s.(stack := s.stack + [ctx]), inner);
            MarksValid(s3)
              && Step(base, s3, RBrac(sc.desc, sc.end)) == Ok(Extend(s, ScopeBlocks(base, Straight(sc), s.count)))
  {
    var from, to := Min(sc.start, sc.end) + base, sc.end + base;
    StraightBlocks(base, sc, s.count);
    BraceCloses(base, s, ctx, sc.desc, sc.end, inner);
    if sc.syms != [] {
      FinishEncloses(s, inner, None, sc.syms, from, to);
      FinishFrame(Extend(s, inner), sc.syms, None, sc.syms, |s.pending|, from, to);
    }
  }

  lemma {:induction false} StraightBlocks(base: int, sc: Scope, n: nat)
    ensures var inner := ScopesBlocks(base, StraightAll(sc.kids), n);
            ScopeBlocks(base, Straight(sc), n)
            == if sc.syms == [] then inner
              else Enclose(inner, Min(sc.start, sc.end) + base, sc.end + base, sc.syms, None)
  {
  }

  lemma {:induction false} BraceCloses(base: int, s: State, ctx: Context, desc: int, end: int, inner: Built)
    requires MarksValid(s) && |s.stack| >= 2 && s.locals == [] && ctx.name == None && ctx.depth == desc
             && ctx.mark == |s.pending|
    ensures var s1 := Extend(s, inner).(locals := ctx.locals);
            var s3 := Extend(s.(stack := s.stack + [ctx]), inner);
            && MarksValid(s3)
            && Step(base, s3, RBrac(desc, end))
               == Ok(if ctx.locals == [] then s1
                     else Finish(s1, None, ctx.locals, ctx.mark, Min(ctx.start, end) + base, end + base).(locals := []))
  {
    assert (s.stack + [ctx])[..|s.stack|] == s.stack;
  }

  /** Closing a block neither reads nor changes the current symbol list. */
  lemma {:induction false} FinishFrame(s: State, locals: seq<Symbol>, name: Option<Symbol>, syms: seq<Symbol>,
                                       mark: nat, start: int, end: int)
    requires mark <= |s.pending|
    ensures Finish(s.(locals := locals), name, syms, mark, start, end)
         == Finish(s, name, syms, mark, start, end).(locals := locals)
  {
  }

  lemma {:induction false} RunScopes(base: int, s: State, scs: seq<Scope>)
    requires MarksValid(s) && |s.stack| >= 2 && s.locals == []
    ensures Run(base, s, ScopesEvents(scs)) == Ok(Extend(s, ScopesBlocks(base, StraightAll(scs), s.count)))
    decreases scs
  {
    if scs == [] {
      assert Reverse<BlockRec>([]) + s.pending == s.pending;
    } else {
      var rest := StraightAll(scs[1..]);
      var first := ScopeBlocks(base, Straight(scs[0]), s.count);
      RunConcat(base, s, ScopeEvents(scs[0]), ScopesEvents(scs[1..]));
      RunScope(base, s, scs[0]);
      RunScopes(base, Extend(s, first), scs[1..]);
      ExtendExtend(s, first, ScopesBlocks(base, rest, first.next));
      assert StraightAll(scs)[1..] == rest;
    }
  }

  /** Close the open function, if there is one, at address `end`. */
  function Close(s: State, end: int): (r: State)
    requires MarksValid(s) && |s.stack| <= 1
    ensures MarksValid(r)
  {
    if s.stack == [] then s.(locals := [])
    else Finish(s, s.stack[0].name, s.locals, s.stack[0].mark, s.stack[0].start, end).(stack := [], locals := [])
  }

  function AddName(s: State, f: Func): (r: State) {
    if f.isStatic then s.(files := s.files + [f.name]) else s.(globals := s.globals + [f.name])
  }

  function AddNames(s: State, fs: seq<Func>): (r: State)
    decreases |fs|
  {
    if fs == [] then s else AddNames(AddName(s, fs[0]), fs[1..])
  }

  /** The state when all the events of a function have been read and it is still open. */
  function Opened(base: int, s: State, f: Func): (r: State)
    requires MarksValid(s) && |s.stack| <= 1
  {
    var c := AddName(Close(s, f.addr), f);
    Extend(c, ScopesBlocks(base, Kids(f.body), c.count))
    .(stack := [Context(Some(f.name), [], |c.pending|, f.addr, 0)], locals := f.syms)
  }

  /** The braces of a function add its scopes' blocks and leave its variables for the function. */
  lemma {:induction false} RunBody(base: int, s: State, b: Body)
    requires MarksValid(s) && |s.stack| == 1
    ensures Run(base, s, BodyEvents(b)) == Ok(Extend(s, ScopesBlocks(base, StraightAll(Kids(b)), s.count)))
  {
    match b
    case NoBraces =>
      assert Reverse<BlockRec>([]) + s.pending == s.pending;
    case Braces(desc, start, end, kids) =>
      var brace := Context(None, s.locals, |s.pending|, start, desc);
      var lb, k, rb := [LBrac(desc, start)], ScopesEvents(kids), [RBrac(desc, end)];
      RunConcat(base, s, lb + k, rb);
      RunConcat(base, s, lb, k);
      RunOne(base, s, lb[0]);
      var s1 := s.(stack := s.stack + [brace], locals := []);
      RunScopes(base, s1, kids);
      RunOne(base, Extend(s1, ScopesBlocks(base, StraightAll(kids), s.count)), rb[0]);
      assert (s.stack + [brace])[..1] == s.stack;
  }

  lemma {:induction false} RunFunc(base: int, s: State, f: Func)
    requires MarksValid(s) && |s.stack| <= 1
    ensures MarksValid(Opened(base, s, StraightFunc(f)))
    ensures Run(base, s, FuncEvents(f)) == Ok(Opened(base, s, StraightFunc(f)))
  {
    var fn := [Fun(f.name, f.addr, f.isStatic)];
    RunConcat(base, s, fn + LocalEvents(f.syms), BodyEvents(f.body));
    RunConcat(base, s, fn, LocalEvents(f.syms));
    RunOne(base, s, fn[0]);
    var c := AddName(Close(s, f.addr), f);
    var s1 := c.(stack := [Context(Some(f.name), [], |c.pending|, f.addr, 0)]);
    assert Step(base, s, fn[0]) == Ok(s1);
    RunLocals(base, s1, f.syms);
    assert [] + f.syms == f.syms;
    RunBody(base, s1.(locals := f.syms), f.body);
  }

  function FirstAddr(fs: seq<Func>, end: int): (r: int) {
    if fs == [] then end else fs[0].addr
  }

  lemma {:induction false} RunFuncs(base: int, s: State, fs: seq<Func>, end: int)
    requires MarksValid(s) && |s.stack| <= 1
    ensures Run(base, s, FuncsEvents(fs)).Ok?
    ensures var r := Run(base, s, FuncsEvents(fs)).value;
            && |r.stack| <= 1
            && Close(r, end) == AddNames(Extend(Close(s, FirstAddr(fs, end)),
                                                FuncsBlocks(base, StraightFuncs(fs), end,
                                                            Close(s, FirstAddr(fs, end)).count)), fs)
    decreases |fs|
  {
    if fs == [] {
      var c := Close(s, end);
      assert Reverse<BlockRec>([]) + c.pending == c.pending;
    } else {
      var f := fs[0];
      RunConcat(base, s, FuncEvents(f), FuncsEvents(fs[1..]));
      RunFunc(base, s, f);
      var g, gs := StraightFunc(f), StraightFuncs(fs[1..]);
      var o := Opened(base, s, g);
      RunFuncs(base, o, fs[1..], end);
      var c := Close(s, f.addr);
      var inner := ScopesBlocks(base, Kids(g.body), c.count);
      assert StraightFuncs(fs)[1..] == gs && |gs| == |fs[1..]| && FuncEnd(StraightFuncs(fs), end) == FuncEnd(fs, end);
      var first := Enclose(inner, f.addr, FuncEnd(fs, end), f.syms, Some(f.name));
      FinishEncloses(c, inner, Some(f.name), f.syms, f.addr, FuncEnd(fs, end));
      assert Close(o, FuncEnd(fs, end)) == AddName(Extend(c, first), f);
      var rest := FuncsBlocks(base, gs, end, first.next);
      ExtendExtend(c, first, rest);
    }
  }

  // Symbols that belong to the file or are global may come anywhere in the stream.

  predicate IsFileLevel(e: Event) { e.Static? || e.Global? }

  /** The events that open, fill or close lexical contexts. */
  function Core(es: seq<Event>): (r: seq<Event>) {
    if es == [] then []
    else if IsFileLevel(es[0]) then Core(es[1..])
    else [es[0]] + Core(es[1..])
  }

  /** The name an event adds to the file's own list, or to the global list. */
  function StaticName(e: Event): (r: seq<Symbol>) {
    if e.Static? then [e.sym] else if e.Fun? && e.isStatic then [e.name] else []
  }

  function GlobalName(e: Event): (r: seq<Symbol>) {
    if e.Global? then [e.sym] else if e.Fun? && !e.isStatic then [e.name] else []
  }

  function StaticNames(es: seq<Event>): (r: seq<Symbol>) {
    if es == [] then [] else StaticName(es[0]) + StaticNames(es[1..])
  }

  function GlobalNames(es: seq<Event>): (r: seq<Symbol>) {
    if es == [] then [] else GlobalName(es[0]) + GlobalNames(es[1..])
  }

  predicate SameScopes(s: State, t: State) {
    s.(files := t.files, globals := t.globals) == t
  }

  /** `r` and `c` fail together, or agree on scopes and `r` has the given file-level names. */
  predicate Tracks(r: Result<State>, c: Result<State>, files: seq<Symbol>, globals: seq<Symbol>) {
    if r.Ok? then c.Ok? && SameScopes(r.value, c.value) && r.value.files == files && r.value.globals == globals
    else c.Err?
  }

  lemma {:induction false} StepCore(base: int, s: State, t: State, e: Event)
    requires MarksValid(s) && MarksValid(t) && SameScopes(s, t)
    ensures Tracks(Step(base, s, e), Step(base, t, e), s.files + StaticName(e), s.globals + GlobalName(e))
  {
    assert s.files + [] == s.files && s.globals + [] == s.globals;
    if e.RBrac? {
    } else if e.Fun? {
    } else {
    }
  }

  lemma {:induction false} RunCore(base: int, s: State, t: State, es: seq<Event>)
    requires MarksValid(s) && MarksValid(t) && SameScopes(s, t)
    ensures Tracks(Run(base, s, es), Run(base, t, Core(es)), s.files + StaticNames(es), s.globals + GlobalNames(es))
    decreases |es|
  {
    if es == [] {
      assert s.files + [] == s.files && s.globals + [] == s.globals;
    } else {
      var e, rest := es[0], es[1..];
      StepCore(base, s, t, e);
      RunHead(base, s, es);
      assert s.files + StaticName(e) + StaticNames(rest) == s.files + StaticNames(es);
      assert s.globals + GlobalName(e) + GlobalNames(rest) == s.globals + GlobalNames(es);
      var r, c := Step(base, s, e), Step(base, t, e);
      if IsFileLevel(e) {
        RunCore(base, r.value, t, rest);
      } else {
        RunHead(base, t, Core(es));
        assert Core(es)[1..] == Core(rest);
        if r.Ok? {
          RunCore(base, r.value, c.value, rest);
        }
      }
    }
  }

  lemma {:induction false} AddNamesScopes(s: State, fs: seq<Func>)
    ensures SameScopes(AddNames(s, fs), s)
    decreases |fs|
  {
    if fs != [] {
      AddNamesScopes(AddName(s, fs[0]), fs[1..]);
    }
  }

  /** Closing a block over the whole list. */
  lemma {:induction false} FinishAll(s: State, b: Built, syms: seq<Symbol>, start: int, end: int)
    requires s.pending == Reverse(b.blocks) && s.count == b.next
    ensures var r, e := Finish(s, None, syms, 0, start, end), Enclose(b, start, end, syms, None);
            r.pending == Reverse(e.blocks) && r.count == e.next
  {
    var s0 := s.(pending := [], count := 0);
    assert Reverse(b.blocks) + [] == Reverse(b.blocks);
    FinishEncloses(s0, b, None, syms, start, end);
    assert Extend(s0, b) == s;
    var e := Enclose(b, start, end, syms, None);
    assert Reverse(e.blocks) + [] == Reverse(e.blocks);
  }

  lemma {:induction false} CloseFile(base: int, s: State, b: Built, end: int)
    requires MarksValid(s) && |s.stack| <= 1
    requires Close(s, end).pending == Reverse(b.blocks) && Close(s, end).count == b.next
    ensures Reverse(EndFile(base, s, end).pending)
         == Enclose(Enclose(b, base, end, s.files, None), base, end, s.globals, None).blocks
  {
    var s1 := CloseLast(s, end);
    FinishAll(s1, b, s1.files, base, end);
    var s2 := Finish(s1, None, s1.files, 0, base, end).(files := []);
    var e := Enclose(b, base, end, s1.files, None);
    FinishAll(s2, e, s2.globals, base, end);
    ReverseReverse(Enclose(e, base, end, s2.globals, None).blocks);
  }

  /** For every source file, however its file-level symbols are interleaved, the reader
      succeeds and its vector is the preorder of the scope tree with the right superblocks. */
  lemma {:induction false} ReaderBuildsPreorder(base: int, fs: seq<Func>, es: seq<Event>, end: int)
    requires Core(es) == FuncsEvents(fs)
    ensures ReadFile(base, es, end) == Ok(VectorOf(base, StraightFuncs(fs), StaticNames(es), GlobalNames(es), end))
  {
    RunFuncs(base, Start, fs, end);
    RunCore(base, Start, Start, es);
    assert [] + StaticNames(es) == StaticNames(es) && [] + GlobalNames(es) == GlobalNames(es);
    var s, c := Run(base, Start, es).value, Run(base, Start, Core(es)).value;
    var b := FuncsBlocks(base, StraightFuncs(fs), end, 0);
    var x := Extend(Start, b);
    AddNamesScopes(x, fs);
    assert Reverse(b.blocks) + [] == Reverse(b.blocks);
    CloseSame(s, c, end);
    CloseFile(base, s, b, end);
  }

  lemma {:induction false} CloseSame(s: State, t: State, end: int)
    requires MarksValid(s) && MarksValid(t) && |s.stack| <= 1 && SameScopes(s, t)
    ensures Close(s, end).pending == Close(t, end).pending && Close(s, end).count == Close(t, end).count
  {
  }
}
