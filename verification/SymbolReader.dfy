/** The block builder of the dbx symbol reader, on its linked lists.

    The pending blocks are a linked list; an open context saves the list head as a bare
    pointer, and closing the context splices the new block in front of whatever that pointer
    reaches. `Abs` reads the linked state as a `ScopeModel.State`. */
module SymbolReader {
  import opened Common
  import opened ScopeModel

  const PENDING_SIZE := 100

  /** A symbol list: links of at most PENDING_SIZE symbols, the newest link first. */
  type SymbolList = seq<seq<Symbol>>

  ghost predicate ListValid(l: SymbolList) {
    forall i :: 0 <= i < |l| ==> 0 < |l[i]| <= PENDING_SIZE
  }

  /** The symbols of a list in the order they were added. */
  ghost function Symbols(l: SymbolList): (r: seq<Symbol>) {
    if l == [] then [] else Symbols(l[1..]) + l[0]
  }

  /** add_symbol_to_list */
  function AddSymbol(sym: Symbol, l: SymbolList): (r: SymbolList)
    requires ListValid(l)
    ensures ListValid(r) && Symbols(r) == Symbols(l) + [sym]
  {
    if l == [] || |l[0]| == PENDING_SIZE then
      assert ([[sym]] + l)[1..] == l;
      [[sym]] + l
    else
      var r := [l[0] + [sym]] + l[1..];
      assert r[1..] == l[1..];
      r
  }

  class Block {
    const serial: nat
    const start: int
    const end: int
    const syms: seq<Symbol>
    const func: Option<Symbol>
    var superblock: Block?

    constructor (serial: nat, start: int, end: int, syms: seq<Symbol>, func: Option<Symbol>)
      ensures this.serial == serial && this.start == start && this.end == end
      ensures this.syms == syms && this.func == func && superblock == null
    {
      this.serial, this.start, this.end, this.syms, this.func := serial, start, end, syms, func;
      superblock := null;
    }

    ghost function Rec(): (r: BlockRec)
      reads this
    {
      BlockRec(serial, start, end, syms, func, if superblock == null then None else Some(superblock.serial))
    }
  }

  class PendingBlock {
    const block: Block
    var next: PendingBlock?

    constructor (block: Block, next: PendingBlock?)
      ensures this.block == block && this.next == next
    {
      this.block, this.next := block, next;
    }
  }

  /** Copy one link of a symbol list in front of what has been copied, last symbol first. */
  method CopyLink(link: seq<Symbol>, copied: seq<Symbol>) returns (syms: seq<Symbol>)
    ensures syms == link + copied
  {
    syms := copied;
    var j := |link| - 1;
    while j >= 0
      invariant -1 <= j < |link|
      invariant syms == link[j + 1..] + copied
    {
      syms := [link[j]] + syms;
      j := j - 1;
    }
  }

  /** Copy a symbol list into a block's vector, filling it from the end. */
  method CopySymbols(l: SymbolList) returns (syms: seq<Symbol>)
    ensures syms == Symbols(l)
  {
    syms := [];
    var next := l;
    while next != []
      invariant Symbols(next) + syms == Symbols(l)
      decreases |next|
    {
      ghost var before := syms;
      syms := CopyLink(next[0], syms);
      assert Symbols(next) + before == Symbols(next[1..]) + syms;
      next := next[1..];
    }
  }

  /** The node at position `i` of the list, null at its end. */
  ghost function NodeAt(nodes: seq<PendingBlock>, i: int): (r: PendingBlock?)
    requires 0 <= i <= |nodes|
  {
    if i == |nodes| then null else nodes[i]
  }

  /** `head` is a linked list of the given distinct nodes, which hold distinct blocks. */
  ghost predicate Shape(head: PendingBlock?, nodes: seq<PendingBlock>)
    reads nodes
  {
    && head == NodeAt(nodes, 0)
    && (forall i {:trigger nodes[i].next} :: 0 <= i < |nodes| ==> nodes[i].next == NodeAt(nodes, i + 1))
    && Distinct(nodes)
  }

  ghost predicate Distinct(nodes: seq<PendingBlock>) {
    && (forall i, j :: 0 <= i < j < |nodes| ==> nodes[i] != nodes[j])
    && (forall i, j :: 0 <= i < j < |nodes| ==> nodes[i].block != nodes[j].block)
  }

  ghost predicate Holds(nodes: seq<PendingBlock>, bs: set<Block>) {
    forall i :: 0 <= i < |nodes| ==> nodes[i].block in bs
  }

  /** From position `k` on, the blocks of the nodes are the given ones. */
  ghost predicate Content(nodes: seq<PendingBlock>, bs: set<Block>, recs: seq<BlockRec>, k: nat)
    reads bs
  {
    Holds(nodes, bs) && |nodes| == |recs| && forall i :: k <= i < |nodes| ==> nodes[i].block.Rec() == recs[i]
  }

  /** Before position `k`, the blocks are the given ones with orphans adopted. */
  ghost predicate Adopted(nodes: seq<PendingBlock>, bs: set<Block>, recs: seq<BlockRec>, k: nat, serial: nat)
    reads bs
  {
    && Holds(nodes, bs) && k <= |nodes| == |recs|
    && forall i :: 0 <= i < k ==>
         nodes[i].block.Rec() == if recs[i].super == None then recs[i].(super := Some(serial)) else recs[i]
  }

  /** Install `block` as the superblock of the blocks in front of `oldBlocks` that have none; return
      the last node visited. */
  method AdoptOrphans(head: PendingBlock?, block: Block, oldBlocks: PendingBlock?,
                      ghost nodes: seq<PendingBlock>, ghost bs: set<Block>, ghost recs: seq<BlockRec>, ghost k: nat)
    returns (opblock: PendingBlock?)
    requires Shape(head, nodes) && Content(nodes, bs, recs, 0)
    requires k <= |nodes| && oldBlocks == NodeAt(nodes, k)
    modifies bs
    ensures opblock == if k == 0 then null else nodes[k - 1]
    ensures Adopted(nodes, bs, recs, k, block.serial) && Content(nodes, bs, recs, k)
  {
    ghost var n := 0;
    opblock := null;
    var pblock := head;
    while pblock != oldBlocks
      invariant 0 <= n <= k
      invariant pblock == NodeAt(nodes, n)
      invariant opblock == if n == 0 then null else nodes[n - 1]
      invariant Adopted(nodes, bs, recs, n, block.serial) && Content(nodes, bs, recs, n)
      decreases k - n
    {
      var b := pblock.block;
      assert b.Rec() == recs[n];
      assert forall i :: 0 <= i < |nodes| && i != n ==> nodes[i].block != b;
      if b.superblock == null {
        b.superblock := block;
      }
      opblock := pblock;
      pblock := pblock.next;
      n := n + 1;
    }
  }

  ghost function Insert(nodes: seq<PendingBlock>, k: nat, node: PendingBlock): (r: seq<PendingBlock>)
    requires k <= |nodes|
    ensures |r| == |nodes| + 1 && r[k] == node
    ensures forall i :: 0 <= i < k ==> r[i] == nodes[i]
    ensures forall i :: k < i < |r| ==> r[i] == nodes[i - 1]
  {
    nodes[..k] + [node] + nodes[k..]
  }

  ghost predicate FreshBlock(nodes: seq<PendingBlock>, b: Block) {
    forall i :: 0 <= i < |nodes| ==> nodes[i].block != b
  }

  lemma InsertDistinct(nodes: seq<PendingBlock>, k: nat, node: PendingBlock)
    requires Distinct(nodes) && k <= |nodes| && node !in nodes && FreshBlock(nodes, node.block)
    ensures Distinct(Insert(nodes, k, node))
  {
    var r := Insert(nodes, k, node);
    forall i, j | 0 <= i < j < |r| ensures r[i] != r[j] && r[i].block != r[j].block {
      if i != k && j != k {
        var a, b := if i < k then i else i - 1, if j < k then j else j - 1;
        assert r[i] == nodes[a] && r[j] == nodes[b] && a < b;
      }
    }
  }

  /** Link a new node after `opblock`, or at the head when that is null. */
  method Splice(head: PendingBlock?, node: PendingBlock, opblock: PendingBlock?,
                ghost nodes: seq<PendingBlock>, ghost k: nat)
    returns (newHead: PendingBlock?)
    requires Shape(head, nodes) && k <= |nodes|
    requires opblock == if k == 0 then null else nodes[k - 1]
    requires node !in nodes && FreshBlock(nodes, node.block)
    modifies node, nodes
    ensures Shape(newHead, Insert(nodes, k, node))
  {
    newHead := head;
    if opblock != null {
      node.next := opblock.next;
      opblock.next := node;
    } else {
      node.next := head;
      newHead := node;
    }
    ghost var r := Insert(nodes, k, node);
    InsertDistinct(nodes, k, node);
    forall i | 0 <= i < |r| ensures r[i].next == NodeAt(r, i + 1) {
      if i < k {
        assert r[i] == nodes[i];
      } else if i > k {
        assert r[i] == nodes[i - 1];
      }
    }
  }

  lemma InsertContent(nodes: seq<PendingBlock>, ns: seq<PendingBlock>, bs: set<Block>, recs: seq<BlockRec>,
                      rs: seq<BlockRec>, k: nat, node: PendingBlock, serial: nat)
    requires |nodes| == |recs| && k <= |nodes| && ns == Insert(nodes, k, node)
    requires Adopted(nodes, bs, recs, k, serial) && Content(nodes, bs, recs, k)
    requires rs == Adopt(recs[..k], serial) + [node.block.Rec()] + recs[k..]
    ensures Content(ns, bs + {node.block}, rs, 0)
  {
  }

  /** Make a block and let it adopt the orphans in front of `oldBlocks`. */
  method MakeBlock(head: PendingBlock?, serial: nat, syms: seq<Symbol>, symbol: Option<Symbol>, start: int, end: int,
                   oldBlocks: PendingBlock?, ghost nodes: seq<PendingBlock>, ghost bs: set<Block>,
                   ghost recs: seq<BlockRec>, ghost k: nat)
    returns (block: Block, opblock: PendingBlock?)
    requires Shape(head, nodes) && Content(nodes, bs, recs, 0)
    requires k <= |nodes| && oldBlocks == NodeAt(nodes, k)
    modifies bs
    ensures fresh(block) && block.Rec() == BlockRec(serial, start, end, syms, symbol, None)
    ensures opblock == if k == 0 then null else nodes[k - 1]
    ensures Adopted(nodes, bs, recs, k, serial) && Content(nodes, bs, recs, k)
  {
    block := new Block(serial, start, end, syms, symbol);
    opblock := AdoptOrphans(head, block, oldBlocks, nodes, bs, recs, k);
  }

  /** Make a block, adopt the orphans in front of `oldBlocks`, and link the block in after them. */
  method LinkBlock(head: PendingBlock?, serial: nat, syms: seq<Symbol>, symbol: Option<Symbol>, start: int, end: int,
                   oldBlocks: PendingBlock?, ghost nodes: seq<PendingBlock>, ghost bs: set<Block>,
                   ghost recs: seq<BlockRec>, ghost k: nat)
    returns (newHead: PendingBlock?, node: PendingBlock)
    requires Shape(head, nodes) && Content(nodes, bs, recs, 0)
    requires k <= |nodes| && oldBlocks == NodeAt(nodes, k)
    modifies nodes, bs
    ensures fresh(node) && fresh(node.block)
    ensures Shape(newHead, Insert(nodes, k, node))
    ensures Content(Insert(nodes, k, node), bs + {node.block},
                    Adopt(recs[..k], serial) + [BlockRec(serial, start, end, syms, symbol, None)] + recs[k..], 0)
  {
    var block, opblock := MakeBlock(head, serial, syms, symbol, start, end, oldBlocks, nodes, bs, recs, k);
    node := new PendingBlock(block, null);
    newHead := Splice(head, node, opblock, nodes, k);
    ghost var rec := BlockRec(serial, start, end, syms, symbol, None);
    ghost var rs := Adopt(recs[..k], serial) + [rec] + recs[k..];
    InsertContent(nodes, Insert(nodes, k, node), bs, recs, rs, k, node, serial);
  }

  /** The list of pending blocks. */
  class PendingList {
    var head: PendingBlock?
    ghost var nodes: seq<PendingBlock>
    ghost var blocks: set<Block>
    ghost var recs: seq<BlockRec>
    ghost var Repr: set<object>

    ghost predicate Valid()
      reads this, Repr
    {
      && this in Repr && (forall i :: 0 <= i < |nodes| ==> nodes[i] in Repr) && blocks <= Repr
      && Shape(head, nodes)
      && Content(nodes, blocks, recs, 0)
    }

    constructor ()
      ensures Valid() && fresh(Repr) && recs == [] && nodes == []
    {
      head, nodes, blocks, recs, Repr := null, [], {}, [], {this};
    }

    /** finish_block's list surgery: a new block adopts the orphans in front of `oldBlocks` and is
        linked in after them. */
    method Add(serial: nat, syms: seq<Symbol>, symbol: Option<Symbol>, start: int, end: int,
               oldBlocks: PendingBlock?, ghost mark: nat)
      requires Valid()
      requires mark <= |nodes| && oldBlocks == NodeAt(nodes, |nodes| - mark)
      modifies Repr
      ensures Valid() && fresh(Repr - old(Repr))
      ensures var k := |old(recs)| - mark;
              recs == Adopt(old(recs)[..k], serial) + [BlockRec(serial, start, end, syms, symbol, None)]
                + old(recs)[k..]
      ensures |nodes| == |old(nodes)| + 1
      ensures nodes[|nodes| - mark..] == old(nodes)[|old(nodes)| - mark..]
    {
      ghost var k := |nodes| - mark;
      var h, node := LinkBlock(head, serial, syms, symbol, start, end, oldBlocks, nodes, blocks, recs, k);
      ghost var ns := Insert(nodes, k, node);
      assert ns[k + 1..] == nodes[k..];
      Store(h, node, ns, Adopt(recs[..k], serial) + [BlockRec(serial, start, end, syms, symbol, None)] + recs[k..]);
    }

    /** make_blockvector: copy the blocks into a vector in reverse order. */
    method MakeBlockvector() returns (v: array<Block>)
      requires Valid()
      ensures fresh(v) && v.Length == |recs|
      ensures Vector(v, Reverse(recs))
    {
      var i := 0;
      var next := head;
      while next != null
        invariant 0 <= i <= |nodes| && next == NodeAt(nodes, i)
        decreases |nodes| - i
      {
        next := next.next;
        i := i + 1;
      }
      if i == 0 {
        return new Block[0];
      }
      var first := head.block;
      v := new Block[i](_ => first);
      next := head;
      while next != null
        invariant 0 <= i <= |nodes| && v.Length == |nodes| && next == NodeAt(nodes, |nodes| - i)
        invariant forall j :: i <= j < |nodes| ==> v[j] == nodes[|nodes| - 1 - j].block
        decreases i
      {
        i := i - 1;
        v[i] := next.block;
        next := next.next;
      }
      assert forall j :: 0 <= j < |nodes| ==> v[j].Rec() == recs[|nodes| - 1 - j];
    }

    method Store(h: PendingBlock?, ghost node: PendingBlock, ghost ns: seq<PendingBlock>, ghost rs: seq<BlockRec>)
      requires this in Repr && Shape(h, ns) && Content(ns, blocks + {node.block}, rs, 0)
      requires (forall i :: 0 <= i < |ns| ==> ns[i] in Repr + {node}) && blocks <= Repr
      modifies this
      ensures Valid() && nodes == ns && recs == rs && Repr == old(Repr) + {node, node.block}
    {
      head, nodes, blocks, recs, Repr := h, ns, blocks + {node.block}, rs, Repr + {node, node.block};
    }
  }

  /** An entry of the context stack: the list head is saved as a pointer. */
  datatype OpenContext = OpenContext(
    name: Option<Symbol>, locals: SymbolList, oldBlocks: PendingBlock?, start: int, depth: int)

  ghost predicate Represents(c: OpenContext, a: Context, nodes: seq<PendingBlock>) {
    && c.name == a.name && c.start == a.start && c.depth == a.depth
    && ListValid(c.locals) && Symbols(c.locals) == a.locals
    && a.mark <= |nodes| && c.oldBlocks == NodeAt(nodes, |nodes| - a.mark)
  }

  /** Every saved pointer starts a suffix of the pending list, and outer contexts saved
      shorter suffixes. */
  ghost predicate Contexts(cs: seq<OpenContext>, stack: seq<Context>, nodes: seq<PendingBlock>) {
    && |cs| == |stack|
    && (forall i :: 0 <= i < |cs| ==> Represents(cs[i], stack[i], nodes))
    && (forall i, j :: 0 <= i < j < |stack| ==> stack[i].mark <= stack[j].mark)
  }

  ghost predicate MarksUpTo(stack: seq<Context>, mark: nat) {
    forall i :: 0 <= i < |stack| ==> stack[i].mark <= mark
  }

  /** Changing the list in front of a suffix keeps the pointers saved into that suffix. */
  lemma ContextsFrame(cs: seq<OpenContext>, stack: seq<Context>, nodes: seq<PendingBlock>, ns: seq<PendingBlock>,
                      mark: nat)
    requires Contexts(cs, stack, nodes) && MarksUpTo(stack, mark)
    requires mark <= |nodes| && mark <= |ns| && ns[|ns| - mark..] == nodes[|nodes| - mark..]
    ensures Contexts(cs, stack, ns)
  {
    forall i | 0 <= i < |cs| ensures Represents(cs[i], stack[i], ns) {
      var m := stack[i].mark;
      assert Represents(cs[i], stack[i], nodes);
      if m > 0 {
        assert ns[|ns| - m] == ns[|ns| - mark..][mark - m];
        assert nodes[|nodes| - m] == nodes[|nodes| - mark..][mark - m];
      }
    }
  }

  lemma ContextsPush(cs: seq<OpenContext>, stack: seq<Context>, nodes: seq<PendingBlock>, c: OpenContext, a: Context)
    requires Contexts(cs, stack, nodes) && Represents(c, a, nodes) && MarksUpTo(stack, a.mark)
    ensures Contexts(cs + [c], stack + [a], nodes)
  {
  }

  /** What a right brace leaves when its context `top` has been popped and the symbols before it are current. */
  function Left(s: State, top: Context, base: int, addr: int): (r: State)
    requires top.mark <= |s.pending|
  {
    if s.locals != [] && |s.stack| > 1 then
      Finish(s, None, s.locals, top.mark, Min(top.start, addr) + base, addr + base).(locals := [])
    else s
  }

  /** Closing a block does not look at the stack. */
  lemma FinishPopped(s: State, stack: seq<Context>, name: Option<Symbol>, syms: seq<Symbol>, mark: nat, start: int,
                     end: int)
    requires mark <= |s.pending|
    ensures Finish(s.(stack := stack), name, syms, mark, start, end)
            == Finish(s, name, syms, mark, start, end).(stack := stack)
  {
  }

  ghost function Outcome(r: Result<State>): (res: Option<Error>) {
    if r.Ok? then None else Some(r.error)
  }

  class Reader {
    const sourceStart: int
    const list: PendingList
    var contextStack: seq<OpenContext>
    var localSymbols: SymbolList
    var fileSymbols: SymbolList
    var globalSymbols: SymbolList
    var count: nat
    ghost var abs: State  // what the linked state stands for

    ghost predicate ListsValid()
      reads this
    {
      && ListValid(localSymbols) && Symbols(localSymbols) == abs.locals
      && ListValid(fileSymbols) && Symbols(fileSymbols) == abs.files
      && ListValid(globalSymbols) && Symbols(globalSymbols) == abs.globals
    }

    ghost predicate Valid()
      reads this, list, list.Repr
    {
      && list.Valid() && this !in list.Repr
      && abs.pending == list.recs && |list.nodes| == |abs.pending| && abs.count == count
      && Contexts(contextStack, abs.stack, list.nodes) && MarksValid(abs)
      && ListsValid()
    }

    /** start_symtab */
    constructor (startAddr: int)
      ensures Valid() && fresh(list.Repr)
      ensures sourceStart == startAddr && abs == Start
    {
      sourceStart := startAddr;
      list := new PendingList();
      contextStack, count := [], 0;
      localSymbols, fileSymbols, globalSymbols := [], [], [];
      abs := Start;
    }

    /** finish_block */
    method FinishBlock(symbol: Option<Symbol>, syms: SymbolList, oldBlocks: PendingBlock?, ghost mark: nat,
                       start: int, end: int)
      requires Valid()
      requires mark <= |list.nodes| && oldBlocks == NodeAt(list.nodes, |list.nodes| - mark)
      requires MarksUpTo(abs.stack, mark)
      modifies this, list.Repr
      ensures Valid() && fresh(list.Repr - old(list.Repr))
      ensures abs == Finish(old(abs), symbol, Symbols(syms), mark, start, end)
      ensures |contextStack| == |old(contextStack)|
      ensures localSymbols == old(localSymbols) && fileSymbols == old(fileSymbols)
              && globalSymbols == old(globalSymbols)
    {
      var copied := CopySymbols(syms);
      ghost var nodes := list.nodes;
      list.Add(count, copied, symbol, start, end, oldBlocks, mark);
      ContextsFrame(contextStack, abs.stack, nodes, list.nodes, mark);
      count, abs := count + 1, Finish(abs, symbol, copied, mark, start, end);
    }

    /** Take the innermost context off the stack. */
    method PopContext() returns (top: OpenContext, ghost mark: nat)
      requires Valid() && contextStack != []
      modifies this
      ensures Valid()
      ensures var d := |old(abs).stack| - 1;
              && abs == old(abs).(stack := old(abs).stack[..d]) && contextStack == old(contextStack)[..d]
              && top == old(contextStack)[d]
              && Represents(top, old(abs).stack[d], list.nodes) && mark == old(abs).stack[d].mark
      ensures MarksUpTo(abs.stack, mark)
      ensures localSymbols == old(localSymbols) && fileSymbols == old(fileSymbols)
              && globalSymbols == old(globalSymbols)
    {
      var d := |contextStack| - 1;
      top := contextStack[d];
      mark := abs.stack[d].mark;
      contextStack := contextStack[..d];
      abs := abs.(stack := abs.stack[..d]);
    }

    method PushContext(name: Option<Symbol>, locals: SymbolList, start: int, depth: int)
      requires Valid() && ListValid(locals)
      modifies this
      ensures Valid()
      ensures abs == old(abs).(stack := old(abs).stack
                               + [Context(name, Symbols(locals), |old(abs).pending|, start, depth)],
                               locals := [])
    {
      var entry := OpenContext(name, locals, list.head, start, depth);
      ghost var context := Context(name, Symbols(locals), |abs.pending|, start, depth);
      ContextsPush(contextStack, abs.stack, list.nodes, entry, context);
      contextStack := contextStack + [entry];
      abs := abs.(stack := abs.stack + [context], locals := []);
      localSymbols := [];
    }

    method SetLocals(l: SymbolList)
      requires Valid() && ListValid(l)
      modifies this
      ensures Valid() && abs == old(abs).(locals := Symbols(l)) && localSymbols == l
      ensures contextStack == old(contextStack) && fileSymbols == old(fileSymbols)
              && globalSymbols == old(globalSymbols)
    {
      localSymbols, abs := l, abs.(locals := Symbols(l));
    }

    /** define_symbol, for a symbol of the file or a global one. */
    method DefineSymbol(sym: Symbol, isStatic: bool)
      requires Valid()
      modifies this
      ensures Valid()
      ensures abs == if isStatic then old(abs).(files := old(abs).files + [sym])
                     else old(abs).(globals := old(abs).globals + [sym])
      ensures contextStack == old(contextStack) && localSymbols == old(localSymbols)
    {
      if isStatic {
        fileSymbols, abs := AddSymbol(sym, fileSymbols), abs.(files := abs.files + [sym]);
      } else {
        globalSymbols, abs := AddSymbol(sym, globalSymbols), abs.(globals := abs.globals + [sym]);
      }
    }

    /** Make the block of the innermost context from the current symbols and pop it. */
    method CloseTop(end: int)
      requires Valid() && contextStack != []
      modifies this, list.Repr
      ensures Valid() && fresh(list.Repr - old(list.Repr))
      ensures var d := |old(abs).stack| - 1;
              abs == Finish(old(abs), old(abs).stack[d].name, old(abs).locals, old(abs).stack[d].mark,
                            old(abs).stack[d].start, end).(stack := old(abs).stack[..d], locals := [])
    {
      var top;
      ghost var mark;
      ghost var s := abs;
      top, mark := PopContext();
      FinishPopped(s, abs.stack, top.name, s.locals, mark, top.start, end);
      FinishBlock(top.name, localSymbols, top.oldBlocks, mark, top.start, end);
      SetLocals([]);
    }

    /** The N_FUN case: close the previous function, then open this one. */
    method OpenFunction(name: Symbol, addr: int, isStatic: bool) returns (err: Option<Error>)
      requires Valid()
      modifies this, list.Repr
      ensures fresh(list.Repr - old(list.Repr))
      ensures err == Outcome(Step(sourceStart, old(abs), Fun(name, addr, isStatic)))
      ensures err == None ==> Valid() && abs == Step(sourceStart, old(abs), Fun(name, addr, isStatic)).value
    {
      if |contextStack| > 0 {
        CloseTop(addr);
      }
      if |contextStack| != 0 {
        return Some(UnmatchedLBrac);
      }
      BeginFunction(name, addr, isStatic);
      err := None;
    }

    method BeginFunction(name: Symbol, addr: int, isStatic: bool)
      requires Valid() && contextStack == []
      modifies this
      ensures Valid() && abs == OpenFun(old(abs), name, addr, isStatic)
    {
      DefineSymbol(name, isStatic);
      PushContext(Some(name), [], addr, 0);
    }

    /** Make the block of a brace pair; an end below the start is taken as both. */
    method FinishBrace(oldBlocks: PendingBlock?, ghost mark: nat, start: int, addr: int)
      requires Valid() && MarksUpTo(abs.stack, mark)
      requires mark <= |list.nodes| && oldBlocks == NodeAt(list.nodes, |list.nodes| - mark)
      modifies this, list.Repr
      ensures Valid() && fresh(list.Repr - old(list.Repr))
      ensures abs == Finish(old(abs), None, old(abs).locals, mark, Min(start, addr) + sourceStart, addr + sourceStart)
                     .(locals := [])
    {
      var from := if start > addr then addr else start;
      FinishBlock(None, localSymbols, oldBlocks, mark, from + sourceStart, addr + sourceStart);
      SetLocals([]);
    }

    /** The N_RBRAC case: the variables of the block are those that preceded its N_LBRAC. */
    method CloseBrace(desc: int, addr: int) returns (err: Option<Error>)
      requires Valid()
      modifies this, list.Repr
      ensures fresh(list.Repr - old(list.Repr))
      ensures err == Outcome(Step(sourceStart, old(abs), RBrac(desc, addr)))
      ensures err == None ==> Valid() && abs == Step(sourceStart, old(abs), RBrac(desc, addr)).value
    {
      if contextStack == [] || contextStack[|contextStack| - 1].name.Some? {
        return Some(NoOpenBrace);
      }
      if desc != contextStack[|contextStack| - 1].depth {
        contextStack := contextStack[..|contextStack| - 1];
        return Some(BraceMismatch);
      }
      LeaveScope(addr);
      err := None;
    }

    /** Pop the innermost context, make its block if it needs one, and go back to the symbols collected before it. */
    method LeaveScope(addr: int)
      requires Valid() && contextStack != []
      modifies this, list.Repr
      ensures Valid() && fresh(list.Repr - old(list.Repr))
      ensures var d := |old(abs).stack| - 1;
              var top := old(abs).stack[d];
              abs == Left(old(abs).(stack := old(abs).stack[..d], locals := top.locals), top, sourceStart, addr)
    {
      ghost var s, d := abs, |abs.stack| - 1;
      var top;
      ghost var mark;
      top, mark := BackToLocals();
      FinishIfNeeded(top.oldBlocks, mark, top.start, addr);
    }

    /** Pop the innermost context and make the symbols collected before it current again. */
    method BackToLocals() returns (top: OpenContext, ghost mark: nat)
      requires Valid() && contextStack != []
      modifies this
      ensures Valid()
      ensures var d := |old(abs).stack| - 1;
              && abs == old(abs).(stack := old(abs).stack[..d], locals := old(abs).stack[d].locals)
              && Represents(top, old(abs).stack[d], list.nodes) && mark == old(abs).stack[d].mark
      ensures MarksUpTo(abs.stack, mark)
    {
      top, mark := PopContext();
      SetLocals(top.locals);
    }

    /** A pair without variables, and the outermost pair of a function, have no block of their own. */
    method FinishIfNeeded(oldBlocks: PendingBlock?, ghost mark: nat, start: int, addr: int)
      requires Valid() && MarksUpTo(abs.stack, mark)
      requires mark <= |list.nodes| && oldBlocks == NodeAt(list.nodes, |list.nodes| - mark)
      modifies this, list.Repr
      ensures Valid() && fresh(list.Repr - old(list.Repr))
      ensures abs == Left(old(abs), Context(None, old(abs).locals, mark, start, 0), sourceStart, addr)
    {
      if localSymbols != [] && |contextStack| > 1 {
        FinishBrace(oldBlocks, mark, start, addr);
      }
    }

    /** The scope-related cases of process_one_symbol. */
    method ProcessOneSymbol(e: Event) returns (err: Option<Error>)
      requires Valid()
      modifies this, list.Repr
      ensures fresh(list.Repr - old(list.Repr))
      ensures err == Outcome(Step(sourceStart, old(abs), e))
      ensures err == None ==> Valid() && abs == Step(sourceStart, old(abs), e).value
    {
      err := None;
      match e
      case Fun(name, addr, isStatic) => err := OpenFunction(name, addr, isStatic);
      case LBrac(desc, addr) => PushContext(None, localSymbols, addr, desc);
      case RBrac(desc, addr) => err := CloseBrace(desc, addr);
      case Local(sym) => SetLocals(AddSymbol(sym, localSymbols));
      case Static(sym) => DefineSymbol(sym, true);
      case Global(sym) => DefineSymbol(sym, false);
    }

    /** Drop the contexts: the next start_symtab empties the context stack and nothing looks at it before that. */
    method DropContexts()
      requires Valid()
      modifies this
      ensures Valid() && abs == old(abs).(stack := [])
    {
      contextStack, abs := [], abs.(stack := []);
    }

    /** Make the block of the file's own symbols, or of the global ones, over all pending blocks. */
    method FinishTopLevel(isStatic: bool, end: int)
      requires Valid() && abs.stack == []
      modifies this, list.Repr
      ensures Valid() && fresh(list.Repr - old(list.Repr))
      ensures abs == if isStatic then Finish(old(abs), None, old(abs).files, 0, sourceStart, end).(files := [])
                     else Finish(old(abs), None, old(abs).globals, 0, sourceStart, end).(globals := [])
    {
      var syms := if isStatic then fileSymbols else globalSymbols;
      assert Symbols(syms) == if isStatic then abs.files else abs.globals;
      FinishBlock(None, syms, null, 0, sourceStart, end);
      DropNames(isStatic);
    }

    method DropNames(isStatic: bool)
      requires Valid()
      modifies this
      ensures Valid() && abs == if isStatic then old(abs).(files := []) else old(abs).(globals := [])
    {
      if isStatic {
        fileSymbols, abs := [], abs.(files := []);
      } else {
        globalSymbols, abs := [], abs.(globals := []);
      }
    }

    /** The part of end_symtab that makes the file's blocks and their vector. */
    method EndSymtab(end: int) returns (v: array<Block>)
      requires Valid()
      modifies this, list.Repr
      ensures fresh(v)
      ensures Vector(v, Reverse(EndFile(sourceStart, old(abs), end).pending))
    {
      if |contextStack| > 0 {
        CloseTop(end);
      }
      DropContexts();
      assert abs == CloseLast(old(abs), end);
      FinishTopLevel(true, end);
      FinishTopLevel(false, end);
      v := list.MakeBlockvector();
    }
  }

  /** The blocks of a vector, read as values. */
  ghost predicate Vector(v: array<Block>, recs: seq<BlockRec>)
    reads v, set b | b in v[..]
  {
    v.Length == |recs| && forall i :: 0 <= i < |recs| ==> v[i].Rec() == recs[i]
  }

  /** Read the symbols of one source file: start_symtab, process_one_symbol for each, end_symtab. */
  method ReadSymtab(sourceStart: int, es: seq<Event>, end: int) returns (err: Option<Error>, v: array<Block>)
    ensures match ReadFile(sourceStart, es, end)
            case Ok(recs) => err == None && fresh(v) && Vector(v, recs)
            case Err(x) => err == Some(x)
  {
    var reader := new Reader(sourceStart);
    var i := 0;
    while i < |es|
      invariant 0 <= i <= |es|
      invariant reader.Valid() && fresh(reader) && fresh(reader.list.Repr) && reader.sourceStart == sourceStart
      invariant Run(sourceStart, Start, es) == Run(sourceStart, reader.abs, es[i..])
    {
      ghost var was := reader.abs;
      err := reader.ProcessOneSymbol(es[i]);
      RunHead(sourceStart, was, es[i..]);
      if err != None {
        return err, new Block[0];
      }
      i := i + 1;
    }
    v := reader.EndSymtab(end);
    err := None;
  }
}
