/** Expressions in prefix form and their evaluation.

    An expression is a vector of elements; a cursor walks over it.  `Eval` is evaluate_subexp with the cursor and the
    store passed along.  `Sem` is what the expression tree means. */
module Expressions {
  import opened Common

  type Symbol = nat
  type Store = map<Symbol, int>

  datatype BinOp =
    | Add | Sub | Mul | Div | Rem | Lsh | Rsh | And | Or | LogAnd | LogIor | LogXor
    | Equal | NotEqual | Less | Gtr | Leq | Geq | Repeat | Assign | Comma

  datatype PreOp = Neg | Zerop | LogNot | PreIncrement | PreDecrement | Ind | Addr | Sizeof
  datatype SufOp = PostIncrement | PostDecrement

  /** The type of a constant: int, unsigned int or char. */
  datatype Kind = Int | Unsigned | Char

  datatype Expr =
    | Const(kind: Kind, n: int)
    | Var(x: Symbol)
    | Binary(op: BinOp, l: Expr, r: Expr)
    | Modify(op: BinOp, l: Expr, r: Expr)
    | Prefix(pre: PreOp, e: Expr)
    | Suffix(suf: SufOp, e: Expr)
    | Cond(c: Expr, t: Expr, e: Expr)

  datatype Elt =
    | OpLong | OpVar | OpBin(op: BinOp) | OpModify | OpPre(pre: PreOp) | OpSuf(suf: SufOp) | OpCond
    | Type(kind: Kind) | Long(n: int) | Sym(x: Symbol)

  /** The element vector of a tree. */
  function Encode(e: Expr): (r: seq<Elt>)
    ensures r != []
  {
    match e
    case Const(k, n) => [OpLong, Type(k), Long(n), OpLong]
    case Var(x) => [OpVar, Sym(x), OpVar]
    case Binary(op, l, r) => [OpBin(op)] + (Encode(l) + Encode(r))
    case Modify(op, l, r) => [OpModify, OpBin(op), OpModify] + (Encode(l) + Encode(r))
    case Prefix(op, e) => [OpPre(op)] + Encode(e)
    case Suffix(op, e) => [OpSuf(op)] + Encode(e)
    case Cond(c, t, e) => [OpCond] + (Encode(c) + (Encode(t) + Encode(e)))
  }

  predicate Holds(v: seq<Elt>, pos: nat, s: seq<Elt>) {
    pos + |s| <= |v| && v[pos..pos + |s|] == s
  }

  /** The vector holds the encoding of `e` from position `pos` on. */
  predicate At(v: seq<Elt>, pos: nat, e: Expr) { Holds(v, pos, Encode(e)) }

  function End(pos: nat, e: Expr): (r: nat) { pos + |Encode(e)| }

  // ---------------------------------------------------------------------------
  // Values

  /** A value and, if it is an lvalue, the variable it came from. */
  datatype Value = Value(n: int, lval: Option<Symbol>)

  /** The scalar operations of the value library. A binary one may fail. */
  datatype Ops = Ops(bin: (BinOp, int, int) -> Option<int>, equal: (int, int) -> bool, less: (int, int) -> bool,
                     neg: int -> int, lognot: int -> int)

  predicate IsArith(op: BinOp) {
    op in {Add, Sub, Mul, Div, Rem, Lsh, Rsh, LogAnd, LogIor, LogXor}
  }

  predicate IsCompare(op: BinOp) {
    op in {Equal, NotEqual, Less, Gtr, Leq, Geq}
  }

  function Truth(b: bool): (r: int) { if b then 1 else 0 }

  function Truths(op: BinOp, a: int, b: int): (r: int) {
    Truth(if op == And then a != 0 && b != 0 else a != 0 || b != 0)
  }

  /** Comparisons in terms of value_equal and value_less. */
  function Compare(o: Ops, op: BinOp, a: int, b: int): (r: int) {
    Truth(match op
          case Equal => o.equal(a, b)
          case NotEqual => !o.equal(a, b)
          case Less => o.less(a, b)
          case Gtr => o.less(b, a)
          case Geq => !o.less(a, b)
          case _ => !o.less(b, a))
  }

  function Apply(o: Ops, op: BinOp, a: int, b: int): (r: Option<int>) {
    if IsCompare(op) then Some(Compare(o, op, a, b)) else o.bin(op, a, b)
  }

  function ApplyPre(o: Ops, op: PreOp, a: int): (r: int) {
    match op
    case Neg => o.neg(a)
    case LogNot => o.lognot(a)
    case _ => Truth(a == 0)
  }

  function Fetch(st: Store, x: Symbol): (r: int) { if x in st then st[x] else 0 }

  // ---------------------------------------------------------------------------
  // The meaning of a tree

  datatype Outcome = Done(v: Value, st: Store) | Failed

  /** value_assign: the value assigned, still an lvalue. */
  function Assigned(to: Value, n: int, st: Store): (r: Outcome) {
    if to.lval == None then Failed else Done(Value(n, to.lval), st[to.lval.value := n])
  }

  /** The same for the outcome of an operation. */
  function AssignedResult(to: Value, n: Option<int>, st: Store): (r: Outcome) {
    if n == None then Failed else Assigned(to, n.value, st)
  }

  /** A prefix operator on numbers, not on addresses and types. */
  predicate Scalar(op: PreOp) { op !in {Ind, Addr, Sizeof} }

  /** The opcodes the evaluator is modelled for. */
  predicate Supported(e: Expr) {
    match e
    case Const(_, _) => true
    case Var(_) => true
    case Binary(op, l, r) => op != Repeat && Supported(l) && Supported(r)
    case Modify(op, l, r) => IsArith(op) && Supported(l) && Supported(r)
    case Prefix(op, e) => Scalar(op) && Supported(e)
    case Suffix(_, e) => Supported(e)
    case Cond(c, t, e) => Supported(c) && Supported(t) && Supported(e)
  }

  /** Operands are evaluated from left to right; `&&`, `||` and `?:` evaluate only the operands C says they do. */
  function Sem(o: Ops, e: Expr, st: Store): (r: Outcome) {
    match e
    case Const(_, n) => Done(Value(n, None), st)
    case Var(x) => Done(Value(Fetch(st, x), Some(x)), st)
    case Prefix(op, e1) =>
      (match Sem(o, e1, st)
       case Failed => Failed
       case Done(a, s1) =>
         if op == PreIncrement then AssignedResult(a, o.bin(Add, a.n, 1), s1)
         else if op == PreDecrement then AssignedResult(a, o.bin(Sub, a.n, 1), s1)
         else Done(Value(ApplyPre(o, op, a.n), None), s1))
    case Suffix(op, e1) =>
      (match Sem(o, e1, st)
       case Failed => Failed
       case Done(a, s1) =>
         match AssignedResult(a, o.bin(if op == PostIncrement then Add else Sub, a.n, 1), s1)
         case Failed => Failed
         case Done(_, s2) => Done(a, s2))
    case Cond(c, t, f) =>
      (match Sem(o, c, st)
       case Failed => Failed
       case Done(a, s1) => if a.n == 0 then Sem(o, f, s1) else Sem(o, t, s1))
    case Modify(op, l, r) =>
      (match Sem(o, l, st)
       case Failed => Failed
       case Done(a, s1) =>
         match Sem(o, r, s1)
         case Failed => Failed
         case Done(b, s2) => AssignedResult(a, o.bin(op, a.n, b.n), s2))
    case Binary(op, l, r) =>
      match Sem(o, l, st)
      case Failed => Failed
      case Done(a, s1) =>
        if (op == And && a.n == 0) || (op == Or && a.n != 0) then Done(Value(Truth(op == Or), None), s1)
        else
          match Sem(o, r, s1)
          case Failed => Failed
          case Done(b, s2) =>
            if op == And || op == Or then Done(Value(Truth(b.n != 0), None), s2)
            else if op == Comma then Done(b, s2)
            else if op == Assign then Assigned(a, b.n, s2)
            else match Apply(o, op, a.n, b.n) case None => Failed case Some(n) => Done(Value(n, None), s2)
  }

  // ---------------------------------------------------------------------------
  // evaluate_subexp

  datatype Noside = Normal | Skip | AvoidSideEffects

  /** The value, the cursor and the store after a subexpression. */
  datatype Result = Ok(v: Value, pos: nat, st: Store) | Error

  const SkipValue := Value(1, None)

  /** What the operation itself does once the operands `a` and `b` have been evaluated. */
  function Combine(o: Ops, op: BinOp, mode: Noside, a: Value, b: Value, pos: nat, st: Store): (r: Result) {
    if op == Assign then
      if mode != Normal then Ok(a, pos, st)
      else (match Assigned(a, b.n, st) case Failed => Error case Done(v, s) => Ok(v, pos, s))
    else if op == Comma then Ok(b, pos, st)
    else if mode == Skip then Ok(SkipValue, pos, st)
    else if mode == AvoidSideEffects && op == Div then Ok(Value(0, None), pos, st)
    else match Apply(o, op, a.n, b.n) case None => Error case Some(n) => Ok(Value(n, None), pos, st)
  }

  /** The increments and decrements: `before` says whether the old value is the result. */
  function Step(o: Ops, op: BinOp, mode: Noside, a: Value, before: bool, pos: nat, st: Store): (r: Result) {
    if mode != Normal then Ok(a, pos, st)
    else
      match AssignedResult(a, o.bin(op, a.n, 1), st)
      case Failed => Error
      case Done(v, s) => Ok(if before then a else v, pos, s)
  }

  /** evaluate_subexp: the cursor is past the subexpression it has read. */
  function Eval(o: Ops, v: seq<Elt>, pos: nat, mode: Noside, st: Store): (r: Result)
    ensures r.Ok? ==> pos < r.pos <= |v|
    decreases |v| - pos
  {
    if pos >= |v| then Error
    else
      match v[pos]
      case OpLong => if pos + 4 <= |v| && v[pos + 2].Long? then Ok(Value(v[pos + 2].n, None), pos + 4, st) else Error
      case OpVar =>
        if pos + 3 <= |v| && v[pos + 1].Sym? then
          var x := v[pos + 1].x;
          Ok(match mode
             case Skip => SkipValue
             case AvoidSideEffects => Value(0, Some(x))
             case Normal => Value(Fetch(st, x), Some(x)), pos + 3, st)
        else Error
      case OpPre(op) =>
        if !Scalar(op) then Error
        else
          (match Eval(o, v, pos + 1, mode, st)
           case Error => Error
           case Ok(a, p, s) =>
             if op == PreIncrement then Step(o, Add, mode, a, false, p, s)
             else if op == PreDecrement then Step(o, Sub, mode, a, false, p, s)
             else Ok(if mode == Skip then SkipValue else Value(ApplyPre(o, op, a.n), None), p, s))
      case OpSuf(op) =>
        (match Eval(o, v, pos + 1, mode, st)
         case Error => Error
         case Ok(a, p, s) => Step(o, if op == PostIncrement then Add else Sub, mode, a, true, p, s))
      case OpCond =>
        (match Eval(o, v, pos + 1, mode, st)
         case Error => Error
         case Ok(a, p1, s1) =>
           if a.n == 0 then
             match Eval(o, v, p1, Skip, s1)
             case Error => Error
             case Ok(_, p2, s2) => Eval(o, v, p2, mode, s2)
           else
             match Eval(o, v, p1, mode, s1)
             case Error => Error
             case Ok(b, p2, s2) =>
               match Eval(o, v, p2, Skip, s2)
               case Error => Error
               case Ok(_, p3, s3) => Ok(b, p3, s3))
      case OpModify =>
        if pos + 3 > |v| || !v[pos + 1].OpBin? then Error
        else
          (match Eval(o, v, pos + 3, mode, st)
           case Error => Error
           case Ok(a, p1, s1) =>
             match Eval(o, v, p1, mode, s1)
             case Error => Error
             case Ok(b, p2, s2) =>
               if mode != Normal then Ok(a, p2, s2)
               else
                 match AssignedResult(a, o.bin(v[pos + 1].op, a.n, b.n), s2)
                 case Failed => Error
                 case Done(w, s3) => Ok(w, p2, s3))
      case OpBin(op) =>
        (match Eval(o, v, pos + 1, mode, st)
         case Error => Error
         case Ok(a, p1, s1) =>
           if op == And || op == Or then
             if mode == Skip then
               match Eval(o, v, p1, Skip, s1)
               case Error => Error
               case Ok(_, p2, s2) => Ok(SkipValue, p2, s2)
             else
               // The right operand is first looked at for its type only; then the cursor goes back.
               match Eval(o, v, p1, AvoidSideEffects, s1)
               case Error => Error
               case Ok(_, _, s2) =>
                 var skip := (op == And) == (a.n == 0);
                 match Eval(o, v, p1, if skip then Skip else mode, s2)
                 case Error => Error
                 case Ok(b, p2, s3) =>
                   Ok(Value(Truths(op, a.n, b.n), None), p2, s3)
           else
             match Eval(o, v, p1, mode, s1)
             case Error => Error
             case Ok(b, p2, s2) => Combine(o, op, mode, a, b, p2, s2))
      case _ => Error
  }

  // ---------------------------------------------------------------------------
  // Cursors over encodings

  lemma {:induction false} HoldsSplit(v: seq<Elt>, pos: nat, a: seq<Elt>, b: seq<Elt>)
    requires Holds(v, pos, a + b)
    ensures Holds(v, pos, a) && Holds(v, pos + |a|, b)
  {
    var w := v[pos..pos + |a + b|];
    assert w[..|a|] == a && w[|a|..] == b;
    assert v[pos..pos + |a|] == w[..|a|] && v[pos + |a|..pos + |a| + |b|] == w[|a|..];
  }

  lemma {:induction false} HoldsAt(v: seq<Elt>, pos: nat, s: seq<Elt>, i: nat)
    requires Holds(v, pos, s) && i < |s|
    ensures v[pos + i] == s[i]
  {
    assert v[pos..pos + |s|][i] == v[pos + i];
  }

  /** The two operands after `head`. */
  lemma {:induction false} AtTwo(v: seq<Elt>, pos: nat, head: seq<Elt>, a: Expr, b: Expr)
    requires Holds(v, pos, head + (Encode(a) + Encode(b)))
    ensures Holds(v, pos, head) && At(v, pos + |head|, a) && At(v, End(pos + |head|, a), b)
  {
    HoldsSplit(v, pos, head, Encode(a) + Encode(b));
    HoldsSplit(v, pos + |head|, Encode(a), Encode(b));
  }

  lemma {:induction false} AtThree(v: seq<Elt>, pos: nat, a: Expr, b: Expr, c: Expr)
    requires Holds(v, pos, [OpCond] + (Encode(a) + (Encode(b) + Encode(c))))
    ensures v[pos] == OpCond && At(v, pos + 1, a) && At(v, End(pos + 1, a), b) && At(v, End(End(pos + 1, a), b), c)
  {
    HoldsThree(v, pos, OpCond, Encode(a), Encode(b), Encode(c));
  }

  lemma {:induction false} HoldsThree(v: seq<Elt>, pos: nat, op: Elt, a: seq<Elt>, b: seq<Elt>, c: seq<Elt>)
    requires Holds(v, pos, [op] + (a + (b + c)))
    ensures v[pos] == op && Holds(v, pos + 1, a) && Holds(v, pos + 1 + |a|, b) && Holds(v, pos + 1 + |a| + |b|, c)
  {
    HoldsSplit(v, pos, [op], a + (b + c));
    HoldsAt(v, pos, [op], 0);
    HoldsSplit(v, pos + 1, a, b + c);
    HoldsSplit(v, pos + 1 + |a|, b, c);
  }

  lemma {:induction false} AtOne(v: seq<Elt>, pos: nat, op: Elt, a: Expr)
    requires Holds(v, pos, [op] + Encode(a))
    ensures pos < |v| && v[pos] == op && At(v, pos + 1, a)
  {
    HoldsSplit(v, pos, [op], Encode(a));
    HoldsAt(v, pos, [op], 0);
  }

  // ---------------------------------------------------------------------------
  // The evaluator computes the meaning of the tree

  /** The cursor is just past the subexpression and the store is as it was. */
  predicate Passed(r: Result, pos: nat, st: Store) { r.Ok? && r.pos == pos && r.st == st }

  /** EVAL_SKIP only moves the cursor: it never fails, never changes the store, and stops just past the
      subexpression. */
  lemma {:induction false} EvalSkips(o: Ops, v: seq<Elt>, pos: nat, st: Store, e: Expr)
    requires At(v, pos, e) && Supported(e)
    ensures Passed(Eval(o, v, pos, Skip, st), End(pos, e), st)
    decreases e, 1
  {
    match e
    case Const(_, n) => LeafAt(v, pos, e);
    case Var(x) => LeafAt(v, pos, e);
    case Prefix(op, a) => AtOne(v, pos, OpPre(op), a); EvalSkips(o, v, pos + 1, st, a);
    case Suffix(op, a) => AtOne(v, pos, OpSuf(op), a); EvalSkips(o, v, pos + 1, st, a);
    case Cond(c, t, f) => SkipCond(o, v, pos, st, c, t, f);
    case Modify(op, l, r) => SkipModify(o, v, pos, st, op, l, r);
    case Binary(op, l, r) => SkipBinary(o, v, pos, st, op, l, r);
  }

  lemma {:induction false} SkipCond(o: Ops, v: seq<Elt>, pos: nat, st: Store, c: Expr, t: Expr, f: Expr)
    requires At(v, pos, Cond(c, t, f)) && Supported(Cond(c, t, f))
    ensures Passed(Eval(o, v, pos, Skip, st), End(pos, Cond(c, t, f)), st)
    decreases Cond(c, t, f), 0
  {
    AtThree(v, pos, c, t, f);
    var p1 := End(pos + 1, c);
    var p2, p3 := End(p1, t), End(End(p1, t), f);
    EvalSkips(o, v, pos + 1, st, c);
    EvalSkips(o, v, p1, st, t);
    EvalSkips(o, v, p2, st, f);
    CondPassed(o, v, pos, st, p1, p2, p3);
  }

  lemma {:induction false} CondPassed(o: Ops, v: seq<Elt>, pos: nat, st: Store, p1: nat, p2: nat, p3: nat)
    requires pos < |v| && v[pos] == OpCond && Passed(Eval(o, v, pos + 1, Skip, st), p1, st)
    requires Passed(Eval(o, v, p1, Skip, st), p2, st) && Passed(Eval(o, v, p2, Skip, st), p3, st)
    ensures Passed(Eval(o, v, pos, Skip, st), p3, st)
  {
  }

  lemma {:induction false} SkipModify(o: Ops, v: seq<Elt>, pos: nat, st: Store, op: BinOp, l: Expr, r: Expr)
    requires At(v, pos, Modify(op, l, r)) && Supported(Modify(op, l, r))
    ensures Passed(Eval(o, v, pos, Skip, st), End(pos, Modify(op, l, r)), st)
    decreases Modify(op, l, r), 0
  {
    ModifyAt(v, pos, op, l, r);
    EvalSkips(o, v, pos + 3, st, l);
    EvalSkips(o, v, End(pos + 3, l), st, r);
  }

  lemma {:induction false} SkipBinary(o: Ops, v: seq<Elt>, pos: nat, st: Store, op: BinOp, l: Expr, r: Expr)
    requires At(v, pos, Binary(op, l, r)) && Supported(Binary(op, l, r))
    ensures Passed(Eval(o, v, pos, Skip, st), End(pos, Binary(op, l, r)), st)
    decreases Binary(op, l, r), 0
  {
    BinaryAt(v, pos, op, l, r);
    EvalSkips(o, v, pos + 1, st, l);
    EvalSkips(o, v, End(pos + 1, l), st, r);
  }

  lemma {:induction false} LeafAt(v: seq<Elt>, pos: nat, e: Expr)
    requires At(v, pos, e) && (e.Const? || e.Var?)
    ensures pos + |Encode(e)| <= |v|
    ensures e.Const? ==> v[pos] == OpLong && v[pos + 1] == Type(e.kind) && v[pos + 2] == Long(e.n)
    ensures e.Var? ==> v[pos] == OpVar && v[pos + 1] == Sym(e.x)
  {
    HoldsAt(v, pos, Encode(e), 0);
    HoldsAt(v, pos, Encode(e), 1);
    HoldsAt(v, pos, Encode(e), 2);
  }

  lemma {:induction false} ModifyAt(v: seq<Elt>, pos: nat, op: BinOp, l: Expr, r: Expr)
    requires At(v, pos, Modify(op, l, r))
    ensures pos + 3 <= |v| && v[pos] == OpModify && v[pos + 1] == OpBin(op)
    ensures At(v, pos + 3, l) && At(v, End(pos + 3, l), r) && End(pos, Modify(op, l, r)) == End(End(pos + 3, l), r)
  {
    var head := [OpModify, OpBin(op), OpModify];
    AtTwo(v, pos, head, l, r);
    HoldsAt(v, pos, head, 0);
    HoldsAt(v, pos, head, 1);
  }

  lemma {:induction false} BinaryAt(v: seq<Elt>, pos: nat, op: BinOp, l: Expr, r: Expr)
    requires At(v, pos, Binary(op, l, r))
    ensures pos < |v| && v[pos] == OpBin(op)
    ensures At(v, pos + 1, l) && At(v, End(pos + 1, l), r) && End(pos, Binary(op, l, r)) == End(End(pos + 1, l), r)
  {
    AtTwo(v, pos, [OpBin(op)], l, r);
    HoldsAt(v, pos, [OpBin(op)], 0);
  }

  /** `?:` with a false condition: the second operand is skipped. */
  lemma {:induction false} ElseTaken(o: Ops, v: seq<Elt>, pos: nat, mode: Noside, st: Store, a: Value, p1: nat,
                                     s1: Store, p2: nat)
    requires pos < |v| && v[pos] == OpCond && Eval(o, v, pos + 1, mode, st) == Ok(a, p1, s1) && a.n == 0
    requires Passed(Eval(o, v, p1, Skip, s1), p2, s1)
    ensures Eval(o, v, pos, mode, st) == Eval(o, v, p2, mode, s1)
  {
  }

  /** `?:` with a true condition: the third operand is skipped. */
  lemma {:induction false} ThenTaken(o: Ops, v: seq<Elt>, pos: nat, mode: Noside, st: Store, a: Value, p1: nat,
                                     s1: Store, r: Result, p3: nat)
    requires pos < |v| && v[pos] == OpCond && Eval(o, v, pos + 1, mode, st) == Ok(a, p1, s1) && a.n != 0
    requires r == Eval(o, v, p1, mode, s1) && (r.Ok? ==> Passed(Eval(o, v, r.pos, Skip, r.st), p3, r.st))
    ensures Eval(o, v, pos, mode, st) == if r.Ok? then r.(pos := p3) else Error
  {
  }

  /** What `&&` and `||` make of the right operand once it has been looked at. */
  lemma {:induction false} LookedAt(o: Ops, v: seq<Elt>, pos: nat, mode: Noside, st: Store, op: BinOp, a: Value,
                                    p1: nat, s1: Store, r: Result)
    requires pos < |v| && v[pos] == OpBin(op) && (op == And || op == Or) && mode != Skip
             && Eval(o, v, pos + 1, mode, st) == Ok(a, p1, s1)
    requires Eval(o, v, p1, AvoidSideEffects, s1).Ok? && Eval(o, v, p1, AvoidSideEffects, s1).st == s1
    requires r == Eval(o, v, p1, if (op == And) == (a.n == 0) then Skip else mode, s1)
    ensures Eval(o, v, pos, mode, st) == if r.Ok? then Ok(Value(Truths(op, a.n, r.v.n), None), r.pos, r.st) else Error
  {
  }

  // ---------------------------------------------------------------------------
  // Looking at the type only

  /** What EVAL_AVOID_SIDE_EFFECTS takes the value to be: variables are zero, whatever the store says, and so are
      quotients. None if some other operation fails on such values. */
  function Typed(o: Ops, e: Expr): (r: Option<Value>) {
    match e
    case Const(_, n) => Some(Value(n, None))
    case Var(x) => Some(Value(0, Some(x)))
    case Prefix(op, e1) =>
      (match Typed(o, e1)
       case None => None
       case Some(a) =>
         if op == PreIncrement || op == PreDecrement then Some(a) else Some(Value(ApplyPre(o, op, a.n), None)))
    case Suffix(_, e1) => Typed(o, e1)
    case Cond(c, t, f) =>
      (match Typed(o, c)
       case None => None
       case Some(a) => if a.n == 0 then Typed(o, f) else Typed(o, t))
    case Modify(_, l, r) => if Typed(o, l).Some? && Typed(o, r).Some? then Typed(o, l) else None
    case Binary(op, l, r) =>
      match Typed(o, l)
      case None => None
      case Some(a) =>
        match Typed(o, r)
        case None => None
        case Some(b) =>
          if op == And || op == Or then Some(Value(Truths(op, a.n, b.n), None))
          else if op == Assign then Some(a)
          else if op == Comma then Some(b)
          else if op == Div then Some(Value(0, None))
          else match Apply(o, op, a.n, b.n) case None => None case Some(n) => Some(Value(n, None))
  }

  /** What evaluating `e` at `pos` for its type only should give. */
  function TypedResult(o: Ops, pos: nat, st: Store, e: Expr): (r: Result) {
    match Typed(o, e)
    case None => Error
    case Some(w) => Ok(w, End(pos, e), st)
  }

  /** EVAL_AVOID_SIDE_EFFECTS gives the typed value, or fails where there is none; it never changes the store, and stops
      just past the subexpression. */
  lemma {:induction false} EvalTyped(o: Ops, v: seq<Elt>, pos: nat, st: Store, e: Expr)
    requires At(v, pos, e) && Supported(e)
    ensures Eval(o, v, pos, AvoidSideEffects, st) == TypedResult(o, pos, st, e)
    decreases e, 2
  {
    match e
    case Const(_, n) => LeafAt(v, pos, e);
    case Var(x) => LeafAt(v, pos, e);
    case Prefix(op, a) => AtOne(v, pos, OpPre(op), a); EvalTyped(o, v, pos + 1, st, a);
    case Suffix(op, a) => AtOne(v, pos, OpSuf(op), a); EvalTyped(o, v, pos + 1, st, a);
    case Cond(c, t, f) => TypedCond(o, v, pos, st, c, t, f);
    case Modify(op, l, r) => TypedModify(o, v, pos, st, op, l, r);
    case Binary(op, l, r) => TypedBinary(o, v, pos, st, op, l, r);
  }

  lemma {:induction false} TypedModify(o: Ops, v: seq<Elt>, pos: nat, st: Store, op: BinOp, l: Expr, r: Expr)
    requires At(v, pos, Modify(op, l, r)) && Supported(Modify(op, l, r))
    ensures Eval(o, v, pos, AvoidSideEffects, st) == TypedResult(o, pos, st, Modify(op, l, r))
    decreases Modify(op, l, r), 0
  {
    ModifyAt(v, pos, op, l, r);
    EvalTyped(o, v, pos + 3, st, l);
    EvalTyped(o, v, End(pos + 3, l), st, r);
  }

  lemma {:induction false} TypedCond(o: Ops, v: seq<Elt>, pos: nat, st: Store, c: Expr, t: Expr, f: Expr)
    requires At(v, pos, Cond(c, t, f)) && Supported(Cond(c, t, f))
    ensures Eval(o, v, pos, AvoidSideEffects, st) == TypedResult(o, pos, st, Cond(c, t, f))
    decreases Cond(c, t, f), 1
  {
    AtThree(v, pos, c, t, f);
    EvalTyped(o, v, pos + 1, st, c);
    var a := Typed(o, c);
    if a.Some? && a.value.n == 0 {
      TypedElse(o, v, pos, st, c, t, f, a.value);
    } else if a.Some? {
      TypedThen(o, v, pos, st, c, t, f, a.value);
    }
  }

  lemma {:induction false} TypedElse(o: Ops, v: seq<Elt>, pos: nat, st: Store, c: Expr, t: Expr, f: Expr, a: Value)
    requires At(v, pos, Cond(c, t, f)) && Supported(Cond(c, t, f)) && Typed(o, c) == Some(a) && a.n == 0
    requires Eval(o, v, pos + 1, AvoidSideEffects, st) == Ok(a, End(pos + 1, c), st)
    ensures Eval(o, v, pos, AvoidSideEffects, st) == TypedResult(o, pos, st, Cond(c, t, f))
    decreases Cond(c, t, f), 0
  {
    AtThree(v, pos, c, t, f);
    var p1 := End(pos + 1, c);
    EvalSkips(o, v, p1, st, t);
    EvalTyped(o, v, End(p1, t), st, f);
    ElseTaken(o, v, pos, AvoidSideEffects, st, a, p1, st, End(p1, t));
  }

  lemma {:induction false} TypedThen(o: Ops, v: seq<Elt>, pos: nat, st: Store, c: Expr, t: Expr, f: Expr, a: Value)
    requires At(v, pos, Cond(c, t, f)) && Supported(Cond(c, t, f)) && Typed(o, c) == Some(a) && a.n != 0
    requires Eval(o, v, pos + 1, AvoidSideEffects, st) == Ok(a, End(pos + 1, c), st)
    ensures Eval(o, v, pos, AvoidSideEffects, st) == TypedResult(o, pos, st, Cond(c, t, f))
    decreases Cond(c, t, f), 0
  {
    AtThree(v, pos, c, t, f);
    var p1 := End(pos + 1, c);
    EvalTyped(o, v, p1, st, t);
    EvalSkips(o, v, End(p1, t), st, f);
    ThenTaken(o, v, pos, AvoidSideEffects, st, a, p1, st, Eval(o, v, p1, AvoidSideEffects, st), End(End(p1, t), f));
  }

  lemma {:induction false} TypedBinary(o: Ops, v: seq<Elt>, pos: nat, st: Store, op: BinOp, l: Expr, r: Expr)
    requires At(v, pos, Binary(op, l, r)) && Supported(Binary(op, l, r))
    ensures Eval(o, v, pos, AvoidSideEffects, st) == TypedResult(o, pos, st, Binary(op, l, r))
    decreases Binary(op, l, r), 1
  {
    BinaryAt(v, pos, op, l, r);
    EvalTyped(o, v, pos + 1, st, l);
    if Typed(o, l).Some? {
      EvalTyped(o, v, End(pos + 1, l), st, r);
      if (op == And || op == Or) && Typed(o, r).Some? {
        TypedLogical(o, v, pos, st, op, l, r, Typed(o, l).value, Typed(o, r).value);
      }
    }
  }

  lemma {:induction false} TypedLogical(o: Ops, v: seq<Elt>, pos: nat, st: Store, op: BinOp, l: Expr, r: Expr, a: Value,
                                        b: Value)
    requires At(v, pos, Binary(op, l, r)) && Supported(Binary(op, l, r)) && (op == And || op == Or)
    requires Typed(o, l) == Some(a) && Typed(o, r) == Some(b)
    requires Eval(o, v, pos + 1, AvoidSideEffects, st) == Ok(a, End(pos + 1, l), st)
    requires Eval(o, v, End(pos + 1, l), AvoidSideEffects, st) == Ok(b, End(End(pos + 1, l), r), st)
    ensures Eval(o, v, pos, AvoidSideEffects, st) == TypedResult(o, pos, st, Binary(op, l, r))
    decreases Binary(op, l, r), 0
  {
    BinaryAt(v, pos, op, l, r);
    var p1 := End(pos + 1, l);
    EvalSkips(o, v, p1, st, r);
    var skip := (op == And) == (a.n == 0);
    LookedAt(o, v, pos, AvoidSideEffects, st, op, a, p1, st,
             Eval(o, v, p1, if skip then Skip else AvoidSideEffects, st));
  }

  // ---------------------------------------------------------------------------
  // The meaning

  /** What evaluating `e` at `pos` should give. */
  function Expected(o: Ops, pos: nat, st: Store, e: Expr): (r: Result) {
    match Sem(o, e, st)
    case Failed => Error
    case Done(v, s) => Ok(v, End(pos, e), s)
  }

  /** The right operands of all `&&` and `||` that are reached can be looked at for their type: no operation in them
      fails on the values that are taken there. */
  predicate Lookable(o: Ops, e: Expr, st: Store) {
    match e
    case Const(_, _) => true
    case Var(_) => true
    case Prefix(_, e1) => Lookable(o, e1, st)
    case Suffix(_, e1) => Lookable(o, e1, st)
    case Cond(c, t, f) =>
      Lookable(o, c, st) &&
      (match Sem(o, c, st)
       case Failed => true
       case Done(a, s1) => if a.n == 0 then Lookable(o, f, s1) else Lookable(o, t, s1))
    case Modify(_, l, r) =>
      Lookable(o, l, st) && (match Sem(o, l, st) case Failed => true case Done(_, s1) => Lookable(o, r, s1))
    case Binary(op, l, r) =>
      Lookable(o, l, st) &&
      match Sem(o, l, st)
      case Failed => true
      case Done(a, s1) =>
        if op == And || op == Or then Typed(o, r).Some? && ((op == And) == (a.n == 0) || Lookable(o, r, s1))
        else Lookable(o, r, s1)
  }

  /** What EVAL_NORMAL does give. */
  function Given(o: Ops, pos: nat, st: Store, e: Expr): (r: Result) {
    if Lookable(o, e, st) then Expected(o, pos, st, e) else Error
  }

  /** EVAL_NORMAL gives the tree's value and final store, fails where the tree has none, and stops just past the
      subexpression; but it fails as well if an operand that it only looks at cannot be looked at. */
  lemma {:induction false} EvalMeaning(o: Ops, v: seq<Elt>, pos: nat, st: Store, e: Expr)
    requires At(v, pos, e) && Supported(e)
    ensures Eval(o, v, pos, Normal, st) == Given(o, pos, st, e)
    decreases e, 2
  {
    match e
    case Const(_, n) => LeafAt(v, pos, e);
    case Var(x) => LeafAt(v, pos, e);
    case Prefix(op, a) => AtOne(v, pos, OpPre(op), a); EvalMeaning(o, v, pos + 1, st, a);
    case Suffix(op, a) => AtOne(v, pos, OpSuf(op), a); EvalMeaning(o, v, pos + 1, st, a);
    case Cond(c, t, f) => CondMeaning(o, v, pos, st, c, t, f);
    case Modify(op, l, r) => ModifyMeaning(o, v, pos, st, op, l, r);
    case Binary(op, l, r) =>
      if op == And || op == Or {
        LogicalMeaning(o, v, pos, st, op, l, r);
      } else {
        BinaryMeaning(o, v, pos, st, op, l, r);
      }
  }

  lemma {:induction false} CondMeaning(o: Ops, v: seq<Elt>, pos: nat, st: Store, c: Expr, t: Expr, f: Expr)
    requires At(v, pos, Cond(c, t, f)) && Supported(Cond(c, t, f))
    ensures Eval(o, v, pos, Normal, st) == Given(o, pos, st, Cond(c, t, f))
    decreases Cond(c, t, f), 1
  {
    AtThree(v, pos, c, t, f);
    EvalMeaning(o, v, pos + 1, st, c);
    var a := Sem(o, c, st);
    if Lookable(o, c, st) && a.Done? {
      if a.v.n == 0 { ElseMeaning(o, v, pos, st, c, t, f, a); } else { ThenMeaning(o, v, pos, st, c, t, f, a); }
    }
  }

  lemma {:induction false} ElseMeaning(o: Ops, v: seq<Elt>, pos: nat, st: Store, c: Expr, t: Expr, f: Expr, a: Outcome)
    requires At(v, pos, Cond(c, t, f)) && Supported(Cond(c, t, f)) && a == Sem(o, c, st) && a.Done? && a.v.n == 0
    requires Lookable(o, c, st) && Eval(o, v, pos + 1, Normal, st) == Expected(o, pos + 1, st, c)
    ensures Eval(o, v, pos, Normal, st) == Given(o, pos, st, Cond(c, t, f))
    decreases Cond(c, t, f), 0
  {
    AtThree(v, pos, c, t, f);
    var p1 := End(pos + 1, c);
    EvalSkips(o, v, p1, a.st, t);
    EvalMeaning(o, v, End(p1, t), a.st, f);
    ElseTaken(o, v, pos, Normal, st, a.v, p1, a.st, End(p1, t));
  }

  lemma {:induction false} ThenMeaning(o: Ops, v: seq<Elt>, pos: nat, st: Store, c: Expr, t: Expr, f: Expr, a: Outcome)
    requires At(v, pos, Cond(c, t, f)) && Supported(Cond(c, t, f)) && a == Sem(o, c, st) && a.Done? && a.v.n != 0
    requires Lookable(o, c, st) && Eval(o, v, pos + 1, Normal, st) == Expected(o, pos + 1, st, c)
    ensures Eval(o, v, pos, Normal, st) == Given(o, pos, st, Cond(c, t, f))
    decreases Cond(c, t, f), 0
  {
    AtThree(v, pos, c, t, f);
    var p1 := End(pos + 1, c);
    EvalMeaning(o, v, p1, a.st, t);
    var r := Eval(o, v, p1, Normal, a.st);
    if r.Ok? { EvalSkips(o, v, End(p1, t), r.st, f); }
    ThenTaken(o, v, pos, Normal, st, a.v, p1, a.st, r, End(End(p1, t), f));
  }

  lemma {:induction false} ModifyMeaning(o: Ops, v: seq<Elt>, pos: nat, st: Store, op: BinOp, l: Expr, r: Expr)
    requires At(v, pos, Modify(op, l, r)) && Supported(Modify(op, l, r))
    ensures Eval(o, v, pos, Normal, st) == Given(o, pos, st, Modify(op, l, r))
    decreases Modify(op, l, r), 0
  {
    ModifyAt(v, pos, op, l, r);
    EvalMeaning(o, v, pos + 3, st, l);
    if Sem(o, l, st).Done? {
      EvalMeaning(o, v, End(pos + 3, l), Sem(o, l, st).st, r);
    }
  }

  lemma {:induction false} BinaryMeaning(o: Ops, v: seq<Elt>, pos: nat, st: Store, op: BinOp, l: Expr, r: Expr)
    requires At(v, pos, Binary(op, l, r)) && Supported(Binary(op, l, r)) && op != And && op != Or
    ensures Eval(o, v, pos, Normal, st) == Given(o, pos, st, Binary(op, l, r))
    decreases Binary(op, l, r), 0
  {
    BinaryAt(v, pos, op, l, r);
    EvalMeaning(o, v, pos + 1, st, l);
    var a := Sem(o, l, st);
    if Lookable(o, l, st) && a.Done? {
      EvalMeaning(o, v, End(pos + 1, l), a.st, r);
      BothEvaluated(o, v, pos, st, op, a.v, End(pos + 1, l), a.st);
    }
  }

  /** A binary operator, once its first operand has been evaluated. */
  lemma {:induction false} BothEvaluated(o: Ops, v: seq<Elt>, pos: nat, st: Store, op: BinOp, a: Value, p1: nat,
                                         s1: Store)
    requires pos < |v| && v[pos] == OpBin(op) && op != And && op != Or
             && Eval(o, v, pos + 1, Normal, st) == Ok(a, p1, s1)
    ensures Eval(o, v, pos, Normal, st)
            == match Eval(o, v, p1, Normal, s1)
               case Error => Error
               case Ok(b, p2, s2) => Combine(o, op, Normal, a, b, p2, s2)
  {
  }

  /** `&&` and `||` evaluate the right operand exactly when C does, although the cursor passes it twice. */
  lemma {:induction false} LogicalMeaning(o: Ops, v: seq<Elt>, pos: nat, st: Store, op: BinOp, l: Expr, r: Expr)
    requires At(v, pos, Binary(op, l, r)) && Supported(Binary(op, l, r)) && (op == And || op == Or)
    ensures Eval(o, v, pos, Normal, st) == Given(o, pos, st, Binary(op, l, r))
    decreases Binary(op, l, r), 0
  {
    BinaryAt(v, pos, op, l, r);
    EvalMeaning(o, v, pos + 1, st, l);
    var a := Sem(o, l, st);
    if Lookable(o, l, st) && a.Done? {
      var p1 := End(pos + 1, l);
      EvalTyped(o, v, p1, a.st, r);
      if Typed(o, r).Some? {
        EvalSkips(o, v, p1, a.st, r);
        EvalMeaning(o, v, p1, a.st, r);
        var skip := (op == And) == (a.v.n == 0);
        LookedAt(o, v, pos, Normal, st, op, a.v, p1, a.st, Eval(o, v, p1, if skip then Skip else Normal, a.st));
      }
    }
  }

  /** evaluate_expression and evaluate_type on the vector of a tree. */
  lemma {:induction false} EvaluateExpression(o: Ops, e: Expr, st: Store)
    requires Supported(e)
    ensures Eval(o, Encode(e), 0, Normal, st) == Expected(o, 0, st, e) <==> Lookable(o, e, st) || Sem(o, e, st).Failed?
    ensures Eval(o, Encode(e), 0, AvoidSideEffects, st) == TypedResult(o, 0, st, e)
  {
    assert Encode(e)[0..|Encode(e)|] == Encode(e);
    EvalMeaning(o, Encode(e), 0, st, e);
    EvalTyped(o, Encode(e), 0, st, e);
  }

  // ---------------------------------------------------------------------------
  // Division by zero

  /** Operations that fail on a zero divisor only. */
  ghost predicate FailsOnZero(o: Ops) {
    forall op: BinOp, a: int, b: int :: o.bin(op, a, b) == None <==> (op == Div || op == Rem) && b == 0
  }

  /** Is there a remainder whose divisor is taken to be zero when `e` is looked at? Only the operand of `?:` that is
      chosen then counts. */
  predicate RemByZero(o: Ops, e: Expr) {
    match e
    case Const(_, _) => false
    case Var(_) => false
    case Prefix(_, e1) => RemByZero(o, e1)
    case Suffix(_, e1) => RemByZero(o, e1)
    case Cond(c, t, f) =>
      RemByZero(o, c) || (Typed(o, c).Some? && if Typed(o, c).value.n == 0 then RemByZero(o, f) else RemByZero(o, t))
    case Modify(_, l, r) => RemByZero(o, l) || RemByZero(o, r)
    case Binary(op, l, r) =>
      RemByZero(o, l) || RemByZero(o, r) || (op == Rem && Typed(o, r).Some? && Typed(o, r).value.n == 0)
  }

  /** Looking at an expression fails exactly at a remainder whose divisor is taken to be zero: quotients are spared. */
  lemma {:induction false} TypedFails(o: Ops, e: Expr)
    requires FailsOnZero(o) && Supported(e)
    ensures Typed(o, e) == None <==> RemByZero(o, e)
  {
    match e
    case Const(_, _) =>
    case Var(_) =>
    case Prefix(_, a) => TypedFails(o, a);
    case Suffix(_, a) => TypedFails(o, a);
    case Cond(c, t, f) => TypedFails(o, c); TypedFails(o, t); TypedFails(o, f);
    case Modify(_, l, r) => TypedFails(o, l); TypedFails(o, r);
    case Binary(_, l, r) => TypedFails(o, l); TypedFails(o, r);
  }

  /** `1 && n % x` fails although x is not zero. */
  lemma {:induction false} RemainderLooked(o: Ops, n: int, x: Symbol, st: Store)
    requires FailsOnZero(o) && Fetch(st, x) != 0
    ensures var e := Binary(And, Const(Int, 1), Binary(Rem, Const(Int, n), Var(x)));
            Sem(o, e, st).Done? && Eval(o, Encode(e), 0, Normal, st) == Error
  {
    var rem := Binary(Rem, Const(Int, n), Var(x));
    var e := Binary(And, Const(Int, 1), rem);
    assert Sem(o, rem, st).Done? && Typed(o, rem) == None;
    EvaluateExpression(o, e, st);
    assert Encode(e)[0..|Encode(e)|] == Encode(e);
    EvalMeaning(o, Encode(e), 0, st, e);
  }

  /** evaluate_subexp as it runs: the cursor and the store are changed in place. */
  class Evaluator {
    const o: Ops
    const v: seq<Elt>
    var pos: nat
    var st: Store

    constructor (o: Ops, v: seq<Elt>, st: Store)
      ensures this.o == o && this.v == v && this.pos == 0 && this.st == st
    {
      this.o, this.v, this.pos, this.st := o, v, 0, st;
    }

    /** Assign to an lvalue. */
    method ValueAssign(to: Value, n: int) returns (ok: bool, val: Value)
      modifies `st
      ensures if ok then Assigned(to, n, old(st)) == Done(val, st) else Assigned(to, n, old(st)) == Failed
    {
      if to.lval == None {
        return false, to;
      }
      st := st[to.lval.value := n];
      return true, Value(n, to.lval);
    }

    method EvaluateSubexp(mode: Noside) returns (ok: bool, val: Value)
      modifies this
      ensures var r := Eval(o, v, old(pos), mode, old(st));
              if ok then r == Ok(val, pos, st) else r == Error
      decreases |v| - pos, 2
    {
      ok, val := false, SkipValue;
      var pc := pos;
      if pc >= |v| {
        return;
      }
      pos := pos + 1;
      match v[pc]
      case OpLong =>
        if pc + 4 <= |v| && v[pc + 2].Long? {
          pos := pos + 3;
          ok, val := true, Value(v[pc + 2].n, None);
        }
      case OpVar =>
        if pc + 3 <= |v| && v[pc + 1].Sym? {
          pos := pos + 2;
          var x := v[pc + 1].x;
          ok := true;
          val := if mode == Skip then SkipValue
                 else if mode == Normal then Value(Fetch(st, x), Some(x))
                 else Value(0, Some(x));
        }
      case OpPre(op) =>
        if !Scalar(op) {
          return;
        }
        var good, a := EvaluateSubexp(mode);
        if !good {
          return;
        }
        if op == PreIncrement || op == PreDecrement {
          ok, val := StepVariable(if op == PreIncrement then Add else Sub, mode, a, false);
        } else {
          ok, val := true, if mode == Skip then SkipValue else Value(ApplyPre(o, op, a.n), None);
        }
      case OpSuf(op) =>
        var good, a := EvaluateSubexp(mode);
        if !good {
          return;
        }
        ok, val := StepVariable(if op == PostIncrement then Add else Sub, mode, a, true);
      case OpCond => ok, val := EvaluateCond(pc, mode);
      case OpModify => ok, val := EvaluateModify(pc, mode);
      case OpBin(op) => ok, val := EvaluateBinary(pc, op, mode);
      case _ =>
    }

    method StepVariable(op: BinOp, mode: Noside, a: Value, before: bool) returns (ok: bool, val: Value)
      modifies `st
      ensures var r := Step(o, op, mode, a, before, pos, old(st));
              if ok then r == Ok(val, pos, st) else r == Error
    {
      if mode != Normal {
        return true, a;
      }
      var n := o.bin(op, a.n, 1);
      if n == None {
        return false, a;
      }
      ok, val := ValueAssign(a, n.value);
      if ok && before {
        val := a;
      }
    }

    method EvaluateCond(ghost pc: nat, mode: Noside) returns (ok: bool, val: Value)
      requires pc < |v| && v[pc] == OpCond && pos == pc + 1
      modifies this
      ensures var r := Eval(o, v, pc, mode, old(st));
              if ok then r == Ok(val, pos, st) else r == Error
      decreases |v| - pc, 0
    {
      var arg1;
      ok, arg1 := EvaluateSubexp(mode);
      val := arg1;
      if !ok {
        return;
      }
      if arg1.n == 0 {
        ok, val := EvaluateSubexp(Skip);
        if ok {
          ok, val := EvaluateSubexp(mode);
        }
      } else {
        ok, val := EvaluateSubexp(mode);
        if ok {
          var skipped;
          ok, skipped := EvaluateSubexp(Skip);
        }
      }
    }

    method EvaluateModify(pc: nat, mode: Noside) returns (ok: bool, val: Value)
      requires pc < |v| && v[pc] == OpModify && pos == pc + 1
      modifies this
      ensures var r := Eval(o, v, pc, mode, old(st));
              if ok then r == Ok(val, pos, st) else r == Error
      decreases |v| - pc, 0
    {
      if pc + 3 > |v| || !v[pc + 1].OpBin? {
        return false, SkipValue;
      }
      pos := pos + 2;
      ok, val := EvaluateSubexp(mode);
      if !ok {
        return;
      }
      var arg2;
      ok, arg2 := EvaluateSubexp(mode);
      if !ok || mode != Normal {
        return;
      }
      var n := o.bin(v[pc + 1].op, val.n, arg2.n);
      if n == None {
        return false, val;
      }
      ok, val := ValueAssign(val, n.value);
    }

    method EvaluateBinary(ghost pc: nat, op: BinOp, mode: Noside) returns (ok: bool, val: Value)
      requires pc < |v| && v[pc] == OpBin(op) && pos == pc + 1
      modifies this
      ensures var r := Eval(o, v, pc, mode, old(st));
              if ok then r == Ok(val, pos, st) else r == Error
      decreases |v| - pc, 1
    {
      if op == And || op == Or {
        ok, val := EvaluateLogical(pc, op, mode);
        return;
      }
      var arg1, arg2;
      ok, arg1 := EvaluateSubexp(mode);
      val := arg1;
      if !ok {
        return;
      }
      ok, arg2 := EvaluateSubexp(mode);
      if !ok {
        return;
      }
      ok, val := Finish(op, mode, arg1, arg2);
    }

    /** The operation itself. */
    method Finish(op: BinOp, mode: Noside, arg1: Value, arg2: Value) returns (ok: bool, val: Value)
      modifies `st
      ensures var r := Combine(o, op, mode, arg1, arg2, pos, old(st));
              if ok then r == Ok(val, pos, st) else r == Error
    {
      if op == Assign && mode != Normal {
        return true, arg1;
      }
      if op == Assign {
        ok, val := ValueAssign(arg1, arg2.n);
      } else if op == Comma {
        return true, arg2;
      } else if mode == Skip {
        return true, SkipValue;
      } else if mode == AvoidSideEffects && op == Div {
        return true, Value(0, None);
      } else {
        var n := Apply(o, op, arg1.n, arg2.n);
        if n == None {
          return false, arg1;
        }
        return true, Value(n.value, None);
      }
    }

    /** `&&` and `||`. */
    method EvaluateLogical(ghost pc: nat, op: BinOp, mode: Noside) returns (ok: bool, val: Value)
      requires pc < |v| && v[pc] == OpBin(op) && pos == pc + 1 && (op == And || op == Or)
      modifies this
      ensures var r := Eval(o, v, pc, mode, old(st));
              if ok then r == Ok(val, pos, st) else r == Error
      decreases |v| - pc, 0
    {
      var arg1, arg2;
      ok, arg1 := EvaluateSubexp(mode);
      val := arg1;
      if !ok {
        return;
      }
      if mode == Skip {
        ok, arg2 := EvaluateSubexp(Skip);
        val := SkipValue;
        return;
      }
      var oldpos := pos;
      ok, arg2 := EvaluateSubexp(AvoidSideEffects);
      if !ok {
        return;
      }
      pos := oldpos;
      var skip := (op == And) == (arg1.n == 0);
      ok, arg2 := EvaluateSubexp(if skip then Skip else mode);
      val := Value(Truths(op, arg1.n, arg2.n), None);
    }
  }
}
