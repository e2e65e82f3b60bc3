/** What the operators give, in terms of numbers and of what can be read afterwards, and expressions that give the same.

    Everything here is about evaluating the vectors of whole expressions. */
module ExprLaws {
  import opened Common
  import opened Expressions

  /** Evaluating `e` gives the value `a` and leaves the store `s`. */
  predicate Gives(o: Ops, e: Expr, st: Store, a: Value, s: Store) {
    Eval(o, Encode(e), 0, Normal, st) == Ok(a, |Encode(e)|, s)
  }

  /** Evaluating `e` is given up with an error. */
  predicate Fails(o: Ops, e: Expr, st: Store) { Eval(o, Encode(e), 0, Normal, st) == Error }

  /** What evaluating `e` comes to. */
  function Meaning(o: Ops, e: Expr, st: Store): (r: Outcome) { if Lookable(o, e, st) then Sem(o, e, st) else Failed }

  lemma {:induction false} GivesMeaning(o: Ops, e: Expr, st: Store)
    requires Supported(e)
    ensures forall a, s :: Gives(o, e, st, a, s) <==> Meaning(o, e, st) == Done(a, s)
    ensures Fails(o, e, st) <==> Meaning(o, e, st).Failed?
  {
    assert Encode(e)[0..|Encode(e)|] == Encode(e);
    EvalMeaning(o, Encode(e), 0, st, e);
  }

  /** Both operands of an operator, one after the other. */
  predicate Operands(o: Ops, l: Expr, r: Expr, st: Store, a: Value, s1: Store, b: Value, s2: Store) {
    Supported(l) && Supported(r) && Gives(o, l, st, a, s1) && Gives(o, r, s1, b, s2)
  }

  lemma {:induction false} OperandsMean(o: Ops, l: Expr, r: Expr, st: Store, a: Value, s1: Store, b: Value, s2: Store)
    requires Operands(o, l, r, st, a, s1, b, s2)
    ensures Meaning(o, l, st) == Done(a, s1) && Meaning(o, r, s1) == Done(b, s2)
  {
    GivesMeaning(o, l, st);
    GivesMeaning(o, r, s1);
  }

  // ---------------------------------------------------------------------------
  // The meaning of an operator in terms of those of its operands

  function Not(e: Expr): (r: Expr) { Prefix(Zerop, e) }

  lemma {:induction false} NotMeans(o: Ops, e: Expr, st: Store)
    ensures Meaning(o, Not(e), st)
            == match Meaning(o, e, st)
               case Failed => Failed
               case Done(a, s) => Done(Value(if a.n == 0 then 1 else 0, None), s)
  {
  }

  /** An operator that evaluates both operands and stores nothing. */
  predicate Plain(op: BinOp) { IsCompare(op) || IsArith(op) }

  lemma {:induction false} PlainMeans(o: Ops, op: BinOp, l: Expr, r: Expr, st: Store)
    requires Plain(op)
    ensures Meaning(o, Binary(op, l, r), st)
            == match Meaning(o, l, st)
               case Failed => Failed
               case Done(a, s1) =>
                 match Meaning(o, r, s1)
                 case Failed => Failed
                 case Done(b, s2) =>
                   match Apply(o, op, a.n, b.n) case None => Failed case Some(n) => Done(Value(n, None), s2)
  {
    assert op != And && op != Or && op != Comma && op != Assign;
  }

  lemma {:induction false} LogicalMeans(o: Ops, op: BinOp, l: Expr, r: Expr, st: Store)
    requires op == And || op == Or
    ensures Meaning(o, Binary(op, l, r), st)
            == match Meaning(o, l, st)
               case Failed => Failed
               case Done(a, s1) =>
                 if Typed(o, r) == None then Failed
                 else if (op == And) == (a.n == 0) then Done(Value(Truth(op == Or), None), s1)
                 else
                   match Meaning(o, r, s1)
                   case Failed => Failed
                   case Done(b, s2) => Done(Value(Truth(b.n != 0), None), s2)
  {
  }

  lemma {:induction false} AssignMeans(o: Ops, l: Expr, r: Expr, st: Store)
    ensures Meaning(o, Binary(Assign, l, r), st)
            == match Meaning(o, l, st)
               case Failed => Failed
               case Done(a, s1) =>
                 match Meaning(o, r, s1) case Failed => Failed case Done(b, s2) => Assigned(a, b.n, s2)
  {
  }

  lemma {:induction false} ModifyMeans(o: Ops, op: BinOp, l: Expr, r: Expr, st: Store)
    ensures Meaning(o, Modify(op, l, r), st)
            == match Meaning(o, l, st)
               case Failed => Failed
               case Done(a, s1) =>
                 match Meaning(o, r, s1)
                 case Failed => Failed
                 case Done(b, s2) => AssignedResult(a, o.bin(op, a.n, b.n), s2)
  {
  }

  lemma {:induction false} CondMeans(o: Ops, c: Expr, t: Expr, f: Expr, st: Store)
    ensures Meaning(o, Cond(c, t, f), st)
            == match Meaning(o, c, st)
               case Failed => Failed
               case Done(a, s1) => Meaning(o, if a.n == 0 then f else t, s1)
  {
  }

  // ---------------------------------------------------------------------------
  // Values

  /** A constant gives itself, and a variable what is stored for it. */
  lemma {:induction false} LeafGives(o: Ops, k: Kind, n: int, x: Symbol, st: Store)
    ensures Gives(o, Const(k, n), st, Value(n, None), st)
    ensures x in st ==> Gives(o, Var(x), st, Value(st[x], Some(x)), st)
  {
    GivesMeaning(o, Const(k, n), st);
    GivesMeaning(o, Var(x), st);
  }

  /** Integers compare as they should. */
  ghost predicate Compares(o: Ops) {
    forall a, b {:trigger o.less(a, b)} {:trigger o.equal(a, b)} ::
      (o.less(a, b) <==> a < b) && (o.equal(a, b) <==> a == b)
  }

  /** The six comparisons give 1 if the left operand and the right one are as they say, and 0 if not. */
  lemma {:induction false} ComparisonGives(o: Ops, op: BinOp, l: Expr, r: Expr, st: Store, a: Value, s1: Store,
                                           b: Value,
                                           s2: Store)
    requires Compares(o) && IsCompare(op) && Operands(o, l, r, st, a, s1, b, s2)
    ensures var holds := match op
                         case Equal => a.n == b.n
                         case NotEqual => a.n != b.n
                         case Less => a.n < b.n
                         case Gtr => a.n > b.n
                         case Leq => a.n <= b.n
                         case _ => a.n >= b.n;
            Gives(o, Binary(op, l, r), st, Value(if holds then 1 else 0, None), s2)
  {
    OperandsMean(o, l, r, st, a, s1, b, s2);
    PlainMeans(o, op, l, r, st);
    GivesMeaning(o, Binary(op, l, r), st);
  }

  /** An arithmetic operator gets its operands in their order, and the expression fails exactly if it does. */
  lemma {:induction false} ArithmeticGives(o: Ops, op: BinOp, l: Expr, r: Expr, st: Store, a: Value, s1: Store,
                                           b: Value,
                                           s2: Store)
    requires IsArith(op) && Operands(o, l, r, st, a, s1, b, s2)
    ensures var n := o.bin(op, a.n, b.n);
            if n.Some? then Gives(o, Binary(op, l, r), st, Value(n.value, None), s2)
            else Fails(o, Binary(op, l, r), st)
  {
    OperandsMean(o, l, r, st, a, s1, b, s2);
    PlainMeans(o, op, l, r, st);
    GivesMeaning(o, Binary(op, l, r), st);
  }

  /** A comma gives what its second operand gives. */
  lemma {:induction false} CommaGives(o: Ops, l: Expr, r: Expr, st: Store, a: Value, s1: Store, b: Value, s2: Store)
    requires Operands(o, l, r, st, a, s1, b, s2)
    ensures Gives(o, Binary(Comma, l, r), st, b, s2)
  {
    OperandsMean(o, l, r, st, a, s1, b, s2);
    GivesMeaning(o, Binary(Comma, l, r), st);
  }

  /** `!` gives 1 for zero and 0 for anything else; `-` and `~` give what the value library makes of the operand. */
  lemma {:induction false} PrefixGives(o: Ops, e: Expr, st: Store, a: Value, s: Store)
    requires Supported(e) && Gives(o, e, st, a, s)
    ensures Gives(o, Prefix(Zerop, e), st, Value(if a.n == 0 then 1 else 0, None), s)
    ensures Gives(o, Prefix(Neg, e), st, Value(o.neg(a.n), None), s)
    ensures Gives(o, Prefix(LogNot, e), st, Value(o.lognot(a.n), None), s)
  {
    GivesMeaning(o, e, st);
    NotMeans(o, e, st);
    GivesMeaning(o, Prefix(Zerop, e), st);
    GivesMeaning(o, Prefix(Neg, e), st);
    GivesMeaning(o, Prefix(LogNot, e), st);
  }

  /** The operand of `?:` that the condition chooses gives the value, and the other one nothing. */
  lemma {:induction false} CondGives(o: Ops, c: Expr, t: Expr, f: Expr, st: Store, a: Value, s1: Store, b: Value,
                                     s2: Store)
    requires Supported(t) && Supported(f) && Operands(o, c, if a.n != 0 then t else f, st, a, s1, b, s2)
    ensures Gives(o, Cond(c, t, f), st, b, s2)
  {
    OperandsMean(o, c, if a.n != 0 then t else f, st, a, s1, b, s2);
    CondMeans(o, c, t, f, st);
    GivesMeaning(o, Cond(c, t, f), st);
  }

  /** The right operand can be looked at for its type. */
  predicate CanLook(o: Ops, e: Expr, st: Store) { Eval(o, Encode(e), 0, AvoidSideEffects, st).Ok? }

  /** If the left operand decides, `&&` gives 0 and `||` gives 1, and the right one leaves no trace. */
  lemma {:induction false} ShortGives(o: Ops, l: Expr, r: Expr, st: Store, a: Value, s: Store)
    requires Supported(l) && Supported(r) && Gives(o, l, st, a, s) && CanLook(o, r, s)
    ensures if a.n == 0 then Gives(o, Binary(And, l, r), st, Value(0, None), s)
            else Gives(o, Binary(Or, l, r), st, Value(1, None), s)
  {
    GivesMeaning(o, l, st);
    EvaluateExpression(o, r, s);
    var op := if a.n == 0 then And else Or;
    LogicalMeans(o, op, l, r, st);
    GivesMeaning(o, Binary(op, l, r), st);
  }

  /** If it does not, they give 1 if the right operand is not zero, and 0 if it is. */
  lemma {:induction false} LongGives(o: Ops, l: Expr, r: Expr, st: Store, a: Value, s1: Store, b: Value, s2: Store)
    requires Operands(o, l, r, st, a, s1, b, s2) && CanLook(o, r, s1)
    ensures var e := if a.n == 0 then Binary(Or, l, r) else Binary(And, l, r);
            Gives(o, e, st, Value(if b.n != 0 then 1 else 0, None), s2)
  {
    OperandsMean(o, l, r, st, a, s1, b, s2);
    assert Typed(o, r).Some? by { EvaluateExpression(o, r, s1); }
    var op := if a.n == 0 then Or else And;
    LogicalMeans(o, op, l, r, st);
    GivesMeaning(o, Binary(op, l, r), st);
  }

  // ---------------------------------------------------------------------------
  // What is read afterwards

  /** In the store `t` variable `x` reads as `n`, and every other one as in `s`. */
  ghost predicate Stored(o: Ops, s: Store, x: Symbol, n: int, t: Store) {
    && Gives(o, Var(x), t, Value(n, Some(x)), t)
    && forall y, w :: y != x ==> (Gives(o, Var(y), s, w, s) <==> Gives(o, Var(y), t, w, t))
  }

  lemma {:induction false} StoredThere(o: Ops, s: Store, x: Symbol, n: int)
    ensures Stored(o, s, x, n, s[x := n])
  {
    var t := s[x := n];
    GivesMeaning(o, Var(x), t);
    forall y, w | y != x ensures Gives(o, Var(y), s, w, s) <==> Gives(o, Var(y), t, w, t) {
      GivesMeaning(o, Var(y), s);
      GivesMeaning(o, Var(y), t);
    }
  }

  /** An assignment stores the right operand in the variable that the left one stands for, and is that variable; without
      one it fails. */
  lemma {:induction false} AssignGives(o: Ops, l: Expr, r: Expr, st: Store, a: Value, s1: Store, b: Value, s2: Store)
    requires Operands(o, l, r, st, a, s1, b, s2)
    ensures var e := Binary(Assign, l, r);
            if a.lval.Some? then exists t :: Gives(o, e, st, Value(b.n, a.lval), t)
                                             && Stored(o, s2, a.lval.value, b.n, t)
            else Fails(o, e, st)
  {
    OperandsMean(o, l, r, st, a, s1, b, s2);
    AssignMeans(o, l, r, st);
    GivesMeaning(o, Binary(Assign, l, r), st);
    if a.lval.Some? {
      StoredThere(o, s2, a.lval.value, b.n);
      assert Gives(o, Binary(Assign, l, r), st, Value(b.n, a.lval), s2[a.lval.value := b.n]);
    }
  }

  /** `op=` stores what the operator gives for what the left operand was before the right one was evaluated. */
  lemma {:induction false} ModifyGives(o: Ops, op: BinOp, l: Expr, r: Expr, st: Store, a: Value, s1: Store, b: Value,
                                       s2: Store)
    requires IsArith(op) && Operands(o, l, r, st, a, s1, b, s2)
    ensures var e, n := Modify(op, l, r), o.bin(op, a.n, b.n);
            if a.lval.Some? && n.Some? then exists t :: Gives(o, e, st, Value(n.value, a.lval), t)
                                                        && Stored(o, s2, a.lval.value, n.value, t)
            else Fails(o, e, st)
  {
    OperandsMean(o, l, r, st, a, s1, b, s2);
    ModifyMeans(o, op, l, r, st);
    GivesMeaning(o, Modify(op, l, r), st);
    var n := o.bin(op, a.n, b.n);
    if a.lval.Some? && n.Some? {
      StoredThere(o, s2, a.lval.value, n.value);
      assert Gives(o, Modify(op, l, r), st, Value(n.value, a.lval), s2[a.lval.value := n.value]);
    }
  }

  /** Adding and subtracting 1 is possible and what it should be. */
  ghost predicate Counts(o: Ops) { forall a :: o.bin(Add, a, 1) == Some(a + 1) && o.bin(Sub, a, 1) == Some(a - 1) }

  /** What `++` and `--` make of a number. */
  function Stepped(up: bool, n: int): (r: int) { if up then n + 1 else n - 1 }

  /** In front of a variable they give what is stored, behind it what was there before. */
  lemma {:induction false} StepGives(o: Ops, up: bool, e: Expr, st: Store, a: Value, s: Store)
    requires Counts(o) && Supported(e) && Gives(o, e, st, a, s)
    ensures var pre := Prefix(if up then PreIncrement else PreDecrement, e);
            var post := Suffix(if up then PostIncrement else PostDecrement, e);
            if a.lval.Some? then
              exists t :: Stored(o, s, a.lval.value, Stepped(up, a.n), t)
                          && Gives(o, pre, st, Value(Stepped(up, a.n), a.lval), t) && Gives(o, post, st, a, t)
            else Fails(o, pre, st) && Fails(o, post, st)
  {
    var pre := Prefix(if up then PreIncrement else PreDecrement, e);
    var post := Suffix(if up then PostIncrement else PostDecrement, e);
    GivesMeaning(o, e, st);
    GivesMeaning(o, pre, st);
    GivesMeaning(o, post, st);
    if a.lval.Some? {
      var t := s[a.lval.value := Stepped(up, a.n)];
      StoredThere(o, s, a.lval.value, Stepped(up, a.n));
      assert Gives(o, pre, st, Value(Stepped(up, a.n), a.lval), t) && Gives(o, post, st, a, t);
    }
  }

  // ---------------------------------------------------------------------------
  // Expressions that give the same

  /** Value, store and failure are the same, in every store. */
  ghost predicate Same(o: Ops, e: Expr, f: Expr) {
    forall st :: (forall a, s :: Gives(o, e, st, a, s) <==> Gives(o, f, st, a, s))
      && (Fails(o, e, st) <==> Fails(o, f, st))
  }

  lemma {:induction false} SameMeaning(o: Ops, e: Expr, f: Expr)
    requires Supported(e) && Supported(f) && forall st :: Meaning(o, e, st) == Meaning(o, f, st)
    ensures Same(o, e, f)
  {
    forall st
      ensures (forall a, s :: Gives(o, e, st, a, s) <==> Gives(o, f, st, a, s))
      ensures Fails(o, e, st) <==> Fails(o, f, st)
    {
      GivesMeaning(o, e, st);
      GivesMeaning(o, f, st);
      assert Meaning(o, e, st) == Meaning(o, f, st);
    }
  }

  /** The comparison that holds exactly if `op` does not. */
  function Opposite(op: BinOp): (r: BinOp)
    requires IsCompare(op)
    ensures IsCompare(r) && r != op
  {
    match op
    case Equal => NotEqual case NotEqual => Equal
    case Less => Geq case Geq => Less case Gtr => Leq case _ => Gtr
  }

  lemma OppositeTruth(o: Ops, op: BinOp, a: int, b: int)
    requires IsCompare(op)
    ensures Compare(o, Opposite(op), a, b) == 1 - Compare(o, op, a, b)
  {
  }

  /** A comparison denied is the opposite comparison, whatever the value library says and whatever the operands do. */
  lemma {:induction false} Opposites(o: Ops, op: BinOp, l: Expr, r: Expr)
    requires IsCompare(op) && Supported(l) && Supported(r)
    ensures Same(o, Not(Binary(op, l, r)), Binary(Opposite(op), l, r))
  {
    forall st ensures Meaning(o, Not(Binary(op, l, r)), st) == Meaning(o, Binary(Opposite(op), l, r), st) {
      NotMeans(o, Binary(op, l, r), st);
      PlainMeans(o, op, l, r, st);
      PlainMeans(o, Opposite(op), l, r, st);
      var a := Meaning(o, l, st);
      if a.Done? && Meaning(o, r, a.st).Done? { OppositeTruth(o, op, a.v.n, Meaning(o, r, a.st).v.n); }
    }
    SameMeaning(o, Not(Binary(op, l, r)), Binary(Opposite(op), l, r));
  }

  /** De Morgan's laws hold with all side effects and failures. */
  lemma {:induction false} DeMorgan(o: Ops, op: BinOp, l: Expr, r: Expr)
    requires (op == And || op == Or) && Supported(l) && Supported(r)
    ensures Same(o, Not(Binary(op, l, r)), Binary(if op == And then Or else And, Not(l), Not(r)))
  {
    var e, f := Not(Binary(op, l, r)), Binary(if op == And then Or else And, Not(l), Not(r));
    forall st ensures Meaning(o, e, st) == Meaning(o, f, st) {
      NotMeans(o, Binary(op, l, r), st);
      NotMeans(o, l, st);
      LogicalMeans(o, op, l, r, st);
      LogicalMeans(o, if op == And then Or else And, Not(l), Not(r), st);
      assert Typed(o, Not(r)) == None <==> Typed(o, r) == None;
      var a := Meaning(o, l, st);
      if a.Done? { NotMeans(o, r, a.st); }
    }
    SameMeaning(o, e, f);
  }

  /** `x op= e` is `x = x op e`. */
  lemma {:induction false} ModifyAssigns(o: Ops, op: BinOp, x: Symbol, e: Expr)
    requires IsArith(op) && Supported(e)
    ensures Same(o, Modify(op, Var(x), e), Binary(Assign, Var(x), Binary(op, Var(x), e)))
  {
    var f, g := Modify(op, Var(x), e), Binary(Assign, Var(x), Binary(op, Var(x), e));
    forall st ensures Meaning(o, f, st) == Meaning(o, g, st) {
      ModifyMeans(o, op, Var(x), e, st);
      AssignMeans(o, Var(x), Binary(op, Var(x), e), st);
      PlainMeans(o, op, Var(x), e, st);
    }
    SameMeaning(o, f, g);
  }

  /** `++e` is `e += 1`, and `--e` is `e -= 1`. */
  lemma {:induction false} StepModifies(o: Ops, up: bool, e: Expr)
    requires Supported(e)
    ensures Same(o, Prefix(if up then PreIncrement else PreDecrement, e),
                 Modify(if up then Add else Sub, e, Const(Int, 1)))
  {
    var f, g := Prefix(if up then PreIncrement else PreDecrement, e), Modify(if up then Add else Sub, e, Const(Int, 1));
    forall st ensures Meaning(o, f, st) == Meaning(o, g, st) {
      ModifyMeans(o, if up then Add else Sub, e, Const(Int, 1), st);
    }
    SameMeaning(o, f, g);
  }

  /** `!c ? t : f` is `c ? f : t`. */
  lemma {:induction false} CondTurned(o: Ops, c: Expr, t: Expr, f: Expr)
    requires Supported(c) && Supported(t) && Supported(f)
    ensures Same(o, Cond(Not(c), t, f), Cond(c, f, t))
  {
    forall st ensures Meaning(o, Cond(Not(c), t, f), st) == Meaning(o, Cond(c, f, t), st) {
      CondMeans(o, Not(c), t, f, st);
      CondMeans(o, c, f, t, st);
      NotMeans(o, c, st);
    }
    SameMeaning(o, Cond(Not(c), t, f), Cond(c, f, t));
  }
}
