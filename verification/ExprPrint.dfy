/** Printing an expression in infix form, and reading it back.

    `Print` is print_subexp walking over the element vector. `Lex` finds the tokens in what was printed: blanks separate
    them, and a minus sign goes with one that follows it. `Read` is a precedence reader; the table it is given says how
    tightly operators bind. Two tables matter: the printer's own, op_print_tab, and that of the debugger's expression
    grammar. */
module ExprPrint {
  import opened Common
  import opened Expressions

  /** How operators are spelled: each binary operator in its own way, the minus sign also for negation, `++` and `--` in
      front of an operand and behind it. */
  datatype Punct = PBin(op: BinOp) | PBang | PTilde | PPlusPlus | PMinusMinus | PSizeof

  /** `TUnsigned` is a number with a `u` behind it, `TChar` a quoted character. */
  datatype Tok =
    | TNum(n: nat) | TUnsigned(u: int) | TChar(c: int) | TName(x: Symbol) | TPunct(p: Punct)
    | TOpen | TClose | TQuest | TColon | TThis | TSpace

  const MINUS := TPunct(PBin(Sub))

  function BinSpell(op: BinOp): (r: Punct) { PBin(op) }

  function PreSpell(op: PreOp): (r: Punct) {
    match op
    case Neg => PBin(Sub) case Zerop => PBang case LogNot => PTilde
    case PreIncrement => PPlusPlus case PreDecrement => PMinusMinus
    case Ind => PBin(Mul) case Addr => PBin(LogAnd) case Sizeof => PSizeof
  }

  function SufSpell(op: SufOp): (r: Punct) { if op == PostIncrement then PPlusPlus else PMinusMinus }

  function BinOf(p: Punct): (r: Option<BinOp>)
    ensures r.Some? ==> BinSpell(r.value) == p
  {
    if p.PBin? then Some(p.op) else None
  }

  function PreOf(p: Punct): (r: Option<PreOp>)
    ensures r.Some? ==> PreSpell(r.value) == p
  {
    match p
    case PBin(op) =>
      if op == Sub then Some(Neg) else if op == Mul then Some(Ind) else if op == LogAnd then Some(Addr) else None
    case PSizeof => Some(Sizeof)
    case PBang => Some(Zerop)
    case PTilde => Some(LogNot)
    case PPlusPlus => Some(PreIncrement)
    case PMinusMinus => Some(PreDecrement)
  }

  function SufOf(p: Punct): (r: Option<SufOp>)
    ensures r.Some? ==> SufSpell(r.value) == p
  {
    match p
    case PPlusPlus => Some(PostIncrement)
    case PMinusMinus => Some(PostDecrement)
    case _ => None
  }

  lemma SpellingsRead(b: BinOp, p: PreOp, s: SufOp)
    ensures BinOf(BinSpell(b)) == Some(b) && PreOf(PreSpell(p)) == Some(p) && SufOf(SufSpell(s)) == Some(s)
    ensures SufOf(BinSpell(b)) == None
  {
  }

  // ---------------------------------------------------------------------------
  // print_subexp

  const PREC_COMMA := 1
  const PREC_HYPER := 15
  const PREC_PREFIX := 16
  const PREC_SUFFIX := 17

  /** The precedences of op_print_tab. */
  function PrintPrec(op: BinOp): (r: nat) {
    match op
    case Comma => 1 case Assign => 3 case Or => 4 case And => 5 case LogIor => 6 case LogAnd => 7 case LogXor => 8
    case Equal => 9 case NotEqual => 9 case Leq => 10 case Geq => 10 case Gtr => 10 case Less => 10
    case Rsh => 11 case Lsh => 11 case Add => 12 case Sub => 12 case Mul => 13 case Div => 13 case Rem => 13
    case Repeat => 14
  }

  predicate RightAssoc(op: BinOp) { op == Assign }

  function One(b: bool): (r: nat) { if b then 1 else 0 }

  datatype Printed = Out(toks: seq<Tok>, pos: nat) | Stuck

  function Bracket(b: bool, toks: seq<Tok>): (r: seq<Tok>) {
    if b then [TOpen] + toks + [TClose] else toks
  }

  /** A constant: a negative one has a minus sign. */
  function Number(n: int): (r: seq<Tok>)
    ensures r != []
  {
    if n < 0 then [MINUS, TNum(-n)] else [TNum(n)]
  }

  const WORDS: nat := 0x1_0000_0000

  /** What a signed byte makes of a number. */
  function AsChar(n: int): (r: int)
    ensures -0x80 <= r < 0x80
  {
    (n + 0x80) % 0x100 - 0x80
  }

  /** A constant as value_print prints it: an unsigned one as a number like any other, a character as its number and
      itself. */
  function Constant(k: Kind, n: int): (r: seq<Tok>)
    ensures r != []
  {
    match k
    case Int => Number(n)
    case Unsigned => [TNum(n % WORDS)]
    case Char => Number(AsChar(n)) + [TSpace, TChar(n % 0x100)]
  }

  /** A constant as it is to be written. */
  function Literal(k: Kind, n: int): (r: seq<Tok>)
    ensures r != []
  {
    match k
    case Int => Number(n)
    case Unsigned => [TUnsigned(n)]
    case Char => [TChar(n)]
  }

  /** A prefix operator stands in front of its operand, with a blank if it is a word. */
  function Prefixed(op: PreOp): (r: seq<Tok>)
    ensures r != []
  {
    if op == Sizeof then [TPunct(PreSpell(op)), TSpace] else [TPunct(PreSpell(op))]
  }

  /** A binary operator stands between blanks, but a comma only in front of one. */
  function Infixed(op: BinOp): (r: seq<Tok>)
    ensures r != []
  {
    if op == Comma then [TPunct(BinSpell(op)), TSpace] else [TSpace, TPunct(BinSpell(op)), TSpace]
  }

  const QUEST := [TSpace, TQuest, TSpace]
  const COLON := [TSpace, TColon, TSpace]

  /** print_subexp. The case of op= runs on into that of `this`. */
  function Print(v: seq<Elt>, pos: nat, prec: nat): (r: Printed)
    ensures r.Out? ==> pos < r.pos <= |v|
    decreases |v| - pos
  {
    if pos >= |v| then Stuck
    else
      match v[pos]
      case OpLong =>
        if pos + 4 <= |v| && v[pos + 1].Type? && v[pos + 2].Long?
        then Out(Constant(v[pos + 1].kind, v[pos + 2].n), pos + 4) else Stuck
      case OpVar => if pos + 3 <= |v| && v[pos + 1].Sym? then Out([TName(v[pos + 1].x)], pos + 3) else Stuck
      case OpModify => if pos + 4 <= |v| then Out([TThis], pos + 4) else Stuck
      case OpCond =>
        (match Print(v, pos + 1, PREC_HYPER)
         case Stuck => Stuck
         case Out(a, p1) =>
           match Print(v, p1, PREC_HYPER)
           case Stuck => Stuck
           case Out(b, p2) =>
             match Print(v, p2, PREC_HYPER)
             case Stuck => Stuck
             case Out(c, p3) => Out(Bracket(prec > PREC_COMMA, a + QUEST + b + COLON + c), p3))
      case OpSuf(op) =>
        (match Print(v, pos + 1, PREC_SUFFIX)
         case Stuck => Stuck
         case Out(a, p1) => Out(a + [TPunct(SufSpell(op))], p1))
      case OpPre(op) =>
        (match Print(v, pos + 1, PREC_PREFIX)
         case Stuck => Stuck
         case Out(a, p1) => Out(Bracket(PREC_PREFIX < prec, Prefixed(op) + a), p1))
      case OpBin(op) =>
        (match Print(v, pos + 1, PrintPrec(op) + One(RightAssoc(op)))
         case Stuck => Stuck
         case Out(a, p1) =>
           match Print(v, p1, PrintPrec(op) + One(!RightAssoc(op)))
           case Stuck => Stuck
           case Out(b, p2) => Out(Bracket(PrintPrec(op) < prec, a + Infixed(op) + b), p2))
      case _ => Stuck
  }

  // ---------------------------------------------------------------------------
  // Written expressions: trees with their parentheses

  datatype Cst =
    | CNum(kind: Kind, n: int) | CName(x: Symbol) | CParen(e: Cst)
    | CBin(op: BinOp, l: Cst, r: Cst) | CPre(pre: PreOp, e: Cst) | CSuf(suf: SufOp, e: Cst)
    | CCond(c: Cst, t: Cst, e: Cst)

  function Flat(c: Cst): (r: seq<Tok>)
    ensures r != []
  {
    match c
    case CNum(k, n) => Literal(k, n)
    case CName(x) => [TName(x)]
    case CParen(e) => [TOpen] + Flat(e) + [TClose]
    case CBin(op, l, r) => Flat(l) + [TPunct(BinSpell(op))] + Flat(r)
    case CPre(op, e) => [TPunct(PreSpell(op))] + Flat(e)
    case CSuf(op, e) => Flat(e) + [TPunct(SufSpell(op))]
    case CCond(c, t, e) => Flat(c) + [TQuest] + Flat(t) + [TColon] + Flat(e)
  }

  /** The same as it is printed, with blanks, and with constants as value_print has them. */
  function Spaced(c: Cst): (r: seq<Tok>)
    ensures r != []
  {
    match c
    case CNum(k, n) => Constant(k, n)
    case CName(x) => [TName(x)]
    case CParen(e) => [TOpen] + Spaced(e) + [TClose]
    case CBin(op, l, r) => Spaced(l) + Infixed(op) + Spaced(r)
    case CPre(op, e) => Prefixed(op) + Spaced(e)
    case CSuf(op, e) => Spaced(e) + [TPunct(SufSpell(op))]
    case CCond(c, t, e) => Spaced(c) + QUEST + Spaced(t) + COLON + Spaced(e)
  }

  /** The tree without its parentheses. */
  function Strip(c: Cst): (r: Expr)
    ensures NoModify(r)
  {
    match c
    case CNum(k, n) => Const(k, n)
    case CName(x) => Var(x)
    case CParen(e) => Strip(e)
    case CBin(op, l, r) => Binary(op, Strip(l), Strip(r))
    case CPre(op, e) => Prefix(op, Strip(e))
    case CSuf(op, e) => Suffix(op, Strip(e))
    case CCond(c, t, e) => Cond(Strip(c), Strip(t), Strip(e))
  }

  predicate NoModify(e: Expr) {
    match e
    case Const(_, _) => true
    case Var(_) => true
    case Modify(_, _, _) => false
    case Binary(_, l, r) => NoModify(l) && NoModify(r)
    case Prefix(_, e) => NoModify(e)
    case Suffix(_, e) => NoModify(e)
    case Cond(c, t, e) => NoModify(c) && NoModify(t) && NoModify(e)
  }

  function Paren(b: bool, c: Cst): (r: Cst) { if b then CParen(c) else c }

  /** A tree written the way print_subexp does in a context of precedence `prec`. */
  function Written(e: Expr, prec: nat): (c: Cst)
    requires NoModify(e)
    ensures Strip(c) == e
    decreases e
  {
    match e
    case Const(k, n) => CNum(k, n)
    case Var(x) => CName(x)
    case Binary(op, l, r) =>
      Paren(PrintPrec(op) < prec,
            CBin(op, Written(l, PrintPrec(op) + One(RightAssoc(op))), Written(r, PrintPrec(op) + One(!RightAssoc(op)))))
    case Prefix(op, a) => Paren(PREC_PREFIX < prec, CPre(op, Written(a, PREC_PREFIX)))
    case Suffix(op, a) => CSuf(op, Written(a, PREC_SUFFIX))
    case Cond(c, t, f) =>
      Paren(prec > PREC_COMMA, CCond(Written(c, PREC_HYPER), Written(t, PREC_HYPER), Written(f, PREC_HYPER)))
  }

  /** print_subexp emits the written form and stops just past the subexpression. */
  lemma {:induction false} PrintWrites(v: seq<Elt>, pos: nat, prec: nat, e: Expr)
    requires At(v, pos, e) && NoModify(e)
    ensures Print(v, pos, prec) == Out(Spaced(Written(e, prec)), End(pos, e))
    decreases e, 2
  {
    match e
    case Const(_, _) => LeafAt(v, pos, e);
    case Var(x) => LeafAt(v, pos, e);
    case Prefix(op, a) =>
      AtOne(v, pos, OpPre(op), a);
      PrintWrites(v, pos + 1, PREC_PREFIX, a);
    case Suffix(op, a) =>
      AtOne(v, pos, OpSuf(op), a);
      PrintWrites(v, pos + 1, PREC_SUFFIX, a);
    case Cond(c, t, f) => PrintCond(v, pos, prec, c, t, f);
    case Binary(op, l, r) => PrintBinary(v, pos, prec, op, l, r);
  }

  lemma {:induction false} PrintCond(v: seq<Elt>, pos: nat, prec: nat, c: Expr, t: Expr, f: Expr)
    requires At(v, pos, Cond(c, t, f)) && NoModify(Cond(c, t, f))
    ensures Print(v, pos, prec) == Out(Spaced(Written(Cond(c, t, f), prec)), End(pos, Cond(c, t, f)))
    decreases Cond(c, t, f), 1
  {
    AtThree(v, pos, c, t, f);
    var p1 := End(pos + 1, c);
    CondWrites(v, pos, prec, c, p1, t, End(p1, t), f);
    CondWritten(prec, c, t, f);
    assert End(End(p1, t), f) == End(pos, Cond(c, t, f));
  }

  lemma {:induction false} CondWritten(prec: nat, c: Expr, t: Expr, f: Expr)
    requires NoModify(Cond(c, t, f))
    ensures Spaced(Written(Cond(c, t, f), prec))
            == Bracket(prec > PREC_COMMA, Spaced(Written(c, PREC_HYPER)) + QUEST + Spaced(Written(t, PREC_HYPER))
                                          + COLON + Spaced(Written(f, PREC_HYPER)))
  {
    SpacedParen(prec > PREC_COMMA, CCond(Written(c, PREC_HYPER), Written(t, PREC_HYPER), Written(f, PREC_HYPER)));
  }

  lemma {:induction false} CondWrites(v: seq<Elt>, pos: nat, prec: nat, c: Expr, p1: nat, t: Expr, p2: nat, f: Expr)
    requires pos < |v| && v[pos] == OpCond && At(v, pos + 1, c) && At(v, p1, t) && At(v, p2, f)
    requires p1 == End(pos + 1, c) && p2 == End(p1, t) && NoModify(c) && NoModify(t) && NoModify(f)
    ensures Print(v, pos, prec)
            == Out(Bracket(prec > PREC_COMMA, Spaced(Written(c, PREC_HYPER)) + QUEST + Spaced(Written(t, PREC_HYPER))
                                              + COLON + Spaced(Written(f, PREC_HYPER))), End(p2, f))
    decreases Cond(c, t, f), 0
  {
    PrintWrites(v, pos + 1, PREC_HYPER, c);
    PrintWrites(v, p1, PREC_HYPER, t);
    PrintWrites(v, p2, PREC_HYPER, f);
    PrintIsTernary(v, pos, prec, Spaced(Written(c, PREC_HYPER)), p1, Spaced(Written(t, PREC_HYPER)), p2,
                   Spaced(Written(f, PREC_HYPER)), End(p2, f));
  }

  lemma {:induction false} PrintIsTernary(v: seq<Elt>, pos: nat, prec: nat, c: seq<Tok>, p1: nat, t: seq<Tok>, p2: nat,
                                          f: seq<Tok>, p3: nat)
    requires pos < |v| && v[pos] == OpCond && Print(v, pos + 1, PREC_HYPER) == Out(c, p1)
    requires Print(v, p1, PREC_HYPER) == Out(t, p2) && Print(v, p2, PREC_HYPER) == Out(f, p3)
    ensures Print(v, pos, prec) == Out(Bracket(prec > PREC_COMMA, c + QUEST + t + COLON + f), p3)
  {
  }

  lemma {:induction false} PrintBinary(v: seq<Elt>, pos: nat, prec: nat, op: BinOp, l: Expr, r: Expr)
    requires At(v, pos, Binary(op, l, r)) && NoModify(Binary(op, l, r))
    ensures Print(v, pos, prec) == Out(Spaced(Written(Binary(op, l, r), prec)), End(pos, Binary(op, l, r)))
    decreases Binary(op, l, r), 1
  {
    BinaryAt(v, pos, op, l, r);
    var my := PrintPrec(op);
    var p, q := my + One(RightAssoc(op)), my + One(!RightAssoc(op));
    WrittenIs(op, l, r, prec, p, q);
    PrintIsInfix(v, pos, prec, op, my, p, q);
    BinaryWrites(v, pos + 1, op, l, r, my, p, q, prec);
  }

  lemma {:induction false} BinaryWrites(v: seq<Elt>, pos: nat, op: BinOp, l: Expr, r: Expr, my: nat, p: nat, q: nat,
                                        prec: nat)
    requires At(v, pos, l) && At(v, End(pos, l), r) && NoModify(l) && NoModify(r)
    ensures Infix(v, pos, op, my, p, q, prec)
            == Out(Spaced(Paren(my < prec, CBin(op, Written(l, p), Written(r, q)))), End(End(pos, l), r))
    decreases Binary(op, l, r), 0
  {
    PrintWrites(v, pos, p, l);
    PrintWrites(v, End(pos, l), q, r);
    SpacedParen(my < prec, CBin(op, Written(l, p), Written(r, q)));
  }

  lemma {:induction false} PrintIsInfix(v: seq<Elt>, pos: nat, prec: nat, op: BinOp, my: nat, p: nat, q: nat)
    requires pos < |v| && v[pos] == OpBin(op) && my == PrintPrec(op) && p == my + One(RightAssoc(op))
             && q == my + One(!RightAssoc(op))
    ensures Print(v, pos, prec) == Infix(v, pos + 1, op, my, p, q, prec)
  {
  }

  lemma {:induction false} SpacedParen(b: bool, c: Cst)
    ensures Spaced(Paren(b, c)) == Bracket(b, Spaced(c))
  {
  }

  // ---------------------------------------------------------------------------
  // The lexer

  /** The token that two of the same kind make when they are next to each other. */
  function Double(x: Tok): (r: Option<Tok>) {
    if !x.TPunct? || !x.p.PBin? then None
    else
      match x.p.op
      case Sub => Some(TPunct(PMinusMinus)) case Add => Some(TPunct(PPlusPlus))
      case LogAnd => Some(TPunct(PBin(And))) case LogIor => Some(TPunct(PBin(Or)))
      case Less => Some(TPunct(PBin(Lsh))) case Gtr => Some(TPunct(PBin(Rsh)))
      case Assign => Some(TPunct(PBin(Equal))) case _ => None
  }

  /** Two such signs make one token, also if the second is itself the first of two. */
  function Lex(s: seq<Tok>): (r: seq<Tok>)
    decreases |s|
  {
    if s == [] then []
    else if s[0] == TSpace then Lex(s[1..])
    else if |s| > 1 && Double(s[0]).Some? && s[1] == s[0] then [Double(s[0]).value] + Lex(s[2..])
    else if |s| > 1 && Double(s[0]) == Some(s[1]) then [s[1]] + Lex([s[0]] + s[2..])
    else [s[0]] + Lex(s[1..])
  }

  function NoSpaces(s: seq<Tok>): (r: seq<Tok>) {
    if s == [] then [] else (if s[0] == TSpace then [] else [s[0]]) + NoSpaces(s[1..])
  }

  /** `y` right behind `x` makes another token with it. */
  predicate Pair(x: Tok, y: Tok) { Double(x).Some? && (y == x || y == Double(x).value) }

  predicate JoinAt(s: seq<Tok>, i: int) { 0 <= i < |s| - 1 && Pair(s[i], s[i + 1]) }

  /** A sign is followed by one that it makes another token with. */
  predicate Joins(s: seq<Tok>) { exists i :: 0 <= i < |s| - 1 && JoinAt(s, i) }

  lemma {:induction false} JoinsTail(s: seq<Tok>)
    requires s != []
    ensures Joins(s) <==> JoinAt(s, 0) || Joins(s[1..])
  {
    var t := s[1..];
    assert forall i :: 0 <= i < |t| ==> t[i] == s[i + 1];
    if Joins(s) {
      var i :| 0 <= i < |s| - 1 && JoinAt(s, i);
      if i > 0 { assert t[i - 1] == s[i] && JoinAt(t, i - 1); }
    }
    if Joins(t) {
      var i :| 0 <= i < |t| - 1 && JoinAt(t, i);
      assert t[i] == s[i + 1] && t[i + 1] == s[i + 2] && JoinAt(s, i + 1);
    }
  }

  lemma {:induction false} LexPlain(s: seq<Tok>)
    requires !Joins(s)
    ensures Lex(s) == NoSpaces(s)
    decreases |s|
  {
    if s != [] {
      JoinsTail(s);
      LexPlain(s[1..]);
    }
  }

  // ---------------------------------------------------------------------------
  // The reader

  /** How tightly operators bind: the binary ones, `?:`, and what the operands after `?` and after `:` must be. */
  datatype Table = Table(prec: BinOp -> nat, cond: nat, mid: nat, third: nat)

  predicate TableOk(t: Table) { t.cond <= t.third <= t.cond + 1 }

  /** The least binding the right operand of an operator may have. */
  function RightLevel(t: Table, op: BinOp): (r: nat) { t.prec(op) + One(!RightAssoc(op)) }

  datatype Reading = Got(c: Cst, rest: seq<Tok>) | Bad

  /** `++` and `--` after an operand. */
  function ReadSuffixes(c: Cst, toks: seq<Tok>): (r: Reading)
    ensures r.Got? && |r.rest| <= |toks|
    decreases |toks|
  {
    if toks != [] && toks[0].TPunct? && SufOf(toks[0].p).Some? then
      ReadSuffixes(CSuf(SufOf(toks[0].p).value, c), toks[1..])
    else Got(c, toks)
  }

  /** An operand: a constant, a name, a parenthesized expression, with prefix and suffix operators. */
  function ReadOperand(t: Table, toks: seq<Tok>): (r: Reading)
    ensures r.Got? ==> |r.rest| < |toks|
    decreases |toks|, 1
  {
    if toks == [] then Bad
    else
      match toks[0]
      case TNum(n) => ReadSuffixes(CNum(Int, n), toks[1..])
      case TUnsigned(n) => ReadSuffixes(CNum(Unsigned, n), toks[1..])
      case TChar(n) => ReadSuffixes(CNum(Char, n), toks[1..])
      case TName(x) => ReadSuffixes(CName(x), toks[1..])
      case TOpen =>
        (match ReadExpr(t, toks[1..], 0)
         case Bad => Bad
         case Got(c, rest) => if rest != [] && rest[0] == TClose then ReadSuffixes(CParen(c), rest[1..]) else Bad)
      case TPunct(p) =>
        if PreOf(p) == None then Bad
        else
          (match ReadOperand(t, toks[1..])
           case Bad => Bad
           case Got(c, rest) => Got(CPre(PreOf(p).value, c), rest))
      case _ => Bad
  }

  /** Operators that bind at least as tightly as `min`, after the operand `left`. */
  function ReadMore(t: Table, left: Cst, toks: seq<Tok>, min: nat): (r: Reading)
    ensures r.Got? ==> |r.rest| <= |toks|
    decreases |toks|, 0
  {
    if toks != [] && toks[0].TPunct? && BinOf(toks[0].p).Some? && t.prec(BinOf(toks[0].p).value) >= min then
      var op := BinOf(toks[0].p).value;
      match ReadExpr(t, toks[1..], RightLevel(t, op))
      case Bad => Bad
      case Got(c, rest) => ReadMore(t, CBin(op, left, c), rest, min)
    else if toks != [] && toks[0] == TQuest && t.cond >= min then
      match ReadExpr(t, toks[1..], t.mid)
      case Bad => Bad
      case Got(c, rest) =>
        if rest == [] || rest[0] != TColon then Bad
        else
          match ReadExpr(t, rest[1..], t.third)
          case Bad => Bad
          case Got(d, rest') => ReadMore(t, CCond(left, c, d), rest', min)
    else Got(left, toks)
  }

  function ReadExpr(t: Table, toks: seq<Tok>, min: nat): (r: Reading)
    ensures r.Got? ==> |r.rest| < |toks|
    decreases |toks|, 2
  {
    match ReadOperand(t, toks)
    case Bad => Bad
    case Got(c, rest) => ReadMore(t, c, rest, min)
  }

  /** Read a whole line. */
  function Read(t: Table, toks: seq<Tok>): (r: Option<Expr>) {
    match ReadExpr(t, toks, 0)
    case Bad => None
    case Got(c, rest) => if rest == [] then Some(Strip(c)) else None
  }

  // ---------------------------------------------------------------------------
  // What the reader reads

  /** Is the written expression an operand, without an operator that binds less tightly than prefix ones? */
  predicate IsOperand(c: Cst) { !c.CBin? && !c.CCond? }

  predicate IsPrimary(c: Cst) { IsOperand(c) && !c.CPre? }

  /** `c` may stand where at least the binding `min` is asked for. */
  predicate AtLeast(t: Table, c: Cst, min: nat) {
    match c
    case CBin(op, _, _) => t.prec(op) >= min
    case CCond(_, _, _) => t.cond >= min
    case _ => true
  }

  /** An operator of binding `q` after `c` takes all of `c` as its left operand, not only its last part. */
  predicate Before(t: Table, c: Cst, q: int) {
    match c
    case CBin(op, _, _) => q < RightLevel(t, op)
    case CCond(_, _, _) => q < t.third
    case _ => true
  }

  /** The parentheses of the written expression are those the table asks for, or more, and its numbers have no sign. */
  predicate Legible(t: Table, c: Cst) {
    match c
    case CNum(k, n) => k == Int ==> n >= 0
    case CName(_) => true
    case CParen(e) => Legible(t, e)
    case CBin(op, l, r) =>
      Legible(t, l) && Legible(t, r) && Before(t, l, t.prec(op)) && AtLeast(t, r, RightLevel(t, op))
    case CPre(_, e) => Legible(t, e) && IsOperand(e)
    case CSuf(_, e) => Legible(t, e) && IsPrimary(e)
    case CCond(c, m, e) => Legible(t, c) && Legible(t, m) && Legible(t, e)
                           && Before(t, c, t.cond) && AtLeast(t, m, t.mid) && AtLeast(t, e, t.third)
  }

  /** The binding of the operator that comes next, -1 if none does. */
  function NextLevel(t: Table, toks: seq<Tok>): (r: int) {
    if toks == [] then -1
    else if toks[0] == TQuest then t.cond
    else if toks[0].TPunct? && BinOf(toks[0].p).Some? then t.prec(BinOf(toks[0].p).value)
    else -1
  }

  predicate NoSuffix(toks: seq<Tok>) {
    toks == [] || !toks[0].TPunct? || SufOf(toks[0].p) == None
  }

  lemma BeforeAtLeast(t: Table, c: Cst, q: nat)
    requires TableOk(t) && Before(t, c, q)
    ensures AtLeast(t, c, q)
  {
  }

  lemma AtLeastBefore(t: Table, c: Cst, min: nat, q: int)
    requires TableOk(t) && AtLeast(t, c, min) && q < min
    ensures Before(t, c, q)
  {
  }

  /** Suffix operators go to the operand just read. */
  lemma {:induction false} ReadPrimary(t: Table, c: Cst, rest: seq<Tok>)
    requires TableOk(t) && Legible(t, c) && IsPrimary(c)
    ensures ReadOperand(t, Flat(c) + rest) == ReadSuffixes(c, rest)
    decreases c, 0
  {
    match c
    case CNum(k, n) => ReadLeaf(t, c, rest);
    case CName(x) => ReadLeaf(t, c, rest);
    case CParen(e) =>
      ReadBack(t, e, [TClose] + rest, 0);
      ReadParen(t, e, rest);
    case CSuf(op, e) =>
      ReadPrimary(t, e, [TPunct(SufSpell(op))] + rest);
      ReadSuffix(op, e, rest);
  }

  lemma {:induction false} ReadLeaf(t: Table, c: Cst, rest: seq<Tok>)
    requires (c.CNum? || c.CName?) && Legible(t, c)
    ensures ReadOperand(t, Flat(c) + rest) == ReadSuffixes(c, rest)
  {
    assert (Flat(c) + rest)[1..] == rest;
  }

  lemma {:induction false} ReadParen(t: Table, e: Cst, rest: seq<Tok>)
    requires ReadExpr(t, Flat(e) + ([TClose] + rest), 0) == Got(e, [TClose] + rest)
    ensures ReadOperand(t, Flat(CParen(e)) + rest) == ReadSuffixes(CParen(e), rest)
  {
    assert (Flat(CParen(e)) + rest)[1..] == Flat(e) + ([TClose] + rest);
    assert ([TClose] + rest)[1..] == rest;
  }

  lemma {:induction false} ReadSuffix(op: SufOp, e: Cst, rest: seq<Tok>)
    ensures Flat(CSuf(op, e)) + rest == Flat(e) + ([TPunct(SufSpell(op))] + rest)
    ensures ReadSuffixes(e, [TPunct(SufSpell(op))] + rest) == ReadSuffixes(CSuf(op, e), rest)
  {
    SpellingsRead(Add, Neg, op);
    assert ([TPunct(SufSpell(op))] + rest)[1..] == rest;
  }

  lemma {:induction false} ReadWhole(t: Table, c: Cst, rest: seq<Tok>)
    requires TableOk(t) && Legible(t, c) && IsOperand(c) && NoSuffix(rest)
    ensures ReadOperand(t, Flat(c) + rest) == Got(c, rest)
    decreases c, 1
  {
    if c.CPre? {
      assert (Flat(c) + rest)[1..] == Flat(c.e) + rest;
      SpellingsRead(Add, c.pre, PostIncrement);
      ReadWhole(t, c.e, rest);
    } else {
      ReadPrimary(t, c, rest);
    }
  }

  /** Any legible expression is read back as it is, up to the first operator that binds too loosely. */
  lemma {:induction false} ReadBack(t: Table, c: Cst, rest: seq<Tok>, min: nat)
    requires TableOk(t) && Legible(t, c) && AtLeast(t, c, min) && Before(t, c, NextLevel(t, rest)) && NoSuffix(rest)
    ensures ReadExpr(t, Flat(c) + rest, min) == ReadMore(t, c, rest, min)
    decreases c, 2
  {
    match c
    case CBin(op, l, r) => ReadBackBin(t, op, l, r, rest, min);
    case CCond(a, m, e) => ReadBackCond(t, a, m, e, rest, min);
    case _ => ReadWhole(t, c, rest);
  }

  lemma {:induction false} ReadBackBin(t: Table, op: BinOp, l: Cst, r: Cst, rest: seq<Tok>, min: nat)
    requires var c := CBin(op, l, r);
             TableOk(t) && Legible(t, c) && AtLeast(t, c, min) && Before(t, c, NextLevel(t, rest)) && NoSuffix(rest)
    ensures ReadExpr(t, Flat(CBin(op, l, r)) + rest, min) == ReadMore(t, CBin(op, l, r), rest, min)
    decreases CBin(op, l, r), 1
  {
    var tail := Flat(r) + rest;
    var more := [TPunct(BinSpell(op))] + tail;
    FlatBin(op, l, r, rest);
    OperatorNext(t, op, tail);
    BeforeAtLeast(t, l, t.prec(op));
    AtLeastTrans(t, l, t.prec(op), min);
    ReadBack(t, l, more, min);
    AtLeastBefore(t, r, RightLevel(t, op), NextLevel(t, rest));
    ReadBack(t, r, rest, RightLevel(t, op));
    RestRead(t, r, rest, RightLevel(t, op));
    MoreBin(t, op, l, r, tail, rest, min);
  }

  /** What binds too loosely is left. */
  lemma {:induction false} RestRead(t: Table, r: Cst, rest: seq<Tok>, level: nat)
    requires NextLevel(t, rest) < level
    ensures ReadMore(t, r, rest, level) == Got(r, rest)
  {
  }

  lemma {:induction false} FlatBin(op: BinOp, l: Cst, r: Cst, rest: seq<Tok>)
    ensures Flat(CBin(op, l, r)) + rest == Flat(l) + ([TPunct(BinSpell(op))] + (Flat(r) + rest))
  {
  }

  lemma {:induction false} OperatorNext(t: Table, op: BinOp, tail: seq<Tok>)
    ensures var more := [TPunct(BinSpell(op))] + tail; NextLevel(t, more) == t.prec(op) && NoSuffix(more)
  {
  }

  /** Reading on after an operator, given what its right operand reads as. */
  lemma {:induction false} MoreBin(t: Table, op: BinOp, l: Cst, r: Cst, rs: seq<Tok>, rest: seq<Tok>, min: nat)
    requires t.prec(op) >= min && ReadExpr(t, rs, RightLevel(t, op)) == Got(r, rest)
    ensures ReadMore(t, l, [TPunct(BinSpell(op))] + rs, min) == ReadMore(t, CBin(op, l, r), rest, min)
  {
    SpellingsRead(op, Neg, PostIncrement);
    assert ([TPunct(BinSpell(op))] + rs)[1..] == rs;
  }

  lemma AtLeastTrans(t: Table, c: Cst, q: nat, min: nat)
    requires AtLeast(t, c, q) && min <= q
    ensures AtLeast(t, c, min)
  {
  }

  lemma {:induction false} FlatCond(a: Cst, m: Cst, e: Cst, rest: seq<Tok>)
    ensures Flat(CCond(a, m, e)) + rest == Flat(a) + ([TQuest] + (Flat(m) + ([TColon] + (Flat(e) + rest))))
  {
  }

  /** Reading on after the condition, given what the two other operands read as. */
  lemma {:induction false} MoreCond(t: Table, a: Cst, m: Cst, e: Cst, ms: seq<Tok>, es: seq<Tok>, rest: seq<Tok>,
                                    min: nat)
    requires t.cond >= min
    requires ReadExpr(t, ms, t.mid) == Got(m, [TColon] + es) && ReadExpr(t, es, t.third) == Got(e, rest)
    ensures ReadMore(t, a, [TQuest] + ms, min) == ReadMore(t, CCond(a, m, e), rest, min)
  {
    assert ([TQuest] + ms)[1..] == ms && ([TColon] + es)[1..] == es;
  }

  lemma {:induction false} ReadBackCond(t: Table, a: Cst, m: Cst, e: Cst, rest: seq<Tok>, min: nat)
    requires var c := CCond(a, m, e);
             TableOk(t) && Legible(t, c) && AtLeast(t, c, min) && Before(t, c, NextLevel(t, rest)) && NoSuffix(rest)
    ensures ReadExpr(t, Flat(CCond(a, m, e)) + rest, min) == ReadMore(t, CCond(a, m, e), rest, min)
    decreases CCond(a, m, e), 1
  {
    var es := Flat(e) + rest;
    var ms := Flat(m) + ([TColon] + es);
    FlatCond(a, m, e, rest);
    BeforeAtLeast(t, a, t.cond);
    AtLeastTrans(t, a, t.cond, min);
    ReadBack(t, a, [TQuest] + ms, min);
    AtLeastBefore(t, m, t.mid, -1);
    ReadBack(t, m, [TColon] + es, t.mid);
    AtLeastBefore(t, e, t.third, NextLevel(t, rest));
    ReadBack(t, e, rest, t.third);
    MoreCond(t, a, m, e, ms, es, rest, min);
  }

  // ---------------------------------------------------------------------------
  // Whatever is read is legible

  /** What a successful reading of `toks` at level `min` means. */
  predicate ReadRight(t: Table, toks: seq<Tok>, r: Reading, min: nat) {
    r.Got? ==> && toks == Flat(r.c) + r.rest && Legible(t, r.c) && AtLeast(t, r.c, min)
               && NextLevel(t, r.rest) < min && Before(t, r.c, NextLevel(t, r.rest))
  }

  lemma {:induction false} SuffixesSound(t: Table, c: Cst, toks: seq<Tok>)
    requires Legible(t, c) && IsPrimary(c)
    ensures var r := ReadSuffixes(c, toks);
            Flat(c) + toks == Flat(r.c) + r.rest && Legible(t, r.c) && IsPrimary(r.c)
    decreases |toks|
  {
    if toks != [] && toks[0].TPunct? && SufOf(toks[0].p).Some? {
      var d := CSuf(SufOf(toks[0].p).value, c);
      SuffixesSound(t, d, toks[1..]);
      assert Flat(c) + toks == Flat(d) + toks[1..];
    }
  }

  lemma {:induction false} OperandSound(t: Table, toks: seq<Tok>)
    requires TableOk(t)
    ensures var r := ReadOperand(t, toks);
            r.Got? ==> toks == Flat(r.c) + r.rest && Legible(t, r.c) && IsOperand(r.c)
    decreases |toks|, 2
  {
    if toks != [] {
      var tail := toks[1..];
      assert toks == [toks[0]] + tail;
      match toks[0]
      case TNum(n) => SuffixesSound(t, CNum(Int, n), tail);
      case TUnsigned(n) => SuffixesSound(t, CNum(Unsigned, n), tail);
      case TChar(n) => SuffixesSound(t, CNum(Char, n), tail);
      case TName(x) => SuffixesSound(t, CName(x), tail);
      case TOpen =>
        ExprSound(t, tail, 0);
        ParenSound(t, tail, ReadExpr(t, tail, 0));
      case TPunct(p) =>
        OperandSound(t, tail);
        PrefixSound(t, p, tail, ReadOperand(t, tail));
      case _ =>
    }
  }

  /** A prefix operator, given the operand behind it. */
  lemma {:induction false} PrefixSound(t: Table, p: Punct, tail: seq<Tok>, inner: Reading)
    requires inner == ReadOperand(t, tail)
    requires inner.Got? ==> tail == Flat(inner.c) + inner.rest && Legible(t, inner.c) && IsOperand(inner.c)
    ensures var r := ReadOperand(t, [TPunct(p)] + tail);
            r.Got? ==> [TPunct(p)] + tail == Flat(r.c) + r.rest && Legible(t, r.c) && IsOperand(r.c)
  {
    assert ([TPunct(p)] + tail)[1..] == tail;
    if PreOf(p).Some? && inner.Got? {
      assert [TPunct(p)] + tail == Flat(CPre(PreOf(p).value, inner.c)) + inner.rest;
    }
  }

  /** A parenthesized expression, given what stands inside. */
  lemma {:induction false} ParenSound(t: Table, tail: seq<Tok>, inner: Reading)
    requires inner == ReadExpr(t, tail, 0) && ReadRight(t, tail, inner, 0)
    ensures var r := ReadOperand(t, [TOpen] + tail);
            r.Got? ==> [TOpen] + tail == Flat(r.c) + r.rest && Legible(t, r.c) && IsOperand(r.c)
  {
    assert ([TOpen] + tail)[1..] == tail;
    if inner.Got? && inner.rest != [] && inner.rest[0] == TClose {
      assert [TOpen] + tail == Flat(CParen(inner.c)) + inner.rest[1..];
      SuffixesSound(t, CParen(inner.c), inner.rest[1..]);
    }
  }

  lemma {:induction false} MoreSound(t: Table, left: Cst, toks: seq<Tok>, min: nat)
    requires TableOk(t) && Legible(t, left) && AtLeast(t, left, min) && Before(t, left, NextLevel(t, toks))
    ensures ReadRight(t, Flat(left) + toks, ReadMore(t, left, toks, min), min)
    decreases |toks|, 1
  {
    if NextLevel(t, toks) >= min {
      if toks[0] == TQuest {
        MoreSoundCond(t, left, toks, min);
      } else {
        MoreSoundBin(t, left, BinOf(toks[0].p).value, toks, min);
      }
    }
  }

  lemma {:induction false} MoreSoundBin(t: Table, left: Cst, op: BinOp, toks: seq<Tok>, min: nat)
    requires TableOk(t) && Legible(t, left) && Before(t, left, t.prec(op)) && t.prec(op) >= min
    requires toks != [] && toks[0].TPunct? && BinOf(toks[0].p) == Some(op)
    ensures ReadRight(t, Flat(left) + toks, ReadMore(t, left, toks, min), min)
    decreases |toks|, 0
  {
    var level := RightLevel(t, op);
    var tail := toks[1..];
    ExprSound(t, tail, level);
    var r := ReadExpr(t, tail, level);
    assert toks == [TPunct(BinSpell(op))] + tail;
    if r.Got? {
      MoreBin(t, op, left, r.c, tail, r.rest, min);
      BinSound(t, left, op, tail, r, min);
      MoreSound(t, CBin(op, left, r.c), r.rest, min);
    }
  }

  /** The expression that an operator and its right operand make with what was read before. */
  lemma {:induction false} BinSound(t: Table, left: Cst, op: BinOp, tail: seq<Tok>, r: Reading, min: nat)
    requires Legible(t, left) && Before(t, left, t.prec(op)) && t.prec(op) >= min
    requires r.Got? && ReadRight(t, tail, r, RightLevel(t, op))
    ensures var c := CBin(op, left, r.c);
            && Legible(t, c) && AtLeast(t, c, min) && Before(t, c, NextLevel(t, r.rest))
            && Flat(left) + ([TPunct(BinSpell(op))] + tail) == Flat(c) + r.rest
  {
    assert tail == Flat(r.c) + r.rest;
  }

  lemma {:induction false} MoreSoundCond(t: Table, left: Cst, toks: seq<Tok>, min: nat)
    requires TableOk(t) && Legible(t, left) && Before(t, left, t.cond)
    requires toks != [] && toks[0] == TQuest && t.cond >= min
    ensures ReadRight(t, Flat(left) + toks, ReadMore(t, left, toks, min), min)
    decreases |toks|, 0
  {
    var m := ReadExpr(t, toks[1..], t.mid);
    ExprSound(t, toks[1..], t.mid);
    if m.Got? && m.rest != [] && m.rest[0] == TColon {
      var e := ReadExpr(t, m.rest[1..], t.third);
      ExprSound(t, m.rest[1..], t.third);
      if e.Got? {
        var c := CCond(left, m.c, e.c);
        FlatCond(left, m.c, e.c, e.rest);
        assert toks == [TQuest] + (Flat(m.c) + ([TColon] + (Flat(e.c) + e.rest))) by {
          assert m.rest == [TColon] + m.rest[1..];
        }
        MoreSound(t, c, e.rest, min);
      }
    }
  }

  lemma {:induction false} ExprSound(t: Table, toks: seq<Tok>, min: nat)
    requires TableOk(t)
    ensures ReadRight(t, toks, ReadExpr(t, toks, min), min)
    decreases |toks|, 3
  {
    OperandSound(t, toks);
    var r := ReadOperand(t, toks);
    if r.Got? {
      MoreSound(t, r.c, r.rest, min);
    }
  }

  // ---------------------------------------------------------------------------
  // A tree can be spelled in one way only

  predicate IsBracket(x: Tok) { x == TOpen || x == TClose }

  /** How many tokens are not parentheses. */
  function Marks(s: seq<Tok>): (n: nat) {
    if s == [] then 0 else One(!IsBracket(s[0])) + Marks(s[1..])
  }

  /** The tokens that are not parentheses. */
  function Erased(s: seq<Tok>): (r: seq<Tok>)
    ensures |r| == Marks(s)
  {
    if s == [] then [] else (if IsBracket(s[0]) then [] else [s[0]]) + Erased(s[1..])
  }

  lemma {:induction false} ErasedConcat(a: seq<Tok>, b: seq<Tok>)
    ensures Erased(a + b) == Erased(a) + Erased(b)
    decreases |a|
  {
    if a == [] {
      assert a + b == b;
    } else {
      assert (a + b)[1..] == a[1..] + b;
      ErasedConcat(a[1..], b);
    }
  }

  lemma {:induction false} ErasedAround(a: seq<Tok>, x: Tok, b: seq<Tok>)
    requires !IsBracket(x)
    ensures Erased(a + [x] + b) == Erased(a) + [x] + Erased(b)
  {
    assert a + [x] + b == a + ([x] + b);
    assert ([x] + b)[1..] == b;
    ErasedConcat(a, [x] + b);
  }

  /** How many more parentheses open than close. */
  function Depth(s: seq<Tok>): (r: int) {
    if s == [] then 0 else (if s[0] == TOpen then 1 else if s[0] == TClose then -1 else 0) + Depth(s[1..])
  }

  lemma {:induction false} CountConcat(a: seq<Tok>, b: seq<Tok>)
    ensures Marks(a + b) == Marks(a) + Marks(b) && Depth(a + b) == Depth(a) + Depth(b)
    decreases |a|
  {
    if a == [] {
      assert a + b == b;
    } else {
      assert (a + b)[1..] == a[1..] + b;
      CountConcat(a[1..], b);
    }
  }

  lemma {:induction false} CountOne(x: Tok, s: seq<Tok>)
    ensures Marks([x] + s) == One(!IsBracket(x)) + Marks(s)
    ensures Depth([x] + s) == (if x == TOpen then 1 else if x == TClose then -1 else 0) + Depth(s)
  {
    assert ([x] + s)[1..] == s;
  }

  /** No prefix closes more than it opens, and the whole is balanced. */
  predicate Balanced(s: seq<Tok>) {
    Depth(s) == 0 && forall k :: 0 <= k <= |s| ==> Depth(s[..k]) >= 0
  }

  lemma {:induction false} BalancedConcat(a: seq<Tok>, b: seq<Tok>)
    requires Balanced(a) && Balanced(b)
    ensures Balanced(a + b)
  {
    CountConcat(a, b);
    forall k | 0 <= k <= |a + b| ensures Depth((a + b)[..k]) >= 0 {
      if k <= |a| {
        assert (a + b)[..k] == a[..k];
      } else {
        assert (a + b)[..k] == a + b[..k - |a|];
        CountConcat(a, b[..k - |a|]);
      }
    }
  }

  lemma {:induction false} BalancedOne(x: Tok)
    requires !IsBracket(x)
    ensures Balanced([x]) && Marks([x]) == 1
  {
    CountOne(x, []);
    forall k | 0 <= k <= 1 ensures Depth([x][..k]) >= 0 {
      assert [x][..k] == [] || [x][..k] == [x] + [];
    }
    assert [x] + [] == [x];
  }

  /** Within parentheses the depth stays positive up to the last token. */
  lemma {:induction false} InsideParen(s: seq<Tok>, k: nat)
    requires Balanced(s) && 0 < k < |s| + 2
    ensures Depth(([TOpen] + s + [TClose])[..k]) >= 1
  {
    assert ([TOpen] + s + [TClose])[..k] == [TOpen] + s[..k - 1];
    CountOne(TOpen, s[..k - 1]);
  }

  lemma {:induction false} BalancedParen(s: seq<Tok>)
    requires Balanced(s)
    ensures Balanced([TOpen] + s + [TClose]) && Marks([TOpen] + s + [TClose]) == Marks(s)
  {
    var w := [TOpen] + s + [TClose];
    CountConcat([TOpen] + s, [TClose]);
    CountOne(TOpen, s);
    CountOne(TClose, []);
    assert [TClose] + [] == [TClose];
    forall k | 0 <= k <= |w| ensures Depth(w[..k]) >= 0 {
      if 0 < k < |w| { InsideParen(s, k); }
      assert w[..|w|] == w;
    }
  }

  lemma {:induction false} FlatBalanced(c: Cst)
    ensures Balanced(Flat(c))
  {
    match c
    case CNum(k, n) => LiteralBalanced(k, n);
    case CName(x) => BalancedOne(TName(x));
    case CParen(e) => FlatBalanced(e); BalancedParen(Flat(e));
    case CPre(op, e) =>
      FlatBalanced(e);
      BalancedOne(TPunct(PreSpell(op)));
      BalancedConcat([TPunct(PreSpell(op))], Flat(e));
    case CSuf(op, e) =>
      FlatBalanced(e);
      BalancedOne(TPunct(SufSpell(op)));
      BalancedConcat(Flat(e), [TPunct(SufSpell(op))]);
    case CBin(op, l, r) => FlatBalanced(l); FlatBalanced(r); BalancedAround(Flat(l), TPunct(BinSpell(op)), Flat(r));
    case CCond(a, m, e) =>
      FlatBalanced(a);
      FlatBalanced(m);
      FlatBalanced(e);
      BalancedAround(Flat(a), TQuest, Flat(m));
      BalancedAround(Flat(a) + [TQuest] + Flat(m), TColon, Flat(e));
  }

  lemma {:induction false} LiteralBalanced(k: Kind, n: int)
    ensures Balanced(Literal(k, n))
  {
    if k != Int {
      BalancedOne(Literal(k, n)[0]);
    } else if n < 0 {
      BalancedOne(MINUS);
      BalancedOne(TNum(-n));
      BalancedConcat([MINUS], [TNum(-n)]);
      assert Number(n) == [MINUS] + [TNum(-n)];
    } else {
      BalancedOne(TNum(n));
    }
  }

  lemma {:induction false} BalancedAround(a: seq<Tok>, x: Tok, b: seq<Tok>)
    requires Balanced(a) && Balanced(b) && !IsBracket(x)
    ensures Balanced(a + [x] + b)
  {
    BalancedOne(x);
    BalancedConcat(a, [x]);
    BalancedConcat(a + [x], b);
  }

  lemma {:induction false} MarksAround(a: seq<Tok>, x: Tok, b: seq<Tok>)
    requires !IsBracket(x)
    ensures Marks(a + [x] + b) == Marks(a) + 1 + Marks(b)
  {
    assert a + [x] + b == a + ([x] + b);
    CountConcat(a, [x] + b);
    CountOne(x, b);
  }

  /** The tokens of a tree, in order. */
  function Tokens(e: Expr): (r: seq<Tok>)
    requires NoModify(e)
  {
    match e
    case Const(k, n) => Literal(k, n)
    case Var(x) => [TName(x)]
    case Binary(op, l, r) => Tokens(l) + [TPunct(BinSpell(op))] + Tokens(r)
    case Prefix(op, e) => [TPunct(PreSpell(op))] + Tokens(e)
    case Suffix(op, e) => Tokens(e) + [TPunct(SufSpell(op))]
    case Cond(c, t, f) => Tokens(c) + [TQuest] + Tokens(t) + [TColon] + Tokens(f)
  }

  /** However a tree is written, its tokens other than parentheses are the same. */
  lemma {:induction false} ErasedFlat(c: Cst)
    ensures Erased(Flat(c)) == Tokens(Strip(c))
  {
    match c
    case CNum(k, n) => LiteralTokens(k, n);
    case CName(x) =>
    case CParen(e) => ErasedFlat(e); ErasedParen(Flat(e));
    case CPre(op, e) => ErasedFlat(e); ErasedPre(TPunct(PreSpell(op)), Flat(e));
    case CSuf(op, e) => ErasedFlat(e); ErasedSuf(TPunct(SufSpell(op)), Flat(e));
    case CBin(op, l, r) => ErasedFlat(l); ErasedFlat(r); ErasedBin(op, l, r);
    case CCond(a, m, e) => ErasedFlat(a); ErasedFlat(m); ErasedFlat(e); ErasedTernary(a, m, e);
  }

  lemma {:induction false} LiteralTokens(k: Kind, n: int)
    ensures Erased(Literal(k, n)) == Literal(k, n)
  {
    assert Literal(k, n)[1..] == if k == Int && n < 0 then [TNum(-n)] else [];
    assert n < 0 ==> Erased([TNum(-n)]) == [TNum(-n)];
  }

  lemma {:induction false} NumberTokens(n: int)
    ensures NoSpaces(Number(n)) == Number(n)
  {
    assert Number(n)[1..] == if n < 0 then [TNum(-n)] else [];
    assert n < 0 ==> NoSpaces([TNum(-n)]) == [TNum(-n)];
  }

  lemma {:induction false} ErasedBin(op: BinOp, l: Cst, r: Cst)
    requires Erased(Flat(l)) == Tokens(Strip(l)) && Erased(Flat(r)) == Tokens(Strip(r))
    ensures Erased(Flat(CBin(op, l, r))) == Tokens(Strip(CBin(op, l, r)))
  {
    ErasedAround(Flat(l), TPunct(BinSpell(op)), Flat(r));
  }

  lemma {:induction false} ErasedTernary(a: Cst, m: Cst, e: Cst)
    requires Erased(Flat(a)) == Tokens(Strip(a)) && Erased(Flat(m)) == Tokens(Strip(m))
             && Erased(Flat(e)) == Tokens(Strip(e))
    ensures Erased(Flat(CCond(a, m, e))) == Tokens(Strip(CCond(a, m, e)))
  {
    ErasedCond(Flat(a), Flat(m), Flat(e));
  }

  lemma {:induction false} ErasedParen(s: seq<Tok>)
    ensures Erased([TOpen] + s + [TClose]) == Erased(s)
  {
    ErasedConcat([TOpen] + s, [TClose]);
    ErasedConcat([TOpen], s);
  }

  lemma {:induction false} ErasedPre(x: Tok, s: seq<Tok>)
    requires !IsBracket(x)
    ensures Erased([x] + s) == [x] + Erased(s)
  {
    assert ([x] + s)[1..] == s;
  }

  lemma {:induction false} ErasedSuf(x: Tok, s: seq<Tok>)
    requires !IsBracket(x)
    ensures Erased(s + [x]) == Erased(s) + [x]
  {
    ErasedConcat(s, [x]);
  }

  lemma {:induction false} ErasedCond(a: seq<Tok>, m: seq<Tok>, e: seq<Tok>)
    ensures Erased(a + [TQuest] + m + [TColon] + e) == Erased(a) + [TQuest] + Erased(m) + [TColon] + Erased(e)
  {
    ErasedAround(a, TQuest, m);
    ErasedAround(a + [TQuest] + m, TColon, e);
  }

  lemma {:induction false} SameMarks(c: Cst, d: Cst)
    requires Strip(c) == Strip(d)
    ensures Marks(Flat(c)) == Marks(Flat(d))
  {
    ErasedFlat(c);
    ErasedFlat(d);
  }

  /** An operator is found at the same place in equal token sequences if as many tokens come before it. */
  lemma {:induction false} SplitUnique(a: seq<Tok>, x: Tok, b: seq<Tok>, a': seq<Tok>, b': seq<Tok>)
    requires a + [x] + b == a' + [x] + b' && !IsBracket(x) && Marks(a) == Marks(a')
    ensures a == a' && b == b'
  {
    var w := a + [x] + b;
    if |a| < |a'| {
      SplitShorter(w, a, x, b, a', b');
    } else if |a'| < |a| {
      SplitShorter(w, a', x, b', a, b);
    }
    assert a == w[..|a|] && a' == w[..|a'|] && b == w[|a| + 1..] && b' == w[|a'| + 1..];
  }

  lemma {:induction false} SplitShorter(w: seq<Tok>, a: seq<Tok>, x: Tok, b: seq<Tok>, a': seq<Tok>, b': seq<Tok>)
    requires w == a + [x] + b == a' + [x] + b' && !IsBracket(x) && |a| < |a'|
    ensures Marks(a) < Marks(a')
  {
    var mid := a'[|a| + 1..];
    assert a' == w[..|a'|];
    assert a' == a + [x] + mid;
    MarksAround(a, x, mid);
  }

  /** The part of an expression before its operator, for those that do not begin with it. */
  function FirstPart(d: Cst): (r: Option<Cst>) {
    match d
    case CBin(_, l, _) => Some(l)
    case CSuf(_, e) => Some(e)
    case CCond(c, _, _) => Some(c)
    case _ => None
  }

  /** A parenthesized expression and one that is not are never spelled alike, whatever they are. */
  lemma {:induction false} ParenDiffers(x: Cst, d: Cst)
    requires !d.CParen?
    ensures Flat(CParen(x)) != Flat(d)
  {
    if FirstPart(d).Some? {
      var first := Flat(FirstPart(d).value);
      FlatBalanced(FirstPart(d).value);
      FlatBalanced(x);
      var k := |first|;
      assert k < |Flat(d)| && Flat(d)[..k] == first;
      assert |Flat(CParen(x))| == |Flat(x)| + 2;
      if k < |Flat(x)| + 2 {
        InsideParen(Flat(x), k);
        assert Depth(Flat(CParen(x))[..k]) != Depth(Flat(d)[..k]);
      }
    } else {
      assert Flat(CParen(x))[0] == TOpen != Flat(d)[0];
    }
  }

  /** The same tree spelled with the same tokens has the same parentheses. */
  lemma {:induction false} SpelledOnce(c: Cst, d: Cst)
    requires Strip(c) == Strip(d) && Flat(c) == Flat(d)
    ensures c == d
    decreases c
  {
    if c.CParen? {
      if !d.CParen? { ParenDiffers(c.e, d); }
      assert Flat(c.e) == Flat(c)[1..|Flat(c)| - 1] && Flat(d.e) == Flat(d)[1..|Flat(d)| - 1];
      SpelledOnce(c.e, d.e);
    } else {
      if d.CParen? { ParenDiffers(d.e, c); }
      match c
      case CNum(k, n) =>
      case CName(x) =>
      case CPre(op, e) =>
        assert Flat(e) == Flat(c)[1..] && Flat(d.e) == Flat(d)[1..];
        SpelledOnce(e, d.e);
      case CSuf(op, e) =>
        assert Flat(e) == Flat(c)[..|Flat(c)| - 1] && Flat(d.e) == Flat(d)[..|Flat(d)| - 1];
        SpelledOnce(e, d.e);
      case CBin(op, l, r) => SpelledOnceBin(op, l, r, d);
      case CCond(a, m, e) => SpelledOnceCond(a, m, e, d);
    }
  }

  lemma {:induction false} SpelledOnceBin(op: BinOp, l: Cst, r: Cst, d: Cst)
    requires d.CBin? && Strip(CBin(op, l, r)) == Strip(d) && Flat(CBin(op, l, r)) == Flat(d)
    ensures CBin(op, l, r) == d
    decreases CBin(op, l, r), 0
  {
    SameMarks(l, d.l);
    SplitUnique(Flat(l), TPunct(BinSpell(op)), Flat(r), Flat(d.l), Flat(d.r));
    SpelledOnce(l, d.l);
    SpelledOnce(r, d.r);
  }

  lemma {:induction false} SpelledOnceCond(a: Cst, m: Cst, e: Cst, d: Cst)
    requires d.CCond? && Strip(CCond(a, m, e)) == Strip(d) && Flat(CCond(a, m, e)) == Flat(d)
    ensures CCond(a, m, e) == d
    decreases CCond(a, m, e), 0
  {
    SameMarks(a, d.c);
    SameMarks(m, d.t);
    MarksAround(Flat(a), TQuest, Flat(m));
    MarksAround(Flat(d.c), TQuest, Flat(d.t));
    SplitUnique(Flat(a) + [TQuest] + Flat(m), TColon, Flat(e), Flat(d.c) + [TQuest] + Flat(d.t), Flat(d.e));
    SplitUnique(Flat(a), TQuest, Flat(m), Flat(d.c), Flat(d.t));
    SpelledOnce(a, d.c);
    SpelledOnce(m, d.t);
    SpelledOnce(e, d.e);
  }

  // ---------------------------------------------------------------------------
  // Constants, blanks and signs

  /** No constant is unsigned or a character. */
  predicate IntsOnly(e: Expr) {
    match e
    case Const(k, _) => k == Int
    case Var(_) => true
    case Modify(_, l, r) => IntsOnly(l) && IntsOnly(r)
    case Binary(_, l, r) => IntsOnly(l) && IntsOnly(r)
    case Prefix(_, a) => IntsOnly(a)
    case Suffix(_, a) => IntsOnly(a)
    case Cond(c, t, f) => IntsOnly(c) && IntsOnly(t) && IntsOnly(f)
  }

  lemma {:induction false} NoSpacesConcat(a: seq<Tok>, b: seq<Tok>)
    ensures NoSpaces(a + b) == NoSpaces(a) + NoSpaces(b)
    decreases |a|
  {
    if a == [] {
      assert a + b == b;
    } else {
      assert (a + b)[1..] == a[1..] + b;
      NoSpacesConcat(a[1..], b);
    }
  }

  lemma {:induction false} InfixedOne(op: BinOp)
    ensures NoSpaces(Infixed(op)) == [TPunct(BinSpell(op))] && NoSpaces(QUEST) == [TQuest]
            && NoSpaces(COLON) == [TColon]
  {
    BlanksAround(TPunct(BinSpell(op)));
    BlanksAround(TQuest);
    BlanksAround(TColon);
  }

  lemma {:induction false} PrefixedOne(op: PreOp)
    ensures NoSpaces(Prefixed(op)) == [TPunct(PreSpell(op))]
  {
    BlanksAround(TPunct(PreSpell(op)));
    assert NoSpaces([TPunct(PreSpell(op))]) == [TPunct(PreSpell(op))];
  }

  lemma {:induction false} BlanksAround(x: Tok)
    requires x != TSpace
    ensures NoSpaces([x, TSpace]) == [x] && NoSpaces([TSpace, x, TSpace]) == [x]
  {
    assert NoSpaces([TSpace]) == [];
    assert [TSpace, x, TSpace][1..] == [x, TSpace] && [x, TSpace][1..] == [TSpace];
  }

  /** Without its blanks what is printed is the written form, if there are no constants of other types. */
  lemma {:induction false} SpacedFlat(c: Cst)
    requires IntsOnly(Strip(c))
    ensures NoSpaces(Spaced(c)) == Flat(c)
  {
    match c
    case CNum(_, n) => NumberTokens(n);
    case CName(x) =>
    case CParen(e) =>
      SpacedFlat(e);
      NoSpacesConcat([TOpen] + Spaced(e), [TClose]);
      NoSpacesConcat([TOpen], Spaced(e));
    case CPre(op, e) => SpacedFlat(e); PrefixedOne(op); NoSpacesConcat(Prefixed(op), Spaced(e));
    case CSuf(op, e) => SpacedFlat(e); NoSpacesConcat(Spaced(e), [TPunct(SufSpell(op))]);
    case CBin(op, l, r) => SpacedFlat(l); SpacedFlat(r); SpacedBin(op, l, r);
    case CCond(a, m, e) => SpacedFlat(a); SpacedFlat(m); SpacedFlat(e); SpacedTernary(a, m, e);
  }

  lemma {:induction false} SpacedBin(op: BinOp, l: Cst, r: Cst)
    requires NoSpaces(Spaced(l)) == Flat(l) && NoSpaces(Spaced(r)) == Flat(r)
    ensures NoSpaces(Spaced(CBin(op, l, r))) == Flat(CBin(op, l, r))
  {
    InfixedOne(op);
    NoSpacesThree(Spaced(l), Infixed(op), Spaced(r));
  }

  lemma {:induction false} SpacedTernary(a: Cst, m: Cst, e: Cst)
    requires NoSpaces(Spaced(a)) == Flat(a) && NoSpaces(Spaced(m)) == Flat(m) && NoSpaces(Spaced(e)) == Flat(e)
    ensures NoSpaces(Spaced(CCond(a, m, e))) == Flat(CCond(a, m, e))
  {
    InfixedOne(Add);
    NoSpacesThree(Spaced(a), QUEST, Spaced(m));
    NoSpacesThree(Spaced(a) + QUEST + Spaced(m), COLON, Spaced(e));
  }

  lemma {:induction false} NoSpacesThree(a: seq<Tok>, b: seq<Tok>, c: seq<Tok>)
    ensures NoSpaces(a + b + c) == NoSpaces(a) + NoSpaces(b) + NoSpaces(c)
  {
    NoSpacesConcat(a + b, c);
    NoSpacesConcat(a, b);
  }

  /** Where signs join, the tokens are no longer those of the tree, whatever parentheses there are. */
  lemma {:induction false} JoinedDiffer(s: seq<Tok>)
    requires Joins(s)
    ensures Erased(Lex(s)) != Erased(NoSpaces(s))
    decreases |s|
  {
    JoinsTail(s);
    if JoinAt(s, 0) {
      JoinedFirst(s);
    } else {
      JoinedDiffer(s[1..]);
      LexTail(s);
      HeadSame(if s[0] == TSpace then [] else [s[0]], Lex(s[1..]), NoSpaces(s[1..]));
    }
  }

  lemma {:induction false} JoinedFirst(s: seq<Tok>)
    requires JoinAt(s, 0)
    ensures Erased(Lex(s)) != Erased(NoSpaces(s))
  {
    var d := Double(s[0]).value;
    assert Lex(s)[0] == d && NoSpaces(s)[0] == s[0];
    assert Erased(Lex(s))[0] == d && Erased(NoSpaces(s))[0] == s[0];
  }

  lemma {:induction false} LexTail(s: seq<Tok>)
    requires s != [] && !JoinAt(s, 0)
    ensures Lex(s) == (if s[0] == TSpace then [] else [s[0]]) + Lex(s[1..])
    ensures NoSpaces(s) == (if s[0] == TSpace then [] else [s[0]]) + NoSpaces(s[1..])
  {
  }

  lemma {:induction false} HeadSame(d: seq<Tok>, l: seq<Tok>, n: seq<Tok>)
    requires Erased(l) != Erased(n)
    ensures Erased(d + l) != Erased(d + n)
  {
    ErasedConcat(d, l);
    ErasedConcat(d, n);
    var k := |Erased(d)|;
    assert (Erased(d) + Erased(l))[k..] == Erased(l) && (Erased(d) + Erased(n))[k..] == Erased(n);
  }

  /** The signs that a tree brings next to each other where no parentheses are printed: a negation of a negation or of a
      decrement, or the address of an address. */
  predicate Signs(e: Expr) {
    match e
    case Const(_, _) => false
    case Var(_) => false
    case Modify(_, l, r) => Signs(l) || Signs(r)
    case Binary(_, l, r) => Signs(l) || Signs(r)
    case Prefix(op, a) =>
      || Signs(a) || (op == Neg && a.Prefix? && (a.pre == Neg || a.pre == PreDecrement))
      || (op == Addr && a.Prefix? && a.pre == Addr)
    case Suffix(_, a) => Signs(a)
    case Cond(c, t, f) => Signs(c) || Signs(t) || Signs(f)
  }

  predicate NoNegative(e: Expr) {
    match e
    case Const(k, n) => k == Int ==> n >= 0
    case Var(_) => true
    case Modify(_, l, r) => NoNegative(l) && NoNegative(r)
    case Binary(_, l, r) => NoNegative(l) && NoNegative(r)
    case Prefix(_, a) => NoNegative(a)
    case Suffix(_, a) => NoNegative(a)
    case Cond(c, t, f) => NoNegative(c) && NoNegative(t) && NoNegative(f)
  }

  predicate Natural(e: Expr) { IntsOnly(e) && NoNegative(e) }

  /** The end of the first sequence and the beginning of the second make another token. */
  predicate Meet(a: seq<Tok>, b: seq<Tok>) { a != [] && b != [] && Pair(a[|a| - 1], b[0]) }

  lemma {:induction false} JoinsConcat(a: seq<Tok>, b: seq<Tok>)
    ensures Joins(a + b) <==> Joins(a) || Joins(b) || Meet(a, b)
  {
    if Joins(a) { JoinsFirst(a, b); }
    if Joins(b) { JoinsSecond(a, b); }
    if Meet(a, b) { assert (a + b)[|a|] == b[0] && JoinAt(a + b, |a| - 1); }
    if Joins(a + b) { JoinsWhere(a, b); }
  }

  lemma {:induction false} JoinsFirst(a: seq<Tok>, b: seq<Tok>)
    requires Joins(a)
    ensures Joins(a + b)
  {
    var i :| 0 <= i < |a| - 1 && JoinAt(a, i);
    assert JoinAt(a + b, i);
  }

  lemma {:induction false} JoinsSecond(a: seq<Tok>, b: seq<Tok>)
    requires Joins(b)
    ensures Joins(a + b)
  {
    var i :| 0 <= i < |b| - 1 && JoinAt(b, i);
    assert (a + b)[|a| + i] == b[i] && (a + b)[|a| + i + 1] == b[i + 1];
    assert JoinAt(a + b, |a| + i);
  }

  lemma {:induction false} JoinsWhere(a: seq<Tok>, b: seq<Tok>)
    requires Joins(a + b)
    ensures Joins(a) || Joins(b) || Meet(a, b)
  {
    var w, k := a + b, |a|;
    var i :| 0 <= i < |w| - 1 && JoinAt(w, i);
    if i < k - 1 {
      assert w[i] == a[i] && w[i + 1] == a[i + 1] && JoinAt(a, i);
    } else if i >= k {
      assert w[i] == b[i - k] && w[i + 1] == b[i - k + 1] && JoinAt(b, i - k);
    } else {
      assert w[k] == b[0];
    }
  }

  /** What is printed neither begins with a blank nor ends with a sign that could join. */
  predicate EndsWell(s: seq<Tok>) { s != [] && Double(s[|s| - 1]) == None && s[0] != TSpace }

  lemma {:induction false} SpacedEnds(c: Cst)
    ensures EndsWell(Spaced(c))
  {
    match c
    case CNum(k, n) => ConstantEnds(k, n);
    case CName(x) =>
    case CParen(e) => EndsOf([TOpen], Spaced(e), [TClose]);
    case CPre(op, e) => SpacedEnds(e); EndsOf(Prefixed(op), [], Spaced(e)); assert Prefixed(op) + [] == Prefixed(op);
    case CSuf(op, e) => SpacedEnds(e); SuffixEnds(Spaced(e), TPunct(SufSpell(op)));
    case CBin(op, l, r) => SpacedEnds(l); SpacedEnds(r); EndsOf(Spaced(l), Infixed(op), Spaced(r));
    case CCond(a, m, e) => SpacedEnds(a); SpacedEnds(e); TernaryEnds(Spaced(a), Spaced(m), Spaced(e));
  }

  lemma {:induction false} SuffixEnds(a: seq<Tok>, x: Tok)
    requires EndsWell(a) && Double(x) == None
    ensures EndsWell(a + [x])
  {
  }

  lemma {:induction false} TernaryEnds(a: seq<Tok>, m: seq<Tok>, e: seq<Tok>)
    requires EndsWell(a) && EndsWell(e)
    ensures EndsWell(a + QUEST + m + COLON + e)
  {
    EndsOf(a + QUEST + m, COLON, e);
    assert (a + QUEST + m)[0] == a[0];
  }

  lemma {:induction false} ConstantEnds(k: Kind, n: int)
    ensures EndsWell(Constant(k, n))
  {
  }

  lemma {:induction false} EndsOf(a: seq<Tok>, m: seq<Tok>, b: seq<Tok>)
    requires a != [] && b != []
    ensures var w := a + m + b; w[0] == a[0] && w[|w| - 1] == b[|b| - 1]
  {
  }

  /** Blanks and parentheses keep signs apart. */
  lemma {:induction false} JoinsBetween(a: Cst, m: seq<Tok>, b: seq<Tok>)
    requires m != [] && m[|m| - 1] == TSpace && !Joins(m)
    ensures Joins(Spaced(a) + m + b) <==> Joins(Spaced(a)) || Joins(b)
  {
    SpacedEnds(a);
    JoinsConcat(Spaced(a), m);
    JoinsConcat(Spaced(a) + m, b);
  }

  lemma {:induction false} JoinsParen(b: bool, c: Cst)
    ensures Joins(Spaced(Paren(b, c))) <==> Joins(Spaced(c))
  {
    if b {
      JoinsConcat([TOpen], Spaced(c));
      JoinsConcat([TOpen] + Spaced(c), [TClose]);
    }
  }

  lemma {:induction false} NoJoins(op: BinOp, pre: PreOp)
    ensures !Joins(Infixed(op)) && !Joins(QUEST) && !Joins(COLON) && !Joins(Prefixed(pre))
  {
    JoinsFew(Infixed(op));
    JoinsFew(QUEST);
    JoinsFew(COLON);
    JoinsFew(Prefixed(pre));
  }

  /** A sequence of one, two or three tokens. */
  lemma {:induction false} JoinsFew(s: seq<Tok>)
    requires |s| <= 3 && (|s| > 1 ==> !Pair(s[0], s[1])) && (|s| > 2 ==> !Pair(s[1], s[2]))
    ensures !Joins(s)
  {
    forall i | 0 <= i < |s| - 1 ensures !JoinAt(s, i) {
      assert i == 0 || i == 1;
    }
  }

  /** Without negative constants, signs come next to each other exactly where `Signs` says. */
  lemma {:induction false} JoinsIff(e: Expr, prec: nat)
    requires NoModify(e) && Natural(e)
    ensures Joins(Spaced(Written(e, prec))) <==> Signs(e)
    decreases e, 1
  {
    match e
    case Const(_, n) =>
    case Var(x) =>
    case Prefix(op, a) => JoinsPrefix(op, a, prec);
    case Suffix(op, a) =>
      JoinsIff(a, PREC_SUFFIX);
      SpacedEnds(Written(a, PREC_SUFFIX));
      JoinsConcat(Spaced(Written(a, PREC_SUFFIX)), [TPunct(SufSpell(op))]);
    case Cond(c, t, f) => JoinsCond(c, t, f, prec);
    case Binary(op, l, r) => JoinsBinary(op, l, r, prec);
  }

  lemma {:induction false} JoinsPrefix(op: PreOp, a: Expr, prec: nat)
    requires NoModify(a) && Natural(a)
    ensures Joins(Spaced(Written(Prefix(op, a), prec))) <==> Signs(Prefix(op, a))
    decreases Prefix(op, a), 0
  {
    var c := Written(a, PREC_PREFIX);
    JoinsIff(a, PREC_PREFIX);
    FirstPrinted(a);
    PrefixMeets(op, Spaced(c), a);
    NoJoins(Add, op);
    JoinsConcat(Prefixed(op), Spaced(c));
    JoinsParen(PREC_PREFIX < prec, CPre(op, c));
  }

  /** Which prefix operators make another token with what follows them. */
  lemma {:induction false} PrefixMeets(op: PreOp, s: seq<Tok>, a: Expr)
    requires s != [] && if a.Prefix? then s[0] == TPunct(PreSpell(a.pre)) else !s[0].TPunct?
    ensures Meet(Prefixed(op), s)
            <==> a.Prefix? && ((op == Neg && (a.pre == Neg || a.pre == PreDecrement)) || (op == Addr && a.pre == Addr))
  {
  }

  /** What the operand of a prefix operator begins with. */
  lemma {:induction false} FirstPrinted(a: Expr)
    requires NoModify(a) && Natural(a)
    ensures var x := Spaced(Written(a, PREC_PREFIX))[0];
            if a.Prefix? then x == TPunct(PreSpell(a.pre)) else !x.TPunct?
  {
    match a
    case Suffix(op, b) => SuffixFirst(b);
    case _ =>
  }

  lemma {:induction false} SuffixFirst(b: Expr)
    requires NoModify(b) && Natural(b)
    ensures !Spaced(Written(b, PREC_SUFFIX))[0].TPunct?
  {
    match b
    case Suffix(op, d) => SuffixFirst(d);
    case _ =>
  }

  lemma {:induction false} JoinsCond(c: Expr, t: Expr, f: Expr, prec: nat)
    requires NoModify(Cond(c, t, f)) && Natural(Cond(c, t, f))
    ensures Joins(Spaced(Written(Cond(c, t, f), prec))) <==> Signs(Cond(c, t, f))
    decreases Cond(c, t, f), 0
  {
    var a, m, e := Written(c, PREC_HYPER), Written(t, PREC_HYPER), Written(f, PREC_HYPER);
    JoinsIff(c, PREC_HYPER);
    JoinsIff(t, PREC_HYPER);
    JoinsIff(f, PREC_HYPER);
    NoJoins(Add, Neg);
    JoinsBetween(m, COLON, Spaced(e));
    JoinsBetween(a, QUEST, Spaced(m) + COLON + Spaced(e));
    assert Spaced(CCond(a, m, e)) == Spaced(a) + QUEST + (Spaced(m) + COLON + Spaced(e));
    JoinsParen(prec > PREC_COMMA, CCond(a, m, e));
  }

  lemma {:induction false} JoinsBinary(op: BinOp, l: Expr, r: Expr, prec: nat)
    requires NoModify(Binary(op, l, r)) && Natural(Binary(op, l, r))
    ensures Joins(Spaced(Written(Binary(op, l, r), prec))) <==> Signs(Binary(op, l, r))
    decreases Binary(op, l, r), 0
  {
    var p, q := PrintPrec(op) + One(RightAssoc(op)), PrintPrec(op) + One(!RightAssoc(op));
    JoinsIff(l, p);
    JoinsIff(r, q);
    WrittenIs(op, l, r, prec, p, q);
    JoinsInfix(PrintPrec(op) < prec, op, Written(l, p), Written(r, q));
  }

  lemma {:induction false} JoinsInfix(b: bool, op: BinOp, l: Cst, r: Cst)
    ensures Joins(Spaced(Paren(b, CBin(op, l, r)))) <==> Joins(Spaced(l)) || Joins(Spaced(r))
  {
    NoJoins(op, Neg);
    JoinsBetween(l, Infixed(op), Spaced(r));
    JoinsParen(b, CBin(op, l, r));
  }

  // ---------------------------------------------------------------------------
  // The round trip, through either table

  /** The reader for the printer's own precedences. */
  const PrintTable := Table(PrintPrec, 1, 2, 2)

  /** The precedences declared by the expression grammar. */
  function GrammarPrec(op: BinOp): (r: nat) {
    match op
    case Comma => 1 case Assign => 2 case Or => 4 case And => 5 case LogIor => 6 case LogXor => 7 case LogAnd => 8
    case Equal => 9 case NotEqual => 9 case Leq => 10 case Geq => 10 case Gtr => 10 case Less => 10
    case Rsh => 11 case Lsh => 11 case Repeat => 12 case Add => 13 case Sub => 13
    case Mul => 14 case Div => 14 case Rem => 14
  }

  const Grammar := Table(GrammarPrec, 3, 2, 3)

  /** What print_expression emits for the whole tree is read back as it was meant, by a reader that uses `t`. */
  predicate Recovers(t: Table, e: Expr) {
    var printed := Print(Encode(e), 0, 0);
    printed.Out? && printed.pos == |Encode(e)| && Read(t, Lex(printed.toks)) == Some(e)
  }

  /** What the surrounding precedence guarantees about the outermost operator. */
  predicate Fits(c: Cst, prec: nat) {
    match c
    case CBin(op, _, _) => PrintPrec(op) >= prec
    case CCond(_, _, _) => prec <= PREC_COMMA
    case CPre(_, _) => prec <= PREC_PREFIX
    case _ => true
  }

  lemma WrittenFits(e: Expr, prec: nat)
    requires NoModify(e)
    ensures Fits(Written(e, prec), prec)
  {
  }

  /** op_print_tab puts enough parentheses around everything for its own precedences; only signs of constants are in the
      way. */
  lemma {:induction false} WrittenLegible(e: Expr, prec: nat)
    requires NoModify(e)
    ensures Legible(PrintTable, Written(e, prec)) <==> NoNegative(e)
    decreases e, 1
  {
    match e
    case Const(_, _) =>
    case Var(_) =>
    case Prefix(_, a) => WrittenLegible(a, PREC_PREFIX); WrittenFits(a, PREC_PREFIX);
    case Suffix(_, a) => WrittenLegible(a, PREC_SUFFIX); WrittenFits(a, PREC_SUFFIX);
    case Cond(c, t, f) => WrittenCond(c, t, f, prec);
    case Binary(op, l, r) => WrittenBinary(op, l, r, prec);
  }

  lemma {:induction false} WrittenCond(c: Expr, t: Expr, f: Expr, prec: nat)
    requires NoModify(Cond(c, t, f))
    ensures Legible(PrintTable, Written(Cond(c, t, f), prec)) <==> NoNegative(Cond(c, t, f))
    decreases Cond(c, t, f), 0
  {
    WrittenLegible(c, PREC_HYPER);
    WrittenLegible(t, PREC_HYPER);
    WrittenLegible(f, PREC_HYPER);
    CondFits(PrintTable, Written(c, PREC_HYPER), Written(t, PREC_HYPER), Written(f, PREC_HYPER), c, t, f);
  }

  /** The operands of `?:` are printed so that any table reads them. */
  lemma {:induction false} CondFits(tab: Table, cc: Cst, ct: Cst, cf: Cst, c: Expr, t: Expr, f: Expr)
    requires NoModify(Cond(c, t, f))
    requires cc == Written(c, PREC_HYPER) && ct == Written(t, PREC_HYPER) && cf == Written(f, PREC_HYPER)
    ensures Before(tab, cc, tab.cond) && AtLeast(tab, ct, tab.mid) && AtLeast(tab, cf, tab.third)
  {
    WrittenFits(c, PREC_HYPER);
    WrittenFits(t, PREC_HYPER);
    WrittenFits(f, PREC_HYPER);
  }

  lemma {:induction false} WrittenBinary(op: BinOp, l: Expr, r: Expr, prec: nat)
    requires NoModify(Binary(op, l, r))
    ensures Legible(PrintTable, Written(Binary(op, l, r), prec)) <==> NoNegative(Binary(op, l, r))
    decreases Binary(op, l, r), 0
  {
    var p, q := PrintPrec(op) + One(RightAssoc(op)), PrintPrec(op) + One(!RightAssoc(op));
    WrittenLegible(l, p);
    WrittenLegible(r, q);
    WrittenFits(l, p);
    WrittenFits(r, q);
    OperandsFit(op, Written(l, p), Written(r, q));
    LegibleBinary(PrintTable, PrintPrec(op) < prec, op, Written(l, p), Written(r, q));
    WrittenIs(op, l, r, prec, p, q);
  }

  lemma {:induction false} WrittenIs(op: BinOp, l: Expr, r: Expr, prec: nat, p: nat, q: nat)
    requires NoModify(Binary(op, l, r)) && p == PrintPrec(op) + One(RightAssoc(op))
             && q == PrintPrec(op) + One(!RightAssoc(op))
    ensures Written(Binary(op, l, r), prec) == Paren(PrintPrec(op) < prec, CBin(op, Written(l, p), Written(r, q)))
  {
  }

  lemma {:induction false} LegibleBinary(t: Table, b: bool, op: BinOp, l: Cst, r: Cst)
    ensures Legible(t, Paren(b, CBin(op, l, r)))
            <==> Legible(t, l) && Legible(t, r) && Before(t, l, t.prec(op)) && AtLeast(t, r, RightLevel(t, op))
  {
  }

  lemma OperandsFit(op: BinOp, l: Cst, r: Cst)
    requires Fits(l, PrintPrec(op) + One(RightAssoc(op))) && Fits(r, PrintPrec(op) + One(!RightAssoc(op)))
    ensures Before(PrintTable, l, PrintPrec(op)) && AtLeast(PrintTable, r, RightLevel(PrintTable, op))
  {
  }

  lemma {:induction false} WholePrinted(e: Expr)
    requires NoModify(e)
    ensures Print(Encode(e), 0, 0) == Out(Spaced(Written(e, 0)), |Encode(e)|)
  {
    assert Encode(e)[0..|Encode(e)|] == Encode(e);
    PrintWrites(Encode(e), 0, 0, e);
  }

  // ---------------------------------------------------------------------------
  // Constants of other types

  /** How many numbers there are. */
  function Nums(s: seq<Tok>): (n: nat) { if s == [] then 0 else One(s[0].TNum?) + Nums(s[1..]) }

  /** How many constants a tree has, and how many of them are ints. */
  function Consts(e: Expr): (n: nat)
    requires NoModify(e)
  {
    match e
    case Const(_, _) => 1
    case Var(_) => 0
    case Binary(_, l, r) => Consts(l) + Consts(r)
    case Prefix(_, a) => Consts(a)
    case Suffix(_, a) => Consts(a)
    case Cond(c, t, f) => Consts(c) + Consts(t) + Consts(f)
  }

  function Ints(e: Expr): (n: nat)
    requires NoModify(e)
    ensures n <= Consts(e) && (n == Consts(e) <==> IntsOnly(e))
  {
    match e
    case Const(k, _) => One(k == Int)
    case Var(_) => 0
    case Binary(_, l, r) => Ints(l) + Ints(r)
    case Prefix(_, a) => Ints(a)
    case Suffix(_, a) => Ints(a)
    case Cond(c, t, f) => Ints(c) + Ints(t) + Ints(f)
  }

  lemma {:induction false} NumsConcat(a: seq<Tok>, b: seq<Tok>)
    ensures Nums(a + b) == Nums(a) + Nums(b)
    decreases |a|
  {
    if a == [] {
      assert a + b == b;
    } else {
      assert (a + b)[1..] == a[1..] + b;
      NumsConcat(a[1..], b);
    }
  }

  lemma {:induction false} NumsAround(a: seq<Tok>, m: seq<Tok>, b: seq<Tok>)
    requires Nums(m) == 0
    ensures Nums(a + m + b) == Nums(a) + Nums(b)
  {
    NumsConcat(a + m, b);
    NumsConcat(a, m);
  }

  /** A sequence of one, two or three tokens. */
  lemma {:induction false} NumsFew(s: seq<Tok>)
    requires |s| <= 3
    ensures Nums(s) == (if |s| > 0 then One(s[0].TNum?) else 0) + (if |s| > 1 then One(s[1].TNum?) else 0)
                       + (if |s| > 2 then One(s[2].TNum?) else 0)
  {
    if |s| > 0 { NumsFew(s[1..]); }
  }

  /** Finding the tokens loses no number. */
  lemma {:induction false} NumsLex(s: seq<Tok>)
    ensures Nums(Lex(s)) == Nums(s)
    decreases |s|
  {
    if s != [] {
      if |s| > 1 && s[0] != TSpace && Pair(s[0], s[1]) {
        NumsPair(s);
      } else {
        NumsLex(s[1..]);
        assert s[0] != TSpace ==> Lex(s)[1..] == Lex(s[1..]);
      }
    }
  }

  lemma {:induction false} NumsPair(s: seq<Tok>)
    requires |s| > 1 && Pair(s[0], s[1])
    ensures Nums(Lex(s)) == Nums(s)
    decreases |s|, 0
  {
    var rest := if s[1] == s[0] then s[2..] else [s[0]] + s[2..];
    NumsLex(rest);
    assert s[1..][1..] == s[2..] && ([s[0]] + s[2..])[1..] == s[2..];
    assert Lex(s)[1..] == Lex(rest);
  }

  lemma {:induction false} ConstantNums(k: Kind, n: int)
    ensures Nums(Constant(k, n)) == 1 && Nums(Literal(k, n)) == One(k == Int)
  {
    NumsFew(Number(n));
    NumsFew(Literal(k, n));
    NumsFew(Constant(Unsigned, n));
    NumsFew(Number(AsChar(n)));
    NumsFew([TSpace, TChar(n % 0x100)]);
    NumsConcat(Number(AsChar(n)), [TSpace, TChar(n % 0x100)]);
  }

  /** Each constant is printed with a number, but only an int is to be written with one. */
  lemma {:induction false} NumsOf(c: Cst)
    ensures NumsRight(c)
  {
    match c
    case CNum(k, n) => ConstantNums(k, n);
    case CName(x) => NumsFew([TName(x)]);
    case CParen(e) => NumsOf(e); NumsParen(e);
    case CPre(op, e) => NumsOf(e); NumsPre(op, e);
    case CSuf(op, e) => NumsOf(e); NumsSuf(op, e);
    case CBin(op, l, r) => NumsOf(l); NumsOf(r); NumsBin(op, l, r);
    case CCond(a, m, e) => NumsOf(a); NumsOf(m); NumsOf(e); NumsTernary(a, m, e);
  }

  predicate NumsRight(c: Cst) { Nums(Spaced(c)) == Consts(Strip(c)) && Nums(Flat(c)) == Ints(Strip(c)) }

  lemma {:induction false} NumsWrapped(s: seq<Tok>)
    ensures Nums([TOpen] + s + [TClose]) == Nums(s)
  {
    NumsFew([TClose]);
    NumsFew([TOpen]);
    NumsConcat([TOpen] + s, [TClose]);
    NumsConcat([TOpen], s);
  }

  lemma {:induction false} NumsParen(e: Cst)
    requires NumsRight(e)
    ensures NumsRight(CParen(e))
  {
    NumsWrapped(Spaced(e));
    NumsWrapped(Flat(e));
  }

  lemma {:induction false} NumsPre(op: PreOp, e: Cst)
    requires NumsRight(e)
    ensures NumsRight(CPre(op, e))
  {
    NumsFew(Prefixed(op));
    NumsFew([TPunct(PreSpell(op))]);
    NumsConcat(Prefixed(op), Spaced(e));
    NumsConcat([TPunct(PreSpell(op))], Flat(e));
  }

  lemma {:induction false} NumsSuf(op: SufOp, e: Cst)
    requires NumsRight(e)
    ensures NumsRight(CSuf(op, e))
  {
    NumsFew([TPunct(SufSpell(op))]);
    NumsConcat(Spaced(e), [TPunct(SufSpell(op))]);
    NumsConcat(Flat(e), [TPunct(SufSpell(op))]);
  }

  lemma {:induction false} NumsBin(op: BinOp, l: Cst, r: Cst)
    requires NumsRight(l) && NumsRight(r)
    ensures NumsRight(CBin(op, l, r))
  {
    NumsFew(Infixed(op));
    NumsFew([TPunct(BinSpell(op))]);
    NumsAround(Spaced(l), Infixed(op), Spaced(r));
    NumsAround(Flat(l), [TPunct(BinSpell(op))], Flat(r));
  }

  lemma {:induction false} NumsTernary(a: Cst, m: Cst, e: Cst)
    requires NumsRight(a) && NumsRight(m) && NumsRight(e)
    ensures NumsRight(CCond(a, m, e))
  {
    NumsFew(QUEST);
    NumsFew(COLON);
    NumsFew([TQuest]);
    NumsFew([TColon]);
    NumsAround(Spaced(a), QUEST, Spaced(m));
    NumsAround(Spaced(a) + QUEST + Spaced(m), COLON, Spaced(e));
    NumsAround(Flat(a), [TQuest], Flat(m));
    NumsAround(Flat(a) + [TQuest] + Flat(m), [TColon], Flat(e));
  }

  /** Whatever is read from what is printed has not the constants that were meant. */
  lemma {:induction false} ConstantsLost(t: Table, c: Cst)
    requires TableOk(t) && !IntsOnly(Strip(c))
    ensures Read(t, Lex(Spaced(c))) != Some(Strip(c))
  {
    var toks := Lex(Spaced(c));
    if Read(t, toks) == Some(Strip(c)) {
      ExprSound(t, toks, 0);
      var r := ReadExpr(t, toks, 0);
      assert Flat(r.c) + [] == Flat(r.c);
      NumsLex(Spaced(c));
      NumsOf(c);
      NumsOf(r.c);
    }
  }

  /** A tree that is printed legibly, without joining signs and with ints only, is recovered, and only such a tree
      is. */
  lemma {:induction false} RecoversIffLegible(t: Table, e: Expr)
    requires TableOk(t)
    ensures Recovers(t, e)
            <==> NoModify(e) && IntsOnly(e) && !Joins(Spaced(Written(e, 0))) && Legible(t, Written(e, 0))
  {
    if NoModify(e) {
      var c := Written(e, 0);
      WholePrinted(e);
      if !IntsOnly(e) {
        ConstantsLost(t, c);
      } else if Joins(Spaced(c)) {
        SpacedFlat(c);
        JoinedLost(t, c);
      } else {
        SpacedFlat(c);
        LexPlain(Spaced(c));
        ReadsIffLegible(t, c);
      }
    }
  }

  lemma {:induction false} ReadsIffLegible(t: Table, c: Cst)
    requires TableOk(t)
    ensures Read(t, Flat(c)) == Some(Strip(c)) <==> Legible(t, c)
  {
    if Legible(t, c) { LegibleRead(t, c); }
    if Read(t, Flat(c)) == Some(Strip(c)) {
      ExprSound(t, Flat(c), 0);
      var r := ReadExpr(t, Flat(c), 0);
      assert Flat(r.c) + [] == Flat(r.c);
      SpelledOnce(r.c, c);
    }
  }

  lemma {:induction false} JoinedLost(t: Table, c: Cst)
    requires TableOk(t) && Joins(Spaced(c)) && NoSpaces(Spaced(c)) == Flat(c)
    ensures Read(t, Lex(Spaced(c))) != Some(Strip(c))
  {
    var toks := Lex(Spaced(c));
    if Read(t, toks) == Some(Strip(c)) {
      ExprSound(t, toks, 0);
      var r := ReadExpr(t, toks, 0);
      assert Flat(r.c) + [] == Flat(r.c);
      ErasedFlat(r.c);
      ErasedFlat(c);
      JoinedDiffer(Spaced(c));
    }
  }

  /** The round trip through the printer's own precedences works for every tree but those with op=, with a constant that
      is not an int or is negative, or with a prefix operator directly in front of a sign that it makes another token
      with. */
  lemma {:induction false} TableRoundTrip(e: Expr)
    ensures Recovers(PrintTable, e) <==> NoModify(e) && Natural(e) && !Signs(e)
  {
    RecoversIffLegible(PrintTable, e);
    if NoModify(e) {
      WrittenLegible(e, 0);
      if Natural(e) { JoinsIff(e, 0); }
    }
  }

  /** An operand of `op` whose own operator is `inner` needs parentheses in the grammar, but not by op_print_tab. */
  predicate Confusable(op: BinOp, inner: BinOp) {
    (op == LogAnd && inner == LogXor) || (op in {Add, Sub, Mul, Div, Rem} && inner == Repeat)
  }

  /** No `^` directly under `&`, no `@` directly under an arithmetic operator. */
  predicate Clear(e: Expr) {
    match e
    case Const(_, _) => true
    case Var(_) => true
    case Modify(_, l, r) => Clear(l) && Clear(r)
    case Binary(op, l, r) =>
      Clear(l) && Clear(r) && !(l.Binary? && Confusable(op, l.op)) && !(r.Binary? && Confusable(op, r.op))
    case Prefix(_, e) => Clear(e)
    case Suffix(_, e) => Clear(e)
    case Cond(c, t, e) => Clear(c) && Clear(t) && Clear(e)
  }

  lemma {:induction false} ClearLeft(op: BinOp, l: Expr)
    requires NoModify(l)
    ensures Before(Grammar, Written(l, PrintPrec(op) + One(RightAssoc(op))), GrammarPrec(op))
            <==> !(l.Binary? && Confusable(op, l.op))
  {
  }

  lemma {:induction false} ClearRight(op: BinOp, r: Expr)
    requires NoModify(r)
    ensures AtLeast(Grammar, Written(r, PrintPrec(op) + One(!RightAssoc(op))), RightLevel(Grammar, op))
            <==> !(r.Binary? && Confusable(op, r.op))
  {
  }

  lemma {:induction false} ClearLegible(e: Expr, prec: nat)
    requires NoModify(e)
    ensures Legible(Grammar, Written(e, prec)) <==> Clear(e) && NoNegative(e)
    decreases e, 1
  {
    match e
    case Const(_, _) =>
    case Var(_) =>
    case Prefix(_, a) => ClearLegible(a, PREC_PREFIX); WrittenFits(a, PREC_PREFIX);
    case Suffix(_, a) => ClearLegible(a, PREC_SUFFIX); WrittenFits(a, PREC_SUFFIX);
    case Cond(c, t, f) => ClearCond(c, t, f, prec);
    case Binary(op, l, r) => ClearBinary(op, l, r, prec);
  }

  lemma {:induction false} ClearCond(c: Expr, t: Expr, f: Expr, prec: nat)
    requires NoModify(Cond(c, t, f))
    ensures Legible(Grammar, Written(Cond(c, t, f), prec)) <==> Clear(Cond(c, t, f)) && NoNegative(Cond(c, t, f))
    decreases Cond(c, t, f), 0
  {
    ClearLegible(c, PREC_HYPER);
    ClearLegible(t, PREC_HYPER);
    ClearLegible(f, PREC_HYPER);
    CondFits(Grammar, Written(c, PREC_HYPER), Written(t, PREC_HYPER), Written(f, PREC_HYPER), c, t, f);
  }

  lemma {:induction false} ClearBinary(op: BinOp, l: Expr, r: Expr, prec: nat)
    requires NoModify(Binary(op, l, r))
    ensures Legible(Grammar, Written(Binary(op, l, r), prec))
            <==> Clear(Binary(op, l, r)) && NoNegative(Binary(op, l, r))
    decreases Binary(op, l, r), 0
  {
    var p, q := PrintPrec(op) + One(RightAssoc(op)), PrintPrec(op) + One(!RightAssoc(op));
    ClearLegible(l, p);
    ClearLegible(r, q);
    ClearLeft(op, l);
    ClearRight(op, r);
    LegibleBinary(Grammar, PrintPrec(op) < prec, op, Written(l, p), Written(r, q));
    WrittenIs(op, l, r, prec, p, q);
  }

  /** The debugger's own grammar reads back what was printed exactly when besides no operands are confusable. */
  lemma {:induction false} GrammarRoundTrip(e: Expr)
    ensures Recovers(Grammar, e) <==> NoModify(e) && Natural(e) && !Signs(e) && Clear(e)
  {
    RecoversIffLegible(Grammar, e);
    if NoModify(e) {
      ClearLegible(e, 0);
      if Natural(e) { JoinsIff(e, 0); }
    }
  }

  lemma {:induction false} LegibleRead(t: Table, c: Cst)
    requires TableOk(t) && Legible(t, c)
    ensures Read(t, Flat(c)) == Some(Strip(c))
  {
    ReadBack(t, c, [], 0);
    assert Flat(c) + [] == Flat(c);
  }

  /** The tokens in what is printed, where no signs join. */
  lemma {:induction false} LexPrinted(e: Expr)
    requires NoModify(e) && Natural(e) && !Signs(e)
    ensures var printed := Print(Encode(e), 0, 0); printed.Out? && Lex(printed.toks) == Flat(Written(e, 0))
  {
    WholePrinted(e);
    SpacedFlat(Written(e, 0));
    JoinsIff(e, 0);
    LexPlain(Spaced(Written(e, 0)));
  }

  /** `x & (y ^ z)` and `(x & y) ^ z` without parentheses. */
  function MaskRight(x: Symbol, y: Symbol, z: Symbol): (c: Cst) {
    CBin(LogAnd, CName(x), CBin(LogXor, CName(y), CName(z)))
  }

  function MaskLeft(x: Symbol, y: Symbol, z: Symbol): (c: Cst) {
    CBin(LogXor, CBin(LogAnd, CName(x), CName(y)), CName(z))
  }

  /** They are spelled alike. */
  lemma {:induction false} MaskSpelled(x: Symbol, y: Symbol, z: Symbol)
    ensures Flat(MaskRight(x, y, z)) == Flat(MaskLeft(x, y, z))
  {
    assert Flat(CBin(LogXor, CName(y), CName(z))) == [TName(y), TPunct(PBin(LogXor)), TName(z)];
    assert Flat(CBin(LogAnd, CName(x), CName(y))) == [TName(x), TPunct(PBin(LogAnd)), TName(y)];
  }

  lemma {:induction false} MaskRead(x: Symbol, y: Symbol, z: Symbol)
    ensures Read(Grammar, Flat(MaskLeft(x, y, z))) == Some(Binary(LogXor, Binary(LogAnd, Var(x), Var(y)), Var(z)))
  {
    var c := CBin(LogAnd, CName(x), CName(y));
    assert Legible(Grammar, CName(x)) && Legible(Grammar, CName(y)) && Legible(Grammar, CName(z));
    assert Legible(Grammar, c) && Strip(c) == Binary(LogAnd, Var(x), Var(y));
    LegibleRead(Grammar, MaskLeft(x, y, z));
  }

  lemma {:induction false} MaskWritten(e: Expr, inner: Expr, x: Symbol, y: Symbol, z: Symbol)
    requires inner == Binary(LogXor, Var(y), Var(z)) && e == Binary(LogAnd, Var(x), inner)
    ensures NoModify(e) && Natural(e) && !Signs(e) && Written(e, 0) == MaskRight(x, y, z)
  {
    forall v ensures NoModify(Var(v)) && Natural(Var(v)) && !Signs(Var(v)) {}
    assert NoModify(inner) && Natural(inner) && !Signs(inner);
    assert Written(inner, 8) == CBin(LogXor, CName(y), CName(z));
  }

  lemma {:induction false} SpelledAs(e: Expr, c: Cst)
    requires NoModify(e) && Natural(e) && !Signs(e) && Flat(Written(e, 0)) == Flat(c)
    ensures var printed := Print(Encode(e), 0, 0);
            printed.Out? && Read(Grammar, Lex(printed.toks)) == Read(Grammar, Flat(c))
  {
    LexPrinted(e);
  }

  /** `x & (y ^ z)` is printed without the parentheses, and comes back as `(x & y) ^ z`. */
  lemma {:induction false} MaskLost(e: Expr, x: Symbol, y: Symbol, z: Symbol)
    requires e == Binary(LogAnd, Var(x), Binary(LogXor, Var(y), Var(z)))
    ensures var printed := Print(Encode(e), 0, 0);
            printed.Out?
              && Read(Grammar, Lex(printed.toks)) == Some(Binary(LogXor, Binary(LogAnd, Var(x), Var(y)), Var(z)))
  {
    MaskWritten(e, e.r, x, y, z);
    MaskSpelled(x, y, z);
    SpelledAs(e, MaskLeft(x, y, z));
    MaskRead(x, y, z);
  }

  // ---------------------------------------------------------------------------
  // print_subexp as it runs

  /** The cursor moves over the vector and the tokens go out on a stream. */
  class Printer {
    const v: seq<Elt>
    var pos: nat
    var out: seq<Tok>

    constructor (v: seq<Elt>)
      ensures this.v == v && pos == 0 && out == []
    {
      this.v, pos, out := v, 0, [];
    }

    /** What a call that began at `from`, with `before` on the stream, has done. */
    ghost predicate Emitted(ok: bool, before: seq<Tok>, from: nat, prec: nat)
      reads this
    {
      var printed := Print(v, from, prec);
      if ok then printed.Out? && printed.pos == pos && out == before + printed.toks else printed == Stuck
    }

    method PrintSubexp(prec: nat) returns (ok: bool)
      modifies this
      ensures Emitted(ok, old(out), old(pos), prec)
      decreases |v| - pos, 1
    {
      var pc := pos;
      if pc >= |v| {
        return false;
      }
      pos := pos + 1;
      ok := true;
      match v[pc] {
        case OpLong =>
          if pc + 4 > |v| || !v[pc + 1].Type? || !v[pc + 2].Long? { return false; }
          pos := pos + 3;
          out := out + Constant(v[pc + 1].kind, v[pc + 2].n);
        case OpVar =>
          if pc + 3 > |v| || !v[pc + 1].Sym? { return false; }
          pos := pos + 2;
          out := out + [TName(v[pc + 1].x)];
        case OpModify =>
          if pc + 4 > |v| { return false; }
          pos := pos + 2;
          pos := pos + 1;
          out := out + [TThis];
        case OpSuf(op) =>
          ok := PrintSubexp(PREC_SUFFIX);
          if ok {
            out := out + [TPunct(SufSpell(op))];
            assert out == old(out) + Print(v, pc, prec).toks;
          }
        case OpCond => ok := PrintTernary(pc, prec);
        case OpPre(op) => ok := PrintPrefix(pc, op, prec);
        case OpBin(op) =>
          var myprec, assoc := PrintPrec(op), RightAssoc(op);
          PrintIsInfix(v, pc, prec, op, myprec, myprec + One(assoc), myprec + One(!assoc));
          ok := PrintInfix(pc, op, myprec, myprec + One(assoc), myprec + One(!assoc), prec);
        case _ => ok := false;
      }
    }

    method Emit(tok: Tok, wanted: bool)
      modifies `out
      ensures out == old(out) + When(wanted, tok)
    {
      if wanted { out := out + [tok]; }
    }

    method PrintTernary(ghost pc: nat, prec: nat) returns (ok: bool)
      requires pc < |v| && v[pc] == OpCond && pos == pc + 1
      modifies this
      ensures Emitted(ok, old(out), pc, prec)
      decreases |v| - pc, 0
    {
      Emit(TOpen, prec > PREC_COMMA);
      ghost var p1, p2, p3;
      p1 := Print(v, pos, PREC_HYPER);
      ok := PrintSubexp(PREC_HYPER);
      if !ok { return; }
      out := out + QUEST;
      p2 := Print(v, pos, PREC_HYPER);
      ok := PrintSubexp(PREC_HYPER);
      if !ok { return; }
      out := out + COLON;
      p3 := Print(v, pos, PREC_HYPER);
      ok := PrintSubexp(PREC_HYPER);
      if !ok { return; }
      Emit(TClose, prec > PREC_COMMA);
      TernaryStream(old(out), prec > PREC_COMMA, p1.toks, p2.toks, p3.toks);
    }

    method PrintPrefix(ghost pc: nat, op: PreOp, prec: nat) returns (ok: bool)
      requires pc < |v| && v[pc] == OpPre(op) && pos == pc + 1
      modifies this
      ensures Emitted(ok, old(out), pc, prec)
      decreases |v| - pc, 0
    {
      Emit(TOpen, PREC_PREFIX < prec);
      out := out + Prefixed(op);
      ok := PrintSubexp(PREC_PREFIX);
      if !ok { return; }
      Emit(TClose, PREC_PREFIX < prec);
      assert out == old(out) + Print(v, pc, prec).toks;
    }

    /** A binary operator of precedence `myprec`, the operands in contexts of precedence `left` and `right`. */
    method PrintInfix(ghost pc: nat, op: BinOp, myprec: nat, left: nat, right: nat, prec: nat) returns (ok: bool)
      requires pc < |v| && pos == pc + 1 && Print(v, pc, prec) == Infix(v, pos, op, myprec, left, right, prec)
      modifies this
      ensures Emitted(ok, old(out), pc, prec)
      decreases |v| - pc, 0
    {
      Emit(TOpen, myprec < prec);
      ghost var p1, p2;
      p1 := Print(v, pos, left);
      ok := PrintSubexp(left);
      if !ok { return; }
      out := out + Infixed(op);
      p2 := Print(v, pos, right);
      ok := PrintSubexp(right);
      if !ok { return; }
      Emit(TClose, myprec < prec);
      InfixStream(old(out), myprec < prec, p1.toks, Infixed(op), p2.toks);
    }
  }

  /** What printing a binary operator comes to, its operands being at `pos` and after that. */
  function Infix(v: seq<Elt>, pos: nat, op: BinOp, myprec: nat, left: nat, right: nat, prec: nat): (r: Printed) {
    match Print(v, pos, left)
    case Stuck => Stuck
    case Out(a, p1) =>
      match Print(v, p1, right)
      case Stuck => Stuck
      case Out(b, p2) => Out(Bracket(myprec < prec, a + Infixed(op) + b), p2)
  }

  function When(b: bool, x: Tok): (r: seq<Tok>) { if b then [x] else [] }

  lemma {:induction false} Wrapped(before: seq<Tok>, b: bool, m: seq<Tok>)
    ensures before + When(b, TOpen) + m + When(b, TClose) == before + Bracket(b, m)
  {
  }

  lemma {:induction false} InfixStream(before: seq<Tok>, b: bool, l: seq<Tok>, m: seq<Tok>, r: seq<Tok>)
    ensures before + When(b, TOpen) + l + m + r + When(b, TClose) == before + Bracket(b, l + m + r)
  {
    var p := before + When(b, TOpen);
    assert p + l + m + r == p + (l + m + r);
    Wrapped(before, b, l + m + r);
  }

  lemma {:induction false} TernaryStream(before: seq<Tok>, b: bool, c: seq<Tok>, t: seq<Tok>, f: seq<Tok>)
    ensures before + When(b, TOpen) + c + QUEST + t + COLON + f + When(b, TClose)
            == before + Bracket(b, c + QUEST + t + COLON + f)
  {
    var p := before + When(b, TOpen);
    var front := c + QUEST + t;
    assert p + c + QUEST + t == p + front;
    assert p + front + COLON + f == p + (front + COLON + f);
    Wrapped(before, b, front + COLON + f);
  }
}
