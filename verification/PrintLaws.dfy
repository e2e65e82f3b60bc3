/** What constants look like in print, and how few parentheses are printed. */
module PrintLaws {
  import opened Common
  import opened Expressions
  import opened ExprPrint

  // ---------------------------------------------------------------------------
  // Constants

  /** The tokens of a number that may be negative. */
  function Signed(n: int): (r: seq<Tok>) { if n < 0 then [TPunct(PBin(Sub)), TNum(-n)] else [TNum(n)] }

  /** The number itself, with a sign if it is negative. */
  lemma {:induction false} IntPrinted(v: seq<Elt>, pos: nat, prec: nat, n: int)
    requires At(v, pos, Const(Int, n))
    ensures Print(v, pos, prec) == Out(Signed(n), pos + 4)
  {
    LeafAt(v, pos, Const(Int, n));
  }

  /** The number as 32 bits without a sign have it. */
  lemma {:induction false} UnsignedPrinted(v: seq<Elt>, pos: nat, prec: nat, n: int)
    requires At(v, pos, Const(Unsigned, n)) && -0x1_0000_0000 <= n < 0x1_0000_0000
    ensures Print(v, pos, prec) == Out([TNum(if n < 0 then n + 0x1_0000_0000 else n)], pos + 4)
  {
    LeafAt(v, pos, Const(Unsigned, n));
  }

  /** The number as a signed byte has it, a blank, and the character in quotes. */
  lemma {:induction false} CharPrinted(v: seq<Elt>, pos: nat, prec: nat, n: int)
    requires At(v, pos, Const(Char, n)) && -0x80 <= n < 0x100
    ensures Print(v, pos, prec)
            == Out(Signed(if n < 0x80 then n else n - 0x100) + [TSpace, TChar(if n < 0 then n + 0x100 else n)], pos + 4)
  {
    LeafAt(v, pos, Const(Char, n));
  }

  /** The range of a constant of type int, unsigned int or char. */
  predicate InType(k: Kind, n: int) {
    match k
    case Int => -0x8000_0000 <= n < 0x8000_0000
    case Unsigned => 0 <= n < 0x1_0000_0000
    case Char => -0x80 <= n < 0x80
  }

  /** Two constants are printed alike exactly if they are the same number, and both are characters or neither is. */
  lemma {:induction false} PrintedAlike(k: Kind, n: int, j: Kind, m: int)
    requires InType(k, n) && InType(j, m)
    ensures Print(Encode(Const(k, n)), 0, 0) == Print(Encode(Const(j, m)), 0, 0) <==> n == m && (k.Char? <==> j.Char?)
  {
    ConstantPrinted(k, n);
    ConstantPrinted(j, m);
    var a, b := Print(Encode(Const(k, n)), 0, 0).toks, Print(Encode(Const(j, m)), 0, 0).toks;
    assert a[0] == Signed(n)[0] && b[0] == Signed(m)[0];
    assert n < 0 ==> a[1] == Signed(n)[1];
    assert m < 0 ==> b[1] == Signed(m)[1];
  }

  /** What is printed of a constant, whatever its type. */
  lemma {:induction false} ConstantPrinted(k: Kind, n: int)
    requires InType(k, n)
    ensures Print(Encode(Const(k, n)), 0, 0)
            == Out(if k.Char? then Signed(n) + [TSpace, TChar(if n < 0 then n + 0x100 else n)] else Signed(n), 4)
  {
    var v := Encode(Const(k, n));
    assert v[0..|v|] == v;
    match k
    case Int => IntPrinted(v, 0, 0, n);
    case Unsigned => UnsignedPrinted(v, 0, 0, n);
    case Char => CharPrinted(v, 0, 0, n);
  }

  // ---------------------------------------------------------------------------
  // Parentheses

  function Parens(c: Cst): (r: nat) {
    match c
    case CNum(_, _) => 0
    case CName(_) => 0
    case CParen(e) => 1 + Parens(e)
    case CBin(_, l, r) => Parens(l) + Parens(r)
    case CPre(_, e) => Parens(e)
    case CSuf(_, e) => Parens(e)
    case CCond(c, m, e) => Parens(c) + Parens(m) + Parens(e)
  }

  /** Binary operations and `?:` within `?:` are always in parentheses. */
  predicate Clearer(c: Cst) {
    match c
    case CNum(_, _) => true
    case CName(_) => true
    case CParen(e) => Clearer(e)
    case CBin(_, l, r) => Clearer(l) && Clearer(r)
    case CPre(_, e) => Clearer(e)
    case CSuf(_, e) => Clearer(e)
    case CCond(c, m, e) =>
      IsOperand(c) && IsOperand(m) && IsOperand(e) && Clearer(c) && Clearer(m) && Clearer(e)
  }

  lemma {:induction false} WrittenClearer(e: Expr, prec: nat)
    requires NoModify(e)
    ensures Clearer(Written(e, prec))
  {
    match e
    case Const(_, _) =>
    case Var(_) =>
    case Prefix(_, a) => WrittenClearer(a, PREC_PREFIX);
    case Suffix(_, a) => WrittenClearer(a, PREC_SUFFIX);
    case Cond(c, t, f) =>
      WrittenClearer(c, PREC_HYPER);
      WrittenClearer(t, PREC_HYPER);
      WrittenClearer(f, PREC_HYPER);
      HyperOperand(c);
      HyperOperand(t);
      HyperOperand(f);
    case Binary(op, l, r) =>
      var p, q := PrintPrec(op) + One(RightAssoc(op)), PrintPrec(op) + One(!RightAssoc(op));
      WrittenClearer(l, p);
      WrittenClearer(r, q);
      WrittenIs(op, l, r, prec, p, q);
  }

  lemma {:induction false} HyperOperand(e: Expr)
    requires NoModify(e)
    ensures IsOperand(Written(e, PREC_HYPER))
  {
    WrittenFits(e, PREC_HYPER);
  }

  /** A tighter context costs one pair at most. */
  lemma {:induction false} OnePairMore(e: Expr, prec: nat)
    requires NoModify(e)
    ensures Parens(Written(e, prec)) <= Parens(Written(e, 0)) + 1
  {
  }

  /** Operands that the table reads need no parentheses of the printer's. */
  lemma OperandsRead(op: BinOp, l: Cst, r: Cst)
    requires Before(PrintTable, l, PrintPrec(op)) && AtLeast(PrintTable, r, RightLevel(PrintTable, op))
    ensures Fits(l, PrintPrec(op) + One(RightAssoc(op))) && Fits(r, PrintPrec(op) + One(!RightAssoc(op)))
  {
  }

  lemma {:induction false} FewestFitting(c: Cst, prec: nat)
    requires Legible(PrintTable, c) && Clearer(c) && Fits(c, prec)
    ensures Parens(Written(Strip(c), prec)) <= Parens(c)
    decreases c, 1
  {
    match c
    case CNum(_, _) =>
    case CName(_) =>
    case CParen(e) => FewestFitting(e, 0); OnePairMore(Strip(e), prec);
    case CBin(op, l, r) => FewestBinary(op, l, r, prec);
    case CPre(_, e) => FewestFitting(e, PREC_PREFIX);
    case CSuf(_, e) => FewestFitting(e, PREC_SUFFIX);
    case CCond(a, m, e) =>
      FewestFitting(a, PREC_HYPER);
      FewestFitting(m, PREC_HYPER);
      FewestFitting(e, PREC_HYPER);
  }

  lemma {:induction false} FewestBinary(op: BinOp, l: Cst, r: Cst, prec: nat)
    requires var c := CBin(op, l, r); Legible(PrintTable, c) && Clearer(c) && Fits(c, prec)
    ensures Parens(Written(Strip(CBin(op, l, r)), prec)) <= Parens(l) + Parens(r)
    decreases CBin(op, l, r), 0
  {
    var p, q := PrintPrec(op) + One(RightAssoc(op)), PrintPrec(op) + One(!RightAssoc(op));
    OperandsRead(op, l, r);
    FewestFitting(l, p);
    FewestFitting(r, q);
    WrittenIs(op, Strip(l), Strip(r), prec, p, q);
  }

  /** Of all ways to write an expression so that the printer's table reads it, with parentheses around the operations
      within `?:`, the printed one has the fewest parentheses. */
  lemma {:induction false} FewestParens(e: Expr, c: Cst)
    requires NoModify(e) && NoNegative(e) && Strip(c) == e && Legible(PrintTable, c) && Clearer(c)
    ensures var w := Written(e, 0);
            && Print(Encode(e), 0, 0) == Out(Spaced(w), |Encode(e)|)
            && Legible(PrintTable, w) && Clearer(w) && Parens(w) <= Parens(c)
  {
    WholePrinted(e);
    WrittenLegible(e, 0);
    WrittenClearer(e, 0);
    FewestFitting(c, 0);
  }
}
