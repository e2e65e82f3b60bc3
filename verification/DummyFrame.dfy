/** Calling a function of the inferior by hand on the i386: the frame that is pushed before and popped afterwards. */
module DummyFrame {
  import opened Common

  const NUM_REGS := 16
  const SP_REGNUM := 4
  const FP_REGNUM := 5
  const PC_REGNUM := 8
  const CALL_DUMMY_LENGTH := 8

  /** Registers, and memory by the address of each word. */
  datatype Cpu = Cpu(regs: seq<int>, mem: map<int, int>)

  predicate CpuOk(c: Cpu) { |c.regs| == NUM_REGS }

  function Load(mem: map<int, int>, a: int): (r: int) { if a in mem then mem[a] else 0 }

  /** Where register `i` is saved in the frame at `fp`. */
  function SlotOf(fp: int, i: int): (r: int) { fp - WORD - WORD * i }

  /** Memory after the first `n` registers were pushed below `fp`. */
  function Saved(mem: map<int, int>, regs: seq<int>, fp: int, n: nat): (r: map<int, int>)
    requires n <= |regs|
  {
    if n == 0 then mem else Saved(mem, regs, fp, n - 1)[SlotOf(fp, n - 1) := regs[n - 1]]
  }

  /** i386_push_dummy_frame. The register saved for FP is already the new one. */
  function Push(c: Cpu): (r: Cpu)
    requires CpuOk(c)
    ensures CpuOk(r)
  {
    var sp := c.regs[SP_REGNUM];
    var fp := sp - 2 * WORD;
    var regs := c.regs[FP_REGNUM := fp];
    Cpu(regs[SP_REGNUM := fp - WORD * NUM_REGS],
        Saved(c.mem[sp - WORD := c.regs[PC_REGNUM]][fp := c.regs[FP_REGNUM]], regs, fp, NUM_REGS))
  }

  /** Is the program in the dummy code of the frame at FP? */
  predicate InDummy(c: Cpu)
    requires CpuOk(c)
  {
    var fp := c.regs[FP_REGNUM];
    fp - WORD - NUM_REGS * WORD - CALL_DUMMY_LENGTH <= c.regs[PC_REGNUM] <= fp
  }

  /** Registers after the first `n` were restored; a slot at address 0 counts as none. */
  function Restored(c: Cpu, n: nat): (r: seq<int>)
    requires CpuOk(c) && n <= NUM_REGS
    ensures |r| == NUM_REGS
    ensures forall i :: 0 <= i < NUM_REGS ==>
              r[i] == if i < n && SlotOf(c.regs[FP_REGNUM], i) != 0 then Load(c.mem, SlotOf(c.regs[FP_REGNUM], i))
                else c.regs[i]
  {
    if n == 0 then c.regs
    else
      var r := Restored(c, n - 1);
      var slot := SlotOf(c.regs[FP_REGNUM], n - 1);
      if slot != 0 then r[n - 1 := Load(c.mem, slot)] else r
  }

  /** i386_pop_frame, for a dummy frame. */
  function Pop(c: Cpu): (r: Cpu)
    requires CpuOk(c)
    ensures CpuOk(r)
  {
    var fp := c.regs[FP_REGNUM];
    var general := Restored(c, NUM_REGS);
    c.(regs := general[FP_REGNUM := Load(c.mem, fp)][PC_REGNUM := Load(c.mem, fp + WORD)][SP_REGNUM := fp + 2 * WORD])
  }

  // ---------------------------------------------------------------------------
  // What is pushed is popped

  lemma {:induction false} SavedAt(mem: map<int, int>, regs: seq<int>, fp: int, n: nat)
    requires n <= |regs|
    ensures forall i :: 0 <= i < n ==> Load(Saved(mem, regs, fp, n), SlotOf(fp, i)) == regs[i]
    ensures forall a :: a >= fp || a < fp - WORD * n ==> Load(Saved(mem, regs, fp, n), a) == Load(mem, a)
  {
    if n > 0 { SavedAt(mem, regs, fp, n - 1); }
  }

  /** Memory at `floor` and above is the same. */
  ghost predicate SameAbove(floor: int, m: map<int, int>, m': map<int, int>) {
    forall a :: a >= floor ==> Load(m, a) == Load(m', a)
  }

  /** The registers that the loop over the slots decides. */
  predicate General(i: int) { i != SP_REGNUM && i != FP_REGNUM && i != PC_REGNUM }

  /** A callee that leaves the frame alone and returns with its frame pointer gets every register back; one whose slot
      happens to be at address 0 only if the callee left it as it was. */
  lemma {:induction false} PushPop(c: Cpu, d: Cpu)
    requires CpuOk(c) && CpuOk(d)
    requires d.regs[FP_REGNUM] == Push(c).regs[FP_REGNUM] && SameAbove(Push(c).regs[SP_REGNUM], Push(c).mem, d.mem)
    ensures Pop(d).regs == c.regs
            <==> forall i :: 0 <= i < NUM_REGS && General(i) && SlotOf(d.regs[FP_REGNUM], i) == 0 ==>
                   d.regs[i] == c.regs[i]
    ensures SameAbove(c.regs[SP_REGNUM], c.mem, Pop(d).mem)
  {
    var sp := c.regs[SP_REGNUM];
    var fp := sp - 2 * WORD;
    var mem := c.mem[sp - WORD := c.regs[PC_REGNUM]][fp := c.regs[FP_REGNUM]];
    SavedAt(mem, c.regs[FP_REGNUM := fp], fp, NUM_REGS);
    var r := Pop(d).regs;
    assert r[SP_REGNUM] == sp && r[FP_REGNUM] == c.regs[FP_REGNUM] && r[PC_REGNUM] == c.regs[PC_REGNUM];
    forall i | 0 <= i < NUM_REGS && General(i)
      ensures r[i] == if SlotOf(fp, i) != 0 then c.regs[i] else d.regs[i]
    {
      assert Load(d.mem, SlotOf(fp, i)) == Load(Push(c).mem, SlotOf(fp, i)) == c.regs[i];
    }
    forall a | a >= sp ensures Load(c.mem, a) == Load(d.mem, a) {
      assert Load(mem, a) == Load(c.mem, a);
    }
  }

  // ---------------------------------------------------------------------------
  // Calls within calls

  /** What happens between a push and its pop: code of the inferior runs, which ends in the state `to`; or the user
      calls another function by hand. */
  datatype Session = End | Code(to: Cpu, rest: Session) | Call(body: Session, rest: Session)

  function Exec(s: Session, c: Cpu): (r: Cpu)
    requires CpuOk(c) && SessionOk(s)
    ensures CpuOk(r)
  {
    match s
    case End => c
    case Code(to, rest) => Exec(rest, to)
    case Call(body, rest) => Exec(rest, Pop(Exec(body, Push(c))))
  }

  predicate SessionOk(s: Session) {
    match s
    case End => true
    case Code(to, rest) => CpuOk(to) && SessionOk(rest)
    case Call(body, rest) => SessionOk(body) && SessionOk(rest)
  }

  /** No general register of the frame at `fp` is saved at address 0. */
  predicate NoNullSlot(fp: int) { forall i :: 0 <= i < NUM_REGS && General(i) ==> SlotOf(fp, i) != 0 }

  /** Code keeps its stack below `floor` and what is above untouched; a called function returns into its dummy. */
  ghost predicate Behaves(s: Session, c: Cpu, floor: int)
    requires CpuOk(c) && SessionOk(s)
  {
    && c.regs[SP_REGNUM] <= floor
    && match s
       case End => true
       case Code(to, rest) => SameAbove(floor, c.mem, to.mem) && Behaves(rest, to, floor)
       case Call(body, rest) =>
         && Behaves(body, Push(c), Push(c).regs[SP_REGNUM])
         && (var d := Exec(body, Push(c));
             d.regs[FP_REGNUM] == Push(c).regs[FP_REGNUM] && InDummy(d) && NoNullSlot(d.regs[FP_REGNUM])
             && Behaves(rest, Pop(d), floor))
  }

  /** However calls are nested, nothing above the stack changes. */
  lemma {:induction false} SessionKeeps(s: Session, c: Cpu, floor: int)
    requires CpuOk(c) && SessionOk(s) && Behaves(s, c, floor)
    ensures SameAbove(floor, c.mem, Exec(s, c).mem)
    decreases s
  {
    match s
    case End =>
    case Code(to, rest) => SessionKeeps(rest, to, floor);
    case Call(body, rest) =>
      SessionKeeps(body, Push(c), Push(c).regs[SP_REGNUM]);
      PushPop(c, Exec(body, Push(c)));
      SessionKeeps(rest, Pop(Exec(body, Push(c))), floor);
  }

  /** However calls are nested, each gives all sixteen registers back. */
  lemma {:induction false} CallRestores(body: Session, c: Cpu)
    requires CpuOk(c) && SessionOk(body) && Behaves(Call(body, End), c, c.regs[SP_REGNUM])
    ensures Exec(Call(body, End), c).regs == c.regs
    ensures SameAbove(c.regs[SP_REGNUM], c.mem, Exec(Call(body, End), c).mem)
  {
    SessionKeeps(body, Push(c), Push(c).regs[SP_REGNUM]);
    PushPop(c, Exec(body, Push(c)));
  }

  // ---------------------------------------------------------------------------
  // As it runs

  class Machine {
    const regs: array<int>
    var mem: map<int, int>

    predicate Valid()
      reads this
    {
      regs.Length == NUM_REGS
    }

    function State(): (r: Cpu)
      reads this, regs
    {
      Cpu(regs[..], mem)
    }

    /** push_word, for a stack that grows downward. */
    method PushWord(sp: int, word: int) returns (sp': int)
      modifies this`mem
      ensures sp' == sp - WORD && mem == old(mem)[sp' := word]
    {
      sp' := sp - WORD;
      mem := mem[sp' := word];
    }

    /** i386_push_dummy_frame. */
    method PushDummyFrame()
      requires Valid()
      modifies this`mem, regs
      ensures State() == Push(old(State()))
    {
      var sp := regs[SP_REGNUM];
      sp := PushWord(sp, regs[PC_REGNUM]);
      sp := PushWord(sp, regs[FP_REGNUM]);
      regs[FP_REGNUM] := sp;
      ghost var fp, base := sp, mem;
      for regnum := 0 to NUM_REGS
        invariant regs[..] == old(regs[..])[FP_REGNUM := fp]
        invariant sp == fp - WORD * regnum && mem == Saved(base, regs[..], fp, regnum)
      {
        sp := PushWord(sp, regs[regnum]);
      }
      regs[SP_REGNUM] := sp;
      assert regs[..] == Push(old(State())).regs;
    }

    /** The dummy branch of i386_frame_find_saved_regs. */
    method FindSavedRegs(frame: int) returns (slots: seq<int>)
      ensures |slots| == NUM_REGS && forall i :: 0 <= i < NUM_REGS ==> slots[i] == SlotOf(frame, i)
    {
      slots := [];
      var adr := frame - WORD;
      for i := 0 to NUM_REGS
        invariant |slots| == i && adr == SlotOf(frame, i) && forall j :: 0 <= j < i ==> slots[j] == SlotOf(frame, j)
      {
        slots := slots + [adr];
        adr := adr - WORD;
      }
    }

    /** i386_pop_frame, when the current frame is a dummy. */
    method PopFrame()
      requires Valid() && InDummy(State())
      modifies regs
      ensures State() == Pop(old(State()))
    {
      ghost var c := State();
      var fp := regs[FP_REGNUM];
      var slots := FindSavedRegs(fp);
      for regnum := 0 to NUM_REGS
        invariant regs[..] == Restored(c, regnum)
      {
        var adr := slots[regnum];
        if adr != 0 {
          regs[regnum] := Load(mem, adr);
        }
      }
      regs[FP_REGNUM] := Load(mem, fp);
      regs[PC_REGNUM] := Load(mem, fp + WORD);
      regs[SP_REGNUM] := fp + 2 * WORD;
    }
  }
}
