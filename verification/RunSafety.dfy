/** What run control keeps through every run. */
module RunSafety {
  import opened Common
  import opened Breakpoints
  import opened RunControl

  /** The step-resume breakpoint is in memory. */
  function Extra(m: Machine): (r: set<Addr>) {
    if m.bpIn && PendingStep(m) then {m.resumeAddr} else {}
  }

  ghost predicate Holds(cfg: Config, code: set<Addr>, prog: Memory, m: Machine, extra: set<Addr>) {
    Consistent(cfg.brk, prog, code, m.chain, m.mem, extra)
  }

  /** The step-resume breakpoint is at an instruction no enabled breakpoint is at; its shadow, once
      filled, is the program's own code, and it is filled while breakpoints are in. */
  ghost predicate StepOk(cfg: Config, code: set<Addr>, prog: Memory, m: Machine) {
    && |m.resumeShadow| == |cfg.brk|
    && (PendingStep(m) ==>
         && m.resumeAddr in code && !Here(m.chain, m.resumeAddr)
         && Mapped(prog, m.resumeAddr, |cfg.brk|)
         && (m.resumeFilled ==> m.resumeShadow == Bytes(prog, m.resumeAddr, |cfg.brk|))
         && (m.bpIn ==> m.resumeFilled))
  }

  /** Memory is the program's own, but for break instructions at exactly the inserted breakpoints and the
      step-resume breakpoint; no shadow holds anything but the program's own bytes. */
  ghost predicate MemOk(cfg: Config, code: set<Addr>, prog: Memory, m: Machine) {
    && Holds(cfg, code, prog, m, Extra(m))
    && StepOk(cfg, code, prog, m)
    && (!m.bpIn ==> NoneIn(m.chain))
    && Numbered(m.chain)
  }

  predicate InsertedEnabled(c: Chain) {
    forall i :: 0 <= i < |c| && c[i].inserted ==> c[i].enable != Disabled
  }

  /** Breakpoint numbers are positive, or -3 for momentary breakpoints. */
  predicate Numbered(c: Chain) {
    forall i :: 0 <= i < |c| ==> c[i].number > 0 || c[i].number == MOMENTARY
  }

  /** While the inferior runs: breakpoints are in memory exactly when breakpoints_inserted says so. */
  ghost predicate MachineOk(cfg: Config, code: set<Addr>, prog: Memory, m: Machine) {
    && MemOk(cfg, code, prog, m)
    && (m.bpIn ==> AllIn(m.chain))
    && InsertedEnabled(m.chain)
  }

  predicate Starting(s: State) { s.trap.expected > 1 || s.trap.inShell }

  /** The step-resume breakpoint was aimed while stepping off a breakpoint and is not yet in. */
  predicate Postponed(m: Machine) { PendingStep(m) && !m.resumeFilled }

  /** The shell runs without breakpoints and without stepping. */
  predicate StartingOk(s: State) {
    Starting(s) ==> !s.m.bpIn && s.step.end == 0 && s.m.resumeAddr == 0 && !s.step.pull && s.trap.expected >= 1
  }

  predicate FlagsOk(s: State) {
    && s.alive && !s.trap.attach
    && (Postponed(s.m) ==> !s.m.bpIn && s.trap.expected == 1)
    && StartingOk(s)
  }

  /** Breakpoints at instructions, at most one per address unmarked. */
  predicate Orderly(code: set<Addr>, c: Chain) { OneFirst(c) && InCode(code, c) && Numbered(c) }

  /** And none is in memory. */
  predicate QuietChain(code: set<Addr>, c: Chain) { NoneIn(c) && Orderly(code, c) }

  /** Nothing is in memory. Whether the breakpoints could go there does not matter yet. */
  ghost predicate Untouched(cfg: Config, code: set<Addr>, prog: Memory, m: Machine) {
    |m.resumeShadow| == |cfg.brk| && m.mem == prog && !m.bpIn && QuietChain(code, m.chain)
  }

  /** While the shell is starting the program nothing is in memory; afterwards what is there is accounted for. */
  ghost predicate MachineInv(cfg: Config, code: set<Addr>, prog: Memory, s: State) {
    if Starting(s) then Untouched(cfg, code, prog, s.m) && s.m.resumeAddr == 0 else MachineOk(cfg, code, prog, s.m)
  }

  ghost predicate LoopInv(cfg: Config, code: set<Addr>, prog: Memory, s: State) {
    FlagsOk(s) && MachineInv(cfg, code, prog, s)
  }

  /** The trap by which the shell has become the program. */
  predicate LastTrap(s: State, r: Report) { s.trap.inShell && s.trap.expected <= 1 && r.signal == SIGTRAP }

  /** A report is one a well-behaved program can give. The shell may do what it likes to its memory, but has made place
      for the program by its last trap. The program does not execute another or write its own code, control is at
      instructions, and the symbol tables are always the same. */
  ghost predicate ReportOk(cfg: Config, code: set<Addr>, prog: Memory, s: State, r: Report) {
    if Starting(s) then LastTrap(s, r) ==> CodeOk(cfg.brk, ImageAfter(prog, r), code)
    else
      && r.image == None && Placed(cfg, r)
      && (forall a, c :: a in r.writes && c in code ==> !Covers(|cfg.brk|, c, a))
      && TargetsOk(code, s, r)
  }

  /** The addresses a stepping command may run to are instructions. */
  predicate TargetsOk(code: set<Addr>, s: State, r: Report) {
    && s.prev.pc >= 0 && (s.prev.pc == 0 || s.prev.pc in code)
    && (r.returnTo == 0 || r.returnTo in code)
    && (AfterPrologue(r) == 0 || AfterPrologue(r) in code)
  }

  /** The stepping commands for which every resume is safe: a step range other than stepi's does not start at 0, unless
      functions are never stepped into. */
  predicate RangeOk(s: State) { s.step.end == 0 || s.step.end == 1 || s.step.start != 0 || s.step.over >= 0 }

  predicate RangeInv(s: State) {
    RangeOk(s) && (s.step.pull ==> s.step.end != 0 && (s.step.start != 0 || s.step.over >= 0))
  }

  /** The inferior runs free only with every breakpoint in, or while it is still the shell. */
  predicate SafeResume(n: Next) {
    n.o.Resume? ==> n.o.step || n.s.trap.inShell || (n.s.m.bpIn && AllIn(n.s.m.chain))
  }

  // ---------------------------------------------------------------------------
  // The step-resume breakpoint in memory

  lemma {:induction false} ExtraPlant(brk: seq<Byte>, prog: Memory, code: set<Addr>, c: Chain, m: Memory, a: Addr)
    requires Consistent(brk, prog, code, c, m, {}) && a in code
    requires forall i :: 0 <= i < |c| && Live(c[i]) ==> c[i].address != a
    ensures Mapped(m, a, |brk|) && Mapped(prog, a, |brk|) && Bytes(m, a, |brk|) == Bytes(prog, a, |brk|)
    ensures Consistent(brk, prog, code, c, Write(m, a, brk), {a})
  {
    assert a !in Sites(c);
    assert Sites(c) + {} == Sites(c) && Sites(c) <= code;
    assert Sites(c) + {a} <= code;
    PlantOne(brk, prog, m, Sites(c), a);
  }

  lemma {:induction false} ExtraUnplant(brk: seq<Byte>, prog: Memory, code: set<Addr>, c: Chain, m: Memory, a: Addr)
    requires Consistent(brk, prog, code, c, m, {a})
    ensures Mapped(m, a, |brk|) && Mapped(prog, a, |brk|)
    ensures Consistent(brk, prog, code, c, Write(m, a, Bytes(prog, a, |brk|)), {})
  {
    assert a in code;
    assert a !in Sites(c) by {
      forall i | 0 <= i < |c| && c[i].inserted ensures c[i].address != a { assert Live(c[i]); }
    }
    assert Sites(c) + {a} <= code;
    UnplantOne(brk, prog, m, Sites(c) + {a}, a);
    assert Sites(c) + {a} - {a} == Sites(c) + {};
  }

  /** Writing the program's own bytes where no break instruction is changes nothing. */
  lemma {:induction false} ExtraSame(brk: seq<Byte>, prog: Memory, code: set<Addr>, c: Chain, m: Memory, a: Addr)
    requires Consistent(brk, prog, code, c, m, {}) && a in code && Mapped(prog, a, |brk|)
    requires forall i :: 0 <= i < |c| && Live(c[i]) ==> c[i].address != a
    ensures Mapped(m, a, |brk|) && Write(m, a, Bytes(prog, a, |brk|)) == m
  {
    ExtraPlant(brk, prog, code, c, m, a);
    WriteSame(m, a, |brk|);
  }

  lemma {:induction false} WriteSame(m: Memory, a: Addr, n: nat)
    requires Mapped(m, a, n)
    ensures Write(m, a, Bytes(m, a, n)) == m
  {
    forall x | x in m ensures Write(m, a, Bytes(m, a, n))[x] == m[x] {
      WriteBack(m, m, a, n, x);
    }
  }

  lemma {:induction false} NoLiveAt(c: Chain, a: Addr)
    requires InsertedEnabled(c) && !Here(c, a)
    ensures forall i :: 0 <= i < |c| && Live(c[i]) ==> c[i].address != a
  {
    forall i | 0 <= i < |c| && Live(c[i]) ensures c[i].address != a {
      if c[i].address == a { assert On(c[i], a); }
    }
  }

  /** remove_step_breakpoint leaves the user's breakpoints only, provided the shadow was filled. */
  lemma {:induction false} RemoveStepOk(cfg: Config, code: set<Addr>, prog: Memory, m: Machine)
    requires MemOk(cfg, code, prog, m) && !Postponed(m)
    ensures Holds(cfg, code, prog, RemoveStep(m), {})
  {
    if PendingStep(m) {
      if m.bpIn {
        ExtraUnplant(cfg.brk, prog, code, m.chain, m.mem, m.resumeAddr);
      } else {
        NoLiveAt(m.chain, m.resumeAddr);
        ExtraSame(cfg.brk, prog, code, m.chain, m.mem, m.resumeAddr);
      }
    }
  }

  /** Taking the step-resume breakpoint out when it has done its job. */
  lemma {:induction false} DropStepOk(cfg: Config, code: set<Addr>, prog: Memory, m: Machine)
    requires MachineOk(cfg, code, prog, m) && !Postponed(m)
    ensures MachineOk(cfg, code, prog, RemoveStep(m).(resumeAddr := 0))
  {
    RemoveStepOk(cfg, code, prog, m);
  }

  lemma {:induction false} RemoveBreakpointsOk(cfg: Config, code: set<Addr>, prog: Memory, m: Machine)
    requires MemOk(cfg, code, prog, m)
    ensures var t := RemoveBreakpoints(m);
            MemOk(cfg, code, prog, t) && NoneIn(t.chain) && SameButInserted(m.chain, t.chain)
  {
    RemoveAllRestores(cfg.brk, prog, code, m.chain, m.mem, Extra(m), 0);
    SameHere(m.chain, RemoveBreakpoints(m).chain, m.resumeAddr);
  }

  /** remove_breakpoints and remove_step_breakpoint together restore the program's memory. */
  lemma {:induction false} RemoveBothOk(cfg: Config, code: set<Addr>, prog: Memory, m: Machine)
    requires MachineOk(cfg, code, prog, m) && !Postponed(m)
    ensures var t := RemoveStep(RemoveBreakpoints(m)).(bpIn := false);
            MachineOk(cfg, code, prog, t) && t.mem == prog && !Postponed(t)
  {
    RemoveBreakpointsOk(cfg, code, prog, m);
    var u := RemoveBreakpoints(m);
    RemoveStepOk(cfg, code, prog, u);
    var t := RemoveStep(u).(bpIn := false);
    NoneInPlain(cfg.brk, prog, code, t.chain, t.mem);
  }

  lemma {:induction false} NoneInPlain(brk: seq<Byte>, prog: Memory, code: set<Addr>, c: Chain, m: Memory)
    requires Consistent(brk, prog, code, c, m, {}) && NoneIn(c)
    ensures m == prog
  {
    assert Sites(c) + {} == {};
    PlantedNowhere(brk, prog, m);
  }

  lemma {:induction false} SameHere(c: Chain, d: Chain, a: Addr)
    requires SameButInserted(c, d)
    ensures Here(c, a) <==> Here(d, a)
  {
    assert forall i :: 0 <= i < |c| ==> On(c[i], a) == On(d[i], a);
  }

  /** Aiming the step-resume breakpoint; the insertion is postponed if breakpoints are out. */
  lemma {:induction false} SetResumeOk(cfg: Config, code: set<Addr>, prog: Memory, m: Machine, a: Addr)
    requires MachineOk(cfg, code, prog, m) && m.resumeAddr == 0
    requires a == 0 || a in code
    ensures var t := SetResume(cfg, m, a);
            MachineOk(cfg, code, prog, t) && t.resumeAddr == a && t.bpIn == m.bpIn && (Postponed(t) ==> !m.bpIn)
  {
    var t := m.(resumeAddr := a, resumeDup := Here(m.chain, a), resumeFilled := false);
    if PendingStep(t) {
      NoLiveAt(m.chain, a);
      ExtraPlant(cfg.brk, prog, code, m.chain, m.mem, a);
    }
  }

  lemma {:induction false} InsertBothOk(cfg: Config, code: set<Addr>, prog: Memory, m: Machine)
    requires MachineOk(cfg, code, prog, m) && !m.bpIn
    ensures var t := InsertBreakpoints(cfg, InsertStep(cfg, m));
            t.bpIn && MachineOk(cfg, code, prog, t) && !Postponed(t) && t.resumeAddr == m.resumeAddr
  {
    var t := InsertStep(cfg, m);
    var extra := if PendingStep(m) then {m.resumeAddr} else {};
    if PendingStep(m) {
      NoLiveAt(m.chain, m.resumeAddr);
      ExtraPlant(cfg.brk, prog, code, m.chain, m.mem, m.resumeAddr);
    }
    InsertAllPlants(cfg.brk, prog, code, t.chain, t.mem, extra, 0);
    var q := InsertFrom(cfg.brk, t.chain, t.mem, 0);
    SameHere(m.chain, q.chain, m.resumeAddr);
    InsertOnlyWanted(cfg.brk, t.chain, t.mem, 0);
  }

  // ---------------------------------------------------------------------------
  // The phases of a turn

  ghost function ProgAfter(prog: Memory, e: Stop): (r: Memory) {
    if e.Stopped? then ImageAfter(prog, e.report) else prog
  }

  lemma {:induction false} CodeOkAfter(brk: seq<Byte>, prog: Memory, code: set<Addr>, r: Report)
    requires CodeOk(brk, prog, code) && r.image == None
    requires forall a, c :: a in r.writes && c in code ==> !Covers(|brk|, c, a)
    ensures CodeOk(brk, ImageAfter(prog, r), code)
    ensures forall c :: c in code ==>
              Mapped(prog, c, |brk|) && Bytes(ImageAfter(prog, r), c, |brk|) == Bytes(prog, c, |brk|)
  {
    forall c | c in code
      ensures Mapped(ImageAfter(prog, r), c, |brk|) && Bytes(ImageAfter(prog, r), c, |brk|) == Bytes(prog, c, |brk|)
    {
      assert Mapped(prog, c, |brk|);
      forall a | c <= a < c + |brk| ensures a in ImageAfter(prog, r) && ImageAfter(prog, r)[a] == prog[a] {
        assert Covers(|brk|, c, a);
      }
    }
  }

  /** What the program does to its data leaves the break instructions and the shadows right. */
  lemma {:induction false} ArriveConsistent(brk: seq<Byte>, prog: Memory, code: set<Addr>, c: Chain, m: Memory,
                                            extra: set<Addr>, r: Report)
    requires Consistent(brk, prog, code, c, m, extra) && r.image == None
    requires forall a, x :: a in r.writes && x in code ==> !Covers(|brk|, x, a)
    ensures Consistent(brk, ImageAfter(prog, r), code, c, ImageAfter(m, r), extra)
  {
    CodeOkAfter(brk, prog, code, r);
    var p', m' := ImageAfter(prog, r), ImageAfter(m, r);
    assert Sites(c) + extra <= code;
    assert Planted(brk, p', m', Sites(c) + extra);
  }

  lemma {:induction false} ArriveMachine(cfg: Config, code: set<Addr>, prog: Memory, m: Machine, r: Report)
    requires MachineOk(cfg, code, prog, m) && r.image == None
    requires forall a, c :: a in r.writes && c in code ==> !Covers(|cfg.brk|, c, a)
    ensures MachineOk(cfg, code, ImageAfter(prog, r), m.(mem := ImageAfter(m.mem, r)))
  {
    ArriveConsistent(cfg.brk, prog, code, m.chain, m.mem, Extra(m), r);
    CodeOkAfter(cfg.brk, prog, code, r);
  }

  /** Chains that differ only in ignore counts and in whether breakpoints are enabled. */
  predicate SameButStatus(c: Chain, d: Chain) {
    |c| == |d| && forall i :: 0 <= i < |c| ==> d[i] == c[i].(ignoreCount := d[i].ignoreCount, enable := d[i].enable)
  }

  /** Asking for the stop status disables nothing unless the answer is to stop. */
  lemma {:induction false} StopStatusOk(c: Chain, a: Addr, fp: int, conds: set<int>, i: nat, cont: int)
    requires i <= |c| && Numbered(c) && (cont == 0 || cont == -1)
    ensures var (d, status) := StopStatus(c, a, fp, conds, i, cont);
            && SameButStatus(c, d)
            && (forall k :: 0 <= k < |c| ==> d[k].enable == c[k].enable || d[k].enable == Disabled)
            && (status == 0 || status == -1 ==> forall k :: 0 <= k < |c| ==> d[k].enable == c[k].enable)
    decreases |c| - i
  {
    if i < |c| && On(c[i], a) && (c[i].frame == 0 || c[i].frame == fp) && !(c[i].conditional && i !in conds) {
      if c[i].ignoreCount > 0 {
        StopStatusOk(c[i := c[i].(ignoreCount := c[i].ignoreCount - 1)], a, fp, conds, i + 1, -1);
      }
    } else if i < |c| {
      StopStatusOk(c, a, fp, conds, i + 1, if On(c[i], a) then -1 else cont);
    }
  }

  lemma {:induction false} StatusConsistent(brk: seq<Byte>, prog: Memory, code: set<Addr>, c: Chain, d: Chain,
                                            m: Memory, extra: set<Addr>)
    requires Consistent(brk, prog, code, c, m, extra) && SameButStatus(c, d)
    requires forall k :: 0 <= k < |c| ==> d[k].enable == c[k].enable || d[k].enable == Disabled
    ensures Consistent(brk, prog, code, d, m, extra)
    ensures forall a :: Here(d, a) ==> Here(c, a)
  {
    assert Sites(c) == Sites(d) by {
      forall s | s in Sites(c) ensures s in Sites(d) {
        var i :| 0 <= i < |c| && c[i].inserted && c[i].address == s;
        assert d[i].inserted && d[i].address == s;
      }
    }
    assert forall i :: 0 <= i < |c| ==> (Live(d[i]) ==> Live(c[i])) && d[i].address == c[i].address;
    forall a | Here(d, a) ensures Here(c, a) {
      var i :| 0 <= i < |d| && On(d[i], a);
      assert On(c[i], a);
    }
  }

  lemma {:induction false} StatusMachine(cfg: Config, code: set<Addr>, prog: Memory, m: Machine, a: Addr, fp: int,
                                         conds: set<int>)
    requires MachineOk(cfg, code, prog, m)
    ensures var (c, status) := StopStatus(m.chain, a, fp, conds, 0, 0);
            && MemOk(cfg, code, prog, m.(chain := c))
            && (status == 0 || status == -1 ==> MachineOk(cfg, code, prog, m.(chain := c)))
  {
    StopStatusOk(m.chain, a, fp, conds, 0, 0);
    var (c, status) := StopStatus(m.chain, a, fp, conds, 0, 0);
    StatusConsistent(cfg.brk, prog, code, m.chain, c, m.mem, Extra(m));
  }

  /** A breakpoint or the step-resume breakpoint was met. */
  predicate Met(s: State, hit: bool) { hit || s.now.bp != 0 }

  predicate GoesOn(s: State) { s.now.bp == 0 || s.now.bp == -1 }

  /** Finding the cause of the stop changes only the pc, the signal and breakpoint statuses. */
  ghost predicate CauseOk(cfg: Config, code: set<Addr>, prog: Memory, c: Cause) {
    && MemOk(cfg, code, prog, c.s.m) && FlagsOk(c.s)
    && (!c.halt && GoesOn(c.s) ==> MachineOk(cfg, code, prog, c.s.m))
    && (!c.halt && Met(c.s, c.hit) ==> !Postponed(c.s.m) && !Starting(c.s))
    && (!c.halt && !c.random ==> c.s.now.signal == SIGTRAP)
    && (c.random ==> !Met(c.s, c.hit))
  }

  lemma {:induction false} LookForBreakFlags(cfg: Config, s: State, st: (Chain, int))
    requires FlagsOk(s) && s.now.bp == 0 && (s.now.signal == SIGTRAP || s.m.bpIn)
    ensures var (t, hit) := LookForBreak(cfg, s, st);
            && FlagsOk(t) && t.now.signal == s.now.signal && (Met(t, hit) ==> !Postponed(t.m) && !Starting(t))
  {
  }

  /** The status found goes with the chain as it then is. */
  ghost predicate StatusOk(cfg: Config, code: set<Addr>, prog: Memory, m: Machine, st: (Chain, int)) {
    && MemOk(cfg, code, prog, m.(chain := st.0))
    && (st.1 == 0 || st.1 == -1 ==> MachineOk(cfg, code, prog, m.(chain := st.0)))
  }

  lemma {:induction false} LookForBreakOk(cfg: Config, code: set<Addr>, prog: Memory, s: State, st: (Chain, int))
    requires MachineOk(cfg, code, prog, s.m) && StatusOk(cfg, code, prog, s.m, st) && s.now.bp == 0
    ensures var t := LookForBreak(cfg, s, st).0;
            MemOk(cfg, code, prog, t.m) && (GoesOn(t) ==> MachineOk(cfg, code, prog, t.m))
  {
    var t := LookForBreak(cfg, s, st).0;
    assert (t.m == s.m && t.now.bp == 0) || (t.m == s.m.(chain := st.0) && t.now.bp == st.1);
  }

  lemma {:induction false} ClassifyOk(cfg: Config, code: set<Addr>, prog: Memory, s: State, r: Report, st: (Chain, int))
    requires FlagsOk(s) && MachineOk(cfg, code, prog, s.m) && StatusOk(cfg, code, prog, s.m, st) && s.now.bp == 0
    ensures CauseOk(cfg, code, prog, Classify(cfg, s, r, st))
  {
    LookForBreakOk(cfg, code, prog, s, st);
    if s.now.signal == SIGTRAP || s.m.bpIn {
      LookForBreakFlags(cfg, s, st);
    }
  }

  lemma {:induction false} AtBreakFlags(s: State, r: Report, hit: bool)
    requires FlagsOk(s) && (Met(s, hit) ==> !Postponed(s.m) && !Starting(s))
    ensures var p := AtBreak(s, r, hit);
            && FlagsOk(p.s) && p.s == s.(m := p.s.m)
            && (p.another ==> !p.s.m.bpIn && !Postponed(p.s.m) && !Starting(p.s))
            && (Postponed(p.s.m) ==> Postponed(s.m))
  {
  }

  lemma {:induction false} AtBreakMachine(s: State, r: Report, hit: bool)
    ensures var p := AtBreak(s, r, hit);
            && (p.halt <==> !GoesOn(s))
            && (if !Met(s, hit) || p.halt then p.s.m == s.m
                else || p.s.m == RemoveStep(s.m).(resumeAddr := 0)
                     || p.s.m == RemoveStep(RemoveBreakpoints(s.m)).(bpIn := false))
  {
  }

  lemma {:induction false} AtBreakOk(cfg: Config, code: set<Addr>, prog: Memory, s: State, r: Report, hit: bool)
    requires MemOk(cfg, code, prog, s.m)
    requires GoesOn(s) ==> MachineOk(cfg, code, prog, s.m)
    requires Met(s, hit) ==> !Postponed(s.m)
    ensures var p := AtBreak(s, r, hit);
            MemOk(cfg, code, prog, p.s.m) && (!p.halt ==> MachineOk(cfg, code, prog, p.s.m))
  {
    AtBreakMachine(s, r, hit);
    if Met(s, hit) && GoesOn(s) {
      DropStepOk(cfg, code, prog, s.m);
      RemoveBothOk(cfg, code, prog, s.m);
    }
  }

  /** What holds of the flags when the turn decides how to restart. */
  predicate RestartFlags(s: State, another: bool) {
    && s.alive && !s.trap.attach
    && (Postponed(s.m) ==> !s.m.bpIn)
    && (another ==> !s.m.bpIn && !Starting(s))
    && StartingOk(s)
    && (s.now.signal != SIGTRAP ==> FlagsOk(s))
  }

  /** The same of the step range. */
  predicate RestartRange(s: State) {
    RangeOk(s) && (s.step.pull ==> s.step.end != 0 && (s.step.start != 0 || s.step.over >= 0 || s.m.resumeAddr == 0))
  }

  /** The breakpoints are pulled to step past one, but no step is going on any more. */
  predicate Unguarded(s: State, another: bool) {
    && (s.trap.expected == 0 || s.now.signal == SIGTRAP)
    && s.m.resumeAddr == 0 && s.step.pull && s.step.end == 0 && !another
  }

  /** What aiming the step-resume breakpoint does to the flags. */
  predicate Aimed(m: Machine, t: Machine, a: Addr) {
    t.resumeAddr == a && t.bpIn == m.bpIn && (Postponed(t) ==> !m.bpIn)
  }

  lemma {:induction false} SteppingFlags(cfg: Config, s: State, r: Report, another: bool)
    requires FlagsOk(s) && s.now.signal == SIGTRAP && s.prev.pc >= 0
    requires another ==> !s.m.bpIn && !Postponed(s.m) && !Starting(s)
    requires var p := StepPlan(s, r); p.RunTo? ==> Aimed(s.m, SetResume(cfg, s.m, p.a), p.a)
    ensures var p := Stepping(cfg, s, r, another);
            (!p.halt ==> RestartFlags(p.s, p.another)) && (p.halt ==> p.s == s)
  {
  }

  lemma {:induction false} SteppingRange(cfg: Config, s: State, r: Report, another: bool)
    requires RangeInv(s) && s.prev.pc >= 0
    requires var p := StepPlan(s, r); p.RunTo? ==> SetResume(cfg, s.m, p.a).resumeAddr == p.a
    ensures RestartRange(Stepping(cfg, s, r, another).s)
  {
  }

  lemma {:induction false} PlanTarget(code: set<Addr>, s: State, r: Report)
    requires TargetsOk(code, s, r)
    ensures var p := StepPlan(s, r);
            p.RunTo? ==> s.m.resumeAddr == 0 && (p.a == 0 || p.a in code)
  {
  }

  lemma {:induction false} PlanMachine(cfg: Config, s: State, r: Report, another: bool)
    ensures var p := StepPlan(s, r);
            Stepping(cfg, s, r, another).s.m == if p.RunTo? then SetResume(cfg, s.m, p.a) else s.m
  {
    match StepPlan(s, r)
    case RunOn =>
    case StopHere =>
    case RunTo(a, why) =>
  }

  lemma {:induction false} SteppingOk(cfg: Config, code: set<Addr>, prog: Memory, s: State, r: Report, another: bool)
    requires MachineOk(cfg, code, prog, s.m) && TargetsOk(code, s, r)
    ensures var p := StepPlan(s, r); p.RunTo? ==> Aimed(s.m, SetResume(cfg, s.m, p.a), p.a)
    ensures MachineOk(cfg, code, prog, Stepping(cfg, s, r, another).s.m)
  {
    PlanTarget(code, s, r);
    PlanMachine(cfg, s, r, another);
    var p := StepPlan(s, r);
    if p.RunTo? {
      SetResumeOk(cfg, code, prog, s.m, p.a);
    }
  }

  /** The resumption keeps the invariant; it is safe exactly if it is not unguarded. */
  lemma {:induction false} RestartOk(cfg: Config, code: set<Addr>, prog: Memory, s: State, another: bool)
    requires RestartFlags(s, another) && MachineOk(cfg, code, prog, s.m) && !Starting(s)
    ensures var n := Restart(cfg, s, another);
            n.o.Resume? && LoopInv(cfg, code, prog, n.s) && (SafeResume(n) <==> !Unguarded(s, another))
  {
    if s.m.resumeAddr == 0 && s.step.pull {
      RemoveBreakpointsOk(cfg, code, prog, s.m);
    } else if !s.m.bpIn && !another {
      InsertBothOk(cfg, code, prog, s.m);
    }
  }

  /** A step range that does not start at 0 is never lost while breakpoints are to be pulled. */
  lemma {:induction false} RestartRangeOk(cfg: Config, s: State, another: bool)
    requires RestartRange(s) && !Starting(s) && (s.now.signal != SIGTRAP ==> RangeInv(s))
    ensures !Unguarded(s, another) && RangeInv(Restart(cfg, s, another).s)
  {
  }

  // ---------------------------------------------------------------------------
  // The shell

  lemma {:induction false} QuietSettled(cfg: Config, code: set<Addr>, prog: Memory, m: Machine)
    requires Untouched(cfg, code, prog, m) && CodeOk(cfg.brk, prog, code) && m.resumeAddr == 0
    ensures MachineOk(cfg, code, prog, m)
  {
    var c := m.chain;
    assert Sites(c) + {} == {};
    assert Planted(cfg.brk, prog, m.mem, {});
    forall i, j | 0 <= i < j < |c| && Live(c[i]) && Live(c[j]) ensures c[i].address != c[j].address {
      assert !On(c[i], c[j].address);
    }
  }

  /** While the shell runs a turn only looks at the signal. */
  lemma {:induction false} ShellTurn(cfg: Config, s: State, r: Report)
    requires FlagsOk(s) && Starting(s)
    ensures var a, n := Arrive(s, r), OnReport(cfg, s, r);
            n == Next(a, Halt) || n == Restart(cfg, a.(prev := Prev(a.now.pc, r.sp, r.func, r.tramp)), false)
  {
  }

  /** A turn of the shell keeps the invariant; the last one puts the breakpoints into the program. */
  lemma {:induction false} ShellOk(cfg: Config, code: set<Addr>, prog: Memory, s: State, r: Report)
    requires LoopInv(cfg, code, prog, s) && Starting(s) && ReportOk(cfg, code, prog, s, r)
    ensures var n, p := OnReport(cfg, s, r), ImageAfter(prog, r);
            if n.o.Resume? then LoopInv(cfg, code, p, n.s) && SafeResume(n) && RangeInv(n.s)
            else n.s == Arrive(s, r) && Untouched(cfg, code, p, n.s.m)
  {
    ShellTurn(cfg, s, r);
    var n, p := OnReport(cfg, s, r), ImageAfter(prog, r);
    var a := Arrive(s, r);
    if LastTrap(s, r) {
      QuietSettled(cfg, code, p, a.m);
      InsertBothOk(cfg, code, p, a.m);
      assert InsertStep(cfg, a.m) == a.m;
    }
  }

  // ---------------------------------------------------------------------------
  // A turn, a run

  /** When the turn ends by giving control to the user. */
  ghost predicate StopInv(cfg: Config, code: set<Addr>, prog: Memory, was: State, s: State) {
    && s.alive
    && if Starting(s) then Untouched(cfg, code, prog, s.m) && s.m.resumeAddr == 0
       else MemOk(cfg, code, prog, s.m) && (Postponed(s.m) ==> Postponed(was.m))
  }

  /** What a turn leaves: the invariant, and a safe resume if the step range is a good one. */
  ghost predicate TurnOk(cfg: Config, code: set<Addr>, prog: Memory, was: State, ranged: bool, n: Next) {
    if n.o.Resume? then LoopInv(cfg, code, prog, n.s) && (ranged ==> RangeInv(n.s) && SafeResume(n))
    else StopInv(cfg, code, prog, was, n.s)
  }

  /** The phase before the restart. */
  function BeforeRestart(cfg: Config, s: State, r: Report, another: bool, random: bool): (p: Phase) {
    if random then Phase(s, another, false) else Stepping(cfg, s, r, another)
  }

  ghost predicate EndReady(cfg: Config, code: set<Addr>, prog: Memory, s: State, r: Report, another: bool,
                           random: bool) {
    && FlagsOk(s) && !Starting(s) && MachineOk(cfg, code, prog, s.m) && TargetsOk(code, s, r)
    && (!random ==> s.now.signal == SIGTRAP) && (another ==> !s.m.bpIn && !Postponed(s.m))
  }

  lemma {:induction false} BeforeRestartOk(cfg: Config, code: set<Addr>, prog: Memory, s: State, r: Report,
                                           another: bool, random: bool)
    requires EndReady(cfg, code, prog, s, r, another, random)
    ensures var p := BeforeRestart(cfg, s, r, another, random);
            && p.another == another && (p.halt ==> p.s == s)
            && (!p.halt ==> RestartFlags(p.s, another) && MachineOk(cfg, code, prog, p.s.m) && !Starting(p.s))
            && (RangeInv(s) ==> RestartRange(p.s) && (p.s.now.signal != SIGTRAP ==> RangeInv(p.s)))
  {
    if !random {
      SteppingOk(cfg, code, prog, s, r, another);
      SteppingFlags(cfg, s, r, another);
      if RangeInv(s) { SteppingRange(cfg, s, r, another); }
    }
  }

  lemma {:induction false} TurnEndOk(cfg: Config, code: set<Addr>, prog: Memory, s: State, r: Report, another: bool,
                                     random: bool)
    requires EndReady(cfg, code, prog, s, r, another, random)
    ensures var n := TurnEnd(cfg, s, r, another, random);
            if n.o.Resume? then LoopInv(cfg, code, prog, n.s) && (RangeInv(s) ==> RangeInv(n.s) && SafeResume(n))
            else n.s == s
  {
    BeforeRestartOk(cfg, code, prog, s, r, another, random);
    var p := BeforeRestart(cfg, s, r, another, random);
    if !p.halt {
      var func := if random then r.func else NextFunc(s, r);
      var t := p.s.(prev := Prev(p.s.now.pc, r.sp, func, r.tramp));
      assert t.m == p.s.m && RestartFlags(t, another);
      RestartOk(cfg, code, prog, t, another);
      if RangeInv(s) { RestartRangeOk(cfg, t, another); }
    }
  }

  /** Two states that agree on the step-resume breakpoint and on where the inferior was. */
  predicate SameRun(s: State, t: State) {
    && t.alive == s.alive && t.prev.pc == s.prev.pc && t.m.resumeAddr == s.m.resumeAddr
    && t.m.resumeDup == s.m.resumeDup && t.m.resumeFilled == s.m.resumeFilled
  }

  lemma {:induction false} ClassifyFrame(cfg: Config, s: State, r: Report, st: (Chain, int))
    ensures var t := Classify(cfg, s, r, st).s;
            SameRun(s, t) && t.step == s.step && t.trap == s.trap
  {
  }

  /** One turn keeps the loop invariant, or stops with memory accounted for; with a good step range it resumes
      safely. */
  lemma {:induction false} OnReportOk(cfg: Config, code: set<Addr>, prog: Memory, s: State, r: Report)
    requires LoopInv(cfg, code, prog, s) && ReportOk(cfg, code, prog, s, r)
    ensures TurnOk(cfg, code, ImageAfter(prog, r), s, RangeInv(s), OnReport(cfg, s, r))
  {
    if Starting(s) {
      ShellOk(cfg, code, prog, s, r);
    } else {
      ProgramTurnOk(cfg, code, prog, s, r);
    }
  }

  lemma {:induction false} ProgramTurnOk(cfg: Config, code: set<Addr>, prog: Memory, s: State, r: Report)
    requires LoopInv(cfg, code, prog, s) && ReportOk(cfg, code, prog, s, r) && !Starting(s)
    ensures TurnOk(cfg, code, ImageAfter(prog, r), s, RangeInv(s), OnReport(cfg, s, r))
  {
    var p := ImageAfter(prog, r);
    var a := Arrive(s, r);
    ArriveMachine(cfg, code, prog, s.m, r);
    StatusMachine(cfg, code, p, a.m, a.now.pc - cfg.decr, r.fp, r.conds);
    var st := StopStatus(a.m.chain, a.now.pc - cfg.decr, r.fp, r.conds, 0, 0);
    ClassifyOk(cfg, code, p, a, r, st);
    ClassifyFrame(cfg, a, r, st);
    var c := Classify(cfg, a, r, st);
    HandleOk(cfg, code, p, s, c, r);
    TurnIs(cfg, s, r, c);
  }

  lemma TurnIs(cfg: Config, s: State, r: Report, c: Cause)
    requires var a := Arrive(s, r);
             c == Classify(cfg, a, r, StopStatus(a.m.chain, a.now.pc - cfg.decr, r.fp, r.conds, 0, 0))
    ensures OnReport(cfg, s, r) == Handle(cfg, c, r)
  {
  }

  lemma {:induction false} HandleOk(cfg: Config, code: set<Addr>, p: Memory, s: State, c: Cause, r: Report)
    requires CauseOk(cfg, code, p, c) && TargetsOk(code, c.s, r) && (Postponed(c.s.m) ==> Postponed(s.m))
    requires !Starting(c.s) && c.s.step == s.step
    ensures TurnOk(cfg, code, p, s, RangeInv(s), Handle(cfg, c, r))
  {
    if !c.halt && !(c.random && StopsFor(cfg, c.s)) {
      var b := if c.random then Phase(c.s, false, false) else AtBreak(c.s, r, c.hit);
      if !c.random {
        AtBreakFlags(c.s, r, c.hit);
        AtBreakOk(cfg, code, p, c.s, r, c.hit);
      }
      if !b.halt && !InDummy(r, b.s.now.pc) {
        TurnEndOk(cfg, code, p, b.s, r, b.another, c.random);
      }
    }
  }
}
