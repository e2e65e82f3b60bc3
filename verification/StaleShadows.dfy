/** Exactly which commands can end with the debugger writing a shadow back that it never read.

    A breakpoint is passed without stopping, so that breakpoints are out for the next step, and just then stepping aims
    its own breakpoint. If the inferior stops on that very step, the shadow is not what the program has there. */
module StaleShadows {
  import opened Common
  import opened Breakpoints
  import opened RunControl
  import opened RunSafety
  import opened RunSessions
  import opened StepRanges
  import opened CoveredRuns

  // ---------------------------------------------------------------------------
  // Breakpoints that need not stop

  predicate MayPass(b: Breakpoint) { b.conditional || b.frame != 0 || b.ignoreCount > 0 }

  /** There is a breakpoint at `a`, and none that stops in any case. */
  predicate Skips(c: Chain, a: Addr) {
    Here(c, a) && forall i :: 0 <= i < |c| && On(c[i], a) ==> MayPass(c[i])
  }

  /** At `a` the inferior may be stepped on without breakpoints. Address 0 is taken for that of a step-resume breakpoint
      that is not set, and its frame then matters. */
  predicate Passes(c: Chain, frame: int, a: Addr) { if a == 0 then frame != 0 else Skips(c, a) }

  /** A function at `a` that is stepped into, to the end of its prologue, where no breakpoint is. */
  predicate StepsIn(cfg: Config, c: Chain, over: int, a: Addr) {
    over < 0 && cfg.syms(a).symbol && EndOf(cfg, a) != a && EndOf(cfg, a) != 0 && !Here(c, EndOf(cfg, a))
  }

  /** At `a` stepping aims its own breakpoint: at the start of a function that is stepped over, or into, and at the
      trampoline if the pc stays at a breakpoint that was hit. Otherwise a breakpoint is only met by the instruction
      after the stop at its address, and at the trampoline that address is what is aimed at. */
  predicate Catches(cfg: Config, c: Chain, over: int, a: Addr) {
    var p := cfg.syms(a + cfg.decr);
    || (cfg.decr == 0 && p.tramp)
    || (p.func == a && (over > 0 || (over < 0 && !cfg.syms(a).symbol) || StepsIn(cfg, c, over, a)))
  }

  /** The inner addresses of the range are stepped through. */
  predicate Awkward(cfg: Config, c: Chain, g: Go, a: Addr) {
    Passes(c, g.frame, a) && Catches(cfg, c, g.over, a) && !(g.start < a < g.end)
  }

  /** `b` is neither in the trampoline nor the start of a function. */
  predicate Inside(cfg: Config, b: Addr) {
    var p := cfg.syms(b + cfg.decr);
    !p.tramp && p.func != b
  }

  /** The end of the prologue of each function is inside of it. */
  ghost predicate ProloguesInside(cfg: Config) {
    forall pc :: var f := cfg.syms(pc).func; EndOf(cfg, f) != f ==> EndOf(cfg, f) != 0 && Inside(cfg, EndOf(cfg, f))
  }

  /** A prologue is being skipped; then the range is empty. */
  predicate Skipping(cfg: Config, s: State, g: Go) {
    && g.over < 0 && s.step.start == s.step.end == g.start && s.step.frame == 0
    && s.m.resumeAddr != 0 && Inside(cfg, s.m.resumeAddr)
  }

  /** What has become of the command: its range is that of the beginning, or one of stepi, or its last prologue is being
      skipped. */
  predicate Kept(cfg: Config, s: State, g: Go) {
    && s.step.over == g.over && (s.step.frame == g.frame || s.step.frame == 0)
    && ((s.step.start == g.start && s.step.end == g.end) || g.end == 1 || Skipping(cfg, s, g))
  }

  /** Nothing of the kind can happen. */
  ghost predicate Steady(cfg: Config, s: State, g: Go) {
    s.step.end == 0 || (Kept(cfg, s, g) && forall a :: !Awkward(cfg, s.m.chain, g, a))
  }

  /** Two chains alike, but that breakpoints may be in memory and be ignored less often. */
  predicate Fewer(c: Chain, d: Chain) {
    |c| == |d| && forall i :: 0 <= i < |c| ==>
      && c[i].address == d[i].address && (c[i].enable != Disabled <==> d[i].enable != Disabled)
      && c[i].conditional == d[i].conditional && c[i].frame == d[i].frame && d[i].ignoreCount <= c[i].ignoreCount
  }

  lemma {:induction false} FewerSkips(c: Chain, d: Chain, a: Addr)
    requires Fewer(c, d) && Skips(d, a)
    ensures Skips(c, a)
  {
    var k :| 0 <= k < |d| && On(d[k], a);
    assert On(c[k], a);
    forall i | 0 <= i < |c| && On(c[i], a) ensures MayPass(c[i]) { assert On(d[i], a); }
  }

  lemma {:induction false} FewerHere(c: Chain, d: Chain, a: Addr)
    requires Fewer(c, d)
    ensures Here(c, a) <==> Here(d, a)
  {
    assert forall i :: 0 <= i < |d| ==> On(d[i], a) == On(c[i], a);
  }

  lemma {:induction false} FewerAwkward(cfg: Config, c: Chain, d: Chain, g: Go, a: Addr)
    requires Fewer(c, d) && Awkward(cfg, d, g, a)
    ensures Awkward(cfg, c, g, a)
  {
    FewerHere(c, d, EndOf(cfg, a));
    if a != 0 { FewerSkips(c, d, a); }
  }

  lemma {:induction false} FewerSteady(cfg: Config, s: State, t: State, g: Go)
    requires Steady(cfg, s, g) && Fewer(s.m.chain, t.m.chain) && (s.step.end == 0 ==> t.step.end == 0)
    requires t.step.end == 0 || Kept(cfg, t, g)
    ensures Steady(cfg, t, g)
  {
    if t.step.end != 0 {
      forall a ensures !Awkward(cfg, t.m.chain, g, a) {
        if Awkward(cfg, t.m.chain, g, a) { FewerAwkward(cfg, s.m.chain, t.m.chain, g, a); }
      }
    }
  }

  /** Only where breakpoints need not stop does breakpoint_stop_status say to go on. */
  lemma {:induction false} StatusPasses(c: Chain, a: Addr, fp: int, conds: set<int>, i: nat, cont: int)
    requires i <= |c| && Hit(c, a, fp, conds, i) == None
    ensures var (d, status) := StopStatus(c, a, fp, conds, i, cont);
            && Fewer(c, d) && (forall k :: i <= k < |c| && On(c[k], a) ==> MayPass(c[k]))
            && status == if exists k :: i <= k < |c| && On(c[k], a) then -1 else cont
    decreases |c| - i
  {
    if i < |c| {
      var b := c[i];
      var ignored := On(b, a) && !(b.frame != 0 && b.frame != fp) && !(b.conditional && i !in conds);
      var d := if ignored then c[i := b.(ignoreCount := b.ignoreCount - 1)] else c;
      HitSame(c, d, a, fp, conds, i + 1);
      StatusPasses(d, a, fp, conds, i + 1, if On(b, a) then -1 else cont);
      assert forall k :: i < k < |c| ==> d[k] == c[k];
    }
  }

  lemma {:induction false} StatusSkips(c: Chain, a: Addr, fp: int, conds: set<int>)
    requires Numbered(c)
    ensures var (d, status) := StopStatus(c, a, fp, conds, 0, 0);
            (status == 0 || status == -1 ==> Fewer(c, d)) && (status == -1 ==> Skips(c, a))
  {
    var h := Hit(c, a, fp, conds, 0);
    StatusIs(c, a, fp, conds, 0, 0);
    if h == None {
      StatusPasses(c, a, fp, conds, 0, 0);
      if StopStatus(c, a, fp, conds, 0, 0).1 == -1 {
        var k :| 0 <= k < |c| && On(c[k], a);
      }
    } else {
      assert c[h.value].number != 0 && c[h.value].number != -1;
    }
  }

  // ---------------------------------------------------------------------------
  // Without such a place no shadow is left unread

  /** What aims the step-resume breakpoint, where there is none yet. */
  lemma {:induction false} PlanCatches(cfg: Config, s: State, r: Report)
    requires Placed(cfg, r) && s.now.pc == r.pc - cfg.decr && (cfg.decr != 0 ==> s.prev.pc == s.now.pc)
    requires var p := StepPlan(s, r); p.RunTo? && p.a != 0 && !Here(s.m.chain, p.a)
    ensures Catches(cfg, s.m.chain, s.step.over, s.now.pc)
            || (cfg.decr != 0 && !Here(s.m.chain, s.now.pc) && s.now.pc != 0)
    ensures s.step.end != 0 && s.m.resumeAddr == 0 && !(s.step.start < s.now.pc < s.step.end)
  {
  }

  /** The inferior is resumed with the shadow read, unless it was aimed while breakpoints are to stay out. */
  lemma {:induction false} RestartSettled(cfg: Config, code: set<Addr>, prog: Memory, s: State, another: bool)
    requires RestartFlags(s, another) && MachineOk(cfg, code, prog, s.m) && !Starting(s)
    requires Postponed(s.m) ==> !another && s.now.signal == SIGTRAP
    ensures !Postponed(Restart(cfg, s, another).s.m)
  {
    if !s.m.bpIn && !another { InsertBothOk(cfg, code, prog, s.m); }
  }

  lemma {:induction false} TurnEndSettled(cfg: Config, code: set<Addr>, prog: Memory, s: State, r: Report,
                                          another: bool, random: bool)
    requires EndReady(cfg, code, prog, s, r, another, random) && !Postponed(s.m)
    requires another ==> !random && var p := StepPlan(s, r); p.RunTo? ==> p.a == 0 || Here(s.m.chain, p.a)
    ensures var n := TurnEnd(cfg, s, r, another, random); n.o.Resume? ==> !Postponed(n.s.m)
  {
    BeforeRestartOk(cfg, code, prog, s, r, another, random);
    PlanMachine(cfg, s, r, another);
    var p := BeforeRestart(cfg, s, r, another, random);
    if !p.halt {
      var func := if random then r.func else NextFunc(s, r);
      var t := p.s.(prev := Prev(p.s.now.pc, r.sp, func, r.tramp));
      RestartSettled(cfg, code, prog, t, another);
    }
  }

  /** The prologue has just been skipped. */
  predicate Skipped(cfg: Config, s: State, r: Report, g: Go) {
    && s.step.start == s.step.end == g.start && s.m.resumeAddr == 0
    && s.now.pc == r.pc - cfg.decr && Inside(cfg, s.now.pc)
  }

  lemma {:induction false} RestartCommand(cfg: Config, s: State, another: bool)
    requires !Starting(s)
    ensures var t := Restart(cfg, s, another).s;
            !Starting(t) && t.step == s.step.(pull := t.step.pull) && t.m.resumeAddr == s.m.resumeAddr
  {
  }

  lemma {:induction false} SteppingKept(cfg: Config, s: State, r: Report, another: bool, g: Go)
    requires Placed(cfg, r) && (g.over < 0 ==> ProloguesInside(cfg)) && s.step.end != 0
    requires Kept(cfg, s, g) || Skipped(cfg, s, r, g)
    ensures var p := Stepping(cfg, s, r, another); p.halt || p.s.step.end == 0 || Kept(cfg, p.s, g)
  {
    PlanMachine(cfg, s, r, another);
    var p := StepPlan(s, r);
    if p.RunTo? && p.why == PrologueSkipped {
      assert EndOf(cfg, cfg.syms(r.pc).func) == AfterPrologue(r);
      assert SetResume(cfg, s.m, p.a).resumeAddr == p.a;
    }
  }

  lemma {:induction false} TurnEndCommand(cfg: Config, s: State, r: Report, another: bool, random: bool, g: Go)
    requires !Starting(s) && Placed(cfg, r) && (g.over < 0 ==> ProloguesInside(cfg))
    requires s.step.end == 0 || Kept(cfg, s, g) || (!random && Skipped(cfg, s, r, g))
    ensures var n := TurnEnd(cfg, s, r, another, random);
            n.o.Resume? ==> !Starting(n.s) && (s.step.end == 0 ==> n.s.step.end == 0)
                            && (n.s.step.end == 0 || Kept(cfg, n.s, g))
  {
    if !random && s.step.end != 0 { SteppingKept(cfg, s, r, another, g); }
    var p := BeforeRestart(cfg, s, r, another, random);
    if !p.halt {
      var func := if random then r.func else NextFunc(s, r);
      RestartCommand(cfg, p.s.(prev := Prev(p.s.now.pc, r.sp, func, r.tramp)), p.another);
    }
  }

  lemma {:induction false} HandleCommand(cfg: Config, s: State, c: Cause, r: Report, g: Go)
    requires !Starting(c.s) && Placed(cfg, r) && (g.over < 0 ==> ProloguesInside(cfg)) && CausePasses(cfg, s, r, c)
    requires s.step.end == 0 || Kept(cfg, s, g)
    ensures var n := Handle(cfg, c, r);
            n.o.Resume? ==> !Starting(n.s) && (s.step.end == 0 ==> n.s.step.end == 0)
                            && (n.s.step.end == 0 || Kept(cfg, n.s, g))
  {
    if !c.halt && !(c.random && StopsFor(cfg, c.s)) {
      var b := if c.random then Phase(c.s, false, false) else AtBreak(c.s, r, c.hit);
      assert b.s.step == s.step && b.s.trap == c.s.trap;
      assert b.s.m.resumeAddr == s.m.resumeAddr || (c.hit && b.s.m.resumeAddr == 0 && b.s.now.pc == s.m.resumeAddr);
      if !b.halt && !InDummy(r, b.s.now.pc) { TurnEndCommand(cfg, b.s, r, b.another, c.random, g); }
    }
  }

  /** What is known of the cause of a stop that does not end the run. */
  predicate CausePasses(cfg: Config, s: State, r: Report, c: Cause) {
    && (GoesOn(c.s) ==> Fewer(s.m.chain, c.s.m.chain)) && c.s.step == s.step && c.s.m.resumeAddr == s.m.resumeAddr
    && c.s.prev == s.prev && (c.random ==> !c.hit)
    && (cfg.decr != 0 && s.step.end != 0 && s.m.resumeAddr == 0 && Met(c.s, c.hit) ==> s.prev.pc == r.pc - cfg.decr)
    && (c.s.now.bp == -1 ==> c.s.now.pc == r.pc - cfg.decr != s.m.resumeAddr && Skips(s.m.chain, c.s.now.pc))
    && (c.hit ==> c.s.now.pc == r.pc - cfg.decr == s.m.resumeAddr)
  }

  /** The cause of the stop that `r` reports. */
  function CauseOf(cfg: Config, s: State, r: Report): (c: Cause) {
    var a := Arrive(s, r);
    Classify(cfg, a, r, StopStatus(a.m.chain, a.now.pc - cfg.decr, r.fp, r.conds, 0, 0))
  }

  lemma {:induction false} CauseFrame(cfg: Config, s: State, r: Report)
    ensures var c := CauseOf(cfg, s, r);
            && c.s.step == s.step && c.s.m.resumeAddr == s.m.resumeAddr && c.s.prev == s.prev && (c.random ==> !c.hit)
            && (cfg.decr != 0 && s.step.end != 0 && s.m.resumeAddr == 0 && Met(c.s, c.hit)
                ==> s.prev.pc == r.pc - cfg.decr)
  {
  }

  lemma {:induction false} CausePassesOk(cfg: Config, s: State, r: Report)
    requires Numbered(s.m.chain)
    ensures CausePasses(cfg, s, r, CauseOf(cfg, s, r))
  {
    CauseFrame(cfg, s, r);
    CauseChains(cfg, s, r);
  }

  lemma {:induction false} CauseChains(cfg: Config, s: State, r: Report)
    requires Numbered(s.m.chain)
    ensures var c := CauseOf(cfg, s, r);
            && (GoesOn(c.s) ==> Fewer(s.m.chain, c.s.m.chain))
            && (c.s.now.bp == -1 ==> c.s.now.pc == r.pc - cfg.decr != s.m.resumeAddr && Skips(s.m.chain, c.s.now.pc))
            && (c.hit ==> c.s.now.pc == r.pc - cfg.decr == s.m.resumeAddr)
  {
    StatusSkips(s.m.chain, r.pc - cfg.decr, r.fp, r.conds);
    CauseChain(cfg, s, r);
  }

  /** What the invariant says of it. */
  lemma {:induction false} CauseOfOk(cfg: Config, code: set<Addr>, prog: Memory, s: State, r: Report)
    requires LoopInv(cfg, code, prog, s) && ReportOk(cfg, code, prog, s, r) && !Starting(s)
    ensures var c := CauseOf(cfg, s, r);
            && CauseOk(cfg, code, ImageAfter(prog, r), c) && TargetsOk(code, c.s, r) && !Starting(c.s)
            && (Postponed(c.s.m) ==> Postponed(s.m))
  {
    var p, a := ImageAfter(prog, r), Arrive(s, r);
    ArriveMachine(cfg, code, prog, s.m, r);
    StatusMachine(cfg, code, p, a.m, a.now.pc - cfg.decr, r.fp, r.conds);
    var st := StopStatus(a.m.chain, a.now.pc - cfg.decr, r.fp, r.conds, 0, 0);
    ClassifyOk(cfg, code, p, a, r, st);
    ClassifyFrame(cfg, a, r, st);
  }

  /** When breakpoints are to stay out, stepping does not aim, or at a breakpoint. */
  lemma {:induction false} NotAimed(cfg: Config, s: State, r: Report, c: Cause, g: Go)
    requires Steady(cfg, s, g) && g.start >= 0 && Placed(cfg, r) && CausePasses(cfg, s, r, c) && !c.random
    requires AtBreak(c.s, r, c.hit).another
    ensures var b := AtBreak(c.s, r, c.hit).s;
            var p := StepPlan(b, r); p.RunTo? ==> p.a == 0 || Here(b.m.chain, p.a)
  {
    var b := AtBreak(c.s, r, c.hit).s;
    var p := StepPlan(b, r);
    RemoveSame(c.s.m.chain, c.s.m.mem, 0);
    assert Fewer(s.m.chain, b.m.chain);
    if p.RunTo? && p.a != 0 && !Here(b.m.chain, p.a) {
      PlanCatches(cfg, b, r);
      FewerHere(s.m.chain, b.m.chain, EndOf(cfg, b.now.pc));
      FewerHere(s.m.chain, b.m.chain, b.now.pc);
      assert Awkward(cfg, s.m.chain, g, b.now.pc);
    }
  }

  lemma {:induction false} HandleSettled(cfg: Config, code: set<Addr>, p: Memory, s: State, c: Cause, r: Report, g: Go)
    requires CauseOk(cfg, code, p, c) && TargetsOk(code, c.s, r) && !Postponed(c.s.m) && !Starting(c.s)
    requires Steady(cfg, s, g) && g.start >= 0 && Placed(cfg, r) && CausePasses(cfg, s, r, c)
    ensures var n := Handle(cfg, c, r); n.o.Resume? ==> !Postponed(n.s.m) && GoesOn(c.s)
  {
    if !c.halt && !(c.random && StopsFor(cfg, c.s)) {
      var b := if c.random then Phase(c.s, false, false) else AtBreak(c.s, r, c.hit);
      if !c.random {
        AtBreakFlags(c.s, r, c.hit);
        AtBreakOk(cfg, code, p, c.s, r, c.hit);
        if b.another { NotAimed(cfg, s, r, c, g); }
      }
      if !b.halt && !InDummy(r, b.s.now.pc) {
        TurnEndSettled(cfg, code, p, b.s, r, b.another, c.random);
      }
    }
  }

  /** A turn at no awkward place leaves no shadow unread. */
  lemma {:induction false} TurnSettled(cfg: Config, code: set<Addr>, prog: Memory, s: State, r: Report, g: Go)
    requires LoopInv(cfg, code, prog, s) && ReportOk(cfg, code, prog, s, r) && !Starting(s) && !Postponed(s.m)
    requires Steady(cfg, s, g) && g.start >= 0 && (g.over < 0 ==> ProloguesInside(cfg))
    ensures var n := OnReport(cfg, s, r);
            n.o.Resume? ==> !Postponed(n.s.m) && Steady(cfg, n.s, g) && !Starting(n.s)
  {
    var c := CauseOf(cfg, s, r);
    CauseOfOk(cfg, code, prog, s, r);
    CausePassesOk(cfg, s, r);
    TurnIs(cfg, s, r, c);
    HandleSettled(cfg, code, ImageAfter(prog, r), s, c, r, g);
    HandleSame(cfg, c, r);
    HandleCommand(cfg, s, c, r, g);
    var n := OnReport(cfg, s, r);
    if n.o.Resume? { FewerSteady(cfg, s, n.s, g); }
  }

  /** In the state in which the inferior was last resumed the shadow was read. */
  lemma {:induction false} RunSettled(cfg: Config, code: set<Addr>, prog: Memory, s: State, es: seq<Stop>, g: Go)
    requires LoopInv(cfg, code, prog, s) && WellBehaved(cfg, code, prog, s, es) && !Starting(s) && !Postponed(s.m)
    requires Steady(cfg, s, g) && g.start >= 0 && (g.over < 0 ==> ProloguesInside(cfg))
    ensures !Postponed(LastResumed(s, Wait(cfg, s, es)).m)
    decreases |es|
  {
    if es != [] && es[0].Stopped? {
      var n := OnStop(cfg, s, es[0]);
      if n.o.Resume? {
        OnReportOk(cfg, code, prog, s, es[0].report);
        TurnSettled(cfg, code, prog, s, es[0].report, g);
        RunSettled(cfg, code, ProgAfter(prog, es[0]), n.s, es[1..], g);
        var t := Wait(cfg, n.s, es[1..]);
        assert Wait(cfg, s, es).resumes == [n] + t.resumes;
        assert LastResumed(s, Wait(cfg, s, es)) == LastResumed(n.s, t);
      }
    }
  }

  /** A well-behaved run that ends stopped with a stale shadow. */
  ghost predicate StaleRun(cfg: Config, code: set<Addr>, prog: Memory, p: State, es: seq<Stop>) {
    var t := Wait(cfg, p, es);
    WellBehaved(cfg, code, prog, p, es) && t.halted && t.last.alive && Stale(cfg, ProgAtEnd(cfg, prog, p, es), t.last.m)
  }

  /** A command that begins where the symbol tables and the range are as they should be. */
  ghost predicate Begins(cfg: Config, code: set<Addr>, s: State, g: Go) {
    && Quiet(cfg, code, s) && s.alive && !Starting(s) && GoOk(code, g) && g.start >= 0
    && (g.over < 0 ==> ProloguesInside(cfg))
  }

  /** A command without a range, or without an awkward place, never ends stale. */
  lemma {:induction false} NeverStale(cfg: Config, code: set<Addr>, s: State, g: Go, es: seq<Stop>)
    requires Begins(cfg, code, s, g)
    requires g.end == 0 || forall a :: !Awkward(cfg, Proceed(cfg, s, g).s.m.chain, g, a)
    ensures !StaleRun(cfg, code, s.m.mem, Proceed(cfg, s, g).s, es)
  {
    var p := Proceed(cfg, s, g).s;
    ProceedOk(cfg, code, s, g);
    PrepareQuiet(code, s, g);
    assert p.m.resumeAddr == 0;
    if WellBehaved(cfg, code, s.m.mem, p, es) {
      RunSafe(cfg, code, s.m.mem, p, es);
      RunSettled(cfg, code, s.m.mem, p, es, g);
    }
  }

  // ---------------------------------------------------------------------------
  // At such a place a run can end stale

  /** The shadow is not what is at `b`. */
  ghost predicate Differs(cfg: Config, mem: Memory, shadow: seq<Byte>, b: Addr) {
    Mapped(mem, b, |cfg.brk|) && shadow != Bytes(mem, b, |cfg.brk|)
  }

  /** There is an instruction to aim at; the shadow does not agree with what is there, or at the end of a prologue; a
      signal is passed on silently, and another stops the inferior. */
  ghost predicate StaleRoom(cfg: Config, code: set<Addr>, mem: Memory, shadow: seq<Byte>, c: Chain, g: Go, x: Addr,
                            sig: int, quit: int) {
    && x in code && !cfg.syms(x).tramp && !Here(c, x) && Differs(cfg, mem, shadow, x)
    && Silent(cfg, sig) && quit in cfg.stops && quit != SIGTRAP
    && EndsKnown(cfg, code) && StartsKnown(cfg, mem, shadow, c, g)
  }

  ghost predicate EndsKnown(cfg: Config, code: set<Addr>) {
    (forall a :: EndKnown(cfg, code, a)) && forall a :: a in code ==> a > 0
  }

  /** The start of a function is in that function. */
  ghost predicate StartsKnown(cfg: Config, mem: Memory, shadow: seq<Byte>, c: Chain, g: Go) {
    forall a :: cfg.syms(a + cfg.decr).func == a ==> StartKnown(cfg, mem, shadow, c, g, a)
  }

  ghost predicate StartKnown(cfg: Config, mem: Memory, shadow: seq<Byte>, c: Chain, g: Go, a: Addr) {
    && cfg.syms(a).tramp == cfg.syms(a + cfg.decr).tramp
    && (StepsIn(cfg, c, g.over, a) ==> Differs(cfg, mem, shadow, EndOf(cfg, a)))
  }

  /** Less than every frame. */
  function Below(c: Chain, frame: int): (r: int)
    ensures r < 0 && r < frame && forall i :: 0 <= i < |c| ==> r < c[i].frame
  {
    if c == [] then (if frame < 0 then frame else 0) - 1
    else
      var r := Below(c[1..], frame);
      assert forall i :: 0 < i < |c| ==> c[i] == c[1..][i - 1];
      if r < c[0].frame then r else c[0].frame - 1
  }

  /** Where the signal is passed on: at `x`, or at the place itself if only what is stopped at can be met. */
  function From(cfg: Config, x: Addr, a: Addr): (y: Addr) { if cfg.decr == 0 then x else a }

  /** What is aimed at. */
  function Target(cfg: Config, over: int, x: Addr, a: Addr): (w: Addr) {
    if (cfg.decr == 0 && cfg.syms(a).tramp) || over > 0 || !cfg.syms(a).symbol then x else EndOf(cfg, a)
  }

  /** The awkward place is met. */
  function Meeting(cfg: Config, x: Addr, a: Addr, fp: int): (r: Report) { At(cfg, SIGTRAP, a + cfg.decr, 1, fp, x) }

  /** Stepping from `y`, with breakpoints in. */
  ghost predicate Underway(cfg: Config, code: set<Addr>, prog: Memory, s: State, g: Go, y: Addr) {
    && LoopInv(cfg, code, prog, s) && !Starting(s) && s.trap.expected == 0 && !s.trap.stopAfter && s.m.bpIn
    && s.m.resumeAddr == 0 && s.step == Step(g.start, g.end, g.frame, g.over, false)
    && s.prev == Prev(y, 0, s.prev.func, cfg.syms(y).tramp)
  }

  lemma {:induction false} SkipStatus(c: Chain, a: Addr, fp: int)
    requires Skips(c, a) && forall i :: 0 <= i < |c| ==> c[i].frame != fp
    ensures var (d, status) := StopStatus(c, a, fp, {}, 0, 0); status == -1 && Fewer(c, d)
  {
    NoHit(c, a, fp, 0);
    StatusPasses(c, a, fp, {}, 0, 0);
  }

  lemma {:induction false} NoHit(c: Chain, a: Addr, fp: int, i: nat)
    requires Skips(c, a) && i <= |c| && forall i :: 0 <= i < |c| ==> c[i].frame != fp
    ensures Hit(c, a, fp, {}, i) == None
    decreases |c| - i
  {
    if i < |c| { NoHit(c, a, fp, i + 1); }
  }

  /** The place is passed: breakpoints are taken out, for one step. */
  lemma {:induction false} PassCause(cfg: Config, s: State, r: Report, a: Addr, fp: int)
    requires s.trap.expected == 0 && !s.trap.stopAfter && !s.trap.attach && s.m.resumeAddr == 0
    requires cfg.decr != 0 ==> s.prev.pc == a
    requires fp < s.step.frame && forall i :: 0 <= i < |s.m.chain| ==> s.m.chain[i].frame != fp
    requires r == At(cfg, SIGTRAP, a + cfg.decr, 1, fp, r.returnTo) && Passes(s.m.chain, s.step.frame, a)
    ensures var t, c := Arrive(s, r), CauseOf(cfg, s, r);
            && !c.random && !c.halt && c.s == t.(m := t.m.(chain := c.s.m.chain), now := c.s.now) && c.s.now.pc == a
            && c.s.now.signal == SIGTRAP && Fewer(s.m.chain, c.s.m.chain) && GoesOn(c.s) && Met(c.s, c.hit)
            && AtBreak(c.s, r, c.hit) == Phase(c.s.(m := RemoveBreakpoints(c.s.m).(bpIn := false)), true, false)
  {
    if a != 0 { SkipStatus(s.m.chain, a, fp); }
  }

  /** And just then stepping aims. */
  lemma {:induction false} PassPlan(cfg: Config, s: State, c: Chain, r: Report, g: Go, x: Addr, a: Addr, fp: int)
    requires s.now.pc == a && s.m.resumeAddr == 0 && s.step == Step(g.start, g.end, g.frame, g.over, false)
             && g.end != 0
    requires s.prev == Prev(From(cfg, x, a), 0, s.prev.func, cfg.syms(From(cfg, x, a)).tramp) && !cfg.syms(x).tramp
    requires r == At(cfg, SIGTRAP, a + cfg.decr, 1, fp, x) && fp < 0 && fp != g.frame
    requires !(g.start < a < g.end) && Catches(cfg, c, g.over, a)
    requires cfg.syms(a + cfg.decr).func == a ==> cfg.syms(a).tramp == cfg.syms(a + cfg.decr).tramp
    ensures var p := StepPlan(s, r); p.RunTo? && p.a == Target(cfg, g.over, x, a)
  {
    assert AfterPrologue(r) == EndOf(cfg, r.func);
  }

  /** The shadow stays unread. */
  lemma {:induction false} AimedOut(cfg: Config, s: State, r: Report, w: Addr)
    requires !Starting(s) && s.trap.expected == 0 && !s.m.bpIn && s.now.signal == SIGTRAP && w != 0
    requires !Here(s.m.chain, w) && StepPlan(s, r).RunTo? && StepPlan(s, r).a == w
    ensures var n := TurnEnd(cfg, s, r, true, false);
            && n.o.Resume? && n.s.m == s.m.(resumeAddr := w, resumeDup := false, resumeFilled := false)
            && n.s.alive == s.alive && !n.s.trap.inShell && n.s.trap.attach == s.trap.attach && n.s.prev.pc == s.now.pc
            && !Starting(n.s)
  {
    PlanMachine(cfg, s, r, true);
    assert SetResume(cfg, s.m, w) == s.m.(resumeAddr := w, resumeDup := false, resumeFilled := false);
  }

  /** The state of the run and the place in it. */
  ghost predicate AtPlace(cfg: Config, code: set<Addr>, prog: Memory, s: State, g: Go, x: Addr, a: Addr, fp: int) {
    && Underway(cfg, code, prog, s, g, From(cfg, x, a)) && !cfg.syms(x).tramp && x != 0 && !Here(s.m.chain, x)
    && g.end != 0 && Awkward(cfg, s.m.chain, g, a)
    && (cfg.syms(a + cfg.decr).func == a ==> cfg.syms(a).tramp == cfg.syms(a + cfg.decr).tramp)
    && fp < 0 && fp < g.frame && forall i :: 0 <= i < |s.m.chain| ==> s.m.chain[i].frame != fp
  }

  lemma {:induction false} PassTurn(cfg: Config, code: set<Addr>, prog: Memory, s: State, g: Go, x: Addr, a: Addr,
                                    fp: int)
    requires AtPlace(cfg, code, prog, s, g, x, a, fp)
    ensures var n := OnReport(cfg, s, Meeting(cfg, x, a, fp));
            && n.o.Resume? && Postponed(n.s.m) && n.s.m.resumeAddr == Target(cfg, g.over, x, a)
            && n.s.m.resumeShadow == s.m.resumeShadow
            && n.s.alive && !n.s.trap.inShell && !n.s.trap.attach && !n.s.m.bpIn && n.s.prev.pc == a && !Starting(n.s)
  {
    var r := Meeting(cfg, x, a, fp);
    var c := CauseOf(cfg, s, r);
    PassCause(cfg, s, r, a, fp);
    TurnIs(cfg, s, r, c);
    var b := AtBreak(c.s, r, c.hit).s;
    RemoveSame(c.s.m.chain, c.s.m.mem, 0);
    var w := Target(cfg, g.over, x, a);
    FewerHere(s.m.chain, c.s.m.chain, w);
    SameHere(c.s.m.chain, b.m.chain, w);
    PassPlan(cfg, b, s.m.chain, r, g, x, a, fp);
    AimedOut(cfg, b, r, w);
    assert Handle(cfg, c, r) == TurnEnd(cfg, b, r, true, false);
  }

  lemma {:induction false} QuitTurn(cfg: Config, s: State, x: Addr, quit: int)
    requires !s.m.bpIn && !s.trap.attach && !s.trap.inShell && quit in cfg.stops && quit != SIGTRAP
    ensures var r := At(cfg, quit, x, 0, 0, 0); OnReport(cfg, s, r) == Next(Arrive(s, r), Halt)
  {
  }

  lemma {:induction false} StaleLast(cfg: Config, code: set<Addr>, prog: Memory, s: State, r: Report)
    requires OnReport(cfg, s, r) == Next(Arrive(s, r), Halt) && Allowed(cfg, code, prog, s, r)
    requires s.alive && Stale(cfg, prog, s.m)
    ensures StaleRun(cfg, code, prog, s, [Stopped(r)])
  {
  }

  lemma {:induction false} StaleEarlier(cfg: Config, code: set<Addr>, prog: Memory, s: State, r: Report, n: Next,
                                        es: seq<Stop>)
    requires n == OnReport(cfg, s, r) && n.o.Resume? && Allowed(cfg, code, prog, s, r)
    requires StaleRun(cfg, code, prog, n.s, es)
    ensures StaleRun(cfg, code, prog, s, [Stopped(r)] + es)
  {
    TurnBehaves(cfg, code, prog, s, r, n, es);
    assert ([Stopped(r)] + es)[1..] == es;
  }

  /** Meeting the place leaves a stale shadow. */
  ghost predicate Meets(cfg: Config, prog: Memory, s: State, r: Report, a: Addr) {
    var n := OnReport(cfg, s, r);
    && n.o.Resume? && Stale(cfg, prog, n.s.m) && n.s.alive && !n.s.trap.attach && !n.s.m.bpIn
    && n.s.prev.pc == a && !Starting(n.s)
  }

  ghost predicate Allowed(cfg: Config, code: set<Addr>, prog: Memory, s: State, r: Report) {
    ReportOk(cfg, code, prog, s, r) && ImageAfter(prog, r) == prog
  }

  lemma {:induction false} PlaceStale(cfg: Config, code: set<Addr>, prog: Memory, s: State, g: Go, x: Addr, a: Addr,
                                      sig: int, quit: int, fp: int, q: Report)
    requires AtPlace(cfg, code, prog, s, g, x, a, fp) && q == Meeting(cfg, x, a, fp)
    requires StaleRoom(cfg, code, prog, s.m.resumeShadow, s.m.chain, g, x, sig, quit)
    ensures Meets(cfg, prog, s, q, a)
  {
    PassTurn(cfg, code, prog, s, g, x, a, fp);
    TargetDiffers(cfg, code, prog, s.m.resumeShadow, s.m.chain, g, x, a, sig, quit);
  }

  lemma {:induction false} PlaceAllowed(cfg: Config, code: set<Addr>, prog: Memory, s: State, g: Go, x: Addr, a: Addr,
                                        sig: int, quit: int, fp: int, q: Report)
    requires AtPlace(cfg, code, prog, s, g, x, a, fp) && q == Meeting(cfg, x, a, fp) && (a == 0 || a in code)
    requires StaleRoom(cfg, code, prog, s.m.resumeShadow, s.m.chain, g, x, sig, quit)
    ensures Allowed(cfg, code, prog, s, q)
  {
    StopAllowed(cfg, code, prog, s, SIGTRAP, a + cfg.decr, 1, fp, x);
  }

  /** The awkward place is met. */
  lemma {:induction false} SecondStop(cfg: Config, code: set<Addr>, prog: Memory, s: State, g: Go, x: Addr, a: Addr,
                                      sig: int, quit: int, fp: int) returns (q: Report)
    requires AtPlace(cfg, code, prog, s, g, x, a, fp) && (a == 0 || a in code)
    requires StaleRoom(cfg, code, prog, s.m.resumeShadow, s.m.chain, g, x, sig, quit)
    ensures Allowed(cfg, code, prog, s, q) && Meets(cfg, prog, s, q, a)
  {
    q := Meeting(cfg, x, a, fp);
    PlaceAllowed(cfg, code, prog, s, g, x, a, sig, quit, fp, q);
    PlaceStale(cfg, code, prog, s, g, x, a, sig, quit, fp, q);
  }

  /** The step is interrupted. */
  lemma {:induction false} ThirdStop(cfg: Config, code: set<Addr>, prog: Memory, s: State, x: Addr, quit: int)
    returns (es: seq<Stop>)
    requires !s.m.bpIn && !s.trap.attach && !Starting(s) && quit in cfg.stops && quit != SIGTRAP
    requires s.alive && Stale(cfg, prog, s.m) && (s.prev.pc == 0 || s.prev.pc in code) && EndsKnown(cfg, code)
    ensures StaleRun(cfg, code, prog, s, es)
  {
    var r := At(cfg, quit, x, 0, 0, 0);
    QuitTurn(cfg, s, x, quit);
    StopAllowed(cfg, code, prog, s, quit, x, 0, 0, 0);
    StaleLast(cfg, code, prog, s, r);
    es := [Stopped(r)];
  }

  /** A turn that resumes, one that leaves a stale shadow, and an interrupt. */
  lemma {:induction false} ThreeStops(cfg: Config, code: set<Addr>, prog: Memory, s: State, r: Report, q: Report,
                                      x: Addr, a: Addr, quit: int) returns (es: seq<Stop>)
    requires OnReport(cfg, s, r).o.Resume? && Allowed(cfg, code, prog, s, r)
    requires Allowed(cfg, code, prog, OnReport(cfg, s, r).s, q) && Meets(cfg, prog, OnReport(cfg, s, r).s, q, a)
    requires EndsKnown(cfg, code) && (a == 0 || a in code) && quit in cfg.stops && quit != SIGTRAP
    ensures StaleRun(cfg, code, prog, s, es)
  {
    var n := OnReport(cfg, s, r);
    var m := OnReport(cfg, n.s, q);
    es := ThirdStop(cfg, code, prog, m.s, x, quit);
    StaleEarlier(cfg, code, prog, n.s, q, m, es);
    es := [Stopped(q)] + es;
    StaleEarlier(cfg, code, prog, s, r, n, es);
    es := [Stopped(r)] + es;
  }

  lemma {:induction false} StopAllowed(cfg: Config, code: set<Addr>, prog: Memory, s: State, signal: int, pc: Addr,
                                       sp: int, fp: int, to: Addr)
    requires !Starting(s) && EndsKnown(cfg, code) && (s.prev.pc == 0 || s.prev.pc in code) && (to == 0 || to in code)
    ensures Allowed(cfg, code, prog, s, At(cfg, signal, pc, sp, fp, to))
  {
    assert EndKnown(cfg, code, pc);
    TurnAllowed(code, cfg, prog, s, At(cfg, signal, pc, sp, fp, to));
  }

  lemma {:induction false} TargetDiffers(cfg: Config, code: set<Addr>, mem: Memory, shadow: seq<Byte>, c: Chain, g: Go,
                                         x: Addr, a: Addr, sig: int, quit: int)
    requires StaleRoom(cfg, code, mem, shadow, c, g, x, sig, quit) && Catches(cfg, c, g.over, a)
    ensures Differs(cfg, mem, shadow, Target(cfg, g.over, x, a))
  {
    if cfg.syms(a + cfg.decr).func == a { assert StartKnown(cfg, mem, shadow, c, g, a); }
  }

  lemma {:induction false} PlaceInCode(cfg: Config, code: set<Addr>, prog: Memory, s: State, g: Go, a: Addr)
    requires LoopInv(cfg, code, prog, s) && Awkward(cfg, s.m.chain, g, a)
    ensures a == 0 || a in code
  {
    if a != 0 {
      var i :| 0 <= i < |s.m.chain| && On(s.m.chain[i], a);
    }
  }

  /** A command that begins at no breakpoint. */
  ghost predicate Plainly(cfg: Config, code: set<Addr>, s: State, g: Go) {
    && Begins(cfg, code, s, g) && g.step >= 0 && !StepsOff(Prepare(s, g), g)
    && AtInstruction(code, Proceed(cfg, s, g).s)
  }

  ghost predicate Roomy(cfg: Config, code: set<Addr>, s: State, g: Go, x: Addr, sig: int, quit: int) {
    StaleRoom(cfg, code, s.m.mem, s.m.resumeShadow, Proceed(cfg, s, g).s.m.chain, g, x, sig, quit)
  }

  /** With an awkward place there is a run of three stops that ends stale. */
  lemma {:induction false} StaleReached(cfg: Config, code: set<Addr>, s: State, g: Go, x: Addr, a: Addr, sig: int,
                                        quit: int) returns (es: seq<Stop>)
    requires Plainly(cfg, code, s, g) && Roomy(cfg, code, s, g, x, sig, quit)
    requires g.end != 0 && Awkward(cfg, Proceed(cfg, s, g).s.m.chain, g, a)
    ensures StaleRun(cfg, code, s.m.mem, Proceed(cfg, s, g).s, es)
  {
    var p, prog := Proceed(cfg, s, g).s, s.m.mem;
    var fp := Below(p.m.chain, g.frame);
    AfterProceed(cfg, code, s, g);
    PrepareQuiet(code, s, g);
    PlaceInCode(cfg, code, prog, p, g, a);
    var r := FirstStop(cfg, code, prog, p, g, x, a, sig, quit, fp);
    var q := SecondStop(cfg, code, prog, OnReport(cfg, p, r).s, g, x, a, sig, quit, fp);
    es := ThreeStops(cfg, code, prog, p, r, q, x, a, quit);
  }

  /** The signal is passed on. */
  lemma {:induction false} FirstStop(cfg: Config, code: set<Addr>, prog: Memory, p: State, g: Go, x: Addr, a: Addr,
                                     sig: int, quit: int, fp: int) returns (r: Report)
    requires LoopInv(cfg, code, prog, p) && !Starting(p) && p.trap.expected == 0 && !p.trap.stopAfter && p.m.bpIn
    requires p.m.resumeAddr == 0 && p.step == Step(g.start, g.end, g.frame, g.over, false) && AtInstruction(code, p)
    requires StaleRoom(cfg, code, prog, p.m.resumeShadow, p.m.chain, g, x, sig, quit) && (a == 0 || a in code)
    requires g.end != 0 && Awkward(cfg, p.m.chain, g, a) && fp == Below(p.m.chain, g.frame)
    ensures var n := OnReport(cfg, p, r);
            && n.o.Resume? && Allowed(cfg, code, prog, p, r) && AtPlace(cfg, code, prog, n.s, g, x, a, fp)
            && n.s.m.chain == p.m.chain && n.s.m.resumeShadow == p.m.resumeShadow
  {
    var y := From(cfg, x, a);
    r := At(cfg, sig, y, 0, 0, 0);
    SignalTurn(cfg, p, y, sig);
    StopAllowed(cfg, code, prog, p, sig, y, 0, 0, 0);
    OnReportOk(cfg, code, prog, p, r);
    assert cfg.syms(a + cfg.decr).func == a ==> StartKnown(cfg, prog, p.m.resumeShadow, p.m.chain, g, a);
    SignalUnderway(cfg, code, prog, p, OnReport(cfg, p, r).s, g, y);
  }

  lemma {:induction false} SignalUnderway(cfg: Config, code: set<Addr>, prog: Memory, p: State, t: State, g: Go,
                                          y: Addr)
    requires LoopInv(cfg, code, prog, t) && !Starting(p) && p.trap.expected == 0 && !p.trap.stopAfter && p.m.bpIn
    requires p.m.resumeAddr == 0 && p.step == Step(g.start, g.end, g.frame, g.over, false)
    requires t == p.(m := p.m.(mem := t.m.mem), now := t.now, prev := Prev(y, 0, t.prev.func, cfg.syms(y).tramp))
    ensures Underway(cfg, code, prog, t, g, y)
  {
  }

  /** A stepping or continuing command has a well-behaved run that ends stale exactly if it has a range and there is an
      awkward place. */
  lemma {:induction false} StaleExact(cfg: Config, code: set<Addr>, s: State, g: Go, x: Addr, sig: int, quit: int)
    requires Plainly(cfg, code, s, g) && Roomy(cfg, code, s, g, x, sig, quit)
    ensures (exists es :: StaleRun(cfg, code, s.m.mem, Proceed(cfg, s, g).s, es))
            <==> g.end != 0 && exists a :: Awkward(cfg, Proceed(cfg, s, g).s.m.chain, g, a)
  {
    var p := Proceed(cfg, s, g).s;
    if es :| StaleRun(cfg, code, s.m.mem, p, es) {
      if g.end == 0 || forall a :: !Awkward(cfg, p.m.chain, g, a) { NeverStale(cfg, code, s, g, es); }
    } else if g.end != 0 && exists a :: Awkward(cfg, p.m.chain, g, a) {
      var a :| Awkward(cfg, p.m.chain, g, a);
      var es := StaleReached(cfg, code, s, g, x, a, sig, quit);
    }
  }
}
