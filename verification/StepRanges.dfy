/** Exactly which stepping commands can set the inferior free without its breakpoints.

    A range from address 0 is lost when a prologue is skipped: the end of the range is set to its start, and an end of 0
    means that no step is going on.  If breakpoints were then to be pulled for the next step, because a signal had been
    taken, the inferior runs on without them. */
module StepRanges {
  import opened Common
  import opened Breakpoints
  import opened RunControl
  import opened RunSafety
  import opened RunSessions

  /** Where a function that begins at `f` is stopped in when it is stepped into. */
  function EndOf(cfg: Config, f: Addr): (r: Addr) {
    var p := cfg.syms(f);
    if p.lineEnd != 0 && p.linePc != p.skip then p.lineEnd else p.skip
  }

  /** The inferior is stopped at `pc`; the rest is as the symbol tables say. */
  function At(cfg: Config, signal: int, pc: Addr, sp: int, fp: int, to: Addr): (r: Report)
    ensures Placed(cfg, r) && AfterPrologue(r) == EndOf(cfg, r.func)
  {
    var p := cfg.syms(pc);
    var f := cfg.syms(p.func);
    Report(signal, pc, sp, fp, p.func, p.tramp, f.skip, f.symbol, to, f.skip, f.linePc, f.lineEnd, false, {}, map[],
           None)
  }

  /** A signal that is passed on without a word. */
  predicate Silent(cfg: Config, sig: int) {
    0 < sig < NSIG && sig !in cfg.stops && sig != SIGTRAP && sig != SIGILL && sig != SIGEMT
  }

  /** What stepping may aim at from `pc` is an instruction. */
  predicate EndKnown(cfg: Config, code: set<Addr>, pc: Addr) {
    var b := EndOf(cfg, cfg.syms(pc).func);
    b == 0 || b in code
  }

  /** There is a function at `f` with symbols and a prologue, `t` is an instruction of the signal trampoline, and `sig`
      is a signal that is passed on silently. */
  predicate Room(cfg: Config, code: set<Addr>, c: Chain, g: Go, f: Addr, t: Addr, sig: int) {
    var b := EndOf(cfg, f);
    && f in code && t in code && b in code && f > 0 && t > 0 && b > 0 && f >= g.end && t >= g.end && b != f
    && cfg.syms(f + cfg.decr).func == f && cfg.syms(f).symbol && cfg.syms(f).skip != f
    && !cfg.syms(f).tramp && !cfg.syms(f + cfg.decr).tramp && cfg.syms(t).tramp && t != cfg.decr
    && !Here(c, t - cfg.decr)
    && EndKnown(cfg, code, f) && EndKnown(cfg, code, t) && EndKnown(cfg, code, b + cfg.decr)
    && Silent(cfg, sig)
  }

  /** The function is about to begin when a signal is passed on; the trampoline is met; the function begins, and its
      prologue is over. */
  function Turns(cfg: Config, g: Go, f: Addr, t: Addr, sig: int): (rs: seq<Report>) {
    var b := EndOf(cfg, f);
    [At(cfg, sig, f, 0, 0, 0), At(cfg, SIGTRAP, t, 0, 0, 0),
     At(cfg, SIGTRAP, f + cfg.decr, f, g.frame, 0), At(cfg, SIGTRAP, b + cfg.decr, b, 0, 0)]
  }

  predicate AtInstruction(code: set<Addr>, p: State) { p.prev.pc >= 0 && (p.prev.pc == 0 || p.prev.pc in code) }

  /** Stepping with breakpoints in, on the way to `resume`. */
  predicate OnTheWay(s: State, step: Step, resume: Addr, prevPc: Addr, prevTramp: bool) {
    && s.alive && s.trap == Traps(0, false, false, false) && s.m.bpIn && s.step == step && s.m.resumeAddr == resume
    && s.prev.pc == prevPc && s.prev.tramp == prevTramp
  }

  lemma {:induction false} StatusNone(c: Chain, a: Addr, fp: int, conds: set<int>, i: nat, cont: int)
    requires i <= |c| && !Here(c, a)
    ensures StopStatus(c, a, fp, conds, i, cont) == (c, cont)
    decreases |c| - i
  {
    if i < |c| {
      assert !On(c[i], a);
      StatusNone(c, a, fp, conds, i + 1, cont);
    }
  }

  // ---------------------------------------------------------------------------
  // The four turns

  /** The state in which the step-resume breakpoint has been hit and taken out. */
  function Cleared(s: State, r: Report): (res: State) {
    var a := Arrive(s, r);
    a.(m := RemoveStep(a.m).(resumeAddr := 0), now := a.now.(pc := s.m.resumeAddr))
  }

  lemma {:induction false} HitGoesOn(cfg: Config, s: State, r: Report, step: Step, prevPc: Addr, prevTramp: bool)
    requires s.m.resumeAddr != 0 && OnTheWay(s, step, s.m.resumeAddr, prevPc, prevTramp) && r.signal == SIGTRAP
    requires r.pc == s.m.resumeAddr + cfg.decr && r.sp == s.m.resumeAddr && (step.frame == 0 || r.fp == step.frame)
    ensures OnReport(cfg, s, r) == TurnEnd(cfg, Cleared(s, r), r, false, false)
  {
    var a := Arrive(s, r);
    var st := StopStatus(a.m.chain, a.now.pc - cfg.decr, r.fp, r.conds, 0, 0);
    var t := a.(now := a.now.(pc := s.m.resumeAddr));
    assert Classify(cfg, a, r, st) == Cause(t, true, false, false);
    assert AtBreak(t, r, true) == Phase(Cleared(s, r), false, false);
  }

  /** A turn that aims the step-resume breakpoint while breakpoints are in goes on to it. */
  lemma {:induction false} AimedGoesOn(cfg: Config, s: State, r: Report, a: Addr, why: Why, step: Step)
    requires s.alive && s.trap == Traps(0, false, false, false) && s.m.bpIn && s.now.signal == SIGTRAP && a != 0
    requires StepPlan(s, r) == RunTo(a, why) && Stepping(cfg, s, r, false).s.step == step
    ensures var n := TurnEnd(cfg, s, r, false, false);
            n.o == Resume(false, 0) && OnTheWay(n.s, step, a, s.now.pc, r.tramp)
  {
    PlanMachine(cfg, s, r, false);
  }

  /** What proceed leaves for the first turn. */
  lemma {:induction false} AfterProceed(cfg: Config, code: set<Addr>, s: State, g: Go)
    requires Quiet(cfg, code, s) && s.alive && !Starting(s) && GoOk(code, g) && g.step >= 0
    ensures var p := Proceed(cfg, s, g).s;
            && LoopInv(cfg, code, s.m.mem, p) && !Starting(p) && p.step == Step(g.start, g.end, g.frame, g.over, false)
            && p.trap.expected <= 1 && !p.trap.stopAfter && (p.trap.expected == 0 ==> p.m.bpIn) && p.m.resumeAddr == 0
  {
    ProceedOk(cfg, code, s, g);
    PrepareQuiet(code, s, g);
    var m := Prepare(s, g).m;
    QuietSettled(cfg, code, s.m.mem, m);
    InsertAllPlants(cfg.brk, s.m.mem, code, m.chain, m.mem, Extra(m), 0);
  }

  /** A silent signal leaves everything as it is, but for where the inferior was last. */
  lemma {:induction false} SignalTurn(cfg: Config, s: State, pc: Addr, sig: int)
    requires s.alive && !Starting(s) && !s.trap.attach && Silent(cfg, sig) && pc >= 0 && !s.step.pull
    requires s.trap.expected == 0 ==> s.m.bpIn
    ensures var r := At(cfg, sig, pc, 0, 0, 0);
            var n := OnReport(cfg, s, r);
            n.o.Resume? && n.s == s.(m := s.m.(mem := n.s.m.mem), now := n.s.now, prev := Prev(pc, 0, r.func, r.tramp))
            && n.s.now.signal != SIGTRAP
  {
    var r := At(cfg, sig, pc, 0, 0, 0);
    var a := Arrive(s, r);
    assert Classify(cfg, a, r, StopStatus(a.m.chain, a.now.pc - cfg.decr, r.fp, r.conds, 0, 0))
           == Cause(a, false, true, false);
  }

  /** The state in which the signal has been passed on. */
  ghost predicate Signaled(cfg: Config, code: set<Addr>, prog: Memory, s: State, g: Go, f: Addr) {
    && LoopInv(cfg, code, prog, s) && !Starting(s) && s.trap.expected <= 1 && !s.trap.stopAfter && s.m.resumeAddr == 0
    && (s.trap.expected == 0 ==> s.m.bpIn)
    && s.step == Step(0, g.end, g.frame, g.over, false) && s.prev.pc == f && !s.prev.tramp
  }

  lemma {:induction false} TrampTurn(cfg: Config, code: set<Addr>, prog: Memory, s: State, g: Go, f: Addr, t: Addr,
                                     sig: int)
    requires Signaled(cfg, code, prog, s, g, f) && !RangeSafe(g) && Room(cfg, code, s.m.chain, g, f, t, sig)
    ensures var n := OnReport(cfg, s, Turns(cfg, g, f, t, sig)[1]);
            n.o.Resume? && OnTheWay(n.s, Step(0, g.end, g.frame, g.over, true), f, t, true)
  {
    var r := Turns(cfg, g, f, t, sig)[1];
    TrampMet(cfg, s, r);
    TrampAimed(cfg, code, prog, s, r, f);
  }

  /** No breakpoint is met, and the signal is to be run through. */
  lemma {:induction false} TrampMet(cfg: Config, s: State, r: Report)
    requires !s.trap.attach && !s.trap.stopAfter && s.m.resumeAddr == 0 && s.step.start == 0 && s.step.end != 0
    requires r == At(cfg, SIGTRAP, r.pc, 0, 0, 0) && r.pc > 0 && r.pc >= s.step.end && r.tramp && !s.prev.tramp
    requires r.pc != cfg.decr && !Here(s.m.chain, r.pc - cfg.decr)
    ensures OnReport(cfg, s, r) == TurnEnd(cfg, Arrive(s, r), r, false, false)
    ensures StepPlan(Arrive(s, r), r) == RunTo(s.prev.pc, SignalTaken)
  {
    var a := Arrive(s, r);
    StatusNone(a.m.chain, r.pc - cfg.decr, 0, {}, 0, 0);
    assert Classify(cfg, a, r, (a.m.chain, 0)) == Cause(a, false, false, false);
  }

  /** The turn resumes with breakpoints in, if need be after putting them in. */
  lemma {:induction false} TrampAimed(cfg: Config, code: set<Addr>, prog: Memory, s: State, r: Report, f: Addr)
    requires LoopInv(cfg, code, prog, s) && !Starting(s) && s.m.resumeAddr == 0 && s.trap.expected <= 1
             && !s.trap.stopAfter
    requires s.trap.expected == 0 ==> s.m.bpIn
    requires ImageAfter(prog, r) == prog && r.writes == map[] && r.image == None && r.signal == SIGTRAP
    requires f != 0 && f in code && s.step.end != 1 && StepPlan(Arrive(s, r), r) == RunTo(f, SignalTaken)
    ensures var n := TurnEnd(cfg, Arrive(s, r), r, false, false);
            n.o.Resume? && OnTheWay(n.s, s.step.(pull := true), f, r.pc, r.tramp)
  {
    var a := Arrive(s, r);
    ArriveMachine(cfg, code, prog, s.m, r);
    SetResumeOk(cfg, code, prog, a.m, f);
    PlanMachine(cfg, a, r, false);
    var m := SetResume(cfg, a.m, f);
    if !m.bpIn { InsertBothOk(cfg, code, prog, m); }
  }

  /** What the last two turns ask of the function. */
  predicate Entered(cfg: Config, code: set<Addr>, g: Go, f: Addr) {
    var b := EndOf(cfg, f);
    && f in code && b in code && f > 0 && b > 0 && f >= g.end && b != f && EndKnown(cfg, code, b + cfg.decr)
    && cfg.syms(f + cfg.decr).func == f && cfg.syms(f).symbol && cfg.syms(f).skip != f && !cfg.syms(f + cfg.decr).tramp
  }

  lemma {:induction false} ThirdTurn(cfg: Config, code: set<Addr>, s: State, g: Go, f: Addr, t: Addr, sig: int)
    requires OnTheWay(s, Step(0, g.end, g.frame, g.over, true), f, t, true) && Entered(cfg, code, g, f) && !RangeSafe(g)
    ensures var n := OnReport(cfg, s, Turns(cfg, g, f, t, sig)[2]);
            n.o.Resume? && OnTheWay(n.s, Step(0, 0, 0, g.over, true), EndOf(cfg, f), f, false)
  {
    var r, b := Turns(cfg, g, f, t, sig)[2], EndOf(cfg, f);
    HitGoesOn(cfg, s, r, s.step, t, true);
    var k := Cleared(s, r);
    assert StepPlan(k, r) == RunTo(b, PrologueSkipped);
    AimedGoesOn(cfg, k, r, b, PrologueSkipped, Step(0, 0, 0, g.over, true));
  }

  lemma {:induction false} FourthTurn(cfg: Config, code: set<Addr>, s: State, g: Go, f: Addr, t: Addr, sig: int)
    requires OnTheWay(s, Step(0, 0, 0, g.over, true), EndOf(cfg, f), f, false) && Entered(cfg, code, g, f)
    ensures var n := OnReport(cfg, s, Turns(cfg, g, f, t, sig)[3]);
            n.o == Resume(false, 0) && !SafeResume(n)
  {
    var r := Turns(cfg, g, f, t, sig)[3];
    HitGoesOn(cfg, s, r, s.step, f, false);
    var k := Cleared(s, r);
    assert StepPlan(k, r) == RunOn;
    assert TurnEnd(cfg, k, r, false, false) == Restart(cfg, k.(prev := Prev(k.now.pc, r.sp, r.func, r.tramp)), false);
  }

  // ---------------------------------------------------------------------------
  // The whole run

  function Stops(rs: seq<Report>): (r: seq<Stop>) { seq(|rs|, i requires 0 <= i < |rs| => Stopped(rs[i])) }

  /** Control is at instructions, nothing is written, and the symbol tables are kept to. */
  lemma {:induction false} TurnAllowed(code: set<Addr>, cfg: Config, prog: Memory, s: State, r: Report)
    requires !Starting(s) && r.writes == map[] && r.image == None && Placed(cfg, r) && TargetsOk(code, s, r)
    ensures ReportOk(cfg, code, prog, s, r) && ImageAfter(prog, r) == prog
  {
  }

  ghost predicate Unsafe(cfg: Config, code: set<Addr>, prog: Memory, p: State, es: seq<Stop>) {
    WellBehaved(cfg, code, prog, p, es) && !AllSafe(Wait(cfg, p, es).resumes)
  }

  /** An unsafe turn is an unsafe run. */
  lemma {:induction false} LastTurn(cfg: Config, code: set<Addr>, prog: Memory, s: State, r: Report, n: Next)
    requires n == OnReport(cfg, s, r) && n.o.Resume? && !SafeResume(n) && ReportOk(cfg, code, prog, s, r)
    ensures Unsafe(cfg, code, prog, s, Stops([r]))
  {
    assert Stops([r])[1..] == [];
    assert Wait(cfg, s, Stops([r])).resumes == [n] + Wait(cfg, n.s, []).resumes;
    assert ([n] + Wait(cfg, n.s, []).resumes)[0] == n;
  }

  /** A turn that resumes, in front of an unsafe run. */
  lemma {:induction false} EarlierTurn(cfg: Config, code: set<Addr>, prog: Memory, s: State, r: Report, n: Next,
                                       rest: seq<Report>)
    requires n == OnReport(cfg, s, r) && n.o.Resume? && ReportOk(cfg, code, prog, s, r) && ImageAfter(prog, r) == prog
    requires Unsafe(cfg, code, prog, n.s, Stops(rest))
    ensures Unsafe(cfg, code, prog, s, Stops([r] + rest))
  {
    var es := Stops(rest);
    var ns := Wait(cfg, n.s, es).resumes;
    assert Stops([r] + rest) == [Stopped(r)] + es;
    TurnBehaves(cfg, code, prog, s, r, n, es);
    TurnResumes(cfg, s, r, n, es);
    var i :| 0 <= i < |ns| && !SafeResume(ns[i]);
    assert ([n] + ns)[i + 1] == ns[i];
  }

  lemma {:induction false} TurnBehaves(cfg: Config, code: set<Addr>, prog: Memory, s: State, r: Report, n: Next,
                                       es: seq<Stop>)
    requires n == OnReport(cfg, s, r) && n.o.Resume? && ReportOk(cfg, code, prog, s, r)
    requires WellBehaved(cfg, code, ImageAfter(prog, r), n.s, es)
    ensures WellBehaved(cfg, code, prog, s, [Stopped(r)] + es)
  {
    assert ([Stopped(r)] + es)[1..] == es;
  }

  lemma {:induction false} TurnResumes(cfg: Config, s: State, r: Report, n: Next, es: seq<Stop>)
    requires n == OnReport(cfg, s, r) && n.o.Resume?
    ensures Wait(cfg, s, [Stopped(r)] + es).resumes == [n] + Wait(cfg, n.s, es).resumes
  {
    assert ([Stopped(r)] + es)[1..] == es;
  }

  lemma {:induction false} FromFourth(cfg: Config, code: set<Addr>, prog: Memory, s: State, g: Go, f: Addr, t: Addr,
                                      sig: int)
    requires OnTheWay(s, Step(0, 0, 0, g.over, true), EndOf(cfg, f), f, false) && Entered(cfg, code, g, f)
    ensures Unsafe(cfg, code, prog, s, Stops([Turns(cfg, g, f, t, sig)[3]]))
  {
    var r := Turns(cfg, g, f, t, sig)[3];
    FourthTurn(cfg, code, s, g, f, t, sig);
    TurnAllowed(code, cfg, prog, s, r);
    LastTurn(cfg, code, prog, s, r, OnReport(cfg, s, r));
  }

  lemma {:induction false} FromThird(cfg: Config, code: set<Addr>, prog: Memory, s: State, g: Go, f: Addr, t: Addr,
                                     sig: int)
    requires OnTheWay(s, Step(0, g.end, g.frame, g.over, true), f, t, true) && t in code && t > 0
    requires Entered(cfg, code, g, f) && !RangeSafe(g)
    ensures Unsafe(cfg, code, prog, s, Stops(Turns(cfg, g, f, t, sig)[2..]))
  {
    var rs := Turns(cfg, g, f, t, sig);
    ThirdTurn(cfg, code, s, g, f, t, sig);
    TurnAllowed(code, cfg, prog, s, rs[2]);
    var n := OnReport(cfg, s, rs[2]);
    FromFourth(cfg, code, prog, n.s, g, f, t, sig);
    EarlierTurn(cfg, code, prog, s, rs[2], n, [rs[3]]);
    assert [rs[2]] + [rs[3]] == rs[2..];
  }

  lemma {:induction false} FromSecond(cfg: Config, code: set<Addr>, prog: Memory, s: State, g: Go, f: Addr, t: Addr,
                                      sig: int)
    requires Signaled(cfg, code, prog, s, g, f) && !RangeSafe(g) && Room(cfg, code, s.m.chain, g, f, t, sig)
    ensures Unsafe(cfg, code, prog, s, Stops(Turns(cfg, g, f, t, sig)[1..]))
  {
    var rs := Turns(cfg, g, f, t, sig);
    TrampTurn(cfg, code, prog, s, g, f, t, sig);
    TurnAllowed(code, cfg, prog, s, rs[1]);
    var n := OnReport(cfg, s, rs[1]);
    FromThird(cfg, code, prog, n.s, g, f, t, sig);
    EarlierTurn(cfg, code, prog, s, rs[1], n, rs[2..]);
    assert [rs[1]] + rs[2..] == rs[1..];
  }

  /** A step into functions, over a range from 0, can set the inferior free without its breakpoints. */
  lemma {:induction false} RangeFromZeroRun(cfg: Config, code: set<Addr>, s: State, g: Go, f: Addr, t: Addr, sig: int)
    requires Quiet(cfg, code, s) && s.alive && !Starting(s) && GoOk(code, g) && g.step >= 0 && !RangeSafe(g)
    requires Room(cfg, code, Proceed(cfg, s, g).s.m.chain, g, f, t, sig) && AtInstruction(code, Proceed(cfg, s, g).s)
    ensures Unsafe(cfg, code, s.m.mem, Proceed(cfg, s, g).s, Stops(Turns(cfg, g, f, t, sig)))
  {
    var p, rs, prog := Proceed(cfg, s, g).s, Turns(cfg, g, f, t, sig), s.m.mem;
    AfterProceed(cfg, code, s, g);
    SignalTurn(cfg, p, f, sig);
    TurnAllowed(code, cfg, prog, p, rs[0]);
    OnReportOk(cfg, code, prog, p, rs[0]);
    var n := OnReport(cfg, p, rs[0]);
    FromSecond(cfg, code, prog, n.s, g, f, t, sig);
    EarlierTurn(cfg, code, prog, p, rs[0], n, rs[1..]);
    assert [rs[0]] + rs[1..] == rs;
  }

  /** A stepping or continuing command resumes safely in every run exactly if its range does not start at 0, or is that
      of stepi or none, or functions are not stepped into. */
  lemma {:induction false} RangeExact(cfg: Config, code: set<Addr>, s: State, g: Go, f: Addr, t: Addr, sig: int)
    requires Quiet(cfg, code, s) && s.alive && !Starting(s) && GoOk(code, g) && g.step >= 0
    requires Room(cfg, code, Proceed(cfg, s, g).s.m.chain, g, f, t, sig) && AtInstruction(code, Proceed(cfg, s, g).s)
    ensures RangeSafe(g) <==> forall es :: !Unsafe(cfg, code, s.m.mem, Proceed(cfg, s, g).s, es)
  {
    var p := Proceed(cfg, s, g).s;
    if RangeSafe(g) {
      ProceedOk(cfg, code, s, g);
      forall es ensures !Unsafe(cfg, code, s.m.mem, p, es) {
        if WellBehaved(cfg, code, s.m.mem, p, es) { RunSafe(cfg, code, s.m.mem, p, es); }
      }
    } else {
      RangeFromZeroRun(cfg, code, s, g, f, t, sig);
    }
  }
}
