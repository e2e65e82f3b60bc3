/** Starting a program: the shell traps when it begins, may fault as often as it likes, and traps once more when it has
    become the program. Then the program runs free with its breakpoints in. */
module StartRuns {
  import opened Common
  import opened Breakpoints
  import opened RunControl
  import opened RunSafety
  import opened RunSessions
  import BreakHits
  import StepEnds

  /** The shell is running, and its execution of the program is awaited. */
  predicate InShell(s: State) { s.alive && s.trap == Traps(1, false, false, true) }

  predicate ShellTrap(r: Report) { r.signal == SIGTRAP && !InDummy(r, r.pc) }

  /** The Bourne shell's way of asking for memory. */
  predicate ShellFault(r: Report) { r.signal == SIGSEGV && !InDummy(r, r.pc) }

  lemma {:induction false} FirstTrap(cfg: Config, code: set<Addr>, prog: Memory, s: State, r: Report)
    requires LoopInv(cfg, code, prog, s) && ReportOk(cfg, code, prog, s, r)
    requires s.trap == Traps(2, false, false, false) && ShellTrap(r)
    ensures var n := OnReport(cfg, s, r);
            && n.o == Resume(false, 0) && InShell(n.s) && n.s.m == Arrive(s, r).m
            && LoopInv(cfg, code, ImageAfter(prog, r), n.s)
  {
    OnReportOk(cfg, code, prog, s, r);
    var a := Arrive(s, r);
    var st := StopStatus(a.m.chain, a.now.pc - cfg.decr, r.fp, r.conds, 0, 0);
    assert Classify(cfg, a, r, st) == Cause(a, false, false, false);
    assert OnReport(cfg, s, r) == Restart(cfg, a.(prev := Prev(a.now.pc, r.sp, r.func, r.tramp)), false);
  }

  lemma {:induction false} Fault(cfg: Config, code: set<Addr>, prog: Memory, s: State, r: Report)
    requires LoopInv(cfg, code, prog, s) && ReportOk(cfg, code, prog, s, r) && InShell(s) && ShellFault(r)
    ensures var n := OnReport(cfg, s, r);
            && n.o == Resume(false, SIGSEGV) && InShell(n.s) && n.s.m == Arrive(s, r).m
            && LoopInv(cfg, code, ImageAfter(prog, r), n.s)
  {
    OnReportOk(cfg, code, prog, s, r);
    var a := Arrive(s, r);
    var st := StopStatus(a.m.chain, a.now.pc - cfg.decr, r.fp, r.conds, 0, 0);
    assert Classify(cfg, a, r, st) == Cause(a, false, true, false);
    assert OnReport(cfg, s, r) == Restart(cfg, a.(prev := Prev(a.now.pc, r.sp, r.func, r.tramp)), false);
  }

  lemma {:induction false} SecondTrap(cfg: Config, code: set<Addr>, prog: Memory, s: State, r: Report)
    requires LoopInv(cfg, code, prog, s) && ReportOk(cfg, code, prog, s, r) && InShell(s) && ShellTrap(r)
    ensures var n := OnReport(cfg, s, r);
            && n.o == Resume(false, 0) && BreakHits.RunsFree(n.s) && AllIn(n.s.m.chain)
            && SameButInserted(s.m.chain, n.s.m.chain)
  {
    var a, p := Arrive(s, r), ImageAfter(prog, r);
    var st := StopStatus(a.m.chain, a.now.pc - cfg.decr, r.fp, r.conds, 0, 0);
    assert Classify(cfg, a, r, st) == Cause(a, false, false, false);
    assert OnReport(cfg, s, r) == Restart(cfg, a.(prev := Prev(a.now.pc, r.sp, r.func, r.tramp)), false);
    QuietSettled(cfg, code, p, a.m);
    InsertBothOk(cfg, code, p, a.m);
    InsertOnlyWanted(cfg.brk, a.m.chain, a.m.mem, 0);
    assert InsertStep(cfg, a.m) == a.m;
  }

  function Faults(n: nat): (r: seq<Outcome>) { seq(n, i => Resume(false, SIGSEGV)) }

  function Stops(rs: seq<Report>): (r: seq<Stop>) { if rs == [] then [] else [Stopped(rs[0])] + Stops(rs[1..]) }

  /** The program has been reached after the given resumes. */
  predicate Reached(t: Trace, c: Chain, os: seq<Outcome>) {
    && !t.halted && BreakHits.RunsFree(t.last) && AllIn(t.last.m.chain) && SameButInserted(c, t.last.m.chain)
    && StepEnds.Outcomes(t.resumes) == os
  }

  lemma {:induction false} TurnFirst(cfg: Config, s: State, r: Report, fs: seq<Stop>)
    requires OnReport(cfg, s, r).o.Resume?
    ensures var n := OnReport(cfg, s, r);
            var t := Wait(cfg, n.s, fs);
            && Wait(cfg, s, [Stopped(r)] + fs) == t.(resumes := [n] + t.resumes)
            && StepEnds.Outcomes([n] + t.resumes) == [n.o] + StepEnds.Outcomes(t.resumes)
  {
    assert ([Stopped(r)] + fs)[1..] == fs;
  }

  lemma {:induction false} ShellRun(cfg: Config, code: set<Addr>, prog: Memory, s: State, vs: seq<Report>, r: Report)
    requires InShell(s) && StepEnds.Sound(cfg, code, prog, s, Stops(vs) + [Stopped(r)])
    requires (forall i :: 0 <= i < |vs| ==> ShellFault(vs[i])) && ShellTrap(r)
    ensures Reached(Wait(cfg, s, Stops(vs) + [Stopped(r)]), s.m.chain, Faults(|vs|) + [Resume(false, 0)])
    decreases |vs|
  {
    if vs == [] {
      assert Stops(vs) + [Stopped(r)] == [Stopped(r)] + [];
      StepEnds.SoundFirst(cfg, code, prog, s, r, []);
      SecondTrap(cfg, code, prog, s, r);
      TurnFirst(cfg, s, r, []);
      assert Faults(0) + [Resume(false, 0)] == [Resume(false, 0)] + [];
    } else {
      var rest := Stops(vs[1..]) + [Stopped(r)];
      assert Stops(vs) + [Stopped(r)] == [Stopped(vs[0])] + rest;
      StepEnds.SoundFirst(cfg, code, prog, s, vs[0], rest);
      Fault(cfg, code, prog, s, vs[0]);
      ShellRun(cfg, code, ImageAfter(prog, vs[0]), OnReport(cfg, s, vs[0]).s, vs[1..], r);
      TurnFirst(cfg, s, vs[0], rest);
      assert Faults(|vs|) + [Resume(false, 0)]
             == [Resume(false, SIGSEGV)] + (Faults(|vs| - 1) + [Resume(false, 0)]);
    }
  }

  /** From the command on: two traps, and what faults there are between them goes to the shell. */
  lemma {:induction false} StartRun(cfg: Config, code: set<Addr>, shell: Memory, s: State, first: Report,
                                    vs: seq<Report>, last: Report)
    requires |s.m.resumeShadow| == |cfg.brk| && Orderly(code, s.m.chain)
    requires WellBehaved(cfg, code, shell, StartInferior(s, shell), [Stopped(first)] + (Stops(vs) + [Stopped(last)]))
    requires ShellTrap(first) && (forall i :: 0 <= i < |vs| ==> ShellFault(vs[i])) && ShellTrap(last)
    ensures var p := StartInferior(s, shell);
            Reached(Wait(cfg, p, [Stopped(first)] + (Stops(vs) + [Stopped(last)])), p.m.chain,
                    [Resume(false, 0)] + (Faults(|vs|) + [Resume(false, 0)]))
  {
    var p, rest := StartInferior(s, shell), Stops(vs) + [Stopped(last)];
    StartInferiorOk(cfg, code, shell, s);
    StepEnds.BehavesSound(cfg, code, shell, p, [Stopped(first)] + rest);
    StepEnds.SoundFirst(cfg, code, shell, p, first, rest);
    FirstTrap(cfg, code, shell, p, first);
    ShellRun(cfg, code, ImageAfter(shell, first), OnReport(cfg, p, first).s, vs, last);
    TurnFirst(cfg, p, first, rest);
  }
}
