/** Run control as the debugger executes it: its global variables, changed step by step. */
module Debugger {
  import opened Common
  import opened Breakpoints
  import opened RunControl
  import opened RunSafety
  import opened RunSessions

  class Inferior {
    const cfg: Config
    var chain: Chain
    var mem: Memory
    var bpIn: bool
    var resumeAddr: Addr
    var resumeShadow: seq<Byte>
    var resumeDup: bool
    var resumeFilled: bool
    var alive: bool
    var trap: Traps
    var step: Step
    var now: Now
    var prev: Prev
    var resumes: seq<Outcome>  // the resumes made so far

    function M(): (r: Machine)
      reads this
    {
      Machine(chain, mem, bpIn, resumeAddr, resumeShadow, resumeDup, resumeFilled)
    }

    function St(): (r: State)
      reads this
    {
      State(M(), alive, trap, step, now, prev)
    }

    constructor (cfg: Config, s: State)
      ensures this.cfg == cfg && St() == s && resumes == []
    {
      this.cfg := cfg;
      chain, mem, bpIn := s.m.chain, s.m.mem, s.m.bpIn;
      resumeAddr, resumeShadow, resumeDup, resumeFilled := s.m.resumeAddr, s.m.resumeShadow, s.m.resumeDup,
        s.m.resumeFilled;
      alive, trap, step, now, prev := s.alive, s.trap, s.step, s.now, s.prev;
      resumes := [];
    }

    /** check_duplicates */
    method CheckDuplicates(a: Addr)
      modifies `chain
      ensures chain == Breakpoints.CheckDuplicates(old(chain), a)
    {
      var count, i := 0, 0;
      while i < |chain|
        invariant 0 <= i <= |chain|
        invariant MarkFrom(chain, a, i, count) == MarkFrom(old(chain), a, 0, 0)
        decreases |chain| - i
      {
        if chain[i].enable != Disabled && chain[i].address == a {
          count := count + 1;
          chain := chain[i := chain[i].(duplicate := count > 1)];
        }
        i := i + 1;
      }
    }

    /** insert_breakpoints */
    method InsertBreakpoints() returns (ok: bool)
      modifies `chain, `mem
      ensures Planting(chain, mem, ok) == InsertFrom(cfg.brk, old(chain), old(mem), 0)
    {
      var i := 0;
      while i < |chain|
        invariant 0 <= i <= |chain|
        invariant InsertFrom(cfg.brk, chain, mem, i) == InsertFrom(cfg.brk, old(chain), old(mem), 0)
        decreases |chain| - i
      {
        var b := chain[i];
        if b.enable != Disabled && !b.inserted && !b.duplicate {
          if !Mapped(mem, b.address, |cfg.brk|) {
            return false;
          }
          chain := chain[i := b.(shadow := Bytes(mem, b.address, |cfg.brk|), inserted := true)];
          mem := Write(mem, b.address, cfg.brk);
        }
        i := i + 1;
      }
      ok := true;
    }

    /** remove_breakpoints */
    method RemoveBreakpoints() returns (ok: bool)
      modifies `chain, `mem
      ensures Planting(chain, mem, ok) == RemoveFrom(old(chain), old(mem), 0)
    {
      var i := 0;
      while i < |chain|
        invariant 0 <= i <= |chain|
        invariant RemoveFrom(chain, mem, i) == RemoveFrom(old(chain), old(mem), 0)
        decreases |chain| - i
      {
        var b := chain[i];
        if b.inserted {
          if !Mapped(mem, b.address, |b.shadow|) {
            return false;
          }
          mem := Write(mem, b.address, b.shadow);
          chain := chain[i := b.(inserted := false)];
        }
        i := i + 1;
      }
      ok := true;
    }

    /** set_ignore_count, and whether there is such a breakpoint. */
    method SetIgnoreCount(number: int, count: int) returns (ok: bool)
      modifies `chain
      ensures chain == SetIgnore(old(chain), number, count)
      ensures ok <==> exists k :: 0 <= k < |old(chain)| && old(chain)[k].number == number
    {
      var i := 0;
      while i < |chain|
        invariant 0 <= i <= |chain| && chain == old(chain)
        invariant FindNumber(chain, number, i) == FindNumber(chain, number, 0)
        invariant forall k :: 0 <= k < i ==> chain[k].number != number
      {
        if chain[i].number == number {
          chain := chain[i := chain[i].(ignoreCount := if count < 0 then 0 else count)];
          return true;
        }
        i := i + 1;
      }
      ok := false;
    }

    /** delete_breakpoint */
    method DeleteBreakpoint(i: nat)
      requires i < |chain|
      modifies `chain, `mem
      ensures (chain, mem) == DeleteAt(old(chain), old(mem), i)
    {
      var b := chain[i];
      if b.inserted && Mapped(mem, b.address, |b.shadow|) {
        mem := Write(mem, b.address, b.shadow);
      }
      chain := chain[..i] + chain[i + 1..];
      CheckDuplicates(b.address);
    }

    /** clear_momentary_breakpoints */
    method ClearMomentaryBreakpoints()
      modifies `chain, `mem
      ensures M() == ClearMomentary(old(M()))
    {
      var i := 0;
      while i < |chain|
        invariant 0 <= i <= |chain| && chain == old(chain) && mem == old(mem)
        invariant FindNumber(chain, MOMENTARY, i) == FindNumber(chain, MOMENTARY, 0)
      {
        if chain[i].number == MOMENTARY {
          DeleteBreakpoint(i);
          return;
        }
        i := i + 1;
      }
    }

    /** breakpoint_auto_delete */
    method BreakpointAutoDelete(number: int, commands: bool)
      modifies `chain, `mem
      ensures M() == AutoDelete(old(M()), number, commands)
    {
      if number != 0 {
        var i := 0;
        while i < |chain| && chain[i].number != number
          invariant 0 <= i <= |chain| && chain == old(chain) && mem == old(mem)
          invariant FindNumber(chain, number, i) == FindNumber(chain, number, 0)
        {
          i := i + 1;
        }
        if i < |chain| && chain[i].enable == Delete {
          DeleteBreakpoint(i);
        }
      }
      if !commands {
        ClearMomentaryBreakpoints();
      }
    }

    /** breakpoint_stop_status */
    method BreakpointStopStatus(a: Addr, fp: int, conds: set<int>) returns (status: int)
      modifies `chain
      ensures (chain, status) == StopStatus(old(chain), a, fp, conds, 0, 0)
    {
      status := 0;
      var i := 0;
      while i < |chain|
        invariant 0 <= i <= |chain|
        invariant StopStatus(chain, a, fp, conds, i, status) == StopStatus(old(chain), a, fp, conds, 0, 0)
        decreases |chain| - i
      {
        var b := chain[i];
        if b.enable != Disabled && b.address == a {
          if b.frame != 0 && b.frame != fp {
            status := -1;
          } else if b.conditional && i !in conds {
            status := -1;
          } else if b.ignoreCount > 0 {
            chain := chain[i := b.(ignoreCount := b.ignoreCount - 1)];
            status := -1;
          } else {
            if b.enable == Temporary {
              chain := chain[i := b.(enable := Disabled)];
            }
            return b.number;
          }
        }
        i := i + 1;
      }
    }

    /** insert_step_breakpoint */
    method InsertStepBreakpoint()
      modifies `mem, `resumeShadow, `resumeFilled
      ensures M() == InsertStep(cfg, old(M()))
    {
      if resumeAddr != 0 && !resumeDup && Mapped(mem, resumeAddr, |cfg.brk|) {
        resumeShadow, resumeFilled := Bytes(mem, resumeAddr, |cfg.brk|), true;
        mem := Write(mem, resumeAddr, cfg.brk);
      }
    }

    /** remove_step_breakpoint */
    method RemoveStepBreakpoint()
      modifies `mem
      ensures M() == RemoveStep(old(M()))
    {
      if resumeAddr != 0 && !resumeDup && Mapped(mem, resumeAddr, |resumeShadow|) {
        mem := Write(mem, resumeAddr, resumeShadow);
      }
    }

    method AimStepBreakpoint(a: Addr)
      modifies `mem, `resumeAddr, `resumeDup, `resumeShadow, `resumeFilled
      ensures M() == SetResume(cfg, old(M()), a)
    {
      resumeAddr, resumeDup, resumeFilled := a, Here(chain, a), false;
      if bpIn {
        InsertStepBreakpoint();
      }
    }

    method Resume(step: bool, signal: int)
      modifies `resumes
      ensures resumes == old(resumes) + [Outcome.Resume(step, signal)]
    {
      resumes := resumes + [Outcome.Resume(step, signal)];
    }

    /** normal_stop, up to breakpoint_auto_delete */
    method NormalStop()
      modifies `chain, `mem, `bpIn
      ensures St() == RunControl.NormalStop(old(St()))
    {
      if alive {
        RemoveStepBreakpoint();
      }
      if alive && bpIn {
        var _ := RemoveBreakpoints();
      }
      bpIn := false;
    }

    /** wait_for_inferior: the cause of the stop. */
    method FindCause(r: Report) returns (hit: bool, random: bool, halt: bool)
      modifies `chain, `now
      ensures Cause(St(), hit, random, halt)
           == Classify(cfg, old(St()), r, StopStatus(old(chain), old(now).pc - cfg.decr, r.fp, r.conds, 0, 0))
    {
      hit, random, halt := false, true, false;
      if now.signal == SIGTRAP || (bpIn && (now.signal == SIGILL || now.signal == SIGEMT)) || trap.attach {
        random := false;
        if (now.signal == SIGTRAP && trap.stopAfter) || trap.attach {
          halt := true;
          return;
        }
        if !(now.signal == SIGTRAP && trap.expected != 0)
           && !(cfg.decr != 0 && prev.pc != now.pc - cfg.decr && step.end != 0 && resumeAddr == 0)
        {
          if now.pc - cfg.decr == resumeAddr {
            hit := true;
            now := now.(pc := now.pc - cfg.decr);
          } else {
            var status := BreakpointStopStatus(now.pc - cfg.decr, r.fp, r.conds);
            now := now.(bp := status);
            if status != 0 {
              now := now.(pc := now.pc - cfg.decr);
            }
          }
        }
        if now.signal == SIGTRAP {
          random := !(now.bp != 0 || trap.expected != 0 || hit || InDummy(r, now.pc)
                      || (step.end != 0 && resumeAddr == 0));
        } else if now.bp != 0 || hit {
          now := now.(signal := SIGTRAP);
        } else {
          random := true;
        }
      }
    }

    /** wait_for_inferior: a breakpoint or the step-resume breakpoint was hit. */
    method HandleBreak(r: Report, hit: bool) returns (another: bool, halt: bool)
      modifies `chain, `mem, `bpIn, `resumeAddr
      ensures Phase(St(), another, halt) == AtBreak(old(St()), r, hit)
    {
      another, halt := false, false;
      if now.bp != 0 || hit {
        if now.bp != 0 && now.bp != -1 {
          halt := true;
        } else if hit && (step.frame == 0 || r.fp == step.frame) {
          RemoveStepBreakpoint();
          resumeAddr := 0;
        } else {
          var _ := RemoveBreakpoints();
          RemoveStepBreakpoint();
          bpIn, another := false, true;
        }
      }
    }

    /** wait_for_inferior: the stepping commands. */
    method HandleStepping(r: Report, another: bool) returns (halt: bool)
      modifies `mem, `resumeAddr, `resumeDup, `resumeShadow, `resumeFilled, `step
      ensures Phase(St(), another, halt) == Stepping(cfg, old(St()), r, another)
    {
      halt := false;
      if resumeAddr != 0 || step.end == 0 {
        return;
      }
      if InStepRange(St(), r) {
        halt := r.returning;
      } else if r.tramp && !prev.tramp {
        AimStepBreakpoint(prev.pc);
        if step.end == 1 {
          step := step.(start := prev.pc, end := prev.pc + 1);
        }
        step := step.(pull := true);
      } else if CalledFunction(St(), r) {
        if step.over > 0 || (step.over != 0 && !r.hasSymbol) {
          AimStepBreakpoint(r.returnTo);
        } else if step.over != 0 && AfterPrologue(r) != now.pc {
          AimStepBreakpoint(AfterPrologue(r));
          step := step.(frame := 0, end := step.start);
        } else {
          halt := true;
        }
      } else {
        halt := true;
      }
    }

    /** wait_for_inferior: pull the breakpoints or put them in. */
    method ReplantBreakpoints(another: bool) returns (halt: bool)
      modifies `chain, `mem, `bpIn, `resumeShadow, `resumeFilled, `step, `now
      ensures Phase(St(), another, halt) == Replant(cfg, old(St()), another)
    {
      halt := false;
      if resumeAddr == 0 && step.pull {
        step := step.(pull := false);
        var _ := RemoveBreakpoints();
        bpIn := false;
      } else if !bpIn && !another {
        InsertStepBreakpoint();
        var ok := InsertBreakpoints();
        now := now.(failed := !ok);
        bpIn, halt := ok, !ok;
      }
    }

    method ResumeOnward(another: bool)
      modifies `trap, `now, `resumes
      ensures var n := GoAhead(old(St()), another); St() == n.s && resumes == old(resumes) + [n.o]
    {
      trap := trap.(expected := if another then 1 else 0);
      if now.signal == SIGTRAP {
        now := now.(signal := 0);
      }
      Resume(StepNext(St()), now.signal);
    }

    /** wait_for_inferior: keep the inferior running. */
    method RestartInferior(another: bool) returns (halt: bool)
      modifies `chain, `mem, `bpIn, `resumeShadow, `resumeFilled, `step, `now, `trap, `resumes
      ensures var n := Restart(cfg, old(St()), another);
              St() == n.s && halt == n.o.Halt? && resumes == Logged(old(resumes), n.o)
    {
      halt := false;
      if trap.expected > 1 {
        trap := trap.(expected := trap.expected - 1, inShell := true);
        Resume(false, 0);
      } else if trap.inShell && now.signal == SIGSEGV {
        Resume(false, SIGSEGV);
      } else if trap.expected != 0 && now.signal != SIGTRAP {
        Resume(StepNext(St()), now.signal);
      } else {
        trap := trap.(inShell := false);
        halt := ReplantBreakpoints(another);
        if halt {
          return;
        }
        ResumeOnward(another);
      }
    }

    /** The rest of a turn once breakpoints have been dealt with. */
    method EndTurn(r: Report, another: bool, random: bool) returns (halt: bool)
      modifies this
      ensures var n := TurnEnd(cfg, old(St()), r, another, random);
              St() == n.s && halt == n.o.Halt? && resumes == Logged(old(resumes), n.o)
    {
      var func := if random then r.func else NextFunc(St(), r);
      if !random {
        halt := HandleStepping(r, another);
        if halt {
          return;
        }
      }
      prev := Prev(now.pc, r.sp, func, r.tramp);
      halt := RestartInferior(another);
    }

    /** A turn once the cause of the stop is known. */
    method HandleCause(r: Report, hit: bool, random: bool, halt: bool) returns (stop: bool)
      modifies this
      ensures var n := Handle(cfg, Cause(old(St()), hit, random, halt), r);
              St() == n.s && stop == n.o.Halt? && resumes == Logged(old(resumes), n.o)
    {
      if halt || (random && StopsFor(cfg, St())) {
        return true;
      }
      var another := false;
      stop := false;
      if !random {
        another, stop := HandleBreak(r, hit);
      }
      if stop || InDummy(r, now.pc) {
        return true;
      }
      stop := EndTurn(r, another, random);
    }

    /** A turn on a stopped inferior. */
    method TakeReport(r: Report) returns (halt: bool)
      modifies this
      ensures var n := OnReport(cfg, old(St()), r);
              St() == n.s && halt == n.o.Halt? && resumes == Logged(old(resumes), n.o)
    {
      mem, now := ImageAfter(mem, r), Now(r.pc, r.signal, 0, false);
      assert St() == Arrive(old(St()), r);
      var hit, random, stop := FindCause(r);
      TurnIs(cfg, old(St()), r, Cause(St(), hit, random, stop));
      halt := HandleCause(r, hit, random, stop);
    }

    /** One turn of the loop in wait_for_inferior. */
    method Turn(e: Stop) returns (halt: bool)
      modifies this
      ensures var n := OnStop(cfg, old(St()), e);
              St() == n.s && halt == n.o.Halt? && resumes == Logged(old(resumes), n.o)
    {
      match e
      case Exited =>
        alive, chain, halt := false, MarkOut(chain), true;
      case Killed(sig) =>
        alive, chain, now, halt := false, MarkOut(chain), now.(signal := sig), true;
      case Stopped(r) =>
        halt := TakeReport(r);
    }

    /** wait_for_inferior, on the reports it is given. */
    method WaitForInferior(es: seq<Stop>) returns (halted: bool)
      modifies this
      ensures var t := Wait(cfg, old(St()), es);
              St() == t.last && halted == t.halted && resumes == old(resumes) + Outcomes(t.resumes)
    {
      ghost var t := Wait(cfg, St(), es);
      halted := false;
      var i := 0;
      assert es[0..] == es;
      while i < |es| && !halted
        invariant 0 <= i <= |es|
        invariant !halted ==> Ahead(Wait(cfg, St(), es[i..]), resumes, t, old(resumes))
        invariant halted ==> t.halted && St() == t.last && resumes == old(resumes) + Outcomes(t.resumes)
        decreases |es| - i, !halted
      {
        AheadStep(cfg, St(), es[i..], resumes, t, old(resumes));
        halted := Turn(es[i]);
        assert es[i..][1..] == es[i + 1..];
        i := i + 1;
      }
    }
  }

  function Logged(rs: seq<Outcome>, o: Outcome): (r: seq<Outcome>) {
    if o.Halt? then rs else rs + [o]
  }

  function Outcomes(ns: seq<Next>): (r: seq<Outcome>) {
    seq(|ns|, i requires 0 <= i < |ns| => ns[i].o)
  }

  /** What is still to come, after the resumes `rs`, makes up the run `t` that started after `rs0`. */
  predicate Ahead(rest: Trace, rs: seq<Outcome>, t: Trace, rs0: seq<Outcome>) {
    && rest.last == t.last && rest.halted == t.halted
    && rs + Outcomes(rest.resumes) == rs0 + Outcomes(t.resumes)
  }

  lemma {:induction false} AheadStep(cfg: Config, s: State, es: seq<Stop>, rs: seq<Outcome>, t: Trace,
                                     rs0: seq<Outcome>)
    requires es != [] && Ahead(Wait(cfg, s, es), rs, t, rs0)
    ensures var n := OnStop(cfg, s, es[0]);
            if n.o.Halt? then t.halted && n.s == t.last && rs == rs0 + Outcomes(t.resumes)
            else Ahead(Wait(cfg, n.s, es[1..]), rs + [n.o], t, rs0)
  {
    var n := OnStop(cfg, s, es[0]);
    if n.o.Halt? {
      assert rs + Outcomes([]) == rs;
    } else {
      OneMore(n, Wait(cfg, n.s, es[1..]), rs);
    }
  }

  lemma {:induction false} OneMore(n: Next, w: Trace, rs: seq<Outcome>)
    ensures rs + Outcomes([n] + w.resumes) == rs + [n.o] + Outcomes(w.resumes)
  {
    assert Outcomes([n] + w.resumes) == [n.o] + Outcomes(w.resumes);
  }
}
