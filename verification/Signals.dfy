/** Which signals the program gets, and which stop it.

    The wait loop asks only whether a signal stops the program. Whether the program is to see it is asked by proceed
    alone, so that a signal that neither stops it nor is to be passed is passed all the same. */
module Signals {
  import opened Common
  import opened Breakpoints
  import opened RunControl
  import opened RunSafety
  import opened RunSessions
  import opened StepRanges
  import opened BreakHits

  /** A break instruction was met that the system reports as an illegal instruction or an emulator trap. */
  predicate Mistaken(cfg: Config, s: State, r: Report) {
    && s.m.bpIn && (r.signal == SIGILL || r.signal == SIGEMT)
    && !(cfg.decr != 0 && s.prev.pc != r.pc - cfg.decr && s.step.end != 0 && s.m.resumeAddr == 0)
    && (r.pc - cfg.decr == s.m.resumeAddr || Here(s.m.chain, r.pc - cfg.decr))
  }

  /** A signal that is none of the debugger's making. */
  predicate Own(cfg: Config, s: State, r: Report) { r.signal != SIGTRAP && !Mistaken(cfg, s, r) }

  /** The user is told of every signal of the program's own but those that the table says do not stop it. */
  predicate ToUser(cfg: Config, s: State, r: Report) {
    !(s.trap.inShell && r.signal == SIGSEGV) && (r.signal >= NSIG || r.signal in cfg.stops)
  }

  /** breakpoint_stop_status answers 0 exactly if there is no breakpoint. */
  lemma {:induction false} StatusHere(c: Chain, q: Arrival)
    requires Numbered(c)
    ensures Status(c, q).1 == 0 <==> !Here(c, q.a)
    ensures !Here(c, q.a) ==> Status(c, q).0 == c
  {
    StatusExact(c, q);
    if !Here(c, q.a) { StatusNone(c, q.a, q.fp, q.conds, 0, 0); }
    if !NoneDue(c, 0, |c|, q) {
      var k := FirstDue(c, q, 0);
      assert On(c[k], q.a) && Status(c, q).1 == c[k].number;
    }
  }

  lemma {:induction false} FirstDue(c: Chain, q: Arrival, i: nat) returns (k: nat)
    requires i <= |c| && !NoneDue(c, i, |c|, q) && NoneDue(c, 0, i, q)
    ensures k < |c| && Due(c, k, q) && NoneDue(c, 0, k, q)
    decreases |c| - i
  {
    if Due(c, i, q) { k := i; } else { k := FirstDue(c, q, i + 1); }
  }

  /** The cause of the stop that `r` reports. */
  function CauseFor(cfg: Config, s: State, r: Report): (c: Cause) {
    Classify(cfg, Arrive(s, r), r, Status(s.m.chain, ArrivalOf(cfg, r)))
  }

  lemma {:induction false} TurnFor(cfg: Config, s: State, r: Report)
    ensures OnReport(cfg, s, r) == Handle(cfg, CauseFor(cfg, s, r), r)
  {
  }

  /** How a signal is taken. */
  lemma {:induction false} OwnTaken(cfg: Config, s: State, r: Report)
    requires Numbered(s.m.chain) && !s.trap.attach && r.signal != SIGTRAP
    ensures var a := Arrive(s, r);
            var c := CauseFor(cfg, s, r);
            && !c.halt && (c.random <==> Own(cfg, s, r)) && c.s.trap == s.trap
            && c.s.now.signal == (if Own(cfg, s, r) then r.signal else SIGTRAP)
            && (c.random ==> c.s.m == a.m && c.s.now.pc == r.pc)
  {
    StatusHere(s.m.chain, ArrivalOf(cfg, r));
  }

  /** What restarting gives the program. */
  lemma {:induction false} RestartGives(cfg: Config, s: State, another: bool)
    ensures var n := Restart(cfg, s, another);
            && (n.o.Resume? ==>
                 n.o.signal == if s.trap.expected > 1 || s.now.signal == SIGTRAP then 0 else s.now.signal)
            && (!Starting(s) ==> !Starting(n.s))
  {
  }

  /** In the wait loop the program gets exactly its own signals, but for the debugger's traps and for what the shell
      gets before the program is there. */
  lemma {:induction false} SignalGiven(cfg: Config, s: State, r: Report)
    requires Numbered(s.m.chain) && !s.trap.attach
    ensures var n := OnReport(cfg, s, r);
            n.o.Resume? ==> n.o.signal == if Own(cfg, s, r) && s.trap.expected <= 1 then r.signal else 0
  {
    TurnFor(cfg, s, r);
    if r.signal != SIGTRAP { OwnTaken(cfg, s, r); } else { TrapTaken(cfg, s, r); }
    HandleGives(cfg, CauseFor(cfg, s, r), r);
  }

  lemma {:induction false} TrapTaken(cfg: Config, s: State, r: Report)
    requires r.signal == SIGTRAP
    ensures var c := CauseFor(cfg, s, r);
            c.s.now.signal == SIGTRAP && c.s.trap == s.trap
  {
  }

  lemma {:induction false} HandleGives(cfg: Config, c: Cause, r: Report)
    ensures var n := Handle(cfg, c, r);
            && (n.o.Resume? ==>
                 n.o.signal == if c.s.trap.expected > 1 || c.s.now.signal == SIGTRAP then 0 else c.s.now.signal)
            && (!Starting(c.s) ==> !Starting(n.s))
  {
    if !c.halt && !(c.random && StopsFor(cfg, c.s)) {
      var b := if c.random then Phase(c.s, false, false) else AtBreak(c.s, r, c.hit);
      assert b.s.now == c.s.now && b.s.trap == c.s.trap;
      if !b.halt && !InDummy(r, b.s.now.pc) { TurnGives(cfg, b.s, r, b.another, c.random); }
    }
  }

  lemma {:induction false} TurnGives(cfg: Config, s: State, r: Report, another: bool, random: bool)
    ensures var n := TurnEnd(cfg, s, r, another, random);
            && (n.o.Resume? ==>
                 n.o.signal == if s.trap.expected > 1 || s.now.signal == SIGTRAP then 0 else s.now.signal)
            && (!Starting(s) ==> !Starting(n.s))
  {
    var p := BeforeRestart(cfg, s, r, another, random);
    assert p.s.now == s.now && p.s.trap == s.trap by {
      if !random { match StepPlan(s, r) case RunOn => case StopHere => case RunTo(_, _) => }
    }
    if !p.halt {
      var func := if random then r.func else NextFunc(s, r);
      RestartGives(cfg, p.s.(prev := Prev(p.s.now.pc, r.sp, func, r.tramp)), p.another);
    }
  }

  /** A signal of the program's own is kept from it exactly if the user is told of it, whatever the table says about
      passing it on. */
  lemma {:induction false} OwnSignal(cfg: Config, code: set<Addr>, prog: Memory, s: State, r: Report)
    requires LoopInv(cfg, code, prog, s) && ReportOk(cfg, code, prog, s, r) && !Starting(s)
    requires Own(cfg, s, r) && !InDummy(r, r.pc)
    ensures var n := OnReport(cfg, s, r);
            if ToUser(cfg, s, r) then n == Next(Arrive(s, r), Halt)
            else n.o.Resume? && n.o.signal == r.signal && LoopInv(cfg, code, ImageAfter(prog, r), n.s)
  {
    OwnTaken(cfg, s, r);
    OnReportOk(cfg, code, prog, s, r);
    var a := Arrive(s, r);
    TurnFor(cfg, s, r);
    assert CauseFor(cfg, s, r).s == a;
    if !ToUser(cfg, s, r) {
      SignalGiven(cfg, s, r);
      assert Handle(cfg, CauseFor(cfg, s, r), r) == TurnEnd(cfg, a, r, false, true);
      ArriveMachine(cfg, code, prog, s.m, r);
      var t := a.(prev := Prev(a.now.pc, r.sp, r.func, r.tramp));
      RestartOk(cfg, code, ImageAfter(prog, r), t, false);
    }
  }

  // ---------------------------------------------------------------------------
  // The table

  /** The program may see the signal. */
  predicate Passes(cfg: Config, sig: int) { sig in cfg.passes || sig >= NSIG }

  /** A signal that is resumed with is one the program may see. */
  predicate Respects(cfg: Config, n: Next) { n.o.Resume? && n.o.signal != 0 ==> Passes(cfg, n.o.signal) }

  /** proceed keeps to the table: without a signal of the user's the program gets the one it stopped with, if it may see
      it, and otherwise none. */
  lemma {:induction false} ProceedGives(cfg: Config, s: State, g: Go)
    ensures var n := Proceed(cfg, s, g);
            n.o.Resume? ==>
              n.o.signal == match g.signal
                            case Some(sig) => sig
                            case None => if Passes(cfg, s.now.signal) then s.now.signal else 0
  {
    SetMomentaryNow(s, g);
  }

  lemma {:induction false} SetMomentaryNow(s: State, g: Go)
    ensures Prepare(s, g).now == s.now
  {
  }

  /** Every signal the program may not see stops it. */
  predicate TableKept(cfg: Config) {
    forall sig :: 0 < sig < NSIG && sig != SIGTRAP && sig !in cfg.passes ==> sig in cfg.stops
  }

  predicate AllRespect(cfg: Config, ns: seq<Next>) { forall i :: 0 <= i < |ns| ==> Respects(cfg, ns[i]) }

  /** Signals are positive, but 0 if a program stops without one. */
  predicate SignalsOk(es: seq<Stop>) { forall i :: 0 <= i < |es| && es[i].Stopped? ==> es[i].report.signal >= 0 }

  /** With such a table the program sees only signals it may see, in every run. */
  lemma {:induction false} RunRespects(cfg: Config, code: set<Addr>, prog: Memory, s: State, es: seq<Stop>)
    requires TableKept(cfg) && LoopInv(cfg, code, prog, s) && !Starting(s) && WellBehaved(cfg, code, prog, s, es)
    requires SignalsOk(es)
    ensures AllRespect(cfg, Wait(cfg, s, es).resumes)
    decreases |es|
  {
    if es != [] && es[0].Stopped? && OnStop(cfg, s, es[0]).o.Resume? {
      var r, n := es[0].report, OnStop(cfg, s, es[0]);
      OnReportOk(cfg, code, prog, s, r);
      SignalGiven(cfg, s, r);
      StaysStarted(cfg, s, r);
      if Own(cfg, s, r) && ToUser(cfg, s, r) { OwnHalts(cfg, s, r); }
      RunRespects(cfg, code, ImageAfter(prog, r), n.s, es[1..]);
      assert Wait(cfg, s, es).resumes == [n] + Wait(cfg, n.s, es[1..]).resumes;
    }
  }

  /** Once started, the program is not the shell again. */
  lemma {:induction false} StaysStarted(cfg: Config, s: State, r: Report)
    requires !Starting(s) && !s.trap.attach
    ensures !Starting(OnReport(cfg, s, r).s)
  {
    TurnFor(cfg, s, r);
    assert CauseFor(cfg, s, r).s.trap == s.trap;
    HandleGives(cfg, CauseFor(cfg, s, r), r);
  }

  lemma {:induction false} OwnHalts(cfg: Config, s: State, r: Report)
    requires Numbered(s.m.chain) && !s.trap.attach && Own(cfg, s, r) && ToUser(cfg, s, r)
    ensures OnReport(cfg, s, r).o.Halt?
  {
    OwnTaken(cfg, s, r);
    TurnFor(cfg, s, r);
  }

  /** A place where the program can be stopped by a signal of its own. */
  predicate Plainly(cfg: Config, code: set<Addr>, s: State, pc: Addr) {
    EndKnown(cfg, code, pc) && pc - cfg.decr != s.m.resumeAddr && !Here(s.m.chain, pc - cfg.decr)
  }

  /** The program sees only signals it may see, in every run, exactly if every signal it may not see stops it. */
  lemma {:induction false} TableExact(cfg: Config, code: set<Addr>, prog: Memory, s: State, pc: Addr)
    requires LoopInv(cfg, code, prog, s) && !Starting(s) && AtInstruction(code, s) && Plainly(cfg, code, s, pc)
    ensures TableKept(cfg)
            <==> forall es :: WellBehaved(cfg, code, prog, s, es) && SignalsOk(es) ==>
                   AllRespect(cfg, Wait(cfg, s, es).resumes)
  {
    if TableKept(cfg) {
      forall es | WellBehaved(cfg, code, prog, s, es) && SignalsOk(es)
        ensures AllRespect(cfg, Wait(cfg, s, es).resumes)
      {
        RunRespects(cfg, code, prog, s, es);
      }
    } else {
      var sig :| 0 < sig < NSIG && sig != SIGTRAP && sig !in cfg.passes && sig !in cfg.stops;
      SignalSeen(cfg, code, prog, s, pc, sig);
    }
  }

  /** A run in which the program sees a signal it may not see. */
  lemma {:induction false} SignalSeen(cfg: Config, code: set<Addr>, prog: Memory, s: State, pc: Addr, sig: int)
    requires LoopInv(cfg, code, prog, s) && !Starting(s) && AtInstruction(code, s) && Plainly(cfg, code, s, pc)
    requires 0 < sig < NSIG && sig != SIGTRAP && sig !in cfg.passes && sig !in cfg.stops
    ensures var es := [Stopped(At(cfg, sig, pc, 0, 0, 0))];
            && WellBehaved(cfg, code, prog, s, es) && SignalsOk(es)
            && !AllRespect(cfg, Wait(cfg, s, es).resumes)
  {
    var r := At(cfg, sig, pc, 0, 0, 0);
    TurnAllowed(code, cfg, prog, s, r);
    OwnSignal(cfg, code, prog, s, r);
    var n, es := OnReport(cfg, s, r), [Stopped(r)];
    assert es[1..] == [];
    assert Wait(cfg, s, es).resumes == [n];
    assert !Respects(cfg, [n][0]);
  }

  // ---------------------------------------------------------------------------
  // Traps that nobody asked for

  /** A trap at no breakpoint, while the program runs free: the user is told if traps are to stop it, and otherwise it
      is resumed without a signal. */
  lemma {:induction false} StrayTrap(cfg: Config, code: set<Addr>, prog: Memory, s: State, r: Report)
    requires LoopInv(cfg, code, prog, s) && ReportOk(cfg, code, prog, s, r) && RunsFree(s)
    requires r.signal == SIGTRAP && r.pc - cfg.decr != 0 && !Here(s.m.chain, r.pc - cfg.decr) && !InDummy(r, r.pc)
    ensures var n := OnReport(cfg, s, r);
            if SIGTRAP in cfg.stops then n == Next(Arrive(s, r), Halt)
            else n.o == Resume(false, 0) && RunsFree(n.s)
  {
    var a := Arrive(s, r);
    StatusHere(s.m.chain, ArrivalOf(cfg, r));
    OnReportOk(cfg, code, prog, s, r);
    TurnFor(cfg, s, r);
    assert CauseFor(cfg, s, r) == Cause(a, false, true, false);
    if SIGTRAP !in cfg.stops {
      assert Handle(cfg, CauseFor(cfg, s, r), r) == TurnEnd(cfg, a, r, false, true);
    }
  }
}
