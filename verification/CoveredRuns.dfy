/** Duplicate marks over whole sessions: as long as no hit of a temporary breakpoint spoils them, the inferior never
    runs free without a break instruction at every enabled breakpoint. */
module CoveredRuns {
  import opened Common
  import opened Breakpoints
  import opened RunControl
  import opened RunSafety
  import opened RunSessions

  // ---------------------------------------------------------------------------
  // The hit of a breakpoint

  /** The breakpoint for which breakpoint_stop_status stops. */
  function Hit(c: Chain, a: Addr, fp: int, conds: set<int>, i: nat): (r: Option<nat>)
    requires i <= |c|
    ensures r.Some? ==> i <= r.value < |c| && On(c[r.value], a)
    decreases |c| - i
  {
    if i == |c| then None
    else if !On(c[i], a) || (c[i].frame != 0 && c[i].frame != fp) || (c[i].conditional && i !in conds)
            || c[i].ignoreCount > 0
    then Hit(c, a, fp, conds, i + 1)
    else Some(i)
  }

  /** A temporary breakpoint, the unmarked one of several at its address. */
  predicate Loses(c: Chain, i: nat)
    requires i < |c|
  {
    c[i].enable == Temporary && !c[i].duplicate && exists j :: 0 <= j < |c| && j != i && On(c[j], c[i].address)
  }

  /** The chain once breakpoint `h` has been hit. */
  function AfterHit(c: Chain, h: Option<nat>): (r: Chain)
    requires h.Some? ==> h.value < |c|
  {
    if h.Some? && c[h.value].enable == Temporary then c[h.value := c[h.value].(enable := Disabled)] else c
  }

  lemma {:induction false} StatusIs(c: Chain, a: Addr, fp: int, conds: set<int>, i: nat, cont: int)
    requires i <= |c|
    ensures var (d, status), h := StopStatus(c, a, fp, conds, i, cont), Hit(c, a, fp, conds, i);
            SameMarks(AfterHit(c, h), d) && (h.Some? ==> status == c[h.value].number)
    decreases |c| - i
  {
    if i < |c| && Hit(c, a, fp, conds, i) != Some(i) {
      var b := c[i];
      var ignored := On(b, a) && !(b.frame != 0 && b.frame != fp) && !(b.conditional && i !in conds);
      var d := if ignored then c[i := b.(ignoreCount := b.ignoreCount - 1)] else c;
      HitSame(c, d, a, fp, conds, i + 1);
      StatusIs(d, a, fp, conds, i + 1, if On(b, a) then -1 else cont);
    }
  }

  lemma {:induction false} HitSame(c: Chain, d: Chain, a: Addr, fp: int, conds: set<int>, i: nat)
    requires |c| == |d| && i <= |c| && forall k :: i <= k < |c| ==> c[k] == d[k]
    ensures Hit(c, a, fp, conds, i) == Hit(d, a, fp, conds, i)
    decreases |c| - i
  {
    if i < |c| { HitSame(c, d, a, fp, conds, i + 1); }
  }

  /** The marks are still right after breakpoint_stop_status exactly if no breakpoint was lost. */
  lemma {:induction false} StatusMarked(c: Chain, a: Addr, fp: int, conds: set<int>)
    requires Marked(c)
    ensures var h := Hit(c, a, fp, conds, 0);
            Marked(StopStatus(c, a, fp, conds, 0, 0).0) <==> !(h.Some? && Loses(c, h.value))
  {
    var d, h := StopStatus(c, a, fp, conds, 0, 0).0, Hit(c, a, fp, conds, 0);
    StatusIs(c, a, fp, conds, 0, 0);
    if h.Some? && c[h.value].enable == Temporary { DisableHitMarked(c, h.value); }
    var e := AfterHit(c, h);
    if Marked(e) { MarkedSame(e, d); }
    if Marked(d) { MarkedSame(d, e); }
  }

  // ---------------------------------------------------------------------------
  // A turn

  /** breakpoint_stop_status is asked. */
  predicate Looks(cfg: Config, s: State, r: Report) {
    && (r.signal == SIGTRAP || (s.m.bpIn && (r.signal == SIGILL || r.signal == SIGEMT)))
    && !s.trap.attach && !(r.signal == SIGTRAP && (s.trap.stopAfter || s.trap.expected != 0))
    && !(cfg.decr != 0 && s.prev.pc != r.pc - cfg.decr && s.step.end != 0 && s.m.resumeAddr == 0)
    && r.pc - cfg.decr != s.m.resumeAddr
  }

  /** The turn hits a breakpoint and loses another. */
  predicate LosesOn(cfg: Config, s: State, e: Stop) {
    && e.Stopped? && Looks(cfg, s, e.report)
    && var h := Hit(s.m.chain, e.report.pc - cfg.decr, e.report.fp, e.report.conds, 0);
       h.Some? && Loses(s.m.chain, h.value)
  }

  lemma {:induction false} RemoveSame(c: Chain, m: Memory, i: nat)
    requires i <= |c|
    ensures SameButInserted(c, RemoveFrom(c, m, i).chain)
    decreases |c| - i
  {
    if i < |c| {
      if c[i].inserted && Mapped(m, c[i].address, |c[i].shadow|) {
        RemoveSame(c[i := c[i].(inserted := false)], Write(m, c[i].address, c[i].shadow), i + 1);
      } else if !c[i].inserted {
        RemoveSame(c, m, i + 1);
      }
    }
  }

  lemma {:induction false} AtBreakSame(s: State, r: Report, hit: bool)
    ensures SameButInserted(s.m.chain, AtBreak(s, r, hit).s.m.chain)
  {
    RemoveSame(s.m.chain, s.m.mem, 0);
  }

  lemma {:induction false} ReplantSame(cfg: Config, s: State, another: bool)
    ensures SameButInserted(s.m.chain, Replant(cfg, s, another).s.m.chain)
  {
    if s.m.resumeAddr == 0 && s.step.pull {
      RemoveSame(s.m.chain, s.m.mem, 0);
    } else {
      var m := InsertStep(cfg, s.m);
      InsertOnlyWanted(cfg.brk, m.chain, m.mem, 0);
    }
  }

  lemma {:induction false} RestartSame(cfg: Config, s: State, another: bool)
    ensures SameButInserted(s.m.chain, Restart(cfg, s, another).s.m.chain)
  {
    ReplantSame(cfg, s.(trap := s.trap.(inShell := false)), another);
  }

  lemma {:induction false} TurnEndSame(cfg: Config, s: State, r: Report, another: bool, random: bool)
    ensures SameButInserted(s.m.chain, TurnEnd(cfg, s, r, another, random).s.m.chain)
  {
    PlanMachine(cfg, s, r, another);
    var p := BeforeRestart(cfg, s, r, another, random);
    assert p.s.m.chain == s.m.chain;
    if !p.halt {
      var func := if random then r.func else NextFunc(s, r);
      RestartSame(cfg, p.s.(prev := Prev(p.s.now.pc, r.sp, func, r.tramp)), p.another);
    }
  }

  lemma {:induction false} HandleSame(cfg: Config, c: Cause, r: Report)
    ensures SameButInserted(c.s.m.chain, Handle(cfg, c, r).s.m.chain)
  {
    if !c.halt && !(c.random && StopsFor(cfg, c.s)) {
      var b := if c.random then Phase(c.s, false, false) else AtBreak(c.s, r, c.hit);
      AtBreakSame(c.s, r, c.hit);
      if !b.halt && !InDummy(r, b.s.now.pc) { TurnEndSame(cfg, b.s, r, b.another, c.random); }
    }
  }

  /** What finding the cause of the stop leaves of the chain. */
  lemma {:induction false} CauseChain(cfg: Config, s: State, r: Report)
    ensures var a := Arrive(s, r);
            var st := StopStatus(a.m.chain, a.now.pc - cfg.decr, r.fp, r.conds, 0, 0);
            var c := Classify(cfg, a, r, st);
            c.s.m.chain == (if Looks(cfg, s, r) then st.0 else s.m.chain)
            && (Looks(cfg, s, r) ==> c.s.now.bp == st.1 && !c.halt && (st.1 != 0 ==> !c.random))
  {
  }

  /** What is left of the marks once the cause of the stop is known. */
  lemma {:induction false} CauseMarked(cfg: Config, s: State, r: Report)
    requires Marked(s.m.chain) && Numbered(s.m.chain)
    ensures var a := Arrive(s, r);
            var c := Classify(cfg, a, r, StopStatus(a.m.chain, a.now.pc - cfg.decr, r.fp, r.conds, 0, 0));
            && (Marked(c.s.m.chain) <==> !LosesOn(cfg, s, Stopped(r)))
            && (LosesOn(cfg, s, Stopped(r)) ==> !c.random && !c.halt && c.s.now.bp != 0 && c.s.now.bp != -1)
  {
    CauseChain(cfg, s, r);
    StatusMarked(s.m.chain, r.pc - cfg.decr, r.fp, r.conds);
    StatusIs(s.m.chain, r.pc - cfg.decr, r.fp, r.conds, 0, 0);
  }

  /** A turn leaves the marks right exactly if it loses no breakpoint, and if it does, it is the last one. */
  lemma {:induction false} TurnMarked(cfg: Config, s: State, r: Report)
    requires Marked(s.m.chain) && Numbered(s.m.chain)
    ensures var n := OnReport(cfg, s, r);
            (Marked(n.s.m.chain) <==> !LosesOn(cfg, s, Stopped(r))) && (LosesOn(cfg, s, Stopped(r)) ==> n.o.Halt?)
  {
    var a := Arrive(s, r);
    var c := Classify(cfg, a, r, StopStatus(a.m.chain, a.now.pc - cfg.decr, r.fp, r.conds, 0, 0));
    TurnIs(cfg, s, r, c);
    CauseMarked(cfg, s, r);
    HandleMarked(cfg, c, r);
  }

  lemma {:induction false} HandleMarked(cfg: Config, c: Cause, r: Report)
    ensures var n := Handle(cfg, c, r);
            && (Marked(n.s.m.chain) <==> Marked(c.s.m.chain))
            && (!c.random && c.s.now.bp != 0 && c.s.now.bp != -1 ==> n.o.Halt?)
  {
    HandleSame(cfg, c, r);
    var d := Handle(cfg, c, r).s.m.chain;
    if Marked(c.s.m.chain) { MarkedSame(c.s.m.chain, d); }
    if Marked(d) { MarkedSame(d, c.s.m.chain); }
  }

  lemma {:induction false} StopMarked(cfg: Config, s: State, e: Stop)
    requires Marked(s.m.chain) && Numbered(s.m.chain)
    ensures var n := OnStop(cfg, s, e);
            (Marked(n.s.m.chain) <==> !LosesOn(cfg, s, e)) && (LosesOn(cfg, s, e) ==> n.o.Halt?)
  {
    match e
    case Stopped(r) => TurnMarked(cfg, s, r);
    case _ => MarkedSame(s.m.chain, MarkOut(s.m.chain));
  }

  // ---------------------------------------------------------------------------
  // Runs and sessions

  /** The run ends with a turn that loses a breakpoint. */
  predicate RunLoses(cfg: Config, s: State, es: seq<Stop>)
    decreases |es|
  {
    es != [] && var n := OnStop(cfg, s, es[0]);
    if n.o.Halt? then LosesOn(cfg, s, es[0]) else RunLoses(cfg, n.s, es[1..])
  }

  ghost predicate AllMarked(ns: seq<Next>) { forall i :: 0 <= i < |ns| ==> Marked(ns[i].s.m.chain) }

  /** After any run the marks are right exactly if it loses no breakpoint; they are right at all of its resumes. */
  lemma {:induction false} RunMarked(cfg: Config, code: set<Addr>, prog: Memory, s: State, es: seq<Stop>)
    requires LoopInv(cfg, code, prog, s) && WellBehaved(cfg, code, prog, s, es) && Marked(s.m.chain)
    ensures var t := Wait(cfg, s, es);
            (Marked(t.last.m.chain) <==> !RunLoses(cfg, s, es)) && AllMarked(t.resumes)
    decreases |es|
  {
    if es != [] {
      StopMarked(cfg, s, es[0]);
      var n := OnStop(cfg, s, es[0]);
      if n.o.Resume? {
        OnReportOk(cfg, code, prog, s, es[0].report);
        RunMarked(cfg, code, ProgAfter(prog, es[0]), n.s, es[1..]);
        assert Wait(cfg, s, es).resumes == [n] + Wait(cfg, n.s, es[1..]).resumes;
      }
    }
  }

  predicate CommandLoses(cfg: Config, s: State, c: Command) { Runs(s, c) && RunLoses(cfg, Begin(cfg, s, c), c.reports) }

  lemma {:induction false} BeginMarked(cfg: Config, code: set<Addr>, s: State, c: Command)
    requires Quiet(cfg, code, s) && Runs(s, c) && Sensible(cfg, code, s, c) && Marked(s.m.chain)
    ensures Marked(Begin(cfg, s, c).m.chain)
  {
    if c.Start? {
      AutoDeleteQuiet(code, s.m, 0, false);
      MarkedSame(ClearProceed(s).m.chain, MarkOut(ClearProceed(s).m.chain));
    } else {
      PrepareQuiet(code, s, c.go);
      var m := Prepare(s, c.go).m;
      InsertOnlyWanted(cfg.brk, m.chain, m.mem, 0);
      MarkedSame(m.chain, Proceed(cfg, s, c.go).s.m.chain);
    }
  }

  lemma {:induction false} NormalStopMarked(s: State)
    requires Marked(s.m.chain)
    ensures Marked(NormalStop(s).m.chain)
  {
    RemoveSame(s.m.chain, RemoveStep(s.m).mem, 0);
    MarkedSame(s.m.chain, NormalStop(s).m.chain);
  }

  /** A command that loses no breakpoint leaves the marks right; they are right at all of its resumes in any case. */
  lemma {:induction false} DoMarked(cfg: Config, code: set<Addr>, s: State, c: Command)
    requires Quiet(cfg, code, s) && Sensible(cfg, code, s, c) && Marked(s.m.chain)
    ensures !CommandLoses(cfg, s, c) ==> Marked(Do(cfg, s, c).m.chain)
    ensures AllMarked(Resumes(cfg, s, c))
  {
    match c
    case Break(a, number, e, frame, conditional) => SetBreakQuiet(code, s.m.chain, a, number, e, frame, conditional);
    case Enable(i, e) => if i < |s.m.chain| { SetEnableQuiet(code, s.m.chain, i, e); }
    case Remove(i) => DeleteQuiet(code, s.m, if i < |s.m.chain| then Some(i) else None);
    case Ignore(n, count) => IgnoreQuiet(code, s.m.chain, n, count);
    case _ => if Runs(s, c) { RunsMarked(cfg, code, s, c); }
  }

  lemma {:induction false} RunsMarked(cfg: Config, code: set<Addr>, s: State, c: Command)
    requires Quiet(cfg, code, s) && Runs(s, c) && Sensible(cfg, code, s, c) && Marked(s.m.chain)
    ensures !CommandLoses(cfg, s, c) ==> Marked(Do(cfg, s, c).m.chain)
    ensures AllMarked(Resumes(cfg, s, c))
  {
    var p := Begin(cfg, s, c);
    BeginOk(cfg, code, s, c);
    BeginMarked(cfg, code, s, c);
    RunMarked(cfg, code, ProgBegun(s, c), p, c.reports);
    if !CommandLoses(cfg, s, c) {
      RunOk(cfg, code, ProgBegun(s, c), p, c.reports);
      var t := NormalStop(TraceOf(cfg, s, c).last);
      NormalStopMarked(TraceOf(cfg, s, c).last);
      AutoDeleteQuiet(code, t.m, t.now.bp, c.commands);
    }
  }

  predicate NoneLoses(cfg: Config, s: State, cs: seq<Command>)
    decreases |cs|
  {
    cs == [] || (!CommandLoses(cfg, s, cs[0]) && NoneLoses(cfg, Do(cfg, s, cs[0]), cs[1..]))
  }

  lemma {:induction false} SessionMarked(cfg: Config, code: set<Addr>, s: State, cs: seq<Command>)
    requires Quiet(cfg, code, s) && SensibleSession(cfg, code, s, cs) && Marked(s.m.chain) && NoneLoses(cfg, s, cs)
    ensures Marked(DoAll(cfg, s, cs).m.chain) && AllMarked(ResumesAll(cfg, s, cs))
    decreases |cs|
  {
    if cs != [] {
      DoOk(cfg, code, s, cs[0]);
      DoMarked(cfg, code, s, cs[0]);
      SessionMarked(cfg, code, Do(cfg, s, cs[0]), cs[1..]);
    }
  }

  /** The inferior runs free only with a break instruction at every enabled breakpoint. */
  ghost predicate Covered(n: Next) {
    n.o.Resume? && !n.o.step && !n.s.trap.inShell ==> EnabledIsIn(n.s.m.chain)
  }

  /** For every session from right marks on, in particular from no breakpoints at all, with good step ranges and without
      a hit that loses a breakpoint: whenever the program runs free, every enabled breakpoint is in memory. */
  lemma {:induction false} SessionCovered(cfg: Config, code: set<Addr>, s: State, cs: seq<Command>)
    requires Quiet(cfg, code, s) && SensibleSession(cfg, code, s, cs) && RangesGood(cs)
    requires Marked(s.m.chain) && NoneLoses(cfg, s, cs)
    ensures forall i :: 0 <= i < |ResumesAll(cfg, s, cs)| ==> Covered(ResumesAll(cfg, s, cs)[i])
  {
    SessionMarked(cfg, code, s, cs);
    SessionSafe(cfg, code, s, cs);
    var ns := ResumesAll(cfg, s, cs);
    forall i | 0 <= i < |ns| ensures Covered(ns[i]) {
      assert SafeResume(ns[i]) && Marked(ns[i].s.m.chain);
      if ns[i].o.Resume? && !ns[i].o.step && !ns[i].s.trap.inShell { FreeRunCovered(ns[i]); }
    }
  }
}
