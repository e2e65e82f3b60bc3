/** Whenever the program runs free to an address that stepping has aimed at, there is a break instruction at that
    address: the debugger's own, or that of a breakpoint of the user's. */
module AimedRuns {
  import opened Common
  import opened Breakpoints
  import opened RunControl
  import opened RunSafety
  import opened RunSessions
  import opened CoveredRuns

  /** The step-resume breakpoint is taken for a duplicate exactly where an enabled breakpoint is. */
  predicate DupRight(m: Machine) { m.resumeAddr != 0 ==> (m.resumeDup <==> Here(m.chain, m.resumeAddr)) }

  /** The program is resumed to run to such an address, with breakpoints in. */
  predicate AimedIn(n: Next) { n.o.Resume? && !n.o.step && n.s.m.resumeAddr != 0 ==> n.s.m.bpIn }

  lemma {:induction false} SameDup(m: Machine, t: Machine)
    requires SameButInserted(m.chain, t.chain) && t.resumeAddr == m.resumeAddr && t.resumeDup == m.resumeDup
    ensures DupRight(t) <==> DupRight(m)
  {
    SameHere(m.chain, t.chain, m.resumeAddr);
  }

  lemma {:induction false} RestartAimed(cfg: Config, s: State, another: bool)
    requires DupRight(s.m) && !Starting(s)
    ensures var n := Restart(cfg, s, another); DupRight(n.s.m) && AimedIn(n)
  {
    RestartSame(cfg, s, another);
    SameDup(s.m, Restart(cfg, s, another).s.m);
  }

  lemma {:induction false} TurnEndAimed(cfg: Config, s: State, r: Report, another: bool, random: bool)
    requires DupRight(s.m) && !Starting(s)
    ensures var n := TurnEnd(cfg, s, r, another, random); DupRight(n.s.m) && AimedIn(n)
  {
    PlanMachine(cfg, s, r, another);
    var p := BeforeRestart(cfg, s, r, another, random);
    assert DupRight(p.s.m) && !Starting(p.s);
    if !p.halt {
      var func := if random then r.func else NextFunc(s, r);
      RestartAimed(cfg, p.s.(prev := Prev(p.s.now.pc, r.sp, func, r.tramp)), p.another);
    }
  }

  lemma {:induction false} AtBreakAimed(s: State, r: Report, hit: bool)
    requires DupRight(s.m)
    ensures DupRight(AtBreak(s, r, hit).s.m)
  {
    AtBreakMachine(s, r, hit);
    AtBreakSame(s, r, hit);
    var t := AtBreak(s, r, hit).s.m;
    if t.resumeAddr != 0 { SameDup(s.m, t); }
  }

  lemma {:induction false} HandleAimed(cfg: Config, c: Cause, r: Report)
    requires (GoesOn(c.s) ==> DupRight(c.s.m)) && !Starting(c.s) && (c.random ==> GoesOn(c.s))
    ensures var n := Handle(cfg, c, r); n.o.Resume? ==> DupRight(n.s.m) && AimedIn(n)
  {
    if !c.halt && !(c.random && StopsFor(cfg, c.s)) {
      var b := if c.random then Phase(c.s, false, false) else AtBreak(c.s, r, c.hit);
      if GoesOn(c.s) { AtBreakAimed(c.s, r, c.hit); }
      if !b.halt && !InDummy(r, b.s.now.pc) { TurnEndAimed(cfg, b.s, r, b.another, c.random); }
    }
  }

  lemma {:induction false} CauseAimed(cfg: Config, s: State, r: Report)
    requires DupRight(s.m) && Numbered(s.m.chain) && !Starting(s)
    ensures var a := Arrive(s, r);
            var c := Classify(cfg, a, r, StopStatus(a.m.chain, a.now.pc - cfg.decr, r.fp, r.conds, 0, 0));
            && (GoesOn(c.s) ==> DupRight(c.s.m)) && !Starting(c.s) && (c.random ==> GoesOn(c.s))
  {
    CauseChain(cfg, s, r);
    StopStatusOk(s.m.chain, r.pc - cfg.decr, r.fp, r.conds, 0, 0);
    var a := Arrive(s, r);
    var st := StopStatus(a.m.chain, a.now.pc - cfg.decr, r.fp, r.conds, 0, 0);
    var c := Classify(cfg, a, r, st);
    ClassifyFrame(cfg, a, r, st);
    if GoesOn(c.s) {
      assert forall i :: 0 <= i < |s.m.chain| ==>
               On(c.s.m.chain[i], s.m.resumeAddr) == On(s.m.chain[i], s.m.resumeAddr);
    }
  }

  /** Nothing is aimed at while the shell runs. */
  lemma {:induction false} ShellAimed(cfg: Config, s: State, r: Report)
    requires FlagsOk(s) && Starting(s)
    ensures OnReport(cfg, s, r).s.m.resumeAddr == 0
  {
    ShellTurn(cfg, s, r);
  }

  lemma {:induction false} TurnAimed(cfg: Config, s: State, r: Report)
    requires DupRight(s.m) && Numbered(s.m.chain) && !Starting(s)
    ensures var n := OnReport(cfg, s, r); n.o.Resume? ==> DupRight(n.s.m) && AimedIn(n)
  {
    var a := Arrive(s, r);
    var c := Classify(cfg, a, r, StopStatus(a.m.chain, a.now.pc - cfg.decr, r.fp, r.conds, 0, 0));
    TurnIs(cfg, s, r, c);
    CauseAimed(cfg, s, r);
    HandleAimed(cfg, c, r);
  }

  // ---------------------------------------------------------------------------
  // Memory

  /** The break instruction is in memory at `a`. */
  predicate BreakAt(cfg: Config, m: Memory, a: Addr) { Mapped(m, a, |cfg.brk|) && Bytes(m, a, |cfg.brk|) == cfg.brk }

  lemma {:induction false} SiteBreaks(cfg: Config, code: set<Addr>, prog: Memory, c: Chain, m: Memory, extra: set<Addr>,
                                      a: Addr)
    requires Consistent(cfg.brk, prog, code, c, m, extra) && a in Sites(c) + extra
    ensures BreakAt(cfg, m, a)
  {
    forall x | a <= x < a + |cfg.brk| ensures x in m && m[x] == cfg.brk[x - a] { assert Covers(|cfg.brk|, a, x); }
  }

  lemma {:induction false} HereIn(c: Chain, a: Addr)
    requires Marked(c) && AllIn(c) && Here(c, a)
    ensures a in Sites(c)
  {
    MarkedCovers(c);
    var i :| 0 <= i < |c| && On(c[i], a);
    var j :| 0 <= j < |c| && c[j].inserted && c[j].address == c[i].address;
    assert c[j].address in Sites(c);
  }

  /** With right marks and breakpoints in, the program cannot miss the address. */
  lemma {:induction false} AimedBreaks(cfg: Config, code: set<Addr>, prog: Memory, m: Machine)
    requires MachineOk(cfg, code, prog, m) && m.bpIn && DupRight(m) && Marked(m.chain) && m.resumeAddr != 0
    ensures BreakAt(cfg, m.mem, m.resumeAddr)
  {
    if m.resumeDup { HereIn(m.chain, m.resumeAddr); }
    assert m.resumeAddr in Sites(m.chain) + Extra(m);
    SiteBreaks(cfg, code, prog, m.chain, m.mem, Extra(m), m.resumeAddr);
  }

  /** A resume that lets the program run to the address finds the break instruction there. */
  predicate AimedRight(cfg: Config, n: Next) {
    n.o.Resume? && !n.o.step && n.s.m.resumeAddr != 0 ==> BreakAt(cfg, n.s.m.mem, n.s.m.resumeAddr)
  }

  predicate AllAimed(cfg: Config, ns: seq<Next>) { forall i :: 0 <= i < |ns| ==> AimedRight(cfg, ns[i]) }

  /** In every run from right marks on: each resume that is to run to an aimed address does. */
  lemma {:induction false} RunAimed(cfg: Config, code: set<Addr>, prog: Memory, s: State, es: seq<Stop>)
    requires LoopInv(cfg, code, prog, s) && WellBehaved(cfg, code, prog, s, es)
    requires Marked(s.m.chain) && DupRight(s.m)
    ensures AllAimed(cfg, Wait(cfg, s, es).resumes)
    decreases |es|
  {
    if es != [] && es[0].Stopped? && OnStop(cfg, s, es[0]).o.Resume? {
      var r, n, q := es[0].report, OnStop(cfg, s, es[0]), ProgAfter(prog, es[0]);
      OnReportOk(cfg, code, prog, s, r);
      StopMarked(cfg, s, es[0]);
      if Starting(s) { ShellAimed(cfg, s, r); } else { TurnAimed(cfg, s, r); }
      if !n.o.step && n.s.m.resumeAddr != 0 { AimedBreaks(cfg, code, q, n.s.m); }
      RunAimed(cfg, code, q, n.s, es[1..]);
      assert Wait(cfg, s, es).resumes == [n] + Wait(cfg, n.s, es[1..]).resumes;
    }
  }

  lemma {:induction false} CommandAimed(cfg: Config, code: set<Addr>, s: State, c: Command)
    requires Quiet(cfg, code, s) && Sensible(cfg, code, s, c) && Marked(s.m.chain)
    ensures AllAimed(cfg, Resumes(cfg, s, c))
  {
    if Runs(s, c) {
      BeginOk(cfg, code, s, c);
      BeginMarked(cfg, code, s, c);
      assert Begin(cfg, s, c).m.resumeAddr == 0 by {
        if c.Run? { PrepareQuiet(code, s, c.go); }
      }
      RunAimed(cfg, code, ProgBegun(s, c), Begin(cfg, s, c), c.reports);
    }
  }

  /** The same for every session without a hit that loses a breakpoint: what stepping aims at is never missed. */
  lemma {:induction false} SessionAimed(cfg: Config, code: set<Addr>, s: State, cs: seq<Command>)
    requires Quiet(cfg, code, s) && SensibleSession(cfg, code, s, cs) && Marked(s.m.chain) && NoneLoses(cfg, s, cs)
    ensures AllAimed(cfg, ResumesAll(cfg, s, cs))
    decreases |cs|
  {
    if cs != [] {
      DoOk(cfg, code, s, cs[0]);
      DoMarked(cfg, code, s, cs[0]);
      CommandAimed(cfg, code, s, cs[0]);
      SessionAimed(cfg, code, Do(cfg, s, cs[0]), cs[1..]);
    }
  }
}
