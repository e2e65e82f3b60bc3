/** Whole runs and whole debugging sessions. */
module RunSessions {
  import opened Common
  import opened Breakpoints
  import opened RunControl
  import opened RunSafety

  // ---------------------------------------------------------------------------
  // Runs

  /** Every report of the run is one a well-behaved program can give. */
  ghost predicate WellBehaved(cfg: Config, code: set<Addr>, prog: Memory, s: State, es: seq<Stop>)
    decreases |es|
  {
    es == [] ||
    ((es[0].Stopped? ==> ReportOk(cfg, code, prog, s, es[0].report))
     && var n := OnStop(cfg, s, es[0]);
        n.o.Resume? ==> WellBehaved(cfg, code, ProgAfter(prog, es[0]), n.s, es[1..]))
  }

  /** The program's own memory after the reports the run took. */
  ghost function ProgAtEnd(cfg: Config, prog: Memory, s: State, es: seq<Stop>): (r: Memory)
    decreases |es|
  {
    if es == [] then prog
    else
      var n := OnStop(cfg, s, es[0]);
      if n.o.Halt? then ProgAfter(prog, es[0]) else ProgAtEnd(cfg, ProgAfter(prog, es[0]), n.s, es[1..])
  }

  /** The state in which the inferior was last resumed. */
  function LastResumed(s: State, t: Trace): (r: State) {
    if t.resumes == [] then s else t.resumes[|t.resumes| - 1].s
  }

  predicate AllSafe(ns: seq<Next>) { forall i :: 0 <= i < |ns| ==> SafeResume(ns[i]) }

  /** What a program that is gone leaves: a chain that nothing is said to be in memory for. */
  predicate Gone(cfg: Config, code: set<Addr>, s: State) {
    !s.alive && QuietChain(code, s.m.chain) && |s.m.resumeShadow| == |cfg.brk|
  }

  lemma {:induction false} StopChain(brk: seq<Byte>, prog: Memory, code: set<Addr>, c: Chain, d: Chain, m: Memory,
                                     extra: set<Addr>)
    requires Consistent(brk, prog, code, c, m, extra) && SameButInserted(c, d) && NoneIn(d) && Numbered(c)
    ensures QuietChain(code, d)
  {
    forall i, j | 0 <= i < j < |d| && On(d[i], d[j].address) && d[j].enable != Disabled
      ensures d[i].duplicate || d[j].duplicate
    {
      if !d[i].duplicate && !d[j].duplicate {
        assert Live(c[i]) && Live(c[j]);
      }
    }
  }

  lemma {:induction false} GoneOk(cfg: Config, code: set<Addr>, prog: Memory, s: State, e: Stop)
    requires LoopInv(cfg, code, prog, s) && !e.Stopped?
    ensures Gone(cfg, code, OnStop(cfg, s, e).s)
  {
    var d := MarkOut(s.m.chain);
    if Starting(s) {
      assert d == s.m.chain;
    } else {
      StopChain(cfg.brk, prog, code, s.m.chain, d, s.m.mem, Extra(s.m));
    }
  }

  /** For every stream of reports, however it ends, memory is the program's own but for the breakpoints the debugger
      knows of; with a good step range no resume lets the inferior run free without its breakpoints. The step-resume
      breakpoint is left without a shadow only by a run that ends on the very single step that postponed it. */
  lemma {:induction false} RunSafe(cfg: Config, code: set<Addr>, prog: Memory, s: State, es: seq<Stop>)
    requires LoopInv(cfg, code, prog, s) && WellBehaved(cfg, code, prog, s, es)
    ensures var t, p := Wait(cfg, s, es), ProgAtEnd(cfg, prog, s, es);
            && (RangeInv(s) ==> AllSafe(t.resumes))
            && (if !t.halted then LoopInv(cfg, code, p, t.last)
                else if t.last.alive then StopInv(cfg, code, p, LastResumed(s, t), t.last)
                else Gone(cfg, code, t.last))
    decreases |es|
  {
    if es != [] {
      if es[0].Stopped? {
        OnReportOk(cfg, code, prog, s, es[0].report);
      } else {
        GoneOk(cfg, code, prog, s, es[0]);
      }
      var n := OnStop(cfg, s, es[0]);
      if n.o.Resume? {
        RunSafe(cfg, code, ProgAfter(prog, es[0]), n.s, es[1..]);
        var t := Wait(cfg, n.s, es[1..]);
        assert Wait(cfg, s, es).resumes == [n] + t.resumes;
      }
    }
  }

  // ---------------------------------------------------------------------------
  // Stopping

  /** The pending step-resume breakpoint has a shadow that is not what the program has there. */
  ghost predicate Stale(cfg: Config, prog: Memory, m: Machine) {
    && Postponed(m) && Mapped(prog, m.resumeAddr, |cfg.brk|)
    && m.resumeShadow != Bytes(prog, m.resumeAddr, |cfg.brk|)
  }

  lemma {:induction false} WriteIsSame(prog: Memory, a: Addr, bytes: seq<Byte>)
    requires Mapped(prog, a, |bytes|)
    ensures Write(prog, a, bytes) == prog <==> bytes == Bytes(prog, a, |bytes|)
  {
    if Write(prog, a, bytes) == prog {
      forall k | 0 <= k < |bytes| ensures bytes[k] == Bytes(prog, a, |bytes|)[k] {
        assert Write(prog, a, bytes)[a + k] == bytes[k];
      }
    } else if bytes == Bytes(prog, a, |bytes|) {
      WriteSame(prog, a, |bytes|);
    }
  }

  /** normal_stop takes every breakpoint out, and leaves exactly the program's own memory if and only if it does
      not write back a shadow that was never read. */
  lemma {:induction false} NormalStopRestores(cfg: Config, code: set<Addr>, prog: Memory, s: State)
    requires s.alive && MemOk(cfg, code, prog, s.m)
    ensures var r := NormalStop(s);
            && NoneIn(r.m.chain) && !r.m.bpIn && SameButInserted(s.m.chain, r.m.chain)
            && (r.m.mem == prog <==> !Stale(cfg, prog, s.m))
  {
    if Postponed(s.m) {
      NoneInPlain(cfg.brk, prog, code, s.m.chain, s.m.mem);
      WriteIsSame(prog, s.m.resumeAddr, s.m.resumeShadow);
    } else {
      RemoveStepOk(cfg, code, prog, s.m);
      var m := RemoveStep(s.m);
      if s.m.bpIn {
        RemoveAllRestores(cfg.brk, prog, code, m.chain, m.mem, {}, 0);
        var p := RemoveFrom(m.chain, m.mem, 0);
        NoneInPlain(cfg.brk, prog, code, p.chain, p.mem);
      } else {
        NoneInPlain(cfg.brk, prog, code, m.chain, m.mem);
      }
    }
  }

  // ---------------------------------------------------------------------------
  // Sessions

  /** Between commands: nothing is in memory, and every breakpoint is at an instruction of the program, or of the one
      that the shell is to start. */
  ghost predicate Quiet(cfg: Config, code: set<Addr>, s: State) {
    && |s.m.resumeShadow| == |cfg.brk| && !s.m.bpIn && QuietChain(code, s.m.chain)
    && (s.alive && !Starting(s) ==> CodeOk(cfg.brk, s.m.mem, code))
  }

  /** A running command goes from proceed, or from start_inferior, through the wait loop to normal_stop. */
  datatype Command =
    | Break(a: Addr, number: int, enable: Enable, frame: int, conditional: bool)
    | Enable(i: nat, enable: Enable)
    | Remove(i: nat)
    | Ignore(number: int, count: int)
    | Run(go: Go, reports: seq<Stop>, commands: bool)
    | Start(shell: Memory, reports: seq<Stop>, commands: bool)

  /** Where a running command begins. Without a program only Start does anything. */
  function Begin(cfg: Config, s: State, c: Command): (p: State)
    requires c.Run? || c.Start?
  {
    if c.Start? then StartInferior(s, c.shell) else Proceed(cfg, s, c.go).s
  }

  predicate Runs(s: State, c: Command) { c.Start? || (c.Run? && s.alive) }

  /** The run that a command makes. */
  function TraceOf(cfg: Config, s: State, c: Command): (t: Trace)
    requires Runs(s, c)
  {
    Wait(cfg, Begin(cfg, s, c), c.reports)
  }

  /** What a command does to the debugger. */
  function Do(cfg: Config, s: State, c: Command): (r: State) {
    match c
    case Break(a, number, e, frame, conditional) =>
      s.(m := s.m.(chain := SetBreak(s.m.chain, a, number, e, frame, conditional)))
    case Enable(i, e) => if i < |s.m.chain| then s.(m := s.m.(chain := SetEnable(s.m.chain, i, e))) else s
    case Remove(i) => s.(m := DeleteFound(s.m, if i < |s.m.chain| then Some(i) else None))
    case Ignore(n, count) => s.(m := s.m.(chain := SetIgnore(s.m.chain, n, count)))
    case _ =>
      if !Runs(s, c) then s
      else
        var t := NormalStop(TraceOf(cfg, s, c).last);
        t.(m := AutoDelete(t.m, t.now.bp, c.commands))
  }

  /** The memory a running command begins with. */
  ghost function ProgBegun(s: State, c: Command): (r: Memory) { if c.Start? then c.shell else s.m.mem }

  /** What the program makes of it. */
  ghost function ProgDone(cfg: Config, s: State, c: Command): (r: Memory) {
    if Runs(s, c) then ProgAtEnd(cfg, ProgBegun(s, c), Begin(cfg, s, c), c.reports) else s.m.mem
  }

  /** The addresses that the command's own breakpoints are to go to are instructions. */
  predicate GoOk(code: set<Addr>, g: Go) { forall i :: 0 <= i < |g.breaks| ==> g.breaks[i].a in code }

  /** What a command may be: breakpoints at instructions, and whole runs of a well-behaved program. A shell that was
      stopped before it executed the program is not continued. */
  ghost predicate Sensible(cfg: Config, code: set<Addr>, s: State, c: Command) {
    match c
    case Break(a, number, e, _, _) => a in code && e != Disabled && number > 0
    case Enable(_, _) => true
    case Remove(_) => true
    case Ignore(_, _) => true
    case _ =>
      Runs(s, c) ==>
        && (c.Run? ==> !Starting(s) && GoOk(code, c.go))
        && WellBehaved(cfg, code, ProgBegun(s, c), Begin(cfg, s, c), c.reports) && TraceOf(cfg, s, c).halted
  }

  /** The commands for which every resume is safe. */
  predicate RangeSafe(g: Go) { g.end == 0 || g.end == 1 || g.start != 0 || g.over >= 0 }

  lemma {:induction false} SetBreakQuiet(code: set<Addr>, c: Chain, a: Addr, number: int, e: Enable, frame: int,
                                         conditional: bool)
    requires QuietChain(code, c) && a in code && e != Disabled && (number > 0 || number == MOMENTARY)
    ensures QuietChain(code, SetBreak(c, a, number, e, frame, conditional))
    ensures Marked(c) ==> Marked(SetBreak(c, a, number, e, frame, conditional))
  {
    SetRawMarked(c, a);
    CheckDuplicatesMarks(c + [Breakpoint(0, a, Enabled, 0, 0, false, [], false, false)], a);
    var d, r := SetRaw(c, a), SetBreak(c, a, number, e, frame, conditional);
    assert forall i :: 0 <= i < |d| ==>
      && (d[i].enable != Disabled <==> r[i].enable != Disabled) && d[i].address == r[i].address
      && d[i].duplicate == r[i].duplicate && d[i].inserted == r[i].inserted;
    if Marked(c) { MarkedSame(d, r); }
  }

  lemma {:induction false} SetEnableQuiet(code: set<Addr>, c: Chain, i: nat, e: Enable)
    requires QuietChain(code, c) && i < |c|
    ensures QuietChain(code, SetEnable(c, i, e)) && (Marked(c) ==> Marked(SetEnable(c, i, e)))
  {
    SetEnableMarked(c, i, e);
    CheckDuplicatesMarks(c[i := c[i].(enable := e)], c[i].address);
  }

  lemma {:induction false} IgnoreQuiet(code: set<Addr>, c: Chain, n: int, count: int)
    requires QuietChain(code, c)
    ensures QuietChain(code, SetIgnore(c, n, count)) && (Marked(c) ==> Marked(SetIgnore(c, n, count)))
  {
    var d := SetIgnore(c, n, count);
    assert forall i :: 0 <= i < |c| ==> d[i] == c[i].(ignoreCount := d[i].ignoreCount);
    if Marked(c) { MarkedSame(c, d); }
  }

  lemma {:induction false} DeleteQuiet(code: set<Addr>, m: Machine, f: Option<nat>)
    requires Orderly(code, m.chain) && (f.Some? ==> f.value < |m.chain|)
    ensures var r := DeleteFound(m, f);
            && Orderly(code, r.chain) && (NoneIn(m.chain) ==> NoneIn(r.chain) && r == m.(chain := r.chain))
            && r == m.(chain := r.chain, mem := r.mem) && (Marked(m.chain) ==> Marked(r.chain))
  {
    if f.Some? {
      DeleteMarked(m.chain, m.mem, f.value);
      CheckDuplicatesMarks(m.chain[..f.value] + m.chain[f.value + 1..], m.chain[f.value].address);
    }
  }

  lemma {:induction false} AutoDeleteQuiet(code: set<Addr>, m: Machine, bp: int, commands: bool)
    requires Orderly(code, m.chain)
    ensures var r := AutoDelete(m, bp, commands);
            && Orderly(code, r.chain) && (NoneIn(m.chain) ==> NoneIn(r.chain) && r == m.(chain := r.chain))
            && r == m.(chain := r.chain, mem := r.mem) && (Marked(m.chain) ==> Marked(r.chain))
  {
    var f := if bp == 0 then None else FindNumber(m.chain, bp, 0);
    DeleteQuiet(code, m, f);
    var t := if f.Some? && m.chain[f.value].enable == Delete then DeleteFound(m, f) else m;
    DeleteQuiet(code, t, FindNumber(t.chain, MOMENTARY, 0));
  }

  lemma {:induction false} MomentaryQuiet(code: set<Addr>, c: Chain, ts: seq<Momentary>)
    requires QuietChain(code, c) && forall i :: 0 <= i < |ts| ==> ts[i].a in code
    ensures QuietChain(code, SetMomentary(c, ts)) && (Marked(c) ==> Marked(SetMomentary(c, ts)))
    decreases |ts|
  {
    if ts != [] {
      SetBreakQuiet(code, c, ts[0].a, MOMENTARY, Delete, ts[0].frame, false);
      MomentaryQuiet(code, SetBreak(c, ts[0].a, MOMENTARY, Delete, ts[0].frame, false), ts[1..]);
    }
  }

  /** What comes before proceed changes the chain only. */
  lemma {:induction false} PrepareQuiet(code: set<Addr>, s: State, g: Go)
    requires QuietChain(code, s.m.chain) && GoOk(code, g)
    ensures var c := Prepare(s, g).m;
            QuietChain(code, c.chain) && c == s.m.(chain := c.chain, resumeAddr := 0)
            && (Marked(s.m.chain) ==> Marked(c.chain))
  {
    AutoDeleteQuiet(code, s.m, 0, false);
    MomentaryQuiet(code, ClearProceed(s).m.chain, g.breaks);
  }

  /** proceed starts every run in the loop invariant and resumes safely. */
  lemma {:induction false} ProceedOk(cfg: Config, code: set<Addr>, s: State, g: Go)
    requires Quiet(cfg, code, s) && s.alive && !Starting(s) && GoOk(code, g)
    ensures var n := Proceed(cfg, s, g);
            && n.o.Resume? && SafeResume(n) && LoopInv(cfg, code, s.m.mem, n.s) && !Starting(n.s)
            && (RangeSafe(g) <==> RangeInv(n.s))
  {
    PrepareQuiet(code, s, g);
    var m := Prepare(s, g).m;
    QuietSettled(cfg, code, s.m.mem, m);
    InsertBothOk(cfg, code, s.m.mem, m);
    assert InsertStep(cfg, m) == m;
  }

  /** start_inferior starts in the loop invariant whatever shell runs and whatever the last program left behind: where
      breakpoints can go is asked of the program only. */
  lemma {:induction false} StartInferiorOk(cfg: Config, code: set<Addr>, shell: Memory, s: State)
    requires |s.m.resumeShadow| == |cfg.brk| && Orderly(code, s.m.chain)
    ensures var t := StartInferior(s, shell);
            LoopInv(cfg, code, shell, t) && Starting(t) && RangeInv(t)
  {
    AutoDeleteQuiet(code, s.m, 0, false);
    var c := ClearProceed(s).m.chain;
    var d := MarkOut(c);
    assert forall i :: 0 <= i < |d| ==> d[i] == c[i].(inserted := false);
  }

  /** A run, from its beginning to normal_stop: memory is what the program made of it exactly if the run did not end on
      a postponed step with a stale shadow. */
  lemma {:induction false} RunOk(cfg: Config, code: set<Addr>, prog: Memory, p: State, es: seq<Stop>)
    requires LoopInv(cfg, code, prog, p) && WellBehaved(cfg, code, prog, p, es) && Wait(cfg, p, es).halted
    ensures var t := Wait(cfg, p, es).last;
            var q, r := ProgAtEnd(cfg, prog, p, es), NormalStop(t);
            Quiet(cfg, code, r) && (t.alive ==> (r.m.mem == q <==> !Stale(cfg, q, t.m)))
  {
    RunSafe(cfg, code, prog, p, es);
    var t, q := Wait(cfg, p, es).last, ProgAtEnd(cfg, prog, p, es);
    if t.alive && !Starting(t) {
      NormalStopRestores(cfg, code, q, t);
      StopChain(cfg.brk, q, code, t.m.chain, NormalStop(t).m.chain, t.m.mem, Extra(t.m));
    }
  }

  /** The resumes a command makes. */
  function Resumes(cfg: Config, s: State, c: Command): (r: seq<Next>) {
    if !Runs(s, c) then [] else (if c.Run? then [Proceed(cfg, s, c.go)] else []) + TraceOf(cfg, s, c).resumes
  }

  predicate RangeGood(c: Command) { c.Run? ==> RangeSafe(c.go) }

  lemma {:induction false} BeginOk(cfg: Config, code: set<Addr>, s: State, c: Command)
    requires Quiet(cfg, code, s) && Runs(s, c) && Sensible(cfg, code, s, c)
    ensures var p := Begin(cfg, s, c);
            LoopInv(cfg, code, ProgBegun(s, c), p) && (RangeGood(c) ==> RangeInv(p))
  {
    if c.Start? {
      StartInferiorOk(cfg, code, c.shell, s);
    } else {
      ProceedOk(cfg, code, s, c.go);
    }
  }

  /** The user's command leaves in memory what the program made of it. */
  ghost predicate Keeps(cfg: Config, s: State, c: Command) {
    Do(cfg, s, c).alive ==> Do(cfg, s, c).m.mem == ProgDone(cfg, s, c)
  }

  /** The run of a command ends on a postponed step, with a shadow that is not what the program has there. */
  ghost predicate EndsStale(cfg: Config, s: State, c: Command) {
    Runs(s, c) && TraceOf(cfg, s, c).last.alive && Stale(cfg, ProgDone(cfg, s, c), TraceOf(cfg, s, c).last.m)
  }

  /** Every command keeps the session quiet, and memory is the program's own after it exactly if it does not end
      stale. */
  lemma {:induction false} DoOk(cfg: Config, code: set<Addr>, s: State, c: Command)
    requires Quiet(cfg, code, s) && Sensible(cfg, code, s, c)
    ensures Quiet(cfg, code, Do(cfg, s, c)) && (Keeps(cfg, s, c) <==> !EndsStale(cfg, s, c))
  {
    match c
    case Break(a, number, e, frame, conditional) => SetBreakQuiet(code, s.m.chain, a, number, e, frame, conditional);
    case Enable(i, e) => if i < |s.m.chain| { SetEnableQuiet(code, s.m.chain, i, e); }
    case Remove(i) => DeleteQuiet(code, s.m, if i < |s.m.chain| then Some(i) else None);
    case Ignore(n, count) => IgnoreQuiet(code, s.m.chain, n, count);
    case _ =>
      if Runs(s, c) {
        BeginOk(cfg, code, s, c);
        RunOk(cfg, code, ProgBegun(s, c), Begin(cfg, s, c), c.reports);
        var t := NormalStop(TraceOf(cfg, s, c).last);
        AutoDeleteQuiet(code, t.m, t.now.bp, c.commands);
      }
  }

  /** With a good step range every resume that a command makes is safe. */
  lemma {:induction false} ResumesOk(cfg: Config, code: set<Addr>, s: State, c: Command)
    requires Quiet(cfg, code, s) && Sensible(cfg, code, s, c) && RangeGood(c)
    ensures AllSafe(Resumes(cfg, s, c))
  {
    if Runs(s, c) {
      BeginOk(cfg, code, s, c);
      RunSafe(cfg, code, ProgBegun(s, c), Begin(cfg, s, c), c.reports);
      if c.Run? { ProceedOk(cfg, code, s, c.go); }
    }
  }

  ghost predicate SensibleSession(cfg: Config, code: set<Addr>, s: State, cs: seq<Command>)
    decreases |cs|
  {
    cs == [] || (Sensible(cfg, code, s, cs[0]) && SensibleSession(cfg, code, Do(cfg, s, cs[0]), cs[1..]))
  }

  function DoAll(cfg: Config, s: State, cs: seq<Command>): (r: State)
    decreases |cs|
  {
    if cs == [] then s else DoAll(cfg, Do(cfg, s, cs[0]), cs[1..])
  }

  ghost predicate AllKeep(cfg: Config, s: State, cs: seq<Command>)
    decreases |cs|
  {
    cs == [] || (Keeps(cfg, s, cs[0]) && AllKeep(cfg, Do(cfg, s, cs[0]), cs[1..]))
  }

  ghost predicate NoneStale(cfg: Config, s: State, cs: seq<Command>)
    decreases |cs|
  {
    cs == [] || (!EndsStale(cfg, s, cs[0]) && NoneStale(cfg, Do(cfg, s, cs[0]), cs[1..]))
  }

  function ResumesAll(cfg: Config, s: State, cs: seq<Command>): (r: seq<Next>)
    decreases |cs|
  {
    if cs == [] then [] else Resumes(cfg, s, cs[0]) + ResumesAll(cfg, Do(cfg, s, cs[0]), cs[1..])
  }

  predicate RangesGood(cs: seq<Command>) { forall i :: 0 <= i < |cs| ==> RangeGood(cs[i]) }

  lemma {:induction false} SessionResumesOk(cfg: Config, code: set<Addr>, s: State, cs: seq<Command>)
    requires Quiet(cfg, code, s) && SensibleSession(cfg, code, s, cs) && RangesGood(cs)
    ensures AllSafe(ResumesAll(cfg, s, cs))
    decreases |cs|
  {
    if cs != [] {
      DoOk(cfg, code, s, cs[0]);
      ResumesOk(cfg, code, s, cs[0]);
      SessionResumesOk(cfg, code, Do(cfg, s, cs[0]), cs[1..]);
    }
  }

  lemma {:induction false} SessionKeeps(cfg: Config, code: set<Addr>, s: State, cs: seq<Command>)
    requires Quiet(cfg, code, s) && SensibleSession(cfg, code, s, cs)
    ensures Quiet(cfg, code, DoAll(cfg, s, cs)) && (AllKeep(cfg, s, cs) <==> NoneStale(cfg, s, cs))
    decreases |cs|
  {
    if cs != [] {
      DoOk(cfg, code, s, cs[0]);
      SessionKeeps(cfg, code, Do(cfg, s, cs[0]), cs[1..]);
    }
  }

  /** For every session of setting, deleting, enabling, disabling and ignoring breakpoints, starting programs,
      continuing and stepping, also over exits and stops in the shell: no breakpoint is in memory at any prompt, and
      memory is always the program's own exactly if no command ends stale. With good step ranges every resume is
      safe. */
  lemma {:induction false} SessionSafe(cfg: Config, code: set<Addr>, s: State, cs: seq<Command>)
    requires Quiet(cfg, code, s) && SensibleSession(cfg, code, s, cs)
    ensures Quiet(cfg, code, DoAll(cfg, s, cs)) && NoneIn(DoAll(cfg, s, cs).m.chain)
    ensures AllKeep(cfg, s, cs) <==> NoneStale(cfg, s, cs)
    ensures RangesGood(cs) ==> AllSafe(ResumesAll(cfg, s, cs))
  {
    SessionKeeps(cfg, code, s, cs);
    if RangesGood(cs) { SessionResumesOk(cfg, code, s, cs); }
  }

  /** With the duplicate flags right, running free means running with a break instruction at every enabled
      breakpoint. */
  lemma {:induction false} FreeRunCovered(n: Next)
    requires SafeResume(n) && n.o.Resume? && !n.o.step && !n.s.trap.inShell && Marked(n.s.m.chain)
    ensures EnabledIsIn(n.s.m.chain)
  {
    MarkedCovers(n.s.m.chain);
  }

  // ---------------------------------------------------------------------------
  // The two conditions are needed

  const Plain := Config([204], 0, {2}, {}, a => Place(100, false, true, 100, 100, 0))

  function PlainReport(signal: int, pc: Addr, func: Addr, tramp: bool, to: Addr): (r: Report) {
    Report(signal, pc, 1000, 2000, func, tramp, func, true, to, to, to, 0, false, {}, map[], None)
  }

  const OneBreak := Breakpoint(1, 100, Enabled, 0, 0, true, [], false, false)

  /** `next` typed at pc 50 with a conditional breakpoint at 100, and nothing else going on. */
  function BeforeNext(prog: Memory): (r: State) {
    State(Machine([OneBreak], prog, false, 0, [0], false, false), true, Traps(0, false, false, false),
          Step(0, 0, 0, 0, false), Now(50, 0, 0, false), Prev(50, 1000, 50, false))
  }

  const NextCommand := Go(50, 60, 0, 1, [], None, false, None, 1, 1000, 50, false)

  function BreakIn(prog: Memory): (r: Breakpoint)
    requires 100 in prog
  {
    OneBreak.(shadow := [prog[100]], inserted := true)
  }

  lemma {:induction false} NextProceeds(prog: Memory)
    requires 52 in prog && 100 in prog
    ensures Proceed(Plain, BeforeNext(prog), NextCommand).s
         == State(Machine([BreakIn(prog)], Write(prog, 100, [204]), true, 0, [0], false, false), true,
                  Traps(0, false, false, false), Step(50, 60, 0, 1, false), Now(50, 0, 0, false),
                    Prev(50, 1000, 50, false))
  {
    NextInserts(prog);
  }

  lemma {:induction false} NextInserts(prog: Memory)
    requires 100 in prog
    ensures InsertFrom([204], [OneBreak], prog, 0) == Planting([BreakIn(prog)], Write(prog, 100, [204]), true)
  {
    assert Bytes(prog, 100, 1) == [prog[100]];
    var b := BreakIn(prog);
    assert [OneBreak][0 := b] == [b];
    assert InsertFrom([204], [b], Write(prog, 100, [204]), 1) == Planting([b], Write(prog, 100, [204]), true);
  }

  lemma {:induction false} PullOne(prog: Memory, b: Breakpoint)
    requires 52 in prog && 100 in prog && b == OneBreak.(shadow := [prog[100]], inserted := true)
    ensures RemoveFrom([b], Write(prog, 100, [204]), 0) == Planting([b.(inserted := false)], prog, true)
  {
    assert Write(Write(prog, 100, [204]), 100, [prog[100]]) == prog;
    assert [b][0 := b.(inserted := false)] == [b.(inserted := false)];
    assert RemoveFrom([b.(inserted := false)], prog, 1) == Planting([b.(inserted := false)], prog, true);
  }

  /** The function at 100 is entered; its breakpoint's condition is false. */
  lemma {:induction false} NextEnters(prog: Memory)
    requires 52 in prog && 100 in prog
    ensures var n := OnReport(Plain, Proceed(Plain, BeforeNext(prog), NextCommand).s,
                              PlainReport(SIGTRAP, 100, 100, false, 52));
            n.o == Resume(true, 0) && n.s.alive && !n.s.trap.attach && !n.s.trap.inShell
            && n.s.m == Machine([OneBreak.(shadow := [prog[100]])], prog, false, 52, [0], false, false)
  {
    var b := OneBreak.(shadow := [prog[100]], inserted := true);
    NextProceeds(prog);
    PullOne(prog, b);
    var p, r := Proceed(Plain, BeforeNext(prog), NextCommand).s, PlainReport(SIGTRAP, 100, 100, false, 52);
    var a := Arrive(p, r);
    assert a.m.mem == p.m.mem;
    assert StopStatus([b], 100, 2000, {}, 1, -1) == ([b], -1);
    var st := StopStatus([b], 100, 2000, {}, 0, 0);
    assert st == ([b], -1);
    var c := Classify(Plain, a, r, st);
    assert c == Cause(a.(now := Now(100, SIGTRAP, -1, false)), false, false, false);
    var k := AtBreak(c.s, r, false);
    assert k == Phase(c.s.(m := Machine([b.(inserted := false)], prog, false, 0, [0], false, false)), true, false);
    assert StepPlan(k.s, r) == RunTo(52, CallSkipped);
    assert !Here([b.(inserted := false)], 52);
  }

  /** A conditional breakpoint on a function stepped over: the step-resume breakpoint is aimed while breakpoints
      are out.  An interrupt on the next single step makes normal_stop overwrite the program with a shadow that was
      never read. */
  lemma {:induction false} StaleShadowRun(prog: Memory)
    requires 52 in prog && 100 in prog && prog[52] != 0
    ensures var es := [Stopped(PlainReport(SIGTRAP, 100, 100, false, 52)),
                       Stopped(PlainReport(2, 101, 100, false, 52))];
            var t := Wait(Plain, Proceed(Plain, BeforeNext(prog), NextCommand).s, es);
            t.halted && t.last.alive && NormalStop(t.last).m.mem == prog[52 := 0]
  {
    NextEnters(prog);
    var p, r1, r2 := Proceed(Plain, BeforeNext(prog), NextCommand).s, PlainReport(SIGTRAP, 100, 100, false, 52),
                     PlainReport(2, 101, 100, false, 52);
    var s := OnReport(Plain, p, r1).s;
    var a := Arrive(s, r2);
    assert a.m.mem == prog;
    assert OnReport(Plain, s, r2) == Next(a, Halt);
    var es := [Stopped(r1), Stopped(r2)];
    assert es[1..][0] == Stopped(r2);
    assert Write(prog, 52, [0]) == prog[52 := 0];
  }
}
