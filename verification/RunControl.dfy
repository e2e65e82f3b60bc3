/** The decisions of wait_for_inferior, proceed and normal_stop, stated on values.

    A `State` holds the debugger's run-control variables, the breakpoint chain and the
    inferior's memory.  `OnStop` is one turn of the wait loop: it looks at a report about the
    inferior and either gives control back to the user or resumes the inferior. */
module RunControl {
  import opened Common
  import opened Breakpoints

  const SIGILL := 4
  const SIGTRAP := 5
  const SIGEMT := 7
  const SIGSEGV := 11
  const NSIG := 32

  /** What the symbol tables say about an address: the start of its function, and whether that is the signal trampoline;
      of the start of a function also whether it has symbols, and where its prologue and the line after that end. */
  datatype Place = Place(func: Addr, tramp: bool, symbol: bool, skip: Addr, linePc: Addr, lineEnd: Addr)

  /** The break instruction, how far the pc is past it after a hit, the signal tables and the symbol tables. */
  datatype Config = Config(brk: seq<Byte>, decr: nat, stops: set<int>, passes: set<int>, syms: Addr -> Place)

  /** The breakpoints, the step-resume breakpoint and the inferior's memory. */
  datatype Machine = Machine(
    chain: Chain, mem: Memory,
    bpIn: bool,                                            // breakpoints_inserted
    resumeAddr: Addr, resumeShadow: seq<Byte>, resumeDup: bool,
    resumeFilled: bool)                                    // the shadow was read since the address was set

  /** trap_expected, stop_after_trap, stop_after_attach, running_in_shell */
  datatype Traps = Traps(expected: nat, stopAfter: bool, attach: bool, inShell: bool)

  /** The stepping command; `pull` is remove_breakpoints_on_following_step. */
  datatype Step = Step(start: Addr, end: Addr, frame: int, over: int, pull: bool)

  /** Where the inferior is and why it stopped. */
  datatype Now = Now(pc: Addr, signal: int, bp: int, failed: bool)

  /** Where the inferior was when it was last resumed. */
  datatype Prev = Prev(pc: Addr, sp: int, func: Addr, tramp: bool)

  datatype State = State(m: Machine, alive: bool, trap: Traps, step: Step, now: Now, prev: Prev)

  /** What the debugger finds out about a stopped inferior.  `writes` is what the inferior did to its
      memory since the last resume, `image` the new memory if it executed another program. */
  datatype Report = Report(
    signal: int, pc: Addr, sp: int, fp: int,
    func: Addr, tramp: bool, prologue: Addr, hasSymbol: bool,
    returnTo: Addr, skipTo: Addr, linePc: Addr, lineEnd: Addr, returning: bool,
    conds: set<int>, writes: Memory, image: Option<Memory>)

  /** What a report says about functions and lines is what the symbol tables say.  Whether the function has symbols is
      asked only at its start. */
  predicate Placed(cfg: Config, r: Report) {
    var at, start := cfg.syms(r.pc), cfg.syms(r.func);
    && r.func == at.func && r.tramp == at.tramp && (r.func != 0 ==> r.prologue == start.skip)
    && r.hasSymbol == start.symbol && r.skipTo == start.skip && r.linePc == start.linePc && r.lineEnd == start.lineEnd
  }

  datatype Stop = Exited | Killed(signal: int) | Stopped(report: Report)

  datatype Outcome = Halt | Resume(step: bool, signal: int)

  datatype Next = Next(s: State, o: Outcome)

  // ---------------------------------------------------------------------------
  // The step-resume breakpoint

  predicate Here(c: Chain, a: Addr) {
    exists i :: 0 <= i < |c| && On(c[i], a)
  }

  predicate PendingStep(m: Machine) { m.resumeAddr != 0 && !m.resumeDup }

  /** insert_step_breakpoint */
  function InsertStep(cfg: Config, m: Machine): (r: Machine) {
    if PendingStep(m) && Mapped(m.mem, m.resumeAddr, |cfg.brk|) then
      m.(resumeShadow := Bytes(m.mem, m.resumeAddr, |cfg.brk|), resumeFilled := true,
         mem := Write(m.mem, m.resumeAddr, cfg.brk))
    else m
  }

  /** remove_step_breakpoint: writes the shadow back, filled or not. */
  function RemoveStep(m: Machine): (r: Machine) {
    if PendingStep(m) && Mapped(m.mem, m.resumeAddr, |m.resumeShadow|) then
      m.(mem := Write(m.mem, m.resumeAddr, m.resumeShadow))
    else m
  }

  /** Aim the step-resume breakpoint at `a`; insert it if breakpoints are in. */
  function SetResume(cfg: Config, m: Machine, a: Addr): (r: Machine) {
    var t := m.(resumeAddr := a, resumeDup := Here(m.chain, a), resumeFilled := false);
    if m.bpIn then InsertStep(cfg, t) else t
  }

  /** insert_breakpoints, with breakpoints_inserted set to whether it succeeded. */
  function InsertBreakpoints(cfg: Config, m: Machine): (r: Machine) {
    var p := InsertFrom(cfg.brk, m.chain, m.mem, 0);
    m.(chain := p.chain, mem := p.mem, bpIn := p.ok)
  }

  /** remove_breakpoints */
  function RemoveBreakpoints(m: Machine): (r: Machine) {
    var p := RemoveFrom(m.chain, m.mem, 0);
    m.(chain := p.chain, mem := p.mem)
  }

  // ---------------------------------------------------------------------------
  // One turn of the wait loop

  /** breakpoint_stop_status, from position `i`: 0 no breakpoint at `a`, -1 do not stop, else a number. */
  function StopStatus(c: Chain, a: Addr, fp: int, conds: set<int>, i: nat, cont: int): (r: (Chain, int))
    requires i <= |c|
    decreases |c| - i
  {
    if i == |c| then (c, cont)
    else if !On(c[i], a) then StopStatus(c, a, fp, conds, i + 1, cont)
    else if c[i].frame != 0 && c[i].frame != fp then StopStatus(c, a, fp, conds, i + 1, -1)
    else if c[i].conditional && i !in conds then StopStatus(c, a, fp, conds, i + 1, -1)
    else if c[i].ignoreCount > 0 then
      StopStatus(c[i := c[i].(ignoreCount := c[i].ignoreCount - 1)], a, fp, conds, i + 1, -1)
    else
      (if c[i].enable == Temporary then c[i := c[i].(enable := Disabled)] else c, c[i].number)
  }

  function ImageAfter(m: Memory, r: Report): (res: Memory) {
    if r.image.Some? then r.image.value
    else map a | a in m :: if a in r.writes then r.writes[a] else m[a]
  }

  function Arrive(s: State, r: Report): (t: State) {
    s.(m := s.m.(mem := ImageAfter(s.m.mem, r)), now := Now(r.pc, r.signal, 0, false))
  }

  predicate InDummy(r: Report, pc: Addr) { r.sp < pc < r.fp }

  /** The cause of the stop. `hit`: at the step-resume breakpoint. `random`: not of the debugger's making. */
  datatype Cause = Cause(s: State, hit: bool, random: bool, halt: bool)

  /** Look for a breakpoint at the pc; `st` is what breakpoint_stop_status answers for it. */
  function LookForBreak(cfg: Config, s: State, st: (Chain, int)): (res: (State, bool)) {
    if s.now.signal == SIGTRAP && s.trap.expected != 0 then (s, false)
    else if cfg.decr != 0 && s.prev.pc != s.now.pc - cfg.decr && s.step.end != 0 && s.m.resumeAddr == 0 then (s, false)
    else if s.now.pc - cfg.decr == s.m.resumeAddr then (s.(now := s.now.(pc := s.now.pc - cfg.decr)), true)
    else (s.(m := s.m.(chain := st.0),
             now := s.now.(bp := st.1, pc := if st.1 != 0 then s.now.pc - cfg.decr else s.now.pc)), false)
  }

  function Classify(cfg: Config, s: State, r: Report, st: (Chain, int)): (c: Cause) {
    if s.now.signal == SIGTRAP || (s.m.bpIn && (s.now.signal == SIGILL || s.now.signal == SIGEMT)) || s.trap.attach then
      if s.now.signal == SIGTRAP && s.trap.stopAfter then Cause(s, false, false, true)
      else if s.trap.attach then Cause(s, false, false, true)
      else
        var (t, hit) := LookForBreak(cfg, s, st);
        if t.now.signal == SIGTRAP then
          Cause(t, hit, !(t.now.bp != 0 || t.trap.expected != 0 || hit || InDummy(r, t.now.pc)
                          || (t.step.end != 0 && t.m.resumeAddr == 0)), false)
        else if t.now.bp != 0 || hit then Cause(t.(now := t.now.(signal := SIGTRAP)), hit, false, false)
        else Cause(t, hit, true, false)
    else Cause(s, false, true, false)
  }

  /** A signal of the program's own that the user wants to see. */
  predicate StopsFor(cfg: Config, s: State) {
    !(s.trap.inShell && s.now.signal == SIGSEGV) && (s.now.signal >= NSIG || s.now.signal in cfg.stops)
  }

  /** What a phase of the turn leaves: the state, whether to step off a breakpoint, whether to halt. */
  datatype Phase = Phase(s: State, another: bool, halt: bool)

  /** Handle having hit a breakpoint or the step-resume breakpoint. */
  function AtBreak(s: State, r: Report, hit: bool): (p: Phase) {
    if s.now.bp == 0 && !hit then Phase(s, false, false)
    else if s.now.bp != 0 && s.now.bp != -1 then Phase(s, false, true)
    else if hit && (s.step.frame == 0 || r.fp == s.step.frame) then
      Phase(s.(m := RemoveStep(s.m).(resumeAddr := 0)), false, false)
    else Phase(s.(m := RemoveStep(RemoveBreakpoints(s.m)).(bpIn := false)), true, false)
  }

  predicate InStepRange(s: State, r: Report) {
    && s.step.start <= s.now.pc < s.step.end
    && !(s.now.pc == s.step.start && r.fp != 0 && (r.sp < s.prev.sp || r.fp != s.step.frame))
  }

  predicate CalledFunction(s: State, r: Report) {
    s.now.pc == r.func && (r.func != s.prev.func || r.prologue != r.func || r.sp != s.prev.sp)
  }

  /** Where to stop in a function that was stepped into: after the prologue, or after its line. */
  function AfterPrologue(r: Report): (res: Addr) {
    if r.lineEnd != 0 && r.linePc != r.skipTo then r.lineEnd else r.skipTo
  }

  /** What a stepping command wants: run on, stop here, or run to an address first. */
  datatype Plan = RunOn | StopHere | RunTo(a: Addr, why: Why)
  datatype Why = SignalTaken | CallSkipped | PrologueSkipped

  function StepPlan(s: State, r: Report): (p: Plan) {
    if s.m.resumeAddr != 0 || s.step.end == 0 then RunOn
    else if InStepRange(s, r) then if r.returning then StopHere else RunOn
    else if r.tramp && !s.prev.tramp then RunTo(s.prev.pc, SignalTaken)
    else if !CalledFunction(s, r) then StopHere
    else if s.step.over > 0 || (s.step.over != 0 && !r.hasSymbol) then RunTo(r.returnTo, CallSkipped)
    else if s.step.over != 0 && AfterPrologue(r) != s.now.pc then RunTo(AfterPrologue(r), PrologueSkipped)
    else StopHere
  }

  /** The stepping commands. */
  function Stepping(cfg: Config, s: State, r: Report, another: bool): (p: Phase) {
    match StepPlan(s, r)
    case RunOn => Phase(s, another, false)
    case StopHere => Phase(s, another, true)
    case RunTo(a, why) =>
      var t := s.(m := SetResume(cfg, s.m, a));
      match why
      case SignalTaken =>
        Phase(t.(step := (if s.step.end == 1 then s.step.(start := a, end := a + 1) else s.step).(pull := true)),
              another, false)
      case CallSkipped => Phase(t, another, false)
      case PrologueSkipped => Phase(t.(step := s.step.(frame := 0, end := s.step.start)), another, false)
  }

  /** The function start remembered for the next turn: skipping a prologue moves it. */
  function NextFunc(s: State, r: Report): (res: Addr) {
    var p := StepPlan(s, r);
    if p.RunTo? && p.why == PrologueSkipped then p.a else r.func
  }

  /** Is the next resume to be a single step? */
  predicate StepNext(s: State) {
    (s.step.end != 0 && s.m.resumeAddr == 0) || s.trap.expected != 0
  }

  /** Breakpoints go out when a step is to get past one, and in otherwise unless stepping off one. */
  function Replant(cfg: Config, s: State, another: bool): (p: Phase) {
    if s.m.resumeAddr == 0 && s.step.pull then
      Phase(s.(m := RemoveBreakpoints(s.m).(bpIn := false), step := s.step.(pull := false)), another, false)
    else if !s.m.bpIn && !another then
      var m := InsertBreakpoints(cfg, InsertStep(cfg, s.m));
      Phase(s.(m := m, now := s.now.(failed := !m.bpIn)), another, !m.bpIn)
    else Phase(s, another, false)
  }

  /** Resume the inferior, for one instruction if a trap is to be expected or a step is going on. */
  function GoAhead(s: State, another: bool): (n: Next) {
    var sig := if s.now.signal == SIGTRAP then 0 else s.now.signal;
    var t := s.(trap := s.trap.(expected := if another then 1 else 0), now := s.now.(signal := sig));
    Next(t, Resume(StepNext(t), sig))
  }

  /** Keep the inferior running. */
  function Restart(cfg: Config, s: State, another: bool): (n: Next) {
    if s.trap.expected > 1 then
      Next(s.(trap := s.trap.(expected := s.trap.expected - 1, inShell := true)), Resume(false, 0))
    else if s.trap.inShell && s.now.signal == SIGSEGV then Next(s, Resume(false, SIGSEGV))
    else if s.trap.expected != 0 && s.now.signal != SIGTRAP then Next(s, Resume(StepNext(s), s.now.signal))
    else
      var p := Replant(cfg, s.(trap := s.trap.(inShell := false)), another);
      if p.halt then Next(p.s, Halt) else GoAhead(p.s, another)
  }

  function MarkOut(c: Chain): (r: Chain)
    ensures |r| == |c| && NoneIn(r)
  {
    seq(|c|, i requires 0 <= i < |c| => c[i].(inserted := false))
  }

  /** The rest of the turn once breakpoints have been dealt with. */
  function TurnEnd(cfg: Config, s: State, r: Report, another: bool, random: bool): (n: Next) {
    var p := if random then Phase(s, another, false) else Stepping(cfg, s, r, another);
    if p.halt then Next(p.s, Halt)
    else
      var func := if random then r.func else NextFunc(s, r);
      Restart(cfg, p.s.(prev := Prev(p.s.now.pc, r.sp, func, r.tramp)), p.another)
  }

  /** The turn once the cause of the stop is known. */
  function Handle(cfg: Config, c: Cause, r: Report): (n: Next) {
    if c.halt || (c.random && StopsFor(cfg, c.s)) then Next(c.s, Halt)
    else
      var b := if c.random then Phase(c.s, false, false) else AtBreak(c.s, r, c.hit);
      if b.halt || InDummy(r, b.s.now.pc) then Next(b.s, Halt)
      else TurnEnd(cfg, b.s, r, b.another, c.random)
  }

  function OnReport(cfg: Config, s: State, r: Report): (n: Next) {
    var a := Arrive(s, r);
    Handle(cfg, Classify(cfg, a, r, StopStatus(a.m.chain, a.now.pc - cfg.decr, r.fp, r.conds, 0, 0)), r)
  }

  /** One turn of the loop in wait_for_inferior. */
  function OnStop(cfg: Config, s: State, e: Stop): (n: Next) {
    match e
    case Exited => Next(s.(alive := false, m := s.m.(chain := MarkOut(s.m.chain))), Halt)
    case Killed(sig) =>
      Next(s.(alive := false, m := s.m.(chain := MarkOut(s.m.chain)), now := s.now.(signal := sig)), Halt)
    case Stopped(r) => OnReport(cfg, s, r)
  }

  // ---------------------------------------------------------------------------
  // Starting and stopping

  /** set_raw_breakpoint and what its callers fill in. */
  function SetBreak(c: Chain, a: Addr, number: int, e: Enable, frame: int, conditional: bool): (r: Chain) {
    var d := SetRaw(c, a);
    d[|d| - 1 := d[|d| - 1].(number := number, enable := e, frame := frame, conditional := conditional)]
  }

  /** The first breakpoint with the given number. */
  function FindNumber(c: Chain, n: int, i: nat): (r: Option<nat>)
    requires i <= |c|
    ensures r.Some? ==> i <= r.value < |c| && c[r.value].number == n
    decreases |c| - i
  {
    if i == |c| then None else if c[i].number == n then Some(i) else FindNumber(c, n, i + 1)
  }

  /** set_ignore_count: the first breakpoint with that number. */
  function SetIgnore(c: Chain, n: int, count: int): (r: Chain) {
    var f := FindNumber(c, n, 0);
    if f == None then c else c[f.value := c[f.value].(ignoreCount := if count < 0 then 0 else count)]
  }

  function DeleteFound(m: Machine, f: Option<nat>): (r: Machine)
    requires f.Some? ==> f.value < |m.chain|
  {
    if f == None then m
    else m.(chain := DeleteAt(m.chain, m.mem, f.value).0, mem := DeleteAt(m.chain, m.mem, f.value).1)
  }

  /** clear_momentary_breakpoints: the first one. */
  function ClearMomentary(m: Machine): (r: Machine) { DeleteFound(m, FindNumber(m.chain, MOMENTARY, 0)) }

  /** breakpoint_auto_delete; `commands`: the breakpoint hit has commands still to be executed. */
  function AutoDelete(m: Machine, stopBp: int, commands: bool): (r: Machine) {
    var f := if stopBp == 0 then None else FindNumber(m.chain, stopBp, 0);
    var t := if f.Some? && m.chain[f.value].enable == Delete then DeleteFound(m, f) else m;
    if commands then t else ClearMomentary(t)
  }

  /** clear_proceed_status; with the remaining commands of a breakpoint a momentary breakpoint goes, too. */
  function ClearProceed(s: State): (r: State) {
    s.(m := AutoDelete(s.m, 0, false).(resumeAddr := 0),
       trap := s.trap.(expected := 0, stopAfter := false, attach := false),
       step := s.step.(start := 0, end := 0, frame := 0, over := -1))
  }

  /** A breakpoint that `finish` and `until` set for themselves. */
  datatype Momentary = Momentary(a: Addr, frame: int)

  const MOMENTARY := -3

  /** set_momentary_breakpoint, as often as wanted. */
  function SetMomentary(c: Chain, ts: seq<Momentary>): (r: Chain)
    decreases |ts|
  {
    if ts == [] then c else SetMomentary(SetBreak(c, ts[0].a, MOMENTARY, Delete, ts[0].frame, false), ts[1..])
  }

  /** A continuing or stepping command: what it sets between clear_proceed_status and proceed, and proceed's
      arguments. `addr` is None for resuming where stopped, `signal` None for the signal it stopped with. */
  datatype Go = Go(start: Addr, end: Addr, frame: int, over: int, breaks: seq<Momentary>,
                   addr: Option<Addr>, pcChanged: bool, signal: Option<int>, step: int, sp: int,
                   func: Addr, tramp: bool)

  /** What a continuing command begins with. */
  function Prepare(s: State, g: Go): (r: State) {
    var c := ClearProceed(s);
    c.(m := c.m.(chain := SetMomentary(c.m.chain, g.breaks)))
  }

  /** Is the inferior at a breakpoint that must first be stepped off? */
  predicate StepsOff(c: State, g: Go) { g.addr == None && !g.pcChanged && Here(c.m.chain, c.now.pc) }

  /** proceed, up to the first resume. */
  function Proceed(cfg: Config, s: State, g: Go): (n: Next) {
    var c := Prepare(s, g);
    var one := StepsOff(c, g);
    var m := if one then c.m else InsertBreakpoints(cfg, c.m);
    var sig := if g.signal.Some? then g.signal.value
               else if c.now.signal < NSIG && c.now.signal !in cfg.passes then 0 else c.now.signal;
    var pc := if g.addr.Some? then g.addr.value else c.now.pc;
    var t := c.(m := m, trap := c.trap.(expected := if one then 1 else 0, stopAfter := g.step < 0),
                step := Step(g.start, g.end, g.frame, g.over, false),
                now := c.now.(pc := pc, signal := sig), prev := Prev(pc, g.sp, g.func, g.tramp));
    if !one && !m.bpIn then Next(t, Halt) else Next(t, Resume(one || g.step != 0, sig))
  }

  /** start_inferior, up to waiting: two traps are expected, one when the shell starts and one when it has
      executed the program. */
  function StartInferior(s: State, m: Memory): (r: State) {
    var c := ClearProceed(s);
    c.(m := c.m.(bpIn := false, chain := MarkOut(c.m.chain), mem := m), alive := true,
       trap := c.trap.(expected := 2, inShell := false), step := c.step.(pull := false),
       prev := c.prev.(pc := c.now.pc))
  }

  /** The part of normal_stop that concerns breakpoints, up to breakpoint_auto_delete. */
  function NormalStop(s: State): (r: State) {
    if !s.alive then s.(m := s.m.(bpIn := false))
    else
      var m := RemoveStep(s.m);
      s.(m := (if m.bpIn then RemoveBreakpoints(m) else m).(bpIn := false))
  }

  /** The wait loop on a stream of reports: where it ends, and every resume it made with the state at the
      time.  `None` if the inferior is still running when the reports run out. */
  datatype Trace = Trace(last: State, halted: bool, resumes: seq<Next>)

  function Wait(cfg: Config, s: State, es: seq<Stop>): (t: Trace)
    decreases |es|
  {
    if es == [] then Trace(s, false, [])
    else
      var n := OnStop(cfg, s, es[0]);
      if n.o.Halt? then Trace(n.s, true, [])
      else
        var t := Wait(cfg, n.s, es[1..]);
        t.(resumes := [n] + t.resumes)
  }
}
