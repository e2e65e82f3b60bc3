/** Where a stepping command ends.

    The command goes on as long as the program stays in its range, steps over calls, also recursive ones, as if they
    were one instruction, and stops at the first instruction outside of the range. */
module StepEnds {
  import opened Common
  import opened Breakpoints
  import opened RunControl
  import opened RunSafety
  import opened RunSessions
  import opened StepRanges

  // ---------------------------------------------------------------------------
  // What the program does

  /** The program is within the range of the command, and was not entered anew at its start. */
  predicate InRange(g: Step, p: Prev, r: Report, pc: Addr) {
    && g.start <= pc < g.end
    && (pc == g.start ==> r.fp == 0 || (r.sp >= p.sp && r.fp == g.frame))
  }

  /** A trap at `pc` in the program, not in a call by hand. */
  predicate Trapped(r: Report, pc: Addr) { r.signal == SIGTRAP && !(r.sp < pc < r.fp) }

  /** No breakpoint was met by it. On a machine that leaves the pc behind a breakpoint it is one only if the instruction
      was reached at its beginning. */
  predicate Unmet(cfg: Config, c: Chain, p: Prev, r: Report) {
    || (cfg.decr != 0 && p.pc != r.pc - cfg.decr)
    || (r.pc - cfg.decr != 0 && !Here(c, r.pc - cfg.decr))
  }

  /** The program has come to the start of a function. */
  predicate AtStart(p: Prev, r: Report, pc: Addr) {
    pc == r.func && (p.func != r.func || r.prologue != r.func || p.sp != r.sp)
  }

  /** It has come to the signal trampoline. */
  predicate SignalCame(p: Prev, r: Report) { r.tramp && !p.tramp }

  /** Functions that the command does not go into. */
  predicate GoesOver(g: Step, r: Report) { g.over > 0 || (g.over < 0 && !r.hasSymbol) }

  /** One thing that happens in the course of the command: an instruction within the range; a call of a function that
      is stepped over, with hits of the return address in other frames and the instructions behind them, and the return
      to the range; or a signal that is handled, with the same for the place where it came. */
  datatype Move =
    | Inside(r: Report)
    | Over(call: Report, deeper: seq<(Report, Report)>, back: Report)
    | Handled(tramp: Report, deeper: seq<(Report, Report)>, back: Report)

  predicate StaysInside(cfg: Config, g: Step, p: Prev, r: Report) {
    Trapped(r, r.pc) && InRange(g, p, r, r.pc) && !r.returning
  }

  predicate Calls(g: Step, p: Prev, r: Report) {
    && Trapped(r, r.pc) && !InRange(g, p, r, r.pc) && !SignalCame(p, r) && AtStart(p, r, r.pc) && GoesOver(g, r)
    && r.returnTo != 0
  }

  /** A signal has come at `p`, outside of the range. */
  predicate Interrupted(g: Step, p: Prev, r: Report) {
    Trapped(r, r.pc) && !InRange(g, p, r, r.pc) && SignalCame(p, r) && p.pc != 0
  }

  /** The range once a signal has come at `a`: that of stepi becomes one that gets past the instruction there. */
  function RangeHandled(g: Step, a: Addr): (r: Step) { if g.end == 1 then g.(start := a, end := a + 1) else g }

  /** The address is hit in another frame, and stepped off. */
  predicate Recurs(cfg: Config, frame: int, a: Addr, d: (Report, Report)) {
    && Trapped(d.0, d.0.pc - cfg.decr) && d.0.pc - cfg.decr == a && frame != 0 && d.0.fp != frame
    && Trapped(d.1, d.1.pc)
  }

  /** The return address is hit in the frame of the command. */
  predicate Reaches(cfg: Config, g: Step, a: Addr, r: Report) {
    Trapped(r, r.pc - cfg.decr) && r.pc - cfg.decr == a && (g.frame == 0 || r.fp == g.frame)
  }

  predicate AllRecur(cfg: Config, frame: int, a: Addr, ds: seq<(Report, Report)>) {
    forall i :: 0 <= i < |ds| ==> Recurs(cfg, frame, a, ds[i])
  }

  predicate Returns(cfg: Config, g: Step, p: Prev, a: Addr, r: Report) {
    Reaches(cfg, g, a, r) && InRange(g, p, r, a) && !r.returning
  }

  function PrevOf(r: Report): (p: Prev) { Prev(r.pc, r.sp, r.func, r.tramp) }

  /** Where the inferior was when it was last resumed in the course of a call. */
  function PrevAway(ds: seq<(Report, Report)>, p: Prev): (r: Prev) {
    if ds == [] then p else PrevOf(ds[|ds| - 1].1)
  }

  function PrevAfter(cfg: Config, m: Move): (p: Prev) {
    match m
    case Inside(r) => PrevOf(r)
    case Over(call, _, back) => PrevOf(back).(pc := call.returnTo)
    case Handled(_, _, back) => PrevOf(back).(pc := back.pc - cfg.decr)
  }

  function RangeAfter(g: Step, p: Prev, m: Move): (r: Step) { if m.Handled? then RangeHandled(g, p.pc) else g }

  /** The move is one that a command with range `g` is not over with; `off`: it begins by stepping off a breakpoint. */
  predicate Continues(cfg: Config, c: Chain, g: Step, p: Prev, off: bool, m: Move) {
    match m
    case Inside(r) => (off || Unmet(cfg, c, p, r)) && StaysInside(cfg, g, p, r)
    case Over(call, deeper, back) =>
      && (off || Unmet(cfg, c, p, call)) && Calls(g, p, call)
      && AllRecur(cfg, g.frame, call.returnTo, deeper)
      && Returns(cfg, g, PrevAway(deeper, PrevOf(call)), call.returnTo, back)
    case Handled(tramp, deeper, back) =>
      && (off || Unmet(cfg, c, p, tramp)) && Interrupted(g, p, tramp)
      && AllRecur(cfg, g.frame, p.pc, deeper)
      && Returns(cfg, RangeHandled(g, p.pc), PrevAway(deeper, PrevOf(tramp)), p.pc, back)
  }

  predicate Path(cfg: Config, c: Chain, g: Step, p: Prev, off: bool, ms: seq<Move>)
    decreases |ms|
  {
    ms == [] || (Continues(cfg, c, g, p, off, ms[0])
                 && Path(cfg, c, RangeAfter(g, p, ms[0]), PrevAfter(cfg, ms[0]), false, ms[1..]))
  }

  /** The range after the moves. */
  function RangeLast(cfg: Config, g: Step, p: Prev, ms: seq<Move>): (r: Step)
    decreases |ms|
  {
    if ms == [] then g else RangeLast(cfg, RangeAfter(g, p, ms[0]), PrevAfter(cfg, ms[0]), ms[1..])
  }

  /** Where the inferior was before what comes after the moves. */
  function PrevLast(cfg: Config, p: Prev, ms: seq<Move>): (r: Prev)
    decreases |ms|
  {
    if ms == [] then p else PrevLast(cfg, PrevAfter(cfg, ms[0]), ms[1..])
  }

  /** At `pc` the command is over: a return as the first instruction of the range, or an instruction outside of it that
      is neither in the trampoline for the first time nor the start of a function to be stepped over or into. */
  predicate Leaves(g: Step, p: Prev, r: Report, pc: Addr) {
    if InRange(g, p, r, pc) then r.returning
    else !SignalCame(p, r) && (AtStart(p, r, pc) ==> !GoesOver(g, r) && (g.over == 0 || AfterPrologue(r) == pc))
  }

  /** How a command ends: with the program where `Leaves` says, also after a call. */
  datatype Finish = Leaving(r: Report) | Returning(call: Report, deeper: seq<(Report, Report)>, back: Report)

  predicate Ends(cfg: Config, c: Chain, g: Step, p: Prev, off: bool, f: Finish) {
    match f
    case Leaving(r) => (off || Unmet(cfg, c, p, r)) && Trapped(r, r.pc) && Leaves(g, p, r, r.pc)
    case Returning(call, deeper, back) =>
      && (off || Unmet(cfg, c, p, call)) && Calls(g, p, call)
      && AllRecur(cfg, g.frame, call.returnTo, deeper)
      && Reaches(cfg, g, call.returnTo, back) && Leaves(g, PrevAway(deeper, PrevOf(call)), back, call.returnTo)
  }

  // ---------------------------------------------------------------------------
  // The turns

  /** The command with range `g` is under way, and the inferior was last resumed at `p`. */
  predicate Under(s: State, g: Step, p: Prev) {
    && s.alive && s.trap == Traps(s.trap.expected, false, false, false) && s.trap.expected <= 1
    && s.step == g && g.end != 0 && !g.pull && s.m.resumeAddr == 0 && s.prev == p
  }

  /** It is on its way to the address `a`; with `g.pull` breakpoints are to be out for the step from there. */
  predicate Away(s: State, g: Step, a: Addr, p: Prev) {
    && s.alive && s.trap == Traps(0, false, false, false) && s.m.bpIn
    && s.step == g && g.end != 0 && s.m.resumeAddr == a != 0 && s.prev == p
  }

  /** The range when a signal has come at `a` and is being handled. */
  function RangeAway(g: Step, a: Addr): (r: Step) { RangeHandled(g, a).(pull := true) }

  lemma {:induction false} NothingMet(cfg: Config, s: State, g: Step, p: Prev, r: Report)
    requires Under(s, g, p) && Trapped(r, r.pc) && (s.trap.expected == 1 || Unmet(cfg, s.m.chain, p, r))
    ensures OnReport(cfg, s, r) == TurnEnd(cfg, Arrive(s, r), r, false, false)
  {
    var a := Arrive(s, r);
    var st := StopStatus(a.m.chain, a.now.pc - cfg.decr, r.fp, r.conds, 0, 0);
    if !Here(s.m.chain, r.pc - cfg.decr) { StatusNone(a.m.chain, r.pc - cfg.decr, r.fp, r.conds, 0, 0); }
    assert Classify(cfg, a, r, st) == Cause(a, false, false, false);
  }

  /** What putting breakpoints in leaves of the state. */
  predicate InPlace(s: State, t: State) {
    && t.m.bpIn && SameButInserted(s.m.chain, t.m.chain) && t.m.resumeAddr == s.m.resumeAddr
    && t.alive == s.alive && t.step == s.step && t.prev == s.prev
    && t.trap == s.trap.(expected := 0)
  }

  /** A turn that goes on with breakpoints in. */
  lemma {:induction false} Resumed(cfg: Config, code: set<Addr>, prog: Memory, s: State)
    requires s.alive && s.trap == Traps(s.trap.expected, false, false, false) && s.trap.expected <= 1
    requires MachineOk(cfg, code, prog, s.m) && (s.step.pull ==> s.m.resumeAddr != 0) && s.now.signal == SIGTRAP
    ensures var n := Restart(cfg, s, false);
            n.o == Resume(s.step.end != 0 && s.m.resumeAddr == 0, 0) && InPlace(s, n.s)
  {
    if !s.m.bpIn {
      InsertBothOk(cfg, code, prog, s.m);
      var t := InsertStep(cfg, s.m);
      InsertOnlyWanted(cfg.brk, t.chain, t.mem, 0);
    }
  }

  lemma {:induction false} InsideTurn(cfg: Config, code: set<Addr>, prog: Memory, s: State, g: Step, p: Prev,
                                      r: Report)
    requires LoopInv(cfg, code, prog, s) && ReportOk(cfg, code, prog, s, r) && Under(s, g, p)
    requires (s.trap.expected == 1 || Unmet(cfg, s.m.chain, p, r)) && StaysInside(cfg, g, p, r)
    ensures var n := OnReport(cfg, s, r);
            && n.o == Resume(true, 0) && Under(n.s, g, PrevOf(r)) && n.s.trap.expected == 0
            && SameButInserted(s.m.chain, n.s.m.chain)
  {
    NothingMet(cfg, s, g, p, r);
    var a := Arrive(s, r);
    ArriveMachine(cfg, code, prog, s.m, r);
    assert StepPlan(a, r) == RunOn;
    Resumed(cfg, code, ImageAfter(prog, r), a.(prev := PrevOf(r)));
  }

  lemma {:induction false} CallTurn(cfg: Config, code: set<Addr>, prog: Memory, s: State, g: Step, p: Prev, r: Report)
    requires LoopInv(cfg, code, prog, s) && ReportOk(cfg, code, prog, s, r) && Under(s, g, p)
    requires (s.trap.expected == 1 || Unmet(cfg, s.m.chain, p, r)) && Calls(g, p, r)
    ensures var n := OnReport(cfg, s, r);
            n.o == Resume(false, 0) && Away(n.s, g, r.returnTo, PrevOf(r))
              && SameButInserted(s.m.chain, n.s.m.chain)
  {
    NothingMet(cfg, s, g, p, r);
    var a, q := Arrive(s, r), ImageAfter(prog, r);
    ArriveMachine(cfg, code, prog, s.m, r);
    assert StepPlan(a, r) == RunTo(r.returnTo, CallSkipped);
    SetResumeOk(cfg, code, q, a.m, r.returnTo);
    var t := a.(m := SetResume(cfg, a.m, r.returnTo), prev := PrevOf(r));
    assert TurnEnd(cfg, a, r, false, false) == Restart(cfg, t, false);
    Resumed(cfg, code, q, t);
  }

  /** The step-resume breakpoint was hit. */
  lemma {:induction false} AddressHit(cfg: Config, s: State, g: Step, a: Addr, p: Prev, r: Report)
    requires Away(s, g, a, p) && r.signal == SIGTRAP && r.pc - cfg.decr == a
    ensures var t := Arrive(s, r).(now := Now(a, SIGTRAP, 0, false));
            OnReport(cfg, s, r) == Handle(cfg, Cause(t, true, false, false), r)
  {
  }

  lemma {:induction false} BackTurn(cfg: Config, code: set<Addr>, prog: Memory, s: State, g: Step, a: Addr, p: Prev,
                                    r: Report)
    requires LoopInv(cfg, code, prog, s) && ReportOk(cfg, code, prog, s, r) && Away(s, g, a, p)
    requires !g.pull && Returns(cfg, g, p, a, r)
    ensures var n := OnReport(cfg, s, r);
            && n.o == Resume(true, 0) && Under(n.s, g, PrevOf(r).(pc := a)) && n.s.trap.expected == 0
            && SameButInserted(s.m.chain, n.s.m.chain)
  {
    AddressHit(cfg, s, g, a, p, r);
    ArriveMachine(cfg, code, prog, s.m, r);
    var t := Arrive(s, r).(now := Now(a, SIGTRAP, 0, false));
    var q := ImageAfter(prog, r);
    DropStepOk(cfg, code, q, t.m);
    var b := t.(m := RemoveStep(t.m).(resumeAddr := 0));
    assert AtBreak(t, r, true) == Phase(b, false, false);
    assert StepPlan(b, r) == RunOn;
    Resumed(cfg, code, q, b.(prev := PrevOf(r).(pc := a)));
  }

  /** A signal is to be handled: the program runs to where it came. */
  lemma {:induction false} TrampTurn(cfg: Config, code: set<Addr>, prog: Memory, s: State, g: Step, p: Prev, r: Report)
    requires LoopInv(cfg, code, prog, s) && ReportOk(cfg, code, prog, s, r) && Under(s, g, p)
    requires (s.trap.expected == 1 || Unmet(cfg, s.m.chain, p, r)) && Interrupted(g, p, r)
    ensures var n := OnReport(cfg, s, r);
            && n.o == Resume(false, 0) && Away(n.s, RangeAway(g, p.pc), p.pc, PrevOf(r))
            && SameButInserted(s.m.chain, n.s.m.chain)
  {
    NothingMet(cfg, s, g, p, r);
    var a, q := Arrive(s, r), ImageAfter(prog, r);
    ArriveMachine(cfg, code, prog, s.m, r);
    assert StepPlan(a, r) == RunTo(p.pc, SignalTaken);
    SetResumeOk(cfg, code, q, a.m, p.pc);
    var t := a.(m := SetResume(cfg, a.m, p.pc), step := RangeAway(g, p.pc), prev := PrevOf(r));
    assert TurnEnd(cfg, a, r, false, false) == Restart(cfg, t, false);
    Resumed(cfg, code, q, t);
  }

  /** Back where the signal came, the next instruction is executed without breakpoints. */
  lemma {:induction false} HandledTurn(cfg: Config, code: set<Addr>, prog: Memory, s: State, g: Step, a: Addr, p: Prev,
                                       r: Report)
    requires LoopInv(cfg, code, prog, s) && ReportOk(cfg, code, prog, s, r) && Away(s, g.(pull := true), a, p)
    requires !g.pull && Returns(cfg, g, p, a, r)
    ensures var n := OnReport(cfg, s, r);
            && n.o == Resume(true, 0) && Under(n.s, g, PrevOf(r).(pc := a)) && n.s.trap.expected == 0
            && SameButInserted(s.m.chain, n.s.m.chain)
  {
    AddressHit(cfg, s, g.(pull := true), a, p, r);
    ArriveMachine(cfg, code, prog, s.m, r);
    var t := Arrive(s, r).(now := Now(a, SIGTRAP, 0, false));
    var q := ImageAfter(prog, r);
    DropStepOk(cfg, code, q, t.m);
    var b := t.(m := RemoveStep(t.m).(resumeAddr := 0));
    assert AtBreak(t, r, true) == Phase(b, false, false);
    assert StepPlan(b, r) == RunOn;
    RemoveBreakpointsOk(cfg, code, q, b.m);
  }

  /** The state in which the address, hit in another frame, is to be stepped off. */
  predicate SteppingOff(s: State, g: Step, a: Addr) {
    && s.alive && s.trap == Traps(1, false, false, false) && !s.m.bpIn
    && s.step == g && g.end != 0 && s.m.resumeAddr == a != 0
  }

  lemma {:induction false} OtherFrame(cfg: Config, code: set<Addr>, prog: Memory, s: State, g: Step,
                                      a: Addr, p: Prev, d: (Report, Report))
    requires LoopInv(cfg, code, prog, s) && ReportOk(cfg, code, prog, s, d.0) && Away(s, g, a, p)
    requires Recurs(cfg, g.frame, a, d)
    ensures var n := OnReport(cfg, s, d.0);
            n.o == Resume(true, 0) && SteppingOff(n.s, g, a) && SameButInserted(s.m.chain, n.s.m.chain)
  {
    var r, q := d.0, ImageAfter(prog, d.0);
    AddressHit(cfg, s, g, a, p, r);
    ArriveMachine(cfg, code, prog, s.m, r);
    var t := Arrive(s, r).(now := Now(a, SIGTRAP, 0, false));
    RemoveBreakpointsOk(cfg, code, q, t.m);
    var b := t.(m := RemoveStep(RemoveBreakpoints(t.m)).(bpIn := false));
    assert AtBreak(t, r, true) == Phase(b, true, false);
    assert StepPlan(b, r) == RunOn;
    assert Handle(cfg, Cause(t, true, false, false), r) == Restart(cfg, b.(prev := PrevOf(r).(pc := a)), true);
  }

  lemma {:induction false} SteppedOff(cfg: Config, code: set<Addr>, prog: Memory, s: State, g: Step,
                                      a: Addr, r: Report)
    requires LoopInv(cfg, code, prog, s) && ReportOk(cfg, code, prog, s, r) && SteppingOff(s, g, a)
    requires Trapped(r, r.pc)
    ensures var n := OnReport(cfg, s, r);
            n.o == Resume(false, 0) && Away(n.s, g, a, PrevOf(r)) && SameButInserted(s.m.chain, n.s.m.chain)
  {
    var t := Arrive(s, r);
    var st := StopStatus(t.m.chain, t.now.pc - cfg.decr, r.fp, r.conds, 0, 0);
    ArriveMachine(cfg, code, prog, s.m, r);
    assert Classify(cfg, t, r, st) == Cause(t, false, false, false);
    assert OnReport(cfg, s, r) == Restart(cfg, t.(prev := PrevOf(r)), false);
    Resumed(cfg, code, ImageAfter(prog, r), t.(prev := PrevOf(r)));
  }

  /** The command is over: the user gets control where the program is, at no breakpoint. */
  lemma {:induction false} LastTurn(cfg: Config, s: State, g: Step, p: Prev, r: Report)
    requires Under(s, g, p) && (s.trap.expected == 1 || Unmet(cfg, s.m.chain, p, r)) && Trapped(r, r.pc)
    requires Leaves(g, p, r, r.pc)
    ensures OnReport(cfg, s, r) == Next(Arrive(s, r), Halt)
  {
    NothingMet(cfg, s, g, p, r);
    assert StepPlan(Arrive(s, r), r) == StopHere;
  }

  lemma {:induction false} LastReturn(cfg: Config, s: State, g: Step, a: Addr, p: Prev, r: Report)
    requires Away(s, g, a, p) && Reaches(cfg, g, a, r) && Leaves(g, p, r, a)
    ensures var n := OnReport(cfg, s, r); n.o.Halt? && n.s.alive && n.s.now == Now(a, SIGTRAP, 0, false)
  {
    AddressHit(cfg, s, g, a, p, r);
    var t := Arrive(s, r).(now := Now(a, SIGTRAP, 0, false));
    var b := t.(m := RemoveStep(t.m).(resumeAddr := 0));
    assert AtBreak(t, r, true) == Phase(b, false, false);
    assert StepPlan(b, r) == StopHere;
  }

  // ---------------------------------------------------------------------------
  // The run

  function Outcomes(ns: seq<Next>): (r: seq<Outcome>)
    ensures |r| == |ns|
  {
    seq(|ns|, i requires 0 <= i < |ns| => ns[i].o)
  }

  /** What the debugger is told by a hit in another frame and the instruction behind it. */
  function PairStops(d: (Report, Report)): (r: seq<Stop>) { [Stopped(d.0)] + [Stopped(d.1)] }

  function PairsStops(ds: seq<(Report, Report)>): (r: seq<seq<Stop>>)
    ensures |r| == |ds|
  {
    seq(|ds|, i requires 0 <= i < |ds| => PairStops(ds[i]))
  }

  function Flatten(segs: seq<seq<Stop>>): (r: seq<Stop>) { if segs == [] then [] else segs[0] + Flatten(segs[1..]) }

  function Pairs(ds: seq<(Report, Report)>): (r: seq<Stop>) { Flatten(PairsStops(ds)) }

  /** What the debugger is told in the course of a call. */
  function CallStops(call: Report, ds: seq<(Report, Report)>): (r: seq<Stop>) { [Stopped(call)] + Pairs(ds) }

  function MoveStops(m: Move): (r: seq<Stop>) {
    match m
    case Inside(r) => [Stopped(r)]
    case Over(call, deeper, back) => CallStops(call, deeper) + [Stopped(back)]
    case Handled(tramp, deeper, back) => CallStops(tramp, deeper) + [Stopped(back)]
  }

  function AllStops(ms: seq<Move>): (r: seq<Stop>) { if ms == [] then [] else MoveStops(ms[0]) + AllStops(ms[1..]) }

  function FinishStops(f: Finish): (r: seq<Stop>) {
    match f
    case Leaving(r) => [Stopped(r)]
    case Returning(call, deeper, back) => CallStops(call, deeper) + [Stopped(back)]
  }

  function Repeated(os: seq<Outcome>, n: nat): (r: seq<Outcome>) { if n == 0 then [] else os + Repeated(os, n - 1) }

  /** For each hit in another frame the program executes one instruction, and then runs free. */
  function Deep(n: nat): (r: seq<Outcome>) { Repeated([Resume(true, 0), Resume(false, 0)], n) }

  function CallOutcomes(n: nat): (r: seq<Outcome>) { [Resume(false, 0)] + Deep(n) }

  /** In the range the program executes one instruction at a time. Calls and handlers are run through. */
  function MoveOutcomes(m: Move): (r: seq<Outcome>) {
    match m
    case Inside(_) => [Resume(true, 0)]
    case _ => CallOutcomes(|m.deeper|) + [Resume(true, 0)]
  }

  function AllOutcomes(ms: seq<Move>): (r: seq<Outcome>) {
    if ms == [] then [] else MoveOutcomes(ms[0]) + AllOutcomes(ms[1..])
  }

  function FinishOutcomes(f: Finish): (r: seq<Outcome>) {
    match f
    case Leaving(_) => []
    case Returning(_, deeper, _) => CallOutcomes(|deeper|)
  }

  function FinishPc(f: Finish): (a: Addr) {
    match f case Leaving(r) => r.pc case Returning(call, _, _) => call.returnTo
  }

  /** Breakpoints but for what is in memory. */
  function Bare(c: Chain): (r: Chain)
    ensures |r| == |c|
  {
    seq(|c|, i requires 0 <= i < |c| => c[i].(shadow := [], inserted := false))
  }

  lemma {:induction false} SameBare(c: Chain, d: Chain)
    ensures SameButInserted(c, d) <==> Bare(c) == Bare(d)
  {
    if Bare(c) == Bare(d) {
      forall i | 0 <= i < |c| ensures d[i] == c[i].(shadow := d[i].shadow, inserted := d[i].inserted) {
        assert Bare(c)[i] == Bare(d)[i];
      }
    }
  }

  /** The loop goes on over `es` to the state `t`, with the given resumes. */
  predicate Through(cfg: Config, s: State, es: seq<Stop>, t: State, os: seq<Outcome>) {
    var w := Wait(cfg, s, es);
    !w.halted && w.last == t && Outcomes(w.resumes) == os && Bare(s.m.chain) == Bare(t.m.chain)
  }

  lemma {:induction false} WaitConcat(cfg: Config, s: State, es: seq<Stop>, fs: seq<Stop>)
    ensures var w := Wait(cfg, s, es);
            !w.halted ==> Wait(cfg, s, es + fs)
                          == (var v := Wait(cfg, w.last, fs); v.(resumes := w.resumes + v.resumes))
    decreases |es|
  {
    if es == [] {
      assert es + fs == fs;
    } else {
      assert (es + fs)[0] == es[0] && (es + fs)[1..] == es[1..] + fs;
      var n := OnStop(cfg, s, es[0]);
      if n.o.Resume? {
        WaitConcat(cfg, n.s, es[1..], fs);
        var w := Wait(cfg, n.s, es[1..]);
        assert forall v: Trace :: [n] + (w.resumes + v.resumes) == ([n] + w.resumes) + v.resumes;
      }
    }
  }

  /** Well-behaved from a state in the loop invariant, and so at every turn. */
  ghost predicate Sound(cfg: Config, code: set<Addr>, prog: Memory, s: State, es: seq<Stop>)
    decreases |es|
  {
    && LoopInv(cfg, code, prog, s)
    && (es != [] ==>
         && (es[0].Stopped? ==> ReportOk(cfg, code, prog, s, es[0].report))
         && var n := OnStop(cfg, s, es[0]);
            n.o.Resume? ==> Sound(cfg, code, ProgAfter(prog, es[0]), n.s, es[1..]))
  }

  lemma {:induction false} BehavesSound(cfg: Config, code: set<Addr>, prog: Memory, s: State, es: seq<Stop>)
    requires LoopInv(cfg, code, prog, s) && WellBehaved(cfg, code, prog, s, es)
    ensures Sound(cfg, code, prog, s, es)
    decreases |es|
  {
    if es != [] && es[0].Stopped? {
      OnReportOk(cfg, code, prog, s, es[0].report);
      var n := OnStop(cfg, s, es[0]);
      if n.o.Resume? { BehavesSound(cfg, code, ProgAfter(prog, es[0]), n.s, es[1..]); }
    }
  }

  lemma {:induction false} SoundNext(cfg: Config, code: set<Addr>, prog: Memory, s: State, es: seq<Stop>)
    requires Sound(cfg, code, prog, s, es) && es != [] && OnStop(cfg, s, es[0]).o.Resume?
    ensures Sound(cfg, code, ProgAfter(prog, es[0]), OnStop(cfg, s, es[0]).s, es[1..])
  {
  }

  lemma {:induction false} WaitNext(cfg: Config, prog: Memory, s: State, es: seq<Stop>)
    requires es != []
    ensures var n, w := OnStop(cfg, s, es[0]), Wait(cfg, s, es);
            if n.o.Halt? then w.halted
            else
              var v := Wait(cfg, n.s, es[1..]);
              && w.halted == v.halted && w.last == v.last
              && ProgAtEnd(cfg, prog, s, es) == ProgAtEnd(cfg, ProgAfter(prog, es[0]), n.s, es[1..])
  {
  }

  /** What comes behind the first part of a run. */
  lemma {:induction false} SoundRest(cfg: Config, code: set<Addr>, prog: Memory, s: State, es: seq<Stop>, fs: seq<Stop>)
    requires Sound(cfg, code, prog, s, es + fs) && !Wait(cfg, s, es).halted
    ensures Sound(cfg, code, ProgAtEnd(cfg, prog, s, es), Wait(cfg, s, es).last, fs)
    decreases |es|
  {
    if es == [] {
      assert es + fs == fs;
    } else {
      assert (es + fs)[0] == es[0] && (es + fs)[1..] == es[1..] + fs;
      WaitNext(cfg, prog, s, es);
      SoundNext(cfg, code, prog, s, es + fs);
      SoundRest(cfg, code, ProgAfter(prog, es[0]), OnStop(cfg, s, es[0]).s, es[1..], fs);
    }
  }

  lemma {:induction false} OutcomesConcat(a: seq<Next>, b: seq<Next>)
    ensures Outcomes(a + b) == Outcomes(a) + Outcomes(b)
  {
  }

  /** One part of a run after the other. */
  lemma {:induction false} ThroughConcat(cfg: Config, s: State, es: seq<Stop>, t: State, os: seq<Outcome>,
                                         fs: seq<Stop>, u: State, ps: seq<Outcome>)
    requires Through(cfg, s, es, t, os) && Through(cfg, t, fs, u, ps)
    ensures Through(cfg, s, es + fs, u, os + ps)
  {
    WaitConcat(cfg, s, es, fs);
    OutcomesConcat(Wait(cfg, s, es).resumes, Wait(cfg, t, fs).resumes);
  }

  lemma {:induction false} OneTurn(cfg: Config, s: State, r: Report)
    ensures var n := OnReport(cfg, s, r);
            Wait(cfg, s, [Stopped(r)]) == if n.o.Halt? then Trace(n.s, true, []) else Trace(n.s, false, [n])
  {
    assert [Stopped(r)][1..] == [];
  }

  lemma {:induction false} OneThrough(cfg: Config, s: State, r: Report)
    requires var n := OnReport(cfg, s, r); n.o.Resume? && SameButInserted(s.m.chain, n.s.m.chain)
    ensures var n := OnReport(cfg, s, r); Through(cfg, s, [Stopped(r)], n.s, [n.o])
  {
    SameBare(s.m.chain, OnReport(cfg, s, r).s.m.chain);
    OneTurn(cfg, s, r);
  }

  /** The first report of a run. */
  lemma {:induction false} SoundFirst(cfg: Config, code: set<Addr>, prog: Memory, s: State, r: Report, fs: seq<Stop>)
    requires Sound(cfg, code, prog, s, [Stopped(r)] + fs)
    ensures LoopInv(cfg, code, prog, s) && ReportOk(cfg, code, prog, s, r)
    ensures var n := OnReport(cfg, s, r); n.o.Resume? ==> Sound(cfg, code, ImageAfter(prog, r), n.s, fs)
  {
    assert ([Stopped(r)] + fs)[1..] == fs;
  }

  /** A turn that resumes, in front of what comes then. */
  lemma {:induction false} TurnThen(cfg: Config, s: State, r: Report, fs: seq<Stop>, u: State, ps: seq<Outcome>)
    requires var n := OnReport(cfg, s, r);
             n.o.Resume? && SameButInserted(s.m.chain, n.s.m.chain) && Through(cfg, n.s, fs, u, ps)
    ensures Through(cfg, s, [Stopped(r)] + fs, u, [OnReport(cfg, s, r).o] + ps)
  {
    var n := OnReport(cfg, s, r);
    OneThrough(cfg, s, r);
    ThroughConcat(cfg, s, [Stopped(r)], n.s, [n.o], fs, u, ps);
  }

  /** One hit of the return address in another frame. */
  lemma {:induction false} OneDeeper(cfg: Config, code: set<Addr>, prog: Memory, s: State, g: Step,
                                     a: Addr, p: Prev, d: (Report, Report))
    requires Sound(cfg, code, prog, s, PairStops(d)) && Away(s, g, a, p) && Recurs(cfg, g.frame, a, d)
    ensures var t := Wait(cfg, s, PairStops(d)).last;
            && Through(cfg, s, PairStops(d), t, [Resume(true, 0), Resume(false, 0)])
            && Away(t, g, a, PrevOf(d.1))
  {
    SoundFirst(cfg, code, prog, s, d.0, [Stopped(d.1)]);
    assert [Resume(true, 0)] + [Resume(false, 0)] == [Resume(true, 0), Resume(false, 0)];
    OtherFrame(cfg, code, prog, s, g, a, p, d);
    OnReportOk(cfg, code, prog, s, d.0);
    var q, t := ImageAfter(prog, d.0), OnReport(cfg, s, d.0).s;
    assert [Stopped(d.1)] + [] == [Stopped(d.1)];
    SoundFirst(cfg, code, q, t, d.1, []);
    SteppedOff(cfg, code, q, t, g, a, d.1);
    OneThrough(cfg, t, d.1);
    TurnThen(cfg, s, d.0, [Stopped(d.1)], OnReport(cfg, t, d.1).s, [Resume(false, 0)]);
  }

  /** The first part of a run. */
  lemma {:induction false} PartFirst(cfg: Config, code: set<Addr>, prog: Memory, s: State, es: seq<Stop>, fs: seq<Stop>)
    requires Sound(cfg, code, prog, s, es + fs)
    ensures Sound(cfg, code, prog, s, es)
    decreases |es|
  {
    if es != [] {
      assert (es + fs)[0] == es[0] && (es + fs)[1..] == es[1..] + fs;
      var n := OnStop(cfg, s, es[0]);
      if n.o.Resume? { PartFirst(cfg, code, ProgAfter(prog, es[0]), n.s, es[1..], fs); }
    }
  }

  /** Where the first part of a run ends. */
  lemma {:induction false} PartDone(cfg: Config, code: set<Addr>, prog: Memory, s: State, es: seq<Stop>, fs: seq<Stop>)
      returns (t: State, q: Memory)
    requires Sound(cfg, code, prog, s, es + fs)
    ensures Sound(cfg, code, prog, s, es) && t == Wait(cfg, s, es).last
    ensures !Wait(cfg, s, es).halted ==> Sound(cfg, code, q, t, fs)
  {
    t, q := Wait(cfg, s, es).last, ProgAtEnd(cfg, prog, s, es);
    PartFirst(cfg, code, prog, s, es, fs);
    if !Wait(cfg, s, es).halted { SoundRest(cfg, code, prog, s, es, fs); }
  }

  /** Parts of a run that lead from a good state to a good state, one after the other. */
  lemma {:induction false} EachThrough(cfg: Config, code: set<Addr>, prog: Memory, s: State, segs: seq<seq<Stop>>,
                                       i: nat, good: (nat, State) -> bool, os: seq<Outcome>)
    requires i <= |segs| && Sound(cfg, code, prog, s, Flatten(segs[i..])) && good(i, s)
    requires forall k: nat, q, t {:trigger Sound(cfg, code, q, t, segs[k])} ::
               i <= k < |segs| && good(k, t) && Sound(cfg, code, q, t, segs[k]) ==>
                 Through(cfg, t, segs[k], Wait(cfg, t, segs[k]).last, os) && good(k + 1, Wait(cfg, t, segs[k]).last)
    ensures var u := Wait(cfg, s, Flatten(segs[i..])).last;
            Through(cfg, s, Flatten(segs[i..]), u, Repeated(os, |segs| - i)) && good(|segs|, u)
    decreases |segs| - i
  {
    if i < |segs| {
      var rest := Flatten(segs[i + 1..]);
      assert segs[i..][0] == segs[i] && segs[i..][1..] == segs[i + 1..];
      var t, q := PartDone(cfg, code, prog, s, segs[i], rest);
      EachThrough(cfg, code, q, t, segs, i + 1, good, os);
      ThroughConcat(cfg, s, segs[i], t, os, rest, Wait(cfg, t, rest).last, Repeated(os, |segs| - i - 1));
    }
  }

  /** `k` hits have been stepped off. */
  predicate AwayAfter(s: State, g: Step, a: Addr, p: Prev, ds: seq<(Report, Report)>, k: nat) {
    k <= |ds| && Away(s, g, a, PrevAway(ds[..k], p))
  }

  /** One more hit, when `k` have been stepped off. */
  lemma {:induction false} DeeperNext(cfg: Config, code: set<Addr>, prog: Memory, s: State, g: Step, a: Addr, p: Prev,
                                      ds: seq<(Report, Report)>, k: nat)
    requires k < |ds| && Sound(cfg, code, prog, s, PairsStops(ds)[k]) && AwayAfter(s, g, a, p, ds, k)
    requires Recurs(cfg, g.frame, a, ds[k])
    ensures var es := PairsStops(ds)[k];
            var t := Wait(cfg, s, es).last;
            Through(cfg, s, es, t, [Resume(true, 0), Resume(false, 0)]) && AwayAfter(t, g, a, p, ds, k + 1)
  {
    OneDeeper(cfg, code, prog, s, g, a, PrevAway(ds[..k], p), ds[k]);
    assert PairsStops(ds)[k] == PairStops(ds[k]);
    assert ds[..k + 1][k] == ds[k];
  }

  /** Hits of the address in other frames. */
  lemma {:induction false} DeepRun(cfg: Config, code: set<Addr>, prog: Memory, s: State, g: Step, a: Addr, p: Prev,
                                   ds: seq<(Report, Report)>)
    requires Sound(cfg, code, prog, s, Pairs(ds)) && Away(s, g, a, p) && AllRecur(cfg, g.frame, a, ds)
    ensures var t := Wait(cfg, s, Pairs(ds)).last;
            Through(cfg, s, Pairs(ds), t, Deep(|ds|)) && Away(t, g, a, PrevAway(ds, p))
  {
    var good := (i: nat, t: State) => AwayAfter(t, g, a, p, ds, i);
    var segs, os := PairsStops(ds), [Resume(true, 0), Resume(false, 0)];
    assert segs[0..] == segs && ds[..|ds|] == ds;
    assert AwayAfter(s, g, a, p, ds, 0) by { assert ds[..0] == []; }
    forall k: nat, q, t | 0 <= k < |segs| && good(k, t) && Sound(cfg, code, q, t, segs[k])
      ensures Through(cfg, t, segs[k], Wait(cfg, t, segs[k]).last, os) && good(k + 1, Wait(cfg, t, segs[k]).last)
    {
      DeeperNext(cfg, code, q, t, g, a, p, ds, k);
    }
    EachThrough(cfg, code, prog, s, segs, 0, good, os);
  }

  /** A call, up to the return to the frame of the command. */
  lemma {:induction false} CallRun(cfg: Config, code: set<Addr>, prog: Memory, s: State, g: Step, p: Prev, call: Report,
                                   ds: seq<(Report, Report)>)
    requires Sound(cfg, code, prog, s, CallStops(call, ds)) && Under(s, g, p)
    requires (s.trap.expected == 1 || Unmet(cfg, s.m.chain, p, call)) && Calls(g, p, call)
    requires AllRecur(cfg, g.frame, call.returnTo, ds)
    ensures var t := Wait(cfg, s, CallStops(call, ds)).last;
            && Through(cfg, s, CallStops(call, ds), t, CallOutcomes(|ds|))
            && Away(t, g, call.returnTo, PrevAway(ds, PrevOf(call)))
  {
    SoundFirst(cfg, code, prog, s, call, Pairs(ds));
    CallTurn(cfg, code, prog, s, g, p, call);
    OnReportOk(cfg, code, prog, s, call);
    var q, t := ImageAfter(prog, call), OnReport(cfg, s, call).s;
    DeepRun(cfg, code, q, t, g, call.returnTo, PrevOf(call), ds);
    TurnThen(cfg, s, call, Pairs(ds), Wait(cfg, t, Pairs(ds)).last, Deep(|ds|));
  }

  /** A call and the return. */
  lemma {:induction false} OverRun(cfg: Config, code: set<Addr>, prog: Memory, s: State, g: Step, p: Prev, m: Move)
    requires Sound(cfg, code, prog, s, MoveStops(m)) && Under(s, g, p)
    requires m.Over? && Continues(cfg, s.m.chain, g, p, s.trap.expected == 1, m)
    ensures var t := Wait(cfg, s, MoveStops(m)).last;
            && Through(cfg, s, MoveStops(m), t, MoveOutcomes(m))
            && Under(t, g, PrevAfter(cfg, m)) && t.trap.expected == 0
  {
    var es := CallStops(m.call, m.deeper);
    PartFirst(cfg, code, prog, s, es, [Stopped(m.back)]);
    CallRun(cfg, code, prog, s, g, p, m.call, m.deeper);
    SoundRest(cfg, code, prog, s, es, [Stopped(m.back)]);
    var t, q := Wait(cfg, s, es).last, ProgAtEnd(cfg, prog, s, es);
    assert [Stopped(m.back)] + [] == [Stopped(m.back)];
    SoundFirst(cfg, code, q, t, m.back, []);
    BackTurn(cfg, code, q, t, g, m.call.returnTo, PrevAway(m.deeper, PrevOf(m.call)), m.back);
    OneThrough(cfg, t, m.back);
    ThroughConcat(cfg, s, es, t, CallOutcomes(|m.deeper|), [Stopped(m.back)], OnReport(cfg, t, m.back).s,
                  [Resume(true, 0)]);
  }

  /** A signal, up to where it came. */
  lemma {:induction false} TrampRun(cfg: Config, code: set<Addr>, prog: Memory, s: State, g: Step, p: Prev,
                                    tramp: Report, ds: seq<(Report, Report)>)
    requires Sound(cfg, code, prog, s, CallStops(tramp, ds)) && Under(s, g, p)
    requires (s.trap.expected == 1 || Unmet(cfg, s.m.chain, p, tramp)) && Interrupted(g, p, tramp)
    requires AllRecur(cfg, g.frame, p.pc, ds)
    ensures var t := Wait(cfg, s, CallStops(tramp, ds)).last;
            && Through(cfg, s, CallStops(tramp, ds), t, CallOutcomes(|ds|))
            && Away(t, RangeAway(g, p.pc), p.pc, PrevAway(ds, PrevOf(tramp)))
  {
    SoundFirst(cfg, code, prog, s, tramp, Pairs(ds));
    TrampTurn(cfg, code, prog, s, g, p, tramp);
    OnReportOk(cfg, code, prog, s, tramp);
    var q, t := ImageAfter(prog, tramp), OnReport(cfg, s, tramp).s;
    DeepRun(cfg, code, q, t, RangeAway(g, p.pc), p.pc, PrevOf(tramp), ds);
    TurnThen(cfg, s, tramp, Pairs(ds), Wait(cfg, t, Pairs(ds)).last, Deep(|ds|));
  }

  /** A signal and what its handler does. */
  lemma {:induction false} HandledRun(cfg: Config, code: set<Addr>, prog: Memory, s: State, g: Step, p: Prev, m: Move)
    requires Sound(cfg, code, prog, s, MoveStops(m)) && Under(s, g, p)
    requires m.Handled? && Continues(cfg, s.m.chain, g, p, s.trap.expected == 1, m)
    ensures var t := Wait(cfg, s, MoveStops(m)).last;
            && Through(cfg, s, MoveStops(m), t, MoveOutcomes(m))
            && Under(t, RangeHandled(g, p.pc), PrevAfter(cfg, m)) && t.trap.expected == 0
  {
    var es := CallStops(m.tramp, m.deeper);
    PartFirst(cfg, code, prog, s, es, [Stopped(m.back)]);
    TrampRun(cfg, code, prog, s, g, p, m.tramp, m.deeper);
    SoundRest(cfg, code, prog, s, es, [Stopped(m.back)]);
    var t, q := Wait(cfg, s, es).last, ProgAtEnd(cfg, prog, s, es);
    assert [Stopped(m.back)] + [] == [Stopped(m.back)];
    SoundFirst(cfg, code, q, t, m.back, []);
    HandledTurn(cfg, code, q, t, RangeHandled(g, p.pc), p.pc, PrevAway(m.deeper, PrevOf(m.tramp)), m.back);
    OneThrough(cfg, t, m.back);
    ThroughConcat(cfg, s, es, t, CallOutcomes(|m.deeper|), [Stopped(m.back)], OnReport(cfg, t, m.back).s,
                  [Resume(true, 0)]);
  }

  lemma {:induction false} MoveRun(cfg: Config, code: set<Addr>, prog: Memory, s: State, g: Step, p: Prev, m: Move)
    requires Sound(cfg, code, prog, s, MoveStops(m)) && Under(s, g, p)
    requires Continues(cfg, s.m.chain, g, p, s.trap.expected == 1, m)
    ensures var t := Wait(cfg, s, MoveStops(m)).last;
            && Through(cfg, s, MoveStops(m), t, MoveOutcomes(m))
            && Under(t, RangeAfter(g, p, m), PrevAfter(cfg, m)) && t.trap.expected == 0
  {
    if m.Inside? {
      assert [Stopped(m.r)] + [] == [Stopped(m.r)];
      SoundFirst(cfg, code, prog, s, m.r, []);
      InsideTurn(cfg, code, prog, s, g, p, m.r);
      OneThrough(cfg, s, m.r);
    } else if m.Handled? {
      HandledRun(cfg, code, prog, s, g, p, m);
    } else {
      OverRun(cfg, code, prog, s, g, p, m);
    }
  }

  /** What is met depends on where enabled breakpoints are. */
  lemma {:induction false} SamePath(cfg: Config, c: Chain, d: Chain, g: Step, p: Prev, off: bool, ms: seq<Move>)
    requires SameButInserted(c, d) && Path(cfg, c, g, p, off, ms)
    ensures Path(cfg, d, g, p, off, ms)
    decreases |ms|
  {
    if ms != [] {
      forall a ensures Here(c, a) <==> Here(d, a) { SameHere(c, d, a); }
      SamePath(cfg, c, d, RangeAfter(g, p, ms[0]), PrevAfter(cfg, ms[0]), false, ms[1..]);
    }
  }

  lemma {:induction false} SameEnds(cfg: Config, c: Chain, d: Chain, g: Step, p: Prev, off: bool, f: Finish)
    requires SameButInserted(c, d) && Ends(cfg, c, g, p, off, f)
    ensures Ends(cfg, d, g, p, off, f)
  {
    forall a ensures Here(c, a) <==> Here(d, a) { SameHere(c, d, a); }
  }

  lemma {:induction false} PathRun(cfg: Config, code: set<Addr>, prog: Memory, s: State, g: Step, p: Prev,
                                   ms: seq<Move>)
    requires Sound(cfg, code, prog, s, AllStops(ms)) && Under(s, g, p)
    requires Path(cfg, s.m.chain, g, p, s.trap.expected == 1, ms)
    ensures var t := Wait(cfg, s, AllStops(ms)).last;
            && Through(cfg, s, AllStops(ms), t, AllOutcomes(ms))
            && Under(t, RangeLast(cfg, g, p, ms), PrevLast(cfg, p, ms))
            && (t.trap.expected == 1 <==> ms == [] && s.trap.expected == 1)
    decreases |ms|
  {
    if ms != [] {
      var es, rest := MoveStops(ms[0]), AllStops(ms[1..]);
      PartFirst(cfg, code, prog, s, es, rest);
      MoveRun(cfg, code, prog, s, g, p, ms[0]);
      SoundRest(cfg, code, prog, s, es, rest);
      var t, q := Wait(cfg, s, es).last, ProgAtEnd(cfg, prog, s, es);
      var h, p' := RangeAfter(g, p, ms[0]), PrevAfter(cfg, ms[0]);
      SameBare(s.m.chain, t.m.chain);
      SamePath(cfg, s.m.chain, t.m.chain, h, p', false, ms[1..]);
      PathRun(cfg, code, q, t, h, p', ms[1..]);
      ThroughConcat(cfg, s, es, t, MoveOutcomes(ms[0]), rest, Wait(cfg, t, rest).last, AllOutcomes(ms[1..]));
    }
  }

  /** The loop gives control to the user at `pc`, where no breakpoint was met, after the given resumes. */
  predicate StopsAt(w: Trace, pc: Addr, os: seq<Outcome>) {
    w.halted && w.last.alive && w.last.now == Now(pc, SIGTRAP, 0, false) && Outcomes(w.resumes) == os
  }

  lemma {:induction false} FinishRun(cfg: Config, code: set<Addr>, prog: Memory, s: State, g: Step, p: Prev, f: Finish)
    requires Sound(cfg, code, prog, s, FinishStops(f)) && Under(s, g, p)
    requires Ends(cfg, s.m.chain, g, p, s.trap.expected == 1, f)
    ensures StopsAt(Wait(cfg, s, FinishStops(f)), FinishPc(f), FinishOutcomes(f))
  {
    match f
    case Leaving(r) =>
      LastTurn(cfg, s, g, p, r);
    case Returning(call, deeper, back) =>
      var es := CallStops(call, deeper);
      PartFirst(cfg, code, prog, s, es, [Stopped(back)]);
      CallRun(cfg, code, prog, s, g, p, call, deeper);
      var t := Wait(cfg, s, es).last;
      LastReturn(cfg, t, g, call.returnTo, PrevAway(deeper, PrevOf(call)), back);
      WaitConcat(cfg, s, es, [Stopped(back)]);
      assert Wait(cfg, s, es).resumes + [] == Wait(cfg, s, es).resumes;
  }

  /** A stepping command under way goes on over any moves within its range, and stops exactly where it is left. */
  lemma {:induction false} StepRun(cfg: Config, code: set<Addr>, prog: Memory, s: State, g: Step, p: Prev,
                                   ms: seq<Move>, f: Finish)
    requires LoopInv(cfg, code, prog, s) && Under(s, g, p)
    requires WellBehaved(cfg, code, prog, s, AllStops(ms) + FinishStops(f))
    requires Path(cfg, s.m.chain, g, p, s.trap.expected == 1, ms)
    requires Ends(cfg, s.m.chain, RangeLast(cfg, g, p, ms), PrevLast(cfg, p, ms), ms == [] && s.trap.expected == 1, f)
    ensures StopsAt(Wait(cfg, s, AllStops(ms) + FinishStops(f)), FinishPc(f), AllOutcomes(ms) + FinishOutcomes(f))
  {
    var es, fs := AllStops(ms), FinishStops(f);
    BehavesSound(cfg, code, prog, s, es + fs);
    PartFirst(cfg, code, prog, s, es, fs);
    PathRun(cfg, code, prog, s, g, p, ms);
    SoundRest(cfg, code, prog, s, es, fs);
    var t, q := Wait(cfg, s, es).last, ProgAtEnd(cfg, prog, s, es);
    var h := RangeLast(cfg, g, p, ms);
    SameBare(s.m.chain, t.m.chain);
    SameEnds(cfg, s.m.chain, t.m.chain, h, PrevLast(cfg, p, ms), ms == [] && s.trap.expected == 1, f);
    FinishRun(cfg, code, q, t, h, PrevLast(cfg, p, ms), f);
    WaitConcat(cfg, s, es, fs);
    OutcomesConcat(Wait(cfg, s, es).resumes, Wait(cfg, t, fs).resumes);
  }

  /** The range that a command sets. */
  function RangeOf(g: Go): (r: Step) { Step(g.start, g.end, g.frame, g.over, false) }

  /** Where the command begins. */
  function PrevOfGo(s: State, g: Go): (p: Prev) {
    Prev(if g.addr.Some? then g.addr.value else s.now.pc, g.sp, g.func, g.tramp)
  }

  /** The whole command: from the prompt on the program is run through its range and the calls made there, and the user
      gets control at the first instruction that is not part of it, and not before. */
  lemma {:induction false} StepCommand(cfg: Config, code: set<Addr>, s: State, g: Go, ms: seq<Move>, f: Finish)
    requires Quiet(cfg, code, s) && s.alive && !Starting(s) && GoOk(code, g) && g.step >= 0 && g.end != 0
    requires WellBehaved(cfg, code, s.m.mem, Proceed(cfg, s, g).s, AllStops(ms) + FinishStops(f))
    requires var c, off := Prepare(s, g).m.chain, StepsOff(Prepare(s, g), g);
             && Path(cfg, c, RangeOf(g), PrevOfGo(s, g), off, ms)
             && Ends(cfg, c, RangeLast(cfg, RangeOf(g), PrevOfGo(s, g), ms), PrevLast(cfg, PrevOfGo(s, g), ms),
                     ms == [] && off, f)
    ensures StopsAt(Wait(cfg, Proceed(cfg, s, g).s, AllStops(ms) + FinishStops(f)), FinishPc(f),
                    AllOutcomes(ms) + FinishOutcomes(f))
  {
    var n, c, off := Proceed(cfg, s, g), Prepare(s, g).m.chain, StepsOff(Prepare(s, g), g);
    AfterProceed(cfg, code, s, g);
    InsertOnlyWanted(cfg.brk, c, s.m.mem, 0);
    PrepareQuiet(code, s, g);
    SamePath(cfg, c, n.s.m.chain, RangeOf(g), PrevOfGo(s, g), off, ms);
    SameEnds(cfg, c, n.s.m.chain, RangeLast(cfg, RangeOf(g), PrevOfGo(s, g), ms), PrevLast(cfg, PrevOfGo(s, g), ms),
             ms == [] && off, f);
    StepRun(cfg, code, s.m.mem, n.s, RangeOf(g), PrevOfGo(s, g), ms, f);
  }

  // ---------------------------------------------------------------------------
  // Stepping into a function

  /** The program has come to a function that the command steps into, but not to the end of its prologue. */
  predicate Enters(g: Step, p: Prev, r: Report) {
    && Trapped(r, r.pc) && !InRange(g, p, r, r.pc) && !SignalCame(p, r) && AtStart(p, r, r.pc)
    && g.over < 0 && r.hasSymbol && AfterPrologue(r) != r.pc && AfterPrologue(r) != 0
  }

  /** The end of the prologue is hit, inside of the function. */
  predicate PrologueOver(cfg: Config, a: Addr, p: Prev, r: Report) {
    Trapped(r, a) && r.pc == a + cfg.decr && !SignalCame(p, r) && r.func != a
  }

  lemma {:induction false} EnterTurn(cfg: Config, code: set<Addr>, prog: Memory, s: State, g: Step, p: Prev, r: Report)
    requires LoopInv(cfg, code, prog, s) && ReportOk(cfg, code, prog, s, r) && Under(s, g, p)
    requires (s.trap.expected == 1 || Unmet(cfg, s.m.chain, p, r)) && Enters(g, p, r)
    ensures var n := OnReport(cfg, s, r);
            && n.o == Resume(false, 0) && n.s.alive && n.s.trap == Traps(0, false, false, false) && n.s.m.bpIn
            && n.s.step == g.(end := g.start, frame := 0) && n.s.m.resumeAddr == AfterPrologue(r)
            && n.s.prev.tramp == r.tramp && SameButInserted(s.m.chain, n.s.m.chain)
  {
    NothingMet(cfg, s, g, p, r);
    var a, q, e := Arrive(s, r), ImageAfter(prog, r), AfterPrologue(r);
    ArriveMachine(cfg, code, prog, s.m, r);
    assert StepPlan(a, r) == RunTo(e, PrologueSkipped);
    SetResumeOk(cfg, code, q, a.m, e);
    var t := a.(m := SetResume(cfg, a.m, e), step := g.(end := g.start, frame := 0),
                prev := PrevOf(r).(func := e));
    assert TurnEnd(cfg, a, r, false, false) == Restart(cfg, t, false);
    Resumed(cfg, code, q, t);
  }

  /** A function that is stepped into stops the program at the end of its prologue exactly if the range of the command
      does not start at 0; otherwise the program runs free. */
  lemma {:induction false} StepInto(cfg: Config, code: set<Addr>, prog: Memory, s: State, g: Step, p: Prev,
                                    call: Report, end: Report)
    requires LoopInv(cfg, code, prog, s) && Under(s, g, p)
    requires WellBehaved(cfg, code, prog, s, [Stopped(call)] + [Stopped(end)])
    requires (s.trap.expected == 1 || Unmet(cfg, s.m.chain, p, call)) && Enters(g, p, call)
    requires PrologueOver(cfg, AfterPrologue(call), PrevOf(call), end)
    ensures var w := Wait(cfg, s, [Stopped(call)] + [Stopped(end)]);
            if g.start != 0 then StopsAt(w, AfterPrologue(call), [Resume(false, 0)])
            else !w.halted && Outcomes(w.resumes) == [Resume(false, 0), Resume(false, 0)]
  {
    BehavesSound(cfg, code, prog, s, [Stopped(call)] + [Stopped(end)]);
    SoundFirst(cfg, code, prog, s, call, [Stopped(end)]);
    EnterTurns(cfg, code, prog, s, g, p, call, end);
    TwoTurns(cfg, s, call, end);
    var n := OnReport(cfg, s, call);
    assert Outcomes([n]) == [n.o] && Outcomes([n, OnReport(cfg, n.s, end)]) == [n.o, OnReport(cfg, n.s, end).o];
  }

  lemma {:induction false} EnterTurns(cfg: Config, code: set<Addr>, prog: Memory, s: State, g: Step, p: Prev,
                                      call: Report, end: Report)
    requires LoopInv(cfg, code, prog, s) && ReportOk(cfg, code, prog, s, call) && Under(s, g, p)
    requires (s.trap.expected == 1 || Unmet(cfg, s.m.chain, p, call)) && Enters(g, p, call)
    requires PrologueOver(cfg, AfterPrologue(call), PrevOf(call), end)
    ensures var n := OnReport(cfg, s, call);
            var k := OnReport(cfg, n.s, end);
            && n.o == Resume(false, 0)
            && if g.start != 0 then k.o.Halt? && k.s.alive && k.s.now == Now(AfterPrologue(call), SIGTRAP, 0, false)
               else k.o == Resume(false, 0)
  {
    EnterTurn(cfg, code, prog, s, g, p, call);
    PrologueTurn(cfg, OnReport(cfg, s, call).s, g, AfterPrologue(call), end);
  }

  lemma {:induction false} TwoTurns(cfg: Config, s: State, a: Report, b: Report)
    requires OnReport(cfg, s, a).o.Resume?
    ensures var n := OnReport(cfg, s, a);
            var k := OnReport(cfg, n.s, b);
            Wait(cfg, s, [Stopped(a)] + [Stopped(b)])
            == if k.o.Halt? then Trace(k.s, true, [n]) else Trace(k.s, false, [n, k])
  {
    var n := OnReport(cfg, s, a);
    OneTurn(cfg, s, a);
    OneTurn(cfg, n.s, b);
    WaitConcat(cfg, s, [Stopped(a)], [Stopped(b)]);
    assert [n] + [] == [n] && [n] + [OnReport(cfg, n.s, b)] == [n, OnReport(cfg, n.s, b)];
  }

  lemma {:induction false} PrologueTurn(cfg: Config, s: State, g: Step, a: Addr, r: Report)
    requires s.alive && s.trap == Traps(0, false, false, false) && s.m.bpIn && !g.pull
    requires s.step == g.(end := g.start, frame := 0) && s.m.resumeAddr == a != 0
    requires Trapped(r, a) && r.pc == a + cfg.decr && (r.tramp ==> s.prev.tramp) && r.func != a
    ensures var n := OnReport(cfg, s, r);
            if g.start != 0 then n.o.Halt? && n.s.alive && n.s.now == Now(a, SIGTRAP, 0, false)
            else n.o == Resume(false, 0)
  {
    var t := Arrive(s, r).(now := Now(a, SIGTRAP, 0, false));
    var st := StopStatus(s.m.chain, a, r.fp, r.conds, 0, 0);
    assert Classify(cfg, Arrive(s, r), r, st) == Cause(t, true, false, false);
    var b := t.(m := RemoveStep(t.m).(resumeAddr := 0));
    assert AtBreak(t, r, true) == Phase(b, false, false);
    assert StepPlan(b, r) == if g.start != 0 then StopHere else RunOn;
  }

  // ---------------------------------------------------------------------------
  // One trap only

  /** A command that is to return after one trap returns at the first one, whatever it is, without a breakpoint. */
  lemma {:induction false} OneTrap(cfg: Config, s: State, g: Go, r: Report)
    requires g.step < 0 && r.signal == SIGTRAP
    ensures var p := Proceed(cfg, s, g).s; OnReport(cfg, p, r) == Next(Arrive(p, r), Halt)
  {
  }

  /** A program that is in the stack, where a call by hand returns to, is not resumed. */
  lemma {:induction false} CallReturned(cfg: Config, s: State, r: Report)
    ensures var n := OnReport(cfg, s, r); r.sp < n.s.now.pc < r.fp ==> n.o.Halt?
  {
    var a := Arrive(s, r);
    var c := Classify(cfg, a, r, StopStatus(a.m.chain, a.now.pc - cfg.decr, r.fp, r.conds, 0, 0));
    TurnIs(cfg, s, r, c);
    HandledPc(cfg, c, r);
  }

  lemma {:induction false} HandledPc(cfg: Config, c: Cause, r: Report)
    ensures var n := Handle(cfg, c, r); n.o.Resume? ==> !(r.sp < n.s.now.pc < r.fp)
  {
    if !c.halt && !(c.random && StopsFor(cfg, c.s)) {
      var b := if c.random then Phase(c.s, false, false) else AtBreak(c.s, r, c.hit);
      if !b.halt && !InDummy(r, b.s.now.pc) { TurnPc(cfg, b.s, r, b.another, c.random); }
    }
  }

  lemma {:induction false} TurnPc(cfg: Config, s: State, r: Report, another: bool, random: bool)
    ensures TurnEnd(cfg, s, r, another, random).s.now.pc == s.now.pc
  {
    assert BeforeRestart(cfg, s, r, another, random).s.now == s.now by {
      if !random { match StepPlan(s, r) case RunOn => case StopHere => case RunTo(_, _) => }
    }
  }
}
