/** For which breakpoint the program stops, and how ignore counts are used up over any number of hits. */
module BreakHits {
  import opened Common
  import opened Breakpoints
  import opened RunControl
  import opened RunSafety
  import opened RunSessions

  /** The inferior is at `a` in frame `fp`, and the conditions of the breakpoints `conds` are true. */
  datatype Arrival = Arrival(a: Addr, fp: int, conds: set<int>)

  /** Frame and condition of breakpoint `i` are right. */
  predicate Meant(c: Chain, i: nat, q: Arrival)
    requires i < |c|
  {
    On(c[i], q.a) && (c[i].frame == 0 || c[i].frame == q.fp) && (c[i].conditional ==> i in q.conds)
  }

  /** And its ignore count is used up. */
  predicate Due(c: Chain, i: nat, q: Arrival)
    requires i < |c|
  {
    Meant(c, i, q) && c[i].ignoreCount == 0
  }

  /** No breakpoint of the chain from `i` to `k` is due. */
  predicate NoneDue(c: Chain, i: nat, k: nat, q: Arrival)
    requires k <= |c|
  {
    forall j :: i <= j < k ==> !Due(c, j, q)
  }

  /** breakpoint_stop_status */
  function Status(c: Chain, q: Arrival): (r: (Chain, int)) { StopStatus(c, q.a, q.fp, q.conds, 0, 0) }

  /** The answer is the number of the first breakpoint that is due, -1 if there are breakpoints but none is, and 0 if
      there are none. Of those in front of it the ones that are meant have one hit less to ignore, a temporary one that
      stops is disabled, and nothing else changes. */
  lemma {:induction false} StatusExact(c: Chain, q: Arrival)
    ensures var (d, status) := Status(c, q);
            && |d| == |c|
            && (forall k :: 0 <= k < |c| && NoneDue(c, 0, k, q) && Due(c, k, q) ==>
                  status == c[k].number && d[k] == c[k].(enable := d[k].enable)
                  && d[k].enable == if c[k].enable == Temporary then Disabled else c[k].enable)
            && (forall k :: 0 <= k < |c| && NoneDue(c, 0, k, q) && Meant(c, k, q) && c[k].ignoreCount > 0 ==>
                  d[k] == c[k].(ignoreCount := d[k].ignoreCount) && d[k].ignoreCount + 1 == c[k].ignoreCount)
            && (forall k :: 0 <= k < |c| && (!NoneDue(c, 0, k, q) || !Meant(c, k, q)) ==> d[k] == c[k])
            && (NoneDue(c, 0, |c|, q) ==> status == if Here(c, q.a) then -1 else 0)
  {
    StatusFrom(c, q, 0, 0);
    var d := Status(c, q).0;
    assert forall k {:trigger d[k]} {:trigger c[k]} :: 0 <= k < |c| ==> Asked(c, d, 0, k, q);
  }

  /** What becomes of breakpoint `k` if those before place `i` are passed over. */
  predicate Asked(c: Chain, d: Chain, i: nat, k: nat, q: Arrival)
    requires k < |c| == |d|
  {
    if !NoneDue(c, i, k, q) || !Meant(c, k, q) then d[k] == c[k]
    else if c[k].ignoreCount > 0 then d[k] == c[k].(ignoreCount := c[k].ignoreCount - 1)
    else d[k] == c[k].(enable := if c[k].enable == Temporary then Disabled else c[k].enable)
  }

  lemma {:induction false} StatusFrom(c: Chain, q: Arrival, i: nat, cont: int)
    requires i <= |c|
    ensures var (d, status) := StopStatus(c, q.a, q.fp, q.conds, i, cont);
            && |d| == |c| && (forall k :: 0 <= k < i ==> d[k] == c[k])
            && (forall k :: i <= k < |c| ==> Asked(c, d, i, k, q))
            && (forall k :: i <= k < |c| && NoneDue(c, i, k, q) && Due(c, k, q) ==> status == c[k].number)
            && (NoneDue(c, i, |c|, q) ==> status == if exists k :: i <= k < |c| && On(c[k], q.a) then -1 else cont)
    decreases |c| - i
  {
    if i < |c| && !Due(c, i, q) {
      var e := if Meant(c, i, q) then c[i := c[i].(ignoreCount := c[i].ignoreCount - 1)] else c;
      var d := StopStatus(e, q.a, q.fp, q.conds, i + 1, if On(c[i], q.a) then -1 else cont).0;
      StatusFrom(e, q, i + 1, if On(c[i], q.a) then -1 else cont);
      SameDue(c, e, q, i);
      forall k | i <= k < |c| ensures Asked(c, d, i, k, q) {
        if k > i { assert Asked(e, d, i + 1, k, q); }
      }
    }
  }

  /** What comes after place `i` is the same in both chains. */
  lemma {:induction false} SameDue(c: Chain, e: Chain, q: Arrival, i: nat)
    requires i < |c| == |e| && !Due(c, i, q) && forall k :: i < k < |c| ==> e[k] == c[k]
    ensures forall k :: i < k <= |c| ==> (NoneDue(c, i, k, q) <==> NoneDue(e, i + 1, k, q))
    ensures forall k :: i < k < |c| ==> (Meant(c, k, q) <==> Meant(e, k, q)) && (Due(c, k, q) <==> Due(e, k, q))
  {
    assert forall k :: i < k < |c| ==> (Meant(c, k, q) <==> Meant(e, k, q)) && (Due(c, k, q) <==> Due(e, k, q));
    forall k | i < k <= |c| ensures NoneDue(c, i, k, q) <==> NoneDue(e, i + 1, k, q) {
      if NoneDue(e, i + 1, k, q) {
        forall j | i <= j < k ensures !Due(c, j, q) { assert j > i ==> !Due(e, j, q); }
      } else {
        var j :| i + 1 <= j < k && Due(e, j, q);
        assert Due(c, j, q);
      }
    }
  }

  // ---------------------------------------------------------------------------
  // Any number of arrivals

  /** The chain after the arrivals `qs`. */
  function After(c: Chain, qs: seq<Arrival>): (r: Chain)
    decreases |qs|
  {
    if qs == [] then c else After(Status(c, qs[0]).0, qs[1..])
  }

  /** For how many of them breakpoint `i` is meant. */
  function Meetings(c: Chain, i: nat, qs: seq<Arrival>): (r: nat)
    requires i < |c|
    decreases |qs|
  {
    if qs == [] then 0 else (if Meant(c, i, qs[0]) then 1 else 0) + Meetings(c, i, qs[1..])
  }

  /** No other breakpoint is enabled at the address of breakpoint `i`. */
  predicate Alone(c: Chain, i: nat)
    requires i < |c|
  {
    forall j :: 0 <= j < |c| && j != i ==> !On(c[j], c[i].address)
  }

  /** The breakpoint once it has been met `m` times. */
  function Ignored(b: Breakpoint, m: nat): (r: Breakpoint) {
    b.(ignoreCount := if m <= b.ignoreCount then b.ignoreCount - m else 0)
  }

  /** One arrival at most uses up one of the hits to be ignored. */
  lemma {:induction false} OneArrival(c: Chain, i: nat, q: Arrival)
    requires i < |c| && Alone(c, i)
    ensures var (d, status) := Status(c, q);
            && |d| == |c|
            && ((Due(c, i, q) && c[i].enable == Temporary)
                || (Alone(d, i) && d[i] == Ignored(c[i], if Meant(c, i, q) then 1 else 0)))
            && (Meant(c, i, q) ==> status == if c[i].ignoreCount == 0 then c[i].number else -1)
  {
    StatusExact(c, q);
    if Meant(c, i, q) {
      assert forall j :: 0 <= j < |c| && j != i ==> !Due(c, j, q);
      assert On(c[i], q.a);
    }
  }

  lemma {:induction false} MeetingsSame(c: Chain, d: Chain, i: nat, qs: seq<Arrival>)
    requires i < |c| && i < |d| && d[i] == c[i].(ignoreCount := d[i].ignoreCount)
    ensures Meetings(d, i, qs) == Meetings(c, i, qs)
    decreases |qs|
  {
    if qs != [] { MeetingsSame(c, d, i, qs[1..]); }
  }

  /** Of the arrivals for which a breakpoint is meant, alone at its address, exactly as many pass as are to be ignored,
      and from the next on it stops. A temporary one stops once. */
  lemma {:induction false} IgnoresUsedUp(c: Chain, i: nat, qs: seq<Arrival>, q: Arrival)
    requires i < |c| && Alone(c, i) && Meant(c, i, q)
    requires c[i].enable == Temporary ==> Meetings(c, i, qs) <= c[i].ignoreCount
    ensures var d, m := After(c, qs), Meetings(c, i, qs);
            && |d| == |c| && d[i] == Ignored(c[i], m)
            && Status(d, q).1 == if m < c[i].ignoreCount then -1 else c[i].number
    decreases |qs|
  {
    if qs == [] {
      OneArrival(c, i, q);
    } else {
      var d := Status(c, qs[0]).0;
      OneArrival(c, i, qs[0]);
      MeetingsSame(c, d, i, qs[1..]);
      IgnoresUsedUp(d, i, qs[1..], q);
    }
  }

  // ---------------------------------------------------------------------------
  // Any number of hits in the wait loop

  /** The program runs free, with breakpoints in and nothing else on the debugger's mind. */
  predicate RunsFree(s: State) {
    && s.alive && s.trap == Traps(0, false, false, false) && s.step.end == 0 && !s.step.pull
    && s.m.resumeAddr == 0 && s.m.bpIn
  }

  function ArrivalOf(cfg: Config, r: Report): (q: Arrival) { Arrival(r.pc - cfg.decr, r.fp, r.conds) }

  /** The trap of breakpoint `i`. At address 0 it would be taken for that of the step-resume breakpoint. */
  predicate TrapOf(cfg: Config, c: Chain, i: nat, r: Report)
    requires i < |c|
  {
    r.signal == SIGTRAP && Meant(c, i, ArrivalOf(cfg, r)) && r.pc - cfg.decr != 0 && !InDummy(r, r.pc - cfg.decr)
  }

  /** The trap after one instruction. */
  predicate StepTrap(r: Report) { r.signal == SIGTRAP && !InDummy(r, r.pc) }

  /** The state in which a breakpoint that does not stop the program is to be stepped off. */
  predicate SteppingOff(s: State) {
    && s.alive && s.trap == Traps(1, false, false, false) && s.step.end == 0 && !s.step.pull
    && s.m.resumeAddr == 0 && !s.m.bpIn
  }

  /** A hit that is ignored: the breakpoints are taken out, and one instruction of the program's own is executed. */
  lemma {:induction false} HitIgnored(cfg: Config, code: set<Addr>, prog: Memory, s: State, i: nat, r: Report)
    requires LoopInv(cfg, code, prog, s) && RunsFree(s) && ReportOk(cfg, code, prog, s, r)
    requires i < |s.m.chain| && Alone(s.m.chain, i) && TrapOf(cfg, s.m.chain, i, r) && s.m.chain[i].ignoreCount > 0
    ensures var n := OnReport(cfg, s, r);
            && n.o == Resume(true, 0) && SteppingOff(n.s) && n.s.m.mem == ImageAfter(prog, r)
            && SameButInserted(Status(s.m.chain, ArrivalOf(cfg, r)).0, n.s.m.chain)
            && LoopInv(cfg, code, ImageAfter(prog, r), n.s)
  {
    var a, p := Arrive(s, r), ImageAfter(prog, r);
    var st := Status(s.m.chain, ArrivalOf(cfg, r));
    OneArrival(s.m.chain, i, ArrivalOf(cfg, r));
    OnReportOk(cfg, code, prog, s, r);
    ArriveMachine(cfg, code, prog, s.m, r);
    StatusMachine(cfg, code, p, a.m, r.pc - cfg.decr, r.fp, r.conds);
    var t := a.(m := a.m.(chain := st.0), now := Now(r.pc - cfg.decr, SIGTRAP, -1, false));
    assert Classify(cfg, a, r, st) == Cause(t, false, false, false);
    RemoveBothOk(cfg, code, p, t.m);
    RemoveBreakpointsOk(cfg, code, p, t.m);
    var b := t.(m := RemoveStep(RemoveBreakpoints(t.m)).(bpIn := false));
    assert AtBreak(t, r, false) == Phase(b, true, false);
    assert OnReport(cfg, s, r) == TurnEnd(cfg, b, r, true, false);
  }

  /** The breakpoints are put back, and the program runs free again. */
  lemma {:induction false} SteppedOff(cfg: Config, code: set<Addr>, prog: Memory, s: State, r: Report)
    requires LoopInv(cfg, code, prog, s) && SteppingOff(s) && ReportOk(cfg, code, prog, s, r) && StepTrap(r)
    ensures var n := OnReport(cfg, s, r);
            && n.o == Resume(false, 0) && RunsFree(n.s) && AllIn(n.s.m.chain) && SameButInserted(s.m.chain, n.s.m.chain)
            && LoopInv(cfg, code, ImageAfter(prog, r), n.s)
  {
    var a, p := Arrive(s, r), ImageAfter(prog, r);
    var st := Status(s.m.chain, ArrivalOf(cfg, r));
    OnReportOk(cfg, code, prog, s, r);
    ArriveMachine(cfg, code, prog, s.m, r);
    assert Classify(cfg, a, r, st) == Cause(a, false, false, false);
    assert OnReport(cfg, s, r) == TurnEnd(cfg, a, r, false, false);
    InsertBothOk(cfg, code, p, a.m);
    InsertOnlyWanted(cfg.brk, a.m.chain, a.m.mem, 0);
  }

  /** A hit with nothing left to ignore stops the program at the breakpoint. */
  lemma {:induction false} HitStops(cfg: Config, s: State, i: nat, r: Report)
    requires RunsFree(s) && i < |s.m.chain| && Alone(s.m.chain, i) && Numbered(s.m.chain)
    requires TrapOf(cfg, s.m.chain, i, r) && s.m.chain[i].ignoreCount == 0
    ensures var n := OnReport(cfg, s, r);
            n.o.Halt? && n.s.alive && n.s.now.bp == s.m.chain[i].number && n.s.now.pc == s.m.chain[i].address
  {
    var a := Arrive(s, r);
    var st := Status(s.m.chain, ArrivalOf(cfg, r));
    OneArrival(s.m.chain, i, ArrivalOf(cfg, r));
    var t := a.(m := a.m.(chain := st.0), now := Now(r.pc - cfg.decr, SIGTRAP, st.1, false));
    assert Classify(cfg, a, r, st) == Cause(t, false, false, false);
    assert AtBreak(t, r, false) == Phase(t, false, true);
  }

  /** Nothing happens but that breakpoint `i` is met, again and again. */
  predicate MetAgain(cfg: Config, c: Chain, i: nat, es: seq<Stop>)
    requires i < |c|
  {
    forall k :: 0 <= k < |es| ==>
      es[k].Stopped? && if k % 2 == 0 then TrapOf(cfg, c, i, es[k].report) else StepTrap(es[k].report)
  }

  /** The chain when one more hit has been ignored. */
  predicate OnceMore(c: Chain, d: Chain, i: nat)
    requires i < |c|
  {
    && |d| == |c| && Alone(d, i) && c[i].ignoreCount > 0
    && d[i] == c[i].(ignoreCount := c[i].ignoreCount - 1, shadow := d[i].shadow, inserted := d[i].inserted)
  }

  lemma {:induction false} OnceMoreMet(cfg: Config, c: Chain, d: Chain, i: nat, es: seq<Stop>)
    requires i < |c| && OnceMore(c, d, i) && MetAgain(cfg, c, i, es) && |es| >= 2
    ensures MetAgain(cfg, d, i, es[2..])
  {
    forall k | 0 <= k < |es[2..]|
      ensures var e := es[2..][k];
              e.Stopped? && if k % 2 == 0 then TrapOf(cfg, d, i, e.report) else StepTrap(e.report)
    {
      assert es[2..][k] == es[k + 2];
    }
  }

  /** The two turns for a hit that is ignored. */
  lemma {:induction false} TwoTurns(cfg: Config, code: set<Addr>, prog: Memory, s: State, i: nat, es: seq<Stop>)
    requires LoopInv(cfg, code, prog, s) && RunsFree(s) && WellBehaved(cfg, code, prog, s, es) && |es| >= 2
    requires i < |s.m.chain| && Alone(s.m.chain, i) && MetAgain(cfg, s.m.chain, i, es)
             && s.m.chain[i].ignoreCount > 0
    ensures var n1 := OnStop(cfg, s, es[0]);
            var n2 := OnStop(cfg, n1.s, es[1]);
            var p := ProgAfter(ProgAfter(prog, es[0]), es[1]);
            && n1.o == Resume(true, 0) && n2.o == Resume(false, 0) && RunsFree(n2.s) && LoopInv(cfg, code, p, n2.s)
            && OnceMore(s.m.chain, n2.s.m.chain, i) && WellBehaved(cfg, code, p, n2.s, es[2..])
  {
    var r := es[0].report;
    OneArrival(s.m.chain, i, ArrivalOf(cfg, r));
    HitIgnored(cfg, code, prog, s, i, r);
    var n1 := OnStop(cfg, s, es[0]);
    assert es[1..][0] == es[1] && es[1..][1..] == es[2..];
    assert WellBehaved(cfg, code, ProgAfter(prog, es[0]), n1.s, es[1..]);
    SteppedOff(cfg, code, ImageAfter(prog, r), n1.s, es[1].report);
  }

  lemma {:induction false} TwoWaits(cfg: Config, s: State, es: seq<Stop>)
    requires |es| >= 2 && OnStop(cfg, s, es[0]).o.Resume?
    ensures var n1 := OnStop(cfg, s, es[0]);
            var n2 := OnStop(cfg, n1.s, es[1]);
            n2.o.Resume? ==>
              var t := Wait(cfg, n2.s, es[2..]); Wait(cfg, s, es) == t.(resumes := [n1, n2] + t.resumes)
  {
    var n1 := OnStop(cfg, s, es[0]);
    var n2 := OnStop(cfg, n1.s, es[1]);
    assert es[1..][0] == es[1] && es[1..][1..] == es[2..];
    if n2.o.Resume? {
      var t := Wait(cfg, n2.s, es[2..]);
      assert [n1] + ([n2] + t.resumes) == [n1, n2] + t.resumes;
    }
  }

  /** The outcome of `n` stops at breakpoint `b` and behind it. */
  predicate StopsAtLast(t: Trace, n: nat, b: Breakpoint) {
    && |t.resumes| == Min(n, 2 * b.ignoreCount) && (t.halted <==> n > 2 * b.ignoreCount)
    && (t.halted ==> t.last.alive && t.last.now.bp == b.number && t.last.now.pc == b.address)
    && forall k :: 0 <= k < |t.resumes| ==> t.resumes[k].o == Resume(k % 2 == 0, 0)
  }

  lemma {:induction false} TwoMore(t: Trace, n: nat, b: Breakpoint, c: Breakpoint, n1: Next, n2: Next)
    requires StopsAtLast(t, n, c) && b.ignoreCount == c.ignoreCount + 1 && b.number == c.number
             && b.address == c.address
    requires n1.o == Resume(true, 0) && n2.o == Resume(false, 0)
    ensures StopsAtLast(t.(resumes := [n1, n2] + t.resumes), n + 2, b)
  {
    var ns := [n1, n2] + t.resumes;
    forall k | 0 <= k < |ns| ensures ns[k].o == Resume(k % 2 == 0, 0) {
      if k >= 2 { assert ns[k] == t.resumes[k - 2]; }
    }
  }

  /** A breakpoint with `n` hits to ignore stops the program at the next one, and not before. For each hit ignored the
      program is resumed twice: for one instruction, and then to run free. */
  lemma {:induction false} IgnoredRun(cfg: Config, code: set<Addr>, prog: Memory, s: State, i: nat, es: seq<Stop>)
    requires LoopInv(cfg, code, prog, s) && RunsFree(s) && WellBehaved(cfg, code, prog, s, es)
    requires i < |s.m.chain| && Alone(s.m.chain, i) && MetAgain(cfg, s.m.chain, i, es)
    ensures StopsAtLast(Wait(cfg, s, es), |es|, s.m.chain[i])
    decreases |es|
  {
    if es != [] {
      if s.m.chain[i].ignoreCount == 0 {
        HitStops(cfg, s, i, es[0].report);
      } else if |es| == 1 {
        HitIgnored(cfg, code, prog, s, i, es[0].report);
        var n := OnStop(cfg, s, es[0]);
        assert Wait(cfg, s, es) == Wait(cfg, n.s, []).(resumes := [n] + []);
      } else {
        TwoTurns(cfg, code, prog, s, i, es);
        TwoWaits(cfg, s, es);
        var n1 := OnStop(cfg, s, es[0]);
        var n2 := OnStop(cfg, n1.s, es[1]);
        OnceMoreMet(cfg, s.m.chain, n2.s.m.chain, i, es);
        IgnoredRun(cfg, code, ProgAfter(ProgAfter(prog, es[0]), es[1]), n2.s, i, es[2..]);
        TwoMore(Wait(cfg, n2.s, es[2..]), |es| - 2, s.m.chain[i], n2.s.m.chain[i], n1, n2);
      }
    }
  }

  // ---------------------------------------------------------------------------
  // Which breakpoints are gone afterwards

  /** Breakpoints but for their duplicate marks. */
  function Plain(c: Chain): (r: Chain)
    ensures |r| == |c|
  {
    seq(|c|, i requires 0 <= i < |c| => c[i].(duplicate := false))
  }

  /** The chain without the first breakpoint numbered `n`, if that is to be deleted when it is hit or in any case. */
  function Without(c: Chain, n: int, always: bool): (r: Chain) {
    if c == [] then []
    else if c[0].number == n then (if always || c[0].enable == Delete then c[1..] else c)
    else [c[0]] + Without(c[1..], n, always)
  }

  lemma {:induction false} DeleteTakesOne(c: Chain, m: Memory, i: nat)
    requires i < |c|
    ensures Plain(DeleteAt(c, m, i).0) == Plain(c)[..i] + Plain(c)[i + 1..]
  {
    CheckDuplicatesMarks(c[..i] + c[i + 1..], c[i].address);
  }

  lemma {:induction false} FindFirst(c: Chain, n: int, i: nat)
    requires i <= |c|
    ensures var f := FindNumber(c, n, i);
            forall k :: i <= k < (if f.Some? then f.value else |c|) ==> c[k].number != n
    decreases |c| - i
  {
    if i < |c| && c[i].number != n { FindFirst(c, n, i + 1); }
  }

  lemma {:induction false} WithoutAt(c: Chain, n: int, always: bool, f: nat)
    requires f <= |c| && (forall k :: 0 <= k < f ==> c[k].number != n) && (f < |c| ==> c[f].number == n)
    ensures Without(c, n, always)
            == if f < |c| && (always || c[f].enable == Delete) then c[..f] + c[f + 1..] else c
    decreases |c|
  {
    if f > 0 {
      WithoutAt(c[1..], n, always, f - 1);
      assert c == [c[0]] + c[1..];
      if f < |c| {
        assert c[1..][..f - 1] == c[1..f] && c[1..][f..] == c[f + 1..];
        assert c[..f] == [c[0]] + c[1..f];
      }
    }
  }

  /** Deleting the breakpoint that was found. */
  lemma {:induction false} FoundDeleted(m: Machine, n: int, always: bool)
    ensures var f := FindNumber(m.chain, n, 0);
            var t := if f.Some? && (always || m.chain[f.value].enable == Delete) then DeleteFound(m, f) else m;
            Plain(t.chain) == Without(Plain(m.chain), n, always)
  {
    var f := FindNumber(m.chain, n, 0);
    FindFirst(m.chain, n, 0);
    WithoutAt(Plain(m.chain), n, always, if f.Some? then f.value else |m.chain|);
    if f.Some? { DeleteTakesOne(m.chain, m.mem, f.value); }
  }

  /** breakpoint_auto_delete: of the breakpoints with the number of the one hit the first goes if it is one to be
      deleted, and then the first momentary one, unless there are commands. The others stay, in their order. */
  lemma {:induction false} AutoDeleteExact(m: Machine, n: int, commands: bool)
    ensures var hit := if n == 0 then Plain(m.chain) else Without(Plain(m.chain), n, false);
            Plain(AutoDelete(m, n, commands).chain) == if commands then hit else Without(hit, MOMENTARY, true)
  {
    FoundDeleted(m, n, false);
    var f := if n == 0 then None else FindNumber(m.chain, n, 0);
    var t := if f.Some? && m.chain[f.value].enable == Delete then DeleteFound(m, f) else m;
    FoundDeleted(t, MOMENTARY, true);
  }

  // ---------------------------------------------------------------------------
  // What the commands about breakpoints do to the chain

  /** A new breakpoint goes behind the others with what was asked for, enabled and with nothing to ignore. */
  lemma {:induction false} SetBreakExact(c: Chain, a: Addr, number: int, e: Enable, frame: int, conditional: bool)
    ensures Plain(SetBreak(c, a, number, e, frame, conditional))
            == Plain(c) + [Breakpoint(number, a, e, 0, frame, conditional, [], false, false)]
  {
    CheckDuplicatesMarks(c + [Breakpoint(0, a, Enabled, 0, 0, false, [], false, false)], a);
  }

  /** Enabling and disabling changes nothing else. */
  lemma {:induction false} SetEnableExact(c: Chain, i: nat, e: Enable)
    requires i < |c|
    ensures Plain(SetEnable(c, i, e)) == Plain(c)[i := Plain(c)[i].(enable := e)]
  {
    CheckDuplicatesMarks(c[i := c[i].(enable := e)], c[i].address);
  }

  /** The first breakpoint with the number gets the count, or 0 for a negative one; without one nothing changes. */
  lemma {:induction false} SetIgnoreExact(c: Chain, n: int, count: int, f: nat)
    requires f <= |c| && (forall k :: 0 <= k < f ==> c[k].number != n) && (f < |c| ==> c[f].number == n)
    ensures SetIgnore(c, n, count)
            == if f < |c| then c[f := c[f].(ignoreCount := if count < 0 then 0 else count)] else c
  {
    FindFirst(c, n, 0);
  }

  /** The breakpoints that `finish` and `until` set go behind the others, momentary and to be deleted. */
  lemma {:induction false} SetMomentaryExact(c: Chain, ts: seq<Momentary>)
    ensures Plain(SetMomentary(c, ts))
            == Plain(c) + seq(|ts|, k requires 0 <= k < |ts| =>
                                Breakpoint(MOMENTARY, ts[k].a, Delete, 0, ts[k].frame, false, [], false, false))
    decreases |ts|
  {
    if ts != [] {
      var d := SetBreak(c, ts[0].a, MOMENTARY, Delete, ts[0].frame, false);
      SetBreakExact(c, ts[0].a, MOMENTARY, Delete, ts[0].frame, false);
      SetMomentaryExact(d, ts[1..]);
    }
  }
}
