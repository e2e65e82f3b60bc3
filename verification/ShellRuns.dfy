/** Continuing a shell that was stopped before it executed the program.

    The debugger then puts the program's breakpoints into the shell. That goes well if there is room for them, and until
    the shell executes the program; what is taken out afterwards are the shell's bytes. */
module ShellRuns {
  import opened Common
  import opened Breakpoints
  import opened RunControl
  import opened RunSafety
  import opened RunSessions
  import opened CoveredRuns

  // ---------------------------------------------------------------------------
  // Putting breakpoints in

  /** insert_breakpoints succeeds exactly if every breakpoint that wants in has room. */
  lemma {:induction false} InsertsAll(brk: seq<Byte>, c: Chain, m: Memory, i: nat)
    requires i <= |c|
    ensures InsertFrom(brk, c, m, i).ok
            <==> forall j :: i <= j < |c| && WantsIn(c[j]) ==> Mapped(m, c[j].address, |brk|)
    decreases |c| - i
  {
    if i < |c| {
      if !WantsIn(c[i]) {
        InsertsAll(brk, c, m, i + 1);
      } else if Mapped(m, c[i].address, |brk|) {
        var d := c[i := c[i].(shadow := Bytes(m, c[i].address, |brk|), inserted := true)];
        InsertsAll(brk, d, Write(m, c[i].address, brk), i + 1);
        assert forall j :: i < j < |c| ==> d[j] == c[j];
      }
    }
  }

  /** Every breakpoint of the program has room in the shell. */
  predicate Fits(cfg: Config, s: State, g: Go) {
    var c := Prepare(s, g).m.chain;
    forall i :: 0 <= i < |c| && WantsIn(c[i]) ==> Mapped(s.m.mem, c[i].address, |cfg.brk|)
  }

  /** Continuing a stopped shell fails exactly if it has no room for some breakpoint. */
  lemma {:induction false} ShellContinues(cfg: Config, code: set<Addr>, s: State, g: Go)
    requires Quiet(cfg, code, s) && s.alive && Starting(s) && GoOk(code, g)
    ensures Proceed(cfg, s, g).o.Halt? <==> !StepsOff(Prepare(s, g), g) && !Fits(cfg, s, g)
  {
    PrepareQuiet(code, s, g);
    InsertsAll(cfg.brk, Prepare(s, g).m.chain, s.m.mem, 0);
  }

  /** With room for every instruction, what is then in memory is accounted for, and normal_stop gives the shell its own
      memory back. */
  lemma {:induction false} ShellKept(cfg: Config, code: set<Addr>, s: State, g: Go)
    requires Quiet(cfg, code, s) && s.alive && Starting(s) && GoOk(code, g) && CodeOk(cfg.brk, s.m.mem, code)
    ensures var n := Proceed(cfg, s, g);
            && n.o.Resume? && MachineOk(cfg, code, s.m.mem, n.s.m) && n.s.m.resumeAddr == 0
            && (StepsOff(Prepare(s, g), g) || n.s.m.bpIn) && NormalStop(n.s).m.mem == s.m.mem
  {
    PrepareQuiet(code, s, g);
    var m := Prepare(s, g).m;
    QuietSettled(cfg, code, s.m.mem, m);
    InsertBothOk(cfg, code, s.m.mem, m);
    assert InsertStep(cfg, m) == m;
    NormalStopRestores(cfg, code, s.m.mem, Proceed(cfg, s, g).s);
  }

  // ---------------------------------------------------------------------------
  // Taking them out of another program

  /** Inserted breakpoints with shadows of length `n`, at mapped addresses, none overlapping another. */
  predicate Separate(c: Chain, m: Memory, n: nat) {
    && (forall i :: 0 <= i < |c| && c[i].inserted ==> |c[i].shadow| == n && Mapped(m, c[i].address, n))
    && forall i, j :: 0 <= i < j < |c| && c[i].inserted && c[j].inserted ==>
         c[i].address + n <= c[j].address || c[j].address + n <= c[i].address
  }

  lemma {:induction false} SeparateOut(c: Chain, m: Memory, n: nat, i: nat)
    requires Separate(c, m, n) && i < |c| && c[i].inserted
    ensures Separate(c[i := c[i].(inserted := false)], Write(m, c[i].address, c[i].shadow), n)
  {
  }

  /** Where no breakpoint is taken out memory stays as it is. */
  lemma {:induction false} RemoveElsewhere(c: Chain, m: Memory, n: nat, i: nat, x: Addr)
    requires Separate(c, m, n) && i <= |c| && x in m
    requires forall j :: i <= j < |c| && c[j].inserted ==> !Covers(n, c[j].address, x)
    ensures x in RemoveFrom(c, m, i).mem && RemoveFrom(c, m, i).mem[x] == m[x]
    decreases |c| - i
  {
    if i < |c| {
      if c[i].inserted {
        var d := c[i := c[i].(inserted := false)];
        SeparateOut(c, m, n, i);
        assert forall j :: i < j < |c| ==> d[j] == c[j];
        RemoveElsewhere(d, Write(m, c[i].address, c[i].shadow), n, i + 1, x);
      } else {
        RemoveElsewhere(c, m, n, i + 1, x);
      }
    }
  }

  /** From place `i` on every shadow is what is in memory. */
  ghost predicate Agrees(c: Chain, m: Memory, n: nat, i: nat)
    requires Separate(c, m, n) && i <= |c|
  {
    forall j :: i <= j < |c| && c[j].inserted ==> c[j].shadow == Bytes(m, c[j].address, n)
  }

  /** remove_breakpoints leaves memory as it is exactly if every shadow is what is there. */
  lemma {:induction false} RemoveExact(c: Chain, m: Memory, n: nat, i: nat)
    requires Separate(c, m, n) && i <= |c|
    ensures RemoveFrom(c, m, i).mem == m <==> Agrees(c, m, n, i)
    decreases |c| - i
  {
    if i < |c| {
      if !c[i].inserted {
        RemoveExact(c, m, n, i + 1);
      } else if c[i].shadow == Bytes(m, c[i].address, n) {
        var d := c[i := c[i].(inserted := false)];
        WriteSame(m, c[i].address, n);
        SeparateOut(c, m, n, i);
        assert Write(m, c[i].address, c[i].shadow) == m;
        RemoveExact(d, m, n, i + 1);
        assert Agrees(c, m, n, i) <==> Agrees(d, m, n, i + 1) by {
          assert forall j :: i < j < |c| ==> d[j] == c[j];
        }
      } else {
        RemoveDamages(c, m, n, i);
      }
    }
  }

  lemma {:induction false} RemoveDamages(c: Chain, m: Memory, n: nat, i: nat)
    requires Separate(c, m, n) && i < |c| && c[i].inserted && c[i].shadow != Bytes(m, c[i].address, n)
    ensures RemoveFrom(c, m, i).mem != m
  {
    var a, sh := c[i].address, c[i].shadow;
    var k :| 0 <= k < n && sh[k] != Bytes(m, a, n)[k];
    var d, w := c[i := c[i].(inserted := false)], Write(m, a, sh);
    SeparateOut(c, m, n, i);
    assert forall j :: i < j < |c| ==> d[j] == c[j];
    RemoveElsewhere(d, w, n, i + 1, a + k);
    assert w[a + k] == sh[k] && m[a + k] == Bytes(m, a, n)[k];
  }

  lemma {:induction false} RemovesAll(c: Chain, m: Memory, n: nat, i: nat)
    requires Separate(c, m, n) && i <= |c| && forall j :: 0 <= j < i ==> !c[j].inserted
    ensures NoneIn(RemoveFrom(c, m, i).chain)
    decreases |c| - i
  {
    if i < |c| {
      if c[i].inserted {
        SeparateOut(c, m, n, i);
        RemovesAll(c[i := c[i].(inserted := false)], Write(m, c[i].address, c[i].shadow), n, i + 1);
      } else {
        RemovesAll(c, m, n, i + 1);
      }
    }
  }

  /** The program has the shell's bytes wherever a breakpoint is in memory. */
  ghost predicate Alike(brk: seq<Byte>, shell: Memory, prog: Memory, code: set<Addr>, c: Chain)
    requires CodeOk(brk, shell, code) && CodeOk(brk, prog, code) && InCode(code, c)
  {
    forall i :: 0 <= i < |c| && c[i].inserted ==> Bytes(shell, c[i].address, |brk|) == Bytes(prog, c[i].address, |brk|)
  }

  /** If the memory of the shell is replaced by that of the program while breakpoints are in, taking them out leaves the
      program as it is exactly if it has the shell's bytes at every one of them. */
  lemma {:induction false} ShellReplaced(cfg: Config, code: set<Addr>, shell: Memory, prog: Memory, s: State)
    requires s.alive && MachineOk(cfg, code, shell, s.m) && s.m.bpIn && s.m.resumeAddr == 0
             && CodeOk(cfg.brk, prog, code)
    ensures var t := NormalStop(s.(m := s.m.(mem := prog)));
            QuietChain(code, t.m.chain) && (t.m.mem == prog <==> Alike(cfg.brk, shell, prog, code, s.m.chain))
  {
    var c, n := s.m.chain, |cfg.brk|;
    assert Separate(c, prog, n) by {
      forall i, j | 0 <= i < j < |c| && c[i].inserted && c[j].inserted
        ensures c[i].address + n <= c[j].address || c[j].address + n <= c[i].address
      {
        assert Live(c[i]) && Live(c[j]);
      }
    }
    RemoveExact(c, prog, n, 0);
    RemovesAll(c, prog, n, 0);
    RemoveSame(c, prog, 0);
    StopChain(cfg.brk, shell, code, c, RemoveFrom(c, prog, 0).chain, s.m.mem, Extra(s.m));
  }

  // ---------------------------------------------------------------------------
  // The command

  /** The trap by which the shell becomes the program, at no breakpoint. */
  predicate ExecTrap(cfg: Config, c: Chain, r: Report, prog: Memory) {
    && r.signal == SIGTRAP && r.image == Some(prog) && SIGTRAP in cfg.stops
    && r.pc != cfg.decr && !Here(c, r.pc - cfg.decr) && !InDummy(r, r.pc)
  }

  /** `continue`, typed in a shell with room for all instructions, until it becomes the program. */
  ghost predicate Continues(cfg: Config, code: set<Addr>, s: State, g: Go) {
    && Quiet(cfg, code, s) && s.alive && Starting(s) && GoOk(code, g) && CodeOk(cfg.brk, s.m.mem, code)
    && g.end == 0 && g.step >= 0 && !StepsOff(Prepare(s, g), g)
  }

  lemma {:induction false} NoneHere(c: Chain, a: Addr, fp: int, conds: set<int>, i: nat, cont: int)
    requires i <= |c| && !Here(c, a)
    ensures StopStatus(c, a, fp, conds, i, cont) == (c, cont)
    decreases |c| - i
  {
    if i < |c| {
      assert !On(c[i], a);
      NoneHere(c, a, fp, conds, i + 1, cont);
    }
  }

  lemma {:induction false} ExecStops(cfg: Config, s: State, r: Report, prog: Memory)
    requires s.trap.expected == 0 && !s.trap.stopAfter && !s.trap.attach && s.m.resumeAddr == 0 && s.step.end == 0
    requires ExecTrap(cfg, s.m.chain, r, prog)
    ensures OnReport(cfg, s, r) == Next(Arrive(s, r), Halt) && Arrive(s, r).m == s.m.(mem := prog)
            && Arrive(s, r).alive == s.alive && Arrive(s, r).now.bp == 0
  {
    NoneHere(s.m.chain, r.pc - cfg.decr, r.fp, r.conds, 0, 0);
    var a := Arrive(s, r);
    assert Classify(cfg, a, r, (a.m.chain, 0)) == Cause(a, false, true, false);
  }

  /** The breakpoints that are in memory then are those that wanted in. */
  lemma {:induction false} InsertedWanted(cfg: Config, code: set<Addr>, s: State, g: Go)
    requires Continues(cfg, code, s, g)
    ensures var c, d := Prepare(s, g).m.chain, Proceed(cfg, s, g).s.m.chain;
            SameButInserted(c, d) && forall i :: 0 <= i < |c| ==> (d[i].inserted <==> WantsIn(c[i]))
  {
    PrepareQuiet(code, s, g);
    var m := Prepare(s, g).m;
    QuietSettled(cfg, code, s.m.mem, m);
    InsertAllPlants(cfg.brk, s.m.mem, code, m.chain, m.mem, {}, 0);
    InsertOnlyWanted(cfg.brk, m.chain, m.mem, 0);
    var d := InsertFrom(cfg.brk, m.chain, m.mem, 0).chain;
    forall i | 0 <= i < |d| ensures d[i].inserted <==> WantsIn(m.chain[i]) { assert !WantsIn(d[i]); }
  }

  /** The program has the shell's bytes wherever a breakpoint of the program was wanted. */
  ghost predicate WantedAlike(cfg: Config, code: set<Addr>, s: State, g: Go, prog: Memory)
    requires CodeOk(cfg.brk, s.m.mem, code) && CodeOk(cfg.brk, prog, code) && InCode(code, Prepare(s, g).m.chain)
  {
    var c, n := Prepare(s, g).m.chain, |cfg.brk|;
    forall i :: 0 <= i < |c| && WantsIn(c[i]) ==> Bytes(s.m.mem, c[i].address, n) == Bytes(prog, c[i].address, n)
  }

  /** After that command the program's memory is its own exactly if it has the shell's bytes wherever a breakpoint was
      wanted. */
  lemma {:induction false} ShellExec(cfg: Config, code: set<Addr>, s: State, g: Go, prog: Memory, r: Report,
                                     commands: bool)
    requires Continues(cfg, code, s, g) && CodeOk(cfg.brk, prog, code)
    requires ExecTrap(cfg, Proceed(cfg, s, g).s.m.chain, r, prog)
    ensures QuietChain(code, Prepare(s, g).m.chain)
    ensures Do(cfg, s, Run(g, [Stopped(r)], commands)).m.mem == prog <==> WantedAlike(cfg, code, s, g, prog)
  {
    var p := Proceed(cfg, s, g).s;
    PrepareQuiet(code, s, g);
    ShellKept(cfg, code, s, g);
    InsertedWanted(cfg, code, s, g);
    WantedIn(cfg, code, s, g, prog);
    ExecStops(cfg, p, r, prog);
    ShellReplaced(cfg, code, s.m.mem, prog, p);
    NormalStopMem(p, Arrive(p, r), prog);
    StopsWith(cfg, code, s, g, r, commands);
  }

  lemma {:induction false} WantedIn(cfg: Config, code: set<Addr>, s: State, g: Go, prog: Memory)
    requires CodeOk(cfg.brk, s.m.mem, code) && CodeOk(cfg.brk, prog, code) && InCode(code, Prepare(s, g).m.chain)
    requires var c, d := Prepare(s, g).m.chain, Proceed(cfg, s, g).s.m.chain;
             SameButInserted(c, d) && forall i :: 0 <= i < |c| ==> (d[i].inserted <==> WantsIn(c[i]))
    ensures InCode(code, Proceed(cfg, s, g).s.m.chain)
    ensures WantedAlike(cfg, code, s, g, prog) <==> Alike(cfg.brk, s.m.mem, prog, code, Proceed(cfg, s, g).s.m.chain)
  {
    var c, d := Prepare(s, g).m.chain, Proceed(cfg, s, g).s.m.chain;
    assert forall i :: 0 <= i < |c| ==> d[i].address == c[i].address && (d[i].inserted <==> WantsIn(c[i]));
  }

  /** normal_stop looks at the machine only. */
  lemma {:induction false} NormalStopMem(p: State, t: State, prog: Memory)
    requires t.alive == p.alive && t.m == p.m.(mem := prog)
    ensures NormalStop(t).m == NormalStop(p.(m := p.m.(mem := prog))).m
  {
  }

  /** Where the command ends. */
  lemma {:induction false} StopsWith(cfg: Config, code: set<Addr>, s: State, g: Go, r: Report, commands: bool)
    requires s.alive && Quiet(cfg, code, s)
    requires var p := Proceed(cfg, s, g).s;
             && OnReport(cfg, p, r) == Next(Arrive(p, r), Halt) && Arrive(p, r).alive
             && QuietChain(code, NormalStop(Arrive(p, r)).m.chain)
    ensures Do(cfg, s, Run(g, [Stopped(r)], commands)).m.mem == NormalStop(Arrive(Proceed(cfg, s, g).s, r)).m.mem
  {
    var t := NormalStop(Arrive(Proceed(cfg, s, g).s, r));
    AutoDeleteQuiet(code, t.m, t.now.bp, commands);
  }
}
