# Models of gdb 3.5 and of the DEC FDDI driver

This project models parts of two programs, the debugger gdb 3.5 and the Sprite driver of the DEC 700 FDDI controller,
and proves what they keep over whole inputs and whole runs. `dafny verify dfyconfig.toml` checks everything.

Where a routine changes lists, arrays or fields step by step it is a method here too, and its contract equates the new
state with a function of the old one. The theorems are about those functions.

* **Symbol reading** (`ScopeModel`, `BlockNesting`, `SymbolReader`, `BlockLookup`, `CoffModel`). Scope marks of an object
  file drive a context stack; each finished block is spliced into a linked list behind the blocks it encloses; the list
  is reversed into a vector, which is searched by address. `ScopeModel.VectorOf` says independently, by recursion on the
  tree of scopes, what the vector should be.
* **Run control** (`Breakpoints`, `RunControl`, `RunSafety`, `RunSessions`, `StepRanges`, `CoveredRuns`, `StaleShadows`,
  `ShellRuns`, `Debugger`). The event loop around a stopped inferior, with user breakpoints, one step-resume breakpoint and
  the flags that say what is in memory. The inferior may report anything that agrees with the symbol tables, and may write to
  its own memory outside the breakpoint sites. What the user gets from it is in `BreakHits` (which breakpoint stops the
  program, and when), `StepEnds` (where a step ends), `AimedRuns` (what a step aims at is met), `Signals` (which signals the
  program sees) and `StartRuns` (how a program is started).
* **Expressions** (`Expressions`, `ExprLaws`, `ExprPrint`, `PrintLaws`). The evaluator and the printer for expressions in
  prefix form, against a meaning by recursion on trees and against a precedence reader. Binary operations may fail, as
  division by zero does.
* **FDDI transmission** (`XmitRing`, `XmitModel`, `XmitBooks`, `XmitInvariant`, `XmitSafety`, `XmitDelivery`, `XmitDriver`,
  `WordCopy`). The
  driver and the adapter share a ring of descriptors; the adapter takes its steps between those of CastOffPacket.
  netDFInt.h is not part of this model: buffer size, ring size, largest packet and descriptor words are parameters, with
  the header size equal to that of the FDDI header and a ring large enough for one packet of the largest size.
* **Memory plumbing** (`CoreFile`, `InferiorMemory`, `DummyFrame`), **IP headers** (`IpChecksum`, `IpInput`: format of section
  3.1 of RFC 791, sum of section 1 of RFC 1071), **containers** (`Environ`, `Alloca`).

## What turned out not to hold

Each of these is kept in the model as the code has it, and the exact condition for it is proved.

* Disabling a temporary breakpoint when it is hit (gdb.3.5.04/breakpoint.c:436-437) does not rescan for duplicates. The
  marks stay right exactly if the breakpoint was itself marked or no other is enabled at its address
  (`Breakpoints.DisableHitMarked`); otherwise the other is never inserted again (`Breakpoints.LostBreakpoint`). In a session
  without such a hit the program never runs free without a break instruction at every enabled breakpoint
  (`CoveredRuns.SessionCovered`).
* remove_step_breakpoint (gdb.3.5.04/infrun.c:1213-1217) writes back a shadow that may never have been read. Memory is the
  program's own after a stop exactly if it is not stale (`RunSessions.NormalStopRestores`). A command has a run that ends stale
  exactly if it has a range and there is a place, not inside of the range, where a breakpoint need not stop and stepping aims its
  own: the start of a function that is stepped over, or into with no breakpoint at the end of its prologue; and the trampoline,
  but only on machines that leave the pc at a breakpoint (`StaleShadows.StaleExact`). Address 0 is such a place, too: without a
  step-resume breakpoint it is taken for that of one (`StaleShadows.Passes`).
* proceed does not ask whether the inferior is still the shell (gdb.3.5.04/infrun.c:298-370). A shell that was stopped gets the
  program's breakpoints, if it has room for them (`ShellRuns.ShellContinues`). When it then executes the program the shell's bytes
  are taken for the program's: memory is the program's own afterwards exactly if it has the shell's bytes wherever a breakpoint was
  wanted (`ShellRuns.ShellExec`).
* A stepping range that starts at address 0 is lost when a prologue is skipped (gdb.3.5.04/infrun.c:974-976), since an end
  of 0 means that there is none. If breakpoints are pulled for the next step, because a signal was taken at the start of that
  function, the inferior runs on without them. A resume is unsafe exactly then (`RunSafety.RestartOk`). Where there is a
  function with a prologue, a signal trampoline, and a signal that is passed on without a word, a stepping command can lead to
  that exactly if its range starts at 0, is not that of stepi, and functions are stepped into (`StepRanges.RangeExact`).
* Such a range does harm without a signal, too: a function that is stepped into then does not stop the program at the end of
  its prologue, but lets it run free (`StepEnds.StepInto`).
* `handle` promises that the program does not see a signal with `nopass` (gdb.3.5.04/infrun.c:1607). Only proceed asks for that
  (gdb.3.5.04/infrun.c:361); the wait loop passes on every signal of the program's own that does not stop it
  (`Signals.OwnSignal`). The promise is kept in all runs exactly if every signal with `nopass` has `stop` as well
  (`Signals.TableExact`).
* The right operand of `&&` and `||` is first looked at for its type, with variables taken to be 0. Only `/` is guarded then
  (gdb.3.5.04/eval.c:518-520), so `1 && n % x` fails although x is not 0 (`Expressions.RemainderLooked`). The evaluator gives
  the meaning of a tree exactly if no operation fails on such values or there is no meaning (`Expressions.EvaluateExpression`),
  and what fails on them is exactly `%` by what is taken to be 0 (`Expressions.TypedFails`).
* `op=` is printed as `this` (gdb.3.5.04/expprint.c:266-282), so its operands are lost. An unsigned constant is printed without
  its `u`, a character constant as its number and the character (gdb.3.5.04/valprint.c:696-712), and a negative one is read back as a
  negation. No blank is printed between prefix operators, so that `-` makes `--` with a minus sign behind it, and `&` makes `&&`.
  Every other tree of constants, variables and the operators of op_print_tab is recovered (`ExprPrint.TableRoundTrip`).
* The printer's table ranks `^` above `&` and `@` above the arithmetic operators, the expression grammar the other way
  round. The grammar reads a printed expression back exactly if it has none of those faults and no such pair
  (`ExprPrint.GrammarRoundTrip`).
* xfer_core_file measures the gap below the data up to data_start even without a core file (gdb.3.5.04/core.c:415), and
  addresses are unsigned. With data_start in the gap the loop makes no progress there; with data_start behind it the
  executable's data as far as data_start read as zero; with data_start below it all of the data read as zero by a request that
  begins in the gap. What is left of a data segment, without a core file, hides what is there. `CoreFile.XferRightIff` says exactly
  when all this does no harm. After core-file without an argument data_start and data_end are 0 (gdb.3.5.04/default-dep.c:388-389),
  and `CoreFile.NoCoreFile` says what is left then. exec-file puts data_start where the data of the executable start, which is right
  exactly if data_end is not above that (`CoreFile.ExecFileRight`); it is above after core-file without an argument and an
  executable whose data begin lower than those of the one before (`CoreFile.ExecFileAgain`).
* A restart of the FDDI driver that finds a packet that is too large at the head of its queue leaves the driver
  "transmitting" with nothing on the ring. `XmitSafety.WedgedIff` says exactly after which events it is so, `XmitSafety.DoneFinds`
  which queues a completion must find for that, and no later packet goes out until a reset or a flush
  (`XmitSafety.WedgedForever`).
* The flush ioctl drops the current packet without a reset; everything stays in order exactly if no packet is on the ring
  (`XmitSafety.FlushKeepsIff`).
* After a step the walk of NetDFXmitDone tests the descriptor word, not the ownership word, for the ownership bit
  (FDDI/netDFXmit.c:649). It finds the end of the packet exactly if the words of later pages do not look owned
  (`XmitRing.WalkFindsLast`).
* NetDFBcopy copies exactly what it was asked to exactly if the copy reaches the next word boundary (`WordCopy.NetDFBcopy`).
  Loading a packet overruns only if some element of its scatter/gather list does not, and succeeds only if all do
  (`XmitDriver.Transmitter.LoadRing`). The theorems about whole runs are for requests with such elements.
* A header completed by Net_Output sums to all ones on a little-endian machine. On another one Net_HostToNetShort does not cut
  a length to 16 bits, and it is so exactly if the high half of the length makes no difference (`IpChecksum.FinishedSum`); a
  payload of 65516 bytes is one that does not work (`IpChecksum.LongHeader`).
* A packet built by Net_Output is accepted by Net_Input exactly if it is not empty and its length fits in 16 bits
  (`IpChecksum.OutputAccepted`).

## Model

| member | source | states |
|---|---|---|
| `ScopeModel.FinishEncloses` | gdb.3.5.04/dbxread.c:1006-1037 | closing a block over the blocks made since its mark puts it in front of them in preorder and adopts exactly those without a superblock |
| `ScopeModel.RunScope` | gdb.3.5.04/dbxread.c:3267-3334 | a brace pair at any depth, also one that closes below where it opened, adds exactly the blocks of its scope and restores list marks, stack and symbols |
| `ScopeModel.RunFuncs` | gdb.3.5.04/dbxread.c:3230-3265 | a function is closed by the next one or the end of the file, over exactly its own scopes, whatever the order of their addresses |
| `ScopeModel.RunCore` | gdb.3.5.04/dbxread.c:884-908 | file-level and global symbols may come anywhere; they keep their order and touch no scope |
| `ScopeModel.ReaderBuildsPreorder` | gdb.3.5.04/dbxread.c:949-1078 | for every scope tree and interleaving the vector is the preorder of the tree behind global and file block, with its superblocks; a pair that closes below where it opened starts where it closed |
| `BlockNesting.VectorWellFormed` | gdb.3.5.04/dbxread.c:1056-1060 | address-ordered scopes give a vector of properly nested or disjoint blocks, each after its encloser |
| `BlockNesting.RootsWellFormed` | gdb.3.5.04/dbxread.c:1225-1262 | file block and global block around nested blocks nest them all under one root |
| `BlockNesting.WellFormedAscending` | gdb.3.5.04/dbxread.c:1056-1060 | start addresses ascend, as the comment claims |
| `BlockNesting.ParentUnique` | gdb.3.5.04/dbxread.c:1006-1016 | a superblock pointer names one block of the vector |
| `BlockNesting.ChainIsEnclosing` | gdb.3.5.04/dbxread.c:1006-1016 | superblock links from a block containing pc visit exactly the blocks up to it that contain pc, innermost first |
| `BlockNesting.LastContainingIsInnermost` | gdb.3.5.04/blockframe.c:400-426 | the last block that contains pc is the innermost one |
| `SymbolReader.AddSymbol` | gdb.3.5.04/dbxread.c:884-908 | a list in chunks of 100 grows by one symbol and keeps the order of addition |
| `SymbolReader.CopySymbols` | gdb.3.5.04/dbxread.c:961-977 | the block gets the symbols of the list in order of addition |
| `SymbolReader.AdoptOrphans` | gdb.3.5.04/dbxread.c:1006-1016 | the loop over the heap list changes the superblocks of exactly the orphans in front of the saved head |
| `SymbolReader.Splice` | gdb.3.5.04/dbxread.c:1018-1037 | linking a node after the last one visited inserts it at that place of the list |
| `SymbolReader.Reader.FinishBlock` | gdb.3.5.04/dbxread.c:949-1037 | the heap operation equals `ScopeModel.Finish` on the abstract state and keeps every saved list head valid |
| `SymbolReader.PendingList.MakeBlockvector` | gdb.3.5.04/dbxread.c:1040-1078 | the vector is the list reversed |
| `SymbolReader.Reader.ProcessOneSymbol` | gdb.3.5.04/dbxread.c:3205-3334 | each symbol has the effect of `ScopeModel.Step`, or its error |
| `SymbolReader.Reader.EndSymtab` | gdb.3.5.04/dbxread.c:1225-1262 | the last function, the file block and the global block are closed and the vector is made |
| `SymbolReader.ReadSymtab` | gdb.3.5.04/dbxread.c:1113-1262 | reading a file on the heap gives the vector of `ScopeModel.ReadFile`, or its error |
| `BlockLookup.LastStartingBefore` | gdb.3.5.04/blockframe.c:400-414 | the binary search ends on the last block that starts at or before pc |
| `BlockLookup.SearchVector` | gdb.3.5.04/blockframe.c:396-428 | binary search and backward scan find the innermost block; its superblocks are exactly the enclosing ones |
| `BlockLookup.BlockForPc` | gdb.3.5.04/blockframe.c:355-428 | the answer is the innermost block of the first file that contains pc, or null when no file does |
| `BlockLookup.ReadFileSearchable` | gdb.3.5.04/dbxread.c:1225-1262 | every address-ordered file is read without error into a vector fit for the lookup: global block at 0, file block at 1 |
| `CoffModel.RunScope` | gdb.3.5.04/coffread.c:1064-1098 | a .bb/.eb pair adds exactly its blocks and restores symbols, stack and depth |
| `CoffModel.RunCore` | gdb.3.5.04/coffread.c:884-1010 | file-level and global symbols may come anywhere, also inside a function; they keep their order and touch no scope |
| `CoffModel.CoffBuildsPreorder` | gdb.3.5.04/coffread.c:250-358 | for every tree and interleaving the COFF builder gives the preorder behind global and file block, and no vector for an empty file |
| `CoffModel.CoffSearchable` | gdb.3.5.04/coffread.c:331-358 | every address-ordered file gives a nested, ascending vector in which the last block that contains pc is the innermost one |
| `Breakpoints.InsertAllPlants` | gdb.3.5.04/breakpoint.c:274-300 | insertion succeeds, puts a break instruction at exactly the wanted addresses, and every shadow holds program bytes |
| `Breakpoints.RemoveAllRestores` | gdb.3.5.04/breakpoint.c:305-332 | removal restores the program's bytes at every inserted breakpoint and leaves none in |
| `Breakpoints.CheckDuplicatesMarks` | gdb.3.5.04/breakpoint.c:587-600 | rescanning repairs the marks at one address and leaves the others |
| `Breakpoints.SetRawMarked` | gdb.3.5.04/breakpoint.c:608-640 | a new breakpoint keeps the marks right |
| `Breakpoints.SetEnableMarked` | gdb.3.5.04/breakpoint.c:1158-1229 | enabling and disabling by command keep the marks right |
| `Breakpoints.DeleteMarked` | gdb.3.5.04/breakpoint.c:983-1006 | deletion keeps the marks right, and leaves memory alone if nothing was inserted |
| `Breakpoints.MarkedCovers` | gdb.3.5.04/breakpoint.c:583-600 | with right marks, inserting every unmarked breakpoint covers every enabled one |
| `Breakpoints.DisableHitMarked` | gdb.3.5.04/breakpoint.c:436-437 | exactly when the hit of a temporary breakpoint leaves the marks right |
| `Breakpoints.LostBreakpoint` | gdb.3.5.04/breakpoint.c:436-437 | otherwise an enabled breakpoint is no longer inserted |
| `BreakHits.StatusExact` | gdb.3.5.04/breakpoint.c:396-458 | the scan answers with the first breakpoint that is due, -1 or 0; of those before it exactly the ones whose frame and condition are right have one hit less to ignore, a temporary one that stops is disabled, and nothing else changes |
| `BreakHits.IgnoresUsedUp` | gdb.3.5.04/breakpoint.c:429-433 | over any sequence of stops, of the hits of a breakpoint exactly as many pass as are to be ignored, and the next one stops |
| `BreakHits.IgnoredRun` | gdb.3.5.04/infrun.c:641-1070 | the same for the wait loop: each ignored hit costs two resumes, one instruction and a free run, and the hit after the last of them gives control to the user at the breakpoint |
| `BreakHits.AutoDeleteExact` | gdb.3.5.04/breakpoint.c:966-981 | at a stop exactly the breakpoint hit goes if it is one to be deleted, and one momentary one unless there are commands; the others stay in order |
| `BreakHits.SetBreakExact` | gdb.3.5.04/breakpoint.c:608-640 | a new breakpoint goes behind the others with what was asked for |
| `BreakHits.SetEnableExact` | gdb.3.5.04/breakpoint.c:1158-1229 | enabling and disabling changes nothing else |
| `BreakHits.SetIgnoreExact` | gdb.3.5.04/breakpoint.c:1052-1082 | the first breakpoint with the number gets the count, cut at 0 |
| `BreakHits.SetMomentaryExact` | gdb.3.5.04/breakpoint.c:646-656 | the breakpoints of finish and until go behind the others, to be deleted |
| `RunSafety.RemoveStepOk` | gdb.3.5.04/infrun.c:1212-1222 | removing the step-resume breakpoint restores the program's bytes if its shadow was read |
| `RunSafety.RestartOk` | gdb.3.5.04/infrun.c:1018-1070 | the resumption keeps the invariant; it single-steps or has all breakpoints in, except exactly where breakpoints are pulled for a step that is no longer going on |
| `RunSafety.ShellOk` | gdb.3.5.04/infrun.c:1018-1061 | the turns of the shell that starts the program touch nothing and ask nothing of its memory; the last one puts all breakpoints into the program |
| `RunSafety.OnReportOk` | gdb.3.5.04/infrun.c:584-1072 | every turn of the loop, of the shell or of the program, keeps the invariant, or stops with all of memory accounted for; it resumes safely unless its range can be lost |
| `RunSessions.ProceedOk` | gdb.3.5.04/infrun.c:270-370 | proceed, after clear_proceed_status and with the momentary breakpoints of finish and until, establishes the loop invariant and resumes safely for every command; its range is safe exactly as `RangeSafe` says |
| `RunSessions.StartInferiorOk` | gdb.3.5.04/infrun.c:390-430 | start_inferior establishes the loop invariant for any shell, whatever the last program left behind |
| `RunSessions.RunSafe` | gdb.3.5.04/infrun.c:484-1072 | for every stream of stops, also from the shell on and over exits, memory is the program's own but for known breakpoints; with a safe range each resume is safe |
| `RunSessions.NormalStopRestores` | gdb.3.5.04/infrun.c:1101-1113 | after normal_stop no breakpoint is in, and memory is the program's own exactly if no unread shadow is written |
| `RunSessions.DoOk` | gdb.3.5.04/infrun.c:1085-1190 | every user command, also one whose run ends in the shell, with an exit or on a postponed step, leaves no breakpoint in memory; memory is then the program's own exactly if the run did not end stale |
| `RunSessions.ResumesOk` | gdb.3.5.04/infrun.c:298-1072 | every resume that a command with a safe range makes is safe, however its run ends |
| `RunSessions.SessionSafe` | gdb.3.5.04/infrun.c:298-1190 | for every session of commands: no breakpoint is in memory at any prompt, memory is always the program's own exactly if no command ends stale, and with safe ranges every resume is safe |
| `RunSessions.FreeRunCovered` | gdb.3.5.04/infrun.c:813-828 | running free with right marks means a break instruction at every enabled breakpoint |
| `CoveredRuns.StatusMarked` | gdb.3.5.04/breakpoint.c:396-458 | the scan for a hit leaves the duplicate marks right exactly if it does not disable the one unmarked breakpoint of several at an address |
| `CoveredRuns.RunMarked` | gdb.3.5.04/infrun.c:484-1072 | after any run the marks are right exactly if its last turn did not lose a breakpoint; they are right at each of its resumes |
| `CoveredRuns.SessionCovered` | gdb.3.5.04/infrun.c:270-1190 | in every session without such a loss and with safe ranges, the program never runs free without a break instruction at every enabled breakpoint |
| `RunSessions.StaleShadowRun` | gdb.3.5.04/infrun.c:901-930 | a run in which normal_stop overwrites the program with an unread shadow |
| `StaleShadows.NeverStale` | gdb.3.5.04/infrun.c:774-1070 | no run of a command without a range, or without an awkward place outside of it, ends with a stale shadow |
| `StaleShadows.StaleReached` | gdb.3.5.04/infrun.c:774-1070 | for every quiet state and awkward place, on any machine and for any stepping command, there is a well-behaved run of three stops that ends with one |
| `StaleShadows.StaleExact` | gdb.3.5.04/infrun.c:774-1222 | a stepping or continuing command has such a run exactly if it has a range and there is an awkward place |
| `ShellRuns.ShellContinues` | gdb.3.5.04/infrun.c:298-370 | continuing a stopped shell fails exactly if it has no room for a breakpoint that is wanted |
| `ShellRuns.ShellKept` | gdb.3.5.04/infrun.c:298-370 | with room for all instructions memory is accounted for, and normal_stop gives the shell its own back |
| `ShellRuns.ShellReplaced` | gdb.3.5.04/infrun.c:1101-1113 | when another program replaces the shell, taking the breakpoints out leaves it as it is exactly if it has the shell's bytes at each of them |
| `ShellRuns.ShellExec` | gdb.3.5.04/infrun.c:298-1113 | for the whole command: memory is the program's own afterwards exactly if it has the shell's bytes wherever a breakpoint was wanted |
| `StepRanges.RangeFromZeroRun` | gdb.3.5.04/infrun.c:884-1068 | for every quiet state and every range that is not safe, a well-behaved run of four stops, with the symbol tables as they are, ends in a free resume without breakpoints |
| `StepRanges.RangeExact` | gdb.3.5.04/infrun.c:884-1068 | given a function with a prologue, a trampoline and a silent signal, a command resumes safely in all its well-behaved runs exactly if its range is safe |
| `StepEnds.StepRun` | gdb.3.5.04/infrun.c:854-1070 | a stepping command goes on over any instructions in its range, calls stepped over however deep they recur, and signals handled; it stops exactly where the range is left, after exactly those resumes |
| `StepEnds.StepCommand` | gdb.3.5.04/infrun.c:298-1070 | the same for the whole command, also if it begins by stepping off a breakpoint |
| `StepEnds.StepInto` | gdb.3.5.04/infrun.c:935-985 | a function that is stepped into stops the program at the end of its prologue exactly if the range does not start at 0 |
| `StepEnds.OneTrap` | gdb.3.5.04/infrun.c:650-656 | a command for one trap returns at the first trap, whatever it is |
| `StepEnds.CallReturned` | gdb.3.5.04/infrun.c:837-850 | a program that is in the stack, where a call by hand returns to, is never resumed |
| `AimedRuns.RunAimed` | gdb.3.5.04/infrun.c:896-1008 | in every run from right marks on, whenever the program is to run to an address that stepping has aimed at, a break instruction is there |
| `AimedRuns.SessionAimed` | gdb.3.5.04/infrun.c:270-1190 | the same for every session without a hit that loses a breakpoint |
| `Signals.SignalGiven` | gdb.3.5.04/infrun.c:1018-1070 | in the loop the program gets exactly its own signals, and none for a trap of the debugger's or at the start of the shell |
| `Signals.OwnSignal` | gdb.3.5.04/infrun.c:740-772 | a signal of the program's own is kept from it exactly if it stops |
| `Signals.ProceedGives` | gdb.3.5.04/infrun.c:357-368 | the user's signal, or else the one the program stopped with if it may see it |
| `Signals.TableExact` | gdb.3.5.04/infrun.c:1599-1608 | in all runs the program sees only signals it may see exactly if every one it may not see stops it |
| `Signals.StrayTrap` | gdb.3.5.04/infrun.c:700-772 | a trap at no breakpoint stops a program that runs free exactly if traps are to stop it, and is never passed on |
| `StartRuns.StartRun` | gdb.3.5.04/infrun.c:390-430 | from start_inferior on the shell traps twice, with any faults of its own in between, which it gets; then the program runs free with all breakpoints in |
| `Debugger.Inferior.CheckDuplicates` | gdb.3.5.04/breakpoint.c:587-600 | the loop computes `Breakpoints.CheckDuplicates` |
| `Debugger.Inferior.InsertBreakpoints` | gdb.3.5.04/breakpoint.c:274-300 | the loop over the chain changes chain and memory as `Breakpoints.InsertFrom` says |
| `Debugger.Inferior.RemoveBreakpoints` | gdb.3.5.04/breakpoint.c:305-332 | the loop over the chain changes chain and memory as `Breakpoints.RemoveFrom` says |
| `Debugger.Inferior.BreakpointStopStatus` | gdb.3.5.04/breakpoint.c:396-458 | the scan with conditions, ignore counts and temporary breakpoints does what `RunControl.StopStatus` says, see `BreakHits.StatusExact` |
| `Debugger.Inferior.SetIgnoreCount` | gdb.3.5.04/breakpoint.c:1056-1082 | the loop changes the chain as `RunControl.SetIgnore` says, and finds a breakpoint if there is one |
| `Debugger.Inferior.BreakpointAutoDelete` | gdb.3.5.04/breakpoint.c:966-981 | the loops change chain and memory as `RunControl.AutoDelete` says |
| `Debugger.Inferior.RemoveStepBreakpoint` | gdb.3.5.04/infrun.c:1212-1222 | writes the shadow back without asking whether it was read |
| `Debugger.Inferior.NormalStop` | gdb.3.5.04/infrun.c:1085-1190 | the state afterwards is that of `RunControl.NormalStop` |
| `Debugger.Inferior.FindCause` | gdb.3.5.04/infrun.c:641-738 | breakpoint hit, step-resume hit, random signal or neither, with the pc adjusted |
| `Debugger.Inferior.HandleBreak` | gdb.3.5.04/infrun.c:774-849 | what is removed from memory after a hit, and whether to step off it |
| `Debugger.Inferior.HandleStepping` | gdb.3.5.04/infrun.c:854-1008 | the stepping decisions, which may aim the step-resume breakpoint |
| `Debugger.Inferior.RestartInferior` | gdb.3.5.04/infrun.c:1011-1070 | the resumption, with insertion of breakpoints |
| `Debugger.Inferior.WaitForInferior` | gdb.3.5.04/infrun.c:484-1072 | the loop, on any stream of stops, ends in the state and with the resumes of `RunControl.Wait` |
| `Expressions.EvalSkips` | gdb.3.5.04/eval.c:103-116 | the skipping mode never fails, never changes the store, and stops just past the subexpression |
| `Expressions.EvalTyped` | gdb.3.5.04/eval.c:118-135 | the type-only mode takes variables and quotients to be 0, fails exactly where an operation fails on such values, never changes the store, and stops just past the subexpression |
| `Expressions.EvalMeaning` | gdb.3.5.04/eval.c:137-172 | the normal mode gives the tree's value and final store and stops at the same place; it fails exactly when the tree has no value or a right operand that is only looked at fails |
| `Expressions.LogicalMeaning` | gdb.3.5.04/eval.c:538-588 | `&&` and `\|\|` evaluate the right operand exactly when C does, although the cursor passes it twice |
| `Expressions.EvaluateExpression` | gdb.3.5.04/eval.c:118-135 | for every supported tree on its own vector: normal mode gives the meaning exactly if all that is looked at can be, or there is none; what the type-only mode gives |
| `Expressions.TypedFails` | gdb.3.5.04/eval.c:503-522 | looking at a tree fails exactly at a `%` whose divisor is taken to be 0 |
| `Expressions.RemainderLooked` | gdb.3.5.04/eval.c:518-548 | `1 && n % x` fails for every x that is not 0 |
| `Expressions.Evaluator.EvaluateSubexp` | gdb.3.5.04/eval.c:137-895 | the recursive descent with a moving cursor and a changing store does what `Expressions.Eval` says |
| `Expressions.Evaluator.EvaluateBinary` | gdb.3.5.04/eval.c:456-693 | the same for the binary operators |
| `Expressions.Evaluator.EvaluateLogical` | gdb.3.5.04/eval.c:538-588 | the look-ahead for the type, the cursor put back, and the second pass over the right operand |
| `Expressions.Evaluator.EvaluateCond` | gdb.3.5.04/eval.c:220-233 | the same for `?:`, which skips the operand not chosen |
| `ExprLaws.LeafGives` | gdb.3.5.04/eval.c:163-181 | a constant gives itself, a variable what is stored for it |
| `ExprLaws.ComparisonGives` | gdb.3.5.04/eval.c:590-678 | the six comparisons give 1 exactly if the left and the right number are as they say, else 0 |
| `ExprLaws.ArithmeticGives` | gdb.3.5.04/eval.c:483-522 | an arithmetic operator gets its operands in order, and the expression fails exactly if it does |
| `ExprLaws.PrefixGives` | gdb.3.5.04/eval.c:697-723 | `!` gives 1 for 0 and 0 for all else |
| `ExprLaws.CondGives` | gdb.3.5.04/eval.c:220-233 | `?:` gives what the operand that the condition chooses gives, and leaves the store that one leaves |
| `ExprLaws.ShortGives` | gdb.3.5.04/eval.c:538-588 | if the left operand decides, `&&` gives 0, `\|\|` gives 1, and the right one leaves no trace |
| `ExprLaws.LongGives` | gdb.3.5.04/eval.c:538-588 | if not, they give 1 exactly if the right operand is not 0 |
| `ExprLaws.CommaGives` | gdb.3.5.04/eval.c:693-695 | a comma gives what its second operand gives |
| `ExprLaws.AssignGives` | gdb.3.5.04/eval.c:456-464 | after an assignment the variable on the left reads as the number on the right, and all others as before; without a variable it fails |
| `ExprLaws.ModifyGives` | gdb.3.5.04/eval.c:466-481 | the same for `op=` with what the operator makes of the old number and the right operand |
| `ExprLaws.StepGives` | gdb.3.5.04/eval.c:806-865 | `++` and `--` store the next number; in front they give that, behind the old one |
| `ExprLaws.Opposites` | gdb.3.5.04/eval.c:590-678 | a comparison denied is the opposite comparison, for any value library, operands with side effects and failures |
| `ExprLaws.DeMorgan` | gdb.3.5.04/eval.c:538-588 | both laws of De Morgan, with all side effects and failures |
| `ExprLaws.ModifyAssigns` | gdb.3.5.04/eval.c:456-481 | `x op= e` is `x = x op e` |
| `ExprLaws.StepModifies` | gdb.3.5.04/eval.c:806-834 | `++e` is `e += 1` and `--e` is `e -= 1` |
| `ExprLaws.CondTurned` | gdb.3.5.04/eval.c:220-233 | `!c ? t : f` is `c ? f : t` |
| `ExprPrint.PrintWrites` | gdb.3.5.04/expprint.c:108-325 | print_subexp emits the written form of the tree, with its blanks and with constants the way value_print has them, and stops just past it |
| `PrintLaws.IntPrinted` | gdb.3.5.04/expprint.c:137-142 | an int constant is printed as its number, with a sign if it is negative |
| `PrintLaws.UnsignedPrinted` | gdb.3.5.04/valprint.c:696-704 | an unsigned one as the number that 32 bits without a sign make of it |
| `PrintLaws.CharPrinted` | gdb.3.5.04/valprint.c:696-713 | a character as the number of a signed byte, a blank and itself in quotes |
| `PrintLaws.PrintedAlike` | gdb.3.5.04/valprint.c:686-713 | two constants are printed alike exactly if they are the same number and both are characters or neither is |
| `PrintLaws.FewestParens` | gdb.3.5.04/expprint.c:52-86 | of all ways to write a tree that the printer's table reads, with the operations inside of `?:` in parentheses, the printed one has the fewest |
| `ExprPrint.ReadBack` | gdb.3.5.04/expprint.c:28-40 | a precedence reader recovers every expression with enough parentheses and without signs in its int constants |
| `ExprPrint.ExprSound` | gdb.3.5.04/expprint.c:28-40 | whatever the reader accepts has enough parentheses and accounts for every token |
| `ExprPrint.SpelledOnce` | gdb.3.5.04/expprint.c:284-323 | a tree has one parenthesization for given tokens |
| `ExprPrint.WrittenLegible` | gdb.3.5.04/expprint.c:52-86 | the printed parentheses are enough for the printer's own table; only the signs of int constants are in the way |
| `ExprPrint.JoinedDiffer` | gdb.3.5.04/expread.y:1140-1165 | where two signs that make another token are next to each other the lexer finds tokens that no writing of the tree has |
| `ExprPrint.JoinsIff` | gdb.3.5.04/expprint.c:296-318 | in what is printed that is so exactly for a negation of a negation or of a decrement and for the address of an address |
| `ExprPrint.NumsOf` | gdb.3.5.04/expprint.c:137-142 | every constant is printed with a number, but only an int constant is to be written with one |
| `ExprPrint.ConstantsLost` | gdb.3.5.04/valprint.c:686-713 | a tree with an unsigned or character constant is never read back |
| `ExprPrint.TableRoundTrip` | gdb.3.5.04/expprint.c:52-323 | printing, finding the tokens and reading them by op_print_tab recovers a tree exactly if it has no op=, only int constants that are not negative, and no prefix operators that make another token |
| `ExprPrint.GrammarRoundTrip` | gdb.3.5.04/expread.y:169-186 | the same with the grammar's precedences exactly if besides it has no confusable operands |
| `ExprPrint.MaskLost` | gdb.3.5.04/expprint.c:59-60 | `x & (y ^ z)` comes back from the grammar as `(x & y) ^ z` |
| `ExprPrint.Printer.PrintSubexp` | gdb.3.5.04/expprint.c:108-325 | the printer with its cursor and stream emits what `ExprPrint.Print` says, after what was there |
| `XmitRing.CheckedIndex` | FDDI/netDFXmit.c:492-495 | the index computed for the last descriptor is that many places on round the ring |
| `XmitRing.CountIs` | FDDI/netDFXmit.c:484-492 | the number of descriptors is the length divided by the buffer size, rounded up |
| `XmitRing.PackLoads` | FDDI/netDFXmit.c:499-567 | on a ring of the host's a packet up to the largest size always fits, and is packed and marked completely |
| `XmitRing.JoinedIsPacket` | FDDI/netDFXmit.c:505-567 | the buffers joined and cut to the byte count are header and payload in order |
| `XmitRing.WalkFindsLast` | FDDI/netDFXmit.c:639-656 | the walk stops on exactly the last descriptor, across wraparound, or is misled exactly when later words look owned |
| `XmitInvariant.OutputFree` | FDDI/netDFXmit.c:449-573 | on a ring of the host's, output fails exactly for packets that are too large |
| `XmitInvariant.CastKeeps` | FDDI/netDFXmit.c:277-289 | every turn of the hand-over keeps the invariant of driver and adapter |
| `XmitInvariant.ReadKeeps` | FDDI/netDFXmit.c:277-289 | so does every descriptor that the adapter hands back, whenever it does |
| `XmitInvariant.RestartKeeps` | FDDI/netDF.c:1092-1115 | drop, reset and restart lead from any state of the ring to one in order |
| `XmitInvariant.AskKeeps` | FDDI/netDFXmit.c:734-840 | every call of NetDFOutput keeps the invariant |
| `XmitInvariant.AtCompletion` | FDDI/netDFXmit.c:623-637 | when "done" is raised the host owns the ring and the current packet is complete |
| `XmitInvariant.DoneSucceeds` | FDDI/netDFXmit.c:595-713 | exactly when NetDFXmitDone succeeds, and what is kept when it does not |
| `XmitSafety.QueueSafe` | FDDI/netDFXmit.c:246-248 | in every run each element is on one of the two lists, an idle transmitter has nothing queued, no reset is ever deferred |
| `XmitSafety.RequestsSafe` | FDDI/netDFXmit.c:670-698 | in every run a request is not marked done exactly if it is current or queued; refused ones are marked done |
| `XmitSafety.WireSafe` | FDDI/netDFXmit.c:793-832 | in every run of requests whose elements can be copied, packets reach ring and network in the order handed in, and the network sees each whole |
| `XmitSafety.DoneMeansSent` | FDDI/netDFXmit.c:670-680 | the "done" event is for the current packet, the last one on the network |
| `XmitSafety.OwnershipSafe` | FDDI/netDFXmit.c:277-289 | in every run, also in the middle of a hand-over, the adapter owns a suffix of the current packet, and can start only on a whole one |
| `XmitSafety.IdleAccepts` | FDDI/netDFXmit.c:467-499 | the ownership checks of an idle transmitter's output always succeed |
| `XmitSafety.CompletionSucceeds` | FDDI/netDFXmit.c:595-713 | in every run, exactly when completion goes on to the next packet |
| `XmitSafety.FlushKeepsIff` | FDDI/netDF.c:1509-1515 | the flush ioctl keeps the invariant exactly if no packet is on the ring |
| `XmitSafety.RestartWedges` | FDDI/netDFXmit.c:969-996 | any restart wedges the transmitter exactly if the first queued packet is too large |
| `XmitSafety.DoneWedges` | FDDI/netDFXmit.c:595-713 | a completion wedges it exactly if it fails and leaves a packet that is too large first on the queue |
| `XmitSafety.DoneFinds` | FDDI/netDFXmit.c:689-713 | that is so exactly if the first queued packet is too large and, where the completed one was good, the second is too |
| `XmitSafety.WedgedIff` | FDDI/netDFXmit.c:969-996 | over all events: exactly which one leaves the transmitter wedged |
| `XmitSafety.WedgeReached` | FDDI/netDFXmit.c:969-996 | one such packet, queued behind another before a restart, is enough |
| `XmitSafety.WedgedForever` | FDDI/netDFXmit.c:793-832 | until a reset or flush nothing more is sent and the packet in the way is never done |
| `XmitDelivery.AskExact` | FDDI/netDFXmit.c:734-840 | what each call of NetDFOutput does to the packets: delivered here, sent at once, put behind all that wait, or refused and done |
| `XmitDelivery.RestartExact` | FDDI/netDFXmit.c:969-996 | a restart is done with the current packet and sends the first that waits; one that is too large takes the rest with it |
| `XmitDelivery.CompletionExact` | FDDI/netDFXmit.c:670-713 | a completion that succeeds is done with exactly the current packet and sends exactly the first that waits |
| `XmitDelivery.DoneExact` | FDDI/netDFXmit.c:595-713 | what a completion, with the restart if it fails, does to the packets in all cases |
| `XmitDelivery.FlushExact` | FDDI/netDF.c:1509-1515 | the flush ioctl gives up the current packet and all that wait |
| `XmitDelivery.AcceptedDelivered` | FDDI/netDFXmit.c:793-832 | in every run, as long as nothing is reset or flushed: each packet accepted for another host is sent or waits, and is done only after the network has seen it |
| `XmitDelivery.HandedOverSent` | FDDI/netDFXmit.c:277-289 | a packet that was handed over whole is on the network, whole, when the adapter has read each of its descriptors |
| `XmitDriver.CastAllSettles` | FDDI/netDFXmit.c:269-299 | the turns of the hand-over, one after the other, give what CastOffPacket gives |
| `XmitDriver.Transmitter.CastOffPacket` | FDDI/netDFXmit.c:269-299 | the loop from the last descriptor back gives the adapter exactly the packet's descriptors |
| `XmitDriver.Transmitter.PutFragment` | FDDI/netDFXmit.c:518-557 | one scatter/gather element goes behind the bytes already packed, over as many buffers as it takes, or a descriptor of the adapter's is met, or its copy overruns and then it does not reach a word boundary |
| `XmitDriver.Transmitter.CopyIn` | FDDI/netDFXmit.c:537-561 | NetDFBcopy into the adapter's buffer puts the bytes behind those already packed exactly if it reaches the next word boundary |
| `XmitDriver.Transmitter.LoadRing` | FDDI/netDFXmit.c:499-573 | the packing loops fill and mark the ring as `XmitRing.Pack` says, also when they meet a descriptor of the adapter's; they overrun only if some element does not reach the next word boundary and complete only if all do |
| `XmitDriver.Transmitter.OutputPacket` | FDDI/netDFXmit.c:449-573 | output changes ring and state as `XmitModel.OutputPacket` says |
| `XmitDriver.Transmitter.OutputXmtElement` | FDDI/netDFXmit.c:222-250 | the first element is output and goes to the rear of the free list |
| `XmitDriver.Transmitter.XmitDone` | FDDI/netDFXmit.c:595-713 | completion changes the state as `XmitModel.XmitDone` says |
| `XmitDriver.Transmitter.Output` | FDDI/netDFXmit.c:734-840 | NetDFOutput, with its loopback, direct, queued and refused cases |
| `XmitDriver.Transmitter.XmitFlushQ` | FDDI/netDFXmit.c:1014-1040 | the loop marks every queued request done and frees its element |
| `XmitDriver.Transmitter.XmitDrop` | FDDI/netDFXmit.c:937-950 | the current request is marked done and forgotten |
| `XmitDriver.Transmitter.Reset` | FDDI/netDF.c:964-1057 | the ring goes back to the host, or the reset is put off |
| `XmitDriver.Transmitter.XmitRestart` | FDDI/netDFXmit.c:969-996 | the first queued packet is output, or the queue flushed |
| `WordCopy.NetDFBcopy` | FDDI/netDFXmit.c:78-185 | exactly the bytes asked for are copied, in aligned words only, if and only if the copy reaches the next word boundary |
| `WordCopy.CopyMore` | FDDI/netDFXmit.c:127-180 | head, words and tail together are one copy of the whole range |
| `CoreFile.XferRight` | gdb.3.5.04/core.c:332-480 | where nothing is left of a data segment and the gap is harmless, every request over any mix of segments and gaps ends, gives each byte its own segment's value or zero, and returns 1 exactly if some byte is in a gap |
| `CoreFile.XferRightIff` | gdb.3.5.04/core.c:412-416 | all requests are answered right exactly if, without a core file, data_end is not above data_start, data_start is not in the gap, and the bytes that measuring up to it passes over are zero |
| `CoreFile.ExecFileRight` | gdb.3.5.04/default-dep.c:542-567 | with data_start where the executable's data start every request is answered right exactly if data_end is not above that |
| `CoreFile.ExecFileAgain` | gdb.3.5.04/default-dep.c:492-568 | after a core file was given up and another executable read, that is so exactly if the data of the one before did not begin higher |
| `CoreFile.NoCoreFile` | gdb.3.5.04/default-dep.c:388-391 | with data_start 0 that is so exactly if the data follow the text without a gap or are all zero |
| `CoreFile.XferCoreFile` | gdb.3.5.04/core.c:332-480 | the loop fills the buffer and ends as `CoreFile.Xfer` says |
| `CoreFile.MyReadInto` | gdb.3.5.04/core.c:486-506 | the buffer gets the bytes of the file, as far as it goes |
| `InferiorMemory.Inferior.ReadInferiorMemory` | gdb.3.5.04/default-dep.c:171-210 | for every alignment, whole-word reads give exactly the bytes of the range, or fail exactly if it is not all there |
| `InferiorMemory.Inferior.WriteInferiorMemory` | gdb.3.5.04/default-dep.c:217-256 | for every alignment, whole-word writes change exactly the bytes of the range, as far as there is memory |
| `InferiorMemory.Inferior.WriteThenRead` | gdb.3.5.04/default-dep.c:171-256 | what was written is read back |
| `InferiorMemory.PutRead` | gdb.3.5.04/default-dep.c:171-256 | a range that was overwritten reads as the new bytes, and all others as before |
| `DummyFrame.PushPop` | gdb.3.5.04/i386mach-dep.c:788-895 | popping restores all sixteen registers exactly if those whose slot is at address 0 were left alone |
| `DummyFrame.SessionKeeps` | gdb.3.5.04/i386mach-dep.c:857-895 | however calls by hand are nested, nothing above the stack changes |
| `DummyFrame.CallRestores` | gdb.3.5.04/i386mach-dep.c:857-895 | however calls by hand are nested, each gives every register back |
| `DummyFrame.Machine.PushDummyFrame` | gdb.3.5.04/i386mach-dep.c:855-868 | the loop pushes what `DummyFrame.Push` says |
| `DummyFrame.Machine.FindSavedRegs` | gdb.3.5.04/i386mach-dep.c:791-806 | the slots of a dummy frame |
| `DummyFrame.Machine.PopFrame` | gdb.3.5.04/i386mach-dep.c:870-895 | the loop restores what `DummyFrame.Pop` says |
| `IpChecksum.FoldIsPlus` | FDDI/netCode.c:348-349 | one fold is enough for the sum of two shorts; of a longer length the high half is added once more |
| `IpChecksum.FinishedSum` | FDDI/netCode.c:337-349 | the incrementally completed header sums to all ones on a little-endian machine, and on another exactly if the high half of the length makes no difference |
| `IpChecksum.LongHeader` | FDDI/netCode.c:345-349 | a template and a length for which it does not, on a big-endian machine |
| `IpChecksum.OutputAccepted` | FDDI/netCode.c:721-750 | a packet built by Net_Output passes Net_Input with its own payload length exactly if it is not empty and fits |
| `IpInput.SumOnes` | FDDI/netCode.c:735-739 | the sum is all ones, in either byte order of the machine, exactly if the shorts of the network add up to a multiple of 65535 and not to 0 |
| `IpInput.AcceptExact` | FDDI/netCode.c:721-752 | for every packet, also with options: accepted exactly if its bytes are a whole packet of the protocol with a good header, and then with its payload length |
| `IpInput.ChangeNoticed` | FDDI/netCode.c:735-739 | any change of one byte of the header of an accepted packet, but for the first, makes it refused |
| `IpChecksum.CompleteHeader` | FDDI/netCode.c:316-349 | the header is completed in place as `IpChecksum.Finish` says |
| `Environ.EntryValue` | gdb.3.5.04/environ.c:103-106 | entries are told apart also if one name begins with the other |
| `Environ.SetLookup` | gdb.3.5.04/environ.c:113-151 | a value that was set is got, and other names are untouched |
| `Environ.UnsetLookup` | gdb.3.5.04/environ.c:155-173 | an unset name is gone, and other names are untouched |
| `Environ.ChangesRefine` | gdb.3.5.04/environ.c:95-173 | after any changes the vector stands for the map that was meant, with one entry a name |
| `Environ.Env.GetInEnviron` | gdb.3.5.04/environ.c:95-109 | the loop finds the value, or none |
| `Environ.Env.SetInEnviron` | gdb.3.5.04/environ.c:113-151 | the entry is replaced or appended, the vector growing if it must, and the terminator stays within its slots |
| `Environ.Env.UnsetInEnviron` | gdb.3.5.04/environ.c:155-173 | the entry is removed and the rest moved up |
| `Alloca.LiveBlocksSafe` | gdb.3.5.04/alloca.c:145-189 | in every run no block that a live frame asked for is among the freed, for either stack direction |
| `Alloca.ChainSorted` | gdb.3.5.04/alloca.c:134-189 | in every run the chain is sorted by depth and every block is in it or was freed, for either stack direction |
| `Alloca.NoneDeeper` | gdb.3.5.04/alloca.c:151-169 | after a request of any size exactly the blocks of before that are not deeper than the current frame remain, each as often as before, besides the new one, and all others are freed |
| `Alloca.Allocator.Alloca` | gdb.3.5.04/alloca.c:134-189 | the loop collects the garbage at the head of the chain and pushes the new block |

## Left out

- Reading symbols: stab and COFF type parsing, partial symbol tables, line tables and cleanup_undefined_types; the free
  list of symbol chunks and the growth of the context stack's array are values here.
- SymbolReader.Reader.ProcessOneSymbol: a right brace without an open brace is an error value, also where only a function is
  open; there the C code takes the function off the stack and compares the depth its context happens to hold.
- BlockLookup.BlockForPc: the files are those whose symbols have been read; the pass over partial symbol tables, which reads
  more of them in, is not modelled.
- CoffModel.CoffBuildsPreorder: on values only, since its finish_block is the one that `SymbolReader` has on the heap.
- Run control: attaching and detaching, terminal modes, machine exceptions, machines without a hardware single step;
  conditions are evaluated outside the model, so they cannot call functions of the inferior.
- Debugger.Inferior.BreakpointStopStatus: silent breakpoints and the command lists of breakpoints.
- Debugger.Inferior.NormalStop: only up to breakpoint_auto_delete, which is `Debugger.Inferior.BreakpointAutoDelete` and part
  of `RunSessions.Do`; what is printed and the popping of dummy frames are not modelled.
- BreakHits.IgnoresUsedUp: for a breakpoint that is the only enabled one at its address; where there are several,
  `BreakHits.StatusExact` says whose counts go down. Breakpoints at address 0, where a hit is taken for that of the
  step-resume breakpoint, are left out of `BreakHits.IgnoredRun`.
- StepEnds.StepRun: without breakpoints of the user's on the way other than at the beginning, without signals that the
  trampoline does not show, and with return addresses other than 0.
- StartRuns.StartRun: for two traps, as without START_INFERIOR_TRAPS_EXPECTED; remote targets are left out.
- RunSessions.SessionSafe: assumes that breakpoint sites do not overlap, that memory writes succeed and that the inferior does
  not write over a site. A shell that was stopped before it executed the program is not continued; `ShellRuns.ShellExec` says what
  becomes of memory if it is. The symbol tables do not change.
- StepRanges.RangeExact: for step counts that are not negative.
- StaleShadows.StaleExact: for commands that begin at no breakpoint, with step counts that are not negative; in the symbol tables
  the start of a function and the end of its prologue are inside of it.
- ShellRuns.ShellExec: for `continue`, until the trap of the exec, at which the user wants to stop.
- RunSessions.FreeRunCovered: assumes right duplicate marks; `CoveredRuns.SessionCovered` says which sessions keep them.
- Expressions.EvalMeaning: without function calls, structures, arrays, addresses, `sizeof`, casts and C++; values are integers,
  whatever the type of a constant, and only binary operations can fail.
- ExprPrint.PrintWrites: tokens and the blanks between them, not characters: numbers, names and quoted characters are one
  token each, a name stands for its symbol, and no two different signs that are printed next to each other make another token
  but `-` and `--`. Without floating point constants, strings, registers, subscripts, casts, members and calls.
- FDDI: SMT packets and receive rings, device registers, interrupt masks, statistics, wakeups beyond the done mark. A
  failing entry and the restart it asks for are one step, although the restart may come later by a callback.
- XmitDriver.Transmitter.OutputXmtElement: without the elements of SMT packets.
- XmitDriver.Transmitter.Output: a packet to the host itself is accepted and done; its copy and the length test are left out.
- XmitDriver.Transmitter.Reset: the transmit ring and the flags only.
- XmitDriver.Transmitter.LoadRing: what memory holds after a copy that overran is not modelled.
- XmitDriver.Transmitter.OutputPacket: for requests that can be copied; a request whose elements do not reach word boundaries
  is one for which `XmitDriver.Transmitter.LoadRing` may overrun.
- WordCopy.NetDFBcopy: a copy that runs on because its byte count went below zero ends in `ok == false`; what it overwrites
  is not modelled.
- XmitSafety.WireSafe: assumes that the flush ioctl comes only while no packet is on the ring, see `XmitSafety.FlushKeepsIff`,
  and that the elements of each packet reach word boundaries, see `WordCopy.NetDFBcopy`.
- CoreFile.XferCoreFile: without REG_STACK_SEGMENT; seeks and reads do not fail.
- CoreFile.XferRight: requests do not wrap around the end of the address space.
- InferiorMemory.Inferior.WriteInferiorMemory: with no bytes at an aligned address the C code stores beyond an empty buffer;
  here that is the outcome `Overflow`. Remote targets are left out.
- DummyFrame.PushPop: addresses do not wrap around, and frames other than dummies are left out.
- IpChecksum.OutputAccepted: netRoute.c is not modelled; the template is any that satisfies what its comment says.
- IpInput.AcceptExact: Net_InetChecksum is not part of this model; its place is taken by the complement of the sum that RFC 1071
  describes.
- Environ.ChangesRefine: names free of '='; init_environ and free_environ and the storage of strings are left out.
- Alloca.LiveBlocksSafe: storage itself and the detection of the stack's direction are left out.
- find_pc_misc_function, command parsing, help, x87 registers and instruction printing would only add easy members.
