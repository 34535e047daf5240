# Verified models of the Decaf compiler, the ucore kernel and the image builder

Each file holds one module. Code that changes state is a class or a method proved against functions on values,
and what the code is for is proved about those functions as lemmas.

**Compiler.** `Tac`, `DecafTree` (a big-step semantics of the source), `DecafLaws` (what that semantics and the checks on
a body mean, as laws between statements), `Translate` (the visitor and the code it emits), `TacVM` (the machine, step by
step), `MachineWords` (its operators, and the runs in which the bitwise ones are the source's). `TranslateCorrect`, `StmtCorrect` and `ProgramCorrect` prove that the emitted code computes what the source
program does, in both directions and for non-terminating programs too; `DefiniteAssignment` says which bodies do so from
any frame. `Liveness`, `LivenessSound` and `LivePaths` treat the dataflow analysis: its fixpoint, what live sets are good
for, and that they are exactly the temps some path reads before writing. `Inheritance`, `Overriding` and `ClassLayout`
treat class hierarchies, the types of overriding methods, object layout and virtual tables, and `ClassPrograms` puts
them one after the other.

**Synchronisation.** `Semaphores`, `Monitor` (for any client, as interleaved steps with a program counter for each
process), `Philosophers` (the condition-variable client) and `PhilosophersSema` (the semaphore client).

**Memory.** `TlbWords`, `Tlb` and `TlbKernel` (the TLB as a cache of the page table within one epoch: the words, the
invariant on their fields, the code on the words), `StaleMarks` (what a mark from an earlier epoch does), `Runs` (sets
of free units), `PageAlloc` (first fit with coalescing), `Slob` (the roving-pointer allocator, on its pointers),
`VirtualMemory` (areas and user-range checks).

**Processes.** `Process` is a state machine of the kernel's operations, one step up to each call of the
scheduler, with interrupts waking sleepers in between; a process is named by its pid. `ProcessEffects` says of every
operation what it changes, and that an exit code stays until it is collected. `ProcessKernel` is the
kernel's code on child and sibling pointers, proved to take these steps. `PidAlloc` chooses pids, and `ProcessTable`
joins the two: forks with the pid chosen, waits that give it back. `Timers` stands beside them.

**File system.** `Bitmap` (the word-packed free set), `ImageBuilder` (the block numbers mksfs hands out and records),
`ImageDisk` (what it writes where) and `ImageMount` (what the kernel reads of it, up to one theorem from the texts put
in to the texts read back).

**Arithmetic.** `Numerals` (division by ten with shifts, printing, reading back) and `RestoringDivision`.

Conventions: 32-bit words are bit vectors where bits matter and integers with an explicit modulus where sums do.
Free functions, clocks and device outcomes are parameters: the page an allocator is offered, what a page
fault meets, the order in which processes are scheduled. An assertion of the source that a caller can break is modelled
as an outcome; one that cannot fail is asserted and proved.

Where the code falls short of what it is for, the exact condition is proved:

- `&&` and `||` are strict, and with `!` bitwise on words. The conjunction is right exactly if an operand is 0 or the
  words share their last bit and no other, the disjunction and the negation exactly on 0 and 1
  (`MachineWords.AndIsLogicalIff`, `OrIsLogicalIff`, `NotIsLogicalIff`). The emitted code is right in every run that
  stays within these conditions, and a body that assigns its boolean variables before reading them always does
  (`ProgramCorrect.BodyRuns`, `ProgramCorrect.AssignedBodyRuns`). The compiler accepts other bodies too, and on what an
  earlier call left in the cells these can depart from it (`ProgramCorrect.UnassignedAnd`,
  `ProgramCorrect.StrayWordsDepart`).
- `load_pgdir` resets the TLB but leaves old `TLB_P` bits in the page table. One such bit is enough for the hardware to
  go on using a frame the page no longer has, whatever state the table is loaded in (`StaleMarks.StaleMarkMisleads`); no
  run finds a wrong translation if and only if there is none (`StaleMarks.SafeIffUnmarked`), which for a table that comes
  back means that nothing was in the TLB when it left (`StaleMarks.ReloadIsSafeIff`).
- `get_pte` does not check the page it takes for a second-level table; the miss handler then halts
  (`TlbKernel.Kernel.MissHandler`).
- `do_pgfault` reports success when no page could be allocated for an empty word, and the miss handler then enters that
  word (`Tlb.MissMapsPresentIff`, `TlbKernel.Kernel.MissHandler`). Once evicted, the page fails every later access unless
  its slot was slot 0 (`TlbKernel.NeverMappedAgainIff`).
- `default_init_memmap` does not merge with what it touches (`PageAlloc.InsertIsCanonicalIff`).
- The roving-pointer allocator is sound only while a second free block exists (`Slob.SlobHeap.SlobAlloc`,
  `Slob.RoverOnHandedIff`, `Slob.SlobHeap.SlobFree`). The sentinel, which no page touches, is that block until it is
  handed out, which happens exactly to a one-unit request, that is `kmalloc(0)`, when it comes next after the rover
  (`Slob.SentinelServed`, `Slob.SlobHeap.Kmalloc`).
- `__kmalloc` passes sizes 4080 to 4087 to `slob_alloc`, whose assertion they break (`Slob.SlobHeap.Kmalloc`).
- `mm_map` looks at its first page only; a range that starts in a gap and runs into a later area is stopped by an
  assertion, and a length that wraps maps less than was asked for (`VirtualMemory.MmStruct.MmMap`,
  `VirtualMemory.MapsTheRangeIff`).
- Division by ten is exact below 5368709122, although printing passes it 64-bit numbers (`Numerals.PrintedIff`).
- The restoring division fails for the least integer in ways spelled out by `RestoringDivision.RightIff`.
- mksfs builds files of up to 32768 blocks, and the kernel panics on every block from index 1036 on
  (`ImageBuilder.Builder.AppendBlock`, `ImageMount.FileReads`).
- `alloc_cache_block` in mksfs files a new block under the bucket of block 0; no search for it is ever needed
  (`ImageBuilder.Builder.UpdateCache`).

## Model

| member | source | states |
|---|---|---|
| DecafTree.FuelIrrelevant | Compiler/decaf/src/decaf/translate/TransPass2.java:299-372 | the source semantics is well defined: more fuel never changes how a statement ends |
| DecafLaws.WellFormedIff | Compiler/decaf/src/decaf/typecheck/TypeCheck.java:430-532 | the bodies translated are those that are typed, have no break outside a loop, and use each variable only after its one declaration in the text |
| DecafLaws.TypedIff | Compiler/decaf/src/decaf/typecheck/TypeCheck.java:579-642 | an expression has a type exactly by the rule of its operator |
| DecafLaws.ForIsWhile | Compiler/decaf/src/decaf/translate/TransPass2.java:299-322 | a for statement is its initialisation, then a while statement with the update at the end of its body |
| DecafLaws.WhileUnrolls | Compiler/decaf/src/decaf/translate/TransPass2.java:358-372 | a while statement is its body and then itself if the condition holds, and a break in the body ends it |
| DecafLaws.BranchLaws | Compiler/decaf/src/decaf/translate/TransPass2.java:324-344 | a true condition takes the first branch and a false one the second; a missing branch does nothing |
| Translate.Translator.VisitExpr | Compiler/decaf/src/decaf/translate/TransPass2.java:61-122 | the visitor appends the code of an expression, operands first and both always evaluated, and leaves the temp that holds its value |
| Translate.Translator.VisitStmt | Compiler/decaf/src/decaf/translate/TransPass2.java:124-147 | the visitor appends the code of a statement to the current list and leaves the stack of loop exits as it found it |
| Translate.Translator.VisitIf | Compiler/decaf/src/decaf/translate/TransPass2.java:324-344 | one branch around the true part, or two labels for both parts |
| Translate.Translator.VisitWhileLoop | Compiler/decaf/src/decaf/translate/TransPass2.java:358-372 | test at the head, exit label on the stack for breaks inside, branch back |
| Translate.Translator.VisitForLoop | Compiler/decaf/src/decaf/translate/TransPass2.java:299-322 | initialisation, then update and test laid out in that order with a first jump to the test |
| Translate.EnvKeys | Compiler/decaf/src/decaf/translate/TransPass2.java:50-59 | exactly the variables a statement declares get temps |
| TranslateCorrect.StmtShape | Compiler/decaf/src/decaf/translate/TransPass2.java:299-372 | the code of any statement extends the code before it, uses only fresh labels and temps, and marks every label it uses exactly once unless a surrounding loop does |
| TranslateCorrect.LabelAt | Compiler/decaf/tacvm-dev/src/decaf/tacvm/exec/Executor.java:326-338 | a branch target is where the mark stands in the emitted code |
| TranslateCorrect.MeetsIff | Compiler/decaf/tacvm-dev/src/decaf/tacvm/exec/Executor.java:219-306 | over all 32-bit words, the condition of those runs is exact for each operator |
| MachineWords.AndIsLogicalIff | Compiler/decaf/tacvm-dev/src/decaf/tacvm/exec/Executor.java:290-295 | over all 32-bit words, the AND is the logical and if and only if an operand is 0 or the words share their last bit and no other |
| MachineWords.OrIsLogicalIff | Compiler/decaf/tacvm-dev/src/decaf/tacvm/exec/Executor.java:296-301 | the OR is the logical or if and only if both words are 0 or 1 |
| MachineWords.NotIsLogicalIff | Compiler/decaf/tacvm-dev/src/decaf/tacvm/exec/Executor.java:302-306 | the complement to 1 is the logical not if and only if the word is 0 or 1 |
| MachineWords.DivisionIs | Compiler/decaf/tacvm-dev/src/decaf/tacvm/exec/Executor.java:237-250 | quotient and remainder over all 32-bit words, said without the division that computes them: an error exactly for divisor 0; otherwise the remainder is smaller than the divisor and signed like the dividend, and the sum comes out exactly unless the least word is divided by -1, when it does modulo 2^32 |
| MachineWords.ArithmeticIs | Compiler/decaf/tacvm-dev/src/decaf/tacvm/exec/Executor.java:219-236 | sum, difference, product and opposite are 32-bit words, right modulo 2^32 and exact whenever that is a word |
| MachineWords.ComparisonsAre | Compiler/decaf/tacvm-dev/src/decaf/tacvm/exec/Executor.java:254-289 | comparisons give 1 or 0, and 1 exactly when they hold |
| TranslateCorrect.ExprRuns | Compiler/decaf/tacvm-dev/src/decaf/tacvm/exec/Executor.java:219-325 | running the code of an expression leaves its value in its temp and the variables unchanged, or stops with an error exactly when the expression traps |
| StmtCorrect.WhileRuns | Compiler/decaf/src/decaf/translate/TransPass2.java:358-372 | the emitted loop computes what the source loop does, breaks included |
| StmtCorrect.ForRuns | Compiler/decaf/src/decaf/translate/TransPass2.java:299-322 | likewise for a for statement, with its update before each later test |
| StmtCorrect.StmtRuns | Compiler/decaf/src/decaf/translate/TransPass2.java:261-372 | for every well-formed statement, environment, store and machine at its start: the machine reaches the exit point, the loop exit, the return or the error that the source semantics gives, with the same store and output |
| ProgramCorrect.BodyRuns | Compiler/decaf/src/decaf/translate/TransPass2.java:33-48 | a function body, from its first instruction to its return, in every run where no operator meets a word it treats otherwise than the source: same ending, output, result and final store; with no ending in sight the machine is still going after as many steps |
| ProgramCorrect.AssignedBodyRuns | Compiler/decaf/src/decaf/translate/TransPass2.java:33-48 | the same from any frame whatever, for a body that assigns its boolean variables before it reads them |
| ProgramCorrect.TypedIsTame | Compiler/decaf/src/decaf/translate/TransPass2.java:33-48 | any body runs so from a frame that holds 0 or 1 for every boolean variable |
| DefiniteAssignment.AssignedIsTame | Compiler/decaf/tacvm-dev/src/decaf/tacvm/exec/Executor.java:290-306 | if no boolean variable is read before it has certainly been assigned, no operator meets a stray word in any run, and what is known to be assigned stays so |
| ProgramCorrect.StopsIffEnds | Compiler/decaf/tacvm-dev/src/decaf/tacvm/exec/Executor.java:169-182 | the machine stops if and only if the source program ends |
| ProgramCorrect.StoppedMeansEnded | Compiler/decaf/tacvm-dev/src/decaf/tacvm/exec/Executor.java:169-182 | whatever the machine shows when it stops is an outcome of the source program |
| ProgramCorrect.NoStrayBreak | Compiler/decaf/src/decaf/translate/TransPass2.java:261-264 | a break never leaves a well-formed body |
| ProgramCorrect.UnassignedAnd | Compiler/decaf/tacvm-dev/src/decaf/tacvm/exec/Executor.java:169-394 | a body that prints the conjunction of two variables nothing was assigned to, run on any two words in their cells: the machine prints what the source does exactly if a word is 0 or they share a bit |
| ProgramCorrect.StrayWordsDepart | Compiler/decaf/tacvm-dev/src/decaf/tacvm/exec/Executor.java:290-295 | with 2 and 1 in the cells it prints false where the source prints true |
| ProgramCorrect.TranslateAndRun | Compiler/decaf/src/decaf/translate/TransPass2.java:33-48 | translating, loading and running a body on a frame, as code: what is shown when the machine returns or stops on an error is an outcome of the source program on the frame's values |
| TacVM.Executor.Exec | Compiler/decaf/tacvm-dev/src/decaf/tacvm/exec/Executor.java:169-392 | the interpreter loop ends with the function's return, an error, or too many instructions, in the state the step relation gives for that many steps |
| Liveness.SummaryIsTransfer | Compiler/decaf/src/decaf/dataflow/BasicBlock.java:62-148 | live before a block, from def and liveUse, is what its instructions applied one after the other give |
| Liveness.BlockTransfer | Compiler/decaf/src/decaf/dataflow/BasicBlock.java:143-147 | the same with the variable the block's end tests |
| Liveness.FlowGraph.ComputeDefAndLiveUse | Compiler/decaf/src/decaf/dataflow/BasicBlock.java:62-148 | the marks on temps make the computed sets the summary of the block |
| Liveness.FlowGraph.AnalyzeLiveness | Compiler/decaf/src/decaf/dataflow/FlowGraph.java:172-191 | the fixpoint loop ends, and its sets are the least solution of the liveness equations, the edge of a returning block to block 0 included |
| Liveness.FlowGraph.Visit | Compiler/decaf/src/decaf/dataflow/FlowGraph.java:180-188 | one visit only raises sets, strictly if it reports a change |
| Liveness.LeastSolution | Compiler/decaf/src/decaf/dataflow/FlowGraph.java:177-190 | ascending sets where nothing changes any more solve the equations and lie below every solution |
| Liveness.AnalyzeBlock | Compiler/decaf/src/decaf/dataflow/BasicBlock.java:150-213 | the backward walk gives each instruction its live set, and ends at the block's live-in set |
| LivenessSound.LiveTempsDecide | Compiler/decaf/src/decaf/dataflow/FlowGraph.java:172-191 | states that agree on the temps live at a block take the same path for any number of blocks and return the same value |
| LivenessSound.LiveAfterDecides | Compiler/decaf/src/decaf/dataflow/BasicBlock.java:150-213 | the same from the middle of a block, with the live set of its instruction |
| LivenessSound.DeadMayBeOverwritten | Compiler/decaf/src/decaf/dataflow/BasicBlock.java:150-213 | a temp not live after an instruction may be overwritten there without changing the run |
| LivePaths.LiveIff | Compiler/decaf/src/decaf/dataflow/FlowGraph.java:172-191 | a temp is live at the start of a block in the least solution if and only if some path from there reads it before any instruction writes it |
| LivePaths.WrittenFirstIsDead | Compiler/decaf/src/decaf/dataflow/BasicBlock.java:62-148 | a temp that the block certainly writes before reading is not live at its start |
| LivePaths.ReadMatters | Compiler/decaf/src/decaf/dataflow/BasicBlock.java:62-148 | what an instruction is said to read can make a difference to what it does, under some meaning |
| LivePaths.UnreadDoesNotMatter | Compiler/decaf/src/decaf/dataflow/BasicBlock.java:62-148 | what it is not said to read makes none, under any |
| LivePaths.WrittenChanges | Compiler/decaf/src/decaf/dataflow/BasicBlock.java:62-148 | what it is said to write can change |
| LivePaths.UnwrittenStays | Compiler/decaf/src/decaf/dataflow/BasicBlock.java:62-148 | what it is not said to write never does |
| Inheritance.ClassChecker.CalcOrder | Compiler/decaf/src/decaf/typecheck/BuildSym.java:236-245 | orders are depths wherever parents lead to a root, and the marking makes the computation end on cycles |
| Inheritance.ClassChecker.CheckOrders | Compiler/decaf/src/decaf/typecheck/BuildSym.java:78-88 | every class comes out deeper than its parent if and only if no class inherits from itself |
| Overriding.CheckOverride | Compiler/decaf/src/decaf/typecheck/BuildSym.java:247-292 | accepted if and only if every member redeclared below an ancestor that declares it is a method in both, of a type that takes every value the one above takes and gives back only values the caller expects |
| Overriding.MayBeReplaced | Compiler/decaf/src/decaf/type/FuncType.java:27-50 | the comparison of method types decides this replacement by values: as many parameters, each taking every value of the one above, and a result all of whose values fit the one above |
| Overriding.Descends | Compiler/decaf/src/decaf/type/ClassType.java:18-32 | the walk up a class type's parents finds exactly its ancestors |
| Overriding.CompatibleIff | Compiler/decaf/src/decaf/type/ClassType.java:18-32 | a type is compatible with another, as the compiler compares them, exactly if every value of the one is a value of the other |
| Overriding.AcceptedIff | Compiler/decaf/src/decaf/typecheck/BuildSym.java:247-292 | comparing with the nearest declaration only is comparing with all of them |
| Overriding.DispatchIsTyped | Compiler/decaf/src/decaf/translate/TransPass2.java:289-294 | a call checked against the method of an ancestor's slot and made through it on any descendant reaches a method that takes every value the checked one takes, and whose results the caller can use |
| ClassPrograms.CheckAndLayOut | Compiler/decaf/src/decaf/typecheck/BuildSym.java:60-92 | the whole way from a class table: a cyclic table is refused, then one where some class clashes with an ancestor, each exactly when; otherwise all fields are placed and every call through an ancestor's slot of a filled table reaches the last override, which takes what the caller may pass and gives what it expects |
| ClassLayout.VisibleIs | Compiler/decaf/src/decaf/scope/ClassScope.java:70-78 | in an accepted hierarchy the visible methods are those with slots and the visible fields those laid out, each once |
| ClassLayout.Layouts.ResolveFieldOrder | Compiler/decaf/src/decaf/symbol/Class.java:152-188 | numbers of methods, fields and bytes of a class and of all its ancestors are those of its lineage; an overriding method takes the inherited number |
| ClassLayout.Layouts.OrderIfVisible | Compiler/decaf/src/decaf/symbol/Class.java:176-185 | the number of the nearest visible declaration is the slot of that name in the parent |
| ClassLayout.SameSlot | Compiler/decaf/src/decaf/translate/TransPass1.java:66-71 | a method has the same slot seen from an ancestor and from a descendant |
| ClassLayout.Layouts.CreateVTable | Compiler/decaf/src/decaf/translate/Translater.java:126-137 | the table has one entry for each slot, and none stays empty |
| ClassLayout.Layouts.FillVTableEntries | Compiler/decaf/src/decaf/translate/Translater.java:139-152 | every slot ends with the label of the class that declares its method last |
| ClassLayout.DispatchReachesOverride | Compiler/decaf/src/decaf/translate/TransPass2.java:289-294 | a call through any ancestor's slot finds the most derived override |
| ClassLayout.Layouts.AssignOffsets | Compiler/decaf/src/decaf/translate/TransPass1.java:45-64 | the fields a class adds lie one after the other from the end of the parent's object on |
| ClassLayout.FieldsDoNotOverlap | Compiler/decaf/src/decaf/translate/TransPass1.java:45-64 | a descendant keeps its ancestor's fields in place; the four bytes of a field lie inside the object, apart from those of other fields and of the table pointer, and no byte is left over |
| Semaphores.WokenInOrder | ucore/lab8_decaf/kern/sync/sem.c:16-54 | over any run of ups and downs, those woken are those who went to sleep first, in that order, and those still asleep are the rest |
| Semaphores.UnitsAddUp | ucore/lab8_decaf/kern/sync/sem.c:16-54 | over any run no unit is lost or made, nobody sleeps on a positive semaphore, and nobody sleeps twice |
| Semaphores.Semaphore.Run | ucore/lab8_decaf/kern/sync/sem.c:16-65 | the code, run on its own fields, sleeps and wakes in the order of the two theorems |
| Semaphores.Semaphore.Up_ | ucore/lab8_decaf/kern/sync/sem.c:16-30 | an up hands its unit to the first sleeper, or counts it, and the balance of units and sleepers rises by one |
| Semaphores.Semaphore.Down_ | ucore/lab8_decaf/kern/sync/sem.c:32-54 | a down takes a unit or joins the end of the queue, and the balance falls by one |
| Semaphores.Semaphore.TryDown | ucore/lab8_decaf/kern/sync/sem.c:67-77 | takes a unit only if there is one |
| Monitor.StepKeeps | ucore/lab8_decaf/kern/sync/monitor.c:26-72 | every step of every process, whatever the client, keeps one token and true counters |
| Monitor.AtMostOneActive | ucore/lab8_decaf/kern/sync/monitor.c:26-72 | in every interleaving of any client at most one process is active in the monitor |
| Monitor.CountersAreReal | ucore/lab8_decaf/kern/sync/monitor.c:26-72 | whenever a process inside reads them, count and next_count are the numbers of parked waiters and signallers |
| Monitor.TokenIsNeverLost | ucore/lab8_decaf/kern/sync/monitor.c:40-72 | with nobody active exactly one semaphore is positive: the mutex, with no signaller left, or one that some process is about to take |
| Monitor.SignalReachesWaiter | ucore/lab8_decaf/kern/sync/monitor.c:40-45 | a signal that finds waiters hands the token to one of them |
| Monitor.InitInv | ucore/lab8_decaf/kern/sync/monitor.c:7-23 | the initial state has the token in the mutex |
| Philosophers.NeighboursNeverEat | ucore/lab8_decaf/kern/sync/check_sync.c:110-154 | condition variables: no two neighbours eat, a philosopher back from taking its forks is eating, and one back from putting them down is thinking |
| Philosophers.NoOneForgotten | ucore/lab8_decaf/kern/sync/check_sync.c:110-154 | whenever the monitor is free a hungry philosopher has an eating neighbour |
| Philosophers.SomeoneCanMove | ucore/lab8_decaf/kern/sync/check_sync.c:110-154 | no deadlock: in every interleaving some philosopher is not asleep, and its next step goes on |
| PhilosophersSema.StepKeeps | ucore/lab8_decaf/kern/sync/check_sync.c:24-50 | semaphores: each own semaphore is one exactly while its philosopher is owed its forks, in every interleaving |
| PhilosophersSema.TableIsSafe | ucore/lab8_decaf/kern/sync/check_sync.c:24-50 | no two neighbours eat, a philosopher past take_forks is eating, at most one is in the critical section, and with nobody there a hungry philosopher has an eating neighbour |
| PhilosophersSema.SomeoneCanMove | ucore/lab8_decaf/kern/sync/check_sync.c:24-50 | no deadlock: in every interleaving some philosopher is not asleep, and its next step goes on |
| TlbWords.MarkWord | ucore/lab8_decaf/kern/mm/tlb.c:78 | storing a slot number and TLB_P in a page table word changes those two fields only |
| TlbWords.MarkLeavesBits | ucore/lab8_decaf/kern/mm/tlb.c:78 | bit by bit: of the word only bits 7 to 11 can change |
| TlbWords.UnmarkLeavesBits | ucore/lab8_decaf/kern/mm/tlb.c:111 | and unmarking clears bit 7 and changes no other |
| TlbWords.MappingBits | ucore/lab8_decaf/kern/mm/pmm.c:453-472 | a mapping has the frame in the upper twenty bits, the permissions asked for and the present bit |
| TlbWords.EntryLoDecodes | ucore/lab8_decaf/kern/mm/tlb.h:19-27 | the EntryLo register made from a word tells the hardware that word's frame and write flag: frame from bit 6 on, cache mode 2 in bits 3 to 5, the write flag in bit 2, valid and global in bits 1 and 0 |
| TlbWords.EntryLoOfFields | ucore/lab8_decaf/kern/mm/tlb.h:19-27 | EntryLo depends on frame and write flag alone, so marking never changes it, and it is never the invalid word |
| Tlb.LoadStartsEpoch | ucore/lab8_decaf/kern/mm/tlb.c:82-86 | after load_pgdir the invariant holds exactly when the page table carries no TLB_P bit |
| StaleMarks.StaleMarkMisleads | ucore/lab8_decaf/kern/mm/tlb.c:28-147 | one TLB_P bit left in the table, whatever slot it names and in whatever state the table is loaded, is enough: a run of accesses and two insertions after which the hardware translates a page to the frame it had before |
| StaleMarks.SafeIffUnmarked | ucore/lab8_decaf/kern/mm/tlb.c:82-86 | for every state load_pgdir is called in: no run after it finds a wrong translation if and only if the table carries no TLB_P bit |
| StaleMarks.ReloadIsSafeIff | ucore/lab8_decaf/kern/mm/tlb.c:82-86 | a table that comes back, in whatever state other tables have left the kernel, is safe there if and only if nothing was in the TLB when it left |
| Tlb.GetEmptyFrees | ucore/lab8_decaf/kern/mm/tlb.c:125-142 | the slot handed out, popped or evicted round robin, holds no marked page any more |
| Tlb.FillKeeps | ucore/lab8_decaf/kern/mm/tlb.c:64-80 | filling keeps slots, marks and the stack of empty slots in step |
| Tlb.InvalidateKeeps | ucore/lab8_decaf/kern/mm/tlb.c:90-112 | invalidating keeps them in step, frees a slot only when both halves are gone, and unmarks the page |
| Tlb.InsertKeeps | ucore/lab8_decaf/kern/mm/pmm.c:453-472 | page_insert keeps the invariant and leaves a fresh, unmarked mapping |
| Tlb.RemoveKeeps | ucore/lab8_decaf/kern/mm/pmm.c:310-345 | page_remove_pte keeps the invariant and clears a present word |
| Tlb.InsertTouches | ucore/lab8_decaf/kern/mm/pmm.c:453-472 | page_insert maps its page to the frame asked for; no other page maps otherwise or gains or loses its mark, and a second-level table comes into being only whole, empty and around the page |
| Tlb.RemoveTouches | ucore/lab8_decaf/kern/mm/pmm.c:310-345 | page_remove_pte clears the word of a present page and leaves every other word, mark for mark |
| Tlb.FillTouches | ucore/lab8_decaf/kern/mm/tlb.c:64-80 | filling marks its page and maps nothing otherwise; marks are lost only when no slot is empty, and then those of one pair |
| Tlb.TlbIsCache | ucore/lab8_decaf/kern/mm/tlb.c:28-112 | the TLB answers for a page exactly when its word is marked, with that word's frame and write permission |
| Tlb.NoDoubleMatch | ucore/lab8_decaf/kern/mm/tlb.c:64-80 | no two slots answer for one page pair |
| Tlb.MissFills | ucore/lab8_decaf/kern/mm/tlb.c:28-80 | after a handled miss the page is in the TLB |
| Tlb.EpochIsCoherent | ucore/lab8_decaf/kern/mm/tlb.c:28-147 | over any sequence of misses, invalidations, insertions and removals no translation differs from the page table and no page is found twice |
| Tlb.MissMapsPresentIff | ucore/lab8_decaf/kern/mm/vmm.c:461-464 | only present pages enter the TLB, exactly unless a page whose word is empty is missed with no memory for it, which do_pgfault does not report |
| TlbKernel.Kernel.RegisterIsWord | ucore/lab8_decaf/kern/mm/tlb.c:28-112 | on 32-bit words: the EntryLo register the hardware finds for a page is the one of the page's own word if that is marked, and 0 otherwise |
| TlbKernel.Kernel.MissHandler | ucore/lab8_decaf/kern/mm/tlb.c:28-80 | the handler on page-table words and registers does the step the invariant was proved for; entered, killed, panicked in kernel mode, or halted on a missing second-level table, each exactly when; once entered the register is the word's, and the page is absent exactly if its word was 0 or missing and there was no memory for the page |
| TlbKernel.Kernel.DoPgfault | ucore/lab8_decaf/kern/mm/vmm.c:461-520 | an empty word is mapped if there is memory and left as it is if not; any other absent word is swapped in, or fails without swapping |
| TlbKernel.NeverMappedAgainIff | ucore/lab8_decaf/kern/mm/vmm.c:507-517 | a page entered without memory and evicted keeps its slot number in its word: without swapping every later access to it fails, memory or not, exactly if that number is not 0 |
| TlbKernel.Kernel.Serve | ucore/lab8_decaf/kern/mm/tlb.c:28-147 | every access and every edit on words is an operation of the model, and one that can happen |
| TlbKernel.Kernel.FillMiss | ucore/lab8_decaf/kern/mm/tlb.c:64-80 | the stores after the fault do the modelled filling |
| TlbKernel.Kernel.GetEmpty_ | ucore/lab8_decaf/kern/mm/tlb.c:125-142 | the stack pop or the round-robin eviction, with its two words unmarked |
| TlbKernel.Kernel.TlbInvalidate | ucore/lab8_decaf/kern/mm/tlb.c:90-112 | likewise for invalidation |
| TlbKernel.Kernel.PageInsert_ | ucore/lab8_decaf/kern/mm/pmm.c:453-472 | likewise for page_insert, after which the word is the frame asked for with its permissions and the present bit |
| TlbKernel.Kernel.Epoch | ucore/lab8_decaf/kern/mm/tlb.c:28-147 | the code, from load_pgdir of an unmarked table through any accesses and edits: a run of the model, and every register is its page's word's, or 0 |
| PageAlloc.PageArea.AllocPages | ucore/lab8_decaf/kern/mm/default_pmm.c:102-127 | first fit: the lowest block with room is taken from its front, the rest staying in place; none if no block has room |
| PageAlloc.PageArea.FreePages | ucore/lab8_decaf/kern/mm/default_pmm.c:132-163 | one pass merges both neighbours, and the list stays sorted, separated and counted |
| PageAlloc.PageArea.ListAdd | ucore/lab8_decaf/kern/mm/default_pmm.c:62-79 | a block goes before the first one above it |
| PageAlloc.PageArea.InitMemmap | ucore/lab8_decaf/kern/mm/default_pmm.c:87-100 | registering memory inserts it without merging |
| PageAlloc.InsertIsCanonicalIff | ucore/lab8_decaf/kern/mm/default_pmm.c:87-100 | registration keeps the list coalesced exactly when the memory touches no free block |
| PageAlloc.FreesInAnyOrder | ucore/lab8_decaf/kern/mm/default_pmm.c:132-163 | blocks freed in any order leave one list |
| PageAlloc.FreesUndoAllocs | ucore/lab8_decaf/kern/mm/default_pmm.c:102-163 | after any requests, freeing what they were given, in any order, restores the list |
| Runs.CanonicalIsUnique | ucore/lab8_decaf/kern/mm/default_pmm.c:132-163 | a set of free units has one sorted and coalesced list |
| Runs.AddCovers | ucore/lab8_decaf/kern/mm/default_pmm.c:132-163 | putting a block back adds its units and no others |
| Runs.AddUndoesTake | ucore/lab8_decaf/kern/mm/default_pmm.c:102-163 | freeing what was just allocated restores the list |
| Slob.SlobHeap.SlobAlloc | ucore/lab8_decaf/kern/mm/kmalloc.c:98-151 | next fit from the rover, at most one page taken, none only if nothing fits and no page is offered; with a second free block left the list stays one address-ordered circle and objects disjoint, with none left the rover is stuck on what was handed out; while the sentinel is free all stays well exactly if it is not handed out |
| Slob.SlobHeap.SlobFree | ucore/lab8_decaf/kern/mm/kmalloc.c:153-185 | the block is linked in where its address belongs and merged with both neighbours; below a lone block that it touches, the swallowed block stays linked instead |
| Slob.SlobHeap.FindGap | ucore/lab8_decaf/kern/mm/kmalloc.c:164-168 | the walk ends, at the block before the gap, the single wrap included |
| Slob.RingAfterFree | ucore/lab8_decaf/kern/mm/kmalloc.c:170-180 | the pointer stores of a free leave one circle through the merged blocks |
| Slob.RingAfterTake | ucore/lab8_decaf/kern/mm/kmalloc.c:121-130 | the pointer stores of an allocation leave one circle through the remaining blocks, the rover on it |
| Slob.RoverOnHandedIff | ucore/lab8_decaf/kern/mm/kmalloc.c:121-130 | the rover is left on the block handed out exactly when it was the only free one |
| Slob.OneUnitTakesTheSentinel | ucore/lab8_decaf/kern/mm/kmalloc.c:76-77 | a one-unit request to an otherwise empty heap is given the sentinel, which stays linked |
| Slob.SentinelServed | ucore/lab8_decaf/kern/mm/kmalloc.c:98-130 | next fit hands out the sentinel if and only if the request is for one unit and the sentinel comes next after the rover |
| Slob.SlobHeap.Kmalloc | ucore/lab8_decaf/kern/mm/kmalloc.c:218-227 | requests below a page: sizes 4080 to 4087, and only those, break the assertion of slob_alloc; a request of size 0 is given the sentinel exactly if that comes next; any other object has a header unit with its size and overlaps no other object and no free block |
| Slob.SlobHeap.Kfree | ucore/lab8_decaf/kern/mm/kmalloc.c:255-279 | the size is found in the header and exactly that object becomes free; the sentinel given back is free again as at boot |
| Slob.TakePartition | ucore/lab8_decaf/kern/mm/kmalloc.c:98-151 | free and live units still divide up the units taken |
| Slob.FreePartition | ucore/lab8_decaf/kern/mm/kmalloc.c:153-185 | likewise after a free |
| Slob.PagesAddUp | ucore/lab8_decaf/kern/mm/kmalloc.c:98-185 | those units are one and 512 for each page taken |
| Process.StepKeeps | ucore/lab8_decaf/kern/process/proc.c:503-555 | fork, exit, wait, kill, sleeping, interrupts and scheduling keep family, run queue and waits in order |
| Process.NoZombieOverlooked | ucore/lab8_decaf/kern/process/proc.c:798-855 | in every reachable state no process sleeps for a child while a child it asked for is a zombie |
| Process.AdoptAllKids | ucore/lab8_decaf/kern/process/proc.c:533-549 | the children of an exiting process all go to init, in reverse order, and no other list changes |
| Process.AdoptAllParents | ucore/lab8_decaf/kern/process/proc.c:533-549 | those children get init as parent, and nobody else changes parent |
| Process.DispatchedInTurn | ucore/lab8_decaf/kern/schedule/sched.c:78-100 | the process at position k of the run queue runs at exactly the (k+1)-th dispatch, whatever happens in between |
| Process.ScheduleKeeps | ucore/lab8_decaf/kern/schedule/default_sched.c:13-39 | the queue holds exactly the runnable processes other than the current one and idle, each once |
| ProcessEffects.StepHasEffect | ucore/lab8_decaf/kern/process/proc.c:429-872 | the effect of every operation, field by field, as a relation between the states before and after |
| ProcessEffects.ZombieStays | ucore/lab8_decaf/kern/process/proc.c:798-855 | a zombie stays one with its code under every operation, until a wait of its parent that asked for it takes it away |
| ProcessEffects.ExitCodeIsKept | ucore/lab8_decaf/kern/process/proc.c:524 | over any run of operations after an exit, the process holds the code it gave to exit for as long as it is not collected |
| ProcessKernel.Kernel.SetLinks | ucore/lab8_decaf/kern/process/proc.c:153-162 | the child and sibling pointers spell out the lists of children after a birth |
| ProcessKernel.Kernel.RemoveLinks | ucore/lab8_decaf/kern/process/proc.c:165-178 | and after a child has been taken out, wherever it stood |
| ProcessKernel.Kernel.DoFork_ | ucore/lab8_decaf/kern/process/proc.c:463-477 | a fork is a step of the process model; its effect, field by field: one runnable child at the head of the list of children and the end of the run queue, nothing else |
| ProcessKernel.Kernel.DoExit_ | ucore/lab8_decaf/kern/process/proc.c:503-555 | so is an exit, with the hand-over loop on pointers: afterwards the process is a zombie whose code is the one given to exit, its children are those of init, and exactly its parent and init are woken, if they waited for a child |
| ProcessKernel.Kernel.HandOverAll | ucore/lab8_decaf/kern/process/proc.c:533-549 | the loop ends and does what handing over one child at a time does |
| ProcessKernel.Kernel.DoWait_ | ucore/lab8_decaf/kern/process/proc.c:798-855 | so is a wait: it takes the youngest zombie among the children asked for, with its code, sleeps if there are children but no zombie, and fails exactly when no child was asked for |
| ProcessKernel.WaitGetsExitCode | ucore/lab8_decaf/kern/process/proc.c:845 | whatever happens between a child's exit and the wait that collects it, the wait gives the code the child gave to exit |
| ProcessKernel.Kernel.FindZombie | ucore/lab8_decaf/kern/process/proc.c:810-828 | looking up by pid and walking the siblings find the same child |
| ProcessKernel.Kernel.DoKill_ | ucore/lab8_decaf/kern/process/proc.c:859-872 | so is a kill: no such process, exiting already, or killed, each exactly when; a killed process is marked as exiting and, if it was in an interruptible sleep, runnable |
| ProcessKernel.Kernel.WakeupProc | ucore/lab8_decaf/kern/schedule/sched.c:58-76 | while the queue holds exactly the runnable processes, a wake-up never finds the process in it already |
| ProcessKernel.Kernel.Interrupt_ | ucore/lab8_decaf/kern/schedule/sched.c:58-76 | a wake-up from an interrupt is a step of the model, in every state the kernel can be in: the sleeper is runnable and last in the queue, nothing else changes |
| ProcessKernel.Kernel.DoDoze_ | ucore/lab8_decaf/kern/sync/wait.c:115-121 | going to sleep on a timer, the keyboard or a semaphore is a step of the model: the process sleeps for that reason and nothing else changes |
| ProcessKernel.Kernel.Reschedule_ | ucore/lab8_decaf/kern/schedule/sched.c:78-100 | so is giving up the processor, in every state the kernel can be in: only the queue and the current process change |
| ProcessKernel.Kernel.Schedule_ | ucore/lab8_decaf/kern/schedule/sched.c:78-100 | the current process goes to the back, the first goes to the processor, idle runs if there is none |
| PidAlloc.PidAllocator.GetPid | ucore/lab8_decaf/kern/process/proc.c:181-213 | the first pid after the last one given, round the end if need be, that no listed process has; the search ends with fewer than MAX_PROCESS processes and wraps at most once; the remembered gap stays free |
| PidAlloc.FreePidExists | ucore/lab8_decaf/kern/process/proc.c:183 | there is always a free pid |
| ProcessTable.Processes.DoFork_ | ucore/lab8_decaf/kern/process/proc.c:429-480 | no process left to give, no memory, or a child, each exactly when; the child's pid is the first one after the last given that no process has, and the fork is a step of the process model |
| ProcessTable.Processes.DoWait_ | ucore/lab8_decaf/kern/process/proc.c:798-855 | a wait is a step of the model, and a collected child leaves the list the pids are chosen by |
| Timers.TimerList.AddTimer | ucore/lab8_decaf/kern/schedule/sched.c:102-122 | adding sets one deadline and moves no other |
| Timers.TimerList.DelTimer | ucore/lab8_decaf/kern/schedule/sched.c:125-142 | deleting removes one deadline and moves no other |
| Timers.TimerList.RunTimerList | ucore/lab8_decaf/kern/schedule/sched.c:145-175 | a tick brings every deadline one nearer and wakes exactly the owners of those that were one away |
| Timers.TickRefines | ucore/lab8_decaf/kern/schedule/sched.c:145-175 | the same on lists, with the head never zero afterwards |
| Timers.DelKeeps | ucore/lab8_decaf/kern/schedule/sched.c:125-142 | no sum of deltas leaves 32 bits |
| VirtualMemory.MmStruct.FindVma | ucore/lab8_decaf/kern/mm/vmm.c:75-100 | the cached search gives what looking at every area gives |
| VirtualMemory.MmStruct.InsertVma | ucore/lab8_decaf/kern/mm/vmm.c:103-142 | the assertions about the two neighbours hold exactly when the area is non-empty and overlaps none, and the list stays sorted |
| VirtualMemory.MmStruct.MmMap | ucore/lab8_decaf/kern/mm/vmm.c:158-187 | refused, out of memory, mapped or stopped by an assertion, each exactly when: the last if the range starts in a gap and runs into a later area. What is mapped is one new area of whole pages with the flags given: the range begins in its first page and, unless it wraps, ends in its last |
| VirtualMemory.MapsTheRangeIff | ucore/lab8_decaf/kern/mm/vmm.c:161 | the pages mapped hold the whole range exactly when its end does not wrap |
| VirtualMemory.WrappedMap | ucore/lab8_decaf/kern/mm/vmm.c:161 | a concrete range whose end wraps and of which one page is mapped |
| VirtualMemory.MmStruct.UserMemCheck | ucore/lab8_decaf/kern/mm/vmm.c:523-548 | accepted if and only if the range lies in user space, every address lies in an area whose own flag allows the access, and a write does not begin in a stack's first page |
| ImageBuilder.Builder.AllocIno | ucore/lab8_decaf/tools/mksfs.c:173-180 | block numbers are given out once each, and unused_blocks counts the rest |
| ImageBuilder.Builder.UpdateCache | ucore/lab8_decaf/tools/mksfs.c:382-395 | the index block needed is always new or the one last used |
| ImageBuilder.Builder.AppendBlock | ucore/lab8_decaf/tools/mksfs.c:397-426 | direct, indirect and double indirect entries spell out the blocks appended, for every file at once; as many index blocks are taken as the length calls for |
| ImageBuilder.Builder.RootBlock | ucore/lab8_decaf/tools/mksfs.c:415-417 | the double indirect block is new exactly for the first block that needs it |
| ImageBuilder.Builder.LeafBlock | ucore/lab8_decaf/tools/mksfs.c:417-420 | the index block under it is new exactly for a block that begins one, and otherwise the one last used |
| ImageDisk.Image.Append | ucore/lab8_decaf/tools/mksfs.c:516-526 | the next block of a file: allocated, holding the text given and zeros up to 4096 bytes, recorded, the blocks of all other files as they were |
| ImageDisk.Image.Close | ucore/lab8_decaf/tools/mksfs.c:312-353 | free map, super block, index blocks and inodes reach their places and none overwrites another or a data block |
| ImageDisk.Image.WriteMap | ucore/lab8_decaf/tools/mksfs.c:316-335 | the free map's blocks mark exactly the blocks not given out |
| ImageBuilder.WriteBits | ucore/lab8_decaf/tools/mksfs.c:316-333 | one block of the free map, bit by bit |
| ImageMount.KernelReadsBack | ucore/lab8_decaf/kern/fs/sfs/sfs_inode.c:200-292 | the kernel's block map at index i gives the i-th block appended and 0 past the end, up to its 12 + 1024 blocks |
| ImageMount.FileReads | ucore/lab8_decaf/kern/fs/sfs/sfs_inode.c:78-292 | and none of the assertions about blocks in use fails on the way, the inode's included |
| ImageBuilder.BlocksAreDistinct | ucore/lab8_decaf/tools/mksfs.c:173-180 | inodes, data, single and double indirect blocks and the index blocks under them, of all files: no two lie in one block |
| ImageMount.MountCountAgrees | ucore/lab8_decaf/kern/fs/sfs/sfs_fs.c:218-224 | the free blocks counted in a closed image are those not given out |
| ImageMount.MountSfs | ucore/lab8_decaf/kern/fs/sfs/sfs_fs.c:201-224 | mounting reads the free map block by block, counts it, and succeeds exactly if the super block says the same |
| ImageMount.BuildAndMount | ucore/lab8_decaf/tools/mksfs.c:516-560 | from end to end, for every script of new files and appended blocks: unless a file grows too big or the blocks the script takes do not fit, the image mounts, exactly the blocks given out count as used, and block i of a file, as the kernel reads it, has 4096 bytes: the i-th text appended and then zeros |
| Bitmap.FreeSet.Alloc | ucore/lab8_decaf/kern/fs/sfs/bitmap.c:53-71 | the lowest free block is taken, no other changes, and the count drops by one; none only if all are taken |
| Bitmap.FreeSet.Free | ucore/lab8_decaf/kern/fs/sfs/bitmap.c:91-97 | one block becomes free, no other changes, and the count rises by one |
| Bitmap.FreeSet.Count | ucore/lab8_decaf/kern/fs/sfs/sfs_fs.c:218-223 | the loop over bitmap_test counts the set bits |
| Bitmap.ZeroHasNoBit | ucore/lab8_decaf/kern/fs/sfs/bitmap.c:57-66 | a word is zero exactly when no bit of it is set, so the search inside a word succeeds |
| Numerals.RightBelow | ucore/lab8_decaf/libs/mips32s.h:7-18 | below 5368709122 the shifts and adds give quotient and remainder by ten, without a wrap that matters |
| Numerals.WrongFrom | ucore/lab8_decaf/libs/mips32s.h:7-18 | from there on, up to 64 bits, the quotient is too small |
| Numerals.PrintNum | ucore/lab8_decaf/libs/printfmt.c:53-69 | the numeral stands at the right end of the output, behind as many padding characters as the width leaves room for |
| Numerals.PrintedIff | ucore/lab8_decaf/libs/printfmt.c:53-69 | the numeral printed is the numeral of the number exactly when the base is 8 or 16 or the number is below 5368709122 |
| Numerals.DigitsStandFor | ucore/lab8_decaf/libs/printfmt.c:53-69 | the numeral of a number consists of digits of the base, has no leading zero and has that number as its value |
| Numerals.Strtol | ucore/lab8_decaf/libs/string.c:215-271 | blanks, sign, prefix and digits are read as specified, to the first character that is none |
| Numerals.ReadsNumeral | ucore/lab8_decaf/libs/string.c:215-271 | any blanks, sign, prefix and digits, followed by anything that is no digit: the value of those digits is returned with its sign, modulo 2^32, and reading stops right behind them |
| Numerals.DigitOfIs | ucore/lab8_decaf/libs/string.c:245-257 | which characters stand for which digits |
| Numerals.ReadBack | ucore/lab8_decaf/libs/string.c:215-271 | every 32-bit number is read back from its numeral in base 8, 10 or 16, sign included |
| RestoringDivision.Divmod | ucore/lab8_decaf/kern/libs/divmod.h:2-33 | quotient and remainder with the dividend's sign are right exactly for operands in range |
| RestoringDivision.LoopDivides | ucore/lab8_decaf/kern/libs/divmod.h:16-25 | after k steps the consumed bits of the dividend are divided, and the remainder register never overflows |
| RestoringDivision.RightIff | ucore/lab8_decaf/kern/libs/divmod.h:2-33 | right if and only if the divisor is not the least integer and, for the least dividend, is not -1 and at most 2^30 in magnitude |

## Left out

- ProgramCorrect.BodyRuns: does not model calls, objects, arrays and strings, so neither the branches of genCheckArrayIndex and the check and filling loop of genNewArray in Translater.java, nor the jumps of a call.
- TacVM.Executor.Exec: does not model stack offsets, because frame cells are named by their temps; a call's frame set-up is not part of this model.
- Liveness.FlowGraph.AnalyzeLiveness: does not model the building of basic blocks and their simplification; the graph is given.
- Overriding.CheckOverride: does not model the error type and the null type, which no declaration has, the error messages, or the removal of offending members, because an accepted program has none.
- ClassLayout.Layouts.AssignOffsets: the fields are taken in order of declaration, which is the order the sort gives them.
- Monitor.StepKeeps: does not model the kernel's own wait-queue links; a semaphore has a queue of sleepers, and each access to shared state is one step.
- Philosophers.NeighboursNeverEat: does not model the bound on rounds; philosophers may go on for ever.
- TlbKernel.Kernel.MissHandler: a virtual page is named by its number, not by the bits of its address, and EntryHi by its page pair.
- StaleMarks.SafeIffUnmarked: the numbers of virtual pages have no bound; StaleMarks.StaleMarkMisleads says how many unmarked pairs the run needs.
- Tlb.EpochIsCoherent: does not model reference counts and the freeing of frames, user permission bits beyond the write flag, or the swapping out of pages.
- PageAlloc.PageArea.InitMemmap: does not model reserved flags and reference counts of single pages.
- Slob.SlobHeap.SlobAlloc: does not model the alignment branch, because every caller passes 0; the offered page is a parameter.
- Slob.SlobHeap.Kmalloc: does not model requests of 4088 bytes and more, with their list of big blocks.
- Process.StepKeeps: does not model time slices, memory and files of processes, or the resumption of do_wait, which is a later wait or exit step of the woken process.
- ProcessKernel.Kernel.DoKill_: does not model the pid hash table; processes are found by pid directly.
- ProcessTable.Processes.DoFork_: does not model which of the copies of stack, memory and files fails, nor the undoing of those made before.
- Timers.TimerList.RunTimerList: does not model the wake-ups themselves; it gives the processes to wake, in order.
- VirtualMemory.MmStruct.UserMemCheck: does not model the check made without a memory map, which only compares kernel bounds.
- ImageMount.KernelReadsBack: does not model look-ups that create blocks, locks, and device errors.
- ImageMount.BuildAndMount: does not model directory entries, which are texts like any other here, the sizes and link counts in inodes, and the host's file system.
- Bitmap.FreeSet.Alloc: does not model the creation of a bitmap whose size is no multiple of the word size; the free map's size always is one.
- Numerals.PrintNum: does not model the format string, nor bases other than 8, 10 and 16, which the format never asks for.
- Numerals.ReadBack: overflow of the accumulated value is taken to wrap, which the C language leaves undefined.
- RestoringDivision.Divmod: overflow of signed registers is taken to wrap, which the C language leaves undefined.
- Register allocation and the text of the emitted assembly: registers live on the temps and victims are chosen at random.
- Lexers, parsers, error classes, tree printing and option handling.
- Kernel writes to the file system, the virtual file system, devices, traps, context switches and program loading.
- The kernel's own self-checks, and the skew heap, which the scheduler shown does not use.
