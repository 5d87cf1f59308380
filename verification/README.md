# Agim, verified

Agim is an Erlang-style runtime: blocks (lightweight processes) with mailboxes and links, a
work-stealing scheduler, supervisors and timers, a small language with two compilers, and a codec
for checkpoints. This project models the parts of it whose correctness is hard to see and proves
what they promise, for every input, every run or every interleaving.

`dafny verify dfyconfig.toml` checks all of it.

| component | files | what is proved |
|---|---|---|
| Work-stealing deque | `Deque`, `DequeRuns`, `DequeHazards` | one owner and any number of thieves, one step per atomic access: every run is a run of a plain double-ended queue; nothing is lost or returned twice; the two races that break this, with runs that show them and the exact condition for each |
| Mailbox | `Mailbox`, `MailboxRuns`, `MailboxBound` | many producers, one consumer: first in first out by tail exchange, the stub is never returned, NULL only if empty or a link is outstanding, at most `max + producers - 1` queued, and exactly which pushes are rejected |
| Stack compiler | `Ast`, `StackCode`, `StackExpr`, `StackStmt`, `StackProgram`, `StackBuild`, `StackPatch`, `Compiler`, `Refusal`, `Compilation`, `StackLimits` | the compiler class back-patches its way to exactly the layout of the program, refuses exactly the sources that break a rule stated on the syntax tree, and the bytes do what the syntax tree says, whether it halts, fails or runs for ever; when a jump or a name index beyond 16 bits goes wrong |
| Register compiler | `RegCode`, `RegExpr`, `RegCompiler`, `RegClobber`, `RegJumps`, `Agreement` | what the emitted code does to the registers, exactly; the shapes of expressions for which an operand is overwritten, exactly; the value of the expression in r0; and agreement with the stack compiler |
| Exit propagation | `LinkGraph`, `ExitWalk`, `ExitOutcome`, `ExitPropagation` | on every link graph, cycles included, exactly the reachable blocks die, exactly the right exit messages are sent, and survivors lose exactly the right links |
| Timer wheel | `TimerWheel` | timers fire once, when due and soon after, and by the first tick at their deadline if no tick loses time; the cached minimum is sound if and only if no timer is due at time zero |
| Supervisor | `Supervisor` | in every run of a new supervisor, less than twice the limit of restarts in any time span shorter than the window, and runs that reach this bound |
| Codec and checkpoints | `Codec`, `CodecBytes`, `SerialBuffer`, `Checkpoint` | decoding undoes encoding exactly up to depth 100 and names of 2^32 - 2 bytes; arbitrary bytes give bounded values; bytes cut short and unknown tags are refused |
| Expression parser | `Pratt`, `PrattComplete`, `PrattSound`, `PrattGrammar`, `PrattPrint`, `PrattParser` | the parser accepts exactly the trees that obey the precedence table, which is also given as a grouping of operators without numbers; printing with the fewest parentheses and parsing is the identity |
| Hash map and inline cache | `HashMap`, `HashMapRuns`, `InlineCache` | over every run of operations a finite map, exactly as long as none meets a key behind the sixteenth entry of its chain; cache hits are lookups |
| Strings | `Strings` | replace is join after split, and the counted length is the copied length |

Each imperative source file is a class, or a method with loops, over the fields that the source
updates, proved against a specification function; the concurrent queues are step machines, because
their claims are about interleavings. `Vm` and `RegVm` carry the machines' step functions as values
so that proofs about runs need not unfold them; `Wired` says that the value is the machine.

What turned out not to hold of the code as it is, each with a concrete input and the exact condition:

- A thief of the deque reads the capacity and the buffer separately; if the deque grows in between it
  indexes the new buffer with the old capacity, returns memory nobody wrote, and a block is lost
  (`DequeHazards.TornReadLosesBlock`, `DequeHazards.AlignedIff`).
- A push whose growth could not allocate goes on into a full ring and overwrites the oldest block
  (`DequeHazards.FailedGrowthLosesBlock`, `DequeHazards.FreeSlotIff`).
- The mailbox counts a message after it can be taken. If the consumer takes it first, the counter is below zero,
  and the empty mailbox rejects a push (`MailboxBound.EmptyRejects`, `MailboxBound.RejectedIff`).
- A forward jump of more than 16 bits keeps its placeholder without an error and lands in the middle of
  the code it should skip: `false and (not false) == false == ...` with 32767 comparisons is answered with
  true (`StackLimits.FarAnswer`, `StackLimits.AndLands`). The register compiler's conditional jump is wrong
  beyond 15 bits: `false ? 1 + 1 + ... : 7` with 2^14 terms jumps in front of the code, and with 2^15
  terms returns nil (`RegJumps.FarConditional`, `RegJumps.FarSum`, `RegJumps.TestLands`).
- The index of a global's name is cut to 16 bits: in a program of 65537 names, the last one is taken for the
  first one (`StackLimits.ManyNames`, `StackLimits.GetReads`).
- Every binary operator of the register compiler keeps a register, and the count of registers in use is a byte
  that wraps around. A flat sum is right at every length, but in `v + (t1 + t2 + ...)` with 129 terms in the
  parentheses, v is overwritten and a term is added twice
  (`RegClobber.RegistersRunOut`, `RegClobber.SumReturns`, `RegClobber.RegistersExact`).
- A branch of a conditional leaves its value on top of its locals, which are then popped, so that the first
  local takes its place: `if true { let x = 1; x + 1 }` is answered with 1
  (`StackProgram.LocalAnswers`, `StackStmt.BranchRuns`).
- A tick of the timer wheel forgets the part of the elapsed time that is less than a slot: with ticks every
  19 ms on 10 ms slots, a timer of 40 ms is not fired at 57 ms (`TimerWheel.LateTimer`); if no tick forgets
  anything, the first tick at the deadline fires it (`TimerWheel.Punctual`).
- A timer due at time zero makes the cached minimum say that nothing is pending
  (`TimerWheel.DueAtZero`, `TimerWheel.RunSound`).
- A key behind the sixteenth entry of its chain is not found, and setting it makes a second entry: after
  setting seventeen keys of one hash, one of them is lost, and every hash function with finitely many hashes
  has such keys (`HashMapRuns.SeventeenCollide`, `HashMapRuns.Pigeonhole`, `HashMapRuns.RunExact`).
- A replacement whose result is exactly the greatest size gets no room for its terminator
  (`Strings.GreatestSize`, `Strings.Replace`); and a name of 2^32 - 1 bytes asks for no memory at all when it
  is read back (`Codec.NameReadIff`, `Codec.DecodeExact`).

## Model

| member | source | states |
|---|---|---|
| Deque.StepRefines | src/runtime/worker.c:90-184 | every clean step of the owner or of any thief keeps the invariant and is one operation of the abstract queue, or none: a push appends, a pop takes the newest block, a successful compare-and-swap of a steal takes the oldest, and "empty" is only answered by a pop when the queue is empty |
| Deque.StealCasKeeps | src/runtime/worker.c:164-184 | if the compare-and-swap of a steal succeeds, the slot it read long before still held the oldest block, in spite of wrap-around and growth |
| Deque.PopReadKeeps | src/runtime/worker.c:132-162 | a pop that has seen more than one block owns the newest without a compare-and-swap: no thief can take it any more |
| Deque.GrowSwapKeeps | src/runtime/worker.c:90-114 | publishing the new buffer, before the new capacity, leaves the queue as it was for everybody |
| DequeRuns.RunLinearizes | src/runtime/worker.c:116-184 | every interleaving without the two races is a run of the abstract double-ended queue, event by event |
| DequeRuns.Conserves | src/runtime/worker.c:116-184 | along such a run, blocks queued before plus blocks pushed are the blocks returned plus the blocks queued after, as multisets |
| DequeRuns.ExactlyOnce | src/runtime/worker.c:116-184 | from an empty deque, with any number of thieves, in every run in which no thief that can still succeed reads through a torn pair and no push finds the ring full: pushed = returned + queued, so no block is returned more often than pushed and uninitialised memory is never returned |
| DequeRuns.Quiescent | src/runtime/worker.c:132-162 | with the owner idle the queue is what lies at indices top to bottom of the current buffer |
| DequeRuns.BoundsSafe | src/runtime/worker.c:90-184 | every slot access of owner and thieves is inside its buffer, even one that pairs an old capacity with a new buffer |
| DequeRuns.StealGivesUp | src/runtime/worker.c:164-184 | a steal gives up at its emptiness test only if the queue is empty or its one block is being popped |
| DequeRuns.AllocationSucceeds | src/runtime/worker.c:90-130 | if no allocation fails, a push never finds the ring full: torn reads are the only hazard left |
| DequeHazards.NewRunDistinct | src/runtime/worker.c:116-130 | while no block is pushed that some buffer still holds, no buffer holds a block twice |
| DequeHazards.AlignedIff | src/runtime/worker.c:164-184 | the slot a thief is about to read is the oldest block if and only if the capacity it loaded names the same slot as the length of the buffer it loaded |
| DequeHazards.FreeSlotIff | src/runtime/worker.c:116-130 | the write of a push leaves the queue alone if and only if the ring has a free slot |
| DequeHazards.FullRingLoses | src/runtime/worker.c:116-130 | a write into a full ring destroys the oldest block |
| DequeHazards.TornReadLosesBlock | src/runtime/worker.c:164-184 | for every capacity from 2 on, so also for the 64 that the code starts with, a run in which a thief's separate loads straddle a growth: it returns memory nobody wrote and the oldest block is lost |
| DequeHazards.FailedGrowthLosesBlock | src/runtime/worker.c:90-130 | for every capacity from 1 on, a run in which a failed allocation makes a push overwrite the oldest block, which was never returned, and queues its own block twice |
| Mailbox.StepKeeps | src/runtime/mailbox.c:97-188 | every step of every producer and of the consumer keeps the invariant and has the queue effect of its event: an exchange enqueues at the end, a return takes the oldest, everything else leaves the queue alone |
| Mailbox.ScribbleKeeps | src/runtime/mailbox.c:97-188 | whoever owns a message outside the mailbox may change its link or free it without harm |
| MailboxRuns.RunKeeps | src/runtime/mailbox.c:97-188 | over every schedule from any good state: pending before + enqueued = returned + pending after, in order |
| MailboxRuns.FirstInFirstOut | src/runtime/mailbox.c:97-188 | in every interleaving, messages are returned once each in the order of their tail exchanges, none is lost, and the stub is never returned |
| MailboxRuns.FirstInFirstOutPerSender | src/runtime/mailbox.c:97-188 | of every producer, the messages returned so far and then those pending are the messages it enqueued, in its order |
| MailboxRuns.NullOnlyIfEmptyOrLinking | src/runtime/mailbox.c:118-188 | a pop answers NULL only if nothing is pending or a producer is between its exchange and its link store |
| MailboxRuns.StubInsertedOnce | src/runtime/mailbox.c:171-188 | no node is ever twice in the queue, and the stub is re-inserted only while it is out of it |
| MailboxRuns.TakenIsUnreachable | src/runtime/mailbox.c:118-188 | the message a pop returns is linked from nowhere, held by no producer and about to be written by none |
| MailboxRuns.ReturnedIsUnreachable | src/runtime/mailbox.c:118-188 | so it is in every run: the caller may free it |
| MailboxBound.RunBounded | src/runtime/mailbox.c:97-116 | the counter, modulo 2^64, stays tied to the queue although it is updated late and may wrap below zero |
| MailboxBound.QueueBound | src/runtime/mailbox.c:97-116 | with P producers and a limit, never more than limit + P - 1 messages are queued |
| MailboxBound.RejectedIff | src/runtime/mailbox.c:100-105 | in every reachable state a push is rejected if and only if there is a limit and the messages queued, less those not yet counted, plus one taken and not yet uncounted, have reached it or are below zero |
| MailboxBound.QuietRejectedIff | src/runtime/mailbox.c:100-105 | while no push or pop is under way: if and only if there is a limit and at least that many messages are queued |
| MailboxBound.AcceptedEnqueues | src/runtime/mailbox.c:97-116 | a push that is not rejected enqueues its message, whatever the other threads do meanwhile |
| MailboxBound.EmptyRejects | src/runtime/mailbox.c:97-140 | a run after which nothing is queued and a push is rejected: a message was taken before it was counted |
| StackExpr.PoolsGrow | src/vm/bytecode.c:247-263 | compiling an expression only appends to the constant and string pools, so indices given out stay valid |
| StackExpr.ExprRuns | src/lang/compiler.c:291-365 | for any expression, wherever its bytes stand and whatever is below on the stack: running them pushes exactly the value of the syntax tree and ends right behind them, short-circuit operators, ternaries and assignments included, or crashes exactly if evaluation fails |
| StackStmt.LeaveRuns | src/lang/compiler.c:218-257 | break and continue arrive at the exit or head of their loop with exactly the locals of the loop body popped |
| StackStmt.WhileRuns | src/lang/compiler.c:2297-2313 | a compiled loop simulates the loop for every fuel and leaves the stack as it found it, however it is left |
| StackStmt.IfRuns | src/lang/compiler.c:2262-2295 | a compiled conditional executes the chosen branch and leaves exactly one value: what that branch leaves, or nil without one |
| StackStmt.BlockRuns | src/lang/compiler.c:2215-2221 | a block leaves exactly the enclosing locals on the stack, whatever it declared |
| StackStmt.BranchRuns | src/lang/compiler.c:2224-2244 | so does a block in value position, with one value more: that of its last expression, or nil, if it declares nothing, and otherwise what its first local holds at its end |
| StackStmt.ListRuns | src/lang/compiler.c:2215-2221 | a sequence of statements runs in order, each starting at the stack height the previous one left |
| StackStmt.StmtRuns | src/lang/compiler.c:2480-2520 | for any statement, chunk, environment and fuel: the machine ends where and how execution says, with the operand stack equal to the live locals, at the loop exit or head for break and continue |
| StackProgram.ProgramRuns | src/lang/compiler.c:2783-2801 | for every program and every fuel: halted with the globals of the execution and on the stack exactly the answer, which is the value of a final expression or what a final conditional leaves, or nothing; crashed if it fails; or still running |
| StackProgram.ProgramAgrees | src/lang/compiler.c:2783-2801 | whatever the machine comes to, the syntax tree comes to, and the other way round, with the same globals and the same answer |
| StackProgram.ProgramDiverges | src/lang/compiler.c:2783-2801 | the machine runs for ever if and only if the execution never ends |
| StackProgram.LocalAnswers | src/lang/compiler.c:2224-2244 | `if true { let x = 1; x + 1 }` is answered with 1, though its last expression is 2 |
| StackProgram.CompiledPlaced | src/lang/compiler.c:2845-2875 | what a compilation produces is what the theorems about runs are about, once its operands fit 16 bits |
| StackLimits.AndLands | src/vm/bytecode.c:115-125 | a short-circuit "and" whose left operand is false ends behind the expression if and only if the right operand fits the 16-bit jump, and otherwise in the middle of the right operand |
| StackLimits.OrLands | src/lang/compiler.c:309-353 | the same for "or" whose left operand is true |
| StackLimits.TestLands | src/lang/compiler.c:1633-1643 | a ternary whose condition is false reaches its else arm if and only if the then arm fits the jump |
| StackLimits.ArmLands | src/lang/compiler.c:1633-1643 | and leaves its then arm for the end if and only if the else arm fits |
| StackLimits.FarMeaning | src/lang/compiler.c:103-105 | `false and (not false) == false == ...` is accepted at every length, and means false |
| StackLimits.FarAnswer | src/vm/bytecode.c:115-125 | from 32767 comparisons on, its code halts with true if their number is odd |
| StackLimits.GetReads | src/lang/compiler.c:291-307 | reading a global reads the name in place i modulo 2^16 of the string table, which is the right one if and only if i fits 16 bits |
| StackLimits.ManyNames | src/vm/bytecode.c:247-263 | an accepted program of 65537 names answers with the value of its first global instead of its last |
| StackBuild.PatchedLands | src/vm/bytecode.c:107-125 | patching a placeholder makes the jump point to the end of the code |
| StackBuild.FrameExpr | src/lang/compiler.c:96-131 | bytes elsewhere in the chunk do not matter to an expression's code |
| StackBuild.AndBuilt | src/lang/compiler.c:309-353 | emitting and patching in the compiler's order gives the layout of a short-circuit "and" |
| StackBuild.OrBuilt | src/lang/compiler.c:309-353 | the same for "or", with its two jumps patched in opposite order |
| StackBuild.TernaryBuilt | src/lang/compiler.c:1633-1643 | the same for a ternary |
| StackPatch.StmtSpread | src/lang/compiler.c:218-240 | the break sites of a statement lie inside it, in order and without overlap |
| StackPatch.PatchAllWorks | src/lang/compiler.c:203-216 | patching the recorded sites at the end of a loop aims every break of the body, and no other, at the loop's exit |
| StackPatch.PatchAllElsewhere | src/lang/compiler.c:203-216 | and touches no other byte |
| StackPatch.StmtMoved | src/lang/compiler.c:203-240 | a body compiled with open breaks becomes, byte for byte, the body with its breaks aimed at the exit |
| StackPatch.IfBuilt | src/lang/compiler.c:2262-2295 | the emission order of a conditional, with its patches, gives its layout |
| StackPatch.WhileBuilt | src/lang/compiler.c:2297-2313 | the emission order of a loop - condition, exit jump, body, back jump, patch, breaks - gives its layout |
| StackCompiler.Compiler.EmitConstant | src/lang/compiler.c:120-131 | a constant goes to a new index of the pool and an error is raised exactly beyond 65536 of them |
| StackCompiler.Compiler.Intern | src/vm/bytecode.c:247-263 | a name is found in the string table or appended, once |
| StackCompiler.Compiler.EmitJump | src/lang/compiler.c:96-101 | a jump with a placeholder and the position of its operand |
| StackCompiler.Compiler.PatchJump | src/lang/compiler.c:103-105 | aims it at the end of the code, or leaves it if that is too far |
| StackCompiler.Compiler.ResolveLocal | src/lang/compiler.c:176-185 | the innermost local of that name, or none |
| StackCompiler.Compiler.CompileExpr | src/lang/compiler.c:2142-2211 | an error exactly for the expressions that are to be refused; otherwise the code of the expression is appended and nothing before it changes |
| StackCompiler.Compiler.CompileAssign | src/lang/compiler.c:1645-1683 | the same for plain and compound assignment; assigning a constant local is the error |
| StackCompiler.Compiler.CompileTernary | src/lang/compiler.c:1633-1643 | the same for a ternary |
| StackCompiler.Compiler.CompileBinary | src/lang/compiler.c:309-353 | the same for binary and short-circuit operators |
| StackCompiler.Compiler.EndScope | src/lang/compiler.c:139-149 | leaving a scope forgets exactly its locals and emits one pop for each |
| StackCompiler.Compiler.AddLocal | src/lang/compiler.c:151-174 | a local is added unless there are 256 or the scope has that name, which are errors |
| StackCompiler.Compiler.BeginLoop | src/lang/compiler.c:189-201 | at most 32 loops are open |
| StackCompiler.Compiler.EndLoop | src/lang/compiler.c:203-216 | patches exactly the breaks recorded for the innermost loop and closes it |
| StackCompiler.Compiler.EmitLoop | src/lang/compiler.c:107-118 | a back jump to the loop's head, or an error exactly if it is more than 16 bits away |
| StackCompiler.Compiler.EmitBreak | src/lang/compiler.c:218-240 | pops the locals above the loop, emits an open jump and records it; an error outside loops |
| StackCompiler.Compiler.EmitContinue | src/lang/compiler.c:242-257 | pops the locals above the loop and jumps back to its head |
| StackCompiler.Compiler.CompileBlock | src/lang/compiler.c:2215-2221 | the layout of the block, with the compiler's scope, locals and loops as before |
| StackCompiler.Compiler.CompileBlockExpr | src/lang/compiler.c:2224-2244 | the same for a block in value position |
| StackCompiler.Compiler.CompileIf | src/lang/compiler.c:2262-2295 | the layout of the conditional, or an error exactly if some part is to be refused |
| StackCompiler.Compiler.CompileWhile | src/lang/compiler.c:2297-2313 | the layout of the loop with all its breaks patched, and the enclosing loop's record unchanged |
| StackCompiler.Compiler.CompileLet | src/lang/compiler.c:2246-2260 | a local whose slot is where its value is left, or a global |
| StackCompiler.Compiler.CompileStmt | src/lang/compiler.c:2480-2520 | the layout of any statement, an error exactly for the statements to be refused, and the breaks of the enclosing loop recorded for it |
| StackCompiler.Compiler.CompileProgram | src/lang/compiler.c:2783-2801 | the layout of the whole program, ending in a halt |
| Compilation.Compile | src/lang/compiler.c:2845-2875 | no program exactly for the sources that break a rule of AcceptedIff; otherwise one laid out for its source with the pools it refers to, ready for ProgramRuns, ProgramAgrees and ProgramDiverges if its operands fit |
| Refusal.AcceptedIff | src/lang/compiler.c:96-260 | on the syntax tree: a source is accepted if and only if no block declares one name twice, break and continue are in loops, at most 256 locals are in scope at once, loops are nested at most 32 deep, at most 65536 literals need a constant, no local constant is assigned to, and no loop is longer than 16 bits |
| Refusal.RedeclaredIff | src/lang/compiler.c:158-166 | the search from the last local down to an outer scope finds a name if and only if the current block has declared it |
| Refusal.ExprIff | src/lang/compiler.c:120-131 | an expression is refused if and only if its literals do not fit the constant pool any more or it assigns to a local constant |
| RegCode.ImmReadBack | src/vm/regvm.h:200-207 | an immediate is read back modulo 2^16 |
| RegCode.IntReadBack | src/lang/regcompiler.c:183-194 | an integer survives as an immediate if and only if it is in the range the compiler tests for |
| RegCode.CondJumpReadBack | src/vm/regvm.h:218-229 | a conditional jump is read back as patched if and only if the distance fits 15 bits |
| RegCode.JumpReadBack | src/vm/regvm.h:209-216 | a plain jump patched as an immediate is read back if and only if the distance fits 16 bits |
| RegExpr.PlaceBounds | src/lang/regalloc.c:75-101 | while the count of registers in use does not wrap around, an expression compiled with n temporaries in use only uses registers from n on |
| RegExpr.BinaryRegs | src/lang/regcompiler.c:227-263 | both operands and the result of a binary operator are in different registers |
| RegExpr.TernaryRegs | src/lang/regcompiler.c:396-426 | the arms of a conditional leave its result register alone |
| RegExpr.RoomyNoClobber | src/lang/regalloc.c:75-101 | while the 8-bit count does not wrap around, nothing below the registers in use is written and no operand is overwritten |
| RegExpr.EffectWrites | src/lang/regcompiler.c:428-468 | the code writes only the registers that its shape names |
| RegExpr.NoClobberComputes | src/lang/regcompiler.c:428-468 | if no left operand's register is written while its right operand is evaluated, the effect has the value of the syntax tree in its register, whatever the operators mean |
| RegExpr.RegRuns | src/lang/regcompiler.c:428-468 | whether or not the count wraps around: running the code of a subexpression ends behind it with exactly the registers of its effect written, or fails |
| RegExpr.MachineReturns | src/lang/regcompiler.c:718-760 | the machine returns in r0 what the code has left in the register of the expression, even if operands were overwritten |
| RegExpr.ExprReturns | src/lang/regcompiler.c:718-760 | if no operand is overwritten and offsets fit, the machine returns the value of the syntax tree, in r0, or fails exactly if evaluation does |
| RegClobber.Clobbered | src/lang/regcompiler.c:227-263 | if an operand may be overwritten, there are leaves, and a meaning of the operators, for which the computed value is wrong |
| RegClobber.RegistersExact | src/lang/regalloc.c:75-101 | the code of a shape computes the value of every expression of that shape, for all meanings of the operators and all globals, if and only if no operand is overwritten |
| RegClobber.SumPlace | src/lang/regcompiler.c:227-263 | where each partial sum of a flat sum goes: every + keeps a register, and registers come round again modulo 256 |
| RegClobber.SumNoClobber | src/lang/regcompiler.c:227-263 | no flat sum of any length overwrites an operand, wherever its registers start |
| RegClobber.SumReturns | src/lang/regcompiler.c:227-263 | a flat sum of small integers is returned right, however long it is, by every machine that adds integers |
| RegClobber.LateClobbers | src/lang/regcompiler.c:227-263 | `v + (t1 + t2 + ...)` loses v if and only if there are more than 128 terms in the parentheses |
| RegClobber.EqualOperands | src/lang/regcompiler.c:227-263 | an operand that is overwritten by an equal value does no harm, so the condition is one on shapes |
| RegClobber.RegistersRunOut | src/lang/regalloc.c:75-92 | with more than 128 terms it is returned with one of the terms in the place of v, by every machine that adds integers |
| RegJumps.TestLands | src/vm/regvm.h:218-229 | a conditional whose condition is false reaches its else arm if and only if the then arm and what follows it have less than 2^15 instructions |
| RegJumps.ArmLands | src/vm/regvm.h:209-216 | and leaves its then arm for the end if and only if the else arm and its move have less than 2^16 |
| RegJumps.FarConditional | src/lang/regcompiler.c:396-426 | `false ? 1 + 1 + ... : v` with 2^14 to 32766 terms means v, and its test jumps in front of the code |
| RegJumps.FarSum | src/lang/regcompiler.c:396-426 | with 2^15 to 49151 terms its test jumps into the middle of the sum, which goes on from a register that is still nil, and nil is returned instead of v by every machine on which nil plus an integer is nil |
| RegisterCompiler.RegCompiler.NewResult | src/lang/regalloc.c:75-92 | the next temporary, with the 8-bit count wrapping around behind register 255; the highest register used is tracked |
| RegisterCompiler.RegCompiler.Release | src/lang/regalloc.c:94-101 | only the temporary handed out last is given back |
| RegisterCompiler.RegCompiler.PatchJump | src/lang/regcompiler.c:96-103 | the jump at a position gets the distance to the end of the code, and keeps its opcode and register |
| RegisterCompiler.RegCompiler.AddConstant | src/lang/regcompiler.c:105-112 | a new constant index, or an error exactly beyond 65536 |
| RegisterCompiler.RegCompiler.CompileBinary | src/lang/regcompiler.c:227-263 | the layout of the operator, with the allocator advanced as specified |
| RegisterCompiler.RegCompiler.CompileTernary | src/lang/regcompiler.c:396-426 | the layout of the conditional with both jumps patched |
| RegisterCompiler.RegCompiler.CompileExpr | src/lang/regcompiler.c:428-468 | the layout of any expression of the fragment |
| RegisterCompiler.CompileExpression | src/lang/regcompiler.c:718-760 | no code exactly if there are too many constants; otherwise the code and constants that ExprReturns is about |
| Agreement.CompilersAgree | src/lang/regcompiler.c:718-760 | the stack code and the register code of an expression compute the same value, and fail on the same inputs, wherever both are laid out |
| Agreement.CompileBoth | src/lang/regcompiler.c:718-760 | what the two compilers emit for an expression agrees on all machines, globals and meanings of the operators, if operands fit and none is overwritten; each compiler refuses exactly the expressions with too many constants |
| LinkGraph.LaterTrans | src/runtime/scheduler.c:494-553 | what a propagation may do to the blocks composes over its recursive calls |
| ExitWalk.SkipStep | src/runtime/scheduler.c:514-517 | a link to a dead or unknown block changes nothing of what has been achieved |
| ExitWalk.TrapStep | src/runtime/scheduler.c:522-536 | a link to a trapping block adds exactly one exit message |
| ExitWalk.KillStep | src/runtime/scheduler.c:537-551 | the recursive call's kills and messages are exactly what the victim's death owes, none of them repeated |
| ExitWalk.SettledVisit | src/runtime/scheduler.c:519-536 | a visited survivor loses exactly its link to the dead block and is woken if it trapped and waited |
| ExitWalk.SettledKill | src/runtime/scheduler.c:537-551 | and survivors of a recursive kill have lost exactly what they should |
| ExitOutcome.PathDies | src/runtime/scheduler.c:494-553 | along every path of links through non-trapping living blocks, everybody dies |
| ExitOutcome.ExitExact | src/runtime/scheduler.c:494-553 | stated on the links there were before: exactly the reachable blocks are killed if the exit is abnormal and nobody if it is normal, each with exit code -1 and a reason; each trapping block is told exactly once for each dead block linked to it; and survivors lose exactly their links to the dead blocks linked to them, are made runnable if they waited and were told, and are otherwise unchanged |
| ExitPropagation.Scheduler.Link | src/runtime/block.c:350-376 | adds a link once, refuses an invalid process or a lack of memory |
| ExitPropagation.Scheduler.Unlink | src/runtime/block.c:378-392 | swap-remove takes out exactly that link |
| ExitPropagation.Scheduler.Crash | src/runtime/block.c:515-521 | dead, with code -1 and a reason |
| ExitPropagation.Scheduler.Tell | src/runtime/scheduler.c:522-536 | one attempted message, and a waiting block is made runnable |
| ExitPropagation.Scheduler.PropagateExit | src/runtime/scheduler.c:494-553 | terminates on every graph, cycles and self-links included, with the outcome of ExitExact, and counts exactly the blocks it kills |
| ExitPropagation.Scheduler.Kill | src/runtime/scheduler.c:476-492 | killing a living block comes to its abnormal exit; killing a dead or unknown one does nothing |
| TimerWheel.TurnDist | src/runtime/timer.c:248-249 | within one turn the hand is at a slot exactly when it has come the distance to it |
| TimerWheel.StepSound | src/runtime/timer.c:156-316 | every operation keeps the cached minimum sound, except adding a timer that is due at time zero, and a tick that fires something makes it exact |
| TimerWheel.RunSound | src/runtime/timer.c:318-322 | over a run, the cached minimum can stand for a scan of the wheel if and only if no such timer is added |
| TimerWheel.DueAtZero | src/runtime/timer.c:175-200 | such a timer is pending while the cached minimum says that nothing is |
| TimerWheel.GoneForGood | src/runtime/timer.c:206-316 | a timer that fired or was cancelled is never pending again |
| TimerWheel.FiresOnce | src/runtime/timer.c:206-316 | in every run a timer fires at most once, and never after it was cancelled |
| TimerWheel.FiresDue | src/runtime/timer.c:156-316 | and never before its deadline, which is now + timeout or the greatest time |
| TimerWheel.HandComesCloser | src/runtime/timer.c:229-292 | while a due timer has not fired, every tick that finds the clock moved brings the hand at least one slot closer to it |
| TimerWheel.DueFires | src/runtime/timer.c:229-292 | so it fires within as many such ticks as the wheel has slots |
| TimerWheel.NextTickFires | src/runtime/timer.c:156-316 | the next tick after a timer was added fires it if and only if it is due then and the clock has moved |
| TimerWheel.Punctual | src/runtime/timer.c:240-292 | in every run whose ticks come after at most a slot of time or after whole slots, a timer is fired by the first tick at its deadline, however often it was met too early before |
| TimerWheel.LateTimer | src/runtime/timer.c:240-246 | a run with other ticks in which the first tick after the deadline does not fire the timer |
| TimerWheel.Timers.AddTimer | src/runtime/timer.c:156-204 | the deadline saturates at 2^64 - 1, the timer is filed under the slot its timeout names, and the cached minimum takes it into account |
| TimerWheel.Timers.CancelTimer | src/runtime/timer.c:206-227 | exactly that timer is gone |
| TimerWheel.Timers.SweepBucket | src/runtime/timer.c:248-292 | one bucket: the due timers in it are fired, the others moved on, and every timer is in exactly the bucket that its slot names |
| TimerWheel.Timers.Rescan | src/runtime/timer.c:294-310 | the scan after a firing tick finds the exact minimum |
| TimerWheel.Timers.TickClock | src/runtime/timer.c:229-316 | fires exactly the due timers on the slots the hand passes, in the order in which it comes to them, and carries each early one to exactly the slot that its remaining time names each time it is met |
| TimerWheel.Timers.NextDeadline | src/runtime/timer.c:318-322 | without looking at the wheel, a positive bound below every pending deadline, as long as the minimum is sound |
| Supervisor.LessThanTwice | src/runtime/supervisor.c:110-129 | a window that the code can be in grants at most 2 * limit - 1 in any time span shorter than itself, and nothing if the limit is zero |
| Supervisor.SoundRun | src/runtime/supervisor.c:113-127 | in every run of a new supervisor, a window has been started exactly if it counts something |
| Supervisor.InstantBounded | src/runtime/supervisor.c:110-129 | with a window of one millisecond such a span is an instant, and at most the limit is granted |
| Supervisor.ChildRestartsBounded | src/runtime/supervisor.c:90-130 | in every run of a new supervisor, and in any span shorter than its window, a child is granted at most 2 * max_restarts - 1 restarts |
| Supervisor.RoundsBounded | src/runtime/supervisor.c:346-418 | and the supervisor goes through at most 2 * (max_restarts - 1) - 1 rounds in any span shorter than its own window, and through none if max_restarts is one |
| Supervisor.ChildBoundReached | src/runtime/supervisor.c:90-130 | for every limit and every window of at least two milliseconds there is a run of a new supervisor in which a child gets that many |
| Supervisor.RoundBoundReached | src/runtime/supervisor.c:346-418 | and for max_restarts of two or more there is one in which the supervisor goes through that many rounds |
| Supervisor.WhoIsRestarted | src/runtime/supervisor.c:303-418 | per strategy, by index: in a round the child that exited, all children, or that child and those behind it have their new processes; nobody else has changed; without a round the child that exited has no process |
| Supervisor.WhenRestarted | src/runtime/supervisor.c:90-130 | a restart is granted if and only if the child is permanent, or transient and the exit not normal, and its limit is not reached in its window; restarts take place if and only if the supervisor stays below its own limit; it gives up only there |
| Supervisor.SupervisorState.FindChild | src/runtime/supervisor.c:294-301 | the first child with that process |
| Supervisor.SupervisorState.AskChild | src/runtime/supervisor.c:90-130 | whether a restart is granted, and the child's window after the question |
| Supervisor.SupervisorState.RestartRound | src/runtime/supervisor.c:303-344 | the children the strategy names have their new processes, in place |
| Supervisor.SupervisorState.HandleExit | src/runtime/supervisor.c:346-418 | the transition that the bounds are about |
| Codec.RoundTrip | src/runtime/serialize.c:395-661 | wherever the bytes of a supported value with names the reader can hold stand, at whatever depth: the value and the position behind it if the depth stays within 100, and overflow if not |
| Codec.DecodeUndoesEncode | src/runtime/serialize.c:391-393 | decoding the bytes of a value, followed by anything, gives the value and stops at what follows if it is nested at most 100 deep, and reports overflow if it is deeper |
| Codec.NameReadIff | src/runtime/serialize.c:211-226 | a name is read back if and only if its length plus one has 32 bits |
| Codec.DecodeExact | src/runtime/serialize.c:391-661 | of the values whose lengths have 32 bits, exactly those nested at most 100 deep with names shorter than 2^32 - 1 are read back |
| Codec.DecodeBounded | src/runtime/serialize.c:395-661 | on arbitrary bytes, the position only grows and stays within the buffer, a value has no more nodes than bytes were read for it, and no name is too long for the reader |
| CodecBytes.KindWritten | src/runtime/serialize.h:74-89 | the byte each kind of value is written with |
| CodecBytes.KindRead | src/runtime/serialize.c:395-661 | a value is only read from bytes that start with the byte of its kind |
| CodecBytes.KindUnknown | src/runtime/serialize.c:658-660 | every other byte is unsupported, and no bytes are corrupt |
| CodecBytes.HighByteFirst | src/runtime/serialize.c:102-109 | the four bytes of a number, high byte first |
| CodecBytes.HalvesOf | src/runtime/serialize.c:111-121 | a 64-bit number is its two halves, high half first |
| CodecBytes.NegativeInt | src/runtime/serialize.c:123-126 | negative integers are written as two's complement |
| CodecBytes.DecodeSame | src/runtime/serialize.c:395-661 | whatever is read, or refused for another reason than missing bytes, does not depend on bytes behind the end |
| CodecBytes.CutShort | src/runtime/serialize.c:395-661 | every proper beginning of a readable encoding is refused as corrupt |
| SerialBuffers.SerialBuffer.WriteU32 | src/runtime/serialize.c:102-109 | four bytes, high byte first |
| SerialBuffers.SerialBuffer.WriteU64 | src/runtime/serialize.c:111-122 | eight bytes, high byte first |
| SerialBuffers.SerialBuffer.WriteString | src/runtime/serialize.c:141-148 | the low 32 bits of the length, then all the bytes |
| SerialBuffers.SerialBuffer.SerializeValue | src/runtime/serialize.c:230-384 | fails exactly on values that hold a function, a closure or a vector; otherwise appends exactly the encoding that the round trip is about |
| SerialBuffers.SerialBuffer.ReadU32 | src/runtime/serialize.c:166-174 | the number read back, or nothing read if fewer than four bytes are left |
| SerialBuffers.SerialBuffer.ReadU64 | src/runtime/serialize.c:176-188 | the same for eight |
| SerialBuffers.SerialBuffer.ReadString | src/runtime/serialize.c:448-466 | the bytes of a string or byte value: exactly as many as the length says, or an error |
| SerialBuffers.SerialBuffer.ReadName | src/runtime/serialize.c:211-226 | the bytes of a name, an error if they are missing, and too little memory exactly if the length is 2^32 - 1 |
| SerialBuffers.SerialBuffer.DeserializeValue | src/runtime/serialize.c:395-661 | exactly the decoding that the round trip and the bound are about, value, error and position |
| Checkpoints.CheckpointRoundTrip | src/runtime/checkpoint.c:149-245 | every field of a checkpoint comes back, a missing name as an empty one; only a later version is refused, and only a name of 2^32 - 1 bytes is too long |
| Checkpoints.Save | src/runtime/checkpoint.c:149-181 | appends exactly the encoding of the checkpoint |
| Checkpoints.Load | src/runtime/checkpoint.c:183-245 | exactly its decoding, errors included |
| PrattComplete.Exact | src/lang/parser.c:626-683 | a tree in front of an operator that cannot belong to it is read whole, and parsing goes on from there |
| PrattComplete.ParseUndoesFlatten | src/lang/parser.c:626-683 | every tree that obeys the precedence table is parsed back from its tokens if and only if it fits the depth limit of 256 |
| PrattSound.ParseSound | src/lang/parser.c:587-683 | whatever is parsed has the consumed tokens as its in-order yield, obeys the table (binaries to the left, assignment and ternary to the right) and is followed by no operator it should have taken |
| PrattSound.ParseIff | src/lang/parser.c:626-683 | the parser accepts exactly those trees |
| PrattGrammar.GroupedIff | src/lang/parser.c:148-204 | the trees that obey the table are those grouped by six classes of operators, with unary operators tighter and conditionals, ranges and assignments looser |
| PrattGrammar.ParseExact | src/lang/parser.c:626-683 | the parser gives a tree if and only if it is written there, grouped in this way, followed by something that does not continue it, and nested at most 256 deep |
| PrattGrammar.TwoOperators | src/lang/parser.c:164-204 | `a t b u c` groups to the right if and only if u is of a later class than t |
| PrattGrammar.UnaryFirst | src/lang/parser.c:289-295 | a unary operator takes only the next operand |
| PrattGrammar.TernaryLater | src/lang/parser.c:164-204 | a conditional takes whole binary operations on both ends and groups to the right |
| PrattGrammar.RangeLater | src/lang/parser.c:164-204 | a range takes whole conditionals and binary operations and groups to the left |
| PrattGrammar.AssignLast | src/lang/parser.c:164-204 | an assignment takes everything on its right |
| PrattPrint.ParensGood | src/lang/parser.c:164-204 | putting in parentheses where the table needs them gives a tree that obeys it and means the same |
| PrattPrint.ParensFewest | src/lang/parser.c:164-204 | no other way of writing the expression down needs fewer |
| PrattPrint.PrintParse | src/lang/parser.c:626-683 | printing an expression with the fewest parentheses and parsing gives the same expression, within the depth limit |
| PrattParser.Parser.ParsePrimary | src/lang/parser.c:401-466 | atoms, groups and unary operators as specified, depth restored |
| PrattParser.Parser.ParseInfix | src/lang/parser.c:587-624 | the right operand with the precedence and associativity of the operator, depth restored |
| PrattParser.Parser.ParsePrecedence | src/lang/parser.c:626-683 | the result, the position and the error of the specification, with the parser's depth restored on every path |
| HashMaps.FindIff | src/types/map.c:85-100 | the bounded walk finds what the chain holds if and only if the key is not behind the sixteenth entry |
| HashMaps.ModDouble | src/types/map.c:112-133 | the new home of a key lies over its old one |
| HashMaps.AllMoved | src/types/map.c:112-133 | moving every entry to the front of its new chain keeps every key once, with its value, in its home bucket |
| HashMaps.DoubledHomed | src/types/map.c:112-133 | doubling any table keeps all entries, each in its home bucket |
| HashMaps.DoubledResized | src/types/map.c:112-133 | with each key once, a doubled table stands for the same map |
| HashMaps.SetMeaning | src/types/map.c:228-287 | what a set does to the finite map, growth, load factor and lack of memory included, and that each key stays once if and only if the key was not behind the sixteenth entry |
| HashMaps.DeleteMeaning | src/types/map.c:293-329 | what a delete does to the finite map |
| HashMaps.ResizedShort | src/types/map.c:112-133 | doubling only splits chains, so it never breaks the chain bound |
| HashMaps.HashMap.FindEntry | src/types/map.c:85-100 | the place of the key in its home chain, if it is among the first sixteen |
| HashMaps.HashMap.MapGet | src/types/map.c:223-226 | what the first sixteen entries of the home chain hold: right if and only if the key is not behind them, so always while chains are short |
| HashMaps.HashMap.ChainDepth | src/types/map.c:102-110 | the length of the chain |
| HashMaps.HashMap.Resize | src/types/map.c:112-133 | the doubled table, entry by entry, or the old one if there is no memory; the same map if each key is there once |
| HashMaps.HashMap.MapSet | src/types/map.c:228-287 | exactly the step that the theorems about runs are about; and if each key was there once: the key has the value and every other key what it had, each key stays once if and only if the key was not behind the sixteenth entry, and the size counts the entries |
| HashMaps.HashMap.MapDelete | src/types/map.c:293-329 | exactly the step that the theorems about runs are about; and if each key was there once: the key is gone, every other key has what it had, and the size counts it |
| HashMapRuns.StepExact | src/types/map.c:223-329 | one set, get or delete: the table and the finite map go on agreeing and a get is answered rightly if and only if the operation does not meet a key behind the sixteenth entry |
| HashMapRuns.RunExact | src/types/map.c:223-329 | over every sequence of operations on a new map, for every hash function, capacity and lack of memory: all answers and all tables are those of the finite map if and only if no get or set meets such a key |
| HashMapRuns.ShortRun | src/types/map.c:82-133 | in particular while no chain is longer than sixteen |
| HashMapRuns.SetShort | src/types/map.c:253-287 | a set keeps chains short if and only if it replaces a value, finds no memory, or inserts into a chain of less than sixteen after growing |
| HashMapRuns.SeventeenCollide | src/types/map.c:82-133 | after setting seventeen keys of one hash on a new map of any capacity, one of them is not found, and setting it makes a second entry |
| HashMapRuns.Pigeonhole | src/types/map.c:82-100 | seventeen such keys are among any 16 n + 1 keys that have n hashes |
| HashMapRuns.SomeCollide | src/types/map.c:82-100 | every hash function with finitely many hashes has seventeen such keys |
| InlineCaches.StateOfCount | src/vm/ic.c:67-100 | after every sequence of updates the cache's state is a function of its count, and once megamorphic it never changes |
| InlineCaches.HitIsLookup | src/vm/ic.c:34-63 | whatever has happened to the map, a hit is what the map holds, however stale the remembered bucket is, and what the full lookup returns if and only if the key is not behind the sixteenth entry |
| InlineCaches.RememberedHit | src/vm/ic.c:67-99 | after any updates, a bucket remembered for a map is the one searched for it, unless the cache has given up: every key in it is found, and no other |
| InlineCaches.StaysRemembered | src/vm/ic.c:67-99 | and it stays so until a map with the same slot is remembered |
| InlineCaches.InlineCache.LookupKey | src/vm/ic.c:34-63 | the whole chain of the remembered bucket is searched, and a hit agrees with the map |
| InlineCaches.InlineCache.Remember | src/vm/ic.c:67-100 | the transition that StateOfCount is about |
| Strings.ReplaceIsJoinSplit | src/types/string.c:384-457 | replacing is splitting at the old and joining with the new |
| Strings.JoinUndoesSplit | src/types/string.c:254-325 | joining a split at the same delimiter gives the string back |
| Strings.PiecesClean | src/types/string.c:254-281 | no piece contains the delimiter, and there is one more piece than occurrences |
| Strings.LengthCounted | src/types/string.c:384-457 | the length that the counting pass computes is the length that the copying pass writes |
| Strings.Split | src/types/string.c:254-281 | the pieces between the occurrences from left to right; single characters for an empty delimiter |
| Strings.Join | src/types/string.c:283-325 | the pieces with the separator between them, if and only if their whole length is less than the greatest size; otherwise the buffer, whose size is added up modulo 2^64, is too small |
| Strings.CountAll | src/types/string.c:384-457 | the number of occurrences that do not overlap, from left to right |
| Strings.CopyReplacing | src/types/string.c:384-457 | the copying pass fills a buffer of the counted length exactly, with the terminator behind it |
| Strings.Replace | src/types/string.c:384-457 | nil exactly if the length of the result does not fit a size; the replaced string exactly if there is room for its terminator as well; and a buffer that is too small if the length is the greatest size |
| Strings.ResultLength | src/types/string.c:408-430 | the length of the result, with every overflow found and no test going wrong itself |
| Strings.GreatestSize | src/types/string.c:384-457 | there are strings whose result has exactly the greatest size |

## Left out

- Weak memory: all interleavings are sequentially consistent, and buffers of the deque are never reclaimed.
- Deque indices are unbounded numbers; the wrap-around of `top` and `bottom` after 2^64 operations is not modelled, nor are pushes by other threads than the owner.
- Order of blocks within one steal or pop is modelled; fairness and progress of compare-and-swap loops are not.
- Overflow policies of the mailbox other than refusing (drop the oldest, byte accounting, timed waits).
- Values of the language are abstract: `Prims` says what operators, truth and failure are, for both machines; the virtual machine's stack is unbounded.
- Calls, closures, match, for loops, imports, tools and the table of built-in functions in the stack compiler; for loops would need the meaning of `continue`, which skips the increment there.
- Conditionals in the middle of an expression; they are statements here, whose value is discarded or is the program's answer.
- A pop from an empty stack is a crash in the model; the code takes nil and goes on (src/vm/vm.c:324-329). By `ProgramRuns` it is not met by a program that fits and does not fail.
- Compilation.Compile: of a program whose jumps or name indices exceed 16 bits only the first wrong jump or name is described, not what the machine makes of the rest; jumps of `if` statements are described for the ternary, which has the same code.
- Statements, calls, "and" and "or" in the register compiler, which do not work there as they do in the stack compiler; the register machine has no handler for reading a global, so its meaning is taken from the stack machine.
- RegJumps.FarConditional: a position in front of the code is a failure in the model; the code reads what is there (src/vm/regvm.c:390).
- RegClobber.RegistersExact: is about shapes; an expression of a failing shape may still be right if the operand lost is equal to what took its place.
- The supervisor's callback inside exit propagation, failing sends, and the run queue; a killed block that was runnable is not taken from any queue in the model.
- Threads racing with a propagation: links and states change only by the propagation itself.
- TimerWheel.Timers.CancelTimer: the handle must belong to a pending timer, as the comment at tests/security/test_security.c:646-648 demands; the free list, which gives the memory of an old handle to a new timer, is not modelled, nor is a missing wheel or entry.
- TimerWheel.Timers.TickClock: timers fired from the same bucket are returned in the bucket's order, which the contract does not state.
- Starting and killing the children of a supervisor: the processes started come from outside, and children are not added or removed during a run.
- SerialBuffers.SerialBuffer.SerializeValue: allocation does not fail; what a failed call leaves at the end of the buffer is not stated; and the value of a map's key is taken to be found, while the code looks it up with the bounded `map_get`, so that a key behind the sixteenth entry of its chain is written with nil.
- Codec: a map is the list of its pairs in the order written, with no key twice; building the hash table from them is not part of it.
- PrattParser.Parser.ParsePrecedence: calls, indexing and field access after an operand, literals of collections and error messages; an opening parenthesis after an operand is an error in the model.
- HashMaps.HashMap.MapSet: the hash function is any function, capacities do not reach 2^64, values are numbers, and copy-on-write and garbage collection are not modelled.
- InlineCaches.HitIsLookup: maps are identified by address; a new map at the address of an old one is covered, because only the map there now is searched.
- Strings with NUL characters, lists with elements that are not strings, and allocations that fail in string operations.
- Files, sockets, logging, metrics, hot reload, bytecode files, capabilities, process groups and the command line.
