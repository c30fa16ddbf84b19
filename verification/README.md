# Verification of protoST

protoST is a runtime for a Smalltalk-syntax language. This project models its self-contained algorithms in
Dafny and proves what they are for. `dafny verify dfyconfig.toml` checks all of it.

**The compiler** (`src/frontend/Compiler.cpp`, `src/runtime/BytecodeModule.cpp`, `src/runtime/ExecutionEngine.cpp`).
`Syntax` is the tree of a method body, `Reference` its meaning: variables are mutable cells, a block closes over
its environment, and every control message is a real send of real blocks. `Analysis` decides which variables inner
blocks capture and which sends are compiled in line; `Resolve` gives every name a frame slot, a captured dictionary
or the receiver; `Frames` is the meaning of the resolved code. `Codegen` and `Layout` are the instruction words and
their jumps, `Assembler` and `Emitter` the classes that write them in place, `Engine` the machine that runs them one
instruction at a time. The chain of results is: `Emitter` writes exactly the words that `Codegen` says
(`CompileMethod`); those words make `Engine` do what `Frames` says (`EngineProof`, `Divergence`); that is what
`Reference` says (`ClosureWorld`, `ClosureProof`, `ClosureSim`, `ClosureTheorem`); and the inlined loops are the
primitives' loops wherever guards answer Booleans (`LoopGuards`). `EngineTheorem` puts them together: the engine halts
exactly when the method ends, for the same reason, with the same answer and the same instance variables.
`SmallMethods` shows that every method of up to 160 000 nodes compiles, and `EngineLaws` what the chain amounts to in
plain arithmetic: for all integers, on the engine, operators, conditionals, counting and while loops, blocks, returns and
assignments answer what their texts say, whether their blocks are compiled in line or called.

Three things the compiler's comments promise do not hold of it on all inputs. Each has a lemma with the input that
shows it and one with the exact condition.

- A block literal standing as the receiver of an inlined conditional, or as receiver or bound of an inlined to:do:,
  is analysed as if it were inlined but compiled as a real block, and may name a slot of the frame around it.
  `OwnSlots.OwnSlotsExactly` says for which methods that happens; `OwnSlots.OperandReadsItsMethod` and
  `ClosureTheorem.OperandAnswersNil` show it in `| x | x := 7. [x] ifTrue: [1]`.
- A while loop compiled in line stops at a guard that is no Boolean; the whileTrue: and whileFalse: primitives take it
  for an answer. `LoopGuards.LoopsAgreeExactly` is the condition, `LoopGuards.NilGuardDiffers` the input
  `[nil] whileTrue: []`.
- A forward jump over more than 24 bits of words is emitted without an error and lands elsewhere.
  `Bytecode.WideDecodesExactly` is the condition, `LongJumps.LongBranchIsFar` a method for every length.

**Store groups** (`StoreGroups`). Runs of instance-variable assignments become one publication of the object. For every
list of statements, every behaviour of the messages it sends and every frame, the grouped code does what one store for
each assignment does, each message sees the same object, and a run that sends none publishes once.

**Exceptions** (`src/primitives/exception_prims.cpp`, `src/runtime/HandlerStack.cpp`). `Protected` is a pure meaning: an
evaluator that passes the list of enclosing handlers and runs each in the list outside its own on:do:. `HandlerStack` is
the machine with ids, enabled flags, disable-from and restore; every method of it is proved to do what the pure meaning
does and to leave the stacks as it found them. The account of cleanups is exact for every program. A cleanup that a
transfer leaves after its ensure: block ended with a value is started again (`Protected.BrokenCleanupRunsTwice`), and
that is the only way in which one does not run exactly once (`Protected.CleanupsRunOnceExactly`). `ExceptionLaws` says
what the handler actions deliver and which handlers take what, as laws of the meaning and of programs run on the machine.

**Futures** (`src/primitives/future_prims.cpp`). `Futures` and `WaitCycle` are interleaved atomic steps of any number of
threads: one settler wins, callbacks run exactly once, no waiter is lost, no ring of up to 256 actors parks unreported,
and an actor reports a cycle only at the end of a chain of records it has read. `Progress` is the other half: under every
schedule the retry loops end, and an operation left alone ends as it should.

**Arithmetic** (`src/primitives/IntegerDivision.h`, `src/primitives/int_prims.cpp`, `src/primitives/math_prims.cpp`).
`Integers` is binary long division, floored division, Euclid's algorithm and bit operations by 16-bit digits, each proved
against its mathematical meaning on integers of any size.

**Collections** (`src/primitives/collection_prims.cpp`). `HashedCollections` is the sets and dictionaries over a hashed
map with a stored count, for any equality that is an equivalence and agrees with the hash, with any collisions: every
sequence of operations keeps the count exact and does what it does to a map over equivalence classes.

**The lexer** (`src/frontend/Lexer.cpp`). `Lexer` is the character loops and the queue of tokens lexed ahead: whatever a
parser does with peek, peekSecond and next, next answers the one stream of tokens, which ends. `LexerLaws` writes sources
out token by token in characters and shows them read back, signs and operators told apart. One promise fails: an
integer literal with an exponent beyond the largest int is not refused but read with the exponent 400.
`Lexer.ExponentExactly` is the condition, `Lexer.HugeExponentIsCapped` the input `1e2147483648`.

**The debug adapter** (`src/dap/DapServer.cpp`, `src/dap/DapStdio.cpp`). `DapSession` is the tables of the session and the
handshake with stopped threads, as atomic steps of any number of threads and a client. The count of stopped threads is
exact over a run if and only if no task stops its own thread (`DapSession.StopCountExact`), and formatting a variable runs
user code in which stops are not suppressed (`DapSession.NestedStopMiscounts`). `Utf8` is the pump that forwards a
program's output without tearing characters.

## Model

| member | source | states |
|---|---|---|
| Analysis.MethodCapturesOnlyItsOwn | src/frontend/Compiler.cpp:137-143 | in an accepted method the captured names are exactly its own arguments and temporaries that inner blocks need, although assignment counts as declaration at method level |
| Analysis.InnerAvoidsInstVars | src/frontend/Compiler.cpp:113-124 | no visible instance variable is ever among the names inner blocks need |
| OwnSlots.OwnSlotsExactly | src/frontend/Compiler.cpp:232-269 | every real block of a method is compiled to slots of its own frame only (its code is the same however the scopes around it number theirs), if and only if no block literal operand of an inlined send uses directly an uncaptured variable around it |
| OwnSlots.OperandReadsItsMethod | src/frontend/Compiler.cpp:1600-1607 | the input that fails: in `x := 7. [x] ifTrue: [1]` the receiver block reads the method's slot 1 |
| Operands.NoLiteralIsClean | src/frontend/Compiler.cpp:1802-1829 | code without a block literal in such a place always meets the condition |
| ClosureSim.SimNode | src/frontend/Compiler.cpp:1154-1330 | any expression, under any nesting and shadowing, evaluates alike over cells and over slots with dictionaries, and leaves the frame related |
| ClosureSim.SimCall | src/frontend/Compiler.cpp:1457-1502 | related closures called on related arguments agree, and touch nothing of the caller's frame |
| ClosureSim.SimIteration | src/frontend/Compiler.cpp:1929-1979 | one iteration of an inlined to:do: does what the call of the real block with that number does |
| ClosureProof.OpenFrame | src/frontend/Compiler.cpp:1636-1680 | the capture prologue of an activation leaves every name of its code where the analysis says, in a dictionary of its own when it declares captured names |
| ClosureTheorem.ClosureConversionPreservesMeaning | src/frontend/Compiler.cpp:113-381 | a method's resolved code ends as its evaluation over lexical cells does, for all arguments and any fuel: same reason, answer and instance variables; and answers, receivers, operands and all variables correspond block for block when the method is clean |
| ClosureTheorem.ReceiverStillAgrees | src/primitives/exception_prims.cpp:631-648 | the receiver that a not-understood message carries out of a clean method still does, when called later, what the block over cells does |
| ClosureTheorem.OperandAnswersNil | src/primitives/exception_prims.cpp:631-648 | without the condition it does not: the receiver block that should answer 7 answers nil |
| LoopGuards.LoopsAgreeExactly | src/primitives/block_prims.cpp:153-175 | while loops compiled in line and sent to the primitives do the same in a run if and only if no guard of a literal loop answers a non-Boolean in it |
| LoopGuards.GuardedMethodAgrees | src/frontend/Compiler.cpp:1982-2004 | they do whenever every such guard ends with a comparison or a Boolean literal |
| LoopGuards.NilGuardDiffers | src/primitives/block_prims.cpp:153-175 | the input that fails: `[nil] whileTrue: []` |
| Bytecode.WideDecodesExactly | src/debugger/DebuggerRuntime.cpp:445-453 | an instruction with EXTEND words decodes to its operand if and only if that fits 24 bits, and to its low 24 bits always |
| Layout.JumpsLand | src/frontend/Compiler.cpp:2126-2145 | after resolveForwardJumps every pending jump stands where its word moved to, is as wide as its operand needs, and leads to where its target moved to |
| Layout.JumpsDecode | src/frontend/Compiler.cpp:2126-2145 | and so decodes to that place, if it is no further than 24 bits can say |
| Layout.InnerJumpStands | src/frontend/Compiler.cpp:2127-2130 | widening outer jumps never changes where an inner jump already resolved lands |
| Layout.LoopLands | src/frontend/Compiler.cpp:2147-2168 | after closeLoop the exit jump decodes to the end of the loop and JUMP_BACK to its start, and the exit operand fits the prefixes put there before the JUMP_BACK was |
| Assembler.FindBack | src/frontend/Compiler.cpp:2160-2164 | the back-offset loop ends, at the least operand that counts its own width |
| Assembler.ResolveForwardJumps | src/frontend/Compiler.cpp:2126-2145 | the in-place widening, last jump first with later targets moved, leaves exactly the relaxed words |
| Assembler.CloseLoop | src/frontend/Compiler.cpp:2147-2168 | the in-place closing of a loop leaves exactly the closed words, or fails when JUMP_BACK does not fit |
| Assembler.BytecodeModule.InsertExtendPrefixes | src/runtime/BytecodeModule.cpp:163-190 | blank EXTEND words go in front of an instruction, and nothing else of the buffer changes |
| Assembler.BytecodeModule.PatchWideArg | src/runtime/BytecodeModule.cpp:192-200 | the operand's bytes go into the words reserved, the opcode stays, and an operand that needs more is refused |
| LongJumps.LongBranchIsFar | src/frontend/Compiler.cpp:2136-2142 | for every length the emitter takes `false ifTrue: [...]`, and its jump reaches the end of the branch if and only if that is within 24 bits; else it decodes to the low 24 bits |
| Emitter.Compiler.CompileMethod | src/frontend/Compiler.cpp:745-800 | the emitter with its scope stack, in-place slot rebinding and patched buffer produces exactly the module of the resolved method, and fails exactly when an operand does not fit |
| Emitter.Compiler.EmitExpr | src/frontend/Compiler.cpp:1140-1520 | emitting an expression appends exactly its code to the buffer and pool, and restores the scopes |
| Emitter.Compiler.EmitToDo | src/frontend/Compiler.cpp:1898-1979 | the inlined to:do: with its two hidden slots and temporary rebinding is the code of the counting loop, and the rebinding is undone |
| Emitter.Compiler.CompileBlock | src/frontend/Compiler.cpp:1457-1502 | a block literal is compiled into a module of its own by the analysis' captured names |
| EngineProof.SimExec | src/runtime/ExecutionEngine.cpp:959-2550 | running the words of an expression, wherever they stand, leaves the operand stack one deeper with its value, or halts as the expression stops |
| EngineProof.SimCall | src/runtime/ExecutionEngine.cpp:1286-1420 | a called block's frame answers to the frame below it what the block's body answers |
| Divergence.LastsExec | src/runtime/ExecutionEngine.cpp:959-2550 | code whose evaluation never ends keeps the engine running for any number of steps |
| EngineTheorem.CompiledMethodDoesTheSame | src/frontend/Compiler.cpp:1831-2025 | whenever a method ends under the primitives' meaning of every control message, the engine on its compiled words halts for the same reason with the same answer and instance variables, as long as literal loop guards answer Booleans; all it halts with corresponds when the method is clean |
| EngineTheorem.EngineHaltsExactlyWhenMethodEnds | src/runtime/ExecutionEngine.cpp:959-2550 | the engine halts if and only if the method ends, never crashes, and whenever it is found halted it has halted alike; what methods answer is said in plain arithmetic below |
| EngineTheorem.BalkingGuardHalts | src/runtime/ExecutionEngine.cpp:2187-2223 | where a guard is no Boolean the engine halts with the selector and the guard's value, and no branch or body runs |
| EngineTheorem.GuardedMethodCompiles | src/frontend/Compiler.cpp:1831-2025 | for methods with guarded loops and no literal operands the correspondence needs nothing of the run |
| EngineTheorem.EndlessMethodNeverHalts | src/runtime/ExecutionEngine.cpp:959-2550 | a method that never ends never makes the engine halt nor crash |
| SmallMethods.SmallMethodsCompile | src/frontend/Compiler.cpp:2126-2168 | no operand and no jump of a method of up to 160 000 nodes and names is too wide, so such methods need no other condition to compile |
| EngineLaws.OperatorsAnswer | src/runtime/ExecutionEngine.cpp:1186-1230 | for all integers a and b the compiled method `^ a op b` halts on the engine with a + b, a - b, or whether a <= b, a < b, a >= b, a > b |
| EngineLaws.OperatorsWantIntegers | src/runtime/ExecutionEngine.cpp:1200-1204 | with a Boolean on either side it stops with both operands, in their order |
| EngineLaws.ChoicesAnswer | src/frontend/Compiler.cpp:1831-1896 | all four conditionals take the branch of their receiver, the one-armed ones answering nil where there is none, compiled in line or sent with blocks |
| EngineLaws.ConditionalsWantBooleans | src/runtime/ExecutionEngine.cpp:2187-2223 | sent to an Integer they are not understood, with that selector and receiver |
| EngineLaws.ToDoAnswersTheSum | src/frontend/Compiler.cpp:1898-1979 | for all a and n, `s := 0. a to: n do: [:i given s := s + i]. ^ s` halts with (a + n)(n - a + 1) / 2, or 0 when a > n, with the block in line or called |
| EngineLaws.WhileAnswersTheSum | src/frontend/Compiler.cpp:1982-2025 | so do the loops written with whileTrue: and whileFalse: |
| EngineLaws.BlockWritesItsMethod | src/runtime/ExecutionEngine.cpp:1286-1420 | a block that is called assigns the variable of the method it is written in |
| EngineLaws.ArgumentsKeepTheirOrder | src/runtime/ExecutionEngine.cpp:1286-1420 | a block called with a and n has them in that order: its difference of them is a - n |
| EngineLaws.BlockReturnsFromItsMethod | src/runtime/ExecutionEngine.cpp:1022-1060 | `^` in a called block ends the method with that answer, and what follows the call does not run |
| EngineLaws.FallingOffAnswersSelf | src/frontend/Compiler.cpp:745-800 | a method without a return answers its receiver, whatever its last statement is worth |
| EngineLaws.InstVarIsSet | src/runtime/ExecutionEngine.cpp:2352-2440 | an assignment changes that instance variable, no other, and is seen by what follows |
| StoreGroups.RunIsAssign | src/frontend/Compiler.cpp:2091-2104 | every run the compiler groups is 2 to 16 assignments to instance variables whose values after the first neither run code nor read a variable the run has written |
| StoreGroups.Body.TryEmitInstVarGroup | src/frontend/Compiler.cpp:2091-2118 | a run's code and its contiguous group entries are appended, or nothing is |
| StoreGroups.Body.EmitStatements | src/frontend/Compiler.cpp:2016-2025 | a statement list is emitted run by run, with one POP between statements |
| StoreGroups.Frame.FlushInstVarGroup | src/runtime/ExecutionEngine.cpp:405-415 | the pending writes are made one by one and the group is left |
| StoreGroups.FlushWrites | src/runtime/ExecutionEngine.cpp:405-415 | doing so leaves the object as all of them published together would |
| StoreGroups.RunSim | src/runtime/ExecutionEngine.cpp:367-392 | a run does the same grouped or stored one by one, with or without a debugger or a self, whatever its first value and its messages do; if it was grouped and sent no message the object was published once |
| StoreGroups.GroupsPreserve | src/frontend/Compiler.cpp:2027-2051 | for every list of statements the result, the object, the messages sent and the world each of them saw are as with one store for each assignment |
| StoreGroups.OperatorAnswers | src/runtime/ExecutionEngine.cpp:1161-1230 | within the small integers an operator answers the sum, difference or comparison of its left and right operand; outside them it sends its message to the left with the right |
| StoreGroups.ArithmeticStored | src/runtime/ExecutionEngine.cpp:367-392 | `x := e` with sums and differences within the small integers leaves that number in the object's variable |
| Protected.TwoGuardsNest | src/primitives/exception_prims.cpp:1037-1105 | on:do:on:do: behaves as two nested on:do:, the second guard innermost |
| Protected.EscapesAreLive | src/primitives/exception_prims.cpp:441-519 | a transfer that leaves an evaluation names an on:do: in progress, or a handler at work, when it began |
| Protected.NothingEscapesAProgram | src/primitives/exception_prims.cpp:441-519 | so none escapes a whole program |
| Protected.CleanupsAccounted | src/primitives/exception_prims.cpp:1188-1252 | in every program, whatever its cleanups do, each ensure: starts its cleanup once for each time its block was left and once more for each time a transfer left that cleanup after a normal end; each ifCurtailed: once for each transfer that left its block |
| Protected.CleanupsRunOnceExactly | src/primitives/exception_prims.cpp:1188-1252 | cleanups run exactly once if and only if no transfer ever leaves one after its block ended with a value |
| Protected.EnsureRunsCleanup | src/primitives/exception_prims.cpp:1190-1219 | one ensure: starts its cleanup 0 times when suspended, 2 times when the block ended with a value and a transfer left the cleanup, else once |
| Protected.IfCurtailedRunsCleanup | src/primitives/exception_prims.cpp:1225-1252 | one ifCurtailed: starts its cleanup once when a transfer left its block, else never |
| Protected.CleanupKeepsOutcome | src/primitives/exception_prims.cpp:1188-1252 | a cleanup that completes changes no outcome: the transfer under way still reaches its target |
| Protected.BrokenCleanupRunsTwice | src/primitives/exception_prims.cpp:1203-1217 | the input that fails: `[1] ensure: [Error signal]` |
| HandlerStack.Thread.FindMatch | src/runtime/HandlerStack.cpp:79-103 | the newest enabled entry below the bound whose guard matches, and none if there is none |
| HandlerStack.Thread.DisableFrom | src/runtime/HandlerStack.cpp:111-124 | every entry from the one with that id on is disabled, and the ids of those that were enabled are answered |
| HandlerStack.Thread.Restore | src/runtime/HandlerStack.cpp:137-147 | exactly the entries named are enabled again |
| HandlerStack.Thread.SignalInstance | src/primitives/exception_prims.cpp:426-519 | the search and pass loop over ids and flags selects the same handlers, in the same order and with the same outcome, as delivering to the list of enclosing handlers; stacks and flags end as they began, and the loop ends |
| HandlerStack.Thread.RunProtectedSingle | src/primitives/exception_prims.cpp:993-1035 | on:do: with its id, its retry loop and its unwind catch is the pure on:do: |
| HandlerStack.Thread.RunProtected | src/primitives/exception_prims.cpp:1037-1105 | on:do:on:do: with two ids and one retry loop is the pure one |
| HandlerStack.Thread.RunEnsure | src/primitives/exception_prims.cpp:1190-1219 | ensure: with its cleanup inside the try is the pure one |
| HandlerStack.Thread.Evaluate | src/primitives/exception_prims.cpp:833-961 | any program on the machine does what the pure meaning does, and leaves handlers, flags and active signals as it found them |
| HandlerStack.RunProgram | src/primitives/exception_prims.cpp:148-168 | so does a whole program on an empty stack, out of which no transfer comes |
| ExceptionLaws.GuardTakes | src/runtime/HandlerStack.cpp:79-103 | a guard takes exactly the exceptions with one of its classes on the way from their own class upward |
| ExceptionLaws.ResumableIs | src/primitives/exception_prims.cpp:910-931 | an exception may be resumed if and only if it is no Error |
| ExceptionLaws.SignalRuns | src/primitives/exception_prims.cpp:426-519 | a signal runs the handler of the innermost guard that takes it, with the exception, under the handlers outside that one alone |
| ExceptionLaws.ResumeDelivers | src/primitives/exception_prims.cpp:910-931 | `e resume: v` makes the signal answer v, and the code after it goes on under the same handlers |
| ExceptionLaws.ReturnAnswers | src/primitives/exception_prims.cpp:892-908 | `e return: v` makes the on:do: answer v, and the rest of its block does not run |
| ExceptionLaws.FallingOffAnswers | src/primitives/exception_prims.cpp:515-519 | so does a handler that falls off its end with v |
| ExceptionLaws.RetryRunsAgain | src/primitives/exception_prims.cpp:1007-1035 | `e retry` runs the block again under the same handlers, in the world the handler left |
| ExceptionLaws.PassReachesOuter | src/primitives/exception_prims.cpp:495-514 | `e pass` hands the same exception to the next handler outside that takes it, whose resume: answers the first signal |
| ExceptionLaws.DefaultAnswers | src/primitives/exception_prims.cpp:250-297 | taken by no handler, a resumable exception answers nil at its signal and an Error ends the program |
| ExceptionLaws.ActionsNeedTheirHandler | src/primitives/exception_prims.cpp:892-961 | an action for an exception that no handler is at work on signals an Error |
| ExceptionLaws.ErrorsAreNotResumed | src/primitives/exception_prims.cpp:921-926 | so does resume: of an Error |
| ExceptionLaws.Resume | src/primitives/exception_prims.cpp:910-931 | for every guard that takes it, every resumable class and every n, the machine runs `[C signal] on: g do: [:e given e resume: n]` to n |
| ExceptionLaws.ResumeGoesOn | src/primitives/exception_prims.cpp:486-493 | and what stands behind the signal runs then |
| ExceptionLaws.Return | src/primitives/exception_prims.cpp:892-908 | return: n answers n on the machine, and what stands behind the signal does not run |
| ExceptionLaws.FallOff | src/primitives/exception_prims.cpp:515-519 | so does a handler whose last value is n |
| ExceptionLaws.PassOn | src/primitives/exception_prims.cpp:495-514 | passed on, the outer handler is given the very exception that was signalled |
| ExceptionLaws.Innermost | src/primitives/exception_prims.cpp:441-465 | of two guards the inner one is asked first, and the outer only when it does not take the class |
| ExceptionLaws.HandlersRunOutside | src/primitives/exception_prims.cpp:426-519 | a handler does not take what it signals itself |
| ExceptionLaws.RetryUntil | src/primitives/exception_prims.cpp:1007-1035 | a block that signals m times before it ends, under a handler that retries, runs m + 1 times on the machine and answers its value |
| Futures.RunKeeps | src/primitives/future_prims.cpp:121-251 | every interleaving of any number of settlers, registrations, waiters and readers keeps the settling protocol's invariant |
| Futures.CallbacksRunExactlyOnce | src/primitives/future_prims.cpp:478-539 | at quiescence each thenDo: block registered has run exactly once with the winning value after a resolve and never after a reject, and dually for catch:, registrations in the middle of settling included |
| Futures.OneSettlerWins | src/primitives/future_prims.cpp:169-200 | at most one settler ever gets past the claim |
| Futures.SettledMeansRun | src/primitives/future_prims.cpp:204-239 | a settled state implies that the result is written and every matching callback that was appended has run |
| Futures.ActorsWakeExactlyOnce | src/primitives/future_prims.cpp:565-581 | a yielding actor is handed to the scheduler exactly once, by the drain or by its caller, when the future settles |
| Futures.MainIsNotLeftAsleep | src/runtime/STRuntime.cpp:1533-1542 | a main thread blocked after the settler's notify holds a permit and goes on |
| Futures.AsleepMeansPending | src/primitives/future_prims.cpp:427-431 | at quiescence the main thread sleeps only on a future nobody settled |
| Progress.EveryRunEnds | src/primitives/future_prims.cpp:121-251 | under every schedule of n operations at most n(12n + 19) steps change anything, the retry loops and the notified waiters included; and where none can any more the protocol is at rest, with nobody asleep on a settled future |
| Progress.OperationEnds | src/primitives/future_prims.cpp:121-251 | from every reachable state an operation left alone ends in a bounded number of its own steps: a settler settled and its state published, a registration appended, fired or skipped, an actor parked or scheduled, a main thread read or asleep on a future that is still pending |
| Progress.SettlesWith | src/primitives/future_prims.cpp:204-239 | resolve: v or rejectWith: v, called first and left alone, returns; the future then holds v, each callback of its kind registered before has run once with v, none of the other kind has, and each parked actor was scheduled once |
| WaitCycle.NextKeeps | src/primitives/future_prims.cpp:282-301 | every step of recording, walking link by link, settling and resuming keeps what each walk has found out |
| WaitCycle.NoRingParks | src/primitives/future_prims.cpp:262-301 | in no run does a ring of at most 256 actors park on futures that only the next can settle: a member reports it |
| WaitCycle.ReportsAreFounded | src/primitives/future_prims.cpp:282-301 | in every run an actor steps to a report only at a future that is its own to settle, reached from the future it waits for itself through records of other actors, each read on the way |
| WaitCycle.LoneReport | src/primitives/future_prims.cpp:282-301 | when no other actor ever waits, it reports only when its own future is its own to settle |
| WaitCycle.LoneWaitParks | src/primitives/future_prims.cpp:282-301 | and waiting then, it parks within three steps, or reports exactly when that is so |
| WaitCycle.WalksEnd | src/primitives/future_prims.cpp:282-301 | however the records change, a walk ends within 768 of its own steps |
| Integers.LongDivide | src/primitives/IntegerDivision.h:35-68 | the bit loop on the magnitudes answers quotient and remainder |
| Integers.TruncDivMod | src/primitives/IntegerDivision.h:23-74 | for all a and all b other than 0: a = q*b + m, m smaller than b in magnitude and of a's sign |
| Integers.TruncatedIsUnique | src/primitives/IntegerDivision.h:21-22 | only one quotient and remainder meet that |
| Integers.TruncatedIsTowardZero | src/primitives/IntegerDivision.h:21-22 | and the quotient is the true one rounded toward zero, with its sign |
| Integers.FloorDivMod | src/primitives/int_prims.cpp:132-157 | the correction makes it a = q*b + m with m between 0 and b on the divisor's side |
| Integers.RoundingsDiffer | src/primitives/int_prims.cpp:126-131 | both roundings agree if and only if the remainder is zero or has the divisor's sign |
| Integers.Gcd | src/primitives/math_prims.cpp:318-340 | the answer divides both and every common divisor divides it; undefined exactly for two zeros |
| Integers.Lcm | src/primitives/math_prims.cpp:343-360 | the answer times the greatest common divisor is the product's magnitude |
| Integers.WideBitOp | src/primitives/int_prims.cpp:327-360 | every bit of the answer, without end, is the operation of the operands' bits, for integers of any size and sign; the digit loop ends |
| Integers.BitsDetermine | src/primitives/int_prims.cpp:321-326 | two integers with the same endless bits are equal, so the answer is the one two's-complement result |
| Integers.WordAndWideAgree | src/primitives/int_prims.cpp:362-373 | the small integers' machine operation and the digit loop answer the same |
| Integers.AndOrConserve | src/primitives/int_prims.cpp:327-360 | and + or of two integers is their sum, and xor is or - and |
| HashedCollections.GetIsLookup | src/primitives/collection_prims.cpp:1211-1219 | looking a key up finds the value of the stored key that equals it, and finds none if there is none |
| HashedCollections.PutIsPut | src/primitives/collection_prims.cpp:1585-1598 | storing changes the value under the key already stored, or adds the key offered; the number of keys grows by one exactly when the lookup found none |
| HashedCollections.RemoveIsRemove | src/primitives/collection_prims.cpp:1600-1615 | removing takes away the entry of the equal key and no other, whatever shares its hash |
| HashedCollections.PutLookUp | src/primitives/collection_prims.cpp:1585-1598 | after a store the keys equal to the one offered find the value stored, all others what they found before |
| HashedCollections.RemoveLookUp | src/primitives/collection_prims.cpp:1600-1615 | after a removal the equal keys find nothing, all others what they found before |
| HashedCollections.Hashed.DictAt | src/primitives/collection_prims.cpp:1211-1219 | at: answers the value found under the equal key, or none |
| HashedCollections.Hashed.DictStore | src/primitives/collection_prims.cpp:1585-1598 | at:put: changes what equal keys find, and nothing else, with the count exact |
| HashedCollections.Hashed.SetAdd | src/primitives/collection_prims.cpp:1154-1170 | adding an equal element keeps the one stored, and the count is exact |
| HashedCollections.Hashed.DictAtIfAbsentPut | src/primitives/collection_prims.cpp:1642-1661 | with a block that itself stores and removes, also under the same key, the dictionary ends as if the block ran first and the store came after it |
| HashedCollections.Hashed.PerformAll | src/primitives/collection_prims.cpp:319-328 | every sequence of add:, remove:, at:put:, removeKey: and at:ifAbsentPut: keeps the stored count equal to the number of distinct keys and refines the map over equivalence classes |
| HashedCollections.Hashed.DictKeys | src/primitives/collection_prims.cpp:1833-1850 | the set of a dictionary's keys has an exact count although no presence is probed |
| Lexer.Lexer.Drive | src/frontend/Lexer.cpp:312-328 | for every interleaving of peek, peekSecond and next, next answers the tokens of the source in their order, negative literals included |
| Lexer.Lexer.PeekSecond | src/frontend/Lexer.cpp:426-434 | the token after the next, with nothing consumed |
| Lexer.Lexer.Tokenize | src/frontend/Lexer.cpp:436-445 | that same stream to its first end of file |
| Lexer.LexingEnds | src/frontend/Lexer.cpp:330-424 | a source of n characters has its end of file after at most n tokens, and only ends of file after that |
| Lexer.TokensAdvance | src/frontend/Lexer.cpp:330-424 | every token but the end of file ends further on than the one before |
| Lexer.Lexer.LexOne | src/frontend/Lexer.cpp:323-344 | the line is always one more than the line ends before the position, the column counts from the last of them, and a token depends on its place and the kind of the token before alone |
| Lexer.Lexer.ContainsBlankLine | src/frontend/Lexer.cpp:290-310 | true exactly when two line ends, the first outside any comment, have nothing but white space between them |
| Lexer.Lexer.LexNumber | src/frontend/Lexer.cpp:89-182 | the digits, base, fraction and exponent taken, and where the literal ends |
| Lexer.ExponentExactly | src/frontend/Lexer.cpp:155-163 | an integer literal with an exponent is refused exactly for exponents from 401 to the largest int, and else stands for its mantissa times that power of ten if and only if the exponent is at most 400 or the mantissa 0 |
| Lexer.HugeExponentIsCapped | src/frontend/Lexer.cpp:155-163 | the input that fails: `1e2147483648` is read as `1e400` |
| Lexer.RadixValue | src/frontend/Lexer.cpp:109-133 | a radix literal of any length and sign stands for its digits in its base |
| Lexer.StringRoundTrip | src/frontend/Lexer.cpp:184-205 | any string with its quotes doubled lexes back to itself |
| LexerLaws.WrittenReadsBack | src/frontend/Lexer.cpp:330-424 | every source written out of names, keywords, numbers, strings, characters, symbols, brackets, marks and operators, with any white space and comments between, is read back as just those tokens, as long as what follows each is not part of it |
| LexerLaws.MinusAfterOperand | src/frontend/Lexer.cpp:270-288 | for every word, literal and closing bracket x and digits d: `x-d` is x, the operator and d; with a gap before the `-` it is x and the literal -d |
| LexerLaws.OnlyShortSymbolsGoOn | src/frontend/Lexer.cpp:246-256 | the one exception: a symbol of one operator character takes a glued `-` for its own |
| LexerLaws.SignElsewhere | src/frontend/Lexer.cpp:381-393 | after anything else, glued or not, and at the start of a source, the `-` is the literal's sign |
| LexerLaws.TokensOf | src/frontend/Lexer.cpp:436-445 | tokenize answers those tokens and then the end of file |
| LexerLaws.DigitsAreWorth | src/frontend/Lexer.cpp:89-182 | decimal digits stand for the number they spell |
| LexerLaws.DigitsWorth | src/frontend/Lexer.cpp:109-133 | the digit for each number up to 35, in either case, is worth that number |
| LexerLaws.LinesCounted | src/frontend/Lexer.cpp:32-37 | a place's line is one more than the line ends before it |
| LexerLaws.ColumnsCounted | src/frontend/Lexer.cpp:32-37 | its column is its distance from the last of them |
| DapSession.RunKeeps | src/dap/DapServer.cpp:222-305 | over all runs every handle names a stopped thread, every variables handle's frame is present, handles are given out in rising order and so never twice, queued tasks are on stopped threads only, and the count is the number of calls of onStopped under way |
| DapSession.StopCountExact | src/dap/DapServer.cpp:242-246 | over a whole run the count is the number of stopped threads if and only if no task stops its own thread again |
| DapSession.NestedStopMiscounts | src/dap/DapServer.cpp:1157-1168 | the input that fails: a breakpoint in the method that formats a variable; two stops are counted for one thread, then one for none |
| DapSession.ParkedCanBeResumed | src/dap/DapServer.cpp:260-275 | a parked thread with nothing to do is one the client sees stopped, and a resume request wakes it |
| DapSession.ResumeLostExactly | src/dap/DapServer.cpp:1014-1023 | a resume request holds until its thread goes on, if and only if the thread does not stop again inside a task first |
| DapSession.ShutdownDrains | src/dap/DapServer.cpp:1322-1342 | after the shutdown no thread can stay parked: each has a move, no run makes more moves than were left, and when none is left the count waited for is zero |
| DapSession.DapServer.WaitTurn | src/dap/DapServer.cpp:260-281 | a thread that wakes up takes the oldest task, or leaves and drops its tasks and handles |
| DapSession.DapServer.DropHandlesOf | src/dap/DapServer.cpp:336-341 | exactly the entries of that thread leave both tables |
| DapSession.DapServer.HandleStackTrace | src/dap/DapServer.cpp:1064-1114 | the frames asked for under consecutive new handles, each handle naming the frame as many calls out from the stopped one as its place in the list says, and as many handles as the stack and the request allow |
| DapSession.DapServer.ShutdownDebuggee | src/dap/DapServer.cpp:1322-1332 | every thread is released |
| Utf8.CharsAreScalars | src/dap/DapStdio.cpp:99-108 | the characters the cut respects are exactly the encodings of the scalar values (section 3 of RFC 3629) |
| Utf8.CutWellFormed | src/dap/DapStdio.cpp:99-108 | text cut by completeUtf8Prefix is well-formed wherever the stream is (section 4 of RFC 3629), and nothing is held back at its end |
| Utf8.CompletePrefix | src/dap/DapStdio.cpp:99-108 | the scan finds that cut, at most three bytes before the end |
| Utf8.Pump | src/dap/DapStdio.cpp:163-178 | however the stream is split into reads the chunks make it up again, none is empty, and each is well-formed when the stream is |

## Left out

- ClosureTheorem.ClosureConversionPreservesMeaning: in a method that is not clean the block literal it stops at corresponds only in being a block.
- EngineTheorem.CompiledMethodDoesTheSame: needs guards of literal while loops to answer Booleans and forward jumps within 24 bits; both conditions are exact elsewhere, and `SmallMethods` bounds the second by the size of the text.
- Emitter.Compiler.CompileMethod: names, selectors, operators and integers are kept apart in the constant pool, so an index may differ from the source's; line tables, source positions, local names and debug names are not modelled; positions are counted in words, two bytes each.
- HandlerStack.Thread.SignalInstance: the engine-nesting limit, foreign exceptions and debugger stops of the source are not modelled.
- Futures.RunKeeps: garbage collection, the scheduler behind "schedule" and the recording of rejections nobody observed are not modelled.
- WaitCycle.ReportsAreFounded: the records of the chain were each read, but at different times, so that a report is never a false one while others come and go is not claimed.
- WaitCycle.NoRingParks: helping other actors while waiting (waitHelping, t_buriedActors) is not modelled, and the actor a future belongs to never changes.
- Integers.TruncDivMod: protoCore's own division by divisors under 62 bits is taken as exact; bit positions are unbounded where the source casts them to int.
- StoreGroups.GroupsPreserve: stated for the compiler with write groups on against the compiler with them off; the engine theorem covers the code with them off. Writes by other threads between two writes of a run are not modelled.
- A message that is not understood ends a run. In the source MessageNotUnderstood is resumable, and a handler that resumes a failed guard of an inlined conditional with any value lets the jump that follows decide, so that only false skips the branch (src/runtime/ExecutionEngine.cpp:2217-2222).
- User-defined methods, super sends, cascades, class variables, globals, literals other than integers, Booleans and nil, the operator `=` (but for store groups) and top-level script code are not part of the compiler model; a value that is no Integer ends an operator or a to:do: where the source would send a message.
- A name that starts with `__td_`, which the compiler uses for the hidden slots of an inlined to:do:, is not taken for a user's variable; the source does not refuse one, and such a variable may share its slot with a loop.
- Names that no scope declares: the source reports or globally binds them.
- Floats, `adaptToNumber:` and conversions between number classes.
- protoCore's own semantics: `setAttributes` is taken to write its names in order.
- HashedCollections.Hashed.PerformAll: protoCore's map is one chain of entries for each hash; an equality test that itself changes the collection, bags and intervals are not modelled.
- Lexer.Lexer.LexNumber: what a Float's text stands for, and which texts are out of range, is a parameter.
- DapSession.RunKeeps: handles and thread ids are naturals without an upper bound, a stackTrace request starts at a frame that is not negative, and messages, names, breakpoints, time-outs and the runtime's own state are not modelled.
- The worker pool, module loading, file, socket, JSON and terminal access, the command line and the editor extension.
