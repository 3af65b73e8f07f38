# Four small programs of the LLVM tree, verified

This project models four pieces of LLVM's source tree in Dafny and proves what they are for.
`dafny verify dfyconfig.toml` checks all of it.

**The BrainF compiler** (`brainf/`). `BrainF::parse` turns BrainF text into one LLVM function in a
single pass: it scans characters with one symbol of lookahead, adds up runs of `+-` and `<>`, recurses
on `[`, and emits a control-flow graph in SSA form whose phi nodes carry the head pointer.
`BrainFCompiler` is that compiler as a class with the source's fields; each method is proved to do
what a function on emitter states says (`BrainFEmitter`), and the theorems are about that function.
The meaning of a source text is given independently by `BrainFReference`, a machine that executes one
character at a time and looks for matching brackets by counting, and once more by structure
(`BrainFStructured`: a loop is `while(*h)`), with a proof that the two agree; the meaning of a graph is
given by `BrainFIr`, a small-step interpreter of the emitted instructions. The main results are
end-to-end meaning preservation for both settings of the bounds checks, well-formedness of every emitted graph
(terminators, phis, single definitions, dominance), and an exact account of when compilation succeeds.
The emitter state carries a ghost certificate: which graph point stands for which source position,
which blocks form which loop, which blocks dominate which.

**The exception personality routine and the code it drives** (`exceptions/`). ExceptionDemo decodes
the exception tables of a function (LEB128 as in section 7.6 of DWARF 3, encoded pointers, the
call-site table, the self-relative action chains), generates functions that invoke another one, catch
a list of types and always run a finally block, and relies on two-phase unwinding as described in
section 1.6 of the Itanium C++ ABI: Exception Handling. The decoders and `handleLsda` are methods over
a byte memory, the generator is a class that builds blocks in place, and the generated code is run by
a small interpreter. `ExceptionUnwind` and `ExceptionOutcomes` put these together: over a stack of any
depth the personality routine reads the bytes of each frame, the generated code goes on from the block
that the installed landing pad leads to, with its slots as it left them at the call, and the innermost
frame with a matching clause handles the exception. What the tables have to list is what the landing
pad in the generated code asks for. `ExceptionTableWriter` writes areas, from the header to the type
infos, for any list of types and proves that they meet the assumptions.

**The `WaitForThreads` barrier** (`barrier/`). The mutex, the condition variable and the two counters
of ParallelJIT as a state machine in which any number of `block` and `releaseThreads` callers
interleave. A caller is one call: a thread that calls twice is two of them. Waking up and taking the
mutex again is a step of its own, and spurious wakeups are a choice of the scheduler.

**The attribute bitcode codec** (`attributes/`). Encoding and decoding of attribute sets on 64-bit
words, with the exact sets on which each undoes the other.

Where code and documentation differ, the model follows the code:

- BrainF tests the head only after a whole run of moves, so `<>` at cell 0 passes the bounds check.
  The reference machine tests at the end of each maximal run of moves (examples/BrainF/BrainF.cpp:237-267).
- The comment on `block` says that threads stop until another thread releases them
  (examples/ParallelJIT/ParallelJIT.cpp:148). The code does not test a condition again after it wakes,
  so nobody gets past the condition early exactly on the runs without spurious wakeups
  (`WaitForThreadsRelease.NobodyEarlyIffSteady`), and
  `WaitForThreadsRelease.SpuriousWakeupLeavesEarly` is a run on which somebody does. The assertion at
  line 156 holds, and everybody returns in the end, in either case.
- The comment on `releaseThreads` says that it blocks until enough other threads are blocked
  (examples/ParallelJIT/ParallelJIT.cpp:175-177). With several releasers the number asked for last
  counts for all of them: of those that a blocker frees, exactly the ones that asked for no more than
  the last one have as many blocked as they asked for (`WaitForThreadsRequests.FreesIff`), and
  `WaitForThreadsRequests.SmallerRequestFreesLarger` is a run on which one has not.
- `constructAlignmentFromInt` accepts alignments up to 2^30 (include/llvm/Attributes.h:191), but only
  those up to 2^15 survive the bitcode (`AttributesRoundTrips.AlignmentSurvivesIff`).
- `handleActionValue` returns positions in an action chain, and the generated router takes them for
  clause numbers. The two agree exactly when no record matches or some matching record has no cleanup
  record before it (`ExceptionActions.PositionIsClauseIff`);
  `ExceptionTableWriter.CleanupInFrontMisroutes` is a chain on which they differ.

## Model

| member | source | states |
|---|---|---|
| BrainFPreservation.MeaningPreserved | examples/BrainF/BrainF.cpp:184-467 | For every source that compiles, every tape size, input and setting of the checks: the graph stops if and only if the one-character-at-a-time machine does, and then both have the same tape, the same log of reads and writes in order, and the same cause: end of program, head off the tape under checks, or an access off the tape |
| BrainFStructuredPrograms.CompiledIsStructured | examples/BrainF/BrainF.cpp:12-22 | The same against the command table by structure, `[body]` read as `while(*h) body` at any nesting: the graph compiled from a program's text stops if and only if the program ends, with the program's tape, log and cause |
| BrainFStructuredPrograms.CompiledLogIsStructured | examples/BrainF/BrainF.cpp:12-22 | Programs that never end, against the command table: what the structured program reads and writes within any number of loop turns is a prefix of what the graph does within some number of instructions, and the other way round |
| BrainFStructuredPrograms.MachineIsStructured | examples/BrainF/BrainF.cpp:12-22 | The character machine, which jumps between matching brackets, stops exactly when the structured program ends, and in the same state |
| BrainFStructured.BalancedIsStructured | examples/BrainF/BrainF.cpp:417-466 | A source has balanced brackets if and only if it is the text of a structured program, so the structured reading covers every source that compiles |
| BrainFPreservation.GraphStops | examples/BrainF/BrainF.cpp:12-22 | When the machine stops, the graph stops in the same way after some number of instructions |
| BrainFPreservation.SourceStops | examples/BrainF/BrainF.cpp:12-22 | When the graph stops, the machine stops in the same way; with checks on never by a fault |
| BrainFPreservation.SameBehaviour | examples/BrainF/BrainF.cpp:184-467 | Programs that never stop: the log of reads and writes of either side, at any step, is a prefix of the log of the other side at some step, so the two do the same in the same order |
| BrainFPreservation.NeverStuck | examples/BrainF/BrainF.cpp:237-267 | No run meets an undefined register, a missing block or a missing phi entry; with checks on no load, store or free is ever outside the tape |
| BrainFPreservation.MeetAgain | examples/BrainF/BrainF.cpp:184-467 | Arbitrarily far into both runs there are corresponding states: same tape, input, output, and the head register points at the machine's head |
| BrainFSimulation.CompileCompiles | examples/BrainF/BrainF.cpp:194-455 | In a compiled graph every recorded source position is implemented by the code at its point, and every recorded loop is a pair of matching brackets |
| BrainFSimulation.TokenStep | examples/BrainF/BrainF.cpp:196-309 | From corresponding states, one token of source and its code both make progress to corresponding states, whatever the token |
| BrainFSimulation.TestToken | examples/BrainF/BrainF.cpp:283-303 | The lowered loop test, entered from either side: the phi holds the current head, a zero cell leads behind the loop with the same head, any other cell into the body |
| BrainFSimulation.MoveFits | examples/BrainF/BrainF.cpp:240-242 | The 32-bit index constant of a move reads back, sign-extended, as the net sum of its run, for runs shorter than 2^31 |
| BrainFSimulation.EntryRuns | examples/BrainF/BrainF.cpp:80-115 | After the entry block the tape has `memtotal` cells, all 0 whatever the allocator has left in them, and the head is in the middle; the machine starts in the same way |
| BrainFReferenceRuns.ChangesAddUp | examples/BrainF/BrainF.cpp:269-281 | Executing a run of `+` and `-` one command at a time equals one addition of the net sum modulo 256, comments included |
| BrainFReferenceRuns.MovesAddUp | examples/BrainF/BrainF.cpp:237-267 | Executing a maximal run of `<` and `>` one command at a time equals one move by the net sum, with one test of the tape at the end |
| BrainFReferenceRuns.Comments | examples/BrainF/BrainF.cpp:409-411 | Characters that are no commands change nothing |
| BrainFBounds.ErrorBlockReachedIff | examples/BrainF/BrainF.cpp:132-181 | With checks on, the run reaches the error block if and only if the unchecked machine takes the head off the tape at the end of some maximal run of moves |
| BrainFBounds.CheckedTracks | examples/BrainF/BrainF.cpp:244-265 | The checked machine agrees with the unchecked one up to the first such moment, and stops right there with the error line |
| BrainFReferenceRuns.ReportsAreHonest | examples/BrainF/BrainF.cpp:132-181 | The error line is in the log if and only if the machine has stopped with the head off the tape |
| BrainFBounds.WhoPrints | examples/BrainF/BrainF.cpp:156-177 | A line of text enters the output only by a `puts` that the run executes |
| BrainFGraphRuns.CheckedMoveRuns | examples/BrainF/BrainF.cpp:237-267 | The five instructions of a checked move go to the next block exactly when the new head is inside the tape, otherwise to the error block |
| BrainFGraphRuns.LoopRuns | examples/BrainF/BrainF.cpp:423-445 | A branch into the test block puts the head of the edge taken into the phi and decides on the cell under it |
| BrainFGraphRuns.ReadRuns | examples/BrainF/BrainF.cpp:201-215 | The three instructions for `,` store the next input byte, and 255 at the end of input, or fault off the tape |
| BrainFGraphRuns.WriteRuns | examples/BrainF/BrainF.cpp:217-235 | The three instructions for `.` write the byte under the head, or fault off the tape |
| BrainFWellFormedEmit.CompileWellFormed | examples/BrainF/BrainF.cpp:417-461 | Every graph handed out passes LLVM's verifier: one terminator per block and last, phis first with exactly one entry per predecessor, one definition per register, every use dominated by it; and `puts` occurs in the error block only |
| BrainFWellFormedEmit.EmitSound | examples/BrainF/BrainF.cpp:184-467 | Emission keeps the graph certified at every step, however loops nest and while enclosing tests are unfinished |
| BrainFWellFormed.CertifiedIsWellFormed | examples/BrainF/BrainFDriver.cpp:132-136 | A graph whose local certificate checks out is well formed globally |
| BrainFWellFormedRuns.WellFormedRuns | examples/BrainF/BrainFDriver.cpp:132-136 | What the verifier is for: a run of any well-formed graph follows the graph's edges from the entry, has a value for every register defined on its way, and never lacks a register, a block or a phi entry |
| BrainFWellFormedRuns.ExecWalks | examples/BrainF/BrainF.cpp:196-309 | An instruction gives a value to the register that it is said to define and to no other, and control goes on behind it or to one of the targets it is said to have |
| BrainFWellFormed.PathMeetsDoms | examples/BrainF/BrainF.cpp:283-303 | The recorded dominators of a block lie on every path from the entry to it |
| BrainFFrame.EmitFramed | examples/BrainF/BrainF.cpp:283-303 | Emitting any stretch of source touches no block but the insertion block, the enclosing loop's test block and fresh blocks |
| BrainFFrame.EmitRecords | examples/BrainF/BrainF.cpp:194-415 | Emission keeps what was recorded about earlier text and records only text it has consumed |
| BrainFLinking.EmitLinks | examples/BrainF/BrainF.cpp:194-455 | Whatever compiles, each position passed is implemented by the final graph; a finished loop has a two-entry phi, the zero test, and an exit phi that equals it |
| BrainFLinks.ImplementsStays | examples/BrainF/BrainF.cpp:283-303 | What implements a position keeps doing so while the graph grows elsewhere |
| BrainFBrackets.EmitMatches | examples/BrainF/BrainF.cpp:283-303 | The recursion pairs each `[` with the `]` that matches it by depth |
| BrainFAcceptance.Acceptance | examples/BrainF/BrainF.cpp:417-466 | Compilation succeeds if and only if the brackets balance; otherwise it reports an extra `]` exactly when some prefix closes too many, and a missing `]` exactly when input ends inside a loop |
| BrainFAcceptance.EmitExplained | examples/BrainF/BrainF.cpp:184-467 | Each outcome of each nested call, explained by the nesting depth of the text it has read |
| BrainFAcceptance.FindCloseFrom | examples/BrainF/BrainF.cpp:20-21 | The machine's forward search finds the bracket that matches by depth |
| BrainFAcceptance.FindOpenFrom | examples/BrainF/BrainF.cpp:20-21 | The machine's backward search finds the bracket that matches by depth |
| BrainFSource.ScannerRefinesGrouping | examples/BrainF/BrainF.cpp:311-414 | The symbols and values the scanner delivers are the commands of the text, filtered and grouped into maximal runs with their net sums |
| BrainFSource.TokenCovers | examples/BrainF/BrainF.cpp:311-414 | Each token stands for exactly the text it covers: its commands, nothing skipped or read twice, a run maximal and its value the net sum |
| BrainFCompiler.BrainF.Parse | examples/BrainF/BrainF.cpp:40-50 | The class method returns the module of the emitter function, or the same error; it terminates on every input |
| BrainFCompiler.BrainF.ReadLoop | examples/BrainF/BrainF.cpp:184-467 | The recursive loop with lookahead leaves the builder in the state, and the input at the position, that the emitter function gives |
| BrainFCompiler.BrainF.ReadSymbol | examples/BrainF/BrainF.cpp:311-414 | The inner reading loop ends with the current token complete and the lookahead symbol set only behind a run |
| BrainFCompiler.BrainF.EmitLoop | examples/BrainF/BrainF.cpp:283-303 | A nested loop: blocks opened, body compiled by recursion |
| BrainFCompiler.BrainF.EmitOpen | examples/BrainF/BrainF.cpp:285-299 | New test and body blocks, half a phi, and the insertion point in the body |
| BrainFCompiler.BrainF.EmitClose | examples/BrainF/BrainF.cpp:423-455 | The branch back, the second phi entry, the test at the end of the test block, and the block behind with its phi |
| BrainFCompiler.BrainF.EmitMove | examples/BrainF/BrainF.cpp:237-267 | The pointer addition and, with checks on, the two comparisons, the branch and the fresh block |
| BrainFCompiler.BrainF.EmitChange | examples/BrainF/BrainF.cpp:269-281 | Load, add the truncated sum, store |
| BrainFCompiler.BrainF.EmitRead | examples/BrainF/BrainF.cpp:201-215 | Call `getchar`, truncate, store |
| BrainFCompiler.BrainF.EmitWrite | examples/BrainF/BrainF.cpp:217-235 | Load, sign-extend, call `putchar` |
| BrainFCompiler.BrainF.Finish | examples/BrainF/BrainF.cpp:417-466 | Behind the loop: the loop test at `]`, the branch to the end block at the end of input, or the two errors |
| BrainFCompiler.BrainF.BuildHeader | examples/BrainF/BrainF.cpp:80-181 | Entry block, end block and error block |
| ExceptionLeb128.ReadULEB128 | examples/ExceptionDemo/ExceptionDemo.cpp:375-391 | On every encoding whose shifts stay inside an `int`, the do/while decoder with shifts and bitwise or returns the number the groups denote and goes past exactly its bytes |
| ExceptionLeb128.ReadSLEB128 | examples/ExceptionDemo/ExceptionDemo.cpp:399-419 | The same for signed numbers, sign-extended to 64 bits |
| ExceptionEncodings.UnsignedUndoesEncode | examples/ExceptionDemo/ExceptionDemo.cpp:375-391 | Round trip: a number written in k groups, padded or not, is decoded to itself wherever it lies and whatever follows |
| ExceptionEncodings.SignedUndoesEncode | examples/ExceptionDemo/ExceptionDemo.cpp:399-419 | The same for signed numbers |
| ExceptionEncodings.EncodeUndoesUnsigned | examples/ExceptionDemo/ExceptionDemo.cpp:375-391 | The bytes read are the encoding of the value in as many groups |
| ExceptionEncodings.EncodeUndoesSigned | examples/ExceptionDemo/ExceptionDemo.cpp:399-419 | The same for signed numbers |
| ExceptionEncodings.SignedSurvives | examples/ExceptionDemo/ExceptionDemo.cpp:552-562 | What the signed decoder returns as a `uintptr_t` is the signed number again in an `int64_t` |
| ExceptionEncodings.FiveGroupsIff | examples/ExceptionDemo/ExceptionDemo.cpp:381-386 | Five groups keep the shifts inside an `int` if and only if the value is below 2^31, signed or not |
| ExceptionLeb128.DwarfExamples | examples/ExceptionDemo/ExceptionDemo.cpp:369-419 | The example numbers of DWARF 3, figures 22 and 23, unsigned and signed |
| ExceptionPointers.ReadEncodedPointer | examples/ExceptionDemo/ExceptionDemo.cpp:428-504 | Value, new position and aborts of every encoding byte, omitted, relative and indirect forms included |
| ExceptionPointers.PointerUndoesEncode | examples/ExceptionDemo/ExceptionDemo.cpp:428-504 | For every supported encoding byte, its size and sign read off its bits: a written value is read back past exactly its bytes, as it is, or as a distance from where it lies, or as the address of the word that is the result |
| ExceptionPointers.AbortsIff | examples/ExceptionDemo/ExceptionDemo.cpp:468-497 | Reading aborts exactly on the encoding bytes without a format and on those relative to anything but the pointer itself |
| ExceptionActions.HandleActionValue | examples/ExceptionDemo/ExceptionDemo.cpp:525-598 | On every chain that is readable up to the first match or to offset 0 the search terminates; it returns the 1-based position of the first record whose type matches, or false when none does, and false for a foreign exception |
| ExceptionTableWriter.SearchFindsClause | examples/ExceptionDemo/ExceptionDemo.cpp:555-595 | On the bytes of a chain and of the type pointers below `classInfo`: what the search returns is 0 if and only if the type is in no clause, and otherwise the number of the first clause with that type |
| ExceptionActions.PointerLeadsToType | examples/ExceptionDemo/ExceptionDemo.cpp:575-576 | The k-th pointer below `classInfo`, eight bytes each, leads to the four bytes of the type |
| ExceptionActions.SearchChain | examples/ExceptionDemo/ExceptionDemo.cpp:555-595 | The loop of the search over self-relative offsets |
| ExceptionActions.ChainHasTrail | examples/ExceptionDemo/ExceptionDemo.cpp:555-595 | On a chain that ends in offset 0 the search reads exactly the records up to the first match, so both have the same first match |
| ExceptionActions.TrailUnique | examples/ExceptionDemo/ExceptionDemo.cpp:555-595 | The bytes at an address determine which records a search reads |
| ExceptionActions.PositionIsClauseIff | examples/ExceptionDemo/ExceptionDemo.cpp:1328-1340 | For every chain and type: the position found is the number of the clause that catches the type if and only if no record matches or some matching record has no cleanup record before it |
| ExceptionTableWriter.CleanupInFrontMisroutes | examples/ExceptionDemo/ExceptionDemo.cpp:571-582 | On the bytes of a chain with a cleanup record in front of its one catch record, and of its type pointer, the position is 2 and the clause is 1 |
| ExceptionActions.PositionCounts | examples/ExceptionDemo/ExceptionDemo.cpp:555-595 | The position is the clause number plus the cleanup records passed; a chain matches if and only if some clause does |
| ExceptionActions.ChainUnique | examples/ExceptionDemo/ExceptionDemo.cpp:555-595 | The bytes at an address hold at most one chain |
| ExceptionLsda.HandleLsda | examples/ExceptionDemo/ExceptionDemo.cpp:612-784 | The reason code returned and the registers and instruction pointer written are those of the verdict on the bytes; without an installation the context is untouched |
| ExceptionLsda.WalkSites | examples/ExceptionDemo/ExceptionDemo.cpp:672-784 | The loop over the call-site table stops at the first entry with a landing pad whose range covers the pc |
| ExceptionLsda.MatchSite | examples/ExceptionDemo/ExceptionDemo.cpp:684-728 | The entry's action decides the selector; a foreign exception has none |
| ExceptionLsda.ReadHeader | examples/ExceptionDemo/ExceptionDemo.cpp:638-670 | The header fields of the area |
| ExceptionTables.TableDecides | examples/ExceptionDemo/ExceptionDemo.cpp:659-783 | Both phases act on the first covering entry of the table and nothing else: cleanup installs its pad, search reports a handler exactly when the selector is positive, and the selector is the position of the first match in the entry's chain |
| ExceptionTables.ReturnAddressDecides | examples/ExceptionDemo/ExceptionDemo.cpp:630-760 | By return address, for code that does not reach the end of the address space: cleanup installs the region start plus the pad of the first entry with a pad and with `start < ip - regionStart <= start + length`, search follows the action of that entry, and without one both phases continue |
| ExceptionTables.SearchThenCleanUp | examples/ExceptionDemo/ExceptionDemo.cpp:717-779 | The routine called for the search phase and then for the cleanup phase, on any bytes: the first call finds a handler if and only if the second installs the landing pad with a positive selector; a foreign exception gets neither |
| ExceptionTables.WalkFindsFirst | examples/ExceptionDemo/ExceptionDemo.cpp:672-716 | On a table that decodes to a list of entries the walk finds the first covering one of the list |
| ExceptionTables.SitesUndoWrite | examples/ExceptionDemo/ExceptionDemo.cpp:672-682 | A table written entry by entry reads back as its entries |
| ExceptionTableWriter.WrittenAreaDescribes | examples/ExceptionDemo/ExceptionDemo.cpp:612-784 | An area written for any list of types, with its base, entries, actions, type pointers and type infos in bytes, describes the frame that catches those types if its call returns into the right entry |
| ExceptionTableWriter.ChainUndoesWrite | examples/ExceptionDemo/ExceptionDemo.cpp:555-595 | A chain written record behind record is found again by following its self-relative offsets |
| ExceptionTableWriter.HeaderUndoesWrite | examples/ExceptionDemo/ExceptionDemo.cpp:638-670 | The header of a written area is read back, with or without a landing pad base and with or without type pointers |
| ExceptionTableWriter.TypesUndoWrite | examples/ExceptionDemo/ExceptionDemo.cpp:575-576 | Type pointers written so that they end at `classInfo` lead, clause by clause, to the types |
| ExceptionCatchFunction.Builder.CreateCatchWrappedInvokeFunction | examples/ExceptionDemo/ExceptionDemo.cpp:1097-1346 | The builder produces, block by block, the function that catches the given types |
| ExceptionCatchFunction.Builder.CreateFinallyBlock | examples/ExceptionDemo/ExceptionDemo.cpp:968-1029 | Three slots with their initial values at the head of the entry block and, for any terminator and resume block, a finally block that switches on the caught flag between them |
| ExceptionCatchFunction.Builder.CreateLandingPad | examples/ExceptionDemo/ExceptionDemo.cpp:1238-1253 | A landing pad marked as a cleanup with one clause added for each type, in order |
| ExceptionFrames.PadListsKinds | examples/ExceptionDemo/ExceptionDemo.cpp:1238-1253 | The clauses that the exception block of a generated function asks the tables for are its types, and it asks for cleanups |
| ExceptionCatchFunction.Builder.CreateCatchBlock | examples/ExceptionDemo/ExceptionDemo.cpp:1044-1074 | A block that sets the flag to caught and goes to the given block |
| ExceptionCatchFunction.Builder.AddRoutes | examples/ExceptionDemo/ExceptionDemo.cpp:1328-1341 | Selector i is routed to the catch block of clause i |
| ExceptionCatchFunction.Builder.CreateEntryBlockAlloca | examples/ExceptionDemo/ExceptionDemo.cpp:249-261 | A slot, and its initial value if one is given, in front of the entry block's code |
| ExceptionActivations.FinallyOnce | examples/ExceptionDemo/ExceptionDemo.cpp:1193-1340 | Every activation, normal, matched, unmatched or foreign, allocates its slots before it uses them and passes through the finally block exactly once; it returns if and only if nothing was thrown or a clause caught it, and otherwise resumes with what landed; it runs a catch block only for a clause selected, and that of the clause's type; only a returning one deletes, and it deletes null or the caught exception |
| ExceptionActivations.EntrySuspends | examples/ExceptionDemo/ExceptionDemo.cpp:1189-1197 | Whatever its slots hold at first, an activation waits at its invoke with nothing thrown, a null exception and an empty result, and goes on from there behind the call or at the exception block |
| ExceptionActivations.EveryPathThroughFinally | examples/ExceptionDemo/ExceptionDemo.cpp:989-1026 | Whatever the branches decide, every complete path through the generated graph has the finally block exactly once, next to last |
| ExceptionActivations.RouterTarget | examples/ExceptionDemo/ExceptionDemo.cpp:1328-1341 | Any other selector goes straight to the finally block |
| ExceptionOutcomes.InnermostHandlerWins | examples/ExceptionDemo/ExceptionDemo.cpp:1482-1534 | For any stack and any exception: the innermost frame with a clause for its type catches it in the block of its first such clause, frames inside it run their finally block and resume, frames outside it return normally, and the search phase points at the same frame; foreign and unmatched exceptions reach the harness |
| ExceptionOutcomes.ThrownIsCaught | examples/ExceptionDemo/ExceptionDemo.cpp:1359-1440 | From the throw on, over any described stack: an exception made by `createOurException` for a type is caught by the innermost frame that lists the type, in the block of its first such clause, and by the harness if and only if no frame lists it; blocks, messages and deletions of every frame are given outright |
| ExceptionOutcomes.ForeignPassesBy | examples/ExceptionDemo/ExceptionDemo.cpp:1276-1290 | A foreign exception runs through the foreign block and the finally block of every frame and reaches the harness |
| ExceptionOutcomes.ExceptionConserved | examples/ExceptionDemo/ExceptionDemo.cpp:325-367 | Over any stack run the object made by `createOurException` is freed exactly once and the heap is otherwise as before; a foreign object is never freed; no run ends in an unwinder error |
| ExceptionOutcomes.OnlyTheCatcherDeletes | examples/ExceptionDemo/ExceptionDemo.cpp:1202-1214 | Over any stack run the pointers that the frames hand to `deleteOurException` are, in order: nothing from the frames that resume, the object from the catching frame, null from each frame outside it |
| ExceptionOutcomes.HeapFollowsDeletions | examples/ExceptionDemo/ExceptionDemo.cpp:325-336 | For any frames and tables, described or not: unless the harness has caught the exception, the heap is what the deletions made by the frames, in order, turn it into |
| ExceptionFrames.FrameVerdicts | examples/ExceptionDemo/ExceptionDemo.cpp:803-831 | On a described frame the selector found in the bytes is the number of the clause that catches the exception |
| ExceptionOutcomes.SearchFindsInnermost | examples/ExceptionDemo/ExceptionDemo.cpp:761-779 | The search phase ends at the innermost frame with a clause |
| ExceptionObjects.Runtime.CreateOurException | examples/ExceptionDemo/ExceptionDemo.cpp:359-367 | A new zeroed object with our class, the given type and our cleanup function; every other object and the list of what was freed unchanged |
| ExceptionObjects.Runtime.DeleteOurException | examples/ExceptionDemo/ExceptionDemo.cpp:325-336 | Frees an object of our class and nothing else; with null and with foreign objects nothing changes |
| ExceptionObjects.Runtime.DeleteFromUnwindOurException | examples/ExceptionDemo/ExceptionDemo.cpp:345-353 | The cleanup function does the same |
| WaitForThreadsBarrier.WaitForThreads.BlockBody | examples/ParallelJIT/ParallelJIT.cpp:149-173 | The critical section of `block`: the assertion holds, the counters and the broadcast are those of the state machine, and the counters are in order again |
| WaitForThreadsBarrier.WaitForThreads.ReleaseBody | examples/ParallelJIT/ParallelJIT.cpp:178-196 | The critical section of `releaseThreads` likewise |
| WaitForThreadsSafety.AssertionHolds | examples/ParallelJIT/ParallelJIT.cpp:149-173 | On every run of any number of callers, spurious wakeups included: the assertion never fails, at most one thread is inside, and with the mutex free the count is below a waiting releaser's number |
| WaitForThreadsSafety.SafeRun | examples/ParallelJIT/ParallelJIT.cpp:149-214 | The invariant behind it holds along every run from any safe state; the count never exceeds the number of blockers that have come in |
| WaitForThreadsSafety.SleepersAreCounted | examples/ParallelJIT/ParallelJIT.cpp:157-191 | Without spurious wakeups: with the mutex free the sleepers number exactly `n` plus the waiting releasers, and `waitFor` is 0 exactly when no releaser waits |
| WaitForThreadsSafety.TalliedRun | examples/ParallelJIT/ParallelJIT.cpp:149-214 | The same count with a thread behind its increment, along every run |
| WaitForThreadsSafety.TalliedIffHarmless | examples/ParallelJIT/ParallelJIT.cpp:157-191 | On any run the count is right at every moment if and only if each spurious wakeup wakes a releaser while another releaser sleeps on |
| WaitForThreadsRelease.NobodyLeavesEarly | examples/ParallelJIT/ParallelJIT.cpp:149-196 | With `num` blockers and one `releaseThreads(num)`, on every interleaving without spurious wakeups: once any thread is past the condition, all `num + 1` have come in and are past it |
| WaitForThreadsRelease.NobodyEarlyIffSteady | examples/ParallelJIT/ParallelJIT.cpp:163-172 | On any run of such a party: at no moment is one thread past the condition and another before it if and only if the run has no spurious wakeup |
| WaitForThreadsRelease.EverybodyReturns | examples/ParallelJIT/ParallelJIT.cpp:149-196 | With `num` blockers and one `releaseThreads(num)`, on every interleaving, spurious wakeups included: every run has at most six turns a thread, and nobody can go on if and only if all `num + 1` have returned: no deadlock, no livelock |
| WaitForThreadsCrowd.ReleaserReturnsIffEnough | examples/ParallelJIT/ParallelJIT.cpp:149-196 | One `releaseThreads(num)` among any number of blockers, on every run without spurious wakeups that nobody can go on from: the releaser has returned if and only if there are at least `num` blockers, and with fewer everybody sleeps for good |
| WaitForThreadsCrowd.RunsAreBounded | examples/ParallelJIT/ParallelJIT.cpp:149-214 | Every run of any callers has at most six turns a thread, so every run can be continued to one that nobody can go on from |
| WaitForThreadsRequests.FreesIff | examples/ParallelJIT/ParallelJIT.cpp:149-214 | Any callers, any run without spurious wakeups: a blocker that comes in frees everybody if and only if it completes the number that the last releaser to go to sleep asked for, a releaser if and only if as many blockers sleep as it asks for; otherwise it goes to sleep alone. Of the releasers that a blocker frees, exactly those that asked for no more than the last one have as many blocked as they asked for |
| WaitForThreadsRequests.WaitForIsAsked | examples/ParallelJIT/ParallelJIT.cpp:178-196 | On any run `waitFor` is what the last releaser to go to sleep asked for, and 0 once everybody has been woken |
| WaitForThreadsRequests.SmallerRequestFreesLarger | examples/ParallelJIT/ParallelJIT.cpp:175-177 | A witness: a releaser that asked for two is freed with one thread blocked, since a second releaser asked for one |
| WaitForThreadsRelease.SpuriousWakeupLeavesEarly | examples/ParallelJIT/ParallelJIT.cpp:163-172 | A witness: one spurious wakeup lets a lone blocker of two return before the others have come in |
| WaitForThreadsRelease.SomeoneGoesOn | examples/ParallelJIT/ParallelJIT.cpp:149-214 | While somebody has not returned, some thread can take a turn |
| AttributesRoundTrips.DecodeUndoesEncode | include/llvm/Attributes.h:226-268 | Decoding gives back an encoded attribute set if and only if it uses bits 0-32 only and its alignment field is at most 16 |
| AttributesRoundTrips.EncodeUndoesDecode | include/llvm/Attributes.h:251-268 | Encoding gives back a decoded word if and only if it uses bits 0-43 only and its bits 16-31 are zero or a single bit |
| AttributesRoundTrips.AlignmentSurvivesIff | include/llvm/Attributes.h:185-193 | Of the alignments that can be constructed exactly those up to 2^15 survive encoding and decoding |
| AttributesRoundTrips.AlignmentRoundTrip | include/llvm/Attributes.h:185-202 | An alignment up to 2^30 put into any attribute set that has none is read back, and the other attributes stay |
| AttributesRoundTrips.ConstructedIff | include/llvm/Attributes.h:185-193 | The alignments that can be constructed are none and the powers of two up to 2^30 |
| AttributesRoundTrips.EncodedLayout | include/llvm/Attributes.h:226-249 | An encoded set by position: bits 16-31 are the byte alignment itself, bits 0-15 stay, bits 21-32 lie 11 bits higher, and nothing else is set |
| AttributesRoundTrips.DecodedLayout | include/llvm/Attributes.h:251-268 | A word decodes if and only if its bits 16-31 are clear or a single bit, and then its alignment is what these bits hold and the other attributes come from bits 0-15 and 32-43 |
| AttributesCodec.EncodeLLVMAttributesForBitcode | include/llvm/Attributes.h:230-249 | The method that builds the word by or-ing computes the function the round trips are about |
| AttributesCodec.DecodeLLVMAttributesForBitcode | include/llvm/Attributes.h:254-268 | Likewise for decoding; an alignment that fails the assertion gives no result |

## Left out

- LLVM itself: JIT, bitcode writer, verifier, pass manager, types, constants and use lists. The model has the instructions that the two generators emit and an interpreter for each.
- Drivers, options, streams and printing: source text is a string, program input and output are sequences of bytes and lines; `abort` after an error message is an error result.
- BrainF, sizes: theorems about runs assume runs of moves and of changes shorter than 2^31 (the scanner adds in an `int`), a tape of 1 to 2^31 - 1 cells, and that malloc succeeds; addresses are unbounded integers, so pointer arithmetic does not wrap.
- BrainF, structure: the inner reading loop, the cases of the symbol switch and the code behind the main loop of `readloop` are methods of their own. Value names and the module object are not modelled.
- ExceptionDemo, memory: tables are bytes at addresses that are indices, little endian; exception objects live in a separate map from addresses to class and type, so the offset between an exception and its unwind header is not modelled. Reads outside the memory, and LEB128 numbers whose shifts leave an `int` (five groups with a last byte of 8 or more, or more groups), have no result in the source and are excluded.
- ExceptionDemo, filters: a negative type offset fails an assertion in the source; chains with one before the first match are excluded. The null check of `resultAction` is not modelled, as its one caller passes a local variable.
- ExceptionDemo, structure: the loops of `handleActionValue` and `handleLsda`, the reading of one table entry, and the second half of the function generator are methods of their own. The texts that generated blocks print are reduced to which message it is, and a landing pad to its clauses and its cleanup flag.
- ExceptionDemo, unwinder: `_Unwind_RaiseException` and `_Unwind_Resume` are a two-phase walk over a sequence of frames with a catch-all harness below; registers and instruction pointers are fields of a context. How JITDwarfEmitter lays out tables is not part of this model: that the tables describe a frame is an assumption, and ExceptionTableWriter shows one layout that meets it.
- ExceptionDemo, heap: the allocator's address is a parameter. The harness deletes what it catches through the exception's own cleanup function.
- WaitForThreads: pthread calls succeed and are modelled by what they do to the mutex and the sleepers; `size_t` counters do not wrap, as they never exceed the number of threads.
- Attributes.h: stack alignment is a second field with its own shift (lines 206-224); the codec carries it along unread, like everything else in bits 21-32. The remaining accessors test or set single bits.
- `genClass` builds the class number from eight characters; the model has the number as a constant. `throwCppException` only throws, and the model has a foreign exception in the heap instead.
- The fib and add1 functions that ParallelJIT compiles play no part in how its threads wait.
