# Verified model of the Sentinel KV analyzer

Sentinel KV reads LLVM modules of kernel code, scans them for memory errors, asks a human gate about
its verification conditions (VCs), checks an attestation token for the strict rings, and turns all of
that into an exit code. This project models that path in Dafny and proves what it promises.

`dafny verify dfyconfig.toml` checks everything. The modules, from the leaves up:

- `Common`, `Numerals`: machine integers; decimal printing, C's `strtoll`, Zig's `parseInt`.
- `Types`, `TypeSize`, `Ir`, `Gep`, `GepSaturation`: types, the size of a type, instructions, `getelementptr` offsets.
- `Gate`, `GateHistory`, `Review`: the human-in-the-loop (HITL) gate, its history over a whole run, and the
  review of what a run blocked.
- `Scan`: the scan as a step function on values. `Scanner`: the same scan as the class that mutates the
  environments, one method per instruction kind, each proved equal to the step function.
- `ScanFacts`, `Iommu`: what every reachable scan state satisfies. `Irq`: the interrupt-handler pre-scan.
- `Verdicts`, `Counts`, `Programs`: when the scan passes and fails, read off the text of the module; when it counts
  something; and whole families of small programs decided by arithmetic on their constants.
- `Machine`, `Simulation`, `Flat`, `Frees`: a machine that executes the instructions, the proof that the scan
  decides it, what that means in flat memory, where a block is found by address, and what frees must satisfy.
- `Token`, `TokenC`, `TokenZig`, `Replay`, `ReplayZig`, `Backends`: the attestation token, its two validators,
  and the replay-counter protocols run by any number of processes.
- `Analysis`, `Pipeline`: `analyze` as a whole, and the way from its verdict to the exit code.
- `TypeImport`, `TypeMeaning`, `TypeRoundTrip`: the importer of types, the sizes of what it imports, and a graph for
  every type. `ConstImport`, `ConstMeaning`: the same for constants and their values.
- `Numbering`, `ValueNumbers`: the two passes that name the values of a function, and the name of each place.

## Conventions

- One `char` is one byte. Messages are constructors of `Scan.Reason`, one per message of the source.
- The solver sees only ground terms. It is an oracle that answers correctly, or gives up on the calls whose
  ordinals are in `Config.timeouts`; every theorem holds for every such set unless it says otherwise.
- Offsets are unbounded integers, as the solver's integers are. `u64` arithmetic saturates, is checked, or
  wraps where the source does so; an array's size is a plain product, which wraps in a release build.
- The module's named struct table must be acyclic by value (`TypeSize.Acyclic`): on any other table the
  source recurses for ever.
- The clock and the outcome of file checks are inputs (`now`, `Host`).

## Where the code and its documentation part

- The second numbering pass is said to number everything exactly as the first. Counters and shared names do
  agree always; the first pass has additional entries exactly for values that carry a string without having
  a result (`Numbering.PassesEqualIff`).
- Both validators are meant to be interchangeable. They are for rings that fit in 32 bits
  (`Backends.BackendsAgree`); every wider ring is cut to 32 bits by C and compared whole by Zig
  (`Backends.BackendsPartOnWideRings`).
- `getelementptr` products saturate. That never changes a decision from a non-negative offset; below the
  base it can, exactly under the condition of `GepSaturation.SaturationMattersIff`.
- `type_size` checks the sums of members but not the product of an array, so a size is the byte count modulo
  2^64 (`TypeSize.SizeModulo`, `TypeSize.ArrayProductWraps`).
- `kfree` is followed by block, not by address. A module passes although it frees a pointer that was moved into
  another block (`Flat.ForeignFreeIsMissed`); without such frees a pass means safety in flat memory, and the first
  such free always has a passing continuation that faults (`Frees.ForeignFreeCanFault`).
- Zig updates the replay state without a lock. A schedule is safe for all counters and files exactly when no
  validator reads while another is between its read and its write (`ReplayZig.SafeIffApart`).
- One review of the blocked VCs is enough when the first scan did not fail or the solver always answers
  (`Review.OneReviewIsEnough`). Otherwise a second round can be needed, because approving a VC shifts which solver
  calls give up (`Review.OneReviewMayNotBeEnough`).
- The importer panics on a numbered opaque struct, although every type is meant to be importable: exactly when one
  is part of the type (`TypeImport.TypesBuilder.Import`, `TypeImport.NumberedOpaqueStruct`).

## Model

| member | source | states |
|---|---|---|
| `Simulation.ScanDecidesMachine` | skv-analyzer/src/main.rs:779-1664 | For every module in the tracked fragment, with a decisive solver, `analyze` passes exactly when the machine with the code's own byte rule runs without a fault, and otherwise fails with the machine's first fault: out of bounds, use after free or double free. |
| `Simulation.ScanDecidesExactMachine` | skv-analyzer/src/main.rs:511-544 | The same for a machine with exact index products, on modules where no product saturates. |
| `Simulation.StepAgrees` | skv-analyzer/src/main.rs:811-1624 | One instruction keeps the scan's symbolic offsets and the machine's absolute addresses related, or stops both for the same reason. |
| `Simulation.RunAgrees` | skv-analyzer/src/main.rs:811-1624 | The same over every stream of instructions, from every related pair of states. |
| `Verdicts.VerdictIff` | skv-analyzer/src/main.rs:779-1664 | For every module, policies, gate and solver: the verdict is pass exactly when every instruction is clean where the scan meets it and no DMA allocation is left unmapped where that is required; it is fail exactly when the scan reaches a faulty instruction or such an allocation; otherwise it is unknown. |
| `Verdicts.PassMeans` | skv-analyzer/src/main.rs:811-1637 | When a module passes, every call of `kmalloc`, `kzalloc`, `kcalloc`, `dma_alloc_coherent`, `memset`, `memcpy` and `dma_map_single` has constant sizes, no solver call gave up, every checked access lies in its block, which is live for all but `dma_map_single`, and was approved, and nothing is freed twice. |
| `Verdicts.ExecDecided` | skv-analyzer/src/main.rs:811-1624 | One instruction, from every reachable state: the verdict stays exactly when the instruction is clean and fails exactly when it is faulty. |
| `Verdicts.PassIff` | skv-analyzer/src/main.rs:811-1624 | A stream passes exactly when every instruction is clean in the state the scan meets it in. |
| `Verdicts.FailIff` | skv-analyzer/src/main.rs:1616-1624 | A stream fails exactly when an instruction the scan reaches is faulty there. |
| `Verdicts.PassHasNoTimeout` | skv-analyzer/src/main.rs:592-615 | No solver call of a passing scan gave up. |
| `Programs.AllocateIndexTouch` | skv-analyzer/src/main.rs:511-615 | For every allocator, size, index list and access the scan follows, allocating, indexing and accessing fails exactly when eight bytes per unit of the first index, four per unit of the others and the length together exceed the size. |
| `Programs.UseAfterFreeFails` | skv-analyzer/src/main.rs:896-920 | Allocating, freeing and then accessing or freeing again always fails. |
| `Programs.TouchDecided` | skv-analyzer/src/main.rs:592-615 | An access through a known pointer fails exactly on a freed block or outside of its block, and passes exactly when it is sized, live and inside. |
| `Programs.IntegerDetour` | skv-analyzer/src/main.rs:1296-1408 | A pointer turned into an integer, moved up and down by constants in either operand order, and turned back is the pointer moved by the difference. |
| `Programs.DmaDetour` | skv-analyzer/src/main.rs:1296-1337 | Nothing is known about a DMA pointer after the same detour. |
| `Programs.SpillAndReload` | skv-analyzer/src/main.rs:1424-1440 | A pointer stored to a stack slot and loaded back is the same pointer, and nothing else changes. |
| `Programs.SlotAsBase` | skv-analyzer/src/main.rs:1234-1250 | A `getelementptr` on a filled slot is one on the pointer spilled there. |
| `Counts.ExecCounted` | skv-analyzer/src/main.rs:1065-1222 | One instruction counts a race, an opaque assembly or a DMA condition exactly when its text and the state call for it. |
| `Flat.PassIsSafeInFlatMemory` | skv-analyzer/src/main.rs:779-1664 | When the scan passes a module of the fragment whose frees are its own, the program runs in flat memory without a fault: every byte it touches lies in one live block. |
| `Flat.InStepIffOwnFrees` | skv-analyzer/src/main.rs:896-920 | Through every run without a fault the machine with blocks and the flat machine stay in step exactly when each freed address lies in the block it was made from. |
| `Flat.ForeignFreeIsMissed` | skv-analyzer/src/main.rs:896-920 | A module that frees a foreign block's address passes and faults in flat memory. |
| `Frees.ForeignFreeCanFault` | skv-analyzer/src/main.rs:896-920 | In every stream whose allocations are named, the first free by a foreign address has a continuation that the scan passes and that faults in flat memory. |
| `Frees.InStrictStepIff` | skv-analyzer/src/main.rs:896-920 | With an allocator that frees only by the start of a block, the machines stay in step exactly when every freed pointer is the start of its own block. |
| `Frees.StartIsOffsetZero` | skv-analyzer/src/main.rs:896-920 | In the scan's terms that is a freed pointer of offset 0. |
| `Frees.PassIsSafeForStrictAllocator` | skv-analyzer/src/main.rs:779-1664 | A passing module of the fragment that frees only block starts runs without a fault under such an allocator. |
| `Scanner.Analyzer.ScanModule` | skv-analyzer/src/main.rs:809-1624 | The nested loops with their breaks leave exactly the state of the step function's run, however the gate and the solver answer. |
| `Scanner.Analyzer.ScanFunction` | skv-analyzer/src/main.rs:811-1623 | One function's blocks in listing order, leaving both inner loops at the first failure. |
| `Scanner.Analyzer.DoInstr` | skv-analyzer/src/main.rs:818-1615 | The dispatch on the instruction kind updates every environment, counter and the gate as the step function says, and reports whether to stop. |
| `Scanner.Analyzer.DoCall` | skv-analyzer/src/main.rs:820-1232 | Allocation, free, block copies, inline assembly, DMA and IOMMU calls by callee name. |
| `Scanner.Analyzer.DoMemcpy` | skv-analyzer/src/main.rs:983-1064 | Destination first, then source, with the source skipped once the destination failed. |
| `Scanner.Analyzer.DoDmaMap` | skv-analyzer/src/main.rs:1150-1222 | Bounds of a mapped kmalloc or DMA buffer, without a look at the freed set. |
| `Scanner.Analyzer.DoGep` | skv-analyzer/src/main.rs:1234-1295 | The base is looked up among pointers and then among spilled slots; the result is moved or unknown. |
| `Scanner.Analyzer.DoStore` | skv-analyzer/src/main.rs:1424-1518 | Spill to a slot, then use after free, size, bounds and interrupt race of the access. |
| `Scanner.Analyzer.DoLoad` | skv-analyzer/src/main.rs:1519-1611 | Recovery from a slot, then the same checks. |
| `Scanner.Analyzer.FinalCheck` | skv-analyzer/src/main.rs:1626-1637 | Under require-iommu a tracked DMA allocation that is not mapped fails the run; the one named is any of them. |
| `Scan.ModuleIsFlat` | skv-analyzer/src/main.rs:806-1624 | The nested loops with three levels of breaks equal one loop over the flat instruction stream. |
| `Scan.RunSitesConcat` | skv-analyzer/src/main.rs:806-1624 | Scanning a stream is scanning its first part and then the rest from the state reached. |
| `ScanFacts.ExecStep` | skv-analyzer/src/main.rs:811-1624 | Every instruction keeps the state invariant, only raises the verdict, and touches DMA bookkeeping only as `iommu_map` and DMA allocations may. |
| `ScanFacts.ReachableStates` | skv-analyzer/src/main.rs:840-919 | In every reachable state sizes are known for exactly the ids below the counter, every id anywhere is below it, DMA tags and DMA ids match, freed ids are not DMA ids; the missing-metadata verdict never appears. |
| `ScanFacts.RunKeeps` | skv-analyzer/src/main.rs:438-442 | Over every run the verdict climbs, its first unknown reason survives until a failure, and race or assembly counts that grew exclude a pass. |
| `ScanFacts.FailureIsFinal` | skv-analyzer/src/main.rs:1616-1624 | Once a prefix of the stream failed, every continuation leaves verdict, gate, counters and environments as they were. |
| `ScanFacts.FailingModuleIsFinal` | skv-analyzer/src/main.rs:1616-1624 | Functions appended to a failing module change nothing. |
| `ScanFacts.ReportedMeansNotPassed` | skv-analyzer/src/main.rs:1065-1112 | A run that counted an interrupt race or opaque assembly does not pass. |
| `ScanFacts.RacyAccessMeansNotPassed` | skv-analyzer/src/main.rs:1440-1514 | With a freeing interrupt handler, a run that reaches one tracked load or store, slot recovery included, does not pass, whatever follows. |
| `Analysis.FreeingHandlerDeniesPass` | skv-analyzer/src/main.rs:636-677 | When the pre-scan finds a freeing handler, no module whose scan reaches a tracked access is reported as passing, under any policies and solver answers. |
| `Iommu.UnmappedAfterLastMap` | skv-analyzer/src/main.rs:1223-1230 | After the last `iommu_map` the unmapped allocations are exactly the later DMA allocations, and the mapped ones a subset of all. |
| `Iommu.UnmappedWithoutMap` | skv-analyzer/src/main.rs:1114-1149 | Without `iommu_map` every tracked DMA allocation stays unmapped. |
| `Iommu.ExecDma` | skv-analyzer/src/main.rs:1114-1149 | The tracked DMA allocations grow by one at each DMA allocation of constant size and at no other instruction. |
| `Iommu.RequireIommuVerdict` | skv-analyzer/src/main.rs:1626-1637 | Under require-iommu, a module whose scan did not fail is rejected exactly when some DMA allocation of its instruction stream has no `iommu_map` behind it. |
| `Analysis.Analyze` | skv-analyzer/src/main.rs:779-1664 | Pre-scan, scan, final check and reported counts together: the outcome and the gate are those of the step function's run. |
| `Irq.ScanIrqHandlers` | skv-analyzer/src/main.rs:636-677 | The two-phase pre-scan returns exactly the defined functions that are registered by name and call `kfree` directly. |
| `Irq.OrderDoesNotMatter` | skv-analyzer/src/main.rs:636-677 | The result is the same for every order of the functions. |
| `Irq.RegisteredHandlerFrees` | skv-analyzer/src/main.rs:636-677 | A module in which one function passes `h` to `request_irq` as its second argument and `h` calls `kfree` is at risk, whatever the other operands are. |
| `Gate.HitlGate.ShouldRunSolver` | skv-analyzer/src/main.rs:564-579 | The gate's answer and its four lists after a question. |
| `Gate.SampleIds` | skv-analyzer/src/main.rs:2581-2645 | The ids and the class in the unit tests of the gate are those of the format. |
| `Gate.VcIdInjective` | skv-analyzer/src/main.rs:617-619 | VC ids of different places or kinds differ, for arbitrary function names. |
| `Gate.AskKeepsFaithful` | skv-analyzer/src/main.rs:564-579 | Blocked ids and classes stay the index-aligned subsequence of the seen ones that consists of exactly the unapproved entries. |
| `Gate.NothingBlocked` | skv-analyzer/src/main.rs:564-579 | Nothing is blocked exactly when every seen entry was approved. |
| `GateHistory.ExecAsks` | skv-analyzer/src/main.rs:811-1624 | One instruction changes the gate only by asking about VCs of its own place, each kind at most once. |
| `GateHistory.RunFaithful` | skv-analyzer/src/main.rs:564-579 | The blocked lists are the unapproved part of the seen lists after every run. |
| `GateHistory.ScanHistory` | skv-analyzer/src/main.rs:1639-1659 | With distinct function names no VC is seen or blocked twice, so the reported distinct counts are the lengths of the lists. |
| `GateHistory.EmittedOnce` | skv-analyzer/src/main.rs:694-706 | Byte-lexicographic sorting and removing neighbouring duplicates emits every entry of a list exactly once. |
| `Review.QuestionsDoNotDependOnApprovals` | skv-analyzer/src/main.rs:564-579 | For every module, a scan with more approvals asks the same questions in the same order, or stops at a failure before asking all of them. |
| `Review.OneReviewIsEnough` | skv-analyzer/src/main.rs:694-706 | After approving everything a scan blocked, by id or by class, the next scan blocks nothing, provided the first did not fail or the solver always answers. |
| `Review.OneReviewMayNotBeEnough` | skv-analyzer/src/main.rs:592-615 | Without that a second round can be needed: a module, a solver and approvals for which the second scan blocks a new VC. |
| `Analysis.EmittedAsReported` | skv-analyzer/src/main.rs:694-706 | The four lists written for review have the reported lengths; with distinct function names the id lists are as long as the histories. |
| `TypeSize.ComputeSize` | skv-analyzer/src/main.rs:454-472 | The recursive size with its summing loop ends on every acyclic table and equals the size function. |
| `TypeSize.ResolveNamed` | skv-analyzer/src/main.rs:444-452 | Resolution ends at a type that is not a name and is the type itself or lower in the table. |
| `TypeSize.ExpandKeepsSize` | skv-analyzer/src/main.rs:444-472 | Replacing a named struct by its definition anywhere in a type keeps its size. |
| `TypeSize.FlattenKeepsSize` | skv-analyzer/src/main.rs:454-472 | Splicing a nested struct's members into the outer one keeps the size. |
| `TypeSize.SizeModulo` | skv-analyzer/src/main.rs:454-472 | For every type the size is the multiplicity-weighted sum of integer and pointer leaves modulo 2^64, known exactly when the type has such leaves throughout and no struct's checked sum overflows. |
| `TypeSize.SizeIsExact` | skv-analyzer/src/main.rs:454-472 | A known size is the number of bytes exactly when that number fits in 64 bits, zero-length arrays included. |
| `TypeSize.SizeWhenTotalFits` | skv-analyzer/src/main.rs:454-472 | Without zero-length arrays, a total that fits in 64 bits is always reported. |
| `TypeSize.SizedNeedsLeaves` | skv-analyzer/src/main.rs:454-472 | A size exists only for types made of integers and pointers throughout. |
| `TypeSize.ArrayProductWraps` | skv-analyzer/src/main.rs:459-462 | The size of an array of any sized element is the product modulo 2^64, and falls short exactly when the product needs more than 64 bits. |
| `Gep.InferGepOffset` | skv-analyzer/src/main.rs:511-544 | The accumulator loop with its early exits adds up the index products, or gives up, as the rule says. |
| `Gep.SaturationIsHarmless` | skv-analyzer/src/main.rs:511-544 | For every index list, saturating and exact products decide an access of at least one byte alike from a non-negative offset, and from every offset where one largest product already leaves the allocation. |
| `GepSaturation.SaturationMattersIff` | skv-analyzer/src/main.rs:604-605 | For every offset, allocation and access, some index list on a pointer is decided differently by saturating and exact products if and only if an in-bounds position lies at a distance of at least 2^64 - 1 whose residue modulo 4 the saturated products can reach. |
| `TokenC.ReadToken` | skv-analyzer/src/c/attestation_bridge.c:138-167 | The one-pass flag-driven loop computes six independent searches for the first line that parses for a field. |
| `TokenC.LineOrderDoesNotMatter` | skv-analyzer/src/c/attestation_bridge.c:138-167 | Token files that have the same lines per field in the same order have the same fields; the order between fields and all other lines are irrelevant. |
| `TokenZig.LineOrderDoesNotMatter` | skv-analyzer/src/zig/attestation_bridge.zig:72-121 | For Zig the same holds of files whose lines all fit the buffer. |
| `Token.OnePrefix` | skv-analyzer/src/c/attestation_bridge.c:12-92 | A line belongs to at most one field. |
| `TokenC.PrintedTokenParses` | skv-analyzer/src/main.rs:2463-2470 | A token printed with any 64-bit numbers, a nonce of 1 to 249 plain bytes and each flag as `true`, `false`, `1` or `0`, the root flag present or not, is read back field by field, the ring exactly when it fits in 32 bits. |
| `Numerals.StrToLLDec` | skv-analyzer/src/c/attestation_bridge.c:63-75 | `strtoll` reads every printed integer back, cut to 64 bits, whatever follows that is not a digit. |
| `Numerals.StrToLLText` | skv-analyzer/src/c/attestation_bridge.c:63-75 | On white space, an optional sign, digits and any other rest it yields the signed value, cut to 64 bits. |
| `Numerals.StrToLLNothing` | skv-analyzer/src/c/attestation_bridge.c:63-75 | It converts nothing exactly where no digit follows the white space and sign. |
| `Numerals.ZigParseIntDec` | skv-analyzer/src/zig/attestation_bridge.zig:15-18 | Zig's `parseInt` reads every printed integer back if it fits in 64 bits and refuses every other. |
| `TokenZig.ReadToken` | skv-analyzer/src/zig/attestation_bridge.zig:72-121 | Zig's buffered line loop over the file computes the six searches, and rejects exactly when a line or the first nonce does not fit its buffer. |
| `TokenZig.PrintedTokenParses` | skv-analyzer/src/zig/attestation_bridge.zig:7-25 | Zig reads every such token back unchanged, flags of either value and rings of any width included. |
| `Backends.BackendsAgree` | skv-analyzer/src/zig/attestation_bridge.zig:72-165 | On every printed token whose ring fits in 32 bits, with flags of either value, the same clock and a canonical state file, C and Zig make the same decision and store the same text. |
| `Backends.BackendsPartOnWideRings` | skv-analyzer/src/c/attestation_bridge.c:12-25 | For every wider ring there is a required ring under which C accepts a fresh token and Zig denies it. |
| `Backends.UnstatedIsDeniedC` | skv-analyzer/src/c/attestation_bridge.c:27-61 | C denies every token file whose first line with an `attested:` flag does not begin with `true` or `1`, and on ring -2 every one whose first `root_attested:` flag does not, missing flags included. |
| `Backends.UnstatedIsDeniedZig` | skv-analyzer/src/zig/attestation_bridge.zig:72-137 | So does Zig, which also denies every file with a line that does not fit its buffer. |
| `Backends.LoneRunIsAtomic` | skv-analyzer/src/c/attestation_bridge.c:210-289 | The step-by-step protocol run alone has the effect of the one-step replay decision. |
| `Replay.StepInv` | skv-analyzer/src/c/attestation_bridge.c:210-289 | Every step of every process keeps the protocol invariant: one lock holder, a canonical file whenever nobody is between truncating and writing, what was read is still what is stored. |
| `Replay.ReplaySafety` | skv-analyzer/src/c/attestation_bridge.c:210-289 | Over every interleaving of any number of validators, the accepted calls are those of the atomic object in lock order, exactly those have written their counter or returned 1, their counters strictly increase past the initial one, no two share a counter, and at rest the file parses back to the last accepted counter. |
| `ReplayZig.ApartIsSafe` | skv-analyzer/src/zig/attestation_bridge.zig:139-165 | For every schedule of Zig validators in which no read-to-write window overlaps another, accepted counters strictly increase past the initial one, exactly the calls that returned 1 are accepted, no two share a counter, and outside a rewrite the file parses back to the last accepted counter. |
| `ReplayZig.SafeIffApart` | skv-analyzer/src/zig/attestation_bridge.zig:139-165 | For every set of Zig validators and every schedule that lets them finish: no two calls that return 1 share a counter, for all counters and all well-kept files, if and only if no validator takes its first step while another is between its first and its third. |
| `ReplayZig.OverlapAcceptsTwice` | skv-analyzer/src/zig/attestation_bridge.zig:143-164 | In every overlapping schedule, whatever the file holds, the two validators both accept an unused counter they share, and nobody else with a smaller one is accepted. |
| `ReplayZig.BothAcceptOneCounter` | skv-analyzer/src/zig/attestation_bridge.zig:143-164 | Two Zig validators that take turns are an instance of it. |
| `Replay.RejectedCallsLeaveTheFile` | skv-analyzer/src/c/attestation_bridge.c:256-259 | A process that ever changes the file is never rejected. |
| `Replay.AcceptanceUsesUpCounters` | skv-analyzer/src/c/attestation_bridge.c:261-279 | Each acceptance strictly lowers the number of counters left. |
| `Replay.DeadlockFree` | skv-analyzer/src/c/attestation_bridge.c:210-289 | While a call has not returned, some process can take a step. |
| `Replay.StoredCCanonical` | skv-analyzer/src/c/attestation_bridge.c:244-254 | The text written for a counter reads back as that counter. |
| `Replay.BothReadTheSame` | skv-analyzer/src/zig/attestation_bridge.zig:139-156 | C and Zig read the same counter from every empty or validator-written file. |
| `Pipeline.RunExitsZero` | skv-analyzer/src/main.rs:2139-2211 | A run exits 0 exactly when the scan passed, in require mode every seen VC was approved by its id or its class, and for the strict rings every key, signature, age, nonce, ring and counter check held. |
| `Pipeline.FinishZero` | skv-analyzer/src/main.rs:738-750 | The same for every verdict and blocked count, with the HITL policy counting only in require mode. |
| `Pipeline.RunExitCode` | skv-analyzer/src/main.rs:2139-2211 | It exits 20 exactly for an unknown verdict on ring 0 with nothing unapproved, and 10 exactly for a failed scan, an unapproved VC in require mode, or a strict ring that is not attested or not resolved; it aborts exactly when the age subtraction overflows on a strict ring. |
| `Pipeline.FinishCode` | skv-analyzer/src/main.rs:372-436 | The same for every verdict, blocked count, mode, options and host, with no other code possible. |
| `Pipeline.AttestedIsAccept` | skv-analyzer/src/main.rs:1666-1878 | The chain of option checks and the validator's acceptance mean exactly the listed demands, and acceptance stores the token's counter. |
| `Pipeline.StrictRingsNeverExit20` | skv-analyzer/src/main.rs:1840-1878 | Rings -1 and -2 never report an unresolved proof. |
| `Pipeline.TokenCountsOnce` | skv-analyzer/src/main.rs:2139-2211 | A token accepted by one run makes every later run on the state it left behind exit other than 0. |
| `Pipeline.StateChangesOnlyWhenAttested` | skv-analyzer/src/main.rs:1666-1878 | The replay state changes only for an attested strict ring, and then to the token's counter. |
| `TypeImport.TypesBuilder.Import` | skv-analyzer/llvm-ir-patched/src/types.rs:1026-1033 | The import of any reference ends. With unique struct names it panics if and only if an unnamed opaque struct is part of the type, through named structs as well; otherwise it yields the type the graph denotes whatever was imported before, and leaves exactly one definition per registered name. |
| `TypeImport.ExploredIsClean` | skv-analyzer/llvm-ir-patched/src/types.rs:1026-1178 | Once no struct is pending, nothing unsupported can be reached from anything imported. |
| `TypeImport.NumberedOpaqueStruct` | skv-analyzer/llvm-ir-patched/src/types.rs:1159-1164 | The smallest input of the panic: one numbered opaque struct. |
| `TypeImport.TypesBuilder.TypeFromRef` | skv-analyzer/llvm-ir-patched/src/types.rs:1026-1033 | The memoised traversal panics only if an unnamed opaque struct can be reached, and otherwise keeps the tables consistent at every depth: registered names are the disjoint union of defined ones and those in progress. |
| `TypeImport.TypesBuilder.ParseType` | skv-analyzer/llvm-ir-patched/src/types.rs:1035-1154 | Every kind of type, with its parts imported first, or a panic with its cause. |
| `TypeImport.TypesBuilder.ParseNamedStruct` | skv-analyzer/llvm-ir-patched/src/types.rs:1083-1115 | A name is registered before its members are visited; the redefinition panic is out of reach. |
| `TypeImport.TypesBuilder.ParseLiteralStruct` | skv-analyzer/llvm-ir-patched/src/types.rs:1159-1178 | A struct without a name is built from its members, or panics when it is opaque. |
| `TypeMeaning.ImportedSize` | skv-analyzer/src/main.rs:454-472 | For every graph of types imported by a finished builder, the size of an imported type under the imported table is the number of bytes counted on the graph modulo 2^64, unknown exactly when the graph has no count or a struct's checked sum overflows. |
| `TypeMeaning.ImportIsAcyclic` | skv-analyzer/llvm-ir-patched/src/types.rs:1035-1154 | A graph whose structs contain no struct by value that contains them gives an acyclic table. |
| `TypeRoundTrip.RoundTrip` | skv-analyzer/llvm-ir-patched/src/types.rs:1035-1154 | For every table of struct definitions and every type over its names there is a graph that is imported as that type, with widths, lanes, scalability, packing, varargs and address spaces, and whose named structs are imported as that table. |
| `TypeRoundTrip.ImportedTable` | skv-analyzer/llvm-ir-patched/src/types.rs:1083-1115 | Every definition a finished builder enters for such a graph is the table's. |
| `TypeImport.RankDoesNotMatter` | skv-analyzer/llvm-ir-patched/src/types.rs:1035-1154 | What a reference denotes depends on the graph alone. |
| `TypeImport.LookupOrInsert` | skv-analyzer/llvm-ir-patched/src/types.rs:977-1014 | A cache keeps holding, at each key, the constructor applied to that key. |
| `TypeImport.GetForTypeIsIdentity` | skv-analyzer/llvm-ir-patched/src/types.rs:925-965 | Looking a type up yields an equal type, interned or not. |
| `ConstImport.ConstantImporter.FromRef` | skv-analyzer/llvm-ir-patched/src/constant.rs:1428-1437 | The memoised import ends on every acyclic graph, equals the parse without memory whatever was imported earlier, panics included, and never finds its own entry occupied. |
| `ConstImport.PanicsIff` | skv-analyzer/llvm-ir-patched/src/constant.rs:1439-1662 | An import panics exactly when a chain of operands leads to a value the LLVM 19 build cannot handle: a type that does not fit its kind, an opaque struct, an unknown opcode or global, a shuffle. |
| `ConstImport.ConstantImporter.ParseNode` | skv-analyzer/llvm-ir-patched/src/constant.rs:1439-1662 | Operands are imported left to right; only constants of lower rank are added on the way. |
| `ConstMeaning.ImportIff` | skv-analyzer/llvm-ir-patched/src/constant.rs:1439-1662 | For every acyclic graph, a value is imported as a constant exactly when it is that constant node by node, read off the constant: kind, value, width, packing, element and cast types, operands in order, named structs through their definitions. |
| `ConstMeaning.ImportKeepsValue` | skv-analyzer/llvm-ir-patched/src/constant.rs:1439-1662 | Integer arithmetic (`add`, `sub`, `mul`, `xor`, `trunc`, modulo the width) on the imported constant yields what it yields on the graph. |
| `ConstMeaning.RoundTrip` | skv-analyzer/llvm-ir-patched/src/constant.rs:1439-1662 | Every importable constant is the import of some acyclic graph, under any struct definitions. |
| `ConstMeaning.ImportIsImportable` | skv-analyzer/llvm-ir-patched/src/constant.rs:1439-1662 | Every import is importable: the operand counts of its opcodes, a target type for casts and for nothing else, numbers for single and double precision only. |
| `ConstImport.RankDoesNotMatter` | skv-analyzer/llvm-ir-patched/src/constant.rs:1439-1662 | What a reference denotes depends on the graph alone. |
| `Numbering.AllButLast` | skv-analyzer/llvm-ir-patched/src/iterators.rs:118-151 | Draining the iterator yields everything but the last item, nothing for the empty list. |
| `Numbering.FirstPassBlock` | skv-analyzer/llvm-ir-patched/src/basicblock.rs:69-89 | The first pass over a block follows the numbering rule on what needs a name. |
| `Numbering.SecondPassBlock` | skv-analyzer/llvm-ir-patched/src/basicblock.rs:41-66 | The second pass follows it on what has a destination. |
| `Numbering.NameFunction` | skv-analyzer/llvm-ir-patched/src/function.rs:438-490 | Both passes over a whole function, with the terminators split off by the iterator and the second pass restarted after the parameters. |
| `Numbering.SlotsAreExact` | skv-analyzer/llvm-ir-patched/src/basicblock.rs:92-121 | A pass visits every parameter and block, and exactly the instructions and terminators its condition selects. |
| `Numbering.PassesAgree` | skv-analyzer/llvm-ir-patched/src/function.rs:456-490 | For every body the passes end with equal counters and give each place with a result the same name. |
| `Numbering.PassesEqualIff` | skv-analyzer/llvm-ir-patched/src/function.rs:475-479 | The passes differ exactly on values that carry a string without a result, so they are equal exactly when there are none. |
| `ValueNumbers.NamesByPlace` | skv-analyzer/llvm-ir-patched/src/function.rs:438-490 | Either pass names exactly the values with a result (all but stores, fences, void calls and terminators other than invoke, catchswitch and callbr), the first also those with a string; a value is named by its string or else by the number of unnamed such values before it; the counter ends at their number. |
| `Numbering.NumbersAreConsecutive` | skv-analyzer/llvm-ir-patched/src/name.rs:20-28 | Every number below the final counter is given. |
| `Numbering.NumbersIncrease` | skv-analyzer/llvm-ir-patched/src/name.rs:20-28 | Numbers grow in program order and stay below the final counter. |

## Left out

- Ed25519 verification, SHA-256, base64 and hex: their verdicts are inputs (`Host.signatureOk`, `Host.rootSignatureOk`).
- The solver itself: an oracle that is right or gives up.
- LLVM's C API, bitcode and text parsing, debug locations, attributes, metadata, data layout: instructions, types and constants are abstract graphs.
- File ownership, permissions, symbolic links, `chmod`, `fsync`, short writes and crashes: they succeed or a boolean says they did not.
- `fcntl` locks exclude processes, not threads of one process; the protocol model is of processes.
- Real `getelementptr` and struct layout with alignment: the scan does not compute it, so the machine uses the scan's byte rule.
- Control flow: the scan reads blocks in listing order and ignores terminators, and so does the machine.
- `Simulation.ScanDecidesMachine`: the fragment excludes `dma_map_single`, `memset`/`memcpy` on DMA pointers, GEP on slots, overflowing or unknown sizes, unsafe inline assembly, and any inline assembly under the trap policy; outside it the scan answers unknown or does not look.
- `Simulation.StepAgrees`: limited to the same fragment.
- `GepSaturation.SaturationMattersIff`: speaks of pointer bases, the only ones LLVM has; the strides are then 8 and 4.
- `TypeSize.ArrayProductWraps`: a debug build would stop with an overflow panic instead.
- `TypeImport.TypesBuilder.Import`: that a success excludes unsupported parts is stated for graphs with unique struct names, which LLVM guarantees; with equal names the second struct's members are never visited.
- `ConstImport.ConstantImporter.FromRef`: LLVM's operand counts are taken to be those of the type or opcode; a mismatch, which LLVM rules out, counts as a panic.
- `Numbering.NameFunction`: block names and value names, two maps in the source, are one map keyed by place.
- Errors of the front end that end in exit code 1: unreadable modules, unknown options, approval files that do not load.
- Command line, terminal interface, doctor, feature catalog, JSON output, proof traces, equivalence summaries: no hard property.
