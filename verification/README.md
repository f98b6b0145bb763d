# A Dafny model of the EVM contract analyser and its transaction scheduler

This project models the core of a static analyser for EVM bytecode, written
in Rust. The analyser has two halves.

- **Contract analysis.** The analyser splits bytecode into blocks at
  `JUMPDEST`s (`list_functions`). It runs each block on an abstract machine
  whose stack and memory hold symbolic values (`StackValue`). Each block
  records the storage slots it reads and writes, the external calls it
  makes, its outgoing jump edges and its `RETURN` window. The blocks are
  stitched together by substituting a caller's stack and memory into a
  callee's placeholders (`replace_parent_call`, `resolve_node`).
- **The scheduler** (`NetBuilder`). For each submitted transaction, it
  builds a dependency graph from per-contract summaries of the storage each
  method reads and writes and of the calls it makes (`ContractData`). A
  transaction waits for:
  - the constructor of every contract it may touch;
  - earlier writers of the slots it reads;
  - earlier writers and readers of the slots it writes;
  - every transaction whose calls were left to run time.

Everything is modelled as immutable datatypes and pure functions.

- **Panics become results.** Wherever the Rust code panics (an `unwrap`, an
  index out of range, a 256-bit overflow, an `as_usize` of a large word),
  the model returns `Err(fault)` (module `Outcomes`). The model does not
  demand a precondition there.
- **Words.** 256-bit words are naturals below 2^256 (module `Words`).
- **The scheduler's shared state.** The original keeps transactions as
  lock-protected shared objects. The model keeps them in an arena: a map
  from transaction id to a record of its dependents and its count.

Modules, following the source files:

| module | file | models |
|---|---|---|
| `Words`, `Outcomes` | words.dfy, outcomes.dfy | words, bytes, bit operations; `Option`, `Result` and the faults |
| `Values` | values.dfy | `StackValue` and `resolve` (src/evm_types.rs) |
| `MachineState` | machine_state.dfy | `EvmStack` and `EvmMemory` (src/evm_memory.rs) |
| `Substitution` | substitution.dfy | `replace_parent_call` (src/evm_types.rs) |
| `EvmFunctions` | evm_function.dfy | `EvmFunction`, `FunctionRegistry` (src/evm_function.rs) |
| `EvmInstructions` | evm_instructions.dfy | the opcode table and every instruction (src/evm_instructions.rs) |
| `ContractUtils` | contract_utils.dfy | `DataType`, `look_for_calldata`, `get_pubblic_method`, `top_level_data` |
| `CycleResolution` | cycle_resolution.dfy | both `should_go` policies and `get_data` |
| `ContractSummaries` | contract_data.dfy | `ContractData`, `ContractMethod` |
| `FunctionAnalyzer` | function_analyzer.dfy | `single_threded_function_analyzer` |
| `ContractAnalyzer` | contract_analyzer.dfy | `list_functions`, `resolve_node`, `analyze_contract` |
| `Transactions` | transaction.dfy | `Transaction` and its edges (src/net/transaction.rs) |
| `NetBuilding` | netbuilder.dfy | `NetBuilder`, `ContractStorage`, `new_transaction`, `analyze_method` |
| `SimplifyHelpers` | simplify_helpers.dfy | `parse_z3_num`, `make_sv` (src/expression_simplify_sys.rs) |

## Behaviour of the code the model keeps

- **JUMPI.** `JUMPI` records its edge and the block carries on
  (src/evm_instructions.rs:522-543).
- **REVERT.** `REVERT` only ends the block; the effects recorded before it
  stay (src/evm_instructions.rs:673-676).
- **Failures inside a block.** A block can abort: `SHA3` unwraps its folded
  operands, `PUSH` and `CODECOPY` slice the code, and a block that never
  ends indexes past the end of the code (src/evm_instructions.rs:162-680).
  These are the model's `Err` results.
- **`resolve_node`.** It never returns `Some`
  (src/contract_analyzer.rs:94-114; `ContractAnalyzer.ResolveNode`).
- **`CODESECTION`.** `resolve` folds a `CodeSection` into its big-endian
  value, which aborts when the section is longer than 32 bytes
  (src/evm_types.rs:121).
- **The two `Transaction` APIs.** src/net/netbuilder.rs calls
  `Transaction::new(id, run)` and uses a `runtime` field, which
  src/net/transaction.rs lacks. Edge and count semantics here are those of
  src/net/transaction.rs:22-57.
- **The read path's self-lock.** A transaction that reads a slot it wrote
  earlier in the same submission is asked to wait for itself, and the
  submission aborts (src/net/netbuilder.rs:162-171). `NetBuilding.Submit`
  models both this and a corrected read path, selected by `skipSelf`; see
  "## Findings".

## Model

| member | source | states |
|---|---|---|
| Values.Resolve | src/evm_types.rs:110-148 | folding aborts only through word overflow, a code section longer than 32 bytes or a shift amount beyond the usize range |
| Values.ResolveFoldsExactlyFoldable | src/evm_types.rs:110-148 | when folding does not abort, it yields a word exactly for trees built only from literals, code sections, `Add`, `ShL`, `Shr` and `And` |
| Values.ResolveLiteral | src/evm_types.rs:112 | a literal folds to itself |
| Values.ResolveAdd | src/evm_types.rs:113-120 | `Add` folds to the sum iff both operands fold and the sum is a word; it is symbolic iff an operand is symbolic with nothing before it aborting; it overflows iff the sum exceeds 2^256 - 1 or an operand overflows |
| Values.ResolveShiftsAndAnd | src/evm_types.rs:122-145 | `ShL(a, b)`/`Shr(a, b)` fold to `b` shifted by `a`, and `And(a, b)` folds to the bitwise and, when both operands fold; a symbolic right operand keeps all three symbolic |
| Values.ResolveOthers | src/evm_types.rs:146 | every other constructor, the placeholders and `Sub`, `Mul`, `EQ` included, stays symbolic |
| MachineState.LastEdit | src/evm_memory.rs:95-100 | the edit the loop ends up choosing is the last one recorded for the depth; none exists when no edit has that depth |
| MachineState.FirstCell | src/evm_memory.rs:23-28 | the cell `store` removes is the first one written at a syntactically equal offset |
| MachineState.RetrieveMiss | src/evm_memory.rs:32-43 | a read never comes back empty: with no cell at an equal offset it yields the memory placeholder for that offset and length |
| MachineState.RetrieveHit | src/evm_memory.rs:34-38 | otherwise a read yields the newest cell written at an equal offset |
| MachineState.StoreThenRetrieve | src/evm_memory.rs:22-38 | reading back the offset just stored gives the stored value, whatever the length |
| MachineState.RetrieveIgnoresOtherCell | src/evm_memory.rs:34-38 | a cell at a different offset has no influence on a read |
| MachineState.StoreFrame | src/evm_memory.rs:22-31 | storing at one offset leaves reads at every other offset unchanged |
| MachineState.StoreKeepsOffsetsUnique | src/evm_memory.rs:22-29 | storing keeps at most one cell per offset |
| MachineState.RetrieveArrayExact | src/evm_memory.rs:45-64 | a window read returns exactly the cells whose offset and length fold and that lie in `[offset, offset + length]`, each tagged with its folded offset: the selected cells of the log walked newest first, in that order and with repetitions |
| MachineState.Store | src/evm_memory.rs:22-31 | the new cell is the newest; every old cell at another offset is kept, and nothing but old cells and the new one remains |
| MachineState.RetrieveArray | src/evm_memory.rs:45-64 | a window read has at most one tag per cell, and every tag fits a `usize` |
| MachineState.PreviousPop | src/evm_memory.rs:92-105 | taking a caller slot leaves the local items and the deficit alone and forgets one edit exactly when one was recorded for that slot |
| MachineState.PreviousSlot | src/evm_memory.rs:92-114 | a caller slot reads as its placeholder when never edited and otherwise as the last value left there; taking it returns that same value and keeps only recorded edits |
| MachineState.Pop | src/evm_memory.rs:115-122 | a pop lowers the stack height (local items minus borrowed slots) by one; with local items it leaves the borrowed slots and edits alone |
| MachineState.PopReadsTop | src/evm_memory.rs:115-139 | a pop yields what `clone_pos(1)` reads |
| MachineState.Push | src/evm_memory.rs:123-130 | a push raises the stack height by one |
| MachineState.PushThenTop | src/evm_memory.rs:123-139 | with no local items above a borrowed slot, `clone_pos(1)` reads back the value just pushed |
| MachineState.Swap | src/evm_memory.rs:140-152 | a swap keeps the stack height |
| MachineState.PushThenPop | src/evm_memory.rs:115-130 | with no borrowed caller slots, a push followed by a pop returns the value and restores the stack |
| MachineState.PopBelowBottom | src/evm_memory.rs:115-122 | popping an empty local stack raises the deficit by one and yields this block's last edit of that caller slot, or its placeholder |
| MachineState.PopPushPop | src/evm_memory.rs:92-130 | pop, push `v` and pop again on an empty local stack gives back `v` and the state after the first pop |
| MachineState.ClonePosAfterPush | src/evm_memory.rs:123-139 | after a push the new value is first from the top and every local element moves one position down |
| MachineState.ClonePosReadsFromTop | src/evm_memory.rs:106-139 | `clone_pos(n)` is the n-th local element from the top; beyond the local items it is the last edit of the caller slot that far below the deficit, or that slot's placeholder when there is none |
| MachineState.SwapLocal | src/evm_memory.rs:140-144 | within the local items, swap exchanges the top with the element `i` below it, leaves everything else, and undoes itself |
| Substitution.ReplaceInPreimage | src/evm_types.rs:173-182 | substituting inside a hash preimage keeps its length and every offset |
| Substitution.SettledIsFixedPoint | src/evm_types.rs:151-185 | a value with no placeholder reachable through `Add`, `Mul` and `Sha3` is unchanged by substitution against any caller |
| Substitution.SettledPreimageIsFixed | src/evm_types.rs:173-182 | the same for a preimage whose values are all settled |
| Substitution.EmptyCallerChangesNothing | src/evm_types.rs:151-185 | substitution against an empty caller rebuilds every value as itself |
| Substitution.EmptyCallerPreimage | src/evm_types.rs:173-182 | the same for preimages |
| Substitution.PlaceholderReplacement | src/evm_types.rs:157-164 | a stack placeholder becomes the caller's `clone_pos` at its depth; a memory placeholder becomes the caller's newest write at an equal offset, and stays as it is when there is none |
| Substitution.OtherNodesUntouched | src/evm_types.rs:183 | every node other than the placeholders, `Add`, `Mul` and `Sha3` is returned as it is, so a placeholder under `And` survives |
| Substitution.Sha3KeepsOffsets | src/evm_types.rs:173-182 | a substituted hash is a hash with the same number of elements and the same offsets |
| EvmFunctions.New | src/evm_function.rs:60-74 | a new block has position and program counter at the entry, an empty stack and memory, no edges, empty effect sets, is not ended and has no return window |
| EvmFunctions.NewRegistry | src/evm_function.rs:82-87 | the new registry is empty |
| EvmFunctions.GetFromAddress | src/evm_function.rs:89-91 | lookup finds a block iff one is filed at the address, and then it is that block |
| EvmInstructions.Decode | src/evm_instructions.rs:10-151 | exactly the opcodes 0x60 to 0x7f are pushes, of width opcode - 0x5f, between 1 and 32 |
| EvmInstructions.ResolveOrAbort | src/evm_instructions.rs:331-335 | an unwrapped operand succeeds iff it folds to a word, and then it is that word |
| EvmInstructions.MemoryEffect | src/evm_instructions.rs:325-401 | among the memory instructions only SHA3 and CODECOPY can abort |
| EvmInstructions.ExecExtends | src/evm_instructions.rs:162-680 | no instruction changes the code or entry, forgets a recorded effect or moves the counter backwards |
| EvmInstructions.ExecEnds | src/evm_instructions.rs:10-151 | the block is over after an instruction iff it already was or the instruction is STOP, JUMP, RETURN, REVERT, SELFDESTRUCT or unlisted |
| EvmInstructions.ExecAborts | src/evm_instructions.rs:162-680 | only SHA3, CODECOPY and PUSH can abort |
| EvmInstructions.ExecEffectOwners | src/evm_instructions.rs:497-618 | storage reads are recorded only by SLOAD, writes only by SSTORE, external calls only by CALL, edges only by JUMP and JUMPI |
| EvmInstructions.Step | src/evm_instructions.rs:9-152 | one loop iteration strictly advances the counter, keeps every recorded effect, ends the block iff the opcode ends it, and aborts only on SHA3, CODECOPY or PUSH |
| EvmInstructions.Execute | src/evm_instructions.rs:7-154 | a run that succeeds ends the block and keeps every effect recorded before; an ended block is left as it is |
| EvmInstructions.StepBinary | src/evm_instructions.rs:167-324 | a two-operand operator replaces the top two items by one unevaluated node, the old top as first operand |
| EvmInstructions.StepTernary | src/evm_instructions.rs:215-230 | ADDMOD and MULMOD replace the top three items by one node over them, the old top first |
| EvmInstructions.StepSLoad | src/evm_instructions.rs:497-502 | SLOAD pushes a storage-read node for the popped key and adds the key to the read set |
| EvmInstructions.StepSStore | src/evm_instructions.rs:503-508 | SSTORE adds the popped top to the write set, discards the value and pushes nothing |
| EvmInstructions.StepJump | src/evm_instructions.rs:509-521 | JUMP pops the target, ends the block and records the edge with the remaining stack, the memory and no condition |
| EvmInstructions.StepJumpI | src/evm_instructions.rs:522-543 | JUMPI pops target and condition, records the edge with the condition, and does not end the block |
| EvmInstructions.StepReturn | src/evm_instructions.rs:619-625 | RETURN records the pair (second popped, first popped) and ends the block |
| EvmInstructions.StepPush | src/evm_instructions.rs:564-569 | PUSHn succeeds iff its n immediate bytes lie in the code, then pushes their big-endian value and moves the counter n + 1 in all |
| EvmInstructions.StepCall | src/evm_instructions.rs:595-618 | CALL and CALLCODE pop seven values, record the target with the memory read at the given offset and length, and push a call node |
| EvmInstructions.CodeCopyLiteral | src/evm_instructions.rs:381-401 | CODECOPY stores the literal code window exactly when offset and length fold to a window inside the code, and a symbolic copy otherwise |
| EvmInstructions.StepHalts | src/evm_instructions.rs:673-680 | REVERT, SELFDESTRUCT, STOP and unlisted opcodes only end the block; REVERT keeps the effects recorded so far |
| EvmInstructions.StepPushOne | src/evm_instructions.rs:564-569 | PUSH1 pushes its immediate byte and moves the counter by two |
| EvmInstructions.ExecuteReadsSlotZero | src/evm_instructions.rs:497-502 | `PUSH1 0; SLOAD; STOP` reads slot 0, writes nothing and leaves the storage-read node on the stack |
| EvmInstructions.ExecuteConditionalEdge | src/evm_instructions.rs:522-543 | `PUSH1 1; PUSH1 8; JUMPI; STOP` records one conditional edge to 8 with an empty stack |
| EvmInstructions.ExecuteRunsOffCode | src/evm_instructions.rs:8-9 | a block that runs off the end of the code aborts |
| ContractAnalyzer.Width | src/contract_analyzer.rs:126-158 | the scan moves at least one byte, and n + 1 bytes past PUSHn |
| ContractAnalyzer.ListFunctions | src/contract_analyzer.rs:117-163 | the scan's list is 0 followed by the JUMPDEST offsets among the instruction boundaries, in order |
| ContractAnalyzer.StartsRise | src/contract_analyzer.rs:119-160 | every boundary the scan visits lies in the code, and the boundaries strictly rise, so the scan ends |
| ContractAnalyzer.StartsStepOverImmediates | src/contract_analyzer.rs:126-158 | consecutive boundaries are exactly one instruction apart |
| ContractAnalyzer.JumpDestsAreMarkedStarts | src/contract_analyzer.rs:120-125 | an offset is listed iff it is a boundary holding 0x5b |
| ContractAnalyzer.JumpDestsRise | src/contract_analyzer.rs:120-125 | listed offsets lie in the code, hold 0x5b and strictly rise |
| ContractAnalyzer.StartsGap | src/contract_analyzer.rs:126-158 | a later boundary is at least one whole instruction further on |
| ContractAnalyzer.NoEntryInsidePush | src/contract_analyzer.rs:126-158 | no offset inside a PUSH's immediate bytes is listed |
| ContractAnalyzer.ListShape | src/contract_analyzer.rs:118-125 | the list starts with 0, the rest are rising JUMPDEST offsets, and 0 is listed twice iff the code starts with 0x5b |
| ContractAnalyzer.SettledPassesThrough | src/contract_analyzer.rs:100-103 | a settled jump target passes every caller state unchanged |
| ContractAnalyzer.EmptyFramesPassThrough | src/contract_analyzer.rs:100-103 | caller states without stack or memory change no target |
| ContractAnalyzer.ResolveNode | src/contract_analyzer.rs:94-114 | the walk never yields a value: it aborts or returns none |
| ContractAnalyzer.ResolveCalls | src/contract_analyzer.rs:99-113 | the same for the loop over a block's edges |
| ContractAnalyzer.LeafResolvesToNothing | src/contract_analyzer.rs:99-113 | a block without edges resolves to nothing |
| ContractAnalyzer.AnalyzeContract | src/contract_analyzer.rs:74-92 | the analysis succeeds iff the walk from entry 0 does; its result is always the empty summary; on success every listed block ran to its end |
| ContractSummaries.Extend | src/contract_data.rs:60-74 | the union holds exactly the elements of both, keeps the old ones first and adds no duplicates |
| ContractSummaries.ExtendAbsorbs | src/contract_data.rs:60-74 | adding elements already present changes nothing |
| ContractSummaries.ExtendIdempotent | src/contract_data.rs:60-74 | adding the same elements twice is adding them once |
| ContractSummaries.NewMethod | src/contract_data.rs:50-56 | a new method summary is empty |
| ContractSummaries.NewContractData | src/contract_data.rs:17-22 | a new contract summary has an empty constructor and no methods |
| ContractSummaries.AccessRead | src/contract_data.rs:66-68 | the read set becomes the union with the accesses; the other sets are unchanged |
| ContractSummaries.AccessWrite | src/contract_data.rs:60-62 | the write set becomes the union with the accesses; the other sets are unchanged |
| ContractSummaries.MethodCalls | src/contract_data.rs:72-74 | the call set becomes the union with the call sites; the other sets are unchanged |
| ContractSummaries.AccessIdempotent | src/contract_data.rs:60-74 | each of the three additions is idempotent |
| ContractSummaries.GetMethod | src/contract_data.rs:26-32 | a present selector returns its summary and changes nothing; an absent one inserts an empty summary; other selectors and the constructor are untouched |
| ContractSummaries.SetConstructor | src/contract_data.rs:34-36 | only the constructor is replaced |
| ContractSummaries.GetMethodStable | src/contract_data.rs:26-32 | a second lookup of the same selector finds the same summary and adds nothing |
| ContractUtils.LookForCalldataFindsPath | src/contract_utils.rs:54-75 | the search is true iff `CALLDATALOAD(0)` is reachable through `And`, `Xor`, `Or`, `Add`, `Sub`, `Mul`, `Div`, `Shr`, `ShL` and `GT` nodes |
| ContractUtils.CalldataPath | src/contract_utils.rs:54-75 | a successful search yields such a path |
| ContractUtils.PathFindsCalldata | src/contract_utils.rs:54-75 | such a path makes the search succeed |
| ContractUtils.GetPublicMethod | src/contract_utils.rs:29-51 | a selector is returned only for an `EQ` of a literal and an expression over the selector load, the left literal first; otherwise none; the state is ignored |
| ContractUtils.DispatcherGuard | src/contract_utils.rs:29-51 | `selector == CALLDATALOAD(0) >> k`, either way round, is recognised |
| ContractUtils.TopLevelDataShape | src/contract_utils.rs:78-117 | only literals are fields; an unknown location is the expression itself; a struct comes from a sum; a vector or mapping names a hash reachable through sums, of one or two words |
| CycleResolution.GetData | src/cycle_resolution.rs:20-22 | a location is classified as a field iff it is a literal, and an unknown classification keeps the location |
| CycleResolution.Occurrences | src/cycle_resolution.rs:45-47 | the filtered count is the number of occurrences of the address |
| CycleResolution.NoCycleShouldGo | src/cycle_resolution.rs:57-117 | the segment-matching policy, indices in bounds throughout, goes iff the address is not on the path |
| CycleResolution.MaxIterationsShouldGo | src/cycle_resolution.rs:23-50 | the bounded policy goes iff the address occurs at most k times on the path |
| CycleResolution.ShouldGo | src/cycle_resolution.rs:6-13 | either policy as above; the jump origin, registry and condition have no influence |
| CycleResolution.NoCycleIsMaxZero | src/cycle_resolution.rs:45-48 | the bounded policy with bound 0 is the no-cycle policy |
| FunctionAnalyzer.SingleThreadedAnalyzer | src/function_analyzer.rs:8-23 | the registry's keys are the given offsets, a repeated one filed once; each entry is that offset's block run to its end; it fails iff some block aborts |
| Transactions.NewTransaction | src/net/transaction.rs:22-28 | a new transaction has count 0 and no dependents |
| Transactions.Requires | src/net/transaction.rs:29-31 | the count rises by the number and nothing else changes |
| Transactions.RequiredBy | src/net/transaction.rs:32-46 | the edge is added, or already present and nothing changes; a transaction asked to wait for itself is a re-entrant lock |
| Transactions.RequiredByNewEdge | src/net/transaction.rs:41-45 | a new edge raises the target's count by exactly one, appends it to the source's dependents, and touches nothing else |
| Transactions.ListersAfterEdge | src/net/transaction.rs:32-46 | after a new edge only the target gains a lister, the source |
| Transactions.RequiredByKeepsLinks | src/net/transaction.rs:35-45 | dependents stay existing, distinct from their lister and pairwise distinct |
| Transactions.RequiredByKeepsValid | src/net/transaction.rs:32-46 | every count stays the number of transactions listing it |
| Transactions.RequiredByKeepsForward | src/net/transaction.rs:32-46 | an edge from older to newer keeps all edges forward |
| Transactions.DecrementAll | src/net/transaction.rs:47-57 | decrementing keeps the ids and fails only by a count underflow |
| Transactions.DecrementAllExact | src/net/transaction.rs:47-57 | distinct dependents with positive counts each lose exactly one, and nothing else changes |
| Transactions.Ended | src/net/transaction.rs:47-57 | finishing keeps the transaction ids and can fail only by a count underflow |
| Transactions.EndedOnValid | src/net/transaction.rs:47-57 | in a valid arena finishing never underflows: each dependent's count drops by exactly one |
| NetBuilding.NewStorage | src/net/netbuilder.rs:23-29 | a new contract storage has no constructor and no readers or writers |
| NetBuilding.NewNetBuilder | src/net/netbuilder.rs:35-44 | a new scheduler is empty, with counter 0 and threshold 10, and satisfies the scheduler invariant |
| NetBuilding.RegisterContract | src/net/netbuilder.rs:45-48 | the contract gets fresh storage and its summary; transactions and counter are untouched; the invariant is kept |
| NetBuilding.AddEdges | src/net/netbuilder.rs:168-171 | every source other than the transaction gains it as a dependent; the loop fails iff the transaction itself is met without the skip |
| NetBuilding.ReadOne | src/net/netbuilder.rs:164-176 | one read makes the reader wait for the slot's other writers and lists it among the readers; with the skip it never locks itself |
| NetBuilding.AnalyzeReadsWith | src/net/netbuilder.rs:162-177 | the read loop only adds edges towards the transaction, only appends it to reader lists, leaves writers and constructor alone, and with the skip never locks itself |
| NetBuilding.AnalyzeReadsAsWritten | src/net/netbuilder.rs:162-177 | the read loop as written fails, on folding slots, only by a self-lock, and agrees with the corrected loop when it succeeds |
| NetBuilding.AnalyzeReadsSkipAgrees | src/net/netbuilder.rs:162-177 | the skip changes nothing when the loop as written succeeds |
| NetBuilding.SelfReadAfterOwnWrite | src/net/netbuilder.rs:168-171 | a transaction that wrote slot 5 and then reads it locks itself as written, and succeeds with the skip |
| NetBuilding.WriteOne | src/net/netbuilder.rs:182-222 | one write makes the writer wait for the slot's other writers and readers and lists it among the writers only |
| NetBuilding.AnalyzeWrites | src/net/netbuilder.rs:180-223 | the write loop only adds edges towards the transaction, only appends it to writer lists, never locks itself, and leaves the writer waiting for every other earlier writer and reader of each slot written |
| NetBuilding.ReadsJoinReaders | src/net/netbuilder.rs:173-176 | after the read loop every slot read folds and the reader is among its readers |
| NetBuilding.ReadsWaitForWriters | src/net/netbuilder.rs:164-171 | after the read loop the reader waits for every other earlier writer of each slot read |
| NetBuilding.WritesJoinWriters | src/net/netbuilder.rs:219-222 | after the write loop the writer is among the writers of every slot written |
| NetBuilding.AnalyzeMethod | src/net/netbuilder.rs:156-224 | reads then writes: only edges towards the transaction and list appends, the constructor untouched; with `skipSelf` false it is the read path as written, and with `skipSelf` true it never self-locks |
| NetBuilding.MethodEdges | src/net/netbuilder.rs:156-224 | a successfully analysed method has every read and write edge it demands |
| NetBuilding.Compatible | src/net/netbuilder.rs:115-125 | the candidates are exactly the registered contracts' methods with the selector, one per contract |
| NetBuilding.RouteOne | src/net/netbuilder.rs:106-148 | a resolved contract and selector inline that method or fail as missing; a selector alone inlines all candidates when fewer than the threshold, else defers; an unresolved selector defers |
| NetBuilding.RouteCalls | src/net/netbuilder.rs:106-148 | routing only appends the submission to the runtime-dependent list and registered methods to the worklist |
| NetBuilding.ConstructorEdge | src/net/netbuilder.rs:92-101 | a contract not yet charged adds the edge from its constructor; a missing constructor fails |
| NetBuilding.AnalyzeItem | src/net/netbuilder.rs:91-103 | one worklist item changes only its contract's storage and edges towards the transaction; with `skipSelf` true it self-locks only through its own constructor |
| NetBuilding.DrainOne | src/net/netbuilder.rs:89-149 | one item is its storage side and then its routing; nothing else changes; with `skipSelf` true and every constructor analysed so far older than the transaction, it never self-locks |
| NetBuilding.Drain | src/net/netbuilder.rs:88-150 | the worklist changes only edges towards the transaction, its list entries and the runtime-dependent list; with `skipSelf` true it never self-locks |
| NetBuilding.AnalyzeItemEdges | src/net/netbuilder.rs:91-103 | an analysed item has its constructor, read and write edges |
| NetBuilding.DrainFirstItemEdges | src/net/netbuilder.rs:88-103 | the submitted method's edges are in the final arena |
| NetBuilding.SelectorOf | src/net/netbuilder.rs:131-134 | a method records its selector; a constructor records 0 |
| NetBuilding.Open | src/net/netbuilder.rs:79-87 | a constructor submission becomes its contract's constructor, failing when the contract has no storage; a method submission changes nothing |
| NetBuilding.Close | src/net/netbuilder.rs:151-153 | the transaction joins the ready list iff its count is 0 |
| NetBuilding.SubmittedMethod | src/net/netbuilder.rs:63-67 | the summary is the method's for a selector and the constructor's otherwise |
| NetBuilding.Enter | src/net/netbuilder.rs:61-87 | the new transaction takes the counter as id, the counter rises by one, every runtime-dependent transaction gains it as a dependent |
| NetBuilding.Submit | src/net/netbuilder.rs:50-154 | a submission keeps the scheduler invariant, adds exactly one transaction, fails as missing for an unregistered contract or method; `skipSelf` false is the read path as written, and with `skipSelf` true it never self-locks |
| NetBuilding.AddingTransactionKeepsValid | src/net/netbuilder.rs:70 | a new transaction keeps an arena valid |
| NetBuilding.FirstItem | src/net/netbuilder.rs:76 | the worklist starts with the submitted contract's method alone |
| NetBuilding.SubmitUnfolds | src/net/netbuilder.rs:50-154 | a submission is its start, the worklist and the ready check, in that order |
| NetBuilding.SubmitEdgesEndAtNew | src/net/netbuilder.rs:50-154 | every edge a submission adds ends at the new transaction; older counts are unchanged and the new one lists nobody |
| NetBuilding.SubmitTowards | src/net/netbuilder.rs:50-154 | the arena grows only towards the new transaction |
| NetBuilding.SubmitKeepsArenaInvariants | src/net/netbuilder.rs:50-154 | counts stay equal to lister numbers, and edges stay forward, so the graph stays acyclic |
| NetBuilding.SubmitAfterRuntimeDependents | src/net/netbuilder.rs:71-73 | every runtime-dependent transaction precedes the new one |
| NetBuilding.SubmitReadyIffUnblocked | src/net/netbuilder.rs:151-153 | the new transaction is ready iff it waits for nothing |
| NetBuilding.SubmitListsAppendOnly | src/net/netbuilder.rs:156-224 | reader and writer lists only grow, by the new transaction; only a constructor submission changes a constructor, its own |
| NetBuilding.SubmitWaitsForConflicts | src/net/netbuilder.rs:92-103 | the new transaction waits for its contract's constructor unless it is that constructor, for earlier writers of slots it reads, and for earlier writers and readers of slots it writes |
| NetBuilding.AddEdgesSkipDiffers | src/net/netbuilder.rs:168-171 | the edge loop as written either agrees with the skipping loop or fails by a self-lock |
| NetBuilding.ReadOneSkipDiffers | src/net/netbuilder.rs:164-176 | one read as written either agrees with the skipping read or fails by a self-lock |
| NetBuilding.AnalyzeReadsSkipDiffers | src/net/netbuilder.rs:162-177 | the read loop as written either agrees with the skipping loop or fails by a self-lock |
| NetBuilding.AnalyzeMethodSkipDiffers | src/net/netbuilder.rs:156-224 | a method analysed as written either agrees with the skipping analysis or fails by a self-lock |
| NetBuilding.AnalyzeItemSkipDiffers | src/net/netbuilder.rs:91-103 | a worklist item as written either agrees with the skipping one or fails by a self-lock |
| NetBuilding.DrainOneSkipDiffers | src/net/netbuilder.rs:89-149 | one worklist step as written either agrees with the skipping step or fails by a self-lock |
| NetBuilding.DrainStep | src/net/netbuilder.rs:88-90 | a successful step pops the last item and the worklist continues from the new state with one less unit of fuel |
| NetBuilding.DrainSkipDiffers | src/net/netbuilder.rs:88-150 | the worklist as written either agrees with the skipping worklist or fails by a self-lock |
| NetBuilding.SubmitSkipDiffers | src/net/netbuilder.rs:50-154 | a submission as written either agrees with the corrected submission or fails by a self-lock |
| NetBuilding.WriterAnalysed | src/net/netbuilder.rs:156-224 | a method writing slot k and calling back succeeds and leaves the transaction among slot k's writers |
| NetBuilding.ReaderAfterWrite | src/net/netbuilder.rs:162-171 | reading a slot the transaction already wrote locks itself as written and succeeds with the skip |
| NetBuilding.WriterItem | src/net/netbuilder.rs:91-103 | the writing method as a worklist item succeeds on a contract constructed earlier |
| NetBuilding.ReaderItem | src/net/netbuilder.rs:91-103 | the reading method as a worklist item after the write locks itself as written and succeeds with the skip |
| NetBuilding.WriterRoutes | src/net/netbuilder.rs:106-113 | a call back into the same contract with a known selector puts the callee alone on the worklist |
| NetBuilding.WriterStep | src/net/netbuilder.rs:88-149 | the first worklist step analyses the writer and leaves the reader as the only item |
| NetBuilding.ReaderStep | src/net/netbuilder.rs:88-149 | a worklist holding only the reader after the write fails by a self-lock as written and finishes with the skip |
| NetBuilding.DrainSelfLocks | src/net/netbuilder.rs:88-177 | the writer that calls the reader fails by a self-lock in the worklist as written |
| NetBuilding.DrainSkipFinishes | src/net/netbuilder.rs:88-177 | the same worklist finishes with the skip |
| NetBuilding.SubmitAsDrain | src/net/netbuilder.rs:50-154 | a registered submission fails exactly with its worklist's fault, and succeeds when the worklist does |
| NetBuilding.SubmitSelfLocks | src/net/netbuilder.rs:162-171 | submitting a method that writes slot k and calls a method of the same contract reading k fails by a self-lock as written, and succeeds with the skip |
| SimplifyHelpers.DigitValue | src/expression_simplify_sys.rs:91 | a hexadecimal digit is 0-9, a-f or A-F; a binary digit is 0 or 1; the value is below the radix |
| SimplifyHelpers.Accumulate | src/expression_simplify_sys.rs:89-92 | the digit loop succeeds only on valid digits and fails by overflow or an invalid digit |
| SimplifyHelpers.ParseZ3Num | src/expression_simplify_sys.rs:82-105 | fewer than two characters or a base other than `x`/`b` fail; otherwise only an overflow or an invalid digit fails |
| SimplifyHelpers.AccumulateIsPositional | src/expression_simplify_sys.rs:88-93 | with valid digits the loop yields buffer times radix^n plus the digits' positional value, and fails by overflow iff that is not a word |
| SimplifyHelpers.ParseZ3NumValue | src/expression_simplify_sys.rs:86-101 | a numeral of valid digits reads as their positional value, most significant first, and fails iff that value exceeds 2^256 - 1 |
| SimplifyHelpers.ParseZ3NumRejectsBadDigit | src/expression_simplify_sys.rs:91 | a first character that is no digit of the base is rejected |
| SimplifyHelpers.ParseZ3NumExamples | src/expression_simplify_sys.rs:82-105 | `#x1F` is 31, `#b101` is 5, `#x` is 0, `#o7` and `#` fail |
| SimplifyHelpers.MakeSv | src/expression_simplify_sys.rs:76-81 | a bitwise and is rebuilt from its first two operands and needs two; every other kind is unknown |
| SimplifyHelpers.MakeSvFolds | src/expression_simplify_sys.rs:78 | the rebuilt and folds to the bitwise and of its operands' values; an unknown never folds |

## Left out

- Concurrency: `multi_threded_function_analyzer` (src/function_analyzer.rs:25-50) and src/net/net_executor.rs are not modelled. Their point is thread pools, channels and locks.
- Locks and shared ownership: the arena replaces `Arc<Mutex<Transaction>>`. A transaction made to wait for itself would lock itself twice. That is modelled as the fault `ReentrantLock`, not as a deadlock.
- The solver interface: `simplify_sys`, `sv_to_z3` and `form_z3` (src/expression_simplify_sys.rs:8-74) and src/expression_simplifier.rs are foreign calls into Z3. Only the pure helpers are modelled; the solver's declaration kinds are reduced to `BAnd` and everything else.
- Logging and display: src/contract_logger.rs, `log_operation`, `ContractData::display`, `print_memory` and the stack's `Display` only print.
- Run-time delegation: `NetBuilder::finalize` and src/net/runtime_delegation.rs are not modelled. A deferred call is kept as the contract, the selector and the transaction id; the state snapshot is not.
- The `run` callback of `Transaction::new` and its `runtime` field (src/net/netbuilder.rs:53, 70) are not part of this model. The scheduler never calls them.
- `methods_analyzed` (src/net/netbuilder.rs:77, 80) is written but never read, so it is not modelled.
- Hash-map and hash-set iteration order is unspecified. Summaries are duplicate-free sequences in insertion order. The scheduler visits contracts in registration order (`order`). A different order can change the order of the worklist and of the dependents lists, not which edges exist.
- NetBuilding.Drain: the worklist has no cycle protection in the original. A `fuel` bound on the number of items stands for termination, and running out gives `OutOfFuel`. A call cycle therefore ends in `OutOfFuel` here, where the original never terminates.
- ContractAnalyzer.ResolveNode: the walk has no cycle guard in the original. A `fuel` bound on the recursion depth gives `OutOfFuel` where the original would recurse forever.
- The transaction counter is a `nat`. A `usize` counter overflow after 2^64 submissions is not modelled.
- Keccak hashing is never computed: `Sha3` stays a symbolic node in the original too.
- `DataType::value` (src/contract_utils.rs:17-25) is not a separate function. Every variant's first field is named `location`, and the field access stands for it.
- EvmInstructions.CodeCopyValue: a CODECOPY window whose `usize` end passes 2^64 aborts, as in a build with overflow checks; a build without them would wrap.
- src/netbuilder.rs (an empty stub), src/net/mod.rs and src/net/test_macro.rs (test scaffolding) are not part of this model.
- The commented-out code in src/contract_analyzer.rs:11-72, inside `jump`/`jumpi` and in src/cycle_resolution.rs:31-43 is not modelled.

## Findings

| source | as written | input that shows it | evidently intended | confidence | as-written member | corrected member |
|---|---|---|---|---|---|---|
| src/net/netbuilder.rs:162-177 | the read loop calls `required_by` on every writer of the slot, the new transaction included | one submission whose worklist first analyses a method writing slot 5 and then a method reading slot 5: transaction 1 is already among slot 5's writers and is asked to wait for itself, locking its own mutex a second time | skip the transaction's own id, as the write loop does at src/net/netbuilder.rs:188-189 and 205-206 | not executed | NetBuilding.SubmitSelfLocks | NetBuilding.Submit |
