/** One analysed block (`EvmFunction` in src/evm_function.rs) and the
    registry of blocks keyed by entry offset. */
module EvmFunctions {
  import opened Words
  import opened Outcomes
  import opened Values
  import opened MachineState

  /** An outgoing JUMP/JUMPI edge: the target expression, the stack and
      memory at the jump, and the branch condition (none for JUMP). */
  datatype Edge = Edge(target: StackValue, stack: Stack, memory: Memory, condition: Option<StackValue>)

  /** The memory window a RETURN hands back, in the original's order: the
      second value popped (the length) first, then the first (the offset). */
  datatype ReturnArea = ReturnArea(length: StackValue, offset: StackValue)

  /** A host slice is never longer than the host's address space. */
  predicate CodeFits(code: seq<byte>)
  {
    |code| < USIZE_MODULUS
  }

  datatype EvmFunction = EvmFunction(
    position: nat,
    code: seq<byte>,
    stack: Stack,
    memory: Memory,
    ended: bool,
    pc: nat,
    returnValue: Option<ReturnArea>,
    internalCalls: seq<Edge>,
    storageRead: set<StackValue>,
    storageWrite: set<StackValue>,
    externalCalls: set<CallSite>)

  /** A block about to be interpreted from `position`: nothing executed,
      nothing recorded. */
  function New(position: nat, code: seq<byte>): (f: EvmFunction)
    ensures f.position == position && f.pc == position && f.code == code
    ensures f.stack == EmptyStack && f.memory == EmptyMemory
    ensures !f.ended && f.returnValue.None?
    ensures f.internalCalls == [] && f.storageRead == {} && f.storageWrite == {} && f.externalCalls == {}
  {
    EvmFunction(position, code, EmptyStack, EmptyMemory, false, position, None, [], {}, {}, {})
  }

  /** Blocks keyed by entry offset. `inAnalysis` is carried over from the
      original, which never reads it. */
  datatype FunctionRegistry = FunctionRegistry(analyzed: map<nat, EvmFunction>, inAnalysis: seq<nat>)

  function NewRegistry(): (r: FunctionRegistry)
    ensures r.analyzed == map[] && r.inAnalysis == []
  {
    FunctionRegistry(map[], [])
  }

  /** Plain lookup by entry offset. */
  function GetFromAddress(r: FunctionRegistry, address: nat): (f: Option<EvmFunction>)
    ensures f.Some? <==> address in r.analyzed
    ensures f.Some? ==> f.value == r.analyzed[address]
  {
    if address in r.analyzed then Some(r.analyzed[address]) else None
  }
}
