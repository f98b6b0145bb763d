/** Entry discovery and the call-graph walk (src/contract_analyzer.rs). */
module ContractAnalyzer {
  import opened Words
  import opened Outcomes
  import opened Values
  import opened MachineState
  import opened Substitution
  import opened EvmFunctions
  import opened EvmInstructions
  import opened FunctionAnalyzer
  import opened ContractSummaries

  /** How far the scan moves past an opcode: a PUSHn also skips its n
      immediate bytes. */
  function Width(op: byte): (w: nat)
    ensures w >= 1
    ensures 0x60 <= op <= 0x7f ==> w == op - 0x5f + 1
  {
    if 0x60 <= op <= 0x7f then op - 0x5e else 1
  }

  /** The instruction boundaries from `pc` on. */
  function Starts(code: seq<byte>, pc: nat): seq<nat>
    decreases |code| - pc
  {
    if pc >= |code| then [] else [pc] + Starts(code, pc + Width(code[pc]))
  }

  /** The JUMPDEST boundaries from `pc` on: the reference the scan is
      checked against. */
  function JumpDests(code: seq<byte>, pc: nat): seq<nat>
    decreases |code| - pc
  {
    if pc >= |code| then []
    else (if code[pc] == 0x5b then [pc] else []) + JumpDests(code, pc + Width(code[pc]))
  }

  /** The block entries: offset 0, then every JUMPDEST met by a left-to-right
      scan that steps over PUSH immediates. */
  method ListFunctions(code: seq<byte>) returns (list: seq<nat>)
    ensures list == [0] + JumpDests(code, 0)
  {
    list := [0];
    var pc := 0;
    while pc < |code|
      invariant list + JumpDests(code, pc) == [0] + JumpDests(code, 0)
      decreases |code| - pc
    {
      var op := code[pc];
      if op == 0x5b {
        list := list + [pc];
        pc := pc + 1;
      } else if 0x60 <= op <= 0x7f {
        pc := pc + (op - 0x5f) + 1;
      } else {
        pc := pc + 1;
      }
    }
  }

  /** Every boundary lies in the code, after `pc`, and the boundaries rise. */
  lemma {:induction false} StartsRise(code: seq<byte>, pc: nat)
    ensures forall i :: 0 <= i < |Starts(code, pc)| ==> pc <= Starts(code, pc)[i] < |code|
    ensures forall i, j :: 0 <= i < j < |Starts(code, pc)| ==> Starts(code, pc)[i] < Starts(code, pc)[j]
    decreases |code| - pc
  {
    if pc < |code| {
      StartsRise(code, pc + Width(code[pc]));
    }
  }

  /** Consecutive boundaries are exactly one instruction apart, so no
      boundary falls inside a PUSH immediate. */
  lemma {:induction false} StartsStepOverImmediates(code: seq<byte>, pc: nat)
    ensures forall i :: 0 <= i < |Starts(code, pc)| - 1 ==>
              Starts(code, pc)[i] < |code| && Starts(code, pc)[i + 1] == Starts(code, pc)[i] + Width(code[Starts(code, pc)[i]])
    decreases |code| - pc
  {
    StartsRise(code, pc);
    if pc < |code| {
      StartsStepOverImmediates(code, pc + Width(code[pc]));
    }
  }

  /** The listed offsets are exactly the boundaries holding JUMPDEST. */
  lemma {:induction false} JumpDestsAreMarkedStarts(code: seq<byte>, pc: nat, x: nat)
    ensures x in JumpDests(code, pc) <==> x < |code| && x in Starts(code, pc) && code[x] == 0x5b
    decreases |code| - pc
  {
    if pc < |code| {
      JumpDestsAreMarkedStarts(code, pc + Width(code[pc]), x);
    }
  }

  /** The listed JUMPDESTs lie in the code, after `pc`, strictly rising. */
  lemma {:induction false} JumpDestsRise(code: seq<byte>, pc: nat)
    ensures forall i :: 0 <= i < |JumpDests(code, pc)| ==>
              pc <= JumpDests(code, pc)[i] < |code| && code[JumpDests(code, pc)[i]] == 0x5b
    ensures forall i, j :: 0 <= i < j < |JumpDests(code, pc)| ==> JumpDests(code, pc)[i] < JumpDests(code, pc)[j]
    decreases |code| - pc
  {
    if pc < |code| {
      JumpDestsRise(code, pc + Width(code[pc]));
    }
  }

  /** A later boundary is at least one whole instruction further on. */
  lemma StartsGap(code: seq<byte>, s: nat, x: nat)
    requires s < |code| && s in Starts(code, 0) && x in Starts(code, 0) && s < x
    ensures x >= s + Width(code[s])
  {
    var st := Starts(code, 0);
    StartsRise(code, 0);
    StartsStepOverImmediates(code, 0);
    var i :| 0 <= i < |st| && st[i] == s;
    var j :| 0 <= j < |st| && st[j] == x;
    assert i < j;
    assert st[i + 1] == s + Width(code[s]);
    assert i + 1 == j || st[i + 1] < st[j];
  }

  /** No listed offset lies inside the immediate bytes of a PUSH that
      starts at a boundary. */
  lemma NoEntryInsidePush(code: seq<byte>, s: nat, x: nat)
    requires s < |code| && s in Starts(code, 0) && 0x60 <= code[s] <= 0x7f
    requires s < x <= s + (code[s] - 0x5f)
    ensures x !in JumpDests(code, 0)
  {
    JumpDestsAreMarkedStarts(code, 0, x);
    if x in Starts(code, 0) {
      StartsGap(code, s, x);
    }
  }

  /** The entry list starts with 0, then lists JUMPDEST offsets in rising
      order; 0 is listed a second time exactly when the code starts with a
      JUMPDEST. */
  lemma ListShape(code: seq<byte>)
    ensures var list := [0] + JumpDests(code, 0);
            list[0] == 0
            && (forall k :: 1 <= k < |list| ==> list[k] < |code| && code[list[k]] == 0x5b)
            && (forall j, k :: 1 <= j < k < |list| ==> list[j] < list[k])
            && ((|list| > 1 && list[1] == 0) <==> (|code| > 0 && code[0] == 0x5b))
  {
    JumpDestsRise(code, 0);
  }

  /** One caller state on the current path: its stack and memory. */
  type Frame = (Stack, Memory)

  /** Substitutes the caller states into `v`, nearest caller (last pushed)
      first. */
  function SubstituteThrough(v: StackValue, parents: seq<Frame>): StackValue
    decreases |parents|
  {
    if |parents| == 0 then v
    else
      var p := parents[|parents| - 1];
      SubstituteThrough(ReplaceParentCall(v, p.0, p.1), parents[..|parents| - 1])
  }

  /** A value with nothing to substitute passes every caller state
      unchanged. */
  lemma {:induction false} SettledPassesThrough(v: StackValue, parents: seq<Frame>)
    requires Settled(v)
    ensures SubstituteThrough(v, parents) == v
    decreases |parents|
  {
    if |parents| > 0 {
      var p := parents[|parents| - 1];
      SettledIsFixedPoint(v, p.0, p.1);
      SettledPassesThrough(v, parents[..|parents| - 1]);
    }
  }

  /** Caller states pushed without stack or memory change nothing. */
  lemma {:induction false} EmptyFramesPassThrough(v: StackValue, n: nat)
    ensures SubstituteThrough(v, seq(n, _ => (EmptyStack, EmptyMemory))) == v
  {
    if n > 0 {
      var ps := seq(n, _ => (EmptyStack, EmptyMemory));
      assert ps[..n - 1] == seq(n - 1, _ => (EmptyStack, EmptyMemory));
      EmptyCallerChangesNothing(v);
      EmptyFramesPassThrough(v, n - 1);
    }
  }

  /** Follows the outgoing edges of `node` depth first, resolving each
      target through the caller states; the walk stops at the first
      successor that yields a value. Targets that do not fold, do not fit
      a usize or are no block entry abort. */
  function ResolveNode(node: EvmFunction, registry: FunctionRegistry, parents: seq<Frame>, fuel: nat): (r: Result<Option<StackValue>>)
    ensures r.Ok? ==> r.value.None?
    decreases fuel, 1
  {
    ResolveCalls(node.internalCalls, registry, parents, fuel)
  }

  function ResolveCalls(calls: seq<Edge>, registry: FunctionRegistry, parents: seq<Frame>, fuel: nat): (r: Result<Option<StackValue>>)
    ensures r.Ok? ==> r.value.None?
    decreases fuel, 0, |calls|
  {
    if |calls| == 0 then Ok(None)
    else
      var call := calls[0];
      match ResolveOrAbort(SubstituteThrough(call.target, parents))
      case Err(e) => Err(e)
      case Ok(address) =>
        if address >= USIZE_MODULUS then Err(UsizeOverflow)
        else if address !in registry.analyzed then Err(MissingFunction)
        else if fuel == 0 then Err(OutOfFuel)
        else
          match ResolveNode(registry.analyzed[address], registry, parents + [(call.stack, call.memory)], fuel - 1)
          case Err(e) => Err(e)
          case Ok(Some(x)) => Ok(Some(x))
          case Ok(None) => ResolveCalls(calls[1..], registry, parents, fuel)
  }

  /** A block without outgoing edges resolves to nothing. */
  lemma LeafResolvesToNothing(node: EvmFunction, registry: FunctionRegistry, parents: seq<Frame>, fuel: nat)
    requires node.internalCalls == []
    ensures ResolveNode(node, registry, parents, fuel) == Ok(None)
  {
  }

  /** The registry of every listed block, walked from entry 0. */
  function WalkFromEntry(code: seq<byte>, fuel: nat): Result<Option<StackValue>>
    requires CodeFits(code)
  {
    match SingleThreadedAnalyzer(code, [0] + JumpDests(code, 0))
    case Err(e) => Err(e)
    case Ok(registry) =>
      assert ([0] + JumpDests(code, 0))[0] == 0;
      ResolveNode(registry.analyzed[0], registry, [], fuel)
  }

  /** Lists the entries, runs every block and walks the call graph from
      entry 0; the summary handed back is always the empty one. */
  method AnalyzeContract(code: seq<byte>, fuel: nat) returns (r: Result<ContractData>)
    requires CodeFits(code)
    ensures r.Ok? <==> WalkFromEntry(code, fuel).Ok?
    ensures r.Ok? ==> r.value == NewContractData()
    ensures r.Ok? ==> forall x :: x in JumpDests(code, 0) ==> Execute(New(x, code)).Ok?
  {
    var functions := ListFunctions(code);
    match SingleThreadedAnalyzer(code, functions)
    case Err(e) =>
      return Err(e);
    case Ok(registry) =>
      assert functions[0] == 0;
      var start := registry.analyzed[0];
      match ResolveNode(start, registry, [], fuel)
      case Err(e) =>
        return Err(e);
      case Ok(_) =>
        forall x | x in JumpDests(code, 0)
          ensures Execute(New(x, code)).Ok?
        {
          assert x in functions;
          ListedBlockRuns(code, functions, x);
        }
        return Ok(NewContractData());
  }

  /** When the analysis of a list of blocks succeeds, each listed block runs
      to its end. */
  lemma ListedBlockRuns(code: seq<byte>, offsets: seq<nat>, x: nat)
    requires CodeFits(code) && SingleThreadedAnalyzer(code, offsets).Ok? && x in offsets
    ensures Execute(New(x, code)).Ok?
  {
    var k :| 0 <= k < |offsets| && offsets[k] == x;
  }
}
