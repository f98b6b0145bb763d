/** Stitching a block to its caller (`replace_parent_call` in
    src/evm_types.rs): stack and memory placeholders in a callee's value are
    replaced by what the caller's stack and memory hold. */
module Substitution {
  import opened Outcomes
  import opened Values
  import opened MachineState

  /** Replaces a stack placeholder by the caller's stack slot at that depth
      and a memory placeholder by the caller's newest write at that offset.
      Only `Add`, `Mul` and `Sha3` nodes are rebuilt from substituted
      children; every other node is returned as it is. */
  function ReplaceParentCall(v: StackValue, stack: Stack, memory: Memory): StackValue
    decreases v, 1
  {
    if v.StackPaceHolder? then ClonePos(stack, v.depth)
    else if v.MemoryPlaceHolder? then Retrieve(memory, v.offset, v.length)
    else if v.Add? then Add(ReplaceParentCall(v.0, stack, memory), ReplaceParentCall(v.1, stack, memory))
    else if v.Mul? then Mul(ReplaceParentCall(v.0, stack, memory), ReplaceParentCall(v.1, stack, memory))
    else if v.Sha3? then Sha3(ReplaceInPreimage(v.preimage, stack, memory, v))
    else v
  }

  /** Substitutes inside every element of a hash preimage, keeping offsets. */
  function ReplaceInPreimage(ps: seq<Preimage>, stack: Stack, memory: Memory, ghost parent: StackValue): (r: seq<Preimage>)
    requires parent.Sha3? && ps <= parent.preimage
    ensures |r| == |ps|
    ensures forall i :: 0 <= i < |ps| ==> r[i].offset == ps[i].offset
    decreases parent, 0, |ps|
  {
    if |ps| == 0 then []
    else
      ReplaceInPreimage(ps[..|ps| - 1], stack, memory, parent)
        + [Preimage(ps[|ps| - 1].offset, ReplaceParentCall(ps[|ps| - 1].value, stack, memory))]
  }

  /** No placeholder can be reached from `v` through `Add`, `Mul` and `Sha3`
      nodes, the only nodes substitution descends into. */
  predicate Settled(v: StackValue)
  {
    if v.StackPaceHolder? || v.MemoryPlaceHolder? then false
    else if v.Add? || v.Mul? then Settled(v.0) && Settled(v.1)
    else if v.Sha3? then forall i :: 0 <= i < |v.preimage| ==> Settled(v.preimage[i].value)
    else true
  }

  /** A settled value is a fixed point of substitution, whatever the caller. */
  lemma {:induction false} SettledIsFixedPoint(v: StackValue, stack: Stack, memory: Memory)
    requires Settled(v)
    ensures ReplaceParentCall(v, stack, memory) == v
    decreases v, 1
  {
    if v.Add? || v.Mul? {
      SettledIsFixedPoint(v.0, stack, memory);
      SettledIsFixedPoint(v.1, stack, memory);
    } else if v.Sha3? {
      SettledPreimageIsFixed(v.preimage, stack, memory, v);
      assert ReplaceInPreimage(v.preimage, stack, memory, v) == v.preimage;
    }
  }

  lemma {:induction false} SettledPreimageIsFixed(ps: seq<Preimage>, stack: Stack, memory: Memory, parent: StackValue)
    requires parent.Sha3? && ps <= parent.preimage
    requires forall i :: 0 <= i < |ps| ==> Settled(ps[i].value)
    ensures ReplaceInPreimage(ps, stack, memory, parent) == ps
    decreases parent, 0, |ps|
  {
    if |ps| > 0 {
      SettledPreimageIsFixed(ps[..|ps| - 1], stack, memory, parent);
      SettledIsFixedPoint(ps[|ps| - 1].value, stack, memory);
      assert ps[..|ps| - 1] + [ps[|ps| - 1]] == ps;
    }
  }

  /** Stitching against a caller that holds nothing (empty stack, no
      borrowed slots, empty memory) changes nothing: every placeholder is
      rebuilt as itself. */
  lemma {:induction false} EmptyCallerChangesNothing(v: StackValue)
    ensures ReplaceParentCall(v, EmptyStack, EmptyMemory) == v
    decreases v, 1
  {
    if v.Add? || v.Mul? {
      EmptyCallerChangesNothing(v.0);
      EmptyCallerChangesNothing(v.1);
    } else if v.Sha3? {
      EmptyCallerPreimage(v.preimage, v);
      assert ReplaceInPreimage(v.preimage, EmptyStack, EmptyMemory, v) == v.preimage;
    }
  }

  lemma {:induction false} EmptyCallerPreimage(ps: seq<Preimage>, parent: StackValue)
    requires parent.Sha3? && ps <= parent.preimage
    ensures ReplaceInPreimage(ps, EmptyStack, EmptyMemory, parent) == ps
    decreases parent, 0, |ps|
  {
    if |ps| > 0 {
      EmptyCallerPreimage(ps[..|ps| - 1], parent);
      EmptyCallerChangesNothing(ps[|ps| - 1].value);
      assert ps[..|ps| - 1] + [ps[|ps| - 1]] == ps;
    }
  }

  /** A stack placeholder becomes the caller's slot at that depth; a memory
      placeholder becomes the caller's newest write at an equal offset and
      stays as it is when the caller never wrote there. */
  lemma PlaceholderReplacement(stack: Stack, memory: Memory, d: Depth, offset: StackValue, length: StackValue)
    ensures ReplaceParentCall(StackPaceHolder(d), stack, memory) == ClonePos(stack, d)
    ensures (forall j :: 0 <= j < |memory.cells| ==> memory.cells[j].offset != offset) ==>
              ReplaceParentCall(MemoryPlaceHolder(offset, length), stack, memory) == MemoryPlaceHolder(offset, length)
    ensures forall j :: 0 <= j < |memory.cells| && memory.cells[j].offset == offset &&
                        (forall k :: j < k < |memory.cells| ==> memory.cells[k].offset != offset) ==>
              ReplaceParentCall(MemoryPlaceHolder(offset, length), stack, memory) == memory.cells[j].value
  {
    if forall j :: 0 <= j < |memory.cells| ==> memory.cells[j].offset != offset {
      RetrieveMiss(memory, offset, length);
    }
    forall j | 0 <= j < |memory.cells| && memory.cells[j].offset == offset &&
               (forall k :: j < k < |memory.cells| ==> memory.cells[k].offset != offset)
      ensures ReplaceParentCall(MemoryPlaceHolder(offset, length), stack, memory) == memory.cells[j].value
    {
      RetrieveHit(memory, offset, length, j);
    }
  }

  /** Substitution does not descend below any node other than `Add`, `Mul`
      and `Sha3`: a placeholder under `And`, say, stays a placeholder. */
  lemma OtherNodesUntouched(v: StackValue, stack: Stack, memory: Memory)
    requires !(v.StackPaceHolder? || v.MemoryPlaceHolder? || v.Add? || v.Mul? || v.Sha3?)
    ensures ReplaceParentCall(v, stack, memory) == v
  {
  }

  /** A hash keeps its preimage offsets and length under substitution. */
  lemma Sha3KeepsOffsets(ps: seq<Preimage>, stack: Stack, memory: Memory)
    ensures var r := ReplaceParentCall(Sha3(ps), stack, memory);
            r.Sha3? && |r.preimage| == |ps| &&
            forall i :: 0 <= i < |ps| ==> r.preimage[i].offset == ps[i].offset
  {
  }
}
