/** The abstract machine state of one block (src/evm_memory.rs): a "deficit"
    stack whose underflow yields caller placeholders, and a most-recent-wins
    memory log matched by syntactic offset equality. */
module MachineState {
  import opened Words
  import opened Outcomes
  import opened Values

  /** "This block left `value` in its caller's slot `depth`." */
  datatype Edit = Edit(depth: Depth, value: StackValue)

  /** `items` is the block-local stack, bottom first (top is the last element);
      `deficit` counts the caller slots popped so far; `edits` records the
      values pushed into caller slots. */
  datatype Stack = Stack(items: seq<StackValue>, deficit: nat, edits: seq<Edit>)

  const EmptyStack: Stack := Stack([], 0, [])

  /** Index of the last edit recorded for `depth`, if any. */
  function LastEdit(edits: seq<Edit>, depth: nat): (r: Option<nat>)
    ensures r.Some? ==> r.value < |edits| && edits[r.value].depth == depth
    ensures r.Some? ==> forall j :: r.value < j < |edits| ==> edits[j].depth != depth
    ensures r.None? ==> forall j :: 0 <= j < |edits| ==> edits[j].depth != depth
  {
    if |edits| == 0 then None
    else if edits[|edits| - 1].depth == depth then Some(|edits| - 1)
    else LastEdit(edits[..|edits| - 1], depth)
  }

  /** Takes the caller slot `position`: the value this block last stored
      there (and forgets that edit), or a placeholder for it. */
  function PreviousPop(s: Stack, position: Depth): (r: (StackValue, Stack))
    ensures r.1.items == s.items && r.1.deficit == s.deficit
    ensures |r.1.edits| == |s.edits| - (if LastEdit(s.edits, position).Some? then 1 else 0)
  {
    match LastEdit(s.edits, position)
    case None => (StackPaceHolder(position), s)
    case Some(i) => (s.edits[i].value, s.(edits := s.edits[..i] + s.edits[i + 1..]))
  }

  /** Reads the caller slot `position` without forgetting anything. */
  function PreviousClone(s: Stack, position: Depth): StackValue
  {
    match LastEdit(s.edits, position)
    case None => StackPaceHolder(position)
    case Some(i) => s.edits[i].value
  }

  /** Pops the top; below the local items, the next caller slot. */
  function Pop(s: Stack): (r: (StackValue, Stack))
    ensures |r.1.items| - r.1.deficit == |s.items| - s.deficit - 1
    ensures |s.items| > 0 ==> r.1.deficit == s.deficit && r.1.edits == s.edits
  {
    if |s.items| > 0 then (s.items[|s.items| - 1], s.(items := s.items[..|s.items| - 1]))
    else PreviousPop(s.(deficit := s.deficit + 1), s.deficit + 1)
  }

  /** Pushes locally, or, while caller slots are borrowed, back into the
      most recently borrowed caller slot. */
  function Push(s: Stack, v: StackValue): (r: Stack)
    ensures |r.items| - r.deficit == |s.items| - s.deficit + 1
  {
    if s.deficit == 0 then s.(items := s.items + [v])
    else s.(edits := s.edits + [Edit(s.deficit, v)], deficit := s.deficit - 1)
  }

  /** The `position`-th element from the top (1 is the top), reaching into
      the caller's slots beyond the local items. */
  function ClonePos(s: Stack, position: Depth): StackValue
  {
    if position <= |s.items| then s.items[|s.items| - position]
    else PreviousClone(s, s.deficit + (position - |s.items|))
  }

  /** Exchanges the top with the element `i` below it. */
  function Swap(s: Stack, i: nat): (r: Stack)
    ensures |r.items| - r.deficit == |s.items| - s.deficit
  {
    if i < |s.items| then
      var top := |s.items| - 1;
      s.(items := s.items[top := s.items[top - i]][top - i := s.items[top]])
    else
      var (el1, s1) := Pop(s);
      var pre := i - |s1.items|;
      var stDeficit := s1.deficit;
      var (el2, s2) := PreviousPop(s1, stDeficit + pre);
      var s3 := Push(s2, el2);
      s3.(edits := s3.edits + [Edit(stDeficit + pre, el1)])
  }

  /** One memory write: destination expression, value and length expression. */
  datatype Cell = Cell(offset: StackValue, value: StackValue, length: StackValue)

  /** The write log, oldest first. */
  datatype Memory = Memory(cells: seq<Cell>)

  const EmptyMemory: Memory := Memory([])

  /** Index of the first cell written at `offset`, if any. */
  function FirstCell(cells: seq<Cell>, offset: StackValue): (r: Option<nat>)
    ensures r.Some? ==> r.value < |cells| && cells[r.value].offset == offset
    ensures r.Some? ==> forall j :: 0 <= j < r.value ==> cells[j].offset != offset
    ensures r.None? ==> forall j :: 0 <= j < |cells| ==> cells[j].offset != offset
  {
    if |cells| == 0 then None
    else if cells[0].offset == offset then Some(0)
    else match FirstCell(cells[1..], offset)
      case None => None
      case Some(i) => Some(i + 1)
  }

  /** Drops the first cell written at `offset`, then appends the new cell. */
  function Store(m: Memory, offset: StackValue, value: StackValue, length: StackValue): (r: Memory)
    ensures |r.cells| > 0 && r.cells[|r.cells| - 1] == Cell(offset, value, length)
    ensures forall c :: c in m.cells && c.offset != offset ==> c in r.cells
    ensures forall c :: c in r.cells ==> c in m.cells || c == Cell(offset, value, length)
  {
    var kept := match FirstCell(m.cells, offset)
      case None => m.cells
      case Some(i) => m.cells[..i] + m.cells[i + 1..];
    Memory(kept + [Cell(offset, value, length)])
  }

  /** The value most recently written at a syntactically equal offset; on a
      miss a placeholder carrying the offset and length, for the caller to
      resolve. (The original wraps the result in an option that is never
      empty.) */
  function Retrieve(m: Memory, offset: StackValue, length: StackValue): StackValue
    decreases |m.cells|
  {
    if |m.cells| == 0 then MemoryPlaceHolder(offset, length)
    else if m.cells[|m.cells| - 1].offset == offset then m.cells[|m.cells| - 1].value
    else Retrieve(Memory(m.cells[..|m.cells| - 1]), offset, length)
  }

  /** Whether a cell with folded position `pos` and length `len` lies inside
      the window `[offset, offset + length]`, with the original's aborts on
      word overflow of either end and on a position that is no usize. */
  function CellInWindow(pos: U256, len: U256, offset: U256, length: U256): Result<bool>
  {
    if pos < offset then Ok(false)
    else if pos + len >= WORD_MODULUS || offset + length >= WORD_MODULUS then Err(WordOverflow)
    else if pos + len > offset + length then Ok(false)
    else if pos >= USIZE_MODULUS then Err(UsizeOverflow)
    else Ok(true)
  }

  /** The cells, newest first, whose offset and length both fold and that
      lie inside the window, each tagged with its folded offset. Cells whose
      offset or length stays symbolic are skipped. */
  function RetrieveArray(m: Memory, offset: U256, length: U256): (r: Result<seq<Preimage>>)
    ensures r.Ok? ==> |r.value| <= |m.cells| && forall p :: p in r.value ==> p.offset < USIZE_MODULUS
    decreases |m.cells|
  {
    if |m.cells| == 0 then Ok([])
    else
      var c := m.cells[|m.cells| - 1];
      var older := Memory(m.cells[..|m.cells| - 1]);
      match Resolve(c.offset)
      case Err(e) => Err(e)
      case Ok(None) => RetrieveArray(older, offset, length)
      case Ok(Some(pos)) =>
        match Resolve(c.length)
        case Err(e) => Err(e)
        case Ok(None) => RetrieveArray(older, offset, length)
        case Ok(Some(len)) =>
          match CellInWindow(pos, len, offset, length)
          case Err(e) => Err(e)
          case Ok(false) => RetrieveArray(older, offset, length)
          case Ok(true) =>
            match RetrieveArray(older, offset, length)
            case Err(e) => Err(e)
            case Ok(rest) => Ok([Preimage(pos, c.value)] + rest)
  }

  // ---------------------------------------------------------------------
  // Memory properties

  /** No two cells share a syntactic offset. */
  predicate UniqueOffsets(m: Memory)
  {
    forall i, j :: 0 <= i < j < |m.cells| ==> m.cells[i].offset != m.cells[j].offset
  }

  /** A read finds the placeholder when no cell was written at a
      syntactically equal offset. */
  lemma {:induction false} RetrieveMiss(m: Memory, offset: StackValue, length: StackValue)
    requires forall j :: 0 <= j < |m.cells| ==> m.cells[j].offset != offset
    ensures Retrieve(m, offset, length) == MemoryPlaceHolder(offset, length)
    decreases |m.cells|
  {
    if |m.cells| > 0 {
      var init := Memory(m.cells[..|m.cells| - 1]);
      assert m.cells[|m.cells| - 1].offset != offset;
      RetrieveMiss(init, offset, length);
    }
  }

  /** Otherwise a read finds the newest cell written at that offset. */
  lemma {:induction false} RetrieveHit(m: Memory, offset: StackValue, length: StackValue, j: nat)
    requires j < |m.cells| && m.cells[j].offset == offset
    requires forall k :: j < k < |m.cells| ==> m.cells[k].offset != offset
    ensures Retrieve(m, offset, length) == m.cells[j].value
    decreases |m.cells|
  {
    if j < |m.cells| - 1 {
      var init := Memory(m.cells[..|m.cells| - 1]);
      assert m.cells[|m.cells| - 1].offset != offset;
      assert init.cells[j] == m.cells[j];
      RetrieveHit(init, offset, length, j);
    }
  }

  /** A read at the offset just stored returns the stored value. */
  lemma StoreThenRetrieve(m: Memory, offset: StackValue, value: StackValue, length: StackValue, l: StackValue)
    ensures Retrieve(Store(m, offset, value, length), offset, l) == value
  {
  }

  lemma {:induction false} RetrieveIgnoresOtherCell(a: seq<Cell>, b: seq<Cell>, c: Cell, offset: StackValue, l: StackValue)
    requires c.offset != offset
    ensures Retrieve(Memory(a + [c] + b), offset, l) == Retrieve(Memory(a + b), offset, l)
    decreases |b|
  {
    if |b| == 0 {
      assert a + [c] + b == a + [c];
      assert (a + [c])[..|a|] == a;
      assert a + b == a;
    } else {
      var b' := b[..|b| - 1];
      var x := a + [c] + b;
      var y := a + b;
      assert x[..|x| - 1] == a + [c] + b';
      assert y[..|y| - 1] == a + b';
      assert x[|x| - 1] == b[|b| - 1] == y[|y| - 1];
      RetrieveIgnoresOtherCell(a, b', c, offset, l);
    }
  }

  /** Storing at one offset leaves reads at every other offset unchanged. */
  lemma {:induction false} StoreFrame(m: Memory, offset: StackValue, value: StackValue, length: StackValue, other: StackValue, l: StackValue)
    requires other != offset
    ensures Retrieve(Store(m, offset, value, length), other, l) == Retrieve(m, other, l)
  {
    var c := Cell(offset, value, length);
    var fc := FirstCell(m.cells, offset);
    var kept := if fc.Some? then m.cells[..fc.value] + m.cells[fc.value + 1..] else m.cells;
    assert Store(m, offset, value, length).cells == kept + [c] + [];
    RetrieveIgnoresOtherCell(kept, [], c, other, l);
    assert kept + [] == kept;
    if fc.Some? {
      var i := fc.value;
      RetrieveIgnoresOtherCell(m.cells[..i], m.cells[i + 1..], m.cells[i], other, l);
      SplitAround(m.cells, i);
    }
  }

  /** The `k`th element once the element at `x` is dropped. */
  lemma DropAt<T>(s: seq<T>, x: nat, k: nat)
    requires x < |s| && k < |s| - 1
    ensures (s[..x] + s[x + 1..])[k] == s[if k < x then k else k + 1]
  {
  }

  /** A prefix keeps the elements it covers. */
  lemma PrefixAt<T>(s: seq<T>, n: nat, j: nat)
    requires j < n <= |s|
    ensures s[..n][j] == s[j]
  {
  }

  /** A sequence is its part before `i`, its element at `i` and its part after. */
  lemma SplitAround<T>(s: seq<T>, i: nat)
    requires i < |s|
    ensures s[..i] + [s[i]] + s[i + 1..] == s
  {
  }

  /** Storing keeps at most one cell per offset. */
  lemma StoreKeepsOffsetsUnique(m: Memory, offset: StackValue, value: StackValue, length: StackValue)
    requires UniqueOffsets(m)
    ensures UniqueOffsets(Store(m, offset, value, length))
  {
    var cells := m.cells;
    var kept := match FirstCell(cells, offset)
      case None => cells
      case Some(i) => cells[..i] + cells[i + 1..];
    var r := Store(m, offset, value, length).cells;
    assert r == kept + [Cell(offset, value, length)];
    assert forall j :: 0 <= j < |kept| ==> kept[j].offset != offset by {
      match FirstCell(cells, offset)
      case None =>
      case Some(i) =>
        forall j | 0 <= j < |kept| ensures kept[j].offset != offset {
          DropAt(cells, i, j);
        }
    }
    assert forall i, j :: 0 <= i < j < |kept| ==> kept[i].offset != kept[j].offset by {
      match FirstCell(cells, offset)
      case None =>
      case Some(x) =>
        forall i, j | 0 <= i < j < |kept| ensures kept[i].offset != kept[j].offset {
          DropAt(cells, x, i);
          DropAt(cells, x, j);
        }
    }
  }

  /** The tag a selected cell carries in a hashed window. */
  predicate Selected(c: Cell, offset: U256, length: U256)
  {
    IsWord(Resolve(c.offset)) && IsWord(Resolve(c.length)) &&
    CellInWindow(Resolve(c.offset).value.value, Resolve(c.length).value.value, offset, length) == Ok(true)
  }

  /** Cell `j` of `cells` is selected by the window and tags to `p`. */
  ghost predicate Hit(cells: seq<Cell>, j: int, offset: U256, length: U256, p: Preimage)
  {
    0 <= j < |cells| && Selected(cells[j], offset, length)
    && p == Preimage(Resolve(cells[j].offset).value.value, cells[j].value)
  }

  /** A window read is the newest cell's tag, when it is selected, followed
      by the window read of the older cells. */
  lemma RetrieveArrayStep(m: Memory, offset: U256, length: U256)
    requires |m.cells| > 0 && RetrieveArray(m, offset, length).Ok?
    ensures var c := m.cells[|m.cells| - 1];
            var rest := RetrieveArray(Memory(m.cells[..|m.cells| - 1]), offset, length);
            rest.Ok?
            && RetrieveArray(m, offset, length).value
               == (if Selected(c, offset, length) then [Preimage(Resolve(c.offset).value.value, c.value)] else []) + rest.value
  {
  }

  /** A hit among all cells is a hit among the older ones or the newest. */
  lemma HitSplit(cells: seq<Cell>, older: seq<Cell>, offset: U256, length: U256, p: Preimage)
    requires |cells| > 0 && older == cells[..|cells| - 1]
    ensures (exists j :: Hit(cells, j, offset, length, p))
            <==> (exists j :: Hit(older, j, offset, length, p)) || Hit(cells, |cells| - 1, offset, length, p)
  {
    if exists j :: Hit(older, j, offset, length, p) {
      var j :| Hit(older, j, offset, length, p);
      PrefixAt(cells, |cells| - 1, j);
      assert Hit(cells, j, offset, length, p);
    }
    if exists j :: Hit(cells, j, offset, length, p) {
      var j :| Hit(cells, j, offset, length, p);
      if j < |cells| - 1 {
        PrefixAt(cells, |cells| - 1, j);
        assert Hit(older, j, offset, length, p);
      }
    }
  }

  /** The sequence back to front. */
  function Reverse<T>(s: seq<T>): (r: seq<T>)
    ensures |r| == |s| && forall i :: 0 <= i < |s| ==> r[i] == s[|s| - 1 - i]
  {
    if |s| == 0 then [] else [s[|s| - 1]] + Reverse(s[..|s| - 1])
  }

  /** The tags of the selected cells, in the order given: a reference for
      the window read that follows the cells front to back. */
  function SelectedTags(cells: seq<Cell>, offset: U256, length: U256): seq<Preimage>
  {
    if |cells| == 0 then []
    else
      (if Selected(cells[0], offset, length) then [Preimage(Resolve(cells[0].offset).value.value, cells[0].value)] else [])
      + SelectedTags(cells[1..], offset, length)
  }

  /** A window read returns exactly the in-window cells whose offset and
      length fold, each tagged with its folded offset, newest first: the
      selected cells of the reversed log, in order and with repetitions. */
  lemma {:induction false} RetrieveArrayExact(m: Memory, offset: U256, length: U256)
    ensures RetrieveArray(m, offset, length).Ok? ==>
      var r := RetrieveArray(m, offset, length).value;
      && |r| <= |m.cells|
      && (forall p :: p in r <==> exists j :: Hit(m.cells, j, offset, length, p))
      && (|r| > 0 ==> Selected(m.cells[|m.cells| - 1], offset, length) ==>
            r[0] == Preimage(Resolve(m.cells[|m.cells| - 1].offset).value.value, m.cells[|m.cells| - 1].value))
      && r == SelectedTags(Reverse(m.cells), offset, length)
    decreases |m.cells|
  {
    if |m.cells| > 0 && RetrieveArray(m, offset, length).Ok? {
      var older := Memory(m.cells[..|m.cells| - 1]);
      RetrieveArrayExact(older, offset, length);
      RetrieveArrayStep(m, offset, length);
      var r := RetrieveArray(m, offset, length).value;
      var rev := Reverse(m.cells);
      assert rev[1..] == Reverse(older.cells);
      assert rev[0] == m.cells[|m.cells| - 1];
      forall p
        ensures p in r <==> exists j :: Hit(m.cells, j, offset, length, p)
      {
        HitSplit(m.cells, older.cells, offset, length, p);
      }
    }
  }

  // ---------------------------------------------------------------------
  // Stack properties

  /** Reading a caller slot finds the placeholder when this block never
      edited it, and otherwise the last value this block left there; taking
      the slot returns the same value and forgets only that one edit. */
  lemma PreviousSlot(s: Stack, position: Depth)
    ensures (forall j :: 0 <= j < |s.edits| ==> s.edits[j].depth != position) ==>
              PreviousClone(s, position) == StackPaceHolder(position)
    ensures forall j :: (0 <= j < |s.edits| && s.edits[j].depth == position
                         && forall k :: j < k < |s.edits| ==> s.edits[k].depth != position) ==>
              PreviousClone(s, position) == s.edits[j].value
    ensures PreviousPop(s, position).0 == PreviousClone(s, position)
    ensures forall e :: e in PreviousPop(s, position).1.edits ==> e in s.edits
  {
    match LastEdit(s.edits, position)
    case None =>
    case Some(i) =>
      forall j | 0 <= j < |s.edits| && s.edits[j].depth == position
                 && forall k :: j < k < |s.edits| ==> s.edits[k].depth != position
        ensures j == i
      {
      }
      forall e | e in PreviousPop(s, position).1.edits
        ensures e in s.edits
      {
        SplitAround(s.edits, i);
      }
  }

  /** A pop yields what `clone_pos(1)` reads. */
  lemma PopReadsTop(s: Stack)
    ensures Pop(s).0 == ClonePos(s, 1)
  {
  }

  /** A push is read back by `clone_pos(1)` whenever the stack has no local
      items above a borrowed slot. */
  lemma PushThenTop(s: Stack, v: StackValue)
    requires s.deficit == 0 || |s.items| == 0
    ensures ClonePos(Push(s, v), 1) == v
  {
  }

  /** With no borrowed caller slots, a pushed value is popped straight back
      and the stack is restored. */
  lemma PushThenPop(s: Stack, v: StackValue)
    requires s.deficit == 0
    ensures Pop(Push(s, v)) == (v, s)
  {
    assert (s.items + [v])[..|s.items|] == s.items;
  }

  /** Popping an empty local stack borrows the next caller slot: the deficit
      grows by one and the result is the value this block last left in that
      slot, or a placeholder naming it. */
  lemma PopBelowBottom(s: Stack)
    requires |s.items| == 0
    ensures Pop(s).1.deficit == s.deficit + 1
    ensures LastEdit(s.edits, s.deficit + 1).None? ==> Pop(s) == (StackPaceHolder(s.deficit + 1), s.(deficit := s.deficit + 1))
    ensures LastEdit(s.edits, s.deficit + 1).Some? ==> Pop(s).0 == s.edits[LastEdit(s.edits, s.deficit + 1).value].value
  {
  }

  /** Pushing while in deficit records the value for the caller's slot, so a
      pop, a push of `v` and another pop give back `v` and leave the stack as
      after the first pop. */
  lemma PopPushPop(s: Stack, v: StackValue)
    requires |s.items| == 0
    ensures var s1 := Pop(s).1;
            Pop(Push(s1, v)) == (v, s1)
  {
    var s1 := Pop(s).1;
    assert s1.items == [] && s1.deficit == s.deficit + 1;
    var e := s1.edits + [Edit(s1.deficit, v)];
    var s2 := Push(s1, v);
    assert s2 == s1.(edits := e, deficit := s1.deficit - 1);
    assert Pop(s2) == PreviousPop(s1.(edits := e), s1.deficit);
    assert LastEdit(e, s1.deficit) == Some(|s1.edits|);
    assert e[..|s1.edits|] + e[|s1.edits| + 1..] == s1.edits;
  }

  /** Pushing makes the new value the first element from the top and shifts
      every local element one position down. */
  lemma ClonePosAfterPush(s: Stack, v: StackValue, n: Depth)
    requires s.deficit == 0 && n <= |s.items|
    ensures ClonePos(Push(s, v), 1) == v
    ensures ClonePos(Push(s, v), n + 1) == ClonePos(s, n)
  {
  }

  /** `n`-th from the top, for a position inside the local items; for a
      position beyond them, the caller slot that far below the deficit. */
  lemma ClonePosReadsFromTop(s: Stack, n: Depth)
    ensures n <= |s.items| ==> ClonePos(s, n) == s.items[|s.items| - n]
    ensures n <= |s.items| && n == 1 ==> ClonePos(s, n) == Pop(s).0
    ensures n > |s.items| && LastEdit(s.edits, s.deficit + n - |s.items|).None? ==>
              ClonePos(s, n) == StackPaceHolder(s.deficit + n - |s.items|)
    ensures n > |s.items| && LastEdit(s.edits, s.deficit + n - |s.items|).Some? ==>
              ClonePos(s, n) == s.edits[LastEdit(s.edits, s.deficit + n - |s.items|).value].value
  {
  }

  /** Within the local items, `Swap(i)` exchanges the top with the element
      `i` below it and leaves the rest alone; doing it twice restores the
      stack. */
  lemma SwapLocal(s: Stack, i: nat)
    requires i < |s.items|
    ensures var t := Swap(s, i);
            var top := |s.items| - 1;
            && |t.items| == |s.items| && t.deficit == s.deficit && t.edits == s.edits
            && t.items[top] == s.items[top - i] && t.items[top - i] == s.items[top]
            && (forall k :: 0 <= k < |s.items| && k != top && k != top - i ==> t.items[k] == s.items[k])
    ensures Swap(Swap(s, i), i) == s
  {
    var t := Swap(s, i);
    assert |t.items| == |s.items|;
    assert Swap(t, i).items == s.items;
  }
}
