/** Symbolic stack values: an immutable expression tree standing for a word the
    analyser could not (or chose not to) compute. Mirrors `StackValue` of
    src/evm_types.rs, together with its partial constant folder `resolve`. */
module Values {
  import opened Words
  import opened Outcomes

  /** Offset of a placeholder below the bottom of a block's own stack; the
      interpreter only ever creates depths of one or more. */
  type Depth = n: nat | n >= 1 witness 1

  datatype StackValue =
    | ActualValue(word: U256)
    | Calldata
    | Unknown
    | Add(0: StackValue, 1: StackValue)
    | Mul(0: StackValue, 1: StackValue)
    | Sub(0: StackValue, 1: StackValue)
    | Div(0: StackValue, 1: StackValue)
    | SDiv(0: StackValue, 1: StackValue)
    | Mod(0: StackValue, 1: StackValue)
    | SMod(0: StackValue, 1: StackValue)
    | AddMod(0: StackValue, 1: StackValue, 2: StackValue)
    | MulMod(0: StackValue, 1: StackValue, 2: StackValue)
    | Exp(0: StackValue, 1: StackValue)
    | SignExtend(0: StackValue, 1: StackValue)
    | LT(0: StackValue, 1: StackValue)
    | GT(0: StackValue, 1: StackValue)
    | SLT(0: StackValue, 1: StackValue)
    | SGT(0: StackValue, 1: StackValue)
    | EQ(0: StackValue, 1: StackValue)
    | IsZero(0: StackValue)
    | And(0: StackValue, 1: StackValue)
    | Or(0: StackValue, 1: StackValue)
    | Xor(0: StackValue, 1: StackValue)
    | Not(0: StackValue)
    | Byte(0: StackValue, 1: StackValue)
    | ShL(0: StackValue, 1: StackValue)
    | Shr(0: StackValue, 1: StackValue)
    | Sar(0: StackValue, 1: StackValue)
    | Sha3(preimage: seq<Preimage>)
    | Address
    | Balance(0: StackValue)
    | Origin
    | Caller
    | CallValue
    | CallDataLoad(0: StackValue)
    | CallDataSize
    | CalldataCopy(0: StackValue, 1: StackValue)
    | CodeSize
    | CodeCopy(0: StackValue, 1: StackValue)
    | GasPrice
    | ExtCodeSize(0: StackValue)
    | ExtCodeCopy(0: StackValue, 1: StackValue, 2: StackValue)
    | ReturnDataSize
    | ReturnDataCopy(0: StackValue, 1: StackValue)
    | ExtCodeHash(0: StackValue)
    | Blockhash(0: StackValue)
    | CoinBase
    | TimeStamp
    | Number
    | Difficulty
    | GasLimit
    | SLoad(0: StackValue)
    | PC
    | MSize
    | Gas
    | Create(0: StackValue, 1: StackValue, 2: StackValue)
    | Call(0: StackValue, 1: StackValue, 2: StackValue, 3: StackValue, 4: StackValue, 5: StackValue, 6: StackValue)
    | CallCode(0: StackValue, 1: StackValue, 2: StackValue, 3: StackValue, 4: StackValue, 5: StackValue, 6: StackValue)
    | DelegateCall(0: StackValue, 1: StackValue, 2: StackValue, 3: StackValue, 4: StackValue, 5: StackValue)
    | Create2(0: StackValue, 1: StackValue, 2: StackValue, 3: StackValue)
    | StaticCall(0: StackValue, 1: StackValue, 2: StackValue, 3: StackValue, 4: StackValue, 5: StackValue)
    | CodeSection(bytes: seq<byte>)
    | StackPaceHolder(depth: Depth)
    | MemoryPlaceHolder(offset: StackValue, length: StackValue)

  /** One element of a hashed memory window: the word found in memory,
      tagged with the concrete byte offset it was stored at. */
  datatype Preimage = Preimage(offset: nat, value: StackValue)

  /** An external call site: the callee expression and the call data
      reconstructed from memory. */
  datatype CallSite = CallSite(target: StackValue, data: StackValue)

  /** Values built only from literals, code sections and the four operators
      the folder evaluates. */
  predicate Foldable(v: StackValue)
  {
    if v.ActualValue? || v.CodeSection? then true
    else if v.Add? || v.ShL? || v.Shr? || v.And? then Foldable(v.0) && Foldable(v.1)
    else false
  }

  /** The three outcomes of folding: a word, no word, or an abort. */
  predicate IsWord(r: Result<Option<U256>>)
  {
    r.Ok? && r.value.Some?
  }

  /** Partial constant folding. A literal folds to itself and a code section
      to its big-endian value; `Add`, `ShL`, `Shr` and `And` fold when both
      operands fold; everything else is left symbolic. The operand order of
      evaluation matters for the aborts and is kept: `Add` folds its left
      operand first, the other three their right operand first. */
  function Resolve(v: StackValue): (r: Result<Option<U256>>)
    ensures r.Err? ==> r.fault in {WordOverflow, SliceTooLong, UsizeOverflow}
  {
    if v.ActualValue? then Ok(Some(v.word))
    else if v.CodeSection? then
      if |v.bytes| <= 32 then BigEndianIsWord(v.bytes); Ok(Some(BigEndian(v.bytes))) else Err(SliceTooLong)
    else if v.Add? then
      (match Resolve(v.0)
       case Err(e) => Err(e)
       case Ok(None) => Ok(None)
       case Ok(Some(x)) =>
         (match Resolve(v.1)
          case Err(e) => Err(e)
          case Ok(None) => Ok(None)
          case Ok(Some(y)) => if x + y < WORD_MODULUS then Ok(Some(x + y)) else Err(WordOverflow)))
    else if v.ShL? || v.Shr? || v.And? then
      (match Resolve(v.1)
       case Err(e) => Err(e)
       case Ok(None) => Ok(None)
       case Ok(Some(x)) =>
         (match Resolve(v.0)
          case Err(e) => Err(e)
          case Ok(None) => Ok(None)
          case Ok(Some(y)) =>
            if v.And? then Ok(Some(BitAnd(x, y)))
            else if y >= USIZE_MODULUS then Err(UsizeOverflow)
            else if v.ShL? then Ok(Some(ShiftLeft(x, y)))
            else Ok(Some(ShiftRight(x, y)))))
    else Ok(None)
  }

  /** Folding yields a word exactly for the trees built from literals, code
      sections, `Add`, `ShL`, `Shr` and `And`, unless it aborts. */
  lemma {:induction false} ResolveFoldsExactlyFoldable(v: StackValue)
    ensures Resolve(v).Ok? ==> (Resolve(v).value.Some? <==> Foldable(v))
  {
    if v.Add? || v.ShL? || v.Shr? || v.And? {
      ResolveFoldsExactlyFoldable(v.0);
      ResolveFoldsExactlyFoldable(v.1);
    }
  }

  /** A literal folds to itself. */
  lemma ResolveLiteral(x: U256)
    ensures Resolve(ActualValue(x)) == Ok(Some(x))
  {
  }

  /** `Add` folds to the sum exactly when both operands fold and the sum is a
      word; it is symbolic exactly when an operand is symbolic and nothing
      before it aborted. */
  lemma ResolveAdd(a: StackValue, b: StackValue, n: U256)
    ensures Resolve(Add(a, b)) == Ok(Some(n)) <==>
      IsWord(Resolve(a)) && IsWord(Resolve(b)) && Resolve(a).value.value + Resolve(b).value.value == n
    ensures Resolve(Add(a, b)) == Ok(None) <==>
      Resolve(a) == Ok(None) || (IsWord(Resolve(a)) && Resolve(b) == Ok(None))
    ensures Resolve(Add(a, b)) == Err(WordOverflow) <==>
      Resolve(a) == Err(WordOverflow) ||
      (IsWord(Resolve(a)) && Resolve(b) == Err(WordOverflow)) ||
      (IsWord(Resolve(a)) && IsWord(Resolve(b)) && Resolve(a).value.value + Resolve(b).value.value >= WORD_MODULUS)
  {
  }

  /** `ShL(a, b)` is `b` shifted left by `a`, `Shr(a, b)` is `b` shifted right
      by `a`, and `And(a, b)` their bitwise and, each only when both operands
      fold (and the shift amount fits a usize). */
  lemma ResolveShiftsAndAnd(a: StackValue, b: StackValue)
    ensures IsWord(Resolve(a)) && IsWord(Resolve(b)) && Resolve(a).value.value < USIZE_MODULUS ==>
      Resolve(ShL(a, b)) == Ok(Some(ShiftLeft(Resolve(b).value.value, Resolve(a).value.value))) &&
      Resolve(Shr(a, b)) == Ok(Some(ShiftRight(Resolve(b).value.value, Resolve(a).value.value)))
    ensures IsWord(Resolve(a)) && IsWord(Resolve(b)) ==>
      Resolve(And(a, b)) == Ok(Some(BitAnd(Resolve(b).value.value, Resolve(a).value.value)))
    ensures Resolve(b) == Ok(None) ==>
      Resolve(ShL(a, b)) == Ok(None) && Resolve(Shr(a, b)) == Ok(None) && Resolve(And(a, b)) == Ok(None)
  {
    ResolveShift(ShL(a, b));
    ResolveShift(Shr(a, b));
    ResolveShift(And(a, b));
  }

  /** One of the right-first folding nodes, unfolded once. */
  lemma ResolveShift(v: StackValue)
    requires v.ShL? || v.Shr? || v.And?
    ensures Resolve(v.1) == Ok(None) ==> Resolve(v) == Ok(None)
    ensures IsWord(Resolve(v.1)) && IsWord(Resolve(v.0)) ==>
      var x := Resolve(v.1).value.value;
      var y := Resolve(v.0).value.value;
      Resolve(v) == if v.And? then Ok(Some(BitAnd(x, y)))
                    else if y >= USIZE_MODULUS then Err(UsizeOverflow)
                    else if v.ShL? then Ok(Some(ShiftLeft(x, y)))
                    else Ok(Some(ShiftRight(x, y)))
  {
  }

  /** Every constructor outside the folding set stays symbolic, placeholders
      and `Sub`, `Mul` and `EQ` included. */
  lemma ResolveOthers(v: StackValue)
    requires !(v.ActualValue? || v.CodeSection? || v.Add? || v.ShL? || v.Shr? || v.And?)
    ensures Resolve(v) == Ok(None)
  {
  }
}
