/** The block interpreter (src/evm_instructions.rs): a 256-way opcode table
    and one abstract step per instruction over the block's symbolic stack,
    memory and recorded effects. Jumps are not followed: they end (JUMP) or
    continue (JUMPI) the block and are recorded as edges for stitching. */
module EvmInstructions {
  import opened Words
  import opened Outcomes
  import opened Values
  import opened MachineState
  import opened EvmFunctions

  /** Two-operand operators; each pops its first operand from the top. */
  datatype BinaryOp =
    | AddOp | MulOp | SubOp | DivOp | SDivOp | ModOp | SModOp | ExpOp | SignExtendOp
    | LtOp | GtOp | SltOp | SgtOp | EqOp | AndOp | OrOp | XorOp | ByteOp | ShlOp | ShrOp | SarOp

  /** One-operand operators and environment reads of one operand. */
  datatype UnaryOp = IsZeroOp | NotOp | BalanceOp | CallDataLoadOp | ExtCodeSizeOp | ExtCodeHashOp | BlockhashOp

  /** The decoded instruction set. `Env(v)` covers the operand-free
      environment reads, each pushing its own symbolic node `v`. */
  datatype Instr =
    | Stop | Binary(op: BinaryOp) | AddModI | MulModI | Unary(uop: UnaryOp) | Sha3I | Env(node: StackValue)
    | CallDataCopyI | CodeCopyI | ExtCodeCopyI | ReturnDataCopyI
    | PopI | MLoad | MStore | MStore8 | SLoadI | SStore | Jump | JumpI | PcI | JumpDest
    | PushI(width: nat) | Dup(n: Depth) | SwapI(k: nat) | Log(topics: nat)
    | CreateI | CallI | ReturnI | DelegateCallI | Create2I | StaticCallI | Revert | SelfDestruct | Invalid

  function BinaryNode(op: BinaryOp, a: StackValue, b: StackValue): StackValue
  {
    match op
    case AddOp => Add(a, b)
    case MulOp => Mul(a, b)
    case SubOp => Sub(a, b)
    case DivOp => Div(a, b)
    case SDivOp => SDiv(a, b)
    case ModOp => Mod(a, b)
    case SModOp => SMod(a, b)
    case ExpOp => Exp(a, b)
    case SignExtendOp => SignExtend(a, b)
    case LtOp => LT(a, b)
    case GtOp => GT(a, b)
    case SltOp => SLT(a, b)
    case SgtOp => SGT(a, b)
    case EqOp => EQ(a, b)
    case AndOp => And(a, b)
    case OrOp => Or(a, b)
    case XorOp => Xor(a, b)
    case ByteOp => Byte(a, b)
    case ShlOp => ShL(a, b)
    case ShrOp => Shr(a, b)
    case SarOp => Sar(a, b)
  }

  function UnaryNode(op: UnaryOp, a: StackValue): StackValue
  {
    match op
    case IsZeroOp => IsZero(a)
    case NotOp => Not(a)
    case BalanceOp => Balance(a)
    case CallDataLoadOp => CallDataLoad(a)
    case ExtCodeSizeOp => ExtCodeSize(a)
    case ExtCodeHashOp => ExtCodeHash(a)
    case BlockhashOp => Blockhash(a)
  }

  /** The opcode table, split by opcode range. */
  function Decode(op: byte): (i: Instr)
    ensures 0x60 <= op <= 0x7f <==> i.PushI?
    ensures i.PushI? ==> i.width == op - 0x5f && 1 <= i.width <= 32
  {
    if op < 0x20 then DecodeArith(op)
    else if op < 0x50 then DecodeEnv(op)
    else if op < 0x60 then DecodeFlow(op)
    else if op < 0xb0 then DecodeStackOps(op)
    else DecodeSystem(op)
  }

  /** Opcodes 0x00 to 0x1f: halting and arithmetic. */
  function DecodeArith(op: byte): (i: Instr)
    requires op < 0x20
    ensures !i.PushI?
  {
    if op == 0x00 then Stop
    else if op == 0x01 then Binary(AddOp)
    else if op == 0x02 then Binary(MulOp)
    else if op == 0x03 then Binary(SubOp)
    else if op == 0x04 then Binary(DivOp)
    else if op == 0x05 then Binary(SDivOp)
    else if op == 0x06 then Binary(ModOp)
    else if op == 0x07 then Binary(SModOp)
    else if op == 0x08 then AddModI
    else if op == 0x09 then MulModI
    else if op == 0x0a then Binary(ExpOp)
    else if op == 0x0b then Binary(SignExtendOp)
    else if op == 0x10 then Binary(LtOp)
    else if op == 0x11 then Binary(GtOp)
    else if op == 0x12 then Binary(SltOp)
    else if op == 0x13 then Binary(SgtOp)
    else if op == 0x14 then Binary(EqOp)
    else if op == 0x15 then Unary(IsZeroOp)
    else if op == 0x16 then Binary(AndOp)
    else if op == 0x17 then Binary(OrOp)
    else if op == 0x18 then Binary(XorOp)
    else if op == 0x19 then Unary(NotOp)
    else if op == 0x1a then Binary(ByteOp)
    else if op == 0x1b then Binary(ShlOp)
    else if op == 0x1c then Binary(ShrOp)
    else if op == 0x1d then Binary(SarOp)
    else Invalid
  }

  /** Opcodes 0x20 to 0x4f: hashing and environment reads. */
  function DecodeEnv(op: byte): (i: Instr)
    requires 0x20 <= op < 0x50
    ensures !i.PushI?
  {
    if op == 0x20 then Sha3I
    else if op == 0x30 then Env(Address)
    else if op == 0x31 then Unary(BalanceOp)
    else if op == 0x32 then Env(Origin)
    else if op == 0x33 then Env(Caller)
    else if op == 0x34 then Env(CallValue)
    else if op == 0x35 then Unary(CallDataLoadOp)
    else if op == 0x36 then Env(CallDataSize)
    else if op == 0x37 then CallDataCopyI
    else if op == 0x38 then Env(CodeSize)
    else if op == 0x39 then CodeCopyI
    else if op == 0x3a then Env(GasPrice)
    else if op == 0x3b then Unary(ExtCodeSizeOp)
    else if op == 0x3c then ExtCodeCopyI
    else if op == 0x3d then Env(ReturnDataSize)
    else if op == 0x3e then ReturnDataCopyI
    else if op == 0x3f then Unary(ExtCodeHashOp)
    else if op == 0x40 then Unary(BlockhashOp)
    else if op == 0x41 then Env(CoinBase)
    else if op == 0x42 then Env(TimeStamp)
    else if op == 0x43 then Env(Number)
    else if op == 0x44 then Env(Difficulty)
    else if op == 0x45 then Env(GasLimit)
    else Invalid
  }

  /** Opcodes 0x50 to 0x5f: stack, memory, storage and flow. */
  function DecodeFlow(op: byte): (i: Instr)
    requires 0x50 <= op < 0x60
    ensures !i.PushI?
  {
    if op == 0x50 then PopI
    else if op == 0x51 then MLoad
    else if op == 0x52 then MStore
    else if op == 0x53 then MStore8
    else if op == 0x54 then SLoadI
    else if op == 0x55 then SStore
    else if op == 0x56 then Jump
    else if op == 0x57 then JumpI
    else if op == 0x58 then PcI
    else if op == 0x59 then Env(MSize)
    else if op == 0x5a then Env(Gas)
    else if op == 0x5b then JumpDest
    else Invalid
  }

  /** Opcodes 0x60 to 0xaf: pushes, duplications, swaps and logs. */
  function DecodeStackOps(op: byte): (i: Instr)
    requires 0x60 <= op < 0xb0
    ensures 0x60 <= op <= 0x7f <==> i.PushI?
    ensures i.PushI? ==> i.width == op - 0x5f && 1 <= i.width <= 32
  {
    if 0x60 <= op <= 0x7f then PushI(op - 0x5f)
    else if 0x80 <= op <= 0x8f then Dup(op - 0x7f)
    else if 0x90 <= op <= 0x9f then SwapI(op - 0x8f)
    else if 0xa0 <= op <= 0xa4 then Log(op - 0xa0)
    else Invalid
  }

  /** Opcodes 0xb0 to 0xff: calls, creation and returns. */
  function DecodeSystem(op: byte): (i: Instr)
    requires 0xb0 <= op
    ensures !i.PushI?
  {
    if op == 0xf0 then CreateI
    else if op == 0xf1 || op == 0xf2 then CallI
    else if op == 0xf3 then ReturnI
    else if op == 0xf4 then DelegateCallI
    else if op == 0xf5 then Create2I
    else if op == 0xfa then StaticCallI
    else if op == 0xfd then Revert
    else if op == 0xff then SelfDestruct
    else Invalid
  }

  /** Pops `n` values; the first element of the result is the old top. */
  function PopN(s: Stack, n: nat): (r: (seq<StackValue>, Stack))
    ensures |r.0| == n
    decreases n
  {
    if n == 0 then ([], s)
    else
      var (v, s1) := Pop(s);
      var (vs, s2) := PopN(s1, n - 1);
      ([v] + vs, s2)
  }

  /** Folds an operand whose word the original unwraps. */
  function ResolveOrAbort(v: StackValue): (r: Result<U256>)
    ensures r.Ok? <==> IsWord(Resolve(v))
    ensures r.Ok? ==> r.value == Resolve(v).value.value
  {
    match Resolve(v)
    case Err(e) => Err(e)
    case Ok(None) => Err(UnresolvedOperand)
    case Ok(Some(x)) => Ok(x)
  }

  /** What CODECOPY stores: the literal code bytes when the code offset and
      length fold and the window lies inside the code, a symbolic copy
      otherwise. Offsets that do not fit a usize abort, as does a window end
      past the usize range. */
  function CodeCopyValue(code: seq<byte>, codeOffset: StackValue, length: StackValue): Result<StackValue>
  {
    match Resolve(codeOffset)
    case Err(e) => Err(e)
    case Ok(None) => Ok(CodeCopy(codeOffset, length))
    case Ok(Some(a)) =>
      match Resolve(length)
      case Err(e) => Err(e)
      case Ok(None) => Ok(CodeCopy(codeOffset, length))
      case Ok(Some(b)) =>
        if a >= USIZE_MODULUS || b >= USIZE_MODULUS || a + b >= USIZE_MODULUS then Err(UsizeOverflow)
        else if a + b <= |code| then Ok(CodeSection(code[a..a + b]))
        else Ok(CodeCopy(codeOffset, length))
  }

  /** The big-endian word held by the `n` code bytes from `start`. */
  function Immediate(code: seq<byte>, start: nat, n: nat): U256
    requires n <= 32 && start + n <= |code|
  {
    BigEndianIsWord(code[start..start + n]);
    BigEndian(code[start..start + n])
  }

  /** The instructions after which the block is over. */
  predicate Ends(i: Instr)
  {
    i.Stop? || i.Jump? || i.ReturnI? || i.Revert? || i.SelfDestruct? || i.Invalid?
  }

  /** The instructions whose only effect is on the stack. */
  predicate StackOnly(i: Instr)
  {
    i.Binary? || i.AddModI? || i.MulModI? || i.Unary? || i.Env? || i.PopI? || i.MLoad? || i.PcI?
    || i.JumpDest? || i.Dup? || i.SwapI? || i.Log? || i.CreateI? || i.DelegateCallI? || i.Create2I?
    || i.StaticCallI?
  }

  /** The stack after a stack-only instruction at program counter `pc`. */
  function StackEffect(i: Instr, s: Stack, pc: U256, memory: Memory): Stack
    requires StackOnly(i)
  {
    match i
    case Binary(op) =>
      var (vs, s1) := PopN(s, 2);
      Push(s1, BinaryNode(op, vs[0], vs[1]))
    case AddModI =>
      var (vs, s1) := PopN(s, 3);
      Push(s1, AddMod(vs[0], vs[1], vs[2]))
    case MulModI =>
      var (vs, s1) := PopN(s, 3);
      Push(s1, MulMod(vs[0], vs[1], vs[2]))
    case Unary(op) =>
      var (a, s1) := Pop(s);
      Push(s1, UnaryNode(op, a))
    case Env(v) => Push(s, v)
    case PopI => Pop(s).1
    case MLoad =>
      var (offset, s1) := Pop(s);
      Push(s1, Retrieve(memory, offset, ActualValue(32)))
    case PcI => Push(s, ActualValue(pc))
    case JumpDest => s
    case Dup(n) => Push(s, ClonePos(s, n))
    case SwapI(k) => Swap(s, k)
    case Log(topics) => PopN(s, 2 + topics).1
    case CreateI =>
      var (vs, s1) := PopN(s, 3);
      Push(s1, Create(vs[0], vs[1], vs[2]))
    case DelegateCallI =>
      var (vs, s1) := PopN(s, 6);
      Push(s1, DelegateCall(vs[0], vs[1], vs[2], vs[3], vs[4], vs[5]))
    case Create2I =>
      var (vs, s1) := PopN(s, 4);
      Push(s1, Create2(vs[0], vs[1], vs[2], vs[3]))
    case StaticCallI =>
      var (vs, s1) := PopN(s, 6);
      Push(s1, StaticCall(vs[0], vs[1], vs[2], vs[3], vs[4], vs[5]))
  }

  /** The instructions whose only effects are on the stack and memory. */
  predicate MemoryOnly(i: Instr)
  {
    i.Sha3I? || i.CallDataCopyI? || i.CodeCopyI? || i.ExtCodeCopyI? || i.ReturnDataCopyI?
    || i.MStore? || i.MStore8?
  }

  /** The stack and memory after a memory instruction, or its abort. */
  function MemoryEffect(i: Instr, code: seq<byte>, s: Stack, m: Memory): (r: Result<(Stack, Memory)>)
    requires MemoryOnly(i) && CodeFits(code)
    ensures r.Err? ==> i.Sha3I? || i.CodeCopyI?
  {
    match i
    case Sha3I =>
      var (vs, s1) := PopN(s, 2);
      (match ResolveOrAbort(vs[0])
       case Err(e) => Err(e)
       case Ok(offset) =>
         (match ResolveOrAbort(vs[1])
          case Err(e) => Err(e)
          case Ok(length) =>
            (match RetrieveArray(m, offset, length)
             case Err(e) => Err(e)
             case Ok(ps) => Ok((Push(s1, Sha3(ps)), m)))))
    case CallDataCopyI =>
      var (vs, s1) := PopN(s, 3);
      Ok((s1, Store(m, vs[2], CalldataCopy(vs[0], vs[1]), vs[0])))
    case CodeCopyI =>
      var (vs, s1) := PopN(s, 3);
      (match CodeCopyValue(code, vs[1], vs[2])
       case Err(e) => Err(e)
       case Ok(v) => Ok((s1, Store(m, vs[0], v, vs[2]))))
    case ExtCodeCopyI =>
      var (vs, s1) := PopN(s, 4);
      Ok((s1, Store(m, vs[2], ExtCodeCopy(vs[3], vs[1], vs[0]), vs[0])))
    case ReturnDataCopyI =>
      var (vs, s1) := PopN(s, 3);
      Ok((s1, Store(m, vs[2], ReturnDataCopy(vs[1], vs[0]), vs[0])))
    case MStore =>
      var (vs, s1) := PopN(s, 2);
      Ok((s1, Store(m, vs[0], vs[1], ActualValue(32))))
    case MStore8 =>
      var (vs, s1) := PopN(s, 2);
      Ok((s1, Store(m, vs[0], vs[1], ActualValue(1))))
  }

  /** The effect of one instruction, before the program counter moves on. */
  function Exec(i: Instr, f: EvmFunction): Result<EvmFunction>
    requires f.pc < |f.code| && CodeFits(f.code)
  {
    if StackOnly(i) then Ok(f.(stack := StackEffect(i, f.stack, f.pc, f.memory)))
    else if MemoryOnly(i) then
      match MemoryEffect(i, f.code, f.stack, f.memory)
      case Err(e) => Err(e)
      case Ok((s, m)) => Ok(f.(stack := s, memory := m))
    else if i.SLoadI? then
      var (address, s) := Pop(f.stack);
      Ok(f.(stack := Push(s, SLoad(address)), storageRead := f.storageRead + {address}))
    else if i.SStore? then
      var (vs, s) := PopN(f.stack, 2);
      Ok(f.(stack := s, storageWrite := f.storageWrite + {vs[0]}))
    else if i.Jump? then
      var (target, s) := Pop(f.stack);
      Ok(f.(stack := s, ended := true, internalCalls := f.internalCalls + [Edge(target, s, f.memory, None)]))
    else if i.JumpI? then
      var (vs, s) := PopN(f.stack, 2);
      Ok(f.(stack := s, internalCalls := f.internalCalls + [Edge(vs[0], s, f.memory, Some(vs[1]))]))
    else if i.PushI? then
      var n := i.width;
      if f.pc + n + 1 > |f.code| then Err(PushOutOfCode)
      else if n <= 32 then Ok(f.(pc := f.pc + n, stack := Push(f.stack, ActualValue(Immediate(f.code, f.pc + 1, n)))))
      else Err(SliceTooLong)
    else if i.CallI? then
      var (vs, s) := PopN(f.stack, 7);
      var data := Retrieve(f.memory, vs[3], vs[4]);
      Ok(f.(stack := Push(s, Call(vs[0], vs[1], vs[2], vs[3], vs[4], vs[5], vs[6])),
            externalCalls := f.externalCalls + {CallSite(vs[1], data)}))
    else if i.ReturnI? then
      var (vs, s) := PopN(f.stack, 2);
      Ok(f.(stack := s, returnValue := Some(ReturnArea(vs[1], vs[0])), ended := true))
    else
      // STOP, REVERT, SELFDESTRUCT and the undefined opcodes.
      Ok(f.(ended := true))
  }

  /** `g` is a later state of the same block as `f`: same code and entry,
      and every effect recorded in `f` still recorded. */
  predicate Extends(f: EvmFunction, g: EvmFunction)
  {
    g.code == f.code && g.position == f.position
    && f.storageRead <= g.storageRead && f.storageWrite <= g.storageWrite
    && f.externalCalls <= g.externalCalls && f.internalCalls <= g.internalCalls
  }

  /** An instruction keeps the block's code and entry, never forgets a
      recorded effect and never moves the counter backwards. */
  lemma ExecExtends(i: Instr, f: EvmFunction)
    requires f.pc < |f.code| && CodeFits(f.code)
    ensures Exec(i, f).Ok? ==> Extends(f, Exec(i, f).value) && Exec(i, f).value.pc >= f.pc
  {
  }

  /** The block is over after an instruction exactly when it was already
      over or the instruction is one of the ending ones. */
  lemma ExecEnds(i: Instr, f: EvmFunction)
    requires f.pc < |f.code| && CodeFits(f.code)
    ensures Exec(i, f).Ok? ==> (Exec(i, f).value.ended <==> f.ended || Ends(i))
  {
    if StackOnly(i) {
      ExecEndsStackOnly(i, f);
    } else if MemoryOnly(i) {
      ExecEndsMemoryOnly(i, f);
    } else {
      ExecEndsOther(i, f);
    }
  }

  /** Stack-only instructions always succeed and never end the block. */
  lemma ExecEndsStackOnly(i: Instr, f: EvmFunction)
    requires f.pc < |f.code| && CodeFits(f.code) && StackOnly(i)
    ensures Exec(i, f).Ok? && Exec(i, f).value.ended == f.ended && !Ends(i)
  {
  }

  /** Memory instructions never end the block. */
  lemma ExecEndsMemoryOnly(i: Instr, f: EvmFunction)
    requires f.pc < |f.code| && CodeFits(f.code) && MemoryOnly(i)
    ensures Exec(i, f).Ok? ==> Exec(i, f).value.ended == f.ended && !Ends(i)
  {
  }

  /** The remaining instructions end the block exactly when they are ending ones. */
  lemma ExecEndsOther(i: Instr, f: EvmFunction)
    requires f.pc < |f.code| && CodeFits(f.code) && !StackOnly(i) && !MemoryOnly(i)
    ensures Exec(i, f).Ok? ==> (Exec(i, f).value.ended <==> f.ended || Ends(i))
  {
  }

  /** Only SHA3, CODECOPY and PUSH can abort. */
  lemma ExecAborts(i: Instr, f: EvmFunction)
    requires f.pc < |f.code| && CodeFits(f.code)
    ensures Exec(i, f).Err? ==> i.Sha3I? || i.CodeCopyI? || i.PushI?
  {
  }

  /** Each kind of effect is recorded by its own instructions only: storage
      reads by SLOAD, writes by SSTORE, external calls by CALL, edges by
      JUMP and JUMPI. */
  lemma ExecEffectOwners(i: Instr, f: EvmFunction)
    requires f.pc < |f.code| && CodeFits(f.code)
    ensures Exec(i, f).Ok? && !i.SLoadI? ==> Exec(i, f).value.storageRead == f.storageRead
    ensures Exec(i, f).Ok? && !i.SStore? ==> Exec(i, f).value.storageWrite == f.storageWrite
    ensures Exec(i, f).Ok? && !i.CallI? ==> Exec(i, f).value.externalCalls == f.externalCalls
    ensures Exec(i, f).Ok? && !(i.Jump? || i.JumpI?) ==> Exec(i, f).value.internalCalls == f.internalCalls
  {
    if StackOnly(i) || MemoryOnly(i) {
      ExecKeepsEffects(i, f);
    } else {
      ExecEffectOwnersOther(i, f);
    }
  }

  /** Stack and memory instructions record no effect at all. */
  lemma ExecKeepsEffects(i: Instr, f: EvmFunction)
    requires f.pc < |f.code| && CodeFits(f.code) && (StackOnly(i) || MemoryOnly(i))
    ensures Exec(i, f).Ok? ==>
              Exec(i, f).value.storageRead == f.storageRead && Exec(i, f).value.storageWrite == f.storageWrite
              && Exec(i, f).value.externalCalls == f.externalCalls && Exec(i, f).value.internalCalls == f.internalCalls
    ensures !i.SLoadI? && !i.SStore? && !i.CallI? && !i.Jump? && !i.JumpI?
  {
  }

  /** The remaining instructions record only the effects they own. */
  lemma ExecEffectOwnersOther(i: Instr, f: EvmFunction)
    requires f.pc < |f.code| && CodeFits(f.code) && !StackOnly(i) && !MemoryOnly(i)
    ensures Exec(i, f).Ok? && !i.SLoadI? ==> Exec(i, f).value.storageRead == f.storageRead
    ensures Exec(i, f).Ok? && !i.SStore? ==> Exec(i, f).value.storageWrite == f.storageWrite
    ensures Exec(i, f).Ok? && !i.CallI? ==> Exec(i, f).value.externalCalls == f.externalCalls
    ensures Exec(i, f).Ok? && !(i.Jump? || i.JumpI?) ==> Exec(i, f).value.internalCalls == f.internalCalls
  {
  }

  /** Opcodes after which the block is over. */
  predicate EndsBlock(op: byte)
  {
    Ends(Decode(op))
  }

  /** One iteration of the interpreter loop: execute the instruction at the
      program counter, then advance the counter by one (a PUSH has already
      stepped over its immediate bytes). */
  function Step(f: EvmFunction): (r: Result<EvmFunction>)
    requires f.pc < |f.code| && CodeFits(f.code)
    ensures r.Ok? ==> Extends(f, r.value) && r.value.pc > f.pc
    ensures r.Ok? ==> (r.value.ended <==> f.ended || EndsBlock(f.code[f.pc]))
    ensures r.Err? ==> var i := Decode(f.code[f.pc]); i.Sha3I? || i.CodeCopyI? || i.PushI?
    ensures r.Ok? && !Decode(f.code[f.pc]).SLoadI? ==> r.value.storageRead == f.storageRead
    ensures r.Ok? && !Decode(f.code[f.pc]).SStore? ==> r.value.storageWrite == f.storageWrite
    ensures r.Ok? && !Decode(f.code[f.pc]).CallI? ==> r.value.externalCalls == f.externalCalls
    ensures r.Ok? && !(Decode(f.code[f.pc]).Jump? || Decode(f.code[f.pc]).JumpI?) ==>
              r.value.internalCalls == f.internalCalls
  {
    var i := Decode(f.code[f.pc]);
    ExecExtends(i, f);
    ExecEnds(i, f);
    ExecAborts(i, f);
    ExecEffectOwners(i, f);
    match Exec(i, f)
    case Err(e) => Err(e)
    case Ok(g) => Ok(g.(pc := g.pc + 1))
  }

  /** Runs the block until it ends. Reaching the end of the code without an
      ending instruction aborts, as indexing past the code does. */
  function Execute(f: EvmFunction): (r: Result<EvmFunction>)
    requires CodeFits(f.code)
    ensures r.Ok? ==> r.value.ended && Extends(f, r.value)
    ensures r.Ok? && f.ended ==> r.value == f
    decreases if f.pc < |f.code| then |f.code| - f.pc else 0
  {
    if f.ended then Ok(f)
    else if f.pc >= |f.code| then Err(PcOutOfCode)
    else
      match Step(f)
      case Err(e) => Err(e)
      case Ok(g) => Execute(g)
  }

  /** A two-operand operator on a local stack replaces the top two items
      by one node whose first operand is the old top. */
  lemma StepBinary(f: EvmFunction)
    requires f.pc < |f.code| && CodeFits(f.code) && Decode(f.code[f.pc]).Binary?
    requires f.stack.deficit == 0 && |f.stack.items| >= 2
    ensures var n := |f.stack.items|;
            Step(f) == Ok(f.(pc := f.pc + 1, stack := f.stack.(items :=
              f.stack.items[..n - 2] + [BinaryNode(Decode(f.code[f.pc]).op, f.stack.items[n - 1], f.stack.items[n - 2])])))
  {
    StepIs(f, Decode(f.code[f.pc]));
    var n := |f.stack.items|;
    assert f.stack.items[..n - 1][..n - 2] == f.stack.items[..n - 2];
  }

  /** ADDMOD and MULMOD on a local stack replace the top three items by one
      node over them, the old top first. */
  lemma StepTernary(f: EvmFunction)
    requires f.pc < |f.code| && CodeFits(f.code) && (f.code[f.pc] == 0x08 || f.code[f.pc] == 0x09)
    requires f.stack.deficit == 0 && |f.stack.items| >= 3
    ensures var n := |f.stack.items|;
            var a := f.stack.items[n - 1];
            var b := f.stack.items[n - 2];
            var c := f.stack.items[n - 3];
            Step(f) == Ok(f.(pc := f.pc + 1, stack := f.stack.(items :=
              f.stack.items[..n - 3] + [if f.code[f.pc] == 0x08 then AddMod(a, b, c) else MulMod(a, b, c)])))
  {
    DecodeKnown(f.code[f.pc]);
    var n := |f.stack.items|;
    assert f.stack.items[..n - 1][..n - 2] == f.stack.items[..n - 2];
    assert f.stack.items[..n - 2][..n - 3] == f.stack.items[..n - 3];
    if f.code[f.pc] == 0x08 {
      StepIs(f, AddModI);
    } else {
      StepIs(f, MulModI);
    }
  }

  /** SLOAD pushes a storage-read node for the popped key and records the key. */
  lemma StepSLoad(f: EvmFunction)
    requires f.pc < |f.code| && CodeFits(f.code) && f.code[f.pc] == 0x54
    requires f.stack.deficit == 0 && |f.stack.items| >= 1
    ensures var n := |f.stack.items|;
            var key := f.stack.items[n - 1];
            Step(f) == Ok(f.(pc := f.pc + 1, stack := f.stack.(items := f.stack.items[..n - 1] + [SLoad(key)]),
                             storageRead := f.storageRead + {key}))
  {
    DecodeKnown(f.code[f.pc]);
    StepIs(f, SLoadI);
  }

  /** SSTORE records the popped key as written and discards the value. */
  lemma StepSStore(f: EvmFunction)
    requires f.pc < |f.code| && CodeFits(f.code) && f.code[f.pc] == 0x55
    requires f.stack.deficit == 0 && |f.stack.items| >= 2
    ensures var n := |f.stack.items|;
            Step(f) == Ok(f.(pc := f.pc + 1, stack := f.stack.(items := f.stack.items[..n - 2]),
                             storageWrite := f.storageWrite + {f.stack.items[n - 1]}))
  {
    DecodeKnown(f.code[f.pc]);
    StepIs(f, SStore);
    var n := |f.stack.items|;
    assert f.stack.items[..n - 1][..n - 2] == f.stack.items[..n - 2];
  }

  /** JUMP ends the block and records an unconditional edge carrying the
      state left after popping the target. */
  lemma StepJump(f: EvmFunction)
    requires f.pc < |f.code| && CodeFits(f.code) && f.code[f.pc] == 0x56
    ensures var (target, s) := Pop(f.stack);
            Step(f) == Ok(f.(pc := f.pc + 1, stack := s, ended := true,
                             internalCalls := f.internalCalls + [Edge(target, s, f.memory, None)]))
  {
    DecodeKnown(f.code[f.pc]);
    StepIs(f, Jump);
  }

  /** JUMPI records a conditional edge and carries on with the fall-through. */
  lemma StepJumpI(f: EvmFunction)
    requires f.pc < |f.code| && CodeFits(f.code) && f.code[f.pc] == 0x57
    ensures var (target, s1) := Pop(f.stack);
            var (condition, s2) := Pop(s1);
            Step(f) == Ok(f.(pc := f.pc + 1, stack := s2,
                             internalCalls := f.internalCalls + [Edge(target, s2, f.memory, Some(condition))]))
    ensures Step(f).Ok? && (Step(f).value.ended <==> f.ended)
  {
    DecodeKnown(f.code[f.pc]);
    StepIs(f, JumpI);
  }

  /** The opcodes the single-step lemmas below are about. */
  lemma DecodeKnown(op: byte)
    ensures op == 0x08 ==> Decode(op) == AddModI
    ensures op == 0x09 ==> Decode(op) == MulModI
    ensures op == 0x54 ==> Decode(op) == SLoadI
    ensures op == 0x55 ==> Decode(op) == SStore
    ensures op == 0x56 ==> Decode(op) == Jump
    ensures op == 0x57 ==> Decode(op) == JumpI
    ensures op == 0xf1 || op == 0xf2 ==> Decode(op) == CallI
    ensures op == 0xf3 ==> Decode(op) == ReturnI
  {
  }

  /** A step runs the decoded instruction and moves past it. */
  lemma StepIs(f: EvmFunction, i: Instr)
    requires f.pc < |f.code| && CodeFits(f.code) && Decode(f.code[f.pc]) == i
    ensures Step(f) == match Exec(i, f) case Err(e) => Err(e) case Ok(g) => Ok(g.(pc := g.pc + 1))
  {
  }

  /** RETURN ends the block and remembers the pair (second popped, first
      popped). */
  lemma StepReturn(f: EvmFunction)
    requires f.pc < |f.code| && CodeFits(f.code) && f.code[f.pc] == 0xf3
    ensures var (offset, s1) := Pop(f.stack);
            var (length, s2) := Pop(s1);
            Step(f) == Ok(f.(pc := f.pc + 1, stack := s2, ended := true,
                             returnValue := Some(ReturnArea(length, offset))))
  {
    DecodeKnown(f.code[f.pc]);
    StepIs(f, ReturnI);
  }

  /** PUSHn succeeds exactly when its immediate bytes lie inside the code;
      it then pushes their big-endian value and steps over them. */
  lemma StepPush(f: EvmFunction)
    requires f.pc < |f.code| && CodeFits(f.code) && 0x60 <= f.code[f.pc] <= 0x7f
    ensures var n := f.code[f.pc] - 0x5f;
            Step(f).Ok? <==> f.pc + n + 1 <= |f.code|
    ensures var n := f.code[f.pc] - 0x5f;
            Step(f).Ok? ==>
              Step(f).value == f.(pc := f.pc + n + 1,
                                  stack := Push(f.stack, ActualValue(Immediate(f.code, f.pc + 1, n))))
    ensures Step(f).Err? ==> Step(f).fault == PushOutOfCode
  {
    StepIs(f, Decode(f.code[f.pc]));
  }

  /** CALL's effect before the counter moves. */
  lemma ExecCall(f: EvmFunction)
    requires f.pc < |f.code| && CodeFits(f.code)
    ensures var (vs, s) := PopN(f.stack, 7);
            Exec(CallI, f) == Ok(f.(stack := Push(s, Call(vs[0], vs[1], vs[2], vs[3], vs[4], vs[5], vs[6])),
                                    externalCalls := f.externalCalls + {CallSite(vs[1], Retrieve(f.memory, vs[3], vs[4]))}))
  {
  }

  /** CALL records the target with the memory it sends, and pushes a call
      node over the seven popped operands. */
  lemma StepCall(f: EvmFunction)
    requires f.pc < |f.code| && CodeFits(f.code) && (f.code[f.pc] == 0xf1 || f.code[f.pc] == 0xf2)
    ensures var (vs, s) := PopN(f.stack, 7);
            Step(f) == Ok(f.(pc := f.pc + 1,
                             stack := Push(s, Call(vs[0], vs[1], vs[2], vs[3], vs[4], vs[5], vs[6])),
                             externalCalls := f.externalCalls + {CallSite(vs[1], Retrieve(f.memory, vs[3], vs[4]))}))
  {
    DecodeKnown(f.code[f.pc]);
    StepIs(f, CallI);
    ExecCall(f);
    var g := Exec(CallI, f).value;
    assert Step(f) == Ok(g.(pc := g.pc + 1));
  }

  /** CODECOPY stores the literal code window exactly when the code offset
      and length fold to a window inside the code. */
  lemma CodeCopyLiteral(code: seq<byte>, codeOffset: StackValue, length: StackValue)
    requires CodeFits(code)
    ensures CodeCopyValue(code, codeOffset, length).Ok? && CodeCopyValue(code, codeOffset, length).value.CodeSection?
            <==> IsWord(Resolve(codeOffset)) && IsWord(Resolve(length))
                 && Resolve(codeOffset).value.value + Resolve(length).value.value <= |code|
    ensures CodeCopyValue(code, codeOffset, length).Ok? && CodeCopyValue(code, codeOffset, length).value.CodeSection? ==>
              var a := Resolve(codeOffset).value.value;
              CodeCopyValue(code, codeOffset, length).value.bytes == code[a..a + Resolve(length).value.value]
    ensures CodeCopyValue(code, codeOffset, length).Ok? && !CodeCopyValue(code, codeOffset, length).value.CodeSection? ==>
              CodeCopyValue(code, codeOffset, length).value == CodeCopy(codeOffset, length)
  {
  }

  /** The ending instructions other than JUMP and RETURN change nothing but
      the end flag and the counter: in particular REVERT keeps the effects
      recorded so far. */
  lemma StepHalts(f: EvmFunction)
    requires f.pc < |f.code| && CodeFits(f.code)
    requires var i := Decode(f.code[f.pc]); i.Stop? || i.Revert? || i.SelfDestruct? || i.Invalid?
    ensures Step(f) == Ok(f.(pc := f.pc + 1, ended := true))
  {
    StepIs(f, Decode(f.code[f.pc]));
  }

  /** PUSH1 pushes its one immediate byte. */
  lemma StepPushOne(f: EvmFunction)
    requires f.pc + 2 <= |f.code| && CodeFits(f.code) && f.code[f.pc] == 0x60
    ensures Step(f) == Ok(f.(pc := f.pc + 2, stack := Push(f.stack, ActualValue(f.code[f.pc + 1]))))
  {
    StepPush(f);
    var b := f.code[f.pc + 1];
    assert f.code[f.pc + 1..f.pc + 2] == [b];
    assert [b][..0] == [];
    assert BigEndian([b]) == b;
    assert Immediate(f.code, f.pc + 1, 1) == b;
  }

  /** PUSH1 0, SLOAD, STOP: one storage read of slot 0, nothing written. */
  lemma ExecuteReadsSlotZero()
    ensures var code := [0x60, 0x00, 0x54, 0x00];
            Execute(New(0, code)).Ok?
            && Execute(New(0, code)).value.storageRead == {ActualValue(0)}
            && Execute(New(0, code)).value.storageWrite == {}
            && Execute(New(0, code)).value.stack.items == [SLoad(ActualValue(0))]
  {
    var code: seq<byte> := [0x60, 0x00, 0x54, 0x00];
    var f0 := New(0, code);
    StepPushOne(f0);
    var f1 := f0.(pc := 2, stack := Stack([ActualValue(0)], 0, []));
    StepSLoad(f1);
    assert f1.stack.items[..0] + [SLoad(ActualValue(0))] == [SLoad(ActualValue(0))];
    assert f1.storageRead + {ActualValue(0)} == {ActualValue(0)};
    var f2 := f1.(pc := 3, stack := Stack([SLoad(ActualValue(0))], 0, []), storageRead := {ActualValue(0)});
    StepHalts(f2);
    var f3 := f2.(pc := 4, ended := true);
    assert Execute(f3) == Ok(f3);
    assert Execute(f2) == Ok(f3);
    assert Execute(f1) == Ok(f3);
  }

  /** PUSH1 1, PUSH1 8, JUMPI, STOP: one conditional edge to 8 guarded by
      1, taken with an empty stack, and the block ends at the STOP. */
  lemma ExecuteConditionalEdge()
    ensures var code := [0x60, 0x01, 0x60, 0x08, 0x57, 0x00];
            Execute(New(0, code)).Ok?
            && Execute(New(0, code)).value.internalCalls
               == [Edge(ActualValue(8), EmptyStack, EmptyMemory, Some(ActualValue(1)))]
  {
    var code: seq<byte> := [0x60, 0x01, 0x60, 0x08, 0x57, 0x00];
    ConditionalEdgePushes(code);
    ConditionalEdgeJump(code);
  }

  /** The two pushes of `ExecuteConditionalEdge`'s code. */
  lemma ConditionalEdgePushes(code: seq<byte>)
    requires code == [0x60, 0x01, 0x60, 0x08, 0x57, 0x00]
    ensures Execute(New(0, code)) == Execute(New(0, code).(pc := 4, stack := Stack([ActualValue(1), ActualValue(8)], 0, [])))
  {
    var f0 := New(0, code);
    StepPushOne(f0);
    assert [] + [ActualValue(1)] == [ActualValue(1)];
    var f1 := f0.(pc := 2, stack := Stack([ActualValue(1)], 0, []));
    ExecuteThrough(f0, f1);
    StepPushOne(f1);
    assert [ActualValue(1)] + [ActualValue(8)] == [ActualValue(1), ActualValue(8)];
    ExecuteThrough(f1, f0.(pc := 4, stack := Stack([ActualValue(1), ActualValue(8)], 0, [])));
  }

  /** The JUMPI and STOP of `ExecuteConditionalEdge`'s code. */
  lemma ConditionalEdgeJump(code: seq<byte>)
    requires code == [0x60, 0x01, 0x60, 0x08, 0x57, 0x00]
    ensures var f2 := New(0, code).(pc := 4, stack := Stack([ActualValue(1), ActualValue(8)], 0, []));
            Execute(f2).Ok?
            && Execute(f2).value.internalCalls == [Edge(ActualValue(8), EmptyStack, EmptyMemory, Some(ActualValue(1)))]
  {
    var f2 := New(0, code).(pc := 4, stack := Stack([ActualValue(1), ActualValue(8)], 0, []));
    StepJumpI(f2);
    assert f2.stack.items[..1] == [ActualValue(1)];
    assert Pop(Stack([ActualValue(1)], 0, [])) == (ActualValue(1), EmptyStack);
    var edge := Edge(ActualValue(8), EmptyStack, EmptyMemory, Some(ActualValue(1)));
    assert f2.internalCalls + [edge] == [edge];
    var f3 := f2.(pc := 5, stack := EmptyStack, internalCalls := [edge]);
    ExecuteThrough(f2, f3);
    StepHalts(f3);
    ExecuteThrough(f3, f3.(pc := 6, ended := true));
  }

  /** A block not yet over runs on from the state one step produces. */
  lemma ExecuteThrough(f: EvmFunction, g: EvmFunction)
    requires CodeFits(f.code) && !f.ended && f.pc < |f.code| && Step(f) == Ok(g)
    ensures CodeFits(g.code) && Execute(f) == Execute(g)
  {
  }

  /** A block that runs off the end of the code aborts. */
  lemma ExecuteRunsOffCode()
    ensures Execute(New(0, [0x5b])) == Err(PcOutOfCode)
  {
    var f0 := New(0, [0x5b]);
    assert Step(f0) == Ok(f0.(pc := 1));
  }
}
