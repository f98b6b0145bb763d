/** Optional values and fault-carrying results. The analyser's Rust code aborts
    (panics) on a failed `unwrap`, an index out of range or an arithmetic
    overflow; the model turns every such abort into an `Err` naming its cause. */
module Outcomes {

  datatype Option<+T> = None | Some(value: T)

  /** Why the original would abort. */
  datatype Fault =
    | WordOverflow        // a U256 addition or multiplication overflowed
    | SliceTooLong        // more than 32 bytes converted to a word
    | UsizeOverflow       // a word used as an index or shift does not fit in usize
    | UnresolvedOperand   // `resolve().unwrap()` on a value that does not fold
    | PcOutOfCode         // the interpreter read past the end of the code
    | PushOutOfCode       // a PUSH immediate runs past the end of the code
    | MissingFunction     // registry lookup of an offset that was never analysed
    | MissingContract     // a contract address that was never registered
    | MissingMethod       // a selector the registered contract does not have
    | MissingConstructor  // a method transaction before its contract's constructor
    | ReentrantLock       // a transaction asked to depend on itself
    | CounterUnderflow    // a dependency counter decremented below zero
    | MissingCharacter    // a numeral shorter than its two-character prefix
    | UnknownBase         // a numeral base other than hexadecimal or binary
    | InvalidDigit        // a character that is not a digit of the base
    | MissingOperand      // a list of operands too short for the operator
    | OutOfFuel           // the bounded model gave up on an unbounded recursion

  datatype Result<+T> = Ok(value: T) | Err(fault: Fault)
}
