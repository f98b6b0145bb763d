/** The two pure helpers of the symbolic simplifier
    (src/expression_simplify_sys.rs): reading a numeral printed by the
    solver, and rebuilding a stack value from a solver declaration kind and
    its operands. The solver itself is not part of this model. */
module SimplifyHelpers {
  import opened Words
  import opened Outcomes
  import opened Values

  /** r^n */
  function Power(r: nat, n: nat): (p: nat)
    ensures r >= 1 ==> p >= 1
  {
    if n == 0 then 1 else r * Power(r, n - 1)
  }

  /** The value of one digit character in base 2 or 16, if it is one;
      hexadecimal digits may be in either case. */
  function DigitValue(c: char, radix: nat): (d: Option<nat>)
    requires radix == 2 || radix == 16
    ensures d.Some? ==> d.value < radix
    ensures radix == 2 ==> (d.Some? <==> c == '0' || c == '1')
    ensures radix == 16 ==> (d.Some? <==> '0' <= c <= '9' || 'a' <= c <= 'f' || 'A' <= c <= 'F')
  {
    if '0' <= c <= '9' && (c as int) - ('0' as int) < radix then Some((c as int) - ('0' as int))
    else if radix == 16 && 'a' <= c <= 'f' then Some((c as int) - ('a' as int) + 10)
    else if radix == 16 && 'A' <= c <= 'F' then Some((c as int) - ('A' as int) + 10)
    else None
  }

  predicate AllDigits(ds: string, radix: nat)
    requires radix == 2 || radix == 16
  {
    forall i :: 0 <= i < |ds| ==> DigitValue(ds[i], radix).Some?
  }

  /** The positional value of a digit string: each digit times the radix to
      the number of digits after it. */
  function DigitsValue(ds: string, radix: nat): nat
    requires radix == 2 || radix == 16
    requires AllDigits(ds, radix)
  {
    if |ds| == 0 then 0
    else DigitValue(ds[0], radix).value * Power(radix, |ds| - 1) + DigitsValue(ds[1..], radix)
  }

  /** The original's digit loop: multiply the buffer by the radix, parse the
      next digit, add it; a 256-bit overflow at either step aborts. */
  function Accumulate(buffer: U256, ds: string, radix: nat): (r: Result<U256>)
    requires radix == 2 || radix == 16
    ensures r.Ok? ==> AllDigits(ds, radix)
    ensures r.Err? ==> r.fault == WordOverflow || r.fault == InvalidDigit
    decreases |ds|
  {
    if |ds| == 0 then Ok(buffer)
    else if buffer * radix >= WORD_MODULUS then Err(WordOverflow)
    else match DigitValue(ds[0], radix)
      case None => Err(InvalidDigit)
      case Some(d) =>
        if buffer * radix + d >= WORD_MODULUS then Err(WordOverflow)
        else
          var r := Accumulate(buffer * radix + d, ds[1..], radix);
          assert r.Ok? ==> forall i :: 1 <= i < |ds| ==> ds[i] == ds[1..][i - 1];
          r
  }

  /** Reads a solver numeral `#x…` or `#b…`. The first character is not
      looked at; the second names the base. */
  function ParseZ3Num(s: string): (r: Result<U256>)
    ensures |s| < 2 ==> r == Err(MissingCharacter)
    ensures |s| >= 2 && s[1] != 'x' && s[1] != 'b' ==> r == Err(UnknownBase)
    ensures r.Ok? ==> |s| >= 2 && AllDigits(s[2..], if s[1] == 'x' then 16 else 2)
    ensures r.Err? && |s| >= 2 && (s[1] == 'x' || s[1] == 'b') ==> r.fault == WordOverflow || r.fault == InvalidDigit
  {
    if |s| < 2 then Err(MissingCharacter)
    else if s[1] == 'x' then Accumulate(0, s[2..], 16)
    else if s[1] == 'b' then Accumulate(0, s[2..], 2)
    else Err(UnknownBase)
  }

  /** Regrouping one digit step of the positional sum, with the power and
      the digit value given by name. */
  lemma ShiftDigitTotal(b: nat, radix: nat, d: nat, p: nat, v: nat, bigP: nat, bigD: nat)
    requires p >= 1 && bigP == radix * p && bigD == d * p + v
    ensures b * bigP + bigD == (b * radix + d) * p + v
    ensures b * radix + d <= b * bigP + bigD
  {
    ShiftDigit(b, radix, d, p, v);
  }

  /** Regrouping one digit step of the positional sum. */
  lemma ShiftDigit(b: nat, radix: nat, d: nat, p: nat, v: nat)
    requires p >= 1
    ensures b * (radix * p) + (d * p + v) == (b * radix + d) * p + v
    ensures b * radix + d <= (b * radix + d) * p + v
  {
    assert b * (radix * p) == (b * radix) * p;
    assert (b * radix + d) * p == (b * radix) * p + d * p;
  }

  /** The digits after the first are digits too. */
  lemma AllDigitsTail(ds: string, radix: nat)
    requires radix == 2 || radix == 16
    requires |ds| > 0 && AllDigits(ds, radix)
    ensures AllDigits(ds[1..], radix)
  {
    forall i | 0 <= i < |ds| - 1
      ensures DigitValue(ds[1..][i], radix).Some?
    {
      assert ds[1..][i] == ds[i + 1];
    }
  }

  /** One digit of accumulation: overflow, or carry on with the digit added. */
  lemma AccumulateStep(buffer: U256, ds: string, radix: nat)
    requires radix == 2 || radix == 16
    requires |ds| > 0 && AllDigits(ds, radix)
    ensures var next := buffer * radix + DigitValue(ds[0], radix).value;
            Accumulate(buffer, ds, radix) == if next < WORD_MODULUS then Accumulate(next, ds[1..], radix) else Err(WordOverflow)
  {
  }

  lemma PowerUnfold(r: nat, n: nat)
    requires n >= 1
    ensures Power(r, n) == r * Power(r, n - 1)
  {
  }

  lemma DigitsValueUnfold(ds: string, radix: nat)
    requires radix == 2 || radix == 16
    requires |ds| > 0 && AllDigits(ds, radix)
    ensures AllDigits(ds[1..], radix)
    ensures DigitsValue(ds, radix) == DigitValue(ds[0], radix).value * Power(radix, |ds| - 1) + DigitsValue(ds[1..], radix)
  {
    AllDigitsTail(ds, radix);
  }

  /** The digit loop reads the buffer followed by the digits: the buffer
      shifted by one radix place per digit, plus the digits' positional
      value. With valid digits the only failure is overflow. */
  lemma {:induction false} AccumulateIsPositional(buffer: U256, ds: string, radix: nat)
    requires radix == 2 || radix == 16
    requires AllDigits(ds, radix)
    ensures Accumulate(buffer, ds, radix).Ok? <==> buffer * Power(radix, |ds|) + DigitsValue(ds, radix) < WORD_MODULUS
    ensures Accumulate(buffer, ds, radix).Ok? ==>
              Accumulate(buffer, ds, radix).value == buffer * Power(radix, |ds|) + DigitsValue(ds, radix)
    ensures Accumulate(buffer, ds, radix).Err? ==> Accumulate(buffer, ds, radix).fault == WordOverflow
    decreases |ds|
  {
    if |ds| > 0 {
      AllDigitsTail(ds, radix);
      AccumulateStep(buffer, ds, radix);
      PowerUnfold(radix, |ds|);
      DigitsValueUnfold(ds, radix);
      ShiftDigitTotal(buffer, radix, DigitValue(ds[0], radix).value, Power(radix, |ds| - 1),
                      DigitsValue(ds[1..], radix), Power(radix, |ds|), DigitsValue(ds, radix));
      var next := buffer * radix + DigitValue(ds[0], radix).value;
      if next < WORD_MODULUS {
        AccumulateIsPositional(next, ds[1..], radix);
      }
    }
  }

  /** A solver numeral made of valid digits reads as their positional value,
      and fails exactly when that value is not a 256-bit word. */
  lemma ParseZ3NumValue(s: string)
    requires |s| >= 2 && (s[1] == 'x' || s[1] == 'b')
    requires AllDigits(s[2..], if s[1] == 'x' then 16 else 2)
    ensures var radix := if s[1] == 'x' then 16 else 2;
            (ParseZ3Num(s).Ok? <==> DigitsValue(s[2..], radix) < WORD_MODULUS)
            && (ParseZ3Num(s).Ok? ==> ParseZ3Num(s).value == DigitsValue(s[2..], radix))
            && (ParseZ3Num(s).Err? ==> ParseZ3Num(s).fault == WordOverflow)
  {
    AccumulateIsPositional(0, s[2..], if s[1] == 'x' then 16 else 2);
  }

  /** A character that is not a digit of the base, met while the value
      still fits, makes the numeral invalid. */
  lemma ParseZ3NumRejectsBadDigit(prefix: string, c: char, rest: string)
    requires |prefix| == 2 && (prefix[1] == 'x' || prefix[1] == 'b')
    requires var radix := if prefix[1] == 'x' then 16 else 2;
             DigitValue(c, radix).None?
    ensures ParseZ3Num(prefix + [c] + rest) == Err(InvalidDigit)
  {
    var s := prefix + [c] + rest;
    assert s[1] == prefix[1];
    assert s[2..] == [c] + rest;
  }

  lemma ParseZ3NumExamples()
    ensures ParseZ3Num("#x1F") == Ok(31)
    ensures ParseZ3Num("#b101") == Ok(5)
    ensures ParseZ3Num("#x") == Ok(0)
    ensures ParseZ3Num("#o7") == Err(UnknownBase)
    ensures ParseZ3Num("#") == Err(MissingCharacter)
  {
    assert "#x1F"[2..] == "1F";
    assert "1F"[1..] == "F";
    assert "#b101"[2..] == "101";
    assert "101"[1..] == "01";
    assert "01"[1..] == "1";
  }

  /** Solver declaration kinds: bitwise and, or anything else. */
  datatype DeclKind = BAnd | OtherDecl

  /** Rebuilds a stack value from a declaration and its operands; only
      bitwise and is rebuilt, from its first two operands. */
  function MakeSv(kind: DeclKind, buffer: seq<StackValue>): (r: Result<StackValue>)
    ensures kind.OtherDecl? ==> r == Ok(Unknown)
    ensures kind.BAnd? ==> (r.Err? <==> |buffer| < 2)
    ensures r.Err? ==> r.fault == MissingOperand
  {
    if kind.OtherDecl? then Ok(Unknown)
    else if |buffer| < 2 then Err(MissingOperand)
    else Ok(And(buffer[0], buffer[1]))
  }

  /** A rebuilt bitwise and folds to the bitwise and of its operands'
      values, and an unknown declaration never folds. */
  lemma MakeSvFolds(kind: DeclKind, buffer: seq<StackValue>)
    requires MakeSv(kind, buffer).Ok?
    ensures kind.OtherDecl? ==> Resolve(MakeSv(kind, buffer).value) == Ok(None)
    ensures kind.BAnd? && IsWord(Resolve(buffer[0])) && IsWord(Resolve(buffer[1])) ==>
              Resolve(MakeSv(kind, buffer).value) == Ok(Some(BitAnd(Resolve(buffer[1]).value.value, Resolve(buffer[0]).value.value)))
  {
    if kind.BAnd? {
      ResolveShiftsAndAnd(buffer[0], buffer[1]);
    } else {
      ResolveOthers(Unknown);
    }
  }
}
