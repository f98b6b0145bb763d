/** Storage-location classification and method-guard detection
    (src/contract_utils.rs). */
module ContractUtils {
  import opened Words
  import opened Outcomes
  import opened Values
  import opened MachineState

  /** The shape of storage a location belongs to. Every variant's first
      payload is the location the original hands out as `value()`; a mapping
      also keeps the whole hashed expression. */
  datatype DataType =
    | Field(location: StackValue)
    | Struct(location: StackValue)
    | Vector(location: StackValue)
    | Mapping(location: StackValue, key: StackValue)
    | Unknown(location: StackValue)

  /** The value the dispatcher compares method selectors against. */
  const SELECTOR_LOAD: StackValue := CallDataLoad(ActualValue(0))

  /** The operators the calldata search looks through. */
  predicate Transparent(v: StackValue)
  {
    v.And? || v.Xor? || v.Or? || v.Add? || v.Sub? || v.Mul? || v.Div? || v.Shr? || v.ShL? || v.GT?
  }

  /** Whether the selector load occurs in `v` below transparent operators only. */
  function LookForCalldata(v: StackValue): bool
  {
    if v.CallDataLoad? then v.0 == ActualValue(0)
    else if Transparent(v) then LookForCalldata(v.0) || LookForCalldata(v.1)
    else false
  }

  /** Walks down `v` through transparent operators, `false` choosing the
      first operand and `true` the second; `None` when the walk meets any
      other node before the path is used up. */
  function Follow(v: StackValue, path: seq<bool>): Option<StackValue>
  {
    if |path| == 0 then Some(v)
    else if Transparent(v) then Follow(if path[0] then v.1 else v.0, path[1..])
    else None
  }

  /** The search finds the selector load exactly when some transparent path
      leads to it. */
  lemma {:induction false} LookForCalldataFindsPath(v: StackValue)
    ensures LookForCalldata(v) <==> exists path :: Follow(v, path) == Some(SELECTOR_LOAD)
  {
    if LookForCalldata(v) {
      var path := CalldataPath(v);
    }
    if p :| Follow(v, p) == Some(SELECTOR_LOAD) {
      PathFindsCalldata(v, p);
    }
  }

  /** A path to the selector load, built along the successful search. */
  lemma {:induction false} CalldataPath(v: StackValue) returns (path: seq<bool>)
    requires LookForCalldata(v)
    ensures Follow(v, path) == Some(SELECTOR_LOAD)
  {
    if v.CallDataLoad? {
      path := [];
    } else if LookForCalldata(v.0) {
      var rest := CalldataPath(v.0);
      path := [false] + rest;
      assert path[1..] == rest;
    } else {
      var rest := CalldataPath(v.1);
      path := [true] + rest;
      assert path[1..] == rest;
    }
  }

  lemma {:induction false} PathFindsCalldata(v: StackValue, path: seq<bool>)
    requires Follow(v, path) == Some(SELECTOR_LOAD)
    ensures LookForCalldata(v)
  {
    if |path| > 0 {
      PathFindsCalldata(if path[0] then v.1 else v.0, path[1..]);
    }
  }

  /** The selector a branch guard tests, if it is a dispatcher comparison: an
      equality between a literal and an expression over the selector load,
      the literal on the left tried first. The state argument is carried over
      from the original, which never reads it. */
  function GetPublicMethod(guard: StackValue, state: seq<(Stack, Memory)>): (r: Option<U256>)
    ensures r.Some? ==> guard.EQ?
    ensures r.Some? ==> (guard.0 == ActualValue(r.value) && LookForCalldata(guard.1))
                        || (guard.1 == ActualValue(r.value) && LookForCalldata(guard.0))
    ensures guard.EQ? && guard.0.ActualValue? && LookForCalldata(guard.1) ==> r == Some(guard.0.word)
    ensures guard.EQ? && guard.1.ActualValue? && LookForCalldata(guard.0) && !(guard.0.ActualValue? && LookForCalldata(guard.1))
            ==> r == Some(guard.1.word)
    ensures r.None? ==> !guard.EQ? || ((!guard.0.ActualValue? || !LookForCalldata(guard.1))
                                        && (!guard.1.ActualValue? || !LookForCalldata(guard.0)))
  {
    if guard.EQ? then
      if guard.0.ActualValue? && LookForCalldata(guard.1) then Some(guard.0.word)
      else if guard.1.ActualValue? && LookForCalldata(guard.0) then Some(guard.1.word)
      else None
    else None
  }

  /** The dispatcher comparison `selector == CALLDATALOAD(0) >> 224` (either
      way round) is recognised whatever the state. */
  lemma DispatcherGuard(selector: U256, shift: StackValue, state: seq<(Stack, Memory)>)
    ensures GetPublicMethod(EQ(ActualValue(selector), Shr(shift, SELECTOR_LOAD)), state) == Some(selector)
    ensures GetPublicMethod(EQ(Shr(shift, SELECTOR_LOAD), ActualValue(selector)), state) == Some(selector)
  {
    assert LookForCalldata(Shr(shift, SELECTOR_LOAD));
  }

  /** Classifies a storage location: a literal is a field; a hash of one
      word is a dynamic array; a hash of two words is a mapping keyed by the
      location of the word stored at the higher offset (the second on a tie);
      a sum inherits the classification of its operands; anything else is
      unknown. */
  function TopLevelData(expr: StackValue): DataType
  {
    if expr.ActualValue? then Field(expr)
    else if expr.Add? then
      var right := TopLevelData(expr.1);
      var left := TopLevelData(expr.0);
      if left.Vector? then Vector(left.location)
      else if right.Unknown? then DataType.Unknown(Add(expr.0, right.location))
      else if right.Field? || right.Struct? then Struct(right.location)
      else right
    else if expr.Sha3? then
      if |expr.preimage| == 1 then Vector(expr.preimage[0].value)
      else if |expr.preimage| == 2 then
        if expr.preimage[0].offset > expr.preimage[1].offset then
          Mapping(TopLevelData(expr.preimage[0].value).location, expr)
        else
          Mapping(TopLevelData(expr.preimage[1].value).location, expr)
      else DataType.Unknown(expr)
    else DataType.Unknown(expr)
  }

  /** Whether `inner` occurs in `expr` along first or second operands of sums. */
  predicate AddendOf(inner: StackValue, expr: StackValue)
  {
    inner == expr || (expr.Add? && (AddendOf(inner, expr.0) || AddendOf(inner, expr.1)))
  }

  /** What a classification says about the location: only literals are
      fields; an unknown location is the expression itself; a struct comes
      from a sum; the mapping and the vector cases name a hash reachable
      through sums, a mapping's key being a two-word hash. */
  lemma {:induction false} TopLevelDataShape(expr: StackValue)
    ensures TopLevelData(expr).Field? <==> expr.ActualValue?
    ensures TopLevelData(expr).Field? ==> TopLevelData(expr).location == expr
    ensures TopLevelData(expr).Unknown? ==> TopLevelData(expr).location == expr
    ensures TopLevelData(expr).Struct? ==> expr.Add?
    ensures TopLevelData(expr).Mapping? ==>
              var k := TopLevelData(expr).key; k.Sha3? && |k.preimage| == 2 && AddendOf(k, expr)
    ensures TopLevelData(expr).Vector? ==>
              exists h :: AddendOf(h, expr) && h.Sha3? && |h.preimage| == 1 && TopLevelData(expr).location == h.preimage[0].value
  {
    if expr.Add? {
      TopLevelDataShape(expr.0);
      TopLevelDataShape(expr.1);
    }
  }
}
