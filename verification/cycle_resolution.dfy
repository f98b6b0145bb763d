/** The jump-following policies (src/cycle_resolution.rs): whether the
    call-graph walk may enter `address` given the stack of entries already
    on the current path, and how a storage location is classified. */
module CycleResolution {
  import opened Outcomes
  import opened Values
  import opened EvmFunctions
  import opened ContractUtils

  /** The two policies: no entry twice on a path, or at most `k` times. */
  datatype CycleSolver = NoCycle | MaxIterations(k: nat)

  /** Both policies classify locations the same way. */
  function GetData(solver: CycleSolver, location: StackValue): (d: DataType)
    ensures d.Field? <==> location.ActualValue?
    ensures d.Unknown? ==> d.location == location
  {
    TopLevelDataShape(location);
    TopLevelData(location)
  }

  /** Whether the suffix of `buffer` matches the suffix of `path`, compared
      from the ends over the shorter length. */
  predicate SuffixAgrees(buffer: seq<nat>, path: seq<nat>)
  {
    |buffer| == 0 || |path| == 0
    || (buffer[|buffer| - 1] == path[|path| - 1] && SuffixAgrees(buffer[..|buffer| - 1], path[..|path| - 1]))
  }

  /** The number of occurrences of `x` in `s`. */
  function Occurrences(s: seq<nat>, x: nat): (n: nat)
    ensures n == multiset(s)[x]
  {
    if |s| == 0 then 0
    else
      assert s == s[..|s| - 1] + [s[|s| - 1]];
      Occurrences(s[..|s| - 1], x) + (if s[|s| - 1] == x then 1 else 0)
  }

  /** The no-cycle policy as written: split the path after the first
      occurrence of `address` into segments between later occurrences, drop
      the last segment, refuse when a segment matches the end of the path,
      and otherwise go exactly when `address` is not on the path. The jump
      origin, registry and condition do not take part. */
  method NoCycleShouldGo(path: seq<nat>, address: nat, prevAddress: nat, registry: FunctionRegistry,
                         condition: Option<StackValue>) returns (go: bool)
    ensures go <==> address !in path
  {
    var begun := false;
    var bi := 0;
    var buffers: seq<seq<nat>> := [];
    var i := 0;
    while i < |path|
      invariant 0 <= i <= |path|
      invariant begun <==> address in path[..i]
      invariant begun ==> |buffers| == bi + 1
      invariant !begun ==> |buffers| == 0 && bi == 0
    {
      if !begun {
        if path[i] == address {
          begun := true;
          buffers := buffers + [[]];
        }
      } else {
        if path[i] == address {
          bi := bi + 1;
          buffers := buffers + [[]];
        } else {
          buffers := buffers[bi := buffers[bi] + [path[i]]];
        }
      }
      assert path[..i + 1] == path[..i] + [path[i]];
      i := i + 1;
    }
    assert path[..i] == path;
    if |buffers| > 0 {
      buffers := buffers[..|buffers| - 1];
    }
    var cycle := false;
    var j := 0;
    while j < |buffers|
      invariant 0 <= j <= |buffers|
      invariant cycle ==> address in path
    {
      if SuffixAgrees(buffers[j], path) {
        cycle := true;
      }
      j := j + 1;
    }
    if cycle {
      return false;
    }
    go := address !in path;
  }

  /** The bounded policy: go while `address` occurs at most `k` times. */
  function MaxIterationsShouldGo(k: nat, path: seq<nat>, address: nat): (go: bool)
    ensures go <==> multiset(path)[address] <= k
  {
    !(Occurrences(path, address) > k)
  }

  /** Either policy, as the walk consults it. */
  method ShouldGo(solver: CycleSolver, path: seq<nat>, address: nat, prevAddress: nat,
                  registry: FunctionRegistry, condition: Option<StackValue>) returns (go: bool)
    ensures solver.NoCycle? ==> (go <==> address !in path)
    ensures solver.MaxIterations? ==> (go <==> multiset(path)[address] <= solver.k)
  {
    match solver
    case NoCycle => go := NoCycleShouldGo(path, address, prevAddress, registry, condition);
    case MaxIterations(k) => go := MaxIterationsShouldGo(k, path, address);
  }

  /** The no-cycle policy is the bounded one with bound zero. */
  lemma NoCycleIsMaxZero(path: seq<nat>, address: nat)
    ensures MaxIterationsShouldGo(0, path, address) <==> address !in path
  {
  }
}
