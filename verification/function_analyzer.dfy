/** Sequential analysis of every block (src/function_analyzer.rs): each
    listed entry offset is interpreted from a fresh state and the finished
    block is filed under its offset. */
module FunctionAnalyzer {
  import opened Outcomes
  import opened Words
  import opened EvmFunctions
  import opened EvmInstructions

  /** `analyzed` files exactly the listed offsets, each under the finished
      run of its own block. */
  ghost predicate FilesRuns(code: seq<byte>, offsets: seq<nat>, analyzed: map<nat, EvmFunction>)
    requires CodeFits(code)
  {
    analyzed.Keys == (set i | 0 <= i < |offsets| :: offsets[i])
    && (forall i :: 0 <= i < |offsets| ==> Execute(New(offsets[i], code)) == Ok(analyzed[offsets[i]]))
    && (forall f :: f in analyzed ==> analyzed[f].ended && analyzed[f].position == f)
  }

  /** Filing the run of one more offset extends what is filed. */
  lemma FilesRunsAppend(code: seq<byte>, offsets: seq<nat>, analyzed: map<nat, EvmFunction>, f: EvmFunction)
    requires CodeFits(code) && |offsets| > 0
    requires FilesRuns(code, offsets[..|offsets| - 1], analyzed)
    requires Execute(New(offsets[|offsets| - 1], code)) == Ok(f)
    ensures FilesRuns(code, offsets, analyzed[offsets[|offsets| - 1] := f])
  {
    var prefix := offsets[..|offsets| - 1];
    KeysAppend(offsets, prefix, analyzed, f);
    RunsAppend(offsets, prefix, analyzed, f, o => Execute(New(o, code)));
  }

  /** Filing one more run keeps every offset filed under its own run. */
  lemma RunsAppend<T>(offsets: seq<nat>, prefix: seq<nat>, m: map<nat, T>, v: T, run: nat -> Result<T>)
    requires |offsets| > 0 && prefix == offsets[..|offsets| - 1]
    requires forall j :: 0 <= j < |prefix| ==> prefix[j] in m && run(prefix[j]) == Ok(m[prefix[j]])
    requires run(offsets[|offsets| - 1]) == Ok(v)
    ensures forall i :: 0 <= i < |offsets| ==>
              offsets[i] in m[offsets[|offsets| - 1] := v] && run(offsets[i]) == Ok(m[offsets[|offsets| - 1] := v][offsets[i]])
  {
    forall i | 0 <= i < |offsets|
      ensures offsets[i] in m[offsets[|offsets| - 1] := v] && run(offsets[i]) == Ok(m[offsets[|offsets| - 1] := v][offsets[i]])
    {
      LookupAppend(offsets, prefix, m, v, i);
    }
  }

  /** Filing under the last offset files the whole list. */
  lemma KeysAppend<T>(offsets: seq<nat>, prefix: seq<nat>, m: map<nat, T>, v: T)
    requires |offsets| > 0 && prefix == offsets[..|offsets| - 1]
    requires m.Keys == (set i | 0 <= i < |prefix| :: prefix[i])
    ensures m[offsets[|offsets| - 1] := v].Keys == (set i | 0 <= i < |offsets| :: offsets[i])
  {
    assert forall i :: 0 <= i < |prefix| ==> prefix[i] == offsets[i];
    assert (set i | 0 <= i < |offsets| :: offsets[i]) == (set i | 0 <= i < |prefix| :: prefix[i]) + {offsets[|offsets| - 1]};
  }

  /** After filing under the last offset, an earlier offset finds what it
      found before unless it repeats the last one. */
  lemma LookupAppend<T>(offsets: seq<nat>, prefix: seq<nat>, m: map<nat, T>, v: T, i: nat)
    requires |offsets| > 0 && prefix == offsets[..|offsets| - 1] && i < |offsets|
    requires forall j :: 0 <= j < |prefix| ==> prefix[j] in m
    ensures offsets[i] in m[offsets[|offsets| - 1] := v]
    ensures offsets[i] == offsets[|offsets| - 1] ==> m[offsets[|offsets| - 1] := v][offsets[i]] == v
    ensures offsets[i] != offsets[|offsets| - 1] ==>
              i < |prefix| && m[offsets[|offsets| - 1] := v][offsets[i]] == m[prefix[i]]
  {
    if i < |prefix| {
      assert prefix[i] == offsets[i];
    }
  }

  /** Runs every block in list order; the first block that aborts aborts
      the whole analysis. A repeated offset is filed once. */
  function SingleThreadedAnalyzer(code: seq<byte>, offsets: seq<nat>): (r: Result<FunctionRegistry>)
    requires CodeFits(code)
    ensures r.Ok? <==> forall i :: 0 <= i < |offsets| ==> Execute(New(offsets[i], code)).Ok?
    ensures r.Ok? ==> FilesRuns(code, offsets, r.value.analyzed)
    ensures r.Ok? ==> r.value.inAnalysis == []
  {
    if |offsets| == 0 then Ok(NewRegistry())
    else
      var last := offsets[|offsets| - 1];
      var prefix := offsets[..|offsets| - 1];
      assert forall i :: 0 <= i < |offsets| - 1 ==> prefix[i] == offsets[i];
      match SingleThreadedAnalyzer(code, prefix)
      case Err(e) => Err(e)
      case Ok(registry) =>
        match Execute(New(last, code))
        case Err(e) => Err(e)
        case Ok(f) =>
          FilesRunsAppend(code, offsets, registry.analyzed, f);
          Ok(registry.(analyzed := registry.analyzed[last := f]))
  }
}
