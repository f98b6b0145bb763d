/** Per-contract summaries (src/contract_data.rs): for the constructor and
    for each method selector, the storage locations read and written and
    the external calls made. The original keeps hash sets; here they are
    duplicate-free sequences in insertion order, so that the scheduler's
    iteration over them is determined. */
module ContractSummaries {
  import opened Words
  import opened Values
  import opened ContractUtils

  predicate NoDuplicates<T(==)>(s: seq<T>)
  {
    forall i, j :: 0 <= i < j < |s| ==> s[i] != s[j]
  }

  /** Set union on duplicate-free sequences: the elements of `b` not yet
      present are appended in order. */
  function Extend<T(==)>(a: seq<T>, b: seq<T>): (r: seq<T>)
    ensures (set x | x in r) == (set x | x in a) + (set x | x in b)
    ensures a <= r
    ensures NoDuplicates(a) ==> NoDuplicates(r)
    decreases |b|
  {
    if |b| == 0 then a
    else if b[0] in a then
      assert b == [b[0]] + b[1..];
      Extend(a, b[1..])
    else
      assert b == [b[0]] + b[1..];
      var r := Extend(a + [b[0]], b[1..]);
      assert a <= a + [b[0]];
      r
  }

  /** Adding what is already present changes nothing. */
  lemma {:induction false} ExtendAbsorbs<T>(a: seq<T>, b: seq<T>)
    requires forall x :: x in b ==> x in a
    ensures Extend(a, b) == a
    decreases |b|
  {
    if |b| > 0 {
      ExtendAbsorbs(a, b[1..]);
    }
  }

  /** Union is idempotent. */
  lemma ExtendIdempotent<T>(a: seq<T>, b: seq<T>)
    ensures Extend(Extend(a, b), b) == Extend(a, b)
  {
    var r := Extend(a, b);
    forall x | x in b
      ensures x in r
    {
      assert x in (set z | z in a) + (set z | z in b);
      assert x in (set z | z in r);
    }
    ExtendAbsorbs(r, b);
  }

  /** What one method (or the constructor) does to storage and other contracts. */
  datatype ContractMethod = ContractMethod(storageRead: seq<DataType>, storageWrite: seq<DataType>, methodCall: seq<CallSite>)

  /** The summaries of one contract; `ctor` is the constructor's. */
  datatype ContractData = ContractData(ctor: ContractMethod, methods: map<U256, ContractMethod>)

  function NewMethod(): (m: ContractMethod)
    ensures |m.storageRead| == 0 && |m.storageWrite| == 0 && |m.methodCall| == 0
  {
    ContractMethod([], [], [])
  }

  function NewContractData(): (d: ContractData)
    ensures d.ctor == NewMethod() && |d.methods| == 0
  {
    ContractData(NewMethod(), map[])
  }

  /** Adds read locations. */
  function AccessRead(m: ContractMethod, access: seq<DataType>): (r: ContractMethod)
    ensures (set x | x in r.storageRead) == (set x | x in m.storageRead) + (set x | x in access)
    ensures m.storageRead <= r.storageRead && (NoDuplicates(m.storageRead) ==> NoDuplicates(r.storageRead))
    ensures r.storageWrite == m.storageWrite && r.methodCall == m.methodCall
  {
    m.(storageRead := Extend(m.storageRead, access))
  }

  /** Adds written locations. */
  function AccessWrite(m: ContractMethod, access: seq<DataType>): (r: ContractMethod)
    ensures (set x | x in r.storageWrite) == (set x | x in m.storageWrite) + (set x | x in access)
    ensures m.storageWrite <= r.storageWrite && (NoDuplicates(m.storageWrite) ==> NoDuplicates(r.storageWrite))
    ensures r.storageRead == m.storageRead && r.methodCall == m.methodCall
  {
    m.(storageWrite := Extend(m.storageWrite, access))
  }

  /** Adds external call sites. */
  function MethodCalls(m: ContractMethod, access: seq<CallSite>): (r: ContractMethod)
    ensures (set x | x in r.methodCall) == (set x | x in m.methodCall) + (set x | x in access)
    ensures m.methodCall <= r.methodCall && (NoDuplicates(m.methodCall) ==> NoDuplicates(r.methodCall))
    ensures r.storageRead == m.storageRead && r.storageWrite == m.storageWrite
  {
    m.(methodCall := Extend(m.methodCall, access))
  }

  /** Adding the same accesses twice is the same as adding them once. */
  lemma AccessIdempotent(m: ContractMethod, read: seq<DataType>, write: seq<DataType>, call: seq<CallSite>)
    ensures AccessRead(AccessRead(m, read), read) == AccessRead(m, read)
    ensures AccessWrite(AccessWrite(m, write), write) == AccessWrite(m, write)
    ensures MethodCalls(MethodCalls(m, call), call) == MethodCalls(m, call)
  {
    ExtendIdempotent(m.storageRead, read);
    ExtendIdempotent(m.storageWrite, write);
    ExtendIdempotent(m.methodCall, call);
  }

  /** The summary for `hash`, created empty when absent, with the data that
      now holds it. */
  function GetMethod(d: ContractData, hash: U256): (r: (ContractData, ContractMethod))
    ensures hash in r.0.methods && r.0.methods[hash] == r.1
    ensures hash in d.methods ==> r.0 == d && r.1 == d.methods[hash]
    ensures hash !in d.methods ==> r.1 == NewMethod() && r.0.methods.Keys == d.methods.Keys + {hash}
    ensures forall h :: h in d.methods ==> h in r.0.methods && r.0.methods[h] == d.methods[h]
    ensures r.0.ctor == d.ctor
  {
    if hash in d.methods then (d, d.methods[hash])
    else (d.(methods := d.methods[hash := NewMethod()]), NewMethod())
  }

  /** Replaces the constructor summary. */
  function SetConstructor(d: ContractData, m: ContractMethod): (r: ContractData)
    ensures r.ctor == m && r.methods == d.methods
  {
    d.(ctor := m)
  }

  /** Looking a method up twice finds the same summary and adds nothing. */
  lemma GetMethodStable(d: ContractData, hash: U256)
    ensures GetMethod(GetMethod(d, hash).0, hash) == GetMethod(d, hash)
  {
  }
}
