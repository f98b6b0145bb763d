/** Scheduled transactions and their dependency edges
    (src/net/transaction.rs). The shared, lock-protected transaction objects
    of the original live here in an arena keyed by id; an edge `from -> to`
    is `to` listed among `from`'s dependents, and `count` is how many
    unfinished transactions `to` still waits for. */
module Transactions {
  import opened Words
  import opened Outcomes
  import opened ContractSummaries

  /** What a submission targets. */
  datatype MethodType = Constructor | Method(selector: U256)

  datatype Transaction = Transaction(id: nat, dependents: seq<nat>, count: nat)

  type Arena = map<nat, Transaction>

  function NewTransaction(id: nat): (t: Transaction)
    ensures t.id == id && t.count == 0 && |t.dependents| == 0
  {
    Transaction(id, [], 0)
  }

  /** Raises the number of transactions `t` waits for. */
  function Requires(t: Transaction, number: nat): (r: Transaction)
    ensures r.count == t.count + number && r.id == t.id && r.dependents == t.dependents
  {
    t.(count := t.count + number)
  }

  /** The transactions that list `d` as a dependent. */
  function Listers(a: Arena, d: nat): set<nat>
  {
    set k | k in a && d in a[k].dependents
  }

  /** Every dependent exists and differs from its lister; no dependent is
      listed twice by the same transaction. */
  predicate WellLinked(a: Arena)
  {
    (forall k :: k in a ==> a[k].id == k)
    && (forall k, d :: k in a && d in a[k].dependents ==> d in a && d != k)
    && (forall k :: k in a ==> NoDuplicates(a[k].dependents))
  }

  /** The arena invariant while counts change only through `RequiredBy`:
      each count is the number of transactions listing it. */
  predicate Valid(a: Arena)
  {
    WellLinked(a) && forall d :: d in a ==> a[d].count == |Listers(a, d)|
  }

  /** Edges lead from older to newer transactions, so the graph is acyclic. */
  predicate Forward(a: Arena)
  {
    forall k, d :: k in a && d in a[k].dependents ==> k < d
  }

  /** Makes `to` wait for `from`. An edge already present changes nothing.
      Asking a transaction to wait for itself borrows it twice, which the
      original's cell or lock refuses. */
  function RequiredBy(a: Arena, from: nat, to: nat): (r: Result<Arena>)
    requires from in a && to in a
    ensures r.Err? <==> from == to
    ensures r.Err? ==> r.fault == ReentrantLock
    ensures r.Ok? ==> r.value.Keys == a.Keys && to in r.value[from].dependents
    ensures r.Ok? && to in a[from].dependents ==> r.value == a
  {
    if from == to then Err(ReentrantLock)
    else if to in a[from].dependents then Ok(a)
    else Ok(a[to := Requires(a[to], 1)][from := a[from].(dependents := a[from].dependents + [to])])
  }

  /** A new edge raises the target's count by exactly one, appends the
      target to the source's dependents and touches nothing else. */
  lemma RequiredByNewEdge(a: Arena, from: nat, to: nat)
    requires from in a && to in a && from != to && to !in a[from].dependents
    ensures var r := RequiredBy(a, from, to).value;
            r[to].count == a[to].count + 1
            && r[from].dependents == a[from].dependents + [to]
            && r[from].count == a[from].count && r[to].dependents == a[to].dependents
            && forall k :: k in a && k != from && k != to ==> r[k] == a[k]
  {
  }

  /** After a new edge only the target gains a lister, namely the source. */
  lemma ListersAfterEdge(a: Arena, from: nat, to: nat, d: nat)
    requires from in a && to in a && from != to && to !in a[from].dependents
    ensures Listers(RequiredBy(a, from, to).value, d) == Listers(a, d) + (if d == to then {from} else {})
  {
    var r := RequiredBy(a, from, to).value;
    RequiredByNewEdge(a, from, to);
    forall k | k in r
      ensures d in r[k].dependents <==> d in a[k].dependents || (k == from && d == to)
    {
    }
  }

  /** Adding an edge keeps every dependent existing, distinct from its
      lister and listed once. */
  lemma RequiredByKeepsLinks(a: Arena, from: nat, to: nat)
    requires WellLinked(a) && from in a && to in a && from != to
    ensures WellLinked(RequiredBy(a, from, to).value)
  {
    if to !in a[from].dependents {
      var r := RequiredBy(a, from, to).value;
      RequiredByNewEdge(a, from, to);
      assert NoDuplicates(a[from].dependents);
    }
  }

  /** After a new edge every count still equals its number of listers:
      the target gains exactly one, the source. */
  lemma CountAfterEdge(a: Arena, from: nat, to: nat, d: nat)
    requires Valid(a) && from in a && to in a && from != to && to !in a[from].dependents && d in a
    ensures RequiredBy(a, from, to).value[d].count == |Listers(RequiredBy(a, from, to).value, d)|
  {
    ListersAfterEdge(a, from, to, d);
    RequiredByNewEdge(a, from, to);
    if d == to {
      assert from !in Listers(a, d);
    }
  }

  /** Adding an edge keeps the arena valid. */
  lemma RequiredByKeepsValid(a: Arena, from: nat, to: nat)
    requires Valid(a) && from in a && to in a && from != to
    ensures Valid(RequiredBy(a, from, to).value)
  {
    RequiredByKeepsLinks(a, from, to);
    if to !in a[from].dependents {
      var r := RequiredBy(a, from, to).value;
      forall d | d in r
        ensures r[d].count == |Listers(r, d)|
      {
        CountAfterEdge(a, from, to, d);
      }
    }
  }

  /** An edge from an older to a newer transaction keeps edges forward. */
  lemma RequiredByKeepsForward(a: Arena, from: nat, to: nat)
    requires Forward(a) && from in a && to in a && from < to
    ensures Forward(RequiredBy(a, from, to).value)
  {
    if to !in a[from].dependents {
      RequiredByNewEdge(a, from, to);
    }
  }

  /** Lowers the count of each of `ds` by one, in order; a count already at
      zero underflows. */
  function DecrementAll(a: Arena, ds: seq<nat>): (r: Result<Arena>)
    requires forall d :: d in ds ==> d in a
    ensures r.Ok? ==> r.value.Keys == a.Keys
    ensures r.Err? ==> r.fault == CounterUnderflow
  {
    if |ds| == 0 then Ok(a)
    else if a[ds[0]].count == 0 then Err(CounterUnderflow)
    else DecrementAll(a[ds[0] := a[ds[0]].(count := a[ds[0]].count - 1)], ds[1..])
  }

  /** Marks transaction `id` finished: each of its dependents waits for one
      transaction fewer. */
  function Ended(a: Arena, id: nat): (r: Result<Arena>)
    requires id in a && forall d :: d in a[id].dependents ==> d in a
    ensures r.Ok? ==> r.value.Keys == a.Keys
    ensures r.Err? ==> r.fault == CounterUnderflow
  {
    DecrementAll(a, a[id].dependents)
  }

  /** With distinct dependents whose counts are positive, every dependent's
      count drops by exactly one and nothing else changes. */
  lemma {:induction false} DecrementAllExact(a: Arena, ds: seq<nat>)
    requires forall d :: d in ds ==> d in a && a[d].count >= 1
    requires NoDuplicates(ds)
    ensures DecrementAll(a, ds).Ok?
    ensures forall k :: k in a ==>
              DecrementAll(a, ds).value[k] == a[k].(count := a[k].count - (if k in ds then 1 else 0))
  {
    if |ds| > 0 {
      var a1 := a[ds[0] := a[ds[0]].(count := a[ds[0]].count - 1)];
      assert forall d :: d in ds[1..] ==> d in ds && d != ds[0];
      DecrementAllExact(a1, ds[1..]);
      assert forall k :: k in ds <==> k == ds[0] || k in ds[1..];
    }
  }

  /** Finishing a transaction of a valid arena never underflows: each of
      its dependents is listed by it, so waits for at least one. */
  lemma EndedOnValid(a: Arena, id: nat)
    requires Valid(a) && id in a
    ensures Ended(a, id).Ok?
    ensures forall k :: k in a ==>
              Ended(a, id).value[k].count + (if k in a[id].dependents then 1 else 0) == a[k].count
              && Ended(a, id).value[k].dependents == a[k].dependents && Ended(a, id).value[k].id == a[k].id
  {
    forall d | d in a[id].dependents
      ensures a[d].count >= 1
    {
      assert id in Listers(a, d);
    }
    DecrementAllExact(a, a[id].dependents);
  }
}
