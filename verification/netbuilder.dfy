/** The transaction scheduler (src/net/netbuilder.rs): each submitted
    transaction gets edges from every earlier transaction it must follow,
    by storage conflicts on the contracts it may touch, by the constructor
    of each such contract, and by transactions whose calls were left to run
    time. */
module NetBuilding {
  import opened Words
  import opened Outcomes
  import opened Values
  import opened ContractUtils
  import opened ContractSummaries
  import opened Transactions

  /** Per-contract scheduling state: the constructor's transaction and, per
      resolved storage slot, the transactions writing and reading it, in
      submission order. */
  datatype ContractStorage = ContractStorage(
    constructorTx: Option<nat>,
    storageWrite: map<U256, seq<nat>>,
    storageRead: map<U256, seq<nat>>)

  function NewStorage(): (s: ContractStorage)
    ensures s.constructorTx.None? && |s.storageWrite| == 0 && |s.storageRead| == 0
  {
    ContractStorage(None, map[], map[])
  }

  /** A transaction whose external call could not be followed statically,
      with the contract and selector it was submitted for (0 for a
      constructor). */
  datatype Delegated = Delegated(contract: U256, selector: U256, tx: nat)

  /** `order` lists the registered contracts in registration order; the
      original iterates its hash map instead, in an unspecified order. */
  datatype NetBuilder = NetBuilder(
    contracts: map<U256, ContractStorage>,
    contractData: map<U256, ContractData>,
    order: seq<U256>,
    runtimeDependent: seq<Delegated>,
    zeroDeps: seq<nat>,
    counter: nat,
    threshold: nat,
    txs: Arena)

  const DEFAULT_THRESHOLD: nat := 10

  function NewNetBuilder(): (nb: NetBuilder)
    ensures nb.counter == 0 && nb.threshold == DEFAULT_THRESHOLD && Wf(nb)
    ensures |nb.contracts| == 0 && |nb.contractData| == 0 && |nb.txs| == 0
    ensures |nb.runtimeDependent| == 0 && |nb.zeroDeps| == 0
  {
    NetBuilder(map[], map[], [], [], [], 0, DEFAULT_THRESHOLD, map[])
  }

  /** Registers (or re-registers, with fresh scheduling state) a contract. */
  function RegisterContract(nb: NetBuilder, address: U256, data: ContractData): (r: NetBuilder)
    ensures r.contracts == nb.contracts[address := NewStorage()]
    ensures r.contractData == nb.contractData[address := data]
    ensures (set c | c in r.order) == (set c | c in nb.order) + {address}
    ensures NoDuplicates(nb.order) ==> NoDuplicates(r.order)
    ensures r.txs == nb.txs && r.counter == nb.counter && r.threshold == nb.threshold
    ensures Wf(nb) ==> Wf(r)
  {
    NetBuilder(nb.contracts[address := NewStorage()], nb.contractData[address := data],
               if address in nb.order then nb.order else nb.order + [address],
               nb.runtimeDependent, nb.zeroDeps, nb.counter, nb.threshold, nb.txs)
  }

  // ---------------------------------------------------------------------
  // Arena growth

  /** Every id of the arena is at most `id`. */
  predicate Below(a: Arena, id: nat)
  {
    forall k :: k in a ==> k <= id
  }

  /** `a2` is `a` with edges added towards `id` only: the same
      transactions, each listing `id` at most once more, no count but
      `id`'s changed, and `id`'s count raised by its number of new
      listers. */
  predicate Towards(a: Arena, a2: Arena, id: nat)
  {
    a2.Keys == a.Keys
    && (forall k :: k in a ==>
          a2[k].id == a[k].id
          && (a2[k].dependents == a[k].dependents
              || (k != id && id !in a[k].dependents && a2[k].dependents == a[k].dependents + [id]))
          && (k != id ==> a2[k].count == a[k].count))
    && (id in a ==> a2[id].count + |Listers(a, id)| == a[id].count + |Listers(a2, id)|)
  }

  lemma TowardsReflexive(a: Arena, id: nat)
    ensures Towards(a, a, id)
  {
  }

  lemma TowardsTransitive(a: Arena, b: Arena, c: Arena, id: nat)
    requires Towards(a, b, id) && Towards(b, c, id)
    ensures Towards(a, c, id)
  {
    forall k | k in a
      ensures c[k].dependents == a[k].dependents
              || (k != id && id !in a[k].dependents && c[k].dependents == a[k].dependents + [id])
    {
      if b[k].dependents != a[k].dependents {
        assert id in b[k].dependents;
      }
    }
  }

  /** One new edge towards `id` is growth towards `id`. */
  lemma RequiredByTowards(a: Arena, from: nat, id: nat)
    requires from in a && id in a && from != id
    ensures Towards(a, RequiredBy(a, from, id).value, id)
  {
    if id !in a[from].dependents {
      var r := RequiredBy(a, from, id).value;
      RequiredByNewEdge(a, from, id);
      ListersAfterEdge(a, from, id, id);
      assert from !in Listers(a, id);
    }
  }

  /** Growth towards an existing `id` keeps an arena valid. */
  lemma TowardsKeepsValid(a: Arena, a2: Arena, id: nat)
    requires Towards(a, a2, id) && Valid(a) && id in a
    ensures Valid(a2)
  {
    forall k | k in a2
      ensures NoDuplicates(a2[k].dependents)
    {
      if a2[k].dependents != a[k].dependents {
        var l := a[k].dependents;
        assert NoDuplicates(l);
        assert forall i :: 0 <= i < |l| ==> (l + [id])[i] == l[i];
      }
    }
    forall d | d in a2
      ensures a2[d].count == |Listers(a2, d)|
    {
      if d != id {
        assert Listers(a2, d) == Listers(a, d);
      }
    }
  }

  /** Growth towards an id no smaller than any other keeps edges forward. */
  lemma TowardsKeepsForward(a: Arena, a2: Arena, id: nat)
    requires Towards(a, a2, id) && Forward(a) && Below(a, id)
    ensures Forward(a2)
  {
    forall k, d | k in a2 && d in a2[k].dependents
      ensures k < d
    {
      if d !in a[k].dependents {
        assert d == id && k != id;
      }
    }
  }

  /** Makes `id` wait for each of `sources` in order, skipping `id` itself
      when `skipSelf` is set. */
  function AddEdges(a: Arena, sources: seq<nat>, id: nat, skipSelf: bool): (r: Result<Arena>)
    requires id in a && forall s :: s in sources ==> s in a
    ensures r.Ok? ==> Towards(a, r.value, id)
    ensures r.Ok? ==> forall s :: s in sources && s != id ==> id in r.value[s].dependents
    ensures r.Err? <==> !skipSelf && id in sources
    ensures r.Err? ==> r.fault == ReentrantLock
    decreases |sources|
  {
    if |sources| == 0 then
      TowardsReflexive(a, id);
      Ok(a)
    else if skipSelf && sources[0] == id then
      assert forall s :: s in sources <==> s == sources[0] || s in sources[1..];
      AddEdges(a, sources[1..], id, skipSelf)
    else
      assert forall s :: s in sources <==> s == sources[0] || s in sources[1..];
      match RequiredBy(a, sources[0], id)
      case Err(e) => Err(e)
      case Ok(a1) =>
        RequiredByTowards(a, sources[0], id);
        match AddEdges(a1, sources[1..], id, skipSelf)
        case Err(e) => Err(e)
        case Ok(a2) =>
          TowardsTransitive(a, a1, a2, id);
          Ok(a2)
  }

  // ---------------------------------------------------------------------
  // Reader and writer lists

  function ListOf(m: map<U256, seq<nat>>, slot: U256): seq<nat>
  {
    if slot in m then m[slot] else []
  }

  /** `l2` is `l` with copies of `x` appended. */
  predicate GrownBy<T(==)>(l: seq<T>, l2: seq<T>, x: T)
  {
    l <= l2 && forall j :: |l| <= j < |l2| ==> l2[j] == x
  }

  /** Every slot's list of `m2` is that of `m` with copies of `id` appended. */
  predicate ListsGrow(m: map<U256, seq<nat>>, m2: map<U256, seq<nat>>, id: nat)
  {
    forall slot: U256 :: GrownBy(ListOf(m, slot), ListOf(m2, slot), id)
  }

  lemma ListsGrowReflexive(m: map<U256, seq<nat>>, id: nat)
    ensures ListsGrow(m, m, id)
  {
  }

  lemma ListsGrowTransitive(m: map<U256, seq<nat>>, m2: map<U256, seq<nat>>, m3: map<U256, seq<nat>>, id: nat)
    requires ListsGrow(m, m2, id) && ListsGrow(m2, m3, id)
    ensures ListsGrow(m, m3, id)
  {
    forall slot: U256
      ensures GrownBy(ListOf(m, slot), ListOf(m3, slot), id)
    {
      assert GrownBy(ListOf(m, slot), ListOf(m2, slot), id);
      assert GrownBy(ListOf(m2, slot), ListOf(m3, slot), id);
      var l, l2, l3 := ListOf(m, slot), ListOf(m2, slot), ListOf(m3, slot);
      forall j | |l| <= j < |l3|
        ensures l3[j] == id
      {
        if j < |l2| {
          assert l3[j] == l2[j];
        }
      }
    }
  }

  /** Appending `id` to one slot's list. */
  lemma AppendGrows(m: map<U256, seq<nat>>, slot: U256, id: nat)
    ensures ListsGrow(m, m[slot := ListOf(m, slot) + [id]], id)
  {
    var m2 := m[slot := ListOf(m, slot) + [id]];
    forall s: U256
      ensures GrownBy(ListOf(m, s), ListOf(m2, s), id)
    {
    }
  }

  /** Every id the storage mentions is a transaction of `a`. */
  predicate StorageIn(st: ContractStorage, a: Arena)
  {
    (st.constructorTx.Some? ==> st.constructorTx.value in a)
    && (forall slot, t :: slot in st.storageWrite && t in st.storageWrite[slot] ==> t in a)
    && (forall slot, t :: slot in st.storageRead && t in st.storageRead[slot] ==> t in a)
  }

  /** The storage slot a classified location stands for; a location that
      does not fold aborts. */
  function Slot(access: DataType): Result<U256>
  {
    match Resolve(access.location)
    case Err(e) => Err(e)
    case Ok(None) => Err(UnresolvedOperand)
    case Ok(Some(w)) => Ok(w)
  }

  /** One read access: `id` waits for every writer of the slot (skipping
      itself when `skipSelf` is set), then joins the slot's readers. */
  function ReadOne(st: ContractStorage, a: Arena, id: nat, access: DataType, skipSelf: bool)
    : (r: Result<(ContractStorage, Arena)>)
    requires id in a && StorageIn(st, a)
    ensures r.Ok? ==> Towards(a, r.value.1, id) && StorageIn(r.value.0, r.value.1)
    ensures r.Ok? ==> r.value.0.storageWrite == st.storageWrite && r.value.0.constructorTx == st.constructorTx
    ensures r.Ok? ==> ListsGrow(st.storageRead, r.value.0.storageRead, id)
    ensures r.Ok? ==> Slot(access).Ok? && id in ListOf(r.value.0.storageRead, Slot(access).value)
    ensures r.Ok? ==> forall t :: t in ListOf(st.storageWrite, Slot(access).value) && t != id ==> id in r.value.1[t].dependents
    ensures r.Err? && skipSelf ==> r.fault != ReentrantLock
  {
    match Slot(access)
    case Err(e) => Err(e)
    case Ok(slot) =>
      match AddEdges(a, ListOf(st.storageWrite, slot), id, skipSelf)
      case Err(e) => Err(e)
      case Ok(a1) =>
        AppendGrows(st.storageRead, slot, id);
        Ok((st.(storageRead := st.storageRead[slot := ListOf(st.storageRead, slot) + [id]]), a1))
  }

  /** The read accesses of a method, in order. `skipSelf` says whether the
      reader's own earlier writes are skipped; the original does not skip
      them (see `AnalyzeReadsAsWritten`). */
  function AnalyzeReadsWith(st: ContractStorage, a: Arena, id: nat, accesses: seq<DataType>, skipSelf: bool)
    : (r: Result<(ContractStorage, Arena)>)
    requires id in a && StorageIn(st, a)
    ensures r.Ok? ==> Towards(a, r.value.1, id) && StorageIn(r.value.0, r.value.1)
    ensures r.Ok? ==> r.value.0.storageWrite == st.storageWrite && r.value.0.constructorTx == st.constructorTx
    ensures r.Ok? ==> ListsGrow(st.storageRead, r.value.0.storageRead, id)
    ensures r.Err? && skipSelf ==> r.fault != ReentrantLock
    decreases |accesses|
  {
    if |accesses| == 0 then
      TowardsReflexive(a, id);
      ListsGrowReflexive(st.storageRead, id);
      Ok((st, a))
    else
      match ReadOne(st, a, id, accesses[0], skipSelf)
      case Err(e) => Err(e)
      case Ok(p1) =>
        match AnalyzeReadsWith(p1.0, p1.1, id, accesses[1..], skipSelf)
        case Err(e) => Err(e)
        case Ok(p2) =>
          TowardsTransitive(a, p1.1, p2.1, id);
          ListsGrowTransitive(st.storageRead, p1.0.storageRead, p2.0.storageRead, id);
          Ok(p2)
  }

  /** The read path as the original has it: a transaction that already
      wrote a slot in this submission is asked to wait for itself. */
  function AnalyzeReadsAsWritten(st: ContractStorage, a: Arena, id: nat, accesses: seq<DataType>)
    : (r: Result<(ContractStorage, Arena)>)
    requires id in a && StorageIn(st, a)
    ensures r.Err? && (forall i :: 0 <= i < |accesses| ==> Slot(accesses[i]).Ok?) ==> r.fault == ReentrantLock
    ensures r.Ok? ==> r == AnalyzeReadsWith(st, a, id, accesses, true)
  {
    AnalyzeReadsSkipAgrees(st, a, id, accesses);
    AnalyzeReadsWith(st, a, id, accesses, false)
  }

  /** Without `id` among the writers met, skipping makes no difference; and
      with folding slots the unskipped walk only fails on a self edge. */
  lemma {:induction false} AnalyzeReadsSkipAgrees(st: ContractStorage, a: Arena, id: nat, accesses: seq<DataType>)
    requires id in a && StorageIn(st, a)
    ensures AnalyzeReadsWith(st, a, id, accesses, false).Ok? ==>
              AnalyzeReadsWith(st, a, id, accesses, false) == AnalyzeReadsWith(st, a, id, accesses, true)
    ensures (AnalyzeReadsWith(st, a, id, accesses, false).Err? && forall i :: 0 <= i < |accesses| ==> Slot(accesses[i]).Ok?)
              ==> AnalyzeReadsWith(st, a, id, accesses, false).fault == ReentrantLock
    decreases |accesses|
  {
    if |accesses| > 0 && Slot(accesses[0]).Ok? {
      var slot := Slot(accesses[0]).value;
      var writers := ListOf(st.storageWrite, slot);
      if id !in writers {
        AddEdgesSkipAgrees(a, writers, id);
        assert ReadOne(st, a, id, accesses[0], false) == ReadOne(st, a, id, accesses[0], true);
        var p1 := ReadOne(st, a, id, accesses[0], false).value;
        assert forall i :: 1 <= i < |accesses| ==> accesses[i] == accesses[1..][i - 1];
        AnalyzeReadsSkipAgrees(p1.0, p1.1, id, accesses[1..]);
      }
    }
  }

  /** The reachable case the original's read path gets wrong: transaction
      1 has already written slot 5 while analysing an earlier method of its
      worklist, and a later method reads slot 5. As written, 1 is asked to
      wait for itself; with the skip the read is recorded normally. */
  lemma SelfReadAfterOwnWrite()
    ensures var a, accesses := map[1 := NewTransaction(1)], [Field(ActualValue(5))];
            var w := AnalyzeWrites(NewStorage(), a, 1, accesses);
            w.Ok? && ListOf(w.value.0.storageWrite, 5) == [1]
            && AnalyzeReadsAsWritten(w.value.0, w.value.1, 1, accesses) == Err(ReentrantLock)
            && AnalyzeReadsWith(w.value.0, w.value.1, 1, accesses, true).Ok?
  {
    ResolveLiteral(5);
    var a, accesses := map[1 := NewTransaction(1)], [Field(ActualValue(5))];
    assert Slot(accesses[0]) == Ok(5);
    var st0 := NewStorage();
    assert st0 == ContractStorage(None, map[], map[]);
    assert [] + [1] == [1];
    assert ListOf(st0.storageWrite, 5) == [] && ListOf(st0.storageRead, 5) == [];
    var w1 := WriteOne(st0, a, 1, accesses[0]);
    assert AddEdges(a, [], 1, true) == Ok(a);
    assert map[][5 := [1]] == map[5 := [1]];
    assert w1 == Ok((st0.(storageWrite := map[5 := [1]]), a));
    assert AnalyzeWrites(st0, a, 1, accesses) == w1;
    var st1 := st0.(storageWrite := map[5 := [1]]);
    assert ListOf(st1.storageWrite, 5) == [1];
    assert AddEdges(a, [1], 1, false) == Err(ReentrantLock);
    assert ReadOne(st1, a, 1, accesses[0], false) == Err(ReentrantLock);
    assert AddEdges(a, [1], 1, true) == Ok(a);
    assert ReadOne(st1, a, 1, accesses[0], true).Ok?;
  }

  /** Skipping changes the edges only where the unskipped walk self-locks. */
  lemma AddEdgesSkipDiffers(a: Arena, sources: seq<nat>, id: nat)
    requires id in a && forall s :: s in sources ==> s in a
    ensures SameOrLocked(AddEdges(a, sources, id, false), AddEdges(a, sources, id, true))
  {
    if id !in sources {
      AddEdgesSkipAgrees(a, sources, id);
    }
  }

  /** The same for one read access. */
  lemma ReadOneSkipDiffers(st: ContractStorage, a: Arena, id: nat, access: DataType)
    requires id in a && StorageIn(st, a)
    ensures SameOrLocked(ReadOne(st, a, id, access, false), ReadOne(st, a, id, access, true))
  {
    if Slot(access).Ok? {
      AddEdgesSkipDiffers(a, ListOf(st.storageWrite, Slot(access).value), id);
    }
  }

  /** The same for a method's reads: the two read paths part only where the
      original's self-locks. */
  lemma {:induction false} AnalyzeReadsSkipDiffers(st: ContractStorage, a: Arena, id: nat, accesses: seq<DataType>)
    requires id in a && StorageIn(st, a)
    ensures SameOrLocked(AnalyzeReadsWith(st, a, id, accesses, false), AnalyzeReadsWith(st, a, id, accesses, true))
    decreases |accesses|
  {
    if |accesses| > 0 {
      ReadOneSkipDiffers(st, a, id, accesses[0]);
      var r1 := ReadOne(st, a, id, accesses[0], false);
      if r1 == ReadOne(st, a, id, accesses[0], true) && r1.Ok? {
        AnalyzeReadsSkipDiffers(r1.value.0, r1.value.1, id, accesses[1..]);
      }
    }
  }

  /** Without `id` among the sources, skipping makes no difference. */
  lemma {:induction false} AddEdgesSkipAgrees(a: Arena, sources: seq<nat>, id: nat)
    requires id in a && (forall s :: s in sources ==> s in a) && id !in sources
    ensures AddEdges(a, sources, id, false) == AddEdges(a, sources, id, true)
    decreases |sources|
  {
    if |sources| > 0 {
      assert forall s :: s in sources[1..] ==> s in sources;
      var a1 := RequiredBy(a, sources[0], id).value;
      AddEdgesSkipAgrees(a1, sources[1..], id);
    }
  }

  /** One write access: `id` waits for every other writer and reader of
      the slot, then joins the slot's writers only. */
  function WriteOne(st: ContractStorage, a: Arena, id: nat, access: DataType)
    : (r: Result<(ContractStorage, Arena)>)
    requires id in a && StorageIn(st, a)
    ensures r.Ok? ==> Towards(a, r.value.1, id) && StorageIn(r.value.0, r.value.1)
    ensures r.Ok? ==> r.value.0.storageRead == st.storageRead && r.value.0.constructorTx == st.constructorTx
    ensures r.Ok? ==> ListsGrow(st.storageWrite, r.value.0.storageWrite, id)
    ensures r.Ok? ==> Slot(access).Ok? && id in ListOf(r.value.0.storageWrite, Slot(access).value)
    ensures r.Ok? ==> forall t :: t != id && (t in ListOf(st.storageWrite, Slot(access).value) || t in ListOf(st.storageRead, Slot(access).value))
                        ==> t in r.value.1 && id in r.value.1[t].dependents
    ensures r.Err? ==> r.fault != ReentrantLock
  {
    match Slot(access)
    case Err(e) => Err(e)
    case Ok(slot) =>
      var writers := ListOf(st.storageWrite, slot);
      match AddEdges(a, writers, id, true)
      case Err(e) => Err(e)
      case Ok(a1) =>
        match AddEdges(a1, ListOf(st.storageRead, slot), id, true)
        case Err(e) => Err(e)
        case Ok(a2) =>
          TowardsTransitive(a, a1, a2, id);
          forall t | t in writers && t != id
            ensures id in a2[t].dependents
          {
            EdgeKept(a1, a2, t, id);
          }
          AppendGrows(st.storageWrite, slot, id);
          Ok((st.(storageWrite := st.storageWrite[slot := writers + [id]]), a2))
  }

  /** Every other earlier writer or reader of each slot that `accesses`
      write lists `id` among its dependents in `a2`. */
  ghost predicate WaitsForAccesses(st: ContractStorage, id: nat, accesses: seq<DataType>, a2: Arena)
  {
    forall i, t :: 0 <= i < |accesses| && Slot(accesses[i]).Ok? && t != id
      && (t in ListOf(st.storageWrite, Slot(accesses[i]).value) || t in ListOf(st.storageRead, Slot(accesses[i]).value))
      ==> t in a2 && id in a2[t].dependents
  }

  /** A writer or reader of a slot stays one when only the writer lists grow. */
  lemma AccessKept(st: ContractStorage, st1: ContractStorage, slot: U256, t: nat, id: nat)
    requires ListsGrow(st.storageWrite, st1.storageWrite, id) && st1.storageRead == st.storageRead
    requires t in ListOf(st.storageWrite, slot) || t in ListOf(st.storageRead, slot)
    ensures t in ListOf(st1.storageWrite, slot) || t in ListOf(st1.storageRead, slot)
  {
    if t in ListOf(st.storageWrite, slot) {
      MemberKept(st.storageWrite, st1.storageWrite, slot, t, id);
    }
  }

  /** The first write's waits survive the rest of the pass, and the rest's
      waits hold for the storage before the first write. */
  lemma WaitsCompose(st: ContractStorage, st1: ContractStorage, a1: Arena, a2: Arena, id: nat, accesses: seq<DataType>)
    requires |accesses| > 0 && Slot(accesses[0]).Ok? && Towards(a1, a2, id)
    requires forall t :: t != id && (t in ListOf(st.storageWrite, Slot(accesses[0]).value) || t in ListOf(st.storageRead, Slot(accesses[0]).value))
                ==> t in a1 && id in a1[t].dependents
    requires ListsGrow(st.storageWrite, st1.storageWrite, id) && st1.storageRead == st.storageRead
    requires WaitsForAccesses(st1, id, accesses[1..], a2)
    ensures WaitsForAccesses(st, id, accesses, a2)
  {
    forall i, t | 0 <= i < |accesses| && Slot(accesses[i]).Ok? && t != id
        && (t in ListOf(st.storageWrite, Slot(accesses[i]).value) || t in ListOf(st.storageRead, Slot(accesses[i]).value))
      ensures t in a2 && id in a2[t].dependents
    {
      if i == 0 {
        EdgeKept(a1, a2, t, id);
      } else {
        assert accesses[i] == accesses[1..][i - 1];
        AccessKept(st, st1, Slot(accesses[i]).value, t, id);
      }
    }
  }

  /** The write accesses of a method, in order. */
  function AnalyzeWrites(st: ContractStorage, a: Arena, id: nat, accesses: seq<DataType>)
    : (r: Result<(ContractStorage, Arena)>)
    requires id in a && StorageIn(st, a)
    ensures r.Ok? ==> Towards(a, r.value.1, id) && StorageIn(r.value.0, r.value.1)
    ensures r.Ok? ==> r.value.0.storageRead == st.storageRead && r.value.0.constructorTx == st.constructorTx
    ensures r.Ok? ==> ListsGrow(st.storageWrite, r.value.0.storageWrite, id)
    ensures r.Ok? ==> WaitsForAccesses(st, id, accesses, r.value.1)
    ensures r.Err? ==> r.fault != ReentrantLock
    decreases |accesses|
  {
    if |accesses| == 0 then
      TowardsReflexive(a, id);
      ListsGrowReflexive(st.storageWrite, id);
      Ok((st, a))
    else
      match WriteOne(st, a, id, accesses[0])
      case Err(e) => Err(e)
      case Ok(p1) =>
        match AnalyzeWrites(p1.0, p1.1, id, accesses[1..])
        case Err(e) => Err(e)
        case Ok(p2) =>
          TowardsTransitive(a, p1.1, p2.1, id);
          ListsGrowTransitive(st.storageWrite, p1.0.storageWrite, p2.0.storageWrite, id);
          WaitsCompose(st, p1.0, p1.1, p2.1, id, accesses);
          Ok(p2)
  }

  /** An edge towards `id` survives growth towards `id`. */
  lemma EdgeKept(a: Arena, a2: Arena, t: nat, id: nat)
    requires Towards(a, a2, id) && t in a && id in a[t].dependents
    ensures id in a2[t].dependents
  {
    assert a[t].dependents <= a2[t].dependents;
  }

  /** A slot's list member survives list growth. */
  lemma MemberKept(m: map<U256, seq<nat>>, m2: map<U256, seq<nat>>, slot: U256, t: nat, id: nat)
    requires ListsGrow(m, m2, id) && t in ListOf(m, slot)
    ensures t in ListOf(m2, slot)
  {
    assert GrownBy(ListOf(m, slot), ListOf(m2, slot), id);
  }

  /** Every slot a successful read pass meets folds, and the reader ends up
      among that slot's readers. */
  lemma {:induction false} ReadsJoinReaders(st: ContractStorage, a: Arena, id: nat, accesses: seq<DataType>, skipSelf: bool)
    requires id in a && StorageIn(st, a)
    requires AnalyzeReadsWith(st, a, id, accesses, skipSelf).Ok?
    ensures forall i :: 0 <= i < |accesses| ==>
              Slot(accesses[i]).Ok? && id in ListOf(AnalyzeReadsWith(st, a, id, accesses, skipSelf).value.0.storageRead, Slot(accesses[i]).value)
    decreases |accesses|
  {
    if |accesses| > 0 {
      var r := AnalyzeReadsWith(st, a, id, accesses, skipSelf).value;
      var p1 := ReadOne(st, a, id, accesses[0], skipSelf).value;
      ReadsJoinReaders(p1.0, p1.1, id, accesses[1..], skipSelf);
      assert r == AnalyzeReadsWith(p1.0, p1.1, id, accesses[1..], skipSelf).value;
      forall i | 0 <= i < |accesses|
        ensures Slot(accesses[i]).Ok? && id in ListOf(r.0.storageRead, Slot(accesses[i]).value)
      {
        if i == 0 {
          MemberKept(p1.0.storageRead, r.0.storageRead, Slot(accesses[0]).value, id, id);
        } else {
          assert accesses[i] == accesses[1..][i - 1];
        }
      }
    }
  }

  /** Reading a slot makes the reader wait for every other earlier writer
      of it. */
  lemma {:induction false} ReadsWaitForWriters(st: ContractStorage, a: Arena, id: nat, accesses: seq<DataType>, skipSelf: bool)
    requires id in a && StorageIn(st, a)
    requires AnalyzeReadsWith(st, a, id, accesses, skipSelf).Ok?
    ensures forall i, t :: 0 <= i < |accesses| && Slot(accesses[i]).Ok? && t in ListOf(st.storageWrite, Slot(accesses[i]).value) && t != id
              ==> id in AnalyzeReadsWith(st, a, id, accesses, skipSelf).value.1[t].dependents
    decreases |accesses|
  {
    if |accesses| > 0 {
      var r := AnalyzeReadsWith(st, a, id, accesses, skipSelf).value;
      var p1 := ReadOne(st, a, id, accesses[0], skipSelf).value;
      ReadsWaitForWriters(p1.0, p1.1, id, accesses[1..], skipSelf);
      assert r == AnalyzeReadsWith(p1.0, p1.1, id, accesses[1..], skipSelf).value;
      forall i, t | 0 <= i < |accesses| && Slot(accesses[i]).Ok? && t in ListOf(st.storageWrite, Slot(accesses[i]).value) && t != id
        ensures id in r.1[t].dependents
      {
        if i == 0 {
          EdgeKept(p1.1, r.1, t, id);
        } else {
          assert accesses[i] == accesses[1..][i - 1];
        }
      }
    }
  }

  /** Every slot a successful write pass meets folds, and the writer ends
      up among that slot's writers. */
  lemma {:induction false} WritesJoinWriters(st: ContractStorage, a: Arena, id: nat, accesses: seq<DataType>)
    requires id in a && StorageIn(st, a)
    requires AnalyzeWrites(st, a, id, accesses).Ok?
    ensures forall i :: 0 <= i < |accesses| ==>
              Slot(accesses[i]).Ok? && id in ListOf(AnalyzeWrites(st, a, id, accesses).value.0.storageWrite, Slot(accesses[i]).value)
    decreases |accesses|
  {
    if |accesses| > 0 {
      var r := AnalyzeWrites(st, a, id, accesses).value;
      var p1 := WriteOne(st, a, id, accesses[0]).value;
      WritesJoinWriters(p1.0, p1.1, id, accesses[1..]);
      assert r == AnalyzeWrites(p1.0, p1.1, id, accesses[1..]).value;
      forall i | 0 <= i < |accesses|
        ensures Slot(accesses[i]).Ok? && id in ListOf(r.0.storageWrite, Slot(accesses[i]).value)
      {
        if i == 0 {
          MemberKept(p1.0.storageWrite, r.0.storageWrite, Slot(accesses[0]).value, id, id);
        } else {
          assert accesses[i] == accesses[1..][i - 1];
        }
      }
    }
  }

  

  /** A method's accesses: its reads, then its writes. With `skipSelf`
      false this is the original's read path, which can self-lock. */
  function AnalyzeMethod(m: ContractMethod, st: ContractStorage, a: Arena, id: nat, skipSelf: bool): (r: Result<(ContractStorage, Arena)>)
    requires id in a && StorageIn(st, a)
    ensures r.Ok? ==> Towards(a, r.value.1, id) && StorageIn(r.value.0, r.value.1)
    ensures r.Ok? ==> r.value.0.constructorTx == st.constructorTx
    ensures r.Ok? ==> ListsGrow(st.storageRead, r.value.0.storageRead, id) && ListsGrow(st.storageWrite, r.value.0.storageWrite, id)
    ensures r.Err? && skipSelf ==> r.fault != ReentrantLock
  {
    match AnalyzeReadsWith(st, a, id, m.storageRead, skipSelf)
    case Err(e) => Err(e)
    case Ok(p1) =>
      match AnalyzeWrites(p1.0, p1.1, id, m.storageWrite)
      case Err(e) => Err(e)
      case Ok(p2) =>
        TowardsTransitive(a, p1.1, p2.1, id);
        ListsGrowReflexive(p2.0.storageWrite, id);
        ListsGrowReflexive(st.storageRead, id);
        ListsGrowTransitive(st.storageRead, p1.0.storageRead, p2.0.storageRead, id);
        Ok(p2)
  }

  /** Every slot read and written by a successfully analysed method gets its
      edges: the reads wait for the slot's earlier writers, the writes for
      its earlier writers and readers, the method's own transaction aside. */
  lemma MethodEdges(m: ContractMethod, st: ContractStorage, a: Arena, id: nat, skipSelf: bool)
    requires id in a && StorageIn(st, a)
    requires AnalyzeMethod(m, st, a, id, skipSelf).Ok?
    ensures forall i, t :: 0 <= i < |m.storageRead| && Slot(m.storageRead[i]).Ok? && t != id
              && t in ListOf(st.storageWrite, Slot(m.storageRead[i]).value)
              ==> id in AnalyzeMethod(m, st, a, id, skipSelf).value.1[t].dependents
    ensures forall i, t :: 0 <= i < |m.storageWrite| && Slot(m.storageWrite[i]).Ok? && t != id
              && (t in ListOf(st.storageWrite, Slot(m.storageWrite[i]).value) || t in ListOf(st.storageRead, Slot(m.storageWrite[i]).value))
              ==> id in AnalyzeMethod(m, st, a, id, skipSelf).value.1[t].dependents
  {
    var p1 := AnalyzeReadsWith(st, a, id, m.storageRead, skipSelf).value;
    var p2 := AnalyzeWrites(p1.0, p1.1, id, m.storageWrite).value;
    ReadsWaitForWriters(st, a, id, m.storageRead, skipSelf);
    forall i, t | 0 <= i < |m.storageRead| && Slot(m.storageRead[i]).Ok? && t != id
        && t in ListOf(st.storageWrite, Slot(m.storageRead[i]).value)
      ensures id in p2.1[t].dependents
    {
      EdgeKept(p1.1, p2.1, t, id);
    }
    forall i, t | 0 <= i < |m.storageWrite| && Slot(m.storageWrite[i]).Ok? && t != id
        && t in ListOf(st.storageRead, Slot(m.storageWrite[i]).value)
      ensures t in ListOf(p1.0.storageRead, Slot(m.storageWrite[i]).value)
    {
      MemberKept(st.storageRead, p1.0.storageRead, Slot(m.storageWrite[i]).value, t, id);
    }
  }

  /** The original and the corrected method analysis part only where the
      original self-locks. */
  lemma AnalyzeMethodSkipDiffers(m: ContractMethod, st: ContractStorage, a: Arena, id: nat)
    requires id in a && StorageIn(st, a)
    ensures SameOrLocked(AnalyzeMethod(m, st, a, id, false), AnalyzeMethod(m, st, a, id, true))
  {
    AnalyzeReadsSkipDiffers(st, a, id, m.storageRead);
  }

  // ---------------------------------------------------------------------
  // External-call routing

  /** A method waiting to be analysed for the current submission. */
  datatype Pending = Pending(contract: U256, summary: ContractMethod)

  /** The registered methods with selector `sel`, one per contract, in
      registration order. */
  function Compatible(data: map<U256, ContractData>, order: seq<U256>, sel: U256): (r: seq<Pending>)
    ensures forall p :: p in r ==> (p.contract in order && p.contract in data
              && sel in data[p.contract].methods && p.summary == data[p.contract].methods[sel])
    ensures forall c :: c in order && c in data && sel in data[c].methods ==> Pending(c, data[c].methods[sel]) in r
    ensures |r| <= |order|
  {
    if |order| == 0 then []
    else
      var c := order[0];
      var rest := Compatible(data, order[1..], sel);
      assert forall x :: x in order <==> x == c || x in order[1..];
      (if c in data && sel in data[c].methods then [Pending(c, data[c].methods[sel])] else []) + rest
  }

  /** Where one external call goes: analysed now (the listed methods), or
      left to run time. */
  datatype Route = Inline(items: seq<Pending>) | Defer

  /** Routes one call site. A resolved contract and selector name one
      method; a resolved selector alone names every registered method with
      it, unless there are `threshold` or more; an unresolved selector is
      left to run time. */
  function RouteOne(data: map<U256, ContractData>, order: seq<U256>, threshold: nat, call: CallSite): (r: Result<Route>)
    ensures r.Ok? ==> Resolve(call.target).Ok? && Resolve(call.data).Ok?
    ensures r.Err? ==> r.fault != ReentrantLock
    ensures r.Ok? && Resolve(call.data).value.None? ==> r.value.Defer?
    ensures r.Ok? && r.value.Defer? ==> Resolve(call.data).value.None? || Resolve(call.target).value.None?
    ensures r.Ok? && r.value.Inline? ==> |r.value.items| < threshold || |r.value.items| == 1
    ensures r.Ok? && r.value.Inline? ==>
              var sel := Resolve(call.data).value.value;
              forall p :: p in r.value.items ==> (p.contract in data && sel in data[p.contract].methods
                            && p.summary == data[p.contract].methods[sel])
    ensures Resolve(call.target).Ok? && Resolve(call.target).value.Some? && Resolve(call.data).Ok? && Resolve(call.data).value.Some? ==>
              var c, sel := Resolve(call.target).value.value, Resolve(call.data).value.value;
              (c !in data ==> r == Err(MissingContract))
              && (c in data && sel !in data[c].methods ==> r == Err(MissingMethod))
              && (c in data && sel in data[c].methods ==> r == Ok(Inline([Pending(c, data[c].methods[sel])])))
    ensures Resolve(call.target).Ok? && Resolve(call.target).value.None? && Resolve(call.data).Ok? && Resolve(call.data).value.Some? ==>
              var sel := Resolve(call.data).value.value;
              r.Ok? && (r.value.Defer? <==> |Compatible(data, order, sel)| >= threshold)
  {
    match Resolve(call.target)
    case Err(e) => Err(e)
    case Ok(target) =>
      match Resolve(call.data)
      case Err(e) => Err(e)
      case Ok(selector) =>
        if selector.None? then Ok(Defer)
        else if target.Some? then
          if target.value !in data then Err(MissingContract)
          else if selector.value !in data[target.value].methods then Err(MissingMethod)
          else Ok(Inline([Pending(target.value, data[target.value].methods[selector.value])]))
        else
          var compatible := Compatible(data, order, selector.value);
          if |compatible| < threshold then Ok(Inline(compatible)) else Ok(Defer)
  }

  /** Routes every call site of a method, in order: inlined methods join the
      worklist, deferred calls record `entry` among the runtime dependents. */
  function RouteCalls(nb: NetBuilder, calls: seq<CallSite>, work: seq<Pending>, entry: Delegated)
    : (r: Result<(NetBuilder, seq<Pending>)>)
    ensures r.Ok? ==> r.value.0 == nb.(runtimeDependent := r.value.0.runtimeDependent)
    ensures r.Ok? ==> GrownBy(nb.runtimeDependent, r.value.0.runtimeDependent, entry)
    ensures r.Ok? ==> work <= r.value.1
    ensures r.Ok? ==> forall p :: p in r.value.1[|work|..] ==> p.contract in nb.contractData
    ensures r.Err? ==> r.fault != ReentrantLock
    decreases |calls|
  {
    if |calls| == 0 then Ok((nb, work))
    else
      match RouteOne(nb.contractData, nb.order, nb.threshold, calls[0])
      case Err(e) => Err(e)
      case Ok(route) =>
        var nb1 := if route.Defer? then nb.(runtimeDependent := nb.runtimeDependent + [entry]) else nb;
        var work1 := if route.Inline? then work + route.items else work;
        match RouteCalls(nb1, calls[1..], work1, entry)
        case Err(e) => Err(e)
        case Ok(q) =>
          SuffixSplit(work, work1, q.1);
          GrownByStep(nb.runtimeDependent, nb1.runtimeDependent, q.0.runtimeDependent, entry);
          Ok(q)
  }

  /** What a list gained over `w` it gained over `w1`, or `w1` over `w`. */
  lemma SuffixSplit<T>(w: seq<T>, w1: seq<T>, q: seq<T>)
    requires w <= w1 && w1 <= q
    ensures forall p :: p in q[|w|..] ==> p in q[|w1|..] || p in w1[|w|..]
  {
    forall p | p in q[|w|..]
      ensures p in q[|w1|..] || p in w1[|w|..]
    {
      var k :| |w| <= k < |q| && q[k] == p;
      if k < |w1| {
        assert w1[|w|..][k - |w|] == p;
      } else {
        assert q[|w1|..][k - |w1|] == p;
      }
    }
  }

  /** Growing by at most one `x`, then by copies of `x`, grows by copies of `x`. */
  lemma GrownByStep<T>(l: seq<T>, l1: seq<T>, l2: seq<T>, x: T)
    requires l1 == l || l1 == l + [x]
    requires GrownBy(l1, l2, x)
    ensures GrownBy(l, l2, x)
  {
    assert l <= l1;
  }

  // ---------------------------------------------------------------------
  // The worklist

  /** The scheduler's references all name live transactions, `id` among
      them. */
  predicate Live(nb: NetBuilder, id: nat)
  {
    id in nb.txs
    && (forall c :: c in nb.contracts ==> StorageIn(nb.contracts[c], nb.txs))
    && (forall e :: e in nb.runtimeDependent ==> e.tx in nb.txs)
  }

  /** Every contract keeps its constructor and its lists only grow by `id`. */
  predicate StoresGrow(cs: map<U256, ContractStorage>, cs2: map<U256, ContractStorage>, id: nat)
  {
    cs2.Keys == cs.Keys
    && forall c :: c in cs ==>
         cs2[c].constructorTx == cs[c].constructorTx
         && ListsGrow(cs[c].storageRead, cs2[c].storageRead, id)
         && ListsGrow(cs[c].storageWrite, cs2[c].storageWrite, id)
  }

  /** What one submission's worklist may change: edges towards `id`, list
      entries for `id`, runtime entries for this submission; nothing else. */
  predicate Progress(nb: NetBuilder, nb2: NetBuilder, id: nat, entry: Delegated)
  {
    nb2.contractData == nb.contractData && nb2.order == nb.order && nb2.threshold == nb.threshold
    && nb2.counter == nb.counter && nb2.zeroDeps == nb.zeroDeps
    && StoresGrow(nb.contracts, nb2.contracts, id)
    && Towards(nb.txs, nb2.txs, id)
    && GrownBy(nb.runtimeDependent, nb2.runtimeDependent, entry)
  }

  lemma ProgressReflexive(nb: NetBuilder, id: nat, entry: Delegated)
    ensures Progress(nb, nb, id, entry)
  {
    TowardsReflexive(nb.txs, id);
    forall c | c in nb.contracts
      ensures ListsGrow(nb.contracts[c].storageRead, nb.contracts[c].storageRead, id)
      ensures ListsGrow(nb.contracts[c].storageWrite, nb.contracts[c].storageWrite, id)
    {
      ListsGrowReflexive(nb.contracts[c].storageRead, id);
      ListsGrowReflexive(nb.contracts[c].storageWrite, id);
    }
  }

  lemma ProgressTransitive(nb: NetBuilder, nb2: NetBuilder, nb3: NetBuilder, id: nat, entry: Delegated)
    requires Progress(nb, nb2, id, entry) && Progress(nb2, nb3, id, entry)
    ensures Progress(nb, nb3, id, entry)
  {
    TowardsTransitive(nb.txs, nb2.txs, nb3.txs, id);
    forall c | c in nb.contracts
      ensures ListsGrow(nb.contracts[c].storageRead, nb3.contracts[c].storageRead, id)
      ensures ListsGrow(nb.contracts[c].storageWrite, nb3.contracts[c].storageWrite, id)
    {
      ListsGrowTransitive(nb.contracts[c].storageRead, nb2.contracts[c].storageRead, nb3.contracts[c].storageRead, id);
      ListsGrowTransitive(nb.contracts[c].storageWrite, nb2.contracts[c].storageWrite, nb3.contracts[c].storageWrite, id);
    }
    var l, l2, l3 := nb.runtimeDependent, nb2.runtimeDependent, nb3.runtimeDependent;
    forall j | |l| <= j < |l3|
      ensures l3[j] == entry
    {
      if j < |l2| {
        assert l3[j] == l2[j];
      }
    }
  }

  /** Storage references survive growth, which keeps the ids. */
  lemma StorageInSameKeys(st: ContractStorage, a: Arena, a2: Arena)
    requires StorageIn(st, a) && a2.Keys == a.Keys
    ensures StorageIn(st, a2)
  {
  }

  /** The edge from a contract's constructor, unless that contract's
      constructor is this submission. */
  function ConstructorEdge(a: Arena, st: ContractStorage, analyzed: bool, id: nat): (r: Result<Arena>)
    requires id in a && StorageIn(st, a)
    ensures r.Ok? ==> Towards(a, r.value, id)
    ensures r.Ok? && !analyzed ==> st.constructorTx.Some? && (st.constructorTx.value != id ==> id in r.value[st.constructorTx.value].dependents)
    ensures r.Err? <==> !analyzed && (st.constructorTx.None? || st.constructorTx.value == id)
    ensures r.Err? ==> r.fault == (if st.constructorTx.None? then MissingConstructor else ReentrantLock)
  {
    if analyzed then
      TowardsReflexive(a, id);
      Ok(a)
    else if st.constructorTx.None? then Err(MissingConstructor)
    else if st.constructorTx.value == id then RequiredBy(a, id, id)
    else
      RequiredByTowards(a, st.constructorTx.value, id);
      RequiredBy(a, st.constructorTx.value, id)
  }

  /** No contract still to be charged a constructor edge has this
      submission as its constructor. */
  predicate ConstructorsBefore(nb: NetBuilder, ctorAnalyzed: seq<U256>, id: nat)
  {
    forall c :: c in nb.contracts && c !in ctorAnalyzed && nb.contracts[c].constructorTx.Some?
      ==> nb.contracts[c].constructorTx.value != id
  }

  /** The storage side of one worklist item: its contract's constructor
      edge, then its accesses. Only the item's contract and the arena
      change. */
  function AnalyzeItem(nb: NetBuilder, item: Pending, analyzed: bool, id: nat, skipSelf: bool) : (r: Result<NetBuilder>)
    requires Live(nb, id)
    ensures r.Ok? ==> r.value == nb.(contracts := r.value.contracts, txs := r.value.txs)
    ensures r.Ok? ==> StoresGrow(nb.contracts, r.value.contracts, id) && Towards(nb.txs, r.value.txs, id) && Live(r.value, id)
    ensures r.Ok? ==> item.contract in nb.contracts
    ensures r.Err? && item.contract in nb.contracts && nb.contracts[item.contract].constructorTx == Some(id) ==> analyzed || r.fault == ReentrantLock
    ensures r.Err? && r.fault == ReentrantLock && skipSelf ==> !analyzed && item.contract in nb.contracts && nb.contracts[item.contract].constructorTx == Some(id)
  {
    if item.contract !in nb.contracts then Err(MissingContract)
    else
      var st := nb.contracts[item.contract];
      match ConstructorEdge(nb.txs, st, analyzed, id)
      case Err(e) => Err(e)
      case Ok(a1) =>
        StorageInSameKeys(st, nb.txs, a1);
        match AnalyzeMethod(item.summary, st, a1, id, skipSelf)
        case Err(e) => Err(e)
        case Ok(p) =>
          TowardsTransitive(nb.txs, a1, p.1, id);
          ReplaceStoreKeeps(nb, item.contract, p.0, p.1, id);
          Ok(nb.(contracts := nb.contracts[item.contract := p.0], txs := p.1))
  }

  /** The same for one worklist item. */
  lemma AnalyzeItemSkipDiffers(nb: NetBuilder, item: Pending, analyzed: bool, id: nat)
    requires Live(nb, id)
    ensures SameOrLocked(AnalyzeItem(nb, item, analyzed, id, false), AnalyzeItem(nb, item, analyzed, id, true))
  {
    if item.contract in nb.contracts {
      var st := nb.contracts[item.contract];
      var e := ConstructorEdge(nb.txs, st, analyzed, id);
      if e.Ok? {
        StorageInSameKeys(st, nb.txs, e.value);
        AnalyzeMethodSkipDiffers(item.summary, st, e.value, id);
      }
    }
  }

  /** Replacing one contract's storage by a grown one, over an arena grown
      towards `id`, keeps every reference live and every store growing. */
  lemma ReplaceStoreKeeps(nb: NetBuilder, c: U256, st2: ContractStorage, a2: Arena, id: nat)
    requires Live(nb, id) && c in nb.contracts && Towards(nb.txs, a2, id) && StorageIn(st2, a2)
    requires st2.constructorTx == nb.contracts[c].constructorTx
    requires ListsGrow(nb.contracts[c].storageRead, st2.storageRead, id)
    requires ListsGrow(nb.contracts[c].storageWrite, st2.storageWrite, id)
    ensures StoresGrow(nb.contracts, nb.contracts[c := st2], id)
    ensures Live(nb.(contracts := nb.contracts[c := st2], txs := a2), id)
  {
    var cs := nb.contracts[c := st2];
    forall k | k in cs
      ensures StorageIn(cs[k], a2)
    {
      if k != c {
        StorageInSameKeys(nb.contracts[k], nb.txs, a2);
      }
    }
    forall k | k in nb.contracts && k != c
      ensures ListsGrow(nb.contracts[k].storageRead, cs[k].storageRead, id)
      ensures ListsGrow(nb.contracts[k].storageWrite, cs[k].storageWrite, id)
    {
      ListsGrowReflexive(nb.contracts[k].storageRead, id);
      ListsGrowReflexive(nb.contracts[k].storageWrite, id);
    }
  }

  /** One worklist item: its storage side, then the routing of its
      external calls. */
  function DrainOne(nb: NetBuilder, item: Pending, rest: seq<Pending>, ctorAnalyzed: seq<U256>, entry: Delegated, id: nat, skipSelf: bool)
    : (r: Result<(NetBuilder, seq<Pending>)>)
    requires Live(nb, id) && entry.tx == id
    ensures r.Ok? ==> Progress(nb, r.value.0, id, entry) && Live(r.value.0, id) && rest <= r.value.1
    ensures r.Ok? ==> AnalyzeItem(nb, item, item.contract in ctorAnalyzed, id, skipSelf).Ok?
                      && r.value.0.txs == AnalyzeItem(nb, item, item.contract in ctorAnalyzed, id, skipSelf).value.txs
    ensures r.Err? && skipSelf && ConstructorsBefore(nb, ctorAnalyzed, id) ==> r.fault != ReentrantLock
  {
    match AnalyzeItem(nb, item, item.contract in ctorAnalyzed, id, skipSelf)
    case Err(e) => Err(e)
    case Ok(nb1) =>
      match RouteCalls(nb1, item.summary.methodCall, rest, entry)
      case Err(e) => Err(e)
      case Ok(q) =>
        AnalyzeThenRoute(nb, nb1, q.0, id, entry);
        Ok(q)
  }

  /** The storage side followed by the routing is progress and keeps every
      reference live. */
  lemma AnalyzeThenRoute(nb: NetBuilder, nb1: NetBuilder, nb2: NetBuilder, id: nat, entry: Delegated)
    requires entry.tx == id
    requires nb1 == nb.(contracts := nb1.contracts, txs := nb1.txs)
    requires StoresGrow(nb.contracts, nb1.contracts, id) && Towards(nb.txs, nb1.txs, id) && Live(nb1, id)
    requires nb2 == nb1.(runtimeDependent := nb2.runtimeDependent)
    requires GrownBy(nb1.runtimeDependent, nb2.runtimeDependent, entry)
    ensures Progress(nb, nb2, id, entry) && Live(nb2, id)
  {
    assert nb1.runtimeDependent == nb.runtimeDependent;
  }

  /** Analyses the worklist, last item first, until it is empty. Nothing in
      the original bounds the worklist (calls may form cycles), so `fuel`
      bounds the number of items. */
  function Drain(nb: NetBuilder, work: seq<Pending>, ctorAnalyzed: seq<U256>, entry: Delegated, id: nat, fuel: nat, skipSelf: bool)
    : (r: Result<NetBuilder>)
    requires Live(nb, id) && entry.tx == id
    ensures r.Ok? ==> Progress(nb, r.value, id, entry) && Live(r.value, id)
    ensures r.Ok? ==> r.value.counter == nb.counter && r.value.zeroDeps == nb.zeroDeps && r.value.txs.Keys == nb.txs.Keys
    ensures r.Ok? ==> r.value.contractData == nb.contractData && r.value.order == nb.order && r.value.threshold == nb.threshold
    ensures r.Err? && skipSelf && ConstructorsBefore(nb, ctorAnalyzed, id) ==> r.fault != ReentrantLock
    decreases fuel
  {
    if |work| == 0 then
      ProgressReflexive(nb, id, entry);
      Ok(nb)
    else if fuel == 0 then Err(OutOfFuel)
    else
      match DrainOne(nb, work[|work| - 1], work[..|work| - 1], ctorAnalyzed, entry, id, skipSelf)
      case Err(e) => Err(e)
      case Ok(q) =>
        assert ConstructorsBefore(nb, ctorAnalyzed, id) ==> ConstructorsBefore(q.0, ctorAnalyzed, id);
        match Drain(q.0, q.1, ctorAnalyzed, entry, id, fuel - 1, skipSelf)
        case Err(e) => Err(e)
        case Ok(nb2) =>
          ProgressTransitive(nb, q.0, nb2, id, entry);
          Ok(nb2)
  }

  /** The original and the corrected worklist part only where the original
      self-locks. */
  lemma {:induction false} DrainSkipDiffers(nb: NetBuilder, work: seq<Pending>, ctorAnalyzed: seq<U256>, entry: Delegated, id: nat, fuel: nat)
    requires Live(nb, id) && entry.tx == id
    ensures SameOrLocked(Drain(nb, work, ctorAnalyzed, entry, id, fuel, false), Drain(nb, work, ctorAnalyzed, entry, id, fuel, true))
    decreases fuel
  {
    if |work| > 0 && fuel > 0 {
      var item, rest := work[|work| - 1], work[..|work| - 1];
      DrainOneSkipDiffers(nb, item, rest, ctorAnalyzed, entry, id);
      var qF, qT := DrainOne(nb, item, rest, ctorAnalyzed, entry, id, false), DrainOne(nb, item, rest, ctorAnalyzed, entry, id, true);
      var dF, dT := Drain(nb, work, ctorAnalyzed, entry, id, fuel, false), Drain(nb, work, ctorAnalyzed, entry, id, fuel, true);
      if qF == qT && qF.Ok? {
        var nb1, work1 := qF.value.0, qF.value.1;
        var f: nat := fuel - 1;
        DrainStep(nb, work, ctorAnalyzed, entry, id, f, false, nb1, work1);
        DrainStep(nb, work, ctorAnalyzed, entry, id, f, true, nb1, work1);
        DrainSkipDiffers(nb1, work1, ctorAnalyzed, entry, id, f);
        SameOrLockedStep(qF, qT, dF, dT, Drain(nb1, work1, ctorAnalyzed, entry, id, f, false), Drain(nb1, work1, ctorAnalyzed, entry, id, f, true));
      } else {
        SameOrLockedStep(qF, qT, dF, dT, dF, dT);
      }
    }
  }

  /** The corrected result `b` stands in for the original's `a`: equal, or
      the original self-locked. */
  ghost predicate SameOrLocked<T>(a: Result<T>, b: Result<T>)
  {
    a == b || a == Err(ReentrantLock)
  }

  /** Two runs whose first steps agree, or whose first original step
      self-locks, and whose continuations agree or self-lock, agree or
      self-lock. */
  lemma SameOrLockedStep<A, B>(qF: Result<A>, qT: Result<A>, dF: Result<B>, dT: Result<B>, nextF: Result<B>, nextT: Result<B>)
    requires SameOrLocked(qF, qT)
    requires qF.Err? ==> dF == Err(qF.fault)
    requires qT.Err? ==> dT == Err(qT.fault)
    requires qF.Ok? ==> dF == nextF
    requires qT.Ok? ==> dT == nextT
    requires qF == qT && qF.Ok? ==> SameOrLocked(nextF, nextT)
    ensures SameOrLocked(dF, dT)
  {
  }

  /** One successful step of the worklist: the last item, then the rest. */
  lemma DrainStep(nb: NetBuilder, work: seq<Pending>, ctorAnalyzed: seq<U256>, entry: Delegated, id: nat, fuel: nat, skipSelf: bool,
                  nb1: NetBuilder, work1: seq<Pending>)
    requires Live(nb, id) && entry.tx == id && |work| > 0
    requires DrainOne(nb, work[|work| - 1], work[..|work| - 1], ctorAnalyzed, entry, id, skipSelf) == Ok((nb1, work1))
    ensures Live(nb1, id)
    ensures Drain(nb, work, ctorAnalyzed, entry, id, fuel + 1, skipSelf) == Drain(nb1, work1, ctorAnalyzed, entry, id, fuel, skipSelf)
  {
  }

  /** The same for one worklist item and its routing. */
  lemma DrainOneSkipDiffers(nb: NetBuilder, item: Pending, rest: seq<Pending>, ctorAnalyzed: seq<U256>, entry: Delegated, id: nat)
    requires Live(nb, id) && entry.tx == id
    ensures SameOrLocked(DrainOne(nb, item, rest, ctorAnalyzed, entry, id, false), DrainOne(nb, item, rest, ctorAnalyzed, entry, id, true))
  {
    AnalyzeItemSkipDiffers(nb, item, item.contract in ctorAnalyzed, id);
  }

  /** The edges analysing `item` against its contract's storage `st`
      demands of arena `a`: from the constructor (unless `analyzed`), from
      every earlier writer of a slot read, and from every earlier writer or
      reader of a slot written, the new transaction itself aside. */
  ghost predicate ItemEdges(st: ContractStorage, item: Pending, analyzed: bool, id: nat, a: Arena)
  {
    (!analyzed ==> (st.constructorTx.Some?
                    && (st.constructorTx.value != id ==> st.constructorTx.value in a && id in a[st.constructorTx.value].dependents)))
    && (forall i, t :: 0 <= i < |item.summary.storageRead| && Slot(item.summary.storageRead[i]).Ok? && t != id
          && t in ListOf(st.storageWrite, Slot(item.summary.storageRead[i]).value)
          ==> t in a && id in a[t].dependents)
    && (forall i, t :: 0 <= i < |item.summary.storageWrite| && Slot(item.summary.storageWrite[i]).Ok? && t != id
          && (t in ListOf(st.storageWrite, Slot(item.summary.storageWrite[i]).value)
              || t in ListOf(st.storageRead, Slot(item.summary.storageWrite[i]).value))
          ==> t in a && id in a[t].dependents)
  }

  /** Demanded edges survive growth towards `id`. */
  lemma ItemEdgesKept(st: ContractStorage, item: Pending, analyzed: bool, id: nat, a: Arena, a2: Arena)
    requires ItemEdges(st, item, analyzed, id, a) && Towards(a, a2, id)
    ensures ItemEdges(st, item, analyzed, id, a2)
  {
    forall t | t in a && id in a[t].dependents
      ensures id in a2[t].dependents
    {
      EdgeKept(a, a2, t, id);
    }
  }

  /** A successfully analysed item has all the edges it demands. */
  lemma AnalyzeItemEdges(nb: NetBuilder, item: Pending, analyzed: bool, id: nat, skipSelf: bool)
    requires Live(nb, id) && AnalyzeItem(nb, item, analyzed, id, skipSelf).Ok?
    ensures ItemEdges(nb.contracts[item.contract], item, analyzed, id, AnalyzeItem(nb, item, analyzed, id, skipSelf).value.txs)
  {
    AnalyzeItemUnfolds(nb, item, analyzed, id, skipSelf);
    var st := nb.contracts[item.contract];
    var a1 := ConstructorEdge(nb.txs, st, analyzed, id).value;
    var a2 := AnalyzeMethod(item.summary, st, a1, id, skipSelf).value.1;
    MethodEdges(item.summary, st, a1, id, skipSelf);
    if !analyzed && st.constructorTx.value != id {
      EdgeKept(a1, a2, st.constructorTx.value, id);
    }
    ItemEdgesFromMethod(st, item, analyzed, id, a1, a2);
  }

  /** A successful item analysis is the constructor edge, then the method's
      accesses. */
  lemma AnalyzeItemUnfolds(nb: NetBuilder, item: Pending, analyzed: bool, id: nat, skipSelf: bool)
    requires Live(nb, id) && AnalyzeItem(nb, item, analyzed, id, skipSelf).Ok?
    ensures item.contract in nb.contracts
    ensures var st := nb.contracts[item.contract];
            ConstructorEdge(nb.txs, st, analyzed, id).Ok?
            && StorageIn(st, ConstructorEdge(nb.txs, st, analyzed, id).value)
            && AnalyzeMethod(item.summary, st, ConstructorEdge(nb.txs, st, analyzed, id).value, id, skipSelf).Ok?
            && AnalyzeItem(nb, item, analyzed, id, skipSelf).value.txs
               == AnalyzeMethod(item.summary, st, ConstructorEdge(nb.txs, st, analyzed, id).value, id, skipSelf).value.1
  {
    var st := nb.contracts[item.contract];
    StorageInSameKeys(st, nb.txs, ConstructorEdge(nb.txs, st, analyzed, id).value);
  }

  /** The constructor edge and the method's access edges are all the item
      demands; the transactions they start from exist, being referenced by
      the storage. */
  lemma ItemEdgesFromMethod(st: ContractStorage, item: Pending, analyzed: bool, id: nat, a1: Arena, a2: Arena)
    requires StorageIn(st, a1) && a2.Keys == a1.Keys
    requires !analyzed ==> (st.constructorTx.Some?
                            && (st.constructorTx.value != id ==> st.constructorTx.value in a2 && id in a2[st.constructorTx.value].dependents))
    requires forall i, t :: 0 <= i < |item.summary.storageRead| && Slot(item.summary.storageRead[i]).Ok? && t != id
              && t in ListOf(st.storageWrite, Slot(item.summary.storageRead[i]).value)
              ==> id in a2[t].dependents
    requires forall i, t :: 0 <= i < |item.summary.storageWrite| && Slot(item.summary.storageWrite[i]).Ok? && t != id
              && (t in ListOf(st.storageWrite, Slot(item.summary.storageWrite[i]).value)
                  || t in ListOf(st.storageRead, Slot(item.summary.storageWrite[i]).value))
              ==> id in a2[t].dependents
    ensures ItemEdges(st, item, analyzed, id, a2)
  {
    forall slot, t | t in ListOf(st.storageWrite, slot)
      ensures t in a2
    {
    }
    forall slot, t | t in ListOf(st.storageRead, slot)
      ensures t in a2
    {
    }
  }

  /** The worklist's last item is analysed first, and the edges it demands
      are in the final arena. */
  lemma DrainFirstItemEdges(nb: NetBuilder, work: seq<Pending>, ctorAnalyzed: seq<U256>, entry: Delegated, id: nat, fuel: nat, skipSelf: bool)
    requires Live(nb, id) && entry.tx == id && |work| > 0
    requires Drain(nb, work, ctorAnalyzed, entry, id, fuel, skipSelf).Ok?
    ensures work[|work| - 1].contract in nb.contracts
    ensures ItemEdges(nb.contracts[work[|work| - 1].contract], work[|work| - 1], work[|work| - 1].contract in ctorAnalyzed, id,
                      Drain(nb, work, ctorAnalyzed, entry, id, fuel, skipSelf).value.txs)
  {
    var item := work[|work| - 1];
    var analyzed := item.contract in ctorAnalyzed;
    var q := DrainOne(nb, item, work[..|work| - 1], ctorAnalyzed, entry, id, skipSelf).value;
    var nb1 := AnalyzeItem(nb, item, analyzed, id, skipSelf).value;
    AnalyzeItemEdges(nb, item, analyzed, id, skipSelf);
    var r := Drain(q.0, q.1, ctorAnalyzed, entry, id, fuel - 1, skipSelf).value;
    assert Towards(q.0.txs, r.txs, id);
    ItemEdgesKept(nb.contracts[item.contract], item, analyzed, id, q.0.txs, r.txs);
  }

  // ---------------------------------------------------------------------
  // Submitting a transaction

  /** The arena holds exactly the ids 0 to `n` - 1. */
  predicate Numbered(a: Arena, n: nat)
  {
    (forall k :: k in a ==> k < n) && (forall k :: 0 <= k < n ==> k in a)
  }

  lemma NumberedGrows(a: Arena, a2: Arena, n: nat)
    requires Numbered(a, n) && a2.Keys == a.Keys + {n}
    ensures Numbered(a2, n + 1)
  {
  }

  /** The scheduler invariant: transactions are numbered 0 to `counter` - 1
      and every reference names one of them. */
  predicate Wf(nb: NetBuilder)
  {
    Numbered(nb.txs, nb.counter)
    && (forall c :: c in nb.contracts ==> StorageIn(nb.contracts[c], nb.txs))
    && (forall e :: e in nb.runtimeDependent ==> e.tx in nb.txs)
    && (forall z :: z in nb.zeroDeps ==> z in nb.txs)
  }

  /** The selector recorded for a deferred call: a constructor counts as 0. */
  function SelectorOf(kind: MethodType): (sel: U256)
    ensures kind.Method? ==> sel == kind.selector
  {
    if kind.Method? then kind.selector else 0
  }

  /** The transactions of the runtime-dependent entries, in order. */
  function Senders(rd: seq<Delegated>): (r: seq<nat>)
    ensures |r| == |rd| && forall i :: 0 <= i < |rd| ==> r[i] == rd[i].tx
  {
    if |rd| == 0 then [] else [rd[0].tx] + Senders(rd[1..])
  }

  /** A constructor submission becomes its contract's constructor. */
  function Open(nb: NetBuilder, contract: U256, kind: MethodType, id: nat): (r: Result<NetBuilder>)
    ensures kind.Method? ==> r == Ok(nb)
    ensures kind.Constructor? ==> (r.Ok? <==> contract in nb.contracts)
    ensures r.Ok? && kind.Constructor? ==>
              r.value == nb.(contracts := nb.contracts[contract := nb.contracts[contract].(constructorTx := Some(id))])
  {
    if kind.Method? then Ok(nb)
    else if contract !in nb.contracts then Err(MissingContract)
    else Ok(nb.(contracts := nb.contracts[contract := nb.contracts[contract].(constructorTx := Some(id))]))
  }

  /** A transaction nothing waits for joins the ready list. */
  function Close(nb: NetBuilder, id: nat): (r: NetBuilder)
    requires id in nb.txs
    ensures r == nb.(zeroDeps := r.zeroDeps)
    ensures r.zeroDeps == nb.zeroDeps + (if nb.txs[id].count == 0 then [id] else [])
  {
    if nb.txs[id].count == 0 then nb.(zeroDeps := nb.zeroDeps + [id]) else nb
  }

  /** The method summary a submission starts from. */
  function SubmittedMethod(data: ContractData, kind: MethodType): (m: ContractMethod)
    requires kind.Method? ==> kind.selector in data.methods
    ensures m == if kind.Method? then data.methods[kind.selector] else data.ctor
  {
    if kind.Method? then data.methods[kind.selector] else data.ctor
  }

  /** The start of a submission: the new transaction gets the next id and
      waits for every runtime-dependent one, and a constructor submission
      becomes its contract's constructor. */
  function Enter(nb: NetBuilder, contract: U256, kind: MethodType): (r: Result<NetBuilder>)
    requires Wf(nb)
    ensures r.Ok? ==> Live(r.value, nb.counter) && r.value.counter == nb.counter + 1
    ensures r.Ok? ==> r.value.txs.Keys == nb.txs.Keys + {nb.counter} && r.value.zeroDeps == nb.zeroDeps
    ensures r.Ok? ==> r.value.contractData == nb.contractData && r.value.order == nb.order && r.value.threshold == nb.threshold
    ensures r.Ok? ==> ConstructorsBefore(r.value, if kind.Constructor? then [contract] else [], nb.counter)
    ensures r.Ok? ==> Towards(nb.txs[nb.counter := NewTransaction(nb.counter)], r.value.txs, nb.counter)
    ensures r.Ok? ==> forall e :: e in nb.runtimeDependent ==> nb.counter in r.value.txs[e.tx].dependents
    ensures r.Ok? ==> r.value.runtimeDependent == nb.runtimeDependent
    ensures r.Ok? && kind.Method? ==> r.value.contracts == nb.contracts
    ensures r.Ok? && kind.Constructor? ==> (contract in nb.contracts
              && r.value.contracts == nb.contracts[contract := nb.contracts[contract].(constructorTx := Some(nb.counter))])
    ensures r.Err? ==> r.fault == MissingContract && kind.Constructor? && contract !in nb.contracts
  {
    var id := nb.counter;
    var a0 := nb.txs[id := NewTransaction(id)];
    var senders := Senders(nb.runtimeDependent);
    assert forall e :: e in nb.runtimeDependent ==> e.tx in senders;
    assert forall s :: s in senders ==> s in nb.txs;
    match AddEdges(a0, senders, id, false)
    case Err(e) => Err(e)
    case Ok(a1) =>
      var nb1 := nb.(txs := a1, counter := id + 1);
      assert Live(nb1, id);
      OpenKeeps(nb, nb1, contract, kind);
      Open(nb1, contract, kind, id)
  }

  /** Opening, on a builder that only added the fresh transaction to `nb`,
      keeps every reference live and makes the fresh transaction the
      constructor of the opened contract alone. */
  lemma OpenKeeps(nb: NetBuilder, nb1: NetBuilder, contract: U256, kind: MethodType)
    requires Wf(nb) && Live(nb1, nb.counter) && nb1.contracts == nb.contracts
    ensures Open(nb1, contract, kind, nb.counter).Ok? ==>
              Live(Open(nb1, contract, kind, nb.counter).value, nb.counter)
              && ConstructorsBefore(Open(nb1, contract, kind, nb.counter).value, if kind.Constructor? then [contract] else [], nb.counter)
  {
    forall c | c in nb.contracts && nb.contracts[c].constructorTx.Some?
      ensures nb.contracts[c].constructorTx.value != nb.counter
    {
      assert StorageIn(nb.contracts[c], nb.txs);
    }
  }

  /** Closing keeps the scheduler invariant. */
  lemma CloseKeepsWf(nb: NetBuilder, id: nat)
    requires Live(nb, id) && nb.counter == id + 1
    requires Numbered(nb.txs, nb.counter)
    requires forall z :: z in nb.zeroDeps ==> z in nb.txs
    ensures Wf(Close(nb, id))
  {
  }

  /** Submits a transaction on `contract`: it gets the next id, waits for
      every runtime-dependent transaction, then for whatever the analysis of
      the target method, and of the methods it may call, finds it must
      follow; it is ready at once if it waits for nothing. `skipSelf` false
      is the original, whose read path asks a transaction to wait for its
      own earlier write; true is the corrected read path. */
  function Submit(nb: NetBuilder, contract: U256, kind: MethodType, fuel: nat, skipSelf: bool): (r: Result<NetBuilder>)
    requires Wf(nb)
    ensures r.Ok? ==> Wf(r.value) && r.value.counter == nb.counter + 1
    ensures r.Ok? ==> r.value.txs.Keys == nb.txs.Keys + {nb.counter}
    ensures r.Ok? ==> r.value.contractData == nb.contractData && r.value.order == nb.order && r.value.threshold == nb.threshold
    ensures contract !in nb.contractData ==> r == Err(MissingContract)
    ensures contract in nb.contractData && kind.Method? && kind.selector !in nb.contractData[contract].methods ==> r == Err(MissingMethod)
    ensures r.Err? && skipSelf ==> r.fault != ReentrantLock
  {
    if contract !in nb.contractData then Err(MissingContract)
    else if kind.Method? && kind.selector !in nb.contractData[contract].methods then Err(MissingMethod)
    else
      match Enter(nb, contract, kind)
      case Err(e) => Err(e)
      case Ok(nb1) =>
        var id := nb.counter;
        var ctorAnalyzed := if kind.Constructor? then [contract] else [];
        var entry := Delegated(contract, SelectorOf(kind), id);
        match Drain(nb1, [Pending(contract, SubmittedMethod(nb.contractData[contract], kind))], ctorAnalyzed, entry, id, fuel, skipSelf)
        case Err(e) => Err(e)
        case Ok(nb2) =>
          NumberedGrows(nb.txs, nb2.txs, id);
          CloseKeepsWf(nb2, id);
          Ok(Close(nb2, id))
  }

  /** The original and the corrected submission part only where the
      original self-locks: whenever the original succeeds, or fails for any
      other reason, the corrected one gives the same result. */
  lemma SubmitSkipDiffers(nb: NetBuilder, contract: U256, kind: MethodType, fuel: nat)
    requires Wf(nb)
    ensures SameOrLocked(Submit(nb, contract, kind, fuel, false), Submit(nb, contract, kind, fuel, true))
  {
    if contract in nb.contractData && (kind.Method? ==> kind.selector in nb.contractData[contract].methods) && Enter(nb, contract, kind).Ok? {
      var ctor := if kind.Constructor? then [contract] else [];
      DrainSkipDiffers(Enter(nb, contract, kind).value, FirstItem(nb, contract, kind), ctor,
                       Delegated(contract, SelectorOf(kind), nb.counter), nb.counter, fuel);
    }
  }

  /** A fresh transaction keeps an arena valid. */
  lemma AddingTransactionKeepsValid(a: Arena, id: nat)
    requires Valid(a) && id !in a
    ensures Valid(a[id := NewTransaction(id)])
  {
    var a0 := a[id := NewTransaction(id)];
    forall d | d in a0
      ensures a0[d].count == |Listers(a0, d)|
    {
      if d == id {
        assert Listers(a0, d) == {};
      } else {
        assert Listers(a0, d) == Listers(a, d);
      }
    }
  }

  /** The worklist a submission starts from. */
  function FirstItem(nb: NetBuilder, contract: U256, kind: MethodType): (w: seq<Pending>)
    requires contract in nb.contractData && (kind.Method? ==> kind.selector in nb.contractData[contract].methods)
    ensures |w| == 1 && w[0].contract == contract
  {
    [Pending(contract, SubmittedMethod(nb.contractData[contract], kind))]
  }

  /** A successful submission is `Enter`, then the worklist, then `Close`. */
  lemma SubmitUnfolds(nb: NetBuilder, contract: U256, kind: MethodType, fuel: nat, skipSelf: bool)
    requires Wf(nb) && Submit(nb, contract, kind, fuel, skipSelf).Ok?
    ensures contract in nb.contractData && (kind.Method? ==> kind.selector in nb.contractData[contract].methods)
    ensures Enter(nb, contract, kind).Ok?
    ensures var nb1, entry := Enter(nb, contract, kind).value, Delegated(contract, SelectorOf(kind), nb.counter);
            var ctor := if kind.Constructor? then [contract] else [];
            Drain(nb1, FirstItem(nb, contract, kind), ctor, entry, nb.counter, fuel, skipSelf).Ok?
            && Submit(nb, contract, kind, fuel, skipSelf).value
               == Close(Drain(nb1, FirstItem(nb, contract, kind), ctor, entry, nb.counter, fuel, skipSelf).value, nb.counter)
  {
  }

  /** Every edge a submission adds ends at the new transaction: older
      transactions keep their counts and gain at most the new one as a
      dependent, the new one has no dependents yet, and a valid, forward
      arena stays valid and forward. */
  lemma SubmitEdgesEndAtNew(nb: NetBuilder, contract: U256, kind: MethodType, fuel: nat, skipSelf: bool)
    requires Wf(nb) && Submit(nb, contract, kind, fuel, skipSelf).Ok?
    ensures var id, r := nb.counter, Submit(nb, contract, kind, fuel, skipSelf).value;
            (forall k :: k in nb.txs ==>
               r.txs[k].id == nb.txs[k].id && r.txs[k].count == nb.txs[k].count
               && (r.txs[k].dependents == nb.txs[k].dependents || r.txs[k].dependents == nb.txs[k].dependents + [id]))
            && r.txs[id].id == id && r.txs[id].dependents == []
  {
    var id := nb.counter;
    SubmitTowards(nb, contract, kind, fuel, skipSelf);
  }

  /** A submission grows the arena, with the new transaction added, towards
      the new transaction. */
  lemma SubmitTowards(nb: NetBuilder, contract: U256, kind: MethodType, fuel: nat, skipSelf: bool)
    requires Wf(nb) && Submit(nb, contract, kind, fuel, skipSelf).Ok?
    ensures Towards(nb.txs[nb.counter := NewTransaction(nb.counter)], Submit(nb, contract, kind, fuel, skipSelf).value.txs, nb.counter)
  {
    SubmitUnfolds(nb, contract, kind, fuel, skipSelf);
    var id := nb.counter;
    var nb1 := Enter(nb, contract, kind).value;
    var entry := Delegated(contract, SelectorOf(kind), id);
    var ctor := if kind.Constructor? then [contract] else [];
    var nb2 := Drain(nb1, FirstItem(nb, contract, kind), ctor, entry, id, fuel, skipSelf).value;
    assert Towards(nb1.txs, nb2.txs, id);
    TowardsTransitive(nb.txs[id := NewTransaction(id)], nb1.txs, nb2.txs, id);
  }

  /** Submitting keeps the arena valid and its edges forward, hence the
      dependency graph acyclic. */
  lemma SubmitKeepsArenaInvariants(nb: NetBuilder, contract: U256, kind: MethodType, fuel: nat, skipSelf: bool)
    requires Wf(nb) && Submit(nb, contract, kind, fuel, skipSelf).Ok?
    ensures Valid(nb.txs) ==> Valid(Submit(nb, contract, kind, fuel, skipSelf).value.txs)
    ensures Forward(nb.txs) ==> Forward(Submit(nb, contract, kind, fuel, skipSelf).value.txs)
  {
    var id := nb.counter;
    var a0 := nb.txs[id := NewTransaction(id)];
    SubmitTowards(nb, contract, kind, fuel, skipSelf);
    if Valid(nb.txs) {
      AddingTransactionKeepsValid(nb.txs, id);
      TowardsKeepsValid(a0, Submit(nb, contract, kind, fuel, skipSelf).value.txs, id);
    }
    if Forward(nb.txs) {
      TowardsKeepsForward(a0, Submit(nb, contract, kind, fuel, skipSelf).value.txs, id);
    }
  }

  /** Every transaction left to run time before a submission comes before
      it. */
  lemma SubmitAfterRuntimeDependents(nb: NetBuilder, contract: U256, kind: MethodType, fuel: nat, skipSelf: bool)
    requires Wf(nb) && Submit(nb, contract, kind, fuel, skipSelf).Ok?
    ensures forall e :: e in nb.runtimeDependent ==> nb.counter in Submit(nb, contract, kind, fuel, skipSelf).value.txs[e.tx].dependents
  {
    SubmitUnfolds(nb, contract, kind, fuel, skipSelf);
    var id := nb.counter;
    var nb1 := Enter(nb, contract, kind).value;
    var entry := Delegated(contract, SelectorOf(kind), id);
    var ctor := if kind.Constructor? then [contract] else [];
    var nb2 := Drain(nb1, FirstItem(nb, contract, kind), ctor, entry, id, fuel, skipSelf).value;
    assert Towards(nb1.txs, nb2.txs, id);
    forall e | e in nb.runtimeDependent
      ensures id in nb2.txs[e.tx].dependents
    {
      EdgeKept(nb1.txs, nb2.txs, e.tx, id);
    }
  }

  /** A submission is ready exactly when it waits for nothing; the ready
      list otherwise stays as it was. */
  lemma SubmitReadyIffUnblocked(nb: NetBuilder, contract: U256, kind: MethodType, fuel: nat, skipSelf: bool)
    requires Wf(nb) && Submit(nb, contract, kind, fuel, skipSelf).Ok?
    ensures var r := Submit(nb, contract, kind, fuel, skipSelf).value;
            r.zeroDeps == nb.zeroDeps + (if r.txs[nb.counter].count == 0 then [nb.counter] else [])
  {
    SubmitUnfolds(nb, contract, kind, fuel, skipSelf);
  }

  /** Reader and writer lists grow only by `id`, and only a constructor
      submission changes a constructor, its own contract's. */
  predicate StoresAfterSubmit(cs: map<U256, ContractStorage>, cs2: map<U256, ContractStorage>, contract: U256, kind: MethodType, id: nat)
  {
    cs2.Keys == cs.Keys
    && forall c :: c in cs ==>
         ListsGrow(cs[c].storageRead, cs2[c].storageRead, id)
         && ListsGrow(cs[c].storageWrite, cs2[c].storageWrite, id)
         && cs2[c].constructorTx == if kind.Constructor? && c == contract then Some(id) else cs[c].constructorTx
  }

  lemma EnterThenGrow(cs: map<U256, ContractStorage>, cs1: map<U256, ContractStorage>, cs2: map<U256, ContractStorage>,
                      contract: U256, kind: MethodType, id: nat)
    requires kind.Method? ==> cs1 == cs
    requires kind.Constructor? ==> contract in cs && cs1 == cs[contract := cs[contract].(constructorTx := Some(id))]
    requires StoresGrow(cs1, cs2, id)
    ensures StoresAfterSubmit(cs, cs2, contract, kind, id)
  {
    forall c | c in cs
      ensures ListsGrow(cs[c].storageRead, cs2[c].storageRead, id)
      ensures ListsGrow(cs[c].storageWrite, cs2[c].storageWrite, id)
      ensures cs2[c].constructorTx == if kind.Constructor? && c == contract then Some(id) else cs[c].constructorTx
    {
      assert cs1[c].storageRead == cs[c].storageRead && cs1[c].storageWrite == cs[c].storageWrite;
    }
  }

  /** Reader and writer lists only grow, by the new transaction; only a
      constructor submission changes a constructor, its own contract's. */
  lemma SubmitListsAppendOnly(nb: NetBuilder, contract: U256, kind: MethodType, fuel: nat, skipSelf: bool)
    requires Wf(nb) && Submit(nb, contract, kind, fuel, skipSelf).Ok?
    ensures StoresAfterSubmit(nb.contracts, Submit(nb, contract, kind, fuel, skipSelf).value.contracts, contract, kind, nb.counter)
  {
    SubmitUnfolds(nb, contract, kind, fuel, skipSelf);
    var id := nb.counter;
    var nb1 := Enter(nb, contract, kind).value;
    var entry := Delegated(contract, SelectorOf(kind), id);
    var ctor := if kind.Constructor? then [contract] else [];
    var nb2 := Drain(nb1, FirstItem(nb, contract, kind), ctor, entry, id, fuel, skipSelf).value;
    assert StoresGrow(nb1.contracts, nb2.contracts, id);
    EnterThenGrow(nb.contracts, nb1.contracts, nb2.contracts, contract, kind, id);
  }

  /** A submission waits for its contract's constructor (unless it is that
      constructor), for every earlier writer of a slot its method reads, and
      for every earlier writer and reader of a slot its method writes. */
  lemma SubmitWaitsForConflicts(nb: NetBuilder, contract: U256, kind: MethodType, fuel: nat, skipSelf: bool)
    requires Wf(nb) && Submit(nb, contract, kind, fuel, skipSelf).Ok?
    ensures contract in nb.contractData && contract in nb.contracts
    ensures kind.Method? ==> kind.selector in nb.contractData[contract].methods
    ensures ItemEdges(nb.contracts[contract], Pending(contract, SubmittedMethod(nb.contractData[contract], kind)),
                      kind.Constructor?, nb.counter, Submit(nb, contract, kind, fuel, skipSelf).value.txs)
  {
    SubmitUnfolds(nb, contract, kind, fuel, skipSelf);
    var id := nb.counter;
    var nb1 := Enter(nb, contract, kind).value;
    var entry := Delegated(contract, SelectorOf(kind), id);
    var ctor := if kind.Constructor? then [contract] else [];
    var work := FirstItem(nb, contract, kind);
    DrainFirstItemEdges(nb1, work, ctor, entry, id, fuel, skipSelf);
    var d := Drain(nb1, work, ctor, entry, id, fuel, skipSelf).value;
    assert work[|work| - 1] == work[0];
    assert (contract in ctor) == kind.Constructor?;
    assert Submit(nb, contract, kind, fuel, skipSelf).value.txs == d.txs;
    if kind.Constructor? {
      ItemEdgesIgnoreConstructor(nb.contracts[contract], nb1.contracts[contract], work[0], id, d.txs);
    }
  }

  /** Once the constructor is analysed, the demanded edges depend on the
      storage lists alone. */
  lemma ItemEdgesIgnoreConstructor(st: ContractStorage, st1: ContractStorage, item: Pending, id: nat, a: Arena)
    requires st1.storageWrite == st.storageWrite && st1.storageRead == st.storageRead
    requires ItemEdges(st1, item, true, id, a)
    ensures ItemEdges(st, item, true, id, a)
  {
  }

  // ---------------------------------------------------------------------
  // The original's self-lock, at the level of a submission

  /** A method that writes slot `k` and calls method `callee` of contract
      `c`. */
  function WritesThenCalls(k: U256, c: U256, callee: U256): ContractMethod
  {
    ContractMethod([], [Field(ActualValue(k))], [CallSite(ActualValue(c), ActualValue(callee))])
  }

  /** A method that only reads slot `k`. */
  function ReadsOnly(k: U256): ContractMethod
  {
    ContractMethod([Field(ActualValue(k))], [], [])
  }

  /** Analysing a method that writes `k` succeeds, whatever the read path,
      and leaves its transaction among the slot's writers. */
  lemma WriterAnalysed(st: ContractStorage, a: Arena, id: nat, k: U256, c: U256, callee: U256, skipSelf: bool)
    requires id in a && StorageIn(st, a)
    ensures var r := AnalyzeMethod(WritesThenCalls(k, c, callee), st, a, id, skipSelf);
            r.Ok? && id in ListOf(r.value.0.storageWrite, k) && r.value.0.constructorTx == st.constructorTx
  {
    ResolveLiteral(k);
    var m := WritesThenCalls(k, c, callee);
    assert Slot(m.storageWrite[0]) == Ok(k);
    assert AnalyzeReadsWith(st, a, id, m.storageRead, skipSelf) == Ok((st, a));
    var w := WriteOne(st, a, id, m.storageWrite[0]);
    assert w.Ok?;
    assert m.storageWrite[1..] == [];
    assert AnalyzeWrites(w.value.0, w.value.1, id, m.storageWrite[1..]) == Ok(w.value);
  }

  /** Once `id` is among the writers of `k`, a method reading `k` self-locks
      on the original read path and goes through on the corrected one. */
  lemma ReaderAfterWrite(st: ContractStorage, a: Arena, id: nat, k: U256)
    requires id in a && StorageIn(st, a) && id in ListOf(st.storageWrite, k)
    ensures AnalyzeMethod(ReadsOnly(k), st, a, id, false) == Err(ReentrantLock)
    ensures AnalyzeMethod(ReadsOnly(k), st, a, id, true).Ok?
  {
    ResolveLiteral(k);
    var m := ReadsOnly(k);
    assert Slot(m.storageRead[0]) == Ok(k);
    assert ReadOne(st, a, id, m.storageRead[0], false) == Err(ReentrantLock);
    var r1 := ReadOne(st, a, id, m.storageRead[0], true);
    assert r1.Ok?;
    assert m.storageRead[1..] == [];
    assert AnalyzeReadsWith(r1.value.0, r1.value.1, id, m.storageRead[1..], true) == Ok(r1.value);
  }

  /** Contract `c` is registered and its constructor ran before `id`. */
  predicate ConstructedBefore(nb: NetBuilder, c: U256, id: nat)
  {
    c in nb.contracts && nb.contracts[c].constructorTx.Some? && nb.contracts[c].constructorTx.value != id
  }

  /** The writing method, as a worklist item of a constructed contract,
      succeeds and leaves `id` among the writers of `k`. */
  lemma WriterItem(nb: NetBuilder, c: U256, k: U256, callee: U256, id: nat, skipSelf: bool)
    requires Live(nb, id) && ConstructedBefore(nb, c, id)
    ensures var r := AnalyzeItem(nb, Pending(c, WritesThenCalls(k, c, callee)), false, id, skipSelf);
            r.Ok? && ConstructedBefore(r.value, c, id) && id in ListOf(r.value.contracts[c].storageWrite, k)
  {
    var st := nb.contracts[c];
    var a1 := ConstructorEdge(nb.txs, st, false, id).value;
    StorageInSameKeys(st, nb.txs, a1);
    WriterAnalysed(st, a1, id, k, c, callee, skipSelf);
  }

  /** The reading method, as a worklist item, self-locks on the original
      read path once `id` writes `k`, and goes through on the corrected
      one. */
  lemma ReaderItem(nb: NetBuilder, c: U256, k: U256, id: nat)
    requires Live(nb, id) && ConstructedBefore(nb, c, id) && id in ListOf(nb.contracts[c].storageWrite, k)
    ensures AnalyzeItem(nb, Pending(c, ReadsOnly(k)), false, id, false) == Err(ReentrantLock)
    ensures AnalyzeItem(nb, Pending(c, ReadsOnly(k)), false, id, true).Ok?
  {
    var st := nb.contracts[c];
    var a1 := ConstructorEdge(nb.txs, st, false, id).value;
    StorageInSameKeys(st, nb.txs, a1);
    ReaderAfterWrite(st, a1, id, k);
  }

  /** The writing item comes first: it succeeds and puts the reading method
      of its call on the worklist, whatever the read path. */
  lemma WriterStep(nb: NetBuilder, c: U256, k: U256, callee: U256, entry: Delegated, id: nat, fuel: nat, skipSelf: bool)
    requires Live(nb, id) && entry.tx == id && ConstructedBefore(nb, c, id)
    requires c in nb.contractData && callee in nb.contractData[c].methods && nb.contractData[c].methods[callee] == ReadsOnly(k)
    ensures AnalyzeItem(nb, Pending(c, WritesThenCalls(k, c, callee)), false, id, skipSelf).Ok?
    ensures var nb1 := AnalyzeItem(nb, Pending(c, WritesThenCalls(k, c, callee)), false, id, skipSelf).value;
            Live(nb1, id) && ConstructedBefore(nb1, c, id) && id in ListOf(nb1.contracts[c].storageWrite, k)
            && Drain(nb, [Pending(c, WritesThenCalls(k, c, callee))], [], entry, id, fuel + 1, skipSelf)
               == Drain(nb1, [Pending(c, ReadsOnly(k))], [], entry, id, fuel, skipSelf)
  {
    var itemA, itemB := Pending(c, WritesThenCalls(k, c, callee)), Pending(c, ReadsOnly(k));
    WriterItem(nb, c, k, callee, id, skipSelf);
    var nb1 := AnalyzeItem(nb, itemA, false, id, skipSelf).value;
    WriterRoutes(nb1, c, k, callee, entry);
    var work := [itemA];
    assert work[|work| - 1] == itemA && work[..|work| - 1] == [];
    assert (c in []) == false;
    assert DrainOne(nb, itemA, [], [], entry, id, skipSelf) == Ok((nb1, [itemB]));
    DrainStep(nb, work, [], entry, id, fuel, skipSelf, nb1, [itemB]);
  }

  /** The writing method's call, to a registered contract and selector,
      puts the callee on the worklist and changes nothing else. */
  lemma WriterRoutes(nb: NetBuilder, c: U256, k: U256, callee: U256, entry: Delegated)
    requires c in nb.contractData && callee in nb.contractData[c].methods && nb.contractData[c].methods[callee] == ReadsOnly(k)
    ensures RouteCalls(nb, WritesThenCalls(k, c, callee).methodCall, [], entry) == Ok((nb, [Pending(c, ReadsOnly(k))]))
  {
    var itemB := Pending(c, ReadsOnly(k));
    ResolveLiteral(c);
    ResolveLiteral(callee);
    var calls := WritesThenCalls(k, c, callee).methodCall;
    assert RouteOne(nb.contractData, nb.order, nb.threshold, calls[0]) == Ok(Inline([itemB]));
    assert calls[1..] == [] && [] + [itemB] == [itemB];
    assert RouteCalls(nb, calls[1..], [itemB], entry) == Ok((nb, [itemB]));
  }

  /** The reading item comes second: the original self-locks on it, the
      corrected read path finishes the worklist. */
  lemma ReaderStep(nb: NetBuilder, c: U256, k: U256, entry: Delegated, id: nat, fuel: nat)
    requires Live(nb, id) && entry.tx == id && ConstructedBefore(nb, c, id) && id in ListOf(nb.contracts[c].storageWrite, k)
    ensures Drain(nb, [Pending(c, ReadsOnly(k))], [], entry, id, fuel + 1, false) == Err(ReentrantLock)
    ensures Drain(nb, [Pending(c, ReadsOnly(k))], [], entry, id, fuel + 1, true).Ok?
  {
    var itemB := Pending(c, ReadsOnly(k));
    var work := [itemB];
    assert work[|work| - 1] == itemB && work[..|work| - 1] == [];
    assert (c in []) == false;
    ReaderItem(nb, c, k, id);
    assert DrainOne(nb, itemB, [], [], entry, id, false) == Err(ReentrantLock);
    var nb2 := AnalyzeItem(nb, itemB, false, id, true).value;
    assert RouteCalls(nb2, itemB.summary.methodCall, [], entry) == Ok((nb2, []));
    assert DrainOne(nb, itemB, [], [], entry, id, true) == Ok((nb2, []));
    DrainStep(nb, work, [], entry, id, fuel, true, nb2, []);
  }

  /** The worklist of the writing method self-locks as written, given fuel
      for its two items. */
  lemma DrainSelfLocks(nb: NetBuilder, c: U256, k: U256, callee: U256, entry: Delegated, id: nat, fuel: nat)
    requires Live(nb, id) && entry.tx == id && ConstructedBefore(nb, c, id)
    requires c in nb.contractData && callee in nb.contractData[c].methods && nb.contractData[c].methods[callee] == ReadsOnly(k)
    ensures Drain(nb, [Pending(c, WritesThenCalls(k, c, callee))], [], entry, id, fuel + 1 + 1, false) == Err(ReentrantLock)
  {
    WriterStep(nb, c, k, callee, entry, id, fuel + 1, false);
    var nbF := AnalyzeItem(nb, Pending(c, WritesThenCalls(k, c, callee)), false, id, false).value;
    ReaderStep(nbF, c, k, entry, id, fuel);
  }

  /** The same worklist finishes with the corrected read path. */
  lemma DrainSkipFinishes(nb: NetBuilder, c: U256, k: U256, callee: U256, entry: Delegated, id: nat, fuel: nat)
    requires Live(nb, id) && entry.tx == id && ConstructedBefore(nb, c, id)
    requires c in nb.contractData && callee in nb.contractData[c].methods && nb.contractData[c].methods[callee] == ReadsOnly(k)
    ensures Drain(nb, [Pending(c, WritesThenCalls(k, c, callee))], [], entry, id, fuel + 1 + 1, true).Ok?
  {
    WriterStep(nb, c, k, callee, entry, id, fuel + 1, true);
    var nbT := AnalyzeItem(nb, Pending(c, WritesThenCalls(k, c, callee)), false, id, true).value;
    ReaderStep(nbT, c, k, entry, id, fuel);
  }

  /** A submission that gets past `Enter` fails exactly as its worklist
      does. */
  lemma SubmitAsDrain(nb: NetBuilder, contract: U256, kind: MethodType, fuel: nat, skipSelf: bool)
    requires Wf(nb) && contract in nb.contractData && (kind.Method? ==> kind.selector in nb.contractData[contract].methods)
    requires Enter(nb, contract, kind).Ok?
    ensures var d := Drain(Enter(nb, contract, kind).value, FirstItem(nb, contract, kind), if kind.Constructor? then [contract] else [],
                           Delegated(contract, SelectorOf(kind), nb.counter), nb.counter, fuel, skipSelf);
            (d.Err? ==> Submit(nb, contract, kind, fuel, skipSelf) == Err(d.fault))
            && (d.Ok? ==> Submit(nb, contract, kind, fuel, skipSelf).Ok?)
  {
  }

  /** The reachable case the original gets wrong, for a whole submission:
      a method writes slot `k` and calls a method of its own contract that
      reads `k`. As written, the submission is asked to wait for itself and
      aborts; with the corrected read path it is scheduled. */
  lemma SubmitSelfLocks(nb: NetBuilder, c: U256, caller: U256, callee: U256, k: U256, fuel: nat)
    requires Wf(nb)
    requires c in nb.contracts && nb.contracts[c].constructorTx.Some?
    requires c in nb.contractData && caller in nb.contractData[c].methods && callee in nb.contractData[c].methods
    requires nb.contractData[c].methods[caller] == WritesThenCalls(k, c, callee)
    requires nb.contractData[c].methods[callee] == ReadsOnly(k)
    ensures Submit(nb, c, Method(caller), fuel + 1 + 1, false) == Err(ReentrantLock)
    ensures Submit(nb, c, Method(caller), fuel + 1 + 1, true).Ok?
  {
    var id, kind := nb.counter, Method(caller);
    var nb1 := Enter(nb, c, kind).value;
    assert StorageIn(nb.contracts[c], nb.txs);
    assert ConstructedBefore(nb1, c, id);
    var entry := Delegated(c, SelectorOf(kind), id);
    assert FirstItem(nb, c, kind) == [Pending(c, WritesThenCalls(k, c, callee))];
    DrainSelfLocks(nb1, c, k, callee, entry, id, fuel);
    DrainSkipFinishes(nb1, c, k, callee, entry, id, fuel);
    SubmitAsDrain(nb, c, kind, fuel + 1 + 1, false);
    SubmitAsDrain(nb, c, kind, fuel + 1 + 1, true);
  }
}
