/** Packages of dependent transactions: sorting them by their dependencies, pricing
    them as a whole, and admitting all or none. */
module Packages {
  import opened Ledger
  import opened PoolSpec
  import opened Admission
  import opened Eviction
  import opened Settlement
  import opened Revalidation
  import opened PoolRules
  import opened Mempool

  /** The dictionary by id; of several transactions with one id the last counts. */
  function ById(txs: seq<Tx>): map<Id, Tx>
    decreases |txs|
  {
    if txs == [] then map[] else ById(txs[..|txs| - 1])[txs[|txs| - 1].id := txs[|txs| - 1]]
  }

  lemma {:induction false} ByIdKeys(txs: seq<Tx>)
    ensures ById(txs).Keys == Ids(txs)
    ensures forall x :: x in ById(txs) ==> ById(txs)[x].id == x && ById(txs)[x] in txs
    decreases |txs|
  {
    if txs != [] {
      var init, last := txs[..|txs| - 1], txs[|txs| - 1];
      assert txs == init + [last];
      ByIdKeys(init);
      IdsSnoc(init, last);
    } else {
      assert Ids(txs) == {};
    }
  }

  /** Each distinct transaction once, parents that are in the package before their children. */
  ghost predicate Sorted(byId: map<Id, Tx>, ordered: seq<Tx>) {
    && DistinctIds(ordered) && Ids(ordered) == byId.Keys
    && (forall i :: 0 <= i < |ordered| ==> ordered[i].id in byId && byId[ordered[i].id] == ordered[i])
    && InOrder(byId.Keys, ordered)
  }

  ghost predicate InOrder(ids: set<Id>, ordered: seq<Tx>) {
    forall i, q :: 0 <= i < |ordered| && q in ParentIds(ordered[i]) && q in ids ==> q in Ids(ordered[..i])
  }

  predicate SpendsFrom(byId: map<Id, Tx>, x: Id, ids: set<Id>) {
    x in byId && ParentIds(byId[x]) * ids != {}
  }

  /** A non-empty set whose members all spend from members of the set. */
  ghost predicate Cyclic(byId: map<Id, Tx>, ids: set<Id>) {
    ids != {} && ids <= byId.Keys && forall x :: x in ids ==> SpendsFrom(byId, x, ids)
  }

  lemma {:induction false} CyclicStaysOut(byId: map<Id, Tx>, ids: set<Id>, ordered: seq<Tx>, n: nat)
    requires Cyclic(byId, ids) && Sorted(byId, ordered) && n <= |ordered|
    ensures Ids(ordered[..n]) !! ids
    decreases n
  {
    hide ParentIds, Ids, DistinctIds;
    if n > 0 {
      CyclicStaysOut(byId, ids, ordered, n - 1);
      var tx := ordered[n - 1];
      assert ordered[..n] == ordered[..n - 1] + [tx];
      IdsSnoc(ordered[..n - 1], tx);
      ParentsAhead(byId.Keys, ordered, n - 1);
      assert ParentIds(tx) * ids <= Ids(ordered[..n - 1]) * ids;
      assert tx.id in ids ==> SpendsFrom(byId, tx.id, ids);
    } else {
      NoIds(ordered[..0]);
    }
  }

  lemma NoIds(txs: seq<Tx>)
    requires txs == []
    ensures Ids(txs) == {}
  {
  }

  lemma ParentsAhead(ids: set<Id>, ordered: seq<Tx>, i: nat)
    requires InOrder(ids, ordered) && i < |ordered|
    ensures ParentIds(ordered[i]) * ids <= Ids(ordered[..i])
  {
  }

  /** A package with such a set cannot be sorted. */
  lemma CyclicCannotSort(byId: map<Id, Tx>, ids: set<Id>, ordered: seq<Tx>)
    requires Cyclic(byId, ids)
    ensures !Sorted(byId, ordered)
  {
    hide ParentIds, Ids, DistinctIds, InOrder, SpendsFrom;
    assert ordered[..|ordered|] == ordered;
    assert ids * byId.Keys == ids;
    if Sorted(byId, ordered) {
      CyclicStaysOut(byId, ids, ordered, |ordered|);
    }
  }

  lemma InOrderSnoc(ids: set<Id>, ordered: seq<Tx>, tx: Tx)
    requires InOrder(ids, ordered) && forall q :: q in ParentIds(tx) && q in ids ==> q in Ids(ordered)
    ensures InOrder(ids, ordered + [tx])
  {
    hide ParentIds, Ids;
    var more := ordered + [tx];
    forall i, q | 0 <= i < |more| && q in ParentIds(more[i]) && q in ids
      ensures q in Ids(more[..i])
    {
      if i < |ordered| {
        assert more[..i] == ordered[..i];
      } else {
        assert more[..i] == ordered;
      }
    }
  }

  lemma DistinctIdsSnoc(txs: seq<Tx>, tx: Tx)
    requires DistinctIds(txs) && tx.id !in Ids(txs)
    ensures DistinctIds(txs + [tx])
  {
    forall i | 0 <= i < |txs|
      ensures txs[i].id != tx.id
    {
      assert txs[i].id in Ids(txs);
    }
  }

  /** How far the sorting has come: these are placed, the others not yet. */
  ghost predicate Placed(byId: map<Id, Tx>, ordered: seq<Tx>, done: set<Id>) {
    && DistinctIds(ordered) && Ids(ordered) == done && InOrder(byId.Keys, ordered)
    && forall i :: 0 <= i < |ordered| ==> ordered[i].id in byId && byId[ordered[i].id] == ordered[i]
  }

  lemma PlaceNext(byId: map<Id, Tx>, ordered: seq<Tx>, done: set<Id>, x: Id)
    requires Placed(byId, ordered, done) && x in byId && byId[x].id == x && x !in done
    requires ParentIds(byId[x]) * byId.Keys <= done
    ensures Placed(byId, ordered + [byId[x]], done + {x})
  {
    hide ParentIds, InOrder, Ids, DistinctIds;
    var tx := byId[x];
    assert forall q :: q in ParentIds(tx) && q in byId.Keys ==> q in ParentIds(tx) * byId.Keys;
    InOrderSnoc(byId.Keys, ordered, tx);
    DistinctIdsSnoc(ordered, tx);
    IdsSnoc(ordered, tx);
  }

  lemma PlaceNone(byId: map<Id, Tx>)
    ensures Placed(byId, [], {})
  {
    NoIds([]);
  }

  // Whoever was passed over depends on someone who was not placed when the round began.
  lemma PassedOver(byId: map<Id, Tx>, x: Id, done: set<Id>, start: set<Id>)
    requires x in byId && byId.Keys - done == start && !(ParentIds(byId[x]) * byId.Keys <= done)
    ensures SpendsFrom(byId, x, start)
  {
    hide ParentIds;
    var deps := ParentIds(byId[x]) * byId.Keys;
    if ParentIds(byId[x]) * start == {} {
      forall q | q in deps
        ensures q in done
      {
        assert q !in ParentIds(byId[x]) * start;
      }
    }
  }

  /** Rounds over the unresolved ids; gives up exactly when some of them depend on each other in a circle. */
  method SortPackageTxs(txs: seq<Tx>) returns (r: Option<seq<Tx>>)
    ensures r.Some? ==> Sorted(ById(txs), r.value)
    ensures r.None? <==> exists ids :: Cyclic(ById(txs), ids)
  {
    hide ParentIds, Placed, SpendsFrom, Sorted;
    var byId := ById(txs);
    ByIdKeys(txs);
    var unresolved := byId.Keys;
    var ordered: seq<Tx> := [];
    var orderedIds: set<Id> := {};
    PlaceNone(byId);
    while unresolved != {}
      invariant unresolved <= byId.Keys && orderedIds == byId.Keys - unresolved && Placed(byId, ordered, orderedIds)
      decreases unresolved
    {
      var progressed := false;
      var todo := unresolved;
      ghost var start := unresolved;
      while todo != {}
        invariant todo <= unresolved <= start && (progressed <==> unresolved < start)
        invariant orderedIds == byId.Keys - unresolved && Placed(byId, ordered, orderedIds)
        invariant !progressed ==> forall x :: x in start - todo ==> SpendsFrom(byId, x, start)
        decreases todo
      {
        SomeId(todo);
        var x :| x in todo;
        todo := todo - {x};
        if ParentIds(byId[x]) * byId.Keys <= orderedIds {
          PlaceNext(byId, ordered, orderedIds, x);
          ordered, orderedIds, unresolved := ordered + [byId[x]], orderedIds + {x}, unresolved - {x};
          progressed := true;
        } else if !progressed {
          assert unresolved == start;
          PassedOver(byId, x, orderedIds, start);
        }
      }
      if !progressed {
        assert start - todo == start;
        assert Cyclic(byId, start);
        return None;
      }
    }
    SortedAll(byId, ordered, orderedIds);
    forall ids
      ensures !Cyclic(byId, ids)
    {
      if Cyclic(byId, ids) {
        CyclicCannotSort(byId, ids, ordered);
      }
    }
    return Some(ordered);
  }

  lemma SortedAll(byId: map<Id, Tx>, ordered: seq<Tx>, done: set<Id>)
    requires Placed(byId, ordered, done) && done == byId.Keys
    ensures Sorted(byId, ordered)
  {
  }

  // --------------------------------------------------------------------- pricing

  /** Value of an output of the first n members; of the same outpoint the last counts. */
  function StagedValue(txs: seq<Tx>, n: nat, o: OutPoint): Option<int>
    requires n <= |txs|
    decreases n
  {
    if n == 0 then None
    else if txs[n - 1].id == o.txid && o.index < |txs[n - 1].vout| then Some(txs[n - 1].vout[o.index].value)
    else StagedValue(txs, n - 1, o)
  }

  /** What an input of member n is worth: an earlier member's output, else a coin or a pooled output. */
  function InputWorth(chain: ChainView, es: PoolEntries, txs: seq<Tx>, n: nat, o: OutPoint): Option<int>
    requires n <= |txs|
  {
    if StagedValue(txs, n, o).Some? then StagedValue(txs, n, o)
    else match CoinFor(chain, es, o) case None => None case Some(c) => Some(c.value)
  }

  function InputsWorth(chain: ChainView, es: PoolEntries, txs: seq<Tx>, n: nat, i: nat): Option<int>
    requires n < |txs| && i <= |txs[n].vin|
    decreases i
  {
    if i == 0 then Some(0)
    else
      match (InputsWorth(chain, es, txs, n, i - 1), InputWorth(chain, es, txs, n, txs[n].vin[i - 1].prev))
      case (Some(v), Some(w)) => Some(v + w)
      case _ => None
  }

  /** The fee of the first n members together; None when an input is unknown. */
  function PackageFee(chain: ChainView, es: PoolEntries, txs: seq<Tx>, n: nat): Option<int>
    requires n <= |txs|
    decreases n
  {
    if n == 0 then Some(0)
    else
      match (PackageFee(chain, es, txs, n - 1), InputsWorth(chain, es, txs, n - 1, |txs[n - 1].vin|))
      case (Some(f), Some(v)) => Some(f + v - OutputValue(txs[n - 1], |txs[n - 1].vout|))
      case _ => None
  }

  lemma {:induction false} PackageFeeStops(chain: ChainView, es: PoolEntries, txs: seq<Tx>, n: nat, m: nat)
    requires n <= m <= |txs| && PackageFee(chain, es, txs, n).None?
    ensures PackageFee(chain, es, txs, m).None?
    decreases m
  {
    if n < m {
      PackageFeeStops(chain, es, txs, n, m - 1);
    }
  }

  lemma {:induction false} InputsWorthStops(chain: ChainView, es: PoolEntries, txs: seq<Tx>, n: nat, i: nat, j: nat)
    requires n < |txs| && i <= j <= |txs[n].vin| && InputsWorth(chain, es, txs, n, i).None?
    ensures InputsWorth(chain, es, txs, n, j).None?
    decreases j
  {
    if i < j {
      InputsWorthStops(chain, es, txs, n, i, j - 1);
    }
  }

  /** The staged outputs are those of the first n members. */
  ghost predicate StagedIs(staged: map<OutPoint, int>, txs: seq<Tx>, n: nat)
    requires n <= |txs|
  {
    forall o :: (if o in staged then Some(staged[o]) else None) == StagedValue(txs, n, o)
  }

  method EstimatePackageFee(pool: Mempool, txs: seq<Tx>, chain: ChainView) returns (fee: Option<int>)
    ensures fee == PackageFee(chain, pool.transactions, txs, |txs|)
  {
    hide CoinFor;
    var es := pool.transactions;
    var staged: map<OutPoint, int> := map[];
    var total := 0;
    for n := 0 to |txs|
      invariant PackageFee(chain, es, txs, n) == Some(total) && StagedIs(staged, txs, n)
    {
      var tx := txs[n];
      var totalIn, totalOut := 0, 0;
      for i := 0 to |tx.vin|
        invariant InputsWorth(chain, es, txs, n, i) == Some(totalIn)
      {
        var o := tx.vin[i].prev;
        assert StagedValue(txs, n, o) == if o in staged then Some(staged[o]) else None;
        if o in staged {
          totalIn := totalIn + staged[o];
        } else {
          var coin := CoinFor(chain, es, o);
          if coin.None? {
            InputsWorthStops(chain, es, txs, n, i + 1, |tx.vin|);
            PackageFeeStops(chain, es, txs, n + 1, |txs|);
            return None;
          }
          totalIn := totalIn + coin.value.value;
        }
      }
      for j := 0 to |tx.vout|
        invariant totalOut == OutputValue(tx, j)
      {
        totalOut := totalOut + tx.vout[j].value;
      }
      total := total + (totalIn - totalOut);
      staged := StageOutputs(staged, txs, n);
    }
    return Some(total);
  }

  method StageOutputs(staged: map<OutPoint, int>, txs: seq<Tx>, n: nat) returns (r: map<OutPoint, int>)
    requires n < |txs| && StagedIs(staged, txs, n)
    ensures StagedIs(r, txs, n + 1)
  {
    var tx := txs[n];
    r := staged;
    for j := 0 to |tx.vout|
      invariant forall o :: o in r <==> o in staged || (o.txid == tx.id && o.index < j)
      invariant forall o :: o in r ==> r[o] == if o.txid == tx.id && o.index < j then tx.vout[o.index].value else staged[o]
    {
      r := r[OutPoint(tx.id, j) := tx.vout[j].value];
    }
    forall o
      ensures (if o in r then Some(r[o]) else None) == StagedValue(txs, n + 1, o)
    {
      assert (if o in staged then Some(staged[o]) else None) == StagedValue(txs, n, o);
    }
  }

  // -------------------------------------------------------------------- admission

  datatype PackageReply =
    | Accepted(added: seq<Id>)
    | TopologyInvalid | TooManyTransactions | TooHeavy | PackageMissingParents | PackageFeeTooLow
    | MemberRefused(txid: Id, reason: AddReply)

  function TotalWeight(env: PoolEnv, txs: seq<Tx>, n: nat): nat
    requires n <= |txs|
    decreases n
  {
    if n == 0 then 0 else TotalWeight(env, txs, n - 1) + env.weightOf(txs[n - 1])
  }

  function TotalVsize(env: PoolEnv, txs: seq<Tx>, n: nat): nat
    requires n <= |txs|
    decreases n
  {
    if n == 0 then 0 else TotalVsize(env, txs, n - 1) + VirtualSize(env.weightOf(txs[n - 1]))
  }

  /** Whatever is pooled now is one of the added or was pooled before, unchanged. */
  ghost predicate OnlyAdded(es: PoolEntries, fs: PoolEntries, added: seq<Id>) {
    forall x :: x in fs ==> x in added || (x in es && es[x].Bare() == fs[x].Bare())
  }

  lemma OnlyAddedNext(es: PoolEntries, fs: PoolEntries, gs: PoolEntries, added: seq<Id>, x: Id, e: PoolEntry)
    requires OnlyAdded(es, fs, added) && Shrunk(fs[x := e], gs)
    ensures OnlyAdded(es, gs, added + [x])
  {
    assert forall y :: y in added || y == x ==> y in added + [x];
    forall y | y in gs && y !in added + [x]
      ensures y in es && es[y].Bare() == gs[y].Bare()
    {
      assert y !in added && y != x;
      assert fs[x := e][y].Bare() == gs[y].Bare();
    }
  }

  lemma OnlyAddedLess(es: PoolEntries, fs: PoolEntries, gs: PoolEntries, added: seq<Id>)
    requires added != [] && OnlyAdded(es, fs, added) && Shrunk(fs, gs) && added[|added| - 1] !in gs
    ensures OnlyAdded(es, gs, added[..|added| - 1])
  {
    assert added == added[..|added| - 1] + [added[|added| - 1]];
  }

  function IdsIn(s: seq<Id>): set<Id> {
    set i | 0 <= i < |s| :: s[i]
  }

  /** Takes the members added so far out again, last first, with whatever depends on them. */
  method RollBackPackage(pool: Mempool, added: seq<Id>, ghost es: PoolEntries)
    requires Core(pool.State()) && OnlyAdded(es, pool.transactions, added)
    modifies pool
    ensures Core(pool.State()) && Shrunk(es, pool.transactions)
    ensures Graph(old(pool.transactions)) ==>
              && pool.transactions == Restrict(old(pool.transactions), Cut(old(pool.transactions), IdsIn(added)))
              && pool.parents == old(pool.parents) - Cut(old(pool.transactions), IdsIn(added))
  {
    hide Core, Shrunk, OnlyAdded, Graph, Restrict, Cut;
    ghost var start, parentsStart := pool.transactions, pool.parents;
    var k := |added|;
    assert added[..k] == added;
    assert IdsIn(added[k..]) == {};
    CutNone(start);
    RestrictNone(start);
    assert parentsStart - {} == parentsStart;
    while k > 0
      invariant 0 <= k <= |added| && Core(pool.State()) && OnlyAdded(es, pool.transactions, added[..k])
      invariant Graph(start) ==>
                  && pool.transactions == Restrict(start, Cut(start, IdsIn(added[k..])))
                  && pool.parents == parentsStart - Cut(start, IdsIn(added[k..]))
    {
      ghost var before := pool.transactions;
      if Graph(start) {
        RestrictGraph(start, Cut(start, IdsIn(added[k..])));
        CutMore(start, parentsStart, IdsIn(added[k..]), added[k - 1]);
        IdsInCons(added, k - 1);
      }
      var removed := pool.RemoveTransaction(added[k - 1], true);
      OnlyAddedLess(es, before, pool.transactions, added[..k]);
      assert added[..k][..k - 1] == added[..k - 1];
      k := k - 1;
    }
    assert added[0..] == added;
    NothingAdded(es, pool.transactions);
  }

  lemma IdsInCons(s: seq<Id>, k: nat)
    requires k < |s|
    ensures IdsIn(s[k..]) == IdsIn(s[k + 1..]) + {s[k]}
  {
    forall x
      ensures x in IdsIn(s[k..]) <==> x in IdsIn(s[k + 1..]) + {s[k]}
    {
      if x in IdsIn(s[k..]) {
        var i :| 0 <= i < |s[k..]| && s[k..][i] == x;
        assert i > 0 ==> s[k + 1..][i - 1] == x;
      }
      if x in IdsIn(s[k + 1..]) {
        var i :| 0 <= i < |s[k + 1..]| && s[k + 1..][i] == x;
        assert s[k..][i + 1] == x;
      }
      assert s[k..][0] == s[k];
    }
  }

  lemma NothingAdded(es: PoolEntries, fs: PoolEntries)
    requires OnlyAdded(es, fs, [])
    ensures Shrunk(es, fs)
  {
    forall x | x in fs.Keys
      ensures x in es.Keys
    {
    }
  }

  // ------------------------------------------------------- the package as a whole

  /** What an input is worth: an output of a member, else a coin or a pooled output. */
  function MemberWorth(chain: ChainView, es: PoolEntries, byId: map<Id, Tx>, o: OutPoint): Option<int> {
    if o.txid in byId && o.index < |byId[o.txid].vout| then Some(byId[o.txid].vout[o.index].value)
    else match CoinFor(chain, es, o) case None => None case Some(c) => Some(c.value)
  }

  function MemberInputs(chain: ChainView, es: PoolEntries, byId: map<Id, Tx>, tx: Tx, i: nat): Option<int>
    requires i <= |tx.vin|
    decreases i
  {
    if i == 0 then Some(0)
    else
      match (MemberInputs(chain, es, byId, tx, i - 1), MemberWorth(chain, es, byId, tx.vin[i - 1].prev))
      case (Some(v), Some(w)) => Some(v + w)
      case _ => None
  }

  function MemberFee(chain: ChainView, es: PoolEntries, byId: map<Id, Tx>, tx: Tx): Option<int> {
    match MemberInputs(chain, es, byId, tx, |tx.vin|)
    case None => None
    case Some(v) => Some(v - OutputValue(tx, |tx.vout|))
  }

  function MemberFees(chain: ChainView, es: PoolEntries, byId: map<Id, Tx>): map<Id, int> {
    map x | x in byId && MemberFee(chain, es, byId, byId[x]).Some? :: MemberFee(chain, es, byId, byId[x]).value
  }

  function MemberWeights(env: PoolEnv, byId: map<Id, Tx>): map<Id, int> {
    map x | x in byId :: env.weightOf(byId[x])
  }

  function MemberVsizes(env: PoolEnv, byId: map<Id, Tx>): map<Id, int> {
    map x | x in byId :: VirtualSize(env.weightOf(byId[x]))
  }

  /** What the members pay per virtual byte together. */
  ghost function PackageFeeRate(env: PoolEnv, chain: ChainView, es: PoolEntries, byId: map<Id, Tx>): real {
    var vsize := Sum(MemberVsizes(env, byId), byId.Keys);
    if vsize > 0 then Sum(MemberFees(chain, es, byId), byId.Keys) as real / vsize as real else 0.0
  }

  /** The first check that the package as a whole fails, in the order they are made. */
  ghost function PackageScreen(env: PoolEnv, chain: ChainView, es: PoolEntries, byId: map<Id, Tx>, floorRate: real):
    Option<PackageReply>
  {
    if exists ids :: Cyclic(byId, ids) then Some(TopologyInvalid)
    else if |byId| > env.limits.maxPackageCount then Some(TooManyTransactions)
    else if Sum(MemberWeights(env, byId), byId.Keys) > env.limits.maxPackageWeight then Some(TooHeavy)
    else if exists x :: x in byId && MemberFee(chain, es, byId, byId[x]).None? then Some(PackageMissingParents)
    else if PackageFeeRate(env, chain, es, byId) < floorRate then Some(PackageFeeTooLow)
    else None
  }

  /** The pool as if the members were in it. */
  ghost predicate WithMembers(es: PoolEntries, byId: map<Id, Tx>, fs: PoolEntries) {
    && fs.Keys == es.Keys + byId.Keys && es.Keys !! byId.Keys
    && (forall x :: x in es ==> fs[x] == es[x])
    && forall x :: x in byId ==> fs[x].tx == byId[x]
  }

  /** A member's part of the price is the fee it would pay with all members pooled, known exactly when all its coins then are. */
  lemma MemberFeeExactly(chain: ChainView, es: PoolEntries, byId: map<Id, Tx>, fs: PoolEntries, tx: Tx)
    requires WithMembers(es, byId, fs) && forall o :: o in chain.coins ==> o.txid !in byId
    ensures MemberFee(chain, es, byId, tx) ==
            if forall i :: 0 <= i < |tx.vin| ==> CoinThere(chain, fs, tx.vin[i].prev) then Some(FeePaid(chain, fs, tx)) else None
  {
    hide CoinThere, WorthBehind, OutputValue;
    MemberInputsAre(chain, es, byId, fs, tx, |tx.vin|);
  }

  lemma {:induction false} MemberInputsAre(chain: ChainView, es: PoolEntries, byId: map<Id, Tx>, fs: PoolEntries, tx: Tx, n: nat)
    requires WithMembers(es, byId, fs) && (forall o :: o in chain.coins ==> o.txid !in byId) && n <= |tx.vin|
    ensures MemberInputs(chain, es, byId, tx, n) ==
            if forall i :: 0 <= i < n ==> CoinThere(chain, fs, tx.vin[i].prev) then Some(WorthBehind(chain, fs, tx, n)) else None
    decreases n
  {
    if n > 0 {
      MemberInputsAre(chain, es, byId, fs, tx, n - 1);
      var o := tx.vin[n - 1].prev;
      CoinIs(chain, es, o);
    }
  }

  lemma {:induction false} StagedAt(txs: seq<Tx>, n: nat, o: OutPoint, j: nat)
    requires j < n <= |txs| && DistinctIds(txs) && txs[j].id == o.txid
    ensures StagedValue(txs, n, o) == if o.index < |txs[j].vout| then Some(txs[j].vout[o.index].value) else None
    decreases n
  {
    if j < n - 1 {
      StagedAt(txs, n - 1, o, j);
    } else {
      StagedNone(txs, j, o);
    }
  }

  lemma {:induction false} StagedNone(txs: seq<Tx>, n: nat, o: OutPoint)
    requires n <= |txs| && forall i :: 0 <= i < n ==> txs[i].id != o.txid
    ensures StagedValue(txs, n, o) == None
    decreases n
  {
    if n > 0 {
      StagedNone(txs, n - 1, o);
    }
  }

  /** In whatever order the members were sorted, what an input is worth is the same. */
  lemma WorthSame(chain: ChainView, es: PoolEntries, byId: map<Id, Tx>, ordered: seq<Tx>, n: nat, i: nat)
    requires Sorted(byId, ordered) && n < |ordered| && i < |ordered[n].vin|
    ensures var o := ordered[n].vin[i].prev;
            InputWorth(chain, es, ordered, n, o) == MemberWorth(chain, es, byId, o)
  {
    hide CoinFor;
    var o := ordered[n].vin[i].prev;
    assert o.txid in ParentIds(ordered[n]);
    if o.txid in byId {
      assert o.txid in Ids(ordered[..n]);
      var j :| 0 <= j < |ordered[..n]| && ordered[..n][j].id == o.txid;
      StagedAt(ordered, n, o, j);
      assert byId[ordered[j].id] == ordered[j];
    } else {
      assert forall k :: 0 <= k < n ==> ordered[k].id in byId;
      StagedNone(ordered, n, o);
    }
  }

  lemma {:induction false} InputsSame(chain: ChainView, es: PoolEntries, byId: map<Id, Tx>, ordered: seq<Tx>, n: nat, i: nat)
    requires Sorted(byId, ordered) && n < |ordered| && i <= |ordered[n].vin|
    ensures InputsWorth(chain, es, ordered, n, i) == MemberInputs(chain, es, byId, ordered[n], i)
    decreases i
  {
    hide Sorted, InputWorth, MemberWorth;
    if i > 0 {
      InputsSame(chain, es, byId, ordered, n, i - 1);
      WorthSame(chain, es, byId, ordered, n, i - 1);
    }
  }

  lemma NextId(byId: map<Id, Tx>, ordered: seq<Tx>, n: nat)
    requires Sorted(byId, ordered) && n < |ordered|
    ensures ordered[n].id in byId && byId[ordered[n].id] == ordered[n] && ordered[n].id !in Ids(ordered[..n])
    ensures Ids(ordered[..n + 1]) == Ids(ordered[..n]) + {ordered[n].id}
  {
    assert ordered[..n + 1] == ordered[..n] + [ordered[n]];
    IdsSnoc(ordered[..n], ordered[n]);
  }

  lemma SumNext(f: map<Id, int>, ids: set<Id>, x: Id)
    requires x !in ids && x in f
    ensures Sum(f, ids + {x}) == Sum(f, ids) + f[x]
  {
    SumRemove(f, ids + {x}, x);
    assert ids + {x} - {x} == ids;
  }

  lemma {:induction false} WeightSame(env: PoolEnv, byId: map<Id, Tx>, ordered: seq<Tx>, n: nat)
    requires Sorted(byId, ordered) && n <= |ordered|
    ensures TotalWeight(env, ordered, n) == Sum(MemberWeights(env, byId), Ids(ordered[..n]))
    ensures TotalVsize(env, ordered, n) == Sum(MemberVsizes(env, byId), Ids(ordered[..n]))
    ensures |Ids(ordered[..n])| == n
    decreases n
  {
    hide Sorted, VirtualSize, Ids;
    if n == 0 {
      NoIdsYet(ordered);
    } else {
      WeightSame(env, byId, ordered, n - 1);
      NextId(byId, ordered, n - 1);
      SumNext(MemberWeights(env, byId), Ids(ordered[..n - 1]), ordered[n - 1].id);
      SumNext(MemberVsizes(env, byId), Ids(ordered[..n - 1]), ordered[n - 1].id);
    }
  }

  lemma NoIdsYet(ordered: seq<Tx>)
    ensures Ids(ordered[..0]) == {}
  {
  }

  /** The price of the first n members is the sum of theirs, known exactly when all are. */
  lemma {:induction false} FeeSame(chain: ChainView, es: PoolEntries, byId: map<Id, Tx>, ordered: seq<Tx>, n: nat)
    requires Sorted(byId, ordered) && n <= |ordered|
    ensures PackageFee(chain, es, ordered, n) ==
            if forall k :: 0 <= k < n ==> MemberFee(chain, es, byId, ordered[k]).Some?
            then Some(Sum(MemberFees(chain, es, byId), Ids(ordered[..n]))) else None
    decreases n
  {
    hide Sorted, Ids, InputsWorth, MemberInputs, OutputValue;
    if n == 0 {
      NoIdsYet(ordered);
    } else {
      FeeSame(chain, es, byId, ordered, n - 1);
      InputsSame(chain, es, byId, ordered, n - 1, |ordered[n - 1].vin|);
      NextId(byId, ordered, n - 1);
      if MemberFee(chain, es, byId, ordered[n - 1]).Some? {
        SumNext(MemberFees(chain, es, byId), Ids(ordered[..n - 1]), ordered[n - 1].id);
      }
    }
  }

  /** Count, weight, size and price of a sorted package do not depend on how it was sorted. */
  lemma PriceOfSorted(env: PoolEnv, chain: ChainView, es: PoolEntries, byId: map<Id, Tx>, ordered: seq<Tx>)
    requires Sorted(byId, ordered)
    ensures |ordered| == |byId|
    ensures TotalWeight(env, ordered, |ordered|) == Sum(MemberWeights(env, byId), byId.Keys)
    ensures TotalVsize(env, ordered, |ordered|) == Sum(MemberVsizes(env, byId), byId.Keys)
    ensures PackageFee(chain, es, ordered, |ordered|) ==
            if exists x :: x in byId && MemberFee(chain, es, byId, byId[x]).None? then None
            else Some(Sum(MemberFees(chain, es, byId), byId.Keys))
  {
    hide MemberFee, PackageFee, TotalWeight, TotalVsize, Sum, MemberWeights, MemberVsizes, MemberFees;
    var n := |ordered|;
    assert ordered[..n] == ordered;
    WeightSame(env, byId, ordered, n);
    FeeSame(chain, es, byId, ordered, n);
    if x :| x in byId && MemberFee(chain, es, byId, byId[x]).None? {
      assert x in Ids(ordered);
      var k :| 0 <= k < n && ordered[k].id == x;
      assert byId[ordered[k].id] == ordered[k];
    } else {
      assert forall k :: 0 <= k < n ==> ordered[k].id in byId && byId[ordered[k].id] == ordered[k];
    }
  }

  // ---------------------------------------------------------- member after member

  function AnswerAt(reply: PackageReply, n: nat, k: nat): AddReply {
    if reply.MemberRefused? && k + 1 == n then reply.reason else Added
  }

  /** The pool before the first and after each admission: all of them succeed, except that the last one may refuse
      the member that the reply names. */
  ghost predicate Trail(env: PoolEnv, chain: ChainView, ordered: seq<Tx>, floorAt: nat -> real, rate: real, now: int,
                        pools: seq<Pool>, reply: PackageReply) {
    && 0 < |pools| <= |ordered| + 1
    && (forall k :: 0 <= k < |pools| ==> Core(pools[k]))
    && (forall k :: 0 <= k < |pools| - 1 ==>
          TrailStep(env, pools[k], chain, ordered[k], floorAt(k + 1), rate, now, AnswerAt(reply, |pools| - 1, k), pools[k + 1]))
    && (reply.Accepted? ==> |pools| == |ordered| + 1)
    && (reply.MemberRefused? ==> |pools| > 1 && !reply.reason.Added? && reply.txid == ordered[|pools| - 2].id)
  }

  ghost predicate TrailStep(env: PoolEnv, p: Pool, chain: ChainView, tx: Tx, floorRate: real, rate: real, now: int,
                            answer: AddReply, q: Pool) {
    Graph(p.entries) && Linked(p.entries, p.parents, chain.known) ==>
      AddStep(env, p, chain, tx, floorRate, Some(rate), now, answer, q)
  }

  /** The pool once the trail has ended: as it is, or rolled back. */
  ghost predicate TrailEnds(ordered: seq<Tx>, pools: seq<Pool>, reply: PackageReply, q: Pool)
    requires 0 < |pools| <= |ordered| + 1
  {
    var last := pools[|pools| - 1];
    && (reply.Accepted? ==> q == last)
    && (reply.MemberRefused? && |pools| > 1 && Graph(last.entries) ==>
          var added := Cut(last.entries, Ids(ordered[..|pools| - 2]));
          q.entries == Restrict(last.entries, added) && q.parents == last.parents - added)
  }

  /** If no single admission breaks the promises then the package, accepted or rolled back, keeps them. */
  lemma PackageKeeps(env: PoolEnv, chain: ChainView, ordered: seq<Tx>, floorAt: nat -> real, rate: real, now: int,
                     pools: seq<Pool>, reply: PackageReply, q: Pool)
    requires Trail(env, chain, ordered, floorAt, rate, now, pools, reply) && TrailEnds(ordered, pools, reply, q) && Core(q)
    requires reply.Accepted? || reply.MemberRefused?
    requires PoolInv(env.limits, pools[0], chain.known)
    requires forall k :: 0 <= k < |pools| - 1 ==> !Breaks(env, pools[k], chain, ordered[k], floorAt(k + 1), Some(rate), now)
    ensures PoolInv(env.limits, q, chain.known)
  {
    hide Core, Graph, Linked, WithinLimits, AddStep, Breaks, Cut, Restrict, DescendantClosed;
    TrailKeeps(env, chain, ordered, floorAt, rate, now, pools, reply, |pools| - 1);
    if reply.MemberRefused? {
      var last, ids := pools[|pools| - 1], Ids(ordered[..|pools| - 2]);
      CutIn(last.entries, ids);
      RemovalKeepsInv(env.limits, last, chain.known, Cut(last.entries, ids), q);
    }
  }

  lemma {:induction false} TrailKeeps(env: PoolEnv, chain: ChainView, ordered: seq<Tx>, floorAt: nat -> real, rate: real, now: int,
                                      pools: seq<Pool>, reply: PackageReply, n: nat)
    requires Trail(env, chain, ordered, floorAt, rate, now, pools, reply) && n < |pools|
    requires PoolInv(env.limits, pools[0], chain.known)
    requires forall k :: 0 <= k < |pools| - 1 ==> !Breaks(env, pools[k], chain, ordered[k], floorAt(k + 1), Some(rate), now)
    ensures PoolInv(env.limits, pools[n], chain.known)
    decreases n
  {
    hide Core, Graph, Linked, WithinLimits, AddStep, Breaks;
    if n > 0 {
      TrailKeeps(env, chain, ordered, floorAt, rate, now, pools, reply, n - 1);
      AdmissionBreaksExactly(env, pools[n - 1], chain, ordered[n - 1], floorAt(n), Some(rate), now,
                             AnswerAt(reply, |pools| - 1, n - 1), pools[n]);
    }
  }

  /** Admits a package.  The checks on the whole package decide alone whether its members are tried at all, whatever the
      order they were sorted in.  A refused package leaves nothing that was not pooled before.
      `floorAt` is the fee floor at each of the admissions, the first being for the package as a whole. */
  method AddPackage(pool: Mempool, txs: seq<Tx>, chain: ChainView, floorAt: nat -> real, now: int)
    returns (reply: PackageReply, ghost ordered: seq<Tx>, ghost pools: seq<Pool>)
    requires Core(pool.State())
    modifies pool
    ensures Core(pool.State())
    ensures !reply.Accepted? ==> Shrunk(old(pool.transactions), pool.transactions)
    ensures reply.Accepted? ==> OnlyAdded(old(pool.transactions), pool.transactions, reply.added)
    ensures reply.Accepted? ==>
              && |reply.added| <= pool.env.limits.maxPackageCount && Distinct(reply.added)
              && (forall x :: x in reply.added <==> x in Ids(txs)) && ParentsAdded(ById(txs), reply.added)
    ensures var screened := PackageScreen(pool.env, chain, old(pool.transactions), ById(txs), floorAt(0));
            && (screened.Some? ==> reply == screened.value && pool.State() == old(pool.State()))
            && (screened.None? ==>
                  && (reply.Accepted? || reply.MemberRefused?) && Sorted(ById(txs), ordered)
                  && Trail(pool.env, chain, ordered, floorAt,
                           PackageFeeRate(pool.env, chain, old(pool.transactions), ById(txs)), now, pools, reply)
                  && pools[0] == old(pool.State()) && TrailEnds(ordered, pools, reply, pool.State()))
  {
    hide Core, Shrunk, OnlyAdded, Sorted, Cyclic, PackageFee, ById, ParentIds, Trail, TrailEnds, MemberFee, MemberFees, MemberWeights,
      MemberVsizes, Sum, TotalWeight, TotalVsize;
    ghost var start := pool.transactions;
    ordered, pools := [], [];
    ShrunkSelf(start);
    var sorted := SortPackageTxs(txs);
    if sorted.None? {
      reply := TopologyInvalid;
      return;
    }
    var members := sorted.value;
    ordered := members;
    PriceOfSorted(pool.env, chain, start, ById(txs), members);
    if |members| > pool.env.limits.maxPackageCount {
      reply := TooManyTransactions;
      return;
    }
    if TotalWeight(pool.env, members, |members|) > pool.env.limits.maxPackageWeight {
      reply := TooHeavy;
      return;
    }
    var fee := EstimatePackageFee(pool, members, chain);
    if fee.None? {
      reply := PackageMissingParents;
      return;
    }
    var vsize := TotalVsize(pool.env, members, |members|);
    var rate := if vsize > 0 then fee.value as real / vsize as real else 0.0;
    if rate < floorAt(0) {
      reply := PackageFeeTooLow;
      return;
    }
    reply, pools := AdmitMembers(pool, members, chain, floorAt, rate, now);
    if reply.Accepted? {
      AddedInOrder(txs, members, reply.added);
    }
  }

  /** Admits the sorted members one after the other, and takes all of them out again when one is refused. */
  method AdmitMembers(pool: Mempool, ordered: seq<Tx>, chain: ChainView, floorAt: nat -> real, rate: real, now: int)
    returns (reply: PackageReply, ghost pools: seq<Pool>)
    requires Core(pool.State())
    modifies pool
    ensures Core(pool.State()) && (reply.Accepted? || reply.MemberRefused?)
    ensures reply.MemberRefused? ==> Shrunk(old(pool.transactions), pool.transactions)
    ensures reply.Accepted? ==> OnlyAdded(old(pool.transactions), pool.transactions, reply.added)
    ensures reply.Accepted? ==> |reply.added| == |ordered| && forall k :: 0 <= k < |ordered| ==> reply.added[k] == ordered[k].id
    ensures Trail(pool.env, chain, ordered, floorAt, rate, now, pools, reply)
    ensures pools[0] == old(pool.State()) && TrailEnds(ordered, pools, reply, pool.State())
  {
    hide Core, Shrunk, OnlyAdded, TrailStep, Graph, Linked, AddStep, Breaks, WithinLimits, NewEntry, Restrict, Cut, Ids, IdsIn;
    ghost var start := pool.transactions;
    var added: seq<Id> := [];
    pools := [pool.State()];
    NoneAdded(start);
    for i := 0 to |ordered|
      invariant Core(pool.State()) && OnlyAdded(start, pool.transactions, added)
      invariant |added| == i && forall k :: 0 <= k < i ==> added[k] == ordered[k].id
      invariant |pools| == i + 1 && pools[0] == old(pool.State()) && pools[i] == pool.State()
      invariant forall k :: 0 <= k <= i ==> Core(pools[k])
      invariant forall k :: 0 <= k < i ==>
                  TrailStep(pool.env, pools[k], chain, ordered[k], floorAt(k + 1), rate, now, Added, pools[k + 1])
    {
      ghost var before := pool.State();
      var answer := pool.AddTransaction(ordered[i], chain, floorAt(i + 1), Some(rate), now);
      TrailStepIs(pool.env, before, chain, ordered[i], floorAt(i + 1), rate, now, answer, pool.State());
      pools := pools + [pool.State()];
      if !answer.Added? {
        OnlyAddedShrunk(start, before.entries, pool.transactions, added);
        RollBackPackage(pool, added, start);
        reply := MemberRefused(ordered[i].id, answer);
        SameIds(ordered, i, added);
        assert |pools| - 2 == i;
        return;
      }
      OnlyAddedNext(start, before.entries, pool.transactions, added, ordered[i].id,
                    NewEntry(pool.env, chain, before.entries, ordered[i], now));
      added := added + [ordered[i].id];
    }
    reply := Accepted(added);
  }

  lemma TrailStepIs(env: PoolEnv, p: Pool, chain: ChainView, tx: Tx, floorRate: real, rate: real, now: int, answer: AddReply, q: Pool)
    requires Graph(p.entries) && Linked(p.entries, p.parents, chain.known) ==>
               AddStep(env, p, chain, tx, floorRate, Some(rate), now, answer, q)
    ensures TrailStep(env, p, chain, tx, floorRate, rate, now, answer, q)
  {
  }

  lemma SameIds(ordered: seq<Tx>, n: nat, added: seq<Id>)
    requires n == |added| <= |ordered| && forall k :: 0 <= k < n ==> added[k] == ordered[k].id
    ensures IdsIn(added) == Ids(ordered[..n])
  {
    forall x
      ensures x in IdsIn(added) <==> x in Ids(ordered[..n])
    {
      if x in IdsIn(added) {
        var i :| 0 <= i < n && added[i] == x;
        assert ordered[..n][i].id == x;
      }
      if x in Ids(ordered[..n]) {
        var i :| 0 <= i < n && ordered[..n][i].id == x;
        assert added[i] == x;
      }
    }
  }

  /** Members were admitted after their parents in the package. */
  ghost predicate ParentsAdded(byId: map<Id, Tx>, added: seq<Id>) {
    forall i, q :: 0 <= i < |added| && added[i] in byId && q in ParentIds(byId[added[i]]) && q in byId ==> q in added[..i]
  }

  lemma NoneAdded(es: PoolEntries)
    ensures OnlyAdded(es, es, [])
  {
  }

  lemma OnlyAddedShrunk(es: PoolEntries, fs: PoolEntries, gs: PoolEntries, added: seq<Id>)
    requires OnlyAdded(es, fs, added) && Shrunk(fs, gs)
    ensures OnlyAdded(es, gs, added)
  {
  }

  lemma AddedInOrder(txs: seq<Tx>, ordered: seq<Tx>, added: seq<Id>)
    requires Sorted(ById(txs), ordered) && |added| == |ordered|
    requires forall k :: 0 <= k < |ordered| ==> added[k] == ordered[k].id
    ensures Distinct(added) && (forall x :: x in added <==> x in Ids(txs)) && ParentsAdded(ById(txs), added)
  {
    hide ParentIds, ById;
    ByIdKeys(txs);
    forall x
      ensures x in added <==> x in Ids(ordered)
    {
      if x in Ids(ordered) {
        var i :| 0 <= i < |ordered| && ordered[i].id == x;
        assert added[i] == x;
      }
    }
    forall i, q | 0 <= i < |added| && added[i] in ById(txs) && q in ParentIds(ById(txs)[added[i]]) && q in ById(txs)
      ensures q in added[..i]
    {
      assert q in ParentIds(ordered[i]);
      var j :| 0 <= j < i && ordered[..i][j].id == q;
      assert added[..i][j] == q;
    }
  }

  // ----------------------------------------------------------- what a package must be

  /** No circle, few enough, light enough, all coins known, and together at the floor per virtual byte. */
  ghost predicate PackageObeys(env: PoolEnv, chain: ChainView, es: PoolEntries, byId: map<Id, Tx>, floorRate: real) {
    && (forall ids :: !Cyclic(byId, ids))
    && |byId| <= env.limits.maxPackageCount
    && Sum(MemberWeights(env, byId), byId.Keys) <= env.limits.maxPackageWeight
    && (forall x :: x in byId ==> MemberFee(chain, es, byId, byId[x]).Some?)
    && (if byId == map[] then floorRate <= 0.0
        else Sum(MemberFees(chain, es, byId), byId.Keys) as real >= floorRate * Sum(MemberVsizes(env, byId), byId.Keys) as real)
  }

  /** The members are tried exactly when the package as a whole is such. */
  lemma PackageExactly(env: PoolEnv, chain: ChainView, es: PoolEntries, byId: map<Id, Tx>, floorRate: real)
    ensures PackageScreen(env, chain, es, byId, floorRate) == None <==> PackageObeys(env, chain, es, byId, floorRate)
  {
    hide Cyclic, Sum, MemberFee, MemberFees, MemberWeights, MemberVsizes;
    var vsize := Sum(MemberVsizes(env, byId), byId.Keys);
    var fee := Sum(MemberFees(chain, es, byId), byId.Keys);
    if byId == map[] {
      assert byId.Keys == {};
      assert vsize == 0 by {
        SumNone(MemberVsizes(env, byId));
      }
    } else {
      VsizeIsPositive(env, byId);
      FloorIs(fee, vsize, floorRate);
    }
  }

  lemma SumNone(f: map<Id, int>)
    ensures Sum(f, {}) == 0
  {
  }

  lemma VsizeIsPositive(env: PoolEnv, byId: map<Id, Tx>)
    requires byId != map[]
    ensures Sum(MemberVsizes(env, byId), byId.Keys) > 0
  {
    hide VirtualSize;
    SomeId(byId.Keys);
    assert byId.Keys != {};
    var x :| x in byId.Keys;
    var f := MemberVsizes(env, byId);
    SumRemove(f, byId.Keys, x);
    forall y | y in f
      ensures f[y] >= 1
    {
    }
    SumMonotone(f, {}, byId.Keys - {x});
  }
}
