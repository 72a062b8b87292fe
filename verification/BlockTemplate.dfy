/** Choosing transactions for a block: packages of unselected ancestors by fee rate,
    sorted parents first, and the miner's own check of the result. */
module BlockTemplate {
  import opened Ledger
  import opened PoolSpec
  import opened Admission
  import opened Mempool
  import V = Validation
  import R = BlockRules

  /** Every ancestor of a listed transaction is listed before it. */
  ghost predicate AncestorsFirst(es: PoolEntries, s: seq<Id>) {
    && (forall i :: 0 <= i < |s| ==> s[i] in es)
    && forall i, a :: 0 <= i < |s| && a in es[s[i]].ancestors ==> a in s[..i]
  }

  /** Parents within the set come first. */
  ghost predicate ParentsFirst(parents: ParentMap, ids: set<Id>, s: seq<Id>) {
    forall i, q :: 0 <= i < |s| && q in ParentsOf(parents, s[i]) && q in ids ==> q in s[..i]
  }

  lemma ParentsFirstSnoc(parents: ParentMap, ids: set<Id>, s: seq<Id>, x: Id)
    requires ParentsFirst(parents, ids, s)
    requires forall q :: q in ParentsOf(parents, x) && q in ids ==> q in s
    ensures ParentsFirst(parents, ids, s + [x])
  {
    var t := s + [x];
    forall i, q | 0 <= i < |t| && q in ParentsOf(parents, t[i]) && q in ids
      ensures q in t[..i]
    {
      if i < |s| {
        assert t[..i] == s[..i];
      } else {
        assert t[..i] == s;
      }
    }
  }

  /** Among the remaining ids there is one with the fewest ancestors; its parents within the set are done. */
  lemma ReadyOne(es: PoolEntries, parents: ParentMap, known: set<Id>, ids: set<Id>, remaining: set<Id>) returns (x: Id)
    requires Graph(es) && Linked(es, parents, known) && remaining <= ids <= es.Keys && remaining != {}
    ensures x in remaining && forall q :: q in ParentsOf(parents, x) && q in ids ==> q in ids - remaining
  {
    hide Graph;
    x := Fewest(es, remaining);
    assert LinkedAt(es, parents, known, x);
    forall q | q in ParentsOf(parents, x) && q in ids
      ensures q in ids - remaining
    {
      assert q in es[x].ancestors;
      AncestorLess(es, x, q);
    }
  }

  lemma {:induction false} Fewest(es: PoolEntries, ids: set<Id>) returns (x: Id)
    requires ids <= es.Keys && ids != {}
    ensures x in ids && forall y :: y in ids ==> |es[x].ancestors| <= |es[y].ancestors|
    decreases ids
  {
    SomeId(ids);
    x :| x in ids;
    if ids - {x} != {} {
      var y := Fewest(es, ids - {x});
      if |es[y].ancestors| < |es[x].ancestors| {
        x := y;
      }
    } else {
      assert ids == {x};
    }
  }

  /** _topo_sort_txids.  Its fallback for a round without progress cannot be reached on a well-formed pool. */
  method TopoSort(pool: Mempool, ids: set<Id>, ghost known: set<Id>) returns (ordered: seq<Id>)
    requires Graph(pool.transactions) && Linked(pool.transactions, pool.parents, known) && ids <= pool.transactions.Keys
    ensures Listed(ordered, ids) && ParentsFirst(pool.parents, ids, ordered)
  {
    hide Graph, Linked, ParentsFirst;
    ordered := [];
    var remaining := ids;
    ParentsFirstNone(pool.parents, ids);
    while remaining != {}
      invariant remaining <= ids && Listed(ordered, ids - remaining) && ParentsFirst(pool.parents, ids, ordered)
      decreases remaining
    {
      var progressed := false;
      var todo := remaining;
      ghost var start := remaining;
      ghost var ready := ReadyOne(pool.transactions, pool.parents, known, ids, remaining);
      while todo != {}
        invariant todo <= remaining <= start && (progressed <==> remaining < start)
        invariant Listed(ordered, ids - remaining) && ParentsFirst(pool.parents, ids, ordered)
        invariant progressed || ready in todo
        decreases todo
      {
        SomeId(todo);
        var x :| x in todo;
        todo := todo - {x};
        if forall q :: q in ParentsOf(pool.parents, x) ==> q !in ids || q in ordered {
          ParentsFirstSnoc(pool.parents, ids, ordered, x);
          assert ids - remaining == ids - (remaining - {x}) - {x};
          ListedSnoc(ordered, x, ids - (remaining - {x}));
          ordered := ordered + [x];
          remaining := remaining - {x};
          progressed := true;
        }
      }
      if !progressed {
        assert false;
      }
    }
    assert ids - remaining == ids;
  }

  lemma ParentsFirstNone(parents: ParentMap, ids: set<Id>)
    ensures ParentsFirst(parents, ids, [])
  {
  }

  // ------------------------------------------------------------------- packages

  /** A transaction with those of its ancestors that are not selected yet. */
  function Needed(es: PoolEntries, x: Id, selected: set<Id>): set<Id>
    requires x in es
  {
    (set a | a in es[x].ancestors && a !in selected && a in es) + {x}
  }

  ghost function PackageWeight(es: PoolEntries, ids: set<Id>): int {
    Sum(Weights(es), ids)
  }

  ghost function WeightRate(es: PoolEntries, ids: set<Id>): real {
    if PackageWeight(es, ids) == 0 then 0.0 else Sum(FeesOf(es), ids) as real / PackageWeight(es, ids) as real
  }

  predicate AllValid(env: PoolEnv, es: PoolEntries, ids: set<Id>, height: int) {
    forall t :: t in ids && t in es ==> env.consensusOk(es[t].tx, height)
  }

  /** May this transaction's package be selected next? */
  ghost predicate Eligible(env: PoolEnv, es: PoolEntries, x: Id, selected: set<Id>, room: int, height: int) {
    && x in es && x !in selected
    && var ids := Needed(es, x, selected);
    AllValid(env, es, ids, height) && 0 < PackageWeight(es, ids) <= room && WeightRate(es, ids) > -1.0
  }

  ghost predicate NothingFits(env: PoolEnv, es: PoolEntries, selected: set<Id>, room: int, height: int) {
    forall y :: !Eligible(env, es, y, selected, room, height)
  }

  /** Scans the pool for the eligible package that pays most per unit of weight. */
  method BestPackage(pool: Mempool, selected: set<Id>, room: int, height: int, ghost known: set<Id>)
    returns (best: seq<Id>, weight: int, ghost head: Id)
    requires PoolInv(pool.env.limits, pool.State(), known)
    ensures best == [] ==> NothingFits(pool.env, pool.transactions, selected, room, height)
    ensures best != [] ==>
              && Eligible(pool.env, pool.transactions, head, selected, room, height)
              && Listed(best, Needed(pool.transactions, head, selected))
              && ParentsFirst(pool.parents, Needed(pool.transactions, head, selected), best)
              && weight == PackageWeight(pool.transactions, Needed(pool.transactions, head, selected))
              && forall y :: Eligible(pool.env, pool.transactions, y, selected, room, height) ==>
                   WeightRate(pool.transactions, Needed(pool.transactions, y, selected)) <=
                   WeightRate(pool.transactions, Needed(pool.transactions, head, selected))
  {
    hide Core, Graph, PoolSpec.Linked, WithinLimits, Sum, Weights, FeesOf, ParentsFirst, Listed;
    var es := pool.transactions;
    CoreByFee(pool.State());
    best, weight, head := [], 0, 0;
    var bestRate := -1.0;
    for i := 0 to |pool.byFee|
      invariant best == [] ==> bestRate == -1.0
      invariant best != [] ==>
                  && Eligible(pool.env, es, head, selected, room, height)
                  && Listed(best, Needed(es, head, selected)) && ParentsFirst(pool.parents, Needed(es, head, selected), best)
                  && weight == PackageWeight(es, Needed(es, head, selected))
                  && bestRate == WeightRate(es, Needed(es, head, selected))
      invariant forall k :: 0 <= k < i && Eligible(pool.env, es, pool.byFee[k], selected, room, height) ==>
                  best != [] && WeightRate(es, Needed(es, pool.byFee[k], selected)) <= bestRate
    {
      var x := pool.byFee[i];
      if x !in selected && x in es {
        var ids := Needed(es, x, selected);
        if AllValid(pool.env, es, ids, height) {
          var w := Mempool.SumOver(Weights(es), ids);
          if 0 < w <= room {
            var fee := Mempool.SumOver(FeesOf(es), ids);
            var rate := fee as real / w as real;
            if rate > bestRate {
              best := TopoSort(pool, ids, known);
              ListedNonempty(best, ids, x);
              bestRate, weight, head := rate, w, x;
            }
          }
        }
      }
    }
    forall y | Eligible(pool.env, es, y, selected, room, height)
      ensures best != [] && WeightRate(es, Needed(es, y, selected)) <= bestRate
    {
      assert y in pool.byFee;
    }
  }

  lemma CoreByFee(p: Pool)
    requires Core(p)
    ensures forall x :: x in p.byFee <==> x in p.entries
  {
  }

  lemma ListedNonempty(s: seq<Id>, ids: set<Id>, x: Id)
    requires Listed(s, ids) && x in ids
    ensures s != []
  {
  }

  // ------------------------------------------------------------------- selection

  function TxsOf(es: PoolEntries, ids: seq<Id>): seq<Tx>
    requires forall i :: 0 <= i < |ids| ==> ids[i] in es
  {
    seq(|ids|, i requires 0 <= i < |ids| => es[ids[i]].tx)
  }

  function IdSet(s: seq<Id>): set<Id> {
    set x | x in s
  }

  /** Where the k-th package starts and ends in the list, and which transaction it was chosen for. */
  datatype Cut = Cut(head: Id, start: nat, end: nat)

  /** This package is the head with its ancestors that were not selected before, and no package that could have been
      selected then pays more per unit of weight. */
  ghost predicate BestCut(env: PoolEnv, es: PoolEntries, ids: seq<Id>, c: Cut, maxWeight: int, height: int) {
    && c.start < c.end <= |ids|
    && var before := IdSet(ids[..c.start]);
    var room := maxWeight - PackageWeight(es, before);
    && Eligible(env, es, c.head, before, room, height)
    && IdSet(ids[c.start..c.end]) == Needed(es, c.head, before)
    && forall y :: Eligible(env, es, y, before, room, height) ==>
         WeightRate(es, Needed(es, y, before)) <= WeightRate(es, Needed(es, c.head, before))
  }

  /** The list is cut into such packages without a gap. */
  ghost predicate Greedy(env: PoolEnv, es: PoolEntries, ids: seq<Id>, cuts: seq<Cut>, maxWeight: int, height: int) {
    && (if cuts == [] then ids == [] else cuts[0].start == 0 && cuts[|cuts| - 1].end == |ids|)
    && (forall k :: 0 < k < |cuts| ==> cuts[k].start == cuts[k - 1].end)
    && forall k :: 0 <= k < |cuts| ==> BestCut(env, es, ids, cuts[k], maxWeight, height)
  }

  lemma BestCutStays(env: PoolEnv, es: PoolEntries, ids: seq<Id>, more: seq<Id>, c: Cut, maxWeight: int, height: int)
    requires BestCut(env, es, ids, c, maxWeight, height)
    ensures BestCut(env, es, ids + more, c, maxWeight, height)
  {
    assert (ids + more)[..c.start] == ids[..c.start] && (ids + more)[c.start..c.end] == ids[c.start..c.end];
  }

  lemma GreedySnoc(env: PoolEnv, es: PoolEntries, ids: seq<Id>, cuts: seq<Cut>, head: Id, best: seq<Id>, maxWeight: int, height: int)
    requires Greedy(env, es, ids, cuts, maxWeight, height) && best != []
    requires BestCut(env, es, ids + best, Cut(head, |ids|, |ids + best|), maxWeight, height)
    ensures Greedy(env, es, ids + best, cuts + [Cut(head, |ids|, |ids + best|)], maxWeight, height)
  {
    hide BestCut;
    var all := cuts + [Cut(head, |ids|, |ids + best|)];
    forall k | 0 <= k < |all|
      ensures BestCut(env, es, ids + best, all[k], maxWeight, height)
    {
      if k < |cuts| {
        BestCutStays(env, es, ids, best, cuts[k], maxWeight, height);
      }
    }
  }

  lemma BestIsCut(env: PoolEnv, es: PoolEntries, ids: seq<Id>, head: Id, best: seq<Id>, maxWeight: int, height: int)
    requires best != [] && Eligible(env, es, head, IdSet(ids), maxWeight - PackageWeight(es, IdSet(ids)), height)
    requires Listed(best, Needed(es, head, IdSet(ids)))
    requires forall y :: Eligible(env, es, y, IdSet(ids), maxWeight - PackageWeight(es, IdSet(ids)), height) ==>
               WeightRate(es, Needed(es, y, IdSet(ids))) <= WeightRate(es, Needed(es, head, IdSet(ids)))
    ensures BestCut(env, es, ids + best, Cut(head, |ids|, |ids + best|), maxWeight, height)
  {
    hide PackageWeight, WeightRate;
    assert (ids + best)[..|ids|] == ids && (ids + best)[|ids|..|ids + best|] == best;
    assert IdSet(best) == Needed(es, head, IdSet(ids));
  }

  /** Whatever is left out is so for a reason: its package has a transaction that is not valid in the next block, or weighs
      nothing, or does not fit any more, or costs more than it weighs. */
  lemma LeftOutBecause(env: PoolEnv, es: PoolEntries, selected: set<Id>, room: int, height: int, y: Id)
    requires NothingFits(env, es, selected, room, height) && y in es && y !in selected
    ensures var ids := {y} + set a | a in es[y].ancestors && a in es && a !in selected;
            var weight, fee := Sum(Weights(es), ids), Sum(FeesOf(es), ids);
            || (exists t :: t in ids && t in es && !env.consensusOk(es[t].tx, height))
            || weight <= 0 || weight > room || fee <= -weight
  {
    hide Sum, Weights, FeesOf;
    var ids := {y} + set a | a in es[y].ancestors && a in es && a !in selected;
    assert ids == Needed(es, y, selected);
    assert !Eligible(env, es, y, selected, room, height);
    var weight, fee := Sum(Weights(es), ids), Sum(FeesOf(es), ids);
    if weight > 0 && fee > -weight {
      assert fee as real / weight as real > -1.0 by {
        assert (fee as real / weight as real) * weight as real == fee as real;
      }
    }
  }

  /** Packages in order of what they pay, as long as one fits.  The result lists distinct transactions with every pooled
      ancestor earlier, stays within the weight, passes the miner's check, and leaves out nothing that would still fit. */
  method GetTransactionsForBlock(pool: Mempool, maxWeight: int, height: int, ghost known: set<Id>)
    returns (ids: seq<Id>, txs: seq<Tx>, ghost cuts: seq<Cut>)
    requires PoolInv(pool.env.limits, pool.State(), known)
    ensures Greedy(pool.env, pool.transactions, ids, cuts, maxWeight, height)
    ensures AncestorsFirst(pool.transactions, ids) && Distinct(ids)
    ensures txs == TxsOf(pool.transactions, ids) && SelectionOk(pool.parents, txs)
    ensures forall i :: 0 <= i < |txs| ==> pool.env.consensusOk(txs[i], height)
    ensures maxWeight >= 0 ==> PackageWeight(pool.transactions, IdSet(ids)) <= maxWeight
    ensures NothingFits(pool.env, pool.transactions, IdSet(ids), maxWeight - PackageWeight(pool.transactions, IdSet(ids)), height)
  {
    hide Core, Graph, PoolSpec.Linked, WithinLimits, Sum, Weights, FeesOf, ParentsFirst, Listed, AncestorsFirst, SelectionOk, Eligible, Greedy, BestCut;
    var es := pool.transactions;
    ids, txs, cuts := [], [], [];
    assert Greedy(pool.env, es, [], [], maxWeight, height) by {
      NoCuts(pool.env, es, maxWeight, height);
    }
    var selected: set<Id> := {};
    var currentWeight := 0;
    SelectedNone(pool.env, es, height);
    while true
      invariant AncestorsFirst(es, ids) && Distinct(ids) && selected == IdSet(ids) && selected <= es.Keys
      invariant (forall i :: 0 <= i < |ids| ==> ids[i] in es) && txs == TxsOf(es, ids)
      invariant AllValid(pool.env, es, selected, height) && Greedy(pool.env, es, ids, cuts, maxWeight, height)
      invariant currentWeight == PackageWeight(es, selected) && (maxWeight >= 0 ==> currentWeight <= maxWeight)
      decreases es.Keys - selected
    {
      var best, weight;
      ghost var head;
      best, weight, head := BestPackage(pool, selected, maxWeight - currentWeight, height, known);
      if best == [] {
        break;
      }
      AppendPackage(pool.env, pool.State(), known, ids, head, best, selected, maxWeight - currentWeight, height);
      BestIsCut(pool.env, es, ids, head, best, maxWeight, height);
      GreedySnoc(pool.env, es, ids, cuts, head, best, maxWeight, height);
      cuts := cuts + [Cut(head, |ids|, |ids + best|)];
      txs := txs + TxsOf(es, best);
      ids, selected := ids + best, selected + IdSet(best);
      currentWeight := currentWeight + weight;
    }
    SelectionPasses(pool.env.limits, pool.State(), known, ids);
    forall i | 0 <= i < |txs|
      ensures pool.env.consensusOk(txs[i], height)
    {
      assert ids[i] in selected;
    }
  }

  lemma NoCuts(env: PoolEnv, es: PoolEntries, maxWeight: int, height: int)
    ensures Greedy(env, es, [], [], maxWeight, height)
  {
  }

  lemma SelectedNone(env: PoolEnv, es: PoolEntries, height: int)
    ensures AncestorsFirst(es, []) && IdSet([]) == {} && PackageWeight(es, {}) == 0 && AllValid(env, es, {}, height)
  {
  }

  lemma AncestorsFirstSnoc(es: PoolEntries, s: seq<Id>, y: Id)
    requires AncestorsFirst(es, s) && y in es && forall a :: a in es[y].ancestors ==> a in s
    ensures AncestorsFirst(es, s + [y])
  {
    var t := s + [y];
    forall i, a | 0 <= i < |t| && a in es[t[i]].ancestors
      ensures a in t[..i]
    {
      if i < |s| {
        assert t[..i] == s[..i];
      } else {
        assert t[..i] == s;
      }
    }
  }

  /** The next member of a sorted package finds all its ancestors in front of it. */
  lemma NextHasAncestors(es: PoolEntries, parents: ParentMap, known: set<Id>, s: seq<Id>, x: Id, pkg: seq<Id>, k: nat)
    requires Graph(es) && Linked(es, parents, known) && x in es && k < |pkg|
    requires Listed(pkg, Needed(es, x, IdSet(s))) && ParentsFirst(parents, Needed(es, x, IdSet(s)), pkg)
    requires AncestorsFirst(es, s + pkg[..k])
    ensures pkg[k] in es && forall a :: a in es[pkg[k]].ancestors ==> a in s + pkg[..k]
  {
    hide Graph;
    var y, front := pkg[k], s + pkg[..k];
    assert y in pkg;
    GraphOf(es, x);
    assert LinkedAt(es, parents, known, y);
    forall q | q in ParentsOf(parents, y)
      ensures q in front
    {
      assert q in es[y].ancestors;
      assert q in es[x].ancestors;
      if q !in s {
        assert q in Needed(es, x, IdSet(s));
        assert q in pkg[..k];
      }
    }
    forall a | a in es[y].ancestors
      ensures a in front
    {
      if a !in ParentsOf(parents, y) {
        var q :| q in ParentsOf(parents, y) && q in es && a in es[q].ancestors;
        var j :| 0 <= j < |front| && front[j] == q;
        assert a in front[..j];
      }
    }
  }

  lemma {:induction false} PackageInFront(es: PoolEntries, parents: ParentMap, known: set<Id>, s: seq<Id>, x: Id, pkg: seq<Id>, k: nat)
    requires Graph(es) && Linked(es, parents, known) && x in es && k <= |pkg|
    requires Listed(pkg, Needed(es, x, IdSet(s))) && ParentsFirst(parents, Needed(es, x, IdSet(s)), pkg)
    requires AncestorsFirst(es, s)
    ensures AncestorsFirst(es, s + pkg[..k])
    decreases k
  {
    hide Graph, Linked, Listed, ParentsFirst, AncestorsFirst, Needed;
    if k == 0 {
      assert s + pkg[..0] == s;
    } else {
      PackageInFront(es, parents, known, s, x, pkg, k - 1);
      NextHasAncestors(es, parents, known, s, x, pkg, k - 1);
      AncestorsFirstSnoc(es, s + pkg[..k - 1], pkg[k - 1]);
      assert s + pkg[..k] == s + pkg[..k - 1] + [pkg[k - 1]];
    }
  }

  /** One more package keeps the order, the weight and the validity. */
  lemma AppendPackage(env: PoolEnv, p: Pool, known: set<Id>, s: seq<Id>, x: Id, pkg: seq<Id>, selected: set<Id>, room: int, height: int)
    requires PoolInv(env.limits, p, known) && AncestorsFirst(p.entries, s) && Distinct(s) && selected == IdSet(s)
    requires Eligible(env, p.entries, x, selected, room, height) && AllValid(env, p.entries, selected, height)
    requires Listed(pkg, Needed(p.entries, x, selected)) && ParentsFirst(p.parents, Needed(p.entries, x, selected), pkg)
    ensures AncestorsFirst(p.entries, s + pkg) && Distinct(s + pkg) && IdSet(s + pkg) == selected + IdSet(pkg)
    ensures (forall i :: 0 <= i < |pkg| ==> pkg[i] in p.entries) && (forall i :: 0 <= i < |s| ==> s[i] in p.entries)
    ensures TxsOf(p.entries, s + pkg) == TxsOf(p.entries, s) + TxsOf(p.entries, pkg)
    ensures AllValid(env, p.entries, selected + IdSet(pkg), height)
    ensures PackageWeight(p.entries, selected + IdSet(pkg)) ==
            PackageWeight(p.entries, selected) + PackageWeight(p.entries, Needed(p.entries, x, selected))
    ensures PackageWeight(p.entries, Needed(p.entries, x, selected)) <= room
    ensures IdSet(pkg) <= p.entries.Keys && p.entries.Keys - (selected + IdSet(pkg)) < p.entries.Keys - selected
  {
    hide Core, Graph, Linked, WithinLimits, Sum, Weights, ParentsFirst;
    var es, needed := p.entries, Needed(p.entries, x, selected);
    PackageInFront(es, p.parents, known, s, x, pkg, |pkg|);
    assert pkg[..|pkg|] == pkg;
    assert IdSet(pkg) == needed;
    forall i | 0 <= i < |pkg|
      ensures pkg[i] in needed
    {
      assert pkg[i] in pkg;
    }
    forall i | 0 <= i < |s|
      ensures s[i] in selected
    {
    }
    SumUnion(Weights(es), selected, needed);
    assert x in es.Keys - selected && x in needed;
    hide AncestorsFirst;
  }

  // -------------------------------------------------------------- the miner's check

  /** Distinct ids, no outpoint spent twice, and parents before children by inputs and by recorded parents. */
  ghost predicate SelectionOk(parents: ParentMap, txs: seq<Tx>) {
    && DistinctIds(txs)
    && (forall i :: 0 <= i < |txs| ==> V.DistinctInputs(txs[i], |txs[i].vin|))
    && (forall i, j :: 0 <= i < j < |txs| ==> Inputs(txs[i]) !! Inputs(txs[j]))
    && forall i, q :: 0 <= i < |txs| && q in ParentIds(txs[i]) + ParentsOf(parents, txs[i].id) && q in Ids(txs) ==> q in Ids(txs[..i])
  }

  /** What passes the miner's check meets what the validator asks of a block as a whole: behind any coinbase, no id occurs twice
      and no outpoint is spent twice. */
  lemma PassedMeetsValidator(parents: ParentMap, coinbase: Tx, txs: seq<Tx>)
    requires SelectionOk(parents, txs) && coinbase.id !in Ids(txs)
    ensures DistinctIds([coinbase] + txs) && R.NoneTwice([coinbase] + txs)
  {
    var all := [coinbase] + txs;
    forall j, k | 0 <= j < k < |all|
      ensures all[j].id != all[k].id
    {
      assert all[k] == txs[k - 1];
    }
    forall j, i, k, l | 0 < j < |all| && 0 <= i < |all[j].vin| && 0 < k < |all| && 0 <= l < |all[k].vin|
                        && all[j].vin[i].prev == all[k].vin[l].prev
      ensures j == k && i == l
    {
      assert all[j] == txs[j - 1] && all[k] == txs[k - 1];
      assert all[j].vin[i].prev in Inputs(txs[j - 1]) && all[k].vin[l].prev in Inputs(txs[k - 1]);
      assert j == k;
      assert V.DistinctInputs(txs[j - 1], |txs[j - 1].vin|);
    }
  }

  lemma SelectionPasses(l: Limits, p: Pool, known: set<Id>, ids: seq<Id>)
    requires PoolInv(l, p, known) && AncestorsFirst(p.entries, ids) && Distinct(ids)
    ensures SelectionOk(p.parents, TxsOf(p.entries, ids))
  {
    hide Graph, WithinLimits, SpentIs, TotalsOf, Listed, SortedBy, Closure, Inputs, ParentIds;
    var es, txs := p.entries, TxsOf(p.entries, ids);
    forall i | 0 <= i < |ids|
      ensures txs[i].id == ids[i] && V.DistinctInputs(txs[i], |txs[i].vin|)
    {
    }
    forall i, j | 0 <= i < j < |ids|
      ensures Inputs(txs[i]) !! Inputs(txs[j])
    {
      assert ids[i] != ids[j];
    }
    forall i, q | 0 <= i < |txs| && q in ParentIds(txs[i]) + ParentsOf(p.parents, txs[i].id) && q in Ids(txs)
      ensures q in Ids(txs[..i])
    {
      var k :| 0 <= k < |txs| && txs[k].id == q;
      assert LinkedAt(es, p.parents, known, ids[i]);
      assert q in ParentsOf(p.parents, ids[i]);
      ParentIsAncestor(es, p.parents, known, ids[i], q);
      var j :| 0 <= j < i && ids[j] == q;
      assert txs[..i][j].id == q;
    }
  }

  lemma ParentIsAncestor(es: PoolEntries, parents: ParentMap, known: set<Id>, x: Id, q: Id)
    requires x in es && LinkedAt(es, parents, known, x) && q in ParentsOf(parents, x)
    ensures q in es[x].ancestors
  {
  }

  /** The final sanity check of the miner. */
  method ValidateSelectedTransactions(parents: ParentMap, txs: seq<Tx>) returns (ok: bool)
    ensures ok == SelectionOk(parents, txs)
  {
    hide Inputs, ParentIds;
    ok := CheckDistinct(txs);
    if ok {
      ok := CheckOutpoints(txs);
    }
    if ok {
      ok := CheckOrder(parents, txs);
    }
  }

  method CheckDistinct(txs: seq<Tx>) returns (ok: bool)
    ensures ok == DistinctIds(txs)
  {
    var seen: set<Id> := {};
    for i := 0 to |txs|
      invariant forall k :: 0 <= k < i ==> txs[k].id in seen
      invariant forall x :: x in seen ==> exists k :: 0 <= k < i && txs[k].id == x
      invariant forall j, k :: 0 <= j < k < i ==> txs[j].id != txs[k].id
    {
      if txs[i].id in seen {
        return false;
      }
      seen := seen + {txs[i].id};
    }
    return true;
  }

  method CheckOutpoints(txs: seq<Tx>) returns (ok: bool)
    ensures ok == ((forall i :: 0 <= i < |txs| ==> V.DistinctInputs(txs[i], |txs[i].vin|)) &&
                   (forall i, j :: 0 <= i < j < |txs| ==> Inputs(txs[i]) !! Inputs(txs[j])))
  {
    hide Inputs;
    var spent: set<OutPoint> := {};
    for i := 0 to |txs|
      invariant forall k :: 0 <= k < i ==> V.DistinctInputs(txs[k], |txs[k].vin|) && Inputs(txs[k]) <= spent
      invariant forall o :: o in spent ==> exists k :: 0 <= k < i && o in Inputs(txs[k])
      invariant forall j, k :: 0 <= j < k < i ==> Inputs(txs[j]) !! Inputs(txs[k])
    {
      var unspent := V.ClaimOutpoints(txs[i], spent);
      InputsAre(txs[i]);
      if !unspent {
        return false;
      }
      spent := spent + Inputs(txs[i]);
    }
    return true;
  }

  lemma InputsAre(tx: Tx)
    ensures Inputs(tx) == tx.Prevs(|tx.vin|)
  {
  }

  method CheckOrder(parents: ParentMap, txs: seq<Tx>) returns (ok: bool)
    ensures ok == forall i, q :: 0 <= i < |txs| && q in ParentIds(txs[i]) + ParentsOf(parents, txs[i].id) && q in Ids(txs) ==>
                    q in Ids(txs[..i])
  {
    var selected, seen := Ids(txs), {};
    for i := 0 to |txs|
      invariant seen == Ids(txs[..i])
      invariant forall k, q :: 0 <= k < i && q in ParentIds(txs[k]) + ParentsOf(parents, txs[k].id) && q in selected ==> q in Ids(txs[..k])
    {
      var tx := txs[i];
      for n := 0 to |tx.vin|
        invariant forall k :: 0 <= k < n && tx.vin[k].prev.txid in selected ==> tx.vin[k].prev.txid in seen
      {
        if tx.vin[n].prev.txid in selected && tx.vin[n].prev.txid !in seen {
          assert tx.vin[n].prev.txid in ParentIds(tx);
          return false;
        }
      }
      if exists q :: q in ParentsOf(parents, tx.id) && q in selected && q !in seen {
        return false;
      }
      IdsSnoc(txs[..i], tx);
      assert txs[..i + 1] == txs[..i] + [tx];
      seen := seen + {tx.id};
    }
    return true;
  }
}
