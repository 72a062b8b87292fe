/** The memory pool on its mutable structures: walks, removal, replacement,
    eviction, admission and block connection, proved against `Admission`. */
module Mempool {
  import opened Ledger
  import opened PoolSpec
  import opened Admission
  import opened Eviction
  import opened Settlement
  import opened Revalidation

  class Mempool {
    const env: PoolEnv
    var transactions: PoolEntries
    var byFee: seq<Id>
    var byTime: seq<Id>
    var spent: SpentIndex
    var parents: ParentMap // unconfirmed_parents
    var totalSize: int
    var totalVsize: int
    var totalWeight: int
    var totalFee: int

    function State(): Pool
      reads this
    {
      Pool(transactions, byFee, byTime, spent, parents, Totals(totalSize, totalVsize, totalWeight, totalFee))
    }

    constructor (env: PoolEnv)
      ensures this.env == env && State() == EMPTY && Core(State())
      ensures SomeRoom(env.limits) ==> forall known :: PoolInv(env.limits, State(), known)
    {
      this.env := env;
      transactions, byFee, byTime, spent, parents := map[], [], [], map[], map[];
      totalSize, totalVsize, totalWeight, totalFee := 0, 0, 0, 0;
      new;
      EmptyIsGood(env.limits);
    }

    // ------------------------------------------------------------------- walks

    method GetDescendants(x: Id) returns (found: set<Id>)
      ensures Graph(transactions) ==> found == Below(transactions, x)
    {
      hide Graph, Mentioned;
      var es := transactions;
      found := {};
      var queue := [x];
      while queue != []
        invariant found <= Mentioned(es)
        invariant Graph(es) ==> found <= Below(es, x) && forall q :: q in queue ==> q == x || q in Below(es, x)
        invariant x in queue || Below(es, x) <= found
        decreases |Mentioned(es) - found|, |queue|
      {
        var current := queue[0];
        ghost var before, whole := found, queue;
        queue := queue[1..];
        assert forall q :: q in whole ==> q == current || q in queue;
        if current in es {
          found, queue := Enqueue(queue, es[current].descendants, found, true);
          MentionedHolds(es, current);
          if Graph(es) {
            BelowStep(es, x, current);
          }
        }
        if found != before {
          SmallerRest(Mentioned(es), before, found);
        }
      }
    }

    method CollectAncestors(from: set<Id>) returns (found: set<Id>)
      ensures Graph(transactions) && from <= transactions.Keys ==> found == Closure(transactions, from)
    {
      hide Graph, Mentioned, Closure, Pending;
      var es := transactions;
      var nothing, queue := Enqueue([], from, {}, false);
      found := {};
      PendingNone(es, queue);
      ghost var universe := from + Mentioned(es);
      ghost var good := Graph(es) && from <= es.Keys;
      ClosureHolds(es, from);
      while queue != []
        invariant found <= universe && forall q :: q in queue ==> q in universe
        invariant forall q :: q in from ==> q in found || q in queue
        invariant good ==> found <= Closure(es, from) && forall q :: q in queue ==> q in Closure(es, from)
        invariant Pending(es, found, queue)
        decreases |universe - found|, |queue|
      {
        var current := queue[0];
        ghost var whole, before := queue, found;
        queue := queue[1..];
        assert forall q :: q in whole ==> q == current || q in queue;
        if current !in found {
          found := found + {current};
          if current in es {
            var same;
            same, queue := Enqueue(queue, es[current].ancestors, found, false);
            MentionedHolds(es, current);
            if good {
              ClosureStep(es, from, current);
            }
          }
          SmallerRest(universe, before, found);
        }
        PendingStep(es, before, whole, current, found, queue);
      }
      if good {
        assert from <= found by {
          assert forall q :: q in from ==> q in found;
        }
        ClosureReached(es, from, found);
      }
    }

    /** Appends the ids that were not found yet; the descendant walk counts them as found at once, the ancestor
        walk only when it takes them from the queue. */
    static method Enqueue(queue: seq<Id>, ids: set<Id>, found: set<Id>, mark: bool) returns (f: set<Id>, r: seq<Id>)
      ensures f == if mark then found + ids else found
      ensures forall q :: q in r <==> q in queue || q in ids - found
      ensures ids <= found ==> r == queue
    {
      f, r := found, queue;
      var todo := ids;
      while todo != {}
        invariant todo <= ids && f == if mark then found + (ids - todo) else found
        invariant forall q :: q in r <==> q in queue || q in ids - todo - found
        invariant ids <= found ==> r == queue
        decreases todo
      {
        SomeId(todo);
        var d :| d in todo;
        todo := todo - {d};
        if d !in f {
          r := r + [d];
          if mark {
            f := f + {d};
          }
        }
      }
    }

    // ---------------------------------------------------------------- removing

    method UntrackSpent(tx: Tx, ghost os: set<OutPoint>)
      requires SpentIs(spent, os)
      modifies this`spent
      ensures SpentIs(spent, os - Inputs(tx))
    {
      hide SpentIs;
      assert os - tx.Prevs(0) == os;
      for i := 0 to |tx.vin|
        invariant SpentIs(spent, os - tx.Prevs(i))
      {
        assert os - tx.Prevs(i + 1) == os - tx.Prevs(i) - {tx.vin[i].prev};
        UnmarkIs(spent, os - tx.Prevs(i), tx.vin[i].prev);
        spent := SpendUnmark(spent, tx.vin[i].prev);
      }
    }

    /** One round of the removal loop. */
    method RemoveOne(x: Id)
      requires Core(State()) && x in transactions
      modifies this
      ensures Core(State()) && transactions == Drop(old(transactions), x) && parents == old(parents) - {x}
    {
      hide Core, Shaped, NoShare, AllInputs, SpentIs, Sum, Inputs, Sizes, Vsizes, Weights, FeesOf, Drop, Discarded;
      ghost var start := State();
      var e := transactions[x];
      CoreParts(start);
      transactions := transactions - {x};
      totalSize, totalVsize, totalWeight, totalFee :=
        totalSize - e.size, totalVsize - e.vsize, totalWeight - e.weight, totalFee - e.fee;
      byFee, byTime := Without(byFee, x), Without(byTime, x);
      UntrackSpent(e.tx, AllInputs(start.entries));
      parents := parents - {x};
      DiscardAll(x, e);
      DiscardedIsDrop(start.entries, x);
      DropBodies(start.entries, x);
      CoreWithout(start, x, transactions, spent, Totals(totalSize, totalVsize, totalWeight, totalFee));
      assert State() == start.(entries := transactions, spent := spent, totals := Totals(totalSize, totalVsize, totalWeight, totalFee),
                               byFee := Without(start.byFee, x), byTime := Without(start.byTime, x), parents := parents);
      CoreParents(State(), start.parents);
    }

    /** Takes x out of the sets of its ancestors and descendants. */
    method DiscardAll(x: Id, e: PoolEntry)
      modifies this`transactions
      ensures transactions == Discarded(old(transactions), x, e)
    {
      ghost var before := transactions;
      var todo := e.ancestors;
      while todo != {}
        invariant todo <= e.ancestors && transactions.Keys == before.Keys
        invariant forall y :: y in before ==>
                    transactions[y] == before[y].(descendants := if y in e.ancestors - todo then before[y].descendants - {x}
                                                                 else before[y].descendants)
        decreases todo
      {
        SomeId(todo);
        var a :| a in todo;
        if a in transactions {
          transactions := transactions[a := transactions[a].(descendants := transactions[a].descendants - {x})];
        }
        todo := todo - {a};
      }
      ghost var middle := transactions;
      assert forall y :: y in before ==>
          middle[y] == before[y].(descendants := if y in e.ancestors then before[y].descendants - {x} else before[y].descendants);
      todo := e.descendants;
      while todo != {}
        invariant todo <= e.descendants && transactions.Keys == before.Keys
        invariant forall y :: y in middle ==>
                    transactions[y] == middle[y].(ancestors := if y in e.descendants - todo then middle[y].ancestors - {x}
                                                               else middle[y].ancestors)
        decreases todo
      {
        SomeId(todo);
        var d :| d in todo;
        if d in transactions {
          transactions := transactions[d := transactions[d].(ancestors := transactions[d].ancestors - {x})];
        }
        todo := todo - {d};
      }
      assert forall y :: y in before ==>
          transactions[y] == middle[y].(ancestors := if y in e.descendants then middle[y].ancestors - {x} else middle[y].ancestors);
    }

    /** Removes the given transactions in any order. */
    method RemoveSet(all: set<Id>) returns (removed: seq<Id>)
      requires Core(State())
      modifies this
      ensures Core(State()) && Shrunk(old(transactions), transactions)
      ensures var gone := all * old(transactions.Keys);
              && transactions.Keys == old(transactions.Keys) - gone && parents == old(parents) - gone
              && (Graph(old(transactions)) ==> transactions == Restrict(old(transactions), gone))
      ensures Distinct(removed) && forall y :: y in removed <==> y in all && y in old(transactions)
    {
      hide Core, Graph, Restrict, Shrunk, Drop;
      removed := [];
      ghost var before, parentsBefore := transactions, parents;
      var todo := all;
      ghost var gone: set<Id> := {};
      RestrictNone(transactions);
      ShrunkSelf(transactions);
      assert parents - {} == parents;
      while todo != {}
        invariant todo <= all && Core(State()) && Shrunk(before, transactions)
        invariant gone == (all - todo) * before.Keys
        invariant transactions.Keys == before.Keys - gone && parents == parentsBefore - gone
        invariant Graph(before) ==> transactions == Restrict(before, gone)
        invariant Distinct(removed) && forall y :: y in removed <==> y in gone
        decreases todo
      {
        SomeId(todo);
        var y :| y in todo;
        todo := todo - {y};
        if y in transactions {
          ghost var now := transactions;
          RemoveOne(y);
          DropBodies(now, y);
          ShrunkStep(before, now, transactions, y);
          if Graph(before) {
            RestrictOneMore(before, gone, y);
          }
          DistinctSnoc(removed, y);
          removed := removed + [y];
          gone := gone + {y};
          assert parentsBefore - (gone - {y}) - {y} == parentsBefore - gone;
        }
      }
      assert gone == all * before.Keys;
    }

    /** Removes a transaction, with everything that depends on it if asked to. */
    method RemoveTransaction(x: Id, includeDescendants: bool) returns (removed: seq<Id>)
      requires Core(State())
      modifies this
      ensures Core(State()) && Shrunk(old(transactions), transactions) && x !in transactions
      ensures x !in old(transactions) ==> removed == [] && State() == old(State())
      ensures x in old(transactions) && !includeDescendants ==>
                transactions == Drop(old(transactions), x) && parents == old(parents) - {x}
      ensures Graph(old(transactions)) ==>
                && Removed(old(transactions), x, includeDescendants) <= old(transactions.Keys)
                && transactions == Restrict(old(transactions), Removed(old(transactions), x, includeDescendants))
                && parents == old(parents) - Removed(old(transactions), x, includeDescendants)
                && (forall y :: y in removed <==> y in Removed(old(transactions), x, includeDescendants))
      ensures Distinct(removed)
    {
      hide Core, Graph, Restrict, Shrunk;
      if x !in transactions {
        RestrictNone(transactions);
        ShrunkSelf(transactions);
        assert parents - {} == parents;
        return [];
      }
      ghost var before := transactions;
      if !includeDescendants {
        ShrunkSelf(before);
        ShrunkStep(before, before, Drop(before, x), x);
        if Graph(before) {
          DropIsRestrict(before, x);
        }
        assert Removed(before, x, false) == {x};
        RemoveOne(x);
        return [x];
      }
      var all := {x};
      var below := GetDescendants(x);
      all := all + below;
      removed := RemoveSet(all);
      assert {x} * before.Keys == {x};
      if Graph(before) {
        GraphOf(before, x);
        assert all * before.Keys == Removed(before, x, includeDescendants);
      }
    }

    // --------------------------------------------------------------- conflicts

    method FindConflictingTxids(tx: Tx) returns (conflicts: set<Id>)
      ensures conflicts == Conflicts(transactions, tx)
    {
      conflicts := {};
      var todo := transactions.Keys;
      while todo != {}
        invariant todo <= transactions.Keys
        invariant conflicts == set x | x in transactions && x !in todo && Clash(transactions[x].tx, tx)
        decreases todo
      {
        SomeId(todo);
        var x :| x in todo;
        if Clash(transactions[x].tx, tx) {
          conflicts := conflicts + {x};
        }
        todo := todo - {x};
      }
    }

    method BuildIgnoredSpentSet(conflicts: set<Id>) returns (ignored: set<OutPoint>)
      ensures ignored == Ignored(transactions, conflicts)
    {
      hide Inputs;
      ignored := {};
      var todo := conflicts;
      while todo != {}
        invariant todo <= conflicts
        invariant ignored == Ignored(transactions, conflicts - todo)
        decreases todo
      {
        SomeId(todo);
        var x :| x in todo;
        if x in transactions {
          ignored := ignored + Inputs(transactions[x].tx);
        }
        IgnoredNext(transactions, conflicts - todo, x);
        todo := todo - {x};
        assert conflicts - todo == conflicts - (todo + {x}) + {x};
      }
      assert conflicts - todo == conflicts;
    }

    /** Conflicts and everything that depends on them. */
    method ReplacementSet(conflicts: set<Id>) returns (r: set<Id>)
      ensures Graph(transactions) ==> r == Replacement(transactions, conflicts)
      ensures conflicts <= r
    {
      hide Graph;
      r := conflicts;
      var todo := conflicts;
      while todo != {}
        invariant todo <= conflicts <= r
        invariant Graph(transactions) ==> r == conflicts + Replacement(transactions, conflicts - todo)
        decreases todo
      {
        SomeId(todo);
        var x :| x in todo;
        var below := GetDescendants(x);
        r := r + below;
        ReplacementNext(transactions, conflicts - todo, x);
        todo := todo - {x};
        assert conflicts - todo == conflicts - (todo + {x}) + {x};
      }
      assert conflicts - todo == conflicts;
    }

    /** Does the transaction, or one that it depends on, opt in to replacement?  `seen` is shared by the recursive calls. */
    method IsTxidReplaceable(x: Id, seen: set<Id>, ghost bound: set<Id>) returns (ok: bool, r: set<Id>)
      requires seen <= bound && transactions.Keys <= bound
      ensures seen <= r <= bound
      ensures ok ==> exists y :: OnParentPath(parents, x, y) && y in transactions && Signals(transactions[y].tx)
      ensures !ok ==> x in r || x !in transactions
      ensures !ok ==> Silent(transactions, parents, r - seen, r)
      decreases |bound - seen|
    {
      hide Signals, OnParentPath, Silent;
      r := seen;
      ok := false;
      assert r - seen == {};
      SilentNone(transactions, parents, r);
      if x !in transactions {
        return;
      }
      if Signals(transactions[x].tx) {
        ok := true;
        PathHere(parents, x);
        return;
      }
      if x in seen {
        return;
      }
      r := seen + {x};
      SmallerRest(bound, seen, r);
      var todo := ParentsOf(parents, x);
      assert r - seen - {x} == {};
      SilentNone(transactions, parents, r);
      while todo != {}
        invariant todo <= ParentsOf(parents, x) && seen + {x} <= r <= bound
        invariant forall q :: q in ParentsOf(parents, x) - todo ==> q in r || q !in transactions
        invariant Silent(transactions, parents, r - seen - {x}, r)
        decreases todo
      {
        SomeId(todo);
        var q :| q in todo;
        ghost var before := r;
        if seen + {x} != before {
          SmallerRest(bound, seen + {x}, before);
        }
        ok, r := IsTxidReplaceable(q, r, bound);
        if ok {
          ghost var y :| OnParentPath(parents, q, y) && y in transactions && Signals(transactions[y].tx);
          PathUp(parents, x, q, y);
          return;
        }
        SilentMore(transactions, parents, before - seen - {x}, before, r - before, r);
        assert (before - seen - {x}) + (r - before) == r - seen - {x};
        todo := todo - {q};
      }
      SilentWith(transactions, parents, x, seen, r);
    }

    static method SumOver(f: map<Id, int>, ids: set<Id>) returns (total: int)
      ensures total == Sum(f, ids)
    {
      total := 0;
      var todo := ids;
      while todo != {}
        invariant todo <= ids && total + Sum(f, todo) == Sum(f, ids)
        decreases todo
      {
        SomeId(todo);
        var x :| x in todo;
        SumRemove(f, todo, x);
        if x in f {
          total := total + f[x];
        }
        todo := todo - {x};
      }
    }

    method CanReplace(conflicts: set<Id>, tx: Tx, fee: int, vsize: nat, ghost known: set<Id>) returns (ok: bool)
      requires conflicts <= transactions.Keys
      ensures Graph(transactions) && Linked(transactions, parents, known) ==>
                ok == MayReplace(env, transactions, parents, conflicts, tx, fee, vsize)
    {
      hide Graph, Linked, Sum, Vsizes, FeesOf, Replacement, InheritsSignal;
      ghost var good := Graph(transactions) && Linked(transactions, parents, known);
      var replaced := ReplacementSet(conflicts);
      if good {
        ReplacementIn(transactions, conflicts);
      }
      if |replaced| > 100 {
        return false;
      }
      if replaced * transactions.Keys == {} {
        if good {
          assert replaced == replaced * transactions.Keys;
        }
        return true;
      }
      var oldVsize := SumOver(Vsizes(transactions), replaced);
      if oldVsize > Max(1, env.limits.maxPackageWeight / 4) {
        return false;
      }
      var todo := conflicts;
      while todo != {}
        invariant todo <= conflicts
        invariant good ==> forall c :: c in conflicts - todo ==> InheritsSignal(transactions, c)
        decreases todo
      {
        SomeId(todo);
        var c :| c in todo;
        var optsIn, seen := IsTxidReplaceable(c, {}, transactions.Keys);
        if good {
          ReplaceableMeans(transactions, parents, known, c, optsIn, seen);
        }
        if !optsIn {
          return false;
        }
        todo := todo - {c};
      }
      for i := 0 to |tx.vin|
        invariant forall k :: 0 <= k < i ==> OldParent(transactions, parents, replaced, tx.vin[k].prev.txid)
      {
        if !OldParent(transactions, parents, replaced, tx.vin[i].prev.txid) {
          return false;
        }
      }
      var oldFee := SumOver(FeesOf(transactions), replaced);
      if fee <= oldFee + env.minRelayFee * Max(1, vsize) {
        return false;
      }
      if Rate(fee, vsize) <= oldFee as real / Max(1, oldVsize) as real {
        return false;
      }
      if exists c :: c in replaced && c in transactions && transactions[c].tx == tx {
        return false;
      }
      return true;
    }

    // -------------------------------------------------------------- validation

    method CalculateFee(tx: Tx, chain: ChainView) returns (fee: int)
      ensures fee == InputValue(chain, transactions, tx, |tx.vin|) - OutputValue(tx, |tx.vout|)
    {
      var totalIn, totalOut := 0, 0;
      for i := 0 to |tx.vout|
        invariant totalOut == OutputValue(tx, i)
      {
        totalOut := totalOut + tx.vout[i].value;
      }
      for i := 0 to |tx.vin|
        invariant totalIn == InputValue(chain, transactions, tx, i)
      {
        var coin := CoinFor(chain, transactions, tx.vin[i].prev);
        if coin.Some? {
          totalIn := totalIn + coin.value.value;
        }
      }
      return totalIn - totalOut;
    }

    method ValidateTransaction(tx: Tx, chain: ChainView, ignored: set<OutPoint>) returns (ok: bool)
      ensures ok == PoolTxOk(env, chain, transactions, spent, tx, ignored)
    {
      hide CoinFor, InputFits;
      if tx.IsCoinbase() || tx.vin == [] || tx.vout == [] || !env.consensusOk(tx, chain.height + 1) {
        return false;
      }
      var totalOut := 0;
      for i := 0 to |tx.vout|
        invariant totalOut == OutputValue(tx, i) && OutputsOk(env, tx, i)
      {
        if tx.vout[i].value < 0 || tx.vout[i].value == 0 || tx.vout[i].script == [] {
          OutputsStop(env, tx, i + 1, |tx.vout|);
          return false;
        }
        totalOut := totalOut + tx.vout[i].value;
        if totalOut > env.maxMoney {
          OutputsStop(env, tx, i + 1, |tx.vout|);
          return false;
        }
      }
      if tx.id in chain.known {
        return false;
      }
      var seen: set<OutPoint> := {};
      var totalIn := 0;
      for i := 0 to |tx.vin|
        invariant seen == tx.Prevs(i)
        invariant totalIn == InputValue(chain, transactions, tx, i)
        invariant forall k :: 0 <= k < i ==> InputFits(env, chain, transactions, spent, tx, ignored, k)
      {
        var fits, value := CheckInput(tx, i, chain, ignored, seen);
        if !fits {
          return false;
        }
        seen := seen + {tx.vin[i].prev};
        totalIn := totalIn + value;
      }
      return totalIn >= totalOut;
    }

    /** The loop body of the input checks. */
    method CheckInput(tx: Tx, i: nat, chain: ChainView, ignored: set<OutPoint>, seen: set<OutPoint>)
      returns (ok: bool, value: int)
      requires i < |tx.vin| && seen == tx.Prevs(i)
      ensures ok == InputFits(env, chain, transactions, spent, tx, ignored, i)
      ensures ok ==> CoinFor(chain, transactions, tx.vin[i].prev).Some?
                     && value == CoinFor(chain, transactions, tx.vin[i].prev).value.value
    {
      hide CoinFor;
      var prev := tx.vin[i].prev;
      value := 0;
      if prev in seen {
        return false, 0;
      }
      var coin := CoinFor(chain, transactions, prev);
      if coin.None? {
        return false, 0;
      }
      if coin.value.coinbase && chain.height + 1 - coin.value.height < env.maturity {
        return false, 0;
      }
      if prev !in ignored && InSpent(spent, prev) {
        return false, 0;
      }
      return env.scriptOk(tx, i, coin.value), coin.value.value;
    }

    /** Parents in the pool; None when an input comes neither from a stored block nor from the pool. */
    method CheckDependencies(tx: Tx, chain: ChainView) returns (r: Option<set<Id>>)
      ensures r == if ParentIds(tx) <= chain.known + transactions.Keys then Some(ParentIds(tx) - chain.known) else None
    {
      var found: set<Id> := {};
      for i := 0 to |tx.vin|
        invariant forall k :: 0 <= k < i ==> tx.vin[k].prev.txid in chain.known + transactions.Keys
        invariant found == set k | 0 <= k < i && tx.vin[k].prev.txid !in chain.known :: tx.vin[k].prev.txid
      {
        var parent := tx.vin[i].prev.txid;
        if parent !in chain.known {
          if parent !in transactions {
            assert parent in ParentIds(tx);
            return None;
          }
          found := found + {parent};
        }
      }
      assert ParentIds(tx) <= chain.known + transactions.Keys;
      assert found == ParentIds(tx) - chain.known;
      return Some(found);
    }

    // ---------------------------------------------------------------- eviction

    method DescendantPackageStats(x: Id) returns (rate: real, size: int)
      ensures Graph(transactions) ==> rate == PackageRate(transactions, x) && size == PackageVsize(transactions, x)
    {
      hide Sum, Vsizes, FeesOf;
      var below := GetDescendants(x);
      var fee := SumOver(FeesOf(transactions), {x} + below);
      var vsize := SumOver(Vsizes(transactions), {x} + below);
      if vsize <= 0 {
        return 0.0, 0;
      }
      return fee as real / vsize as real, vsize;
    }

    /** All entries as the eviction ranks them. */
    method EvictionOrder() returns (order: seq<Id>)
      ensures Graph(transactions) ==> order == OrderOf(transactions)
    {
      hide Graph, PackageRate, PackageVsize, PoolEntry.FeeRate;
      var ranks: Ranks := map[];
      var todo := transactions.Keys;
      while todo != {}
        invariant todo <= transactions.Keys && ranks.Keys == transactions.Keys - todo
        invariant forall x :: x in ranks ==> ranks[x].id == x
        invariant Graph(transactions) ==> forall x :: x in ranks ==>
                    ranks[x] == Rank(PackageRate(transactions, x), transactions[x].FeeRate(), PackageVsize(transactions, x), x)
        decreases todo
      {
        SomeId(todo);
        var x :| x in todo;
        var rate, vsize := DescendantPackageStats(x);
        ranks := ranks[x := Rank(rate, transactions[x].FeeRate(), vsize, x)];
        todo := todo - {x};
      }
      assert ranks.Keys == transactions.Keys;
      order := Ranked(ranks, transactions.Keys);
      assert Graph(transactions) ==> ranks == RanksIn(transactions);
    }

    /** Sorts by taking the first out again and again. */
    static method Ranked(ranks: Ranks, ids: set<Id>) returns (order: seq<Id>)
      requires RanksOf(ranks, ids)
      ensures order == ByRank(ranks, ids)
    {
      order := [];
      var rest := ids;
      while rest != {}
        invariant rest <= ids && order + ByRank(ranks, rest) == ByRank(ranks, ids)
        decreases rest
      {
        var x := FirstByRank(ranks, rest);
        ByRankNext(ranks, rest, x);
        assert order + ([x] + ByRank(ranks, rest - {x})) == (order + [x]) + ByRank(ranks, rest - {x});
        order, rest := order + [x], rest - {x};
      }
    }

    static method FirstByRank(ranks: Ranks, ids: set<Id>) returns (x: Id)
      requires RanksOf(ranks, ids) && ids != {}
      ensures IsFirst(ranks, ids, x)
    {
      SomeId(ids);
      x :| x in ids;
      var todo := ids - {x};
      while todo != {}
        invariant todo <= ids && x in ids - todo
        invariant forall y :: y in ids - todo && y != x ==> ranks[x].Before(ranks[y])
        decreases todo
      {
        SomeId(todo);
        var y :| y in todo;
        todo := todo - {y};
        if ranks[y].Before(ranks[x]) {
          x := y;
        }
      }
    }

    /** Removes packages in order until the newcomer fits or does not outbid the next one. */
    method EvictForSpace(size: nat, weight: nat, rate: real) returns (ghost gone: set<Id>)
      requires Core(State())
      modifies this
      ensures Core(State()) && Shrunk(old(transactions), transactions)
      ensures Graph(old(transactions)) ==>
                && gone == EvictAlong(env.limits, size, weight, rate, old(transactions), OrderOf(old(transactions)))
                && Evicted(old(transactions), gone, rate)
                && transactions == Restrict(old(transactions), gone) && parents == old(parents) - gone
    {
      hide Core, Graph, Restrict, Shrunk, Evicted, PackageRate, PackageVsize, Shaped, OrderOf, TotalsOf, EvictAlong, FitsBeside;
      ghost var before, parentsBefore := transactions, parents;
      gone := {};
      RestrictNone(transactions);
      ShrunkSelf(transactions);
      EvictedNone(before, rate);
      assert parents - {} == parents;
      CoreParts(State());
      var order := EvictionOrder();
      ghost var all := EvictAlong(env.limits, size, weight, rate, before, order);
      for i := 0 to |order|
        invariant Core(State()) && Shrunk(before, transactions)
        invariant Graph(before) ==>
                    && Evicted(before, gone, rate) && transactions == Restrict(before, gone) && parents == parentsBefore - gone
                    && gone + EvictAlong(env.limits, size, weight, rate, transactions, order[i..]) == all
      {
        FitsMeans(env.limits, size, weight, State());
        EvictAlongSteps(env.limits, size, weight, rate, transactions, order[i..]);
        if env.limits.CanAccept(size, weight, |transactions|, totalSize, totalWeight) {
          return;
        }
        var x := order[i];
        assert order[i..][1..] == order[i + 1..];
        if Graph(before) {
          RestrictGraph(before, gone);
        }
        if x in transactions {
          if Graph(before) {
            InRestrict(before, gone, x);
          }
          var packageRate, packageVsize := DescendantPackageStats(x);
          if rate <= packageRate {
            return;
          }
          ghost var now := transactions;
          var removed := RemoveTransaction(x, true);
          ShrunkTwice(before, now, transactions);
          if Graph(before) {
            EvictedMore(before, gone, x, rate);
            assert parentsBefore - gone - Removed(now, x, true) == parentsBefore - (gone + Removed(now, x, true));
            gone := gone + Removed(now, x, true);
          }
        }
      }
      EvictAlongEnds(env.limits, size, weight, rate, transactions);
      assert order[|order|..] == [];
    }

    // --------------------------------------------------------------- inserting

    method TrackSpent(tx: Tx, ghost os: set<OutPoint>)
      requires SpentIs(spent, os)
      modifies this`spent
      ensures SpentIs(spent, os + Inputs(tx))
    {
      hide SpentIs;
      assert os + tx.Prevs(0) == os;
      for i := 0 to |tx.vin|
        invariant SpentIs(spent, os + tx.Prevs(i))
      {
        assert os + tx.Prevs(i + 1) == os + tx.Prevs(i) + {tx.vin[i].prev};
        MarkIs(spent, os + tx.Prevs(i), tx.vin[i].prev);
        spent := SpendMark(spent, tx.vin[i].prev);
      }
    }

    /** Adds the bare entry to every structure. */
    method AddEntry(e: PoolEntry)
      requires Core(State()) && e.tx.id !in transactions && Shaped(map[e.tx.id := e])
      requires Inputs(e.tx) !! AllInputs(transactions)
      modifies this
      ensures Core(State()) && transactions == old(transactions)[e.tx.id := e] && parents == old(parents)
      ensures totalFee == old(totalFee) + e.fee
    {
      hide Core, Shaped, SpentIs, AllInputs, Listed, SortedBy, RateKeys, TimeKeys, Place, Inputs;
      ghost var start := State();
      var x := e.tx.id;
      CoreParts(start);
      CoreLists(start, x, e);
      transactions := transactions[x := e];
      totalSize, totalVsize, totalWeight, totalFee :=
        totalSize + e.size, totalVsize + e.vsize, totalWeight + e.weight, totalFee + e.fee;
      byFee := Place(byFee, RateKeys(transactions), x);
      byTime := Place(byTime, TimeKeys(transactions), x);
      TrackSpent(e.tx, AllInputs(start.entries));
      CoreWith(start, x, e, transactions, spent, Totals(totalSize, totalVsize, totalWeight, totalFee), byFee, byTime);
    }

    /** Inserts below its ancestors; undone again when one of them gets too many descendants. */
    method Insert(e: PoolEntry, ancestors: set<Id>, direct: set<Id>) returns (reply: AddReply)
      requires Core(State()) && e.tx.id !in transactions && Shaped(map[e.tx.id := e])
      requires Inputs(e.tx) !! AllInputs(transactions) && e.ancestors == {} && e.descendants == {}
      modifies this
      ensures Core(State())
      ensures reply.Added? || reply.TooManyDescendants? || reply.DescendantPackageTooLarge?
      ensures reply.Added? <==> AllRoom(env.limits, Join(old(transactions), e.tx.id, e, ancestors), ancestors)
      ensures reply.Added? ==>
                && transactions == Join(old(transactions), e.tx.id, e, ancestors)
                && parents == (if ancestors == {} then old(parents) else old(parents)[e.tx.id := direct])
                && totalFee == old(totalFee) + e.fee
      ensures !reply.Added? ==>
                && Shrunk(old(transactions), transactions)
                && (Unmentioned(old(transactions), e.tx.id) ==> transactions == old(transactions))
                && parents == old(parents) - {e.tx.id}
    {
      hide Core, Shaped, Inputs, AllInputs, Room, Shrunk, AllRoom, Join, Joining, Drop, Unmentioned;
      var x := e.tx.id;
      ghost var before := transactions;
      AddEntry(e);
      if ancestors == {} {
        JoinNone(env.limits, before, x, e);
        return Added;
      }
      ghost var start := State();
      parents := parents[x := direct];
      transactions := transactions[x := e.(ancestors := ancestors)];
      JoiningNone(before, x, e, ancestors);
      ghost var done;
      reply, done := TellAncestors(x, ancestors, before, e);
      JoiningCore(start, before, x, e, ancestors, done);
      JoiningAll(before, x, e, ancestors);
      CoreParents(State(), start.parents);
      if !reply.Added? {
        JoiningKeys(before, x, e, ancestors, done);
        var removed := RemoveTransaction(x, false);
        RolledBack(before, x, e, ancestors, done);
        assert start.parents[x := direct] - {x} == start.parents - {x};
      }
    }

    /** Enters the newcomer with its ancestors, one by one, until one of them has too many descendants. */
    method TellAncestors(x: Id, ancestors: set<Id>, ghost es: PoolEntries, ghost e: PoolEntry)
      returns (reply: AddReply, ghost done: set<Id>)
      requires x !in es && transactions == Joining(es, x, e, ancestors, {})
      modifies this`transactions
      ensures done <= ancestors && transactions == Joining(es, x, e, ancestors, done)
      ensures reply.Added? || reply.TooManyDescendants? || reply.DescendantPackageTooLarge?
      ensures reply.Added? ==> done == ancestors
      ensures reply.Added? <==> AllRoom(env.limits, Joining(es, x, e, ancestors, ancestors), ancestors)
    {
      hide Room, Joining;
      reply, done := Added, {};
      JoiningKeys(es, x, e, ancestors, {});
      var todo := ancestors;
      while todo != {} && reply.Added?
        invariant todo <= ancestors && done == ancestors - todo && transactions == Joining(es, x, e, ancestors, done)
        invariant transactions.Keys == es.Keys + {x}
        invariant reply.Added? <==> AllRoom(env.limits, transactions, done)
        invariant !reply.Added? ==> exists a :: a in done && a in transactions && !Room(env.limits, transactions, a)
        invariant reply.Added? || reply.TooManyDescendants? || reply.DescendantPackageTooLarge?
        decreases todo
      {
        SomeId(todo);
        var a :| a in todo;
        ghost var now := transactions;
        JoiningNext(es, x, e, ancestors, done, a);
        if a in transactions {
          transactions := transactions[a := transactions[a].(descendants := transactions[a].descendants + {x})];
          reply := HasRoom(a);
          forall b | b in done && b in now
            ensures Room(env.limits, transactions, b) == Room(env.limits, now, b)
          {
            RoomSame(env.limits, now, transactions, b);
          }
        }
        todo, done := todo - {a}, done + {a};
      }
      if reply.Added? {
        assert done == ancestors;
      } else {
        ghost var a :| a in done && a in transactions && !Room(env.limits, transactions, a);
        JoiningRoom(env.limits, es, x, e, ancestors, done, a);
        JoiningKeys(es, x, e, ancestors, ancestors);
      }
    }

    /** Is this ancestor still within the descendant limits? */
    method HasRoom(a: Id) returns (reply: AddReply)
      requires a in transactions
      ensures reply.Added? || reply.TooManyDescendants? || reply.DescendantPackageTooLarge?
      ensures reply.Added? <==> Room(env.limits, transactions, a)
    {
      hide Sum, Vsizes;
      if |transactions[a].descendants| > env.limits.maxDescendants {
        return TooManyDescendants;
      }
      var below := SumOver(Vsizes(transactions), transactions[a].descendants);
      return if transactions[a].vsize + below > env.limits.maxDescendantVsize then DescendantPackageTooLarge else Added;
    }

    // --------------------------------------------------------------- admission

    /** All checks before anything is changed. */
    method Screening(tx: Tx, chain: ChainView, floorRate: real, packageRate: Option<real>, now: int)
      returns (r: Option<AddReply>, e: PoolEntry, conflicts: set<Id>, direct: set<Id>, ancestors: set<Id>)
      ensures Graph(transactions) && Linked(transactions, parents, chain.known) ==>
                r == Screen(env, State(), chain, tx, floorRate, packageRate, now)
                && (r.None? ==> ancestors == Closure(transactions, direct))
      ensures r.Some? ==> r.value.Early()
      ensures r.None? ==>
                && tx.id !in transactions && e == NewEntry(env, chain, transactions, tx, now)
                && conflicts == Conflicts(transactions, tx)
                && PoolTxOk(env, chain, transactions, spent, tx, Ignored(transactions, conflicts))
                && ParentIds(tx) <= chain.known + transactions.Keys && direct == ParentIds(tx) - chain.known
                && |ancestors| <= env.limits.maxAncestors
                && e.vsize + Sum(Vsizes(transactions), ancestors) <= env.limits.maxAncestorVsize
    {
      hide Graph, Linked, MayReplace, PoolTxOk, Conflicts, Ignored, Closure, Sum, Vsizes, InputValue, OutputValue, ParentIds, PoolEntry.FeeRate, VirtualSize;
      ghost var good := Graph(transactions) && Linked(transactions, parents, chain.known);
      e := NewEntry(env, chain, transactions, tx, now);
      conflicts, direct, ancestors := {}, {}, {};
      if tx.id in transactions {
        r := Some(AlreadyInMempool);
        return;
      }
      var fee := CalculateFee(tx, chain);
      conflicts := FindConflictingTxids(tx);
      ConflictsPooled(transactions, tx);
      var ignored := BuildIgnoredSpentSet(conflicts);
      if conflicts != {} {
        var may := CanReplace(conflicts, tx, fee, e.vsize, chain.known);
        if !may {
          r := Some(RbfPolicy);
          return;
        }
      }
      var valid := ValidateTransaction(tx, chain, ignored);
      if !valid {
        r := Some(ValidationFailed);
        return;
      }
      if !env.standard(tx) {
        r := Some(NonStandard);
        return;
      }
      if e.FeeRate() < floorRate && !(packageRate.Some? && packageRate.value >= floorRate) {
        r := Some(FeeTooLow);
        return;
      }
      r, direct, ancestors := CheckAncestors(tx, chain, e.vsize);
    }

    /** The parents, all ancestors, and the limits on these. */
    method CheckAncestors(tx: Tx, chain: ChainView, vsize: nat) returns (r: Option<AddReply>, direct: set<Id>, ancestors: set<Id>)
      ensures ParentIds(tx) <= chain.known + transactions.Keys ==> direct == ParentIds(tx) - chain.known
      ensures Graph(transactions) && r != Some(MissingParents) ==> ancestors == Closure(transactions, direct)
      ensures r == if !(ParentIds(tx) <= chain.known + transactions.Keys) then Some(MissingParents)
                   else if |ancestors| > env.limits.maxAncestors then Some(TooManyAncestors)
                   else if vsize + Sum(Vsizes(transactions), ancestors) > env.limits.maxAncestorVsize then Some(AncestorPackageTooLarge)
                   else None
    {
      hide Graph, Closure, Sum, Vsizes, ParentIds;
      direct, ancestors := {}, {};
      var found := CheckDependencies(tx, chain);
      if found.None? {
        return Some(MissingParents), direct, ancestors;
      }
      direct := found.value;
      ancestors := CollectAncestors(direct);
      if |ancestors| > env.limits.maxAncestors {
        return Some(TooManyAncestors), direct, ancestors;
      }
      var above := SumOver(Vsizes(transactions), ancestors);
      r := if vsize + above > env.limits.maxAncestorVsize then Some(AncestorPackageTooLarge) else None;
    }

    /** Takes out the conflicts and what depends on them. */
    method RemoveReplaced(replaced: set<Id>)
      requires Core(State())
      modifies this
      ensures Core(State()) && Shrunk(old(transactions), transactions)
      ensures forall c :: c in replaced ==> c !in transactions
      ensures Graph(old(transactions)) && DescendantClosed(old(transactions), replaced) ==>
                && transactions == Restrict(old(transactions), replaced * old(transactions.Keys))
                && parents == old(parents) - replaced * old(transactions.Keys)
    {
      hide Core, Graph, Restrict, Shrunk, DescendantClosed;
      ghost var before, parentsBefore := transactions, parents;
      ghost var good := Graph(before) && DescendantClosed(before, replaced);
      ghost var gone: set<Id> := {};
      RestrictNone(transactions);
      ShrunkSelf(transactions);
      assert parents - {} == parents;
      var todo := replaced;
      while todo != {}
        invariant todo <= replaced && Core(State()) && Shrunk(before, transactions)
        invariant transactions.Keys <= before.Keys && forall c :: c in replaced - todo ==> c !in transactions
        invariant gone <= replaced * before.Keys
        invariant good ==> transactions == Restrict(before, gone) && parents == parentsBefore - gone
        decreases todo
      {
        SomeId(todo);
        var c :| c in todo;
        todo := todo - {c};
        if c in transactions {
          ghost var now := transactions;
          if good {
            RestrictGraph(before, gone);
          }
          var removed := RemoveTransaction(c, true);
          ShrunkKeys(now, transactions);
          ShrunkTwice(before, now, transactions);
          if good {
            ReplacedMore(before, gone, replaced, c);
            assert parentsBefore - gone - Removed(now, c, true) == parentsBefore - (gone + Removed(now, c, true));
            gone := gone + Removed(now, c, true);
          }
        }
      }
      if good {
        ReplacedAll(before, gone, replaced, transactions);
      }
    }

    /** Evicts if the newcomer does not fit, and looks again. */
    method MakeRoom(e: PoolEntry) returns (ok: bool, ghost gone: set<Id>)
      requires Core(State())
      modifies this
      ensures Core(State()) && Shrunk(old(transactions), transactions)
      ensures ok == Accepts(env.limits, e, State())
      ensures Graph(old(transactions)) ==>
                && gone == EvictedFor(env.limits, e, old(transactions)) && ok == HasSpace(env.limits, e, old(transactions))
                && Left(old(transactions), old(parents), gone, transactions, parents)
    {
      hide Core, Graph, Shrunk, Left, EvictAlong, Restrict, FitsBeside;
      gone := {};
      LeftNone(transactions, parents);
      ShrunkSelf(transactions);
      FitsMeans(env.limits, e.size, e.weight, State());
      if Graph(transactions) && FitsBeside(env.limits, e.size, e.weight, transactions) {
        FittingEvictsNone(env.limits, e, transactions);
      }
      RestrictNone(transactions);
      ghost var before, parentsBefore := transactions, parents;
      if !env.limits.CanAccept(e.size, e.weight, |transactions|, totalSize, totalWeight) {
        gone := EvictForSpace(e.size, e.weight, e.FeeRate());
        if Graph(before) {
          EvictedLeft(before, parentsBefore, gone, e.FeeRate(), transactions, parents);
        }
      }
      ok := env.limits.CanAccept(e.size, e.weight, |transactions|, totalSize, totalWeight);
      FitsMeans(env.limits, e.size, e.weight, State());
    }

    /** Takes out what is replaced, and inserts. */
    method InsertReplacing(e: PoolEntry, conflicts: set<Id>, direct: set<Id>, ancestors: set<Id>)
      returns (reply: AddReply, ghost gone: set<Id>)
      requires Core(State()) && e.tx.id !in transactions && Shaped(map[e.tx.id := e])
      requires e.ancestors == {} && e.descendants == {} && Conflicts(transactions, e.tx) <= conflicts
      modifies this
      ensures Core(State()) && !reply.Early() && !reply.MempoolLimits?
      ensures !reply.Added? ==> Shrunk(old(transactions), transactions)
      ensures reply.Added? ==> Shrunk(old(transactions)[e.tx.id := e], transactions) && e.tx.id in transactions
      ensures Graph(old(transactions)) ==>
                && gone == Replacement(old(transactions), conflicts) * old(transactions.Keys)
                && (reply.Added? <==> AllRoom(env.limits, Join(Restrict(old(transactions), gone), e.tx.id, e, ancestors), ancestors))
                && Outcome(env.limits, e, ancestors, direct, reply, old(transactions), old(parents), gone, transactions, parents)
    {
      hide Core, Graph, Shrunk, Left, Shaped, Inputs, AllInputs, Conflicts, Replacement, Restrict, Join, Room, AllRoom, Unmentioned, DescendantClosed;
      ghost var before, parentsBefore, x := transactions, parents, e.tx.id;
      gone := {};
      ShrunkSelf(before);
      if conflicts != {} {
        var replaced := ReplacementSet(conflicts);
        if Graph(before) {
          ReplacementClosed(before, conflicts);
        }
        RemoveReplaced(replaced);
        gone := replaced * before.Keys;
        if Graph(before) {
          LeftFrom(before, parentsBefore, replaced, transactions, parents);
        }
      } else {
        LeftNone(before, parentsBefore);
        ReplacementNone(before);
      }
      ShrunkKeys(before, transactions);
      NoClashLeft(before, transactions, e.tx, conflicts);
      ghost var now, parentsNow := transactions, parents;
      if Graph(before) {
        LeftGraph(before, parentsBefore, gone, now, parentsNow);
        GraphUnmentioned(now, x);
        LeftIs(before, parentsBefore, gone, now, parentsNow);
      }
      reply := Insert(e, ancestors, direct);
      if Graph(before) && reply.Added? {
        AllRoomLess(env.limits, now, x, e, ancestors);
      }
      if reply.Added? {
        InsertedShrunk(before, now, x, e, ancestors);
      } else {
        ShrunkTwice(before, now, transactions);
      }
    }

    /** What follows the screening: room is made, the replaced go, the newcomer comes. */
    method Settle(e: PoolEntry, conflicts: set<Id>, direct: set<Id>, ancestors: set<Id>, ghost known: set<Id>)
      returns (reply: AddReply)
      requires Core(State()) && e.tx.id !in transactions && Shaped(map[e.tx.id := e])
      requires e.ancestors == {} && e.descendants == {} && conflicts == Conflicts(transactions, e.tx)
      requires direct == ParentIds(e.tx) - known
      modifies this
      ensures Core(State()) && !reply.Early()
      ensures !reply.Added? ==> Shrunk(old(transactions), transactions)
      ensures reply.Added? ==> e.tx.id in transactions && Shrunk(old(transactions)[e.tx.id := e], transactions)
      ensures Graph(old(transactions)) && ancestors == AncestorsFor(known, e, old(transactions)) ==>
                Settled(env.limits, old(State()), known, e, reply, State())
    {
      hide Core, Graph, Shrunk, Outcome, Closure, ParentIds, Replacement, Conflicts, Left, Shaped, AllRoom, EvictedFor, HasSpace, Restrict, Join, Settled, AncestorsFor;
      ghost var before := State();
      var room;
      ghost var evicted;
      room, evicted := MakeRoom(e);
      ghost var middle := State();
      ShrunkKeys(before.entries, middle.entries);
      if Graph(before.entries) {
        LeftGraph(before.entries, before.parents, evicted, middle.entries, middle.parents);
      }
      if !room {
        if Graph(before.entries) {
          SettledNoSpace(env.limits, before, known, e, middle);
        }
        return MempoolLimits;
      }
      ConflictsShrink(before.entries, middle.entries, e.tx);
      ghost var taken;
      reply, taken := InsertReplacing(e, conflicts, direct, ancestors);
      if reply.Added? {
        ShrunkInserted(before.entries, middle.entries, transactions, e);
      } else {
        ShrunkTwice(before.entries, middle.entries, transactions);
      }
      if Graph(before.entries) && ancestors == AncestorsFor(known, e, before.entries) {
        SettledAfter(env.limits, before, known, e, middle, taken, reply, State());
      }
    }

    /** Admits a transaction or says why not. */
    method AddTransaction(tx: Tx, chain: ChainView, floorRate: real, packageRate: Option<real>, now: int) returns (reply: AddReply)
      requires Core(State())
      modifies this
      ensures Core(State())
      ensures reply.Early() ==> State() == old(State())
      ensures !reply.Added? ==> Shrunk(old(transactions), transactions)
      ensures reply.Added? ==>
                && tx.id !in old(transactions) && tx.id in transactions
                && Shrunk(old(transactions)[tx.id := NewEntry(env, chain, old(transactions), tx, now)], transactions)
      ensures Graph(old(transactions)) && Linked(old(transactions), old(parents), chain.known) ==>
                AddStep(env, old(State()), chain, tx, floorRate, packageRate, now, reply, State())
      ensures PoolInv(env.limits, old(State()), chain.known) ==>
                (PoolInv(env.limits, State(), chain.known) <==> !Breaks(env, old(State()), chain, tx, floorRate, packageRate, now))
    {
      hide Core, Graph, Linked, WithinLimits, Shrunk, Screen, Settled, Closure, ParentIds, Conflicts, NewEntry, PoolTxOk, Ignored, Breaks;
      ghost var before := State();
      ShrunkSelf(transactions);
      var early, e, conflicts, direct, ancestors := Screening(tx, chain, floorRate, packageRate, now);
      if early.Some? {
        reply := early.value;
      } else {
        NewEntryShaped(env, chain, transactions, spent, tx, now, Ignored(transactions, conflicts));
        reply := Settle(e, conflicts, direct, ancestors, chain.known);
      }
      if PoolInv(env.limits, before, chain.known) {
        AdmissionBreaksExactly(env, before, chain, tx, floorRate, packageRate, now, reply, State());
      }
    }

    // --------------------------------------------------------- connected blocks

    /** Should this entry go after the tip has moved? */
    method Stale(x: Id, chain: ChainView) returns (stale: bool)
      requires x in transactions
      ensures stale == !StillGood(env, chain, transactions, transactions[x].tx)
    {
      hide PoolTxOk, InputValue, OutputValue, ParentIds, Inputs;
      var tx := transactions[x].tx;
      OwnInputs(env, chain, transactions, spent, tx);
      var ok := ValidateTransaction(tx, chain, Inputs(tx));
      if !ok {
        return true;
      }
      var found := CheckDependencies(tx, chain);
      if found.None? || !env.standard(tx) {
        return true;
      }
      var fee := CalculateFee(tx, chain);
      return fee < VirtualSize(env.weightOf(tx)) * env.minRelayFee;
    }

    /** Removes what the block confirmed and what the new tip made invalid, each with all that depends on it. */
    method HandleConnectedBlock(txs: seq<Tx>, chain: ChainView, ghost known: set<Id>)
      requires Core(State())
      modifies this
      ensures Core(State()) && Shrunk(old(transactions), transactions)
      ensures forall i :: 0 <= i < |txs| && !txs[i].IsCoinbase() ==> txs[i].id !in transactions
      ensures Graph(old(transactions)) && Linked(old(transactions), old(parents), known) ==>
                BlockStep(env, old(State()), chain, txs, State())
      ensures PoolInv(env.limits, old(State()), known) && known <= chain.known ==> PoolInv(env.limits, State(), chain.known)
    {
      hide Core, Graph, Linked, WithinLimits, Shrunk, StillGood, Cut, Confirmed, StaleIn;
      ghost var start := State();
      RemoveConfirmed(txs);
      ghost var confirmed := State();
      if Graph(start.entries) && Linked(start.entries, start.parents, known) {
        CutLinked(start.entries, start.parents, known, Confirmed(txs, |txs|));
      }
      RemoveStale(chain, known);
      ShrunkKeys(confirmed.entries, transactions);
      ShrunkTwice(start.entries, confirmed.entries, transactions);
      if PoolInv(env.limits, start, known) && known <= chain.known {
        BlockStepKeepsInv(env, start, chain, known, txs, State());
      }
    }

    /** Takes out what the block confirmed. */
    method RemoveConfirmed(txs: seq<Tx>)
      requires Core(State())
      modifies this
      ensures Core(State()) && Shrunk(old(transactions), transactions)
      ensures forall i :: 0 <= i < |txs| && !txs[i].IsCoinbase() ==> txs[i].id !in transactions
      ensures Graph(old(transactions)) ==>
                && transactions == Restrict(old(transactions), Cut(old(transactions), Confirmed(txs, |txs|)))
                && parents == old(parents) - Cut(old(transactions), Confirmed(txs, |txs|))
    {
      hide Core, Graph, Shrunk, Restrict, Cut;
      ghost var before, parentsBefore := transactions, parents;
      ShrunkSelf(before);
      CutNone(before);
      RestrictNone(before);
      assert parents - {} == parents;
      assert Confirmed(txs, 0) == {};
      for i := 0 to |txs|
        invariant Core(State()) && Shrunk(before, transactions)
        invariant forall k :: 0 <= k < i && !txs[k].IsCoinbase() ==> txs[k].id !in transactions
        invariant Graph(before) ==>
                    && transactions == Restrict(before, Cut(before, Confirmed(txs, i)))
                    && parents == parentsBefore - Cut(before, Confirmed(txs, i))
      {
        ConfirmedNext(txs, i);
        assert Confirmed(txs, i) + {} == Confirmed(txs, i);
        if !txs[i].IsCoinbase() {
          ghost var now := transactions;
          if Graph(before) {
            RestrictGraph(before, Cut(before, Confirmed(txs, i)));
          }
          var removed := RemoveTransaction(txs[i].id, true);
          ShrunkKeys(now, transactions);
          ShrunkTwice(before, now, transactions);
          if Graph(before) {
            CutMore(before, parentsBefore, Confirmed(txs, i), txs[i].id);
          }
        }
      }
    }

    /** Looks at every entry again and takes out those that are no longer good. */
    method RemoveStale(chain: ChainView, ghost known: set<Id>)
      requires Core(State())
      modifies this
      ensures Core(State()) && Shrunk(old(transactions), transactions)
      ensures Graph(old(transactions)) && Linked(old(transactions), old(parents), known) ==>
                var stale := StaleIn(env, chain, old(transactions));
                && transactions == Restrict(old(transactions), Cut(old(transactions), stale))
                && parents == old(parents) - Cut(old(transactions), stale)
    {
      hide Core, Graph, Linked, Shrunk, Restrict, Cut, StillGood;
      ghost var before, parentsBefore := transactions, parents;
      ghost var good := Graph(before) && Linked(before, parents, known);
      ghost var stale := StaleIn(env, chain, before);
      ShrunkSelf(before);
      CutNone(before);
      RestrictNone(before);
      assert parents - {} == parents;
      var todo := transactions.Keys;
      assert stale - todo == {};
      while todo != {}
        invariant todo <= before.Keys && Core(State()) && Shrunk(before, transactions)
        invariant good ==>
                    && transactions == Restrict(before, Cut(before, stale - todo))
                    && parents == parentsBefore - Cut(before, stale - todo)
        decreases todo
      {
        SomeId(todo);
        var x :| x in todo;
        ghost var checked := stale - todo;
        todo := todo - {x};
        assert stale - todo == if x in stale then checked + {x} else checked;
        if good {
          RestrictGraph(before, Cut(before, checked));
          CutMore(before, parentsBefore, checked, x);
        }
        if x in transactions {
          var isStale := Stale(x, chain);
          if good {
            CutIn(before, checked);
            StaleLater(env, chain, before, parentsBefore, known, Cut(before, checked), x);
          }
          if isStale {
            ghost var now := transactions;
            var removed := RemoveTransaction(x, true);
            ShrunkTwice(before, now, transactions);
          }
        } else if good {
          assert Cut(before, checked) + {} == Cut(before, checked);
        }
      }
      assert stale - todo == stale;
    }
  }
}
