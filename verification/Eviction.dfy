/** Which entries a full pool gives up for a newcomer: the order in which packages are
    considered, and the walk along it, as functions of the pool. */
module Eviction {
  import opened Ledger
  import opened PoolSpec
  import opened Admission

  /** What an entry pays per virtual byte together with everything that depends on it. */
  ghost function PackageRate(es: PoolEntries, x: Id): real {
    var members := {x} + Below(es, x);
    var vsize := Sum(Vsizes(es), members);
    if vsize <= 0 then 0.0 else Sum(FeesOf(es), members) as real / vsize as real
  }

  ghost function PackageVsize(es: PoolEntries, x: Id): int {
    var vsize := Sum(Vsizes(es), {x} + Below(es, x));
    if vsize <= 0 then 0 else vsize
  }

  // ----------------------------------------------------------------------- order

  /** Cheapest package first, then the cheaper transaction, the larger package, the smaller id. */
  datatype Rank = Rank(packageRate: real, ownRate: real, vsize: int, id: Id) {
    predicate Before(r: Rank) {
      || packageRate < r.packageRate
      || (packageRate == r.packageRate &&
          (|| ownRate < r.ownRate
           || (ownRate == r.ownRate && (vsize > r.vsize || (vsize == r.vsize && id < r.id)))))
    }
  }

  type Ranks = map<Id, Rank>

  predicate RanksOf(ranks: Ranks, ids: set<Id>) {
    forall x :: x in ids ==> x in ranks && ranks[x].id == x
  }

  predicate IsFirst(ranks: Ranks, ids: set<Id>, x: Id)
    requires RanksOf(ranks, ids)
  {
    x in ids && forall y :: y in ids && y != x ==> ranks[x].Before(ranks[y])
  }

  lemma {:induction false} SomeFirst(ranks: Ranks, ids: set<Id>)
    requires RanksOf(ranks, ids) && ids != {}
    ensures exists x :: IsFirst(ranks, ids, x)
    decreases ids
  {
    SomeId(ids);
    var x :| x in ids;
    if ids - {x} == {} {
      assert ids == {x};
      assert IsFirst(ranks, ids, x);
    } else {
      SomeFirst(ranks, ids - {x});
      var y :| IsFirst(ranks, ids - {x}, y);
      assert IsFirst(ranks, ids, if ranks[x].Before(ranks[y]) then x else y);
    }
  }

  lemma FirstUnique(ranks: Ranks, ids: set<Id>, x: Id, y: Id)
    requires RanksOf(ranks, ids) && IsFirst(ranks, ids, x) && IsFirst(ranks, ids, y)
    ensures x == y
  {
  }

  /** These ids by rank. */
  ghost function ByRank(ranks: Ranks, ids: set<Id>): seq<Id>
    requires RanksOf(ranks, ids)
    decreases ids
  {
    if ids == {} then []
    else
      SomeFirst(ranks, ids);
      var x :| IsFirst(ranks, ids, x);
      [x] + ByRank(ranks, ids - {x})
  }

  lemma ByRankNext(ranks: Ranks, ids: set<Id>, x: Id)
    requires RanksOf(ranks, ids) && IsFirst(ranks, ids, x)
    ensures ByRank(ranks, ids) == [x] + ByRank(ranks, ids - {x})
  {
    var y :| IsFirst(ranks, ids, y) && ByRank(ranks, ids) == [y] + ByRank(ranks, ids - {y});
    FirstUnique(ranks, ids, x, y);
  }

  /** Each id once, an earlier one always ranking before a later one. */
  lemma {:induction false} ByRankSorts(ranks: Ranks, ids: set<Id>)
    requires RanksOf(ranks, ids)
    ensures var s := ByRank(ranks, ids);
            && Listed(s, ids)
            && forall i, j :: 0 <= i < j < |s| ==> s[i] in ids && s[j] in ids && ranks[s[i]].Before(ranks[s[j]])
    decreases ids
  {
    var s := ByRank(ranks, ids);
    if ids != {} {
      SomeFirst(ranks, ids);
      var x :| IsFirst(ranks, ids, x);
      ByRankNext(ranks, ids, x);
      var rest := ByRank(ranks, ids - {x});
      ByRankSorts(ranks, ids - {x});
      ListedIn(rest, ids - {x});
      forall y
        ensures y in s <==> y in ids
      {
        assert y in s <==> y == x || y in rest;
      }
      assert forall i :: 0 < i < |s| ==> s[i] == rest[i - 1];
    }
  }

  ghost function RanksIn(es: PoolEntries): Ranks {
    map x | x in es :: Rank(PackageRate(es, x), es[x].FeeRate(), PackageVsize(es, x), x)
  }

  /** The order in which eviction considers the entries. */
  ghost function OrderOf(es: PoolEntries): seq<Id> {
    ByRank(RanksIn(es), es.Keys)
  }

  /** The entry considered first pays least together with what depends on it, and so on. */
  lemma CheapestFirst(es: PoolEntries, i: nat, j: nat)
    requires i < j < |OrderOf(es)|
    ensures OrderOf(es)[i] in es && OrderOf(es)[j] in es
    ensures var x, y := OrderOf(es)[i], OrderOf(es)[j];
            || PackageRate(es, x) < PackageRate(es, y)
            || (PackageRate(es, x) == PackageRate(es, y) && es[x].FeeRate() <= es[y].FeeRate())
  {
    hide PackageRate, PoolEntry.FeeRate;
    ByRankSorts(RanksIn(es), es.Keys);
  }

  // ------------------------------------------------------------------------ walk

  /** Is there room for a newcomer of this size and weight beside these entries? */
  ghost predicate FitsBeside(l: Limits, size: nat, weight: nat, es: PoolEntries) {
    l.CanAccept(size, weight, |es|, TotalsOf(es).size, TotalsOf(es).weight)
  }

  /** What goes while the order is walked: package after package, until the newcomer fits or does not pay more
      than the next one. */
  ghost function EvictAlong(l: Limits, size: nat, weight: nat, rate: real, es: PoolEntries, order: seq<Id>): set<Id>
    decreases |order|
  {
    if order == [] || FitsBeside(l, size, weight, es) then {}
    else if order[0] !in es then EvictAlong(l, size, weight, rate, es, order[1..])
    else if rate <= PackageRate(es, order[0]) then {}
    else
      var more := Removed(es, order[0], true);
      more + EvictAlong(l, size, weight, rate, Restrict(es, more), order[1..])
  }

  lemma EvictAlongSteps(l: Limits, size: nat, weight: nat, rate: real, es: PoolEntries, order: seq<Id>)
    requires order != []
    ensures var rest := EvictAlong(l, size, weight, rate, es, order);
            && (FitsBeside(l, size, weight, es) ==> rest == {})
            && (!FitsBeside(l, size, weight, es) && order[0] !in es ==>
                  rest == EvictAlong(l, size, weight, rate, es, order[1..]))
            && (order[0] in es && rate <= PackageRate(es, order[0]) ==> rest == {})
            && (!FitsBeside(l, size, weight, es) && order[0] in es && rate > PackageRate(es, order[0]) ==>
                  var more := Removed(es, order[0], true);
                  rest == more + EvictAlong(l, size, weight, rate, Restrict(es, more), order[1..]))
  {
  }

  lemma EvictAlongEnds(l: Limits, size: nat, weight: nat, rate: real, es: PoolEntries)
    ensures EvictAlong(l, size, weight, rate, es, []) == {}
  {
  }

  lemma FitsMeans(l: Limits, size: nat, weight: nat, p: Pool)
    requires Core(p)
    ensures l.CanAccept(size, weight, |p.entries|, p.totals.size, p.totals.weight) == FitsBeside(l, size, weight, p.entries)
  {
    hide Core, TotalsOf;
    CoreTotals(p);
  }

  ghost function EvictedFor(l: Limits, e: PoolEntry, es: PoolEntries): set<Id> {
    EvictAlong(l, e.size, e.weight, e.FeeRate(), es, OrderOf(es))
  }

  /** Where the walk stopped: the newcomer fits, or an entry is left that it does not outbid, or none of the order is left. */
  lemma {:induction false} EvictAlongStops(l: Limits, size: nat, weight: nat, rate: real, es: PoolEntries, order: seq<Id>)
    ensures var fs := Restrict(es, EvictAlong(l, size, weight, rate, es, order));
            || FitsBeside(l, size, weight, fs)
            || (exists x :: x in order && x in fs && rate <= PackageRate(fs, x))
            || (forall x :: x in order ==> x !in fs)
    decreases |order|
  {
    hide FitsBeside, PackageRate;
    RestrictNone(es);
    if order != [] && !FitsBeside(l, size, weight, es) {
      var x, rest := order[0], order[1..];
      assert order == [x] + rest;
      if x !in es {
        EvictAlongStops(l, size, weight, rate, es, rest);
      } else if rate > PackageRate(es, x) {
        var more := Removed(es, x, true);
        EvictAlongStops(l, size, weight, rate, Restrict(es, more), rest);
        RestrictTwice(es, more, EvictAlong(l, size, weight, rate, Restrict(es, more), rest));
      }
    }
  }

  /** Eviction ends only when the newcomer fits, does not outbid an entry that is left, or has the pool to itself. */
  lemma EvictionStops(l: Limits, e: PoolEntry, es: PoolEntries)
    ensures var fs := Restrict(es, EvictedFor(l, e, es));
            || FitsBeside(l, e.size, e.weight, fs)
            || (exists x :: x in fs && e.FeeRate() <= PackageRate(fs, x))
            || fs == map[]
  {
    hide FitsBeside, PackageRate, PoolEntry.FeeRate, EvictAlong;
    EvictAlongStops(l, e.size, e.weight, e.FeeRate(), es, OrderOf(es));
    ByRankSorts(RanksIn(es), es.Keys);
    var fs := Restrict(es, EvictedFor(l, e, es));
    if forall x :: x in OrderOf(es) ==> x !in fs {
      SomeId(fs.Keys);
      assert forall x :: x in fs.Keys ==> x in es.Keys;
    }
  }

  // --------------------------------------------------------------- what it costs

  /** Evicted with all that depends on it, and paying less per virtual byte, all together, than the newcomer. */
  ghost predicate Evicted(es: PoolEntries, gone: set<Id>, rate: real) {
    && gone <= es.Keys && DescendantClosed(es, gone)
    && Sum(FeesOf(es), gone) as real <= rate * Sum(Vsizes(es), gone) as real
    && (gone != {} ==> (Sum(FeesOf(es), gone) as real) < rate * Sum(Vsizes(es), gone) as real)
  }

  lemma EvictedNone(es: PoolEntries, rate: real)
    ensures Evicted(es, {}, rate)
  {
  }

  lemma Outbid(fee: int, vsize: int, rate: real)
    requires vsize > 0 && rate > fee as real / vsize as real
    ensures (fee as real) < rate * vsize as real
  {
    assert (fee as real / vsize as real) * vsize as real == fee as real;
  }

  lemma OutbidSum(f: int, v: int, g: int, w: int, rate: real)
    requires f as real <= rate * v as real && (g as real) < rate * w as real
    ensures ((f + g) as real) < rate * (v + w) as real
  {
    assert rate * (v + w) as real == rate * v as real + rate * w as real;
  }

  lemma ClosedMore(es: PoolEntries, gone: set<Id>, x: Id)
    requires Graph(es) && gone <= es.Keys && DescendantClosed(es, gone) && x in es && x !in gone
    ensures var more := Removed(Restrict(es, gone), x, true);
            more !! gone && more <= es.Keys && DescendantClosed(es, gone + more)
  {
    hide Graph;
    GraphOf(es, x);
    var more := Removed(Restrict(es, gone), x, true);
    forall y | y in es && y in gone + more
      ensures es[y].descendants <= gone + more
    {
      if y in more && y != x {
        assert y in es[x].descendants;
      }
    }
  }

  lemma RestrictSums(es: PoolEntries, gone: set<Id>, ids: set<Id>)
    requires ids !! gone
    ensures Sum(FeesOf(Restrict(es, gone)), ids) == Sum(FeesOf(es), ids)
    ensures Sum(Vsizes(Restrict(es, gone)), ids) == Sum(Vsizes(es), ids)
  {
    SumSame(FeesOf(Restrict(es, gone)), FeesOf(es), ids);
    SumSame(Vsizes(Restrict(es, gone)), Vsizes(es), ids);
  }

  lemma PositiveVsize(es: PoolEntries, ids: set<Id>, x: Id)
    requires Shaped(es) && x in es && x in ids
    ensures Sum(Vsizes(es), ids) > 0
  {
    SumRemove(Vsizes(es), ids, x);
    SumMonotone(Vsizes(es), {}, ids - {x});
  }

  lemma EvictedMore(es: PoolEntries, gone: set<Id>, x: Id, rate: real)
    requires Graph(es) && Shaped(es) && Evicted(es, gone, rate) && x in es && x !in gone
    requires rate > PackageRate(Restrict(es, gone), x)
    ensures var more := Removed(Restrict(es, gone), x, true);
            && Evicted(es, gone + more, rate)
            && Restrict(Restrict(es, gone), more) == Restrict(es, gone + more)
  {
    hide Graph, Sum, FeesOf, Vsizes, Shaped;
    var now := Restrict(es, gone);
    RestrictGraph(es, gone);
    var more := Removed(now, x, true);
    RestrictTwice(es, gone, more);
    GraphOf(now, x);
    ClosedMore(es, gone, x);
    SumUnion(FeesOf(es), gone, more);
    SumUnion(Vsizes(es), gone, more);
    RestrictSums(es, gone, more);
    PositiveVsize(es, more, x);
    var fee, vsize := Sum(FeesOf(es), more), Sum(Vsizes(es), more);
    Outbid(fee, vsize, rate);
    OutbidSum(Sum(FeesOf(es), gone), Sum(Vsizes(es), gone), fee, vsize, rate);
  }

  /** What the walk removes is closed under dependence, and pays less altogether than the newcomer. */
  lemma {:induction false} EvictAlongOutbids(l: Limits, size: nat, weight: nat, rate: real, es: PoolEntries, gone: set<Id>, order: seq<Id>)
    requires Graph(es) && Shaped(es) && Evicted(es, gone, rate)
    ensures Evicted(es, gone + EvictAlong(l, size, weight, rate, Restrict(es, gone), order), rate)
    decreases |order|
  {
    hide Graph, Shaped, Evicted, FitsBeside, PackageRate, Restrict;
    var fs := Restrict(es, gone);
    assert gone + {} == gone;
    if order != [] && !FitsBeside(l, size, weight, fs) {
      var x, rest := order[0], order[1..];
      if x !in fs {
        EvictAlongOutbids(l, size, weight, rate, es, gone, rest);
      } else if rate > PackageRate(fs, x) {
        var more := Removed(fs, x, true);
        InRestrict(es, gone, x);
        EvictedMore(es, gone, x, rate);
        EvictAlongOutbids(l, size, weight, rate, es, gone + more, rest);
        assert gone + more + EvictAlong(l, size, weight, rate, Restrict(fs, more), rest) ==
               gone + (more + EvictAlong(l, size, weight, rate, Restrict(fs, more), rest));
      }
    }
  }

  lemma EvictionOutbids(l: Limits, e: PoolEntry, es: PoolEntries)
    requires Graph(es) && Shaped(es)
    ensures Evicted(es, EvictedFor(l, e, es), e.FeeRate())
  {
    hide Graph, Shaped, Evicted, EvictAlong;
    RestrictNone(es);
    EvictedNone(es, e.FeeRate());
    EvictAlongOutbids(l, e.size, e.weight, e.FeeRate(), es, {}, OrderOf(es));
    assert {} + EvictedFor(l, e, es) == EvictedFor(l, e, es);
  }

  lemma EvictedLeft(es: PoolEntries, parents: ParentMap, gone: set<Id>, rate: real, fs: PoolEntries, ps: ParentMap)
    requires Evicted(es, gone, rate) && fs == Restrict(es, gone) && ps == parents - gone
    ensures Left(es, parents, gone, fs, ps)
  {
  }
}
