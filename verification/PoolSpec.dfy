/** The memory pool as a value: entries with their ancestor and descendant sets,
    and the redundant structures kept beside them.  What must agree with what, and
    that removing and inserting entries keeps it so. */
module PoolSpec {
  import opened Ledger

  datatype PoolEntry = PoolEntry(tx: Tx, size: nat, vsize: nat, weight: nat, fee: int, time: int,
                                 ancestors: set<Id>, descendants: set<Id>) {
    function FeeRate(): real {
      if vsize > 0 then fee as real / vsize as real else 0.0
    }

    function Bare(): PoolEntry {
      this.(ancestors := {}, descendants := {})
    }
  }

  type PoolEntries = map<Id, PoolEntry>
  type SpentIndex = map<Id, set<nat>>
  type ParentMap = map<Id, set<Id>>

  datatype Totals = Totals(size: int, vsize: int, weight: int, fee: int)

  datatype Pool = Pool(entries: PoolEntries, byFee: seq<Id>, byTime: seq<Id>, spent: SpentIndex, parents: ParentMap,
                       totals: Totals)

  function Inputs(tx: Tx): set<OutPoint> {
    tx.Prevs(|tx.vin|)
  }

  function ParentIds(tx: Tx): set<Id> {
    set i | 0 <= i < |tx.vin| :: tx.vin[i].prev.txid
  }

  function ParentsOf(parents: ParentMap, x: Id): set<Id> {
    if x in parents then parents[x] else {}
  }

  // ------------------------------------------------------------------------ sums

  lemma SomeId(ids: set<Id>)
    ensures ids == {} || exists x :: x in ids
  {
    if forall x :: x !in ids {
      assert ids == {};
    }
  }

  ghost function Sum(f: map<Id, int>, ids: set<Id>): int
    decreases ids
  {
    if ids == {} then 0
    else
      SomeId(ids);
      var x :| x in ids;
      (if x in f then f[x] else 0) + Sum(f, ids - {x})
  }

  lemma {:induction false} SumRemove(f: map<Id, int>, ids: set<Id>, x: Id)
    requires x in ids
    ensures Sum(f, ids) == (if x in f then f[x] else 0) + Sum(f, ids - {x})
    decreases ids
  {
    var y :| y in ids && Sum(f, ids) == (if y in f then f[y] else 0) + Sum(f, ids - {y});
    if y != x {
      SumRemove(f, ids - {y}, x);
      SumRemove(f, ids - {x}, y);
      assert ids - {x} - {y} == ids - {y} - {x};
    }
  }

  lemma {:induction false} SumSame(f: map<Id, int>, g: map<Id, int>, ids: set<Id>)
    requires forall x :: x in ids ==> (x in f <==> x in g) && (x in f ==> f[x] == g[x])
    ensures Sum(f, ids) == Sum(g, ids)
    decreases ids
  {
    if ids != {} {
      SomeId(ids);
      var x :| x in ids && Sum(f, ids) == (if x in f then f[x] else 0) + Sum(f, ids - {x});
      SumRemove(g, ids, x);
      SumSame(f, g, ids - {x});
    }
  }

  lemma {:induction false} SumMonotone(f: map<Id, int>, some: set<Id>, all: set<Id>)
    requires some <= all && forall x :: x in f ==> f[x] >= 0
    ensures 0 <= Sum(f, some) <= Sum(f, all)
    decreases all
  {
    if all == {} {
      assert some == {};
    } else {
      SomeId(all);
      var x :| x in all && Sum(f, all) == (if x in f then f[x] else 0) + Sum(f, all - {x});
      if x in some {
        SumRemove(f, some, x);
        SumMonotone(f, some - {x}, all - {x});
      } else {
        SumMonotone(f, some, all - {x});
      }
    }
  }

  lemma {:induction false} SumUnion(f: map<Id, int>, a: set<Id>, b: set<Id>)
    requires a !! b
    ensures Sum(f, a + b) == Sum(f, a) + Sum(f, b)
    decreases a
  {
    if a == {} {
      assert a + b == b;
    } else {
      SomeId(a);
      var x :| x in a;
      SumRemove(f, a, x);
      SumRemove(f, a + b, x);
      assert a + b - {x} == (a - {x}) + b;
      SumUnion(f, a - {x}, b);
    }
  }

  function Sizes(es: PoolEntries): map<Id, int> { map x | x in es :: es[x].size }
  function Vsizes(es: PoolEntries): map<Id, int> { map x | x in es :: es[x].vsize }
  function Weights(es: PoolEntries): map<Id, int> { map x | x in es :: es[x].weight }
  function FeesOf(es: PoolEntries): map<Id, int> { map x | x in es :: es[x].fee }

  ghost function TotalsOf(es: PoolEntries): Totals {
    Totals(Sum(Sizes(es), es.Keys), Sum(Vsizes(es), es.Keys), Sum(Weights(es), es.Keys), Sum(FeesOf(es), es.Keys))
  }

  /** The same transactions with the same figures; only the relations may differ. */
  ghost predicate SameBodies(es: PoolEntries, fs: PoolEntries) {
    es.Keys == fs.Keys && forall x :: x in es ==> es[x].Bare() == fs[x].Bare()
  }

  /** Some of the same transactions. */
  ghost predicate Shrunk(es: PoolEntries, fs: PoolEntries) {
    fs.Keys <= es.Keys && forall x :: x in fs ==> es[x].Bare() == fs[x].Bare()
  }

  lemma TotalsWithout(es: PoolEntries, fs: PoolEntries, x: Id)
    requires x in es && SameBodies(es - {x}, fs)
    ensures var t, e := TotalsOf(es), es[x];
            TotalsOf(fs) == Totals(t.size - e.size, t.vsize - e.vsize, t.weight - e.weight, t.fee - e.fee)
  {
    SumWithout(Sizes(es), Sizes(fs), x);
    SumWithout(Vsizes(es), Vsizes(fs), x);
    SumWithout(Weights(es), Weights(fs), x);
    SumWithout(FeesOf(es), FeesOf(fs), x);
    assert Sizes(es).Keys == Vsizes(es).Keys == Weights(es).Keys == FeesOf(es).Keys == es.Keys;
    assert Sizes(fs).Keys == Vsizes(fs).Keys == Weights(fs).Keys == FeesOf(fs).Keys == fs.Keys;
  }

  lemma SumWithout(f: map<Id, int>, g: map<Id, int>, x: Id)
    requires x in f && g.Keys == f.Keys - {x} && forall y :: y in g ==> g[y] == f[y]
    ensures Sum(g, g.Keys) == Sum(f, f.Keys) - f[x]
  {
    SumRemove(f, f.Keys, x);
    SumSame(f, g, g.Keys);
  }

  // ------------------------------------------------------------- spent outpoints

  predicate InSpent(s: SpentIndex, o: OutPoint) {
    o.txid in s && o.index in s[o.txid]
  }

  function SpendMark(s: SpentIndex, o: OutPoint): SpentIndex {
    s[o.txid := (if o.txid in s then s[o.txid] else {}) + {o.index}]
  }

  function SpendUnmark(s: SpentIndex, o: OutPoint): SpentIndex {
    if o.txid !in s then s
    else if s[o.txid] - {o.index} == {} then s - {o.txid}
    else s[o.txid := s[o.txid] - {o.index}]
  }

  /** The index holds these outpoints and nothing else, not even an empty set. */
  ghost predicate SpentIs(s: SpentIndex, os: set<OutPoint>) {
    && (forall o :: InSpent(s, o) <==> o in os)
    && (forall t :: t in s ==> s[t] != {})
  }

  lemma MarkIs(s: SpentIndex, os: set<OutPoint>, o: OutPoint)
    requires SpentIs(s, os)
    ensures SpentIs(SpendMark(s, o), os + {o})
  {
    var r := SpendMark(s, o);
    assert o.index in r[o.txid];
  }

  lemma UnmarkIs(s: SpentIndex, os: set<OutPoint>, o: OutPoint)
    requires SpentIs(s, os)
    ensures SpentIs(SpendUnmark(s, o), os - {o})
  {
    var r := SpendUnmark(s, o);
    if o.txid in s {
      forall i | i in s[o.txid] && i != o.index
        ensures o.txid in r
      {
        assert i in s[o.txid] - {o.index};
      }
    }
  }

  function AllInputs(es: PoolEntries): set<OutPoint> {
    set x, o | x in es && o in Inputs(es[x].tx) :: o
  }

  // ----------------------------------------------------------------------- lists

  ghost predicate Listed(s: seq<Id>, ids: set<Id>) {
    && (forall i, j :: 0 <= i < j < |s| ==> s[i] != s[j])
    && (forall x :: x in s <==> x in ids)
  }

  predicate SortedBy(s: seq<Id>, key: map<Id, real>) {
    && (forall i :: 0 <= i < |s| ==> s[i] in key)
    && (forall i, j :: 0 <= i < j < |s| ==> key[s[i]] <= key[s[j]])
  }

  function RateKeys(es: PoolEntries): map<Id, real> { map x | x in es :: -es[x].FeeRate() }
  function TimeKeys(es: PoolEntries): map<Id, real> { map x | x in es :: es[x].time as real }

  /** Appending and sorting stably: behind every element whose key is not greater. */
  function Place(s: seq<Id>, key: map<Id, real>, x: Id): seq<Id>
    requires x in key && forall i :: 0 <= i < |s| ==> s[i] in key
    decreases |s|
  {
    if s == [] || key[s[|s| - 1]] <= key[x] then s + [x]
    else Place(s[..|s| - 1], key, x) + [s[|s| - 1]]
  }

  lemma ListedSnoc(init: seq<Id>, last: Id, ids: set<Id>)
    ensures Listed(init + [last], ids) <==> last in ids && Listed(init, ids - {last})
  {
    var s := init + [last];
    assert forall i :: 0 <= i < |init| ==> s[i] == init[i];
    assert s[|init|] == last;
    assert forall y :: y in s <==> y in init || y == last;
  }

  lemma SortedSnoc(init: seq<Id>, last: Id, key: map<Id, real>)
    ensures SortedBy(init + [last], key) <==>
            && SortedBy(init, key) && last in key && forall y :: y in init ==> key[y] <= key[last]
  {
    var s := init + [last];
    assert forall i :: 0 <= i < |init| ==> s[i] == init[i];
    assert s[|init|] == last;
    if SortedBy(s, key) {
      forall y | y in init
        ensures key[y] <= key[last]
      {
        var i :| 0 <= i < |init| && init[i] == y;
        assert key[s[i]] <= key[s[|init|]];
      }
    }
  }

  lemma {:induction false} PlaceSorted(s: seq<Id>, key: map<Id, real>, x: Id, ids: set<Id>)
    requires x in key && SortedBy(s, key) && Listed(s, ids) && x !in ids
    ensures SortedBy(Place(s, key, x), key) && Listed(Place(s, key, x), ids + {x})
    decreases |s|
  {
    if s == [] || key[s[|s| - 1]] <= key[x] {
      PlaceLast(s, key, x, ids);
    } else {
      var init, last := s[..|s| - 1], s[|s| - 1];
      assert s == init + [last];
      ListedSnoc(init, last, ids);
      SortedSnoc(init, last, key);
      PlaceSorted(init, key, x, ids - {last});
      hide SortedBy;
      var r := Place(init, key, x);
      assert ids + {x} - {last} == ids - {last} + {x};
      ListedSnoc(r, last, ids + {x});
      SortedSnoc(r, last, key);
    }
  }

  lemma PlaceLast(s: seq<Id>, key: map<Id, real>, x: Id, ids: set<Id>)
    requires x in key && SortedBy(s, key) && Listed(s, ids) && x !in ids
    requires s == [] || key[s[|s| - 1]] <= key[x]
    ensures SortedBy(s + [x], key) && Listed(s + [x], ids + {x})
  {
    assert ids + {x} - {x} == ids;
    ListedSnoc(s, x, ids + {x});
    SortedSnoc(s, x, key);
  }

  /** list.remove. */
  function Without(s: seq<Id>, x: Id): seq<Id>
    decreases |s|
  {
    if s == [] then [] else if s[0] == x then s[1..] else [s[0]] + Without(s[1..], x)
  }

  lemma {:induction false} WithoutKeeps(s: seq<Id>, key: map<Id, real>, x: Id, ids: set<Id>)
    requires SortedBy(s, key) && Listed(s, ids)
    ensures SortedBy(Without(s, x), key) && Listed(Without(s, x), ids - {x})
    decreases |s|
  {
    if s != [] {
      var h, t := s[0], s[1..];
      assert s == [h] + t;
      assert Listed(t, ids - {h}) by {
        forall y
          ensures y in t <==> y in ids - {h}
        {
          if y in t {
            var i :| 0 <= i < |t| && t[i] == y;
            assert s[i + 1] == y;
          }
          assert y in s <==> y in t || y == h;
        }
      }
      if h != x {
        WithoutKeeps(t, key, x, ids - {h});
        var r := Without(t, x);
        forall i | 0 <= i < |r|
          ensures r[i] in key && key[h] <= key[r[i]] && r[i] != h
        {
          assert r[i] in r;
          var j :| 0 <= j < |t| && t[j] == r[i];
          assert s[j + 1] == r[i];
        }
      }
    }
  }

  lemma SortedAgain(s: seq<Id>, f: map<Id, real>, g: map<Id, real>)
    requires SortedBy(s, f) && forall i :: 0 <= i < |s| ==> s[i] in g && g[s[i]] == f[s[i]]
    ensures SortedBy(s, g)
  {
  }

  // ------------------------------------------------------------------- relations

  // a is an ancestor of x exactly when x is a descendant of a, and both are pooled.
  ghost predicate Mutual(es: PoolEntries) {
    && (forall x, a :: x in es && a in es[x].ancestors ==> a in es && x in es[a].descendants)
    && (forall a, x :: a in es && x in es[a].descendants ==> x in es && a in es[x].ancestors)
  }

  ghost predicate Transitive(es: PoolEntries) {
    forall x, a :: x in es && a in es[x].ancestors && a in es ==> es[a].ancestors <= es[x].ancestors
  }

  ghost predicate Irreflexive(es: PoolEntries) {
    forall x :: x in es ==> x !in es[x].ancestors
  }

  /** The two relations are converses of each other between pooled transactions, transitive and irreflexive. */
  ghost predicate Graph(es: PoolEntries) {
    Mutual(es) && Transitive(es) && Irreflexive(es)
  }

  lemma GraphOf(es: PoolEntries, x: Id)
    requires Graph(es) && x in es
    ensures es[x].ancestors <= es.Keys && es[x].descendants <= es.Keys
    ensures x !in es[x].ancestors && x !in es[x].descendants
    ensures forall a :: a in es[x].ancestors ==> x in es[a].descendants && es[a].ancestors <= es[x].ancestors
    ensures forall d :: d in es[x].descendants ==> x in es[d].ancestors && es[d].descendants <= es[x].descendants
  {
    forall a | a in es[x].ancestors
      ensures a in es.Keys
    {
    }
    forall d | d in es[x].descendants
      ensures d in es.Keys && es[d].descendants <= es[x].descendants
    {
      forall y | y in es[d].descendants
        ensures y in es[x].descendants
      {
        assert d in es[y].ancestors && x in es[d].ancestors;
      }
    }
  }

  /** What is reached from these parents by ancestor sets. */
  function Closure(es: PoolEntries, qs: set<Id>): set<Id> {
    qs + set q, a | q in qs && q in es && a in es[q].ancestors :: a
  }

  /** This entry's inputs come from the pool or from a stored block, its parents are recorded as they are, and its
      ancestors are the parents with their ancestors. */
  ghost predicate LinkedAt(es: PoolEntries, parents: ParentMap, known: set<Id>, x: Id)
    requires x in es
  {
    && ParentIds(es[x].tx) <= es.Keys + known
    && ParentsOf(parents, x) == ParentIds(es[x].tx) * es.Keys
    && es[x].ancestors == Closure(es, ParentsOf(parents, x))
  }

  ghost predicate Linked(es: PoolEntries, parents: ParentMap, known: set<Id>) {
    parents.Keys <= es.Keys && forall x :: x in es ==> LinkedAt(es, parents, known, x)
  }

  /** Entries without the given ones, which also leave the sets of the others. */
  function Restrict(es: PoolEntries, gone: set<Id>): PoolEntries {
    map x | x in es && x !in gone :: es[x].(ancestors := es[x].ancestors - gone, descendants := es[x].descendants - gone)
  }

  /** Nothing is removed without what depends on it. */
  ghost predicate DescendantClosed(es: PoolEntries, gone: set<Id>) {
    forall x :: x in es && x in gone ==> es[x].descendants <= gone
  }

  lemma RestrictGraph(es: PoolEntries, gone: set<Id>)
    requires Graph(es)
    ensures Graph(Restrict(es, gone)) && Shrunk(es, Restrict(es, gone))
  {
  }

  lemma RestrictNone(es: PoolEntries)
    ensures Restrict(es, {}) == es
  {
    forall x | x in es
      ensures Restrict(es, {})[x] == es[x]
    {
      assert es[x].ancestors - {} == es[x].ancestors && es[x].descendants - {} == es[x].descendants;
    }
  }

  lemma RestrictTwice(es: PoolEntries, a: set<Id>, b: set<Id>)
    ensures Restrict(Restrict(es, a), b) == Restrict(es, a + b)
  {
    forall x | x in es && x !in a + b
      ensures Restrict(Restrict(es, a), b)[x] == Restrict(es, a + b)[x]
    {
      assert es[x].ancestors - a - b == es[x].ancestors - (a + b);
      assert es[x].descendants - a - b == es[x].descendants - (a + b);
    }
  }

  /** Removing transactions with everything that depends on them leaves the rest of the graph as it was. */
  lemma RestrictLinked(es: PoolEntries, parents: ParentMap, known: set<Id>, gone: set<Id>)
    requires Graph(es) && Linked(es, parents, known) && DescendantClosed(es, gone)
    ensures Linked(Restrict(es, gone), parents - gone, known)
  {
    hide Graph, LinkedAt;
    forall x | x in Restrict(es, gone)
      ensures LinkedAt(Restrict(es, gone), parents - gone, known, x)
    {
      RestrictLinkedAt(es, parents, known, gone, x);
    }
  }

  lemma RestrictLinkedAt(es: PoolEntries, parents: ParentMap, known: set<Id>, gone: set<Id>, x: Id)
    requires x in es && x !in gone
    requires Graph(es) && LinkedAt(es, parents, known, x) && DescendantClosed(es, gone)
    ensures LinkedAt(Restrict(es, gone), parents - gone, known, x)
  {
    hide Graph, DescendantClosed;
    var fs := Restrict(es, gone);
    AncestorsStay(es, gone, x);
    var qs := ParentsOf(parents, x);
    assert ParentsOf(parents - gone, x) == qs;
    assert qs <= es[x].ancestors;
    forall q | q in qs
      ensures q in fs && fs[q].ancestors == es[q].ancestors
    {
      AncestorsStay(es, gone, q);
    }
    assert Closure(fs, qs) == Closure(es, qs);
  }

  lemma AncestorsStay(es: PoolEntries, gone: set<Id>, x: Id)
    requires Graph(es) && DescendantClosed(es, gone) && x in es && x !in gone
    ensures es[x].ancestors !! gone && Restrict(es, gone)[x].ancestors == es[x].ancestors
  {
    forall a | a in es[x].ancestors
      ensures a !in gone
    {
      assert x in es[a].descendants;
    }
  }

  // ------------------------------------------------------------------- inserting

  /** The entries after e joined with these ancestors. */
  function Join(es: PoolEntries, x: Id, e: PoolEntry, ancestors: set<Id>): PoolEntries {
    map y | y in es.Keys + {x} ::
      if y == x then e.(ancestors := ancestors, descendants := if x in ancestors then {x} else {})
      else if y in ancestors then es[y].(descendants := es[y].descendants + {x}) else es[y]
  }

  /** A new transaction joins a good graph well exactly when all its ancestors are there. */
  lemma JoinGraph(es: PoolEntries, x: Id, e: PoolEntry, ancestors: set<Id>)
    requires Graph(es) && x !in es && x !in ancestors
    requires forall a :: a in ancestors && a in es ==> es[a].ancestors <= ancestors
    ensures Graph(Join(es, x, e, ancestors)) <==> ancestors <= es.Keys
  {
    hide Graph;
    if ancestors <= es.Keys {
      JoinGood(es, x, e, ancestors);
    }
    if Graph(Join(es, x, e, ancestors)) {
      GraphOf(Join(es, x, e, ancestors), x);
      forall a | a in ancestors
        ensures a in es.Keys
      {
        assert a in Join(es, x, e, ancestors).Keys;
      }
    }
  }

  lemma JoinGood(es: PoolEntries, x: Id, e: PoolEntry, ancestors: set<Id>)
    requires Graph(es) && x !in es && ancestors <= es.Keys
    requires forall a :: a in ancestors && a in es ==> es[a].ancestors <= ancestors
    ensures Graph(Join(es, x, e, ancestors))
  {
    hide Graph, Mutual, Transitive, Irreflexive;
    var fs := Join(es, x, e, ancestors);
    forall y | y in es
      ensures es[y].ancestors <= es.Keys && es[y].descendants <= es.Keys && y !in es[y].ancestors
      ensures forall a :: a in es[y].ancestors ==> y in es[a].descendants && es[a].ancestors <= es[y].ancestors
      ensures forall d :: d in es[y].descendants ==> y in es[d].ancestors
    {
      GraphOf(es, y);
    }
    JoinMutual(es, x, e, ancestors);
    assert Transitive(fs) by {
      JoinTransitive(es, x, e, ancestors);
    }
    assert Irreflexive(fs) by {
      JoinIrreflexive(es, x, e, ancestors);
    }
    GraphFrom(fs);
  }

  lemma GraphFrom(es: PoolEntries)
    requires Mutual(es) && Transitive(es) && Irreflexive(es)
    ensures Graph(es)
  {
  }

  lemma JoinMutual(es: PoolEntries, x: Id, e: PoolEntry, ancestors: set<Id>)
    requires x !in es && ancestors <= es.Keys
    requires forall y :: y in es ==> es[y].ancestors <= es.Keys && es[y].descendants <= es.Keys
    requires forall y, a :: y in es && a in es[y].ancestors ==> y in es[a].descendants
    requires forall y, d :: y in es && d in es[y].descendants ==> y in es[d].ancestors
    ensures Mutual(Join(es, x, e, ancestors))
  {
  }

  lemma JoinTransitive(es: PoolEntries, x: Id, e: PoolEntry, ancestors: set<Id>)
    requires x !in es && ancestors <= es.Keys
    requires forall y :: y in es ==> es[y].ancestors <= es.Keys
    requires forall y, a :: y in es && a in es[y].ancestors ==> es[a].ancestors <= es[y].ancestors
    requires forall a :: a in ancestors && a in es ==> es[a].ancestors <= ancestors
    ensures Transitive(Join(es, x, e, ancestors))
  {
  }

  lemma JoinIrreflexive(es: PoolEntries, x: Id, e: PoolEntry, ancestors: set<Id>)
    requires x !in es && ancestors <= es.Keys && forall y :: y in es ==> y !in es[y].ancestors
    ensures Irreflexive(Join(es, x, e, ancestors))
  {
  }

  lemma JoinLinked(es: PoolEntries, parents: ParentMap, known: set<Id>, x: Id, e: PoolEntry)
    requires Graph(es) && Linked(es, parents, known) && x !in es && x !in known
    requires ParentIds(e.tx) <= es.Keys + known
    ensures var qs := ParentIds(e.tx) * es.Keys;
            var ancestors := Closure(es, qs);
            Linked(Join(es, x, e, ancestors), if ancestors == {} then parents else parents[x := qs], known)
  {
    hide Graph, LinkedAt, Closure;
    var qs := ParentIds(e.tx) * es.Keys;
    var ancestors := Closure(es, qs);
    var fs := Join(es, x, e, ancestors);
    var more := if ancestors == {} then parents else parents[x := qs];
    forall y | y in fs
      ensures LinkedAt(fs, more, known, y)
    {
      if y == x {
        JoinedAt(es, parents, known, x, e);
      } else {
        OthersLinkedAt(es, parents, known, x, e, ancestors, more, y);
      }
    }
  }

  lemma JoinedAt(es: PoolEntries, parents: ParentMap, known: set<Id>, x: Id, e: PoolEntry)
    requires parents.Keys <= es.Keys && x !in es && x !in known && ParentIds(e.tx) <= es.Keys + known
    ensures var qs := ParentIds(e.tx) * es.Keys;
            var ancestors := Closure(es, qs);
            LinkedAt(Join(es, x, e, ancestors), if ancestors == {} then parents else parents[x := qs], known, x)
  {
    var qs := ParentIds(e.tx) * es.Keys;
    var ancestors := Closure(es, qs);
    var fs := Join(es, x, e, ancestors);
    assert qs <= ancestors;
    assert ParentIds(e.tx) * fs.Keys == qs;
    ClosureSame(es, fs, qs);
  }

  lemma OthersLinkedAt(es: PoolEntries, parents: ParentMap, known: set<Id>, x: Id, e: PoolEntry,
                       ancestors: set<Id>, more: ParentMap, y: Id)
    requires x !in es && x !in known && y in es && LinkedAt(es, parents, known, y)
    requires ParentsOf(more, y) == ParentsOf(parents, y)
    ensures LinkedAt(Join(es, x, e, ancestors), more, known, y)
  {
    hide Closure;
    var fs, qs := Join(es, x, e, ancestors), ParentsOf(parents, y);
    assert x !in ParentIds(es[y].tx);
    assert ParentIds(es[y].tx) * fs.Keys == qs;
    assert qs <= es.Keys;
    ClosureSame(es, fs, qs);
  }

  lemma ClosureSame(es: PoolEntries, fs: PoolEntries, qs: set<Id>)
    requires forall q :: q in qs ==> q in es && q in fs && es[q].ancestors == fs[q].ancestors
    ensures Closure(es, qs) == Closure(fs, qs)
  {
  }

  // -------------------------------------------------------- the pool as a whole

  /** Entries under their own id, of positive size, spending nothing twice. */
  ghost predicate Shaped(es: PoolEntries) {
    forall x :: x in es ==>
      && es[x].tx.id == x && es[x].vsize >= 1
      && forall i, j :: 0 <= i < j < |es[x].tx.vin| ==> es[x].tx.vin[i].prev != es[x].tx.vin[j].prev
  }

  ghost predicate NoShare(es: PoolEntries) {
    forall x, y :: x in es && y in es && x != y ==> Inputs(es[x].tx) !! Inputs(es[y].tx)
  }

  /** Everything kept beside the entries agrees with them, whatever the relations between them are. */
  ghost predicate Core(p: Pool) {
    && Shaped(p.entries) && NoShare(p.entries)
    && SpentIs(p.spent, AllInputs(p.entries))
    && p.totals == TotalsOf(p.entries)
    && Listed(p.byFee, p.entries.Keys) && SortedBy(p.byFee, RateKeys(p.entries))
    && Listed(p.byTime, p.entries.Keys) && SortedBy(p.byTime, TimeKeys(p.entries))
  }

  lemma SameEntry(e: PoolEntry, f: PoolEntry)
    requires e.Bare() == f.Bare()
    ensures e.tx == f.tx && e.size == f.size && e.vsize == f.vsize && e.weight == f.weight && e.fee == f.fee && e.time == f.time
    ensures e.FeeRate() == f.FeeRate()
  {
  }

  // What is kept beside the entries depends on the transactions and their figures alone.
  lemma SameFigures(es: PoolEntries, fs: PoolEntries)
    requires SameBodies(es, fs)
    ensures Sizes(es) == Sizes(fs) && Vsizes(es) == Vsizes(fs) && Weights(es) == Weights(fs) && FeesOf(es) == FeesOf(fs)
    ensures RateKeys(es) == RateKeys(fs) && TimeKeys(es) == TimeKeys(fs) && AllInputs(es) == AllInputs(fs)
    ensures Shaped(es) ==> Shaped(fs)
    ensures NoShare(es) ==> NoShare(fs)
  {
    hide PoolEntry.FeeRate, PoolEntry.Bare, AllInputs, Shaped, NoShare;
    forall x | x in es
      ensures es[x].tx == fs[x].tx && es[x].vsize == fs[x].vsize && es[x].size == fs[x].size
      ensures es[x].weight == fs[x].weight && es[x].fee == fs[x].fee && es[x].time == fs[x].time
      ensures es[x].FeeRate() == fs[x].FeeRate()
    {
      SameEntry(es[x], fs[x]);
    }
    SameInputs(es, fs);
  }

  lemma SameInputs(es: PoolEntries, fs: PoolEntries)
    requires es.Keys == fs.Keys && forall x :: x in es ==> es[x].tx == fs[x].tx && es[x].vsize == fs[x].vsize
    ensures AllInputs(es) == AllInputs(fs)
    ensures Shaped(es) ==> Shaped(fs)
    ensures NoShare(es) ==> NoShare(fs)
  {
  }

  lemma CoreSameBodies(p: Pool, fs: PoolEntries)
    requires Core(p) && SameBodies(p.entries, fs)
    ensures Core(p.(entries := fs))
  {
    SameFigures(p.entries, fs);
    assert p.entries.Keys == fs.Keys;
    hide SameBodies, Shaped, NoShare, SpentIs, Listed, SortedBy, Sum, AllInputs, RateKeys, TimeKeys, Sizes, Vsizes, Weights, FeesOf;
  }

  /** One entry leaves: it is deleted, and discarded from the sets that its own sets point to. */
  function Drop(es: PoolEntries, x: Id): PoolEntries
    requires x in es
  {
    map y | y in es && y != x ::
      es[y].(ancestors := if y in es[x].descendants then es[y].ancestors - {x} else es[y].ancestors,
             descendants := if y in es[x].ancestors then es[y].descendants - {x} else es[y].descendants)
  }

  lemma DropIsRestrict(es: PoolEntries, x: Id)
    requires Graph(es) && x in es
    ensures Drop(es, x) == Restrict(es, {x})
  {
    forall y | y in es && y != x
      ensures Drop(es, x)[y] == Restrict(es, {x})[y]
    {
      if y !in es[x].descendants {
        assert x !in es[y].ancestors;
        assert es[y].ancestors - {x} == es[y].ancestors;
      }
      if y !in es[x].ancestors {
        assert x !in es[y].descendants;
        assert es[y].descendants - {x} == es[y].descendants;
      }
    }
  }

  lemma CoreWithout(p: Pool, x: Id, fs: PoolEntries, spent: SpentIndex, totals: Totals)
    requires Core(p) && x in p.entries && SameBodies(p.entries - {x}, fs)
    requires SpentIs(spent, AllInputs(p.entries) - Inputs(p.entries[x].tx))
    requires var t, e := p.totals, p.entries[x];
             totals == Totals(t.size - e.size, t.vsize - e.vsize, t.weight - e.weight, t.fee - e.fee)
    ensures Core(p.(entries := fs, spent := spent, totals := totals, byFee := Without(p.byFee, x), byTime := Without(p.byTime, x)))
  {
    hide Shaped, NoShare, SpentIs, AllInputs, Sum, Listed, SortedBy, RateKeys, TimeKeys, Sizes, Vsizes, Weights, FeesOf, Without;
    var es := p.entries;
    TotalsWithout(es, fs, x);
    InputsWithout(es, fs, x);
    ShapedWithout(es, fs, x);
    assert fs.Keys == es.Keys - {x};
    ListWithout(es, fs, x, p.byFee, RateKeys(es), RateKeys(fs));
    ListWithout(es, fs, x, p.byTime, TimeKeys(es), TimeKeys(fs));
  }

  lemma ListWithout(es: PoolEntries, fs: PoolEntries, x: Id, s: seq<Id>, f: map<Id, real>, g: map<Id, real>)
    requires SameBodies(es - {x}, fs) && Listed(s, es.Keys) && SortedBy(s, f)
    requires (f == RateKeys(es) && g == RateKeys(fs)) || (f == TimeKeys(es) && g == TimeKeys(fs))
    ensures Listed(Without(s, x), es.Keys - {x}) && SortedBy(Without(s, x), g)
  {
    hide PoolEntry.FeeRate, PoolEntry.Bare, AllInputs, Shaped, NoShare, Listed, SortedBy, SameBodies, Without;
    WithoutKeeps(s, f, x, es.Keys);
    ListedIn(Without(s, x), es.Keys - {x});
    SameFigures(es - {x}, fs);
    forall y | y in es.Keys - {x}
      ensures y in f && y in g && g[y] == f[y]
    {
      assert y in es - {x};
      assert RateKeys(es - {x})[y] == RateKeys(es)[y] && TimeKeys(es - {x})[y] == TimeKeys(es)[y];
    }
    SortedAgain(Without(s, x), f, g);
  }

  lemma ListedIn(s: seq<Id>, ids: set<Id>)
    requires Listed(s, ids)
    ensures forall i :: 0 <= i < |s| ==> s[i] in ids
  {
    assert forall i :: 0 <= i < |s| ==> s[i] in s;
  }

  lemma ShapedWithout(es: PoolEntries, fs: PoolEntries, x: Id)
    requires Shaped(es) && NoShare(es) && SameBodies(es - {x}, fs)
    ensures Shaped(fs) && NoShare(fs)
  {
    SameFigures(es - {x}, fs);
  }

  lemma InputsWithout(es: PoolEntries, fs: PoolEntries, x: Id)
    requires NoShare(es) && x in es && SameBodies(es - {x}, fs)
    ensures AllInputs(fs) == AllInputs(es) - Inputs(es[x].tx)
  {
    forall y | y in fs
      ensures fs[y].tx == es[y].tx
    {
      assert (es - {x})[y].Bare() == fs[y].Bare();
    }
  }

  lemma CoreWith(p: Pool, x: Id, e: PoolEntry, fs: PoolEntries, spent: SpentIndex, totals: Totals, byFee: seq<Id>, byTime: seq<Id>)
    requires Core(p) && x !in p.entries && SameBodies(p.entries[x := e], fs) && Shaped(map[x := e])
    requires Inputs(e.tx) !! AllInputs(p.entries) && SpentIs(spent, AllInputs(p.entries) + Inputs(e.tx))
    requires var t := p.totals; totals == Totals(t.size + e.size, t.vsize + e.vsize, t.weight + e.weight, t.fee + e.fee)
    requires SortedBy(p.byFee, RateKeys(fs)) ==> byFee == Place(p.byFee, RateKeys(fs), x)
    requires SortedBy(p.byTime, TimeKeys(fs)) ==> byTime == Place(p.byTime, TimeKeys(fs), x)
    ensures Core(p.(entries := fs, spent := spent, totals := totals, byFee := byFee, byTime := byTime))
  {
    hide Shaped, NoShare, SpentIs, AllInputs, Sum, Listed, SortedBy, RateKeys, TimeKeys, Sizes, Vsizes, Weights, FeesOf, Place;
    var all := p.entries[x := e];
    CoreWithRows(p, x, e);
    SameFigures(all, fs);
    assert fs.Keys == p.entries.Keys + {x};
    ListWith(p.entries, x, e, p.byFee, RateKeys(p.entries), RateKeys(all));
    ListWith(p.entries, x, e, p.byTime, TimeKeys(p.entries), TimeKeys(all));
  }

  lemma ListWith(es: PoolEntries, x: Id, e: PoolEntry, s: seq<Id>, f: map<Id, real>, g: map<Id, real>)
    requires x !in es && Listed(s, es.Keys) && SortedBy(s, f)
    requires var all := es[x := e];
             (f == RateKeys(es) && g == RateKeys(all)) || (f == TimeKeys(es) && g == TimeKeys(all))
    ensures SortedBy(s, g) && x in g
    ensures Listed(Place(s, g, x), es.Keys + {x}) && SortedBy(Place(s, g, x), g)
  {
    ListedIn(s, es.Keys);
    SortedAgain(s, f, g);
    PlaceSorted(s, g, x, es.Keys);
  }

  lemma CoreWithRows(p: Pool, x: Id, e: PoolEntry)
    requires Core(p) && x !in p.entries && Shaped(map[x := e]) && Inputs(e.tx) !! AllInputs(p.entries)
    ensures var all := p.entries[x := e];
            && Shaped(all) && NoShare(all) && AllInputs(all) == AllInputs(p.entries) + Inputs(e.tx)
            && var t := p.totals;
            TotalsOf(all) == Totals(t.size + e.size, t.vsize + e.vsize, t.weight + e.weight, t.fee + e.fee)
  {
    hide TotalsOf, SpentIs, Listed, SortedBy, Inputs, RateKeys, TimeKeys;
    var es, all := p.entries, p.entries[x := e];
    assert all - {x} == es;
    assert TotalsOf(es) == p.totals;
    TotalsJoined(es, x, e);
    assert map[x := e][x] == e;
    hide Shaped, AllInputs;
    forall y, z | y in all && z in all && y != z
      ensures Inputs(all[y].tx) !! Inputs(all[z].tx)
    {
      if y == x {
        InputsAmong(es, z);
      } else if z == x {
        InputsAmong(es, y);
      }
    }
    assert AllInputs(all) == AllInputs(es) + Inputs(e.tx) by {
      AllInputsWith(es, x, e);
    }
  }

  lemma InputsAmong(es: PoolEntries, x: Id)
    requires x in es
    ensures Inputs(es[x].tx) <= AllInputs(es)
  {
    hide Inputs;
  }

  lemma AllInputsWith(es: PoolEntries, x: Id, e: PoolEntry)
    requires x !in es
    ensures AllInputs(es[x := e]) == AllInputs(es) + Inputs(e.tx)
  {
    hide Inputs;
    forall o | o in AllInputs(es) + Inputs(e.tx)
      ensures o in AllInputs(es[x := e])
    {
      if o in AllInputs(es) {
        var y :| y in es && o in Inputs(es[y].tx);
        assert es[x := e][y] == es[y];
      } else {
        assert es[x := e][x] == e;
      }
    }
  }

  lemma TotalsJoined(es: PoolEntries, x: Id, e: PoolEntry)
    requires x !in es
    ensures var t := TotalsOf(es);
            TotalsOf(es[x := e]) == Totals(t.size + e.size, t.vsize + e.vsize, t.weight + e.weight, t.fee + e.fee)
  {
    var all := es[x := e];
    assert all - {x} == es;
    TotalsWithout(all, es, x);
  }

  // ---------------------------------------------------------------------- limits

  datatype Limits = Limits(maxSize: int, maxWeight: int, maxTransactions: int, maxAncestors: nat, maxDescendants: nat,
                           maxAncestorVsize: int, maxDescendantVsize: int, maxPackageCount: int, maxPackageWeight: int) {
    predicate CanAccept(size: nat, weight: nat, count: nat, currentSize: int, currentWeight: int) {
      currentSize + size <= maxSize && currentWeight + weight <= maxWeight && count + 1 <= maxTransactions
    }
  }

  ghost predicate AncestorsBounded(l: Limits, es: PoolEntries, x: Id)
    requires x in es
  {
    && |es[x].ancestors| <= l.maxAncestors
    && es[x].vsize + Sum(Vsizes(es), es[x].ancestors) <= l.maxAncestorVsize
  }

  // A transaction on which nothing depends was never measured against the descendant limits.
  ghost predicate DescendantsBounded(l: Limits, es: PoolEntries, x: Id)
    requires x in es
  {
    es[x].descendants != {} ==>
      && |es[x].descendants| <= l.maxDescendants
      && es[x].vsize + Sum(Vsizes(es), es[x].descendants) <= l.maxDescendantVsize
  }

  ghost predicate RelationsBounded(l: Limits, es: PoolEntries) {
    forall x :: x in es ==> AncestorsBounded(l, es, x) && DescendantsBounded(l, es, x)
  }

  ghost predicate WithinLimits(l: Limits, p: Pool) {
    && p.totals.size <= l.maxSize && p.totals.weight <= l.maxWeight && |p.entries| <= l.maxTransactions
    && RelationsBounded(l, p.entries)
  }

  lemma {:induction false} CardMonotone(a: set<Id>, b: set<Id>)
    requires a <= b
    ensures |a| <= |b|
    decreases b
  {
    if a != {} {
      SomeId(a);
      var x :| x in a;
      CardMonotone(a - {x}, b - {x});
    }
  }

  lemma SumShrinks(es: PoolEntries, gone: set<Id>, ids: set<Id>)
    ensures Sum(Vsizes(Restrict(es, gone)), ids - gone) <= Sum(Vsizes(es), ids)
  {
    var fs := Restrict(es, gone);
    SumSame(Vsizes(fs), Vsizes(es), ids - gone);
    SumMonotone(Vsizes(es), ids - gone, ids);
  }

  lemma RestrictBounded(l: Limits, es: PoolEntries, gone: set<Id>)
    requires RelationsBounded(l, es)
    ensures RelationsBounded(l, Restrict(es, gone))
  {
    hide Vsizes, Sum;
    forall x | x in Restrict(es, gone)
      ensures AncestorsBounded(l, Restrict(es, gone), x) && DescendantsBounded(l, Restrict(es, gone), x)
    {
      assert AncestorsBounded(l, es, x) && DescendantsBounded(l, es, x);
      SumShrinks(es, gone, es[x].ancestors);
      SumShrinks(es, gone, es[x].descendants);
      CardMonotone(es[x].ancestors - gone, es[x].ancestors);
      CardMonotone(es[x].descendants - gone, es[x].descendants);
    }
  }

  lemma TotalsShrink(es: PoolEntries, fs: PoolEntries)
    requires Shrunk(es, fs)
    ensures TotalsOf(fs).size <= TotalsOf(es).size && TotalsOf(fs).weight <= TotalsOf(es).weight && |fs| <= |es|
  {
    forall x | x in fs
      ensures es[x].size == fs[x].size && es[x].weight == fs[x].weight
    {
      SameEntry(es[x], fs[x]);
    }
    SumSame(Sizes(fs), Sizes(es), fs.Keys);
    SumSame(Weights(fs), Weights(es), fs.Keys);
    SumMonotone(Sizes(es), fs.Keys, es.Keys);
    SumMonotone(Weights(es), fs.Keys, es.Keys);
    CardMonotone(fs.Keys, es.Keys);
  }

  /** The limits hold again after a transaction joined, provided it and its ancestors were measured. */
  lemma JoinBounded(l: Limits, es: PoolEntries, x: Id, e: PoolEntry, ancestors: set<Id>)
    requires Graph(es) && RelationsBounded(l, es) && x !in es && ancestors <= es.Keys
    requires |ancestors| <= l.maxAncestors && e.vsize + Sum(Vsizes(es), ancestors) <= l.maxAncestorVsize
    requires var fs := Join(es, x, e, ancestors);
             forall a :: a in ancestors ==> |fs[a].descendants| <= l.maxDescendants
                                            && fs[a].vsize + Sum(Vsizes(fs), fs[a].descendants) <= l.maxDescendantVsize
    ensures RelationsBounded(l, Join(es, x, e, ancestors))
  {
    hide Vsizes, Sum, Graph;
    var fs := Join(es, x, e, ancestors);
    forall y | y in fs
      ensures AncestorsBounded(l, fs, y) && DescendantsBounded(l, fs, y)
    {
      if y == x {
        JoinSum(es, x, e, ancestors, ancestors);
      } else {
        GraphOf(es, y);
        assert AncestorsBounded(l, es, y) && DescendantsBounded(l, es, y);
        JoinSum(es, x, e, ancestors, es[y].ancestors);
        if y !in ancestors {
          JoinSum(es, x, e, ancestors, es[y].descendants);
        }
      }
    }
  }

  lemma JoinSum(es: PoolEntries, x: Id, e: PoolEntry, ancestors: set<Id>, ids: set<Id>)
    requires x !in es && ids <= es.Keys
    ensures Sum(Vsizes(Join(es, x, e, ancestors)), ids) == Sum(Vsizes(es), ids)
  {
    SumSame(Vsizes(Join(es, x, e, ancestors)), Vsizes(es), ids);
  }

  /** Everything the pool promises. */
  ghost predicate PoolInv(l: Limits, p: Pool, known: set<Id>) {
    && Core(p) && Graph(p.entries) && Linked(p.entries, p.parents, known)
    && p.entries.Keys !! known && WithinLimits(l, p)
  }

  const EMPTY := Pool(map[], [], [], map[], map[], Totals(0, 0, 0, 0))

  predicate SomeRoom(l: Limits) {
    l.maxSize >= 0 && l.maxWeight >= 0 && l.maxTransactions >= 0
  }

  /** The pool of a fresh node keeps its promises, unless a limit is negative. */
  lemma EmptyIsGood(l: Limits)
    ensures Core(EMPTY)
    ensures forall known :: PoolInv(l, EMPTY, known) <==> SomeRoom(l)
  {
    assert AllInputs(EMPTY.entries) == {};
    assert EMPTY.entries.Keys == {};
    assert TotalsOf(EMPTY.entries) == Totals(0, 0, 0, 0);
  }

  // ------------------------------------------------------------------- admission

  lemma ClosedUnion(es: PoolEntries, a: set<Id>, b: set<Id>)
    requires DescendantClosed(es, a) && DescendantClosed(Restrict(es, a), b)
    ensures DescendantClosed(es, a + b)
  {
    forall x | x in es && x in a + b
      ensures es[x].descendants <= a + b
    {
      if x !in a {
        assert Restrict(es, a)[x].descendants <= b;
        assert es[x].descendants <= a + (es[x].descendants - a);
      }
    }
  }

  lemma ClosureIn(es: PoolEntries, qs: set<Id>)
    requires Graph(es) && qs <= es.Keys
    ensures Closure(es, qs) <= es.Keys
    ensures forall a :: a in Closure(es, qs) && a in es ==> es[a].ancestors <= Closure(es, qs)
  {
    hide Graph;
    forall a | a in Closure(es, qs)
      ensures a in es.Keys && es[a].ancestors <= Closure(es, qs)
    {
      if a !in qs {
        var q :| q in qs && q in es && a in es[q].ancestors;
        GraphOf(es, q);
        assert forall b :: b in es[q].ancestors ==> b in Closure(es, qs);
      } else {
        GraphOf(es, a);
        assert forall b :: b in es[a].ancestors ==> b in Closure(es, qs);
      }
    }
  }

  lemma JoinTotals(es: PoolEntries, x: Id, e: PoolEntry, ancestors: set<Id>)
    requires x !in es
    ensures var t, fs := TotalsOf(es), Join(es, x, e, ancestors);
            && |fs| == |es| + 1
            && TotalsOf(fs) == Totals(t.size + e.size, t.vsize + e.vsize, t.weight + e.weight, t.fee + e.fee)
  {
    hide Sum, Sizes, Vsizes, Weights, FeesOf, TotalsOf;
    var fs := Join(es, x, e, ancestors);
    TotalsJoined(es, x, e);
    JoinBodies(es, x, e, ancestors);
    hide Join, SameBodies;
    SameFigures(es[x := e], fs);
    SameTotals(es[x := e], fs);
    assert |fs.Keys| == |es.Keys| + 1;
  }

  lemma JoinBodies(es: PoolEntries, x: Id, e: PoolEntry, ancestors: set<Id>)
    ensures SameBodies(es[x := e], Join(es, x, e, ancestors))
    ensures Join(es, x, e, ancestors).Keys == es.Keys + {x}
  {
    var fs := Join(es, x, e, ancestors);
    assert fs.Keys == es[x := e].Keys;
    forall y | y in fs
      ensures es[x := e][y].Bare() == fs[y].Bare()
    {
    }
  }

  lemma SameTotals(es: PoolEntries, fs: PoolEntries)
    requires es.Keys == fs.Keys && Sizes(es) == Sizes(fs) && Vsizes(es) == Vsizes(fs)
    requires Weights(es) == Weights(fs) && FeesOf(es) == FeesOf(fs)
    ensures TotalsOf(es) == TotalsOf(fs)
  {
  }

  /** p became q: the entries in `gone` left, then e joined below the ancestors it had before that. */
  ghost predicate Admitted(l: Limits, p: Pool, known: set<Id>, e: PoolEntry, gone: set<Id>, q: Pool) {
    var direct := ParentIds(e.tx) - known;
    var ancestors, es := Closure(p.entries, direct), Restrict(p.entries, gone);
    && e.tx.id !in p.entries && e.tx.id !in known
    && gone <= p.entries.Keys && DescendantClosed(p.entries, gone)
    && ParentIds(e.tx) <= known + p.entries.Keys
    && |ancestors| <= l.maxAncestors && e.vsize + Sum(Vsizes(p.entries), ancestors) <= l.maxAncestorVsize
    && q.entries == Join(es, e.tx.id, e, ancestors)
    && q.parents == (if ancestors == {} then p.parents - gone else (p.parents - gone)[e.tx.id := direct])
    && (forall a :: a in ancestors && a in es ==> Room(l, q.entries, a))
    && q.totals.size <= l.maxSize && q.totals.weight <= l.maxWeight && |q.entries| <= l.maxTransactions
  }

  /** Within the descendant limits. */
  ghost predicate Room(l: Limits, es: PoolEntries, a: Id) {
    a in es && |es[a].descendants| <= l.maxDescendants && es[a].vsize + Sum(Vsizes(es), es[a].descendants) <= l.maxDescendantVsize
  }

  lemma AdmissionGraph(l: Limits, p: Pool, known: set<Id>, e: PoolEntry, gone: set<Id>, q: Pool)
    requires PoolInv(l, p, known) && Admitted(l, p, known, e, gone, q)
    ensures Graph(q.entries) <==> Closure(p.entries, ParentIds(e.tx) - known) !! gone
  {
    hide Core, Graph, Linked, Sum, Vsizes, RelationsBounded, DescendantClosed, Restrict, Join, Closure, Room;
    var es, x, direct := p.entries, e.tx.id, ParentIds(e.tx) - known;
    var ancestors := Closure(es, direct);
    ClosureIn(es, direct);
    RestrictGraph(es, gone);
    RestrictKeys(es, gone);
    JoinClosed(es, gone, ancestors);
    JoinGraph(Restrict(es, gone), x, e, ancestors);
  }

  lemma AdmissionLinked(l: Limits, p: Pool, known: set<Id>, e: PoolEntry, gone: set<Id>, q: Pool)
    requires PoolInv(l, p, known) && Admitted(l, p, known, e, gone, q)
    requires Closure(p.entries, ParentIds(e.tx) - known) !! gone
    ensures Linked(q.entries, q.parents, known) && RelationsBounded(l, q.entries) && q.entries.Keys !! known
  {
    hide Core, Graph, Linked, Sum, Vsizes, RelationsBounded, DescendantClosed, Restrict, Join, Closure, Room;
    var es, x, direct := p.entries, e.tx.id, ParentIds(e.tx) - known;
    var ancestors, fs := Closure(es, direct), Restrict(es, gone);
    ClosureIn(es, direct);
    RestrictGraph(es, gone);
    RestrictKeys(es, gone);
    ClosureStays(es, gone, direct);
    assert ParentIds(e.tx) * fs.Keys == direct;
    RestrictLinked(es, p.parents, known, gone);
    JoinLinked(fs, p.parents - gone, known, x, e);
    RestrictBounded(l, es, gone);
    SumKept(es, gone, ancestors);
    RoomMeans(l, q.entries, ancestors);
    JoinBounded(l, fs, x, e, ancestors);
    JoinBodies(fs, x, e, ancestors);
  }

  lemma RoomMeans(l: Limits, es: PoolEntries, ids: set<Id>)
    requires forall a :: a in ids ==> Room(l, es, a)
    ensures forall a :: a in ids ==> a in es && |es[a].descendants| <= l.maxDescendants
                                     && es[a].vsize + Sum(Vsizes(es), es[a].descendants) <= l.maxDescendantVsize
  {
  }

  /** Everything the pool promises after an admission holds exactly when no ancestor of the newcomer was among
      those that left to make room for it. */
  lemma AdmissionKeepsInv(l: Limits, p: Pool, known: set<Id>, e: PoolEntry, gone: set<Id>, q: Pool)
    requires PoolInv(l, p, known) && Admitted(l, p, known, e, gone, q) && Core(q)
    ensures PoolInv(l, q, known) <==> Closure(p.entries, ParentIds(e.tx) - known) !! gone
  {
    hide Core, Graph, Linked, Sum, Vsizes, RelationsBounded, DescendantClosed, Restrict, Join, Closure, Room, ParentIds;
    AdmissionGraph(l, p, known, e, gone, q);
    if Closure(p.entries, ParentIds(e.tx) - known) !! gone {
      AdmissionLinked(l, p, known, e, gone, q);
    }
  }

  lemma RestrictKeys(es: PoolEntries, gone: set<Id>)
    ensures Restrict(es, gone).Keys == es.Keys - gone
  {
  }

  lemma JoinClosed(es: PoolEntries, gone: set<Id>, ancestors: set<Id>)
    requires forall a :: a in ancestors && a in es ==> es[a].ancestors <= ancestors
    ensures forall a :: a in ancestors && a in Restrict(es, gone) ==> Restrict(es, gone)[a].ancestors <= ancestors
  {
  }

  lemma SumKept(es: PoolEntries, gone: set<Id>, ids: set<Id>)
    requires ids !! gone
    ensures Sum(Vsizes(Restrict(es, gone)), ids) == Sum(Vsizes(es), ids)
  {
    SumSame(Vsizes(Restrict(es, gone)), Vsizes(es), ids);
  }

  lemma ClosureStays(es: PoolEntries, gone: set<Id>, qs: set<Id>)
    requires Graph(es) && DescendantClosed(es, gone) && qs <= es.Keys && Closure(es, qs) !! gone
    ensures Closure(Restrict(es, gone), qs) == Closure(es, qs) && qs <= Restrict(es, gone).Keys
  {
    hide Graph, DescendantClosed;
    forall q | q in qs
      ensures q in Restrict(es, gone) && Restrict(es, gone)[q].ancestors == es[q].ancestors
    {
      assert q in Closure(es, qs);
      AncestorsStay(es, gone, q);
    }
    ClosureSame(es, Restrict(es, gone), qs);
  }

  /** Removing transactions with all that depends on them keeps everything the pool promises. */
  lemma RemovalKeepsInv(l: Limits, p: Pool, known: set<Id>, gone: set<Id>, q: Pool)
    requires PoolInv(l, p, known) && DescendantClosed(p.entries, gone)
    requires Core(q) && q.entries == Restrict(p.entries, gone) && q.parents == p.parents - gone
    ensures PoolInv(l, q, known)
  {
    hide Core, Graph, Linked, RelationsBounded, DescendantClosed, Restrict;
    RestrictGraph(p.entries, gone);
    RestrictKeys(p.entries, gone);
    RestrictLinked(p.entries, p.parents, known, gone);
    RestrictBounded(l, p.entries, gone);
    CoreTotals(p);
    CoreTotals(q);
    TotalsShrink(p.entries, q.entries);
  }

  lemma CoreTotals(p: Pool)
    requires Core(p)
    ensures p.totals == TotalsOf(p.entries)
  {
  }

  /** The first list runs from the highest fee rate down, the second from the earliest entry on. */
  lemma ListsInOrder(p: Pool, i: nat, j: nat)
    requires Core(p) && i < j
    ensures j < |p.byFee| ==>
              && p.byFee[i] in p.entries && p.byFee[j] in p.entries
              && var e, f := p.entries[p.byFee[i]], p.entries[p.byFee[j]];
              e.vsize >= 1 && f.vsize >= 1 && e.fee as real / e.vsize as real >= f.fee as real / f.vsize as real
    ensures j < |p.byTime| ==>
              && p.byTime[i] in p.entries && p.byTime[j] in p.entries
              && p.entries[p.byTime[i]].time <= p.entries[p.byTime[j]].time
  {
    hide AllInputs, NoShare, SpentIs, TotalsOf;
    ListedIn(p.byFee, p.entries.Keys);
    ListedIn(p.byTime, p.entries.Keys);
  }
}
