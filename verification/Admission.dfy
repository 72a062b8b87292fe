/** Admission to the memory pool, stated on values: the checks and their order, what
    is evicted and replaced, and when the pool's promises survive. */
module Admission {
  import opened Ledger
  import opened PoolSpec

  /** The chain as the pool sees it: coins, ids in `transactions`, best height. */
  datatype ChainView = ChainView(coins: map<OutPoint, Coin>, known: set<Id>, height: int)

  // Sizes, policy, consensus checks on one transaction, and scripts are functions of the transaction.
  datatype PoolEnv = PoolEnv(limits: Limits, minRelayFee: nat, maxMoney: int, maturity: int,
                             sizeOf: Tx -> nat, weightOf: Tx -> nat, standard: Tx -> bool,
                             consensusOk: (Tx, int) -> bool, scriptOk: (Tx, nat, Coin) -> bool)

  datatype AddReply =
    | Added
    | AlreadyInMempool | RbfPolicy | ValidationFailed | NonStandard | FeeTooLow | MissingParents
    | TooManyAncestors | AncestorPackageTooLarge | MempoolLimits
    | TooManyDescendants | DescendantPackageTooLarge {
    predicate Early() {
      !Added? && !MempoolLimits? && !TooManyDescendants? && !DescendantPackageTooLarge?
    }
  }

  /** ceil(weight / 4), at least 1. */
  function VirtualSize(weight: nat): (v: nat)
    ensures v >= 1 && (weight > 0 ==> 4 * (v - 1) < weight <= 4 * v)
  {
    if (weight + 3) / 4 > 1 then (weight + 3) / 4 else 1
  }

  function Signals(tx: Tx): bool {
    exists i :: 0 <= i < |tx.vin| && tx.vin[i].sequence < 0xffff_fffe
  }

  // ----------------------------------------------------------------------- walks

  // Everything that any descendant or ancestor set mentions; bounds the walks.
  function Mentioned(es: PoolEntries): set<Id> {
    es.Keys + (set x, y | x in es && y in es[x].descendants :: y) + (set x, y | x in es && y in es[x].ancestors :: y)
  }

  /** What is reached over descendant sets. */
  function Below(es: PoolEntries, x: Id): set<Id> {
    if x in es then es[x].descendants else {}
  }

  predicate Distinct(s: seq<Id>) {
    forall i, j :: 0 <= i < j < |s| ==> s[i] != s[j]
  }

  lemma DistinctSnoc(s: seq<Id>, x: Id)
    requires Distinct(s) && x !in s
    ensures Distinct(s + [x]) && forall y :: y in s + [x] <==> y in s || y == x
  {
  }

  lemma MentionedHolds(es: PoolEntries, x: Id)
    requires x in es
    ensures es[x].ancestors <= Mentioned(es) && es[x].descendants <= Mentioned(es)
  {
    forall y | y in es[x].ancestors
      ensures y in Mentioned(es)
    {
    }
    forall y | y in es[x].descendants
      ensures y in Mentioned(es)
    {
    }
  }

  lemma SmallerRest(all: set<Id>, a: set<Id>, b: set<Id>)
    requires a <= b <= all && a != b
    ensures |all - b| < |all - a|
  {
    SomeId(b - a);
    assert b == a + (b - a);
    var x :| x in b - a;
    CardMonotone((all - b) + {x}, all - a);
  }

  lemma BelowStep(es: PoolEntries, x: Id, d: Id)
    requires Graph(es) && d in es && (d == x || d in Below(es, x))
    ensures es[d].descendants <= Below(es, x)
  {
    if d != x {
      GraphOf(es, x);
    }
  }

  lemma ClosureHolds(es: PoolEntries, from: set<Id>)
    ensures from <= Closure(es, from)
  {
  }

  lemma ClosureStep(es: PoolEntries, from: set<Id>, q: Id)
    requires Graph(es) && from <= es.Keys && q in Closure(es, from) && q in es
    ensures es[q].ancestors <= Closure(es, from)
  {
    var p := q;
    if q !in from {
      p :| p in from && p in es && q in es[p].ancestors;
      GraphOf(es, p);
    }
    assert es[q].ancestors <= es[p].ancestors;
    assert forall a :: a in es[p].ancestors ==> a in Closure(es, from);
  }

  lemma ClosureReached(es: PoolEntries, from: set<Id>, found: set<Id>)
    requires Graph(es) && from <= found <= Closure(es, from)
    requires Pending(es, found, [])
    ensures found == Closure(es, from)
  {
  }

  // The ancestors of what was found are found or queued.
  ghost predicate Pending(es: PoolEntries, found: set<Id>, queue: seq<Id>) {
    forall q, a :: q in found && q in es && a in es[q].ancestors ==> a in found || a in queue
  }

  lemma PendingNone(es: PoolEntries, queue: seq<Id>)
    ensures Pending(es, {}, queue)
  {
  }

  lemma PendingStep(es: PoolEntries, before: set<Id>, whole: seq<Id>, current: Id, found: set<Id>, queue: seq<Id>)
    requires Pending(es, before, whole) && found == before + {current}
    requires forall q :: q in whole ==> q == current || q in queue
    requires current !in before && current in es ==> forall a :: a in es[current].ancestors ==> a in found || a in queue
    ensures Pending(es, found, queue)
  {
  }

  // --------------------------------------------------------------------- removal

  /** What a removal takes along. */
  function Removed(es: PoolEntries, x: Id, includeDescendants: bool): set<Id> {
    if x !in es then {} else {x} + if includeDescendants then es[x].descendants else {}
  }

  lemma RemovedClosed(es: PoolEntries, x: Id)
    requires Graph(es)
    ensures Removed(es, x, true) <= es.Keys && DescendantClosed(es, Removed(es, x, true))
  {
    if x in es {
      GraphOf(es, x);
    }
  }

  /** x gone from the sets of those that e names. */
  function Discarded(es: PoolEntries, x: Id, e: PoolEntry): PoolEntries {
    map y | y in es ::
      es[y].(ancestors := if y in e.descendants then es[y].ancestors - {x} else es[y].ancestors,
             descendants := if y in e.ancestors then es[y].descendants - {x} else es[y].descendants)
  }

  lemma DiscardedIsDrop(es: PoolEntries, x: Id)
    requires x in es
    ensures Discarded(es - {x}, x, es[x]) == Drop(es, x)
  {
  }

  lemma DropBodies(es: PoolEntries, x: Id)
    requires x in es
    ensures SameBodies(es - {x}, Drop(es, x))
  {
  }

  lemma ShrunkSelf(es: PoolEntries)
    ensures Shrunk(es, es)
  {
  }

  lemma ShrunkStep(es: PoolEntries, fs: PoolEntries, gs: PoolEntries, x: Id)
    requires Shrunk(es, fs) && x in fs && gs == Drop(fs, x)
    ensures Shrunk(es, gs)
  {
    DropBodies(fs, x);
    forall y | y in gs
      ensures es[y].Bare() == gs[y].Bare()
    {
      assert (fs - {x})[y].Bare() == gs[y].Bare();
    }
  }

  lemma ShrunkTwice(es: PoolEntries, fs: PoolEntries, gs: PoolEntries)
    requires Shrunk(es, fs) && Shrunk(fs, gs)
    ensures Shrunk(es, gs)
  {
  }

  lemma ShrunkKeys(es: PoolEntries, fs: PoolEntries)
    requires Shrunk(es, fs)
    ensures fs.Keys <= es.Keys && forall x :: x in fs ==> fs[x].tx == es[x].tx
  {
    forall x | x in fs
      ensures fs[x].tx == es[x].tx
    {
      SameEntry(es[x], fs[x]);
    }
  }

  lemma RestrictOneMore(es: PoolEntries, gone: set<Id>, x: Id)
    requires Graph(es) && x in es && x !in gone
    ensures x in Restrict(es, gone) && Drop(Restrict(es, gone), x) == Restrict(es, gone + {x})
  {
    hide Graph;
    RestrictGraph(es, gone);
    DropIsRestrict(Restrict(es, gone), x);
    RestrictTwice(es, gone, {x});
  }

  lemma InRestrict(es: PoolEntries, gone: set<Id>, x: Id)
    ensures x in Restrict(es, gone) <==> x in es && x !in gone
  {
  }

  lemma CoreParts(p: Pool)
    requires Core(p)
    ensures SpentIs(p.spent, AllInputs(p.entries)) && Shaped(p.entries) && NoShare(p.entries)
    ensures p.totals == TotalsOf(p.entries)
  {
  }

  // The parent map is no part of the core.
  lemma CoreParents(p: Pool, parents: ParentMap)
    requires Core(p.(parents := parents))
    ensures Core(p)
  {
  }

  lemma CoreShaped(p: Pool)
    requires Core(p)
    ensures forall x :: x in p.entries ==> p.entries[x].tx.id == x
  {
  }

  // ---------------------------------------------------------- replacement policy

  predicate Clash(a: Tx, b: Tx) {
    exists i :: 0 <= i < |b.vin| && b.vin[i].prev in Inputs(a)
  }

  function Conflicts(es: PoolEntries, tx: Tx): set<Id> {
    set x | x in es && Clash(es[x].tx, tx)
  }

  lemma ConflictsPooled(es: PoolEntries, tx: Tx)
    ensures Conflicts(es, tx) <= es.Keys
  {
  }

  lemma ConflictsShrink(es: PoolEntries, fs: PoolEntries, tx: Tx)
    requires fs.Keys <= es.Keys && forall x :: x in fs ==> fs[x].tx == es[x].tx
    ensures Conflicts(fs, tx) <= Conflicts(es, tx)
  {
    forall x | x in Conflicts(fs, tx)
      ensures x in Conflicts(es, tx)
    {
      assert Clash(es[x].tx, tx);
    }
  }

  function Ignored(es: PoolEntries, conflicts: set<Id>): set<OutPoint> {
    set x, o | x in conflicts && x in es && o in Inputs(es[x].tx) :: o
  }

  lemma IgnoredNext(es: PoolEntries, some: set<Id>, x: Id)
    ensures Ignored(es, some + {x}) == Ignored(es, some) + if x in es then Inputs(es[x].tx) else {}
  {
    hide Inputs;
  }

  function Replacement(es: PoolEntries, conflicts: set<Id>): set<Id> {
    conflicts + set x, d | x in conflicts && x in es && d in es[x].descendants :: d
  }

  lemma ReplacementNext(es: PoolEntries, some: set<Id>, x: Id)
    ensures Replacement(es, some + {x}) == Replacement(es, some) + {x} + Below(es, x)
  {
    forall y | y in Below(es, x)
      ensures y in Replacement(es, some + {x})
    {
      assert x in some + {x};
    }
    forall y | y in Replacement(es, some)
      ensures y in Replacement(es, some + {x})
    {
      if y !in some {
        var c :| c in some && c in es && y in es[c].descendants;
        assert c in some + {x};
      }
    }
  }

  lemma ReplacementNone(es: PoolEntries)
    ensures Replacement(es, {}) == {}
  {
  }

  lemma ReplacementIn(es: PoolEntries, conflicts: set<Id>)
    requires Graph(es) && conflicts <= es.Keys
    ensures Replacement(es, conflicts) <= es.Keys && DescendantClosed(es, Replacement(es, conflicts))
  {
    hide Graph;
    var r := Replacement(es, conflicts);
    forall x | x in r
      ensures x in es.Keys && es[x].descendants <= r
    {
      var c := x;
      if x !in conflicts {
        c :| c in conflicts && c in es && x in es[c].descendants;
      }
      GraphOf(es, c);
      forall d | d in es[x].descendants
        ensures d in r
      {
        assert d in es[c].descendants;
      }
    }
  }

  lemma ReplacementClosed(es: PoolEntries, conflicts: set<Id>)
    requires Graph(es)
    ensures DescendantClosed(es, Replacement(es, conflicts))
  {
    hide Graph;
    var r := Replacement(es, conflicts);
    forall x | x in es && x in r
      ensures es[x].descendants <= r
    {
      var c := x;
      if x !in conflicts {
        c :| c in conflicts && c in es && x in es[c].descendants;
      }
      GraphOf(es, c);
      forall d | d in es[x].descendants
        ensures d in r
      {
        assert d in es[c].descendants;
      }
    }
  }

  lemma ReplacementReached(es: PoolEntries, conflicts: set<Id>)
    requires Graph(es) && conflicts <= es.Keys
    ensures forall y :: y in Replacement(es, conflicts) <==>
              y in es && (y in conflicts || exists c :: c in conflicts && c in es[y].ancestors)
  {
    hide Graph;
    forall y
      ensures y in Replacement(es, conflicts) <==> y in es && (y in conflicts || exists c :: c in conflicts && c in es[y].ancestors)
    {
      if y in Replacement(es, conflicts) && y !in conflicts {
        var c :| c in conflicts && c in es && y in es[c].descendants;
        GraphOf(es, c);
      }
      if y in es {
        GraphOf(es, y);
      }
    }
  }

  predicate ParentPath(parents: ParentMap, x: Id, y: Id, path: seq<Id>) {
    && path != [] && path[0] == x && path[|path| - 1] == y
    && forall i :: 0 < i < |path| ==> path[i] in ParentsOf(parents, path[i - 1])
  }

  /** y is x or reached from it over recorded parents. */
  ghost predicate OnParentPath(parents: ParentMap, x: Id, y: Id) {
    exists path: seq<Id> :: ParentPath(parents, x, y, path)
  }

  lemma PathHere(parents: ParentMap, x: Id)
    ensures OnParentPath(parents, x, x)
  {
    assert ParentPath(parents, x, x, [x]);
  }

  lemma PathUp(parents: ParentMap, x: Id, q: Id, y: Id)
    requires q in ParentsOf(parents, x) && OnParentPath(parents, q, y)
    ensures OnParentPath(parents, x, y)
  {
    var path: seq<Id> :| ParentPath(parents, q, y, path);
    assert ParentPath(parents, x, y, [x] + path);
  }

  /** None of these signals, and their pooled parents are all among the given ones. */
  ghost predicate Silent(es: PoolEntries, parents: ParentMap, some: set<Id>, all: set<Id>) {
    forall y :: y in some && y in es ==>
      !Signals(es[y].tx) && forall q :: q in ParentsOf(parents, y) ==> q in all || q !in es
  }

  lemma SilentMore(es: PoolEntries, parents: ParentMap, a: set<Id>, seenA: set<Id>, b: set<Id>, seenB: set<Id>)
    requires Silent(es, parents, a, seenA) && Silent(es, parents, b, seenB) && seenA <= seenB
    ensures Silent(es, parents, a + b, seenB)
  {
  }

  lemma SilentNone(es: PoolEntries, parents: ParentMap, all: set<Id>)
    ensures Silent(es, parents, {}, all)
  {
  }

  /** One that does not signal joins the silent ones once its parents have been looked at. */
  lemma SilentWith(es: PoolEntries, parents: ParentMap, x: Id, seen: set<Id>, all: set<Id>)
    requires x in es && !Signals(es[x].tx) && x in all && x !in seen
    requires Silent(es, parents, all - seen - {x}, all)
    requires forall q :: q in ParentsOf(parents, x) ==> q in all || q !in es
    ensures Silent(es, parents, all - seen, all)
  {
  }

  /** Ancestors have fewer ancestors: the number of ancestors ranks the pool. */
  lemma AncestorLess(es: PoolEntries, x: Id, a: Id)
    requires Graph(es) && x in es && a in es[x].ancestors
    ensures a in es && es[a].ancestors <= es[x].ancestors && |es[a].ancestors| < |es[x].ancestors|
  {
    GraphOf(es, x);
    GraphOf(es, a);
    CardMonotone(es[a].ancestors + {a}, es[x].ancestors);
  }

  lemma {:induction false} AncestorsInSilent(es: PoolEntries, parents: ParentMap, known: set<Id>, r: set<Id>, x: Id)
    requires Graph(es) && Linked(es, parents, known) && Silent(es, parents, r, r) && x in es && x in r
    ensures es[x].ancestors <= r
    decreases |es[x].ancestors|
  {
    hide Graph;
    GraphOf(es, x);
    assert LinkedAt(es, parents, known, x);
    forall a | a in es[x].ancestors
      ensures a in r
    {
      if a !in ParentsOf(parents, x) {
        var q :| q in ParentsOf(parents, x) && q in es && a in es[q].ancestors;
        AncestorLess(es, x, q);
        AncestorsInSilent(es, parents, known, r, q);
      }
    }
  }

  lemma {:induction false} PathIsAncestor(es: PoolEntries, parents: ParentMap, known: set<Id>, x: Id, y: Id, path: seq<Id>)
    requires Graph(es) && Linked(es, parents, known) && x in es && ParentPath(parents, x, y, path)
    ensures y == x || y in es[x].ancestors
    decreases |path|
  {
    hide Graph;
    if |path| > 1 {
      var q := path[1];
      assert LinkedAt(es, parents, known, x);
      assert q in ParentsOf(parents, x);
      assert q in es[x].ancestors;
      GraphOf(es, x);
      assert ParentPath(parents, q, y, path[1..]) by {
        assert forall i :: 0 <= i < |path| - 1 ==> path[1..][i] == path[i + 1];
      }
      PathIsAncestor(es, parents, known, q, y, path[1..]);
    }
  }

  /** The transaction or one of its pooled ancestors opts in (rule 1 of BIP 125). */
  ghost predicate InheritsSignal(es: PoolEntries, x: Id)
    requires x in es
  {
    Signals(es[x].tx) || exists a :: a in es[x].ancestors && a in es && Signals(es[a].tx)
  }

  /** The recursive search finds a signal exactly when the transaction or one of its ancestors has one. */
  lemma ReplaceableMeans(es: PoolEntries, parents: ParentMap, known: set<Id>, x: Id, ok: bool, seen: set<Id>)
    requires Graph(es) && Linked(es, parents, known) && x in es
    requires ok ==> exists y :: OnParentPath(parents, x, y) && y in es && Signals(es[y].tx)
    requires !ok ==> x in seen && Silent(es, parents, seen - {}, seen)
    ensures ok == InheritsSignal(es, x)
  {
    hide Graph, Linked, Signals, ParentPath;
    if ok {
      var y :| OnParentPath(parents, x, y) && y in es && Signals(es[y].tx);
      var path: seq<Id> :| ParentPath(parents, x, y, path);
      PathIsAncestor(es, parents, known, x, y, path);
    } else {
      assert seen - {} == seen;
      AncestorsInSilent(es, parents, known, seen, x);
    }
  }

  /** An ancestor set is exactly what recorded parents lead to. */
  lemma {:induction false} AncestorHasPath(es: PoolEntries, parents: ParentMap, known: set<Id>, x: Id, a: Id)
    requires Graph(es) && Linked(es, parents, known) && x in es && a in es[x].ancestors
    ensures OnParentPath(parents, x, a)
    decreases |es[x].ancestors|
  {
    hide Graph;
    assert LinkedAt(es, parents, known, x);
    if a in ParentsOf(parents, x) {
      PathHere(parents, a);
      PathUp(parents, x, a, a);
    } else {
      var q :| q in ParentsOf(parents, x) && q in es && a in es[q].ancestors;
      AncestorLess(es, x, q);
      AncestorHasPath(es, parents, known, q, a);
      PathUp(parents, x, q, a);
    }
  }

  lemma AncestorsAreReached(es: PoolEntries, parents: ParentMap, known: set<Id>, x: Id, a: Id)
    requires Graph(es) && Linked(es, parents, known) && x in es && a != x
    ensures a in es[x].ancestors <==> OnParentPath(parents, x, a)
  {
    hide Graph, Linked;
    if a in es[x].ancestors {
      AncestorHasPath(es, parents, known, x, a);
    } else if OnParentPath(parents, x, a) {
      var path: seq<Id> :| ParentPath(parents, x, a, path);
      PathIsAncestor(es, parents, known, x, a, path);
    }
  }

  function Rate(fee: int, vsize: nat): real {
    if vsize > 0 then fee as real / vsize as real else 0.0
  }

  // A parent that was there already: not pooled, replaced as well, or a parent of something replaced.
  predicate OldParent(es: PoolEntries, parents: ParentMap, replaced: set<Id>, parent: Id) {
    parent in es && parent !in replaced ==> exists c :: c in replaced && c in es && parent in ParentsOf(parents, c)
  }

  /** When the replacement policy accepts; compare rules 1 to 5 of BIP 125. */
  ghost predicate MayReplace(env: PoolEnv, es: PoolEntries, parents: ParentMap, conflicts: set<Id>, tx: Tx, fee: int, vsize: nat)
    requires conflicts <= es.Keys
  {
    var replaced := Replacement(es, conflicts);
    && |replaced| <= 100
    && (replaced != {} ==>
          var oldFee, oldVsize := Sum(FeesOf(es), replaced), Sum(Vsizes(es), replaced);
          && oldVsize <= Max(1, env.limits.maxPackageWeight / 4)
          && (forall c :: c in conflicts ==> InheritsSignal(es, c))
          && (forall i :: 0 <= i < |tx.vin| ==> OldParent(es, parents, replaced, tx.vin[i].prev.txid))
          && fee > oldFee + env.minRelayFee * Max(1, vsize)
          && Rate(fee, vsize) > oldFee as real / Max(1, oldVsize) as real
          && forall c :: c in replaced && c in es ==> es[c].tx != tx)
  }

  // ------------------------------------------------------------------ validation

  /** A coin of the chain or an output of a pooled transaction. */
  function CoinFor(chain: ChainView, es: PoolEntries, o: OutPoint): Option<Coin> {
    if o in chain.coins then Some(chain.coins[o])
    else if o.txid in es && o.index < |es[o.txid].tx.vout| then
      var out := es[o.txid].tx.vout[o.index];
      Some(Coin(out.value, out.script, if chain.height >= 0 then chain.height else 0, false))
    else None
  }

  function InputValue(chain: ChainView, es: PoolEntries, tx: Tx, n: nat): int
    requires n <= |tx.vin|
    decreases n
  {
    if n == 0 then 0
    else InputValue(chain, es, tx, n - 1) +
         var coin := CoinFor(chain, es, tx.vin[n - 1].prev); if coin.Some? then coin.value.value else 0
  }

  /** Positive values, scripts present, every partial sum within the money limit. */
  predicate OutputsOk(env: PoolEnv, tx: Tx, n: nat)
    requires n <= |tx.vout|
    decreases n
  {
    n == 0 ||
    (OutputsOk(env, tx, n - 1) && tx.vout[n - 1].value > 0 && tx.vout[n - 1].script != [] && OutputValue(tx, n) <= env.maxMoney)
  }

  lemma {:induction false} OutputsStop(env: PoolEnv, tx: Tx, n: nat, m: nat)
    requires n <= m <= |tx.vout| && !OutputsOk(env, tx, n)
    ensures !OutputsOk(env, tx, m)
    decreases m
  {
    if n < m {
      OutputsStop(env, tx, n, m - 1);
    }
  }

  predicate InputFits(env: PoolEnv, chain: ChainView, es: PoolEntries, spent: SpentIndex, tx: Tx, ignored: set<OutPoint>, i: nat)
    requires i < |tx.vin|
  {
    var prev, coin := tx.vin[i].prev, CoinFor(chain, es, tx.vin[i].prev);
    && prev !in tx.Prevs(i)
    && coin.Some?
    && (coin.value.coinbase ==> chain.height + 1 - coin.value.height >= env.maturity)
    && (prev in ignored || !InSpent(spent, prev))
    && env.scriptOk(tx, i, coin.value)
  }

  /** When the pool's own validation accepts. */
  predicate PoolTxOk(env: PoolEnv, chain: ChainView, es: PoolEntries, spent: SpentIndex, tx: Tx, ignored: set<OutPoint>) {
    && !tx.IsCoinbase() && tx.vin != [] && tx.vout != [] && env.consensusOk(tx, chain.height + 1)
    && OutputsOk(env, tx, |tx.vout|)
    && tx.id !in chain.known
    && (forall i :: 0 <= i < |tx.vin| ==> InputFits(env, chain, es, spent, tx, ignored, i))
    && InputValue(chain, es, tx, |tx.vin|) >= OutputValue(tx, |tx.vout|)
  }

  // ------------------------------------------------------------------- insertion

  lemma CoreLists(p: Pool, x: Id, e: PoolEntry)
    requires Core(p) && x !in p.entries
    ensures var all := p.entries[x := e];
            && x in RateKeys(all) && x in TimeKeys(all)
            && (forall i :: 0 <= i < |p.byFee| ==> p.byFee[i] in RateKeys(all))
            && (forall i :: 0 <= i < |p.byTime| ==> p.byTime[i] in TimeKeys(all))
  {
    ListedIn(p.byFee, p.entries.Keys);
    ListedIn(p.byTime, p.entries.Keys);
  }

  lemma RoomSame(l: Limits, es: PoolEntries, fs: PoolEntries, b: Id)
    requires b in es && fs.Keys == es.Keys && fs[b] == es[b] && forall y :: y in es ==> fs[y].vsize == es[y].vsize
    ensures Room(l, fs, b) == Room(l, es, b)
  {
    assert Vsizes(fs) == Vsizes(es) by {
      assert forall y :: y in es ==> Vsizes(fs)[y] == Vsizes(es)[y];
    }
  }

  ghost predicate Unmentioned(es: PoolEntries, x: Id) {
    x !in es && forall y :: y in es ==> x !in es[y].ancestors && x !in es[y].descendants
  }

  lemma GraphUnmentioned(es: PoolEntries, x: Id)
    requires Graph(es) && x !in es
    ensures Unmentioned(es, x)
  {
    hide Graph;
    forall y | y in es
      ensures x !in es[y].ancestors && x !in es[y].descendants
    {
      GraphOf(es, y);
    }
  }

  /** Join after only some of the ancestors were told. */
  function Joining(es: PoolEntries, x: Id, e: PoolEntry, ancestors: set<Id>, done: set<Id>): PoolEntries {
    map y | y in es.Keys + {x} ::
      if y == x then e.(ancestors := ancestors, descendants := if x in done then {x} else {})
      else if y in done then es[y].(descendants := es[y].descendants + {x}) else es[y]
  }

  lemma JoiningNone(es: PoolEntries, x: Id, e: PoolEntry, ancestors: set<Id>)
    requires x !in es && e.descendants == {}
    ensures es[x := e.(ancestors := ancestors)] == Joining(es, x, e, ancestors, {})
  {
  }

  lemma JoinNone(l: Limits, es: PoolEntries, x: Id, e: PoolEntry)
    requires x !in es && e.ancestors == {} && e.descendants == {}
    ensures es[x := e] == Join(es, x, e, {}) && AllRoom(l, es[x := e], {})
  {
  }

  lemma JoiningKeys(es: PoolEntries, x: Id, e: PoolEntry, ancestors: set<Id>, done: set<Id>)
    ensures Joining(es, x, e, ancestors, done).Keys == es.Keys + {x}
  {
  }

  lemma JoiningNext(es: PoolEntries, x: Id, e: PoolEntry, ancestors: set<Id>, done: set<Id>, a: Id)
    requires x !in es && a !in done
    ensures var now := Joining(es, x, e, ancestors, done);
            (if a in now then now[a := now[a].(descendants := now[a].descendants + {x})] else now) ==
            Joining(es, x, e, ancestors, done + {a})
  {
    if a == x {
      var now := Joining(es, x, e, ancestors, done);
      assert now[x].descendants + {x} == {x};
    }
  }

  lemma JoiningAll(es: PoolEntries, x: Id, e: PoolEntry, ancestors: set<Id>)
    ensures Joining(es, x, e, ancestors, ancestors) == Join(es, x, e, ancestors)
  {
  }

  /** Whether a told ancestor has room does not depend on which others were told. */
  lemma JoiningRoom(l: Limits, es: PoolEntries, x: Id, e: PoolEntry, ancestors: set<Id>, done: set<Id>, a: Id)
    requires done <= ancestors && a in done && a in es.Keys + {x}
    ensures Room(l, Joining(es, x, e, ancestors, done), a) == Room(l, Joining(es, x, e, ancestors, ancestors), a)
  {
    RoomSame(l, Joining(es, x, e, ancestors, done), Joining(es, x, e, ancestors, ancestors), a);
  }

  lemma JoiningCore(p: Pool, es: PoolEntries, x: Id, e: PoolEntry, ancestors: set<Id>, done: set<Id>)
    requires Core(p) && p.entries == es[x := e] && x !in es
    ensures Core(p.(entries := Joining(es, x, e, ancestors, done)))
    ensures Shrunk(es[x := e], Joining(es, x, e, ancestors, done))
  {
    hide Core;
    CoreSameBodies(p, Joining(es, x, e, ancestors, done));
  }

  /** Taking the newcomer out again gives back the entries as they were. */
  lemma RolledBack(es: PoolEntries, x: Id, e: PoolEntry, ancestors: set<Id>, done: set<Id>)
    requires x !in es && done <= ancestors
    ensures var fs := Drop(Joining(es, x, e, ancestors, done), x);
            Shrunk(es, fs) && (Unmentioned(es, x) ==> fs == es)
  {
    var fs := Drop(Joining(es, x, e, ancestors, done), x);
    if Unmentioned(es, x) {
      forall y | y in es
        ensures fs[y] == es[y]
      {
        assert es[y].descendants - {x} == es[y].descendants;
        assert es[y].descendants + {x} - {x} == es[y].descendants;
      }
    }
  }

  // ------------------------------------------------------------------- admission

  function NewEntry(env: PoolEnv, chain: ChainView, es: PoolEntries, tx: Tx, now: int): PoolEntry {
    PoolEntry(tx, env.sizeOf(tx), VirtualSize(env.weightOf(tx)), env.weightOf(tx),
              InputValue(chain, es, tx, |tx.vin|) - OutputValue(tx, |tx.vout|), now, {}, {})
  }

  lemma NewEntryShaped(env: PoolEnv, chain: ChainView, es: PoolEntries, spent: SpentIndex, tx: Tx, now: int, ignored: set<OutPoint>)
    requires PoolTxOk(env, chain, es, spent, tx, ignored)
    ensures var e := NewEntry(env, chain, es, tx, now);
            Shaped(map[tx.id := e]) && e.tx == tx && e.ancestors == {} && e.descendants == {} && tx.id !in chain.known
  {
    forall i, j | 0 <= i < j < |tx.vin|
      ensures tx.vin[i].prev != tx.vin[j].prev
    {
      assert InputFits(env, chain, es, spent, tx, ignored, j);
      assert tx.vin[i].prev in tx.Prevs(j);
    }
  }

  /** The first check that a transaction fails, in the order they are made. */
  ghost function Screen(env: PoolEnv, p: Pool, chain: ChainView, tx: Tx, floorRate: real, packageRate: Option<real>, now: int):
    Option<AddReply>
  {
    var es := p.entries;
    var e, conflicts := NewEntry(env, chain, es, tx, now), Conflicts(es, tx);
    var ancestors := Closure(es, ParentIds(tx) - chain.known);
    if tx.id in es then Some(AlreadyInMempool)
    else if conflicts != {} && !MayReplace(env, es, p.parents, conflicts, tx, e.fee, e.vsize) then Some(RbfPolicy)
    else if !PoolTxOk(env, chain, es, p.spent, tx, Ignored(es, conflicts)) then Some(ValidationFailed)
    else if !env.standard(tx) then Some(NonStandard)
    else if e.FeeRate() < floorRate && !(packageRate.Some? && packageRate.value >= floorRate) then Some(FeeTooLow)
    else if !(ParentIds(tx) <= chain.known + es.Keys) then Some(MissingParents)
    else if |ancestors| > env.limits.maxAncestors then Some(TooManyAncestors)
    else if e.vsize + Sum(Vsizes(es), ancestors) > env.limits.maxAncestorVsize then Some(AncestorPackageTooLarge)
    else None
  }

  predicate Accepts(l: Limits, e: PoolEntry, p: Pool) {
    l.CanAccept(e.size, e.weight, |p.entries|, p.totals.size, p.totals.weight)
  }

  /** (fs, ps) is (es, parents) without the entries in gone, which left with all that depends on them. */
  ghost predicate Left(es: PoolEntries, parents: ParentMap, gone: set<Id>, fs: PoolEntries, ps: ParentMap) {
    gone <= es.Keys && DescendantClosed(es, gone) && fs == Restrict(es, gone) && ps == parents - gone
  }

  lemma LeftNone(es: PoolEntries, parents: ParentMap)
    ensures Left(es, parents, {}, es, parents)
  {
    RestrictNone(es);
    assert parents - {} == parents;
  }

  lemma LeftFrom(es: PoolEntries, parents: ParentMap, all: set<Id>, fs: PoolEntries, ps: ParentMap)
    requires DescendantClosed(es, all) && Graph(es)
    requires fs == Restrict(es, all * es.Keys) && ps == parents - all * es.Keys
    ensures Left(es, parents, all * es.Keys, fs, ps)
  {
    forall x | x in es && x in all
      ensures es[x].descendants <= all * es.Keys
    {
      GraphOf(es, x);
    }
  }

  lemma LeftGraph(es: PoolEntries, parents: ParentMap, gone: set<Id>, fs: PoolEntries, ps: ParentMap)
    requires Graph(es) && Left(es, parents, gone, fs, ps)
    ensures Graph(fs) && fs.Keys == es.Keys - gone
  {
    RestrictGraph(es, gone);
  }

  lemma ReplacedMore(es: PoolEntries, gone: set<Id>, replaced: set<Id>, c: Id)
    requires Graph(es) && DescendantClosed(es, replaced) && gone <= replaced * es.Keys
    requires c in replaced && c in Restrict(es, gone)
    ensures var more := Removed(Restrict(es, gone), c, true);
            && gone + more <= replaced * es.Keys
            && Restrict(Restrict(es, gone), more) == Restrict(es, gone + more)
  {
    hide Graph;
    GraphOf(es, c);
    RestrictTwice(es, gone, Removed(Restrict(es, gone), c, true));
  }

  lemma ReplacedAll(es: PoolEntries, gone: set<Id>, replaced: set<Id>, fs: PoolEntries)
    requires gone <= replaced * es.Keys && fs == Restrict(es, gone) && forall c :: c in replaced ==> c !in fs
    ensures gone == replaced * es.Keys
  {
    forall c | c in replaced * es.Keys
      ensures c in gone
    {
      assert c !in fs;
    }
  }

  /** Once the conflicts are out nobody else spends what the newcomer spends. */
  lemma NoClashLeft(es: PoolEntries, fs: PoolEntries, tx: Tx, conflicts: set<Id>)
    requires Conflicts(es, tx) <= conflicts && fs.Keys <= es.Keys && forall x :: x in fs ==> fs[x].tx == es[x].tx
    requires forall c :: c in conflicts ==> c !in fs
    ensures Inputs(tx) !! AllInputs(fs)
  {
    forall x | x in fs
      ensures Inputs(tx) !! Inputs(fs[x].tx)
    {
      assert x !in Conflicts(es, tx);
      assert !Clash(es[x].tx, tx);
    }
  }

  lemma InsertedShrunk(es: PoolEntries, fs: PoolEntries, x: Id, e: PoolEntry, ancestors: set<Id>)
    requires Shrunk(es, fs)
    ensures Shrunk(es[x := e], Join(fs, x, e, ancestors)) && x in Join(fs, x, e, ancestors)
  {
    JoinBodies(fs, x, e, ancestors);
  }

  lemma ShrunkInserted(es: PoolEntries, fs: PoolEntries, gs: PoolEntries, e: PoolEntry)
    requires Shrunk(es, fs) && Shrunk(fs[e.tx.id := e], gs)
    ensures Shrunk(es[e.tx.id := e], gs)
  {
    forall y | y in gs
      ensures y in es[e.tx.id := e] && es[e.tx.id := e][y].Bare() == gs[y].Bare()
    {
      assert fs[e.tx.id := e][y].Bare() == gs[y].Bare();
    }
  }

  lemma LeftIs(es: PoolEntries, parents: ParentMap, gone: set<Id>, fs: PoolEntries, ps: ParentMap)
    requires Left(es, parents, gone, fs, ps)
    ensures gone <= es.Keys && fs == Restrict(es, gone) && ps == parents - gone
  {
  }

  /** None of these ancestors, as far as they are there, has too many descendants. */
  ghost predicate AllRoom(l: Limits, es: PoolEntries, ancestors: set<Id>) {
    forall a :: a in ancestors && a in es ==> Room(l, es, a)
  }

  lemma AllRoomLess(l: Limits, es: PoolEntries, x: Id, e: PoolEntry, ancestors: set<Id>)
    requires AllRoom(l, Join(es, x, e, ancestors), ancestors)
    ensures forall a :: a in ancestors && a in es ==> Room(l, Join(es, x, e, ancestors), a)
  {
    hide Room;
    JoinBodies(es, x, e, ancestors);
  }

  /** Removals and then the insertion, which either went through or was undone. */
  ghost predicate Outcome(l: Limits, e: PoolEntry, ancestors: set<Id>, direct: set<Id>, reply: AddReply,
                          es: PoolEntries, parents: ParentMap, gone: set<Id>, fs: PoolEntries, ps: ParentMap) {
    && gone <= es.Keys && DescendantClosed(es, gone)
    && (!reply.Added? ==> fs == Restrict(es, gone) && (ps == parents - gone || ps == parents - gone - {e.tx.id}))
    && (reply.Added? ==>
          && fs == Join(Restrict(es, gone), e.tx.id, e, ancestors)
          && ps == (if ancestors == {} then parents - gone else (parents - gone)[e.tx.id := direct])
          && (forall a :: a in ancestors && a in Restrict(es, gone) ==> Room(l, fs, a)))
  }

  lemma OutcomeNoRoom(l: Limits, e: PoolEntry, ancestors: set<Id>, direct: set<Id>, p: Pool, gone: set<Id>, q: Pool)
    requires Left(p.entries, p.parents, gone, q.entries, q.parents)
    ensures Outcome(l, e, ancestors, direct, MempoolLimits, p.entries, p.parents, gone, q.entries, q.parents)
  {
  }

  lemma OutcomeAfter(l: Limits, e: PoolEntry, ancestors: set<Id>, direct: set<Id>, reply: AddReply, p: Pool, gone: set<Id>,
                     q: Pool, taken: set<Id>, fs: PoolEntries, ps: ParentMap)
    requires Left(p.entries, p.parents, gone, q.entries, q.parents)
    requires Outcome(l, e, ancestors, direct, reply, q.entries, q.parents, taken, fs, ps)
    ensures Outcome(l, e, ancestors, direct, reply, p.entries, p.parents, gone + taken, fs, ps)
  {
    RestrictKeys(p.entries, gone);
    RestrictTwice(p.entries, gone, taken);
    ClosedUnion(p.entries, gone, taken);
    assert p.parents - gone - taken == p.parents - (gone + taken);
  }

  lemma OutcomeJoin(l: Limits, e: PoolEntry, ancestors: set<Id>, direct: set<Id>, reply: AddReply,
                    es: PoolEntries, parents: ParentMap, gone: set<Id>, fs: PoolEntries, ps: ParentMap)
    requires Outcome(l, e, ancestors, direct, reply, es, parents, gone, fs, ps)
    ensures reply.Added? ==> fs == Join(Restrict(es, gone), e.tx.id, e, ancestors)
  {
  }

  lemma OutcomeClosed(l: Limits, e: PoolEntry, ancestors: set<Id>, direct: set<Id>, reply: AddReply,
                      es: PoolEntries, parents: ParentMap, gone: set<Id>, fs: PoolEntries, ps: ParentMap)
    requires Outcome(l, e, ancestors, direct, reply, es, parents, gone, fs, ps)
    ensures gone <= es.Keys && DescendantClosed(es, gone)
  {
  }

  lemma NoSuchParents(p: Pool, known: set<Id>, x: Id, gone: set<Id>)
    requires Linked(p.entries, p.parents, known) && x !in p.entries
    ensures p.parents - gone - {x} == p.parents - gone
  {
  }

  lemma OutcomeAdmitted(l: Limits, p: Pool, known: set<Id>, e: PoolEntry, direct: set<Id>, ancestors: set<Id>, gone: set<Id>, q: Pool)
    requires Outcome(l, e, ancestors, direct, Added, p.entries, p.parents, gone, q.entries, q.parents)
    requires direct == ParentIds(e.tx) - known && ancestors == Closure(p.entries, direct)
    requires e.tx.id !in p.entries && e.tx.id !in known && ParentIds(e.tx) <= known + p.entries.Keys
    requires |ancestors| <= l.maxAncestors && e.vsize + Sum(Vsizes(p.entries), ancestors) <= l.maxAncestorVsize
    requires q.totals.size <= l.maxSize && q.totals.weight <= l.maxWeight && |q.entries| <= l.maxTransactions
    ensures Admitted(l, p, known, e, gone, q)
  {
    hide Restrict, Join, Closure, ParentIds, Sum, Vsizes, DescendantClosed, Room;
  }

  lemma OutcomeRefused(l: Limits, p: Pool, known: set<Id>, e: PoolEntry, direct: set<Id>, ancestors: set<Id>, reply: AddReply,
                       gone: set<Id>, q: Pool)
    requires Outcome(l, e, ancestors, direct, reply, p.entries, p.parents, gone, q.entries, q.parents) && !reply.Added?
    requires Linked(p.entries, p.parents, known) && e.tx.id !in p.entries
    ensures DescendantClosed(p.entries, gone) && q.entries == Restrict(p.entries, gone) && q.parents == p.parents - gone
  {
    hide Restrict, Join, DescendantClosed, Room, LinkedAt;
    NoSuchParents(p, known, e.tx.id, gone);
  }

  /** What an admission leaves behind keeps the pool's promises exactly when the newcomer did not get in or no ancestor
      of it had to go. */
  lemma OutcomeInv(l: Limits, p: Pool, known: set<Id>, e: PoolEntry, direct: set<Id>, ancestors: set<Id>, reply: AddReply,
                   gone: set<Id>, q: Pool)
    requires PoolInv(l, p, known) && Core(q)
    requires Outcome(l, e, ancestors, direct, reply, p.entries, p.parents, gone, q.entries, q.parents)
    requires direct == ParentIds(e.tx) - known && ancestors == Closure(p.entries, direct)
    requires e.tx.id !in p.entries && e.tx.id !in known && ParentIds(e.tx) <= known + p.entries.Keys
    requires |ancestors| <= l.maxAncestors && e.vsize + Sum(Vsizes(p.entries), ancestors) <= l.maxAncestorVsize
    requires reply.Added? ==> q.totals.size <= l.maxSize && q.totals.weight <= l.maxWeight && |q.entries| <= l.maxTransactions
    ensures PoolInv(l, q, known) <==> (reply.Added? ==> ancestors !! gone)
  {
    hide Core, Graph, Linked, WithinLimits, Restrict, Join, Closure, ParentIds, Sum, Vsizes, DescendantClosed, Room, Outcome, Admitted;
    if reply.Added? {
      OutcomeAdmitted(l, p, known, e, direct, ancestors, gone, q);
      AdmissionKeepsInv(l, p, known, e, gone, q);
    } else {
      OutcomeRefused(l, p, known, e, direct, ancestors, reply, gone, q);
      RemovalKeepsInv(l, p, known, gone, q);
    }
  }
}
