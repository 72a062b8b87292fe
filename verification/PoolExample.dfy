/** Concrete admissions that break the pool's promises, from the empty pool on: a replacement that
    spends an output of what it replaces, and a child that evicts its own parent from a full pool. */
module PoolExample {
  import opened Ledger
  import opened PoolSpec
  import opened Admission
  import opened Eviction
  import opened Settlement
  import opened PoolRules
  import opened Mempool

  // Room for this many transactions, no relay fee, and checks that let everything through.
  function Lenient(room: int): PoolEnv {
    PoolEnv(Limits(1000, 1000, room, 5, 5, 1000, 1000, 5, 1000), 0, 1000, 0,
            tx => 1, tx => 4, tx => true, (tx, height) => true, (tx, i, coin) => true)
  }

  const COIN := OutPoint(9, 0)
  const CHAIN := ChainView(map[COIN := Coin(100, [1], 0, false)], {9}, 5)

  // Spends the coin, pays 10.
  function Old(sequence: nat): Tx {
    Tx(1, 2, [TxIn(COIN, [], sequence)], [TxOut(90, [1])])
  }

  const OLD := Old(0)

  // Spends the coin as well, and the output of the transaction that it replaces by that; pays 180.
  const NEWCOMER := Tx(2, 2, [TxIn(COIN, [], 0), TxIn(OutPoint(1, 0), [], 0)], [TxOut(10, [1])])

  // Spends the output of the old transaction, and outbids it: pays 80.
  const CHILD := Tx(3, 2, [TxIn(OutPoint(1, 0), [], 0)], [TxOut(10, [1])])

  // Spends the same coin and nothing else, at a higher fee: pays 50.
  const RIVAL := Tx(4, 2, [TxIn(COIN, [], 0)], [TxOut(50, [1])])

  function Entry(sequence: nat): PoolEntry {
    PoolEntry(Old(sequence), 1, 1, 4, 10, 0, {}, {})
  }

  function PoolOf(sequence: nat): Pool {
    Pool(map[1 := Entry(sequence)], [1], [1], map[9 := {0}], map[], Totals(1, 1, 4, 10))
  }

  const ENTRY := Entry(0)
  const POOL := PoolOf(0)

  lemma SumOne(f: map<Id, int>)
    requires 1 in f
    ensures Sum(f, {1}) == f[1]
  {
    SumRemove(f, {1}, 1);
    assert {1} - {1} == {};
  }

  lemma AllInputsAre(sequence: nat)
    ensures Inputs(Old(sequence)) == {COIN} && ParentIds(Old(sequence)) == {9}
    ensures Inputs(NEWCOMER) == {COIN, OutPoint(1, 0)} && ParentIds(NEWCOMER) == {9, 1}
    ensures Inputs(CHILD) == {OutPoint(1, 0)} && ParentIds(CHILD) == {1}
  {
    assert Old(sequence).vin[0].prev == COIN && CHILD.vin[0].prev == OutPoint(1, 0);
    assert NEWCOMER.vin[0].prev == COIN && NEWCOMER.vin[1].prev == OutPoint(1, 0);
    assert COIN in Inputs(Old(sequence)) && COIN in Inputs(NEWCOMER) && OutPoint(1, 0) in Inputs(NEWCOMER) && OutPoint(1, 0) in Inputs(CHILD);
    assert 9 in ParentIds(Old(sequence)) && 9 in ParentIds(NEWCOMER) && 1 in ParentIds(NEWCOMER) && 1 in ParentIds(CHILD);
  }

  lemma Figures(sequence: nat)
    ensures var es := PoolOf(sequence).entries;
            && Sizes(es) == map[1 := 1] && Vsizes(es) == map[1 := 1] && Weights(es) == map[1 := 4] && FeesOf(es) == map[1 := 10]
            && TotalsOf(es) == PoolOf(sequence).totals
  {
    hide Sum;
    assert PoolOf(sequence).entries.Keys == {1};
    SumOne(map[1 := 1]);
    SumOne(map[1 := 4]);
    SumOne(map[1 := 10]);
  }

  lemma PoolCore(sequence: nat)
    ensures Core(PoolOf(sequence))
  {
    hide Sum, TotalsOf;
    AllInputsAre(sequence);
    Figures(sequence);
    InputsOfPool(sequence);
    assert SpentIs(PoolOf(sequence).spent, {COIN});
  }

  lemma InputsOfPool(sequence: nat)
    ensures AllInputs(PoolOf(sequence).entries) == {COIN} && AllInputs(map[]) == {}
  {
    AllInputsAre(sequence);
    AllInputsWith(map[], 1, Entry(sequence));
    assert PoolOf(sequence).entries == map[][1 := Entry(sequence)];
  }

  lemma PoolLinked(sequence: nat)
    ensures Graph(PoolOf(sequence).entries) && Linked(PoolOf(sequence).entries, PoolOf(sequence).parents, CHAIN.known)
  {
    AllInputsAre(sequence);
    assert Closure(PoolOf(sequence).entries, {}) == {};
    assert LinkedAt(PoolOf(sequence).entries, PoolOf(sequence).parents, CHAIN.known, 1);
  }

  lemma PoolBounded(room: int, sequence: nat)
    requires room >= 1
    ensures WithinLimits(Lenient(room).limits, PoolOf(sequence))
  {
    Figures(sequence);
    assert Sum(Vsizes(PoolOf(sequence).entries), {}) == 0;
    assert AncestorsBounded(Lenient(room).limits, PoolOf(sequence).entries, 1) && DescendantsBounded(Lenient(room).limits, PoolOf(sequence).entries, 1);
  }

  lemma PoolIsGood(room: int, sequence: nat)
    requires room >= 1
    ensures PoolInv(Lenient(room).limits, PoolOf(sequence), CHAIN.known)
  {
    hide Core, Graph, Linked, WithinLimits;
    PoolCore(sequence);
    PoolLinked(sequence);
    PoolBounded(room, sequence);
  }

  // ------------------------------------------------------------- the old transaction

  lemma OldFits(room: int, sequence: nat)
    ensures PoolTxOk(Lenient(room), CHAIN, map[], map[], Old(sequence), {})
    ensures NewEntry(Lenient(room), CHAIN, map[], Old(sequence), 0) == Entry(sequence)
  {
    assert InputValue(CHAIN, map[], Old(sequence), 0) == 0 && InputValue(CHAIN, map[], Old(sequence), 1) == 100;
    assert OutputValue(Old(sequence), 0) == 0 && OutputValue(Old(sequence), 1) == 90;
    assert OutputsOk(Lenient(room), Old(sequence), 0);
    assert InputFits(Lenient(room), CHAIN, map[], map[], Old(sequence), {}, 0);
  }

  lemma OldPasses(room: int, sequence: nat)
    ensures Screen(Lenient(room), EMPTY, CHAIN, Old(sequence), 0.0, None, 0) == None
  {
    hide PoolTxOk, NewEntry, ParentIds, MayReplace;
    AllInputsAre(sequence);
    OldFits(room, sequence);
    assert Conflicts(map[], Old(sequence)) == {};
    assert Ignored(map[], {}) == {};
    assert Closure(map[], {}) == {} && {9} - CHAIN.known == {};
    assert Sum(Vsizes(map[]), {}) == 0;
  }

  lemma NothingEvicts(l: Limits, e: PoolEntry)
    ensures EvictedFor(l, e, map[]) == {} && Restrict(map[], {}) == map[]
  {
    assert OrderOf(map[]) == [];
    assert Restrict(map[], {}) == map[];
  }

  lemma TotalsNone()
    ensures TotalsOf(map[]) == Totals(0, 0, 0, 0)
  {
    assert Sizes(map[]) == map[] && Vsizes(map[]) == map[];
  }

  lemma OldAdmitted(room: int, sequence: nat)
    requires room >= 1
    ensures var l := Lenient(room).limits;
            && HasSpace(l, Entry(sequence), map[]) && GoneFor(l, Entry(sequence), map[]) == {} && AncestorsFor(CHAIN.known, Entry(sequence), map[]) == {}
            && Admits(l, CHAIN.known, Entry(sequence), map[])
  {
    hide EvictedFor, ParentIds, TotalsOf;
    NothingEvicts(Lenient(room).limits, Entry(sequence));
    TotalsNone();
    AllInputsAre(sequence);
    assert {9} - CHAIN.known == {};
  }

  /** The first transaction gets in and leaves exactly this pool. */
  lemma FirstStep(room: int, reply: AddReply, q: Pool, sequence: nat)
    requires room >= 1 && Core(q) && AddStep(Lenient(room), EMPTY, CHAIN, Old(sequence), 0.0, None, 0, reply, q)
    ensures reply == Added && q == PoolOf(sequence)
  {
    hide Core, Screen, Admits, HasSpace, GoneFor, AncestorsFor, ParentIds, NewEntry;
    OldPasses(room, sequence);
    OldFits(room, sequence);
    OldAdmitted(room, sequence);
    assert Join(Restrict(map[], {}), 1, Entry(sequence), {}) == map[1 := Entry(sequence)];
    assert q.parents == map[];
    PoolIs(q, sequence);
  }

  lemma PoolIs(q: Pool, sequence: nat)
    requires Core(q) && q.entries == PoolOf(sequence).entries && q.parents == map[]
    ensures q == PoolOf(sequence)
  {
    hide Sum, TotalsOf, Sizes, Vsizes, RateKeys, TimeKeys;
    Figures(sequence);
    InputsOfPool(sequence);
    ListOfOne(q.byFee);
    ListOfOne(q.byTime);
    assert InSpent(q.spent, COIN);
    assert forall t, i :: t in q.spent && i in q.spent[t] ==> InSpent(q.spent, OutPoint(t, i));
    forall t | t in q.spent
      ensures t == 9 && q.spent[t] == {0}
    {
      assert q.spent[t] != {};
    }
    assert q.spent == map[9 := {0}];
  }

  lemma ListOfOne(s: seq<Id>)
    requires Listed(s, {1})
    ensures s == [1]
  {
    assert |s| < 2 || s[0] != s[1];
    ListedIn(s, {1});
    assert 1 in s;
  }

  // ---------------------------------------------------------------- replacing a parent

  lemma NewcomerConflicts()
    ensures Conflicts(POOL.entries, NEWCOMER) == {1} && Ignored(POOL.entries, {1}) == {COIN}
    ensures Replacement(POOL.entries, {1}) == {1}
    ensures ParentIds(NEWCOMER) - CHAIN.known == {1} && ParentIds(NEWCOMER) <= CHAIN.known + POOL.entries.Keys
    ensures Closure(POOL.entries, {1}) == {1}
  {
    AllInputsAre(0);
    assert NEWCOMER.vin[0].prev in Inputs(OLD);
    assert Clash(OLD, NEWCOMER);
  }

  lemma OldSignals()
    ensures InheritsSignal(POOL.entries, 1)
  {
    assert OLD.vin[0].sequence < 0xffff_fffe;
  }

  lemma ParentsAllowed()
    ensures OldParent(POOL.entries, POOL.parents, {1}, 9) && OldParent(POOL.entries, POOL.parents, {1}, 1)
  {
  }

  lemma PaysMore()
    ensures Rate(180, 1) > 10 as real / Max(1, 1) as real
  {
  }

  lemma ReplacesOne(env: PoolEnv, es: PoolEntries, parents: ParentMap, tx: Tx, fee: int, oldFee: int)
    requires 1 in es && es[1].tx != tx && Replacement(es, {1}) == {1} && InheritsSignal(es, 1)
    requires Sum(FeesOf(es), {1}) == oldFee && Sum(Vsizes(es), {1}) == 1 && env.limits.maxPackageWeight == 1000
    requires forall i :: 0 <= i < |tx.vin| ==> OldParent(es, parents, {1}, tx.vin[i].prev.txid)
    requires env.minRelayFee == 0 && fee > oldFee && Rate(fee, 1) > oldFee as real / Max(1, 1) as real
    ensures MayReplace(env, es, parents, {1}, tx, fee, 1)
  {
    hide Sum, Replacement, InheritsSignal, OldParent, Rate, FeesOf, Vsizes;
    assert Max(1, 1) == 1 && Max(1, 250) == 250;
  }

  lemma NewcomerReplaces(room: int)
    ensures MayReplace(Lenient(room), POOL.entries, POOL.parents, {1}, NEWCOMER, 180, 1)
  {
    hide Sum, Replacement, InheritsSignal, OldParent, Rate, FeesOf, Vsizes, Max, MayReplace;
    NewcomerConflicts();
    Figures(0);
    SumOne(map[1 := 10]);
    SumOne(map[1 := 1]);
    OldSignals();
    ParentsAllowed();
    PaysMore();
    assert NEWCOMER.vin[0].prev.txid == 9 && NEWCOMER.vin[1].prev.txid == 1;
    ReplacesOne(Lenient(room), POOL.entries, POOL.parents, NEWCOMER, 180, 10);
  }

  lemma NewcomerFits(room: int)
    ensures PoolTxOk(Lenient(room), CHAIN, POOL.entries, POOL.spent, NEWCOMER, {COIN})
    ensures NewEntry(Lenient(room), CHAIN, POOL.entries, NEWCOMER, 0) == PoolEntry(NEWCOMER, 1, 1, 4, 180, 0, {}, {})
  {
    assert InputValue(CHAIN, POOL.entries, NEWCOMER, 0) == 0 && InputValue(CHAIN, POOL.entries, NEWCOMER, 1) == 100;
    assert InputValue(CHAIN, POOL.entries, NEWCOMER, 2) == 190;
    assert OutputValue(NEWCOMER, 0) == 0 && OutputValue(NEWCOMER, 1) == 10;
    assert OutputsOk(Lenient(room), NEWCOMER, 0);
    assert !InSpent(POOL.spent, OutPoint(1, 0));
    forall i | 0 <= i < 2
      ensures InputFits(Lenient(room), CHAIN, POOL.entries, POOL.spent, NEWCOMER, {COIN}, i)
    {
    }
  }

  lemma NewcomerPasses(room: int)
    ensures Screen(Lenient(room), POOL, CHAIN, NEWCOMER, 0.0, None, 0) == None
  {
    hide Conflicts, Ignored, MayReplace, PoolTxOk, Closure, ParentIds, Sum, NewEntry, Vsizes;
    NewcomerConflicts();
    NewcomerReplaces(room);
    NewcomerFits(room);
    Figures(0);
    SumOne(map[1 := 1]);
  }

  lemma NewcomerAdmitted()
    ensures var e := NewEntry(Lenient(10), CHAIN, POOL.entries, NEWCOMER, 0);
            GoneFor(Lenient(10).limits, e, POOL.entries) == {1} && Admits(Lenient(10).limits, CHAIN.known, e, POOL.entries)
  {
    hide Conflicts, Replacement, ParentIds, Closure, EvictedFor, Graph, TotalsOf, NewEntry;
    var e := NewEntry(Lenient(10), CHAIN, POOL.entries, NEWCOMER, 0);
    NewcomerConflicts();
    NewcomerFits(10);
    Figures(0);
    PoolLinked(0);
    FittingEvictsNone(Lenient(10).limits, e, POOL.entries);
    assert Restrict(POOL.entries, {1}) == map[];
  }

  /** A good pool, and a replacement that gets in and breaks its promises. */
  lemma ReplacementBreaks(reply: AddReply, q: Pool)
    requires Core(q) && AddStep(Lenient(10), POOL, CHAIN, NEWCOMER, 0.0, None, 0, reply, q)
    ensures PoolInv(Lenient(10).limits, POOL, CHAIN.known)
    ensures reply == Added && !PoolInv(Lenient(10).limits, q, CHAIN.known)
  {
    hide Core, PoolInv, Screen, Admits, GoneFor, HasSpace, Outcome, ParentIds, NewEntry;
    PoolIsGood(10, 0);
    NewcomerPasses(10);
    NewcomerAdmitted();
    AllInputsAre(0);
    AdmissionBreaksExactly(Lenient(10), POOL, CHAIN, NEWCOMER, 0.0, None, 0, reply, q);
  }

  /** The same on the pool itself, starting from nothing. */
  method ReplaceAParent() returns (pool: Mempool, first: AddReply, second: AddReply)
    ensures fresh(pool) && first == Added && second == Added
    ensures Core(pool.State()) && !PoolInv(pool.env.limits, pool.State(), CHAIN.known)
  {
    hide Core, PoolInv, AddStep, Breaks, Graph, Linked;
    pool := new Mempool(Lenient(10));
    GoodGraph(pool.env.limits, pool.State(), CHAIN.known);
    first := pool.AddTransaction(OLD, CHAIN, 0.0, None, 0);
    FirstStep(10, first, pool.State(), 0);
    PoolLinked(0);
    second := pool.AddTransaction(NEWCOMER, CHAIN, 0.0, None, 0);
    ReplacementBreaks(second, pool.State());
  }

  lemma GoodGraph(l: Limits, p: Pool, known: set<Id>)
    requires PoolInv(l, p, known)
    ensures Graph(p.entries) && Linked(p.entries, p.parents, known)
  {
  }

  // ----------------------------------------------------------------- evicting a parent

  lemma ChildFits()
    ensures PoolTxOk(Lenient(1), CHAIN, POOL.entries, POOL.spent, CHILD, {})
    ensures NewEntry(Lenient(1), CHAIN, POOL.entries, CHILD, 0) == PoolEntry(CHILD, 1, 1, 4, 80, 0, {}, {})
  {
    assert InputValue(CHAIN, POOL.entries, CHILD, 0) == 0 && InputValue(CHAIN, POOL.entries, CHILD, 1) == 90;
    assert OutputValue(CHILD, 0) == 0 && OutputValue(CHILD, 1) == 10;
    assert OutputsOk(Lenient(1), CHILD, 0);
    assert !InSpent(POOL.spent, OutPoint(1, 0));
    assert InputFits(Lenient(1), CHAIN, POOL.entries, POOL.spent, CHILD, {}, 0);
  }

  lemma ChildConflicts()
    ensures Conflicts(POOL.entries, CHILD) == {} && Ignored(POOL.entries, {}) == {}
    ensures ParentIds(CHILD) - CHAIN.known == {1} && ParentIds(CHILD) <= CHAIN.known + POOL.entries.Keys
    ensures Closure(POOL.entries, {1}) == {1}
  {
    AllInputsAre(0);
    assert !Clash(OLD, CHILD);
  }

  lemma ChildPasses()
    ensures Screen(Lenient(1), POOL, CHAIN, CHILD, 0.0, None, 0) == None
  {
    hide Conflicts, Ignored, MayReplace, PoolTxOk, Closure, ParentIds, Sum, NewEntry, Vsizes;
    ChildConflicts();
    ChildFits();
    Figures(0);
    SumOne(map[1 := 1]);
  }

  lemma OldIsFirst()
    ensures OrderOf(POOL.entries) == [1] && PackageRate(POOL.entries, 1) == 10.0
  {
    hide Sum, PackageRate, PackageVsize;
    var ranks := RanksIn(POOL.entries);
    assert POOL.entries.Keys == {1};
    assert IsFirst(ranks, {1}, 1);
    ByRankNext(ranks, {1}, 1);
    assert {1} - {1} == {};
    assert ByRank(ranks, {}) == [];
    OldRate();
  }

  lemma OldRate()
    ensures PackageRate(POOL.entries, 1) == 10.0
  {
    hide Sum;
    Figures(0);
    assert {1} + Below(POOL.entries, 1) == {1};
    SumOne(map[1 := 1]);
    SumOne(map[1 := 10]);
  }

  lemma OldIsEvicted()
    ensures var e := PoolEntry(CHILD, 1, 1, 4, 80, 0, {}, {});
            EvictedFor(Lenient(1).limits, e, POOL.entries) == {1} && HasSpace(Lenient(1).limits, e, POOL.entries)
  {
    hide OrderOf, PackageRate, TotalsOf, EvictAlong;
    var l, e := Lenient(1).limits, PoolEntry(CHILD, 1, 1, 4, 80, 0, {}, {});
    OldIsFirst();
    assert !FitsBeside(l, 1, 4, POOL.entries);
    assert e.FeeRate() == 80.0;
    EvictAlongSteps(l, 1, 4, 80.0, POOL.entries, [1]);
    assert Removed(POOL.entries, 1, true) == {1};
    assert Restrict(POOL.entries, {1}) == map[];
    assert [1][1..] == [];
    EvictAlongEnds(l, 1, 4, 80.0, map[]);
    TotalsNone();
  }

  lemma ChildAdmitted()
    ensures var e := NewEntry(Lenient(1), CHAIN, POOL.entries, CHILD, 0);
            GoneFor(Lenient(1).limits, e, POOL.entries) == {1} && Admits(Lenient(1).limits, CHAIN.known, e, POOL.entries)
  {
    hide Conflicts, ParentIds, Closure, EvictedFor, HasSpace, NewEntry;
    ChildConflicts();
    ChildFits();
    OldIsEvicted();
    assert Restrict(POOL.entries, {1}) == map[];
    ReplacementNone(map[]);
  }

  /** A good, full pool, and a child that evicts its parent, gets in and breaks the promises. */
  lemma EvictionBreaks(reply: AddReply, q: Pool)
    requires Core(q) && AddStep(Lenient(1), POOL, CHAIN, CHILD, 0.0, None, 0, reply, q)
    ensures PoolInv(Lenient(1).limits, POOL, CHAIN.known)
    ensures reply == Added && !PoolInv(Lenient(1).limits, q, CHAIN.known)
  {
    hide Core, PoolInv, Screen, Admits, GoneFor, HasSpace, Outcome, ParentIds, NewEntry;
    PoolIsGood(1, 0);
    ChildPasses();
    ChildAdmitted();
    AllInputsAre(0);
    AdmissionBreaksExactly(Lenient(1), POOL, CHAIN, CHILD, 0.0, None, 0, reply, q);
  }

  method EvictAParent() returns (pool: Mempool, first: AddReply, second: AddReply)
    ensures fresh(pool) && first == Added && second == Added
    ensures Core(pool.State()) && !PoolInv(pool.env.limits, pool.State(), CHAIN.known)
  {
    hide Core, PoolInv, AddStep, Breaks, Graph, Linked;
    pool := new Mempool(Lenient(1));
    GoodGraph(pool.env.limits, pool.State(), CHAIN.known);
    first := pool.AddTransaction(OLD, CHAIN, 0.0, None, 0);
    FirstStep(1, first, pool.State(), 0);
    PoolLinked(0);
    second := pool.AddTransaction(CHILD, CHAIN, 0.0, None, 0);
    EvictionBreaks(second, pool.State());
  }

  // ------------------------------------------------------------- a final transaction

  lemma RivalShares(sequence: nat)
    ensures 1 in Rivals(PoolOf(sequence).entries, RIVAL)
  {
    assert Old(sequence).vin[0].prev == RIVAL.vin[0].prev;
    assert ShareInput(Old(sequence), RIVAL);
  }

  lemma FinalIsNotReplaceable()
    ensures !Replaceable(PoolOf(0xffff_ffff).entries, 1)
  {
    assert Old(0xffff_ffff).vin[0].sequence == 0xffff_ffff;
  }

  /** A transaction that did not opt in stays, however much more its rival pays. */
  lemma FinalStays(reply: AddReply, q: Pool)
    requires AddStep(Lenient(10), PoolOf(0xffff_ffff), CHAIN, RIVAL, 0.0, None, 0, reply, q)
    ensures reply == RbfPolicy && q == PoolOf(0xffff_ffff)
  {
    hide PoolInv, Screen, Rivals, Settled, FeePaid, VirtualSize, Replaceable, Displaced, SpentByDisplaced, Sum;
    PoolIsGood(10, 0xffff_ffff);
    RivalShares(0xffff_ffff);
    FinalIsNotReplaceable();
    RbfPolicyExactly(Lenient(10), PoolOf(0xffff_ffff), CHAIN, RIVAL, 0.0, None, 0, reply, q);
    SettledIsLate(Lenient(10), PoolOf(0xffff_ffff), reply, q);
  }

  lemma SettledIsLate(env: PoolEnv, p: Pool, reply: AddReply, q: Pool)
    requires AddStep(env, p, CHAIN, RIVAL, 0.0, None, 0, reply, q) && reply == RbfPolicy
    ensures q == p
  {
    hide Screen, NewEntry, Outcome, HasSpace, Admits;
  }

  /** The same on the pool itself, starting from nothing. */
  method KeepFinal() returns (pool: Mempool, first: AddReply, second: AddReply)
    ensures fresh(pool) && first == Added && second == RbfPolicy && pool.State() == PoolOf(0xffff_ffff)
  {
    hide Core, PoolInv, AddStep, Breaks, Graph, Linked;
    pool := new Mempool(Lenient(10));
    GoodGraph(pool.env.limits, pool.State(), CHAIN.known);
    first := pool.AddTransaction(Old(0xffff_ffff), CHAIN, 0.0, None, 0);
    FirstStep(10, first, pool.State(), 0xffff_ffff);
    PoolLinked(0xffff_ffff);
    second := pool.AddTransaction(RIVAL, CHAIN, 0.0, None, 0);
    FinalStays(second, pool.State());
  }
}
