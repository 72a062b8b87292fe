/** The memory pool over whole runs of admissions, removals and connected blocks: its
    promises hold all the way exactly when no single call is one that breaks them, which
    the pool before that call decides. */
module PoolRuns {
  import opened Ledger
  import opened PoolSpec
  import opened Admission
  import opened Eviction
  import opened Settlement
  import opened Revalidation
  import opened Mempool

  datatype PoolCall =
    | Add(tx: Tx, chain: ChainView, floorRate: real, packageRate: Option<real>, now: int)
    | Remove(id: Id, includeDescendants: bool)
    | Connected(txs: seq<Tx>, chain: ChainView)

  ghost predicate RemoveStep(p: Pool, x: Id, includeDescendants: bool, q: Pool) {
    var gone := Removed(p.entries, x, includeDescendants);
    q.entries == Restrict(p.entries, gone) && q.parents == p.parents - gone
  }

  /** What one call may do to the pool. */
  ghost predicate PoolStep(env: PoolEnv, p: Pool, call: PoolCall, q: Pool) {
    && Core(q)
    && match call
       case Add(tx, chain, floorRate, packageRate, now) =>
         exists reply :: AddStep(env, p, chain, tx, floorRate, packageRate, now, reply, q)
       case Remove(x, includeDescendants) => RemoveStep(p, x, includeDescendants, q)
       case Connected(txs, chain) => BlockStep(env, p, chain, txs, q)
  }

  /** Ids of stored transactions after a call; only blocks bring new ones. */
  function KnownAfter(known: set<Id>, call: PoolCall): set<Id> {
    match call
    case Connected(_, chain) => chain.known
    case _ => known
  }

  /** The call sees the stored transactions as they are. */
  predicate SeesChain(known: set<Id>, call: PoolCall) {
    match call
    case Add(_, chain, _, _, _) => chain.known == known
    case Connected(_, chain) => known <= chain.known
    case Remove(_, _) => true
  }

  /** Told from the pool before the call: does it keep the promises? */
  ghost predicate Keeps(env: PoolEnv, p: Pool, call: PoolCall) {
    match call
    case Add(tx, chain, floorRate, packageRate, now) => !Breaks(env, p, chain, tx, floorRate, packageRate, now)
    case Remove(x, includeDescendants) => includeDescendants || Below(p.entries, x) == {}
    case Connected(_, _) => true
  }

  // ---------------------------------------------------------------- single calls

  /** Whatever has an ancestor leads down to a child of that ancestor. */
  lemma {:induction false} SomeChild(es: PoolEntries, parents: ParentMap, known: set<Id>, x: Id, d: Id)
    requires Graph(es) && Linked(es, parents, known) && x in es && d in es && x in es[d].ancestors
    ensures exists c :: c in es && c != x && x in ParentIds(es[c].tx)
    decreases |es[d].ancestors|
  {
    hide Graph, ParentIds;
    GraphOf(es, x);
    assert LinkedAt(es, parents, known, d);
    if x in ParentsOf(parents, d) {
      assert d in es && d != x && x in ParentIds(es[d].tx);
    } else {
      var q :| q in ParentsOf(parents, d) && q in es && x in es[q].ancestors;
      AncestorLess(es, d, q);
      SomeChild(es, parents, known, x, q);
    }
  }

  /** Leaving a child behind breaks the promises. */
  lemma OrphansBreak(l: Limits, p: Pool, known: set<Id>, x: Id, q: Pool)
    requires PoolInv(l, p, known) && Below(p.entries, x) != {} && RemoveStep(p, x, false, q)
    ensures !PoolInv(l, q, known)
  {
    hide Core, Graph, WithinLimits, ParentIds, Closure;
    SomeId(Below(p.entries, x));
    var d :| d in Below(p.entries, x);
    GraphOf(p.entries, x);
    SomeChild(p.entries, p.parents, known, x, d);
    var c :| c in p.entries && c != x && x in ParentIds(p.entries[c].tx);
    assert c in q.entries && q.entries[c].tx == p.entries[c].tx;
    assert x !in q.entries && x !in known;
    assert !LinkedAt(q.entries, q.parents, known, c);
  }

  lemma RemovalKeepsExactly(l: Limits, p: Pool, known: set<Id>, x: Id, includeDescendants: bool, q: Pool)
    requires PoolInv(l, p, known) && Core(q) && RemoveStep(p, x, includeDescendants, q)
    ensures PoolInv(l, q, known) <==> includeDescendants || Below(p.entries, x) == {}
  {
    hide Core, Graph, Linked, WithinLimits, DescendantClosed, Restrict;
    if includeDescendants || Below(p.entries, x) == {} {
      RemovedClosed(p.entries, x);
      assert Removed(p.entries, x, includeDescendants) == Removed(p.entries, x, true);
      RemovalKeepsInv(l, p, known, Removed(p.entries, x, true), q);
    } else {
      OrphansBreak(l, p, known, x, q);
    }
  }

  /** Each kind of call: from a pool that keeps its promises it leads to one that does exactly when Keeps says so. */
  lemma StepKeepsExactly(env: PoolEnv, p: Pool, known: set<Id>, call: PoolCall, q: Pool)
    requires PoolInv(env.limits, p, known) && SeesChain(known, call) && PoolStep(env, p, call, q)
    ensures PoolInv(env.limits, q, KnownAfter(known, call)) <==> Keeps(env, p, call)
  {
    hide Core, PoolInv, AddStep, RemoveStep, BlockStep, Breaks, Below;
    match call
    case Add(tx, chain, floorRate, packageRate, now) =>
      var reply :| AddStep(env, p, chain, tx, floorRate, packageRate, now, reply, q);
      AdmissionBreaksExactly(env, p, chain, tx, floorRate, packageRate, now, reply, q);
    case Remove(x, includeDescendants) =>
      RemovalKeepsExactly(env.limits, p, known, x, includeDescendants, q);
    case Connected(txs, chain) =>
      BlockStepKeepsInv(env, p, chain, known, txs, q);
  }

  // ------------------------------------------------------------------ whole runs

  /** Stored transactions after the first n calls. */
  function KnownAt(known: set<Id>, calls: seq<PoolCall>, n: nat): set<Id>
    requires n <= |calls|
    decreases n
  {
    if n == 0 then known else KnownAfter(KnownAt(known, calls, n - 1), calls[n - 1])
  }

  /** The pool before the first call, and after each. */
  ghost predicate IsRun(env: PoolEnv, known: set<Id>, calls: seq<PoolCall>, pools: seq<Pool>) {
    && |pools| == |calls| + 1
    && forall i :: 0 <= i < |calls| ==>
         SeesChain(KnownAt(known, calls, i), calls[i]) && PoolStep(env, pools[i], calls[i], pools[i + 1])
  }

  ghost predicate GoodUpTo(env: PoolEnv, known: set<Id>, calls: seq<PoolCall>, pools: seq<Pool>, n: nat)
    requires n < |pools| == |calls| + 1
  {
    forall i :: 0 <= i <= n ==> PoolInv(env.limits, pools[i], KnownAt(known, calls, i))
  }

  lemma {:induction false} RunKeepsUpTo(env: PoolEnv, known: set<Id>, calls: seq<PoolCall>, pools: seq<Pool>, n: nat)
    requires IsRun(env, known, calls, pools) && PoolInv(env.limits, pools[0], known) && n <= |calls|
    ensures GoodUpTo(env, known, calls, pools, n) <==> forall i :: 0 <= i < n ==> Keeps(env, pools[i], calls[i])
    decreases n
  {
    hide PoolInv, PoolStep, Keeps, SeesChain, KnownAfter;
    if n > 0 {
      RunKeepsUpTo(env, known, calls, pools, n - 1);
      if GoodUpTo(env, known, calls, pools, n - 1) {
        assert PoolInv(env.limits, pools[n - 1], KnownAt(known, calls, n - 1));
        StepKeepsExactly(env, pools[n - 1], KnownAt(known, calls, n - 1), calls[n - 1], pools[n]);
        assert GoodUpTo(env, known, calls, pools, n) <==> PoolInv(env.limits, pools[n], KnownAt(known, calls, n));
      }
    }
  }

  /** From the empty pool of a fresh node, the promises hold after every call of a run if and only if no call of it admits
      a transaction whose parent had to go for it, or removes one alone on which others depend. */
  lemma PoolRunKeepsExactly(env: PoolEnv, known: set<Id>, calls: seq<PoolCall>, pools: seq<Pool>)
    requires IsRun(env, known, calls, pools) && pools[0] == EMPTY && SomeRoom(env.limits)
    ensures (forall i :: 0 <= i < |pools| ==> PoolInv(env.limits, pools[i], KnownAt(known, calls, i))) <==>
            forall i :: 0 <= i < |calls| ==> Keeps(env, pools[i], calls[i])
  {
    hide PoolInv, PoolStep, Keeps, SeesChain, KnownAfter;
    EmptyIsGood(env.limits);
    RunKeepsUpTo(env, known, calls, pools, |calls|);
  }

  /** Any call, made on the pool itself, is such a step. */
  method Perform(pool: Mempool, call: PoolCall, ghost known: set<Id>)
    requires Core(pool.State())
    modifies pool
    ensures Core(pool.State())
    ensures PoolInv(pool.env.limits, old(pool.State()), known) && SeesChain(known, call) ==>
              PoolStep(pool.env, old(pool.State()), call, pool.State())
  {
    hide Core, Graph, Linked, WithinLimits, AddStep, BlockStep, Restrict, Breaks;
    match call
    case Add(tx, chain, floorRate, packageRate, now) =>
      var reply := pool.AddTransaction(tx, chain, floorRate, packageRate, now);
    case Remove(x, includeDescendants) =>
      var removed := pool.RemoveTransaction(x, includeDescendants);
    case Connected(txs, chain) =>
      pool.HandleConnectedBlock(txs, chain, known);
  }
}
