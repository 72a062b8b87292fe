/** What becomes of a newcomer that passed every check: who goes, whether it gets in, and
    exactly when the pool's promises are broken, all told from the pool before the call. */
module Settlement {
  import opened Ledger
  import opened PoolSpec
  import opened Admission
  import opened Eviction

  // -------------------------------------------------------------- what is decided

  /** Is there room once eviction has done what it can? */
  ghost predicate HasSpace(l: Limits, e: PoolEntry, es: PoolEntries) {
    FitsBeside(l, e.size, e.weight, Restrict(es, EvictedFor(l, e, es)))
  }

  /** All that leaves: the evicted, and if there is room then the conflicts with what depends on them. */
  ghost function GoneFor(l: Limits, e: PoolEntry, es: PoolEntries): set<Id> {
    var evicted := EvictedFor(l, e, es);
    var left := Restrict(es, evicted);
    evicted + if HasSpace(l, e, es) then Replacement(left, Conflicts(es, e.tx)) * left.Keys else {}
  }

  /** The ancestors the newcomer is given: those it has before anything is removed. */
  ghost function AncestorsFor(known: set<Id>, e: PoolEntry, es: PoolEntries): set<Id> {
    Closure(es, ParentIds(e.tx) - known)
  }

  /** It gets in when there is room and no ancestor that is left would have too many descendants. */
  ghost predicate Admits(l: Limits, known: set<Id>, e: PoolEntry, es: PoolEntries) {
    && HasSpace(l, e, es)
    && AllRoom(l, Join(Restrict(es, GoneFor(l, e, es)), e.tx.id, e, AncestorsFor(known, e, es)), AncestorsFor(known, e, es))
  }

  /** The answer and the pool after the screening was passed. */
  ghost predicate Settled(l: Limits, p: Pool, known: set<Id>, e: PoolEntry, reply: AddReply, q: Pool) {
    && !reply.Early()
    && (reply.MempoolLimits? <==> !HasSpace(l, e, p.entries))
    && (reply.Added? <==> Admits(l, known, e, p.entries))
    && Outcome(l, e, AncestorsFor(known, e, p.entries), ParentIds(e.tx) - known, reply, p.entries, p.parents,
               GoneFor(l, e, p.entries), q.entries, q.parents)
  }

  /** One call of add_transaction: the first check that fails decides, else what was settled. */
  ghost predicate AddStep(env: PoolEnv, p: Pool, chain: ChainView, tx: Tx, floorRate: real, packageRate: Option<real>, now: int,
                          reply: AddReply, q: Pool) {
    match Screen(env, p, chain, tx, floorRate, packageRate, now)
    case Some(refusal) => reply == refusal && q == p
    case None => Settled(env.limits, p, chain.known, NewEntry(env, chain, p.entries, tx, now), reply, q)
  }

  lemma SettledNoSpace(l: Limits, p: Pool, known: set<Id>, e: PoolEntry, q: Pool)
    requires !HasSpace(l, e, p.entries) && Left(p.entries, p.parents, EvictedFor(l, e, p.entries), q.entries, q.parents)
    ensures Settled(l, p, known, e, MempoolLimits, q)
  {
    hide HasSpace, EvictedFor, AncestorsFor, Left, Outcome;
    var evicted := EvictedFor(l, e, p.entries);
    assert evicted + {} == evicted;
    OutcomeNoRoom(l, e, AncestorsFor(known, e, p.entries), ParentIds(e.tx) - known, p, evicted, q);
  }

  lemma SettledAfter(l: Limits, p: Pool, known: set<Id>, e: PoolEntry, middle: Pool, taken: set<Id>, reply: AddReply, q: Pool)
    requires HasSpace(l, e, p.entries) && !reply.Early() && !reply.MempoolLimits?
    requires Left(p.entries, p.parents, EvictedFor(l, e, p.entries), middle.entries, middle.parents)
    requires taken == Replacement(middle.entries, Conflicts(p.entries, e.tx)) * middle.entries.Keys
    requires var ancestors := AncestorsFor(known, e, p.entries);
             && (reply.Added? <==> AllRoom(l, Join(Restrict(middle.entries, taken), e.tx.id, e, ancestors), ancestors))
             && Outcome(l, e, ancestors, ParentIds(e.tx) - known, reply, middle.entries, middle.parents, taken, q.entries, q.parents)
    ensures Settled(l, p, known, e, reply, q)
  {
    hide HasSpace, EvictedFor, AncestorsFor, Left, Outcome, AllRoom, Join, Restrict, Replacement, Conflicts, ParentIds;
    var evicted := EvictedFor(l, e, p.entries);
    LeftIs(p.entries, p.parents, evicted, middle.entries, middle.parents);
    RestrictTwice(p.entries, evicted, taken);
    OutcomeAfter(l, e, AncestorsFor(known, e, p.entries), ParentIds(e.tx) - known, reply, p, evicted, middle, taken, q.entries, q.parents);
  }

  // ---------------------------------------------------------- when promises break

  /** An ancestor is among those that go exactly when a parent is. */
  lemma ParentsGone(es: PoolEntries, gone: set<Id>, qs: set<Id>)
    requires Graph(es) && DescendantClosed(es, gone) && qs <= es.Keys
    ensures Closure(es, qs) !! gone <==> qs !! gone
  {
    hide Graph, DescendantClosed;
    if exists q :: q in qs && q in gone {
      var q :| q in qs && q in gone;
      assert q in Closure(es, qs);
    } else {
      forall a | a in Closure(es, qs)
        ensures a !in gone
      {
        if a !in qs {
          var q :| q in qs && q in es && a in es[q].ancestors;
          AncestorsStay(es, gone, q);
        }
      }
    }
  }

  lemma FitsInEnd(l: Limits, e: PoolEntry, es: PoolEntries, evicted: set<Id>, taken: set<Id>, r: Pool, ancestors: set<Id>)
    requires Core(r) && Graph(es) && e.tx.id !in es && FitsBeside(l, e.size, e.weight, Restrict(es, evicted))
    requires r.entries == Join(Restrict(es, evicted + taken), e.tx.id, e, ancestors)
    ensures r.totals.size <= l.maxSize && r.totals.weight <= l.maxWeight && |r.entries| <= l.maxTransactions
  {
    hide Core, Graph, Join, Restrict, TotalsOf;
    var fs := Restrict(es, evicted);
    RestrictTwice(es, evicted, taken);
    RestrictGraph(es, evicted);
    RestrictGraph(fs, taken);
    RestrictKeys(es, evicted + taken);
    CoreTotals(r);
    TotalsShrink(fs, Restrict(fs, taken));
    JoinTotals(Restrict(fs, taken), e.tx.id, e, ancestors);
  }

  /** Everything the pool promises is broken exactly when the newcomer gets in although one of its inputs spends an
      output of a transaction that had to go. */
  lemma SettledInv(l: Limits, p: Pool, known: set<Id>, e: PoolEntry, reply: AddReply, q: Pool)
    requires PoolInv(l, p, known) && Core(q) && Settled(l, p, known, e, reply, q)
    requires e.tx.id !in p.entries && e.tx.id !in known && ParentIds(e.tx) <= known + p.entries.Keys
    requires |AncestorsFor(known, e, p.entries)| <= l.maxAncestors
    requires e.vsize + Sum(Vsizes(p.entries), AncestorsFor(known, e, p.entries)) <= l.maxAncestorVsize
    ensures PoolInv(l, q, known) <==>
              !(Admits(l, known, e, p.entries) && !(ParentIds(e.tx) !! GoneFor(l, e, p.entries)))
  {
    hide Core, Graph, Linked, WithinLimits, Closure, ParentIds, Sum, Vsizes, Restrict, Join, EvictedFor, Replacement, Conflicts, AllRoom, FitsBeside;
    var es, direct, ancestors, gone := p.entries, ParentIds(e.tx) - known, AncestorsFor(known, e, p.entries), GoneFor(l, e, p.entries);
    if reply.Added? {
      OutcomeJoin(l, e, ancestors, direct, reply, es, p.parents, gone, q.entries, q.parents);
      var evicted := EvictedFor(l, e, es);
      assert evicted + (gone - evicted) == gone;
      FitsInEnd(l, e, es, evicted, gone - evicted, q, ancestors);
    }
    OutcomeInv(l, p, known, e, direct, ancestors, reply, gone, q);
    OutcomeClosed(l, e, ancestors, direct, reply, es, p.parents, gone, q.entries, q.parents);
    ParentsGone(es, gone, direct);
    assert ParentIds(e.tx) !! gone <==> direct !! gone;
  }

  /** For every admission: the promises survive unless the newcomer passes the screening, gets in, and spends an output
      of a transaction that eviction or replacement takes out for it. */
  lemma AdmissionBreaksExactly(env: PoolEnv, p: Pool, chain: ChainView, tx: Tx, floorRate: real, packageRate: Option<real>,
                               now: int, reply: AddReply, q: Pool)
    requires PoolInv(env.limits, p, chain.known) && Core(q)
    requires AddStep(env, p, chain, tx, floorRate, packageRate, now, reply, q)
    ensures PoolInv(env.limits, q, chain.known) <==> !Breaks(env, p, chain, tx, floorRate, packageRate, now)
  {
    hide Core, Graph, Linked, WithinLimits, Closure, ParentIds, Sum, Vsizes, GoneFor, Admits, Settled, MayReplace, Conflicts, Ignored, InputValue, OutputValue,
      PoolEntry.FeeRate;
    if Screen(env, p, chain, tx, floorRate, packageRate, now).None? {
      SettledInv(env.limits, p, chain.known, NewEntry(env, chain, p.entries, tx, now), reply, q);
    }
  }

  /** Can be told before the call. */
  ghost predicate Breaks(env: PoolEnv, p: Pool, chain: ChainView, tx: Tx, floorRate: real, packageRate: Option<real>, now: int) {
    var e := NewEntry(env, chain, p.entries, tx, now);
    && Screen(env, p, chain, tx, floorRate, packageRate, now).None?
    && Admits(env.limits, chain.known, e, p.entries)
    && !(ParentIds(tx) !! GoneFor(env.limits, e, p.entries))
  }

  // --------------------------------------------------------------- without eviction

  lemma FittingEvictsNone(l: Limits, e: PoolEntry, es: PoolEntries)
    requires Graph(es) && FitsBeside(l, e.size, e.weight, es)
    ensures EvictedFor(l, e, es) == {} && HasSpace(l, e, es)
    ensures GoneFor(l, e, es) == Replacement(es, Conflicts(es, e.tx))
  {
    hide Graph, FitsBeside, Conflicts, Replacement, Restrict;
    RestrictNone(es);
    ConflictsPooled(es, e.tx);
    ReplacementIn(es, Conflicts(es, e.tx));
  }

  lemma FeeTotal(es: PoolEntries)
    ensures TotalsOf(es).fee == Sum(FeesOf(es), es.Keys)
  {
  }

  lemma TotalFeeAfter(p: Pool, gone: set<Id>, e: PoolEntry, ancestors: set<Id>, q: Pool)
    requires Core(p) && Core(q) && gone <= p.entries.Keys && e.tx.id !in p.entries
    requires q.entries == Join(Restrict(p.entries, gone), e.tx.id, e, ancestors)
    ensures q.totals.fee == p.totals.fee - Sum(FeesOf(p.entries), gone) + e.fee
  {
    hide Core, Join, Restrict, Sum, FeesOf, Sizes, Vsizes, Weights, TotalsOf;
    CoreTotals(p);
    CoreTotals(q);
    var es, fs := p.entries, Restrict(p.entries, gone);
    RestrictKeys(es, gone);
    JoinTotals(fs, e.tx.id, e, ancestors);
    assert TotalsOf(fs).fee == Sum(FeesOf(fs), fs.Keys) && TotalsOf(es).fee == Sum(FeesOf(es), es.Keys) by {
      FeeTotal(es);
      FeeTotal(fs);
    }
    RestrictSums(es, gone, es.Keys - gone);
    SumUnion(FeesOf(es), gone, es.Keys - gone);
    assert gone + (es.Keys - gone) == es.Keys;
  }

  /** A replacement that needs no eviction and is let in removes exactly the conflicting transactions and what depends on
      them, and the pool's fees rise by more than the relay fee of the newcomer (compare rules 3 and 4 of BIP 125). */
  lemma ReplacementPays(env: PoolEnv, p: Pool, chain: ChainView, tx: Tx, floorRate: real, packageRate: Option<real>, now: int,
                        q: Pool)
    requires PoolInv(env.limits, p, chain.known) && Core(q) && Conflicts(p.entries, tx) != {}
    requires Accepts(env.limits, NewEntry(env, chain, p.entries, tx, now), p)
    requires AddStep(env, p, chain, tx, floorRate, packageRate, now, Added, q)
    ensures q.entries.Keys == p.entries.Keys - Replacement(p.entries, Conflicts(p.entries, tx)) + {tx.id}
    ensures forall y :: y in Replacement(p.entries, Conflicts(p.entries, tx)) <==>
              y in p.entries && (y in Conflicts(p.entries, tx) || exists c :: c in Conflicts(p.entries, tx) && c in p.entries[y].ancestors)
    ensures q.totals.fee > p.totals.fee + VirtualSize(env.weightOf(tx)) * env.minRelayFee
  {
    hide Core, Graph, Linked, WithinLimits, PoolTxOk, Closure, ParentIds, Join, Restrict, Sum, FeesOf, Vsizes, Conflicts,
      DescendantClosed, Room, InheritsSignal, OldParent, InputValue, OutputValue, Ignored, Rate, EvictedFor, GoneFor, Admits, FitsBeside;
    var es, e, conflicts := p.entries, NewEntry(env, chain, p.entries, tx, now), Conflicts(p.entries, tx);
    var ancestors := AncestorsFor(chain.known, e, es);
    var gone := GoneFor(env.limits, e, es);
    FitsMeans(env.limits, e.size, e.weight, p);
    FittingEvictsNone(env.limits, e, es);
    ConflictsPooled(es, tx);
    ReplacementIn(es, conflicts);
    assert Settled(env.limits, p, chain.known, e, Added, q);
    TotalFeeAfter(p, gone, e, ancestors, q);
    RestrictKeys(es, gone);
    JoinBodies(Restrict(es, gone), tx.id, e, ancestors);
    assert MayReplace(env, es, p.parents, conflicts, tx, e.fee, e.vsize);
    assert VirtualSize(env.weightOf(tx)) * env.minRelayFee == env.minRelayFee * Max(1, e.vsize);
    ReplacementReached(es, conflicts);
  }

  /** Where no eviction is needed an admission breaks the promises exactly when the newcomer gets in and one of its inputs
      spends an output of what it replaces or of something that depends on that.  The replacement policy allows such an input. */
  lemma ReplacementBreaksExactly(env: PoolEnv, p: Pool, chain: ChainView, tx: Tx, floorRate: real, packageRate: Option<real>,
                                 now: int, reply: AddReply, q: Pool)
    requires PoolInv(env.limits, p, chain.known) && Core(q)
    requires Accepts(env.limits, NewEntry(env, chain, p.entries, tx, now), p)
    requires AddStep(env, p, chain, tx, floorRate, packageRate, now, reply, q)
    ensures PoolInv(env.limits, q, chain.known) <==>
              !(&& Screen(env, p, chain, tx, floorRate, packageRate, now).None?
                && Admits(env.limits, chain.known, NewEntry(env, chain, p.entries, tx, now), p.entries)
                && exists i :: 0 <= i < |tx.vin| && tx.vin[i].prev.txid in Replacement(p.entries, Conflicts(p.entries, tx)))
    ensures forall x :: x in Replacement(p.entries, Conflicts(p.entries, tx)) ==>
              OldParent(p.entries, p.parents, Replacement(p.entries, Conflicts(p.entries, tx)), x)
  {
    hide Core, Graph, Linked, WithinLimits, AddStep, Screen, Admits, Conflicts, Replacement, GoneFor, NewEntry, EvictedFor, FitsBeside;
    var e := NewEntry(env, chain, p.entries, tx, now);
    AdmissionBreaksExactly(env, p, chain, tx, floorRate, packageRate, now, reply, q);
    FitsMeans(env.limits, e.size, e.weight, p);
    FittingEvictsNone(env.limits, e, p.entries);
    EntryTx(env, chain, p.entries, tx, now);
  }

  lemma EntryTx(env: PoolEnv, chain: ChainView, es: PoolEntries, tx: Tx, now: int)
    ensures NewEntry(env, chain, es, tx, now).tx == tx
  {
  }

  /** A newcomer for which there is room and that conflicts with nothing removes nothing and keeps the promises. */
  lemma PlainAdmissionKeeps(env: PoolEnv, p: Pool, chain: ChainView, tx: Tx, floorRate: real, packageRate: Option<real>,
                            now: int, reply: AddReply, q: Pool)
    requires PoolInv(env.limits, p, chain.known) && Core(q) && Conflicts(p.entries, tx) == {}
    requires Accepts(env.limits, NewEntry(env, chain, p.entries, tx, now), p)
    requires AddStep(env, p, chain, tx, floorRate, packageRate, now, reply, q)
    ensures p.entries.Keys <= q.entries.Keys && PoolInv(env.limits, q, chain.known)
  {
    hide Core, Graph, Linked, WithinLimits, Screen, Admits, Conflicts, GoneFor, NewEntry, EvictedFor, FitsBeside, Replacement;
    var e := NewEntry(env, chain, p.entries, tx, now);
    ReplacementNone(p.entries);
    ReplacementBreaksExactly(env, p, chain, tx, floorRate, packageRate, now, reply, q);
    FitsMeans(env.limits, e.size, e.weight, p);
    FittingEvictsNone(env.limits, e, p.entries);
    EntryTx(env, chain, p.entries, tx, now);
    RestrictNone(p.entries);
  }
}
