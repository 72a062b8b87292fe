/** What a connected block does to the memory pool: confirmed transactions go, and of the
    rest those that are no longer good, each with everything that depends on it. */
module Revalidation {
  import opened Ledger
  import opened PoolSpec
  import opened Admission

  /** Ids of the first n transactions, coinbases aside. */
  function Confirmed(txs: seq<Tx>, n: nat): set<Id>
    requires n <= |txs|
  {
    set i | 0 <= i < n && !txs[i].IsCoinbase() :: txs[i].id
  }

  lemma ConfirmedNext(txs: seq<Tx>, n: nat)
    requires n < |txs|
    ensures Confirmed(txs, n + 1) == Confirmed(txs, n) + if txs[n].IsCoinbase() then {} else {txs[n].id}
    ensures Confirmed(txs, 0) == {}
  {
  }

  /** These entries and everything that depends on them. */
  function Cut(es: PoolEntries, ids: set<Id>): set<Id> {
    Replacement(es, ids * es.Keys)
  }

  /** What revalidation asks of a pooled transaction; its own inputs do not count as spent. */
  predicate StillGood(env: PoolEnv, chain: ChainView, es: PoolEntries, tx: Tx) {
    && PoolTxOk(env, chain, es, map[], tx, Inputs(tx))
    && ParentIds(tx) <= chain.known + es.Keys && env.standard(tx)
    && InputValue(chain, es, tx, |tx.vin|) - OutputValue(tx, |tx.vout|) >= VirtualSize(env.weightOf(tx)) * env.minRelayFee
  }

  ghost function StaleIn(env: PoolEnv, chain: ChainView, es: PoolEntries): set<Id> {
    set x | x in es && !StillGood(env, chain, es, es[x].tx)
  }

  /** Entries after the confirmed ones left. */
  ghost function Unconfirmed(es: PoolEntries, txs: seq<Tx>): PoolEntries {
    Restrict(es, Cut(es, Confirmed(txs, |txs|)))
  }

  /** One call of handle_connected_block. */
  ghost predicate BlockStep(env: PoolEnv, p: Pool, chain: ChainView, txs: seq<Tx>, q: Pool) {
    var rest := Unconfirmed(p.entries, txs);
    var stale := Cut(rest, StaleIn(env, chain, rest));
    q.entries == Restrict(rest, stale) && q.parents == p.parents - Cut(p.entries, Confirmed(txs, |txs|)) - stale
  }

  // ------------------------------------------------------------------- removals

  lemma CutNone(es: PoolEntries)
    ensures Cut(es, {}) == {}
  {
    assert {} * es.Keys == {};
    ReplacementNone(es);
  }

  lemma CutIn(es: PoolEntries, ids: set<Id>)
    requires Graph(es)
    ensures Cut(es, ids) <= es.Keys && DescendantClosed(es, Cut(es, ids))
    ensures forall y :: y in Cut(es, ids) <==> y in es && !Spared(es, ids, y)
  {
    hide Graph, DescendantClosed, Replacement;
    ReplacementIn(es, ids * es.Keys);
    ReplacementReached(es, ids * es.Keys);
    forall y
      ensures y in Cut(es, ids) <==> y in es && !Spared(es, ids, y)
    {
      if y in es {
        GraphOf(es, y);
        assert !Spared(es, ids, y) <==> y in ids || exists a :: a in ids && a in es[y].ancestors;
        assert forall a :: a in es[y].ancestors ==> a in es;
      }
    }
  }

  /** Neither the entry nor an ancestor of it is one of these. */
  predicate Spared(es: PoolEntries, ids: set<Id>, y: Id)
    requires y in es
  {
    y !in ids && forall a :: a in ids ==> a !in es[y].ancestors
  }

  /** Cutting one more is removing it, with what still depends on it, from what was left. */
  lemma CutMore(es: PoolEntries, parents: ParentMap, ids: set<Id>, x: Id)
    requires Graph(es)
    ensures var before, after := Cut(es, ids), Cut(es, ids + {x});
            var more := Removed(Restrict(es, before), x, true);
            && after == before + more
            && Restrict(Restrict(es, before), more) == Restrict(es, after) && parents - before - more == parents - after
  {
    hide Graph, Restrict;
    var before := Cut(es, ids);
    var more := Removed(Restrict(es, before), x, true);
    RestrictTwice(es, before, more);
    CutOne(es, ids, x);
  }

  lemma CutOne(es: PoolEntries, ids: set<Id>, x: Id)
    requires Graph(es)
    ensures var before := Cut(es, ids);
            Cut(es, ids + {x}) == before + Removed(Restrict(es, before), x, true)
  {
    hide Graph, Replacement;
    CutIn(es, ids);
    ReplacementNext(es, ids * es.Keys, x);
    if x in es {
      assert (ids + {x}) * es.Keys == ids * es.Keys + {x};
      if x in Cut(es, ids) {
        assert Below(es, x) <= Cut(es, ids);
      } else {
        InRestrict(es, Cut(es, ids), x);
        assert Removed(Restrict(es, Cut(es, ids)), x, true) == {x} + (es[x].descendants - Cut(es, ids));
      }
    } else {
      assert (ids + {x}) * es.Keys == ids * es.Keys;
    }
  }

  lemma CutLinked(es: PoolEntries, parents: ParentMap, known: set<Id>, ids: set<Id>)
    requires Graph(es) && Linked(es, parents, known)
    ensures Graph(Restrict(es, Cut(es, ids))) && Linked(Restrict(es, Cut(es, ids)), parents - Cut(es, ids), known)
  {
    hide Graph, Linked, Cut;
    CutIn(es, ids);
    RestrictGraph(es, Cut(es, ids));
    RestrictLinked(es, parents, known, Cut(es, ids));
  }

  // --------------------------------------------------------------- revalidation

  // Where a transaction's own inputs are ignored it does not matter what else is spent.
  lemma OwnInputs(env: PoolEnv, chain: ChainView, es: PoolEntries, spent: SpentIndex, tx: Tx)
    ensures PoolTxOk(env, chain, es, spent, tx, Inputs(tx)) == PoolTxOk(env, chain, es, map[], tx, Inputs(tx))
  {
    hide CoinFor;
    forall i | 0 <= i < |tx.vin|
      ensures InputFits(env, chain, es, spent, tx, Inputs(tx), i) == InputFits(env, chain, es, map[], tx, Inputs(tx), i)
    {
      assert tx.vin[i].prev in Inputs(tx);
    }
  }

  lemma {:induction false} SameValue(chain: ChainView, es: PoolEntries, fs: PoolEntries, tx: Tx, n: nat)
    requires n <= |tx.vin| && forall i :: 0 <= i < n ==> CoinFor(chain, fs, tx.vin[i].prev) == CoinFor(chain, es, tx.vin[i].prev)
    ensures InputValue(chain, fs, tx, n) == InputValue(chain, es, tx, n)
    decreases n
  {
    hide CoinFor;
    if n > 0 {
      SameValue(chain, es, fs, tx, n - 1);
    }
  }

  /** A transaction whose pooled parents stayed is exactly as good as before. */
  lemma StillGoodAfter(env: PoolEnv, chain: ChainView, es: PoolEntries, fs: PoolEntries, tx: Tx)
    requires fs.Keys <= es.Keys && forall q :: q in ParentIds(tx) && q in es ==> q in fs && fs[q].tx == es[q].tx
    ensures StillGood(env, chain, fs, tx) == StillGood(env, chain, es, tx)
  {
    forall i | 0 <= i < |tx.vin|
      ensures CoinFor(chain, fs, tx.vin[i].prev) == CoinFor(chain, es, tx.vin[i].prev)
      ensures InputFits(env, chain, fs, map[], tx, Inputs(tx), i) == InputFits(env, chain, es, map[], tx, Inputs(tx), i)
    {
      assert tx.vin[i].prev.txid in ParentIds(tx);
    }
    SameValue(chain, es, fs, tx, |tx.vin|);
    assert ParentIds(tx) <= chain.known + es.Keys <==> ParentIds(tx) <= chain.known + fs.Keys;
  }

  lemma ParentsStay(es: PoolEntries, parents: ParentMap, known: set<Id>, gone: set<Id>, x: Id)
    requires Graph(es) && Linked(es, parents, known) && DescendantClosed(es, gone) && x in es && x !in gone
    ensures forall q :: q in ParentIds(es[x].tx) && q in es ==> q !in gone
  {
    hide Graph, DescendantClosed;
    assert LinkedAt(es, parents, known, x);
    AncestorsStay(es, gone, x);
    forall q | q in ParentIds(es[x].tx) && q in es
      ensures q !in gone
    {
      assert q in ParentsOf(parents, x);
      assert q in es[x].ancestors;
    }
  }

  /** Looking at an entry late gives the same verdict as looking at it at once, so the order does not matter. */
  lemma StaleLater(env: PoolEnv, chain: ChainView, es: PoolEntries, parents: ParentMap, known: set<Id>, gone: set<Id>, x: Id)
    requires Graph(es) && Linked(es, parents, known) && DescendantClosed(es, gone) && x in Restrict(es, gone)
    ensures StillGood(env, chain, Restrict(es, gone), Restrict(es, gone)[x].tx) <==> x !in StaleIn(env, chain, es)
  {
    hide Graph, Linked, DescendantClosed, StillGood, ParentIds;
    ParentsStay(es, parents, known, gone, x);
    StillGoodAfter(env, chain, es, Restrict(es, gone), es[x].tx);
  }

  // --------------------------------------------------------------- main results

  /** What passed the revalidation is not on the chain, so the promises hold against the larger chain. */
  lemma KnownGrows(env: PoolEnv, chain: ChainView, known: set<Id>, p: Pool)
    requires PoolInv(env.limits, p, known) && known <= chain.known
    requires forall x :: x in p.entries ==> StillGood(env, chain, p.entries, p.entries[x].tx)
    ensures PoolInv(env.limits, p, chain.known)
  {
    hide Core, Graph, WithinLimits, ParentIds, Closure;
    CoreShaped(p);
    forall x | x in p.entries
      ensures LinkedAt(p.entries, p.parents, chain.known, x) && x !in chain.known
    {
      assert LinkedAt(p.entries, p.parents, known, x);
      assert StillGood(env, chain, p.entries, p.entries[x].tx);
      assert p.entries[x].tx.id == x;
    }
    assert p.entries.Keys !! chain.known by {
      assert forall x :: x in p.entries.Keys ==> x in p.entries && x !in chain.known;
    }
    assert p.parents.Keys <= p.entries.Keys;
  }

  /** An entry stays exactly when neither it nor an ancestor is confirmed, and then neither it nor an ancestor fails the
      revalidation among those left; and all that stay are good in the pool they end up in. */
  lemma BlockRemovesExactly(env: PoolEnv, p: Pool, chain: ChainView, known: set<Id>, txs: seq<Tx>, q: Pool)
    requires Graph(p.entries) && Linked(p.entries, p.parents, known) && BlockStep(env, p, chain, txs, q)
    ensures var rest := Unconfirmed(p.entries, txs);
            && (forall y :: y in rest <==> y in p.entries && Spared(p.entries, Confirmed(txs, |txs|), y))
            && (forall y :: y in q.entries <==> y in rest && Spared(rest, StaleIn(env, chain, rest), y))
            && forall y :: y in q.entries ==> q.entries[y].tx == p.entries[y].tx && StillGood(env, chain, q.entries, q.entries[y].tx)
  {
    hide Graph, Linked, Spared, StillGood, Cut, Confirmed, DescendantClosed;
    var es, rest, out := p.entries, Unconfirmed(p.entries, txs), Cut(p.entries, Confirmed(txs, |txs|));
    var stale := StaleIn(env, chain, rest);
    CutIn(es, Confirmed(txs, |txs|));
    CutLinked(es, p.parents, known, Confirmed(txs, |txs|));
    CutIn(rest, stale);
    forall y | y in q.entries
      ensures StillGood(env, chain, q.entries, q.entries[y].tx)
    {
      assert Spared(rest, stale, y);
      SparedIsOut(rest, stale, y);
      StaleLater(env, chain, rest, p.parents - out, known, Cut(rest, stale), y);
    }
  }

  lemma SparedIsOut(es: PoolEntries, ids: set<Id>, y: Id)
    requires y in es && Spared(es, ids, y)
    ensures y !in ids
  {
  }

  /** A connected block keeps everything the pool promises, now against the chain with that block. */
  lemma BlockStepKeepsInv(env: PoolEnv, p: Pool, chain: ChainView, known: set<Id>, txs: seq<Tx>, q: Pool)
    requires PoolInv(env.limits, p, known) && known <= chain.known && Core(q) && BlockStep(env, p, chain, txs, q)
    ensures PoolInv(env.limits, q, chain.known)
  {
    hide Core, Graph, Linked, WithinLimits, StillGood, Cut, Confirmed, DescendantClosed, StaleIn, Restrict;
    var rest, out := Unconfirmed(p.entries, txs), Cut(p.entries, Confirmed(txs, |txs|));
    var more := Cut(rest, StaleIn(env, chain, rest));
    CutIn(p.entries, Confirmed(txs, |txs|));
    CutLinked(p.entries, p.parents, known, Confirmed(txs, |txs|));
    CutIn(rest, StaleIn(env, chain, rest));
    ClosedUnion(p.entries, out, more);
    RestrictTwice(p.entries, out, more);
    assert p.parents - out - more == p.parents - (out + more);
    RemovalKeepsInv(env.limits, p, known, out + more, q);
    BlockRemovesExactly(env, p, chain, known, txs, q);
    KnownGrows(env, chain, known, q);
  }
}
