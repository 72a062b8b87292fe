/** What a transaction must be like to enter the pool, and what it may take the place of,
    written out on the transactions themselves. */
module PoolRules {
  import opened Ledger
  import opened PoolSpec
  import opened Admission
  import opened Eviction
  import opened Settlement
  import opened Revalidation

  // --------------------------------------------------------------- replacement

  predicate ShareInput(a: Tx, b: Tx) {
    exists i, j :: 0 <= i < |a.vin| && 0 <= j < |b.vin| && a.vin[i].prev == b.vin[j].prev
  }

  /** Pooled transactions that spend something the newcomer spends. */
  ghost function Rivals(es: PoolEntries, tx: Tx): set<Id> {
    set x | x in es && ShareInput(es[x].tx, tx)
  }

  /** The rivals and everything that has one as an ancestor. */
  ghost function Displaced(es: PoolEntries, tx: Tx): set<Id> {
    set y | y in es && (y in Rivals(es, tx) || exists c :: c in Rivals(es, tx) && c in es[y].ancestors)
  }

  predicate OptsIn(tx: Tx) {
    exists i :: 0 <= i < |tx.vin| && tx.vin[i].sequence < 0xffff_fffe
  }

  /** It or one of its stored ancestors opts in. */
  ghost predicate Replaceable(es: PoolEntries, x: Id)
    requires x in es
  {
    OptsIn(es[x].tx) || exists a :: a in es[x].ancestors && a in es && OptsIn(es[a].tx)
  }

  /** Some replaced transaction already spends from this one. */
  ghost predicate SpentByDisplaced(es: PoolEntries, tx: Tx, parent: Id) {
    exists c :: c in Displaced(es, tx) && parent in ParentIds(es[c].tx)
  }

  /** The rules for replacing all rivals with what depends on them: at most 100 of them, not too large together, every
      rival replaceable, no new unconfirmed parent, more fee by the relay fee of the newcomer, and a higher rate. */
  ghost predicate MayDisplace(env: PoolEnv, es: PoolEntries, tx: Tx, fee: int, vsize: nat) {
    var gone := Displaced(es, tx);
    var oldFee, oldVsize := Sum(FeesOf(es), gone), Sum(Vsizes(es), gone);
    && |gone| <= 100
    && (oldVsize <= 1 || oldVsize <= env.limits.maxPackageWeight / 4)
    && (forall c :: c in Rivals(es, tx) ==> Replaceable(es, c))
    && (forall i :: 0 <= i < |tx.vin| ==>
          var q := tx.vin[i].prev.txid; q in es && q !in gone ==> SpentByDisplaced(es, tx, q))
    && fee > oldFee + vsize * env.minRelayFee
    && fee * oldVsize > oldFee * vsize
    && forall c :: c in gone ==> es[c].tx != tx
  }

  lemma RivalsAre(es: PoolEntries, tx: Tx)
    ensures Conflicts(es, tx) == Rivals(es, tx)
  {
    forall x | x in es
      ensures Clash(es[x].tx, tx) <==> ShareInput(es[x].tx, tx)
    {
      var a := es[x].tx;
      if Clash(a, tx) {
        var j :| 0 <= j < |tx.vin| && tx.vin[j].prev in Inputs(a);
        var i :| 0 <= i < |a.vin| && a.vin[i].prev == tx.vin[j].prev;
      }
      if ShareInput(a, tx) {
        var i, j :| 0 <= i < |a.vin| && 0 <= j < |tx.vin| && a.vin[i].prev == tx.vin[j].prev;
        assert a.vin[i].prev in Inputs(a);
      }
    }
  }

  lemma DisplacedAre(es: PoolEntries, tx: Tx)
    requires Graph(es)
    ensures Replacement(es, Conflicts(es, tx)) == Displaced(es, tx) && Displaced(es, tx) <= es.Keys
    ensures Conflicts(es, tx) == Rivals(es, tx)
  {
    hide Graph, Replacement, Conflicts, Rivals;
    RivalsAre(es, tx);
    ConflictsPooled(es, tx);
    ReplacementReached(es, Conflicts(es, tx));
    forall y
      ensures y in Replacement(es, Conflicts(es, tx)) <==> y in Displaced(es, tx)
    {
      assert y in Replacement(es, Conflicts(es, tx)) <==>
             y in es && (y in Conflicts(es, tx) || exists c :: c in Conflicts(es, tx) && c in es[y].ancestors);
    }
  }

  lemma RateCross(a: int, b: int, c: int, d: int)
    requires b > 0 && d > 0
    ensures a as real / b as real > c as real / d as real <==> a * d > c * b
  {
    var x, y := a as real / b as real, c as real / d as real;
    assert x * b as real == a as real && y * d as real == c as real;
    assert (a * d) as real == a as real * d as real == x * (b as real * d as real);
    assert (c * b) as real == c as real * b as real == y * (b as real * d as real);
    assert b as real * d as real > 0.0;
    if x > y {
      assert x * (b as real * d as real) > y * (b as real * d as real);
    } else {
      assert x * (b as real * d as real) <= y * (b as real * d as real);
    }
  }

  lemma ParentsAre(es: PoolEntries, parents: ParentMap, known: set<Id>, tx: Tx, q: Id)
    requires Graph(es) && Linked(es, parents, known) && Displaced(es, tx) <= es.Keys
    ensures OldParent(es, parents, Displaced(es, tx), q) <==> (q in es && q !in Displaced(es, tx) ==> SpentByDisplaced(es, tx, q))
  {
    hide Graph, Displaced, ParentIds;
    if q in es {
      forall c | c in Displaced(es, tx)
        ensures q in ParentsOf(parents, c) <==> q in ParentIds(es[c].tx)
      {
        assert LinkedAt(es, parents, known, c);
      }
    }
  }

  /** The replacement policy accepts exactly when these rules hold. */
  lemma MayReplaceExactly(env: PoolEnv, p: Pool, known: set<Id>, tx: Tx, fee: int, vsize: nat)
    requires PoolInv(env.limits, p, known) && Rivals(p.entries, tx) != {} && vsize >= 1
    ensures Conflicts(p.entries, tx) <= p.entries.Keys
    ensures MayReplace(env, p.entries, p.parents, Conflicts(p.entries, tx), tx, fee, vsize) <==> MayDisplace(env, p.entries, tx, fee, vsize)
  {
    hide Core, Graph, Linked, WithinLimits, Conflicts, Rivals, Displaced, Replacement, Sum, Vsizes, FeesOf, OldParent, SpentByDisplaced;
    var es := p.entries;
    DisplacedAre(es, tx);
    ConflictsPooled(es, tx);
    SomeId(Rivals(es, tx));
    var x :| x in Rivals(es, tx);
    assert x in Displaced(es, tx) by {
      RivalIsDisplaced(es, tx, x);
    }
    CoreParts(p);
    PositiveVsize(es, Displaced(es, tx), x);
    var oldFee, oldVsize := Sum(FeesOf(es), Displaced(es, tx)), Sum(Vsizes(es), Displaced(es, tx));
    RateCross(fee, vsize, oldFee, oldVsize);
    forall i | 0 <= i < |tx.vin|
      ensures OldParent(es, p.parents, Displaced(es, tx), tx.vin[i].prev.txid) <==>
              (tx.vin[i].prev.txid in es && tx.vin[i].prev.txid !in Displaced(es, tx) ==> SpentByDisplaced(es, tx, tx.vin[i].prev.txid))
    {
      ParentsAre(es, p.parents, known, tx, tx.vin[i].prev.txid);
    }
    forall c | c in Rivals(es, tx)
      ensures c in es && (InheritsSignal(es, c) <==> Replaceable(es, c))
    {
      SignalsAre(es, c);
    }
  }

  lemma RivalIsDisplaced(es: PoolEntries, tx: Tx, x: Id)
    requires x in Rivals(es, tx)
    ensures x in Displaced(es, tx) && x in es
  {
  }

  lemma SignalsAre(es: PoolEntries, x: Id)
    requires x in es
    ensures InheritsSignal(es, x) <==> Replaceable(es, x)
  {
    assert forall tx: Tx :: Signals(tx) <==> OptsIn(tx);
  }

  // ------------------------------------------------------------------- admission

  /** Where an input takes its coin from: the chain, or else an output of a pooled transaction. */
  predicate CoinThere(chain: ChainView, es: PoolEntries, o: OutPoint) {
    o in chain.coins || (o.txid in es && o.index < |es[o.txid].tx.vout|)
  }

  function CoinBehind(chain: ChainView, es: PoolEntries, o: OutPoint): Coin
    requires CoinThere(chain, es, o)
  {
    if o in chain.coins then chain.coins[o]
    else Coin(es[o.txid].tx.vout[o.index].value, es[o.txid].tx.vout[o.index].script, Max(0, chain.height), false)
  }

  function WorthBehind(chain: ChainView, es: PoolEntries, tx: Tx, n: nat): int
    requires n <= |tx.vin|
    decreases n
  {
    if n == 0 then 0
    else WorthBehind(chain, es, tx, n - 1)
         + if CoinThere(chain, es, tx.vin[n - 1].prev) then CoinBehind(chain, es, tx.vin[n - 1].prev).value else 0
  }

  function FeePaid(chain: ChainView, es: PoolEntries, tx: Tx): int {
    WorthBehind(chain, es, tx, |tx.vin|) - OutputValue(tx, |tx.vout|)
  }

  /** The rules on the transaction alone and on the coins it spends. */
  predicate TxObeys(env: PoolEnv, chain: ChainView, es: PoolEntries, tx: Tx) {
    && |tx.vin| > 0 && |tx.vout| > 0 && !(|tx.vin| == 1 && tx.vin[0].prev == OutPoint(0, 0xffff_ffff))
    && env.consensusOk(tx, chain.height + 1) && tx.id !in chain.known
    && (forall n :: 0 <= n < |tx.vout| ==> tx.vout[n].value > 0 && |tx.vout[n].script| > 0)
    && OutputValue(tx, |tx.vout|) <= env.maxMoney
    && (forall i, j :: 0 <= i < j < |tx.vin| ==> tx.vin[i].prev != tx.vin[j].prev)
    && (forall i :: 0 <= i < |tx.vin| ==> SpendObeys(env, chain, es, tx, i))
    && FeePaid(chain, es, tx) >= 0
  }

  /** The coin is there, a coinbase coin is old enough in the next block, and the script is satisfied. */
  predicate SpendObeys(env: PoolEnv, chain: ChainView, es: PoolEntries, tx: Tx, i: nat)
    requires i < |tx.vin|
  {
    && CoinThere(chain, es, tx.vin[i].prev)
    && var coin := CoinBehind(chain, es, tx.vin[i].prev);
    && (coin.coinbase ==> coin.height + env.maturity <= chain.height + 1)
    && env.scriptOk(tx, i, coin)
  }

  /** Pooled parents and all their ancestors. */
  ghost function Forebears(es: PoolEntries, tx: Tx): set<Id> {
    set a | a in es && (a in ParentIds(tx) || exists q :: q in ParentIds(tx) && q in es && a in es[q].ancestors)
  }

  /** All that the checks before an admission ask for. */
  ghost predicate MayEnter(env: PoolEnv, p: Pool, chain: ChainView, tx: Tx, floorRate: real, packageRate: Option<real>) {
    var es, fee, vsize := p.entries, FeePaid(chain, p.entries, tx), VirtualSize(env.weightOf(tx));
    && tx.id !in es
    && (Rivals(es, tx) != {} ==> MayDisplace(env, es, tx, fee, vsize))
    && TxObeys(env, chain, es, tx) && env.standard(tx)
    && (fee as real >= floorRate * vsize as real || (packageRate.Some? && packageRate.value >= floorRate))
    && (forall i :: 0 <= i < |tx.vin| ==> tx.vin[i].prev.txid in chain.known || tx.vin[i].prev.txid in es)
    && |Forebears(es, tx)| <= env.limits.maxAncestors
    && vsize + Sum(Vsizes(es), Forebears(es, tx)) <= env.limits.maxAncestorVsize
  }

  lemma CoinIs(chain: ChainView, es: PoolEntries, o: OutPoint)
    ensures CoinFor(chain, es, o) == if CoinThere(chain, es, o) then Some(CoinBehind(chain, es, o)) else None
  {
  }

  lemma {:induction false} WorthIs(chain: ChainView, es: PoolEntries, tx: Tx, n: nat)
    requires n <= |tx.vin|
    ensures InputValue(chain, es, tx, n) == WorthBehind(chain, es, tx, n)
    decreases n
  {
    if n > 0 {
      WorthIs(chain, es, tx, n - 1);
      CoinIs(chain, es, tx.vin[n - 1].prev);
    }
  }

  /** With positive outputs every partial sum is within the money limit exactly when the whole is. */
  lemma {:induction false} OutputsAre(env: PoolEnv, tx: Tx, n: nat)
    requires n <= |tx.vout|
    ensures OutputsOk(env, tx, n) <==>
            (forall k :: 0 <= k < n ==> tx.vout[k].value > 0 && |tx.vout[k].script| > 0) && (n > 0 ==> OutputValue(tx, n) <= env.maxMoney)
    decreases n
  {
    if n > 0 {
      OutputsAre(env, tx, n - 1);
    }
  }

  /** The pool's own validation, with the inputs in `ignored` left out of the double-spend check, accepts exactly when the
      rules hold and no other outpoint it spends is spent already. */
  lemma PoolTxExactly(env: PoolEnv, chain: ChainView, es: PoolEntries, spent: SpentIndex, tx: Tx, ignored: set<OutPoint>)
    ensures PoolTxOk(env, chain, es, spent, tx, ignored) <==>
            && TxObeys(env, chain, es, tx)
            && forall i :: 0 <= i < |tx.vin| ==> tx.vin[i].prev in ignored || !InSpent(spent, tx.vin[i].prev)
  {
    hide CoinFor, CoinBehind, CoinThere, OutputsOk;
    OutputsAre(env, tx, |tx.vout|);
    WorthIs(chain, es, tx, |tx.vin|);
    forall i | 0 <= i < |tx.vin|
      ensures InputFits(env, chain, es, spent, tx, ignored, i) <==>
              && SpendObeys(env, chain, es, tx, i) && (forall k :: 0 <= k < i ==> tx.vin[k].prev != tx.vin[i].prev)
              && (tx.vin[i].prev in ignored || !InSpent(spent, tx.vin[i].prev))
    {
      CoinIs(chain, es, tx.vin[i].prev);
    }
  }

  lemma IgnoredAll(p: Pool, tx: Tx)
    requires Core(p)
    ensures forall i :: 0 <= i < |tx.vin| ==> tx.vin[i].prev in Ignored(p.entries, Conflicts(p.entries, tx)) || !InSpent(p.spent, tx.vin[i].prev)
  {
    CoreParts(p);
    forall i | 0 <= i < |tx.vin| && InSpent(p.spent, tx.vin[i].prev)
      ensures tx.vin[i].prev in Ignored(p.entries, Conflicts(p.entries, tx))
    {
      var o := tx.vin[i].prev;
      assert o in AllInputs(p.entries);
      var x :| x in p.entries && o in Inputs(p.entries[x].tx);
      assert Clash(p.entries[x].tx, tx);
      assert x in Conflicts(p.entries, tx);
    }
  }

  lemma ForebearsAre(p: Pool, known: set<Id>, tx: Tx)
    requires Graph(p.entries) && p.entries.Keys !! known && ParentIds(tx) <= known + p.entries.Keys
    ensures Closure(p.entries, ParentIds(tx) - known) == Forebears(p.entries, tx)
  {
    hide Graph, ParentIds;
    ClosureIn(p.entries, ParentIds(tx) - known);
  }

  lemma FloorIs(fee: int, vsize: nat, floorRate: real)
    requires vsize > 0
    ensures fee as real / vsize as real < floorRate <==> (fee as real) < floorRate * vsize as real
  {
    var rate := fee as real / vsize as real;
    assert rate * vsize as real == fee as real;
    if rate < floorRate {
      assert rate * vsize as real < floorRate * vsize as real;
    } else {
      assert rate * vsize as real >= floorRate * vsize as real;
    }
  }

  /** The checks before an admission pass exactly when the transaction may enter. */
  lemma ScreenExactly(env: PoolEnv, p: Pool, chain: ChainView, tx: Tx, floorRate: real, packageRate: Option<real>, now: int)
    requires PoolInv(env.limits, p, chain.known)
    ensures Screen(env, p, chain, tx, floorRate, packageRate, now) == None <==> MayEnter(env, p, chain, tx, floorRate, packageRate)
    ensures Screen(env, p, chain, tx, floorRate, packageRate, now) == Some(RbfPolicy) <==>
            && tx.id !in p.entries && Rivals(p.entries, tx) != {}
            && !MayDisplace(env, p.entries, tx, FeePaid(chain, p.entries, tx), VirtualSize(env.weightOf(tx)))
  {
    hide Core, Graph, Linked, WithinLimits, Conflicts, Rivals, MayDisplace, MayReplace, PoolTxOk, TxObeys, Closure, Forebears, Sum, Vsizes,
      Ignored, InSpent, InputValue, WorthBehind, OutputValue, VirtualSize, ParentIds;
    var es, e := p.entries, NewEntry(env, chain, p.entries, tx, now);
    WorthIs(chain, es, tx, |tx.vin|);
    assert e.fee == FeePaid(chain, es, tx) && e.vsize == VirtualSize(env.weightOf(tx)) && e.vsize >= 1;
    RivalsAre(es, tx);
    if Rivals(es, tx) != {} {
      MayReplaceExactly(env, p, chain.known, tx, e.fee, e.vsize);
    }
    PoolTxExactly(env, chain, es, p.spent, tx, Ignored(es, Conflicts(es, tx)));
    IgnoredAll(p, tx);
    FloorIs(e.fee, e.vsize, floorRate);
    ParentsKnown(tx, chain.known + es.Keys);
    if ParentIds(tx) <= chain.known + es.Keys {
      ForebearsAre(p, chain.known, tx);
    }
  }

  lemma ParentsKnown(tx: Tx, ids: set<Id>)
    ensures ParentIds(tx) <= ids <==> forall i :: 0 <= i < |tx.vin| ==> tx.vin[i].prev.txid in ids
  {
    if ParentIds(tx) <= ids {
      forall i | 0 <= i < |tx.vin|
        ensures tx.vin[i].prev.txid in ids
      {
        assert tx.vin[i].prev.txid in ParentIds(tx);
      }
    }
  }

  /** Whatever was added obeyed every rule; where it had rivals, all of them could be displaced and none is left. */
  lemma AddedObeys(env: PoolEnv, p: Pool, chain: ChainView, tx: Tx, floorRate: real, packageRate: Option<real>, now: int, q: Pool)
    requires PoolInv(env.limits, p, chain.known)
    requires AddStep(env, p, chain, tx, floorRate, packageRate, now, Added, q)
    ensures MayEnter(env, p, chain, tx, floorRate, packageRate)
    ensures tx.id in q.entries && q.entries[tx.id].tx == tx && q.entries[tx.id].fee == FeePaid(chain, p.entries, tx)
    ensures var e := q.entries[tx.id];
            && e.size == env.sizeOf(tx) && e.weight == env.weightOf(tx) && e.time == now
            && e.vsize >= 1 && e.vsize * 4 >= e.weight && (e.vsize > 1 ==> (e.vsize - 1) * 4 < e.weight)
    ensures forall y :: y in Rivals(p.entries, tx) ==> y !in q.entries
  {
    hide Core, Graph, Linked, WithinLimits, Screen, MayEnter, EvictedFor, FitsBeside, Replacement, Conflicts, Rivals, Closure, ParentIds, AllRoom, Room,
      DescendantClosed, InputValue, WorthBehind, OutputValue, VirtualSize, TxObeys, MayDisplace;
    ScreenExactly(env, p, chain, tx, floorRate, packageRate, now);
    ScreenRefuses(env, p, chain, tx, floorRate, packageRate, now);
    WorthIs(chain, p.entries, tx, |tx.vin|);
    VsizeMeans(env.weightOf(tx));
    assert tx.id !in p.entries by {
      EntersNew(env, p, chain, tx, floorRate, packageRate);
    }
    var e := NewEntry(env, chain, p.entries, tx, now);
    assert Settled(env.limits, p, chain.known, e, Added, q);
    RivalsAre(p.entries, tx);
    RivalsGone(env.limits, e, p.entries);
    var gone, ancestors := GoneFor(env.limits, e, p.entries), AncestorsFor(chain.known, e, p.entries);
    JoinBodies(Restrict(p.entries, gone), tx.id, e, ancestors);
    RestrictKeys(p.entries, gone);
    OutcomeJoin(env.limits, e, ancestors, ParentIds(e.tx) - chain.known, Added, p.entries, p.parents, gone, q.entries, q.parents);
  }

  lemma VsizeMeans(weight: nat)
    ensures var v := VirtualSize(weight); v >= 1 && v * 4 >= weight && (v > 1 ==> (v - 1) * 4 < weight)
  {
  }

  lemma ScreenRefuses(env: PoolEnv, p: Pool, chain: ChainView, tx: Tx, floorRate: real, packageRate: Option<real>, now: int)
    ensures Screen(env, p, chain, tx, floorRate, packageRate, now) != Some(Added)
  {
    hide NewEntry, Conflicts, MayReplace, PoolTxOk, Ignored, Closure, ParentIds, Sum, Vsizes;
  }

  lemma EntersNew(env: PoolEnv, p: Pool, chain: ChainView, tx: Tx, floorRate: real, packageRate: Option<real>)
    requires MayEnter(env, p, chain, tx, floorRate, packageRate)
    ensures tx.id !in p.entries
  {
    hide TxObeys, MayDisplace, Sum;
  }

  lemma RivalsGone(l: Limits, e: PoolEntry, es: PoolEntries)
    requires HasSpace(l, e, es)
    ensures Conflicts(es, e.tx) <= GoneFor(l, e, es)
  {
    hide Conflicts, EvictedFor, FitsBeside;
    ConflictsPooled(es, e.tx);
    RestrictKeys(es, EvictedFor(l, e, es));
  }

  /** The answer is the replacement policy exactly when there are rivals that may not be displaced. */
  lemma RbfPolicyExactly(env: PoolEnv, p: Pool, chain: ChainView, tx: Tx, floorRate: real, packageRate: Option<real>, now: int,
                         reply: AddReply, q: Pool)
    requires PoolInv(env.limits, p, chain.known) && AddStep(env, p, chain, tx, floorRate, packageRate, now, reply, q)
    ensures reply == RbfPolicy <==>
            && tx.id !in p.entries && Rivals(p.entries, tx) != {}
            && !MayDisplace(env, p.entries, tx, FeePaid(chain, p.entries, tx), VirtualSize(env.weightOf(tx)))
  {
    hide PoolInv, Screen, Rivals, MayDisplace, Outcome, Admits, HasSpace, GoneFor, AncestorsFor;
    ScreenExactly(env, p, chain, tx, floorRate, packageRate, now);
  }

  /** A pooled transaction is kept by the revalidation after a block exactly when it still obeys the rules, is standard,
      has its parents, and pays the relay fee. */
  lemma StillGoodExactly(env: PoolEnv, chain: ChainView, es: PoolEntries, tx: Tx)
    ensures StillGood(env, chain, es, tx) <==>
            && TxObeys(env, chain, es, tx) && env.standard(tx)
            && (forall i :: 0 <= i < |tx.vin| ==> tx.vin[i].prev.txid in chain.known || tx.vin[i].prev.txid in es)
            && FeePaid(chain, es, tx) >= VirtualSize(env.weightOf(tx)) * env.minRelayFee
  {
    hide PoolTxOk, TxObeys, InputValue, WorthBehind, OutputValue, VirtualSize, ParentIds;
    PoolTxExactly(env, chain, es, map[], tx, Inputs(tx));
    assert forall i :: 0 <= i < |tx.vin| ==> !InSpent(map[], tx.vin[i].prev);
    WorthIs(chain, es, tx, |tx.vin|);
    ParentsKnown(tx, chain.known + es.Keys);
  }

  // ------------------------------------------------------------- getting in at all

  /** Beside those that eviction leaves there is room in size, weight and number, and no forebear that is left in the end gets too
      many descendants or too large a package below it. */
  ghost predicate MayJoin(env: PoolEnv, p: Pool, chain: ChainView, tx: Tx, evicted: set<Id>, gone: set<Id>) {
    var es, rest := p.entries, p.entries.Keys - evicted;
    && Sum(Sizes(es), rest) + env.sizeOf(tx) <= env.limits.maxSize
    && Sum(Weights(es), rest) + env.weightOf(tx) <= env.limits.maxWeight
    && |rest| + 1 <= env.limits.maxTransactions
    && forall a :: a in Forebears(es, tx) && a !in gone ==>
         && |es[a].descendants - gone| + 1 <= env.limits.maxDescendants
         && es[a].vsize + Sum(Vsizes(es), es[a].descendants - gone) + VirtualSize(env.weightOf(tx)) <= env.limits.maxDescendantVsize
  }

  lemma RoomIn(l: Limits, es: PoolEntries, gone: set<Id>, x: Id, e: PoolEntry, ancestors: set<Id>, a: Id)
    requires Graph(es) && x !in es && a in ancestors && a in es && a !in gone
    ensures Room(l, Join(Restrict(es, gone), x, e, ancestors), a) <==>
            && |es[a].descendants - gone| + 1 <= l.maxDescendants
            && es[a].vsize + Sum(Vsizes(es), es[a].descendants - gone) + e.vsize <= l.maxDescendantVsize
  {
    hide Graph, Sum;
    GraphOf(es, a);
    var fs, below := Join(Restrict(es, gone), x, e, ancestors), es[a].descendants - gone;
    assert fs[a].descendants == below + {x} && fs[a].vsize == es[a].vsize;
    SumRemove(Vsizes(fs), below + {x}, x);
    assert below + {x} - {x} == below;
    assert Vsizes(fs)[x] == e.vsize;
    forall y | y in below
      ensures y in Vsizes(fs) && y in Vsizes(es) && Vsizes(fs)[y] == Vsizes(es)[y]
    {
    }
    SumSame(Vsizes(fs), Vsizes(es), below);
  }

  lemma SpaceIn(l: Limits, e: PoolEntry, es: PoolEntries, evicted: set<Id>)
    ensures var rest := es.Keys - evicted;
            FitsBeside(l, e.size, e.weight, Restrict(es, evicted)) <==>
            Sum(Sizes(es), rest) + e.size <= l.maxSize && Sum(Weights(es), rest) + e.weight <= l.maxWeight && |rest| + 1 <= l.maxTransactions
  {
    hide Sum;
    var fs, rest := Restrict(es, evicted), es.Keys - evicted;
    assert fs.Keys == rest;
    SumSame(Sizes(fs), Sizes(es), rest);
    SumSame(Weights(fs), Weights(es), rest);
  }

  lemma AdmitsExactly(env: PoolEnv, p: Pool, chain: ChainView, tx: Tx, e: PoolEntry)
    requires PoolInv(env.limits, p, chain.known) && e.tx == tx && tx.id !in p.entries && ParentIds(tx) <= chain.known + p.entries.Keys
    requires e.size == env.sizeOf(tx) && e.weight == env.weightOf(tx) && e.vsize == VirtualSize(env.weightOf(tx))
    ensures Admits(env.limits, chain.known, e, p.entries) <==>
            MayJoin(env, p, chain, tx, EvictedFor(env.limits, e, p.entries), GoneFor(env.limits, e, p.entries))
  {
    hide Core, Linked, WithinLimits, EvictedFor, FitsBeside, Closure, ParentIds, Room, GoneFor, Forebears, VirtualSize, Restrict, Join, Graph;
    var l, es := env.limits, p.entries;
    SpaceIn(l, e, es, EvictedFor(l, e, es));
    ForebearsAre(p, chain.known, tx);
    var ancestors, gone := AncestorsFor(chain.known, e, es), GoneFor(l, e, es);
    ClosureIn(es, ParentIds(tx) - chain.known);
    JoinKeys(es, gone, tx.id, e, ancestors);
    forall a | a in ancestors && a !in gone
      ensures Room(l, Join(Restrict(es, gone), tx.id, e, ancestors), a) <==>
              && |es[a].descendants - gone| + 1 <= l.maxDescendants
              && es[a].vsize + Sum(Vsizes(es), es[a].descendants - gone) + e.vsize <= l.maxDescendantVsize
    {
      RoomIn(l, es, gone, tx.id, e, ancestors, a);
    }
  }

  /** A transaction is added exactly when it may enter and may join those that eviction and replacement leave. */
  lemma AddedExactly(env: PoolEnv, p: Pool, chain: ChainView, tx: Tx, floorRate: real, packageRate: Option<real>, now: int,
                     reply: AddReply, q: Pool)
    requires PoolInv(env.limits, p, chain.known)
    requires AddStep(env, p, chain, tx, floorRate, packageRate, now, reply, q)
    ensures var e := NewEntry(env, chain, p.entries, tx, now);
            reply == Added <==>
            && MayEnter(env, p, chain, tx, floorRate, packageRate)
            && MayJoin(env, p, chain, tx, EvictedFor(env.limits, e, p.entries), GoneFor(env.limits, e, p.entries))
  {
    hide PoolInv, Screen, MayEnter, MayJoin, EvictedFor, GoneFor, HasSpace, Outcome, Admits, VirtualSize, InputValue, OutputValue, ParentIds;
    ScreenExactly(env, p, chain, tx, floorRate, packageRate, now);
    ScreenRefuses(env, p, chain, tx, floorRate, packageRate, now);
    if MayEnter(env, p, chain, tx, floorRate, packageRate) {
      EntersWith(env, p, chain, tx, floorRate, packageRate);
      AdmitsExactly(env, p, chain, tx, NewEntry(env, chain, p.entries, tx, now));
    }
  }

  lemma JoinKeys(es: PoolEntries, gone: set<Id>, x: Id, e: PoolEntry, ancestors: set<Id>)
    requires x !in es && ancestors <= es.Keys
    ensures forall a :: a in ancestors ==> (a in Join(Restrict(es, gone), x, e, ancestors) <==> a !in gone)
  {
  }

  lemma EntersWith(env: PoolEnv, p: Pool, chain: ChainView, tx: Tx, floorRate: real, packageRate: Option<real>)
    requires MayEnter(env, p, chain, tx, floorRate, packageRate)
    ensures tx.id !in p.entries && ParentIds(tx) <= chain.known + p.entries.Keys
  {
    hide TxObeys, MayDisplace, Sum, Forebears;
    ParentsKnown(tx, chain.known + p.entries.Keys);
  }
}
