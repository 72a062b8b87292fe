/** How the total value of the coin table moves when blocks connect. */
module ValueFlow {
  import opened Ledger
  import opened Params
  import opened Subsidy
  import opened Validation

  ghost function Total(utxo: map<OutPoint, Coin>): int
    decreases |utxo|
  {
    if utxo == map[] then 0
    else
      var o :| o in utxo;
      assert |utxo - {o}| < |utxo| by {
        ShrinkMap(utxo, o);
      }
      utxo[o].value + Total(utxo - {o})
  }

  lemma ShrinkMap(m: map<OutPoint, Coin>, o: OutPoint)
    requires o in m
    ensures |m - {o}| == |m| - 1
  {
    assert (m - {o}).Keys == m.Keys - {o};
    assert |(m - {o}).Keys| == |m - {o}| && |m.Keys| == |m|;
  }

  /** The total does not depend on the order in which coins are counted. */
  lemma {:induction false} TotalRemove(utxo: map<OutPoint, Coin>, o: OutPoint)
    requires o in utxo
    ensures Total(utxo) == utxo[o].value + Total(utxo - {o})
    decreases |utxo|
  {
    var x :| x in utxo && Total(utxo) == utxo[x].value + Total(utxo - {x});
    if x != o {
      ShrinkMap(utxo, x);
      TotalRemove(utxo - {x}, o);
      ShrinkMap(utxo, o);
      TotalRemove(utxo - {o}, x);
      assert utxo - {x} - {o} == utxo - {o} - {x};
    }
  }

  lemma TotalAdd(utxo: map<OutPoint, Coin>, o: OutPoint, c: Coin)
    requires o !in utxo
    ensures Total(utxo[o := c]) == Total(utxo) + c.value
  {
    TotalRemove(utxo[o := c], o);
    assert utxo[o := c] - {o} == utxo;
  }

  /** Value of the outputs that become coins. */
  function Spendable(tx: Tx, n: nat): int
    requires n <= |tx.vout|
    decreases n
  {
    if n == 0 then 0
    else Spendable(tx, n - 1) + if Unspendable(tx.vout[n - 1].script) then 0 else tx.vout[n - 1].value
  }

  lemma {:induction false} CoinsTotal(utxo: map<OutPoint, Coin>, tx: Tx, height: nat, n: nat)
    requires n <= |tx.vout| && Unused(utxo, {tx.id})
    ensures Total(utxo + tx.Coins(height, n)) == Total(utxo) + Spendable(tx, n)
    decreases n
  {
    hide Total, Tx.Coins;
    if n == 0 {
      CoinsNone(tx, height);
      assert utxo + map[] == utxo;
    } else {
      CoinsTotal(utxo, tx, height, n - 1);
      CoinsNext(tx, height, n - 1);
      var o, out := OutPoint(tx.id, n - 1), tx.vout[n - 1];
      if !Unspendable(out.script) {
        var c := Coin(out.value, out.script, height, tx.IsCoinbase());
        assert utxo + tx.Coins(height, n) == (utxo + tx.Coins(height, n - 1))[o := c];
        TotalAdd(utxo + tx.Coins(height, n - 1), o, c);
      }
    }
  }

  lemma {:induction false} SpendTotal(t: Tables, block: Id, tx: Tx, n: nat)
    requires n <= |tx.vin| && Spend(t, block, tx, n).ok
    ensures Total(Spend(t, block, tx, n).tables.utxo) == Total(t.utxo) - InValue(t.utxo, tx, n)
    decreases n
  {
    hide Spent, SpendOne, Total;
    if n == 0 {
      assert Spend(t, block, tx, 0).tables == t;
    } else {
      SpentCoin(t, block, tx, n - 1);
      SpendTotal(t, block, tx, n - 1);
      TotalRemove(Spend(t, block, tx, n - 1).tables.utxo, tx.vin[n - 1].prev);
    }
  }

  lemma SpentCoin(t: Tables, block: Id, tx: Tx, n: nat)
    requires n < |tx.vin| && Spend(t, block, tx, n + 1).ok
    ensures Spend(t, block, tx, n).ok
    ensures var u, prev := Spend(t, block, tx, n).tables.utxo, tx.vin[n].prev;
            && prev in u && prev in t.utxo && u[prev] == t.utxo[prev]
            && Spend(t, block, tx, n + 1).tables.utxo == u - {prev}
  {
    SpendShape(t, block, tx, n);
  }

  lemma ConnectTxTotal(t: Tables, block: Id, height: nat, tx: Tx)
    requires ConnectTx(t, block, height, tx).ok && Unused(t.utxo, {tx.id})
    ensures Total(ConnectTx(t, block, height, tx).tables.utxo) ==
            Total(t.utxo) + Spendable(tx, |tx.vout|) - if tx.IsCoinbase() then 0 else InValue(t.utxo, tx, |tx.vin|)
  {
    hide Total, Spendable;
    if tx.IsCoinbase() {
      CoinsTotal(t.utxo, tx, height, |tx.vout|);
    } else {
      SpendTotal(t, block, tx, |tx.vin|);
      SpendShape(t, block, tx, |tx.vin|);
      CoinsTotal(Spend(t, block, tx, |tx.vin|).tables.utxo, tx, height, |tx.vout|);
    }
  }

  /** Value of OP_RETURN outputs of the first n transactions, which never become coins. */
  function Burned(txs: seq<Tx>, n: nat): int
    requires n <= |txs|
    decreases n
  {
    if n == 0 then 0
    else Burned(txs, n - 1) + OutputValue(txs[n - 1], |txs[n - 1].vout|) - Spendable(txs[n - 1], |txs[n - 1].vout|)
  }

  lemma {:induction false} InValueSame(u: map<OutPoint, Coin>, v: map<OutPoint, Coin>, tx: Tx, n: nat)
    requires n <= |tx.vin|
    requires forall i :: 0 <= i < n ==> tx.vin[i].prev in u && tx.vin[i].prev in v && u[tx.vin[i].prev] == v[tx.vin[i].prev]
    ensures InValue(u, tx, n) == InValue(v, tx, n)
    decreases n
  {
    if n > 0 {
      InValueSame(u, v, tx, n - 1);
    }
  }

  /** Coins of t that are still there are still the same. */
  ghost predicate Unaltered(u: map<OutPoint, Coin>, v: map<OutPoint, Coin>) {
    forall o :: o in u && o in v ==> u[o] == v[o]
  }

  lemma ConnectTxUnaltered(t: Tables, before: Tables, block: Id, height: nat, tx: Tx)
    requires ConnectTx(before, block, height, tx).ok
    requires Unaltered(t.utxo, before.utxo) && Unused(t.utxo, {tx.id})
    ensures Unaltered(t.utxo, ConnectTx(before, block, height, tx).tables.utxo)
  {
    CoinsProvenance(tx, height);
    if !tx.IsCoinbase() {
      SpendShape(before, block, tx, |tx.vin|);
    }
  }

  /** State after the first n transactions of an accepted block. */
  ghost predicate Flowing(t: Tables, txs: seq<Tx>, n: nat, now: Tables)
    requires 0 < n <= |txs|
  {
    && Unaltered(t.utxo, now.utxo)
    && Fees(t.utxo, txs, n).Some?
    && Total(now.utxo) == Total(t.utxo) + OutputValue(txs[0], |txs[0].vout|) - Fees(t.utxo, txs, n).value - Burned(txs, n)
  }

  lemma FlowStart(p: Params, rules: Rules, t: Tables, block: Id, height: nat, txs: seq<Tx>)
    requires TxsAccepted(p, rules, t.utxo, txs, height) && Unused(t.utxo, Ids(txs))
    requires ConnectTx(t, block, height, txs[0]).ok
    ensures Flowing(t, txs, 1, ConnectTx(t, block, height, txs[0]).tables)
  {
    assert TxAccepted(p, rules, t.utxo, txs[0], height, true);
    assert txs[0].id in Ids(txs);
    ConnectTxTotal(t, block, height, txs[0]);
    ConnectTxUnaltered(t, t, block, height, txs[0]);
    assert Burned(txs, 0) == 0;
  }

  lemma FlowNext(p: Params, rules: Rules, t: Tables, before: Tables, block: Id, height: nat, txs: seq<Tx>, n: nat)
    requires TxsAccepted(p, rules, t.utxo, txs, height) && Unused(t.utxo, Ids(txs))
    requires 0 < n < |txs| && Flowing(t, txs, n, before) && Unused(before.utxo, {txs[n].id})
    requires ConnectTx(before, block, height, txs[n]).ok
    ensures Flowing(t, txs, n + 1, ConnectTx(before, block, height, txs[n]).tables)
  {
    hide TxsAccepted, Total, ConnectTx, DistinctIds, Tx.Outs, Tx.Prevs;
    var tx := txs[n];
    AcceptedInputs(p, rules, t.utxo, txs, height, n);
    assert tx.id in Ids(txs);
    ConnectTxTotal(before, block, height, tx);
    ConnectTxUnaltered(t, before, block, height, tx);
    assert InValue(before.utxo, tx, |tx.vin|) == InValue(t.utxo, tx, |tx.vin|) by {
      ConnectedInputs(before, block, height, tx);
      InValueSame(before.utxo, t.utxo, tx, |tx.vin|);
    }
  }

  lemma AcceptedInputs(p: Params, rules: Rules, utxo: map<OutPoint, Coin>, txs: seq<Tx>, height: nat, n: nat)
    requires TxsAccepted(p, rules, utxo, txs, height) && 0 < n < |txs|
    ensures var tx := txs[n];
            && !tx.IsCoinbase() && tx.Prevs(|tx.vin|) <= utxo.Keys
            && (forall i :: 0 <= i < |tx.vin| ==> tx.vin[i].prev in utxo)
            && OutputValue(tx, |tx.vout|) <= InValue(utxo, tx, |tx.vin|)
  {
    var tx := txs[n];
    assert TxAccepted(p, rules, utxo, tx, height, false);
    forall i | 0 <= i < |tx.vin|
      ensures tx.vin[i].prev in utxo
    {
      assert InputOk(p, rules, utxo, tx, height, i);
    }
  }

  lemma ConnectedInputs(t: Tables, block: Id, height: nat, tx: Tx)
    requires ConnectTx(t, block, height, tx).ok && !tx.IsCoinbase()
    ensures forall i :: 0 <= i < |tx.vin| ==> tx.vin[i].prev in t.utxo
  {
    SpendShape(t, block, tx, |tx.vin|);
  }

  lemma {:induction false} FlowPrefix(p: Params, rules: Rules, t: Tables, block: Id, height: nat, txs: seq<Tx>, n: nat)
    requires TxsAccepted(p, rules, t.utxo, txs, height) && Unused(t.utxo, Ids(txs)) && 0 < n <= |txs|
    ensures var s := ConnectTxs(t, block, height, txs[..n]);
            && s.ok && Flowing(t, txs, n, s.tables)
            && forall o :: o in s.tables.utxo && o !in t.utxo ==> exists i :: 0 <= i < n && txs[i].id == o.txid
    decreases n
  {
    hide TxsAccepted, ConnectTx, Flowing;
    PrefixConnects(p, rules, t, block, height, txs, n);
    assert txs[..n][..n - 1] == txs[..n - 1];
    var last := txs[n - 1];
    if n == 1 {
      assert txs[..1][..0] == [];
      FlowStart(p, rules, t, block, height, txs);
      ConnectTxShape(t, block, height, last);
    } else {
      FlowPrefix(p, rules, t, block, height, txs, n - 1);
      var before := ConnectTxs(t, block, height, txs[..n - 1]).tables;
      NotEmpty(p, rules, t.utxo, txs, height);
      assert last.id in Ids(txs);
      assert Unused(before.utxo, {last.id});
      FlowNext(p, rules, t, before, block, height, txs, n - 1);
      ConnectTxShape(before, block, height, last);
    }
  }

  /** An accepted block with fresh ids moves the total value of all coins by its
      coinbase outputs less its fees less its OP_RETURN outputs. */
  lemma BlockFlow(p: Params, rules: Rules, t: Tables, b: Block, height: nat)
    requires TxsAccepted(p, rules, t.utxo, b.txs, height) && Unused(t.utxo, Ids(b.txs))
    ensures b.txs != [] && Connect(t, b, height).ok && Fees(t.utxo, b.txs, |b.txs|).Some?
    ensures Total(Connect(t, b, height).tables.utxo) ==
            Total(t.utxo) + OutputValue(b.txs[0], |b.txs[0].vout|)
            - Fees(t.utxo, b.txs, |b.txs|).value - Burned(b.txs, |b.txs|)
  {
    hide TxsAccepted, ConnectTxs, Total;
    NotEmpty(p, rules, t.utxo, b.txs, height);
    FlowPrefix(p, rules, t.(undo := DropUndo(t.undo, b.hash)), b.hash, height, b.txs, |b.txs|);
    assert b.txs[..|b.txs|] == b.txs;
  }

  lemma {:induction false} SpendableBelow(p: Params, tx: Tx, n: nat)
    requires n <= |tx.vout| && forall i :: 0 <= i < |tx.vout| ==> OutputOk(p, tx.vout[i])
    ensures Spendable(tx, n) <= OutputValue(tx, n)
    decreases n
  {
    if n > 0 {
      SpendableBelow(p, tx, n - 1);
    }
  }

  lemma {:induction false} BurnedNonNegative(p: Params, rules: Rules, utxo: map<OutPoint, Coin>, txs: seq<Tx>, height: nat, n: nat)
    requires TxsAccepted(p, rules, utxo, txs, height) && n <= |txs|
    ensures Burned(txs, n) >= 0
    decreases n
  {
    hide TxsAccepted, TxAccepted;
    if n > 0 {
      BurnedNonNegative(p, rules, utxo, txs, height, n - 1);
      AcceptedOutputs(p, rules, utxo, txs, height, n - 1);
      SpendableBelow(p, txs[n - 1], |txs[n - 1].vout|);
    }
  }

  lemma AcceptedOutputs(p: Params, rules: Rules, utxo: map<OutPoint, Coin>, txs: seq<Tx>, height: nat, n: nat)
    requires TxsAccepted(p, rules, utxo, txs, height) && n < |txs|
    ensures forall i :: 0 <= i < |txs[n].vout| ==> OutputOk(p, txs[n].vout[i])
  {
    assert TxAccepted(p, rules, utxo, txs[n], height, n == 0);
  }

  /** An accepted block never adds more than its subsidy. */
  lemma BlockIssuesAtMostSubsidy(p: Params, rules: Rules, t: Tables, b: Block, height: nat)
    requires TxsAccepted(p, rules, t.utxo, b.txs, height) && SubsidyAccepted(p, t.utxo, b.txs, height)
    requires Unused(t.utxo, Ids(b.txs))
    ensures Connect(t, b, height).ok
    ensures Total(Connect(t, b, height).tables.utxo) <= Total(t.utxo) + BlockSubsidy(p, height)
  {
    hide TxsAccepted, Connect, Total, BlockSubsidy;
    BlockFlow(p, rules, t, b, height);
    BurnedNonNegative(p, rules, t.utxo, b.txs, height, |b.txs|);
  }
}
