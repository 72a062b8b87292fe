/** BlockValidator: the stateful checks a block has to pass on its parent's state. */
module Validation {
  import opened Ledger
  import opened ChainIndex
  import opened Params
  import opened Retarget
  import opened Subsidy

  /** Checks whose code is not part of this model, as functions of what they look at. */
  datatype Rules = Rules(
    versionOk: (Tx, nat) -> bool,              // hard-fork gate on the transaction version
    sizeOk: Tx -> bool,                        // 0 < size <= max_block_size
    scriptOk: (Tx, nat, Script, int) -> bool,  // verify_input_script
    headerOk: Block -> bool,                   // version range, proof of work, timestamp range
    bodyOk: (Block, nat) -> bool)              // size, merkle root, coinbase script, sigops, future timestamp

  function CoinValue(utxo: map<OutPoint, Coin>, o: OutPoint): int {
    if o in utxo then utxo[o].value else 0
  }

  function InValue(utxo: map<OutPoint, Coin>, tx: Tx, n: nat): int
    requires n <= |tx.vin|
    decreases n
  {
    if n == 0 then 0 else InValue(utxo, tx, n - 1) + CoinValue(utxo, tx.vin[n - 1].prev)
  }

  predicate InputOk(p: Params, rules: Rules, utxo: map<OutPoint, Coin>, tx: Tx, height: nat, i: nat)
    requires i < |tx.vin|
  {
    var prev := tx.vin[i].prev;
    && prev in utxo
    && !(utxo[prev].coinbase && height - utxo[prev].height < p.coinbaseMaturity)
    && rules.scriptOk(tx, i, utxo[prev].script, utxo[prev].value)
  }

  predicate OutputOk(p: Params, o: TxOut) {
    0 < o.value <= p.maxMoney && o.script != []
  }

  predicate DistinctInputs(tx: Tx, n: nat)
    requires n <= |tx.vin|
  {
    forall i, j :: 0 <= i < j < n ==> tx.vin[i].prev != tx.vin[j].prev
  }

  predicate InputsOk(p: Params, rules: Rules, utxo: map<OutPoint, Coin>, tx: Tx, height: nat, n: nat)
    requires n <= |tx.vin|
  {
    && (forall i :: 0 <= i < n ==> InputOk(p, rules, utxo, tx, height, i))
    && DistinctInputs(tx, n)
  }

  /** When validate_transaction accepts. */
  predicate TxAccepted(p: Params, rules: Rules, utxo: map<OutPoint, Coin>, tx: Tx, height: nat, isCoinbase: bool) {
    && rules.versionOk(tx, height) && tx.IsCoinbase() == isCoinbase
    && tx.vin != [] && tx.vout != [] && rules.sizeOk(tx)
    && (!isCoinbase ==> InputsOk(p, rules, utxo, tx, height, |tx.vin|))
    && (forall i :: 0 <= i < |tx.vout| ==> OutputOk(p, tx.vout[i]))
    && OutputValue(tx, |tx.vout|) <= p.maxMoney
    && (!isCoinbase ==> OutputValue(tx, |tx.vout|) <= InValue(utxo, tx, |tx.vin|))
  }

  method ValidateTransaction(p: Params, rules: Rules, utxo: map<OutPoint, Coin>, tx: Tx, height: nat, isCoinbase: bool)
    returns (ok: bool)
    ensures ok == TxAccepted(p, rules, utxo, tx, height, isCoinbase)
  {
    if !rules.versionOk(tx, height) || tx.IsCoinbase() != isCoinbase || tx.vin == [] || tx.vout == [] || !rules.sizeOk(tx) {
      return false;
    }
    if !isCoinbase {
      var seen := {};
      for i := 0 to |tx.vin|
        invariant seen == tx.Prevs(i)
        invariant InputsOk(p, rules, utxo, tx, height, i)
      {
        var prev := tx.vin[i].prev;
        if prev in seen {
          return false;
        }
        seen := seen + {prev};
        if !InputOk(p, rules, utxo, tx, height, i) {
          return false;
        }
      }
    }
    var totalOut := 0;
    for i := 0 to |tx.vout|
      invariant totalOut == OutputValue(tx, i)
      invariant forall k :: 0 <= k < i ==> OutputOk(p, tx.vout[k])
    {
      if !OutputOk(p, tx.vout[i]) {
        return false;
      }
      totalOut := totalOut + tx.vout[i].value;
    }
    if totalOut > p.maxMoney {
      return false;
    }
    if !isCoinbase {
      var totalIn := 0;
      for i := 0 to |tx.vin|
        invariant totalIn == InValue(utxo, tx, i)
      {
        if tx.vin[i].prev in utxo {
          totalIn := totalIn + utxo[tx.vin[i].prev].value;
        }
      }
      if totalIn < totalOut {
        return false;
      }
    }
    return true;
  }

  /** Outpoints spent by transactions 1..n-1, the coinbase being number 0. */
  function SpentBy(txs: seq<Tx>, n: nat): set<OutPoint>
    requires n <= |txs|
    decreases n
  {
    if n <= 1 then {} else SpentBy(txs, n - 1) + txs[n - 1].Prevs(|txs[n - 1].vin|)
  }

  /** When validate_transactions accepts: one coinbase, in front; no outpoint spent twice; no id twice. */
  predicate TxsAccepted(p: Params, rules: Rules, utxo: map<OutPoint, Coin>, txs: seq<Tx>, height: nat) {
    && txs != []
    && (forall i :: 0 <= i < |txs| ==> TxAccepted(p, rules, utxo, txs[i], height, i == 0))
    && (forall i :: 1 <= i < |txs| ==> txs[i].Prevs(|txs[i].vin|) !! SpentBy(txs, i))
    && DistinctIds(txs)
  }

  function CoinbaseCount(txs: seq<Tx>, n: nat): nat
    requires n <= |txs|
    decreases n
  {
    if n == 0 then 0 else CoinbaseCount(txs, n - 1) + if txs[n - 1].IsCoinbase() then 1 else 0
  }

  lemma {:induction false} OneCoinbase(txs: seq<Tx>, n: nat)
    requires n <= |txs| && forall i :: 0 <= i < n ==> txs[i].IsCoinbase() == (i == 0)
    ensures CoinbaseCount(txs, n) == if n == 0 then 0 else 1
    decreases n
  {
    if n > 0 {
      OneCoinbase(txs, n - 1);
    }
  }

  method CountCoinbases(txs: seq<Tx>) returns (count: nat)
    ensures count == CoinbaseCount(txs, |txs|)
  {
    count := 0;
    for i := 0 to |txs|
      invariant count == CoinbaseCount(txs, i)
    {
      if txs[i].IsCoinbase() {
        count := count + 1;
      }
    }
  }

  method CheckIds(txs: seq<Tx>) returns (ok: bool)
    ensures ok == DistinctIds(txs)
  {
    var ids := {};
    for i := 0 to |txs|
      invariant forall k :: 0 <= k < i ==> txs[k].id in ids
      invariant forall id :: id in ids ==> exists k :: 0 <= k < i && txs[k].id == id
      invariant forall k, j :: 0 <= k < j < i ==> txs[k].id != txs[j].id
    {
      if txs[i].id in ids {
        return false;
      }
      ids := ids + {txs[i].id};
    }
    return true;
  }

  /** Every transaction is valid, and no outpoint is spent by two of them. */
  predicate SpendsAccepted(p: Params, rules: Rules, utxo: map<OutPoint, Coin>, txs: seq<Tx>, height: nat, n: nat)
    requires n <= |txs|
  {
    && (forall k :: 0 <= k < n ==> TxAccepted(p, rules, utxo, txs[k], height, k == 0))
    && (forall k :: 1 <= k < n ==> txs[k].Prevs(|txs[k].vin|) !! SpentBy(txs, k))
  }

  /** One more transaction: it must be valid and, unless it is the coinbase, spend nothing spent before. */
  lemma SpendsNext(p: Params, rules: Rules, utxo: map<OutPoint, Coin>, txs: seq<Tx>, height: nat, n: nat)
    requires n < |txs| && SpendsAccepted(p, rules, utxo, txs, height, n)
    ensures SpendsAccepted(p, rules, utxo, txs, height, n + 1) <==>
            TxAccepted(p, rules, utxo, txs[n], height, n == 0) &&
            (n > 0 ==> txs[n].Prevs(|txs[n].vin|) !! SpentBy(txs, n))
    ensures SpendsAccepted(p, rules, utxo, txs, height, |txs|) ==> SpendsAccepted(p, rules, utxo, txs, height, n + 1)
  {
    hide TxAccepted, SpentBy;
  }

  lemma SpendsNone(p: Params, rules: Rules, utxo: map<OutPoint, Coin>, txs: seq<Tx>, height: nat)
    ensures SpendsAccepted(p, rules, utxo, txs, height, 0) && SpentBy(txs, 0) == {}
  {
  }

  /** The loop body: validates transaction i and claims its outpoints unless it is the coinbase. */
  method CheckSpend(p: Params, rules: Rules, utxo: map<OutPoint, Coin>, txs: seq<Tx>, height: nat, i: nat, spent: set<OutPoint>)
    returns (ok: bool, claimed: set<OutPoint>)
    requires i < |txs| && spent == SpentBy(txs, i)
    ensures ok == (TxAccepted(p, rules, utxo, txs[i], height, i == 0) &&
                   (i > 0 ==> txs[i].Prevs(|txs[i].vin|) !! spent))
    ensures ok ==> claimed == SpentBy(txs, i + 1)
  {
    hide TxAccepted, DistinctInputs, Tx.Prevs;
    claimed := spent;
    ok := ValidateTransaction(p, rules, utxo, txs[i], height, i == 0);
    if ok && i > 0 {
      AcceptedDistinct(p, rules, utxo, txs[i], height);
      ok := ClaimOutpoints(txs[i], spent);
      claimed := spent + txs[i].Prevs(|txs[i].vin|);
    }
  }

  method CheckSpends(p: Params, rules: Rules, utxo: map<OutPoint, Coin>, txs: seq<Tx>, height: nat) returns (ok: bool)
    ensures ok == SpendsAccepted(p, rules, utxo, txs, height, |txs|)
  {
    hide TxAccepted, SpendsAccepted, SpentBy, Tx.Prevs;
    SpendsNone(p, rules, utxo, txs, height);
    var spent := {};
    for i := 0 to |txs|
      invariant SpendsAccepted(p, rules, utxo, txs, height, i)
      invariant spent == SpentBy(txs, i)
    {
      SpendsNext(p, rules, utxo, txs, height, i);
      ok, spent := CheckSpend(p, rules, utxo, txs, height, i, spent);
      if !ok {
        return;
      }
    }
    ok := true;
  }

  method ValidateTransactions(p: Params, rules: Rules, utxo: map<OutPoint, Coin>, txs: seq<Tx>, height: nat)
    returns (ok: bool)
    ensures ok == TxsAccepted(p, rules, utxo, txs, height)
  {
    hide TxAccepted;
    if txs == [] {
      return false;
    }
    var count := CountCoinbases(txs);
    if count != 1 {
      if TxsAccepted(p, rules, utxo, txs, height) {
        AcceptedCoinbases(p, rules, utxo, txs, height);
      }
      return false;
    }
    ok := CheckSpends(p, rules, utxo, txs, height);
    if ok {
      ok := CheckIds(txs);
    }
  }

  lemma AcceptedCoinbases(p: Params, rules: Rules, utxo: map<OutPoint, Coin>, txs: seq<Tx>, height: nat)
    requires TxsAccepted(p, rules, utxo, txs, height)
    ensures CoinbaseCount(txs, |txs|) == 1
  {
    OneCoinbase(txs, |txs|);
  }

  lemma AcceptedDistinct(p: Params, rules: Rules, utxo: map<OutPoint, Coin>, tx: Tx, height: nat)
    requires TxAccepted(p, rules, utxo, tx, height, false)
    ensures DistinctInputs(tx, |tx.vin|)
  {
  }

  /** The inner loop of the double-spend check: adds the inputs one by one. */
  method ClaimOutpoints(tx: Tx, spent: set<OutPoint>) returns (unspent: bool)
    ensures unspent == (tx.Prevs(|tx.vin|) !! spent && DistinctInputs(tx, |tx.vin|))
  {
    var claimed := spent;
    for i := 0 to |tx.vin|
      invariant claimed == spent + tx.Prevs(i) && tx.Prevs(i) !! spent
      invariant DistinctInputs(tx, i)
    {
      var prev := tx.vin[i].prev;
      if prev in claimed {
        return false;
      }
      claimed := claimed + {prev};
    }
    return true;
  }

  /** _calculate_fees of transactions 1..n-1: None stands for the -1 of a missing input or a negative fee. */
  function Fees(utxo: map<OutPoint, Coin>, txs: seq<Tx>, n: nat): Option<nat>
    requires n <= |txs|
    decreases n
  {
    if n <= 1 then Some(0)
    else
      var tx := txs[n - 1];
      var fee := InValue(utxo, tx, |tx.vin|) - OutputValue(tx, |tx.vout|);
      match Fees(utxo, txs, n - 1)
      case None => None
      case Some(f) => if tx.Prevs(|tx.vin|) <= utxo.Keys && fee >= 0 then Some(f + fee) else None
  }

  lemma {:induction false} FeesStop(utxo: map<OutPoint, Coin>, txs: seq<Tx>, n: nat, m: nat)
    requires n <= m <= |txs| && Fees(utxo, txs, n) == None
    ensures Fees(utxo, txs, m) == None
    decreases m
  {
    if n < m {
      FeesStop(utxo, txs, n, m - 1);
    }
  }

  method CalculateFees(utxo: map<OutPoint, Coin>, txs: seq<Tx>) returns (total: int)
    ensures total == match Fees(utxo, txs, |txs|) case Some(f) => f as int case None => -1
  {
    total := 0;
    var k := 1;
    while k < |txs|
      invariant k >= 1 && (k <= |txs| || total == 0)
      invariant total >= 0 && Fees(utxo, txs, if k <= |txs| then k else |txs|) == Some(total)
    {
      var tx := txs[k];
      var txIn, txOut := 0, 0;
      for i := 0 to |tx.vin|
        invariant tx.Prevs(i) <= utxo.Keys && txIn == InValue(utxo, tx, i)
      {
        if tx.vin[i].prev !in utxo {
          assert tx.vin[i].prev in tx.Prevs(|tx.vin|);
          FeesStop(utxo, txs, k + 1, |txs|);
          return -1;
        }
        assert tx.Prevs(i + 1) == tx.Prevs(i) + {tx.vin[i].prev};
        txIn := txIn + utxo[tx.vin[i].prev].value;
      }
      for i := 0 to |tx.vout|
        invariant txOut == OutputValue(tx, i)
      {
        txOut := txOut + tx.vout[i].value;
      }
      if txIn - txOut < 0 {
        FeesStop(utxo, txs, k + 1, |txs|);
        return -1;
      }
      total := total + (txIn - txOut);
      k := k + 1;
    }
  }

  /** When validate_subsidy accepts. */
  predicate SubsidyAccepted(p: Params, utxo: map<OutPoint, Coin>, txs: seq<Tx>, height: nat)
  {
    && txs != [] && Fees(utxo, txs, |txs|).Some?
    && OutputValue(txs[0], |txs[0].vout|) <= BlockSubsidy(p, height) + Fees(utxo, txs, |txs|).value
  }

  method ValidateSubsidy(p: Params, utxo: map<OutPoint, Coin>, txs: seq<Tx>, height: nat) returns (ok: bool)
    requires txs != []
    ensures ok == SubsidyAccepted(p, utxo, txs, height)
  {
    var expected := GetBlockSubsidy(p, height);
    var totalOut := 0;
    for i := 0 to |txs[0].vout|
      invariant totalOut == OutputValue(txs[0], i)
    {
      totalOut := totalOut + txs[0].vout[i].value;
    }
    var fees := CalculateFees(utxo, txs);
    if fees < 0 {
      return false;
    }
    return totalOut <= expected + fees;
  }

  /** The headers that the height map shows. */
  function IndexView(ix: Index): View {
    map h: nat | h in ix.heights && ix.heights[h] in ix.entries ::
      var e := ix.entries[ix.heights[h]]; Header(e.bits, e.time)
  }

  /** validate_header and the timestamp rule: bits as the retargeting rule demands, time past the median. */
  predicate HeaderAccepted(p: Params, rules: Rules, ix: Index, b: Block, height: nat) {
    && rules.headerOk(b)
    && (height > 0 ==>
          && b.prev in ix.entries
          && match ExpectedBits(p, IndexView(ix), height, ix.entries[b.prev].bits)
             case None => true
             case Some(bits) => b.bits == bits)
    && b.time > MedianTimePast(p, IndexView(ix), height)
  }

  /** When validate_block accepts. */
  predicate BlockAccepted(p: Params, rules: Rules, utxo: map<OutPoint, Coin>, ix: Index, b: Block, height: nat)
  {
    && HeaderAccepted(p, rules, ix, b, height)
    && rules.bodyOk(b, height)
    && TxsAccepted(p, rules, utxo, b.txs, height)
    && SubsidyAccepted(p, utxo, b.txs, height)
  }

  method ValidateBlock(p: Params, rules: Rules, utxo: map<OutPoint, Coin>, ix: Index, b: Block, height: nat)
    returns (ok: bool)
    requires p.powLimit < Compact.TWO_POW_256
    ensures ok == BlockAccepted(p, rules, utxo, ix, b, height)
  {
    if !rules.headerOk(b) {
      return false;
    }
    var view := IndexView(ix);
    if height > 0 {
      if b.prev !in ix.entries {
        return false;
      }
      var expected := ExpectedBitsForHeight(p, view, height, ix.entries[b.prev].bits);
      if expected.Some? && b.bits != expected.value {
        return false;
      }
    }
    if !rules.bodyOk(b, height) {
      return false;
    }
    var good := ValidateTransactions(p, rules, utxo, b.txs, height);
    if !good {
      return false;
    }
    good := ValidateSubsidy(p, utxo, b.txs, height);
    if !good {
      return false;
    }
    return b.time > MedianTimePast(p, view, height);
  }

  // ------------------------------------------- validation implies connectability

  lemma {:induction false} SpendSucceeds(t: Tables, block: Id, tx: Tx, n: nat)
    requires n <= |tx.vin| && forall i :: 0 <= i < n ==> tx.vin[i].prev in t.utxo
    requires forall i, j :: 0 <= i < j < n ==> tx.vin[i].prev != tx.vin[j].prev
    ensures Spend(t, block, tx, n).ok
    decreases n
  {
    if n > 0 {
      SpendSucceeds(t, block, tx, n - 1);
      SpendShape(t, block, tx, n - 1);
      hide SpendOne;
      assert tx.vin[n - 1].prev !in tx.Prevs(n - 1);
      SpendOneSucceeds(Spend(t, block, tx, n - 1).tables, block, tx, n - 1);
    }
  }

  lemma SpendOneSucceeds(t: Tables, block: Id, tx: Tx, i: nat)
    requires i < |tx.vin| && tx.vin[i].prev in t.utxo
    ensures SpendOne(t, block, tx, i).ok
  {
  }

  /** The first n transactions connect, and every coin they do not spend is still there, unchanged. */
  lemma {:induction false} PrefixConnects(p: Params, rules: Rules, t: Tables, block: Id, height: nat, txs: seq<Tx>, n: nat)
    requires TxsAccepted(p, rules, t.utxo, txs, height) && n <= |txs|
    ensures var s := ConnectTxs(t, block, height, txs[..n]);
            s.ok && forall o :: o in t.utxo && o !in SpentBy(txs, n) ==> o in s.tables.utxo
    decreases n
  {
    if n > 0 {
      hide TxAccepted, ConnectTx;
      PrefixConnects(p, rules, t, block, height, txs, n - 1);
      assert txs[..n][..n - 1] == txs[..n - 1];
      var before := ConnectTxs(t, block, height, txs[..n - 1]).tables;
      AcceptedConnects(p, rules, t, before, block, height, txs, n - 1);
    }
  }

  lemma AcceptedConnects(p: Params, rules: Rules, t: Tables, before: Tables, block: Id, height: nat, txs: seq<Tx>, i: nat)
    requires TxsAccepted(p, rules, t.utxo, txs, height) && i < |txs|
    requires forall o :: o in t.utxo && o !in SpentBy(txs, i) ==> o in before.utxo
    ensures var s := ConnectTx(before, block, height, txs[i]);
            s.ok && forall o :: o in t.utxo && o !in SpentBy(txs, i + 1) ==> o in s.tables.utxo
  {
    var tx := txs[i];
    assert TxAccepted(p, rules, t.utxo, tx, height, i == 0);
    if i > 0 {
      assert tx.Prevs(|tx.vin|) !! SpentBy(txs, i);
      forall k | 0 <= k < |tx.vin|
        ensures tx.vin[k].prev in before.utxo
      {
        assert InputOk(p, rules, t.utxo, tx, height, k);
        assert tx.vin[k].prev in tx.Prevs(|tx.vin|);
      }
      SpendSucceeds(before, block, tx, |tx.vin|);
      SpendShape(before, block, tx, |tx.vin|);
    }
  }

  /** A block whose transactions are accepted on a state connects to it. */
  lemma ValidatedConnects(p: Params, rules: Rules, t: Tables, b: Block, height: nat)
    requires TxsAccepted(p, rules, t.utxo, b.txs, height)
    ensures Connect(t, b, height).ok
  {
    hide TxsAccepted, ConnectTxs;
    assert b.txs != [] by {
      NotEmpty(p, rules, t.utxo, b.txs, height);
    }
    PrefixConnects(p, rules, t.(undo := DropUndo(t.undo, b.hash)), b.hash, height, b.txs, |b.txs|);
    assert b.txs[..|b.txs|] == b.txs;
  }

  lemma NotEmpty(p: Params, rules: Rules, utxo: map<OutPoint, Coin>, txs: seq<Tx>, height: nat)
    requires TxsAccepted(p, rules, utxo, txs, height)
    ensures txs != [] && DistinctIds(txs)
  {
  }
}
