/** What the tables hold, read off the blocks of a branch: which coins exist and what each of
    them is worth, and which outputs are marked as spent, by which input of which transaction. */
module BranchLedger {
  import opened Ledger

  /** A transaction of a branch at its height. */
  datatype Placed = Placed(tx: Tx, height: nat)

  function Placing(txs: seq<Tx>, height: nat): seq<Placed> {
    seq(|txs|, i requires 0 <= i < |txs| => Placed(txs[i], height))
  }

  /** All transactions of a chain in order; its first block has height `first`. */
  function History(bs: seq<Block>, first: nat): seq<Placed>
    decreases |bs|
  {
    if bs == [] then [] else History(bs[..|bs| - 1], first) + Placing(bs[|bs| - 1].txs, first + |bs| - 1)
  }

  /** Input i of this transaction spends o. */
  predicate SpendsAt(tx: Tx, i: nat, o: OutPoint) {
    !(|tx.vin| == 1 && tx.vin[0].prev == NULL_OUTPOINT) && i < |tx.vin| && tx.vin[i].prev == o
  }

  /** This transaction makes a coin at o: OP_RETURN outputs make none. */
  predicate MakesAt(tx: Tx, o: OutPoint) {
    && tx.id == o.txid && o.index < |tx.vout|
    && !(tx.vout[o.index].script != [] && tx.vout[o.index].script[0] == 0x6a)
  }

  ghost predicate SpentIn(hist: seq<Placed>, o: OutPoint) {
    exists k, i :: 0 <= k < |hist| && SpendsAt(hist[k].tx, i, o)
  }

  ghost predicate MadeIn(hist: seq<Placed>, o: OutPoint) {
    exists k :: 0 <= k < |hist| && MakesAt(hist[k].tx, o)
  }

  function CoinFrom(p: Placed, index: nat): Coin
    requires index < |p.tx.vout|
  {
    Coin(p.tx.vout[index].value, p.tx.vout[index].script, p.height, |p.tx.vin| == 1 && p.tx.vin[0].prev == NULL_OUTPOINT)
  }

  /** The coins are those of the start and those made, less those spent, each as its output says. */
  ghost predicate CoinsTold(base: map<OutPoint, Coin>, hist: seq<Placed>, utxo: map<OutPoint, Coin>) {
    && (forall o :: o in utxo <==> (o in base || MadeIn(hist, o)) && !SpentIn(hist, o))
    && (forall o :: SpentIn(hist, o) ==> o in base || MadeIn(hist, o))
    && (forall o :: o in base && o in utxo ==> utxo[o] == base[o])
    && (forall o, k :: 0 <= k < |hist| && MakesAt(hist[k].tx, o) && o in utxo ==> utxo[o] == CoinFrom(hist[k], o.index))
  }

  /** An outputs row names the input that spent it, and is clean when there is none. */
  ghost predicate MarksTold(hist: seq<Placed>, marks: map<OutPoint, Mark>) {
    && (forall o, k, i :: 0 <= k < |hist| && SpendsAt(hist[k].tx, i, o) && o in marks ==>
          marks[o] == Mark(true, Some(hist[k].tx.id), Some(i)))
    && (forall o :: o in marks && !SpentIn(hist, o) ==> marks[o] == Mark(false, None, None))
  }

  ghost predicate Unheard(base: map<OutPoint, Coin>, hist: seq<Placed>, x: Id) {
    && (forall o :: o in base ==> o.txid != x)
    && (forall k :: 0 <= k < |hist| ==> hist[k].tx.id != x)
  }

  // ------------------------------------------------------------- one transaction

  lemma SpentSnoc(hist: seq<Placed>, p: Placed, o: OutPoint)
    ensures SpentIn(hist + [p], o) <==> SpentIn(hist, o) || exists i :: SpendsAt(p.tx, i, o)
  {
    var all := hist + [p];
    assert all[|hist|] == p;
    if SpentIn(hist, o) {
      var k, i :| 0 <= k < |hist| && SpendsAt(hist[k].tx, i, o);
      assert all[k] == hist[k];
    }
    if i: nat :| SpendsAt(p.tx, i, o) {
      assert SpendsAt(all[|hist|].tx, i, o);
    }
  }

  lemma MadeSnoc(hist: seq<Placed>, p: Placed, o: OutPoint)
    ensures MadeIn(hist + [p], o) <==> MadeIn(hist, o) || MakesAt(p.tx, o)
  {
    var all := hist + [p];
    assert all[|hist|] == p;
    if MadeIn(hist, o) {
      var k :| 0 <= k < |hist| && MakesAt(hist[k].tx, o);
      assert all[k] == hist[k];
    }
  }

  /** Spending marks each row with the input that spends it. */
  lemma {:induction false} SpendMarks(t: Tables, block: Id, tx: Tx, n: nat)
    requires n <= |tx.vin| && Spend(t, block, tx, n).ok
    ensures var r := Spend(t, block, tx, n).tables.marks;
            && r.Keys == t.marks.Keys
            && (forall i :: 0 <= i < n && tx.vin[i].prev in r ==> r[tx.vin[i].prev] == Mark(true, Some(tx.id), Some(i)))
            && (forall o :: o in r && (forall i :: 0 <= i < n ==> tx.vin[i].prev != o) ==> r[o] == t.marks[o])
    decreases n
  {
    if n > 0 {
      SpendMarks(t, block, tx, n - 1);
      SpendShape(t, block, tx, n);
    }
  }

  lemma PrevsAre(tx: Tx, o: OutPoint)
    requires !tx.IsCoinbase()
    ensures o in tx.Prevs(|tx.vin|) <==> exists i :: SpendsAt(tx, i, o)
  {
    if i: nat :| SpendsAt(tx, i, o) {
      assert tx.vin[i].prev in tx.Prevs(|tx.vin|);
    }
    if o in tx.Prevs(|tx.vin|) {
      var i :| 0 <= i < |tx.vin| && tx.vin[i].prev == o;
      assert SpendsAt(tx, i, o);
    }
  }

  /** Coins after one transaction: those it does not spend, and its own. */
  lemma ConnectTxCoins(t: Tables, block: Id, height: nat, tx: Tx, o: OutPoint)
    requires ConnectTx(t, block, height, tx).ok
    ensures var r := ConnectTx(t, block, height, tx).tables.utxo;
            && (o in r <==> MakesAt(tx, o) || (o in t.utxo && !exists i :: SpendsAt(tx, i, o)))
            && (MakesAt(tx, o) ==> r[o] == CoinFrom(Placed(tx, height), o.index))
            && (o in r && !MakesAt(tx, o) ==> o in t.utxo && r[o] == t.utxo[o])
    ensures (exists i :: SpendsAt(tx, i, o)) ==> o in t.utxo
  {
    var made := tx.Coins(height, |tx.vout|);
    if !tx.IsCoinbase() {
      SpendShape(t, block, tx, |tx.vin|);
      PrevsAre(tx, o);
    }
    assert o in made <==> MakesAt(tx, o) by {
      if MakesAt(tx, o) {
        assert o == OutPoint(tx.id, o.index);
      }
    }
  }

  lemma CoinsStep(base: map<OutPoint, Coin>, hist: seq<Placed>, t: Tables, block: Id, height: nat, tx: Tx)
    requires CoinsTold(base, hist, t.utxo) && Unheard(base, hist, tx.id) && ConnectTx(t, block, height, tx).ok
    ensures CoinsTold(base, hist + [Placed(tx, height)], ConnectTx(t, block, height, tx).tables.utxo)
  {
    hide ConnectTx, SpendsAt, CoinFrom;
    var p := Placed(tx, height);
    var all, r := hist + [p], ConnectTx(t, block, height, tx).tables.utxo;
    forall o
      ensures o in r <==> (o in base || MadeIn(all, o)) && !SpentIn(all, o)
      ensures SpentIn(all, o) ==> o in base || MadeIn(all, o)
      ensures o in base && o in r ==> r[o] == base[o]
    {
      SpentSnoc(hist, p, o);
      MadeSnoc(hist, p, o);
      ConnectTxCoins(t, block, height, tx, o);
    }
    forall o, k | 0 <= k < |all| && MakesAt(all[k].tx, o) && o in r
      ensures r[o] == CoinFrom(all[k], o.index)
    {
      ConnectTxCoins(t, block, height, tx, o);
      if k < |hist| {
        assert hist[k] == all[k];
      }
    }
  }

  lemma ConnectTxMark(t: Tables, block: Id, height: nat, tx: Tx, o: OutPoint)
    requires ConnectTx(t, block, height, tx).ok
    ensures var r := ConnectTx(t, block, height, tx).tables.marks;
            && (o in r <==> o in t.marks)
            && (forall i :: SpendsAt(tx, i, o) && o in r ==> r[o] == Mark(true, Some(tx.id), Some(i)))
            && ((forall i :: !SpendsAt(tx, i, o)) && o in r ==> r[o] == t.marks[o])
  {
    if !tx.IsCoinbase() {
      SpendMarks(t, block, tx, |tx.vin|);
      if forall i :: !SpendsAt(tx, i, o) {
        forall i | 0 <= i < |tx.vin|
          ensures tx.vin[i].prev != o
        {
          assert !SpendsAt(tx, i, o);
        }
      }
    }
  }

  lemma MarksStep(base: map<OutPoint, Coin>, hist: seq<Placed>, t: Tables, block: Id, height: nat, tx: Tx)
    requires CoinsTold(base, hist, t.utxo) && MarksTold(hist, t.marks) && ConnectTx(t, block, height, tx).ok
    ensures MarksTold(hist + [Placed(tx, height)], ConnectTx(t, block, height, tx).tables.marks)
  {
    hide MakesAt, CoinFrom, SpendsAt, ConnectTx;
    var p := Placed(tx, height);
    var all, r := hist + [p], ConnectTx(t, block, height, tx).tables.marks;
    forall o | o in r && !SpentIn(all, o)
      ensures r[o] == Mark(false, None, None)
    {
      SpentSnoc(hist, p, o);
      ConnectTxMark(t, block, height, tx, o);
    }
    forall o, k, i | 0 <= k < |all| && SpendsAt(all[k].tx, i, o) && o in r
      ensures r[o] == Mark(true, Some(all[k].tx.id), Some(i))
    {
      ConnectTxMark(t, block, height, tx, o);
      if k < |hist| {
        assert hist[k] == all[k];
        assert SpentIn(hist, o);
        ConnectTxCoins(t, block, height, tx, o);
      }
    }
  }

  // ----------------------------------------------------------------- a whole chain

  lemma PlacingSnoc(txs: seq<Tx>, height: nat)
    requires txs != []
    ensures Placing(txs, height) == Placing(txs[..|txs| - 1], height) + [Placed(txs[|txs| - 1], height)]
  {
  }

  lemma UnheardSnoc(base: map<OutPoint, Coin>, hist: seq<Placed>, txs: seq<Tx>, height: nat, x: Id)
    requires Unheard(base, hist, x) && x !in Ids(txs)
    ensures Unheard(base, hist + Placing(txs, height), x)
  {
  }

  lemma {:induction false} ConnectTxsTold(base: map<OutPoint, Coin>, hist: seq<Placed>, t: Tables, block: Id, height: nat, txs: seq<Tx>)
    requires CoinsTold(base, hist, t.utxo) && MarksTold(hist, t.marks) && ConnectTxs(t, block, height, txs).ok
    requires DistinctIds(txs) && forall x :: x in Ids(txs) ==> Unheard(base, hist, x)
    ensures var r := ConnectTxs(t, block, height, txs).tables;
            CoinsTold(base, hist + Placing(txs, height), r.utxo) && MarksTold(hist + Placing(txs, height), r.marks)
    decreases |txs|
  {
    hide CoinsTold, MarksTold, ConnectTx, Unheard;
    if txs == [] {
      assert hist + Placing(txs, height) == hist;
    } else {
      var init, last := txs[..|txs| - 1], txs[|txs| - 1];
      assert txs == init + [last];
      IdsSnoc(init, last);
      ConnectTxsTold(base, hist, t, block, height, init);
      UnheardSnoc(base, hist, init, height, last.id);
      PlacingSnoc(txs, height);
      var now, s := hist + Placing(init, height), ConnectTxs(t, block, height, init).tables;
      assert hist + Placing(txs, height) == now + [Placed(last, height)];
      CoinsStep(base, now, s, block, height, last);
      MarksStep(base, now, s, block, height, last);
    }
  }

  /** Each transaction of a history is one of a block of the chain, at the height of that block, and the other way round. */
  lemma {:induction false} HistoryIs(bs: seq<Block>, first: nat, p: Placed)
    ensures p in History(bs, first) <==> exists b, j :: 0 <= b < |bs| && 0 <= j < |bs[b].txs| && p == Placed(bs[b].txs[j], first + b)
    decreases |bs|
  {
    if bs != [] {
      var init, last := bs[..|bs| - 1], bs[|bs| - 1];
      HistoryIs(init, first, p);
      var placed := Placing(last.txs, first + |bs| - 1);
      if p in placed {
        var j :| 0 <= j < |placed| && placed[j] == p;
        assert p == Placed(bs[|bs| - 1].txs[j], first + (|bs| - 1));
      }
      if p in History(init, first) {
        var b, j :| 0 <= b < |init| && 0 <= j < |init[b].txs| && p == Placed(init[b].txs[j], first + b);
        assert init[b] == bs[b];
      }
      if b, j :| 0 <= b < |bs| && 0 <= j < |bs[b].txs| && p == Placed(bs[b].txs[j], first + b) {
        if b < |init| {
          assert init[b] == bs[b];
        } else {
          assert placed[j] == p;
        }
      }
    }
  }

  lemma FreshIsUnheard(base: Tables, known: set<Id>, init: seq<Block>, last: Block, first: nat, x: Id)
    requires CleanBase(base, known) && FreshChain(known, init + [last]) && x in Ids(last.txs)
    ensures Unheard(base.utxo, History(init, first), x)
  {
    NextIsFresh(init, last, known);
    var hist := History(init, first);
    forall k | 0 <= k < |hist|
      ensures hist[k].tx.id != x
    {
      HistoryIs(init, first, hist[k]);
      assert hist[k] in hist;
      var b, j :| 0 <= b < |init| && 0 <= j < |init[b].txs| && hist[k] == Placed(init[b].txs[j], first + b);
      assert init[b].txs[j].id in ChainIds(init);
    }
  }

  /** The tables of a replayed chain told from its transactions. */
  lemma {:induction false} ReplayTold(base: Tables, known: set<Id>, bs: seq<Block>, first: nat)
    requires CleanBase(base, known) && FreshChain(known, bs) && Replay(base, bs, first).ok
    ensures var t := Replay(base, bs, first).tables;
            CoinsTold(base.utxo, History(bs, first), t.utxo) && MarksTold(History(bs, first), t.marks)
    decreases |bs|
  {
    hide CoinsTold, MarksTold, Connect, ConnectTxs, FreshChain, Unheard;
    if bs == [] {
      NothingTold(base, known);
    } else {
      var init, last := bs[..|bs| - 1], bs[|bs| - 1];
      assert bs == init + [last];
      ReplaySnoc(base, init, last, first);
      NextIsFresh(init, last, known);
      ReplayTold(base, known, init, first);
      ReplayTidy(base, init, first, known);
      var t, height := Replay(base, init, first).tables, first + |init|;
      TidyConnect(base, known, init, last, t, height);
      ConnectSettled(t, last, height);
      forall x | x in Ids(last.txs)
        ensures Unheard(base.utxo, History(init, first), x)
      {
        FreshIsUnheard(base, known, init, last, first, x);
      }
      ConnectTxsTold(base.utxo, History(init, first), t.(undo := DropUndo(t.undo, last.hash)), last.hash, height, last.txs);
    }
  }

  lemma NothingTold(base: Tables, known: set<Id>)
    requires CleanBase(base, known)
    ensures CoinsTold(base.utxo, [], base.utxo) && MarksTold([], base.marks)
  {
  }

  // ------------------------------------------------------------- on the blocks alone

  /** Input i of transaction j of block b is one that spends a coin. */
  predicate InputAt(bs: seq<Block>, b: nat, j: nat, i: nat) {
    && b < |bs| && j < |bs[b].txs| && i < |bs[b].txs[j].vin|
    && !(|bs[b].txs[j].vin| == 1 && bs[b].txs[j].vin[0].prev == NULL_OUTPOINT)
  }

  function OutPointAt(bs: seq<Block>, b: nat, j: nat, i: nat): OutPoint
    requires InputAt(bs, b, j, i)
  {
    bs[b].txs[j].vin[i].prev
  }

  /** Output n of transaction j of block b is not an OP_RETURN. */
  predicate OutputAt(bs: seq<Block>, b: nat, j: nat, n: nat) {
    && b < |bs| && j < |bs[b].txs| && n < |bs[b].txs[j].vout|
    && !(bs[b].txs[j].vout[n].script != [] && bs[b].txs[j].vout[n].script[0] == 0x6a)
  }

  ghost predicate SpentOn(bs: seq<Block>, o: OutPoint) {
    exists b: nat, j: nat, i: nat :: InputAt(bs, b, j, i) && OutPointAt(bs, b, j, i) == o
  }

  ghost predicate MadeOn(bs: seq<Block>, o: OutPoint) {
    exists b: nat, j: nat :: OutputAt(bs, b, j, o.index) && bs[b].txs[j].id == o.txid
  }

  /** Coins and marks of a chain whose first block has height `first`, on a base of coins: a coin is there exactly when it
      was there before or a spendable output made it, and no input spent it; it says what its output says, at the height of
      its block; an outputs row names the input that spent it and is clean if none did. */
  ghost predicate LedgerOf(base: map<OutPoint, Coin>, bs: seq<Block>, first: nat, t: Tables) {
    && (forall o :: o in t.utxo <==> (o in base || MadeOn(bs, o)) && !SpentOn(bs, o))
    && (forall o :: o in t.utxo && o in base ==> t.utxo[o] == base[o])
    && (forall b: nat, j: nat, n: nat :: OutputAt(bs, b, j, n) ==>
          var tx := bs[b].txs[j];
          OutPoint(tx.id, n) in t.utxo ==>
            t.utxo[OutPoint(tx.id, n)] == Coin(tx.vout[n].value, tx.vout[n].script, first + b,
                                               |tx.vin| == 1 && tx.vin[0].prev == NULL_OUTPOINT))
    && (forall b: nat, j: nat, i: nat :: InputAt(bs, b, j, i) && OutPointAt(bs, b, j, i) in t.marks ==>
          t.marks[OutPointAt(bs, b, j, i)] == Mark(true, Some(bs[b].txs[j].id), Some(i)))
    && (forall o :: o in t.marks && !SpentOn(bs, o) ==> t.marks[o] == Mark(false, None, None))
  }

  lemma SpentOnIs(bs: seq<Block>, first: nat, o: OutPoint)
    ensures SpentOn(bs, o) <==> SpentIn(History(bs, first), o)
  {
    var hist := History(bs, first);
    if SpentOn(bs, o) {
      var b: nat, j: nat, i: nat :| InputAt(bs, b, j, i) && OutPointAt(bs, b, j, i) == o;
      PlaceOf(bs, first, b, j);
      var k :| 0 <= k < |hist| && hist[k] == Placed(bs[b].txs[j], first + b);
      assert SpendsAt(hist[k].tx, i, o);
    }
    if SpentIn(hist, o) {
      var k, i :| 0 <= k < |hist| && SpendsAt(hist[k].tx, i, o);
      var b, j := PlacedAt(bs, first, k);
      assert InputAt(bs, b, j, i) && OutPointAt(bs, b, j, i) == o;
    }
  }

  lemma MadeOnIs(bs: seq<Block>, first: nat, o: OutPoint)
    ensures MadeOn(bs, o) <==> MadeIn(History(bs, first), o)
  {
    var hist := History(bs, first);
    if MadeOn(bs, o) {
      var b: nat, j: nat :| OutputAt(bs, b, j, o.index) && bs[b].txs[j].id == o.txid;
      PlaceOf(bs, first, b, j);
      var k :| 0 <= k < |hist| && hist[k] == Placed(bs[b].txs[j], first + b);
      assert MakesAt(hist[k].tx, o);
    }
    if MadeIn(hist, o) {
      var k :| 0 <= k < |hist| && MakesAt(hist[k].tx, o);
      var b, j := PlacedAt(bs, first, k);
      assert OutputAt(bs, b, j, o.index);
    }
  }

  lemma PlaceOf(bs: seq<Block>, first: nat, b: nat, j: nat)
    requires b < |bs| && j < |bs[b].txs|
    ensures exists k :: 0 <= k < |History(bs, first)| && History(bs, first)[k] == Placed(bs[b].txs[j], first + b)
  {
    HistoryIs(bs, first, Placed(bs[b].txs[j], first + b));
  }

  lemma PlacedAt(bs: seq<Block>, first: nat, k: nat) returns (b: nat, j: nat)
    requires k < |History(bs, first)|
    ensures b < |bs| && j < |bs[b].txs| && History(bs, first)[k] == Placed(bs[b].txs[j], first + b)
  {
    var p := History(bs, first)[k];
    assert p in History(bs, first);
    HistoryIs(bs, first, p);
    b, j :| 0 <= b < |bs| && 0 <= j < |bs[b].txs| && p == Placed(bs[b].txs[j], first + b);
  }

  /** The tables of every replayed chain say what its blocks say. */
  lemma ReplayIsLedger(base: Tables, known: set<Id>, bs: seq<Block>, first: nat)
    requires CleanBase(base, known) && FreshChain(known, bs) && Replay(base, bs, first).ok
    ensures LedgerOf(base.utxo, bs, first, Replay(base, bs, first).tables)
  {
    hide Replay, FreshChain, CleanBase, History;
    ReplayTold(base, known, bs, first);
    ToldIsLedger(base.utxo, bs, first, Replay(base, bs, first).tables);
  }

  lemma ToldIsLedger(base: map<OutPoint, Coin>, bs: seq<Block>, first: nat, t: Tables)
    requires CoinsTold(base, History(bs, first), t.utxo) && MarksTold(History(bs, first), t.marks)
    ensures LedgerOf(base, bs, first, t)
  {
    hide History, SpentIn, MadeIn, SpentOn, MadeOn;
    var hist := History(bs, first);
    forall o
      ensures o in t.utxo <==> (o in base || MadeOn(bs, o)) && !SpentOn(bs, o)
      ensures o in t.marks && !SpentOn(bs, o) ==> t.marks[o] == Mark(false, None, None)
    {
      SpentOnIs(bs, first, o);
      MadeOnIs(bs, first, o);
    }
    forall b: nat, j: nat, n: nat | OutputAt(bs, b, j, n) && OutPoint(bs[b].txs[j].id, n) in t.utxo
      ensures t.utxo[OutPoint(bs[b].txs[j].id, n)] == CoinFrom(Placed(bs[b].txs[j], first + b), n)
    {
      PlaceOf(bs, first, b, j);
      var k :| 0 <= k < |hist| && hist[k] == Placed(bs[b].txs[j], first + b);
      assert MakesAt(hist[k].tx, OutPoint(bs[b].txs[j].id, n));
    }
    forall b: nat, j: nat, i: nat | InputAt(bs, b, j, i) && OutPointAt(bs, b, j, i) in t.marks
      ensures t.marks[OutPointAt(bs, b, j, i)] == Mark(true, Some(bs[b].txs[j].id), Some(i))
    {
      PlaceOf(bs, first, b, j);
      var k :| 0 <= k < |hist| && hist[k] == Placed(bs[b].txs[j], first + b);
      assert SpendsAt(hist[k].tx, i, OutPointAt(bs, b, j, i));
    }
  }
}
