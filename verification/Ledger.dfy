/** Transactions, blocks and the three database tables that block connection
    touches: `utxo`, `block_undo` and the spent columns of `outputs`.

    The functions here say, statement by statement, what connecting and
    disconnecting a block does to the tables, including the rows that a failing
    call has already written.  The classes in `BlockConnection` are proved to do
    the same, and the theorems about chains are proved here. */
module Ledger {

  type Byte = b: int | 0 <= b < 256
  type Script = seq<Byte>

  // Block hashes and transaction ids are opaque identifiers.
  type Id = int

  datatype Option<+T> = None | Some(value: T)

  datatype OutPoint = OutPoint(txid: Id, index: nat)
  datatype TxIn = TxIn(prev: OutPoint, scriptSig: Script, sequence: nat)
  datatype TxOut = TxOut(value: int, script: Script)

  const NULL_OUTPOINT := OutPoint(0, 0xffff_ffff)

  datatype Tx = Tx(id: Id, version: int, vin: seq<TxIn>, vout: seq<TxOut>) {
    predicate IsCoinbase() {
      |vin| == 1 && vin[0].prev == NULL_OUTPOINT
    }

    /** Outpoints spent by the first n inputs. */
    function Prevs(n: nat): set<OutPoint>
      requires n <= |vin|
    {
      set i | 0 <= i < n :: vin[i].prev
    }

    /** Outpoints named by the first n outputs, spendable or not. */
    function Outs(n: nat): set<OutPoint>
      requires n <= |vout|
    {
      set i: nat | 0 <= i < n :: OutPoint(id, i)
    }

    /** The rows that connecting this transaction inserts into `utxo`. */
    function Coins(height: nat, n: nat): map<OutPoint, Coin>
      requires n <= |vout|
    {
      map i: nat | 0 <= i < n && !Unspendable(vout[i].script) ::
        OutPoint(id, i) := Coin(vout[i].value, vout[i].script, height, IsCoinbase())
    }
  }

  datatype Block = Block(hash: Id, prev: Id, bits: nat, time: int, txs: seq<Tx>)

  datatype Coin = Coin(value: int, script: Script, height: nat, coinbase: bool)
  datatype UndoKey = UndoKey(block: Id, txid: Id, input: nat)
  datatype UndoRow = UndoRow(prev: OutPoint, coin: Coin)

  // The columns spent, spent_by_txid and spent_by_index of an `outputs` row.
  datatype Mark = Mark(spent: bool, byTxid: Option<Id>, byIndex: Option<nat>)
  const CLEAN := Mark(false, None, None)

  datatype Tables = Tables(utxo: map<OutPoint, Coin>, undo: map<UndoKey, UndoRow>, marks: map<OutPoint, Mark>)

  /** Where a step left the tables, and whether it ran to its end. */
  datatype Step = Step(tables: Tables, ok: bool)

  predicate Unspendable(script: Script) {
    |script| > 0 && script[0] == 0x6a
  }

  /** Value of the first n outputs. */
  function OutputValue(tx: Tx, n: nat): int
    requires n <= |tx.vout|
    decreases n
  {
    if n == 0 then 0 else OutputValue(tx, n - 1) + tx.vout[n - 1].value
  }

  function Max(a: int, b: int): int {
    if a > b then a else b
  }

  function Ids(txs: seq<Tx>): set<Id> {
    set i | 0 <= i < |txs| :: txs[i].id
  }

  predicate DistinctIds(txs: seq<Tx>) {
    forall i, j :: 0 <= i < j < |txs| ==> txs[i].id != txs[j].id
  }

  // An SQL UPDATE of one row: nothing happens when there is no such row.
  function SetMark(marks: map<OutPoint, Mark>, o: OutPoint, m: Mark): map<OutPoint, Mark> {
    if o in marks then marks[o := m] else marks
  }

  function ClearMarks(marks: map<OutPoint, Mark>, os: set<OutPoint>): map<OutPoint, Mark> {
    map o | o in marks :: if o in os then CLEAN else marks[o]
  }

  function DropUndo(undo: map<UndoKey, UndoRow>, block: Id): map<UndoKey, UndoRow> {
    map k | k in undo && k.block != block :: undo[k]
  }

  // ---------------------------------------------------------------- connecting

  function SpendOne(t: Tables, block: Id, tx: Tx, i: nat): Step
    requires i < |tx.vin|
  {
    var prev := tx.vin[i].prev;
    if prev !in t.utxo then Step(t, false)
    else Step(Tables(t.utxo - {prev},
                     t.undo[UndoKey(block, tx.id, i) := UndoRow(prev, t.utxo[prev])],
                     SetMark(t.marks, prev, Mark(true, Some(tx.id), Some(i)))), true)
  }

  /** Spends the first n inputs, stopping at the first one that is missing. */
  function Spend(t: Tables, block: Id, tx: Tx, n: nat): Step
    requires n <= |tx.vin|
    decreases n
  {
    if n == 0 then Step(t, true)
    else
      var s := Spend(t, block, tx, n - 1);
      if s.ok then SpendOne(s.tables, block, tx, n - 1) else s
  }

  function AddCoins(t: Tables, tx: Tx, height: nat, n: nat): Tables
    requires n <= |tx.vout|
  {
    t.(utxo := t.utxo + tx.Coins(height, n))
  }

  function ConnectTx(t: Tables, block: Id, height: nat, tx: Tx): Step {
    var s := if tx.IsCoinbase() then Step(t, true) else Spend(t, block, tx, |tx.vin|);
    if s.ok then Step(AddCoins(s.tables, tx, height, |tx.vout|), true) else s
  }

  function ConnectTxs(t: Tables, block: Id, height: nat, txs: seq<Tx>): Step
    decreases |txs|
  {
    if txs == [] then Step(t, true)
    else
      var s := ConnectTxs(t, block, height, txs[..|txs| - 1]);
      if s.ok then ConnectTx(s.tables, block, height, txs[|txs| - 1]) else s
  }

  // The closing UPDATE of the coinbase rows; it leaves spent_by_index alone.
  function SettleCoinbase(t: Tables, txid: Id): Tables {
    t.(marks := map o | o in t.marks ::
         if o.txid == txid && o in t.utxo then Mark(false, None, t.marks[o].byIndex) else t.marks[o])
  }

  /** The body of ConnectBlock.connect.  A block without transactions fails at the
      very end, when its first transaction is asked for. */
  function Connect(t: Tables, b: Block, height: nat): Step {
    var s := ConnectTxs(t.(undo := DropUndo(t.undo, b.hash)), b.hash, height, b.txs);
    if !s.ok then s
    else if b.txs == [] then Step(s.tables, false)
    else Step(SettleCoinbase(s.tables, b.txs[0].id), true)
  }

  // ------------------------------------------------------------- disconnecting

  function RestoreOne(t: Tables, block: Id, tx: Tx, i: nat): Step
    requires i < |tx.vin|
  {
    var key, prev := UndoKey(block, tx.id, i), tx.vin[i].prev;
    if key !in t.undo then Step(t, false)
    else Step(t.(utxo := t.utxo[prev := t.undo[key].coin], marks := SetMark(t.marks, prev, CLEAN)), true)
  }

  function Restore(t: Tables, block: Id, tx: Tx, n: nat): Step
    requires n <= |tx.vin|
    decreases n
  {
    if n == 0 then Step(t, true)
    else
      var s := Restore(t, block, tx, n - 1);
      if s.ok then RestoreOne(s.tables, block, tx, n - 1) else s
  }

  function RemoveOuts(t: Tables, tx: Tx, n: nat): Tables
    requires n <= |tx.vout|
  {
    t.(utxo := t.utxo - tx.Outs(n), marks := ClearMarks(t.marks, tx.Outs(n)))
  }

  function DisconnectTx(t: Tables, block: Id, tx: Tx): Step {
    var s := if tx.IsCoinbase() then Step(t, true) else Restore(t, block, tx, |tx.vin|);
    if s.ok then Step(RemoveOuts(s.tables, tx, |tx.vout|), true) else s
  }

  /** Last transaction first. */
  function DisconnectTxs(t: Tables, block: Id, txs: seq<Tx>): Step
    decreases |txs|
  {
    if txs == [] then Step(t, true)
    else
      var s := DisconnectTx(t, block, txs[|txs| - 1]);
      if s.ok then DisconnectTxs(s.tables, block, txs[..|txs| - 1]) else s
  }

  function Disconnect(t: Tables, b: Block): Step {
    var s := DisconnectTxs(t, b.hash, b.txs);
    if s.ok then Step(s.tables.(undo := DropUndo(s.tables.undo, b.hash)), true) else s
  }

  // ------------------------------------------- what a successful connect wrote

  /** Only undo rows of these transactions of the block differ. */
  ghost predicate UndoKept(u: map<UndoKey, UndoRow>, v: map<UndoKey, UndoRow>, block: Id, ids: set<Id>) {
    forall k: UndoKey :: k.block != block || k.txid !in ids ==>
      (k in u <==> k in v) && (k in u ==> u[k] == v[k])
  }

  /** Closed form of the tables r after the first n inputs were spent from t. */
  ghost predicate Spent(t: Tables, block: Id, tx: Tx, n: nat, r: Tables)
    requires n <= |tx.vin|
  {
    && (forall i :: 0 <= i < n ==> tx.vin[i].prev in t.utxo)
    && (forall i, j :: 0 <= i < j < n ==> tx.vin[i].prev != tx.vin[j].prev)
    && r.utxo == t.utxo - tx.Prevs(n)
    && (forall i :: 0 <= i < n ==>
          var key := UndoKey(block, tx.id, i);
          key in r.undo && r.undo[key] == UndoRow(tx.vin[i].prev, t.utxo[tx.vin[i].prev]))
    && UndoKept(t.undo, r.undo, block, {tx.id})
    && r.marks.Keys == t.marks.Keys
    && forall o :: o in r.marks && o !in tx.Prevs(n) ==> r.marks[o] == t.marks[o]
  }

  lemma SpendNext(t: Tables, block: Id, tx: Tx, n: nat, r: Tables)
    requires n < |tx.vin| && Spent(t, block, tx, n, r) && SpendOne(r, block, tx, n).ok
    ensures Spent(t, block, tx, n + 1, SpendOne(r, block, tx, n).tables)
  {
    assert tx.Prevs(n + 1) == tx.Prevs(n) + {tx.vin[n].prev};
  }

  lemma SpendNone(t: Tables, block: Id, tx: Tx)
    ensures Spent(t, block, tx, 0, t)
  {
    assert t.utxo - tx.Prevs(0) == t.utxo;
  }

  lemma {:induction false} SpendShape(t: Tables, block: Id, tx: Tx, n: nat)
    requires n <= |tx.vin| && Spend(t, block, tx, n).ok
    ensures Spent(t, block, tx, n, Spend(t, block, tx, n).tables)
    decreases n
  {
    hide Spent, SpendOne;
    if n == 0 {
      SpendNone(t, block, tx);
    } else {
      SpendShape(t, block, tx, n - 1);
      SpendNext(t, block, tx, n - 1, Spend(t, block, tx, n - 1).tables);
    }
  }

  lemma CoinsProvenance(tx: Tx, height: nat)
    ensures forall o :: o in tx.Coins(height, |tx.vout|) ==> o.txid == tx.id && o in tx.Outs(|tx.vout|)
  {
  }

  lemma CoinsNone(tx: Tx, height: nat)
    ensures tx.Coins(height, 0) == map[]
  {
  }

  lemma CoinsNext(tx: Tx, height: nat, n: nat)
    requires n < |tx.vout|
    ensures tx.Coins(height, n + 1) ==
            if Unspendable(tx.vout[n].script) then tx.Coins(height, n)
            else tx.Coins(height, n)[OutPoint(tx.id, n) := Coin(tx.vout[n].value, tx.vout[n].script, height, tx.IsCoinbase())]
    ensures OutPoint(tx.id, n) !in tx.Coins(height, n)
  {
  }

  lemma ConnectTxShape(t: Tables, block: Id, height: nat, tx: Tx)
    requires ConnectTx(t, block, height, tx).ok
    ensures var r := ConnectTx(t, block, height, tx).tables;
            && (forall o :: o in r.utxo ==> o in t.utxo || o.txid == tx.id)
            && r.marks.Keys == t.marks.Keys
            && (forall o :: o in r.marks && r.marks[o] != t.marks[o] ==>
                  o in t.utxo && (o in r.utxo ==> o.txid == tx.id))
            && UndoKept(t.undo, r.undo, block, {tx.id})
  {
    CoinsProvenance(tx, height);
    if !tx.IsCoinbase() {
      SpendShape(t, block, tx, |tx.vin|);
    }
  }

  // ------------------------------------------------ disconnect undoes connect

  /** Closed form of the tables r after the first n inputs were put back with the coins of `was`. */
  ghost predicate Restored(t: Tables, tx: Tx, n: nat, was: map<OutPoint, Coin>, r: Tables)
    requires n <= |tx.vin|
  {
    && r.undo == t.undo
    && r.marks == ClearMarks(t.marks, tx.Prevs(n))
    && r.utxo.Keys == t.utxo.Keys + tx.Prevs(n)
    && tx.Prevs(n) <= was.Keys
    && forall o :: o in r.utxo ==> r.utxo[o] == if o in tx.Prevs(n) then was[o] else t.utxo[o]
  }

  /** The undo rows of the first n inputs hold the coins of `was`. */
  ghost predicate UndoHeld(undo: map<UndoKey, UndoRow>, block: Id, tx: Tx, n: nat, was: map<OutPoint, Coin>)
    requires n <= |tx.vin|
  {
    forall i :: 0 <= i < n ==>
      var key := UndoKey(block, tx.id, i);
      key in undo && tx.vin[i].prev in was && undo[key].coin == was[tx.vin[i].prev]
  }

  lemma RestoreNext(t: Tables, block: Id, tx: Tx, n: nat, was: map<OutPoint, Coin>, r: Tables)
    requires n < |tx.vin| && Restored(t, tx, n, was, r) && UndoHeld(t.undo, block, tx, n + 1, was)
    ensures var s := RestoreOne(r, block, tx, n); s.ok && Restored(t, tx, n + 1, was, s.tables)
  {
    assert tx.Prevs(n + 1) == tx.Prevs(n) + {tx.vin[n].prev};
  }

  lemma UndoHeldPrefix(undo: map<UndoKey, UndoRow>, block: Id, tx: Tx, n: nat, was: map<OutPoint, Coin>)
    requires 0 < n <= |tx.vin| && UndoHeld(undo, block, tx, n, was)
    ensures UndoHeld(undo, block, tx, n - 1, was)
  {
  }

  lemma RestoreNone(t: Tables, tx: Tx, was: map<OutPoint, Coin>)
    ensures Restored(t, tx, 0, was, t)
  {
    assert tx.Prevs(0) == {};
    assert ClearMarks(t.marks, {}) == t.marks;
  }

  lemma {:induction false} RestoreShape(t: Tables, block: Id, tx: Tx, n: nat, was: map<OutPoint, Coin>)
    requires n <= |tx.vin| && UndoHeld(t.undo, block, tx, n, was)
    ensures var s := Restore(t, block, tx, n); s.ok && Restored(t, tx, n, was, s.tables)
    decreases n
  {
    hide Restored, RestoreOne, UndoHeld;
    if n == 0 {
      RestoreNone(t, tx, was);
    } else {
      UndoHeldPrefix(t.undo, block, tx, n, was);
      RestoreShape(t, block, tx, n - 1, was);
      RestoreNext(t, block, tx, n - 1, was, Restore(t, block, tx, n - 1).tables);
    }
  }

  /** No coin carries one of these ids yet. */
  predicate Unused(utxo: map<OutPoint, Coin>, ids: set<Id>) {
    forall o :: o in utxo ==> o.txid !in ids
  }

  /** Unspent outputs, and outputs of the transactions about to be connected, are not marked as spent. */
  predicate MarksClean(t: Tables, ids: set<Id>) {
    forall o :: o in t.marks && (o in t.utxo || o.txid in ids) ==> t.marks[o] == CLEAN
  }

  lemma CoinsBack(before: map<OutPoint, Coin>, spent: set<OutPoint>, made: map<OutPoint, Coin>,
                  restored: map<OutPoint, Coin>, outs: set<OutPoint>)
    requires spent <= before.Keys && made.Keys <= outs && outs !! before.Keys
    requires restored.Keys == ((before - spent) + made).Keys + spent
    requires forall o :: o in restored ==>
               restored[o] == if o in spent then before[o] else ((before - spent) + made)[o]
    ensures restored - outs == before
  {
  }

  lemma MarksBack(before: map<OutPoint, Mark>, after: map<OutPoint, Mark>, spent: set<OutPoint>, outs: set<OutPoint>)
    requires after.Keys == before.Keys
    requires forall o :: o in before && o !in spent ==> after[o] == before[o]
    requires forall o :: o in before && o in spent + outs ==> before[o] == CLEAN
    ensures ClearMarks(ClearMarks(after, spent), outs) == before
  {
  }

  lemma DisconnectTxUndoes(t: Tables, block: Id, height: nat, tx: Tx, later: Tables)
    requires Unused(t.utxo, {tx.id}) && MarksClean(t, {tx.id})
    requires var s := ConnectTx(t, block, height, tx);
             && s.ok && later.utxo == s.tables.utxo && later.marks == s.tables.marks
             && forall k :: k in s.tables.undo && k.block == block && k.txid == tx.id ==>
                              k in later.undo && later.undo[k] == s.tables.undo[k]
    ensures DisconnectTx(later, block, tx) == Step(t.(undo := later.undo), true)
  {
    if tx.IsCoinbase() {
      CoinsProvenance(tx, height);
      var outs := tx.Outs(|tx.vout|);
      CoinsBack(t.utxo, {}, tx.Coins(height, |tx.vout|), later.utxo, outs);
      assert ClearMarks(t.marks, outs) == t.marks;
    } else {
      DisconnectSpendUndoes(t, block, height, tx, later);
    }
  }

  lemma DisconnectSpendUndoes(t: Tables, block: Id, height: nat, tx: Tx, later: Tables)
    requires !tx.IsCoinbase() && Unused(t.utxo, {tx.id}) && MarksClean(t, {tx.id})
    requires var s := ConnectTx(t, block, height, tx);
             && s.ok && later.utxo == s.tables.utxo && later.marks == s.tables.marks
             && forall k :: k in s.tables.undo && k.block == block && k.txid == tx.id ==>
                              k in later.undo && later.undo[k] == s.tables.undo[k]
    ensures DisconnectTx(later, block, tx) == Step(t.(undo := later.undo), true)
  {
    hide Spend, Restore;
    CoinsProvenance(tx, height);
    var n, outs := |tx.vin|, tx.Outs(|tx.vout|);
    var prevs, r := tx.Prevs(n), Restore(later, block, tx, n).tables;
    SpendShape(t, block, tx, n);
    RestoreShape(later, block, tx, n, t.utxo);
    assert r.utxo - outs == t.utxo by {
      CoinsBack(t.utxo, prevs, tx.Coins(height, |tx.vout|), r.utxo, outs);
    }
    assert ClearMarks(r.marks, outs) == t.marks by {
      MarksBack(t.marks, later.marks, prevs, outs);
    }
  }

  lemma {:induction false} DisconnectTxsUndoes(t: Tables, block: Id, height: nat, txs: seq<Tx>, later: Tables)
    requires DistinctIds(txs) && Unused(t.utxo, Ids(txs)) && MarksClean(t, Ids(txs))
    requires var s := ConnectTxs(t, block, height, txs);
             && s.ok && later.utxo == s.tables.utxo && later.marks == s.tables.marks
             && forall k :: k in s.tables.undo && k.block == block && k.txid in Ids(txs) ==>
                              k in later.undo && later.undo[k] == s.tables.undo[k]
    ensures DisconnectTxs(later, block, txs) == Step(t.(undo := later.undo), true)
    decreases |txs|
  {
    if txs != [] {
      var init, last := txs[..|txs| - 1], txs[|txs| - 1];
      IdsSnoc(init, last);
      assert txs == init + [last];
      var s := ConnectTxs(t, block, height, init);
      ConnectTxsShape(t, block, height, init);
      ConnectTxsClean(t, block, height, init, Ids(txs));
      ConnectTxShape(s.tables, block, height, last);
      DisconnectTxUndoes(s.tables, block, height, last, later);
      DisconnectTxsUndoes(t, block, height, init, s.tables.(undo := later.undo));
    }
  }

  lemma IdsSnoc(init: seq<Tx>, last: Tx)
    ensures Ids(init + [last]) == Ids(init) + {last.id}
  {
    var txs := init + [last];
    forall x | x in Ids(init) + {last.id}
      ensures x in Ids(txs)
    {
      if x == last.id {
        assert txs[|init|].id == x;
      } else {
        var i :| 0 <= i < |init| && init[i].id == x;
        assert txs[i].id == x;
      }
    }
  }

  /** Coins, undo rows and marks of a connected list of transactions come from where they should. */
  lemma {:induction false} ConnectTxsShape(t: Tables, block: Id, height: nat, txs: seq<Tx>)
    requires ConnectTxs(t, block, height, txs).ok
    ensures var r := ConnectTxs(t, block, height, txs).tables;
            && (forall o :: o in r.utxo ==> o in t.utxo || o.txid in Ids(txs))
            && r.marks.Keys == t.marks.Keys
            && UndoKept(t.undo, r.undo, block, Ids(txs))
    decreases |txs|
  {
    if txs != [] {
      var init, last := txs[..|txs| - 1], txs[|txs| - 1];
      IdsSnoc(init, last);
      assert txs == init + [last];
      ConnectTxsShape(t, block, height, init);
      ConnectTxShape(ConnectTxs(t, block, height, init).tables, block, height, last);
    }
  }

  lemma {:induction false} ConnectTxsClean(t: Tables, block: Id, height: nat, txs: seq<Tx>, ids: set<Id>)
    requires ConnectTxs(t, block, height, txs).ok
    requires DistinctIds(txs) && Ids(txs) <= ids && Unused(t.utxo, ids) && MarksClean(t, ids)
    ensures var r := ConnectTxs(t, block, height, txs).tables;
            Unused(r.utxo, ids - Ids(txs)) && MarksClean(r, ids - Ids(txs))
    decreases |txs|
  {
    if txs != [] {
      var init, last := txs[..|txs| - 1], txs[|txs| - 1];
      IdsSnoc(init, last);
      assert txs == init + [last];
      assert last.id !in Ids(init);
      ConnectTxsClean(t, block, height, init, ids);
      ConnectTxShape(ConnectTxs(t, block, height, init).tables, block, height, last);
    }
  }

  /** Disconnecting a block that has just been connected restores the coins, the
      spent marks and every undo row of other blocks, and leaves no undo row of
      its own, even when later transactions spend earlier ones of the block. */
  lemma DisconnectUndoesConnect(t: Tables, b: Block, height: nat)
    requires DistinctIds(b.txs) && Unused(t.utxo, Ids(b.txs)) && MarksClean(t, Ids(b.txs))
    requires Connect(t, b, height).ok
    ensures Disconnect(Connect(t, b, height).tables, b) == Step(t.(undo := DropUndo(t.undo, b.hash)), true)
  {
    var start := t.(undo := DropUndo(t.undo, b.hash));
    var s := ConnectTxs(start, b.hash, height, b.txs);
    ConnectSettled(t, b, height);
    DisconnectTxsUndoes(start, b.hash, height, b.txs, s.tables);
    assert DropUndo(s.tables.undo, b.hash) == DropUndo(t.undo, b.hash) by {
      ConnectTxsShape(start, b.hash, height, b.txs);
    }
  }

  /** The closing UPDATE of the coinbase rows changes nothing. */
  lemma ConnectSettled(t: Tables, b: Block, height: nat)
    requires DistinctIds(b.txs) && Unused(t.utxo, Ids(b.txs)) && MarksClean(t, Ids(b.txs))
    requires Connect(t, b, height).ok
    ensures Connect(t, b, height) == ConnectTxs(t.(undo := DropUndo(t.undo, b.hash)), b.hash, height, b.txs)
  {
    var start := t.(undo := DropUndo(t.undo, b.hash));
    ConnectTxsClean(start, b.hash, height, b.txs, Ids(b.txs));
    var r := ConnectTxs(start, b.hash, height, b.txs).tables;
    assert SettleCoinbase(r, b.txs[0].id).marks == r.marks;
  }

  // -------------------------------------------------------------------- replay

  /** Connects a chain of blocks in order; the first one has height `first`. */
  function Replay(base: Tables, chain: seq<Block>, first: nat): Step
    decreases |chain|
  {
    if chain == [] then Step(base, true)
    else
      var s := Replay(base, chain[..|chain| - 1], first);
      if s.ok then Connect(s.tables, chain[|chain| - 1], first + |chain| - 1) else s
  }

  function ChainIds(chain: seq<Block>): set<Id> {
    set i, j | 0 <= i < |chain| && 0 <= j < |chain[i].txs| :: chain[i].txs[j].id
  }

  /** Every transaction id on the chain is used once and is not one of `known`; block hashes differ. */
  predicate FreshChain(known: set<Id>, chain: seq<Block>) {
    && (forall i :: 0 <= i < |chain| ==> DistinctIds(chain[i].txs) && Ids(chain[i].txs) !! known)
    && (forall i, j :: 0 <= i < j < |chain| ==>
          chain[i].hash != chain[j].hash && Ids(chain[i].txs) !! Ids(chain[j].txs))
  }

  /** A start for replay: coins of known ids only, no undo rows, nothing marked as spent. */
  predicate CleanBase(base: Tables, known: set<Id>) {
    && (forall o :: o in base.utxo ==> o.txid in known)
    && base.undo == map[]
    && forall o :: o in base.marks ==> base.marks[o] == CLEAN
  }

  lemma ChainIdsSnoc(init: seq<Block>, last: Block)
    ensures ChainIds(init + [last]) == ChainIds(init) + Ids(last.txs)
  {
    var chain := init + [last];
    forall x | x in ChainIds(init) + Ids(last.txs)
      ensures x in ChainIds(chain)
    {
      if x in ChainIds(init) {
        var i, j :| 0 <= i < |init| && 0 <= j < |init[i].txs| && init[i].txs[j].id == x;
        assert chain[i].txs[j].id == x;
      } else {
        var j :| 0 <= j < |last.txs| && last.txs[j].id == x;
        assert chain[|init|].txs[j].id == x;
      }
    }
    forall x | x in ChainIds(chain)
      ensures x in ChainIds(init) + Ids(last.txs)
    {
      var i, j :| 0 <= i < |chain| && 0 <= j < |chain[i].txs| && chain[i].txs[j].id == x;
      if i < |init| {
        assert init[i].txs[j].id == x;
      }
    }
  }

  lemma ChainIdsIn(chain: seq<Block>, x: Id) returns (i: nat)
    requires x in ChainIds(chain)
    ensures i < |chain| && x in Ids(chain[i].txs)
  {
    var k, j :| 0 <= k < |chain| && 0 <= j < |chain[k].txs| && chain[k].txs[j].id == x;
    i := k;
  }

  lemma ConnectShape(t: Tables, b: Block, height: nat)
    requires Connect(t, b, height).ok
    requires DistinctIds(b.txs) && Unused(t.utxo, Ids(b.txs)) && MarksClean(t, Ids(b.txs))
    ensures var r := Connect(t, b, height).tables;
            && (forall o :: o in r.utxo ==> o in t.utxo || o.txid in Ids(b.txs))
            && (forall k :: k in r.undo ==> k in t.undo || k.block == b.hash)
            && r.marks.Keys == t.marks.Keys
            && (forall o :: o in r.marks && o in r.utxo ==> r.marks[o] == CLEAN)
            && (forall o :: o in r.marks && r.marks[o] != t.marks[o] ==> o in t.utxo || o.txid in Ids(b.txs))
  {
    var start := t.(undo := DropUndo(t.undo, b.hash));
    ConnectTxsShape(start, b.hash, height, b.txs);
    ConnectTxsMarks(start, b.hash, height, b.txs);
    ConnectTxsClean(start, b.hash, height, b.txs, Ids(b.txs));
    ConnectSettled(t, b, height);
  }

  /** Every coin was created by the base or by the chain, the undo rows are those of the chain's
      blocks, and unspent outputs as well as outputs of transactions not on the chain are unmarked. */
  ghost predicate Tidy(base: Tables, known: set<Id>, chain: seq<Block>, t: Tables) {
    && (forall o :: o in t.utxo ==> o.txid in known + ChainIds(chain))
    && (forall k :: k in t.undo ==> k.block in Hashes(chain))
    && t.marks.Keys == base.marks.Keys
    && (forall o :: o in t.marks && (o in t.utxo || o.txid !in known + ChainIds(chain)) ==> t.marks[o] == CLEAN)
  }

  lemma TidyConnect(base: Tables, known: set<Id>, init: seq<Block>, last: Block, t: Tables, height: nat)
    requires FreshChain(known, init + [last]) && Tidy(base, known, init, t)
    requires Connect(t, last, height).ok
    ensures Unused(t.utxo, Ids(last.txs)) && MarksClean(t, Ids(last.txs)) && DropUndo(t.undo, last.hash) == t.undo
    ensures Tidy(base, known, init + [last], Connect(t, last, height).tables)
  {
    ChainIdsSnoc(init, last);
    HashesSnoc(init, last);
    NextIsFresh(init, last, known);
    ConnectShape(t, last, height);
  }

  lemma ReplaySnoc(base: Tables, init: seq<Block>, last: Block, first: nat)
    ensures Replay(base, init + [last], first) ==
            var s := Replay(base, init, first);
            if s.ok then Connect(s.tables, last, first + |init|) else s
  {
    hide Connect;
    assert (init + [last])[..|init|] == init;
  }

  lemma {:induction false} ReplayTidy(base: Tables, chain: seq<Block>, first: nat, known: set<Id>)
    requires CleanBase(base, known) && FreshChain(known, chain) && Replay(base, chain, first).ok
    ensures Tidy(base, known, chain, Replay(base, chain, first).tables)
    decreases |chain|
  {
    if chain != [] {
      var init, last := chain[..|chain| - 1], chain[|chain| - 1];
      assert chain == init + [last];
      ReplaySnoc(base, init, last, first);
      NextIsFresh(init, last, known);
      ReplayTidy(base, init, first, known);
      TidyConnect(base, known, init, last, Replay(base, init, first).tables, first + |init|);
    }
  }

  function Hashes(chain: seq<Block>): set<Id> {
    set i | 0 <= i < |chain| :: chain[i].hash
  }

  lemma HashesSnoc(init: seq<Block>, last: Block)
    ensures Hashes(init + [last]) == Hashes(init) + {last.hash}
  {
    var chain := init + [last];
    assert chain[|init|] == last;
    forall x | x in Hashes(init)
      ensures x in Hashes(chain)
    {
      var i :| 0 <= i < |init| && init[i].hash == x;
      assert chain[i].hash == x;
    }
  }

  lemma NextIsFresh(init: seq<Block>, last: Block, known: set<Id>)
    requires FreshChain(known, init + [last])
    ensures FreshChain(known, init) && DistinctIds(last.txs) && Ids(last.txs) !! known + ChainIds(init)
    ensures last.hash !in Hashes(init)
  {
    var chain := init + [last];
    assert forall i :: 0 <= i < |init| ==> chain[i] == init[i];
    assert chain[|init|] == last;
    forall x | x in Ids(last.txs)
      ensures x !in ChainIds(init)
    {
      if x in ChainIds(init) {
        var i := ChainIdsIn(init, x);
        assert false;
      }
    }
  }

  /** Connecting only ever marks outputs that were unspent or that it has created itself. */
  lemma {:induction false} ConnectTxsMarks(t: Tables, block: Id, height: nat, txs: seq<Tx>)
    requires ConnectTxs(t, block, height, txs).ok
    ensures var r := ConnectTxs(t, block, height, txs).tables;
            r.marks.Keys == t.marks.Keys &&
            forall o :: o in r.marks && r.marks[o] != t.marks[o] ==> o in t.utxo || o.txid in Ids(txs)
    decreases |txs|
  {
    if txs != [] {
      var init, last := txs[..|txs| - 1], txs[|txs| - 1];
      IdsSnoc(init, last);
      assert txs == init + [last];
      ConnectTxsMarks(t, block, height, init);
      ConnectTxsShape(t, block, height, init);
      ConnectTxShape(ConnectTxs(t, block, height, init).tables, block, height, last);
    }
  }

  lemma TidyDisconnect(base: Tables, known: set<Id>, init: seq<Block>, last: Block, t: Tables, height: nat)
    requires FreshChain(known, init + [last]) && Tidy(base, known, init, t)
    requires Connect(t, last, height).ok
    ensures Disconnect(Connect(t, last, height).tables, last) == Step(t, true)
  {
    TidyConnect(base, known, init, last, t, height);
    NextIsFresh(init, last, known);
    DisconnectUndoesConnect(t, last, height);
  }

  /** The tip of a replayed chain can always be taken off again, exactly. */
  lemma {:induction false} DisconnectTip(base: Tables, init: seq<Block>, last: Block, first: nat, known: set<Id>)
    requires CleanBase(base, known) && FreshChain(known, init + [last])
    requires Replay(base, init + [last], first).ok
    ensures Replay(base, init, first).ok
    ensures Disconnect(Replay(base, init + [last], first).tables, last) == Replay(base, init, first)
  {
    ReplaySnoc(base, init, last, first);
    NextIsFresh(init, last, known);
    ReplayTidy(base, init, first, known);
    var s := Replay(base, init, first);
    assert Replay(base, init + [last], first) == Connect(s.tables, last, first + |init|);
    assert Connect(s.tables, last, first + |init|).ok;
    hide *;
    TidyDisconnect(base, known, init, last, s.tables, first + |init|);
  }

  // ------------------------------------------- rows stored for later blocks

  /** The same tables after fresh, clean `outputs` rows were inserted. */
  function WithRows(t: Tables, rows: map<OutPoint, Mark>): Tables {
    t.(marks := t.marks + rows)
  }

  /** The rows ride along with a step and none of them belongs to a coin. */
  ghost predicate Carries(s: Step, withRows: Step, rows: map<OutPoint, Mark>) {
    && withRows == Step(WithRows(s.tables, rows), s.ok)
    && rows.Keys !! s.tables.utxo.Keys
  }

  lemma SpendOneRows(t: Tables, rows: map<OutPoint, Mark>, block: Id, tx: Tx, i: nat)
    requires i < |tx.vin| && rows.Keys !! t.utxo.Keys
    ensures Carries(SpendOne(t, block, tx, i), SpendOne(WithRows(t, rows), block, tx, i), rows)
  {
    var prev, m := tx.vin[i].prev, Mark(true, Some(tx.id), Some(i));
    if prev in t.utxo {
      assert SetMark(t.marks + rows, prev, m) == SetMark(t.marks, prev, m) + rows;
    }
  }

  lemma {:induction false} SpendRows(t: Tables, rows: map<OutPoint, Mark>, block: Id, tx: Tx, n: nat)
    requires n <= |tx.vin| && rows.Keys !! t.utxo.Keys
    ensures Carries(Spend(t, block, tx, n), Spend(WithRows(t, rows), block, tx, n), rows)
    decreases n
  {
    hide SpendOne, WithRows;
    if n > 0 {
      SpendRows(t, rows, block, tx, n - 1);
      SpendOneRows(Spend(t, block, tx, n - 1).tables, rows, block, tx, n - 1);
    }
  }

  lemma ConnectTxRows(t: Tables, rows: map<OutPoint, Mark>, block: Id, height: nat, tx: Tx)
    requires rows.Keys !! t.utxo.Keys && forall o :: o in rows ==> o.txid != tx.id
    ensures Carries(ConnectTx(t, block, height, tx), ConnectTx(WithRows(t, rows), block, height, tx), rows)
  {
    CoinsProvenance(tx, height);
    SpendRows(t, rows, block, tx, |tx.vin|);
  }

  lemma {:induction false} ConnectTxsRows(t: Tables, rows: map<OutPoint, Mark>, block: Id, height: nat, txs: seq<Tx>)
    requires rows.Keys !! t.utxo.Keys && forall o :: o in rows ==> o.txid !in Ids(txs)
    ensures Carries(ConnectTxs(t, block, height, txs), ConnectTxs(WithRows(t, rows), block, height, txs), rows)
    decreases |txs|
  {
    if txs != [] {
      var init, last := txs[..|txs| - 1], txs[|txs| - 1];
      IdsSnoc(init, last);
      assert txs == init + [last];
      hide ConnectTx, WithRows;
      ConnectTxsRows(t, rows, block, height, init);
      ConnectTxRows(ConnectTxs(t, block, height, init).tables, rows, block, height, last);
    }
  }

  lemma SettleRows(t: Tables, rows: map<OutPoint, Mark>, id: Id)
    requires rows.Keys !! t.utxo.Keys
    ensures SettleCoinbase(WithRows(t, rows), id) == WithRows(SettleCoinbase(t, id), rows)
  {
    assert SettleCoinbase(WithRows(t, rows), id).marks == SettleCoinbase(t, id).marks + rows;
  }

  lemma ConnectRows(t: Tables, rows: map<OutPoint, Mark>, b: Block, height: nat)
    requires rows.Keys !! t.utxo.Keys && forall o :: o in rows ==> o.txid !in Ids(b.txs)
    ensures Carries(Connect(t, b, height), Connect(WithRows(t, rows), b, height), rows)
  {
    var start := t.(undo := DropUndo(t.undo, b.hash));
    assert WithRows(start, rows) == WithRows(t, rows).(undo := DropUndo(t.undo, b.hash));
    var s := ConnectTxs(start, b.hash, height, b.txs);
    assert Carries(s, ConnectTxs(WithRows(start, rows), b.hash, height, b.txs), rows) by {
      ConnectTxsRows(start, rows, b.hash, height, b.txs);
    }
    if s.ok && b.txs != [] {
      SettleRows(s.tables, rows, b.txs[0].id);
    }
  }

  /** Storing more blocks does not change what replaying a chain of other blocks gives. */
  lemma {:induction false} ReplayRows(base: Tables, rows: map<OutPoint, Mark>, chain: seq<Block>, first: nat)
    requires rows.Keys !! base.utxo.Keys && forall o :: o in rows ==> o.txid !in ChainIds(chain)
    ensures Carries(Replay(base, chain, first), Replay(WithRows(base, rows), chain, first), rows)
    decreases |chain|
  {
    hide Connect, WithRows, ChainIds;
    if chain != [] {
      var init, last := chain[..|chain| - 1], chain[|chain| - 1];
      assert chain == init + [last];
      ChainIdsSnoc(init, last);
      ReplayRows(base, rows, init, first);
      ReplaySnoc(base, init, last, first);
      ReplaySnoc(WithRows(base, rows), init, last, first);
      ConnectRows(Replay(base, init, first).tables, rows, last, first + |init|);
    }
  }
}
