/** The database, the block index and the two classes that connect and disconnect
    blocks.  Every method is proved to do what the functions of `Ledger`,
    `ChainIndex` and `ReorgSpec` say. */
module BlockConnection {
  import opened Ledger
  import opened ChainIndex
  import opened ReorgSpec

  /** What `transaction()` remembers: whether it opened the transaction, and the rows at that moment. */
  datatype Scope = Scope(started: bool, saved: Tables, txids: set<Id>)

  class Database {
    var utxo: map<OutPoint, Coin>
    var undo: map<UndoKey, UndoRow>
    var marks: map<OutPoint, Mark>
    var txids: set<Id> // the keys of `transactions`
    var inTransaction: bool

    function Rows(): Tables
      reads this
    {
      Tables(utxo, undo, marks)
    }

    constructor (rows: Tables, txids: set<Id>)
      ensures Rows() == rows && this.txids == txids && !inTransaction
    {
      utxo, undo, marks, inTransaction := rows.utxo, rows.undo, rows.marks, false;
      this.txids := txids;
    }

    /** Entering `transaction()`: inside an open transaction nothing is started. */
    method Begin() returns (scope: Scope)
      modifies this`inTransaction
      ensures inTransaction && scope == Scope(!old(inTransaction), Rows(), txids)
    {
      scope := Scope(!inTransaction, Tables(utxo, undo, marks), txids);
      inTransaction := true;
    }

    /** Leaving it: only the scope that started the transaction commits or rolls back. */
    method End(scope: Scope, ok: bool)
      modifies this
      ensures Rows() == if !ok && scope.started then scope.saved else old(Rows())
      ensures txids == if !ok && scope.started then scope.txids else old(txids)
      ensures inTransaction == if scope.started then false else old(inTransaction)
    {
      if scope.started {
        if !ok {
          utxo, undo, marks, txids := scope.saved.utxo, scope.saved.undo, scope.saved.marks, scope.txids;
        }
        inTransaction := false;
      }
    }

    /** Rolling back to a savepoint and releasing it; a savepoint set outside a transaction opened one. */
    method RollbackTo(scope: Scope)
      modifies this
      ensures Rows() == scope.saved && txids == scope.txids
      ensures inTransaction == if scope.started then false else old(inTransaction)
    {
      utxo, undo, marks, txids := scope.saved.utxo, scope.saved.undo, scope.saved.marks, scope.txids;
      if scope.started {
        inTransaction := false;
      }
    }

    method AddUtxo(o: OutPoint, c: Coin)
      modifies this`utxo
      ensures utxo == old(utxo)[o := c]
    {
      utxo := utxo[o := c];
    }

    method UpdateOutput(o: OutPoint, m: Mark)
      modifies this`marks
      ensures marks == SetMark(old(marks), o, m)
    {
      if o in marks {
        marks := marks[o := m];
      }
    }

    /** Deletes the coin and marks its `outputs` row; false when there is no such coin. */
    method SpendUtxo(o: OutPoint, byTxid: Id, byIndex: nat) returns (ok: bool)
      modifies this`utxo, this`marks
      ensures ok == (o in old(utxo))
      ensures utxo == old(utxo) - {o}
      ensures marks == if ok then SetMark(old(marks), o, Mark(true, Some(byTxid), Some(byIndex))) else old(marks)
    {
      ok := o in utxo;
      utxo := utxo - {o};
      if ok {
        UpdateOutput(o, Mark(true, Some(byTxid), Some(byIndex)));
      }
    }

    method RemoveUtxo(o: OutPoint) returns (ok: bool)
      modifies this`utxo
      ensures ok == (o in old(utxo)) && utxo == old(utxo) - {o}
    {
      ok := o in utxo;
      utxo := utxo - {o};
    }

    method DeleteUndo(block: Id)
      modifies this`undo
      ensures undo == DropUndo(old(undo), block)
    {
      undo := DropUndo(undo, block);
    }
  }

  class BlockIndex {
    var entries: Entries
    var heights: HeightMap
    var best: Option<Id>
    var bestHeight: int

    function State(): Index
      reads this
    {
      Index(entries, heights, best, bestHeight)
    }

    constructor (ix: Index)
      ensures State() == ix
    {
      entries, heights, best, bestHeight := ix.entries, ix.heights, ix.best, ix.bestHeight;
    }

    method AddBlock(b: Block, height: nat, work: nat)
      modifies this`entries
      ensures State() == ChainIndex.AddBlock(old(State()), b, height, work)
    {
      var e := NewEntry(b, height, work);
      if b.prev !in entries && height > 0 {
        e := e.(status := e.status + {ORPHAN, SIDE_CHAIN});
      } else if b.prev in entries && entries[b.prev].IsInvalid() {
        e := e.(status := e.status + {INVALID, FAILED_VALIDATION});
      }
      if best.Some? && b.hash != best.value {
        e := e.(status := e.status + {SIDE_CHAIN});
      }
      entries := entries[b.hash := e];
    }

    method MarkMainChain(h: Id, isMain: bool)
      modifies this`entries, this`heights
      ensures State() == MarkMain(old(State()), h, isMain)
    {
      if h in entries {
        var e := entries[h];
        if isMain {
          e := e.(status := e.status + {MAIN_CHAIN} - {SIDE_CHAIN} - {DISCONNECTED});
          heights := heights[e.height := h];
        } else {
          e := e.(status := e.status - {MAIN_CHAIN} + {SIDE_CHAIN} + {DISCONNECTED});
          if e.height in heights && heights[e.height] == h {
            heights := heights - {e.height};
          }
        }
        entries := entries[h := e];
      }
    }

    method IsBranchInvalid(h: Id) returns (invalid: bool)
      requires Linked(entries)
      ensures invalid == BranchInvalid(entries, h)
    {
      hide Linked;
      var current := h;
      while current in entries
        invariant BranchInvalid(entries, h) == BranchInvalid(entries, current)
        decreases if current in entries then entries[current].height + 1 else 0
      {
        BranchInvalidStep(entries, current);
        if entries[current].IsInvalid() {
          return true;
        }
        current := entries[current].prev;
      }
      return false;
    }

    /** Walks from the tip to the root, collecting hashes and heights. */
    method CollectBranch(tip: Id) returns (onChain: set<Id>, chainMap: HeightMap)
      requires Linked(entries)
      ensures forall x :: x in onChain <==> x in Chain(entries, tip)
      ensures chainMap == HeightsOf(entries, tip)
    {
      hide Linked, Chain, HeightsOf;
      onChain, chainMap := {}, map[];
      var current := tip;
      while current in entries
        invariant forall x :: x in Chain(entries, tip) <==> x in onChain || x in Chain(entries, current)
        invariant HeightsOf(entries, tip) == HeightsOf(entries, current) + chainMap
        decreases if current in entries then entries[current].height + 1 else 0
      {
        LinkedStep(entries, current);
        onChain := onChain + {current};
        chainMap := map[entries[current].height := current] + chainMap;
        current := entries[current].prev;
      }
      LinkedEnd(entries, current);
    }

    /** Clears or sets the MAIN_CHAIN flag of every entry, one after the other. */
    method FlagEntries(onChain: set<Id>)
      modifies this`entries
      ensures entries == map h | h in old(entries) :: Reflag(old(entries)[h], h in onChain)
    {
      ghost var before := entries;
      var todo := entries.Keys;
      while todo != {}
        invariant todo <= before.Keys && entries.Keys == before.Keys
        invariant forall h :: h in before ==>
                    entries[h] == if h in todo then before[h] else Reflag(before[h], h in onChain)
        decreases |todo|
      {
        SomeMember(todo);
        var h :| h in todo;
        entries := entries[h := Reflag(entries[h], h in onChain)];
        todo := todo - {h};
      }
      assert forall h :: h in before ==> h !in todo;
      assert forall h :: h in before ==> entries[h] == Reflag(before[h], h in onChain);
    }

    method RebuildMainChain(tip: Id)
      requires Linked(entries)
      modifies this`entries, this`heights
      ensures entries == Reflagged(old(entries), tip) && heights == HeightsOf(old(entries), tip)
    {
      var onChain, chainMap := CollectBranch(tip);
      ghost var before := entries;
      FlagEntries(onChain);
      ReflaggedByMembers(before, tip, onChain);
      heights := chainMap;
    }

    method SetBestChainTip(h: Id)
      requires Linked(entries)
      modifies this
      ensures State() == SetBest(old(State()), h)
    {
      if h !in entries {
        return;
      }
      var invalid := IsBranchInvalid(h);
      if invalid {
        return;
      }
      best, bestHeight := Some(h), entries[h].height;
      RebuildMainChain(h);
    }
  }

  lemma SomeMember(s: set<Id>)
    ensures s == {} || exists h :: h in s
  {
    if forall h :: h !in s {
      assert s == {};
    }
  }

  lemma ReflaggedByMembers(es: Entries, tip: Id, onChain: set<Id>)
    requires Linked(es) && forall x :: x in onChain <==> x in Chain(es, tip)
    ensures Reflagged(es, tip) == map h | h in es :: Reflag(es[h], h in onChain)
  {
    hide Linked, Chain;
    var fs := map h | h in es :: Reflag(es[h], h in onChain);
    assert fs.Keys == es.Keys == Reflagged(es, tip).Keys;
    assert forall h :: h in es ==> fs[h] == Reflagged(es, tip)[h];
  }

  lemma LinkedStep(es: Entries, h: Id)
    requires Linked(es) && h in es
    ensures es[h].prev in es ==> es[es[h].prev].height + 1 == es[h].height
    ensures Chain(es, h) == Chain(es, es[h].prev) + [h]
    ensures HeightsOf(es, h) == HeightsOf(es, es[h].prev)[es[h].height := h]
  {
  }

  lemma LinkedEnd(es: Entries, h: Id)
    requires Linked(es) && h !in es
    ensures Chain(es, h) == [] && HeightsOf(es, h) == map[]
  {
  }

  lemma BranchInvalidStep(es: Entries, h: Id)
    requires Linked(es) && h in es
    ensures BranchInvalid(es, h) == (es[h].IsInvalid() || BranchInvalid(es, es[h].prev))
    ensures es[h].prev in es ==> es[es[h].prev].height + 1 == es[h].height
  {
    var p := Chain(es, es[h].prev);
    assert Chain(es, h) == p + [h];
    assert h in Chain(es, h);
    assert forall x :: x in p ==> x in Chain(es, h);
  }

  class ConnectBlock {
    const db: Database
    const index: BlockIndex

    constructor (db: Database, index: BlockIndex)
      ensures this.db == db && this.index == index
    {
      this.db, this.index := db, index;
    }

    /** Captures the undo row of each input and deletes its coin. */
    method SpendInputs(block: Id, tx: Tx) returns (ok: bool)
      modifies db`utxo, db`undo, db`marks
      ensures Step(db.Rows(), ok) == Spend(old(db.Rows()), block, tx, |tx.vin|)
    {
      ghost var start := db.Rows();
      for i := 0 to |tx.vin|
        invariant Spend(start, block, tx, i) == Step(db.Rows(), true)
      {
        var prev := tx.vin[i].prev;
        if prev !in db.utxo {
          SpendStops(start, block, tx, i + 1, |tx.vin|);
          return false;
        }
        db.undo := db.undo[UndoKey(block, tx.id, i) := UndoRow(prev, db.utxo[prev])];
        var spent := db.SpendUtxo(prev, tx.id, i);
      }
      return true;
    }

    method AddOutputs(tx: Tx, height: nat)
      modifies db`utxo
      ensures db.Rows() == AddCoins(old(db.Rows()), tx, height, |tx.vout|)
    {
      hide Tx.Coins;
      ghost var start := db.utxo;
      CoinsNone(tx, height);
      assert start + map[] == start;
      for i := 0 to |tx.vout|
        invariant db.utxo == start + tx.Coins(height, i)
      {
        var out := tx.vout[i];
        CoinsNext(tx, height, i);
        if !Unspendable(out.script) {
          db.AddUtxo(OutPoint(tx.id, i), Coin(out.value, out.script, height, tx.IsCoinbase()));
        }
      }
    }

    method ConnectTransactions(b: Block, height: nat) returns (ok: bool)
      modifies db`utxo, db`undo, db`marks
      ensures Step(db.Rows(), ok) == ConnectTxs(old(db.Rows()), b.hash, height, b.txs)
    {
      hide Spend, AddCoins;
      ghost var start := db.Rows();
      for k := 0 to |b.txs|
        invariant ConnectTxs(start, b.hash, height, b.txs[..k]) == Step(db.Rows(), true)
      {
        var tx := b.txs[k];
        ConnectTxsStep(start, b.hash, height, b.txs, k);
        ok := true;
        if !tx.IsCoinbase() {
          ok := SpendInputs(b.hash, tx);
        }
        if !ok {
          ConnectTxsStop(start, b.hash, height, b.txs, k + 1, |b.txs|);
          assert b.txs[..|b.txs|] == b.txs;
          return false;
        }
        AddOutputs(tx, height);
      }
      assert b.txs[..|b.txs|] == b.txs;
      return true;
    }

    /** Connects a block at its height in the index.  A failure leaves the rows as they
        were, unless the caller had already opened a transaction. */
    method Connect(b: Block) returns (ok: bool)
      modifies db, index`entries, index`heights
      ensures var r := ConnectLive(old(Live(db.Rows(), index.State())), b);
              && ok == r.ok && index.State() == r.live.index
              && db.Rows() == if ok || old(db.inTransaction) then r.live.tables else old(db.Rows())
      ensures db.inTransaction == old(db.inTransaction) && db.txids == old(db.txids)
    {
      if b.hash !in index.entries {
        return false;
      }
      var height := index.entries[b.hash].height;
      hide ConnectTxs;
      var scope := db.Begin();
      db.DeleteUndo(b.hash);
      ok := ConnectTransactions(b, height);
      if ok {
        index.MarkMainChain(b.hash, true);
        if b.txs == [] {
          ok := false;
        } else {
          db.marks := SettleCoinbase(db.Rows(), b.txs[0].id).marks;
        }
      }
      if b.txs == [] {
        assert ConnectTxs(db.Rows(), b.hash, height, []).ok by {
          ConnectNone(db.Rows(), b.hash, height);
        }
      }
      db.End(scope, ok);
    }
  }

  lemma ConnectNone(t: Tables, block: Id, height: nat)
    ensures ConnectTxs(t, block, height, []) == Step(t, true)
  {
  }

  lemma {:induction false} SpendStops(t: Tables, block: Id, tx: Tx, n: nat, m: nat)
    requires n <= m <= |tx.vin| && !Spend(t, block, tx, n).ok
    ensures Spend(t, block, tx, m) == Spend(t, block, tx, n)
    decreases m
  {
    if n < m {
      SpendStops(t, block, tx, n, m - 1);
    }
  }

  lemma ConnectTxsStep(t: Tables, block: Id, height: nat, txs: seq<Tx>, k: nat)
    requires k < |txs|
    ensures ConnectTxs(t, block, height, txs[..k + 1]) ==
            var s := ConnectTxs(t, block, height, txs[..k]);
            if s.ok then ConnectTx(s.tables, block, height, txs[k]) else s
  {
    hide ConnectTx;
    assert txs[..k + 1][..k] == txs[..k];
  }

  lemma {:induction false} ConnectTxsStop(t: Tables, block: Id, height: nat, txs: seq<Tx>, n: nat, m: nat)
    requires n <= m <= |txs| && !ConnectTxs(t, block, height, txs[..n]).ok
    ensures ConnectTxs(t, block, height, txs[..m]) == ConnectTxs(t, block, height, txs[..n])
    decreases m
  {
    hide ConnectTx;
    if n < m {
      ConnectTxsStop(t, block, height, txs, n, m - 1);
      ConnectTxsStep(t, block, height, txs, m - 1);
    }
  }

  class DisconnectBlock {
    const db: Database
    const index: BlockIndex

    constructor (db: Database, index: BlockIndex)
      ensures this.db == db && this.index == index
    {
      this.db, this.index := db, index;
    }

    method RestoreInputs(block: Id, tx: Tx) returns (ok: bool)
      modifies db`utxo, db`marks
      ensures Step(db.Rows(), ok) == Restore(old(db.Rows()), block, tx, |tx.vin|)
    {
      ghost var start := db.Rows();
      for i := 0 to |tx.vin|
        invariant Restore(start, block, tx, i) == Step(db.Rows(), true)
      {
        var key, prev := UndoKey(block, tx.id, i), tx.vin[i].prev;
        if key !in db.undo {
          RestoreStops(start, block, tx, i + 1, |tx.vin|);
          return false;
        }
        db.AddUtxo(prev, db.undo[key].coin);
        db.UpdateOutput(prev, CLEAN);
      }
      return true;
    }

    method RemoveOutputs(tx: Tx)
      modifies db`utxo, db`marks
      ensures db.Rows() == RemoveOuts(old(db.Rows()), tx, |tx.vout|)
    {
      ghost var start := db.Rows();
      assert start.utxo - tx.Outs(0) == start.utxo && ClearMarks(start.marks, tx.Outs(0)) == start.marks;
      for i := 0 to |tx.vout|
        invariant db.utxo == start.utxo - tx.Outs(i)
        invariant db.marks == ClearMarks(start.marks, tx.Outs(i))
      {
        assert tx.Outs(i + 1) == tx.Outs(i) + {OutPoint(tx.id, i)};
        var removed := db.RemoveUtxo(OutPoint(tx.id, i));
        db.UpdateOutput(OutPoint(tx.id, i), CLEAN);
      }
    }

    /** Last transaction first. */
    method DisconnectTransactions(b: Block) returns (ok: bool)
      modifies db`utxo, db`marks
      ensures Step(db.Rows(), ok) == DisconnectTxs(old(db.Rows()), b.hash, b.txs)
    {
      hide Restore, RemoveOuts;
      ghost var start := db.Rows();
      var k := |b.txs|;
      assert b.txs[..k] == b.txs;
      while k > 0
        invariant 0 <= k <= |b.txs|
        invariant DisconnectTxs(db.Rows(), b.hash, b.txs[..k]) == DisconnectTxs(start, b.hash, b.txs)
      {
        var tx := b.txs[k - 1];
        DisconnectTxsStep(db.Rows(), b.hash, b.txs, k);
        ok := true;
        if !tx.IsCoinbase() {
          ok := RestoreInputs(b.hash, tx);
        }
        if !ok {
          return false;
        }
        RemoveOutputs(tx);
        k := k - 1;
      }
      return true;
    }

    /** Takes a block off again with the help of its undo rows. */
    method Disconnect(b: Block) returns (ok: bool)
      modifies db, index`entries, index`heights
      ensures var r := DisconnectLive(old(Live(db.Rows(), index.State())), b);
              && ok == r.ok && index.State() == r.live.index
              && db.Rows() == if ok || old(db.inTransaction) then r.live.tables else old(db.Rows())
      ensures db.inTransaction == old(db.inTransaction) && db.txids == old(db.txids)
    {
      if b.hash !in index.entries {
        return false;
      }
      hide DisconnectTxs;
      var scope := db.Begin();
      ok := DisconnectTransactions(b);
      if ok {
        index.MarkMainChain(b.hash, false);
        db.DeleteUndo(b.hash);
      }
      db.End(scope, ok);
    }
  }

  lemma {:induction false} RestoreStops(t: Tables, block: Id, tx: Tx, n: nat, m: nat)
    requires n <= m <= |tx.vin| && !Restore(t, block, tx, n).ok
    ensures Restore(t, block, tx, m) == Restore(t, block, tx, n)
    decreases m
  {
    if n < m {
      RestoreStops(t, block, tx, n, m - 1);
    }
  }

  lemma DisconnectTxsStep(t: Tables, block: Id, txs: seq<Tx>, k: nat)
    requires 0 < k <= |txs|
    ensures DisconnectTxs(t, block, txs[..k]) ==
            var s := DisconnectTx(t, block, txs[k - 1]);
            if s.ok then DisconnectTxs(s.tables, block, txs[..k - 1]) else s
  {
    hide DisconnectTx;
    assert txs[..k][..k - 1] == txs[..k - 1];
  }
}
