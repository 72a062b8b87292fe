/** The indexer on its mutable tables: block by block, backwards on a
    reorganisation, and by rebuilding.  Proved against `IndexSpec`. */
module AddressIndex {
  import opened Ledger
  import opened IndexSpec

  lemma SomeRow(s: set<RowKey>)
    ensures s == {} || exists k :: k in s
  {
    if forall k :: k !in s {
      assert s == {};
    }
  }

  lemma SomeInput(s: set<InKey>)
    ensures s == {} || exists k :: k in s
  {
    if forall k :: k !in s {
      assert s == {};
    }
  }

  lemma SomeOutput(s: set<OutPoint>)
    ensures s == {} || exists o :: o in s
  {
    if forall o :: o !in s {
      assert s == {};
    }
  }

  // The address rows that the outputs and the inputs call for, of one address or of all of them.
  function CalledFor(t: TxTables, all: bool, a: string): set<RowKey> {
    (set o | o in t.outputs && o.txid in t.index && t.outputs[o].address != "" && (all || t.outputs[o].address == a) ::
       RowKey(t.outputs[o].address, o.txid, false, o.index)) +
    (set k | k in t.inputs && k.txid in t.index && t.inputs[k] in t.outputs && t.outputs[t.inputs[k]].address != ""
             && (all || t.outputs[t.inputs[k]].address == a) ::
       RowKey(t.outputs[t.inputs[k]].address, k.txid, true, k.index))
  }

  lemma CalledForIs(t: TxTables, all: bool, a: string)
    ensures forall key :: key in CalledFor(t, all, a) <==> KeyIn(t, key) && (all || key.address == a)
  {
    forall key
      ensures key in CalledFor(t, all, a) <==> KeyIn(t, key) && (all || key.address == a)
    {
      if KeyIn(t, key) && (all || key.address == a) {
        if !key.isInput {
          var o := OutPoint(key.txid, key.io);
          assert key == RowKey(t.outputs[o].address, o.txid, false, o.index);
        } else {
          var k := InKey(key.txid, key.io);
          assert key == RowKey(t.outputs[t.inputs[k]].address, k.txid, true, k.index);
        }
      }
    }
  }

  class Indexer {
    const addr: AddressOf
    var index: map<Id, TxInfo>
    var inputs: map<InKey, OutPoint>
    var outputs: map<OutPoint, OutRow>
    var rows: map<RowKey, Row>
    var balances: map<string, int>

    function Txs(): TxTables
      reads this
    {
      TxTables(index, inputs, outputs)
    }

    function State(): Indexes
      reads this
    {
      Indexes(Txs(), AddrTables(rows, balances))
    }

    constructor (addr: AddressOf)
      ensures this.addr == addr && State() == NO_INDEXES
    {
      this.addr := addr;
      index, inputs, outputs, rows, balances := map[], map[], map[], map[], map[];
    }

    method UpdateBalance(a: string, delta: int)
      modifies this`balances
      ensures balances == old(balances)[a := (if a in old(balances) then old(balances)[a] else 0) + delta]
    {
      balances := balances[a := (if a in balances then balances[a] else 0) + delta];
    }

    method IndexAddress(key: RowKey, row: Row)
      modifies this`rows, this`balances
      ensures State() == old(State()).(a := AddRow(old(State()).a, key, row))
    {
      if key.address == "" {
        return;
      }
      rows := rows[key := row];
      if !key.isInput {
        UpdateBalance(key.address, row.value);
      } else {
        UpdateBalance(key.address, -row.value);
      }
    }

    method InsertInputs(tx: Tx)
      modifies this`inputs
      ensures inputs == old(inputs) + InputRows(tx)
    {
      ghost var before := inputs;
      for i := 0 to |tx.vin|
        invariant inputs == before + map k | k in (set j | 0 <= j < i :: InKey(tx.id, j)) :: tx.vin[k.index].prev
      {
        assert (set j | 0 <= j < i + 1 :: InKey(tx.id, j)) == (set j | 0 <= j < i :: InKey(tx.id, j)) + {InKey(tx.id, i)};
        inputs := inputs[InKey(tx.id, i) := tx.vin[i].prev];
      }
    }

    method InsertOutputs(tx: Tx)
      modifies this`outputs
      ensures outputs == old(outputs) + OutputRows(addr, tx)
    {
      ghost var before := outputs;
      for i := 0 to |tx.vout|
        invariant outputs == before + map o | o in tx.Outs(i) ::
                    OutRow(tx.vout[o.index].value, addr(tx.vout[o.index].script), false, None)
      {
        assert tx.Outs(i + 1) == tx.Outs(i) + {OutPoint(tx.id, i)};
        outputs := outputs[OutPoint(tx.id, i) := OutRow(tx.vout[i].value, addr(tx.vout[i].script), false, None)];
      }
    }

    method IndexTransaction(tx: Tx, info: TxInfo)
      modifies this`index, this`inputs, this`outputs
      ensures State() == old(State()).(t := InsertTx(addr, old(Txs()), tx, info))
    {
      hide InputRows, OutputRows;
      index := index[tx.id := info];
      InsertInputs(tx);
      InsertOutputs(tx);
    }

    method MarkOutputSpent(o: OutPoint, spender: Id)
      modifies this`outputs
      ensures State() == old(State()).(t := MarkSpent(old(Txs()), o, spender))
    {
      if o in outputs {
        outputs := outputs[o := outputs[o].(spent := true, spentBy := Some(spender))];
      }
    }

    method IndexConnectedTx(tx: Tx, info: TxInfo)
      modifies this
      ensures State() == IndexTx(addr, old(State()), tx, info)
    {
      hide InsertTx, MarkSpent, AddRow;
      IndexTransaction(tx, info);
      ghost var s := State();
      for i := 0 to |tx.vout|
        invariant State() == s.(a := AddOutputs(addr, s.a, tx, info, i))
      {
        IndexAddress(RowKey(addr(tx.vout[i].script), tx.id, false, i), RowFor(info, tx.vout[i].value));
      }
      if tx.IsCoinbase() {
        return;
      }
      s := State();
      for i := 0 to |tx.vin|
        invariant State() == SpendInputs(s, tx, info, i)
      {
        var prev := tx.vin[i].prev;
        MarkOutputSpent(prev, tx.id);
        if prev in outputs {
          IndexAddress(RowKey(outputs[prev].address, tx.id, true, i), RowFor(info, outputs[prev].value));
        }
      }
    }

    method IndexConnectedBlock(b: Block, height: nat)
      modifies this
      ensures State() == IndexTxs(addr, old(State()), b, height, |b.txs|)
    {
      hide IndexTx;
      ghost var s := State();
      for i := 0 to |b.txs|
        invariant State() == IndexTxs(addr, s, b, height, i)
      {
        IndexConnectedTx(b.txs[i], TxInfo(b.hash, height, b.time, i));
      }
    }

    /** Unmarks what the inputs of one transaction had spent and deletes its rows. */
    method DeindexTx(x: Id)
      modifies this`index, this`inputs, this`outputs
      ensures State() == old(State()).(t := RemoveTx(old(Txs()), x))
    {
      hide Unmark;
      ghost var before := Txs();
      var mine := set k | k in inputs && k.txid == x;
      var todo := mine;
      ghost var hit: set<OutPoint> := {};
      UnmarkNone(outputs);
      while todo != {}
        invariant todo <= mine && index == before.index && inputs == before.inputs
        invariant hit == set k | k in mine - todo :: inputs[k]
        invariant outputs == Unmark(before.outputs, hit)
        decreases todo
      {
        SomeInput(todo);
        var k :| k in todo;
        ghost var done := mine - todo;
        todo := todo - {k};
        assert mine - todo == done + {k};
        var o := inputs[k];
        UnmarkNext(before.outputs, hit, o);
        if o in outputs {
          outputs := outputs[o := outputs[o].Unmarked()];
        }
        hit := hit + {o};
      }
      assert mine - todo == mine;
      inputs := map k | k in inputs && k.txid != x :: inputs[k];
      outputs := map o | o in outputs && o.txid != x :: outputs[o];
      index := index - {x};
      UnmarkIs(before, x, hit);
    }

    method DeindexDisconnectedBlock(b: Block)
      modifies this`index, this`inputs, this`outputs
      ensures State() == old(State()).(t := RemoveTxs(old(Txs()), b.txs, |b.txs|))
    {
      hide RemoveTx;
      ghost var before := Txs();
      for i := 0 to |b.txs|
        invariant State() == old(State()).(t := RemoveTxs(before, b.txs, i))
      {
        DeindexTx(b.txs[i].id);
      }
    }

    /** Adds the given rows, none of which is there yet. */
    method AddCalledFor(keys: set<RowKey>)
      requires forall key :: key in keys ==> KeyIn(Txs(), key) && key !in rows
      requires BalancesAre(balances, rows)
      modifies this`rows, this`balances
      ensures Txs() == old(Txs()) && BalancesAre(balances, rows)
      ensures rows == old(rows) + CalledRows(Txs(), keys)
    {
      hide BalancesAre, KeyIn, RowOf, CalledRows, AddRow;
      ghost var before, t := rows, Txs();
      var todo := keys;
      CalledNone(t, before);
      assert keys - todo == {};
      while todo != {}
        invariant todo <= keys && Txs() == t && BalancesAre(balances, rows)
        invariant rows == before + CalledRows(t, keys - todo)
        decreases todo
      {
        SomeRow(todo);
        var key :| key in todo;
        ghost var done := keys - todo;
        assert KeyIn(t, key);
        NamedAddress(t, key);
        CalledNext(t, before, done, key);
        assert key !in rows;
        AddRowBalances(AddrTables(rows, balances), key, RowOf(t, key));
        AddedRow(AddrTables(rows, balances), key, RowOf(t, key));
        IndexAddress(key, RowOf(Txs(), key));
        todo := todo - {key};
        assert keys - todo == done + {key};
      }
      assert keys - todo == keys;
    }

    /** Adds up the unspent, confirmed outputs of an address. */
    method GetAddressBalance(a: string, bestHeight: int, minConf: int) returns (balance: int)
      ensures balance == MapSum(ConfirmedOf(Txs(), a, bestHeight, minConf))
    {
      hide MapSum;
      balance := 0;
      var unspent := UnspentOf(Txs(), a);
      ghost var all := ConfirmedOf(Txs(), a, bestHeight, minConf);
      var todo := unspent.Keys;
      assert all - todo == map[];
      MapSumNone<OutPoint>();
      while todo != {}
        invariant todo <= unspent.Keys && balance == MapSum(all - todo)
        decreases todo
      {
        SomeOutput(todo);
        var o :| o in todo;
        ghost var done := all - todo;
        todo := todo - {o};
        if bestHeight - index[o.txid].height + 1 >= minConf {
          balance := balance + unspent[o];
          MapSumAdd(done, o, unspent[o]);
          assert all - todo == done[o := unspent[o]];
        } else {
          assert all - todo == done;
        }
      }
      assert all - todo == all;
    }

    /** Rebuilds the address tables from the transaction index. */
    method RebuildFromTxIndex()
      modifies this`rows, this`balances
      ensures Txs() == old(Txs()) && RowsAre(rows, Txs()) && BalancesAre(balances, rows)
    {
      hide KeyIn, RowOf, BalancesAre;
      rows, balances := map[], map[];
      NoRowsNoBalances();
      CalledForIs(Txs(), true, "");
      AddCalledFor(CalledFor(Txs(), true, ""));
    }

    /** Rebuilds one address and leaves the others alone; where the indexes agreed nothing changes. */
    method ReindexAddress(a: string)
      requires BalancesAre(balances, rows)
      modifies this`rows, this`balances
      ensures Txs() == old(Txs()) && BalancesAre(balances, rows)
      ensures a != "" ==> OneRebuilt(old(rows), rows, Txs(), a)
      ensures Agree(old(State())) ==> State() == old(State())
    {
      hide KeyIn, RowOf, BalancesAre, WellFormed, CalledFor, Signed;
      ghost var start := State();
      rows := map key | key in rows && key.address != a :: rows[key];
      balances := balances - {a};
      DroppedBalances(start.a, a);
      CalledForIs(Txs(), false, a);
      ghost var kept := rows;
      AddCalledFor(CalledFor(Txs(), false, a));
      OneIsRebuilt(start.a.rows, kept, rows, Txs(), a);
      if Agree(start) {
        SameAgain(start, rows, a);
        AddrTablesUnique(start.t, start.a, State().a);
      }
    }

    /** The reconciliation after a reorganisation: the old blocks out, tip first, the new ones in at their heights, and
        the address tables rebuilt.  The tables are those of indexing the new chain from scratch. */
    method ReconcileAfterReorg(disconnected: seq<Block>, connected: seq<Block>, heights: seq<nat>,
                               ghost first: nat, ghost common: seq<Block>, ghost old_: seq<Block>)
      requires State() == IndexChain(addr, NO_INDEXES, common + old_, first) && disconnected == TipFirst(old_)
      requires ReadyChain(addr, NO_INDEXES, common + old_, first) && ReadyChain(addr, NO_INDEXES, common + connected, first)
      requires AllDistinct(old_)
      requires |heights| == |connected| && forall i :: 0 <= i < |heights| ==> heights[i] == first + |common| + i
      modifies this
      ensures State() == IndexChain(addr, NO_INDEXES, common + connected, first)
    {
      hide Agree, ReadyChain, IndexTxs, RemoveTxs, AllDistinct, TipFirst, RowsAre, BalancesAre;
      ghost var t := Txs();
      for i := 0 to |disconnected|
        invariant Txs() == RemoveBlocks(t, disconnected[..i])
      {
        assert disconnected[..i + 1][..i] == disconnected[..i];
        DeindexDisconnectedBlock(disconnected[i]);
      }
      assert disconnected[..|disconnected|] == disconnected;
      ghost var s := State();
      for i := 0 to |connected|
        invariant State() == IndexChain(addr, s, connected[..i], first + |common|)
      {
        assert connected[..i + 1][..i] == connected[..i];
        IndexConnectedBlock(connected[i], heights[i]);
      }
      assert connected[..|connected|] == connected;
      RebuildFromTxIndex();
      SwitchedTables(addr, common, old_, connected, s, Txs(), first);
      RebuiltAgrees(State());
      ReconciledFromScratch(addr, common, old_, connected, s.a, State(), first);
    }
  }

  function Unmark(outputs: map<OutPoint, OutRow>, hit: set<OutPoint>): map<OutPoint, OutRow> {
    map o | o in outputs :: if o in hit then outputs[o].Unmarked() else outputs[o]
  }

  lemma UnmarkNone(outputs: map<OutPoint, OutRow>)
    ensures Unmark(outputs, {}) == outputs
  {
  }

  lemma UnmarkNext(outputs: map<OutPoint, OutRow>, hit: set<OutPoint>, o: OutPoint)
    ensures var now := Unmark(outputs, hit);
            Unmark(outputs, hit + {o}) == if o in now then now[o := now[o].Unmarked()] else now
  {
  }

  lemma UnmarkIs(t: TxTables, x: Id, hit: set<OutPoint>)
    requires hit == set k | k in t.inputs && k.txid == x :: t.inputs[k]
    ensures var kept := Unmark(t.outputs, hit);
            RemoveTx(t, x) == TxTables(t.index - {x}, map k | k in t.inputs && k.txid != x :: t.inputs[k],
                                       map o | o in kept && o.txid != x :: kept[o])
  {
  }

  lemma NamedAddress(t: TxTables, key: RowKey)
    requires KeyIn(t, key)
    ensures key.address != ""
  {
  }

  function CalledRows(t: TxTables, keys: set<RowKey>): map<RowKey, Row>
    requires forall key :: key in keys ==> KeyIn(t, key)
  {
    map key | key in keys :: RowOf(t, key)
  }

  lemma CalledNone(t: TxTables, before: map<RowKey, Row>)
    ensures before + CalledRows(t, {}) == before
  {
  }

  lemma CalledNext(t: TxTables, before: map<RowKey, Row>, some: set<RowKey>, key: RowKey)
    requires (forall k :: k in some ==> KeyIn(t, k)) && KeyIn(t, key) && key !in some && key !in before
    ensures before + CalledRows(t, some + {key}) == (before + CalledRows(t, some))[key := RowOf(t, key)]
    ensures key !in before + CalledRows(t, some)
  {
    hide KeyIn, RowOf;
  }

  lemma AddedRow(a: AddrTables, key: RowKey, row: Row)
    requires key.address != ""
    ensures AddRow(a, key, row).rows == a.rows[key := row]
  {
  }

  lemma NoRowsNoBalances()
    ensures BalancesAre(map[], map[])
  {
    forall a
      ensures Signed(map[], a) == map[]
    {
    }
  }

  lemma DroppedBalances(a: AddrTables, x: string)
    requires BalancesAre(a.balances, a.rows)
    ensures BalancesAre(a.balances - {x}, map key | key in a.rows && key.address != x :: a.rows[key])
  {
    hide MapSum;
    var rest := map key | key in a.rows && key.address != x :: a.rows[key];
    forall b
      ensures Signed(rest, b) == if b == x then map[] else Signed(a.rows, b)
    {
    }
  }

  /** The rows of one address are those called for, the others are as before. */
  ghost predicate OneRebuilt(before: map<RowKey, Row>, rows: map<RowKey, Row>, t: TxTables, a: string) {
    && (forall key: RowKey :: key.address == a ==> (key in rows <==> KeyIn(t, key)) && (key in rows ==> rows[key] == RowOf(t, key)))
    && (forall key: RowKey :: key.address != a ==> (key in rows <==> key in before) && (key in rows ==> rows[key] == before[key]))
  }

  lemma OneIsRebuilt(before: map<RowKey, Row>, kept: map<RowKey, Row>, rows: map<RowKey, Row>, t: TxTables, a: string)
    requires kept == map key | key in before && key.address != a :: before[key]
    requires forall key :: key in CalledFor(t, false, a) <==> KeyIn(t, key) && key.address == a
    requires rows == kept + CalledRows(t, CalledFor(t, false, a))
    ensures OneRebuilt(before, rows, t, a)
  {
    hide CalledFor, KeyIn, RowOf;
  }

  lemma SameAgain(s: Indexes, rows: map<RowKey, Row>, a: string)
    requires RowsAre(s.a.rows, s.t) && OneRebuilt(s.a.rows, rows, s.t, a)
    ensures RowsAre(rows, s.t)
  {
    hide KeyIn, RowOf;
    forall key
      ensures (key in rows <==> KeyIn(s.t, key)) && (key in rows ==> rows[key] == RowOf(s.t, key))
    {
      if key.address != a {
        assert key in rows <==> key in s.a.rows;
      }
    }
  }

  lemma SwitchedTables(addr: AddressOf, common: seq<Block>, old_: seq<Block>, new_: seq<Block>, s: Indexes, t: TxTables, first: nat)
    requires ReadyChain(addr, NO_INDEXES, common + old_, first) && ReadyChain(addr, NO_INDEXES, common + new_, first)
    requires AllDistinct(old_)
    requires s.t == RemoveBlocks(IndexChain(addr, NO_INDEXES, common + old_, first).t, TipFirst(old_))
    requires t == IndexChain(addr, s, new_, first + |common|).t
    ensures WellFormed(t)
  {
    hide WellFormed, RowsAre, BalancesAre, ReadyChain, RemoveBlocks, AllDistinct, TipFirst, IndexTxs;
    BackToFork(addr, common, old_, first);
    NothingAgrees();
    IndexChainSplit(addr, NO_INDEXES, common, new_, first);
    IndexChainAgrees(addr, NO_INDEXES, common + new_, first);
    TablesAlone(addr, s, IndexChain(addr, NO_INDEXES, common, first), new_, first + |common|);
    assert t == IndexChain(addr, NO_INDEXES, common + new_, first).t;
  }

  lemma RebuiltAgrees(s: Indexes)
    requires WellFormed(s.t) && RowsAre(s.a.rows, s.t) && BalancesAre(s.a.balances, s.a.rows)
    ensures Agree(s)
  {
  }
}
