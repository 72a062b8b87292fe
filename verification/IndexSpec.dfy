/** The transaction index and the address index as values: what indexing a block
    adds, what removing it takes away, and what the address tables must be. */
module IndexSpec {
  import opened Ledger

  datatype TxInfo = TxInfo(block: Id, height: nat, time: int, position: nat)
  datatype InKey = InKey(txid: Id, index: nat)
  datatype OutRow = OutRow(value: int, address: string, spent: bool, spentBy: Option<Id>) {
    function Unmarked(): OutRow {
      this.(spent := false, spentBy := None)
    }
  }

  /** tx_index, tx_inputs and tx_outputs. */
  datatype TxTables = TxTables(index: map<Id, TxInfo>, inputs: map<InKey, OutPoint>, outputs: map<OutPoint, OutRow>)

  datatype RowKey = RowKey(address: string, txid: Id, isInput: bool, io: nat)
  datatype Row = Row(height: nat, time: int, position: nat, value: int)

  /** address_txs and address_balance. */
  datatype AddrTables = AddrTables(rows: map<RowKey, Row>, balances: map<string, int>)

  datatype Indexes = Indexes(t: TxTables, a: AddrTables)

  const NO_TXS := TxTables(map[], map[], map[])
  const NO_INDEXES := Indexes(NO_TXS, AddrTables(map[], map[]))

  // The address of a script; the empty string when it has none.
  type AddressOf = Script -> string

  // --------------------------------------------------------------------- indexing

  function OutputRows(addr: AddressOf, tx: Tx): map<OutPoint, OutRow> {
    map o | o in tx.Outs(|tx.vout|) :: OutRow(tx.vout[o.index].value, addr(tx.vout[o.index].script), false, None)
  }

  function InputRows(tx: Tx): map<InKey, OutPoint> {
    map k | k in (set i | 0 <= i < |tx.vin| :: InKey(tx.id, i)) :: tx.vin[k.index].prev
  }

  function InsertTx(addr: AddressOf, t: TxTables, tx: Tx, info: TxInfo): TxTables {
    TxTables(t.index[tx.id := info], t.inputs + InputRows(tx), t.outputs + OutputRows(addr, tx))
  }

  function MarkSpent(t: TxTables, o: OutPoint, spender: Id): TxTables {
    if o in t.outputs then t.(outputs := t.outputs[o := t.outputs[o].(spent := true, spentBy := Some(spender))]) else t
  }

  function RowFor(info: TxInfo, value: int): Row {
    Row(info.height, info.time, info.position, value)
  }

  /** index_address: a row, and its value added to or taken from the balance. */
  function AddRow(a: AddrTables, key: RowKey, row: Row): AddrTables {
    if key.address == "" then a
    else
      var delta := if key.isInput then -row.value else row.value;
      AddrTables(a.rows[key := row],
                 a.balances[key.address := (if key.address in a.balances then a.balances[key.address] else 0) + delta])
  }

  function AddOutputs(addr: AddressOf, a: AddrTables, tx: Tx, info: TxInfo, n: nat): AddrTables
    requires n <= |tx.vout|
    decreases n
  {
    if n == 0 then a
    else
      AddRow(AddOutputs(addr, a, tx, info, n - 1),
             RowKey(addr(tx.vout[n - 1].script), tx.id, false, n - 1), RowFor(info, tx.vout[n - 1].value))
  }

  /** Marks what the first n inputs spend, with a row for every spent output that is indexed. */
  function SpendInputs(s: Indexes, tx: Tx, info: TxInfo, n: nat): Indexes
    requires n <= |tx.vin|
    decreases n
  {
    if n == 0 then s
    else
      var r, prev := SpendInputs(s, tx, info, n - 1), tx.vin[n - 1].prev;
      var t := MarkSpent(r.t, prev, tx.id);
      Indexes(t, if prev in t.outputs then
                AddRow(r.a, RowKey(t.outputs[prev].address, tx.id, true, n - 1), RowFor(info, t.outputs[prev].value))
              else r.a)
  }

  function IndexTx(addr: AddressOf, s: Indexes, tx: Tx, info: TxInfo): Indexes {
    var r := Indexes(InsertTx(addr, s.t, tx, info), AddOutputs(addr, s.a, tx, info, |tx.vout|));
    if tx.IsCoinbase() then r else SpendInputs(r, tx, info, |tx.vin|)
  }

  /** Indexes the first n transactions of a block. */
  function IndexTxs(addr: AddressOf, s: Indexes, b: Block, height: nat, n: nat): Indexes
    requires n <= |b.txs|
    decreases n
  {
    if n == 0 then s
    else IndexTx(addr, IndexTxs(addr, s, b, height, n - 1), b.txs[n - 1], TxInfo(b.hash, height, b.time, n - 1))
  }

  function IndexChain(addr: AddressOf, s: Indexes, bs: seq<Block>, first: nat): Indexes
    decreases |bs|
  {
    if bs == [] then s
    else
      var b := bs[|bs| - 1];
      IndexTxs(addr, IndexChain(addr, s, bs[..|bs| - 1], first), b, first + |bs| - 1, |b.txs|)
  }

  // ------------------------------------------------------- what the tables must be

  /** Does the transaction index call for this address row? */
  predicate KeyIn(t: TxTables, key: RowKey) {
    && key.address != "" && key.txid in t.index
    && if !key.isInput then
         OutPoint(key.txid, key.io) in t.outputs && t.outputs[OutPoint(key.txid, key.io)].address == key.address
       else
         InKey(key.txid, key.io) in t.inputs && t.inputs[InKey(key.txid, key.io)] in t.outputs
         && t.outputs[t.inputs[InKey(key.txid, key.io)]].address == key.address
  }

  function RowOf(t: TxTables, key: RowKey): Row
    requires KeyIn(t, key)
  {
    RowFor(t.index[key.txid],
           if !key.isInput then t.outputs[OutPoint(key.txid, key.io)].value
           else t.outputs[t.inputs[InKey(key.txid, key.io)]].value)
  }

  /** The address rows are those the transaction index calls for. */
  ghost predicate RowsAre(rows: map<RowKey, Row>, t: TxTables) {
    forall key :: (key in rows <==> KeyIn(t, key)) && (key in rows ==> rows[key] == RowOf(t, key))
  }

  function Signed(rows: map<RowKey, Row>, a: string): map<RowKey, int> {
    map k | k in rows && k.address == a :: if k.isInput then -rows[k].value else rows[k].value
  }

  ghost function Balance(rows: map<RowKey, Row>, a: string): int {
    MapSum(Signed(rows, a))
  }

  ghost predicate BalancesAre(balances: map<string, int>, rows: map<RowKey, Row>) {
    forall a :: (a in balances <==> Signed(rows, a) != map[]) && (a in balances ==> balances[a] == Balance(rows, a))
  }

  /** Outputs and inputs belong to indexed transactions, an output is marked exactly when an input names it, and no
      output is named twice. */
  ghost predicate WellFormed(t: TxTables) {
    && NULL_OUTPOINT.txid !in t.index
    && (forall o :: o in t.outputs ==> o.txid in t.index)
    && (forall k :: k in t.inputs ==> k.txid in t.index)
    && (forall o :: o in t.outputs ==> (t.outputs[o].spent <==> o in t.inputs.Values))
    && (forall o :: o in t.outputs && !t.outputs[o].spent ==> t.outputs[o].spentBy == None)
    && (forall k, l :: k in t.inputs && l in t.inputs && k != l && t.inputs[k] == t.inputs[l] ==> t.inputs[k] !in t.outputs)
  }

  /** The indexes agree with each other. */
  ghost predicate Agree(s: Indexes) {
    WellFormed(s.t) && RowsAre(s.a.rows, s.t) && BalancesAre(s.a.balances, s.a.rows)
  }

  /** A new transaction that spends what is indexed, or not indexed at all, and not spent yet. */
  ghost predicate Ready(t: TxTables, tx: Tx) {
    && tx.id !in t.index && tx.id != NULL_OUTPOINT.txid
    && (forall i :: 0 <= i < |tx.vin| ==> tx.vin[i].prev.txid != tx.id)
    && (forall k :: k in t.inputs ==> t.inputs[k].txid != tx.id)
    && (!tx.IsCoinbase() ==>
          && (forall i :: 0 <= i < |tx.vin| ==> tx.vin[i].prev !in t.inputs.Values)
          && forall i, j :: 0 <= i < j < |tx.vin| ==> tx.vin[i].prev != tx.vin[j].prev)
  }

  // ------------------------------------------------------------------------- sums

  ghost function MapSum<K>(m: map<K, int>): int
    decreases |m|
  {
    if m == map[] then 0
    else
      var k :| k in m;
      assert |m - {k}| < |m| by {
        MapShrinks(m, k);
      }
      m[k] + MapSum(m - {k})
  }

  lemma MapShrinks<K, V>(m: map<K, V>, k: K)
    requires k in m
    ensures |m - {k}| == |m| - 1
  {
    var r := m - {k};
    assert m.Keys == r.Keys + {k};
    assert |m| == |m.Keys| && |r| == |r.Keys|;
  }

  lemma {:induction false} MapSumRemove<K>(m: map<K, int>, k: K)
    requires k in m
    ensures MapSum(m) == m[k] + MapSum(m - {k})
    decreases |m|
  {
    var x :| x in m && MapSum(m) == m[x] + MapSum(m - {x});
    if x != k {
      MapShrinks(m, x);
      MapSumRemove(m - {x}, k);
      MapShrinks(m, k);
      MapSumRemove(m - {k}, x);
      assert m - {x} - {k} == m - {k} - {x};
    }
  }

  lemma MapSumAdd<K>(m: map<K, int>, k: K, v: int)
    requires k !in m
    ensures MapSum(m[k := v]) == MapSum(m) + v
  {
    MapSumRemove(m[k := v], k);
    assert m[k := v] - {k} == m;
  }

  lemma MapSumNone<K>()
    ensures MapSum<K>(map[]) == 0
  {
  }

  lemma PutBack<K>(m: map<K, int>, n: map<K, int>, k: K)
    requires m.Keys !! n.Keys && k in n
    ensures (m + (n - {k}))[k := n[k]] == m + n && k !in m + (n - {k})
  {
  }

  lemma {:induction false} MapSumUnion<K>(m: map<K, int>, n: map<K, int>)
    requires m.Keys !! n.Keys
    ensures MapSum(m + n) == MapSum(m) + MapSum(n)
    decreases |n|
  {
    hide MapSum;
    if n == map[] {
      assert m + n == m;
      MapSumNone<K>();
    } else {
      var k :| k in n;
      MapShrinks(n, k);
      MapSumRemove(n, k);
      MapSumUnion(m, n - {k});
      PutBack(m, n, k);
      MapSumAdd(m + (n - {k}), k, n[k]);
    }
  }

  function Sign(negate: bool, v: int): int {
    if negate then -v else v
  }

  lemma RenameLess<K, L>(f: map<K, L>, k: K)
    requires k in f && forall i, j :: i in f && j in f && i != j ==> f[i] != f[j]
    ensures (f - {k}).Values == f.Values - {f[k]}
  {
    var g := f - {k};
    forall l | l in f.Values - {f[k]}
      ensures l in g.Values
    {
      var j :| j in f && f[j] == l;
      assert j in g && g[j] == l;
    }
  }

  /** Summing under other names: f maps the keys of m one to one onto those of n, values equal or all negated. */
  lemma {:induction false} MapSumRename<K, L>(m: map<K, int>, n: map<L, int>, f: map<K, L>, negate: bool)
    requires f.Keys == m.Keys && f.Values == n.Keys
    requires forall k, l :: k in f && l in f && k != l ==> f[k] != f[l]
    requires forall k :: k in m ==> f[k] in n && m[k] == Sign(negate, n[f[k]])
    ensures MapSum(m) == Sign(negate, MapSum(n))
    decreases |m|
  {
    hide MapSum;
    MapSumNone<K>();
    MapSumNone<L>();
    if m == map[] {
      assert f.Values == {};
      assert n == map[];
    } else {
      var k :| k in m;
      MapShrinks(m, k);
      MapSumRemove(m, k);
      MapSumRemove(n, f[k]);
      RenameLess(f, k);
      MapSumRename(m - {k}, n - {f[k]}, f - {k}, negate);
    }
  }

  // ------------------------------------------------------ one transaction is indexed

  lemma SignedNext(rows: map<RowKey, Row>, key: RowKey, row: Row, b: string)
    requires key !in rows
    ensures var delta := if key.isInput then -row.value else row.value;
            Signed(rows[key := row], b) == if b == key.address then Signed(rows, b)[key := delta] else Signed(rows, b)
    ensures key !in Signed(rows, b)
  {
  }

  lemma AddRowBalances(a: AddrTables, key: RowKey, row: Row)
    requires BalancesAre(a.balances, a.rows) && key !in a.rows
    ensures BalancesAre(AddRow(a, key, row).balances, AddRow(a, key, row).rows)
  {
    hide MapSum, Signed;
    if key.address != "" {
      var r, delta := AddRow(a, key, row), if key.isInput then -row.value else row.value;
      MapSumNone<RowKey>();
      forall b
        ensures b in r.balances <==> Signed(r.rows, b) != map[]
        ensures b in r.balances ==> r.balances[b] == Balance(r.rows, b)
      {
        SignedNext(a.rows, key, row, b);
        if b == key.address {
          MapSumAdd(Signed(a.rows, b), key, delta);
          assert key in Signed(r.rows, b);
        }
      }
    }
  }

  predicate OwnOutput(addr: AddressOf, tx: Tx, key: RowKey, n: nat)
    requires n <= |tx.vout|
  {
    key.txid == tx.id && !key.isInput && key.io < n && key.address != "" && key.address == addr(tx.vout[key.io].script)
  }

  lemma {:induction false} AddOutputsRows(addr: AddressOf, a: AddrTables, tx: Tx, info: TxInfo, n: nat)
    requires n <= |tx.vout| && BalancesAre(a.balances, a.rows) && forall key :: key in a.rows ==> key.txid != tx.id
    ensures var r := AddOutputs(addr, a, tx, info, n);
            && BalancesAre(r.balances, r.rows)
            && (forall key :: key in r.rows <==> key in a.rows || OwnOutput(addr, tx, key, n))
            && (forall key :: key in a.rows ==> key in r.rows && r.rows[key] == a.rows[key])
            && forall key :: OwnOutput(addr, tx, key, n) ==> key in r.rows && r.rows[key] == RowFor(info, tx.vout[key.io].value)
    decreases n
  {
    hide BalancesAre;
    if n > 0 {
      AddOutputsRows(addr, a, tx, info, n - 1);
      AddRowBalances(AddOutputs(addr, a, tx, info, n - 1),
                     RowKey(addr(tx.vout[n - 1].script), tx.id, false, n - 1), RowFor(info, tx.vout[n - 1].value));
    }
  }

  /** Only the spent columns differ: marked are the outputs marked before and these. */
  ghost predicate Marked(t: TxTables, r: TxTables, os: set<OutPoint>) {
    && r.index == t.index && r.inputs == t.inputs && r.outputs.Keys == t.outputs.Keys
    && forall o :: o in t.outputs ==>
         && r.outputs[o].Unmarked() == t.outputs[o].Unmarked()
         && (r.outputs[o].spent <==> t.outputs[o].spent || o in os)
         && (o !in os ==> r.outputs[o] == t.outputs[o])
  }

  predicate OwnInput(t: TxTables, tx: Tx, key: RowKey, n: nat)
    requires n <= |tx.vin|
  {
    && key.txid == tx.id && key.isInput && key.io < n && key.address != ""
    && tx.vin[key.io].prev in t.outputs && t.outputs[tx.vin[key.io].prev].address == key.address
  }

  lemma MarkedNext(t: TxTables, r: TxTables, os: set<OutPoint>, o: OutPoint, spender: Id)
    requires Marked(t, r, os)
    ensures Marked(t, MarkSpent(r, o, spender), os + {o})
  {
  }

  lemma MarkedMeans(t: TxTables, r: TxTables, os: set<OutPoint>, o: OutPoint)
    requires Marked(t, r, os)
    ensures o in r.outputs <==> o in t.outputs
    ensures o in t.outputs ==> r.outputs[o].value == t.outputs[o].value && r.outputs[o].address == t.outputs[o].address
  {
    if o in t.outputs {
      assert r.outputs[o].Unmarked() == t.outputs[o].Unmarked();
    }
  }

  lemma {:induction false} SpendInputsRows(s: Indexes, tx: Tx, info: TxInfo, n: nat)
    requires n <= |tx.vin| && BalancesAre(s.a.balances, s.a.rows)
    requires forall key :: key in s.a.rows ==> key.txid != tx.id || !key.isInput
    ensures var r := SpendInputs(s, tx, info, n);
            && Marked(s.t, r.t, tx.Prevs(n)) && BalancesAre(r.a.balances, r.a.rows)
            && (forall key :: key in r.a.rows <==> key in s.a.rows || OwnInput(s.t, tx, key, n))
            && (forall key :: key in s.a.rows ==> key in r.a.rows && r.a.rows[key] == s.a.rows[key])
            && forall key :: OwnInput(s.t, tx, key, n) ==>
                 key in r.a.rows && r.a.rows[key] == RowFor(info, s.t.outputs[tx.vin[key.io].prev].value)
    decreases n
  {
    hide BalancesAre, Marked, MarkSpent;
    if n == 0 {
      MarkedNone(s.t, tx);
    } else {
      SpendInputsRows(s, tx, info, n - 1);
      var r, prev := SpendInputs(s, tx, info, n - 1), tx.vin[n - 1].prev;
      MarkedNext(s.t, r.t, tx.Prevs(n - 1), prev, tx.id);
      assert tx.Prevs(n) == tx.Prevs(n - 1) + {prev};
      var t := MarkSpent(r.t, prev, tx.id);
      MarkedMeans(s.t, t, tx.Prevs(n), prev);
      if prev in t.outputs {
        AddRowBalances(r.a, RowKey(t.outputs[prev].address, tx.id, true, n - 1), RowFor(info, t.outputs[prev].value));
      }
    }
  }

  lemma MarkedNone(t: TxTables, tx: Tx)
    ensures Marked(t, t, tx.Prevs(0))
  {
  }

  /** The rows of a new transaction are in and, unless it is a coinbase, what it spends is marked. */
  ghost predicate Inserted(addr: AddressOf, t: TxTables, tx: Tx, info: TxInfo, r: TxTables) {
    Marked(InsertTx(addr, t, tx, info), r, if tx.IsCoinbase() then {} else Prevs(tx))
  }

  lemma CoinbasePrevs(tx: Tx)
    requires tx.IsCoinbase()
    ensures Prevs(tx) == {NULL_OUTPOINT}
  {
    assert tx.vin[0].prev in Prevs(tx);
  }

  lemma OwnRowUnspent(addr: AddressOf, t: TxTables, tx: Tx, info: TxInfo, o: OutPoint)
    requires WellFormed(t) && Ready(t, tx) && o in InsertTx(addr, t, tx, info).outputs && o.txid == tx.id
    ensures o !in t.inputs.Values && o !in Prevs(tx)
    ensures !InsertTx(addr, t, tx, info).outputs[o].spent && InsertTx(addr, t, tx, info).outputs[o].spentBy == None
  {
    assert InsertTx(addr, t, tx, info).outputs[o] == OutputRows(addr, tx)[o];
  }

  lemma OldRowStays(addr: AddressOf, t: TxTables, tx: Tx, info: TxInfo, o: OutPoint)
    requires WellFormed(t) && Ready(t, tx) && o in InsertTx(addr, t, tx, info).outputs && o.txid != tx.id
    ensures o in t.outputs && InsertTx(addr, t, tx, info).outputs[o] == t.outputs[o]
    ensures tx.IsCoinbase() ==> o !in Prevs(tx)
  {
    if tx.IsCoinbase() {
      CoinbasePrevs(tx);
    }
  }

  lemma InsertedOutput(addr: AddressOf, t: TxTables, tx: Tx, info: TxInfo, r: TxTables, o: OutPoint)
    requires WellFormed(t) && Ready(t, tx) && Inserted(addr, t, tx, info, r) && o in r.outputs
    ensures o.txid in r.index && (r.outputs[o].spent <==> o in r.inputs.Values)
    ensures !r.outputs[o].spent ==> r.outputs[o].spentBy == None
  {
    hide InputRows, OutputRows, Prevs, Ready;
    InputValues(t, tx);
    if o.txid == tx.id {
      OwnRowUnspent(addr, t, tx, info, o);
    } else {
      OldRowStays(addr, t, tx, info, o);
    }
  }

  lemma InsertedDistinct(addr: AddressOf, t: TxTables, tx: Tx, info: TxInfo, r: TxTables, k: InKey, l: InKey)
    requires WellFormed(t) && Ready(t, tx) && Inserted(addr, t, tx, info, r)
    requires k in r.inputs && l in r.inputs && k != l && r.inputs[k] == r.inputs[l]
    ensures r.inputs[k] !in r.outputs
  {
    var o := r.inputs[k];
    if k.txid == tx.id && l.txid == tx.id {
      assert tx.IsCoinbase();
    } else if k.txid == tx.id {
      assert t.inputs[l] == o;
      assert o in t.inputs.Values;
    } else if l.txid == tx.id {
      assert t.inputs[k] == o;
      assert o in t.inputs.Values;
    } else {
      assert t.inputs[k] == t.inputs[l];
      assert o.txid != tx.id;
    }
  }

  lemma InsertedWellFormed(addr: AddressOf, t: TxTables, tx: Tx, info: TxInfo, r: TxTables)
    requires WellFormed(t) && Ready(t, tx) && Inserted(addr, t, tx, info, r)
    ensures WellFormed(r)
  {
    forall o | o in r.outputs
      ensures o.txid in r.index && (r.outputs[o].spent <==> o in r.inputs.Values)
      ensures !r.outputs[o].spent ==> r.outputs[o].spentBy == None
    {
      InsertedOutput(addr, t, tx, info, r, o);
    }
    forall k, l | k in r.inputs && l in r.inputs && k != l && r.inputs[k] == r.inputs[l]
      ensures r.inputs[k] !in r.outputs
    {
      InsertedDistinct(addr, t, tx, info, r, k, l);
    }
    InsertedKeys(addr, t, tx, info, r);
  }

  lemma InsertedKeys(addr: AddressOf, t: TxTables, tx: Tx, info: TxInfo, r: TxTables)
    requires WellFormed(t) && Ready(t, tx) && Inserted(addr, t, tx, info, r)
    ensures NULL_OUTPOINT.txid !in r.index && forall k :: k in r.inputs ==> k.txid in r.index
  {
  }

  function Prevs(tx: Tx): set<OutPoint> {
    tx.Prevs(|tx.vin|)
  }

  lemma InputValues(t: TxTables, tx: Tx)
    requires WellFormed(t) && Ready(t, tx)
    ensures (t.inputs + InputRows(tx)).Values == t.inputs.Values + Prevs(tx)
  {
    var more := t.inputs + InputRows(tx);
    forall o | o in t.inputs.Values + Prevs(tx)
      ensures o in more.Values
    {
      if o in t.inputs.Values {
        var k :| k in t.inputs && t.inputs[k] == o;
        assert k in more && more[k] == o;
      } else {
        var i :| 0 <= i < |tx.vin| && tx.vin[i].prev == o;
        assert InKey(tx.id, i) in more && more[InKey(tx.id, i)] == o;
      }
    }
  }

  predicate OwnKey(addr: AddressOf, t: TxTables, tx: Tx, info: TxInfo, key: RowKey) {
    || OwnOutput(addr, tx, key, |tx.vout|)
    || (!tx.IsCoinbase() && OwnInput(InsertTx(addr, t, tx, info), tx, key, |tx.vin|))
  }

  // Rows of other transactions are called for exactly as before.
  lemma OldKey(addr: AddressOf, t: TxTables, tx: Tx, info: TxInfo, r: TxTables, key: RowKey)
    requires WellFormed(t) && Ready(t, tx) && Inserted(addr, t, tx, info, r) && key.txid != tx.id
    ensures KeyIn(r, key) <==> KeyIn(t, key)
    ensures KeyIn(t, key) ==> RowOf(r, key) == RowOf(t, key)
    ensures !OwnKey(addr, t, tx, info, key)
  {
    hide Ready;
    var u := InsertTx(addr, t, tx, info);
    var o := OutPoint(key.txid, key.io);
    OldOutPoint(addr, t, tx, info, r, o);
    var k := InKey(key.txid, key.io);
    assert k in r.inputs <==> k in t.inputs;
    if k in t.inputs {
      OldPrev(t, tx, k);
      OldOutPoint(addr, t, tx, info, r, t.inputs[k]);
    }
  }

  lemma OldPrev(t: TxTables, tx: Tx, k: InKey)
    requires Ready(t, tx) && k in t.inputs
    ensures t.inputs[k].txid != tx.id
  {
  }

  lemma OldOutPoint(addr: AddressOf, t: TxTables, tx: Tx, info: TxInfo, r: TxTables, o: OutPoint)
    requires Inserted(addr, t, tx, info, r) && o.txid != tx.id
    ensures o in r.outputs <==> o in t.outputs
    ensures o in t.outputs ==> r.outputs[o].value == t.outputs[o].value && r.outputs[o].address == t.outputs[o].address
  {
    MarkedMeans(InsertTx(addr, t, tx, info), r, if tx.IsCoinbase() then {} else Prevs(tx), o);
  }

  // Its own rows are those that indexing adds.
  lemma NewKey(addr: AddressOf, t: TxTables, tx: Tx, info: TxInfo, r: TxTables, key: RowKey)
    requires WellFormed(t) && Ready(t, tx) && Inserted(addr, t, tx, info, r) && key.txid == tx.id
    ensures KeyIn(r, key) <==> OwnKey(addr, t, tx, info, key)
    ensures KeyIn(r, key) ==>
              RowOf(r, key) == RowFor(info, if !key.isInput then tx.vout[key.io].value
                                            else InsertTx(addr, t, tx, info).outputs[tx.vin[key.io].prev].value)
    ensures !KeyIn(t, key)
  {
    hide Marked;
    var u := InsertTx(addr, t, tx, info);
    assert r.index == u.index && r.inputs == u.inputs by {
      InsertedFrame(addr, t, tx, info, r);
    }
    if !key.isInput {
      var o := OutPoint(key.txid, key.io);
      MarkedMeans(u, r, if tx.IsCoinbase() then {} else Prevs(tx), o);
      assert o in u.outputs <==> key.io < |tx.vout|;
      if o in u.outputs {
        assert u.outputs[o] == OutputRows(addr, tx)[o];
      }
    } else {
      var k := InKey(key.txid, key.io);
      assert k in u.inputs <==> key.io < |tx.vin|;
      if k in u.inputs {
        assert u.inputs[k] == tx.vin[key.io].prev;
        MarkedMeans(u, r, if tx.IsCoinbase() then {} else Prevs(tx), u.inputs[k]);
      }
    }
  }

  lemma InsertedFrame(addr: AddressOf, t: TxTables, tx: Tx, info: TxInfo, r: TxTables)
    requires Inserted(addr, t, tx, info, r)
    ensures r.index == InsertTx(addr, t, tx, info).index && r.inputs == InsertTx(addr, t, tx, info).inputs
  {
  }

  /** Indexing a new transaction keeps the two indexes in agreement. */
  lemma IndexTxAgrees(addr: AddressOf, s: Indexes, tx: Tx, info: TxInfo)
    requires Agree(s) && Ready(s.t, tx)
    ensures var r := IndexTx(addr, s, tx, info);
            Agree(r) && Inserted(addr, s.t, tx, info, r.t)
  {
    hide WellFormed, Ready, BalancesAre, Marked, KeyIn, InsertTx, OwnOutput, OwnInput, AddOutputs, SpendInputs;
    var u := Indexes(InsertTx(addr, s.t, tx, info), AddOutputs(addr, s.a, tx, info, |tx.vout|));
    var r := IndexTx(addr, s, tx, info);
    OldRows(s, tx);
    AddOutputsRows(addr, s.a, tx, info, |tx.vout|);
    if tx.IsCoinbase() {
      NothingMarked(u.t);
    } else {
      forall key | key in u.a.rows
        ensures key.txid != tx.id || !key.isInput
      {
        OwnOutputIs(addr, tx, key);
      }
      SpendInputsRows(u, tx, info, |tx.vin|);
    }
    InsertedWellFormed(addr, s.t, tx, info, r.t);
    forall key
      ensures (key in r.a.rows <==> KeyIn(r.t, key)) && (key in r.a.rows ==> r.a.rows[key] == RowOf(r.t, key))
    {
      if key.txid == tx.id {
        NewKey(addr, s.t, tx, info, r.t, key);
        OwnOutputIs(addr, tx, key);
        OwnInputIs(u.t, tx, key);
      } else {
        OldKey(addr, s.t, tx, info, r.t, key);
      }
    }
  }

  lemma OwnOutputIs(addr: AddressOf, tx: Tx, key: RowKey)
    ensures OwnOutput(addr, tx, key, |tx.vout|) ==> key.txid == tx.id && !key.isInput
  {
  }

  lemma OwnInputIs(t: TxTables, tx: Tx, key: RowKey)
    ensures OwnInput(t, tx, key, |tx.vin|) ==> key.txid == tx.id && key.isInput
  {
  }

  lemma OldRows(s: Indexes, tx: Tx)
    requires Agree(s) && Ready(s.t, tx)
    ensures forall key :: key in s.a.rows ==> key.txid != tx.id
  {
    hide BalancesAre;
  }

  lemma NothingMarked(t: TxTables)
    ensures Marked(t, t, {})
  {
  }

  // -------------------------------------------------------------- blocks and chains

  /** Every transaction is ready when its turn comes. */
  ghost predicate ReadyTxs(addr: AddressOf, s: Indexes, b: Block, height: nat, n: nat)
    requires n <= |b.txs|
    decreases n
  {
    n == 0 || (ReadyTxs(addr, s, b, height, n - 1) && Ready(IndexTxs(addr, s, b, height, n - 1).t, b.txs[n - 1]))
  }

  ghost predicate ReadyChain(addr: AddressOf, s: Indexes, bs: seq<Block>, first: nat)
    decreases |bs|
  {
    bs == [] ||
    (var init, b := bs[..|bs| - 1], bs[|bs| - 1];
     && ReadyChain(addr, s, init, first)
     && ReadyTxs(addr, IndexChain(addr, s, init, first), b, first + |init|, |b.txs|))
  }

  lemma {:induction false} IndexTxsAgrees(addr: AddressOf, s: Indexes, b: Block, height: nat, n: nat)
    requires n <= |b.txs| && Agree(s) && ReadyTxs(addr, s, b, height, n)
    ensures Agree(IndexTxs(addr, s, b, height, n))
    decreases n
  {
    hide Agree, Ready, IndexTx, Inserted;
    if n > 0 {
      IndexTxsAgrees(addr, s, b, height, n - 1);
      IndexTxAgrees(addr, IndexTxs(addr, s, b, height, n - 1), b.txs[n - 1], TxInfo(b.hash, height, b.time, n - 1));
    }
  }

  /** However many blocks are indexed one by one, the address tables are those the transaction index calls for. */
  lemma {:induction false} IndexChainAgrees(addr: AddressOf, s: Indexes, bs: seq<Block>, first: nat)
    requires Agree(s) && ReadyChain(addr, s, bs, first)
    ensures Agree(IndexChain(addr, s, bs, first))
    decreases |bs|
  {
    hide Agree, ReadyTxs, IndexTxs;
    if bs != [] {
      var init, b := bs[..|bs| - 1], bs[|bs| - 1];
      IndexChainAgrees(addr, s, init, first);
      IndexTxsAgrees(addr, IndexChain(addr, s, init, first), b, first + |init|, |b.txs|);
    }
  }

  lemma NothingAgrees()
    ensures Agree(NO_INDEXES)
  {
    forall a
      ensures Signed(map[], a) == map[]
    {
    }
  }

  // ------------------------------------------------------------------ the balances

  predicate Unspent(t: TxTables, o: OutPoint) {
    o in t.outputs && o.txid in t.index && !t.outputs[o].spent && o !in t.inputs.Values
  }

  /** The unspent outputs of an address: the rows that get_address_balance adds up. */
  function UnspentOf(t: TxTables, a: string): map<OutPoint, int> {
    map o | o in t.outputs && t.outputs[o].address == a && Unspent(t, o) :: t.outputs[o].value
  }

  function SpentOf(t: TxTables, a: string): map<OutPoint, int> {
    map o | o in t.outputs && t.outputs[o].address == a && !Unspent(t, o) :: t.outputs[o].value
  }

  function AllOf(t: TxTables, a: string): map<OutPoint, int> {
    map o | o in t.outputs && t.outputs[o].address == a :: t.outputs[o].value
  }

  function InPart(rows: map<RowKey, Row>, a: string): map<RowKey, int> {
    map k | k in rows && k.address == a && k.isInput :: -rows[k].value
  }

  function OutPart(rows: map<RowKey, Row>, a: string): map<RowKey, int> {
    map k | k in rows && k.address == a && !k.isInput :: rows[k].value
  }

  lemma OutPartSum(s: Indexes, a: string)
    requires Agree(s) && a != ""
    ensures MapSum(OutPart(s.a.rows, a)) == MapSum(AllOf(s.t, a))
  {
    hide BalancesAre, MapSum;
    var m, n := OutPart(s.a.rows, a), AllOf(s.t, a);
    var f := map k | k in m :: OutPoint(k.txid, k.io);
    forall k | k in m
      ensures f[k] in n && m[k] == Sign(false, n[f[k]])
    {
      assert KeyIn(s.t, k);
    }
    forall o | o in n.Keys
      ensures o in f.Values
    {
      var k := RowKey(a, o.txid, false, o.index);
      assert KeyIn(s.t, k);
      assert k in m && f[k] == o;
    }
    assert f.Values == n.Keys;
    MapSumRename(m, n, f, false);
  }

  // The row of an input stands for the output that the input spends.
  lemma InRowMeans(s: Indexes, a: string, k: RowKey)
    requires Agree(s) && k in InPart(s.a.rows, a)
    ensures InKey(k.txid, k.io) in s.t.inputs && s.t.inputs[InKey(k.txid, k.io)] in SpentOf(s.t, a)
    ensures InPart(s.a.rows, a)[k] == -SpentOf(s.t, a)[s.t.inputs[InKey(k.txid, k.io)]]
    ensures s.t.inputs[InKey(k.txid, k.io)] in s.t.outputs
  {
    hide BalancesAre;
    assert KeyIn(s.t, k);
    assert s.t.inputs[InKey(k.txid, k.io)] in s.t.inputs.Values;
  }

  lemma SpentHasInRow(s: Indexes, a: string, o: OutPoint) returns (k: RowKey)
    requires Agree(s) && a != "" && o in SpentOf(s.t, a)
    ensures k in InPart(s.a.rows, a) && InKey(k.txid, k.io) in s.t.inputs && s.t.inputs[InKey(k.txid, k.io)] == o
  {
    hide BalancesAre;
    var i :| i in s.t.inputs && s.t.inputs[i] == o;
    k := RowKey(a, i.txid, true, i.index);
    assert KeyIn(s.t, k);
  }

  lemma OneSpender(t: TxTables, i: InKey, j: InKey)
    requires WellFormed(t) && i in t.inputs && j in t.inputs && i != j && t.inputs[i] in t.outputs
    ensures t.inputs[i] != t.inputs[j]
  {
  }

  lemma InPartSum(s: Indexes, a: string)
    requires Agree(s) && a != ""
    ensures MapSum(InPart(s.a.rows, a)) == -MapSum(SpentOf(s.t, a))
  {
    hide MapSum, RowsAre, BalancesAre, SpentOf, WellFormed;
    var t, m, n := s.t, InPart(s.a.rows, a), SpentOf(s.t, a);
    forall k | k in m
      ensures InKey(k.txid, k.io) in t.inputs && t.inputs[InKey(k.txid, k.io)] in n
      ensures m[k] == Sign(true, n[t.inputs[InKey(k.txid, k.io)]])
    {
      InRowMeans(s, a, k);
    }
    var f := map k | k in m :: t.inputs[InKey(k.txid, k.io)];
    forall o | o in n.Keys
      ensures o in f.Values
    {
      var k := SpentHasInRow(s, a, o);
      assert k in m && f[k] == o;
    }
    assert f.Values == n.Keys;
    forall k, l | k in f && l in f && k != l
      ensures f[k] != f[l]
    {
      InRowMeans(s, a, k);
      assert k.address == l.address && k.isInput && l.isInput;
      OneSpender(t, InKey(k.txid, k.io), InKey(l.txid, l.io));
    }
    MapSumRename(m, n, f, true);
  }

  /** The balance of an address is the sum of its unspent outputs. */
  lemma BalanceIsUnspent(s: Indexes, a: string)
    requires Agree(s) && a != ""
    ensures a in s.a.balances ==> s.a.balances[a] == MapSum(UnspentOf(s.t, a))
    ensures a !in s.a.balances ==> UnspentOf(s.t, a) == map[]
  {
    hide MapSum, WellFormed, RowsAre;
    OutPartSum(s, a);
    InPartSum(s, a);
    var rows := s.a.rows;
    assert Signed(rows, a) == OutPart(rows, a) + InPart(rows, a);
    MapSumUnion(OutPart(rows, a), InPart(rows, a));
    assert AllOf(s.t, a) == UnspentOf(s.t, a) + SpentOf(s.t, a);
    MapSumUnion(UnspentOf(s.t, a), SpentOf(s.t, a));
    if a !in s.a.balances {
      NoRowsNoOutputs(s, a);
    }
  }

  lemma NoRowsNoOutputs(s: Indexes, a: string)
    requires Agree(s) && a != "" && Signed(s.a.rows, a) == map[]
    ensures UnspentOf(s.t, a) == map[]
  {
    hide BalancesAre, MapSum;
    forall o | o in s.t.outputs
      ensures s.t.outputs[o].address != a
    {
      var k := RowKey(a, o.txid, false, o.index);
      assert k !in Signed(s.a.rows, a);
      assert KeyIn(s.t, k) <==> s.t.outputs[o].address == a;
    }
  }

  // --------------------------------------------------------------- taking blocks out

  /** Deletes a transaction's rows and unmarks what its inputs had spent. */
  function RemoveTx(t: TxTables, x: Id): TxTables {
    var prevs := set k | k in t.inputs && k.txid == x :: t.inputs[k];
    TxTables(t.index - {x},
             map k | k in t.inputs && k.txid != x :: t.inputs[k],
             map o | o in t.outputs && o.txid != x :: if o in prevs then t.outputs[o].Unmarked() else t.outputs[o])
  }

  /** The first n transactions of a block, in block order. */
  function RemoveTxs(t: TxTables, txs: seq<Tx>, n: nat): TxTables
    requires n <= |txs|
    decreases n
  {
    if n == 0 then t else RemoveTx(RemoveTxs(t, txs, n - 1), txs[n - 1].id)
  }

  /** Blocks as a reorganisation disconnects them, the tip first. */
  function RemoveBlocks(t: TxTables, bs: seq<Block>): TxTables
    decreases |bs|
  {
    if bs == [] then t else RemoveTxs(RemoveBlocks(t, bs[..|bs| - 1]), bs[|bs| - 1].txs, |bs[|bs| - 1].txs|)
  }

  /** Does an input of one of these transactions spend o? */
  predicate SpentWithin(r: TxTables, ids: set<Id>, o: OutPoint) {
    exists k :: k in r.inputs && k.txid in ids && r.inputs[k] == o
  }

  /** r is t with the transactions in ids indexed on top. */
  ghost predicate Atop(t: TxTables, r: TxTables, ids: set<Id>) {
    && r.index.Keys == t.index.Keys + ids && t.index.Keys !! ids
    && (forall x :: x in t.index ==> r.index[x] == t.index[x])
    && (forall k :: k in r.inputs ==> k.txid in ids || k in t.inputs)
    && (forall k :: k in t.inputs ==> k.txid !in ids && k in r.inputs && r.inputs[k] == t.inputs[k])
    && (forall o :: o in r.outputs ==> o.txid in ids || o in t.outputs)
    && (forall o :: o in t.outputs ==> o.txid !in ids && o in r.outputs && RowKept(t, r, ids, o))
  }

  ghost predicate RowKept(t: TxTables, r: TxTables, ids: set<Id>, o: OutPoint)
    requires o in t.outputs && o in r.outputs
  {
    if SpentWithin(r, ids, o) then t.outputs[o] == r.outputs[o].Unmarked() else t.outputs[o] == r.outputs[o]
  }

  lemma AtopNone(t: TxTables)
    requires WellFormed(t)
    ensures Atop(t, t, {})
  {
  }

  lemma RemoveAtop(t: TxTables, r: TxTables, ids: set<Id>, x: Id)
    requires Atop(t, r, ids) && x in ids
    ensures Atop(t, RemoveTx(r, x), ids - {x})
  {
    var q := RemoveTx(r, x);
    forall o | o in t.outputs
      ensures o in q.outputs && RowKept(t, q, ids - {x}, o)
    {
      assert RowKept(t, r, ids, o);
      RemoveRow(t, r, ids, x, o);
    }
  }

  lemma RemoveRow(t: TxTables, r: TxTables, ids: set<Id>, x: Id, o: OutPoint)
    requires o in t.outputs && o in r.outputs && o.txid != x && x in ids && RowKept(t, r, ids, o)
    ensures o in RemoveTx(r, x).outputs && RowKept(t, RemoveTx(r, x), ids - {x}, o)
  {
    var q := RemoveTx(r, x);
    assert SpentWithin(r, ids, o) <==> SpentWithin(r, {x}, o) || SpentWithin(q, ids - {x}, o) by {
      if SpentWithin(r, ids, o) && !SpentWithin(r, {x}, o) {
        var k :| k in r.inputs && k.txid in ids && r.inputs[k] == o;
        assert k in q.inputs && k.txid in ids - {x};
      }
      if SpentWithin(q, ids - {x}, o) {
        var k :| k in q.inputs && k.txid in ids - {x} && q.inputs[k] == o;
        assert k in r.inputs;
      }
    }
  }

  lemma AtopAll(t: TxTables, r: TxTables)
    requires Atop(t, r, {})
    ensures r == t
  {
    assert r.inputs == t.inputs;
    forall o | o in t.outputs
      ensures r.outputs[o] == t.outputs[o]
    {
      assert RowKept(t, r, {}, o);
    }
    assert r.outputs == t.outputs;
    forall x
      ensures (x in r.index <==> x in t.index) && (x in t.index ==> r.index[x] == t.index[x])
    {
      assert x in r.index.Keys <==> x in t.index.Keys + {};
    }
    assert r.index == t.index;
  }

  lemma AtopIndex(addr: AddressOf, t: TxTables, s: Indexes, ids: set<Id>, tx: Tx, info: TxInfo, r: TxTables)
    requires WellFormed(t) && WellFormed(s.t) && Atop(t, s.t, ids) && Ready(s.t, tx) && Inserted(addr, s.t, tx, info, r)
    ensures Atop(t, r, ids + {tx.id})
  {
    hide Ready, WellFormed, Inserted, RowKept;
    InsertedFrame(addr, s.t, tx, info, r);
    ReadyFresh(s.t, tx);
    AtopOutputs(addr, t, s, ids, tx, info, r);
    AtopInputs(addr, t, s, ids, tx, info);
  }

  lemma AtopOutputs(addr: AddressOf, t: TxTables, s: Indexes, ids: set<Id>, tx: Tx, info: TxInfo, r: TxTables)
    requires WellFormed(s.t) && Atop(t, s.t, ids) && Ready(s.t, tx) && Inserted(addr, s.t, tx, info, r)
    ensures forall o :: o in t.outputs ==> o.txid !in ids + {tx.id} && o in r.outputs && RowKept(t, r, ids + {tx.id}, o)
    ensures forall o :: o in r.outputs ==> o.txid in ids + {tx.id} || o in t.outputs
  {
    hide Ready, WellFormed, Inserted, RowKept;
    forall o | o in t.outputs
      ensures o.txid !in ids + {tx.id} && o in r.outputs && RowKept(t, r, ids + {tx.id}, o)
    {
      assert RowKept(t, s.t, ids, o);
      IndexRow(addr, t, s, ids, tx, info, r, o);
    }
    forall o | o in r.outputs
      ensures o.txid in ids + {tx.id} || o in t.outputs
    {
      if o.txid != tx.id {
        OldOutPoint(addr, s.t, tx, info, r, o);
      }
    }
  }

  lemma AtopInputs(addr: AddressOf, t: TxTables, s: Indexes, ids: set<Id>, tx: Tx, info: TxInfo)
    requires WellFormed(s.t) && Atop(t, s.t, ids) && Ready(s.t, tx)
    ensures var u, more := InsertTx(addr, s.t, tx, info), ids + {tx.id};
            && (forall k :: k in u.inputs ==> k.txid in more || k in t.inputs)
            && (forall k :: k in t.inputs ==> k.txid !in more && k in u.inputs && u.inputs[k] == t.inputs[k])
            && u.index.Keys == t.index.Keys + more && t.index.Keys !! more
            && forall x :: x in t.index ==> u.index[x] == t.index[x]
  {
    hide Ready, WellFormed, RowKept;
    ReadyFresh(s.t, tx);
    assert tx.id !in t.index.Keys + ids;
    forall k | k in t.inputs
      ensures k.txid != tx.id
    {
      InputOwner(s.t, k);
    }
  }

  lemma InputOwner(t: TxTables, k: InKey)
    requires WellFormed(t) && k in t.inputs
    ensures k.txid in t.index
  {
  }

  lemma ReadyFresh(t: TxTables, tx: Tx)
    requires Ready(t, tx)
    ensures tx.id !in t.index
  {
  }

  lemma IndexRow(addr: AddressOf, t: TxTables, s: Indexes, ids: set<Id>, tx: Tx, info: TxInfo, r: TxTables, o: OutPoint)
    requires WellFormed(s.t) && Ready(s.t, tx) && Inserted(addr, s.t, tx, info, r)
    requires o in t.outputs && o in s.t.outputs && o.txid !in ids && RowKept(t, s.t, ids, o)
    ensures o.txid != tx.id && o in r.outputs && RowKept(t, r, ids + {tx.id}, o)
  {
    hide SpentWithin;
    var u := InsertTx(addr, s.t, tx, info);
    OldRowStays(addr, s.t, tx, info, o);
    var spends := !tx.IsCoinbase() && o in Prevs(tx);
    SpentByOne(s.t, ids, tx, r, o);
    if spends {
      NotSpentYet(s.t, ids, tx, o);
      assert s.t.outputs[o].Unmarked() == s.t.outputs[o];
      assert r.outputs[o].Unmarked() == u.outputs[o].Unmarked();
    }
  }

  lemma NotSpentYet(t: TxTables, ids: set<Id>, tx: Tx, o: OutPoint)
    requires WellFormed(t) && Ready(t, tx) && !tx.IsCoinbase() && o in Prevs(tx) && o in t.outputs
    ensures !t.outputs[o].spent && t.outputs[o].spentBy == None && !SpentWithin(t, ids, o)
  {
    assert o !in t.inputs.Values;
  }

  lemma SpentByOne(t: TxTables, ids: set<Id>, tx: Tx, r: TxTables, o: OutPoint)
    requires WellFormed(t) && Ready(t, tx) && r.inputs == t.inputs + InputRows(tx) && o in t.outputs
    ensures SpentWithin(r, ids + {tx.id}, o) <==> SpentWithin(t, ids, o) || (!tx.IsCoinbase() && o in Prevs(tx))
  {
    if SpentWithin(t, ids, o) {
      var k :| k in t.inputs && k.txid in ids && t.inputs[k] == o;
      assert k in r.inputs && k.txid in ids + {tx.id} && r.inputs[k] == o;
    }
    if o in Prevs(tx) {
      var i :| 0 <= i < |tx.vin| && tx.vin[i].prev == o;
      assert InKey(tx.id, i) in r.inputs && r.inputs[InKey(tx.id, i)] == o;
    }
    if SpentWithin(r, ids + {tx.id}, o) {
      var k :| k in r.inputs && k.txid in ids + {tx.id} && r.inputs[k] == o;
      if k in InputRows(tx) {
        assert o in Prevs(tx);
        if tx.IsCoinbase() {
          CoinbasePrevs(tx);
        }
      } else {
        assert k in t.inputs && k.txid in ids;
      }
    }
  }

  lemma {:induction false} BlockAtop(addr: AddressOf, s: Indexes, b: Block, height: nat, n: nat)
    requires n <= |b.txs| && Agree(s) && ReadyTxs(addr, s, b, height, n)
    ensures Agree(IndexTxs(addr, s, b, height, n))
    ensures Atop(s.t, IndexTxs(addr, s, b, height, n).t, Ids(b.txs[..n]))
    decreases n
  {
    hide Ready, IndexTx, Inserted, Atop, WellFormed, RowsAre, BalancesAre, Ids;
    if n == 0 {
      AtopNone(s.t);
      NoTxIds();
    } else {
      BlockAtop(addr, s, b, height, n - 1);
      var now, tx, info := IndexTxs(addr, s, b, height, n - 1), b.txs[n - 1], TxInfo(b.hash, height, b.time, n - 1);
      IndexTxAgrees(addr, now, tx, info);
      AtopIndex(addr, s.t, now, Ids(b.txs[..n - 1]), tx, info, IndexTx(addr, now, tx, info).t);
      assert b.txs[..n] == b.txs[..n - 1] + [tx];
      IdsSnoc(b.txs[..n - 1], tx);
    }
  }

  lemma NoTxIds()
    ensures Ids([]) == {}
  {
  }

  lemma {:induction false} RemoveTxsAtop(t: TxTables, r: TxTables, txs: seq<Tx>, n: nat)
    requires n <= |txs| && Atop(t, r, Ids(txs)) && DistinctIds(txs)
    ensures Atop(t, RemoveTxs(r, txs, n), Ids(txs) - Ids(txs[..n]))
    decreases n
  {
    hide Atop, RemoveTx, Ids;
    if n == 0 {
      NoTxIds();
      assert txs[..0] == [];
      assert Ids(txs) - {} == Ids(txs);
    } else {
      RemoveTxsAtop(t, r, txs, n - 1);
      var ids := Ids(txs) - Ids(txs[..n - 1]);
      assert txs[..n] == txs[..n - 1] + [txs[n - 1]];
      IdsSnoc(txs[..n - 1], txs[n - 1]);
      IdAhead(txs, n - 1);
      RemoveAtop(t, RemoveTxs(r, txs, n - 1), ids, txs[n - 1].id);
      assert ids - {txs[n - 1].id} == Ids(txs) - Ids(txs[..n]);
    }
  }

  lemma IdAhead(txs: seq<Tx>, i: nat)
    requires i < |txs| && DistinctIds(txs)
    ensures txs[i].id in Ids(txs) && txs[i].id !in Ids(txs[..i])
  {
  }

  /** Taking a block out of the transaction index undoes putting it in. */
  lemma RemoveUndoesIndex(addr: AddressOf, s: Indexes, b: Block, height: nat)
    requires Agree(s) && ReadyTxs(addr, s, b, height, |b.txs|) && DistinctIds(b.txs)
    ensures RemoveTxs(IndexTxs(addr, s, b, height, |b.txs|).t, b.txs, |b.txs|) == s.t
  {
    hide Atop, Agree, ReadyTxs, Ids, DistinctIds;
    var n := |b.txs|;
    assert b.txs[..n] == b.txs;
    BlockAtop(addr, s, b, height, n);
    RemoveTxsAtop(s.t, IndexTxs(addr, s, b, height, n).t, b.txs, n);
    assert Ids(b.txs) - Ids(b.txs) == {};
    AtopAll(s.t, RemoveTxs(IndexTxs(addr, s, b, height, n).t, b.txs, n));
  }

  function TipFirst(bs: seq<Block>): seq<Block>
    decreases |bs|
  {
    if bs == [] then [] else [bs[|bs| - 1]] + TipFirst(bs[..|bs| - 1])
  }

  lemma {:induction false} RemoveFirst(t: TxTables, b: Block, rest: seq<Block>)
    ensures RemoveBlocks(t, [b] + rest) == RemoveBlocks(RemoveTxs(t, b.txs, |b.txs|), rest)
    decreases |rest|
  {
    hide RemoveTxs;
    if rest == [] {
      assert ([b] + rest)[..0] == [];
    } else {
      RemoveFirst(t, b, rest[..|rest| - 1]);
      assert ([b] + rest)[..|rest|] == [b] + rest[..|rest| - 1];
    }
  }

  lemma {:induction false} RemoveUndoesChain(addr: AddressOf, s: Indexes, bs: seq<Block>, first: nat)
    requires Agree(s) && ReadyChain(addr, s, bs, first) && AllDistinct(bs)
    ensures RemoveBlocks(IndexChain(addr, s, bs, first).t, TipFirst(bs)) == s.t
    decreases |bs|
  {
    hide Agree, ReadyTxs, DistinctIds, IndexTxs, RemoveTxs;
    if bs != [] {
      var init, b := bs[..|bs| - 1], bs[|bs| - 1];
      var now := IndexChain(addr, s, init, first);
      IndexChainAgrees(addr, s, init, first);
      RemoveUndoesIndex(addr, now, b, first + |init|);
      RemoveUndoesChain(addr, s, init, first);
      RemoveFirst(IndexChain(addr, s, bs, first).t, b, TipFirst(init));
    }
  }

  lemma {:induction false} IndexChainSplit(addr: AddressOf, s: Indexes, a: seq<Block>, b: seq<Block>, first: nat)
    ensures IndexChain(addr, s, a + b, first) == IndexChain(addr, IndexChain(addr, s, a, first), b, first + |a|)
    ensures ReadyChain(addr, s, a + b, first) ==>
              ReadyChain(addr, s, a, first) && ReadyChain(addr, IndexChain(addr, s, a, first), b, first + |a|)
    decreases |b|
  {
    hide IndexTxs, ReadyTxs;
    if b == [] {
      assert a + b == a;
    } else {
      var init := b[..|b| - 1];
      assert (a + b)[..|a + b| - 1] == a + init;
      IndexChainSplit(addr, s, a, init, first);
    }
  }

  /** The address tables are fixed by the transaction index. */
  lemma AddrTablesUnique(t: TxTables, a: AddrTables, b: AddrTables)
    requires Agree(Indexes(t, a)) && Agree(Indexes(t, b))
    ensures a == b
  {
    hide WellFormed, KeyIn, MapSum;
    forall key
      ensures (key in a.rows <==> key in b.rows) && (key in a.rows ==> a.rows[key] == b.rows[key])
    {
    }
    assert a.rows == b.rows;
    forall x
      ensures (x in a.balances <==> x in b.balances) && (x in a.balances ==> a.balances[x] == b.balances[x])
    {
    }
    assert a.balances == b.balances;
  }

  ghost predicate AllDistinct(bs: seq<Block>) {
    forall i :: 0 <= i < |bs| ==> DistinctIds(bs[i].txs)
  }

  /** Taking the blocks of a branch out, tip first, leads back to the fork. */
  lemma BackToFork(addr: AddressOf, common: seq<Block>, old_: seq<Block>, first: nat)
    requires ReadyChain(addr, NO_INDEXES, common + old_, first) && AllDistinct(old_)
    ensures RemoveBlocks(IndexChain(addr, NO_INDEXES, common + old_, first).t, TipFirst(old_)) ==
            IndexChain(addr, NO_INDEXES, common, first).t
  {
    hide Agree, ReadyChain, IndexChain, RemoveBlocks, TipFirst;
    NothingAgrees();
    IndexChainSplit(addr, NO_INDEXES, common, old_, first);
    IndexChainAgrees(addr, NO_INDEXES, common, first);
    hide AllDistinct;
    RemoveUndoesChain(addr, IndexChain(addr, NO_INDEXES, common, first), old_, first + |common|);
  }

  /** After a reorganisation from one branch to another, taking the old blocks out tip first, putting the new ones in,
      and rebuilding the address tables gives what indexing the new chain from scratch gives. */
  lemma ReconciledFromScratch(addr: AddressOf, common: seq<Block>, old_: seq<Block>, new_: seq<Block>, a: AddrTables,
                              r: Indexes, first: nat)
    requires ReadyChain(addr, NO_INDEXES, common + old_, first) && ReadyChain(addr, NO_INDEXES, common + new_, first)
    requires AllDistinct(old_) && Agree(r)
    requires var out := RemoveBlocks(IndexChain(addr, NO_INDEXES, common + old_, first).t, TipFirst(old_));
             r.t == IndexChain(addr, Indexes(out, a), new_, first + |common|).t
    ensures r == IndexChain(addr, NO_INDEXES, common + new_, first)
  {
    hide Agree, ReadyChain, RemoveBlocks, AllDistinct, TipFirst, IndexTxs;
    BackToFork(addr, common, old_, first);
    var base, target := IndexChain(addr, NO_INDEXES, common, first), IndexChain(addr, NO_INDEXES, common + new_, first);
    NothingAgrees();
    IndexChainSplit(addr, NO_INDEXES, common, new_, first);
    IndexChainAgrees(addr, NO_INDEXES, common + new_, first);
    var out := RemoveBlocks(IndexChain(addr, NO_INDEXES, common + old_, first).t, TipFirst(old_));
    assert out == base.t;
    TablesAlone(addr, Indexes(out, a), base, new_, first + |common|);
    assert r.t == target.t;
    assert Indexes(r.t, r.a) == r && Indexes(r.t, target.a) == target;
    AddrTablesUnique(r.t, r.a, target.a);
  }

  /** The transaction index does not look at the address tables. */
  lemma {:induction false} TablesAlone(addr: AddressOf, s: Indexes, q: Indexes, bs: seq<Block>, first: nat)
    requires s.t == q.t
    ensures IndexChain(addr, s, bs, first).t == IndexChain(addr, q, bs, first).t
    decreases |bs|
  {
    hide IndexTxs;
    if bs != [] {
      TablesAlone(addr, s, q, bs[..|bs| - 1], first);
      TxsAlone(addr, IndexChain(addr, s, bs[..|bs| - 1], first), IndexChain(addr, q, bs[..|bs| - 1], first),
               bs[|bs| - 1], first + |bs| - 1, |bs[|bs| - 1].txs|);
    }
  }

  lemma {:induction false} TxsAlone(addr: AddressOf, s: Indexes, q: Indexes, b: Block, height: nat, n: nat)
    requires n <= |b.txs| && s.t == q.t
    ensures IndexTxs(addr, s, b, height, n).t == IndexTxs(addr, q, b, height, n).t
    decreases n
  {
    hide AddOutputs, SpendInputs, InsertTx;
    if n > 0 {
      TxsAlone(addr, s, q, b, height, n - 1);
      var tx := b.txs[n - 1];
      var x, y := IndexTxs(addr, s, b, height, n - 1), IndexTxs(addr, q, b, height, n - 1);
      var info := TxInfo(b.hash, height, b.time, n - 1);
      SpendsAlone(Indexes(InsertTx(addr, x.t, tx, info), AddOutputs(addr, x.a, tx, info, |tx.vout|)),
                  Indexes(InsertTx(addr, y.t, tx, info), AddOutputs(addr, y.a, tx, info, |tx.vout|)), tx, info, |tx.vin|);
    }
  }

  lemma {:induction false} SpendsAlone(s: Indexes, q: Indexes, tx: Tx, info: TxInfo, n: nat)
    requires n <= |tx.vin| && s.t == q.t
    ensures SpendInputs(s, tx, info, n).t == SpendInputs(q, tx, info, n).t
    decreases n
  {
    if n > 0 {
      SpendsAlone(s, q, tx, info, n - 1);
    }
  }

  // --------------------------------------------------- connectable chains are ready

  /** Of the ids used so far: the coins and the indexed transactions have them, and no spent outpoint is a coin. */
  ghost predicate Tracks(utxo: map<OutPoint, Coin>, t: TxTables, ids: set<Id>) {
    && t.index.Keys <= ids && NULL_OUTPOINT.txid !in ids
    && (forall o :: o in utxo ==> o.txid in ids)
    && forall k :: k in t.inputs ==> t.inputs[k] == NULL_OUTPOINT || (t.inputs[k] !in utxo && t.inputs[k].txid in ids)
  }

  lemma {:induction false} SpendsFrame(s: Indexes, tx: Tx, info: TxInfo, n: nat)
    requires n <= |tx.vin|
    ensures SpendInputs(s, tx, info, n).t.index == s.t.index && SpendInputs(s, tx, info, n).t.inputs == s.t.inputs
    decreases n
  {
    if n > 0 {
      SpendsFrame(s, tx, info, n - 1);
    }
  }

  lemma IndexTxFrame(addr: AddressOf, s: Indexes, tx: Tx, info: TxInfo)
    ensures IndexTx(addr, s, tx, info).t.index == s.t.index[tx.id := info]
    ensures IndexTx(addr, s, tx, info).t.inputs == s.t.inputs + InputRows(tx)
  {
    hide InputRows, OutputRows, AddOutputs;
    SpendsFrame(Indexes(InsertTx(addr, s.t, tx, info), AddOutputs(addr, s.a, tx, info, |tx.vout|)), tx, info, |tx.vin|);
  }

  /** A transaction that connects is ready to be indexed. */
  lemma ConnectedIsReady(lt: Tables, t: TxTables, ids: set<Id>, block: Id, height: nat, tx: Tx)
    requires Tracks(lt.utxo, t, ids) && tx.id !in ids && tx.id != NULL_OUTPOINT.txid
    requires ConnectTx(lt, block, height, tx).ok
    ensures Ready(t, tx)
  {
    if !tx.IsCoinbase() {
      SpendShape(lt, block, tx, |tx.vin|);
      forall i | 0 <= i < |tx.vin|
        ensures tx.vin[i].prev.txid != tx.id && tx.vin[i].prev !in t.inputs.Values
      {
        assert tx.vin[i].prev in lt.utxo;
        assert tx.vin[i].prev != NULL_OUTPOINT;
      }
    }
  }

  lemma TrackTx(addr: AddressOf, lt: Tables, s: Indexes, ids: set<Id>, block: Id, height: nat, tx: Tx, info: TxInfo)
    requires Tracks(lt.utxo, s.t, ids) && tx.id !in ids && tx.id != NULL_OUTPOINT.txid
    requires ConnectTx(lt, block, height, tx).ok
    ensures Ready(s.t, tx)
    ensures Tracks(ConnectTx(lt, block, height, tx).tables.utxo, IndexTx(addr, s, tx, info).t, ids + {tx.id})
  {
    hide IndexTx;
    ConnectedIsReady(lt, s.t, ids, block, height, tx);
    IndexTxFrame(addr, s, tx, info);
    TrackedCoins(lt, ids, block, height, tx);
    var utxo, t := ConnectTx(lt, block, height, tx).tables.utxo, IndexTx(addr, s, tx, info).t;
    hide ConnectTx, Ready;
    forall k | k in t.inputs
      ensures t.inputs[k] == NULL_OUTPOINT || (t.inputs[k] !in utxo && t.inputs[k].txid in ids + {tx.id})
    {
      if k in InputRows(tx) {
        assert t.inputs[k] in Prevs(tx);
      }
    }
  }

  lemma TrackedCoins(lt: Tables, ids: set<Id>, block: Id, height: nat, tx: Tx)
    requires ConnectTx(lt, block, height, tx).ok && forall o :: o in lt.utxo ==> o.txid in ids
    requires tx.id !in ids
    ensures var utxo := ConnectTx(lt, block, height, tx).tables.utxo;
            && (forall o :: o in utxo ==> o.txid in ids + {tx.id})
            && (forall o: OutPoint :: o.txid in ids && o !in lt.utxo ==> o !in utxo)
            && forall o :: o in Prevs(tx) ==> o == NULL_OUTPOINT || (o !in utxo && o.txid in ids)
  {
    CoinsProvenance(tx, height);
    if tx.IsCoinbase() {
      CoinbasePrevs(tx);
    } else {
      SpendShape(lt, block, tx, |tx.vin|);
    }
  }

  lemma {:induction false} TrackTxs(addr: AddressOf, lt: Tables, s: Indexes, ids: set<Id>, b: Block, height: nat, n: nat)
    requires n <= |b.txs| && Tracks(lt.utxo, s.t, ids) && DistinctIds(b.txs) && Ids(b.txs) !! ids + {NULL_OUTPOINT.txid}
    requires ConnectTxs(lt, b.hash, height, b.txs[..n]).ok
    ensures ReadyTxs(addr, s, b, height, n)
    ensures Tracks(ConnectTxs(lt, b.hash, height, b.txs[..n]).tables.utxo, IndexTxs(addr, s, b, height, n).t, ids + Ids(b.txs[..n]))
    decreases n
  {
    hide Tracks, Ready, ConnectTx, IndexTx, Ids;
    if n == 0 {
      NoTxIds();
      assert b.txs[..0] == [];
      assert ids + {} == ids;
    } else {
      var tx := b.txs[n - 1];
      assert b.txs[..n][..n - 1] == b.txs[..n - 1];
      assert b.txs[..n] == b.txs[..n - 1] + [tx];
      TrackTxs(addr, lt, s, ids, b, height, n - 1);
      IdAhead(b.txs, n - 1);
      IdsSnoc(b.txs[..n - 1], tx);
      TrackTx(addr, ConnectTxs(lt, b.hash, height, b.txs[..n - 1]).tables, IndexTxs(addr, s, b, height, n - 1),
              ids + Ids(b.txs[..n - 1]), b.hash, height, tx, TxInfo(b.hash, height, b.time, n - 1));
      assert ids + Ids(b.txs[..n - 1]) + {tx.id} == ids + Ids(b.txs[..n]);
    }
  }

  lemma ConnectUtxo(lt: Tables, b: Block, height: nat)
    requires Connect(lt, b, height).ok
    ensures var s := ConnectTxs(lt.(undo := DropUndo(lt.undo, b.hash)), b.hash, height, b.txs);
            s.ok && Connect(lt, b, height).tables.utxo == s.tables.utxo
  {
    hide ConnectTxs;
  }

  /** Every chain that connects block by block, with ids used once, can be indexed block by block. */
  lemma {:induction false} ReplayIsReady(addr: AddressOf, base: Tables, known: set<Id>, bs: seq<Block>, first: nat)
    requires CleanBase(base, known) && FreshChain(known, bs) && Replay(base, bs, first).ok
    requires NULL_OUTPOINT.txid !in known + ChainIds(bs)
    ensures ReadyChain(addr, NO_INDEXES, bs, first) && AllDistinct(bs)
    ensures Tracks(Replay(base, bs, first).tables.utxo, IndexChain(addr, NO_INDEXES, bs, first).t, known + ChainIds(bs))
    decreases |bs|
  {
    hide Connect, ConnectTxs, ReadyTxs, IndexTxs, ChainIds, Ids;
    if bs != [] {
      var init, b := bs[..|bs| - 1], bs[|bs| - 1];
      assert bs == init + [b];
      ReplaySnoc(base, init, b, first);
      NextIsFresh(init, b, known);
      ChainIdsSnoc(init, b);
      ReplayIsReady(addr, base, known, init, first);
      var lt, s, h := Replay(base, init, first).tables, IndexChain(addr, NO_INDEXES, init, first), first + |init|;
      var ids := known + ChainIds(init);
      ConnectUtxo(lt, b, h);
      assert b.txs[..|b.txs|] == b.txs;
      TrackTxs(addr, lt.(undo := DropUndo(lt.undo, b.hash)), s, ids, b, h, |b.txs|);
      assert ids + Ids(b.txs) == known + ChainIds(bs);
    } else {
      NoChainIds();
    }
  }

  lemma NoChainIds()
    ensures ChainIds([]) == {}
  {
  }

  /** Index any chain that connects: the address tables are those the transaction index calls for, and the balance of
      every address is the sum of its unspent outputs. */
  lemma ConnectedChainIndexes(addr: AddressOf, base: Tables, known: set<Id>, bs: seq<Block>, first: nat, a: string)
    requires CleanBase(base, known) && FreshChain(known, bs) && Replay(base, bs, first).ok && a != ""
    requires NULL_OUTPOINT.txid !in known + ChainIds(bs)
    ensures var s := IndexChain(addr, NO_INDEXES, bs, first);
            && Agree(s)
            && (if a in s.a.balances then s.a.balances[a] else 0) == MapSum(UnspentOf(s.t, a))
  {
    hide Agree, ReadyChain, Tracks, CleanBase, FreshChain, Replay, IndexTxs, UnspentOf, ChainIds;
    ReplayIsReady(addr, base, known, bs, first);
    NothingAgrees();
    IndexChainAgrees(addr, NO_INDEXES, bs, first);
    BalanceIsUnspent(IndexChain(addr, NO_INDEXES, bs, first), a);
  }

  /** The unspent outputs of an address with enough confirmations. */
  function ConfirmedOf(t: TxTables, a: string, bestHeight: int, minConf: int): map<OutPoint, int> {
    map o | o in UnspentOf(t, a) && bestHeight - t.index[o.txid].height + 1 >= minConf :: UnspentOf(t, a)[o]
  }

  /** Below the best height one confirmation is what every output has. */
  lemma AllConfirmed(t: TxTables, a: string, bestHeight: int, minConf: int)
    requires minConf <= 1 && forall x :: x in t.index ==> t.index[x].height <= bestHeight
    ensures ConfirmedOf(t, a, bestHeight, minConf) == UnspentOf(t, a)
  {
  }
}
