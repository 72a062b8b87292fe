/** What the two indexes hold, read off the transactions that were indexed: every row with its
    columns, and no row besides. */
module IndexFacts {
  import opened Ledger
  import opened IndexSpec

  /** A transaction and where it stands. */
  datatype Listed = Listed(tx: Tx, info: TxInfo)

  function ListTxs(b: Block, height: nat, n: nat): seq<Listed>
    requires n <= |b.txs|
  {
    seq(n, j requires 0 <= j < n => Listed(b.txs[j], TxInfo(b.hash, height, b.time, j)))
  }

  /** All transactions of a chain in order; its first block has height `first`. */
  function ListChain(bs: seq<Block>, first: nat): seq<Listed>
    decreases |bs|
  {
    if bs == [] then []
    else
      var b := bs[|bs| - 1];
      ListChain(bs[..|bs| - 1], first) + ListTxs(b, first + |bs| - 1, |b.txs|)
  }

  /** Input i of transaction k spends o; what a coinbase names is not spent. */
  predicate SpendsHere(l: seq<Listed>, k: nat, i: nat, o: OutPoint) {
    && k < |l| && i < |l[k].tx.vin| && l[k].tx.vin[i].prev == o
    && !(|l[k].tx.vin| == 1 && l[k].tx.vin[0].prev == NULL_OUTPOINT)
  }

  predicate MakesHere(l: seq<Listed>, k: nat, o: OutPoint) {
    k < |l| && l[k].tx.id == o.txid && o.index < |l[k].tx.vout|
  }

  ghost predicate SpentHere(l: seq<Listed>, o: OutPoint) {
    exists k: nat, i: nat :: SpendsHere(l, k, i, o)
  }

  /** tx_index: a row per transaction, saying where it stands. */
  ghost predicate IndexTold(l: seq<Listed>, t: TxTables) {
    && (forall k :: 0 <= k < |l| ==> l[k].tx.id in t.index && t.index[l[k].tx.id] == l[k].info)
    && forall x :: x in t.index ==> exists k :: 0 <= k < |l| && l[k].tx.id == x
  }

  /** tx_inputs: a row per input, naming what it spends. */
  ghost predicate InputsTold(l: seq<Listed>, t: TxTables) {
    && (forall k, i :: 0 <= k < |l| && 0 <= i < |l[k].tx.vin| ==>
          InKey(l[k].tx.id, i) in t.inputs && t.inputs[InKey(l[k].tx.id, i)] == l[k].tx.vin[i].prev)
    && forall key :: key in t.inputs ==> exists k :: 0 <= k < |l| && l[k].tx.id == key.txid && key.index < |l[k].tx.vin|
  }

  /** tx_outputs: a row per output with its value and address, and with the transaction that spent it, if one did. */
  ghost predicate OutputsTold(addr: AddressOf, l: seq<Listed>, t: TxTables) {
    && (forall o :: o in t.outputs <==> exists k: nat :: MakesHere(l, k, o))
    && (forall k: nat, o :: MakesHere(l, k, o) && o in t.outputs ==>
          t.outputs[o].value == l[k].tx.vout[o.index].value && t.outputs[o].address == addr(l[k].tx.vout[o.index].script))
    && (forall k: nat, i: nat, o :: SpendsHere(l, k, i, o) && o in t.outputs ==>
          t.outputs[o].spent && t.outputs[o].spentBy == Some(l[k].tx.id))
    && forall o :: o in t.outputs && !SpentHere(l, o) ==> !t.outputs[o].spent && t.outputs[o].spentBy == None
  }

  ghost predicate Told(addr: AddressOf, l: seq<Listed>, t: TxTables) {
    IndexTold(l, t) && InputsTold(l, t) && OutputsTold(addr, l, t)
  }

  // ------------------------------------------------------------- one transaction

  lemma {:induction false} SpendInputsMarks(s: Indexes, tx: Tx, info: TxInfo, n: nat)
    requires n <= |tx.vin|
    ensures var t, r := s.t, SpendInputs(s, tx, info, n).t;
            && r.outputs.Keys == t.outputs.Keys
            && (forall o :: o in r.outputs ==> r.outputs[o].value == t.outputs[o].value && r.outputs[o].address == t.outputs[o].address)
            && (forall i :: 0 <= i < n && tx.vin[i].prev in r.outputs ==>
                  r.outputs[tx.vin[i].prev].spent && r.outputs[tx.vin[i].prev].spentBy == Some(tx.id))
            && (forall o :: o in r.outputs && (forall i :: 0 <= i < n ==> tx.vin[i].prev != o) ==> r.outputs[o] == t.outputs[o])
    decreases n
  {
    if n > 0 {
      SpendInputsMarks(s, tx, info, n - 1);
    }
  }

  /** The outputs table after one transaction. */
  lemma IndexTxOutputs(addr: AddressOf, s: Indexes, tx: Tx, info: TxInfo, o: OutPoint)
    requires tx.id !in s.t.index && WellFormed(s.t)
    ensures var t, r, own := s.t.outputs, IndexTx(addr, s, tx, info).t.outputs, o.txid == tx.id && o.index < |tx.vout|;
            && (o in r <==> o in t || own)
            && (own ==> o in r && o !in t && r[o].value == tx.vout[o.index].value && r[o].address == addr(tx.vout[o.index].script))
            && (o in t ==> o in r && r[o].value == t[o].value && r[o].address == t[o].address)
            && (forall i :: 0 <= i < |tx.vin| && !tx.IsCoinbase() && tx.vin[i].prev == o && o in r ==> r[o].spent && r[o].spentBy == Some(tx.id))
            && (o in r && (tx.IsCoinbase() || forall i :: 0 <= i < |tx.vin| ==> tx.vin[i].prev != o) ==>
                  if o in t then r[o] == t[o] else !r[o].spent && r[o].spentBy == None)
  {
    hide AddOutputs, SpendInputs, WellFormed, InsertTx;
    var u := Indexes(InsertTx(addr, s.t, tx, info), AddOutputs(addr, s.a, tx, info, |tx.vout|));
    InsertedOutputs(addr, s.t, tx, info, o);
    if !tx.IsCoinbase() {
      SpendInputsMarks(u, tx, info, |tx.vin|);
    }
  }

  lemma InsertedOutputs(addr: AddressOf, t: TxTables, tx: Tx, info: TxInfo, o: OutPoint)
    requires tx.id !in t.index && WellFormed(t)
    ensures var r, own := InsertTx(addr, t, tx, info).outputs, o.txid == tx.id && o.index < |tx.vout|;
            && (o in r <==> o in t.outputs || own)
            && (own ==> o !in t.outputs && r[o] == OutRow(tx.vout[o.index].value, addr(tx.vout[o.index].script), false, None))
            && (o in t.outputs ==> r[o] == t.outputs[o])
  {
    assert o in t.outputs ==> o.txid in t.index;
    if o.txid == tx.id && o.index < |tx.vout| {
      assert o == OutPoint(tx.id, o.index);
      assert o in OutputRows(addr, tx);
    }
  }

  lemma IndexStep(addr: AddressOf, l: seq<Listed>, s: Indexes, tx: Tx, info: TxInfo)
    requires IndexTold(l, s.t) && tx.id !in s.t.index
    ensures IndexTold(l + [Listed(tx, info)], IndexTx(addr, s, tx, info).t)
  {
    hide IndexTx;
    IndexTxFrame(addr, s, tx, info);
    var all, r := l + [Listed(tx, info)], IndexTx(addr, s, tx, info).t;
    assert all[|l|] == Listed(tx, info);
    assert forall k :: 0 <= k < |l| ==> all[k] == l[k];
    forall x | x in r.index
      ensures exists k :: 0 <= k < |all| && all[k].tx.id == x
    {
      if x in s.t.index {
        var k :| 0 <= k < |l| && l[k].tx.id == x;
        assert all[k].tx.id == x;
      }
    }
  }

  lemma OwnInputRows(tx: Tx, key: InKey)
    ensures key in InputRows(tx) <==> key.txid == tx.id && key.index < |tx.vin|
    ensures key in InputRows(tx) ==> InputRows(tx)[key] == tx.vin[key.index].prev
  {
    if key.txid == tx.id && key.index < |tx.vin| {
      assert key == InKey(tx.id, key.index);
    }
  }

  lemma InputsStep(addr: AddressOf, l: seq<Listed>, s: Indexes, tx: Tx, info: TxInfo)
    requires InputsTold(l, s.t) && IndexTold(l, s.t) && tx.id !in s.t.index
    ensures InputsTold(l + [Listed(tx, info)], IndexTx(addr, s, tx, info).t)
  {
    hide IndexTx, InputRows;
    IndexTxFrame(addr, s, tx, info);
    var all, r := l + [Listed(tx, info)], IndexTx(addr, s, tx, info).t;
    assert all[|l|] == Listed(tx, info);
    assert forall k :: 0 <= k < |l| ==> all[k] == l[k];
    forall k, i | 0 <= k < |all| && 0 <= i < |all[k].tx.vin|
      ensures InKey(all[k].tx.id, i) in r.inputs && r.inputs[InKey(all[k].tx.id, i)] == all[k].tx.vin[i].prev
    {
      OwnInputRows(tx, InKey(all[k].tx.id, i));
      if k < |l| {
        assert l[k].tx.id in s.t.index;
      }
    }
    forall key | key in r.inputs
      ensures exists k :: 0 <= k < |all| && all[k].tx.id == key.txid && key.index < |all[k].tx.vin|
    {
      OwnInputRows(tx, key);
      if key in InputRows(tx) {
        assert all[|l|].tx.id == key.txid;
      } else {
        var k :| 0 <= k < |l| && l[k].tx.id == key.txid && key.index < |l[k].tx.vin|;
        assert all[k] == l[k];
      }
    }
  }

  lemma HereSnoc(l: seq<Listed>, x: Listed, k: nat, i: nat, o: OutPoint)
    ensures var all := l + [x];
            && (k < |l| ==> (SpendsHere(all, k, i, o) <==> SpendsHere(l, k, i, o)) && (MakesHere(all, k, o) <==> MakesHere(l, k, o)))
            && (k > |l| ==> !SpendsHere(all, k, i, o) && !MakesHere(all, k, o))
            && (SpendsHere(all, |l|, i, o) <==> i < |x.tx.vin| && x.tx.vin[i].prev == o && !x.tx.IsCoinbase())
            && (MakesHere(all, |l|, o) <==> x.tx.id == o.txid && o.index < |x.tx.vout|)
  {
    assert (l + [x])[|l|] == x;
    if k < |l| {
      assert (l + [x])[k] == l[k];
    }
  }

  lemma OutputsStep(addr: AddressOf, l: seq<Listed>, s: Indexes, tx: Tx, info: TxInfo)
    requires Told(addr, l, s.t) && Ready(s.t, tx) && WellFormed(s.t)
    ensures OutputsTold(addr, l + [Listed(tx, info)], IndexTx(addr, s, tx, info).t)
  {
    hide IndexTx, SpendsHere, MakesHere, WellFormed, InputsTold, IndexTold;
    var x := Listed(tx, info);
    var all, r := l + [x], IndexTx(addr, s, tx, info).t;
    forall o
      ensures o in r.outputs <==> exists k: nat :: MakesHere(all, k, o)
    {
      IndexTxOutputs(addr, s, tx, info, o);
      HereSnoc(l, x, 0, 0, o);
      if k: nat :| MakesHere(all, k, o) {
        HereSnoc(l, x, k, 0, o);
      }
      if o in s.t.outputs {
        var k: nat :| MakesHere(l, k, o);
        InRange(l, k, 0, o);
        HereSnoc(l, x, k, 0, o);
        assert MakesHere(all, k, o);
      }
      if o.txid == tx.id && o.index < |tx.vout| {
        assert MakesHere(all, |l|, o);
      }
    }
    forall k: nat, o | MakesHere(all, k, o) && o in r.outputs
      ensures k < |all| && o.index < |all[k].tx.vout|
      ensures r.outputs[o].value == all[k].tx.vout[o.index].value && r.outputs[o].address == addr(all[k].tx.vout[o.index].script)
    {
      IndexTxOutputs(addr, s, tx, info, o);
      HereSnoc(l, x, k, 0, o);
      InRange(all, k, 0, o);
      if k < |l| {
        assert MakesHere(l, k, o);
        assert o in s.t.outputs;
        assert all[k] == l[k];
      }
    }
    forall k: nat, i: nat, o | SpendsHere(all, k, i, o) && o in r.outputs
      ensures k < |all| && r.outputs[o].spent && r.outputs[o].spentBy == Some(all[k].tx.id)
    {
      HereSnoc(l, x, k, i, o);
      InRange(all, k, i, o);
      IndexTxOutputs(addr, s, tx, info, o);
      if k < |l| {
        assert all[k] == l[k];
        SpentBefore(addr, l, s.t, tx, k, i, o);
      }
    }
    forall o | o in r.outputs && !SpentHere(all, o)
      ensures !r.outputs[o].spent && r.outputs[o].spentBy == None
    {
      IndexTxOutputs(addr, s, tx, info, o);
      forall i | 0 <= i < |tx.vin| && !tx.IsCoinbase()
        ensures tx.vin[i].prev != o
      {
        HereSnoc(l, x, 0, i, o);
        assert !SpendsHere(all, |l|, i, o);
      }
      assert !SpentHere(l, o) by {
        forall k: nat, i: nat
          ensures !SpendsHere(l, k, i, o)
        {
          InRange(l, k, i, o);
          HereSnoc(l, x, k, i, o);
          assert !SpendsHere(all, k, i, o);
        }
      }
    }
  }

  lemma InRange(l: seq<Listed>, k: nat, i: nat, o: OutPoint)
    ensures MakesHere(l, k, o) ==> k < |l| && o.index < |l[k].tx.vout|
    ensures SpendsHere(l, k, i, o) ==> k < |l|
  {
  }

  /** What an indexed transaction spent is indexed or foreign to the new one, and the new one spends it no more. */
  lemma SpentBefore(addr: AddressOf, l: seq<Listed>, t: TxTables, tx: Tx, k: nat, i: nat, o: OutPoint)
    requires Told(addr, l, t) && Ready(t, tx) && WellFormed(t) && SpendsHere(l, k, i, o)
    ensures o in t.outputs ==> t.outputs[o].spent && t.outputs[o].spentBy == Some(l[k].tx.id)
    ensures !tx.IsCoinbase() ==> forall j :: 0 <= j < |tx.vin| ==> tx.vin[j].prev != o
    ensures o.txid != tx.id
  {
    assert InKey(l[k].tx.id, i) in t.inputs && t.inputs[InKey(l[k].tx.id, i)] == o;
    assert o in t.inputs.Values;
  }

  // ----------------------------------------------------------------- a whole chain

  lemma {:induction false} TxsTold(addr: AddressOf, l: seq<Listed>, s: Indexes, b: Block, height: nat, n: nat)
    requires n <= |b.txs| && Told(addr, l, s.t) && Agree(s) && ReadyTxs(addr, s, b, height, n)
    ensures Told(addr, l + ListTxs(b, height, n), IndexTxs(addr, s, b, height, n).t)
    decreases n
  {
    hide IndexTold, InputsTold, OutputsTold, Agree, Ready, IndexTx;
    if n == 0 {
      assert l + ListTxs(b, height, 0) == l;
    } else {
      TxsTold(addr, l, s, b, height, n - 1);
      IndexTxsAgrees(addr, s, b, height, n - 1);
      var now, r, info := l + ListTxs(b, height, n - 1), IndexTxs(addr, s, b, height, n - 1), TxInfo(b.hash, height, b.time, n - 1);
      assert l + ListTxs(b, height, n) == now + [Listed(b.txs[n - 1], info)];
      AgreeIsWellFormed(r);
      TellsParts(addr, now, r.t, b.txs[n - 1]);
      IndexStep(addr, now, r, b.txs[n - 1], info);
      InputsStep(addr, now, r, b.txs[n - 1], info);
      OutputsStep(addr, now, r, b.txs[n - 1], info);
    }
  }

  lemma TellsParts(addr: AddressOf, l: seq<Listed>, t: TxTables, tx: Tx)
    requires Told(addr, l, t) && Ready(t, tx)
    ensures IndexTold(l, t) && InputsTold(l, t) && tx.id !in t.index
  {
  }

  lemma AgreeIsWellFormed(s: Indexes)
    requires Agree(s)
    ensures WellFormed(s.t)
  {
  }

  /** The transaction index of a chain holds exactly the rows of its transactions, each with its block, height, time and
      position, its inputs, and its outputs with the transaction that spent them. */
  lemma {:induction false} ChainTold(addr: AddressOf, bs: seq<Block>, first: nat)
    requires ReadyChain(addr, NO_INDEXES, bs, first)
    ensures Told(addr, ListChain(bs, first), IndexChain(addr, NO_INDEXES, bs, first).t)
    decreases |bs|
  {
    hide Told, Agree, ReadyTxs, IndexTxs, ListTxs;
    if bs == [] {
      NothingTold(addr);
    } else {
      var init, b := bs[..|bs| - 1], bs[|bs| - 1];
      ChainTold(addr, init, first);
      NothingAgrees();
      IndexChainAgrees(addr, NO_INDEXES, init, first);
      TxsTold(addr, ListChain(init, first), IndexChain(addr, NO_INDEXES, init, first), b, first + |init|, |b.txs|);
    }
  }

  lemma NothingTold(addr: AddressOf)
    ensures Told(addr, [], NO_INDEXES.t)
  {
  }

  /** Whoever is listed is a transaction of a block, at the height of that block and at its own position, and the other way round. */
  lemma {:induction false} ListedIs(bs: seq<Block>, first: nat, x: Listed)
    ensures x in ListChain(bs, first) <==>
            exists b: nat, j: nat :: b < |bs| && j < |bs[b].txs|
                                     && x == Listed(bs[b].txs[j], TxInfo(bs[b].hash, first + b, bs[b].time, j))
    decreases |bs|
  {
    if bs != [] {
      var init, last := bs[..|bs| - 1], bs[|bs| - 1];
      ListedIs(init, first, x);
      var own := ListTxs(last, first + |bs| - 1, |last.txs|);
      if x in own {
        var j: nat :| j < |own| && own[j] == x;
        assert x == Listed(bs[|bs| - 1].txs[j], TxInfo(bs[|bs| - 1].hash, first + (|bs| - 1), bs[|bs| - 1].time, j));
      }
      if x in ListChain(init, first) {
        var b: nat, j: nat :| b < |init| && j < |init[b].txs| && x == Listed(init[b].txs[j], TxInfo(init[b].hash, first + b, init[b].time, j));
        assert init[b] == bs[b];
      }
      if b: nat, j: nat :| b < |bs| && j < |bs[b].txs| && x == Listed(bs[b].txs[j], TxInfo(bs[b].hash, first + b, bs[b].time, j)) {
        if b < |init| {
          assert init[b] == bs[b];
        } else {
          assert own[j] == x;
        }
      }
    }
  }

  // ------------------------------------------------------------- the address rows

  /** The row of an address for an output of its own. */
  ghost predicate ReceivesTold(addr: AddressOf, l: seq<Listed>, rows: map<RowKey, Row>) {
    forall k: nat, n: nat :: k < |l| && n < |l[k].tx.vout| && addr(l[k].tx.vout[n].script) != "" ==>
      var key := RowKey(addr(l[k].tx.vout[n].script), l[k].tx.id, false, n);
      key in rows && rows[key] == Row(l[k].info.height, l[k].info.time, l[k].info.position, l[k].tx.vout[n].value)
  }

  /** The row of an address for an input that names an output of its own. */
  ghost predicate PaysTold(addr: AddressOf, l: seq<Listed>, rows: map<RowKey, Row>) {
    forall k: nat, i: nat, m: nat :: k < |l| && i < |l[k].tx.vin| && MakesHere(l, m, l[k].tx.vin[i].prev) ==>
      var out := l[m].tx.vout[l[k].tx.vin[i].prev.index];
      addr(out.script) != "" ==>
        var key := RowKey(addr(out.script), l[k].tx.id, true, i);
        key in rows && rows[key] == Row(l[k].info.height, l[k].info.time, l[k].info.position, out.value)
  }

  /** There are no other rows. */
  ghost predicate OnlyTheseTold(addr: AddressOf, l: seq<Listed>, rows: map<RowKey, Row>) {
    forall key :: key in rows ==>
      && key.address != ""
      && exists k: nat :: k < |l| && l[k].tx.id == key.txid &&
           if !key.isInput then key.io < |l[k].tx.vout| && addr(l[k].tx.vout[key.io].script) == key.address
           else key.io < |l[k].tx.vin| && exists m: nat :: MakesHere(l, m, l[k].tx.vin[key.io].prev)
                                                           && addr(l[m].tx.vout[l[k].tx.vin[key.io].prev.index].script) == key.address
  }

  lemma AddressRowsTold(addr: AddressOf, l: seq<Listed>, s: Indexes)
    requires Agree(s) && Told(addr, l, s.t)
    ensures ReceivesTold(addr, l, s.a.rows) && PaysTold(addr, l, s.a.rows) && OnlyTheseTold(addr, l, s.a.rows)
  {
    hide WellFormed, BalancesAre;
    var rows, t := s.a.rows, s.t;
    forall k: nat, n: nat | k < |l| && n < |l[k].tx.vout| && addr(l[k].tx.vout[n].script) != ""
      ensures var key := RowKey(addr(l[k].tx.vout[n].script), l[k].tx.id, false, n);
              key in rows && rows[key] == Row(l[k].info.height, l[k].info.time, l[k].info.position, l[k].tx.vout[n].value)
    {
      assert MakesHere(l, k, OutPoint(l[k].tx.id, n));
      assert KeyIn(t, RowKey(addr(l[k].tx.vout[n].script), l[k].tx.id, false, n));
    }
    forall k: nat, i: nat, m: nat | k < |l| && i < |l[k].tx.vin| && MakesHere(l, m, l[k].tx.vin[i].prev)
                                    && addr(l[m].tx.vout[l[k].tx.vin[i].prev.index].script) != ""
      ensures var out := l[m].tx.vout[l[k].tx.vin[i].prev.index];
              var key := RowKey(addr(out.script), l[k].tx.id, true, i);
              key in rows && rows[key] == Row(l[k].info.height, l[k].info.time, l[k].info.position, out.value)
    {
      var key := RowKey(addr(l[m].tx.vout[l[k].tx.vin[i].prev.index].script), l[k].tx.id, true, i);
      assert t.inputs[InKey(l[k].tx.id, i)] == l[k].tx.vin[i].prev;
      assert KeyIn(t, key);
    }
    forall key | key in rows
      ensures key.address != ""
      ensures exists k: nat :: k < |l| && l[k].tx.id == key.txid &&
                if !key.isInput then key.io < |l[k].tx.vout| && addr(l[k].tx.vout[key.io].script) == key.address
                else key.io < |l[k].tx.vin| && exists m: nat :: MakesHere(l, m, l[k].tx.vin[key.io].prev)
                                                                && addr(l[m].tx.vout[l[k].tx.vin[key.io].prev.index].script) == key.address
    {
      assert KeyIn(t, key);
      if !key.isInput {
        var k: nat :| MakesHere(l, k, OutPoint(key.txid, key.io));
      } else {
        var k :| 0 <= k < |l| && l[k].tx.id == key.txid && key.io < |l[k].tx.vin|;
        assert t.inputs[InKey(l[k].tx.id, key.io)] == l[k].tx.vin[key.io].prev;
        var m: nat :| MakesHere(l, m, l[k].tx.vin[key.io].prev);
      }
    }
  }

  /** After any chain that connects, both indexes hold exactly what its transactions say. */
  lemma ConnectedChainTold(addr: AddressOf, base: Tables, known: set<Id>, bs: seq<Block>, first: nat)
    requires CleanBase(base, known) && FreshChain(known, bs) && Replay(base, bs, first).ok
    requires NULL_OUTPOINT.txid !in known + ChainIds(bs)
    ensures var l, s := ListChain(bs, first), IndexChain(addr, NO_INDEXES, bs, first);
            && Told(addr, l, s.t)
            && ReceivesTold(addr, l, s.a.rows) && PaysTold(addr, l, s.a.rows) && OnlyTheseTold(addr, l, s.a.rows)
  {
    hide Told, Agree, ReadyChain, Tracks, CleanBase, FreshChain, Replay, IndexTxs, ChainIds, ReceivesTold, PaysTold, OnlyTheseTold;
    ReplayIsReady(addr, base, known, bs, first);
    NothingAgrees();
    IndexChainAgrees(addr, NO_INDEXES, bs, first);
    ChainTold(addr, bs, first);
    AddressRowsTold(addr, ListChain(bs, first), IndexChain(addr, NO_INDEXES, bs, first));
  }

  /** The rows that a balance adds up: outputs of the address that no input names, in transactions with enough confirmations. */
  lemma ConfirmedExactly(t: TxTables, a: string, bestHeight: int, minConf: int, o: OutPoint)
    requires WellFormed(t)
    ensures o in ConfirmedOf(t, a, bestHeight, minConf) <==>
            && o in t.outputs && t.outputs[o].address == a && (forall k :: k in t.inputs ==> t.inputs[k] != o)
            && o.txid in t.index && t.index[o.txid].height + minConf <= bestHeight + 1
    ensures o in ConfirmedOf(t, a, bestHeight, minConf) ==> ConfirmedOf(t, a, bestHeight, minConf)[o] == t.outputs[o].value
  {
    assert o in t.inputs.Values <==> exists k :: k in t.inputs && t.inputs[k] == o;
  }
}
