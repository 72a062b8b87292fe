/** The audit of the coin table against a replay from height 0, and the reindexer
    that rebuilds the table.  The reference for both is a fold over coins alone,
    which is shown to agree with what connecting blocks does. */
module Audit {
  import opened Ledger
  import opened ChainIndex
  import opened ReorgSpec
  import opened BlockConnection
  import opened NodeSpec
  import opened BranchLedger

  type Coins = map<OutPoint, Coin>

  /** The coins left after the first n inputs were spent; None as soon as one is missing. */
  function Pop(coins: Coins, tx: Tx, n: nat): Option<Coins>
    requires n <= |tx.vin|
    decreases n
  {
    if n == 0 then Some(coins)
    else
      match Pop(coins, tx, n - 1)
      case None => None
      case Some(c) => if tx.vin[n - 1].prev in c then Some(c - {tx.vin[n - 1].prev}) else None
  }

  function CoinsTx(coins: Coins, tx: Tx, height: nat): Option<Coins> {
    match if tx.IsCoinbase() then Some(coins) else Pop(coins, tx, |tx.vin|)
    case None => None
    case Some(c) => Some(c + tx.Coins(height, |tx.vout|))
  }

  /** The coins after the first n transactions. */
  function CoinsTxs(coins: Coins, txs: seq<Tx>, height: nat, n: nat): Option<Coins>
    requires n <= |txs|
    decreases n
  {
    if n == 0 then Some(coins)
    else
      match CoinsTxs(coins, txs, height, n - 1)
      case None => None
      case Some(c) => CoinsTx(c, txs[n - 1], height)
  }

  function BlockAt(ix: Index, blocks: map<Id, Block>, height: nat): Option<Block> {
    if height in ix.heights && ix.heights[height] in ix.entries && ix.heights[height] in blocks
    then Some(blocks[ix.heights[height]]) else None
  }

  /** The coins after the blocks that the height map shows at 0..n-1; None when a block or a spent coin is missing. */
  function Rebuilt(ix: Index, blocks: map<Id, Block>, n: nat): Option<Coins>
    decreases n
  {
    if n == 0 then Some(map[])
    else
      match Rebuilt(ix, blocks, n - 1)
      case None => None
      case Some(c) =>
        match BlockAt(ix, blocks, n - 1)
        case None => None
        case Some(b) => CoinsTxs(c, b.txs, n - 1, |b.txs|)
  }

  // The rows that the inputs of one transaction, of several, and of the blocks at 0..n-1 mark as spent.
  function TxMarks(marks: map<OutPoint, Mark>, tx: Tx, n: nat): map<OutPoint, Mark>
    requires n <= |tx.vin|
    decreases n
  {
    if n == 0 then marks
    else SetMark(TxMarks(marks, tx, n - 1), tx.vin[n - 1].prev, Mark(true, Some(tx.id), Some(n - 1)))
  }

  function TxsMarks(marks: map<OutPoint, Mark>, txs: seq<Tx>, n: nat): map<OutPoint, Mark>
    requires n <= |txs|
    decreases n
  {
    if n == 0 then marks
    else
      var m, tx := TxsMarks(marks, txs, n - 1), txs[n - 1];
      if tx.IsCoinbase() then m else TxMarks(m, tx, |tx.vin|)
  }

  function RebuiltMarks(marks: map<OutPoint, Mark>, ix: Index, blocks: map<Id, Block>, n: nat): map<OutPoint, Mark>
    decreases n
  {
    if n == 0 then map o | o in marks :: CLEAN
    else
      match BlockAt(ix, blocks, n - 1)
      case None => RebuiltMarks(marks, ix, blocks, n - 1)
      case Some(b) => TxsMarks(RebuiltMarks(marks, ix, blocks, n - 1), b.txs, |b.txs|)
  }

  // ------------------------------------------------------------------- the audit

  datatype Mismatch =
    | MissingBlock(height: nat)
    | MissingSpent(o: OutPoint, height: nat)
    | MissingUtxo(o: OutPoint)
    | UnexpectedUtxo(o: OutPoint)
    | FieldMismatch(o: OutPoint)

  datatype Report = Report(ok: bool, mismatches: seq<Mismatch>)

  lemma SomeOutPoint(s: set<OutPoint>)
    ensures s == {} || exists o :: o in s
  {
    if forall o :: o !in s {
      assert s == {};
    }
  }

  /** Reports these outpoints until the limit is reached. */
  method Note(found: seq<Mismatch>, keys: set<OutPoint>, kind: OutPoint -> Mismatch, limit: int) returns (r: seq<Mismatch>)
    ensures |r| >= |found| && (|r| == |found| <==> keys == {})
    ensures keys == {} ==> r == found
  {
    r := found;
    var todo := keys;
    while todo != {}
      invariant todo <= keys && (todo == keys ==> r == found) && (todo != keys ==> |r| > |found|)
      decreases |todo|
    {
      SomeOutPoint(todo);
      var o :| o in todo;
      r := r + [kind(o)];
      todo := todo - {o};
      if |r| >= limit {
        return;
      }
    }
  }

  /** Applies one transaction to the expected coins, reporting the spent outpoints that are missing. */
  method AuditTx(coins: Coins, tx: Tx, height: nat, found: seq<Mismatch>, limit: int)
    returns (expected: Coins, r: seq<Mismatch>, stop: bool)
    ensures |r| >= |found| && (|r| == |found| <==> CoinsTx(coins, tx, height).Some?)
    ensures |r| == |found| ==> r == found && !stop && CoinsTx(coins, tx, height) == Some(expected)
  {
    hide Tx.Coins;
    expected, r, stop := coins, found, false;
    if !tx.IsCoinbase() {
      for i := 0 to |tx.vin|
        invariant |r| >= |found| && (|r| == |found| <==> Pop(coins, tx, i).Some?)
        invariant |r| == |found| ==> r == found && Pop(coins, tx, i) == Some(expected)
      {
        var prev := tx.vin[i].prev;
        if prev !in expected {
          r := r + [MissingSpent(prev, height)];
          if |r| >= limit {
            stop := true;
            PopStops(coins, tx, i + 1, |tx.vin|);
            return;
          }
        } else {
          expected := expected - {prev};
        }
      }
    }
    ghost var spent := expected;
    CoinsNone(tx, height);
    assert spent + map[] == spent;
    for i := 0 to |tx.vout|
      invariant expected == spent + tx.Coins(height, i)
    {
      CoinsNext(tx, height, i);
      if !Unspendable(tx.vout[i].script) {
        expected := expected[OutPoint(tx.id, i) := Coin(tx.vout[i].value, tx.vout[i].script, height, tx.IsCoinbase())];
      }
    }
  }

  lemma {:induction false} PopStops(coins: Coins, tx: Tx, n: nat, m: nat)
    requires n <= m <= |tx.vin| && Pop(coins, tx, n).None?
    ensures Pop(coins, tx, m).None?
    decreases m
  {
    if n < m {
      PopStops(coins, tx, n, m - 1);
    }
  }

  lemma {:induction false} CoinsTxsStop(coins: Coins, txs: seq<Tx>, height: nat, n: nat, m: nat)
    requires n <= m <= |txs| && CoinsTxs(coins, txs, height, n).None?
    ensures CoinsTxs(coins, txs, height, m).None?
    decreases m
  {
    if n < m {
      CoinsTxsStop(coins, txs, height, n, m - 1);
    }
  }

  lemma {:induction false} RebuiltStops(ix: Index, blocks: map<Id, Block>, n: nat, m: nat)
    requires n <= m && Rebuilt(ix, blocks, n).None?
    ensures Rebuilt(ix, blocks, m).None?
    decreases m
  {
    hide CoinsTxs;
    if n < m {
      RebuiltStops(ix, blocks, n, m - 1);
    }
  }

  method AuditTxs(coins: Coins, txs: seq<Tx>, height: nat, found: seq<Mismatch>, limit: int)
    returns (expected: Coins, r: seq<Mismatch>, stop: bool)
    ensures |r| >= |found| && (|r| == |found| <==> CoinsTxs(coins, txs, height, |txs|).Some?)
    ensures |r| == |found| ==> r == found && !stop && CoinsTxs(coins, txs, height, |txs|) == Some(expected)
  {
    hide CoinsTx;
    expected, r, stop := coins, found, false;
    for k := 0 to |txs|
      invariant |r| >= |found| && (|r| == |found| <==> CoinsTxs(coins, txs, height, k).Some?)
      invariant |r| == |found| ==> r == found && CoinsTxs(coins, txs, height, k) == Some(expected)
    {
      expected, r, stop := AuditTx(expected, txs[k], height, r, limit);
      if stop {
        CoinsTxsStop(coins, txs, height, k + 1, |txs|);
        return;
      }
    }
    stop := false;
  }

  /** Replays the active chain and compares the coins with the table.  The verdict is ok exactly when every block is
      there, every replayed spend finds its coin and the table is what the replay gives; with a limit below 1 the
      surplus rows and the fields are not looked at. */
  method VerifyActiveChain(ix: Index, blocks: map<Id, Block>, bestHeight: int, table: Coins, limit: int) returns (r: Report)
    ensures bestHeight < 0 ==> r.ok
    ensures bestHeight >= 0 ==>
              (r.ok <==> && Rebuilt(ix, blocks, bestHeight + 1).Some?
                         && var expected := Rebuilt(ix, blocks, bestHeight + 1).value;
                         if limit >= 1 then table == expected else expected.Keys <= table.Keys)
    ensures r.ok <==> r.mismatches == []
  {
    hide CoinsTxs, BlockAt;
    if bestHeight < 0 {
      return Report(true, []);
    }
    var expected: Coins, found: seq<Mismatch> := map[], [];
    for height := 0 to bestHeight + 1
      invariant found == [] <==> Rebuilt(ix, blocks, height).Some?
      invariant found == [] ==> Rebuilt(ix, blocks, height) == Some(expected)
    {
      var block := BlockAt(ix, blocks, height);
      if block.None? {
        RebuiltStops(ix, blocks, height + 1, bestHeight + 1);
        return Report(false, [MissingBlock(height)]);
      }
      var stop;
      expected, found, stop := AuditTxs(expected, block.value.txs, height, found, limit);
      if stop {
        RebuiltStops(ix, blocks, height + 1, bestHeight + 1);
        return Report(false, found);
      }
    }
    var keys := expected.Keys - table.Keys;
    found := Note(found, keys, o => MissingUtxo(o), limit);
    if |found| < limit {
      found := Note(found, table.Keys - expected.Keys, o => UnexpectedUtxo(o), limit);
    }
    if |found| < limit {
      var differing := set o | o in expected && o in table && expected[o] != table[o];
      found := Note(found, differing, o => FieldMismatch(o), limit);
      if differing == {} {
        assert forall o :: o in expected && o in table && expected[o] != table[o] ==> o in differing;
      }
    }
    KeysApart(expected, table);
    return Report(found == [], found);
  }

  lemma KeysApart(expected: Coins, table: Coins)
    ensures expected.Keys - table.Keys == {} <==> expected.Keys <= table.Keys
    ensures table.Keys - expected.Keys == {} <==> table.Keys <= expected.Keys
    ensures expected == table <==>
            && expected.Keys - table.Keys == {} && table.Keys - expected.Keys == {}
            && (set o | o in expected && o in table && expected[o] != table[o]) == {}
  {
    var differing := set o | o in expected && o in table && expected[o] != table[o];
    if expected.Keys - table.Keys == {} {
      assert forall o :: o in expected.Keys && o !in table.Keys ==> o in expected.Keys - table.Keys;
    }
    if table.Keys - expected.Keys == {} {
      assert forall o :: o in table.Keys && o !in expected.Keys ==> o in table.Keys - expected.Keys;
    }
    if differing == {} {
      assert forall o :: o in expected && o in table && expected[o] != table[o] ==> o in differing;
    }
  }

  // --------------------------------------------------------------- the reindexer

  predicate NoNegative(coins: Coins) {
    forall o :: o in coins ==> coins[o].value >= 0
  }

  class Reindexer {
    const db: Database
    var isReindexing: bool

    constructor (db: Database)
      ensures this.db == db && !isReindexing
    {
      this.db, isReindexing := db, false;
    }

    method ReindexTx(tx: Tx, height: nat) returns (ok: bool)
      modifies db`utxo, db`marks
      ensures ok == CoinsTx(old(db.utxo), tx, height).Some?
      ensures ok ==> db.utxo == CoinsTx(old(db.utxo), tx, height).value
      ensures ok ==> db.marks == if tx.IsCoinbase() then old(db.marks) else TxMarks(old(db.marks), tx, |tx.vin|)
    {
      hide Tx.Coins;
      ghost var start, marks := db.utxo, db.marks;
      if !tx.IsCoinbase() {
        for i := 0 to |tx.vin|
          invariant Pop(start, tx, i) == Some(db.utxo) && db.marks == TxMarks(marks, tx, i)
        {
          ok := db.SpendUtxo(tx.vin[i].prev, tx.id, i);
          if !ok {
            PopStops(start, tx, i + 1, |tx.vin|);
            return;
          }
        }
      }
      ghost var spent, marked := db.utxo, db.marks;
      CoinsNone(tx, height);
      assert spent + map[] == spent;
      for i := 0 to |tx.vout|
        invariant db.utxo == spent + tx.Coins(height, i) && db.marks == marked
      {
        CoinsNext(tx, height, i);
        if !Unspendable(tx.vout[i].script) {
          db.AddUtxo(OutPoint(tx.id, i), Coin(tx.vout[i].value, tx.vout[i].script, height, tx.IsCoinbase()));
        }
      }
      return true;
    }

    method ReindexBlock(b: Block, height: nat) returns (ok: bool)
      modifies db`utxo, db`marks
      ensures ok == CoinsTxs(old(db.utxo), b.txs, height, |b.txs|).Some?
      ensures ok ==> db.utxo == CoinsTxs(old(db.utxo), b.txs, height, |b.txs|).value
      ensures ok ==> db.marks == TxsMarks(old(db.marks), b.txs, |b.txs|)
    {
      hide CoinsTx, TxMarks;
      ghost var start, marks := db.utxo, db.marks;
      for k := 0 to |b.txs|
        invariant CoinsTxs(start, b.txs, height, k) == Some(db.utxo) && db.marks == TxsMarks(marks, b.txs, k)
      {
        ok := ReindexTx(b.txs[k], height);
        if !ok {
          CoinsTxsStop(start, b.txs, height, k + 1, |b.txs|);
          return;
        }
      }
      ok := true;
    }

    /** The rebuild inside its transaction: clears coins and marks, then replays. */
    method Rebuild(ix: Index, blocks: map<Id, Block>, endHeight: nat) returns (ok: bool)
      modifies db`utxo, db`marks
      ensures ok == Rebuilt(ix, blocks, endHeight + 1).Some?
      ensures ok ==> db.utxo == Rebuilt(ix, blocks, endHeight + 1).value
      ensures ok ==> db.marks == RebuiltMarks(old(db.marks), ix, blocks, endHeight + 1)
    {
      hide CoinsTxs, BlockAt, TxsMarks;
      ghost var marks := db.marks;
      db.utxo := map[];
      db.marks := map o | o in db.marks :: CLEAN;
      for height := 0 to endHeight + 1
        invariant Rebuilt(ix, blocks, height) == Some(db.utxo) && db.marks == RebuiltMarks(marks, ix, blocks, height)
      {
        var block := BlockAt(ix, blocks, height);
        ok := block.Some?;
        if ok {
          ok := ReindexBlock(block.value, height);
        }
        if !ok {
          RebuiltStops(ix, blocks, height + 1, endHeight + 1);
          return;
        }
      }
      ok := true;
    }

    /** A run succeeds exactly when every block and every spent coin is there and no rebuilt coin is negative; the
        table is then the rebuilt one, whatever it was.  A failure inside the rebuild's own transaction leaves coins
        and marks as they were. */
    method Run(ix: Index, blocks: map<Id, Block>, endHeight: int) returns (ok: bool)
      modifies this, db
      ensures ok <==> && endHeight >= 0 && Rebuilt(ix, blocks, endHeight + 1).Some?
                      && NoNegative(Rebuilt(ix, blocks, endHeight + 1).value)
      ensures endHeight >= 0 && Rebuilt(ix, blocks, endHeight + 1).Some? ==>
                && db.utxo == Rebuilt(ix, blocks, endHeight + 1).value
                && db.marks == RebuiltMarks(old(db.marks), ix, blocks, endHeight + 1)
      ensures endHeight >= 0 && Rebuilt(ix, blocks, endHeight + 1).None? && !old(db.inTransaction) ==>
                db.utxo == old(db.utxo) && db.marks == old(db.marks)
      ensures db.undo == old(db.undo) && db.txids == old(db.txids)
      ensures db.inTransaction == old(db.inTransaction) && !isReindexing
    {
      hide Rebuilt, RebuiltMarks;
      isReindexing := true;
      if endHeight < 0 {
        isReindexing := false;
        return false;
      }
      var scope := db.Begin();
      ok := Rebuild(ix, blocks, endHeight);
      db.End(scope, ok);
      ok := ok && NoNegative(db.utxo);
      isReindexing := false;
    }

    /** After a successful run to the tip the audit finds nothing, at any limit. */
    method RunAndAudit(ix: Index, blocks: map<Id, Block>, endHeight: int, limit: int) returns (ok: bool, r: Report)
      modifies this, db
      ensures ok ==> r.ok
    {
      hide Rebuilt;
      ok := Run(ix, blocks, endHeight);
      r := VerifyActiveChain(ix, blocks, endHeight, db.utxo, limit);
    }
  }

  // ------------------------------------ the fold agrees with connecting blocks

  lemma {:induction false} PopIsSpend(t: Tables, block: Id, tx: Tx, n: nat)
    requires n <= |tx.vin|
    ensures var s := Spend(t, block, tx, n);
            s.ok == Pop(t.utxo, tx, n).Some? && (s.ok ==> s.tables.utxo == Pop(t.utxo, tx, n).value)
    decreases n
  {
    if n > 0 {
      PopIsSpend(t, block, tx, n - 1);
    }
  }

  /** Connecting transactions succeeds exactly when the fold does, and leaves its coins. */
  lemma {:induction false} FoldIsConnect(t: Tables, block: Id, height: nat, txs: seq<Tx>)
    ensures var s, c := ConnectTxs(t, block, height, txs), CoinsTxs(t.utxo, txs, height, |txs|);
            s.ok == c.Some? && (s.ok ==> s.tables.utxo == c.value)
    decreases |txs|
  {
    if txs != [] {
      hide Spend, Pop;
      var init, last := txs[..|txs| - 1], txs[|txs| - 1];
      FoldIsConnect(t, block, height, init);
      FoldPrefix(t.utxo, txs, init, height, |txs| - 1);
      if ConnectTxs(t, block, height, init).ok && !last.IsCoinbase() {
        PopIsSpend(ConnectTxs(t, block, height, init).tables, block, last, |last.vin|);
      }
    }
  }

  lemma {:induction false} FoldPrefix(coins: Coins, txs: seq<Tx>, init: seq<Tx>, height: nat, n: nat)
    requires n <= |init| <= |txs| && init == txs[..|init|]
    ensures CoinsTxs(coins, init, height, n) == CoinsTxs(coins, txs, height, n)
    decreases n
  {
    hide CoinsTx;
    if n > 0 {
      FoldPrefix(coins, txs, init, height, n - 1);
    }
  }

  lemma {:induction false} MarksAreSpent(t: Tables, block: Id, tx: Tx, n: nat)
    requires n <= |tx.vin| && Spend(t, block, tx, n).ok
    ensures Spend(t, block, tx, n).tables.marks == TxMarks(t.marks, tx, n)
    decreases n
  {
    if n > 0 {
      MarksAreSpent(t, block, tx, n - 1);
    }
  }

  /** Connecting transactions marks the rows that the rebuild marks. */
  lemma {:induction false} MarksAreConnected(t: Tables, block: Id, height: nat, txs: seq<Tx>)
    requires ConnectTxs(t, block, height, txs).ok
    ensures ConnectTxs(t, block, height, txs).tables.marks == TxsMarks(t.marks, txs, |txs|)
    decreases |txs|
  {
    if txs != [] {
      hide Spend, TxMarks;
      var init, last := txs[..|txs| - 1], txs[|txs| - 1];
      MarksAreConnected(t, block, height, init);
      MarksPrefix(t.marks, txs, init, |txs| - 1);
      if !last.IsCoinbase() {
        MarksAreSpent(ConnectTxs(t, block, height, init).tables, block, last, |last.vin|);
      }
    }
  }

  lemma {:induction false} MarksPrefix(marks: map<OutPoint, Mark>, txs: seq<Tx>, init: seq<Tx>, n: nat)
    requires n <= |init| <= |txs| && init == txs[..|init|]
    ensures TxsMarks(marks, init, n) == TxsMarks(marks, txs, n)
    decreases n
  {
    hide TxMarks;
    if n > 0 {
      MarksPrefix(marks, txs, init, n - 1);
    }
  }

  /** Where the chain from height 0 connects, the rebuild gives the coins and marks that connecting it gives. */
  lemma {:induction false} RebuiltIsReplay(marks: map<OutPoint, Mark>, ix: Index, blocks: map<Id, Block>, bs: seq<Block>)
    requires FreshChain({}, bs) && (forall h: nat :: h < |bs| ==> BlockAt(ix, blocks, h) == Some(bs[h]))
    requires Replay(Tables(map[], map[], map o | o in marks :: CLEAN), bs, 0).ok
    ensures var t := Replay(Tables(map[], map[], map o | o in marks :: CLEAN), bs, 0).tables;
            Rebuilt(ix, blocks, |bs|) == Some(t.utxo) && RebuiltMarks(marks, ix, blocks, |bs|) == t.marks
    decreases |bs|
  {
    hide Connect, ConnectTxs, CoinsTxs, TxsMarks, BlockAt, FreshChain;
    var base := Tables(map[], map[], map o | o in marks :: CLEAN);
    if bs != [] {
      var init, last := bs[..|bs| - 1], bs[|bs| - 1];
      assert bs == init + [last];
      ReplaySnoc(base, init, last, 0);
      NextIsFresh(init, last, {});
      RebuiltIsReplay(marks, ix, blocks, init);
      ReplayTidy(base, init, 0, {});
      var t := Replay(base, init, 0).tables;
      TidyConnect(base, {}, init, last, t, |init|);
      ConnectCoins(t, last, |init|);
      ConnectSettled(t, last, |init|);
      MarksAreConnected(t.(undo := DropUndo(t.undo, last.hash)), last.hash, |init|, last.txs);
    }
  }

  /** What a rebuild leaves is told from the blocks alone. */
  lemma RebuiltIsLedger(marks: map<OutPoint, Mark>, ix: Index, blocks: map<Id, Block>, bs: seq<Block>)
    requires FreshChain({}, bs) && (forall h: nat :: h < |bs| ==> BlockAt(ix, blocks, h) == Some(bs[h]))
    requires Replay(Tables(map[], map[], map o | o in marks :: CLEAN), bs, 0).ok
    ensures Rebuilt(ix, blocks, |bs|).Some?
    ensures LedgerOf(map[], bs, 0, Tables(Rebuilt(ix, blocks, |bs|).value, map[], RebuiltMarks(marks, ix, blocks, |bs|)))
  {
    hide Replay, Rebuilt, RebuiltMarks, FreshChain, BlockAt, MadeOn, SpentOn;
    RebuiltIsReplay(marks, ix, blocks, bs);
    ReplayIsLedger(Tables(map[], map[], map o | o in marks :: CLEAN), {}, bs, 0);
  }

  // ------------------------------------------- coins that a chain does not touch

  lemma {:induction false} PopFrame(coins: Coins, extra: Coins, tx: Tx, n: nat)
    requires n <= |tx.vin| && coins.Keys !! extra.Keys && Pop(coins, tx, n).Some?
    ensures Pop(coins + extra, tx, n) == Some(Pop(coins, tx, n).value + extra)
    ensures Pop(coins, tx, n).value.Keys <= coins.Keys
    decreases n
  {
    if n > 0 {
      PopFrame(coins, extra, tx, n - 1);
      var c, o := Pop(coins, tx, n - 1).value, tx.vin[n - 1].prev;
      assert (c + extra) - {o} == (c - {o}) + extra;
    }
  }

  lemma CoinsTxFrame(coins: Coins, extra: Coins, tx: Tx, height: nat)
    requires coins.Keys !! extra.Keys && CoinsTx(coins, tx, height).Some?
    requires forall o :: o in extra ==> o.txid != tx.id
    ensures CoinsTx(coins + extra, tx, height) == Some(CoinsTx(coins, tx, height).value + extra)
    ensures CoinsTx(coins, tx, height).value.Keys !! extra.Keys
  {
    hide Pop;
    CoinsProvenance(tx, height);
    var made := tx.Coins(height, |tx.vout|);
    var c := if tx.IsCoinbase() then coins else Pop(coins, tx, |tx.vin|).value;
    if !tx.IsCoinbase() {
      PopFrame(coins, extra, tx, |tx.vin|);
    }
    assert made.Keys !! extra.Keys;
    assert (c + extra) + made == (c + made) + extra;
  }

  lemma {:induction false} CoinsTxsFrame(coins: Coins, extra: Coins, txs: seq<Tx>, height: nat, n: nat)
    requires n <= |txs| && coins.Keys !! extra.Keys && CoinsTxs(coins, txs, height, n).Some?
    requires forall o, i :: o in extra && 0 <= i < n ==> o.txid != txs[i].id
    ensures CoinsTxs(coins + extra, txs, height, n) == Some(CoinsTxs(coins, txs, height, n).value + extra)
    ensures CoinsTxs(coins, txs, height, n).value.Keys !! extra.Keys
    decreases n
  {
    if n > 0 {
      hide CoinsTx;
      CoinsTxsFrame(coins, extra, txs, height, n - 1);
      CoinsTxFrame(CoinsTxs(coins, txs, height, n - 1).value, extra, txs[n - 1], height);
    }
  }

  // ---------------------------------------------------------- audits of real nodes

  /** The coins of the block at height 0, as a replay from height 0 makes them. */
  function GenesisCoins(g: Block): Option<Coins> {
    CoinsTxs(map[], g.txs, 0, |g.txs|)
  }

  lemma {:induction false} RebuiltAbove(base: Tables, ix: Index, blocks: map<Id, Block>, branch: seq<Id>, extra: Coins, n: nat)
    requires 1 <= n <= |branch| && Known(ix.entries, branch)
    requires ix.heights == HeightsView(branch) && AllIn(blocks, branch)
    requires GenesisCoins(blocks[branch[0]]) == Some(extra)
    requires base.utxo == map[] && Replay(base, Bodies(blocks, branch[1..n]), 1).ok
    requires forall o, i :: o in extra && 1 <= i < n ==> o.txid !in Ids(blocks[branch[i]].txs)
    ensures var coins := Replay(base, Bodies(blocks, branch[1..n]), 1).tables.utxo;
            coins.Keys !! extra.Keys && Rebuilt(ix, blocks, n) == Some(coins + extra)
    decreases n
  {
    hide CoinsTxs, Connect;
    assert BlockAt(ix, blocks, n - 1) == Some(blocks[branch[n - 1]]);
    if n == 1 {
      assert Bodies(blocks, branch[1..1]) == [];
      assert Rebuilt(ix, blocks, 0) == Some(map[]);
      assert Replay(base, [], 1).tables.utxo + extra == extra;
    } else {
      var b := blocks[branch[n - 1]];
      assert branch[1..n] == branch[1..n - 1] + [branch[n - 1]];
      BodiesSnoc(blocks, branch[1..n - 1], branch[n - 1]);
      ReplaySnoc(base, Bodies(blocks, branch[1..n - 1]), b, 1);
      RebuiltAbove(base, ix, blocks, branch, extra, n - 1);
      var t := Replay(base, Bodies(blocks, branch[1..n - 1]), 1).tables;
      ConnectCoins(t, b, n - 1);
      forall o, i | o in extra && 0 <= i < |b.txs|
        ensures o.txid != b.txs[i].id
      {
        assert b.txs[i].id in Ids(b.txs);
      }
      CoinsTxsFrame(t.utxo, extra, b.txs, n - 1, |b.txs|);
    }
  }

  lemma ConnectCoins(t: Tables, b: Block, height: nat)
    requires Connect(t, b, height).ok
    ensures CoinsTxs(t.utxo, b.txs, height, |b.txs|) == Some(Connect(t, b, height).tables.utxo)
  {
    hide ConnectTxs, CoinsTxs;
    FoldIsConnect(t.(undo := DropUndo(t.undo, b.hash)), b.hash, height, b.txs);
  }

  /** The verdict of an audit at limit 1 or more. */
  predicate AuditOk(s: Node) {
    s.bestHeight >= 0 ==> Rebuilt(s.live.index, s.blocks, s.bestHeight + 1) == Some(s.live.tables.utxo)
  }

  /** A node that started without coins passes the audit exactly when the block at height 0 is on file and makes no
      coin that a replay would keep: on_block never connects height 0, but the audit replays it.  So the canonical
      chain, whose height 0 is a bare header, and a fresh regtest chain, whose coinbase there has an output, never do. */
  lemma AuditOfNode(env: Env, known: set<Id>, s: Node)
    requires NodeInv(env, map[], known, s)
    ensures var root := s.live.index.heights;
            0 in root && (AuditOk(s) <==> root[0] in s.blocks && GenesisCoins(s.blocks[root[0]]) == Some(map[]))
  {
    hide NodeInv, Rooted, Linked, Chain, Replay, Flagged, Rebuilt, BlockAt;
    var es, ix := s.live.index.entries, s.live.index;
    InvOnActiveBranch(env, map[], known, s);
    var branch, base := Chain(es, s.best), BaseOf(map[], s.live.tables);
    assert ix.heights[0] == branch[0];
    ChainIsBranch(es, s.best);
    if branch[0] !in s.blocks {
      NoGenesis(ix, s.blocks, |branch|);
    } else {
      var g := s.blocks[branch[0]];
      assert AllIn(s.blocks, branch) by {
        assert forall i :: 1 <= i < |branch| ==> branch[i] == branch[1..][i - 1];
      }
      assert branch[1..|branch|] == branch[1..];
      if GenesisCoins(g) == None {
        BadGenesis(ix, s.blocks, |branch|);
      } else {
        var extra := GenesisCoins(g).value;
        ExtraApart(env, known, s, branch, extra);
        RebuiltAbove(base, ix, s.blocks, branch, extra, |branch|);
        ExtraShows(s.live.tables.utxo, extra);
      }
    }
  }

  lemma ExtraShows(coins: Coins, extra: Coins)
    requires coins.Keys !! extra.Keys
    ensures coins + extra == coins <==> extra == map[]
  {
    if coins + extra == coins {
      assert (coins + extra).Keys == coins.Keys + extra.Keys;
      assert forall o :: o !in extra.Keys;
      assert extra.Keys == {};
    }
  }

  lemma NoGenesis(ix: Index, blocks: map<Id, Block>, n: nat)
    requires n >= 1 && 0 in ix.heights && ix.heights[0] !in blocks
    ensures Rebuilt(ix, blocks, n).None?
  {
    RebuiltStops(ix, blocks, 1, n);
  }

  lemma BadGenesis(ix: Index, blocks: map<Id, Block>, n: nat)
    requires n >= 1 && 0 in ix.heights && ix.heights[0] in blocks && GenesisCoins(blocks[ix.heights[0]]).None?
    ensures Rebuilt(ix, blocks, n).None?
  {
    assert Rebuilt(ix, blocks, 0) == Some(map[]);
    RebuiltStops(ix, blocks, 1, n);
  }

  lemma {:induction false} CoinsTxsIds(coins: Coins, txs: seq<Tx>, height: nat, n: nat)
    requires n <= |txs| && CoinsTxs(coins, txs, height, n).Some?
    ensures forall o :: o in CoinsTxs(coins, txs, height, n).value ==> o in coins || o.txid in Ids(txs)
    decreases n
  {
    if n > 0 {
      CoinsTxsIds(coins, txs, height, n - 1);
      var c, tx := CoinsTxs(coins, txs, height, n - 1).value, txs[n - 1];
      CoinsProvenance(tx, height);
      assert tx.id in Ids(txs);
      if !tx.IsCoinbase() {
        PopFrame(c, map[], tx, |tx.vin|);
      }
    }
  }

  lemma ExtraApart(env: Env, known: set<Id>, s: Node, branch: seq<Id>, extra: Coins)
    requires NodeInv(env, map[], known, s) && Linked(s.live.index.entries)
    requires branch == Chain(s.live.index.entries, s.best) && branch != [] && AllIn(s.blocks, branch)
    requires GenesisCoins(s.blocks[branch[0]]) == Some(extra)
    ensures forall o, i :: o in extra && 1 <= i < |branch| ==> o.txid !in Ids(s.blocks[branch[i]].txs)
  {
    hide Rooted, Linked, Replay, Flagged, Chain, Vetted, CoinsTxs, Ids, DistinctIds;
    var es, g := s.live.index.entries, s.blocks[branch[0]];
    ChainIsBranch(es, s.best);
    BranchNoRepeats(es, branch);
    CoinsTxsIds(map[], g.txs, 0, |g.txs|);
    forall o, i | o in extra && 1 <= i < |branch|
      ensures o.txid !in Ids(s.blocks[branch[i]].txs)
    {
      assert branch[0] != branch[i];
      assert Ids(g.txs) !! Ids(s.blocks[branch[i]].txs);
    }
  }

  /** A fresh regtest directory: its block at height 0 is written to the store, but not connected. */
  function RegtestNode(g: Block, work: nat): Node {
    var w := WriteTxs({}, g.txs, |g.txs|);
    var s := FreshNode(g, work);
    s.(blocks := map[g.hash := g], txids := w.txids, live := s.live.(tables := Tables(map[], map[], w.rows)))
  }

  lemma RegtestNodeInv(env: Env, g: Block, work: nat)
    requires g.prev == NULL_HASH && g.hash != NULL_HASH && WriteTxs({}, g.txs, |g.txs|).ok
    ensures NodeInv(env, map[], {}, RegtestNode(g, work))
  {
    hide WriteTxs;
    WriteShape({}, g.txs, |g.txs|);
    assert g.txs[..|g.txs|] == g.txs;
    FreshNodeInv(env, g, work);
    var s, f := RegtestNode(g, work), FreshNode(g, work);
    assert s.live.index == f.live.index;
    var branch := Chain(f.live.index.entries, g.hash);
    assert branch == Chain(f.live.index.entries, g.prev) + [g.hash];
    assert Chain(f.live.index.entries, g.prev) == [];
    assert branch[1..] == [];
    assert Bodies(s.blocks, branch[1..]) == [];
    assert BaseOf(map[], s.live.tables) == s.live.tables;
  }

  /** The block written there has one coinbase with one output, so the audit of the fresh node already fails. */
  lemma RegtestFailsAudit(env: Env, g: Block, work: nat)
    requires g.prev == NULL_HASH && g.hash != NULL_HASH
    requires |g.txs| == 1 && g.txs[0].IsCoinbase() && |g.txs[0].vout| == 1 && g.txs[0].vout[0].script == []
    ensures NodeInv(env, map[], {}, RegtestNode(g, work)) && !AuditOk(RegtestNode(g, work))
  {
    var tx := g.txs[0];
    assert WriteTxs({}, g.txs, 0).ok;
    RegtestNodeInv(env, g, work);
    AuditOfNode(env, {}, RegtestNode(g, work));
    assert CoinsTxs(map[], g.txs, 0, 0) == Some(map[]);
    assert OutPoint(tx.id, 0) in tx.Coins(0, 1);
    assert OutPoint(tx.id, 0) in GenesisCoins(g).value;
  }
}
