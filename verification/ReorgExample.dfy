/** A concrete switch that fails inside a transaction which was open already: the index is
    restored, but the coins of the disconnected block stay away until someone rolls back. */
module ReorgExample {
  import opened Ledger
  import opened ChainIndex
  import opened ReorgSpec
  import opened SwitchRules

  const COINBASE := Tx(10, 1, [TxIn(NULL_OUTPOINT, [], 0)], [TxOut(50, [1])])
  const BLOCK := Block(2, 1, 0, 0, [COINBASE])
  const BLOCKS := map[2 := BLOCK]

  // Block 2 is active on the genesis 1; its rival 3 has an entry, but no body on file.
  const ENTRIES: Entries := map[1 := Entry(0, 1, NULL_HASH, 0, 0, 1, {MAIN_CHAIN}),
                                2 := Entry(1, 2, 1, 0, 0, 2, {MAIN_CHAIN}),
                                3 := Entry(1, 3, 1, 0, 0, 3, {SIDE_CHAIN})]

  const OUT := OutPoint(10, 0)
  const BASE := Tables(map[], map[], map[OUT := CLEAN])
  const FULL := Tables(map[OUT := Coin(50, [1], 1, true)], map[], map[OUT := CLEAN])
  const LIVE := Live(FULL, Index(ENTRIES, map[0 := 1, 1 := 2], Some(2), 1))

  lemma Branches()
    ensures Rooted(ENTRIES) && Chain(ENTRIES, 1) == [1] && Chain(ENTRIES, 2) == [1, 2] && Chain(ENTRIES, 3) == [1, 3]
    ensures Fork(ENTRIES, 3, 2) == Some(1) && Down(ENTRIES, 2, 0) == [2] && Down(ENTRIES, 3, 0) == [3]
    ensures HeightsOf(ENTRIES, 2) == map[0 := 1, 1 := 2]
  {
    assert Chain(ENTRIES, NULL_HASH) == [];
    assert Fork(ENTRIES, 1, 1) == Some(1);
    assert Down(ENTRIES, 1, 0) == [];
    assert HeightsOf(ENTRIES, 1) == map[0 := 1];
  }

  lemma Connects()
    ensures Connect(BASE, BLOCK, 1) == Step(FULL, true)
  {
    assert BLOCK.txs[..0] == [];
    assert COINBASE.Coins(1, 1) == map[OUT := Coin(50, [1], 1, true)];
    assert DropUndo(map[], 2) == map[];
    assert ConnectTxs(BASE, 2, 1, []) == Step(BASE, true);
    assert ConnectTx(BASE, 2, 1, COINBASE).tables.utxo == FULL.utxo;
    assert SettleCoinbase(FULL, 10).marks == FULL.marks;
  }

  lemma Disconnects()
    ensures Disconnect(FULL, BLOCK) == Step(BASE, true)
  {
    assert BLOCK.txs[..0] == [];
    assert COINBASE.Outs(1) == {OUT};
    assert DropUndo(map[], 2) == map[];
    assert RemoveOuts(FULL, COINBASE, 1) == BASE;
    assert DisconnectTxs(BASE, 2, []) == Step(BASE, true);
  }

  lemma LiveIsInSync()
    ensures InSync(BASE, {}, BLOCKS, LIVE)
  {
    hide Connect;
    Branches();
    Connects();
    assert [1, 2][1..] == [2];
    assert Bodies(BLOCKS, [2]) == [BLOCK];
    assert [BLOCK][..0] == [];
    assert Replay(BASE, [], 1) == Step(BASE, true);
  }

  /** The switch to block 3 fails for want of its body, after block 2 was taken off. */
  lemma FailureUnderOpenTransaction()
    ensures InSync(BASE, {}, BLOCKS, LIVE) && Linked(ENTRIES)
    ensures Commit(LIVE, true, 3, 2, BLOCKS, None, 144) == LiveStep(Live(BASE, LIVE.index), false)
    ensures Commit(LIVE, false, 3, 2, BLOCKS, None, 144) == LiveStep(LIVE, false)
    ensures BASE.utxo != FULL.utxo
  {
    LiveIsInSync();
    Branches();
    var p := Plan(1, [2], [3]);
    assert MakePlan(ENTRIES, 3, 2, 144) == Some(p) by {
      assert Reverse([3]) == [3];
    }
    RunIs();
    PlanPassed();
    hide Disconnect, Connect, RunReorg, InSync, Chain, Rooted, SetBest, Rollback, MakePlan, PathsOk;
    CommitAllOrNothing(BASE, {}, BLOCKS, LIVE, true, 3, None, 144);
    CommitAllOrNothing(BASE, {}, BLOCKS, LIVE, false, 3, None, 144);
  }

  lemma PlanPassed()
    ensures PathsOk(ENTRIES, Plan(1, [2], [3]))
  {
  }

  lemma RunIs()
    ensures var r := RunReorg(LIVE, [2], [3], BLOCKS, None); !r.ok && r.live.tables == BASE
  {
    hide Disconnect;
    Disconnects();
    assert [2][..0] == [] && [3][..0] == [];
    assert RunDisconnects(LIVE, [], BLOCKS) == LiveStep(LIVE, true);
    var d := RunDisconnects(LIVE, [2], BLOCKS);
    assert RunConnects(d.live, [], BLOCKS, None) == LiveStep(d.live, true);
  }

  // --------------------------------------------------------------- and one that succeeds

  const RIVAL := Block(3, 1, 0, 0, [Tx(11, 1, [TxIn(NULL_OUTPOINT, [], 0)], [TxOut(40, [1])])])

  lemma RivalConnects()
    ensures Connect(BASE, RIVAL, 1).ok
  {
    assert RIVAL.txs[..0] == [];
    assert DropUndo(map[], 3) == map[];
    assert ConnectTxs(BASE, 3, 1, []) == Step(BASE, true);
  }

  lemma RivalInSync()
    ensures InSync(BASE, {}, BLOCKS[3 := RIVAL], LIVE)
  {
    hide Connect;
    Branches();
    Connects();
    assert [1, 2][1..] == [2];
    assert Bodies(BLOCKS[3 := RIVAL], [2]) == [BLOCK];
    assert [BLOCK][..0] == [];
    assert Replay(BASE, [], 1) == Step(BASE, true);
  }

  lemma RivalStands()
    ensures CanSwitch(BASE, ENTRIES, BLOCKS[3 := RIVAL], 3, 2, None, 1)
  {
    hide Connect;
    Branches();
    RivalConnects();
    assert [1, 3][1..1] == [];
    assert Bodies(BLOCKS[3 := RIVAL], []) == [];
    assert Replay(BASE, [], 1) == Step(BASE, true);
    assert StandsOn(BASE, ENTRIES, BLOCKS[3 := RIVAL], [1, 3], None, 1);
    assert HighestShared(ENTRIES, 3, 2, 1);
  }

  /** With the body on file the same switch goes through, within a depth limit of one. */
  lemma SwitchSucceeds(open: bool)
    ensures Linked(ENTRIES) && Commit(LIVE, open, 3, 2, BLOCKS[3 := RIVAL], None, 1).ok
  {
    hide CanSwitch, InSync, Commit, DryRun, Chain;
    Branches();
    RivalInSync();
    RivalStands();
    SwitchExactly(BASE, {}, BLOCKS[3 := RIVAL], LIVE, open, 3, None, 1);
  }
}
