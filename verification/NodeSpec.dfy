/** The block acceptance pipeline over whole runs: after any sequence of blocks
    the node's tables are what replaying its active branch gives. */
module NodeSpec {
  import opened Ledger
  import opened ChainIndex
  import opened ReorgSpec
  import opened Params
  import opened Compact
  import opened Retarget
  import opened Subsidy
  import opened Validation
  import opened ValueFlow

  datatype Reply =
    | AlreadyKnown | Orphan | StatefulValidationFailed | ConsensusRuleInvalid | WriteRaised
    | ConnectFailed | Connected | StoredFork | ReorgPreflightFailed | ReorgFailed | Reorganised

  // basicOk stands for ConsensusRules.validate_block, which side blocks have to pass instead of the stateful checks.
  datatype Env = Env(p: Params, rules: Rules, basicOk: (Block, Option<Block>, nat) -> bool, maxReorgDepth: int)

  /** Tables and index, stored blocks, the keys of `transactions`, and the tip that the chain state caches. */
  datatype Node = Node(live: Live, blocks: map<Id, Block>, txids: set<Id>, best: Id, bestHeight: int, bestWork: nat)

  // ------------------------------------------------------------ storing a block

  datatype Written = Written(txids: set<Id>, rows: map<OutPoint, Mark>, ok: bool)

  /** The rows write_block inserts for the first n transactions; a known id stops it. */
  function WriteTxs(txids: set<Id>, txs: seq<Tx>, n: nat): Written
    requires n <= |txs|
    decreases n
  {
    if n == 0 then Written(txids, map[], true)
    else
      var w := WriteTxs(txids, txs, n - 1);
      var tx := txs[n - 1];
      if !w.ok then w
      else if tx.id in w.txids then w.(ok := false)
      else Written(w.txids + {tx.id}, w.rows + (map o | o in tx.Outs(|tx.vout|) :: CLEAN), true)
  }

  lemma {:induction false} WriteShape(txids: set<Id>, txs: seq<Tx>, n: nat)
    requires n <= |txs|
    ensures var w := WriteTxs(txids, txs, n);
            && txids <= w.txids
            && (forall o :: o in w.rows ==> w.rows[o] == CLEAN && o.txid in w.txids && o.txid !in txids)
            && (w.ok ==> w.txids == txids + Ids(txs[..n]) && DistinctIds(txs[..n]) && Ids(txs[..n]) !! txids)
    decreases n
  {
    if n > 0 {
      WriteShape(txids, txs, n - 1);
      assert txs[..n] == txs[..n - 1] + [txs[n - 1]];
      IdsSnoc(txs[..n - 1], txs[n - 1]);
      if WriteTxs(txids, txs, n).ok {
        forall i | 0 <= i < n - 1
          ensures txs[..n][i].id != txs[n - 1].id
        {
          assert txs[..n - 1][i].id in Ids(txs[..n - 1]);
        }
      }
    }
  }

  // ------------------------------------------------------------------- on_block

  function Checker(env: Env): Check {
    (utxo, ix, b, height: nat) => BlockAccepted(env.p, env.rules, utxo, ix, b, height)
  }

  /** The node once the block's rows and its index entry are written. */
  function WithBlock(env: Env, s: Node, b: Block, w: Written): Node
    requires b.prev in s.live.index.entries
  {
    var parent := s.live.index.entries[b.prev];
    var ix := AddBlock(s.live.index, b, parent.height + 1, parent.work + BlockWork(env.p, b.bits));
    s.(live := Live(WithRows(s.live.tables, w.rows), ix), blocks := s.blocks[b.hash := b], txids := w.txids)
  }

  /** One call of on_block.  The two flags say whether a database transaction is
      already open when the block is written and when it is connected. */
  ghost function OnBlock(env: Env, s: Node, b: Block, open: bool, openLater: bool): (Node, Reply)
    requires Rooted(s.live.index.entries) && s.best in s.live.index.entries && b.hash != NULL_HASH
  {
    var ix := s.live.index;
    if b.hash in ix.entries then (s, AlreadyKnown)
    else if b.prev !in ix.entries then (s, Orphan)
    else
      var height := ix.entries[b.prev].height + 1;
      if s.best == b.prev && !BlockAccepted(env.p, env.rules, s.live.tables.utxo, ix, b, height) then
        (s, StatefulValidationFailed)
      else if s.best != b.prev && !env.basicOk(b, if b.prev in s.blocks then Some(s.blocks[b.prev]) else None, height) then
        (s, ConsensusRuleInvalid)
      else
        var w := WriteTxs(s.txids, b.txs, |b.txs|);
        if !w.ok then
          (if open then s.(txids := w.txids, live := s.live.(tables := WithRows(s.live.tables, w.rows))) else s, WriteRaised)
        else
          WithBlockLinked(env, s, b, w);
          Activate(env, WithBlock(env, s, b, w), b, openLater)
  }

  lemma WithBlockLinked(env: Env, s: Node, b: Block, w: Written)
    requires Rooted(s.live.index.entries) && b.prev in s.live.index.entries
    requires b.hash !in s.live.index.entries && b.hash != NULL_HASH
    ensures var r := WithBlock(env, s, b, w);
            && Linked(r.live.index.entries) && b.hash in r.live.index.entries && r.best == s.best
            && s.live.index.entries.Keys <= r.live.index.entries.Keys
  {
    AddBlockRooted(s.live.index.entries, WithBlock(env, s, b, w).live.index.entries[b.hash]);
  }

  /** What happens to a stored block: it extends the tip, waits as a fork, or triggers a reorganisation. */
  ghost function Activate(env: Env, s: Node, b: Block, open: bool): (Node, Reply)
    requires Linked(s.live.index.entries) && b.hash in s.live.index.entries && s.best in s.live.index.entries
  {
    if s.best == b.prev then ConnectTip(s, b, open)
    else if s.live.index.entries[b.hash].work <= s.bestWork then (s, StoredFork)
    else Reorganise(env, s, b.hash, open)
  }

  /** ChainState.set_best_block. */
  ghost function SetBestBlock(s: Node, live: Live, h: Id): Node
    requires Linked(live.index.entries) && h in live.index.entries
  {
    var e := live.index.entries[h];
    s.(live := live.(index := SetBest(live.index, h)), best := h, bestHeight := e.height, bestWork := e.work)
  }

  ghost function ConnectTip(s: Node, b: Block, open: bool): (Node, Reply)
    requires Linked(s.live.index.entries) && b.hash in s.live.index.entries
  {
    var c := ConnectLive(s.live, b);
    ChainSameTree(s.live.index.entries, c.live.index.entries, b.hash);
    if c.ok then (SetBestBlock(s, c.live, b.hash), Connected)
    else (s.(live := Live(if open then c.live.tables else s.live.tables, c.live.index)), ConnectFailed)
  }

  ghost function Reorganise(env: Env, s: Node, h: Id, open: bool): (Node, Reply)
    requires Linked(s.live.index.entries) && h in s.live.index.entries && s.best in s.live.index.entries
  {
    var check := Some(Checker(env));
    var dry := DryRun(s.live, h, s.best, s.blocks, check, env.maxReorgDepth);
    ChainSameTree(s.live.index.entries, dry.live.index.entries, h);
    if !dry.ok then (s.(live := dry.live), ReorgPreflightFailed)
    else
      var r := Commit(dry.live, open, h, s.best, s.blocks, check, env.maxReorgDepth);
      ChainSameTree(dry.live.index.entries, r.live.index.entries, h);
      if r.ok then (SetBestBlock(s, r.live, h), Reorganised) else (s.(live := r.live), ReorgFailed)
  }

  // ------------------------------------------------------------- the invariant

  /** The start of every replay: the given coins, no undo rows, the stored `outputs` rows unmarked. */
  function BaseOf(coins: map<OutPoint, Coin>, t: Tables): Tables {
    Tables(coins, map[], map o | o in t.marks :: CLEAN)
  }

  predicate Vet(env: Env, utxo: map<OutPoint, Coin>, b: Block, height: nat) {
    && env.rules.headerOk(b) && env.rules.bodyOk(b, height)
    && TxsAccepted(env.p, env.rules, utxo, b.txs, height) && SubsidyAccepted(env.p, utxo, b.txs, height)
  }

  /** Each block was accepted on the state that its predecessors left. */
  predicate Vetted(env: Env, base: Tables, bs: seq<Block>)
    decreases |bs|
  {
    bs == [] ||
    (var init := bs[..|bs| - 1];
     Vetted(env, base, init) && Vet(env, Replay(base, init, 1).tables.utxo, bs[|bs| - 1], |bs|))
  }

  ghost predicate NodeInv(env: Env, coins: map<OutPoint, Coin>, known: set<Id>, s: Node) {
    var base, ix := BaseOf(coins, s.live.tables), s.live.index;
    && InSync(base, known, s.blocks, s.live)
    && known <= s.txids && (forall h :: h in s.blocks ==> h in ix.entries && Ids(s.blocks[h].txs) <= s.txids)
    && (forall o :: o in s.live.tables.marks ==> o.txid in s.txids)
    && ix.best == Some(s.best) && s.bestHeight == ix.bestHeight && s.bestWork == ix.entries[s.best].work
    && Vetted(env, base, Bodies(s.blocks, Chain(ix.entries, s.best)[1..]))
  }

  // ------------------------------------------------------- storing keeps the invariant

  lemma {:induction false} VettedRows(env: Env, base: Tables, rows: map<OutPoint, Mark>, bs: seq<Block>)
    requires rows.Keys !! base.utxo.Keys && forall o :: o in rows ==> o.txid !in ChainIds(bs)
    requires Vetted(env, base, bs)
    ensures Vetted(env, WithRows(base, rows), bs)
    decreases |bs|
  {
    hide Vet, Replay, ChainIds;
    if bs != [] {
      var init, last := bs[..|bs| - 1], bs[|bs| - 1];
      assert bs == init + [last];
      ChainIdsSnoc(init, last);
      VettedRows(env, base, rows, init);
      ReplayRows(base, rows, init, 1);
    }
  }

  lemma BodiesIds(txids: set<Id>, blocks: map<Id, Block>, hs: seq<Id>)
    requires AllIn(blocks, hs) && forall h :: h in blocks ==> Ids(blocks[h].txs) <= txids
    ensures ChainIds(Bodies(blocks, hs)) <= txids
  {
    hide Ids, ChainIds;
    forall x | x in ChainIds(Bodies(blocks, hs))
      ensures x in txids
    {
      var i := ChainIdsIn(Bodies(blocks, hs), x);
      var h := hs[i];
      assert h in blocks;
      assert Bodies(blocks, hs)[i] == blocks[h];
      assert x in Ids(blocks[h].txs);
      assert Ids(blocks[h].txs) <= txids;
    }
  }

  /** Rows of ids that no coin and no stored block uses. */
  ghost predicate NewRows(s: Node, rows: map<OutPoint, Mark>) {
    forall o :: o in rows ==> rows[o] == CLEAN && o.txid !in s.txids
  }

  lemma RowsKeep(env: Env, coins: map<OutPoint, Coin>, known: set<Id>, s: Node, rows: map<OutPoint, Mark>, txids: set<Id>)
    requires NodeInv(env, coins, known, s) && NewRows(s, rows)
    requires s.txids <= txids && forall o :: o in rows ==> o.txid in txids
    ensures NodeInv(env, coins, known, s.(txids := txids, live := s.live.(tables := WithRows(s.live.tables, rows))))
  {
    hide Rooted, Linked, Flagged, Stored, Vetted, Replay, Chain;
    RootedLinked(s.live.index.entries);
    var t, base, branch := s.live.tables, BaseOf(coins, s.live.tables), Chain(s.live.index.entries, s.best);
    assert BaseOf(coins, WithRows(t, rows)) == WithRows(base, rows);
    var bs := Bodies(s.blocks, branch[1..]);
    BodiesIds(s.txids, s.blocks, branch[1..]);
    assert rows.Keys !! base.utxo.Keys;
    ReplayRows(base, rows, bs, 1);
    VettedRows(env, base, rows, bs);
  }

  /** The block joins the store; every branch so far keeps its bodies. */
  lemma StoreKeeps(base: Tables, known: set<Id>, blocks: map<Id, Block>, t: Tables, branch: seq<Id>, b: Block)
    requires Stored(known, blocks) && b.hash !in blocks && Synced(base, blocks, t, branch)
    requires DistinctIds(b.txs) && Ids(b.txs) !! known
    requires forall h :: h in blocks ==> Ids(b.txs) !! Ids(blocks[h].txs)
    ensures Stored(known, blocks[b.hash := b]) && Synced(base, blocks[b.hash := b], t, branch)
    ensures Bodies(blocks[b.hash := b], branch[1..]) == Bodies(blocks, branch[1..])
  {
    hide Replay, Ids, DistinctIds;
    var more := blocks[b.hash := b];
    assert AllIn(more, branch[1..]);
    assert Bodies(more, branch[1..]) == Bodies(blocks, branch[1..]);
  }

  /** Writing a block with fresh ids and adding it to the index keeps the invariant: the active branch has not moved. */
  lemma WithBlockKeeps(env: Env, coins: map<OutPoint, Coin>, known: set<Id>, s: Node, b: Block)
    requires NodeInv(env, coins, known, s) && WriteTxs(s.txids, b.txs, |b.txs|).ok
    requires b.prev in s.live.index.entries && b.hash !in s.live.index.entries && b.hash != NULL_HASH
    ensures var r := WithBlock(env, s, b, WriteTxs(s.txids, b.txs, |b.txs|));
            && NodeInv(env, coins, known, r) && r.best == s.best && r.bestWork == s.bestWork
            && r.live.tables.utxo == s.live.tables.utxo && b.hash in r.live.index.entries
            && Linked(s.live.index.entries) && Linked(r.live.index.entries)
            && Chain(r.live.index.entries, s.best) == Chain(s.live.index.entries, s.best)
            && Chain(r.live.index.entries, b.hash) == Chain(s.live.index.entries, b.prev) + [b.hash]
            && Unused(s.live.tables.utxo, Ids(b.txs))
  {
    hide Rooted, Linked, NodeInv, WithBlock, WriteTxs;
    var w := WriteTxs(s.txids, b.txs, |b.txs|);
    WriteShape(s.txids, b.txs, |b.txs|);
    assert b.txs[..|b.txs|] == b.txs;
    RowsKeep(env, coins, known, s, w.rows, w.txids);
    NoSuchCoin(env, coins, known, s, Ids(b.txs));
    IndexedKeeps(env, coins, known, s.(txids := w.txids, live := s.live.(tables := WithRows(s.live.tables, w.rows))), s, b, w);
  }

  /** The second half: the rows are there, now the index entry and the block file join them. */
  lemma IndexedKeeps(env: Env, coins: map<OutPoint, Coin>, known: set<Id>, u: Node, s: Node, b: Block, w: Written)
    requires NodeInv(env, coins, known, u) && NodeInv(env, coins, known, s)
    requires u == s.(txids := w.txids, live := s.live.(tables := WithRows(s.live.tables, w.rows)))
    requires w.txids == s.txids + Ids(b.txs) && DistinctIds(b.txs) && Ids(b.txs) !! s.txids
    requires b.prev in s.live.index.entries && b.hash !in s.live.index.entries && b.hash != NULL_HASH
    ensures var r := WithBlock(env, s, b, w);
            && NodeInv(env, coins, known, r) && r.best == s.best && r.bestWork == s.bestWork
            && r.live.tables.utxo == s.live.tables.utxo && b.hash in r.live.index.entries
            && Linked(s.live.index.entries) && Linked(r.live.index.entries)
            && Chain(r.live.index.entries, s.best) == Chain(s.live.index.entries, s.best)
            && Chain(r.live.index.entries, b.hash) == Chain(s.live.index.entries, b.prev) + [b.hash]
  {
    hide Rooted, Linked, Flagged, Vetted, Replay, Chain, AddBlock, Stored, DistinctIds, Ids, CleanBase, Canonical;
    var ix := u.live.index;
    InvRooted(env, coins, known, u);
    var parent := ix.entries[b.prev];
    var height, work := parent.height + 1, parent.work + BlockWork(env.p, b.bits);
    assert Canonical(ix);
    AddBlockEntry(ix, b, height, work);
    AddBlockCanonical(ix, b, height, work);
    CanonicalFacts(ix);
    CanonicalFacts(AddBlock(ix, b, height, work));
    StoreKeeps(BaseOf(coins, u.live.tables), known, u.blocks, u.live.tables, Chain(ix.entries, s.best), b);
  }

  lemma CanonicalFacts(ix: Index)
    requires Canonical(ix)
    ensures Linked(ix.entries) && ix.best.Some? && ix.best.value in ix.entries
    ensures ix.bestHeight == ix.entries[ix.best.value].height
  {
  }

  /** Ids that the transactions table does not know are not those of any coin. */
  lemma NoSuchCoin(env: Env, coins: map<OutPoint, Coin>, known: set<Id>, s: Node, ids: set<Id>)
    requires NodeInv(env, coins, known, s) && ids !! s.txids
    ensures Unused(s.live.tables.utxo, ids)
  {
    hide Rooted, Linked, Flagged, Vetted, Replay, Chain;
    RootedLinked(s.live.index.entries);
    var branch := Chain(s.live.index.entries, s.best);
    var base, bs := BaseOf(coins, s.live.tables), Bodies(s.blocks, branch[1..]);
    BodiesIds(s.txids, s.blocks, branch[1..]);
    ChainIsBranch(s.live.index.entries, s.best);
    BranchNoRepeats(s.live.index.entries, branch);
    BodiesFresh(known, s.blocks, branch[1..]);
    ReplayTidy(base, bs, 1, known);
  }

  // ------------------------------------------------------ moving the tip keeps it

  lemma SyncedMarks(base: Tables, known: set<Id>, blocks: map<Id, Block>, es: Entries, t: Tables, branch: seq<Id>)
    requires CleanBase(base, known) && Stored(known, blocks) && Branch(es, branch) && Synced(base, blocks, t, branch)
    ensures t.marks.Keys == base.marks.Keys
  {
    hide CleanBase, Stored, Replay;
    BranchNoRepeats(es, branch);
    BodiesFresh(known, blocks, branch[1..]);
    ReplayTidy(base, Bodies(blocks, branch[1..]), 1, known);
  }

  lemma VettedSnoc(env: Env, base: Tables, bs: seq<Block>, b: Block)
    ensures Vetted(env, base, bs + [b]) <==> Vetted(env, base, bs) && Vet(env, Replay(base, bs, 1).tables.utxo, b, |bs| + 1)
  {
    hide Vet, Replay;
    assert (bs + [b])[..|bs|] == bs;
  }

  lemma {:induction false} VettedPrefix(env: Env, base: Tables, bs: seq<Block>, n: nat)
    requires n <= |bs| && Vetted(env, base, bs)
    ensures Vetted(env, base, bs[..n])
    decreases |bs|
  {
    hide Vet;
    if n < |bs| {
      VettedPrefix(env, base, bs[..|bs| - 1], n);
      assert bs[..|bs| - 1][..n] == bs[..n];
    } else {
      assert bs[..n] == bs;
    }
  }

  lemma SyncedVetted(env: Env, base: Tables, blocks: map<Id, Block>, t: Tables, branch: seq<Id>, h: Id)
    requires Synced(base, blocks, t, branch) && h in blocks
    requires Vetted(env, base, Bodies(blocks, branch[1..])) && Vet(env, t.utxo, blocks[h], |branch|)
    ensures AllIn(blocks, (branch + [h])[1..]) && Vetted(env, base, Bodies(blocks, (branch + [h])[1..]))
  {
    hide Vet, Vetted, Replay;
    assert (branch + [h])[1..] == branch[1..] + [h];
    assert AllIn(blocks, branch[1..] + [h]);
    BodiesSnoc(blocks, branch[1..], h);
    VettedSnoc(env, base, Bodies(blocks, branch[1..]), blocks[h]);
  }

  lemma {:induction false} ConnectsVetted(env: Env, base: Tables, blocks: map<Id, Block>, es: Entries,
                                          live: Live, branch: seq<Id>, con: seq<Id>)
    requires OwnHash(blocks) && Branch(es, branch + con) && Stage(base, blocks, es, live, branch)
    requires Vetted(env, base, Bodies(blocks, branch[1..]))
    requires RunConnects(live, con, blocks, Some(Checker(env))).ok
    ensures Stage(base, blocks, es, RunConnects(live, con, blocks, Some(Checker(env))).live, branch + con)
    ensures Vetted(env, base, Bodies(blocks, (branch + con)[1..]))
    decreases |con|
  {
    hide Vet, Vetted, OwnHash, ConnectEntry, BlockAccepted, Replay;
    StageRunUp(base, blocks, es, live, branch, con, Some(Checker(env)));
    if con == [] {
      assert branch + con == branch;
    } else {
      var init, h := con[..|con| - 1], con[|con| - 1];
      assert branch + con == (branch + init) + [h];
      assert Branch(es, branch + init) by {
        assert forall i :: 0 <= i < |branch + init| ==> (branch + init)[i] == (branch + con)[i];
      }
      ConnectsVetted(env, base, blocks, es, live, branch, init);
      var now := RunConnects(live, init, blocks, Some(Checker(env))).live;
      BranchLast(es, branch + init, h);
      EntryVetted(env, now, h, blocks);
      SyncedVetted(env, base, blocks, now.tables, branch + init, h);
    }
  }

  lemma EntryVetted(env: Env, live: Live, h: Id, blocks: map<Id, Block>)
    requires ConnectEntry(live, h, blocks, Some(Checker(env))).ok
    ensures h in blocks && h in live.index.entries
    ensures Vet(env, live.tables.utxo, blocks[h], live.index.entries[h].height)
  {
    hide TxsAccepted, SubsidyAccepted, ExpectedBits, MedianTimePast, IndexView, Connect;
  }

  lemma ConnectTipKeeps(env: Env, coins: map<OutPoint, Coin>, known: set<Id>, s: Node, b: Block, open: bool)
    requires NodeInv(env, coins, known, s) && Linked(s.live.index.entries)
    requires b.hash in s.live.index.entries && b.hash in s.blocks && s.blocks[b.hash] == b
    requires Chain(s.live.index.entries, b.hash) == Chain(s.live.index.entries, s.best) + [b.hash]
    requires Vet(env, s.live.tables.utxo, b, |Chain(s.live.index.entries, s.best)|)
    ensures var r := ConnectTip(s, b, open);
            && r.1 == Connected && NodeInv(env, coins, known, r.0) && r.0.best == b.hash
            && r.0.bestWork == s.live.index.entries[b.hash].work
            && r.0.live.tables.marks.Keys == s.live.tables.marks.Keys && r.0.blocks == s.blocks
  {
    hide Rooted, Flagged, Vetted, Replay, Chain, Stored, SetBest, Connect, CleanBase;
    var es, branch := s.live.index.entries, Chain(s.live.index.entries, s.best);
    var base := BaseOf(coins, s.live.tables);
    ChainIsBranch(es, b.hash);
    assert es[b.hash].height == |branch| by {
      BranchLast(es, branch, b.hash);
    }
    assert Connect(s.live.tables, b, |branch|).ok by {
      ValidatedConnects(env.p, env.rules, s.live.tables, b, |branch|);
    }
    SyncedConnect(base, s.blocks, s.live.tables, branch, b.hash);
    SyncedVetted(env, base, s.blocks, s.live.tables, branch, b.hash);
    var c := ConnectLive(s.live, b);
    SyncedMarks(base, known, s.blocks, es, c.live.tables, branch + [b.hash]);
    assert BaseOf(coins, c.live.tables) == base;
    TipSelected(s.live.index, c.live.index, b.hash);
  }

  /** Selecting a tip in an index whose statuses moved: canonical, same tree, same branches. */
  lemma TipSelected(ix: Index, jx: Index, h: Id)
    requires Canonical(ix) && SameTree(ix.entries, jx.entries) && h in ix.entries
    ensures Linked(ix.entries) && Linked(jx.entries)
    ensures var r := SetBest(jx, h);
            && Canonical(r) && r.best == Some(h) && SameTree(ix.entries, r.entries)
            && r.bestHeight == ix.entries[h].height && r.entries[h].work == ix.entries[h].work
            && (forall x :: Linked(r.entries) && Chain(r.entries, x) == Chain(ix.entries, x))
  {
    hide Rooted, Linked, Flagged, Chain;
    RootedLinked(ix.entries);
    RootedSameTree(ix.entries, jx.entries);
    SetBestCanonical(jx, h);
    RootedSameTree(jx.entries, SetBest(jx, h).entries);
    forall x
      ensures Chain(SetBest(jx, h).entries, x) == Chain(ix.entries, x)
    {
      ChainSameTree(ix.entries, jx.entries, x);
      ChainSameTree(jx.entries, SetBest(jx, h).entries, x);
    }
  }

  /** A reorganisation that commits leaves a vetted branch: every block was checked on its own ancestors' coins. */
  lemma ReorgVetted(env: Env, coins: map<OutPoint, Coin>, known: set<Id>, s: Node, h: Id, p: Plan)
    requires NodeInv(env, coins, known, s) && Linked(s.live.index.entries) && h in s.live.index.entries
    requires Splits(s.live.index.entries, h, s.best, p)
    requires RunReorg(s.live, p.dis, p.con, s.blocks, Some(Checker(env))).ok
    ensures var branch := Chain(s.live.index.entries, h);
            && branch != [] && AllIn(s.blocks, branch[1..])
            && Vetted(env, BaseOf(coins, s.live.tables), Bodies(s.blocks, branch[1..]))
  {
    hide Rooted, Linked, Flagged, Vetted, Replay, Chain, Stored, CleanBase;
    var es, base := s.live.index.entries, BaseOf(coins, s.live.tables);
    var common, d := Chain(es, p.fork), RunDisconnects(s.live, p.dis, s.blocks).live;
    ValidatedOnOwnBranch(base, known, s.blocks, s.live, h, p, Some(Checker(env)), 0);
    assert p.con[..0] == [] && common + [] == common;
    StoredOwnHash(known, s.blocks);
    ChainIsBranch(es, h);
    CommonVetted(env, base, s.blocks, Chain(es, s.best), common, Reverse(p.dis));
    ConnectsVetted(env, base, s.blocks, es, d, common, p.con);
  }

  lemma CommonVetted(env: Env, base: Tables, blocks: map<Id, Block>, branch: seq<Id>, common: seq<Id>, rest: seq<Id>)
    requires branch == common + rest && common != [] && AllIn(blocks, branch[1..])
    requires Vetted(env, base, Bodies(blocks, branch[1..]))
    ensures AllIn(blocks, common[1..]) && Vetted(env, base, Bodies(blocks, common[1..]))
  {
    hide Vetted;
    var bs := Bodies(blocks, branch[1..]);
    assert branch[1..] == common[1..] + rest;
    assert forall i :: 0 <= i < |common| - 1 ==> common[1..][i] == branch[1..][i];
    assert Bodies(blocks, common[1..]) == bs[..|common| - 1];
    VettedPrefix(env, base, bs, |common| - 1);
  }

  lemma ReorganiseKeeps(env: Env, coins: map<OutPoint, Coin>, known: set<Id>, s: Node, h: Id, open: bool)
    requires NodeInv(env, coins, known, s) && Linked(s.live.index.entries) && h in s.live.index.entries
    ensures var r := Reorganise(env, s, h, open);
            && (r.1 == ReorgPreflightFailed || r.1 == Reorganised)
            && (r.1 == ReorgPreflightFailed ==> r.0 == s)
            && (r.1 == Reorganised ==> NodeInv(env, coins, known, r.0) && r.0.best == h
                                       && r.0.bestWork == s.live.index.entries[h].work)
            && r.0.live.tables.marks.Keys == s.live.tables.marks.Keys && r.0.blocks == s.blocks
  {
    hide Rooted, Flagged, Vetted, Chain, Stored, CleanBase, Synced, DryRun, Commit, SetBest, Canonical;
    var es, base, check := s.live.index.entries, BaseOf(coins, s.live.tables), Some(Checker(env));
    InvRooted(env, coins, known, s);
    DryRunIsFaithful(base, known, s.blocks, s.live, open, h, check, env.maxReorgDepth);
    var r := Commit(s.live, open, h, s.best, s.blocks, check, env.maxReorgDepth);
    if r.ok {
      CommitAllOrNothing(base, known, s.blocks, s.live, open, h, check, env.maxReorgDepth);
      CommitVetted(env, coins, known, s, h, open);
      ReorgTip(env, coins, known, s, h, r.live);
    }
  }

  lemma CommitVetted(env: Env, coins: map<OutPoint, Coin>, known: set<Id>, s: Node, h: Id, open: bool)
    requires NodeInv(env, coins, known, s) && Linked(s.live.index.entries) && h in s.live.index.entries
    requires Commit(s.live, open, h, s.best, s.blocks, Some(Checker(env)), env.maxReorgDepth).ok
    ensures var branch := Chain(s.live.index.entries, h);
            && branch != [] && AllIn(s.blocks, branch[1..])
            && Vetted(env, BaseOf(coins, s.live.tables), Bodies(s.blocks, branch[1..]))
  {
    hide Rooted, Linked, Flagged, Vetted, Chain, Stored, CleanBase, Synced, SetBest, RunReorg, PathsOk, MakePlan, Rollback;
    var es := s.live.index.entries;
    PlanSplits(es, h, s.best, env.maxReorgDepth);
    ReorgVetted(env, coins, known, s, h, MakePlan(es, h, s.best, env.maxReorgDepth).value);
  }

  /** Selecting the committed branch's tip once more, as set_best_block does, changes nothing. */
  lemma ReorgTip(env: Env, coins: map<OutPoint, Coin>, known: set<Id>, s: Node, h: Id, live: Live)
    requires NodeInv(env, coins, known, s) && h in s.live.index.entries
    requires InSync(BaseOf(coins, s.live.tables), known, s.blocks, live) && live.index.best == Some(h)
    requires SameTree(s.live.index.entries, live.index.entries) && Linked(s.live.index.entries) && Linked(live.index.entries)
    requires var branch := Chain(s.live.index.entries, h);
             && branch != [] && AllIn(s.blocks, branch[1..])
             && Vetted(env, BaseOf(coins, s.live.tables), Bodies(s.blocks, branch[1..]))
    ensures var r := SetBestBlock(s, live, h);
            NodeInv(env, coins, known, r) && r.live == live && r.best == h && r.bestWork == s.live.index.entries[h].work
    ensures live.tables.marks.Keys == s.live.tables.marks.Keys
  {
    hide Rooted, Linked, Flagged, Vetted, Chain, Stored, CleanBase, Replay;
    var es, base := s.live.index.entries, BaseOf(coins, s.live.tables);
    SetBestRepairs(live.index, live.index.heights);
    ChainSameTree(es, live.index.entries, h);
    ChainIsBranch(live.index.entries, h);
    SyncedMarks(base, known, s.blocks, live.index.entries, live.tables, Chain(live.index.entries, h));
    assert BaseOf(coins, live.tables) == base;
  }

  /** One block, whatever it is and whatever becomes of it, keeps the invariant.  The best work never falls,
      and the two failures after a block was written never happen. */
  lemma OnBlockKeeps(env: Env, coins: map<OutPoint, Coin>, known: set<Id>, s: Node, b: Block, open: bool, openLater: bool)
    requires NodeInv(env, coins, known, s) && b.hash != NULL_HASH
    ensures Rooted(s.live.index.entries) && s.best in s.live.index.entries
    ensures var r := OnBlock(env, s, b, open, openLater);
            NodeInv(env, coins, known, r.0) && GoodOutcome(s, b, r.0, r.1)
  {
    hide Rooted, Linked, NodeInv, Activate, WriteTxs, WithBlock, BlockAccepted;
    var ix := s.live.index;
    InvRooted(env, coins, known, s);
    if b.hash !in ix.entries && b.prev in ix.entries {
      var w := WriteTxs(s.txids, b.txs, |b.txs|);
      if w.ok {
        WithBlockLinked(env, s, b, w);
        if s.best == b.prev ==> BlockAccepted(env.p, env.rules, s.live.tables.utxo, ix, b, ix.entries[b.prev].height + 1) {
          ActivateKeeps(env, coins, known, s, b, openLater);
        }
      } else {
        WriteShape(s.txids, b.txs, |b.txs|);
        RowsKeep(env, coins, known, s, w.rows, w.txids);
      }
    }
  }

  lemma ActivateKeeps(env: Env, coins: map<OutPoint, Coin>, known: set<Id>, s: Node, b: Block, open: bool)
    requires NodeInv(env, coins, known, s) && b.hash != NULL_HASH && WriteTxs(s.txids, b.txs, |b.txs|).ok
    requires b.prev in s.live.index.entries && b.hash !in s.live.index.entries
    requires s.best == b.prev ==>
               BlockAccepted(env.p, env.rules, s.live.tables.utxo, s.live.index, b, s.live.index.entries[b.prev].height + 1)
    ensures var stored := WithBlock(env, s, b, WriteTxs(s.txids, b.txs, |b.txs|));
            && Linked(stored.live.index.entries) && b.hash in stored.live.index.entries && stored.best in stored.live.index.entries
            && var r := Activate(env, stored, b, open);
            NodeInv(env, coins, known, r.0) && GoodOutcome(s, b, r.0, r.1)
  {
    hide Rooted, Linked, NodeInv, ConnectTip, Reorganise, WriteTxs, WithBlock, BlockAccepted, GoodOutcome, BlockWork;
    InvRooted(env, coins, known, s);
    var w := WriteTxs(s.txids, b.txs, |b.txs|);
    var stored := WithBlock(env, s, b, w);
    WithBlockLinked(env, s, b, w);
    WithBlockKeeps(env, coins, known, s, b);
    WithBlockWork(env, coins, known, s, b, w);
    if s.best != b.prev {
      assert GoodOutcome(s, b, stored, StoredFork) by {
        GoodSide(s, b, stored, stored, StoredFork);
      }
      var r := Reorganise(env, stored, b.hash, open);
      ReorganiseKeeps(env, coins, known, stored, b.hash, open);
      if stored.live.index.entries[b.hash].work > s.bestWork {
        GoodSide(s, b, stored, r.0, r.1);
      }
    } else {
      TipVet(env, coins, known, s, b);
      ConnectTipKeeps(env, coins, known, stored, b, open);
      GoodTip(s, b, ConnectTip(stored, b, open).0);
    }
  }

  lemma GoodTip(s: Node, b: Block, r: Node)
    requires r.best == b.hash && r.bestWork >= s.bestWork
    ensures GoodOutcome(s, b, r, Connected)
  {
  }

  lemma GoodSide(s: Node, b: Block, stored: Node, r: Node, reply: Reply)
    requires stored.best == s.best && stored.bestWork == s.bestWork && stored.live.tables.utxo == s.live.tables.utxo
    requires match reply
             case StoredFork => r == stored
             case ReorgPreflightFailed => r == stored
             case Reorganised => r.best == b.hash && r.bestWork > s.bestWork
             case _ => false
    ensures GoodOutcome(s, b, r, reply)
  {
  }

  ghost predicate GoodOutcome(s: Node, b: Block, r: Node, reply: Reply) {
    && r.bestWork >= s.bestWork
    && reply != ConnectFailed && reply != ReorgFailed
    && (reply == Connected || reply == Reorganised ==> r.best == b.hash)
    && (reply == Reorganised ==> r.bestWork > s.bestWork)
    && (reply != Connected && reply != Reorganised ==> r.best == s.best && r.live.tables.utxo == s.live.tables.utxo)
  }

  lemma InvRooted(env: Env, coins: map<OutPoint, Coin>, known: set<Id>, s: Node)
    requires NodeInv(env, coins, known, s)
    ensures Rooted(s.live.index.entries) && Linked(s.live.index.entries) && s.best in s.live.index.entries
    ensures s.bestWork == s.live.index.entries[s.best].work
  {
    hide Linked, Flagged, Vetted, Replay, Chain, Stored;
  }

  lemma WithBlockWork(env: Env, coins: map<OutPoint, Coin>, known: set<Id>, s: Node, b: Block, w: Written)
    requires NodeInv(env, coins, known, s)
    requires b.prev in s.live.index.entries && b.hash !in s.live.index.entries
    ensures var r := WithBlock(env, s, b, w);
            && b.hash in r.live.index.entries && b.hash in r.blocks && r.blocks[b.hash] == b
            && r.live.index.entries[b.hash].work >= s.live.index.entries[b.prev].work
            && r.live.tables.utxo == s.live.tables.utxo
  {
    hide Rooted, Linked, Flagged, Vetted, Replay, Chain, Stored, AddBlock;
    var parent := s.live.index.entries[b.prev];
    AddBlockEntry(s.live.index, b, parent.height + 1, parent.work + BlockWork(env.p, b.bits));
  }

  lemma TipVet(env: Env, coins: map<OutPoint, Coin>, known: set<Id>, s: Node, b: Block)
    requires NodeInv(env, coins, known, s) && s.best == b.prev && s.best in s.live.index.entries
    requires Linked(s.live.index.entries)
    requires BlockAccepted(env.p, env.rules, s.live.tables.utxo, s.live.index, b, s.live.index.entries[b.prev].height + 1)
    ensures Vet(env, s.live.tables.utxo, b, |Chain(s.live.index.entries, s.best)|)
  {
    hide Rooted, Flagged, Vetted, Replay, Chain, Stored, TxsAccepted, SubsidyAccepted, ExpectedBits, MedianTimePast, IndexView;
    ChainLength(s.live.index.entries, s.best);
  }

  // ------------------------------------------------------------------ whole runs

  datatype Call = Call(block: Block, open: bool, openLater: bool)

  ghost function Run(env: Env, coins: map<OutPoint, Coin>, known: set<Id>, s: Node, calls: seq<Call>): Node
    requires NodeInv(env, coins, known, s) && forall i :: 0 <= i < |calls| ==> calls[i].block.hash != NULL_HASH
    decreases |calls|
  {
    if calls == [] then s
    else
      var c := calls[0];
      OnBlockKeeps(env, coins, known, s, c.block, c.open, c.openLater);
      Run(env, coins, known, OnBlock(env, s, c.block, c.open, c.openLater).0, calls[1..])
  }

  lemma {:induction false} RunKeeps(env: Env, coins: map<OutPoint, Coin>, known: set<Id>, s: Node, calls: seq<Call>)
    requires NodeInv(env, coins, known, s) && forall i :: 0 <= i < |calls| ==> calls[i].block.hash != NULL_HASH
    ensures var r := Run(env, coins, known, s, calls);
            NodeInv(env, coins, known, r) && r.bestWork >= s.bestWork
    decreases |calls|
  {
    hide NodeInv, OnBlock;
    if calls != [] {
      var c := calls[0];
      OnBlockKeeps(env, coins, known, s, c.block, c.open, c.openLater);
      RunKeeps(env, coins, known, OnBlock(env, s, c.block, c.open, c.openLater).0, calls[1..]);
    }
  }

  // The undo rows a connected block leaves: one per input of each transaction that is not a coinbase.
  function TxKeys(block: Id, tx: Tx): set<UndoKey> {
    if tx.IsCoinbase() then {} else set i: nat | 0 <= i < |tx.vin| :: UndoKey(block, tx.id, i)
  }

  function BlockKeys(block: Id, txs: seq<Tx>): set<UndoKey>
    decreases |txs|
  {
    if txs == [] then {} else BlockKeys(block, txs[..|txs| - 1]) + TxKeys(block, txs[|txs| - 1])
  }

  function ChainKeys(bs: seq<Block>): set<UndoKey>
    decreases |bs|
  {
    if bs == [] then {} else ChainKeys(bs[..|bs| - 1]) + BlockKeys(bs[|bs| - 1].hash, bs[|bs| - 1].txs)
  }

  lemma {:induction false} SpendKeys(t: Tables, block: Id, tx: Tx, n: nat)
    requires n <= |tx.vin| && Spend(t, block, tx, n).ok
    ensures Spend(t, block, tx, n).tables.undo.Keys == t.undo.Keys + set i: nat | 0 <= i < n :: UndoKey(block, tx.id, i)
    decreases n
  {
    if n > 0 {
      SpendKeys(t, block, tx, n - 1);
      assert (set i: nat | 0 <= i < n :: UndoKey(block, tx.id, i)) ==
             (set i: nat | 0 <= i < n - 1 :: UndoKey(block, tx.id, i)) + {UndoKey(block, tx.id, n - 1)};
    }
  }

  lemma {:induction false} ConnectTxsKeys(t: Tables, block: Id, height: nat, txs: seq<Tx>)
    requires ConnectTxs(t, block, height, txs).ok
    ensures ConnectTxs(t, block, height, txs).tables.undo.Keys == t.undo.Keys + BlockKeys(block, txs)
    decreases |txs|
  {
    if txs != [] {
      var init, last := txs[..|txs| - 1], txs[|txs| - 1];
      ConnectTxsKeys(t, block, height, init);
      if !last.IsCoinbase() {
        SpendKeys(ConnectTxs(t, block, height, init).tables, block, last, |last.vin|);
      }
    }
  }

  lemma ConnectKeys(t: Tables, b: Block, height: nat)
    requires Connect(t, b, height).ok && DropUndo(t.undo, b.hash) == t.undo
    ensures Connect(t, b, height).tables.undo.Keys == t.undo.Keys + BlockKeys(b.hash, b.txs)
  {
    hide ConnectTxs, SettleCoinbase, BlockKeys;
    assert t.(undo := DropUndo(t.undo, b.hash)) == t;
    ConnectTxsKeys(t, b.hash, height, b.txs);
    SettleUndo(ConnectTxs(t, b.hash, height, b.txs).tables, b);
  }

  lemma {:induction false} ReplayKeys(base: Tables, known: set<Id>, bs: seq<Block>, first: nat)
    requires CleanBase(base, known) && FreshChain(known, bs) && Replay(base, bs, first).ok
    ensures Replay(base, bs, first).tables.undo.Keys == ChainKeys(bs)
    decreases |bs|
  {
    if bs == [] {
      assert base.undo == map[];
    } else {
      hide Connect, CleanBase, FreshChain, BlockKeys, Tidy;
      var init, last := bs[..|bs| - 1], bs[|bs| - 1];
      assert bs == init + [last];
      ReplaySnoc(base, init, last, first);
      NextIsFresh(init, last, known);
      ReplayKeys(base, known, init, first);
      ReplayTidy(base, init, first, known);
      TidyConnect(base, known, init, last, Replay(base, init, first).tables, first + |init|);
      ConnectKeys(Replay(base, init, first).tables, last, first + |init|);
    }
  }

  lemma SettleUndo(t: Tables, b: Block)
    ensures b.txs != [] ==> SettleCoinbase(t, b.txs[0].id).undo == t.undo
  {
  }

  /** The state of a node is a function of its active branch: coins, undo rows and spent marks are those of
      connecting that branch block by block to the coins at the start; there is an undo row for exactly the
      inputs of the active blocks; height map and MAIN_CHAIN flags show exactly the tip's ancestors. */
  ghost predicate OnActiveBranch(coins: map<OutPoint, Coin>, s: Node) {
    var ix := s.live.index;
    && Rooted(ix.entries) && Linked(ix.entries) && s.best in ix.entries
    && var branch := Chain(ix.entries, s.best);
    && branch != [] && AllIn(s.blocks, branch[1..])
    && var bodies := Bodies(s.blocks, branch[1..]);
    && Replay(BaseOf(coins, s.live.tables), bodies, 1) == Step(s.live.tables, true)
    && s.live.tables.undo.Keys == ChainKeys(bodies)
    && ix.heights == HeightsView(branch) && Flagged(ix.entries, s.best)
    && ix.best == Some(s.best) && s.bestHeight == ix.bestHeight == |branch| - 1
  }

  lemma InvOnActiveBranch(env: Env, coins: map<OutPoint, Coin>, known: set<Id>, s: Node)
    requires NodeInv(env, coins, known, s)
    ensures OnActiveBranch(coins, s)
  {
    hide Vetted, Replay, Rooted, Linked, Stored, CleanBase, Flagged, Chain, ChainKeys, Branch, FreshChain;
    var es := s.live.index.entries;
    InvRooted(env, coins, known, s);
    ChainIsBranch(es, s.best);
    ChainLength(es, s.best);
    BranchNoRepeats(es, Chain(es, s.best));
    var branch, base := Chain(es, s.best), BaseOf(coins, s.live.tables);
    BodiesFresh(known, s.blocks, branch[1..]);
    ReplayKeys(base, known, Bodies(s.blocks, branch[1..]), 1);
  }

  /** Whatever blocks arrive in whatever order, extending the tip, waiting as forks, causing reorganisations or
      being turned away: the state afterwards is that of the active branch alone, and best work has not fallen. */
  lemma PathIndependence(env: Env, coins: map<OutPoint, Coin>, known: set<Id>, s: Node, calls: seq<Call>)
    requires NodeInv(env, coins, known, s) && forall i :: 0 <= i < |calls| ==> calls[i].block.hash != NULL_HASH
    ensures var r := Run(env, coins, known, s, calls);
            OnActiveBranch(coins, r) && r.bestWork >= s.bestWork
  {
    hide NodeInv, OnActiveBranch;
    RunKeeps(env, coins, known, s, calls);
    InvOnActiveBranch(env, coins, known, Run(env, coins, known, s, calls));
  }

  // ------------------------------------------------------------- two histories

  /** Coins and undo rows are equal, and so are the spent marks of the rows that both have. */
  ghost predicate Alike(t: Tables, u: Tables) {
    t.utxo == u.utxo && t.undo == u.undo && forall o :: o in t.marks && o in u.marks ==> t.marks[o] == u.marks[o]
  }

  ghost predicate AlikeSteps(r: Step, s: Step) {
    r.ok == s.ok && Alike(r.tables, s.tables)
  }

  lemma {:induction false} SpendAlike(t: Tables, u: Tables, block: Id, tx: Tx, n: nat)
    requires Alike(t, u) && n <= |tx.vin|
    ensures AlikeSteps(Spend(t, block, tx, n), Spend(u, block, tx, n))
    decreases n
  {
    if n > 0 {
      SpendAlike(t, u, block, tx, n - 1);
    }
  }

  lemma {:induction false} ConnectTxsAlike(t: Tables, u: Tables, block: Id, height: nat, txs: seq<Tx>)
    requires Alike(t, u)
    ensures AlikeSteps(ConnectTxs(t, block, height, txs), ConnectTxs(u, block, height, txs))
    decreases |txs|
  {
    if txs != [] {
      var init, last := txs[..|txs| - 1], txs[|txs| - 1];
      ConnectTxsAlike(t, u, block, height, init);
      var r, s := ConnectTxs(t, block, height, init), ConnectTxs(u, block, height, init);
      SpendAlike(r.tables, s.tables, block, last, |last.vin|);
    }
  }

  lemma ConnectAlike(t: Tables, u: Tables, b: Block, height: nat)
    requires Alike(t, u)
    ensures AlikeSteps(Connect(t, b, height), Connect(u, b, height))
  {
    hide ConnectTxs;
    ConnectTxsAlike(t.(undo := DropUndo(t.undo, b.hash)), u.(undo := DropUndo(u.undo, b.hash)), b.hash, height, b.txs);
  }

  lemma {:induction false} ReplayAlike(t: Tables, u: Tables, bs: seq<Block>, first: nat)
    requires Alike(t, u)
    ensures AlikeSteps(Replay(t, bs, first), Replay(u, bs, first))
    decreases |bs|
  {
    hide Connect, Alike;
    if bs != [] {
      var init, last := bs[..|bs| - 1], bs[|bs| - 1];
      ReplayAlike(t, u, init, first);
      ConnectAlike(Replay(t, init, first).tables, Replay(u, init, first).tables, last, first + |init|);
    }
  }

  /** The same branch is active, with the same bodies. */
  ghost predicate SameBranch(s: Node, r: Node) {
    && Linked(s.live.index.entries) && Linked(r.live.index.entries)
    && var branch := Chain(s.live.index.entries, s.best);
    && Chain(r.live.index.entries, r.best) == branch != []
    && AllIn(s.blocks, branch[1..]) && AllIn(r.blocks, branch[1..])
    && Bodies(s.blocks, branch[1..]) == Bodies(r.blocks, branch[1..])
  }

  /** Two histories that end on the same branch end with the same ledger, whatever each of them stored, tried,
      undid or refused on the way. */
  lemma SameBranchSameLedger(env: Env, coins: map<OutPoint, Coin>, known: set<Id>, s: Node, calls: seq<Call>, others: seq<Call>)
    requires NodeInv(env, coins, known, s)
    requires forall i :: 0 <= i < |calls| ==> calls[i].block.hash != NULL_HASH
    requires forall i :: 0 <= i < |others| ==> others[i].block.hash != NULL_HASH
    requires SameBranch(Run(env, coins, known, s, calls), Run(env, coins, known, s, others))
    ensures var r, q := Run(env, coins, known, s, calls), Run(env, coins, known, s, others);
            && Alike(r.live.tables, q.live.tables)
            && r.live.index.heights == q.live.index.heights && r.bestHeight == q.bestHeight
  {
    hide NodeInv, Replay, Chain, Rooted, Linked, Flagged, ChainKeys, Run;
    PathIndependence(env, coins, known, s, calls);
    PathIndependence(env, coins, known, s, others);
    var r, q := Run(env, coins, known, s, calls), Run(env, coins, known, s, others);
    var bodies := Bodies(r.blocks, Chain(r.live.index.entries, r.best)[1..]);
    ReplayAlike(BaseOf(coins, r.live.tables), BaseOf(coins, q.live.tables), bodies, 1);
  }

  // --------------------------------------------------------------------- supply

  lemma {:induction false} ReplaySupply(env: Env, base: Tables, known: set<Id>, bs: seq<Block>)
    requires CleanBase(base, known) && FreshChain(known, bs) && Replay(base, bs, 1).ok && Vetted(env, base, bs)
    ensures Total(Replay(base, bs, 1).tables.utxo) + BlockSubsidy(env.p, 0) <= Total(base.utxo) + Issued(env.p, |bs| + 1)
    decreases |bs|
  {
    hide CleanBase, FreshChain, Connect, Total, BlockSubsidy, TxsAccepted, SubsidyAccepted;
    if bs == [] {
      assert Issued(env.p, 1) == Issued(env.p, 0) + BlockSubsidy(env.p, 0);
    } else {
      var init, last := bs[..|bs| - 1], bs[|bs| - 1];
      assert bs == init + [last];
      NextIsFresh(init, last, known);
      ReplaySupply(env, base, known, init);
      ReplayTidy(base, init, 1, known);
      var t := Replay(base, init, 1).tables;
      TidyConnect(base, known, init, last, t, |bs|);
      BlockIssuesAtMostSubsidy(env.p, env.rules, t, last, |bs|);
      assert Issued(env.p, |bs| + 1) == Issued(env.p, |bs|) + BlockSubsidy(env.p, |bs|);
    }
  }

  ghost predicate WithinSupply(env: Env, coins: map<OutPoint, Coin>, s: Node) {
    && s.bestHeight >= 0
    && Total(s.live.tables.utxo) + BlockSubsidy(env.p, 0) <= Total(coins) + Issued(env.p, s.bestHeight + 1)
    && Total(s.live.tables.utxo) <= Total(coins) + SupplyFrom(env.p.halvingInterval, env.p.initialSubsidy)
  }

  lemma InvSupply(env: Env, coins: map<OutPoint, Coin>, known: set<Id>, s: Node)
    requires NodeInv(env, coins, known, s)
    ensures WithinSupply(env, coins, s)
  {
    hide Vetted, Replay, Rooted, Linked, Stored, CleanBase, Flagged, Chain, Total, BlockSubsidy, Issued, SupplyFrom, Branch, FreshChain;
    var es := s.live.index.entries;
    InvRooted(env, coins, known, s);
    ChainIsBranch(es, s.best);
    ChainLength(es, s.best);
    BranchNoRepeats(es, Chain(es, s.best));
    var branch, base := Chain(es, s.best), BaseOf(coins, s.live.tables);
    BodiesFresh(known, s.blocks, branch[1..]);
    ReplaySupply(env, base, known, Bodies(s.blocks, branch[1..]));
    IssuedWithinMaxSupply(env.p, s.bestHeight + 1);
  }

  /** After any run the coins at tip height h are worth at most the coins at the start plus the subsidies of
      blocks 1..h, hence plus the maximum supply. */
  lemma SupplyBound(env: Env, coins: map<OutPoint, Coin>, known: set<Id>, s: Node, calls: seq<Call>)
    requires NodeInv(env, coins, known, s) && forall i :: 0 <= i < |calls| ==> calls[i].block.hash != NULL_HASH
    ensures WithinSupply(env, coins, Run(env, coins, known, s, calls))
  {
    hide NodeInv;
    RunKeeps(env, coins, known, s, calls);
    InvSupply(env, coins, known, Run(env, coins, known, s, calls));
  }

  // ----------------------------------------------------------------- fresh start

  /** A data directory that holds nothing but its genesis header. */
  function FreshNode(genesis: Block, work: nat): Node {
    var e := NewEntry(genesis, 0, work);
    var ix := Index(map[genesis.hash := e.(status := e.status + {MAIN_CHAIN})], map[0 := genesis.hash], Some(genesis.hash), 0);
    Node(Live(Tables(map[], map[], map[]), ix), map[], {}, genesis.hash, 0, work)
  }

  lemma FreshNodeInv(env: Env, genesis: Block, work: nat)
    requires genesis.prev == NULL_HASH && genesis.hash != NULL_HASH
    ensures NodeInv(env, map[], {}, FreshNode(genesis, work))
  {
    var s := FreshNode(genesis, work);
    var es, h := s.live.index.entries, genesis.hash;
    assert Rooted(es);
    assert Chain(es, genesis.prev) == [];
    assert Chain(es, h) == [h];
    assert HeightsOf(es, genesis.prev) == map[];
    assert Canonical(s.live.index);
    assert Bodies(s.blocks, [h][1..]) == [];
  }
}
