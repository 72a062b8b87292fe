/** What becomes of a block: the answer of on_block told from the tree, the blocks on file and
    replays, and why after any run a heavier branch that is stored is not the active one. */
module BlockOutcome {
  import opened Ledger
  import opened ChainIndex
  import opened Params
  import opened Compact
  import opened Retarget
  import opened Validation
  import opened ReorgSpec
  import opened SwitchRules
  import opened NodeSpec
  import opened BlockRules

  /** No transaction id of the block was ever stored, and none occurs in it twice. */
  predicate NewIds(s: Node, b: Block) {
    && (forall j :: 0 <= j < |b.txs| ==> b.txs[j].id !in s.txids)
    && forall j, k :: 0 <= j < k < |b.txs| ==> b.txs[j].id != b.txs[k].id
  }

  /** Chainwork of the branch that ends in the block. */
  function WorkWith(env: Env, s: Node, b: Block): nat
    requires b.prev in s.live.index.entries
  {
    s.live.index.entries[b.prev].work + BlockWork(env.p, b.bits)
  }

  /** The node with the block in its tree and on file, but no other tip yet. */
  function StoredWith(env: Env, s: Node, b: Block): Node
    requires b.prev in s.live.index.entries
  {
    WithBlock(env, s, b, WriteTxs(s.txids, b.txs, |b.txs|))
  }

  /** Could the node, the block stored, go over to its branch? */
  ghost predicate SwitchesTo(env: Env, coins: map<OutPoint, Coin>, s: Node, b: Block)
    requires b.prev in s.live.index.entries && Linked(StoredWith(env, s, b).live.index.entries)
  {
    var stored := StoredWith(env, s, b);
    CanSwitch(BaseOf(coins, stored.live.tables), stored.live.index.entries, stored.blocks, b.hash, s.best,
              Some(Checker(env)), env.maxReorgDepth)
  }

  /** The answer to a block: a block on the tip is judged on the tip's coins; a side block is stored if its ids are new, and
      with more work than the tip it is switched to exactly when its branch allows it. */
  ghost function ReplyFor(env: Env, coins: map<OutPoint, Coin>, s: Node, b: Block): Reply
    requires Rooted(s.live.index.entries) && b.hash != NULL_HASH
  {
    var ix := s.live.index;
    if b.hash in ix.entries then AlreadyKnown
    else if b.prev !in ix.entries then Orphan
    else
      var height := ix.entries[b.prev].height + 1;
      if b.prev == s.best then
        if !(HeaderObeys(env.p, ix, b, height) && BlockObeys(env.p, env.rules, s.live.tables.utxo, b, height)) then StatefulValidationFailed
        else if !NewIds(s, b) then WriteRaised
        else Connected
      else if !env.basicOk(b, if b.prev in s.blocks then Some(s.blocks[b.prev]) else None, height) then ConsensusRuleInvalid
      else if !NewIds(s, b) then WriteRaised
      else if WorkWith(env, s, b) <= s.bestWork then StoredFork
      else
        WithBlockLinked(env, s, b, WriteTxs(s.txids, b.txs, |b.txs|));
        if SwitchesTo(env, coins, s, b) then Reorganised else ReorgPreflightFailed
  }

  // ------------------------------------------------------------------ single calls

  lemma {:induction false} WriteExactly(s: Node, txs: seq<Tx>, n: nat)
    requires n <= |txs|
    ensures WriteTxs(s.txids, txs, n).ok <==>
            && (forall j :: 0 <= j < n ==> txs[j].id !in s.txids)
            && forall j, k :: 0 <= j < k < n ==> txs[j].id != txs[k].id
    decreases n
  {
    if n > 0 {
      WriteExactly(s, txs, n - 1);
      WriteShape(s.txids, txs, n - 1);
      if WriteTxs(s.txids, txs, n - 1).ok {
        var x := txs[n - 1].id;
        assert x in Ids(txs[..n - 1]) <==> exists j :: 0 <= j < n - 1 && txs[j].id == x by {
          if j :| 0 <= j < n - 1 && txs[j].id == x {
            assert txs[..n - 1][j].id == x;
          }
        }
      }
    }
  }

  lemma CheckerIsBlind(env: Env)
    ensures Blind(Checker(env))
  {
    forall utxo, ix: Index, jx: Index, b, h | SameTree(ix.entries, jx.entries) && ix.heights == jx.heights
      ensures Checker(env)(utxo, ix, b, h) == Checker(env)(utxo, jx, b, h)
    {
      SameVerdict(env, utxo, ix, jx, b, h);
    }
  }

  lemma SameVerdict(env: Env, utxo: map<OutPoint, Coin>, ix: Index, jx: Index, b: Block, h: nat)
    requires SameTree(ix.entries, jx.entries) && ix.heights == jx.heights
    ensures BlockAccepted(env.p, env.rules, utxo, ix, b, h) == BlockAccepted(env.p, env.rules, utxo, jx, b, h)
  {
    hide TxsAccepted, SubsidyAccepted, ExpectedBits, MedianTimePast;
    forall x | x in ix.entries
      ensures x in jx.entries && ix.entries[x].bits == jx.entries[x].bits && ix.entries[x].time == jx.entries[x].time
    {
      assert ix.entries[x].(status := {}) == jx.entries[x].(status := {});
    }
    assert IndexView(ix) == IndexView(jx);
  }

  /** With the validator as callback a block stands on its ancestors exactly when it is on file and obeys the rules there. */
  lemma StandsExactly(env: Env, base: Tables, es: Entries, blocks: map<Id, Block>, branch: seq<Id>, k: nat)
    requires 1 <= k < |branch|
    ensures StandsOn(base, es, blocks, branch, Some(Checker(env)), k) <==>
            && AllIn(blocks, branch[1..k]) && branch[k] in blocks
            && var below := Replay(base, Bodies(blocks, branch[1..k]), 1);
            && below.ok
            && HeaderObeys(env.p, Index(es, HeightsView(branch[..k]), None, k - 1), blocks[branch[k]], k)
            && BlockObeys(env.p, env.rules, below.tables.utxo, blocks[branch[k]], k)
  {
    hide Replay, BlockAccepted, HeaderObeys, Connect, IndexView;
    if AllIn(blocks, branch[1..k]) && branch[k] in blocks {
      var below := Replay(base, Bodies(blocks, branch[1..k]), 1).tables;
      var b := blocks[branch[k]];
      AcceptedExactly(env.p, env.rules, below.utxo, Index(es, HeightsView(branch[..k]), None, k - 1), b, k);
      if BlockObeys(env.p, env.rules, below.utxo, b, k) {
        TxsAcceptedIs(env.p, env.rules, below.utxo, b.txs, k);
        ValidatedConnects(env.p, env.rules, below, b, k);
      }
    }
  }

  /** The answer of on_block is the one told in advance, and the tip moves to the block exactly when it is Connected or Reorganised. */
  lemma RepliesExactly(env: Env, coins: map<OutPoint, Coin>, known: set<Id>, s: Node, b: Block, open: bool, openLater: bool)
    requires NodeInv(env, coins, known, s) && b.hash != NULL_HASH
    ensures Rooted(s.live.index.entries) && s.best in s.live.index.entries
    ensures var r := OnBlock(env, s, b, open, openLater);
            && r.1 == ReplyFor(env, coins, s, b)
            && r.0.best == if r.1 == Connected || r.1 == Reorganised then b.hash else s.best
  {
    hide Rooted, Linked, NodeInv, Activate, WriteTxs, WithBlock, BlockAccepted, HeaderObeys, BlockObeys, SwitchesTo, BlockWork;
    var ix := s.live.index;
    InvRooted(env, coins, known, s);
    OnBlockKeeps(env, coins, known, s, b, open, openLater);
    if b.hash !in ix.entries && b.prev in ix.entries {
      var height := ix.entries[b.prev].height + 1;
      AcceptedExactly(env.p, env.rules, s.live.tables.utxo, ix, b, height);
      WriteExactly(s, b.txs, |b.txs|);
      var w := WriteTxs(s.txids, b.txs, |b.txs|);
      if w.ok && (s.best == b.prev ==> BlockAccepted(env.p, env.rules, s.live.tables.utxo, ix, b, height)) {
        WithBlockLinked(env, s, b, w);
        ActivateExactly(env, coins, known, s, b, openLater);
      }
    }
  }

  lemma ActivateExactly(env: Env, coins: map<OutPoint, Coin>, known: set<Id>, s: Node, b: Block, open: bool)
    requires NodeInv(env, coins, known, s) && b.hash != NULL_HASH && WriteTxs(s.txids, b.txs, |b.txs|).ok
    requires b.prev in s.live.index.entries && b.hash !in s.live.index.entries
    requires s.best == b.prev ==>
               BlockAccepted(env.p, env.rules, s.live.tables.utxo, s.live.index, b, s.live.index.entries[b.prev].height + 1)
    ensures var stored := StoredWith(env, s, b);
            && Linked(stored.live.index.entries) && b.hash in stored.live.index.entries && stored.best in stored.live.index.entries
            && Activate(env, stored, b, open).1 ==
               if b.prev == s.best then Connected
               else if WorkWith(env, s, b) <= s.bestWork then StoredFork
               else if SwitchesTo(env, coins, s, b) then Reorganised else ReorgPreflightFailed
  {
    hide Rooted, Linked, NodeInv, ConnectTip, WriteTxs, WithBlock, BlockAccepted, BlockWork, Reorganise, CanSwitch, WorkWith;
    InvRooted(env, coins, known, s);
    var w := WriteTxs(s.txids, b.txs, |b.txs|);
    var stored := WithBlock(env, s, b, w);
    WithBlockLinked(env, s, b, w);
    WithBlockKeeps(env, coins, known, s, b);
    StoredEntry(env, coins, known, s, b);
    if s.best != b.prev {
      ReorganiseExactly(env, coins, known, stored, b.hash, open);
    } else {
      TipVet(env, coins, known, s, b);
      WithBlockWork(env, coins, known, s, b, w);
      ConnectTipKeeps(env, coins, known, stored, b, open);
    }
  }

  lemma ReorganiseExactly(env: Env, coins: map<OutPoint, Coin>, known: set<Id>, s: Node, h: Id, open: bool)
    requires NodeInv(env, coins, known, s) && Linked(s.live.index.entries) && h in s.live.index.entries
    ensures s.best in s.live.index.entries
    ensures Reorganise(env, s, h, open).1 ==
            if CanSwitch(BaseOf(coins, s.live.tables), s.live.index.entries, s.blocks, h, s.best, Some(Checker(env)), env.maxReorgDepth)
            then Reorganised else ReorgPreflightFailed
  {
    hide Rooted, Linked, NodeInv, InSync, DryRun, Commit, CanSwitch, SetBest, Blind, Checker;
    InvRooted(env, coins, known, s);
    CheckerIsBlind(env);
    InvSync(env, coins, known, s);
    ReorganiseKeeps(env, coins, known, s, h, open);
    SwitchExactly(BaseOf(coins, s.live.tables), known, s.blocks, s.live, open, h, Some(Checker(env)), env.maxReorgDepth);
  }

  lemma InvSync(env: Env, coins: map<OutPoint, Coin>, known: set<Id>, s: Node)
    requires NodeInv(env, coins, known, s)
    ensures InSync(BaseOf(coins, s.live.tables), known, s.blocks, s.live) && s.live.index.best == Some(s.best)
  {
    hide InSync, Vetted;
  }

  lemma StoredEntry(env: Env, coins: map<OutPoint, Coin>, known: set<Id>, s: Node, b: Block)
    requires NodeInv(env, coins, known, s)
    requires b.prev in s.live.index.entries && b.hash !in s.live.index.entries
    ensures var stored := StoredWith(env, s, b);
            && stored.live.index.entries.Keys == s.live.index.entries.Keys + {b.hash}
            && stored.live.index.entries[b.hash].work == WorkWith(env, s, b)
            && stored.bestWork == s.bestWork && stored.best == s.best
            && forall h :: h in s.live.index.entries ==> stored.live.index.entries[h] == s.live.index.entries[h]
  {
    hide Rooted, Linked, Flagged, Vetted, Replay, Chain, Stored, BlockWork, WriteTxs;
  }

  // ------------------------------------------------------------------ whole runs

  /** The tree after a call: as it was, or with the block in it. */
  lemma TreeAfter(env: Env, coins: map<OutPoint, Coin>, known: set<Id>, s: Node, b: Block, open: bool, openLater: bool)
    requires NodeInv(env, coins, known, s) && b.hash != NULL_HASH
    ensures Rooted(s.live.index.entries) && s.best in s.live.index.entries
    ensures var (r, reply) := OnBlock(env, s, b, open, openLater);
            var es, fs := s.live.index.entries, r.live.index.entries;
            && (forall h :: h in es ==> h in fs && fs[h].work == es[h].work)
            && (forall h :: h in fs ==> h in es || h == b.hash)
            && (b.hash in fs && b.hash !in es ==>
                  fs[b.hash].work == WorkWith(env, s, b)
                  && (reply == Connected || reply == StoredFork || reply == Reorganised || reply == ReorgPreflightFailed))
  {
    hide Rooted, Linked, NodeInv, Activate, WriteTxs, WithBlock, BlockAccepted, BlockWork;
    var ix := s.live.index;
    InvRooted(env, coins, known, s);
    if b.hash !in ix.entries && b.prev in ix.entries {
      var w := WriteTxs(s.txids, b.txs, |b.txs|);
      if w.ok {
        WithBlockLinked(env, s, b, w);
        if s.best == b.prev ==> BlockAccepted(env.p, env.rules, s.live.tables.utxo, ix, b, ix.entries[b.prev].height + 1) {
          StoredEntry(env, coins, known, s, b);
          ActivateTree(env, WithBlock(env, s, b, w), b, openLater);
          ActivateKeeps(env, coins, known, s, b, openLater);
        }
      }
    }
  }

  lemma ActivateTree(env: Env, s: Node, b: Block, open: bool)
    requires Linked(s.live.index.entries) && b.hash in s.live.index.entries && s.best in s.live.index.entries
    ensures var (r, reply) := Activate(env, s, b, open);
            && SameWork(s.live.index.entries, r.live.index.entries)
            && (reply == Connected || reply == StoredFork || reply == Reorganised || reply == ReorgPreflightFailed
                || reply == ConnectFailed || reply == ReorgFailed)
  {
    hide Linked, SetBest, Connect, DryRun, Commit, SameTree, BlockAccepted;
    var es := s.live.index.entries;
    SameWorkOf(es, es);
    if s.best == b.prev {
      var c := ConnectLive(s.live, b);
      ChainSameTree(es, c.live.index.entries, b.hash);
      SameWorkOf(es, c.live.index.entries);
      SameWorkOf(c.live.index.entries, SetBest(c.live.index, b.hash).entries);
    } else if es[b.hash].work > s.bestWork {
      var check := Some(Checker(env));
      var dry := DryRun(s.live, b.hash, s.best, s.blocks, check, env.maxReorgDepth);
      ChainSameTree(es, dry.live.index.entries, b.hash);
      SameWorkOf(es, dry.live.index.entries);
      var r := Commit(dry.live, open, b.hash, s.best, s.blocks, check, env.maxReorgDepth);
      ChainSameTree(dry.live.index.entries, r.live.index.entries, b.hash);
      SameWorkOf(dry.live.index.entries, r.live.index.entries);
      SameWorkOf(r.live.index.entries, SetBest(r.live.index, b.hash).entries);
    }
  }

  ghost predicate SameWork(es: Entries, fs: Entries) {
    es.Keys == fs.Keys && forall h :: h in es ==> fs[h].work == es[h].work
  }

  lemma SameWorkOf(es: Entries, fs: Entries)
    requires SameTree(es, fs) || es == fs
    ensures SameWork(es, fs)
  {
    forall h | h in es
      ensures h in fs && fs[h].work == es[h].work
    {
      assert es[h].(status := {}) == fs[h].(status := {});
    }
  }

  /** Block h came with call i, was on a branch with more work than the tip, and could not be switched to. */
  ghost predicate RefusedAt(env: Env, coins: map<OutPoint, Coin>, known: set<Id>, s: Node, calls: seq<Call>, h: Id, i: nat)
    requires NodeInv(env, coins, known, s) && forall k :: 0 <= k < |calls| ==> calls[k].block.hash != NULL_HASH
  {
    && i < |calls| && calls[i].block.hash == h
    && var at := Run(env, coins, known, s, calls[..i]);
    && h !in at.live.index.entries && calls[i].block.prev in at.live.index.entries && NewIds(at, calls[i].block)
    && WorkWith(env, at, calls[i].block) > at.bestWork
    && Linked(StoredWith(env, at, calls[i].block).live.index.entries) && !SwitchesTo(env, coins, at, calls[i].block)
  }

  lemma RefusedMeans(env: Env, coins: map<OutPoint, Coin>, s: Node, b: Block)
    requires Rooted(s.live.index.entries) && b.hash != NULL_HASH && ReplyFor(env, coins, s, b) == ReorgPreflightFailed
    ensures b.hash !in s.live.index.entries && b.prev in s.live.index.entries && NewIds(s, b) && WorkWith(env, s, b) > s.bestWork
    ensures Linked(StoredWith(env, s, b).live.index.entries) && !SwitchesTo(env, coins, s, b)
  {
    hide HeaderObeys, BlockObeys, BlockWork, SwitchesTo, Rooted, Linked, WithBlock, WriteTxs;
    WithBlockLinked(env, s, b, WriteTxs(s.txids, b.txs, |b.txs|));
  }

  lemma RunFirst(env: Env, coins: map<OutPoint, Coin>, known: set<Id>, s: Node, calls: seq<Call>, i: nat)
    requires NodeInv(env, coins, known, s) && forall k :: 0 <= k < |calls| ==> calls[k].block.hash != NULL_HASH
    requires 0 < i <= |calls|
    ensures Rooted(s.live.index.entries) && s.best in s.live.index.entries
    ensures var next := OnBlock(env, s, calls[0].block, calls[0].open, calls[0].openLater).0;
            NodeInv(env, coins, known, next) && Run(env, coins, known, s, calls[..i]) == Run(env, coins, known, next, calls[1..][..i - 1])
  {
    hide NodeInv, OnBlock;
    OnBlockKeeps(env, coins, known, s, calls[0].block, calls[0].open, calls[0].openLater);
    assert calls[..i][1..] == calls[1..][..i - 1];
  }

  /** Over every run: a stored branch with more work than the tip is one that was heavier before the run, or one whose last
      block, when it came, could not be switched to for one of the reasons that the branches give. */
  lemma {:induction false} HeavierWasRefused(env: Env, coins: map<OutPoint, Coin>, known: set<Id>, s: Node, calls: seq<Call>, h: Id)
    requires NodeInv(env, coins, known, s) && forall k :: 0 <= k < |calls| ==> calls[k].block.hash != NULL_HASH
    requires h in s.live.index.entries ==> s.live.index.entries[h].work <= s.bestWork
    ensures var r := Run(env, coins, known, s, calls);
            h in r.live.index.entries && r.live.index.entries[h].work > r.bestWork ==>
              exists i :: RefusedAt(env, coins, known, s, calls, h, i)
    decreases |calls|
  {
    hide NodeInv, OnBlock, ReplyFor, WorkWith, Rooted, Linked, SwitchesTo, StoredWith, NewIds;
    if calls != [] {
      var c := calls[0];
      InvRooted(env, coins, known, s);
      OnBlockKeeps(env, coins, known, s, c.block, c.open, c.openLater);
      TreeAfter(env, coins, known, s, c.block, c.open, c.openLater);
      RepliesExactly(env, coins, known, s, c.block, c.open, c.openLater);
      TipWork(env, coins, known, s, c);
      var next := OnBlock(env, s, c.block, c.open, c.openLater).0;
      if h in next.live.index.entries && next.live.index.entries[h].work > next.bestWork {
        assert calls[..0] == [];
        RefusedMeans(env, coins, s, c.block);
        assert RefusedAt(env, coins, known, s, calls, h, 0);
      } else {
        HeavierWasRefused(env, coins, known, next, calls[1..], h);
        if i: nat :| RefusedAt(env, coins, known, next, calls[1..], h, i) {
          RunFirst(env, coins, known, s, calls, i + 1);
          assert RefusedAt(env, coins, known, s, calls, h, i + 1);
        }
      }
    }
  }

  /** A block that was added and is heavier than the tip afterwards was refused at the preflight. */
  lemma TipWork(env: Env, coins: map<OutPoint, Coin>, known: set<Id>, s: Node, c: Call)
    requires NodeInv(env, coins, known, s) && c.block.hash != NULL_HASH
    ensures Rooted(s.live.index.entries) && s.best in s.live.index.entries
    ensures var (r, reply) := OnBlock(env, s, c.block, c.open, c.openLater);
            && r.bestWork >= s.bestWork
            && (c.block.hash !in s.live.index.entries && c.block.hash in r.live.index.entries ==>
                  r.live.index.entries[c.block.hash].work > r.bestWork ==> reply == ReorgPreflightFailed)
  {
    hide NodeInv, OnBlock, ReplyFor, Rooted;
    InvRooted(env, coins, known, s);
    OnBlockKeeps(env, coins, known, s, c.block, c.open, c.openLater);
    TreeAfter(env, coins, known, s, c.block, c.open, c.openLater);
    RepliesExactly(env, coins, known, s, c.block, c.open, c.openLater);
    var (r, reply) := OnBlock(env, s, c.block, c.open, c.openLater);
    InvRooted(env, coins, known, r);
    if c.block.hash !in s.live.index.entries && c.block.hash in r.live.index.entries && reply == StoredFork {
      ForkIsLight(env, coins, s, c.block);
    }
  }

  lemma ForkIsLight(env: Env, coins: map<OutPoint, Coin>, s: Node, b: Block)
    requires Rooted(s.live.index.entries) && b.hash != NULL_HASH && ReplyFor(env, coins, s, b) == StoredFork
    ensures b.prev in s.live.index.entries && WorkWith(env, s, b) <= s.bestWork
  {
    hide HeaderObeys, BlockObeys, BlockWork, SwitchesTo;
  }

  /** From an empty data directory: every stored branch that is heavier than the active one was refused when it came. */
  lemma FreshHeavierWasRefused(env: Env, genesis: Block, work: nat, calls: seq<Call>, h: Id)
    requires genesis.prev == NULL_HASH && genesis.hash != NULL_HASH
    requires forall k :: 0 <= k < |calls| ==> calls[k].block.hash != NULL_HASH
    ensures NodeInv(env, map[], {}, FreshNode(genesis, work))
    ensures var start := FreshNode(genesis, work);
            var r := Run(env, map[], {}, start, calls);
            h in r.live.index.entries && r.live.index.entries[h].work > r.bestWork ==>
              exists i :: RefusedAt(env, map[], {}, start, calls, h, i)
  {
    FreshNodeInv(env, genesis, work);
    hide NodeInv, RefusedAt, Run;
    HeavierWasRefused(env, map[], {}, FreshNode(genesis, work), calls, h);
  }

  // --------------------------------------------------------------- the outputs table

  /** Every output of every block on file has its row. */
  ghost predicate RowsFor(s: Node) {
    forall h, j, n: nat :: h in s.blocks && 0 <= j < |s.blocks[h].txs| && n < |s.blocks[h].txs[j].vout| ==>
      OutPoint(s.blocks[h].txs[j].id, n) in s.live.tables.marks
  }

  lemma {:induction false} WrittenRows(txids: set<Id>, txs: seq<Tx>, n: nat, o: OutPoint)
    requires n <= |txs| && WriteTxs(txids, txs, n).ok
    ensures o in WriteTxs(txids, txs, n).rows <==> exists j :: 0 <= j < n && txs[j].id == o.txid && o.index < |txs[j].vout|
    decreases n
  {
    if n > 0 {
      WrittenRows(txids, txs, n - 1, o);
      var tx := txs[n - 1];
      if tx.id == o.txid && o.index < |tx.vout| {
        assert o == OutPoint(tx.id, o.index) && o in tx.Outs(|tx.vout|);
      }
    }
  }

  /** Rows are never lost, and a block that goes on file brings its own. */
  lemma RowsAfter(env: Env, coins: map<OutPoint, Coin>, known: set<Id>, s: Node, b: Block, open: bool, openLater: bool)
    requires NodeInv(env, coins, known, s) && b.hash != NULL_HASH && RowsFor(s)
    ensures Rooted(s.live.index.entries) && s.best in s.live.index.entries
    ensures RowsFor(OnBlock(env, s, b, open, openLater).0)
  {
    hide Rooted, Linked, NodeInv, Activate, WriteTxs, WithBlock, BlockAccepted, BlockWork;
    var ix := s.live.index;
    InvRooted(env, coins, known, s);
    if b.hash !in ix.entries && b.prev in ix.entries {
      var w := WriteTxs(s.txids, b.txs, |b.txs|);
      if w.ok {
        WithBlockLinked(env, s, b, w);
        if s.best == b.prev ==> BlockAccepted(env.p, env.rules, s.live.tables.utxo, ix, b, ix.entries[b.prev].height + 1) {
          StoredRows(env, s, b);
          ActivateRows(env, coins, known, s, b, openLater);
        }
      }
    }
  }

  lemma StoredRows(env: Env, s: Node, b: Block)
    requires b.prev in s.live.index.entries && WriteTxs(s.txids, b.txs, |b.txs|).ok && RowsFor(s)
    ensures RowsFor(StoredWith(env, s, b))
  {
    hide WriteTxs, AddBlock, BlockWork;
    var r := StoredWith(env, s, b);
    forall h, j, n: nat | h in r.blocks && 0 <= j < |r.blocks[h].txs| && n < |r.blocks[h].txs[j].vout|
      ensures OutPoint(r.blocks[h].txs[j].id, n) in r.live.tables.marks
    {
      if h == b.hash {
        WrittenRows(s.txids, b.txs, |b.txs|, OutPoint(b.txs[j].id, n));
      }
    }
  }

  lemma ActivateRows(env: Env, coins: map<OutPoint, Coin>, known: set<Id>, s: Node, b: Block, open: bool)
    requires NodeInv(env, coins, known, s) && b.hash != NULL_HASH && WriteTxs(s.txids, b.txs, |b.txs|).ok
    requires b.prev in s.live.index.entries && b.hash !in s.live.index.entries
    requires s.best == b.prev ==>
               BlockAccepted(env.p, env.rules, s.live.tables.utxo, s.live.index, b, s.live.index.entries[b.prev].height + 1)
    ensures var stored := StoredWith(env, s, b);
            && Linked(stored.live.index.entries) && b.hash in stored.live.index.entries && stored.best in stored.live.index.entries
            && var r := Activate(env, stored, b, open).0;
            r.blocks == stored.blocks && r.live.tables.marks.Keys == stored.live.tables.marks.Keys
  {
    hide Rooted, Linked, NodeInv, ConnectTip, Reorganise, WriteTxs, WithBlock, BlockAccepted, BlockWork;
    InvRooted(env, coins, known, s);
    var w := WriteTxs(s.txids, b.txs, |b.txs|);
    var stored := WithBlock(env, s, b, w);
    WithBlockLinked(env, s, b, w);
    WithBlockKeeps(env, coins, known, s, b);
    WithBlockWork(env, coins, known, s, b, w);
    if s.best != b.prev {
      ReorganiseKeeps(env, coins, known, stored, b.hash, open);
    } else {
      TipVet(env, coins, known, s, b);
      ConnectTipKeeps(env, coins, known, stored, b, open);
    }
  }

  /** After any run every output of every block on file has its row; the run's other results say what is in it. */
  lemma {:induction false} RowsThroughout(env: Env, coins: map<OutPoint, Coin>, known: set<Id>, s: Node, calls: seq<Call>)
    requires NodeInv(env, coins, known, s) && RowsFor(s) && forall k :: 0 <= k < |calls| ==> calls[k].block.hash != NULL_HASH
    ensures RowsFor(Run(env, coins, known, s, calls))
    decreases |calls|
  {
    hide NodeInv, OnBlock, RowsFor;
    if calls != [] {
      var c := calls[0];
      OnBlockKeeps(env, coins, known, s, c.block, c.open, c.openLater);
      RowsAfter(env, coins, known, s, c.block, c.open, c.openLater);
      RowsThroughout(env, coins, known, OnBlock(env, s, c.block, c.open, c.openLater).0, calls[1..]);
    }
  }
}
