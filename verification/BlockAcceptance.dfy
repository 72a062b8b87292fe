/** The node: `on_block` and what it calls, on the mutable database, index and
    chain state.  OnBlock is proved to be the step function of `NodeSpec`. */
module BlockAcceptance {
  import opened Ledger
  import opened ChainIndex
  import opened ReorgSpec
  import opened BlockConnection
  import opened Reorganisation
  import opened Params
  import opened Compact
  import opened Validation
  import opened NodeSpec

  class BerzCoinNode {
    const env: Env
    const db: Database
    const index: BlockIndex
    const reorg: ReorgManager
    var blocks: map<Id, Block> // block files
    var best: Id
    var bestHeight: int
    var bestWork: nat

    ghost predicate Valid() {
      && reorg.Valid() && reorg.db == db && reorg.index == index && reorg.maxReorgDepth == env.maxReorgDepth
      && env.p.powLimit < TWO_POW_256
    }

    function State(): Node
      reads this, db, index
    {
      Node(LiveOf(db, index), blocks, db.txids, best, bestHeight, bestWork)
    }

    constructor (env: Env, db: Database, index: BlockIndex, blocks: map<Id, Block>, best: Id, bestHeight: int, bestWork: nat)
      requires env.p.powLimit < TWO_POW_256
      ensures Valid() && this.env == env && this.db == db && this.index == index
      ensures State() == Node(LiveOf(db, index), blocks, db.txids, best, bestHeight, bestWork)
    {
      this.env, this.db, this.index, this.blocks := env, db, index, blocks;
      this.best, this.bestHeight, this.bestWork := best, bestHeight, bestWork;
      reorg := new ReorgManager(db, index, env.maxReorgDepth);
    }

    method ValidateBlockStateful(b: Block, height: nat) returns (ok: bool)
      requires Valid()
      ensures ok == BlockAccepted(env.p, env.rules, db.utxo, index.State(), b, height)
    {
      ok := ValidateBlock(env.p, env.rules, db.utxo, index.State(), b, height);
    }

    /** Inserts one row per transaction and per output; the first id that is already there stops it. */
    method WriteBlock(b: Block) returns (ok: bool)
      modifies db
      ensures var w := WriteTxs(old(db.txids), b.txs, |b.txs|);
              && ok == w.ok
              && (ok || old(db.inTransaction) ==> db.txids == w.txids && db.Rows() == WithRows(old(db.Rows()), w.rows))
              && (!ok && !old(db.inTransaction) ==> db.txids == old(db.txids) && db.Rows() == old(db.Rows()))
      ensures db.inTransaction == old(db.inTransaction)
    {
      var scope := db.Begin();
      ok := InsertRows(b);
      db.End(scope, ok);
    }

    method InsertRows(b: Block) returns (ok: bool)
      modifies db`txids, db`marks
      ensures var w := WriteTxs(old(db.txids), b.txs, |b.txs|);
              ok == w.ok && db.txids == w.txids && db.Rows() == WithRows(old(db.Rows()), w.rows)
    {
      hide Tx.Outs;
      ghost var ids, marks := db.txids, db.marks;
      assert marks + map[] == marks;
      for k := 0 to |b.txs|
        invariant WriteTxs(ids, b.txs, k).ok && db.txids == WriteTxs(ids, b.txs, k).txids
        invariant db.marks == marks + WriteTxs(ids, b.txs, k).rows
      {
        var tx := b.txs[k];
        if tx.id in db.txids {
          WriteStops(ids, b.txs, k + 1, |b.txs|);
          return false;
        }
        ghost var rows := WriteTxs(ids, b.txs, k).rows;
        db.txids := db.txids + {tx.id};
        InsertOutputs(tx);
        PlusAssociates(marks, rows, map o | o in tx.Outs(|tx.vout|) :: CLEAN);
      }
      return true;
    }

    method InsertOutputs(tx: Tx)
      modifies db`marks
      ensures db.marks == old(db.marks) + map o | o in tx.Outs(|tx.vout|) :: CLEAN
    {
      ghost var start := db.marks;
      for j := 0 to |tx.vout|
        invariant db.marks == start + map o | o in tx.Outs(j) :: CLEAN
      {
        assert tx.Outs(j + 1) == tx.Outs(j) + {OutPoint(tx.id, j)};
        db.marks := db.marks[OutPoint(tx.id, j) := CLEAN];
      }
    }

    method SetBestBlock(h: Id)
      requires Linked(index.entries) && h in index.entries
      modifies this, index
      ensures State() == NodeSpec.SetBestBlock(old(State()), old(State().live), h)
    {
      hide Linked, SetBest;
      var e := index.entries[h];
      best, bestHeight, bestWork := h, e.height, e.work;
      index.SetBestChainTip(h);
    }

    method ConnectAsNewTip(b: Block, open: bool) returns (reply: Reply)
      requires Valid() && Linked(index.entries) && b.hash in index.entries && db.inTransaction == open
      modifies this, db, index
      ensures (State(), reply) == ConnectTip(old(State()), b, open)
    {
      hide Linked, SetBest, ConnectLive, SameTree;
      var connect := new ConnectBlock(db, index);
      ghost var start := State();
      var ok := connect.Connect(b);
      ChainSameTree(start.live.index.entries, index.entries, b.hash);
      SameKeys(start.live.index.entries, index.entries);
      if !ok {
        return ConnectFailed;
      }
      SetBestBlock(b.hash);
      return Connected;
    }

    /** The rehearsal and, if it went well, the switch. */
    method TryReorganise(h: Id, open: bool) returns (reply: Reply)
      requires Valid() && Linked(index.entries) && h in index.entries && best in index.entries
      modifies this, db, index
      ensures (State(), reply) == NodeSpec.Reorganise(env, old(State()), h, open)
    {
      hide Linked, SetBest, SameTree, DryRun, Commit, BlockAccepted, MakePlan;
      ghost var start := State();
      var check := Some(Checker(env));
      var ok := reorg.CanReorganize(h, best, blocks, check);
      ChainSameTree(start.live.index.entries, index.entries, h);
      SameKeys(start.live.index.entries, index.entries);
      if !ok {
        return ReorgPreflightFailed;
      }
      ghost var middle := index.entries;
      db.inTransaction := open;
      var disconnected, connected;
      ok, disconnected, connected := reorg.Reorganize(h, best, blocks, check);
      ChainSameTree(middle, index.entries, h);
      SameKeys(middle, index.entries);
      if !ok {
        return ReorgFailed;
      }
      SetBestBlock(h);
      return Reorganised;
    }

    /** The acceptance pipeline for one block.  `open` and `openLater` are what the database connection
        reports about an open transaction when the block is written and when it is connected. */
    method OnBlock(b: Block, open: bool, openLater: bool) returns (reply: Reply)
      requires Valid() && Rooted(index.entries) && best in index.entries && b.hash != NULL_HASH
      modifies this, db, index
      ensures (State(), reply) == NodeSpec.OnBlock(env, old(State()), b, open, openLater)
    {
      hide Rooted, Linked, ConnectTip, NodeSpec.Reorganise, BlockAccepted, WriteTxs, ChainIndex.AddBlock;
      if b.hash in index.entries {
        return AlreadyKnown;
      }
      if b.prev !in index.entries {
        return NodeSpec.Orphan;
      }
      var parent := index.entries[b.prev];
      var height := parent.height + 1;
      var onTip := best == b.prev;
      if onTip {
        var accepted := ValidateBlockStateful(b, height);
        if !accepted {
          return StatefulValidationFailed;
        }
      } else if !env.basicOk(b, if b.prev in blocks then Some(blocks[b.prev]) else None, height) {
        return ConsensusRuleInvalid;
      }
      ghost var start := State();
      db.inTransaction := open;
      var written := WriteBlock(b);
      if !written {
        return WriteRaised;
      }
      index.AddBlock(b, height, parent.work + BlockWork(env.p, b.bits));
      blocks := blocks[b.hash := b];
      ghost var w := WriteTxs(start.txids, b.txs, |b.txs|);
      assert State() == WithBlock(env, start, b, w);
      WithBlockLinked(env, start, b, w);
      db.inTransaction := openLater;
      if onTip {
        reply := ConnectAsNewTip(b, openLater);
      } else if index.entries[b.hash].work <= bestWork {
        reply := StoredFork;
      } else {
        reply := TryReorganise(b.hash, openLater);
      }
    }
  }

  lemma PlusAssociates(a: map<OutPoint, Mark>, b: map<OutPoint, Mark>, c: map<OutPoint, Mark>)
    ensures a + (b + c) == (a + b) + c
  {
  }

  lemma {:induction false} WriteStops(txids: set<Id>, txs: seq<Tx>, n: nat, m: nat)
    requires n <= m <= |txs| && !WriteTxs(txids, txs, n).ok
    ensures WriteTxs(txids, txs, m) == WriteTxs(txids, txs, n)
    decreases m
  {
    if n < m {
      WriteStops(txids, txs, n, m - 1);
    }
  }
}
