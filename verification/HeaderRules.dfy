/** Difficulty and time rules over whole runs: every block of the active branch
    has the bits and the time that its own ancestors demand, although the
    validator looks them up by height in a map that a reorganisation rewrites. */
module HeaderRules {
  import opened Ledger
  import opened ChainIndex
  import opened ReorgSpec
  import opened Params
  import opened Compact
  import opened Retarget
  import opened Validation
  import opened NodeSpec

  /** The headers of a branch, by height. */
  function HeadersOf(es: Entries, c: seq<Id>): View
    requires Known(es, c)
  {
    map i: nat | i < |c| :: Header(es[c[i]].bits, es[c[i]].time)
  }

  /** This header on top of this branch: bits as the retargeting rule demands, time past the median. */
  predicate HeaderRight(p: Params, es: Entries, c: seq<Id>, h: Header)
    requires Known(es, c) && c != []
  {
    && h.time > MedianTimePast(p, HeadersOf(es, c), |c|)
    && ExpectedBits(p, HeadersOf(es, c), |c|, es[c[|c| - 1]].bits) == Some(h.bits)
  }

  /** Every block of the branch above its root sits rightly on those below it. */
  predicate HeadersRight(p: Params, es: Entries, c: seq<Id>)
    requires Known(es, c)
    decreases |c|
  {
    |c| <= 1 ||
    (var init, e := c[..|c| - 1], es[c[|c| - 1]];
     HeadersRight(p, es, init) && HeaderRight(p, es, init, Header(e.bits, e.time)))
  }

  lemma HeadersSnoc(p: Params, es: Entries, c: seq<Id>, h: Id)
    requires Known(es, c) && h in es && c != []
    ensures Known(es, c + [h])
    ensures HeadersRight(p, es, c + [h]) <==> HeadersRight(p, es, c) && HeaderRight(p, es, c, Header(es[h].bits, es[h].time))
  {
    hide HeaderRight;
    assert (c + [h])[..|c|] == c;
  }

  lemma {:induction false} HeadersPrefix(p: Params, es: Entries, c: seq<Id>, d: seq<Id>)
    requires Known(es, c + d) && Known(es, c) && HeadersRight(p, es, c + d)
    ensures HeadersRight(p, es, c)
    decreases |d|
  {
    hide HeaderRight;
    if d == [] {
      assert c + d == c;
    } else if c != [] {
      var init := d[..|d| - 1];
      assert (c + d)[..|c + d| - 1] == c + init;
      HeadersPrefix(p, es, c, init);
    }
  }

  // Status flags and blocks off the branch do not matter.
  predicate SameHeaders(es: Entries, fs: Entries, c: seq<Id>) {
    forall i :: 0 <= i < |c| ==> c[i] in es && c[i] in fs && es[c[i]].bits == fs[c[i]].bits && es[c[i]].time == fs[c[i]].time
  }

  lemma {:induction false} HeadersFrame(p: Params, es: Entries, fs: Entries, c: seq<Id>)
    requires SameHeaders(es, fs, c) && Known(es, c) && HeadersRight(p, es, c)
    ensures Known(fs, c) && HeadersRight(p, fs, c)
    decreases |c|
  {
    if |c| > 1 {
      hide ExpectedBits, MedianTimePast;
      var init := c[..|c| - 1];
      HeadersFrame(p, es, fs, init);
      assert HeadersOf(es, init) == HeadersOf(fs, init);
    }
  }

  lemma SameEntry(es: Entries, fs: Entries, h: Id)
    requires SameTree(es, fs) && h in es
    ensures h in fs && fs[h].bits == es[h].bits && fs[h].time == es[h].time
    ensures fs[h].prev == es[h].prev && fs[h].height == es[h].height
  {
    assert es[h].(status := {}) == fs[h].(status := {});
  }

  /** While the tables and the height map stand on a branch, the validator sees the headers of that branch. */
  lemma StageView(base: Tables, blocks: map<Id, Block>, es: Entries, live: Live, branch: seq<Id>)
    requires Stage(base, blocks, es, live, branch) && Branch(es, branch)
    ensures Known(es, branch) && IndexView(live.index) == HeadersOf(es, branch)
  {
    hide Synced, SameTree;
    var ix := live.index;
    forall i: nat | i < |branch|
      ensures ix.heights[i] in ix.entries && IndexView(ix)[i] == HeadersOf(es, branch)[i]
    {
      SameEntry(es, ix.entries, branch[i]);
    }
  }

  /** Block files carry the bits and times of their index entries. */
  predicate FilesMatch(es: Entries, blocks: map<Id, Block>) {
    forall h :: h in blocks ==> h in es && es[h].bits == blocks[h].bits && es[h].time == blocks[h].time && es[h].prev == blocks[h].prev
  }

  lemma EntryChecked(env: Env, base: Tables, blocks: map<Id, Block>, es: Entries, live: Live, branch: seq<Id>, h: Id)
    requires Branch(es, branch + [h]) && Stage(base, blocks, es, live, branch) && branch != []
    requires FilesMatch(es, blocks) && ConnectEntry(live, h, blocks, Some(Checker(env))).ok
    requires h in es && es[h].prev == branch[|branch| - 1]
    ensures Known(es, branch) && HeaderRight(env.p, es, branch, Header(es[h].bits, es[h].time))
  {
    hide TxsAccepted, SubsidyAccepted, Connect, ExpectedBits, MedianTimePast, Synced;
    BranchLast(es, branch, h);
    assert Branch(es, branch) by {
      assert forall i :: 0 <= i < |branch| ==> (branch + [h])[i] == branch[i];
    }
    StageView(base, blocks, es, live, branch);
    assert es[h].(status := {}) == live.index.entries[h].(status := {});
    assert live.index.entries[h].height == |branch|;
    assert HeaderAccepted(env.p, env.rules, live.index, blocks[h], |branch|);
    var last := branch[|branch| - 1];
    BitsDemanded(env.p, HeadersOf(es, branch), |branch|, es[last].bits);
    assert es[last].(status := {}) == live.index.entries[last].(status := {});
  }

  /** Consecutive hashes are parent and child. */
  ghost predicate Steps(es: Entries, c: seq<Id>) {
    forall i :: 0 < i < |c| ==> c[i] in es && es[c[i]].prev == c[i - 1]
  }

  lemma {:induction false} ConnectsHeaders(env: Env, base: Tables, blocks: map<Id, Block>, es: Entries,
                                           live: Live, branch: seq<Id>, con: seq<Id>)
    requires OwnHash(blocks) && Branch(es, branch + con) && Stage(base, blocks, es, live, branch) && branch != []
    requires FilesMatch(es, blocks) && Steps(es, branch + con)
    requires Known(es, branch) && HeadersRight(env.p, es, branch)
    requires RunConnects(live, con, blocks, Some(Checker(env))).ok
    ensures Known(es, branch + con) && HeadersRight(env.p, es, branch + con)
    decreases |con|
  {
    hide OwnHash, ConnectEntry, BlockAccepted, Stage, HeaderRight, HeadersRight, FilesMatch;
    if con == [] {
      assert branch + con == branch;
    } else {
      var init, h := con[..|con| - 1], con[|con| - 1];
      assert branch + con == (branch + init) + [h];
      assert Branch(es, branch + init) && Steps(es, branch + init) by {
        assert forall i :: 0 <= i < |branch + init| ==> (branch + init)[i] == (branch + con)[i];
      }
      ConnectsHeaders(env, base, blocks, es, live, branch, init);
      StageRunUp(base, blocks, es, live, branch, init, Some(Checker(env)));
      var n := |branch + init|;
      assert (branch + con)[n] == h && (branch + con)[n - 1] == (branch + init)[n - 1];
      EntryChecked(env, base, blocks, es, RunConnects(live, init, blocks, Some(Checker(env))).live, branch + init, h);
      HeadersSnoc(env.p, es, branch + init, h);
    }
  }

  // ------------------------------------------------------------------- the node

  /** The active branch obeys the header rules. */
  ghost predicate ActiveHeaders(env: Env, s: Node) {
    var es := s.live.index.entries;
    && Linked(es) && s.best in es && FilesMatch(es, s.blocks)
    && Known(es, Chain(es, s.best)) && HeadersRight(env.p, es, Chain(es, s.best))
  }

  lemma ChainSteps(es: Entries, h: Id)
    requires Rooted(es) && h in es
    ensures Linked(es) && Steps(es, Chain(es, h)) && Known(es, Chain(es, h))
  {
    hide Rooted, Linked, Chain;
    RootedLinked(es);
    forall i | 0 < i < |Chain(es, h)|
      ensures Chain(es, h)[i] in es && es[Chain(es, h)[i]].prev == Chain(es, h)[i - 1]
    {
      ChainLinks(es, h, i);
    }
    forall i | 0 <= i < |Chain(es, h)|
      ensures Chain(es, h)[i] in es
    {
      assert Chain(es, h)[i] in Chain(es, h);
    }
  }

  /** A reorganisation that connects its branch leaves one that obeys the rules. */
  lemma ReorgHeaders(env: Env, coins: map<OutPoint, Coin>, known: set<Id>, s: Node, h: Id, p: Plan)
    requires NodeInv(env, coins, known, s) && ActiveHeaders(env, s) && h in s.live.index.entries
    requires Splits(s.live.index.entries, h, s.best, p)
    requires RunReorg(s.live, p.dis, p.con, s.blocks, Some(Checker(env))).ok
    ensures var c := Chain(s.live.index.entries, h);
            Known(s.live.index.entries, c) && HeadersRight(env.p, s.live.index.entries, c)
  {
    hide Rooted, Linked, Flagged, Vetted, Replay, Chain, Stored, CleanBase, HeadersRight, FilesMatch, Steps;
    var es, base := s.live.index.entries, BaseOf(coins, s.live.tables);
    var common, d := Chain(es, p.fork), RunDisconnects(s.live, p.dis, s.blocks).live;
    ValidatedOnOwnBranch(base, known, s.blocks, s.live, h, p, Some(Checker(env)), 0);
    assert p.con[..0] == [] && common + [] == common;
    StoredOwnHash(known, s.blocks);
    ChainIsBranch(es, h);
    ChainSteps(es, h);
    ChainSteps(es, p.fork);
    HeadersPrefix(env.p, es, common, Reverse(p.dis));
    ConnectsHeaders(env, base, s.blocks, es, d, common, p.con);
  }

  lemma CommitHeaders(env: Env, coins: map<OutPoint, Coin>, known: set<Id>, s: Node, h: Id, open: bool)
    requires NodeInv(env, coins, known, s) && ActiveHeaders(env, s) && h in s.live.index.entries
    requires Commit(s.live, open, h, s.best, s.blocks, Some(Checker(env)), env.maxReorgDepth).ok
    ensures var c := Chain(s.live.index.entries, h);
            Known(s.live.index.entries, c) && HeadersRight(env.p, s.live.index.entries, c)
  {
    hide Rooted, Linked, Flagged, Vetted, Chain, Stored, CleanBase, Synced, SetBest, RunReorg, PathsOk, MakePlan, Rollback,
      HeadersRight, FilesMatch;
    var es := s.live.index.entries;
    PlanSplits(es, h, s.best, env.maxReorgDepth);
    ReorgHeaders(env, coins, known, s, h, MakePlan(es, h, s.best, env.maxReorgDepth).value);
  }

  /** Same blocks and links, another tip: the rules carry over to the new tip's branch. */
  lemma TipHeaders(env: Env, es: Entries, fs: Entries, blocks: map<Id, Block>, h: Id)
    requires Rooted(es) && SameTree(es, fs) && FilesMatch(es, blocks) && h in es
    requires Known(es, Chain(es, h)) && HeadersRight(env.p, es, Chain(es, h))
    ensures Linked(fs) && FilesMatch(fs, blocks) && Chain(fs, h) == Chain(es, h)
    ensures Known(fs, Chain(fs, h)) && HeadersRight(env.p, fs, Chain(fs, h))
  {
    hide Rooted, Linked, HeadersRight, Chain;
    RootedLinked(es);
    ChainSameTree(es, fs, h);
    forall x | x in es
      ensures x in fs && es[x].bits == fs[x].bits && es[x].time == fs[x].time && es[x].prev == fs[x].prev
    {
      assert es[x].(status := {}) == fs[x].(status := {});
    }
    HeadersFrame(env.p, es, fs, Chain(es, h));
  }

  // The file of the new block matches its entry; older entries and files stay.
  lemma StoredHeaders(env: Env, coins: map<OutPoint, Coin>, known: set<Id>, s: Node, b: Block)
    requires NodeInv(env, coins, known, s) && ActiveHeaders(env, s)
    requires WriteTxs(s.txids, b.txs, |b.txs|).ok
    requires b.prev in s.live.index.entries && b.hash !in s.live.index.entries && b.hash != NULL_HASH
    ensures ActiveHeaders(env, WithBlock(env, s, b, WriteTxs(s.txids, b.txs, |b.txs|)))
  {
    hide Rooted, NodeInv, WriteTxs, Chain, HeadersRight, ChainIndex.AddBlock, Linked, BlockWork;
    var w := WriteTxs(s.txids, b.txs, |b.txs|);
    var r, es := WithBlock(env, s, b, w), s.live.index.entries;
    InvIndex(env, coins, known, s);
    WithBlockKeeps(env, coins, known, s, b);
    AddBlockEntry(s.live.index, b, es[b.prev].height + 1, es[b.prev].work + BlockWork(env.p, b.bits));
    HeadersFrame(env.p, es, r.live.index.entries, Chain(es, s.best));
  }

  lemma InvIndex(env: Env, coins: map<OutPoint, Coin>, known: set<Id>, s: Node)
    requires NodeInv(env, coins, known, s)
    ensures Canonical(s.live.index) && s.live.index.best == Some(s.best)
    ensures Rooted(s.live.index.entries) && Linked(s.live.index.entries) && s.best in s.live.index.entries
    ensures s.live.index.heights == HeightsView(Chain(s.live.index.entries, s.best))
    ensures InSync(BaseOf(coins, s.live.tables), known, s.blocks, s.live)
  {
    hide Vetted, Replay, Flagged, Chain, Stored, CleanBase;
    ChainIsBranch(s.live.index.entries, s.best);
  }

  /** The validator of a block on the tip sees the headers of the active branch. */
  lemma TipView(env: Env, coins: map<OutPoint, Coin>, known: set<Id>, s: Node)
    requires NodeInv(env, coins, known, s)
    ensures var es := s.live.index.entries;
            && Linked(es) && s.best in es && Known(es, Chain(es, s.best))
            && IndexView(s.live.index) == HeadersOf(es, Chain(es, s.best))
  {
    hide NodeInv, Rooted, Linked, Chain, Canonical, Synced, CleanBase, Stored;
    InvIndex(env, coins, known, s);
    var es := s.live.index.entries;
    ChainIsBranch(es, s.best);
    assert SameTree(es, es);
    StageView(BaseOf(coins, s.live.tables), s.blocks, es, s.live, Chain(es, s.best));
  }

  lemma TipChecked(env: Env, coins: map<OutPoint, Coin>, known: set<Id>, s: Node, b: Block)
    requires NodeInv(env, coins, known, s) && ActiveHeaders(env, s) && b.prev == s.best
    requires BlockAccepted(env.p, env.rules, s.live.tables.utxo, s.live.index, b, s.live.index.entries[s.best].height + 1)
    ensures HeaderRight(env.p, s.live.index.entries, Chain(s.live.index.entries, s.best), Header(b.bits, b.time))
  {
    hide NodeInv, Rooted, Chain, TxsAccepted, SubsidyAccepted, ExpectedBits, MedianTimePast, HeadersRight, FilesMatch;
    TipView(env, coins, known, s);
    InvIndex(env, coins, known, s);
    ChainLength(s.live.index.entries, s.best);
    var es := s.live.index.entries;
    BitsDemanded(env.p, HeadersOf(es, Chain(es, s.best)), |Chain(es, s.best)|, es[s.best].bits);
  }

  lemma ConnectedHeaders(env: Env, coins: map<OutPoint, Coin>, known: set<Id>, s: Node, b: Block, open: bool)
    requires NodeInv(env, coins, known, s) && ActiveHeaders(env, s) && s.best == b.prev
    requires WriteTxs(s.txids, b.txs, |b.txs|).ok
    requires b.prev in s.live.index.entries && b.hash !in s.live.index.entries && b.hash != NULL_HASH
    requires BlockAccepted(env.p, env.rules, s.live.tables.utxo, s.live.index, b, s.live.index.entries[s.best].height + 1)
    ensures var stored := WithBlock(env, s, b, WriteTxs(s.txids, b.txs, |b.txs|));
            && Linked(stored.live.index.entries) && b.hash in stored.live.index.entries
            && (ConnectTip(stored, b, open).1 == Connected ==> ActiveHeaders(env, ConnectTip(stored, b, open).0))
  {
    hide Rooted, NodeInv, WriteTxs, Chain, HeadersRight, HeaderRight, ChainIndex.AddBlock, Linked, BlockWork, BlockAccepted,
      Canonical, SetBest, Connect, SameTree;
    var w := WriteTxs(s.txids, b.txs, |b.txs|);
    var stored, es := WithBlock(env, s, b, w), s.live.index.entries;
    var fs := stored.live.index.entries;
    InvIndex(env, coins, known, s);
    TipChecked(env, coins, known, s, b);
    WithBlockKeeps(env, coins, known, s, b);
    InvIndex(env, coins, known, stored);
    StoredHeaders(env, coins, known, s, b);
    AddBlockEntry(s.live.index, b, es[b.prev].height + 1, es[b.prev].work + BlockWork(env.p, b.bits));
    HeaderRightFrame(env.p, es, fs, Chain(es, s.best), Header(b.bits, b.time));
    HeadersSnoc(env.p, fs, Chain(fs, s.best), b.hash);
    var c := ConnectLive(stored.live, b);
    TipSelected(stored.live.index, c.live.index, b.hash);
    if c.ok {
      var gs := SetBest(c.live.index, b.hash).entries;
      TipHeaders(env, fs, gs, stored.blocks, b.hash);
      CanonicalFacts(SetBest(c.live.index, b.hash));
    }
  }

  lemma HeaderRightFrame(p: Params, es: Entries, fs: Entries, c: seq<Id>, h: Header)
    requires SameHeaders(es, fs, c) && Known(es, c) && Known(fs, c) && c != [] && HeaderRight(p, es, c, h)
    ensures HeaderRight(p, fs, c, h)
  {
    hide ExpectedBits, MedianTimePast;
    assert HeadersOf(es, c) == HeadersOf(fs, c);
  }

  lemma ReorganisedHeaders(env: Env, coins: map<OutPoint, Coin>, known: set<Id>, s: Node, h: Id, open: bool)
    requires NodeInv(env, coins, known, s) && ActiveHeaders(env, s) && h in s.live.index.entries
    ensures ActiveHeaders(env, Reorganise(env, s, h, open).0)
  {
    hide Rooted, NodeInv, Chain, HeadersRight, DryRun, Commit, SetBest, Linked, SameTree, FilesMatch, InSync, Canonical;
    var es, check, base := s.live.index.entries, Some(Checker(env)), BaseOf(coins, s.live.tables);
    InvIndex(env, coins, known, s);
    DryRunIsFaithful(base, known, s.blocks, s.live, open, h, check, env.maxReorgDepth);
    var r := Commit(s.live, open, h, s.best, s.blocks, check, env.maxReorgDepth);
    if r.ok {
      CommitHeaders(env, coins, known, s, h, open);
      CommitAllOrNothing(base, known, s.blocks, s.live, open, h, check, env.maxReorgDepth);
      TipHeaders(env, es, r.live.index.entries, s.blocks, h);
      ReselectedTip(base, known, s.blocks, r.live);
    }
  }

  lemma ReselectedTip(base: Tables, known: set<Id>, blocks: map<Id, Block>, live: Live)
    requires InSync(base, known, blocks, live)
    ensures Linked(live.index.entries) && live.index.best.Some? && live.index.best.value in live.index.entries
    ensures SetBest(live.index, live.index.best.value) == live.index
  {
    hide Rooted, Linked, CleanBase, Stored, Synced, Flagged;
    RootedLinked(live.index.entries);
    SetBestRepairs(live.index, live.index.heights);
  }

  /** No block, however it is handled, breaks the header rules of the active branch. */
  lemma OnBlockHeaders(env: Env, coins: map<OutPoint, Coin>, known: set<Id>, s: Node, b: Block, open: bool, openLater: bool)
    requires NodeInv(env, coins, known, s) && ActiveHeaders(env, s) && b.hash != NULL_HASH
    ensures Rooted(s.live.index.entries) && s.best in s.live.index.entries
    ensures ActiveHeaders(env, OnBlock(env, s, b, open, openLater).0)
  {
    hide Rooted, Linked, NodeInv, ActiveHeaders, ConnectTip, Reorganise, WriteTxs, WithBlock, BlockAccepted,
      Canonical, InSync, Unused, Chain;
    InvIndex(env, coins, known, s);
    var ix := s.live.index;
    if b.hash !in ix.entries && b.prev in ix.entries {
      var w := WriteTxs(s.txids, b.txs, |b.txs|);
      var height := ix.entries[b.prev].height + 1;
      if w.ok {
        WithBlockLinked(env, s, b, w);
        WithBlockKeeps(env, coins, known, s, b);
        StoredHeaders(env, coins, known, s, b);
        if s.best != b.prev {
          ReorganisedHeaders(env, coins, known, WithBlock(env, s, b, w), b.hash, openLater);
        } else if BlockAccepted(env.p, env.rules, s.live.tables.utxo, ix, b, height) {
          ConnectedHeaders(env, coins, known, s, b, openLater);
          TipConnects(env, coins, known, s, b, open, openLater);
        }
      } else {
        RowsHeaders(env, s, s.(txids := w.txids, live := s.live.(tables := WithRows(s.live.tables, w.rows))));
      }
    }
  }

  lemma TipConnects(env: Env, coins: map<OutPoint, Coin>, known: set<Id>, s: Node, b: Block, open: bool, openLater: bool)
    requires NodeInv(env, coins, known, s)
    requires Rooted(s.live.index.entries) && s.best in s.live.index.entries && b.hash != NULL_HASH
    requires b.hash !in s.live.index.entries && b.prev == s.best && WriteTxs(s.txids, b.txs, |b.txs|).ok
    requires BlockAccepted(env.p, env.rules, s.live.tables.utxo, s.live.index, b, s.live.index.entries[b.prev].height + 1)
    ensures var stored := WithBlock(env, s, b, WriteTxs(s.txids, b.txs, |b.txs|));
            && Linked(stored.live.index.entries) && b.hash in stored.live.index.entries
            && ConnectTip(stored, b, openLater).1 == Connected
  {
    hide Rooted, Linked, NodeInv, WriteTxs, WithBlock, BlockAccepted, ConnectLive, SetBest, SameTree;
    OnBlockKeeps(env, coins, known, s, b, open, openLater);
    WithBlockLinked(env, s, b, WriteTxs(s.txids, b.txs, |b.txs|));
  }

  lemma RowsHeaders(env: Env, s: Node, r: Node)
    requires ActiveHeaders(env, s) && r.live.index == s.live.index && r.blocks == s.blocks && r.best == s.best
    ensures ActiveHeaders(env, r)
  {
  }

  /** After any run of blocks every block of the active branch carries the bits that the retargeting rule asks
      of its own ancestors, and a time past the median of its own ancestors. */
  lemma {:induction false} HeadersRightThroughout(env: Env, coins: map<OutPoint, Coin>, known: set<Id>, s: Node, calls: seq<Call>)
    requires NodeInv(env, coins, known, s) && ActiveHeaders(env, s)
    requires forall i :: 0 <= i < |calls| ==> calls[i].block.hash != NULL_HASH
    ensures ActiveHeaders(env, Run(env, coins, known, s, calls))
    decreases |calls|
  {
    hide NodeInv, OnBlock, ActiveHeaders;
    if calls != [] {
      var c := calls[0];
      OnBlockKeeps(env, coins, known, s, c.block, c.open, c.openLater);
      OnBlockHeaders(env, coins, known, s, c.block, c.open, c.openLater);
      HeadersRightThroughout(env, coins, known, OnBlock(env, s, c.block, c.open, c.openLater).0, calls[1..]);
    }
  }

  lemma FreshNodeHeaders(env: Env, genesis: Block, work: nat)
    requires genesis.prev == NULL_HASH && genesis.hash != NULL_HASH
    ensures ActiveHeaders(env, FreshNode(genesis, work))
  {
    hide ExpectedBits, MedianTimePast;
    var es := FreshNode(genesis, work).live.index.entries;
    assert Chain(es, genesis.prev) == [];
    assert Chain(es, genesis.hash) == [genesis.hash];
  }

  /** From an empty data directory, whatever blocks arrive: the tables, flags and height map are those of the active
      branch alone, its headers obey the rules of their own ancestors, the coins stay within the supply schedule, and
      the best work never falls. */
  lemma FreshRun(env: Env, genesis: Block, work: nat, calls: seq<Call>)
    requires genesis.prev == NULL_HASH && genesis.hash != NULL_HASH
    requires forall i :: 0 <= i < |calls| ==> calls[i].block.hash != NULL_HASH
    ensures var start := FreshNode(genesis, work);
            && NodeInv(env, map[], {}, start)
            && var r := Run(env, map[], {}, start, calls);
            OnActiveBranch(map[], r) && ActiveHeaders(env, r) && WithinSupply(env, map[], r) && r.bestWork >= work
  {
    hide NodeInv, OnActiveBranch, ActiveHeaders, WithinSupply, Run;
    var start := FreshNode(genesis, work);
    FreshNodeInv(env, genesis, work);
    FreshNodeHeaders(env, genesis, work);
    PathIndependence(env, map[], {}, start, calls);
    SupplyBound(env, map[], {}, start, calls);
    HeadersRightThroughout(env, map[], {}, start, calls);
  }
}
