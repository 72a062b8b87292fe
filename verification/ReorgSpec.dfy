/** What a reorganisation does to the tables and the block index: its dry run,
    its commit, and the theorems that relate them to replaying branches. */
module ReorgSpec {
  import opened Ledger
  import opened ChainIndex

  /** The state a block is connected to. */
  datatype Live = Live(tables: Tables, index: Index)
  datatype LiveStep = LiveStep(live: Live, ok: bool)

  // The stateful validation callback: any function of the coins, the index, the block and its height.
  type Check = (map<OutPoint, Coin>, Index, Block, nat) -> bool

  predicate SameTip(ix: Index, jx: Index) {
    ix.best == jx.best && ix.bestHeight == jx.bestHeight
  }

  /** DisconnectBlock.disconnect: the status flag changes only after all table writes went through. */
  function DisconnectLive(live: Live, b: Block): (r: LiveStep)
    ensures SameTree(live.index.entries, r.live.index.entries) && SameTip(live.index, r.live.index)
  {
    if b.hash !in live.index.entries then LiveStep(live, false)
    else
      var s := Disconnect(live.tables, b);
      LiveStep(Live(s.tables, if s.ok then MarkMain(live.index, b.hash, false) else live.index), s.ok)
  }

  /** ConnectBlock.connect: a block without transactions is flagged before it fails. */
  function ConnectLive(live: Live, b: Block): (r: LiveStep)
    ensures SameTree(live.index.entries, r.live.index.entries) && SameTip(live.index, r.live.index)
  {
    if b.hash !in live.index.entries then LiveStep(live, false)
    else
      var s := Connect(live.tables, b, live.index.entries[b.hash].height);
      LiveStep(Live(s.tables, if s.ok || b.txs == [] then MarkMain(live.index, b.hash, true) else live.index), s.ok)
  }

  function DisconnectEntry(live: Live, h: Id, blocks: map<Id, Block>): (r: LiveStep)
    ensures SameTree(live.index.entries, r.live.index.entries) && SameTip(live.index, r.live.index)
  {
    if h !in blocks then LiveStep(live, false)
    else
      var s := DisconnectLive(live, blocks[h]);
      if s.ok then LiveStep(s.live.(index := MarkMain(s.live.index, h, false)), true) else s
  }

  function ConnectEntry(live: Live, h: Id, blocks: map<Id, Block>, check: Option<Check>): (r: LiveStep)
    ensures SameTree(live.index.entries, r.live.index.entries) && SameTip(live.index, r.live.index)
  {
    if h !in blocks || h !in live.index.entries then LiveStep(live, false)
    else if check.Some? && !check.value(live.tables.utxo, live.index, blocks[h], live.index.entries[h].height) then
      LiveStep(live, false)
    else
      var s := ConnectLive(live, blocks[h]);
      if s.ok then LiveStep(s.live.(index := MarkMain(s.live.index, h, true)), true) else s
  }

  function RunDisconnects(live: Live, hs: seq<Id>, blocks: map<Id, Block>): (r: LiveStep)
    ensures SameTree(live.index.entries, r.live.index.entries) && SameTip(live.index, r.live.index)
    decreases |hs|
  {
    if hs == [] then LiveStep(live, true)
    else
      var s := RunDisconnects(live, hs[..|hs| - 1], blocks);
      if s.ok then DisconnectEntry(s.live, hs[|hs| - 1], blocks) else s
  }

  function RunConnects(live: Live, hs: seq<Id>, blocks: map<Id, Block>, check: Option<Check>): (r: LiveStep)
    ensures SameTree(live.index.entries, r.live.index.entries) && SameTip(live.index, r.live.index)
    decreases |hs|
  {
    if hs == [] then LiveStep(live, true)
    else
      var s := RunConnects(live, hs[..|hs| - 1], blocks, check);
      if s.ok then ConnectEntry(s.live, hs[|hs| - 1], blocks, check) else s
  }

  function RunReorg(live: Live, dis: seq<Id>, con: seq<Id>, blocks: map<Id, Block>, check: Option<Check>): (r: LiveStep)
    ensures SameTree(live.index.entries, r.live.index.entries) && SameTip(live.index, r.live.index)
  {
    var s := RunDisconnects(live, dis, blocks);
    if s.ok then RunConnects(s.live, con, blocks, check) else s
  }

  // ------------------------------------------------------- plan and its checks

  datatype Plan = Plan(fork: Id, dis: seq<Id>, con: seq<Id>)

  /** No plan without a common ancestor or beyond the depth limit. */
  ghost function MakePlan(es: Entries, new_: Id, old_: Id, maxDepth: int): Option<Plan>
    requires Linked(es) && new_ in es && old_ in es
  {
    match Fork(es, new_, old_)
    case None => None
    case Some(f) =>
      if f !in es || es[old_].height - es[f].height > maxDepth then None
      else Some(Plan(f, Down(es, old_, es[f].height), Reverse(Down(es, new_, es[f].height))))
  }

  /** _validate_reorg_paths. */
  ghost predicate PathsOk(es: Entries, p: Plan) {
    && (forall i :: 0 <= i < |p.dis| ==> p.dis[i] in es)
    && (forall i :: 0 <= i < |p.con| ==> p.con[i] in es)
    && (forall i :: 0 < i < |p.dis| ==> p.dis[i] == es[p.dis[i - 1]].prev)
    && (p.con != [] ==> es[p.con[0]].prev == p.fork)
    && (forall i :: 0 < i < |p.con| ==> es[p.con[i]].prev == p.con[i - 1])
  }

  /** _assert_post_reorg_invariants. */
  predicate PostOk(es: Entries, p: Plan) {
    && (forall h :: h in p.dis && h in es ==> MAIN_CHAIN !in es[h].status)
    && (forall h :: h in p.con && h in es ==> MAIN_CHAIN in es[h].status)
  }

  /** _restore_statuses, from the snapshot that `before` still shows. */
  function RestoreStatuses(ix: Index, before: Entries, touched: seq<Id>): Index {
    ix.(entries := map h | h in ix.entries ::
          if h in touched && h in before then ix.entries[h].(status := before[h].status) else ix.entries[h])
  }

  ghost function Rollback(ix: Index, before: Entries, touched: seq<Id>, tip: Option<Id>): (r: Index)
    requires Linked(before) && SameTree(before, ix.entries)
    ensures SameTree(before, r.entries)
  {
    var r := RestoreStatuses(ix, before, touched);
    ChainSameTree(before, r.entries, NULL_HASH);
    if tip.Some? then SetBest(r, tip.value) else r
  }

  /** can_reorganize: runs under a savepoint that is always rolled back. */
  ghost function DryRun(live: Live, new_: Id, old_: Id, blocks: map<Id, Block>, check: Option<Check>, maxDepth: int): (r: LiveStep)
    requires Linked(live.index.entries) && new_ in live.index.entries && old_ in live.index.entries
    ensures SameTree(live.index.entries, r.live.index.entries)
  {
    var plan := MakePlan(live.index.entries, new_, old_, maxDepth);
    if plan.None? || !PathsOk(live.index.entries, plan.value) then LiveStep(live, false)
    else
      var p := plan.value;
      var r := RunReorg(live, p.dis, p.con, blocks, check);
      LiveStep(Live(live.tables, Rollback(r.live.index, live.index.entries, p.dis + p.con, live.index.best)), r.ok)
  }

  /** reorganize.  `open`: was a transaction already open?  Then a failure keeps the rows written so far. */
  ghost function Commit(live: Live, open: bool, new_: Id, old_: Id, blocks: map<Id, Block>, check: Option<Check>, maxDepth: int): (r: LiveStep)
    requires Linked(live.index.entries) && new_ in live.index.entries && old_ in live.index.entries
    ensures SameTree(live.index.entries, r.live.index.entries)
  {
    var es := live.index.entries;
    var plan := MakePlan(es, new_, old_, maxDepth);
    if plan.None? then LiveStep(live, false)
    else if !PathsOk(es, plan.value) then LiveStep(live.(index := SetBest(live.index, old_)), false)
    else
      var p := plan.value;
      var r := RunReorg(live, p.dis, p.con, blocks, check);
      ChainSameTree(es, r.live.index.entries, NULL_HASH);
      if r.ok && PostOk(r.live.index.entries, p) then
        LiveStep(r.live.(index := SetBest(r.live.index, new_)), true)
      else
        LiveStep(Live(if open then r.live.tables else live.tables,
                      Rollback(r.live.index, es, p.dis + p.con, Some(old_))), false)
  }

  // ----------------------------------------------------------- replayed states

  predicate AllIn(blocks: map<Id, Block>, hs: seq<Id>) {
    forall i :: 0 <= i < |hs| ==> hs[i] in blocks
  }

  function Bodies(blocks: map<Id, Block>, hs: seq<Id>): seq<Block>
    requires AllIn(blocks, hs)
  {
    seq(|hs|, i requires 0 <= i < |hs| => blocks[hs[i]])
  }

  ghost predicate OwnHash(blocks: map<Id, Block>) {
    forall x :: x in blocks ==> blocks[x].hash == x
  }

  /** Stored blocks: kept under their own hash, with ids that were never used before. */
  ghost predicate Stored(known: set<Id>, blocks: map<Id, Block>) {
    && (forall h :: h in blocks ==>
          blocks[h].hash == h && DistinctIds(blocks[h].txs) && Ids(blocks[h].txs) !! known)
    && forall g, h :: g in blocks && h in blocks && g != h ==> Ids(blocks[g].txs) !! Ids(blocks[h].txs)
  }

  /** t is what replaying the branch above its genesis gives. */
  ghost predicate Synced(base: Tables, blocks: map<Id, Block>, t: Tables, branch: seq<Id>) {
    && branch != [] && AllIn(blocks, branch[1..])
    && Replay(base, Bodies(blocks, branch[1..]), 1) == Step(t, true)
  }

  ghost predicate NoRepeats(hs: seq<Id>) {
    forall i, j :: 0 <= i < j < |hs| ==> hs[i] != hs[j]
  }

  lemma BodiesFresh(known: set<Id>, blocks: map<Id, Block>, hs: seq<Id>)
    requires Stored(known, blocks) && NoRepeats(hs) && AllIn(blocks, hs)
    ensures FreshChain(known, Bodies(blocks, hs))
  {
    assert forall i :: 0 <= i < |hs| ==> hs[i] in blocks && Bodies(blocks, hs)[i] == blocks[hs[i]];
  }

  lemma BodiesSnoc(blocks: map<Id, Block>, hs: seq<Id>, h: Id)
    requires AllIn(blocks, hs + [h])
    ensures AllIn(blocks, hs) && h in blocks
    ensures Bodies(blocks, hs + [h]) == Bodies(blocks, hs) + [blocks[h]]
  {
    assert (hs + [h])[|hs|] == h;
    assert forall i :: 0 <= i < |hs| ==> (hs + [h])[i] == hs[i];
  }

  lemma SyncedDisconnect(base: Tables, known: set<Id>, blocks: map<Id, Block>, t: Tables, branch: seq<Id>, h: Id)
    requires CleanBase(base, known) && Stored(known, blocks)
    requires branch != [] && NoRepeats(branch + [h]) && Synced(base, blocks, t, branch + [h])
    ensures h in blocks && Disconnect(t, blocks[h]).ok
    ensures Synced(base, blocks, Disconnect(t, blocks[h]).tables, branch)
  {
    hide CleanBase, Stored, Replay, Disconnect;
    assert (branch + [h])[1..] == branch[1..] + [h];
    assert NoRepeats(branch[1..] + [h]) by {
      assert forall i :: 0 <= i < |branch| ==> (branch[1..] + [h])[i] == (branch + [h])[i + 1];
    }
    BodiesSnoc(blocks, branch[1..], h);
    BodiesFresh(known, blocks, branch[1..] + [h]);
    DisconnectTip(base, Bodies(blocks, branch[1..]), blocks[h], 1, known);
  }

  lemma SyncedConnect(base: Tables, blocks: map<Id, Block>, t: Tables, branch: seq<Id>, h: Id)
    requires Synced(base, blocks, t, branch) && h in blocks
    requires Connect(t, blocks[h], |branch|).ok
    ensures Synced(base, blocks, Connect(t, blocks[h], |branch|).tables, branch + [h])
  {
    hide Replay, Connect;
    assert (branch + [h])[1..] == branch[1..] + [h];
    assert AllIn(blocks, branch[1..] + [h]);
    BodiesSnoc(blocks, branch[1..], h);
    ReplaySnoc(base, Bodies(blocks, branch[1..]), blocks[h], 1);
  }

  // -------------------------------------------------- stages of a reorganisation

  function HeightsView(branch: seq<Id>): HeightMap {
    map i: nat | i < |branch| :: branch[i]
  }

  /** Tables and height map stand on this branch; the tree is the one of `es`, and only `touched` statuses moved. */
  ghost predicate Stage(base: Tables, blocks: map<Id, Block>, es: Entries, live: Live, branch: seq<Id>) {
    && Synced(base, blocks, live.tables, branch)
    && live.index.heights == HeightsView(branch)
    && SameTree(es, live.index.entries)
  }

  ghost predicate Branch(es: Entries, hs: seq<Id>) {
    forall i :: 0 <= i < |hs| ==> hs[i] in es && es[hs[i]].height == i
  }

  lemma BranchLast(es: Entries, branch: seq<Id>, h: Id)
    requires Branch(es, branch + [h])
    ensures h in es && es[h].height == |branch|
  {
    assert (branch + [h])[|branch|] == h;
  }

  lemma BranchNoRepeats(es: Entries, hs: seq<Id>)
    requires Branch(es, hs)
    ensures NoRepeats(hs)
  {
  }

  lemma StageDown(base: Tables, known: set<Id>, blocks: map<Id, Block>, es: Entries, live: Live, branch: seq<Id>, h: Id)
    requires CleanBase(base, known) && Stored(known, blocks) && Branch(es, branch + [h])
    requires branch != [] && Stage(base, blocks, es, live, branch + [h])
    ensures var r := DisconnectEntry(live, h, blocks);
            r.ok && Stage(base, blocks, es, r.live, branch) && r.live.index.best == live.index.best
  {
    hide CleanBase, Stored, Synced, Disconnect, Branch;
    BranchLast(es, branch, h);
    BranchNoRepeats(es, branch + [h]);
    SyncedDisconnect(base, known, blocks, live.tables, branch, h);
    StoredOwnHash(known, blocks);
    assert live.index.heights - {|branch|} == HeightsView(branch);
  }

  lemma StageUp(base: Tables, blocks: map<Id, Block>, es: Entries, live: Live, branch: seq<Id>, h: Id, check: Option<Check>)
    requires OwnHash(blocks) && Branch(es, branch + [h])
    requires Stage(base, blocks, es, live, branch)
    requires ConnectEntry(live, h, blocks, check).ok
    ensures var r := ConnectEntry(live, h, blocks, check);
            Stage(base, blocks, es, r.live, branch + [h]) && r.live.index.best == live.index.best
  {
    hide Synced, Connect;
    assert h == (branch + [h])[|branch|];
    assert live.index.entries[h].height == |branch|;
    assert blocks[h].hash == h;
    assert Connect(live.tables, blocks[h], |branch|).ok;
    SyncedConnect(base, blocks, live.tables, branch, h);
    assert live.index.heights[|branch| := h] == HeightsView(branch + [h]);
  }

  lemma {:induction false} StageRunDown(base: Tables, known: set<Id>, blocks: map<Id, Block>, es: Entries,
                                        live: Live, branch: seq<Id>, up: seq<Id>)
    requires CleanBase(base, known) && Stored(known, blocks) && Branch(es, branch + up)
    requires branch != [] && Stage(base, blocks, es, live, branch + up)
    ensures var r := RunDisconnects(live, Reverse(up), blocks);
            r.ok && Stage(base, blocks, es, r.live, branch) && r.live.index.best == live.index.best
    decreases |up|
  {
    hide CleanBase, Stored, Stage, DisconnectEntry;
    if up == [] {
      assert branch + up == branch;
    } else {
      var h := up[0];
      assert branch + up == (branch + [h]) + up[1..];
      StageRunDown(base, known, blocks, es, live, branch + [h], up[1..]);
      assert Reverse(up)[..|up| - 1] == Reverse(up[1..]);
      assert Branch(es, branch + [h]) by {
        assert forall i :: 0 <= i < |branch + [h]| ==> (branch + [h])[i] == (branch + up)[i];
      }
      StageDown(base, known, blocks, es, RunDisconnects(live, Reverse(up[1..]), blocks).live, branch, h);
    }
  }

  lemma {:induction false} StageRunUp(base: Tables, blocks: map<Id, Block>, es: Entries,
                                      live: Live, branch: seq<Id>, con: seq<Id>, check: Option<Check>)
    requires OwnHash(blocks) && Branch(es, branch + con)
    requires Stage(base, blocks, es, live, branch)
    requires RunConnects(live, con, blocks, check).ok
    ensures var r := RunConnects(live, con, blocks, check);
            Stage(base, blocks, es, r.live, branch + con) && r.live.index.best == live.index.best
    decreases |con|
  {
    hide Stage, ConnectEntry;
    if con == [] {
      assert branch + con == branch;
    } else {
      var init, h := con[..|con| - 1], con[|con| - 1];
      assert branch + con == (branch + init) + [h];
      assert Branch(es, branch + init) by {
        assert forall i :: 0 <= i < |branch + init| ==> (branch + init)[i] == (branch + con)[i];
      }
      StageRunUp(base, blocks, es, live, branch, init, check);
      StageUp(base, blocks, es, RunConnects(live, init, blocks, check).live, branch + init, h, check);
    }
  }

  // ------------------------------------------------- statuses during a reorganisation

  /** Same tree, and only the statuses of these hashes may have moved. */
  ghost predicate OnlyTouched(es: Entries, fs: Entries, hs: seq<Id>) {
    SameTree(es, fs) && forall h :: h in es && h !in hs ==> fs[h] == es[h]
  }

  lemma DisconnectEntryTouches(live: Live, h: Id, blocks: map<Id, Block>)
    requires OwnHash(blocks)
    ensures var r := DisconnectEntry(live, h, blocks);
            && OnlyTouched(live.index.entries, r.live.index.entries, [h])
            && (r.ok && h in live.index.entries ==> MAIN_CHAIN !in r.live.index.entries[h].status)
  {
    hide Disconnect;
  }

  lemma ConnectEntryTouches(live: Live, h: Id, blocks: map<Id, Block>, check: Option<Check>)
    requires OwnHash(blocks)
    ensures var r := ConnectEntry(live, h, blocks, check);
            && OnlyTouched(live.index.entries, r.live.index.entries, [h])
            && (r.ok && h in live.index.entries ==> MAIN_CHAIN in r.live.index.entries[h].status)
  {
    hide Connect;
  }

  lemma {:induction false} DisconnectsTouch(live: Live, hs: seq<Id>, blocks: map<Id, Block>)
    requires OwnHash(blocks)
    ensures var r := RunDisconnects(live, hs, blocks);
            && OnlyTouched(live.index.entries, r.live.index.entries, hs)
            && (r.ok ==> forall h :: h in hs && h in live.index.entries ==> MAIN_CHAIN !in r.live.index.entries[h].status)
    decreases |hs|
  {
    hide DisconnectEntry, OwnHash;
    if hs != [] {
      var init, h := hs[..|hs| - 1], hs[|hs| - 1];
      assert hs == init + [h];
      DisconnectsTouch(live, init, blocks);
      DisconnectEntryTouches(RunDisconnects(live, init, blocks).live, h, blocks);
    }
  }

  lemma {:induction false} ConnectsTouch(live: Live, hs: seq<Id>, blocks: map<Id, Block>, check: Option<Check>)
    requires OwnHash(blocks)
    ensures var r := RunConnects(live, hs, blocks, check);
            && OnlyTouched(live.index.entries, r.live.index.entries, hs)
            && (r.ok ==> forall h :: h in hs && h in live.index.entries ==> MAIN_CHAIN in r.live.index.entries[h].status)
    decreases |hs|
  {
    hide ConnectEntry, OwnHash;
    if hs != [] {
      var init, h := hs[..|hs| - 1], hs[|hs| - 1];
      assert hs == init + [h];
      ConnectsTouch(live, init, blocks, check);
      ConnectEntryTouches(RunConnects(live, init, blocks, check).live, h, blocks, check);
    }
  }

  lemma RunTouches(live: Live, p: Plan, blocks: map<Id, Block>, check: Option<Check>)
    requires OwnHash(blocks)
    requires forall h :: h in p.dis ==> h !in p.con
    ensures var r := RunReorg(live, p.dis, p.con, blocks, check);
            && OnlyTouched(live.index.entries, r.live.index.entries, p.dis + p.con)
            && (r.ok ==> PostOk(r.live.index.entries, p))
  {
    hide RunDisconnects, RunConnects;
    DisconnectsTouch(live, p.dis, blocks);
    ConnectsTouch(RunDisconnects(live, p.dis, blocks).live, p.con, blocks, check);
  }

  /** Restoring the statuses and selecting the old tip again gives back the index as it was. */
  lemma RollbackExact(ix: Index, moved: Index, touched: seq<Id>)
    requires Canonical(ix) && OnlyTouched(ix.entries, moved.entries, touched) && SameTip(ix, moved)
    ensures Rollback(moved, ix.entries, touched, ix.best) == ix
  {
    hide Canonical;
    forall h | h in ix.entries
      ensures RestoreStatuses(moved, ix.entries, touched).entries[h] == ix.entries[h]
    {
      assert ix.entries[h].(status := {}) == moved.entries[h].(status := {});
    }
    assert RestoreStatuses(moved, ix.entries, touched).entries == ix.entries;
    assert RestoreStatuses(moved, ix.entries, touched) == ix.(heights := moved.heights);
    SetBestRepairs(ix, moved.heights);
  }

  // ------------------------------------------------------------- main theorems

  lemma ReverseTwice(s: seq<Id>)
    ensures Reverse(Reverse(s)) == s
  {
  }

  /** The plan cuts both branches at the fork. */
  ghost predicate Splits(es: Entries, new_: Id, old_: Id, p: Plan)
    requires Linked(es)
  {
    && p.fork in es && Chain(es, p.fork) != []
    && Chain(es, old_) == Chain(es, p.fork) + Reverse(p.dis)
    && Chain(es, new_) == Chain(es, p.fork) + p.con
    && forall h :: h in p.dis ==> h !in p.con
  }

  /** Every plan cuts the branches at their highest shared block, keeps within the depth limit and passes the path checks. */
  lemma PlanSplits(es: Entries, new_: Id, old_: Id, maxDepth: int)
    requires Rooted(es) && Linked(es) && new_ in es && old_ in es && MakePlan(es, new_, old_, maxDepth).Some?
    ensures var p := MakePlan(es, new_, old_, maxDepth).value;
            && Splits(es, new_, old_, p) && PathsOk(es, p) && |p.dis| <= maxDepth
            && p.fork in Chain(es, new_) && p.fork in Chain(es, old_)
            && forall x :: x in Chain(es, new_) && x in Chain(es, old_) ==> es[x].height <= es[p.fork].height
  {
    hide Rooted, Linked, PathsOk, Chain, Down, Fork;
    var p := MakePlan(es, new_, old_, maxDepth).value;
    ForkIsHighestShared(es, new_, old_);
    var floor := es[p.fork].height;
    MemberPosition(es, old_, p.fork);
    MemberPosition(es, new_, p.fork);
    DownIsSuffix(es, old_, floor);
    DownIsSuffix(es, new_, floor);
    ChainLength(es, old_);
    PlanPaths(es, new_, old_, p);
    forall h | h in p.dis
      ensures h !in p.con
    {
      if h in p.con {
        PlanMembers(es, new_, old_, p, h);
      }
    }
  }

  lemma PlanMembers(es: Entries, new_: Id, old_: Id, p: Plan, h: Id)
    requires Rooted(es) && Linked(es) && new_ in es && old_ in es && p.fork in es
    requires Chain(es, old_) == Chain(es, p.fork) + Reverse(p.dis)
    requires Chain(es, new_) == Chain(es, p.fork) + p.con
    requires h in p.dis && h in p.con
    ensures h in Chain(es, old_) && h in Chain(es, new_) && es[h].height > es[p.fork].height
  {
    hide Rooted, Linked, Chain;
    ChainLength(es, p.fork);
    var i :| 0 <= i < |p.con| && p.con[i] == h;
    var j :| 0 <= j < |p.dis| && p.dis[j] == h;
    assert Reverse(p.dis)[|p.dis| - 1 - j] == h;
    assert Chain(es, new_)[es[p.fork].height + 1 + i] == h;
    ChainAt(es, new_, es[p.fork].height + 1 + i);
  }

  lemma PlanPaths(es: Entries, new_: Id, old_: Id, p: Plan)
    requires Rooted(es) && Linked(es) && new_ in es && old_ in es && p.fork in es && Chain(es, p.fork) != []
    requires Chain(es, old_) == Chain(es, p.fork) + Reverse(p.dis)
    requires Chain(es, new_) == Chain(es, p.fork) + p.con
    ensures PathsOk(es, p)
  {
    hide Rooted, Linked, PathsOk;
    var common := Chain(es, p.fork);
    assert Linking(es, Chain(es, new_)) && Linking(es, Chain(es, old_)) by {
      forall i | 0 < i < |Chain(es, new_)| {
        ChainLinks(es, new_, i);
      }
      forall i | 0 < i < |Chain(es, old_)| {
        ChainLinks(es, old_, i);
      }
    }
    assert common[|common| - 1] == p.fork;
    hide Chain;
    LinkingPaths(es, common, p);
  }

  ghost predicate Linking(es: Entries, c: seq<Id>) {
    forall i :: 0 < i < |c| ==> c[i] in es && es[c[i]].prev == c[i - 1]
  }

  lemma LinkingPaths(es: Entries, common: seq<Id>, p: Plan)
    requires common != [] && common[|common| - 1] == p.fork
    requires Linking(es, common + p.con) && Linking(es, common + Reverse(p.dis))
    ensures PathsOk(es, p)
  {
    forall i | 0 <= i < |p.con|
      ensures p.con[i] in es && (i > 0 ==> es[p.con[i]].prev == p.con[i - 1])
    {
      assert (common + p.con)[|common| + i] == p.con[i];
      if i > 0 {
        assert (common + p.con)[|common| + i - 1] == p.con[i - 1];
      }
    }
    if p.con != [] {
      assert (common + p.con)[|common|] == p.con[0];
      assert (common + p.con)[|common| - 1] == p.fork;
    }
    var up := Reverse(p.dis);
    forall i | 0 <= i < |p.dis|
      ensures p.dis[i] in es && (i > 0 ==> p.dis[i - 1] in es && p.dis[i] == es[p.dis[i - 1]].prev)
    {
      var k := |up| - 1 - i;
      assert (common + up)[|common| + k] == up[k] == p.dis[i];
      if i > 0 {
        assert (common + up)[|common| + k + 1] == up[k + 1] == p.dis[i - 1];
      }
    }
  }

  /** The node's state is what replaying its active branch gives. */
  ghost predicate InSync(base: Tables, known: set<Id>, blocks: map<Id, Block>, live: Live) {
    && CleanBase(base, known) && Stored(known, blocks) && Canonical(live.index)
    && Synced(base, blocks, live.tables, Chain(live.index.entries, live.index.best.value))
  }

  lemma ChainIsBranch(es: Entries, h: Id)
    requires Rooted(es) && h in es
    ensures Linked(es) && Branch(es, Chain(es, h)) && HeightsOf(es, h) == HeightsView(Chain(es, h))
  {
    hide Rooted, Linked;
    Parent(es, h);
    HeightsAreBranch(es, h);
    forall i | 0 <= i < |Chain(es, h)|
      ensures Chain(es, h)[i] in es && es[Chain(es, h)[i]].height == i
    {
      ChainAt(es, h, i);
      assert Chain(es, h)[i] in Chain(es, h);
    }
  }

  /** After the disconnects, and after every connect, the tables and the height map stand exactly on the
      branch so far: a block is validated against its own ancestors and nothing else. */
  lemma ValidatedOnOwnBranch(base: Tables, known: set<Id>, blocks: map<Id, Block>, live: Live, new_: Id, p: Plan,
                             check: Option<Check>, k: nat)
    requires InSync(base, known, blocks, live) && new_ in live.index.entries && Linked(live.index.entries)
    requires Splits(live.index.entries, new_, live.index.best.value, p) && k <= |p.con|
    ensures var es, d := live.index.entries, RunDisconnects(live, p.dis, blocks);
            var r := RunConnects(d.live, p.con[..k], blocks, check);
            && d.ok
            && (r.ok ==> Stage(base, blocks, es, r.live, Chain(es, p.fork) + p.con[..k]))
            && (k < |p.con| ==> p.con[k] in es && es[p.con[k]].height == |Chain(es, p.fork)| + k)
  {
    hide Rooted, Linked, CleanBase, Stored, Synced, Chain, Flagged;
    var es, old_ := live.index.entries, live.index.best.value;
    var common := Chain(es, p.fork);
    ChainIsBranch(es, old_);
    ChainIsBranch(es, new_);
    ReverseTwice(p.dis);
    StageRunDown(base, known, blocks, es, live, common, Reverse(p.dis));
    var d := RunDisconnects(live, p.dis, blocks).live;
    assert Branch(es, common + p.con[..k]) by {
      assert forall i :: 0 <= i < |common| + k ==> (common + p.con[..k])[i] == Chain(es, new_)[i];
    }
    StoredOwnHash(known, blocks);
    if RunConnects(d, p.con[..k], blocks, check).ok {
      StageRunUp(base, blocks, es, d, common, p.con[..k], check);
    }
    if k < |p.con| {
      assert Chain(es, new_)[|common| + k] == p.con[k];
    }
  }

  lemma StoredOwnHash(known: set<Id>, blocks: map<Id, Block>)
    requires Stored(known, blocks)
    ensures OwnHash(blocks)
  {
  }

  lemma RunOutcome(base: Tables, known: set<Id>, blocks: map<Id, Block>, live: Live, new_: Id, p: Plan,
                   check: Option<Check>)
    requires InSync(base, known, blocks, live) && new_ in live.index.entries && Linked(live.index.entries)
    requires Splits(live.index.entries, new_, live.index.best.value, p)
    ensures var es, r := live.index.entries, RunReorg(live, p.dis, p.con, blocks, check);
            && (r.ok ==> PostOk(r.live.index.entries, p) && Stage(base, blocks, es, r.live, Chain(es, new_)))
            && Rollback(r.live.index, es, p.dis + p.con, live.index.best) == live.index
  {
    hide Rooted, Linked, CleanBase, Stored, Synced, Chain, Flagged, RunDisconnects, RunConnects;
    StoredOwnHash(known, blocks);
    RunTouches(live, p, blocks, check);
    ValidatedOnOwnBranch(base, known, blocks, live, new_, p, check, |p.con|);
    assert p.con[..|p.con|] == p.con;
    RollbackExact(live.index, RunReorg(live, p.dis, p.con, blocks, check).live.index, p.dis + p.con);
  }

  /** The dry run changes nothing, whatever it answers, and it answers true
      exactly when the reorganisation started from this state succeeds. */
  lemma DryRunIsFaithful(base: Tables, known: set<Id>, blocks: map<Id, Block>, live: Live, open: bool, new_: Id,
                         check: Option<Check>, maxDepth: int)
    requires InSync(base, known, blocks, live) && new_ in live.index.entries && Linked(live.index.entries)
    ensures var old_ := live.index.best.value;
            var dry := DryRun(live, new_, old_, blocks, check, maxDepth);
            dry.live == live && (dry.ok <==> Commit(live, open, new_, old_, blocks, check, maxDepth).ok)
  {
    hide Rooted, Linked, CleanBase, Stored, Synced, Flagged, RunReorg, Rollback, PathsOk, Splits, MakePlan, SetBest;
    var es, old_ := live.index.entries, live.index.best.value;
    RootedLinked(es);
    if MakePlan(es, new_, old_, maxDepth).Some? {
      PlanSplits(es, new_, old_, maxDepth);
      RunOutcome(base, known, blocks, live, new_, MakePlan(es, new_, old_, maxDepth).value, check);
    }
  }

  /** Success puts the node in sync with the new branch.  Failure restores the index and, unless a
      transaction was already open, the tables. */
  lemma CommitAllOrNothing(base: Tables, known: set<Id>, blocks: map<Id, Block>, live: Live, open: bool, new_: Id,
                           check: Option<Check>, maxDepth: int)
    requires InSync(base, known, blocks, live) && new_ in live.index.entries && Linked(live.index.entries)
    ensures var r := Commit(live, open, new_, live.index.best.value, blocks, check, maxDepth);
            && (r.ok ==> InSync(base, known, blocks, r.live) && r.live.index.best == Some(new_)
                         && SameTree(live.index.entries, r.live.index.entries))
            && (!r.ok ==> r.live.index == live.index && (!open ==> r.live == live))
  {
    hide Rooted, Linked, CleanBase, Stored, Synced, Flagged, RunReorg, Rollback, PathsOk, Splits, MakePlan, SetBest, Chain;
    var es, old_ := live.index.entries, live.index.best.value;
    RootedLinked(es);
    if MakePlan(es, new_, old_, maxDepth).Some? {
      PlanSplits(es, new_, old_, maxDepth);
      var p := MakePlan(es, new_, old_, maxDepth).value;
      RunOutcome(base, known, blocks, live, new_, p, check);
      var r := RunReorg(live, p.dis, p.con, blocks, check);
      if r.ok {
        RootedSameTree(es, r.live.index.entries);
        ChainSameTree(es, r.live.index.entries, new_);
        SetBestCanonical(r.live.index, new_);
        ChainSameTree(r.live.index.entries, SetBest(r.live.index, new_).entries, new_);
      }
    }
  }
}
