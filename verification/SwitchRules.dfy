/** When a reorganisation takes place, told from the two branches and from replays: neither
    the plan nor the run that carries it out is mentioned in the answer. */
module SwitchRules {
  import opened Ledger
  import opened ChainIndex
  import opened ReorgSpec

  /** The highest block that both branches share. */
  ghost predicate HighestShared(es: Entries, a: Id, b: Id, f: Id)
    requires Linked(es)
  {
    && f in Chain(es, a) && f in Chain(es, b)
    && forall x :: x in Chain(es, a) && x in Chain(es, b) ==> es[x].height <= es[f].height
  }

  /** The callback looks at the tree and at the height map, not at status flags or at the tip. */
  ghost predicate Blind(check: Check) {
    forall utxo, ix: Index, jx: Index, b, h ::
      SameTree(ix.entries, jx.entries) && ix.heights == jx.heights ==> check(utxo, ix, b, h) == check(utxo, jx, b, h)
  }

  /** Block k of this branch is on file, and on the replay of its own ancestors it is accepted and connects. */
  ghost predicate StandsOn(base: Tables, es: Entries, blocks: map<Id, Block>, branch: seq<Id>, check: Option<Check>, k: nat)
    requires 1 <= k < |branch|
  {
    && AllIn(blocks, branch[1..k]) && branch[k] in blocks
    && var below := Replay(base, Bodies(blocks, branch[1..k]), 1);
    && below.ok
    && (check.Some? ==> check.value(below.tables.utxo, Index(es, HeightsView(branch[..k]), None, k - 1), blocks[branch[k]], k))
    && Connect(below.tables, blocks[branch[k]], k).ok
  }

  /** The branches share a block, at most maxDepth blocks of the old branch lie above the highest shared one, and every block
      of the new branch above it stands on its own ancestors. */
  ghost predicate CanSwitch(base: Tables, es: Entries, blocks: map<Id, Block>, new_: Id, old_: Id, check: Option<Check>, maxDepth: int)
    requires Linked(es)
  {
    exists f ::
      && HighestShared(es, new_, old_, f) && Chain(es, f) != []
      && |Chain(es, old_)| - |Chain(es, f)| <= maxDepth
      && forall k :: |Chain(es, f)| <= k < |Chain(es, new_)| ==> StandsOn(base, es, blocks, Chain(es, new_), check, k)
  }

  // ------------------------------------------------------------------------ plans

  lemma SharedIsUnique(es: Entries, a: Id, b: Id, f: Id, g: Id)
    requires Rooted(es) && Linked(es) && a in es && b in es && HighestShared(es, a, b, f) && HighestShared(es, a, b, g)
    ensures f == g
  {
    hide Rooted, Linked, Chain;
    MemberPosition(es, a, f);
    MemberPosition(es, a, g);
  }

  /** There is a plan exactly when some block is shared and at most maxDepth blocks of the old branch lie above the
      highest such block; and then that block is its fork. */
  lemma PlanExists(es: Entries, new_: Id, old_: Id, maxDepth: int)
    requires Rooted(es) && Linked(es) && new_ in es && old_ in es
    ensures MakePlan(es, new_, old_, maxDepth).Some? <==>
            exists f :: HighestShared(es, new_, old_, f) && |Chain(es, old_)| - |Chain(es, f)| <= maxDepth
    ensures MakePlan(es, new_, old_, maxDepth).Some? ==> HighestShared(es, new_, old_, MakePlan(es, new_, old_, maxDepth).value.fork)
  {
    hide Rooted, Linked, Chain, Fork, Down;
    ForkIsHighestShared(es, new_, old_);
    ChainLength(es, old_);
    match Fork(es, new_, old_)
    case None =>
    case Some(f) =>
      assert HighestShared(es, new_, old_, f);
      InChain(es, old_, f);
      ChainLength(es, f);
      forall g | HighestShared(es, new_, old_, g)
        ensures g == f
      {
        SharedIsUnique(es, new_, old_, f, g);
      }
  }

  lemma InChain(es: Entries, h: Id, x: Id)
    requires Linked(es) && x in Chain(es, h)
    ensures x in es
  {
  }

  // ------------------------------------------------------------------ carrying out

  /** One more block goes on exactly when it stands on its ancestors. */
  lemma EntryConnects(base: Tables, blocks: map<Id, Block>, es: Entries, live: Live, branch: seq<Id>, all: seq<Id>, check: Option<Check>)
    requires OwnHash(blocks) && Stage(base, blocks, es, live, branch) && branch != [] && |branch| < |all| && all[..|branch|] == branch
    requires all[|branch|] in es && es[all[|branch|]].height == |branch|
    requires check.Some? ==> Blind(check.value)
    ensures ConnectEntry(live, all[|branch|], blocks, check).ok <==> StandsOn(base, es, blocks, all, check, |branch|)
  {
    hide Replay, Connect, Blind;
    var k := |branch|;
    assert all[1..k] == branch[1..];
    var h := all[k];
    assert SameTree(es, live.index.entries);
    assert h in live.index.entries && live.index.entries[h].height == k by {
      assert es[h].(status := {}) == live.index.entries[h].(status := {});
    }
    if check.Some? && h in blocks {
      BlindHere(check.value, live.tables.utxo, Index(es, HeightsView(branch), None, k - 1), live.index, blocks[h], k);
    }
  }

  lemma BlindHere(check: Check, utxo: map<OutPoint, Coin>, ix: Index, jx: Index, b: Block, h: nat)
    requires Blind(check) && SameTree(ix.entries, jx.entries) && ix.heights == jx.heights
    ensures check(utxo, ix, b, h) == check(utxo, jx, b, h)
  {
  }

  lemma NextConnects(base: Tables, known: set<Id>, blocks: map<Id, Block>, live: Live, new_: Id, p: Plan,
                     check: Option<Check>, k: nat, r: LiveStep, n: nat)
    requires InSync(base, known, blocks, live) && new_ in live.index.entries && Linked(live.index.entries)
    requires Splits(live.index.entries, new_, live.index.best.value, p) && k < |p.con|
    requires check.Some? ==> Blind(check.value)
    requires r == RunConnects(RunDisconnects(live, p.dis, blocks).live, p.con[..k], blocks, check) && r.ok
    requires n == |Chain(live.index.entries, p.fork)| + k && 1 <= n < |Chain(live.index.entries, new_)|
    ensures ConnectEntry(r.live, p.con[k], blocks, check).ok
            <==> StandsOn(base, live.index.entries, blocks, Chain(live.index.entries, new_), check, n)
  {
    hide InSync, Linked, Stage, Blind, ConnectEntry, StandsOn, Chain, RunDisconnects, RunConnects, Splits;
    var es := live.index.entries;
    var common, all := Chain(es, p.fork), Chain(es, new_);
    ValidatedOnOwnBranch(base, known, blocks, live, new_, p, check, k);
    SyncOwnHash(base, known, blocks, live);
    SplitsNew(es, new_, live.index.best.value, p);
    Prefix(common, p.con, k);
    assert |common + p.con[..k]| == n;
    EntryConnects(base, blocks, es, r.live, common + p.con[..k], all, check);
  }

  lemma SplitsNew(es: Entries, new_: Id, old_: Id, p: Plan)
    requires Linked(es) && Splits(es, new_, old_, p)
    ensures Chain(es, p.fork) != [] && Chain(es, new_) == Chain(es, p.fork) + p.con
  {
  }

  lemma Prefix(common: seq<Id>, con: seq<Id>, k: nat)
    requires k < |con|
    ensures var all := common + con; all[..|common + con[..k]|] == common + con[..k] && all[|common + con[..k]|] == con[k]
  {
  }

  ghost predicate AllStand(base: Tables, es: Entries, blocks: map<Id, Block>, branch: seq<Id>, check: Option<Check>, from: nat, to_: nat)
    requires 1 <= from && to_ <= |branch|
  {
    forall i :: from <= i < to_ ==> StandsOn(base, es, blocks, branch, check, i)
  }

  lemma RunConnectsNext(d: Live, con: seq<Id>, k: nat, blocks: map<Id, Block>, check: Option<Check>)
    requires k < |con|
    ensures RunConnects(d, con[..0], blocks, check).ok
    ensures var r := RunConnects(d, con[..k], blocks, check);
            RunConnects(d, con[..k + 1], blocks, check).ok <==> r.ok && ConnectEntry(r.live, con[k], blocks, check).ok
  {
    hide ConnectEntry;
    assert con[..k + 1][..k] == con[..k];
  }

  lemma AllStandNext(base: Tables, es: Entries, blocks: map<Id, Block>, branch: seq<Id>, check: Option<Check>, from: nat, to_: nat)
    requires 1 <= from <= to_ < |branch|
    ensures AllStand(base, es, blocks, branch, check, from, to_ + 1) <==>
            AllStand(base, es, blocks, branch, check, from, to_) && StandsOn(base, es, blocks, branch, check, to_)
  {
    hide StandsOn;
  }

  lemma {:induction false} ConnectsExactly(base: Tables, known: set<Id>, blocks: map<Id, Block>, live: Live, new_: Id, p: Plan,
                                           check: Option<Check>, k: nat, n: nat)
    requires InSync(base, known, blocks, live) && new_ in live.index.entries && Linked(live.index.entries)
    requires Splits(live.index.entries, new_, live.index.best.value, p) && k <= |p.con|
    requires check.Some? ==> Blind(check.value)
    requires n == |Chain(live.index.entries, p.fork)|
    requires 1 <= n && n + |p.con| == |Chain(live.index.entries, new_)|
    ensures RunConnects(RunDisconnects(live, p.dis, blocks).live, p.con[..k], blocks, check).ok <==>
            AllStand(base, live.index.entries, blocks, Chain(live.index.entries, new_), check, n, n + k)
    decreases k
  {
    hide InSync, Linked, Blind, ConnectEntry, StandsOn, Chain, RunDisconnects, Splits, RunConnects;
    var es, d := live.index.entries, RunDisconnects(live, p.dis, blocks).live;
    if k == 0 {
      assert p.con[..0] == [] && RunConnects(d, [], blocks, check).ok by {
        NoConnects(d, blocks, check);
      }
    } else {
      ConnectsExactly(base, known, blocks, live, new_, p, check, k - 1, n);
      hide AllStand;
      RunConnectsNext(d, p.con, k - 1, blocks, check);
      AllStandNext(base, es, blocks, Chain(es, new_), check, n, n + k - 1);
      if RunConnects(d, p.con[..k - 1], blocks, check).ok {
        NextConnects(base, known, blocks, live, new_, p, check, k - 1, RunConnects(d, p.con[..k - 1], blocks, check), n + k - 1);
      }
    }
  }

  lemma NoConnects(d: Live, blocks: map<Id, Block>, check: Option<Check>)
    ensures RunConnects(d, [], blocks, check).ok
  {
  }

  lemma SyncOwnHash(base: Tables, known: set<Id>, blocks: map<Id, Block>, live: Live)
    requires InSync(base, known, blocks, live)
    ensures OwnHash(blocks) && Rooted(live.index.entries)
    ensures live.index.best.Some? && live.index.best.value in live.index.entries
  {
    hide Chain;
    StoredOwnHash(known, blocks);
  }

  /** The rehearsal answers true, and the switch succeeds, exactly when the branches allow it. */
  lemma SwitchExactly(base: Tables, known: set<Id>, blocks: map<Id, Block>, live: Live, open: bool, new_: Id,
                      check: Option<Check>, maxDepth: int)
    requires InSync(base, known, blocks, live) && new_ in live.index.entries && Linked(live.index.entries)
    requires check.Some? ==> Blind(check.value)
    ensures var old_ := live.index.best.value;
            var can := CanSwitch(base, live.index.entries, blocks, new_, old_, check, maxDepth);
            && (DryRun(live, new_, old_, blocks, check, maxDepth).ok <==> can)
            && (Commit(live, open, new_, old_, blocks, check, maxDepth).ok <==> can)
  {
    hide InSync, Rooted, Linked, Chain, StandsOn, HighestShared, RunConnects, RunDisconnects, PostOk, Rollback, SetBest, PathsOk, MakePlan, Blind, CanSwitch, AllStand;
    SyncOwnHash(base, known, blocks, live);
    var es, old_ := live.index.entries, live.index.best.value;
    DryRunIsFaithful(base, known, blocks, live, open, new_, check, maxDepth);
    PlanExists(es, new_, old_, maxDepth);
    if MakePlan(es, new_, old_, maxDepth).Some? {
      var p := MakePlan(es, new_, old_, maxDepth).value;
      PlanSplits(es, new_, old_, maxDepth);
      RunOutcome(base, known, blocks, live, new_, p, check);
      SplitsNew(es, new_, old_, p);
      ConnectsExactly(base, known, blocks, live, new_, p, check, |p.con|, |Chain(es, p.fork)|);
      ValidatedOnOwnBranch(base, known, blocks, live, new_, p, check, 0);
      assert p.con[..|p.con|] == p.con;
      CanSwitchAt(base, es, blocks, new_, old_, check, maxDepth, p.fork);
    } else {
      NoSwitch(base, es, blocks, new_, old_, check, maxDepth);
    }
  }

  lemma NoSwitch(base: Tables, es: Entries, blocks: map<Id, Block>, new_: Id, old_: Id, check: Option<Check>, maxDepth: int)
    requires Rooted(es) && Linked(es) && new_ in es && old_ in es && MakePlan(es, new_, old_, maxDepth).None?
    ensures !CanSwitch(base, es, blocks, new_, old_, check, maxDepth)
  {
    hide Rooted, Linked, Chain, StandsOn, HighestShared, MakePlan;
    PlanExists(es, new_, old_, maxDepth);
  }

  lemma CanSwitchAt(base: Tables, es: Entries, blocks: map<Id, Block>, new_: Id, old_: Id, check: Option<Check>, maxDepth: int, f: Id)
    requires Rooted(es) && Linked(es) && new_ in es && old_ in es && HighestShared(es, new_, old_, f) && Chain(es, f) != []
    ensures CanSwitch(base, es, blocks, new_, old_, check, maxDepth) <==>
            && |Chain(es, old_)| - |Chain(es, f)| <= maxDepth
            && AllStand(base, es, blocks, Chain(es, new_), check, |Chain(es, f)|, |Chain(es, new_)|)
  {
    hide Rooted, Linked, Chain, StandsOn, HighestShared;
    forall g | HighestShared(es, new_, old_, g)
      ensures g == f
    {
      SharedIsUnique(es, new_, old_, g, f);
    }
  }
}
