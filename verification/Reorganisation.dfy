/** The reorganisation manager: finds the fork, walks both branches, rehearses the
    switch under a savepoint and carries it out under a transaction.  Its two
    public methods are proved to do what DryRun and Commit of `ReorgSpec` say. */
module Reorganisation {
  import opened Ledger
  import opened ChainIndex
  import opened ReorgSpec
  import opened BlockConnection

  type Snapshot = map<Id, set<Flag>>

  function LiveOf(db: Database, index: BlockIndex): Live
    reads db, index
  {
    Live(db.Rows(), index.State())
  }

  class ReorgManager {
    const db: Database
    const index: BlockIndex
    const connectBlock: ConnectBlock
    const disconnectBlock: DisconnectBlock
    const maxReorgDepth: int

    /** All parts work on the same database and index. */
    ghost predicate Valid() {
      && connectBlock.db == db && connectBlock.index == index
      && disconnectBlock.db == db && disconnectBlock.index == index
    }

    constructor (db: Database, index: BlockIndex, maxReorgDepth: int)
      ensures Valid() && this.db == db && this.index == index && this.maxReorgDepth == maxReorgDepth
    {
      this.db, this.index, this.maxReorgDepth := db, index, maxReorgDepth;
      connectBlock := new ConnectBlock(db, index);
      disconnectBlock := new DisconnectBlock(db, index);
    }

    method FindCommonAncestor(a: Id, b: Id) returns (fork: Option<Id>)
      requires Linked(index.entries) && a in index.entries && b in index.entries
      ensures fork == Fork(index.entries, a, b)
    {
      hide Linked, Fork;
      var es := index.entries;
      var x, y := a, b;
      while es[x].height > es[y].height
        invariant x in es && y in es && Fork(es, x, y) == Fork(es, a, b)
        decreases es[x].height
      {
        ForkStep(es, x, y);
        x := es[x].prev;
        if x !in es {
          return None;
        }
      }
      while es[y].height > es[x].height
        invariant x in es && y in es && es[x].height <= es[y].height && Fork(es, x, y) == Fork(es, a, b)
        decreases es[y].height
      {
        ForkStep(es, x, y);
        y := es[y].prev;
        if y !in es {
          return None;
        }
      }
      while x in es && y in es && x != y
        invariant x in es && y in es ==> es[x].height == es[y].height
        invariant Fork(es, x, y) == Fork(es, a, b)
        decreases if x in es then es[x].height + 1 else 0
      {
        ForkStep(es, x, y);
        x, y := es[x].prev, es[y].prev;
      }
      ForkStep(es, x, y);
      return if x in es && y in es then Some(x) else None;
    }

    /** The entries of a branch above the fork height, tip first. */
    method BranchAbove(tip: Id, floor: nat) returns (path: seq<Id>)
      requires Linked(index.entries)
      ensures path == Down(index.entries, tip, floor)
      ensures forall i :: 0 <= i < |path| ==> path[i] in index.entries
    {
      hide Linked, Down;
      var es := index.entries;
      path := [];
      var current := tip;
      while current in es && es[current].height > floor
        invariant path + Down(es, current, floor) == Down(es, tip, floor)
        invariant forall i :: 0 <= i < |path| ==> path[i] in es
        decreases if current in es then es[current].height + 1 else 0
      {
        DownStep(es, current, floor);
        path := path + [current];
        current := es[current].prev;
      }
      DownStep(es, current, floor);
    }

    method ValidateReorgPaths(p: Plan) returns (ok: bool)
      requires forall i :: 0 <= i < |p.dis| ==> p.dis[i] in index.entries
      requires forall i :: 0 <= i < |p.con| ==> p.con[i] in index.entries
      ensures ok == PathsOk(index.entries, p)
    {
      var prev: Option<Id> := None;
      for i := 0 to |p.dis|
        invariant prev == if i == 0 then None else Some(p.dis[i - 1])
        invariant forall k :: 0 < k < i ==> p.dis[k] == index.entries[p.dis[k - 1]].prev
      {
        if prev.Some? && p.dis[i] != index.entries[prev.value].prev {
          return false;
        }
        prev := Some(p.dis[i]);
      }
      var expected := p.fork;
      for i := 0 to |p.con|
        invariant expected == if i == 0 then p.fork else p.con[i - 1]
        invariant i > 0 ==> index.entries[p.con[0]].prev == p.fork
        invariant forall k :: 0 < k < i ==> index.entries[p.con[k]].prev == p.con[k - 1]
      {
        if index.entries[p.con[i]].prev != expected {
          return false;
        }
        expected := p.con[i];
      }
      return true;
    }

    method SnapshotStatuses(hashes: seq<Id>) returns (snapshot: Snapshot)
      ensures snapshot == map h | h in hashes && h in index.entries :: index.entries[h].status
    {
      snapshot := map[];
      for i := 0 to |hashes|
        invariant snapshot == map h | h in hashes[..i] && h in index.entries :: index.entries[h].status
      {
        assert hashes[..i + 1] == hashes[..i] + [hashes[i]];
        if hashes[i] in index.entries {
          snapshot := snapshot[hashes[i] := index.entries[hashes[i]].status];
        }
      }
      assert hashes[..|hashes|] == hashes;
    }

    method RestoreStatuses(snapshot: Snapshot)
      modifies index`entries
      ensures index.entries == map h | h in old(index.entries) ::
                if h in snapshot then old(index.entries)[h].(status := snapshot[h]) else old(index.entries)[h]
    {
      ghost var before := index.entries;
      var todo := snapshot.Keys;
      while todo != {}
        invariant todo <= snapshot.Keys && index.entries.Keys == before.Keys
        invariant forall h :: h in before ==>
                    index.entries[h] == if h in snapshot && h !in todo then before[h].(status := snapshot[h]) else before[h]
        decreases |todo|
      {
        SomeMember(todo);
        var h :| h in todo;
        if h in index.entries {
          index.entries := index.entries[h := index.entries[h].(status := snapshot[h])];
        }
        todo := todo - {h};
      }
      assert forall h :: h in before ==> h !in todo;
      assert forall h :: h in before ==>
          index.entries[h] == if h in snapshot then before[h].(status := snapshot[h]) else before[h];
    }

    method AssertPostReorgInvariants(p: Plan) returns (ok: bool)
      ensures ok == PostOk(index.entries, p)
    {
      var es := index.entries;
      for i := 0 to |p.dis|
        invariant forall k :: 0 <= k < i && p.dis[k] in es ==> MAIN_CHAIN !in es[p.dis[k]].status
      {
        var h := p.dis[i];
        if h in es && MAIN_CHAIN in es[h].status {
          return false;
        }
      }
      for i := 0 to |p.con|
        invariant forall k :: 0 <= k < i && p.con[k] in es ==> MAIN_CHAIN in es[p.con[k]].status
      {
        var h := p.con[i];
        if h in es && MAIN_CHAIN !in es[h].status {
          return false;
        }
      }
      return true;
    }

    /** Takes blocks off, tip first, inside an open transaction. */
    method DisconnectPath(hs: seq<Id>, blocks: map<Id, Block>) returns (ok: bool, disconnected: seq<Block>)
      requires Valid() && db.inTransaction
      modifies db, index
      ensures db.inTransaction && db.txids == old(db.txids)
      ensures LiveStep(LiveOf(db, index), ok) == RunDisconnects(old(LiveOf(db, index)), hs, blocks)
      ensures ok ==> AllIn(blocks, hs) && disconnected == Bodies(blocks, hs)
    {
      hide DisconnectLive, MarkMain;
      ghost var start := LiveOf(db, index);
      disconnected := [];
      for i := 0 to |hs|
        invariant db.inTransaction && db.txids == old(db.txids)
        invariant RunDisconnects(start, hs[..i], blocks) == LiveStep(LiveOf(db, index), true)
        invariant AllIn(blocks, hs[..i]) && disconnected == Bodies(blocks, hs[..i])
      {
        var h := hs[i];
        DisconnectsStep(start, hs, blocks, i);
        ok := false;
        if h in blocks {
          ok := disconnectBlock.Disconnect(blocks[h]);
        }
        if !ok {
          DisconnectsStop(start, hs, blocks, i + 1, |hs|);
          assert hs[..|hs|] == hs;
          return false, [];
        }
        disconnected := disconnected + [blocks[h]];
        index.MarkMainChain(h, false);
      }
      assert hs[..|hs|] == hs;
      ok := true;
    }

    /** Looks one block up, validates it if asked to, and puts it on. */
    method ConnectNext(h: Id, blocks: map<Id, Block>, check: Option<Check>) returns (ok: bool)
      requires Valid() && db.inTransaction && h in index.entries
      modifies db, index
      ensures db.inTransaction && db.txids == old(db.txids)
      ensures LiveStep(LiveOf(db, index), ok) == ConnectEntry(old(LiveOf(db, index)), h, blocks, check)
      ensures ok ==> h in blocks
    {
      hide ConnectLive, MarkMain;
      ok := h in blocks;
      if ok && check.Some? {
        ok := check.value(db.utxo, index.State(), blocks[h], index.entries[h].height);
      }
      if ok {
        ok := connectBlock.Connect(blocks[h]);
      }
      if ok {
        index.MarkMainChain(h, true);
      }
    }

    /** Puts blocks on, lowest first, inside an open transaction. */
    method ConnectPath(hs: seq<Id>, blocks: map<Id, Block>, check: Option<Check>) returns (ok: bool, connected: seq<Block>)
      requires Valid() && db.inTransaction && forall i :: 0 <= i < |hs| ==> hs[i] in index.entries
      modifies db, index
      ensures db.inTransaction && db.txids == old(db.txids)
      ensures LiveStep(LiveOf(db, index), ok) == RunConnects(old(LiveOf(db, index)), hs, blocks, check)
      ensures ok ==> AllIn(blocks, hs) && connected == Bodies(blocks, hs)
    {
      hide ConnectEntry;
      ghost var start := LiveOf(db, index);
      connected := [];
      for i := 0 to |hs|
        invariant db.inTransaction && db.txids == old(db.txids) && index.entries.Keys == start.index.entries.Keys
        invariant RunConnects(start, hs[..i], blocks, check) == LiveStep(LiveOf(db, index), true)
        invariant AllIn(blocks, hs[..i]) && connected == Bodies(blocks, hs[..i])
      {
        ConnectsStep(start, hs, blocks, check, i);
        ok := ConnectNext(hs[i], blocks, check);
        if !ok {
          ConnectsStop(start, hs, blocks, check, i + 1, |hs|);
          assert hs[..|hs|] == hs;
          return false, [];
        }
        connected := connected + [blocks[hs[i]]];
      }
      assert hs[..|hs|] == hs;
      ok := true;
    }

    /** Fork point, depth limit and the two paths. */
    method PreparePlan(new_: Id, old_: Id) returns (plan: Option<Plan>)
      requires Linked(index.entries) && new_ in index.entries && old_ in index.entries
      ensures plan == MakePlan(index.entries, new_, old_, maxReorgDepth)
      ensures plan.Some? ==> forall i :: 0 <= i < |plan.value.dis| ==> plan.value.dis[i] in index.entries
      ensures plan.Some? ==> forall i :: 0 <= i < |plan.value.con| ==> plan.value.con[i] in index.entries
    {
      hide Linked, Down, Fork, Chain;
      var fork := FindCommonAncestor(new_, old_);
      if fork.None? {
        return None;
      }
      ForkIsHighestShared(index.entries, new_, old_);
      var floor := index.entries[fork.value].height;
      if index.entries[old_].height - floor > maxReorgDepth {
        return None;
      }
      var dis := BranchAbove(old_, floor);
      var con := BranchAbove(new_, floor);
      return Some(Plan(fork.value, dis, Reverse(con)));
    }

    /** Undoes the status changes of an attempt and selects the given tip again. */
    method RollBackIndex(snapshot: Snapshot, tip: Option<Id>, ghost before: Index, ghost touched: seq<Id>)
      requires Linked(before.entries) && SameTree(before.entries, index.entries)
      requires snapshot == map h | h in touched && h in before.entries :: before.entries[h].status
      modifies index
      ensures index.State() == Rollback(old(index.State()), before.entries, touched, tip)
    {
      hide Linked, SetBest;
      ghost var ix := index.State();
      RestoreStatuses(snapshot);
      RestoredBySnapshot(ix, before.entries, touched, snapshot);
      ChainSameTree(before.entries, index.entries, NULL_HASH);
      if tip.Some? {
        index.SetBestChainTip(tip.value);
      }
    }

    /** Rehearses the switch: the rows under a savepoint that is always rolled back, the index by its snapshot. */
    method CanReorganize(new_: Id, old_: Id, blocks: map<Id, Block>, check: Option<Check>) returns (ok: bool)
      requires Valid() && Linked(index.entries) && new_ in index.entries && old_ in index.entries
      modifies db, index
      ensures LiveStep(LiveOf(db, index), ok) == DryRun(old(LiveOf(db, index)), new_, old_, blocks, check, maxReorgDepth)
      ensures db.inTransaction == old(db.inTransaction) && db.txids == old(db.txids)
    {
      hide Linked, PathsOk, MakePlan, RunDisconnects, RunConnects, SameTree, Rollback;
      var plan := PreparePlan(new_, old_);
      if plan.None? {
        return false;
      }
      var p := plan.value;
      ok := ValidateReorgPaths(p);
      if !ok {
        return;
      }
      ghost var before, start := index.State(), LiveOf(db, index);
      var snapshot := SnapshotStatuses(p.dis + p.con);
      var best := index.best;
      var savepoint := db.Begin();
      var disconnected, connected;
      ok, disconnected := DisconnectPath(p.dis, blocks);
      if ok {
        SameKeys(before.entries, index.entries);
        ok, connected := ConnectPath(p.con, blocks, check);
      }
      assert LiveStep(LiveOf(db, index), ok) == RunReorg(start, p.dis, p.con, blocks, check);
      db.RollbackTo(savepoint);
      RollBackIndex(snapshot, best, before, p.dis + p.con);
    }

    /** Carries the switch out; on failure the rows are those at the start unless the caller had a
        transaction open, and the index is put back. */
    method Reorganize(new_: Id, old_: Id, blocks: map<Id, Block>, check: Option<Check>)
      returns (ok: bool, disconnected: seq<Block>, connected: seq<Block>)
      requires Valid() && Linked(index.entries) && new_ in index.entries && old_ in index.entries
      modifies db, index
      ensures LiveStep(LiveOf(db, index), ok) ==
              Commit(old(LiveOf(db, index)), old(db.inTransaction), new_, old_, blocks, check, maxReorgDepth)
      ensures db.inTransaction == old(db.inTransaction) && db.txids == old(db.txids)
      ensures Moved(MakePlan(old(index.entries), new_, old_, maxReorgDepth), blocks, ok, disconnected, connected)
    {
      hide Linked, PathsOk, MakePlan, RunDisconnects, RunConnects, SameTree, Rollback, SetBest, Bodies, AllIn, Moved;
      disconnected, connected := [], [];
      MovedNone(MakePlan(index.entries, new_, old_, maxReorgDepth), blocks);
      var plan := PreparePlan(new_, old_);
      if plan.None? {
        ok := false;
        return;
      }
      var p := plan.value;
      ok := ValidateReorgPaths(p);
      if !ok {
        index.SetBestChainTip(old_);
        return;
      }
      ghost var before, start := index.State(), LiveOf(db, index);
      var snapshot := SnapshotStatuses(p.dis + p.con);
      var scope := db.Begin();
      ok, disconnected := DisconnectPath(p.dis, blocks);
      if ok {
        SameKeys(before.entries, index.entries);
        ok, connected := ConnectPath(p.con, blocks, check);
      }
      assert LiveStep(LiveOf(db, index), ok) == RunReorg(start, p.dis, p.con, blocks, check);
      if ok {
        MovedAll(p, blocks);
        ok := AssertPostReorgInvariants(p);
      }
      ChainSameTree(before.entries, index.entries, NULL_HASH);
      if ok {
        index.SetBestChainTip(new_);
      }
      db.End(scope, ok);
      if !ok {
        disconnected, connected := [], [];
        RollBackIndex(snapshot, Some(old_), before, p.dis + p.con);
      }
    }
  }

  /** The blocks reported: those of the plan if the switch was made, none otherwise. */
  ghost predicate Moved(plan: Option<Plan>, blocks: map<Id, Block>, ok: bool, disconnected: seq<Block>, connected: seq<Block>) {
    if ok then && plan.Some? && AllIn(blocks, plan.value.dis) && AllIn(blocks, plan.value.con)
               && disconnected == Bodies(blocks, plan.value.dis) && connected == Bodies(blocks, plan.value.con)
    else disconnected == [] && connected == []
  }

  lemma MovedNone(plan: Option<Plan>, blocks: map<Id, Block>)
    ensures Moved(plan, blocks, false, [], [])
  {
  }

  lemma MovedAll(p: Plan, blocks: map<Id, Block>)
    requires AllIn(blocks, p.dis) && AllIn(blocks, p.con)
    ensures Moved(Some(p), blocks, true, Bodies(blocks, p.dis), Bodies(blocks, p.con))
  {
  }

  lemma SameKeys(es: Entries, fs: Entries)
    requires SameTree(es, fs)
    ensures es.Keys == fs.Keys
  {
  }

  lemma RestoredBySnapshot(ix: Index, before: Entries, touched: seq<Id>, snapshot: Snapshot)
    requires snapshot == map h | h in touched && h in before :: before[h].status
    ensures RestoreStatuses(ix, before, touched).entries ==
            map h | h in ix.entries :: if h in snapshot then ix.entries[h].(status := snapshot[h]) else ix.entries[h]
  {
  }

  lemma ForkStep(es: Entries, x: Id, y: Id)
    requires Linked(es)
    ensures x in es && es[x].prev in es ==> es[es[x].prev].height + 1 == es[x].height
    ensures y in es && es[y].prev in es ==> es[es[y].prev].height + 1 == es[y].height
    ensures x !in es || y !in es ==> Fork(es, x, y) == None
    ensures x in es && y in es ==>
              Fork(es, x, y) == if es[x].height > es[y].height then Fork(es, es[x].prev, y)
                                else if es[x].height < es[y].height then Fork(es, x, es[y].prev)
                                else if x == y then Some(x) else Fork(es, es[x].prev, es[y].prev)
    ensures x in es && es[x].prev !in es ==> Fork(es, es[x].prev, y) == None
    ensures y in es && es[y].prev !in es ==> Fork(es, x, es[y].prev) == None
  {
  }

  lemma DownStep(es: Entries, h: Id, floor: nat)
    requires Linked(es)
    ensures h in es && es[h].prev in es ==> es[es[h].prev].height + 1 == es[h].height
    ensures Down(es, h, floor) == if h in es && es[h].height > floor then [h] + Down(es, es[h].prev, floor) else []
  {
  }

  lemma DisconnectsStep(live: Live, hs: seq<Id>, blocks: map<Id, Block>, i: nat)
    requires i < |hs|
    ensures RunDisconnects(live, hs[..i + 1], blocks) ==
            var s := RunDisconnects(live, hs[..i], blocks);
            if s.ok then DisconnectEntry(s.live, hs[i], blocks) else s
    ensures hs[..i + 1] == hs[..i] + [hs[i]]
  {
    hide DisconnectEntry;
    assert hs[..i + 1][..i] == hs[..i];
  }

  lemma {:induction false} DisconnectsStop(live: Live, hs: seq<Id>, blocks: map<Id, Block>, n: nat, m: nat)
    requires n <= m <= |hs| && !RunDisconnects(live, hs[..n], blocks).ok
    ensures RunDisconnects(live, hs[..m], blocks) == RunDisconnects(live, hs[..n], blocks)
    decreases m
  {
    hide DisconnectEntry;
    if n < m {
      DisconnectsStop(live, hs, blocks, n, m - 1);
      DisconnectsStep(live, hs, blocks, m - 1);
    }
  }

  lemma ConnectsStep(live: Live, hs: seq<Id>, blocks: map<Id, Block>, check: Option<Check>, i: nat)
    requires i < |hs|
    ensures RunConnects(live, hs[..i + 1], blocks, check) ==
            var s := RunConnects(live, hs[..i], blocks, check);
            if s.ok then ConnectEntry(s.live, hs[i], blocks, check) else s
    ensures hs[..i + 1] == hs[..i] + [hs[i]]
  {
    hide ConnectEntry;
    assert hs[..i + 1][..i] == hs[..i];
  }

  lemma {:induction false} ConnectsStop(live: Live, hs: seq<Id>, blocks: map<Id, Block>, check: Option<Check>, n: nat, m: nat)
    requires n <= m <= |hs| && !RunConnects(live, hs[..n], blocks, check).ok
    ensures RunConnects(live, hs[..m], blocks, check) == RunConnects(live, hs[..n], blocks, check)
    decreases m
  {
    hide ConnectEntry;
    if n < m {
      ConnectsStop(live, hs, blocks, check, n, m - 1);
      ConnectsStep(live, hs, blocks, check, m - 1);
    }
  }
}
