/** The block tree: entries linked by parent hash, their status flags, the
    height map of the active chain and the best tip. */
module ChainIndex {
  import opened Ledger

  datatype Flag = HEADER | BLOCK | VALID | MAIN_CHAIN | ORPHAN | SIDE_CHAIN | INVALID | DISCONNECTED | FAILED_VALIDATION

  // `work` is the total chainwork up to and including this block.
  datatype Entry = Entry(height: nat, hash: Id, prev: Id, bits: nat, time: int, work: nat, status: set<Flag>) {
    predicate IsInvalid() {
      INVALID in status || FAILED_VALIDATION in status
    }
  }

  type Entries = map<Id, Entry>
  type HeightMap = map<nat, Id>

  datatype Index = Index(entries: Entries, heights: HeightMap, best: Option<Id>, bestHeight: int)

  /** Entries sit under their own hash, one above their parent. */
  ghost predicate Linked(es: Entries) {
    forall h :: h in es ==>
      es[h].hash == h && (es[h].prev in es ==> es[es[h].prev].height + 1 == es[h].height)
  }

  // The parent hash of a genesis block; no block has it as its own hash.
  const NULL_HASH: Id := 0

  /** All of these have an entry. */
  predicate Known(es: Entries, c: seq<Id>) {
    forall i :: 0 <= i < |c| ==> c[i] in es
  }

  /** Only height 0 has no parent in the index. */
  ghost predicate Rooted(es: Entries) {
    && Linked(es) && NULL_HASH !in es
    && forall h :: h in es ==> if es[h].height == 0 then es[h].prev == NULL_HASH else es[h].prev in es
  }

  // The two definitions above mention parents of parents; most proofs hide them and ask for one parent at a time.
  lemma Parent(es: Entries, h: Id)
    requires Rooted(es) && h in es
    ensures Linked(es) && es[h].hash == h
    ensures if es[h].height == 0 then es[h].prev == NULL_HASH && es[h].prev !in es
            else es[h].prev in es && es[es[h].prev].height + 1 == es[h].height
  {
  }

  lemma RootedLinked(es: Entries)
    requires Rooted(es)
    ensures Linked(es)
  {
  }

  /** The branch that ends in h, root first. */
  ghost function Chain(es: Entries, h: Id): (c: seq<Id>)
    requires Linked(es)
    ensures h in es ==> c != [] && c[|c| - 1] == h
    ensures forall x :: x in c ==> x in es && h in es && es[x].height <= es[h].height
    decreases if h in es then es[h].height + 1 else 0
  {
    if h in es then Chain(es, es[h].prev) + [h] else []
  }

  lemma {:induction false} ChainLength(es: Entries, h: Id)
    requires Rooted(es) && h in es
    ensures |Chain(es, h)| == es[h].height + 1
    decreases es[h].height
  {
    hide Rooted, Linked;
    Parent(es, h);
    if es[h].height > 0 {
      ChainLength(es, es[h].prev);
    }
  }

  /** Every member sits at its own height, and its branch is the part of the branch up to it. */
  lemma {:induction false} ChainAt(es: Entries, h: Id, i: nat)
    requires Rooted(es) && h in es && i < |Chain(es, h)|
    ensures es[Chain(es, h)[i]].height == i
    ensures Chain(es, Chain(es, h)[i]) == Chain(es, h)[..i + 1]
    decreases es[h].height
  {
    hide Rooted, Linked;
    Parent(es, h);
    ChainLength(es, h);
    var c := Chain(es, h);
    if i < |c| - 1 {
      ChainAt(es, es[h].prev, i);
      assert c[..i + 1] == Chain(es, es[h].prev)[..i + 1];
    } else {
      assert c[..i + 1] == c;
    }
  }

  // Same blocks, parent links and verdicts; only the other status flags may differ.
  ghost predicate SameTree(es: Entries, fs: Entries) {
    es.Keys == fs.Keys &&
    forall h :: h in es ==> es[h].(status := {}) == fs[h].(status := {}) && es[h].IsInvalid() == fs[h].IsInvalid()
  }

  lemma {:induction false} ChainSameTree(es: Entries, fs: Entries, h: Id)
    requires Linked(es) && SameTree(es, fs)
    ensures Linked(fs) && Chain(fs, h) == Chain(es, h)
    ensures Rooted(es) ==> Rooted(fs)
    decreases if h in es then es[h].height + 1 else 0
  {
    if h in es {
      ChainSameTree(es, fs, es[h].prev);
    }
  }

  /** Adding a block under a new hash leaves existing branches alone. */
  lemma {:induction false} ChainExtend(es: Entries, e: Entry, h: Id)
    requires Linked(es) && Linked(es[e.hash := e]) && e.hash !in es && h in es
    requires forall x :: x in es ==> es[x].prev != e.hash
    ensures Chain(es[e.hash := e], h) == Chain(es, h)
    ensures HeightsOf(es[e.hash := e], h) == HeightsOf(es, h)
    decreases es[h].height
  {
    if es[h].prev in es {
      ChainExtend(es, e, es[h].prev);
    }
  }

  /** The height map of a branch. */
  ghost function HeightsOf(es: Entries, h: Id): HeightMap
    requires Linked(es)
    decreases if h in es then es[h].height + 1 else 0
  {
    if h in es then HeightsOf(es, es[h].prev)[es[h].height := h] else map[]
  }

  /** The height map holds exactly the ancestors 0..height of the tip, each at its own height. */
  lemma {:induction false} HeightsAreBranch(es: Entries, h: Id)
    requires Rooted(es) && h in es
    ensures HeightsOf(es, h) == map i: nat | i < |Chain(es, h)| :: Chain(es, h)[i]
    decreases es[h].height
  {
    hide Rooted, Linked;
    Parent(es, h);
    ChainLength(es, h);
    if es[h].height > 0 {
      HeightsAreBranch(es, es[h].prev);
      ChainLength(es, es[h].prev);
    }
  }

  lemma {:induction false} HeightsSameTree(es: Entries, fs: Entries, h: Id)
    requires Linked(es) && SameTree(es, fs) && Linked(fs)
    ensures HeightsOf(fs, h) == HeightsOf(es, h)
    decreases if h in es then es[h].height + 1 else 0
  {
    if h in es {
      HeightsSameTree(es, fs, es[h].prev);
    }
  }

  // ------------------------------------------------------------ status changes

  function MarkMain(ix: Index, h: Id, isMain: bool): Index {
    if h !in ix.entries then ix
    else
      var e := ix.entries[h];
      if isMain then
        ix.(entries := ix.entries[h := e.(status := e.status + {MAIN_CHAIN} - {SIDE_CHAIN} - {DISCONNECTED})],
            heights := ix.heights[e.height := h])
      else
        ix.(entries := ix.entries[h := e.(status := e.status - {MAIN_CHAIN} + {SIDE_CHAIN} + {DISCONNECTED})],
            heights := if e.height in ix.heights && ix.heights[e.height] == h then ix.heights - {e.height}
                       else ix.heights)
  }

  function Reflag(e: Entry, onChain: bool): Entry {
    if onChain then e.(status := e.status + {MAIN_CHAIN} - {SIDE_CHAIN})
    else e.(status := e.status - {MAIN_CHAIN} + {SIDE_CHAIN})
  }

  ghost function Reflagged(es: Entries, tip: Id): Entries
    requires Linked(es)
  {
    map h | h in es :: Reflag(es[h], h in Chain(es, tip))
  }

  ghost predicate BranchInvalid(es: Entries, h: Id)
    requires Linked(es)
  {
    exists x :: x in Chain(es, h) && es[x].IsInvalid()
  }

  /** set_best_chain_tip: unknown tips and invalid branches are silently ignored. */
  ghost function SetBest(ix: Index, h: Id): (r: Index)
    requires Linked(ix.entries)
    ensures SameTree(ix.entries, r.entries)
  {
    if h !in ix.entries || BranchInvalid(ix.entries, h) then ix
    else Index(Reflagged(ix.entries, h), HeightsOf(ix.entries, h), Some(h), ix.entries[h].height)
  }

  function NewEntry(b: Block, height: nat, work: nat): Entry {
    Entry(height, b.hash, b.prev, b.bits, b.time, work, {HEADER, BLOCK, VALID})
  }

  /** add_block with update_best = False. */
  function AddBlock(ix: Index, b: Block, height: nat, work: nat): Index {
    var e := NewEntry(b, height, work);
    var e := if b.prev !in ix.entries && height > 0 then e.(status := e.status + {ORPHAN, SIDE_CHAIN})
             else if b.prev in ix.entries && ix.entries[b.prev].IsInvalid() then
               e.(status := e.status + {INVALID, FAILED_VALIDATION})
             else e;
    var e := if ix.best.Some? && b.hash != ix.best.value then e.(status := e.status + {SIDE_CHAIN}) else e;
    ix.(entries := ix.entries[b.hash := e])
  }

  /** What every call leaves behind: a tree rooted at height 0 without invalid blocks, whose
      MAIN_CHAIN and SIDE_CHAIN flags, height map and best height all say that the active chain
      is the branch of the best tip. */
  ghost predicate Canonical(ix: Index) {
    && Rooted(ix.entries)
    && (forall h :: h in ix.entries ==> !ix.entries[h].IsInvalid())
    && ix.best.Some? && ix.best.value in ix.entries
    && ix.bestHeight == ix.entries[ix.best.value].height
    && ix.heights == HeightsOf(ix.entries, ix.best.value)
    && Flagged(ix.entries, ix.best.value)
  }

  /** MAIN_CHAIN marks the branch of the tip, SIDE_CHAIN everything else. */
  ghost predicate Flagged(es: Entries, tip: Id)
    requires Linked(es)
  {
    forall h :: h in es ==>
      && (MAIN_CHAIN in es[h].status <==> h in Chain(es, tip))
      && (SIDE_CHAIN in es[h].status <==> h !in Chain(es, tip))
  }

  lemma SetBestCanonical(ix: Index, tip: Id)
    requires Rooted(ix.entries) && tip in ix.entries
    requires forall h :: h in ix.entries ==> !ix.entries[h].IsInvalid()
    ensures Canonical(SetBest(ix, tip)) && SetBest(ix, tip).best == Some(tip)
    ensures SameTree(ix.entries, SetBest(ix, tip).entries)
  {
    hide Rooted, Linked;
    Parent(ix.entries, tip);
    var es := Reflagged(ix.entries, tip);
    assert !BranchInvalid(ix.entries, tip);
    assert SameTree(ix.entries, es);
    RootedSameTree(ix.entries, es);
    ChainSameTree(ix.entries, es, tip);
    HeightsSameTree(ix.entries, es, tip);
    hide SameTree, Chain;
    assert Flagged(es, tip);
  }

  lemma RootedSameTree(es: Entries, fs: Entries)
    requires Rooted(es) && SameTree(es, fs)
    ensures Rooted(fs) && Linked(fs)
  {
  }

  lemma ReflagIdle(e: Entry, onChain: bool)
    requires MAIN_CHAIN in e.status <==> onChain
    requires SIDE_CHAIN in e.status <==> !onChain
    ensures Reflag(e, onChain) == e
  {
    if onChain {
      assert e.status + {MAIN_CHAIN} - {SIDE_CHAIN} == e.status;
    } else {
      assert e.status - {MAIN_CHAIN} + {SIDE_CHAIN} == e.status;
    }
  }

  /** Selecting the old tip again repairs whatever happened to the height map. */
  lemma SetBestRepairs(ix: Index, heights: HeightMap)
    requires Canonical(ix)
    ensures SetBest(ix.(heights := heights), ix.best.value) == ix
  {
    var tip := ix.best.value;
    assert !BranchInvalid(ix.entries, tip);
    forall h | h in ix.entries
      ensures Reflag(ix.entries[h], h in Chain(ix.entries, tip)) == ix.entries[h]
    {
      ReflagIdle(ix.entries[h], h in Chain(ix.entries, tip));
    }
    assert Reflagged(ix.entries, tip) == ix.entries;
  }

  lemma AddBlockEntry(ix: Index, b: Block, height: nat, work: nat)
    requires Canonical(ix) && b.hash !in ix.entries && b.prev in ix.entries
    ensures AddBlock(ix, b, height, work) ==
            ix.(entries := ix.entries[b.hash := NewEntry(b, height, work).(status := {HEADER, BLOCK, VALID, SIDE_CHAIN})])
  {
    assert {HEADER, BLOCK, VALID} + {SIDE_CHAIN} == {HEADER, BLOCK, VALID, SIDE_CHAIN};
  }

  /** A stored block is a side block at first: the index stays canonical and every branch stays as it was. */
  lemma AddBlockCanonical(ix: Index, b: Block, height: nat, work: nat)
    requires Canonical(ix) && b.hash !in ix.entries && b.prev in ix.entries
    requires height == ix.entries[b.prev].height + 1 && b.hash != NULL_HASH
    ensures var r := AddBlock(ix, b, height, work);
            && Canonical(r) && r.best == ix.best
            && (forall h :: h in ix.entries ==> Chain(r.entries, h) == Chain(ix.entries, h))
            && Chain(r.entries, b.hash) == Chain(ix.entries, b.prev) + [b.hash]
  {
    hide Rooted, Linked, AddBlock, Chain, HeightsOf;
    AddBlockEntry(ix, b, height, work);
    var es := ix.entries;
    var e := NewEntry(b, height, work).(status := {HEADER, BLOCK, VALID, SIDE_CHAIN});
    AddBlockRooted(es, e);
    AddBlockBranches(es, e);
    assert Flagged(es[e.hash := e], ix.best.value);
    hide Flagged;
  }

  lemma AddBlockBranches(es: Entries, e: Entry)
    requires Rooted(es) && e.hash !in es && e.hash != NULL_HASH
    requires e.prev in es && e.height == es[e.prev].height + 1
    ensures var fs := es[e.hash := e];
            && Linked(es) && Linked(fs)
            && (forall h :: h in es ==>
                  Chain(fs, h) == Chain(es, h) && HeightsOf(fs, h) == HeightsOf(es, h) && e.hash !in Chain(es, h))
            && Chain(fs, e.hash) == Chain(es, e.prev) + [e.hash]
  {
    AddBlockRooted(es, e);
    hide Rooted, Linked;
    forall h | h in es
      ensures Chain(es[e.hash := e], h) == Chain(es, h) && HeightsOf(es[e.hash := e], h) == HeightsOf(es, h)
    {
      ChainExtend(es, e, h);
    }
  }

  lemma AddBlockRooted(es: Entries, e: Entry)
    requires Rooted(es) && e.hash !in es && e.hash != NULL_HASH
    requires e.prev in es && e.height == es[e.prev].height + 1
    ensures Linked(es) && Rooted(es[e.hash := e]) && Linked(es[e.hash := e])
    ensures forall x :: x in es ==> es[x].prev != e.hash
  {
  }

  // -------------------------------------------------------------- fork points

  /** The hashes above a given height on the branch of h, highest first. */
  ghost function Down(es: Entries, h: Id, floor: nat): seq<Id>
    requires Linked(es)
    decreases if h in es then es[h].height + 1 else 0
  {
    if h in es && es[h].height > floor then [h] + Down(es, es[h].prev, floor) else []
  }

  /** What _find_common_ancestor walks to. */
  ghost function Fork(es: Entries, a: Id, b: Id): Option<Id>
    requires Linked(es)
    decreases (if a in es then es[a].height + 1 else 0) + (if b in es then es[b].height + 1 else 0)
  {
    if a !in es || b !in es then None
    else if es[a].height > es[b].height then Fork(es, es[a].prev, b)
    else if es[a].height < es[b].height then Fork(es, a, es[b].prev)
    else if a == b then Some(a)
    else Fork(es, es[a].prev, es[b].prev)
  }

  /** The walk finds the highest shared ancestor, and finds none only when there is none. */
  lemma {:induction false} ForkIsHighestShared(es: Entries, a: Id, b: Id)
    requires Linked(es)
    ensures match Fork(es, a, b)
            case None => forall x :: x in Chain(es, a) ==> x !in Chain(es, b)
            case Some(f) =>
              && f in Chain(es, a) && f in Chain(es, b)
              && forall x :: x in Chain(es, a) && x in Chain(es, b) ==> es[x].height <= es[f].height
    decreases (if a in es then es[a].height + 1 else 0) + (if b in es then es[b].height + 1 else 0)
  {
    if a in es && b in es {
      if es[a].height > es[b].height {
        ForkIsHighestShared(es, es[a].prev, b);
      } else if es[a].height < es[b].height {
        ForkIsHighestShared(es, a, es[b].prev);
      } else if a != b {
        ForkIsHighestShared(es, es[a].prev, es[b].prev);
      }
    }
  }

  lemma MemberPosition(es: Entries, h: Id, x: Id)
    requires Rooted(es) && h in es && x in Chain(es, h)
    ensures es[x].height < |Chain(es, h)| && Chain(es, h)[es[x].height] == x
    ensures Chain(es, x) == Chain(es, h)[..es[x].height + 1]
  {
    hide Rooted, Linked;
    Parent(es, h);
    var i :| 0 <= i < |Chain(es, h)| && Chain(es, h)[i] == x;
    ChainAt(es, h, i);
  }

  function Reverse(s: seq<Id>): (r: seq<Id>)
    ensures |r| == |s| && forall i :: 0 <= i < |s| ==> r[i] == s[|s| - 1 - i]
  {
    if s == [] then [] else Reverse(s[1..]) + [s[0]]
  }

  lemma {:induction false} DownIsSuffix(es: Entries, h: Id, floor: nat)
    requires Rooted(es) && h in es && floor < |Chain(es, h)|
    ensures |Down(es, h, floor)| == |Chain(es, h)| - floor - 1
    ensures Chain(es, h) == Chain(es, h)[..floor + 1] + Reverse(Down(es, h, floor))
    decreases es[h].height
  {
    hide Rooted, Linked;
    Parent(es, h);
    ChainLength(es, h);
    var c := Chain(es, h);
    if es[h].height > floor {
      var p := es[h].prev;
      ChainLength(es, p);
      DownIsSuffix(es, p, floor);
      assert Down(es, h, floor)[1..] == Down(es, p, floor);
      assert c[..floor + 1] == Chain(es, p)[..floor + 1];
      assert c == c[..floor + 1] + (Reverse(Down(es, p, floor)) + [h]);
    } else {
      assert c[..floor + 1] == c;
    }
  }

  /** Along a branch each hash is the parent of the next. */
  lemma {:induction false} ChainLinks(es: Entries, h: Id, i: nat)
    requires Rooted(es) && h in es && 0 < i < |Chain(es, h)|
    ensures Chain(es, h)[i] in es && es[Chain(es, h)[i]].prev == Chain(es, h)[i - 1]
    decreases es[h].height
  {
    hide Rooted, Linked;
    Parent(es, h);
    ChainLength(es, h);
    if i < |Chain(es, h)| - 1 {
      ChainLinks(es, es[h].prev, i);
    }
  }
}
