/** What an accepted block looks like, written out rule by rule, and that every block of the
    active branch looks like that on the coins which the blocks below it left. */
module BlockRules {
  import opened Ledger
  import opened ChainIndex
  import opened Params
  import opened Retarget
  import opened Subsidy
  import opened Validation
  import opened ReorgSpec
  import opened NodeSpec
  import opened BranchLedger

  predicate MintsAt(txs: seq<Tx>, j: nat)
    requires j < |txs|
  {
    |txs[j].vin| == 1 && txs[j].vin[0].prev == OutPoint(0, 0xffff_ffff)
  }

  /** The coin behind input i of transaction j: it is there, its script is satisfied, and a coinbase coin is old enough. */
  predicate InputObeys(p: Params, rules: Rules, utxo: map<OutPoint, Coin>, txs: seq<Tx>, height: nat, j: nat, i: nat)
    requires j < |txs| && i < |txs[j].vin|
  {
    var prev := txs[j].vin[i].prev;
    && prev in utxo
    && rules.scriptOk(txs[j], i, utxo[prev].script, utxo[prev].value)
    && (utxo[prev].coinbase ==> utxo[prev].height + p.coinbaseMaturity <= height)
  }

  /** Inputs less outputs of transactions 1..n-1. */
  function PaidBy(utxo: map<OutPoint, Coin>, txs: seq<Tx>, n: nat): int
    requires n <= |txs|
    decreases n
  {
    if n <= 1 then 0
    else PaidBy(utxo, txs, n - 1) + InValue(utxo, txs[n - 1], |txs[n - 1].vin|) - OutputValue(txs[n - 1], |txs[n - 1].vout|)
  }

  /** One coinbase, in front. */
  predicate CoinbaseObeys(txs: seq<Tx>) {
    txs != [] && forall j :: 0 <= j < |txs| ==> (MintsAt(txs, j) <==> j == 0)
  }

  /** Every transaction on its own: version, size, something in and something out, outputs within the money limit. */
  predicate TxsObey(p: Params, rules: Rules, txs: seq<Tx>, height: nat) {
    && (forall j :: 0 <= j < |txs| ==>
          rules.versionOk(txs[j], height) && rules.sizeOk(txs[j]) && |txs[j].vin| > 0 && |txs[j].vout| > 0)
    && (forall j, n :: 0 <= j < |txs| && 0 <= n < |txs[j].vout| ==>
          txs[j].vout[n].value > 0 && txs[j].vout[n].value <= p.maxMoney && |txs[j].vout[n].script| > 0)
    && (forall j :: 0 <= j < |txs| ==> OutputValue(txs[j], |txs[j].vout|) <= p.maxMoney)
  }

  /** No two inputs behind the coinbase spend one outpoint. */
  predicate NoneTwice(txs: seq<Tx>) {
    forall j, i, k, l :: 0 < j < |txs| && 0 <= i < |txs[j].vin| && 0 < k < |txs| && 0 <= l < |txs[k].vin| ==>
      txs[j].vin[i].prev == txs[k].vin[l].prev ==> j == k && i == l
  }

  /** Every input, no outpoint twice, and nobody pays out more than went in. */
  predicate SpendsObey(p: Params, rules: Rules, utxo: map<OutPoint, Coin>, txs: seq<Tx>, height: nat) {
    && (forall j, i :: 0 < j < |txs| && 0 <= i < |txs[j].vin| ==> InputObeys(p, rules, utxo, txs, height, j, i))
    && NoneTwice(txs)
    && (forall j :: 0 < j < |txs| ==> OutputValue(txs[j], |txs[j].vout|) <= InValue(utxo, txs[j], |txs[j].vin|))
  }

  /** All rules on the body of a block at a height on these coins. */
  predicate BlockObeys(p: Params, rules: Rules, utxo: map<OutPoint, Coin>, b: Block, height: nat) {
    && rules.headerOk(b) && rules.bodyOk(b, height)
    && CoinbaseObeys(b.txs) && TxsObey(p, rules, b.txs, height) && SpendsObey(p, rules, utxo, b.txs, height)
    && (forall j, k :: 0 <= j < k < |b.txs| ==> b.txs[j].id != b.txs[k].id)
    && OutputValue(b.txs[0], |b.txs[0].vout|) <= BlockSubsidy(p, height) + PaidBy(utxo, b.txs, |b.txs|)
  }

  /** The rules on its header: the demanded bits, and a time past the median of the blocks below. */
  predicate HeaderObeys(p: Params, ix: Index, b: Block, height: nat) {
    && (height > 0 ==>
          b.prev in ix.entries &&
          var demanded := ExpectedBits(p, IndexView(ix), height, ix.entries[b.prev].bits);
          demanded == None || demanded == Some(b.bits))
    && MedianTimePast(p, IndexView(ix), height) < b.time
  }

  // ------------------------------------------------- the validator accepts just these

  lemma SpentByIs(txs: seq<Tx>, n: nat, o: OutPoint)
    requires n <= |txs|
    ensures o in SpentBy(txs, n) <==> exists k, l :: 0 < k < n && 0 <= l < |txs[k].vin| && txs[k].vin[l].prev == o
    decreases n
  {
    if n > 1 {
      SpentByIs(txs, n - 1, o);
      var last := txs[n - 1];
      if o in last.Prevs(|last.vin|) {
        var l :| 0 <= l < |last.vin| && last.vin[l].prev == o;
        assert txs[n - 1].vin[l].prev == o;
      }
      if k, l :| 0 < k < n && 0 <= l < |txs[k].vin| && txs[k].vin[l].prev == o {
        if k == n - 1 {
          assert last.vin[l].prev in last.Prevs(|last.vin|);
        }
      }
    }
  }

  lemma NoneTwiceIs(txs: seq<Tx>)
    ensures NoneTwice(txs) <==>
            && (forall j :: 1 <= j < |txs| ==> DistinctInputs(txs[j], |txs[j].vin|))
            && (forall j :: 1 <= j < |txs| ==> txs[j].Prevs(|txs[j].vin|) !! SpentBy(txs, j))
  {
    if NoneTwice(txs) {
      forall j | 1 <= j < |txs|
        ensures txs[j].Prevs(|txs[j].vin|) !! SpentBy(txs, j)
      {
        forall o | o in txs[j].Prevs(|txs[j].vin|)
          ensures o !in SpentBy(txs, j)
        {
          SpentByIs(txs, j, o);
        }
      }
    }
    if && (forall j :: 1 <= j < |txs| ==> DistinctInputs(txs[j], |txs[j].vin|))
       && (forall j :: 1 <= j < |txs| ==> txs[j].Prevs(|txs[j].vin|) !! SpentBy(txs, j)) {
      forall j, i, k, l | 0 < j < |txs| && 0 <= i < |txs[j].vin| && 0 < k < |txs| && 0 <= l < |txs[k].vin|
                          && txs[j].vin[i].prev == txs[k].vin[l].prev
        ensures j == k && i == l
      {
        var o := txs[j].vin[i].prev;
        assert o in txs[j].Prevs(|txs[j].vin|) && o in txs[k].Prevs(|txs[k].vin|);
        SpentByIs(txs, j, o);
        SpentByIs(txs, k, o);
      }
    }
  }

  lemma TxsAcceptedIs(p: Params, rules: Rules, utxo: map<OutPoint, Coin>, txs: seq<Tx>, height: nat)
    ensures TxsAccepted(p, rules, utxo, txs, height) <==>
            && CoinbaseObeys(txs) && TxsObey(p, rules, txs, height) && SpendsObey(p, rules, utxo, txs, height)
            && DistinctIds(txs)
  {
    hide OutputValue, InValue, SpentBy;
    NoneTwiceIs(txs);
    if TxsAccepted(p, rules, utxo, txs, height) {
      forall j | 0 <= j < |txs|
        ensures TxAccepted(p, rules, utxo, txs[j], height, j == 0)
      {
      }
      forall j, i | 0 < j < |txs| && 0 <= i < |txs[j].vin|
        ensures InputObeys(p, rules, utxo, txs, height, j, i)
      {
        assert InputOk(p, rules, utxo, txs[j], height, i);
      }
      forall j, n | 0 <= j < |txs| && 0 <= n < |txs[j].vout|
        ensures txs[j].vout[n].value > 0 && txs[j].vout[n].value <= p.maxMoney && |txs[j].vout[n].script| > 0
      {
        assert OutputOk(p, txs[j].vout[n]);
      }
    }
    if CoinbaseObeys(txs) && TxsObey(p, rules, txs, height) && SpendsObey(p, rules, utxo, txs, height) && DistinctIds(txs) {
      forall j | 0 <= j < |txs|
        ensures TxAccepted(p, rules, utxo, txs[j], height, j == 0)
      {
        assert MintsAt(txs, j) <==> j == 0;
        if j > 0 {
          forall i | 0 <= i < |txs[j].vin|
            ensures InputOk(p, rules, utxo, txs[j], height, i)
          {
            assert InputObeys(p, rules, utxo, txs, height, j, i);
          }
        }
      }
    }
  }

  lemma {:induction false} FeesAre(p: Params, rules: Rules, utxo: map<OutPoint, Coin>, txs: seq<Tx>, height: nat, n: nat)
    requires SpendsObey(p, rules, utxo, txs, height) && n <= |txs|
    ensures Fees(utxo, txs, n).Some? && Fees(utxo, txs, n).value == PaidBy(utxo, txs, n)
    decreases n
  {
    hide InValue, OutputValue;
    if n > 1 {
      FeesAre(p, rules, utxo, txs, height, n - 1);
      var tx := txs[n - 1];
      forall o | o in tx.Prevs(|tx.vin|)
        ensures o in utxo.Keys
      {
        var i :| 0 <= i < |tx.vin| && tx.vin[i].prev == o;
        assert InputObeys(p, rules, utxo, txs, height, n - 1, i);
      }
    }
  }

  /** The validator accepts a block exactly when its header and its body obey the rules. */
  lemma AcceptedExactly(p: Params, rules: Rules, utxo: map<OutPoint, Coin>, ix: Index, b: Block, height: nat)
    ensures BlockAccepted(p, rules, utxo, ix, b, height) <==> HeaderObeys(p, ix, b, height) && BlockObeys(p, rules, utxo, b, height)
  {
    hide TxsAccepted, CoinbaseObeys, TxsObey, SpendsObey, ExpectedBits, MedianTimePast, OutputValue, Fees, PaidBy, IndexView;
    TxsAcceptedIs(p, rules, utxo, b.txs, height);
    if SpendsObey(p, rules, utxo, b.txs, height) {
      FeesAre(p, rules, utxo, b.txs, height, |b.txs|);
    }
    CoinbaseFirst(b.txs);
  }

  lemma CoinbaseFirst(txs: seq<Tx>)
    ensures CoinbaseObeys(txs) ==> txs != []
  {
  }

  // ------------------------------------------------------------------ whole runs

  /** Each of these blocks obeys the rules on what the blocks below it left, and these coins and marks are told from those blocks. */
  ghost predicate AllObey(env: Env, base: Tables, bs: seq<Block>) {
    forall k :: 0 <= k < |bs| ==>
      var below := Replay(base, bs[..k], 1);
      below.ok && LedgerOf(base.utxo, bs[..k], 1, below.tables) && BlockObeys(env.p, env.rules, below.tables.utxo, bs[k], k + 1)
  }

  lemma VettedObeys(env: Env, base: Tables, bs: seq<Block>, k: nat)
    requires Vetted(env, base, bs) && k < |bs|
    ensures BlockObeys(env.p, env.rules, Replay(base, bs[..k], 1).tables.utxo, bs[k], k + 1)
  {
    hide Replay, TxsAccepted, CoinbaseObeys, TxsObey, SpendsObey, OutputValue, Fees, PaidBy;
    VettedPrefix(env, base, bs, k + 1);
    assert bs[..k + 1][..k] == bs[..k];
    var utxo := Replay(base, bs[..k], 1).tables.utxo;
    TxsAcceptedIs(env.p, env.rules, utxo, bs[k].txs, k + 1);
    FeesAre(env.p, env.rules, utxo, bs[k].txs, k + 1, |bs[k].txs|);
    CoinbaseFirst(bs[k].txs);
  }

  lemma {:induction false} ReplayPrefix(base: Tables, bs: seq<Block>, first: nat, k: nat)
    requires Replay(base, bs, first).ok && k <= |bs|
    ensures Replay(base, bs[..k], first).ok
    decreases |bs|
  {
    hide Connect;
    if k < |bs| {
      var init := bs[..|bs| - 1];
      ReplayPrefix(base, init, first, k);
      assert init[..k] == bs[..k];
    } else {
      assert bs[..k] == bs;
    }
  }

  lemma FreshPrefix(known: set<Id>, bs: seq<Block>, k: nat)
    requires FreshChain(known, bs) && k <= |bs|
    ensures FreshChain(known, bs[..k])
  {
    hide DistinctIds, Ids;
  }

  lemma InvObeys(env: Env, coins: map<OutPoint, Coin>, known: set<Id>, s: Node)
    requires NodeInv(env, coins, known, s)
    ensures LedgerOfNode(env, coins, s)
  {
    hide Vetted, Replay, Rooted, Linked, Stored, CleanBase, Flagged, Chain, Branch, FreshChain, LedgerOf, BlockObeys;
    var es := s.live.index.entries;
    InvRooted(env, coins, known, s);
    ChainIsBranch(es, s.best);
    BranchNoRepeats(es, Chain(es, s.best));
    var branch, base := Chain(es, s.best), BaseOf(coins, s.live.tables);
    BodiesFresh(known, s.blocks, branch[1..]);
    var bs := Bodies(s.blocks, branch[1..]);
    ReplayIsLedger(base, known, bs, 1);
    forall k | 0 <= k < |bs|
      ensures var below := Replay(base, bs[..k], 1);
              below.ok && LedgerOf(coins, bs[..k], 1, below.tables) && BlockObeys(env.p, env.rules, below.tables.utxo, bs[k], k + 1)
    {
      ReplayPrefix(base, bs, 1, k);
      FreshPrefix(known, bs, k);
      ReplayIsLedger(base, known, bs[..k], 1);
      VettedObeys(env, base, bs, k);
    }
  }

  /** Tables and active branch, told from the blocks alone. */
  ghost predicate LedgerOfNode(env: Env, coins: map<OutPoint, Coin>, s: Node) {
    && Linked(s.live.index.entries)
    && var branch := Chain(s.live.index.entries, s.best);
    && branch != [] && AllIn(s.blocks, branch[1..])
    && var bs := Bodies(s.blocks, branch[1..]);
    && LedgerOf(coins, bs, 1, s.live.tables)
    && AllObey(env, BaseOf(coins, s.live.tables), bs)
  }

  /** After any run: every coin and every spent mark is accounted for by the blocks of the active branch, and each of
      these blocks obeys every rule on the coins that the blocks below it left. */
  lemma LedgerThroughout(env: Env, coins: map<OutPoint, Coin>, known: set<Id>, s: Node, calls: seq<Call>)
    requires NodeInv(env, coins, known, s) && forall i :: 0 <= i < |calls| ==> calls[i].block.hash != NULL_HASH
    ensures LedgerOfNode(env, coins, Run(env, coins, known, s, calls))
  {
    hide NodeInv, LedgerOfNode;
    RunKeeps(env, coins, known, s, calls);
    InvObeys(env, coins, known, Run(env, coins, known, s, calls));
  }

  /** Where a spent coin comes from: input i of transaction j of block k spends a coin of the start, or a spendable output of a
      lower block, whose script it satisfies and which, if a coinbase made it, is at least the maturity below. */
  lemma SpendsTraceBack(env: Env, base: Tables, bs: seq<Block>, k: nat, j: nat, i: nat)
    requires AllObey(env, base, bs) && k < |bs| && 0 < j < |bs[k].txs| && i < |bs[k].txs[j].vin|
    ensures var prev := bs[k].txs[j].vin[i].prev;
            || prev in base.utxo
            || exists m: nat, l: nat ::
                 && m < k && OutputAt(bs[..k], m, l, prev.index) && bs[m].txs[l].id == prev.txid
                 && var out := bs[m].txs[l].vout[prev.index];
                 && env.rules.scriptOk(bs[k].txs[j], i, out.script, out.value)
                 && (MintsAt(bs[m].txs, l) ==> m + env.p.coinbaseMaturity <= k)
  {
    hide Replay, OutputValue, PaidBy, CoinbaseObeys, TxsObey, SpentOn;
    var prev, utxo := bs[k].txs[j].vin[i].prev, Replay(base, bs[..k], 1).tables.utxo;
    assert InputObeys(env.p, env.rules, utxo, bs[k].txs, k + 1, j, i);
    assert prev in base.utxo || MadeOn(bs[..k], prev);
    if prev !in base.utxo {
      var m: nat, l: nat :| OutputAt(bs[..k], m, l, prev.index) && bs[..k][m].txs[l].id == prev.txid;
      assert bs[..k][m] == bs[m] && OutPoint(bs[m].txs[l].id, prev.index) == prev;
    }
  }
}
