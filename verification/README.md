# BerzCoin in Dafny: ledger, reorganisations, mempool, consensus arithmetic

A model of the state-changing core of the BerzCoin node, with proofs that hold for every input, every run and
every reachable state.  `dafny verify dfyconfig.toml` checks the project.

Code that changes tables, indexes or entry sets step by step is a class with the same fields and methods; each
method is proved equal to a function or predicate over plain values, and the theorems are about those.
Database tables are maps, a transaction or savepoint is a saved copy of the tables, hashes and txids are opaque
numbers, and scripts, proof of work, sizes and signature counts are arbitrary deterministic functions.

**Chain state.**  `Ledger` says what connecting and disconnecting do to the coin, undo and outputs tables.
`ChainIndex` holds the block tree, the status flags, the height map and the tip.  `ReorgSpec` has the dry run and
the switch of a reorganisation, `NodeSpec` the whole acceptance pipeline.  `BlockConnection`, `Reorganisation` and
`BlockAcceptance` are the imperative form of the same.  Main results: after any sequence of blocks the node's state is
the replay of its active branch (`PathIndependence`), so two histories that end on one branch end with one ledger
(`SameBranchSameLedger`); the dry run changes nothing and foretells the switch (`DryRunIsFaithful`); the switch
is all or nothing (`CommitAllOrNothing`); money supply stays below the schedule (`SupplyBound`); every active
header obeys the difficulty and median time rules computed on its own ancestors (`HeadersRightThroughout`).
`FreshRun` puts these together for a node that starts from an empty data directory, so none of the invariants is
assumed there.

Four modules say the same things without the functions that compute them.  `BranchLedger` reads every coin and every
spent mark off the blocks of the branch; `BlockRules` writes out what an accepted block looks like, and shows that
every active block does; `SwitchRules` says from the two branches alone when a switch takes place; `BlockOutcome`
gives the answer to any block, and shows that a stored branch heavier than the active one was refused when it came.

**Mempool.**  `PoolSpec` holds the dependency graph and everything kept beside it, `Admission` the checks and the
insertion, `Eviction` what a full pool gives up, `Settlement` what becomes of a newcomer, `Revalidation` what a
connected block does, `Mempool`, `BlockTemplate` and `Packages` the pool's methods.  The pool invariant `PoolInv`
says: ancestor and descendant sets are mutual, transitive and free of cycles, recorded parents are exactly the
pooled ones that the inputs name, ancestors are exactly the closure of the parents, no two entries share an
outpoint, `spent_utxos` is exactly the union of the inputs, the totals are exact sums, both lists are sorted
permutations of the keys, and all limits hold.  Every call is determined by the pool before it: who is evicted or
replaced, whether the newcomer gets in, what a block removes.  Over whole runs from the empty pool the invariant
holds after every call if and only if no call is one that breaks it (`PoolRunKeepsExactly`), and which calls do is
told in advance: admissions that get in although an input spends an output of a transaction that has to go for them
(`AdmissionBreaksExactly`), and removals that leave dependants behind.  The code allows both kinds of such
admission; `PoolExample` runs one of each from an empty pool.  `PoolRules` writes out what it takes to enter the
pool, to displace others and to stay after a block, on the transactions themselves.

**Arithmetic and scripts.**  `Compact`, `Retarget` and `Subsidy` treat difficulty bits, the four copies of the
retarget rule and the halving schedule; `PushScript` treats the minimal-push scanner.

**Indexes and audit.**  `IndexSpec` and `AddressIndex` treat the transaction and address indexes, `IndexFacts` reads
all their rows off the indexed transactions, `Audit` treats the replay audit and the reindexer.

## Where the code and its description differ

The model follows the code.  Each line has a lemma with the exact condition or a concrete input.

- `get_bits` never pads a target below 2^16 to three bytes, so such a target does not survive the round trip
  (`Compact.RoundTripExactly`).
- The subsidy derived from a cap stays within the cap exactly when the cap is at least one unit for every block of
  an interval: the derived subsidy is never less than 1 (`Subsidy.SupplyWithinCap`).
- A push of the single byte 0x00 is never accepted as minimal, though rule 3 of BIP 62 asks only for the shortest
  push (`PushScript.ZeroByteRefused`, `PushScript.PrintIsMinimal`).
- A replacement may spend an output of the very transaction that it replaces; the rule against new unconfirmed
  inputs lets it pass because the replaced ones count as known.  Likewise a child can outbid and evict its own
  parent in a full pool.  Both get in and break the pool invariant; `Settlement.AdmissionBreaksExactly` says
  exactly when that happens, `PoolExample.ReplacementBreaks` and `PoolExample.EvictionBreaks` are inputs.
- The audit replays from height 0 but block acceptance never connects height 0, so a node that started without
  coins passes only if its block at height 0 is on file and leaves no coin (`Audit.AuditOfNode`,
  `Audit.RegtestFailsAudit`).
- With a mismatch limit below 1 the audit reports missing coins but neither surplus nor altered ones
  (`Audit.VerifyActiveChain`).
- The fallback of the topological sort cannot be reached on a well-formed pool (`BlockTemplate.TopoSort`).
- A switch of branches is undone completely only when it starts its own transaction.  Inside one that is open it
  restores the index but leaves the rows written so far (`ReorgExample.FailureUnderOpenTransaction`); within
  `on_block` this cannot happen, because the rehearsal has already told that the switch succeeds.
- Neither `connect_failed` nor `reorg_failed` can be the reply of `on_block` (`NodeSpec.OnBlockKeeps`).

## Model

| member | source | states |
|---|---|---|
| NodeSpec.PathIndependence | node/app/main.py:273-387 | After any sequence of blocks (extensions, forks, reorganisations, refusals) coins, undo rows and spent marks equal a replay of the active branch, undo rows exist for exactly the inputs of its blocks, height map and MAIN_CHAIN flags show exactly the tip's ancestors, and best work has not fallen |
| NodeSpec.SameBranchSameLedger | node/app/main.py:273-387 | Two histories that end on the same branch end with the same coins, undo rows and height map, and agree on every spent mark of a row both have |
| NodeSpec.SupplyBound | node/chain/validation.py:270-320 | After any run the coins at tip height h are worth at most the starting coins plus the subsidies of heights 1..h, and at most the starting coins plus the maximum supply |
| NodeSpec.RunKeeps | node/app/main.py:273-370 | The node invariant holds after every run, and best work never falls |
| NodeSpec.OnBlockKeeps | node/app/main.py:273-370 | One block keeps the invariant whatever its fate; only a connect or a reorganisation moves tip or coins and then the tip is that block; a reorganisation gains work; the replies for a failed connect or switch never occur |
| NodeSpec.ConnectTipKeeps | node/app/main.py:372-387 | A block that passed validation on the tip always connects, becomes the tip and keeps the invariant |
| NodeSpec.ReorganiseKeeps | node/app/main.py:325-362 | After a good rehearsal the switch never fails and the tip is the new block; after a bad one nothing at all has changed |
| NodeSpec.StoreKeeps | node/storage/blocks_store.py:25-96 | A block whose txids are new can be stored without touching what the active branch replays to |
| NodeSpec.ReplayKeys | node/validation/connect.py:28-107 | After a replay the undo rows are exactly those of the replayed blocks' inputs |
| NodeSpec.FreshNodeInv | node/chain/chainstate.py:200-264 | A node with nothing but a genesis header satisfies the invariant |
| HeaderRules.FreshRun | node/app/main.py:273-387 | From an empty data directory, after any blocks: the state is that of the active branch, its headers obey the rules, the supply is within the schedule and work has not fallen, with no invariant assumed |
| HeaderRules.HeadersRightThroughout | node/chain/validation.py:57-114 | After any run every active header above genesis carries the bits that retargeting over its own ancestors demands and a time above their median; the demanded bits always exist |
| HeaderRules.OnBlockHeaders | node/app/main.py:273-370 | Handling one block, also one that waited as a fork and is activated later, keeps those header rules |
| HeaderRules.StageView | node/chain/validation.py:85-114 | Whenever tables and height map stand on a branch, the validator's lookups by height see exactly the headers of that branch |
| HeaderRules.TipView | node/chain/validation.py:322-332 | For a block on the tip these lookups see exactly the headers of the active branch |
| BlockOutcome.RepliesExactly | node/app/main.py:273-370 | The answer to every block, told from the tree, the store and replays: known, orphan, refused by the rules on the tip or by the basic ones, refused for a used txid, Connected, stored as a fork exactly when its branch has no more work than the tip, and otherwise Reorganised exactly when the branches allow the switch; the tip moves to the block exactly when it is Connected or Reorganised |
| BlockOutcome.HeavierWasRefused | node/app/main.py:325-348 | Over every run, a stored branch with more work than the tip was that heavy before the run, or could not be switched to when its last block came |
| BlockOutcome.FreshHeavierWasRefused | node/app/main.py:325-348 | From an empty data directory every stored branch heavier than the active one was refused when it came, and the branches say why |
| BlockOutcome.StandsExactly | node/chain/reorg.py:102-112 | A branch block counts for a switch exactly when it is on file and obeys the header and body rules on the replay of its own ancestors; then it also connects |
| BlockOutcome.RowsThroughout | node/storage/blocks_store.py:62-90 | After any run every output of every block on file has its row |
| SwitchRules.SwitchExactly | node/chain/reorg.py:30-218 | Rehearsal and switch succeed if and only if the branches share a block, at most the depth limit of old blocks lie above the highest shared one, and every new block above it is on file, accepted and connects on the replay of its own ancestors |
| SwitchRules.PlanExists | node/chain/reorg.py:48-61 | There is a plan if and only if some block is shared and at most the depth limit of old blocks lie above the highest such; that block is its fork |
| BlockRules.LedgerThroughout | node/validation/connect.py:28-107 | After any run every coin and every spent mark is accounted for by the blocks of the active branch, and each of these obeys every rule on the coins that the blocks below it left |
| BlockRules.AcceptedExactly | node/chain/validation.py:36-282 | A block is accepted if and only if, written out: the demanded bits and a time past the median; one coinbase, in front; versions, sizes and money limits; every input there, mature and with its script satisfied; no outpoint and no id twice; nobody pays out more than went in; the coinbase at most subsidy plus fees |
| BlockRules.SpendsTraceBack | node/chain/validation.py:160-237 | Each input of the active branch spends a coin of the start, or a spendable output of a lower block whose script it satisfies and which, if a coinbase made it, is at least the maturity below |
| BranchLedger.ReplayIsLedger | node/validation/connect.py:41-102 | In the tables of every replayed chain a coin exists if and only if it was there before or a spendable output made it, and no input spent it; it has the value, script, height and coinbase flag of its output; an outputs row names the transaction and input that spent it, and is clean if none did |
| BranchLedger.ConnectTxMark | node/storage/utxo_store.py:24-42 | Connecting a transaction marks the row of each output that it spends with its id and input index, and no other |
| BlockAcceptance.BerzCoinNode.OnBlock | node/app/main.py:273-370 | The imperative pipeline leaves exactly the state and gives exactly the reply that the run theorems are about, for a database that may or may not be in a transaction |
| BlockAcceptance.BerzCoinNode.WriteBlock | node/storage/blocks_store.py:25-96 | Inserts a row per transaction and output; a known txid fails it, which undoes the rows unless a transaction was already open |
| BlockAcceptance.BerzCoinNode.SetBestBlock | node/chain/chainstate.py:275-288 | Selects the tip in the index and caches its hash, height and work |
| BlockAcceptance.BerzCoinNode.ConnectAsNewTip | node/app/main.py:372-383 | Connects the block to the tables, then makes it the best block; a failed connect changes no tip |
| BlockAcceptance.BerzCoinNode.TryReorganise | node/app/main.py:332-362 | Rehearses first, switches only if that went well, and then caches the new tip |
| ReorgSpec.DryRunIsFaithful | node/chain/reorg.py:134-218 | The rehearsal leaves tables, statuses, height map and tip as they were whatever it answers, and answers true exactly when the switch from there would succeed |
| ReorgSpec.CommitAllOrNothing | node/chain/reorg.py:30-132 | Success puts the state in step with the new branch; failure at any point restores index and tip, and also the tables unless a transaction was already open |
| ReorgExample.FailureUnderOpenTransaction | node/chain/reorg.py:91-132 | A switch whose first new body is missing: with a transaction open before it, it fails with the index restored and the disconnected coins gone; without one, nothing has changed |
| ReorgExample.SwitchSucceeds | node/chain/reorg.py:91-123 | With the body on file the same switch goes through, within a depth limit of one |
| ReorgSpec.ValidatedOnOwnBranch | node/chain/reorg.py:91-114 | Disconnecting never fails, and each branch block is validated when tables and height map stand exactly on its ancestors |
| ReorgSpec.RunOutcome | node/chain/reorg.py:277-289 | A run of the plan that succeeds passes the closing invariants, and one that fails is rolled back to the index it started from |
| ReorgSpec.RollbackExact | node/chain/reorg.py:244-256 | Restoring the snapshot and selecting the old tip again gives back the index, whatever happened to the touched statuses and the height map |
| ReorgSpec.PlanSplits | node/chain/reorg.py:220-275 | Every plan cuts both branches at their highest shared block, stays within the depth limit and passes the path checks |
| ReorgSpec.PlanPaths | node/chain/reorg.py:258-275 | The path checks accept every split of two branches at a shared block, so they never refuse a plan |
| Reorganisation.ReorgManager.Reorganize | node/chain/reorg.py:30-132 | The switch with its nested transactions equals its specification, and returns the disconnected blocks tip first and the connected ones lowest first |
| Reorganisation.ReorgManager.CanReorganize | node/chain/reorg.py:134-218 | The rehearsal under a savepoint equals its specification and leaves the transaction state as it was |
| Reorganisation.ReorgManager.FindCommonAncestor | node/chain/reorg.py:220-232 | The walk ends and finds what ForkIsHighestShared is about |
| Reorganisation.ReorgManager.BranchAbove | node/chain/reorg.py:65-82 | Lists the entries of a branch above the fork, tip first |
| Reorganisation.ReorgManager.ValidateReorgPaths | node/chain/reorg.py:258-275 | True exactly for paths that start at the fork, link parent to child and step heights by one |
| Reorganisation.ReorgManager.SnapshotStatuses | node/chain/reorg.py:244-249 | Saves the status of each path entry that exists |
| Reorganisation.ReorgManager.RestoreStatuses | node/chain/reorg.py:251-256 | Puts saved statuses back and touches nothing else |
| Reorganisation.ReorgManager.AssertPostReorgInvariants | node/chain/reorg.py:277-289 | True exactly when the old path has lost and the new path has gained MAIN_CHAIN |
| ChainIndex.ForkIsHighestShared | node/chain/reorg.py:220-232 | The two-sided walk finds the highest block that both branches share, and finds none only if they share none |
| ChainIndex.SetBestCanonical | node/chain/block_index.py:225-256 | On an index without invalid entries, selecting a tip leaves height map and flags showing exactly that tip's ancestors and keeps the tree |
| ChainIndex.SetBestRepairs | node/chain/block_index.py:225-256 | Selecting the current tip again repairs any damage to the height map |
| ChainIndex.AddBlockCanonical | node/chain/block_index.py:120-150 | A stored block is a side block at first: tip, flags, height map and every branch stay, and its branch is its parent's plus itself |
| ChainIndex.HeightsAreBranch | node/chain/block_index.py:237-256 | The rebuilt height map holds the tip's ancestors 0..h, each at its own height, and nothing else |
| ChainIndex.DownIsSuffix | node/chain/reorg.py:65-82 | Walking down to the fork and reversing yields exactly the part of the branch above the fork |
| ChainIndex.ChainLinks | node/chain/block_index.py:237-256 | Along a branch each hash is the parent of the next |
| BlockConnection.BlockIndex.AddBlock | node/chain/block_index.py:120-150 | Adds the entry with its status in place, leaving heights and tip |
| BlockConnection.BlockIndex.MarkMainChain | node/chain/block_index.py:209-223 | Sets or clears the flag and the height slot, clearing the slot only if it holds this block |
| BlockConnection.BlockIndex.IsBranchInvalid | node/chain/block_index.py:277-283 | Finds an INVALID entry exactly when the branch down to the root has one |
| BlockConnection.BlockIndex.SetBestChainTip | node/chain/block_index.py:225-235 | Declines an unknown or invalid branch and otherwise selects it |
| BlockConnection.BlockIndex.RebuildMainChain | node/chain/block_index.py:237-256 | The loops flag exactly the branch and rebuild the map from it |
| Ledger.DisconnectUndoesConnect | node/validation/disconnect.py:24-78 | For a block with distinct, unused txids a successful connect followed by a disconnect succeeds and restores coins and spent flags and leaves no undo row of the block, also when later transactions spend earlier ones |
| Ledger.DisconnectTxUndoes | node/validation/disconnect.py:32-68 | The same for one transaction, with whatever undo rows came later |
| Ledger.DisconnectTip | node/validation/disconnect.py:24-78 | The last block of any replayed chain can be taken off, which gives exactly the replay without it |
| Ledger.ReplayTidy | node/validation/connect.py:28-107 | After a replay coins and undo rows belong to the chain or the base only, so the next fresh block always meets unused ids |
| Ledger.ReplayRows | node/storage/blocks_store.py:62-90 | Storing other blocks' output rows changes nothing about what a chain replays to |
| Ledger.ConnectTxShape | node/validation/connect.py:41-90 | Connecting adds coins of this transaction only, changes marks only of coins it spent, and writes undo rows only under its own id |
| Ledger.ConnectSettled | node/validation/connect.py:96-102 | The closing update of the coinbase's output rows changes nothing |
| BlockConnection.ConnectBlock.Connect | node/validation/connect.py:28-107 | The nested loops leave the tables and flags that the ledger theorems are about, and on failure roll back unless a transaction was already open |
| BlockConnection.DisconnectBlock.Disconnect | node/validation/disconnect.py:24-78 | The reverse loop with undo rows, likewise, and likewise atomic |
| BlockConnection.Database.Begin | node/storage/db.py:44-60 | Entering inside an open transaction starts nothing |
| BlockConnection.Database.End | node/storage/db.py:44-60 | Only the scope that started the transaction commits or rolls back |
| BlockConnection.Database.RollbackTo | node/chain/reorg.py:194-215 | Rolling back to the savepoint restores all tables |
| BlockConnection.Database.SpendUtxo | node/storage/utxo_store.py:24-42 | Deletes the coin and marks its row exactly when the coin exists; otherwise reports false and changes nothing |
| BlockConnection.Database.AddUtxo | node/storage/utxo_store.py:15-22 | Puts one coin in, leaving all others |
| BlockConnection.Database.RemoveUtxo | node/storage/utxo_store.py:44-48 | Takes one coin out and says whether it was there |
| Validation.ValidateTransaction | node/chain/validation.py:160-237 | Accepts exactly what the closed rule set does: inputs distinct, unspent, mature and in range, outputs within money, in at least out, scripts valid |
| Validation.ValidateTransactions | node/chain/validation.py:127-158 | Accepts exactly if the first is the only coinbase, ids are distinct, each is valid on the coins before the block and no outpoint is spent twice |
| Validation.CheckSpend | node/chain/validation.py:139-150 | One round claims a transaction's outpoints and refuses one that is claimed already |
| Validation.CalculateFees | node/chain/validation.py:304-320 | The sum of inputs less outputs of all but the coinbase, or -1 if an input is missing or a fee negative |
| Validation.ValidateSubsidy | node/chain/validation.py:270-282 | True exactly when the coinbase claims at most subsidy plus fees |
| Validation.ValidateBlock | node/chain/validation.py:36-55 | Header, transactions and subsidy are judged as on the block's own parent state |
| Validation.ValidatedConnects | node/validation/connect.py:28-107 | A block whose transactions are accepted on a state connects to it |
| ValueFlow.BlockFlow | node/chain/validation.py:304-320 | An accepted block changes the total coin value by exactly the coinbase outputs, less fees, less OP_RETURN outputs |
| ValueFlow.BlockIssuesAtMostSubsidy | node/chain/validation.py:270-282 | An accepted block adds at most its subsidy to the total |
| ValueFlow.ConnectTxTotal | node/validation/connect.py:41-90 | Connecting one transaction changes the total by its spendable outputs less the coins it spent |
| Subsidy.GetBlockSubsidy | shared/consensus/subsidy.py:5-13 | The halving loop computes the initial subsidy divided by 2 once per completed interval |
| Subsidy.GetTotalSupply | shared/consensus/subsidy.py:15-25 | Walking from halving to halving gives the sum of the block subsidies of heights 0..height |
| Subsidy.GetMaxSupply | shared/consensus/subsidy.py:27-34 | The sum over all halvings until the subsidy is zero |
| Subsidy.IssuedWithinMaxSupply | shared/consensus/subsidy.py:15-34 | No number of blocks issues more than the maximum supply |
| Subsidy.SupplyWithinCap | shared/consensus/params.py:89-93 | With the subsidy derived from a cap the maximum supply is within the cap if and only if the cap is at least the halving interval |
| Subsidy.CapExactly | shared/consensus/params.py:89-93 | The subsidy for a cap is the cap over twice the interval, rounded down, and at least 1 |
| Subsidy.MaxSupplyReached | shared/consensus/subsidy.py:27-34 | With an initial subsidy below 2^64 the maximum supply is just what the blocks of the first sixty-four intervals issue |
| Subsidy.SubsidyHalves | shared/consensus/subsidy.py:5-13 | The initial subsidy in the first interval, half of it, rounded down, interval after interval, and nothing from the sixty-fourth on |
| Params.ConsensusParams.RetargetInterval | shared/consensus/params.py:79-83 | There is always at least one block between adjustments |
| Params.IntervalExactly | shared/consensus/params.py:79-83 | The interval is the number of whole spacings in the timespan, or 1 |
| Compact.GetBits | shared/consensus/pow.py:70-87 | The byte loop computes the closed form that the round-trip lemmas are about, capped at the limit |
| Compact.ScanBytes | shared/consensus/pow.py:75-83 | Leading zero bytes are skipped exactly, and the next three are the leading digits of the target |
| Compact.RoundTrip | shared/consensus/pow.py:19-87 | For 2^16 <= t <= limit < 2^255 decoding the encoding is valid and canonical, at most t and within one part in 2^15 |
| Compact.RoundTripExactly | shared/consensus/pow.py:70-87 | The trip stays within that error if and only if t is at least 2^16 |
| Compact.RoundedMonotone | shared/consensus/pow.py:19-87 | Decode after encode keeps the order of targets |
| Compact.DecodedIsExact | shared/consensus/pow.py:64-87 | A target of at least 2^16 that came from bits goes through encoding unchanged |
| Compact.WorkIsPositive | node/chain/chainwork.py:14-19 | With limit 2^255 - 1 every decodable target contributes work of at least 1 |
| Compact.WorkExactly | node/chain/chainwork.py:14-19 | Work is the limit divided by the target plus one, rounded down, and none for bits that do not decode |
| Compact.WorkOrder | node/chain/chainwork.py:14-19 | A lower target means at least as much work |
| Compact.DecodeExactly | shared/consensus/pow.py:19-58 | Byte count e and mantissa m decode to m * 256^(e - 3), cut off for small e, if and only if the sign is clear and the number is positive, fits and is within the limit |
| Retarget.GetNextWorkRequired | shared/consensus/pow.py:96-139 | The method computes the rule that the retarget lemmas are about, with clamp, cap and the unchanged cases |
| Retarget.RetargetBounds | shared/consensus/pow.py:96-139 | The next bits decode canonically to at most four times the parent target and the limit, and to a quarter at least, less rounding below one part in 2^15 |
| Retarget.RetargetMonotone | shared/consensus/pow.py:96-139 | A longer observed timespan never gives a lower target |
| Retarget.RetargetOnSchedule | shared/consensus/pow.py:96-139 | An interval on schedule keeps the target exactly |
| Retarget.BitsDemanded | node/chain/validation.py:85-114 | Where no header is missing the validator always knows the bits it demands |
| Retarget.BitsExactly | node/chain/validation.py:85-114 | Off the boundary the parent's bits; on it the encoding of the next target for the time between the first and the last header of the interval |
| Retarget.NextTargetExactly | shared/consensus/pow.py:118-139 | The parent target times the observed timespan, kept between a quarter and four times the wanted one, over the wanted one, rounded down, within the limit and at least 1 |
| Retarget.FourAgree | node/mining/miner.py:306-328 | On a full chain with a valid tip validator, miner, assembler and difficulty calculator name the same bits for the next block |
| Retarget.CalculatorAgrees | node/mining/difficulty.py:80-102 | The calculator's own copy of the rule agrees with the consensus one for a valid parent |
| Retarget.CalculatorTargetToBits | node/mining/difficulty.py:42-66 | Its own byte loop computes its closed form |
| Retarget.ExpectedBitsForHeight | node/chain/validation.py:85-114 | The validator's window over the height map, with its missing-header cases |
| Retarget.MinerNextBits | node/mining/miner.py:306-328 | The miner's window, with its fallback cases |
| Retarget.AssemblerNextBits | node/mining/block_assembler.py:190-206 | The assembler's window, with its fallback cases |
| Retarget.SortKeeps | node/chain/validation.py:322-332 | The median is taken from a permutation of the times that the window holds |
| Retarget.MedianExactly | node/chain/validation.py:322-332 | The median time is one of the times of the last headers, more than half of these are at most it, and at least half are at least it |
| PushScript.IsMinimalPush | node/mempool/policy.py:186-231 | Accepts exactly the scripts that equal the canonical print-out of the items they push, none of them the single byte zero; these are push-only too |
| PushScript.IsPushOnly | node/mempool/policy.py:156-184 | Accepts exactly the scripts that parse into pushed items |
| PushScript.ScanPush | node/mempool/policy.py:186-231 | One round passes exactly if the push is complete and in its shortest form, and then skips exactly that push |
| PushScript.CanonicalStep | node/mempool/policy.py:186-231 | A script is canonical exactly if its first push passes the scan and the rest is canonical |
| PushScript.PrintForms | node/mempool/policy.py:186-231 | The shortest push of each kind of item up to 65535 bytes, byte for byte |
| PushScript.PrintLong | node/mempool/policy.py:186-231 | Longer items stand behind a four-byte length, lowest byte first |
| PushScript.RoundTrip | node/mempool/policy.py:156-184 | Parsing undoes printing if and only if every item's length fits in four bytes |
| PushScript.PrintIsMinimal | node/mempool/policy.py:186-231 | A print-out is accepted if and only if no item is the single byte zero |
| PushScript.MinimalIsUnique | node/mempool/policy.py:186-231 | Two accepted scripts that push the same items are the same script |
| PushScript.MinimalIsShortest | node/mempool/policy.py:186-231 | No script that pushes the same items is shorter than their print-out |
| PushScript.ZeroByteRefused | node/mempool/policy.py:186-231 | The byte zero alone can be pushed, but by no accepted script |
| PoolRuns.PoolRunKeepsExactly | node/mempool/pool.py:204-490 | From the empty pool, over any sequence of admissions, removals and connected blocks, the pool invariant holds after every call if and only if no call is one of those told in advance to break it |
| PoolRuns.StepKeepsExactly | node/mempool/pool.py:204-490 | The same for one call of any kind from any pool that keeps the invariant |
| PoolRuns.RemovalKeepsExactly | node/mempool/pool.py:759-785 | A removal keeps the invariant if and only if it takes the dependants along or there are none |
| PoolRuns.Perform | node/mempool/pool.py:204-490 | Each method of the pool makes exactly such a step |
| Settlement.AdmissionBreaksExactly | node/mempool/pool.py:204-337 | An admission breaks the pool invariant if and only if, told from the pool before it, the newcomer passes every check, gets in, and has an input that spends an output of a transaction evicted or replaced for it |
| Settlement.ReplacementBreaksExactly | node/mempool/pool.py:875-923 | Where there is room already, that means: an input spends from a conflict or from what depends on one; the rule on new unconfirmed inputs lets all of these pass |
| Settlement.PlainAdmissionKeeps | node/mempool/pool.py:204-337 | With room and no conflict nothing is removed and the invariant holds, whatever the reply |
| Settlement.ReplacementPays | node/mempool/pool.py:875-923 | A replacement for which there is room removes exactly the conflicts and their descendants and raises the total fee by more than vsize times the minimum relay fee, as rules 3 and 4 of BIP 125 ask |
| PoolRules.AddedExactly | node/mempool/pool.py:204-337 | A transaction is added if and only if it may enter, and beside those that eviction and replacement leave there is room for it and for one more descendant of each forebear |
| PoolRules.AddedObeys | node/mempool/pool.py:204-337 | Whatever was added obeyed every rule, pays what its coins say, and none of its rivals is left |
| PoolRules.ScreenExactly | node/mempool/pool.py:210-263 | The checks pass if and only if, written out: new id, rivals displaceable, coins there, mature and scripts satisfied, outputs within money, standard, fee at the floor or the package's rate, inputs from chain or pool, forebears within limits |
| PoolRules.RbfPolicyExactly | node/mempool/pool.py:875-923 | The answer is the replacement policy if and only if the id is new, there are rivals, and they may not be displaced |
| PoolRules.MayReplaceExactly | node/mempool/pool.py:875-923 | The policy accepts if and only if at most 100 go, not too large together, every rival or an ancestor of it has a sequence below 0xfffffffe, no input brings a new unconfirmed parent, the fee is higher by the relay fee and the rate is higher |
| PoolRules.PoolTxExactly | node/mempool/pool.py:492-598 | The pool's validation accepts if and only if the rules hold and no other outpoint it spends is spent already |
| PoolRules.StillGoodExactly | node/mempool/pool.py:466-489 | A pooled transaction survives the revalidation if and only if it still obeys the rules, is standard, has its parents and pays the relay fee |
| Eviction.CheapestFirst | node/mempool/pool.py:726-740 | The entry considered earlier pays no more with its dependants than a later one, nor alone where they tie |
| Eviction.EvictionStops | node/mempool/pool.py:339-361 | Eviction ends only when the newcomer fits, does not outbid an entry that is left, or has the pool to itself |
| Eviction.EvictionOutbids | node/mempool/pool.py:339-361 | What is evicted is closed under dependence and pays less per virtual byte, all together, than the newcomer |
| Eviction.ByRankSorts | node/mempool/pool.py:726-740 | The eviction order has each entry once and is strict in package rate, own rate, larger package and id |
| PoolSpec.AdmissionKeepsInv | node/mempool/pool.py:204-337 | Whatever left for a newcomer, the invariant survives if and only if no ancestor of it was among that |
| PoolSpec.EmptyIsGood | node/mempool/pool.py:40-69 | The empty pool keeps the invariant if and only if no limit is negative |
| PoolSpec.RemovalKeepsInv | node/mempool/pool.py:759-785 | Removing transactions with all that depends on them keeps the pool invariant |
| PoolSpec.JoinGraph | node/mempool/pool.py:309-331 | A newcomer joins a good graph well if and only if all its ancestors are pooled |
| PoolSpec.JoinLinked | node/mempool/pool.py:309-331 | With the closure of its pooled parents as ancestors, sets and recorded parents agree with the inputs afterwards |
| PoolSpec.RestrictLinked | node/mempool/pool.py:759-785 | Taking out a descendant-closed set leaves ancestors equal to the closure of parents for the rest |
| PoolSpec.RestrictBounded | node/mempool/pool.py:252-263 | Removal never breaks an ancestor or descendant limit |
| PoolSpec.PlaceSorted | node/mempool/pool.py:664-668 | Inserting an id keeps a list a sorted permutation of the keys |
| PoolSpec.ListsInOrder | node/mempool/pool.py:664-668 | The first list runs from the highest fee rate down, the second from the earliest entry on |
| Admission.ReplaceableMeans | node/mempool/pool.py:860-873 | The recursive search answers exactly whether the transaction or an ancestor opts in, rule 1 of BIP 125 |
| Admission.AncestorsAreReached | node/mempool/pool.py:742-757 | The stored ancestors are exactly what recorded parents lead to in one or more steps |
| Revalidation.BlockRemovesExactly | node/mempool/pool.py:449-490 | An entry stays if and only if neither it nor an ancestor is confirmed, and then neither it nor an ancestor fails the revalidation among those left; what stays is good in the pool it ends up in |
| Revalidation.BlockStepKeepsInv | node/mempool/pool.py:449-490 | A connected block keeps the invariant, now against the longer chain |
| Revalidation.StaleLater | node/mempool/pool.py:466-489 | Looking at an entry after others were removed gives the same verdict as looking at it at once, so the order does not matter |
| Revalidation.KnownGrows | node/mempool/pool.py:449-490 | After revalidation the invariant holds against the longer chain |
| Admission.VirtualSize | node/mempool/pool.py:122-125 | A quarter of the weight, rounded up, and never 0 |
| PoolExample.ReplacementBreaks | node/mempool/pool.py:875-923 | A pool of one, a newcomer spending the output of what it replaces: it is added, and the invariant is gone |
| PoolExample.EvictionBreaks | node/mempool/pool.py:268-331 | A full pool of one, a child that outbids its parent: the parent is evicted, the child added, and the invariant is gone |
| PoolExample.ReplaceAParent | node/mempool/pool.py:204-337 | The first of these carried out on an empty pool: two admissions, both answered Added |
| PoolExample.EvictAParent | node/mempool/pool.py:204-361 | The second of these, likewise |
| PoolExample.FinalStays | node/mempool/pool.py:898-900 | A rival of a transaction that did not opt in is answered with the replacement policy, however much it pays, and nothing changes |
| PoolExample.KeepFinal | node/mempool/pool.py:204-337 | The same carried out on an empty pool |
| PoolExample.PoolIsGood | node/mempool/pool.py:204-337 | The pool of the example satisfies every promise |
| Mempool.Mempool.AddTransaction | node/mempool/pool.py:204-337 | The reply is that of the first check failed, and then nothing changes; otherwise the pool before the call decides whether there is room, exactly which entries leave, and whether the newcomer gets in below its ancestors; the redundant structures agree in every case, and the invariant breaks exactly as foretold |
| Mempool.Mempool.Settle | node/mempool/pool.py:264-331 | Answers that the limits are reached if and only if eviction cannot make room, and admits if and only if then no ancestor has too many descendants |
| Mempool.Mempool.Screening | node/mempool/pool.py:210-263 | The checks before any change, in order, yield exactly the specified early reply |
| Mempool.Mempool.CheckAncestors | node/mempool/pool.py:247-263 | Pooled parents and their closure, refused exactly when an input is unknown or the ancestors are too many or too large |
| Mempool.Mempool.Insert | node/mempool/pool.py:284-331 | Joins below all ancestors if and only if each then is within the descendant limits, and otherwise is undone completely |
| Mempool.Mempool.HandleConnectedBlock | node/mempool/pool.py:449-490 | Removes exactly the confirmed, then exactly the no longer good, each with its dependants, and nothing else; the invariant holds against the longer chain |
| Mempool.Mempool.RemoveStale | node/mempool/pool.py:466-489 | In whatever order the entries are looked at, those go that fail the revalidation at its start, with their dependants |
| Mempool.Mempool.RemoveTransaction | node/mempool/pool.py:759-785 | Removes the transaction and, if asked to, exactly what depends on it, from every structure, and returns each removed id once |
| Mempool.Mempool.RemoveSet | node/mempool/pool.py:759-785 | In whatever order a set is removed, the rest is the old graph without it |
| Mempool.Mempool.GetDescendants | node/mempool/pool.py:695-706 | The search finds exactly the transaction's descendants |
| Mempool.Mempool.CollectAncestors | node/mempool/pool.py:742-757 | The search finds exactly the parents and their ancestors |
| Mempool.Mempool.FindConflictingTxids | node/mempool/pool.py:787-798 | Exactly the pooled transactions that share an outpoint with the newcomer |
| Mempool.Mempool.BuildIgnoredSpentSet | node/mempool/pool.py:847-855 | Exactly the outpoints that the conflicts spend, not those of their descendants |
| Mempool.Mempool.IsTxidReplaceable | node/mempool/pool.py:860-873 | Finds a signalling transaction on a parent path, or shows the visited part closed and silent |
| Mempool.Mempool.CanReplace | node/mempool/pool.py:875-923 | True exactly when count, size, signalling, parents, absolute fee and rate rules all hold for the whole replaced set |
| Mempool.Mempool.CalculateFee | node/mempool/pool.py:629-643 | Input value on chain or in the pool less output value |
| Mempool.Mempool.ValidateTransaction | node/mempool/pool.py:492-598 | Accepts exactly what the closed pool rules do |
| Mempool.Mempool.CheckDependencies | node/mempool/pool.py:645-655 | The pooled parents, or a refusal exactly if some input is neither on chain nor pooled |
| Mempool.Mempool.EvictForSpace | node/mempool/pool.py:339-361 | Removes exactly the packages met along the eviction order until the newcomer fits or does not outbid the next |
| Mempool.Mempool.EvictionOrder | node/mempool/pool.py:726-740 | Every entry once, by package rate, own rate, larger package, id |
| Mempool.Mempool.DescendantPackageStats | node/mempool/pool.py:708-724 | Fee over virtual size of an entry with its descendants, and that size |
| Mempool.Mempool.TrackSpent | node/mempool/pool.py:676-683 | The spent index grows by exactly the inputs |
| Mempool.Mempool.UntrackSpent | node/mempool/pool.py:685-693 | The spent index shrinks by exactly the inputs, dropping emptied rows |
| BlockTemplate.GetTransactionsForBlock | node/mempool/pool.py:392-435 | The list is cut into packages, each the best payer by weight among all that could be selected then; distinct transactions, every pooled ancestor earlier, within the weight, all valid, nothing eligible left over, and always passing the miner's check |
| BlockTemplate.LeftOutBecause | node/mempool/pool.py:398-420 | Whatever is left out has an invalid member in its package, or weighs nothing, or does not fit any more, or costs more than its weight |
| BlockTemplate.PassedMeetsValidator | node/mining/miner.py:441-474 | What passes the miner's check has no id and no outpoint twice behind any coinbase, as the validator asks |
| BlockTemplate.BestPackage | node/mempool/pool.py:398-424 | Picks an eligible package of best fee per weight, complete and in order, and none only if none fits |
| BlockTemplate.TopoSort | node/mempool/pool.py:824-838 | Orders any pooled ids parents first, each once; on a well-formed pool the fallback is never reached |
| BlockTemplate.SelectionPasses | node/mining/miner.py:441-474 | Every ancestor-first selection without repeats from a well-formed pool satisfies the miner's check |
| BlockTemplate.PackageInFront | node/mempool/pool.py:840-845 | Appending a sorted package of unselected ancestors keeps ancestors first |
| BlockTemplate.ValidateSelectedTransactions | node/mining/miner.py:441-474 | True exactly for distinct ids, no shared outpoint, and parents before children by inputs and by recorded parents |
| Packages.SortPackageTxs | node/mempool/pool.py:800-822 | Each distinct transaction once with in-package parents first; gives up if and only if some transactions depend on each other in a circle |
| Packages.CyclicCannotSort | node/mempool/pool.py:800-822 | With such a circle no order exists at all |
| Packages.EstimatePackageFee | node/mempool/pool.py:925-951 | The package fee over coins, pool outputs and outputs of earlier members, None if an input is unknown |
| Packages.AddPackage | node/mempool/pool.py:127-202 | A circle, too many, too heavy, an unknown input or a low rate are each answered exactly when they hold of the package as a set, in this order and with nothing changed; otherwise the members are tried in dependency order, and a refused package leaves nothing that was not pooled before |
| Packages.PriceOfSorted | node/mempool/pool.py:925-951 | Count, weight, size and fee of a package do not depend on how it was sorted |
| Packages.PackageExactly | node/mempool/pool.py:137-177 | The members are tried if and only if the package has no circle, is small and light enough, has all its coins, and pays the floor per virtual byte together |
| Packages.MemberFeeExactly | node/mempool/pool.py:925-951 | A member's part of the price is the fee it would pay with all members pooled, known exactly when all its coins then are |
| Packages.PackageKeeps | node/mempool/pool.py:179-202 | If no single admission breaks the pool invariant then the package, accepted or rolled back, keeps it |
| Packages.AdmitMembers | node/mempool/pool.py:179-202 | Each member in turn is admitted as a single transaction would be, until one is refused for the reason that is reported; then all admitted ones go with what depends on them.  A later member may have evicted an earlier one |
| Packages.RollBackPackage | node/mempool/pool.py:186-195 | Takes out exactly the members added so far with what depends on them, leaving only what was pooled before |
| IndexSpec.IndexChainAgrees | node/indexer/addressindex.py:62-114 | However many blocks are indexed one by one, address rows and balances are those the transaction index calls for |
| IndexSpec.IndexTxAgrees | node/app/main.py:435-493 | Indexing one ready transaction keeps the two indexes in agreement |
| IndexSpec.BalanceIsUnspent | node/indexer/addressindex.py:102-114 | Each balance is the sum of the address's unspent outputs, and an address without a balance has none |
| IndexSpec.AddrTablesUnique | node/indexer/addressindex.py:318-364 | Address tables that agree with a transaction index are fixed by it, so incremental and rebuilt ones are equal |
| IndexSpec.RemoveUndoesIndex | node/app/main.py:495-523 | Taking a block out of the transaction index restores it exactly |
| IndexSpec.RemoveUndoesChain | node/app/main.py:495-523 | The same for any number of blocks, tip first |
| IndexSpec.BackToFork | node/app/main.py:525-541 | Taking out the old branch leaves the index of the common part |
| IndexSpec.ReconciledFromScratch | node/app/main.py:525-541 | After reconciliation the tables equal indexing the new chain from scratch |
| IndexSpec.ReplayIsReady | node/app/main.py:435-493 | Every chain that connects, with ids used once, meets the conditions of indexing, so these are no restriction on active branches |
| IndexSpec.ConnectedChainIndexes | node/indexer/addressindex.py:62-114 | For every chain that connects, the indexes agree and each balance is what the address has unspent |
| IndexFacts.ConnectedChainTold | node/app/main.py:435-493 | After any chain that connects, both indexes hold exactly what its transactions say: each with block, height, time and position, each input, each output with value, address and spender, and the address rows with their signed amounts |
| IndexFacts.ChainTold | node/indexer/txindex.py:45-122 | The transaction index of a chain has a row for each transaction, input and output with these columns, and no other |
| IndexFacts.AddressRowsTold | node/indexer/addressindex.py:62-100 | Address rows are those of the outputs of an address and of the inputs that spend them, and no other |
| AddressIndex.Indexer.IndexConnectedBlock | node/app/main.py:435-493 | The indexing loops leave the tables the agreement lemmas are about |
| AddressIndex.Indexer.IndexTransaction | node/indexer/txindex.py:45-122 | Adds the row, its inputs and its outputs, and leaves the address tables |
| AddressIndex.Indexer.IndexAddress | node/indexer/addressindex.py:62-100 | Adds one row and its signed amount to the balance |
| AddressIndex.Indexer.UpdateBalance | node/indexer/addressindex.py:102-114 | One balance moves by the amount, from 0 if there was none |
| AddressIndex.Indexer.MarkOutputSpent | node/indexer/txindex.py:240-247 | Marks one output row as spent, if there is one |
| AddressIndex.Indexer.DeindexDisconnectedBlock | node/app/main.py:495-523 | The deletion loops leave the tables that the undo lemmas are about |
| AddressIndex.Indexer.GetAddressBalance | node/indexer/txindex.py:183-203 | The sum of the address's unspent outputs with enough confirmations |
| IndexFacts.ConfirmedExactly | node/indexer/txindex.py:183-203 | The rows added up are those outputs of the address that no input names, in transactions with enough confirmations |
| AddressIndex.Indexer.RebuildFromTxIndex | node/indexer/addressindex.py:318-364 | Address rows are exactly those the transaction index calls for, balances their signed sums |
| AddressIndex.Indexer.ReindexAddress | node/indexer/addressindex.py:263-316 | Rebuilds one address, leaves the others, and changes nothing where the indexes agreed |
| AddressIndex.Indexer.ReconcileAfterReorg | node/app/main.py:525-541 | From the index of the old chain to exactly the index of the new chain built from nothing |
| Audit.VerifyActiveChain | node/chain/chainstate.py:321-400 | At limit 1 or more ok means: all blocks present, every replayed spend finds its coin, and the table equals the replay from height 0; at a smaller limit only that no replayed coin is missing |
| Audit.FoldIsConnect | node/validation/connect.py:28-107 | The audit's replay succeeds exactly when connecting does, and gives the same coins |
| Audit.AuditOfNode | node/chain/chainstate.py:321-400 | A node that started without coins passes the audit if and only if its block at height 0 is on file and leaves no coin |
| Audit.RegtestNodeInv | node/chain/chainstate.py:200-264 | A fresh regtest directory, its height 0 written but never connected, satisfies the node invariant |
| Audit.RegtestFailsAudit | node/chain/chainstate.py:200-264 | A fresh regtest directory, whose coinbase at height 0 has an output, fails the audit |
| Audit.Reindexer.Run | node/app/reindex.py:27-75 | Succeeds exactly when the replay to the given height does and no coin is negative; coins and spent marks are then the rebuilt ones, whatever they were; a failed rebuild that started the transaction leaves the tables as they were |
| Audit.RebuiltIsLedger | node/app/reindex.py:27-103 | Where the chain from height 0 connects, rebuilt coins and marks say exactly what its blocks say |
| Audit.Reindexer.RunAndAudit | node/app/reindex.py:27-75 | After a successful run the audit finds nothing, at any limit |
| Audit.Reindexer.ReindexBlock | node/app/reindex.py:77-103 | Replays one block on coins and marks, and fails exactly at a missing coin |

## Left out

- Networking, peers, address manager, RPC, command line, dashboard, metrics and configuration.
- Script execution, signatures, hashing, serialisation, size and sigop limits, proof-of-work checks: arbitrary deterministic functions here.  Block hashes and txids are opaque; no block has the null hash.
- The future-timestamp rule, versionbits and other wall-clock or deployment rules.
- Concurrency: each block and each admission is one step, as the locks make it.  A database transaction may be open at two moments of `on_block`, at its start or, from status updates outside any scope, once the block is stored and rehearsed; both are parameters, and every theorem holds for all their values.
- Persisted status rows, header cache, `mark_invalid`, `_reselect_best_tip`, start-up loading, migrations, and the file that a failed write may leave behind, which nothing looks up.
- The rehearsal of a store without a database connection, which the node never has; it would work without a savepoint.
- The orphan pool: children that were waiting are further calls of `on_block`, so they are part of a run.
- The address column of the coin table, which the audit does not compare either.
- The mempool's reaction to a reorganisation, wallet callbacks, broadcast, and reject and eviction counters.
- Wall-clock decay of the fee floor and the fee estimator: the floor is a parameter of each admission, and rates are exact rationals instead of floats.
- Order of set iteration: the pool's methods take any.  The one thing it can decide is which of the two descendant limits a refusal names.
- A proof that on_block and the mempool call each other in the right order; the two are joined only by the set of known txids and the coins.
- Timestamps, unconfirmed balances and caches of the indexes.  Height 0 is not indexed, as in the source.
- Mempool.Mempool.RemoveTransaction: without descendants it promises that the redundant structures agree and the graph stays mutual, but not that parents are still pooled, because the source leaves children behind then.
- Mempool.Mempool.EvictionOrder: compares ids as numbers, as the order of hexadecimal strings of one length does.
- BlockAcceptance.BerzCoinNode.ConnectAsNewTip: does not model the calls to the indexer and the mempool at its end; what these do is modelled in `AddressIndex` and `Mempool`.
- BlockAcceptance.BerzCoinNode.TryReorganise: does not model the reconciliation of mempool and indexes after the switch; that of the indexes is modelled in `AddressIndex`.
- BlockConnection.BlockIndex.AddBlock: models update_best = False, which both callers pass.
- Packages.AddPackage: members evicted or replaced before a later member was refused do not come back, as in the source, so the pool afterwards is contained in the old one, not equal to it.
