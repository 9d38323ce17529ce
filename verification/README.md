# BrowserCoin, verified

A Dafny model of BrowserCoin's consensus and ledger engine, and of the structures that cache it or
speed it up, with proofs of what every node relies on. `dafny verify dfyconfig.toml` checks all of it.

## How the model is laid out

Each part exists twice. A *value model* gives every operation as a function, branch for branch as the
program has it; laws and whole-run theorems are lemmas about those functions. The program's mutable
objects and loops are classes and methods over the same fields, each proved equal to its function, so
the laws hold of the imperative form too. The functions themselves are pinned from outside: modules named
`...Rules`, `...Layout`, `...Order`, Admission, AsertAccuracy, Opcodes, Arithmetic, SelectionComplete and
ExplorerTotals say what each operation computes and accepts without using its definition.

| part of the program | value model and laws | mutable form |
|---|---|---|
| block tree, fork choice, pruning, reorg reports | BlockTree, TreeLaws, TreeRuns, Admission, SeedLaws, SeedRules | Blockchain |
| header rules, difficulty, median-time-past | Consensus, HeaderChain, DifficultyRules, Asert, AsertAccuracy, Binary | methods in the same modules |
| fast sync, start-up restores | FastSync, Restore, HeaderRestore, FastSyncSeed, ForkRestore, ForkAgreement, ForkSuccess, ForkExamples, HeaderForks, RestoreChecks | FastSync, FastSyncSeed, Node |
| ledger, supply | Ledger, LedgerRules, Balances, Conservation, OnceOnly, Supply, ScriptedLedger | Ledger.LedgerState, Supply |
| mempool and block templates | Pool, PoolLaws, PoolRules, Selection, SelectionComplete | Mempool |
| script machine and HTLC | Script, ScriptNum, ScriptLaws, Opcodes, Arithmetic, Htlc | Interpreter, ScriptNum |
| wire format | Wire, BlockWire, WireLayout | loops in the same modules |
| explorer index | Explorer, ExplorerLaws, ExplorerRuns, ExplorerValid, ExplorerLedger, ExplorerTotals | ExplorerIndex |
| proof-of-work verifier pool | Scheduler, SchedulerLaws, SchedulerRuns, SchedulerOrder | VerifierPool |

Hash functions, signature checks and proof of work are uninterpreted functions. No theorem assumes that
a hash is injective: a theorem that needs it assumes only that the headers, locks or scripts it talks
about do not collide. Block validation is one atomic step, with the clock as an input. JavaScript's
BigInt division truncates toward zero and its shift floors; both are modelled exactly.

## Where the program does less than its comments say

- A block template can be refused. The comparator at src/chain/mempool.ts:294-297 looks at the fee rate
  first, so a sender's later nonce with a higher rate comes out first. `Selection.SelectionAppliesIff`
  gives the exact condition, `Selection.RoomySelectionAppliesIff` that of one call whose candidates all fit,
  `PoolLaws.RisingRateBreaksSelection` a concrete pool.
- "Mineable" is computed from the lowest pooled nonce. An entry with a spent nonce that was not removed
  hides the sender's whole run, from selection and from pruning, which then evicts entries that could be
  mined (`PoolLaws.SpentNonceHidesRun`, `PoolLaws.PrunedExactly`; a run that does it:
  `PoolLaws.MineablePaymentEvicted`).
- Restoring stored forks from a snapshot can end on a tip without a state, because a stateless block takes
  the tip on work alone (src/chain/blockchain.ts:536-538). `ForkRestore.ForkedRestoreTip` says for all rows
  which tip a restore ends on and when its state is there. `ForkExamples.ForkLosesState` gives four stored
  blocks, all accepted by a full replay, on which it is lost. The node anchors its snapshot 100 blocks below
  the tip (src/node.ts:534), so this takes a store without the anchor's heavier descendants; rows are written
  on a best-effort basis (src/node.ts:212-219). With a strictly heaviest canonical chain in the store the
  restore agrees with a full replay (`ForkAgreement.ForkedRestoreAgrees`), and a restore from a header blob
  never loses the state (`HeaderForks.HeaderRestoreIsLive`).
- A stored fork that leaves the branch below the anchor and reaches above it makes the snapshot restore fail,
  since its lowest block above the anchor has a parent without a state; the node falls back to a full replay
  (`ForkSuccess.StoredRestoreSucceedsIff`; for rows of any origin `ForkSuccess.ForkedRestoreSucceedsIff`).
- The difficulty formula is said to be precise to 0.3 parts per million (src/chain/consensus.ts:85-87). It is off
  by more than 100 (`AsertAccuracy.FactorOffAtSevenEighths`), and within the bounds of
  `AsertAccuracy.FactorAccurate` and `AsertAccuracy.SixteenthsAreRoots`.
- One backfill entry per height is enough only while no second header-only block arrives at a listed
  height (`SeedLaws.BodylessStaysExactIff`, `SeedLaws.SiblingHidesMissingBody`).
- A block whose 64-bit time is not exactly a double is accepted but re-encodes to other bytes
  (`BlockWire.EncodeOfDecodeBlock`, `BlockWire.OddTimeReencodesDifferently`).
- The explorer's totals are balances only for transfers. A lock counts as received by its unused `to`
  address, a redeem counts its fee as received and charges its unused `from` address
  (`ExplorerLedger.IndexAgreesWithLedger` has the exact difference, `ExplorerLedger.LockDrifts` an instance).
- The verifier pool trusts its workers to answer each message once. Any other message from a live worker
  would lose a job or list a worker twice (`SchedulerRuns.AnswerIsSafeIffOwed`,
  `SchedulerRuns.DuplicateAnswerBreaks`).

## Model

| member | source | states |
|---|---|---|
| Blockchain.Blockchain.constructor | src/chain/blockchain.ts:136-153 | a new chain holds exactly the genesis entry, as tip, with the empty state |
| Blockchain.Blockchain.Reset | src/chain/blockchain.ts:159-166 | back to exactly the state of a new chain |
| Blockchain.Blockchain.GetRecentHeaders | src/chain/blockchain.ts:285-296 | the bounded walk and its reversal give the headers the recursive definition gives |
| Blockchain.Blockchain.PruneStates | src/chain/blockchain.ts:218-231 | the loop forgets states floor by floor exactly as the value model, whose exact effect is TreeRuns.PruneExact |
| Blockchain.Blockchain.StoreBlock | src/chain/blockchain.ts:411-422 | work, hash and fork-#3 anchor of a new entry come from its parent; map and height index grow by it |
| Blockchain.Blockchain.CheckFields | src/chain/blockchain.ts:349-409 | every check in its order, with the first failing one deciding the error; nothing in the chain changes |
| Blockchain.Blockchain.AddBlockInternal | src/chain/blockchain.ts:341-439 | verdict and whole new chain are those of the value model; a tip move is reported exactly when the tip changed, and the report splits the two branches exactly |
| Blockchain.Blockchain.FindReorgDelta | src/chain/blockchain.ts:446-480 | for any two blocks of the tree: old ancestry = disconnected + common, new ancestry = connected + common, newest first, with no block in both lists, and the transaction lists are those blocks' transactions; all walks terminate |
| Blockchain.Blockchain.SeedHistoricalBlock | src/chain/blockchain.ts:505-540 | whole new chain after an unvalidated insert; a state forces the tip, without one only more work takes it |
| Blockchain.Blockchain.SeedBodylessHeader | src/chain/blockchain.ts:562-587 | whole new chain after a header-only insert, including the backfill table and its cursor |
| Blockchain.Blockchain.AttachTransactions | src/chain/blockchain.ts:597-619 | a body is bound only to a stored header-only entry with the same transaction root; nothing else moves |
| Blockchain.Blockchain.LowestBodylessHeight | src/chain/blockchain.ts:636-643 | the least height with a missing body, 0 if none; the lazy cursor never passes one |
| Blockchain.Blockchain.IterateCanonical | src/chain/blockchain.ts:684-693 | the tip and its ancestors down to genesis |
| Admission.RefusedFor | src/chain/blockchain.ts:341-409 | a block gets the verdict of the first rule it breaks, in the program's order, each rule stated over the whole branch and the parent's state: parent, height, size, difficulty, both time rules, proof of work, transaction root, state in memory, structure, ledger, state root |
| Admission.StoredIff | src/chain/blockchain.ts:341-439 | an unknown block is stored if and only if it meets every one of those rules; then it carries the state its transactions lead to, takes the tip exactly with strictly more work, and drops only states below the retention depth; any other call changes nothing |
| Admission.EveryBlockEarned | src/chain/blockchain.ts:341-439 | after any run every stored block above genesis met, under the options and clock of some call, the header rules of its branch, the size limit, proof of work, the transaction root, the structural checks and the state root of its replay |
| SeedRules.HistoricalSeed | src/chain/blockchain.ts:505-540 | a historical seed stores exactly a block that hangs off the tree; a state takes the tip, without one only strictly more work does |
| SeedRules.HeaderSeed | src/chain/blockchain.ts:562-587 | a header seed stores exactly a header that hangs off the tree, lists it for backfill, and takes the tip only with a state |
| SeedRules.BodyAttached | src/chain/blockchain.ts:597-619 | a body is attached if and only if its block is stored without one, it is small enough and has the header's transaction root; one entry and the backfill table change |
| SeedRules.BodiesCommit | src/chain/blockchain.ts:505-619 | in any mixture of the four operations every body has the transaction root of its header, as long as historical seeds do |
| TreeLaws.RecentIsLast | src/chain/blockchain.ts:285-296 | the walk back from any block is the end of its branch |
| TreeLaws.AnchorIsWalkedBack | src/chain/blockchain.ts:173-176 | the cached fork-#3 anchor of any entry is the header at height 35,550 of its branch, or null below it |
| TreeLaws.TreeCheckIsBranchCheck | src/chain/blockchain.ts:361-376 | checking a header with the walked lookback and the cached anchor is checking it against its whole branch |
| TreeRuns.PruneExact | src/chain/blockchain.ts:218-231 | pruning forgets exactly the states from the old floor up to the boundary, fork siblings included, and changes nothing else |
| TreeRuns.RunInv | src/chain/blockchain.ts:341-439 | after any run of `addBlock` from genesis, in any order and on any forks: links, height index, validity of every branch, replayed states, heaviest tip, state retention |
| TreeRuns.TreeIsSound | src/chain/blockchain.ts:173-231 | parent-closed, heights +1, work = parent work + block work > parent work, no block outweighs the tip, a state is in memory iff the height is at or above the prune floor, the tip always has its state |
| TreeRuns.AnchorsAreOnBranch | src/chain/blockchain.ts:173-176 | after any run every cached anchor is the branch's own header at height 35,550, or null below it |
| TreeRuns.MtpNeverDecreases | src/chain/consensus.ts:312-324 | after any run median-time-past never falls from a block to its child |
| TreeRuns.MoneyAtEveryBlock | src/chain/state.ts:253-277 | after any run the money in every state in memory is what the coinbases up to its height issued, at most MAX_MONEY |
| TreeRuns.BalancesFitInRuns | src/chain/state.ts:103-129 | after any run of structurally checked blocks every balance and lock of every state in memory is in [0, 2^64) |
| SeedLaws.RunOpsLinked | src/chain/blockchain.ts:505-619 | links, heights, works and anchors hold in any mixture of validated blocks, historical seeds, header seeds and attached bodies |
| SeedLaws.BodylessStaysExactIff | src/chain/blockchain.ts:112-119 | the backfill table stays exact on a header seed if and only if no header-only block is listed at that height yet |
| SeedLaws.SiblingHidesMissingBody | src/chain/blockchain.ts:112-119 | two bare headers at height 1 and the second one's body: the table is empty while the first block still has no body |
| SeedLaws.RunBodylessExact | src/chain/blockchain.ts:562-619 | in any run of all four operations whose bodies fit and whose bare headers come one per height, the backfill table lists exactly the blocks without a body |
| SeedLaws.RunCursorOk | src/chain/blockchain.ts:636-643 | in any run of all four operations the cursor never passes a missing body |
| HeaderChain.DifficultyScheduled | src/chain/consensus.ts:166-294 | every difficulty on a valid branch is canonical, stands for a target in [1, FLOOR_TARGET], and adds work |
| HeaderChain.AnchorNeverMissing | src/chain/consensus.ts:166-294 | on a valid branch the missing-anchor error cannot arise |
| HeaderChain.AnchorDifficultyCarries | src/chain/consensus.ts:166-294 | outside the emergency branch the first block above the fork-#3 anchor carries its difficulty bit for bit |
| HeaderChain.MtpMonotone | src/chain/consensus.ts:312-324 | median-time-past never decreases along a valid branch, also while fewer than 11 headers exist |
| HeaderChain.ScriptsStayActive | src/chain/fork.ts:37-39 | once script transactions are active on a branch they stay active for all descendants |
| Consensus.NextDifficultyWindow | src/chain/consensus.ts:166-294 | any window of at least two headers gives the same difficulty as the whole chain |
| Consensus.NextDifficultyScheduled | src/chain/consensus.ts:166-294 | every answer is a canonical compact of a target in [1, FLOOR_TARGET] |
| Consensus.WorkPositive | src/chain/consensus.ts:300-304 | a difficulty with a target in range adds at least one unit of work |
| Consensus.MtpUpTo | src/chain/consensus.ts:312-318 | collecting, sorting and indexing gives the median of the last 11 timestamps |
| Consensus.MedianByCount | src/chain/consensus.ts:312-318 | the median reaches m exactly when more than the lower half of the timestamps does |
| Consensus.MtpWindow | src/chain/consensus.ts:321-324 | a longer window gives the same median-time-past |
| Consensus.MtpNeverFalls | src/chain/consensus.ts:312-324 | a block at or above median-time-past cannot pull it down |
| Asert.ComputeAsertTarget | src/chain/consensus.ts:55-104 | the statement-by-statement computation equals the formula and lands in [1, FLOOR_TARGET] |
| AsertAccuracy.FactorAccurate | src/chain/consensus.ts:78-94 | at every one of the 65,535 fractions x, the fixed-point 2^x times 2^(1-x) is 2 to within one part in 4096 |
| AsertAccuracy.SixteenthsAreRoots | src/chain/consensus.ts:78-94 | at every sixteenth of an octave the sixteenth power of the factor is the power of two it stands for, to within one part in 500 |
| AsertAccuracy.FactorOffAtSevenEighths | src/chain/consensus.ts:85-94 | at seven eighths of an octave the factor is more than one part in 10,000 too large |
| AsertAccuracy.TargetAtEighths | src/chain/consensus.ts:55-110 | an eighth of a half-life at a time, behind or ahead of schedule, the target is the anchor's times that root of two, kept between 1 and the floor |
| Asert.AsertMonotone | src/chain/consensus.ts:55-104 | non-decreasing in parent time and non-increasing in parent height, across negative exponents, truncating division and the wrap of the fraction |
| Asert.AsertZeroDrift | src/chain/consensus.ts:55-104 | exactly on schedule the anchor target is returned unchanged |
| Asert.HalfLifeDoubles | src/chain/consensus.ts:55-104 | for every drift, one half-life more at most doubles the unclamped target up to one unit, and at least doubles it, or its one-step-lower neighbour where truncation toward zero loses a step |
| Asert.FloorIsGenesisTarget | src/chain/consensus.ts:25-28 | the floor target is what the genesis compact stands for |
| DifficultyRules.EmergencyDoubles | src/chain/consensus.ts:215-226 | after two blocks of more than fifteen minutes the required compact stands for twice the parent's target, or the floor if that is less |
| DifficultyRules.ScheduleByEra | src/chain/consensus.ts:166-294 | every other block carries its era's target: the reset at the Sandglass height, genesis-anchored before it, within a factor of four of the reset up to 35,550, then anchored on the branch's block 35,550 |
| DifficultyRules.AnchorNeeded | src/chain/consensus.ts:238-251 | outside the emergency branch the schedule has no answer if and only if the height is above 35,550 and the anchor is missing or of another height |
| DifficultyRules.WorkIsExpectedAttempts | src/chain/consensus.ts:300-304 | work w of a target t satisfies w(t+1) <= 2^256 < (w+1)(t+1) |
| DifficultyRules.SixOfEleven | src/chain/consensus.ts:312-324 | median-time-past reaches a time if and only if at least six of the last eleven blocks do |
| Binary.TargetToCompact | src/util/binary.ts:85-101 | the shifting loop computes the normal form |
| Binary.CompactRoundsDown | src/util/binary.ts:78-101 | encoding rounds down by less than one part in 2^15 and never to zero |
| Binary.CompactMonotone | src/util/binary.ts:78-101 | encoding preserves order, as numbers and after decoding |
| Binary.CompactIdempotent | src/util/binary.ts:78-101 | decoding and encoding again changes nothing |
| FastSync.VerifyHeaders | src/net/fastSync.ts:179-213 | accepts a header sequence exactly when each header in turn passes full validation of headers, and otherwise stops at the first that does not |
| FastSync.WindowDecides | src/net/fastSync.ts:179-213 | eleven headers and the captured anchor decide a header exactly as the 60-header lookback and inherited anchor do |
| FastSync.NeverThrows | src/net/fastSync.ts:194 | the schedule always has an answer in the loop |
| FastSyncSeed.SeedVerified | src/net/fastSync.ts:263-279 | the seeding loop gives the specified chain, or resets to genesis on the first rejection |
| FastSyncSeed.FastSyncAgrees | src/net/fastSync.ts:263-279 | header seeds, the anchor with its state, then the tail as full blocks end on the same tip, work, state and anchor as a full replay |
| Node.ReplayAll | src/node.ts:398-411 | the loop replays every decodable row, skipping rejected ones |
| Node.RestoreFromSnapshot | src/node.ts:420-456 | the loop follows the snapshot restore step by step, and fails where the program throws |
| Node.RestoreFromHeaders | src/node.ts:465-509 | the two loops follow the header-chain restore step by step, and fail where the program throws |
| Node.IndexRows | src/node.ts:475-476 | later rows with the same hash win |
| Restore.SnapshotRestoreAgrees | src/node.ts:420-456 | on a linear valid chain: same tip hash, cumulative work, tip state and fork-#3 anchor as a full replay |
| ForkRestore.ForkedRestoreTip | src/node.ts:420-456 | for all stored rows, forks included: a snapshot restore that succeeds ends on the first of the heaviest rows from the anchor on, and that tip has its state in memory if and only if no row without a state overtakes the anchor and everything around it |
| ForkExamples.ForkLosesState | src/chain/blockchain.ts:531-538 | two branches of two empty blocks, the second branch starting early and so harder: a full replay accepts all four rows and ends on the early branch with its state; a restore from the true state of the other branch succeeds and ends on the same block without a state |
| ForkSuccess.ForkedRestoreSucceedsIff | src/node.ts:420-456 | for rows by height holding the anchor's valid chain and any forks, valid or not: the snapshot restore succeeds if and only if every row decodes, every block up to the anchor has its parent among the rows one below, and every block above it is one a full replay accepts, the lowest of them children of the anchor |
| ForkSuccess.StoredRestoreSucceedsIff | src/node.ts:420-456 | of rows a full replay accepts one and all, the restore fails if and only if one just above the anchor's height is not a child of the anchor |
| ForkRestore.FullReplayIsLive | src/node.ts:398-411 | whatever the rows, a full replay ends on a tip with its state |
| ForkAgreement.ForkedRestoreAgrees | src/node.ts:398-456 | rows by height holding a valid chain and any forks, valid or not: if every other stored block has strictly less work than its last, a snapshot restore that succeeds ends on the same tip, work, state and fork-#3 anchor as a full replay |
| RestoreChecks.SnapshotIsChecked | src/node.ts:420-456 | a snapshot restore that succeeds has decoded every row, met its anchor, and found the state root of the snapshot in the anchor's header |
| RestoreChecks.LastRowWins | src/node.ts:475-476 | the stored block for a hash is the last row under it |
| RestoreChecks.HeaderBlobIsChecked | src/node.ts:465-509 | a header restore that succeeds had a blob of exactly the anchor's height in headers, numbered from 1, ending at the anchor hash and its state root; and every row above it is in the chain |
| HeaderForks.HeaderRestoreIsLive | src/node.ts:465-509 | whatever is stored above the anchor, a restore from a header blob that succeeds ends on a tip with its state |
| HeaderRestore.HeaderRestoreAgrees | src/node.ts:465-509 | a header blob, any stored prefix blocks, the anchor state and the stored tail: same tip as a full replay |
| Ledger.LedgerState.ApplyTransfer | src/chain/state.ts:157-179 | error or exactly the specified new accounts; nothing moves on an error |
| Ledger.LedgerState.Apply | src/chain/state.ts:144-239 | each kind in place: error with the state untouched, or exactly the specified accounts, locks and created set |
| Ledger.LedgerState.ApplyBlockTxs | src/chain/state.ts:253-277 | the loop applies transactions in order, then credits reward and fees to the miner |
| LedgerRules.AppliesIff | src/chain/state.ts:144-239 | a transaction applies if and only if it keeps every rule of its kind, and is rejected for the first one it breaks, in the program's order |
| LedgerRules.AppliedEffect | src/chain/state.ts:144-239 | an applied transaction moves exactly these balances, this nonce and this lock |
| LedgerRules.BlockEffect | src/chain/state.ts:253-277 | a block leaves the state of its transactions with reward and the sum of fees added to the miner, and nothing else; it fails exactly when they do |
| LedgerRules.ListStops | src/chain/state.ts:253-277 | a list of transactions fails with the error of the first one rejected by the state its predecessors leave |
| LedgerRules.RewardHalves | src/chain/genesis.ts:125-129 | fifty coins, halved and rounded down every 210,000 blocks |
| Balances.TxPays | src/chain/state.ts:144-239 | what any applied transaction does to any one balance |
| Conservation.TxTotal | src/chain/state.ts:144-239 | any applied transaction lowers balances plus locks by exactly its fee |
| Conservation.BlockTotal | src/chain/state.ts:253-277 | a block raises the total by exactly its reward |
| Conservation.MoneyIsConserved | src/chain/state.ts:144-277 | on every chain from genesis balances plus live locks equal the issued supply, at most MAX_MONEY |
| Conservation.BalancesNeverTruncate | src/chain/state.ts:103-129 | with structurally valid amounts every balance and lock is in [0, 2^64), so the state root loses nothing |
| Supply.CirculatingSupply | src/ui/explorerShared.ts:38-50 | the era loop equals the block-by-block sum of rewards |
| Supply.IssuedAtMostMaxMoney | src/chain/genesis.ts:125-129 | no height ever issues more than MAX_MONEY |
| OnceOnly.NothingTakesEffectTwice | src/chain/state.ts:157-239 | on any chain: (sender, nonce) pairs are distinct, each lock is created once, redeemed at most once, and only above its creation height |
| OnceOnly.NoncesNeverFall | src/chain/state.ts:157-239 | account nonces never decrease along a chain |
| OnceOnly.TxNonces | src/chain/state.ts:157-239 | a debit carries its sender's nonce and advances it by one; no other nonce moves |
| ScriptedLedger.LockIdsCommitByEncoding | src/chain/transaction.ts:204-223 | lock ids commit to sender and nonce as soon as the hash keeps the encodings at hand apart |
| ScriptedLedger.SighashCommits | src/chain/transaction.ts:146-156 | two redeems share a signature hash exactly when lock, destination, amount, fee and script agree |
| ScriptedLedger.RedeemStaysValid | src/chain/state.ts:210-239 | a redeem that applies keeps applying in every later block while its lock is untouched |
| ScriptedLedger.HtlcLockSpentIff | src/chain/state.ts:210-239 | a lock on an HTLC script is spent by exactly the redeems that reveal it, match the amount, cover the fee and carry a claim or a matured refund |
| Mempool.Mempool.Submit | src/chain/mempool.ts:76-112 | verdict and whole new pool are those of the value model, for every kind of transaction |
| Mempool.Mempool.Insert | src/chain/mempool.ts:97-137 | replacement by fee, eviction and insertion give exactly the specified pool |
| Mempool.Mempool.EvictForRoom | src/chain/mempool.ts:141-150 | the scan finds the cheapest entry, and evicts it or refuses |
| Mempool.Mempool.RemoveMany | src/chain/mempool.ts:153-157 | drops exactly the entries with the hashes of the given transactions |
| Mempool.Mempool.NextNonceFor | src/chain/mempool.ts:164-173 | at least the on-chain nonce, above everything the sender has pending, and the least such number of the form pending + 1 |
| Mempool.Mempool.Split | src/chain/mempool.ts:183-201 | the scan splits a sender's entries into the mineable run and the rest |
| Mempool.Mempool.GroupBySender | src/chain/mempool.ts:257-264 | per sender exactly its debiting entries, senders in order of first appearance, redeems aside |
| Mempool.Mempool.SelectForBlock | src/chain/mempool.ts:256-314 | the picked list is exactly the specified selection |
| Mempool.Mempool.PruneUnminable | src/chain/mempool.ts:210-247 | the three passes leave exactly the specified pool and count what they removed |
| PoolRules.AcceptedIff | src/chain/mempool.ts:76-150 | a submission is accepted if and only if it is structurally right, pays one unit a byte, and is pooled already or is allowed by the tip's state, outbids what it competes with and, competing with none, finds room or a cheaper entry |
| PoolRules.PruneKeepsIff | src/chain/mempool.ts:210-247 | a tip change keeps exactly the entries under thirty minutes old that can be mined, or that are under 150 seconds old and have no spent nonce |
| PoolRules.SoundSurvivesWire | src/chain/transaction.ts:269-315 | whatever passes the structural checks, with a nonce that fits its field, is decoded from its encoding unchanged |
| SelectionComplete.KeptRun | src/chain/mempool.ts:183-201 | a sender's run continues its account's nonce without a gap and stays within its balance at every entry; while scripts are inactive it is kept exactly up to its first lock |
| SelectionComplete.SelectionIsGreedy | src/chain/mempool.ts:256-314 | for any budget: candidates only, in rank order, and one is left out only if its lock is redeemed by one at least as good, or if a left-out candidate ranking no later does not fit behind everything picked |
| SelectionComplete.RoomySelectionTakesAll | src/chain/mempool.ts:256-314 | with room for the whole pool: every sender's kept run and nothing else of it, and once scripts are active exactly one redeem, a best one, of each lock that a pooled redeem can spend |
| PoolLaws.AddIsFair | src/chain/mempool.ts:76-150 | any submission keeps the pool well formed, a refused one changes nothing, an admitted one is in, and whatever it displaced paid strictly less per byte |
| PoolLaws.PoolStaysOk | src/chain/mempool.ts:76-247 | after any run: one entry per sender and nonce, one redeem per lock, distinct hashes, at most 5,000 entries |
| PoolLaws.RoomIsFair | src/chain/mempool.ts:141-150 | room is made only in a full pool, by dropping a cheapest entry that pays strictly less than the newcomer |
| PoolLaws.PrunedExactly | src/chain/mempool.ts:210-247 | between the grace and the TTL a debiting entry survives exactly when it is in its sender's mineable run |
| PoolLaws.SpentNonceHidesRun | src/chain/mempool.ts:183-201 | a lingering spent nonce hides a sender's mineable run: the run is what it would be without spent entries if and only if the sender has none, or no pooled entry has the account's nonce with amount and fee within the balance |
| PoolLaws.MineablePaymentEvicted | src/chain/mempool.ts:203-247 | a pool run in which a payment the ledger would take in the next block is evicted after the grace |
| PoolLaws.RisingRateBreaksSelection | src/chain/mempool.ts:293-297 | two submitted well-formed payments whose selection the ledger rejects with a bad nonce |
| Selection.RoomySelectionAppliesIff | src/chain/mempool.ts:256-314 | one call whose byte budget holds every candidate: the selection applies if and only if no sender's fee rate rises with its nonce on its kept run |
| Selection.SelectionAppliesIff | src/chain/mempool.ts:256-314 | the selection applies for every byte budget if and only if no sender's fee rate rises with its nonce on its kept run |
| Selection.TemplateAppliesIff | src/chain/mempool.ts:256-314 | the same for the ledger's whole block on any chain's tip state |
| Selection.SelectionFits | src/chain/mempool.ts:299-312 | the selection stays within its bytes and never redeems a lock twice |
| Selection.PrefixIsMaximal | src/chain/mempool.ts:175-201 | the mineable run cannot be longer: the next entry in nonce order does not apply after it |
| Selection.ReplayableApplies | src/chain/mempool.ts:175-201 | a list whose senders' entries continue nonces and stay funded, with distinct open redeems and fresh locks, applies to the end |
| Selection.PendingOnChain | src/chain/mempool.ts:256-314 | on a chain's state no pooled lock with an unspent nonce is already live |
| Interpreter.EvalScript | src/chain/script.ts:245-590 | the loop over program counter, stacks, conditions and budget succeeds exactly when the opcode-by-opcode specification does |
| Arithmetic.Unary | src/chain/script.ts:466-482 | for all numbers: a script that pushes a, runs a unary opcode, pushes n and compares succeeds exactly for the sum, difference, negation, absolute value or truth value |
| Arithmetic.Sums | src/chain/script.ts:484-512 | the same for addition, subtraction, minimum and maximum of two numbers |
| Arithmetic.Comparisons | src/chain/script.ts:484-512 | the same for the boolean connectives, equality and the four orders |
| Arithmetic.NumEqualVerify | src/chain/script.ts:484-512 | goes on without its operands exactly if they are equal |
| Arithmetic.Within | src/chain/script.ts:514-522 | true from the minimum up to, not including, the maximum |
| Arithmetic.BadOperands | src/chain/script.ts:466-522 | operands without a value fail every arithmetic opcode |
| Opcodes.StackMoves | src/chain/script.ts:357-436 | drop, nip, rotate, swap and the alternative stack, by item position, over any stack and before any rest of a script |
| Opcodes.StackCopies | src/chain/script.ts:372-449 | dup, over, tuck, 2dup, ifdup, depth and size, failing exactly when the two stacks would exceed 1,000 items |
| Opcodes.PickAndRoll | src/chain/script.ts:408-422 | copies or moves the item that far below the operand |
| Opcodes.Tests | src/chain/script.ts:350-356 | verify, equal and equalverify |
| Opcodes.Hashes | src/chain/script.ts:525-544 | the four hash opcodes |
| Opcodes.Signatures | src/chain/script.ts:547-559 | a 64-byte signature under a 32-byte key over the spend's hash, as a truth value or as a condition to go on |
| Opcodes.Multisigs | src/chain/script.ts:599-634 | signatures and keys under their counts are consumed and one truth value is left: whether the signatures can be assigned to distinct keys in key order |
| Opcodes.MultisigFails | src/chain/script.ts:599-634 | counts other than 1 <= m <= n <= 20, or too few items, fail the script |
| Opcodes.LockTimes | src/chain/script.ts:567-581 | goes on exactly when the height, or from 500,000,000 on the time, has reached a non-negative five-byte operand |
| Opcodes.Pushes | src/chain/script.ts:280-303 | the three push forms add their data exactly if it is complete, at most 520 bytes and the stacks have room |
| Opcodes.IfOpens | src/chain/script.ts:306-314 | takes a condition off the stack where the script runs, false where it is skipped |
| Opcodes.ElseAndEndIf | src/chain/script.ts:315-324 | turn over or close the innermost condition; without one the script fails |
| Opcodes.FailsWithout | src/chain/script.ts:341-586 | too few items, or an opcode the language does not have, fails the script |
| Opcodes.NopsAndBudget | src/chain/script.ts:329-332 | reserved no-ops only cost budget; past 201 counted opcodes any further one fails |
| Opcodes.EvaluationIsRun | src/chain/script.ts:245-592 | success is a run within the limits that ends with every condition closed and a true item on top |
| Interpreter.OpCheckMultisig | src/chain/script.ts:599-634 | pops and pushes exactly what the specification says, or fails where it fails |
| Interpreter.PushOpcode | src/chain/script.ts:275-303 | reads the same push data, or fails, as the specification |
| ScriptNum.IsTruthy | src/chain/script.ts:187-196 | the byte loop computes truth, with negative zero false |
| ScriptNum.DecodeNumber | src/chain/script.ts:204-218 | the byte loop decodes the little-endian sign-magnitude value, rejecting long and non-minimal items |
| ScriptNum.EncodeNumber | src/chain/script.ts:221-233 | the byte loop gives the minimal encoding |
| ScriptNum.ValueOfItem | src/chain/script.ts:204-218 | a decodable item is its bytes in base 256, least first, with the top bit as the sign |
| ScriptNum.DecodeOfEncode | src/chain/script.ts:204-233 | decoding inverts encoding exactly when the value fits the operand limit |
| ScriptNum.EncodeOfDecode | src/chain/script.ts:204-233 | every decodable item is the one encoding of its value |
| ScriptNum.TruthyNumber | src/chain/script.ts:187-196 | on numbers, truth is being non-zero |
| ScriptLaws.SpendStaysValid | src/chain/script.ts:245-590 | for every script and witness, success at one height and median-time-past implies success with the same signature hash at any later ones |
| ScriptLaws.EvaluationStaysBounded | src/chain/script.ts:152-159 | every evaluation takes at most one step a byte and never exceeds a stack, item or opcode limit |
| ScriptLaws.MultisigExact | src/chain/script.ts:599-634 | once the operand checks pass, exactly n + m + 2 items are popped and 1 is pushed exactly when some strictly increasing assignment of all signatures to keys verifies |
| ScriptLaws.GreedyComplete | src/chain/script.ts:599-634 | taking the first key that fits never costs a match |
| ScriptLaws.GreedyFinds | src/chain/script.ts:599-634 | a successful greedy scan yields an increasing assignment |
| Htlc.HtlcSpendableIff | src/chain/scriptBuild.ts:75-90 | for every witness the HTLC succeeds exactly on a claim or a matured refund within the witness limits |
| Htlc.RunPush | src/chain/scriptBuild.ts:10-15 | an emitted push, whatever its length, is read back as exactly its data |
| Htlc.CltvReached | src/chain/script.ts:245-590 | the lock-time check passes exactly when the clock chosen by the threshold has reached it |
| Wire.U64be | src/util/binary.ts:62-69 | the eight-byte loop equals the big-endian encoding, two's complement for negative numbers |
| Wire.ReadU64be | src/util/binary.ts:71-75 | the accumulating loop equals the big-endian reading |
| Wire.EncodeRedeemLoop | src/chain/transaction.ts:158-175 | the loop over witness items gives the specified bytes |
| Wire.DecodeRedeemLoop | src/chain/transaction.ts:177-198 | the moving cursor decodes or rejects exactly as specified |
| Wire.DecodeOfEncodeTx | src/chain/transaction.ts:84-219 | every normal transaction of any kind decodes back to itself, wherever it sits in a buffer |
| Wire.EncodeOfDecodeTx | src/chain/transaction.ts:84-219 | whatever decodes within the buffer re-encodes to the bytes it was read from |
| Wire.TxAdvances | src/chain/transaction.ts:84-219 | the cursor only moves forward |
| WireLayout.HeaderLayout | src/chain/block.ts:24-35 | the 148 bytes of a header: each field at its offset, numbers by their big-endian value |
| WireLayout.TransferLayout | src/chain/transaction.ts:69-100 | the 152 bytes of a transfer, field by field |
| WireLayout.LockLayout | src/chain/transaction.ts:105-140 | the 156 bytes of a lock, field by field |
| WireLayout.RedeemLayout | src/chain/transaction.ts:158-177 | a redeem field by field: the script under its length, the witness items under their count and each under its length |
| WireLayout.BlockLayout | src/chain/block.ts:67-72 | header, count, every transaction where the one before it ends, and nothing more |
| BlockWire.EncodeBlockLoop | src/chain/block.ts:67-72 | the loop gives the specified bytes |
| BlockWire.DecodeBlockLoop | src/chain/block.ts:74-86 | the loop accepts and rejects exactly as specified |
| BlockWire.BlockSizeLoop | src/chain/block.ts:89-93 | the loop gives the specified size |
| BlockWire.DecodeOfEncodeBlock | src/chain/block.ts:37-86 | every normal block of mixed kinds decodes back to itself |
| BlockWire.EncodeOfDecodeBlock | src/chain/block.ts:37-86 | an accepted buffer re-encodes to itself if and only if its 64-bit time is exactly a double |
| BlockWire.EarlyBlockReencodes | src/chain/block.ts:37-86 | a buffer accepted with a time below 2^53 re-encodes to itself |
| BlockWire.OddTimeReencodesDifferently | src/chain/block.ts:37-86 | a block stamped 2^53 + 1 is accepted and re-encodes to other bytes |
| BlockWire.DecodeBlockRounds | src/chain/block.ts:37-86 | any block in range decodes to itself with its time rounded to a double |
| BlockWire.EncodeHeaderOfDecode | src/chain/block.ts:24-49 | only the time field of a re-encoded header can differ |
| BlockWire.BlockSizeIsLength | src/chain/block.ts:89-93 | the capped size is the length of the encoding |
| ExplorerIndex.ExplorerIndex.Apply | src/ui/explorerIndex.ts:80-104 | a tip move is followed exactly as specified, or marks the index stale; the version is bumped exactly then |
| ExplorerIndex.ExplorerIndex.EnsureFresh | src/ui/explorerIndex.ts:107-111 | afterwards the index is fresh for the chain's tip, rebuilt unless known to match |
| ExplorerIndex.ExplorerIndex.MarkStale | src/ui/explorerIndex.ts:117-120 | only the stale mark and the version change |
| ExplorerIndex.ExplorerIndex.Rebuild | src/ui/explorerIndex.ts:122-132 | the index is the one built from genesis to the tip |
| ExplorerIndex.ExplorerIndex.IndexOne | src/ui/explorerIndex.ts:143-189 | in-place indexing has exactly the listed effects, in order |
| ExplorerIndex.ExplorerIndex.UnindexOne | src/ui/explorerIndex.ts:193-240 | in-place unindexing undoes exactly the listed effects, in order |
| ExplorerIndex.ExplorerIndex.DropRefsOf | src/ui/explorerIndex.ts:246-255 | the tail cut or the filter, then removal of an address with nothing left |
| ExplorerTotals.EntryIsSums | src/ui/explorerIndex.ts:143-190 | an address of a rebuilt index has an entry exactly if the branch concerns it; sent, received, fees, rewards and counts are the sums over the branch's blocks and transactions, a self-send counting its fee only, and the history lists every occurrence in order with its direction and index |
| ExplorerLaws.UnindexInvertsIndex | src/ui/explorerIndex.ts:143-255 | unindexing exactly inverts indexing on an index that does not know the block, also when miner, sender and recipient coincide |
| ExplorerLaws.UnwindExact | src/ui/explorerIndex.ts:98 | unwinding the newest blocks of a branch leaves the index of the rest |
| ExplorerLaws.BuildDescribes | src/ui/explorerIndex.ts:122-189 | a rebuilt index has ascending histories into the branch, exactly its heights, and only its transactions |
| ExplorerLaws.LookupsExact | src/ui/explorerIndex.ts:143-189 | a rebuilt index maps exactly the branch heights above genesis to their blocks, and exactly the transactions of stored bodies to where they are |
| ExplorerRuns.FollowKeepsExact | src/ui/explorerIndex.ts:80-104 | whatever strands a tip move names, the index stays exact for its tip or turns stale; a discontinuous move always makes it stale |
| ExplorerRuns.ReportedMoveFollowed | src/ui/explorerIndex.ts:80-104 | a move the chain reports from the indexed tip is followed without turning stale |
| ExplorerRuns.IndexNeverDrifts | src/ui/explorerIndex.ts:80-259 | in any run of blocks, reorgs, seeds and attached bodies the index is stale or the rebuild for its tip, and a read gets the rebuild for the chain's tip |
| ExplorerRuns.NeverRebuiltAgain | src/ui/explorerIndex.ts:107-111 | read once, then validated blocks with arbitrary reorgs: the index is always the rebuild for the chain's tip |
| ExplorerValid.ValidatedIndexInStep | src/ui/explorerIndex.ts:80-132 | for validated blocks with arbitrary reorgs the same, assuming only that the transactions at hand hash apart |
| ExplorerValid.ValidatedNoRepeats | src/chain/state.ts:157-239 | on a tree whose branches replay, no transaction hash is in two blocks of a branch |
| Explorer.UndoneEverywhere | src/ui/explorerIndex.ts:193-255 | undoing a block's effects restores every address entry, or its absence |
| ExplorerLedger.EntryIsHistory | src/ui/explorerIndex.ts:143-189 | an address entry is the sum and the ordered list of what the branch did to it |
| ExplorerLedger.IndexAgreesWithLedger | src/ui/explorerIndex.ts:158-188 | received + mined - sent - fees of a rebuilt index is the ledger balance plus a drift that only locks and redeems cause |
| ExplorerLedger.TransfersDoNotDrift | src/ui/explorerIndex.ts:158-188 | with transfers only the totals are the balance |
| ExplorerLedger.LockDrifts | src/ui/explorerIndex.ts:158-188 | a chain the ledger accepts on which one lock makes the totals exceed the balance |
| VerifierPool.VerifierPool.constructor | src/chain/verifierPool.ts:56-58 | a new pool has the clamped size and has started nothing |
| VerifierPool.VerifierPool.OnMessage | src/chain/verifierPool.ts:62-71 | whole new pool after a worker's message |
| VerifierPool.VerifierPool.FailWorker | src/chain/verifierPool.ts:80-92 | whole new pool after a death or a timeout |
| VerifierPool.VerifierPool.Requeue | src/chain/verifierPool.ts:94-100 | a job is queued again, or given up at its third attempt |
| VerifierPool.VerifierPool.Start | src/chain/verifierPool.ts:102-108 | spawns and parks exactly the configured number of workers, once |
| VerifierPool.VerifierPool.Resize | src/chain/verifierPool.ts:116-127 | whole new pool after growing or shrinking live |
| VerifierPool.VerifierPool.RetireWorker | src/chain/verifierPool.ts:129-135 | removes one worker from both lists |
| VerifierPool.VerifierPool.ReleaseWorker | src/chain/verifierPool.ts:137-149 | a freed worker takes the oldest job, retires or parks; a retired one is ignored |
| VerifierPool.VerifierPool.Post | src/chain/verifierPool.ts:151-159 | one message with a new id, and the attempt counted |
| VerifierPool.VerifierPool.Submit | src/chain/verifierPool.ts:162-170 | whole new pool after a submission |
| SchedulerOrder.AnswerEffect | src/chain/verifierPool.ts:62-71 | an owed verdict settles its job at once, a failure to verify requeues it or gives it up at the third post, and the freed worker takes the oldest waiting job |
| SchedulerOrder.FailEffect | src/chain/verifierPool.ts:80-92 | a dead worker is gone, its job is requeued or given up at the third post, and a replacement takes the oldest waiting job |
| SchedulerOrder.SubmitEffect | src/chain/verifierPool.ts:162-170 | a job is numbered and goes to an idle worker, or to the end of the line if there is none |
| SchedulerOrder.ResizeEffect | src/chain/verifierPool.ts:116-127 | resizing takes no job from a working worker and settles nothing |
| SchedulerOrder.FirstPostsInOrder | src/chain/verifierPool.ts:60-170 | in any run a job is first posted only after every earlier job has been, and untried jobs wait in order of submission |
| SchedulerRuns.RunSafe | src/chain/verifierPool.ts:60-170 | the invariant holds after any interleaving of submissions, answers, deaths, timeouts and resizes |
| SchedulerRuns.EveryJobInOnePlace | src/chain/verifierPool.ts:60-170 | every submitted job is in exactly one of queue, one worker's hands, or the settled list, once |
| SchedulerRuns.AtMostThreePosts | src/chain/verifierPool.ts:94-100 | no job is ever posted to workers more than three times |
| SchedulerRuns.SettledForAReason | src/chain/verifierPool.ts:62-100 | a settled promise is a worker's answer about that very block, or false after exactly three posts |
| SchedulerRuns.WaitingMeansBusy | src/chain/verifierPool.ts:137-170 | a non-empty queue implies no idle worker and at least one busy one |
| SchedulerRuns.WorkersAccountedFor | src/chain/verifierPool.ts:116-149 | workers are the idle and the busy ones, once each, at least as many as asked for, and none idle while the pool is too large |
| SchedulerRuns.AnswerIsSafeIffOwed | src/chain/verifierPool.ts:62-71 | a message from a working worker keeps the pool sound if and only if it answers the job that worker is busy with |
| SchedulerRuns.DuplicateAnswerBreaks | src/chain/verifierPool.ts:62-71 | after a run that can happen, a second copy of an answer parks a working worker, and the pool is no longer sound |
| SchedulerRuns.ClampedIsPositive | src/chain/verifierPool.ts:202-206 | a clamped size is between 1 and the hardware threads, and a request in that range is kept |

## Left out

- Block validation as an asynchronous operation: two overlapping `addBlock` calls, and `reset` during one, are not interleaved.
- Listener bookkeeping in the chain object, and snapshot-invalidation events: only the reorg report is modelled.
- Identity of records: chain entries, accounts, address statistics and jobs are values in maps, so aliasing between two holders of one record is not captured.
- Error texts: each error is a case of a datatype; the mempool's structural errors are one case.
- Absent optional transaction fields are the empty sequence, and a transaction without a kind is a transfer.
- Hex strings as map keys: bytes are used directly.
- SHA-256, RIPEMD-160, Ed25519, Argon2id, Sandglass and the merkle helper: uninterpreted. The Sandglass proof of work is one oracle bit per header.
- Fork #2's timestamp estimate and clamp are modelled as the frozen arithmetic they are; whether they were a good choice is not a property here.
- `ExplorerIndex` reads through the chain object it was given; tip moves reach it in order and one at a time. Rich lists, prefix search and block summaries are rendering helpers.
- `ExplorerRuns.IndexNeverDrifts` assumes that no transaction hash occurs twice on a branch and that attaching a body is followed by `markStale`; for validated blocks the first is proved from hash separation (`ExplorerValid.ValidatedIndexInStep`), seeded blocks keep it as an assumption.
- `Interpreter.EvalScript` runs its loop, conditions, pushes and budget step by step; the effect of a single opcode on the stacks, other than OP_CHECKMULTISIG, is the specification's function, whose meaning is in Opcodes and Arithmetic.
- `ForkAgreement.ForkedRestoreAgrees` and the two theorems of ForkSuccess need a retention depth of at least 1 and rows in ascending height, which is how they are read (src/storage/idb.ts:86-90).
- Fast sync's download, cross-check of helper tips, snapshot fetch and random proof-of-work sampling: network and randomness.
- The start-up code around the three replay methods (which one is tried, when stored data is discarded) and persistence.
- `VerifierPool.terminate`, which drops unresolved promises on purpose, and `verifyAll`, which only collects promises. Timers are the `Timeout` event.
- `ActivityIndex`, hashrate windows, mining workers, server selection, WebRTC, HTTP, IndexedDB, archives and rendering.
- Wallet-side construction and signing of transactions, and the hashlock script without a signature.
