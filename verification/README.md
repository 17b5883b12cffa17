# QFC core, verified

A Dafny model of the hard parts of the QFC blockchain core, with machine-checked proofs of what those
parts are for. `dafny verify dfyconfig.toml` checks the whole project.

The modules, by subsystem:

- **Fork choice and the canonical index.** `BlockTree` is the store of blocks and their chains.
  `ForkChoice` is the node as a state machine whose steps are import, produce, draft and finalize; every
  execution runs on the one column of pending undelegations (`TicketColumn`), and finality safety is proved
  over whole runs. `Agreement` says when re-execution reproduces what import accepted and proves
  convergence; `SharedColumn` shows what sharing the column breaks; `ExecutorRules` instantiates the rules
  of fork choice with the executor. `Rows` and `ChainDb` are the database columns and the one ordered batch
  of deletes and puts that moves them from one chain to another. `Chain` (module `ChainNode`) is the node's
  imperative code, which refines `ForkChoice` and keeps the columns the exact image of the head's chain in
  every reachable state. `BlockHashes` is the two-level cached BLOCKHASH lookup.
- **Consensus.** `Votes` is vote recording and finality in one engine, `VoteNet` a network of nodes with
  faulty validators and its safety, `VoteHandlers` the node's handling of blocks and votes, and `VoteRuns`
  the runs of these handlers that break safety with the exact rule that restores it; `Schedule` is leader
  election and block validation; `Checkpoints` is the retained checkpoint store.
- **Execution.** `Gas` is the 64-bit gas arithmetic, `Ledger` the effect of each transaction type,
  `Execution` whole transactions, lists and blocks and where every unit goes, `Payments` who pays and who
  receives what, `AccountStore` the account store with its cache, trie and snapshots (`Lru` is its bounded
  cache), and `Executor` the imperative executor that refines them. `Blocks` is what a block commits, `StakeCap` the stake cap over runs,
  `FailedTransactions` and `Undelegations` are runs on which stated properties fail, and `DueTickets` is how
  execution depends on the shared column.
- **AI coordinator.** `Settlement` settles an epoch; `RoundRobin`, `Quota`, `CostMeter` and `TaskPool` are
  the fair scheduler with its admission control and books; `Rotation` and `Training` assign training
  epochs; `CommitStore` is the commitment store.
- **Agents.** `Agents` is the spending guard with session keys, `UserOps` the entry point and the
  operation pool in the style of EIP-4337, `AgentOps` the two in sequence.
- **Shared.** `Common`, `Sorting`, `Sums` and `Bytes`.

Hashes, signatures, verifiable random functions and the virtual machine are parameters: functions about
which only what the code relies on is assumed. The clock, the network and what the database returns are
arguments. Block execution is, in `ForkChoice` and `ChainNode`, a function of the block, its parent's state
root and the undelegations that fall due; `DueTickets.OnlyDueMatters` and `ExecutorRules.ExecutesTheBlock`
prove that of the executor.

Properties that hold only under a condition come with that condition, both ways where it is an
if-and-only-if, and with inputs on which they fail:

- Pending undelegations live in one column that every execution reads and writes, whatever becomes of the
  block. So execution is not a function of block and parent root. An accepted block without transactions is
  reproduced if and only if what falls due returns the same to each delegator (`ExecutorRules.ReproducesIff`,
  `ExecutorRules.ReplayIff`); with transactions the same is enough
  (`ExecutorRules.SameReturnsSameOutcome`) and not needed (`ExecutorRules.OtherReturnsSameRoot`).
  Convergence holds when no undelegation that is pending at the start, or that one of the blocks stores,
  falls due at any of the blocks (`Agreement.Convergence`): on blocks that span less than the delay, and on
  blocks of any span that undelegate nothing (`ExecutorRules.ConvergesWithoutUndelegations`).
  Otherwise the order of import can decide the chain (`SharedColumn.ImportOrderDecides`,
  `ExecutorRules.EmptySiblingsConflict`), a better branch can fail to re-execute
  (`SharedColumn.BetterBranchDiverges`, `ExecutorRules.EmptyBranchDiverges`), and a producer can turn away
  its own draft (`SharedColumn.DraftedIsStoredIff`, `ExecutorRules.EmptyDraftIsTurnedAway`). While nothing is
  finalized an import keeps the head the best stored block if and only if it is not contested or its branch
  re-executes (`Agreement.StepKeepsBestIff`), which for branches without transactions what falls due decides
  (`ExecutorRules.EmptyImportKeepsBestIff`).
- A failed transaction restores what reads see but resets the working trie to the last committed root. A
  block commits what its execution left if and only if no account that had changed before the last failed
  transaction is left unwritten from it on (`Blocks.CommitsItsExecutionIff`, `Blocks.StaleIsLost`); what the
  committed accounts then hold is `Blocks.CommittedTotal`. A block that loses a payment is
  `FailedTransactions.CommitLosesPayment`, and one that loses matured undelegations is
  `FailedTransactions.FailureLosesReturns`.
- The stake cap sums the working trie. Everything it lets through respects the cap if and only if the trie
  shows no more room than reads do, or none (`AccountStore.CapIsRightIff`); a stale trie that lets the cap be
  exceeded is `FailedTransactions.StaleTrieExceedsCap`.
- The account cache holds 10,000 accounts. A snapshot restores what reads saw if and only if no evicted
  account had changed (`AccountStore.EvictionIsHarmlessIff`), and nothing is evicted if and only if no more
  accounts were accessed than fit (`Lru.CachedAllIff`).
- The transaction index stays exact across a reorganisation if and only if no dropped transaction also
  occurs below the fork (`ChainDb.ReindexRows`, `ChainDb.RepeatedTxLosesRows`).
- The records root is independent of arrival order if and only if records that agree on the six sort keys
  are equal (`Settlement.RootIgnoresOrderIff`).
- Gas prepaid comes out whole if and only if the 64-bit products are exact. The flat charges of staking,
  delegation, registration, exit and claims can exceed the gas limit validation asks for; then 2^64 units
  appear (`Execution.ConservesIff`, `Execution.ShortLimitMints`, `Execution.MintingExample`). In the virtual
  machine the total is kept whatever the machine does if and only if the whole gas cost fits 64 bits
  (`Execution.MachineAlwaysConservesIff`).
- Two undelegations of one delegator from one validator in one second share a key, and the second
  replaces the first; what is lost is exactly the first (`Ledger.UndelegateKeeps`,
  `Undelegations.SecondTicketReplacesFirst`).
- No two nodes finalize different blocks at one height as long as no honest validator votes at that height
  after it has finalized above it (`VoteNet.NoTwoFinalBlocks`). The handlers do not see to that: a vote that
  arrives is answered at whatever height its block is canonical, and finalizing drops the record of earlier
  votes. So four honest validators can finalize two blocks at one height (`VoteRuns.TwoFinalBlocks`,
  `VoteRuns.CodedHandlersConflict`), and a rule on the heights to vote at excludes this if and only if it
  allows no vote below the finalized height (`VoteRuns.SafeRuleIff`). Across heights nothing binds a
  validator to a branch: final blocks can lie on two (`VoteRuns.TwoFinalBranches`), unless validators vote
  only for descendants of what they voted for before (`VoteNet.LockedFinalsOnOneChain`).
- A non-zero FLOPs budget binds if and only if it is below 2^64-1 (`Quota.BudgetHoldsIff`,
  `Quota.TopBudgetOverruns`).
- The daily limit holds per window, and per calendar day if and only if the counter starts at midnight
  (`Agents.RunKeepsBooks`, `Agents.DailyLimitIsDailyIff`, `Agents.StraddledDayOverspends`).
- Each nonce of a session key address is used at most once if the address is issued at most once
  (`Agents.IssuedOnceNeverRepeats`); a nonce repeats if and only if the address was used under two issues of
  it (`Agents.RepeatsIff`), as issuing an address again allows (`Agents.ReissueRepeatsIff`,
  `Agents.ReissuedKeyRepeats`).

Where the repository's documents and its code differ the model follows the code: a block's timestamp may
name its own slot or, within the drift, the one before it, and not the one after; the maximum reorganisation
depth only logs; and the election set keeps validators without stake.

## Model

| member | source | states |
|---|---|---|
| `BlockTree.PathIsChain` | crates/qfc-chain/src/chain.rs:921-940 | following parents from any stored block gives a hash-linked chain from genesis to it, one block per height |
| `BlockTree.PathPrefix` | crates/qfc-chain/src/chain.rs:921-940 | the chain of any block on that chain is its prefix |
| `BlockTree.PathStable` | crates/qfc-chain/src/chain.rs:921-940 | storing more blocks never changes the chain of a stored block |
| `BlockTree.StoreBlock` | crates/qfc-chain/src/chain.rs:754-888 | storing a block whose parent is stored one height below keeps the store closed under parents |
| `ForkChoice.ImportIsSafe` | crates/qfc-chain/src/chain.rs:754-888 | whatever the verdict on an imported block, and whatever executing it does to the shared column of undelegations, the node stays valid: a closed tree of accepted blocks, a childless head, the finalized block on the head's chain; the store only grows and everything at or below the finalized height stays canonical |
| `ForkChoice.ProducedIsNew` | crates/qfc-chain/src/chain.rs:1331-1372 | a block the producer path accepts is never already stored |
| `ForkChoice.FinalizeIsSafe` | crates/qfc-chain/src/chain.rs:1098-1115 | recording finality keeps the node valid and only advances it |
| `ForkChoice.NextIsSafe` | crates/qfc-chain/src/chain.rs:754-888 | every kind of step, a producer's draft included, keeps the node valid and only advances it |
| `ForkChoice.RunAdvances` | crates/qfc-chain/src/chain.rs:754-888 | so does every run of steps |
| `ForkChoice.PinnedBelowFinal` | crates/qfc-chain/src/chain.rs:942-960 | a block canonical at or below the finalized height stays canonical |
| `ForkChoice.FinalityIsPermanent` | crates/qfc-chain/src/chain.rs:1098-1115 | a block accepted as finalized is canonical at its height after every later run of imports, reorganisations, productions, drafts and finalizations |
| `ForkChoice.ReplayReproduces` | crates/qfc-chain/src/chain.rs:972-987 | what a re-execution of a branch records reproduces the root of each block it got through |
| `ForkChoice.AdoptedIsSafe` | crates/qfc-chain/src/chain.rs:905-1064 | adopting a branch that re-executes keeps the node valid and only advances it |
| `ForkChoice.HeadAfterImport` | crates/qfc-chain/src/chain.rs:850-888 | in numbers and hashes: an import changes the head only to a block with a greater number, or the same number and a lower hash, and to such an acceptable block exactly when it is the head's child or its branch keeps the finalized block and re-executes |
| `ForkChoice.StoredIff` | crates/qfc-chain/src/chain.rs:754-821 | an import stores a new block if and only if it names a stored parent one height below, passes the schedule, and executes on that parent's root with what falls due to the root and gas it claims |
| `ForkChoice.ProducedIff` | crates/qfc-chain/src/chain.rs:1331-1372 | so with a produced block, whose parent must be the head and which then becomes the head |
| `ForkChoice.NewHeadIsAboveFinal` | crates/qfc-chain/src/chain.rs:905-960 | a block that an import makes the head lies above the height finalized before the import |
| `Agreement.ReplaySucceeds` | crates/qfc-chain/src/chain.rs:972-987 | re-execution reproduces every root of a stored branch when at each block the undelegations that fall due are those of its accepted execution |
| `Agreement.ImportStaysCalm` | crates/qfc-chain/src/chain.rs:754-888 | while no undelegation that is pending or that an offered block stores falls due at an offered block, an import is turned away only for what it is, never for what was executed before, and no branch fails to re-execute |
| `Agreement.NeverRefused` | crates/qfc-chain/src/chain.rs:942-960 | with nothing finalized above genesis the finality guard refuses no reorganisation |
| `Agreement.StepKeepsBestIff` | crates/qfc-chain/src/chain.rs:850-888 | with nothing finalized above genesis a step keeps the head the best stored block if and only if it does not import an acceptable better block off the head whose branch fails to re-execute |
| `Agreement.SameDueKeepsBest` | crates/qfc-chain/src/chain.rs:972-987 | so it does whenever each block of that branch finds due what it found at its import |
| `ExecutorRules.EmptyImportKeepsBestIff` | crates/qfc-chain/src/chain.rs:850-888 | for branches without transactions, told from the column beforehand: if and only if what falls due along the branch returns what it returned when each block was accepted |
| `Agreement.UnfinalizedHeadIsBest` | crates/qfc-chain/src/chain.rs:754-888 | over any run with nothing finalized above genesis, in which no undelegation pending at the start or stored by an offered block falls due at an offered block, every stored block has a smaller number than the head, or the same number and no lower hash |
| `Agreement.SameStoreSameHead` | crates/qfc-chain/src/chain.rs:850-852 | two nodes with the same stored blocks and best heads have the same head and canonical chain |
| `Agreement.OrderedImportsStoreAll` | crates/qfc-chain/src/chain.rs:754-888 | under the same condition importing parents before children stores every block |
| `Agreement.Convergence` | crates/qfc-chain/src/chain.rs:754-888 | any two parents-first orders of the same valid blocks end with the same store, head, finality and canonical chain, provided no undelegation that is pending at the start or that one of the blocks stores falls due at any of the blocks |
| `Agreement.ConvergenceWithinDelay` | crates/qfc-chain/src/chain.rs:754-888 | so on blocks that span less than an undelegation's delay with nothing pending falling due |
| `ExecutorRules.ConvergesWithoutUndelegations` | crates/qfc-executor/src/executor.rs:793-802 | and, under the executor's rules, on blocks of any span that undelegate nothing |
| `SharedColumn.DraftedIsStoredIff` | crates/qfc-node/src/producer.rs:383-427 | a producer stores the block it has drafted if and only if executing it with nothing due yields its root and gas |
| `SharedColumn.DraftedIsTurnedAway` | crates/qfc-node/src/producer.rs:383-427 | where undelegations fall due in it, a block that would have been accepted is turned away once its producer has drafted it |
| `ExecutorRules.EmptyDraftIsTurnedAway` | crates/qfc-node/src/producer.rs:383-427 | under the executor's rules, an empty block in which anything is returned |
| `SharedColumn.ImportOrderDecides` | crates/qfc-chain/src/chain.rs:815-821 | of two siblings in which the same undelegations fall due a node keeps the one imported first and never stores the other |
| `SharedColumn.BetterBranchDiverges` | crates/qfc-chain/src/chain.rs:972-987 | a better branch that retains the finalized block is not adopted when undelegations fell due in one of its side blocks |
| `ExecutorRules.EmptyBranchDiverges` | crates/qfc-chain/src/chain.rs:972-987 | under the executor's rules, a branch whose empty first block returns anything |
| `DueTickets.OnlyDueMatters` | crates/qfc-executor/src/executor.rs:848-878 | a block's execution reads the column of undelegations only through what falls due in it, and leaves the rest alone but for what it replaces |
| `DueTickets.BlockCreates` | crates/qfc-executor/src/executor.rs:793-802 | what a block stores falls due one delay after the block |
| `DueTickets.NothingStored` | crates/qfc-executor/src/executor.rs:793-802 | a block without undelegations stores nothing |
| `ExecutorRules.ExecutesTheBlock` | crates/qfc-chain/src/chain.rs:576-637 | executing on the shared column commits what the executor commits and leaves the column as the executor leaves it |
| `ExecutorRules.RulesDelay` | crates/qfc-executor/src/executor.rs:793-802 | the executor's rules meet what agreement asks of them: what a block stores falls due one delay later |
| `ExecutorRules.RulesMatch` | crates/qfc-executor/src/executor.rs:881-957 | and what the index asks: one receipt per transaction, in order |
| `ExecutorRules.SameReturnsSameOutcome` | crates/qfc-chain/src/chain.rs:576-637 | whatever its transactions, a block executes alike when what falls due returns the same to each delegator |
| `ExecutorRules.ReproducesIff` | crates/qfc-chain/src/chain.rs:978-984 | an accepted block without transactions is reproduced if and only if what falls due returns the same to each delegator |
| `ExecutorRules.OtherReturnsSameRoot` | crates/qfc-chain/src/chain.rs:978-984 | with a failing transaction it can be reproduced although the returns differ: the root is the same whether undelegations of others fall due or not |
| `ExecutorRules.ReplayIff` | crates/qfc-chain/src/chain.rs:972-987 | a branch without transactions re-executes if and only if at each block what falls due returns what it returned at import |
| `ExecutorRules.EmptySiblingsConflict` | crates/qfc-chain/src/chain.rs:815-821 | two empty siblings that pay out the same undelegations: two nodes that import them in the two orders end on different chains |
| `Rows.ReplaceTail` | crates/qfc-chain/src/chain.rs:989-1034 | deleting the keys of the old tail that the new tail does not write and then writing the new tail gives exactly the new rows if and only if no deleted key also occurs in the shared part |
| `ChainDb.RewriteColumn` | crates/qfc-chain/src/chain.rs:989-1034 | the same for one database column across a reorganisation |
| `ChainDb.ReindexNumbers` | crates/qfc-chain/src/chain.rs:972-1044 | after the reorganisation batch the number index, hash index and head metadata are exactly those of the new chain |
| `ChainDb.ReindexRows` | crates/qfc-chain/src/chain.rs:989-1034 | the transaction, location and receipt columns are exactly those of the new chain if and only if no dropped transaction also occurs below the fork |
| `ChainDb.RepeatedTxLosesRows` | crates/qfc-chain/src/chain.rs:1007-1025 | a transaction carried below the fork and again by the abandoned block loses its rows although the new chain carries it |
| `ChainDb.NumbersExactMeans` | crates/qfc-chain/src/chain.rs:1141-1192 | exactness means: heights 0 to the head, each holding the chain's block, and the hash index its inverse |
| `ChainDb.RowsExactMeans` | crates/qfc-chain/src/chain.rs:1176-1207 | without repeats, the transaction and receipt keys are exactly the canonical transactions, at their true positions |
| `ChainNode.AppendBlock` | crates/qfc-chain/src/chain.rs:1141-1192 | the batch writes the block, its indexes and one row per transaction |
| `ChainNode.AppendReceiptsAndHead` | crates/qfc-chain/src/chain.rs:1196-1220 | the batch adds the receipts and the head metadata |
| `ChainNode.WalkToAncestor` | crates/qfc-chain/src/chain.rs:921-940 | the walk terminates at the newest canonical ancestor and returns exactly the branch above it |
| `ChainNode.ReExecute` | crates/qfc-chain/src/chain.rs:972-987 | re-executes the branch on the shared column up to the first root that does not come out, as the pure replay says |
| `ChainNode.ChooseBranch` | crates/qfc-chain/src/chain.rs:912-960 | the reorganisation is allowed exactly when the finalized block is on the new chain |
| `ChainNode.GuardIsExact` | crates/qfc-chain/src/chain.rs:942-960 | the height guard and the finalized-hash guard together decide exactly that |
| `ChainNode.DropAbandoned` | crates/qfc-chain/src/chain.rs:1007-1025 | every abandoned hash entry and every row of a transaction the new branch does not carry is deleted; exactly those transactions are listed, as often as they occur |
| `ChainNode.WriteBranch` | crates/qfc-chain/src/chain.rs:1026-1035 | the batch writes the branch in order |
| `ChainNode.RewriteChain` | crates/qfc-chain/src/chain.rs:989-1044 | one batch turns the exact image of the old chain into the exact image of the re-executed one |
| `ChainNode.ReorgIsExact` | crates/qfc-chain/src/chain.rs:972-1044 | after a reorganisation the columns are the image of the new chain |
| `ChainNode.ExtendingIsExact` | crates/qfc-chain/src/chain.rs:1069-1090 | after extending the head the columns are the image of the longer chain |
| `ChainNode.StoringIsExact` | crates/qfc-chain/src/chain.rs:754-888 | storing a side block leaves the image of the head's chain as it was |
| `ChainNode.NothingLost` | crates/qfc-chain/src/chain.rs:1009-1025 | each transaction of the old chain is on the new chain or handed back |
| `ChainNode.OnlyLostHandedBack` | crates/qfc-chain/src/chain.rs:1007-1025 | the list holds exactly, as often as they occur, the transactions of the old chain above the fork that the new chain does not carry above it |
| `ChainNode.HandedBackIsGone` | crates/qfc-chain/src/chain.rs:1016-1024 | what is handed back is not on the new chain above the fork, and nowhere on it where the old chain repeats no transaction |
| `ChainNode.LocationsAreTrue` | crates/qfc-chain/src/chain.rs:516-532 | without repeated transactions the location of every canonical transaction is its true height and index |
| `ChainNode.Chain.constructor` | crates/qfc-chain/src/chain.rs:216-239 | a new node is the image of genesis |
| `ChainNode.Chain.IsCanonicalBlock` | crates/qfc-chain/src/chain.rs:409-414 | the index lookup answers exactly whether the block is canonical at that height |
| `ChainNode.Chain.ReorgTo` | crates/qfc-chain/src/chain.rs:905-1064 | refuses exactly when the finalized block would be abandoned, gives up exactly when the branch does not re-execute, and changes nothing but the column then; adoption yields the exact image of the new chain, and hands back exactly the transactions above the fork that the new chain does not carry there |
| `ChainNode.Chain.ExecuteBlock` | crates/qfc-chain/src/chain.rs:576-637 | every execution takes what is due from the column and adds what the block stores, whatever becomes of the block |
| `ChainNode.Chain.CommitCanonical` | crates/qfc-chain/src/chain.rs:1069-1090 | extends the canonical chain by the block just executed and keeps its image exact |
| `ChainNode.Chain.ImportBlock` | crates/qfc-chain/src/chain.rs:754-888 | follows the fork-choice step exactly, keeps the image exact in every reachable state, never leaves the head for a lower number or for the same number and a hash that is not lower, and hands back exactly the transactions the chain above the fork loses |
| `ChainNode.Chain.StoreProducedBlock` | crates/qfc-chain/src/chain.rs:1331-1372 | stores exactly the blocks that extend the head and execute, on the column as it then is, to the root and gas they claim |
| `ChainNode.Chain.DraftBlock` | crates/qfc-node/src/producer.rs:383-398 | drafting executes on the shared column before the block is sealed |
| `ChainNode.Chain.RecordFinalized` | crates/qfc-chain/src/chain.rs:1098-1115 | records finality only for a canonical block, and never lowers it |
| `ChainNode.Chain.CanonicalTxAt` | crates/qfc-chain/src/chain.rs:516-532 | what it finds is on the canonical chain at that place; without repeats it finds exactly the canonical transactions |
| `BlockHashes.AncestorLookup.Resolve` | crates/qfc-chain/src/chain.rs:653-686 | whatever was asked before, the remembered walk answers as a plain walk up the ancestors |
| `BlockHashes.OpcodeView.BlockHashRef` | crates/qfc-executor/src/evm.rs:139-176 | any query after any queries answers the ancestor inside the 256-block window and zero outside it |
| `BlockHashes.WindowIsCovered` | crates/qfc-executor/src/evm.rs:139-176 | for a block on a stored parent every height of the window resolves to a real ancestor |
| `BlockHashes.ReplayAnswersAlike` | crates/qfc-chain/src/chain.rs:653-686 | re-execution against any larger store gives the same answers |
| `Votes.Engine.AddVote` | crates/qfc-consensus/src/engine.rs:617-624 | keeps one vote per voter and block |
| `Votes.Engine.TryRecordOwnVote` | crates/qfc-consensus/src/engine.rs:630-639 | succeeds once per height |
| `Votes.Engine.CheckFinality` | crates/qfc-consensus/src/engine.rs:660-683 | final exactly when the accepting registered voters reach the threshold share |
| `Votes.Engine.PruneOldVotes` | crates/qfc-consensus/src/engine.rs:696-706 | drops the votes and own votes up to the height as the pure function says |
| `Votes.PrunedForgets` | crates/qfc-consensus/src/engine.rs:696-706 | pruning to a height leaves exactly the own votes above it and the blocks whose first vote is above it, unchanged |
| `VoteHandlers.SyncManager.TryFinalize` | crates/qfc-node/src/sync.rs:689-706 | finalizes and prunes exactly a canonical block above the finalized height that a quorum accepts |
| `VoteHandlers.SyncManager.CastVote` | crates/qfc-node/src/sync.rs:1045-1119 | votes exactly for a canonical block at a height without a recorded vote, at whatever height |
| `VoteHandlers.SyncManager.HandleVote` | crates/qfc-node/src/sync.rs:954-1041 | counting a vote, trying to finalize its block and answering it are the steps of the network model in that order, and what is broadcast is the vote they sign |
| `VoteHandlers.SyncManager.HandleBlock` | crates/qfc-node/src/sync.rs:606-652 | importing a block, voting for it and trying to finalize it are the steps of the network model in that order; if the block is then canonical and a quorum accepts it, its height is finalized |
| `VoteHandlers.BlockLeavesNoQuorum` | crates/qfc-node/src/sync.rs:637-650 | after a block is handled no quorum for it is left that has not finalized it |
| `VoteHandlers.BlockCompletesQuorum` | crates/qfc-node/src/sync.rs:637-650 | votes that arrived before the block count together with the own vote its import casts: if they reach the threshold, handling the block finalizes it |
| `VoteHandlers.VoteCompletesQuorum` | crates/qfc-node/src/sync.rs:954-1041 | a vote that completes the quorum of a canonical block finalizes it when it is handled |
| `VoteNet.RunIsSound` | crates/qfc-node/src/sync.rs:606-706 | over any run of imports, deliveries, finalizations, own votes and forgeries, tallies hold only signed votes, every finalized block is backed by a quorum of signatures, and an honest validator signs one block per height above what it has finalized |
| `Votes.QuorumsMeet` | crates/qfc-consensus/src/engine.rs:660-683 | two quorums share a validator that is not faulty |
| `VoteNet.OneBacked` | crates/qfc-consensus/src/engine.rs:660-683 | at most one block of a height is backed while nobody honest voted twice there or a quorum stands by one block only |
| `VoteNet.NoTwoFinalBlocks` | crates/qfc-node/src/sync.rs:606-706 | with fewer than (2t-1)N faulty validators no two nodes finalize different blocks at one height, at whatever moments of a run, under any delivery order or duplication, provided no honest validator votes at that height after finalizing above it |
| `VoteRuns.TwoFinalBlocks` | crates/qfc-node/src/sync.rs:1033-1090 | otherwise it fails without any faulty validator: four honest validators running the coded handlers finalize two blocks at one height, when a vote below the finalized height is answered |
| `VoteRuns.SafeRuleIff` | crates/qfc-node/src/sync.rs:1045-1090 | of the voting rules that allow votes above the finalized height, exactly those that allow none below it keep two nodes from finalizing two blocks at one height, over all block trees, tolerated faults and runs |
| `VoteRuns.CodedHandlersConflict` | crates/qfc-consensus/src/engine.rs:696-706 | the coded handlers have no such rule, and a run of them at heights one and two finalizes both blocks |
| `VoteRuns.TwoFinalBranches` | crates/qfc-node/src/sync.rs:1045-1090 | under any such rule blocks final at two heights can lie on two branches |
| `VoteNet.LockedFinalsOnOneChain` | crates/qfc-node/src/sync.rs:1045-1090 | if validators voted only for descendants of what they voted for before, everything final would lie on one chain |
| `Schedule.ElectionIgnoresOrder` | crates/qfc-consensus/src/engine.rs:327-335 | the election set does not depend on registration order |
| `Schedule.SameVerdict` | crates/qfc-consensus/src/engine.rs:470-577 | engines with the same identities in any order give every block the same verdict |
| `Schedule.LocalStateNeverMatters` | crates/qfc-consensus/src/engine.rs:470-577 | after any runs of slashing, jailing, scoring, voting and epoch updates two engines with the same identities accept exactly the same blocks at the same clock |
| `Schedule.AcceptedMayProduce` | crates/qfc-consensus/src/engine.rs:470-577 | only the leader of a candidate slot passes |
| `Schedule.CandidatesAre` | crates/qfc-consensus/src/engine.rs:520-526 | the candidate slots are those that have begun and ended no longer ago than the drift |
| `Schedule.AcceptedIff` | crates/qfc-consensus/src/engine.rs:470-577 | a block is accepted if and only if it is well formed, its producer is registered, and for some candidate slot that its producer leads the key is unknown or the proof verifies against the seed of that slot's epoch |
| `Schedule.UnprovedIsRefused` | crates/qfc-consensus/src/engine.rs:536-552 | a leader with a known key whose proof verifies for no slot it leads is answered with the proof error once the earlier checks pass |
| `Schedule.EachLeadsOnce` | crates/qfc-consensus/src/engine.rs:341-353 | of any stretch of as many slots under one seed as there are validators, each validator leads exactly one |
| `Schedule.LeaderWraps` | crates/qfc-consensus/src/engine.rs:341-353 | beyond 64 bits the sum of slot and offset starts again from zero |
| `Schedule.AtMostTwoProducers` | crates/qfc-consensus/src/engine.rs:470-577 | no timestamp admits more than two producers, and only one outside the drift |
| `Schedule.OwnSlotPasses` | crates/qfc-consensus/src/engine.rs:379-459 | a block sealed in its leader's own slot is accepted by every engine that registered the key |
| `Schedule.SlashTakesItsShare` | crates/qfc-consensus/src/engine.rs:771-808 | a slash takes exactly its share, from the own stake before delegations |
| `Schedule.JailTermHolds` | crates/qfc-consensus/src/engine.rs:771-828 | a slash with a term jails, and the validator is let out exactly when the term is over, never for the permanent marker; reputation falls by 2000 or to nothing |
| `Schedule.ScoresStayBounded` | crates/qfc-consensus/src/engine.rs:709-808 | over any run of local updates reputation, accuracy and uptime stay within 10000 |
| `Schedule.ExtremesStay` | crates/qfc-consensus/src/engine.rs:709-769 | votes move accuracy to their own side, the extremes stay, and each vote is counted once on its side |
| `Schedule.ConsensusEngine.FindValidator` | crates/qfc-consensus/src/engine.rs:771-808 | finds the first registration of an address |
| `Schedule.ConsensusEngine.Adjust` | crates/qfc-consensus/src/engine.rs:771-808 | a node-local update changes no identity |
| `Schedule.TrySlots` | crates/qfc-consensus/src/engine.rs:470-577 | the two flags say whether the producer leads some candidate slot, and whether for some slot it leads its key is unknown or its proof verifies against the seed of that slot's epoch |
| `Schedule.ConsensusEngine.ValidateBlock` | crates/qfc-consensus/src/engine.rs:470-577 | the stepwise validation gives exactly the verdict that the order-free definition gives |
| `Gas.GasIsExactIff` | crates/qfc-executor/src/executor.rs:420-427 | refund plus payment equal the prepaid gas if and only if both 64-bit products fit, or, for gas beyond the limit, the two wrap-arounds cancel |
| `Gas.DeficitMints` | crates/qfc-executor/src/executor.rs:420-427 | gas beyond the limit with products that fit 64 bits pays out 2^64 more than was prepaid |
| `Ledger.StakingRearranges` | crates/qfc-executor/src/executor.rs:574-702 | staking, unstaking, registering and exiting only move value inside the sender's account |
| `Ledger.DelegatingRearranges` | crates/qfc-executor/src/executor.rs:708-755 | so does delegating |
| `Ledger.UndelegateKeeps` | crates/qfc-executor/src/executor.rs:759-810 | undelegating moves the amount to a pending ticket, and what it destroys is exactly the ticket it overwrites |
| `Ledger.MoveKeeps` | crates/qfc-state/src/state_db.rs:188-207 | a transfer keeps the total |
| `Ledger.TouchedWorth` | crates/qfc-executor/src/evm.rs:524-559 | applying the virtual machine's changes moves the total by the difference of the touched balances |
| `Ledger.EffectKeeps` | crates/qfc-executor/src/executor.rs:331-447 | every transaction type keeps the total of balances, stakes, delegations and pending undelegations, up to an overwritten ticket |
| `Execution.Validate` | crates/qfc-executor/src/executor.rs:179-328 | a transaction that passes can pay its whole cost, carries the sender's nonce and covers its intrinsic gas |
| `Execution.ExecuteAccounts` | crates/qfc-executor/src/executor.rs:331-447 | the exact account of one transaction: a failed one keeps the total, a completed one changes it by the gas arithmetic error less the overwritten ticket |
| `Execution.WithinLimitIff` | crates/qfc-executor/src/executor.rs:331-447 | a completed transaction uses no more than its limit exactly when the limit covers its type's flat charge |
| `Payments.GasSettles` | crates/qfc-executor/src/executor.rs:331-447 | a covered transaction prepays its whole gas cost; one that completes with gas g gives its sender back the unused gas at its price, its producer g at that price, and no other account changes in the settlement |
| `Payments.FailureSettles` | crates/qfc-executor/src/executor.rs:331-447 | one that fails costs its sender the whole gas limit, which the producer gets, and changes nobody else |
| `Payments.FinishPays` | crates/qfc-executor/src/executor.rs:421-427 | the settlement itself: refund to the sender, payment to the producer |
| `Payments.TransferPays` | crates/qfc-executor/src/executor.rs:449-463 | a transfer to a third account moves exactly its value besides the gas |
| `Payments.StakeLocks` | crates/qfc-executor/src/executor.rs:574-678 | staking and registering move exactly the value from balance to stake besides the gas |
| `Payments.UnstakeFrees` | crates/qfc-executor/src/executor.rs:607-702 | unstaking and exiting move exactly the amount from stake to balance besides the gas |
| `Payments.DelegateLocks` | crates/qfc-executor/src/executor.rs:708-755 | delegating moves exactly the value from balance to delegation and names the validator |
| `Payments.UndelegateQueues` | crates/qfc-executor/src/executor.rs:759-810 | undelegating moves exactly the amount to a ticket that unlocks after the delay, and nothing to the balance |
| `Payments.OnlyGas` | crates/qfc-executor/src/executor.rs:813-845 | claiming rewards and submitting an inference task cost their gas and move nothing else |
| `Payments.ValidatedIff` | crates/qfc-executor/src/executor.rs:179-329 | validated is exactly a signed transaction of this chain with gas for its data, the next nonce, the money for value and gas, and what its type asks for: recipient, least stake, least delegation, a validator with stake |
| `Payments.ValidatedFailsIff` | crates/qfc-executor/src/executor.rs:449-845 | before the call: a validated transaction outside the virtual machine fails if and only if its sender lacks what its type asks for |
| `Payments.StakeComesBack` | crates/qfc-executor/src/executor.rs:574-646 | unstaking what was staked restores the sender's account |
| `Payments.RegistrationComesBack` | crates/qfc-executor/src/executor.rs:648-702 | exiting after registering restores balance and stake |
| `Payments.DelegationComesBack` | crates/qfc-executor/src/executor.rs:708-878 | delegating, undelegating and maturing returns the delegation, at the unlock time and not before |
| `Payments.AmountIsRead` | crates/qfc-executor/src/executor.rs:607-646 | the amount unstaking and undelegating read is the number written big-endian in the first 32 bytes, and everything where there are fewer |
| `Payments.MachineWrites` | crates/qfc-executor/src/evm.rs:524-559 | the virtual machine's changes set balance and nonce, never remove code, and leave stake, delegation and every other account alone |
| `Payments.RunsInParts` | crates/qfc-executor/src/executor.rs:881-950 | a list may be run in two parts: the ledgers compose and the fees add up |
| `Execution.CoveredDrift` | crates/qfc-executor/src/executor.rs:331-447 | with the flat charge covered and the cost within 64 bits only an overwritten ticket changes the total |
| `Execution.ConservesIff` | crates/qfc-executor/src/executor.rs:420-427 | outside the virtual machine a transaction that overwrites nothing keeps the total if and only if it fails or the 64-bit arithmetic of its type's charge is exact |
| `Execution.MachineConservesIff` | crates/qfc-executor/src/executor.rs:420-427 | in the virtual machine, if and only if the arithmetic is exact at the gas used |
| `Execution.MachineAlwaysConservesIff` | crates/qfc-executor/src/executor.rs:420-427 | told beforehand: whatever the machine does, if and only if the whole gas cost fits 64 bits |
| `Undelegations.SecondTicketReplacesFirst` | crates/qfc-executor/src/executor.rs:793-802 | two undelegations from one validator in one second: what the first took is returned to nobody |
| `Execution.ShortLimitMints` | crates/qfc-executor/src/executor.rs:420-427 | a limit below the flat charge mints 2^64 units |
| `Execution.MintingExample` | crates/qfc-executor/src/executor.rs:813-839 | a validated reward claim at gas limit 21000 does so |
| `Execution.NonceAdvancesByOne` | crates/qfc-executor/src/executor.rs:347-446 | every validated transaction advances its sender's nonce by exactly one, completed or failed, and outside the virtual machine nobody else's |
| `Execution.ReplayIsRefused` | crates/qfc-executor/src/executor.rs:179-328 | a transaction just executed is refused |
| `Execution.RunConserves` | crates/qfc-executor/src/executor.rs:881-957 | any list of covered transactions with distinct undelegation tickets leaves the total that reads see as it was, whatever completes, fails or is refused |
| `Execution.PayTicketMatures` | crates/qfc-executor/src/executor.rs:848-878 | paying matured tickets one at a time arrives at the order-free result |
| `Execution.MaturingConserves` | crates/qfc-executor/src/executor.rs:848-878 | returning matured undelegations keeps the total |
| `Execution.BlockReward` | crates/qfc-types/src/constants.rs:285-290 | the yearly halved reward stays between the minimum and the full reward |
| `Payments.RewardHalves` | crates/qfc-types/src/constants.rs:285-290 | the reward is halved once a year for four years and constant from then on |
| `Execution.RewardsAdd` | crates/qfc-chain/src/chain.rs:711-734 | rewards add exactly the block reward and the two fee shares |
| `Execution.BlockAddsItsReward` | crates/qfc-chain/src/chain.rs:576-621 | a block adds exactly its reward, producer share and treasury share to the total that reads see |
| `AccountStore.RevertRestoresView` | crates/qfc-state/src/state_db.rs:621-641 | a snapshot of an unbounded cache restores every account reads saw |
| `AccountStore.EvictionIsHarmlessIff` | crates/qfc-state/src/state_db.rs:599-641 | with accounts evicted before the snapshot, if and only if none of them had changed |
| `AccountStore.FewAccountsRestore` | crates/qfc-state/src/state_db.rs:16-30 | a snapshot restores every account reads saw whenever at most 10,000 accounts were read or written, whatever failed before it |
| `Lru.CachedAllIff` | crates/qfc-state/src/state_db.rs:16-30 | the bounded cache holds every account accessed if and only if no more were accessed than fit |
| `AccountStore.TrieIs` | crates/qfc-state/src/state_db.rs:559-641 | the working trie is what reads see with every stale account back at its committed value |
| `AccountStore.RevertStales` | crates/qfc-state/src/state_db.rs:599-641 | a revert makes stale exactly what had changed since the last commit |
| `AccountStore.WriteMends` | crates/qfc-state/src/state_db.rs:134-148 | a write mends exactly the account it writes |
| `AccountStore.CapLetsThroughIff` | crates/qfc-executor/src/executor.rs:110-143 | the cap lets through exactly a quarter of the room the working trie shows |
| `AccountStore.CapIsRightIff` | crates/qfc-executor/src/executor.rs:110-143 | everything it lets through stays within a fifth of the network stake if and only if the working trie shows no more room than reads do, or none |
| `AccountStore.CapNeedsStake` | crates/qfc-executor/src/executor.rs:110-148 | the stake cap lets everything through while the network has no stake |
| `AccountStore.StakeStaysCapped` | crates/qfc-executor/src/executor.rs:110-143 | a stake or registration the cap lets through leaves the validator within a fifth of the network stake if and only if it fits the room that reads show |
| `AccountStore.DelegationStaysCapped` | crates/qfc-executor/src/executor.rs:110-143 | the same for the validator delegated to |
| `StakeCap.CompletedStaysCapped` | crates/qfc-executor/src/executor.rs:574-755 | the same for whole transactions, on the working trie they find |
| `StakeCap.NothingStaleStaysCapped` | crates/qfc-executor/src/executor.rs:574-755 | where nothing is stale every completed stake, registration and delegation leaves the cap holding |
| `FailedTransactions.StaleTrieExceedsCap` | crates/qfc-executor/src/executor.rs:110-143 | with room for one delegation and not for two, a failed transaction between them lets both complete and the cap is exceeded |
| `Blocks.RunWorkLedger` | crates/qfc-executor/src/executor.rs:881-957 | reads see the pure run with the cap's answers taken from the working trie |
| `Blocks.LastFailureIs` | crates/qfc-executor/src/executor.rs:431-445 | the last transaction that validates and fails |
| `Blocks.StaleIsLost` | crates/qfc-state/src/state_db.rs:599-641 | what is stale after a run is exactly what had changed before the last failed transaction and was not written from it on |
| `Blocks.FrameRun` | crates/qfc-executor/src/executor.rs:881-957 | an account that no later transaction writes stays as it was |
| `Blocks.CommitsItsExecutionIff` | crates/qfc-chain/src/chain.rs:576-621 | a block commits the accounts its execution left if and only if it loses nothing |
| `Blocks.TrieWorth` | crates/qfc-state/src/state_db.rs:559-564 | the worth of a working trie is the view's with every stale account back at its committed value |
| `Blocks.CommittedTotal` | crates/qfc-chain/src/chain.rs:576-621 | the exact account of a block: what is committed and pending is the old total plus reward and fee shares, with every lost account back at its old value |
| `Blocks.CommittedAddsItsReward` | crates/qfc-chain/src/chain.rs:576-621 | a block that loses nothing adds exactly its reward and fee shares to what is committed |
| `FailedTransactions.CommitLosesPayment` | crates/qfc-state/src/state_db.rs:621-641 | a payment and another sender's failure in one block: the commit gives the payer back amount, gas and nonce, and the payment validates again |
| `FailedTransactions.FailureLosesReturns` | crates/qfc-state/src/state_db.rs:621-641 | undelegations that fall due in a block of another sender's failing transaction are taken from the column and returned to nobody |
| `AccountStore.StateDb.constructor` | crates/qfc-state/src/state_db.rs:71-87 | opens at a committed root with nothing stale |
| `AccountStore.StateDb.GetAccount` | crates/qfc-state/src/state_db.rs:104-131 | reads the cache before the trie |
| `AccountStore.StateDb.SetAccount` | crates/qfc-state/src/state_db.rs:134-148 | writes through cache and trie |
| `AccountStore.StateDb.AddBalance` | crates/qfc-state/src/state_db.rs:169-173 | credits, saturating |
| `AccountStore.StateDb.SubBalance` | crates/qfc-state/src/state_db.rs:176-185 | debits exactly, or fails and changes nothing |
| `AccountStore.StateDb.Transfer` | crates/qfc-state/src/state_db.rs:188-207 | moves exactly the amount, or fails and changes nothing |
| `AccountStore.StateDb.SetNonce` | crates/qfc-state/src/state_db.rs:215-219 | sets one nonce |
| `AccountStore.StateDb.IncrementNonce` | crates/qfc-state/src/state_db.rs:222-227 | advances one nonce, saturating |
| `AccountStore.StateDb.SetStake` | crates/qfc-state/src/state_db.rs:380-384 | sets one stake |
| `AccountStore.StateDb.SetDelegation` | crates/qfc-state/src/state_db.rs:416-425 | sets target and amount |
| `AccountStore.StateDb.AddDelegationAmount` | crates/qfc-state/src/state_db.rs:435-439 | adds to the delegated amount |
| `AccountStore.StateDb.SubDelegationAmount` | crates/qfc-state/src/state_db.rs:442-449 | takes from the delegated amount, clearing an empty delegation |
| `AccountStore.StateDb.Revert` | crates/qfc-state/src/state_db.rs:621-641 | restores what reads saw; what had changed since the last commit becomes stale; tickets are untouched |
| `AccountStore.StateDb.Commit` | crates/qfc-state/src/state_db.rs:559-564 | commits what reads see with every stale account back at its committed value |
| `AccountStore.StateDb.TotalDelegatedTo` | crates/qfc-state/src/state_db.rs:465-478 | the saturated sum over the working trie |
| `AccountStore.StateDb.TotalStake` | crates/qfc-state/src/state_db.rs:481-493 | the saturated sum over the working trie |
| `Executor.CapExceeded` | crates/qfc-executor/src/executor.rs:110-143 | refuses exactly what the cap formula refuses |
| `Executor.ExecuteTransfer` | crates/qfc-executor/src/executor.rs:449-463 | moves exactly the value, or errs for want of a recipient or balance |
| `Executor.ExecuteStake` | crates/qfc-executor/src/executor.rs:574-605 | locks exactly the value, or errs below the minimum, over the cap or for want of balance |
| `Executor.ExecuteUnstake` | crates/qfc-executor/src/executor.rs:607-646 | frees the named amount or everything, never more than the stake |
| `Executor.ExecuteValidatorRegister` | crates/qfc-executor/src/executor.rs:648-678 | locks the first stake of an account that has none |
| `Executor.ExecuteValidatorExit` | crates/qfc-executor/src/executor.rs:680-702 | frees the whole stake of an account that has one |
| `Executor.ExecuteDelegate` | crates/qfc-executor/src/executor.rs:708-755 | locks the value behind one validator with stake, within the cap |
| `Executor.ExecuteUndelegate` | crates/qfc-executor/src/executor.rs:759-810 | takes the amount from the delegation into a ticket that unlocks a week after the block |
| `Executor.ExecuteClaim` | crates/qfc-executor/src/executor.rs:813-839 | needs a delegation and moves nothing |
| `Executor.ExecuteEvm` | crates/qfc-executor/src/executor.rs:465-507 | applies the machine's changes only on success; creation is charged at least its base gas |
| `Executor.ExecuteContractCall` | crates/qfc-executor/src/executor.rs:509-572 | a call without code is a transfer, a call with code runs the machine |
| `Executor.Dispatch` | crates/qfc-executor/src/executor.rs:371-404 | every type reports exactly its effect on the ledger, with the cap read from the working trie, and writes exactly its accounts |
| `Executor.Prepay` | crates/qfc-executor/src/executor.rs:343-369 | prepays gas and advances the nonce outside the machine |
| `Executor.SettleGas` | crates/qfc-executor/src/executor.rs:406-430 | settles as the pure function does; where sender and producer differ and the amounts fit, the sender gets the unused gas at its price, the producer the used gas, and no other account changes |
| `Executor.ChargeFailure` | crates/qfc-executor/src/executor.rs:431-445 | charges all gas and advances the nonce |
| `Executor.ExecuteTx` | crates/qfc-executor/src/executor.rs:331-447 | the stepwise execution with snapshot and revert is exactly the order-free result, in what reads see and in what is stale |
| `Executor.ApplyTx` | crates/qfc-executor/src/executor.rs:881-957 | a refused transaction changes nothing and is billed its limit in the receipt; any other is executed |
| `Executor.ExecuteTransactions` | crates/qfc-executor/src/executor.rs:881-957 | one receipt per transaction, and the ledger and stale accounts of the pure run |
| `Executor.ProcessMatureUndelegations` | crates/qfc-executor/src/executor.rs:848-878 | pays out exactly the matured tickets |
| `Executor.ApplyStateChanges` | crates/qfc-executor/src/evm.rs:524-559 | applies every touched account, in any order |
| `Executor.TotalFees` | crates/qfc-chain/src/chain.rs:689-695 | sums gas times price over transactions and receipts |
| `Executor.ApplyBlockRewards` | crates/qfc-chain/src/chain.rs:711-734 | credits producer and treasury |
| `Payments.RewardsPay` | crates/qfc-chain/src/chain.rs:711-734 | what producer and treasury each receive from reward and fees, and that nobody else does |
| `Executor.ExecuteAt` | crates/qfc-chain/src/chain.rs:576-621 | reads end at the pure block function, the committed accounts are the pure commit, and the two agree if and only if the block loses nothing |
| `Settlement.RootIgnoresOrderIff` | crates/qfc-ai-coordinator/src/settlement.rs:168-191 | the records root is the same for every arrival order if and only if records that agree on worker, epoch, clock, range and update are equal |
| `Settlement.FirstDifferenceDecides` | crates/qfc-ai-coordinator/src/settlement.rs:168-191 | records are ordered by worker, epoch, clock, range and update, the first that differs deciding |
| `Settlement.SlashesCarryPenalties` | crates/qfc-ai-coordinator/src/settlement.rs:202-209 | the slashes are the penalties: one each, with its worker, amount and saturated end of jail, in order, and in sum what the penalties name |
| `Settlement.SlashesIgnoreOrder` | crates/qfc-ai-coordinator/src/settlement.rs:388-404 | slashes come out in one order whatever the penalties' order |
| `Settlement.PayoutIgnoresOrder` | crates/qfc-ai-coordinator/src/settlement.rs:334-382 | rewards do not depend on the order of the records |
| `Settlement.SettlementIgnoresOrder` | crates/qfc-ai-coordinator/src/settlement.rs:257-421 | every permutation of records and penalties passes the checks alike and settles to the same result |
| `Settlement.VoidedEarnsNothing` | crates/qfc-ai-coordinator/src/settlement.rs:292-350 | a voided worker is paid nothing |
| `Settlement.PoolIsConserved` | crates/qfc-ai-coordinator/src/settlement.rs:317-382 | credits never exceed the worker pool, and when any FLOPs count the rest is smaller than the number of workers whose FLOPs count |
| `Settlement.MoreFlopsNeverEarnLess` | crates/qfc-ai-coordinator/src/settlement.rs:356-372 | shares are monotone in FLOPs |
| `Settlement.NothingOverflows` | crates/qfc-ai-coordinator/src/settlement.rs:317-382 | no sum leaves 128 bits, no product 256, and every share fits the pool |
| `Settlement.FindMismatch` | crates/qfc-ai-coordinator/src/settlement.rs:266-290 | reports exactly the first record or penalty that does not belong |
| `Settlement.SaturatingSum` | crates/qfc-ai-coordinator/src/settlement.rs:303-306 | the saturating fold is the saturated sum |
| `Settlement.Tally` | crates/qfc-ai-coordinator/src/settlement.rs:338-350 | one entry per worker with exactly its counted FLOPs |
| `Settlement.PayOut` | crates/qfc-ai-coordinator/src/settlement.rs:352-382 | one credit per worker with a non-zero share, in worker order, and no other |
| `Settlement.SettleEpoch` | crates/qfc-ai-coordinator/src/settlement.rs:257-421 | settles exactly the consistent inputs, as the order-free definition says, within the pool |
| `Quota.AdmitTakesOneToken` | crates/qfc-ai-coordinator/src/quota.rs:335-423 | an admission takes exactly one token, a rejection none |
| `Quota.RejectionCostsNothing` | crates/qfc-ai-coordinator/src/quota.rs:335-423 | a rejected submission never changes the tokens available at any later time |
| `Quota.HintSuffices` | crates/qfc-ai-coordinator/src/quota.rs:380-389 | waiting the returned hint is always enough |
| `Quota.HintIsLeast` | crates/qfc-ai-coordinator/src/quota.rs:380-389 | and no shorter wait is |
| `Quota.WindowHintSuffices` | crates/qfc-ai-coordinator/src/quota.rs:401-421 | a refusal for want of budget says when the window is over |
| `Quota.BucketConserves` | crates/qfc-ai-coordinator/src/quota.rs:335-423 | over any run admissions plus what is left never exceed what there was plus what flowed in |
| `Quota.BurstPlusRate` | crates/qfc-ai-coordinator/src/quota.rs:335-423 | admissions in any interval are at most the burst plus the rate times its length |
| `Quota.WindowStaysInBudget` | crates/qfc-ai-coordinator/src/quota.rs:373-421 | over any run the FLOPs admitted in each window stay within any budget below 2^64-1 |
| `Quota.TopBudgetNeverRefuses` | crates/qfc-ai-coordinator/src/quota.rs:401-421 | a budget of 2^64-1 never refuses |
| `Quota.TopBudgetOverruns` | crates/qfc-ai-coordinator/src/quota.rs:401-421 | so two submissions of 2^64-1 FLOPs are admitted in one window |
| `Quota.BudgetHoldsIff` | crates/qfc-ai-coordinator/src/quota.rs:373-421 | the budget holds in every window of every run if and only if it is below 2^64-1 |
| `Quota.QuotaEnforcer.Prepare` | crates/qfc-ai-coordinator/src/quota.rs:360-378 | the state a submission finds: bucket refilled, elapsed window restarted |
| `Quota.QuotaEnforcer.Check` | crates/qfc-ai-coordinator/src/quota.rs:380-422 | the checks in order, and the charge only when all pass |
| `Quota.QuotaEnforcer.AdmitTask` | crates/qfc-ai-coordinator/src/quota.rs:335-423 | decides as the pure admission and leaves other tenants alone |
| `Quota.AdmittedIff` | crates/qfc-ai-coordinator/src/quota.rs:335-423 | admitted is exactly what finds room in the queue, a token, fewer tasks in flight than the limit, and budget left in the window |
| `Quota.InFlightStaysLimited` | crates/qfc-ai-coordinator/src/quota.rs:335-444 | over any run that starts only what was admitted, a tenant never has more tasks in flight than its limit |
| `Quota.QuotaEnforcer.TaskStarted` | crates/qfc-ai-coordinator/src/quota.rs:426-436 | counts one task in flight |
| `Quota.QuotaEnforcer.TaskFinished` | crates/qfc-ai-coordinator/src/quota.rs:440-444 | counts one task out |
| `CostMeter.TableSnoc` | crates/qfc-ai-coordinator/src/cost.rs:141-160 | recording a charge in a per-party table |
| `CostMeter.BooksBalance` | crates/qfc-ai-coordinator/src/cost.rs:141-160 | by tenant or by miner, the entries add up to the cost of all completed tasks |
| `CostMeter.IntervalsAddUp` | crates/qfc-ai-coordinator/src/cost.rs:186-221 | the interval totals of all reports add up to the cumulative cost |
| `CostMeter.Lines` | crates/qfc-ai-coordinator/src/cost.rs:187-205 | one line per party of the interval, costliest first |
| `CostMeter.CostMeter.Record` | crates/qfc-ai-coordinator/src/cost.rs:141-160 | all four tables and both totals stay those of the recorded charges |
| `CostMeter.CostMeter.TenantTotal` | crates/qfc-ai-coordinator/src/cost.rs:168-173 | exactly the cost of the tenant's charges |
| `CostMeter.CostMeter.MinerTotal` | crates/qfc-ai-coordinator/src/cost.rs:176-181 | exactly the cost of the miner's charges |
| `CostMeter.CostMeter.GenerateReport` | crates/qfc-ai-coordinator/src/cost.rs:186-221 | reports exactly the interval and starts the next |
| `RoundRobin.Choose` | crates/qfc-ai-coordinator/src/task_pool.rs:257-270 | the smallest tenant beyond the cursor, or else the smallest |
| `RoundRobin.CursorMovesNearer` | crates/qfc-ai-coordinator/src/task_pool.rs:257-270 | while a tenant waits the cursor only moves nearer to it |
| `RoundRobin.NobodyTwiceWhileWaiting` | crates/qfc-ai-coordinator/src/task_pool.rs:218-308 | no tenant is served twice while another with matching work throughout waits |
| `RoundRobin.ServedWithin` | crates/qfc-ai-coordinator/src/task_pool.rs:218-308 | with k tenants in play, one with matching work throughout is served within k fetches |
| `TaskPool.NobodyStarves` | crates/qfc-ai-coordinator/src/task_pool.rs:218-308 | over any run of fetches, whatever happens in between, a tenant with a candidate at the highest priority each time is handed work within as many fetches as there are tenants |
| `TaskPool.Collect` | crates/qfc-ai-coordinator/src/task_pool.rs:224-248 | exactly the matching tasks, in queue order |
| `TaskPool.Select` | crates/qfc-ai-coordinator/src/task_pool.rs:253-278 | highest priority, then turn, then highest fee, the latest among equals |
| `TaskPool.MatchesIff` | crates/qfc-ai-coordinator/src/task_pool.rs:228-230 | a miner can be handed exactly the tasks that ask for no higher tier and no more memory than it has |
| `TaskPool.PriorityIs` | crates/qfc-ai-coordinator/src/quota.rs:324-329 | priorities above two count as two |
| `TaskPool.Unsubmitted` | crates/qfc-ai-coordinator/src/task_pool.rs:239-245 | a task nobody submitted has the zero tenant and no fee; without quotas every tenant has priority one |
| `TaskPool.TaskPool.constructor` | crates/qfc-ai-coordinator/src/task_pool.rs:134-153 | a new pool is empty |
| `TaskPool.TaskPool.SetQuotaConfig` | crates/qfc-ai-coordinator/src/task_pool.rs:155-157 | changing quotas leaves queue, open tasks and counters in agreement |
| `TaskPool.TaskPool.SubmitTask` | crates/qfc-ai-coordinator/src/task_pool.rs:175-177 | queues one task |
| `TaskPool.TaskPool.SubmitPublicTask` | crates/qfc-ai-coordinator/src/task_pool.rs:360-387 | queues, opens and counts a paid task; counters stay equal to open tasks |
| `TaskPool.TaskPool.TrySubmitPublicTask` | crates/qfc-ai-coordinator/src/task_pool.rs:338-356 | a rejected submission leaves queue and open tasks as they were; an accepted one leaves the submitter within its limit of open tasks |
| `TaskPool.TaskPool.FetchTaskFor` | crates/qfc-ai-coordinator/src/task_pool.rs:218-308 | hands out exactly the fair choice and assigns it: a task whose tier and memory the miner has, with no queued task it could run of a higher priority; nothing is queued twice or both queued and assigned |
| `TaskPool.TaskPool.CompletePublicTask` | crates/qfc-ai-coordinator/src/task_pool.rs:436-469 | closes an open task and charges it exactly once |
| `TaskPool.TaskPool.TakeBack` | crates/qfc-ai-coordinator/src/task_pool.rs:499-509 | takes one assignment back, queueing its task unless overdue |
| `TaskPool.TaskPool.ReassignStaleTasks` | crates/qfc-ai-coordinator/src/task_pool.rs:488-513 | exactly the assignments of 30 seconds or more are taken back, and exactly those before their deadline queued again |
| `TaskPool.TaskPool.PruneExpired` | crates/qfc-ai-coordinator/src/task_pool.rs:326-329 | keeps exactly the tasks before their deadline |
| `TaskPool.TaskPool.Expire` | crates/qfc-ai-coordinator/src/task_pool.rs:529-546 | closes an overdue task without charging anybody |
| `TaskPool.TaskPool.PruneExpiredPublic` | crates/qfc-ai-coordinator/src/task_pool.rs:517-549 | closes and returns exactly the overdue tasks |
| `TaskPool.TaskPool.GenerateCostReport` | crates/qfc-ai-coordinator/src/task_pool.rs:574-578 | reports without changing the books |
| `TaskPool.BooksAreComplete` | crates/qfc-ai-coordinator/src/task_pool.rs:436-469 | tenant totals, miner totals and report intervals each add up to the cost of exactly the completed tasks |
| `TaskPool.CountStart` | crates/qfc-ai-coordinator/src/quota.rs:426-436 | starting a task keeps every in-flight counter equal to the open tasks |
| `TaskPool.CountFinish` | crates/qfc-ai-coordinator/src/quota.rs:440-444 | finishing a task does too |
| `Rotation.Distribute` | crates/qfc-ai-coordinator/src/training.rs:609-618 | fills each worker's list with exactly its shards |
| `Rotation.ShardHasOneWorker` | crates/qfc-ai-coordinator/src/training.rs:609-618 | each shard is in exactly one worker's list |
| `Rotation.LoadIs` | crates/qfc-ai-coordinator/src/training.rs:609-618 | a worker's load is the full rounds plus at most one |
| `Rotation.LoadsAreBalanced` | crates/qfc-ai-coordinator/src/training.rs:609-618 | loads differ by at most one |
| `Rotation.FullRotation` | crates/qfc-ai-coordinator/src/training.rs:609-618 | over n consecutive epochs a worker trains each shard in exactly one |
| `Training.ChecksTiling` | crates/qfc-ai-coordinator/src/training.rs:290-332 | accepts exactly the sorted contiguous covers |
| `Training.EachParameterOnce` | crates/qfc-ai-coordinator/src/training.rs:290-332 | in such a cover every parameter belongs to exactly one range |
| `Training.Validate` | crates/qfc-ai-coordinator/src/training.rs:189-345 | accepts exactly the valid specifications |
| `Training.FloorIsExact` | crates/qfc-ai-coordinator/src/training.rs:363-367 | for a validated specification the stake floor is the exact product |
| `Training.MinerRegistry.Register` | crates/qfc-ai-coordinator/src/assignment.rs:69-79 | one entry per address, the latest |
| `Training.SelectWorkers` | crates/qfc-ai-coordinator/src/training.rs:570-588 | the smallest eligible addresses up to the cap, in order: only miners seen within a minute, of the job's backend, tier and memory and with the stake floor, and all of them while there is room |
| `Training.EligibleFits` | crates/qfc-ai-coordinator/src/training.rs:570-581 | who is eligible: seen within a minute, of the job's backend, tier and memory, and with the stake floor |
| `Training.WorkersCanServe` | crates/qfc-ai-coordinator/src/training.rs:189-345 | whoever is eligible for a validated job has the memory for its parameters and a stake that covers an epoch's slashes |
| `Training.SelectionIsUnique` | crates/qfc-ai-coordinator/src/training.rs:570-588 | the selection depends on the eligible set alone |
| `Training.SelectionIgnoresOrder` | crates/qfc-ai-coordinator/src/assignment.rs:69-79 | registration order does not matter |
| `Training.EpochIsCovered` | crates/qfc-ai-coordinator/src/training.rs:609-633 | in an assigned epoch every shard has exactly one worker and loads differ by at most one |
| `Training.TrainingPool.Submit` | crates/qfc-ai-coordinator/src/training.rs:494-513 | accepts exactly valid new jobs while there is room |
| `Training.TrainingPool.AssignEpoch` | crates/qfc-ai-coordinator/src/training.rs:532-637 | assigns exactly the next epoch or suspends; epochs of a job are assigned 0, 1, 2, … without gaps or repeats |
| `Training.TrainingPool.CompleteJob` | crates/qfc-ai-coordinator/src/training.rs:642-668 | completes only a running job with all epochs assigned |
| `Training.TrainingPool.FailJob` | crates/qfc-ai-coordinator/src/training.rs:673-697 | fails only a job that is not terminal |
| `Agents.WithinMeans` | crates/qfc-executor/src/agent.rs:349-358 | a permission of a key within the agent's mask is a permission of the agent |
| `Agents.WithinIff` | crates/qfc-executor/src/agent.rs:349-358 | a key is within an agent's mask if and only if every permission of the key is one of the agent |
| `Agents.RefreshKeepsBooks` | crates/qfc-executor/src/agent.rs:238-242 | starting a new day keeps the books |
| `Agents.SpendKeepsBooks` | crates/qfc-executor/src/agent.rs:205-295 | recording an allowed spend keeps the books without saturation |
| `Agents.RunKeepsBooks` | crates/qfc-executor/src/agent.rs:205-295 | over any run the deposit is funding less spends and no window of a limited agent exceeds the daily limit |
| `Agents.EveryDayWithinLimit` | crates/qfc-executor/src/agent.rs:205-295 | over any run with times that do not go back, no calendar day exceeds the daily limit once the counter starts at midnight |
| `Agents.StraddledDayOverspends` | crates/qfc-executor/src/agent.rs:238-242 | a counter that starts off midnight lets one calendar day hold twice the limit |
| `Agents.DailyLimitIsDailyIff` | crates/qfc-executor/src/agent.rs:205-295 | so the daily limit holds per calendar day if and only if the counter starts at midnight |
| `Agents.AllowedIff` | crates/qfc-executor/src/agent.rs:205-265 | allowed is exactly what an active agent has the permission bit for, within its limit per transaction, its daily limit and its deposit |
| `Agents.SpendsWithinLimit` | crates/qfc-executor/src/agent.rs:205-295 | over any run no recorded spend exceeds the limit per transaction |
| `Agents.NothingWithoutPermission` | crates/qfc-executor/src/agent.rs:205-295 | over any run an agent that is not active, or is only asked for what it has no permission for, spends nothing |
| `Agents.SpentCounts` | crates/qfc-executor/src/agent.rs:268-295 | a spend is counted once in the nonce and in the day's total, which starts afresh after a day |
| `Agents.AgentGuard.RegisterAgent` | crates/qfc-executor/src/agent.rs:188-191 | opens the books of an agent at its deposit |
| `Agents.AgentGuard.CheckPermission` | crates/qfc-executor/src/agent.rs:205-265 | refuses exactly as the ordered checks say and spends nothing |
| `Agents.AgentGuard.RecordSpend` | crates/qfc-executor/src/agent.rs:268-295 | records any spend, saturating; the books keep exactly while what is recorded is covered by limit and deposit, as what passed the check is |
| `Agents.AgentGuard.RevokeAgent` | crates/qfc-executor/src/agent.rs:298-317 | deactivates the agent and revokes every key it has |
| `Agents.AgentGuard.IssueSessionKey` | crates/qfc-executor/src/agent.rs:322-414 | issues exactly when the checks pass, under a used address too; keys stay indexed and every nonce is used at most once per issue of a key |
| `Agents.AgentGuard.RotateSessionKey` | crates/qfc-executor/src/agent.rs:417-445 | revokes the old key and passes on its powers; under the old address the new key takes its place |
| `Agents.AgentGuard.RevokeSessionKey` | crates/qfc-executor/src/agent.rs:448-457 | revokes one key |
| `Agents.AgentGuard.IncrementSessionKeyNonce` | crates/qfc-executor/src/agent.rs:493-504 | a use moves the nonce past the one used; an unknown key is an error |
| `Agents.AgentGuard.PruneSessionKeys` | crates/qfc-executor/src/agent.rs:531-554 | forgets exactly the keys no longer valid |
| `Agents.AgentGuard.ValidateAgentOperation` | crates/qfc-executor/src/agent.rs:558-594 | allows exactly what key, key limits and agent limits all allow |
| `Agents.KeyAllowsIff` | crates/qfc-executor/src/agent.rs:558-594 | a key allows exactly what its mask, if any, has the bit for, within its limit, if any |
| `Agents.AgentGuard.CountActive` | crates/qfc-executor/src/agent.rs:367-381 | counts the valid keys |
| `Agents.IssuedIff` | crates/qfc-executor/src/agent.rs:322-381 | a key is issued exactly to an active agent, for at most a week, within its mask and limit and with fewer than ten valid keys |
| `Agents.RepeatMeansReissue` | crates/qfc-executor/src/agent.rs:460-504 | a nonce of a key address is used again only if the address was issued at least twice |
| `Agents.RepeatsIff` | crates/qfc-executor/src/agent.rs:322-504 | a nonce of an address repeats if and only if the address was used under two issues of it |
| `Agents.IssuedOnceNeverRepeats` | crates/qfc-executor/src/agent.rs:460-504 | an address issued at most once uses each nonce at most once |
| `Agents.ReissueRepeatsIff` | crates/qfc-executor/src/agent.rs:322-414 | before the call: issuing an address again makes its next use repeat a nonce if and only if it was used before |
| `Agents.ReissuedKeyRepeats` | crates/qfc-executor/src/agent.rs:322-504 | issue, use, issue and use of one address goes through and uses nonce zero twice |
| `UserOps.EntryPoint.ExecuteUserOp` | crates/qfc-executor/src/account_abstraction.rs:255-302 | executes exactly what validates; each wallet's nonces are executed once each without gaps; the paymaster's deposit is what was added less what was charged |
| `UserOps.ExecutedIff` | crates/qfc-executor/src/account_abstraction.rs:184-302 | executed is exactly what has the wallet's next nonce, gas and fee, a signature, and a sponsor, if any, that is approved and can pay the most it can cost |
| `UserOps.ReasonsInOrder` | crates/qfc-executor/src/account_abstraction.rs:184-232 | which reason a refusal gives: nonce before content before signature before sponsor |
| `UserOps.EntryPoint.AddPaymasterDeposit` | crates/qfc-executor/src/account_abstraction.rs:305-321 | adds to the deposit and approves |
| `UserOps.EntryPoint.StakePaymaster` | crates/qfc-executor/src/account_abstraction.rs:329-348 | approves and adds to the stake without depositing; the delay runs anew |
| `UserOps.RunNext` | crates/qfc-executor/src/account_abstraction.rs:283-285 | executing the next nonce keeps each (wallet, nonce) executed once |
| `UserOps.AddAgrees` | crates/qfc-executor/src/account_abstraction.rs:395-432 | adding keeps the per-sender index and the table in agreement |
| `UserOps.RemoveAgrees` | crates/qfc-executor/src/account_abstraction.rs:435-447 | so does removing |
| `UserOps.UserOpPool.Add` | crates/qfc-executor/src/account_abstraction.rs:395-432 | adds within the limits, never a duplicate |
| `UserOps.UserOpPool.Remove` | crates/qfc-executor/src/account_abstraction.rs:435-447 | removes from table and index |
| `UserOps.UserOpPool.GetPending` | crates/qfc-executor/src/account_abstraction.rs:450-452 | up to that many pooled operations |
| `UserOps.UserOpPool.PruneExpired` | crates/qfc-executor/src/account_abstraction.rs:473-490 | removes exactly the expired operations |
| `AgentOps.AgentAA.constructor` | crates/qfc-executor/src/agent_aa.rs:47-60 | starts with the agents' paymaster approved |
| `AgentOps.AgentAA.RegisterAgent` | crates/qfc-executor/src/agent_aa.rs:63-74 | puts the agent's deposit behind the paymaster |
| `AgentOps.AgentAA.SubmitAgentUserOp` | crates/qfc-executor/src/agent_aa.rs:84-132 | pools, charges and counts together, or spends nothing and keeps the nonce; what is pooled carries the session key's nonce and signature and an approved sponsor |
| `AgentOps.AgentAA.ExecutePendingOps` | crates/qfc-executor/src/agent_aa.rs:135-169 | each tried operation is answered and executed as the entry point stands by then, and leaves the pool either way |
| `AgentOps.AgentAA.FundAgentPaymaster` | crates/qfc-executor/src/agent_aa.rs:172-192 | tops up agent and paymaster alike |
| `Bytes.BigEndianOrders` | crates/qfc-ai-coordinator/src/chain_store.rs:62-70 | big-endian keys of one width order as their numbers |
| `Bytes.PrefixDecides` | crates/qfc-ai-coordinator/src/chain_store.rs:104-128 | keys under one prefix sort as what follows it |
| `CommitStore.RowKeyOrders` | crates/qfc-ai-coordinator/src/chain_store.rs:62-70 | row keys tell (job, epoch) pairs apart and order a job's epochs |
| `CommitStore.TrainingChainStore.PutCommit` | crates/qfc-ai-coordinator/src/chain_store.rs:71-79 | the store agrees with a plain map |
| `CommitStore.TrainingChainStore.GetCommit` | crates/qfc-ai-coordinator/src/chain_store.rs:82-100 | reads what was last put |
| `CommitStore.TrainingChainStore.CommitsForJob` | crates/qfc-ai-coordinator/src/chain_store.rs:104-128 | exactly the commits last put for the job, in ascending epoch order |
| `Checkpoints.CheckpointStore.CreateCheckpoint` | crates/qfc-consensus/src/engine.rs:864-940 | writes the checkpoint and drops only the oldest beyond 64 |
| `Checkpoints.CheckpointStore.LoadLatestCheckpoint` | crates/qfc-consensus/src/engine.rs:969-1020 | the highest usable epoch kept |
| `Checkpoints.RetentionIsBounded` | crates/qfc-consensus/src/engine.rs:887-932 | over any run of writes at most 64 are retained, the last written among them |
| `Checkpoints.NewestAreRetained` | crates/qfc-consensus/src/engine.rs:887-932 | with epochs that never decrease exactly the newest 64 are retained |

## Left out

- ChainNode.Chain.StoreProducedBlock: requires that the produced block does not collide in hash with a stored one, which is what a collision-resistant hash gives.
- Agreement.Convergence: same assumption, that no two different blocks offered to the node share a hash; the columns of pending undelegations may differ at the end.
- ExecutorRules.ReproducesIff: its other direction is for blocks without transactions; with them it is false (ExecutorRules.OtherReturnsSameRoot). It assumes that a state root commits to one set of accounts.
- Votes.Engine.CheckFinality: the threshold and the share are exact numbers; 64-bit floating point rounding is not modelled.
- VoteNet.NoTwoFinalBlocks: signatures are checked before votes reach the engine, so delivered votes are votes somebody signed; that an import keeps what is finalized canonical is ForkChoice.FinalityIsPermanent.
- VoteHandlers.SyncManager.CastVote: reading canonicity and recording the vote are one step, and the vote accepts, since a canonical block was validated at import.
- VoteRuns.SafeRuleIff: the rules it ranges over decide by the finalized height and the height of the vote, and let a node vote above what it has finalized.
- Execution.RunConserves: 256-bit sums and products that overflow stop the program; the model computes them exactly and bounds the total instead.
- Execution.BlockAddsItsReward: asks for room below 2^256 for what one block adds, and totals what reads see; Blocks.CommittedTotal is about what is committed.
- Executor.ExecuteAt: asks that accounts and pending undelegations together stay below 2^256, so that returning them does not saturate.
- Executor.ExecuteEvm: the virtual machine is any step that conserves the balances it touches and uses no more than the gas limit; contract storage is not modelled.
- AccountStore.StateDb.GetAccount: reads do not fill the cache, which changes nothing they see, and the class does not evict; AccountStore.EvictionIsHarmlessIff says what eviction would change.
- Settlement.SettleEpoch: the spot-check rate arrives as basis points; its conversion from floating point is a parameter.
- Quota.HintSuffices: the hint is not cut to 64 bits, and the bucket is exact rather than floating point.
- Rotation.Distribute: shard index plus epoch does not wrap at 64 bits.
- Training.Validate: the data manifest's own validation is one flag, and the aggregation rule's minimum number of workers is a number.
- TaskPool.TaskPool.FetchTaskFor: tasks marked for redundant assignment are not modelled, nor is the index from input hashes to tasks.
- Agents.AgentGuard.RegisterAgent: replacing a record starts new books, so limits and deposits are accounted from the last registration on.
- AgentOps.AgentAA.FundAgentPaymaster: deposits do not overflow 128 bits.
- Hashing, Ed25519, VRF and Merkle tries: foreign primitives, used as functions.
- qfc-bridge: its withdrawal states are set without being read, so the code decides no lifecycle.
- Governance, treasury, challenge, proof pool, router, registry and verification modules: node-local proposal tallies, buffers and spot checks; none of them decides whether a block is valid, what an account holds or which task a fetch hands out.
- Redundant execution: ties are broken by hash-map order, so its result is not determined.
- Scoring and latency averages: floating-point observations that feed no consensus decision.
- Networking, RPC, storage engine, configuration, genesis parsing, locks and logging.
