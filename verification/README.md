# Kora: a verified model of the execution client's core

Kora is an execution client: blocks are executed with REVM, become overlay snapshots over
a shared database, and are committed to that database once they are final. A ceremony
between the validators generates the threshold key. This project models the parts of that
system in which several pieces of code have to agree over time, and proves what they
promise for every input, every interleaving and every run.

| file | what it models |
|---|---|
| `Prelude.dfy`, `Codec.dfy` | options and results, finite sets and ordered keys, big-endian integers and self-delimiting readers |
| `StateChanges.dfy` | change sets, their merge, the state they mean, reads through an overlay |
| `Qmdb.dfy` | the partitioned database: batches, generations, commit markers, faults between partitions |
| `Executor.dfy` | block execution with its hooks and errors, receipts and gas, extraction of changes, log numbering |
| `Gas.dfy` | gas estimation, base fee, header checks |
| `SnapshotStore.dfy`, `Ledger.dfy` | the snapshot store and the ledger view as objects with their loops |
| `BlockTree.dfy`, `Persistence.dfy`, `LedgerViews.dfy` | executions and persist tasks as an interleaved state machine; safety, refinement, views, roots |
| `Waiters.dfy` | waiting for a snapshot |
| `Reporter.dfy` | finalization with retries, checkpoints and held-back acknowledgements |
| `Archive.dfy` | the checkpointed block archive |
| `Proposal.dfy` | transactions a proposal must leave out |
| `Dkg.dfy`, `DkgAgreement.dfy`, `DkgConfluence.dfy` | one participant of the key ceremony as an object, agreement, order independence |
| `DkgBarrier.dfy`, `DkgDelivery.dfy`, `DkgSystem.dfy`, `DkgCompletion.dfy` | the ceremony as a distributed system: the ready barrier, what must have arrived, agreement of all participants, what is enough to finish |
| `MessageCodec.dfy` | the wire format of ceremony messages |
| `CommitmentCodec.dfy`, `CanonicalCodec.dfy` | the canonical encoding of state changes, and which byte strings decode without being one |

`dafny verify dfyconfig.toml` checks everything.

## How it is modelled

* Code that updates fields is a class whose methods are proved against a function of the
  old state; the properties are then proved about those functions over whole runs.
* Concurrent code is a state machine. One step is one critical section, and a database
  commit or a message delivery is a step of its own.
* The EVM, hashing, signatures, the secret-sharing mathematics and the length codec are
  functions passed in as parameters. What is assumed of them is a named predicate:
  `Executor.GasHonest`, `Dkg.ConfigOk`, `DkgBarrier.ConfigFor`, `MessageCodec.InnerOk`,
  `DkgSystem.ChecksWith`, `CommitmentCodec.LengthsOk`, `CanonicalCodec.CanonicalLengths`.
* Digests, addresses, keys and words are natural numbers; a digest commits to its parent,
  which appears as a rank or height that falls from child to parent. Counters that
  saturate or truncate in the source (commit numbers, generations, gas sums, fee changes,
  the log count of a message) do so here.
* Clocks, timeouts and I/O errors are choices of the environment: a step may fail, abort
  or never happen.

## Where the code does less than its documentation or callers assume

The lemmas named here give a concrete witness or the exact condition under which the code
is right.

* Merging change sets forgets a destruction when a later update neither destroys nor
  creates the account again (`StateChanges.DestroyThenPay`); merging is right on every
  state exactly for chains that are `ChainSafe` (`StateChanges.ChainMergeIffSafe`). That
  holds if every destroyed account was created in the same block and left no nonzero slot
  (`StateChanges.CleanChainSafe`), and also if no destroyed account is touched again
  (`StateChanges.UntouchedIsSafe`).
* A read of nonce, balance or code hash through an overlay still sees an account the
  overlay destroys, while a commit deletes it (`StateChanges.OverlayReadsApplied`).
* The database keeps the slots of a destroyed account but drops its generation, so a new
  account can find them (`Qmdb.OrphanResurrected`); a commit means the changes exactly when
  no such slot lies under a generation it opens (`Qmdb.CommitAppliesIffNoStale`), and a
  run of commits replays its changes exactly when this never happens
  (`Qmdb.RunReplaysIffNeverStale`).
* Once the commit number is saturated, a commit cut off between partitions passes the
  start-up check; otherwise the check passes exactly if the last attempt that wrote
  anything completed (`Qmdb.ConsistentIffWhole`).
* A persist whose task is lost between its two phases leaves its marks behind. The retry
  then reports that there is nothing to do, and the block is acknowledged without being
  persisted (`Reporter.LostPersistRun`). In every run, every acknowledged block is
  persisted exactly when no acknowledged block is still marked
  (`Reporter.CheckpointSafety`).
* Gas estimation never tries the intrinsic cost itself, so a plain transfer is estimated
  at one unit too many (`Gas.EstimateExactIff`).
* After a full block with an odd gas limit the base fee can rise by more than an eighth
  (`Gas.FullOddBlockRisesMore`); no fee does so, exactly if the limit is even or the block
  is not full (`Gas.RiseBoundIff`).
* The archive comment says that only a put at a boundary syncs; the code syncs on any
  contiguous put past the first boundary, and an in-order run stays below one interval of
  heights at risk exactly if it resumes on an archive that holds heights, does not start
  at height zero, or the interval is one (`Archive.AtRiskBound`).
* A participant remembers message bytes before it checks their sender, so the same bytes
  from another participant make the genuine ones look like a repeat
  (`DkgConfluence.WrongSenderBlocks`). All orders of the same messages end alike exactly
  if every open place that new bytes offer is offered by some bytes whoever sends them
  (`DkgConfluence.ConfluenceIff`).
* Messages that could not be sent are announced to be retried but are dropped from the
  queue. In the system model everything queued is handed to the network, which may lose
  it; a dealer's message that never arrives stops the ceremony for everyone
  (`DkgSystem.LostDealingStopsEveryone`).
* A bundle of 2^32 or more logs is printed with a truncated count
  (`MessageCodec.MessageRoundTripIff`).
* The ancestor walk of the consensus ledger ends silently at a gap and can exclude too
  little (`Proposal.SilentWalkForgets`); it excludes what it should, whatever the missing
  blocks hold, exactly if the walk of the proposal builder, which reports gaps, meets none
  (`Proposal.SilentWalkSafeIff`).
* The decoder of state changes accepts keys in any order and more than once, so one value
  has several byte strings that decode to it (`CanonicalCodec.SwappedAccountsDecode`);
  bytes are the encoding of what they decode to exactly if addresses and slots are in
  strictly increasing order (`CanonicalCodec.DecodedIsEncodingIff`).

## Model

| member | source | states |
|---|---|---|
| StateChanges.MergeInto | crates/storage/qmdb/src/changes.rs:32-40 | the merge loop computes the account-wise merge of two change sets |
| StateChanges.MergeSequentialIffSafe | crates/storage/qmdb/src/changes.rs:71-100 | applying the merge of two change sets equals applying them in turn on every state, if and only if the pair is safe |
| StateChanges.ChainMergeIffSafe | crates/storage/qmdb/src/changes.rs:32-100 | every prefix of a chain of change sets, merged oldest first, means its replay on every state, if and only if the chain is safe |
| StateChanges.DestroyThenPay | crates/storage/qmdb/src/changes.rs:71-100 | a two-block chain that is not safe and reads differently before and after the first block is committed below it |
| StateChanges.CleanChainSafe | crates/storage/qmdb/src/changes.rs:71-100 | chains whose blocks only destroy what they created and leave no nonzero slot behind are safe |
| StateChanges.UntouchedIsSafe | crates/storage/qmdb/src/changes.rs:71-100 | chains in which no block updates an account that an earlier block destroyed are safe, whatever the destroyed accounts held |
| StateChanges.OverlayOnAdvancedBase | crates/storage/overlay/src/overlay.rs:34-137 | a merged overlay shows the same state whichever prefix of its blocks is already in the base |
| StateChanges.OverlayReadsApplied | crates/storage/overlay/src/overlay.rs:48-137 | slot reads through an overlay always agree with the applied state; account reads agree if and only if the overlay does not destroy the account |
| StateChanges.MergedCodeClosed | crates/storage/qmdb/src/changes.rs:71-100 | after a merged commit every live account finds its code, provided updates without code bytes keep the code hash |
| Qmdb.BuildBatches | crates/storage/qmdb/src/store.rs:266-316 | the batches carry out exactly the commit: rows, slots under the right generation with zeros deleted, code by hash |
| Qmdb.QmdbStore.constructor | crates/storage/qmdb/src/store.rs:156-158 | an empty store with sequence number zero and no markers |
| Qmdb.WriteBatch | crates/storage/qmdb/src/store.rs:334-366 | a batch is written operation by operation in order |
| Qmdb.QmdbStore.CommitChanges | crates/storage/qmdb/src/store.rs:334-379 | an empty commit changes nothing; otherwise the partitions are written in order up to the fault, none if the first write fails, and the sequence number advances only on success |
| Qmdb.CommitAppliesIffNoStale | crates/storage/qmdb/src/store.rs:266-379 | a commit whose accounts and storage are written has the meaning of its change set on the visible state, if and only if no stale slot lies under a generation it opens |
| Qmdb.HygieneIffOrphanFree | crates/storage/qmdb/src/store.rs:266-316 | a commit leaves no slot without a live owner, if and only if it destroys no account that has or brings slots |
| Qmdb.RunReplays | crates/storage/qmdb/src/store.rs:373-379 | over any run of commits that orphans nothing the visible state is the replay of the change sets |
| Qmdb.RunReplaysIffNeverStale | crates/storage/qmdb/src/store.rs:266-379 | over any run of commits the visible state is at every point the replay of the change sets so far, if and only if no commit opens a generation over stale slots |
| Qmdb.RetryAfterFault | crates/storage/qmdb/src/store.rs:334-379 | any number of failed attempts at the same changes, wherever each was cut off, and one that succeeds end in the state of one clean commit, also when the changes destroy accounts that have slots |
| Qmdb.OrphanResurrected | crates/storage/qmdb/src/store.rs:266-316 | for any new account and any nonzero value of a slot, written and destroyed in one commit: the value is read again after the account is created anew, while the replay reads zero |
| Qmdb.ConsistentIffWhole | crates/storage/qmdb/src/store.rs:62-93 | after any run of attempts, faults and retries the start-up check of the markers passes, if and only if the last attempt that wrote anything completed or the commit number was already at its maximum then |
| Executor.ExtractChanges | crates/node/executor/src/revm.rs:710-744 | the loop extracts touched accounts with their changed slots |
| Executor.ExtractFaithfulIffCoherent | crates/node/executor/src/revm.rs:710-744 | extraction loses nothing against committing the whole EVM state, if and only if unchanged slots hold what the state below holds |
| Executor.ExecuteTxs | crates/node/executor/src/revm.rs:372-467 | receipt i is that of transaction i with its gas and the running sum, the total stays within the block limit, the block stops early only at the first decodable transaction that does not fit, the changes are the merge of those given and the extracted ones, and every destruction is recorded |
| Executor.BodyIsUnique | crates/node/executor/src/revm.rs:372-467 | these conditions leave one outcome only |
| Executor.Execute | crates/node/executor/src/revm.rs:363-481 | an error of the first hook ends the block before its transactions and a lost state commit before the second hook; otherwise the outcome is that of the transactions on top of the first hook's changes, closed by the changes or the error of the second hook, which sees the receipts |
| Executor.GasSumIsPlain | crates/node/executor/src/revm.rs:408-466 | below the counter's width the saturating running sum is the plain sum and within the limit |
| Executor.StateIsReplay | crates/node/executor/src/revm.rs:448-463 | committing each transaction's EVM state in turn is the replay of the extracted change sets |
| Executor.MergedBlockMeansExecution | crates/node/executor/src/revm.rs:448-463 | the merged change set of a block applied to the parent state gives the state sequential execution left, and hooks that return nothing do not change it |
| Executor.BlockMeansReplay | crates/node/executor/src/revm.rs:369-480 | the changes of a block with hooks are the merge of hook, transactions and hook, and applied to the parent state replay these in turn when the chain is safe; the transactions themselves ran on the parent state |
| Executor.IndexReceipts | crates/node/reporters/src/lib.rs:1121-1171 | log indices count up from zero through the block in receipt order without gaps, each with its data and transaction |
| Executor.IndexKeepsAllLogs | crates/node/reporters/src/lib.rs:1121-1171 | leaving undecodable transactions out of the index loses no log |
| Gas.EstimateGas | crates/node/executor/src/revm.rs:271-303 | succeeds if and only if the upper bound does, always returns a limit that lets the call succeed, and for monotone calls exceeds the least one above 21000 by less than the final search window |
| Gas.HalvedGeneral | crates/node/executor/src/revm.rs:271-303 | the final search window is the initial width divided by the power of two, rounded up |
| Gas.EstimateExactIff | crates/node/executor/src/revm.rs:271-303 | within 2^25 the estimate is the least limit above 21000; it is the least of all if and only if 21000 is not enough |
| Gas.BaseFeeStep | crates/node/executor/src/revm.rs:332-358 | with default parameters a step never truncates, keeps a positive fee positive, falls by at most an eighth and, unless a block with an odd limit is full, rises by at most an eighth or one |
| Gas.BaseFeeMonotone | crates/node/executor/src/revm.rs:332-358 | more gas used never gives a lower next fee |
| Gas.RiseBoundIff | crates/node/executor/src/revm.rs:332-358 | for given gas used and limit every fee rises by at most an eighth or one, if and only if the limit is even or the block is not full |
| Gas.FullOddBlockRisesMore | crates/node/executor/src/revm.rs:332-358 | for every odd limit, a fee that rises by more after a full block |
| Gas.BaseFeeAlongChain | crates/node/executor/src/revm.rs:66-162 | along every chain of headers that pass the checks the fee stays present, positive and above repeated eighths, and numbers and times advance |
| SnapshotStore.InMemorySnapshotStore.constructor | crates/node/consensus/src/components/snapshot.rs:65-73 | an empty store with its retention limit |
| SnapshotStore.InMemorySnapshotStore.Insert | crates/node/consensus/src/components/snapshot.rs:185-187 | stores one snapshot and changes nothing else |
| SnapshotStore.InMemorySnapshotStore.CanPersistChain | crates/node/consensus/src/components/snapshot.rs:104-108 | true if and only if no block of the chain is persisted or in flight |
| SnapshotStore.InMemorySnapshotStore.MarkPersistingChain | crates/node/consensus/src/components/snapshot.rs:111-116 | adds exactly the chain to the in-flight marks |
| SnapshotStore.InMemorySnapshotStore.ClearPersistingChain | crates/node/consensus/src/components/snapshot.rs:119-124 | removes exactly the chain from the in-flight marks |
| SnapshotStore.InMemorySnapshotStore.MarkPersisted | crates/node/consensus/src/components/snapshot.rs:193-201 | marks each digest once, in order |
| SnapshotStore.MarkedIs | crates/node/consensus/src/components/snapshot.rs:193-201 | marking adds exactly the digests to the persisted set and touches no snapshot |
| SnapshotStore.MarkedQueues | crates/node/consensus/src/components/snapshot.rs:193-201 | newly persisted digests queue for eviction in the order they are marked |
| SnapshotStore.InMemorySnapshotStore.EvictPersisted | crates/node/consensus/src/components/snapshot.rs:138-171 | pops the oldest queued digests over the limit and returns how many snapshots went |
| SnapshotStore.EvictedKeeps | crates/node/consensus/src/components/snapshot.rs:138-171 | eviction keeps the newest queue entries, drops no snapshot that is unpersisted or still queued, and changes none |
| SnapshotStore.InMemorySnapshotStore.WalkBack | crates/node/consensus/src/components/snapshot.rs:244-258 | the walk ends, and finds the unpersisted chain or the first missing ancestor |
| SnapshotStore.InMemorySnapshotStore.ChangesForPersist | crates/node/consensus/src/components/snapshot.rs:237-270 | the unpersisted chain oldest first with its changes merged in that order, or the missing ancestor |
| SnapshotStore.InMemorySnapshotStore.MergedChanges | crates/node/consensus/src/components/snapshot.rs:203-235 | the changes of all unpersisted ancestors and then the new ones, merged oldest first, or the missing ancestor |
| Ledger.LedgerView.constructor | crates/node/ledger/src/lib.rs:219-267 | a ledger whose only snapshot is the persisted genesis block over an empty overlay |
| Ledger.LedgerView.InsertSnapshot | crates/node/ledger/src/lib.rs:346-370 | inserts one snapshot and moves the head to it |
| Ledger.LedgerView.BeginPersist | crates/node/ledger/src/lib.rs:464-476 | the first locked phase: missing ancestor, nothing to do, or the chain marked in flight with its merged changes |
| Ledger.LedgerView.FinishPersist | crates/node/ledger/src/lib.rs:478-513 | the second locked phase: marks cleared; after a success every snapshot of the chain compacted, the chain marked and the store evicted; otherwise the error |
| Persistence.UnpersistedIsSegment | crates/node/consensus/src/components/snapshot.rs:237-270 | in every sound store the walk finds exactly the segment of the block tree above the persisted blocks, with the blocks' own changes |
| Persistence.ChainComplete | crates/node/ledger/src/lib.rs:464-470 | a persist of an inserted block never meets a missing ancestor |
| Persistence.FinishStore | crates/node/ledger/src/lib.rs:478-513 | after a successful commit the second phase cannot fail; it compacts the whole chain, marks it and drops only persisted snapshots |
| Persistence.TwoPhaseSafety | crates/node/ledger/src/lib.rs:464-514 | in every interleaving, with failed commits: no block is committed twice, chains in flight are disjoint and are exactly the marks, marked blocks were committed and are closed under ancestors, and lookups do not fail |
| Persistence.TwoPhaseRefinesSimple | crates/node/consensus/src/ledger.rs:176-192 | every run of the two-phase ledger is a run of the one-step ledger over the targets in commit order |
| LedgerViews.ViewsAreExact | crates/node/ledger/src/lib.rs:464-514 | after any run whose commits form one chain of a tree whose paths merge safely, every snapshot at or above the tip and every captured parent shows exactly the fold of all block changes from genesis |
| LedgerViews.ExecutionIsReproducible | crates/node/reporters/src/lib.rs:528-561 | on such trees a deterministic executor run on a captured parent finds the block's own changes, however far the base has moved since |
| LedgerViews.FinalizingIsOneChain | crates/node/reporters/src/lib.rs:600-612 | a ledger that only commits blocks above everything committed before commits a single chain |
| LedgerViews.RootsIgnoreSchedule | crates/node/ledger/src/lib.rs:448-458 | the stored root of a block is the fold of the root transition along its ancestors in every run, so two nodes agree whatever they persisted and when |
| LedgerViews.SameBlockSameView | crates/node/reporters/src/lib.rs:547-561 | on such trees two nodes with different schedules read the same state and the same slots through a snapshot of the same block |
| BlockTree.CleanTreeIsSafe | crates/storage/qmdb/src/changes.rs:71-100 | if every block only destroys what it created and leaves no nonzero slot behind, every path of the tree merges safely |
| Waiters.NoLostWakeUp | crates/node/ledger/src/lib.rs:346-420 | in every interleaving, a sleeping waiter whose snapshot is present gets it after its next three steps, at the latest once an inserter under way notifies |
| Waiters.GivesUpAfterVainLook | crates/node/ledger/src/lib.rs:397-420 | a waiter returns nothing only if its last look found the snapshot absent |
| Reporter.FinalizedReporter.constructor | crates/node/reporters/src/lib.rs:1409-1412 | an interval of zero becomes one |
| Reporter.FinalizedReporter.AcknowledgeCheckpoint | crates/node/reporters/src/lib.rs:348-373 | at a checkpoint all held-back acknowledgements and then this one are released in order; otherwise this one is held back |
| Reporter.FinalizeWithRetry | crates/node/reporters/src/lib.rs:381-468 | the result is that of the first attempt that succeeds, fails for good or is the third |
| Reporter.CheckpointSafety | crates/node/reporters/src/lib.rs:253-373 | in every run, whatever was retried or lost: acknowledgements are released once each in height order, fewer than the interval are pending, the block under way is not acknowledged, every released block is persisted, if and only if no released block is still marked in flight, which holds as long as no persist was lost, and after a permanent failure nothing more is released |
| Reporter.IdlePersistIff | crates/node/ledger/src/lib.rs:464-476 | when a single persist has nothing to do its block is persisted, if and only if no block of its chain is still marked in flight; over whole runs this is `CheckpointSafety` |
| Reporter.LostPersistIsAcknowledged | crates/node/reporters/src/lib.rs:600-612 | from every safe state with attempts left, a persist lost in flight and one retry release a block that is not marked persisted, and that is in the database only if the lost persist had already committed |
| Reporter.LostPersistRun | crates/node/reporters/src/lib.rs:600-612 | a run from genesis that does so |
| Archive.IsContiguousThrough | crates/network/marshal/src/archive.rs:100-128 | the scan is true if and only if every index from the first stored one through the target is stored |
| Archive.CheckpointedArchive.constructor | crates/network/marshal/src/archive.rs:69-72 | nothing is dirty, and an interval of zero becomes one |
| Archive.CheckpointedArchive.Put | crates/network/marshal/src/archive.rs:138-147 | the index is readable and the highest dirty height is the maximum |
| Archive.CheckpointedArchive.Sync | crates/network/marshal/src/archive.rs:187-193 | everything becomes durable and clean when a sync is due, otherwise nothing changes |
| Archive.RunsAreSound | crates/network/marshal/src/archive.rs:69-147 | over any run of puts, syncs and crashes everything above the durable contents is at most the highest dirty height, durable indices stay durable and no put is lost except by a crash |
| Archive.SyncDurableIff | crates/network/marshal/src/archive.rs:79-98 | after a sync everything is durable, if and only if the highest dirty height reached the interval and no index is missing from the first stored one through its boundary |
| Archive.AtRiskBound | crates/network/marshal/src/archive.rs:79-98 | an in-order run on an archive with any number of durable heights in order never has a full interval of heights at risk, if and only if there is such a height, it starts above zero or the interval is one |
| Proposal.CollectPendingTxIds | crates/node/consensus/src/proposal.rs:211-234 | the walk ends with the transactions of exactly the unpersisted ancestors, or names the first missing one |
| Proposal.CollectAncestorTxIds | crates/node/consensus/src/ledger.rs:104-121 | the walk that stops silently at a gap returns the transactions up to it |
| Proposal.WalksAgree | crates/node/consensus/src/ledger.rs:104-121 | both walks exclude the same transactions when the chain has no gap |
| Proposal.SilentWalkExactIff | crates/node/consensus/src/ledger.rs:104-121 | against any store that fills the gaps, the silent walk excludes at most what it should, and exactly that if and only if the blocks it does not reach hold no further transaction; it reaches all exactly when there is no gap |
| Proposal.SilentWalkSafeIff | crates/node/consensus/src/ledger.rs:104-121 | the silent walk excludes exactly what it should for every content of the missing blocks, if and only if the reporting walk meets no gap |
| Proposal.SilentWalkForgets | crates/node/consensus/src/ledger.rs:104-121 | a store in which it forgets a transaction of the missing parent while the other walk reports that parent |
| Proposal.GrownChainsDoNotRepeat | crates/node/consensus/src/proposal.rs:111-153 | along all chains grown from genesis by proposals while persistence advances between collecting and inserting, no transaction occurs twice among unpersisted ancestors and no walk meets a gap |
| Dkg.DkgParticipant.constructor | crates/node/dkg/src/protocol.rs:358-410 | a participant with empty maps, sets and queue |
| Dkg.DkgParticipant.TryProcessDealerMessages | crates/node/dkg/src/protocol.rs:673-706 | an acknowledgement is queued exactly when both messages are there and verify |
| Dkg.DkgParticipant.ReceiveLogs | crates/node/dkg/src/protocol.rs:636-658 | the loop over a bundle skips invalid and known logs and stops when there are enough |
| Dkg.DkgParticipant.HandleMessage | crates/node/dkg/src/protocol.rs:532-670 | the effect and error of each of the seven kinds of message |
| Dkg.DkgParticipant.HandleMessageBytes | crates/node/dkg/src/protocol.rs:490-529 | repeats, undecodable bytes and other sessions are refused, the rest is remembered and handled |
| Dkg.DkgParticipant.StartDealer | crates/node/dkg/src/protocol.rs:431-484 | the public message and the shares of the others are queued, our own are stored and processed |
| Dkg.DkgParticipant.FinalizeDealer | crates/node/dkg/src/protocol.rs:709-735 | the dealer is consumed and its valid log stored and queued |
| Dkg.DkgParticipant.SignalReady | crates/node/dkg/src/protocol.rs:740-753 | the ready signal is queued once |
| Dkg.DkgParticipant.TakeOutgoing | crates/node/dkg/src/protocol.rs:880-882 | the queue is handed out and emptied |
| DkgAgreement.RunKeeps | crates/node/dkg/src/protocol.rs:532-735 | over every run the verified and signed logs have equal keys, all participants, each the opening of the other, and acknowledged dealers have both messages |
| DkgAgreement.FinalizableHasAll | crates/node/dkg/src/protocol.rs:766-768 | a participant may finalize if and only if it has a log of every participant |
| DkgAgreement.Agreement | crates/node/dkg/src/protocol.rs:601-657 | if each dealer signs at most one log, two participants that may finalize hold the identical dealer-to-log map over all participants |
| DkgConfluence.DeliverCells | crates/node/dkg/src/protocol.rs:490-670 | after any delivery the filled places are exactly the earlier ones and those offered by the first envelope with some new bytes, with offered contents, and exactly the admitted bytes are remembered |
| DkgConfluence.FilledIffOffered | crates/node/dkg/src/protocol.rs:490-670 | a place is filled after any delivery, if and only if it was before or the first envelope with some new bytes offers it |
| DkgConfluence.Confluence | crates/node/dkg/src/protocol.rs:490-706 | deliveries of the same envelopes in any order with repeats, with at most one message of each sort per dealer and only steady places, end with the same public, private, log, acknowledgement and ready sets, with at most one acknowledgement queued per dealer |
| DkgConfluence.ConfluenceIff | crates/node/dkg/src/protocol.rs:490-706 | with at most one message of each sort per dealer, all orders of the same envelopes end alike, if and only if every open place is steady: nobody with new bytes offers it, or some new bytes offer it whoever sends them |
| DkgConfluence.FixedSendersAreSteady | crates/node/dkg/src/protocol.rs:490-670 | places are steady when only signed logs and log requests come from more than one sender |
| DkgConfluence.WrongSenderBlocks | crates/node/dkg/src/protocol.rs:490-560 | the same bytes from a wrong sender first keep the genuine message out |
| DkgConfluence.RepeatsAndStrangersIgnored | crates/node/dkg/src/protocol.rs:490-529 | bytes of another session change nothing, and neither do bytes handled before |
| DkgConfluence.FinalizableIffLogsOffered | crates/node/dkg/src/protocol.rs:601-657 | after any delivery the ceremony can be finalized, if and only if a log of every participant was there before or offered by the first envelope with some new bytes |
| DkgBarrier.SharesReachTheirPlayers | crates/node/dkg/src/protocol.rs:431-484 | each share goes to its player and to nobody else, the public message to everyone else |
| DkgBarrier.LogReachesEveryone | crates/node/dkg/src/protocol.rs:709-735 | a finalized dealer keeps its log and sends it to everyone else |
| DkgBarrier.CollectedIsAll | crates/node/dkg/src/ceremony.rs:217-225 | the guard of the collecting phase means an acknowledgement for every participant |
| DkgBarrier.RunKeeps | crates/node/dkg/src/ceremony.rs:122-139 | over every run of the system on any network: ready players have signalled, signals come after acknowledgements on each channel, and channels carry only their sender's messages |
| DkgBarrier.Barrier | crates/node/dkg/src/ceremony.rs:250-316 | on any network, once one dealer has finalized every participant has queued acknowledgements for all dealers |
| DkgDelivery.RunOrder | crates/node/dkg/src/ceremony.rs:411-449 | over reliable channels that keep the order everything seen was received, ready players have told us so and accepted acknowledgements are recorded |
| DkgDelivery.DealerHasAllAcks | crates/node/dkg/src/ceremony.rs:250-316 | over such channels a dealer about to finalize has processed the acknowledgement of every other player |
| DkgSystem.LostDealingStopsEveryone | crates/node/dkg/src/ceremony.rs:195-316 | on any network, in every run in which a participant never receives the private or the public message of another dealer, nobody finalizes |
| DkgSystem.SystemAgreement | crates/node/dkg/src/protocol.rs:601-735 | in every run of the system on any network each stored log is the one its dealer signed, and any two participants that may finalize hold the identical dealer-to-log map over all participants |
| DkgCompletion.ReceivedLogsFinalize | crates/node/dkg/src/ceremony.rs:305-360 | on any network, a participant that has finalized its dealer and received a log of every other dealer, from whomever and in whatever order, may finalize |
| DkgCompletion.LoneParticipantFinalizes | crates/node/dkg/src/ceremony.rs:122-139 | a run that reaches the end: a participant alone starts, signals, finalizes its dealer and may finalize |
| MessageCodec.WriteMessage | crates/node/dkg/src/protocol.rs:167-214 | the buffer is the header, tag and body of the message |
| MessageCodec.ReadLogs | crates/node/dkg/src/protocol.rs:269-281 | the loop reads exactly the counted logs or the first error |
| MessageCodec.MessageRoundTripIff | crates/node/dkg/src/protocol.rs:167-290 | parsing a printed message followed by anything returns it and exactly what follows, for all seven kinds and both formats, if and only if the log count fits 32 bits |
| MessageCodec.PrintIsInjective | crates/node/dkg/src/protocol.rs:167-290 | no printed message is the beginning of another, so the formats are never confused |
| CommitmentCodec.Write | crates/node/domain/src/commitment.rs:106-114 | the loops append the encoding in key order |
| CommitmentCodec.WriteAccount | crates/node/domain/src/commitment.rs:53-68 | flags, fields, slot count and slots in key order are appended |
| CommitmentCodec.ReadAccount | crates/node/domain/src/commitment.rs:83-104 | the decoding of one account, or its first error |
| CommitmentCodec.ReadChanges | crates/node/domain/src/commitment.rs:123-136 | the loop decodes the counted accounts, or its first error |
| CommitmentCodec.SizeIsLength | crates/node/domain/src/commitment.rs:70-124 | the announced size is the length of the encoding for every value |
| CommitmentCodec.ChangesRoundTripIff | crates/node/domain/src/commitment.rs:53-136 | decoding an encoding followed by anything returns the same maps and exactly what follows within the limits, and fails when one is exceeded |
| CommitmentCodec.EncodeIsInjective | crates/node/domain/src/commitment.rs:53-136 | different changes never share an encoding and none is the beginning of another |
| CanonicalCodec.DecodedIsEncodingIff | crates/node/domain/src/commitment.rs:83-136 | bytes that decode are the encoding of their value followed by what is left, if and only if addresses and the slots of each account come in strictly increasing order |
| CanonicalCodec.DecodedFits | crates/node/domain/src/commitment.rs:83-136 | whatever decodes is within widths and limits, and encoding it again decodes to the same changes |
| CanonicalCodec.SwappedAccountsDecode | crates/node/domain/src/commitment.rs:123-136 | any two accounts written in the wrong order decode to the same changes as the encoding, from other bytes |

## Left out

- The trusted-restore fallbacks of finalization (crates/node/reporters/src/lib.rs:571-596) and of verification during catch-up (crates/node/runner/src/app.rs:566, 611, 636 and 663): they mark a block persisted without committing it, so runs are taken without them; a recovered node starts with the restored block in the place of genesis.
- Persisting sibling forks: the ledger invariants cover it, the view theorems assume that commits form one chain.
- A commit is atomic in the ledger machine; what happens when it fails between partitions is in `Qmdb` (`RetryAfterFault`, `ConsistentIffWhole`).
- The parent lookup retries, metrics, mempool pruning and event publication of finalization: they change neither marks nor acknowledgements.
- The interior of the EVM, transaction decoding, trie roots, blooms and transaction hashing are parameters.
- Account contents of the state-root transition are hashed by an uninterpreted function; only its fold along ancestors and the empty case are modelled.
- Widths of storage slots, values and balances in the change sets (256 bits) are not modelled outside the codecs.
- Pruning of the archive and the finalization archive around it.
- Restoring a participant from disk: ceremony properties are for unrestored runs. Timeouts and backoff are aborts that may happen at any time.
- The answer to a log request is not promised: all requests of one session have the same bytes, so a second one is dropped.
- The final secret-sharing computation of `finalize` and its output files.
- The length codec and the codecs of keys, dealer messages, acknowledgements and logs are parameters with their self-delimiting law; what is said about bytes that are not an encoding takes each length to have one encoding.
- Fairness of the network and of timeouts: what holds once messages have arrived is stated, not that they do arrive.
- RPC, transport, configuration, key generation and the command line.
- Persistence.TwoPhaseSafety: the number of persisted snapshots in memory is bounded only through `EvictedKeeps`, because a block may be inserted again after its eviction.
- Waiters.NoLostWakeUp: says which steps bring the snapshot, not that the scheduler takes them; an eviction in between is excluded.
- Proposal.GrownChainsDoNotRepeat: takes from the mempool only that it hands out no excluded transaction; repeats inside one block are not modelled.
- DkgConfluence.Confluence: the order of the outgoing queue and the answers to log requests depend on the delivery order and are not compared.
- DkgConfluence.ConfluenceIff: compares the same parts of the participant as `Confluence`.
- LedgerViews.ExecutionIsReproducible: takes the executor as a function of the applied state; nonce, balance and code-hash reads of an account that the overlay destroys are different (`StateChanges.OverlayReadsApplied`).
