# Trusted-node chain syncer and note commitment subtree records, in Dafny

This project models two pieces of Zebra, a Zcash node:

- **The RPC syncer's control loop** (`sync_from_rpc` and the free function
  `wait_for_new_blocks` in `zebra-rpc/src/sync.rs`). It mirrors a trusted
  node's non-finalized best chain. An outer loop polls `getbestblockhash`
  until the node's best hash differs from the local tip. It then binds a
  `SyncPosition`, and an inner loop fetches blocks with `getblock`. Each
  block is committed to a `NonFinalizedState`, the store is drained past
  `MAX_BLOCK_REORG_HEIGHT`, and each new state is sent on a watch channel.
  A missing block, or one that does not extend the current tip, resets the
  store.
- **The note commitment subtree records** (`zebra-chain/src/subtree.rs`).
  These are the subtree index (a `u16`) with its conversions from `u16` and
  `u64`, the subtree root, and the index-less data record used as a
  database value.

Files and modules:

- `wrappers.dfy` (`Wrappers`): `Option` and `Result`.
- `chain.dfy` (`Chain`): `Height` (a `u32`), `Hash` (32 bytes), and the
  parts of a `Block` the syncer reads.
- `subtree.dfy` (`Subtree`): the subtree records as datatypes and
  functions, with round-trip lemmas.
- `non_finalized.dfy` (`NonFinalized`): the store, abstracted. It keeps
  only its best chain, as blocks above the finalized tip, oldest first.
  `finalize()` drops the oldest block. Commits are atomic: on failure the
  store is unchanged. The store's own validation verdict is an input
  (`accepted`).
- `sync.dfy` (`Sync`): the syncer as functions over values: one poll, the
  wait loop, one catch-up iteration, the catch-up loop and the whole of
  `sync_from_rpc`. `WaitForNewBlocks` is the source's polling loop as a
  method.
- `sync_properties.dfy` (`SyncProperties`): lemmas about those functions.
- `sync_task.dfy` (`SyncTask`): the class `RpcSyncer`. It holds the store,
  the bound position and the channel's log. Its methods for the send, the
  drain, one catch-up iteration, the catch-up loop and `sync_from_rpc` run
  in place and are each proved equal to the matching function of `Sync`
  or `NonFinalized`. Whether the channel has a receiver is fixed when the
  syncer is constructed.
- `fetch_height.dfy` (`FetchHeight`): the height the catch-up loop
  requests (see Findings).

The node and the database are nondeterministic, so they are scripted
inputs. Each round of the wait loop reads one `Poll`: the
`getbestblockhash` answer (absent on an RPC error) and what the
database's `tip()` returns. Each catch-up iteration reads one `Fetch`:
the decoded `getblock` answer (absent on any failure), the database's
`finalized_tip_hash()`, and whether the store accepts the block. A
publish appends to a log, but only while a receiver is alive. The
catch-up loop's calls that change or fetch state are recorded as a `Call`
trace: `getblock`, the reset, the two commits, `finalize()` and `send`.
The reads `getbestblockhash`, `best_tip()`, `best_chain_len()` and
`finalized_tip_hash()` are not recorded. The source loops forever. The
model stops when its script runs out.

Where the code differs from what its own comments or the method version
of `wait_for_new_blocks` suggest, the model follows the code:

- **Failed `getbestblockhash` call.** The method
  `TrustedChainSync::wait_for_new_blocks` sleeps and retries on a failed
  call (sync.rs:63-67). The free `wait_for_new_blocks` that
  `sync_from_rpc` uses applies `?` instead (sync.rs:324-326), so a failed
  call ends `sync_from_rpc` with an error.
- **After a reset.** The comments at sync.rs:230-231 and 239-241 say the
  syncer will "re-fetch every block past the finalized tip". The position
  is not recomputed, though: the inner loop asks for the same height again
  and compares against the same hash (sync.rs:215-219, 246).
- **Requested height.** The comment at sync.rs:239 calls the fetched block
  "the next block", but the block requested is the one at
  `current_tip_height`, not the one above it (sync.rs:228).

## Model

| member | source | states |
|---|---|---|
| `Subtree.IndexFromU16` | zebra-chain/src/subtree.rs:17-21 | the index made from a `u16` holds that value unchanged |
| `Subtree.IndexTryFromU64` | zebra-chain/src/subtree.rs:23-29 | conversion from `u64` succeeds exactly when the value is at most 65535, and then the index holds that value |
| `Subtree.TryFromU64Rejects` | zebra-chain/src/subtree.rs:26-28 | every `u64` from 65536 up gives `TryFromIntError` |
| `Subtree.TryFromU64OfU16` | zebra-chain/src/subtree.rs:17-29 | widening a `u16` to `u64` and converting back gives the same index as `From<u16>` |
| `Subtree.IndexFromU16RoundTrip` | zebra-chain/src/subtree.rs:15-21 | `From<u16>` and reading `.0` are inverse in both directions |
| `Subtree.IntoIndex` | zebra-chain/src/subtree.rs:45-46 | `impl Into<NoteCommitmentSubtreeIndex>` keeps an index as it is and wraps a `u16` unchanged |
| `Subtree.NewSubtree` | zebra-chain/src/subtree.rs:45-48 | `NoteCommitmentSubtree::new` stores exactly the converted index, the end height and the node |
| `Subtree.NewData` | zebra-chain/src/subtree.rs:69-71 | `NoteCommitmentSubtreeData::new` stores exactly the end height and the node |
| `Subtree.IntoData` | zebra-chain/src/subtree.rs:51-53 | `into_data` keeps the end height and the node and drops the index |
| `Subtree.WithIndex` | zebra-chain/src/subtree.rs:74-79 | `with_index` gives a subtree with the converted index and the data's end height and node |
| `Subtree.WithIndexIntoData` | zebra-chain/src/subtree.rs:51-79 | `d.with_index(i).into_data() == d` for every data record and index |
| `Subtree.IntoDataWithIndex` | zebra-chain/src/subtree.rs:45-79 | `s.into_data().with_index(s.index) == s` for every subtree, whether the index is passed as an index or as its `u16` |
| `NonFinalized.New` | zebra-rpc/src/sync.rs:211 | a fresh store has no best tip and no best chain, and satisfies the store invariant |
| `NonFinalized.BestTip` | zebra-rpc/src/sync.rs:328 | the best tip is absent exactly when the best chain is empty, and is otherwise the newest block's height and hash |
| `NonFinalized.BestChainLen` | zebra-rpc/src/sync.rs:274-277 | the best chain length is absent exactly when the chain is empty, and is otherwise its positive number of blocks |
| `NonFinalized.Finalize` | zebra-rpc/src/sync.rs:280 | `finalize()` removes exactly the oldest block and keeps the chain linked |
| `NonFinalized.CommitNewChain` | zebra-rpc/src/sync.rs:264 | `commit_new_chain` succeeds exactly when the store accepts the block, and then the block alone is the best chain; a failure leaves the error `Invalid` (modelling assumption) |
| `NonFinalized.CommitBlock` | zebra-rpc/src/sync.rs:266 | `commit_block` succeeds exactly when the block is accepted and is the child of the best tip; it then appends the block, keeps the chain linked, and otherwise reports `NoMatchingParent` when the tip is not its parent (modelling assumption) |
| `NonFinalized.DrainPastReorgLimit` | zebra-rpc/src/sync.rs:274-281 | the drain calls `finalize()` exactly `max(0, len - MAX_BLOCK_REORG_HEIGHT)` times, keeps the newest blocks, and ends non-empty and within the limit |
| `NonFinalized.DrainWithinLimitIsIdentity` | zebra-rpc/src/sync.rs:274-281 | a store already within the limit is not drained |
| `Sync.LocalTip` | zebra-rpc/src/sync.rs:328-339 | the local tip is the store's best tip if present, else the database tip, and absent only when both are |
| `Sync.PollOnce` | zebra-rpc/src/sync.rs:324-345 | a round fails exactly when `getbestblockhash` fails; it produces a position exactly when there is a local tip whose hash differs from the node's, and that position carries the tip and the node's hash |
| `Sync.Wait` | zebra-rpc/src/sync.rs:323-346 | the wait loop ends at the first round that does not keep waiting, with that round's outcome; every earlier round kept waiting |
| `Sync.WaitForNewBlocks` | zebra-rpc/src/sync.rs:317-347 | the polling loop returns what `Wait` specifies, and any position it returns has differing hashes |
| `Sync.Commit` | zebra-rpc/src/sync.rs:263-267 | a successful commit makes the block the store's tip; a refused new chain is `Invalid`, and an extension whose parent is not the best tip is `NoMatchingParent` |
| `Sync.CommitCall` | zebra-rpc/src/sync.rs:263-267 | the commit called is `commit_new_chain` exactly when the finalized tip hash is the block's parent, `commit_block` otherwise |
| `Sync.FilterParent` | zebra-rpc/src/sync.rs:242 | the `filter` keeps the fetched block exactly when its parent hash is the current tip hash |
| `Sync.Publish` | zebra-rpc/src/sync.rs:284 | a send appends the current store to the channel's log exactly when a receiver is alive, and changes nothing else |
| `Sync.ResetAndPublish` | zebra-rpc/src/sync.rs:243-247 | a reset empties the store and continues, or aborts with `ChannelClosed` when the send fails |
| `Sync.CatchUpStep` | zebra-rpc/src/sync.rs:227-291 | every iteration first requests the block at `current_tip_height`, never changes whether receivers are alive, and aborts only with `ChannelClosed` when no receiver is alive |
| `Sync.CatchUp` | zebra-rpc/src/sync.rs:221-292 | the catch-up loop reads at most its script, stops early only on catching up or aborting, and aborts only with `ChannelClosed` when no receiver is alive |
| `Sync.SyncFromRpc` | zebra-rpc/src/sync.rs:204-294 | the whole syncer (wait, catch up with the bound position, repeat) never changes whether receivers are alive, and ends with `ChannelClosed` only when no receiver is alive; its other properties are the lemmas below |
| `SyncProperties.PollProducesPositionOnlyOnDivergence` | zebra-rpc/src/sync.rs:341-345 | a position is produced if and only if the local tip exists and its hash differs from the node's; equal hashes or no tip keep waiting |
| `SyncProperties.StoreTipShadowsDatabase` | zebra-rpc/src/sync.rs:328-334 | with a non-empty store the database's answer has no effect on a poll |
| `SyncProperties.ResetOnMissingOrUnlinkedBlock` | zebra-rpc/src/sync.rs:227-247 | a missing block or a parent mismatch empties the store, sends the empty store, makes no commit, and aborts exactly when the send fails |
| `SyncProperties.SecondParentCheckNeverFires` | zebra-rpc/src/sync.rs:242-253 | a block past the `filter` is always committed, never reset: the branch at 250-253 is unreachable |
| `SyncProperties.CommitSucceedsExactly` | zebra-rpc/src/sync.rs:263-267 | a commit succeeds exactly when the store accepts the block and it either starts at the finalized tip or extends the best tip |
| `SyncProperties.CommitKindFollowsFinalizedTip` | zebra-rpc/src/sync.rs:263-267 | `commit_new_chain` is called if and only if the finalized tip hash is the block's parent, `commit_block` if and only if it is not |
| `SyncProperties.FailedCommitChangesNothing` | zebra-rpc/src/sync.rs:269-272 | a refused commit leaves store and log unchanged, makes no reset, finalize or send, and continues |
| `SyncProperties.AcceptedCommitDrainsAndPublishes` | zebra-rpc/src/sync.rs:274-290 | after an accepted commit, `finalize()` runs exactly `max(0, len - limit)` times, the store ends within the limit with the committed block as tip, it is sent (a failed send is ignored), and the loop ends exactly when the block is the node's tip |
| `SyncProperties.CaughtUpExactlyOnNodeTip` | zebra-rpc/src/sync.rs:283-290 | an iteration leaves the loop if and only if it committed a linked block whose hash is the node's tip hash |
| `SyncProperties.StepKeepsInvariant` | zebra-rpc/src/sync.rs:227-290 | an iteration keeps the store, and every snapshot sent, linked and within the reorg limit |
| `SyncProperties.CatchUpFetchesOneHeight` | zebra-rpc/src/sync.rs:215-228 | every block the catch-up loop requests is at the height bound by the outer loop |
| `SyncProperties.CatchUpEndsOnNodeTip` | zebra-rpc/src/sync.rs:283-290 | a catch-up loop that catches up does so on a fetch of a linked block with the node's tip hash whose commit succeeded: the store's tip is then that block |
| `SyncProperties.CatchUpKeepsInvariant` | zebra-rpc/src/sync.rs:221-292 | the catch-up loop keeps the invariant |
| `SyncProperties.CatchUpOnlyAppends` | zebra-rpc/src/sync.rs:245-284 | the channel's log only grows during catch-up |
| `SyncProperties.SyncFromRpcKeepsInvariant` | zebra-rpc/src/sync.rs:204-294 | the whole syncer keeps the invariant and only appends to the log: no snapshot it sends is unlinked or longer than the reorg limit |
| `SyncTask.RpcSyncer.constructor` | zebra-rpc/src/sync.rs:209-211 | the syncer starts with an empty store, an empty log and no position |
| `SyncTask.RpcSyncer.SendSnapshot` | zebra-rpc/src/sync.rs:284 | a send reports whether a receiver is alive and updates the log as `Publish` says |
| `SyncTask.RpcSyncer.Drain` | zebra-rpc/src/sync.rs:274-281 | the in-place drain loop ends with the store and the `finalize()` count `DrainPastReorgLimit` gives |
| `SyncTask.RpcSyncer.CatchUpIteration` | zebra-rpc/src/sync.rs:227-290 | one in-place iteration gives the outcome, calls and new state of `CatchUpStep`, and leaves the position unchanged |
| `SyncTask.RpcSyncer.CatchUpLoop` | zebra-rpc/src/sync.rs:221-292 | the in-place inner loop gives what `CatchUp` gives, leaves the position unchanged, and keeps the store and every sent snapshot linked and within the reorg limit |
| `SyncTask.RpcSyncer.Run` | zebra-rpc/src/sync.rs:204-294 | the in-place outer loop ends with the error and state `SyncFromRpc` gives, keeps the store and every sent snapshot linked and within the reorg limit, and only appends to the log |
| `FetchHeight.Serve` | zebra-rpc/src/sync.rs:227-237 | a node serving a chain answers `getblock` at a height with its block at that height, and with nothing outside the chain |
| `FetchHeight.AsWrittenNeverCatchesUp` | zebra-rpc/src/sync.rs:215-253 | as written, when the local tip starts the node's chain, no number of iterations commits a block or catches up |
| `FetchHeight.AsWrittenCounterexample` | zebra-rpc/src/sync.rs:228 | a node one block ahead of a height-0 tip: three iterations commit nothing, and the store is reset and sent three times |
| `FetchHeight.CatchUpStepAdvancing` | zebra-rpc/src/sync.rs:227-290 | the corrected iteration requests the block above the tip; after a commit the new position is the store's tip, and reaching the node's tip means the store's tip has its hash |
| `FetchHeight.AdvancingStepCommitsNext` | zebra-rpc/src/sync.rs:227-290 | a corrected iteration at block `i` of the node's chain commits block `i + 1` and moves the position onto it |
| `FetchHeight.CatchUpAdvancing` | zebra-rpc/src/sync.rs:221-292 | the corrected loop reaches the node's tip within `k` iterations when the node is `k` blocks ahead, and whenever it reports reaching the tip the store's tip has the node's hash |

## Left out

- RPC transport, JSON and block decoding (`SyncerRpcMethods`,
  `json_result_from_call`, hex and Zcash deserialization): network I/O and
  foreign decoding. Each answer is an input; a failed call or a decoding
  failure is an absent block.
- tokio sleeps, `spawn_blocking`, `tokio::spawn` and the watch channel's
  internals: scheduling and concurrency. A sleep is a round that keeps
  waiting. A `JoinError` from `spawn_blocking`'s `?` (a panicked task) is
  not modelled. A send is an append to a log, guarded by a liveness flag.
- Receivers dropped in the middle of a run: whether a receiver is alive is
  fixed when the syncer is constructed and does not change.
- `TrustedChainSync` (`new`, `spawn`, `sync`, its own `wait_for_new_blocks`,
  `update_channels`) and `init_read_state_with_syncer`: these wire up the
  `ChainTipSender` and `ReadStateService`, which are not part of this
  model. `sync_from_rpc` does not use them. `update_channels` is never
  called.
- `NonFinalizedState`, `ZebraDb` and `ChainTipSender` internals are not
  part of this model. The store keeps one chain, its best chain.
  `commit_new_chain` replaces it with the committed block. `commit_block`
  only extends the best tip. Fork choice between competing chains,
  contextual validation and the finalized blocks `finalize()` returns
  are not modelled. These contracts are assumptions, not facts checked
  against code.
- `NonFinalized.MAX_BLOCK_REORG_HEIGHT` is 99, zebra-state's value. Its
  definition is not part of this model.
- Tracing and logging.
- The `coinbase_height().expect(...)` inside
  `SemanticallyVerifiedBlock::from`: decoding is out of scope. A block's
  height is part of the input.
- Unbounded running: the source loops forever. The model runs until its
  finite script of node and database answers is used up.
- `zebra-chain/src/parameters/network/tests/vectors.rs`: a test comparing
  constant tables with an external crate. It contains no behaviour to
  model.

## Findings

| source | as written | input that shows it | evidently intended | confidence | as-written member | corrected member |
|---|---|---|---|---|---|---|
| zebra-rpc/src/sync.rs:228 | the catch-up loop requests the block at `current_tip_height` and never moves the position inside the loop, so it compares every answer against the same tip hash | local tip: the block at height 0 with hash H0. The node is one block ahead with tip H1. `getblock(0)` returns the local tip block itself, whose parent is not H0, so the store is reset and height 0 is requested again, indefinitely | request `current_tip_height + 1` (the comment at 239-241 calls it "the next block") and make each committed block the new current tip | not executed; proved for every chain starting at the local tip whose first block is not its own parent | `FetchHeight.AsWrittenNeverCatchesUp` | `FetchHeight.CatchUpAdvancing` |

The corrected loop is `FetchHeight.CatchUpStepAdvancing` with
`FetchHeight.CatchUpAdvancing`. After a reset it leaves the catch-up loop
(`Restart`), so that a new position is bound from the emptied store. It
is proved to reach the node's tip in as many iterations as the node is
blocks ahead. The syncer model in `Sync` and `SyncTask` deliberately
keeps the request at `current_tip_height`, because it models the code as
it stands.
