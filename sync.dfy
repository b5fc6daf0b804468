/**
 * The control logic of `sync_from_rpc` (zebra-rpc/src/sync.rs) as functions
 * over values: the wait-for-divergence poll, one iteration of the catch-up
 * loop, the catch-up loop and the whole syncer. The remote node and the
 * finalized database are scripted: each poll of the wait phase reads one
 * `Poll`, each iteration of the catch-up loop reads one `Fetch`. The syncer
 * stops when its script runs out; the source itself loops forever.
 */
module Sync {
  import opened Wrappers
  import opened Chain
  import opened NonFinalized

  /** `SyncPosition`: the local tip the catch-up loop starts from and the
      best block hash the node reported. */
  datatype SyncPosition = SyncPosition(currentTipHeight: Height, currentTipHash: Hash, nodeTipHash: Hash)

  /** The errors that end `sync_from_rpc`: a failed `getbestblockhash` call
      (propagated by `?`) and a send on the non-finalized state channel after
      every receiver was dropped. */
  datatype SyncError = RpcError | ChannelClosed

  /** What one round of the wait loop observes: the answer to
      `getbestblockhash` (absent when the call failed) and what the finalized
      database's `tip()` would return. */
  datatype Poll = Poll(bestBlockHash: Option<Hash>, finalizedTip: Option<Tip>)

  /** What one iteration of the catch-up loop observes: the block returned by
      `getblock` after deserialization (absent when the call or the decoding
      failed), the database's `finalized_tip_hash()`, and whether the store's
      validation accepts the block if it is committed. */
  datatype Fetch = Fetch(block: Option<Block>, finalizedTipHash: Hash, commitAccepted: bool)

  /** The calls one iteration makes on the RPC client, the store and the channel. */
  datatype Call =
    | GetBlock(height: Height)
    | ResetStore
    | CommitNewChainCall(block: Block)
    | CommitBlockCall(block: Block)
    | FinalizeCall
    | Send(snapshot: NonFinalizedState)

  /** The state `sync_from_rpc` keeps: the store, the snapshots the watch
      channel accepted, and whether any receiver is still alive. */
  datatype Syncer = Syncer(store: NonFinalizedState, published: seq<NonFinalizedState>, receiverAlive: bool)

  // ---------------------------------------------------------------------
  // The wait phase: `wait_for_new_blocks`

  /** The local tip a poll compares against: the store's best tip if there is
      one, the finalized database's tip otherwise, and none when both are absent. */
  function LocalTip(store: NonFinalizedState, finalizedTip: Option<Tip>): (r: Option<Tip>)
    ensures BestTip(store).Some? ==> r == BestTip(store)
    ensures BestTip(store).None? && finalizedTip.Some? ==> r == finalizedTip
    ensures r.None? <==> store.bestChain == [] && finalizedTip.None?
  {
    if BestTip(store).Some? then BestTip(store) else finalizedTip
  }

  /** The three ways a round of the wait loop can end. */
  datatype PollOutcome = PollFailed(error: SyncError) | KeepWaiting | NewBlocks(position: SyncPosition)

  /** One round of the wait loop. */
  function PollOnce(store: NonFinalizedState, p: Poll): (r: PollOutcome)
    ensures r.PollFailed? <==> p.bestBlockHash.None?
    ensures r.PollFailed? ==> r.error == RpcError
    ensures r.NewBlocks? <==>
      p.bestBlockHash.Some? && LocalTip(store, p.finalizedTip).Some?
      && p.bestBlockHash.value != LocalTip(store, p.finalizedTip).value.hash
    ensures r.NewBlocks? ==>
      r.position.currentTipHeight == LocalTip(store, p.finalizedTip).value.height
      && r.position.currentTipHash == LocalTip(store, p.finalizedTip).value.hash
      && Some(r.position.nodeTipHash) == p.bestBlockHash
    ensures r.NewBlocks? ==> r.position.nodeTipHash != r.position.currentTipHash
  {
    match p.bestBlockHash
    case None => PollFailed(RpcError)
    case Some(nodeBlockHash) =>
      match LocalTip(store, p.finalizedTip)
      case None => KeepWaiting
      case Some(tip) =>
        if nodeBlockHash != tip.hash then NewBlocks(SyncPosition(tip.height, tip.hash, nodeBlockHash))
        else KeepWaiting
  }

  /** The outcome of the wait loop and how many polls it read. */
  datatype WaitResult = WaitResult(outcome: PollOutcome, used: nat)

  /** The wait loop over a script of polls: the first round that does not
      say "keep waiting" ends it; `KeepWaiting` means the script ran out. */
  function Wait(store: NonFinalizedState, polls: seq<Poll>): (r: WaitResult)
    ensures r.used <= |polls|
    ensures forall j :: 0 <= j < |polls| && j + 1 < r.used ==> PollOnce(store, polls[j]).KeepWaiting?
    ensures r.outcome.KeepWaiting? ==>
      r.used == |polls| && forall j :: 0 <= j < |polls| ==> PollOnce(store, polls[j]).KeepWaiting?
    ensures !r.outcome.KeepWaiting? ==> 0 < r.used && r.outcome == PollOnce(store, polls[r.used - 1])
    decreases |polls|
  {
    if polls == [] then WaitResult(KeepWaiting, 0)
    else
      var first := PollOnce(store, polls[0]);
      if first.KeepWaiting? then
        var rest := Wait(store, polls[1..]);
        WaitResult(rest.outcome, rest.used + 1)
      else
        WaitResult(first, 1)
  }

  /** `wait_for_new_blocks` as the source writes it: a polling loop with
      `continue` when there is no local tip and a sleep when the hashes agree. */
  method WaitForNewBlocks(store: NonFinalizedState, polls: seq<Poll>) returns (r: WaitResult)
    ensures r == Wait(store, polls)
    ensures r.outcome.NewBlocks? ==> r.outcome.position.nodeTipHash != r.outcome.position.currentTipHash
  {
    var i := 0;
    while i < |polls|
      invariant 0 <= i <= |polls|
      invariant forall j :: 0 <= j < i ==> PollOnce(store, polls[j]).KeepWaiting?
      invariant Wait(store, polls).used >= i
    {
      var p := polls[i];
      i := i + 1;
      if p.bestBlockHash.None? {
        return WaitResult(PollFailed(RpcError), i);
      }
      var nodeBlockHash := p.bestBlockHash.value;
      var tip;
      if BestTip(store).Some? {
        tip := BestTip(store).value;
      } else if p.finalizedTip.Some? {
        tip := p.finalizedTip.value;
      } else {
        // No genesis block yet: sleep and poll again.
        continue;
      }
      if nodeBlockHash != tip.hash {
        return WaitResult(NewBlocks(SyncPosition(tip.height, tip.hash, nodeBlockHash)), i);
      }
      // The node has no new blocks: sleep and poll again.
    }
    return WaitResult(KeepWaiting, |polls|);
  }

  // ---------------------------------------------------------------------
  // One iteration of the catch-up loop

  /** `Option::filter` on the fetched block: keeps it only when its header
      names the current tip as its parent. */
  function FilterParent(fetched: Option<Block>, currentTipHash: Hash): (r: Option<Block>)
    ensures r.Some? <==> fetched.Some? && fetched.value.previousBlockHash == currentTipHash
    ensures r.Some? ==> r == fetched
  {
    match fetched
    case Some(b) => if b.previousBlockHash == currentTipHash then Some(b) else None
    case None => None
  }

  /** A send on the watch channel: the snapshot is kept only while some receiver is alive. */
  function Publish(st: Syncer): (r: Syncer)
    ensures r.store == st.store && r.receiverAlive == st.receiverAlive
    ensures r.published == if st.receiverAlive then st.published + [st.store] else st.published
  {
    if st.receiverAlive then st.(published := st.published + [st.store]) else st
  }

  /** How an iteration of the catch-up loop ends: go round again, leave the
      loop because the node's tip was reached, or abort `sync_from_rpc`. */
  datatype StepOutcome = Continue | CaughtUp | Aborted(error: SyncError)

  datatype StepResult = StepResult(outcome: StepOutcome, state: Syncer, calls: seq<Call>)

  /** The reset on a missing or unlinked block: a fresh store, sent with `?`. */
  function ResetAndPublish(st: Syncer, calls: seq<Call>): (r: StepResult)
    ensures r.state.store == New() && r.state.receiverAlive == st.receiverAlive
    ensures r.outcome == if st.receiverAlive then Continue else Aborted(ChannelClosed)
  {
    var reset := Publish(st.(store := New()));
    StepResult(if st.receiverAlive then Continue else Aborted(ChannelClosed), reset, calls + [ResetStore, Send(New())])
  }

  /** The commit the loop makes for a linked block: a new chain when the
      block's parent is the finalized tip, an extension of a chain otherwise.
      The committed block is then the store's tip; a refused new chain is
      `Invalid`, and a block whose parent is not the best tip is
      `NoMatchingParent`. When it succeeds is stated by
      `SyncProperties.CommitSucceedsExactly`. */
  function Commit(store: NonFinalizedState, block: Block, f: Fetch): (r: Result<NonFinalizedState, CommitError>)
    ensures r.Ok? ==> r.value.bestChain != [] && BestTip(r.value) == Some(Tip(block.height, block.hash))
    ensures r.Err? && f.finalizedTipHash == block.previousBlockHash ==> r.error == Invalid
    ensures r.Err? && f.finalizedTipHash != block.previousBlockHash ==>
      (BestTip(store).None? || BestTip(store).value.hash != block.previousBlockHash ==> r.error == NoMatchingParent)
  {
    if f.finalizedTipHash == block.previousBlockHash then CommitNewChain(store, block, f.commitAccepted)
    else CommitBlock(store, block, f.commitAccepted)
  }

  /** The call `Commit` makes. */
  function CommitCall(block: Block, f: Fetch): (c: Call)
    ensures c == CommitNewChainCall(block) || c == CommitBlockCall(block)
    ensures c.CommitNewChainCall? <==> f.finalizedTipHash == block.previousBlockHash
  {
    if f.finalizedTipHash == block.previousBlockHash then CommitNewChainCall(block) else CommitBlockCall(block)
  }

  /** One iteration of the inner `loop` of `sync_from_rpc`, given the position
      bound by the outer loop and what the node and the database answer. The
      block requested is the one at `current_tip_height`, and the parent check
      after the `filter` is kept as the source writes it. */
  function CatchUpStep(st: Syncer, pos: SyncPosition, f: Fetch): (r: StepResult)
    ensures r.state.receiverAlive == st.receiverAlive
    ensures |r.calls| >= 2 && r.calls[0] == GetBlock(pos.currentTipHeight)
    ensures r.outcome.Aborted? ==> r.outcome.error == ChannelClosed && !st.receiverAlive
  {
    var request := [GetBlock(pos.currentTipHeight)];
    match FilterParent(f.block, pos.currentTipHash)
    case None => ResetAndPublish(st, request)
    case Some(block) =>
      var parentHash := block.previousBlockHash;
      if parentHash != pos.currentTipHash then
        ResetAndPublish(st, request)
      else
        var committed := Commit(st.store, block, f);
        var attempt := request + [CommitCall(block, f)];
        if committed.Err? then
          StepResult(Continue, st, attempt)
        else
          var drained := DrainPastReorgLimit(committed.value);
          var next := Publish(st.(store := drained.state));
          var calls := attempt + seq(drained.finalizeCalls, _ => FinalizeCall) + [Send(drained.state)];
          StepResult(if block.hash == pos.nodeTipHash then CaughtUp else Continue, next, calls)
  }

  // ---------------------------------------------------------------------
  // The catch-up loop and the whole syncer

  /** The outcome of the catch-up loop; `Continue` here means the script ran
      out while the loop was still catching up. */
  datatype CatchUpResult = CatchUpResult(outcome: StepOutcome, state: Syncer, used: nat, calls: seq<Call>)

  /** The inner `loop`: iterations run with the same position until one
      catches up or aborts. */
  function CatchUp(st: Syncer, pos: SyncPosition, fetches: seq<Fetch>): (r: CatchUpResult)
    ensures r.used <= |fetches| && r.state.receiverAlive == st.receiverAlive
    ensures r.outcome.Continue? ==> r.used == |fetches|
    ensures !r.outcome.Continue? ==> 0 < r.used
    ensures r.outcome.Aborted? ==> r.outcome.error == ChannelClosed && !st.receiverAlive
    decreases |fetches|
  {
    if fetches == [] then CatchUpResult(Continue, st, 0, [])
    else
      var step := CatchUpStep(st, pos, fetches[0]);
      if step.outcome.Continue? then
        var rest := CatchUp(step.state, pos, fetches[1..]);
        CatchUpResult(rest.outcome, rest.state, rest.used + 1, step.calls + rest.calls)
      else
        CatchUpResult(step.outcome, step.state, 1, step.calls)
  }

  /** How `sync_from_rpc` ends: with an error, or (in the model only) when
      its script runs out. */
  datatype RunResult = RunResult(error: Option<SyncError>, state: Syncer)

  /** `sync_from_rpc`: the outer `loop` binds a position with the wait loop,
      then runs the catch-up loop with it; after catching up it waits again. */
  function SyncFromRpc(st: Syncer, polls: seq<Poll>, fetches: seq<Fetch>): (r: RunResult)
    ensures r.state.receiverAlive == st.receiverAlive
    ensures r.error == Some(ChannelClosed) ==> !st.receiverAlive
    decreases |polls|
  {
    var wait := Wait(st.store, polls);
    match wait.outcome
    case PollFailed(e) => RunResult(Some(e), st)
    case KeepWaiting => RunResult(None, st)
    case NewBlocks(pos) =>
      var caught := CatchUp(st, pos, fetches);
      match caught.outcome
      case Aborted(e) => RunResult(Some(e), caught.state)
      case Continue => RunResult(None, caught.state)
      case CaughtUp => SyncFromRpc(caught.state, polls[wait.used..], fetches[caught.used..])
  }
}
