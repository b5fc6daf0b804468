/**
 * What `sync_from_rpc` guarantees, stated over the functions of module Sync:
 * the choice of local tip, when a position is produced, when the store is
 * reset, which commit is made, what a failed commit leaves behind, the
 * drain after a successful one, when the catch-up loop ends, and the
 * invariant every published snapshot satisfies.
 */
module SyncProperties {
  import opened Wrappers
  import opened Chain
  import opened NonFinalized
  import opened Sync

  /** The fetched block, once past the `filter`, names the current tip as its parent. */
  predicate LinkedFetch(pos: SyncPosition, f: Fetch) {
    f.block.Some? && f.block.value.previousBlockHash == pos.currentTipHash
  }

  /** The syncer's invariant: the store and every snapshot the channel
      accepted are linked chains within the reorg limit. */
  predicate Inv(st: Syncer) {
    WithinReorgLimit(st.store) && forall k :: 0 <= k < |st.published| ==> WithinReorgLimit(st.published[k])
  }

  // ---------------------------------------------------------------------
  // The wait phase

  /** A position is produced only when the node's hash differs from the local
      tip's, and then it carries that tip and that hash; equal hashes, a
      missing tip or a failed call never produce one. */
  lemma PollProducesPositionOnlyOnDivergence(store: NonFinalizedState, p: Poll, node: Hash)
    requires p.bestBlockHash == Some(node)
    ensures PollOnce(store, p).NewBlocks? <==>
      LocalTip(store, p.finalizedTip).Some? && LocalTip(store, p.finalizedTip).value.hash != node
    ensures LocalTip(store, p.finalizedTip).None? ==> PollOnce(store, p) == KeepWaiting
    ensures LocalTip(store, p.finalizedTip).Some? && LocalTip(store, p.finalizedTip).value.hash == node ==>
      PollOnce(store, p) == KeepWaiting
  {
  }

  /** A non-empty store's own tip always wins over the database's. */
  lemma StoreTipShadowsDatabase(store: NonFinalizedState, p: Poll, q: Poll)
    requires store.bestChain != []
    requires p.bestBlockHash == q.bestBlockHash
    ensures PollOnce(store, p) == PollOnce(store, q)
  {
  }

  // ---------------------------------------------------------------------
  // One iteration of the catch-up loop

  /** A missing block, or one whose parent is not the current tip, replaces
      the store by an empty one and sends it; a failed send aborts. */
  lemma ResetOnMissingOrUnlinkedBlock(st: Syncer, pos: SyncPosition, f: Fetch)
    requires !LinkedFetch(pos, f)
    ensures var r := CatchUpStep(st, pos, f);
      && r.state.store == New()
      && r.state.published == (if st.receiverAlive then st.published + [New()] else st.published)
      && r.outcome == (if st.receiverAlive then Continue else Aborted(ChannelClosed))
      && r.calls == [GetBlock(pos.currentTipHeight), ResetStore, Send(New())]
  {
  }

  /** The reset after the `filter` is dead code: a block that passes the
      `filter` is always committed, never reset. */
  lemma SecondParentCheckNeverFires(st: Syncer, pos: SyncPosition, f: Fetch)
    requires LinkedFetch(pos, f)
    ensures var r := CatchUpStep(st, pos, f);
      && ResetStore !in r.calls
      && r.calls[1] == CommitCall(f.block.value, f)
  {
  }

  /** A commit succeeds exactly when the store accepts the block and the
      block either starts a chain at the finalized tip or extends the best tip. */
  lemma CommitSucceedsExactly(store: NonFinalizedState, block: Block, f: Fetch)
    ensures Commit(store, block, f).Ok? <==>
      f.commitAccepted && (f.finalizedTipHash == block.previousBlockHash || Extends(store, block))
  {
  }

  /** `commit_new_chain` is called exactly when the finalized tip is the
      block's parent, `commit_block` exactly otherwise. */
  lemma CommitKindFollowsFinalizedTip(st: Syncer, pos: SyncPosition, f: Fetch)
    requires LinkedFetch(pos, f)
    ensures var r := CatchUpStep(st, pos, f); var b := f.block.value;
      && (CommitNewChainCall(b) in r.calls <==> f.finalizedTipHash == b.previousBlockHash)
      && (CommitBlockCall(b) in r.calls <==> f.finalizedTipHash != b.previousBlockHash)
  {
    var r := CatchUpStep(st, pos, f);
    var b := f.block.value;
    assert r.calls[1] == CommitCall(b, f);
    assert forall c :: c in r.calls && (c.CommitNewChainCall? || c.CommitBlockCall?) ==> c == r.calls[1];
  }

  /** A refused commit changes nothing: no reset, no `finalize()`, no send,
      and the loop goes round again with the same position. */
  lemma FailedCommitChangesNothing(st: Syncer, pos: SyncPosition, f: Fetch)
    requires LinkedFetch(pos, f) && Commit(st.store, f.block.value, f).Err?
    ensures var r := CatchUpStep(st, pos, f);
      && r.state == st && r.outcome == Continue
      && r.calls == [GetBlock(pos.currentTipHeight), CommitCall(f.block.value, f)]
  {
  }

  /** `n` copies of `c` hold `c` exactly `n` times. */
  lemma {:induction false} CountRepeated(n: nat, c: Call)
    ensures multiset(seq(n, _ => c))[c] == n
  {
    if n > 0 {
      CountRepeated(n - 1, c);
      assert seq(n, _ => c) == seq(n - 1, _ => c) + [c];
    }
  }

  /** After an accepted commit the store is drained with exactly
      `max(0, len - MAX_BLOCK_REORG_HEIGHT)` calls to `finalize()`, ends within
      the reorg limit, keeps the newest blocks, and is sent (a failed send is
      ignored here). The loop ends when the block is the node's tip. */
  lemma AcceptedCommitDrainsAndPublishes(st: Syncer, pos: SyncPosition, f: Fetch)
    requires LinkedFetch(pos, f) && Commit(st.store, f.block.value, f).Ok?
    ensures var r := CatchUpStep(st, pos, f); var committed := Commit(st.store, f.block.value, f).value;
      && multiset(r.calls)[FinalizeCall] == Excess(committed)
      && r.state.store.bestChain == committed.bestChain[Excess(committed)..]
      && BestChainLen(r.state.store).Some? && BestChainLen(r.state.store).value <= MAX_BLOCK_REORG_HEIGHT
      && BestTip(r.state.store) == Some(Tip(f.block.value.height, f.block.value.hash))
      && r.state.published == (if st.receiverAlive then st.published + [r.state.store] else st.published)
      && r.outcome == (if f.block.value.hash == pos.nodeTipHash then CaughtUp else Continue)
  {
    var b := f.block.value;
    var committed := Commit(st.store, b, f).value;
    var drained := DrainPastReorgLimit(committed);
    var r := CatchUpStep(st, pos, f);
    var attempt := [GetBlock(pos.currentTipHeight), CommitCall(b, f)];
    var finalizes := seq(drained.finalizeCalls, _ => FinalizeCall);
    assert r.calls == attempt + finalizes + [Send(drained.state)];
    CountRepeated(drained.finalizeCalls, FinalizeCall);
    assert multiset(r.calls) == multiset(attempt) + multiset(finalizes) + multiset([Send(drained.state)]);
    assert committed.bestChain[|committed.bestChain| - 1] == b;
  }

  /** An iteration leaves the loop exactly when it commits the node's tip block. */
  lemma CaughtUpExactlyOnNodeTip(st: Syncer, pos: SyncPosition, f: Fetch)
    ensures CatchUpStep(st, pos, f).outcome == CaughtUp <==>
      LinkedFetch(pos, f) && Commit(st.store, f.block.value, f).Ok? && f.block.value.hash == pos.nodeTipHash
  {
  }

  /** An iteration keeps the syncer's invariant. */
  lemma StepKeepsInvariant(st: Syncer, pos: SyncPosition, f: Fetch)
    requires Inv(st)
    ensures Inv(CatchUpStep(st, pos, f).state)
  {
    if LinkedFetch(pos, f) {
      var committed := Commit(st.store, f.block.value, f);
      if committed.Ok? {
        assert Linked(committed.value.bestChain);
      }
    }
  }

  // ---------------------------------------------------------------------
  // The catch-up loop

  /** Every block the catch-up loop requests is at the height bound by the
      outer loop: the position is never advanced inside it. */
  lemma {:induction false} CatchUpFetchesOneHeight(st: Syncer, pos: SyncPosition, fetches: seq<Fetch>)
    ensures forall c :: c in CatchUp(st, pos, fetches).calls && c.GetBlock? ==> c.height == pos.currentTipHeight
    decreases |fetches|
  {
    if fetches != [] {
      var step := CatchUpStep(st, pos, fetches[0]);
      if step.outcome.Continue? {
        CatchUpFetchesOneHeight(step.state, pos, fetches[1..]);
      }
    }
  }

  /** The catch-up loop is left (other than by an abort) only by an iteration
      whose commit succeeded on the node's tip block: the store's tip is then
      that block. */
  lemma {:induction false} CatchUpEndsOnNodeTip(st: Syncer, pos: SyncPosition, fetches: seq<Fetch>)
    ensures var r := CatchUp(st, pos, fetches);
      r.outcome.CaughtUp? ==>
        var f := fetches[r.used - 1];
        LinkedFetch(pos, f) && f.block.value.hash == pos.nodeTipHash
        && BestTip(r.state.store) == Some(Tip(f.block.value.height, pos.nodeTipHash))
    decreases |fetches|
  {
    if fetches != [] {
      var step := CatchUpStep(st, pos, fetches[0]);
      if step.outcome.Continue? {
        CatchUpEndsOnNodeTip(step.state, pos, fetches[1..]);
        var rest := CatchUp(step.state, pos, fetches[1..]);
        if rest.outcome.CaughtUp? {
          assert fetches[1..][rest.used - 1] == fetches[rest.used];
        }
      } else if step.outcome.CaughtUp? {
        CaughtUpExactlyOnNodeTip(st, pos, fetches[0]);
        AcceptedCommitDrainsAndPublishes(st, pos, fetches[0]);
      }
    }
  }

  /** The catch-up loop keeps the syncer's invariant. */
  lemma {:induction false} CatchUpKeepsInvariant(st: Syncer, pos: SyncPosition, fetches: seq<Fetch>)
    requires Inv(st)
    ensures Inv(CatchUp(st, pos, fetches).state)
    decreases |fetches|
  {
    if fetches != [] {
      StepKeepsInvariant(st, pos, fetches[0]);
      var step := CatchUpStep(st, pos, fetches[0]);
      if step.outcome.Continue? {
        CatchUpKeepsInvariant(step.state, pos, fetches[1..]);
      }
    }
  }

  /** Snapshots once sent stay sent: every step only appends to the channel's log. */
  lemma {:induction false} CatchUpOnlyAppends(st: Syncer, pos: SyncPosition, fetches: seq<Fetch>)
    ensures st.published <= CatchUp(st, pos, fetches).state.published
    decreases |fetches|
  {
    if fetches != [] {
      var step := CatchUpStep(st, pos, fetches[0]);
      assert st.published <= step.state.published;
      if step.outcome.Continue? {
        CatchUpOnlyAppends(step.state, pos, fetches[1..]);
      }
    }
  }

  // ---------------------------------------------------------------------
  // The whole syncer

  /** `sync_from_rpc` keeps the invariant: no snapshot it ever sends is
      unlinked or longer than the reorg limit, and the channel's log only grows. */
  lemma {:induction false} SyncFromRpcKeepsInvariant(st: Syncer, polls: seq<Poll>, fetches: seq<Fetch>)
    requires Inv(st)
    ensures Inv(SyncFromRpc(st, polls, fetches).state)
    ensures st.published <= SyncFromRpc(st, polls, fetches).state.published
    decreases |polls|
  {
    var wait := Wait(st.store, polls);
    if wait.outcome.NewBlocks? {
      var pos := wait.outcome.position;
      CatchUpKeepsInvariant(st, pos, fetches);
      CatchUpOnlyAppends(st, pos, fetches);
      var caught := CatchUp(st, pos, fetches);
      if caught.outcome.CaughtUp? {
        SyncFromRpcKeepsInvariant(caught.state, polls[wait.used..], fetches[caught.used..]);
      }
    }
  }
}
