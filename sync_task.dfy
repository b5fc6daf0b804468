/**
 * `sync_from_rpc` as the source runs it: its local variables held by an
 * object whose methods update them in place. The store is reassigned on a
 * reset and changed by commits and `finalize()`; the position is bound once
 * per round of the outer loop; the watch channel is a log of the snapshots
 * it accepted. Each method is proved against the function of module Sync
 * that describes it.
 */
module SyncTask {
  import opened Wrappers
  import opened Chain
  import opened NonFinalized
  import opened Sync
  import opened SyncProperties

  class RpcSyncer {
    /** `non_finalized_state`. */
    var store: NonFinalizedState
    /** The snapshots the watch channel accepted, oldest first. */
    var published: seq<NonFinalizedState>
    /** Whether the channel still has a receiver. */
    var receiverAlive: bool
    /** The `SyncPosition` bound by the current round of the outer loop. */
    var position: Option<SyncPosition>

    /** The state as a value of module Sync. */
    function Model(): Sync.Syncer
      reads this
    {
      Sync.Syncer(store, published, receiverAlive)
    }

    ghost predicate Valid()
      reads this
    {
      Inv(Model())
    }

    /** `NonFinalizedState::new` before the outer loop starts, with a channel
        whose receivers are alive or not. */
    constructor (receiverAlive: bool)
      ensures Model() == Sync.Syncer(New(), [], receiverAlive) && position == None
      ensures Valid()
    {
      store := New();
      published := [];
      this.receiverAlive := receiverAlive;
      position := None;
    }

    /** `non_finalized_state_sender.send(non_finalized_state.clone())`:
        reports whether the channel accepted the snapshot. */
    method SendSnapshot() returns (sent: bool)
      modifies this`published
      ensures sent == receiverAlive
      ensures Model() == Publish(old(Model()))
    {
      sent := receiverAlive;
      if sent {
        published := published + [store];
      }
    }

    /** `while best_chain_len() > MAX_BLOCK_REORG_HEIGHT { finalize() }`,
        returning how many times `finalize()` ran. */
    method Drain() returns (finalizeCalls: nat)
      requires store.bestChain != []
      modifies this`store
      ensures DrainPastReorgLimit(old(store)) == Drained(store, finalizeCalls)
    {
      finalizeCalls := 0;
      while BestChainLen(store).value > MAX_BLOCK_REORG_HEIGHT
        invariant finalizeCalls <= Excess(old(store))
        invariant store.bestChain == old(store).bestChain[finalizeCalls..]
        invariant DrainPastReorgLimit(old(store)) == DrainPastReorgLimit(store).(finalizeCalls := DrainPastReorgLimit(store).finalizeCalls + finalizeCalls)
        decreases |store.bestChain|
      {
        store := Finalize(store);
        finalizeCalls := finalizeCalls + 1;
      }
    }

    /** One iteration of the inner `loop`, at the bound position. */
    method CatchUpIteration(f: Fetch) returns (outcome: StepOutcome, calls: seq<Call>)
      requires position.Some?
      modifies this`store, this`published
      ensures position == old(position)
      ensures var r := CatchUpStep(old(Model()), position.value, f);
        outcome == r.outcome && calls == r.calls && Model() == r.state
    {
      var pos := position.value;
      calls := [GetBlock(pos.currentTipHeight)];
      var fetched := FilterParent(f.block, pos.currentTipHash);
      // Both the `let ... else` after the `filter` and the parent check that
      // follows it lead to the same reset. The second check never fires
      // (SecondParentCheckNeverFires), so its branch only sets the flag.
      var reset := fetched.None?;
      if !reset {
        var parentHash := fetched.value.previousBlockHash;
        if parentHash != pos.currentTipHash {
          reset := true;
        }
      }
      if reset {
        store := New();
        var sent := SendSnapshot();
        calls := calls + [ResetStore, Send(New())];
        outcome := if sent then Continue else Aborted(ChannelClosed);
        return;
      }
      var block := fetched.value;
      var parentHash := block.previousBlockHash;
      var blockHash := block.hash;
      var committed;
      if f.finalizedTipHash == parentHash {
        committed := CommitNewChain(store, block, f.commitAccepted);
        calls := calls + [CommitNewChainCall(block)];
      } else {
        committed := CommitBlock(store, block, f.commitAccepted);
        calls := calls + [CommitBlockCall(block)];
      }
      if committed.Err? {
        // The failure is logged and the same position is tried again.
        outcome := Continue;
        return;
      }
      store := committed.value;
      var finalizeCalls := Drain();
      calls := calls + seq(finalizeCalls, _ => FinalizeCall) + [Send(store)];
      // A failed send is ignored here.
      var _ := SendSnapshot();
      outcome := if blockHash == pos.nodeTipHash then CaughtUp else Continue;
    }

    /** The inner `loop`: iterations over the script until one catches up or
        aborts, with the position untouched throughout. */
    method CatchUpLoop(fetches: seq<Fetch>) returns (outcome: StepOutcome, used: nat, calls: seq<Call>)
      requires position.Some? && Valid()
      modifies this`store, this`published
      ensures position == old(position)
      ensures var r := CatchUp(old(Model()), position.value, fetches);
        outcome == r.outcome && used == r.used && calls == r.calls && Model() == r.state
      ensures Valid()
    {
      CatchUpKeepsInvariant(Model(), position.value, fetches);
      ghost var pos := position.value;
      ghost var whole := CatchUp(Model(), pos, fetches);
      used, calls, outcome := 0, [], Continue;
      while used < |fetches|
        invariant used <= |fetches| && position == old(position)
        invariant var rest := CatchUp(Model(), pos, fetches[used..]);
          whole == CatchUpResult(rest.outcome, rest.state, used + rest.used, calls + rest.calls)
        decreases |fetches| - used
      {
        assert fetches[used..][0] == fetches[used] && fetches[used..][1..] == fetches[used + 1..];
        ghost var step := CatchUpStep(Model(), pos, fetches[used]);
        ghost var rest := CatchUp(step.state, pos, fetches[used + 1..]);
        assert CatchUp(Model(), pos, fetches[used..]) ==
          if step.outcome.Continue? then CatchUpResult(rest.outcome, rest.state, rest.used + 1, step.calls + rest.calls)
          else CatchUpResult(step.outcome, step.state, 1, step.calls);
        ghost var before := calls;
        var stepCalls;
        outcome, stepCalls := CatchUpIteration(fetches[used]);
        calls := calls + stepCalls;
        used := used + 1;
        if !outcome.Continue? {
          return;
        }
        assert before + (stepCalls + rest.calls) == calls + rest.calls;
      }
      outcome := Continue;
    }

    /** `sync_from_rpc`: binds a position with `wait_for_new_blocks`, runs the
        catch-up loop with it, and starts over once caught up. Returns the
        error that ended it, or none when the script ran out. */
    method Run(polls: seq<Poll>, fetches: seq<Fetch>) returns (error: Option<SyncError>)
      requires Valid()
      modifies this`store, this`published, this`position
      ensures var r := SyncFromRpc(old(Model()), polls, fetches);
        error == r.error && Model() == r.state
      ensures Valid() && old(published) <= published
    {
      SyncFromRpcKeepsInvariant(Model(), polls, fetches);
      var remainingPolls, remainingFetches := polls, fetches;
      while true
        invariant SyncFromRpc(old(Model()), polls, fetches) == SyncFromRpc(Model(), remainingPolls, remainingFetches)
        invariant Valid()
        decreases |remainingPolls|
      {
        var wait := WaitForNewBlocks(store, remainingPolls);
        match wait.outcome {
          case PollFailed(e) =>
            return Some(e);
          case KeepWaiting =>
            return None;
          case NewBlocks(pos) =>
            position := Some(pos);
            var outcome, used, _ := CatchUpLoop(remainingFetches);
            match outcome {
              case Aborted(e) =>
                return Some(e);
              case Continue =>
                return None;
              case CaughtUp =>
                remainingPolls, remainingFetches := remainingPolls[wait.used..], remainingFetches[used..];
            }
        }
      }
    }
  }
}
