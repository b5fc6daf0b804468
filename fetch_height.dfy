/**
 * The height the catch-up loop requests. `sync_from_rpc` asks for the block
 * at `current_tip_height` (zebra-rpc/src/sync.rs:228) and never moves the
 * position inside the loop. A node whose chain agrees with the local tip
 * answers with the local tip block itself, whose parent is not the local
 * tip, so the loop resets and asks for the same height again, for ever.
 * This module shows that, then defines the loop the comments describe
 * (request the next height, move the position onto each committed block)
 * and proves it reaches the node's tip.
 */
module FetchHeight {
  import opened Wrappers
  import opened Chain
  import opened NonFinalized
  import opened Sync

  /** A node serving `chain` (linked, lowest block first) answers `getblock`
      at height `h` with the chain's block at that height, if it has one. */
  function Serve(chain: seq<Block>, h: Height): (r: Option<Block>)
    requires Linked(chain)
    ensures r.Some? ==> r.value in chain && r.value.height == h
    ensures r.None? <==> chain == [] || h < chain[0].height || h >= chain[0].height + |chain|
  {
    if chain != [] && chain[0].height <= h < chain[0].height + |chain| then
      HeightsAscend(chain, h - chain[0].height);
      Some(chain[h - chain[0].height])
    else None
  }

  /** In a linked chain the `k`-th block sits `k` heights above the first. */
  lemma {:induction false} HeightsAscend(chain: seq<Block>, k: nat)
    requires Linked(chain) && k < |chain|
    ensures chain[k].height == chain[0].height + k
  {
    if k > 0 {
      HeightsAscend(chain, k - 1);
    }
  }

  /** The fetch the as-written loop makes against a node serving `chain`:
      always at the bound `current_tip_height`. */
  function AsWrittenFetch(chain: seq<Block>, pos: SyncPosition, finalizedTipHash: Hash): Fetch
    requires Linked(chain)
  {
    Fetch(Serve(chain, pos.currentTipHeight), finalizedTipHash, true)
  }

  /** As written: when the local tip is the first block of the node's chain,
      no number of iterations of the catch-up loop commits a block or
      catches up; every iteration resets the store. */
  lemma {:induction false} AsWrittenNeverCatchesUp(st: Syncer, pos: SyncPosition, chain: seq<Block>, finalizedTipHash: Hash, n: nat)
    requires Linked(chain) && chain != []
    requires pos.currentTipHeight == chain[0].height && pos.currentTipHash == chain[0].hash
    requires chain[0].previousBlockHash != chain[0].hash
    ensures var r := CatchUp(st, pos, seq(n, _ => AsWrittenFetch(chain, pos, finalizedTipHash)));
      !r.outcome.CaughtUp?
      && forall c :: c in r.calls ==> !c.CommitNewChainCall? && !c.CommitBlockCall?
    decreases n
  {
    var f := AsWrittenFetch(chain, pos, finalizedTipHash);
    assert f.block == Some(chain[0]);
    if n > 0 {
      var fetches := seq(n, _ => f);
      assert fetches[0] == f && fetches[1..] == seq(n - 1, _ => f);
      var step := CatchUpStep(st, pos, f);
      assert step.calls == [GetBlock(pos.currentTipHeight), ResetStore, Send(New())];
      if step.outcome.Continue? {
        AsWrittenNeverCatchesUp(step.state, pos, chain, finalizedTipHash, n - 1);
      }
    }
  }

  /** A concrete instance: the local tip is a block at height 0 and the node
      is one block ahead. The catch-up loop, given three tries, commits nothing. */
  lemma AsWrittenCounterexample()
    ensures
      var genesisHash := Hash(seq(32, _ => 1 as bv8));
      var nextHash := Hash(seq(32, _ => 2 as bv8));
      var genesis := Block(0, genesisHash, Hash(seq(32, _ => 0 as bv8)));
      var next := Block(1, nextHash, genesisHash);
      var pos := SyncPosition(0, genesisHash, nextHash);
      var r := CatchUp(Syncer(New(), [], true), pos, seq(3, _ => AsWrittenFetch([genesis, next], pos, genesisHash)));
      && r.outcome == Continue && r.state.store == New() && |r.state.published| == 3
      && forall c :: c in r.calls ==> !c.CommitNewChainCall? && !c.CommitBlockCall?
  {
    var genesisHash := Hash(seq(32, _ => 1 as bv8));
    var nextHash := Hash(seq(32, _ => 2 as bv8));
    var genesis := Block(0, genesisHash, Hash(seq(32, _ => 0 as bv8)));
    var next := Block(1, nextHash, genesisHash);
    assert genesis.previousBlockHash != genesis.hash by {
      assert genesis.previousBlockHash.bytes[0] != genesis.hash.bytes[0];
    }
    var pos := SyncPosition(0, genesisHash, nextHash);
    var f := AsWrittenFetch([genesis, next], pos, genesisHash);
    assert f.block == Some(genesis);
    var st0 := Syncer(New(), [], true);
    var st1 := Syncer(New(), [New()], true);
    var st2 := Syncer(New(), [New(), New()], true);
    var st3 := Syncer(New(), [New(), New(), New()], true);
    assert CatchUpStep(st0, pos, f).state == st1 && CatchUpStep(st0, pos, f).outcome == Continue;
    assert CatchUpStep(st1, pos, f).state == st2 && CatchUpStep(st1, pos, f).outcome == Continue;
    assert CatchUpStep(st2, pos, f).state == st3 && CatchUpStep(st2, pos, f).outcome == Continue;
    assert seq(3, _ => f)[1..] == seq(2, _ => f) && seq(2, _ => f)[1..] == seq(1, _ => f) && seq(1, _ => f)[1..] == [];
    assert CatchUp(st3, pos, []).state == st3;
    assert CatchUp(st2, pos, seq(1, _ => f)).state == st3;
    assert CatchUp(st1, pos, seq(2, _ => f)).state == st3;
    AsWrittenNeverCatchesUp(st0, pos, [genesis, next], genesisHash, 3);
  }

  // ---------------------------------------------------------------------
  // The corrected loop

  /** How an iteration of the corrected loop ends. `Restart` leaves the
      catch-up loop after a reset so that the outer loop binds a new position
      from the emptied store. */
  datatype AdvanceOutcome = KeepGoing | Reached | Restart | Stopped(error: SyncError)

  datatype Advance = Advance(outcome: AdvanceOutcome, state: Syncer, position: SyncPosition, calls: seq<Call>)

  /** One corrected iteration: request the block above the current tip, and
      after an accepted commit make that block the current tip. */
  function CatchUpStepAdvancing(st: Syncer, pos: SyncPosition, f: Fetch): (r: Advance)
    requires pos.currentTipHeight < 0xFFFF_FFFF
    ensures |r.calls| >= 2 && r.calls[0] == GetBlock(pos.currentTipHeight + 1)
    ensures r.position.nodeTipHash == pos.nodeTipHash
    ensures r.outcome.Reached? ==> BestTip(r.state.store).Some? && BestTip(r.state.store).value.hash == pos.nodeTipHash
    ensures r.position != pos ==>
      BestTip(r.state.store) == Some(Tip(r.position.currentTipHeight, r.position.currentTipHash))
  {
    var request := [GetBlock(pos.currentTipHeight + 1)];
    match FilterParent(f.block, pos.currentTipHash)
    case None =>
      var reset := ResetAndPublish(st, request);
      Advance(if reset.outcome.Aborted? then Stopped(reset.outcome.error) else Restart, reset.state, pos, reset.calls)
    case Some(block) =>
      var committed := Commit(st.store, block, f);
      var attempt := request + [CommitCall(block, f)];
      if committed.Err? then
        Advance(KeepGoing, st, pos, attempt)
      else
        var drained := DrainPastReorgLimit(committed.value);
        assert committed.value.bestChain[|committed.value.bestChain| - 1] == block;
        var next := Publish(st.(store := drained.state));
        var calls := attempt + seq(drained.finalizeCalls, _ => FinalizeCall) + [Send(drained.state)];
        Advance(if block.hash == pos.nodeTipHash then Reached else KeepGoing, next,
                SyncPosition(block.height, block.hash, pos.nodeTipHash), calls)
  }

  /** The local tip is `chain[i]`: the store's best tip is that block, or the
      finalized tip is (so that `commit_new_chain` applies). */
  predicate TipIsBlock(st: Syncer, chain: seq<Block>, i: nat, finalizedTipHash: Hash)
    requires i < |chain|
  {
    (st.store.bestChain != [] && st.store.bestChain[|st.store.bestChain| - 1] == chain[i])
    || finalizedTipHash == chain[i].hash
  }

  /** One corrected iteration from block `i` of the node's chain commits
      block `i + 1` and makes it the current tip. */
  lemma AdvancingStepCommitsNext(st: Syncer, chain: seq<Block>, finalizedTipHash: Hash, i: nat)
    requires Linked(chain) && i + 1 < |chain| && chain[|chain| - 1].height < 0xFFFF_FFFF
    requires TipIsBlock(st, chain, i, finalizedTipHash)
    ensures chain[i].height < 0xFFFF_FFFF && chain[i + 1].height < 0xFFFF_FFFF
    ensures var pos := SyncPosition(chain[i].height, chain[i].hash, chain[|chain| - 1].hash);
      var step := CatchUpStepAdvancing(st, pos, Fetch(Serve(chain, pos.currentTipHeight + 1), finalizedTipHash, true));
      && step.position == SyncPosition(chain[i + 1].height, chain[i + 1].hash, pos.nodeTipHash)
      && step.outcome == (if chain[i + 1].hash == pos.nodeTipHash then Reached else KeepGoing)
      && step.state.store.bestChain != []
      && step.state.store.bestChain[|step.state.store.bestChain| - 1] == chain[i + 1]
  {
    var pos := SyncPosition(chain[i].height, chain[i].hash, chain[|chain| - 1].hash);
    HeightsAscend(chain, i);
    HeightsAscend(chain, i + 1);
    HeightsAscend(chain, |chain| - 1);
    assert ChildOf(chain[i], chain[i + 1]);
    var f := Fetch(Serve(chain, pos.currentTipHeight + 1), finalizedTipHash, true);
    assert f.block == Some(chain[i + 1]);
    var block := chain[i + 1];
    var committed := Commit(st.store, block, f);
    assert committed.Ok? by {
      if finalizedTipHash != block.previousBlockHash {
        assert Extends(st.store, block);
      }
    }
    assert committed.value.bestChain[|committed.value.bestChain| - 1] == block;
  }

  /** The corrected loop stands at block `i` of the node's chain: that block
      is the current tip of the position and of the store. */
  predicate AtBlock(r: Advance, chain: seq<Block>, i: nat, finalizedTipHash: Hash)
    requires i < |chain|
  {
    && r.position == SyncPosition(chain[i].height, chain[i].hash, chain[|chain| - 1].hash)
    && TipIsBlock(r.state, chain, i, finalizedTipHash)
  }

  /** The node serves a chain that starts at the local tip and is at least
      one block ahead of it, and the position is bound to that tip and the
      node's last block. */
  predicate NodeAhead(st: Syncer, pos: SyncPosition, chain: seq<Block>, finalizedTipHash: Hash) {
    && Linked(chain) && |chain| >= 2 && chain[|chain| - 1].height < 0xFFFF_FFFF
    && pos == SyncPosition(chain[0].height, chain[0].hash, chain[|chain| - 1].hash)
    && TipIsBlock(st, chain, 0, finalizedTipHash)
  }

  /** The corrected catch-up loop against a node serving `chain`, for at most
      `fuel` iterations; it also stops when the tip is at the largest height.
      Whenever it says it reached the node's tip, the store's tip is that
      block; and when the node is `k` blocks ahead and the store accepts its
      blocks, `k` iterations are enough to get there. */
  method CatchUpAdvancing(st: Syncer, pos: SyncPosition, chain: seq<Block>, finalizedTipHash: Hash, fuel: nat)
    returns (r: Advance)
    requires Linked(chain)
    ensures r.position.nodeTipHash == pos.nodeTipHash
    ensures r.outcome.Reached? ==> BestTip(r.state.store).Some? && BestTip(r.state.store).value.hash == pos.nodeTipHash
    ensures NodeAhead(st, pos, chain, finalizedTipHash) && fuel >= |chain| - 1 ==> r.outcome == Reached
  {
    ghost var ahead := NodeAhead(st, pos, chain, finalizedTipHash) && fuel >= |chain| - 1;
    r := Advance(KeepGoing, st, pos, []);
    var n := 0;
    ghost var i := 0;
    if ahead {
      HeightsAscend(chain, |chain| - 1);
    }
    while n < fuel && r.outcome.KeepGoing? && r.position.currentTipHeight < 0xFFFF_FFFF
      invariant n <= fuel
      invariant r.position.nodeTipHash == pos.nodeTipHash
      invariant r.outcome.Reached? ==> BestTip(r.state.store).Some? && BestTip(r.state.store).value.hash == pos.nodeTipHash
      invariant ahead ==> !r.outcome.KeepGoing? ==> r.outcome.Reached?
      invariant ahead && r.outcome.KeepGoing? ==> i + 1 < |chain| && fuel - n >= |chain| - 1 - i
      invariant ahead && r.outcome.KeepGoing? ==> AtBlock(r, chain, i, finalizedTipHash)
      invariant ahead && r.outcome.KeepGoing? ==> r.position.currentTipHeight < 0xFFFF_FFFF
    {
      if ahead {
        AdvancingStepCommitsNext(r.state, chain, finalizedTipHash, i);
      }
      var f := Fetch(Serve(chain, r.position.currentTipHeight + 1), finalizedTipHash, true);
      var step := CatchUpStepAdvancing(r.state, r.position, f);
      r := step.(calls := r.calls + step.calls);
      n := n + 1;
      i := i + 1;
    }
  }
}
