/**
 * The part of zebra-state's `NonFinalizedState` that the RPC syncer drives.
 * Its implementation is not part of this model: the store is reduced to its
 * best chain, the blocks above the finalized tip, oldest first. Committing a
 * block is atomic (the store is either extended or left as it was), and the
 * outcome of the validation the real store performs is an input, `accepted`.
 */
module NonFinalized {
  import opened Wrappers
  import opened Chain

  /** zebra-state's `MAX_BLOCK_REORG_HEIGHT`: the deepest reorganization
      the non-finalized state keeps blocks for. */
  const MAX_BLOCK_REORG_HEIGHT: nat := 99

  /** Why a commit was refused. */
  datatype CommitError = NoMatchingParent | Invalid

  datatype NonFinalizedState = NonFinalizedState(bestChain: seq<Block>)

  /** Each block of the chain is the child of the one before it: it names it
      as its parent and sits one height above it. */
  predicate Linked(chain: seq<Block>) {
    forall i, j :: 0 <= i < |chain| && 0 <= j < |chain| && j == i + 1 ==> ChildOf(chain[i], chain[j])
  }

  predicate ChildOf(parent: Block, child: Block) {
    child.previousBlockHash == parent.hash && child.height == parent.height + 1
  }

  /** The store's invariant: a linked best chain no longer than the reorg limit. */
  predicate WithinReorgLimit(s: NonFinalizedState) {
    Linked(s.bestChain) && |s.bestChain| <= MAX_BLOCK_REORG_HEIGHT
  }

  /** `NonFinalizedState::new`: an empty store. */
  function New(): (s: NonFinalizedState)
    ensures BestTip(s) == None && BestChainLen(s) == None
    ensures WithinReorgLimit(s)
  {
    NonFinalizedState([])
  }

  /** `best_tip()`: the height and hash of the newest block of the best chain. */
  function BestTip(s: NonFinalizedState): (r: Option<Tip>)
    ensures r.None? <==> s.bestChain == []
    ensures r.Some? ==> r.value.height == s.bestChain[|s.bestChain| - 1].height
    ensures r.Some? ==> r.value.hash == s.bestChain[|s.bestChain| - 1].hash
  {
    if s.bestChain == [] then None
    else var b := s.bestChain[|s.bestChain| - 1]; Some(Tip(b.height, b.hash))
  }

  /** `best_chain_len()`: the number of blocks in the best chain, absent when there is none. */
  function BestChainLen(s: NonFinalizedState): (r: Option<nat>)
    ensures r.None? <==> s.bestChain == []
    ensures r.Some? ==> r.value == |s.bestChain| > 0
  {
    if s.bestChain == [] then None else Some(|s.bestChain|)
  }

  /** `finalize()`: removes the oldest block of the best chain. */
  function Finalize(s: NonFinalizedState): (r: NonFinalizedState)
    requires s.bestChain != []
    ensures |r.bestChain| == |s.bestChain| - 1
    ensures forall i :: 0 <= i < |r.bestChain| ==> r.bestChain[i] == s.bestChain[i + 1]
    ensures Linked(s.bestChain) ==> Linked(r.bestChain)
  {
    NonFinalizedState(s.bestChain[1..])
  }

  /** The block extends the best chain's tip: its parent is the tip and it is one above it. */
  predicate Extends(s: NonFinalizedState, b: Block) {
    s.bestChain != [] && ChildOf(s.bestChain[|s.bestChain| - 1], b)
  }

  /** `commit_new_chain`: starts a chain from the finalized tip holding just `b`;
      it fails when the store's validation refuses the block. */
  function CommitNewChain(s: NonFinalizedState, b: Block, accepted: bool): (r: Result<NonFinalizedState, CommitError>)
    ensures r.Ok? <==> accepted
    ensures r.Err? ==> r.error == Invalid
    ensures r.Ok? ==> BestTip(r.value) == Some(Tip(b.height, b.hash)) && BestChainLen(r.value) == Some(1)
    ensures r.Ok? ==> WithinReorgLimit(r.value)
  {
    if accepted then Ok(NonFinalizedState([b])) else Err(Invalid)
  }

  /** `commit_block`: appends `b` to the best chain when its parent is the
      best tip, one height above it, and the store accepts it. */
  function CommitBlock(s: NonFinalizedState, b: Block, accepted: bool): (r: Result<NonFinalizedState, CommitError>)
    ensures r.Ok? <==> accepted && Extends(s, b)
    ensures r.Err? && (BestTip(s).None? || BestTip(s).value.hash != b.previousBlockHash) ==> r.error == NoMatchingParent
    ensures r.Ok? ==> r.value.bestChain == s.bestChain + [b] && BestTip(r.value) == Some(Tip(b.height, b.hash))
    ensures r.Ok? && Linked(s.bestChain) ==> Linked(r.value.bestChain)
  {
    match BestTip(s)
    case None => Err(NoMatchingParent)
    case Some(tip) =>
      if tip.hash != b.previousBlockHash then Err(NoMatchingParent)
      else if b.height != tip.height + 1 || !accepted then Err(Invalid)
      else Ok(NonFinalizedState(s.bestChain + [b]))
  }

  /** How many blocks lie beyond the reorg limit. */
  function Excess(s: NonFinalizedState): nat {
    if |s.bestChain| > MAX_BLOCK_REORG_HEIGHT then |s.bestChain| - MAX_BLOCK_REORG_HEIGHT else 0
  }

  /** The store after draining, with the number of `finalize()` calls made. */
  datatype Drained = Drained(state: NonFinalizedState, finalizeCalls: nat)

  /** The loop `while best_chain_len() > MAX_BLOCK_REORG_HEIGHT { finalize() }`,
      run on a store that has just had a block committed. It finalizes
      exactly the blocks beyond the limit, oldest first, and keeps the rest. */
  function DrainPastReorgLimit(s: NonFinalizedState): (r: Drained)
    requires s.bestChain != []
    ensures r.finalizeCalls == Excess(s)
    ensures r.state.bestChain == s.bestChain[Excess(s)..]
    ensures r.state.bestChain != [] && |r.state.bestChain| <= MAX_BLOCK_REORG_HEIGHT
    ensures Linked(s.bestChain) ==> WithinReorgLimit(r.state)
    decreases |s.bestChain|
  {
    if BestChainLen(s).value > MAX_BLOCK_REORG_HEIGHT then
      var rest := DrainPastReorgLimit(Finalize(s));
      Drained(rest.state, rest.finalizeCalls + 1)
    else
      Drained(s, 0)
  }

  /** Draining leaves a store already within the limit unchanged, with no
      call to `finalize()`. */
  lemma DrainWithinLimitIsIdentity(s: NonFinalizedState)
    requires s.bestChain != [] && |s.bestChain| <= MAX_BLOCK_REORG_HEIGHT
    ensures DrainPastReorgLimit(s) == Drained(s, 0)
  {
  }
}
