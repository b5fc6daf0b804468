/**
 * Note commitment subtree records (zebra-chain/src/subtree.rs): a subtree
 * index that fits in a `u16`, the subtree root with its index, end height and
 * node, and the index-less data record used as a database value.
 * `Arc<_>` is modelled as the plain value it points to; `Node` is a type
 * parameter.
 */
module Subtree {
  import opened Wrappers
  import opened Chain

  newtype u8 = x: int | 0 <= x < 0x100
  newtype u16 = x: int | 0 <= x < 0x1_0000
  newtype u64 = x: int | 0 <= x < 0x1_0000_0000_0000_0000

  /** Height at which Zebra tracks subtree roots. */
  const TRACKED_SUBTREE_HEIGHT: u8 := 16

  /** `NoteCommitmentSubtreeIndex(pub u16)`. */
  datatype NoteCommitmentSubtreeIndex = NoteCommitmentSubtreeIndex(value: u16)

  /** The error of `u16::try_from` on a value that does not fit. */
  datatype TryFromIntError = TryFromIntError

  /** The values accepted where the source takes `impl Into<NoteCommitmentSubtreeIndex>`:
      an index itself (the reflexive conversion) or a `u16`. */
  datatype IndexArg = FromIndex(index: NoteCommitmentSubtreeIndex) | FromU16(raw: u16)

  /** `From<u16> for NoteCommitmentSubtreeIndex`. */
  function IndexFromU16(v: u16): (i: NoteCommitmentSubtreeIndex)
    ensures i.value == v
  {
    NoteCommitmentSubtreeIndex(v)
  }

  /** `TryFrom<u64> for NoteCommitmentSubtreeIndex`, via `u16::try_from`. */
  function IndexTryFromU64(v: u64): (r: Result<NoteCommitmentSubtreeIndex, TryFromIntError>)
    ensures r.Ok? <==> v <= 0xFFFF
    ensures r.Ok? ==> r.value.value as int == v as int
  {
    if v <= 0xFFFF then Ok(NoteCommitmentSubtreeIndex(v as u16)) else Err(TryFromIntError)
  }

  /** `index.into()`. */
  function IntoIndex(a: IndexArg): (i: NoteCommitmentSubtreeIndex)
    ensures a.FromIndex? ==> i == a.index
    ensures a.FromU16? ==> i.value == a.raw
  {
    match a
    case FromIndex(index) => index
    case FromU16(raw) => IndexFromU16(raw)
  }

  /** `NoteCommitmentSubtree<Node>`. */
  datatype NoteCommitmentSubtree<Node> = NoteCommitmentSubtree(index: NoteCommitmentSubtreeIndex, end: Height, node: Node)

  /** `NoteCommitmentSubtreeData<Node>`: a subtree without its index. */
  datatype NoteCommitmentSubtreeData<Node> = NoteCommitmentSubtreeData(end: Height, node: Node)

  /** `NoteCommitmentSubtree::new`. */
  function NewSubtree<Node>(index: IndexArg, end: Height, node: Node): (s: NoteCommitmentSubtree<Node>)
    ensures s.index == IntoIndex(index) && s.end == end && s.node == node
  {
    NoteCommitmentSubtree(IntoIndex(index), end, node)
  }

  /** `NoteCommitmentSubtreeData::new`. */
  function NewData<Node>(end: Height, node: Node): (d: NoteCommitmentSubtreeData<Node>)
    ensures d.end == end && d.node == node
  {
    NoteCommitmentSubtreeData(end, node)
  }

  /** `NoteCommitmentSubtree::into_data`: keeps the end height and the root, drops the index. */
  function IntoData<Node>(s: NoteCommitmentSubtree<Node>): (d: NoteCommitmentSubtreeData<Node>)
    ensures d.end == s.end && d.node == s.node
  {
    NewData(s.end, s.node)
  }

  /** `NoteCommitmentSubtreeData::with_index`. */
  function WithIndex<Node>(d: NoteCommitmentSubtreeData<Node>, index: IndexArg): (s: NoteCommitmentSubtree<Node>)
    ensures s.index == IntoIndex(index) && s.end == d.end && s.node == d.node
  {
    NewSubtree(index, d.end, d.node)
  }

  /** Widening a `u16` to `u64` and narrowing it back gives the same index as `From<u16>`. */
  lemma TryFromU64OfU16(v: u16)
    ensures IndexTryFromU64(v as u64) == Ok(IndexFromU16(v))
  {
  }

  /** Every `u64` from 65536 up is refused. */
  lemma TryFromU64Rejects(v: u64)
    requires v >= 0x1_0000
    ensures IndexTryFromU64(v) == Err(TryFromIntError)
  {
  }

  /** Reading the `u16` back out of an index made by `From<u16>` gives the input, and conversely. */
  lemma IndexFromU16RoundTrip(v: u16, i: NoteCommitmentSubtreeIndex)
    ensures IndexFromU16(v).value == v
    ensures IndexFromU16(i.value) == i
  {
  }

  /** Adding an index and dropping it again gives back the data. */
  lemma WithIndexIntoData<Node>(d: NoteCommitmentSubtreeData<Node>, index: IndexArg)
    ensures IntoData(WithIndex(d, index)) == d
  {
  }

  /** Dropping the index and adding the same one back gives back the subtree. */
  lemma IntoDataWithIndex<Node>(s: NoteCommitmentSubtree<Node>)
    ensures WithIndex(IntoData(s), FromIndex(s.index)) == s
    ensures WithIndex(IntoData(s), FromU16(s.index.value)) == s
  {
  }
}
