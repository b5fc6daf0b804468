/**
 * The block identifiers the syncer and the subtree records pass around:
 * `block::Height` (a `u32`), `block::Hash` (a 32-byte digest) and the
 * parts of a block that the syncer reads (its height, its hash and the
 * hash of its parent from the header).
 */
module Chain {
  /** `block::Height(u32)`. */
  type Height = h: nat | h <= 0xFFFF_FFFF

  /** The 32 bytes of a double-SHA256 block hash. */
  type Digest = s: seq<bv8> | |s| == 32 witness seq(32, _ => 0 as bv8)

  /** `block::Hash([u8; 32])`. */
  datatype Hash = Hash(bytes: Digest)

  /** A deserialized block, reduced to what the syncer looks at. */
  datatype Block = Block(height: Height, hash: Hash, previousBlockHash: Hash)

  /** A chain tip as `(Height, block::Hash)`. */
  datatype Tip = Tip(height: Height, hash: Hash)
}
