/** Engine options (include/minikv/options.hpp) and the limits Open imposes on them. */
module Configuration {
  import opened Coding

  /**
    BloomFilter::Create sizes a filter with floating-point arithmetic.  The outcome
    for a number of keys is a parameter here: a refusal, or a bit count and a hash count.
   */
  datatype BloomSizing = TooLarge | Shape(bitCount: nat, hashCount: nat)

  const WAL_HEADER_SIZE: nat := 32
  const TABLE_BLOCK_HEADER_SIZE: nat := 20
  const MAXIMUM_BLOOM_FILTER_SIZE: nat := 64 * 1024 * 1024
  const MAXIMUM_BLOOM_HASH_COUNT: nat := 30

  datatype Options = Options(
    maxKeySize: nat,
    maxValueSize: nat,
    memtableSizeLimit: nat,
    blockSize: nat,
    bloomEnabled: bool,
    bloomSizing: nat -> BloomSizing,
    compactionOutputSizeLimit: nat,
    maximumScanEntries: nat,
    background: bool,
    level0CompactionTrigger: nat)
  {
    /** Sizes that a filter for `keys` keys may take: whole bytes within the format's limits. */
    predicate SizingOk(keys: nat) {
      match bloomSizing(keys)
      case TooLarge => true
      case Shape(bits, hashes) =>
        bits > 0 && bits % 8 == 0 && bits / 8 <= MAXIMUM_BLOOM_FILTER_SIZE &&
        1 <= hashes <= MAXIMUM_BLOOM_HASH_COUNT
    }

    /** What OpenWithEnvironment checks before touching the directory. */
    predicate Checked() {
      && memtableSizeLimit != 0
      && compactionOutputSizeLimit != 0
      && level0CompactionTrigger != 0
      && 1 <= maximumScanEntries < MAX32
      && 1 <= maxKeySize <= MAX32
      && WAL_HEADER_SIZE + maxKeySize + maxValueSize <= MAX32
      && TABLE_BLOCK_HEADER_SIZE + WAL_HEADER_SIZE <= blockSize <= MAX32 - TABLE_BLOCK_HEADER_SIZE
    }

    /** Filters are always sized within the format's limits. */
    ghost predicate Sized() {
      forall keys: nat :: SizingOk(keys)
    }

    ghost predicate Valid() {
      Checked() && Sized()
    }
  }
}
