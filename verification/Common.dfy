/** What several components share: identifiers, optional values, saturating arithmetic and GPU tiers. */
module Common {

  /** A 256-bit hash, read as the big-endian number it spells: the byte order the source
      compares hashes by is the order of these numbers. */
  type Hash = nat

  type Address = nat

  datatype Option<T> = None | Some(value: T)

  const U64_MAX: nat := 0xFFFF_FFFF_FFFF_FFFF
  const U128_MAX: nat := 0xFFFF_FFFF_FFFF_FFFF_FFFF_FFFF_FFFF_FFFF
  const U256_MAX: nat := 0xFFFF_FFFF_FFFF_FFFF_FFFF_FFFF_FFFF_FFFF_FFFF_FFFF_FFFF_FFFF_FFFF_FFFF_FFFF_FFFF

  /** Saturating at the largest value of each width. */
  function Cap64(n: nat): nat {
    if n < U64_MAX then n else U64_MAX
  }

  function Cap128(n: nat): nat {
    if n < U128_MAX then n else U128_MAX
  }

  function Cap256(n: nat): nat {
    if n < U256_MAX then n else U256_MAX
  }

  /** Saturating at zero. */
  function Minus(a: nat, b: nat): nat {
    if a < b then 0 else a - b
  }

  datatype GpuTier = Cold | Warm | Hot

  predicate TierCanRun(node: GpuTier, min: GpuTier) {
    node == Hot || (node == Warm && min != Hot) || (node == Cold && min == Cold)
  }
}
