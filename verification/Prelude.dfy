/** Machine widths, optional values and transaction outcomes shared by every contract model. */
module Prelude {
  const U32_MAX: int := 0xFFFF_FFFF
  const U64_MAX: int := 0xFFFF_FFFF_FFFF_FFFF
  const I128_MAX: int := 0x7FFF_FFFF_FFFF_FFFF_FFFF_FFFF_FFFF_FFFF
  const I128_MIN: int := -0x8000_0000_0000_0000_0000_0000_0000_0000

  type U32 = x: int | 0 <= x <= U32_MAX
  type U64 = x: int | 0 <= x <= U64_MAX
  type I128 = x: int | I128_MIN <= x <= I128_MAX

  predicate FitsI128(x: int) {
    I128_MIN <= x <= I128_MAX
  }

  function Max(a: int, b: int): int { if a < b then b else a }

  function Min(a: int, b: int): int { if a < b then a else b }

  /** Rust's `u64::saturating_add`. */
  function SatAdd(a: U64, b: U64): U64 {
    if a + b > U64_MAX then U64_MAX else a + b
  }

  /** A Soroban address: an account or a contract. */
  datatype Address = Address(key: nat)

  /** The 32-byte hash of an uploaded contract. */
  datatype Hash = Hash(digest: nat)

  /** The upgrade-authorization model a grainlify-core instance has committed to. */
  datatype UpgradeMode = MultisigMode | GovernanceMode | SingleAdminMode

  datatype Option<+T> = None | Some(value: T)

  /** A transaction either commits a new state or aborts with a reason, which rolls everything back. */
  datatype Outcome<+S, +E> = Commit(state: S) | Abort(error: E)

  /** What a state-changing entry point promises: it did to the state exactly what `spec` says,
      and an abort left the state as it was. */
  predicate Follows<S(==), E(==)>(before: S, after: S, failure: Option<E>, spec: Outcome<S, E>) {
    match spec
    case Commit(s) => after == s && failure == None
    case Abort(e) => after == before && failure == Some(e)
  }
}
