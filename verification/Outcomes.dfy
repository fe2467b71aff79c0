/** Values that may be absent, operations that may fail, and what several parts have in common. */
module Outcomes {

  datatype Option<+T> = None | Some(value: T)

  datatype Result<+T, +E> = Ok(value: T) | Err(error: E)

  /** The largest value of the signed 64-bit columns and counters. */
  const I64_MAX: int := 0x7fff_ffff_ffff_ffff

  /** The largest value of the signed 32-bit counters. */
  const I32_MAX: int := 0x7fff_ffff

  /** What an entry is identified by (`src/feeds/identity.rs`). */
  datatype IdentityKind = Guid | Url | Fingerprint

  /** How many of the latest entries of a feed a new subscription shows. */
  const INITIAL_VISIBLE_ENTRY_COUNT: int := 100

  /** The frontier at which a new subscription starts. */
  function InitialFrontier(head: int): int {
    if head - INITIAL_VISIBLE_ENTRY_COUNT > 0 then head - INITIAL_VISIBLE_ENTRY_COUNT else 0
  }

  /** No element occurs at two positions. */
  ghost predicate Distinct<T>(s: seq<T>) {
    forall i, j :: 0 <= i < j < |s| ==> s[i] != s[j]
  }
}
