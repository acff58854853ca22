/** Shared vocabulary: optional values and machine integers. */
module Common {

  datatype Option<+T> = None | Some(value: T)

  const U64_LIMIT: nat := 0x1_0000_0000_0000_0000
  const LLONG_MAX: int := 0x7FFF_FFFF_FFFF_FFFF
  const LLONG_MIN: int := -0x8000_0000_0000_0000

  /** Rust's `u64`. */
  type U64 = n: nat | n < 0x1_0000_0000_0000_0000

  /** Rust's `u32`. */
  type U32 = n: nat | n < 0x1_0000_0000

  /** The range of C's `long`/`long long` on LP64 and of Zig's `i64`. */
  predicate FitsI64(n: int) { LLONG_MIN <= n <= LLONG_MAX }

  predicate FitsI32(n: int) { -0x8000_0000 <= n <= 0x7FFF_FFFF }

  /** `u64::saturating_mul`. */
  function SaturatingMul(a: U64, b: U64): U64 {
    if a * b < U64_LIMIT then a * b else U64_LIMIT - 1
  }

  /** `u64::checked_mul`. */
  function CheckedMul(a: U64, b: U64): Option<U64> {
    if a * b < U64_LIMIT then Some(a * b) else None
  }

  /** The elements of a sequence, as `HashSet` collects them. */
  function SetOf<T(==)>(s: seq<T>): set<T> { set x | x in s }

  /** A duplicate-free list has as many elements as its set. */
  lemma {:induction false} DistinctCount<T>(s: seq<T>)
    requires forall i, j :: 0 <= i < j < |s| ==> s[i] != s[j]
    ensures |SetOf(s)| == |s|
  {
    if |s| > 0 {
      var k := |s| - 1;
      DistinctCount(s[..k]);
      assert s == s[..k] + [s[k]];
      assert SetOf(s) == SetOf(s[..k]) + {s[k]};
      assert s[k] !in s[..k];
    }
  }
}
