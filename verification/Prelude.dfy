/** Datatypes and machine-integer arithmetic shared by every module. */
module Prelude {
  const U16_MAX: nat := 0xFFFF
  const U32_MAX: nat := 0xFFFF_FFFF
  const U64_MAX: nat := 0xFFFF_FFFF_FFFF_FFFF
  const U128_MAX: nat := 0xFFFF_FFFF_FFFF_FFFF_FFFF_FFFF_FFFF_FFFF

  type Byte = b: nat | b < 256
  type U32 = n: nat | n <= U32_MAX

  datatype Option<+T> = None | Some(value: T)

  datatype Result<+T, +E> = Success(value: T) | Failure(error: E)

  function Min(a: int, b: int): int {
    if a <= b then a else b
  }

  function Max(a: int, b: int): int {
    if a >= b then a else b
  }

  /** `u64::saturating_add` (and `usize::saturating_add` on 64-bit targets). */
  function SatAdd(a: nat, b: nat): nat {
    Min(a + b, U64_MAX)
  }

  /** `saturating_sub` on any unsigned width. */
  function SatSub(a: nat, b: nat): nat {
    if a >= b then a - b else 0
  }

  type NodeId = nat

  /** A frame is opaque to the protocols: only its identity matters. */
  type Frame = seq<nat>

  /** `div_ceil`, by repeated subtraction. */
  function CeilDiv(a: nat, b: nat): nat
    requires b > 0
  {
    if a == 0 then 0 else if a <= b then 1 else 1 + CeilDiv(a - b, b)
  }

  /** `CeilDiv(a, b)` is the least `k` with `a <= k * b`. */
  lemma {:induction false} CeilDivMeaning(a: nat, b: nat)
    requires b > 0
    ensures a <= CeilDiv(a, b) * b
    ensures a > 0 ==> 1 <= CeilDiv(a, b) && (CeilDiv(a, b) - 1) * b < a
  {
    if a > b {
      CeilDivMeaning(a - b, b);
    }
  }

  lemma {:induction false} CeilDivMonotone(a: nat, a': nat, b: nat)
    requires b > 0 && a <= a'
    ensures CeilDiv(a, b) <= CeilDiv(a', b)
  {
    if a > b {
      CeilDivMonotone(a - b, a' - b, b);
    }
  }
}
