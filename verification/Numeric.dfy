/**
 Fixed-width integers as the node uses them. Saturating operations clamp;
 everything else is compiled with overflow checks and aborts the process, which
 the modules below represent by an explicit `Panicked` result.
 */
module Numeric {
  const U32_MAX: int := 0xFFFF_FFFF
  const U64_MAX: int := 0xFFFF_FFFF_FFFF_FFFF
  const U128_MAX: int := 0xFFFF_FFFF_FFFF_FFFF_FFFF_FFFF_FFFF_FFFF

  type u8 = x: int | 0 <= x <= 0xFF
  type u32 = x: int | 0 <= x <= U32_MAX
  type u64 = x: int | 0 <= x <= U64_MAX
  type u128 = x: int | 0 <= x <= U128_MAX

  function Min(a: int, b: int): int {
    if a <= b then a else b
  }

  function Max(a: int, b: int): int {
    if a <= b then b else a
  }

  function SatAdd32(a: u32, b: u32): u32 {
    Min(a + b, U32_MAX)
  }

  function SatAdd64(a: u64, b: u64): u64 {
    Min(a + b, U64_MAX)
  }

  function SatSub64(a: u64, b: u64): u64 {
    Max(a - b, 0)
  }

  function SatAdd128(a: u128, b: u128): u128 {
    Min(a + b, U128_MAX)
  }

  function SatSub128(a: u128, b: u128): u128 {
    Max(a - b, 0)
  }

  function SatMul128(a: u128, b: u128): u128 {
    assert 0 <= a * b;
    Min(a * b, U128_MAX)
  }

  function Pow256(width: nat): nat {
    if width == 0 then 1 else 256 * Pow256(width - 1)
  }
}
