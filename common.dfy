/** Definitions shared by every module of the model: an optional value and the
    fixed-width unsigned integers of the engine, with their wrap-around arithmetic. */
module Common {

  datatype Option<T> = None | Some(value: T)

  /** 2^64: the modulus of Rust's `u64`/`usize` on a 64-bit target. */
  const U64_MODULUS: int := 0x1_0000_0000_0000_0000

  /** `u32::MAX`. */
  const U32_MAX: int := 0xFFFF_FFFF

  /** `u16::MAX`. */
  const U16_MAX: int := 0xFFFF

  type usize = x: int | 0 <= x < U64_MODULUS

  /** Atomic `fetch_add` / release-mode `+` on `usize`: the sum modulo 2^64. */
  function WrappingAdd(a: usize, b: usize): (r: usize)
    ensures a + b < U64_MODULUS ==> r == a + b
    ensures a + b >= U64_MODULUS ==> r == a + b - U64_MODULUS
  {
    (a + b) % U64_MODULUS
  }

  /** Atomic `fetch_sub` / release-mode `-` on `usize`: the difference modulo 2^64. */
  function WrappingSub(a: usize, b: usize): (r: usize)
    ensures b <= a ==> r == a - b
    ensures b > a ==> r == a - b + U64_MODULUS
  {
    (a - b) % U64_MODULUS
  }

  /** `x as u64` for a non-negative wider integer: truncation to the low 64 bits. */
  function TruncateToU64(x: nat): (r: usize)
    ensures x < U64_MODULUS ==> r == x
    ensures (r - x) % U64_MODULUS == 0
  {
    x % U64_MODULUS
  }

  /** A sequence without repeated elements. */
  predicate NoDuplicates<T(==)>(s: seq<T>)
  {
    forall i, j :: 0 <= i < j < |s| ==> s[i] != s[j]
  }

  function Min(a: int, b: int): int { if a <= b then a else b }

  function Max(a: int, b: int): int { if a >= b then a else b }
}
