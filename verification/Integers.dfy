/** The fixed-width integers of the C and Rust sources, an option type, and what sequences of revisions share. */
module Integers {
  const U64_MAX := 0xffff_ffff_ffff_ffff
  const U32_MAX := 0xffff_ffff
  const U16_MAX := 0xffff
  const I64_MAX := 0x7fff_ffff_ffff_ffff

  type U64 = x: int | 0 <= x <= U64_MAX
  type U32 = x: int | 0 <= x <= U32_MAX
  type U16 = x: int | 0 <= x <= U16_MAX
  type U8 = x: int | 0 <= x <= 0xff
  type byte = U8
  type I16 = x: int | -0x8000 <= x <= 0x7fff
  type I64 = x: int | -0x8000_0000_0000_0000 <= x <= I64_MAX

  datatype Option<+T> = None | Some(value: T)

  /** Unsigned 64-bit addition and subtraction, which wrap around in C. */
  function WrapAdd64(a: U64, b: U64): U64 {
    (a + b) % (U64_MAX + 1)
  }

  function WrapSub64(a: U64, b: U64): U64 {
    (a - b) % (U64_MAX + 1)
  }

  /** A `uint32_t` incremented by one. */
  function WrapInc32(a: U32): U32 {
    (a + 1) % (U32_MAX + 1)
  }

  function Min(a: nat, b: nat): nat {
    if a < b then a else b
  }

  predicate Increasing(s: seq<int>) {
    forall i, j :: 0 <= i < j < |s| ==> s[i] < s[j]
  }

  /** Every revision after `first`, up to `last`, is in the buffer. */
  predicate HasRun<T>(buffer: map<U64, T>, first: nat, last: nat) {
    forall r: U64 :: first < r <= last ==> r in buffer
  }
}
