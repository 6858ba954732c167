/** Types and machine-arithmetic helpers shared by every component. */
module Basics {

  datatype Option<+T> = None | Some(value: T)

  datatype Result<+T> = Ok(value: T) | Err(error: Error)

  /** The error kinds the modelled operations can return. */
  datatype Error =
    | InvalidConfig
    | InvalidState
    | InvalidFrame
    | UnsupportedFormat
    | StreamStopped
    | BufferExhausted

  type byte = x: int | 0 <= x < 256

  const U32_LIMIT: nat := 0x1_0000_0000
  const U64_LIMIT: nat := 0x1_0000_0000_0000_0000

  type u32 = x: int | 0 <= x < U32_LIMIT
  /** `u64`, and `usize` on the 64-bit targets. */
  type u64 = x: int | 0 <= x < U64_LIMIT

  function Min(a: int, b: int): int {
    if a <= b then a else b
  }

  function Max(a: int, b: int): int {
    if a >= b then a else b
  }

  /** Rust's `saturating_sub` on an unsigned type. */
  function SatSub(a: nat, b: nat): nat {
    if a >= b then a - b else 0
  }

  /** Rust's `saturating_add` on `u64`. */
  function SatAdd(a: nat, b: nat): nat {
    if a + b < U64_LIMIT then a + b else U64_LIMIT - 1
  }
}
