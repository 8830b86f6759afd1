/** Small vocabulary shared by every module. */
module Prelude {

  datatype Option<+T> = None | Some(value: T)

  function Min(a: int, b: int): int { if a <= b then a else b }

  function Max(a: int, b: int): int { if a >= b then a else b }

  // ---------------------------------------------------------------- durations

  const WORD := 0x1_0000_0000_0000_0000
  const HALF_WORD := 0x8000_0000_0000_0000
  const NANOS := 1_000_000_000

  /** Two's complement in 64 bits. */
  function Wrap64(x: int): int {
    if x % WORD < HALF_WORD then x % WORD else x % WORD - WORD
  }

  /** The greatest number of seconds whose nanoseconds fit 63 bits: 292 years. */
  const SAFE_SECONDS := 9_223_372_036
}
