/** The fixed-width integers of the source: C# `int` and `long`. */
module Ints {

  /** C# `int` (System.Int32). */
  newtype int32 = x: int | -0x8000_0000 <= x < 0x8000_0000

  /** C# `long` (System.Int64): Telegram chat and user identifiers. */
  newtype int64 = x: int | -0x8000_0000_0000_0000 <= x < 0x8000_0000_0000_0000

  /** Whether a mathematical integer fits in a C# `int`. */
  predicate InInt32(x: int) {
    -0x8000_0000 <= x < 0x8000_0000
  }

  /** `x + 1` on C# `int` in an unchecked context: `int.MaxValue + 1` wraps to `int.MinValue`. */
  function Increment(x: int32): (r: int32)
    ensures (r as int - x as int - 1) % 0x1_0000_0000 == 0
    ensures x as int < 0x7fff_ffff ==> r as int == x as int + 1
  {
    if x == 0x7fff_ffff then -0x8000_0000 else x + 1
  }
}
