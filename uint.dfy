/**
 * The fixed-width unsigned integers of the target (an 8-bit AVR), with the
 * wrap-around of C++ unsigned arithmetic written out.
 */
module Uint {

  const TWO_TO_THE_32: int := 0x1_0000_0000

  /** `uint8_t`. */
  type u8 = x: int | 0 <= x < 0x100

  /** `uint32_t`, and `unsigned long` on the target. */
  type u32 = x: int | 0 <= x < 0x1_0000_0000

  /** Unsigned 32-bit addition: `a + b` modulo 2^32. */
  function Add32(a: u32, b: u32): (r: u32)
    ensures r == (a + b) % TWO_TO_THE_32
  {
    if a + b < TWO_TO_THE_32 then a + b else a + b - TWO_TO_THE_32
  }

  /** Unsigned 32-bit subtraction: `a - b` modulo 2^32, never negative. */
  function Sub32(a: u32, b: u32): (r: u32)
    ensures r == (a - b) % TWO_TO_THE_32
  {
    if a >= b then a - b else a - b + TWO_TO_THE_32
  }

  /** Subtraction undoes addition, across the wrap too: this is what makes
      `now - start` the true elapsed time after the clock rolls over. */
  lemma SubAfterAdd(a: u32, k: u32)
    ensures Sub32(Add32(a, k), a) == k
  {
  }
}
