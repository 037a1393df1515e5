/**
  The byte helpers of lifx.h: `lowByte`, `highByte` and `word`, which split a
  16-bit word into its two bytes and join two bytes back into a word.

  The macros use C's bitwise operators on arguments promoted to a 32-bit
  `int` and then cast the result to `uint8_t` or `uint16_t`. The model takes
  32-bit bit-vector arguments, writes each cast as keeping the low bits, and
  states each result's meaning with bit-vector arithmetic (multiplication,
  division and remainder by powers of two).
 */
module LifxBytes {

  /** The unsigned C types the firmware uses, as integers. */
  type u8 = x: int | 0 <= x < 0x100
  type u16 = x: int | 0 <= x < 0x1_0000
  type u32 = x: int | 0 <= x < 0x1_0000_0000

  /** The cast `(uint8_t) x`, which keeps the low 8 bits of a 32-bit value. */
  function ToByte(x: bv32): (r: bv8)
    ensures r as bv32 == x % 0x100
  {
    (x & 0xFF) as bv8
  }

  /** `lowByte(w)`: `(uint8_t)((w) & 0xff)`. */
  function LowByte(w: bv32): (r: bv8)
    ensures r as bv32 == w % 0x100
  {
    ToByte(w & 0xFF)
  }

  /** `highByte(w)`: `(uint8_t)((w) >> 8)`; for a 16-bit word this is its upper byte. */
  function HighByte(w: bv32): (r: bv8)
    ensures r as bv32 == (w / 0x100) % 0x100
    ensures w < 0x1_0000 ==> r as bv32 == w / 0x100
  {
    ToByte(w >> 8)
  }

  /** `word(b1, b2)`: `uint16_t(uint8_t(b1) << 8 | uint8_t(b2))`. */
  function Word(b1: bv32, b2: bv32): (r: bv16)
    ensures r as bv32 == (b1 % 0x100) * 0x100 + b2 % 0x100
  {
    ((ToByte(b1) as bv16) << 8) | (ToByte(b2) as bv16)
  }

  /** Splitting a 16-bit word and joining its bytes again gives the word back. */
  lemma WordOfBytes(w: bv16)
    ensures Word(HighByte(w as bv32) as bv32, LowByte(w as bv32) as bv32) == w
  {
  }

  /** Joining two bytes and splitting the word again gives the two bytes back. */
  lemma BytesOfWord(a: bv8, b: bv8)
    ensures HighByte(Word(a as bv32, b as bv32) as bv32) == a
    ensures LowByte(Word(a as bv32, b as bv32) as bv32) == b
  {
  }
}
