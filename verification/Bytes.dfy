/** Bytes, and the integers that C++ keeps in 32 bits. */
module Bytes {

  type Byte = x: int | 0 <= x < 256

  const TWO_32 := 0x1_0000_0000

  /** The 32-bit two's complement integer with the same low bits. */
  function Wrap32(v: int): int {
    var m := v % TWO_32;
    if m < TWO_32 / 2 then m else m - TWO_32
  }
}
