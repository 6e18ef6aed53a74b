/** Unsigned bytes as numbers. */
module Bytes {

  type Byte = b: int | 0 <= b < 0x100

  function Numbers(s: seq<bv8>): seq<Byte> { seq(|s|, k requires 0 <= k < |s| => s[k] as Byte) }
}
