/** The byte-swapping macros of bpf_endian.h, on machine words. */
module ByteOrder {

  /** The bytes of a word as a little-endian machine stores them. */
  function Bytes16(x: bv16): seq<bv8> {
    [(x & 0xFF) as bv8, (x >> 8) as bv8]
  }

  function Bytes32(x: bv32): seq<bv8> {
    [(x & 0xFF) as bv8, ((x >> 8) & 0xFF) as bv8, ((x >> 16) & 0xFF) as bv8, (x >> 24) as bv8]
  }

  function Bytes64(x: bv64): seq<bv8> {
    Bytes32((x & 0xFFFF_FFFF) as bv32) + Bytes32((x >> 32) as bv32)
  }

  function Reverse<T>(s: seq<T>): (r: seq<T>)
    ensures |r| == |s| && forall k | 0 <= k < |s| :: r[k] == s[|s| - 1 - k]
  {
    if s == [] then [] else Reverse(s[1..]) + [s[0]]
  }

  /** Byte n of a word moved to place m.  In C the 16-bit operand is promoted to int before the shifts. */
  function Mvb16(x: bv16, n: bv32, m: bv32): bv32
    requires n < 2 && m < 2
  {
    (((x as bv32) << (16 - (n + 1) * 8)) >> 8) << (m * 8)
  }

  function Mvb32(x: bv32, n: bv32, m: bv32): bv32
    requires n < 4 && m < 4
  {
    ((x << (32 - (n + 1) * 8)) >> 24) << (m * 8)
  }

  function Mvb64(x: bv64, n: bv64, m: bv64): bv64
    requires n < 8 && m < 8
  {
    ((x << (64 - (n + 1) * 8)) >> 56) << (m * 8)
  }

  function Swab16(x: bv16): bv16 {
    ((Mvb16(x, 0, 1) | Mvb16(x, 1, 0)) & 0xFFFF) as bv16
  }

  function Swab32(x: bv32): bv32 {
    Mvb32(x, 0, 3) | Mvb32(x, 1, 2) | Mvb32(x, 2, 1) | Mvb32(x, 3, 0)
  }

  function Swab64(x: bv64): bv64 {
    Mvb64(x, 0, 7) | Mvb64(x, 1, 6) | Mvb64(x, 2, 5) | Mvb64(x, 3, 4)
    | Mvb64(x, 4, 3) | Mvb64(x, 5, 2) | Mvb64(x, 6, 1) | Mvb64(x, 7, 0)
  }

  lemma Swab16Reverses(x: bv16)
    ensures Bytes16(Swab16(x)) == Reverse(Bytes16(x))
  {
  }

  lemma Swab32Reverses(x: bv32)
    ensures Bytes32(Swab32(x)) == Reverse(Bytes32(x))
  {
  }

  lemma Swab64Halves(x: bv64)
    ensures (Swab64(x) & 0xFFFF_FFFF) as bv32 == Swab32((x >> 32) as bv32)
    ensures (Swab64(x) >> 32) as bv32 == Swab32((x & 0xFFFF_FFFF) as bv32)
  {
  }

  lemma Swab64Reverses(x: bv64)
    ensures Bytes64(Swab64(x)) == Reverse(Bytes64(x))
  {
    hide Swab64, Swab32, Bytes32;
    var low, high := (x & 0xFFFF_FFFF) as bv32, (x >> 32) as bv32;
    Swab64Halves(x);
    Swab32Reverses(low);
    Swab32Reverses(high);
    FourBytes(low);
    FourBytes(high);
    assert Reverse(Bytes32(low) + Bytes32(high)) == Reverse(Bytes32(high)) + Reverse(Bytes32(low));
  }

  lemma FourBytes(x: bv32)
    ensures |Bytes32(x)| == 4
  {
  }

  lemma SwabInvolutions(x: bv16, y: bv32, z: bv64)
    ensures Swab16(Swab16(x)) == x && Swab32(Swab32(y)) == y && Swab64(Swab64(z)) == z
  {
  }

  /** A number made of the given bytes, the lowest first, is stored as these bytes. */
  lemma StoredBytes(a: bv8, b: bv8, c: bv8, d: bv8)
    ensures Bytes16(a as bv16 + 0x100 * b as bv16) == [a, b]
    ensures Bytes32(a as bv32 + 0x100 * b as bv32 + 0x1_0000 * c as bv32 + 0x100_0000 * d as bv32) == [a, b, c, d]
  {
  }

  lemma SwappedLiterals()
    ensures Swab16(0x1234) == 0x3412 && Swab32(0x1234_5678) == 0x7856_3412
    ensures Swab64(0x0123_4567_89AB_CDEF) == 0xEFCD_AB89_6745_2301
  {
  }
}
