/** XXH32 as its specification states it: on numbers modulo 2 to the power of 32, by position in the input. */
module Xxh32 {
  import opened Bytes
  import opened Words32

  const PRIME1 := 2654435761
  const PRIME2 := 2246822519
  const PRIME3 := 3266489917
  const PRIME4 := 668265263
  const PRIME5 := 374761393

  /** The bits that leave at the top come in at the bottom. */
  function RotateLeft(x: Word, r: nat): Word
    requires r <= 32
  {
    PowerPositive(32 - r);
    Mod(x * Pow2(r) + x / Pow2(32 - r))
  }

  lemma {:induction false} PowerPositive(n: nat)
    ensures Pow2(n) > 0
  {
    if n > 0 {
      PowerPositive(n - 1);
    }
  }

  /** The 32-bit number stored low byte first at byte i. */
  function Load(input: seq<Byte>, i: nat): Word
    requires i + 4 <= |input|
  {
    input[i] + 0x100 * (input[i + 1] as int) + 0x1_0000 * (input[i + 2] as int) + 0x100_0000 * (input[i + 3] as int)
  }

  // ----- step 1: the accumulators

  function Start(seed: Word, lane: nat): Word
    requires lane < 4
  {
    match lane
    case 0 => Mod(seed + PRIME1 + PRIME2)
    case 1 => Mod(seed + PRIME2)
    case 2 => seed
    case _ => Mod(seed - PRIME1)
  }

  // ----- steps 2 and 3: stripes of sixteen bytes, and their convergence

  function Accumulator(input: seq<Byte>, seed: Word, lane: nat, n: nat): Word
    requires lane < 4 && 16 * n <= |input|
  {
    if n == 0 then Start(seed, lane)
    else
      var before := Accumulator(input, seed, lane, n - 1);
      Mod(RotateLeft(Mod(before + Load(input, 16 * (n - 1) + 4 * lane) * PRIME2), 13) * PRIME1)
  }

  function Converge(input: seq<Byte>, seed: Word): Word {
    var n := |input| / 16;
    if n == 0 then Mod(seed + PRIME5)
    else
      Mod(RotateLeft(Accumulator(input, seed, 0, n), 1) + RotateLeft(Accumulator(input, seed, 1, n), 7)
          + RotateLeft(Accumulator(input, seed, 2, n), 12) + RotateLeft(Accumulator(input, seed, 3, n), 18))
  }

  // ----- step 5: what is left of the input, in words and then in bytes

  function AfterWords(h: Word, input: seq<Byte>, from: nat, n: nat): Word
    requires from + 4 * n <= |input|
  {
    if n == 0 then h
    else Mod(RotateLeft(Mod(AfterWords(h, input, from, n - 1) + Load(input, from + 4 * (n - 1)) * PRIME3), 17) * PRIME4)
  }

  function AfterBytes(h: Word, input: seq<Byte>, from: nat, n: nat): Word
    requires from + n <= |input|
  {
    if n == 0 then h
    else Mod(RotateLeft(Mod(AfterBytes(h, input, from, n - 1) + input[from + n - 1] * PRIME5), 11) * PRIME1)
  }

  // ----- step 6: the avalanche

  lemma QuotientNatural(x: nat, d: nat)
    requires d > 0
    ensures x / d >= 0
  {
  }

  function ShiftedRight(h: Word, k: nat): nat {
    PowerPositive(k);
    QuotientNatural(h, Pow2(k));
    h / Pow2(k)
  }

  function XorShift(h: Word, k: nat): Word { Mod(Xor(h, ShiftedRight(h, k))) }

  function Mix(h: Word): Word {
    XorShift(Mod(XorShift(Mod(XorShift(h, 15) * PRIME2), 13) * PRIME3), 16)
  }

  function Finish(h: Word, input: seq<Byte>): Word {
    var stripes := |input| - |input| % 16;
    var words := |input| % 16 / 4;
    var end := stripes + 4 * words;
    Mix(AfterBytes(AfterWords(h, input, stripes, words), input, end, |input| - end))
  }

  /** Step 4 adds the length before what is left of the input is consumed. */
  function Hash(input: seq<Byte>, seed: Word): Word {
    Finish(Mod(Converge(input, seed) + |input|), input)
  }
}
