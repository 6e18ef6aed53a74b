/** The recursive hash on machine words computes the XXH32 of the specification, on numbers. */
module XxHashMeaning {
  import opened Bytes
  import opened Words32
  import opened XxHash
  import Xxh32

  // ----- the operations on words

  lemma PrimeValues()
    ensures Value(0x9E3779B1) == Xxh32.PRIME1 && Value(0x85EBCA77) == Xxh32.PRIME2
    ensures Value(0xC2B2AE3D) == Xxh32.PRIME3 && Value(0x27D4EB2F) == Xxh32.PRIME4
    ensures Value(0x165667B1) == Xxh32.PRIME5
  {
  }

  lemma MulMeaning(x: bv32)
    ensures Value(MulPrime1(x)) == Mod(Value(x) * Xxh32.PRIME1)
    ensures Value(MulPrime2(x)) == Mod(Value(x) * Xxh32.PRIME2)
    ensures Value(MulPrime3(x)) == Mod(Value(x) * Xxh32.PRIME3)
    ensures Value(MulPrime4(x)) == Mod(Value(x) * Xxh32.PRIME4)
    ensures Value(MulPrime5(x)) == Mod(Value(x) * Xxh32.PRIME5)
  {
    hide Value, Mod, Times;
    PrimeValues();
    Product(x, 0x9E3779B1);
    Product(x, 0x85EBCA77);
    Product(x, 0xC2B2AE3D);
    Product(x, 0x27D4EB2F);
    Product(x, 0x165667B1);
  }

  lemma PowerValues()
    ensures Value(0x2) == Pow2(1) && Value(0x80) == Pow2(7) && Value(0x800) == Pow2(11) && Value(0x1000) == Pow2(12)
    ensures Value(0x2000) == Pow2(13) && Value(0x2_0000) == Pow2(17) && Value(0x4_0000) == Pow2(18)
  {
  }

  lemma AmountValues()
    ensures Value(31) == 31 && Value(25) == 25 && Value(21) == 21 && Value(20) == 20
    ensures Value(19) == 19 && Value(15) == 15 && Value(14) == 14 && Value(13) == 13 && Value(16) == 16
  {
  }

  lemma Rotated(x: bv32, m: bv32, k: bv32, r: nat)
    requires k < 32 && r <= 32 && Value(k) == 32 - r && Value(m) == Pow2(r)
    ensures Value(Plus(Times(x, m), Shift(x, k))) == Xxh32.RotateLeft(Value(x), r)
  {
    hide Value, Mod, Plus, Times, Shift;
    Product(x, m);
    ShiftValue(x, k);
    Sum(Times(x, m), Shift(x, k));
    ModMod(Value(x) * Pow2(r), Value(x) / Pow2(32 - r));
  }

  lemma Parts1(x: bv32)
    ensures Rotl(x, 1) == Plus(Times(x, 0x2), Shift(x, 31))
  {
  }

  lemma Rotl1Meaning(x: bv32)
    ensures Value(Rotl(x, 1)) == Xxh32.RotateLeft(Value(x), 1)
  {
    hide Value, Plus, Times, Shift, Rotl, Pow2, Xxh32.RotateLeft;
    PowerValues();
    AmountValues();
    Parts1(x);
    Rotated(x, 0x2, 31, 1);
  }

  lemma Parts7(x: bv32)
    ensures Rotl(x, 7) == Plus(Times(x, 0x80), Shift(x, 25))
  {
  }

  lemma Rotl7Meaning(x: bv32)
    ensures Value(Rotl(x, 7)) == Xxh32.RotateLeft(Value(x), 7)
  {
    hide Value, Plus, Times, Shift, Rotl, Pow2, Xxh32.RotateLeft;
    PowerValues();
    AmountValues();
    Parts7(x);
    Rotated(x, 0x80, 25, 7);
  }

  lemma Parts11(x: bv32)
    ensures Rotl(x, 11) == Plus(Times(x, 0x800), Shift(x, 21))
  {
  }

  lemma Rotl11Meaning(x: bv32)
    ensures Value(Rotl(x, 11)) == Xxh32.RotateLeft(Value(x), 11)
  {
    hide Value, Plus, Times, Shift, Rotl, Pow2, Xxh32.RotateLeft;
    PowerValues();
    AmountValues();
    Parts11(x);
    Rotated(x, 0x800, 21, 11);
  }

  lemma Parts12(x: bv32)
    ensures Rotl(x, 12) == Plus(Times(x, 0x1000), Shift(x, 20))
  {
  }

  lemma Rotl12Meaning(x: bv32)
    ensures Value(Rotl(x, 12)) == Xxh32.RotateLeft(Value(x), 12)
  {
    hide Value, Plus, Times, Shift, Rotl, Pow2, Xxh32.RotateLeft;
    PowerValues();
    AmountValues();
    Parts12(x);
    Rotated(x, 0x1000, 20, 12);
  }

  lemma Parts13(x: bv32)
    ensures Rotl(x, 13) == Plus(Times(x, 0x2000), Shift(x, 19))
  {
  }

  lemma Rotl13Meaning(x: bv32)
    ensures Value(Rotl(x, 13)) == Xxh32.RotateLeft(Value(x), 13)
  {
    hide Value, Plus, Times, Shift, Rotl, Pow2, Xxh32.RotateLeft;
    PowerValues();
    AmountValues();
    Parts13(x);
    Rotated(x, 0x2000, 19, 13);
  }

  lemma Parts17(x: bv32)
    ensures Rotl(x, 17) == Plus(Times(x, 0x2_0000), Shift(x, 15))
  {
  }

  lemma Rotl17Meaning(x: bv32)
    ensures Value(Rotl(x, 17)) == Xxh32.RotateLeft(Value(x), 17)
  {
    hide Value, Plus, Times, Shift, Rotl, Pow2, Xxh32.RotateLeft;
    PowerValues();
    AmountValues();
    Parts17(x);
    Rotated(x, 0x2_0000, 15, 17);
  }

  lemma Parts18(x: bv32)
    ensures Rotl(x, 18) == Plus(Times(x, 0x4_0000), Shift(x, 14))
  {
  }

  lemma Rotl18Meaning(x: bv32)
    ensures Value(Rotl(x, 18)) == Xxh32.RotateLeft(Value(x), 18)
  {
    hide Value, Plus, Times, Shift, Rotl, Pow2, Xxh32.RotateLeft;
    PowerValues();
    AmountValues();
    Parts18(x);
    Rotated(x, 0x4_0000, 14, 18);
  }

  lemma XorShifts13(h: bv32)
    ensures XorShift13(h) == ExclusiveOr(h, Shift(h, 13))
  {
    assert Shift(h, 13) == h >> 13;
  }

  lemma XorShifts15(h: bv32)
    ensures XorShift15(h) == ExclusiveOr(h, Shift(h, 15))
  {
    assert Shift(h, 15) == h >> 15;
  }

  lemma XorShifts16(h: bv32)
    ensures XorShift16(h) == ExclusiveOr(h, Shift(h, 16))
  {
    assert Shift(h, 16) == h >> 16;
  }

  lemma XorShifted(h: bv32, k: bv32, n: nat)
    requires k < 32 && Value(k) == n
    ensures Value(ExclusiveOr(h, Shift(h, k))) == Xxh32.XorShift(Value(h), n)
  {
    hide Value, ExclusiveOr, Shift, Xor, Pow2;
    XorValue(h, Shift(h, k));
    ShiftValue(h, k);
    ModSmall(Value(ExclusiveOr(h, Shift(h, k))));
  }

  lemma AvalancheMeaning(h: bv32)
    ensures Value(Avalanche(h)) == Xxh32.Mix(Value(h))
  {
    hide Value, MulPrime2, MulPrime3, XorShift13, XorShift15, XorShift16, ExclusiveOr, Shift, Mod, Xxh32.XorShift;
    AmountValues();
    var a := XorShift15(h);
    var b := MulPrime2(a);
    var c := XorShift13(b);
    var d := MulPrime3(c);
    XorShifts15(h);
    XorShifted(h, 15, 15);
    MulMeaning(a);
    XorShifts13(b);
    XorShifted(b, 13, 13);
    MulMeaning(c);
    XorShifts16(d);
    XorShifted(d, 16, 16);
  }

  // ----- loads and steps

  lemma EndianBytes(v: seq<bv8>)
    requires |v| >= 4
    ensures Endian32(v) == FromBytes(v[0], v[1], v[2], v[3])
  {
  }

  /** A load takes the low byte first. */
  lemma Endian32Meaning(v: seq<bv8>)
    requires |v| >= 4
    ensures Value(Endian32(v))
            == v[0] as int + 0x100 * (v[1] as int) + 0x1_0000 * (v[2] as int) + 0x100_0000 * (v[3] as int)
  {
    hide Value, Endian32, FromBytes;
    EndianBytes(v);
    BytesValue(v[0], v[1], v[2], v[3]);
  }

  lemma LaneMeaning(input: seq<bv8>, i: nat)
    requires i + 4 <= |input|
    ensures Value(Lane(input, i)) == Xxh32.Load(Numbers(input), i)
  {
    hide Value, Endian32;
    Endian32Meaning(input[i..i + 4]);
  }

  lemma RoundMeaning(acc: bv32, input: bv32)
    ensures Value(Round(acc, input))
            == Mod(Xxh32.RotateLeft(Mod(Value(acc) + Value(input) * Xxh32.PRIME2), 13) * Xxh32.PRIME1)
  {
    hide Value, Mod, Plus, MulPrime1, MulPrime2, Rotl, Xxh32.RotateLeft;
    MulMeaning(input);
    PlusMod(acc, MulPrime2(input), Value(input) * Xxh32.PRIME2);
    Rotl13Meaning(Plus(acc, MulPrime2(input)));
    MulMeaning(Rotl(Plus(acc, MulPrime2(input)), 13));
  }

  lemma PlusMod(x: bv32, y: bv32, n: int)
    requires Value(y) == Mod(n)
    ensures Value(Plus(x, y)) == Mod(Value(x) + n)
  {
    hide Value, Mod, Plus;
    Sum(x, y);
    ModMod(n, Value(x));
  }

  lemma WordStepMeaning(h: bv32, word: bv32)
    ensures Value(WordStep(h, word))
            == Mod(Xxh32.RotateLeft(Mod(Value(h) + Value(word) * Xxh32.PRIME3), 17) * Xxh32.PRIME4)
  {
    hide Value, Mod, Plus, MulPrime3, MulPrime4, Rotl, Xxh32.RotateLeft;
    MulMeaning(word);
    PlusMod(h, MulPrime3(word), Value(word) * Xxh32.PRIME3);
    Rotl17Meaning(Plus(h, MulPrime3(word)));
    MulMeaning(Rotl(Plus(h, MulPrime3(word)), 17));
  }

  lemma ByteStepMeaning(h: bv32, b: bv8)
    ensures Value(ByteStep(h, b))
            == Mod(Xxh32.RotateLeft(Mod(Value(h) + b as int * Xxh32.PRIME5), 11) * Xxh32.PRIME1)
  {
    hide Value, Mod, Plus, MulPrime5, MulPrime1, Rotl, Xxh32.RotateLeft;
    ByteValue(b);
    MulMeaning(b as bv32);
    PlusMod(h, MulPrime5(b as bv32), Value(b as bv32) * Xxh32.PRIME5);
    Rotl11Meaning(Plus(h, MulPrime5(b as bv32)));
    MulMeaning(Rotl(Plus(h, MulPrime5(b as bv32)), 11));
  }

  lemma ByteValue(b: bv8)
    ensures Value(b as bv32) == b as int
  {
  }

  // ----- the hash

  lemma InitMeaning(seed: bv32, lane: nat)
    requires lane < 4
    ensures Value(Init(seed, lane)) == Xxh32.Start(Value(seed), lane)
  {
    hide Value, Mod, Plus;
    PrimeValues();
    Sum(seed, 0x9E3779B1);
    Sum(Plus(seed, 0x9E3779B1), 0x85EBCA77);
    ModMod(Value(seed) + Xxh32.PRIME1, Xxh32.PRIME2);
    Sum(seed, 0x85EBCA77);
    Difference(seed);
  }

  lemma Difference(seed: bv32)
    ensures Value(seed - 0x9E3779B1) == Mod(Value(seed) - Xxh32.PRIME1)
  {
    hide Value, Plus;
    PrimeValues();
    Undone(seed);
    Sum(seed - 0x9E3779B1, 0x9E3779B1);
  }

  lemma Undone(seed: bv32)
    ensures Plus(seed - 0x9E3779B1, 0x9E3779B1) == seed
  {
  }

  lemma {:induction false} AccMeaning(input: seq<bv8>, seed: bv32, lane: nat, n: nat)
    requires lane < 4 && 16 * n <= |input|
    ensures Value(Acc(input, seed, lane, n)) == Xxh32.Accumulator(Numbers(input), Value(seed), lane, n)
  {
    hide Value, Mod, Init, Round, Lane, Xxh32.Start, Xxh32.Load, Xxh32.RotateLeft;
    if n == 0 {
      InitMeaning(seed, lane);
    } else {
      AccMeaning(input, seed, lane, n - 1);
      LaneMeaning(input, Offset(n - 1, lane));
      RoundMeaning(Acc(input, seed, lane, n - 1), Lane(input, Offset(n - 1, lane)));
    }
  }

  lemma MergeMeaning(a: bv32, b: bv32, c: bv32, d: bv32)
    ensures Value(Merge(a, b, c, d))
            == Mod(Xxh32.RotateLeft(Value(a), 1) + Xxh32.RotateLeft(Value(b), 7) + Xxh32.RotateLeft(Value(c), 12)
                   + Xxh32.RotateLeft(Value(d), 18))
  {
    hide Value, Mod, Plus, Rotl, Xxh32.RotateLeft;
    Rotl1Meaning(a);
    Rotl7Meaning(b);
    Rotl12Meaning(c);
    Rotl18Meaning(d);
    var p, q, r, s := Rotl(a, 1), Rotl(b, 7), Rotl(c, 12), Rotl(d, 18);
    Sum(p, q);
    Sum(Plus(p, q), r);
    ModMod(Value(p) + Value(q), Value(r));
    Sum(Plus(Plus(p, q), r), s);
    ModMod(Value(p) + Value(q) + Value(r), Value(s));
  }

  lemma ConvergedMeaning(input: seq<bv8>, seed: bv32)
    ensures Value(Converged(input, seed)) == Xxh32.Converge(Numbers(input), Value(seed))
  {
    hide Value, Mod, Plus, Merge, Acc, Xxh32.Accumulator, Xxh32.RotateLeft;
    var n := |input| / 16;
    PrimeValues();
    Sum(seed, 0x165667B1);
    AccMeaning(input, seed, 0, n);
    AccMeaning(input, seed, 1, n);
    AccMeaning(input, seed, 2, n);
    AccMeaning(input, seed, 3, n);
    MergeMeaning(Acc(input, seed, 0, n), Acc(input, seed, 1, n), Acc(input, seed, 2, n), Acc(input, seed, 3, n));
  }

  lemma {:induction false} WordsMeaning(h: bv32, input: seq<bv8>, from: nat, n: nat)
    requires from + 4 * n <= |input|
    ensures Value(Words(h, input, from, n)) == Xxh32.AfterWords(Value(h), Numbers(input), from, n)
  {
    hide Value, Mod, WordStep, Lane, Xxh32.Load, Xxh32.RotateLeft;
    if n > 0 {
      WordsMeaning(h, input, from, n - 1);
      LaneMeaning(input, WordAt(from, n - 1));
      WordStepMeaning(Words(h, input, from, n - 1), Lane(input, WordAt(from, n - 1)));
    }
  }

  lemma {:induction false} TailMeaning(h: bv32, input: seq<bv8>, from: nat, n: nat)
    requires from + n <= |input|
    ensures Value(Tail(h, input, from, n)) == Xxh32.AfterBytes(Value(h), Numbers(input), from, n)
  {
    hide Value, Mod, ByteStep, Xxh32.RotateLeft;
    if n > 0 {
      TailMeaning(h, input, from, n - 1);
      ByteStepMeaning(Tail(h, input, from, n - 1), input[from + n - 1]);
    }
  }

  lemma LengthMeaning(input: seq<bv8>)
    requires |input| < 0x1_0000_0000
    ensures Value(Length32(input)) == |input|
  {
    hide Value;
    CastValue(|input|);
  }

  /** For every input and every seed, the value of the recursive hash is the XXH32 of the specification. */
  lemma HashMeaning(input: seq<bv8>, seed: bv32)
    requires |input| < 0x1_0000_0000
    ensures XxHash32(input, seed) as int == Xxh32.Hash(Numbers(input), seed as int)
  {
    HashValue(input, seed);
  }

  lemma HashValue(input: seq<bv8>, seed: bv32)
    requires |input| < 0x1_0000_0000
    ensures Value(XxHash32(input, seed)) == Xxh32.Hash(Numbers(input), Value(seed))
  {
    hide Value, Plus, XxHash32, Reference, Consume, Xxh32.Hash, Xxh32.Finish, Xxh32.Converge, Mod, Converged, Length32;
    RefinesReference(input, seed);
    ReferenceParts(input, seed);
    ConvergedMeaning(input, seed);
    LengthMeaning(input);
    Sum(Converged(input, seed), Length32(input));
    ConsumeMeaning(Plus(Converged(input, seed), Length32(input)), input);
    HashParts(Numbers(input), Value(seed));
  }

  lemma ReferenceParts(input: seq<bv8>, seed: bv32)
    requires |input| < 0x1_0000_0000
    ensures Reference(input, seed) == Consume(Plus(Converged(input, seed), Length32(input)), input)
  {
    hide Consume, Converged, Length32, Plus;
  }

  lemma HashParts(input: seq<Byte>, seed: Word)
    ensures Xxh32.Hash(input, seed) == Xxh32.Finish(Mod(Xxh32.Converge(input, seed) + |input|), input)
  {
    hide Xxh32.Finish, Xxh32.Converge, Mod;
  }

  lemma ConsumeMeaning(h: bv32, input: seq<bv8>)
    ensures Value(Consume(h, input)) == Xxh32.Finish(Value(h), Numbers(input))
  {
    hide Value, Words, Tail, Avalanche, Xxh32.AfterWords, Xxh32.AfterBytes, Xxh32.Mix;
    var stripes, words := StripeEnd(|input|), WordCount(|input|);
    var end := WordAt(stripes, words);
    WordsMeaning(h, input, stripes, words);
    TailMeaning(Words(h, input, stripes, words), input, end, |input| - end);
    AvalancheMeaning(Tail(Words(h, input, stripes, words), input, end, |input| - end));
  }
}
