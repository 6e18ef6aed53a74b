/** The recursive XXH32 of load_balancer_helper.h, on 32-bit words.
    The primes stand in the functions that multiply by them. */
module XxHash {
  import opened Words32

  function MulPrime1(x: bv32): bv32 { Times(x, 0x9E3779B1) }

  function MulPrime2(x: bv32): bv32 { Times(x, 0x85EBCA77) }

  function MulPrime3(x: bv32): bv32 { Times(x, 0xC2B2AE3D) }

  function MulPrime4(x: bv32): bv32 { Times(x, 0x27D4EB2F) }

  function MulPrime5(x: bv32): bv32 { Times(x, 0x165667B1) }

  function Rotl(x: bv32, r: bv32): bv32
    requires 0 < r < 32
  {
    (x << r) | (x >> (32 - r))
  }

  function XorShift15(h: bv32): bv32 { h ^ (h >> 15) }

  function XorShift13(h: bv32): bv32 { h ^ (h >> 13) }

  function XorShift16(h: bv32): bv32 { h ^ (h >> 16) }

  function Round(acc: bv32, input: bv32): bv32 {
    MulPrime1(Rotl(Plus(acc, MulPrime2(input)), 13))
  }

  /** The three calls of avalanche_step; the last multiplies by 1. */
  function Avalanche(h: bv32): bv32 {
    XorShift16(MulPrime3(XorShift13(MulPrime2(XorShift15(h)))))
  }

  function Endian32(v: seq<bv8>): bv32
    requires |v| >= 4
  {
    (v[0] as bv32) | ((v[1] as bv32) << 8) | ((v[2] as bv32) << 16) | ((v[3] as bv32) << 24)
  }

  function Fetch32(p: seq<bv8>, v: bv32): bv32
    requires |p| >= 4
  {
    Round(v, Endian32(p))
  }

  function WordStep(h: bv32, word: bv32): bv32 { MulPrime4(Rotl(Plus(h, MulPrime3(word)), 17)) }

  function ByteStep(h: bv32, b: bv8): bv32 { MulPrime1(Rotl(Plus(h, MulPrime5(b as bv32)), 11)) }

  /** The buffer p is what the original's pointer and length describe. */
  function Finalize(h: bv32, p: seq<bv8>): bv32
    decreases |p|
  {
    if |p| >= 4 then Finalize(WordStep(h, Endian32(p)), p[4..])
    else if |p| > 0 then Finalize(ByteStep(h, p[0]), p[1..])
    else Avalanche(h)
  }

  function Merge(v1: bv32, v2: bv32, v3: bv32, v4: bv32): bv32 {
    Plus(Plus(Plus(Rotl(v1, 1), Rotl(v2, 7)), Rotl(v3, 12)), Rotl(v4, 18))
  }

  function H16Bytes4(p: seq<bv8>, v1: bv32, v2: bv32, v3: bv32, v4: bv32): bv32
    decreases |p|
  {
    if |p| >= 16 then
      H16Bytes4(p[16..], Fetch32(p, v1), Fetch32(p[4..], v2), Fetch32(p[8..], v3), Fetch32(p[12..], v4))
    else Merge(v1, v2, v3, v4)
  }

  /** The four starting accumulators, made from the seed. */
  function Init(seed: bv32, lane: nat): bv32
    requires lane < 4
  {
    if lane == 0 then Plus(Plus(seed, 0x9E3779B1), 0x85EBCA77)
    else if lane == 1 then Plus(seed, 0x85EBCA77)
    else if lane == 2 then seed
    else seed - 0x9E3779B1
  }

  function H16Bytes3(p: seq<bv8>, seed: bv32): bv32 {
    H16Bytes4(p, Init(seed, 0), Init(seed, 1), Init(seed, 2), Init(seed, 3))
  }

  /** Inputs of a stripe or more go through the accumulators; shorter ones start from the seed alone. */
  function Front(input: seq<bv8>, seed: bv32): bv32 {
    if |input| >= 16 then H16Bytes3(input, seed) else Plus(seed, 0x165667B1)
  }

  function Length32(input: seq<bv8>): bv32
    requires |input| < 0x1_0000_0000
  {
    |input| as bv32
  }

  /** An unsigned int holds the length; len & ~0xF and len & 0xF are its multiple-of-16 part and the rest. */
  function XxHash32(input: seq<bv8>, seed: bv32): bv32
    requires |input| < 0x1_0000_0000
  {
    Finalize(Plus(Front(input, seed), Length32(input)), input[|input| - |input| % 16..])
  }

  // ----- the algorithm of the specification, by position

  /** The 32-bit lane that starts at byte i. */
  function Lane(input: seq<bv8>, i: nat): bv32
    requires i + 4 <= |input|
  {
    Endian32(input[i..i + 4])
  }

  /** Where the given lane of stripe n begins. */
  function Offset(n: nat, lane: nat): nat { 16 * n + 4 * lane }

  /** Accumulator of the given lane after n stripes. */
  function Acc(input: seq<bv8>, seed: bv32, lane: nat, n: nat): bv32
    requires lane < 4 && 16 * n <= |input|
  {
    if n == 0 then Init(seed, lane)
    else Round(Acc(input, seed, lane, n - 1), Lane(input, Offset(n - 1, lane)))
  }

  function Converged(input: seq<bv8>, seed: bv32): bv32 {
    var n := |input| / 16;
    if n == 0 then Plus(seed, 0x165667B1)
    else Merge(Acc(input, seed, 0, n), Acc(input, seed, 1, n), Acc(input, seed, 2, n), Acc(input, seed, 3, n))
  }

  /** Where the k-th word from byte from on begins. */
  function WordAt(from: nat, k: nat): nat { from + 4 * k }

  /** h after the n lanes that start at byte from. */
  function Words(h: bv32, input: seq<bv8>, from: nat, n: nat): bv32
    requires from + 4 * n <= |input|
  {
    if n == 0 then h else WordStep(Words(h, input, from, n - 1), Lane(input, WordAt(from, n - 1)))
  }

  /** h after the n single bytes that start at byte from. */
  function Tail(h: bv32, input: seq<bv8>, from: nat, n: nat): bv32
    requires from + n <= |input|
  {
    if n == 0 then h else ByteStep(Tail(h, input, from, n - 1), input[from + n - 1])
  }

  /** Where the stripes end, and where the whole words end. */
  function StripeEnd(len: nat): (r: nat)
    ensures r <= len < r + 16
  {
    len - len % 16
  }

  /** How many whole words follow the last stripe. */
  function WordCount(len: nat): (n: nat)
    ensures StripeEnd(len) + 4 * n <= len < StripeEnd(len) + 4 * n + 4
  {
    len % 16 / 4
  }

  function WordEnd(len: nat): (r: nat)
    ensures StripeEnd(len) <= r <= len < r + 4
  {
    WordAt(StripeEnd(len), WordCount(len))
  }

  /** The last steps: n whole words from byte from on, single bytes, avalanche. */
  function ConsumeFrom(h: bv32, input: seq<bv8>, from: nat, n: nat): bv32
    requires from + 4 * n <= |input|
  {
    var end := WordAt(from, n);
    Avalanche(Tail(Words(h, input, from, n), input, end, |input| - end))
  }

  function Consume(h: bv32, input: seq<bv8>): bv32 {
    ConsumeFrom(h, input, StripeEnd(|input|), WordCount(|input|))
  }

  function Reference(input: seq<bv8>, seed: bv32): bv32
    requires |input| < 0x1_0000_0000
  {
    Consume(Plus(Converged(input, seed), Length32(input)), input)
  }

  // ----- the recursion is the algorithm

  lemma NextAcc(input: seq<bv8>, seed: bv32, lane: nat, k: nat)
    requires lane < 4 && 16 * (k + 1) <= |input|
    ensures Fetch32(input[16 * k..][4 * lane..], Acc(input, seed, lane, k)) == Acc(input, seed, lane, k + 1)
  {
    hide Round, Endian32, Init;
    var i := 16 * k + 4 * lane;
    assert input[16 * k..][4 * lane..][..4] == input[i..i + 4];
    FirstFour(input[16 * k..][4 * lane..]);
  }

  lemma FirstFour(p: seq<bv8>)
    requires |p| >= 4
    ensures Endian32(p) == Endian32(p[..4])
  {
  }

  lemma {:induction false} StripesFrom(input: seq<bv8>, seed: bv32, k: nat, n: nat)
    requires k <= n && 16 * n <= |input| < 16 * n + 16
    ensures H16Bytes4(input[16 * k..], Acc(input, seed, 0, k), Acc(input, seed, 1, k), Acc(input, seed, 2, k),
                      Acc(input, seed, 3, k))
            == Merge(Acc(input, seed, 0, n), Acc(input, seed, 1, n), Acc(input, seed, 2, n), Acc(input, seed, 3, n))
    decreases n - k
  {
    hide Fetch32, Merge, Init, Round, Endian32;
    if k < n {
      NextAcc(input, seed, 0, k);
      NextAcc(input, seed, 1, k);
      NextAcc(input, seed, 2, k);
      NextAcc(input, seed, 3, k);
      assert input[16 * k..][16..] == input[16 * (k + 1)..];
      StripesFrom(input, seed, k + 1, n);
    }
  }

  lemma FinalizeWord(h: bv32, p: seq<bv8>)
    requires |p| >= 4
    ensures Finalize(h, p) == Finalize(WordStep(h, Endian32(p[..4])), p[4..])
  {
    hide Avalanche, WordStep, ByteStep, Endian32;
    FirstFour(p);
  }

  lemma WordTaken(input: seq<bv8>, i: nat)
    requires i + 4 <= |input|
    ensures input[i..][..4] == input[i..i + 4] && input[i..][4..] == input[i + 4..]
  {
  }

  /** Finalize, started after k whole words of the last bytes, finishes as the algorithm does. */
  lemma {:induction false} WordsFrom(h: bv32, input: seq<bv8>, from: nat, k: nat, n: nat)
    requires k <= n && from + 4 * n <= |input| < from + 4 * n + 4
    ensures Finalize(Words(h, input, from, k), input[from + 4 * k..])
            == Finalize(Words(h, input, from, n), input[from + 4 * n..])
    decreases n - k
  {
    hide Avalanche, WordStep, ByteStep, Endian32, Finalize;
    if k < n {
      var i := from + 4 * k;
      WordTaken(input, i);
      FinalizeWord(Words(h, input, from, k), input[i..]);
      assert Words(h, input, from, k + 1) == WordStep(Words(h, input, from, k), Lane(input, i));
      WordsFrom(h, input, from, k + 1, n);
    }
  }

  lemma {:induction false} TailFrom(h: bv32, input: seq<bv8>, from: nat, k: nat)
    requires from + k <= |input| < from + 4
    ensures Finalize(Tail(h, input, from, k), input[from + k..])
            == Avalanche(Tail(h, input, from, |input| - from))
    decreases |input| - from - k
  {
    hide Avalanche, WordStep, ByteStep, Endian32;
    var p := input[from + k..];
    if |p| > 0 {
      assert p[1..] == input[from + k + 1..];
      TailFrom(h, input, from, k + 1);
    }
  }

  lemma FinalizeIsConsume(h: bv32, input: seq<bv8>)
    ensures Finalize(h, input[StripeEnd(|input|)..]) == Consume(h, input)
  {
    hide Avalanche, WordStep, ByteStep, Endian32, Finalize, Tail, Words, StripeEnd;
    var stripes, words := StripeEnd(|input|), WordEnd(|input|);
    var n := WordCount(|input|);
    WordsFrom(h, input, stripes, 0, n);
    TailFrom(Words(h, input, stripes, n), input, words, 0);
    NoWords(h, input, stripes);
    NoTail(Words(h, input, stripes, n), input, words);
  }

  lemma NoWords(h: bv32, input: seq<bv8>, from: nat)
    requires from <= |input|
    ensures Words(h, input, from, 0) == h
  {
  }

  lemma NoTail(h: bv32, input: seq<bv8>, from: nat)
    requires from <= |input|
    ensures Tail(h, input, from, 0) == h
  {
  }

  lemma FrontIsConverged(input: seq<bv8>, seed: bv32)
    ensures Front(input, seed) == Converged(input, seed)
  {
    hide Fetch32, Merge, Init, Round, Endian32, Plus, H16Bytes4, Acc;
    StartOfStripes(input, seed);
    StripesFrom(input, seed, 0, |input| / 16);
    assert input[16 * 0..] == input;
  }

  lemma StartOfStripes(input: seq<bv8>, seed: bv32)
    ensures H16Bytes3(input, seed)
            == H16Bytes4(input, Acc(input, seed, 0, 0), Acc(input, seed, 1, 0), Acc(input, seed, 2, 0),
                         Acc(input, seed, 3, 0))
  {
    hide Init, H16Bytes4, Round;
  }

  /** For every input and seed the recursion computes what the specification's steps compute. */
  lemma RefinesReference(input: seq<bv8>, seed: bv32)
    requires |input| < 0x1_0000_0000
    ensures XxHash32(input, seed) == Reference(input, seed)
  {
    hide Front, Converged, Plus, Finalize, Consume, Length32;
    FrontIsConverged(input, seed);
    FinalizeIsConsume(Plus(Front(input, seed), Length32(input)), input);
  }
}
