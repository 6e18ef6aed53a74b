/** Every step of XXH32 is a permutation, so changing one word or one byte always changes the hash. */
module XxHashCollisions {
  import opened Alignment
  import opened Words32
  import opened XxHash

  // ----- inverses of the word operations

  function Minus(x: bv32, y: bv32): bv32 { x - y }

  function UnXorShift15(h: bv32): bv32 { h ^ (h >> 15) ^ (h >> 30) }

  function UnXorShift13(h: bv32): bv32 { h ^ (h >> 13) ^ (h >> 26) }

  function UnXorShift16(h: bv32): bv32 { h ^ (h >> 16) }

  lemma MinusPlus(x: bv32, y: bv32)
    ensures Minus(x + y, y) == x
  {
  }

  lemma PlusInjective(x: bv32, y: bv32, z: bv32)
    ensures Plus(x, z) == Plus(y, z) ==> x == y
    ensures Plus(z, x) == Plus(z, y) ==> x == y
  {
    MinusPlus(x, z);
    MinusPlus(y, z);
  }

  lemma Remainder(x: Word, n: int, q: int)
    requires n == x + 0x1_0000_0000 * q
    ensures Mod(n) == x
  {
  }

  /** The primes are odd, so they have inverses modulo 2^32. */
  lemma Inverse1(x: Word)
    ensures Mod(Mod(x * 0x9E3779B1) * 0x0E8B2F51) == x
  {
    var q := x * 0x9E3779B1 / 0x1_0000_0000;
    Remainder(x, Mod(x * 0x9E3779B1) * 0x0E8B2F51, 0x8FD0E05 * x - 0x0E8B2F51 * q);
  }

  lemma Inverse2(x: Word)
    ensures Mod(Mod(x * 0x85EBCA77) * 0xB6C92F47) == x
  {
    var q := x * 0x85EBCA77 / 0x1_0000_0000;
    Remainder(x, Mod(x * 0x85EBCA77) * 0xB6C92F47, 0x5F9EE0CE * x - 0xB6C92F47 * q);
  }

  lemma Inverse3(x: Word)
    ensures Mod(Mod(x * 0xC2B2AE3D) * 0xA89ED915) == x
  {
    var q := x * 0xC2B2AE3D / 0x1_0000_0000;
    Remainder(x, Mod(x * 0xC2B2AE3D) * 0xA89ED915, 0x803E11B9 * x - 0xA89ED915 * q);
  }

  lemma Inverse4(x: Word)
    ensures Mod(Mod(x * 0x27D4EB2F) * 0xA0FE3BCF) == x
  {
    var q := x * 0x27D4EB2F / 0x1_0000_0000;
    Remainder(x, Mod(x * 0x27D4EB2F) * 0xA0FE3BCF, 0x190CA18D * x - 0xA0FE3BCF * q);
  }

  lemma Inverse5(x: Word)
    ensures Mod(Mod(x * 0x165667B1) * 0xAE398151) == x
  {
    var q := x * 0x165667B1 / 0x1_0000_0000;
    Remainder(x, Mod(x * 0x165667B1) * 0xAE398151, 0xF33BF00 * x - 0xAE398151 * q);
  }

  lemma PrimeValues()
    ensures Value(0x9E3779B1) == 0x9E3779B1 && Value(0x85EBCA77) == 0x85EBCA77
    ensures Value(0xC2B2AE3D) == 0xC2B2AE3D && Value(0x27D4EB2F) == 0x27D4EB2F
    ensures Value(0x165667B1) == 0x165667B1
  {
  }

  lemma ValueInjective(x: bv32, y: bv32)
    ensures Value(x) == Value(y) ==> x == y
  {
    hide Value;
    Represents(Value(x), x);
    Represents(Value(y), y);
  }

  lemma Inverses(x: bv32)
    ensures Mod(Value(MulPrime1(x)) * 0x0E8B2F51) == Value(x)
    ensures Mod(Value(MulPrime2(x)) * 0xB6C92F47) == Value(x)
    ensures Mod(Value(MulPrime3(x)) * 0xA89ED915) == Value(x)
    ensures Mod(Value(MulPrime4(x)) * 0xA0FE3BCF) == Value(x)
    ensures Mod(Value(MulPrime5(x)) * 0xAE398151) == Value(x)
  {
    hide Value, Mod, Times;
    PrimeValues();
    Product(x, 0x9E3779B1);
    Product(x, 0x85EBCA77);
    Product(x, 0xC2B2AE3D);
    Product(x, 0x27D4EB2F);
    Product(x, 0x165667B1);
    Inverse1(Value(x));
    Inverse2(Value(x));
    Inverse3(Value(x));
    Inverse4(Value(x));
    Inverse5(Value(x));
  }

  /** So multiplying by a prime loses nothing. */
  lemma MulInjective(x: bv32, y: bv32)
    ensures MulPrime1(x) == MulPrime1(y) ==> x == y
    ensures MulPrime2(x) == MulPrime2(y) ==> x == y
    ensures MulPrime3(x) == MulPrime3(y) ==> x == y
    ensures MulPrime4(x) == MulPrime4(y) ==> x == y
    ensures MulPrime5(x) == MulPrime5(y) ==> x == y
  {
    hide Value, Mod, MulPrime1, MulPrime2, MulPrime3, MulPrime4, MulPrime5;
    Inverses(x);
    Inverses(y);
    ValueInjective(x, y);
  }

  lemma UnXorShift(h: bv32)
    ensures UnXorShift15(h ^ (h >> 15)) == h
    ensures UnXorShift13(h ^ (h >> 13)) == h
    ensures UnXorShift16(h ^ (h >> 16)) == h
  {
  }

  lemma XorShiftInjective(x: bv32, y: bv32)
    ensures XorShift15(x) == XorShift15(y) ==> x == y
    ensures XorShift13(x) == XorShift13(y) ==> x == y
    ensures XorShift16(x) == XorShift16(y) ==> x == y
  {
    UnXorShift(x);
    UnXorShift(y);
  }

  lemma RotlInjective(x: bv32, y: bv32, r: bv32)
    requires r == 1 || r == 7 || r == 11 || r == 12 || r == 13 || r == 17 || r == 18
    ensures Rotl(x, r) == Rotl(y, r) ==> x == y
  {
  }

  lemma ByteWidens(a: bv8, b: bv8)
    ensures a as bv32 == b as bv32 ==> a == b
  {
  }

  lemma Endian32Injective(v: seq<bv8>, w: seq<bv8>)
    requires |v| == 4 && |w| == 4
    ensures Endian32(v) == Endian32(w) ==> v == w
  {
  }

  // ----- steps are permutations in each argument

  /** A round is a permutation of the accumulator, and for a fixed accumulator of the input word. */
  lemma RoundInjective(a: bv32, b: bv32, i: bv32, j: bv32)
    requires a == b || i == j
    ensures Round(a, i) == Round(b, j) <==> a == b && i == j
  {
    hide MulPrime1, MulPrime2, Rotl, Plus;
    RoundPeel(a, b, i, i);
    RoundPeel(a, a, i, j);
    PlusInjective(a, b, MulPrime2(i));
    PlusInjective(MulPrime2(i), MulPrime2(j), a);
    MulInjective(i, j);
  }

  lemma RoundPeel(a: bv32, b: bv32, i: bv32, j: bv32)
    ensures Round(a, i) == Round(b, j) ==> Plus(a, MulPrime2(i)) == Plus(b, MulPrime2(j))
  {
    hide MulPrime1, MulPrime2, Rotl, Plus;
    var p, q := Plus(a, MulPrime2(i)), Plus(b, MulPrime2(j));
    MulInjective(Rotl(p, 13), Rotl(q, 13));
    RotlInjective(p, q, 13);
  }

  lemma WordStepInjective(a: bv32, b: bv32, i: bv32, j: bv32)
    requires a == b || i == j
    ensures WordStep(a, i) == WordStep(b, j) <==> a == b && i == j
  {
    hide MulPrime3, MulPrime4, Rotl, Plus;
    WordPeel(a, b, i, i);
    WordPeel(a, a, i, j);
    PlusInjective(a, b, MulPrime3(i));
    PlusInjective(MulPrime3(i), MulPrime3(j), a);
    MulInjective(i, j);
  }

  lemma WordPeel(a: bv32, b: bv32, i: bv32, j: bv32)
    ensures WordStep(a, i) == WordStep(b, j) ==> Plus(a, MulPrime3(i)) == Plus(b, MulPrime3(j))
  {
    hide MulPrime3, MulPrime4, Rotl, Plus;
    var p, q := Plus(a, MulPrime3(i)), Plus(b, MulPrime3(j));
    MulInjective(Rotl(p, 17), Rotl(q, 17));
    RotlInjective(p, q, 17);
  }

  lemma ByteStepInjective(a: bv32, b: bv32, i: bv8, j: bv8)
    requires a == b || i == j
    ensures ByteStep(a, i) == ByteStep(b, j) <==> a == b && i == j
  {
    hide MulPrime1, MulPrime5, Rotl, Plus;
    BytePeel(a, b, i, i);
    BytePeel(a, a, i, j);
    PlusInjective(a, b, MulPrime5(i as bv32));
    PlusInjective(MulPrime5(i as bv32), MulPrime5(j as bv32), a);
    MulInjective(i as bv32, j as bv32);
    ByteWidens(i, j);
  }

  lemma BytePeel(a: bv32, b: bv32, i: bv8, j: bv8)
    ensures ByteStep(a, i) == ByteStep(b, j) ==> Plus(a, MulPrime5(i as bv32)) == Plus(b, MulPrime5(j as bv32))
  {
    hide MulPrime1, MulPrime5, Rotl, Plus;
    var p, q := Plus(a, MulPrime5(i as bv32)), Plus(b, MulPrime5(j as bv32));
    MulInjective(Rotl(p, 11), Rotl(q, 11));
    RotlInjective(p, q, 11);
  }

  lemma AvalancheInjective(x: bv32, y: bv32)
    ensures Avalanche(x) == Avalanche(y) ==> x == y
  {
    hide MulPrime2, MulPrime3, XorShift13, XorShift15, XorShift16;
    var a, b := XorShift15(x), XorShift15(y);
    var c, d := XorShift13(MulPrime2(a)), XorShift13(MulPrime2(b));
    XorShiftInjective(MulPrime3(c), MulPrime3(d));
    MulInjective(c, d);
    XorShiftInjective(MulPrime2(a), MulPrime2(b));
    MulInjective(a, b);
    XorShiftInjective(x, y);
  }

  /** Merging is a permutation of each accumulator while the other three stay the same. */
  lemma MergeInjective(v: seq<bv32>, w: seq<bv32>, lane: nat)
    requires |v| == |w| == 4 && lane < 4 && v[lane] != w[lane]
    requires forall k | 0 <= k < 4 && k != lane :: v[k] == w[k]
    ensures Merge(v[0], v[1], v[2], v[3]) != Merge(w[0], w[1], w[2], w[3])
  {
    hide Rotl, Plus;
    RotlInjective(v[lane], w[lane], [1, 7, 12, 18][lane]);
    var a, b, c, d := Rotl(v[0], 1), Rotl(v[1], 7), Rotl(v[2], 12), Rotl(v[3], 18);
    var a', b', c', d' := Rotl(w[0], 1), Rotl(w[1], 7), Rotl(w[2], 12), Rotl(w[3], 18);
    PlusInjective(a, a', b);
    PlusInjective(b, b', a);
    PlusInjective(Plus(a, b), Plus(a', b'), c);
    PlusInjective(c, c', Plus(a, b));
    PlusInjective(Plus(Plus(a, b), c), Plus(Plus(a', b'), c'), d);
    PlusInjective(d, d', Plus(Plus(a, b), c));
  }

  // ----- messages

  /** The messages have the same length and agree outside the n bytes from i on, where they differ. */
  ghost predicate DifferAt(a: seq<bv8>, b: seq<bv8>, i: nat, n: nat) {
    && |a| == |b| < 0x1_0000_0000
    && i + n <= |a|
    && a[..i] == b[..i] && a[i + n..] == b[i + n..]
    && a[i..i + n] != b[i..i + n]
  }

  /** Messages that differ in one aligned word differ in no other. */
  lemma LaneAt(a: seq<bv8>, b: seq<bv8>, i: nat, k: nat)
    requires DifferAt(a, b, i, 4) && Aligned(i) && Aligned(k) && k + 4 <= |a|
    ensures Lane(a, k) == Lane(b, k) <==> k != i
  {
    hide Endian32, Aligned;
    Apart(i, k);
    if k == i {
      Endian32Injective(a[i..i + 4], b[i..i + 4]);
    } else if k < i {
      assert a[k..k + 4] == a[..i][k..k + 4] && b[k..k + 4] == b[..i][k..k + 4];
    } else {
      assert a[k..k + 4] == a[i + 4..][k - i - 4..k - i] && b[k..k + 4] == b[i + 4..][k - i - 4..k - i];
    }
  }

  lemma ByteAt(a: seq<bv8>, b: seq<bv8>, i: nat, n: nat, k: nat)
    requires DifferAt(a, b, i, n) && k < |a| && (k < i || i + n <= k)
    ensures a[k] == b[k]
  {
    if k < i {
      assert a[k] == a[..i][k] && b[k] == b[..i][k];
    } else {
      assert a[k] == a[i + n..][k - i - n] && b[k] == b[i + n..][k - i - n];
    }
  }

  lemma LanesApart(n: nat, lane: nat, s: nat, l: nat)
    requires lane < 4 && l < 4
    ensures Offset(n, lane) == Offset(s, l) <==> n == s && lane == l
    ensures Offset(n, lane) == 4 * (4 * n + lane) && Offset(n, lane) + 4 <= 16 * (n + 1)
  {
    if n < s {
      assert 16 * n + 16 <= 16 * s;
    } else if s < n {
      assert 16 * s + 16 <= 16 * n;
    }
  }

  /** Stripes 0..n-1 hold lane l of stripe s, and the lane is the given one. */
  predicate InLane(s: nat, l: nat, lane: nat, n: nat) { s < n && l == lane }

  lemma NoLaneYet(s: nat, l: nat, lane: nat)
    ensures !InLane(s, l, lane, 0)
  {
  }

  lemma OneMoreStripe(s: nat, l: nat, lane: nat, n: nat)
    requires lane < 4 && l < 4 && n > 0
    ensures Aligned(Offset(n - 1, lane)) && Aligned(Offset(s, l)) && Offset(n - 1, lane) + 4 <= 16 * n
    ensures InLane(s, l, lane, n) <==> InLane(s, l, lane, n - 1) || Offset(n - 1, lane) == Offset(s, l)
    ensures InLane(s, l, lane, n - 1) ==> Offset(n - 1, lane) != Offset(s, l)
  {
    hide Offset, Aligned;
    LanesApart(n - 1, lane, s, l);
    LanesApart(s, l, n - 1, lane);
    FourDivides(4 * (n - 1) + lane);
    FourDivides(4 * s + l);
  }

  lemma AccStart(a: seq<bv8>, seed: bv32, lane: nat)
    requires lane < 4
    ensures Acc(a, seed, lane, 0) == Init(seed, lane)
  {
  }

  /** One stripe: the accumulators agree after it exactly when they agreed before and the lanes agree. */
  lemma AccNext(a: seq<bv8>, b: seq<bv8>, seed: bv32, lane: nat, n: nat)
    requires lane < 4 && 0 < n && 16 * n <= |a| == |b| && Offset(n - 1, lane) + 4 <= |a|
    requires
      || Acc(a, seed, lane, n - 1) == Acc(b, seed, lane, n - 1)
      || Lane(a, Offset(n - 1, lane)) == Lane(b, Offset(n - 1, lane))
    ensures Acc(a, seed, lane, n) == Acc(b, seed, lane, n) <==>
      && Acc(a, seed, lane, n - 1) == Acc(b, seed, lane, n - 1)
      && Lane(a, Offset(n - 1, lane)) == Lane(b, Offset(n - 1, lane))
  {
    hide Round, Init, Lane, Offset;
    RoundInjective(Acc(a, seed, lane, n - 1), Acc(b, seed, lane, n - 1),
      Lane(a, Offset(n - 1, lane)), Lane(b, Offset(n - 1, lane)));
  }

  /** The accumulator of the lane that holds the change differs from its stripe on; the others never do. */
  lemma {:induction false} AccDiffers(a: seq<bv8>, b: seq<bv8>, seed: bv32, s: nat, l: nat, lane: nat, n: nat)
    requires l < 4 && DifferAt(a, b, Offset(s, l), 4) && lane < 4 && 16 * n <= |a|
    ensures Acc(a, seed, lane, n) == Acc(b, seed, lane, n) <==> !InLane(s, l, lane, n)
  {
    hide Acc, Init, Lane, DifferAt, Offset, InLane, Aligned;
    SameSize(a, b, Offset(s, l), 4);
    NoLaneYet(s, l, lane);
    if n == 0 {
      AccStart(a, seed, lane);
      AccStart(b, seed, lane);
    } else {
      OneMoreStripe(s, l, lane, n);
      AccDiffers(a, b, seed, s, l, lane, n - 1);
      LaneAt(a, b, Offset(s, l), Offset(n - 1, lane));
      AccNext(a, b, seed, lane, n);
    }
  }

  /** Byte i is in one of the n words from byte from on. */
  predicate InWords(i: nat, from: nat, n: nat) { from <= i < WordAt(from, n) }

  lemma NoWordYet(i: nat, from: nat)
    ensures !InWords(i, from, 0)
  {
  }

  lemma OneMoreWord(i: nat, from: nat, n: nat)
    requires Aligned(i) && Aligned(from) && n > 0
    ensures Aligned(WordAt(from, n - 1)) && WordAt(from, n - 1) + 4 == from + 4 * n
    ensures InWords(i, from, n) <==> InWords(i, from, n - 1) || i == WordAt(from, n - 1)
    ensures InWords(i, from, n - 1) ==> i != WordAt(from, n - 1)
    ensures i < from ==> i != WordAt(from, n - 1)
  {
    hide Aligned;
    WordAligned(from, n - 1);
    Apart(i, WordAt(from, n - 1));
  }

  /** One word: the states agree after it exactly when they agreed before and the words agree. */
  lemma WordsNext(g: bv32, h: bv32, a: seq<bv8>, b: seq<bv8>, from: nat, n: nat)
    requires 0 < n && from + 4 * n <= |a| == |b| && WordAt(from, n - 1) + 4 <= |a|
    requires
      || Words(g, a, from, n - 1) == Words(h, b, from, n - 1)
      || Lane(a, WordAt(from, n - 1)) == Lane(b, WordAt(from, n - 1))
    ensures Words(g, a, from, n) == Words(h, b, from, n) <==>
      && Words(g, a, from, n - 1) == Words(h, b, from, n - 1)
      && Lane(a, WordAt(from, n - 1)) == Lane(b, WordAt(from, n - 1))
  {
    hide WordStep, Lane, WordAt;
    WordStepInjective(Words(g, a, from, n - 1), Words(h, b, from, n - 1),
      Lane(a, WordAt(from, n - 1)), Lane(b, WordAt(from, n - 1)));
  }

  lemma {:induction false} WordsDiffer(g: bv32, h: bv32, a: seq<bv8>, b: seq<bv8>, i: nat, from: nat, n: nat)
    requires DifferAt(a, b, i, 4) && Aligned(i) && Aligned(from) && from + 4 * n <= |a|
    requires g != h ==> i < from
    ensures Words(g, a, from, n) == Words(h, b, from, n) <==> g == h && !InWords(i, from, n)
  {
    hide Words, Lane, DifferAt, Aligned, InWords, WordAt;
    SameSize(a, b, i, 4);
    NoWordYet(i, from);
    if n == 0 {
      NoWords(g, a, from);
      NoWords(h, b, from);
    } else {
      OneMoreWord(i, from, n);
      WordsDiffer(g, h, a, b, i, from, n - 1);
      LaneAt(a, b, i, WordAt(from, n - 1));
      WordsNext(g, h, a, b, from, n);
    }
  }

  /** Bytes that agree cannot hide a difference. */
  lemma {:induction false} TailKeeps(g: bv32, h: bv32, a: seq<bv8>, b: seq<bv8>, from: nat, n: nat)
    requires |a| == |b| && from + n <= |a|
    requires forall k | from <= k < from + n :: a[k] == b[k]
    ensures Tail(g, a, from, n) == Tail(h, b, from, n) <==> g == h
  {
    hide ByteStep;
    if n > 0 {
      TailKeeps(g, h, a, b, from, n - 1);
      var c := a[from + n - 1];
      ByteStepInjective(Tail(g, a, from, n - 1), Tail(h, b, from, n - 1), c, c);
    }
  }

  lemma {:induction false} TailDiffers(h: bv32, a: seq<bv8>, b: seq<bv8>, i: nat, from: nat, n: nat)
    requires DifferAt(a, b, i, 1) && from <= i && from + n <= |a|
    ensures Tail(h, a, from, n) == Tail(h, b, from, n) <==> !(i < from + n)
  {
    hide ByteStep;
    if n > 0 {
      TailDiffers(h, a, b, i, from, n - 1);
      var k := from + n - 1;
      if k != i {
        ByteAt(a, b, i, 1, k);
      }
      ByteStepInjective(Tail(h, a, from, n - 1), Tail(h, b, from, n - 1), a[k], b[k]);
    }
  }

  lemma SameSize(a: seq<bv8>, b: seq<bv8>, i: nat, n: nat)
    requires DifferAt(a, b, i, n)
    ensures |a| == |b| && i + n <= |a|
  {
  }

  /** An aligned word is a lane of a stripe exactly when it lies before the end of the stripes. */
  lemma StripeOf(i: nat, len: nat)
    requires Aligned(i)
    ensures i % 16 / 4 < 4 && i == Offset(i / 16, i % 16 / 4)
    ensures i < StripeEnd(len) <==> i / 16 < len / 16
  {
    hide Aligned, Offset;
    LaneOf(i);
    if i / 16 < len / 16 {
      assert 16 * (i / 16 + 1) <= 16 * (len / 16);
    } else {
      assert 16 * (i / 16) >= 16 * (len / 16);
    }
  }

  lemma LaneOf(i: nat)
    requires Aligned(i)
    ensures i % 16 / 4 < 4 && i == Offset(i / 16, i % 16 / 4)
  {
  }

  /** Messages that differ in one word converge alike exactly when that word is past the stripes. */
  lemma ConvergedDiffers(a: seq<bv8>, b: seq<bv8>, seed: bv32, i: nat)
    requires DifferAt(a, b, i, 4) && Aligned(i)
    ensures Converged(a, seed) == Converged(b, seed) <==> i >= StripeEnd(|a|)
  {
    hide Merge, Acc, Plus, Offset, StripeEnd, DifferAt, Aligned;
    var n, s, l := |a| / 16, i / 16, i % 16 / 4;
    assert |a| == |b| by { SameSize(a, b, i, 4); }
    StripeOf(i, |a|);
    AccDiffers(a, b, seed, s, l, 0, n);
    AccDiffers(a, b, seed, s, l, 1, n);
    AccDiffers(a, b, seed, s, l, 2, n);
    AccDiffers(a, b, seed, s, l, 3, n);
    if s < n {
      var v := [Acc(a, seed, 0, n), Acc(a, seed, 1, n), Acc(a, seed, 2, n), Acc(a, seed, 3, n)];
      var w := [Acc(b, seed, 0, n), Acc(b, seed, 1, n), Acc(b, seed, 2, n), Acc(b, seed, 3, n)];
      MergeInjective(v, w, l);
    }
  }

  lemma EndsAligned(len: nat)
    ensures Aligned(WordEnd(len)) && Aligned(StripeEnd(len)) && WordEnd(len) == WordAt(StripeEnd(len), WordCount(len))
  {
    FourDivides(4 * (len / 16) + WordCount(len));
    FourDivides(4 * (len / 16));
  }

  /** An aligned word of the message is over before the single bytes begin. */
  lemma WordBeforeTail(i: nat, len: nat)
    requires Aligned(i) && i + 4 <= len
    ensures i + 4 <= WordEnd(len)
  {
    hide WordEnd, Aligned;
    EndsAligned(len);
    Apart(i, WordEnd(len));
  }

  /** From the stripes on: either the states already differ, or the changed word is still to come. */
  lemma ConsumeDiffers(g: bv32, h: bv32, a: seq<bv8>, b: seq<bv8>, i: nat)
    requires DifferAt(a, b, i, 4) && Aligned(i)
    requires g == h <==> i >= StripeEnd(|a|)
    ensures Consume(g, a) != Consume(h, b)
  {
    hide ConsumeFrom, StripeEnd, WordCount, WordEnd, Aligned, DifferAt, WordAt;
    SameSize(a, b, i, 4);
    EndsAligned(|a|);
    WordBeforeTail(i, |a|);
    WordsThenTail(g, h, a, b, i, StripeEnd(|a|), WordCount(|a|));
  }

  lemma WordsThenTail(g: bv32, h: bv32, a: seq<bv8>, b: seq<bv8>, i: nat, from: nat, n: nat)
    requires DifferAt(a, b, i, 4) && Aligned(i) && Aligned(from)
    requires i + 4 <= WordAt(from, n) <= |a| && from + 4 * n <= |a| == |b|
    requires g == h <==> i >= from
    ensures ConsumeFrom(g, a, from, n) != ConsumeFrom(h, b, from, n)
  {
    hide Words, Tail, Avalanche, Aligned, DifferAt;
    WordsDiffer(g, h, a, b, i, from, n);
    TailsDiffer(Words(g, a, from, n), Words(h, b, from, n), a, b, i, WordAt(from, n));
  }

  lemma TailsDiffer(g: bv32, h: bv32, a: seq<bv8>, b: seq<bv8>, i: nat, words: nat)
    requires DifferAt(a, b, i, 4) && i + 4 <= words <= |a| && g != h
    ensures Avalanche(Tail(g, a, words, |a| - words)) != Avalanche(Tail(h, b, words, |b| - words))
  {
    hide Tail, Avalanche, DifferAt;
    SameSize(a, b, i, 4);
    forall k | words <= k < |a| ensures a[k] == b[k] {
      ByteAt(a, b, i, 4, k);
    }
    TailKeeps(g, h, a, b, words, |a| - words);
    AvalancheInjective(Tail(g, a, words, |a| - words), Tail(h, b, words, |a| - words));
  }

  lemma SameLength32(a: seq<bv8>, b: seq<bv8>)
    requires |a| == |b| < 0x1_0000_0000
    ensures Length32(a) == Length32(b)
  {
  }

  /** Changing one aligned word changes the hash, for every message length and every seed. */
  lemma OneWordChangesHash(a: seq<bv8>, b: seq<bv8>, seed: bv32, i: nat)
    requires DifferAt(a, b, i, 4) && i % 4 == 0
    ensures XxHash32(a, seed) != XxHash32(b, seed)
  {
    hide Converged, Plus, Consume, XxHash32, Length32;
    SameLength32(a, b);
    RefinesReference(a, seed);
    RefinesReference(b, seed);
    ConvergedDiffers(a, b, seed, i);
    var len := Length32(a);
    PlusInjective(Converged(a, seed), Converged(b, seed), len);
    ConsumeDiffers(Plus(Converged(a, seed), len), Plus(Converged(b, seed), len), a, b, i);
  }

  lemma WordOf(i: nat, len: nat)
    requires i < WordEnd(len)
    ensures (i - i % 4) % 4 == 0 && i < i - i % 4 + 4 <= WordEnd(len)
  {
    hide WordEnd;
    EndsAligned(len);
    var w := Quarter(i);
    FourDivides(w);
    Apart(4 * w, WordEnd(len));
  }

  lemma ByteInWord(a: seq<bv8>, b: seq<bv8>, i: nat, k: nat)
    requires DifferAt(a, b, i, 1) && k <= i < k + 4 <= |a|
    ensures DifferAt(a, b, k, 4)
  {
    forall j | 0 <= j < |a| && j != i ensures a[j] == b[j] {
      ByteAt(a, b, i, 1, j);
    }
    assert a[i..i + 1] == [a[i]] && b[i..i + 1] == [b[i]];
    assert a[k..k + 4][i - k] == a[i] && b[k..k + 4][i - k] == b[i];
    assert a[..k] == b[..k] && a[k + 4..] == b[k + 4..];
  }

  /** So does changing one byte, wherever it is: every byte is in an aligned word or among the last few. */
  lemma OneByteChangesHash(a: seq<bv8>, b: seq<bv8>, seed: bv32, i: nat)
    requires DifferAt(a, b, i, 1)
    ensures XxHash32(a, seed) != XxHash32(b, seed)
  {
    hide XxHash32, WordEnd;
    var words := WordEnd(|a|);
    if i < words {
      var k := i - i % 4;
      WordOf(i, |a|);
      ByteInWord(a, b, i, k);
      OneWordChangesHash(a, b, seed, k);
    } else {
      TrailingByteChangesHash(a, b, seed, i);
    }
  }

  lemma TrailingByteChangesHash(a: seq<bv8>, b: seq<bv8>, seed: bv32, i: nat)
    requires DifferAt(a, b, i, 1) && i >= WordEnd(|a|)
    ensures XxHash32(a, seed) != XxHash32(b, seed)
  {
    hide Converged, Plus, Consume, XxHash32, Length32;
    SameLength32(a, b);
    RefinesReference(a, seed);
    RefinesReference(b, seed);
    SameConverged(a, b, seed, i);
    ConsumeTailDiffers(Plus(Converged(a, seed), Length32(a)), a, b, i);
  }

  lemma ConsumeTailDiffers(h: bv32, a: seq<bv8>, b: seq<bv8>, i: nat)
    requires DifferAt(a, b, i, 1) && i >= WordEnd(|a|)
    ensures Consume(h, a) != Consume(h, b)
  {
    hide Words, Tail, Avalanche, WordCount, StripeEnd;
    var stripes, words := StripeEnd(|a|), WordEnd(|a|);
    var n := WordCount(|a|);
    SamePrefix(a, b, i, words);
    SameWords(h, a, b, stripes, n, words);
    var g := Words(h, a, stripes, n);
    TailDiffers(g, a, b, i, words, |a| - words);
    AvalancheInjective(Tail(g, a, words, |a| - words), Tail(g, b, words, |a| - words));
  }

  lemma SamePrefix(a: seq<bv8>, b: seq<bv8>, i: nat, m: nat)
    requires |a| == |b| && m <= i <= |a| && a[..i] == b[..i]
    ensures a[..m] == b[..m]
  {
    assert a[..m] == a[..i][..m] && b[..m] == b[..i][..m];
  }

  /** Messages that agree on all their stripes reach the last bytes in the same state. */
  lemma SameConverged(a: seq<bv8>, b: seq<bv8>, seed: bv32, i: nat)
    requires |a| == |b| && StripeEnd(|a|) <= i <= |a| && a[..i] == b[..i]
    ensures Converged(a, seed) == Converged(b, seed)
  {
    hide Merge, Plus, Acc;
    forall lane: nat | lane < 4 ensures Acc(a, seed, lane, |a| / 16) == Acc(b, seed, lane, |a| / 16) {
      SameAcc(a, b, seed, lane, |a| / 16, i);
    }
  }

  lemma {:induction false} SameAcc(a: seq<bv8>, b: seq<bv8>, seed: bv32, lane: nat, n: nat, m: nat)
    requires lane < 4 && 16 * n <= m <= |a| && |a| == |b| && a[..m] == b[..m]
    ensures Acc(a, seed, lane, n) == Acc(b, seed, lane, n)
  {
    hide Round, Init, Endian32;
    if n > 0 {
      var k := 16 * (n - 1) + 4 * lane;
      assert a[k..k + 4] == a[..m][k..k + 4] && b[k..k + 4] == b[..m][k..k + 4];
      SameAcc(a, b, seed, lane, n - 1, m);
    }
  }

  lemma {:induction false} SameWords(h: bv32, a: seq<bv8>, b: seq<bv8>, from: nat, n: nat, m: nat)
    requires from + 4 * n <= m <= |a| && |a| == |b| && a[..m] == b[..m]
    ensures Words(h, a, from, n) == Words(h, b, from, n)
  {
    hide WordStep, Endian32;
    if n > 0 {
      var k := from + 4 * (n - 1);
      assert a[k..k + 4] == a[..m][k..k + 4] && b[k..k + 4] == b[..m][k..k + 4];
      SameWords(h, a, b, from, n - 1, m);
    }
  }

  /** Four-byte messages never collide. */
  lemma FourBytesNeverCollide(a: seq<bv8>, b: seq<bv8>, seed: bv32)
    requires |a| == 4 && |b| == 4
    ensures XxHash32(a, seed) == XxHash32(b, seed) <==> a == b
  {
    if a != b {
      assert a[0..4] == a && b[0..4] == b;
      OneWordChangesHash(a, b, seed, 0);
    }
  }
}