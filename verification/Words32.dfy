/** Machine words of 32 bits as numbers modulo 2 to the power of 32. */
module Words32 {

  type Word = x: nat | x < 0x1_0000_0000

  function Mod(x: int): Word { x % 0x1_0000_0000 }

  /** The number that a machine word stands for. */
  function Value(x: bv32): Word { x as int }

  lemma Constants()
    ensures Value(0) == 0 && Value(1) == 1 && Value(0xFFFF_FFFF) == 0xFFFF_FFFF
  {
  }

  // ----- four bytes

  function FromBytes(a: bv8, b: bv8, c: bv8, d: bv8): bv32 {
    (a as bv32) | ((b as bv32) << 8) | ((c as bv32) << 16) | ((d as bv32) << 24)
  }

  lemma BytesValue(a: bv8, b: bv8, c: bv8, d: bv8)
    ensures Value(FromBytes(a, b, c, d))
            == a as int + 0x100 * (b as int) + 0x1_0000 * (c as int) + 0x100_0000 * (d as int)
  {
  }

  lemma Split(x: bv32) returns (a: bv8, b: bv8, c: bv8, d: bv8)
    ensures x == FromBytes(a, b, c, d)
  {
    a, b, c, d := (x & 0xFF) as bv8, ((x >> 8) & 0xFF) as bv8, ((x >> 16) & 0xFF) as bv8, (x >> 24) as bv8;
  }

  /** Adding one carries over the bytes that are full. */
  lemma Carry0(a: bv8, b: bv8, c: bv8, d: bv8)
    requires a != 0xFF
    ensures FromBytes(a, b, c, d) + 1 == FromBytes(a + 1, b, c, d)
  {
  }

  lemma Carry1(b: bv8, c: bv8, d: bv8)
    requires b != 0xFF
    ensures FromBytes(0xFF, b, c, d) + 1 == FromBytes(0, b + 1, c, d)
  {
  }

  lemma Carry2(c: bv8, d: bv8)
    requires c != 0xFF
    ensures FromBytes(0xFF, 0xFF, c, d) + 1 == FromBytes(0, 0, c + 1, d)
  {
  }

  lemma Carry3(d: bv8)
    requires d != 0xFF
    ensures FromBytes(0xFF, 0xFF, 0xFF, d) + 1 == FromBytes(0, 0, 0, d + 1)
  {
  }

  lemma AllOnes()
    ensures FromBytes(0xFF, 0xFF, 0xFF, 0xFF) == 0xFFFF_FFFF
  {
  }

  lemma NextByte(a: bv8)
    ensures a != 0xFF ==> (a + 1) as int == a as int + 1
  {
  }

  lemma EndBytes()
    ensures (0 as bv8) as int == 0 && (0xFF as bv8) as int == 0xFF
  {
  }

  // ----- addition

  /** Every number below the modulus is the value of a word. */
  lemma {:induction false} Represented(n: Word) returns (x: bv32)
    ensures Value(x) == n
  {
    hide Value;
    Constants();
    x := 0;
    if n > 0 {
      x := Represented(n - 1);
      Successor(x);
      x := x + 1;
    }
  }

  lemma Represents(n: Word, x: bv32)
    requires Value(x) == n
    ensures n as bv32 == x
  {
  }

  lemma CastValue(n: Word)
    ensures Value(n as bv32) == n
  {
    hide Value;
    var x := Represented(n);
    Represents(n, x);
  }

  lemma Successor(x: bv32)
    requires x != 0xFFFF_FFFF
    ensures Value(x + 1) == Value(x) + 1
  {
    hide Value, FromBytes;
    var a, b, c, d := Split(x);
    AllOnes();
    EndBytes();
    BytesValue(a, b, c, d);
    if a != 0xFF {
      Carry0(a, b, c, d);
      NextByte(a);
      BytesValue(a + 1, b, c, d);
    } else if b != 0xFF {
      Carry1(b, c, d);
      NextByte(b);
      BytesValue(0, b + 1, c, d);
    } else if c != 0xFF {
      Carry2(c, d);
      NextByte(c);
      BytesValue(0, 0, c + 1, d);
    } else {
      Carry3(d);
      NextByte(d);
      BytesValue(0, 0, 0, d + 1);
    }
  }

  lemma Predecessor(x: bv32)
    requires x != 0
    ensures Value(x) == Value(x - 1) + 1
  {
    hide Value;
    Back(x);
    Successor(x - 1);
  }

  lemma Back(x: bv32)
    ensures (x - 1) + 1 == x
    ensures x != 0 ==> x - 1 != 0xFFFF_FFFF
    ensures x == 0xFFFF_FFFF ==> x + 1 == 0
  {
  }

  lemma Increment(x: bv32)
    ensures Value(x + 1) == Mod(Value(x) + 1)
  {
    hide Value;
    Back(x);
    Constants();
    if x != 0xFFFF_FFFF {
      Successor(x);
    }
    ModSmall(Value(x + 1));
  }

  lemma ModSmall(m: Word)
    ensures Mod(m) == m
  {
  }

  function Plus(x: bv32, y: bv32): bv32 { x + y }

  function Times(x: bv32, y: bv32): bv32 { x * y }

  lemma PlusStep(x: bv32, y: bv32)
    ensures Plus(x, 0) == x && Plus(x, y) == Plus(Plus(x, y - 1), 1)
  {
  }

  lemma TimesZero(x: bv32)
    ensures Times(x, 0) == 0
  {
  }

  lemma Distributes(x: bv32, y: bv32, p: bv32, q: bv32)
    requires p == x * y && q == x * (y - 1)
    ensures p == Plus(q, x)
  {
  }

  lemma TimesOneMore(x: bv32, y: bv32, p: bv32, q: bv32)
    requires p == Times(x, y) && q == Times(x, y - 1)
    ensures p == Plus(q, x)
  {
    Distributes(x, y, p, q);
  }

  lemma TimesStep(x: bv32, y: bv32)
    ensures Times(x, y) == Plus(Times(x, y - 1), x)
  {
    hide Times, Plus;
    TimesOneMore(x, y, Times(x, y), Times(x, y - 1));
  }

  lemma PlusOne(x: bv32)
    ensures Value(Plus(x, 1)) == Mod(Value(x) + 1)
  {
    hide Value;
    Increment(x);
  }

  lemma {:induction false} Sum(x: bv32, y: bv32)
    ensures Value(Plus(x, y)) == Mod(Value(x) + Value(y))
    decreases Value(y)
  {
    hide Value, Mod, Plus;
    Constants();
    PlusStep(x, y);
    ModSmall(Value(x));
    if y != 0 {
      Predecessor(y);
      Sum(x, y - 1);
      PlusOne(Plus(x, y - 1));
      ModMod(Value(x) + Value(y - 1), 1);
    }
  }

  lemma ModMod(m: int, n: int)
    ensures Mod(Mod(m) + n) == Mod(m + n)
  {
  }

  lemma {:induction false} Product(x: bv32, y: bv32)
    ensures Value(Times(x, y)) == Mod(Value(x) * Value(y))
    decreases Value(y)
  {
    hide Value, Mod, Plus, Times;
    Constants();
    TimesZero(x);
    TimesStep(x, y);
    ModSmall(0);
    if y != 0 {
      Predecessor(y);
      Product(x, y - 1);
      Sum(Times(x, y - 1), x);
      Distribute(Value(x), Value(y), Value(y - 1));
    }
  }

  lemma Distribute(x: int, y: int, z: int)
    requires y == z + 1
    ensures Mod(Mod(x * z) + x) == Mod(x * y)
  {
    ModMod(x * z, x);
    assert x * z + x == x * y;
  }

  // ----- halving, shifts and exclusive or

  lemma Halves(x: bv32)
    ensures Value(x) == 2 * Value(x >> 1) + if x & 1 == 1 then 1 else 0
  {
    hide Value;
    var high, low := Halve(x);
    Joined(high, low);
  }

  lemma Halve(x: bv32) returns (high: bv31, low: bv1)
    ensures x == ((high as bv32) << 1) | (low as bv32)
    ensures x >> 1 == high as bv32
    ensures x & 1 == low as bv32
  {
    high, low := (x >> 1) as bv31, (x & 1) as bv1;
  }

  lemma Joined(high: bv31, low: bv1)
    ensures Value(((high as bv32) << 1) | (low as bv32)) == 2 * (high as int) + (low as int)
    ensures Value(high as bv32) == high as int
    ensures low as int == if low == 1 then 1 else 0
    ensures low as bv32 == 1 <==> low == 1
  {
  }

  function Shift(x: bv32, k: bv32): bv32
    requires k < 32
  {
    x >> k
  }

  lemma NoShift(x: bv32)
    ensures Shift(x, 0) == x
  {
  }

  lemma OneMore(x: bv32, k: bv32)
    requires k < 31
    ensures Shift(x, k + 1) == Shift(Shift(x, k), 1)
  {
  }

  lemma OneLess(k: bv32)
    ensures 0 < k < 32 ==> k - 1 < 31 && (k - 1) + 1 == k
  {
  }

  lemma HalfValue(x: bv32)
    ensures Value(Shift(x, 1)) == Value(x) / 2
  {
    hide Value;
    Halves(x);
  }

  function Pow2(n: nat): nat {
    if n == 0 then 1 else 2 * Pow2(n - 1)
  }

  lemma {:induction false} ShiftValue(x: bv32, k: bv32)
    requires k < 32
    ensures Pow2(Value(k)) > 0 && Value(Shift(x, k)) == Value(x) / Pow2(Value(k))
    decreases Value(k)
  {
    hide Value, Shift;
    Constants();
    NoShift(x);
    OneLess(k);
    if k != 0 {
      Predecessor(k);
      ShiftValue(x, k - 1);
      OneMore(x, k - 1);
      HalfValue(Shift(x, k - 1));
      DivideTwice(Value(x), Pow2(Value(k - 1)));
    }
  }

  lemma DivideTwice(x: nat, d: nat)
    requires d > 0
    ensures x / d / 2 == x / (2 * d)
  {
    var q, r := x / d / 2, x / d % 2;
    assert x == (2 * q + r) * d + x % d;
    assert x == q * (2 * d) + (r * d + x % d);
    assert r * d + x % d < 2 * d;
    Quotient(x, 2 * d, q, r * d + x % d);
  }

  lemma Quotient(x: nat, d: nat, q: nat, r: nat)
    requires d > 0 && x == q * d + r && r < d
    ensures x / d == q
  {
    var e := x / d;
    assert x == e * d + x % d;
    if e < q {
      Larger(e, q, d);
      assert false;
    } else if q < e {
      Larger(q, e, d);
      assert false;
    }
  }

  lemma Larger(a: int, b: int, d: nat)
    requires a < b
    ensures a * d + d <= b * d
  {
    NonNegative(b - a - 1, d);
    assert b * d - a * d - d == (b - a - 1) * d;
  }

  lemma NonNegative(a: nat, b: nat)
    ensures a * b >= 0
  {
  }

  /** Exclusive or of two numbers, bit by bit. */
  function Xor(x: nat, y: nat): nat {
    if x == 0 && y == 0 then 0 else 2 * Xor(x / 2, y / 2) + if x % 2 == y % 2 then 0 else 1
  }

  function ExclusiveOr(x: bv32, y: bv32): bv32 { x ^ y }

  lemma XorStep(x: bv32, y: bv32)
    ensures Shift(ExclusiveOr(x, y), 1) == ExclusiveOr(Shift(x, 1), Shift(y, 1))
    ensures Odd(ExclusiveOr(x, y)) <==> Odd(x) != Odd(y)
    ensures ExclusiveOr(0, 0) == 0
  {
  }

  predicate Odd(x: bv32) { x & 1 == 1 }

  lemma HalvesOdd(x: bv32)
    ensures Value(x) == 2 * Value(Shift(x, 1)) + if Odd(x) then 1 else 0
    ensures Value(x) == 0 ==> x == 0
  {
    hide Value;
    Halves(x);
    Constants();
    if x != 0 {
      Predecessor(x);
    }
  }

  lemma {:induction false} XorValue(x: bv32, y: bv32)
    ensures Value(ExclusiveOr(x, y)) == Xor(Value(x), Value(y))
    decreases Value(x) + Value(y)
  {
    hide Value, Shift, ExclusiveOr, Odd, Xor;
    XorStep(x, y);
    HalvesOdd(x);
    HalvesOdd(y);
    HalvesOdd(ExclusiveOr(x, y));
    if Value(x) + Value(y) > 0 {
      XorValue(Shift(x, 1), Shift(y, 1));
    }
    XorUnfolds(Value(x), Value(y), Value(Shift(x, 1)), Value(Shift(y, 1)));
  }

  lemma XorUnfolds(x: nat, y: nat, a: nat, b: nat)
    requires x == 2 * a || x == 2 * a + 1
    requires y == 2 * b || y == 2 * b + 1
    ensures Xor(x, y) == if x == 0 && y == 0 then 0 else 2 * Xor(a, b) + if x - 2 * a == y - 2 * b then 0 else 1
  {
  }
}
