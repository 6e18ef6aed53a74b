/** UTF-8 as section 4 of RFC 3629 defines it, on strings whose characters are bytes. */
module Utf8 {

  /** Between characters, or with left bytes of one to come, the next of them within lo..hi. */
  datatype Progress = Boundary | Within(left: nat, lo: int, hi: int) | Bad

  function Next(p: Progress, c: char): Progress {
    match p
    case Bad => Bad
    case Within(left, lo, hi) =>
      if lo <= c as int <= hi && left > 0 then (if left == 1 then Boundary else Within(left - 1, 0x80, 0xBF)) else Bad
    case Boundary => Lead(c as int)
  }

  function Lead(b: int): Progress {
    if b < 0x80 then Boundary
    else if 0xC2 <= b <= 0xDF then Within(1, 0x80, 0xBF)
    else if b == 0xE0 then Within(2, 0xA0, 0xBF)
    else if b == 0xED then Within(2, 0x80, 0x9F)
    else if 0xE1 <= b <= 0xEF then Within(2, 0x80, 0xBF)
    else if b == 0xF0 then Within(3, 0x90, 0xBF)
    else if 0xF1 <= b <= 0xF3 then Within(3, 0x80, 0xBF)
    else if b == 0xF4 then Within(3, 0x80, 0x8F)
    else Bad
  }

  function Run(p: Progress, s: string): Progress
    decreases |s|
  {
    if s == "" then p else Run(Next(p, s[0]), s[1..])
  }

  /** The bytes are a sequence of whole characters. */
  predicate Valid(s: string) { Run(Boundary, s) == Boundary }

  lemma {:induction false} AsciiValid(s: string)
    requires forall i | 0 <= i < |s| :: s[i] < '\U{80}'
    ensures Valid(s)
  {
    if s != "" {
      AsciiValid(s[1..]);
    }
  }

  // ----- the same set of strings, as section 3 of RFC 3629 builds it

  /** A character number; those reserved for UTF-16 are none. */
  type Scalar = c: int | 0 <= c < 0xD800 || 0xE000 <= c < 0x11_0000

  /** A byte that carries the six low bits of n. */
  function More(n: nat): char { (0x80 + n % 0x40) as char }

  function Encode(c: Scalar): string {
    if c < 0x80 then [c as char]
    else if c < 0x800 then [(0xC0 + c / 0x40) as char, More(c)]
    else if c < 0x1_0000 then [(0xE0 + c / 0x1000) as char, More(c / 0x40), More(c)]
    else [(0xF0 + c / 0x4_0000) as char, More(c / 0x1000), More(c / 0x40), More(c)]
  }

  function EncodeAll(cs: seq<Scalar>): string {
    if cs == [] then "" else Encode(cs[0]) + EncodeAll(cs[1..])
  }

  lemma RunStep(p: Progress, a: char, s: string)
    ensures Run(p, [a] + s) == Run(Next(p, a), s)
  {
    assert ([a] + s)[1..] == s;
  }

  /** Reading one encoded character leads from boundary to boundary. */
  lemma EncodeRuns(c: Scalar, s: string)
    ensures Run(Boundary, Encode(c) + s) == Run(Boundary, s)
  {
    hide Run;
    var e := Encode(c);
    if c < 0x80 {
      RunStep(Boundary, e[0], s);
    } else if c < 0x800 {
      assert e + s == [e[0]] + ([e[1]] + s);
      RunStep(Boundary, e[0], [e[1]] + s);
      RunStep(Lead(e[0] as int), e[1], s);
    } else if c < 0x1_0000 {
      ThreeRun(c, s);
    } else {
      FourRun(c, s);
    }
  }

  lemma ThreeRun(c: Scalar, s: string)
    requires 0x800 <= c < 0x1_0000
    ensures Run(Boundary, Encode(c) + s) == Run(Boundary, s)
  {
    hide Run;
    var e := Encode(c);
    assert e + s == [e[0]] + ([e[1]] + ([e[2]] + s));
    var p := Lead(e[0] as int);
    RunStep(Boundary, e[0], [e[1]] + ([e[2]] + s));
    RunStep(p, e[1], [e[2]] + s);
    RunStep(Next(p, e[1]), e[2], s);
  }

  lemma FourRun(c: Scalar, s: string)
    requires 0x1_0000 <= c
    ensures Run(Boundary, Encode(c) + s) == Run(Boundary, s)
  {
    hide Run;
    var e := Encode(c);
    assert e + s == [e[0]] + ([e[1]] + ([e[2]] + ([e[3]] + s)));
    var p := Lead(e[0] as int);
    RunStep(Boundary, e[0], [e[1]] + ([e[2]] + ([e[3]] + s)));
    RunStep(p, e[1], [e[2]] + ([e[3]] + s));
    RunStep(Next(p, e[1]), e[2], [e[3]] + s);
    RunStep(Next(Next(p, e[1]), e[2]), e[3], s);
  }

  lemma {:induction false} BadStays(s: string)
    ensures Run(Bad, s) == Bad
    decreases |s|
  {
    if s != "" {
      BadStays(s[1..]);
    }
  }

  /** In the middle of a character of a valid string there is another byte, and it is in range. */
  lemma NextByte(left: nat, lo: int, hi: int, s: string)
    requires left > 0 && Run(Within(left, lo, hi), s) == Boundary
    ensures s != "" && lo <= s[0] as int <= hi
    ensures Run(if left == 1 then Boundary else Within(left - 1, 0x80, 0xBF), s[1..]) == Boundary
  {
    BadStays(if s == "" then s else s[1..]);
  }

  /** A valid string that is not empty begins with an encoded character. */
  lemma Decode(s: string) returns (c: Scalar, rest: string)
    requires Valid(s) && s != ""
    ensures s == Encode(c) + rest && Valid(rest)
  {
    var b := s[0] as int;
    BadStays(s[1..]);
    if b < 0x80 {
      c, rest := b, s[1..];
    } else if b < 0xE0 {
      NextByte(1, 0x80, 0xBF, s[1..]);
      c, rest := Two(s[0], s[1]), s[2..];
    } else if b < 0xF0 {
      var p := Lead(b);
      NextByte(2, p.lo, p.hi, s[1..]);
      NextByte(1, 0x80, 0xBF, s[2..]);
      c, rest := Three(s[0], s[1], s[2]), s[3..];
    } else {
      var p := Lead(b);
      NextByte(3, p.lo, p.hi, s[1..]);
      NextByte(2, 0x80, 0xBF, s[2..]);
      NextByte(1, 0x80, 0xBF, s[3..]);
      c, rest := Four(s[0], s[1], s[2], s[3]), s[4..];
    }
  }

  function Two(a: char, b: char): (c: Scalar)
    requires 0xC2 <= a as int <= 0xDF && 0x80 <= b as int <= 0xBF
    ensures Encode(c) == [a, b]
  {
    0x40 * (a as int - 0xC0) + (b as int - 0x80)
  }

  lemma SixBits(q: nat, r: nat)
    requires r < 0x40
    ensures (0x40 * q + r) / 0x40 == q && (0x40 * q + r) % 0x40 == r
  {
  }

  lemma TwelveBits(q: nat, r: nat, t: nat)
    requires r < 0x40 && t < 0x40
    ensures
      var n := 0x40 * (0x40 * q + r) + t;
      n / 0x1000 == q && n / 0x40 % 0x40 == r && n % 0x40 == t
  {
    SixBits(0x40 * q + r, t);
    SixBits(q, r);
  }

  lemma EighteenBits(p: nat, q: nat, r: nat, t: nat)
    requires q < 0x40 && r < 0x40 && t < 0x40
    ensures
      var n := 0x40 * (0x40 * (0x40 * p + q) + r) + t;
      n / 0x4_0000 == p && n / 0x1000 % 0x40 == q && n / 0x40 % 0x40 == r && n % 0x40 == t
  {
    TwelveBits(0x40 * p + q, r, t);
    SixBits(p, q);
    var n := 0x40 * (0x40 * (0x40 * p + q) + r) + t;
    assert n / 0x1000 / 0x40 == n / 0x4_0000;
  }

  function Three(a: char, b: char, d: char): (c: Scalar)
    requires 0xE0 <= a as int <= 0xEF && 0x80 <= d as int <= 0xBF
    requires (if a as int == 0xE0 then 0xA0 else 0x80) <= b as int <= (if a as int == 0xED then 0x9F else 0xBF)
    ensures Encode(c) == [a, b, d]
  {
    TwelveBits(a as int - 0xE0, b as int - 0x80, d as int - 0x80);
    0x40 * (0x40 * (a as int - 0xE0) + (b as int - 0x80)) + (d as int - 0x80)
  }

  function Four(a: char, b: char, d: char, e: char): (c: Scalar)
    requires 0xF0 <= a as int <= 0xF4 && 0x80 <= d as int <= 0xBF && 0x80 <= e as int <= 0xBF
    requires (if a as int == 0xF0 then 0x90 else 0x80) <= b as int <= (if a as int == 0xF4 then 0x8F else 0xBF)
    ensures Encode(c) == [a, b, d, e]
  {
    EighteenBits(a as int - 0xF0, b as int - 0x80, d as int - 0x80, e as int - 0x80);
    0x40 * (0x40 * (0x40 * (a as int - 0xF0) + (b as int - 0x80)) + (d as int - 0x80)) + (e as int - 0x80)
  }

  /** A string is valid exactly when it is the encoding of some sequence of characters. */
  lemma {:induction false} ValidIff(s: string)
    ensures Valid(s) <==> exists cs :: s == EncodeAll(cs)
  {
    if Valid(s) {
      var cs := DecodeAll(s);
    }
    if cs :| s == EncodeAll(cs) {
      EncodedValid(cs);
    }
  }

  lemma {:induction false} DecodeAll(s: string) returns (cs: seq<Scalar>)
    requires Valid(s)
    ensures s == EncodeAll(cs)
    decreases |s|
  {
    hide Run, Encode;
    cs := [];
    if s != "" {
      var c, rest := Decode(s);
      EncodeShort(c);
      cs := DecodeAll(rest);
      assert ([c] + cs)[1..] == cs;
      cs := [c] + cs;
    }
  }

  lemma EncodeShort(c: Scalar)
    ensures |Encode(c)| > 0
  {
  }

  lemma {:induction false} EncodedValid(cs: seq<Scalar>)
    ensures Valid(EncodeAll(cs))
  {
    hide Encode;
    if cs != [] {
      EncodeRuns(cs[0], EncodeAll(cs[1..]));
      EncodedValid(cs[1..]);
    }
  }
}
