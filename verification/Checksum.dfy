/** The header checksum of load_balancer.bpf.c against the one's-complement sum of RFC 1071. */
module Checksum {

  type Word = w: int | 0 <= w < 0x1_0000

  function Sum(ws: seq<Word>): (s: nat)
    ensures s <= 0xFFFF * |ws|
  {
    if ws == [] then 0 else Sum(ws[..|ws| - 1]) + ws[|ws| - 1]
  }

  // ----- section 1 of RFC 1071: carries are added back until none is left

  function FoldAll(s: nat): Word {
    if s < 0x1_0000 then s else FoldAll(s % 0x1_0000 + s / 0x1_0000)
  }

  function RfcChecksum(s: nat): Word { 0xFFFF - FoldAll(s) }

  // ----- what iph_csum computes from its sum: one fold, complement in 64 bits, remainder

  const ALL_ONES_64 := 0xFFFF_FFFF_FFFF_FFFF

  function FoldOnce(s: nat): nat {
    if s / 0x1_0000 != 0 then s % 0x1_0000 + s / 0x1_0000 else s
  }

  function Finish(s: nat): Word
    requires s <= ALL_ONES_64
  {
    (ALL_ONES_64 - FoldOnce(s)) % 0xFFFF
  }

  // ----- folding and complementing, modulo 0xFFFF

  /** Folding completely takes out a multiple of 0xFFFF, and leaves zero only from zero. */
  lemma {:induction false} FoldAllQuotient(s: nat) returns (k: nat)
    ensures s == FoldAll(s) + 0xFFFF * k
    ensures FoldAll(s) == 0 <==> s == 0
    decreases s
  {
    if s < 0x1_0000 {
      k := 0;
    } else {
      var q, r := s / 0x1_0000, s % 0x1_0000;
      k := FoldAllQuotient(r + q);
      k := k + q;
    }
  }

  /** The result of iph_csum completes the sum to a multiple of 0xFFFF. */
  lemma FinishQuotient(s: nat) returns (u: int)
    requires s <= ALL_ONES_64
    ensures Finish(s) + s == 0xFFFF * u && Finish(s) < 0xFFFF
  {
    var f := FoldOnce(s);
    var q := if s / 0x1_0000 != 0 then s / 0x1_0000 else 0;
    assert s == f + 0xFFFF * q;
    var w := (ALL_ONES_64 - f) / 0xFFFF;
    assert Finish(s) == ALL_ONES_64 - f - 0xFFFF * w;
    u := 0x1_0001_0001_0001 - w + q;
  }

  /** The single fold and the remainder give the checksum of RFC 1071, unless every word is zero. */
  lemma FinishIsRfc(s: nat)
    requires s <= ALL_ONES_64
    ensures Finish(s) == RfcChecksum(s) <==> s != 0
  {
    var k := FoldAllQuotient(s);
    var u := FinishQuotient(s);
    assert Finish(s) + FoldAll(s) == 0xFFFF * (u - k);
  }

  // ----- a header that carries its checksum sums to all ones

  lemma {:induction false} SumUpdate(ws: seq<Word>, i: nat, w: Word)
    requires i < |ws|
    ensures Sum(ws[i := w]) == Sum(ws) - ws[i] + w
  {
    var n := |ws| - 1;
    if i == n {
      assert ws[i := w][..n] == ws[..n];
    } else {
      assert ws[i := w][..n] == ws[..n][i := w];
      SumUpdate(ws[..n], i, w);
    }
  }

  /** What a receiver checks: the one's-complement sum of the words is 0xFFFF. */
  predicate Verifies(ws: seq<Word>) { FoldAll(Sum(ws)) == 0xFFFF }

  /** Storing the computed checksum makes the header verify exactly when its other words are not all zero. */
  lemma StoredChecksumVerifies(ws: seq<Word>, i: nat)
    requires i < |ws| <= 0x1_0000 && ws[i] == 0
    ensures Verifies(ws[i := Finish(Sum(ws))]) <==> Sum(ws) != 0
  {
    hide Finish, FoldAll, Sum;
    var s := Sum(ws);
    SumUpdate(ws, i, Finish(s));
    var u := FinishQuotient(s);
    var k := FoldAllQuotient(s + Finish(s));
    assert FoldAll(s + Finish(s)) == 0xFFFF * (u - k);
  }

  // ----- section 2(B) of RFC 1071: byte-order independence

  function Swap(w: Word): Word { w % 0x100 * 0x100 + w / 0x100 }

  function SwapAll(ws: seq<Word>): seq<Word> { seq(|ws|, i requires 0 <= i < |ws| => Swap(ws[i])) }

  /** The sum of the high bytes: what swapping takes out, 0xFFFF at a time. */
  function HighBytes(ws: seq<Word>): nat {
    if ws == [] then 0 else HighBytes(ws[..|ws| - 1]) + ws[|ws| - 1] / 0x100
  }

  lemma {:induction false} SumOfSwapped(ws: seq<Word>)
    ensures 0x100 * Sum(ws) == Sum(SwapAll(ws)) + 0xFFFF * HighBytes(ws)
  {
    if ws != [] {
      var n := |ws| - 1;
      assert SwapAll(ws)[..n] == SwapAll(ws[..n]);
      SumOfSwapped(ws[..n]);
      var w: int := ws[n];
      assert 0x100 * w == Swap(ws[n]) + 0xFFFF * (w / 0x100);
    }
  }

  /** The checksum of the byte-swapped words is the byte-swapped checksum, for every header. */
  lemma ByteOrderIndependence(ws: seq<Word>)
    requires |ws| <= 0x1_0000
    ensures Finish(Sum(SwapAll(ws))) == Swap(Finish(Sum(ws)))
  {
    var s, t := Sum(ws), Sum(SwapAll(ws));
    var c, a := Finish(s), Finish(t);
    SumOfSwapped(ws);
    var u := FinishQuotient(s);
    var v := FinishQuotient(t);
    SwapsAgree(s, t, HighBytes(ws), c, a, u, v);
  }

  lemma SwapsAgree(s: nat, t: nat, h: nat, c: Word, a: Word, u: int, v: int)
    requires 0x100 * s == t + 0xFFFF * h && c + s == 0xFFFF * u && a + t == 0xFFFF * v
    requires c < 0xFFFF && a < 0xFFFF
    ensures a == Swap(c)
  {
    var w: int := c;
    var k := w / 0x100;
    assert 0x100 * w == Swap(c) + 0xFFFF * k;
    assert a - Swap(c) == 0xFFFF * (v + h + k - 0x100 * u);
  }
}
