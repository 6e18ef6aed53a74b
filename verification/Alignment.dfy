/** Multiples of four.  The predicate keeps remainders out of the proofs that only need words not to overlap. */
module Alignment {

  predicate Aligned(i: nat) { i % 4 == 0 }

  lemma FourDivides(x: nat)
    ensures Aligned(4 * x)
  {
  }

  lemma Quarter(i: nat) returns (w: nat)
    ensures i - i % 4 == 4 * w <= i < 4 * w + 4
    ensures Aligned(i) ==> i == 4 * w
  {
    w := i / 4;
  }

  lemma Ordered(w: nat, v: nat)
    ensures 4 * w < 4 * v ==> 4 * w + 4 <= 4 * v
  {
  }

  /** Of two different words the first is over before the second begins. */
  lemma Apart(i: nat, k: nat)
    requires Aligned(i) && Aligned(k)
    ensures k < i ==> k + 4 <= i
    ensures i < k ==> i + 4 <= k
  {
    var w := Quarter(i);
    var v := Quarter(k);
    hide Aligned;
    Ordered(w, v);
    Ordered(v, w);
  }

  lemma WordAligned(from: nat, k: nat)
    requires Aligned(from)
    ensures Aligned(from + 4 * k)
  {
    var w := Quarter(from);
    hide Aligned;
    FourDivides(w + k);
  }
}
