/** Strictly increasing sequences of positions, and where a new one belongs. */
module SortedSeq {

  ghost predicate Increasing(s: seq<int>) {
    forall i, j | 0 <= i < j < |s| :: s[i] < s[j]
  }

  ghost predicate NoDup<T>(s: seq<T>) {
    forall i, j | 0 <= i < j < |s| :: s[i] != s[j]
  }

  /** The number of leading elements below x. */
  ghost function Pos(s: seq<int>, x: int): (p: nat)
    ensures p <= |s|
    ensures forall j | 0 <= j < p :: s[j] < x
    ensures p == |s| || s[p] >= x
  {
    if s == [] || s[0] >= x then 0
    else
      var q := Pos(s[1..], x);
      assert q < |s[1..]| ==> s[1..][q] == s[q + 1];
      1 + q
  }

  ghost predicate Has(s: seq<int>, x: int) {
    Pos(s, x) < |s| && s[Pos(s, x)] == x
  }

  function InsertAt<T>(s: seq<T>, p: nat, x: T): (r: seq<T>)
    requires p <= |s|
  {
    s[..p] + [x] + s[p..]
  }

  ghost function Inserted(s: seq<int>, x: int): seq<int> {
    if Has(s, x) then s else InsertAt(s, Pos(s, x), x)
  }

  lemma PosUnique(s: seq<int>, x: int, i: nat)
    requires i <= |s|
    requires forall j | 0 <= j < i :: s[j] < x
    requires i == |s| || s[i] >= x
    ensures Pos(s, x) == i
  {
  }

  lemma InsertAtMembers<T>(s: seq<T>, p: nat, x: T)
    requires p <= |s|
    ensures forall y :: y in InsertAt(s, p, x) <==> y in s || y == x
  {
    assert s == s[..p] + s[p..];
  }

  /** Inserting keeps the sequence strictly increasing and adds exactly x to its elements. */
  lemma InsertedMeaning(s: seq<int>, x: int)
    requires Increasing(s)
    ensures Increasing(Inserted(s, x))
    ensures forall y :: y in Inserted(s, x) <==> y in s || y == x
  {
    if !Has(s, x) {
      InsertAtMembers(s, Pos(s, x), x);
    }
  }

  /** A strictly increasing sequence is determined by its elements. */
  lemma {:induction false} IncreasingUnique(s: seq<int>, t: seq<int>)
    requires Increasing(s) && Increasing(t)
    requires forall x :: x in s <==> x in t
    ensures s == t
  {
    assert s != [] ==> s[0] in s && s[0] in t;
    assert t != [] ==> t[0] in t && t[0] in s;
    if s != [] {
      forall x ensures x in s[1..] <==> x in t[1..] {
        assert x in s[1..] <==> x in s && x != s[0];
        assert x in t[1..] <==> x in t && x != t[0];
      }
      IncreasingUnique(s[1..], t[1..]);
      assert s == [s[0]] + s[1..] && t == [t[0]] + t[1..];
    }
  }

  /** The values are 0..|s|-1, each once. */
  ghost predicate IsPermutation(s: seq<nat>) {
    && (forall i | 0 <= i < |s| :: s[i] < |s|)
    && (forall i, j | 0 <= i < j < |s| :: s[i] != s[j])
  }

  lemma InsertFreshIndex(s: seq<nat>, p: nat)
    requires IsPermutation(s) && p <= |s|
    ensures IsPermutation(InsertAt(s, p, |s|))
  {
  }

  /** Every index below the length is used. */
  lemma {:induction false} PermutationIsOnto(s: seq<nat>, v: nat)
    requires IsPermutation(s) && v < |s|
    ensures v in s
  {
    if v !in s {
      var used := set i | 0 <= i < |s| :: s[i];
      DistinctCount(s, |s|);
      CardinalitySubset(used, UpTo(|s|) - {v});
    }
  }

  lemma {:induction false} DistinctCount(s: seq<nat>, n: nat)
    requires n <= |s| && forall i, j | 0 <= i < j < |s| :: s[i] != s[j]
    ensures |set i | 0 <= i < n :: s[i]| == n
  {
    if n > 0 {
      DistinctCount(s, n - 1);
      assert (set i | 0 <= i < n :: s[i]) == (set i | 0 <= i < n - 1 :: s[i]) + {s[n - 1]};
    }
  }

  ghost function UpTo(n: nat): (r: set<nat>)
    ensures |r| == n && forall i: nat :: i in r <==> i < n
  {
    if n == 0 then {} else UpTo(n - 1) + {n - 1}
  }

  lemma {:induction false} CardinalitySubset<T>(a: set<T>, b: set<T>)
    requires a <= b
    ensures |a| <= |b|
  {
    if a != {} {
      var x :| x in a;
      CardinalitySubset(a - {x}, b - {x});
    }
  }
}
