/** What a program that lists a directory gets to read, in terms of names: before the filter and after it. */
module DirentNames {
  import opened Bytes
  import opened Dirents

  // ----- one record, on the bytes of the buffer

  /** The record at p has s as its name: no zero byte in it, and one after it unless the buffer ends there. */
  ghost predicate Named(b: seq<Byte>, start: nat, s: seq<Byte>) {
    && start + |s| <= |b|
    && b[start..start + |s|] == s
    && (forall i | 0 <= i < |s| :: s[i] != 0)
    && (start + |s| < |b| ==> b[start + |s|] == 0)
  }

  lemma {:induction false} CStringMeaning(b: seq<Byte>, start: nat, s: seq<Byte>)
    requires start <= |b|
    ensures s == CString(b, start) <==> Named(b, start, s)
    decreases |b| - start
  {
    if start < |b| && b[start] != 0 {
      var rest := CString(b, start + 1);
      CStringMeaning(b, start + 1, rest);
      assert b[start..start + 1 + |rest|] == [b[start]] + rest;
      if Named(b, start, s) {
        NamedTail(b, start, s);
        CStringMeaning(b, start + 1, s[1..]);
        assert s == [b[start]] + s[1..];
      }
    } else if Named(b, start, s) {
      NoName(b, start, s);
    }
  }

  lemma NamedHead(b: seq<Byte>, start: nat, s: seq<Byte>)
    requires Named(b, start, s) && s != []
    ensures start < |b| && b[start] != 0
  {
    assert s[0] == b[start..start + |s|][0];
  }

  lemma NoName(b: seq<Byte>, start: nat, s: seq<Byte>)
    requires Named(b, start, s) && (start == |b| || b[start] == 0)
    ensures s == []
  {
    if s != [] {
      NamedHead(b, start, s);
    }
  }

  lemma NamedTail(b: seq<Byte>, start: nat, s: seq<Byte>)
    requires start < |b| && b[start] != 0 && Named(b, start, s)
    ensures s != [] && s[0] == b[start] && Named(b, start + 1, s[1..])
  {
    assert s != [];
    assert s[0] == b[start..start + |s|][0];
    assert b[start + 1..start + 1 + |s[1..]|] == b[start..start + |s|][1..];
  }

  /** The six letters of "secret" stand at place i. */
  predicate SpelledAt(b: seq<Byte>, i: nat) {
    i + 6 <= |b| && b[i..i + 6] == [115, 101, 99, 114, 101, 116]
  }

  ghost predicate Secret(s: seq<Byte>) {
    exists i: nat :: SpelledAt(s, i)
  }

  lemma SecretMeaning(b: seq<Byte>, p: nat, name: nat)
    requires p + name <= |b|
    ensures Hidden(b, p, name) <==> Secret(CString(b, p + name))
  {
    hide CString;
    var s := CString(b, p + name);
    ContainsMeaning(s, HIDE_FILE);
    forall i: nat | i <= |s| ensures HIDE_FILE <= s[i..] <==> SpelledAt(s, i) {
      if |s| >= i + 6 {
        assert s[i..][..6] == s[i..i + 6];
      }
    }
  }

  /** The word stands at i behind the start of the name, and no zero byte comes before it. */
  ghost predicate SecretAt(b: seq<Byte>, start: nat, i: nat) {
    && start <= i
    && i + 6 <= |b|
    && (forall j | start <= j < i :: b[j] != 0)
    && b[i..i + 6] == [115, 101, 99, 114, 101, 116]
  }

  ghost predicate SecretBehind(b: seq<Byte>, start: nat) {
    exists i: nat :: SecretAt(b, start, i)
  }

  /** A record is hidden exactly when the six bytes stand somewhere behind the start of its name. */
  lemma HiddenBytes(b: seq<Byte>, p: nat, name: nat)
    requires p + name <= |b|
    ensures Hidden(b, p, name) <==> SecretBehind(b, p + name)
  {
    hide Hidden, CString, Named, SpelledAt, SecretAt;
    var start, s := p + name, CString(b, p + name);
    SecretMeaning(b, p, name);
    CStringMeaning(b, start, s);
    if Secret(s) {
      var k: nat :| SpelledAt(s, k);
      SecretInBuffer(b, start, s, k);
    }
    if SecretBehind(b, start) {
      var i: nat :| SecretAt(b, start, i);
      SecretInName(b, start, s, i);
    }
  }

  lemma SecretInBuffer(b: seq<Byte>, start: nat, s: seq<Byte>, k: nat)
    requires Named(b, start, s) && SpelledAt(s, k)
    ensures SecretAt(b, start, start + k)
  {
    assert forall j | start <= j < start + |s| :: b[j] == b[start..start + |s|][j - start];
    assert b[start + k..start + k + 6] == s[k..k + 6];
  }

  lemma SecretInName(b: seq<Byte>, start: nat, s: seq<Byte>, i: nat)
    requires Named(b, start, s) && SecretAt(b, start, i)
    ensures i >= start && SpelledAt(s, i - start)
  {
    var w := b[i..i + 6];
    assert b[i] == w[0] && b[i + 1] == w[1] && b[i + 2] == w[2];
    assert b[i + 3] == w[3] && b[i + 4] == w[4] && b[i + 5] == w[5];
    assert i + 6 <= start + |s|;
    var k := i - start;
    assert s[k..k + 6] == b[start..start + |s|][k..k + 6] == b[i..i + 6];
  }

  // ----- the whole buffer

  /** The names a reader lists from p on: each record tells its length in bytes 16 and 17. */
  ghost function Listing(b: seq<Byte>, p: nat, name: nat): seq<seq<Byte>>
    decreases |b| - p
  {
    if p + 18 > |b| || p + name > |b| || Length(b, p) == 0 then []
    else [CString(b, p + name)] + Listing(b, p + Length(b, p), name)
  }

  function Length(b: seq<Byte>, p: nat): nat
    requires p + 18 <= |b|
  {
    b[p + 16] as int + 0x100 * (b[p + 17] as int)
  }

  ghost function WithoutSecrets(names: seq<seq<Byte>>): seq<seq<Byte>> {
    if names == [] then []
    else if Secret(names[0]) then WithoutSecrets(names[1..])
    else [names[0]] + WithoutSecrets(names[1..])
  }

  /** The names of the records that start at the given places. */
  ghost function NamesAt(b: seq<Byte>, offs: seq<nat>, name: nat): (names: seq<seq<Byte>>)
    requires forall k | 0 <= k < |offs| :: offs[k] + name <= |b|
    ensures |names| == |offs|
  {
    seq(|offs|, k requires 0 <= k < |offs| => CString(b, offs[k] + name))
  }

  lemma ListingStep(b: seq<Byte>, p: nat, name: nat)
    requires name >= 18 && Chain(b, p, name)
    ensures p == |b| ==> Listing(b, p, name) == []
    ensures p < |b| ==>
              && p + name <= |b| && p + Reclen(b, p) <= |b| && Chain(b, p + Reclen(b, p), name)
              && Listing(b, p, name) == [CString(b, p + name)] + Listing(b, p + Reclen(b, p), name)
  {
    hide CString;
  }

  lemma NamesCons(b: seq<Byte>, p: nat, rest: seq<nat>, name: nat)
    requires p + name <= |b| && forall k | 0 <= k < |rest| :: rest[k] + name <= |b|
    ensures forall k | 0 <= k < |[p] + rest| :: ([p] + rest)[k] + name <= |b|
    ensures NamesAt(b, [p] + rest, name) == [CString(b, p + name)] + NamesAt(b, rest, name)
  {
    hide CString;
  }

  lemma RecordsStep(b: seq<Byte>, p: nat, name: nat)
    requires name >= 18 && Chain(b, p, name)
    ensures p == |b| ==> Records(b, p, name) == []
    ensures p < |b| ==> p + Reclen(b, p) <= |b| && Chain(b, p + Reclen(b, p), name)
                        && Records(b, p, name) == [p] + Records(b, p + Reclen(b, p), name)
  {
  }

  lemma {:induction false} ListingIsRecords(b: seq<Byte>, p: nat, name: nat)
    requires name >= 18 && Chain(b, p, name)
    ensures Listing(b, p, name) == NamesAt(b, Records(b, p, name), name)
    decreases |b| - p
  {
    hide CString, Listing, Reclen, NamesAt, Chain;
    ListingStep(b, p, name);
    RecordsStep(b, p, name);
    ChainAhead(b, p, name);
    if p < |b| {
      ListingIsRecords(b, p + Reclen(b, p), name);
      NamesCons(b, p, Records(b, p + Reclen(b, p), name), name);
    } else {
      NoNames(b, name);
    }
  }

  lemma NoNames(b: seq<Byte>, name: nat)
    ensures NamesAt(b, [], name) == []
  {
  }

  lemma ChainAhead(b: seq<Byte>, p: nat, name: nat)
    requires name >= 18 && Chain(b, p, name)
    ensures p <= |b| && (p < |b| ==> p + name < |b| && p + name < p + Reclen(b, p) <= |b|)
  {
  }

  lemma KeptStep(b: seq<Byte>, p: nat, name: nat)
    requires name >= 18 && Chain(b, p, name) && p == |b|
    ensures Kept(b, p, name) == []
  {
  }

  lemma {:induction false} KeptIsFiltered(b: seq<Byte>, p: nat, name: nat)
    requires name >= 18 && Chain(b, p, name)
    ensures NamesAt(b, Kept(b, p, name), name) == WithoutSecrets(Listing(b, p, name))
    decreases |b| - p
  {
    hide CString, Hidden, Secret, Listing, Reclen, NamesAt, Chain, Kept;
    ListingStep(b, p, name);
    ChainAhead(b, p, name);
    if p < |b| {
      NextRecord(b, p, name);
      SecretMeaning(b, p, name);
      var next := p + Reclen(b, p);
      KeptIsFiltered(b, next, name);
      NamesCons(b, p, Kept(b, next, name), name);
      assert ([CString(b, p + name)] + Listing(b, next, name))[1..] == Listing(b, next, name);
    } else {
      KeptStep(b, p, name);
      NoNames(b, name);
    }
  }

  lemma SameNames(b: seq<Byte>, c: seq<Byte>, name: nat)
    requires name >= 18 && Chain(b, 0, name) && Stretched(b, c, Kept(b, 0, name), |b|)
    ensures forall k | 0 <= k < |Kept(b, 0, name)| :: Kept(b, 0, name)[k] + name <= |c|
    ensures NamesAt(c, Kept(b, 0, name), name) == NamesAt(b, Kept(b, 0, name), name)
  {
    hide CString, Hidden, RecordsAt, SameElsewhere;
    var offs := Kept(b, 0, name);
    KeptRecords(b, 0, name);
    NothingElse(b, c, offs);
    NamesIntact(b, c, offs, name);
    forall k | 0 <= k < |offs| ensures CString(c, offs[k] + name) == CString(b, offs[k] + name) {
      assert offs[k] in offs;
    }
  }

  /** A reader of the rewritten buffer gets the old list of names without those that hold the word, in order, if
      the groups fit. */
  lemma FilteredNames(b: seq<Byte>, c: seq<Byte>, name: nat)
    requires name >= 18 && Visible(b, name) && Stretched(b, c, Kept(b, 0, name), |b|)
    requires GroupsFit(Kept(b, 0, name), |b|)
    ensures Listing(c, 0, name) == WithoutSecrets(Listing(b, 0, name))
  {
    hide Stretched, GroupsFit, Records, Listing, WithoutSecrets, NamesAt, Hidden;
    FilteredIff(b, c, name);
    ListingIsRecords(c, 0, name);
    SameNames(b, c, name);
    KeptIsFiltered(b, 0, name);
  }

  lemma SmallFit(b: seq<Byte>, name: nat)
    requires name >= 18 && Visible(b, name) && |b| < 0x1_0000
    ensures GroupsFit(Kept(b, 0, name), |b|)
  {
    hide RecordsAt, GroupsFit;
    KeptRecords(b, 0, name);
    SmallGroupsFit(b, Kept(b, 0, name), name);
  }

  // ----- the two system calls

  /** fake_getdents64 on a buffer below 64 KiB: names start at byte 19 of a record. */
  method ListFiltered64(buf: array<Byte>)
    requires Visible(buf[..], D_NAME_64) && buf.Length < 0x1_0000
    modifies buf
    ensures Listing(buf[..], 0, 19) == WithoutSecrets(Listing(old(buf[..]), 0, 19))
  {
    hide Visible, Stretched, Kept, GroupsFit, Listing, WithoutSecrets, Chain, Records;
    ghost var b := buf[..];
    FakeGetdents64(buf);
    SmallFit(b, D_NAME_64);
    FilteredNames(b, buf[..], D_NAME_64);
  }

  /** fake_getdents on a buffer below 64 KiB: names start at byte 18. */
  method ListFiltered(buf: array<Byte>)
    requires Visible(buf[..], D_NAME) && buf.Length < 0x1_0000
    modifies buf
    ensures Listing(buf[..], 0, 18) == WithoutSecrets(Listing(old(buf[..]), 0, 18))
  {
    hide Visible, Stretched, Kept, GroupsFit, Listing, WithoutSecrets, Chain, Records;
    ghost var b := buf[..];
    FakeGetdents(buf);
    SmallFit(b, D_NAME);
    FilteredNames(b, buf[..], D_NAME);
  }
}
