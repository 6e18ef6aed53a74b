/** The record loop shared by fake_getdents64 and fake_getdents (newer_syscall_interception.c): directory records
    in a byte buffer, each found from the one before by its length, where a record that grows covers the next. */
module Dirents {
  import opened Bytes

  // struct linux_dirent64 has d_type between d_reclen and d_name; struct linux_dirent does not
  const D_RECLEN := 16
  const D_NAME_64 := 19
  const D_NAME := 18
  const HIDE_FILE: seq<Byte> := [115, 101, 99, 114, 101, 116] // "secret"

  function Reclen(b: seq<Byte>, p: nat): nat
    requires p + D_RECLEN + 2 <= |b|
  {
    b[p + D_RECLEN] as int + 0x100 * (b[p + D_RECLEN + 1] as int)
  }

  /** The C string at p. */
  function CString(b: seq<Byte>, p: nat): seq<Byte>
    requires p <= |b|
    decreases |b| - p
  {
    if p == |b| || b[p] == 0 then [] else [b[p]] + CString(b, p + 1)
  }

  /** strstr finds the needle. */
  predicate Contains(s: seq<Byte>, needle: seq<Byte>) {
    needle <= s || (s != [] && Contains(s[1..], needle))
  }

  lemma {:induction false} ContainsMeaning(s: seq<Byte>, needle: seq<Byte>)
    ensures Contains(s, needle) <==> exists i :: 0 <= i <= |s| && needle <= s[i..]
  {
    assert s[0..] == s;
    if s != [] && !(needle <= s) {
      ContainsMeaning(s[1..], needle);
      if exists i :: 0 <= i <= |s| && needle <= s[i..] {
        var i :| 0 <= i <= |s| && needle <= s[i..];
        assert s[1..][i - 1..] == s[i..];
      }
      if Contains(s[1..], needle) {
        var j :| 0 <= j <= |s[1..]| && needle <= s[1..][j..];
        assert s[j + 1..] == s[1..][j..];
      }
    }
  }

  predicate Hidden(b: seq<Byte>, p: nat, name: nat)
    requires p + name <= |b|
  {
    Contains(CString(b, p + name), HIDE_FILE)
  }

  /** From p on the buffer is a chain of records that ends exactly at its end.  A record reaches past the start
      of its name, and the name ends inside it. */
  ghost predicate Chain(b: seq<Byte>, p: nat, name: nat)
    requires name >= D_RECLEN + 2
    decreases |b| - p
  {
    p == |b|
    || (p + name < |b|
        && var next := p + Reclen(b, p);
           p + name < next <= |b| && (exists z | p + name <= z < next :: b[z] == 0) && Chain(b, next, name))
  }

  /** The records from p on that stay visible. */
  ghost function Kept(b: seq<Byte>, p: nat, name: nat): (r: seq<nat>)
    requires name >= D_RECLEN + 2 && Chain(b, p, name)
    ensures forall k | 0 <= k < |r| :: p <= r[k] && r[k] + name < |b| && !Hidden(b, r[k], name)
    ensures forall j, k | 0 <= j < k < |r| :: r[j] + name < r[k]
    decreases |b| - p
  {
    if p == |b| then []
    else
      var rest := Kept(b, p + Reclen(b, p), name);
      if Hidden(b, p, name) then rest else [p] + rest
  }

  /** Byte i belongs to the length field of one of the records. */
  ghost predicate LengthByte(offs: seq<nat>, i: nat) {
    exists k | 0 <= k < |offs| :: i == offs[k] + D_RECLEN || i == offs[k] + D_RECLEN + 1
  }

  ghost function OffsetAt(offs: seq<nat>, k: nat, end: nat): nat { if k < |offs| then offs[k] else end }

  ghost function NextOf(offs: seq<nat>, k: nat, end: nat): nat { OffsetAt(offs, k + 1, end) }

  /** Away from the length fields of the given records c is b. */
  ghost predicate SameElsewhere(b: seq<Byte>, c: seq<Byte>, offs: seq<nat>) {
    |c| == |b| && forall i | 0 <= i < |b| && !LengthByte(offs, i) :: c[i] == b[i]
  }

  /** The length of record k is the distance to the next given record, in 16 bits. */
  ghost predicate LengthOk(c: seq<Byte>, offs: seq<nat>, k: nat, end: nat)
    requires k < |offs|
  {
    && offs[k] + D_RECLEN + 2 <= |c|
    && NextOf(offs, k, end) > offs[k]
    && Reclen(c, offs[k]) == (NextOf(offs, k, end) - offs[k]) % 0x1_0000
  }

  /** c is b with the length of each given record replaced by the distance to the next one, in 16 bits. */
  ghost predicate Stretched(b: seq<Byte>, c: seq<Byte>, offs: seq<nat>, end: nat) {
    SameElsewhere(b, c, offs) && forall k | 0 <= k < |offs| :: LengthOk(c, offs, k, end)
  }

  /** c' differs from c at most in the length field at p. */
  ghost predicate OnlyLength(c: seq<Byte>, c': seq<Byte>, p: nat) {
    |c'| == |c| && forall i | 0 <= i < |c| && i != p + D_RECLEN && i != p + D_RECLEN + 1 :: c'[i] == c[i]
  }

  lemma TwoBytes(n: nat)
    ensures n % 0x100 + 0x100 * (n / 0x100 % 0x100) == n % 0x1_0000
  {
    var q := n / 0x100;
    var h, low := q / 0x100, n % 0x100 + 0x100 * (q % 0x100);
    assert n == 0x100 * q + n % 0x100 && q == 0x100 * h + q % 0x100;
    LowWord(n, h, low);
  }

  lemma LowWord(n: nat, h: nat, low: nat)
    requires n == 0x1_0000 * h + low && low < 0x1_0000
    ensures n % 0x1_0000 == low
  {
  }

  method SetReclen(buf: array<Byte>, p: nat, n: nat)
    requires p + D_RECLEN + 2 <= buf.Length
    modifies buf
    ensures Reclen(buf[..], p) == n % 0x1_0000
    ensures OnlyLength(old(buf[..]), buf[..], p)
  {
    TwoBytes(n);
    buf[p + D_RECLEN] := n % 0x100;
    buf[p + D_RECLEN + 1] := n / 0x100 % 0x100;
  }

  /** Records far enough apart that their length fields do not overlap, all before end. */
  ghost predicate Spaced(offs: seq<nat>, end: nat) {
    && (forall j, k | 0 <= j < k < |offs| :: offs[j] + D_RECLEN + 2 <= offs[k])
    && forall k | 0 <= k < |offs| :: offs[k] + D_RECLEN + 2 <= end
  }

  lemma ElsewhereKept(b: seq<Byte>, c: seq<Byte>, c': seq<Byte>, offs: seq<nat>, k: nat)
    requires SameElsewhere(b, c, offs) && k < |offs| && OnlyLength(c, c', offs[k])
    ensures SameElsewhere(b, c', offs)
  {
    forall i | 0 <= i < |b| && !LengthByte(offs, i) ensures c'[i] == b[i] {
      assert i != offs[k] + D_RECLEN && i != offs[k] + D_RECLEN + 1;
    }
  }

  lemma LengthGrows(c: seq<Byte>, c': seq<Byte>, offs: seq<nat>, end: nat, len: nat)
    requires offs != [] && LengthOk(c, offs, |offs| - 1, end)
    requires |c'| == |c| && Reclen(c', offs[|offs| - 1]) == (Reclen(c, offs[|offs| - 1]) + len) % 0x1_0000
    ensures LengthOk(c', offs, |offs| - 1, end + len)
  {
    hide Reclen;
    AddModulo(end - offs[|offs| - 1], len);
  }

  lemma AddModulo(d: nat, len: nat)
    ensures (d % 0x1_0000 + len) % 0x1_0000 == (d + len) % 0x1_0000
  {
    var s := d % 0x1_0000 + len;
    var h, low := s / 0x1_0000, s % 0x1_0000;
    assert d + len == 0x1_0000 * (d / 0x1_0000 + h) + low;
    LowWord(d + len, d / 0x1_0000 + h, low);
  }

  lemma LengthKept(c: seq<Byte>, c': seq<Byte>, offs: seq<nat>, k: nat, end: nat, len: nat)
    requires Spaced(offs, end) && k < |offs| - 1 && LengthOk(c, offs, k, end)
    requires OnlyLength(c, c', offs[|offs| - 1])
    ensures LengthOk(c', offs, k, end + len)
  {
    assert offs[k] + D_RECLEN + 2 <= offs[|offs| - 1];
  }

  /** A hidden record of length len at end is covered by growing the last visible one. */
  lemma CoverHidden(b: seq<Byte>, c: seq<Byte>, c': seq<Byte>, offs: seq<nat>, end: nat, len: nat)
    requires offs != [] && Spaced(offs, end) && Stretched(b, c, offs, end)
    requires offs[|offs| - 1] + D_RECLEN + 2 <= |c| && OnlyLength(c, c', offs[|offs| - 1])
    requires Reclen(c', offs[|offs| - 1]) == (Reclen(c, offs[|offs| - 1]) + len) % 0x1_0000
    ensures Stretched(b, c', offs, end + len)
  {
    ElsewhereKept(b, c, c', offs, |offs| - 1);
    assert LengthOk(c, offs, |offs| - 1, end);
    LengthGrows(c, c', offs, end, len);
    var stop := end + len;
    forall k | 0 <= k < |offs| - 1 ensures LengthOk(c', offs, k, stop) {
      assert LengthOk(c, offs, k, end);
      LengthKept(c, c', offs, k, end, len);
    }
  }

  lemma ElsewhereMore(b: seq<Byte>, c: seq<Byte>, offs: seq<nat>, p: nat)
    requires SameElsewhere(b, c, offs)
    ensures SameElsewhere(b, c, offs + [p])
  {
    var more := offs + [p];
    forall i | 0 <= i < |b| && !LengthByte(more, i) ensures c[i] == b[i] {
      assert forall k | 0 <= k < |offs| :: more[k] == offs[k];
      assert !LengthByte(offs, i);
    }
  }

  /** A visible record keeps its own length until a hidden one follows it. */
  lemma KeepVisible(b: seq<Byte>, c: seq<Byte>, offs: seq<nat>, end: nat, len: nat)
    requires Stretched(b, c, offs, end)
    requires end + D_RECLEN + 2 <= |c| && Reclen(c, end) == len && 0 < len
    ensures Stretched(b, c, offs + [end], end + len)
  {
    ElsewhereMore(b, c, offs, end);
    var more, stop := offs + [end], end + len;
    forall k | 0 <= k < |more| ensures LengthOk(c, more, k, stop) {
      if k < |offs| {
        assert LengthOk(c, offs, k, end);
        assert NextOf(more, k, stop) == NextOf(offs, k, end);
      }
    }
  }

  /** The bytes from end on are still as they were. */
  lemma RestUntouched(b: seq<Byte>, c: seq<Byte>, offs: seq<nat>, end: nat)
    requires Spaced(offs, end) && SameElsewhere(b, c, offs) && end <= |b|
    ensures c[end..] == b[end..]
  {
    forall i | end <= i < |b| ensures c[i] == b[i] {
      assert !LengthByte(offs, i);
    }
  }

  // ----- the loop

  ghost predicate Visible(b: seq<Byte>, name: nat)
    requires name >= D_RECLEN + 2
  {
    Chain(b, 0, name) && (b == [] || !Hidden(b, 0, name))
  }

  /** The loop has dealt with the records of b before offset: kept are the visible ones, prev the last of them. */
  ghost predicate Progress(b: seq<Byte>, c: seq<Byte>, kept: seq<nat>, offset: nat, prev: nat, name: nat)
    requires name >= D_RECLEN + 2
  {
    && offset <= |b| && Chain(b, offset, name) && Chain(b, 0, name)
    && kept + Kept(b, offset, name) == Kept(b, 0, name)
    && Spaced(kept, offset) && Stretched(b, c, kept, offset)
    && (if offset == 0 then kept == [] else kept != [] && prev == kept[|kept| - 1])
  }

  lemma RecordAhead(b: seq<Byte>, c: seq<Byte>, kept: seq<nat>, offset: nat, prev: nat, name: nat)
    requires name >= D_RECLEN + 2 && Progress(b, c, kept, offset, prev, name) && offset < |b|
    ensures |c| == |b| && offset + name < offset + Reclen(c, offset) <= |b|
    ensures Reclen(c, offset) == Reclen(b, offset) && (Hidden(c, offset, name) <==> Hidden(b, offset, name))
    ensures offset != 0 ==> prev + D_RECLEN + 2 <= |b|
  {
    RestUntouched(b, c, kept, offset);
    SameRecord(b, c, offset, name);
  }

  lemma ProgressHidden(b: seq<Byte>, c: seq<Byte>, c': seq<Byte>, kept: seq<nat>, offset: nat, prev: nat, name: nat)
    requires name >= D_RECLEN + 2 && Progress(b, c, kept, offset, prev, name) && 0 < offset < |b|
    requires offset + name < |c| && prev + D_RECLEN + 2 <= |c| && Hidden(c, offset, name)
    requires OnlyLength(c, c', prev) && Reclen(c', prev) == (Reclen(c, prev) + Reclen(c, offset)) % 0x1_0000
    ensures Progress(b, c', kept, offset + Reclen(c, offset), prev, name)
  {
    hide CString, Reclen, Stretched;
    RecordAhead(b, c, kept, offset, prev, name);
    CoverHidden(b, c, c', kept, offset, Reclen(c, offset));
  }

  lemma ProgressVisible(b: seq<Byte>, c: seq<Byte>, kept: seq<nat>, offset: nat, prev: nat, name: nat)
    requires name >= D_RECLEN + 2 && Progress(b, c, kept, offset, prev, name) && offset < |b|
    requires offset + name < |c| && !Hidden(c, offset, name)
    ensures Progress(b, c, kept + [offset], offset + Reclen(c, offset), offset, name)
  {
    hide CString, Reclen, Stretched, Hidden, Kept, Spaced, Chain;
    RecordAhead(b, c, kept, offset, prev, name);
    var len := Reclen(c, offset);
    KeepVisible(b, c, kept, offset, len);
    NextRecord(b, offset, name);
    SpacedMore(kept, offset, offset + len);
    var rest := Kept(b, offset + len, name);
    assert kept + [offset] + rest == kept + ([offset] + rest);
  }

  lemma NextRecord(b: seq<Byte>, p: nat, name: nat)
    requires name >= D_RECLEN + 2 && Chain(b, p, name) && p < |b|
    ensures p + name < p + Reclen(b, p) <= |b| && Chain(b, p + Reclen(b, p), name)
    ensures
      var rest := Kept(b, p + Reclen(b, p), name);
      Kept(b, p, name) == if Hidden(b, p, name) then rest else [p] + rest
  {
  }

  lemma SpacedMore(offs: seq<nat>, end: nat, next: nat)
    requires Spaced(offs, end) && end + D_RECLEN + 2 <= next
    ensures Spaced(offs + [end], next)
  {
  }

  lemma ProgressStart(b: seq<Byte>, name: nat)
    requires name >= D_RECLEN + 2 && Visible(b, name)
    ensures Progress(b, b, [], 0, 0, name)
  {
  }

  lemma FirstVisible(b: seq<Byte>, name: nat)
    requires name >= D_RECLEN + 2 && Visible(b, name) && b != []
    ensures name <= |b| && !Hidden(b, 0, name)
  {
  }

  lemma ProgressEnd(b: seq<Byte>, c: seq<Byte>, kept: seq<nat>, prev: nat, name: nat)
    requires name >= D_RECLEN + 2 && Progress(b, c, kept, |b|, prev, name)
    ensures Stretched(b, c, Kept(b, 0, name), |b|)
  {
    assert kept + Kept(b, |b|, name) == kept;
  }

  /** The buffer, whose first record is visible, is rewritten so that its records are the visible ones. */
  method HideEntries(buf: array<Byte>, name: nat)
    requires name >= D_RECLEN + 2 && Visible(buf[..], name)
    modifies buf
    ensures Stretched(old(buf[..]), buf[..], Kept(old(buf[..]), 0, name), buf.Length)
  {
    hide Progress, Stretched, Kept, Chain, CString, Contains, Visible;
    ghost var b := buf[..];
    ghost var kept: seq<nat> := [];
    var offset: nat, prev: nat := 0, 0;
    ProgressStart(b, name);
    while offset < buf.Length
      invariant offset <= buf.Length
      invariant Progress(b, buf[..], kept, offset, prev, name)
      decreases buf.Length - offset
    {
      ghost var c := buf[..];
      RecordAhead(b, c, kept, offset, prev, name);
      FirstVisible(b, name);
      var len := buf[offset + D_RECLEN] as int + 0x100 * (buf[offset + D_RECLEN + 1] as int);
      if Hidden(buf[..], offset, name) {
        SetReclen(buf, prev, Reclen(buf[..], prev) + len);
        ProgressHidden(b, c, buf[..], kept, offset, prev, name);
      } else {
        ProgressVisible(b, c, kept, offset, prev, name);
        prev := offset;
        kept := kept + [offset];
      }
      offset := offset + len;
    }
    ProgressEnd(b, buf[..], kept, prev, name);
  }

  lemma SameRecord(b: seq<Byte>, c: seq<Byte>, p: nat, name: nat)
    requires name >= D_RECLEN + 2 && |c| == |b| && p + name <= |b| && c[p..] == b[p..]
    ensures Reclen(c, p) == Reclen(b, p) && (Hidden(c, p, name) <==> Hidden(b, p, name))
  {
    assert forall i | p <= i < |b| :: c[i] == c[p..][i - p] && b[i] == b[p..][i - p];
    SameString(b, c, p + name);
  }

  lemma {:induction false} SameString(b: seq<Byte>, c: seq<Byte>, p: nat)
    requires p <= |b| == |c| && forall i | p <= i < |b| :: c[i] == b[i]
    ensures CString(c, p) == CString(b, p)
    decreases |b| - p
  {
    if p < |b| {
      SameString(b, c, p + 1);
    }
  }

  // ----- what a reader of the result sees

  /** The records a reader meets, following the lengths from p on. */
  ghost function Records(b: seq<Byte>, p: nat, name: nat): (r: seq<nat>)
    requires name >= D_RECLEN + 2 && Chain(b, p, name)
    ensures forall k | 0 <= k < |r| :: p <= r[k] && r[k] + name < |b|
    ensures forall k | 0 <= k < |r| :: r[k] + Reclen(b, r[k]) == NextOf(r, k, |b|)
    decreases |b| - p
  {
    if p == |b| then []
    else
      var next := p + Reclen(b, p);
      var rest := Records(b, next, name);
      assert next < |b| ==> rest != [] && rest[0] == next;
      [p] + rest
  }

  /** Every visible record, with the hidden ones after it, fits a 16-bit length. */
  ghost predicate GroupsFit(offs: seq<nat>, end: nat) {
    forall k | 0 <= k < |offs| :: NextOf(offs, k, end) - offs[k] < 0x1_0000
  }

  /** A record that starts at o has its name inside it, and the record is over by next. */
  ghost predicate RecordAt(b: seq<Byte>, o: nat, next: nat, name: nat) {
    o + name < next <= |b| && exists z | o + name <= z < next :: b[z] == 0
  }

  ghost predicate Apart(offs: seq<nat>, name: nat) {
    forall j, l | 0 <= j < l < |offs| :: offs[j] + name < offs[l]
  }

  /** The given records are apart, and each is over before the next. */
  ghost predicate RecordsAt(b: seq<Byte>, offs: seq<nat>, name: nat) {
    && Apart(offs, name)
    && forall k | 0 <= k < |offs| :: RecordAt(b, offs[k], NextOf(offs, k, |b|), name)
  }

  lemma RecordsCons(b: seq<Byte>, p: nat, rest: seq<nat>, next: nat, name: nat)
    requires RecordsAt(b, rest, name) && RecordAt(b, p, next, name)
    requires forall k | 0 <= k < |rest| :: next <= rest[k]
    ensures RecordsAt(b, [p] + rest, name)
  {
    var r := [p] + rest;
    forall k | 0 <= k < |r| ensures RecordAt(b, r[k], NextOf(r, k, |b|), name) {
      if k == 0 {
        var z :| p + name <= z < next && b[z] == 0;
        assert next <= NextOf(r, 0, |b|) <= |b|;
      } else {
        var i := k - 1;
        assert RecordAt(b, rest[i], NextOf(rest, i, |b|), name);
      }
    }
  }

  lemma NoRecords(b: seq<Byte>, name: nat)
    ensures RecordsAt(b, [], name)
  {
  }

  lemma {:induction false} KeptRecords(b: seq<Byte>, p: nat, name: nat)
    requires name >= D_RECLEN + 2 && Chain(b, p, name)
    ensures RecordsAt(b, Kept(b, p, name), name)
    decreases |b| - p
  {
    hide Reclen, Hidden, CString, Apart;
    if p == |b| {
      NoRecords(b, name);
    } else {
      var next := p + Reclen(b, p);
      KeptRecords(b, next, name);
      assert RecordAt(b, p, next, name);
      if !Hidden(b, p, name) {
        RecordsCons(b, p, Kept(b, next, name), next, name);
      }
    }
  }

  /** From the name on a visible record and what it covers are unchanged. */
  lemma BodyUntouched(b: seq<Byte>, c: seq<Byte>, offs: seq<nat>, k: nat, i: nat, next: nat, name: nat)
    requires name >= D_RECLEN + 2 && SameElsewhere(b, c, offs) && Apart(offs, name)
    requires k < |offs| && next == NextOf(offs, k, |b|) && offs[k] + name <= i < next <= |b|
    ensures c[i] == b[i]
  {
    forall j | 0 <= j < |offs| ensures i != offs[j] + D_RECLEN && i != offs[j] + D_RECLEN + 1 {
      assert j < k ==> offs[j] + name < offs[k];
      assert j > k ==> next <= offs[j];
    }
    assert !LengthByte(offs, i);
  }

  lemma {:induction false} StringsAgree(b: seq<Byte>, c: seq<Byte>, p: nat, z: nat)
    requires p <= z < |b| == |c| && b[z] == 0 && forall i | p <= i <= z :: c[i] == b[i]
    ensures CString(c, p) == CString(b, p)
    decreases z - p
  {
    if p < z && b[p] != 0 {
      StringsAgree(b, c, p + 1, z);
    }
  }

  lemma LengthElsewhere(b: seq<Byte>, c: seq<Byte>, offs: seq<nat>)
    requires SameElsewhere(b, c, offs)
    ensures |c| == |b|
  {
  }

  /** Names survive: each visible record has in c the name it had in b, and one that ends inside it. */
  lemma NameIntact(b: seq<Byte>, c: seq<Byte>, offs: seq<nat>, k: nat, next: nat, name: nat)
    requires name >= D_RECLEN + 2 && SameElsewhere(b, c, offs) && Apart(offs, name)
    requires k < |offs| && next == NextOf(offs, k, |b|) && RecordAt(b, offs[k], next, name)
    ensures offs[k] + name < |c| == |b| && RecordAt(c, offs[k], next, name)
    ensures CString(c, offs[k] + name) == CString(b, offs[k] + name)
  {
    hide SameElsewhere, Apart, NextOf, CString;
    LengthElsewhere(b, c, offs);
    var p := offs[k] + name;
    var z :| p <= z < next && b[z] == 0;
    forall i | p <= i < next ensures c[i] == b[i] {
      BodyUntouched(b, c, offs, k, i, next, name);
    }
    StringsAgree(b, c, p, z);
    assert c[z] == 0;
  }

  lemma FittingLength(c: seq<Byte>, offs: seq<nat>, k: nat, end: nat)
    requires k < |offs| && LengthOk(c, offs, k, end) && NextOf(offs, k, end) - offs[k] < 0x1_0000
    ensures offs[k] + Reclen(c, offs[k]) == NextOf(offs, k, end)
  {
  }

  /** If the k-th group fits, a reader of c goes from its record straight to the next visible one. */
  lemma ReaderStep(b: seq<Byte>, c: seq<Byte>, offs: seq<nat>, k: nat, name: nat)
    requires name >= D_RECLEN + 2 && SameElsewhere(b, c, offs) && RecordsAt(b, offs, name)
    requires k < |offs| && LengthOk(c, offs, k, |b|) && NextOf(offs, k, |b|) - offs[k] < 0x1_0000
    ensures offs[k] + name < NextOf(offs, k, |b|) <= |b| == |c|
    ensures offs[k] + Reclen(c, offs[k]) == NextOf(offs, k, |b|)
    ensures RecordAt(c, offs[k], NextOf(offs, k, |b|), name)
  {
    var next := NextOf(offs, k, |b|);
    FittingLength(c, offs, k, |b|);
    assert RecordAt(b, offs[k], next, name);
    NameIntact(b, c, offs, k, next, name);
  }

  lemma OneMoreRecord(c: seq<Byte>, o: nat, next: nat, name: nat)
    requires name >= D_RECLEN + 2 && RecordAt(c, o, next, name) && o + Reclen(c, o) == next && Chain(c, next, name)
    ensures Chain(c, o, name) && Records(c, o, name) == [o] + Records(c, next, name)
  {
  }

  lemma SameLength(b: seq<Byte>, c: seq<Byte>, offs: seq<nat>)
    requires Stretched(b, c, offs, |b|)
    ensures |c| == |b|
  {
  }

  lemma GroupOk(b: seq<Byte>, c: seq<Byte>, offs: seq<nat>, k: nat)
    requires Stretched(b, c, offs, |b|) && GroupsFit(offs, |b|) && k < |offs|
    ensures SameElsewhere(b, c, offs) && LengthOk(c, offs, k, |b|) && NextOf(offs, k, |b|) - offs[k] < 0x1_0000
  {
    hide SameElsewhere;
  }

  lemma WalkEnd(c: seq<Byte>, offs: seq<nat>, name: nat)
    requires name >= D_RECLEN + 2
    ensures OffsetAt(offs, |offs|, |c|) == |c| && Chain(c, |c|, name) && Records(c, |c|, name) == offs[|offs|..]
  {
  }

  /** From the k-th visible record on, a reader meets exactly the visible records. */
  lemma {:induction false} WalkFrom(b: seq<Byte>, c: seq<Byte>, offs: seq<nat>, k: nat, name: nat)
    requires name >= D_RECLEN + 2 && Stretched(b, c, offs, |b|) && GroupsFit(offs, |b|) && k <= |offs|
    requires RecordsAt(b, offs, name)
    ensures
      var p := OffsetAt(offs, k, |b|);
      Chain(c, p, name) && Records(c, p, name) == offs[k..]
    decreases |offs| - k
  {
    hide Chain, Records, RecordsAt, RecordAt, SameElsewhere, Reclen, Stretched, GroupsFit, LengthOk, OffsetAt;
    if k == |offs| {
      SameLength(b, c, offs);
      WalkEnd(c, offs, name);
    } else {
      GroupOk(b, c, offs, k);
      ReaderStep(b, c, offs, k, name);
      WalkFrom(b, c, offs, k + 1, name);
      OneMoreRecord(c, offs[k], NextOf(offs, k, |b|), name);
      FirstOf(offs, k, |b|);
    }
  }

  lemma FirstOf(offs: seq<nat>, k: nat, end: nat)
    requires k < |offs|
    ensures OffsetAt(offs, k, end) == offs[k] && [offs[k]] + offs[k + 1..] == offs[k..]
  {
  }

  /** A reader of the filtered buffer meets exactly the visible records, in order and up to the end, if and
      only if every group of a visible record and the hidden ones after it fits a 16-bit length. */
  lemma FilteredIff(b: seq<Byte>, c: seq<Byte>, name: nat)
    requires name >= D_RECLEN + 2 && Visible(b, name) && Stretched(b, c, Kept(b, 0, name), |b|)
    ensures (Chain(c, 0, name) && Records(c, 0, name) == Kept(b, 0, name)) <==> GroupsFit(Kept(b, 0, name), |b|)
  {
    var offs := Kept(b, 0, name);
    if GroupsFit(offs, |b|) {
      KeptRecords(b, 0, name);
      FirstKept(b, name);
      WalkFrom(b, c, offs, 0, name);
      assert offs[0..] == offs;
    }
    if Chain(c, 0, name) && Records(c, 0, name) == offs {
      GroupsFitRecords(c, name);
    }
  }

  lemma FirstKept(b: seq<Byte>, name: nat)
    requires name >= D_RECLEN + 2 && Visible(b, name)
    ensures
      var offs := Kept(b, 0, name);
      if offs == [] then |b| == 0 else offs[0] == 0
  {
  }

  /** In a chain the distance to the next record is a 16-bit length. */
  lemma GroupsFitRecords(c: seq<Byte>, name: nat)
    requires name >= D_RECLEN + 2 && Chain(c, 0, name)
    ensures GroupsFit(Records(c, 0, name), |c|)
  {
    var offs := Records(c, 0, name);
    forall k | 0 <= k < |offs| ensures NextOf(offs, k, |c|) - offs[k] < 0x1_0000 {
      assert offs[k] + Reclen(c, offs[k]) == NextOf(offs, k, |c|);
    }
  }

  /** The record at o has in c the name it had in b, and that name does not match. */
  ghost predicate NameShown(b: seq<Byte>, c: seq<Byte>, o: nat, name: nat) {
    o + name <= |c| == |b| && CString(c, o + name) == CString(b, o + name) && !Hidden(c, o, name)
  }

  /** In particular for every buffer below 65536 bytes; the names are the old ones and none of them is hidden. */
  lemma SmallBuffersFiltered(b: seq<Byte>, c: seq<Byte>, name: nat)
    requires name >= D_RECLEN + 2 && Visible(b, name) && Stretched(b, c, Kept(b, 0, name), |b|)
    requires |b| < 0x1_0000
    ensures Chain(c, 0, name) && Records(c, 0, name) == Kept(b, 0, name)
    ensures forall o | o in Kept(b, 0, name) :: NameShown(b, c, o, name)
  {
    hide Kept, Visible, Stretched, Chain, Records, GroupsFit, RecordsAt, SameElsewhere, Hidden;
    var offs := KeptFacts(b, c, name);
    SmallGroupsFit(b, offs, name);
    FilteredIff(b, c, name);
    NamesShown(b, c, offs, name);
  }

  lemma KeptFacts(b: seq<Byte>, c: seq<Byte>, name: nat) returns (offs: seq<nat>)
    requires name >= D_RECLEN + 2 && Visible(b, name) && Stretched(b, c, Kept(b, 0, name), |b|)
    ensures offs == Kept(b, 0, name) && RecordsAt(b, offs, name) && SameElsewhere(b, c, offs)
    ensures forall o | o in offs :: o + name <= |b| && !Hidden(b, o, name)
  {
    hide Reclen, Hidden, RecordsAt, SameElsewhere;
    offs := Kept(b, 0, name);
    KeptRecords(b, 0, name);
    NothingElse(b, c, offs);
    forall o | o in offs ensures o + name <= |b| && !Hidden(b, o, name) {
      var k :| 0 <= k < |offs| && offs[k] == o;
    }
  }

  lemma NothingElse(b: seq<Byte>, c: seq<Byte>, offs: seq<nat>)
    requires Stretched(b, c, offs, |b|)
    ensures SameElsewhere(b, c, offs)
  {
  }

  lemma NamesShown(b: seq<Byte>, c: seq<Byte>, offs: seq<nat>, name: nat)
    requires name >= D_RECLEN + 2 && SameElsewhere(b, c, offs) && RecordsAt(b, offs, name)
    requires forall o | o in offs :: o + name <= |b| && !Hidden(b, o, name)
    ensures forall o | o in offs :: NameShown(b, c, o, name)
  {
    hide SameElsewhere, RecordsAt, CString;
    NamesIntact(b, c, offs, name);
  }

  lemma SmallGroupsFit(b: seq<Byte>, offs: seq<nat>, name: nat)
    requires |b| < 0x1_0000 && RecordsAt(b, offs, name)
    ensures GroupsFit(offs, |b|)
  {
    forall k | 0 <= k < |offs| ensures NextOf(offs, k, |b|) - offs[k] < 0x1_0000 {
      assert RecordAt(b, offs[k], NextOf(offs, k, |b|), name);
    }
  }

  lemma NamesIntact(b: seq<Byte>, c: seq<Byte>, offs: seq<nat>, name: nat)
    requires name >= D_RECLEN + 2 && SameElsewhere(b, c, offs) && RecordsAt(b, offs, name)
    ensures forall o | o in offs :: o + name <= |c| == |b| && CString(c, o + name) == CString(b, o + name)
  {
    hide CString, SameElsewhere, RecordAt, Apart;
    forall o | o in offs ensures o + name <= |c| == |b| && CString(c, o + name) == CString(b, o + name) {
      var k :| 0 <= k < |offs| && offs[k] == o;
      var next := NextOf(offs, k, |b|);
      assert RecordAt(b, offs[k], next, name);
      NameIntact(b, c, offs, k, next, name);
    }
  }

  // ----- the two system calls

  /** The loop of fake_getdents64.  What a reader of the buffer then meets is decided by the lengths of the groups. */
  method FakeGetdents64(buf: array<Byte>)
    requires Visible(buf[..], D_NAME_64)
    modifies buf
    ensures Stretched(old(buf[..]), buf[..], Kept(old(buf[..]), 0, D_NAME_64), buf.Length)
    ensures (Chain(buf[..], 0, D_NAME_64) && Records(buf[..], 0, D_NAME_64) == Kept(old(buf[..]), 0, D_NAME_64))
      <==> GroupsFit(Kept(old(buf[..]), 0, D_NAME_64), buf.Length)
  {
    hide Stretched, Kept, Visible, GroupsFit, Chain, Records;
    ghost var b := buf[..];
    HideEntries(buf, D_NAME_64);
    FilteredIff(b, buf[..], D_NAME_64);
  }

  /** The loop of fake_getdents, whose records have no d_type before the name. */
  method FakeGetdents(buf: array<Byte>)
    requires Visible(buf[..], D_NAME)
    modifies buf
    ensures Stretched(old(buf[..]), buf[..], Kept(old(buf[..]), 0, D_NAME), buf.Length)
    ensures (Chain(buf[..], 0, D_NAME) && Records(buf[..], 0, D_NAME) == Kept(old(buf[..]), 0, D_NAME))
      <==> GroupsFit(Kept(old(buf[..]), 0, D_NAME), buf.Length)
  {
    hide Stretched, Kept, Visible, GroupsFit, Chain, Records;
    ghost var b := buf[..];
    HideEntries(buf, D_NAME);
    FilteredIff(b, buf[..], D_NAME);
  }

  // ----- a buffer that shows the failure

  /** Two records: "a", 40000 bytes long, and "secret", 30000 bytes long. */
  const LONG_RECORDS: seq<Byte> := seq(70000, k =>
    if k == 16 then 0x40 else if k == 17 then 0x9C else if k == 19 then 97
    else if k == 40016 then 0x30 else if k == 40017 then 0x75
    else if 40019 <= k < 40025 then HIDE_FILE[k - 40019] else 0)

  lemma LongRecordsNames()
    ensures !Hidden(LONG_RECORDS, 0, D_NAME_64) && Hidden(LONG_RECORDS, 40000, D_NAME_64)
  {
    var b := LONG_RECORDS;
    assert CString(b, 20) == [];
    assert CString(b, 19) == [97];
    assert !Contains([97], HIDE_FILE);
    assert CString(b, 40025) == [];
    assert CString(b, 40024) == [116];
    assert CString(b, 40023) == [101, 116];
    assert CString(b, 40022) == [114, 101, 116];
    assert CString(b, 40021) == [99, 114, 101, 116];
    assert CString(b, 40020) == [101, 99, 114, 101, 116];
    assert CString(b, 40019) == HIDE_FILE;
  }

  lemma LongRecordsKept()
    ensures Visible(LONG_RECORDS, D_NAME_64) && Kept(LONG_RECORDS, 0, D_NAME_64) == [0]
  {
    hide Hidden, CString;
    var b := LONG_RECORDS;
    LongRecordsNames();
    assert Reclen(b, 0) == 40000 && Reclen(b, 40000) == 30000;
    assert b[20] == 0 && b[40025] == 0;
    assert Chain(b, 70000, D_NAME_64) && Kept(b, 70000, D_NAME_64) == [];
    assert Chain(b, 40000, D_NAME_64) && Kept(b, 40000, D_NAME_64) == [];
  }

  /** Together they are too long for the length field: a reader of the rewritten buffer is led astray. */
  lemma LongGroupLost(c: seq<Byte>)
    requires Stretched(LONG_RECORDS, c, [0], 70000)
    ensures Visible(LONG_RECORDS, D_NAME_64) && Kept(LONG_RECORDS, 0, D_NAME_64) == [0]
    ensures !(Chain(c, 0, D_NAME_64) && Records(c, 0, D_NAME_64) == [0])
  {
    hide Stretched, Kept, Visible, Chain, Records;
    LongRecordsKept();
    FilteredIff(LONG_RECORDS, c, D_NAME_64);
    assert NextOf([0], 0, 70000) - [0][0] >= 0x1_0000;
  }
}
