/** dump_btf_raw and dump_btf_type of bpftool's btf.c in JSON mode. */
module BtfDump {
  import opened Json
  import opened JsonWriter

  type Word = w: int | 0 <= w < 0x1_0000_0000

  const UNKN := 0
  const INT := 1
  const PTR := 2
  const ARRAY := 3
  const STRUCT := 4
  const UNION := 5
  const ENUM := 6
  const FWD := 7
  const TYPEDEF := 8
  const VOLATILE := 9
  const CONST := 10
  const RESTRICT := 11
  const FUNC := 12
  const FUNC_PROTO := 13
  const VAR := 14
  const DATASEC := 15
  const FLOAT := 16
  const DECL_TAG := 17
  const TYPE_TAG := 18
  const ENUM64 := 19

  const KIND_NAMES := [
    "UNKNOWN", "INT", "PTR", "ARRAY", "STRUCT", "UNION", "ENUM", "FWD", "TYPEDEF", "VOLATILE", "CONST", "RESTRICT",
    "FUNC", "FUNC_PROTO", "VAR", "DATASEC", "FLOAT", "DECL_TAG", "TYPE_TAG", "ENUM64"]

  /** struct btf_type, with the words that follow it in the type section. */
  datatype BtfType = BtfType(nameOff: Word, info: Word, sizeOrType: Word, extra: seq<Word>)
  {
    function Kind(): (k: nat)
      ensures k < 32
    {
      info / 0x100_0000 % 32
    }

    function Vlen(): (n: nat)
      ensures n < 0x1_0000
    {
      info % 0x1_0000
    }

    predicate Kflag() { info / 0x8000_0000 == 1 }

    /** Words per list entry. */
    function Width(): nat {
      var k := Kind();
      if k == STRUCT || k == UNION || k == ENUM64 || k == DATASEC then 3
      else if k == ENUM || k == FUNC_PROTO then 2
      else 0
    }

    predicate HasList() { Width() > 0 }

    /** The type section holds all the words this type speaks of. */
    predicate Complete() {
      var k := Kind();
      if HasList() then Vlen() * Width() <= |extra|
      else if k == ARRAY then 3 <= |extra|
      else if k == INT || k == VAR || k == DECL_TAG then 1 <= |extra|
      else true
    }

    /** Word j of list entry i. */
    function EntryWord(i: nat, j: nat): Word
      requires Complete() && i < Vlen() && j < Width()
    {
      assert (i + 1) * Width() <= Vlen() * Width() by { MulMonotone(i + 1, Vlen(), Width()); }
      extra[i * Width() + j]
    }
  }

  lemma MulMonotone(a: nat, b: nat, c: nat)
    requires a <= b
    ensures a * c <= b * c
  {
  }

  /** A type table: valid name offsets, types by id (0 is void), and how many types a base table supplies. */
  datatype Btf = Btf(names: map<Word, string>, types: seq<BtfType>, base: Option<nat>)
  {
    predicate Complete() { forall t | t in types :: t.Complete() }

    /** btf_str */
    function Name(off: Word): string {
      if off == 0 then "(anon)" else if off in names then names[off] else "(invalid)"
    }

    /** The first id that is this table's own. */
    function FirstId(): nat { if base.None? then 1 else base.value }
  }

  function KindName(kind: nat): string { if kind < |KIND_NAMES| then KIND_NAMES[kind] else KIND_NAMES[UNKN] }

  function EncodingName(e: nat): string {
    if e == 0 then "(none)"
    else if e == 1 then "SIGNED"
    else if e == 2 then "CHAR"
    else if e == 4 then "BOOL"
    else "UNKN"
  }

  /** btf_var_linkage_str and btf_func_linkage_str */
  function LinkageName(linkage: nat): string {
    if linkage == 0 then "static" else if linkage == 1 then "global" else if linkage == 2 then "extern" else "(unknown)"
  }

  /** The signed reading of a word, and of a 64-bit word. */
  function Signed32(w: Word): int { if w < 0x8000_0000 then w else w - 0x1_0000_0000 }

  function Signed64(w: nat): int
    requires w < 0x1_0000_0000_0000_0000
  {
    if w < 0x8000_0000_0000_0000 then w else w - 0x1_0000_0000_0000_0000
  }

  /** C's conversion of a signed value to uint64_t. */
  function ToUint64(n: int): nat { n % 0x1_0000_0000_0000_0000 }

  function IsReference(kind: nat): bool {
    kind == PTR || kind == CONST || kind == VOLATILE || kind == RESTRICT || kind == TYPEDEF || kind == TYPE_TAG
  }

  // ----- the value a type is printed as

  function N(name: string, n: int): Member { Member(name, Num(n)) }

  function S(name: string, s: string): Member { Member(name, Str(s)) }

  function Bitfield(size: nat): seq<Member> { if size != 0 then [N("bitfield_size", size)] else [] }

  function EntryMembers(btf: Btf, t: BtfType, i: nat): seq<Member>
    requires t.Complete() && t.HasList() && i < t.Vlen()
  {
    var k := t.Kind();
    if k == STRUCT || k == UNION then
      var offset := t.EntryWord(i, 2);
      [S("name", btf.Name(t.EntryWord(i, 0))), N("type_id", t.EntryWord(i, 1))]
      + if t.Kflag() then [N("bits_offset", offset % 0x100_0000)] + Bitfield(offset / 0x100_0000)
        else [N("bits_offset", offset)]
    else if k == ENUM then
      var val := Signed32(t.EntryWord(i, 1));
      [S("name", btf.Name(t.EntryWord(i, 0))), N("val", if t.Kflag() then val else ToUint64(val))]
    else if k == ENUM64 then
      var val := t.EntryWord(i, 2) * 0x1_0000_0000 + t.EntryWord(i, 1);
      [S("name", btf.Name(t.EntryWord(i, 0))), N("val", if t.Kflag() then Signed64(val) else val)]
    else if k == FUNC_PROTO then
      [S("name", btf.Name(t.EntryWord(i, 0))), N("type_id", t.EntryWord(i, 1))]
    else
      [N("type_id", t.EntryWord(i, 0)), N("offset", t.EntryWord(i, 1)), N("size", t.EntryWord(i, 2))]
  }

  function Entries(btf: Btf, t: BtfType, n: nat): (es: seq<Value>)
    requires t.Complete() && t.HasList() && n <= t.Vlen()
    ensures |es| == n && forall i: nat | i < n :: es[i] == Obj(EntryMembers(btf, t, i))
  {
    if n == 0 then [] else Entries(btf, t, n - 1) + [Obj(EntryMembers(btf, t, n - 1))]
  }

  function ListName(kind: nat): string {
    if kind == STRUCT || kind == UNION then "members"
    else if kind == ENUM || kind == ENUM64 then "values"
    else if kind == FUNC_PROTO then "params"
    else "vars"
  }

  function ListMember(btf: Btf, t: BtfType): Member
    requires t.Complete() && t.HasList()
  {
    Member(ListName(t.Kind()), Arr(Entries(btf, t, t.Vlen())))
  }

  /** What a list is announced with. */
  function Heading(t: BtfType): seq<Member> {
    var k := t.Kind();
    if k == FUNC_PROTO then [N("ret_type_id", t.sizeOrType), N("vlen", t.Vlen())]
    else if k == ENUM || k == ENUM64 then
      [S("encoding", if t.Kflag() then "SIGNED" else "UNSIGNED"), N("size", t.sizeOrType), N("vlen", t.Vlen())]
    else [N("size", t.sizeOrType), N("vlen", t.Vlen())]
  }

  function Details(btf: Btf, t: BtfType): seq<Member>
    requires t.Complete()
  {
    var k := t.Kind();
    if t.HasList() then Heading(t) + [ListMember(btf, t)]
    else if k == INT then
      var v := t.extra[0];
      [N("size", t.sizeOrType), N("bits_offset", v / 0x1_0000 % 0x100), N("nr_bits", v % 0x100),
        S("encoding", EncodingName(v / 0x100_0000 % 16))]
    else if IsReference(k) then [N("type_id", t.sizeOrType)]
    else if k == ARRAY then
      [N("type_id", t.extra[0]), N("index_type_id", t.extra[1]), N("nr_elems", t.extra[2])]
    else if k == FWD then [S("fwd_kind", if t.Kflag() then "union" else "struct")]
    else if k == FUNC then [N("type_id", t.sizeOrType), S("linkage", LinkageName(t.Vlen()))]
    else if k == VAR then [N("type_id", t.sizeOrType), S("linkage", LinkageName(t.extra[0]))]
    else if k == FLOAT then [N("size", t.sizeOrType)]
    else if k == DECL_TAG then [N("type_id", t.sizeOrType), N("component_idx", Signed32(t.extra[0]))]
    else []
  }

  function Prologue(btf: Btf, id: nat, t: BtfType): seq<Member> {
    [N("id", id), S("kind", KindName(t.Kind())), S("name", btf.Name(t.nameOff))]
  }

  function TypeJson(btf: Btf, id: nat, t: BtfType): Value
    requires t.Complete()
  {
    Obj(Prologue(btf, id, t) + Details(btf, t))
  }

  function TypesJson(btf: Btf, ids: seq<nat>): (vs: seq<Value>)
    requires btf.Complete() && Known(btf, ids)
    ensures |vs| == |ids|
  {
    if ids == [] then []
    else
      var last := ids[|ids| - 1];
      TypesJson(btf, ids[..|ids| - 1]) + [TypeJson(btf, last, btf.types[last])]
  }

  function IdRange(lo: nat, hi: nat): (ids: seq<nat>)
    ensures |ids| == (if lo < hi then hi - lo else 0) && forall i: nat | i < |ids| :: ids[i] == lo + i
  {
    if lo < hi then IdRange(lo, hi - 1) + [hi - 1] else []
  }

  /** The ids dump_btf_raw prints: the roots if there are any, else all the table's own. */
  function DumpedIds(btf: Btf, roots: seq<nat>): seq<nat> {
    if roots != [] then roots else IdRange(btf.FirstId(), |btf.types|)
  }

  predicate Known(btf: Btf, ids: seq<nat>) { forall i: nat | i < |ids| :: ids[i] < |btf.types| }

  function DumpValue(btf: Btf, ids: seq<nat>): Value
    requires btf.Complete() && Known(btf, ids)
  {
    Obj([Member("types", Arr(TypesJson(btf, ids)))])
  }

  function DumpJson(btf: Btf, roots: seq<nat>): Value
    requires btf.Complete() && Known(btf, roots)
  {
    DumpValue(btf, DumpedIds(btf, roots))
  }

  // ----- the dump

  /** The top of the stack is an object with these members, and no name waits for its value. */
  ghost predicate Inside(w: Writer, outer: Stack, ms: seq<Member>)
    reads w
  {
    w.Valid() && w.stack == outer + [InObject(ms, None)]
  }

  method PutField(w: Writer, m: Member, ghost outer: Stack, ghost ms: seq<Member>) returns (ghost done: seq<Member>)
    requires Inside(w, outer, ms) && (m.value.Num? || m.value.Str?)
    modifies w
    ensures done == ms + [m] && Inside(w, outer, done)
  {
    w.Field(m.name, m.value);
    done := ms + [m];
  }

  /** The name, the opening bracket, the loop over the entries and the closing bracket. */
  method DumpList(w: Writer, btf: Btf, t: BtfType, ghost outer: Stack, ghost ms: seq<Member>)
    requires Inside(w, outer, ms) && t.Complete() && t.HasList()
    modifies w
    ensures Inside(w, outer, ms + [ListMember(btf, t)])
  {
    hide Writer.Valid, BtfType.Kind, BtfType.Vlen, BtfType.Complete, BtfType.HasList, EntryMembers, ListName;
    w.Name(ListName(t.Kind()));
    ghost var parent := w.stack;
    w.StartArray();
    var i := 0;
    while i < t.Vlen()
      invariant 0 <= i <= t.Vlen()
      invariant w.Valid() && w.stack == parent + [InArray(Entries(btf, t, i))]
    {
      DumpEntry(w, btf, t, i);
      i := i + 1;
    }
    assert Pop(w.stack) == parent;
    w.EndArray();
  }

  /** One struct member, enumerator, parameter or section variable. */
  method DumpEntry(w: Writer, btf: Btf, t: BtfType, i: nat)
    requires w.Valid() && Top(w.stack).Accepts()
    requires t.Complete() && t.HasList() && i < t.Vlen()
    modifies w
    ensures w.Valid() && w.stack == PutTop(old(w.stack), Obj(EntryMembers(btf, t, i)))
  {
    ghost var outer := w.stack;
    w.StartObject();
    if t.Kind() == STRUCT || t.Kind() == UNION {
      DumpStructMember(w, btf, t, i, outer);
    } else {
      DumpOtherEntry(w, btf, t, i, outer);
    }
    w.EndObject();
    assert Pop(outer + [InObject(EntryMembers(btf, t, i), None)]) == outer;
  }

  method DumpStructMember(w: Writer, btf: Btf, t: BtfType, i: nat, ghost outer: Stack)
    requires Inside(w, outer, []) && (t.Kind() == STRUCT || t.Kind() == UNION) && t.Complete() && i < t.Vlen()
    modifies w
    ensures Inside(w, outer, EntryMembers(btf, t, i))
  {
    hide Writer.Valid, BtfType.Kind, BtfType.Vlen, BtfType.Kflag, BtfType.EntryWord;
    var bitOff, bitSz := t.EntryWord(i, 2), 0;
    if t.Kflag() {
      bitOff, bitSz := bitOff % 0x100_0000, bitOff / 0x100_0000;
    }
    ghost var done := PutField(w, S("name", btf.Name(t.EntryWord(i, 0))), outer, []);
    done := PutField(w, N("type_id", t.EntryWord(i, 1)), outer, done);
    done := PutField(w, N("bits_offset", bitOff), outer, done);
    if bitSz != 0 {
      done := PutField(w, N("bitfield_size", bitSz), outer, done);
    }
    assert done == EntryMembers(btf, t, i);
  }

  method DumpOtherEntry(w: Writer, btf: Btf, t: BtfType, i: nat, ghost outer: Stack)
    requires Inside(w, outer, []) && t.Kind() != STRUCT && t.Kind() != UNION
    requires t.Complete() && t.HasList() && i < t.Vlen()
    modifies w
    ensures Inside(w, outer, EntryMembers(btf, t, i))
  {
    hide Writer.Valid, BtfType.Kind, BtfType.Vlen, BtfType.Kflag, BtfType.EntryWord;
    var k := t.Kind();
    ghost var done := [];
    if k == DATASEC {
      done := PutField(w, N("type_id", t.EntryWord(i, 0)), outer, done);
      done := PutField(w, N("offset", t.EntryWord(i, 1)), outer, done);
      done := PutField(w, N("size", t.EntryWord(i, 2)), outer, done);
    } else {
      done := PutField(w, S("name", btf.Name(t.EntryWord(i, 0))), outer, done);
      if k == ENUM {
        var val := Signed32(t.EntryWord(i, 1));
        if t.Kflag() {
          done := PutField(w, N("val", val), outer, done);
        } else {
          done := PutField(w, N("val", ToUint64(val)), outer, done);
        }
      } else if k == ENUM64 {
        var val := t.EntryWord(i, 2) * 0x1_0000_0000 + t.EntryWord(i, 1);
        if t.Kflag() {
          done := PutField(w, N("val", Signed64(val)), outer, done);
        } else {
          done := PutField(w, N("val", val), outer, done);
        }
      } else {
        done := PutField(w, N("type_id", t.EntryWord(i, 1)), outer, done);
      }
    }
    assert done == EntryMembers(btf, t, i);
  }

  /** The JSON value under construction gains exactly this type's object. */
  method DumpType(w: Writer, btf: Btf, id: nat, t: BtfType)
    requires w.Valid() && Top(w.stack).Accepts() && t.Complete()
    modifies w
    ensures w.Valid() && w.stack == PutTop(old(w.stack), TypeJson(btf, id, t))
  {
    hide Writer.Valid, BtfType.Kind, BtfType.HasList, BtfType.Complete, Details, KindName, Btf.Name;
    ghost var outer := w.stack;
    w.StartObject();
    ghost var done := PutField(w, N("id", id), outer, []);
    done := PutField(w, S("kind", KindName(t.Kind())), outer, done);
    done := PutField(w, S("name", btf.Name(t.nameOff)), outer, done);
    assert done == Prologue(btf, id, t);
    if t.HasList() {
      DumpListed(w, btf, t, outer, done);
    } else {
      DumpPlain(w, btf, t, outer, done);
    }
    w.EndObject();
    assert Pop(outer + [InObject(Prologue(btf, id, t) + Details(btf, t), None)]) == outer;
  }

  /** The arms of the switch that print a list. */
  method DumpListed(w: Writer, btf: Btf, t: BtfType, ghost outer: Stack, ghost ms: seq<Member>)
    requires Inside(w, outer, ms) && t.Complete() && t.HasList()
    modifies w
    ensures Inside(w, outer, ms + Details(btf, t))
  {
    hide Writer.Valid, BtfType.Kind, BtfType.Vlen, BtfType.Kflag, ListMember, BtfType.Complete;
    var k := t.Kind();
    ghost var done := ms;
    if k == FUNC_PROTO {
      done := PutField(w, N("ret_type_id", t.sizeOrType), outer, done);
    } else {
      if k == ENUM || k == ENUM64 {
        done := PutField(w, S("encoding", if t.Kflag() then "SIGNED" else "UNSIGNED"), outer, done);
      }
      done := PutField(w, N("size", t.sizeOrType), outer, done);
    }
    done := PutField(w, N("vlen", t.Vlen()), outer, done);
    assert done == ms + Heading(t);
    DumpList(w, btf, t, outer, done);
    assert (ms + Heading(t)) + [ListMember(btf, t)] == ms + Details(btf, t);
  }

  /** The arms of the switch that print single fields; the default arm prints none. */
  method DumpPlain(w: Writer, btf: Btf, t: BtfType, ghost outer: Stack, ghost ms: seq<Member>)
    requires Inside(w, outer, ms) && t.Complete() && !t.HasList()
    modifies w
    ensures Inside(w, outer, ms + Details(btf, t))
  {
    hide Writer.Valid, BtfType.Kind, BtfType.Vlen, BtfType.Kflag;
    var k := t.Kind();
    ghost var done := ms;
    if k == INT {
      var v := t.extra[0];
      done := PutField(w, N("size", t.sizeOrType), outer, done);
      done := PutField(w, N("bits_offset", v / 0x1_0000 % 0x100), outer, done);
      done := PutField(w, N("nr_bits", v % 0x100), outer, done);
      done := PutField(w, S("encoding", EncodingName(v / 0x100_0000 % 16)), outer, done);
    } else if IsReference(k) {
      done := PutField(w, N("type_id", t.sizeOrType), outer, done);
    } else if k == ARRAY {
      done := PutField(w, N("type_id", t.extra[0]), outer, done);
      done := PutField(w, N("index_type_id", t.extra[1]), outer, done);
      done := PutField(w, N("nr_elems", t.extra[2]), outer, done);
    } else if k == FWD {
      done := PutField(w, S("fwd_kind", if t.Kflag() then "union" else "struct"), outer, done);
    } else if k == FUNC {
      done := PutField(w, N("type_id", t.sizeOrType), outer, done);
      done := PutField(w, S("linkage", LinkageName(t.Vlen())), outer, done);
    } else if k == VAR {
      done := PutField(w, N("type_id", t.sizeOrType), outer, done);
      done := PutField(w, S("linkage", LinkageName(t.extra[0])), outer, done);
    } else if k == FLOAT {
      done := PutField(w, N("size", t.sizeOrType), outer, done);
    } else if k == DECL_TAG {
      done := PutField(w, N("type_id", t.sizeOrType), outer, done);
      done := PutField(w, N("component_idx", Signed32(t.extra[0])), outer, done);
    }
    assert done == ms + Details(btf, t);
  }

  /** dump_btf_raw: the stream gains one value, the object that holds every dumped type. */
  method DumpRaw(w: Writer, btf: Btf, roots: seq<nat>)
    requires w.Valid() && Top(w.stack).Accepts() && btf.Complete() && Known(btf, roots)
    modifies w
    ensures w.Valid() && w.stack == PutTop(old(w.stack), DumpJson(btf, roots))
  {
    hide Writer.Valid, TypeJson, BtfType.Complete;
    ghost var outer := w.stack;
    w.StartObject();
    w.Name("types");
    ghost var parent := w.stack;
    w.StartArray();
    ghost var types := Arr(TypesJson(btf, DumpedIds(btf, roots)));
    if |roots| != 0 {
      DumpRoots(w, btf, roots, parent);
    } else {
      DumpAll(w, btf, parent);
    }
    assert Pop(w.stack) == parent;
    w.EndArray();
    assert [] + [Member("types", types)] == [Member("types", types)];
    assert w.stack == outer + [InObject([Member("types", types)], None)];
    assert Pop(w.stack) == outer;
    w.EndObject();
  }

  method DumpRoots(w: Writer, btf: Btf, roots: seq<nat>, ghost parent: Stack)
    requires w.Valid() && btf.Complete() && Known(btf, roots) && w.stack == parent + [InArray([])]
    modifies w
    ensures w.Valid() && w.stack == parent + [InArray(TypesJson(btf, roots))]
  {
    hide Writer.Valid, TypeJson, BtfType.Complete;
    var i := 0;
    while i < |roots|
      invariant 0 <= i <= |roots|
      invariant w.Valid() && w.stack == parent + [InArray(TypesJson(btf, roots[..i]))]
    {
      DumpType(w, btf, roots[i], btf.types[roots[i]]);
      assert roots[..i + 1][..i] == roots[..i];
      i := i + 1;
    }
    assert roots[..i] == roots;
  }

  method DumpAll(w: Writer, btf: Btf, ghost parent: Stack)
    requires w.Valid() && btf.Complete() && w.stack == parent + [InArray([])]
    modifies w
    ensures w.Valid() && w.stack == parent + [InArray(TypesJson(btf, IdRange(btf.FirstId(), |btf.types|)))]
  {
    hide Writer.Valid, TypeJson, BtfType.Complete, TypesJson, IdRange;
    var start := btf.FirstId();
    var i := start;
    NoTypesYet(btf, start, |btf.types|);
    while i < |btf.types|
      invariant start <= i <= |btf.types| || (i == start && start > |btf.types|)
      invariant w.Valid() && w.stack == parent + [InArray(TypesJson(btf, IdRange(start, i)))]
    {
      DumpType(w, btf, i, btf.types[i]);
      OneMoreType(btf, start, i);
      i := i + 1;
    }
  }

  lemma NoTypesYet(btf: Btf, lo: nat, hi: nat)
    requires btf.Complete()
    ensures TypesJson(btf, IdRange(lo, lo)) == [] && (hi < lo ==> IdRange(lo, hi) == IdRange(lo, lo))
  {
  }

  lemma OneMoreType(btf: Btf, lo: nat, i: nat)
    requires btf.Complete() && lo <= i < |btf.types|
    ensures TypesJson(btf, IdRange(lo, i + 1)) == TypesJson(btf, IdRange(lo, i)) + [TypeJson(btf, i, btf.types[i])]
  {
    hide TypeJson, BtfType.Complete;
    assert IdRange(lo, i + 1)[..i - lo] == IdRange(lo, i);
  }

  // ----- what the printed value says

  predicate Has(ms: seq<Member>, name: string, v: Value) { Member(name, v) in ms }

  /** Every dumped id gets exactly one array element, in order. */
  lemma {:induction false} OneElementPerType(btf: Btf, ids: seq<nat>, i: nat)
    requires btf.Complete() && Known(btf, ids) && i < |ids|
    ensures |TypesJson(btf, ids)| == |ids|
    ensures TypesJson(btf, ids)[i] == TypeJson(btf, ids[i], btf.types[ids[i]])
  {
    hide TypeJson, BtfType.Complete;
    if i < |ids| - 1 {
      OneElementPerType(btf, ids[..|ids| - 1], i);
    }
  }

  /** Without roots those are the table's own ids, from the first past the base table to the last. */
  lemma DumpCoversTable(btf: Btf, id: nat)
    requires btf.Complete() && btf.FirstId() <= id < |btf.types|
    ensures var types := TypesJson(btf, DumpedIds(btf, []));
      |types| == |btf.types| - btf.FirstId()
      && types[id - btf.FirstId()] == TypeJson(btf, id, btf.types[id])
  {
    hide TypeJson, BtfType.Complete;
    OneElementPerType(btf, DumpedIds(btf, []), id - btf.FirstId());
  }

  /** A type with a list prints its length as "vlen", and exactly that many entries. */
  lemma ListLength(btf: Btf, t: BtfType)
    requires t.Complete() && t.HasList()
    ensures Has(Details(btf, t), "vlen", Num(t.Vlen()))
    ensures Has(Details(btf, t), ListName(t.Kind()), Arr(Entries(btf, t, t.Vlen())))
    ensures |Entries(btf, t, t.Vlen())| == t.Vlen()
  {
    hide BtfType.Kind, BtfType.Vlen, BtfType.Complete, EntryMembers, BtfType.Kflag;
    var h := Heading(t);
    assert h[|h| - 1] == N("vlen", t.Vlen());
    assert Details(btf, t)[|h| - 1] == h[|h| - 1];
    assert Details(btf, t)[|h|] == ListMember(btf, t);
  }

  /** What an enumerator of an ENUM type stands for. */
  function EnumMeaning(t: BtfType, w: Word): int { if t.Kflag() then Signed32(w) else w }

  /**
   * An enumerator is printed with the value it stands for exactly when the type is signed or the value is below 2^31:
   * an unsigned one passes through a signed 32-bit field on its way to uint64_t.
   */
  lemma EnumPrintedIff(btf: Btf, t: BtfType, i: nat)
    requires t.Complete() && t.Kind() == ENUM && i < t.Vlen()
    ensures Has(EntryMembers(btf, t, i), "val", Num(EnumMeaning(t, t.EntryWord(i, 1))))
      <==> t.Kflag() || t.EntryWord(i, 1) < 0x8000_0000
  {
    hide BtfType.Kind, BtfType.Vlen, BtfType.Kflag, BtfType.EntryWord;
    var w, ms := t.EntryWord(i, 1), EntryMembers(btf, t, i);
    var printed := if t.Kflag() then Signed32(w) else ToUint64(Signed32(w));
    assert ms[1] == N("val", printed);
    assert |"name"| != |"val"|;
    assert forall n: int :: Has(ms, "val", Num(n)) ==> n == printed;
    assert Has(ms, "val", Num(printed));
  }

  /** An unsigned ENUM of one enumerator, 2^31. */
  const LARGE_ENUM := BtfType(0, 0x600_0001, 4, [0, 0x8000_0000])

  lemma LargeEnumeratorPrinted(btf: Btf)
    ensures LARGE_ENUM.Complete() && LARGE_ENUM.Kind() == ENUM && !LARGE_ENUM.Kflag() && LARGE_ENUM.Vlen() == 1
    ensures LARGE_ENUM.EntryWord(0, 1) == 0x8000_0000
    ensures EntryMembers(btf, LARGE_ENUM, 0)[1] == N("val", 0xFFFF_FFFF_8000_0000)
  {
  }

  /** The names that are printed all come from the string table; the rest are the dumper's own. */
  predicate CleanNames(btf: Btf, t: BtfType)
    requires t.Complete()
  {
    && CleanString(btf.Name(t.nameOff))
    && (t.HasList() && t.Kind() != DATASEC ==>
      forall i: nat | i < t.Vlen() :: CleanString(btf.Name(t.EntryWord(i, 0))))
  }

  /** Tells the dumper's member names apart. */
  function Key(s: string): (nat, char, char) { (|s|, if |s| > 0 then s[0] else ' ', if |s| > 1 then s[1] else ' ') }

  lemma Keys()
    ensures Key("id") == (2, 'i', 'd') && Key("kind") == (4, 'k', 'i') && Key("name") == (4, 'n', 'a')
    ensures Key("size") == (4, 's', 'i') && Key("vlen") == (4, 'v', 'l') && Key("vars") == (4, 'v', 'a')
    ensures Key("val") == (3, 'v', 'a') && Key("values") == (6, 'v', 'a') && Key("members") == (7, 'm', 'e')
    ensures Key("params") == (6, 'p', 'a') && Key("type_id") == (7, 't', 'y') && Key("linkage") == (7, 'l', 'i')
    ensures Key("bits_offset") == (11, 'b', 'i') && Key("ret_type_id") == (11, 'r', 'e')
    ensures Key("nr_bits") == (7, 'n', 'r')
    ensures Key("encoding") == (8, 'e', 'n') && Key("nr_elems") == (8, 'n', 'r') && Key("fwd_kind") == (8, 'f', 'w')
    ensures Key("index_type_id") == (13, 'i', 'n') && Key("component_idx") == (13, 'c', 'o')
    ensures Key("bitfield_size") == (13, 'b', 'i')
    ensures Key("offset") == (6, 'o', 'f')
  {
  }

  lemma EntryNamesUnique(btf: Btf, t: BtfType, i: nat)
    requires t.Complete() && t.HasList() && i < t.Vlen()
    ensures UniqueNames(Obj(EntryMembers(btf, t, i)))
  {
    hide Key, BtfType.Kind, BtfType.Vlen, BtfType.Kflag, BtfType.EntryWord, Btf.Name;
    Keys();
  }

  predicate DistinctNames(ms: seq<Member>) { forall i, j | 0 <= i < j < |ms| :: ms[i].name != ms[j].name }

  lemma HeadingNamesUnique(btf: Btf, id: nat, t: BtfType)
    requires t.Complete() && t.HasList()
    ensures DistinctNames(Prologue(btf, id, t) + Heading(t) + [ListMember(btf, t)])
  {
    hide Key, BtfType.Kind, BtfType.Vlen, BtfType.Kflag, Btf.Name, KindName, Entries;
    Keys();
  }

  lemma PlainNamesUnique(btf: Btf, id: nat, t: BtfType)
    requires t.Complete() && !t.HasList()
    ensures DistinctNames(Prologue(btf, id, t) + Details(btf, t))
  {
    hide Key, BtfType.Kind, BtfType.Vlen, BtfType.Kflag, Btf.Name, KindName, EncodingName, LinkageName;
    Keys();
  }

  /** No object of the dump names a member twice. */
  lemma TypeNamesUnique(btf: Btf, id: nat, t: BtfType)
    requires t.Complete()
    ensures UniqueNames(TypeJson(btf, id, t))
  {
    hide BtfType.Kind, BtfType.Vlen, BtfType.Kflag, Btf.Name, KindName, EncodingName, LinkageName, EntryMembers,
      ListName;
    var ms := Prologue(btf, id, t) + Details(btf, t);
    if t.HasList() {
      HeadingNamesUnique(btf, id, t);
      assert ms == Prologue(btf, id, t) + Heading(t) + [ListMember(btf, t)];
      forall i: nat | i < t.Vlen() ensures UniqueNames(Entries(btf, t, t.Vlen())[i]) {
        EntryNamesUnique(btf, t, i);
      }
      assert UniqueNames(ListMember(btf, t).value);
    } else {
      PlainNamesUnique(btf, id, t);
    }
  }

  // ----- which dumps read back

  lemma ShortNamesPlain()
    ensures Plain("id") && Plain("kind") && Plain("name") && Plain("size")
    ensures Plain("vlen") && Plain("vars") && Plain("val") && Plain("values")
    ensures Plain("members") && Plain("params") && Plain("type_id") && Plain("linkage")
    ensures Plain("types")
  {
  }

  lemma LongNamesPlain()
    ensures Plain("bits_offset") && Plain("ret_type_id")
    ensures Plain("nr_bits") && Plain("encoding")
    ensures Plain("nr_elems") && Plain("fwd_kind")
  {
  }

  lemma LongestNamesPlain()
    ensures Plain("index_type_id") && Plain("component_idx")
    ensures Plain("bitfield_size") && Plain("offset")
  {
  }

  lemma OwnNamesClean()
    ensures CleanString("id") && CleanString("kind") && CleanString("name") && CleanString("size")
    ensures CleanString("vlen") && CleanString("vars") && CleanString("val") && CleanString("values")
    ensures CleanString("members") && CleanString("params") && CleanString("type_id") && CleanString("linkage")
    ensures CleanString("bits_offset") && CleanString("ret_type_id")
    ensures CleanString("nr_bits") && CleanString("encoding")
    ensures CleanString("nr_elems") && CleanString("fwd_kind")
    ensures CleanString("index_type_id") && CleanString("component_idx")
    ensures CleanString("bitfield_size") && CleanString("offset") && CleanString("types")
  {
    hide CleanString, Plain;
    PlainIsClean();
    ShortNamesPlain();
    LongNamesPlain();
    LongestNamesPlain();
  }

  lemma KindNamePlain(kind: nat)
    ensures Plain(KindName(kind))
  {
  }

  lemma EncodingPlain(e: nat)
    ensures Plain(EncodingName(e)) && Plain("SIGNED") && Plain("UNSIGNED") && Plain("union") && Plain("struct")
  {
  }

  lemma LinkagePlain(linkage: nat)
    ensures Plain(LinkageName(linkage))
  {
  }

  lemma OwnWordsClean(kind: nat, e: nat, linkage: nat)
    ensures CleanString(KindName(kind)) && CleanString(EncodingName(e)) && CleanString(LinkageName(linkage))
    ensures CleanString("SIGNED") && CleanString("UNSIGNED") && CleanString("union") && CleanString("struct")
  {
    hide CleanString, Plain, KindName, EncodingName, LinkageName;
    PlainIsClean();
    KindNamePlain(kind);
    EncodingPlain(e);
    LinkagePlain(linkage);
  }

  lemma EntryClean(btf: Btf, t: BtfType, i: nat)
    requires t.Complete() && t.HasList() && i < t.Vlen()
    ensures Clean(Obj(EntryMembers(btf, t, i))) <==> t.Kind() == DATASEC || CleanString(btf.Name(t.EntryWord(i, 0)))
  {
    hide BtfType.Kind, BtfType.Vlen, BtfType.Kflag, BtfType.EntryWord, Btf.Name, CleanString, CleanMembers;
    var ms := EntryMembers(btf, t, i);
    CleanMembersAll(ms);
    OwnNamesClean();
    if t.Kind() != DATASEC {
      assert ms[0] == S("name", btf.Name(t.EntryWord(i, 0)));
    }
  }

  lemma HeadingClean(btf: Btf, id: nat, t: BtfType)
    requires t.Complete()
    ensures CleanMembers(Prologue(btf, id, t) + if t.HasList() then Heading(t) else Details(btf, t))
      <==> CleanString(btf.Name(t.nameOff))
  {
    hide BtfType.Kind, BtfType.Vlen, BtfType.Kflag, Btf.Name, CleanString, CleanMembers, KindName, EncodingName,
      LinkageName;
    var ms := Prologue(btf, id, t) + if t.HasList() then Heading(t) else Details(btf, t);
    CleanMembersAll(ms);
    OwnNamesClean();
    OwnWordsClean(t.Kind(), if t.Kind() == INT then t.extra[0] / 0x100_0000 % 16 else 0,
      if t.Kind() == VAR then t.extra[0] else t.Vlen());
    assert ms[2] == S("name", btf.Name(t.nameOff));
  }

  /** A type's object is clean exactly when the names taken from the string table are. */
  lemma TypeClean(btf: Btf, id: nat, t: BtfType)
    requires t.Complete()
    ensures Clean(TypeJson(btf, id, t)) <==> CleanNames(btf, t)
  {
    hide BtfType.Kind, BtfType.Vlen, BtfType.EntryWord, Btf.Name, CleanString, CleanMembers, CleanElements, Heading,
      EntryMembers, Prologue;
    HeadingClean(btf, id, t);
    if t.HasList() {
      var ms, m := Prologue(btf, id, t) + Heading(t), ListMember(btf, t);
      var es := Entries(btf, t, t.Vlen());
      assert Prologue(btf, id, t) + Details(btf, t) == ms + [m];
      CleanMembersAll(ms);
      CleanMembersAll(ms + [m]);
      CleanElementsAll(es);
      OwnNamesClean();
      assert CleanMember(m) <==> CleanElements(es);
      assert CleanMembers(ms + [m]) <==> CleanMembers(ms) && CleanMember(m) by {
        assert forall i | 0 <= i < |ms| :: (ms + [m])[i] == ms[i];
        assert (ms + [m])[|ms|] == m;
      }
      forall i: nat | i < t.Vlen()
        ensures Clean(es[i]) <==> t.Kind() == DATASEC || CleanString(btf.Name(t.EntryWord(i, 0)))
      {
        EntryClean(btf, t, i);
      }
    }
  }

  lemma DumpClean(btf: Btf, ids: seq<nat>)
    requires btf.Complete() && Known(btf, ids)
    ensures Clean(DumpValue(btf, ids)) <==> forall i: nat | i < |ids| :: CleanNames(btf, btf.types[ids[i]])
  {
    hide TypesJson, TypeJson, CleanNames, CleanString, CleanElements, CleanMembers, BtfType.Complete;
    var types := TypesJson(btf, ids);
    forall i: nat | i < |ids| ensures Clean(types[i]) <==> CleanNames(btf, btf.types[ids[i]]) {
      OneElementPerType(btf, ids, i);
      TypeClean(btf, ids[i], btf.types[ids[i]]);
    }
    OwnNamesClean();
    CleanElementsAll(types);
    var ms := [Member("types", Arr(types))];
    CleanMembersAll(ms);
    assert CleanMember(ms[0]) <==> CleanElements(types);
    assert Clean(DumpValue(btf, ids)) <==> CleanMembers(ms);
  }

  /**
   * The whole dump, written by a fresh writer, is one JSON text that reads back as the value describing the table,
   * exactly when every printed name is UTF-8 without raw control characters.
   */
  lemma DumpReadsBack(btf: Btf, roots: seq<nat>, pretty: bool)
    requires btf.Complete() && Known(btf, roots)
    ensures ReadDocument(StackText(PutTop([InArray([])], DumpJson(btf, roots)), pretty) + "\n") ==
      if forall i: nat | i < |DumpedIds(btf, roots)| :: CleanNames(btf, btf.types[DumpedIds(btf, roots)[i]])
      then Some(DumpJson(btf, roots)) else None
  {
    hide TypesJson, CleanNames, BtfType.Complete, Text, ReadDocument;
    var v := DumpJson(btf, roots);
    DumpClean(btf, DumpedIds(btf, roots));
    PutTopText([InArray([])], v, pretty);
    assert "" + ("" + Text(v, pretty, 0, "")) == Text(v, pretty, 0, "");
    TextSplit(v, pretty, 0, "\n");
    DocumentReadsBack(v, pretty);
  }

  /** A run of the dump command in JSON mode, from the new writer to its destruction. */
  method Dump(btf: Btf, roots: seq<nat>, pretty: bool) returns (text: string)
    requires btf.Complete() && Known(btf, roots)
    ensures ReadDocument(text) ==
      if forall i: nat | i < |DumpedIds(btf, roots)| :: CleanNames(btf, btf.types[DumpedIds(btf, roots)[i]])
      then Some(DumpJson(btf, roots)) else None
  {
    hide DumpJson, CleanNames, BtfType.Complete, ReadDocument, StackText;
    var w := new Writer(pretty);
    DumpRaw(w, btf, roots);
    DumpReadsBack(btf, roots, pretty);
    text := w.out + "\n";
  }
}
