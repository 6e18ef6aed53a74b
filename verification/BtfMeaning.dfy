/** What a type of the table declares, and a reader that gets the declaration back from the printed fields by name. */
module BtfMeaning {
  import opened Json
  import opened JsonWriter
  import opened BtfDump

  datatype Decl = Decl(id: int, kind: nat, name: string, detail: Detail)

  datatype Detail =
    | Integer(size: int, bitOffset: int, bits: int, encoding: Encoding)
    | Reference(target: int)
    | Array(elem: int, index: int, count: int)
    | Record(size: int, members: seq<Slot>)
    | Enumeration(signed: bool, size: int, values: seq<Constant>)
    | Forward(isUnion: bool)
    | Function(prototype: int, linkage: Linkage)
    | Prototype(result: int, params: seq<Param>)
    | Variable(target: int, linkage: Linkage)
    | Section(size: int, vars: seq<Placed>)
    | Float(size: int)
    | Tag(target: int, component: int)
    | Nothing

  datatype Encoding = NotEncoded | SignedInt | Character | Boolean | OtherEncoding
  datatype Linkage = Static | Global | Extern | OtherLinkage

  datatype Slot = Slot(name: string, target: int, bitOffset: int, bitSize: int)
  datatype Constant = Constant(name: string, value: int)
  datatype Param = Param(name: string, target: int)
  datatype Placed = Placed(target: int, offset: int, size: int)

  // ----- from the words of the type section

  function NameAt(btf: Btf, off: Word): string {
    if off == 0 then "(anon)" else if off in btf.names then btf.names[off] else "(invalid)"
  }

  /** info: the kind in bits 24 to 28, the length of the list in the low 16, a flag in the highest. */
  function KindBits(t: BtfType): int { t.info / 0x100_0000 % 0x20 }

  function LengthBits(t: BtfType): nat { t.info % 0x1_0000 }

  predicate FlagBit(t: BtfType) { t.info >= 0x8000_0000 }

  function TwosComplement(w: int, modulus: nat): int { if 2 * w < modulus then w else w - modulus }

  /** Word j of entry i, when entries have the given width. */
  function At(t: BtfType, width: nat, i: nat, j: nat): Word
    requires i < LengthBits(t) && j < width && LengthBits(t) * width <= |t.extra|
  {
    assert (i + 1) * width <= LengthBits(t) * width by { MulMonotone(i + 1, LengthBits(t), width); }
    t.extra[width * i + j]
  }

  /** With the flag the last word of a member holds the size of a bit field above 24 bits of offset. */
  function SlotOf(btf: Btf, t: BtfType, i: nat): Slot
    requires i < LengthBits(t) && LengthBits(t) * 3 <= |t.extra|
  {
    var name, target, offset := NameAt(btf, At(t, 3, i, 0)), At(t, 3, i, 1), At(t, 3, i, 2);
    if FlagBit(t) then Slot(name, target, offset % 0x100_0000, offset / 0x100_0000)
    else Slot(name, target, offset, 0)
  }

  function ConstantOf(btf: Btf, t: BtfType, i: nat): Constant
    requires i < LengthBits(t) && LengthBits(t) * 2 <= |t.extra|
  {
    var w := At(t, 2, i, 1);
    Constant(NameAt(btf, At(t, 2, i, 0)), if FlagBit(t) then TwosComplement(w, 0x1_0000_0000) else w)
  }

  function Constant64Of(btf: Btf, t: BtfType, i: nat): Constant
    requires i < LengthBits(t) && LengthBits(t) * 3 <= |t.extra|
  {
    var w := At(t, 3, i, 1) + 0x1_0000_0000 * At(t, 3, i, 2);
    Constant(NameAt(btf, At(t, 3, i, 0)), if FlagBit(t) then TwosComplement(w, 0x1_0000_0000_0000_0000) else w)
  }

  function ParamOf(btf: Btf, t: BtfType, i: nat): Param
    requires i < LengthBits(t) && LengthBits(t) * 2 <= |t.extra|
  {
    Param(NameAt(btf, At(t, 2, i, 0)), At(t, 2, i, 1))
  }

  function PlacedOf(t: BtfType, i: nat): Placed
    requires i < LengthBits(t) && LengthBits(t) * 3 <= |t.extra|
  {
    Placed(At(t, 3, i, 0), At(t, 3, i, 1), At(t, 3, i, 2))
  }

  function EncodingOf(e: int): Encoding {
    match e
    case 0 => NotEncoded
    case 1 => SignedInt
    case 2 => Character
    case 4 => Boolean
    case _ => OtherEncoding
  }

  function LinkageOf(linkage: int): Linkage {
    match linkage
    case 0 => Static
    case 1 => Global
    case 2 => Extern
    case _ => OtherLinkage
  }

  function DetailOf(btf: Btf, t: BtfType): Detail
    requires t.Complete()
  {
    var n, word := LengthBits(t), t.sizeOrType;
    match KindBits(t)
    case 1 =>
      var v := t.extra[0];
      Integer(word, v / 0x1_0000 % 0x100, v % 0x100, EncodingOf(v / 0x100_0000 % 0x10))
    case 2 => Reference(word)
    case 3 => Array(t.extra[0], t.extra[1], t.extra[2])
    case 4 => Record(word, seq(n, i requires 0 <= i < n => SlotOf(btf, t, i)))
    case 5 => Record(word, seq(n, i requires 0 <= i < n => SlotOf(btf, t, i)))
    case 6 => Enumeration(FlagBit(t), word, seq(n, i requires 0 <= i < n => ConstantOf(btf, t, i)))
    case 7 => Forward(FlagBit(t))
    case 8 => Reference(word)
    case 9 => Reference(word)
    case 10 => Reference(word)
    case 11 => Reference(word)
    case 12 => Function(word, LinkageOf(n))
    case 13 => Prototype(word, seq(n, i requires 0 <= i < n => ParamOf(btf, t, i)))
    case 14 => Variable(word, LinkageOf(t.extra[0]))
    case 15 => Section(word, seq(n, i requires 0 <= i < n => PlacedOf(t, i)))
    case 16 => Float(word)
    case 17 => Tag(word, TwosComplement(t.extra[0], 0x1_0000_0000))
    case 18 => Reference(word)
    case 19 => Enumeration(FlagBit(t), word, seq(n, i requires 0 <= i < n => Constant64Of(btf, t, i)))
    case _ => Nothing
  }

  /** A kind above 19 is shown as unknown. */
  function DeclOf(btf: Btf, id: nat, t: BtfType): Decl
    requires t.Complete()
  {
    Decl(id, if KindBits(t) < 20 then KindBits(t) else 0, NameAt(btf, t.nameOff), DetailOf(btf, t))
  }

  // ----- from the printed value

  function FieldIn(ms: seq<Member>, name: string): Option<Value> {
    if ms == [] then None else if ms[0].name == name then Some(ms[0].value) else FieldIn(ms[1..], name)
  }

  function NumIn(ms: seq<Member>, name: string): int {
    match FieldIn(ms, name)
    case Some(Num(n)) => n
    case _ => 0
  }

  function StrIn(ms: seq<Member>, name: string): string {
    match FieldIn(ms, name)
    case Some(Str(s)) => s
    case _ => ""
  }

  function ListIn(ms: seq<Member>, name: string): seq<Value> {
    match FieldIn(ms, name)
    case Some(Arr(es)) => es
    case _ => []
  }

  function MembersOf(v: Value): seq<Member> { if v.Obj? then v.members else [] }

  const KINDS := [
    "UNKNOWN", "INT", "PTR", "ARRAY", "STRUCT", "UNION", "ENUM", "FWD", "TYPEDEF", "VOLATILE", "CONST", "RESTRICT",
    "FUNC", "FUNC_PROTO", "VAR", "DATASEC", "FLOAT", "DECL_TAG", "TYPE_TAG", "ENUM64"]

  /** The number of the kind with the given name, looked for from k on. */
  function KindFrom(name: string, k: nat): nat
    requires k <= 20
    decreases 20 - k
  {
    if k == 20 then 0 else if KINDS[k] == name then k else KindFrom(name, k + 1)
  }

  function EncodingFrom(name: string): Encoding {
    if name == "(none)" then NotEncoded
    else if name == "SIGNED" then SignedInt
    else if name == "CHAR" then Character
    else if name == "BOOL" then Boolean
    else OtherEncoding
  }

  function LinkageFrom(name: string): Linkage {
    if name == "static" then Static
    else if name == "global" then Global
    else if name == "extern" then Extern
    else OtherLinkage
  }

  function ReadSlot(v: Value): Slot {
    var ms := MembersOf(v);
    Slot(StrIn(ms, "name"), NumIn(ms, "type_id"), NumIn(ms, "bits_offset"), NumIn(ms, "bitfield_size"))
  }

  function ReadConstant(v: Value): Constant { Constant(StrIn(MembersOf(v), "name"), NumIn(MembersOf(v), "val")) }

  /** An unsigned 32-bit enumerator is the printed number modulo 2^32. */
  function ReadConstant32(v: Value, signed: bool): Constant {
    var c := ReadConstant(v);
    if signed then c else Constant(c.name, c.value % 0x1_0000_0000)
  }

  function ReadParam(v: Value): Param { Param(StrIn(MembersOf(v), "name"), NumIn(MembersOf(v), "type_id")) }

  function ReadPlaced(v: Value): Placed {
    Placed(NumIn(MembersOf(v), "type_id"), NumIn(MembersOf(v), "offset"), NumIn(MembersOf(v), "size"))
  }

  function ReadDetail(k: nat, ms: seq<Member>): Detail {
    match k
    case 1 =>
      Integer(NumIn(ms, "size"), NumIn(ms, "bits_offset"), NumIn(ms, "nr_bits"), EncodingFrom(StrIn(ms, "encoding")))
    case 2 => Reference(NumIn(ms, "type_id"))
    case 3 => Array(NumIn(ms, "type_id"), NumIn(ms, "index_type_id"), NumIn(ms, "nr_elems"))
    case 4 => ReadRecord(ms)
    case 5 => ReadRecord(ms)
    case 6 =>
      var es, signed := ListIn(ms, "values"), StrIn(ms, "encoding") == "SIGNED";
      Enumeration(signed, NumIn(ms, "size"), seq(|es|, i requires 0 <= i < |es| => ReadConstant32(es[i], signed)))
    case 7 => Forward(StrIn(ms, "fwd_kind") == "union")
    case 8 => Reference(NumIn(ms, "type_id"))
    case 9 => Reference(NumIn(ms, "type_id"))
    case 10 => Reference(NumIn(ms, "type_id"))
    case 11 => Reference(NumIn(ms, "type_id"))
    case 12 => Function(NumIn(ms, "type_id"), LinkageFrom(StrIn(ms, "linkage")))
    case 13 =>
      var es := ListIn(ms, "params");
      Prototype(NumIn(ms, "ret_type_id"), seq(|es|, i requires 0 <= i < |es| => ReadParam(es[i])))
    case 14 => Variable(NumIn(ms, "type_id"), LinkageFrom(StrIn(ms, "linkage")))
    case 15 =>
      var es := ListIn(ms, "vars");
      Section(NumIn(ms, "size"), seq(|es|, i requires 0 <= i < |es| => ReadPlaced(es[i])))
    case 16 => Float(NumIn(ms, "size"))
    case 17 => Tag(NumIn(ms, "type_id"), NumIn(ms, "component_idx"))
    case 18 => Reference(NumIn(ms, "type_id"))
    case 19 =>
      var es, signed := ListIn(ms, "values"), StrIn(ms, "encoding") == "SIGNED";
      Enumeration(signed, NumIn(ms, "size"), seq(|es|, i requires 0 <= i < |es| => ReadConstant(es[i])))
    case _ => Nothing
  }

  function ReadRecord(ms: seq<Member>): Detail {
    var es := ListIn(ms, "members");
    Record(NumIn(ms, "size"), seq(|es|, i requires 0 <= i < |es| => ReadSlot(es[i])))
  }

  function ReadDecl(v: Value): Decl {
    var ms := MembersOf(v);
    var k := KindFrom(StrIn(ms, "kind"), 0);
    Decl(NumIn(ms, "id"), k, StrIn(ms, "name"), ReadDetail(k, ms))
  }

  // ----- the same declaration

  lemma {:induction false} FieldFound(ms: seq<Member>, k: nat)
    requires DistinctNames(ms) && k < |ms|
    ensures FieldIn(ms, ms[k].name) == Some(ms[k].value)
  {
    if k > 0 {
      assert ms[0].name != ms[k].name;
      assert ms[1..][k - 1] == ms[k];
      FieldFound(ms[1..], k - 1);
    }
  }

  lemma {:induction false} FieldMissing(ms: seq<Member>, name: string)
    requires forall k | 0 <= k < |ms| :: ms[k].name != name
    ensures FieldIn(ms, name) == None
  {
    if ms != [] {
      FieldMissing(ms[1..], name);
    }
  }

  lemma KindKeys()
    ensures Key("UNKNOWN") == (7, 'U', 'N') && Key("INT") == (3, 'I', 'N') && Key("PTR") == (3, 'P', 'T')
    ensures Key("ARRAY") == (5, 'A', 'R') && Key("STRUCT") == (6, 'S', 'T') && Key("UNION") == (5, 'U', 'N')
    ensures Key("ENUM") == (4, 'E', 'N') && Key("FWD") == (3, 'F', 'W') && Key("TYPEDEF") == (7, 'T', 'Y')
    ensures Key("VOLATILE") == (8, 'V', 'O') && Key("CONST") == (5, 'C', 'O') && Key("RESTRICT") == (8, 'R', 'E')
    ensures Key("FUNC") == (4, 'F', 'U') && Key("FUNC_PROTO") == (10, 'F', 'U') && Key("VAR") == (3, 'V', 'A')
    ensures Key("DATASEC") == (7, 'D', 'A') && Key("FLOAT") == (5, 'F', 'L') && Key("DECL_TAG") == (8, 'D', 'E')
    ensures Key("TYPE_TAG") == (8, 'T', 'Y') && Key("ENUM64") == (6, 'E', 'N')
  {
  }

  lemma KindsDistinct(i: nat, j: nat)
    requires i < j < 20
    ensures KINDS[i] != KINDS[j]
  {
    hide Key;
    KindKeys();
  }

  lemma {:induction false} KindFound(k: nat, from: nat)
    requires from <= k < 20
    ensures KindFrom(KINDS[k], from) == k
    decreases k - from
  {
    if from < k {
      KindsDistinct(from, k);
      KindFound(k, from + 1);
    }
  }

  lemma KindRead(k: nat)
    ensures KindFrom(KindName(k), 0) == if k < 20 then k else 0
  {
    hide KindFrom;
    assert KINDS == KIND_NAMES;
    KindFound(if k < 20 then k else 0, 0);
  }

  lemma WordKeys()
    ensures Key("(none)") == (6, '(', 'n') && Key("SIGNED") == (6, 'S', 'I') && Key("CHAR") == (4, 'C', 'H')
    ensures Key("BOOL") == (4, 'B', 'O') && Key("UNKN") == (4, 'U', 'N') && Key("static") == (6, 's', 't')
    ensures Key("global") == (6, 'g', 'l') && Key("extern") == (6, 'e', 'x') && Key("(unknown)") == (9, '(', 'u')
  {
  }

  lemma EncodingRead(e: nat)
    ensures EncodingFrom(EncodingName(e)) == EncodingOf(e)
  {
    hide Key;
    WordKeys();
  }

  lemma LinkageRead(linkage: nat)
    ensures LinkageFrom(LinkageName(linkage)) == LinkageOf(linkage)
  {
    hide Key;
    WordKeys();
  }

  lemma InfoBits(t: BtfType)
    ensures t.Kind() == KindBits(t) && t.Vlen() == LengthBits(t) && (t.Kflag() <==> FlagBit(t))
  {
  }

  lemma NamesAgree(btf: Btf, off: Word)
    ensures btf.Name(off) == NameAt(btf, off)
  {
  }

  lemma WordsAgree(t: BtfType, i: nat, j: nat)
    requires t.Complete() && i < t.Vlen() && j < t.Width()
    ensures i < LengthBits(t) && LengthBits(t) * t.Width() <= |t.extra|
    ensures t.EntryWord(i, j) == At(t, t.Width(), i, j)
  {
    InfoBits(t);
    assert i * t.Width() == t.Width() * i;
  }

  lemma FieldsFound(ms: seq<Member>)
    requires DistinctNames(ms)
    ensures forall k | 0 <= k < |ms| :: FieldIn(ms, ms[k].name) == Some(ms[k].value)
  {
    forall k | 0 <= k < |ms| ensures FieldIn(ms, ms[k].name) == Some(ms[k].value) {
      FieldFound(ms, k);
    }
  }

  lemma PrologueRead(btf: Btf, id: nat, t: BtfType, ms: seq<Member>)
    requires DistinctNames(ms) && Prologue(btf, id, t) <= ms
    ensures NumIn(ms, "id") == id && StrIn(ms, "name") == btf.Name(t.nameOff)
    ensures KindFrom(StrIn(ms, "kind"), 0) == if t.Kind() < 20 then t.Kind() else 0
  {
    hide FieldIn, Btf.Name, BtfType.Kind, KindFrom;
    FieldsFound(ms);
    KindRead(t.Kind());
    var p := Prologue(btf, id, t);
    assert ms[0] == p[0] && ms[1] == p[1] && ms[2] == p[2];
  }

  lemma PlainRead(btf: Btf, id: nat, t: BtfType)
    requires t.Complete() && !t.HasList()
    ensures ReadDetail(if t.Kind() < 20 then t.Kind() else 0, Prologue(btf, id, t) + Details(btf, t))
            == DetailOf(btf, t)
  {
    hide FieldIn, Btf.Name, BtfType.Kind, BtfType.Vlen, BtfType.Kflag, EncodingName, LinkageName, KindName,
      DistinctNames, EncodingFrom, LinkageFrom, EncodingOf, LinkageOf, KindBits, LengthBits, FlagBit;
    var ms := Prologue(btf, id, t) + Details(btf, t);
    PlainNamesUnique(btf, id, t);
    FieldsFound(ms);
    InfoBits(t);
    var d := Details(btf, t);
    assert |d| > 0 ==> ms[3] == d[0];
    assert |d| > 1 ==> ms[4] == d[1];
    assert |d| > 2 ==> ms[5] == d[2];
    assert |d| > 3 ==> ms[6] == d[3];
    assert |"union"| != |"struct"|;
    if t.Kind() == INT {
      EncodingRead(t.extra[0] / 0x100_0000 % 16);
    } else if t.Kind() == FUNC {
      LinkageRead(t.Vlen());
    } else if t.Kind() == VAR {
      LinkageRead(t.extra[0]);
    }
  }

  lemma SlotWords(btf: Btf, t: BtfType, i: nat)
    requires t.Complete() && (t.Kind() == STRUCT || t.Kind() == UNION) && i < t.Vlen()
    ensures i < LengthBits(t) && LengthBits(t) * 3 <= |t.extra|
    ensures
      var offset := t.EntryWord(i, 2);
      SlotOf(btf, t, i)
      == Slot(btf.Name(t.EntryWord(i, 0)), t.EntryWord(i, 1), if t.Kflag() then offset % 0x100_0000 else offset,
              if t.Kflag() then offset / 0x100_0000 else 0)
  {
    hide BtfType.Kind, BtfType.Vlen, BtfType.Kflag, BtfType.EntryWord, At, KindBits, LengthBits, FlagBit, Btf.Name,
      NameAt, BtfType.Complete;
    InfoBits(t);
    WordsAgree(t, i, 0);
    WordsAgree(t, i, 1);
    WordsAgree(t, i, 2);
    NamesAgree(btf, t.EntryWord(i, 0));
  }

  lemma SlotRead(btf: Btf, t: BtfType, i: nat)
    requires t.Complete() && (t.Kind() == STRUCT || t.Kind() == UNION) && i < t.Vlen()
    ensures i < LengthBits(t) && LengthBits(t) * 3 <= |t.extra|
    ensures ReadSlot(Obj(EntryMembers(btf, t, i))) == SlotOf(btf, t, i)
  {
    hide FieldIn, Btf.Name, BtfType.Kind, BtfType.Vlen, BtfType.Kflag, BtfType.EntryWord, Key, SlotOf, LengthBits;
    var ms := EntryMembers(btf, t, i);
    SlotWords(btf, t, i);
    EntryNamesUnique(btf, t, i);
    FieldsFound(ms);
    assert ms[0].name == "name" && ms[1].name == "type_id" && ms[2].name == "bits_offset";
    if |ms| == 4 {
      assert ms[3].name == "bitfield_size";
    } else {
      Keys();
      FieldMissing(ms, "bitfield_size");
    }
  }

  lemma ConstantWords(btf: Btf, t: BtfType, i: nat)
    requires t.Complete() && t.Kind() == ENUM && i < t.Vlen()
    ensures i < LengthBits(t) && LengthBits(t) * 2 <= |t.extra|
    ensures
      var w := t.EntryWord(i, 1);
      ConstantOf(btf, t, i) == Constant(btf.Name(t.EntryWord(i, 0)), if t.Kflag() then Signed32(w) else w)
  {
    hide BtfType.Kind, BtfType.Vlen, BtfType.Kflag, BtfType.EntryWord, At, KindBits, LengthBits, FlagBit, Btf.Name,
      NameAt, BtfType.Complete;
    InfoBits(t);
    WordsAgree(t, i, 0);
    WordsAgree(t, i, 1);
    NamesAgree(btf, t.EntryWord(i, 0));
  }

  lemma ConstantRead(btf: Btf, t: BtfType, i: nat)
    requires t.Complete() && t.Kind() == ENUM && i < t.Vlen()
    ensures i < LengthBits(t) && LengthBits(t) * 2 <= |t.extra|
    ensures ReadConstant32(Obj(EntryMembers(btf, t, i)), t.Kflag()) == ConstantOf(btf, t, i)
  {
    hide FieldIn, Btf.Name, BtfType.Kind, BtfType.Vlen, BtfType.Kflag, BtfType.EntryWord, ConstantOf, LengthBits;
    var ms := EntryMembers(btf, t, i);
    ConstantWords(btf, t, i);
    EntryNamesUnique(btf, t, i);
    FieldsFound(ms);
    assert ms[0].name == "name" && ms[1].name == "val";
    SignExtended(t.EntryWord(i, 1));
  }

  lemma SignExtended(w: Word)
    ensures ToUint64(Signed32(w)) % 0x1_0000_0000 == w
  {
  }

  lemma Constant64Words(btf: Btf, t: BtfType, i: nat)
    requires t.Complete() && t.Kind() == ENUM64 && i < t.Vlen()
    ensures i < LengthBits(t) && LengthBits(t) * 3 <= |t.extra|
    ensures
      var w := t.EntryWord(i, 2) * 0x1_0000_0000 + t.EntryWord(i, 1);
      Constant64Of(btf, t, i) == Constant(btf.Name(t.EntryWord(i, 0)), if t.Kflag() then Signed64(w) else w)
  {
    hide BtfType.Kind, BtfType.Vlen, BtfType.Kflag, BtfType.EntryWord, At, KindBits, LengthBits, FlagBit, Btf.Name,
      NameAt, BtfType.Complete;
    InfoBits(t);
    WordsAgree(t, i, 0);
    WordsAgree(t, i, 1);
    WordsAgree(t, i, 2);
    NamesAgree(btf, t.EntryWord(i, 0));
  }

  lemma Constant64Read(btf: Btf, t: BtfType, i: nat)
    requires t.Complete() && t.Kind() == ENUM64 && i < t.Vlen()
    ensures i < LengthBits(t) && LengthBits(t) * 3 <= |t.extra|
    ensures ReadConstant(Obj(EntryMembers(btf, t, i))) == Constant64Of(btf, t, i)
  {
    hide FieldIn, Btf.Name, BtfType.Kind, BtfType.Vlen, BtfType.Kflag, BtfType.EntryWord, Constant64Of, LengthBits;
    var ms := EntryMembers(btf, t, i);
    Constant64Words(btf, t, i);
    EntryNamesUnique(btf, t, i);
    FieldsFound(ms);
    assert ms[0].name == "name" && ms[1].name == "val";
  }

  lemma ParamWords(btf: Btf, t: BtfType, i: nat)
    requires t.Complete() && t.Kind() == FUNC_PROTO && i < t.Vlen()
    ensures i < LengthBits(t) && LengthBits(t) * 2 <= |t.extra|
    ensures ParamOf(btf, t, i) == Param(btf.Name(t.EntryWord(i, 0)), t.EntryWord(i, 1))
  {
    hide BtfType.Kind, BtfType.Vlen, BtfType.EntryWord, At, KindBits, LengthBits, Btf.Name, NameAt, BtfType.Complete;
    InfoBits(t);
    WordsAgree(t, i, 0);
    WordsAgree(t, i, 1);
    NamesAgree(btf, t.EntryWord(i, 0));
  }

  lemma ParamRead(btf: Btf, t: BtfType, i: nat)
    requires t.Complete() && t.Kind() == FUNC_PROTO && i < t.Vlen()
    ensures i < LengthBits(t) && LengthBits(t) * 2 <= |t.extra|
    ensures ReadParam(Obj(EntryMembers(btf, t, i))) == ParamOf(btf, t, i)
  {
    hide FieldIn, Btf.Name, BtfType.Kind, BtfType.Vlen, BtfType.Kflag, BtfType.EntryWord, ParamOf, LengthBits;
    var ms := EntryMembers(btf, t, i);
    ParamWords(btf, t, i);
    EntryNamesUnique(btf, t, i);
    FieldsFound(ms);
    assert ms[0].name == "name" && ms[1].name == "type_id";
  }

  lemma PlacedWords(t: BtfType, i: nat)
    requires t.Complete() && t.Kind() == DATASEC && i < t.Vlen()
    ensures i < LengthBits(t) && LengthBits(t) * 3 <= |t.extra|
    ensures PlacedOf(t, i) == Placed(t.EntryWord(i, 0), t.EntryWord(i, 1), t.EntryWord(i, 2))
  {
    hide BtfType.Kind, BtfType.Vlen, BtfType.EntryWord, At, KindBits, LengthBits, BtfType.Complete;
    InfoBits(t);
    WordsAgree(t, i, 0);
    WordsAgree(t, i, 1);
    WordsAgree(t, i, 2);
  }

  lemma PlacedRead(btf: Btf, t: BtfType, i: nat)
    requires t.Complete() && t.Kind() == DATASEC && i < t.Vlen()
    ensures i < LengthBits(t) && LengthBits(t) * 3 <= |t.extra|
    ensures ReadPlaced(Obj(EntryMembers(btf, t, i))) == PlacedOf(t, i)
  {
    hide FieldIn, Btf.Name, BtfType.Kind, BtfType.Vlen, BtfType.Kflag, BtfType.EntryWord, PlacedOf, LengthBits;
    var ms := EntryMembers(btf, t, i);
    PlacedWords(t, i);
    EntryNamesUnique(btf, t, i);
    FieldsFound(ms);
    assert ms[0].name == "type_id" && ms[1].name == "offset" && ms[2].name == "size";
  }

  /** The fields of a type with a list: its heading, and the list under its name. */
  lemma ListedFields(btf: Btf, id: nat, t: BtfType)
    requires t.Complete() && t.HasList()
    ensures var ms := Prologue(btf, id, t) + Details(btf, t);
      && DistinctNames(ms)
      && ListIn(ms, ListName(t.Kind())) == Entries(btf, t, t.Vlen())
      && (t.Kind() != FUNC_PROTO ==> NumIn(ms, "size") == t.sizeOrType)
      && (t.Kind() == FUNC_PROTO ==> NumIn(ms, "ret_type_id") == t.sizeOrType)
      && (t.Kind() == ENUM || t.Kind() == ENUM64 ==>
            StrIn(ms, "encoding") == if t.Kflag() then "SIGNED" else "UNSIGNED")
  {
    hide FieldIn, Btf.Name, BtfType.Kind, BtfType.Vlen, BtfType.Kflag, KindName, DistinctNames, Entries, ListName;
    var p, h, m := Prologue(btf, id, t), Heading(t), ListMember(btf, t);
    var ms := p + Details(btf, t);
    HeadingNamesUnique(btf, id, t);
    assert p + h + [m] == ms;
    FieldsFound(ms);
    assert ms[3] == h[0] && ms[4] == h[1];
    assert ms[3 + |h|] == m;
  }

  lemma RecordRead(btf: Btf, id: nat, t: BtfType)
    requires t.Complete() && (t.Kind() == STRUCT || t.Kind() == UNION)
    ensures ReadDetail(t.Kind(), Prologue(btf, id, t) + Details(btf, t)) == DetailOf(btf, t)
  {
    hide FieldIn, Btf.Name, BtfType.Kind, BtfType.Vlen, BtfType.Kflag, Prologue, Details, EntryMembers, SlotOf,
      ReadSlot, DistinctNames, KindBits, LengthBits, FlagBit;
    InfoBits(t);
    ListedFields(btf, id, t);
    var n, es := t.Vlen(), Entries(btf, t, t.Vlen());
    forall i: nat | i < n
      ensures i < LengthBits(t) && LengthBits(t) * 3 <= |t.extra| && ReadSlot(es[i]) == SlotOf(btf, t, i)
    {
      SlotRead(btf, t, i);
    }
    assert LengthBits(t) * 3 <= |t.extra|;
    assert seq(|es|, i requires 0 <= i < |es| => ReadSlot(es[i])) == seq(n, i requires 0 <= i < n => SlotOf(btf, t, i));
  }

  lemma EnumerationRead(btf: Btf, id: nat, t: BtfType)
    requires t.Complete() && t.Kind() == ENUM
    ensures ReadDetail(t.Kind(), Prologue(btf, id, t) + Details(btf, t)) == DetailOf(btf, t)
  {
    hide FieldIn, Btf.Name, BtfType.Kind, BtfType.Vlen, BtfType.Kflag, Prologue, Details, EntryMembers,
      DistinctNames, ConstantOf, ReadConstant32, KindBits, LengthBits, FlagBit;
    InfoBits(t);
    ListedFields(btf, id, t);
    var n, es, signed := t.Vlen(), Entries(btf, t, t.Vlen()), t.Kflag();
    assert |"SIGNED"| != |"UNSIGNED"|;
    forall i: nat | i < n
      ensures i < LengthBits(t) && LengthBits(t) * 2 <= |t.extra|
              && ReadConstant32(es[i], t.Kflag()) == ConstantOf(btf, t, i)
    {
      ConstantRead(btf, t, i);
    }
    assert LengthBits(t) * 2 <= |t.extra|;
    assert seq(|es|, i requires 0 <= i < |es| => ReadConstant32(es[i], signed))
      == seq(n, i requires 0 <= i < n => ConstantOf(btf, t, i));
  }

  lemma Enumeration64Read(btf: Btf, id: nat, t: BtfType)
    requires t.Complete() && t.Kind() == ENUM64
    ensures ReadDetail(t.Kind(), Prologue(btf, id, t) + Details(btf, t)) == DetailOf(btf, t)
  {
    hide FieldIn, Btf.Name, BtfType.Kind, BtfType.Vlen, BtfType.Kflag, Prologue, Details, EntryMembers,
      DistinctNames, Constant64Of, ReadConstant, KindBits, LengthBits, FlagBit;
    InfoBits(t);
    ListedFields(btf, id, t);
    var n, es := t.Vlen(), Entries(btf, t, t.Vlen());
    assert |"SIGNED"| != |"UNSIGNED"|;
    forall i: nat | i < n
      ensures i < LengthBits(t) && LengthBits(t) * 3 <= |t.extra| && ReadConstant(es[i]) == Constant64Of(btf, t, i)
    {
      Constant64Read(btf, t, i);
    }
    assert LengthBits(t) * 3 <= |t.extra|;
    assert seq(|es|, i requires 0 <= i < |es| => ReadConstant(es[i]))
      == seq(n, i requires 0 <= i < n => Constant64Of(btf, t, i));
  }

  lemma PrototypeRead(btf: Btf, id: nat, t: BtfType)
    requires t.Complete() && t.Kind() == FUNC_PROTO
    ensures ReadDetail(t.Kind(), Prologue(btf, id, t) + Details(btf, t)) == DetailOf(btf, t)
  {
    hide FieldIn, Btf.Name, BtfType.Kind, BtfType.Vlen, BtfType.Kflag, Prologue, Details, EntryMembers,
      DistinctNames, ParamOf, ReadParam, KindBits, LengthBits, FlagBit;
    InfoBits(t);
    ListedFields(btf, id, t);
    var n, es := t.Vlen(), Entries(btf, t, t.Vlen());
    forall i: nat | i < n
      ensures i < LengthBits(t) && LengthBits(t) * 2 <= |t.extra| && ReadParam(es[i]) == ParamOf(btf, t, i)
    {
      ParamRead(btf, t, i);
    }
    assert LengthBits(t) * 2 <= |t.extra|;
    assert seq(|es|, i requires 0 <= i < |es| => ReadParam(es[i]))
      == seq(n, i requires 0 <= i < n => ParamOf(btf, t, i));
  }

  lemma SectionRead(btf: Btf, id: nat, t: BtfType)
    requires t.Complete() && t.Kind() == DATASEC
    ensures ReadDetail(t.Kind(), Prologue(btf, id, t) + Details(btf, t)) == DetailOf(btf, t)
  {
    hide FieldIn, Btf.Name, BtfType.Kind, BtfType.Vlen, BtfType.Kflag, Prologue, Details, EntryMembers,
      DistinctNames, PlacedOf, ReadPlaced, KindBits, LengthBits, FlagBit;
    InfoBits(t);
    ListedFields(btf, id, t);
    var n, es := t.Vlen(), Entries(btf, t, t.Vlen());
    forall i: nat | i < n
      ensures i < LengthBits(t) && LengthBits(t) * 3 <= |t.extra| && ReadPlaced(es[i]) == PlacedOf(t, i)
    {
      PlacedRead(btf, t, i);
    }
    assert LengthBits(t) * 3 <= |t.extra|;
    assert seq(|es|, i requires 0 <= i < |es| => ReadPlaced(es[i])) == seq(n, i requires 0 <= i < n => PlacedOf(t, i));
  }

  /** Whatever its kind, a type's printed object says by its field names exactly what the type declares. */
  lemma DeclRead(btf: Btf, id: nat, t: BtfType)
    requires t.Complete()
    ensures ReadDecl(TypeJson(btf, id, t)) == DeclOf(btf, id, t)
  {
    hide FieldIn, Btf.Name, BtfType.Kind, BtfType.Complete, Prologue, Details, DetailOf, ReadDetail, DistinctNames,
      NumIn, StrIn, KindFrom, KindBits, LengthBits, NameAt;
    InfoBits(t);
    NamesAgree(btf, t.nameOff);
    var ms := Prologue(btf, id, t) + Details(btf, t);
    var k := t.Kind();
    if !t.HasList() {
      PlainNamesUnique(btf, id, t);
      PlainRead(btf, id, t);
    } else {
      ListedFields(btf, id, t);
      if k == STRUCT || k == UNION {
        RecordRead(btf, id, t);
      } else if k == ENUM {
        EnumerationRead(btf, id, t);
      } else if k == ENUM64 {
        Enumeration64Read(btf, id, t);
      } else if k == FUNC_PROTO {
        PrototypeRead(btf, id, t);
      } else {
        SectionRead(btf, id, t);
      }
    }
    PrologueRead(btf, id, t, ms);
  }

  /** The declarations a reader of the whole dump finds. */
  function ReadDump(v: Value): seq<Decl> {
    var es := ListIn(MembersOf(v), "types");
    seq(|es|, i requires 0 <= i < |es| => ReadDecl(es[i]))
  }

  lemma DumpRead(btf: Btf, ids: seq<nat>)
    requires btf.Complete() && Known(btf, ids)
    ensures |ReadDump(DumpValue(btf, ids))| == |ids|
    ensures forall i: nat | i < |ids| :: ReadDump(DumpValue(btf, ids))[i] == DeclOf(btf, ids[i], btf.types[ids[i]])
  {
    hide ReadDecl, DeclOf, TypeJson, TypesJson, BtfType.Complete, FieldIn;
    FieldFound([Member("types", Arr(TypesJson(btf, ids)))], 0);
    forall i: nat | i < |ids|
      ensures ReadDecl(TypesJson(btf, ids)[i]) == DeclOf(btf, ids[i], btf.types[ids[i]])
    {
      OneElementPerType(btf, ids, i);
      DeclRead(btf, ids[i], btf.types[ids[i]]);
    }
  }

  /** The roots if there are any; otherwise every type past those of the base table, or past void. */
  function IdsToDump(btf: Btf, roots: seq<nat>): seq<nat> {
    var first := match btf.base case None => 1 case Some(n) => n;
    if |roots| > 0 then roots
    else seq(if first < |btf.types| then |btf.types| - first else 0, i requires i >= 0 => first + i)
  }

  lemma IdsAgree(btf: Btf, roots: seq<nat>)
    ensures DumpedIds(btf, roots) == IdsToDump(btf, roots)
  {
  }

  /** From the text of a dump with clean names, every dumped type's declaration can be read, in order: none is lost. */
  lemma DumpLossless(btf: Btf, roots: seq<nat>, pretty: bool)
    requires btf.Complete() && Known(btf, roots)
    requires forall i: nat | i < |DumpedIds(btf, roots)| :: CleanNames(btf, btf.types[DumpedIds(btf, roots)[i]])
    ensures
      var ids := IdsToDump(btf, roots);
      var read := ReadDocument(StackText(PutTop([InArray([])], DumpJson(btf, roots)), pretty) + "\n");
      && read.Some? && Known(btf, ids)
      && |ReadDump(read.value)| == |ids|
      && forall i: nat | i < |ids| :: ReadDump(read.value)[i] == DeclOf(btf, ids[i], btf.types[ids[i]])
  {
    hide ReadDocument, ReadDump, DeclOf, DumpValue, CleanNames, BtfType.Complete, StackText, PutTop, IdsToDump;
    IdsAgree(btf, roots);
    DumpReadsBack(btf, roots, pretty);
    DumpRead(btf, DumpedIds(btf, roots));
  }

  /** The dump command: what it prints, read by the grammar and by field names, gives the declarations back. */
  method DumpAndRead(btf: Btf, roots: seq<nat>, pretty: bool) returns (text: string)
    requires btf.Complete() && Known(btf, roots)
    requires forall t | t in btf.types :: CleanNames(btf, t)
    ensures Known(btf, IdsToDump(btf, roots)) && ReadDocument(text).Some?
    ensures ReadDump(ReadDocument(text).value)
            == seq(|IdsToDump(btf, roots)|, i requires 0 <= i < |IdsToDump(btf, roots)| =>
                 DeclOf(btf, IdsToDump(btf, roots)[i], btf.types[IdsToDump(btf, roots)[i]]))
  {
    hide ReadDocument, ReadDump, DeclOf, DumpValue, CleanNames, BtfType.Complete, IdsToDump;
    IdsAgree(btf, roots);
    text := Dump(btf, roots, pretty);
    DumpRead(btf, DumpedIds(btf, roots));
  }

  // ----- what a type must have, and the order of its fields

  /** The words that must follow a type: as many as its list has entries, times their width, or those of its kind. */
  lemma CompleteWords(t: BtfType)
    ensures t.Complete()
            <==> match KindBits(t)
                 case 1 => 1 <= |t.extra|
                 case 3 => 3 <= |t.extra|
                 case 4 => 3 * LengthBits(t) <= |t.extra|
                 case 5 => 3 * LengthBits(t) <= |t.extra|
                 case 6 => 2 * LengthBits(t) <= |t.extra|
                 case 13 => 2 * LengthBits(t) <= |t.extra|
                 case 14 => 1 <= |t.extra|
                 case 15 => 3 * LengthBits(t) <= |t.extra|
                 case 17 => 1 <= |t.extra|
                 case 19 => 3 * LengthBits(t) <= |t.extra|
                 case _ => true
  {
    hide BtfType.Kind, BtfType.Vlen, KindBits, LengthBits;
    InfoBits(t);
  }

  function Names(ms: seq<Member>): (names: seq<string>)
    ensures |names| == |ms|
  {
    seq(|ms|, i requires 0 <= i < |ms| => ms[i].name)
  }

  function FieldNames(t: BtfType): seq<string> {
    match KindBits(t)
    case 1 => ["size", "bits_offset", "nr_bits", "encoding"]
    case 2 => ["type_id"]
    case 3 => ["type_id", "index_type_id", "nr_elems"]
    case 4 => ["size", "vlen", "members"]
    case 5 => ["size", "vlen", "members"]
    case 6 => ["encoding", "size", "vlen", "values"]
    case 7 => ["fwd_kind"]
    case 8 => ["type_id"]
    case 9 => ["type_id"]
    case 10 => ["type_id"]
    case 11 => ["type_id"]
    case 12 => ["type_id", "linkage"]
    case 13 => ["ret_type_id", "vlen", "params"]
    case 14 => ["type_id", "linkage"]
    case 15 => ["size", "vlen", "vars"]
    case 16 => ["size"]
    case 17 => ["type_id", "component_idx"]
    case 18 => ["type_id"]
    case 19 => ["encoding", "size", "vlen", "values"]
    case _ => []
  }

  lemma PlainOrder(btf: Btf, t: BtfType)
    requires t.Complete() && !t.HasList()
    ensures Names(Details(btf, t)) == FieldNames(t)
  {
    hide BtfType.Kind, BtfType.Vlen, BtfType.Kflag, KindBits, EncodingName, LinkageName;
    InfoBits(t);
  }

  lemma ListedOrder(btf: Btf, t: BtfType)
    requires t.Complete() && t.HasList()
    ensures Names(Details(btf, t)) == FieldNames(t)
  {
    hide BtfType.Kind, BtfType.Vlen, BtfType.Kflag, KindBits, Entries, BtfType.Complete;
    InfoBits(t);
  }

  /** The fields of a type's object, in the order they are printed in. */
  lemma FieldOrder(btf: Btf, id: nat, t: BtfType)
    requires t.Complete()
    ensures Names(MembersOf(TypeJson(btf, id, t))) == ["id", "kind", "name"] + FieldNames(t)
  {
    hide Details, FieldNames, BtfType.Complete, BtfType.HasList;
    if t.HasList() {
      ListedOrder(btf, t);
    } else {
      PlainOrder(btf, t);
    }
  }
}
