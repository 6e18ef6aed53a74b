/**
 * JSON values, the text json_writer.c gives them, and a reader that follows the grammar of RFC 8259.
 * Text functions take the text that comes next (k), so that reading back needs no reassociation.
 */
module Json {
  import Utf8

  datatype Option<T> = None | Some(value: T)

  datatype Value = Num(n: int) | Str(s: string) | Obj(members: seq<Member>) | Arr(elems: seq<Value>)
  datatype Member = Member(name: string, value: Value)

  // ----- text

  /** jsonw_puts escapes seven characters; every other one is copied. */
  function Escape(c: char): string {
    if c == '\t' then "\\t"
    else if c == '\n' then "\\n"
    else if c == '\r' then "\\r"
    else if c == '\U{0C}' then "\\f"
    else if c == '\U{08}' then "\\b"
    else if c == '\\' then "\\\\"
    else if c == '"' then "\\\""
    else [c]
  }

  function Escaped(s: string, k: string): string {
    if s == "" then k else Escape(s[0]) + Escaped(s[1..], k)
  }

  function Quoted(s: string, k: string): string { "\"" + Escaped(s, "\"" + k) }

  function Digit(d: nat): char
    requires d < 10
  {
    ('0' as int + d) as char
  }

  function NatText(n: nat, k: string): string {
    if n < 10 then [Digit(n)] + k else NatText(n / 10, [Digit(n % 10)] + k)
  }

  function NumText(n: int, k: string): string { if n < 0 then "-" + NatText(-n, k) else NatText(n, k) }

  function Indent(d: nat, k: string): string { if d == 0 then k else "    " + Indent(d - 1, k) }

  /** A line end and indentation in pretty mode, nothing otherwise. */
  function Eol(p: bool, d: nat, k: string): string { if p then "\n" + Indent(d, k) else k }

  function Comma(first: bool, k: string): string { if first then k else "," + k }

  /** A member's name with all that stands around it. */
  function NameText(name: string, p: bool, d: nat, first: bool, k: string): string {
    Comma(first, Eol(p, d, Quoted(name, ":" + if p then " " + k else k)))
  }

  /** What ends a container at depth d: a non-empty one gets a line end first. */
  function Close(nonempty: bool, p: bool, d: nat, k: string): string { if nonempty then Eol(p, d, k) else k }

  function Text(v: Value, p: bool, d: nat, k: string): string
    decreases v
  {
    match v
    case Num(n) => NumText(n, k)
    case Str(s) => Quoted(s, k)
    case Obj(ms) => "{" + Members(ms, p, d + 1, true, Close(ms != [], p, d, "}" + k))
    case Arr(es) => "[" + Elements(es, p, d + 1, true, Close(es != [], p, d, "]" + k))
  }

  function Members(ms: seq<Member>, p: bool, d: nat, first: bool, k: string): string
    decreases ms
  {
    if ms == [] then k
    else NameText(ms[0].name, p, d, first, Text(ms[0].value, p, d, Members(ms[1..], p, d, false, k)))
  }

  function Elements(es: seq<Value>, p: bool, d: nat, first: bool, k: string): string
    decreases es
  {
    if es == [] then k else Comma(first, Text(es[0], p, d, Elements(es[1..], p, d, false, k)))
  }

  // ----- reader

  predicate White(c: char) { c == ' ' || c == '\t' || c == '\n' || c == '\r' }

  function Skip(s: string): (t: string)
    ensures |t| <= |s| && (t == "" || !White(t[0]))
  {
    if s != "" && White(s[0]) then Skip(s[1..]) else s
  }

  function Unescape(c: char): Option<char> {
    if c == 't' then Some('\t')
    else if c == 'n' then Some('\n')
    else if c == 'r' then Some('\r')
    else if c == 'f' then Some('\U{0C}')
    else if c == 'b' then Some('\U{08}')
    else if c == '\\' || c == '"' || c == '/' then Some(c)
    else None
  }

  /** RFC 8259 section 7: control characters must be escaped. */
  function ReadString(s: string): (r: Option<(string, string)>)
    ensures r.Some? ==> |r.value.1| < |s|
  {
    if s == "" then None
    else if s[0] == '"' then Some(("", s[1..]))
    else if s[0] < ' ' then None
    else if s[0] != '\\' then Prepend(s[0], ReadString(s[1..]))
    else if |s| == 1 || Unescape(s[1]).None? then None
    else Prepend(Unescape(s[1]).value, ReadString(s[2..]))
  }

  /** RFC 8259 section 8.1: the text is UTF-8.  Outside of strings the grammar has only ASCII, and escapes stand for
      ASCII characters, so this is decided string by string. */
  function ReadUtf8String(s: string): (r: Option<(string, string)>)
    ensures r.Some? ==> |r.value.1| < |s|
  {
    match ReadString(s)
    case None => None
    case Some((t, rest)) => if Utf8.Valid(t) then Some((t, rest)) else None
  }

  function Prepend(c: char, r: Option<(string, string)>): Option<(string, string)> {
    match r
    case None => None
    case Some((s, rest)) => Some(([c] + s, rest))
  }

  predicate IsDigit(c: char) { '0' <= c <= '9' }

  function ReadDigits(s: string, n: nat): (r: (nat, string))
    ensures |r.1| <= |s|
  {
    if s == "" || !IsDigit(s[0]) then (n, s) else ReadDigits(s[1..], 10 * n + (s[0] as int - '0' as int))
  }

  /** RFC 8259 section 6, integers only: no leading zero. */
  function ReadNat(s: string): (r: Option<(nat, string)>)
    ensures r.Some? ==> |r.value.1| < |s|
  {
    if s == "" || !IsDigit(s[0]) then None
    else if s[0] == '0' then Some((0, s[1..]))
    else Some(ReadDigits(s[1..], s[0] as int - '0' as int))
  }

  function Signed(negative: bool, n: nat): int { if negative then -(n as int) else n }

  function ReadNum(s: string): (r: Option<(Value, string)>)
    requires s != ""
    ensures r.Some? ==> |r.value.1| < |s|
  {
    var negative := s[0] == '-';
    match ReadNat(if negative then s[1..] else s)
    case None => None
    case Some((n, rest)) => Some((Num(Signed(negative, n)), rest))
  }

  function ReadValue(s: string): (r: Option<(Value, string)>)
    ensures r.Some? ==> |r.value.1| < |s|
    decreases |s|, 0
  {
    var t := Skip(s);
    if t == "" then None
    else if t[0] == '{' then
      match ReadMembers(t[1..], true)
      case None => None
      case Some((ms, rest)) => Some((Obj(ms), rest))
    else if t[0] == '[' then
      match ReadElements(t[1..], true)
      case None => None
      case Some((es, rest)) => Some((Arr(es), rest))
    else if t[0] == '"' then
      match ReadUtf8String(t[1..])
      case None => None
      case Some((name, rest)) => Some((Str(name), rest))
    else ReadNum(t)
  }

  function ReadMember(s: string): (r: Option<(Member, string)>)
    ensures r.Some? ==> |r.value.1| < |s|
    decreases |s|, 0
  {
    if s == "" || s[0] != '"' then None
    else match ReadUtf8String(s[1..])
      case None => None
      case Some((name, rest)) =>
        var t := Skip(rest);
        if t == "" || t[0] != ':' then None
        else match ReadValue(t[1..])
          case None => None
          case Some((v, rest')) => Some((Member(name, v), rest'))
  }

  /** Members up to the closing brace; each one but the first after a comma, and none after a trailing comma. */
  function ReadMembers(s: string, first: bool): (r: Option<(seq<Member>, string)>)
    ensures r.Some? ==> |r.value.1| < |s|
    decreases |s|, 1
  {
    var t := Skip(s);
    if t == "" then None
    else if t[0] == '}' then Some(([], t[1..]))
    else if !first && t[0] != ',' then None
    else match ReadMember(if first then t else Skip(t[1..]))
      case None => None
      case Some((m, rest)) =>
        match ReadMembers(rest, false)
        case None => None
        case Some((ms, rest')) => Some(([m] + ms, rest'))
  }

  function ReadElements(s: string, first: bool): (r: Option<(seq<Value>, string)>)
    ensures r.Some? ==> |r.value.1| < |s|
    decreases |s|, 1
  {
    var t := Skip(s);
    if t == "" then None
    else if t[0] == ']' then Some(([], t[1..]))
    else if !first && t[0] != ',' then None
    else match ReadValue(if first then t else t[1..])
      case None => None
      case Some((v, rest)) =>
        match ReadElements(rest, false)
        case None => None
        case Some((vs, rest')) => Some(([v] + vs, rest'))
  }

  /** A whole text is one value with nothing but white space around it. */
  function ReadDocument(s: string): Option<Value> {
    match ReadValue(s)
    case None => None
    case Some((v, rest)) => if Skip(rest) == "" then Some(v) else None
  }

  // ----- what can be read back

  /** Control characters other than the five jsonw_puts knows stay raw in its output. */
  predicate CleanChar(c: char) { c >= ' ' || c == '\t' || c == '\n' || c == '\r' || c == '\U{0C}' || c == '\U{08}' }

  predicate CleanChars(s: string) { forall i | 0 <= i < |s| :: CleanChar(s[i]) }

  /** Bytes that make up characters, none of them a raw control character. */
  predicate CleanString(s: string) { CleanChars(s) && Utf8.Valid(s) }

  /** Printable ASCII, like all names the dumpers choose themselves. */
  predicate Plain(s: string) { forall i | 0 <= i < |s| :: ' ' <= s[i] <= '~' }

  lemma PlainIsClean()
    ensures forall s | Plain(s) :: CleanString(s)
  {
    forall s | Plain(s) ensures CleanString(s) {
      Utf8.AsciiValid(s);
    }
  }

  predicate Clean(v: Value) {
    match v
    case Num(_) => true
    case Str(s) => CleanString(s)
    case Obj(ms) => CleanMembers(ms)
    case Arr(es) => CleanElements(es)
  }

  predicate CleanMembers(ms: seq<Member>) {
    ms == [] || (CleanString(ms[0].name) && Clean(ms[0].value) && CleanMembers(ms[1..]))
  }

  predicate CleanElements(es: seq<Value>) { es == [] || (Clean(es[0]) && CleanElements(es[1..])) }

  // ----- reading back what was written

  lemma {:induction false} SkipEol(p: bool, d: nat, k: string)
    ensures Skip(Eol(p, d, k)) == Skip(k)
  {
    if p { SkipIndent(d, k); }
  }

  lemma {:induction false} SkipIndent(d: nat, k: string)
    ensures Skip(Indent(d, k)) == Skip(k)
  {
    hide Skip;
    if d > 0 {
      SkipIndent(d - 1, k);
      SkipFour(Indent(d - 1, k));
    }
  }

  lemma SkipFour(k: string)
    ensures Skip("    " + k) == Skip(k)
  {
    hide Skip;
    var one := " " + k;
    var two := " " + one;
    var three := " " + two;
    SkipOne(k);
    SkipOne(one);
    SkipOne(two);
    SkipOne(three);
    assert "    " + k == " " + three;
  }

  lemma SkipOne(k: string)
    ensures Skip(" " + k) == Skip(k)
  {
    assert (" " + k)[1..] == k;
  }

  lemma ReadEscaped(s: string, k: string)
    ensures ReadUtf8String(Escaped(s, "\"" + k)) == if CleanString(s) then Some((s, k)) else None
  {
    ReadEscapedChars(s, k);
  }

  lemma {:induction false} ReadEscapedChars(s: string, k: string)
    ensures ReadString(Escaped(s, "\"" + k)) == if CleanChars(s) then Some((s, k)) else None
  {
    if s == "" {
      assert ("\"" + k)[1..] == k;
    } else {
      var rest := Escaped(s[1..], "\"" + k);
      ReadEscapedChars(s[1..], k);
      ReadEscapedChar(s[0], rest);
      assert [s[0]] + s[1..] == s;
      assert forall i | 1 <= i < |s| :: s[i] == s[1..][i - 1];
    }
  }

  lemma EscapeInverse(c: char)
    ensures |Escape(c)| == 1 ==> Escape(c) == [c] && c != '"' && c != '\\' && (CleanChar(c) <==> ' ' <= c)
    ensures |Escape(c)| != 1 ==>
      |Escape(c)| == 2 && Escape(c)[0] == '\\' && Unescape(Escape(c)[1]) == Some(c) && CleanChar(c)
  {
  }

  lemma ReadEscapedChar(c: char, rest: string)
    ensures ReadString(Escape(c) + rest) == if CleanChar(c) then Prepend(c, ReadString(rest)) else None
  {
    hide Escape, Unescape, CleanChar;
    EscapeInverse(c);
    var text := Escape(c) + rest;
    if |Escape(c)| == 1 {
      assert text[0] == c && text[1..] == rest;
    } else {
      assert text[0] == '\\' && text[1] == Escape(c)[1] && text[2..] == rest;
    }
  }

  predicate NoDigit(k: string) { k == "" || !IsDigit(k[0]) }

  /** The digits of n, read after nothing else, leave the reader at n. */
  lemma {:induction false} ReadNatDigits(n: nat, k: string)
    ensures var t := NatText(n, k);
      t != "" && IsDigit(t[0]) && (t[0] == '0' <==> n == 0)
      && ReadDigits(t[1..], t[0] as int - '0' as int) == ReadDigits(k, n)
  {
    if n < 10 {
      assert ([Digit(n)] + k)[1..] == k;
    } else {
      var next := [Digit(n % 10)] + k;
      ReadNatDigits(n / 10, next);
      assert next[1..] == k;
    }
  }

  lemma ReadNumText(n: int, k: string)
    requires NoDigit(k)
    ensures var t := NumText(n, k); t != "" && (t[0] == '-' || IsDigit(t[0])) && ReadNum(t) == Some((Num(n), k))
  {
    var m := if n < 0 then -n else n;
    ReadNatDigits(m, k);
    assert ("-" + NatText(m, k))[1..] == NatText(m, k);
    if m == 0 {
      assert NatText(0, k) == ['0'] + k && (['0'] + k)[1..] == k;
    }
  }

  /** A value reads back as itself, with the text after it left over, exactly when all its strings are clean. */
  lemma {:induction false} ReadText(v: Value, p: bool, d: nat, k: string)
    requires NoDigit(k)
    ensures ReadValue(Text(v, p, d, k)) == if Clean(v) then Some((v, k)) else None
    decreases v
  {
    hide ReadValue, ReadMembers, Members, ReadElements, Elements, Eol, Skip, Quoted, NumText, CleanString;
    match v
    case Num(n) =>
      ReadNumber(n, k);
    case Str(s) =>
      ReadQuoted(s, k);
    case Obj(ms) =>
      var end := Close(ms != [], p, d, "}" + k);
      CloseText(ms != [], p, d, '}', k);
      ReadMembersText(ms, p, d + 1, true, end, k);
      ReadBraces(Members(ms, p, d + 1, true, end));
    case Arr(es) =>
      var end := Close(es != [], p, d, "]" + k);
      CloseText(es != [], p, d, ']', k);
      ReadElementsText(es, p, d + 1, true, end, k);
      ReadBrackets(Elements(es, p, d + 1, true, end));
  }

  lemma ReadNumber(n: int, k: string)
    requires NoDigit(k)
    ensures ReadValue(NumText(n, k)) == Some((Num(n), k))
  {
    hide NumText;
    ReadNumText(n, k);
  }

  lemma ReadQuoted(s: string, k: string)
    ensures ReadValue(Quoted(s, k)) == if CleanString(s) then Some((Str(s), k)) else None
  {
    hide Escaped, CleanString;
    ReadEscaped(s, k);
    assert Quoted(s, k)[1..] == Escaped(s, "\"" + k);
  }

  lemma CloseText(nonempty: bool, p: bool, d: nat, c: char, k: string)
    requires c == '}' || c == ']'
    ensures var end := Close(nonempty, p, d, [c] + k); NoDigit(end) && Skip(end) == [c] + k
  {
    SkipEol(p, d, [c] + k);
  }

  lemma ReadBraces(body: string)
    ensures ReadValue("{" + body) ==
      match ReadMembers(body, true) case None => None case Some((ms, rest)) => Some((Obj(ms), rest))
  {
    hide ReadMembers;
    assert ("{" + body)[1..] == body;
  }

  lemma ReadBrackets(body: string)
    ensures ReadValue("[" + body) ==
      match ReadElements(body, true) case None => None case Some((es, rest)) => Some((Arr(es), rest))
  {
    hide ReadElements;
    assert ("[" + body)[1..] == body;
  }

  lemma {:induction false} ReadNameText(name: string, v: Value, p: bool, d: nat, k: string)
    requires NoDigit(k)
    requires ReadValue(Text(v, p, d, k)) == if Clean(v) then Some((v, k)) else None
    ensures var r := ReadMember(Quoted(name, ":" + if p then " " + Text(v, p, d, k) else Text(v, p, d, k)));
      r == if CleanString(name) && Clean(v) then Some((Member(name, v), k)) else None
  {
    var value := Text(v, p, d, k);
    var spaced := if p then " " + value else value;
    ReadEscaped(name, ":" + spaced);
    assert Quoted(name, ":" + spaced)[1..] == Escaped(name, "\"" + (":" + spaced));
    assert (":" + spaced)[1..] == spaced;
    SkipOne(value);
    assert Skip(spaced) == Skip(value);
    SkipFirst(spaced, value);
  }

  lemma SkipFirst(s: string, t: string)
    requires Skip(s) == Skip(t)
    ensures ReadValue(s) == ReadValue(t)
  {
  }

  function PrependMember(m: Member, r: Option<(seq<Member>, string)>): Option<(seq<Member>, string)> {
    match r
    case None => None
    case Some((ms, rest)) => Some(([m] + ms, rest))
  }

  /** One member's text, read where a member may stand. */
  lemma ReadFirstMember(named: string, p: bool, d: nat, first: bool)
    requires named != "" && named[0] == '"'
    ensures ReadMembers(Comma(first, Eol(p, d, named)), first) ==
      match ReadMember(named) case None => None case Some((m, rest)) => PrependMember(m, ReadMembers(rest, false))
    ensures NoDigit(Comma(first, Eol(p, d, named)))
  {
    hide ReadMember, Indent;
    SkipEol(p, d, named);
    assert Skip(named) == named;
    if first {
      assert Skip(Eol(p, d, named)) == named;
    } else {
      assert ("," + Eol(p, d, named))[1..] == Eol(p, d, named);
    }
  }

  lemma ReadNoMembers(end: string, first: bool, k: string)
    requires Skip(end) == "}" + k
    ensures ReadMembers(end, first) == Some(([], k))
  {
    hide ReadMember, Skip;
    assert ("}" + k)[1..] == k;
  }

  lemma {:induction false} ReadMembersText(ms: seq<Member>, p: bool, d: nat, first: bool, end: string, k: string)
    requires NoDigit(end) && Skip(end) == "}" + k
    ensures ReadMembers(Members(ms, p, d, first, end), first) == if CleanMembers(ms) then Some((ms, k)) else None
    ensures NoDigit(Members(ms, p, d, first, end))
    decreases ms
  {
    hide ReadMember, ReadMembers, ReadValue, Text, CleanString, Escaped, Skip, Eol, Comma;
    if ms == [] {
      ReadNoMembers(end, first, k);
    } else {
      var m, more := ms[0], Members(ms[1..], p, d, false, end);
      ReadMembersText(ms[1..], p, d, false, end, k);
      ReadText(m.value, p, d, more);
      ReadNameText(m.name, m.value, p, d, more);
      var value := Text(m.value, p, d, more);
      ReadFirstMember(Quoted(m.name, ":" + if p then " " + value else value), p, d, first);
      assert [m] + ms[1..] == ms;
    }
  }

  lemma {:induction false} ReadElementsText(es: seq<Value>, p: bool, d: nat, first: bool, end: string, k: string)
    requires NoDigit(end) && Skip(end) == "]" + k
    ensures ReadElements(Elements(es, p, d, first, end), first) == if CleanElements(es) then Some((es, k)) else None
    ensures first || NoDigit(Elements(es, p, d, first, end))
    decreases es
  {
    if es == [] {
      assert ("]" + k)[1..] == k;
    } else {
      var more := Elements(es[1..], p, d, false, end);
      ReadElementsText(es[1..], p, d, false, end, k);
      ReadText(es[0], p, d, more);
      var value := Text(es[0], p, d, more);
      TextStart(es[0], p, d, more);
      assert ("," + value)[1..] == value;
      assert [es[0]] + es[1..] == es;
    }
  }

  lemma TextStart(v: Value, p: bool, d: nat, k: string)
    ensures var t := Text(v, p, d, k); t != "" && !White(t[0]) && t[0] != ']' && Skip(t) == t
  {
    if v.Num? {
      ReadNatDigits(if v.n < 0 then -v.n else v.n, k);
    }
  }

  /** Exactly the values whose strings are clean come back from their text, line end included. */
  lemma DocumentReadsBack(v: Value, p: bool)
    ensures ReadDocument(Text(v, p, 0, "\n")) == if Clean(v) then Some(v) else None
    ensures ReadDocument(Text(v, p, 0, "")) == if Clean(v) then Some(v) else None
  {
    ReadText(v, p, 0, "\n");
    ReadText(v, p, 0, "");
  }

  predicate CleanMember(m: Member) { CleanString(m.name) && Clean(m.value) }

  lemma {:induction false} CleanMembersAll(ms: seq<Member>)
    ensures CleanMembers(ms) <==> forall i | 0 <= i < |ms| :: CleanMember(ms[i])
  {
    if ms != [] {
      CleanMembersAll(ms[1..]);
      assert forall i | 1 <= i < |ms| :: ms[i] == ms[1..][i - 1];
    }
  }

  lemma {:induction false} CleanElementsAll(es: seq<Value>)
    ensures CleanElements(es) <==> forall i | 0 <= i < |es| :: Clean(es[i])
  {
    if es != [] {
      CleanElementsAll(es[1..]);
      assert forall i | 1 <= i < |es| :: es[i] == es[1..][i - 1];
    }
  }

  /** RFC 8259 section 4: the names within an object should be unique. */
  predicate UniqueNames(v: Value) {
    match v
    case Num(_) => true
    case Str(_) => true
    case Obj(ms) =>
      && (forall i, j | 0 <= i < j < |ms| :: ms[i].name != ms[j].name)
      && forall i | 0 <= i < |ms| :: UniqueNames(ms[i].value)
    case Arr(es) => forall i | 0 <= i < |es| :: UniqueNames(es[i])
  }
}
