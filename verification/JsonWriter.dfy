/** The streaming writer of json_writer.c: its ghost state is the JSON value under construction. */
module JsonWriter {
  import opened Json
  import opened Strings

  // ----- what has been written so far, as a stack of open containers

  /** An open array, or an open object that may be waiting for the value of a name. The bottom frame is the stream. */
  datatype Frame = InArray(elems: seq<Value>) | InObject(members: seq<Member>, pending: Option<string>)
  {
    predicate Accepts() { InArray? || pending.Some? }

    predicate Empty() { if InArray? then elems == [] else members == [] }

    function Put(v: Value): Frame
      requires Accepts()
    {
      if InArray? then InArray(elems + [v]) else InObject(members + [Member(pending.value, v)], None)
    }

    /** The comma due before whatever comes next in this frame. */
    function Lead(): string { if Empty() || (InObject? && pending.Some?) then "" else "," }

    function Bracket(): string { if InArray? then "[" else "{" }

    function Inner(p: bool, d: nat): string {
      if InArray? then Elements(elems, p, d, true, "")
      else
        Members(members, p, d, true, "")
        + if pending.None? then "" else NameText(pending.value, p, d, members == [], "")
    }
  }

  type Stack = s: seq<Frame> | s != [] && s[0].InArray? witness [InArray([])]

  function Top(s: Stack): Frame { s[|s| - 1] }

  function WithTop(s: Stack, f: Frame): Stack
    requires |s| == 1 ==> f.InArray?
  {
    s[|s| - 1 := f]
  }

  function PutTop(s: Stack, v: Value): Stack
    requires Top(s).Accepts()
  {
    WithTop(s, Top(s).Put(v))
  }

  function Pop(s: Stack): Stack
    requires |s| > 1
  {
    s[..|s| - 1]
  }

  function StackText(s: Stack, p: bool): string {
    if |s| == 1 then s[0].Inner(p, 0)
    else (StackText(Pop(s), p) + (Top(Pop(s)).Lead() + Top(s).Bracket())) + Top(s).Inner(p, |s| - 1)
  }

  // ----- the text of a prefix does not depend on what follows

  lemma {:induction false} EscapedSplit(s: string, k: string)
    ensures Escaped(s, k) == Escaped(s, "") + k
  {
    if s != "" {
      EscapedSplit(s[1..], k);
      Assoc(Escape(s[0]), Escaped(s[1..], ""), k);
    }
  }

  lemma QuotedSplit(s: string, k: string)
    ensures Quoted(s, k) == Quoted(s, "") + k
  {
    EscapedSplit(s, "\"" + k);
    EscapedSplit(s, "\"" + "");
    Assoc(Escaped(s, ""), "\"", k);
  }

  lemma {:induction false} NatTextSplit(n: nat, k: string)
    ensures NatText(n, k) == NatText(n, "") + k
  {
    if n >= 10 {
      var d := [Digit(n % 10)];
      NatTextSplit(n / 10, d + k);
      NatTextSplit(n / 10, d + "");
      assert d + "" == d;
      Assoc(NatText(n / 10, ""), d, k);
    }
  }

  lemma NumTextSplit(n: int, k: string)
    ensures NumText(n, k) == NumText(n, "") + k
  {
    NatTextSplit(if n < 0 then -n else n, k);
  }

  lemma {:induction false} IndentSplit(d: nat, k: string)
    ensures Indent(d, k) == Indent(d, "") + k
  {
    if d > 0 {
      IndentSplit(d - 1, k);
      Assoc("    ", Indent(d - 1, ""), k);
    }
  }

  lemma EolSplit(p: bool, d: nat, k: string)
    ensures Eol(p, d, k) == Eol(p, d, "") + k
  {
    IndentSplit(d, k);
    Assoc("\n", Indent(d, ""), k);
  }

  lemma NameTextSplit(name: string, p: bool, d: nat, first: bool, k: string)
    ensures NameText(name, p, d, first, k) == NameText(name, p, d, first, "") + k
  {
    var sp := if p then " " else "";
    var colon := ":" + sp;
    assert ":" + (if p then " " + k else k) == colon + k && ":" + (if p then " " + "" else "") == colon;
    QuotedSplit(name, colon + k);
    QuotedSplit(name, colon);
    Assoc(Quoted(name, ""), colon, k);
    EolSplit(p, d, Quoted(name, colon + k));
    EolSplit(p, d, Quoted(name, colon));
    Assoc(Eol(p, d, ""), Quoted(name, colon), k);
    Assoc(",", Eol(p, d, Quoted(name, colon)), k);
  }

  lemma {:induction false} TextSplit(v: Value, p: bool, d: nat, k: string)
    ensures Text(v, p, d, k) == Text(v, p, d, "") + k
    decreases v
  {
    match v
    case Num(n) => NumTextSplit(n, k);
    case Str(s) => QuotedSplit(s, k);
    case Obj(ms) =>
      CloseSplit(ms != [], p, d, "}", k);
      var end := Close(ms != [], p, d, "}");
      MembersSplit(ms, p, d + 1, true, end + k);
      MembersSplit(ms, p, d + 1, true, end);
      Assoc(Members(ms, p, d + 1, true, ""), end, k);
      assert "}" + "" == "}";
      Assoc("{", Members(ms, p, d + 1, true, end), k);
    case Arr(es) =>
      CloseSplit(es != [], p, d, "]", k);
      var end := Close(es != [], p, d, "]");
      ElementsSplit(es, p, d + 1, true, end + k);
      ElementsSplit(es, p, d + 1, true, end);
      Assoc(Elements(es, p, d + 1, true, ""), end, k);
      assert "]" + "" == "]";
      Assoc("[", Elements(es, p, d + 1, true, end), k);
  }

  lemma CloseSplit(nonempty: bool, p: bool, d: nat, c: string, k: string)
    ensures Close(nonempty, p, d, c + k) == Close(nonempty, p, d, c) + k
  {
    EolSplit(p, d, c + k);
    EolSplit(p, d, c);
    Assoc(Eol(p, d, ""), c, k);
  }

  lemma {:induction false} MembersSplit(ms: seq<Member>, p: bool, d: nat, first: bool, k: string)
    ensures Members(ms, p, d, first, k) == Members(ms, p, d, first, "") + k
    decreases ms
  {
    if ms != [] {
      var rest, rest' := Members(ms[1..], p, d, false, k), Members(ms[1..], p, d, false, "");
      var v, v' := Text(ms[0].value, p, d, rest), Text(ms[0].value, p, d, rest');
      MembersSplit(ms[1..], p, d, false, k);
      TextSplit(ms[0].value, p, d, rest);
      TextSplit(ms[0].value, p, d, rest');
      Assoc(Text(ms[0].value, p, d, ""), rest', k);
      NameTextSplit(ms[0].name, p, d, first, v);
      NameTextSplit(ms[0].name, p, d, first, v');
      Assoc(NameText(ms[0].name, p, d, first, ""), v', k);
    }
  }

  lemma {:induction false} ElementsSplit(es: seq<Value>, p: bool, d: nat, first: bool, k: string)
    ensures Elements(es, p, d, first, k) == Elements(es, p, d, first, "") + k
    decreases es
  {
    if es != [] {
      var rest, rest' := Elements(es[1..], p, d, false, k), Elements(es[1..], p, d, false, "");
      ElementsSplit(es[1..], p, d, false, k);
      TextSplit(es[0], p, d, rest);
      TextSplit(es[0], p, d, rest');
      Assoc(Text(es[0], p, d, ""), rest', k);
      Assoc(",", Text(es[0], p, d, rest'), k);
    }
  }

  // ----- one more member, one more element

  lemma {:induction false} MembersAppend(ms: seq<Member>, m: Member, p: bool, d: nat, first: bool, k: string)
    ensures Members(ms + [m], p, d, first, k) == Members(ms, p, d, first, Members([m], p, d, first && ms == [], k))
    decreases ms
  {
    if ms == [] {
      assert ms + [m] == [m];
    } else {
      assert (ms + [m])[1..] == ms[1..] + [m];
      MembersAppend(ms[1..], m, p, d, false, k);
    }
  }

  lemma {:induction false} ElementsAppend(es: seq<Value>, e: Value, p: bool, d: nat, first: bool, k: string)
    ensures Elements(es + [e], p, d, first, k) == Elements(es, p, d, first, Elements([e], p, d, first && es == [], k))
    decreases es
  {
    if es == [] {
      assert es + [e] == [e];
    } else {
      assert (es + [e])[1..] == es[1..] + [e];
      ElementsAppend(es[1..], e, p, d, false, k);
    }
  }

  lemma PutElement(es: seq<Value>, v: Value, p: bool, d: nat)
    ensures Elements(es + [v], p, d, true, "")
      == Elements(es, p, d, true, "") + ((if es == [] then "" else ",") + Text(v, p, d, ""))
  {
    hide Text;
    ElementsAppend(es, v, p, d, true, "");
    var one := Elements([v], p, d, es == [], "");
    ElementsSplit(es, p, d, true, one);
    assert one == (if es == [] then "" else ",") + Text(v, p, d, "");
  }

  lemma PutMember(ms: seq<Member>, m: Member, p: bool, d: nat)
    ensures Members(ms + [m], p, d, true, "")
      == (Members(ms, p, d, true, "") + NameText(m.name, p, d, ms == [], "")) + Text(m.value, p, d, "")
  {
    hide Text, NameText;
    var text := Text(m.value, p, d, "");
    MembersAppend(ms, m, p, d, true, "");
    var one := Members([m], p, d, ms == [], "");
    assert one == NameText(m.name, p, d, ms == [], text);
    MembersSplit(ms, p, d, true, one);
    NameTextSplit(m.name, p, d, ms == [], text);
    Assoc(Members(ms, p, d, true, ""), NameText(m.name, p, d, ms == [], ""), text);
  }

  /** A value put into a frame extends its text by the comma that is due and the value's own text. */
  lemma PutText(f: Frame, v: Value, p: bool, d: nat)
    requires f.Accepts()
    ensures f.Put(v).Inner(p, d) == f.Inner(p, d) + (f.Lead() + Text(v, p, d, ""))
  {
    hide Elements, Members, NameText, Text;
    if f.InArray? {
      PutElement(f.elems, v, p, d);
    } else {
      PutMember(f.members, Member(f.pending.value, v), p, d);
    }
  }

  lemma PutTopText(s: Stack, v: Value, p: bool)
    requires Top(s).Accepts()
    ensures StackText(PutTop(s, v), p) == StackText(s, p) + (Top(s).Lead() + Text(v, p, |s| - 1, ""))
  {
    var t := PutTop(s, v);
    PutText(Top(s), v, p, |s| - 1);
    if |s| > 1 {
      assert Pop(t) == Pop(s);
      Assoc(StackText(Pop(s), p) + (Top(Pop(s)).Lead() + Top(s).Bracket()), Top(s).Inner(p, |s| - 1),
        Top(s).Lead() + Text(v, p, |s| - 1, ""));
    }
  }

  /** The value an open container becomes when it is closed. */
  function Closed(f: Frame): Value
    requires f.InObject? ==> f.pending.None?
  {
    if f.InArray? then Arr(f.elems) else Obj(f.members)
  }

  function CloseBracket(f: Frame): string { if f.InArray? then "]" else "}" }

  /** Closing the top container leaves the text of its parent with the finished value put in. */
  lemma CloseTopText(s: Stack, p: bool)
    requires |s| > 1 && Top(Pop(s)).Accepts() && (Top(s).InObject? ==> Top(s).pending.None?)
    ensures StackText(PutTop(Pop(s), Closed(Top(s))), p)
      == StackText(s, p) + Close(!Top(s).Empty(), p, |s| - 2, CloseBracket(Top(s)))
  {
    hide Close, Text, Frame.Inner, Frame.Lead, Frame.Bracket, CloseBracket, Frame.Empty;
    var f, d := Top(s), |s| - 2;
    var before, lead := StackText(Pop(s), p), Top(Pop(s)).Lead();
    var inner, end := f.Inner(p, d + 1), Close(!f.Empty(), p, d, CloseBracket(f));
    PutTopText(Pop(s), Closed(f), p);
    ClosedText(f, p, d);
    Assoc(before, lead + f.Bracket(), inner);
    Assoc(before, (lead + f.Bracket()) + inner, end);
    Assoc(lead, f.Bracket(), inner);
    Assoc(lead, f.Bracket() + inner, end);
    Assoc(f.Bracket(), inner, end);
  }

  lemma ClosedText(f: Frame, p: bool, d: nat)
    requires f.InObject? ==> f.pending.None?
    ensures Text(Closed(f), p, d, "") == f.Bracket() + (f.Inner(p, d + 1) + Close(!f.Empty(), p, d, CloseBracket(f)))
  {
    var end := Close(!f.Empty(), p, d, CloseBracket(f));
    assert CloseBracket(f) + "" == CloseBracket(f);
    if f.InArray? {
      ElementsSplit(f.elems, p, d + 1, true, end);
    } else {
      MembersSplit(f.members, p, d + 1, true, end);
      assert f.Inner(p, d + 1) == Members(f.members, p, d + 1, true, "");
    }
  }

  // ----- the writer

  class Writer {
    var out: string
    var depth: nat
    const pretty: bool
    var sep: char
    ghost var stack: Stack

    ghost predicate Valid()
      reads this
    {
      && depth == |stack| - 1
      && out == StackText(stack, pretty)
      && sep == (if Top(stack).Lead() == "" then '\0' else ',')
      && forall k | 0 <= k < depth :: stack[k].Accepts()
    }

    /** jsonw_new, and jsonw_pretty before anything is written. */
    constructor (pretty: bool)
      ensures Valid() && stack == [InArray([])] && this.pretty == pretty
    {
      this.pretty := pretty;
      out := "";
      depth := 0;
      sep := '\0';
      stack := [InArray([])];
    }

    method Putc(s: string)
      modifies this`out
      ensures out == old(out) + s
    {
      out := out + s;
    }

    /** jsonw_eor */
    method Eor()
      modifies this`out, this`sep
      ensures out == old(out) + (if old(sep) == '\0' then "" else [old(sep)]) && sep == ','
    {
      if sep != '\0' {
        Putc([sep]);
      }
      sep := ',';
    }

    /** jsonw_eol and jsonw_indent */
    method EndLine()
      modifies this`out
      ensures out == old(out) + Eol(pretty, depth, "")
    {
      if !pretty {
        return;
      }
      Putc("\n");
      var i := 0;
      ghost var start := out;
      while i < depth
        invariant 0 <= i <= depth
        invariant out == start + Indent(i, "")
      {
        IndentSplit(i, "    ");
        IndentSnoc(i);
        Assoc(start, Indent(i, ""), "    ");
        Putc("    ");
        i := i + 1;
      }
      Assoc(old(out), "\n", Indent(depth, ""));
    }

    /** jsonw_name */
    method Name(name: string)
      requires Valid() && Top(stack).InObject? && Top(stack).pending.None?
      modifies this`out, this`sep, this`stack
      ensures Valid()
      ensures stack == WithTop(old(stack), InObject(Top(old(stack)).members, Some(name)))
    {
      hide StackText, NameText;
      ghost var f := Top(stack);
      PutName(name);
      NamedText(stack, name, pretty);
      stack := WithTop(stack, InObject(f.members, Some(name)));
    }

    method PutName(name: string)
      requires sep == '\0' || sep == ','
      modifies this`out, this`sep
      ensures out == old(out) + NameText(name, pretty, depth, old(sep) == '\0', "") && sep == '\0'
    {
      hide Eol, Quoted, NameText;
      Eor();
      EndLine();
      sep := '\0';
      Putc(Quoted(name, ""));
      Putc(":");
      if pretty {
        Putc(" ");
      }
      ghost var first := old(sep) == '\0';
      NameTextParts(old(out), name, pretty, depth, first);
    }

    /** jsonw_begin */
    method Begin(ghost f: Frame, c: string)
      requires Valid() && Top(stack).Accepts()
      requires c == f.Bracket() && (f == InArray([]) || f == InObject([], None))
      modifies this`out, this`sep, this`stack, this`depth
      ensures Valid() && stack == old(stack) + [f]
    {
      hide StackText, Frame.Inner;
      Eor();
      Putc(c);
      depth := depth + 1;
      sep := '\0';
      stack := stack + [f];
      PushText(old(stack), f, pretty);
      Assoc(old(out), Top(old(stack)).Lead(), c);
    }

    /** jsonw_end */
    method End(c: string)
      requires Valid() && |stack| > 1 && c == CloseBracket(Top(stack))
      requires Top(stack).InObject? ==> Top(stack).pending.None?
      modifies this`out, this`sep, this`stack, this`depth
      ensures Valid() && stack == PutTop(Pop(old(stack)), Closed(Top(old(stack))))
    {
      hide StackText, Eol;
      depth := depth - 1;
      if sep != '\0' {
        EndLine();
      }
      Putc(c);
      sep := ',';
      CloseTopText(stack, pretty);
      EolSplit(pretty, depth, c);
      Assoc(old(out), Eol(pretty, depth, ""), c);
      stack := PutTop(Pop(stack), Closed(Top(stack)));
    }

    method StartObject()
      requires Valid() && Top(stack).Accepts()
      modifies this`out, this`sep, this`stack, this`depth
      ensures Valid() && stack == old(stack) + [InObject([], None)]
    {
      Begin(InObject([], None), "{");
    }

    method EndObject()
      requires Valid() && |stack| > 1 && Top(stack).InObject? && Top(stack).pending.None?
      modifies this`out, this`sep, this`stack, this`depth
      ensures Valid() && stack == PutTop(Pop(old(stack)), Obj(Top(old(stack)).members))
    {
      End("}");
    }

    method StartArray()
      requires Valid() && Top(stack).Accepts()
      modifies this`out, this`sep, this`stack, this`depth
      ensures Valid() && stack == old(stack) + [InArray([])]
    {
      Begin(InArray([]), "[");
    }

    method EndArray()
      requires Valid() && |stack| > 1 && Top(stack).InArray?
      modifies this`out, this`sep, this`stack, this`depth
      ensures Valid() && stack == PutTop(Pop(old(stack)), Arr(Top(old(stack)).elems))
    {
      End("]");
    }

    /** jsonw_string, jsonw_uint and jsonw_int */
    method Scalar(v: Value)
      requires Valid() && Top(stack).Accepts() && (v.Num? || v.Str?)
      modifies this`out, this`sep, this`stack
      ensures Valid() && stack == PutTop(old(stack), v)
    {
      hide StackText;
      Eor();
      ghost var text := Text(v, pretty, depth, "");
      Putc(match v case Num(n) => NumText(n, "") case Str(s) => Quoted(s, ""));
      PutTopText(stack, v, pretty);
      Assoc(old(out), Top(stack).Lead(), text);
      stack := PutTop(stack, v);
    }

    /** jsonw_string_field, jsonw_uint_field and jsonw_int_field */
    method Field(name: string, v: Value)
      requires Valid() && Top(stack).InObject? && Top(stack).pending.None? && (v.Num? || v.Str?)
      modifies this`out, this`sep, this`stack
      ensures Valid()
      ensures stack == WithTop(old(stack), InObject(Top(old(stack)).members + [Member(name, v)], None))
    {
      Name(name);
      Scalar(v);
    }
  }

  /** A container just opened adds the comma that is due and its bracket. */
  lemma PushText(s: Stack, f: Frame, p: bool)
    requires f == InArray([]) || f == InObject([], None)
    ensures StackText(s + [f], p) == StackText(s, p) + (Top(s).Lead() + f.Bracket())
  {
    assert Pop(s + [f]) == s;
    assert f.Inner(p, |s|) == "";
  }

  lemma {:induction false} IndentSnoc(i: nat)
    ensures Indent(i + 1, "") == Indent(i, "    ")
  {
    if i > 0 { IndentSnoc(i - 1); }
  }

  /** The pieces jsonw_name writes after any text make up a NameText. */
  lemma NameTextParts(before: string, name: string, p: bool, d: nat, first: bool)
    ensures var parts := before + (if first then "" else ",") + Eol(p, d, "") + Quoted(name, "") + ":";
      before + NameText(name, p, d, first, "") == if p then parts + " " else parts
  {
    hide Eol, Quoted;
    var colon := if p then ":" + " " else ":";
    var eol, quoted, lead := Eol(p, d, ""), Quoted(name, ""), if first then "" else ",";
    assert ":" + (if p then " " + "" else "") == colon;
    QuotedSplit(name, colon);
    EolSplit(p, d, Quoted(name, colon));
    assert NameText(name, p, d, first, "") == lead + (eol + (quoted + colon));
    Assoc(before, lead, eol + (quoted + colon));
    Assoc(before + lead, eol, quoted + colon);
    Assoc(before + lead + eol, quoted, colon);
    Assoc(before + lead + eol + quoted, ":", " ");
  }

  /** A pending name extends the text by exactly its NameText. */
  lemma NamedText(s: Stack, name: string, p: bool)
    requires Top(s).InObject? && Top(s).pending.None?
    ensures var f := Top(s);
      StackText(WithTop(s, InObject(f.members, Some(name))), p)
      == StackText(s, p) + NameText(name, p, |s| - 1, f.members == [], "")
  {
    var f := Top(s);
    var t := WithTop(s, InObject(f.members, Some(name)));
    assert Pop(t) == Pop(s);
    assert Members(f.members, p, |s| - 1, true, "") + "" == Members(f.members, p, |s| - 1, true, "");
    Assoc(StackText(Pop(s), p) + (Top(Pop(s)).Lead() + Top(s).Bracket()), f.Inner(p, |s| - 1),
      NameText(name, p, |s| - 1, f.members == [], ""));
  }
}
