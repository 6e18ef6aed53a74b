/** Where the writer ends lines and how far it indents. */
module JsonLayout {
  import opened Json
  import opened JsonWriter

  /** Four spaces for each open container, and nothing else. */
  lemma {:induction false} IndentMeaning(d: nat)
    ensures |Indent(d, "")| == 4 * d && forall k | 0 <= k < 4 * d :: Indent(d, "")[k] == ' '
  {
    if d > 0 {
      IndentMeaning(d - 1);
      assert Indent(d, "") == "    " + Indent(d - 1, "");
    }
  }

  /** In pretty mode a line end goes before it; in compact mode nothing is written. */
  lemma LineEnd(d: nat, k: string)
    ensures Eol(false, d, k) == k
    ensures Eol(true, d, k) == "\n" + (Indent(d, "") + k)
  {
    IndentSplit(d, k);
  }

  lemma Tail(k: string)
    ensures Indent(0, k) == k && Indent(1, k) == "    " + k
  {
    assert Indent(1, k) == "    " + Indent(0, k);
  }

  lemma EscapedStep(s: string, k: string)
    ensures Escaped(s, k) == if s == "" then k else Escape(s[0]) + Escaped(s[1..], k)
  {
  }

  lemma ShortString(k: string)
    ensures Quoted("a", k) == "\"a\"" + k
  {
    EscapedStep("a", "\"" + k);
    EscapedStep("", "\"" + k);
  }

  lemma LastEscapes(k: string)
    ensures Escaped("\\\"", k) == "\\\\\\\"" + k
  {
    EscapedStep("", k);
    EscapedStep("\"", k);
    EscapedStep("\\\"", k);
  }

  lemma MoreEscapes(k: string)
    ensures Escaped("\n/\\\"", k) == "\\n/\\\\\\\"" + k
  {
    hide Escaped;
    LastEscapes(k);
    EscapedStep("/\\\"", k);
    EscapedStep("\n/\\\"", k);
  }

  lemma Escapes(k: string)
    ensures Escaped("\t\n/\\\"", k) == "\\t\\n/\\\\\\\"" + k
  {
    hide Escaped;
    MoreEscapes(k);
    EscapedStep("\t\n/\\\"", k);
  }

  /** Control characters, backslash and quote are escaped; a slash, say, is not. */
  lemma Strings(k: string)
    ensures Quoted("\t\n/\\\"", k) == "\"\\t\\n/\\\\\\\"\"" + k
  {
    hide Escaped;
    Escapes("\"" + k);
  }

  lemma Number(k: string)
    ensures NumText(-12, k) == "-12" + k
  {
    assert NatText(1, "2" + k) == "1" + ("2" + k);
    assert NatText(12, k) == NatText(1, "2" + k);
  }

  lemma List(p: bool, d: nat, k: string)
    ensures Text(Arr([Num(-12), Obj([])]), p, d, k) == "[-12,{}" + Eol(p, d, "]" + k)
  {
    hide Eol;
    var end := Eol(p, d, "]" + k);
    var es := [Num(-12), Obj([])];
    assert es[1..] == [Obj([])] && es[1..][1..] == [];
    assert Text(Obj([]), p, d + 1, end) == "{}" + end;
    assert Elements(es[1..][1..], p, d + 1, false, end) == end;
    assert Elements(es[1..], p, d + 1, false, end) == ",{}" + end;
    Number(",{}" + end);
    assert Elements(es, p, d + 1, true, end) == NumText(-12, ",{}" + end);
  }

  /** An object with one member, an array that holds a number and an empty object. */
  const SAMPLE: seq<Member> := [Member("a", Arr([Num(-12), Obj([])]))]

  lemma SampleParts(p: bool)
    ensures
      var close := Eol(p, 0, "}");
      var list := "[-12,{}" + Eol(p, 1, "]" + close);
      Text(Obj(SAMPLE), p, 0, "") == "{" + Eol(p, 1, "\"a\"" + (":" + if p then " " + list else list))
  {
    hide Eol, Quoted, Text;
    TextOfObject(p);
    var close := Eol(p, 0, "}");
    List(p, 1, close);
    ShortString(":" + if p then " " + Text(SAMPLE[0].value, p, 1, close) else Text(SAMPLE[0].value, p, 1, close));
  }

  lemma TextOfObject(p: bool)
    ensures Text(Obj(SAMPLE), p, 0, "")
            == "{" + NameText("a", p, 1, true, Text(SAMPLE[0].value, p, 1, Eol(p, 0, "}")))
  {
    hide NameText, Eol;
    var ms := SAMPLE;
    var close := Eol(p, 0, "}");
    assert "}" + "" == "}";
    assert Members(ms[1..], p, 1, false, close) == close;
    assert Members(ms, p, 1, true, close) == NameText("a", p, 1, true, Text(ms[0].value, p, 1, close));
  }

  /** Compact text has nothing between its tokens. */
  lemma CompactSample()
    ensures Text(Obj(SAMPLE), false, 0, "") == "{\"a\":[-12,{}]}"
  {
    hide Text;
    SampleParts(false);
  }

  lemma ListEnd()
    ensures "[-12,{}" + Eol(true, 1, "]" + Eol(true, 0, "}")) == "[-12,{}\n    ]\n}"
  {
    Tail("}");
    assert Eol(true, 0, "}") == "\n}";
    assert "]" + "\n}" == "]\n}";
    Tail("]\n}");
  }

  lemma MemberLine(list: string)
    ensures "{" + Eol(true, 1, "\"a\"" + (":" + (" " + list))) == "{\n    \"a\": " + list
  {
    Tail("\"a\"" + (":" + (" " + list)));
  }

  /** Pretty text has a line of its own for each member and for the bracket that ends a filled container, indented by
      four spaces a level; elements of an array stay on the line. */
  lemma PrettySample()
    ensures Text(Obj(SAMPLE), true, 0, "") == "{\n    \"a\": [-12,{}\n    ]\n}"
  {
    hide Text, Eol;
    SampleParts(true);
    ListEnd();
    MemberLine("[-12,{}\n    ]\n}");
  }
}
