/** How JSON texts put together from complete parts are read: arrays joined with commas
    (the HTTP body, the disk and interface lists) and objects of quoted fields (the events). */
module JsonCompose {
  import opened Options
  import opened Json
  import opened Utf8Text

  /** `text` is one complete value with nothing after it. */
  ghost predicate Reads(text: string, v: Value) {
    ParseValue(text) == Some((v, ""))
  }

  function Join(items: seq<string>): string {
    if items == [] then ""
    else if |items| == 1 then items[0]
    else items[0] + "," + Join(items[1..])
  }

  lemma JoinFront(items: seq<string>, closer: string)
    requires items != []
    ensures Join(items) + closer ==
      items[0] + (if |items| == 1 then closer else "," + (Join(items[1..]) + closer))
  {
  }

  lemma {:induction false} JoinAppend(items: seq<string>, last: string)
    ensures Join(items + [last]) == if items == [] then last else Join(items) + "," + last
    decreases |items|
  {
    if |items| == 1 {
      assert (items + [last])[1..] == [last];
    } else if |items| > 1 {
      assert (items + [last])[1..] == items[1..] + [last];
      JoinAppend(items[1..], last);
      assert items[0] + "," + (Join(items[1..]) + "," + last) == items[0] + "," + Join(items[1..]) + "," + last;
    }
  }

  /** The items are whole value texts, so a comma-joined list closed by `]` reads back as exactly them. */
  lemma {:induction false} JoinedElementsRead(items: seq<string>, vs: seq<Value>, closer: string)
    requires |items| == |vs| > 0 && closer != "" && closer[0] == ']'
    requires forall i :: 0 <= i < |items| ==> Reads(items[i], vs[i])
    ensures ParseElements(Join(items) + closer) == Some((vs, closer[1..]))
    decreases |items|
  {
    JoinFront(items, closer);
    if |items| == 1 {
      ValueReads(items[0], vs[0], closer);
      assert SkipWs(closer) == closer;
      assert vs == [vs[0]];
    } else {
      var more := Join(items[1..]) + closer;
      var after := "," + more;
      ValueReads(items[0], vs[0], after);
      assert SkipWs(after) == after && after[1..] == more;
      JoinedElementsRead(items[1..], vs[1..], closer);
      assert vs == [vs[0]] + vs[1..];
    }
  }

  function ArrayText(items: seq<string>): string {
    "[" + Join(items) + "]"
  }

  lemma ArrayReads(items: seq<string>, vs: seq<Value>)
    requires |items| == |vs|
    requires forall i :: 0 <= i < |items| ==> Reads(items[i], vs[i])
    ensures Reads(ArrayText(items), Arr(vs))
  {
    var text := ArrayText(items);
    var inner := Join(items) + "]";
    assert text[1..] == inner;
    if items == [] {
      assert inner == "]" && inner[1..] == "";
    } else {
      JoinedElementsRead(items, vs, "]");
      ElementStarts(inner);
    }
  }

  /** An element list never starts with white space closed by `]`. */
  lemma ElementStarts(s: string)
    requires ParseElements(s).Some?
    ensures SkipWs(s) != "" && SkipWs(s)[0] != ']'
    ensures ParseElements(SkipWs(s)) == ParseElements(s)
  {
    SkipWsTwice(s);
    var t := SkipWs(s);
    if t != "" && t[0] == ']' {
      CloserIsNoValue(t);
    }
  }

  lemma CloserIsNoValue(t: string)
    requires t != "" && t[0] == ']'
    ensures ParseValue(t).None?
  {
    assert t[..0] == "";
    assert NumRun(t) == 0;
  }

  lemma {:induction false} SkipWsTwice(s: string)
    ensures SkipWs(SkipWs(s)) == SkipWs(s)
  {
  }

  /** A field name and a finished value text. */
  datatype Field = Field(name: string, value: string)

  function FieldText(f: Field): string {
    "\"" + f.name + "\":" + f.value
  }

  function FieldTexts(fs: seq<Field>): seq<string> {
    seq(|fs|, i requires 0 <= i < |fs| => FieldText(fs[i]))
  }

  function ObjectText(fs: seq<Field>): string {
    "{" + Join(FieldTexts(fs)) + "}"
  }

  /** `body` is a complete string body meaning `text`. */
  ghost predicate ReadsString(body: string, text: string) {
    ParseString(body + "\"") == Some((text, ""))
  }

  ghost predicate FieldReads(f: Field, m: (string, Value)) {
    ReadsString(f.name, m.0) && Reads(f.value, m.1)
  }

  ghost predicate FieldsRead(fs: seq<Field>, ms: seq<(string, Value)>) {
    |fs| == |ms| && forall i :: 0 <= i < |fs| ==> FieldReads(fs[i], ms[i])
  }

  lemma TailReads(fs: seq<Field>, ms: seq<(string, Value)>)
    requires fs != [] && FieldsRead(fs, ms)
    ensures FieldReads(fs[0], ms[0]) && FieldsRead(fs[1..], ms[1..])
  {
  }

  lemma FieldTextReads(f: Field, m: (string, Value), x: string)
    requires FieldReads(f, m) && Separates(m.1, "", x)
    ensures ParseMember(FieldText(f) + x) == Some((m, x))
  {
    var tail := ":" + f.value + x;
    FieldNameReads(f, m.0, x);
    FieldValueReads(f, m.1, x);
    MemberFrom(FieldText(f) + x, m.0, tail, m.1, x);
  }

  lemma FieldNameReads(f: Field, name: string, x: string)
    requires ReadsString(f.name, name)
    ensures var s := FieldText(f) + x;
      s[0] == '"' && ParseString(s[1..]) == Some((name, ":" + f.value + x))
  {
    FieldTextSplit(f, x);
    NameReads(f.name, name, ":" + f.value + x);
  }

  lemma FieldValueReads(f: Field, v: Value, x: string)
    requires Reads(f.value, v) && Separates(v, "", x)
    ensures var tail := ":" + f.value + x;
      tail[0] == ':' && ParseValue(tail[1..]) == Some((v, x))
  {
    assert (":" + f.value + x)[1..] == f.value + x;
    ValueReads(f.value, v, x);
  }

  lemma FieldTextSplit(f: Field, x: string)
    ensures var s, tail := FieldText(f) + x, ":" + f.value + x;
      s[0] == '"' && s[1..] == f.name + "\"" + tail
  {
  }

  lemma NameReads(name: string, text: string, tail: string)
    requires ReadsString(name, text)
    ensures ParseString(name + "\"" + tail) == Some((text, tail))
  {
    ParseStringExtends(name + "\"", tail);
    assert "" + tail == tail;
  }

  lemma ValueReads(value: string, v: Value, x: string)
    requires Reads(value, v) && Separates(v, "", x)
    ensures ParseValue(value + x) == Some((v, x))
  {
    ParseValueExtends(value, x);
    assert "" + x == x;
  }

  lemma MemberFrom(s: string, name: string, tail: string, v: Value, rest: string)
    requires s != "" && s[0] == '"' && ParseString(s[1..]) == Some((name, tail))
    requires tail != "" && tail[0] == ':' && ParseValue(tail[1..]) == Some((v, rest))
    ensures ParseMember(s) == Some(((name, v), rest))
  {
  }

  /** One more member in front of `}` or of the members after a comma. */
  lemma MembersFrom(s: string, m: (string, Value), after: string)
    requires ParseMember(s) == Some((m, after)) && after != "" && (after[0] == '}' || after[0] == ',')
    requires after[0] == ',' ==> ParseMembers(after[1..]).Some?
    ensures ParseMembers(s) ==
      if after[0] == '}' then Some(([m], after[1..]))
      else Some(([m] + ParseMembers(after[1..]).value.0, ParseMembers(after[1..]).value.1))
  {
  }

  lemma LastFieldReads(f: Field, m: (string, Value), closer: string)
    requires FieldReads(f, m) && closer != "" && closer[0] == '}'
    ensures ParseMembers(FieldText(f) + closer) == Some(([m], closer[1..]))
  {
    FieldTextReads(f, m, closer);
    MembersFrom(FieldText(f) + closer, m, closer);
  }

  lemma FrontFieldReads(f: Field, m: (string, Value), more: string)
    requires FieldReads(f, m) && ParseMembers(more).Some?
    ensures ParseMembers(FieldText(f) + ("," + more)) ==
      Some(([m] + ParseMembers(more).value.0, ParseMembers(more).value.1))
  {
    var after := "," + more;
    assert after[1..] == more;
    FieldTextReads(f, m, after);
    MembersFrom(FieldText(f) + after, m, after);
  }

  lemma FieldsFront(fs: seq<Field>, closer: string)
    requires fs != []
    ensures Join(FieldTexts(fs)) + closer ==
      FieldText(fs[0]) + (if |fs| == 1 then closer else "," + (Join(FieldTexts(fs[1..])) + closer))
  {
    JoinFront(FieldTexts(fs), closer);
    assert FieldTexts(fs)[1..] == FieldTexts(fs[1..]);
  }

  lemma {:induction false} JoinedFieldsRead(fs: seq<Field>, ms: seq<(string, Value)>, closer: string)
    requires fs != [] && FieldsRead(fs, ms) && closer != "" && closer[0] == '}'
    ensures ParseMembers(Join(FieldTexts(fs)) + closer) == Some((ms, closer[1..]))
    decreases |fs|
  {
    FieldsFront(fs, closer);
    if |fs| == 1 {
      LastFieldReads(fs[0], ms[0], closer);
      assert ms == [ms[0]];
    } else {
      TailReads(fs, ms);
      JoinedFieldsRead(fs[1..], ms[1..], closer);
      FieldAndTail(fs[0], ms, Join(FieldTexts(fs[1..])) + closer, closer[1..]);
    }
  }

  lemma FieldAndTail(f: Field, ms: seq<(string, Value)>, more: string, rest: string)
    requires ms != [] && FieldReads(f, ms[0]) && ParseMembers(more) == Some((ms[1..], rest))
    ensures ParseMembers(FieldText(f) + ("," + more)) == Some((ms, rest))
  {
    FrontFieldReads(f, ms[0], more);
    assert ms == [ms[0]] + ms[1..];
  }

  lemma ObjectReads(fs: seq<Field>, ms: seq<(string, Value)>)
    requires fs != [] && FieldsRead(fs, ms)
    ensures Reads(ObjectText(fs), Obj(ms))
  {
    var inner := Join(FieldTexts(fs)) + "}";
    assert ObjectText(fs)[1..] == inner;
    JoinedFieldsRead(fs, ms, "}");
    assert FieldText(fs[0])[0] == '"';
    assert inner[0] == '"' && SkipWs(inner) == inner;
  }

  function Quoted(body: string): string {
    "\"" + body + "\""
  }

  lemma QuotedReads(body: string, text: string)
    requires ReadsString(body, text)
    ensures Reads(Quoted(body), Str(text))
  {
    assert Quoted(body)[1..] == body + "\"";
  }

  /** No character that a string body would have to escape. */
  predicate Clean(s: string) {
    forall i :: 0 <= i < |s| ==> s[i] >= ' ' && s[i] != '"' && s[i] != '\\'
  }

  lemma {:induction false} CleanReads(s: string)
    requires Clean(s)
    ensures ReadsString(s, s)
    decreases |s|
  {
    var t := s + "\"";
    if s != "" {
      CleanReads(s[1..]);
      assert t[1..] == s[1..] + "\"";
      assert [s[0]] + s[1..] == s;
    }
  }

  // ----- bytes above 0x7F

  /** Commas and closers are ASCII, so joined texts decode exactly when each of them does. */
  lemma {:induction false} JoinIsUtf8(items: seq<string>, closer: string)
    requires closer != "" && IsAscii(closer)
    ensures Utf8Valid(Join(items) + closer) <==> forall i :: 0 <= i < |items| ==> Utf8Valid(items[i])
    decreases |items|
  {
    if items == [] {
      assert Join(items) + closer == closer;
      AsciiIsValid(closer);
    } else {
      JoinFront(items, closer);
      if |items| == 1 {
        ConcatIsValid(items[0], closer);
        AsciiIsValid(closer);
      } else {
        var more := Join(items[1..]) + closer;
        ConcatIsValid(items[0], "," + more);
        AsciiInFront(",", more);
        JoinIsUtf8(items[1..], closer);
        assert items == [items[0]] + items[1..];
      }
    }
  }

  lemma ArrayIsUtf8(items: seq<string>)
    ensures Utf8Valid(ArrayText(items)) <==> forall i :: 0 <= i < |items| ==> Utf8Valid(items[i])
  {
    assert ArrayText(items) == "[" + (Join(items) + "]");
    AsciiInFront("[", Join(items) + "]");
    JoinIsUtf8(items, "]");
  }

  lemma FieldIsUtf8(f: Field)
    ensures Utf8Valid(FieldText(f)) <==> Utf8Valid(f.name) && Utf8Valid(f.value)
  {
    var tail := "\":" + f.value;
    assert FieldText(f) == "\"" + (f.name + tail);
    AsciiInFront("\"", f.name + tail);
    ConcatIsValid(f.name, tail);
    AsciiInFront("\":", f.value);
  }

  lemma ObjectIsUtf8(fs: seq<Field>)
    ensures Utf8Valid(ObjectText(fs)) <==>
            forall i :: 0 <= i < |fs| ==> Utf8Valid(fs[i].name) && Utf8Valid(fs[i].value)
  {
    var texts := FieldTexts(fs);
    assert ObjectText(fs) == "{" + (Join(texts) + "}");
    AsciiInFront("{", Join(texts) + "}");
    JoinIsUtf8(texts, "}");
    forall i | 0 <= i < |fs|
      ensures Utf8Valid(texts[i]) <==> Utf8Valid(fs[i].name) && Utf8Valid(fs[i].value)
    {
      FieldIsUtf8(fs[i]);
    }
  }

  lemma QuotedIsUtf8(body: string)
    ensures Utf8Valid(Quoted(body)) <==> Utf8Valid(body)
  {
    assert Quoted(body) == "\"" + (body + "\"");
    AsciiInFront("\"", body + "\"");
    ConcatIsValid(body, "\"");
    AsciiIsValid("\"");
  }
}
