/** Device names go into the disk and network events unescaped.  An event reads back as the
    list it was made from exactly when every name could stand in a JSON string as it is. */
module RawNames {
  import opened Decimal
  import opened Json
  import opened JsonCompose
  import opened MetricEvents
  import opened Options

  /** What a reader can make of a raw text `t` in a string: less than the text, the whole of a clean
      text, or something that runs past an escaped closing quote up to the comma behind it. */
  predicate ReadAs(t: string, x: string) {
    || |x| < |t|
    || (x == t && Clean(t))
    || (x != "" && x[|x| - 1] == ',' && t != "" && t[|t| - 1] == '\\')
  }

  /** A raw text read as a string body that is followed by another member. */
  lemma {:induction false} RawStringEnds(t: string, more: string)
    requires ParseString(t + "\",\"" + more).Some?
    ensures ReadAs(t, ParseString(t + "\",\"" + more).value.0)
    decreases |t|
  {
    var s := t + "\",\"" + more;
    if t != "" && t[0] != '"' {
      var (u, n) := Unit(s).value;
      if n <= |t| {
        assert s[n..] == t[n..] + "\",\"" + more;
        RawStringEnds(t[n..], more);
        UnitShrinks(s);
        UnitAndRest(t, u, n, ParseString(s[n..]).value.0);
      } else {
        EscapedQuote(t, more);
      }
    }
  }

  lemma UnitAndRest(t: string, u: string, n: nat, x: string)
    requires 0 < n <= |t| && ReadAs(t[n..], x)
    requires if n == 1 then u == [t[0]] && Clean(u) else |u| < n
    ensures ReadAs(t, u + x)
  {
    if n == 1 {
      assert t == [t[0]] + t[1..];
    }
  }

  lemma UnitShrinks(s: string)
    requires s != "" && Unit(s).Some?
    ensures var (u, n) := Unit(s).value;
      if n == 1 then u == [s[0]] && Clean(u) else |u| < n
  {
  }

  /** The only escape that reaches beyond the text is its last backslash with the quote. */
  lemma EscapedQuote(t: string, more: string)
    requires t != "" && t[0] != '"'
    requires Unit(t + "\",\"" + more).Some? && Unit(t + "\",\"" + more).value.1 > |t|
    requires ParseString(t + "\",\"" + more).Some?
    ensures t == "\\" && ParseString(t + "\",\"" + more).value.0 == "\","
  {
    var s := t + "\",\"" + more;
    assert s[0] == t[0] && s[|t|] == '"';
    assert t[0] == '\\';
    assert s[2..] == ",\"" + more;
    assert s[2..][1..] == "\"" + more;
    assert ParseString("\"" + more) == Some(("", more));
  }

  lemma RawStringIsClean(name: string, more: string)
    requires ParseString(name + "\",\"" + more).Some? && ParseString(name + "\",\"" + more).value.0 == name
    ensures Clean(name)
  {
    RawStringEnds(name, more);
  }

  // ----- from the value of a whole text back to its parts

  lemma MemberStarts(name: string, value: string)
    requires Clean(name) && ParseMember("\"" + name + "\":" + value).Some?
    ensures var (m, rest) := ParseMember("\"" + name + "\":" + value).value;
      m.0 == name && ParseValue(value) == Some((m.1, rest))
  {
    var s, tail := "\"" + name + "\":" + value, ":" + value;
    FieldTextSplit(Field(name, value), "");
    assert s + "" == s && tail + "" == tail && tail[1..] == value;
    CleanReads(name);
    NameReads(name, name, tail);
  }

  lemma MembersStart(s: string)
    requires ParseMembers(s).Some?
    ensures ParseMember(s).Some? && ParseMember(s).value.0 == ParseMembers(s).value.0[0]
  {
  }

  lemma ObjectStarts(inner: string)
    requires inner != "" && inner[0] == '"'
    ensures ParseValue("{" + inner) ==
      match ParseMembers(inner) case None => None case Some((ms, rest)) => Some((Obj(ms), rest))
  {
    assert ("{" + inner)[1..] == inner;
  }

  lemma ArrayStarts(inner: string)
    requires inner != "" && inner[0] == '{'
    ensures ParseValue("[" + inner) ==
      match ParseElements(inner) case None => None case Some((vs, rest)) => Some((Arr(vs), rest))
  {
    assert ("[" + inner)[1..] == inner;
  }

  /** The value of an object's first member is the value of the text behind its name. */
  lemma FirstMemberValue(name: string, value: string)
    requires Clean(name) && ParseValue("{" + ("\"" + name + "\":" + value)).Some?
    ensures var v := ParseValue("{" + ("\"" + name + "\":" + value)).value.0;
      && v.Obj? && v.members != []
      && ParseValue(value).Some? && ParseValue(value).value.0 == v.members[0].1
  {
    var s := "\"" + name + "\":" + value;
    ObjectStarts(s);
    MembersStart(s);
    MemberStarts(name, value);
  }

  lemma StringStarts(body: string)
    requires ParseValue("\"" + body).Some?
    ensures ParseString(body).Some? && ParseValue("\"" + body).value.0 == Str(ParseString(body).value.0)
  {
    assert ("\"" + body)[1..] == body;
  }

  /** What stands behind known members decides the rest. */
  lemma {:induction false} MembersAfter(fs: seq<Field>, ms: seq<(string, Value)>, tail: string)
    requires fs != [] && FieldsRead(fs, ms)
    requires ParseMembers(Join(FieldTexts(fs)) + ("," + tail)).Some?
    ensures ParseMembers(tail).Some?
    ensures ParseMembers(Join(FieldTexts(fs)) + ("," + tail)).value.0 == ms + ParseMembers(tail).value.0
    decreases |fs|
  {
    TailReads(fs, ms);
    if |fs| == 1 {
      assert Join(FieldTexts(fs)) == FieldText(fs[0]);
      MemberAndMore(fs[0], ms[0], tail);
      assert ms == [ms[0]];
    } else {
      var more := Join(FieldTexts(fs[1..])) + ("," + tail);
      FieldsFront(fs, "," + tail);
      MemberAndMore(fs[0], ms[0], more);
      MembersAfter(fs[1..], ms[1..], tail);
      SplitFirst(ms, ParseMembers(tail).value.0);
    }
  }

  lemma SplitFirst<T>(ms: seq<T>, rest: seq<T>)
    requires ms != []
    ensures ms + rest == [ms[0]] + (ms[1..] + rest)
  {
  }

  lemma MemberAndMore(f: Field, m: (string, Value), more: string)
    requires FieldReads(f, m) && ParseMembers(FieldText(f) + ("," + more)).Some?
    ensures ParseMembers(more).Some?
    ensures ParseMembers(FieldText(f) + ("," + more)).value.0 == [m] + ParseMembers(more).value.0
  {
    var after := "," + more;
    FieldTextReads(f, m, after);
    assert SkipWs(after) == after && after[1..] == more;
  }

  // ----- entries

  lemma EntryOpens(kind: Kind, e: Entry) returns (more: string)
    ensures EntryText(kind, e) == "{" + ("\"" + "name" + "\":" + ("\"" + (e.name + "\",\"" + more)))
  {
    var texts := FieldTexts(EntryFields(kind, e));
    JoinFront(texts, "}");
    JoinFront(texts[1..], "}");
    var rest := Join(texts[1..]) + "}";
    more := rest[1..];
    assert rest[0] == '"';
    QuoteRegroups("\"" + "name" + "\":", e.name, more, rest);
    InBraces(Join(texts));
  }

  lemma InBraces(s: string)
    ensures "{" + s + "}" == "{" + (s + "}")
  {
  }

  lemma QuoteRegroups(front: string, name: string, more: string, rest: string)
    requires rest != "" && rest[0] == '"' && rest[1..] == more
    ensures front + Quoted(name) + ("," + rest) == front + ("\"" + (name + "\",\"" + more))
  {
    var tail := "\"" + ("," + rest);
    assert tail == "\",\"" + more;
    Regroup(front, "\"", name, "\"", "," + rest);
    assert name + tail == name + "\",\"" + more;
  }

  lemma Regroup(a: string, b: string, c: string, d: string, e: string)
    ensures a + (b + c + d) + e == a + (b + (c + (d + e)))
  {
  }

  lemma EntryNameIsClean(kind: Kind, e: Entry, x: string)
    requires ParseValue(EntryText(kind, e) + x).Some?
    requires ParseValue(EntryText(kind, e) + x).value.0 == EntryValue(kind, e)
    ensures Clean(e.name)
  {
    var more := EntryOpens(kind, e);
    var body := e.name + "\",\"" + (more + x);
    var front := "\"" + "name" + "\":";
    assert e.name + "\",\"" + more + x == body;
    Regroup("{", front, "\"", e.name + "\",\"" + more, x);
    assert front + ("\"" + (e.name + "\",\"" + more)) == front + "\"" + (e.name + "\",\"" + more);
    assert "{" + (front + ("\"" + body)) == EntryText(kind, e) + x;
    assert Clean("name");
    FirstMemberValue("name", "\"" + body);
    StringStarts(body);
    RawStringIsClean(e.name, more + x);
  }

  lemma {:induction false} ElementsAreClean(kind: Kind, entries: seq<Entry>, closer: string)
    requires Clean(kind.first) && Clean(kind.second) && entries != [] && closer != "" && closer[0] == ']'
    requires ParseElements(Join(EntryTexts(kind, entries)) + closer).Some?
    requires ParseElements(Join(EntryTexts(kind, entries)) + closer).value.0 == EntryValues(kind, entries)
    ensures CleanNames(entries)
    decreases |entries|
  {
    var texts, e := EntryTexts(kind, entries), entries[0];
    JoinFront(texts, closer);
    assert texts[1..] == EntryTexts(kind, entries[1..]);
    var rest := if |entries| == 1 then closer else "," + (Join(texts[1..]) + closer);
    FirstElement(texts[0] + rest);
    FirstEntry(kind, e, rest);
    if |entries| > 1 {
      ElementAndMore(texts[0], EntryValue(kind, e), Join(texts[1..]) + closer);
      assert EntryValues(kind, entries)[1..] == EntryValues(kind, entries[1..]);
      ElementsAreClean(kind, entries[1..], closer);
      assert entries == [e] + entries[1..];
    }
  }

  lemma FirstEntry(kind: Kind, e: Entry, x: string)
    requires Clean(kind.first) && Clean(kind.second)
    requires ParseValue(EntryText(kind, e) + x).Some?
    requires ParseValue(EntryText(kind, e) + x).value.0 == EntryValue(kind, e)
    ensures Clean(e.name) && ParseValue(EntryText(kind, e) + x) == Some((EntryValue(kind, e), x))
  {
    EntryNameIsClean(kind, e, x);
    EntryReads(kind, e);
    ValueReads(EntryText(kind, e), EntryValue(kind, e), x);
  }

  lemma FirstElement(s: string)
    requires ParseElements(s).Some?
    ensures ParseValue(s).Some? && ParseValue(s).value.0 == ParseElements(s).value.0[0]
  {
  }

  lemma ElementAndMore(text: string, v: Value, more: string)
    requires ParseValue(text + ("," + more)) == Some((v, "," + more))
    requires ParseElements(text + ("," + more)).Some?
    ensures ParseElements(more).Some?
    ensures ParseElements(text + ("," + more)).value.0[1..] == ParseElements(more).value.0
  {
    var after := "," + more;
    assert SkipWs(after) == after && after[1..] == more;
  }

  // ----- the event

  /** What the payload and the list in it must be, from the value read for the whole event. */
  lemma PayloadDecides(kind: Kind, timestamp: string, host: string, entries: seq<Entry>, x: string)
    requires (kind == DISKS || kind == INTERFACES) && Clean(timestamp)
    requires var text := ListEvent(kind, timestamp, host, entries) + x;
      ParseValue(text).Some? && ParseValue(text).value.0 == EventValue(kind, timestamp, host, entries)
    ensures var tail := PayloadMember(kind, entries, x);
      ParseMembers(tail).Some? && ParseMembers(tail).value.0 == [("payload", PayloadValue(kind, entries))]
  {
    KnownKindsAreClean(kind);
    var fs, ms := Envelope(kind.eventType, timestamp, host), EventMembers(kind.eventType, timestamp, HostShown(host));
    var tail := PayloadMember(kind, entries, x);
    EnvelopeReads(kind.eventType, timestamp, host);
    EventParts(kind, timestamp, host, entries, x);
    FieldsFront(fs, "," + tail);
    ObjectStarts(Join(FieldTexts(fs)) + ("," + tail));
    MembersAfter(fs, ms, tail);
    SameRest(ms, ParseMembers(tail).value.0, [("payload", PayloadValue(kind, entries))]);
  }

  lemma SameRest<T>(a: seq<T>, b: seq<T>, c: seq<T>)
    requires a + b == a + c
    ensures b == c
  {
    assert (a + b)[|a|..] == b && (a + c)[|a|..] == c;
  }

  function PayloadValue(kind: Kind, entries: seq<Entry>): Value {
    Obj([(kind.list, Arr(EntryValues(kind, entries)))])
  }

  function ListMember(kind: Kind, entries: seq<Entry>, x: string): string {
    "\"" + kind.list + "\":" + ("[" + (Join(EntryTexts(kind, entries)) + ("]}}" + x)))
  }

  function PayloadMember(kind: Kind, entries: seq<Entry>, x: string): string {
    "\"" + "payload" + "\":" + ("{" + ListMember(kind, entries, x))
  }

  /** The event's text with something behind it, cut where its parts begin. */
  lemma EventParts(kind: Kind, timestamp: string, host: string, entries: seq<Entry>, x: string)
    ensures ListEvent(kind, timestamp, host, entries) + x ==
      "{" + (Join(FieldTexts(Envelope(kind.eventType, timestamp, host))) + ("," + PayloadMember(kind, entries, x)))
  {
    var front, join := Join(FieldTexts(Envelope(kind.eventType, timestamp, host))), Join(EntryTexts(kind, entries));
    OpeningRegroups(kind.list, join + ("]}}" + x));
    Nest("{", front, Opening(kind.list), join, "]}}", x);
  }

  lemma Nest(a: string, b: string, c: string, d: string, e: string, x: string)
    ensures a + b + c + d + e + x == a + (b + (c + (d + (e + x))))
  {
  }

  lemma OpeningRegroups(list: string, x: string)
    ensures Opening(list) + x == "," + ("\"" + "payload" + "\":" + ("{" + ("\"" + list + "\":" + ("[" + x))))
  {
    assert ",\"payload\":{\"" == "," + ("\"" + "payload" + "\":") + "{" + "\"";
    assert "\":[" == "\":" + "[";
  }

  lemma ListDecides(kind: Kind, entries: seq<Entry>, x: string)
    requires Clean(kind.list) && entries != []
    requires var tail := PayloadMember(kind, entries, x);
      ParseMembers(tail).Some? && ParseMembers(tail).value.0 == [("payload", PayloadValue(kind, entries))]
    ensures var inner := Join(EntryTexts(kind, entries)) + ("]}}" + x);
      ParseElements(inner).Some? && ParseElements(inner).value.0 == EntryValues(kind, entries)
  {
    var inner := Join(EntryTexts(kind, entries)) + ("]}}" + x);
    MembersStart(PayloadMember(kind, entries, x));
    assert Clean("payload");
    MemberStarts("payload", "{" + ListMember(kind, entries, x));
    FirstMemberValue(kind.list, "[" + inner);
    JoinFront(EntryTexts(kind, entries), "]}}" + x);
    ArrayStarts(inner);
  }

  /** Whatever follows an event: if the list it was printed from is what is read, all names are clean. */
  lemma ReadsOnlyWhenClean(kind: Kind, timestamp: string, host: string, entries: seq<Entry>, x: string)
    requires (kind == DISKS || kind == INTERFACES) && Clean(timestamp)
    requires var text := ListEvent(kind, timestamp, host, entries) + x;
      ParseValue(text).Some? && ParseValue(text).value.0 == EventValue(kind, timestamp, host, entries)
    ensures CleanNames(entries)
  {
    if entries != [] {
      KnownKindsAreClean(kind);
      PayloadDecides(kind, timestamp, host, entries, x);
      ListDecides(kind, entries, x);
      ElementsAreClean(kind, entries, "]}}" + x);
    }
  }

  /** An event reads back as the list it was printed from exactly when all names are clean. */
  lemma ReadsBackExactlyWhenClean(kind: Kind, timestamp: string, host: string, entries: seq<Entry>)
    requires (kind == DISKS || kind == INTERFACES) && Clean(timestamp)
    ensures Parse(ListEvent(kind, timestamp, host, entries)) == Some(EventValue(kind, timestamp, host, entries))
            <==> CleanNames(entries)
  {
    if CleanNames(entries) {
      ListEventReads(kind, timestamp, host, entries);
    } else if Parse(ListEvent(kind, timestamp, host, entries)) == Some(EventValue(kind, timestamp, host, entries)) {
      NothingBehind(ListEvent(kind, timestamp, host, entries));
      ReadsOnlyWhenClean(kind, timestamp, host, entries, "");
    }
  }

  lemma NothingBehind(text: string)
    ensures text + "" == text
  {
  }

  /** A name that breaks its event: a quote, which an interface may well have in its name. */
  lemma QuoteInNameBreaksEvent(timestamp: string, host: string, first: nat, second: nat)
    requires Clean(timestamp) && first < Pow10(MAX_RATE_DIGITS) && second < Pow10(MAX_RATE_DIGITS)
    ensures var entries := [Entry("a\"b", first, second)];
      && entries[0].Sized()
      && Parse(ListEvent(INTERFACES, timestamp, host, entries)).None?
  {
    var e := Entry("a\"b", first, second);
    assert e.name[..1] == "a" && e.name[1] == '"' && EndsEarly(e.name, 1);
    EventIsNoJson(INTERFACES, timestamp, host, [e], 0, 1, "");
    NothingBehind(ListEvent(INTERFACES, timestamp, host, [e]));
  }

  // ----- names that end early

  /** A clean text, a quote, and then nothing that may follow a value in an object. */
  predicate EndsEarly(name: string, q: nat) {
    && q < |name| && Clean(name[..q]) && name[q] == '"'
    && (q + 1 < |name| ==> var c := name[q + 1]; !IsWs(c) && c != ',' && c != '}')
  }

  lemma {:induction false} CleanThenQuote(u: string, rest: string)
    requires Clean(u)
    ensures ParseString(u + "\"" + rest) == Some((u, rest))
  {
    CleanReads(u);
    NameReads(u, u, rest);
  }

  /** An entry with such a name is no JSON value, whatever follows it. */
  lemma EntryIsNoJson(kind: Kind, e: Entry, q: nat, x: string)
    requires EndsEarly(e.name, q)
    ensures ParseValue(EntryText(kind, e) + x).None?
  {
    var more := EntryOpens(kind, e);
    var u, v := e.name[..q], e.name[q + 1..];
    var rest := v + "\",\"" + more + x;
    var s := "\"" + "name" + "\":" + ("\"" + (u + "\"" + rest));
    EarlyQuote(e.name, q, more, x);
    assert EntryText(kind, e) + x == "{" + s;
    ObjectStarts(s);
    CleanThenQuote(u, rest);
    assert Clean("name");
    MemberAndAfter("name", u + "\"" + rest, u, rest);
  }

  lemma EarlyQuote(name: string, q: nat, more: string, x: string)
    requires q < |name| && name[q] == '"'
    ensures name + "\",\"" + more + x == name[..q] + "\"" + (name[q + 1..] + "\",\"" + more + x)
  {
    assert name == name[..q] + "\"" + name[q + 1..];
  }

  /** A string member after which nothing that may follow comes. */
  lemma MemberAndAfter(name: string, body: string, u: string, rest: string)
    requires Clean(name) && ParseString(body) == Some((u, rest))
    requires rest != "" && !IsWs(rest[0]) && rest[0] != ',' && rest[0] != '}'
    ensures ParseMembers("\"" + name + "\":" + ("\"" + body)).None?
  {
    var s := "\"" + name + "\":" + ("\"" + body);
    StringValue(body, u, rest);
    if ParseMember(s).Some? {
      MemberStarts(name, "\"" + body);
      NothingFollows(s, rest);
    }
  }

  lemma StringValue(body: string, u: string, rest: string)
    requires ParseString(body) == Some((u, rest))
    ensures ParseValue("\"" + body) == Some((Str(u), rest))
  {
    assert ("\"" + body)[1..] == body;
  }

  lemma NothingFollows(s: string, rest: string)
    requires ParseMember(s).Some? && ParseMember(s).value.1 == rest
    requires rest != "" && !IsWs(rest[0]) && rest[0] != ',' && rest[0] != '}'
    ensures ParseMembers(s).None?
  {
    assert SkipWs(rest) == rest;
  }

  /** Nor is an array that reaches such an entry. */
  lemma {:induction false} ElementsAreNoJson(kind: Kind, entries: seq<Entry>, i: nat, q: nat, closer: string)
    requires Clean(kind.first) && Clean(kind.second) && i < |entries|
    requires CleanNames(entries[..i]) && EndsEarly(entries[i].name, q)
    ensures ParseElements(Join(EntryTexts(kind, entries)) + closer).None?
    decreases i
  {
    var texts, e := EntryTexts(kind, entries), entries[0];
    JoinFront(texts, closer);
    var rest := if |entries| == 1 then closer else "," + (Join(texts[1..]) + closer);
    if i == 0 {
      EntryIsNoJson(kind, e, q, rest);
    } else {
      assert entries[..i][0] == e && entries[1..][..i - 1] == entries[..i][1..];
      EntryReads(kind, e);
      ValueReads(texts[0], EntryValue(kind, e), rest);
      assert texts[1..] == EntryTexts(kind, entries[1..]);
      ElementsAreNoJson(kind, entries[1..], i - 1, q, closer);
      ElementThenNone(texts[0], EntryValue(kind, e), Join(texts[1..]) + closer);
    }
  }

  lemma ElementThenNone(text: string, v: Value, more: string)
    requires ParseValue(text + ("," + more)) == Some((v, "," + more)) && ParseElements(more).None?
    ensures ParseElements(text + ("," + more)).None?
  {
    var after := "," + more;
    assert SkipWs(after) == after && after[1..] == more;
  }

  /** Whoever reads an event has read its list. */
  lemma ReadingReachesTheList(kind: Kind, timestamp: string, host: string, entries: seq<Entry>, x: string)
    requires (kind == DISKS || kind == INTERFACES) && Clean(timestamp) && entries != []
    requires ParseValue(ListEvent(kind, timestamp, host, entries) + x).Some?
    ensures ParseElements(Join(EntryTexts(kind, entries)) + ("]}}" + x)).Some?
  {
    KnownKindsAreClean(kind);
    var fs, ms := Envelope(kind.eventType, timestamp, host), EventMembers(kind.eventType, timestamp, HostShown(host));
    var tail := PayloadMember(kind, entries, x);
    EnvelopeReads(kind.eventType, timestamp, host);
    EventParts(kind, timestamp, host, entries, x);
    FieldsFront(fs, "," + tail);
    ObjectStarts(Join(FieldTexts(fs)) + ("," + tail));
    MembersAfter(fs, ms, tail);
    JoinFront(EntryTexts(kind, entries), "]}}" + x);
    PayloadReachesTheList(kind, Join(EntryTexts(kind, entries)) + ("]}}" + x), "{" + ListMember(kind, entries, x));
  }

  lemma PayloadReachesTheList(kind: Kind, inner: string, payload: string)
    requires Clean(kind.list) && inner != "" && inner[0] == '{'
    requires payload == "{" + ("\"" + kind.list + "\":" + ("[" + inner))
    requires ParseMembers("\"" + "payload" + "\":" + payload).Some?
    ensures ParseElements(inner).Some?
  {
    MembersStart("\"" + "payload" + "\":" + payload);
    assert Clean("payload");
    MemberStarts("payload", payload);
    FirstMemberValue(kind.list, "[" + inner);
    ArrayStarts(inner);
  }

  /** An event whose first unclean name ends early is no JSON value, whatever follows it. */
  lemma EventIsNoJson(kind: Kind, timestamp: string, host: string, entries: seq<Entry>, i: nat, q: nat, x: string)
    requires (kind == DISKS || kind == INTERFACES) && Clean(timestamp)
    requires i < |entries| && CleanNames(entries[..i]) && EndsEarly(entries[i].name, q)
    ensures ParseValue(ListEvent(kind, timestamp, host, entries) + x).None?
  {
    KnownKindsAreClean(kind);
    ElementsAreNoJson(kind, entries, i, q, "]}}" + x);
    if ParseValue(ListEvent(kind, timestamp, host, entries) + x).Some? {
      ReadingReachesTheList(kind, timestamp, host, entries, x);
    }
  }

  // ----- batches with such an event

  /** What a batch can hold besides: texts of whole objects. */
  ghost predicate IsObjectText(text: string) {
    text != "" && text[0] == '{' && exists v :: Reads(text, v) && v.Obj?
  }

  /** A list of items is no JSON from the first item on that is none, whatever follows it. */
  lemma {:induction false} ItemsAreNoJson(items: seq<string>, k: nat, closer: string)
    requires k < |items| && forall i :: 0 <= i < k ==> IsObjectText(items[i])
    requires forall x :: ParseValue(items[k] + x).None?
    ensures ParseElements(Join(items) + closer).None?
    decreases k
  {
    JoinFront(items, closer);
    var rest := if |items| == 1 then closer else "," + (Join(items[1..]) + closer);
    if k == 0 {
      assert ParseValue(items[0] + rest).None?;
    } else {
      var v :| Reads(items[0], v) && v.Obj?;
      ValueReads(items[0], v, rest);
      ItemsAreNoJson(items[1..], k - 1, closer);
      ElementThenNone(items[0], v, Join(items[1..]) + closer);
    }
  }

  /** So the body of a request with such an event is no JSON. */
  lemma BodyIsNoJson(kind: Kind, timestamp: string, host: string, entries: seq<Entry>, i: nat, q: nat,
                     items: seq<string>, k: nat)
    requires (kind == DISKS || kind == INTERFACES) && Clean(timestamp)
    requires i < |entries| && CleanNames(entries[..i]) && EndsEarly(entries[i].name, q)
    requires k < |items| && items[k] == ListEvent(kind, timestamp, host, entries)
    requires forall j :: 0 <= j < k ==> IsObjectText(items[j])
    ensures Parse(ArrayText(items)).None?
  {
    forall x
      ensures ParseValue(items[k] + x).None?
    {
      EventIsNoJson(kind, timestamp, host, entries, i, q, x);
    }
    ItemsAreNoJson(items, k, "]");
    JoinFront(items, "]");
    var inner := Join(items) + "]";
    EventStartsWithBrace(kind, timestamp, host, entries);
    assert inner[0] == items[0][0] == '{';
    assert ArrayText(items) == "[" + inner;
    ArrayStarts(inner);
  }

  lemma EventStartsWithBrace(kind: Kind, timestamp: string, host: string, entries: seq<Entry>)
    ensures var text := ListEvent(kind, timestamp, host, entries); text != "" && text[0] == '{'
  {
    EventParts(kind, timestamp, host, entries, "");
    NothingBehind(ListEvent(kind, timestamp, host, entries));
  }
}
