/** The disk and network events of src/main.c: a list of entries printed into a 2048-byte
    buffer, cut off once fewer than 512 bytes are left. */
module MetricEvents {
  import opened Numbers
  import opened Options
  import opened Decimal
  import opened Json
  import opened JsonCompose
  import opened JsonEscape
  import opened Utf8Text

  const BUFFER_SIZE: nat := 2048
  const RESERVE: nat := 512
  const MAX_RATE_DIGITS: nat := 22
  const MAX_NAME: nat := 31
  const MAX_TIMESTAMP: nat := 63
  const HOST_JSON_SIZE: nat := 256
  const HOST_SIZE: nat := 128

  /** The words that tell the disk event from the network event. */
  datatype Kind = Kind(eventType: string, list: string, first: string, second: string)

  const DISKS := Kind("system.metrics.disk", "disks", "read_bps", "write_bps")
  const INTERFACES := Kind("system.metrics.network", "interfaces", "rx_bps", "tx_bps")

  /** A rate entry; the two rates as the whole numbers that %.0f prints. */
  datatype Entry = Entry(name: string, first: nat, second: nat)
  {
    /** Names are C strings in a 32-byte field; rates are 64-bit deltas, times 512 for disks. */
    ghost predicate Sized() {
      && |name| <= MAX_NAME && '\0' !in name
      && first < Pow10(MAX_RATE_DIGITS) && second < Pow10(MAX_RATE_DIGITS)
    }
  }

  /** resolve_event_host: the host name cut to its buffer, then escaped into 256 bytes. */
  function HostText(host: string): string {
    if |host| < HOST_SIZE then host else host[..HOST_SIZE - 1]
  }

  function HostJson(host: string): string {
    EscapeWithin(HostText(host), HOST_JSON_SIZE - 1)
  }

  /** The fields every event starts with, as names and finished string bodies. */
  function EnvelopeParts(eventType: string, timestamp: string, hostBody: string): seq<(string, string)> {
    [("schema_version", "1.0"), ("timestamp", timestamp), ("host", hostBody), ("source", "syswatch"),
     ("source_version", "0.1.1"), ("event_type", eventType), ("severity", "info")]
  }

  function QuotedFields(parts: seq<(string, string)>): seq<Field> {
    seq(|parts|, i requires 0 <= i < |parts| => Field(parts[i].0, Quoted(parts[i].1)))
  }

  function Envelope(eventType: string, timestamp: string, host: string): seq<Field> {
    QuotedFields(EnvelopeParts(eventType, timestamp, HostJson(host)))
  }

  function Opening(list: string): string {
    ",\"payload\":{\"" + list + "\":["
  }

  /** The format string up to the opening bracket of the list. */
  function Header(kind: Kind, timestamp: string, host: string): string {
    "{" + Join(FieldTexts(Envelope(kind.eventType, timestamp, host))) + Opening(kind.list)
  }

  function EntryFields(kind: Kind, e: Entry): seq<Field> {
    [Field("name", Quoted(e.name)), Field(kind.first, Dec(e.first)), Field(kind.second, Dec(e.second))]
  }

  function EntryText(kind: Kind, e: Entry): string {
    ObjectText(EntryFields(kind, e))
  }

  function EntryTexts(kind: Kind, entries: seq<Entry>): seq<string> {
    seq(|entries|, i requires 0 <= i < |entries| => EntryText(kind, entries[i]))
  }

  function ListEvent(kind: Kind, timestamp: string, host: string, entries: seq<Entry>): string {
    Header(kind, timestamp, host) + Join(EntryTexts(kind, entries)) + "]}}"
  }

  /** The event as it stands after `i` entries. */
  function Partial(header: string, kind: Kind, entries: seq<Entry>, i: nat): string
    requires i <= |entries|
  {
    header + Join(EntryTexts(kind, entries[..i]))
  }

  /** Where the loop stops: at the end of the list or once the text reaches 1536 characters. */
  ghost predicate CutAt(header: string, kind: Kind, entries: seq<Entry>, k: nat) {
    && k <= |entries|
    && (k > 0 ==> |Partial(header, kind, entries, k - 1)| < 1536)
    && (k < |entries| ==> |Partial(header, kind, entries, k)| >= 1536)
  }

  ghost predicate SizedInputs(timestamp: string, host: string, entries: seq<Entry>) {
    && |timestamp| <= MAX_TIMESTAMP && Clean(timestamp)
    && '\0' !in host
    && forall i :: 0 <= i < |entries| ==> entries[i].Sized()
  }

  /** Names are printed as they are: nothing in them is escaped. */
  ghost predicate CleanNames(entries: seq<Entry>) {
    forall i :: 0 <= i < |entries| ==> Clean(entries[i].name)
  }

  // ----- lengths

  lemma EntryLength(kind: Kind, e: Entry)
    requires (kind == DISKS || kind == INTERFACES) && e.Sized()
    ensures |EntryText(kind, e)| <= 111
  {
    DecLength(e.first, MAX_RATE_DIGITS);
    DecLength(e.second, MAX_RATE_DIGITS);
    var fs := EntryFields(kind, e);
    var texts := FieldTexts(fs);
    assert |texts[0]| <= 40 && |texts[1]| <= 33 && |texts[2]| <= 34;
    JoinFront(texts, "");
    JoinFront(texts[1..], "");
    assert texts[1..][1..] == [texts[2]];
  }

  lemma {:induction false} JoinLength(items: seq<string>, most: nat)
    requires forall i :: 0 <= i < |items| ==> |items[i]| <= most
    ensures |Join(items)| <= |items| * (most + 1)
    decreases |items|
  {
    if |items| > 1 {
      JoinLength(items[1..], most);
    }
  }

  lemma JoinOfTwo(first: string, rest: seq<string>)
    requires rest != []
    ensures |Join([first] + rest)| == |first| + 1 + |Join(rest)|
  {
    assert ([first] + rest)[1..] == rest;
  }

  lemma JoinOfSeven(a: string, b: string, c: string, d: string, e: string, f: string, g: string)
    ensures |Join([a, b, c, d, e, f, g])| == |a| + |b| + |c| + |d| + |e| + |f| + |g| + 6
  {
    JoinOfTwo(f, [g]);
    JoinOfTwo(e, [f, g]);
    JoinOfTwo(d, [e, f, g]);
    JoinOfTwo(c, [d, e, f, g]);
    JoinOfTwo(b, [c, d, e, f, g]);
    JoinOfTwo(a, [b, c, d, e, f, g]);
    assert [e] + [f, g] == [e, f, g] && [d] + [e, f, g] == [d, e, f, g];
    assert [c] + [d, e, f, g] == [c, d, e, f, g] && [b] + [c, d, e, f, g] == [b, c, d, e, f, g];
    assert [a] + [b, c, d, e, f, g] == [a, b, c, d, e, f, g];
  }

  lemma PartLength(part: (string, string))
    ensures |FieldText(Field(part.0, Quoted(part.1)))| == |part.0| + |part.1| + 5
  {
  }

  /** The envelope takes 126 characters besides the event type, the timestamp and the host. */
  lemma EnvelopeLength(eventType: string, timestamp: string, host: string)
    ensures |Join(FieldTexts(Envelope(eventType, timestamp, host)))|
      == 126 + |eventType| + |timestamp| + |HostJson(host)|
  {
    var parts := EnvelopeParts(eventType, timestamp, HostJson(host));
    var texts := FieldTexts(Envelope(eventType, timestamp, host));
    forall i | 0 <= i < 7
      ensures |texts[i]| == |parts[i].0| + |parts[i].1| + 5
    {
      PartLength(parts[i]);
    }
    assert texts == [texts[0], texts[1], texts[2], texts[3], texts[4], texts[5], texts[6]];
    JoinOfSeven(texts[0], texts[1], texts[2], texts[3], texts[4], texts[5], texts[6]);
  }

  lemma HeaderLength(kind: Kind, timestamp: string, host: string)
    requires (kind == DISKS || kind == INTERFACES) && |timestamp| <= MAX_TIMESTAMP
    ensures |Header(kind, timestamp, host)| < 1000
  {
    EnvelopeLength(kind.eventType, timestamp, host);
    assert |kind.eventType| <= 22 && |kind.list| <= 10;
  }

  // ----- the buffer

  /** snprintf(buffer + at, size - at, ...): what fits is written with a terminator, and the
      full length is returned whether it fits or not. */
  method Snprintf(buffer: array<char>, at: nat, text: string) returns (n: nat)
    requires at < buffer.Length && '\0' !in buffer[..at] && '\0' !in text
    modifies buffer
    ensures n == |text|
    ensures HoldsText(buffer[..], old(buffer[..at]) + text[..Min(|text|, buffer.Length - at - 1)])
  {
    var fits := Min(|text|, buffer.Length - at - 1);
    CopyInto(buffer, at, text[..fits]);
    buffer[at + fits] := '\0';
    return |text|;
  }

  lemma PartialNext(header: string, kind: Kind, entries: seq<Entry>, i: nat)
    requires i < |entries|
    ensures Partial(header, kind, entries, i + 1) ==
      Partial(header, kind, entries, i) + (if i > 0 then "," else "") + EntryText(kind, entries[i])
  {
    var before, e := EntryTexts(kind, entries[..i]), EntryText(kind, entries[i]);
    assert EntryTexts(kind, entries[..i + 1]) == before + [e];
    JoinAppend(before, e);
    Glue(header, Join(before), e);
  }

  lemma Glue(a: string, b: string, c: string)
    ensures a + (b + "," + c) == a + b + "," + c
    ensures a + "" + "" + c == a + c
  {
  }

  ghost predicate NoNuls(fs: seq<Field>) {
    forall i :: 0 <= i < |fs| ==> '\0' !in fs[i].name && '\0' !in fs[i].value
  }

  lemma NoNulInFields(fs: seq<Field>)
    requires NoNuls(fs)
    ensures '\0' !in Join(FieldTexts(fs))
  {
    forall i | 0 <= i < |fs|
      ensures '\0' !in FieldTexts(fs)[i]
    {
      assert '\0' !in FieldText(fs[i]);
    }
    NoNulInJoin(FieldTexts(fs));
  }

  lemma NoNulInEnvelope(eventType: string, timestamp: string, host: string)
    requires Clean(eventType) && Clean(timestamp)
    ensures '\0' !in Join(FieldTexts(Envelope(eventType, timestamp, host)))
  {
    EscapedHasNoControls(HostText(host), HOST_JSON_SIZE - 1);
    EnvelopePartsAreClean(eventType, timestamp, HostJson(host));
    var parts := EnvelopeParts(eventType, timestamp, HostJson(host));
    forall i | 0 <= i < |parts|
      ensures '\0' !in parts[i].0 && '\0' !in Quoted(parts[i].1)
    {
      CleanHasNoNul(parts[i].0);
      if i != 2 {
        CleanHasNoNul(parts[i].1);
      }
    }
    NoNulInFields(Envelope(eventType, timestamp, host));
  }

  lemma EnvelopePartsAreClean(eventType: string, timestamp: string, hostBody: string)
    requires Clean(eventType) && Clean(timestamp)
    ensures var parts := EnvelopeParts(eventType, timestamp, hostBody);
      forall i :: 0 <= i < |parts| ==> Clean(parts[i].0) && (i == 2 || Clean(parts[i].1))
  {
    assert Clean("schema_version") && Clean("1.0");
    assert Clean("timestamp") && Clean("host");
    assert Clean("source") && Clean("syswatch");
    assert Clean("source_version") && Clean("0.1.1");
    assert Clean("event_type");
    assert Clean("severity") && Clean("info");
  }

  lemma CleanHasNoNul(s: string)
    requires Clean(s)
    ensures '\0' !in s && '\0' !in Quoted(s)
  {
  }

  lemma NoNulInHeader(kind: Kind, timestamp: string, host: string)
    requires (kind == DISKS || kind == INTERFACES) && Clean(timestamp)
    ensures '\0' !in Header(kind, timestamp, host)
  {
    KnownKindsAreClean(kind);
    CleanHasNoNul(kind.list);
    NoNulInEnvelope(kind.eventType, timestamp, host);
    NoNulInOpening(kind.list);
  }

  lemma NoNulInOpening(list: string)
    requires '\0' !in list
    ensures '\0' !in Opening(list)
  {
  }

  lemma NoNulInEntry(kind: Kind, e: Entry)
    requires (kind == DISKS || kind == INTERFACES) && e.Sized()
    ensures '\0' !in EntryText(kind, e)
  {
    NoNulInFields(EntryFields(kind, e));
  }

  lemma {:induction false} NoNulInJoin(items: seq<string>)
    requires forall i :: 0 <= i < |items| ==> '\0' !in items[i]
    ensures '\0' !in Join(items)
    decreases |items|
  {
    if |items| > 1 {
      NoNulInJoin(items[1..]);
    }
  }

  /** The event-building block of collector_thread.  Nothing is ever cut inside an entry or
      in the closing brackets, whatever the names hold: the buffer holds a whole event over a
      prefix of the list.  With clean names it is JSON and reads back. */
  method BuildListEvent(kind: Kind, timestamp: string, host: string, entries: seq<Entry>)
    returns (json: array<char>, kept: nat)
    requires kind == DISKS || kind == INTERFACES
    requires SizedInputs(timestamp, host, entries)
    ensures fresh(json) && json.Length == 2048
    ensures CutAt(Header(kind, timestamp, host), kind, entries, kept)
    ensures HoldsText(json[..], ListEvent(kind, timestamp, host, entries[..kept]))
    ensures CleanNames(entries[..kept]) ==>
      Parse(ListEvent(kind, timestamp, host, entries[..kept]))
        == Some(EventValue(kind, timestamp, host, entries[..kept]))
  {
    json := new char[BUFFER_SIZE];
    NoNulInHeader(kind, timestamp, host);
    HeaderLength(kind, timestamp, host);
    var header := Header(kind, timestamp, host);
    kept := FillListEvent(kind, header, entries, json);
    if CleanNames(entries[..kept]) {
      ListEventReads(kind, timestamp, host, entries[..kept]);
    }
  }

  /** The printing of header, entries and closing brackets. */
  method FillListEvent(kind: Kind, header: string, entries: seq<Entry>, json: array<char>) returns (i: nat)
    requires (kind == DISKS || kind == INTERFACES) && forall i :: 0 <= i < |entries| ==> entries[i].Sized()
    requires json.Length == BUFFER_SIZE && |header| < 1000 && '\0' !in header
    modifies json
    ensures CutAt(header, kind, entries, i)
    ensures HoldsText(json[..], Partial(header, kind, entries, i) + "]}}")
  {
    var pos := Snprintf(json, 0, header);
    i := 0;
    ghost var text := header;
    assert text == Partial(header, kind, entries, 0);
    while i < |entries| && pos < BUFFER_SIZE - RESERVE
      invariant i <= |entries|
      invariant pos == |text| <= BUFFER_SIZE - RESERVE + 111 && HoldsText(json[..], text)
      invariant text == Partial(header, kind, entries, i)
      invariant i > 0 ==> |Partial(header, kind, entries, i - 1)| < BUFFER_SIZE - RESERVE
    {
      PartialNext(header, kind, entries, i);
      pos := AppendEntry(kind, entries[i], i > 0, json, pos, text);
      text := text + (if i > 0 then "," else "") + EntryText(kind, entries[i]);
      i := i + 1;
    }
    var _ := PrintWhole(json, pos, "]}}", text);
  }

  /** `pos += snprintf(json + pos, ...)` where there is room for all of it. */
  method PrintWhole(buffer: array<char>, at: nat, text: string, ghost held: string) returns (pos: nat)
    requires HoldsText(buffer[..], held) && at == |held| && at + |text| < buffer.Length && '\0' !in text
    modifies buffer
    ensures pos == |held + text| && HoldsText(buffer[..], held + text)
  {
    assert buffer[..][..at] == buffer[..at] && text[..|text|] == text;
    var n := Snprintf(buffer, at, text);
    return at + n;
  }

  /** One round of the list loop. */
  method AppendEntry(kind: Kind, e: Entry, comma: bool, json: array<char>, at: nat, ghost text: string)
    returns (pos: nat)
    requires (kind == DISKS || kind == INTERFACES) && e.Sized()
    requires json.Length == BUFFER_SIZE && HoldsText(json[..], text) && at == |text| < BUFFER_SIZE - RESERVE
    modifies json
    ensures pos <= BUFFER_SIZE - RESERVE + 111
    ensures pos == |text| + (if comma then 1 else 0) + |EntryText(kind, e)|
    ensures HoldsText(json[..], text + (if comma then "," else "") + EntryText(kind, e))
  {
    EntryLength(kind, e);
    NoNulInEntry(kind, e);
    pos := at;
    ghost var held := text + "";
    if comma {
      pos := PrintWhole(json, pos, ",", text);
      held := text + ",";
    } else {
      assert held == text;
    }
    pos := PrintWhole(json, pos, EntryText(kind, e), held);
  }

  // ----- reading the event back

  function Members(pairs: seq<(string, string)>): seq<(string, Value)> {
    seq(|pairs|, i requires 0 <= i < |pairs| => (pairs[i].0, Str(pairs[i].1)))
  }

  function EntryValue(kind: Kind, e: Entry): Value {
    Obj([("name", Str(e.name)), (kind.first, Num(Dec(e.first))), (kind.second, Num(Dec(e.second)))])
  }

  function EntryValues(kind: Kind, entries: seq<Entry>): seq<Value> {
    seq(|entries|, i requires 0 <= i < |entries| => EntryValue(kind, entries[i]))
  }

  /** The host name as the event carries it: cut to its buffer and to what fits escaped. */
  function HostShown(host: string): string {
    HostText(host)[..Kept(HostText(host), HOST_JSON_SIZE - 1)]
  }

  /** The host as shown is the longest prefix of at most 127 characters that takes at most 255 escaped. */
  lemma HostShownIsLongest(host: string)
    ensures var shown := HostShown(host);
      && shown <= host && |shown| <= 127 && |Escape(shown)| <= 255 && HostJson(host) == Escape(shown)
      && (|shown| < |host| && |shown| < 127 ==> |Escape(host[..|shown| + 1])| > 255)
  {
    var text := HostText(host);
    LongestPrefixIsKept(text, 255);
    var k := |HostShown(host)|;
    if k < |text| {
      assert text[..k + 1] == host[..k + 1];
    }
  }

  function EventMembers(eventType: string, timestamp: string, host: string): seq<(string, Value)> {
    Members(EnvelopeParts(eventType, timestamp, host))
  }

  function EventValue(kind: Kind, timestamp: string, host: string, entries: seq<Entry>): Value {
    Obj(EventMembers(kind.eventType, timestamp, HostShown(host))
        + [("payload", Obj([(kind.list, Arr(EntryValues(kind, entries)))]))])
  }

  lemma QuotedFieldReads(name: string, body: string, text: string)
    requires Clean(name) && ReadsString(body, text)
    ensures FieldReads(Field(name, Quoted(body)), (name, Str(text)))
  {
    CleanReads(name);
    QuotedReads(body, text);
  }

  lemma EnvelopeReads(eventType: string, timestamp: string, host: string)
    requires Clean(eventType) && Clean(timestamp)
    ensures FieldsRead(Envelope(eventType, timestamp, host), EventMembers(eventType, timestamp, HostShown(host)))
  {
    var hostBody, shown := HostJson(host), HostShown(host);
    TruncatedEscapeRoundTrip(HostText(host), HOST_JSON_SIZE - 1, "");
    assert hostBody + "\"" + "" == hostBody + "\"";
    EnvelopePartsAreClean(eventType, timestamp, hostBody);
    var parts, texts := EnvelopeParts(eventType, timestamp, hostBody), EnvelopeParts(eventType, timestamp, shown);
    forall i | 0 <= i < |parts|
      ensures FieldReads(QuotedFields(parts)[i], Members(texts)[i])
    {
      PartReads(parts[i], texts[i], hostBody, shown);
    }
  }

  lemma PartReads(part: (string, string), shown: (string, string), hostBody: string, host: string)
    requires Clean(part.0) && part.0 == shown.0 && ReadsString(hostBody, host)
    requires (Clean(part.1) && part.1 == shown.1) || (part.1 == hostBody && shown.1 == host)
    ensures FieldReads(Field(part.0, Quoted(part.1)), (shown.0, Str(shown.1)))
  {
    if Clean(part.1) && part.1 == shown.1 {
      CleanReads(part.1);
    }
    QuotedFieldReads(part.0, part.1, shown.1);
  }

  lemma {:induction false} DigitsRun(s: string)
    requires AllDecimal(s)
    ensures DigitRun(s) == |s| && NumRun(s) == |s|
  {
    if s != "" {
      DigitsRun(s[1..]);
    }
  }

  lemma DecReads(n: nat)
    ensures Reads(Dec(n), Num(Dec(n)))
  {
    var s := Dec(n);
    DigitsRun(s);
    assert s[..|s|] == s && s[|s|..] == "";
    assert IsNumber(s);
  }

  lemma EntryReads(kind: Kind, e: Entry)
    requires Clean(kind.first) && Clean(kind.second) && Clean(e.name)
    ensures Reads(EntryText(kind, e), EntryValue(kind, e))
  {
    var fs := EntryFields(kind, e);
    var ms := [("name", Str(e.name)), (kind.first, Num(Dec(e.first))), (kind.second, Num(Dec(e.second)))];
    assert Clean("name");
    CleanReads(e.name);
    QuotedFieldReads("name", e.name, e.name);
    CleanReads(kind.first);
    CleanReads(kind.second);
    DecReads(e.first);
    DecReads(e.second);
    ObjectReads(fs, ms);
  }

  lemma EntriesRead(kind: Kind, entries: seq<Entry>)
    requires Clean(kind.first) && Clean(kind.second) && CleanNames(entries)
    ensures Reads(ArrayText(EntryTexts(kind, entries)), Arr(EntryValues(kind, entries)))
  {
    forall i | 0 <= i < |entries|
      ensures Reads(EntryTexts(kind, entries)[i], EntryValues(kind, entries)[i])
    {
      EntryReads(kind, entries[i]);
    }
    ArrayReads(EntryTexts(kind, entries), EntryValues(kind, entries));
  }

  lemma SingleFieldReads(name: string, value: string, v: Value)
    requires Clean(name) && Reads(value, v)
    ensures Reads(ObjectText([Field(name, value)]), Obj([(name, v)]))
  {
    CleanReads(name);
    ObjectReads([Field(name, value)], [(name, v)]);
  }

  /** The printed pieces are one object: the envelope and a payload holding the list. */
  lemma ListEventIsAnObject(kind: Kind, timestamp: string, host: string, entries: seq<Entry>)
    ensures ListEvent(kind, timestamp, host, entries) ==
      ObjectText(Envelope(kind.eventType, timestamp, host)
        + [Field("payload", ObjectText([Field(kind.list, ArrayText(EntryTexts(kind, entries)))]))])
  {
    var fs, j := Envelope(kind.eventType, timestamp, host), Join(EntryTexts(kind, entries));
    var list := Field(kind.list, ArrayText(EntryTexts(kind, entries)));
    ObjectOfOne(list);
    ObjectWithLast(fs, Field("payload", ObjectText([list])));
    PayloadText(kind.list, j);
    var front := "{" + Join(FieldTexts(fs));
    assert Header(kind, timestamp, host) + j + "]}}" == front + (Opening(kind.list) + j + "]}}");
  }

  lemma ObjectOfOne(f: Field)
    ensures ObjectText([f]) == "{" + FieldText(f) + "}"
  {
    assert FieldTexts([f]) == [FieldText(f)];
  }

  lemma ObjectWithLast(fs: seq<Field>, f: Field)
    requires fs != []
    ensures ObjectText(fs + [f]) == "{" + Join(FieldTexts(fs)) + ("," + FieldText(f) + "}")
  {
    assert FieldTexts(fs + [f]) == FieldTexts(fs) + [FieldText(f)];
    JoinAppend(FieldTexts(fs), FieldText(f));
    Closing(Join(FieldTexts(fs)), FieldText(f));
  }

  lemma Closing(a: string, b: string)
    ensures "{" + (a + "," + b) + "}" == "{" + a + ("," + b + "}")
  {
  }

  lemma PayloadText(list: string, entries: string)
    ensures Opening(list) + entries + "]}}" ==
      "," + FieldText(Field("payload", "{" + FieldText(Field(list, "[" + entries + "]")) + "}")) + "}"
  {
  }

  /** Reading a disk or network event gives back the envelope, the host name as far as it fits,
      and exactly the entries printed, in order. */
  lemma ListEventReads(kind: Kind, timestamp: string, host: string, entries: seq<Entry>)
    requires kind == DISKS || kind == INTERFACES
    requires Clean(timestamp) && CleanNames(entries)
    ensures Parse(ListEvent(kind, timestamp, host, entries)) == Some(EventValue(kind, timestamp, host, entries))
    ensures Reads(ListEvent(kind, timestamp, host, entries), EventValue(kind, timestamp, host, entries))
  {
    KnownKindsAreClean(kind);
    EntriesRead(kind, entries);
    var list, listValue := ArrayText(EntryTexts(kind, entries)), Arr(EntryValues(kind, entries));
    SingleFieldReads(kind.list, list, listValue);
    var fs, ms := Envelope(kind.eventType, timestamp, host), EventMembers(kind.eventType, timestamp, HostShown(host));
    var payload, payloadValue := ObjectText([Field(kind.list, list)]), Obj([(kind.list, listValue)]);
    EnvelopeReads(kind.eventType, timestamp, host);
    AppendedFieldReads(fs, ms, "payload", payload, payloadValue);
    ListEventIsAnObject(kind, timestamp, host, entries);
    ObjectReads(fs + [Field("payload", payload)], ms + [("payload", payloadValue)]);
  }

  lemma AppendedFieldReads(fs: seq<Field>, ms: seq<(string, Value)>, name: string, value: string, v: Value)
    requires FieldsRead(fs, ms) && Clean(name) && Reads(value, v)
    ensures FieldsRead(fs + [Field(name, value)], ms + [(name, v)])
  {
    CleanReads(name);
  }

  /** Lower-case letters, underscores and dots: what all fixed words but numbers are made of. */
  predicate IsWordy(s: string) {
    forall i :: 0 <= i < |s| ==> 'a' <= s[i] <= 'z' || s[i] == '_' || s[i] == '.'
  }

  lemma WordyIsClean(s: string)
    requires IsWordy(s)
    ensures Clean(s) && IsAscii(s)
  {
  }

  predicate IsWordyKind(kind: Kind) {
    IsWordy(kind.eventType) && IsWordy(kind.list) && IsWordy(kind.first) && IsWordy(kind.second)
  }

  lemma DisksAreWordy()
    ensures IsWordyKind(DISKS)
  {
    assert IsWordy("system.metrics.disk");
    assert IsWordy("disks") && IsWordy("read_bps") && IsWordy("write_bps");
  }

  lemma InterfacesAreWordy()
    ensures IsWordyKind(INTERFACES)
  {
    assert IsWordy("system.metrics.network");
    assert IsWordy("interfaces") && IsWordy("rx_bps") && IsWordy("tx_bps");
  }

  lemma KnownKindsAreClean(kind: Kind)
    requires kind == DISKS || kind == INTERFACES
    ensures Clean(kind.eventType) && Clean(kind.list) && Clean(kind.first) && Clean(kind.second)
    ensures IsAscii(kind.eventType) && IsAscii(kind.list) && IsAscii(kind.first) && IsAscii(kind.second)
  {
    DisksAreWordy();
    InterfacesAreWordy();
    WordyIsClean(kind.eventType);
    WordyIsClean(kind.list);
    WordyIsClean(kind.first);
    WordyIsClean(kind.second);
  }
}
