/** All events of src/main.c, as texts: the ones with a fixed set of numbers (lifecycle, cpu, memory,
    internal) and, from MetricEvents.dfy, the two with lists.  Each fits its buffer whole, is accepted by
    the queue, and reads back. */
module Events {
  import opened Decimal
  import opened Json
  import opened JsonCompose
  import opened JsonEscape
  import opened MetricEvents
  import opened Options
  import opened RawNames
  import opened Receivable
  import opened RingQueue
  import opened Samples
  import opened Utf8Text

  const LIFECYCLE_SIZE: nat := 512
  const METRIC_SIZE: nat := 1024

  function ListKind(s: Sample): Kind
    requires s.IsList()
  {
    if s.Disk? then DISKS else INTERFACES
  }

  function BufferSize(s: Sample): nat {
    if s.IsList() then BUFFER_SIZE else if s.WarmingUp? || s.Ready? then LIFECYCLE_SIZE else METRIC_SIZE
  }

  function EventType(s: Sample): string {
    match s
    case WarmingUp => "syswatch.lifecycle.warming_up"
    case Ready => "syswatch.lifecycle.ready"
    case Cpu(_, _, _, _, _) => "system.metrics.cpu"
    case Memory(_, _, _, _, _, _, _) => "system.metrics.memory"
    case Internal(_, _, _) => "syswatch.internal"
    case Disk(_) => DISKS.eventType
    case Network(_) => INTERFACES.eventType
  }

  // ----- numbers

  /** %.1f of a number of tenths. */
  function Tenths(n: nat): string {
    Dec(n / 10) + ("." + [Digit(n % 10)])
  }

  predicate IsNumeral(text: string) {
    text != "" && (forall i :: 0 <= i < |text| ==> IsNumChar(text[i])) && IsNumber(text)
  }

  lemma {:induction false} NumCharsRun(s: string)
    requires forall i :: 0 <= i < |s| ==> IsNumChar(s[i])
    ensures NumRun(s) == |s|
  {
    if s != "" {
      NumCharsRun(s[1..]);
    }
  }

  lemma NumeralReads(text: string)
    requires IsNumeral(text)
    ensures Reads(text, Num(text))
  {
    NumCharsRun(text);
    assert text[..|text|] == text && text[|text|..] == "";
    NumberStarts(text);
    assert ParseScalar(text) == Some((Num(text), ""));
  }

  /** A text that starts like a number is read as one. */
  lemma NumberStarts(text: string)
    requires text != "" && IsNumChar(text[0]) && NumRun(text) == |text| && IsNumber(text[..|text|])
    requires text[..|text|] == text && text[|text|..] == ""
    ensures SkipWs(text) == text && ParseValue(text) == ParseScalar(text) == Some((Num(text), ""))
  {
    assert text[0] != 't' && text[0] != 'f' && text[0] != 'n' && text[0] != '"';
  }

  lemma DecIsNumeral(n: nat)
    ensures IsNumeral(Dec(n))
  {
    DigitsRun(Dec(n));
    assert Dec(n)[|Dec(n)|..] == "";
  }

  lemma {:induction false} DigitsThenDot(s: string, x: string)
    requires AllDecimal(s) && x != "" && x[0] == '.'
    ensures DigitRun(s + x) == |s|
  {
    if s == "" {
      assert s + x == x;
    } else {
      assert (s + x)[1..] == s[1..] + x;
      DigitsThenDot(s[1..], x);
    }
  }

  lemma TenthsIsNumeral(n: nat)
    ensures IsNumeral(Tenths(n))
  {
    var whole, digit := Dec(n / 10), [Digit(n % 10)];
    var text, x := Tenths(n), "." + digit;
    assert x[1..] == digit && digit[1..] == "";
    DigitsThenDot(whole, x);
    assert text[|whole|..] == x && text[0] == whole[0];
    FractionOfOneDigit(digit);
  }

  lemma FractionOfOneDigit(digit: string)
    requires |digit| == 1 && IsDecimal(digit[0])
    ensures IsFractionAndExponent("." + digit)
  {
    assert ("." + digit)[1..] == digit && digit[1..] == "";
    assert DigitRun(digit) == 1;
  }

  // ----- payloads

  function Numbers(names: seq<string>, values: seq<string>): seq<Field>
    requires |names| == |values|
  {
    seq(|names|, i requires 0 <= i < |names| => Field(names[i], values[i]))
  }

  const CPU_NAMES := ["usage_pct", "user_pct", "system_pct", "idle_pct", "core_count"]
  const MEMORY_NAMES :=
    ["mem_total", "mem_available", "mem_free", "mem_used", "swap_total", "swap_free", "swap_used"]
  const INTERNAL_NAMES := ["buffer_depth", "events_dropped_total", "events_emitted_total"]

  /** The names and numerals in the payload of an event without a list. */
  function Payload(s: Sample): seq<Field>
    requires !s.IsList()
  {
    match s
    case WarmingUp => []
    case Ready => []
    case Cpu(usage, user, system, idle, cores) =>
      Numbers(CPU_NAMES, [Tenths(usage), Tenths(user), Tenths(system), Tenths(idle), Dec(cores)])
    case Memory(total, available, free, used, swapTotal, swapFree, swapUsed) =>
      Numbers(MEMORY_NAMES, [Dec(total), Dec(available), Dec(free), Dec(used), Dec(swapTotal), Dec(swapFree),
                             Dec(swapUsed)])
    case Internal(depth, dropped, emitted) => Numbers(INTERNAL_NAMES, [Dec(depth), Dec(dropped), Dec(emitted)])
  }

  function FixedText(eventType: string, timestamp: string, host: string, payload: seq<Field>): string {
    ObjectText(Envelope(eventType, timestamp, host) + [Field("payload", ObjectText(payload))])
  }

  /** The text of an event. */
  function EventText(timestamp: string, host: string, s: Sample): string {
    if s.IsList() then ListEvent(ListKind(s), timestamp, host, s.entries)
    else FixedText(EventType(s), timestamp, host, Payload(s))
  }

  const WORD_DIGITS: nat := 20

  predicate Words(ns: seq<nat>) {
    forall i :: 0 <= i < |ns| ==> ns[i] < 0x1_0000_0000_0000_0000
  }

  /** What the collector can have sampled: percentages within 0 to 100, an int of cores, 64-bit counters,
      and as many entries of a list as the loop takes. */
  ghost predicate Sampled(timestamp: string, host: string, s: Sample) {
    match s
    case WarmingUp => true
    case Ready => true
    case Cpu(usage, user, system, idle, cores) =>
      usage <= 1000 && user <= 1000 && system <= 1000 && idle <= 1000 && cores < 0x8000_0000
    case Memory(total, available, free, used, swapTotal, swapFree, swapUsed) =>
      Words([total, available, free, used, swapTotal, swapFree, swapUsed])
    case Internal(depth, dropped, emitted) => Words([depth, dropped, emitted])
    case Disk(entries) => Listed(DISKS, timestamp, host, entries)
    case Network(entries) => Listed(INTERFACES, timestamp, host, entries)
  }

  /** `entries` is what the loop keeps of some list. */
  ghost predicate Listed(kind: Kind, timestamp: string, host: string, entries: seq<Entry>) {
    exists whole: seq<Entry> ::
      && (forall i :: 0 <= i < |whole| ==> whole[i].Sized())
      && CutAt(Header(kind, timestamp, host), kind, whole, |entries|)
      && entries == whole[..|entries|]
  }

  /** Short plain names, and numerals of at most 20 characters. */
  ghost predicate Tidy(fs: seq<Field>) {
    forall i :: 0 <= i < |fs| ==>
      IsWordy(fs[i].name) && |fs[i].name| <= 20 && IsNumeral(fs[i].value) && |fs[i].value| <= 20
  }

  lemma WordLength(n: nat)
    requires n < 0x1_0000_0000_0000_0000
    ensures |Dec(n)| <= WORD_DIGITS && IsNumeral(Dec(n))
  {
    assert Pow10(10) == 10000000000;
    assert Pow10(WORD_DIGITS) == 100000000000000000000;
    DecLength(n, WORD_DIGITS);
    DecIsNumeral(n);
  }

  lemma TenthsLength(n: nat)
    requires n <= 1000
    ensures |Tenths(n)| <= WORD_DIGITS && IsNumeral(Tenths(n))
  {
    WordLength(n / 10);
    assert Pow10(3) == 1000;
    DecLength(n / 10, 3);
    TenthsIsNumeral(n);
  }

  ghost predicate TidyNames(names: seq<string>) {
    forall i :: 0 <= i < |names| ==> IsWordy(names[i]) && |names[i]| <= 20
  }

  lemma CpuNamesAreTidy()
    ensures TidyNames(CPU_NAMES)
  {
    assert IsWordy("usage_pct") && IsWordy("user_pct") && IsWordy("system_pct");
    assert IsWordy("idle_pct") && IsWordy("core_count");
  }

  lemma MemoryNamesAreTidy()
    ensures TidyNames(MEMORY_NAMES)
  {
    assert IsWordy("mem_total") && IsWordy("mem_available") && IsWordy("mem_free");
    assert IsWordy("mem_used") && IsWordy("swap_total");
    assert IsWordy("swap_free") && IsWordy("swap_used");
  }

  lemma InternalNamesAreTidy()
    ensures TidyNames(INTERNAL_NAMES)
  {
    assert IsWordy("buffer_depth");
    assert IsWordy("events_dropped_total");
    assert IsWordy("events_emitted_total");
  }

  lemma NumbersAreTidy(names: seq<string>, values: seq<string>)
    requires |names| == |values| && TidyNames(names)
    requires forall i :: 0 <= i < |values| ==> IsNumeral(values[i]) && |values[i]| <= 20
    ensures Tidy(Numbers(names, values))
  {
  }

  lemma PayloadIsTidy(timestamp: string, host: string, s: Sample)
    requires !s.IsList() && Sampled(timestamp, host, s)
    ensures Tidy(Payload(s)) && |Payload(s)| <= 7
  {
    match s
    case WarmingUp =>
    case Ready =>
    case Cpu(usage, user, system, idle, cores) => CpuIsTidy(usage, user, system, idle, cores);
    case Memory(total, available, free, used, swapTotal, swapFree, swapUsed) =>
      MemoryIsTidy(total, available, free, used, swapTotal, swapFree, swapUsed);
    case Internal(depth, dropped, emitted) => InternalIsTidy(depth, dropped, emitted);
  }

  lemma CpuIsTidy(usage: nat, user: nat, system: nat, idle: nat, cores: nat)
    requires usage <= 1000 && user <= 1000 && system <= 1000 && idle <= 1000 && cores < 0x8000_0000
    ensures Tidy(Payload(Cpu(usage, user, system, idle, cores)))
  {
    CpuNamesAreTidy();
    TenthsLength(usage);
    TenthsLength(user);
    TenthsLength(system);
    TenthsLength(idle);
    WordLength(cores);
    NumbersAreTidy(CPU_NAMES, [Tenths(usage), Tenths(user), Tenths(system), Tenths(idle), Dec(cores)]);
  }

  lemma MemoryIsTidy(a: nat, b: nat, c: nat, d: nat, e: nat, f: nat, g: nat)
    requires Words([a, b, c, d, e, f, g])
    ensures Tidy(Payload(Memory(a, b, c, d, e, f, g)))
  {
    var ns := [a, b, c, d, e, f, g];
    var values := [Dec(a), Dec(b), Dec(c), Dec(d), Dec(e), Dec(f), Dec(g)];
    MemoryNamesAreTidy();
    WordsAreTidy(MEMORY_NAMES, ns, values);
  }

  lemma InternalIsTidy(a: nat, b: nat, c: nat)
    requires Words([a, b, c])
    ensures Tidy(Payload(Internal(a, b, c)))
  {
    InternalNamesAreTidy();
    WordsAreTidy(INTERNAL_NAMES, [a, b, c], [Dec(a), Dec(b), Dec(c)]);
  }

  lemma WordsAreTidy(names: seq<string>, ns: seq<nat>, values: seq<string>)
    requires |names| == |ns| == |values| && TidyNames(names) && Words(ns)
    requires forall i :: 0 <= i < |ns| ==> values[i] == Dec(ns[i])
    ensures Tidy(Numbers(names, values))
  {
    forall i | 0 <= i < |values|
      ensures IsNumeral(values[i]) && |values[i]| <= 20
    {
      WordLength(ns[i]);
    }
    NumbersAreTidy(names, values);
  }

  // ----- lengths

  lemma FixedLength(eventType: string, timestamp: string, host: string, payload: seq<Field>)
    requires |timestamp| <= MAX_TIMESTAMP && Tidy(payload)
    ensures |FixedText(eventType, timestamp, host, payload)| <= 459 + |eventType| + 44 * |payload|
  {
    var fs, f := Envelope(eventType, timestamp, host), Field("payload", ObjectText(payload));
    ObjectWithLast(fs, f);
    EnvelopeLength(eventType, timestamp, host);
    JoinLength(FieldTexts(payload), 43);
    assert |FieldText(f)| == 10 + |ObjectText(payload)|;
  }

  lemma LifecycleTypesAreWordy()
    ensures IsWordy(EventType(WarmingUp)) && IsWordy(EventType(Ready))
  {
    assert IsWordy("syswatch.lifecycle.warming_up");
    assert IsWordy("syswatch.lifecycle.ready");
  }

  lemma MetricTypeIsWordy(s: Sample)
    requires s.Cpu? || s.Memory? || s.Internal?
    ensures IsWordy(EventType(s))
  {
    assert IsWordy("system.metrics.cpu") && IsWordy("system.metrics.memory") && IsWordy("syswatch.internal");
  }

  lemma EventTypeLength(s: Sample)
    requires !s.IsList()
    ensures Clean(EventType(s)) && IsAscii(EventType(s)) && |EventType(s)| <= 29
  {
    LifecycleTypesAreWordy();
    if !s.WarmingUp? && !s.Ready? {
      MetricTypeIsWordy(s);
    }
    WordyIsClean(EventType(s));
  }

  lemma NoNulInNumeral(text: string)
    requires IsNumeral(text)
    ensures '\0' !in text
  {
  }

  lemma NoNulInFixed(eventType: string, timestamp: string, host: string, payload: seq<Field>)
    requires Clean(eventType) && Clean(timestamp) && Tidy(payload)
    ensures '\0' !in FixedText(eventType, timestamp, host, payload)
  {
    var fs, f := Envelope(eventType, timestamp, host), Field("payload", ObjectText(payload));
    forall i | 0 <= i < |payload|
      ensures '\0' !in payload[i].name && '\0' !in payload[i].value
    {
      WordyIsClean(payload[i].name);
      CleanHasNoNul(payload[i].name);
      NoNulInNumeral(payload[i].value);
    }
    NoNulInFields(payload);
    NoNulInEnvelope(eventType, timestamp, host);
    ObjectWithLast(fs, f);
    NoNulAround(Join(FieldTexts(fs)), FieldText(f));
  }

  lemma NoNulAround(a: string, b: string)
    requires '\0' !in a && '\0' !in b
    ensures '\0' !in "{" + a + ("," + b + "}")
  {
  }

  /** Every event fits its buffer with the terminator and can be enqueued. */
  lemma FixedEventFits(timestamp: string, host: string, s: Sample)
    requires !s.IsList() && Sampled(timestamp, host, s) && |timestamp| <= MAX_TIMESTAMP && Clean(timestamp)
    ensures var text := EventText(timestamp, host, s);
      |text| < BufferSize(s) && '\0' !in text && Accepted(text)
  {
    PayloadIsTidy(timestamp, host, s);
    EventTypeLength(s);
    FixedLength(EventType(s), timestamp, host, Payload(s));
    NoNulInFixed(EventType(s), timestamp, host, Payload(s));
  }

  lemma ListEventFits(timestamp: string, host: string, s: Sample)
    requires s.IsList() && Sampled(timestamp, host, s) && |timestamp| <= MAX_TIMESTAMP && Clean(timestamp)
    ensures var text := EventText(timestamp, host, s);
      |text| < BUFFER_SIZE && '\0' !in text && Accepted(text)
  {
    var kind, k := ListKind(s), |s.entries|;
    var whole: seq<Entry> :|
      && (forall i :: 0 <= i < |whole| ==> whole[i].Sized())
      && CutAt(Header(kind, timestamp, host), kind, whole, k) && s.entries == whole[..k];
    KeptListFits(kind, timestamp, host, whole, k);
  }

  lemma KeptListFits(kind: Kind, timestamp: string, host: string, whole: seq<Entry>, k: nat)
    requires (kind == DISKS || kind == INTERFACES) && |timestamp| <= MAX_TIMESTAMP && Clean(timestamp)
    requires forall i :: 0 <= i < |whole| ==> whole[i].Sized()
    requires CutAt(Header(kind, timestamp, host), kind, whole, k)
    ensures var text := ListEvent(kind, timestamp, host, whole[..k]);
      3 <= |text| < BUFFER_SIZE && '\0' !in text
  {
    var header := Header(kind, timestamp, host);
    HeaderLength(kind, timestamp, host);
    NoNulInHeader(kind, timestamp, host);
    NoNulInList(kind, whole[..k]);
    KeptLength(header, kind, whole, k);
    NoNulBeforeClosing(header, Join(EntryTexts(kind, whole[..k])));
  }

  lemma KeptLength(header: string, kind: Kind, whole: seq<Entry>, k: nat)
    requires (kind == DISKS || kind == INTERFACES) && |header| < 1000 && CutAt(header, kind, whole, k)
    requires forall i :: 0 <= i < |whole| ==> whole[i].Sized()
    ensures |Partial(header, kind, whole, k)| < BUFFER_SIZE - 3
  {
    if k > 0 {
      PartialNext(header, kind, whole, k - 1);
      EntryLength(kind, whole[k - 1]);
    }
  }

  lemma NoNulBeforeClosing(a: string, b: string)
    requires '\0' !in a && '\0' !in b
    ensures '\0' !in a + b + "]}}"
  {
  }

  lemma NoNulInList(kind: Kind, entries: seq<Entry>)
    requires (kind == DISKS || kind == INTERFACES) && forall i :: 0 <= i < |entries| ==> entries[i].Sized()
    ensures '\0' !in Join(EntryTexts(kind, entries))
  {
    var texts := EntryTexts(kind, entries);
    forall i | 0 <= i < |texts|
      ensures '\0' !in texts[i]
    {
      NoNulInEntry(kind, entries[i]);
    }
    NoNulInJoin(texts);
  }

  /** Every event the collector builds fits its buffer whole and is accepted by the queue. */
  lemma EventIsAccepted(timestamp: string, host: string, s: Sample)
    requires Sampled(timestamp, host, s) && |timestamp| <= MAX_TIMESTAMP && Clean(timestamp)
    ensures var text := EventText(timestamp, host, s);
      && |text| < (if s.WarmingUp? || s.Ready? then 512 else if s.Disk? || s.Network? then 2048 else 1024)
      && '\0' !in text && Accepted(text)
  {
    if s.IsList() {
      ListEventFits(timestamp, host, s);
    } else {
      FixedEventFits(timestamp, host, s);
    }
  }

  /** The printing of an event without a list: one snprintf, which cuts nothing. */
  method BuildFixedEvent(timestamp: string, host: string, s: Sample) returns (json: array<char>)
    requires !s.IsList() && Sampled(timestamp, host, s)
    requires |timestamp| <= MAX_TIMESTAMP && Clean(timestamp)
    ensures fresh(json) && json.Length == (if s.WarmingUp? || s.Ready? then 512 else 1024)
    ensures HoldsText(json[..], EventText(timestamp, host, s))
    ensures var read := Parse(EventText(timestamp, host, s)); read.Some? && Tells(read.value, timestamp, host, s)
  {
    EventTells(timestamp, host, s);
    FixedEventFits(timestamp, host, s);
    var text := EventText(timestamp, host, s);
    json := new char[BufferSize(s)];
    assert json[..0] == "" && text[..|text|] == text && "" + text == text;
    var _ := Snprintf(json, 0, text);
  }

  // ----- reading the events back

  function NumberMembers(fs: seq<Field>): seq<(string, Value)> {
    seq(|fs|, i requires 0 <= i < |fs| => (fs[i].name, Num(fs[i].value)))
  }

  function PayloadOf(s: Sample): Value {
    if s.IsList() then Obj([(ListKind(s).list, Arr(EntryValues(ListKind(s), s.entries)))])
    else Obj(NumberMembers(Payload(s)))
  }

  /** What an event says. */
  function Meaning(timestamp: string, host: string, s: Sample): Value {
    Obj(EventMembers(EventType(s), timestamp, HostShown(host)) + [("payload", PayloadOf(s))])
  }

  lemma TidyReads(fs: seq<Field>)
    requires Tidy(fs)
    ensures FieldsRead(fs, NumberMembers(fs))
  {
    forall i | 0 <= i < |fs|
      ensures FieldReads(fs[i], NumberMembers(fs)[i])
    {
      WordyIsClean(fs[i].name);
      CleanReads(fs[i].name);
      NumeralReads(fs[i].value);
    }
  }

  lemma EmptyObjectReads()
    ensures Reads(ObjectText([]), Obj([]))
  {
    var text := ObjectText([]);
    assert FieldTexts([]) == [] && text == "{" + "" + "}" == "{}";
    assert text[1..] == "}" && text[1..][1..] == "";
    assert SkipWs(text) == text && SkipWs(text[1..]) == text[1..];
  }

  lemma PayloadReads(fs: seq<Field>)
    requires Tidy(fs)
    ensures Reads(ObjectText(fs), Obj(NumberMembers(fs)))
  {
    if fs == [] {
      EmptyObjectReads();
      assert NumberMembers(fs) == [];
    } else {
      TidyReads(fs);
      ObjectReads(fs, NumberMembers(fs));
    }
  }

  lemma FixedEventReads(timestamp: string, host: string, s: Sample)
    requires !s.IsList() && Sampled(timestamp, host, s) && Clean(timestamp)
    ensures Reads(EventText(timestamp, host, s), Meaning(timestamp, host, s))
  {
    PayloadIsTidy(timestamp, host, s);
    EventTypeLength(s);
    var fs, ms := Envelope(EventType(s), timestamp, host), EventMembers(EventType(s), timestamp, HostShown(host));
    EnvelopeReads(EventType(s), timestamp, host);
    PayloadReads(Payload(s));
    PayloadNameIsClean();
    AppendedFieldReads(fs, ms, "payload", ObjectText(Payload(s)), PayloadOf(s));
    ObjectReads(fs + [Field("payload", ObjectText(Payload(s)))], ms + [("payload", PayloadOf(s))]);
  }

  lemma PayloadNameIsClean()
    ensures Clean("payload") && IsAscii("payload")
  {
  }

  /** Every event reads back as what it says, the list events if and only if their names are clean. */
  lemma EventReads(timestamp: string, host: string, s: Sample)
    requires Sampled(timestamp, host, s) && Clean(timestamp)
    ensures Parse(EventText(timestamp, host, s)) == Some(Meaning(timestamp, host, s)) <==>
            (s.IsList() ==> CleanNames(s.entries))
    ensures (s.IsList() ==> CleanNames(s.entries)) ==> Reads(EventText(timestamp, host, s), Meaning(timestamp, host, s))
  {
    if s.IsList() {
      ReadsBackExactlyWhenClean(ListKind(s), timestamp, host, s.entries);
      if CleanNames(s.entries) {
        ListEventReads(ListKind(s), timestamp, host, s.entries);
      }
    } else {
      FixedEventReads(timestamp, host, s);
      assert SkipWs("") == "";
    }
  }

  /** Whatever follows an event: if it is read as what it says, its names are clean. */
  lemma ReadsOnlyIfPlain(timestamp: string, host: string, s: Sample, x: string)
    requires Sampled(timestamp, host, s) && Clean(timestamp)
    requires var text := EventText(timestamp, host, s) + x;
      ParseValue(text).Some? && ParseValue(text).value.0 == Meaning(timestamp, host, s)
    ensures s.IsList() ==> CleanNames(s.entries)
  {
    if s.IsList() {
      ReadsOnlyWhenClean(ListKind(s), timestamp, host, s.entries, x);
    }
  }

  lemma EventIsBraced(timestamp: string, host: string, s: Sample)
    ensures var text := EventText(timestamp, host, s); text != "" && text[0] == '{'
  {
    if s.IsList() {
      EventStartsWithBrace(ListKind(s), timestamp, host, s.entries);
    }
  }

  // ----- and what they tell

  lemma TenthsAreTold(name: string, n: nat)
    ensures TellsTenths((name, Num(Tenths(n))), name, n)
  {
    var whole := Dec(n / 10);
    var text := Tenths(n);
    assert text[..|text| - 2] == whole && text[|text| - 2] == '.' && text[|text| - 1] == Digit(n % 10);
    DecRoundTrip(n / 10);
  }

  lemma CpuIsTold(usage: nat, user: nat, system: nat, idle: nat, cores: nat)
    ensures TellsPayload(NumberMembers(Payload(Cpu(usage, user, system, idle, cores))),
                         Cpu(usage, user, system, idle, cores))
  {
    TenthsAreTold("usage_pct", usage);
    TenthsAreTold("user_pct", user);
    TenthsAreTold("system_pct", system);
    TenthsAreTold("idle_pct", idle);
    WholeIsTold("core_count", cores);
  }

  lemma MemoryIsTold(a: nat, b: nat, c: nat, d: nat, e: nat, f: nat, g: nat)
    ensures TellsPayload(NumberMembers(Payload(Memory(a, b, c, d, e, f, g))), Memory(a, b, c, d, e, f, g))
  {
    MembersAreTold(MEMORY_NAMES, [a, b, c, d, e, f, g], [Dec(a), Dec(b), Dec(c), Dec(d), Dec(e), Dec(f), Dec(g)]);
  }

  lemma InternalIsTold(depth: nat, dropped: nat, emitted: nat)
    ensures TellsPayload(NumberMembers(Payload(Internal(depth, dropped, emitted))), Internal(depth, dropped, emitted))
  {
    MembersAreTold(INTERNAL_NAMES, [depth, dropped, emitted], [Dec(depth), Dec(dropped), Dec(emitted)]);
  }

  lemma MembersAreTold(names: seq<string>, ns: seq<nat>, values: seq<string>)
    requires |names| == |ns| == |values| && forall i :: 0 <= i < |ns| ==> values[i] == Dec(ns[i])
    ensures TellsWholes(NumberMembers(Numbers(names, values)), names, ns)
  {
    forall i | 0 <= i < |names|
      ensures TellsWhole(NumberMembers(Numbers(names, values))[i], names[i], ns[i])
    {
      WholeIsTold(names[i], ns[i]);
    }
  }

  lemma EntriesAreTold(kind: Kind, entries: seq<Entry>)
    ensures TellsEntries([(kind.list, Arr(EntryValues(kind, entries)))], kind.list, entries, kind.first, kind.second)
  {
    forall i | 0 <= i < |entries|
      ensures TellsEntry(EntryValues(kind, entries)[i], entries[i], kind.first, kind.second)
    {
      WholeIsTold(kind.first, entries[i].first);
      WholeIsTold(kind.second, entries[i].second);
    }
  }

  lemma PayloadIsTold(s: Sample)
    ensures TellsPayload(PayloadOf(s).members, s)
  {
    match s
    case WarmingUp =>
    case Ready =>
    case Cpu(usage, user, system, idle, cores) => CpuIsTold(usage, user, system, idle, cores);
    case Memory(total, available, free, used, swapTotal, swapFree, swapUsed) =>
      MemoryIsTold(total, available, free, used, swapTotal, swapFree, swapUsed);
    case Internal(depth, dropped, emitted) => InternalIsTold(depth, dropped, emitted);
    case Disk(entries) => EntriesAreTold(DISKS, entries);
    case Network(entries) => EntriesAreTold(INTERFACES, entries);
  }

  lemma EnvelopeIsTold(eventType: string, timestamp: string, host: string, payload: Value)
    requires payload.Obj?
    ensures IsEvent(Obj(EventMembers(eventType, timestamp, host) + [("payload", payload)]), eventType, timestamp, host)
  {
    var ms := EventMembers(eventType, timestamp, host);
    assert (ms + [("payload", payload)])[..7] == ms;
  }

  /** What an event says is what was measured: its type, time, host, and every number under its name. */
  lemma MeaningTells(timestamp: string, host: string, s: Sample)
    ensures Tells(Meaning(timestamp, host, s), timestamp, host, s)
  {
    EnvelopeIsTold(EventType(s), timestamp, HostShown(host), PayloadOf(s));
    PayloadIsTold(s);
  }

  /** So parsing the text of an event with clean names gives a value that tells what was measured. */
  lemma EventTells(timestamp: string, host: string, s: Sample)
    requires Sampled(timestamp, host, s) && Clean(timestamp) && (s.IsList() ==> CleanNames(s.entries))
    ensures Parse(EventText(timestamp, host, s)).Some?
    ensures Tells(Parse(EventText(timestamp, host, s)).value, timestamp, host, s)
  {
    EventReads(timestamp, host, s);
    MeaningTells(timestamp, host, s);
  }

  // ----- and decoding them

  lemma TidyIsUtf8(fs: seq<Field>)
    requires Tidy(fs)
    ensures Utf8Valid(ObjectText(fs))
  {
    forall i | 0 <= i < |fs|
      ensures Utf8Valid(fs[i].name) && Utf8Valid(fs[i].value)
    {
      WordyIsClean(fs[i].name);
      AsciiIsValid(fs[i].name);
      assert forall j :: 0 <= j < |fs[i].value| ==> IsNumChar(fs[i].value[j]);
      AsciiIsValid(fs[i].value);
    }
    ObjectIsUtf8(fs);
  }

  /** Every event decodes exactly when the timestamp, the host as shown and the names in it do. */
  lemma EventDecodes(timestamp: string, host: string, s: Sample)
    requires Sampled(timestamp, host, s)
    ensures Utf8Valid(EventText(timestamp, host, s)) <==>
            Utf8Valid(timestamp) && Utf8Valid(HostShown(host)) && (s.IsList() ==> NamesDecode(s.entries))
  {
    if s.IsList() {
      EventIsUtf8(ListKind(s), timestamp, host, s.entries);
    } else {
      PayloadIsTidy(timestamp, host, s);
      EventTypeLength(s);
      TidyIsUtf8(Payload(s));
      EnvelopeDecides(EventType(s), timestamp, host);
      PayloadNameIsClean();
      AsciiIsValid("payload");
      WithLastField(Envelope(EventType(s), timestamp, host), Field("payload", ObjectText(Payload(s))),
                    Utf8Valid(timestamp), Utf8Valid(HostShown(host)));
    }
  }
}
