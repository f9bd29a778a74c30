/** Which events the receiver can decode.  Nothing on the way from the host name to the request
    body looks at UTF-8: bytes above 0x7F are copied as they are, and fields are cut by bytes. */
module Receivable {
  import opened ConfigLoad
  import opened Decimal
  import opened HttpBody
  import opened Json
  import opened JsonCompose
  import opened JsonEscape
  import opened MetricEvents
  import opened Utf8Text

  lemma DecIsUtf8(n: nat)
    ensures Utf8Valid(Dec(n))
  {
    AsciiIsValid(Dec(n));
  }

  lemma EntryIsUtf8(kind: Kind, e: Entry)
    requires IsAscii(kind.first) && IsAscii(kind.second)
    ensures Utf8Valid(EntryText(kind, e)) <==> Utf8Valid(e.name)
  {
    var fs := EntryFields(kind, e);
    ObjectIsUtf8(fs);
    AsciiIsValid("name");
    AsciiIsValid(kind.first);
    AsciiIsValid(kind.second);
    QuotedIsUtf8(e.name);
    DecIsUtf8(e.first);
    DecIsUtf8(e.second);
    assert fs[0].value == Quoted(e.name) && fs[1].value == Dec(e.first) && fs[2].value == Dec(e.second);
  }

  ghost predicate NamesDecode(entries: seq<Entry>) {
    forall i :: 0 <= i < |entries| ==> Utf8Valid(entries[i].name)
  }

  lemma PayloadIsUtf8(kind: Kind, entries: seq<Entry>)
    requires IsAscii(kind.list) && IsAscii(kind.first) && IsAscii(kind.second)
    ensures Utf8Valid(ObjectText([Field(kind.list, ArrayText(EntryTexts(kind, entries)))])) <==> NamesDecode(entries)
  {
    var texts := EntryTexts(kind, entries);
    var f := Field(kind.list, ArrayText(texts));
    ObjectIsUtf8([f]);
    assert [f][0] == f;
    AsciiIsValid(kind.list);
    ArrayIsUtf8(texts);
    forall i | 0 <= i < |entries|
      ensures Utf8Valid(texts[i]) <==> Utf8Valid(entries[i].name)
    {
      EntryIsUtf8(kind, entries[i]);
    }
  }

  lemma HostJsonIsUtf8(host: string)
    ensures Utf8Valid(HostJson(host)) <==> Utf8Valid(HostShown(host))
  {
    EscapeWithinIsUtf8(HostText(host), HOST_JSON_SIZE - 1);
  }

  /** A decodable host name stays so exactly when neither its buffer nor the room for its escaped
      form ends inside one of its characters. */
  lemma HostStaysUtf8(host: string)
    requires Utf8Valid(host)
    ensures |HostShown(host)| <= |host| && HostShown(host) == host[..|HostShown(host)|]
    ensures Utf8Valid(HostShown(host)) <==> AtBoundary(host, |HostShown(host)|)
  {
    CutIsValid(host, |HostShown(host)|);
  }

  /** All fixed words of an envelope are ASCII. */
  lemma EnvelopeWords(eventType: string, timestamp: string, hostBody: string)
    requires IsAscii(eventType)
    ensures var parts := EnvelopeParts(eventType, timestamp, hostBody);
      && (forall i :: 0 <= i < |parts| ==> IsAscii(parts[i].0))
      && (forall i :: 0 <= i < |parts| && i != 1 && i != 2 ==> IsAscii(parts[i].1))
  {
  }

  lemma EnvelopeIsUtf8(eventType: string, timestamp: string, host: string, i: nat)
    requires IsAscii(eventType) && i < 7
    ensures var f := Envelope(eventType, timestamp, host)[i];
      Utf8Valid(f.name) && Utf8Valid(f.value) <==>
        (i == 1 ==> Utf8Valid(timestamp)) && (i == 2 ==> Utf8Valid(HostShown(host)))
  {
    var part := EnvelopeParts(eventType, timestamp, HostJson(host))[i];
    EnvelopeWords(eventType, timestamp, HostJson(host));
    AsciiIsValid(part.0);
    QuotedIsUtf8(part.1);
    HostJsonIsUtf8(host);
    if i != 1 && i != 2 {
      AsciiIsValid(part.1);
    }
  }

  /** Of seven fields the second and the third decide whether all decode. */
  ghost predicate Decide(fs: seq<Field>, second: bool, third: bool) {
    && |fs| == 7
    && forall i :: 0 <= i < 7 ==>
         (Utf8Valid(fs[i].name) && Utf8Valid(fs[i].value) <==> (i == 1 ==> second) && (i == 2 ==> third))
  }

  lemma EnvelopeDecides(eventType: string, timestamp: string, host: string)
    requires IsAscii(eventType)
    ensures Decide(Envelope(eventType, timestamp, host), Utf8Valid(timestamp), Utf8Valid(HostShown(host)))
  {
    var fs := Envelope(eventType, timestamp, host);
    forall i | 0 <= i < 7
      ensures Utf8Valid(fs[i].name) && Utf8Valid(fs[i].value) <==>
              (i == 1 ==> Utf8Valid(timestamp)) && (i == 2 ==> Utf8Valid(HostShown(host)))
    {
      EnvelopeIsUtf8(eventType, timestamp, host, i);
    }
  }

  lemma WithLastField(fs: seq<Field>, last: Field, second: bool, third: bool)
    requires Decide(fs, second, third) && Utf8Valid(last.name)
    ensures Utf8Valid(ObjectText(fs + [last])) <==> second && third && Utf8Valid(last.value)
  {
    var all := fs + [last];
    ObjectIsUtf8(all);
    assert all[1] == fs[1] && all[2] == fs[2] && all[7] == last;
    assert forall i :: 0 <= i < 7 ==> all[i] == fs[i];
  }

  /** An event decodes exactly when the host name as shown, the timestamp and all names do. */
  lemma EventIsUtf8(kind: Kind, timestamp: string, host: string, entries: seq<Entry>)
    requires kind == DISKS || kind == INTERFACES
    ensures Utf8Valid(ListEvent(kind, timestamp, host, entries)) <==>
            Utf8Valid(timestamp) && Utf8Valid(HostShown(host)) && NamesDecode(entries)
  {
    KnownKindsAreClean(kind);
    var payload := ObjectText([Field(kind.list, ArrayText(EntryTexts(kind, entries)))]);
    ListEventIsAnObject(kind, timestamp, host, entries);
    PayloadIsUtf8(kind, entries);
    AsciiIsValid("payload");
    EnvelopeDecides(kind.eventType, timestamp, host);
    WithLastField(Envelope(kind.eventType, timestamp, host), Field("payload", payload),
                  Utf8Valid(timestamp), Utf8Valid(HostShown(host)));
  }

  // ----- hosts whose events are lost

  /** A host name in Latin-1, as the config accepts it: its events are JSON to a reader of bytes,
      but the receiver does not decode them, and nothing batched with them gets through either. */
  lemma LatinHostIsLost(kind: Kind, timestamp: string, entries: seq<Entry>, others: seq<string>)
    requires (kind == DISKS || kind == INTERFACES) && Clean(timestamp) && CleanNames(entries)
    ensures var event := ListEvent(kind, timestamp, [0xE9 as char], entries);
      && Parse(event).Some?
      && !Utf8Valid(event)
      && Receive(ArrayText(others + [event])) == NoAnswer
  {
    var host := [0xE9 as char];
    var event := ListEvent(kind, timestamp, host, entries);
    ListEventReads(kind, timestamp, host, entries);
    assert HostText(host) == host && EscapeChar(host[0]) == host;
    assert Kept(host, HOST_JSON_SIZE - 1) == 1 && HostShown(host) == host;
    assert FeedAll(Between, host) == FeedAll(Inside(0x80, 0xBF, 1), host[1..]);
    EventIsUtf8(kind, timestamp, host, entries);
    ArrayIsUtf8(others + [event]);
    assert (others + [event])[|others|] == event;
  }

  lemma {:induction false} PlainIsKept(s: string, room: nat)
    requires |s| <= room && forall i :: 0 <= i < |s| ==> s[i] >= ' ' && s[i] != '"' && s[i] != '\\'
    ensures Kept(s, room) == |s|
    decreases |s|
  {
    if s != "" {
      PlainIsKept(s[1..], room - 1);
    }
  }

  /** A valid UTF-8 value of 128 bytes whose last character is cut in two by the config field. */
  lemma LongHostIsSplit(ascii: string)
    requires |ascii| == 126 && IsAscii(ascii) && Clean(ascii)
    ensures var value := ascii + [0xC3 as char, 0xA9 as char];
      Utf8Valid(value) && !Utf8Valid(HostShown(Fit(value, 128)))
  {
    var tail := [0xC3 as char, 0xA9 as char];
    var value := ascii + tail;
    assert tail == Encode(0xE9);
    EncodeDecodes(0xE9);
    AsciiInFront(ascii, tail);
    var host := Fit(value, HOST_SIZE);
    assert host == value[..HOST_SIZE - 1] == ascii + [0xC3 as char];
    CutIsValid(value, HOST_SIZE - 1);
    PlainIsKept(host, HOST_JSON_SIZE - 1);
    assert host[..|host|] == host;
  }

  lemma {:induction false} KeptBehind(s: string, x: string, room: nat)
    requires |Escape(s)| <= room
    ensures Kept(s + x, room) == |s| + Kept(x, room - |Escape(s)|)
    decreases |s|
  {
    if s == "" {
      assert s + x == x;
    } else {
      assert (s + x)[1..] == s[1..] + x;
      KeptBehind(s[1..], x, room - |EscapeChar(s[0])|);
    }
  }

  lemma {:induction false} EscapedControls(s: string)
    requires forall i :: 0 <= i < |s| ==> s[i] == 1 as char
    ensures |Escape(s)| == 6 * |s|
  {
    if s != "" {
      EscapedControls(s[1..]);
    }
  }

  /** A valid host name that fits every field: 42 control bytes and a quote take 254 characters escaped,
      so of the two bytes of the last character one fits. */
  lemma EscapedHostIsSplit(controls: string)
    requires |controls| == 42 && forall i :: 0 <= i < 42 ==> controls[i] == 1 as char
    ensures var host := controls + "\"" + [0xC3 as char, 0xA9 as char];
      Utf8Valid(host) && Fit(host, 128) == host && !Utf8Valid(HostShown(host))
  {
    var tail := [0xC3 as char, 0xA9 as char];
    var rest := "\"" + tail;
    var host := controls + "\"" + tail;
    assert host == controls + rest;
    assert tail == Encode(0xE9);
    EncodeDecodes(0xE9);
    AsciiInFront("\"", tail);
    AsciiInFront(controls, rest);
    EscapedControls(controls);
    KeptBehind(controls, rest, HOST_JSON_SIZE - 1);
    KeptOfQuoteAndTail(rest, tail);
    HostStaysUtf8(host);
    assert host[44] == 0xA9 as char;
  }

  lemma KeptOfQuoteAndTail(rest: string, tail: string)
    requires tail == [0xC3 as char, 0xA9 as char] && rest == "\"" + tail
    ensures Kept(rest, 3) == 2
  {
    assert rest[1..] == tail && tail[1..] == [0xA9 as char];
    assert EscapeChar(rest[0]) == "\\\"" && EscapeChar(tail[0]) == [tail[0]];
    assert Kept(tail[1..], 0) == 0;
    assert Kept(tail, 1) == 1;
  }
}
