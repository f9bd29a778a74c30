/** json_escape_string of src/output.c: escapes a C string into a buffer of fixed size,
    stopping before the first character whose escaped form does not fit. */
module JsonEscape {
  import opened Options
  import opened Json
  import opened Utf8Text

  function LowerHex(d: nat): char
    requires d < 16
  {
    if d < 10 then ('0' as nat + d) as char else ('a' as nat + d - 10) as char
  }

  /** The switch of the source: the letter of a two-character escape. */
  function ShortEscape(c: char): Option<char> {
    if c == '"' || c == '\\' then Some(c)
    else if c == 8 as char then Some('b')
    else if c == 12 as char then Some('f')
    else if c == '\n' then Some('n')
    else if c == '\r' then Some('r')
    else if c == '\t' then Some('t')
    else None
  }

  /** A two-character escape, \u00XX for other control bytes, anything else as it is. */
  function EscapeChar(c: char): (r: string)
    ensures 1 <= |r| <= 6
  {
    var short := ShortEscape(c);
    if short.Some? then ['\\', short.value]
    else if c < ' ' then UnicodeForm(c)
    else [c]
  }

  function UnicodeForm(c: char): (r: string)
    requires c < ' '
    ensures |r| == 6
  {
    ['\\', 'u', '0', '0', LowerHex(c as nat / 16), LowerHex(c as nat % 16)]
  }

  /** The escapes of the switch, and of two other control bytes, as they are written and as section 7 of RFC
      8259 reads them. */
  lemma EscapesAreThose()
    ensures EscapeChar('"') == "\\\"" && EscapeChar('\\') == "\\\\"
    ensures EscapeChar('\n') == "\\n" && EscapeChar('\r') == "\\r" && EscapeChar('\t') == "\\t"
    ensures EscapeChar(8 as char) == "\\b" && EscapeChar(12 as char) == "\\f"
    ensures EscapeChar(1 as char) == "\\u0001" && EscapeChar(31 as char) == "\\u001f"
    ensures Unit("\\n") == Some(("\n", 2)) && Unit("\\t") == Some(("\t", 2)) && Unit("\\r") == Some(("\r", 2))
  {
  }

  function Escape(s: string): string {
    if s == "" then "" else EscapeChar(s[0]) + Escape(s[1..])
  }

  /** What is written when `room` characters are available before the terminator. */
  function EscapeWithin(s: string, room: nat): (r: string)
    ensures |r| <= room
  {
    if s == "" then ""
    else
      var e := EscapeChar(s[0]);
      if |e| <= room then e + EscapeWithin(s[1..], room - |e|) else ""
  }

  /** `buffer` starts with `text` and its terminator. */
  ghost predicate HoldsText(buffer: seq<char>, text: string) {
    |text| < |buffer| && buffer[..|text|] == text && buffer[|text|] == '\0' && '\0' !in text
  }

  /** json_escape_string.  A null input leaves an empty string; a buffer of size 0 is not touched. */
  method JsonEscapeString(input: Option<string>, output: array<char>)
    requires input.Some? ==> '\0' !in input.value
    modifies output
    ensures output.Length > 0 ==>
      HoldsText(output[..], if input.Some? then EscapeWithin(input.value, output.Length - 1) else "")
  {
    if output.Length == 0 {
      return;
    }
    output[0] := '\0';
    if input.None? {
      return;
    }
    var written := FillEscaped(input.value, output);
    output[written] := '\0';
    EscapedHasNoControls(input.value, output.Length - 1);
  }

  /** What is written and what is to come make up the whole. */
  ghost predicate Copying(s: string, size: nat, done: string, rest: string, room: nat) {
    done + EscapeWithin(rest, room) == EscapeWithin(s, size)
  }

  lemma CopyFront(s: string, size: nat, done: string, rest: string, room: nat)
    requires Copying(s, size, done, rest, room) && rest != ""
    ensures var e := EscapeChar(rest[0]);
      if |e| <= room then Copying(s, size, done + e, rest[1..], room - |e|) else done == EscapeWithin(s, size)
  {
    assert done + "" == done;
  }

  lemma CopyDone(s: string, size: nat, done: string, rest: string, room: nat)
    requires Copying(s, size, done, rest, room) && (rest == "" || room == 0)
    ensures done == EscapeWithin(s, size)
  {
    assert done + "" == done;
  }

  /** The copying loop, up to but without the terminator. */
  method FillEscaped(s: string, output: array<char>) returns (written: nat)
    requires output.Length > 0
    modifies output
    ensures written < output.Length && output[..written] == EscapeWithin(s, output.Length - 1)
  {
    written := 0;
    var cursor: nat := 0;
    ghost var size, done, rest, room := output.Length - 1, "", s, output.Length - 1;
    while cursor < |s| && written + 1 < output.Length
      invariant cursor <= |s| && rest == s[cursor..] && room == size - written >= 0
      invariant output[..written] == done && Copying(s, size, done, rest, room)
    {
      CopyFront(s, size, done, rest, room);
      var n := PutEscaped(s[cursor], output, written);
      if n == 0 {
        assert output[..written] == output[..][..written] == done;
        return;
      }
      done, rest, room := done + EscapeChar(s[cursor]), rest[1..], room - n;
      written := written + n;
      cursor := cursor + 1;
    }
    CopyDone(s, size, done, rest, room);
  }

  /** One round: copies the escaped form of `c`, or nothing when it does not fit. */
  method PutEscaped(c: char, output: array<char>, at: nat) returns (n: nat)
    requires at < output.Length
    modifies output
    ensures n == if |EscapeChar(c)| <= output.Length - 1 - at then |EscapeChar(c)| else 0
    ensures at + n < output.Length
    ensures n > 0 ==> output[..at + n] == old(output[..at]) + EscapeChar(c)
    ensures n == 0 ==> output[..] == old(output[..])
  {
    var replacement := EscapeChar(c);
    if at + |replacement| >= output.Length {
      return 0;
    }
    CopyInto(output, at, replacement);
    return |replacement|;
  }

  /** memcpy of a short string. */
  method CopyInto(output: array<char>, at: nat, text: string)
    requires at + |text| <= output.Length
    modifies output
    ensures output[..at + |text|] == old(output[..at]) + text
  {
    var i := 0;
    while i < |text|
      invariant i <= |text|
      invariant forall j :: 0 <= j < output.Length ==>
        output[j] == if at <= j < at + i then text[j - at] else old(output[j])
    {
      output[at + i] := text[i];
      i := i + 1;
    }
  }

  lemma {:induction false} EscapedHasNoControls(s: string, room: nat)
    ensures forall i :: 0 <= i < |EscapeWithin(s, room)| ==> EscapeWithin(s, room)[i] >= ' '
    decreases |s|
  {
    if s != "" && |EscapeChar(s[0])| <= room {
      EscapedHasNoControls(s[1..], room - |EscapeChar(s[0])|);
      assert forall i :: 0 <= i < |EscapeChar(s[0])| ==> EscapeChar(s[0])[i] >= ' ';
    }
  }

  // ----- reading an escaped text back

  lemma HexRoundTrip(d: nat)
    requires d < 16
    ensures HexDigit(LowerHex(d)) == Some(d)
  {
  }

  /** An escaped character reads back as one unit, whatever follows. */
  lemma EscapedUnit(c: char, x: string)
    ensures Unit(EscapeChar(c) + x) == Some(([c], |EscapeChar(c)|)) && EscapeChar(c)[0] != '"'
  {
    var e := EscapeChar(c);
    assert (e + x)[..|e|] == e;
    if |e| == 6 {
      HexRoundTrip(c as nat / 16);
      HexRoundTrip(c as nat % 16);
      assert (e + x)[2] == e[2] && (e + x)[3] == e[3] && (e + x)[4] == e[4] && (e + x)[5] == e[5];
      assert Encode(c as nat) == [c];
    }
  }

  /** Escaping loses nothing: the reader gets every input back, and stops at the closing quote. */
  lemma {:induction false} EscapeRoundTrip(s: string, x: string)
    ensures ParseString(Escape(s) + "\"" + x) == Some((s, x))
    decreases |s|
  {
    if s == "" {
      assert Escape(s) + "\"" + x == "\"" + x;
    } else {
      var more := Escape(s[1..]) + "\"" + x;
      assert Escape(s) + "\"" + x == EscapeChar(s[0]) + more;
      EscapeRoundTrip(s[1..], x);
      UnitInFront(s[0], more);
      assert [s[0]] + s[1..] == s;
    }
  }

  lemma UnitInFront(c: char, more: string)
    requires ParseString(more).Some?
    ensures ParseString(EscapeChar(c) + more) == Some(([c] + ParseString(more).value.0, ParseString(more).value.1))
  {
    EscapedUnit(c, more);
    assert (EscapeChar(c) + more)[|EscapeChar(c)|..] == more;
  }

  /** How many input characters fit. */
  function Kept(s: string, room: nat): (k: nat)
    ensures k <= |s|
  {
    if s == "" then 0
    else
      var e := EscapeChar(s[0]);
      if |e| <= room then 1 + Kept(s[1..], room - |e|) else 0
  }

  /** What is written is the escaped form of the longest input prefix that fits. */
  lemma {:induction false} LongestPrefixIsKept(s: string, room: nat)
    ensures var k := Kept(s, room);
      && EscapeWithin(s, room) == Escape(s[..k])
      && (k < |s| ==> |Escape(s[..k + 1])| > room)
    decreases |s|
  {
    if s != "" && |EscapeChar(s[0])| <= room {
      var left := room - |EscapeChar(s[0])|;
      LongestPrefixIsKept(s[1..], left);
      var k := Kept(s[1..], left);
      assert s[..k + 1][1..] == s[1..][..k];
      if k < |s[1..]| {
        assert s[..k + 2][1..] == s[1..][..k + 1];
      }
    } else if s != "" {
      assert Escape(s[..1]) == EscapeChar(s[0]) + Escape("") by {
        assert s[..1][1..] == "";
      }
    }
  }

  /** Escaping into `size - 1` characters: whatever was cut, the written text is a complete
      string body that reads back as the longest prefix that fits. */
  lemma TruncatedEscapeRoundTrip(s: string, room: nat, x: string)
    ensures var k := Kept(s, room);
      && ParseString(EscapeWithin(s, room) + "\"" + x) == Some((s[..k], x))
      && (forall j :: k < j <= |s| ==> |Escape(s[..j])| > room)
  {
    LongestPrefixIsKept(s, room);
    var k := Kept(s, room);
    EscapeRoundTrip(s[..k], x);
    forall j | k < j <= |s|
      ensures |Escape(s[..j])| > room
    {
      EscapeGrows(s[..j], k + 1);
      assert s[..j][..k + 1] == s[..k + 1];
    }
  }

  lemma {:induction false} EscapeGrows(s: string, k: nat)
    requires k <= |s|
    ensures |Escape(s[..k])| <= |Escape(s)| <= |Escape(s[..k])| + 6 * (|s| - k)
    decreases |s|
  {
    if k > 0 {
      assert s[..k][1..] == s[1..][..k - 1];
      EscapeGrows(s[1..], k - 1);
    } else if s != "" {
      EscapeGrows(s[1..], 0);
      assert s[1..][..0] == s[..0];
    }
  }

  /** A buffer of more than six bytes per input byte never cuts. */
  lemma RoomForEverything(s: string, size: nat)
    requires size > 6 * |s|
    ensures Kept(s, size - 1) == |s| && EscapeWithin(s, size - 1) == Escape(s)
  {
    LongestPrefixIsKept(s, size - 1);
    EverythingIsKept(s, size - 1);
    assert s[..|s|] == s;
  }

  lemma {:induction false} EverythingIsKept(s: string, room: nat)
    requires room >= 6 * |s|
    ensures Kept(s, room) == |s|
    decreases |s|
  {
    if s != "" {
      EverythingIsKept(s[1..], room - |EscapeChar(s[0])|);
    }
  }

  // ----- bytes above 0x7F

  lemma AsciiFeeds(d: Decoder, a: string)
    requires Sound(d) && a != "" && IsAscii(a)
    ensures FeedAll(d, a) == if d == Between then Between else Broken
  {
    if d == Between {
      AsciiIsValid(a);
    } else {
      BrokenStays(a[1..]);
    }
  }

  lemma EscapeCharFeeds(d: Decoder, c: char)
    requires Sound(d)
    ensures FeedAll(d, EscapeChar(c)) == Feed(d, c)
  {
    var e := EscapeChar(c);
    if c as nat < 0x80 {
      AsciiFeeds(d, e);
      AsciiFeeds(d, [c]);
    } else {
      assert e[1..] == "" && e == [c];
    }
  }

  /** Escaping touches ASCII only, so to a UTF-8 decoder the escaped text is as good as the text. */
  lemma {:induction false} EscapeFeeds(d: Decoder, s: string)
    requires Sound(d)
    ensures FeedAll(d, Escape(s)) == FeedAll(d, s)
    decreases |s|
  {
    if s != "" {
      FeedConcat(d, EscapeChar(s[0]), Escape(s[1..]));
      EscapeCharFeeds(d, s[0]);
      EscapeFeeds(Feed(d, s[0]), s[1..]);
    }
  }

  /** The written text is valid UTF-8 exactly when the kept prefix is; for valid input that is
      exactly when the cut falls between two characters. */
  lemma EscapeWithinIsUtf8(s: string, room: nat)
    ensures var k := Kept(s, room);
      && (Utf8Valid(EscapeWithin(s, room)) <==> Utf8Valid(s[..k]))
      && (Utf8Valid(s) ==> (Utf8Valid(EscapeWithin(s, room)) <==> AtBoundary(s, k)))
  {
    var k := Kept(s, room);
    LongestPrefixIsKept(s, room);
    EscapeFeeds(Between, s[..k]);
    if Utf8Valid(s) {
      CutIsValid(s, k);
    }
  }
}
