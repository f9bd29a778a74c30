/** load_config_file of src/config.c in its own form: one 1024-byte line buffer that is filled by
    fgets, then trimmed, cut and unquoted in place through indices into it. Every method is proved
    against the functions of ConfigText and ConfigLoad. */
module ConfigBuffer {
  import opened Options
  import opened ConfigText
  import opened ConfigLoad

  /** A pointer `p` into the buffer at which C reads the string `s`. */
  ghost predicate TextAt(buf: array<char>, p: nat, s: string)
    reads buf
  {
    && p + |s| < buf.Length
    && buf[p..p + |s|] == s
    && '\0' !in s
    && buf[p + |s|] == '\0'
  }

  /** Only positions `from` to `to` may differ from the earlier contents. */
  ghost predicate OnlyWithin(before: seq<char>, after: seq<char>, from: nat, to: nat) {
    && |before| == |after|
    && forall i :: 0 <= i < |after| && !(from <= i < to) ==> after[i] == before[i]
  }

  lemma TextSurvives(buf: array<char>, before: seq<char>, from: nat, to: nat, p: nat, s: string)
    requires OnlyWithin(before, buf[..], from, to)
    requires p + |s| < |before| && before[p..p + |s|] == s && before[p + |s|] == '\0' && '\0' !in s
    requires to <= p || p + |s| < from
    ensures TextAt(buf, p, s)
  {
    forall i | 0 <= i < |s|
      ensures buf[p + i] == s[i]
    {
      assert buf[..][p + i] == before[p + i] == before[p..p + |s|][i];
    }
    assert buf[..][p + |s|] == before[p + |s|];
    assert buf[p..p + |s|] == s;
  }

  lemma CharAt(buf: array<char>, p: nat, s: string, i: nat)
    requires TextAt(buf, p, s) && i <= |s|
    ensures buf[p + i] == if i < |s| then s[i] else '\0'
    ensures buf[p + i] == '\0' <==> i == |s|
    ensures TextAt(buf, p + i, s[i..])
  {
    assert i < |s| ==> buf[p + i] == buf[p..p + |s|][i] == s[i];
    forall k | 0 <= k < |s| - i
      ensures buf[p + i + k] == s[i..][k]
    {
      assert buf[p + i + k] == buf[p..p + |s|][i + k];
    }
    assert buf[p + i..p + i + |s[i..]|] == s[i..];
  }

  /** Writing a terminator inside a text cuts it. */
  lemma CutText(buf: array<char>, before: seq<char>, p: nat, s: string, n: nat)
    requires n <= |s| && p + |s| < buf.Length == |before|
    requires before[p..p + |s|] == s && '\0' !in s
    requires buf[..] == before[p + n := '\0']
    ensures TextAt(buf, p, s[..n])
  {
    forall i | 0 <= i < n
      ensures buf[p + i] == s[i]
    {
      assert buf[..][p + i] == before[p..p + |s|][i];
    }
    assert buf[..][p + n] == '\0';
    assert buf[p..p + n] == s[..n];
  }

  method StrLen(buf: array<char>, p: nat, ghost s: string) returns (n: nat)
    requires TextAt(buf, p, s)
    ensures n == |s|
  {
    n := 0;
    CharAt(buf, p, s, 0);
    while buf[p + n] != '\0'
      invariant n <= |s|
      invariant buf[p + n] == '\0' <==> n == |s|
      decreases |s| - n
    {
      n := n + 1;
      CharAt(buf, p, s, n);
    }
  }

  /** What strcmp and strncpy read at a pointer. */
  method ReadText(buf: array<char>, p: nat, ghost s: string) returns (t: string)
    requires TextAt(buf, p, s)
    ensures t == s
  {
    var n := StrLen(buf, p, s);
    t := buf[p..p + n];
  }

  /** ltrim moves the pointer and leaves the buffer alone. */
  method SkipBlanks(buf: array<char>, p: nat, ghost s: string) returns (q: nat)
    requires TextAt(buf, p, s)
    ensures TextAt(buf, q, LTrim(s)) && q + |LTrim(s)| == p + |s|
  {
    q := p;
    ghost var rest := s;
    CharAt(buf, p, s, 0);
    while IsBlank(buf[q])
      invariant TextAt(buf, q, rest) && q + |rest| == p + |s|
      invariant buf[q] == if rest == "" then '\0' else rest[0]
      invariant LTrim(rest) == LTrim(s)
      decreases |rest|
    {
      CharAt(buf, q, rest, 1);
      q, rest := q + 1, rest[1..];
      CharAt(buf, q, rest, 0);
    }
  }

  /** rtrim overwrites trailing blanks with terminators. */
  method CutBlanks(buf: array<char>, p: nat, ghost s: string)
    requires TextAt(buf, p, s)
    modifies buf
    ensures TextAt(buf, p, RTrim(s))
    ensures OnlyWithin(old(buf[..]), buf[..], p, p + |s|)
  {
    var len := StrLen(buf, p, s);
    ghost var kept := s;
    while len > 0 && IsBlank(buf[p + len - 1])
      invariant TextAt(buf, p, kept) && len == |kept| <= |s|
      invariant RTrim(kept) == RTrim(s)
      invariant OnlyWithin(old(buf[..]), buf[..], p, p + |s|)
      decreases len
    {
      CharAt(buf, p, kept, len - 1);
      ghost var before := buf[..];
      assert before[p..p + |kept|] == kept;
      buf[p + len - 1] := '\0';
      CutText(buf, before, p, kept, len - 1);
      len, kept := len - 1, kept[..len - 1];
    }
    if len > 0 {
      CharAt(buf, p, kept, len - 1);
    }
  }

  /** strip_inline_comment. */
  method CutComment(buf: array<char>, p: nat, ghost s: string)
    requires TextAt(buf, p, s)
    modifies buf
    ensures TextAt(buf, p, StripComment(s))
    ensures OnlyWithin(old(buf[..]), buf[..], p, p + |s|)
  {
    var inQuotes, i := false, 0;
    CharAt(buf, p, s, 0);
    while buf[p + i] != '\0'
      invariant i <= |s| && TextAt(buf, p, s)
      invariant buf[..] == old(buf[..])
      invariant buf[p + i] == if i < |s| then s[i] else '\0'
      invariant buf[p + i] == '\0' <==> i == |s|
      invariant CutFrom(s, i, inQuotes) == CutFrom(s, 0, false)
      decreases |s| - i
    {
      if buf[p + i] == '"' {
        inQuotes := !inQuotes;
      } else if !inQuotes && buf[p + i] == '#' {
        if i > 0 {
          CharAt(buf, p, s, i - 1);
        }
        if i == 0 || IsSpace(buf[p + i - 1]) {
          assert old(buf[..])[p..p + |s|] == s;
          buf[p + i] := '\0';
          CutText(buf, old(buf[..]), p, s, i);
          break;
        }
      }
      i := i + 1;
      CharAt(buf, p, s, i);
    }
    assert TextAt(buf, p, s[..CutFrom(s, 0, false)]) by {
      assert s[..|s|] == s;
    }
    CutBlanks(buf, p, s[..CutFrom(s, 0, false)]);
  }

  lemma MovedLeft(buf: array<char>, before: seq<char>, p: nat, s: string)
    requires |s| >= 2 && p + |s| < |before| == buf.Length
    requires before[p..p + |s|] == s && '\0' !in s
    requires forall i :: p <= i < p + |s| - 2 ==> buf[i] == before[i + 1]
    requires buf[p + |s| - 2] == '\0'
    ensures TextAt(buf, p, s[1..|s| - 1])
  {
    var inner := s[1..|s| - 1];
    forall i | 0 <= i < |inner|
      ensures buf[p + i] == inner[i]
    {
      assert buf[p + i] == before[p + i + 1] == before[p..p + |s|][i + 1];
    }
    assert buf[p..p + |inner|] == inner;
  }

  /** unquote: the inner text is moved one place to the left, overlapping itself. */
  method DropQuotes(buf: array<char>, p: nat, ghost s: string)
    requires TextAt(buf, p, s)
    modifies buf
    ensures TextAt(buf, p, Unquote(s))
    ensures OnlyWithin(old(buf[..]), buf[..], p, p + |s|)
  {
    var len := StrLen(buf, p, s);
    if len >= 2 {
      CharAt(buf, p, s, 0);
      CharAt(buf, p, s, len - 1);
      if buf[p] == '"' && buf[p + len - 1] == '"' {
        ghost var before := buf[..];
        assert before[p..p + |s|] == s;
        forall i | p <= i < p + len - 2 {
          buf[i] := buf[i + 1];
        }
        buf[p + len - 2] := '\0';
        MovedLeft(buf, before, p, s);
      }
    }
  }

  /** strchr for the colon. */
  method FindColon(buf: array<char>, p: nat, ghost s: string) returns (k: nat)
    requires TextAt(buf, p, s)
    ensures k == IndexOf(s, ':')
  {
    k := 0;
    CharAt(buf, p, s, 0);
    while buf[p + k] != '\0' && buf[p + k] != ':'
      invariant k <= |s|
      invariant buf[p + k] == if k < |s| then s[k] else '\0'
      invariant buf[p + k] == '\0' <==> k == |s|
      invariant ':' !in s[..k]
      decreases |s| - k
    {
      assert s[..k + 1] == s[..k] + [s[k]];
      k := k + 1;
      CharAt(buf, p, s, k);
    }
    FirstIsUnique(s, ':', k);
  }

  lemma FirstIsUnique(s: string, c: char, k: nat)
    requires k <= |s| && c !in s[..k] && (k < |s| ==> s[k] == c)
    ensures k == IndexOf(s, c)
  {
  }

  /** Trims and unquotes the text at a pointer and reads it. */
  method TakeField(buf: array<char>, p: nat, ghost s: string) returns (field: string)
    requires TextAt(buf, p, s)
    modifies buf
    ensures field == Unquote(Trim(s))
    ensures OnlyWithin(old(buf[..]), buf[..], p, p + |s|)
  {
    var q := SkipBlanks(buf, p, s);
    CutBlanks(buf, q, LTrim(s));
    DropQuotes(buf, q, Trim(s));
    field := ReadText(buf, q, Unquote(Trim(s)));
  }

  lemma {:induction false} LTrimStops(s: string)
    ensures LTrim(s) == "" || !IsBlank(LTrim(s)[0])
  {
    if s != "" && IsBlank(s[0]) {
      LTrimStops(s[1..]);
    }
  }

  /** The colon becomes a terminator: two texts side by side, neither of them containing NUL. */
  lemma ColonSplits(buf: array<char>, before: seq<char>, p: nat, s: string, k: nat)
    requires k < |s| && p + |s| < buf.Length == |before|
    requires before[p..p + |s|] == s && before[p + |s|] == '\0' && '\0' !in s
    requires buf[..] == before[p + k := '\0']
    ensures TextAt(buf, p, s[..k]) && TextAt(buf, p + k + 1, s[k + 1..])
  {
    CutText(buf, before, p, s, k);
    var value := s[k + 1..];
    forall i | 0 <= i < |value|
      ensures buf[p + k + 1 + i] == value[i]
    {
      assert buf[..][p + k + 1 + i] == before[p..p + |s|][k + 1 + i];
    }
    assert buf[..][p + |s|] == before[p + |s|];
    assert buf[p + k + 1..p + k + 1 + |value|] == value;
  }

  /** Cuts the trimmed line at its first colon and takes both sides. */
  method SplitHere(buf: array<char>, p: nat, nested: bool, ghost s: string) returns (parsed: Parsed)
    requires TextAt(buf, p, s)
    modifies buf
    ensures parsed == SplitLine(nested, s)
  {
    CharAt(buf, p, s, 0);
    if buf[p] == '\0' {
      return Skipped;
    }
    var k := FindColon(buf, p, s);
    assert SplitLine(nested, s) == SplitAt(nested, s, k);
    CharAt(buf, p, s, k);
    if buf[p + k] == '\0' {
      return NoColon;
    }
    var key, value := SplitInPlace(buf, p, s, k);
    return Assignment(nested, key, value);
  }

  method SplitInPlace(buf: array<char>, p: nat, ghost s: string, k: nat) returns (key: string, value: string)
    requires TextAt(buf, p, s) && k < |s|
    modifies buf
    ensures key == Unquote(Trim(s[..k])) && value == Unquote(Trim(s[k + 1..]))
  {
    CutColon(buf, p, s, k);
    key, value := TakeBoth(buf, p, s[..k], p + k + 1, s[k + 1..]);
  }

  method CutColon(buf: array<char>, p: nat, ghost s: string, k: nat)
    requires TextAt(buf, p, s) && k < |s|
    modifies buf
    ensures TextAt(buf, p, s[..k]) && TextAt(buf, p + k + 1, s[k + 1..])
  {
    ghost var before := buf[..];
    assert before[p..p + |s|] == s;
    buf[p + k] := '\0';
    ColonSplits(buf, before, p, s, k);
  }

  /** Takes the key, then the value behind it, which the work on the key has not touched. */
  method TakeBoth(buf: array<char>, p: nat, ghost a: string, q: nat, ghost b: string)
      returns (key: string, value: string)
    requires TextAt(buf, p, a) && TextAt(buf, q, b) && p + |a| <= q
    modifies buf
    ensures key == Unquote(Trim(a)) && value == Unquote(Trim(b))
  {
    ghost var before := buf[..];
    assert before[q..q + |b|] == b;
    key := TakeField(buf, p, a);
    TextSurvives(buf, before, p, p + |a|, q, b);
    value := TakeField(buf, q, b);
  }

  method CountSpaces(buf: array<char>, ghost s: string) returns (n: nat)
    requires TextAt(buf, 0, s)
    ensures n == LeadingSpaces(s)
  {
    n := 0;
    CharAt(buf, 0, s, 0);
    ghost var rest := s;
    while buf[n] == ' '
      invariant n + |rest| == |s| && TextAt(buf, n, rest)
      invariant buf[n] == if rest == "" then '\0' else rest[0]
      invariant LeadingSpaces(s) == n + LeadingSpaces(rest)
      decreases |rest|
    {
      CharAt(buf, n, rest, 1);
      n, rest := n + 1, rest[1..];
      CharAt(buf, n, rest, 0);
    }
  }

  /** The loop body of load_config_file up to the choice of section. */
  method ParseHere(buf: array<char>, ghost line: string) returns (parsed: Parsed)
    requires TextAt(buf, 0, line)
    modifies buf
    ensures parsed == ParseLine(line)
  {
    var cursor := SkipBlanks(buf, 0, line);
    CharAt(buf, cursor, LTrim(line), 0);
    LTrimStops(line);
    if buf[cursor] == '\0' || buf[cursor] == '\n' || buf[cursor] == '#' {
      return Skipped;
    }
    var indent := CountSpaces(buf, line);
    if indent != 0 && indent != 2 {
      return BadIndent;
    }
    CharAt(buf, 0, line, indent);
    ghost var body := line[indent..];
    CutComment(buf, indent, body);
    cursor := SkipBlanks(buf, indent, StripComment(body));
    CutBlanks(buf, cursor, LTrim(StripComment(body)));
    parsed := SplitHere(buf, cursor, indent == 2, Trim(StripComment(body)));
  }

  /** What one character more says about the length of the whole chunk. */
  lemma ChunkGoesOn(whole: nat, n: nat, rest: string, room: nat)
    requires room > 0 && rest != "" && whole == n + ChunkLength(rest, room)
    ensures if rest[0] == '\n' || room == 1 then whole == n + 1
            else whole == n + 1 + ChunkLength(rest[1..], room - 1)
  {
  }

  /** fgets: the rest of the line or as much of it as fits, with a terminator; 0 at the end of the file. */
  method Fgets(buf: array<char>, text: string, pos: nat) returns (n: nat)
    requires buf.Length > 1 && pos <= |text|
    modifies buf
    ensures n == ChunkLength(text[pos..], buf.Length - 1)
    ensures n > 0 ==> TextAt(buf, 0, CString(text[pos..pos + n]))
  {
    n := CopyLine(buf, text, pos);
    if n > 0 {
      buf[n] := '\0';
      TerminatedIsText(buf, text[pos..pos + n]);
    }
  }

  /** The copying part of fgets. */
  method CopyLine(buf: array<char>, text: string, pos: nat) returns (n: nat)
    requires buf.Length > 1 && pos <= |text|
    modifies buf
    ensures n == ChunkLength(text[pos..], buf.Length - 1) && buf[..n] == text[pos..pos + n]
  {
    n := 0;
    ghost var whole, rest := ChunkLength(text[pos..], buf.Length - 1), text[pos..];
    var max, more := buf.Length - 1, true;
    while more && n < max && pos + n < |text|
      invariant n <= max && pos + n <= |text| && rest == text[pos + n..]
      invariant buf[..n] == text[pos..pos + n]
      invariant more && n < max ==> whole == n + ChunkLength(rest, max - n)
      invariant !more || n == max ==> whole == n
      decreases max - n, more
    {
      var c := text[pos + n];
      NextChar(text, pos, n);
      ChunkGoesOn(whole, n, rest, max - n);
      PutChar(buf, n, c);
      n, rest := n + 1, rest[1..];
      more := c != '\n';
    }
  }

  method PutChar(buf: array<char>, n: nat, c: char)
    requires n < buf.Length
    modifies buf
    ensures buf[..n + 1] == old(buf[..n]) + [c]
  {
    buf[n] := c;
  }

  lemma NextChar(text: string, pos: nat, n: nat)
    requires pos + n < |text|
    ensures text[pos + n..][0] == text[pos + n] && text[pos + n..][1..] == text[pos + n + 1..]
    ensures text[pos..pos + n + 1] == text[pos..pos + n] + [text[pos + n]]
  {
  }

  lemma TerminatedIsText(buf: array<char>, s: string)
    requires |s| < buf.Length && buf[..|s|] == s && buf[|s|] == '\0'
    ensures TextAt(buf, 0, CString(s))
  {
    var k := IndexOf(s, '\0');
    assert buf[0..k] == buf[..|s|][..k];
    assert k < |s| ==> buf[k] == buf[..|s|][k];
  }

  lemma {:induction false} ErrorStops(l: Loader, lines: seq<string>)
    requires l.error.Some?
    ensures LoadLines(l, lines) == l
    decreases |lines|
  {
    if lines != [] {
      ErrorStops(l, lines[1..]);
    }
  }

  /** The branch on the section; a rejected setting ends the loop with its line number. */
  method Dispatch(l: Loader, nested: bool, key: string, value: string) returns (next: Loader)
    requires l.error.None?
    ensures next == Act(l, Assignment(nested, key, value))
  {
    next := l;
    var setting;
    if !nested {
      if value == "" && key == "output" {
        next := next.(section := OutputSection);
        return;
      }
      if value == "" && key == "collect" {
        next := next.(section := CollectSection);
        return;
      }
      if value == "" && key == "log" {
        next := next.(section := LogSection);
        return;
      }
      next := next.(section := TopLevel);
      setting := SetTopLevel(next.cfg, key, value);
    } else {
      match next.section {
        case TopLevel => setting := Rejected(NoSection(key));
        case OutputSection => setting := SetOutput(next.cfg, key, value);
        case CollectSection => setting := SetCollect(next.cfg, key, value);
        case LogSection => setting := SetLog(next.cfg, key, value);
      }
    }
    match setting {
      case Set(cfg) => next := next.(cfg := cfg);
      case Rejected(problem) => next := next.(error := Some((next.lineNo, problem)));
    }
  }

  /** The rest of the loop body, for a line that has been read. */
  method Advance(l: Loader, parsed: Parsed) returns (next: Loader)
    requires l.error.None?
    ensures next == LoadParsed(l, parsed)
  {
    next := l.(lineNo := l.lineNo + 1);
    match parsed {
      case Skipped =>
      case BadIndent => next := next.(error := Some((next.lineNo, Indentation)));
      case NoColon => next := next.(error := Some((next.lineNo, MissingColon)));
      case Assignment(nested, key, value) => next := Dispatch(next, nested, key, value);
    }
  }

  /** load_config_file: the loop over fgets, with one buffer for all lines. */
  method LoadConfigFile(cfg: Config, file: Option<string>) returns (l: Loader)
    ensures l == LoadFile(cfg, file)
  {
    l := Loader(cfg, TopLevel, 0, None);
    if file.None? {
      l := l.(error := Some((0, CannotOpen)));
      return;
    }
    var text, pos := file.value, 0;
    ghost var rest := text;
    assert text[0..] == text;
    var line := new char[LINE_SIZE];
    while true
      invariant pos <= |text| && rest == text[pos..] && l.error.None? && fresh(line)
      invariant LoadLines(l, FileLines(rest)) == LoadFile(cfg, file)
      decreases |text| - pos
    {
      var n := Fgets(line, text, pos);
      if n == 0 {
        break;
      }
      ghost var chunk := CString(text[pos..pos + n]);
      NextLine(l, text, pos, n);
      var parsed := ParseHere(line, chunk);
      l := Advance(l, parsed);
      pos, rest := pos + n, text[pos + n..];
      if l.error.Some? {
        ErrorStops(l, FileLines(rest));
        return;
      }
    }
  }

  lemma NextLine(l: Loader, text: string, pos: nat, n: nat)
    requires pos < pos + n <= |text| && n == ChunkLength(text[pos..], LINE_SIZE - 1)
    ensures LoadLines(l, FileLines(text[pos..])) ==
      LoadLines(LoadLine(l, CString(text[pos..pos + n])), FileLines(text[pos + n..]))
  {
    var rest := text[pos..];
    assert rest[..n] == text[pos..pos + n] && rest[n..] == text[pos + n..];
    var lines := FileLines(rest);
    assert lines == [CString(rest[..n])] + FileLines(rest[n..]);
    assert lines[0] == CString(rest[..n]) && lines[1..] == FileLines(rest[n..]);
  }
}
