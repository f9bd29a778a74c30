/** How a line as a person writes it is read: what counts as a comment, any blanks around the parts of a
    line, plain and quoted values, and the lines that are refused for their form. */
module ConfigLines {
  import opened ConfigText

  // ----- the parts of a line

  /** Spaces, tabs and line ends. */
  predicate Blanks(s: string) {
    forall i :: 0 <= i < |s| ==> s[i] == ' ' || s[i] == '\t' || s[i] == '\r' || s[i] == '\n'
  }

  predicate IsEdge(c: char) {
    c != ' ' && c != '\t' && c != '\r' && c != '\n'
  }

  /** Empty, or with no blank at either end. */
  predicate Solid(s: string) {
    s != "" ==> IsEdge(s[0]) && IsEdge(s[|s| - 1])
  }

  /** A comment sign outside quotes, at the start or after a white character. */
  predicate CommentAt(s: string, k: nat) {
    && k < |s| && s[k] == '#' && Quotes(s[..k]) % 2 == 0
    && (k == 0 || (var c := s[k - 1];
                   c == ' ' || c == '\t' || c == '\n' || c == '\r' || c == 11 as char || c == 12 as char))
  }

  lemma {:induction false} CutIsFirstFrom(s: string, i: nat)
    requires i <= |s|
    ensures var r := CutFrom(s, i, InQuotes(s, i));
      (r < |s| ==> CommentAt(s, r)) && forall k :: i <= k < r ==> !CommentAt(s, k)
    decreases |s| - i
  {
    if i < |s| {
      InQuotesStep(s, i);
      if CutFrom(s, i, InQuotes(s, i)) != i {
        CutIsFirstFrom(s, i + 1);
      }
    }
  }

  /** A line is cut at its first comment sign outside quotes, and the blanks before it go too. */
  lemma CutIsFirstComment(s: string) returns (cut: nat)
    ensures cut <= |s| && (cut < |s| ==> CommentAt(s, cut)) && forall k :: 0 <= k < cut ==> !CommentAt(s, k)
    ensures var text := StripComment(s);
      && |text| <= cut && text == s[..|text|] && Blanks(s[|text|..cut]) && (text != "" ==> IsEdge(text[|text| - 1]))
  {
    cut := CutFrom(s, 0, false);
    assert s[..0] == "";
    CutIsFirstFrom(s, 0);
    RTrimLeaves(s[..cut]);
    var n := |StripComment(s)|;
    assert s[..cut][n..] == s[n..cut] && s[..cut][..n] == s[..n];
  }

  lemma TrimOfSolid(a: string, s: string, b: string)
    requires Blanks(a) && Solid(s) && Blanks(b)
    ensures Trim(a + s + b) == s
  {
    var line := a + s + b;
    assert line == a + (s + b) && line[..|a|] == a && line[|a|..] == s + b;
    LTrimBlanks(line, |a|);
    if s == "" {
      assert s + b == b && b[..|b|] == b && b[|b|..] == "";
      LTrimBlanks(b, |b|);
    } else {
      RTrimDropsBlanks(s, b);
    }
  }

  // ----- what a line says

  /** How a value can be written: as it is, if it holds no quote and no comment sign and no blank at either
      end, or in quotes, if it holds no quote. */
  predicate Writes(w: string, value: string) {
    || (w == value && Solid(value) && '"' !in value && '#' !in value)
    || (w == "\"" + value + "\"" && '"' !in value)
  }

  predicate KeyText(key: string) {
    key != "" && Solid(key) && ':' !in key && '"' !in key && '#' !in key
  }

  function Spaces(n: nat): string {
    seq(n, _ => ' ')
  }

  lemma WrittenValue(w: string, value: string)
    requires Writes(w, value)
    ensures Solid(w) && Unquote(w) == value
  {
    if w == "\"" + value + "\"" {
      assert w[1..|w| - 1] == value;
    }
  }

  lemma {:induction false} NoQuotesIn(s: string)
    requires '"' !in s
    ensures Quotes(s) == 0
  {
    if s != "" {
      assert '"' !in s[..|s| - 1];
      NoQuotesIn(s[..|s| - 1]);
    }
  }

  /** Nothing in a written key and value is a comment. */
  lemma NoCommentIn(front: string, w: string, value: string, b: string)
    requires '"' !in front && '#' !in front && Writes(w, value) && Blanks(b)
    ensures forall k: nat :: !CommentAt(front + w + b, k)
  {
    var s := front + w + b;
    forall k: nat | k < |s| && s[k] == '#'
      ensures !CommentAt(s, k)
    {
      assert '#' !in b;
      assert |front| <= k < |front| + |w|;
      var m := k - |front|;
      assert w[m] == '#';
      var inner := value[..m - 1];
      assert s[..k] == front + "\"" + inner;
      NoQuotesIn(front);
      QuotesOf(front + "\"", inner);
    }
  }

  lemma {:induction false} QuotesOf(open: string, inner: string)
    requires '"' !in inner
    ensures Quotes(open + inner) == Quotes(open)
    decreases |inner|
  {
    if inner == "" {
      assert open + inner == open;
    } else {
      assert (open + inner)[..|open + inner| - 1] == open + inner[..|inner| - 1];
      QuotesOf(open, inner[..|inner| - 1]);
    }
  }

  /** So stripping leaves all of it but the blanks at its end. */
  lemma NothingIsCut(text: string)
    requires forall k: nat :: !CommentAt(text, k)
    ensures StripComment(text) == RTrim(text)
  {
    var cut := CutIsFirstComment(text);
    CutIsFirstFrom(text, 0);
    assert text[..0] == "" && text[..|text|] == text;
    assert CutFrom(text, 0, false) == |text|;
  }

  lemma {:induction false} FirstColon(front: string, rest: string)
    requires ':' !in front && rest != "" && rest[0] == ':'
    ensures IndexOf(front + rest, ':') == |front|
    decreases |front|
  {
    if front == "" {
      assert front + rest == rest;
    } else {
      assert (front + rest)[1..] == front[1..] + rest;
      FirstColon(front[1..], rest);
    }
  }

  lemma {:induction false} SpacesLead(n: nat, text: string)
    requires text != "" && IsEdge(text[0])
    ensures var line := Spaces(n) + text;
      LeadingSpaces(line) == n && LTrim(line) == text && line[n..] == text
  {
    var line := Spaces(n) + text;
    if n == 0 {
      assert line == text;
    } else {
      assert line[1..] == Spaces(n - 1) + text;
      SpacesLead(n - 1, text);
    }
  }

  /** What is left of a written line: key, colon and value, without the blanks at the end. */
  lemma WrittenText(key: string, b1: string, b2: string, w: string, value: string, b3: string)
    requires KeyText(key) && Blanks(b1) && Blanks(b2) && Blanks(b3) && Writes(w, value)
    ensures Trim(StripComment(key + b1 + ":" + b2 + w + b3)) ==
      key + b1 + ":" + (if w == "" then "" else b2 + w)
  {
    var front := key + b1 + ":" + b2;
    assert '"' !in front && '#' !in front;
    NoCommentIn(front, w, value, b3);
    NothingIsCut(front + w + b3);
    WrittenValue(w, value);
    RTrimDropsBlanks(front + w, b3);
    if w == "" {
      assert front + w == key + b1 + ":" + b2;
      RTrimDropsBlanks(key + b1 + ":", b2);
      EndsSolid(key + b1 + ":");
      assert key + b1 + ":" + "" == key + b1 + ":";
    } else {
      assert front + w == key + b1 + ":" + (b2 + w);
      assert (front + w)[|front + w| - 1] == w[|w| - 1];
      EndsSolid(front + w);
    }
  }

  lemma EndsSolid(s: string)
    requires s != "" && IsEdge(s[0]) && IsEdge(s[|s| - 1])
    ensures RTrim(s) == s && Trim(s) == s
  {
  }

  lemma WrittenSplits(nested: bool, key: string, b1: string, b2: string, w: string, value: string)
    requires KeyText(key) && Blanks(b1) && Blanks(b2) && Writes(w, value)
    ensures SplitLine(nested, key + b1 + ":" + (if w == "" then "" else b2 + w)) == Assignment(nested, key, value)
  {
    SplitAtColon(nested, key + b1, if w == "" then "" else b2 + w);
    KeyIsTrimmed(key, b1);
    ValueIsTrimmed(b2, w, value);
  }

  lemma SplitAtColon(nested: bool, front: string, rest: string)
    requires ':' !in front
    ensures SplitLine(nested, front + ":" + rest) == Assignment(nested, Unquote(Trim(front)), Unquote(Trim(rest)))
  {
    var body := front + ":" + rest;
    assert body == front + (":" + rest);
    FirstColon(front, ":" + rest);
    assert body[..|front|] == front && body[|front| + 1..] == rest;
  }

  lemma KeyIsTrimmed(key: string, b1: string)
    requires KeyText(key) && Blanks(b1)
    ensures Unquote(Trim(key + b1)) == key
  {
    assert "" + key + b1 == key + b1;
    TrimOfSolid("", key, b1);
  }

  lemma ValueIsTrimmed(b2: string, w: string, value: string)
    requires Blanks(b2) && Writes(w, value)
    ensures Unquote(Trim(if w == "" then "" else b2 + w)) == value
  {
    WrittenValue(w, value);
    if w != "" {
      assert b2 + w + "" == b2 + w;
      TrimOfSolid(b2, w, "");
    }
  }

  /** A key and its value, at the left margin or indented by two spaces, with any blanks around the colon
      and at the end, the value as it is or in quotes. */
  lemma WrittenLine(n: nat, key: string, b1: string, b2: string, w: string, value: string, b3: string)
    requires (n == 0 || n == 2) && KeyText(key) && Blanks(b1) && Blanks(b2) && Blanks(b3) && Writes(w, value)
    ensures ParseLine(Spaces(n) + (key + b1 + ":" + b2 + w + b3)) == Assignment(n == 2, key, value)
  {
    var text := key + b1 + ":" + b2 + w + b3;
    assert text[0] == key[0];
    SpacesLead(n, text);
    WrittenText(key, b1, b2, w, value, b3);
    WrittenSplits(n == 2, key, b1, b2, w, value);
  }

  /** A line that holds more than blanks and a comment is refused for any other indentation, whatever it
      says, and else for lacking a colon. */
  lemma LineIsRefused(n: nat, text: string)
    requires text != "" && IsEdge(text[0]) && text[0] != '#'
    ensures n != 0 && n != 2 ==> ParseLine(Spaces(n) + text) == BadIndent
    ensures (n == 0 || n == 2) && ':' !in text ==> ParseLine(Spaces(n) + text) == NoColon
  {
    SpacesLead(n, text);
    if (n == 0 || n == 2) && ':' !in text {
      StrippedStartsAlike(text);
      NoColonIn(StripComment(text));
    }
  }

  lemma StrippedStartsAlike(text: string)
    requires text != "" && IsEdge(text[0]) && text[0] != '#'
    ensures var body := StripComment(text); body != "" && body <= text && Trim(body) == body
  {
    var cut := CutIsFirstComment(text);
    var body := StripComment(text);
    assert cut > 0 && body != "";
    EndsSolid(body);
  }

  lemma {:induction false} NoColonIn(s: string)
    requires ':' !in s
    ensures IndexOf(s, ':') == |s|
  {
    if s != "" {
      NoColonIn(s[1..]);
    }
  }
}
