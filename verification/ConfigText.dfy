/** How src/config.c reads one line, on plain strings: trimming, inline comments, quotes and the
    split into key and value. */
module ConfigText {
  import opened Options
  import opened Decimal

  /** The characters ltrim and rtrim remove. */
  predicate IsBlank(c: char) {
    c == ' ' || c == '\t' || c == '\r' || c == '\n'
  }

  /** isspace in the C locale. */
  predicate IsSpace(c: char) {
    IsBlank(c) || c == 11 as char || c == 12 as char
  }

  function LTrim(s: string): (r: string)
    ensures |r| <= |s|
  {
    if s != "" && IsBlank(s[0]) then LTrim(s[1..]) else s
  }

  function RTrim(s: string): (r: string)
    ensures |r| <= |s| && r == s[..|r|]
  {
    if s != "" && IsBlank(s[|s| - 1]) then RTrim(s[..|s| - 1]) else s
  }

  function Trim(s: string): string {
    RTrim(LTrim(s))
  }

  /** The loop of strip_inline_comment from position `i`: where the text is cut. */
  function CutFrom(s: string, i: nat, inQuotes: bool): (r: nat)
    requires i <= |s|
    ensures i <= r <= |s|
    decreases |s| - i
  {
    if i == |s| then i
    else if s[i] == '"' then CutFrom(s, i + 1, !inQuotes)
    else if !inQuotes && s[i] == '#' && (i == 0 || IsSpace(s[i - 1])) then i
    else CutFrom(s, i + 1, inQuotes)
  }

  function StripComment(s: string): string {
    RTrim(s[..CutFrom(s, 0, false)])
  }

  /** Removes one pair of surrounding quotes. */
  function Unquote(s: string): string {
    if |s| >= 2 && s[0] == '"' && s[|s| - 1] == '"' then s[1..|s| - 1] else s
  }

  /** strchr: the first position of `c`, or the length. */
  function IndexOf(s: string, c: char): (r: nat)
    ensures r <= |s| && (r < |s| ==> s[r] == c) && c !in s[..r]
  {
    if s == "" || s[0] == c then 0
    else
      assert forall k :: 0 < k <= |s| ==> s[..k] == [s[0]] + s[1..][..k - 1];
      1 + IndexOf(s[1..], c)
  }

  function LeadingSpaces(s: string): (r: nat)
    ensures r <= |s|
  {
    if s != "" && s[0] == ' ' then 1 + LeadingSpaces(s[1..]) else 0
  }

  /** What a line says. */
  datatype Parsed = Skipped | BadIndent | NoColon | Assignment(nested: bool, key: string, value: string)

  /** A trimmed line split at position `k`. */
  function SplitAt(nested: bool, body: string, k: nat): Parsed
    requires k <= |body|
  {
    if body == "" then Skipped
    else if k == |body| then NoColon
    else Assignment(nested, Unquote(Trim(body[..k])), Unquote(Trim(body[k + 1..])))
  }

  /** The split of a trimmed line at its first colon. */
  function SplitLine(nested: bool, body: string): Parsed {
    SplitAt(nested, body, IndexOf(body, ':'))
  }

  /** The loop body of load_config_file up to the choice of section. */
  function ParseLine(line: string): Parsed {
    var start := LTrim(line);
    var indent := LeadingSpaces(line);
    if start == "" || start[0] == '#' then Skipped
    else if indent != 0 && indent != 2 then BadIndent
    else SplitLine(indent == 2, Trim(StripComment(line[indent..])))
  }

  /** parse_int_value: strtol in base 10, all of the text, within a range. */
  function ParseInt(text: string, low: int, high: int): Option<int> {
    var s := SkipSpaces(text);
    var signed := s != "" && (s[0] == '-' || s[0] == '+');
    var digits := if signed then s[1..] else s;
    if digits == "" || !AllDecimal(digits) then None
    else
      var n: int := Undec(digits);
      var v := if signed && s[0] == '-' then -n else n;
      if low <= v <= high then Some(v) else None
  }

  function SkipSpaces(s: string): string {
    if s != "" && IsSpace(s[0]) then SkipSpaces(s[1..]) else s
  }

  // ----- layout of one line

  predicate AllBlank(s: string) {
    forall i :: 0 <= i < |s| ==> IsBlank(s[i])
  }

  /** `k` blanks, then a comment. */
  predicate IsComment(t: string, k: nat) {
    k < |t| && AllBlank(t[..k]) && t[k] == '#'
  }

  function Quotes(s: string): nat {
    if s == "" then 0 else Quotes(s[..|s| - 1]) + (if s[|s| - 1] == '"' then 1 else 0)
  }

  predicate Balanced(s: string) {
    Quotes(s) % 2 == 0
  }

  /** Whether a comment may follow: all quotes are closed, or the text has a comment already. */
  predicate TakesComment(s: string) {
    Balanced(s) || CutFrom(s, 0, false) < |s|
  }

  /** What can stand after `s` without being part of it: blanks, and if `s` takes a comment,
      a comment after at least one blank. */
  predicate Trails(s: string, t: string) {
    AllBlank(t) || (TakesComment(s) && exists k :: 0 < k < |t| && IsComment(t, k))
  }

  /** Quote state after the first `i` characters. */
  function InQuotes(s: string, i: nat): bool
    requires i <= |s|
  {
    Quotes(s[..i]) % 2 == 1
  }

  lemma InQuotesStep(s: string, i: nat)
    requires i < |s|
    ensures InQuotes(s, i + 1) == if s[i] == '"' then !InQuotes(s, i) else InQuotes(s, i)
  {
    assert s[..i + 1][..i] == s[..i];
  }

  /** Where the cut falls in a longer text: where it fell before, or as found from there on. */
  lemma {:induction false} CutExtends(s: string, x: string, i: nat)
    requires i <= |s|
    ensures var q := InQuotes(s, i);
      CutFrom(s + x, i, q) ==
        if CutFrom(s, i, q) < |s| then CutFrom(s, i, q) else CutFrom(s + x, |s|, !Balanced(s))
    decreases |s| - i
  {
    if i == |s| {
      assert s[..i] == s;
    } else {
      InQuotesStep(s, i);
      CutExtends(s, x, i + 1);
    }
  }

  lemma {:induction false} CutSkipsBlanks(s: string, i: nat, j: nat, q: bool)
    requires i <= j <= |s| && forall k :: i <= k < j ==> IsBlank(s[k])
    ensures CutFrom(s, i, q) == CutFrom(s, j, q)
    decreases j - i
  {
    if i < j {
      CutSkipsBlanks(s, i + 1, j, q);
    }
  }

  lemma {:induction false} RTrimDropsBlanks(s: string, t: string)
    requires AllBlank(t)
    ensures RTrim(s + t) == RTrim(s)
    decreases |t|
  {
    if t == "" {
      assert s + t == s;
    } else {
      assert (s + t)[..|s + t| - 1] == s + t[..|t| - 1];
      RTrimDropsBlanks(s, t[..|t| - 1]);
    }
  }

  /** Blanks at the end are trimmed away, inside quotes or not. */
  lemma BlanksAreStripped(s: string, t: string)
    requires AllBlank(t)
    ensures StripComment(s + t) == StripComment(s)
  {
    CutExtends(s, t, 0);
    assert s[..0] == "" && (s + t)[..0] == "";
    var cut := CutFrom(s, 0, false);
    if cut < |s| {
      assert (s + t)[..cut] == s[..cut];
    } else {
      CutSkipsBlanks(s + t, |s|, |s + t|, !Balanced(s));
      assert (s + t)[..|s + t|] == s + t && s[..|s|] == s;
      RTrimDropsBlanks(s, t);
    }
  }

  /** Outside quotes a comment is cut where its blanks end. */
  lemma CommentCut(s: string, t: string, k: nat, q: bool)
    requires 0 < k && IsComment(t, k)
    ensures CutFrom(s + t, |s|, q) == if q then CutFrom(s + t, |s| + k + 1, q) else |s| + k
  {
    forall j | |s| <= j < |s| + k
      ensures IsBlank((s + t)[j])
    {
      assert (s + t)[j] == t[..k][j - |s|];
    }
    CutSkipsBlanks(s + t, |s|, |s| + k, q);
    assert (s + t)[|s| + k] == '#' && (s + t)[|s| + k - 1] == t[..k][k - 1];
  }

  /** In a text that does not take a comment, the cut is behind the comment sign. */
  lemma CutBehindSign(s: string, t: string, k: nat)
    requires 0 < k && IsComment(t, k) && !TakesComment(s)
    ensures CutFrom(s + t, 0, false) > |s| + k && CutFrom(s, 0, false) == |s|
  {
    CutExtends(s, t, 0);
    assert s[..0] == "" && (s + t)[..0] == "";
    CommentCut(s, t, k, true);
  }

  /** So the comment sign stays. */
  lemma CommentSignStays(s: string, t: string, k: nat)
    requires 0 < k && IsComment(t, k) && !TakesComment(s)
    ensures |StripComment(s + t)| > |s| + k && StripComment(s) == RTrim(s)
  {
    CutBehindSign(s, t, k);
    var line := (s + t)[..CutFrom(s + t, 0, false)];
    assert line[|s| + k] == '#' by {
      assert (s + t)[|s| + k] == t[k];
    }
    RTrimStopsAt(line, |s| + k);
    assert s[..|s|] == s;
  }

  lemma {:induction false} RTrimStopsAt(s: string, k: nat)
    requires k < |s| && !IsBlank(s[k])
    ensures |RTrim(s)| > k
    decreases |s|
  {
    if IsBlank(s[|s| - 1]) {
      RTrimStopsAt(s[..|s| - 1], k);
    }
  }

  /** A comment is removed if and only if the text before it closes its quotes or is itself cut. */
  lemma CommentIsStrippedExactlyWhen(s: string, t: string, k: nat)
    requires 0 < k && IsComment(t, k)
    ensures StripComment(s + t) == StripComment(s) <==> TakesComment(s)
  {
    if TakesComment(s) {
      CutExtends(s, t, 0);
      assert s[..0] == "" && (s + t)[..0] == "";
      var cut := CutFrom(s, 0, false);
      if cut < |s| {
        assert (s + t)[..cut] == s[..cut];
      } else {
        CommentCut(s, t, k, false);
        assert (s + t)[..|s| + k] == s + t[..k] && s[..|s|] == s;
        RTrimDropsBlanks(s, t[..k]);
      }
    } else {
      CommentSignStays(s, t, k);
    }
  }

  /** Blanks, and comments where they are taken, are cut off or trimmed away. */
  lemma TrailerIsStripped(s: string, t: string)
    requires Trails(s, t)
    ensures StripComment(s + t) == StripComment(s)
  {
    if AllBlank(t) {
      BlanksAreStripped(s, t);
    } else {
      var k :| 0 < k && IsComment(t, k);
      CommentIsStrippedExactlyWhen(s, t, k);
    }
  }

  lemma {:induction false} LTrimExtends(s: string, x: string)
    ensures LTrim(s + x) == if LTrim(s) == "" then LTrim(x) else LTrim(s) + x
  {
    if s == "" {
      assert s + x == x;
    } else if IsBlank(s[0]) {
      assert (s + x)[1..] == s[1..] + x;
      LTrimExtends(s[1..], x);
    }
  }

  lemma TrailerStart(t: string, k: nat)
    requires AllBlank(t) || IsComment(t, k)
    ensures LTrim(t) == "" || LTrim(t)[0] == '#'
  {
    if AllBlank(t) {
      assert t[..|t|] == t;
      LTrimBlanks(t, |t|);
    } else {
      LTrimBlanks(t, k);
    }
  }

  lemma {:induction false} LTrimBlanks(t: string, k: nat)
    requires k <= |t| && AllBlank(t[..k])
    ensures LTrim(t) == LTrim(t[k..])
  {
    if k > 0 {
      assert t[..k][0] == t[0];
      assert t[1..][..k - 1] == t[..k][1..];
      LTrimBlanks(t[1..], k - 1);
      assert t[1..][k - 1..] == t[k..];
    }
  }

  lemma {:induction false} LeadingSpacesExtends(s: string, x: string)
    requires LTrim(s) != ""
    ensures LeadingSpaces(s + x) == LeadingSpaces(s) < |s|
  {
    if s[0] == ' ' {
      assert (s + x)[1..] == s[1..] + x;
      LeadingSpacesExtends(s[1..], x);
    }
  }

  lemma {:induction false} IndentHasNoQuotes(s: string)
    ensures Quotes(s[LeadingSpaces(s)..]) == Quotes(s)
  {
    if s != "" && s[0] == ' ' {
      IndentHasNoQuotes(s[1..]);
      QuotesFront(s);
      assert s[1..][LeadingSpaces(s[1..])..] == s[LeadingSpaces(s)..];
    }
  }

  lemma {:induction false} QuotesFront(s: string)
    requires s != ""
    ensures Quotes(s) == Quotes(s[1..]) + (if s[0] == '"' then 1 else 0)
    decreases |s|
  {
    if |s| > 1 {
      QuotesFront(s[..|s| - 1]);
      assert s[..|s| - 1][1..] == s[1..][..|s| - 2];
    }
  }

  lemma {:induction false} CutShifts(s: string, n: nat, i: nat, q: bool)
    requires n + i <= |s| && (i == 0 && n > 0 ==> IsSpace(s[n - 1]))
    ensures CutFrom(s, n + i, q) == n + CutFrom(s[n..], i, q)
    decreases |s| - i
  {
    if n + i < |s| {
      CutShifts(s, n, i + 1, if s[n + i] == '"' then !q else q);
    }
  }

  lemma {:induction false} IndentIsSpaces(s: string)
    ensures forall i :: 0 <= i < LeadingSpaces(s) ==> s[i] == ' '
  {
    if s != "" && s[0] == ' ' {
      IndentIsSpaces(s[1..]);
      assert forall i :: 0 < i < LeadingSpaces(s) ==> s[i] == s[1..][i - 1];
    }
  }

  /** The indentation has no part in whether a comment is taken. */
  lemma IndentTakesNoPart(s: string)
    ensures TakesComment(s[LeadingSpaces(s)..]) <==> TakesComment(s)
  {
    var n := LeadingSpaces(s);
    IndentHasNoQuotes(s);
    IndentIsSpaces(s);
    CutSkipsBlanks(s, 0, n, false);
    CutShifts(s, n, 0, false);
  }

  /** Trailers do not change what a line says. */
  lemma TrailerIsIgnored(s: string, t: string)
    requires Trails(s, t)
    ensures ParseLine(s + t) == ParseLine(s)
  {
    if LTrim(s) == "" {
      LTrimExtends(s, t);
      TrailerStart(t, if AllBlank(t) then 0 else var k :| 0 < k && IsComment(t, k); k);
    } else {
      LineStartsAlike(s, t);
      IndentTakesNoPart(s);
      TrailerIsStripped(s[LeadingSpaces(s)..], t);
    }
  }

  /** Nor does the newline that fgets leaves on a line. */
  lemma NewlineIsIgnored(s: string)
    ensures ParseLine(s + "\n") == ParseLine(s)
  {
    TrailerIsIgnored(s, "\n");
  }

  /** Both together, for a line as fgets returns it. */
  lemma TrailerBeforeNewlineIsIgnored(s: string, t: string)
    requires Trails(s, t)
    ensures ParseLine(s + t + "\n") == ParseLine(s + "\n")
  {
    NewlineIsIgnored(s + t);
    NewlineIsIgnored(s);
    TrailerIsIgnored(s, t);
  }

  // ----- which lines keep their meaning under a comment

  lemma {:induction false} LTrimIsSuffix(s: string)
    ensures LTrim(s) == s[|s| - |LTrim(s)|..] && (LTrim(s) != "" ==> !IsBlank(LTrim(s)[0]))
  {
    if s != "" && IsBlank(s[0]) {
      LTrimIsSuffix(s[1..]);
    }
  }

  /** A value with a comment stuck to it is longer than the value. */
  lemma ValueGrows(text: string, x: string, k: nat)
    requires 0 < k && IsComment(x, k) && !IsBlank(x[|x| - 1])
    ensures |Unquote(Trim(text + x))| > |Unquote(Trim(text))|
  {
    LTrimExtends(text, x);
    LTrimBlanks(x, k);
    var grown := LTrim(text + x);
    assert grown[|grown| - 1] == x[|x| - 1];
    assert Trim(text + x) == grown;
  }

  /** The text of a key and its value, with a comment stuck to it. */
  lemma SplitGrows(nested: bool, body: string, x: string, k: nat)
    requires SplitLine(nested, body).Assignment?
    requires 0 < k && IsComment(x, k) && !IsBlank(x[|x| - 1])
    ensures SplitLine(nested, body + x) != SplitLine(nested, body)
  {
    var c := IndexOf(body, ':');
    IndexOfPrefix(body, x, ':');
    SlicesOfConcat(body, x, c);
    ValueGrows(body[c + 1..], x, k);
    LongerValueDiffers(nested, body, body + x, c);
  }

  lemma LongerValueDiffers(nested: bool, a: string, b: string, c: nat)
    requires c < |a| && c < |b|
    requires |Unquote(Trim(b[c + 1..]))| > |Unquote(Trim(a[c + 1..]))|
    ensures SplitAt(nested, a, c) != SplitAt(nested, b, c)
  {
  }

  lemma SlicesOfConcat(s: string, x: string, c: nat)
    requires c < |s|
    ensures (s + x)[..c] == s[..c] && (s + x)[c + 1..] == s[c + 1..] + x
  {
  }

  lemma {:induction false} IndexOfPrefix(s: string, x: string, c: char)
    requires IndexOf(s, c) < |s|
    ensures IndexOf(s + x, c) == IndexOf(s, c)
  {
    if s[0] != c {
      assert (s + x)[1..] == s[1..] + x;
      IndexOfPrefix(s[1..], x, c);
    }
  }

  lemma {:induction false} RTrimLeaves(s: string)
    ensures AllBlank(s[|RTrim(s)|..]) && (RTrim(s) != "" ==> !IsBlank(RTrim(s)[|RTrim(s)| - 1]))
    decreases |s|
  {
    if s != "" && IsBlank(s[|s| - 1]) {
      RTrimLeaves(s[..|s| - 1]);
      var n := |RTrim(s)|;
      assert s[n..] == s[..|s| - 1][n..] + [s[|s| - 1]];
    }
  }

  lemma {:induction false} LTrimDropsBlanks(s: string)
    ensures AllBlank(s[..|s| - |LTrim(s)|])
  {
    if s != "" && IsBlank(s[0]) {
      LTrimDropsBlanks(s[1..]);
      var n := |s| - |LTrim(s)|;
      assert s[..n] == [s[0]] + s[1..][..n - 1];
    }
  }

  lemma SolidIsNotBlank(s: string, i: nat)
    requires i < |s| && !IsBlank(s[i])
    ensures LTrim(s) != ""
  {
    var n := |s| - |LTrim(s)|;
    LTrimDropsBlanks(s);
    assert forall j :: 0 <= j < n ==> s[..n][j] == s[j];
  }

  /** A text that ends in no blank is trimmed on the left only. */
  lemma SolidEnd(s: string)
    requires s != "" && !IsBlank(s[|s| - 1])
    ensures LTrim(s) != "" && Trim(s) == LTrim(s)
  {
    SolidIsNotBlank(s, |s| - 1);
    LTrimIsSuffix(s);
    var u := LTrim(s);
    assert u[|u| - 1] == s[|s| - 1];
  }

  /** What is left of a line whose comment is not taken: the old text with a comment behind it. */
  lemma CommentSticks(u: string, t: string, k: nat) returns (x: string, m: nat)
    requires 0 < k && IsComment(t, k) && !TakesComment(u)
    ensures 0 < m && IsComment(x, m) && !IsBlank(x[|x| - 1])
    ensures Trim(StripComment(u + t)) == Trim(StripComment(u)) + x
  {
    x, m := StrippedWithComment(u, t, k);
    QuotesStay(u);
    RTrimLeaves(u);
    TrimmedWithSuffix(RTrim(u), x);
  }

  lemma StripIsPrefix(w: string)
    ensures var r := StripComment(w);
      |r| <= |w| && r == w[..|r|] && (r != "" ==> !IsBlank(r[|r| - 1]))
  {
    RTrimLeaves(w[..CutFrom(w, 0, false)]);
  }

  lemma StrippedWithComment(u: string, t: string, k: nat) returns (x: string, m: nat)
    requires 0 < k && IsComment(t, k) && !TakesComment(u)
    ensures 0 < m && IsComment(x, m) && !IsBlank(x[|x| - 1])
    ensures StripComment(u) == RTrim(u) && StripComment(u + t) == RTrim(u) + x
  {
    CommentSignStays(u, t, k);
    StripIsPrefix(u + t);
    RTrimLeaves(u);
    x, m := BehindTrimmed(u, t, k, RTrim(u), StripComment(u + t));
  }

  /** A start of `u + t` beyond the comment sign, put together from the trimmed `u` and the rest. */
  lemma BehindTrimmed(u: string, t: string, k: nat, short: string, long: string) returns (x: string, m: nat)
    requires 0 < k && IsComment(t, k) && |u| + k < |long| <= |u + t| && long == (u + t)[..|long|]
    requires |short| <= |u| && short == u[..|short|] && AllBlank(u[|short|..]) && !IsBlank(long[|long| - 1])
    ensures 0 < m && IsComment(x, m) && !IsBlank(x[|x| - 1]) && long == short + x
  {
    x, m := long[|short|..], |u| - |short| + k;
    CommentBehind(u, t, k, long, |short|);
    assert long == long[..|short|] + x;
  }

  lemma TrimmedWithSuffix(short: string, x: string)
    requires short != "" && !IsBlank(short[|short| - 1]) && x != "" && !IsBlank(x[|x| - 1])
    ensures Trim(short + x) == Trim(short) + x
  {
    SolidEnd(short);
    SolidEnd(short + x);
    LTrimExtends(short, x);
  }

  /** Blanks at the end of `u` are further blanks before the comment. */
  lemma CommentBehind(u: string, t: string, k: nat, long: string, n: nat)
    requires IsComment(t, k) && n <= |u| && AllBlank(u[n..])
    requires |u| + k < |long| <= |u + t| && long == (u + t)[..|long|]
    ensures IsComment(long[n..], |u| - n + k) && long[..n] == u[..n]
  {
    var x, m := long[n..], |u| - n + k;
    forall i | 0 <= i < m
      ensures IsBlank(x[..m][i])
    {
      if i < |u| - n {
        assert x[i] == u[n..][i];
      } else {
        assert x[i] == t[..k][i - (|u| - n)];
      }
    }
  }

  /** Trimming removes no quote, so a text that does not take a comment is not blank. */
  lemma {:induction false} QuotesStay(s: string)
    requires !TakesComment(s)
    ensures RTrim(s) != ""
  {
    if RTrim(s) == "" {
      RTrimLeaves(s);
      assert s[0..] == s;
      BlanksHaveNoQuotes(s);
    }
  }

  lemma {:induction false} BlanksHaveNoQuotes(s: string)
    requires AllBlank(s)
    ensures Quotes(s) == 0
    decreases |s|
  {
    if s != "" {
      BlanksHaveNoQuotes(s[..|s| - 1]);
    }
  }

  lemma ColonSurvivesTrim(s: string)
    requires s != "" && !IsBlank(s[|s| - 1])
    ensures ':' in Trim(s) <==> ':' in s
  {
    SolidEnd(s);
    LTrimIsSuffix(s);
    LTrimDropsBlanks(s);
    var n := |s| - |LTrim(s)|;
    assert s == s[..n] + s[n..];
  }

  /** A line that does not take a comment has a text. */
  lemma OpenLineHasText(s: string)
    requires !TakesComment(s)
    ensures LTrim(s) != ""
  {
    if LTrim(s) == "" {
      LTrimDropsBlanks(s);
      assert s[..|s|] == s;
      BlanksHaveNoQuotes(s);
    }
  }

  /** Nor is it a comment line. */
  lemma OpenLineIsNoComment(s: string)
    requires !TakesComment(s) && LTrim(s) != ""
    ensures LTrim(s)[0] != '#'
  {
    var n := |s| - |LTrim(s)|;
    LTrimDropsBlanks(s);
    LTrimIsSuffix(s);
    assert forall i :: 0 <= i < n ==> s[..n][i] == s[i];
    CutSkipsBlanks(s, 0, n, false);
    assert s[n] == LTrim(s)[0];
  }

  /** What an open line says is split from a text that is not empty. */
  lemma OpenLineSays(s: string)
    requires !TakesComment(s) && !ParseLine(s).BadIndent?
    ensures var n := LeadingSpaces(s);
      var body := Trim(StripComment(s[n..]));
      ParseLine(s) == SplitLine(n == 2, body) && body != "" && !TakesComment(s[n..])
  {
    OpenLineHasText(s);
    OpenLineIsNoComment(s);
    IndentTakesNoPart(s);
    OpenTextStays(s[LeadingSpaces(s)..]);
  }

  lemma OpenTextStays(u: string)
    requires !TakesComment(u)
    ensures Trim(StripComment(u)) != ""
  {
    QuotesStay(u);
    RTrimLeaves(u);
    SolidEnd(RTrim(u));
    assert u[..|u|] == u;
  }

  /** What an open line says with a comment behind it. */
  lemma OpenLineWithComment(s: string, t: string)
    requires !TakesComment(s) && !ParseLine(s).BadIndent?
    ensures var n := LeadingSpaces(s);
      n < |s| && (s + t)[n..] == s[n..] + t
      && ParseLine(s + t) == SplitLine(n == 2, Trim(StripComment(s[n..] + t)))
  {
    OpenLineHasText(s);
    OpenLineIsNoComment(s);
    LineStartsAlike(s, t);
  }

  /** The indentation and the first character of a text are those of the text with a trailer. */
  lemma LineStartsAlike(s: string, t: string)
    requires LTrim(s) != ""
    ensures var n := LeadingSpaces(s);
      n == LeadingSpaces(s + t) < |s| && (s + t)[n..] == s[n..] + t
      && LTrim(s + t) != "" && LTrim(s + t)[0] == LTrim(s)[0]
  {
    LTrimExtends(s, t);
    LeadingSpacesExtends(s, t);
  }

  lemma OpenLineChanges(s: string, t: string, k: nat)
    requires 0 < k && IsComment(t, k) && !TakesComment(s) && !ParseLine(s).BadIndent?
    ensures var n := LeadingSpaces(s);
      ParseLine(s + t) == ParseLine(s) <==> ParseLine(s).NoColon? && ':' !in StripComment((s + t)[n..])
  {
    var n := LeadingSpaces(s);
    OpenLineSays(s);
    OpenLineWithComment(s, t);
    SplitChanges(n == 2, s[n..], t, k);
  }

  lemma SplitChanges(nested: bool, u: string, t: string, k: nat)
    requires 0 < k && IsComment(t, k) && !TakesComment(u) && Trim(StripComment(u)) != ""
    ensures var before, after := SplitLine(nested, Trim(StripComment(u))), SplitLine(nested, Trim(StripComment(u + t)));
      after == before <==> before.NoColon? && ':' !in StripComment(u + t)
  {
    var x, m := CommentSticks(u, t, k);
    var body := Trim(StripComment(u));
    if SplitLine(nested, body).Assignment? {
      SplitGrows(nested, body, x, m);
    } else {
      ColonAfterStrip(u, t, k);
    }
  }

  lemma ColonAfterStrip(u: string, t: string, k: nat)
    requires 0 < k && IsComment(t, k) && !TakesComment(u)
    ensures ':' in Trim(StripComment(u + t)) <==> ':' in StripComment(u + t)
  {
    CommentSignStays(u, t, k);
    RTrimLeaves((u + t)[..CutFrom(u + t, 0, false)]);
    ColonSurvivesTrim(StripComment(u + t));
  }

  /** A comment changes nothing if and only if the line takes it, or is refused for its indentation
      anyway, or for its missing colon, and the comment brings none. */
  lemma CommentIsIgnoredExactlyWhen(s: string, t: string, k: nat)
    requires 0 < k && IsComment(t, k)
    ensures ParseLine(s + t) == ParseLine(s) <==>
      || TakesComment(s)
      || ParseLine(s).BadIndent?
      || (ParseLine(s).NoColon? && ':' !in StripComment((s + t)[LeadingSpaces(s)..]))
  {
    if TakesComment(s) {
      TrailerIsIgnored(s, t);
    } else if ParseLine(s).BadIndent? {
      LTrimExtends(s, t);
      LeadingSpacesExtends(s, t);
    } else {
      OpenLineChanges(s, t, k);
    }
  }

  /** Blank lines and lines that start with a comment say nothing. */
  lemma BlankOrCommentIsSkipped(blanks: string, comment: string)
    requires AllBlank(blanks) && (comment == "" || comment[0] == '#')
    ensures ParseLine(blanks + comment) == Skipped
  {
    var line := blanks + comment;
    assert line[..|blanks|] == blanks && line[|blanks|..] == comment;
    LTrimBlanks(line, |blanks|);
  }

  lemma {:induction false} NoCutInsideQuotes(s: string, i: nat)
    requires i <= |s| && '"' !in s[i..]
    ensures CutFrom(s, i, true) == |s|
    decreases |s| - i
  {
    if i < |s| {
      assert s[i] == s[i..][0] && s[i..][1..] == s[i + 1..];
      NoCutInsideQuotes(s, i + 1);
    }
  }

  /** After an odd number of quotes and no earlier comment, all that is appended without a quote stays
      part of the line. */
  lemma UnbalancedKeepsComment(s: string, t: string)
    requires !Balanced(s) && CutFrom(s, 0, false) == |s| && '"' !in t
    ensures StripComment(s + t) == RTrim(s + t)
  {
    CutExtends(s, t, 0);
    assert s[..0] == "" && (s + t)[|s|..] == t;
    NoCutInsideQuotes(s + t, |s|);
    assert (s + t)[..|s + t|] == s + t;
  }
}
