/** How the lines of a config file and whole files compose, and lines that say the same things. */
module ConfigLayout {
  import opened Options
  import opened ConfigText
  import opened ConfigLoad

  // ----- lines

  /** Loading two pieces one after the other continues from where the first one ended. */
  lemma {:induction false} LoadConcat(l: Loader, a: seq<string>, b: seq<string>)
    ensures LoadLines(l, a + b) == LoadLines(LoadLines(l, a), b)
    decreases |a|
  {
    if a == [] {
      assert a + b == b;
    } else {
      assert (a + b)[1..] == a[1..] + b;
      LoadConcat(LoadLine(l, a[0]), a[1..], b);
    }
  }

  /** What the lines say, without the ones that say nothing. */
  function Meaning(lines: seq<string>): seq<Parsed> {
    if lines == [] then []
    else
      var p := ParseLine(lines[0]);
      (if p == Skipped then [] else [p]) + Meaning(lines[1..])
  }

  /** Equal but for line numbers. */
  predicate Alike(a: Loader, b: Loader) {
    && a.cfg == b.cfg && a.section == b.section
    && (a.error.None? <==> b.error.None?)
    && (a.error.Some? ==> a.error.value.1 == b.error.value.1)
  }

  function ActOnce(l: Loader, p: Parsed): Loader {
    if l.error.Some? then l else Act(l, p)
  }

  function ActAll(l: Loader, ps: seq<Parsed>): Loader
    decreases |ps|
  {
    if ps == [] then l else ActAll(ActOnce(l, ps[0]), ps[1..])
  }

  lemma ActAlike(a: Loader, b: Loader, p: Parsed)
    requires Alike(a, b) && a.error.None?
    ensures Alike(Act(a, p), Act(b, p))
  {
  }

  lemma LineActsAlike(a: Loader, b: Loader, p: Parsed)
    requires Alike(a, b)
    ensures Alike(LoadParsed(a, p), if p == Skipped then b else ActOnce(b, p))
  {
    if a.error.None? {
      ActAlike(a.(lineNo := a.lineNo + 1), b, p);
    }
  }

  lemma {:induction false} LoadFollowsMeaning(a: Loader, b: Loader, lines: seq<string>)
    requires Alike(a, b)
    ensures Alike(LoadLines(a, lines), ActAll(b, Meaning(lines)))
    decreases |lines|
  {
    if lines != [] {
      var p, more := ParseLine(lines[0]), Meaning(lines[1..]);
      LineActsAlike(a, b, p);
      if p == Skipped {
        assert [] + more == more;
        LoadFollowsMeaning(LoadLine(a, lines[0]), b, lines[1..]);
      } else {
        assert ([p] + more)[1..] == more;
        LoadFollowsMeaning(LoadLine(a, lines[0]), ActOnce(b, p), lines[1..]);
      }
    }
  }

  /** Lines that say the same things load the same config, up to line numbers in errors. */
  lemma SameMeaningLoadsAlike(l: Loader, a: seq<string>, b: seq<string>)
    requires Meaning(a) == Meaning(b)
    ensures Alike(LoadLines(l, a), LoadLines(l, b))
  {
    LoadFollowsMeaning(l, l, a);
    LoadFollowsMeaning(l, l, b);
  }

  lemma Regrouped<T>(a: seq<T>, b: seq<T>, c: seq<T>)
    ensures a + (b + c) == a + b + c
  {
  }

  lemma {:induction false} MeaningConcat(a: seq<string>, b: seq<string>)
    ensures Meaning(a + b) == Meaning(a) + Meaning(b)
    decreases |a|
  {
    if a == [] {
      assert a + b == b;
    } else {
      var p := ParseLine(a[0]);
      assert (a + b)[1..] == a[1..] + b && (a + b)[0] == a[0];
      MeaningConcat(a[1..], b);
      Regrouped(if p == Skipped then [] else [p], Meaning(a[1..]), Meaning(b));
    }
  }

  // ----- files

  /** A line that fgets returns whole and C sees whole. */
  predicate PlainLine(s: string) {
    |s| + 1 < LINE_SIZE && '\n' !in s && '\0' !in s
  }

  predicate PlainLines(ls: seq<string>) {
    forall i :: 0 <= i < |ls| ==> PlainLine(ls[i])
  }

  function FileOf(ls: seq<string>): string {
    if ls == [] then "" else ls[0] + "\n" + FileOf(ls[1..])
  }

  function WithNewlines(ls: seq<string>): seq<string> {
    seq(|ls|, i requires 0 <= i < |ls| => ls[i] + "\n")
  }

  lemma {:induction false} ChunkOfLine(s: string, rest: string, max: nat)
    requires '\n' !in s && |s| < max
    ensures ChunkLength(s + "\n" + rest, max) == |s| + 1
    decreases |s|
  {
    var text := s + "\n" + rest;
    if s == "" {
      assert text[0] == '\n';
    } else {
      assert text[1..] == s[1..] + "\n" + rest;
      ChunkOfLine(s[1..], rest, max - 1);
    }
  }

  lemma {:induction false} NoNulKeepsAll(s: string)
    requires '\0' !in s
    ensures CString(s) == s
  {
    assert IndexOf(s, '\0') == |s|;
  }

  /** A file of plain lines is read back line by line. */
  lemma {:induction false} FileLinesOfPlainLines(ls: seq<string>)
    requires PlainLines(ls)
    ensures FileLines(FileOf(ls)) == WithNewlines(ls)
    decreases |ls|
  {
    if ls != [] {
      var s, rest := ls[0], FileOf(ls[1..]);
      var text := s + "\n" + rest;
      ChunkOfLine(s, rest, LINE_SIZE - 1);
      assert text[..|s| + 1] == s + "\n" && text[|s| + 1..] == rest;
      NoNulKeepsAll(s + "\n");
      FileLinesOfPlainLines(ls[1..]);
      assert WithNewlines(ls) == [s + "\n"] + WithNewlines(ls[1..]);
    }
  }

  /** Every read of `a` ends inside `a`, whatever comes behind it. */
  predicate Aligned(a: string)
    decreases |a|
  {
    a == "" ||
    (var n := ChunkLength(a, LINE_SIZE - 1);
     (a[n - 1] == '\n' || n == LINE_SIZE - 1) && Aligned(a[n..]))
  }

  lemma {:induction false} ChunkInFront(a: string, b: string, max: nat)
    requires a != "" && max > 0
    requires var n := ChunkLength(a, max); a[n - 1] == '\n' || n == max
    ensures ChunkLength(a + b, max) == ChunkLength(a, max)
    decreases max
  {
    if a[0] != '\n' && max > 1 {
      assert (a + b)[1..] == a[1..] + b;
      ChunkInFront(a[1..], b, max - 1);
    }
  }

  lemma {:induction false} ChunkEnds(text: string, max: nat)
    requires text != "" && max > 0
    ensures var n := ChunkLength(text, max); text[n - 1] == '\n' || n == max || n == |text|
    decreases max
  {
    if text[0] != '\n' && max > 1 && text[1..] != "" {
      ChunkEnds(text[1..], max - 1);
    }
  }

  /** A file that ends its last line is aligned, however long its lines are. */
  lemma {:induction false} EndedIsAligned(a: string)
    requires a == "" || a[|a| - 1] == '\n'
    ensures Aligned(a)
    decreases |a|
  {
    if a != "" {
      var n := ChunkLength(a, LINE_SIZE - 1);
      ChunkEnds(a, LINE_SIZE - 1);
      EndedIsAligned(a[n..]);
    }
  }

  /** The first read of a text that is aligned up to `b`. */
  lemma FirstLineInFront(a: string, b: string)
    requires a != "" && Aligned(a)
    ensures var n := ChunkLength(a, LINE_SIZE - 1);
      FileLines(a + b) == [CString(a[..n])] + FileLines(a[n..] + b)
  {
    ChunkInFront(a, b, LINE_SIZE - 1);
    var n := ChunkLength(a, LINE_SIZE - 1);
    assert (a + b)[..n] == a[..n] && (a + b)[n..] == a[n..] + b;
    FirstFileLine(a + b);
  }

  /** The reads of an aligned text and of what follows it do not mix. */
  lemma {:induction false} FileLinesConcat(a: string, b: string)
    requires Aligned(a)
    ensures FileLines(a + b) == FileLines(a) + FileLines(b)
    decreases |a|
  {
    if a == "" {
      assert a + b == b;
    } else {
      var n := ChunkLength(a, LINE_SIZE - 1);
      var first, rest := [CString(a[..n])], FileLines(a[n..]);
      FirstLineInFront(a, b);
      FirstFileLine(a);
      FileLinesConcat(a[n..], b);
      Regrouped(first, rest, FileLines(b));
    }
  }

  lemma FirstFileLine(text: string)
    requires text != ""
    ensures var n := ChunkLength(text, LINE_SIZE - 1);
      FileLines(text) == [CString(text[..n])] + FileLines(text[n..])
  {
  }

  /** Loading the concatenation of two files is loading the second from the state after the first,
      so whatever the second assigns wins. */
  lemma LoadFilesInTurn(cfg: Config, a: string, b: string)
    requires Aligned(a)
    ensures LoadFile(cfg, Some(a + b)) == LoadLines(LoadFile(cfg, Some(a)), FileLines(b))
  {
    FileLinesConcat(a, b);
    LoadConcat(Start(cfg), FileLines(a), FileLines(b));
  }
}
