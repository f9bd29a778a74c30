/** What does not matter in a config file: blank and comment lines, trailing blanks and trailing
    comments, each up to the end of the piece in which it is read; and exactly what does. */
module ConfigComments {
  import opened Options
  import opened ConfigText
  import opened ConfigLoad
  import opened ConfigLayout
  import opened ConfigPieces
  import opened ConfigRoundTrip

  /** What a text says, read by fgets and the loop of load_config_file. */
  function Says(text: string): seq<Parsed> {
    Meaning(FileLines(text))
  }

  // ----- it is a lawful reading

  lemma SaysConcat(a: string, b: string)
    requires Aligned(a)
    ensures Says(a + b) == Says(a) + Says(b)
  {
    FileLinesConcat(a, b);
    MeaningConcat(FileLines(a), FileLines(b));
  }

  lemma OnePiece(v: string)
    requires '\n' !in v && 0 < |v| <= PIECE
    ensures FileLines(v) == [CString(v)]
  {
    WholeChunk(v, PIECE);
    FirstFileLine(v);
    assert v[..|v|] == v && FileLines(v[|v|..]) == [];
  }

  lemma SaysOfOnePiece(v: string)
    requires '\n' !in v && |v| <= PIECE
    ensures Says(v) == if ParseLine(CString(v)) == Skipped then [] else [ParseLine(CString(v))]
  {
    if v == "" {
      assert CString(v) == "" && LTrim("") == "";
    } else {
      OnePiece(v);
      assert [CString(v)][1..] == [];
      assert Meaning([CString(v)][1..]) == [];
    }
  }

  lemma CStringOf(s: string, x: string)
    ensures CString(s + x) == if '\0' in s then CString(s) else s + CString(x)
  {
    CutAtNul(s, x);
    if '\0' in s {
      assert (s + x)[..IndexOf(s, '\0')] == s[..IndexOf(s, '\0')];
    } else {
      assert (s + x)[..|s| + IndexOf(x, '\0')] == s + x[..IndexOf(x, '\0')];
    }
  }

  lemma {:induction false} CutAtNul(s: string, x: string)
    ensures IndexOf(s + x, '\0') == if '\0' in s then IndexOf(s, '\0') else |s| + IndexOf(x, '\0')
  {
    if s == "" {
      assert s + x == x;
    } else if s[0] != '\0' {
      assert (s + x)[1..] == s[1..] + x;
      assert '\0' in s <==> '\0' in s[1..];
      CutAtNul(s[1..], x);
    }
  }

  lemma ShortLineWithNewline(v: string)
    requires '\n' !in v && |v| < PIECE
    ensures Says(v + "\n") == Says(v)
  {
    var long := v + "\n";
    ChunkOfLine(v, "", PIECE);
    assert v + "\n" + "" == long && long[..|long|] == long;
    FirstFileLine(long);
    assert FileLines(long[|long|..]) == [] && [CString(long)][1..] == [];
    assert Meaning([CString(long)][1..]) == [];
    SaysOfOnePiece(v);
    CStringOf(v, "\n");
    NoNulKeepsAll("\n");
    if '\0' !in v {
      NoNulKeepsAll(v);
      NewlineIsIgnored(v);
    }
  }

  /** A piece that begins with blanks and a comment, or is blank, is skipped. */
  lemma QuietIsSkipped(t: string, k: nat)
    requires AllBlank(t) || IsComment(t, k)
    ensures ParseLine(CString(t)) == Skipped
  {
    var n := IndexOf(t, '\0');
    if AllBlank(t) {
      BlankStart(t, n);
      TrailerStart(t[..n], 0);
    } else {
      CommentStart(t, k, n);
      TrailerStart(t[..n], k);
    }
  }

  /** What C sees of a piece says the same with and without the trailer. */
  lemma PieceWithTrailer(v: string, t: string, k: nat)
    requires AllBlank(t) || (('\0' in v || TakesComment(v)) && IsComment(t, k) && k > 0)
    ensures ParseLine(CString(v + t)) == ParseLine(CString(v))
  {
    CStringOf(v, t);
    if '\0' !in v {
      NoNulKeepsAll(v);
      var n := IndexOf(t, '\0');
      if AllBlank(t) {
        BlankStart(t, n);
      } else {
        CommentStart(t, k, n);
      }
      TrailerIsIgnored(v, t[..n]);
    }
  }

  lemma WordHasNoColon(w: string)
    requires w != "" && IsWord(w)
    ensures ParseLine(CString(w)) == NoColon
  {
    NoNulKeepsAll(w);
    NoHashNoCut(w, 0, false);
    assert LTrim(w) == w && LeadingSpaces(w) == 0 && w[0..] == w && w[..|w|] == w;
    assert RTrim(w) == w;
    assert IndexOf(w, ':') == |w|;
  }

  lemma SaysIsLawful()
    ensures Lawful(Says)
  {
    forall a, b | Joins(a, b)
      ensures Says(a + b) == Says(a) + Says(b)
    {
      SaysConcat(a, b);
    }
    forall t | QuietPiece(t)
      ensures Says(t) == []
    {
      QuietSaysNothing(t);
    }
    forall v, t | TrailsInPiece(v, t)
      ensures Says(v + t) == Says(v)
    {
      TrailerInPiece(v, t);
    }
    forall w | WordPiece(w)
      ensures Says(w) == [NoColon]
    {
      SaysOfOnePiece(w);
      WordHasNoColon(w);
    }
    forall v | ShortLine(v)
      ensures Says(v + "\n") == Says(v)
    {
      ShortLineWithNewline(v);
    }
  }

  lemma QuietSaysNothing(t: string)
    requires QuietPiece(t)
    ensures Says(t) == []
  {
    var k: nat := 0;
    if !AllBlank(t) {
      k :| IsComment(t, k);
    }
    assert ParseLine(CString(t)) == Skipped by {
      QuietIsSkipped(t, k);
    }
    SaysOfOnePiece(t);
  }

  lemma TrailerInPiece(v: string, t: string)
    requires TrailsInPiece(v, t)
    ensures Says(v + t) == Says(v)
  {
    var k: nat := 0;
    if !AllBlank(t) {
      k :| 0 < k && IsComment(t, k);
    }
    assert ParseLine(CString(v + t)) == ParseLine(CString(v)) by {
      PieceWithTrailer(v, t, k);
    }
    SaysOfOnePiece(v + t);
    SaysOfOnePiece(v);
  }

  // ----- texts that can replace each other in a file

  predicate LoadAlike(cfg: Config, a: string, x: string, y: string, b: string) {
    Alike(LoadFile(cfg, Some(a + x + b)), LoadFile(cfg, Some(a + y + b)))
  }

  /** Anywhere in a file and for every initial config, `x` and `y` load alike. */
  ghost predicate Interchangeable(x: string, y: string) {
    forall cfg: Config, a: string, b: string :: Aligned(a) ==> LoadAlike(cfg, a, x, y, b)
  }

  /** Anywhere in a file `x` might as well be missing. */
  ghost predicate Insignificant(x: string) {
    Interchangeable(x, "")
  }

  lemma SaidAlikeHere(cfg: Config, a: string, x: string, y: string, b: string)
    requires Aligned(a) && Aligned(x) && Aligned(y) && Says(x) == Says(y)
    ensures LoadAlike(cfg, a, x, y, b)
  {
    SaysIsLawful();
    ThreeParts(Says, a, x, b);
    ThreeParts(Says, a, y, b);
    SameMeaningLoadsAlike(Start(cfg), FileLines(a + x + b), FileLines(a + y + b));
  }

  lemma SaidAlike(x: string, y: string)
    requires Aligned(x) && Aligned(y) && Says(x) == Says(y)
    ensures Interchangeable(x, y)
  {
    forall cfg: Config, a: string, b: string | Aligned(a)
      ensures LoadAlike(cfg, a, x, y, b)
    {
      SaidAlikeHere(cfg, a, x, y, b);
    }
  }

  lemma {:induction false} ErrorStays(l: Loader, ps: seq<Parsed>)
    requires l.error.Some?
    ensures ActAll(l, ps) == l
    decreases |ps|
  {
    if ps != [] {
      ErrorStays(l, ps[1..]);
    }
  }

  lemma {:induction false} MeaningIsNotSkipped(lines: seq<string>)
    ensures forall i :: 0 <= i < |Meaning(lines)| ==> Meaning(lines)[i] != Skipped
  {
    if lines != [] {
      MeaningIsNotSkipped(lines[1..]);
    }
  }

  /** Whatever is said first is felt from the top level or from inside a section. */
  lemma ActsVisibly(l: Loader, m: Loader, ps: seq<Parsed>)
    requires ps != [] && ps[0] != Skipped && l.error.None? && m.error.None?
    requires l.section == TopLevel && m.section == OutputSection && l.cfg == m.cfg
    ensures !Alike(ActAll(l, ps), l) || !Alike(ActAll(m, ps), m)
  {
    if ps[0].Assignment? && !ps[0].nested {
      assert Alike(Act(l, ps[0]), Act(m, ps[0]));
      AllAlike(Act(l, ps[0]), Act(m, ps[0]), ps[1..]);
    } else {
      ErrorStays(Act(l, ps[0]), ps[1..]);
    }
  }

  lemma {:induction false} AllAlike(a: Loader, b: Loader, ps: seq<Parsed>)
    requires Alike(a, b)
    ensures Alike(ActAll(a, ps), ActAll(b, ps))
    decreases |ps|
  {
    if ps != [] {
      if a.error.None? {
        ActAlike(a, b, ps[0]);
      }
      AllAlike(ActOnce(a, ps[0]), ActOnce(b, ps[0]), ps[1..]);
    }
  }

  /** A file of one line. */
  lemma OneLineFile(cfg: Config, s: string)
    requires PlainLine(s)
    ensures LoadFile(cfg, Some(s + "\n")) == LoadLine(Start(cfg), s + "\n")
  {
    FileLinesOfPlainLines([s]);
    FileOfOne(s);
    assert WithNewlines([s]) == [s + "\n"];
    LoadOne(Start(cfg), s + "\n");
  }

  lemma FileOfOne(s: string)
    ensures FileOf([s]) == s + "\n"
  {
    assert FileOf([s][1..]) == "";
  }

  /** A file that does nothing but open the output section. */
  lemma OutputOpened(cfg: Config) returns (open: string)
    ensures Aligned(open) && LoadFile(cfg, Some(open)) == Start(cfg).(section := OutputSection, lineNo := 1)
  {
    var header := Header("output");
    assert IsKey(header.key) && Opens(header.key, "") == Some(OutputSection);
    open := ItemLine(header) + "\n";
    EndedIsAligned(open);
    ItemIsPlain(header);
    OneLineFile(cfg, ItemLine(header));
    ItemParses(header);
  }

  /** A text is insignificant if and only if it says nothing. */
  lemma InsignificantExactlyWhenSilent(x: string)
    requires Aligned(x)
    ensures Insignificant(x) <==> Says(x) == []
  {
    if Says(x) == [] {
      SaidAlike(x, "");
    } else {
      var open := OutputOpened(DEFAULTS);
      MeaningIsNotSkipped(FileLines(x));
      FeltSomewhere(DEFAULTS, open, x);
    }
  }

  lemma FeltSomewhere(cfg: Config, open: string, x: string)
    requires Says(x) != [] && Says(x)[0] != Skipped
    requires Aligned(open) && LoadFile(cfg, Some(open)) == Start(cfg).(section := OutputSection, lineNo := 1)
    ensures !Insignificant(x)
  {
    var none := "";
    assert Aligned(none) && LoadFile(cfg, Some(none)) == Start(cfg);
    ActsVisibly(LoadFile(cfg, Some(none)), LoadFile(cfg, Some(open)), Says(x));
    FeltAfter(cfg, none, x);
    FeltAfter(cfg, open, x);
  }

  lemma FeltAfter(cfg: Config, a: string, x: string)
    requires Aligned(a)
    ensures var l := LoadFile(cfg, Some(a));
      LoadAlike(cfg, a, x, "", "") <==> Alike(ActAll(l, Says(x)), l)
  {
    var l := LoadFile(cfg, Some(a));
    assert a + x + "" == a + x && a + "" + "" == a;
    LoadFilesInTurn(cfg, a, x);
    LoadFollowsMeaning(l, l, FileLines(x));
  }

  /** It does not matter whether the last line of a file ends with a newline. */
  lemma LastNewlineDoesNotMatter(cfg: Config, a: string, w: string)
    requires Aligned(a) && '\n' !in w
    ensures Alike(LoadFile(cfg, Some(a + (w + "\n"))), LoadFile(cfg, Some(a + w)))
  {
    SaysIsLawful();
    NewlineSaysNothing(Says, w);
    SaysConcat(a, w);
    SaysConcat(a, w + "\n");
    SameMeaningLoadsAlike(Start(cfg), FileLines(a + (w + "\n")), FileLines(a + w));
  }

  // ----- trailers and comments in one line of a file

  lemma TrailerIsInterchangeable(s: string, t: string)
    requires '\n' !in s && Harmless(s, t)
    ensures Interchangeable(s + t + "\n", s + "\n")
  {
    SaysIsLawful();
    TrailerBeforeNewlineSaysNothing(Says, s, t);
    EndedIsAligned(s + t + "\n");
    EndedIsAligned(s + "\n");
    SaidAlike(s + t + "\n", s + "\n");
  }

  /** Behind a line that some config loads, the comments of `k` blanks and `m` characters in all are
      insignificant if and only if they end with the piece in which they start. */
  lemma TrailerBound(cfg: Config, a: string, s: string, k: nat, m: nat)
    requires Aligned(a) && '\n' !in s && LoadFile(cfg, Some(a + (s + "\n"))).error.None?
    requires TakesCommentLast(s) && k < m && (k > 0 || LastPiece(s) == "")
    ensures (forall t :: CommentBehindLine(s, t, k) && |t| == m ==> Interchangeable(s + t + "\n", s + "\n"))
            <==> |s| + m <= PieceEnd(|s| + k)
  {
    if |s| + m <= PieceEnd(|s| + k) {
      forall t | CommentBehindLine(s, t, k) && |t| == m
        ensures Interchangeable(s + t + "\n", s + "\n")
      {
        TrailerIsInterchangeable(s, t);
      }
    } else {
      var t := WordComment(k, m);
      OverlongTrailerFails(cfg, a, s, t, k);
      assert CommentBehindLine(s, t, k);
      assert !LoadAlike(cfg, a, s + t + "\n", s + "\n", "");
    }
  }

  lemma OverlongTrailerFails(cfg: Config, a: string, s: string, t: string, k: nat)
    requires Aligned(a) && '\n' !in s && LoadFile(cfg, Some(a + (s + "\n"))).error.None?
    requires TakesCommentLast(s) && IsWordComment(t, k) && (k > 0 || LastPiece(s) == "")
    requires |s| + |t| > PieceEnd(|s| + k)
    ensures !LoadAlike(cfg, a, s + t + "\n", s + "\n", "")
  {
    SaysIsLawful();
    var more := OverlongTrailer(Says, s, t, k);
    RefusedAfter(cfg, a, s + "\n", s + t + "\n", more);
  }

  lemma RefusedAfter(cfg: Config, a: string, y: string, x: string, more: seq<Parsed>)
    requires Aligned(a) && LoadFile(cfg, Some(a + y)).error.None?
    requires Says(x) == Says(y) + ([NoColon] + more)
    ensures !LoadAlike(cfg, a, x, y, "")
  {
    var l := LoadFile(cfg, Some(a));
    LoadedAfter(cfg, a, x);
    LoadedAfter(cfg, a, y);
    ActAllConcat(l, Says(y), [NoColon] + more);
    ErrorStays(Act(ActAll(l, Says(y)), NoColon), more);
    assert ([NoColon] + more)[1..] == more;
    AtTheEnd(a + x);
    AtTheEnd(a + y);
  }

  lemma AtTheEnd(a: string)
    ensures a + "" == a
  {
  }

  lemma LoadedAfter(cfg: Config, a: string, x: string)
    requires Aligned(a)
    ensures Alike(LoadFile(cfg, Some(a + x)), ActAll(LoadFile(cfg, Some(a)), Says(x)))
  {
    var l := LoadFile(cfg, Some(a));
    LoadFilesInTurn(cfg, a, x);
    LoadFollowsMeaning(l, l, FileLines(x));
  }

  lemma {:induction false} ActAllConcat(l: Loader, a: seq<Parsed>, b: seq<Parsed>)
    ensures ActAll(l, a + b) == ActAll(ActAll(l, a), b)
    decreases |a|
  {
    if a == [] {
      assert a + b == b;
    } else {
      assert (a + b)[1..] == a[1..] + b;
      ActAllConcat(ActOnce(l, a[0]), a[1..], b);
    }
  }

  /** Comment lines with `k` leading blanks and `m` characters in all are insignificant if and only
      if they end with the piece that holds their sign. */
  lemma CommentLineBound(k: nat, m: nat)
    requires k < m
    ensures (forall c :: IsComment(c, k) && '\n' !in c && |c| == m ==> Insignificant(c + "\n")) <==> m <= PieceEnd(k)
  {
    if m <= PieceEnd(k) {
      forall c | IsComment(c, k) && '\n' !in c && |c| == m
        ensures Insignificant(c + "\n")
      {
        CommentLineIsSilent(c, k);
        InsignificantExactlyWhenSilent(c + "\n");
      }
    } else {
      var c := WordComment(k, m);
      OverlongCommentSpeaks(c, k);
      InsignificantExactlyWhenSilent(c + "\n");
    }
  }

  lemma OverlongCommentSpeaks(c: string, k: nat)
    requires IsWordComment(c, k) && |c| > PieceEnd(k)
    ensures Aligned(c + "\n") && Says(c + "\n") != []
  {
    SaysIsLawful();
    var more := OverlongComment(Says, c, k);
    EndedIsAligned(c + "\n");
  }

  lemma CommentLineIsSilent(c: string, k: nat)
    requires IsComment(c, k) && '\n' !in c && |c| <= PieceEnd(k)
    ensures Aligned(c + "\n") && Says(c + "\n") == []
  {
    SaysIsLawful();
    SilentComment(Says, c, k);
    NewlineSaysNothing(Says, c);
    EndedIsAligned(c + "\n");
  }

  /** All comment lines of `n` characters are insignificant if and only if n is at most 1023. */
  lemma CommentLinesUpTo1023(n: nat)
    ensures (forall c, k :: IsComment(c, k) && '\n' !in c && |c| == n ==> Insignificant(c + "\n")) <==> n <= 1023
  {
    if n <= 1023 {
      forall c, k | IsComment(c, k) && '\n' !in c && |c| == n
        ensures Insignificant(c + "\n")
      {
        CommentLineBound(k, n);
      }
    } else {
      CommentLineBound(0, n);
    }
  }

  /** What stands behind the first 1023 characters of a comment line is read as a line. */
  lemma CommentTailIsRead(pad: string, s: string)
    requires |pad| == PIECE - 1 && '\n' !in pad && '\n' !in s
    ensures Interchangeable("#" + pad + s + "\n", s + "\n")
  {
    SaysIsLawful();
    LongHead(Says, "#" + pad, s);
    EndedIsAligned("#" + pad + s + "\n");
    EndedIsAligned(s + "\n");
    SaidAlike("#" + pad + s + "\n", s + "\n");
  }

  lemma LongHead(read: Reading, head: string, s: string)
    requires Lawful(read) && |head| == PIECE && head[0] == '#' && '\n' !in head && '\n' !in s
    ensures read(head + s + "\n") == read(s + "\n")
  {
    assert IsComment(head, 0);
    SplitPieces(read, head, s);
    SilentComment(read, head, 0);
    NewlineSaysNothing(read, head + s);
    NewlineSaysNothing(read, s);
  }

  lemma LoadAlone(cfg: Config, x: string, y: string)
    requires Interchangeable(x, y)
    ensures Alike(LoadFile(cfg, Some(x)), LoadFile(cfg, Some(y)))
  {
    var none := "";
    assert Aligned(none) && none + x + none == x && none + y + none == y;
    assert LoadAlike(cfg, none, x, y, none);
  }

  /** For example an assignment in the tail of a comment is carried out. */
  lemma CommentCanAssign(cfg: Config, pad: string, host: string)
    requires |pad| == PIECE - 1 && '\n' !in pad && IsQuotable(host) && |host| < 128
    ensures var l := LoadFile(cfg, Some("#" + pad + EntryLine(false, "host_override", host) + "\n"));
      l.error.None? && l.cfg == cfg.(hostOverride := host)
  {
    var item := HostItem(host);
    var s := ItemLine(item);
    ItemIsPlain(item);
    CommentTailIsRead(pad, s);
    LoadAlone(cfg, "#" + pad + s + "\n", s + "\n");
    OneLineFile(cfg, s);
    ItemParses(item);
    HostIsSet(cfg, item.key, host);
  }

  function HostItem(host: string): (item: Item)
    requires IsQuotable(host) && |host| < 128
    ensures IsPrintable(item) && ItemLine(item) == EntryLine(false, "host_override", host)
    ensures item.key == "host_override"
  {
    var item := Entry(false, "host_override", host);
    assert IsKey(item.key);
    item
  }

  lemma HostIsSet(cfg: Config, key: string, host: string)
    requires key == "host_override" && |host| < 128
    ensures var l := LoadParsed(Start(cfg), Assignment(false, key, host));
      l.error.None? && l.cfg == cfg.(hostOverride := host)
  {
  }

  // ----- whole files

  function Decorated(ls: seq<string>, trailers: seq<string>): (r: seq<string>)
    requires |ls| == |trailers|
    ensures |r| == |ls| && forall i :: 0 <= i < |ls| ==> r[i] == ls[i] + trailers[i]
  {
    seq(|ls|, i requires 0 <= i < |ls| => ls[i] + trailers[i])
  }

  lemma {:induction false} DecoratedSaysTheSame(read: Reading, ls: seq<string>, trailers: seq<string>)
    requires Lawful(read) && |ls| == |trailers|
    requires forall i :: 0 <= i < |ls| ==> '\n' !in ls[i] && Harmless(ls[i], trailers[i])
    ensures read(FileOf(Decorated(ls, trailers))) == read(FileOf(ls))
    decreases |ls|
  {
    if ls != [] {
      DecoratedSaysTheSame(read, ls[1..], trailers[1..]);
      assert Decorated(ls, trailers)[1..] == Decorated(ls[1..], trailers[1..]);
      TrailerBeforeNewlineSaysNothing(read, ls[0], trailers[0]);
      EndedIsAligned(ls[0] + "\n");
      EndedIsAligned(ls[0] + trailers[0] + "\n");
      assert Joins(ls[0] + "\n", FileOf(ls[1..]));
      assert Joins(ls[0] + trailers[0] + "\n", FileOf(Decorated(ls[1..], trailers[1..])));
    }
  }

  /** Adding harmless trailers to the lines of a file changes at most line numbers in errors; if every
      line still fits one read, it changes nothing at all. */
  lemma TrailersDoNotMatter(cfg: Config, ls: seq<string>, trailers: seq<string>)
    requires |ls| == |trailers|
    requires forall i :: 0 <= i < |ls| ==> '\n' !in ls[i] && Harmless(ls[i], trailers[i])
    ensures var x, y := LoadFile(cfg, Some(FileOf(Decorated(ls, trailers)))), LoadFile(cfg, Some(FileOf(ls)));
      Alike(x, y) && (PlainLines(Decorated(ls, trailers)) ==> x == y)
  {
    SaysIsLawful();
    DecoratedSaysTheSame(Says, ls, trailers);
    SameMeaningLoadsAlike(Start(cfg), FileLines(FileOf(Decorated(ls, trailers))), FileLines(FileOf(ls)));
    if PlainLines(Decorated(ls, trailers)) {
      ShortTrailersChangeNothing(cfg, ls, trailers);
    }
  }

  lemma ShortTrailersChangeNothing(cfg: Config, ls: seq<string>, trailers: seq<string>)
    requires |ls| == |trailers| && PlainLines(Decorated(ls, trailers))
    requires forall i :: 0 <= i < |ls| ==> Harmless(ls[i], trailers[i])
    ensures LoadFile(cfg, Some(FileOf(Decorated(ls, trailers)))) == LoadFile(cfg, Some(FileOf(ls)))
  {
    var long := Decorated(ls, trailers);
    forall i | 0 <= i < |ls|
      ensures PlainLine(ls[i]) && ParseLine(long[i] + "\n") == ParseLine(ls[i] + "\n")
    {
      assert PlainLine(long[i]);
      ShortTrailer(ls[i], trailers[i]);
    }
    SameParsesInFiles(cfg, long, ls);
  }

  lemma SameParsesInFiles(cfg: Config, a: seq<string>, b: seq<string>)
    requires |a| == |b| && PlainLines(a) && PlainLines(b)
    requires forall i :: 0 <= i < |a| ==> ParseLine(a[i] + "\n") == ParseLine(b[i] + "\n")
    ensures LoadFile(cfg, Some(FileOf(a))) == LoadFile(cfg, Some(FileOf(b)))
  {
    FileLinesOfPlainLines(a);
    FileLinesOfPlainLines(b);
    SameParsesLoadTheSame(Start(cfg), WithNewlines(a), WithNewlines(b));
  }

  lemma FrontIsPlain(s: string, t: string)
    requires PlainLine(s + t)
    ensures PlainLine(s)
  {
    assert forall j :: 0 <= j < |s| ==> (s + t)[j] == s[j];
  }

  lemma ShortTrailer(s: string, t: string)
    requires PlainLine(s + t) && Harmless(s, t)
    ensures PlainLine(s) && ParseLine(s + t + "\n") == ParseLine(s + "\n")
  {
    FrontIsPlain(s, t);
    LastOfShort(s);
    if s == "" && !AllBlank(t) {
      var k :| CommentBehindLine(s, t, k);
      assert s + t == t;
      TrailerStart(t, k);
      NewlineIsIgnored(t);
      NewlineIsIgnored("");
    } else {
      TrailerBeforeNewlineIsIgnored(s, t);
    }
  }

  lemma {:induction false} SameParsesLoadTheSame(l: Loader, a: seq<string>, b: seq<string>)
    requires |a| == |b| && forall i :: 0 <= i < |a| ==> ParseLine(a[i]) == ParseLine(b[i])
    ensures LoadLines(l, a) == LoadLines(l, b)
    decreases |a|
  {
    if a != [] {
      assert LoadLine(l, a[0]) == LoadLine(l, b[0]);
      SameParsesLoadTheSame(LoadLine(l, a[0]), a[1..], b[1..]);
    }
  }

  /** Inserting blank lines of any length, and comment lines that end with the piece that holds their
      sign, anywhere in any file, changes at most line numbers in errors. */
  lemma InsertedLinesDoNotMatter(cfg: Config, before: string, inserted: seq<string>, after: string)
    requires Aligned(before)
    requires forall i :: 0 <= i < |inserted| ==> Harmless("", inserted[i])
    ensures Alike(LoadFile(cfg, Some(before + FileOf(inserted) + after)), LoadFile(cfg, Some(before + after)))
  {
    SaysIsLawful();
    InsertedSayNothing(Says, inserted);
    FileIsAligned(inserted);
    NothingSaysNothing();
    SaidAlikeHere(cfg, before, FileOf(inserted), "", after);
    WithNothing(before, after);
  }

  lemma NothingSaysNothing()
    ensures Aligned("") && Says("") == []
  {
  }

  lemma WithNothing(a: string, b: string)
    ensures a + "" + b == a + b
  {
  }

  lemma {:induction false} InsertedSayNothing(read: Reading, ls: seq<string>)
    requires Lawful(read) && forall i :: 0 <= i < |ls| ==> Harmless("", ls[i])
    ensures read(FileOf(ls)) == []
    decreases |ls|
  {
    if ls == [] {
      assert QuietPiece(FileOf(ls));
    } else {
      SilentLine(read, ls[0]);
      NewlineSaysNothing(read, ls[0]);
      EndedIsAligned(ls[0] + "\n");
      assert Joins(ls[0] + "\n", FileOf(ls[1..]));
      InsertedSayNothing(read, ls[1..]);
    }
  }

  lemma {:induction false} FileIsAligned(ls: seq<string>)
    ensures Aligned(FileOf(ls))
  {
    FileEnds(ls);
    EndedIsAligned(FileOf(ls));
  }

  lemma {:induction false} FileEnds(ls: seq<string>)
    ensures var f := FileOf(ls); f == "" || f[|f| - 1] == '\n'
    decreases |ls|
  {
    if ls != [] {
      FileEnds(ls[1..]);
    }
  }
}
