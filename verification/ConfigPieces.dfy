/** Long lines of a config file.  fgets takes at most 1023 characters, so a longer line is read in
    pieces.  Which parts of a line say nothing follows from a few laws about single pieces, for any way
    of reading that keeps them. */
module ConfigPieces {
  import opened ConfigText
  import opened ConfigLoad
  import opened ConfigLayout

  /** What one read of a long line takes. */
  const PIECE: nat := 1023

  // ----- where pieces end

  /** The positions where pieces of a line end: the multiples of 1023. */
  predicate IsPieceEnd(m: nat) {
    m == 0 || (m >= PIECE && IsPieceEnd(m - PIECE))
  }

  /** Where the piece that holds position `i` ends. */
  function PieceEnd(i: nat): (e: nat)
    ensures i < e <= i + PIECE && IsPieceEnd(e) && IsPieceEnd(e - PIECE)
  {
    if i < PIECE then PIECE else PIECE + PieceEnd(i - PIECE)
  }

  lemma {:induction false} PieceEndIsMultiple(i: nat)
    ensures PieceEnd(i) == 1023 * (i / 1023 + 1)
  {
    if i >= PIECE {
      PieceEndIsMultiple(i - PIECE);
    }
  }

  /** Where the last, unfinished piece of a line of `n` characters starts. */
  function LastStart(n: nat): (m: nat)
    ensures m <= n < m + PIECE && IsPieceEnd(m)
  {
    if n < PIECE then 0 else PIECE + LastStart(n - PIECE)
  }

  function LastPiece(s: string): string {
    s[LastStart(|s|)..]
  }

  lemma LastOfShort(v: string)
    requires |v| < PIECE
    ensures LastPiece(v) == v
  {
  }

  lemma {:induction false} PieceEndShifts(m: nat, i: nat)
    requires IsPieceEnd(m)
    ensures PieceEnd(m + i) == m + PieceEnd(i)
  {
    if m > 0 {
      PieceEndShifts(m - PIECE, i);
    }
  }

  lemma {:induction false} WholeChunk(text: string, max: nat)
    requires '\n' !in text && max > 0
    ensures ChunkLength(text, max) == if |text| < max then |text| else max
    decreases max
  {
    if text != "" && max > 1 {
      WholeChunk(text[1..], max - 1);
    }
  }

  lemma {:induction false} PiecesAreAligned(u: string)
    requires '\n' !in u && IsPieceEnd(|u|)
    ensures Aligned(u)
    decreases |u|
  {
    if u != "" {
      WholeChunk(u, PIECE);
      PiecesAreAligned(u[PIECE..]);
    }
  }

  // ----- trailers

  /** Whether C sees the end of the line outside quotes: no NUL hides it, or it takes a comment. */
  predicate TakesCommentLast(s: string) {
    '\0' in LastPiece(s) || TakesComment(LastPiece(s))
  }

  /** `t` is a comment behind `s`; at the start of a piece it needs no blank. */
  predicate CommentBehindLine(s: string, t: string, k: nat) {
    IsComment(t, k) && '\n' !in t && (k > 0 || LastPiece(s) == "")
  }

  /** Blanks of any length, or a comment that ends in the piece in which it starts. */
  ghost predicate Harmless(s: string, t: string) {
    || (AllBlank(t) && '\n' !in t)
    || (TakesCommentLast(s) && exists k :: CommentBehindLine(s, t, k) && |s| + |t| <= PieceEnd(|s| + k))
  }

  lemma BlankStart(t: string, n: nat)
    requires AllBlank(t) && n <= |t|
    ensures AllBlank(t[..n]) && AllBlank(t[n..])
  {
  }

  lemma CommentStart(t: string, k: nat, n: nat)
    requires IsComment(t, k) && n <= |t|
    ensures if n <= k then AllBlank(t[..n]) else IsComment(t[..n], k)
    ensures n <= k ==> IsComment(t[n..], k - n)
  {
    if n <= k {
      assert t[..n] == t[..k][..n] && t[n..][..k - n] == t[..k][n..];
      BlankStart(t[..k], n);
    } else {
      assert t[..n][..k] == t[..k];
    }
  }

  /** Only the last piece of a line counts. */
  lemma HarmlessToLastPiece(s: string, t: string)
    requires Harmless(s, t)
    ensures Harmless(LastPiece(s), t)
  {
    var v := LastPiece(s);
    LastOfShort(v);
    if !AllBlank(t) {
      var k :| CommentBehindLine(s, t, k) && |s| + |t| <= PieceEnd(|s| + k);
      PieceEndOfLast(s, k);
      assert CommentBehindLine(v, t, k);
    }
  }

  lemma PieceEndOfLast(s: string, k: nat)
    ensures |s| - |LastPiece(s)| >= 0
    ensures PieceEnd(|s| + k) == |s| - |LastPiece(s)| + PieceEnd(|LastPiece(s)| + k)
  {
    PieceEndShifts(LastStart(|s|), |LastPiece(s)| + k);
  }

  // ----- comments that go on too long

  function Repeat(c: char, n: nat): (r: string)
    ensures |r| == n && forall i :: 0 <= i < n ==> r[i] == c
  {
    seq(n, _ => c)
  }

  predicate IsWord(w: string) {
    forall i :: 0 <= i < |w| ==> w[i] == 'x'
  }

  /** `k` blanks, a comment sign and a word. */
  predicate IsWordComment(t: string, k: nat) {
    IsComment(t, k) && '\n' !in t && IsWord(t[k + 1..])
  }

  function WordComment(k: nat, m: nat): (t: string)
    requires k < m
    ensures |t| == m && IsWordComment(t, k)
  {
    var t := Repeat(' ', k) + "#" + Repeat('x', m - k - 1);
    assert t[k + 1..] == Repeat('x', m - k - 1);
    t
  }

  /** A comment that goes on behind the piece in which it starts, `before` characters into its line:
      the part in that piece and the rest. */
  lemma OverlongParts(before: nat, t: string, k: nat) returns (front: string, rest: string)
    requires IsWordComment(t, k) && before + |t| > PieceEnd(before + k)
    ensures t == front + rest && IsComment(front, k) && '\n' !in front
    ensures before + |front| == PieceEnd(before + k) && rest != "" && IsWord(rest)
  {
    var n := PieceEnd(before + k) - before;
    front, rest := t[..n], t[n..];
    CommentStart(t, k, n);
    assert rest == t[k + 1..][n - k - 1..];
  }

  // ----- the laws of a reading

  /** A way of reading texts: what they say. */
  type Reading = string -> seq<Parsed>

  /** `b` is read from the start of a piece. */
  predicate Joins(a: string, b: string) {
    Aligned(a)
  }

  /** Blanks, or a comment, in one piece. */
  ghost predicate QuietPiece(t: string) {
    |t| <= PIECE && '\n' !in t && (AllBlank(t) || exists k :: IsComment(t, k))
  }

  /** A trailer in the piece of its line. */
  ghost predicate TrailsInPiece(v: string, t: string) {
    && |v| + |t| <= PIECE && '\n' !in v && '\n' !in t
    && (AllBlank(t) || (('\0' in v || TakesComment(v)) && exists k :: 0 < k && IsComment(t, k)))
  }

  predicate WordPiece(w: string) {
    0 < |w| <= PIECE && IsWord(w)
  }

  predicate ShortLine(v: string) {
    |v| < PIECE && '\n' !in v
  }

  /** What is needed of a reading: parts add up, quiet pieces and the trailers of a piece say nothing,
      a word is refused, and the newline is no part of a line. */
  ghost predicate Lawful(read: Reading) {
    && (forall a, b {:trigger Joins(a, b)} :: Joins(a, b) ==> read(a + b) == read(a) + read(b))
    && (forall t {:trigger QuietPiece(t)} :: QuietPiece(t) ==> read(t) == [])
    && (forall v, t {:trigger TrailsInPiece(v, t)} :: TrailsInPiece(v, t) ==> read(v + t) == read(v))
    && (forall w {:trigger WordPiece(w)} :: WordPiece(w) ==> read(w) == [NoColon])
    && (forall v {:trigger ShortLine(v)} :: ShortLine(v) ==> read(v + "\n") == read(v))
  }

  // ----- what follows for lines of any length

  lemma SplitPieces(read: Reading, front: string, rest: string)
    requires Lawful(read) && IsPieceEnd(|front|) && '\n' !in front
    ensures read(front + rest) == read(front) + read(rest)
  {
    PiecesAreAligned(front);
    assert Joins(front, rest);
  }

  lemma ThreeParts(read: Reading, a: string, x: string, b: string)
    requires Lawful(read) && Aligned(a) && Aligned(x)
    ensures read(a + x + b) == read(a) + read(x) + read(b)
  {
    Regrouped(a, x, b);
    assert Joins(a, x + b) && Joins(x, b);
    Regrouped(read(a), read(x), read(b));
  }

  /** The newline at the end of a line says nothing, not even as a piece of its own. */
  lemma NewlineSaysNothing(read: Reading, w: string)
    requires Lawful(read) && '\n' !in w
    ensures read(w + "\n") == read(w)
  {
    var m := LastStart(|w|);
    var front, v := w[..m], LastPiece(w);
    assert w == front + v && w + "\n" == front + (v + "\n");
    SplitPieces(read, front, v);
    SplitPieces(read, front, v + "\n");
    assert ShortLine(v);
  }

  /** Blanks say nothing, however many. */
  lemma {:induction false} SilentBlanks(read: Reading, t: string)
    requires Lawful(read) && '\n' !in t && AllBlank(t)
    ensures read(t) == []
    decreases |t|
  {
    if |t| <= PIECE {
      assert QuietPiece(t);
    } else {
      var front, rest := t[..PIECE], t[PIECE..];
      BlankStart(t, PIECE);
      assert QuietPiece(front);
      assert t == front + rest;
      SplitPieces(read, front, rest);
      SilentBlanks(read, rest);
    }
  }

  /** The blank pieces before a comment, and the piece that holds it. */
  lemma CommentParts(t: string, k: nat) returns (front: string, rest: string)
    requires '\n' !in t && IsComment(t, k) && |t| <= PieceEnd(k)
    ensures t == front + rest && IsPieceEnd(|front|) && AllBlank(front) && '\n' !in front
    ensures QuietPiece(rest)
  {
    var m := PieceEnd(k) - PIECE;
    front, rest := t[..m], t[m..];
    CommentStart(t, k, m);
  }

  /** A comment on a line of its own says nothing if it ends with the piece that holds its sign. */
  lemma SilentComment(read: Reading, t: string, k: nat)
    requires Lawful(read) && '\n' !in t && IsComment(t, k) && |t| <= PieceEnd(k)
    ensures read(t) == []
  {
    var front, rest := CommentParts(t, k);
    SplitPieces(read, front, rest);
    SilentBlanks(read, front);
  }

  /** The same for whatever is harmless on a line of its own. */
  lemma SilentLine(read: Reading, t: string)
    requires Lawful(read) && Harmless("", t)
    ensures '\n' !in t && read(t) == []
  {
    if AllBlank(t) {
      SilentBlanks(read, t);
    } else {
      var k :| CommentBehindLine("", t, k) && |t| <= PieceEnd(k);
      SilentComment(read, t, k);
    }
  }

  /** A trailer that leaves the piece of its line: the part in front is blank, the rest is read as a
      line of its own. */
  lemma TrailerInNextPiece(read: Reading, v: string, t: string)
    requires Lawful(read) && '\n' !in v && '\n' !in t && |v| < PIECE < |v + t|
    requires AllBlank(t[..PIECE - |v|]) && read(t[PIECE - |v|..]) == []
    ensures read(v + t) == read(v)
  {
    var n := PIECE - |v|;
    var front, rest := t[..n], t[n..];
    assert v + t == v + front + rest;
    SplitPieces(read, v + front, rest);
    assert TrailsInPiece(v, front);
  }

  lemma ShortLineWithBlanks(read: Reading, v: string, t: string)
    requires Lawful(read) && '\n' !in v && '\n' !in t && |v| < PIECE && AllBlank(t)
    ensures read(v + t) == read(v)
  {
    if |v + t| <= PIECE {
      assert TrailsInPiece(v, t);
    } else {
      BlankStart(t, PIECE - |v|);
      SilentBlanks(read, t[PIECE - |v|..]);
      TrailerInNextPiece(read, v, t);
    }
  }

  lemma ShortLineWithComment(read: Reading, v: string, t: string, k: nat)
    requires Lawful(read) && '\n' !in v && '\n' !in t && |v| < PIECE
    requires ('\0' in v || TakesComment(v)) && IsComment(t, k) && k > 0 && |v| + |t| <= PieceEnd(|v| + k)
    ensures read(v + t) == read(v)
  {
    if |v + t| <= PIECE {
      assert TrailsInPiece(v, t);
    } else {
      var n := PIECE - |v|;
      PieceEndShifts(PIECE, k - n);
      CommentStart(t, k, n);
      SilentComment(read, t[n..], k - n);
      TrailerInNextPiece(read, v, t);
    }
  }

  lemma CommentBehindNothing(read: Reading, v: string, t: string, k: nat)
    requires Lawful(read) && v == "" && '\n' !in t && IsComment(t, k) && |t| <= PieceEnd(k)
    ensures read(v + t) == read(v)
  {
    SilentComment(read, t, k);
    assert QuietPiece(v) && v + t == t;
  }

  lemma LastPieceWithTrailer(read: Reading, v: string, t: string)
    requires Lawful(read) && '\n' !in v && |v| < PIECE && Harmless(v, t)
    ensures read(v + t) == read(v)
  {
    LastOfShort(v);
    if AllBlank(t) {
      ShortLineWithBlanks(read, v, t);
    } else {
      var k :| CommentBehindLine(v, t, k) && |v| + |t| <= PieceEnd(|v| + k);
      if v == "" {
        CommentBehindNothing(read, v, t, k);
      } else {
        ShortLineWithComment(read, v, t, k);
      }
    }
  }

  /** A harmless trailer does not change what a line says, however long the line is. */
  lemma TrailerSaysNothing(read: Reading, s: string, t: string)
    requires Lawful(read) && '\n' !in s && Harmless(s, t)
    ensures '\n' !in t && read(s + t) == read(s)
  {
    var m := LastStart(|s|);
    var front, v := s[..m], LastPiece(s);
    assert s == front + v && s + t == front + (v + t);
    SplitPieces(read, front, v);
    SplitPieces(read, front, v + t);
    HarmlessToLastPiece(s, t);
    LastPieceWithTrailer(read, v, t);
  }

  lemma TrailerBeforeNewlineSaysNothing(read: Reading, s: string, t: string)
    requires Lawful(read) && '\n' !in s && Harmless(s, t)
    ensures '\n' !in t && read(s + t + "\n") == read(s + "\n")
  {
    TrailerSaysNothing(read, s, t);
    NewlineSaysNothing(read, s + t);
    NewlineSaysNothing(read, s);
  }

  lemma WordSays(read: Reading, w: string) returns (more: seq<Parsed>)
    requires Lawful(read) && w != "" && IsWord(w)
    ensures read(w) == [NoColon] + more
  {
    if |w| <= PIECE {
      assert WordPiece(w);
      more := [];
    } else {
      var front, rest := w[..PIECE], w[PIECE..];
      assert w == front + rest && WordPiece(front);
      SplitPieces(read, front, rest);
      more := read(rest);
    }
  }

  /** What is read of a comment that goes on too long behind a line. */
  lemma OverlongTrailer(read: Reading, s: string, t: string, k: nat) returns (more: seq<Parsed>)
    requires Lawful(read)
    requires '\n' !in s && TakesCommentLast(s) && IsWordComment(t, k) && (k > 0 || LastPiece(s) == "")
    requires |s| + |t| > PieceEnd(|s| + k)
    ensures read(s + t + "\n") == read(s + "\n") + ([NoColon] + more)
  {
    var front, rest := OverlongParts(|s|, t, k);
    assert CommentBehindLine(s, front, k);
    TrailerSaysNothing(read, s, front);
    assert s + t == s + front + rest;
    SplitPieces(read, s + front, rest);
    more := WordSays(read, rest);
    NewlineSaysNothing(read, s + t);
    NewlineSaysNothing(read, s);
  }

  /** And on a line of its own. */
  lemma OverlongComment(read: Reading, c: string, k: nat) returns (more: seq<Parsed>)
    requires Lawful(read) && IsWordComment(c, k) && |c| > PieceEnd(k)
    ensures read(c + "\n") == [NoColon] + more
  {
    var front, rest := OverlongParts(0, c, k);
    SplitPieces(read, front, rest);
    SilentComment(read, front, k);
    more := WordSays(read, rest);
    NewlineSaysNothing(read, c);
  }
}
