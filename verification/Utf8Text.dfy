/** The byte-to-text decoding that json.loads applies to a request body before it reads any JSON
    (section 8.1 of RFC 8259): UTF-8 as in section 4 of RFC 3629, except that, as in Python's
    "surrogatepass" mode, the three-byte forms of surrogates are let through. */
module Utf8Text {

  /** The decoder between two bytes; `Inside` expects one byte in a range and `more` after it. */
  datatype Decoder = Between | Inside(low: nat, high: nat, more: nat) | Broken

  function Lead(b: nat): Decoder {
    if b < 0x80 then Between
    else if 0xC2 <= b <= 0xDF then Inside(0x80, 0xBF, 0)
    else if b == 0xE0 then Inside(0xA0, 0xBF, 1)
    else if 0xE1 <= b <= 0xEF then Inside(0x80, 0xBF, 1)
    else if b == 0xF0 then Inside(0x90, 0xBF, 2)
    else if 0xF1 <= b <= 0xF3 then Inside(0x80, 0xBF, 2)
    else if b == 0xF4 then Inside(0x80, 0x8F, 2)
    else Broken
  }

  function Feed(d: Decoder, c: char): Decoder {
    match d
    case Between => Lead(c as nat)
    case Inside(low, high, more) =>
      if !(low <= c as nat <= high) then Broken
      else if more == 0 then Between
      else Inside(0x80, 0xBF, more - 1)
    case Broken => Broken
  }

  function FeedAll(d: Decoder, s: string): Decoder
    decreases |s|
  {
    if s == "" then d else FeedAll(Feed(d, s[0]), s[1..])
  }

  /** The bytes decode. */
  predicate Utf8Valid(s: string) {
    FeedAll(Between, s) == Between
  }

  predicate IsAscii(s: string) {
    forall i :: 0 <= i < |s| ==> s[i] as nat < 0x80
  }

  predicate IsContinuation(c: char) {
    0x80 <= c as nat <= 0xBF
  }

  /** Position `k` is not inside a character. */
  predicate AtBoundary(s: string, k: nat)
    requires k <= |s|
  {
    k == |s| || !IsContinuation(s[k])
  }

  lemma {:induction false} FeedConcat(d: Decoder, a: string, b: string)
    ensures FeedAll(d, a + b) == FeedAll(FeedAll(d, a), b)
    decreases |a|
  {
    if a == "" {
      assert a + b == b;
    } else {
      assert (a + b)[1..] == a[1..] + b;
      FeedConcat(Feed(d, a[0]), a[1..], b);
    }
  }

  lemma {:induction false} BrokenStays(s: string)
    ensures FeedAll(Broken, s) == Broken
  {
    if s != "" {
      BrokenStays(s[1..]);
    }
  }

  /** The ranges a decoder can be waiting for lie within the continuation bytes. */
  predicate Sound(d: Decoder) {
    d.Inside? ==> 0x80 <= d.low && d.high <= 0xBF
  }

  lemma {:induction false} FeedAllIsSound(d: Decoder, s: string)
    requires Sound(d)
    ensures Sound(FeedAll(d, s))
    decreases |s|
  {
    if s != "" {
      FeedAllIsSound(Feed(d, s[0]), s[1..]);
    }
  }

  /** Text that does not begin with a continuation byte can be judged by itself. */
  lemma ConcatIsValid(a: string, b: string)
    requires b == "" || !IsContinuation(b[0])
    ensures Utf8Valid(a + b) <==> Utf8Valid(a) && Utf8Valid(b)
  {
    FeedConcat(Between, a, b);
    FeedAllIsSound(Between, a);
    var d := FeedAll(Between, a);
    if d != Between && b != "" {
      assert Feed(d, b[0]) == Broken;
      BrokenStays(b[1..]);
    }
  }

  /** A cut of valid text is valid exactly when it falls between two characters. */
  lemma CutIsValid(s: string, k: nat)
    requires Utf8Valid(s) && k <= |s|
    ensures Utf8Valid(s[..k]) <==> AtBoundary(s, k)
  {
    assert s == s[..k] + s[k..];
    if AtBoundary(s, k) {
      ConcatIsValid(s[..k], s[k..]);
    } else {
      FeedConcat(Between, s[..k], s[k..]);
      assert s[k..][0] == s[k] && Feed(Between, s[k]) == Broken;
      BrokenStays(s[k..][1..]);
    }
  }

  lemma {:induction false} AsciiIsValid(s: string)
    requires IsAscii(s)
    ensures Utf8Valid(s)
  {
    if s != "" {
      AsciiIsValid(s[1..]);
    }
  }

  lemma AsciiInFront(a: string, b: string)
    requires IsAscii(a)
    ensures Utf8Valid(a + b) <==> Utf8Valid(b)
  {
    AsciiIsValid(a);
    FeedConcat(Between, a, b);
  }

  // ----- the same texts, from the side of the characters

  /** The bytes of a character code. */
  function Encode(u: nat): (r: string)
    requires u < 0x11_0000
    ensures 1 <= |r| <= 4 && (u < 0x1_0000 ==> |r| <= 3)
  {
    if u < 0x80 then [u as char]
    else if u < 0x800 then [(0xC0 + u / 64) as char, (0x80 + u % 64) as char]
    else if u < 0x1_0000 then
      [(0xE0 + u / 4096) as char, (0x80 + u / 64 % 64) as char, (0x80 + u % 64) as char]
    else
      [(0xF0 + u / 0x4_0000) as char, (0x80 + u / 4096 % 64) as char,
       (0x80 + u / 64 % 64) as char, (0x80 + u % 64) as char]
  }

  /** The euro sign and a character beyond the basic plane, as section 3 of RFC 3629 encodes them. */
  lemma EncodedExamples()
    ensures Encode(0x24) == "$" && Encode(0xE9) == [0xC3 as char, 0xA9 as char]
    ensures Encode(0x20AC) == [0xE2 as char, 0x82 as char, 0xAC as char]
    ensures Encode(0x1F600) == [0xF0 as char, 0x9F as char, 0x98 as char, 0x80 as char]
  {
  }

  predicate AreCodes(codes: seq<nat>) {
    forall i :: 0 <= i < |codes| ==> codes[i] < 0x11_0000
  }

  function EncodeAll(codes: seq<nat>): string
    requires AreCodes(codes)
  {
    if codes == [] then "" else Encode(codes[0]) + EncodeAll(codes[1..])
  }

  /** A character's bytes take the decoder from one boundary to the next. */
  lemma EncodeDecodes(u: nat)
    requires u < 0x11_0000
    ensures Utf8Valid(Encode(u))
  {
    var e := Encode(u);
    if 0x80 <= u {
      FeedFront(Between, e);
      FeedFront(Lead(e[0] as nat), e[1..]);
    }
    if 0x800 <= u {
      FeedFront(Feed(Lead(e[0] as nat), e[1]), e[2..]);
    }
    if 0x1_0000 <= u {
      FeedFront(Feed(Feed(Lead(e[0] as nat), e[1]), e[2]), e[3..]);
    }
  }

  lemma FeedFront(d: Decoder, s: string)
    requires s != ""
    ensures FeedAll(d, s) == FeedAll(Feed(d, s[0]), s[1..])
  {
  }

  lemma {:induction false} EncodedIsValid(codes: seq<nat>)
    requires AreCodes(codes)
    ensures Utf8Valid(EncodeAll(codes))
  {
    if codes != [] {
      EncodeDecodes(codes[0]);
      EncodedIsValid(codes[1..]);
      FeedConcat(Between, Encode(codes[0]), EncodeAll(codes[1..]));
    }
  }

  /** A decoder inside a character that gets to a boundary reads one more byte in its range. */
  lemma ReadsOne(d: Decoder, s: string)
    requires d.Inside? && FeedAll(d, s) == Between
    ensures s != "" && d.low <= s[0] as nat <= d.high
    ensures FeedAll(if d.more == 0 then Between else Inside(0x80, 0xBF, d.more - 1), s[1..]) == Between
  {
    BrokenStays(s[1..]);
  }

  lemma TwoBytes(a: nat, b: nat) returns (u: nat)
    requires 0xC2 <= a <= 0xDF && 0x80 <= b <= 0xBF
    ensures u < 0x11_0000 && Encode(u) == [a as char, b as char]
  {
    u := (a - 0xC0) * 64 + (b - 0x80);
  }

  lemma ThreeBytes(a: nat, b: nat, c: nat) returns (u: nat)
    requires 0xE0 <= a <= 0xEF && 0x80 <= b <= 0xBF && 0x80 <= c <= 0xBF && (a == 0xE0 ==> b >= 0xA0)
    ensures u < 0x11_0000 && Encode(u) == [a as char, b as char, c as char]
  {
    u := (a - 0xE0) * 4096 + (b - 0x80) * 64 + (c - 0x80);
    assert u / 4096 == a - 0xE0 && u / 64 == (a - 0xE0) * 64 + (b - 0x80) && u % 64 == c - 0x80;
  }

  lemma FourBytes(a: nat, b: nat, c: nat, d: nat) returns (u: nat)
    requires 0xF0 <= a <= 0xF4 && 0x80 <= b <= 0xBF && 0x80 <= c <= 0xBF && 0x80 <= d <= 0xBF
    requires (a == 0xF0 ==> b >= 0x90) && (a == 0xF4 ==> b <= 0x8F)
    ensures u < 0x11_0000 && Encode(u) == [a as char, b as char, c as char, d as char]
  {
    var v := (a - 0xF0) * 4096 + (b - 0x80) * 64 + (c - 0x80);
    u := v * 64 + (d - 0x80);
    assert u / 64 == v && u % 64 == d - 0x80;
    assert u / 4096 == (a - 0xF0) * 64 + (b - 0x80) && u / 0x4_0000 == a - 0xF0;
  }

  /** The character at the front of valid text. */
  lemma FrontCode(s: string) returns (u: nat, n: nat)
    requires s != "" && Utf8Valid(s)
    ensures u < 0x11_0000 && 0 < n <= |s| && s[..n] == Encode(u) && Utf8Valid(s[n..])
  {
    BrokenStays(s[1..]);
    var a, d := s[0] as nat, Lead(s[0] as nat);
    if a < 0x80 {
      return a, 1;
    }
    ReadsOne(d, s[1..]);
    assert s[1..][1..] == s[2..];
    if d.more == 0 {
      u := TwoBytes(a, s[1] as nat);
      n := 2;
      return;
    }
    ReadsOne(Inside(0x80, 0xBF, d.more - 1), s[2..]);
    assert s[2..][1..] == s[3..];
    if d.more == 1 {
      u := ThreeBytes(a, s[1] as nat, s[2] as nat);
      n := 3;
      return;
    }
    ReadsOne(Inside(0x80, 0xBF, 0), s[3..]);
    assert s[3..][1..] == s[4..];
    u := FourBytes(a, s[1] as nat, s[2] as nat, s[3] as nat);
    n := 4;
  }

  lemma {:induction false} ValidIsEncoded(s: string) returns (codes: seq<nat>)
    requires Utf8Valid(s)
    ensures AreCodes(codes) && EncodeAll(codes) == s
    decreases |s|
  {
    if s == "" {
      return [];
    }
    var u, n := FrontCode(s);
    var more := ValidIsEncoded(s[n..]);
    codes := [u] + more;
    assert codes[1..] == more && s == s[..n] + s[n..];
  }

  /** What decodes is exactly what encodes some sequence of characters. */
  lemma ValidExactlyWhenEncoded(s: string)
    ensures Utf8Valid(s) <==> exists codes :: AreCodes(codes) && EncodeAll(codes) == s
  {
    if Utf8Valid(s) {
      var codes := ValidIsEncoded(s);
      assert AreCodes(codes) && EncodeAll(codes) == s;
    }
    forall codes | AreCodes(codes) && EncodeAll(codes) == s
      ensures Utf8Valid(s)
    {
      EncodedIsValid(codes);
    }
  }
}
