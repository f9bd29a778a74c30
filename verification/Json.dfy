/** A reader for JSON text (RFC 8259), the reference against which the texts that syswatch
    writes are judged.  A text is a `string` whose chars are its bytes. */
module Json {
  import opened Decimal
  import opened Options
  import opened Utf8Text

  datatype Value =
    | Null
    | Bool(b: bool)
    | Num(digits: string)
    | Str(text: string)
    | Arr(items: seq<Value>)
    | Obj(members: seq<(string, Value)>)

  // ----- section 2: white space

  predicate IsWs(c: char) {
    c == ' ' || c == '\t' || c == '\n' || c == '\r'
  }

  function SkipWs(s: string): (r: string)
    ensures |r| <= |s| && (r != "" ==> !IsWs(r[0]))
  {
    if s != "" && IsWs(s[0]) then SkipWs(s[1..]) else s
  }

  // ----- section 7: strings

  function HexDigit(c: char): Option<nat> {
    if '0' <= c <= '9' then Some(c as nat - '0' as nat)
    else if 'a' <= c <= 'f' then Some(c as nat - 'a' as nat + 10)
    else if 'A' <= c <= 'F' then Some(c as nat - 'A' as nat + 10)
    else None
  }

  /** A \u escape; the halves of a surrogate pair are encoded one by one. */
  function UnicodeEscape(s: string): Option<(string, nat)>
    requires |s| >= 2
  {
    if |s| < 6 then None
    else
      match (HexDigit(s[2]), HexDigit(s[3]), HexDigit(s[4]), HexDigit(s[5]))
      case (Some(a), Some(b), Some(c), Some(d)) =>
        var u := ((a * 16 + b) * 16 + c) * 16 + d;
        if u < 0x10000 then Some((Encode(u), 6)) else None
      case _ => None
  }

  /** The character or escape at the front of a string body: what it means and how long it is. */
  function Unit(s: string): (r: Option<(string, nat)>)
    requires s != ""
    ensures r.Some? ==> 0 < r.value.1 <= |s|
  {
    if s[0] < ' ' || s[0] == '"' then None
    else if s[0] != '\\' then Some(([s[0]], 1))
    else if |s| < 2 then None
    else
      match s[1]
      case '"' => Some(("\"", 2))
      case '\\' => Some(("\\", 2))
      case '/' => Some(("/", 2))
      case 'b' => Some(([8 as char], 2))
      case 'f' => Some(([12 as char], 2))
      case 'n' => Some(("\n", 2))
      case 'r' => Some(("\r", 2))
      case 't' => Some(("\t", 2))
      case 'u' => UnicodeEscape(s)
      case _ => None
  }

  /** Reads a string body up to and including the closing quote. */
  function ParseString(s: string): (r: Option<(string, string)>)
    ensures r.Some? ==> |r.value.1| < |s|
  {
    if s == "" then None
    else if s[0] == '"' then Some(("", s[1..]))
    else
      match Unit(s)
      case None => None
      case Some((text, n)) =>
        match ParseString(s[n..])
        case None => None
        case Some((more, rest)) => Some((text + more, rest))
  }

  // ----- section 6: numbers

  predicate IsNumChar(c: char) {
    IsDecimal(c) || c == '-' || c == '+' || c == '.' || c == 'e' || c == 'E'
  }

  function NumRun(s: string): (n: nat)
    ensures n <= |s| && (n < |s| ==> !IsNumChar(s[n]))
  {
    if s != "" && IsNumChar(s[0]) then 1 + NumRun(s[1..]) else 0
  }

  function DigitRun(s: string): (n: nat)
    ensures n <= |s|
  {
    if s != "" && IsDecimal(s[0]) then 1 + DigitRun(s[1..]) else 0
  }

  predicate IsExponent(s: string) {
    s == "" ||
    (|s| >= 2 && (s[0] == 'e' || s[0] == 'E') &&
     var digits := if s[1] == '+' || s[1] == '-' then s[2..] else s[1..];
     digits != "" && DigitRun(digits) == |digits|)
  }

  predicate IsFractionAndExponent(s: string) {
    if s != "" && s[0] == '.' then DigitRun(s[1..]) > 0 && IsExponent(s[1..][DigitRun(s[1..])..]) else IsExponent(s)
  }

  predicate IsNumber(s: string) {
    var u := if s != "" && s[0] == '-' then s[1..] else s;
    var d := DigitRun(u);
    d > 0 && (u[0] == '0' ==> d == 1) && IsFractionAndExponent(u[d..])
  }

  // ----- sections 3, 4 and 5: values, objects, arrays

  /** Reads a string, a literal name or a number. */
  function ParseScalar(s: string): (r: Option<(Value, string)>)
    requires s != ""
    ensures r.Some? ==> |r.value.1| < |s|
  {
    if s[0] == '"' then
      match ParseString(s[1..])
      case None => None
      case Some((t, rest)) => Some((Str(t), rest))
    else if "true" <= s then Some((Bool(true), s[4..]))
    else if "false" <= s then Some((Bool(false), s[5..]))
    else if "null" <= s then Some((Null, s[4..]))
    else
      var n := NumRun(s);
      if IsNumber(s[..n]) then Some((Num(s[..n]), s[n..])) else None
  }

  /** Reads an array from its opening bracket. */
  function ParseArray(s: string): (r: Option<(Value, string)>)
    requires s != "" && s[0] == '['
    ensures r.Some? ==> |r.value.1| < |s|
    decreases |s|, 0
  {
    var t := SkipWs(s[1..]);
    if t != "" && t[0] == ']' then Some((Arr([]), t[1..]))
    else
      match ParseElements(t)
      case None => None
      case Some((items, rest)) => Some((Arr(items), rest))
  }

  /** Reads an object from its opening brace. */
  function ParseObject(s: string): (r: Option<(Value, string)>)
    requires s != "" && s[0] == '{'
    ensures r.Some? ==> |r.value.1| < |s|
    decreases |s|, 0
  {
    var t := SkipWs(s[1..]);
    if t != "" && t[0] == '}' then Some((Obj([]), t[1..]))
    else
      match ParseMembers(t)
      case None => None
      case Some((members, rest)) => Some((Obj(members), rest))
  }

  /** Reads one value and returns it with the text after it. */
  function ParseValue(text: string): (r: Option<(Value, string)>)
    ensures r.Some? ==> |r.value.1| < |text|
    decreases |text|, 1
  {
    var s := SkipWs(text);
    if s == "" then None
    else if s[0] == '{' then ParseObject(s)
    else if s[0] == '[' then ParseArray(s)
    else ParseScalar(s)
  }

  /** Reads the elements of a non-empty array and its closing bracket. */
  function ParseElements(s: string): (r: Option<(seq<Value>, string)>)
    ensures r.Some? ==> |r.value.1| < |s|
    decreases |s|, 2
  {
    match ParseValue(s)
    case None => None
    case Some((v, after)) =>
      var t := SkipWs(after);
      if t == "" then None
      else if t[0] == ']' then Some(([v], t[1..]))
      else if t[0] == ',' then
        match ParseElements(t[1..])
        case None => None
        case Some((vs, rest)) => Some(([v] + vs, rest))
      else None
  }

  /** Reads `"name": value`. */
  function ParseMember(text: string): (r: Option<((string, Value), string)>)
    ensures r.Some? ==> |r.value.1| < |text|
    decreases |text|, 2
  {
    var s := SkipWs(text);
    if s == "" || s[0] != '"' then None
    else
      match ParseString(s[1..])
      case None => None
      case Some((name, after)) =>
        var t := SkipWs(after);
        if t == "" || t[0] != ':' then None
        else
          match ParseValue(t[1..])
          case None => None
          case Some((v, rest)) => Some(((name, v), rest))
  }

  /** Reads the members of a non-empty object and its closing brace. */
  function ParseMembers(s: string): (r: Option<(seq<(string, Value)>, string)>)
    ensures r.Some? ==> |r.value.1| < |s|
    decreases |s|, 3
  {
    match ParseMember(s)
    case None => None
    case Some((m, after)) =>
      var t := SkipWs(after);
      if t == "" then None
      else if t[0] == '}' then Some(([m], t[1..]))
      else if t[0] == ',' then
        match ParseMembers(t[1..])
        case None => None
        case Some((ms, rest)) => Some(([m] + ms, rest))
      else None
  }

  /** Reads a whole text: one value with nothing but white space after it. */
  function Parse(s: string): Option<Value> {
    match ParseValue(s)
    case None => None
    case Some((v, rest)) => if SkipWs(rest) == "" then Some(v) else None
  }

  // ----- what follows a value does not change how it is read

  lemma {:induction false} SkipWsExtends(s: string, x: string)
    ensures SkipWs(s + x) == if SkipWs(s) == "" then SkipWs(x) else SkipWs(s) + x
  {
    if s == "" {
      assert s + x == x;
    } else if IsWs(s[0]) {
      assert (s + x)[1..] == s[1..] + x;
      SkipWsExtends(s[1..], x);
    }
  }

  lemma UnitExtends(s: string, x: string)
    requires s != "" && Unit(s).Some?
    ensures Unit(s + x) == Unit(s)
  {
  }

  lemma {:induction false} ParseStringExtends(s: string, x: string)
    requires ParseString(s).Some?
    ensures ParseString(s + x) == Some((ParseString(s).value.0, ParseString(s).value.1 + x))
    decreases |s|
  {
    if s[0] == '"' {
      assert (s + x)[1..] == s[1..] + x;
    } else {
      UnitExtends(s, x);
      var n := Unit(s).value.1;
      assert (s + x)[n..] == s[n..] + x;
      ParseStringExtends(s[n..], x);
    }
  }

  lemma {:induction false} NumRunExtends(s: string, x: string)
    requires NumRun(s) < |s| || x == "" || !IsNumChar(x[0])
    ensures NumRun(s + x) == NumRun(s)
  {
    if s == "" {
      assert s + x == x;
    } else if IsNumChar(s[0]) {
      assert (s + x)[1..] == s[1..] + x;
      NumRunExtends(s[1..], x);
    }
  }

  /** Whether `x` can follow a value that ends where its text ends. */
  predicate Separates(v: Value, rest: string, x: string) {
    v.Num? && rest == "" && x != "" ==> !IsNumChar(x[0])
  }

  lemma ParseScalarExtends(s: string, x: string)
    requires s != "" && ParseScalar(s).Some? && Separates(ParseScalar(s).value.0, ParseScalar(s).value.1, x)
    ensures ParseScalar(s + x) == Some((ParseScalar(s).value.0, ParseScalar(s).value.1 + x))
  {
    if s[0] == '"' {
      assert (s + x)[1..] == s[1..] + x;
      ParseStringExtends(s[1..], x);
    } else if "true" <= s || "null" <= s {
      assert (s + x)[4..] == s[4..] + x;
    } else if "false" <= s {
      assert (s + x)[5..] == s[5..] + x;
    } else {
      NumberIsNotEmpty(s[..NumRun(s)]);
      NumberExtends(s, x);
    }
  }

  lemma NumberIsNotEmpty(s: string)
    requires IsNumber(s)
    ensures s != ""
  {
  }

  lemma NumberExtends(s: string, x: string)
    requires 0 < NumRun(s) && (s[NumRun(s)..] == "" && x != "" ==> !IsNumChar(x[0]))
    ensures NumRun(s + x) == NumRun(s) && IsNumChar(s[0])
    ensures (s + x)[..NumRun(s)] == s[..NumRun(s)] && (s + x)[NumRun(s)..] == s[NumRun(s)..] + x
  {
    NumRunExtends(s, x);
  }

  lemma {:induction false} ParseArrayExtends(s: string, x: string)
    requires s != "" && s[0] == '[' && ParseArray(s).Some?
    ensures ParseArray(s + x) == Some((ParseArray(s).value.0, ParseArray(s).value.1 + x))
    decreases |s|, 0
  {
    assert (s + x)[1..] == s[1..] + x;
    SkipWsExtends(s[1..], x);
    var t := SkipWs(s[1..]);
    assert (t + x)[1..] == t[1..] + x;
    if t[0] != ']' {
      ParseElementsExtends(t, x);
    }
  }

  lemma {:induction false} ParseObjectExtends(s: string, x: string)
    requires s != "" && s[0] == '{' && ParseObject(s).Some?
    ensures ParseObject(s + x) == Some((ParseObject(s).value.0, ParseObject(s).value.1 + x))
    decreases |s|, 0
  {
    assert (s + x)[1..] == s[1..] + x;
    SkipWsExtends(s[1..], x);
    var t := SkipWs(s[1..]);
    assert (t + x)[1..] == t[1..] + x;
    if t[0] != '}' {
      ParseMembersExtends(t, x);
    }
  }

  lemma {:induction false} ParseValueExtends(text: string, x: string)
    requires ParseValue(text).Some? && Separates(ParseValue(text).value.0, ParseValue(text).value.1, x)
    ensures ParseValue(text + x) == Some((ParseValue(text).value.0, ParseValue(text).value.1 + x))
    decreases |text|, 1
  {
    SkipWsExtends(text, x);
    var s := SkipWs(text);
    if s[0] == '{' {
      ParseObjectExtends(s, x);
    } else if s[0] == '[' {
      ParseArrayExtends(s, x);
    } else {
      ParseScalarExtends(s, x);
    }
  }

  lemma {:induction false} ParseElementsExtends(s: string, x: string)
    requires ParseElements(s).Some?
    ensures ParseElements(s + x) == Some((ParseElements(s).value.0, ParseElements(s).value.1 + x))
    decreases |s|, 2
  {
    var (v, after) := ParseValue(s).value;
    assert after != "";
    ParseValueExtends(s, x);
    SkipWsExtends(after, x);
    var t := SkipWs(after);
    assert (t + x)[1..] == t[1..] + x;
    if t[0] == ',' {
      ParseElementsExtends(t[1..], x);
    }
  }

  lemma {:induction false} ParseMemberExtends(text: string, x: string)
    requires ParseMember(text).Some?
    requires Separates(ParseMember(text).value.0.1, ParseMember(text).value.1, x)
    ensures ParseMember(text + x) == Some((ParseMember(text).value.0, ParseMember(text).value.1 + x))
    decreases |text|, 2
  {
    var s := SkipWs(text);
    var (name, after) := ParseString(s[1..]).value;
    var t := SkipWs(after);
    ParseValueExtends(t[1..], x);
    NameExtends(text, x, s, name, after, t);
  }

  /** The name of a member and its colon, with something behind the member. */
  lemma NameExtends(text: string, x: string, s: string, name: string, after: string, t: string)
    requires s == SkipWs(text) && s != "" && s[0] == '"' && ParseString(s[1..]) == Some((name, after))
    requires t == SkipWs(after) && t != "" && t[0] == ':'
    ensures SkipWs(text + x) == s + x && (s + x)[1..] == s[1..] + x
    ensures ParseString(s[1..] + x) == Some((name, after + x))
    ensures SkipWs(after + x) == t + x && (t + x)[1..] == t[1..] + x
  {
    SkipWsExtends(text, x);
    ParseStringExtends(s[1..], x);
    SkipWsExtends(after, x);
  }

  lemma {:induction false} ParseMembersExtends(s: string, x: string)
    requires ParseMembers(s).Some?
    ensures ParseMembers(s + x) == Some((ParseMembers(s).value.0, ParseMembers(s).value.1 + x))
    decreases |s|, 3
  {
    var (m, after) := ParseMember(s).value;
    assert after != "";
    ParseMemberExtends(s, x);
    SkipWsExtends(after, x);
    var t := SkipWs(after);
    if t[0] == ',' {
      ParseMembersExtends(t[1..], x);
    }
    MembersContinue(s, x, m, after);
  }

  lemma MembersContinue(s: string, x: string, m: (string, Value), after: string)
    requires ParseMembers(s).Some? && ParseMember(s) == Some((m, after))
    requires ParseMember(s + x) == Some((m, after + x)) && SkipWs(after + x) == SkipWs(after) + x
    requires var t := SkipWs(after);
      t[0] == ',' ==>
        ParseMembers(t[1..] + x) == Some((ParseMembers(t[1..]).value.0, ParseMembers(t[1..]).value.1 + x))
    ensures ParseMembers(s + x) == Some((ParseMembers(s).value.0, ParseMembers(s).value.1 + x))
  {
    var t := SkipWs(after);
    var u := t + x;
    assert u[1..] == t[1..] + x && u[0] == t[0];
    SameEnd(s + x, m, after + x, u);
    SameEnd(s, m, after, t);
  }

  /** How a member list goes on behind its first member. */
  lemma SameEnd(s: string, m: (string, Value), after: string, t: string)
    requires ParseMember(s) == Some((m, after)) && SkipWs(after) == t && t != ""
    requires t[0] == '}' || t[0] == ','
    ensures t[0] == '}' ==> ParseMembers(s) == Some(([m], t[1..]))
    ensures t[0] == ',' ==>
      ParseMembers(s) == match ParseMembers(t[1..])
                         case None => None
                         case Some((ms, rest)) => Some(([m] + ms, rest))
  {
  }
}
