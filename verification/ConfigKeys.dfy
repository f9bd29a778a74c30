/** What every key of a config file takes and refuses, key by key, and the lines that are refused before a
    key is looked at. */
module ConfigKeys {
  import opened Options
  import opened Decimal
  import opened ConfigText
  import opened ConfigLoad
  import opened ConfigLayout

  // ----- numbers

  /** The characters that strtol skips. */
  predicate IsWhite(c: char) {
    c == ' ' || c == '\t' || c == '\n' || c == '\r' || c == 11 as char || c == 12 as char
  }

  /** `i` white characters, a sign or none, and from `j` on at least one digit and nothing else, which
      make up the number `n`. */
  predicate NumberAt(t: string, i: nat, j: nat, n: int) {
    && i <= j < |t|
    && (forall k :: 0 <= k < i ==> IsWhite(t[k]))
    && (j == i || (j == i + 1 && (t[i] == '-' || t[i] == '+')))
    && AllDecimal(t[j..])
    && var v: int := Undec(t[j..]);
       n == if j > i && t[i] == '-' then -v else v
  }

  ghost predicate Denotes(t: string, n: int) {
    exists i: nat, j: nat :: NumberAt(t, i, j, n)
  }

  lemma {:induction false} SpacesAreSkipped(t: string, i: nat)
    requires i <= |t| && (forall k :: 0 <= k < i ==> IsWhite(t[k])) && (i < |t| ==> !IsWhite(t[i]))
    ensures SkipSpaces(t) == t[i..]
  {
    if i > 0 {
      SpacesAreSkipped(t[1..], i - 1);
      assert t[1..][i - 1..] == t[i..];
    }
  }

  lemma {:induction false} SkippedSpaces(t: string) returns (i: nat)
    ensures i <= |t| && (forall k :: 0 <= k < i ==> IsWhite(t[k])) && SkipSpaces(t) == t[i..]
  {
    i := 0;
    if t != "" && IsSpace(t[0]) {
      i := SkippedSpaces(t[1..]);
      assert t[1..][i..] == t[i + 1..];
      assert forall k :: 0 < k < i + 1 ==> t[k] == t[1..][k - 1];
      i := i + 1;
    }
  }

  /** A number is taken if and only if the whole text is one, and it is in range: nothing is clamped. */
  lemma ParseIntExactlyWhen(t: string, low: int, high: int, n: int)
    ensures ParseInt(t, low, high) == Some(n) <==> low <= n <= high && Denotes(t, n)
  {
    if Denotes(t, n) {
      var i: nat, j: nat :| NumberAt(t, i, j, n);
      NumberIsParsed(t, low, high, i, j, n);
    }
    if ParseInt(t, low, high) == Some(n) {
      var i := SkippedSpaces(t);
      var s := t[i..];
      var j := if s[0] == '-' || s[0] == '+' then i + 1 else i;
      assert s[1..] == t[i + 1..];
      assert NumberAt(t, i, j, n);
    }
  }

  lemma NumberIsParsed(t: string, low: int, high: int, i: nat, j: nat, n: int)
    requires NumberAt(t, i, j, n)
    ensures ParseInt(t, low, high) == if low <= n <= high then Some(n) else None
  {
    assert t[j..][0] == t[j] && IsDecimal(t[j]);
    SpacesAreSkipped(t, i);
    assert t[i..][1..] == t[i + 1..] && t[i..][0] == t[i];
  }

  /** A text denotes one number at most. */
  lemma DenotesOne(t: string, m: int, n: int)
    requires Denotes(t, m) && Denotes(t, n)
    ensures m == n
  {
    var low, high := if m < n then m else n, if m < n then n else m;
    ParseIntExactlyWhen(t, low, high, m);
    ParseIntExactlyWhen(t, low, high, n);
  }

  // ----- what a line does

  /** The loader behind a line: it goes on in `section` with a new config, or stops at the line. */
  function Done(l: Loader, section: Section, setting: Setting): Loader {
    match setting
    case Set(cfg) => Loader(cfg, section, l.lineNo + 1, None)
    case Rejected(problem) => Loader(l.cfg, section, l.lineNo + 1, Some((l.lineNo + 1, problem)))
  }

  /** A number within the range is stored, and everything else is refused. */
  ghost predicate TakesNumber(l: Loader, r: Loader, section: Section, key: string, value: string,
                              low: int, high: int, store: int -> Config) {
    && (forall n :: low <= n <= high && Denotes(value, n) ==> r == Done(l, section, Set(store(n))))
    && ((forall n :: Denotes(value, n) ==> n < low || high < n) ==>
          r == Done(l, section, Rejected(BadValue(key, value))))
  }

  /** The first characters that a field has room for. */
  function Cut(value: string, most: nat): string {
    if |value| <= most then value else value[..most]
  }

  lemma NumberDecides(value: string, low: int, high: int)
    ensures match ParseInt(value, low, high)
            case Some(n) => low <= n <= high && Denotes(value, n) && forall m :: Denotes(value, m) ==> m == n
            case None => forall n :: Denotes(value, n) ==> n < low || high < n
  {
    var r := ParseInt(value, low, high);
    forall n
      ensures r == Some(n) <==> low <= n <= high && Denotes(value, n)
    {
      ParseIntExactlyWhen(value, low, high, n);
    }
    if r.Some? {
      forall m | Denotes(value, m)
        ensures m == r.value
      {
        DenotesOne(value, m, r.value);
      }
    }
  }

  function Stored(key: string, value: string, parsed: Option<int>, store: int -> Config): Setting {
    match parsed
    case Some(n) => Set(store(n))
    case None => Rejected(BadValue(key, value))
  }

  lemma NumberIsTaken(l: Loader, r: Loader, section: Section, key: string, value: string, low: int, high: int,
                      store: int -> Config)
    requires r == Done(l, section, Stored(key, value, ParseInt(value, low, high), store))
    ensures TakesNumber(l, r, section, key, value, low, high, store)
  {
    NumberDecides(value, low, high);
  }

  /** A line at the left margin. */
  ghost predicate TopLine(l: Loader, line: string, key: string, value: string) {
    l.error.None? && ParseLine(line) == Assignment(false, key, value)
  }

  /** An indented line in a section. */
  ghost predicate NestedLine(l: Loader, line: string, section: Section, key: string, value: string) {
    l.error.None? && l.section == section && ParseLine(line) == Assignment(true, key, value)
  }

  lemma TopLineActs(l: Loader, line: string, key: string, value: string)
    requires TopLine(l, line, key, value) && Opens(key, value).None?
    ensures LoadLine(l, line) == Done(l, TopLevel, SetTopLevel(l.cfg, key, value))
  {
  }

  lemma NestedLineActs(l: Loader, line: string, section: Section, key: string, value: string)
    requires NestedLine(l, line, section, key, value)
    ensures LoadLine(l, line) ==
      Done(l, section, match section
                       case TopLevel => Rejected(NoSection(key))
                       case OutputSection => SetOutput(l.cfg, key, value)
                       case CollectSection => SetCollect(l.cfg, key, value)
                       case LogSection => SetLog(l.cfg, key, value))
  {
  }

  lemma IntervalLine(l: Loader, line: string, value: string)
    requires TopLine(l, line, "poll_interval_seconds", value)
    ensures TakesNumber(l, LoadLine(l, line), TopLevel, "poll_interval_seconds", value, 1, 86400,
                        n => l.cfg.(interval := n))
  {
    IntervalKeyIsKnown();
    TopLineActs(l, line, "poll_interval_seconds", value);
    NumberIsTaken(l, LoadLine(l, line), TopLevel, "poll_interval_seconds", value, 1, 86400,
                  n => l.cfg.(interval := n));
  }

  lemma IntervalKeyIsKnown()
    ensures TopKeyOf("poll_interval_seconds") == Some(IntervalKey)
    ensures forall value :: Opens("poll_interval_seconds", value).None?
  {
  }

  lemma BatchSizeKeyIsKnown()
    ensures OutputKeyOf("batch_size") == Some(BatchSizeKey)
  {
  }

  lemma BatchIntervalKeyIsKnown()
    ensures OutputKeyOf("batch_interval_seconds") == Some(BatchIntervalKey)
  {
  }

  lemma RetryMaxKeyIsKnown()
    ensures OutputKeyOf("retry_max_attempts") == Some(RetryMaxKey)
  {
  }

  lemma RetryBackoffKeyIsKnown()
    ensures OutputKeyOf("retry_backoff_seconds") == Some(RetryBackoffKey)
  {
  }

  lemma BatchSizeLine(l: Loader, line: string, value: string)
    requires NestedLine(l, line, OutputSection, "batch_size", value)
    ensures TakesNumber(l, LoadLine(l, line), OutputSection, "batch_size", value, 1, 100000,
                        n => l.cfg.(batchSize := n))
  {
    BatchSizeKeyIsKnown();
    NestedLineActs(l, line, OutputSection, "batch_size", value);
    NumberIsTaken(l, LoadLine(l, line), OutputSection, "batch_size", value, 1, 100000, n => l.cfg.(batchSize := n));
  }

  lemma BatchIntervalLine(l: Loader, line: string, value: string)
    requires NestedLine(l, line, OutputSection, "batch_interval_seconds", value)
    ensures TakesNumber(l, LoadLine(l, line), OutputSection, "batch_interval_seconds", value, 1, 86400,
                        n => l.cfg.(batchInterval := n))
  {
    BatchIntervalKeyIsKnown();
    NestedLineActs(l, line, OutputSection, "batch_interval_seconds", value);
    NumberIsTaken(l, LoadLine(l, line), OutputSection, "batch_interval_seconds", value, 1, 86400, n => l.cfg.(batchInterval := n));
  }

  lemma RetryMaxLine(l: Loader, line: string, value: string)
    requires NestedLine(l, line, OutputSection, "retry_max_attempts", value)
    ensures TakesNumber(l, LoadLine(l, line), OutputSection, "retry_max_attempts", value, 0, 100,
                        n => l.cfg.(retryMax := n))
  {
    RetryMaxKeyIsKnown();
    NestedLineActs(l, line, OutputSection, "retry_max_attempts", value);
    NumberIsTaken(l, LoadLine(l, line), OutputSection, "retry_max_attempts", value, 0, 100, n => l.cfg.(retryMax := n));
  }

  lemma RetryBackoffLine(l: Loader, line: string, value: string)
    requires NestedLine(l, line, OutputSection, "retry_backoff_seconds", value)
    ensures TakesNumber(l, LoadLine(l, line), OutputSection, "retry_backoff_seconds", value, 0, 3600,
                        n => l.cfg.(retryBackoff := n))
  {
    RetryBackoffKeyIsKnown();
    NestedLineActs(l, line, OutputSection, "retry_backoff_seconds", value);
    NumberIsTaken(l, LoadLine(l, line), OutputSection, "retry_backoff_seconds", value, 0, 3600, n => l.cfg.(retryBackoff := n));
  }

  // ----- the other keys

  /** At the left margin: the version, the host, the headers of the sections, and nothing else; a header
      takes no value, and any other key ends the section. */
  lemma TopLevelLine(l: Loader, line: string, key: string, value: string)
    requires TopLine(l, line, key, value) && key != "poll_interval_seconds"
    ensures LoadLine(l, line) ==
      if key == "output" && value == "" then Done(l, OutputSection, Set(l.cfg))
      else if key == "collect" && value == "" then Done(l, CollectSection, Set(l.cfg))
      else if key == "log" && value == "" then Done(l, LogSection, Set(l.cfg))
      else
        Done(l, TopLevel,
             if key == "config_version" then
               if value == "1.0" then Set(l.cfg.(configVersion := "1.0")) else Rejected(BadValue(key, value))
             else if key == "host_override" then Set(l.cfg.(hostOverride := Cut(value, 127)))
             else Rejected(UnknownKey(key)))
  {
    if Opens(key, value).None? {
      TopLineActs(l, line, key, value);
      TopSetting(l.cfg, key, value);
    }
  }

  lemma TopSetting(cfg: Config, key: string, value: string)
    requires key != "poll_interval_seconds"
    ensures SetTopLevel(cfg, key, value) ==
      if key == "config_version" then
        if value == "1.0" then Set(cfg.(configVersion := "1.0")) else Rejected(BadValue(key, value))
      else if key == "host_override" then Set(cfg.(hostOverride := Cut(value, 127)))
      else Rejected(UnknownKey(key))
  {
  }

  /** Before any section header, and after any other key at the left margin, no indented key is taken. */
  lemma NoSectionLine(l: Loader, line: string, key: string, value: string)
    requires NestedLine(l, line, TopLevel, key, value)
    ensures LoadLine(l, line) == Done(l, TopLevel, Rejected(NoSection(key)))
  {
  }

  predicate IsOutputNumber(key: string) {
    || key == "batch_size" || key == "batch_interval_seconds"
    || key == "retry_max_attempts" || key == "retry_backoff_seconds"
  }

  lemma OutputLine(l: Loader, line: string, key: string, value: string)
    requires NestedLine(l, line, OutputSection, key, value) && !IsOutputNumber(key)
    ensures LoadLine(l, line) ==
      Done(l, OutputSection,
           if key == "type" then
             if value == "stdout" || value == "file" || value == "http_post" then Set(l.cfg.(outputType := value))
             else Rejected(BadValue(key, value))
           else if key == "url" then Set(l.cfg.(outputUrl := Cut(value, 255)))
           else if key == "path" then Set(l.cfg.(outputPath := Cut(value, 255)))
           else if key == "auth_header" then Set(l.cfg.(authHeader := Cut(value, 255)))
           else Rejected(UnknownKey(key)))
  {
    NestedLineActs(l, line, OutputSection, key, value);
    OutputSetting(l.cfg, key, value);
  }

  lemma OutputSetting(cfg: Config, key: string, value: string)
    requires !IsOutputNumber(key)
    ensures SetOutput(cfg, key, value) ==
      if key == "type" then
        if value == "stdout" || value == "file" || value == "http_post" then Set(cfg.(outputType := value))
        else Rejected(BadValue(key, value))
      else if key == "url" then Set(cfg.(outputUrl := Cut(value, 255)))
      else if key == "path" then Set(cfg.(outputPath := Cut(value, 255)))
      else if key == "auth_header" then Set(cfg.(authHeader := Cut(value, 255)))
      else Rejected(UnknownKey(key))
  {
  }

  /** A flag is looked at before its name. */
  lemma CollectLine(l: Loader, line: string, key: string, value: string)
    requires NestedLine(l, line, CollectSection, key, value)
    ensures var flag := value == "true";
      LoadLine(l, line) ==
        Done(l, CollectSection,
             if value != "true" && value != "false" then Rejected(BadValue(key, value))
             else if key == "cpu" then Set(l.cfg.(showCpu := flag))
             else if key == "memory" then Set(l.cfg.(showMemory := flag))
             else if key == "disk" then Set(l.cfg.(showDisk := flag))
             else if key == "network" then Set(l.cfg.(showNetwork := flag))
             else if key == "load" then Set(l.cfg)
             else if key == "processes" then Set(l.cfg.(showProcesses := flag))
             else Rejected(UnknownKey(key)))
  {
    NestedLineActs(l, line, CollectSection, key, value);
    CollectSetting(l.cfg, key, value);
  }

  lemma CollectSetting(cfg: Config, key: string, value: string)
    ensures var flag := value == "true";
      SetCollect(cfg, key, value) ==
        if value != "true" && value != "false" then Rejected(BadValue(key, value))
        else if key == "cpu" then Set(cfg.(showCpu := flag))
        else if key == "memory" then Set(cfg.(showMemory := flag))
        else if key == "disk" then Set(cfg.(showDisk := flag))
        else if key == "network" then Set(cfg.(showNetwork := flag))
        else if key == "load" then Set(cfg)
        else if key == "processes" then Set(cfg.(showProcesses := flag))
        else Rejected(UnknownKey(key))
  {
  }

  lemma LogLine(l: Loader, line: string, key: string, value: string)
    requires NestedLine(l, line, LogSection, key, value)
    ensures LoadLine(l, line) ==
      Done(l, LogSection,
           if key == "level" then
             if value == "debug" || value == "info" || value == "warn" || value == "error" then
               Set(l.cfg.(logLevel := value))
             else Rejected(BadValue(key, value))
           else if key == "destination" then
             if value == "stderr" || value == "file" then Set(l.cfg.(logDestination := value))
             else Rejected(BadValue(key, value))
           else if key == "path" then Set(l.cfg.(logPath := Cut(value, 255)))
           else Rejected(UnknownKey(key)))
  {
    NestedLineActs(l, line, LogSection, key, value);
    LogSetting(l.cfg, key, value);
  }

  lemma LogSetting(cfg: Config, key: string, value: string)
    ensures SetLog(cfg, key, value) ==
      if key == "level" then
        if value == "debug" || value == "info" || value == "warn" || value == "error" then
          Set(cfg.(logLevel := value))
        else Rejected(BadValue(key, value))
      else if key == "destination" then
        if value == "stderr" || value == "file" then Set(cfg.(logDestination := value))
        else Rejected(BadValue(key, value))
      else if key == "path" then Set(cfg.(logPath := Cut(value, 255)))
      else Rejected(UnknownKey(key))
  {
  }

  /** The first line that is refused is the last one that is looked at. */
  lemma RefusedLineIsLast(l: Loader, before: seq<string>, line: string, after: seq<string>)
    requires LoadLine(LoadLines(l, before), line).error.Some?
    ensures LoadLines(l, before + [line] + after) == LoadLine(LoadLines(l, before), line)
  {
    LoadConcat(l, before + [line], after);
    LoadConcat(l, before, [line]);
    var r := LoadLine(LoadLines(l, before), line);
    assert LoadLines(LoadLines(l, before), [line]) == LoadLines(r, []) == r;
    NothingIsLoaded(r, after);
  }

  lemma {:induction false} NothingIsLoaded(l: Loader, lines: seq<string>)
    requires l.error.Some?
    ensures LoadLines(l, lines) == l
    decreases |lines|
  {
    if lines != [] {
      NothingIsLoaded(l, lines[1..]);
    }
  }
}
