/** Printing a config and loading it again gives the same config. */
module ConfigRoundTrip {
  import opened Options
  import opened Decimal
  import opened ConfigText
  import opened ConfigLoad
  import opened ConfigLayout

  // ----- one printed line

  predicate IsKey(key: string) {
    key != "" && forall i :: 0 <= i < |key| ==> 'a' <= key[i] <= 'z' || key[i] == '_'
  }

  /** What can stand between quotes on one line. */
  predicate IsQuotable(value: string) {
    '"' !in value && '\n' !in value && '\0' !in value
  }

  function Indent(nested: bool): string {
    if nested then "  " else ""
  }

  function Body(key: string, value: string): string {
    key + ": \"" + value + "\""
  }

  function EntryLine(nested: bool, key: string, value: string): string {
    Indent(nested) + Body(key, value)
  }

  lemma {:induction false} NoHashNoCut(s: string, i: nat, q: bool)
    requires i <= |s| && '#' !in s
    ensures CutFrom(s, i, q) == |s|
    decreases |s| - i
  {
    if i < |s| {
      NoHashNoCut(s, i + 1, if s[i] == '"' then !q else q);
    }
  }

  lemma {:induction false} NoQuotesCount(s: string)
    requires '"' !in s
    ensures Quotes(s) == 0
  {
    if s != "" {
      assert '"' !in s[..|s| - 1];
      NoQuotesCount(s[..|s| - 1]);
    }
  }

  /** A quoted value hides comment signs. */
  lemma QuotedValueIsNotCut(key: string, value: string)
    requires IsKey(key) && IsQuotable(value)
    ensures CutFrom(Body(key, value) + "\n", 0, false) == |Body(key, value)| + 1
  {
    var opening := key + ": \"";
    var open := opening + value;
    var all := Body(key, value) + "\n";
    assert '#' !in opening;
    NoHashNoCut(opening, 0, false);
    NoQuotesCount(key + ": ");
    assert opening[..|opening| - 1] == key + ": ";
    assert Quotes(opening) == 1;
    CutExtends(opening, value, 0);
    assert opening[..0] == "" && open[..0] == "" && open[|opening|..] == value;
    NoCutInsideQuotes(open, |opening|);
    assert CutFrom(open, 0, false) == |open|;
    OpenQuotes(opening, value);
    assert all == open + "\"\n";
    CutExtends(open, "\"\n", 0);
    assert all[|open|] == '"' && all[|open| + 1] == '\n' && |all| == |open| + 2;
    assert CutFrom(all, |open| + 1, false) == |all|;
  }

  lemma {:induction false} OpenQuotes(s: string, value: string)
    requires '"' !in value
    ensures Quotes(s + value) == Quotes(s)
    decreases |value|
  {
    if value == "" {
      assert s + value == s;
    } else {
      assert (s + value)[..|s + value| - 1] == s + value[..|value| - 1];
      OpenQuotes(s, value[..|value| - 1]);
    }
  }

  lemma {:induction false} IndexOfAfterKey(key: string, rest: string)
    requires ':' !in key && rest != "" && rest[0] == ':'
    ensures IndexOf(key + rest, ':') == |key|
    decreases |key|
  {
    if key == "" {
      assert key + rest == rest;
    } else {
      assert (key + rest)[1..] == key[1..] + rest;
      IndexOfAfterKey(key[1..], rest);
    }
  }

  lemma KeyIsPlain(key: string)
    requires IsKey(key)
    ensures Unquote(Trim(key)) == key && ':' !in key && LTrim(key) == key && RTrim(key) == key
  {
  }

  lemma ValueIsUnquoted(value: string)
    ensures Unquote(Trim(" \"" + value + "\"")) == value
  {
    var quoted := "\"" + value + "\"";
    assert " \"" + value + "\"" == " " + quoted;
    assert (" " + quoted)[1..] == quoted && LTrim(quoted) == quoted;
    assert RTrim(quoted) == quoted;
    assert quoted[1..|quoted| - 1] == value;
  }

  lemma BodySplits(nested: bool, key: string, value: string)
    requires IsKey(key)
    ensures SplitLine(nested, Body(key, value)) == Assignment(nested, key, value)
  {
    var body, rest := Body(key, value), ": \"" + value + "\"";
    assert body == key + rest;
    KeyIsPlain(key);
    IndexOfAfterKey(key, rest);
    assert body[..|key|] == key && body[|key| + 1..] == " \"" + value + "\"";
    ValueIsUnquoted(value);
  }

  /** A printed line says its key and value, whatever the value holds besides quotes and newlines. */
  lemma EntryLineParses(nested: bool, key: string, value: string)
    requires IsKey(key) && IsQuotable(value)
    ensures ParseLine(EntryLine(nested, key, value) + "\n") == Assignment(nested, key, value)
  {
    var text := Body(key, value) + "\n";
    var line := EntryLine(nested, key, value) + "\n";
    assert line == Indent(nested) + text;
    IndentIsTwoSpaces(nested, text);
    BodyIsWhatIsLeft(key, value);
    BodySplits(nested, key, value);
  }

  lemma BodyIsWhatIsLeft(key: string, value: string)
    requires IsKey(key) && IsQuotable(value)
    ensures Trim(StripComment(Body(key, value) + "\n")) == Body(key, value)
  {
    var body := Body(key, value);
    QuotedValueIsNotCut(key, value);
    assert (body + "\n")[..|body| + 1] == body + "\n";
    RTrimDropsBlanks(body, "\n");
    assert body[|body| - 1] == '"' && body[0] == key[0];
  }

  lemma IndentIsTwoSpaces(nested: bool, text: string)
    requires text != "" && !IsBlank(text[0])
    ensures var line := Indent(nested) + text;
      LTrim(line) == text && LeadingSpaces(line) == |Indent(nested)| && line[LeadingSpaces(line)..] == text
  {
    var line := Indent(nested) + text;
    assert LTrim(text) == text && LeadingSpaces(text) == 0;
    if nested {
      var inner := " " + text;
      assert inner[1..] == text && line[1..] == inner;
      assert LTrim(inner) == text && LeadingSpaces(inner) == 1;
    } else {
      assert line == text;
    }
  }

  /** A section header, as printed. */
  lemma HeaderParses(key: string)
    requires IsKey(key)
    ensures ParseLine(key + ":" + "\n") == Assignment(false, key, "")
  {
    var text := key + ":" + "\n";
    assert "" + text == text;
    IndentIsTwoSpaces(false, text);
    HeaderIsWhatIsLeft(key);
    HeaderSplits(key);
  }

  lemma HeaderIsWhatIsLeft(key: string)
    requires IsKey(key)
    ensures Trim(StripComment(key + ":" + "\n")) == key + ":"
  {
    var body := key + ":";
    var text := body + "\n";
    assert '#' !in text;
    NoHashNoCut(text, 0, false);
    assert text[..|text|] == text;
    RTrimDropsBlanks(body, "\n");
    assert RTrim(body) == body && LTrim(body) == body;
  }

  lemma HeaderSplits(key: string)
    requires IsKey(key)
    ensures SplitLine(false, key + ":") == Assignment(false, key, "")
  {
    var body := key + ":";
    KeyIsPlain(key);
    IndexOfAfterKey(key, ":");
    assert body[..|key|] == key && body[|key| + 1..] == "";
  }

  // ----- the whole config

  /** A section header or a key with its value. */
  datatype Item = Header(key: string) | Entry(nested: bool, key: string, value: string)

  function ItemLine(item: Item): string {
    match item
    case Header(key) => key + ":"
    case Entry(nested, key, value) => EntryLine(nested, key, value)
  }

  function Said(item: Item): Parsed {
    match item
    case Header(key) => Assignment(false, key, "")
    case Entry(nested, key, value) => Assignment(nested, key, value)
  }

  predicate IsPrintable(item: Item) {
    && IsKey(item.key) && |item.key| < 64
    && (item.Entry? ==> IsQuotable(item.value) && |item.value| < 256)
  }

  function BoolText(b: bool): string {
    if b then "true" else "false"
  }

  /** A number that stays unset in the defaults is printed only when it is set. */
  function NumberIfSet(key: string, n: nat): seq<Item> {
    if n == 0 then [] else [Entry(true, key, Dec(n))]
  }

  function TopItems(interval: nat, host: string): seq<Item> {
    [Entry(false, "config_version", "1.0"), Entry(false, "poll_interval_seconds", Dec(interval)),
     Entry(false, "host_override", host)]
  }

  function OutputItems(c: Config): seq<Item>
    requires InRange(c)
  {
    OutputTexts(c)
    + (NumberIfSet("batch_size", c.batchSize) + NumberIfSet("batch_interval_seconds", c.batchInterval))
    + Retries(c.retryMax, c.retryBackoff)
  }

  function OutputTexts(c: Config): seq<Item> {
    OutputHead(c.outputType, c.outputUrl) + OutputTail(c.outputPath, c.authHeader)
  }

  function OutputHead(outputType: string, url: string): seq<Item> {
    [Header("output"), Entry(true, "type", outputType), Entry(true, "url", url)]
  }

  function OutputTail(path: string, auth: string): seq<Item> {
    [Entry(true, "path", path), Entry(true, "auth_header", auth)]
  }

  function Retries(attempts: nat, backoff: nat): seq<Item> {
    [Entry(true, "retry_max_attempts", Dec(attempts)), Entry(true, "retry_backoff_seconds", Dec(backoff))]
  }

  function FirstFlags(cpu: bool, memory: bool): seq<Item> {
    [Header("collect"), Entry(true, "cpu", BoolText(cpu)), Entry(true, "memory", BoolText(memory))]
  }

  function LastFlags(disk: bool, network: bool, processes: bool): seq<Item> {
    [Entry(true, "disk", BoolText(disk)), Entry(true, "network", BoolText(network)),
     Entry(true, "processes", BoolText(processes))]
  }

  function CollectItems(c: Config): seq<Item> {
    FirstFlags(c.showCpu, c.showMemory) + LastFlags(c.showDisk, c.showNetwork, c.showProcesses)
  }

  function LogItems(c: Config): seq<Item> {
    [Header("log"), Entry(true, "level", c.logLevel), Entry(true, "destination", c.logDestination),
     Entry(true, "path", c.logPath)]
  }

  function Items(c: Config): seq<Item>
    requires InRange(c)
  {
    TopItems(c.interval, c.hostOverride) + OutputItems(c) + CollectItems(c) + LogItems(c)
  }

  /** The configs the loader can produce from the defaults with values that fit between quotes;
      0 for the two batch limits means unset. */
  predicate InRange(c: Config) {
    && c.configVersion == "1.0" && 1 <= c.interval <= 86400
    && IsQuotable(c.hostOverride) && |c.hostOverride| < 128
    && IsOutputType(c.outputType)
    && IsQuotable(c.outputUrl) && |c.outputUrl| < 256
    && IsQuotable(c.outputPath) && |c.outputPath| < 256
    && IsQuotable(c.authHeader) && |c.authHeader| < 256
    && 0 <= c.batchSize <= 100000 && 0 <= c.batchInterval <= 86400
    && 0 <= c.retryMax <= 100 && 0 <= c.retryBackoff <= 3600
    && IsLogLevel(c.logLevel) && IsLogDestination(c.logDestination)
    && IsQuotable(c.logPath) && |c.logPath| < 256
  }

  function ItemLines(items: seq<Item>): seq<string> {
    seq(|items|, i requires 0 <= i < |items| => ItemLine(items[i]))
  }

  function PrintConfig(c: Config): string
    requires InRange(c)
  {
    FileOf(ItemLines(Items(c)))
  }

  /** Acting on items one after the other. */
  function ActItems(l: Loader, items: seq<Item>): Loader
    decreases |items|
  {
    if items == [] then l else ActOnce(ActItems(l, items[..|items| - 1]), Said(items[|items| - 1]))
  }

  lemma ActNext(l: Loader, items: seq<Item>, item: Item)
    ensures ActItems(l, items + [item]) == ActOnce(ActItems(l, items), Said(item))
  {
    assert (items + [item])[..|items|] == items;
  }

  lemma {:induction false} ActConcat(l: Loader, a: seq<Item>, b: seq<Item>)
    ensures ActItems(l, a + b) == ActItems(ActItems(l, a), b)
    decreases |b|
  {
    if b == [] {
      assert a + b == a;
    } else {
      var init, last := b[..|b| - 1], b[|b| - 1];
      assert a + b == (a + init) + [last];
      ActNext(l, a + init, last);
      ActConcat(l, a, init);
    }
  }

  lemma DecParses(n: nat, low: int, high: int)
    requires low <= n <= high
    ensures ParseInt(Dec(n), low, high) == Some(n)
  {
    DecRoundTrip(n);
  }

  lemma SetsOutput(l: Loader, key: string, k: OutputKey, value: string, cfg: Config)
    requires l.error.None? && l.section == OutputSection
    requires OutputKeyOf(key) == Some(k) && AssignOutput(l.cfg, k, value) == Some(cfg)
    ensures ActItems(l, [Entry(true, key, value)]) == l.(cfg := cfg)
  {
    ActNext(l, [], Entry(true, key, value));
    assert [] + [Entry(true, key, value)] == [Entry(true, key, value)];
  }

  /** One more key of the output section. */
  lemma OutputNext(l: Loader, items: seq<Item>, key: string, k: OutputKey, value: string, cfg: Config)
    requires OutputKeyOf(key) == Some(k)
    requires var m := ActItems(l, items);
      m.error.None? && m.section == OutputSection && AssignOutput(m.cfg, k, value) == Some(cfg)
    ensures ActItems(l, items + [Entry(true, key, value)]) == ActItems(l, items).(cfg := cfg)
  {
    ActNext(l, items, Entry(true, key, value));
  }

  lemma NumbersIfSetLoad(l: Loader, batchSize: nat, batchInterval: nat)
    requires l.error.None? && l.section == OutputSection && batchSize <= 100000 && batchInterval <= 86400
    requires l.cfg.batchSize == 0 && l.cfg.batchInterval == 0
    ensures ActItems(l, NumberIfSet("batch_size", batchSize) + NumberIfSet("batch_interval_seconds", batchInterval)) ==
      l.(cfg := l.cfg.(batchSize := batchSize, batchInterval := batchInterval))
  {
    var a, b := NumberIfSet("batch_size", batchSize), NumberIfSet("batch_interval_seconds", batchInterval);
    ActConcat(l, a, b);
    var m := l.(cfg := l.cfg.(batchSize := batchSize));
    if batchSize != 0 {
      DecParses(batchSize, 1, 100000);
      SetsOutput(l, "batch_size", BatchSizeKey, Dec(batchSize), m.cfg);
    }
    if batchInterval != 0 {
      DecParses(batchInterval, 1, 86400);
      var n := m.cfg.(batchInterval := batchInterval);
      SetsOutput(m, "batch_interval_seconds", BatchIntervalKey, Dec(batchInterval), n);
    }
  }

  lemma OutputTextsLoad(l: Loader, c: Config)
    requires l.error.None? && InRange(c)
    ensures ActItems(l, OutputTexts(c)) ==
      l.(section := OutputSection, cfg := l.cfg.(outputType := c.outputType, outputUrl := c.outputUrl,
                                          outputPath := c.outputPath, authHeader := c.authHeader))
  {
    var head := OutputHead(c.outputType, c.outputUrl);
    ActConcat(l, head, OutputTail(c.outputPath, c.authHeader));
    OutputHeadLoads(l, c.outputType, c.outputUrl);
    OutputTailLoads(ActItems(l, head), c.outputPath, c.authHeader);
  }

  lemma OutputHeadLoads(l: Loader, outputType: string, url: string)
    requires l.error.None? && IsOutputType(outputType) && |url| < 256
    ensures ActItems(l, OutputHead(outputType, url)) ==
      l.(section := OutputSection, cfg := l.cfg.(outputType := outputType, outputUrl := url))
  {
    var i0 := [] + [Header("output")];
    ActNext(l, [], Header("output"));
    var c1 := l.cfg.(outputType := outputType);
    OutputNext(l, i0, "type", TypeKey, outputType, c1);
    var i1 := i0 + [Entry(true, "type", outputType)];
    OutputNext(l, i1, "url", UrlKey, url, c1.(outputUrl := url));
    assert i1 + [Entry(true, "url", url)] == OutputHead(outputType, url);
  }

  lemma OutputTailLoads(l: Loader, path: string, auth: string)
    requires l.error.None? && l.section == OutputSection && |path| < 256 && |auth| < 256
    ensures ActItems(l, OutputTail(path, auth)) == l.(cfg := l.cfg.(outputPath := path, authHeader := auth))
  {
    var i0 := [Entry(true, "path", path)];
    var c1 := l.cfg.(outputPath := path);
    SetsOutput(l, "path", PathKey, path, c1);
    OutputNext(l, i0, "auth_header", AuthKey, auth, c1.(authHeader := auth));
    assert i0 + [Entry(true, "auth_header", auth)] == OutputTail(path, auth);
  }

  lemma RetriesLoad(l: Loader, attempts: nat, backoff: nat)
    requires l.error.None? && l.section == OutputSection && attempts <= 100 && backoff <= 3600
    ensures ActItems(l, Retries(attempts, backoff)) == l.(cfg := l.cfg.(retryMax := attempts, retryBackoff := backoff))
  {
    var m := l.cfg.(retryMax := attempts);
    var first := [Entry(true, "retry_max_attempts", Dec(attempts))];
    RetryNumbersParse(l.cfg, attempts, backoff);
    RetryNumbersParse(m, attempts, backoff);
    SetsOutput(l, "retry_max_attempts", RetryMaxKey, Dec(attempts), m);
    OutputNext(l, first, "retry_backoff_seconds", RetryBackoffKey, Dec(backoff), m.(retryBackoff := backoff));
    assert first + [Entry(true, "retry_backoff_seconds", Dec(backoff))] == Retries(attempts, backoff);
  }

  lemma RetryNumbersParse(cfg: Config, attempts: nat, backoff: nat)
    requires attempts <= 100 && backoff <= 3600
    ensures AssignOutput(cfg, RetryMaxKey, Dec(attempts)) == Some(cfg.(retryMax := attempts))
    ensures AssignOutput(cfg, RetryBackoffKey, Dec(backoff)) == Some(cfg.(retryBackoff := backoff))
  {
    DecParses(attempts, 0, 100);
    DecParses(backoff, 0, 3600);
  }

  lemma OutputSectionLoads(l: Loader, c: Config)
    requires l.error.None? && InRange(c) && l.cfg.batchSize == 0 && l.cfg.batchInterval == 0
    ensures ActItems(l, OutputItems(c)) ==
      l.(section := OutputSection, cfg := l.cfg.(outputType := c.outputType, outputUrl := c.outputUrl,
           outputPath := c.outputPath, authHeader := c.authHeader, batchSize := c.batchSize,
           batchInterval := c.batchInterval, retryMax := c.retryMax, retryBackoff := c.retryBackoff))
  {
    var texts := OutputTexts(c);
    var numbers := NumberIfSet("batch_size", c.batchSize) + NumberIfSet("batch_interval_seconds", c.batchInterval);
    var retries := Retries(c.retryMax, c.retryBackoff);
    OutputTextsLoad(l, c);
    ActConcat(l, texts, numbers);
    NumbersIfSetLoad(ActItems(l, texts), c.batchSize, c.batchInterval);
    ActConcat(l, texts + numbers, retries);
    RetriesLoad(ActItems(l, texts + numbers), c.retryMax, c.retryBackoff);
  }

  lemma TopNext(l: Loader, items: seq<Item>, key: string, value: string, cfg: Config)
    requires var m := ActItems(l, items);
      m.error.None? && Opens(key, value).None? && SetTopLevel(m.cfg, key, value) == Set(cfg)
    ensures ActItems(l, items + [Entry(false, key, value)]) == ActItems(l, items).(section := TopLevel, cfg := cfg)
  {
    ActNext(l, items, Entry(false, key, value));
  }

  lemma IntervalIsSet(cfg: Config, n: nat)
    requires 1 <= n <= 86400
    ensures SetTopLevel(cfg, "poll_interval_seconds", Dec(n)) == Set(cfg.(interval := n))
  {
    DecParses(n, 1, 86400);
  }

  lemma TopLevelLoads(l: Loader, interval: nat, host: string)
    requires l.error.None? && 1 <= interval <= 86400 && |host| < 128
    ensures ActItems(l, TopItems(interval, host)) ==
      l.(section := TopLevel, cfg := l.cfg.(configVersion := "1.0", interval := interval, hostOverride := host))
  {
    var c1 := l.cfg.(configVersion := "1.0");
    TopNext(l, [], "config_version", "1.0", c1);
    var i1 := [] + [Entry(false, "config_version", "1.0")];
    IntervalIsSet(c1, interval);
    var c2 := c1.(interval := interval);
    TopNext(l, i1, "poll_interval_seconds", Dec(interval), c2);
    var i2 := i1 + [Entry(false, "poll_interval_seconds", Dec(interval))];
    TopNext(l, i2, "host_override", host, c2.(hostOverride := host));
    assert i2 + [Entry(false, "host_override", host)] == TopItems(interval, host);
  }

  lemma CollectNext(l: Loader, items: seq<Item>, key: string, k: CollectKey, flag: bool)
    requires CollectKeyOf(key) == Some(k)
    requires ActItems(l, items).error.None? && ActItems(l, items).section == CollectSection
    ensures var m := ActItems(l, items);
      ActItems(l, items + [Entry(true, key, BoolText(flag))]) == m.(cfg := AssignFlag(m.cfg, k, flag))
  {
    var m := ActItems(l, items);
    var said := Assignment(true, key, BoolText(flag));
    FlagIsSet(m.cfg, key, k, flag);
    assert Act(m, said) == Apply(m, SetCollect(m.cfg, key, BoolText(flag)));
    ActNext(l, items, Entry(true, key, BoolText(flag)));
  }

  lemma FlagIsSet(cfg: Config, key: string, k: CollectKey, flag: bool)
    requires CollectKeyOf(key) == Some(k)
    ensures SetCollect(cfg, key, BoolText(flag)) == Set(AssignFlag(cfg, k, flag))
  {
    BoolParses(flag);
  }

  lemma BoolParses(b: bool)
    ensures ParseBool(BoolText(b)) == Some(b)
  {
  }

  lemma FirstFlagsLoad(l: Loader, cpu: bool, memory: bool)
    requires l.error.None?
    ensures ActItems(l, FirstFlags(cpu, memory)) ==
      l.(section := CollectSection, cfg := l.cfg.(showCpu := cpu, showMemory := memory))
  {
    var i0 := [] + [Header("collect")];
    ActNext(l, [], Header("collect"));
    CollectNext(l, i0, "cpu", CpuKey, cpu);
    var i1 := i0 + [Entry(true, "cpu", BoolText(cpu))];
    CollectNext(l, i1, "memory", MemoryKey, memory);
    assert i1 + [Entry(true, "memory", BoolText(memory))] == FirstFlags(cpu, memory);
  }

  lemma LastFlagsLoad(l: Loader, disk: bool, network: bool, processes: bool)
    requires l.error.None? && l.section == CollectSection
    ensures ActItems(l, LastFlags(disk, network, processes)) ==
      l.(cfg := l.cfg.(showDisk := disk, showNetwork := network, showProcesses := processes))
  {
    CollectNext(l, [], "disk", DiskKey, disk);
    var i1 := [] + [Entry(true, "disk", BoolText(disk))];
    CollectNext(l, i1, "network", NetworkKey, network);
    var i2 := i1 + [Entry(true, "network", BoolText(network))];
    CollectNext(l, i2, "processes", ProcessesKey, processes);
    assert i2 + [Entry(true, "processes", BoolText(processes))] == LastFlags(disk, network, processes);
  }

  lemma CollectSectionLoads(l: Loader, c: Config)
    requires l.error.None?
    ensures ActItems(l, CollectItems(c)) ==
      l.(section := CollectSection,
         cfg := l.cfg.(showCpu := c.showCpu, showMemory := c.showMemory, showDisk := c.showDisk,
                       showNetwork := c.showNetwork, showProcesses := c.showProcesses))
  {
    var first, last := FirstFlags(c.showCpu, c.showMemory), LastFlags(c.showDisk, c.showNetwork, c.showProcesses);
    ActConcat(l, first, last);
    FirstFlagsLoad(l, c.showCpu, c.showMemory);
    LastFlagsLoad(ActItems(l, first), c.showDisk, c.showNetwork, c.showProcesses);
  }

  lemma LogNext(l: Loader, items: seq<Item>, key: string, value: string, cfg: Config)
    requires var m := ActItems(l, items);
      m.error.None? && m.section == LogSection && SetLog(m.cfg, key, value) == Set(cfg)
    ensures ActItems(l, items + [Entry(true, key, value)]) == ActItems(l, items).(cfg := cfg)
  {
    ActNext(l, items, Entry(true, key, value));
  }

  lemma LogSectionLoads(l: Loader, c: Config)
    requires l.error.None? && InRange(c)
    ensures ActItems(l, LogItems(c)) ==
      l.(section := LogSection,
         cfg := l.cfg.(logLevel := c.logLevel, logDestination := c.logDestination, logPath := c.logPath))
  {
    var i0 := [] + [Header("log")];
    ActNext(l, [], Header("log"));
    var c1 := l.cfg.(logLevel := c.logLevel);
    LogNext(l, i0, "level", c.logLevel, c1);
    var i1 := i0 + [Entry(true, "level", c.logLevel)];
    var c2 := c1.(logDestination := c.logDestination);
    LogNext(l, i1, "destination", c.logDestination, c2);
    var i2 := i1 + [Entry(true, "destination", c.logDestination)];
    LogNext(l, i2, "path", c.logPath, c2.(logPath := c.logPath));
    assert i2 + [Entry(true, "path", c.logPath)] == LogItems(c);
  }

  /** Acting on all printed items over the defaults rebuilds the config. */
  lemma ItemsRebuild(c: Config)
    requires InRange(c)
    ensures ActItems(Start(DEFAULTS), Items(c)) == Start(DEFAULTS).(section := LogSection, cfg := c)
  {
    var l0 := Start(DEFAULTS);
    TopLevelLoads(l0, c.interval, c.hostOverride);
    ActConcat(l0, TopItems(c.interval, c.hostOverride), OutputItems(c));
    OutputSectionLoads(ActItems(l0, TopItems(c.interval, c.hostOverride)), c);
    var i2 := TopItems(c.interval, c.hostOverride) + OutputItems(c);
    ActConcat(l0, i2, CollectItems(c));
    CollectSectionLoads(ActItems(l0, i2), c);
    ActConcat(l0, i2 + CollectItems(c), LogItems(c));
    LogSectionLoads(ActItems(l0, i2 + CollectItems(c)), c);
  }

  // ----- from items to the file and back

  lemma ItemParses(item: Item)
    requires IsPrintable(item)
    ensures ParseLine(ItemLine(item) + "\n") == Said(item)
  {
    match item
    case Header(key) => HeaderParses(key);
    case Entry(nested, key, value) => EntryLineParses(nested, key, value);
  }

  lemma ItemIsPlain(item: Item)
    requires IsPrintable(item)
    ensures PlainLine(ItemLine(item))
  {
    assert '\n' !in item.key && '\0' !in item.key;
    if item.Entry? {
      assert '\n' !in Indent(item.nested) && '\0' !in Indent(item.nested);
      assert '\n' !in ": \"" && '\0' !in ": \"";
    }
  }

  lemma PrintedItemActs(a: Loader, b: Loader, item: Item)
    requires Alike(a, b) && IsPrintable(item)
    ensures Alike(LoadLines(a, [ItemLine(item) + "\n"]), ActOnce(b, Said(item)))
  {
    LoadOne(a, ItemLine(item) + "\n");
    ItemParses(item);
    LineActsAlike(a, b, Said(item));
  }

  /** Loading printed items is acting on them, up to the line count. */
  lemma {:induction false} PrintedItemsLoad(l: Loader, items: seq<Item>)
    requires AllPrintable(items)
    ensures Alike(LoadLines(l, WithNewlines(ItemLines(items))), ActItems(l, items))
    decreases |items|
  {
    if items != [] {
      var init, last := items[..|items| - 1], items[|items| - 1];
      PrintedItemsLoad(l, init);
      var lines, line := WithNewlines(ItemLines(init)), ItemLine(last) + "\n";
      PrintedItemActs(LoadLines(l, lines), ActItems(l, init), last);
      LoadConcat(l, lines, [line]);
      LastLine(items);
    }
  }

  lemma LastLine(items: seq<Item>)
    requires items != []
    ensures WithNewlines(ItemLines(items)) ==
      WithNewlines(ItemLines(items[..|items| - 1])) + [ItemLine(items[|items| - 1]) + "\n"]
  {
  }

  lemma LoadOne(l: Loader, line: string)
    ensures LoadLines(l, [line]) == LoadLine(l, line)
  {
    assert [line][1..] == [];
    assert LoadLines(LoadLine(l, line), []) == LoadLine(l, line);
  }

  ghost predicate AllPrintable(items: seq<Item>) {
    forall i :: 0 <= i < |items| ==> IsPrintable(items[i])
  }

  lemma PrintableConcat(a: seq<Item>, b: seq<Item>)
    requires AllPrintable(a) && AllPrintable(b)
    ensures AllPrintable(a + b)
  {
  }

  lemma NumberIsPrintable(nested: bool, key: string, n: nat)
    requires IsKey(key) && |key| < 64 && n <= 100000
    ensures IsPrintable(Entry(nested, key, Dec(n)))
  {
    assert Pow10(6) == 1000000;
    DecLength(n, 6);
  }

  lemma TopIsPrintable(interval: nat, host: string)
    requires interval <= 86400 && IsQuotable(host) && |host| < 128
    ensures AllPrintable(TopItems(interval, host))
  {
    NumberIsPrintable(false, "poll_interval_seconds", interval);
    assert IsPrintable(Entry(false, "config_version", "1.0"));
    assert IsPrintable(Entry(false, "host_override", host));
  }

  lemma OutputTextsArePrintable(c: Config)
    requires InRange(c)
    ensures AllPrintable(OutputTexts(c))
  {
    OutputHeadIsPrintable(c.outputType, c.outputUrl);
    assert IsPrintable(Entry(true, "path", c.outputPath));
    assert IsPrintable(Entry(true, "auth_header", c.authHeader));
    PrintableConcat(OutputHead(c.outputType, c.outputUrl), OutputTail(c.outputPath, c.authHeader));
  }

  lemma OutputHeadIsPrintable(outputType: string, url: string)
    requires IsOutputType(outputType) && IsQuotable(url) && |url| < 256
    ensures AllPrintable(OutputHead(outputType, url))
  {
    assert IsPrintable(Header("output"));
    assert IsPrintable(Entry(true, "type", outputType));
    assert IsPrintable(Entry(true, "url", url));
  }

  lemma BatchNumbersArePrintable(batchSize: nat, batchInterval: nat)
    requires batchSize <= 100000 && batchInterval <= 86400
    ensures AllPrintable(NumberIfSet("batch_size", batchSize) + NumberIfSet("batch_interval_seconds", batchInterval))
  {
    NumberIsPrintable(true, "batch_size", batchSize);
    NumberIsPrintable(true, "batch_interval_seconds", batchInterval);
    PrintableConcat(NumberIfSet("batch_size", batchSize), NumberIfSet("batch_interval_seconds", batchInterval));
  }

  lemma RetriesArePrintable(attempts: nat, backoff: nat)
    requires attempts <= 100 && backoff <= 3600
    ensures AllPrintable(Retries(attempts, backoff))
  {
    NumberIsPrintable(true, "retry_max_attempts", attempts);
    NumberIsPrintable(true, "retry_backoff_seconds", backoff);
  }

  lemma CollectIsPrintable(c: Config)
    ensures AllPrintable(CollectItems(c))
  {
    FlagIsPrintable("cpu", c.showCpu);
    FlagIsPrintable("memory", c.showMemory);
    FlagIsPrintable("disk", c.showDisk);
    FlagIsPrintable("network", c.showNetwork);
    FlagIsPrintable("processes", c.showProcesses);
    assert IsPrintable(Header("collect"));
  }

  lemma FlagIsPrintable(key: string, b: bool)
    requires IsKey(key) && |key| < 64
    ensures IsPrintable(Entry(true, key, BoolText(b)))
  {
  }

  lemma LogIsPrintable(c: Config)
    requires InRange(c)
    ensures AllPrintable(LogItems(c))
  {
    LogWordsAreQuotable(c.logLevel, c.logDestination);
    assert IsPrintable(Header("log"));
    assert IsPrintable(Entry(true, "level", c.logLevel));
    assert IsPrintable(Entry(true, "destination", c.logDestination));
    assert IsPrintable(Entry(true, "path", c.logPath));
  }

  lemma LogWordsAreQuotable(level: string, destination: string)
    requires IsLogLevel(level) && IsLogDestination(destination)
    ensures IsQuotable(level) && |level| < 256 && IsQuotable(destination) && |destination| < 256
  {
  }

  lemma ItemsArePrintable(c: Config)
    requires InRange(c)
    ensures AllPrintable(Items(c))
  {
    TopIsPrintable(c.interval, c.hostOverride);
    OutputTextsArePrintable(c);
    BatchNumbersArePrintable(c.batchSize, c.batchInterval);
    RetriesArePrintable(c.retryMax, c.retryBackoff);
    CollectIsPrintable(c);
    LogIsPrintable(c);
    var numbers := NumberIfSet("batch_size", c.batchSize) + NumberIfSet("batch_interval_seconds", c.batchInterval);
    PrintableConcat(OutputTexts(c), numbers);
    PrintableConcat(OutputTexts(c) + numbers, Retries(c.retryMax, c.retryBackoff));
    PrintableConcat(TopItems(c.interval, c.hostOverride), OutputItems(c));
    PrintableConcat(TopItems(c.interval, c.hostOverride) + OutputItems(c), CollectItems(c));
    PrintableConcat(TopItems(c.interval, c.hostOverride) + OutputItems(c) + CollectItems(c), LogItems(c));
  }

  /** The round trip: any config in range, printed under its sections and loaded over the defaults,
      comes back unchanged and without error. */
  lemma PrintThenLoad(c: Config)
    requires InRange(c)
    ensures var r := LoadFile(DEFAULTS, Some(PrintConfig(c)));
      r.cfg == c && r.error.None?
  {
    ItemsArePrintable(c);
    ItemsRebuild(c);
    var items := Items(c);
    forall i | 0 <= i < |items|
      ensures PlainLine(ItemLines(items)[i])
    {
      ItemIsPlain(items[i]);
    }
    FileLinesOfPlainLines(ItemLines(items));
    PrintedItemsLoad(Start(DEFAULTS), items);
  }
}
