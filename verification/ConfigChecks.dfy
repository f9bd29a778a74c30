/** validate_config (src/config.c) and output_init (src/output.c), and when they agree on a loaded config. */
module ConfigChecks {
  import opened Options
  import opened ConfigText
  import opened ConfigLoad
  import opened Utf8Text
  import Outbox

  /** validate_config accepts. */
  predicate Validates(c: Config) {
    && c.configVersion == "1.0"
    && c.interval > 0
    && c.outputType != ""
    && !(c.outputType == "file" && c.outputPath == "")
    && (c.outputType == "http_post" ==> c.outputUrl != "" && c.batchSize > 0 && c.batchInterval > 0)
    && (c.logLevel == "" || IsLogLevel(c.logLevel))
    && (c.logDestination == "" || IsLogDestination(c.logDestination))
  }

  /** What output_init depends on besides the config. */
  datatype InitEnv = InitEnv(fileOpens: bool, curlStarts: bool, batchAllocated: bool, receiverUrl: Option<string>)
  {
    /** Nothing fails and no environment variable supplies a URL. */
    predicate Benign() {
      fileOpens && curlStarts && batchAllocated && receiverUrl.None?
    }
  }

  datatype Outcome =
    | Started(settings: Outbox.Settings)
    | PathMissing | OpenFailed | UrlMissing | CurlFailed | NoMemory | UnknownType

  /** The output_init defaults for unset or negative numbers. */
  function OrDefault(value: int, least: int, other: nat): nat
    requires least >= 0
  {
    if value >= least then value else other
  }

  function SettingsFor(c: Config, mode: Outbox.Mode): Outbox.Settings {
    Outbox.Settings(mode, mode.File?, OrDefault(c.batchSize, 1, 50), OrDefault(c.batchInterval, 1, 2),
                    OrDefault(c.retryMax, 0, 5), OrDefault(c.retryBackoff, 0, 1))
  }

  /** output_init.  Whatever the config, an output that starts has positive batch limits and, in file
      mode, an open file. */
  function Init(c: Config, env: InitEnv): (start: Outcome)
    ensures start.Started? ==> start.settings.Ready()
  {
    if c.outputType == "" || c.outputType == "stdout" then Started(SettingsFor(c, Outbox.Stdout))
    else if c.outputType == "file" then
      if c.outputPath == "" then PathMissing
      else if !env.fileOpens then OpenFailed
      else Started(SettingsFor(c, Outbox.File))
    else if c.outputType == "http_post" then
      if c.outputUrl == "" && env.receiverUrl.None? then UrlMissing
      else if !env.curlStarts then CurlFailed
      else if !env.batchAllocated then NoMemory
      else Started(SettingsFor(c, Outbox.HttpPost))
    else UnknownType
  }

  /** How an output starts, by the config and what can fail, and with which settings. */
  lemma StartIs(c: Config, env: InitEnv)
    ensures Init(c, env) ==
      if c.outputType == "file" && c.outputPath == "" then PathMissing
      else if c.outputType == "file" && !env.fileOpens then OpenFailed
      else if c.outputType == "http_post" && c.outputUrl == "" && env.receiverUrl.None? then UrlMissing
      else if c.outputType == "http_post" && !env.curlStarts then CurlFailed
      else if c.outputType == "http_post" && !env.batchAllocated then NoMemory
      else if c.outputType in ["", "stdout", "file", "http_post"] then
        Started(Outbox.Settings(
          mode := if c.outputType == "file" then Outbox.File
                  else if c.outputType == "http_post" then Outbox.HttpPost else Outbox.Stdout,
          fileOpen := c.outputType == "file",
          batchSize := if c.batchSize > 0 then c.batchSize else 50,
          intervalSeconds := if c.batchInterval > 0 then c.batchInterval else 2,
          retryMax := if c.retryMax >= 0 then c.retryMax else 5,
          backoffSeconds := if c.retryBackoff >= 0 then c.retryBackoff else 1))
      else UnknownType
  {
  }

  /** What every config loaded over the defaults satisfies, even when loading stops at an error. */
  predicate WellFormed(c: Config) {
    && c.configVersion == "1.0" && 1 <= c.interval <= 86400
    && IsOutputType(c.outputType)
    && 0 <= c.batchSize <= 100000 && 0 <= c.batchInterval <= 86400
    && 0 <= c.retryMax <= 100 && 0 <= c.retryBackoff <= 3600
    && IsLogLevel(c.logLevel) && IsLogDestination(c.logDestination)
    && |c.hostOverride| < 128 && |c.outputUrl| < 256 && |c.outputPath| < 256
    && |c.authHeader| < 256 && |c.logPath| < 256
  }

  /** A field keeps a valid UTF-8 value valid exactly when its size does not cut a character. */
  lemma FittedTextIsUtf8(value: string, size: nat)
    requires Utf8Valid(value) && size > 0
    ensures Utf8Valid(Fit(value, size)) <==> |value| < size || AtBoundary(value, size - 1)
  {
    if |value| >= size {
      CutIsValid(value, size - 1);
    }
  }

  predicate Keeps(cfg: Option<Config>) {
    cfg.Some? ==> WellFormed(cfg.value)
  }

  lemma AssignTopKeeps(c: Config, key: TopKey, value: string)
    requires WellFormed(c)
    ensures Keeps(AssignTop(c, key, value))
  {
  }

  lemma AssignOutputKeeps(c: Config, key: OutputKey, value: string)
    requires WellFormed(c)
    ensures Keeps(AssignOutput(c, key, value))
  {
  }

  lemma AssignOthersKeep(c: Config, collect: CollectKey, log: LogKey, value: string, flag: bool)
    requires WellFormed(c)
    ensures WellFormed(AssignFlag(c, collect, flag)) && Keeps(AssignLog(c, log, value))
  {
  }

  lemma SettersKeep(c: Config, key: string, value: string, setting: Setting)
    requires WellFormed(c) && setting.Set?
    requires setting in
      [SetTopLevel(c, key, value), SetOutput(c, key, value), SetCollect(c, key, value), SetLog(c, key, value)]
    ensures WellFormed(setting.cfg)
  {
    var top := if TopKeyOf(key).Some? then TopKeyOf(key).value else VersionKey;
    var out := if OutputKeyOf(key).Some? then OutputKeyOf(key).value else TypeKey;
    var collect := if CollectKeyOf(key).Some? then CollectKeyOf(key).value else CpuKey;
    var log := if LogKeyOf(key).Some? then LogKeyOf(key).value else LevelKey;
    AssignTopKeeps(c, top, value);
    AssignOutputKeeps(c, out, value);
    AssignOthersKeep(c, collect, log, value, ParseBool(value) == Some(true));
  }

  lemma ActKeepsWellFormed(l: Loader, p: Parsed)
    requires WellFormed(l.cfg)
    ensures WellFormed(Act(l, p).cfg)
  {
    if p.Assignment? {
      var r := Act(l, p);
      if r.cfg != l.cfg {
        SettersKeep(l.cfg, p.key, p.value, Set(r.cfg));
      }
    }
  }

  lemma {:induction false} LoadKeepsWellFormed(l: Loader, lines: seq<string>)
    requires WellFormed(l.cfg)
    ensures WellFormed(LoadLines(l, lines).cfg)
    decreases |lines|
  {
    if lines != [] {
      if l.error.None? {
        ActKeepsWellFormed(l.(lineNo := l.lineNo + 1), ParseLine(lines[0]));
      }
      LoadKeepsWellFormed(LoadLine(l, lines[0]), lines[1..]);
    }
  }

  /** Whatever the file says, the loaded config keeps every documented range and field size. */
  lemma LoadedIsWellFormed(file: Option<string>)
    ensures WellFormed(LoadFile(DEFAULTS, file).cfg)
  {
    if file.Some? {
      LoadKeepsWellFormed(Start(DEFAULTS), FileLines(file.value));
    }
  }

  /** The fallbacks of 5 retries and a base of 1 second are never used: a field that the file does not set is
      0, so an output started from a loaded config retries as often as the file says, and by default not
      at all.  Those for batches, 50 and 2 seconds, are used exactly for unset fields. */
  lemma RetryFallbacksAreUnused(file: Option<string>, env: InitEnv)
    ensures var c, start := LoadFile(DEFAULTS, file).cfg, Init(LoadFile(DEFAULTS, file).cfg, env);
      start.Started? ==>
        && start.settings.retryMax == c.retryMax && start.settings.backoffSeconds == c.retryBackoff
        && start.settings.batchSize == (if c.batchSize == 0 then 50 else c.batchSize)
        && start.settings.intervalSeconds == (if c.batchInterval == 0 then 2 else c.batchInterval)
  {
    LoadedIsWellFormed(file);
    StartIs(LoadFile(DEFAULTS, file).cfg, env);
  }

  /** An empty file starts an output on stdout that would not retry; every metric is collected, each second. */
  lemma EmptyFileStarts(env: InitEnv)
    ensures var r := LoadFile(DEFAULTS, Some(""));
      && r.error.None? && Validates(r.cfg)
      && Init(r.cfg, env) == Started(Outbox.Settings(Outbox.Stdout, false, 50, 2, 0, 0))
      && r.cfg.interval == 1
      && r.cfg.showCpu && r.cfg.showMemory && r.cfg.showDisk && r.cfg.showNetwork && !r.cfg.showProcesses
  {
    StartIs(DEFAULTS, env);
  }

  /** After loading over the defaults, validation fails in exactly these cases. */
  lemma ValidationFailsExactlyWhen(file: Option<string>)
    ensures var c := LoadFile(DEFAULTS, file).cfg;
      !Validates(c) <==>
        || (c.outputType == "file" && c.outputPath == "")
        || (c.outputType == "http_post" && (c.outputUrl == "" || c.batchSize == 0 || c.batchInterval == 0))
  {
    LoadedIsWellFormed(file);
  }

  /** A validated config starts unless a file, libcurl or memory fails. */
  lemma ValidatedConfigStarts(file: Option<string>, env: InitEnv)
    requires Validates(LoadFile(DEFAULTS, file).cfg)
    ensures var start := Init(LoadFile(DEFAULTS, file).cfg, env);
      && (start.Started? || start.OpenFailed? || start.CurlFailed? || start.NoMemory?)
      && (env.Benign() ==> start.Started?)
      && (start.Started? ==> start.settings.Ready())
  {
    LoadedIsWellFormed(file);
  }

  /** The converse fails for http_post only, in exactly these cases: the url is empty but the
      environment supplies one, or the batch size or interval is unset and the built-in 50 or 2
      takes its place. */
  lemma StartsButDoesNotValidate(file: Option<string>, env: InitEnv)
    ensures var c := LoadFile(DEFAULTS, file).cfg;
      Init(c, env).Started? && !Validates(c) <==>
        && c.outputType == "http_post" && env.curlStarts && env.batchAllocated
        && (c.outputUrl != "" || env.receiverUrl.Some?)
        && (c.outputUrl == "" || c.batchSize == 0 || c.batchInterval == 0)
  {
    LoadedIsWellFormed(file);
  }
}
