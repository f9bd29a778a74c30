/** load_config_file of src/config.c as a fold over lines: sections, the set_* functions and the
    first error. */
module ConfigLoad {
  import opened Options
  import opened ConfigText

  /** The fields of syswatch_config_t that a config file can set. */
  datatype Config = Config(
    configVersion: string, interval: int, hostOverride: string,
    outputType: string, outputUrl: string, outputPath: string, authHeader: string,
    batchSize: int, batchInterval: int, retryMax: int, retryBackoff: int,
    showCpu: bool, showMemory: bool, showDisk: bool, showNetwork: bool, showProcesses: bool,
    logLevel: string, logDestination: string, logPath: string)

  /** init_default_config. */
  const DEFAULTS := Config("1.0", 1, "", "stdout", "", "", "", 0, 0, 0, 0,
                           true, true, true, true, false, "info", "stderr", "")

  datatype Section = TopLevel | OutputSection | CollectSection | LogSection

  /** Why a line is rejected. */
  datatype Problem = Indentation | MissingColon | NoSection(key: string) | UnknownKey(key: string)
                   | BadValue(key: string, value: string) | CannotOpen

  datatype Setting = Set(cfg: Config) | Rejected(problem: Problem)

  /** strncpy into a zeroed field of `size` bytes, leaving room for the terminator. */
  function Fit(value: string, size: nat): string
    requires size > 0
  {
    if |value| < size then value else value[..size - 1]
  }

  /** The keys of each section, as the strcmp chains recognise them. */
  datatype TopKey = VersionKey | IntervalKey | HostKey

  datatype OutputKey =
    | TypeKey | UrlKey | PathKey | BatchSizeKey | BatchIntervalKey | RetryMaxKey | RetryBackoffKey | AuthKey

  datatype CollectKey = CpuKey | MemoryKey | DiskKey | NetworkKey | LoadKey | ProcessesKey

  datatype LogKey = LevelKey | DestinationKey | LogPathKey

  function TopKeyOf(key: string): Option<TopKey> {
    if key == "config_version" then Some(VersionKey)
    else if key == "poll_interval_seconds" then Some(IntervalKey)
    else if key == "host_override" then Some(HostKey)
    else None
  }

  function OutputKeyOf(key: string): Option<OutputKey> {
    if key == "type" then Some(TypeKey)
    else if key == "url" then Some(UrlKey)
    else if key == "path" then Some(PathKey)
    else if key == "batch_size" then Some(BatchSizeKey)
    else if key == "batch_interval_seconds" then Some(BatchIntervalKey)
    else if key == "retry_max_attempts" then Some(RetryMaxKey)
    else if key == "retry_backoff_seconds" then Some(RetryBackoffKey)
    else if key == "auth_header" then Some(AuthKey)
    else None
  }

  function CollectKeyOf(key: string): Option<CollectKey> {
    if key == "cpu" then Some(CpuKey)
    else if key == "memory" then Some(MemoryKey)
    else if key == "disk" then Some(DiskKey)
    else if key == "network" then Some(NetworkKey)
    else if key == "load" then Some(LoadKey)
    else if key == "processes" then Some(ProcessesKey)
    else None
  }

  function LogKeyOf(key: string): Option<LogKey> {
    if key == "level" then Some(LevelKey)
    else if key == "destination" then Some(DestinationKey)
    else if key == "path" then Some(LogPathKey)
    else None
  }

  predicate IsOutputType(value: string) {
    value == "stdout" || value == "file" || value == "http_post"
  }

  predicate IsLogLevel(value: string) {
    value == "debug" || value == "info" || value == "warn" || value == "error"
  }

  predicate IsLogDestination(value: string) {
    value == "stderr" || value == "file"
  }

  /** parse_bool_value. */
  function ParseBool(value: string): Option<bool> {
    if value == "true" then Some(true) else if value == "false" then Some(false) else None
  }

  /** The known top-level keys; None for a value the key does not take. */
  function AssignTop(cfg: Config, key: TopKey, value: string): Option<Config> {
    match key
    case VersionKey => if value == "1.0" then Some(cfg.(configVersion := "1.0")) else None
    case IntervalKey =>
      (match ParseInt(value, 1, 86400)
       case Some(n) => Some(cfg.(interval := n))
       case None => None)
    case HostKey => Some(cfg.(hostOverride := Fit(value, 128)))
  }

  function AssignOutput(cfg: Config, key: OutputKey, value: string): Option<Config> {
    match key
    case TypeKey => if IsOutputType(value) then Some(cfg.(outputType := value)) else None
    case UrlKey => Some(cfg.(outputUrl := Fit(value, 256)))
    case PathKey => Some(cfg.(outputPath := Fit(value, 256)))
    case AuthKey => Some(cfg.(authHeader := Fit(value, 256)))
    case BatchSizeKey =>
      (match ParseInt(value, 1, 100000)
       case Some(n) => Some(cfg.(batchSize := n))
       case None => None)
    case BatchIntervalKey =>
      (match ParseInt(value, 1, 86400)
       case Some(n) => Some(cfg.(batchInterval := n))
       case None => None)
    case RetryMaxKey =>
      (match ParseInt(value, 0, 100)
       case Some(n) => Some(cfg.(retryMax := n))
       case None => None)
    case RetryBackoffKey =>
      (match ParseInt(value, 0, 3600)
       case Some(n) => Some(cfg.(retryBackoff := n))
       case None => None)
  }

  /** `load` is accepted and ignored. */
  function AssignFlag(cfg: Config, key: CollectKey, flag: bool): Config {
    match key
    case CpuKey => cfg.(showCpu := flag)
    case MemoryKey => cfg.(showMemory := flag)
    case DiskKey => cfg.(showDisk := flag)
    case NetworkKey => cfg.(showNetwork := flag)
    case LoadKey => cfg
    case ProcessesKey => cfg.(showProcesses := flag)
  }

  function AssignLog(cfg: Config, key: LogKey, value: string): Option<Config> {
    match key
    case LevelKey => if IsLogLevel(value) then Some(cfg.(logLevel := value)) else None
    case DestinationKey => if IsLogDestination(value) then Some(cfg.(logDestination := value)) else None
    case LogPathKey => Some(cfg.(logPath := Fit(value, 256)))
  }

  function OrBadValue(cfg: Option<Config>, key: string, value: string): Setting {
    match cfg
    case Some(c) => Set(c)
    case None => Rejected(BadValue(key, value))
  }

  /** set_scalar_top_level. */
  function SetTopLevel(cfg: Config, key: string, value: string): Setting {
    match TopKeyOf(key)
    case None => Rejected(UnknownKey(key))
    case Some(k) => OrBadValue(AssignTop(cfg, k, value), key, value)
  }

  /** set_output_key. */
  function SetOutput(cfg: Config, key: string, value: string): Setting {
    match OutputKeyOf(key)
    case None => Rejected(UnknownKey(key))
    case Some(k) => OrBadValue(AssignOutput(cfg, k, value), key, value)
  }

  /** set_collect_key: the value is checked before the key. */
  function SetCollect(cfg: Config, key: string, value: string): Setting {
    match ParseBool(value)
    case None => Rejected(BadValue(key, value))
    case Some(flag) =>
      match CollectKeyOf(key)
      case None => Rejected(UnknownKey(key))
      case Some(k) => Set(AssignFlag(cfg, k, flag))
  }

  /** set_log_key. */
  function SetLog(cfg: Config, key: string, value: string): Setting {
    match LogKeyOf(key)
    case None => Rejected(UnknownKey(key))
    case Some(k) => OrBadValue(AssignLog(cfg, k, value), key, value)
  }

  /** A top-level key with an empty value that opens a section. */
  function Opens(key: string, value: string): Option<Section> {
    if value != "" then None
    else if key == "output" then Some(OutputSection)
    else if key == "collect" then Some(CollectSection)
    else if key == "log" then Some(LogSection)
    else None
  }

  /** The loader between two lines; `error` holds the number of the offending line. */
  datatype Loader = Loader(cfg: Config, section: Section, lineNo: nat, error: Option<(nat, Problem)>)

  function Apply(l: Loader, setting: Setting): Loader {
    match setting
    case Set(cfg) => l.(cfg := cfg)
    case Rejected(problem) => l.(error := Some((l.lineNo, problem)))
  }

  /** What a line does once it is read; `l.lineNo` is already its number. */
  function Act(l: Loader, p: Parsed): Loader {
    match p
    case Skipped => l
    case BadIndent => Apply(l, Rejected(Indentation))
    case NoColon => Apply(l, Rejected(MissingColon))
    case Assignment(nested, key, value) =>
      if !nested then
        match Opens(key, value)
        case Some(section) => l.(section := section)
        case None => Apply(l.(section := TopLevel), SetTopLevel(l.cfg, key, value))
      else
        match l.section
        case TopLevel => Apply(l, Rejected(NoSection(key)))
        case OutputSection => Apply(l, SetOutput(l.cfg, key, value))
        case CollectSection => Apply(l, SetCollect(l.cfg, key, value))
        case LogSection => Apply(l, SetLog(l.cfg, key, value))
  }

  function LoadParsed(l: Loader, p: Parsed): Loader {
    if l.error.Some? then l else Act(l.(lineNo := l.lineNo + 1), p)
  }

  function LoadLine(l: Loader, line: string): Loader {
    LoadParsed(l, ParseLine(line))
  }

  function LoadLines(l: Loader, lines: seq<string>): Loader
    decreases |lines|
  {
    if lines == [] then l else LoadLines(LoadLine(l, lines[0]), lines[1..])
  }

  function Start(cfg: Config): Loader {
    Loader(cfg, TopLevel, 0, None)
  }

  // ----- fgets and C strings

  const LINE_SIZE: nat := 1024

  /** The part of a buffer that C sees: up to the first NUL. */
  function CString(s: string): string {
    s[..IndexOf(s, '\0')]
  }

  /** How many characters one fgets call takes: to the end of the line, at most 1023. */
  function ChunkLength(text: string, max: nat): (n: nat)
    requires max > 0
    ensures n <= max && n <= |text| && (text != "" ==> n > 0)
    decreases max
  {
    if text == "" then 0
    else if text[0] == '\n' || max == 1 then 1
    else 1 + ChunkLength(text[1..], max - 1)
  }

  /** The lines that load_config_file sees of a file. */
  function FileLines(text: string): seq<string>
    decreases |text|
  {
    if text == "" then []
    else
      var n := ChunkLength(text, LINE_SIZE - 1);
      [CString(text[..n])] + FileLines(text[n..])
  }

  /** load_config_file on the contents of a file, or on one that cannot be opened. */
  function LoadFile(cfg: Config, file: Option<string>): Loader {
    match file
    case None => Start(cfg).(error := Some((0, CannotOpen)))
    case Some(text) => LoadLines(Start(cfg), FileLines(text))
  }
}
