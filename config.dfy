/** Logger configuration and the plan of sinks it assembles to. */
module Config {
  import opened Optional
  import opened Levels

  datatype LoggerConfig = LoggerConfig(
    name: string,
    level: LogLevel,
    enableConsole: bool,
    enableFile: bool,
    filePath: string,
    maxFileSizeBytes: nat,
    maxFiles: nat,
    pattern: string)

  const DefaultPattern: string := "[%Y-%m-%d %H:%M:%S.%e] [%n] [%l] %v"

  /** A default-constructed configuration: every member at its declared initialiser. */
  function Defaults(): LoggerConfig
  {
    LoggerConfig("", Info, true, false, "", 10 * 1024 * 1024, 5, DefaultPattern)
  }

  /** The configuration `initialize` builds for the "default" logger. */
  function DefaultLoggerConfig(level: LogLevel): LoggerConfig
  {
    LoggerConfig("default", level, true, true, "logs/dashcam.log", 10 * 1024 * 1024, 5, DefaultPattern)
  }

  /** The kinds of sink a logger can own. */
  datatype SinkKind = Console | RotatingFile(path: string, maxSizeBytes: nat, maxFiles: nat)

  /**
   * What the environment decides during sink assembly: whether the log
   * file's parent directory is usable (it is empty, already exists, or was
   * created), and whether constructing the rotating file sink succeeds.
   */
  datatype Env = Env(logDirReady: bool, fileSinkOpens: bool)

  /** A file sink is attempted only when it is enabled AND a path is given. */
  predicate WantsFile(c: LoggerConfig)
  {
    c.enableFile && c.filePath != ""
  }

  function FileSinkOf(c: LoggerConfig): SinkKind
  {
    RotatingFile(c.filePath, c.maxFileSizeBytes, c.maxFiles)
  }

  /**
   * The sinks `create_logger` assembles for a new name, in the order it
   * pushes them, or None when assembly fails.
   */
  function PlanSinks(c: LoggerConfig, env: Env): (r: Option<seq<SinkKind>>)
    ensures r.Some? <==> (c.enableConsole || WantsFile(c)) && (WantsFile(c) ==> env.logDirReady && env.fileSinkOpens)
    ensures r.Some? ==> 1 <= |r.value| <= 2
    ensures r.Some? ==> |r.value| == (if c.enableConsole then 1 else 0) + (if WantsFile(c) then 1 else 0)
    ensures r.Some? ==> (Console in r.value <==> c.enableConsole)
    ensures r.Some? ==> (FileSinkOf(c) in r.value <==> WantsFile(c))
    ensures r.Some? ==> r.value[0] == (if c.enableConsole then Console else FileSinkOf(c))
  {
    var console := if c.enableConsole then [Console] else [];
    if WantsFile(c) && !env.logDirReady then None
    else if WantsFile(c) && !env.fileSinkOpens then None
    else
      var sinks := console + (if WantsFile(c) then [FileSinkOf(c)] else []);
      if sinks == [] then None else Some(sinks)
  }

  /** A default-constructed configuration never touches the file system: one console sink, whatever the environment. */
  lemma DefaultsAssembleConsoleOnly(name: string, level: LogLevel, env: Env)
    ensures PlanSinks(Defaults().(name := name, level := level), env) == Some([Console])
  {
    var c := Defaults().(name := name, level := level);
    assert !WantsFile(c);
    assert [Console] + [] == [Console];
  }

  /** The default logger needs its file sink: it assembles exactly when the environment lets the file sink open. */
  lemma DefaultLoggerPlan(level: LogLevel, env: Env)
    ensures PlanSinks(DefaultLoggerConfig(level), env).Some? <==> env.logDirReady && env.fileSinkOpens
    ensures PlanSinks(DefaultLoggerConfig(level), env).Some? ==>
      PlanSinks(DefaultLoggerConfig(level), env).value == [Console, RotatingFile("logs/dashcam.log", 10 * 1024 * 1024, 5)]
  {
  }

  /** An enabled file sink with an empty path is skipped silently, not reported. */
  lemma EmptyFilePathIsSkipped(c: LoggerConfig, env: Env)
    requires c.enableFile && c.filePath == ""
    ensures PlanSinks(c, env) == (if c.enableConsole then Some([Console]) else None)
  {
    assert !WantsFile(c);
    assert [Console] + [] == [Console];
  }
}
