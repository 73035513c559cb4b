/**
 * Client methods that replay the unit tests of the logger against the
 * contracts of the registry and the handles alone, in an environment where
 * every directory and file can be created.
 */
module LoggerScenarios {
  import opened Levels
  import opened Config
  import opened Logging
  import Backend

  const Healthy: Env := Env(true, true)

  /** After initialize(Debug) the default handle is named "default" and sits at Debug. */
  method InitializeSucceeds() returns (name: string, level: LogLevel)
    ensures name == "default" && level == Debug
  {
    var reg := new Registry();
    var ok := reg.Initialize(Debug, Healthy);
    DefaultLoggerPlan(Debug, Healthy);
    assert ok;
    var h := reg.GetDefault();
    name, level := h.name, h.GetLevel();
  }

  /** Initializing twice keeps the same default handle. */
  method InitializeIsIdempotent() returns (same: bool)
    ensures same
  {
    var reg := new Registry();
    DefaultLoggerPlan(Info, Healthy);
    var ok1 := reg.Initialize(Info, Healthy);
    var first := reg.GetDefault();
    var ok2 := reg.Initialize(Warning, Healthy);
    var second := reg.GetDefault();
    same := ok1 && ok2 && first == second && second.GetLevel() == Info;
  }

  /** A custom console logger carries the configured name and level. */
  method CreateCustomLogger() returns (name: string, level: LogLevel)
    ensures name == "test_logger" && level == Warning
  {
    var reg := new Registry();
    DefaultLoggerPlan(Debug, Healthy);
    var ok := reg.Initialize(Debug, Healthy);
    var config := Defaults().(name := "test_logger", level := Warning, enableConsole := true, enableFile := false);
    assert "test_logger" !in reg.loggers;
    var h := reg.CreateLogger(config, Healthy);
    name, level := h.name, h.GetLevel();
  }

  /** Looking a created logger up by name yields the same instance; a second create does too. */
  method GetExistingLogger() returns (same: bool)
    ensures same
  {
    var reg := new Registry();
    DefaultLoggerPlan(Debug, Healthy);
    var ok := reg.Initialize(Debug, Healthy);
    var config := Defaults().(name := "existing_logger", level := Info);
    assert "existing_logger" !in reg.loggers;
    var h1 := reg.CreateLogger(config, Healthy);
    var h2 := reg.GetLogger("existing_logger");
    var h3 := reg.CreateLogger(config.(level := Error), Healthy);
    same := h1 != null && h1 == h2 && h1 == h3 && h3.GetLevel() == Info;
  }

  /** An unknown name yields null. */
  method GetNonExistentLogger() returns (found: bool)
    ensures !found
  {
    var reg := new Registry();
    DefaultLoggerPlan(Debug, Healthy);
    var ok := reg.Initialize(Debug, Healthy);
    var h := reg.GetLogger("non_existent");
    found := h != null;
  }

  /** The file-only logger at Warning of the level-filtering test, freshly created with its one sink still empty. */
  method FileLoggerAtWarning() returns (h: Handle, file: Sink)
    ensures fresh(file) && h.Valid() && h.sinks == [file]
    ensures h.level == Backend.Warn && h.flushLevel == Backend.Info
    ensures file.level == Backend.Warn && file.lines == []
    ensures file.kind == RotatingFile("logs/level_test.log", 10 * 1024 * 1024, 5)
  {
    var reg := new Registry();
    DefaultLoggerPlan(Debug, Healthy);
    var ok := reg.Initialize(Debug, Healthy);
    var config := Defaults().(name := "level_test", level := Warning, enableConsole := false,
                              enableFile := true, filePath := "logs/level_test.log");
    assert "level_test" !in reg.loggers;
    var created := reg.CreateLogger(config, Healthy);
    assert |created.sinks| == 1 && created.sinks[0] in created.sinks;
    assert ToBackend(created.GetLevel()) == created.level;
    assert created.Kinds()[0] == created.sinks[0].kind;
    h, file := created, created.sinks[0];
  }

  /** A file-only logger at Warning keeps only the warning and the error, and they are flushed. */
  method LogLevelFiltering() returns (written: seq<Entry>, durable: bool)
    ensures written == [Entry(Warning, "This should appear"), Entry(Error, "This should appear")]
    ensures durable
  {
    var h, file := FileLoggerAtWarning();
    h.Emit(Debug, "This should not appear");
    assert file.lines == [];
    h.Emit(Info, "This should not appear");
    assert file.lines == [];
    h.Emit(Warning, "This should appear");
    assert h.sinks[0] == file && h.Reaches(Warning, file);
    assert file.lines == [Entry(Warning, "This should appear")];
    h.Emit(Error, "This should appear");
    written := file.lines;
    durable := file.Settled();
  }

  /**
   * A "default" handle made before initialize is the one initialize adopts,
   * and the backend-wide level reset at the start of initialize moves it
   * from its creation level to the level passed to initialize.
   */
  method DefaultCreatedBeforeInitialize() returns (same: bool, level: LogLevel)
    ensures same && level == Debug
  {
    var reg := new Registry();
    var config := Defaults().(name := "default", level := Warning);
    var early := reg.CreateLogger(config, Healthy);
    assert early != null && early.GetLevel() == Warning;
    var ok := reg.Initialize(Debug, Healthy);
    var d := reg.GetDefault();
    same, level := d == early, d.GetLevel();
  }

  /** The state every test starts from: initialize(Debug) with a console and a file sink, both empty and at Debug. */
  method InitializedAtDebug() returns (reg: Registry, d: Handle, console: Sink, file: Sink)
    ensures fresh(reg) && fresh(console) && fresh(file)
    ensures reg.Valid() && reg.initialized && reg.defaultLogger == d
    ensures d.Valid() && d.sinks == [console, file]
    ensures d.level == Backend.Debug && d.flushLevel == Backend.Info
    ensures console.kind == Console && console.level == Backend.Debug
    ensures file.kind == RotatingFile("logs/dashcam.log", 10 * 1024 * 1024, 5) && file.level == Backend.Debug
    ensures console.lines == [] && file.lines == []
  {
    reg := new Registry();
    DefaultLoggerPlan(Debug, Healthy);
    var ok := reg.Initialize(Debug, Healthy);
    d := reg.GetDefault();
    assert d.Kinds() == [Console, RotatingFile("logs/dashcam.log", 10 * 1024 * 1024, 5)];
    assert d.sinks[0] in d.sinks && d.sinks[1] in d.sinks;
    assert ToBackend(d.GetLevel()) == d.level;
    console, file := d.sinks[0], d.sinks[1];
    assert console.kind == d.Kinds()[0] && file.kind == d.Kinds()[1];
  }

  /**
   * One emitter call on a handle at Debug whose console and file sinks are at
   * Debug, stated sink by sink: everything but a trace message is written to
   * both, and a message at Info or above leaves both flushed.
   */
  method EmitAtDebug(d: Handle, console: Sink, file: Sink, severity: LogLevel, message: string)
    requires d.Valid() && d.sinks == [console, file] && severity != Off
    requires d.level == Backend.Debug && d.flushLevel == Backend.Info
    requires console.level == Backend.Debug && file.level == Backend.Debug
    modifies console, file
    ensures console.lines == old(console.lines) + (if severity == Trace then [] else [Entry(severity, message)])
    ensures file.lines == old(file.lines) + (if severity == Trace then [] else [Entry(severity, message)])
    ensures AtLeast(severity, Info) ==> console.Settled() && file.Settled()
  {
    d.Emit(severity, message);
    assert d.sinks[0] == console && d.sinks[1] == file;
  }

  /** One LOG_* macro whose default handle is as for EmitAtDebug. */
  method MacroAtDebug(reg: Registry, d: Handle, console: Sink, file: Sink, severity: LogLevel, message: string)
    requires reg.Valid() && reg.defaultLogger == d && d.sinks == [console, file] && severity != Off
    requires d.level == Backend.Debug && d.flushLevel == Backend.Info
    requires console.level == Backend.Debug && file.level == Backend.Debug
    modifies console, file
    ensures console.lines == old(console.lines) + (if severity == Trace then [] else [Entry(severity, message)])
    ensures file.lines == old(file.lines) + (if severity == Trace then [] else [Entry(severity, message)])
    ensures AtLeast(severity, Info) ==> console.Settled() && file.Settled()
  {
    LogViaDefault(reg, severity, message);
    assert d.sinks[0] == console && d.sinks[1] == file;
  }

  /** Each of the six emitters on the default handle at Debug: everything from Debug up reaches both sinks, and is flushed. */
  method LoggingMethods() returns (consoleLines: seq<Entry>, fileLines: seq<Entry>, durable: bool)
    ensures consoleLines == fileLines == [Entry(Debug, "Debug message"), Entry(Info, "Info message"),
      Entry(Warning, "Warning message"), Entry(Error, "Error message"), Entry(Critical, "Critical message")]
    ensures durable
  {
    var reg, d, console, file := InitializedAtDebug();
    EmitAtDebug(d, console, file, Trace, "Trace message");
    EmitAtDebug(d, console, file, Debug, "Debug message");
    EmitAtDebug(d, console, file, Info, "Info message");
    EmitAtDebug(d, console, file, Warning, "Warning message");
    EmitAtDebug(d, console, file, Error, "Error message");
    EmitAtDebug(d, console, file, Critical, "Critical message");
    consoleLines, fileLines := console.lines, file.lines;
    durable := console.Settled() && file.Settled();
  }

  /** The formatted emitters write the formatted text; both messages pass the Debug threshold. */
  method FormattedLogging() returns (consoleLines: seq<Entry>)
    ensures consoleLines == [Entry(Info, "Formatted message with number: 42"),
      Entry(Debug, "Multiple args: hello and 3.14")]
  {
    var reg, d, console, file := InitializedAtDebug();
    EmitAtDebug(d, console, file, Info, "Formatted message with number: 42");
    EmitAtDebug(d, console, file, Debug, "Multiple args: hello and 3.14");
    consoleLines := console.lines;
  }

  /** The LOG_* macros after initialize(Debug) write through the default handle: all but the trace message. */
  method MacroLogging() returns (consoleLines: seq<Entry>, durable: bool)
    ensures consoleLines == [Entry(Debug, "Debug via macro"), Entry(Info, "Info via macro"),
      Entry(Warning, "Warning via macro"), Entry(Error, "Error via macro"), Entry(Critical, "Critical via macro")]
    ensures durable
  {
    var reg, d, console, file := InitializedAtDebug();
    MacroAtDebug(reg, d, console, file, Trace, "Trace via macro");
    MacroAtDebug(reg, d, console, file, Debug, "Debug via macro");
    MacroAtDebug(reg, d, console, file, Info, "Info via macro");
    MacroAtDebug(reg, d, console, file, Warning, "Warning via macro");
    MacroAtDebug(reg, d, console, file, Error, "Error via macro");
    MacroAtDebug(reg, d, console, file, Critical, "Critical via macro");
    consoleLines := console.lines;
    durable := console.Settled() && file.Settled();
  }

  /** set_level below the creation level changes the reported level but lets nothing new through. */
  method SetLevelBelowCreation() returns (level: LogLevel, written: seq<Entry>)
    ensures level == Debug && written == []
  {
    var h, console := ConsoleLoggerAtWarning();
    h.SetLevel(Debug);
    h.Emit(Debug, "x");
    h.Emit(Info, "y");
    assert h.sinks[0] == console;
    level, written := h.GetLevel(), console.lines;
  }

  /** A console-only logger "cam" at Warning, freshly created with its one sink still empty. */
  method ConsoleLoggerAtWarning() returns (h: Handle, console: Sink)
    ensures fresh(h) && fresh(console) && h.Valid() && h.sinks == [console]
    ensures h.level == Backend.Warn && console.level == Backend.Warn && console.lines == []
    ensures console.kind == Console
  {
    var reg := new Registry();
    DefaultLoggerPlan(Debug, Healthy);
    var ok := reg.Initialize(Debug, Healthy);
    var config := Defaults().(name := "cam", level := Warning);
    assert "cam" !in reg.loggers;
    DefaultsAssembleConsoleOnly("cam", Warning, Healthy);
    var created := reg.CreateLogger(config, Healthy);
    assert |created.sinks| == 1 && created.sinks[0] in created.sinks;
    assert ToBackend(created.GetLevel()) == created.level;
    assert created.Kinds()[0] == created.sinks[0].kind;
    h, console := created, created.sinks[0];
  }

  /** After shutdown, create_logger for an ordinary name and every lookup yield null. */
  method CreateLoggerWithoutInitialization() returns (created: bool, found: bool, hasDefault: bool)
    ensures !created && !found && !hasDefault
  {
    var reg := new Registry();
    DefaultLoggerPlan(Info, Healthy);
    var ok := reg.Initialize(Info, Healthy);
    reg.Shutdown();
    var config := Defaults().(name := "test", level := Info);
    var h := reg.CreateLogger(config, Healthy);
    var d := reg.GetDefault();
    var g := reg.GetLogger("default");
    created, found, hasDefault := h != null, g != null, d != null;
  }
}
