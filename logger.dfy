/**
 * The logger registry and its level-gated handles.
 *
 * A Handle wraps one backend logger: an immutable name, a mutable
 * threshold held in backend form, and the sinks it was assembled with.
 * Each sink keeps the threshold it was created with and records the lines
 * it accepted; `flushed` counts how many of them have been flushed.
 */
module Logging {
  import opened Optional
  import opened Levels
  import opened Config
  import Backend

  /** One line delivered to a sink. */
  datatype Entry = Entry(severity: LogLevel, message: string)

  class Sink {
    const kind: SinkKind
    const level: Backend.Level
    var lines: seq<Entry>
    var flushed: nat

    constructor (kind: SinkKind, level: Backend.Level)
      ensures this.kind == kind && this.level == level
      ensures lines == [] && flushed == 0
    {
      this.kind := kind;
      this.level := level;
      lines := [];
      flushed := 0;
    }

    /** The sink's own filter, fixed when the sink was created. */
    predicate Accepts(severity: LogLevel)
      ensures Accepts(severity) <==> AtLeast(severity, FromBackend(level))
    {
      Backend.Passes(ToBackend(severity), level)
    }

    /** Every line this sink accepted has been flushed. */
    predicate Settled()
      reads this
    {
      flushed == |lines|
    }
  }

  class Handle {
    const name: string
    const sinks: seq<Sink>
    /** Messages at or above this backend level flush all sinks after being written. */
    const flushLevel: Backend.Level
    var level: Backend.Level

    ghost predicate Valid()
    {
      1 <= |sinks| <= 2 &&
      forall i, j :: 0 <= i < j < |sinks| ==> sinks[i] != sinks[j]
    }

    function SinkSet(): set<Sink>
    {
      set s | s in sinks
    }

    function Kinds(): seq<SinkKind>
    {
      seq(|sinks|, i requires 0 <= i < |sinks| => sinks[i].kind)
    }

    constructor (name: string, sinks: seq<Sink>, level: LogLevel)
      requires 1 <= |sinks| <= 2
      requires forall i, j :: 0 <= i < j < |sinks| ==> sinks[i] != sinks[j]
      ensures Valid()
      ensures this.name == name && this.sinks == sinks
      ensures this.level == ToBackend(level) && flushLevel == Backend.Info
    {
      this.name := name;
      this.sinks := sinks;
      this.level := ToBackend(level);
      flushLevel := Backend.Info;
    }

    function GetLevel(): (l: LogLevel)
      reads this
      ensures ToBackend(l) == level
    {
      FromBackend(level)
    }

    /** Changes only the handle's threshold; the sinks keep theirs. */
    method SetLevel(l: LogLevel)
      modifies this
      ensures level == ToBackend(l)
      ensures GetLevel() == l
    {
      level := ToBackend(l);
    }

    /** The handle's own filter, against its current threshold. */
    predicate ShouldLog(severity: LogLevel)
      reads this
      ensures ShouldLog(severity) <==> AtLeast(severity, GetLevel())
    {
      Backend.Passes(ToBackend(severity), level)
    }

    /** A message reaches a sink when it passes both the handle's and the sink's filter. */
    predicate Reaches(severity: LogLevel, s: Sink)
      reads this
    {
      ShouldLog(severity) && s.Accepts(severity)
    }

    /** A message at this severity is written and then followed by a flush of every sink (flush_on). */
    predicate Flushes(severity: LogLevel)
      reads this
    {
      ShouldLog(severity) && Backend.Passes(ToBackend(severity), flushLevel)
    }

    /**
     * The six emitters trace .. critical: emission at a fixed severity.
     * Each sink that the message reaches gets exactly one new line and no
     * other sink changes; a written message at Info or above is followed by
     * a flush of every sink.
     */
    method Emit(severity: LogLevel, message: string)
      requires Valid() && severity != Off
      modifies SinkSet()
      ensures forall i :: 0 <= i < |sinks| ==>
        sinks[i].lines == old(sinks[i].lines) + (if Reaches(severity, sinks[i]) then [Entry(severity, message)] else [])
      ensures Flushes(severity) ==> forall i :: 0 <= i < |sinks| ==> sinks[i].Settled()
      ensures !Flushes(severity) ==>
        forall i :: 0 <= i < |sinks| ==> sinks[i].flushed == old(sinks[i].flushed)
    {
      if !ShouldLog(severity) {
        return;
      }
      var entry := Entry(severity, message);
      for i := 0 to |sinks|
        invariant forall j :: 0 <= j < i ==>
          sinks[j].lines == old(sinks[j].lines) + (if sinks[j].Accepts(severity) then [entry] else [])
        invariant forall j :: i <= j < |sinks| ==> sinks[j].lines == old(sinks[j].lines)
        invariant forall j :: 0 <= j < |sinks| ==> sinks[j].flushed == old(sinks[j].flushed)
      {
        var s := sinks[i];
        if s.Accepts(severity) {
          s.lines := s.lines + [entry];
        }
      }
      if Backend.Passes(ToBackend(severity), flushLevel) {
        Flush();
      }
    }

    /** Flushes every sink; no line is added or lost. */
    method Flush()
      modifies SinkSet()
      ensures forall i :: 0 <= i < |sinks| ==> sinks[i].lines == old(sinks[i].lines) && sinks[i].Settled()
    {
      for i := 0 to |sinks|
        invariant forall j :: 0 <= j < |sinks| ==> sinks[j].lines == old(sinks[j].lines)
        invariant forall j :: 0 <= j < i ==> sinks[j].Settled()
      {
        sinks[i].flushed := |sinks[i].lines|;
      }
    }
  }

  /**
   * Emission from a handle in terms of the wrapper's level order: a message
   * reaches a sink iff it is at least as severe as both the handle's current
   * level and the sink's creation level.
   */
  lemma ReachesIff(h: Handle, s: Sink, severity: LogLevel)
    ensures h.Reaches(severity, s) <==>
      AtLeast(severity, h.GetLevel()) && AtLeast(severity, FromBackend(s.level))
  {
  }

  /**
   * Lowering a handle's level below its creation level does not widen what
   * its sinks accept: a message below the creation level reaches no sink,
   * whatever the handle's current level.
   */
  lemma LoweringLevelKeepsSinkFilter(h: Handle, created: LogLevel, severity: LogLevel)
    requires forall s :: s in h.sinks ==> s.level == ToBackend(created)
    requires !AtLeast(severity, created)
    ensures forall s :: s in h.sinks ==> !h.Reaches(severity, s)
  {
  }

  /** A threshold of Off suppresses everything the emitters can produce, Critical included. */
  lemma OffSuppressesAll(h: Handle, severity: LogLevel)
    requires h.GetLevel() == Off && severity != Off
    ensures !h.ShouldLog(severity)
  {
  }

  /**
   * The process-wide logger registry: the initialised flag, the map from
   * name to handle, and the default handle.
   */
  class Registry {
    var initialized: bool
    var loggers: map<string, Handle>
    var defaultLogger: Handle?

    ghost predicate Valid()
      reads this
    {
      (forall n | n in loggers :: loggers[n].name == n && loggers[n].Valid()) &&
      (forall n, m | n in loggers && m in loggers && n != m :: loggers[n].SinkSet() !! loggers[m].SinkSet()) &&
      (initialized ==> "default" in loggers && defaultLogger == loggers["default"]) &&
      (!initialized ==> defaultLogger == null && loggers.Keys <= {"default"})
    }

    /** Every sink of every registered handle. */
    ghost function AllSinks(): set<Sink>
      reads this
    {
      set h, s | h in loggers.Values && s in h.sinks :: s
    }

    /** `create_logger` accepts a name while uninitialised only for "default". */
    predicate Admits(name: string)
      reads this
    {
      initialized || name == "default"
    }

    /** The static state before anything has run. */
    constructor ()
      ensures Valid()
      ensures !initialized && loggers == map[] && defaultLogger == null
    {
      initialized := false;
      loggers := map[];
      defaultLogger := null;
    }

    /**
     * create_logger: create-or-get. Null when the registry is not
     * initialised and the name is not "default", or when sink assembly
     * fails; the registered handle, unchanged, when the name is known;
     * otherwise a fresh handle registered under the name.
     */
    method CreateLogger(config: LoggerConfig, env: Env) returns (h: Handle?)
      requires Valid() && config.name != ""
      modifies this
      ensures Valid()
      ensures initialized == old(initialized) && defaultLogger == old(defaultLogger)
      ensures forall s :: s in AllSinks() ==> s in old(AllSinks()) || fresh(s)
      ensures !old(Admits(config.name)) ==> h == null && loggers == old(loggers)
      ensures old(Admits(config.name)) && config.name in old(loggers) ==>
        h == old(loggers)[config.name] && loggers == old(loggers)
      ensures old(Admits(config.name)) && config.name !in old(loggers) && PlanSinks(config, env).None? ==>
        h == null && loggers == old(loggers)
      ensures old(Admits(config.name)) && config.name !in old(loggers) && PlanSinks(config, env).Some? ==>
        h != null && fresh(h) && loggers == old(loggers)[config.name := h] &&
        h.name == config.name && h.GetLevel() == config.level && h.flushLevel == Backend.Info &&
        h.Kinds() == PlanSinks(config, env).value &&
        forall s :: s in h.sinks ==> fresh(s) && s.level == ToBackend(config.level) && s.lines == [] && s.flushed == 0
    {
      if !initialized && config.name != "default" {
        return null;
      }
      if config.name in loggers {
        return loggers[config.name];
      }
      var sinks, assembled := AssembleSinks(config, env);
      if !assembled {
        return null;
      }
      h := new Handle(config.name, sinks, config.level);
      Register(h);
    }

    /**
     * Registration of a new handle under its name. The handle's sinks are
     * new, so the registered handles keep owning disjoint sets of sinks.
     */
    method Register(h: Handle)
      requires Valid() && Admits(h.name) && h.name !in loggers && h.Valid()
      requires forall s :: s in h.sinks ==> s !in AllSinks()
      modifies this
      ensures Valid()
      ensures loggers == old(loggers)[h.name := h]
      ensures initialized == old(initialized) && defaultLogger == old(defaultLogger)
      ensures forall s :: s in AllSinks() ==> s in old(AllSinks()) || s in h.sinks
    {
      loggers := loggers[h.name := h];
    }

    /**
     * initialize: idempotent while initialised. Otherwise it first resets
     * the level of every logger registered with the backend to the default
     * level (while uninitialised that can only be a "default" handle made
     * beforehand), then obtains the "default" handle through create-or-get
     * and becomes initialised iff that succeeds.
     */
    method Initialize(defaultLevel: LogLevel, env: Env) returns (ok: bool)
      requires Valid()
      modifies this, if "default" in loggers then {loggers["default"]} else {}
      ensures Valid()
      ensures old(initialized) ==> ok && loggers == old(loggers) && defaultLogger == old(defaultLogger)
      ensures old(initialized) && "default" in loggers ==> loggers["default"].level == old(loggers["default"].level)
      ensures forall s :: s in AllSinks() ==> s in old(AllSinks()) || fresh(s)
      ensures !old(initialized) ==>
        (ok <==> "default" in old(loggers) || PlanSinks(DefaultLoggerConfig(defaultLevel), env).Some?)
      ensures ok ==> initialized && defaultLogger != null && loggers["default"] == defaultLogger
      ensures !old(initialized) && ok ==> defaultLogger.name == "default" && defaultLogger.GetLevel() == defaultLevel
      ensures !old(initialized) && "default" in old(loggers) ==>
        defaultLogger == old(loggers)["default"] && loggers == old(loggers)
      ensures !old(initialized) && ok && "default" !in old(loggers) ==>
        fresh(defaultLogger) && loggers == old(loggers)["default" := defaultLogger] &&
        defaultLogger.flushLevel == Backend.Info &&
        defaultLogger.Kinds() == PlanSinks(DefaultLoggerConfig(defaultLevel), env).value &&
        forall s :: s in defaultLogger.sinks ==>
          fresh(s) && s.level == ToBackend(defaultLevel) && s.lines == [] && s.flushed == 0
      ensures !ok ==> !initialized && defaultLogger == null && loggers == old(loggers)
    {
      if initialized {
        return true;
      }
      if "default" in loggers {
        var registered := loggers["default"];
        registered.level := ToBackend(defaultLevel);
      }
      var h := CreateLogger(DefaultLoggerConfig(defaultLevel), env);
      defaultLogger := h;
      if h == null {
        return false;
      }
      initialized := true;
      return true;
    }

    /** get_logger: the handle registered under the name, or null. */
    method GetLogger(name: string) returns (h: Handle?)
      ensures name in loggers ==> h == loggers[name]
      ensures name !in loggers ==> h == null
    {
      h := if name in loggers then loggers[name] else null;
    }

    /** get_default: the default handle, null before initialisation. */
    method GetDefault() returns (h: Handle?)
      requires Valid()
      ensures h == defaultLogger
      ensures h != null <==> initialized
      ensures h != null ==> h.name == "default" && h == loggers["default"]
    {
      h := defaultLogger;
    }

    /**
     * shutdown: a no-op while uninitialised. Otherwise flushes every
     * registered handle, then empties the registry and clears the default.
     */
    method Shutdown()
      requires Valid()
      modifies this, AllSinks()
      ensures Valid()
      ensures !old(initialized) ==>
        initialized == old(initialized) && loggers == old(loggers) && defaultLogger == old(defaultLogger)
      ensures !old(initialized) ==> forall s :: s in old(AllSinks()) ==> s.flushed == old(s.flushed)
      ensures old(initialized) ==> !initialized && loggers == map[] && defaultLogger == null
      ensures old(initialized) ==> forall s :: s in old(AllSinks()) ==> s.Settled()
      ensures forall s :: s in old(AllSinks()) ==> s.lines == old(s.lines)
    {
      if !initialized {
        return;
      }
      var pending := loggers.Keys;
      while pending != {}
        invariant pending <= loggers.Keys
        invariant loggers == old(loggers) && AllSinks() == old(AllSinks())
        invariant forall s :: s in AllSinks() ==> s.lines == old(s.lines)
        invariant forall n :: n in loggers && n !in pending ==>
          forall s :: s in loggers[n].sinks ==> s.Settled()
        decreases pending
      {
        var n :| n in pending;
        var h := loggers[n];
        assert h in loggers.Values;
        h.Flush();
        pending := pending - {n};
      }
      assert forall s :: s in AllSinks() ==> s.Settled() by {
        forall s | s in AllSinks() ensures s.Settled() {
          var h :| h in loggers.Values && s in h.sinks;
          var n :| n in loggers && loggers[n] == h;
        }
      }
      loggers := map[];
      defaultLogger := null;
      initialized := false;
    }
  }

  /**
   * The sink assembly of create_logger: a console sink when enabled, then a
   * rotating file sink when enabled with a path, which fails when the log
   * directory is unusable or the sink does not open; failure too when no
   * sink is wanted. Every sink is new, at the configured level and empty.
   */
  method AssembleSinks(config: LoggerConfig, env: Env) returns (sinks: seq<Sink>, ok: bool)
    ensures ok <==> PlanSinks(config, env).Some?
    ensures ok ==> 1 <= |sinks| <= 2 && (forall i, j :: 0 <= i < j < |sinks| ==> sinks[i] != sinks[j])
    ensures ok ==> seq(|sinks|, i requires 0 <= i < |sinks| => sinks[i].kind) == PlanSinks(config, env).value
    ensures forall s :: s in sinks ==>
      fresh(s) && s.level == ToBackend(config.level) && s.lines == [] && s.flushed == 0
  {
    sinks := [];
    if config.enableConsole {
      var console := new Sink(Console, ToBackend(config.level));
      sinks := sinks + [console];
    }
    if config.enableFile && config.filePath != "" {
      if !env.logDirReady {
        return [], false;
      }
      if !env.fileSinkOpens {
        return [], false;
      }
      var file := new Sink(FileSinkOf(config), ToBackend(config.level));
      sinks := sinks + [file];
    }
    ok := sinks != [];
  }

  /**
   * Loggers are independently configured: each owns the sinks it was built
   * with, so output through one registered handle leaves every sink of
   * another registered handle as it was.
   */
  method EmitThroughOne(reg: Registry, a: string, b: string, severity: LogLevel, message: string)
    requires reg.Valid() && a in reg.loggers && b in reg.loggers && a != b && severity != Off
    modifies reg.loggers[a].SinkSet()
    ensures forall s :: s in reg.loggers[b].sinks ==> s.lines == old(s.lines) && s.flushed == old(s.flushed)
  {
    reg.loggers[a].Emit(severity, message);
  }

  /**
   * The LOG_* macros: emit through the default handle, or do nothing when
   * there is none (before initialize and after shutdown).
   */
  method LogViaDefault(reg: Registry, severity: LogLevel, message: string)
    requires reg.Valid() && severity != Off
    modifies if reg.defaultLogger == null then {} else reg.defaultLogger.SinkSet()
    ensures reg.defaultLogger != null ==> forall i :: 0 <= i < |reg.defaultLogger.sinks| ==>
      reg.defaultLogger.sinks[i].lines == old(reg.defaultLogger.sinks[i].lines) +
        (if reg.defaultLogger.Reaches(severity, reg.defaultLogger.sinks[i]) then [Entry(severity, message)] else [])
    ensures reg.defaultLogger != null && reg.defaultLogger.Flushes(severity) ==>
      forall i :: 0 <= i < |reg.defaultLogger.sinks| ==> reg.defaultLogger.sinks[i].Settled()
    ensures reg.defaultLogger != null && !reg.defaultLogger.Flushes(severity) ==>
      forall i :: 0 <= i < |reg.defaultLogger.sinks| ==> reg.defaultLogger.sinks[i].flushed == old(reg.defaultLogger.sinks[i].flushed)
  {
    var h := reg.GetDefault();
    if h != null {
      h.Emit(severity, message);
    }
  }
}
