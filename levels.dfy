/** Severity levels: the wrapper's own enumeration and the backend's. */

/**
 * The level enumeration of the logging backend the wrapper delegates to.
 * The backend filters by comparing numeric codes: a message passes a
 * threshold (the logger's or a sink's) when its code is at least the
 * threshold's code.
 */
module Backend {
  datatype Level = Trace | Debug | Info | Warn | Err | Critical | Off

  function Code(l: Level): nat
  {
    match l
    case Trace => 0
    case Debug => 1
    case Info => 2
    case Warn => 3
    case Err => 4
    case Critical => 5
    case Off => 6
  }

  predicate Passes(msg: Level, threshold: Level)
  {
    Code(msg) >= Code(threshold)
  }
}

/** The wrapper's `LogLevel` enumeration and its conversions to and from the backend. */
module Levels {
  import Backend

  datatype LogLevel = Trace | Debug | Info | Warning | Error | Critical | Off

  /** The underlying 8-bit value of each enumerator. */
  function Ordinal(l: LogLevel): nat
  {
    match l
    case Trace => 0
    case Debug => 1
    case Info => 2
    case Warning => 3
    case Error => 4
    case Critical => 5
    case Off => 6
  }

  /** "a is at least as severe as b". */
  predicate AtLeast(a: LogLevel, b: LogLevel)
  {
    Ordinal(a) >= Ordinal(b)
  }

  /** The conversion to the backend keeps each level's numeric value. */
  function ToBackend(l: LogLevel): (r: Backend.Level)
    ensures Backend.Code(r) == Ordinal(l)
  {
    match l
    case Trace => Backend.Trace
    case Debug => Backend.Debug
    case Info => Backend.Info
    case Warning => Backend.Warn
    case Error => Backend.Err
    case Critical => Backend.Critical
    case Off => Backend.Off
  }

  /** The conversion back from the backend is a right inverse of ToBackend. */
  function FromBackend(b: Backend.Level): (r: LogLevel)
    ensures ToBackend(r) == b
    ensures Ordinal(r) == Backend.Code(b)
  {
    match b
    case Trace => Trace
    case Debug => Debug
    case Info => Info
    case Warn => Warning
    case Err => Error
    case Critical => Critical
    case Off => Off
  }

  /** The two conversions are mutually inverse, so together they form a bijection. */
  lemma ConversionsInverse(l: LogLevel, b: Backend.Level)
    ensures FromBackend(ToBackend(l)) == l
    ensures ToBackend(FromBackend(b)) == b
  {
  }

  /** AtLeast is a total order with Trace lowest and Off highest. */
  lemma AtLeastIsTotalOrder(a: LogLevel, b: LogLevel, c: LogLevel)
    ensures AtLeast(a, a)
    ensures AtLeast(a, b) && AtLeast(b, a) ==> a == b
    ensures AtLeast(a, b) && AtLeast(b, c) ==> AtLeast(a, c)
    ensures AtLeast(a, b) || AtLeast(b, a)
    ensures AtLeast(a, Trace) && AtLeast(Off, a)
  {
  }

  /** The backend's numeric comparison agrees with the wrapper's order. */
  lemma BackendFilterAgrees(msg: LogLevel, threshold: LogLevel)
    ensures Backend.Passes(ToBackend(msg), ToBackend(threshold)) <==> AtLeast(msg, threshold)
  {
  }
}
