# Dashcam logging core and documentation-server path handling

This project models two parts of the dashcam repository.

**The logger registry.** `dashcam::Logger` is a process-wide registry of named
logger handles. Each handle wraps a backend (spdlog) logger. Modelled here:

- `initialize`, `create_logger`, `get_logger`, `get_default` and `shutdown`.
- The six level-gated emitters, `flush`, `set_level`, `get_level` and `get_name`.
- The two level conversions and the `LogLevel` enumeration.
- The defaults of `LoggerConfig`.
- The `LOG_*` macros that log through the default handle.

The registry is a class holding the initialised flag, the name-to-handle map and the default handle.

- A handle (`Logging.Handle`) has these parts:
  - an immutable name;
  - its threshold, stored in backend form, as `logger_->level()` is;
  - a flush level, fixed at Info by `flush_on(info)`;
  - the one or two sinks it was assembled with.
- A sink (`Logging.Sink`) keeps the level it was created with. It records every line it accepted. A `flushed` watermark counts how many of those lines have been flushed.
- A message reaches a sink when it passes both filters: the handle's current threshold and the sink's creation level. This is the backend's numeric comparison, `Backend.Passes`.

What the file system decides while sinks are assembled is a parameter, `Config.Env`. It records two things:

- whether the log directory is usable;
- whether the rotating file sink opens.

`Config.PlanSinks` is the list of sinks `create_logger` builds for a configuration, or None when assembly fails.

`LoggerScenarios` replays the logger's unit tests (tests/unit/test_logger.cpp) against the contracts alone: every test of that file, with the file contents of LogLevelFiltering read as the lines its file sink recorded.

**The documentation server.** This part covers the string rewriting in `docs/serve_docs.py`:

- how a GET path loses its query and fragment, maps `/` to the index page, and names the markdown file for a `.html` request;
- how the leading `/` is removed before a markdown file is looked up;
- how a page title is taken from the first line of a markdown document;
- how the breadcrumb above a page is built.

`PyStr` models the Python `str` operations that code uses, with Python's semantics:

- `split(c)` and `split(c)[0]` for one character;
- `join`;
- `lstrip`, `rstrip` and `strip`, both with one character and with no argument, which removes the characters for which `str.isspace` holds;
- `startswith`, `endswith` and one-character `replace`;
- `title` over ASCII letters.

The header documents that `create_logger` requires a successful `initialize` (include/dashcam/utils/logger.h:61-62). The code is more permissive, and the model follows the code:

- `create_logger` accepts the name `"default"` before the registry is initialised. That is how `initialize` obtains its handle. Every other name is refused.
- `initialize` stores whatever `create_logger` returned as the default handle, even null.
- An enabled file sink with an empty path is skipped silently. It is not reported as an error.

## Model

| member | source | states |
|---|---|---|
| Levels.ToBackend | src/utils/logger.cpp:225-238 | every wrapper level maps to the backend level with the same numeric value (`LogLevel` is 0..6) |
| Levels.FromBackend | src/utils/logger.cpp:240-253 | every backend level maps back to the wrapper level whose conversion gives it, with the same numeric value |
| Levels.ConversionsInverse | src/utils/logger.cpp:225-253 | the two conversions are mutually inverse |
| Levels.AtLeastIsTotalOrder | include/dashcam/utils/logger.h:18-26 | the severity order is reflexive, antisymmetric, transitive and total, with Trace lowest and Off highest |
| Levels.BackendFilterAgrees | src/utils/logger.cpp:220-223 | the backend's numeric filter on converted levels is exactly the wrapper's "at least as severe" |
| Config.PlanSinks | src/utils/logger.cpp:65-104 | assembly succeeds iff some sink is wanted and, when a file sink is wanted, the directory is usable and the sink opens; the result has one or two sinks, holds the console sink iff console is enabled and the file sink iff it is enabled with a non-empty path, has exactly one sink per wanted kind, and puts the console first; together these make it exactly [console?] followed by [file?] |
| Config.Defaults | include/dashcam/utils/logger.h:31-40 | a default-constructed configuration; what it assembles to is stated by Config.DefaultsAssembleConsoleOnly |
| Config.DefaultLoggerConfig | src/utils/logger.cpp:25-33 | the configuration initialize builds for "default" (console and `logs/dashcam.log`, 10 MiB, 5 files); what it assembles to is stated by Config.DefaultLoggerPlan |
| Config.DefaultsAssembleConsoleOnly | include/dashcam/utils/logger.h:31-40 | a default configuration (any name or level) assembles to exactly one console sink, whatever the file system does |
| Config.DefaultLoggerPlan | src/utils/logger.cpp:24-35 | the "default" configuration assembles iff the file sink can be set up, and then yields console plus `logs/dashcam.log` (10 MiB, 5 files) |
| Config.EmptyFilePathIsSkipped | src/utils/logger.cpp:77 | an enabled file sink with an empty path is ignored: console only, or failure when console is off |
| Logging.Sink.constructor | src/utils/logger.cpp:69-74 | a new sink has its kind and level and no lines |
| Logging.Sink.Accepts | src/utils/logger.cpp:69-98 | a sink, whose level is set at creation, accepts a message iff it is at least as severe as that level |
| Logging.Handle.constructor | src/utils/logger.cpp:106-115 | a new handle has the name and sinks given, threshold at the configured level, flush level Info |
| Logging.Handle.GetLevel | src/utils/logger.cpp:210-213 | get_level reports the wrapper level whose backend form is the handle's current threshold |
| Logging.Handle.ShouldLog | src/utils/logger.cpp:220-223 | should_log holds iff the severity is at least the handle's current level |
| Logging.Handle.SetLevel | src/utils/logger.cpp:205-208 | set_level changes the threshold so that get_level returns the new level; the sinks are untouched |
| Logging.Handle.Emit | src/utils/logger.cpp:164-198 | an emitter appends exactly one entry to each sink the message reaches and nothing to the others; a written message at Info or above leaves every sink flushed, otherwise no flush state changes |
| Logging.Handle.Flush | src/utils/logger.cpp:200-203 | flush settles every sink and loses or adds no line |
| Logging.ReachesIff | src/utils/logger.cpp:220-223 | a message reaches a sink iff it is at least the handle's level and at least the sink's creation level |
| Logging.LoweringLevelKeepsSinkFilter | src/utils/logger.cpp:205-208 | after set_level below the creation level, messages below the creation level still reach no sink |
| Logging.OffSuppressesAll | src/utils/logger.cpp:220-223 | a handle at Off lets none of trace..critical through |
| Logging.Registry.constructor | src/utils/logger.cpp:10-12 | the registry starts uninitialised, empty, without a default handle |
| Logging.Registry.CreateLogger | src/utils/logger.cpp:49-123 | null and nothing registered when uninitialised and the name is not "default"; the existing handle, registry unchanged, for a known name; null and nothing registered when assembly fails; otherwise a fresh handle registered under the name, with the configured name and level, flush level Info, the planned sinks all fresh at the configured level, empty and unflushed; the registry invariant is kept |
| Logging.AssembleSinks | src/utils/logger.cpp:65-104 | sink assembly succeeds exactly when PlanSinks does, and then yields one or two distinct new sinks whose kinds are the planned ones, at the configured level, empty and unflushed |
| Logging.Registry.Register | src/utils/logger.cpp:116 | a new handle whose sinks belong to no registered handle is added under its name; the registry invariant, including disjoint sinks, is kept and nothing else changes |
| Logging.Registry.Initialize | src/utils/logger.cpp:14-47 | idempotent once initialised, changing no level; otherwise the backend-wide level reset moves a "default" handle made earlier to the requested level, initialisation succeeds iff such a handle exists or the default sinks assemble, and then the default handle is the registered "default" at the requested level; a freshly made one has flush level Info and the planned console and `logs/dashcam.log` sinks, all fresh, at the requested level, empty and unflushed; on failure nothing is registered and the registry stays uninitialised |
| Logging.Registry.GetLogger | src/utils/logger.cpp:125-131 | returns the handle registered under the name, or null when there is none |
| Logging.Registry.GetDefault | src/utils/logger.cpp:133-135 | returns the default handle, non-null exactly while initialised, and then it is the registered "default" |
| Logging.Registry.Shutdown | src/utils/logger.cpp:137-157 | a no-op while uninitialised; otherwise every sink of every registered handle ends flushed, and the registry is emptied and uninitialised; no sink loses or gains a line |
| Logging.EmitThroughOne | src/utils/logger.cpp:65-118 | every create_logger builds its own sinks, so emitting through one registered handle changes no line and no flush state of another registered handle's sinks (the registry invariant keeps the handles' sinks disjoint) |
| Logging.LogViaDefault | include/dashcam/utils/logger.h:177-206 | a LOG_* macro emits through the default handle as Emit does (lines and flushes), may change only the default handle's sinks, and changes no sink when there is no default |
| LoggerScenarios.InitializeSucceeds | tests/unit/test_logger.cpp:31-36 | after initialize(Debug) the default handle is named "default" and is at Debug |
| LoggerScenarios.InitializeIsIdempotent | src/utils/logger.cpp:14-17 | a second initialize returns true and keeps the same default handle at its first level |
| LoggerScenarios.CreateCustomLogger | tests/unit/test_logger.cpp:38-49 | a console logger created at Warning reports its name and Warning |
| LoggerScenarios.GetExistingLogger | tests/unit/test_logger.cpp:51-62 | get_logger and a second create_logger return the same instance, whose level is not changed by the second configuration |
| LoggerScenarios.GetNonExistentLogger | tests/unit/test_logger.cpp:64-67 | an unknown name yields null |
| LoggerScenarios.FileLoggerAtWarning | tests/unit/test_logger.cpp:91-100 | the file-only logger at Warning has one fresh, empty sink at Warning, and it is the rotating file `logs/level_test.log` (10 MiB, 5 files) |
| LoggerScenarios.LogLevelFiltering | tests/unit/test_logger.cpp:91-120 | of debug, info, warning and error messages, the file holds exactly the warning and the error, and they are flushed |
| LoggerScenarios.DefaultCreatedBeforeInitialize | src/utils/logger.cpp:14-35 | a "default" handle created at Warning before initialize(Debug) is adopted as the default handle and then reports Debug |
| LoggerScenarios.InitializedAtDebug | tests/unit/test_logger.cpp:11-19 | after initialize(Debug) the default handle is at Debug with a console and a `logs/dashcam.log` sink, both empty and at Debug |
| LoggerScenarios.EmitAtDebug | src/utils/logger.cpp:164-198 | on that default handle an emitter writes everything but trace to both sinks, and a message at Info or above leaves both flushed |
| LoggerScenarios.MacroAtDebug | include/dashcam/utils/logger.h:177-206 | a LOG_* macro has the same effect on that default handle |
| LoggerScenarios.LoggingMethods | tests/unit/test_logger.cpp:69-80 | of the six emitters on the default handle, all but trace reach console and file, in order, and end flushed |
| LoggerScenarios.FormattedLogging | tests/unit/test_logger.cpp:82-89 | both formatted messages reach the console with their formatted text |
| LoggerScenarios.MacroLogging | tests/unit/test_logger.cpp:123-131 | of the six LOG_* macros, all but LOG_TRACE reach the console, in order, and end flushed |
| LoggerScenarios.ConsoleLoggerAtWarning | src/utils/logger.cpp:49-123 | a console-only logger created at Warning has one fresh, empty sink at Warning, and it is a console sink |
| LoggerScenarios.SetLevelBelowCreation | src/utils/logger.cpp:205-208 | lowering a Warning logger to Debug makes get_level report Debug, yet Debug and Info messages still reach no sink |
| LoggerScenarios.CreateLoggerWithoutInitialization | tests/unit/test_logger.cpp:133-143 | after shutdown, create_logger for an ordinary name, get_default and get_logger("default") all yield null |
| PyStr.Before | docs/serve_docs.py:363-366 | `s.split(c)[0]` is the prefix of s before the first c, all of s when there is no c |
| PyStr.Join | docs/serve_docs.py:474 | `sep.join(parts)`; its inverse relation to split is PyStr.SplitJoin, its use in the breadcrumb DocsServer.BreadcrumbLinks |
| PyStr.Split | docs/serve_docs.py:464 | `s.split(c)` has at least one piece, none containing c, the first being the part before the first c, and has one piece iff c does not occur |
| PyStr.SplitJoin | docs/serve_docs.py:464 | joining the pieces of a split with the separator gives back the string |
| PyStr.LStrip | docs/serve_docs.py:419 | `lstrip` returns a suffix of s that does not start with a stripped character |
| PyStr.LStripDropsClass | docs/serve_docs.py:419 | every character `lstrip` drops is a stripped character |
| PyStr.RStrip | docs/serve_docs.py:419 | `rstrip` returns a prefix of s that does not end with a stripped character |
| PyStr.RStripDropsClass | docs/serve_docs.py:419 | every character `rstrip` drops is a stripped character |
| PyStr.Strip | docs/serve_docs.py:419 | `strip` returns the slice of s starting where lstrip stopped, and it neither starts nor ends with a stripped character |
| PyStr.StripDropsClass | docs/serve_docs.py:419 | every character of s before and after the result of `strip` is a stripped character; with the contract of Strip this determines the result |
| PyStr.StripIsInfix | docs/serve_docs.py:419 | the result of `strip` is a contiguous piece of s |
| PyStr.StripEmptyIff | docs/serve_docs.py:464 | `strip` leaves nothing iff every character of s is stripped |
| PyStr.ReplaceChar | docs/serve_docs.py:470 | one-character `replace` keeps the length, turns every occurrence into the replacement and keeps every other character |
| PyStr.TitleFrom | docs/serve_docs.py:470 | title-casing keeps length and non-letters, and makes a letter upper case iff it starts a word |
| PyStr.Title | docs/serve_docs.py:470 | `title()` keeps length and non-letters; a letter keeps its identity and is upper case iff it is first or follows a non-letter |
| DocsServer.QueryAndFragmentCut | docs/serve_docs.py:362-366 | cutting at '?' then '#' leaves the prefix before the first '?' or '#', whichever comes first |
| DocsServer.RequestPath | docs/serve_docs.py:362-370 | the path do_GET continues with; its properties are DocsServer.RequestPathIsClean and DocsServer.QueryAndFragmentCut |
| DocsServer.MarkdownCandidate | docs/serve_docs.py:373-374 | the markdown file a `.html` path stands for; its properties are DocsServer.MarkdownCandidateRoundTrip |
| DocsServer.RequestPathIsClean | docs/serve_docs.py:362-370 | the rewritten path has no '?' or '#', is never "/", and is a prefix of the request unless it is the index page |
| DocsServer.MarkdownCandidateRoundTrip | docs/serve_docs.py:372-374 | a markdown file is derived iff the path ends in ".html"; it ends in ".md" and turning ".md" back into ".html" gives the path |
| DocsServer.RewriteRequestPath | docs/serve_docs.py:360-376 | the handler's rewriting computes the cut-and-mapped path and its markdown candidate |
| DocsServer.StripLeadingSlash | docs/serve_docs.py:388-389 | one leading '/' is removed when present, otherwise the path is unchanged |
| DocsServer.DocTitle | docs/serve_docs.py:417-419 | the page title; its properties are DocsServer.DocTitleWithinFirstLine, DocsServer.DocTitleIsTrimmed and DocsServer.HeadingTitle |
| DocsServer.DocTitleWithinFirstLine | docs/serve_docs.py:417-419 | below a '#', the title is a contiguous piece of the first line and holds no line break |
| DocsServer.DocTitleIsTrimmed | docs/serve_docs.py:417-419 | below a '#', the title neither starts nor ends with whitespace |
| DocsServer.HeadingTitle | docs/serve_docs.py:417-419 | a document starting `#... text` followed by a line break has exactly `text` as its title, whatever text begins with other than whitespace (a leading '#' included) |
| DocsServer.Segments | docs/serve_docs.py:464 | the segments of a path contain no '/' and joined by '/' give the path with outer slashes stripped |
| DocsServer.DirectoryCrumbs | docs/serve_docs.py:465-471 | the loop yields Home followed by one link per directory, each at its cumulative path |
| DocsServer.Breadcrumb | docs/serve_docs.py:462-475 | the breadcrumb of a page path; its properties are DocsServer.BreadcrumbLinks and DocsServer.BreadcrumbEmptyIff |
| DocsServer.GenerateBreadcrumb | docs/serve_docs.py:462-475 | generate_breadcrumb computes the breadcrumb of the path |
| DocsServer.BreadcrumbEmptyIff | docs/serve_docs.py:473-475 | the breadcrumb is empty iff the stripped path has at most one segment |
| DocsServer.CumulativePathIsJoin | docs/serve_docs.py:469 | the cumulative path after k directories is "/" followed by the first k joined by "/" |
| DocsServer.DirLinkIsJoin | docs/serve_docs.py:468-471 | the k-th directory link points at the first k+1 segments joined by "/", labelled with its segment |
| DocsServer.BreadcrumbLinks | docs/serve_docs.py:462-475 | below the top level the breadcrumb is Home and one link per directory (never the file) joined by " > ", the k-th pointing at "/s1/.../sk/" |

## Left out

- Formatting of log lines (the pattern, timestamps, colours) and the rotation of log files are not modelled. A sink records the severity and text of each line it accepted.
- The formatted emitters (include/dashcam/utils/logger.h:100-140) are modelled as `Emit` applied to the already formatted text. Formatting happens only after the level check, so this difference cannot be observed.
- `get_name` is the handle's immutable `name` field.
- The file system is replaced by `Config.Env`: creating the log directory, constructing the rotating file sink, and the exceptions either can raise. The console sink is assumed never to throw.
- The backend's own registration (`spdlog::register_logger`) and its possible name-clash exception are not modelled.
- The global `spdlog::set_pattern` call at initialisation is not modelled, as formatting is not. The global `spdlog::set_level` call is modelled only by its effect on the registry's handles: while uninitialised the only handle registered with the backend can be a "default" made earlier, and `Initialize` sets its level. The default level it also records for loggers the backend creates itself is not modelled, because `create_logger` always sets a new logger's level. `spdlog::shutdown` drops the backend's registrations; the model's registry is emptied in the same step.
- A sink's `flushed` watermark records only the flushes the logger asks for: `flush_on(info)` after a written message, `flush()`, and the flush in `shutdown`. Flushing that a sink does on its own is not modelled. For example, the console sink flushes standard output after every line it writes, so a console line below Info is already flushed where the model leaves it pending.
- Error messages written to standard error are not modelled.
- Thread safety of the backend sinks is out of scope: the model is sequential.
- The gRPC service and `main` are callers of this core and are not part of the model.
- Percent-decoding of the request path (`unquote`) is not modelled. The model starts from the decoded path.
- The HTTP server, file reads, the markdown renderer, the Mermaid post-processing and the HTML template are not modelled.
- PyStr.Title: upper- and lower-casing only covers ASCII letters, and a non-ASCII letter counts as a word break. Python's `title()` also cases other Unicode letters and treats them as part of a word: it gives "Ébène" for "ébène", where the model gives "éBèNe".
- PyStr.Split: only one-character separators are modelled, which is all the server uses.
