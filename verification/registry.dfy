/** The module-level registry of `clog/global_state.py`: the list of
    default loggers is built lazily from the configuration, fanned out to
    on every `log_line`, and torn down by `reset_default_loggers`. The
    loggers themselves are named by what they were built from; what each
    does with a line is the business of its own module. */
module Registry {
  import opened Common
  import Utils
  import LineSize

  /** A default logger: `FileLogger()` or `ScribeLogger(host, port,
      retry_interval)`. */
  datatype Logger =
    | FileLogger
    | ScribeLogger(host: string, port: int, retryInterval: int)

  /** The configuration values the registry reads. */
  datatype Config = Config(
    fileLogging: bool,
    logDir: Option<string>,
    scribeDisable: bool,
    scribeHost: string,
    scribePort: int,
    scribeRetryInterval: int)

  /** The global `loggers`: `None`, or a list (possibly empty). */
  datatype Registry = Uninit | Active(loggers: seq<Logger>)

  /** `ValueError('log_dir not set; ...')`. */
  datatype ConfigError = LogDirNotSet

  /** `check_create_default_loggers()`: the registry afterwards and the
      exception raised, if any. */
  function CheckCreate(reg: Registry, cfg: Config): (r: (Registry, Option<ConfigError>))
    // an existing list, even an empty one, is kept as it is
    ensures reg.Active? ==> r == (reg, None)
    ensures r.0.Active?
    ensures reg.Uninit? ==> (r.1.Some? <==> cfg.fileLogging && cfg.logDir.None?)
    // the failure leaves an empty list behind, not `None`
    ensures reg.Uninit? && r.1.Some? ==> r.0 == Active([])
    ensures reg.Uninit? && r.1.None? ==>
      var ls := r.0.loggers;
      && |ls| == (if cfg.fileLogging then 1 else 0) + (if cfg.scribeDisable then 0 else 1)
      && (cfg.fileLogging ==> ls[0] == FileLogger)
      && (!cfg.scribeDisable ==>
            ls[|ls| - 1] == ScribeLogger(cfg.scribeHost, cfg.scribePort, cfg.scribeRetryInterval))
  {
    if reg.Active? then (reg, None)
    else if cfg.fileLogging && cfg.logDir.None? then (Active([]), Some(LogDirNotSet))
    else
      var files := if cfg.fileLogging then [FileLogger] else [];
      var scribes := if cfg.scribeDisable then []
        else [ScribeLogger(cfg.scribeHost, cfg.scribePort, cfg.scribeRetryInterval)];
      (Active(files + scribes), None)
  }

  /** Building the registry is done once: a second check changes nothing. */
  lemma CheckCreateIdempotent(reg: Registry, cfg: Config, cfg2: Config)
    ensures CheckCreate(CheckCreate(reg, cfg).0, cfg2) == (CheckCreate(reg, cfg).0, None)
  {
  }

  /** What the registry does to its loggers. */
  datatype Effect =
    | Closed(logger: Logger)
    | Logged(logger: Logger, stream: Utils.StreamName, line: LineSize.Line)

  /** `reset_default_loggers()`: every logger is closed, in list order, and
      the registry is `None` again. */
  function Reset(reg: Registry): (r: (Registry, seq<Effect>))
    ensures r.0 == Uninit
    ensures reg.Uninit? ==> r.1 == []
    ensures reg.Active? ==> |r.1| == |reg.loggers|
    ensures reg.Active? ==> forall i :: 0 <= i < |r.1| ==> r.1[i] == Closed(reg.loggers[i])
  {
    match reg
    case Uninit => (Uninit, [])
    case Active(ls) => (Uninit, CloseAll(ls))
  }

  function CloseAll(ls: seq<Logger>): (r: seq<Effect>)
    ensures |r| == |ls|
    ensures forall i :: 0 <= i < |ls| ==> r[i] == Closed(ls[i])
  {
    seq(|ls|, i requires 0 <= i < |ls| => Closed(ls[i]))
  }

  /** The loop `for logger in loggers: logger.log_line(stream, line)`;
      `failsAt` is the position of the first logger whose `log_line`
      raises, which ends the loop. Returns the calls made and whether the
      loop was cut short. */
  function FanOut(ls: seq<Logger>, stream: Utils.StreamName, line: LineSize.Line, failsAt: Option<nat>): (r: (seq<Effect>, bool))
    ensures r.1 <==> failsAt.Some? && failsAt.value < |ls|
    ensures |r.0| == if r.1 then failsAt.value + 1 else |ls|
    ensures forall i :: 0 <= i < |r.0| ==> r.0[i] == Logged(ls[i], stream, line)
    decreases |ls|
  {
    if |ls| == 0 then ([], false)
    else if failsAt == Some(0) then ([Logged(ls[0], stream, line)], true)
    else
      var rest := FanOut(ls[1..], stream, line, if failsAt.Some? then Some(failsAt.value - 1) else None);
      ([Logged(ls[0], stream, line)] + rest.0, rest.1)
  }

  /** Why a module-level `log_line` raised. */
  datatype Raised = ConfigRaised(error: ConfigError) | LoggerRaised(position: nat)

  /** `log_line(stream, line)` of the module: build the registry if
      needed, then hand the line to every logger in order. */
  function LogLine(reg: Registry, cfg: Config, stream: Utils.StreamName, line: LineSize.Line,
                   failsAt: Option<nat>): (r: (Registry, seq<Effect>, Option<Raised>))
    ensures r.0 == CheckCreate(reg, cfg).0
    ensures CheckCreate(reg, cfg).1.Some? ==> r.1 == [] && r.2 == Some(ConfigRaised(LogDirNotSet))
    ensures CheckCreate(reg, cfg).1.None? ==>
      var ls := r.0.loggers;
      && (r.2.Some? <==> failsAt.Some? && failsAt.value < |ls|)
      && (r.2.Some? ==> r.2 == Some(LoggerRaised(failsAt.value)))
      && |r.1| == (if r.2.Some? then failsAt.value + 1 else |ls|)
      && forall i :: 0 <= i < |r.1| ==> r.1[i] == Logged(ls[i], stream, line)
  {
    var (reg1, err) := CheckCreate(reg, cfg);
    if err.Some? then (reg1, [], Some(ConfigRaised(err.value)))
    else
      var (calls, cut) := FanOut(reg1.loggers, stream, line, failsAt);
      (reg1, calls, if cut then Some(LoggerRaised(failsAt.value)) else None)
  }

  /** After a reset the next `log_line` builds the loggers afresh from the
      configuration it then sees. */
  lemma ResetThenLogRebuilds(reg: Registry, cfg: Config, stream: Utils.StreamName, line: LineSize.Line,
                             failsAt: Option<nat>)
    ensures LogLine(Reset(reg).0, cfg, stream, line, failsAt).0 == CheckCreate(Uninit, cfg).0
  {
  }

  /** A failed first build is sticky: the empty list is never rebuilt, so
      later lines go nowhere and nothing more is raised, whatever the
      configuration has become. */
  lemma FailedBuildSticks(cfg: Config, cfg2: Config, stream: Utils.StreamName, line: LineSize.Line,
                          failsAt: Option<nat>)
    requires cfg.fileLogging && cfg.logDir.None?
    ensures var reg := LogLine(Uninit, cfg, stream, line, failsAt).0;
      LogLine(reg, cfg2, stream, line, failsAt) == (Active([]), [], None)
  {
  }

  /** With both backends enabled and nothing raising, a line reaches the
      file logger first and then the Scribe logger. */
  lemma BothLoggersInOrder(cfg: Config, stream: Utils.StreamName, line: LineSize.Line)
    requires cfg.fileLogging && cfg.logDir.Some? && !cfg.scribeDisable
    ensures LogLine(Uninit, cfg, stream, line, None).1 ==
      [Logged(FileLogger, stream, line),
       Logged(ScribeLogger(cfg.scribeHost, cfg.scribePort, cfg.scribeRetryInterval), stream, line)]
  {
    var r := LogLine(Uninit, cfg, stream, line, None);
    assert |r.1| == 2;
  }
}
