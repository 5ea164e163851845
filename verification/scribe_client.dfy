/** `ScribeLogger` of `clog/loggers.py`: a connection that is reopened at
    most once per retry interval, a fork check, the one-entry Thrift `Log`
    call and its failure path, and the three size tiers of `log_line`.
    The transport, the clock, the process id and `report_status` are
    inputs: each call gets the readings and outcomes it meets. */
module ScribeClient {
  import opened Common
  import Metrics
  import Utils
  import opened LineSize

  /** The logger's bookkeeping: `connected`, `last_connect_time`,
      `retry_interval`, `_birth_pid`, how its `report_status` behaves, and
      its metrics reporter. */
  datatype Logger = Logger(
    connected: bool,
    lastConnect: int,
    retryInterval: int,
    birthPid: int,
    policy: ReportPolicy,
    metrics: Metrics.Reporter)

  /** `ScribeLogger(host, port, retry_interval, report_status)` created in
      process `pid`. */
  function NewLogger(retryInterval: int, pid: int, policy: ReportPolicy, sampleRate: int): (r: Logger)
    ensures !r.connected && r.lastConnect == 0
    ensures r.retryInterval == retryInterval && r.birthPid == pid && r.policy == policy
    ensures r.metrics == Metrics.NewReporter(sampleRate)
  {
    Logger(false, 0, retryInterval, pid, policy, Metrics.NewReporter(sampleRate))
  }

  /** `close()`: the transport is closed and the logger no longer thinks
      it is connected; `last_connect_time` is left alone. */
  function Close(l: Logger): (r: Logger)
    ensures !r.connected
    ensures r.(connected := l.connected) == l
  {
    l.(connected := false)
  }

  /** One Thrift `LogEntry(category, message)`. */
  datatype Entry = Entry(category: string, message: Bytes)

  /** The exceptions that leave `log_line`. */
  datatype Failure =
    | NotForkSafe        // ScribeIsNotForkSafeError
    | ReportRaised       // raised by the installed report_status
    | UndecodableStream  // scribify of a byte stream name that is not UTF-8
    | LineTooLong        // LogLineIsTooLongError
    | ReportUnencodable  // UnicodeDecodeError from json.dumps of the oversize report

  /** What one `_log_line_no_size_limit` call meets: the process id, the
      clock when `_maybe_reconnect` first looks at it, whether that
      `transport.open()` succeeds, whether `client.Log` returns, the clock
      read after a failed `Log`, and the clock and open outcome of the
      reconnect attempt that follows it. */
  datatype CallEnv = CallEnv(
    pid: int,
    now: int,
    opens: bool,
    sendOk: bool,
    failedAt: int,
    retryAt: int,
    reopens: bool)

  /** `_maybe_reconnect`'s gate: strictly more than `retry_interval` since
      the last recorded attempt. */
  predicate GateOpen(l: Logger, now: int) {
    now - l.lastConnect > l.retryInterval
  }

  /** The result of `_maybe_reconnect`: the logger, the statuses it
      reported, and whether `report_status` raised. */
  datatype Reconnect = Reconnect(logger: Logger, statuses: seq<Status>, raised: bool)

  /** `_maybe_reconnect()`; the source asserts the logger is disconnected. */
  function MaybeReconnect(l: Logger, now: int, opens: bool): (r: Reconnect)
    requires !l.connected
    ensures r.logger.(connected := l.connected, lastConnect := l.lastConnect) == l
    ensures r.logger.connected <==> GateOpen(l, now) && opens
    ensures r.logger.lastConnect == (if GateOpen(l, now) && !opens then now else l.lastConnect)
    ensures r.statuses == (if GateOpen(l, now) && !opens then [Status(true, ConnectFailed)] else [])
    ensures r.raised <==> GateOpen(l, now) && !opens && l.policy.raisesOnError
  {
    if GateOpen(l, now) then
      if opens then Reconnect(l.(connected := true), [], false)
      else Reconnect(l.(lastConnect := now), [Status(true, ConnectFailed)], l.policy.raisesOnError)
    else Reconnect(l, [], false)
  }

  /** The observable effect of one call: the logger afterwards, the
      entries handed to `client.Log` in order, the statuses reported in
      order, and the exception that left the call, if any. */
  datatype Outcome = Outcome(logger: Logger, sent: seq<Entry>, statuses: seq<Status>, raised: Option<Failure>)

  /** Leaving `with self.metrics.sampled_request():` normally or by an
      exception. */
  function Finish(l: Logger, sent: seq<Entry>, statuses: seq<Status>, raised: Option<Failure>): Outcome {
    Outcome(l.(metrics := Metrics.SampledRequest(l.metrics, if raised.Some? then Metrics.Raised else Metrics.Completed)),
      sent, statuses, raised)
  }

  /** Whether the call gets as far as `client.Log`. */
  predicate ReachesLog(l: Logger, stream: Utils.StreamName, env: CallEnv) {
    && env.pid == l.birthPid
    && (l.connected || (GateOpen(l, env.now) && env.opens))
    && Utils.Scribify(stream).Success?
  }

  /** The retry after a failed `Log`, run only when the error report did
      not raise. */
  function AfterSendFailure(l: Logger, env: CallEnv, e: Entry): (r: Outcome)
    requires l.connected
  {
    var s := Status(true, SendFailed);
    var closed := Close(l).(lastConnect := env.failedAt);
    if Raises(l.policy, s) then Finish(closed, [e], [s], Some(ReportRaised))
    else
      var again := MaybeReconnect(closed, env.retryAt, env.reopens);
      Finish(again.logger, [e], [s] + again.statuses, if again.raised then Some(ReportRaised) else None)
  }

  /** `_log_line_no_size_limit(stream, line)`. */
  function LogNoSizeLimit(l: Logger, stream: Utils.StreamName, line: Bytes, env: CallEnv): (r: Outcome)
    ensures r.logger.retryInterval == l.retryInterval && r.logger.birthPid == l.birthPid
    ensures r.logger.policy == l.policy
    ensures r.logger.metrics == Metrics.SampledRequest(l.metrics,
      if r.raised.Some? then Metrics.Raised else Metrics.Completed)
    // the fork check comes before any connect or send
    ensures env.pid != l.birthPid ==>
      && r.raised == Some(NotForkSafe) && r.sent == [] && r.statuses == []
      && r.logger.connected == l.connected && r.logger.lastConnect == l.lastConnect
    // at most one entry, carrying the scribified category and the line plus a newline
    ensures |r.sent| <= 1
    ensures |r.sent| == 1 <==> ReachesLog(l, stream, env)
    ensures |r.sent| == 1 ==> r.sent[0] == Entry(Utils.Scribify(stream).value, line + [NL])
    // a disconnected logger inside its retry interval does nothing
    ensures env.pid == l.birthPid && !l.connected && !GateOpen(l, env.now) ==>
      && r.sent == [] && r.statuses == [] && r.raised == None
      && r.logger.connected == l.connected && r.logger.lastConnect == l.lastConnect
    // the only reports are errors about connecting and sending
    ensures forall i :: 0 <= i < |r.statuses| ==>
      r.statuses[i].isError && r.statuses[i].kind in {ConnectFailed, SendFailed}
  {
    if env.pid != l.birthPid then Finish(l, [], [], Some(NotForkSafe))
    else
      var c := if l.connected then Reconnect(l, [], false) else MaybeReconnect(l, env.now, env.opens);
      if c.raised then Finish(c.logger, [], c.statuses, Some(ReportRaised))
      else if !c.logger.connected then Finish(c.logger, [], c.statuses, None)
      else
        match Utils.Scribify(stream)
        case Failure(_) => Finish(c.logger, [], c.statuses, Some(UndecodableStream))
        case Success(category) =>
          var e := Entry(category, line + [NL]);
          if env.sendOk then Finish(c.logger, [e], [], None)
          else AfterSendFailure(c.logger, env, e)
  }

  /** A call that reaches a `Log` that returns leaves the logger connected
      with its retry clock untouched, and reports nothing. */
  lemma DeliveredCall(l: Logger, stream: Utils.StreamName, line: Bytes, env: CallEnv)
    requires ReachesLog(l, stream, env) && env.sendOk
    ensures var r := LogNoSizeLimit(l, stream, line, env);
      && r.sent == [Entry(Utils.Scribify(stream).value, line + [NL])]
      && r.statuses == [] && r.raised == None
      && r.logger.connected && r.logger.lastConnect == l.lastConnect
  {
  }

  /** When `Log` raises, an error is reported first; the logger is then
      disconnected with `last_connect_time` taken after the failure, even
      when the report raised, and the reconnect attempt runs only when it
      did not. */
  lemma FailedSendCloses(l: Logger, stream: Utils.StreamName, line: Bytes, env: CallEnv)
    requires ReachesLog(l, stream, env) && !env.sendOk
    ensures var r := LogNoSizeLimit(l, stream, line, env);
      var closed := l.(connected := false, lastConnect := env.failedAt);
      && r.statuses[0] == Status(true, SendFailed)
      && (l.policy.raisesOnError ==>
            && !r.logger.connected && r.logger.lastConnect == env.failedAt
            && r.statuses == [Status(true, SendFailed)]
            && r.raised == Some(ReportRaised))
      && (!l.policy.raisesOnError ==>
            && r.logger.connected == (GateOpen(closed, env.retryAt) && env.reopens)
            && r.logger.lastConnect ==
                 (if GateOpen(closed, env.retryAt) && !env.reopens then env.retryAt else env.failedAt)
            && r.raised == None)
  {
    var c := if l.connected then Reconnect(l, [], false) else MaybeReconnect(l, env.now, env.opens);
    assert c.logger.(metrics := l.metrics) == l.(connected := true);
  }

  /** Reconnect attempts are spaced: once an open has failed at `t`, the
      next call attempts another only when its clock is more than the
      retry interval past `t`. */
  lemma FailedOpenHoldsOff(l: Logger, stream: Utils.StreamName, line: Bytes, env: CallEnv, env2: CallEnv)
    requires env.pid == l.birthPid && !l.connected && GateOpen(l, env.now) && !env.opens
    requires !l.policy.raisesOnError
    ensures var l2 := LogNoSizeLimit(l, stream, line, env).logger;
      && !l2.connected && l2.lastConnect == env.now
      && (env2.pid == l2.birthPid && env2.now - env.now <= l.retryInterval ==>
            LogNoSizeLimit(l2, stream, line, env2).sent == [])
  {
  }

  /** `close()` followed by a call: the connection is reopened only once
      the retry interval since the last recorded attempt has passed. */
  lemma CloseThenLog(l: Logger, stream: Utils.StreamName, line: Bytes, env: CallEnv)
    requires env.pid == l.birthPid && Utils.Scribify(stream).Success?
    ensures |LogNoSizeLimit(Close(l), stream, line, env).sent| == 1 <==> GateOpen(l, env.now) && env.opens
  {
  }

  /** The entries the middle tier may hand to `Log`, in order: the line
      (when its call gets that far), then the report (when its call does). */
  predicate InWarnedOrder(sent: seq<Entry>, stream: Utils.StreamName, b: Bytes, report: Bytes) {
    var big := Entry(LargeLineStream, report + [NL]);
    || sent == [] || sent == [big]
    || (Utils.Scribify(stream).Success? &&
        var e := Entry(Utils.Scribify(stream).value, b + [NL]);
        sent == [e] || sent == [e, big])
  }

  /** The middle tier of `log_line`: the line `b` is sent, then the
      encoded `report` goes to the large-line stream `big`, then an
      informational status is reported. `encodes` says whether the report
      can be serialised at all; when it cannot, the call raises right after
      the line's own send. */
  function LogWarned(l: Logger, stream: Utils.StreamName, b: Bytes, big: Utils.StreamName, report: Bytes,
                     encodes: bool, first: CallEnv, second: CallEnv): (r: Outcome)
    requires Utils.Scribify(big) == Success(LargeLineStream)
    ensures InWarnedOrder(r.sent, stream, b, report)
    ensures Status(true, LineDropped) !in r.statuses
    ensures r.raised.None? ==> |r.statuses| > 0 && r.statuses[|r.statuses| - 1] == Status(false, LineLarge)
    ensures !encodes ==>
      && r.raised.Some? && |r.sent| <= 1
      && forall i :: 0 <= i < |r.statuses| ==> r.statuses[i].kind in {ConnectFailed, SendFailed}
  {
    var a := LogNoSizeLimit(l, stream, b, first);
    if a.raised.Some? then a
    else if !encodes then
      WarnedOrderOf(stream, b, report, a.sent, []);
      assert a.sent + [] == a.sent;
      Outcome(a.logger, a.sent, a.statuses, Some(ReportUnencodable))
    else
      var c := LogNoSizeLimit(a.logger, big, report, second);
      var sent := a.sent + c.sent;
      WarnedOrderOf(stream, b, report, a.sent, c.sent);
      NoDropIn(a.statuses, c.statuses);
      if c.raised.Some? then Outcome(c.logger, sent, a.statuses + c.statuses, c.raised)
      else
        var s := Status(false, LineLarge);
        Outcome(c.logger, sent, a.statuses + c.statuses + [s],
          if Raises(l.policy, s) then Some(ReportRaised) else None)
  }

  /** The line's entry, if sent, followed by the report's, if sent, are in
      the middle tier's order. */
  lemma WarnedOrderOf(stream: Utils.StreamName, b: Bytes, report: Bytes, x: seq<Entry>, y: seq<Entry>)
    requires |x| <= 1
    requires |x| == 1 ==> Utils.Scribify(stream).Success? && x[0] == Entry(Utils.Scribify(stream).value, b + [NL])
    requires |y| <= 1 && (|y| == 1 ==> y[0] == Entry(LargeLineStream, report + [NL]))
    ensures InWarnedOrder(x + y, stream, b, report)
  {
    if |x| == 1 && |y| == 1 {
      assert x + y == [x[0], y[0]];
    }
  }

  /** Connect and send errors are never drop reports. */
  lemma NoDropIn(xs: seq<Status>, ys: seq<Status>)
    requires forall i :: 0 <= i < |xs| ==> xs[i].kind in {ConnectFailed, SendFailed}
    requires forall i :: 0 <= i < |ys| ==> ys[i].kind in {ConnectFailed, SendFailed}
    ensures Status(true, LineDropped) !in xs + ys
  {
  }

  /** `log_line(stream, line)`; `stack` is the call stack's text,
      `json` the encoder of the oversize report, `first` and `second` the
      environments of the one or two `_log_line_no_size_limit` calls. */
  function LogLine(l: Logger, stream: Utils.StreamName, line: Line, route: Routing, stack: string,
                   json: OversizeReport -> Bytes, first: CallEnv, second: CallEnv): (r: Outcome)
    ensures !ToScribe(route, stream) ==> r == Outcome(l, [], [], None)
    ensures ToScribe(route, stream) && ScribeTierOf(|WireBytes(line)|) == TooLong ==>
      && r.logger == l && r.sent == [] && r.statuses == [Status(true, LineDropped)]
      && r.raised == Some(if l.policy.raisesOnError then ReportRaised else LineTooLong)
    ensures Status(true, LineDropped) in r.statuses ==> ScribeTierOf(|WireBytes(line)|) == TooLong
    ensures ScribeTierOf(|WireBytes(line)|) == Plain ==>
      && |r.sent| <= 1
      && (|r.sent| == 1 ==>
            Utils.Scribify(stream).Success? &&
            r.sent[0] == Entry(Utils.Scribify(stream).value, WireBytes(line) + [NL]))
    ensures ScribeTierOf(|WireBytes(line)|) == Warned ==>
      InWarnedOrder(r.sent, stream, WireBytes(line), json(Oversize(stream, RawLine(WireBytes(line)), stack)))
    // a report simplejson cannot serialise ends the call once the line itself has been handled
    ensures
      (&& ToScribe(route, stream) && ScribeTierOf(|WireBytes(line)|) == Warned
       && !Serialisable(Oversize(stream, RawLine(WireBytes(line)), stack))) ==>
      && r.raised.Some? && |r.sent| <= 1
      && forall i :: 0 <= i < |r.statuses| ==> r.statuses[i].kind in {ConnectFailed, SendFailed}
  {
    if !ToScribe(route, stream) then Outcome(l, [], [], None)
    else
      var b := WireBytes(line);
      match ScribeTierOf(|b|)
      case Plain => LogNoSizeLimit(l, stream, b, first)
      case Warned =>
        LargeLineCategory();
        var report := Oversize(stream, RawLine(b), stack);
        LogWarned(l, stream, b, Utils.Text(LargeLineStream), json(report), Serialisable(report), first, second)
      case TooLong =>
        var s := Status(true, LineDropped);
        Outcome(l, [], [s], Some(if Raises(l.policy, s) then ReportRaised else LineTooLong))
  }

  lemma LargeLineCategory()
    ensures Utils.Scribify(Utils.Text(LargeLineStream)) == Success(LargeLineStream)
  {
    LimitsInMebibytes();
    Utils.SanitizeFixesCategories(LargeLineStream);
  }

  /** A call that goes through every step unhindered. */
  predicate Smooth(l: Logger, env: CallEnv) {
    env.pid == l.birthPid && env.sendOk && (l.connected || (GateOpen(l, env.now) && env.opens))
  }

  /** A line within the warning size is sent once and nothing is
      reported. */
  lemma PlainLineSentOnce(l: Logger, stream: Utils.StreamName, line: Line, route: Routing, stack: string,
                          json: OversizeReport -> Bytes, first: CallEnv, second: CallEnv)
    requires ToScribe(route, stream) && Utils.Scribify(stream).Success?
    requires |WireBytes(line)| <= WarningScribeLineSize
    requires Smooth(l, first)
    ensures var r := LogLine(l, stream, line, route, stack, json, first, second);
      && r.sent == [Entry(Utils.Scribify(stream).value, WireBytes(line) + [NL])]
      && r.statuses == [] && r.raised == None
  {
    DeliveredCall(l, stream, WireBytes(line), first);
  }

  /** A line above the warning size and within the maximum is sent, then
      its report goes to the large-line stream, then one informational
      status is reported. */
  lemma WarnedLineSentWithReport(l: Logger, stream: Utils.StreamName, line: Line, route: Routing, stack: string,
                                 json: OversizeReport -> Bytes, first: CallEnv, second: CallEnv)
    requires ToScribe(route, stream) && Utils.Scribify(stream).Success?
    requires WarningScribeLineSize < |WireBytes(line)| <= MaxScribeLineSize
    requires Smooth(l, first) && second.pid == l.birthPid && second.sendOk
    requires !l.policy.raisesOnInfo
    requires Serialisable(Oversize(stream, RawLine(WireBytes(line)), stack))
    ensures var r := LogLine(l, stream, line, route, stack, json, first, second);
      var b := WireBytes(line);
      && r.sent == [Entry(Utils.Scribify(stream).value, b + [NL]),
                    Entry(LargeLineStream, json(Oversize(stream, RawLine(b), stack)) + [NL])]
      && r.statuses == [Status(false, LineLarge)]
      && r.raised == None
  {
    var b := WireBytes(line);
    DeliveredCall(l, stream, b, first);
    var a := LogNoSizeLimit(l, stream, b, first);
    LargeLineCategory();
    DeliveredCall(a.logger, Utils.Text(LargeLineStream), json(Oversize(stream, RawLine(b), stack)), second);
    var c := LogNoSizeLimit(a.logger, Utils.Text(LargeLineStream), json(Oversize(stream, RawLine(b), stack)), second);
    assert a.sent + c.sent == [a.sent[0], c.sent[0]];
  }

  /** A line above the warning size whose thousandth byte starts a
      multi-byte character is sent, but its report cannot be serialised:
      the call raises `UnicodeDecodeError` with nothing on the large-line
      stream and no status reported. */
  lemma WarnedCutPreviewRaises(l: Logger, stream: Utils.StreamName, line: Line, route: Routing, stack: string,
                               json: OversizeReport -> Bytes, first: CallEnv, second: CallEnv)
    requires ToScribe(route, stream) && Utils.Scribify(stream).Success?
    requires WarningScribeLineSize < |WireBytes(line)| <= MaxScribeLineSize
    requires WireBytes(line)[PreviewSize - 1] >= 0xC0
    requires Smooth(l, first)
    ensures var r := LogLine(l, stream, line, route, stack, json, first, second);
      && r.sent == [Entry(Utils.Scribify(stream).value, WireBytes(line) + [NL])]
      && r.statuses == [] && r.raised == Some(ReportUnencodable)
  {
    LimitsInMebibytes();
    CutPreviewNotSerialisable(stream, WireBytes(line), stack);
    DeliveredCall(l, stream, WireBytes(line), first);
  }

  /** A forked child never reaches the transport: the first call raises
      `ScribeIsNotForkSafeError` and nothing is sent, whatever the line. */
  lemma ForkedChildSendsNothing(l: Logger, stream: Utils.StreamName, line: Line, route: Routing, stack: string,
                                json: OversizeReport -> Bytes, first: CallEnv, second: CallEnv)
    requires ToScribe(route, stream) && |WireBytes(line)| <= MaxScribeLineSize
    requires first.pid != l.birthPid
    ensures var r := LogLine(l, stream, line, route, stack, json, first, second);
      r.sent == [] && r.raised == Some(NotForkSafe) && r.logger.connected == l.connected
  {
  }
}
