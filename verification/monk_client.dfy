/** `MonkLogger` of `clog/loggers.py`: lines go to the Monk producer under
    a configured stream prefix; lines above 5 MiB are replaced by a report
    on the large-line stream; after a send times out, sends are skipped for
    a back-off window. The producer, the clock and `report_status` are
    inputs. Times are integers in one unit (milliseconds), the unit of
    `monk_timeout_backoff_ms`. */
module MonkClient {
  import opened Common
  import Metrics
  import Utils
  import opened LineSize

  /** The logger's state: `stream_prefix`, `timeout_backoff_s`,
      `last_timeout`, how its `report_status` behaves, and its metrics. */
  datatype Logger = Logger(
    prefix: string,
    backoff: int,
    lastTimeout: int,
    policy: ReportPolicy,
    metrics: Metrics.Reporter)

  /** `MonkLogger(client_id)` created at time `now`. */
  function NewLogger(prefix: string, backoff: int, now: int, policy: ReportPolicy, sampleRate: int): (r: Logger)
    ensures r.prefix == prefix && r.backoff == backoff && r.policy == policy
    ensures r.lastTimeout + r.backoff == now
    ensures r.metrics == Metrics.NewReporter(sampleRate)
  {
    Logger(prefix, backoff, now - backoff, policy, Metrics.NewReporter(sampleRate))
  }

  /** What `producer.send_messages` does with one message. */
  datatype SendOutcome = Accepted | TimedOut | Failed

  /** What one `_log_line_no_size_limit` call meets: the clock at the
      back-off check, the producer's answer, and the clock read after a
      timeout. */
  datatype CallEnv = CallEnv(now: int, outcome: SendOutcome, timedOutAt: int)

  /** One `send_messages(topic, [message], None)`. */
  datatype Message = Message(topic: string, payload: Line)

  /** The exceptions that leave `log_line`: a raising `report_status`, an
      undecodable byte stream name, and the `UnicodeDecodeError` of an
      oversize report simplejson cannot serialise. */
  datatype Failure = ReportRaised | UndecodableStream | ReportUnencodable

  /** The effect of one call: the logger afterwards, the messages handed
      to the producer, the statuses reported, and the exception that left
      the call, if any. */
  datatype Outcome = Outcome(logger: Logger, sent: seq<Message>, statuses: seq<Status>, raised: Option<Failure>)

  /** Inside the back-off window after a timeout. */
  predicate Suppressed(l: Logger, now: int) {
    now < l.lastTimeout + l.backoff
  }

  /** `_log_line_no_size_limit(stream, line)`, `stream` already scribified. */
  function LogNoSizeLimit(l: Logger, stream: string, line: Line, env: CallEnv): (r: Outcome)
    ensures r.logger.prefix == l.prefix && r.logger.backoff == l.backoff && r.logger.policy == l.policy
    // nothing at all happens inside the back-off window
    ensures Suppressed(l, env.now) ==> r == Outcome(l, [], [], None)
    // otherwise the message goes out once, under the prefixed topic
    ensures !Suppressed(l, env.now) ==> r.sent == [Message(l.prefix + stream, line)]
    // only a timeout that was reported without raising moves the window
    ensures r.logger.lastTimeout == (if !Suppressed(l, env.now) && env.outcome == TimedOut
      && !l.policy.raisesOnError then env.timedOutAt else l.lastTimeout)
    ensures r.statuses == (if Suppressed(l, env.now) || env.outcome == Accepted then []
      else [Status(true, if env.outcome == TimedOut then MonkTimedOut else SendFailed)])
    ensures r.raised.Some? <==> |r.statuses| == 1 && l.policy.raisesOnError
    ensures r.raised.Some? ==> r.raised == Some(ReportRaised)
    // the error counters move once per reported failure
    ensures r.logger.metrics.monkTimeouts == l.metrics.monkTimeouts +
      (if r.statuses == [Status(true, MonkTimedOut)] && r.raised.None? then 1 else 0)
    ensures r.logger.metrics.monkExceptions == l.metrics.monkExceptions +
      (if r.statuses == [Status(true, SendFailed)] && r.raised.None? then 1 else 0)
  {
    if Suppressed(l, env.now) then Outcome(l, [], [], None)
    else
      var sent := [Message(l.prefix + stream, line)];
      match env.outcome
      case Accepted =>
        Outcome(l.(metrics := Metrics.SampledRequest(l.metrics, Metrics.Completed)), sent, [], None)
      case TimedOut =>
        var s := Status(true, MonkTimedOut);
        if Raises(l.policy, s) then
          Outcome(l.(metrics := Metrics.SampledRequest(l.metrics, Metrics.Raised)), sent, [s], Some(ReportRaised))
        else
          Outcome(l.(lastTimeout := env.timedOutAt,
                     metrics := Metrics.MonkTimeout(Metrics.SampledRequest(l.metrics, Metrics.Completed))),
            sent, [s], None)
      case Failed =>
        var s := Status(true, SendFailed);
        if Raises(l.policy, s) then
          Outcome(l.(metrics := Metrics.SampledRequest(l.metrics, Metrics.Raised)), sent, [s], Some(ReportRaised))
        else
          Outcome(l.(metrics := Metrics.MonkException(Metrics.SampledRequest(l.metrics, Metrics.Completed))),
            sent, [s], None)
  }

  /** A freshly created logger is not inside any back-off window. */
  lemma FirstSendAllowed(prefix: string, backoff: int, now: int, policy: ReportPolicy, rate: int,
                         stream: string, line: Line, env: CallEnv)
    requires env.now >= now
    ensures LogNoSizeLimit(NewLogger(prefix, backoff, now, policy, rate), stream, line, env).sent ==
      [Message(prefix + stream, line)]
  {
  }

  /** After a timeout at `t`, every call whose clock is in `[t, t + backoff)`
      is skipped, and the first call at or after `t + backoff` goes out. */
  lemma TimeoutOpensWindow(l: Logger, stream: string, line: Line, env: CallEnv,
                           stream2: string, line2: Line, env2: CallEnv)
    requires !Suppressed(l, env.now) && env.outcome == TimedOut && !l.policy.raisesOnError
    ensures var l2 := LogNoSizeLimit(l, stream, line, env).logger;
      && (env.timedOutAt <= env2.now < env.timedOutAt + l.backoff ==>
            LogNoSizeLimit(l2, stream2, line2, env2).sent == [])
      && (env2.now >= env.timedOutAt + l.backoff ==>
            LogNoSizeLimit(l2, stream2, line2, env2).sent == [Message(l.prefix + stream2, line2)])
  {
  }

  /** Other failures do not open a window: the next call goes out as it
      would have. */
  lemma FailureKeepsWindow(l: Logger, stream: string, line: Line, env: CallEnv, env2: CallEnv)
    requires env.outcome == Failed
    ensures var l2 := LogNoSizeLimit(l, stream, line, env).logger;
      Suppressed(l2, env2.now) == Suppressed(l, env2.now)
  {
  }

  /** `log_line(stream, line)`; `stack` is the call stack's text and
      `json` the encoder of the oversize report. */
  function LogLine(l: Logger, stream: Utils.StreamName, line: Line, route: Routing, stack: string,
                   json: OversizeReport -> Bytes, env: CallEnv): (r: Outcome)
    ensures !ToMonk(route, stream) ==> r == Outcome(l, [], [], None)
    ensures ToMonk(route, stream) && Utils.Scribify(stream).Failure? ==>
      r == Outcome(l, [], [], Some(UndecodableStream))
    // the line itself is sent only when it is within the limit
    ensures forall i :: 0 <= i < |r.sent| ==>
      && Utils.Scribify(stream).Success?
      && (if Length(line) <= MaxMonkLineSize
          then r.sent[i] == Message(l.prefix + Utils.Scribify(stream).value, line)
          else r.sent[i] == Message(l.prefix + LargeLineStream,
            RawLine(json(Oversize(Utils.Text(Utils.Scribify(stream).value), line, stack)))))
    ensures |r.sent| <= 1
    // a line within the limit is handed to `_log_line_no_size_limit` as it is,
    // so it goes out once unless a back-off window is open
    ensures ToMonk(route, stream) && Utils.Scribify(stream).Success? && Length(line) <= MaxMonkLineSize ==>
      r == LogNoSizeLimit(l, Utils.Scribify(stream).value, line, env)
    ensures
      (&& ToMonk(route, stream) && Utils.Scribify(stream).Success? && Length(line) <= MaxMonkLineSize
       && !Suppressed(l, env.now)) ==>
      r.sent == [Message(l.prefix + Utils.Scribify(stream).value, line)]
    // an oversize line whose report cannot be serialised raises before anything is sent
    ensures
      (&& ToMonk(route, stream) && Utils.Scribify(stream).Success? && Length(line) > MaxMonkLineSize
       && !Serialisable(Oversize(Utils.Text(Utils.Scribify(stream).value), line, stack))) ==>
      r == Outcome(l, [], [], Some(ReportUnencodable))
    // otherwise an oversize line raises nothing of its own: one informational status
    ensures
      (&& ToMonk(route, stream) && Utils.Scribify(stream).Success? && Length(line) > MaxMonkLineSize
       && Serialisable(Oversize(Utils.Text(Utils.Scribify(stream).value), line, stack))
       && !l.policy.raisesOnInfo && !l.policy.raisesOnError) ==>
      && r.raised.None?
      && |r.statuses| > 0 && r.statuses[|r.statuses| - 1] == Status(false, LineLarge)
      && r.logger.metrics.monkExceptions > l.metrics.monkExceptions
  {
    if !ToMonk(route, stream) then Outcome(l, [], [], None)
    else
      match Utils.Scribify(stream)
      case Failure(_) => Outcome(l, [], [], Some(UndecodableStream))
      case Success(name) =>
        if Length(line) <= MaxMonkLineSize then LogNoSizeLimit(l, name, line, env)
        else if !Serialisable(Oversize(Utils.Text(name), line, stack)) then
          Outcome(l, [], [], Some(ReportUnencodable))
        else
          var report := RawLine(json(Oversize(Utils.Text(name), line, stack)));
          var a := LogNoSizeLimit(l, LargeLineStream, report, env);
          if a.raised.Some? then a
          else
            var s := Status(false, LineLarge);
            if Raises(l.policy, s) then Outcome(a.logger, a.sent, a.statuses + [s], Some(ReportRaised))
            else
              Outcome(a.logger.(metrics := Metrics.MonkException(a.logger.metrics)), a.sent, a.statuses + [s], None)
  }

  /** A line within the limit, outside any back-off window and accepted by
      the producer, is sent once under the prefixed topic, with nothing
      reported and nothing raised. */
  lemma PlainLineSentOnce(l: Logger, stream: Utils.StreamName, line: Line, route: Routing, stack: string,
                          json: OversizeReport -> Bytes, env: CallEnv)
    requires ToMonk(route, stream) && Utils.Scribify(stream).Success? && Length(line) <= MaxMonkLineSize
    requires !Suppressed(l, env.now) && env.outcome == Accepted
    ensures var r := LogLine(l, stream, line, route, stack, json, env);
      && r.sent == [Message(l.prefix + Utils.Scribify(stream).value, line)]
      && r.statuses == [] && r.raised.None?
      && r.logger.lastTimeout == l.lastTimeout
  {
  }

  /** The test-suite's oversize case: exactly one message, the report, on
      the prefixed large-line stream, and one status, not an error. */
  lemma OversizeLineReported(l: Logger, stream: Utils.StreamName, line: Line, route: Routing, stack: string,
                             json: OversizeReport -> Bytes, env: CallEnv)
    requires ToMonk(route, stream) && Utils.Scribify(stream).Success? && Length(line) > MaxMonkLineSize
    requires !Suppressed(l, env.now) && env.outcome == Accepted && !l.policy.raisesOnInfo
    requires line.TextLine? || Utf8.Decode(Take(line, PreviewSize).bytes).Some?
    ensures var r := LogLine(l, stream, line, route, stack, json, env);
      && r.sent == [Message(l.prefix + LargeLineStream,
           RawLine(json(Oversize(Utils.Text(Utils.Scribify(stream).value), line, stack))))]
      && r.statuses == [Status(false, LineLarge)]
      && r.raised.None?
      && r.logger.metrics.monkExceptions == l.metrics.monkExceptions + 1
  {
    TextReportSerialisable(Utils.Scribify(stream).value, line, stack);
  }

  /** An oversize byte line whose thousandth byte starts a multi-byte
      character is neither sent nor reported: building its report raises
      `UnicodeDecodeError` and the logger is left as it was. */
  lemma OversizeCutPreviewRaises(l: Logger, stream: Utils.StreamName, b: Bytes, route: Routing, stack: string,
                                 json: OversizeReport -> Bytes, env: CallEnv)
    requires ToMonk(route, stream) && Utils.Scribify(stream).Success?
    requires |b| > MaxMonkLineSize && b[PreviewSize - 1] >= 0xC0
    ensures LogLine(l, stream, RawLine(b), route, stack, json, env) == Outcome(l, [], [], Some(ReportUnencodable))
  {
    CutPreviewNotSerialisable(Utils.Text(Utils.Scribify(stream).value), b, stack);
  }
}
