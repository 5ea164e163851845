/** The vocabulary the two write-path clients of `clog/loggers.py` share:
    the line-size limits, the lines themselves, the backend routing map,
    the `report_status` callback and the oversize-line report. */
module LineSize {
  import opened Common
  import Utf8
  import Utils

  /** `MAX_SCRIBE_LINE_SIZE_IN_BYTES`: 50 MiB. */
  const MaxScribeLineSize: nat := 52428800
  /** `WARNING_SCRIBE_LINE_SIZE_IN_BYTES`: 5 MiB. */
  const WarningScribeLineSize: nat := 5242880
  /** `MAX_MONK_LINE_SIZE_IN_BYTES`: 5 MiB. */
  const MaxMonkLineSize: nat := 5242880
  /** `WHO_CLOG_LARGE_LINE_STREAM`, where oversize lines are reported. */
  const LargeLineStream: string := "tmp_who_clog_large_line"

  /** The limits are the mebibyte multiples the comments announce. */
  lemma LimitsInMebibytes()
    ensures MaxScribeLineSize == 50 * 1024 * 1024
    ensures WarningScribeLineSize == 5 * 1024 * 1024 == MaxMonkLineSize
    ensures Utils.IsCategory(LargeLineStream)
  {
  }

  /** A log line as a caller hands it over: text or bytes. */
  datatype Line = TextLine(text: string) | RawLine(bytes: Bytes)

  /** `len(line)`: characters for text, bytes for bytes. */
  function Length(line: Line): nat {
    match line
    case TextLine(t) => |t|
    case RawLine(b) => |b|
  }

  /** `line[:n]`, in the line's own units. */
  function Take(line: Line, n: nat): (r: Line)
    ensures r.TextLine? == line.TextLine?
    ensures Length(r) == Min(n, Length(line))
    ensures r.TextLine? ==> StartsWith(line.text, r.text)
    ensures r.RawLine? ==> StartsWith(line.bytes, r.bytes)
  {
    match line
    case TextLine(t) => TextLine(if n < |t| then t[..n] else t)
    case RawLine(b) => RawLine(if n < |b| then b[..n] else b)
  }

  /** The Scribe client logs text as its UTF-8 encoding. */
  function WireBytes(line: Line): (r: Bytes)
    ensures line.RawLine? ==> r == line.bytes
    ensures line.TextLine? ==> Utf8.Decode(r) == Some(line.text)
  {
    match line
    case TextLine(t) => Utf8.DecodeEncode(t); Utf8.Encode(t)
    case RawLine(b) => b
  }

  /** `stream_backend_map` and `config.default_backend`. */
  datatype Routing = Routing(backends: map<Utils.StreamName, string>, default: string)

  /** `stream_backend_map.get(stream, config.default_backend)`. */
  function BackendOf(route: Routing, stream: Utils.StreamName): string {
    if stream in route.backends then route.backends[stream] else route.default
  }

  predicate ToScribe(route: Routing, stream: Utils.StreamName) {
    BackendOf(route, stream) in {"scribe", "dual"}
  }

  predicate ToMonk(route: Routing, stream: Utils.StreamName) {
    BackendOf(route, stream) in {"monk", "dual"}
  }

  /** A `dual` stream goes to both clients, and every stream goes to at
      least one of them exactly when its backend is one of the three
      names the configuration documents. */
  lemma RoutingCoversBackends(route: Routing, stream: Utils.StreamName)
    ensures ToScribe(route, stream) && ToMonk(route, stream) <==> BackendOf(route, stream) == "dual"
    ensures ToScribe(route, stream) || ToMonk(route, stream) <==>
      BackendOf(route, stream) in {"scribe", "monk", "dual"}
  {
  }

  /** Which message a `report_status` call carries. */
  datatype StatusKind =
    | ConnectFailed   // 'yelp_clog failed to connect to scribe server'
    | SendFailed      // 'yelp_clog failed to log to scribe server ...' / 'Exception while sending to monk'
    | MonkTimedOut    // 'Monk took too long to respond'
    | LineLarge       // 'The log line size is larger than ...'
    | LineDropped     // 'The log line is dropped ...'

  /** One `report_status(is_error, msg)` call. */
  datatype Status = Status(isError: bool, kind: StatusKind)

  /** How the installed `report_status` behaves: whether it raises on
      error reports and on informational ones. */
  datatype ReportPolicy = ReportPolicy(raisesOnError: bool, raisesOnInfo: bool)

  predicate Raises(policy: ReportPolicy, status: Status) {
    if status.isError then policy.raisesOnError else policy.raisesOnInfo
  }

  /** The record `create_oversize_message_report` serialises. */
  datatype OversizeReport = OversizeReport(
    stream: Utils.StreamName,
    lineSize: nat,
    linePreview: Line,
    traceback: string)

  const PreviewSize: nat := 1000
  const TracebackSize: nat := 5000

  /** `create_oversize_message_report(stream, line)` before its JSON
      encoding; `stack` is the text of the current call stack. */
  function Oversize(stream: Utils.StreamName, line: Line, stack: string): (r: OversizeReport)
    ensures r.stream == stream
    ensures r.lineSize == Length(line)
    ensures r.linePreview.TextLine? == line.TextLine?
    ensures Length(r.linePreview) == Min(PreviewSize, Length(line))
    ensures r.linePreview.TextLine? ==> StartsWith(line.text, r.linePreview.text)
    ensures r.linePreview.RawLine? ==> StartsWith(line.bytes, r.linePreview.bytes)
    ensures |r.traceback| <= TracebackSize && StartsWith(stack, r.traceback)
    ensures |stack| <= TracebackSize ==> r.traceback == stack
  {
    OversizeReport(stream, Length(line), Take(line, PreviewSize),
      if |stack| <= TracebackSize then stack else stack[..TracebackSize])
  }

  /** Whether `json.dumps` can serialise the report: simplejson decodes
      each byte string in it as UTF-8 and raises `UnicodeDecodeError` when
      one is not, so a byte preview that cuts a multi-byte character short
      cannot be serialised. Text always can. */
  predicate Serialisable(rep: OversizeReport) {
    && (rep.stream.Text? || Utf8.Decode(rep.stream.bytes).Some?)
    && (rep.linePreview.TextLine? || Utf8.Decode(rep.linePreview.bytes).Some?)
  }

  /** A byte line whose thousandth byte starts a multi-byte character
      gives a report that cannot be serialised; a text preview and a
      valid UTF-8 byte preview under a text stream name always can. */
  lemma CutPreviewNotSerialisable(stream: Utils.StreamName, b: Bytes, stack: string)
    requires |b| >= PreviewSize && b[PreviewSize - 1] >= 0xC0
    ensures !Serialisable(Oversize(stream, RawLine(b), stack))
  {
    var p := Oversize(stream, RawLine(b), stack).linePreview.bytes;
    assert p[|p| - 1] == b[PreviewSize - 1];
    Utf8.EndsInLeadUndecodable(p);
  }

  lemma TextReportSerialisable(name: string, line: Line, stack: string)
    requires line.TextLine? || Utf8.Decode(Take(line, PreviewSize).bytes).Some?
    ensures Serialisable(Oversize(Utils.Text(name), line, stack))
  {
  }

  /** The test-suite's report for a warning-sized line: the preview is the
      first thousand bytes, the size is the whole line's. */
  lemma OversizeOfLongLine(stream: Utils.StreamName, b: Bytes, stack: string)
    requires |b| > WarningScribeLineSize
    ensures var r := Oversize(stream, RawLine(b), stack);
      r.lineSize == |b| && r.linePreview == RawLine(b[..PreviewSize])
  {
  }

  /** The three ways `ScribeLogger.log_line` treats a line of a given
      encoded size. */
  datatype ScribeTier = Plain | Warned | TooLong

  function ScribeTierOf(size: nat): (r: ScribeTier)
    ensures r == Plain <==> size <= WarningScribeLineSize
    ensures r == Warned <==> WarningScribeLineSize < size <= MaxScribeLineSize
    ensures r == TooLong <==> MaxScribeLineSize < size
  {
    if size <= WarningScribeLineSize then Plain
    else if size <= MaxScribeLineSize then Warned
    else TooLong
  }
}
