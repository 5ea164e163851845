# yelp_clog, modelled in Dafny

A model of the core of `yelp_clog`, Yelp's client library for the Scribe
log pipeline, with proofs about it. It covers both paths the library
serves.

**The write path.**
- `ScribeLogger` sends Thrift `Log` calls over a connection it reopens at
  most once per retry interval.
- `MonkLogger` sends to a Monk producer and backs off after timeouts.
- Both clients share the same size tiers and backend routing, and report
  oversize lines the same way.
- The module-level registry of default loggers in `clog/global_state.py`.
- The sampling metrics reporter.
- `scribify`, which turns a stream name into a Scribe category.

**The read path.**
- The tail-protocol handshake and its send loop.
- The exact-size receive loop.
- `StreamTailer._sockiter`, which turns arbitrarily chunked socket reads
  into newline-terminated records and handles end of stream, socket errors
  and reconnects.
- The local chunk-file listing.
- The `get` command of a date-range read.
- The S3 archive: key templates, `S3_KEY_RE`, `get_logs`, `get_log`,
  `complete_for`, `streams`, and `ScribeReader`'s merge of a local cache
  with several buckets.

Everything is pure. Each client, the tailer, the sampler and the registry
is a state record stepped by transition functions. Sockets, clocks,
process ids, transports, the Monk producer and boto are replaced by
inputs: each call is given the readings and outcomes it meets, for
example whether `transport.open()` succeeds or what a `recv` returns.
`report_status` is modelled as a policy saying whether it raises on
error reports and on informational ones. Each call returns the statuses
it reported, in order.

Modules, one per file:

| module | file | what it models |
|---|---|---|
| `Common` | `common.dfy` | bytes, `Option`/`Result`, prefix/suffix and flattening helpers |
| `Fragments` | `fragments.dfy` | `split` and `join` on a separator |
| `Decimal` | `decimal.dfy` | `str(int)`, zero padding, reading digits back |
| `Dates` | `dates.dfy` | `datetime.date` validity |
| `Ordering` | `ordering.dfy` | string order and `sorted(..., key=...)` |
| `Utf8` | `utf8.dfy` | strict UTF-8 encode/decode |
| `Utils` | `scribify.dfy` | `scribify`, `open_compressed_file` dispatch |
| `Handshake` | `handshake.dfy` | `construct_conn_msg`, `connect`, `_recv_bytes` |
| `Tailer` | `tailer.dfy` | `StreamTailer.__init__` check, `_sockiter`, reconnect |
| `Archive` | `archive.dfy` | `_split_bucket_and_prefix`, `get_bucket`, `chunk_filenames`, the `get` command |
| `Metrics` | `metrics.dfy` | `MetricsReporter` |
| `LineSize` | `line_size.dfy` | size constants, routing, statuses, oversize report |
| `ScribeClient` | `scribe_client.dfy` | `ScribeLogger` |
| `MonkClient` | `monk_client.dfy` | `MonkLogger` |
| `Registry` | `registry.dfy` | `clog/global_state.py` |
| `S3Keys` | `s3_keys.dfy` | path templates and `S3_KEY_RE` |
| `ScribeNet` | `scribe_net.dfy` | `ScribeS3`, `ScribeS3File`, `ScribeReader` |

Where the code and its surrounding prose disagree, the model follows the
code. There are three such places.
- `sampled_request` resets the counter only after the wrapped work
  returns. A request whose work raises keeps its count.
- `reset_default_loggers` is documented as rebuilding the loggers on the
  next write. The model proves this holds after a reset. It also proves
  that a first build that fails because `log_dir` is unset leaves an
  empty list, which is never rebuilt.
- `ScribeFile`'s docstring says files compare equal by date, stream and
  aggregator, but no `__eq__` or `__hash__` is defined. The sets in
  `logs_for_date` therefore compare objects by identity, and chunks carry
  an `id` standing for that identity. As a consequence `not_in_s3`
  removes nothing: every object `get_logs` returns is new
  (`ScribeNet.NotInS3KeepsCache`).

`\w` and `\d` in the two regular expressions are taken in their ASCII
sense.

simplejson decodes byte strings as UTF-8 when it serialises them. So an
oversize byte line whose thousandth byte starts a multi-byte character
has a report that cannot be serialised, and `log_line` raises
`UnicodeDecodeError`. For Scribe this happens after the line itself was
sent (`ScribeClient.WarnedCutPreviewRaises`). For Monk it happens before
anything is sent (`MonkClient.OversizeCutPreviewRaises`).

## Model

| member | source | states |
|---|---|---|
| Handshake.ConnMsg | clog/readers.py:419-431 | the handshake starts with the stream name, is longer than it, and ends in a newline |
| Handshake.ConnMsgIsJoin | clog/readers.py:419-431 | the handshake is the stream, the line count only when it is truthy, then one `k=v` per option, joined by single spaces, then `\n` |
| Handshake.ConnMsgFields | clog/readers.py:419-431 | splitting the handshake at spaces gives back the stream, the line count and the options in order, when no field holds a space or newline |
| Handshake.ConnMsgExamples | clog/readers.py:419-431 | `streamA\n` for no or zero lines, `streamA 2\n` for two |
| Handshake.ConnMsgWithOptions | clog/readers.py:429-430 | options are appended as ` k=v` in order |
| Handshake.SendLoop | clog/readers.py:325-328 | the bytes sent so far are a prefix of the message, each send moves at least one byte, the loop completes exactly when the pieces add up to the whole message, and it always completes when every send is accepted |
| Handshake.RecvExact | clog/readers.py:333-345 | returns exactly the first `size` bytes when the peer delivers that many, and nothing when it closes earlier, however the reads are chunked |
| Handshake.FirstReachable | clog/readers.py:305-317 | the first address whose connect succeeds, with all earlier ones failing |
| Handshake.Connect | clog/readers.py:304-328 | a socket is kept exactly when some address connects, and it is the first such address; no reachable address raises the setup error; a completed handshake puts exactly the UTF-8 message on the wire |
| Tailer.NewTailer | clog/readers.py:294-297 | asking for last lines without the Kafka tailer raises; otherwise automatic recovery is kept only when no lines are asked for |
| Tailer.Reconnect | clog/readers.py:351-358 | the callback runs once, if one is installed, whatever it raises; a new connection is attempted only when the socket is unset; records and carry are untouched |
| Tailer.Step | clog/readers.py:360-392 | an empty first read raises the setup error or ends, by `raise_on_start`, and drops the socket; a later empty read ends the iteration unless recovery is on, the tailer is running and no SIGTERM arrived, in which case the callback runs and it reconnects; a socket error propagates iff recovery is off, and with recovery the callback runs and a socket still held is reused; reads without bytes emit nothing |
| Tailer.EndOfStream | clog/readers.py:364-378 | an empty read drops the socket; on the first read it raises the setup error or ends, by `raise_on_start`; later it ends unless recovery is on and the tailer is running, in which case the callback runs and the tailer reconnects; no record is emitted and the carry is kept |
| Tailer.FrameKeepsFramed | clog/readers.py:379-387 | after each chunk the records are the newline-terminated fragments of all bytes so far, and the carry is the unterminated rest |
| Tailer.RunKeepsFramed | clog/readers.py:360-392 | the framing invariant holds across reads, end-of-stream reconnects and socket-error reconnects |
| Tailer.IterateFrames | clog/readers.py:347-397 | however iteration ends, the records are exactly the complete fragments of everything received, each with the newline suffix iff `add_newlines`, and the last fragment is never emitted |
| Tailer.CleanRunConsumesAll | clog/readers.py:360-387 | reads that each bring bytes are all consumed and the generator stays pending |
| Tailer.ChunkingIrrelevant | clog/readers.py:379-387 | the records depend only on the bytes received, not on how they were chunked |
| Archive.SplitBucketAndPrefix | clog/readers.py:450-455 | no slash gives `(s, None)`; otherwise bucket, slash and prefix rebuild `s`, and the bucket has no slash |
| Archive.SplitAtFirstSlash | clog/readers.py:450-455 | the split is at the first slash: every later slash stays in the prefix |
| Archive.GetBucket | clog/readers.py:471-475 | the `tmp` entry iff the stream starts with `tmp_`, else `standard`; a missing entry is the `KeyError` |
| Archive.MatchesSpec | clog/readers.py:99-108 | a path is collected iff it is a walked file whose name the pattern dates to the reader's day |
| Archive.ChunkFilenames | clog/readers.py:92-113 | `[]` for an empty stream name; `NoLogDataError` iff nothing matched and `fail_on_missing`; otherwise the matches in sorted order |
| Archive.ChunkFilenamesSpec | clog/readers.py:92-113 | the result is the unique sorted list of exactly the walked files dated to the day |
| Archive.ParseDateText | clog/readers.py:619-625 | a rendered `YYYY-MM-DD` reads back as the same date |
| Archive.GetCommand | clog/readers.py:619-625 | the command starts with `get ` and is 26 characters longer than the stream name |
| Archive.GetCommandIsJoin | clog/readers.py:619-625 | the command is `get`, the stream and the two ISO dates joined by single spaces |
| Archive.PathJoin | clog/readers.py:96 | `os.path.join`: an absolute second part replaces the first; otherwise the first, then a separator, then the second, where the separator is one `/` exactly when the first part is non-empty and lacks a trailing slash, and nothing otherwise |
| Archive.PathJoinOneSlash | clog/readers.py:108 | a relative file name joined onto a non-empty directory is preceded by the directory and exactly the one slash it needs: the directory itself when it already ends in `/`, the directory plus `/` otherwise |
| Archive.GetCommandFields | clog/readers.py:619-625 | splitting the `get` command at spaces gives `get`, the stream and the two dates, which read back as the given dates |
| Utils.Sanitize | clog/utils.py:30-38 | same length; every allowed character kept, every other one replaced by one `_`; the result is a category |
| Utils.Scribify | clog/utils.py:33-40 | the result is a category; text keeps its length; bytes succeed iff they are valid UTF-8 |
| Utils.SanitizeFixesCategories | clog/utils.py:38 | a category name is left unchanged |
| Utils.ScribifyIdempotent | clog/utils.py:33-40 | scribifying twice is scribifying once |
| Utils.ScribifyEncodedText | clog/utils.py:36-37 | bytes are decoded before substitution: the encoding of a text scribifies as the text |
| Utils.ScribifyExamples | clog/utils.py:33-40 | `this\0is a-test\n\n` becomes `this_is_a-test__`, and `intérnaçionalization` becomes `int_rna_ionalization` |
| Utils.OpenerFor | clog/utils.py:43-50 | bz2 iff the name ends in `.bz2`, gzip iff it ends in `.gz` and not `.bz2`, plain otherwise |
| Utf8.DecodeEncode | clog/loggers.py:234-235 | decoding the UTF-8 encoding of a text gives the text back |
| Utf8.EncodeDecode | clog/utils.py:36-37 | bytes that decode re-encode to the same bytes |
| Metrics.NewReporter | clog/metrics_reporter.py:76-96 | a new reporter keeps its rate; the sampling counter, the Monk exception and timeout totals and the work count start at 0, and nothing has been sent |
| Metrics.SampledRequest | clog/metrics_reporter.py:98-114 | the counter is incremented before deciding; the work runs once; a sampled request whose work completes emits the counter and resets it to 0; otherwise the counter keeps its incremented value |
| Metrics.MonkException | clog/metrics_reporter.py:116-119 | adds one to the exception counter and changes nothing else |
| Metrics.MonkTimeout | clog/metrics_reporter.py:121-124 | adds one to the timeout counter and changes nothing else |
| Metrics.CounterStaysBelowRate | clog/metrics_reporter.py:101-112 | with a positive rate and completed work, the counter stays in `[0, rate)` between requests |
| Metrics.RequestsWithRate | clog/metrics_reporter.py:101-112 | from a fresh reporter, `n` completed requests emit `rate` once per full cycle and leave `n % rate` behind |
| Metrics.RequestsWithRateZero | clog/metrics_reporter.py:104 | with rate 0 nothing is emitted and the counter grows by one per request |
| Metrics.SamplingExample | clog/metrics_reporter.py:98-114 | with rate 3 the counter goes 1, 2, then emits 3 and resets |
| LineSize.LimitsInMebibytes | clog/loggers.py:91-95 | the limits are 50 MiB and 5 MiB, and the large-line stream name is a valid category |
| LineSize.WireBytes | clog/loggers.py:233-235 | text is sent as its UTF-8 encoding, which decodes back to it; bytes are sent as they are |
| LineSize.RoutingCoversBackends | clog/loggers.py:229-231 | a stream goes to both clients iff its backend is `dual`, and to at least one iff its backend is `scribe`, `monk` or `dual` |
| LineSize.Oversize | clog/loggers.py:119-126 | the report names the stream and the whole line's size; the preview is the line's first 1000 units; the traceback is a prefix of the stack text of at most 5000 characters |
| LineSize.OversizeOfLongLine | clog/loggers.py:119-126 | for a warning-sized line the preview is exactly its first 1000 bytes |
| LineSize.CutPreviewNotSerialisable | clog/loggers.py:119-126 | a byte line whose thousandth byte starts a multi-byte character yields a report simplejson cannot serialise |
| LineSize.TextReportSerialisable | clog/loggers.py:119-126 | a report on a text stream name serialises when the preview is text or valid UTF-8 bytes |
| LineSize.ScribeTierOf | clog/loggers.py:238-259 | a line is sent plainly iff it is at most 5242880 bytes, with a report iff it is above that and at most 52428800, and dropped iff it is longer |
| ScribeClient.NewLogger | clog/loggers.py:165-176 | a new logger is disconnected with last connect time 0 and remembers the creating process |
| ScribeClient.Close | clog/loggers.py:261-263 | closing only clears `connected` |
| ScribeClient.MaybeReconnect | clog/loggers.py:178-192 | an open is tried only when strictly more than the retry interval has passed; success connects and keeps the clock; failure records the time and reports one error; nothing else changes |
| ScribeClient.LogNoSizeLimit | clog/loggers.py:194-221 | a forked process raises before any connect or send; at most one entry is sent, exactly when the call gets that far, with category `scribify(stream)` and the line plus a newline; a closed gate does nothing; only connect and send errors are reported; one sampled request is counted |
| ScribeClient.DeliveredCall | clog/loggers.py:205-208 | a send that returns leaves the logger connected, its clock unchanged, nothing reported |
| ScribeClient.FailedSendCloses | clog/loggers.py:209-221 | a failed send reports an error, then always disconnects and records the failure time; the reconnect runs only when the report did not raise |
| ScribeClient.FailedOpenHoldsOff | clog/loggers.py:186-192 | after a failed open at `t`, no open is tried until more than the retry interval past `t` |
| ScribeClient.CloseThenLog | clog/loggers.py:202-205 | after `close()`, a line goes out iff the gate is open and the open succeeds |
| ScribeClient.LogWarned | clog/loggers.py:240-250 | the middle tier sends the line, then the report to the large-line stream, in that order when both go out, then reports one non-error status; a report that cannot be serialised raises after the line's own call, with no report sent and no status of its own; it never reports a dropped line |
| ScribeClient.LogLine | clog/loggers.py:223-259 | unrouted streams do nothing; too-long lines send nothing, report one error and raise; only too-long lines report a drop; plain lines send at most the line; warned lines follow the middle tier's order, and raise after at most the line when their report cannot be serialised |
| ScribeClient.LargeLineCategory | clog/loggers.py:95 | the large-line stream scribifies to itself |
| ScribeClient.PlainLineSentOnce | clog/loggers.py:238-239 | a small line on a healthy connection is sent once as `line + \n` and nothing is reported |
| ScribeClient.WarnedLineSentWithReport | clog/loggers.py:240-250 | a warning-sized line whose report serialises is sent, then its report, then one non-error status |
| ScribeClient.WarnedCutPreviewRaises | clog/loggers.py:240-246 | a warning-sized line whose thousandth byte starts a multi-byte character is sent, then the call raises `UnicodeDecodeError` with no report sent and nothing reported |
| ScribeClient.ForkedChildSendsNothing | clog/loggers.py:200-201 | a forked child raises the fork error and sends nothing |
| MonkClient.NewLogger | clog/loggers.py:269-285 | the last timeout starts one back-off window before creation |
| MonkClient.LogNoSizeLimit | clog/loggers.py:308-327 | inside the back-off window nothing happens; otherwise one message is sent under `prefix + stream`; only a reported timeout moves the window; timeouts and other failures report one error each and bump their own counter |
| MonkClient.FirstSendAllowed | clog/loggers.py:276-278 | a fresh logger's first send is not suppressed |
| MonkClient.TimeoutOpensWindow | clog/loggers.py:309-321 | after a timeout at `t`, calls in `[t, t + backoff)` are skipped and later ones go out |
| MonkClient.FailureKeepsWindow | clog/loggers.py:322-327 | other failures leave the back-off window as it was |
| MonkClient.LogLine | clog/loggers.py:287-305 | routing and scribify come first; a line within 5242880 is handed unchanged to `_log_line_no_size_limit`, so it goes out once under the prefixed topic unless a back-off window is open; a longer one is never sent; when its report serialises, the report goes to the large-line stream with one non-error status, no exception and a higher exception counter; when it does not, the call raises before anything is sent and the logger is unchanged |
| MonkClient.PlainLineSentOnce | clog/loggers.py:294-295 | a line within 5242880, outside the back-off window and accepted by the producer, is sent once as it is, with no status, no exception and the window unchanged |
| MonkClient.OversizeLineReported | clog/loggers.py:296-305 | an oversize text line, or byte line with a valid UTF-8 preview, sends exactly the report and reports exactly one non-error status |
| MonkClient.OversizeCutPreviewRaises | clog/loggers.py:296-299 | an oversize byte line whose thousandth byte starts a multi-byte character raises `UnicodeDecodeError` with nothing sent, nothing reported and the logger unchanged |
| Registry.CheckCreate | clog/global_state.py:12-33 | an existing list, even an empty one, is kept; otherwise the file logger comes first when enabled and the Scribe logger last unless disabled; an unset `log_dir` raises and leaves `[]` |
| Registry.CheckCreateIdempotent | clog/global_state.py:17 | a second check changes nothing |
| Registry.Reset | clog/global_state.py:35-49 | every logger is closed, in list order, and the registry is unset |
| Registry.FanOut | clog/global_state.py:61-62 | each logger gets the same stream and line in list order; the first one that raises ends the loop |
| Registry.LogLine | clog/global_state.py:52-62 | builds the registry if needed, then fans out; a configuration error raises before any logger is called |
| Registry.ResetThenLogRebuilds | clog/global_state.py:35-62 | after a reset the next line rebuilds the loggers from the configuration |
| Registry.FailedBuildSticks | clog/global_state.py:20-25 | after a failed first build, later lines go nowhere and nothing more is raised |
| Registry.BothLoggersInOrder | clog/global_state.py:23-33 | with both backends enabled, a line reaches the file logger and then the Scribe logger |
| S3Keys.FormatInt | clog/scribe_net.py:126 | the `=0Nd` rendering is exactly max(N, len(str(n))) characters and reads back as the number, with the sign first |
| S3Keys.BasePath | clog/scribe_net.py:126 | the base path is the prefix's text and the stream, a slash, and 10 more characters; `None` renders as `None` |
| S3Keys.ChunkLeaf | clog/scribe_net.py:127 | a chunk's leaf ends in `.gz` |
| S3Keys.ChunkUnderBase | clog/scribe_net.py:126-127 | every chunk name starts with its day's base path |
| S3Keys.ChunkKeyLayout | clog/scribe_net.py:126-127 | a chunk name is prefix, stream, four-, two- and two-digit date fields and the leaf, each after a slash |
| S3Keys.MatchAt | clog/scribe_net.py:28 | a match with `.*` ending at `i` has a slash at `i`, no newline before it, and slashes around the date fields |
| S3Keys.LastMatch | clog/scribe_net.py:28 | the greedy `.*` takes the last position at which the rest matches |
| S3Keys.ParseKey | clog/scribe_net.py:28 | a name matches iff the rest of the expression matches after some slash |
| S3Keys.ParseChunkKey | clog/scribe_net.py:28 | a chunk name built with a slash-terminated prefix reads back as the stream and date it was built from |
| S3Keys.UnsetPrefixKeysRejected | clog/scribe_net.py:126-128 | with no prefix the name starts with `None` and no match exists |
| S3Keys.SlashFreePrefixRejected | clog/scribe_net.py:126-128 | with any key prefix that holds no slash, the stream runs into the prefix and no chunk name matches |
| ScribeNet.FirstUnopenedListed | clog/scribe_net.py:178-185 | the error `Collect` raises belongs to a listed key under the base path that is not skipped |
| ScribeNet.NormalizePrefix | clog/scribe_net.py:138-140 | a non-empty prefix gets a trailing slash iff it lacks one; `None` and the empty prefix are kept |
| ScribeNet.NormalizeIdempotent | clog/scribe_net.py:138-140 | normalising twice is normalising once |
| ScribeNet.RemoveFirst | clog/scribe_net.py:153 | no occurrence leaves the name as it is; otherwise exactly the first occurrence, wherever it lies, is cut out |
| ScribeNet.RStrip | clog/scribe_net.py:153 | a prefix of the input that does not end in the character, with only that character cut off |
| ScribeNet.Streams | clog/scribe_net.py:149-155 | the set holds exactly the stream names taken from the listed entries |
| ScribeNet.StreamOfCommonPrefix | clog/scribe_net.py:149-155 | the entry `{prefix}{stream}/`, or `logs/{stream}/` when no prefix is set, yields the stream; with a non-empty prefix these are the entries the listing returns |
| ScribeNet.RootListingStreams | clog/scribe_net.py:151-153 | with no prefix the bucket root is listed and the first `logs/` anywhere in an entry is cut out: `logs/` gives the empty name, `other/` gives `other`, `mylogs/` gives `my` |
| ScribeNet.OpenS3File | clog/scribe_net.py:79-89 | a name the expression rejects raises `BadKeyError`; a matched date that does not exist raises; otherwise the file carries the key, the stream and the date matched |
| ScribeNet.OpenChunkKey | clog/scribe_net.py:79-89 | a stored chunk's key opens as a file of the stream and day it was stored for |
| ScribeNet.ChunksKept | clog/scribe_net.py:178-186 | a chunk name, which ends in `.gz`, is never skipped |
| ScribeNet.MarkersSkipped | clog/scribe_net.py:178-186 | a day's `COMPLETE` marker is always skipped |
| ScribeNet.GzKept | clog/scribe_net.py:178-186 | a name ending in `.gz` ends in none of the skipped suffixes |
| ScribeNet.Collect | clog/scribe_net.py:177-186 | the listing raises iff a kept key under the base path fails to open, and the error raised is that of the first such key in listing order; otherwise the result holds exactly the opened kept keys |
| ScribeNet.FirstUnopenedUnique | clog/scribe_net.py:178-185 | one kept key is the first that fails to open, so the error `Collect` raises is determined by the listing |
| ScribeNet.GetLogs | clog/scribe_net.py:169-186 | every returned file's key is listed, kept and under the day's base path; the call raises iff a kept key under that path fails to open, with the first such key's error |
| ScribeNet.StoredChunkListed | clog/scribe_net.py:169-186 | every chunk stored for the stream and day is among the returned files |
| ScribeNet.GetKey | clog/scribe_net.py:203 | the key of that name when the bucket has one, none otherwise |
| ScribeNet.CompleteFor | clog/scribe_net.py:157-167 | true iff the bucket holds the day's `COMPLETE` key |
| ScribeNet.GetLog | clog/scribe_net.py:188-205 | `None` iff no key has the chunk's name; a returned file is the one `ScribeS3File` opens for a key of that name; an error raised is the one opening such a key raises; and when every key of that name opens, the call does not raise |
| ScribeNet.GetLogFindsStoredChunk | clog/scribe_net.py:188-205 | a stored chunk is found again with its stream and day |
| ScribeNet.Union | clog/scribe_net.py:243-246 | an object is in the union iff it was in the set, or it is in the other and not already in the set; the union holds the objects of both; it holds each object once when both sides do |
| ScribeNet.Minus | clog/scribe_net.py:241-242 | an object is kept iff it is not among the other set's objects; a set that holds each object once still does |
| ScribeNet.Gather | clog/scribe_net.py:234-245 | `None` connections are skipped; the call raises iff some connection's `get_logs` raises, and then with the error of the first connection that does; with `not_in_s3` the result is the cached chunks no bucket holds; otherwise the result holds every cached chunk and every object any listing returned, and nothing else; each object occurs once when it does so in the cache and in every listing |
| ScribeNet.FirstFailureUnique | clog/scribe_net.py:238-241 | one connection is the first to raise, so the "first raising connection's error" in the loop's contracts names a single error |
| ScribeNet.GatherMinus | clog/scribe_net.py:238-243 | with `not_in_s3`: the call raises iff some connection's `get_logs` raises, and then with the error of the first connection that does; otherwise a chunk is in the result iff it is in the input and no successful listing holds its object; each object stays once when it was once in the input |
| ScribeNet.GatherUnion | clog/scribe_net.py:238-245 | without `not_in_s3`: the call raises iff some connection's `get_logs` raises, and then with the error of the first connection that does; otherwise the result keeps every input chunk, holds every listed object, and holds nothing that is neither in the input nor in some listing; each object occurs once when it does so in the input and in every listing |
| ScribeNet.LogsForDate | clog/scribe_net.py:232-246 | raises iff some connection's listing raised, with the first such connection's error, the one the gathering loop raises; otherwise the gathered chunks sorted by modification time, holding every cached chunk and every listed object without `not_in_s3`, and each object once when the cache and the listings do |
| ScribeNet.NotInS3KeepsCache | clog/scribe_net.py:232-246 | with fresh objects from each listing, `not_in_s3` returns every cached chunk |
| ScribeNet.GetForDate | clog/scribe_net.py:248-251 | one read per chunk in the sorted order, each followed by one yield; when the cache and every listing hold each object once, as the sets do, no object is read twice; a listing error ends the generator at its first step, and the error is the first raising connection's, the one `logs_for_date` raises |

## Left out

- Sockets, Thrift, the Monk producer and boto are left out. Their outcomes are inputs to each call: `getaddrinfo` results, `connect`, `send` and `recv` replies, `transport.open()`, `client.Log`, `send_messages`, bucket listings and `get_key`.
- `time.sleep(2)` and the `print` in the tailer's reconnect loop are left out. The loop is bounded by the connect attempts it is given.
- The SIGTERM handler is not installed. A signal is modelled as a flag on the read during which it arrives, which clears `_running`.
- `StreamTailer.close()` closes the socket but does not clear `_fd`. It and `_recv_plaintext` are not modelled separately.
- `NetCLogStreamReader._ContextManager` only constructs a tailer with fixed arguments and is not modelled. Neither are the S3 date-range and list context managers.
- `find_tail_host`, `get_settings`, `get_s3_info`, `get_ecosystem` and `read_s3_keypair` read files or pick a random host, and are left out.
- `chunk_filenames` matching: `_chunkfile_pat` is reduced to a parser passed in as a function. `os.walk` is an input listing of directories and files.
- `CLogStreamReader.__iter__` and `CLogStreamIterator` read file contents and are left out.
- Threading is not modelled. The `RLock`s of `ScribeLogger` and `MetricsReporter` do nothing in a single thread.
- Latency timing and the microsecond conversion in `sampled_request` are left out, as are the metric names and dimensions. Only the counters are modelled.
- Clocks are integers. `MonkLogger`'s back-off is kept in the unit of `monk_timeout_backoff_ms`, which matches Python 3's true division by 1000. Under Python 2, which the module also supports, `monk_timeout_backoff_ms / 1000` is integer division and floors to whole seconds; a back-off under 1000 ms is then no back-off at all. That Python 2 reading is not modelled.
- The JSON text `create_oversize_message_report` produces for a report that serialises is a function parameter. Whether the report serialises at all is modelled (`LineSize.Serialisable`). Its `traceback.format_stack()` text is a string parameter.
- `_maybe_reconnect` catches only `TTransportException`. Any other exception from `transport.open()` leaves `log_line` uncaught; `CallEnv.opens` is a success flag and cannot express that exception.
- A Python text line holding a lone surrogate makes `line.encode('UTF-8')` raise. Dafny's `char` is a Unicode scalar value and cannot hold a surrogate, so that exception is not modelled.
- The text of each `report_status` message is reduced to its kind.
- Exceptions raised by the reconnect callback are swallowed. Its printed traceback is left out.
- `MonkLogger.close`, `FileLogger`, `GZipFileLogger`, `MockLogger` and `StdoutLogger` are left out. The registry names which logger each call goes to, not what that logger writes.
- Registry.Reset: a `close()` that raises would stop the loop and leave the registry set. The model takes every close as returning.
- `ScribeS3File.read`, `read_orig` and `size` are left out, because zlib decompression and key contents are not modelled. `get_for_date` records which chunk is read at each step.
- The fs connection's `get_logs` (`ScribeFS`) is not part of this model. Its result is an input sequence of chunks.
- ScribeNet.LogsForDate: Python sorts the set in its iteration order and the sort is stable, so the order among chunks modified at the same instant is unspecified. The model's order is one admissible choice, and its contract states sortedness and the multiset of chunks, not the order among ties.
- ScribeNet.GetLogs returns a sequence in listing order, not a set. Each element is a distinct object, so no element is lost compared with the source's set.
- S3Keys.ParseKey covers `\w` and `\d` in their ASCII sense only, not Python's Unicode classes.
- S3Keys.ParseChunkKey is proved for a prefix that ends in a slash and has no newline, a non-empty stream of `[-_a-zA-Z0-9]`, and an aggregator with no slash or newline. Other names are not covered.
