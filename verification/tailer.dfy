/** `StreamTailer` of `clog/readers.py`: the generator `_sockiter` that turns
    arbitrarily chunked socket reads into newline-terminated records, with
    its end-of-stream and socket-error transitions and the reconnect loop.
    Sockets are replaced by two oracles: what each `recv` does, and what
    each `connect()` call meets. */
module Tailer {
  import opened Common
  import Fragments
  import Handshake

  /** The constructor arguments `_sockiter` depends on, after `__init__`. */
  datatype Settings = Settings(
    stream: string,
    lines: Option<int>,
    opts: seq<(string, string)>,
    addNewlines: bool,
    automagicRecovery: bool,
    raiseOnStart: bool,
    hasCallback: bool)

  /** `Exception("Last n lines can be only used with new kafka tailer")`. */
  datatype InitError = LinesNeedKafka

  /** The `lines` check at the end of `StreamTailer.__init__`: asking for
      the last n lines needs the Kafka-backed tailer and turns automatic
      recovery off. */
  function NewTailer(stream: string, lines: Option<int>, opts: seq<(string, string)>,
                     addNewlines: bool, automagicRecovery: bool, raiseOnStart: bool,
                     hasCallback: bool, useKafka: bool): (r: Result<Settings, InitError>)
    ensures r.Failure? <==> Handshake.LinesGiven(lines) && !useKafka
    ensures r.Success? ==> r.value.automagicRecovery == (automagicRecovery && !Handshake.LinesGiven(lines))
    ensures r.Success? ==>
      && r.value.stream == stream && r.value.lines == lines && r.value.opts == opts
      && r.value.addNewlines == addNewlines && r.value.raiseOnStart == raiseOnStart
      && r.value.hasCallback == hasCallback
  {
    if Handshake.LinesGiven(lines) && !useKafka then Failure(LinesNeedKafka)
    else Success(Settings(stream, lines, opts, addNewlines,
                          automagicRecovery && !Handshake.LinesGiven(lines),
                          raiseOnStart, hasCallback))
  }

  /** What one `recv(bufsize)` did. `Recv` with no bytes is end of stream.
      `sigterm` says the SIGTERM handler ran while the call was blocked, so
      `_running` is already false when it returns. */
  datatype Read = Recv(bytes: Bytes, sigterm: bool) | RecvError(sigterm: bool)

  /** The tailer's state as `_sockiter` sees it: whether `_fd` is set,
      `_running`, `at_start`, the carry list `buffered`; plus what it has
      produced so far (the yielded records and the number of reconnect
      callback calls) and the `connect()` environments still to come. */
  datatype Session = Session(
    fd: bool,
    running: bool,
    atStart: bool,
    buffered: seq<Bytes>,
    records: seq<Bytes>,
    callbacks: nat,
    dials: seq<Handshake.DialEnv>)

  datatype SetupReason = NoData | ConnectFailed

  /** How iteration over the tailer ends.
      - `Ended`: the generator returns.
      - `SetupFailed`: `StreamTailerSetupError` escapes.
      - `SocketErrorRaised`: a `socket.error` escapes.
      - `Pending`: the oracles ran out while the tailer still waits. */
  datatype Outcome = Ended | SetupFailed(reason: SetupReason) | SocketErrorRaised | Pending

  datatype Transition = Next(s: Session) | Stop(s: Session, outcome: Outcome)

  /** `newline_char`. */
  function Newline(st: Settings): Bytes {
    if st.addNewlines then [NL] else []
  }

  /** Every part with `nl` appended. */
  function Suffixed(parts: seq<Bytes>, nl: Bytes): (r: seq<Bytes>)
    ensures |r| == |parts|
    ensures forall i :: 0 <= i < |parts| ==> r[i] == parts[i] + nl
  {
    seq(|parts|, i requires 0 <= i < |parts| => parts[i] + nl)
  }

  lemma SuffixedAppend(a: seq<Bytes>, b: seq<Bytes>, nl: Bytes)
    ensures Suffixed(a + b, nl) == Suffixed(a, nl) + Suffixed(b, nl)
  {
  }

  /** `_call_reconnect_callback()` then `while not self._fd: self.connect()`.
      Whatever the callback raises is swallowed, so only its being called
      is recorded. A `socket.error` from `connect()` (a failed lookup, or a
      failed handshake after `_fd` was set) is caught and, when `_fd` is
      still unset, retried; `StreamTailerSetupError` escapes. */
  function Reconnect(s: Session, st: Settings): (r: Transition)
    ensures r.s.records == s.records && r.s.buffered == s.buffered
    ensures r.s.atStart == s.atStart && r.s.running == s.running
    ensures r.s.callbacks == s.callbacks + (if st.hasCallback then 1 else 0)
    ensures s.fd ==> r == Next(s.(callbacks := r.s.callbacks))
    ensures r.Next? ==> r.s.fd
    ensures r.Stop? ==> r.outcome in {SetupFailed(ConnectFailed), Pending}
  {
    ReconnectLoop(s.(callbacks := s.callbacks + if st.hasCallback then 1 else 0), st)
  }

  function ReconnectLoop(s: Session, st: Settings): (r: Transition)
    ensures r.s.records == s.records && r.s.buffered == s.buffered
    ensures r.s.atStart == s.atStart && r.s.running == s.running
    ensures r.s.callbacks == s.callbacks
    ensures s.fd ==> r == Next(s)
    ensures r.Next? ==> r.s.fd
    ensures r.Stop? ==> r.outcome in {SetupFailed(ConnectFailed), Pending}
    decreases |s.dials|
  {
    if s.fd then Next(s)
    else if |s.dials| == 0 then Stop(s, Pending)
    else
      var s' := s.(dials := s.dials[1..]);
      match Handshake.Connect(st.stream, st.lines, st.opts, s.dials[0])
      case ResolveFailed => ReconnectLoop(s', st)
      case NoAddress => Stop(s', SetupFailed(ConnectFailed))
      case _ => Next(s'.(fd := true))
  }

  /** The framing of one received chunk: when it holds a newline, the
      carry, the chunk's first fragment and each further complete fragment
      are yielded, and the chunk's last fragment becomes the carry;
      otherwise the chunk joins the carry. */
  function Frame(s: Session, dat: Bytes, nl: Bytes): Session {
    var lines := Fragments.Split(dat, NL);
    if |lines| > 1 then
      s.(records := s.records + [Flatten(s.buffered) + lines[0] + nl] + Suffixed(lines[1..|lines| - 1], nl),
         buffered := [lines[|lines| - 1]])
    else
      s.(buffered := s.buffered + lines)
  }

  /** The bytes a read contributes to the stream. */
  function ReadData(read: Read): Bytes {
    if read.Recv? then read.bytes else []
  }

  /** Framing no bytes yields nothing and leaves the carry's contents. */
  lemma FrameEmpty(s: Session, nl: Bytes)
    ensures Frame(s, [], nl).records == s.records
    ensures Flatten(Frame(s, [], nl).buffered) == Flatten(s.buffered)
  {
    assert Fragments.Split([], NL) == [[]];
    assert Flatten(s.buffered + [[]]) == Flatten(s.buffered) + [];
  }

  /** One pass of the `while self._running` loop of `_sockiter`. */
  function Step(s: Session, st: Settings, read: Read): (r: Transition)
    // end of stream on the first read
    ensures read.Recv? && |read.bytes| == 0 && s.atStart ==>
      r.Stop? && !r.s.fd && r.outcome == (if st.raiseOnStart then SetupFailed(NoData) else Ended)
    // end of stream later: reconnect exactly when recovery is on and the tailer still runs
    ensures read.Recv? && |read.bytes| == 0 && !s.atStart ==>
      ((r.Stop? && r.outcome == Ended) <==> !(st.automagicRecovery && s.running && !read.sigterm))
    ensures read.Recv? && |read.bytes| == 0 && !s.atStart && st.automagicRecovery && s.running && !read.sigterm ==>
      r.s.callbacks == s.callbacks + (if st.hasCallback then 1 else 0)
    // socket error: raised without recovery; with it, the callback runs and
    // a kept socket is reused without any new connection
    ensures read.RecvError? ==> ((r.Stop? && r.outcome == SocketErrorRaised) <==> !st.automagicRecovery)
    ensures read.RecvError? && st.automagicRecovery ==>
      r.s.callbacks == s.callbacks + (if st.hasCallback then 1 else 0)
    ensures read.RecvError? && st.automagicRecovery && s.fd ==>
      r.Next? && r.s.fd && r.s.dials == s.dials
    // a read that brings no bytes yields nothing and keeps the carry's contents
    ensures ReadData(read) == [] ==>
      r.s.records == s.records && Flatten(r.s.buffered) == Flatten(s.buffered)
    ensures r.s.running == (s.running && !read.sigterm)
  {
    var s1 := s.(running := s.running && !read.sigterm);
    match read
    case Recv(dat, _) =>
      if |dat| == 0 then EndOfStream(s1, st)
      else Next(Frame(s1.(atStart := false), dat, Newline(st)))
    case RecvError(_) =>
      if st.automagicRecovery then Reconnect(s1, st) else Stop(s1, SocketErrorRaised)
  }

  /** The empty `recv` of `_sockiter`: the socket is dropped; on the first
      read this is a setup failure or the end, later it reconnects when
      recovery is on and the tailer still runs, and ends otherwise. */
  function EndOfStream(s1: Session, st: Settings): (r: Transition)
    ensures s1.atStart ==>
      r.Stop? && !r.s.fd && r.outcome == (if st.raiseOnStart then SetupFailed(NoData) else Ended)
    ensures !s1.atStart ==> ((r.Stop? && r.outcome == Ended) <==> !(st.automagicRecovery && s1.running))
    ensures !s1.atStart && st.automagicRecovery && s1.running ==>
      r.s.callbacks == s1.callbacks + (if st.hasCallback then 1 else 0)
    ensures r.s.records == s1.records && Flatten(r.s.buffered) == Flatten(s1.buffered)
    ensures r.s.running == s1.running
  {
    var s2 := s1.(fd := false);
    if s2.atStart then Stop(s2, if st.raiseOnStart then SetupFailed(NoData) else Ended)
    else if st.automagicRecovery && s2.running then
      match Reconnect(s2, st)
      case Next(s3) =>
        FrameEmpty(s3.(atStart := false), Newline(st));
        Next(Frame(s3.(atStart := false), [], Newline(st)))
      case stop => stop
    else Stop(s2, Ended)
  }

  /** The `while self._running` loop over the reads to come; `used` counts
      the reads it consumed. */
  datatype Run = Run(s: Session, outcome: Outcome, used: nat)

  function RunFrom(s: Session, st: Settings, recvs: seq<Read>): (r: Run)
    ensures r.used <= |recvs|
    ensures !s.running ==> r == Run(s, Ended, 0)
    decreases |recvs|
  {
    if !s.running then Run(s, Ended, 0)
    else if |recvs| == 0 then Run(s, Pending, 0)
    else
      match Step(s, st, recvs[0])
      case Stop(s', o) => Run(s', o, 1)
      case Next(s') =>
        var r := RunFrom(s', st, recvs[1..]);
        Run(r.s, r.outcome, r.used + 1)
  }

  /** A fresh tailer before `__iter__`. */
  function Fresh(dials: seq<Handshake.DialEnv>): Session {
    Session(false, true, true, [], [], 0, dials)
  }

  /** `iter(tailer)` followed by exhausting the generator: `__iter__`
      connects first (its errors escape), then `_sockiter` runs. */
  function Iterate(st: Settings, dials: seq<Handshake.DialEnv>, recvs: seq<Read>): (r: Run)
    ensures r.used <= |recvs|
  {
    var s := Fresh(dials);
    if |dials| == 0 then Run(s, Pending, 0)
    else
      var s' := s.(dials := dials[1..]);
      match Handshake.Connect(st.stream, st.lines, st.opts, dials[0])
      case Connected(_, _) => RunFrom(s'.(fd := true), st, recvs)
      case ResolveFailed => Run(s', SocketErrorRaised, 0)
      case HandshakeFailed(_) => Run(s'.(fd := true), SocketErrorRaised, 0)
      case NoAddress => Run(s', SetupFailed(ConnectFailed), 0)
  }

  /** Everything the reads brought, in order. */
  function Payload(recvs: seq<Read>): Bytes
    decreases |recvs|
  {
    if |recvs| == 0 then [] else ReadData(recvs[0]) + Payload(recvs[1..])
  }

  /** The framing invariant: the records are the newline-terminated
      fragments of everything received, each with `nl` appended, and the
      carry holds the unterminated remainder. */
  predicate Framed(s: Session, data: Bytes, nl: Bytes) {
    && s.records == Suffixed(Fragments.Completed(data, NL), nl)
    && Flatten(s.buffered) == Fragments.Carry(data, NL)
  }

  lemma FrameKeepsFramed(s: Session, data: Bytes, dat: Bytes, nl: Bytes)
    requires Framed(s, data, nl)
    ensures Framed(Frame(s, dat, nl), data + dat, nl)
  {
    var D := Fragments.Split(dat, NL);
    Fragments.ChunkStep(data, dat, NL);
    var s' := Frame(s, dat, nl);
    if |D| > 1 {
      var C := Fragments.Completed(data, NL);
      var mid := [Fragments.Carry(data, NL) + D[0]];
      SuffixedAppend(C + mid, D[1..|D| - 1], nl);
      SuffixedAppend(C, mid, nl);
      assert Suffixed(mid, nl) == [Flatten(s.buffered) + D[0] + nl];
      FlattenSingle(D[|D| - 1]);
    } else {
      Fragments.JoinSplit(dat, NL);
      assert D == [dat];
      assert s'.buffered == s.buffered + [dat];
    }
  }

  lemma StepKeepsFramed(s: Session, st: Settings, read: Read, data: Bytes)
    requires Framed(s, data, Newline(st))
    ensures Framed(Step(s, st, read).s, data + ReadData(read), Newline(st))
  {
    var nl := Newline(st);
    var r := Step(s, st, read);
    if ReadData(read) == [] {
      assert data + [] == data;
    } else {
      var s1 := s.(running := s.running && !read.sigterm, atStart := false);
      FrameKeepsFramed(s1, data, read.bytes, nl);
    }
  }

  /** The bytes of the first `used` reads: the first read's, then the rest's. */
  lemma PayloadPrefix(recvs: seq<Read>, used: nat)
    requires 0 < used <= |recvs|
    ensures Payload(recvs[..used]) == ReadData(recvs[0]) + Payload(recvs[1..][..used - 1])
  {
    var p := recvs[..used];
    assert p[0] == recvs[0];
    assert p[1..] == recvs[1..][..used - 1];
  }

  lemma {:induction false} RunKeepsFramed(s: Session, st: Settings, recvs: seq<Read>, data: Bytes)
    requires Framed(s, data, Newline(st))
    ensures var r := RunFrom(s, st, recvs);
      Framed(r.s, data + Payload(recvs[..r.used]), Newline(st))
    decreases |recvs|, 1
  {
    if !s.running || |recvs| == 0 {
      assert recvs[..0] == [];
      assert data + [] == data;
    } else if Step(s, st, recvs[0]).Stop? {
      StepKeepsFramed(s, st, recvs[0], data);
      assert recvs[..1] == [recvs[0]];
      assert Payload([recvs[0]]) == ReadData(recvs[0]) + Payload([]);
    } else {
      NextKeepsFramed(s, st, recvs, data);
    }
  }

  /** The case of `RunKeepsFramed` where the first read leaves the loop
      running. */
  lemma {:induction false} NextKeepsFramed(s: Session, st: Settings, recvs: seq<Read>, data: Bytes)
    requires Framed(s, data, Newline(st))
    requires s.running && |recvs| > 0 && Step(s, st, recvs[0]).Next?
    ensures var r := RunFrom(s, st, recvs);
      Framed(r.s, data + Payload(recvs[..r.used]), Newline(st))
    decreases |recvs|, 0
  {
    var nl := Newline(st);
    var t := Step(s, st, recvs[0]);
    var r' := RunFrom(t.s, st, recvs[1..]);
    assert RunFrom(s, st, recvs) == Run(r'.s, r'.outcome, r'.used + 1);
    StepKeepsFramed(s, st, recvs[0], data);
    var data' := data + ReadData(recvs[0]);
    RunKeepsFramed(t.s, st, recvs[1..], data');
    var rest := recvs[1..][..r'.used];
    PayloadPrefix(recvs, r'.used + 1);
    AppendAssoc(data, ReadData(recvs[0]), Payload(rest));
    FramedRebase(r'.s, data' + Payload(rest), data + Payload(recvs[..r'.used + 1]), nl);
  }

  lemma AppendAssoc(a: Bytes, b: Bytes, c: Bytes)
    ensures (a + b) + c == a + (b + c)
  {
  }

  lemma FramedRebase(x: Session, d1: Bytes, d2: Bytes, nl: Bytes)
    requires Framed(x, d1, nl) && d1 == d2
    ensures Framed(x, d2, nl)
  {
  }

  /** The framing theorem of `_sockiter`: however iteration ends, the
      records yielded are exactly the newline-terminated fragments of the
      bytes received, in order, each with `b'\n'` appended iff
      `add_newlines`; the unterminated tail is never yielded and stays in
      the carry, across reconnects. */
  lemma IterateFrames(st: Settings, dials: seq<Handshake.DialEnv>, recvs: seq<Read>)
    ensures var r := Iterate(st, dials, recvs);
      var data := Payload(recvs[..r.used]);
      && r.s.records == Suffixed(Fragments.Completed(data, NL), Newline(st))
      && Flatten(r.s.buffered) == Fragments.Carry(data, NL)
  {
    var r := Iterate(st, dials, recvs);
    var s := Fresh(dials);
    assert Fragments.Split([], NL) == [[]];
    assert Framed(s, [], Newline(st));
    if |dials| > 0 && Handshake.Connect(st.stream, st.lines, st.opts, dials[0]).Connected? {
      var s' := s.(dials := dials[1..], fd := true);
      RunKeepsFramed(s', st, recvs, []);
      assert [] + Payload(recvs[..r.used]) == Payload(recvs[..r.used]);
    } else {
      assert recvs[..0] == [];
    }
  }

  /** Reads that each bring some bytes, with no error and no signal. */
  predicate Clean(recvs: seq<Read>) {
    forall i :: 0 <= i < |recvs| ==> recvs[i].Recv? && |recvs[i].bytes| > 0 && !recvs[i].sigterm
  }

  lemma {:induction false} CleanRunConsumesAll(s: Session, st: Settings, recvs: seq<Read>)
    requires s.running && Clean(recvs)
    ensures RunFrom(s, st, recvs).used == |recvs| && RunFrom(s, st, recvs).outcome == Pending
    decreases |recvs|
  {
    if |recvs| > 0 {
      var s' := Step(s, st, recvs[0]).s;
      assert Step(s, st, recvs[0]).Next?;
      assert Clean(recvs[1..]) by {
        forall i | 0 <= i < |recvs| - 1
          ensures recvs[1..][i].Recv? && |recvs[1..][i].bytes| > 0 && !recvs[1..][i].sigterm
        {
          assert recvs[1..][i] == recvs[i + 1];
        }
      }
      CleanRunConsumesAll(s', st, recvs[1..]);
    }
  }

  /** The records depend only on the bytes received, not on how they were
      chunked into reads. */
  lemma ChunkingIrrelevant(st: Settings, dials: seq<Handshake.DialEnv>, a: seq<Read>, b: seq<Read>)
    requires Clean(a) && Clean(b) && Payload(a) == Payload(b)
    ensures Iterate(st, dials, a).s.records == Iterate(st, dials, b).s.records
  {
    IterateFrames(st, dials, a);
    IterateFrames(st, dials, b);
    var s := Fresh(dials);
    if |dials| > 0 && Handshake.Connect(st.stream, st.lines, st.opts, dials[0]).Connected? {
      var s' := s.(dials := dials[1..], fd := true);
      CleanRunConsumesAll(s', st, a);
      CleanRunConsumesAll(s', st, b);
      assert a[..|a|] == a;
      assert b[..|b|] == b;
    }
  }
}
