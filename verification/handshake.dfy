/** The client half of the tail protocol in `clog/readers.py`: the one-line
    handshake a tailer sends, the loop that pushes it through a socket whose
    `send` may accept only part of what it is given, the exact-size read
    loop, and the connect procedure that tries each resolved address. */
module Handshake {
  import opened Common
  import Fragments
  import Decimal
  import Utf8

  /** Python truthiness of the `lines` argument: `None` and `0` are false. */
  predicate LinesGiven(lines: Option<int>) {
    lines.Some? && lines.value != 0
  }

  /** One protocol option rendered as `k=v`. */
  function OptionText(kv: (string, string)): string {
    kv.0 + "=" + kv.1
  }

  /** `''.join(' {0}={1}'.format(k, v) for k, v in protocol_opts.items())`,
      the options taken in the dictionary's iteration order. */
  function OptionsText(opts: seq<(string, string)>): string
    decreases |opts|
  {
    if |opts| == 0 then "" else " " + OptionText(opts[0]) + OptionsText(opts[1..])
  }

  /** `construct_conn_msg(stream, lines, protocol_opts)`. */
  function ConnMsg(stream: string, lines: Option<int>, opts: seq<(string, string)>): (r: string)
    ensures StartsWith(r, stream) && |r| > |stream| && r[|r| - 1] == '\n'
  {
    stream + (if LinesGiven(lines) then " " + Decimal.IntText(lines.value) else "") + OptionsText(opts) + "\n"
  }

  /** The space-separated fields the server reads from the handshake: the
      stream, the line count when one is given, then one `k=v` per option. */
  function Fields(stream: string, lines: Option<int>, opts: seq<(string, string)>): seq<string> {
    [stream] + (if LinesGiven(lines) then [Decimal.IntText(lines.value)] else [])
      + OptionTokens(opts)
  }

  function OptionTokens(opts: seq<(string, string)>): (r: seq<string>)
    ensures |r| == |opts|
    ensures forall i :: 0 <= i < |opts| ==> r[i] == OptionText(opts[i])
  {
    seq(|opts|, i requires 0 <= i < |opts| => OptionText(opts[i]))
  }

  /** A field that can travel in the handshake: no space, no newline. */
  predicate Token(s: string) {
    ' ' !in s && '\n' !in s
  }

  predicate WellFormed(stream: string, opts: seq<(string, string)>) {
    Token(stream) && forall i :: 0 <= i < |opts| ==> Token(opts[i].0) && Token(opts[i].1)
  }

  lemma {:induction false} JoinTokens(head: string, opts: seq<(string, string)>)
    ensures Fragments.JoinWith([head] + OptionTokens(opts), ' ') == head + OptionsText(opts)
    decreases |opts|
  {
    if |opts| == 0 {
      assert [head] + OptionTokens(opts) == [head];
    } else {
      var t := OptionTokens(opts);
      var t' := OptionTokens(opts[1..]);
      assert t == [OptionText(opts[0])] + t';
      var parts := [head] + t;
      assert parts[1..] == [OptionText(opts[0])] + t';
      JoinTokens(OptionText(opts[0]), opts[1..]);
    }
  }

  /** The handshake is its fields joined by single spaces, then a newline. */
  lemma ConnMsgIsJoin(stream: string, lines: Option<int>, opts: seq<(string, string)>)
    ensures ConnMsg(stream, lines, opts) == Fragments.JoinWith(Fields(stream, lines, opts), ' ') + "\n"
  {
    var t := OptionTokens(opts);
    if LinesGiven(lines) {
      var n := Decimal.IntText(lines.value);
      assert Fields(stream, lines, opts) == [stream] + ([n] + t);
      JoinTokens(n, opts);
      Fragments.JoinCons(stream, [n] + t, ' ');
      SpacedShape(stream, n, OptionsText(opts));
    } else {
      assert Fields(stream, lines, opts) == [stream] + t;
      JoinTokens(stream, opts);
      assert stream + "" == stream;
    }
  }

  lemma SpacedShape(a: string, b: string, c: string)
    ensures a + (" " + b) + c + "\n" == a + [' '] + (b + c) + "\n"
  {
  }

  lemma IntTextIsToken(i: int)
    ensures Token(Decimal.IntText(i))
  {
    var r := Decimal.IntText(i);
    if i >= 0 {
      assert forall k :: 0 <= k < |r| ==> Decimal.IsDigit(r[k]);
    } else {
      var t := r[1..];
      assert Decimal.AllDigits(t) && r == [r[0]] + t;
    }
  }

  lemma FieldsAreTokens(stream: string, lines: Option<int>, opts: seq<(string, string)>)
    requires WellFormed(stream, opts)
    ensures forall i :: 0 <= i < |Fields(stream, lines, opts)| ==> Token(Fields(stream, lines, opts)[i])
  {
    var f := Fields(stream, lines, opts);
    var t := OptionTokens(opts);
    if LinesGiven(lines) {
      IntTextIsToken(lines.value);
    }
    forall i | 0 <= i < |opts|
      ensures Token(t[i])
    {
      assert t[i] == opts[i].0 + "=" + opts[i].1;
    }
  }

  /** The server side of the handshake recovers exactly what the client put
      in: the message has one newline, at its end, and splitting the rest at
      spaces gives the stream, the line count and the options in order. */
  lemma {:induction false} ConnMsgFields(stream: string, lines: Option<int>, opts: seq<(string, string)>)
    requires WellFormed(stream, opts)
    ensures var m := ConnMsg(stream, lines, opts);
      && '\n' !in m[..|m| - 1]
      && Fragments.Split(m[..|m| - 1], ' ') == Fields(stream, lines, opts)
  {
    var m := ConnMsg(stream, lines, opts);
    var f := Fields(stream, lines, opts);
    ConnMsgIsJoin(stream, lines, opts);
    assert m[..|m| - 1] == Fragments.JoinWith(f, ' ');
    FieldsAreTokens(stream, lines, opts);
    Fragments.SplitJoin(f, ' ');
    Fragments.JoinWithout(f, ' ', '\n');
  }

  lemma ConnMsgExamples()
    ensures ConnMsg("streamA", None, []) == "streamA\n"
    ensures ConnMsg("streamA", Some(0), []) == "streamA\n"
    ensures ConnMsg("streamA", Some(2), []) == "streamA 2\n"
  {
    assert Decimal.Digits(2) == "2";
  }

  lemma ConnMsgWithOptions()
    ensures var opts := [("opt1", "value1"), ("opt2", "value2")];
      && StartsWith(ConnMsg("streamA", None, opts), "streamA opt")
      && |ConnMsg("streamA", None, opts)| == 32
      && StartsWith(ConnMsg("streamA", Some(10), opts), "streamA 10")
      && |ConnMsg("streamA", Some(10), opts)| == 35
  {
    var opts := [("opt1", "value1"), ("opt2", "value2")];
    assert OptionsText(opts[2..]) == "";
    assert |OptionsText(opts)| == 24;
    assert Decimal.Digits(10) == "10" by {
      assert Decimal.Digits(1) == "1";
    }
  }

  /** What one call of `socket.send` did: it took a number of bytes (the
      socket clamps this to at least one and at most what it was offered),
      or it raised `socket.error`. */
  datatype SendReply = Accepts(count: nat) | Raises

  /** The slices the send loop handed over, one per `send` call that
      returned, and whether the loop ran to its end. */
  datatype SendTrace = SendTrace(pieces: seq<Bytes>, complete: bool)

  /** `while bytes_sent < len(msg): bytes_sent += fd.send(msg[bytes_sent:])`,
      with `rest` the unsent suffix and `replies` the socket's answers in
      order; once they run out, the socket takes everything it is offered. */
  function SendLoop(rest: Bytes, replies: seq<SendReply>): (r: SendTrace)
    ensures StartsWith(rest, Flatten(r.pieces))
    ensures r.complete <==> Flatten(r.pieces) == rest
    ensures Progress(r.pieces)
    ensures (forall i :: 0 <= i < |replies| ==> replies[i].Accepts?) ==> r.complete
    decreases |rest|
  {
    if |rest| == 0 then SendTrace([], true)
    else
      var reply := if |replies| == 0 then Accepts(|rest|) else replies[0];
      match reply
      case Raises => SendTrace([], false)
      case Accepts(n) =>
        var k := if n < 1 then 1 else if n > |rest| then |rest| else n;
        var tail := SendLoop(rest[k..], if |replies| == 0 then [] else replies[1..]);
        FlattenCons(rest[..k], tail.pieces);
        SentPrefix(rest, k, Flatten(tail.pieces));
        ProgressCons(rest[..k], tail.pieces);
        SendTrace([rest[..k]] + tail.pieces, tail.complete)
  }

  /** Every `send` that returned moved at least one byte. */
  predicate Progress(pieces: seq<Bytes>) {
    forall i :: 0 <= i < |pieces| ==> |pieces[i]| >= 1
  }

  lemma ProgressCons(x: Bytes, xs: seq<Bytes>)
    requires |x| >= 1 && Progress(xs)
    ensures Progress([x] + xs)
  {
    assert forall i :: 1 <= i < |[x] + xs| ==> ([x] + xs)[i] == xs[i - 1];
  }

  /** Sending the first `k` bytes and then a prefix of the remainder sends
      a prefix of the whole, and all of it exactly when the remainder went
      out whole. */
  lemma SentPrefix(rest: Bytes, k: nat, sent: Bytes)
    requires k <= |rest| && StartsWith(rest[k..], sent)
    ensures StartsWith(rest, rest[..k] + sent)
    ensures rest[..k] + sent == rest <==> sent == rest[k..]
  {
    assert (rest[..k] + sent)[..k] == rest[..k];
    assert rest[..k] + rest[k..] == rest;
    if rest[..k] + sent == rest {
      assert sent == (rest[..k] + sent)[k..];
    }
  }

  lemma FlattenCons<T>(x: seq<T>, xs: seq<seq<T>>)
    ensures Flatten([x] + xs) == x + Flatten(xs)
  {
    FlattenAppend([x], xs);
    FlattenSingle(x);
  }

  /** `_recv_bytes(sock, size)`. The peer will deliver `peer` and then close;
      `chunks[i]` is how many bytes the i-th `recv` returns (the socket
      clamps it to at least one and at most what was asked for and what is
      left; when the list runs out, `recv` returns all it may). An empty
      `recv` ends the read with `None`. */
  method RecvExact(size: nat, peer: Bytes, chunks: seq<nat>) returns (r: Option<Bytes>)
    ensures r.Some? <==> |peer| >= size
    ensures r.Some? ==> r.value == peer[..size]
  {
    var buf: Bytes := [];
    var read := 0;
    var i := 0;
    while read < size
      invariant read <= size && read <= |peer|
      invariant buf == peer[..read]
      decreases size - read
    {
      var ask := size - read;
      var avail := |peer| - read;
      if avail == 0 {
        return None;
      }
      var limit := if ask < avail then ask else avail;
      var n := if i < |chunks| then chunks[i] else limit;
      var k := if n < 1 then 1 else if n > limit then limit else n;
      buf := buf + peer[read..read + k];
      read := read + k;
      i := i + 1;
    }
    return Some(buf);
  }

  /** The environment one `connect()` call meets: `None` when
      `getaddrinfo` raises, otherwise, per resolved address in order,
      whether `fd.connect` succeeds; then the socket's answers to the
      handshake sends. */
  datatype DialEnv = DialEnv(addresses: Option<seq<bool>>, replies: seq<SendReply>)

  /** How `connect()` ends.
      - `Connected`: the socket at that address is kept and the whole
        handshake went out, as the listed slices.
      - `ResolveFailed`: `getaddrinfo` raised `socket.error`; no socket kept.
      - `NoAddress`: every address refused; `StreamTailerSetupError`.
      - `HandshakeFailed`: the socket is kept (`_fd` is set) but a `send`
        raised `socket.error`. */
  datatype Dial =
    | Connected(address: nat, wire: seq<Bytes>)
    | ResolveFailed
    | NoAddress
    | HandshakeFailed(address: nat)

  predicate KeepsSocket(d: Dial) {
    d.Connected? || d.HandshakeFailed?
  }

  /** The first address whose `connect` succeeded: the loop `break`s there. */
  function FirstReachable(reach: seq<bool>): (r: Option<nat>)
    ensures r.Some? <==> true in reach
    ensures r.Some? ==> r.value < |reach| && reach[r.value]
    ensures r.Some? ==> forall j :: 0 <= j < r.value ==> !reach[j]
    decreases |reach|
  {
    if |reach| == 0 then None
    else if reach[0] then Some(0)
    else
      match FirstReachable(reach[1..])
      case None => None
      case Some(i) => Some(i + 1)
  }

  /** `StreamTailer.connect()` for a tailer of `stream`, `lines`, `opts`. */
  function Connect(stream: string, lines: Option<int>, opts: seq<(string, string)>, env: DialEnv): (r: Dial)
    ensures r.Connected? ==> Flatten(r.wire) == Utf8.Encode(ConnMsg(stream, lines, opts))
    ensures KeepsSocket(r) <==> env.addresses.Some? && true in env.addresses.value
    ensures r.NoAddress? <==> env.addresses.Some? && true !in env.addresses.value
    ensures KeepsSocket(r) ==> FirstReachable(env.addresses.value) == Some(r.address)
  {
    match env.addresses
    case None => ResolveFailed
    case Some(reach) =>
      match FirstReachable(reach)
      case None => NoAddress
      case Some(i) =>
        var t := SendLoop(Utf8.Encode(ConnMsg(stream, lines, opts)), env.replies);
        if t.complete then Connected(i, t.pieces) else HandshakeFailed(i)
  }
}
