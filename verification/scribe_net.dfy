/** The S3 side of `clog/scribe_net.py`: the key prefix a `ScribeS3`
    connection is given, the stream names read off a bucket listing, the
    chunks of one stream and day (`get_logs`, `get_log`, `complete_for`),
    and the reader that gathers chunks from a local cache and several
    buckets and reads them oldest first. A bucket is the sequence of keys
    its listing returns; what is inside a chunk is not modelled. */
module ScribeNet {
  import opened Common
  import Dates
  import Ordering
  import S3Keys
  import Utils

  /** `S3PREFIX`, the prefix streams are read under when none is set. */
  const DefaultPrefix: string := "logs/"

  /** `ScribeS3.__init__`: a non-empty key prefix is made to end in a
      slash; `None` and the empty prefix are kept as they are. */
  function NormalizePrefix(prefix: Option<string>): (r: Option<string>)
    ensures r.None? <==> prefix.None?
    ensures prefix.Some? && |prefix.value| == 0 ==> r == prefix
    ensures prefix.Some? && |prefix.value| > 0 ==>
      && |r.value| > 0 && r.value[|r.value| - 1] == '/'
      && StartsWith(r.value, prefix.value)
      && r.value[..|prefix.value|] == prefix.value
      && |r.value| <= |prefix.value| + 1
    // a prefix that already ends in a slash is left alone
    ensures prefix.Some? && |prefix.value| > 0 && prefix.value[|prefix.value| - 1] == '/' ==> r == prefix
  {
    match prefix
    case None => None
    case Some(p) => if |p| > 0 && p[|p| - 1] != '/' then Some(p + "/") else Some(p)
  }

  /** Normalising twice is normalising once. */
  lemma NormalizeIdempotent(prefix: Option<string>)
    ensures NormalizePrefix(NormalizePrefix(prefix)) == NormalizePrefix(prefix)
  {
  }

  /** `self.s3_key_prefix or S3PREFIX`. */
  function PrefixOrDefault(prefix: Option<string>): string {
    if prefix.Some? && |prefix.value| > 0 then prefix.value else DefaultPrefix
  }

  predicate OccursAt(s: string, pat: string, k: nat) {
    k + |pat| <= |s| && s[k..k + |pat|] == pat
  }

  /** The first position at or after `from` where `pat` occurs in `s`. */
  function FindFrom(s: string, pat: string, from: nat): (r: Option<nat>)
    requires from <= |s|
    ensures r.Some? ==> from <= r.value && OccursAt(s, pat, r.value)
    ensures r.Some? ==> forall k :: from <= k < r.value ==> !OccursAt(s, pat, k)
    ensures r.None? ==> forall k :: from <= k ==> !OccursAt(s, pat, k)
    decreases |s| - from
  {
    if from + |pat| > |s| then None
    else if s[from..from + |pat|] == pat then Some(from)
    else if from == |s| then None
    else FindFrom(s, pat, from + 1)
  }

  /** `s.replace(pat, "", 1)`: the first occurrence of `pat` removed. */
  function RemoveFirst(s: string, pat: string): (r: string)
    ensures (forall k :: !OccursAt(s, pat, k)) ==> r == s
    ensures (exists k :: OccursAt(s, pat, k)) ==> |r| == |s| - |pat|
    ensures OccursAt(s, pat, 0) ==> r == s[|pat|..]
    // the occurrence removed is the first one, wherever it lies
    ensures forall i: nat :: OccursAt(s, pat, i) && (forall k: nat :: k < i ==> !OccursAt(s, pat, k)) ==>
      r == s[..i] + s[i + |pat|..]
  {
    match FindFrom(s, pat, 0)
    case None => s
    case Some(i) => s[..i] + s[i + |pat|..]
  }

  /** `s.rstrip(c)`. */
  function RStrip(s: string, c: char): (r: string)
    ensures |r| <= |s| && r == s[..|r|]
    ensures |r| == 0 || r[|r| - 1] != c
    ensures forall k :: |r| <= k < |s| ==> s[k] == c
    decreases |s|
  {
    if |s| > 0 && s[|s| - 1] == c then RStrip(s[..|s| - 1], c) else s
  }

  /** The stream name `streams` takes from one entry of the listing. */
  function StreamOf(name: string, prefix: Option<string>): string {
    RStrip(RemoveFirst(name, PrefixOrDefault(prefix)), '/')
  }

  /** `streams`: one stream per entry of the listing, which the caller
      asks for with the key prefix and a `/` delimiter. */
  function Streams(listing: seq<string>, prefix: Option<string>): (r: set<string>)
    ensures forall n :: n in listing ==> StreamOf(n, prefix) in r
    ensures forall s :: s in r ==> exists n :: n in listing && StreamOf(n, prefix) == s
  {
    set n | n in listing :: StreamOf(n, prefix)
  }

  /** With a non-empty key prefix, the listing of a bucket with a `/`
      delimiter returns the common prefixes `{prefix}{stream}/`, and
      `streams` reads the stream name back from each. With `None` or the
      empty prefix the listing is of the bucket root instead, and only a
      name that starts with `logs/` reads back this way (see
      `RootListingStreams`). */
  lemma StreamOfCommonPrefix(prefix: Option<string>, stream: string)
    requires |stream| == 0 || stream[|stream| - 1] != '/'
    ensures StreamOf(PrefixOrDefault(prefix) + stream + "/", prefix) == stream
  {
    var pat := PrefixOrDefault(prefix);
    var name := pat + stream + "/";
    assert name[..|pat|] == pat;
    var rest := name[|pat|..];
    assert rest == stream + "/";
    assert OccursAt(name, pat, 0);
  }

  /** With no key prefix `streams` lists the bucket root, yet removes the
      default prefix `logs/` from each entry: the first occurrence,
      wherever it lies, and entries without it are kept whole. */
  lemma RootListingStreams()
    ensures StreamOf("logs/", None) == ""
    ensures StreamOf("other/", None) == "other"
    ensures StreamOf("mylogs/", None) == "my"
  {
    RootListingDefault();
    RootListingOther();
    RootListingNested();
  }

  lemma RootListingDefault()
    ensures StreamOf("logs/", None) == ""
  {
    assert "logs/" == "" + DefaultPrefix + "";
    CutFirstDefault("", "");
  }

  lemma RootListingOther()
    ensures StreamOf("other/", None) == "other"
  {
    var b := "other/";
    assert forall k :: 0 <= k < |b| ==> b[k] != 'l';
    NotFoundIn(b);
    assert RStrip(b, '/') == "other";
  }

  lemma RootListingNested()
    ensures StreamOf("mylogs/", None) == "my"
  {
    assert "mylogs/" == "my" + DefaultPrefix + "";
    CutFirstDefault("my", "");
    assert RStrip("my", '/') == "my";
  }

  /** In `x + "logs/" + y` with no `l` in `x`, the first `logs/` is the one
      right after `x`. */
  lemma CutFirstDefault(x: string, y: string)
    requires forall k :: 0 <= k < |x| ==> x[k] != 'l'
    ensures RemoveFirst(x + DefaultPrefix + y, DefaultPrefix) == x + y
  {
    var s := x + DefaultPrefix + y;
    var i := |x|;
    assert s[i..i + |DefaultPrefix|] == DefaultPrefix;
    forall k: nat | k < i
      ensures !OccursAt(s, DefaultPrefix, k)
    {
      assert s[k..k + |DefaultPrefix|][0] == s[k] == x[k];
    }
    assert s[..i] == x && s[i + |DefaultPrefix|..] == y;
  }

  /** `logs/` does not occur in a name without an `l`. */
  lemma NotFoundIn(s: string)
    requires forall k :: 0 <= k < |s| ==> s[k] != 'l'
    ensures RemoveFirst(s, DefaultPrefix) == s
  {
    forall k: nat
      ensures !OccursAt(s, DefaultPrefix, k)
    {
      if k + |DefaultPrefix| <= |s| {
        assert s[k..k + |DefaultPrefix|][0] == s[k];
      }
    }
  }

  /** An object of the bucket: its name and its `last_modified` time, the
      ISO 8601 text the listing gives. */
  datatype S3Key = S3Key(name: string, lastModified: string)

  /** `BadKeyError` of a key the expression does not match, and the
      `ValueError` of `datetime.date` for a matched date that does not
      exist. */
  datatype KeyError = BadKeyError(key: S3Key) | InvalidDate(key: S3Key)

  /** A `ScribeS3File`: the key and what its name says. */
  datatype S3File = S3File(key: S3Key, stream: string, day: Dates.Day)

  /** `ScribeS3File(key)`. */
  function OpenS3File(key: S3Key): (r: Result<S3File, KeyError>)
    ensures S3Keys.ParseKey(key.name).None? ==> r == Failure(BadKeyError(key))
    ensures r.Success? <==>
      && S3Keys.ParseKey(key.name).Some?
      && var f := S3Keys.ParseKey(key.name).value; Dates.Valid(Dates.Date(f.year, f.month, f.day))
    ensures r.Success? ==>
      var f := S3Keys.ParseKey(key.name).value;
      && r.value.key == key && r.value.stream == f.stream
      && r.value.day == Dates.Date(f.year, f.month, f.day)
  {
    match S3Keys.ParseKey(key.name)
    case None => Failure(BadKeyError(key))
    case Some(f) =>
      var d := Dates.Date(f.year, f.month, f.day);
      if Dates.Valid(d) then Success(S3File(key, f.stream, d)) else Failure(InvalidDate(key))
  }

  /** The key name a chunk is stored under opens as a file of the stream
      and day it was stored for. */
  lemma OpenChunkKey(p: string, stream: string, d: Dates.Day, aggregator: string, part: int, modified: string)
    requires |p| > 0 && p[|p| - 1] == '/' && '\n' !in p
    requires |stream| > 0 && Utils.IsCategory(stream)
    requires '/' !in aggregator && '\n' !in aggregator
    ensures var key := S3Key(S3Keys.LogFilePath(Some(p), stream, d, aggregator, part), modified);
      OpenS3File(key) == Success(S3File(key, stream, d))
  {
    S3Keys.ParseChunkKey(p, stream, d, aggregator, part);
  }

  /** The names `get_logs` skips: completion markers, `_SUCCESS` markers
      and chunks marked bad. */
  predicate Kept(name: string) {
    !EndsWith(name, "COMPLETE") && !EndsWith(name, "_SUCCESS") && !EndsWith(name, ".bad")
  }

  /** A chunk of log data is never skipped. */
  lemma ChunksKept(prefix: Option<string>, stream: string, d: Dates.Day, aggregator: string, part: int)
    ensures Kept(S3Keys.LogFilePath(prefix, stream, d, aggregator, part))
  {
    var base := S3Keys.BasePath(prefix, stream, d);
    var leaf := S3Keys.ChunkLeaf(aggregator, part);
    EndsWithTail(base + "/", leaf, ".gz");
    GzKept(base + "/" + leaf);
  }

  /** A completion marker is always skipped. */
  lemma MarkersSkipped(prefix: Option<string>, stream: string, d: Dates.Day)
    ensures !Kept(S3Keys.CompleteFilePath(prefix, stream, d))
  {
    var base := S3Keys.BasePath(prefix, stream, d);
    EndsWithAppend("/", "COMPLETE");
    EndsWithTail(base, "/COMPLETE", "COMPLETE");
  }

  /** A name ending in `.gz` is not skipped. */
  lemma GzKept(name: string)
    requires EndsWith(name, ".gz")
    ensures Kept(name)
  {
    assert name[|name| - 1] == 'z';
    LastCharRules(name, "COMPLETE");
    LastCharRules(name, "_SUCCESS");
    LastCharRules(name, ".bad");
  }

  /** A name ending in another character than a suffix does not end in it. */
  lemma LastCharRules(name: string, suffix: string)
    requires |name| > 0 && |suffix| > 0 && name[|name| - 1] != suffix[|suffix| - 1]
    ensures !EndsWith(name, suffix)
  {
  }

  lemma EndsWithAppend(a: string, b: string)
    ensures EndsWith(a + b, b)
  {
    assert (a + b)[|a|..] == b;
  }

  /** Ending in a suffix is kept when more is put in front. */
  lemma EndsWithTail(a: string, b: string, suffix: string)
    requires EndsWith(b, suffix)
    ensures EndsWith(a + b, suffix)
  {
    assert (a + b)[|a + b| - |suffix|..] == b[|b| - |suffix|..];
  }

  /** A key `get_logs` lists and does not skip. */
  predicate Wanted(key: S3Key, base: string) {
    StartsWith(key.name, base) && Kept(key.name)
  }

  /** `e` is what `bad` says of the first element it objects to. */
  predicate FirstBad<T, E(==)>(s: seq<T>, bad: T -> Option<E>, e: E) {
    exists i :: 0 <= i < |s| && bad(s[i]) == Some(e) && forall j :: 0 <= j < i ==> bad(s[j]).None?
  }

  /** There is one first element `bad` objects to, so `FirstBad` fixes the
      error. */
  lemma FirstBadUnique<T, E>(s: seq<T>, bad: T -> Option<E>, e1: E, e2: E)
    requires FirstBad(s, bad, e1) && FirstBad(s, bad, e2)
    ensures e1 == e2
  {
    var i1 :| 0 <= i1 < |s| && bad(s[i1]) == Some(e1) && forall j :: 0 <= j < i1 ==> bad(s[j]).None?;
    var i2 :| 0 <= i2 < |s| && bad(s[i2]) == Some(e2) && forall j :: 0 <= j < i2 ==> bad(s[j]).None?;
    if i1 < i2 || i2 < i1 {
      assert false;
    }
  }

  /** An element `bad` accepts does not change which element is the first
      it objects to. */
  lemma FirstBadTail<T, E>(s: seq<T>, bad: T -> Option<E>, e: E)
    requires |s| > 0 && bad(s[0]).None? && FirstBad(s[1..], bad, e)
    ensures FirstBad(s, bad, e)
  {
    var rest := s[1..];
    var i :| 0 <= i < |rest| && bad(rest[i]) == Some(e) && forall j :: 0 <= j < i ==> bad(rest[j]).None?;
    assert s[i + 1] == rest[i];
    forall j | 0 <= j < i + 1 ensures bad(s[j]).None? {
      if j > 0 { assert s[j] == rest[j - 1]; }
    }
  }

  /** The error a listed key raises in `get_logs`: none when it is skipped
      or opens, the `ScribeS3File` error otherwise. */
  function Unopened(base: string): S3Key -> Option<KeyError> {
    k => if Wanted(k, base) && OpenS3File(k).Failure? then Some(OpenS3File(k).error) else None
  }

  /** `e` is the error of the first key under `base`, not skipped, that
      `ScribeS3File` cannot open. */
  predicate FirstUnopened(keys: seq<S3Key>, base: string, e: KeyError) {
    FirstBad(keys, Unopened(base), e)
  }

  /** The first unopened key is a listed key under `base`, not skipped,
      whose `ScribeS3File` raises `e`. */
  lemma FirstUnopenedListed(keys: seq<S3Key>, base: string, e: KeyError)
    requires FirstUnopened(keys, base, e)
    ensures exists k :: k in keys && Wanted(k, base) && OpenS3File(k) == Failure(e)
  {
    var i :| 0 <= i < |keys| && Unopened(base)(keys[i]) == Some(e)
      && forall j :: 0 <= j < i ==> Unopened(base)(keys[j]).None?;
    assert keys[i] in keys && Wanted(keys[i], base) && OpenS3File(keys[i]) == Failure(e);
  }

  /** There is one first unopened key, so `FirstUnopened` fixes the
      error. */
  lemma FirstUnopenedUnique(keys: seq<S3Key>, base: string, e1: KeyError, e2: KeyError)
    requires FirstUnopened(keys, base, e1) && FirstUnopened(keys, base, e2)
    ensures e1 == e2
  {
    FirstBadUnique(keys, Unopened(base), e1, e2);
  }

  /** The loop of `get_logs` over the keys listed under `base`: every key
      not skipped becomes a `ScribeS3File`, and the first that cannot
      raises out of the loop. */
  function Collect(keys: seq<S3Key>, base: string): (r: Result<seq<S3File>, KeyError>)
    ensures r.Failure? <==> exists k :: k in keys && Wanted(k, base) && OpenS3File(k).Failure?
    // the error is the one of the first kept key that does not open (so it is
    // some listed key's error, `FirstUnopenedListed`)
    ensures r.Failure? ==> FirstUnopened(keys, base, r.error)
    ensures r.Success? ==> forall f :: f in r.value <==>
      (f.key in keys && Wanted(f.key, base) && OpenS3File(f.key) == Success(f))
    ensures r.Success? ==> |r.value| <= |keys|
    decreases |keys|
  {
    if |keys| == 0 then Success([])
    else
      var k := keys[0];
      assert forall x :: x in keys <==> x == k || x in keys[1..];
      if !Wanted(k, base) then
        var r := Collect(keys[1..], base);
        if r.Failure? then FirstBadTail(keys, Unopened(base), r.error); r else r
      else match OpenS3File(k)
        case Failure(e) =>
          assert Unopened(base)(keys[0]) == Some(e);
          Failure(e)
        case Success(f) =>
          match Collect(keys[1..], base)
          case Failure(e) =>
            FirstBadTail(keys, Unopened(base), e);
            Failure(e)
          case Success(fs) => Success([f] + fs)
  }

  /** `get_logs(stream_name, date)` on a bucket whose listing is `keys`,
      with the connection's normalised key prefix. */
  function GetLogs(keys: seq<S3Key>, prefix: Option<string>, stream: string, d: Dates.Day): (r: Result<seq<S3File>, KeyError>)
    ensures r.Success? ==> forall f :: f in r.value ==>
      && f.key in keys && Kept(f.key.name)
      && StartsWith(f.key.name, S3Keys.BasePath(prefix, stream, d))
    // the error is the first kept key's under the day's base path that does not open
    ensures var base := S3Keys.BasePath(prefix, stream, d);
      && (r.Failure? <==> exists k :: k in keys && Wanted(k, base) && OpenS3File(k).Failure?)
      && (r.Failure? ==> FirstUnopened(keys, base, r.error))
  {
    Collect(keys, S3Keys.BasePath(prefix, stream, d))
  }

  /** Every chunk stored for the stream and day is among the files
      `get_logs` returns. */
  lemma StoredChunkListed(keys: seq<S3Key>, p: string, stream: string, d: Dates.Day,
                          aggregator: string, part: int, modified: string)
    requires |p| > 0 && p[|p| - 1] == '/' && '\n' !in p
    requires |stream| > 0 && Utils.IsCategory(stream)
    requires '/' !in aggregator && '\n' !in aggregator
    requires S3Key(S3Keys.LogFilePath(Some(p), stream, d, aggregator, part), modified) in keys
    requires GetLogs(keys, Some(p), stream, d).Success?
    ensures S3File(S3Key(S3Keys.LogFilePath(Some(p), stream, d, aggregator, part), modified), stream, d)
      in GetLogs(keys, Some(p), stream, d).value
  {
    var key := S3Key(S3Keys.LogFilePath(Some(p), stream, d, aggregator, part), modified);
    OpenChunkKey(p, stream, d, aggregator, part, modified);
    ChunksKept(Some(p), stream, d, aggregator, part);
    S3Keys.ChunkUnderBase(Some(p), stream, d, aggregator, part);
    assert Wanted(key, S3Keys.BasePath(Some(p), stream, d));
  }

  /** `bucket.get_key(name)`: the key of that name, if the bucket has
      one. */
  function GetKey(keys: seq<S3Key>, name: string): (r: Option<S3Key>)
    ensures r.Some? ==> r.value in keys && r.value.name == name
    ensures r.None? ==> forall k :: k in keys ==> k.name != name
    decreases |keys|
  {
    if |keys| == 0 then None
    else if keys[0].name == name then Some(keys[0])
    else
      assert forall x :: x in keys ==> x == keys[0] || x in keys[1..];
      GetKey(keys[1..], name)
  }

  /** `complete_for(stream_name, date)`. */
  function CompleteFor(keys: seq<S3Key>, prefix: Option<string>, stream: string, d: Dates.Day): (r: bool)
    ensures r <==> exists k :: k in keys && k.name == S3Keys.CompleteFilePath(prefix, stream, d)
  {
    GetKey(keys, S3Keys.CompleteFilePath(prefix, stream, d)).Some?
  }

  /** `get_log(stream_name, date, aggregator, part)`. */
  function GetLog(keys: seq<S3Key>, prefix: Option<string>, stream: string, d: Dates.Day,
                  aggregator: string, part: int): (r: Result<Option<S3File>, KeyError>)
    ensures var name := S3Keys.LogFilePath(prefix, stream, d, aggregator, part);
      && (r == Success(None) <==> forall k :: k in keys ==> k.name != name)
      && (r.Success? && r.value.Some? ==> r.value.value.key in keys && r.value.value.key.name == name)
      // the file is the one `ScribeS3File(key)` opens, and its error is the one raised
      && (r.Success? && r.value.Some? ==> OpenS3File(r.value.value.key) == Success(r.value.value))
      && (r.Failure? ==> exists k :: k in keys && k.name == name && OpenS3File(k) == Failure(r.error))
      && ((forall k :: k in keys && k.name == name ==> OpenS3File(k).Success?) ==> r.Success?)
  {
    match GetKey(keys, S3Keys.LogFilePath(prefix, stream, d, aggregator, part))
    case None => Success(None)
    case Some(k) =>
      match OpenS3File(k)
      case Failure(e) => Failure(e)
      case Success(f) => Success(Some(f))
  }

  /** A stored chunk is found again by the parts its name was made
      from. */
  lemma GetLogFindsStoredChunk(keys: seq<S3Key>, p: string, stream: string, d: Dates.Day,
                               aggregator: string, part: int)
    requires |p| > 0 && p[|p| - 1] == '/' && '\n' !in p
    requires |stream| > 0 && Utils.IsCategory(stream)
    requires '/' !in aggregator && '\n' !in aggregator
    requires exists k :: k in keys && k.name == S3Keys.LogFilePath(Some(p), stream, d, aggregator, part)
    ensures var r := GetLog(keys, Some(p), stream, d, aggregator, part);
      && r.Success? && r.value.Some?
      && r.value.value.stream == stream && r.value.value.day == d
  {
    var k := GetKey(keys, S3Keys.LogFilePath(Some(p), stream, d, aggregator, part)).value;
    OpenChunkKey(p, stream, d, aggregator, part, k.lastModified);
  }

  /** A chunk as the reader holds it: `id` stands for the Python object's
      identity, which is what the reader's sets compare, and
      `lastModified` is `key.key.last_modified`. */
  datatype Chunk = Chunk(id: nat, name: string, lastModified: string)

  function Ids(s: seq<Chunk>): set<nat> {
    set c | c in s :: c.id
  }

  /** `s` holds each object at most once, as a Python set of objects
      does: no chunk is listed twice, and no two listed chunks are the same
      object. */
  predicate OncePerObject(s: seq<Chunk>) {
    && (forall c :: c in s ==> multiset(s)[c] == 1)
    && (forall c, d :: c in s && d in s && c.id == d.id ==> c == d)
  }

  /** Two orderings of the same chunks list the same objects, and one
      holds each object once iff the other does. */
  lemma SameChunks(a: seq<Chunk>, b: seq<Chunk>)
    requires multiset(a) == multiset(b)
    ensures forall c :: c in a <==> c in b
    ensures Ids(a) == Ids(b)
    ensures OncePerObject(a) ==> OncePerObject(b)
  {
    assert forall c :: c in a <==> c in multiset(a);
    assert forall c :: c in b <==> c in multiset(b);
  }

  /** In a sequence that holds each object once, no two positions hold the
      same object. */
  lemma OnceAtPositions(s: seq<Chunk>, i: nat, j: nat)
    requires OncePerObject(s)
    requires i < j < |s|
    ensures s[i].id != s[j].id
  {
    if s[i].id == s[j].id {
      TwiceCounted(s, i, j);
    }
  }

  lemma TwiceCounted(s: seq<Chunk>, i: nat, j: nat)
    requires i < j < |s|
    ensures s[i] == s[j] ==> multiset(s)[s[i]] >= 2
  {
    var a, b := s[..j], s[j..];
    assert s == a + b;
    assert s[i] == a[i] && s[j] == b[0];
    assert s[i] in a && s[j] in b;
  }

  /** The chunks of `s` whose object is not among `drop`. */
  function Without(s: seq<Chunk>, drop: set<nat>): (r: seq<Chunk>)
    ensures forall c :: c in r <==> c in s && c.id !in drop
    ensures |r| <= |s|
    decreases |s|
  {
    if |s| == 0 then []
    else
      assert forall x :: x in s <==> x == s[0] || x in s[1..];
      (if s[0].id in drop then [] else [s[0]]) + Without(s[1..], drop)
  }

  /** Filtering keeps each remaining chunk as often as it occurred, so a
      sequence that holds each object once still does. */
  lemma WithoutCounts(s: seq<Chunk>, drop: set<nat>)
    ensures forall c :: multiset(Without(s, drop))[c] == if c.id in drop then 0 else multiset(s)[c]
    ensures OncePerObject(s) ==> OncePerObject(Without(s, drop))
  {
    WithoutMultiset(s, drop);
  }

  lemma {:induction false} WithoutMultiset(s: seq<Chunk>, drop: set<nat>)
    ensures forall c :: multiset(Without(s, drop))[c] == if c.id in drop then 0 else multiset(s)[c]
    decreases |s|
  {
    if |s| > 0 {
      WithoutMultiset(s[1..], drop);
      assert s == [s[0]] + s[1..];
      assert Without(s, drop) == (if s[0].id in drop then [] else [s[0]]) + Without(s[1..], drop);
    }
  }

  /** `keys |= more`. */
  function Union(keys: seq<Chunk>, more: seq<Chunk>): (r: seq<Chunk>)
    ensures forall c :: c in r <==> c in keys || (c in more && c.id !in Ids(keys))
    ensures Ids(r) == Ids(keys) + Ids(more)
    ensures OncePerObject(keys) && OncePerObject(more) ==> OncePerObject(r)
  {
    var added := Without(more, Ids(keys));
    UnionIds(keys, more, added);
    WithoutCounts(more, Ids(keys));
    if OncePerObject(keys) && OncePerObject(more) then
      UnionOnce(keys, added);
      keys + added
    else
      keys + added
  }

  lemma UnionIds(keys: seq<Chunk>, more: seq<Chunk>, added: seq<Chunk>)
    requires forall c :: c in added <==> c in more && c.id !in Ids(keys)
    ensures Ids(keys + added) == Ids(keys) + Ids(more)
  {
    forall x | x in Ids(keys) + Ids(more)
      ensures x in Ids(keys + added)
    {
      if x !in Ids(keys) {
        var c :| c in more && c.id == x;
        assert c in added;
        assert c in keys + added;
      } else {
        var c :| c in keys && c.id == x;
        assert c in keys + added;
      }
    }
  }

  lemma UnionOnce(keys: seq<Chunk>, added: seq<Chunk>)
    requires OncePerObject(keys) && OncePerObject(added)
    requires forall c :: c in added ==> c.id !in Ids(keys)
    ensures OncePerObject(keys + added)
  {
    forall c
      ensures multiset(keys + added)[c] <= 1
    {
      if c in keys {
        assert c.id in Ids(keys);
        assert c !in added;
      }
    }
  }

  /** `keys -= more`. */
  function Minus(keys: seq<Chunk>, more: seq<Chunk>): (r: seq<Chunk>)
    ensures forall c :: c in r <==> c in keys && c.id !in Ids(more)
    ensures OncePerObject(keys) ==> OncePerObject(r)
  {
    WithoutCounts(keys, Ids(more));
    Without(keys, Ids(more))
  }

  /** One element of `s3_connections`: `None`, or what its `get_logs`
      returns or raises. */
  type Listing = Option<Result<seq<Chunk>, KeyError>>

  /** Every listing `get_logs` returned holds each object once, as the
      set it builds does. */
  predicate ListingsOncePerObject(conns: seq<Listing>) {
    forall i :: 0 <= i < |conns| && conns[i].Some? && conns[i].value.Success? ==>
      OncePerObject(conns[i].value.value)
  }

  /** Every chunk a successful listing returned is, as an object, among
      `ids`. */
  predicate AllListedIn(conns: seq<Listing>, ids: set<nat>) {
    forall i, c :: 0 <= i < |conns| && conns[i].Some? && conns[i].value.Success? && c in conns[i].value.value ==>
      c.id in ids
  }

  lemma ListedCons(conns: seq<Listing>, ids: set<nat>)
    requires |conns| > 0
    ensures
      (&& AllListedIn(conns[1..], ids)
       && (conns[0].Some? && conns[0].value.Success? ==> Ids(conns[0].value.value) <= ids)) ==>
      AllListedIn(conns, ids)
  {
    if AllListedIn(conns[1..], ids) && (conns[0].Some? && conns[0].value.Success? ==> Ids(conns[0].value.value) <= ids) {
      forall i, c | 0 <= i < |conns| && conns[i].Some? && conns[i].value.Success? && c in conns[i].value.value
        ensures c.id in ids
      {
        if i == 0 {
          assert c.id in Ids(conns[0].value.value);
        } else {
          assert conns[1..][i - 1] == conns[i];
        }
      }
    }
  }

  lemma OnceCons(conns: seq<Listing>)
    requires |conns| > 0
    ensures ListingsOncePerObject(conns) ==> ListingsOncePerObject(conns[1..])
    ensures ListingsOncePerObject(conns) && conns[0].Some? && conns[0].value.Success? ==>
      OncePerObject(conns[0].value.value)
  {
    assert forall i :: 0 <= i < |conns[1..]| ==> conns[1..][i] == conns[i + 1];
  }

  /** The error a connection's `get_logs` raised, if it raised. */
  function Raised(c: Listing): Option<KeyError> {
    if c.Some? && c.value.Failure? then Some(c.value.error) else None
  }

  /** `e` is the error of the first connection whose `get_logs` raises:
      every connection before it is `None` or returned a listing. */
  predicate FirstFailure(conns: seq<Listing>, e: KeyError) {
    FirstBad(conns, Raised, e)
  }

  /** A connection that does not raise leaves the first raising one as it
      was in the rest of the list. */
  lemma FailureTail(conns: seq<Listing>, r: Result<seq<Chunk>, KeyError>)
    requires |conns| > 0
    ensures r.Failure? && Raised(conns[0]).None? && FirstFailure(conns[1..], r.error) ==> FirstFailure(conns, r.error)
  {
    if r.Failure? && Raised(conns[0]).None? && FirstFailure(conns[1..], r.error) {
      FirstBadTail(conns, Raised, r.error);
    }
  }

  /** There is one first raising connection, so `FirstFailure` fixes the
      error. */
  lemma FirstFailureUnique(conns: seq<Listing>, e1: KeyError, e2: KeyError)
    requires FirstFailure(conns, e1) && FirstFailure(conns, e2)
    ensures e1 == e2
  {
    FirstBadUnique(conns, Raised, e1, e2);
  }

  /** The loop over `s3_connections` in `logs_for_date`: `None` entries are
      passed over, the first `get_logs` that raises ends the call, and each
      other result is added to the set (or taken out of it, with
      `not_in_s3`). */
  function Gather(keys: seq<Chunk>, conns: seq<Listing>, notInS3: bool): (r: Result<seq<Chunk>, KeyError>)
    ensures r.Failure? <==> exists i :: 0 <= i < |conns| && conns[i].Some? && conns[i].value.Failure?
    ensures r.Failure? ==> FirstFailure(conns, r.error)
    ensures r.Success? && notInS3 ==>
      forall c :: c in r.value <==> c in keys && forall i :: 0 <= i < |conns| && conns[i].Some? ==>
        c.id !in Ids(conns[i].value.value)
    ensures r.Success? && !notInS3 ==> forall c :: c in keys ==> c in r.value
    ensures r.Success? && !notInS3 ==> forall c :: c in r.value ==>
      c in keys || exists i :: 0 <= i < |conns| && conns[i].Some? && c in conns[i].value.value
    // every chunk a listing returned is in the result, as that object
    ensures r.Success? && !notInS3 ==> Ids(keys) <= Ids(r.value) && AllListedIn(conns, Ids(r.value))
    ensures r.Success? && OncePerObject(keys) && ListingsOncePerObject(conns) ==> OncePerObject(r.value)
  {
    if notInS3 then GatherMinus(keys, conns) else GatherUnion(keys, conns)
  }

  /** The loop with `not_in_s3`: each listing's objects are taken out. */
  function GatherMinus(keys: seq<Chunk>, conns: seq<Listing>): (r: Result<seq<Chunk>, KeyError>)
    ensures r.Failure? <==> exists i :: 0 <= i < |conns| && conns[i].Some? && conns[i].value.Failure?
    ensures r.Failure? ==> FirstFailure(conns, r.error)
    ensures r.Success? ==>
      forall c :: c in r.value <==> c in keys && forall i :: 0 <= i < |conns| && conns[i].Some? ==>
        c.id !in Ids(conns[i].value.value)
    ensures r.Success? && OncePerObject(keys) ==> OncePerObject(r.value)
    decreases |conns|
  {
    if |conns| == 0 then Success(keys)
    else
      var rest := conns[1..];
      assert forall i :: 0 <= i < |rest| ==> rest[i] == conns[i + 1];
      match conns[0]
      case None =>
        var r := GatherMinus(keys, rest);
        FailureTail(conns, r);
        r
      case Some(Failure(e)) =>
        assert Raised(conns[0]) == Some(e);
        Failure(e)
      case Some(Success(more)) =>
        var r := GatherMinus(Minus(keys, more), rest);
        FailureTail(conns, r);
        r
  }

  /** The loop without `not_in_s3`: each listing's objects are added. */
  function GatherUnion(keys: seq<Chunk>, conns: seq<Listing>): (r: Result<seq<Chunk>, KeyError>)
    ensures r.Failure? <==> exists i :: 0 <= i < |conns| && conns[i].Some? && conns[i].value.Failure?
    ensures r.Failure? ==> FirstFailure(conns, r.error)
    ensures r.Success? ==> forall c :: c in keys ==> c in r.value
    ensures r.Success? ==> forall c :: c in r.value ==>
      c in keys || exists i :: 0 <= i < |conns| && conns[i].Some? && c in conns[i].value.value
    ensures r.Success? ==> Ids(keys) <= Ids(r.value) && AllListedIn(conns, Ids(r.value))
    ensures r.Success? && OncePerObject(keys) && ListingsOncePerObject(conns) ==> OncePerObject(r.value)
    decreases |conns|
  {
    if |conns| == 0 then Success(keys)
    else
      var rest := conns[1..];
      assert forall i :: 0 <= i < |rest| ==> rest[i] == conns[i + 1];
      OnceCons(conns);
      match conns[0]
      case None =>
        var r := GatherUnion(keys, rest);
        ListedCons(conns, if r.Success? then Ids(r.value) else {});
        FailureTail(conns, r);
        r
      case Some(Failure(e)) =>
        assert Raised(conns[0]) == Some(e);
        Failure(e)
      case Some(Success(more)) =>
        var r := GatherUnion(Union(keys, more), rest);
        ListedCons(conns, if r.Success? then Ids(r.value) else {});
        FailureTail(conns, r);
        r
  }

  /** `logs_for_date(date)`: the local cache's chunks (if there is a
      cache), then every bucket's, sorted by modification time. The order
      among chunks modified at the same instant is the set's iteration
      order in the original; here it is one admissible choice. */
  function LogsForDate(fs: Option<seq<Chunk>>, conns: seq<Listing>, notInS3: bool): (r: Result<seq<Chunk>, KeyError>)
    ensures r.Failure? <==> exists i :: 0 <= i < |conns| && conns[i].Some? && conns[i].value.Failure?
    // the error is the first raising connection's, the one `Gather` raises
    ensures r.Failure? ==> r.error == Gather(if fs.Some? then fs.value else [], conns, notInS3).error
    ensures r.Failure? ==> FirstFailure(conns, r.error)
    ensures r.Success? ==> Ordering.SortedBy(r.value, (c: Chunk) => c.lastModified)
    ensures r.Success? ==> multiset(r.value) == multiset(Gather(if fs.Some? then fs.value else [], conns, notInS3).value)
    // without `not_in_s3`: every cached chunk, and every listed object
    ensures r.Success? && !notInS3 && fs.Some? ==> forall c :: c in fs.value ==> c in r.value
    ensures r.Success? && !notInS3 ==>
      forall i, c :: 0 <= i < |conns| && conns[i].Some? && conns[i].value.Success? && c in conns[i].value.value ==>
        c.id in Ids(r.value)
    ensures r.Success? && (fs.Some? ==> OncePerObject(fs.value)) && ListingsOncePerObject(conns) ==>
      OncePerObject(r.value)
  {
    match Gather(if fs.Some? then fs.value else [], conns, notInS3)
    case Failure(e) => Failure(e)
    case Success(keys) =>
      var sorted := Ordering.SortBy(keys, (c: Chunk) => c.lastModified);
      SameChunks(keys, sorted);
      Success(sorted)
  }

  /** Each chunk `get_logs` returns is a new object, so none of them is
      the same object as a chunk of the local cache and `not_in_s3` takes
      nothing away: the reader returns every cached chunk, sorted. */
  lemma NotInS3KeepsCache(fs: seq<Chunk>, conns: seq<Listing>)
    requires forall i :: 0 <= i < |conns| && conns[i].Some? && conns[i].value.Success? ==>
      Ids(fs) !! Ids(conns[i].value.value)
    requires forall i :: 0 <= i < |conns| ==> conns[i].None? || conns[i].value.Success?
    ensures LogsForDate(Some(fs), conns, true).Success?
    ensures multiset(LogsForDate(Some(fs), conns, true).value) == multiset(fs)
  {
    GatherFreshListings(fs, conns);
  }

  /** Taking out objects that are not there gives the list back as it
      was. */
  lemma {:induction false} WithoutNothing(s: seq<Chunk>, drop: set<nat>)
    requires forall i :: 0 <= i < |s| ==> s[i].id !in drop
    ensures Without(s, drop) == s
    decreases |s|
  {
    if |s| > 0 {
      var tail := s[1..];
      assert forall i :: 0 <= i < |tail| ==> tail[i] == s[i + 1];
      WithoutNothing(tail, drop);
      assert s == [s[0]] + tail;
    }
  }

  lemma {:induction false} GatherFreshListings(keys: seq<Chunk>, conns: seq<Listing>)
    requires forall i :: 0 <= i < |conns| && conns[i].Some? && conns[i].value.Success? ==>
      Ids(keys) !! Ids(conns[i].value.value)
    requires forall i :: 0 <= i < |conns| ==> conns[i].None? || conns[i].value.Success?
    ensures Gather(keys, conns, true) == Success(keys)
    decreases |conns|
  {
    if |conns| > 0 {
      var rest := conns[1..];
      assert forall i :: 0 <= i < |rest| ==> rest[i] == conns[i + 1];
      if conns[0].Some? {
        forall i | 0 <= i < |keys|
          ensures keys[i].id !in Ids(conns[0].value.value)
        {
          assert keys[i].id in Ids(keys);
        }
        WithoutNothing(keys, Ids(conns[0].value.value));
      }
      GatherFreshListings(keys, rest);
    }
  }

  /** What reading a date produces, step by step: each chunk's contents
      are written to the output stream and the generator yields. */
  datatype Event = Read(chunk: Chunk) | Yield

  /** `get_for_date(date)` run to exhaustion: the events in order, and
      the error `logs_for_date` raised at the first step, if any. */
  function GetForDate(fs: Option<seq<Chunk>>, conns: seq<Listing>, notInS3: bool): (r: (seq<Event>, Option<KeyError>))
    ensures r.1.Some? <==> LogsForDate(fs, conns, notInS3).Failure?
    ensures r.1.Some? ==> r.0 == []
    // the error reported is the first raising connection's, the one `logs_for_date` raises
    ensures r.1.Some? ==> r.1.value == LogsForDate(fs, conns, notInS3).error && FirstFailure(conns, r.1.value)
    ensures r.1.None? ==> var order := LogsForDate(fs, conns, notInS3).value;
      && |r.0| == 2 * |order|
      && forall i :: 0 <= i < |order| ==> r.0[2 * i] == Read(order[i]) && r.0[2 * i + 1] == Yield
    // when the cache and every listing hold each object once, no object is read twice
    ensures r.1.None? && (fs.Some? ==> OncePerObject(fs.value)) && ListingsOncePerObject(conns) ==>
      forall i, j :: 0 <= i < j < |r.0| && r.0[i].Read? && r.0[j].Read? ==> r.0[i].chunk.id != r.0[j].chunk.id
  {
    match LogsForDate(fs, conns, notInS3)
    case Failure(e) => ([], Some(e))
    case Success(order) =>
      var events := ReadAll(order);
      if (fs.Some? ==> OncePerObject(fs.value)) && ListingsOncePerObject(conns) then
        ReadsOnce(order, events);
        (events, None)
      else
        (events, None)
  }

  /** Reading a sequence that holds each object once reads no object
      twice. */
  lemma ReadsOnce(order: seq<Chunk>, events: seq<Event>)
    requires OncePerObject(order)
    requires |events| == 2 * |order|
    requires forall i :: 0 <= i < |order| ==> events[2 * i] == Read(order[i]) && events[2 * i + 1] == Yield
    ensures forall i, j :: 0 <= i < j < |events| && events[i].Read? && events[j].Read? ==>
      events[i].chunk.id != events[j].chunk.id
  {
    forall i, j | 0 <= i < j < |events| && events[i].Read? && events[j].Read?
      ensures events[i].chunk.id != events[j].chunk.id
    {
      var a, b := i / 2, j / 2;
      assert events[2 * a + 1] == Yield && events[2 * b + 1] == Yield;
      assert i == 2 * a && j == 2 * b;
      OnceAtPositions(order, a, b);
    }
  }

  function ReadAll(order: seq<Chunk>): (r: seq<Event>)
    ensures |r| == 2 * |order|
    ensures forall i :: 0 <= i < |order| ==> r[2 * i] == Read(order[i]) && r[2 * i + 1] == Yield
  {
    seq(2 * |order|, k requires 0 <= k < 2 * |order| => if k % 2 == 0 then Read(order[k / 2]) else Yield)
  }
}
