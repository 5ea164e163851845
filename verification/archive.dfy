/** The small pure helpers of `clog/readers.py` that locate archived logs:
    splitting an S3 bucket setting into bucket and key prefix, choosing
    the bucket for a stream, listing the local chunk files of a stream for
    one day, and the `get` command a date-range read sends. */
module Archive {
  import opened Common
  import Decimal
  import Dates
  import Ordering
  import Fragments

  /** `_split_bucket_and_prefix(bucket)`: `bucket.split('/', 1)`, with
      `None` as the prefix when there is no slash. */
  function SplitBucketAndPrefix(bucket: string): (r: (string, Option<string>))
    ensures r.1.None? <==> '/' !in bucket
    ensures r.1.None? ==> r.0 == bucket
    ensures r.1.Some? ==> r.0 + "/" + r.1.value == bucket && '/' !in r.0
  {
    match IndexOf(bucket, '/')
    case None => (bucket, None)
    case Some(i) =>
      assert bucket[..i] + "/" + bucket[i + 1..] == bucket;
      (bucket[..i], Some(bucket[i + 1..]))
  }

  /** Splitting keeps every slash after the first inside the prefix: the
      prefix is everything after the first slash. */
  lemma SplitAtFirstSlash(name: string, rest: string)
    requires '/' !in name
    ensures SplitBucketAndPrefix(name + "/" + rest) == (name, Some(rest))
  {
    var b := name + "/" + rest;
    assert b[|name|] == '/';
    var i := IndexOf(b, '/').value;
    assert b[..i] == name;
    assert b[i + 1..] == rest;
  }

  datatype KeyError = KeyError(key: string)

  /** `get_bucket(buckets, stream_name)`: the `'tmp'` entry for streams
      named `tmp_...`, the `'standard'` entry for all others; a missing
      entry is the `KeyError` of the dictionary lookup. */
  function GetBucket(buckets: map<string, string>, stream: string): (r: Result<string, KeyError>)
    ensures var kind := if StartsWith(stream, "tmp_") then "tmp" else "standard";
      && (r.Success? <==> kind in buckets)
      && (r.Success? ==> r.value == buckets[kind])
      && (r.Failure? ==> r.error == KeyError(kind))
  {
    var kind := if StartsWith(stream, "tmp_") then "tmp" else "standard";
    if kind in buckets then Success(buckets[kind]) else Failure(KeyError(kind))
  }

  /** `os.path.join(a, b)` on POSIX. */
  function PathJoin(a: string, b: string): (r: string)
    ensures EndsWith(r, b)
    ensures StartsWith(b, "/") ==> r == b
    ensures !StartsWith(b, "/") ==> StartsWith(r, a) && |a| + |b| <= |r| <= |a| + 1 + |b|
    // a separator is added exactly when the first part is a non-empty path
    // without a trailing slash, and it is a slash
    ensures !StartsWith(b, "/") ==> (|r| == |a| + 1 + |b| <==> |a| > 0 && !EndsWith(a, "/"))
    ensures |r| == |a| + 1 + |b| ==> r[|a|] == '/'
  {
    if StartsWith(b, "/") then b
    else if |a| == 0 || EndsWith(a, "/") then a + b
    else a + "/" + b
  }

  /** Joining a relative name onto a non-empty directory puts the
      directory, then a slash only if the directory has none at its end,
      then the name: what precedes the name always ends in `/`. */
  lemma PathJoinOneSlash(a: string, b: string)
    requires !StartsWith(b, "/") && |a| > 0
    ensures var r := PathJoin(a, b);
      && r == r[..|r| - |b|] + b
      && EndsWith(r[..|r| - |b|], "/")
      && (EndsWith(a, "/") ==> r[..|r| - |b|] == a)
      && (!EndsWith(a, "/") ==> r[..|r| - |b|] == a + "/")
  {
    var r := PathJoin(a, b);
    if EndsWith(a, "/") {
      assert r[..|r| - |b|] == a;
    } else {
      assert r[..|r| - |b|] == a + "/";
    }
  }

  /** The chunk files of one directory that the pattern accepts for `day`,
      joined to the directory. `parse` is the chunk-file pattern: the
      (year, month, day) it reads from a file name, or `None` when the name
      does not match. */
  function MatchesIn(root: string, files: seq<string>, parse: string -> Option<Dates.Date>, day: Dates.Date): seq<string>
    decreases |files|
  {
    if |files| == 0 then []
    else
      var here := if parse(files[0]) == Some(day) then [PathJoin(root, files[0])] else [];
      here + MatchesIn(root, files[1..], parse, day)
  }

  /** The accumulated `result` list of `chunk_filenames`, before sorting,
      over the `(root, filenames)` entries of `os.walk(stream_path)`. */
  function Matches(walk: seq<(string, seq<string>)>, parse: string -> Option<Dates.Date>, day: Dates.Date): seq<string>
    decreases |walk|
  {
    if |walk| == 0 then []
    else MatchesIn(walk[0].0, walk[0].1, parse, day) + Matches(walk[1..], parse, day)
  }

  /** A file of some walked directory that the pattern dates to `day`. */
  predicate ChunkOf(walk: seq<(string, seq<string>)>, parse: string -> Option<Dates.Date>, day: Dates.Date, x: string) {
    exists i, j :: 0 <= i < |walk| && 0 <= j < |walk[i].1|
      && parse(walk[i].1[j]) == Some(day) && x == PathJoin(walk[i].0, walk[i].1[j])
  }

  lemma {:induction false} MatchesInSpec(root: string, files: seq<string>, parse: string -> Option<Dates.Date>, day: Dates.Date, x: string)
    ensures x in MatchesIn(root, files, parse, day) <==>
      exists j :: 0 <= j < |files| && parse(files[j]) == Some(day) && x == PathJoin(root, files[j])
    decreases |files|
  {
    if |files| > 0 {
      MatchesInSpec(root, files[1..], parse, day, x);
      if x in MatchesIn(root, files[1..], parse, day) {
        var j :| 0 <= j < |files[1..]| && parse(files[1..][j]) == Some(day) && x == PathJoin(root, files[1..][j]);
        assert files[j + 1] == files[1..][j];
      }
      if exists j :: 0 <= j < |files| && parse(files[j]) == Some(day) && x == PathJoin(root, files[j]) {
        var j :| 0 <= j < |files| && parse(files[j]) == Some(day) && x == PathJoin(root, files[j]);
        if j > 0 {
          assert files[1..][j - 1] == files[j];
        }
      }
    }
  }

  /** The listed paths are exactly the walked files dated to the day. */
  lemma {:induction false} MatchesSpec(walk: seq<(string, seq<string>)>, parse: string -> Option<Dates.Date>, day: Dates.Date, x: string)
    ensures x in Matches(walk, parse, day) <==> ChunkOf(walk, parse, day, x)
    decreases |walk|
  {
    if |walk| > 0 {
      MatchesSpec(walk[1..], parse, day, x);
      MatchesInSpec(walk[0].0, walk[0].1, parse, day, x);
      if ChunkOf(walk[1..], parse, day, x) {
        var i, j :| 0 <= i < |walk[1..]| && 0 <= j < |walk[1..][i].1|
          && parse(walk[1..][i].1[j]) == Some(day) && x == PathJoin(walk[1..][i].0, walk[1..][i].1[j]);
        assert walk[1..][i] == walk[i + 1];
      }
      if ChunkOf(walk, parse, day, x) {
        var i, j :| 0 <= i < |walk| && 0 <= j < |walk[i].1|
          && parse(walk[i].1[j]) == Some(day) && x == PathJoin(walk[i].0, walk[i].1[j]);
        if i > 0 {
          assert walk[1..][i - 1] == walk[i];
        }
      }
    }
  }

  /** `NoLogDataError((stream_path, date))`. */
  datatype NoLogData = NoLogDataError(path: string, day: Dates.Date)

  /** `CLogStreamReader.chunk_filenames()`: nothing for an empty stream
      name; otherwise the matching chunk paths in sorted order, or
      `NoLogDataError` when there are none and `fail_on_missing` is set. */
  function ChunkFilenames(streamName: string, streamDir: string, day: Dates.Day, failOnMissing: bool,
                          walk: seq<(string, seq<string>)>, parse: string -> Option<Dates.Date>): (r: Result<seq<string>, NoLogData>)
    ensures |streamName| == 0 ==> r == Success([])
    ensures r.Failure? <==> |streamName| > 0 && failOnMissing && |Matches(walk, parse, day)| == 0
    ensures r.Failure? ==> r.error == NoLogDataError(PathJoin(streamDir, streamName), day)
    ensures r.Success? && |streamName| > 0 ==>
      Ordering.Sorted(r.value) && multiset(r.value) == multiset(Matches(walk, parse, day))
  {
    if |streamName| == 0 then Success([])
    else
      var found := Matches(walk, parse, day);
      if |found| == 0 && failOnMissing then Failure(NoLogDataError(PathJoin(streamDir, streamName), day))
      else Success(Ordering.Sort(found))
  }

  /** What `chunk_filenames` returns is determined by the walk: exactly the
      walked files dated to the day, each as often as it was walked, in the
      one sorted order. */
  lemma ChunkFilenamesSpec(streamName: string, streamDir: string, day: Dates.Day, failOnMissing: bool,
                           walk: seq<(string, seq<string>)>, parse: string -> Option<Dates.Date>,
                           listed: seq<string>)
    requires |streamName| > 0
    requires Ordering.Sorted(listed) && multiset(listed) == multiset(Matches(walk, parse, day))
    requires |listed| > 0 || !failOnMissing
    ensures ChunkFilenames(streamName, streamDir, day, failOnMissing, walk, parse) == Success(listed)
    ensures forall x :: x in listed <==> ChunkOf(walk, parse, day, x)
  {
    var r := ChunkFilenames(streamName, streamDir, day, failOnMissing, walk, parse);
    assert |multiset(listed)| == |listed|;
    assert r.Success?;
    Ordering.SortedUnique(r.value, listed);
    forall x
      ensures x in listed <==> ChunkOf(walk, parse, day, x)
    {
      MatchesSpec(walk, parse, day, x);
      assert x in listed <==> x in multiset(listed);
      assert x in Matches(walk, parse, day) <==> x in multiset(Matches(walk, parse, day));
    }
  }

  /** `'%04d-%02d-%02d' % (d.year, d.month, d.day)`. */
  function DateText(d: Dates.Day): (r: string)
    ensures |r| == 10
  {
    Decimal.DigitsFit(d.year, 4);
    Decimal.DigitsFit(d.month, 2);
    Decimal.DigitsFit(d.day, 2);
    Decimal.Padded(d.year, 4) + "-" + Decimal.Padded(d.month, 2) + "-" + Decimal.Padded(d.day, 2)
  }

  /** Reading a `YYYY-MM-DD` field back: three dash-separated runs of
      digits. */
  function ParseDate(text: string): Option<Dates.Date> {
    var parts := Fragments.Split(text, '-');
    if |parts| == 3 && Decimal.AllDigits(parts[0]) && Decimal.AllDigits(parts[1]) && Decimal.AllDigits(parts[2])
    then Some(Dates.Date(Decimal.Value(parts[0]), Decimal.Value(parts[1]), Decimal.Value(parts[2])))
    else None
  }

  lemma DigitsHaveNo(s: string, c: char)
    requires Decimal.AllDigits(s) && !Decimal.IsDigit(c)
    ensures c !in s
  {
  }

  lemma JoinThree(a: string, b: string, c: string, sep: char)
    ensures Fragments.JoinWith([a, b, c], sep) == a + [sep] + b + [sep] + c
  {
    Fragments.JoinCons(a, [b, c], sep);
    Fragments.JoinCons(b, [c], sep);
    assert [a, b, c] == [a] + [b, c] && [b, c] == [b] + [c];
  }

  lemma DateTextIsJoin(d: Dates.Day)
    ensures DateText(d) == Fragments.JoinWith([Decimal.Padded(d.year, 4), Decimal.Padded(d.month, 2), Decimal.Padded(d.day, 2)], '-')
    ensures Decimal.AllDigits(Decimal.Padded(d.year, 4)) && Decimal.AllDigits(Decimal.Padded(d.month, 2))
      && Decimal.AllDigits(Decimal.Padded(d.day, 2))
  {
    JoinThree(Decimal.Padded(d.year, 4), Decimal.Padded(d.month, 2), Decimal.Padded(d.day, 2), '-');
  }

  /** The rendered date reads back as the same date. */
  lemma ParseDateText(d: Dates.Day)
    ensures ParseDate(DateText(d)) == Some(d)
  {
    var y, m, dd := Decimal.Padded(d.year, 4), Decimal.Padded(d.month, 2), Decimal.Padded(d.day, 2);
    var parts := [y, m, dd];
    DateTextIsJoin(d);
    DigitsHaveNo(y, '-');
    DigitsHaveNo(m, '-');
    DigitsHaveNo(dd, '-');
    Fragments.SplitJoin(parts, '-');
  }

  lemma DateTextHasNoSpace(d: Dates.Day)
    ensures ' ' !in DateText(d)
  {
    var y, m, dd := Decimal.Padded(d.year, 4), Decimal.Padded(d.month, 2), Decimal.Padded(d.day, 2);
    DateTextIsJoin(d);
    DigitsHaveNo(y, ' ');
    DigitsHaveNo(m, ' ');
    DigitsHaveNo(dd, ' ');
    Fragments.JoinWithout([y, m, dd], '-', ' ');
  }

  /** The command of `read_date_range` when reading through the tail
      server: `get <stream> <start> <end>`. */
  function GetCommand(stream: string, start: Dates.Day, end: Dates.Day): (r: string)
    ensures StartsWith(r, "get ") && |r| == |stream| + 26
  {
    "get " + stream + " " + DateText(start) + " " + DateText(end)
  }

  lemma GetCommandIsJoin(stream: string, start: Dates.Day, end: Dates.Day)
    ensures GetCommand(stream, start, end) == Fragments.JoinWith(["get", stream, DateText(start), DateText(end)], ' ')
  {
    var a, b := DateText(start), DateText(end);
    JoinFour("get", stream, a, b, ' ');
    assert "get " == "get" + [' '];
  }

  lemma JoinFour(a: string, b: string, c: string, d: string, sep: char)
    ensures Fragments.JoinWith([a, b, c, d], sep) == a + [sep] + b + [sep] + c + [sep] + d
  {
    Fragments.JoinCons(a, [b, c, d], sep);
    JoinThree(b, c, d, sep);
    assert [a, b, c, d] == [a] + [b, c, d];
  }

  /** Splitting the command at spaces gives the verb, the stream and both
      dates, which read back as the requested dates. */
  lemma GetCommandFields(stream: string, start: Dates.Day, end: Dates.Day)
    requires ' ' !in stream
    ensures var f := Fragments.Split(GetCommand(stream, start, end), ' ');
      && |f| == 4 && f[0] == "get" && f[1] == stream
      && ParseDate(f[2]) == Some(start) && ParseDate(f[3]) == Some(end)
  {
    GetCommandIsJoin(stream, start, end);
    ParseDateText(start);
    ParseDateText(end);
    DateTextHasNoSpace(start);
    DateTextHasNoSpace(end);
    SplitFour("get", stream, DateText(start), DateText(end));
  }

  /** Four fields without spaces, joined by spaces, split back apart. */
  lemma SplitFour(a: string, b: string, c: string, d: string)
    requires ' ' !in a && ' ' !in b && ' ' !in c && ' ' !in d
    ensures Fragments.Split(Fragments.JoinWith([a, b, c, d], ' '), ' ') == [a, b, c, d]
  {
    var parts := [a, b, c, d];
    assert forall i :: 0 <= i < |parts| ==> ' ' !in parts[i];
    Fragments.SplitJoin(parts, ' ');
  }
}
