/** Names of log chunks in the S3 archive, `clog/scribe_net.py`: the path
    templates `{prefix}{stream}/{year:=04d}/{month:=02d}/{day:=02d}` with a
    `/{aggregator}-{part:=05d}.gz` or `/COMPLETE` leaf, and the regular
    expression `S3_KEY_RE` that reads the stream and date back out of a key
    name. `\w` and `\d` are taken in their ASCII sense. */
module S3Keys {
  import opened Common
  import Decimal
  import Dates
  import Utils

  /** `'{:=0Nd}'.format(n)`: zero padding goes after the sign, and the
      width counts the sign. */
  function FormatInt(n: int, width: nat): (r: string)
    ensures |r| >= width && |r| >= 1
    // exactly max(width, len(str(n))) characters: no zeros beyond the width
    ensures var t := Decimal.IntText(n); |r| == if |t| < width then width else |t|
    ensures n >= 0 ==> Decimal.AllDigits(r) && Decimal.Value(r) == n
    ensures n < 0 ==> r[0] == '-' && Decimal.AllDigits(r[1..]) && Decimal.Value(r[1..]) == -n
  {
    if n >= 0 then Decimal.Padded(n, width)
    else "-" + Decimal.Padded(-n, if width >= 1 then width - 1 else 0)
  }

  /** A formatted integer has no characters but digits and a sign. */
  lemma FormatIntChars(n: int, width: nat)
    ensures '/' !in FormatInt(n, width) && '\n' !in FormatInt(n, width)
  {
    var r := FormatInt(n, width);
    if n < 0 {
      assert r == [r[0]] + r[1..];
    }
  }

  /** The year, month and day of a `datetime.date` in the templates:
      always exactly four, two and two digits. */
  lemma DateFieldWidths(d: Dates.Day)
    ensures |FormatInt(d.year, 4)| == 4 && |FormatInt(d.month, 2)| == 2 && |FormatInt(d.day, 2)| == 2
  {
    Decimal.DigitsFit(d.year, 4);
    Decimal.DigitsFit(d.month, 2);
    Decimal.DigitsFit(d.day, 2);
  }

  /** `str.format` of the key prefix: `None` renders as the word. */
  function PrefixText(prefix: Option<string>): string {
    match prefix
    case None => "None"
    case Some(p) => p
  }

  /** `LOGS_BASE_PATH`. */
  function BasePath(prefix: Option<string>, stream: string, d: Dates.Day): (r: string)
    ensures |r| == |PrefixText(prefix)| + |stream| + 11
    ensures StartsWith(r, PrefixText(prefix) + stream + "/")
  {
    DateFieldWidths(d);
    PrefixText(prefix) + stream + "/" + FormatInt(d.year, 4) + "/" + FormatInt(d.month, 2) + "/" + FormatInt(d.day, 2)
  }

  /** The leaf of `LOG_FILE_PATH`: `{aggregator}-{part:=05d}.gz`. */
  function ChunkLeaf(aggregator: string, part: int): (r: string)
    ensures |r| >= 9 && EndsWith(r, ".gz")
  {
    aggregator + "-" + FormatInt(part, 5) + ".gz"
  }

  /** `LOG_FILE_PATH`. */
  function LogFilePath(prefix: Option<string>, stream: string, d: Dates.Day, aggregator: string, part: int): string {
    BasePath(prefix, stream, d) + "/" + ChunkLeaf(aggregator, part)
  }

  /** Every chunk of a day is stored under the day's base path. */
  lemma ChunkUnderBase(prefix: Option<string>, stream: string, d: Dates.Day, aggregator: string, part: int)
    ensures StartsWith(LogFilePath(prefix, stream, d, aggregator, part), BasePath(prefix, stream, d))
  {
    var b := BasePath(prefix, stream, d);
    assert LogFilePath(prefix, stream, d, aggregator, part)[..|b|] == b;
  }

  /** `COMPLETE_FILE_PATH`. */
  function CompleteFilePath(prefix: Option<string>, stream: string, d: Dates.Day): string {
    BasePath(prefix, stream, d) + "/COMPLETE"
  }

  /** The groups `S3_KEY_RE` captures: the stream name and the integers of
      the three date fields. */
  datatype KeyFields = KeyFields(stream: string, year: int, month: int, day: int)

  /** The length of the run of `[\w-]` characters of `s` starting at
      `from`. */
  function WordRun(s: string, from: nat): (k: nat)
    requires from <= |s|
    ensures from + k <= |s|
    ensures forall q :: from <= q < from + k ==> Utils.Allowed(s[q])
    ensures from + k < |s| ==> !Utils.Allowed(s[from + k])
    decreases |s| - from
  {
    if from == |s| || !Utils.Allowed(s[from]) then 0 else 1 + WordRun(s, from + 1)
  }

  lemma {:induction false} WordRunExact(s: string, from: nat, k: nat)
    requires from + k <= |s|
    requires forall q :: from <= q < from + k ==> Utils.Allowed(s[q])
    requires from + k < |s| ==> !Utils.Allowed(s[from + k])
    ensures WordRun(s, from) == k
    decreases k
  {
    if k > 0 {
      WordRunExact(s, from + 1, k - 1);
    }
  }

  predicate DigitsAt(s: string, from: nat, n: nat) {
    from + n <= |s| && Decimal.AllDigits(s[from..from + n])
  }

  /** What `.+(\.gz)?$` accepts: at least one character other than a
      newline, then the end of the string or one final newline. */
  predicate LineTail(t: string) {
    || (|t| >= 1 && '\n' !in t)
    || (|t| >= 2 && t[|t| - 1] == '\n' && '\n' !in t[..|t| - 1])
  }

  /** Where the stream group of a match starting at `i` ends. */
  function StreamEnd(name: string, i: nat): nat
    requires i < |name|
  {
    i + 1 + WordRun(name, i + 1)
  }

  /** The match of `S3_KEY_RE` in which `.*` ends just before position
      `i`, which must hold the `/` that precedes the stream name. */
  function MatchAt(name: string, i: nat): (r: Option<KeyFields>)
    ensures r.Some? ==> i < |name| && name[i] == '/' && '\n' !in name[..i]
    ensures r.Some? ==> var j := StreamEnd(name, i);
      && i + 2 <= j && j + 12 < |name|
      && name[j] == '/' && name[j + 5] == '/' && name[j + 8] == '/' && name[j + 11] == '/'
  {
    if i >= |name| || name[i] != '/' || '\n' in name[..i] then None
    else
      var j := StreamEnd(name, i);
      if j == i + 1 || j + 12 > |name| then None
      else if && name[j] == '/' && DigitsAt(name, j + 1, 4)
              && name[j + 5] == '/' && DigitsAt(name, j + 6, 2)
              && name[j + 8] == '/' && DigitsAt(name, j + 9, 2)
              && name[j + 11] == '/' && LineTail(name[j + 12..])
      then
        Some(KeyFields(name[i + 1..j], Decimal.Value(name[j + 1..j + 5]),
          Decimal.Value(name[j + 6..j + 8]), Decimal.Value(name[j + 9..j + 11])))
      else None
  }

  /** No match has its `.*` end at any position in `[lo, hi)`. */
  predicate NoMatchIn(name: string, lo: nat, hi: nat) {
    forall i :: lo <= i < hi ==> MatchAt(name, i).None?
  }

  lemma NoMatchExtend(name: string, lo: nat, n: nat)
    requires lo < n && NoMatchIn(name, lo, n - 1) && MatchAt(name, n - 1).None?
    ensures NoMatchIn(name, lo, n)
  {
  }

  /** Backtracking from the longest `.*`: the last position below `n` at
      which the rest of the expression matches. */
  function LastMatch(name: string, n: nat): (r: Option<(nat, KeyFields)>)
    ensures r.Some? ==> r.value.0 < n && MatchAt(name, r.value.0) == Some(r.value.1)
    ensures r.Some? ==> NoMatchIn(name, r.value.0 + 1, n)
    ensures r.None? ==> NoMatchIn(name, 0, n)
    decreases n
  {
    if n == 0 then None
    else
      match MatchAt(name, n - 1)
      case Some(f) => Some((n - 1, f))
      case None =>
        var r := LastMatch(name, n - 1);
        if r.Some? then NoMatchExtend(name, r.value.0 + 1, n); r
        else NoMatchExtend(name, 0, n); r
  }

  /** `S3_KEY_RE.match(name)`, reduced to the groups it captures. */
  function ParseKey(name: string): (r: Option<KeyFields>)
    ensures r.Some? <==> exists i :: 0 <= i < |name| && MatchAt(name, i).Some?
  {
    match LastMatch(name, |name|)
    case None => None
    case Some((_, f)) => Some(f)
  }

  /** A match at position `i` with no match above it is the one taken. */
  lemma ParseKeyAt(name: string, i: nat, f: KeyFields)
    requires MatchAt(name, i) == Some(f)
    requires NoMatchIn(name, i + 1, |name|)
    ensures ParseKey(name) == Some(f)
  {
    var r := LastMatch(name, |name|);
    assert i < |name|;
    assert r.Some?;
  }

  /** A key name put together from its parts. */
  function Assemble(p: string, stream: string, y: string, m: string, dd: string, leaf: string): string {
    p + stream + "/" + y + "/" + m + "/" + dd + "/" + leaf
  }

  /** Where each part of an assembled name sits, when the date fields have
      their template widths. */
  predicate Layout(name: string, p: string, stream: string, y: string, m: string, dd: string, leaf: string) {
    var a, j := |p|, |p| + |stream|;
    && |y| == 4 && |m| == 2 && |dd| == 2
    && |name| == j + 12 + |leaf|
    && name[..a] == p && name[a..j] == stream
    && name[j] == '/' && name[j + 1..j + 5] == y
    && name[j + 5] == '/' && name[j + 6..j + 8] == m
    && name[j + 8] == '/' && name[j + 9..j + 11] == dd
    && name[j + 11] == '/' && name[j + 12..] == leaf
  }

  /** Where each part sits in the text after the stream name. */
  predicate TailLayout(t: string, y: string, m: string, dd: string, leaf: string) {
    && |y| == 4 && |m| == 2 && |dd| == 2
    && |t| == 12 + |leaf|
    && t[0] == '/' && t[1..5] == y
    && t[5] == '/' && t[6..8] == m
    && t[8] == '/' && t[9..11] == dd
    && t[11] == '/' && t[12..] == leaf
  }

  lemma TailOf(y: string, m: string, dd: string, leaf: string)
    requires |y| == 4 && |m| == 2 && |dd| == 2
    ensures TailLayout("/" + y + "/" + m + "/" + dd + "/" + leaf, y, m, dd, leaf)
  {
    var t := "/" + y + "/" + m + "/" + dd + "/" + leaf;
    assert t == "/" + y + ("/" + m + ("/" + dd + ("/" + leaf)));
  }

  lemma LayoutOfParts(name: string, p: string, stream: string, t: string, y: string, m: string, dd: string, leaf: string)
    requires name == (p + stream) + t && TailLayout(t, y, m, dd, leaf)
    ensures Layout(name, p, stream, y, m, dd, leaf)
  {
    var j := |p| + |stream|;
    assert name[..|p|] == p && name[|p|..j] == stream;
    assert name[j..] == t;
    assert name[j + 1..j + 5] == t[1..5];
    assert name[j + 6..j + 8] == t[6..8];
    assert name[j + 9..j + 11] == t[9..11];
    assert name[j + 12..] == t[12..];
  }

  lemma AssembleLayout(p: string, stream: string, y: string, m: string, dd: string, leaf: string)
    requires |y| == 4 && |m| == 2 && |dd| == 2
    ensures Layout(Assemble(p, stream, y, m, dd, leaf), p, stream, y, m, dd, leaf)
  {
    var t := "/" + y + "/" + m + "/" + dd + "/" + leaf;
    TailOf(y, m, dd, leaf);
    assert Assemble(p, stream, y, m, dd, leaf) == (p + stream) + t;
    LayoutOfParts(Assemble(p, stream, y, m, dd, leaf), p, stream, t, y, m, dd, leaf);
  }

  /** A key name is the prefix's text and the stream, then the three date
      fields and the leaf, each after a slash. */
  lemma ChunkKeyLayout(prefix: Option<string>, stream: string, d: Dates.Day, aggregator: string, part: int)
    ensures LogFilePath(prefix, stream, d, aggregator, part) ==
      Assemble(PrefixText(prefix), stream, FormatInt(d.year, 4), FormatInt(d.month, 2), FormatInt(d.day, 2),
        ChunkLeaf(aggregator, part))
  {
    var p, y, m, dd, leaf := PrefixText(prefix), FormatInt(d.year, 4), FormatInt(d.month, 2), FormatInt(d.day, 2),
      ChunkLeaf(aggregator, part);
    var base := p + stream + "/" + y + "/" + m + "/" + dd;
    assert BasePath(prefix, stream, d) == base;
    assert Assemble(p, stream, y, m, dd, leaf) == base + "/" + leaf;
  }

  /** The characters of the parts after the prefix: the stream is `[\w-]*`,
      the date fields are digits and the leaf has no slash. */
  predicate PlainParts(stream: string, y: string, m: string, dd: string, leaf: string) {
    && Utils.IsCategory(stream)
    && Decimal.AllDigits(y) && Decimal.AllDigits(m) && Decimal.AllDigits(dd)
    && '/' !in leaf
  }

  /** Past the prefix, the only slashes are the four the template puts
      around the date. */
  lemma LaidOutSlashes(name: string, p: string, stream: string, y: string, m: string, dd: string, leaf: string, q: nat)
    requires Layout(name, p, stream, y, m, dd, leaf) && PlainParts(stream, y, m, dd, leaf)
    requires q < |name| && name[q] == '/'
    requires |p| <= q || '/' !in p
    ensures var j := |p| + |stream|; q == j || q == j + 5 || q == j + 8 || q == j + 11
  {
  }

  /** When a name has no slash at or after `lo` except four spaced like a
      date's, `S3_KEY_RE` cannot start its stream there: a match needs four
      more slashes after the one it starts at. */
  lemma NoMatchAmongFourSlashes(name: string, lo: nat, j0: nat)
    requires lo <= j0
    requires forall q :: lo <= q < |name| && name[q] == '/' ==>
      q == j0 || q == j0 + 5 || q == j0 + 8 || q == j0 + 11
    ensures NoMatchIn(name, lo, |name|)
  {
    forall i | lo <= i < |name|
      ensures MatchAt(name, i).None?
    {
      if MatchAt(name, i).Some? {
        assert false;
      }
    }
  }

  /** The conditions of `MatchAt`, one by one. */
  lemma MatchAtIntro(name: string, i: nat, j: nat)
    requires i < |name| && name[i] == '/' && '\n' !in name[..i]
    requires StreamEnd(name, i) == j && i + 2 <= j && j + 12 <= |name|
    requires name[j] == '/' && DigitsAt(name, j + 1, 4)
    requires name[j + 5] == '/' && DigitsAt(name, j + 6, 2)
    requires name[j + 8] == '/' && DigitsAt(name, j + 9, 2)
    requires name[j + 11] == '/' && LineTail(name[j + 12..])
    ensures MatchAt(name, i) == Some(KeyFields(name[i + 1..j], Decimal.Value(name[j + 1..j + 5]),
      Decimal.Value(name[j + 6..j + 8]), Decimal.Value(name[j + 9..j + 11])))
  {
  }

  /** The match the template guarantees: right after the prefix's final
      slash. */
  lemma LaidOutMatch(name: string, p: string, stream: string, y: string, m: string, dd: string, leaf: string)
    requires Layout(name, p, stream, y, m, dd, leaf) && PlainParts(stream, y, m, dd, leaf)
    requires |p| > 0 && p[|p| - 1] == '/' && '\n' !in p
    requires |stream| > 0 && |leaf| > 0 && '\n' !in leaf
    ensures MatchAt(name, |p| - 1) ==
      Some(KeyFields(stream, Decimal.Value(y), Decimal.Value(m), Decimal.Value(dd)))
  {
    var a, j := |p|, |p| + |stream|;
    assert name[a - 1] == '/' && '\n' !in name[..a - 1] by {
      assert name[a - 1] == name[..a][a - 1];
      assert name[..a - 1] == p[..a - 1];
    }
    assert forall q :: a <= q < j ==> Utils.Allowed(name[q]) by {
      forall q | a <= q < j
        ensures Utils.Allowed(name[q])
      {
        assert name[q] == name[a..j][q - a] == stream[q - a];
        assert Utils.Allowed(stream[q - a]);
      }
    }
    WordRunExact(name, a, |stream|);
    assert LineTail(name[j + 12..]);
    MatchAtIntro(name, a - 1, j);
  }

  /** What the template's leaf is made of. */
  lemma LeafChars(aggregator: string, part: int)
    requires '/' !in aggregator && '\n' !in aggregator
    ensures '/' !in ChunkLeaf(aggregator, part) && '\n' !in ChunkLeaf(aggregator, part)
  {
    var f := FormatInt(part, 5);
    FormatIntChars(part, 5);
    NotInConcat(aggregator + "-", f, '/');
    NotInConcat(aggregator + "-", f, '\n');
    NotInConcat(aggregator + "-" + f, ".gz", '/');
    NotInConcat(aggregator + "-" + f, ".gz", '\n');
  }

  lemma NotInConcat(a: string, b: string, c: char)
    requires c !in a && c !in b
    ensures c !in a + b
  {
  }

  /** The year, month and day fields of a date read back as its integers. */
  lemma DateFields(d: Dates.Day)
    ensures var y, m, dd := FormatInt(d.year, 4), FormatInt(d.month, 2), FormatInt(d.day, 2);
      && |y| == 4 && |m| == 2 && |dd| == 2
      && Decimal.AllDigits(y) && Decimal.AllDigits(m) && Decimal.AllDigits(dd)
      && Decimal.Value(y) == d.year && Decimal.Value(m) == d.month && Decimal.Value(dd) == d.day
  {
    DateFieldWidths(d);
  }

  /** A chunk's key name laid out, with the characters of its parts. */
  lemma ChunkKeyParts(prefix: Option<string>, stream: string, d: Dates.Day, aggregator: string, part: int)
    requires Utils.IsCategory(stream)
    requires '/' !in aggregator && '\n' !in aggregator
    ensures var y, m, dd := FormatInt(d.year, 4), FormatInt(d.month, 2), FormatInt(d.day, 2);
      var leaf := ChunkLeaf(aggregator, part);
      && Layout(LogFilePath(prefix, stream, d, aggregator, part), PrefixText(prefix), stream, y, m, dd, leaf)
      && PlainParts(stream, y, m, dd, leaf)
      && |leaf| > 0 && '\n' !in leaf
      && Decimal.Value(y) == d.year && Decimal.Value(m) == d.month && Decimal.Value(dd) == d.day
  {
    var y, m, dd := FormatInt(d.year, 4), FormatInt(d.month, 2), FormatInt(d.day, 2);
    var leaf := ChunkLeaf(aggregator, part);
    ChunkKeyLayout(prefix, stream, d, aggregator, part);
    DateFields(d);
    LeafChars(aggregator, part);
    AssembleLayout(PrefixText(prefix), stream, y, m, dd, leaf);
  }

  /** A name laid out after a slash-terminated prefix parses as its stream
      and date fields. */
  lemma LaidOutParse(name: string, p: string, stream: string, y: string, m: string, dd: string, leaf: string)
    requires Layout(name, p, stream, y, m, dd, leaf) && PlainParts(stream, y, m, dd, leaf)
    requires |p| > 0 && p[|p| - 1] == '/' && '\n' !in p
    requires |stream| > 0 && |leaf| > 0 && '\n' !in leaf
    ensures ParseKey(name) == Some(KeyFields(stream, Decimal.Value(y), Decimal.Value(m), Decimal.Value(dd)))
  {
    LaidOutMatch(name, p, stream, y, m, dd, leaf);
    forall q | |p| <= q < |name| && name[q] == '/'
      ensures var j0 := |p| + |stream|; q == j0 || q == j0 + 5 || q == j0 + 8 || q == j0 + 11
    {
      LaidOutSlashes(name, p, stream, y, m, dd, leaf, q);
    }
    NoMatchAmongFourSlashes(name, |p|, |p| + |stream|);
    ParseKeyAt(name, |p| - 1, KeyFields(stream, Decimal.Value(y), Decimal.Value(m), Decimal.Value(dd)));
  }

  /** A name laid out after a prefix without slashes does not parse. */
  lemma LaidOutNoParse(name: string, p: string, stream: string, y: string, m: string, dd: string, leaf: string)
    requires Layout(name, p, stream, y, m, dd, leaf) && PlainParts(stream, y, m, dd, leaf)
    requires '/' !in p
    ensures ParseKey(name).None?
  {
    var j0 := |p| + |stream|;
    forall q | 0 <= q < |name| && name[q] == '/'
      ensures q == j0 || q == j0 + 5 || q == j0 + 8 || q == j0 + 11
    {
      LaidOutSlashes(name, p, stream, y, m, dd, leaf, q);
    }
    NoMatchAmongFourSlashes(name, 0, j0);
  }

  /** Reading a chunk's key name back: when the prefix ends in a slash and
      holds no newline, the stream is a non-empty run of `[\w-]` and the
      aggregator holds neither slash nor newline, `S3_KEY_RE` recovers the
      stream and the date the name was built from. */
  lemma ParseChunkKey(p: string, stream: string, d: Dates.Day, aggregator: string, part: int)
    requires |p| > 0 && p[|p| - 1] == '/' && '\n' !in p
    requires |stream| > 0 && Utils.IsCategory(stream)
    requires '/' !in aggregator && '\n' !in aggregator
    ensures ParseKey(LogFilePath(Some(p), stream, d, aggregator, part)) ==
      Some(KeyFields(stream, d.year, d.month, d.day))
  {
    ChunkKeyParts(Some(p), stream, d, aggregator, part);
    LaidOutParse(LogFilePath(Some(p), stream, d, aggregator, part), p, stream,
      FormatInt(d.year, 4), FormatInt(d.month, 2), FormatInt(d.day, 2), ChunkLeaf(aggregator, part));
  }

  /** With no key prefix the templates begin with the word `None` and the
      stream name runs straight into it, so no slash precedes the stream
      and `S3_KEY_RE` rejects every chunk name they produce. */
  lemma UnsetPrefixKeysRejected(stream: string, d: Dates.Day, aggregator: string, part: int)
    requires Utils.IsCategory(stream)
    requires '/' !in aggregator && '\n' !in aggregator
    ensures ParseKey(LogFilePath(None, stream, d, aggregator, part)).None?
  {
    assert '/' !in PrefixText(None);
    SlashFreePrefixRejected(None, stream, d, aggregator, part);
  }

  /** Any key prefix without a slash leaves the stream name joined to it,
      so `S3_KEY_RE` rejects the chunk names. */
  lemma SlashFreePrefixRejected(prefix: Option<string>, stream: string, d: Dates.Day, aggregator: string, part: int)
    requires '/' !in PrefixText(prefix)
    requires Utils.IsCategory(stream)
    requires '/' !in aggregator && '\n' !in aggregator
    ensures ParseKey(LogFilePath(prefix, stream, d, aggregator, part)).None?
  {
    ChunkKeyParts(prefix, stream, d, aggregator, part);
    LaidOutNoParse(LogFilePath(prefix, stream, d, aggregator, part), PrefixText(prefix), stream,
      FormatInt(d.year, 4), FormatInt(d.month, 2), FormatInt(d.day, 2), ChunkLeaf(aggregator, part));
  }
}
