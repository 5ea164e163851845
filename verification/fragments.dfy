/** Splitting a sequence at every occurrence of a separator element and
    joining fragments back with it: Python's `data.split(b'\n')` and
    `' '.join(parts)`. The tailer's record framing and the handshake's field
    layout are both stated in these terms. */
module Fragments {
  import opened Common

  /** `s.split(sep)`: the maximal separator-free runs of `s`, one more than
      the number of separators (so the empty sequence splits into `[[]]`). */
  function Split<T(==)>(s: seq<T>, sep: T): (r: seq<seq<T>>)
    ensures |r| >= 1
    ensures forall i :: 0 <= i < |r| ==> sep !in r[i]
    decreases |s|
  {
    if |s| == 0 then [[]]
    else
      var rest := Split(s[1..], sep);
      if s[0] == sep then [[]] + rest
      else [[s[0]] + rest[0]] + rest[1..]
  }

  /** `sep.join(parts)`. */
  function JoinWith<T>(parts: seq<seq<T>>, sep: T): seq<T>
    decreases |parts|
  {
    if |parts| == 0 then []
    else if |parts| == 1 then parts[0]
    else parts[0] + [sep] + JoinWith(parts[1..], sep)
  }

  /** The fragments terminated by a separator: every fragment but the last. */
  function Completed<T(==)>(s: seq<T>, sep: T): seq<seq<T>> {
    var parts := Split(s, sep);
    parts[..|parts| - 1]
  }

  /** The trailing fragment that no separator has closed yet. */
  function Carry<T(==)>(s: seq<T>, sep: T): seq<T> {
    var parts := Split(s, sep);
    parts[|parts| - 1]
  }

  /** Joining the fragments restores the input: splitting loses nothing. */
  lemma {:induction false} JoinSplit<T>(s: seq<T>, sep: T)
    ensures JoinWith(Split(s, sep), sep) == s
    decreases |s|
  {
    if |s| > 0 {
      var rest := Split(s[1..], sep);
      JoinSplit(s[1..], sep);
      if s[0] == sep {
        assert Split(s, sep) == [[]] + rest;
        assert ([[]] + rest)[1..] == rest;
      } else {
        var r := Split(s, sep);
        assert r == [[s[0]] + rest[0]] + rest[1..];
        if |rest| == 1 {
          assert JoinWith(r, sep) == [s[0]] + rest[0];
        } else {
          assert r[1..] == rest[1..];
          assert JoinWith(r, sep) == [s[0]] + rest[0] + [sep] + JoinWith(rest[1..], sep);
          assert JoinWith(rest, sep) == rest[0] + [sep] + JoinWith(rest[1..], sep);
        }
      }
    }
  }

  lemma JoinCons<T>(x: seq<T>, rest: seq<seq<T>>, sep: T)
    requires |rest| >= 1
    ensures JoinWith([x] + rest, sep) == x + [sep] + JoinWith(rest, sep)
  {
    assert ([x] + rest)[1..] == rest;
  }

  lemma {:induction false} SplitWithoutSeparator<T>(s: seq<T>, sep: T)
    requires sep !in s
    ensures Split(s, sep) == [s]
    decreases |s|
  {
    if |s| > 0 {
      assert sep !in s[1..];
      SplitWithoutSeparator(s[1..], sep);
      assert [s[0]] + s[1..] == s;
    }
  }

  /** A single fragment exactly when there is no separator. */
  lemma SingleFragment<T>(s: seq<T>, sep: T)
    ensures |Split(s, sep)| == 1 <==> sep !in s
  {
    if sep !in s {
      SplitWithoutSeparator(s, sep);
    } else {
      JoinSplit(s, sep);
    }
  }

  lemma {:induction false} SplitAfterSeparator<T>(a: seq<T>, b: seq<T>, sep: T)
    requires sep !in a
    ensures Split(a + [sep] + b, sep) == [a] + Split(b, sep)
    decreases |a|
  {
    var s := a + [sep] + b;
    if |a| == 0 {
      assert s == [sep] + b;
      assert s[1..] == b;
    } else {
      assert s[1..] == a[1..] + [sep] + b;
      assert sep !in a[1..];
      SplitAfterSeparator(a[1..], b, sep);
      assert [a[0]] + a[1..] == a;
    }
  }

  /** Splitting undoes joining when no part contains the separator. */
  lemma {:induction false} SplitJoin<T>(parts: seq<seq<T>>, sep: T)
    requires |parts| >= 1
    requires forall i :: 0 <= i < |parts| ==> sep !in parts[i]
    ensures Split(JoinWith(parts, sep), sep) == parts
    decreases |parts|
  {
    if |parts| == 1 {
      SplitWithoutSeparator(parts[0], sep);
    } else {
      SplitJoin(parts[1..], sep);
      SplitAfterSeparator(parts[0], JoinWith(parts[1..], sep), sep);
      assert [parts[0]] + parts[1..] == parts;
    }
  }

  /** An element that is neither the separator nor inside any part does not
      occur in the join. */
  lemma {:induction false} JoinWithout<T>(parts: seq<seq<T>>, sep: T, x: T)
    requires x != sep
    requires forall i :: 0 <= i < |parts| ==> x !in parts[i]
    ensures x !in JoinWith(parts, sep)
    decreases |parts|
  {
    if |parts| > 1 {
      JoinWithout(parts[1..], sep, x);
    }
  }

  /** The fragments of `A` and then of `B`, where the last fragment of `A`
      and the first of `B` are one fragment. */
  function Fuse<T>(A: seq<seq<T>>, B: seq<seq<T>>): seq<seq<T>>
    requires |A| >= 1 && |B| >= 1
  {
    A[..|A| - 1] + [A[|A| - 1] + B[0]] + B[1..]
  }

  lemma FuseCons<T>(x: seq<T>, A: seq<seq<T>>, B: seq<seq<T>>)
    requires |A| >= 1 && |B| >= 1
    ensures Fuse([x] + A, B) == [x] + Fuse(A, B)
  {
    assert ([x] + A)[..|A|] == [x] + A[..|A| - 1];
  }

  lemma FuseExtendHead<T>(c: T, A: seq<seq<T>>, B: seq<seq<T>>)
    requires |A| >= 1 && |B| >= 1
    ensures var R := Fuse(A, B);
      [[c] + R[0]] + R[1..] == Fuse([[c] + A[0]] + A[1..], B)
  {
    var R := Fuse(A, B);
    var A2 := [[c] + A[0]] + A[1..];
    if |A| == 1 {
      assert R == [A[0] + B[0]] + B[1..];
      assert R[0] == A[0] + B[0];
      assert R[1..] == B[1..];
      assert A[1..] == [];
      assert A2 == [[c] + A[0]];
      assert A2[..0] == [];
      assert [c] + (A[0] + B[0]) == [c] + A[0] + B[0];
      assert Fuse(A2, B) == [[c] + A[0] + B[0]] + B[1..];
    } else {
      assert R[0] == A[0];
      assert R[1..] == A[1..|A| - 1] + [A[|A| - 1] + B[0]] + B[1..];
      assert A2[..|A2| - 1] == [[c] + A[0]] + A[1..|A| - 1];
    }
  }

  lemma SplitCons<T>(c: T, s: seq<T>, sep: T)
    ensures Split([c] + s, sep) ==
      if c == sep then [[]] + Split(s, sep)
      else [[c] + Split(s, sep)[0]] + Split(s, sep)[1..]
  {
    assert ([c] + s)[1..] == s;
  }

  /** How the fragments of a concatenation arise from the fragments of its
      halves: the last fragment of `a` fuses with the first fragment of `b`. */
  lemma {:induction false} SplitAppend<T>(a: seq<T>, b: seq<T>, sep: T)
    ensures Split(a + b, sep) == Fuse(Split(a, sep), Split(b, sep))
    decreases |a|
  {
    var B := Split(b, sep);
    if |a| == 0 {
      assert a + b == b;
      assert Split(a, sep) == [[]];
      assert Split(a, sep)[..0] == [];
      assert [] + B[0] == B[0];
      assert [B[0]] + B[1..] == B;
    } else {
      var a' := a[1..];
      assert a == [a[0]] + a';
      assert a + b == [a[0]] + (a' + b);
      SplitAppend(a', b, sep);
      SplitCons(a[0], a', sep);
      SplitCons(a[0], a' + b, sep);
      if a[0] == sep {
        FuseCons([], Split(a', sep), B);
      } else {
        FuseExtendHead(a[0], Split(a', sep), B);
      }
    }
  }

  /** What appending one more chunk does to the completed fragments and to
      the carry: the framing step of the tailer, in isolation. */
  lemma ChunkStep<T>(data: seq<T>, d: seq<T>, sep: T)
    ensures var D := Split(d, sep);
      if |D| > 1 then
        && Completed(data + d, sep) == Completed(data, sep) + [Carry(data, sep) + D[0]] + D[1..|D| - 1]
        && Carry(data + d, sep) == D[|D| - 1]
      else
        && Completed(data + d, sep) == Completed(data, sep)
        && Carry(data + d, sep) == Carry(data, sep) + d
  {
    var D := Split(d, sep);
    SplitAppend(data, d, sep);
    FuseEnds(Split(data, sep), D);
    if |D| <= 1 {
      JoinSplit(d, sep);
      assert D == [d];
    }
  }

  /** The last fragment of a fusion and everything before it. */
  lemma FuseEnds<T>(A: seq<seq<T>>, D: seq<seq<T>>)
    requires |A| >= 1 && |D| >= 1
    ensures var S := Fuse(A, D);
      && |S| == |A| + |D| - 1
      && (|D| > 1 ==>
            S[..|S| - 1] == A[..|A| - 1] + [A[|A| - 1] + D[0]] + D[1..|D| - 1] && S[|S| - 1] == D[|D| - 1])
      && (|D| == 1 ==> S[..|S| - 1] == A[..|A| - 1] && S[|S| - 1] == A[|A| - 1] + D[0])
  {
    var S := Fuse(A, D);
    if |D| > 1 {
      assert S[..|S| - 1] == A[..|A| - 1] + [A[|A| - 1] + D[0]] + D[1..|D| - 1];
    } else {
      assert S == A[..|A| - 1] + [A[|A| - 1] + D[0]];
    }
  }
}
