/** Strict UTF-8, as Python's `str.encode('utf-8')` and
    `bytes.decode('utf-8')` implement it: the well-formed byte sequences of
    table 3-7 of the Unicode Standard, section 3.9. Dafny's `char` is a
    Unicode scalar value, so every string can be encoded. */
module Utf8 {
  import opened Common

  predicate IsContinuation(b: int) {
    0x80 <= b <= 0xBF
  }

  /** The bytes of one scalar value: one to four of them by magnitude. */
  function EncodeChar(c: char): (r: Bytes)
    ensures 1 <= |r| <= 4
    ensures |r| == 1 <==> (c as int) < 0x80
  {
    var n := c as int;
    if n < 0x80 then [n]
    else if n < 0x800 then [0xC0 + n / 64, 0x80 + n % 64]
    else if n < 0x10000 then [0xE0 + n / 4096, 0x80 + (n / 64) % 64, 0x80 + n % 64]
    else [0xF0 + n / 262144, 0x80 + (n / 4096) % 64, 0x80 + (n / 64) % 64, 0x80 + n % 64]
  }

  /** `s.encode('utf-8')`. */
  function Encode(s: string): (r: Bytes)
    ensures |r| >= |s|
    decreases |s|
  {
    if |s| == 0 then [] else EncodeChar(s[0]) + Encode(s[1..])
  }

  /** The scalar value at the front of `b` and how many bytes it took, or
      `None` when the front is not a well-formed sequence. */
  function DecodeChar(b: Bytes): (r: Option<(char, nat)>)
    requires |b| >= 1
    ensures r.Some? ==> 1 <= r.value.1 <= |b|
  {
    var b0: int := b[0];
    var b1: int := if |b| >= 2 then b[1] else 0;
    var b2: int := if |b| >= 3 then b[2] else 0;
    var b3: int := if |b| >= 4 then b[3] else 0;
    if b0 < 0x80 then Some((b0 as char, 1))
    else if 0xC2 <= b0 <= 0xDF then
      if |b| >= 2 && IsContinuation(b1) then
        Some((((b0 - 0xC0) * 64 + (b1 - 0x80)) as char, 2))
      else None
    else if 0xE0 <= b0 <= 0xEF then
      if |b| >= 3 && IsContinuation(b1) && IsContinuation(b2)
         && (b0 == 0xE0 ==> b1 >= 0xA0) && (b0 == 0xED ==> b1 <= 0x9F) then
        Some((((b0 - 0xE0) * 4096 + (b1 - 0x80) * 64 + (b2 - 0x80)) as char, 3))
      else None
    else if 0xF0 <= b0 <= 0xF4 then
      if |b| >= 4 && IsContinuation(b1) && IsContinuation(b2) && IsContinuation(b3)
         && (b0 == 0xF0 ==> b1 >= 0x90) && (b0 == 0xF4 ==> b1 <= 0x8F) then
        Some((((b0 - 0xF0) * 262144 + (b1 - 0x80) * 4096 + (b2 - 0x80) * 64 + (b3 - 0x80)) as char, 4))
      else None
    else None
  }

  /** `b.decode('utf-8')`; `None` stands for the `UnicodeDecodeError`. */
  function Decode(b: Bytes): Option<string>
    decreases |b|
  {
    if |b| == 0 then Some("")
    else match DecodeChar(b)
      case None => None
      case Some((c, k)) =>
        match Decode(b[k..])
        case None => None
        case Some(rest) => Some([c] + rest)
  }

  lemma Split64(n: nat, q: nat, r: nat)
    requires r < 64 && n == q * 64 + r
    ensures n / 64 == q && n % 64 == r
  {
  }

  lemma Split4096(n: nat)
    ensures n / 4096 == (n / 64) / 64
    ensures n / 262144 == (n / 4096) / 64
  {
    var q := n / 64;
    var p := q / 64;
    assert 64 * q <= n < 64 * q + 64;
    assert 64 * p <= q < 64 * p + 64;
    assert 4096 * p <= n < 4096 * p + 4096;
    var t := n / 4096;
    var u := t / 64;
    assert 4096 * t <= n < 4096 * t + 4096;
    assert 64 * u <= t < 64 * u + 64;
    assert 262144 * u <= n < 262144 * u + 262144;
  }

  lemma DecodeEncodedChar(c: char, rest: Bytes)
    ensures DecodeChar(EncodeChar(c) + rest) == Some((c, |EncodeChar(c)|))
  {
    var n := c as int;
    if n < 0x80 {
    } else if n < 0x800 {
      DecodeEncoded2(c, rest);
    } else if n < 0x10000 {
      DecodeEncoded3(c, rest);
    } else {
      DecodeEncoded4(c, rest);
    }
  }

  lemma DecodeEncoded2(c: char, rest: Bytes)
    requires 0x80 <= c as int < 0x800
    ensures DecodeChar(EncodeChar(c) + rest) == Some((c, 2))
  {
    var n := c as int;
    var b := EncodeChar(c) + rest;
    assert n == (n / 64) * 64 + n % 64;
    assert b[0] == 0xC0 + n / 64 && b[1] == 0x80 + n % 64;
  }

  lemma DecodeEncoded3(c: char, rest: Bytes)
    requires 0x800 <= c as int < 0x10000
    ensures DecodeChar(EncodeChar(c) + rest) == Some((c, 3))
  {
    var n := c as int;
    var b := EncodeChar(c) + rest;
    Split4096(n);
    var q := n / 64;
    assert n == q * 64 + n % 64;
    assert q == (q / 64) * 64 + q % 64;
    assert b[0] == 0xE0 + q / 64 && b[1] == 0x80 + q % 64 && b[2] == 0x80 + n % 64;
  }

  lemma DecodeEncoded4(c: char, rest: Bytes)
    requires 0x10000 <= c as int
    ensures DecodeChar(EncodeChar(c) + rest) == Some((c, 4))
  {
    var n := c as int;
    var b := EncodeChar(c) + rest;
    Split4096(n);
    var q := n / 64;
    var t := q / 64;
    assert n == q * 64 + n % 64;
    assert q == t * 64 + q % 64;
    assert t == (t / 64) * 64 + t % 64;
    assert b[0] == 0xF0 + t / 64 && b[1] == 0x80 + t % 64 && b[2] == 0x80 + q % 64 && b[3] == 0x80 + n % 64;
  }

  /** Decoding what was encoded gives back the string. */
  lemma {:induction false} DecodeEncode(s: string)
    ensures Decode(Encode(s)) == Some(s)
    decreases |s|
  {
    if |s| > 0 {
      var e := EncodeChar(s[0]);
      DecodeEncodedChar(s[0], Encode(s[1..]));
      assert (e + Encode(s[1..]))[|e|..] == Encode(s[1..]);
      DecodeEncode(s[1..]);
      assert [s[0]] + s[1..] == s;
    }
  }

  lemma EncodeDecodedChar(b: Bytes)
    requires |b| >= 1 && DecodeChar(b).Some?
    ensures EncodeChar(DecodeChar(b).value.0) == b[..DecodeChar(b).value.1]
  {
    if b[0] < 0x80 {
    } else if b[0] <= 0xDF {
      EncodeDecoded2(b);
    } else if b[0] <= 0xEF {
      EncodeDecoded3(b);
    } else {
      EncodeDecoded4(b);
    }
  }

  lemma EncodeDecoded2(b: Bytes)
    requires |b| >= 1 && DecodeChar(b).Some? && 0x80 <= b[0] <= 0xDF
    ensures EncodeChar(DecodeChar(b).value.0) == b[..DecodeChar(b).value.1]
  {
    var n := DecodeChar(b).value.0 as int;
    var b0: int, b1: int := b[0], b[1];
    Split64(n, b0 - 0xC0, b1 - 0x80);
  }

  lemma EncodeDecoded3(b: Bytes)
    requires |b| >= 1 && DecodeChar(b).Some? && 0xE0 <= b[0] <= 0xEF
    ensures EncodeChar(DecodeChar(b).value.0) == b[..DecodeChar(b).value.1]
  {
    var n := DecodeChar(b).value.0 as int;
    Split4096(n);
    var b0: int, b1: int, b2: int := b[0], b[1], b[2];
    var q := (b0 - 0xE0) * 64 + (b1 - 0x80);
    Split64(n, q, b2 - 0x80);
    Split64(q, b0 - 0xE0, b1 - 0x80);
  }

  lemma EncodeDecoded4(b: Bytes)
    requires |b| >= 1 && DecodeChar(b).Some? && 0xF0 <= b[0]
    ensures EncodeChar(DecodeChar(b).value.0) == b[..DecodeChar(b).value.1]
  {
    var n := DecodeChar(b).value.0 as int;
    Split4096(n);
    var b0: int, b1: int, b2: int, b3: int := b[0], b[1], b[2], b[3];
    var t := (b0 - 0xF0) * 64 + (b1 - 0x80);
    var q := t * 64 + (b2 - 0x80);
    Split64(n, q, b3 - 0x80);
    Split64(q, t, b2 - 0x80);
    Split64(t, b0 - 0xF0, b1 - 0x80);
  }

  /** Whatever decodes re-encodes to the same bytes: strict decoding
      accepts exactly the encodings of strings. */
  lemma {:induction false} EncodeDecode(b: Bytes)
    requires Decode(b).Some?
    ensures Encode(Decode(b).value) == b
    decreases |b|
  {
    if |b| > 0 {
      DecodeStep(b);
      var (c, k) := DecodeChar(b).value;
      EncodeDecodedChar(b);
      EncodeDecode(b[k..]);
      Reassemble(b, k, EncodeChar(c), Encode(Decode(b[k..]).value));
      EncodeCons(c, Decode(b[k..]).value);
    }
  }

  /** A decoded text is its first character and the decoding of the rest. */
  lemma DecodeStep(b: Bytes)
    requires |b| > 0 && Decode(b).Some?
    ensures DecodeChar(b).Some?
    ensures Decode(b[DecodeChar(b).value.1..]).Some?
    ensures Decode(b).value == [DecodeChar(b).value.0] + Decode(b[DecodeChar(b).value.1..]).value
  {
  }

  lemma Reassemble(b: Bytes, k: nat, x: Bytes, y: Bytes)
    requires k <= |b| && x == b[..k] && y == b[k..]
    ensures x + y == b
  {
  }

  lemma EncodeCons(c: char, s: string)
    ensures Encode([c] + s) == EncodeChar(c) + Encode(s)
  {
    assert ([c] + s)[1..] == s;
  }

  /** A decoded character never ends in a byte at or above 0xC0: it ends
      in an ASCII byte or a continuation byte. */
  lemma DecodedCharEnd(b: Bytes)
    requires |b| >= 1 && DecodeChar(b).Some?
    ensures b[DecodeChar(b).value.1 - 1] < 0xC0
  {
  }

  /** Bytes whose last byte is at or above 0xC0, such as a multi-byte
      character cut after its first byte, do not decode. */
  lemma {:induction false} EndsInLeadUndecodable(b: Bytes)
    requires |b| > 0 && b[|b| - 1] >= 0xC0
    ensures Decode(b).None?
    decreases |b|
  {
    match DecodeChar(b)
    case None =>
    case Some((c, k)) =>
      DecodedCharEnd(b);
      var rest := b[k..];
      assert rest[|rest| - 1] == b[|b| - 1];
      EndsInLeadUndecodable(rest);
  }
}
