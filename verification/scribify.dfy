/** `clog/utils.py`: turning an arbitrary stream name into a Scribe category
    name, and choosing a decompressor by file extension. */
module Utils {
  import opened Common
  import Utf8

  /** A stream name as callers hand it over: text, or bytes that are
      decoded as UTF-8 first. */
  datatype StreamName = Text(text: string) | Raw(bytes: Bytes)

  /** Decoding a byte stream name failed (`UnicodeDecodeError`). */
  datatype DecodeError = UnicodeDecodeError

  /** The characters `[-_a-zA-Z0-9]` that a category name may contain. */
  predicate Allowed(c: char) {
    c == '-' || c == '_' || ('a' <= c <= 'z') || ('A' <= c <= 'Z') || ('0' <= c <= '9')
  }

  predicate IsCategory(s: string) {
    forall i :: 0 <= i < |s| ==> Allowed(s[i])
  }

  /** Replace each character outside the allowed class by one underscore. */
  function Sanitize(s: string): (r: string)
    ensures |r| == |s| && IsCategory(r)
    ensures forall i :: 0 <= i < |s| && Allowed(s[i]) ==> r[i] == s[i]
    ensures forall i :: 0 <= i < |s| && !Allowed(s[i]) ==> r[i] == '_'
  {
    seq(|s|, i requires 0 <= i < |s| => if Allowed(s[i]) then s[i] else '_')
  }

  /** `scribify(stream_name)`. */
  function Scribify(name: StreamName): (r: Result<string, DecodeError>)
    ensures r.Success? ==> IsCategory(r.value)
    ensures name.Text? ==> r.Success? && |r.value| == |name.text|
    ensures name.Raw? ==> (r.Success? <==> Utf8.Decode(name.bytes).Some?)
    ensures name.Raw? && r.Success? ==> |r.value| == |Utf8.Decode(name.bytes).value|
  {
    match name
    case Text(s) => Success(Sanitize(s))
    case Raw(b) =>
      match Utf8.Decode(b)
      case None => Failure(UnicodeDecodeError)
      case Some(s) => Success(Sanitize(s))
  }

  /** A category name is its own sanitization. */
  lemma SanitizeFixesCategories(s: string)
    requires IsCategory(s)
    ensures Sanitize(s) == s
  {
  }

  /** Scribifying twice is scribifying once. */
  lemma ScribifyIdempotent(name: StreamName)
    requires Scribify(name).Success?
    ensures Scribify(Text(Scribify(name).value)) == Scribify(name)
  {
    SanitizeFixesCategories(Scribify(name).value);
  }

  /** Bytes are decoded before substitution: the UTF-8 encoding of a text
      name scribifies exactly like the text. */
  lemma ScribifyEncodedText(s: string)
    ensures Scribify(Raw(Utf8.Encode(s))) == Scribify(Text(s))
  {
    Utf8.DecodeEncode(s);
  }

  /** Sanitization is determined character by character. */
  lemma SanitizeCharwise(s: string, t: string)
    requires |t| == |s|
    requires forall i :: 0 <= i < |s| ==> t[i] == if Allowed(s[i]) then s[i] else '_'
    ensures Sanitize(s) == t
  {
  }

  lemma ScribifyExamples()
    ensures Scribify(Text("this\0is a-test\n\n")) == Success("this_is_a-test__")
    ensures Scribify(Text("int\U{e9}rna\U{e7}ionalization")) == Success("int_rna_ionalization")
  {
    SanitizeCharwise("this\0is a-test\n\n", "this_is_a-test__");
    SanitizeCharwise("int\U{e9}rna\U{e7}ionalization", "int_rna_ionalization");
  }

  /** The encoded bytes of a name that is already a category come back as
      that very name. */
  lemma ScribifyEncodedCategory(s: string)
    requires IsCategory(s)
    ensures Scribify(Raw(Utf8.Encode(s))) == Success(s)
  {
    ScribifyEncodedText(s);
    SanitizeFixesCategories(s);
  }

  /** Which file object `open_compressed_file` builds. */
  datatype Opener = Bz2File | GzipFile | PlainFile

  /** `open_compressed_file`: `.bz2` wins, then `.gz`, otherwise plain. */
  function OpenerFor(filename: string): (r: Opener)
    ensures r == Bz2File <==> EndsWith(filename, ".bz2")
    ensures r == GzipFile <==> !EndsWith(filename, ".bz2") && EndsWith(filename, ".gz")
    ensures r == PlainFile <==> !EndsWith(filename, ".bz2") && !EndsWith(filename, ".gz")
  {
    if EndsWith(filename, ".bz2") then Bz2File
    else if EndsWith(filename, ".gz") then GzipFile
    else PlainFile
  }
}
