/** The libraries the core calls but does not implement: SHA-256, the `json`
    encoder and decoder, zlib inflation, the `zipfile` reader, UTF-8 decoding
    and the `csv` row writer. Each is an uninterpreted function; the laws some
    proofs rely on are stated as predicates and assumed only where they are
    named in a `requires`. */
module Foreign {
  import opened Wrappers
  import opened Text
  import opened JsonValue

  newtype byte = x: int | 0 <= x < 256

  type Bytes = seq<byte>

  predicate IsHexDigit(c: char) {
    '0' <= c <= '9' || 'a' <= c <= 'f'
  }

  /** What `hashlib.sha256(...).hexdigest()` returns: 64 lower-case hex digits. */
  type HexDigest = s: string | |s| == 64 && forall i :: 0 <= i < |s| ==> IsHexDigit(s[i])
    witness seq(64, _ => '0')

  /** How `gzip.decompress` ends: with the inflated bytes, with `BadGzipFile`
      (an `OSError`), or with `EOFError` / `zlib.error`, which are not
      `OSError`s. */
  datatype GzipOutcome = Gunzipped(data: Bytes) | GzipRejected | GzipAborted

  /** How reading a ZIP archive ends: the members' bytes in name-list order,
      `BadZipFile`, or an error raised while reading a member that is not a
      `BadZipFile` (`RuntimeError` for an encrypted member,
      `NotImplementedError` for an unsupported compression method,
      `zlib.error` or `EOFError` for corrupt member data). An aborted read
      carries the members read before the one that failed. */
  datatype ZipOutcome = Unzipped(members: seq<Bytes>) | ZipRejected | ZipAborted(readBefore: seq<Bytes>)

  datatype Libs = Libs(
    sha256Hex: string -> HexDigest,      // sha256 of the UTF-8 encoding, as hex
    loads: string -> Option<Json>,       // json.loads; None is JSONDecodeError
    dumpsCompact: Json -> string,        // json.dumps(v, separators=(",", ":"))
    dumpsIndented: Json -> string,       // json.dumps(v, indent=2)
    inflate: Bytes -> GzipOutcome,       // gzip.decompress past a well-formed header
    unzip: Bytes -> ZipOutcome,          // zipfile.ZipFile(...) and zf.read of each member in turn
    utf8: Bytes -> Option<string>,       // bytes.decode("utf-8"); None is UnicodeDecodeError
    csvRecord: seq<string> -> string     // one csv.writer row, "\r\n" included
  ) {
    /** The decoder yields well-formed documents, and decoding what the
        encoder wrote gives a well-formed document back. */
    ghost predicate LoadsInvertsDumps() {
      && (forall s :: loads(s).Some? ==> WellFormed(loads(s).value))
      && (forall v :: WellFormed(v) ==> loads(dumpsCompact(v)) == Some(v))
    }

    /** The decoder reads the indented encoding back, ignores a trailing
        newline, and reads `{}` as the empty dict. */
    ghost predicate LoadsReadsIndented() {
      && (forall v :: WellFormed(v) ==> loads(dumpsIndented(v)) == Some(v))
      && (forall s :: loads(s + "\n") == loads(s))
      && loads("{}") == Some(JObj([]))
    }

    /** Compact encodings are single non-empty lines without surrounding
        whitespace, and a dict's encoding starts with `{`. */
    ghost predicate DumpsIsOneLine() {
      forall v ::
        var s := dumpsCompact(v);
        && s != [] && NoLineBreak(s) && !IsSpace(s[0]) && !IsSpace(s[|s| - 1])
        && (v.JObj? ==> s[0] == '{')
    }
  }

  /** `gzip.decompress(data)` for a single member: the header checks are made
      here, inflation of the rest is the library's. Empty input inflates to
      nothing; a wrong magic number or compression method is `BadGzipFile`; a
      header cut short is `EOFError`. */
  function Gunzip(libs: Libs, data: Bytes): (r: GzipOutcome)
    ensures data == [] ==> r == Gunzipped([])
    ensures 0 < |data| && (|data| < 2 || data[0] != 0x1f || data[1] != 0x8b) ==> r == GzipRejected
    ensures 2 <= |data| < 10 && data[0] == 0x1f && data[1] == 0x8b ==> r == GzipAborted
  {
    if data == [] then Gunzipped([])
    else if |data| < 2 || data[0] != 0x1f || data[1] != 0x8b then GzipRejected
    else if |data| < 10 then GzipAborted
    else if data[2] != 8 then GzipRejected
    else libs.inflate(data)
  }
}
