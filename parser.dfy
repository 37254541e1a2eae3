/** Turning downloaded log files into validated entries: decompression with its
    fallback order, NDJSON / JSON-array parsing, validation of each decoded
    document, and per-file failure isolation. */
module Parser {
  import opened Wrappers
  import opened Text
  import opened JsonValue
  import opened Foreign
  import opened Models

  /** An entry paired with the compact JSON text it was validated from. */
  datatype ParsedEntry = ParsedEntry(entry: AuditLogEntry, rawJson: string)

  const UnableToDecompress := "Unable to decompress log file data (tried gzip, zip, raw text)"
  const NotUtf8 := "invalid utf-8"

  /** The uncompressed-text fallback only accepts text whose stripped form
      opens a JSON object or array. */
  predicate LooksLikeJson(text: string) {
    var t := Strip(text);
    t != [] && (t[0] == '{' || t[0] == '[')
  }

  /** Decodes every ZIP member in order; the first one that is not UTF-8 makes
      the whole read fail. */
  function DecodeMembers(libs: Libs, members: seq<Bytes>): (r: Option<seq<string>>)
    ensures r.Some? ==> |r.value| == |members|
    ensures r.Some? ==> forall k :: 0 <= k < |members| ==> libs.utf8(members[k]) == Some(r.value[k])
    ensures r.None? ==> exists k :: 0 <= k < |members| && libs.utf8(members[k]).None?
  {
    if members == [] then Some([])
    else
      match libs.utf8(members[0])
      case None => None
      case Some(first) =>
        match DecodeMembers(libs, members[1..])
        case None => None
        case Some(rest) => Some([first] + rest)
  }

  /** The last fallback of `decompress`: the bytes as UTF-8 text, accepted
      only when it looks like JSON. */
  function RawText(libs: Libs, data: Bytes): Result<string> {
    match libs.utf8(data)
    case Some(text) => if LooksLikeJson(text) then Ok(text) else Err(UnableToDecompress)
    case None => Err(UnableToDecompress)
  }

  /** What `decompress` does once gzip has given up: the ZIP reader, then the
      bytes as UTF-8 text that looks like JSON. Each member is decoded right
      after it is read, so a member that is not UTF-8 fails the file before a
      later member is read; an archive whose read aborts after that moves on
      to the raw text. */
  function AfterGzip(libs: Libs, data: Bytes): Result<string> {
    match libs.unzip(data)
    case Unzipped(members) =>
      (match DecodeMembers(libs, members)
       case Some(texts) => Ok(Join("\n", texts))
       case None => Err(NotUtf8))
    case ZipAborted(before) =>
      if DecodeMembers(libs, before).None? then Err(NotUtf8) else RawText(libs, data)
    case ZipRejected => RawText(libs, data)
  }

  /** How `decompress` as written can end: with text, with a `ValueError`
      (which `parse_log_files` catches), or with an exception that is neither
      `OSError` nor `ValueError` and escapes every caller. */
  datatype Decompressed = Text(text: string) | Failed(error: string) | Escaped(error: string)

  /** `decompress` as written: only `BadGzipFile`/`OSError` move on to ZIP, so
      a gzip stream cut short (`EOFError`) or with corrupt deflate data
      (`zlib.error`) escapes; and only `BadZipFile` moves on to raw text, so an
      archive whose member cannot be read escapes too. */
  function DecompressAsWritten(libs: Libs, data: Bytes): Decompressed {
    match Gunzip(libs, data)
    case Gunzipped(bytes) =>
      (match libs.utf8(bytes)
       case Some(text) => Text(text)
       case None => Failed(NotUtf8))
    case GzipAborted => Escaped("EOFError: compressed file ended before the end-of-stream marker was reached")
    case GzipRejected =>
      if ZipReadEscapes(libs, data) then Escaped("error while reading a ZIP member")
      else
        match AfterGzip(libs, data)
        case Ok(text) => Text(text)
        case Err(e) => Failed(e)
  }

  /** The ZIP read aborts with a non-`BadZipFile` error, and every member read
      before it decoded as UTF-8 (otherwise the `UnicodeDecodeError`, a
      `ValueError`, came first). */
  predicate ZipReadEscapes(libs: Libs, data: Bytes) {
    libs.unzip(data).ZipAborted? && DecodeMembers(libs, libs.unzip(data).readBefore).Some?
  }

  /** The inputs on which `decompress` as written raises something that is
      neither `OSError`-caught nor a `ValueError`. */
  predicate EscapesAsWritten(libs: Libs, data: Bytes) {
    || Gunzip(libs, data).GzipAborted?
    || (Gunzip(libs, data).GzipRejected? && ZipReadEscapes(libs, data))
  }

  /** `decompress` as its contract describes it: every way gzip can fail moves
      on to ZIP and then raw text, and data none of them accepts is a
      `ValueError`. A gzip stream that inflates but is not UTF-8 is a
      `ValueError` at once, without trying ZIP. */
  function Decompress(libs: Libs, data: Bytes): Result<string> {
    match Gunzip(libs, data)
    case Gunzipped(bytes) =>
      (match libs.utf8(bytes)
       case Some(text) => Ok(text)
       case None => Err(NotUtf8))
    case _ => AfterGzip(libs, data)
  }

  /** The fallback order of `decompress`: gzip's result when it inflates (and
      a `ValueError` if that is not UTF-8, without trying ZIP); otherwise the
      ZIP members joined by newlines, a member that is not UTF-8 failing the
      file even when a later read aborts; otherwise the raw bytes, accepted
      only as UTF-8 text that looks like JSON. */
  lemma DecompressOrder(libs: Libs, data: Bytes)
    ensures var r := Decompress(libs, data);
      && (Gunzip(libs, data).Gunzipped? ==>
            (r.Ok? <==> libs.utf8(Gunzip(libs, data).data).Some?) &&
            (r.Ok? ==> libs.utf8(Gunzip(libs, data).data) == Some(r.value)))
      && (!Gunzip(libs, data).Gunzipped? && libs.unzip(data).Unzipped? ==>
            (r.Ok? <==> DecodeMembers(libs, libs.unzip(data).members).Some?) &&
            (r.Ok? ==> r.value == Join("\n", DecodeMembers(libs, libs.unzip(data).members).value)))
      && (!Gunzip(libs, data).Gunzipped? && libs.unzip(data).ZipAborted? ==>
            DecodeMembers(libs, libs.unzip(data).readBefore).None? ==> r == Err(NotUtf8))
      && (!Gunzip(libs, data).Gunzipped? && (libs.unzip(data).ZipRejected? || ZipReadEscapes(libs, data)) ==>
            (r.Ok? <==> libs.utf8(data).Some? && LooksLikeJson(libs.utf8(data).value)) &&
            (r.Ok? ==> libs.utf8(data) == Some(r.value)))
  {
  }

  /** The code as written escapes exactly on an aborted gzip read, or on a
      ZIP read that aborts after every member read before it decoded as
      UTF-8 (`EscapesAsWritten`); everywhere else the corrected and the
      as-written `decompress` agree. */
  lemma DecompressAgrees(libs: Libs, data: Bytes)
    ensures DecompressAsWritten(libs, data).Escaped? <==> EscapesAsWritten(libs, data)
    ensures !EscapesAsWritten(libs, data) ==>
      (Decompress(libs, data).Ok? <==> DecompressAsWritten(libs, data).Text?)
    ensures !EscapesAsWritten(libs, data) && Decompress(libs, data).Ok? ==>
      DecompressAsWritten(libs, data).text == Decompress(libs, data).value
  {
  }

  /** One NDJSON line: stripped, skipped when blank or not decodable. */
  function LineValues(libs: Libs, line: string): seq<Json> {
    var l := Strip(line);
    if l == [] then []
    else
      match libs.loads(l)
      case Some(v) => [v]
      case None => []
  }

  /** The lines' documents, in line order. */
  function LinesValues(libs: Libs, lines: seq<string>): seq<Json> {
    Flatten(LineReader(libs), lines)
  }

  function LineReader(libs: Libs): string -> seq<Json> {
    line => LineValues(libs, line)
  }

  /** `f` applied to each element, the results concatenated in order. */
  function Flatten<T, U>(f: T -> seq<U>, xs: seq<T>): seq<U> {
    if xs == [] then []
    else Flatten(f, xs[..|xs| - 1]) + f(xs[|xs| - 1])
  }

  lemma {:induction false} FlattenConcat<T, U>(f: T -> seq<U>, a: seq<T>, b: seq<T>)
    ensures Flatten(f, a + b) == Flatten(f, a) + Flatten(f, b)
    decreases |b|
  {
    if b == [] {
      assert a + b == a;
    } else {
      var b' := b[..|b| - 1];
      assert (a + b)[..|a + b| - 1] == a + b';
      FlattenConcat(f, a, b');
    }
  }

  lemma FlattenOne<T, U>(f: T -> seq<U>, x: T)
    ensures Flatten(f, [x]) == f(x)
  {
    assert [x][..0] == [];
  }

  /** When each element gives exactly its counterpart, the whole gives the
      counterparts. */
  lemma {:induction false} FlattenSingletons<T, U>(f: T -> seq<U>, xs: seq<T>, ys: seq<U>)
    requires |xs| == |ys| && forall k :: 0 <= k < |xs| ==> f(xs[k]) == [ys[k]]
    ensures Flatten(f, xs) == ys
  {
    if xs != [] {
      var n := |xs| - 1;
      FlattenSingletons(f, xs[..n], ys[..n]);
      assert ys == ys[..n] + [ys[n]];
    }
  }

  /** What `parse_ndjson` returns: nothing for blank text; a whole JSON array
      when the stripped text starts with `[` and decodes to a list; otherwise
      the decodable non-blank lines, in order. */
  function NdjsonValues(libs: Libs, text: string): seq<Json> {
    var t := Strip(text);
    if t == [] then []
    else if StartsWith(t, "[") && libs.loads(t).Some? && libs.loads(t).value.JArr? then libs.loads(t).value.items
    else LinesValues(libs, SplitLines(t))
  }

  /** `parse_ndjson` */
  method ParseNdjson(libs: Libs, text: string) returns (values: seq<Json>)
    ensures values == NdjsonValues(libs, text)
  {
    var t := Strip(text);
    if t == [] {
      return [];
    }
    if StartsWith(t, "[") {
      var result := libs.loads(t);
      if result.Some? && result.value.JArr? {
        return result.value.items;
      }
    }
    values := ParseLines(libs, SplitLines(t));
  }

  /** The line-by-line loop of `parse_ndjson`. */
  method ParseLines(libs: Libs, lines: seq<string>) returns (values: seq<Json>)
    ensures values == LinesValues(libs, lines)
  {
    values := [];
    var k := 0;
    while k < |lines|
      invariant 0 <= k <= |lines|
      invariant values == LinesValues(libs, lines[..k])
    {
      assert lines[..k + 1][..k] == lines[..k];
      var line := Strip(lines[k]);
      if line != [] {
        var decoded := libs.loads(line);
        if decoded.Some? {
          values := values + [decoded.value];
        }
      }
      k := k + 1;
    }
    assert lines[..k] == lines;
  }

  /** Blank or whitespace-only text holds no documents. */
  lemma BlankTextIsEmpty(libs: Libs, text: string)
    requires forall i :: 0 <= i < |text| ==> IsSpace(text[i])
    ensures NdjsonValues(libs, text) == []
  {
    StripEmpty(text);
  }

  function NonBlankCount(lines: seq<string>): nat {
    if lines == [] then 0
    else NonBlankCount(lines[..|lines| - 1]) + (if Strip(lines[|lines| - 1]) != [] then 1 else 0)
  }

  /** Line mode yields at most one document per non-blank line. */
  lemma {:induction false} LinesValuesBound(libs: Libs, lines: seq<string>)
    ensures |LinesValues(libs, lines)| <= NonBlankCount(lines)
  {
    if lines != [] {
      LinesValuesBound(libs, lines[..|lines| - 1]);
    }
  }

  function DumpsAll(libs: Libs, values: seq<Json>): (r: seq<string>)
    ensures |r| == |values| && forall k :: 0 <= k < |values| ==> r[k] == libs.dumpsCompact(values[k])
  {
    seq(|values|, k requires 0 <= k < |values| => libs.dumpsCompact(values[k]))
  }

  /** Writing dicts one per line and parsing the text gives the dicts back. */
  lemma NdjsonRoundTrip(libs: Libs, objs: seq<Json>)
    requires libs.LoadsInvertsDumps() && libs.DumpsIsOneLine()
    requires forall k :: 0 <= k < |objs| ==> objs[k].JObj? && WellFormed(objs[k])
    ensures NdjsonValues(libs, Join("\n", DumpsAll(libs, objs))) == objs
  {
    var lines := DumpsAll(libs, objs);
    var text := Join("\n", lines);
    if objs != [] {
      assert text != [] && text[0] == '{' && !IsSpace(text[|text| - 1]) by {
        JoinEnds(lines);
      }
      LineMode(libs, text);
      SplitJoinedLines(lines);
      LinesOfDumps(libs, objs);
    }
  }

  /** Text that is already stripped and does not open an array is parsed
      line by line. */
  lemma LineMode(libs: Libs, text: string)
    requires text != [] && text[0] != '[' && !IsSpace(text[0]) && !IsSpace(text[|text| - 1])
    ensures NdjsonValues(libs, text) == LinesValues(libs, SplitLines(text))
  {
    StripKeeps(text);
  }

  lemma {:induction false} JoinEnds(parts: seq<string>)
    requires parts != [] && forall k :: 0 <= k < |parts| ==> parts[k] != []
    ensures Join("\n", parts) != []
    ensures Join("\n", parts)[0] == parts[0][0]
    ensures Join("\n", parts)[|Join("\n", parts)| - 1] == parts[|parts| - 1][|parts[|parts| - 1]| - 1]
  {
    if |parts| > 1 {
      var rest := parts[1..];
      assert forall k :: 0 <= k < |rest| ==> rest[k] == parts[k + 1];
      JoinEnds(rest);
      var tail := Join("\n", rest);
      var j := Join("\n", parts);
      assert j == parts[0] + "\n" + tail;
      assert j[0] == parts[0][0];
      assert j[|j| - 1] == tail[|tail| - 1];
      assert rest[|rest| - 1] == parts[|parts| - 1];
    }
  }

  lemma LinesOfDumps(libs: Libs, objs: seq<Json>)
    requires libs.LoadsInvertsDumps() && libs.DumpsIsOneLine()
    requires forall k :: 0 <= k < |objs| ==> WellFormed(objs[k])
    ensures LinesValues(libs, DumpsAll(libs, objs)) == objs
  {
    var lines := DumpsAll(libs, objs);
    forall k | 0 <= k < |lines|
      ensures LineReader(libs)(lines[k]) == [objs[k]]
    {
      StripKeeps(lines[k]);
    }
    FlattenSingletons(LineReader(libs), lines, objs);
  }

  /** Keeps, in order, the documents that validate, each with its compact
      re-serialisation. */
  function KeepValid(libs: Libs, raws: seq<Json>): seq<ParsedEntry> {
    if raws == [] then []
    else
      var last := raws[|raws| - 1];
      KeepValid(libs, raws[..|raws| - 1]) +
        match Validate(last)
        case Some(e) => [ParsedEntry(e, libs.dumpsCompact(last))]
        case None => []
  }

  /** The documents among `raws` that validate, in order. */
  function Validating(raws: seq<Json>): (r: seq<Json>)
    ensures forall k :: 0 <= k < |r| ==> Validate(r[k]).Some? && r[k] in raws
  {
    if raws == [] then []
    else
      var last := raws[|raws| - 1];
      var front := Validating(raws[..|raws| - 1]);
      assert forall x :: x in raws[..|raws| - 1] ==> x in raws;
      front + (if Validate(last).Some? then [last] else [])
  }

  /** `parse_log_file` keeps exactly the validating documents, in order, and
      each entry carries the validated record and the compact text of its own
      document. */
  lemma {:induction false} KeepValidIsValidating(libs: Libs, raws: seq<Json>)
    ensures |KeepValid(libs, raws)| == |Validating(raws)|
    ensures forall k :: 0 <= k < |Validating(raws)| ==>
      KeepValid(libs, raws)[k] == ParsedEntry(Validate(Validating(raws)[k]).value, libs.dumpsCompact(Validating(raws)[k]))
  {
    if raws != [] {
      KeepValidIsValidating(libs, raws[..|raws| - 1]);
    }
  }

  /** An entry's raw JSON decodes to a document that validates to the same
      record, so the cache can rebuild what the parser saw. */
  lemma RawJsonRevalidates(libs: Libs, raws: seq<Json>, k: int)
    requires libs.LoadsInvertsDumps()
    requires forall j :: 0 <= j < |raws| ==> WellFormed(raws[j])
    requires 0 <= k < |KeepValid(libs, raws)|
    ensures libs.loads(KeepValid(libs, raws)[k].rawJson).Some?
    ensures Validate(libs.loads(KeepValid(libs, raws)[k].rawJson).value) == Some(KeepValid(libs, raws)[k].entry)
    ensures libs.loads(KeepValid(libs, raws)[k].rawJson).value.JObj?
  {
    KeepValidIsValidating(libs, raws);
    var v := Validating(raws)[k];
    assert v in raws;
  }

  /** The entries of one file: its decompressed text's documents that
      validate; a `ValueError` from decompression is the file's error. */
  function LogFileEntries(libs: Libs, data: Bytes): Result<seq<ParsedEntry>> {
    var text :- Decompress(libs, data);
    Ok(KeepValid(libs, NdjsonValues(libs, text)))
  }

  /** `parse_log_file` */
  method ParseLogFile(libs: Libs, data: Bytes) returns (r: Result<seq<ParsedEntry>>)
    ensures r == LogFileEntries(libs, data)
  {
    var decompressed := Decompress(libs, data);
    if decompressed.Err? {
      return Err(decompressed.error);
    }
    var raws := ParseNdjson(libs, decompressed.value);
    var entries: seq<ParsedEntry> := [];
    var k := 0;
    while k < |raws|
      invariant 0 <= k <= |raws|
      invariant entries == KeepValid(libs, raws[..k])
    {
      assert raws[..k + 1][..k] == raws[..k];
      var validated := Validate(raws[k]);
      if validated.Some? {
        entries := entries + [ParsedEntry(validated.value, libs.dumpsCompact(raws[k]))];
      }
      k := k + 1;
    }
    assert raws[..k] == raws;
    return Ok(entries);
  }

  /** A file's contribution to `parse_log_files`: its entries, or nothing when
      it raised `ValueError`. */
  function FileContribution(libs: Libs, data: Bytes): seq<ParsedEntry> {
    match LogFileEntries(libs, data)
    case Ok(entries) => entries
    case Err(_) => []
  }

  /** What `parse_log_files` returns: the files' contributions concatenated in
      file order. */
  function LogFilesEntries(libs: Libs, files: seq<Bytes>): seq<ParsedEntry> {
    Flatten(FileReader(libs), files)
  }

  function FileReader(libs: Libs): Bytes -> seq<ParsedEntry> {
    data => FileContribution(libs, data)
  }

  /** `parse_log_files` */
  method ParseLogFiles(libs: Libs, files: seq<Bytes>) returns (all: seq<ParsedEntry>)
    ensures all == LogFilesEntries(libs, files)
  {
    all := [];
    var k := 0;
    while k < |files|
      invariant 0 <= k <= |files|
      invariant all == LogFilesEntries(libs, files[..k])
    {
      assert files[..k + 1][..k] == files[..k];
      var r := ParseLogFile(libs, files[k]);
      if r.Ok? {
        all := all + r.value;
      }
      k := k + 1;
    }
    assert files[..k] == files;
  }

  /** Files are independent: parsing two batches is parsing each and
      concatenating, so a failing file never affects the others. */
  lemma LogFilesConcat(libs: Libs, a: seq<Bytes>, b: seq<Bytes>)
    ensures LogFilesEntries(libs, a + b) == LogFilesEntries(libs, a) + LogFilesEntries(libs, b)
  {
    FlattenConcat(FileReader(libs), a, b);
  }

  /** The raw text of an entry decodes back to a dict. */
  predicate DecodesToDict(libs: Libs, e: ParsedEntry) {
    libs.loads(e.rawJson).Some? && libs.loads(e.rawJson).value.JObj?
  }

  /** Every document the line reader returns came from the decoder. */
  lemma {:induction false} LinesWellFormed(libs: Libs, lines: seq<string>)
    requires libs.LoadsInvertsDumps()
    ensures forall j :: 0 <= j < |LinesValues(libs, lines)| ==> WellFormed(LinesValues(libs, lines)[j])
  {
    if lines != [] {
      var front := lines[..|lines| - 1];
      LinesWellFormed(libs, front);
      assert LinesValues(libs, lines) == LinesValues(libs, front) + LineValues(libs, lines[|lines| - 1]);
    }
  }

  lemma NdjsonWellFormed(libs: Libs, text: string)
    requires libs.LoadsInvertsDumps()
    ensures forall j :: 0 <= j < |NdjsonValues(libs, text)| ==> WellFormed(NdjsonValues(libs, text)[j])
  {
    LinesWellFormed(libs, SplitLines(Strip(text)));
  }

  /** Every entry `parse_log_files` returns carries a raw text that decodes
      to a dict, as the cache's field extraction expects. */
  lemma {:induction false} EntriesDecodeToDicts(libs: Libs, files: seq<Bytes>)
    requires libs.LoadsInvertsDumps()
    ensures forall k :: 0 <= k < |LogFilesEntries(libs, files)| ==> DecodesToDict(libs, LogFilesEntries(libs, files)[k])
  {
    if files != [] {
      var front := files[..|files| - 1];
      var last := files[|files| - 1];
      EntriesDecodeToDicts(libs, front);
      FileDecodesToDicts(libs, last);
      var tail := FileContribution(libs, last);
      var all := LogFilesEntries(libs, files);
      assert all == LogFilesEntries(libs, front) + tail;
      forall k | 0 <= k < |all|
        ensures DecodesToDict(libs, all[k])
      {
        if k >= |LogFilesEntries(libs, front)| {
          assert all[k] == tail[k - |LogFilesEntries(libs, front)|];
        }
      }
    }
  }

  /** The same for the entries of one file. */
  lemma FileDecodesToDicts(libs: Libs, data: Bytes)
    requires libs.LoadsInvertsDumps()
    ensures forall k :: 0 <= k < |FileContribution(libs, data)| ==> DecodesToDict(libs, FileContribution(libs, data)[k])
  {
    var entries := FileContribution(libs, data);
    if LogFileEntries(libs, data).Ok? {
      var text := Decompress(libs, data).value;
      var raws := NdjsonValues(libs, text);
      NdjsonWellFormed(libs, text);
      forall k | 0 <= k < |entries|
        ensures DecodesToDict(libs, entries[k])
      {
        RawJsonRevalidates(libs, raws, k);
      }
    }
  }

  /** A file that raises `ValueError` contributes nothing, and the files after
      it are still parsed. */
  lemma FailingFileIsSkipped(libs: Libs, before: seq<Bytes>, bad: Bytes, after: seq<Bytes>)
    requires LogFileEntries(libs, bad).Err?
    ensures LogFilesEntries(libs, before + [bad] + after) == LogFilesEntries(libs, before) + LogFilesEntries(libs, after)
  {
    assert FileReader(libs)(bad) == [];
    FlattenSkips(FileReader(libs), before, bad, after);
  }

  lemma FlattenSkips<T, U>(f: T -> seq<U>, before: seq<T>, x: T, after: seq<T>)
    requires f(x) == []
    ensures Flatten(f, before + [x] + after) == Flatten(f, before) + Flatten(f, after)
  {
    FlattenConcat(f, before + [x], after);
    FlattenConcat(f, before, [x]);
    FlattenOne(f, x);
  }

  lemma SingleFile(libs: Libs, data: Bytes)
    ensures LogFilesEntries(libs, [data]) == FileContribution(libs, data)
  {
    FlattenOne(FileReader(libs), data);
  }

  /** How `parse_log_files` as written can end: with entries, or with an
      exception that escapes it. */
  datatype FilesOutcome = Parsed(entries: seq<ParsedEntry>) | Crashed(error: string)

  /** `parse_log_files` over `decompress` as written: a `ValueError` skips the
      file, an escaping exception ends the whole call. */
  function LogFilesAsWritten(libs: Libs, files: seq<Bytes>): FilesOutcome {
    if files == [] then Parsed([])
    else
      match DecompressAsWritten(libs, files[0])
      case Escaped(e) => Crashed(e)
      case Failed(_) => LogFilesAsWritten(libs, files[1..])
      case Text(t) =>
        match LogFilesAsWritten(libs, files[1..])
        case Parsed(rest) => Parsed(KeepValid(libs, NdjsonValues(libs, t)) + rest)
        case Crashed(e) => Crashed(e)
  }

  /** The two bytes of a gzip magic number and nothing more: a download cut
      short after its first two bytes. */
  const TruncatedGzip: Bytes := [0x1f, 0x8b]

  /** As written, a truncated gzip file is not a `ValueError`: it escapes
      `parse_log_files` and the entries of every other file in the batch are
      lost. The corrected parser moves on to ZIP and raw text; since the two
      bytes are neither an archive nor UTF-8 (`0x8b` cannot start a UTF-8
      sequence), the file fails alone and the others are kept. */
  lemma TruncatedGzipEscapes(libs: Libs, others: seq<Bytes>)
    ensures DecompressAsWritten(libs, TruncatedGzip).Escaped?
    ensures LogFilesAsWritten(libs, [TruncatedGzip] + others).Crashed?
    ensures Decompress(libs, TruncatedGzip) == AfterGzip(libs, TruncatedGzip)
    ensures !libs.unzip(TruncatedGzip).Unzipped? && libs.utf8(TruncatedGzip).None? ==>
      LogFileEntries(libs, TruncatedGzip).Err? &&
      LogFilesEntries(libs, [TruncatedGzip] + others) == LogFilesEntries(libs, others)
  {
    var data := TruncatedGzip;
    assert |data| == 2 && data[0] == 0x1f && data[1] == 0x8b;
    assert Gunzip(libs, data) == GzipAborted;
    if !libs.unzip(data).Unzipped? && libs.utf8(data).None? {
      assert LogFileEntries(libs, data).Err?;
      FailingFileIsSkipped(libs, [], data, others);
      assert [] + [data] + others == [data] + others;
      assert LogFilesEntries(libs, []) == [];
    }
  }

  /** As written, a ZIP archive (it starts with `PK`, so gzip rejects it)
      whose member read aborts escapes `parse_log_files` and loses every other
      file of the batch, unless an earlier member was not UTF-8, which is a
      `ValueError` and fails only this file. The corrected parser tries the
      raw text instead, which is a `ValueError` unless the bytes are
      JSON-looking UTF-8. */
  lemma ZipAbortEscapes(libs: Libs, data: Bytes, others: seq<Bytes>)
    requires 2 <= |data| && data[0] == 0x50 && data[1] == 0x4b
    requires libs.unzip(data).ZipAborted?
    ensures DecompressAsWritten(libs, data).Escaped? <==> DecodeMembers(libs, libs.unzip(data).readBefore).Some?
    ensures DecodeMembers(libs, libs.unzip(data).readBefore).Some? ==>
      LogFilesAsWritten(libs, [data] + others).Crashed? && Decompress(libs, data) == RawText(libs, data)
    ensures DecodeMembers(libs, libs.unzip(data).readBefore).None? ==>
      DecompressAsWritten(libs, data) == Failed(NotUtf8) && Decompress(libs, data) == Err(NotUtf8)
  {
    assert Gunzip(libs, data) == GzipRejected;
    assert ([data] + others)[0] == data;
  }
}
