/** Export of query results as a JSON array, as JSON lines or as CSV. An
    exported item is the entry's own decoded `raw_json` (the API's record as
    it arrived), falling back to the row when that text does not decode.
    The content is returned; writing it to standard output or to a file is
    not modelled. */
module Export {
  import opened Wrappers
  import opened Text
  import opened JsonValue
  import opened Foreign
  import opened Models
  import opened Cache

  /** `dict(row)` for a row of `log_entries`, in the table's column order. */
  function RowDict(row: Row): Dict {
    [("id", JStr(row.id)), ("raw_json", JStr(row.rawJson)), ("date", JStr(row.date)),
     ("timestamp", JStr(row.timestamp)), ("event_type", JStr(row.eventType)),
     ("category", JStr(row.category)), ("action", JStr(row.action)), ("source", JStr(row.source)),
     ("outcome_type", JStr(row.outcomeType)), ("actor_type", JStr(row.actorType)),
     ("actor_id", JStr(row.actorId)), ("environment", JStr(row.environment)),
     ("client_ip", JStr(row.clientIp)), ("host", JStr(row.host)), ("session_id", JStr(row.sessionId)),
     ("object_type", JStr(row.objectType)), ("window_start", JStr(row.windowStart))]
  }

  /** Python's name for the type of a decoded value. */
  function TypeName(v: Json): string {
    match v
    case JNull => "NoneType"
    case JBool(_) => "bool"
    case JNum(_) => "int"
    case JStr(_) => "str"
    case JArr(_) => "list"
    case JObj(_) => "dict"
  }

  /** `entry.get("raw_json", "{}")` as the decoder's argument: a missing key
      reads `{}`; a value that is not text cannot be decoded at all. */
  function RawText(entry: Dict): (r: Result<string>)
    ensures Get(entry, "raw_json").None? ==> r == Ok("{}")
    ensures r.Ok? <==> Get(entry, "raw_json").None? || Get(entry, "raw_json").value.JStr?
  {
    match Get(entry, "raw_json")
    case None => Ok("{}")
    case Some(JStr(s)) => Ok(s)
    case Some(v) => Err("the JSON object must be str, bytes or bytearray, not " + TypeName(v))
  }

  /** What one entry becomes in a JSON or JSON-lines export: its decoded
      raw text, or the entry itself when the text is not JSON. The `TypeError`
      of a non-text raw value escapes. */
  function ExportItem(libs: Libs, entry: Dict): (r: Result<Json>)
    ensures r.Ok? <==> RawText(entry).Ok?
  {
    var raw :- RawText(entry);
    match libs.loads(raw)
    case Some(v) => Ok(v)
    case None => Ok(JObj(entry))
  }

  /** A stored row exports as the record it was stored from. */
  lemma StoredRowExportsOriginal(libs: Libs, row: Row, v: Json)
    requires libs.LoadsInvertsDumps() && WellFormed(v)
    requires row.rawJson == libs.dumpsCompact(v)
    ensures ExportItem(libs, RowDict(row)) == Ok(v)
  {
    assert Get(RowDict(row), "raw_json") == Some(JStr(row.rawJson));
  }

  /** An entry without `raw_json` exports as the empty dict; an entry whose
      raw text does not decode exports as itself. */
  lemma ExportItemFallbacks(libs: Libs, entry: Dict)
    requires libs.LoadsReadsIndented()
    ensures Get(entry, "raw_json").None? ==> ExportItem(libs, entry) == Ok(JObj([]))
    ensures RawText(entry).Ok? && libs.loads(RawText(entry).value).None? ==> ExportItem(libs, entry) == Ok(JObj(entry))
  {
  }

  /** The items of all entries, in order; the first entry whose raw value is
      not text stops the export. */
  function Items(libs: Libs, entries: seq<Dict>): (r: Result<seq<Json>>)
    ensures r.Ok? <==> forall i :: 0 <= i < |entries| ==> RawText(entries[i]).Ok?
    ensures r.Ok? ==> |r.value| == |entries| && forall i :: 0 <= i < |entries| ==> ExportItem(libs, entries[i]) == Ok(r.value[i])
    decreases |entries|
  {
    if entries == [] then Ok([])
    else
      var n := |entries| - 1;
      var front := entries[..n];
      assert forall i :: 0 <= i < n ==> front[i] == entries[i];
      match Items(libs, front)
      case Err(e) => Err(e)
      case Ok(items) =>
        match ExportItem(libs, entries[n])
        case Err(e) => Err(e)
        case Ok(last) => Ok(items + [last])
  }

  /** Once an entry fails, the export fails with that entry's error whatever
      follows it. */
  lemma {:induction false} ItemsStopAtFirstError(libs: Libs, entries: seq<Dict>, k: nat)
    requires k < |entries| && Items(libs, entries[..k]).Ok? && ExportItem(libs, entries[k]).Err?
    ensures Items(libs, entries) == Err(ExportItem(libs, entries[k]).error)
    decreases |entries|
  {
    if |entries| == k + 1 {
      assert entries[..|entries| - 1] == entries[..k];
    } else {
      var front := entries[..|entries| - 1];
      assert front[..k] == entries[..k] && front[k] == entries[k];
      ItemsStopAtFirstError(libs, front, k);
    }
  }

  /** One more entry that exports adds its item at the end. */
  lemma ItemsStep(libs: Libs, entries: seq<Dict>, k: nat)
    requires k < |entries| && Items(libs, entries[..k]).Ok? && ExportItem(libs, entries[k]).Ok?
    ensures Items(libs, entries[..k + 1]) == Ok(Items(libs, entries[..k]).value + [ExportItem(libs, entries[k]).value])
  {
    assert entries[..k + 1][..k] == entries[..k];
  }

  /** The text of `_to_json`: the items as an indented JSON array and a
      final newline. */
  function JsonText(libs: Libs, entries: seq<Dict>): (r: Result<string>)
    ensures r.Ok? <==> Items(libs, entries).Ok?
  {
    var items :- Items(libs, entries);
    Ok(libs.dumpsIndented(JArr(items)) + "\n")
  }

  /** `_to_json` */
  method ToJson(libs: Libs, entries: seq<Dict>) returns (r: Result<string>)
    ensures r == JsonText(libs, entries)
  {
    var parsed: seq<Json> := [];
    var k := 0;
    while k < |entries|
      invariant 0 <= k <= |entries|
      invariant Items(libs, entries[..k]) == Ok(parsed)
    {
      var entry := entries[k];
      var raw := RawText(entry);
      if raw.Err? {
        ItemsStopAtFirstError(libs, entries, k);
        return Err(raw.error);
      }
      var decoded := libs.loads(raw.value);
      if decoded.Some? {
        parsed := parsed + [decoded.value];
      } else {
        parsed := parsed + [JObj(entry)];
      }
      ItemsStep(libs, entries, k);
      k := k + 1;
    }
    assert entries[..k] == entries;
    r := Ok(libs.dumpsIndented(JArr(parsed)) + "\n");
  }

  /** Reading the JSON export back gives one item per entry, in order. */
  lemma JsonReadsBack(libs: Libs, entries: seq<Dict>)
    requires libs.LoadsInvertsDumps() && libs.LoadsReadsIndented()
    requires forall i :: 0 <= i < |entries| ==> RawText(entries[i]).Ok? && WellFormed(JObj(entries[i]))
    ensures Items(libs, entries).Ok? && JsonText(libs, entries).Ok?
    ensures libs.loads(JsonText(libs, entries).value) == Some(JArr(Items(libs, entries).value))
  {
    var items := Items(libs, entries).value;
    forall i | 0 <= i < |items|
      ensures WellFormed(items[i])
    {
      assert ExportItem(libs, entries[i]) == Ok(items[i]);
    }
    assert WellFormed(JArr(items));
    assert libs.loads(libs.dumpsIndented(JArr(items)) + "\n") == libs.loads(libs.dumpsIndented(JArr(items)));
  }

  /** The compact encoding of each item. */
  function CompactLines(libs: Libs, items: seq<Json>): (lines: seq<string>)
    ensures |lines| == |items|
  {
    seq(|items|, i requires 0 <= i < |items| => libs.dumpsCompact(items[i]))
  }

  lemma CompactLinesStep(libs: Libs, items: seq<Json>, item: Json)
    ensures CompactLines(libs, items + [item]) == CompactLines(libs, items) + [libs.dumpsCompact(item)]
  {
  }

  /** The text of `_to_jsonl`: one compact line per item, each ended by a
      newline. */
  function JsonlText(libs: Libs, entries: seq<Dict>): (r: Result<string>)
    ensures r.Ok? <==> Items(libs, entries).Ok?
  {
    var items :- Items(libs, entries);
    Ok(Join("\n", CompactLines(libs, items)) + "\n")
  }

  /** `_to_jsonl` */
  method ToJsonl(libs: Libs, entries: seq<Dict>) returns (r: Result<string>)
    ensures r == JsonlText(libs, entries)
  {
    var lines: seq<string> := [];
    ghost var items: seq<Json> := [];
    var k := 0;
    while k < |entries|
      invariant 0 <= k <= |entries|
      invariant Items(libs, entries[..k]) == Ok(items)
      invariant lines == CompactLines(libs, items)
    {
      var entry := entries[k];
      var raw := RawText(entry);
      if raw.Err? {
        ItemsStopAtFirstError(libs, entries, k);
        return Err(raw.error);
      }
      var decoded := libs.loads(raw.value);
      var item := if decoded.Some? then decoded.value else JObj(entry);
      ItemsStep(libs, entries, k);
      CompactLinesStep(libs, items, item);
      lines := lines + [libs.dumpsCompact(item)];
      items := items + [item];
      k := k + 1;
    }
    assert entries[..k] == entries;
    r := Ok(Join("\n", lines) + "\n");
  }

  /** The JSON-lines export has exactly one line per entry, and each line
      reads back as that entry's item. */
  lemma JsonlOneLinePerEntry(libs: Libs, entries: seq<Dict>)
    requires libs.DumpsIsOneLine() && libs.LoadsInvertsDumps()
    requires entries != []
    requires forall i :: 0 <= i < |entries| ==> RawText(entries[i]).Ok? && WellFormed(JObj(entries[i]))
    ensures Items(libs, entries).Ok? && JsonlText(libs, entries).Ok?
    ensures
      var lines := SplitLines(JsonlText(libs, entries).value);
      && |lines| == |entries|
      && forall i :: 0 <= i < |lines| ==> libs.loads(lines[i]) == Some(Items(libs, entries).value[i])
  {
    var items := Items(libs, entries).value;
    var lines := CompactLines(libs, items);
    forall i | 0 <= i < |lines|
      ensures lines[i] != [] && NoLineBreak(lines[i])
    {
      assert lines[i] == libs.dumpsCompact(items[i]);
    }
    SplitTerminatedLines(lines);
    forall i | 0 <= i < |lines|
      ensures libs.loads(lines[i]) == Some(items[i])
    {
      assert ExportItem(libs, entries[i]) == Ok(items[i]);
      assert WellFormed(items[i]);
    }
  }

  /** The CSV columns, in order. */
  const Columns: seq<string> := [
    "id", "timestamp", "date", "event_type", "category", "action", "source", "outcome_type",
    "actor_type", "actor_id", "environment", "client_ip", "host", "session_id", "object_type"]

  /** What the CSV writer puts in a cell: nothing for a missing key or
      `None`, `str` of anything else. */
  function CellText(v: Option<Json>): (r: string)
    ensures v.Some? && v.value.JStr? ==> r == v.value.s
    ensures v.None? || v == Some(JNull) ==> r == ""
  {
    match v
    case None => ""
    case Some(JNull) => ""
    case Some(x) => PyStr(x)
  }

  /** `DictWriter.writerow` with `extrasaction="ignore"`: the fifteen column
      values in column order. */
  function CsvFields(entry: Dict): (r: seq<string>)
    ensures |r| == |Columns|
  {
    seq(|Columns|, i requires 0 <= i < |Columns| => CellText(Get(entry, Columns[i])))
  }

  /** Keys outside the fifteen columns never reach the CSV. */
  lemma ExtraKeysDropped(a: Dict, b: Dict)
    requires forall c :: c in Columns ==> Get(a, c) == Get(b, c)
    ensures CsvFields(a) == CsvFields(b)
  {
    forall i | 0 <= i < |Columns|
      ensures CsvFields(a)[i] == CsvFields(b)[i]
    {
      assert Columns[i] in Columns;
    }
  }

  /** A row's record holds its fifteen exported columns, without the raw
      text and the window start. */
  lemma RowRecord(row: Row)
    ensures CsvFields(RowDict(row)) == [
      row.id, row.timestamp, row.date, row.eventType, row.category, row.action, row.source,
      row.outcomeType, row.actorType, row.actorId, row.environment, row.clientIp, row.host,
      row.sessionId, row.objectType]
  {
    var d := RowDict(row);
    RowKeysDistinct(row);
    GetStored(d, 0);
    GetStored(d, 2);
    GetStored(d, 3);
    GetStored(d, 4);
    GetStored(d, 5);
    GetStored(d, 6);
    GetStored(d, 7);
    GetStored(d, 8);
    GetStored(d, 9);
    GetStored(d, 10);
    GetStored(d, 11);
    GetStored(d, 12);
    GetStored(d, 13);
    GetStored(d, 14);
    GetStored(d, 15);
  }

  lemma RowKeysDistinct(row: Row)
    ensures DistinctKeys(RowDict(row))
  {
  }

  /** The records of the entries, one per entry, in order. */
  function CsvBody(libs: Libs, entries: seq<Dict>): string
    decreases |entries|
  {
    if entries == [] then ""
    else CsvBody(libs, entries[..|entries| - 1]) + libs.csvRecord(CsvFields(entries[|entries| - 1]))
  }

  /** The text of `_to_csv`: nothing for no entries, otherwise the header
      and then one record per entry. */
  function CsvText(libs: Libs, entries: seq<Dict>): (r: string)
    ensures entries == [] ==> r == ""
    ensures entries != [] ==> StartsWith(r, libs.csvRecord(Columns))
  {
    if entries == [] then "" else libs.csvRecord(Columns) + CsvBody(libs, entries)
  }

  /** Adding an entry adds its record at the end. */
  lemma CsvAppend(libs: Libs, entries: seq<Dict>, entry: Dict)
    requires entries != []
    ensures CsvText(libs, entries + [entry]) == CsvText(libs, entries) + libs.csvRecord(CsvFields(entry))
  {
    assert (entries + [entry])[..|entries|] == entries;
  }

  /** `_to_csv` */
  method ToCsv(libs: Libs, entries: seq<Dict>) returns (text: string)
    ensures text == CsvText(libs, entries)
  {
    if entries == [] {
      return "";
    }
    text := libs.csvRecord(Columns);
    var k := 0;
    while k < |entries|
      invariant 0 <= k <= |entries|
      invariant text == libs.csvRecord(Columns) + CsvBody(libs, entries[..k])
    {
      text := text + libs.csvRecord(CsvFields(entries[k]));
      assert entries[..k + 1][..k] == entries[..k];
      k := k + 1;
    }
    assert entries[..k] == entries;
  }

  /** `export_entries`: the content in the requested format and the number
      of entries; any other format is refused before anything is written. */
  method ExportEntries(libs: Libs, entries: seq<Dict>, format: string) returns (r: Result<(string, nat)>)
    ensures format != "json" && format != "jsonl" && format != "csv" ==> r == Err("Unsupported export format: " + format)
    ensures r.Ok? ==> r.value.1 == |entries|
    ensures format == "json" ==> r.Ok? == JsonText(libs, entries).Ok? && (r.Ok? ==> r.value.0 == JsonText(libs, entries).value)
    ensures format == "jsonl" ==> r.Ok? == JsonlText(libs, entries).Ok? && (r.Ok? ==> r.value.0 == JsonlText(libs, entries).value)
    ensures format == "csv" ==> r == Ok((CsvText(libs, entries), |entries|))
  {
    var content: string;
    if format == "json" {
      var j := ToJson(libs, entries);
      if j.Err? {
        return Err(j.error);
      }
      content := j.value;
    } else if format == "jsonl" {
      var j := ToJsonl(libs, entries);
      if j.Err? {
        return Err(j.error);
      }
      content := j.value;
    } else if format == "csv" {
      content := ToCsv(libs, entries);
    } else {
      return Err("Unsupported export format: " + format);
    }
    r := Ok((content, |entries|));
  }
}
