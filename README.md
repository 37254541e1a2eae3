# unqork-audit-logs, modelled in Dafny

This project models the fetch-and-cache engine of `unqork-audit-logs`, a
command-line tool. The tool downloads an Unqork platform's audit logs one
hour-long window at a time and keeps them in a local SQLite cache. It then
answers filtered queries, exports and summaries from that cache. The
model covers these parts:

- **Cache (`cache.dfy`).** The cache is a `LogCache` class holding two
  maps. One holds the rows, keyed by the content-hash id. The other is the
  ledger of fetched windows, keyed by the `(start, end)` pair.
  - `store_window` is the insert-if-absent loop, followed by the ledger
    upsert.
  - `query_entries` and `count_entries` build a list of conditions. The
    model proves that the list means the same as the filter, and proves the
    newest-first order and the limit/offset page of the query.
  - `_safe_get` and `_extract_fields` are the schema-tolerant walk over a
    JSON value. They are proved to agree with the validated record.
- **Fetcher (`fetcher.dfy`).**
  - The window planner, `generate_windows`, over integer instants.
  - `parse_relative_time`.
  - The per-window loop of `fetch_audit_logs`, as a state machine over the
    cache and the `FetchProgress` counters. The location and download
    replies are oracle inputs.
- **Parser (`parser.dfy`).**
  - The `decompress` fallback chain: gzip, then ZIP, then raw text.
  - `parse_ndjson`, in array mode and line mode.
  - `parse_log_file` and `parse_log_files`, with per-file failure
    isolation.
- **Record (`models.dfy`).** The pydantic record and its defaults, the
  alias-or-name lookup, and the accessor properties.
- **Filters (`filters.dfy`).** `FilterParams` and `build_filters`.
- **Export (`export.dfy`).** `export_entries` and its JSON, JSONL and CSV
  shaping.
- **Configuration (`config.dfy`).** Base-URL validation, the derived URLs
  and path, and the missing-variable and `verify_ssl` logic of
  `load_settings`.
- **Token manager (`auth.dfy`).** The bearer-token cache of the OAuth 2.0
  client-credentials grant (section 4.4 of RFC 6749), as a `TokenManager`
  class with an integer clock.
- **Summary (`summary.dfy`).** The counting loop of `display_summary`:
  - Python `Counter`s are modelled as multisets;
  - `most_common(n)` is specified by a predicate and implemented by
    selection;
  - the sorted timestamp list gives the date range.

Several libraries are fields of the `Foreign.Libs` datatype, constrained
only where the code relies on them:
- SHA-256;
- `json.loads` and `json.dumps`;
- gzip inflation, ZIP reading and UTF-8 decoding;
- the CSV record writer.

The same holds for the calendar parser and formatter. `json.loads` and
`json.dumps` are assumed to be mutual inverses on well-formed values, and
the compact dump is assumed to be a single line. The gzip header checks
that decide which exception Python raises are written out (`Foreign.Gunzip`).

Support modules:
- `json.dfy`: the JSON value, and Python's `dict.get`, truthiness, `str()`
  and `repr()` on it.
- `text.dfy`: `str.strip`, `splitlines`, `lower` and `int()` on digit
  strings, and Python's string order.
- `ordering.dfy`: a verified selection sort by a string key.
- `wrappers.dfy`: `Option` and `Result`.

## Model

| member | source | states |
|---|---|---|
| Cache.EntryId | src/unqork_audit_logs/cache.py:62-64 | the id is the first 16 characters of the SHA-256 hex digest of `raw_json`, so it is 16 hex digits and depends only on the text |
| Cache.SafeGetFollowsPath | src/unqork_audit_logs/cache.py:67-76 | when every step of the key path meets a dict holding the key and the final value is not `null`, the result is `str()` of that final value |
| Cache.SafeGetBroken | src/unqork_audit_logs/cache.py:67-76 | when the path is broken (a non-dict, a missing key or a `null` on the way), the result is the default |
| Cache.ExtractFallbacks | src/unqork_audit_logs/cache.py:96-119 | the fallbacks of `_extract_fields`: a missing or falsy `object` yields empty nested fields; `eventType` is preferred over `event_type`; the camelCase `clientIp`/`sessionId` is replaced by the snake_case key only when it is empty |
| Cache.ExtractAgreesWithValidation | src/unqork_audit_logs/cache.py:79-119 | for a document that validates as a record, every extracted column equals the record's field or accessor (client IP and session id whenever the record's value is non-empty) |
| Cache.TopLevelAgrees | src/unqork_audit_logs/cache.py:99-104 | the top-level `raw.get(...)` reads agree with the validated record's date, timestamp, event type, category, action and source |
| Cache.ActorAgrees | src/unqork_audit_logs/cache.py:105-108 | `_safe_get` on `actor.identifier.value` and `actor.type` yields the validated actor's id and type |
| Cache.OutcomeAgrees | src/unqork_audit_logs/cache.py:105-118 | `_safe_get` on `outcome.type` and `type` yields the validated outcome type and object type |
| Cache.ContextTextsAgree | src/unqork_audit_logs/cache.py:108-113 | `_safe_get` on `context.environment` and `context.host` yields the validated context fields |
| Cache.ClientIpAgrees | src/unqork_audit_logs/cache.py:109-112 | the camelCase-then-snake_case client-IP read yields the validated non-empty client IP |
| Cache.SessionIdAgrees | src/unqork_audit_logs/cache.py:114-117 | the camelCase-then-snake_case session-id read yields the validated non-empty session id |
| Cache.ObjectIsDict | src/unqork_audit_logs/cache.py:96 | for a validating document, `raw.get("object") or {}` is a dict that validates to the record's object |
| Cache.NestedIsDict | src/unqork_audit_logs/cache.py:67-76 | a nested model that validates is an absent key or a dict, and `_safe_get` through it continues inside that dict |
| Cache.StrLeaf | src/unqork_audit_logs/cache.py:67-76 | a `str` field that validates is what `_safe_get` reads at that key (an absent key reads as the default `""`) |
| Cache.OptStrLeaf | src/unqork_audit_logs/cache.py:109-117 | a non-empty optional string that validates under its alias or name is what the alias-then-name read returns |
| Cache.Bind | src/unqork_audit_logs/cache.py:207-236 | how sqlite3 binds a decoded value: `null` is SQL NULL, a string is itself, a list or dict cannot be bound |
| Cache.BuildRowWrites | src/unqork_audit_logs/cache.py:196-238 | the `INSERT OR IGNORE` writes a row iff the six top-level columns bind and `date`/`timestamp` are not NULL; the row carries the entry id, the raw text and the window start |
| Cache.Candidate | src/unqork_audit_logs/cache.py:185-196 | a raw text that does not decode gives no row; a row carries the entry id, the raw text and the window start |
| Cache.InsertStep | src/unqork_audit_logs/cache.py:183-240 | one pass of the store loop: an undecodable entry changes nothing; otherwise the row is added iff it can be written and its id is absent |
| Cache.Raws | src/unqork_audit_logs/cache.py:184-186 | the batch's `raw_json` texts, one per entry, in order |
| Cache.StoreKeepsExisting | src/unqork_audit_logs/cache.py:183-240 | storing a batch never changes an existing row; each new row comes from the batch and carries this window's start; at most one row per entry is added; rows stay keyed by their own id |
| Cache.StoreSettles | src/unqork_audit_logs/cache.py:183-240 | after a store, every entry of the batch is settled: undecodable, unwritable, or present under its id |
| Cache.StoreSettledIsNoop | src/unqork_audit_logs/cache.py:207-236 | storing entries that are all settled changes nothing |
| Cache.StoreIdempotent | src/unqork_audit_logs/cache.py:162-266 | storing the same batch twice leaves the table as after the first store, so the second store inserts 0 |
| Cache.FirstWriteWins | src/unqork_audit_logs/cache.py:207-236 | re-storing a batch under another window keeps every row's original `window_start` |
| Cache.CountConditions | src/unqork_audit_logs/cache.py:355-372 | the condition list built by `count_entries` holds for a row exactly when the row matches the count filter |
| Cache.SatisfiesConcat | src/unqork_audit_logs/cache.py:326-328 | the `AND` of two condition lists holds iff both hold |
| Cache.SatisfiesWhen | src/unqork_audit_logs/cache.py:294-311 | a condition appended only when its filter is active holds iff the filter is inactive or the condition holds |
| Cache.CountConditionsMeaning | src/unqork_audit_logs/cache.py:355-372 | the count conditions, written as a function of the filter, mean exactly the count filter for every row |
| Cache.CountConditionsRow | src/unqork_audit_logs/cache.py:355-372 | the same, for one row |
| Cache.QueryConditions | src/unqork_audit_logs/cache.py:294-328 | the condition list built by `query_entries` holds for a row exactly when the row matches every active filter |
| Cache.Append | src/unqork_audit_logs/cache.py:294-324 | appending a condition adds it to the conjunction |
| Cache.Page | src/unqork_audit_logs/cache.py:330-336 | `LIMIT ? OFFSET ?`: skip `offset` rows (0 when negative), then keep at most `limit` (all when negative), in order |
| Cache.AsQuery | src/unqork_audit_logs/cache.py:341-381 | a count filter seen as an unpaged query matches the same rows |
| Cache.NewestFirstRows | src/unqork_audit_logs/cache.py:330-336 | `ORDER BY timestamp DESC`: the rows of the matching ids, each once, in descending timestamp order |
| Cache.RowsFollowIds | src/unqork_audit_logs/cache.py:330-339 | reading the sorted ids back from the table yields exactly the rows of those ids |
| Cache.RowsFollowOrder | src/unqork_audit_logs/cache.py:330-336 | rows read in sorted-id order are newest first |
| Cache.CountIsUnpagedQuery | src/unqork_audit_logs/cache.py:341-381 | `count_entries` counts what the corresponding query would match, and that query applies no paging |
| Cache.SearchMeaning | src/unqork_audit_logs/cache.py:318-324 | a search term matches iff it occurs case-insensitively in `raw_json`, `action`, `category`, `actor_id` or `environment` |
| Cache.LogCache.constructor | src/unqork_audit_logs/cache.py:20-59 | a fresh cache has no rows and no fetched windows |
| Cache.LogCache.IsWindowFetched | src/unqork_audit_logs/cache.py:145-152 | true exactly for a `(start, end)` pair in the ledger |
| Cache.LogCache.GetFetchedWindows | src/unqork_audit_logs/cache.py:154-160 | every ledger row once, with its file and entry counts, ordered by window start |
| Cache.LogCache.StoreWindow | src/unqork_audit_logs/cache.py:162-266 | the rows become the insert-if-absent fold over the batch; the result is the number of new ids; the ledger row for `(start, end)` is upserted with the file count and the batch length |
| Cache.LogCache.StoreEntry | src/unqork_audit_logs/cache.py:185-238 | one entry is inserted if absent, and the result says whether a row was added; the ledger is untouched |
| Cache.LogCache.QueryEntries | src/unqork_audit_logs/cache.py:268-339 | the result is the page of the newest-first list of exactly the stored rows that match the query |
| Cache.LogCache.CountEntries | src/unqork_audit_logs/cache.py:341-381 | the number of stored rows matching the count filter |
| Cache.LogCache.GetEntryById | src/unqork_audit_logs/cache.py:383-389 | the row stored under the id, or `None` when the id is absent |
| Cache.LogCache.CacheStats | src/unqork_audit_logs/cache.py:391-417 | the row count, the ledger count, and each stored category with the number of rows carrying it |
| Cache.LogCache.Clear | src/unqork_audit_logs/cache.py:419-424 | no rows and no fetched windows remain |
| Fetcher.Formatted | src/unqork_audit_logs/fetcher.py:44-47 | each planned span is formatted end by end, in order |
| Fetcher.GenerateWindows | src/unqork_audit_logs/fetcher.py:28-49 | the loop yields the formatted plan |
| Fetcher.PlanEmpty | src/unqork_audit_logs/fetcher.py:42 | there are no windows iff `start >= end` |
| Fetcher.PlanTiles | src/unqork_audit_logs/fetcher.py:28-49 | for `start < end`, the windows start at `start`, end at `end`, are contiguous, and each is non-empty and at most one hour |
| Fetcher.PlanCount | src/unqork_audit_logs/fetcher.py:28-49 | for `start < end`, there are ceil((end - start) / 1 hour) windows |
| Fetcher.ParseRelativeTime | src/unqork_audit_logs/fetcher.py:231-255 | a successful parse means the stripped, lowercased text ends in `h`, `d` or `m` after an integer N, and the result is `(now - N*unit, now)` |
| Fetcher.ParseRelative | src/unqork_audit_logs/fetcher.py:240-255 | the same, on the already normalised text |
| Fetcher.RelativeTimeNeedsUnit | src/unqork_audit_logs/fetcher.py:249-253 | any other suffix (or empty text) is an error |
| Fetcher.RelativeTimeOfCount | src/unqork_audit_logs/fetcher.py:231-255 | `str(n)` followed by a unit letter in either case parses to `(now - n*unit, now)` |
| Fetcher.RelativeTimeOfDigits | src/unqork_audit_logs/fetcher.py:231-255 | a digit string followed by a unit letter parses to `(now - int(digits)*unit, now)` |
| Fetcher.DigitsAndLowerUnit | src/unqork_audit_logs/fetcher.py:240-248 | the same on lowercase text |
| Fetcher.DigitsAndUnitNormalised | src/unqork_audit_logs/fetcher.py:237 | for digits and a unit letter, strip-and-lower only lowercases the unit |
| Fetcher.ParseRelativeTimeVia | src/unqork_audit_logs/fetcher.py:237 | parsing is parsing of the stripped, lowercased text |
| Fetcher.NormalisedDigitsAndUnit | src/unqork_audit_logs/fetcher.py:237 | `strip().lower()` of digits plus a unit letter is the digits plus the lowercase letter |
| Fetcher.RelativeOfUnit | src/unqork_audit_logs/fetcher.py:240-255 | each unit branch subtracts N units from `now` |
| Fetcher.SkipIgnoresNetwork | src/unqork_audit_logs/fetcher.py:110-116 | a window already in the ledger makes no network call and increments only the skipped and completed counters |
| Fetcher.StepOutcome | src/unqork_audit_logs/fetcher.py:109-181 | each window either completes or appends exactly one error, never both; earlier errors are kept; a failing window leaves rows and ledger unchanged; a completed window is in the ledger |
| Fetcher.StepCounts | src/unqork_audit_logs/fetcher.py:131-176 | per window, the growth of `new_entries` is at most the growth of `total_entries`, skips are completions, files never decrease, and stored rows are kept |
| Fetcher.RunAccounts | src/unqork_audit_logs/fetcher.py:109-181 | over a run, completed windows plus errors equal the number of windows; `new_entries` grows no more than `total_entries`; only windows fetched without error enter the ledger; existing rows are kept |
| Fetcher.RefetchSkipsAll | src/unqork_audit_logs/fetcher.py:110-116 | re-running over windows all in the ledger changes nothing but the skipped and completed counters |
| Fetcher.FetchProgress.constructor | src/unqork_audit_logs/fetcher.py:52-63 | all counters start at zero with an empty error list |
| Fetcher.FetchWindow | src/unqork_audit_logs/fetcher.py:110-181 | one loop iteration changes the cache and the progress counters as the state machine's step prescribes |
| Fetcher.StoreDownloaded | src/unqork_audit_logs/fetcher.py:168-181 | the success branch parses the files, stores the entries, upserts the ledger row, and adds the entry count, the new-entry count and one completed window |
| Fetcher.ParsedAreDicts | src/unqork_audit_logs/fetcher.py:168-176 | every parsed entry's `raw_json` decodes to a dict, as `store_window` expects |
| Fetcher.StepDownloaded | src/unqork_audit_logs/fetcher.py:131-181 | the step of a located and downloaded window: files, entries and new entries are added, and the ledger row records the location count and the parsed count |
| Fetcher.FetchAuditLogs | src/unqork_audit_logs/fetcher.py:73-183 | `total_windows` becomes the number of planned windows, and the cache and counters end as the state machine's run over the plan |
| Parser.DecodeMembers | src/unqork_audit_logs/parser.py:55-57 | every ZIP member decodes as UTF-8, in name-list order, or one of them fails |
| Parser.DecompressOrder | src/unqork_audit_logs/parser.py:33-71 | gzip first (a gzip stream that is not UTF-8 is an error, not a fallthrough), then ZIP joined with `"\n"` (a member that is not UTF-8 fails the file before a later member is read), then raw UTF-8 only when it looks like JSON |
| Parser.DecompressAgrees | src/unqork_audit_logs/parser.py:33-71 | the code as written escapes exactly when a gzip read aborts, or when a ZIP member read aborts after every earlier member decoded as UTF-8; everywhere else the corrected decompress agrees with it |
| Parser.ParseNdjson | src/unqork_audit_logs/parser.py:74-112 | the loop yields the array-or-lines reading of the text |
| Parser.ParseLines | src/unqork_audit_logs/parser.py:102-112 | the line loop yields each non-blank decodable line's value, in order |
| Parser.BlankTextIsEmpty | src/unqork_audit_logs/parser.py:88-90 | empty or whitespace-only text yields no values |
| Parser.LinesValuesBound | src/unqork_audit_logs/parser.py:102-112 | line mode yields at most one value per non-blank line |
| Parser.NdjsonRoundTrip | src/unqork_audit_logs/parser.py:74-112 | objects dumped one per line and joined with `"\n"` parse back to exactly those objects |
| Parser.LineMode | src/unqork_audit_logs/parser.py:93-102 | text not starting with `[` is read line by line |
| Parser.LinesOfDumps | src/unqork_audit_logs/parser.py:102-112 | compact dumps read line by line give back their values |
| Parser.Validating | src/unqork_audit_logs/parser.py:131-143 | the kept values are those of the input that validate |
| Parser.KeepValidIsValidating | src/unqork_audit_logs/parser.py:131-143 | `parse_log_file` keeps, in order, exactly the values that validate, each with its compact dump as `raw_json` |
| Parser.RawJsonRevalidates | src/unqork_audit_logs/parser.py:133-135 | each kept entry's `raw_json` decodes to a dict that validates to the kept record |
| Parser.ParseLogFile | src/unqork_audit_logs/parser.py:115-145 | the loop yields the file's validated entries, or the decompression error |
| Parser.ParseLogFiles | src/unqork_audit_logs/parser.py:148-165 | the loop yields the concatenation of each file's entries, a failing file contributing nothing |
| Parser.LogFilesConcat | src/unqork_audit_logs/parser.py:158-163 | parsing two lists of files is parsing each and concatenating, in file order |
| Parser.LinesWellFormed | src/unqork_audit_logs/parser.py:102-112 | every value read in line mode is well-formed JSON |
| Parser.NdjsonWellFormed | src/unqork_audit_logs/parser.py:74-112 | every value read from a text is well-formed JSON |
| Parser.EntriesDecodeToDicts | src/unqork_audit_logs/parser.py:131-163 | every parsed entry's `raw_json` decodes to a dict |
| Parser.FailingFileIsSkipped | src/unqork_audit_logs/parser.py:158-163 | a file whose parse raises `ValueError` contributes nothing and does not stop later files |
| Parser.SingleFile | src/unqork_audit_logs/parser.py:148-165 | one file's contribution is its own entries, or nothing on error |
| Parser.ZipAbortEscapes | src/unqork_audit_logs/parser.py:52-59 | as written, a ZIP archive whose member read aborts (encrypted, unsupported method, corrupt data) escapes `parse_log_files` iff every member read before it decoded as UTF-8; otherwise the earlier `UnicodeDecodeError` fails only this file. The corrected reading moves on to the raw-text fallback |
| Parser.TruncatedGzipEscapes | src/unqork_audit_logs/parser.py:46-49 | as written, the two-byte gzip header makes `decompress` raise `EOFError`, which escapes `parse_log_files`; in the corrected reading, when neither the ZIP reader nor UTF-8 accepts those bytes, the file fails alone and the batch's other files are parsed as without it |
| Foreign.Gunzip | src/unqork_audit_logs/parser.py:46-49 | `gzip.decompress`: empty input gives empty output, a bad magic gives `BadGzipFile`, a magic with a truncated header gives `EOFError` |
| Models.AuditLogEntry.TimestampText | src/unqork_audit_logs/models.py:134-138 | `parsed_timestamp` reads `timestamp`, or `date` when `timestamp` is empty |
| Models.Validate | src/unqork_audit_logs/models.py:73-102 | only a dict can validate as a record |
| Models.EmptyObjectDefaults | src/unqork_audit_logs/models.py:93-102 | `{}` validates to the all-defaults record, whose category, action, actor id, outcome type, environment and host are empty and whose client IP and session id are `None` |
| Models.AliasesPopulate | src/unqork_audit_logs/models.py:94-97 | the aliases `messageType`, `schemaVersion` and `eventType` populate their fields |
| Models.NameUsedWithoutAlias | src/unqork_audit_logs/models.py:97 | with `populate_by_name`, the field name `event_type` is read when the alias is absent |
| Models.AccessorsReadNested | src/unqork_audit_logs/models.py:104-112 | `actor_id` is `object.actor.identifier.value` and `outcome_type` is `object.outcome.type` |
| Models.ObjectIsValidated | src/unqork_audit_logs/models.py:102 | a dict under `object` is validated as the record's object |
| Models.ActorIsValidated | src/unqork_audit_logs/models.py:57-70 | a dict under `actor` is validated as the object's actor |
| Models.IdentifierIsValidated | src/unqork_audit_logs/models.py:34-41 | a dict under `identifier` is validated as the actor's identifier |
| Models.OutcomeIsValidated | src/unqork_audit_logs/models.py:57-70 | a dict under `outcome` is validated as the object's outcome |
| Models.ContextIsValidated | src/unqork_audit_logs/models.py:44-54 | a dict under `context` is validated as the object's context, holding `environment`, `host` and the optional `session_id` and `client_ip` |
| Filters.PredicateFields | src/unqork_audit_logs/filters.py:33-36 | the nine predicate fields |
| Filters.AnyActive | src/unqork_audit_logs/filters.py:33-36 | `any([...])` is true iff some field is a non-empty string |
| Filters.HasFilters | src/unqork_audit_logs/filters.py:31-36 | true iff one of the nine predicate fields is non-empty |
| Filters.PagingIsNoFilter | src/unqork_audit_logs/filters.py:31-36 | `limit` and `offset` never make `has_filters` true |
| Filters.AsQueryKwargs | src/unqork_audit_logs/filters.py:38-52 | the query carries all nine predicates plus limit and offset, unchanged (it converts back to the same parameters) |
| Filters.AsCountKwargs | src/unqork_audit_logs/filters.py:54-63 | the count filter is the query of the same parameters without source, ip, search and paging |
| Filters.CountIgnoresQueryOnlyFields | src/unqork_audit_logs/filters.py:54-63 | the count filter does not depend on source, ip, search, limit or offset, and every row the query matches is counted |
| Filters.Bound | src/unqork_audit_logs/filters.py:109-114 | an empty bound gives `None`; otherwise the parsed instant, formatted, or the parse error |
| Filters.BuildFilters | src/unqork_audit_logs/filters.py:116-128 | the non-time fields, limit and offset pass through unchanged |
| Filters.LastOverridesStartEnd | src/unqork_audit_logs/filters.py:104-107 | with `last`, explicit start and end are ignored and the bounds are the relative-time span |
| Filters.BoundsWithoutLast | src/unqork_audit_logs/filters.py:108-114 | without `last`, start and end are each set iff supplied |
| Filters.NoArgumentsNoFilters | src/unqork_audit_logs/filters.py:66-128 | no arguments give the default parameters, which have no filters |
| Filters.LastIsAFilter | src/unqork_audit_logs/filters.py:104-107 | a `last` the model parses always produces active filters |
| Export.RawText | src/unqork_audit_logs/export.py:48 | `entry.get("raw_json", "{}")`; a non-string value fails in `json.loads` |
| Export.ExportItem | src/unqork_audit_logs/export.py:48-52 | one item per row, failing only when `raw_json` is not a string |
| Export.StoredRowExportsOriginal | src/unqork_audit_logs/export.py:44-53 | a stored row exports the object its `raw_json` was dumped from |
| Export.ExportItemFallbacks | src/unqork_audit_logs/export.py:48-52 | a missing `raw_json` gives `{}`, and an undecodable one gives the row itself |
| Export.Items | src/unqork_audit_logs/export.py:47-52 | one item per row, in order, succeeding iff every row's `raw_json` is a string |
| Export.ItemsStopAtFirstError | src/unqork_audit_logs/export.py:47-52 | the first failing row's error escapes |
| Export.ItemsStep | src/unqork_audit_logs/export.py:47-52 | the item list grows by one item per row |
| Export.JsonText | src/unqork_audit_logs/export.py:44-53 | the JSON export succeeds iff the item list does |
| Export.ToJson | src/unqork_audit_logs/export.py:44-53 | the loop yields the indented dump of the item list plus a newline |
| Export.JsonReadsBack | src/unqork_audit_logs/export.py:44-53 | the JSON export decodes back to the array of items |
| Export.CompactLines | src/unqork_audit_logs/export.py:59-66 | one compact line per item |
| Export.CompactLinesStep | src/unqork_audit_logs/export.py:59-66 | each item adds its compact dump as the next line |
| Export.JsonlText | src/unqork_audit_logs/export.py:56-67 | the JSONL export succeeds iff the item list does |
| Export.ToJsonl | src/unqork_audit_logs/export.py:56-67 | the loop yields the compact lines joined by `"\n"` with a trailing `"\n"` |
| Export.JsonlOneLinePerEntry | src/unqork_audit_logs/export.py:56-67 | the JSONL export has exactly one line per row, and line i decodes to item i |
| Export.CellText | src/unqork_audit_logs/export.py:102-103 | the CSV writer writes a string as itself and a missing or `None` value as empty |
| Export.CsvFields | src/unqork_audit_logs/export.py:76-92 | a record has exactly the 15 fixed columns |
| Export.ExtraKeysDropped | src/unqork_audit_logs/export.py:95-99 | keys outside the 15 columns do not affect the record |
| Export.RowRecord | src/unqork_audit_logs/export.py:76-103 | a stored row's record is its 15 columns in the fixed order |
| Export.RowKeysDistinct | src/unqork_audit_logs/cache.py:339 | `dict(row)` has distinct keys |
| Export.CsvText | src/unqork_audit_logs/export.py:70-105 | no rows give `""`; otherwise the text starts with the header record |
| Export.CsvAppend | src/unqork_audit_logs/export.py:102-103 | each further row appends its record |
| Export.ToCsv | src/unqork_audit_logs/export.py:70-105 | the loop yields the header followed by one record per row |
| Export.ExportEntries | src/unqork_audit_logs/export.py:11-41 | `json`, `jsonl` and `csv` produce their text and return `len(entries)`; any other format is `ValueError` before output |
| Config.Settings.TokenUrl | src/unqork_audit_logs/config.py:47-49 | the base URL followed by `/api/1.0/oauth2/access_token` |
| Config.Settings.AuditLogsUrl | src/unqork_audit_logs/config.py:51-53 | the base URL followed by `/api/1.0/logs/audit-logs` |
| Config.JoinPath | src/unqork_audit_logs/config.py:55-57 | the path ends with the name, after the directory and one separator |
| Config.CacheInDataDir | src/unqork_audit_logs/config.py:55-57 | `cache_db_path` lies in the data directory and ends in `/cache.db` |
| Config.ValidateBaseUrl | src/unqork_audit_logs/config.py:38-45 | accepted iff the text without its trailing slashes starts with `https://`; the result is that prefix of the input, with only slashes removed |
| Config.ValidatedUrlIsStable | src/unqork_audit_logs/config.py:38-45 | validating a validated URL changes nothing |
| Config.Missing | src/unqork_audit_logs/config.py:75-81 | the missing list names exactly the required variables that are unset or empty |
| Config.MissingIsUnset | src/unqork_audit_logs/config.py:75-81 | the missing list is the required list filtered to the unset names, in the order base URL, client id, client secret |
| Config.VerifySsl | src/unqork_audit_logs/config.py:91 | SSL verification is on when the variable is unset |
| Config.VerifySslSwitchedOff | src/unqork_audit_logs/config.py:91 | `false`, `0` and `no`, in lower or upper case, switch verification off |
| Config.LoadSettings | src/unqork_audit_logs/config.py:60-99 | the missing-variable error when the list is non-empty; otherwise the validated base URL, the credentials, the data directory or its default, the defaults 15 and 300, and the parsed `verify_ssl` |
| Config.LoadFailsWhenUnset | src/unqork_audit_logs/config.py:60-99 | loading fails iff a required variable is unset or empty or the base URL is not `https` |
| Auth.TokenOf | src/unqork_audit_logs/auth.py:78 | `data.get("access_token")`, with JSON `null` as `None` |
| Auth.ExpiresIn | src/unqork_audit_logs/auth.py:86 | `expires_in` defaults to 3600; a `null` fails |
| Auth.RefreshSucceeds | src/unqork_audit_logs/auth.py:76-87 | a refresh succeeds only on a dict body with a truthy token; then the token is stored and `expires_at = now + expires_in` (3600 by default) |
| Auth.DefaultLifetimeWithBuffer | src/unqork_audit_logs/auth.py:31-34 | with the default lifetime and the 300-second buffer, the token is valid exactly until `now + 3300` |
| Auth.RefreshFailures | src/unqork_audit_logs/auth.py:60-83 | HTTP and transport failures raise `AuthError` and change nothing; a missing or empty token raises `AuthError` and keeps `expires_at` |
| Auth.EmptyTokenRejected | src/unqork_audit_logs/auth.py:78-83 | an empty `access_token` raises `AuthError` |
| Auth.TokenManager.constructor | src/unqork_audit_logs/auth.py:23-26 | no token, `expires_at` 0, and the buffer from the settings |
| Auth.TokenManager.IsTokenValid | src/unqork_audit_logs/auth.py:28-34 | never true without a token; otherwise `now < expires_at - buffer` |
| Auth.TokenManager.FetchToken | src/unqork_audit_logs/auth.py:54-87 | the new state and the raised error are those of the refresh step |
| Auth.TokenManager.GetToken | src/unqork_audit_logs/auth.py:36-52 | a valid token is returned without a request; otherwise the state is refreshed first and a successful refresh returns the new truthy token |
| Auth.TokenManager.Invalidate | src/unqork_audit_logs/auth.py:89-92 | the token is dropped, `expires_at` is 0, and no instant finds the token valid |
| Summary.Ip | src/unqork_audit_logs/summary.py:47-49 | an IP is collected iff `client_ip` is present and truthy |
| Summary.Timestamp | src/unqork_audit_logs/summary.py:51-53 | a timestamp is collected iff it is a non-empty string |
| Summary.TallySizes | src/unqork_audit_logs/summary.py:40-56 | each entry adds one to each of the five counters and at most one IP and one timestamp |
| Summary.CountersTotal | src/unqork_audit_logs/summary.py:40-45 | each of the five counters totals `len(entries)` |
| Summary.CountedStaysCounted | src/unqork_audit_logs/summary.py:40-53 | each entry's keys, with `"unknown"` for a missing one, are counted, and so are its IP and timestamp when collected |
| Summary.EveryEntryCounted | src/unqork_audit_logs/summary.py:40-53 | the same for every entry |
| Summary.OnlyTruthyCollected | src/unqork_audit_logs/summary.py:47-53 | only truthy IPs and non-empty timestamps are collected |
| Summary.FailuresMatchOutcomes | src/unqork_audit_logs/summary.py:55-56 | the failure-action total equals the `"failure"` outcome count, and failure actions are among the actions |
| Summary.Insert | src/unqork_audit_logs/summary.py:58 | inserting into a sorted list keeps it sorted and adds exactly the element |
| Summary.Sorted | src/unqork_audit_logs/summary.py:58 | `sort()` gives an ascending permutation |
| Summary.Extremes | src/unqork_audit_logs/summary.py:67 | the first and last of a sorted list bound every element |
| Summary.MostCommon | src/unqork_audit_logs/summary.py:88-140 | `most_common(n)`: the min(n, distinct) most counted keys with their counts, highest first, none left out counted more than one listed |
| Summary.FullListingAddsUp | src/unqork_audit_logs/summary.py:88 | `most_common()` without a limit lists counts adding up to the counter's total |
| Summary.CategoryBreakdownTotals | src/unqork_audit_logs/summary.py:88-90 | the category breakdown accounts for every entry exactly once |
| Summary.TopListsBounded | src/unqork_audit_logs/summary.py:101-140 | a top-n list holds at most n keys and at most the distinct keys |
| Summary.DateRange | src/unqork_audit_logs/summary.py:58-67 | the range is absent iff no timestamp was collected; otherwise it is the least and greatest collected timestamp |
| Summary.Figures | src/unqork_audit_logs/summary.py:66-140 | the report states the total, the date range, the distinct counts, success and failure, the category breakdown and the top lists of 20, 20, 10 and 20 |
| Summary.CountEntry | src/unqork_audit_logs/summary.py:40-56 | one loop body adds the entry to the counters |
| Summary.CountEntries | src/unqork_audit_logs/summary.py:40-56 | the loop yields the counters of all entries |
| Summary.Summarize | src/unqork_audit_logs/summary.py:13-143 | no report for an empty list; otherwise the figures of the counters over all entries |
| Text.Strip | src/unqork_audit_logs/parser.py:88 | `str.strip()` leaves no whitespace at either end |
| Text.SplitLines | src/unqork_audit_logs/parser.py:102 | `splitlines()` gives lines without line breaks, and none for empty text |
| Text.SplitJoinedLines | src/unqork_audit_logs/parser.py:102 | splitting non-empty single lines joined with `"\n"` gives them back |
| Text.SplitTerminatedLines | src/unqork_audit_logs/export.py:67 | a trailing `"\n"` adds no line |
| Text.Lower | src/unqork_audit_logs/fetcher.py:237 | `lower()` maps each character |
| Text.ParseIntOfString | src/unqork_audit_logs/fetcher.py:241 | `int(str(n)) == n` for a natural number |
| Text.ParsePlainDigits | src/unqork_audit_logs/fetcher.py:241 | `int()` of a digit string is its decimal value |
| Text.RStripChar | src/unqork_audit_logs/config.py:42 | `rstrip("/")` removes exactly the trailing slashes |
| Ordering.SortBy | src/unqork_audit_logs/cache.py:330-331 | sorting ids by a key: each id once, in key order |
| JsonValue.GetFinds | src/unqork_audit_logs/cache.py:99-104 | `dict.get` finds a key iff it is present, and returns its stored value |
| JsonValue.PyStr | src/unqork_audit_logs/cache.py:76 | `str()` of a string is itself, and only the empty string prints as empty |

## Left out

- HTTP, async and concurrency are not modelled. `client.py` (requests, the 401 retry, semaphore-bounded downloads) is not part of this model. The location and download replies are inputs of the fetch loop.
- The clock is an integer instant passed in, standing for `time.time()` and `datetime.now`. `parse_datetime_input` and `strftime` are parameters (an abstract parser and formatter). The date-only-becomes-midnight rule lives in that parser and is not stated.
- Floating point is not modelled. `expires_at`, `expires_in` and `time.time()` are integers. The summary's percentages and success rate, and all Rich table rendering and number formatting, are left out.
- Foreign libraries are oracle fields of `Foreign.Libs`: SHA-256, `json.loads`/`json.dumps`, gzip inflation past the header, ZIP reading, UTF-8 decoding and CSV quoting. Their outputs are constrained only by the stated round-trip and one-line assumptions. Non-JSON HTTP bodies appear as a decode error.
- SQLite is modelled as two maps. Left out: the connection lifecycle, pragmas, the schema DDL and indexes, transactions, the `fetched_at` clock value and the `db_size_bytes` file size.
- Cache.LogCache.CacheStats: does not return `earliest_entry`/`latest_entry`, since only the counts are modelled. Its category map merges an explicit JSON `"category": null` (stored as NULL, since the column's `DEFAULT ''` applies only when the column is omitted) with `""`, where `GROUP BY category` reports NULL under the key `None` separately (see Cache.BuildRow).
- Cache.Like: `LIKE` is a plain case-insensitive substring test. The `%`/`_` wildcards inside user text are not modelled. Case folding is ASCII-only (`Text.Lower`), as SQLite's `LIKE` folds.
- Cache.NewestFirstRows: the order among rows with equal timestamps is left open, as SQLite leaves it.
- Summary.MostCommon: the order among keys with equal counts is left open (Python keeps insertion order).
- Cache.BuildRow: a SQL NULL in a nullable column is stored as `""`. This is equivalent for every filter, ordering and CSV cell, but the summary, and the category map of `get_cache_stats` (src/unqork_audit_logs/cache.py:404-405), would count it under the key `None` rather than `""`. Integers bind as their decimal text; 64-bit overflow of a bound integer is not modelled.
- Cache.LogCache.StoreWindow: requires that every decodable `raw_json` decodes to a dict. Python would raise `AttributeError` on a non-dict; the parser only produces dicts (`Fetcher.ParsedAreDicts`).
- Summary.Summarize: requires each `timestamp` value to be absent or a string. Sorting mixed types raises `TypeError` in Python, which is not modelled.
- Auth.TokenManager.GetToken: one `now` stands for both clock readings (validity check and refresh).
- Config.VerifySsl: the contract states the default, and `Config.VerifySslSwitchedOff` covers the lower- and upper-case spellings of `false`, `0` and `no`. Mixed-case spellings are handled by the function but not stated.
- Text.Lower: ASCII case folding only; Python's full Unicode `lower()` is not modelled.
- Text.ParseIntOfString: the round trip is proved for non-negative numbers only. Signs, surrounding whitespace and underscores are accepted by `Text.ParseInt` but not stated in lemmas.
- JsonValue.Repr: Python's `repr` escaping of quotes and non-printable characters is simplified. It appears only in error messages.
- Config.JoinPath: `pathlib` normalisation (repeated or trailing separators in the directory) is not modelled. `.env` loading is not modelled; the environment is a map input.
- Writing the export to stdout or a file is left out; `Export.ExportEntries` returns the text.
- The `downloaded_files` running counter of the fetch loop is not modelled, because nothing reads it.
- Display, CLI and logging are not part of this model. That includes the `FetchProgress` `on_*` callbacks the fetch loop invokes (src/unqork_audit_logs/fetcher.py:114-181): the model makes no calls there, so a callback that raises and ends the run is not captured.
- Parser.ParseLogFile, Parser.ParseLogFiles, Parser.FailingFileIsSkipped, Fetcher.StepDownloaded, Fetcher.StoreDownloaded, Fetcher.FetchWindow, Fetcher.FetchAuditLogs and Fetcher.RunAccounts model the corrected `decompress` (see Findings). As written, a file on which `decompress` raises something other than a `ValueError` ends the whole run at src/unqork_audit_logs/fetcher.py:168, which has no `try`: earlier windows stay stored, the current window never enters the ledger and no progress is returned. That path is modelled only at the parser level (`Parser.LogFilesAsWritten`, `Parser.TruncatedGzipEscapes`, `Parser.ZipAbortEscapes`).
- Fetcher.ParseRelativeTime: succeeds for every count N. In Python, `timedelta` rejects more than 999999999 days and `now - timedelta(...)` raises `OverflowError` once the start leaves `datetime`'s years 1 to 9999 (for example `1000000d` or `-3000000d`). `OverflowError` is not a `ValueError`, so it also escapes `build_filters`. The model's instants are unbounded integers in an abstract unit, so that range is not modelled.
- Fetcher.ParseRelative: succeeds for every count N on normalised text; the `OverflowError` range of Fetcher.ParseRelativeTime is not modelled.
- Fetcher.RelativeTimeOfCount: states success for every n, including spans where Python raises `OverflowError` (see Fetcher.ParseRelativeTime).
- Fetcher.RelativeTimeOfDigits: states success for every digit string, including out-of-range spans (see Fetcher.ParseRelativeTime).
- Fetcher.DigitsAndLowerUnit: states success for every count on lowercase text, including out-of-range spans (see Fetcher.ParseRelativeTime).
- Fetcher.RelativeOfUnit: each unit branch is stated as success for every N, where `timedelta` arithmetic can overflow (see Fetcher.ParseRelativeTime).
- Filters.LastIsAFilter: a `last` whose span overflows raises `OverflowError` in Python, out of `build_filters`; the model parses it and produces filters (see Fetcher.ParseRelativeTime).
- Text.ParseInt: ASCII digits only. Python's `int()` also accepts other Unicode decimal digits (full-width `２４`, Arabic-Indic `٢٤`), so `parse_relative_time` accepts spans such as `２４h` that `Fetcher.ParseRelativeTime` rejects.
- Models.AuditLogEntry.TimestampText: only the `timestamp or date` choice of `parsed_timestamp` is modelled. The `replace("Z", "+00:00")` rewrite and `datetime.fromisoformat` (src/unqork_audit_logs/models.py:139-141) are not.

## Findings

| source | as written | input that shows it | evidently intended | confidence | as-written member | corrected member |
|---|---|---|---|---|---|---|
| src/unqork_audit_logs/parser.py:46-49 | `decompress` catches only `BadGzipFile` and `OSError` from `gzip.decompress`. A gzip magic followed by a truncated header raises `EOFError`, which escapes `decompress`. `parse_log_files` catches only `ValueError`, so the whole fetch aborts. | the two bytes `1f 8b` as a log file | a truncated gzip file is a failing file: skipped, with later files still parsed | not executed | Parser.TruncatedGzipEscapes | Parser.Decompress |
| src/unqork_audit_logs/parser.py:52-59 | The ZIP branch catches only `BadZipFile`. Reading an encrypted member raises `RuntimeError`, an unsupported compression method `NotImplementedError`, and corrupt member data `zlib.error` or `EOFError`. None is a `ValueError`, so each escapes `parse_log_files` and aborts the whole fetch. | a ZIP archive (first bytes `50 4b`) holding one encrypted member (no member is read before it, so no `UnicodeDecodeError` can come first) | an unreadable archive is a failing file: skipped, with later files still parsed | not executed | Parser.ZipAbortEscapes | Parser.Decompress |
