/** The local store: fetched records keyed by a content-hash id, and the
    ledger of fetched windows keyed by their `(start, end)` pair. The two
    SQLite tables are maps; a TEXT column that would hold SQL `NULL` holds
    the empty string. */
module Cache {
  import opened Wrappers
  import opened Text
  import opened JsonValue
  import opened Foreign
  import opened Models
  import opened Parser
  import opened Ordering

  /** `_entry_id`: the first 16 hex digits of the SHA-256 of the raw text.
      Equal texts give equal ids, since this is a function. */
  function EntryId(libs: Libs, raw: string): (id: string)
    ensures |id| == 16 && forall i :: 0 <= i < |id| ==> IsHexDigit(id[i])
  {
    libs.sha256Hex(raw)[..16]
  }

  // ---------------------------------------------------------------------
  // Schema-tolerant extraction

  /** `_safe_get(v, *keys, default=default)`: walk the keys through nested
      dicts; a step that meets a non-dict, a missing key or `None` gives the
      default, otherwise the result is `str` of the value reached. */
  function SafeGet(v: Json, keys: seq<string>, default: string): string
    decreases |keys|
  {
    if keys == [] then (if v == JNull then default else PyStr(v))
    else if !v.JObj? then default
    else match Get(v.fields, keys[0])
      case None => default
      case Some(JNull) => default
      case Some(x) => SafeGet(x, keys[1..], default)
  }

  /** `v` leads to `x` along `keys`: every step is a dict holding the next
      key with a value other than `null`. */
  ghost predicate Reaches(v: Json, keys: seq<string>, x: Json)
    decreases |keys|
  {
    if keys == [] then x == v
    else
      && v.JObj?
      && Get(v.fields, keys[0]).Some?
      && Get(v.fields, keys[0]).value != JNull
      && Reaches(Get(v.fields, keys[0]).value, keys[1..], x)
  }

  /** A path that reaches a value yields `str` of that value. */
  lemma {:induction false} SafeGetFollowsPath(v: Json, keys: seq<string>, x: Json, default: string)
    requires keys != [] && Reaches(v, keys, x)
    ensures x != JNull && SafeGet(v, keys, default) == PyStr(x)
    decreases |keys|
  {
    if |keys| > 1 {
      SafeGetFollowsPath(Get(v.fields, keys[0]).value, keys[1..], x, default);
    }
  }

  /** A path that reaches nothing yields the default. */
  lemma {:induction false} SafeGetBroken(v: Json, keys: seq<string>, default: string)
    requires keys != [] && forall x :: !Reaches(v, keys, x)
    ensures SafeGet(v, keys, default) == default
    decreases |keys|
  {
    if v.JObj? && Get(v.fields, keys[0]).Some? && Get(v.fields, keys[0]).value != JNull && |keys| > 1 {
      var next := Get(v.fields, keys[0]).value;
      forall x
        ensures !Reaches(next, keys[1..], x)
      {
        assert !Reaches(v, keys, x);
      }
      SafeGetBroken(next, keys[1..], default);
    } else if v.JObj? && Get(v.fields, keys[0]).Some? && Get(v.fields, keys[0]).value != JNull {
      assert Reaches(v, keys, Get(v.fields, keys[0]).value);
    }
  }

  /** The columns `_extract_fields` fills. The six top-level ones keep the
      decoded value, which the database binds later; the nested ones are
      already text. */
  datatype Extracted = Extracted(
    date: Json,
    timestamp: Json,
    eventType: Json,
    category: Json,
    action: Json,
    source: Json,
    outcomeType: string,
    actorType: string,
    actorId: string,
    environment: string,
    clientIp: string,
    host: string,
    sessionId: string,
    objectType: string)

  /** `raw.get("object", {}) or {}`: a missing or falsy `object` is `{}`. */
  function ObjectOrEmpty(d: Dict): Json {
    match Get(d, "object")
    case Some(o) => if Truthy(o) then o else JObj([])
    case None => JObj([])
  }

  /** `a or b` on two strings. */
  function OrElse(a: string, b: string): string {
    if a != [] then a else b
  }

  function ExtractFields(d: Dict): Extracted {
    var obj := ObjectOrEmpty(d);
    Extracted(
      Get(d, "date").GetOr(JStr("")),
      Get(d, "timestamp").GetOr(JStr("")),
      Get(d, "eventType").GetOr(Get(d, "event_type").GetOr(JStr(""))),
      Get(d, "category").GetOr(JStr("")),
      Get(d, "action").GetOr(JStr("")),
      Get(d, "source").GetOr(JStr("")),
      SafeGet(obj, ["outcome", "type"], ""),
      SafeGet(obj, ["actor", "type"], ""),
      SafeGet(obj, ["actor", "identifier", "value"], ""),
      SafeGet(obj, ["context", "environment"], ""),
      OrElse(SafeGet(obj, ["context", "clientIp"], ""), SafeGet(obj, ["context", "client_ip"], "")),
      SafeGet(obj, ["context", "host"], ""),
      OrElse(SafeGet(obj, ["context", "sessionId"], ""), SafeGet(obj, ["context", "session_id"], "")),
      SafeGet(obj, ["type"], ""))
  }

  /** The fallbacks of `_extract_fields`: without a usable `object` every
      nested column is empty; `eventType` wins over `event_type`; the
      snake_case context keys are read only when the camelCase value is
      empty. */
  lemma ExtractFallbacks(d: Dict)
    ensures !(Get(d, "object").Some? && Truthy(Get(d, "object").value)) ==>
      var f := ExtractFields(d);
      && f.outcomeType == "" && f.actorType == "" && f.actorId == "" && f.environment == ""
      && f.clientIp == "" && f.host == "" && f.sessionId == "" && f.objectType == ""
    ensures Get(d, "eventType").Some? ==> ExtractFields(d).eventType == Get(d, "eventType").value
    ensures Get(d, "eventType").None? ==> ExtractFields(d).eventType == Get(d, "event_type").GetOr(JStr(""))
    ensures
      var obj := ObjectOrEmpty(d);
      var camel := SafeGet(obj, ["context", "clientIp"], "");
      ExtractFields(d).clientIp == if camel != "" then camel else SafeGet(obj, ["context", "client_ip"], "")
    ensures
      var obj := ObjectOrEmpty(d);
      var camel := SafeGet(obj, ["context", "sessionId"], "");
      ExtractFields(d).sessionId == if camel != "" then camel else SafeGet(obj, ["context", "session_id"], "")
  {
  }

  /** For a document that validates as an `AuditLogEntry`, the extracted
      columns are the record's own fields: the top-level strings, the actor,
      outcome, context and object projections, and a non-empty client IP or
      session id. */
  lemma {:induction false} ExtractAgreesWithValidation(d: Dict, e: AuditLogEntry)
    requires ValidateEntryFields(d) == Some(e)
    ensures
      var f := ExtractFields(d);
      && f.date == JStr(e.date) && f.timestamp == JStr(e.timestamp) && f.eventType == JStr(e.eventType)
      && f.category == JStr(e.category) && f.action == JStr(e.action) && f.source == JStr(e.source)
      && f.actorId == e.ActorId() && f.actorType == e.obj.actor.kind
      && f.outcomeType == e.OutcomeType() && f.objectType == e.obj.kind
      && f.environment == e.Environment() && f.host == e.Host()
      && (e.ClientIp().Some? && e.ClientIp().value != "" ==> f.clientIp == e.ClientIp().value)
      && (e.SessionId().Some? && e.SessionId().value != "" ==> f.sessionId == e.SessionId().value)
  {
    var o := ObjectIsDict(d, e);
    TopLevelAgrees(d, e);
    ActorAgrees(o, e.obj);
    OutcomeAgrees(o, e.obj);
    ContextTextsAgree(o, e.obj);
    if e.obj.context.clientIp.Some? && e.obj.context.clientIp.value != "" {
      ClientIpAgrees(o, e.obj);
    }
    if e.obj.context.sessionId.Some? && e.obj.context.sessionId.value != "" {
      SessionIdAgrees(o, e.obj);
    }
  }

  lemma TopLevelAgrees(d: Dict, e: AuditLogEntry)
    requires ValidateEntryFields(d) == Some(e)
    ensures
      && Get(d, "date").GetOr(JStr("")) == JStr(e.date)
      && Get(d, "timestamp").GetOr(JStr("")) == JStr(e.timestamp)
      && Get(d, "eventType").GetOr(Get(d, "event_type").GetOr(JStr(""))) == JStr(e.eventType)
      && Get(d, "category").GetOr(JStr("")) == JStr(e.category)
      && Get(d, "action").GetOr(JStr("")) == JStr(e.action)
      && Get(d, "source").GetOr(JStr("")) == JStr(e.source)
  {
  }

  lemma ActorAgrees(o: Dict, od: ObjectDetail)
    requires ValidateObject(o) == Some(od)
    ensures
      var obj := JObj(o);
      && SafeGet(obj, ["actor", "identifier", "value"], "") == od.actor.identifier.value
      && SafeGet(obj, ["actor", "type"], "") == od.actor.kind
  {
    var a := NestedIsDict(o, "actor", ["type"], DefaultActor, ValidateActor, od.actor);
    var a2 := NestedIsDict(o, "actor", ["identifier", "value"], DefaultActor, ValidateActor, od.actor);
    assert a2 == a;
    var ident := NestedIsDict(a, "identifier", ["value"], DefaultIdentifier, ValidateIdentifier, od.actor.identifier);
    StrLeaf(a, "type", od.actor.kind);
    StrLeaf(ident, "value", od.actor.identifier.value);
  }

  lemma OutcomeAgrees(o: Dict, od: ObjectDetail)
    requires ValidateObject(o) == Some(od)
    ensures
      var obj := JObj(o);
      && SafeGet(obj, ["outcome", "type"], "") == od.outcome.kind
      && SafeGet(obj, ["type"], "") == od.kind
  {
    var out := NestedIsDict(o, "outcome", ["type"], DefaultOutcome, ValidateOutcome, od.outcome);
    StrLeaf(out, "type", od.outcome.kind);
    StrLeaf(o, "type", od.kind);
  }

  lemma ContextTextsAgree(o: Dict, od: ObjectDetail)
    requires ValidateObject(o) == Some(od)
    ensures
      var obj := JObj(o);
      && SafeGet(obj, ["context", "environment"], "") == od.context.environment
      && SafeGet(obj, ["context", "host"], "") == od.context.host
  {
    var c := NestedIsDict(o, "context", ["environment"], DefaultContext, ValidateContext, od.context);
    var c1 := NestedIsDict(o, "context", ["host"], DefaultContext, ValidateContext, od.context);
    assert c1 == c;
    StrLeaf(c, "environment", od.context.environment);
    StrLeaf(c, "host", od.context.host);
  }

  lemma ClientIpAgrees(o: Dict, od: ObjectDetail)
    requires ValidateObject(o) == Some(od)
    requires od.context.clientIp.Some? && od.context.clientIp.value != ""
    ensures
      var obj := JObj(o);
      OrElse(SafeGet(obj, ["context", "clientIp"], ""), SafeGet(obj, ["context", "client_ip"], "")) == od.context.clientIp.value
  {
    var c := NestedIsDict(o, "context", ["clientIp"], DefaultContext, ValidateContext, od.context);
    var c1 := NestedIsDict(o, "context", ["client_ip"], DefaultContext, ValidateContext, od.context);
    assert c1 == c;
    OptStrLeaf(c, "clientIp", "client_ip", od.context.clientIp.value);
  }

  lemma SessionIdAgrees(o: Dict, od: ObjectDetail)
    requires ValidateObject(o) == Some(od)
    requires od.context.sessionId.Some? && od.context.sessionId.value != ""
    ensures
      var obj := JObj(o);
      OrElse(SafeGet(obj, ["context", "sessionId"], ""), SafeGet(obj, ["context", "session_id"], "")) == od.context.sessionId.value
  {
    var c := NestedIsDict(o, "context", ["sessionId"], DefaultContext, ValidateContext, od.context);
    var c1 := NestedIsDict(o, "context", ["session_id"], DefaultContext, ValidateContext, od.context);
    assert c1 == c;
    OptStrLeaf(c, "sessionId", "session_id", od.context.sessionId.value);
  }
  /** `raw.get("object", {}) or {}` is the dict the record's `object` was
      validated from (the empty dict when it is absent). */
  lemma ObjectIsDict(d: Dict, e: AuditLogEntry) returns (o: Dict)
    requires ValidateEntryFields(d) == Some(e)
    ensures ObjectOrEmpty(d) == JObj(o) && ValidateObject(o) == Some(e.obj)
  {
    assert ValidateObject([]) == Some(DefaultObject);
    match Get(d, "object")
    case None => o := [];
    case Some(v) => o := v.fields;
  }

  /** A nested-model field that validated came from a dict (or was absent,
      which reads as the empty dict), and walking into it is walking into
      that dict. */
  lemma NestedIsDict<T>(d: Dict, key: string, rest: seq<string>, default: T, validate: Dict -> Option<T>, x: T)
    returns (sub: Dict)
    requires rest != [] && validate([]) == Some(default)
    requires Nested(Field(d, key, key), default, validate) == Some(x)
    ensures validate(sub) == Some(x)
    ensures Get(d, key).None? ==> sub == []
    ensures Get(d, key).Some? ==> Get(d, key) == Some(JObj(sub))
    ensures SafeGet(JObj(d), [key] + rest, "") == SafeGet(JObj(sub), rest, "")
  {
    assert ([key] + rest)[1..] == rest;
    match Get(d, key)
    case None => sub := [];
    case Some(v) => sub := v.fields;
  }

  /** A `str` field that validated is what walking one key yields. */
  lemma StrLeaf(d: Dict, key: string, s: string)
    requires StrField(Field(d, key, key)) == Some(s)
    ensures SafeGet(JObj(d), [key], "") == s
  {
    assert [key][1..] == [];
  }

  /** A non-empty `str | None` field read through its alias, or through its
      name when the alias is absent, is what the camelCase-then-snake_case
      walk yields. */
  lemma OptStrLeaf(d: Dict, alias: string, name: string, s: string)
    requires OptStrField(Field(d, alias, name)) == Some(Some(s)) && s != ""
    ensures OrElse(SafeGet(JObj(d), [alias], ""), SafeGet(JObj(d), [name], "")) == s
  {
    assert [alias][1..] == [] && [name][1..] == [];
  }

  // ---------------------------------------------------------------------
  // Rows and binding

  /** One `log_entries` row. */
  datatype Row = Row(
    id: string,
    rawJson: string,
    date: string,
    timestamp: string,
    eventType: string,
    category: string,
    action: string,
    source: string,
    outcomeType: string,
    actorType: string,
    actorId: string,
    environment: string,
    clientIp: string,
    host: string,
    sessionId: string,
    objectType: string,
    windowStart: string)

  /** What a decoded value becomes as a parameter of a TEXT column: `None` is
      `NULL`; a bool or an int is stored as its decimal text; a list or dict
      cannot be bound at all. */
  datatype Cell = SqlNull | SqlText(s: string) | Unbindable

  function Bind(v: Json): (c: Cell)
    ensures c.Unbindable? <==> (v.JArr? || v.JObj?)
    ensures c.SqlNull? <==> v == JNull
    ensures v.JStr? ==> c == SqlText(v.s)
  {
    match v
    case JNull => SqlNull
    case JBool(b) => SqlText(if b then "1" else "0")
    case JNum(n) => SqlText(IntToString(n))
    case JStr(s) => SqlText(s)
    case _ => Unbindable
  }

  function CellText(c: Cell): string {
    if c.SqlText? then c.s else ""
  }

  /** The row `INSERT OR IGNORE` would add for a decoded dict, or `None`
      when nothing is written: a list or dict among the six top-level values
      is a binding error (an `sqlite3.Error`, caught and logged), and a
      `NULL` date or timestamp violates `NOT NULL`, which `OR IGNORE`
      skips. */
  function BuildRow(libs: Libs, raw: string, d: Dict, windowStart: string): Option<Row> {
    var f := ExtractFields(d);
    var cells := [Bind(f.date), Bind(f.timestamp), Bind(f.eventType), Bind(f.category), Bind(f.action), Bind(f.source)];
    if Unbindable in cells || cells[0].SqlNull? || cells[1].SqlNull? then None
    else Some(Row(
      EntryId(libs, raw), raw,
      CellText(cells[0]), CellText(cells[1]), CellText(cells[2]),
      CellText(cells[3]), CellText(cells[4]), CellText(cells[5]),
      f.outcomeType, f.actorType, f.actorId, f.environment, f.clientIp, f.host, f.sessionId, f.objectType,
      windowStart))
  }

  predicate Scalar(v: Json) {
    !v.JArr? && !v.JObj?
  }

  /** A decoded dict yields a row exactly when its six top-level values are
      scalars and its date and timestamp are not `null`; the row carries the
      raw text, its id and the window being stored. */
  lemma BuildRowWrites(libs: Libs, raw: string, d: Dict, windowStart: string)
    ensures
      var f := ExtractFields(d);
      BuildRow(libs, raw, d, windowStart).Some? <==>
        && Scalar(f.date) && Scalar(f.timestamp) && Scalar(f.eventType)
        && Scalar(f.category) && Scalar(f.action) && Scalar(f.source)
        && f.date != JNull && f.timestamp != JNull
    ensures
      var r := BuildRow(libs, raw, d, windowStart);
      r.Some? ==> r.value.id == EntryId(libs, raw) && r.value.rawJson == raw && r.value.windowStart == windowStart
  {
    var f := ExtractFields(d);
    var cells := [Bind(f.date), Bind(f.timestamp), Bind(f.eventType), Bind(f.category), Bind(f.action), Bind(f.source)];
    assert Unbindable in cells <==> exists i :: 0 <= i < 6 && cells[i] == Unbindable;
  }

  /** The row one stored entry would add: `None` when its text does not decode
      (skipped with a warning) or the insert writes nothing. */
  function Candidate(libs: Libs, windowStart: string, raw: string): (r: Option<Row>)
    ensures libs.loads(raw).None? ==> r.None?
    ensures r.Some? ==> r.value.id == EntryId(libs, raw) && r.value.rawJson == raw && r.value.windowStart == windowStart
  {
    match libs.loads(raw)
    case None => None
    case Some(v) =>
      if v.JObj? then
        BuildRowWrites(libs, raw, v.fields, windowStart);
        BuildRow(libs, raw, v.fields, windowStart)
      else None
  }

  /** `INSERT OR IGNORE`: an id already present keeps its row. */
  function InsertOne(libs: Libs, table: map<string, Row>, windowStart: string, raw: string): map<string, Row> {
    match Candidate(libs, windowStart, raw)
    case None => table
    case Some(row) => if row.id in table then table else table[row.id := row]
  }

  /** One pass of the insert loop: an undecodable text is skipped; otherwise
      the row is added when the insert writes one and its id is new. */
  lemma InsertStep(libs: Libs, table: map<string, Row>, windowStart: string, raw: string)
    requires libs.loads(raw).Some? ==> libs.loads(raw).value.JObj?
    ensures libs.loads(raw).None? ==> InsertOne(libs, table, windowStart, raw) == table
    ensures libs.loads(raw).Some? ==>
      var row := BuildRow(libs, raw, libs.loads(raw).value.fields, windowStart);
      var id := EntryId(libs, raw);
      InsertOne(libs, table, windowStart, raw) == if row.Some? && id !in table then table[id := row.value] else table
  {
    if libs.loads(raw).Some? {
      BuildRowWrites(libs, raw, libs.loads(raw).value.fields, windowStart);
    }
  }

  /** The table after the insert loop of `store_window` over `raws`. */
  function StoreAll(libs: Libs, table: map<string, Row>, windowStart: string, raws: seq<string>): map<string, Row>
    decreases |raws|
  {
    if raws == [] then table
    else InsertOne(libs, StoreAll(libs, table, windowStart, raws[..|raws| - 1]), windowStart, raws[|raws| - 1])
  }

  /** The insert loop one entry further on. */
  lemma StoreAllStep(libs: Libs, table: map<string, Row>, windowStart: string, raws: seq<string>, k: nat)
    requires k < |raws|
    ensures StoreAll(libs, table, windowStart, raws[..k + 1])
      == InsertOne(libs, StoreAll(libs, table, windowStart, raws[..k]), windowStart, raws[k])
  {
    assert raws[..k + 1][..k] == raws[..k];
  }

  /** Storing keeps every row under its own id. */
  lemma StoreKeepsKeys(libs: Libs, table: map<string, Row>, windowStart: string, raws: seq<string>)
    requires KeyedById(table)
    ensures KeyedById(StoreAll(libs, table, windowStart, raws))
  {
    StoreKeepsExisting(libs, table, windowStart, raws);
  }

  function Raws(batch: seq<ParsedEntry>): (raws: seq<string>)
    ensures |raws| == |batch| && forall i :: 0 <= i < |batch| ==> raws[i] == batch[i].rawJson
  {
    if batch == [] then [] else [batch[0].rawJson] + Raws(batch[1..])
  }

  /** Every row is stored under its own id. */
  ghost predicate KeyedById(table: map<string, Row>) {
    forall id :: id in table ==> table[id].id == id
  }

  /** Storing keeps every existing row as it was, including the window it was
      first stored with, adds only rows of this window built from the batch,
      and adds at most one row per entry. */
  lemma {:induction false} StoreKeepsExisting(libs: Libs, table: map<string, Row>, windowStart: string, raws: seq<string>)
    ensures
      var after := StoreAll(libs, table, windowStart, raws);
      && (forall id :: id in table ==> id in after && after[id] == table[id])
      && (forall id :: id in after && id !in table ==> after[id].windowStart == windowStart && after[id].rawJson in raws)
      && |after| <= |table| + |raws|
      && (KeyedById(table) ==> KeyedById(after))
    decreases |raws|
  {
    if raws != [] {
      var init := raws[..|raws| - 1];
      StoreKeepsExisting(libs, table, windowStart, init);
      var mid := StoreAll(libs, table, windowStart, init);
      var after := StoreAll(libs, table, windowStart, raws);
      assert after == InsertOne(libs, mid, windowStart, raws[|raws| - 1]);
      forall id | id in after && id !in table
        ensures after[id].windowStart == windowStart && after[id].rawJson in raws
      {
        if id in mid {
          assert after[id] == mid[id];
          assert mid[id].rawJson in init;
        } else {
          assert after[id].rawJson == raws[|raws| - 1];
        }
      }
    }
  }

  /** An entry is settled in `table` when inserting it again writes
      nothing. */
  predicate Settled(libs: Libs, table: map<string, Row>, windowStart: string, raw: string) {
    Candidate(libs, windowStart, raw).None? || Candidate(libs, windowStart, raw).value.id in table
  }

  lemma {:induction false} StoreSettles(libs: Libs, table: map<string, Row>, windowStart: string, raws: seq<string>)
    ensures forall raw :: raw in raws ==> Settled(libs, StoreAll(libs, table, windowStart, raws), windowStart, raw)
    decreases |raws|
  {
    if raws != [] {
      var init := raws[..|raws| - 1];
      StoreSettles(libs, table, windowStart, init);
      StoreKeepsExisting(libs, StoreAll(libs, table, windowStart, init), windowStart, [raws[|raws| - 1]]);
      assert StoreAll(libs, table, windowStart, raws)
        == StoreAll(libs, StoreAll(libs, table, windowStart, init), windowStart, [raws[|raws| - 1]]) by {
        assert [raws[|raws| - 1]][..0] == [];
      }
      forall raw | raw in raws
        ensures Settled(libs, StoreAll(libs, table, windowStart, raws), windowStart, raw)
      {
        if raw != raws[|raws| - 1] {
          assert raw in init;
        }
      }
    }
  }

  lemma {:induction false} StoreSettledIsNoop(libs: Libs, table: map<string, Row>, windowStart: string, raws: seq<string>)
    requires forall raw :: raw in raws ==> Settled(libs, table, windowStart, raw)
    ensures StoreAll(libs, table, windowStart, raws) == table
    decreases |raws|
  {
    if raws != [] {
      StoreSettledIsNoop(libs, table, windowStart, raws[..|raws| - 1]);
      assert raws[|raws| - 1] in raws;
    }
  }

  /** Storing the same entries again changes nothing, so it inserts none. */
  lemma StoreIdempotent(libs: Libs, table: map<string, Row>, windowStart: string, raws: seq<string>)
    ensures
      var once := StoreAll(libs, table, windowStart, raws);
      StoreAll(libs, once, windowStart, raws) == once
  {
    StoreSettles(libs, table, windowStart, raws);
    StoreSettledIsNoop(libs, StoreAll(libs, table, windowStart, raws), windowStart, raws);
  }

  /** Re-storing under another window leaves every row's window as first
      written. */
  lemma FirstWriteWins(libs: Libs, table: map<string, Row>, first: string, second: string, raws: seq<string>)
    ensures
      var once := StoreAll(libs, table, first, raws);
      var twice := StoreAll(libs, once, second, raws);
      forall id :: id in once ==> id in twice && twice[id].windowStart == once[id].windowStart
  {
    StoreKeepsExisting(libs, StoreAll(libs, table, first, raws), second, raws);
  }

  // ---------------------------------------------------------------------
  // Queries

  /** The columns a `LIKE` condition can test. */
  datatype Column = RawJsonCol | CategoryCol | ActionCol | ActorIdCol | OutcomeTypeCol | SourceCol | ClientIpCol | EnvironmentCol

  function ColumnOf(row: Row, c: Column): string {
    match c
    case RawJsonCol => row.rawJson
    case CategoryCol => row.category
    case ActionCol => row.action
    case ActorIdCol => row.actorId
    case OutcomeTypeCol => row.outcomeType
    case SourceCol => row.source
    case ClientIpCol => row.clientIp
    case EnvironmentCol => row.environment
  }

  /** `column LIKE '%term%'`, read as a case-insensitive substring test. */
  predicate Like(column: string, term: string) {
    Contains(Lower(column), Lower(term))
  }

  /** One entry of the `conditions` list the query methods build. */
  datatype Condition =
    | AtOrAfter(bound: string)                        // timestamp >= ?
    | AtOrBefore(bound: string)                       // timestamp <= ?
    | ColumnLike(column: Column, term: string)        // column LIKE ?
    | AnyLike(columns: seq<Column>, term: string)     // (c1 LIKE ? OR c2 LIKE ? ...)

  predicate Holds(row: Row, c: Condition) {
    match c
    case AtOrAfter(b) => Le(b, row.timestamp)
    case AtOrBefore(b) => Le(row.timestamp, b)
    case ColumnLike(col, t) => Like(ColumnOf(row, col), t)
    case AnyLike(cols, t) => AnyColumnLike(row, cols, t)
  }

  /** `c1 LIKE ? OR c2 LIKE ? ...` */
  predicate AnyColumnLike(row: Row, cols: seq<Column>, term: string) {
    cols != [] && (Like(ColumnOf(row, cols[0]), term) || AnyColumnLike(row, cols[1..], term))
  }

  /** The `WHERE` clause: the conditions joined with `AND` (none: every
      row). */
  predicate Satisfies(row: Row, cs: seq<Condition>) {
    forall i :: 0 <= i < |cs| ==> Holds(row, cs[i])
  }

  /** A filter argument takes part when it is truthy: given and non-empty. */
  predicate Active(f: Option<string>) {
    f.Some? && f.value != ""
  }

  /** The arguments of `query_entries`. */
  datatype Query = Query(
    start: Option<string>,
    end: Option<string>,
    category: Option<string>,
    action: Option<string>,
    actor: Option<string>,
    outcome: Option<string>,
    source: Option<string>,
    ip: Option<string>,
    search: Option<string>,
    limit: int,
    offset: int)

  /** The arguments of `count_entries`. */
  datatype CountQuery = CountQuery(
    start: Option<string>,
    end: Option<string>,
    category: Option<string>,
    action: Option<string>,
    actor: Option<string>,
    outcome: Option<string>)

  /** The search term's columns: raw text, action, category, actor id and
      environment. */
  const SearchColumns: seq<Column> := [RawJsonCol, ActionCol, CategoryCol, ActorIdCol, EnvironmentCol]

  predicate MatchesCount(row: Row, c: CountQuery) {
    && (Active(c.start) ==> Le(c.start.value, row.timestamp))
    && (Active(c.end) ==> Le(row.timestamp, c.end.value))
    && (Active(c.category) ==> Like(row.category, c.category.value))
    && (Active(c.action) ==> Like(row.action, c.action.value))
    && (Active(c.actor) ==> Like(row.actorId, c.actor.value))
    && (Active(c.outcome) ==> Like(row.outcomeType, c.outcome.value))
  }

  /** Every active filter of the query holds for the row: the time bounds
      inclusive, the text filters as substrings, the search term in any of
      its five columns. */
  predicate Matches(row: Row, q: Query) {
    && MatchesCount(row, CountQuery(q.start, q.end, q.category, q.action, q.actor, q.outcome))
    && (Active(q.source) ==> Like(row.source, q.source.value))
    && (Active(q.ip) ==> Like(row.clientIp, q.ip.value))
    && (Active(q.search) ==>
          || Like(row.rawJson, q.search.value) || Like(row.action, q.search.value)
          || Like(row.category, q.search.value) || Like(row.actorId, q.search.value)
          || Like(row.environment, q.search.value))
  }

  /** The six filters shared by `query_entries` and `count_entries`, appended
      in the order the source appends them. */
  method CountConditions(c: CountQuery) returns (cs: seq<Condition>)
    ensures forall row :: Satisfies(row, cs) <==> MatchesCount(row, c)
  {
    cs := [];
    if Active(c.start) { cs := cs + [AtOrAfter(c.start.value)]; }
    ghost var done := When(Active(c.start), AtOrAfter(c.start.GetOr("")));
    assert cs == done;
    if Active(c.end) { cs := cs + [AtOrBefore(c.end.value)]; }
    done := done + When(Active(c.end), AtOrBefore(c.end.GetOr("")));
    assert cs == done;
    if Active(c.category) { cs := cs + [ColumnLike(CategoryCol, c.category.value)]; }
    done := done + When(Active(c.category), ColumnLike(CategoryCol, c.category.GetOr("")));
    assert cs == done;
    if Active(c.action) { cs := cs + [ColumnLike(ActionCol, c.action.value)]; }
    done := done + When(Active(c.action), ColumnLike(ActionCol, c.action.GetOr("")));
    assert cs == done;
    if Active(c.actor) { cs := cs + [ColumnLike(ActorIdCol, c.actor.value)]; }
    done := done + When(Active(c.actor), ColumnLike(ActorIdCol, c.actor.GetOr("")));
    assert cs == done;
    if Active(c.outcome) { cs := cs + [ColumnLike(OutcomeTypeCol, c.outcome.value)]; }
    done := done + When(Active(c.outcome), ColumnLike(OutcomeTypeCol, c.outcome.GetOr("")));
    assert cs == done == CountConditionList(c);
    CountConditionsMeaning(c);
  }

  /** A clause appended only when its filter is active. */
  function When(active: bool, x: Condition): seq<Condition> {
    if active then [x] else []
  }

  /** The list `CountConditions` builds. */
  function CountConditionList(c: CountQuery): seq<Condition> {
    When(Active(c.start), AtOrAfter(c.start.GetOr("")))
    + When(Active(c.end), AtOrBefore(c.end.GetOr("")))
    + When(Active(c.category), ColumnLike(CategoryCol, c.category.GetOr("")))
    + When(Active(c.action), ColumnLike(ActionCol, c.action.GetOr("")))
    + When(Active(c.actor), ColumnLike(ActorIdCol, c.actor.GetOr("")))
    + When(Active(c.outcome), ColumnLike(OutcomeTypeCol, c.outcome.GetOr("")))
  }

  lemma SatisfiesConcat(row: Row, a: seq<Condition>, b: seq<Condition>)
    ensures Satisfies(row, a + b) <==> Satisfies(row, a) && Satisfies(row, b)
  {
    if Satisfies(row, a) && Satisfies(row, b) {
      forall i | 0 <= i < |a + b| ensures Holds(row, (a + b)[i]) {
        if i >= |a| { assert (a + b)[i] == b[i - |a|]; }
      }
    }
    if Satisfies(row, a + b) {
      forall i | 0 <= i < |a| ensures Holds(row, a[i]) {
        assert (a + b)[i] == a[i];
      }
      forall i | 0 <= i < |b| ensures Holds(row, b[i]) {
        assert (a + b)[|a| + i] == b[i];
      }
    }
  }

  lemma SatisfiesWhen(row: Row, active: bool, x: Condition)
    ensures Satisfies(row, When(active, x)) <==> (active ==> Holds(row, x))
  {
    if active {
      assert When(active, x)[0] == x;
    }
  }

  /** The shared clauses hold exactly for the rows the six filters
      accept. */
  lemma CountConditionsMeaning(c: CountQuery)
    ensures forall row :: Satisfies(row, CountConditionList(c)) <==> MatchesCount(row, c)
  {
    forall row
      ensures Satisfies(row, CountConditionList(c)) <==> MatchesCount(row, c)
    {
      CountConditionsRow(row, c);
    }
  }

  lemma CountConditionsRow(row: Row, c: CountQuery)
    ensures Satisfies(row, CountConditionList(c)) <==> MatchesCount(row, c)
  {
    var w1 := When(Active(c.start), AtOrAfter(c.start.GetOr("")));
    var w2 := When(Active(c.end), AtOrBefore(c.end.GetOr("")));
    var w3 := When(Active(c.category), ColumnLike(CategoryCol, c.category.GetOr("")));
    var w4 := When(Active(c.action), ColumnLike(ActionCol, c.action.GetOr("")));
    var w5 := When(Active(c.actor), ColumnLike(ActorIdCol, c.actor.GetOr("")));
    var w6 := When(Active(c.outcome), ColumnLike(OutcomeTypeCol, c.outcome.GetOr("")));
    SatisfiesSix(row, w1, w2, w3, w4, w5, w6);
    SatisfiesWhen(row, Active(c.start), AtOrAfter(c.start.GetOr("")));
    SatisfiesWhen(row, Active(c.end), AtOrBefore(c.end.GetOr("")));
    SatisfiesWhen(row, Active(c.category), ColumnLike(CategoryCol, c.category.GetOr("")));
    SatisfiesWhen(row, Active(c.action), ColumnLike(ActionCol, c.action.GetOr("")));
    SatisfiesWhen(row, Active(c.actor), ColumnLike(ActorIdCol, c.actor.GetOr("")));
    SatisfiesWhen(row, Active(c.outcome), ColumnLike(OutcomeTypeCol, c.outcome.GetOr("")));
  }

  lemma SatisfiesSix(row: Row, w1: seq<Condition>, w2: seq<Condition>, w3: seq<Condition>,
                     w4: seq<Condition>, w5: seq<Condition>, w6: seq<Condition>)
    ensures Satisfies(row, w1 + w2 + w3 + w4 + w5 + w6) <==>
      Satisfies(row, w1) && Satisfies(row, w2) && Satisfies(row, w3)
      && Satisfies(row, w4) && Satisfies(row, w5) && Satisfies(row, w6)
  {
    SatisfiesConcat(row, w1 + w2 + w3 + w4 + w5, w6);
    SatisfiesConcat(row, w1 + w2 + w3 + w4, w5);
    SatisfiesConcat(row, w1 + w2 + w3, w4);
    SatisfiesConcat(row, w1 + w2, w3);
    SatisfiesConcat(row, w1, w2);
  }

  /** The nine filters of `query_entries`: the six shared with
      `count_entries`, then source, client IP and the search term. */
  method QueryConditions(q: Query) returns (cs: seq<Condition>)
    ensures forall row :: Satisfies(row, cs) <==> Matches(row, q)
  {
    cs := CountConditions(CountQuery(q.start, q.end, q.category, q.action, q.actor, q.outcome));
    if Active(q.source) { cs := Append(cs, ColumnLike(SourceCol, q.source.value)); }
    if Active(q.ip) { cs := Append(cs, ColumnLike(ClientIpCol, q.ip.value)); }
    if Active(q.search) {
      cs := Append(cs, AnyLike(SearchColumns, q.search.value));
      forall row
        ensures Holds(row, AnyLike(SearchColumns, q.search.value)) <==>
          || Like(row.rawJson, q.search.value) || Like(row.action, q.search.value)
          || Like(row.category, q.search.value) || Like(row.actorId, q.search.value)
          || Like(row.environment, q.search.value)
      {
        SearchMeaning(row, q);
      }
    }
  }

  /** `conditions.append(...)`: the new clause joins the others with `AND`. */
  function Append(cs: seq<Condition>, x: Condition): (r: seq<Condition>)
    ensures forall row :: Satisfies(row, r) <==> Satisfies(row, cs) && Holds(row, x)
  {
    assert forall i :: 0 <= i < |cs| ==> (cs + [x])[i] == cs[i];
    assert (cs + [x])[|cs|] == x;
    cs + [x]
  }

  /** `LIMIT ? OFFSET ?`: a negative offset skips nothing and a negative
      limit keeps everything. */
  function Page<T>(rows: seq<T>, limit: int, offset: int): (r: seq<T>)
    ensures |r| <= |rows|
    ensures limit >= 0 ==> |r| <= limit
    ensures
      var skip := if offset < 0 then 0 else offset;
      var avail := if skip > |rows| then 0 else |rows| - skip;
      && |r| == (if limit < 0 || limit > avail then avail else limit)
      && forall i :: 0 <= i < |r| ==> r[i] == rows[skip + i]
  {
    var skip := if offset < 0 then 0 else if offset > |rows| then |rows| else offset;
    var rest := rows[skip..];
    if limit < 0 || limit >= |rest| then rest else rest[..limit]
  }

  ghost predicate NewestFirst(rows: seq<Row>) {
    forall i, j :: 0 <= i < j < |rows| ==> Le(rows[j].timestamp, rows[i].timestamp)
  }

  ghost function MatchingIds(table: map<string, Row>, q: Query): set<string> {
    set id | id in table && Matches(table[id], q)
  }

  ghost function CountedIds(table: map<string, Row>, c: CountQuery): set<string> {
    set id | id in table && MatchesCount(table[id], c)
  }

  /** The query `count_entries` runs is the unpaged query `query_entries`
      runs with the same six filters and none of the other three. */
  function AsQuery(c: CountQuery): (q: Query)
    ensures forall row :: Matches(row, q) <==> MatchesCount(row, c)
  {
    Query(c.start, c.end, c.category, c.action, c.actor, c.outcome, None, None, None, -1, 0)
  }

  /** `ORDER BY timestamp DESC` over the rows stored under `ids`. */
  method NewestFirstRows(table: map<string, Row>, ids: set<string>) returns (rows: seq<Row>)
    requires KeyedById(table) && ids <= table.Keys
    ensures forall r :: r in rows <==> r.id in ids && table[r.id] == r
    ensures |rows| == |ids|
    ensures NewestFirst(rows)
  {
    var sorted := SortBy(ids, TimestampOf(table), true);
    rows := seq(|sorted|, i requires 0 <= i < |sorted| => table[sorted[i]]);
    RowsFollowIds(table, ids, sorted, rows);
    RowsFollowOrder(table, sorted, rows);
  }

  /** A row id's timestamp, the sort key of `ORDER BY timestamp`. */
  function TimestampOf(table: map<string, Row>): string -> string {
    id => if id in table then table[id].timestamp else ""
  }

  lemma RowsFollowIds(table: map<string, Row>, ids: set<string>, sorted: seq<string>, rows: seq<Row>)
    requires KeyedById(table) && ids <= table.Keys
    requires |sorted| == |ids| && forall k :: k in sorted <==> k in ids
    requires |rows| == |sorted| && forall i :: 0 <= i < |rows| ==> rows[i] == table[sorted[i]]
    ensures forall r :: r in rows <==> r.id in ids && table[r.id] == r
  {
    assert forall i :: 0 <= i < |sorted| ==> sorted[i] in ids;
    assert forall i :: 0 <= i < |sorted| ==> rows[i].id == sorted[i];
    forall r: Row | r.id in ids && table[r.id] == r
      ensures r in rows
    {
      var i :| 0 <= i < |sorted| && sorted[i] == r.id;
      assert rows[i] == r;
    }
  }

  lemma RowsFollowOrder(table: map<string, Row>, sorted: seq<string>, rows: seq<Row>)
    requires forall i :: 0 <= i < |sorted| ==> sorted[i] in table
    requires SortedBy(sorted, TimestampOf(table), true)
    requires |rows| == |sorted| && forall i :: 0 <= i < |rows| ==> rows[i] == table[sorted[i]]
    ensures NewestFirst(rows)
  {
    forall i, j | 0 <= i < j < |rows|
      ensures Le(rows[j].timestamp, rows[i].timestamp)
    {
      assert InOrder(TimestampOf(table)(sorted[i]), TimestampOf(table)(sorted[j]), true);
    }
  }

  /** `count_entries` counts what the unpaged `query_entries` with the same
      six filters returns. */
  lemma CountIsUnpagedQuery(table: map<string, Row>, c: CountQuery, ordered: seq<Row>)
    ensures MatchingIds(table, AsQuery(c)) == CountedIds(table, c)
    ensures Page(ordered, AsQuery(c).limit, AsQuery(c).offset) == ordered
  {
  }

  /** A window ledger row; `fetched_at` is a wall-clock value and not
      modelled. */
  datatype WindowRow = WindowRow(fileCount: int, entryCount: nat)

  datatype WindowInfo = WindowInfo(start: string, end: string, fileCount: int, entryCount: nat)

  class LogCache {
    var entries: map<string, Row>
    var windows: map<(string, string), WindowRow>

    ghost predicate Valid()
      reads this
    {
      KeyedById(entries)
    }

    /** A new cache over an empty database. */
    constructor ()
      ensures Valid() && entries == map[] && windows == map[]
    {
      entries := map[];
      windows := map[];
    }

    /** `is_window_fetched`: the exact `(start, end)` pair is in the ledger. */
    method IsWindowFetched(start: string, end: string) returns (fetched: bool)
      ensures fetched <==> (start, end) in windows
    {
      fetched := (start, end) in windows;
    }

    /** `get_fetched_windows`: every ledger row once, ordered by window
      start. */
    method GetFetchedWindows() returns (ws: seq<WindowInfo>)
      ensures |ws| == |windows|
      ensures forall w :: w in ws <==>
        (w.start, w.end) in windows && windows[(w.start, w.end)] == WindowRow(w.fileCount, w.entryCount)
      ensures forall i, j :: 0 <= i < j < |ws| ==> Le(ws[i].start, ws[j].start) && (ws[i].start, ws[i].end) != (ws[j].start, ws[j].end)
    {
      var ledger := windows;
      var keys := SortBy(ledger.Keys, (k: (string, string)) => k.0, false);
      ws := seq(|keys|, i requires 0 <= i < |keys| =>
        WindowInfo(keys[i].0, keys[i].1, ledger[keys[i]].fileCount, ledger[keys[i]].entryCount));
      forall w: WindowInfo | (w.start, w.end) in windows && windows[(w.start, w.end)] == WindowRow(w.fileCount, w.entryCount)
        ensures w in ws
      {
        var i :| 0 <= i < |keys| && keys[i] == (w.start, w.end);
        assert ws[i] == w;
      }
    }

    /** `store_window`: insert each entry not yet present, count the new
      ones, then record the window with its file count and the number of
      entries handed in. Decoded entries are dicts, as the parser produces
      them; the source fails on any other decoded value. */
    method StoreWindow(libs: Libs, windowStart: string, windowEnd: string, batch: seq<ParsedEntry>, fileCount: int)
      returns (inserted: nat)
      requires Valid()
      requires forall i :: 0 <= i < |batch| && libs.loads(batch[i].rawJson).Some? ==> libs.loads(batch[i].rawJson).value.JObj?
      modifies this
      ensures Valid()
      ensures entries == StoreAll(libs, old(entries), windowStart, Raws(batch))
      ensures inserted == |entries| - |old(entries)|
      ensures windows == old(windows)[(windowStart, windowEnd) := WindowRow(fileCount, |batch|)]
    {
      inserted := 0;
      ghost var before := entries;
      var raws := Raws(batch);
      var k := 0;
      while k < |batch|
        invariant 0 <= k <= |batch|
        invariant entries == StoreAll(libs, before, windowStart, raws[..k])
        invariant inserted == |entries| - |before|
        invariant windows == old(windows)
      {
        var added := StoreEntry(libs, windowStart, batch[k].rawJson);
        if added {
          inserted := inserted + 1;
        }
        StoreAllStep(libs, before, windowStart, raws, k);
        k := k + 1;
      }
      assert raws[..k] == raws;
      StoreKeepsKeys(libs, before, windowStart, raws);
      windows := windows[(windowStart, windowEnd) := WindowRow(fileCount, |batch|)];
    }

    /** One pass of the insert loop of `store_window`: `INSERT OR IGNORE`
        of the entry's row. */
    method StoreEntry(libs: Libs, windowStart: string, raw: string) returns (added: bool)
      requires libs.loads(raw).Some? ==> libs.loads(raw).value.JObj?
      modifies this
      ensures entries == InsertOne(libs, old(entries), windowStart, raw)
      ensures |entries| == |old(entries)| + (if added then 1 else 0)
      ensures windows == old(windows)
    {
      InsertStep(libs, entries, windowStart, raw);
      added := false;
      var id := EntryId(libs, raw);
      var decoded := libs.loads(raw);
      if decoded.Some? {
        var row := BuildRow(libs, raw, decoded.value.fields, windowStart);
        if row.Some? && id !in entries {
          entries := entries[id := row.value];
          added := true;
        }
      }
    }

    /** `query_entries`: the rows satisfying every active filter, newest
      first, paged by `limit` and `offset`. `ordered` is the full ordered
      result before paging. */
    method QueryEntries(q: Query) returns (rows: seq<Row>, ghost ordered: seq<Row>)
      requires Valid()
      ensures forall r :: r in ordered <==> r.id in entries && entries[r.id] == r && Matches(r, q)
      ensures |ordered| == |MatchingIds(entries, q)|
      ensures NewestFirst(ordered)
      ensures rows == Page(ordered, q.limit, q.offset)
    {
      var cs := QueryConditions(q);
      var table := entries;
      var ids := set id | id in table && Satisfies(table[id], cs);
      assert ids == MatchingIds(entries, q);
      var all := NewestFirstRows(table, ids);
      ordered := all;
      rows := Page(all, q.limit, q.offset);
    }

    /** `count_entries`: the number of rows satisfying the six filters it
      takes. */
    method CountEntries(c: CountQuery) returns (n: nat)
      requires Valid()
      ensures n == |CountedIds(entries, c)|
    {
      var cs := CountConditions(c);
      var table := entries;
      var ids := set id | id in table && Satisfies(table[id], cs);
      assert ids == CountedIds(entries, c);
      n := |ids|;
    }

    /** `get_entry_by_id`. */
    method GetEntryById(id: string) returns (r: Option<Row>)
      requires Valid()
      ensures r.Some? <==> id in entries
      ensures r.Some? ==> r.value == entries[id] && r.value.id == id
    {
      if id in entries { r := Some(entries[id]); } else { r := None; }
    }

    /** The counts of `get_cache_stats`: stored rows, ledger rows, and the
      number of rows per category. */
    method CacheStats() returns (totalEntries: nat, totalWindows: nat, categories: map<string, nat>)
      ensures totalEntries == |entries| && totalWindows == |windows|
      ensures forall c :: c in categories <==> exists id :: id in entries && entries[id].category == c
      ensures forall c :: c in categories ==> categories[c] == |set id | id in entries && entries[id].category == c|
    {
      totalEntries := |entries|;
      totalWindows := |windows|;
      var table := entries;
      var names := set id | id in table :: table[id].category;
      categories := map c | c in names :: |set id | id in table && table[id].category == c|;
    }

    /** `clear`: no rows and no fetched windows. */
    method Clear()
      modifies this
      ensures Valid() && entries == map[] && windows == map[]
    {
      entries := map[];
      windows := map[];
    }
  }

  /** The search clause tests the five search columns. */
  lemma SearchMeaning(row: Row, q: Query)
    requires Active(q.search)
    ensures Holds(row, AnyLike(SearchColumns, q.search.value)) <==>
      || Like(row.rawJson, q.search.value) || Like(row.action, q.search.value)
      || Like(row.category, q.search.value) || Like(row.actorId, q.search.value)
      || Like(row.environment, q.search.value)
  {
    var t := q.search.value;
    var c4: seq<Column> := [EnvironmentCol];
    var c3 := [ActorIdCol] + c4;
    var c2 := [CategoryCol] + c3;
    var c1 := [ActionCol] + c2;
    assert SearchColumns == [RawJsonCol] + c1;
    AnyColumnLikeCons(row, EnvironmentCol, [], t);
    AnyColumnLikeCons(row, ActorIdCol, c4, t);
    AnyColumnLikeCons(row, CategoryCol, c3, t);
    AnyColumnLikeCons(row, ActionCol, c2, t);
    AnyColumnLikeCons(row, RawJsonCol, c1, t);
  }

  /** `OR` over a column list: the first column, or one of the others. */
  lemma AnyColumnLikeCons(row: Row, col: Column, rest: seq<Column>, term: string)
    ensures AnyColumnLike(row, [col] + rest, term) <==> Like(ColumnOf(row, col), term) || AnyColumnLike(row, rest, term)
  {
    assert ([col] + rest)[1..] == rest;
  }
}
