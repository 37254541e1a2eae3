/** The audit-log record and its nested parts, with the defaults and the
    alias-or-name lookup pydantic applies when it validates a decoded JSON
    document (`model_validate` with `populate_by_name`, lax mode). */
module Models {
  import opened Wrappers
  import opened JsonValue

  type Dict = seq<(string, Json)>

  datatype Identifier = Identifier(kind: string, value: string)

  datatype Outcome = Outcome(kind: string, failureReason: Option<string>, error: Option<string>)

  datatype Actor = Actor(kind: string, identifier: Identifier, attributes: Dict)

  datatype Context = Context(
    environment: string,
    sessionId: Option<string>,
    clientIp: Option<string>,
    protocol: string,
    host: string,
    userAgent: Option<string>)

  datatype ObjectDetail = ObjectDetail(
    kind: string,
    identifier: Identifier,
    attributes: Dict,
    priorAttributes: Option<Dict>,
    outcome: Outcome,
    actor: Actor,
    context: Context)

  datatype AuditLogEntry = AuditLogEntry(
    date: string,
    messageType: string,
    schemaVersion: string,
    timestamp: string,
    eventType: string,
    category: string,
    action: string,
    source: string,
    tags: Dict,
    obj: ObjectDetail)
  {
    /** `object.actor.identifier.value` */
    function ActorId(): string { obj.actor.identifier.value }

    /** `object.outcome.type` */
    function OutcomeType(): string { obj.outcome.kind }

    /** `object.context.environment` */
    function Environment(): string { obj.context.environment }

    /** `object.context.client_ip` */
    function ClientIp(): Option<string> { obj.context.clientIp }

    /** `object.context.host` */
    function Host(): string { obj.context.host }

    /** `object.context.session_id` */
    function SessionId(): Option<string> { obj.context.sessionId }

    /** The text `parsed_timestamp` hands to the ISO parser: `timestamp`, or
        `date` when `timestamp` is empty. */
    function TimestampText(): (r: string)
      ensures timestamp != [] ==> r == timestamp
      ensures timestamp == [] ==> r == date
    {
      if timestamp != [] then timestamp else date
    }
  }

  const DefaultIdentifier := Identifier("", "")
  const DefaultOutcome := Outcome("", None, None)
  const DefaultActor := Actor("", DefaultIdentifier, [])
  const DefaultContext := Context("", None, None, "", "", None)
  const DefaultObject := ObjectDetail("", DefaultIdentifier, [], None, DefaultOutcome, DefaultActor, DefaultContext)
  const DefaultEntry := AuditLogEntry("", "", "", "", "", "", "", "", [], DefaultObject)

  /** The input pydantic reads for a field: the alias first, then (with
      `populate_by_name`) the field's own name. */
  function Field(d: Dict, alias: string, name: string): Option<Json> {
    match Get(d, alias)
    case Some(v) => Some(v)
    case None => Get(d, name)
  }

  /** A `str` field: absent gives the default, a JSON string is taken, any
      other value is a validation error (`None`). */
  function StrField(input: Option<Json>): Option<string> {
    match input
    case None => Some("")
    case Some(JStr(s)) => Some(s)
    case Some(_) => None
  }

  /** A `str | None` field: absent or `null` gives `None`. */
  function OptStrField(input: Option<Json>): Option<Option<string>> {
    match input
    case None => Some(None)
    case Some(JNull) => Some(None)
    case Some(JStr(s)) => Some(Some(s))
    case Some(_) => None
  }

  /** A `dict[str, Any]` field, default `{}`. */
  function DictField(input: Option<Json>): Option<Dict> {
    match input
    case None => Some([])
    case Some(JObj(f)) => Some(f)
    case Some(_) => None
  }

  /** A `dict[str, Any] | None` field, default `None`. */
  function OptDictField(input: Option<Json>): Option<Option<Dict>> {
    match input
    case None => Some(None)
    case Some(JNull) => Some(None)
    case Some(JObj(f)) => Some(Some(f))
    case Some(_) => None
  }

  /** A nested-model field: absent gives the default model, a dict is
      validated, anything else is an error. */
  function Nested<T>(input: Option<Json>, default: T, validate: Dict -> Option<T>): Option<T> {
    match input
    case None => Some(default)
    case Some(JObj(f)) => validate(f)
    case Some(_) => None
  }

  function ValidateIdentifier(d: Dict): Option<Identifier> {
    var kind :- StrField(Field(d, "type", "type"));
    var value :- StrField(Field(d, "value", "value"));
    Some(Identifier(kind, value))
  }

  function ValidateOutcome(d: Dict): Option<Outcome> {
    var kind :- StrField(Field(d, "type", "type"));
    var failureReason :- OptStrField(Field(d, "failureReason", "failure_reason"));
    var error :- OptStrField(Field(d, "error", "error"));
    Some(Outcome(kind, failureReason, error))
  }

  function ValidateActor(d: Dict): Option<Actor> {
    var kind :- StrField(Field(d, "type", "type"));
    var identifier :- Nested(Field(d, "identifier", "identifier"), DefaultIdentifier, ValidateIdentifier);
    var attributes :- DictField(Field(d, "attributes", "attributes"));
    Some(Actor(kind, identifier, attributes))
  }

  function ValidateContext(d: Dict): Option<Context> {
    var environment :- StrField(Field(d, "environment", "environment"));
    var sessionId :- OptStrField(Field(d, "sessionId", "session_id"));
    var clientIp :- OptStrField(Field(d, "clientIp", "client_ip"));
    var protocol :- StrField(Field(d, "protocol", "protocol"));
    var host :- StrField(Field(d, "host", "host"));
    var userAgent :- OptStrField(Field(d, "userAgent", "user_agent"));
    Some(Context(environment, sessionId, clientIp, protocol, host, userAgent))
  }

  function ValidateObject(d: Dict): Option<ObjectDetail> {
    var kind :- StrField(Field(d, "type", "type"));
    var identifier :- Nested(Field(d, "identifier", "identifier"), DefaultIdentifier, ValidateIdentifier);
    var attributes :- DictField(Field(d, "attributes", "attributes"));
    var priorAttributes :- OptDictField(Field(d, "priorAttributes", "prior_attributes"));
    var outcome :- Nested(Field(d, "outcome", "outcome"), DefaultOutcome, ValidateOutcome);
    var actor :- Nested(Field(d, "actor", "actor"), DefaultActor, ValidateActor);
    var context :- Nested(Field(d, "context", "context"), DefaultContext, ValidateContext);
    Some(ObjectDetail(kind, identifier, attributes, priorAttributes, outcome, actor, context))
  }

  function ValidateEntryFields(d: Dict): Option<AuditLogEntry> {
    var date :- StrField(Field(d, "date", "date"));
    var messageType :- StrField(Field(d, "messageType", "message_type"));
    var schemaVersion :- StrField(Field(d, "schemaVersion", "schema_version"));
    var timestamp :- StrField(Field(d, "timestamp", "timestamp"));
    var eventType :- StrField(Field(d, "eventType", "event_type"));
    var category :- StrField(Field(d, "category", "category"));
    var action :- StrField(Field(d, "action", "action"));
    var source :- StrField(Field(d, "source", "source"));
    var tags :- DictField(Field(d, "tags", "tags"));
    var obj :- Nested(Field(d, "object", "object"), DefaultObject, ValidateObject);
    Some(AuditLogEntry(date, messageType, schemaVersion, timestamp, eventType, category, action, source, tags, obj))
  }

  /** `AuditLogEntry.model_validate(raw)`; `None` is a `ValidationError`. Only
      a dict can validate. */
  function Validate(raw: Json): (r: Option<AuditLogEntry>)
    ensures r.Some? ==> raw.JObj?
  {
    match raw
    case JObj(d) => ValidateEntryFields(d)
    case _ => None
  }

  /** An empty dict validates to the all-defaults record: every string field
      is empty, and so are the accessors. */
  lemma EmptyObjectDefaults()
    ensures Validate(JObj([])) == Some(DefaultEntry)
    ensures DefaultEntry.category == "" && DefaultEntry.action == ""
    ensures DefaultEntry.ActorId() == "" && DefaultEntry.OutcomeType() == ""
    ensures DefaultEntry.Environment() == "" && DefaultEntry.Host() == ""
    ensures DefaultEntry.ClientIp() == None && DefaultEntry.SessionId() == None
  {
  }

  /** The aliases populate their fields: a document carrying `messageType`,
      `schemaVersion` and `eventType` as strings yields those values. */
  lemma AliasesPopulate(d: Dict, e: AuditLogEntry, mt: string, sv: string, et: string)
    requires Validate(JObj(d)) == Some(e)
    requires Get(d, "messageType") == Some(JStr(mt))
    requires Get(d, "schemaVersion") == Some(JStr(sv))
    requires Get(d, "eventType") == Some(JStr(et))
    ensures e.messageType == mt && e.schemaVersion == sv && e.eventType == et
  {
  }

  /** A field's own name is read only when its alias is absent. */
  lemma NameUsedWithoutAlias(d: Dict, e: AuditLogEntry, et: string)
    requires Validate(JObj(d)) == Some(e)
    requires Get(d, "eventType") == None && Get(d, "event_type") == Some(JStr(et))
    ensures e.eventType == et
  {
  }

  /** The accessors read the nested record: for a document whose `object`
      holds `actor.identifier.value` and `outcome.type` as strings, those are
      `actor_id` and `outcome_type`. */
  lemma AccessorsReadNested(
    d: Dict, e: AuditLogEntry, o: Dict, a: Dict, ident: Dict, out: Dict, actorId: string, outcomeType: string)
    requires Validate(JObj(d)) == Some(e)
    requires Get(d, "object") == Some(JObj(o))
    requires Get(o, "actor") == Some(JObj(a)) && Get(a, "identifier") == Some(JObj(ident))
    requires Get(ident, "value") == Some(JStr(actorId))
    requires Get(o, "outcome") == Some(JObj(out)) && Get(out, "type") == Some(JStr(outcomeType))
    ensures e.ActorId() == actorId && e.OutcomeType() == outcomeType
  {
    ObjectIsValidated(d, e, o);
    ActorIsValidated(o, e.obj, a);
    IdentifierIsValidated(a, e.obj.actor, ident);
    OutcomeIsValidated(o, e.obj, out);
  }

  lemma ObjectIsValidated(d: Dict, e: AuditLogEntry, o: Dict)
    requires ValidateEntryFields(d) == Some(e) && Get(d, "object") == Some(JObj(o))
    ensures ValidateObject(o) == Some(e.obj)
  {
  }

  lemma ActorIsValidated(o: Dict, od: ObjectDetail, a: Dict)
    requires ValidateObject(o) == Some(od) && Get(o, "actor") == Some(JObj(a))
    ensures ValidateActor(a) == Some(od.actor)
  {
  }

  lemma IdentifierIsValidated(a: Dict, actor: Actor, ident: Dict)
    requires ValidateActor(a) == Some(actor) && Get(a, "identifier") == Some(JObj(ident))
    ensures ValidateIdentifier(ident) == Some(actor.identifier)
  {
  }

  lemma OutcomeIsValidated(o: Dict, od: ObjectDetail, out: Dict)
    requires ValidateObject(o) == Some(od) && Get(o, "outcome") == Some(JObj(out))
    ensures ValidateOutcome(out) == Some(od.outcome)
  {
  }

  lemma ContextIsValidated(o: Dict, od: ObjectDetail, c: Dict)
    requires ValidateObject(o) == Some(od) && Get(o, "context") == Some(JObj(c))
    ensures ValidateContext(c) == Some(od.context)
  {
  }
}
