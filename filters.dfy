/** The filter engine: the parameters shared by the query commands, what of
    them reaches `query_entries` and what reaches `count_entries`, and how
    they are built from command-line arguments, where a relative `last`
    overrides an explicit start and end. Reading an absolute date and
    formatting an instant are parameters (`parseDatetime`, `fmt`); so is the
    current instant. */
module Filters {
  import opened Wrappers
  import opened Cache
  import opened Fetcher

  /** `FilterParams`; `None` and the empty text are both "no filter". */
  datatype FilterParams = FilterParams(
    start: Option<string>,
    end: Option<string>,
    category: Option<string>,
    action: Option<string>,
    actor: Option<string>,
    outcome: Option<string>,
    source: Option<string>,
    ip: Option<string>,
    search: Option<string>,
    limit: int,
    offset: int)

  const DefaultLimit := 100

  const NoFilters := FilterParams(None, None, None, None, None, None, None, None, None, DefaultLimit, 0)

  /** The nine predicate fields, in declaration order. */
  function PredicateFields(f: FilterParams): (r: seq<Option<string>>)
    ensures |r| == 9
  {
    [f.start, f.end, f.category, f.action, f.actor, f.outcome, f.source, f.ip, f.search]
  }

  /** Python's `any` over a list of optional texts. */
  function AnyActive(fields: seq<Option<string>>): (r: bool)
    ensures r <==> exists i :: 0 <= i < |fields| && Active(fields[i])
  {
    if fields == [] then false
    else Active(fields[0]) || AnyActive(fields[1..])
  }

  /** `has_filters`: true exactly when one of the nine predicate fields is
      set and not empty. */
  function HasFilters(f: FilterParams): (r: bool)
    ensures r <==> (|| Active(f.start) || Active(f.end) || Active(f.category) || Active(f.action)
                    || Active(f.actor) || Active(f.outcome) || Active(f.source) || Active(f.ip) || Active(f.search))
  {
    var fields := PredicateFields(f);
    assert Active(f.start) ==> Active(fields[0]);
    assert Active(f.end) ==> Active(fields[1]);
    assert Active(f.category) ==> Active(fields[2]);
    assert Active(f.action) ==> Active(fields[3]);
    assert Active(f.actor) ==> Active(fields[4]);
    assert Active(f.outcome) ==> Active(fields[5]);
    assert Active(f.source) ==> Active(fields[6]);
    assert Active(f.ip) ==> Active(fields[7]);
    assert Active(f.search) ==> Active(fields[8]);
    AnyActive(fields)
  }

  /** The page size and offset never make a filter. */
  lemma PagingIsNoFilter(f: FilterParams, limit: int, offset: int)
    ensures HasFilters(f.(limit := limit, offset := offset)) == HasFilters(f)
    ensures !HasFilters(NoFilters.(limit := limit, offset := offset))
  {
  }

  /** `as_query_kwargs`: all nine predicates, the limit and the offset. */
  function AsQueryKwargs(f: FilterParams): (q: Query)
    ensures FromQuery(q) == f
  {
    Query(f.start, f.end, f.category, f.action, f.actor, f.outcome, f.source, f.ip, f.search, f.limit, f.offset)
  }

  /** The parameters a query's arguments carry. */
  function FromQuery(q: Query): FilterParams {
    FilterParams(q.start, q.end, q.category, q.action, q.actor, q.outcome, q.source, q.ip, q.search, q.limit, q.offset)
  }

  /** `as_count_kwargs`: the six shared filters. Counting with them is
      querying with the source, address and search filters removed and
      without paging. */
  function AsCountKwargs(f: FilterParams): (c: CountQuery)
    ensures AsQuery(c) == AsQueryKwargs(f.(source := None, ip := None, search := None, limit := -1, offset := 0))
  {
    CountQuery(f.start, f.end, f.category, f.action, f.actor, f.outcome)
  }

  /** The count ignores the source, address and search filters and the
      paging; a row counts exactly when it meets the six shared filters of
      the query. */
  lemma CountIgnoresQueryOnlyFields(f: FilterParams, source: Option<string>, ip: Option<string>, search: Option<string>, limit: int, offset: int)
    ensures AsCountKwargs(f.(source := source, ip := ip, search := search, limit := limit, offset := offset)) == AsCountKwargs(f)
    ensures forall row :: Matches(row, AsQueryKwargs(f)) ==> MatchesCount(row, AsCountKwargs(f))
  {
  }

  /** Formats an optional absolute date the way `build_filters` does: no
      text or empty text gives no bound, anything else is read and
      formatted. */
  function Bound(parseDatetime: string -> Result<int>, fmt: int -> string, value: Option<string>): (r: Result<Option<string>>)
    ensures !Active(value) ==> r == Ok(None)
    ensures Active(value) ==> (r.Ok? <==> parseDatetime(value.value).Ok?)
    ensures Active(value) && r.Ok? ==> r.value == Some(fmt(parseDatetime(value.value).value))
  {
    if Active(value) then
      var instant :- parseDatetime(value.value);
      Ok(Some(fmt(instant)))
    else Ok(None)
  }

  /** `build_filters`. A failing date or relative time is the `ValueError`
      the source lets through. */
  function BuildFilters(
    parseDatetime: string -> Result<int>, fmt: int -> string, now: int,
    start: Option<string>, end: Option<string>, last: Option<string>,
    category: Option<string>, action: Option<string>, actor: Option<string>, outcome: Option<string>,
    source: Option<string>, ip: Option<string>, search: Option<string>, limit: int, offset: int): (r: Result<FilterParams>)
    ensures r.Ok? ==>
      r.value.(start := None, end := None) == FilterParams(None, None, category, action, actor, outcome, source, ip, search, limit, offset)
  {
    if Active(last) then
      var range :- ParseRelativeTime(last.value, now);
      Ok(FilterParams(Some(fmt(range.0)), Some(fmt(range.1)), category, action, actor, outcome, source, ip, search, limit, offset))
    else
      var s :- Bound(parseDatetime, fmt, start);
      var e :- Bound(parseDatetime, fmt, end);
      Ok(FilterParams(s, e, category, action, actor, outcome, source, ip, search, limit, offset))
  }

  /** A relative `last` sets both bounds, from that many units before now
      to now, whatever start and end say; without one, each bound is set
      only when given. */
  lemma LastOverridesStartEnd(
    parseDatetime: string -> Result<int>, fmt: int -> string, now: int,
    start: Option<string>, end: Option<string>, start': Option<string>, end': Option<string>, last: Option<string>,
    category: Option<string>, action: Option<string>, actor: Option<string>, outcome: Option<string>,
    source: Option<string>, ip: Option<string>, search: Option<string>, limit: int, offset: int)
    requires Active(last)
    ensures
      var r := BuildFilters(parseDatetime, fmt, now, start, end, last, category, action, actor, outcome, source, ip, search, limit, offset);
      && r == BuildFilters(parseDatetime, fmt, now, start', end', last, category, action, actor, outcome, source, ip, search, limit, offset)
      && (r.Ok? <==> ParseRelativeTime(last.value, now).Ok?)
      && (r.Ok? ==> r.value.start == Some(fmt(ParseRelativeTime(last.value, now).value.0)) && r.value.end == Some(fmt(now)))
  {
  }

  lemma BoundsWithoutLast(
    parseDatetime: string -> Result<int>, fmt: int -> string, now: int,
    start: Option<string>, end: Option<string>, last: Option<string>,
    category: Option<string>, action: Option<string>, actor: Option<string>, outcome: Option<string>,
    source: Option<string>, ip: Option<string>, search: Option<string>, limit: int, offset: int)
    requires !Active(last)
    ensures
      var r := BuildFilters(parseDatetime, fmt, now, start, end, last, category, action, actor, outcome, source, ip, search, limit, offset);
      && (r.Ok? <==> Bound(parseDatetime, fmt, start).Ok? && Bound(parseDatetime, fmt, end).Ok?)
      && (r.Ok? ==> (r.value.start.Some? <==> Active(start)) && (r.value.end.Some? <==> Active(end)))
  {
  }

  /** With no argument at all there is nothing to filter on. */
  lemma NoArgumentsNoFilters(parseDatetime: string -> Result<int>, fmt: int -> string, now: int)
    ensures BuildFilters(parseDatetime, fmt, now, None, None, None, None, None, None, None, None, None, None, DefaultLimit, 0)
      == Ok(NoFilters)
    ensures !HasFilters(NoFilters)
  {
  }

  /** A relative range that reads makes `has_filters` true whenever the
      formatter gives non-empty text. */
  lemma LastIsAFilter(
    parseDatetime: string -> Result<int>, fmt: int -> string, now: int, last: string,
    category: Option<string>, action: Option<string>, actor: Option<string>, outcome: Option<string>,
    source: Option<string>, ip: Option<string>, search: Option<string>, limit: int, offset: int)
    requires last != [] && ParseRelativeTime(last, now).Ok?
    requires forall t :: fmt(t) != []
    ensures
      var r := BuildFilters(parseDatetime, fmt, now, None, None, Some(last), category, action, actor, outcome, source, ip, search, limit, offset);
      r.Ok? && HasFilters(r.value)
  {
  }
}
