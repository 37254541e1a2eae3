/** The aggregation behind the `summary` command: one pass over the queried
    entries feeding seven counters and a list of timestamps, the timestamps
    sorted, and the counters' most common keys listed. A Python `Counter` is
    a multiset of the values counted; an entry is the dict of one row. The
    tables, percentages and colours drawn from these figures are not
    modelled. */
module Summary {
  import opened Wrappers
  import opened Text
  import opened JsonValue

  type Entry = seq<(string, Json)>

  /** The key counted for an entry without the field. */
  const Unknown := JStr("unknown")

  /** `entry.get(key, "unknown")` */
  function Field(e: Entry, key: string): Json {
    Get(e, key).GetOr(Unknown)
  }

  /** The client address counted for an entry, if it is truthy. */
  function Ip(e: Entry): (r: Option<Json>)
    ensures r.Some? <==> Get(e, "client_ip").Some? && Truthy(Get(e, "client_ip").value)
    ensures r.Some? ==> r == Get(e, "client_ip") && Truthy(r.value)
  {
    var ip := Get(e, "client_ip").GetOr(JStr(""));
    if Truthy(ip) then Some(ip) else None
  }

  /** A timestamp the program can sort with the others: absent, false, or
      text. The cache's rows always hold text there. */
  predicate TimestampIsText(e: Entry) {
    Get(e, "timestamp").None? || !Truthy(Get(e, "timestamp").value) || Get(e, "timestamp").value.JStr?
  }

  /** The timestamp collected for an entry, if it is non-empty text. */
  function Timestamp(e: Entry): (r: Option<string>)
    ensures r.Some? <==> Get(e, "timestamp").Some? && Get(e, "timestamp").value.JStr? && Get(e, "timestamp").value.s != ""
    ensures r.Some? ==> Get(e, "timestamp") == Some(JStr(r.value))
  {
    match Get(e, "timestamp")
    case Some(JStr(s)) => if s != "" then Some(s) else None
    case _ => None
  }

  /** `entry.get("outcome_type") == "failure"` */
  predicate IsFailure(e: Entry) {
    Get(e, "outcome_type") == Some(JStr("failure"))
  }

  /** The seven counters and the collected timestamps, in collection
      order. */
  datatype Counts = Counts(
    categories: multiset<Json>,
    actions: multiset<Json>,
    actors: multiset<Json>,
    outcomes: multiset<Json>,
    sources: multiset<Json>,
    ips: multiset<Json>,
    failureActions: multiset<Json>,
    timestamps: seq<string>)

  const NoCounts := Counts(multiset{}, multiset{}, multiset{}, multiset{}, multiset{}, multiset{}, multiset{}, [])

  function Once(v: Option<Json>): multiset<Json> {
    if v.Some? then multiset{v.value} else multiset{}
  }

  function Listed(v: Option<string>): seq<string> {
    if v.Some? then [v.value] else []
  }

  /** What one entry adds: one to each of the five main counters, one to
      the addresses when it has one, its timestamp when non-empty, and its
      action to the failures when its outcome is a failure. */
  function Tally(c: Counts, e: Entry): Counts {
    Counts(
      c.categories + multiset{Field(e, "category")},
      c.actions + multiset{Field(e, "action")},
      c.actors + multiset{Field(e, "actor_id")},
      c.outcomes + multiset{Field(e, "outcome_type")},
      c.sources + multiset{Field(e, "source")},
      c.ips + Once(Ip(e)),
      c.failureActions + (if IsFailure(e) then multiset{Field(e, "action")} else multiset{}),
      c.timestamps + Listed(Timestamp(e)))
  }

  /** The counters after the loop over `entries`. */
  function CountsOf(entries: seq<Entry>): Counts {
    if entries == [] then NoCounts
    else Tally(CountsOf(entries[..|entries| - 1]), entries[|entries| - 1])
  }

  /** One entry adds one to each of the five main counters and at most one
      address and one timestamp. */
  lemma TallySizes(c: Counts, e: Entry)
    ensures var t := Tally(c, e);
      && |t.categories| == |c.categories| + 1 && |t.actions| == |c.actions| + 1
      && |t.actors| == |c.actors| + 1 && |t.outcomes| == |c.outcomes| + 1
      && |t.sources| == |c.sources| + 1
      && |t.ips| <= |c.ips| + 1 && |t.timestamps| <= |c.timestamps| + 1
  {
  }

  /** Each entry adds exactly one to each of the five main counters, so each
      of them totals the number of entries. */
  lemma {:induction false} CountersTotal(entries: seq<Entry>)
    ensures var c := CountsOf(entries);
      && |c.categories| == |entries| && |c.actions| == |entries| && |c.actors| == |entries|
      && |c.outcomes| == |entries| && |c.sources| == |entries|
      && |c.ips| <= |entries| && |c.timestamps| <= |entries|
  {
    if entries != [] {
      var front := entries[..|entries| - 1];
      CountersTotal(front);
      TallySizes(CountsOf(front), entries[|entries| - 1]);
    }
  }

  /** The keys counted so far stay counted. */
  lemma {:induction false} CountedStaysCounted(entries: seq<Entry>, i: int)
    requires 0 <= i < |entries|
    ensures var c := CountsOf(entries);
      && Field(entries[i], "category") in c.categories
      && Field(entries[i], "action") in c.actions
      && Field(entries[i], "actor_id") in c.actors
      && Field(entries[i], "outcome_type") in c.outcomes
      && Field(entries[i], "source") in c.sources
      && (Ip(entries[i]).Some? ==> Ip(entries[i]).value in c.ips)
      && (Timestamp(entries[i]).Some? ==> Timestamp(entries[i]).value in c.timestamps)
    decreases |entries|
  {
    var front := entries[..|entries| - 1];
    if i < |entries| - 1 {
      assert entries[i] == front[i];
      CountedStaysCounted(front, i);
    }
  }

  /** Every entry's key is among the counted ones, and so are its address
      and timestamp when it has them. */
  lemma EveryEntryCounted(entries: seq<Entry>)
    ensures forall i :: 0 <= i < |entries| ==>
      && Field(entries[i], "category") in CountsOf(entries).categories
      && Field(entries[i], "action") in CountsOf(entries).actions
      && Field(entries[i], "actor_id") in CountsOf(entries).actors
      && Field(entries[i], "outcome_type") in CountsOf(entries).outcomes
      && Field(entries[i], "source") in CountsOf(entries).sources
      && (Ip(entries[i]).Some? ==> Ip(entries[i]).value in CountsOf(entries).ips)
      && (Timestamp(entries[i]).Some? ==> Timestamp(entries[i]).value in CountsOf(entries).timestamps)
  {
    forall i | 0 <= i < |entries| {
      CountedStaysCounted(entries, i);
    }
  }

  /** Only truthy addresses and non-empty timestamps are collected. */
  lemma {:induction false} OnlyTruthyCollected(entries: seq<Entry>)
    ensures forall ip :: ip in CountsOf(entries).ips ==> Truthy(ip)
    ensures forall t :: t in CountsOf(entries).timestamps ==> t != ""
  {
    if entries != [] {
      OnlyTruthyCollected(entries[..|entries| - 1]);
    }
  }

  /** The failure tally counts the actions of exactly the entries whose
      outcome is `"failure"`: it totals the failure outcome count and is
      part of the action counter. */
  lemma {:induction false} FailuresMatchOutcomes(entries: seq<Entry>)
    ensures |CountsOf(entries).failureActions| == CountsOf(entries).outcomes[JStr("failure")]
    ensures CountsOf(entries).failureActions <= CountsOf(entries).actions
  {
    if entries != [] {
      var front := entries[..|entries| - 1];
      FailuresMatchOutcomes(front);
      FailureStep(CountsOf(front), entries[|entries| - 1]);
    }
  }

  /** One entry adds one failure action exactly when it adds one failure
      outcome, and the action it adds is also counted among the actions. */
  lemma FailureStep(c: Counts, e: Entry)
    ensures var t := Tally(c, e);
      && |t.failureActions| - |c.failureActions| == t.outcomes[JStr("failure")] - c.outcomes[JStr("failure")]
      && (c.failureActions <= c.actions ==> t.failureActions <= t.actions)
  {
    assert IsFailure(e) <==> Field(e, "outcome_type") == JStr("failure");
  }

  /** Ascending by code point, as `list.sort()` orders texts. */
  predicate Ascending(s: seq<string>) {
    forall i, j :: 0 <= i < j < |s| ==> Le(s[i], s[j])
  }

  /** `x` placed into an ascending list. */
  function Insert(x: string, s: seq<string>): (r: seq<string>)
    requires Ascending(s)
    ensures Ascending(r) && multiset(r) == multiset(s) + multiset{x}
  {
    if s == [] then [x]
    else if Le(x, s[0]) then
      assert forall j :: 0 < j < |s| ==> Le(x, s[j]) by {
        forall j | 0 < j < |s| ensures Le(x, s[j]) { LeTrans(x, s[0], s[j]); }
      }
      [x] + s
    else
      LeTotal(x, s[0]);
      var t := Insert(x, s[1..]);
      assert s == [s[0]] + s[1..];
      assert forall j :: 0 <= j < |t| ==> Le(s[0], t[j]) by {
        forall j | 0 <= j < |t| ensures Le(s[0], t[j]) {
          assert t[j] in multiset(t);
          if t[j] != x {
            assert t[j] in multiset(s[1..]);
            var k :| 0 <= k < |s[1..]| && s[1..][k] == t[j];
            assert s[k + 1] == t[j];
          }
        }
      }
      [s[0]] + t
  }

  /** `timestamps.sort()`: the same texts, ascending. */
  function Sorted(xs: seq<string>): (r: seq<string>)
    ensures Ascending(r) && multiset(r) == multiset(xs)
  {
    if xs == [] then []
    else
      assert xs == xs[..|xs| - 1] + [xs[|xs| - 1]];
      Insert(xs[|xs| - 1], Sorted(xs[..|xs| - 1]))
  }

  /** The first of an ascending list comes before every element, the last
      after every one. */
  lemma Extremes(s: seq<string>)
    requires Ascending(s) && s != []
    ensures forall t :: t in s ==> Le(s[0], t) && Le(t, s[|s| - 1])
  {
    LeRefl(s[0]);
    LeRefl(s[|s| - 1]);
  }

  /** The distinct keys of a counter. */
  function Support(m: multiset<Json>): set<Json> {
    set k | k in m
  }

  /** The keys a listing names. */
  function ListedKeys(r: seq<(Json, nat)>): set<Json> {
    set i | 0 <= i < |r| :: r[i].0
  }

  lemma ListedKeysAppend(r: seq<(Json, nat)>, p: (Json, nat))
    ensures ListedKeys(r + [p]) == ListedKeys(r) + {p.0}
  {
    var r' := r + [p];
    assert r'[|r|].0 == p.0;
    forall x | x in ListedKeys(r)
      ensures x in ListedKeys(r')
    {
      var i :| 0 <= i < |r| && r[i].0 == x;
      assert r'[i].0 == x;
    }
  }

  /** `most_common(n)` (`limit == None` for all): the `min(n, distinct)`
      keys with the highest counts, each once with its count, highest count
      first; a key left out counts no more than any key listed. The order
      among equal counts is left open. */
  predicate IsMostCommon(r: seq<(Json, nat)>, m: multiset<Json>, limit: Option<nat>) {
    && |r| == (if limit.Some? && limit.value < |Support(m)| then limit.value else |Support(m)|)
    && CountsListed(m, r)
    && Descending(r)
    && (forall k, i :: k in m && k !in ListedKeys(r) && 0 <= i < |r| ==> m[k] <= r[i].1)
    && ((limit.None? || |Support(m)| <= limit.value) ==> Support(m) <= ListedKeys(r))
  }

  /** Every non-empty set of keys holds one counted at least as often as
      the others. */
  lemma {:induction false} MostCounted(s: set<Json>, m: multiset<Json>) returns (k: Json)
    requires s != {}
    ensures k in s && forall k' :: k' in s ==> m[k'] <= m[k]
    decreases |s|
  {
    var x :| x in s;
    if s == {x} {
      k := x;
    } else {
      var rest := s - {x};
      assert s == rest + {x};
      var y := MostCounted(rest, m);
      k := if m[x] <= m[y] then y else x;
    }
  }

  /** Each listed key comes with its count. */
  predicate CountsListed(m: multiset<Json>, r: seq<(Json, nat)>) {
    forall i :: 0 <= i < |r| ==> r[i].0 in m && r[i].1 == m[r[i].0]
  }

  /** Keys listed once each, highest count first. */
  predicate Descending(r: seq<(Json, nat)>) {
    forall i, j :: 0 <= i < j < |r| ==> r[i].0 != r[j].0 && r[j].1 <= r[i].1
  }

  /** No key of `rest` is counted more than a listed one. */
  predicate Dominates(m: multiset<Json>, rest: set<Json>, r: seq<(Json, nat)>) {
    forall k, i :: k in rest && 0 <= i < |r| ==> m[k] <= r[i].1
  }

  /** Part way through `most_common`: `r` lists, highest count first, keys
      none of which is counted less than a key still in `rest`, the keys of
      `m` not listed. */
  predicate Selecting(m: multiset<Json>, rest: set<Json>, r: seq<(Json, nat)>) {
    && rest == Support(m) - ListedKeys(r)
    && |rest| + |r| == |Support(m)|
    && CountsListed(m, r)
    && Descending(r)
    && Dominates(m, rest, r)
  }

  lemma CountsListedStep(m: multiset<Json>, r: seq<(Json, nat)>, k: Json)
    requires CountsListed(m, r) && k in m
    ensures CountsListed(m, r + [(k, m[k])])
  {
    var r' := r + [(k, m[k])];
    forall i | 0 <= i < |r'|
      ensures r'[i].0 in m && r'[i].1 == m[r'[i].0]
    {
      if i < |r| { assert r'[i] == r[i]; }
    }
  }

  lemma DescendingStep(m: multiset<Json>, rest: set<Json>, r: seq<(Json, nat)>, k: Json)
    requires Descending(r) && Dominates(m, rest, r) && k in rest && k !in ListedKeys(r)
    ensures Descending(r + [(k, m[k])])
  {
    var r' := r + [(k, m[k])];
    forall i, j | 0 <= i < j < |r'|
      ensures r'[i].0 != r'[j].0 && r'[j].1 <= r'[i].1
    {
      assert r'[i] == r[i];
      if j < |r| { assert r'[j] == r[j]; } else { assert r[i].0 in ListedKeys(r); }
    }
  }

  lemma DominatesStep(m: multiset<Json>, rest: set<Json>, r: seq<(Json, nat)>, k: Json)
    requires Dominates(m, rest, r)
    requires k in rest && forall k' :: k' in rest ==> m[k'] <= m[k]
    ensures Dominates(m, rest - {k}, r + [(k, m[k])])
  {
    var r' := r + [(k, m[k])];
    forall k', i | k' in rest - {k} && 0 <= i < |r'|
      ensures m[k'] <= r'[i].1
    {
      if i < |r| { assert r'[i] == r[i]; }
    }
  }

  /** Listing a most counted key of the rest keeps the selection going. */
  lemma SelectStep(m: multiset<Json>, rest: set<Json>, r: seq<(Json, nat)>, k: Json)
    requires Selecting(m, rest, r)
    requires k in rest && forall k' :: k' in rest ==> m[k'] <= m[k]
    ensures Selecting(m, rest - {k}, r + [(k, m[k])])
  {
    assert rest == (rest - {k}) + {k};
    ListedKeysAppend(r, (k, m[k]));
    assert k in Support(m) && k !in ListedKeys(r);
    CountsListedStep(m, r, k);
    DescendingStep(m, rest, r, k);
    DominatesStep(m, rest, r, k);
  }

  /** A selection that has run out of keys or reached the limit is the
      answer. */
  lemma SelectDone(m: multiset<Json>, rest: set<Json>, r: seq<(Json, nat)>, limit: Option<nat>)
    requires Selecting(m, rest, r)
    requires limit.Some? ==> |r| <= limit.value
    requires rest == {} || (limit.Some? && |r| == limit.value)
    ensures IsMostCommon(r, m, limit)
  {
  }

  /** `Counter.most_common`, by repeatedly taking a most counted key among
      those not yet listed. */
  method MostCommon(m: multiset<Json>, limit: Option<nat>) returns (r: seq<(Json, nat)>)
    ensures IsMostCommon(r, m, limit)
  {
    var rest := Support(m);
    r := [];
    while rest != {} && (limit.None? || |r| < limit.value)
      invariant Selecting(m, rest, r)
      invariant limit.Some? ==> |r| <= limit.value
      decreases |rest|
    {
      ghost var top := MostCounted(rest, m);
      var k :| k in rest && forall k' :: k' in rest ==> m[k'] <= m[k];
      SelectStep(m, rest, r, k);
      r := r + [(k, m[k])];
      rest := rest - {k};
    }
    SelectDone(m, rest, r, limit);
  }

  /** The counts of a listing, added up. */
  function SumCounts(r: seq<(Json, nat)>): nat {
    if r == [] then 0 else SumCounts(r[..|r| - 1]) + r[|r| - 1].1
  }

  /** A counter without keys is empty. */
  lemma NoKeysNoCounts(m: multiset<Json>)
    ensures Support(m) == {} ==> |m| == 0
  {
    if |m| != 0 {
      var k :| k in m;
      assert k in Support(m);
    }
  }

  /** `m` with every copy of `k` removed has `m[k]` fewer elements. */
  lemma {:induction false} RemoveKey(m: multiset<Json>, k: Json)
    ensures |m| == |m[k := 0]| + m[k]
    decreases m[k]
  {
    if m[k] > 0 {
      var m' := m - multiset{k};
      assert m == m' + multiset{k};
      assert m'[k := 0] == m[k := 0];
      RemoveKey(m', k);
    } else {
      assert m[k := 0] == m;
    }
  }

  /** A listing of every key of `m`, each once with its count, adds up to
      the size of `m`. */
  lemma {:induction false} ListingAddsUp(r: seq<(Json, nat)>, m: multiset<Json>)
    requires forall i :: 0 <= i < |r| ==> r[i].1 == m[r[i].0]
    requires forall i, j :: 0 <= i < j < |r| ==> r[i].0 != r[j].0
    requires Support(m) <= ListedKeys(r)
    ensures SumCounts(r) == |m|
  {
    if r == [] {
      NoKeysNoCounts(m);
    } else {
      var n := |r| - 1;
      var k := r[n].0;
      var m' := m[k := 0];
      var front := r[..n];
      forall k' | k' in m'
        ensures k' in ListedKeys(front)
      {
        assert k' in Support(m);
        var i :| 0 <= i < |r| && r[i].0 == k';
        assert i != n;
        assert front[i].0 == k';
      }
      ListingAddsUp(front, m');
      RemoveKey(m, k);
    }
  }

  lemma PrefixStep(entries: seq<Entry>, i: int)
    requires 0 <= i < |entries|
    ensures CountsOf(entries[..i + 1]) == Tally(CountsOf(entries[..i]), entries[i])
  {
    assert entries[..i + 1][..i] == entries[..i];
  }

  /** What the summary reports: the entry count, the date range, the
      distinct categories, actions and actors, the success and failure
      counts, the category breakdown and the four top lists. */
  datatype Report = Report(
    total: nat,
    first: Option<string>,
    last: Option<string>,
    uniqueCategories: nat,
    uniqueActions: nat,
    uniqueActors: nat,
    success: nat,
    failure: nat,
    byCategory: seq<(Json, nat)>,
    topActions: seq<(Json, nat)>,
    topActors: seq<(Json, nat)>,
    topIps: seq<(Json, nat)>,
    topFailures: seq<(Json, nat)>)

  /** `most_common()` without a limit lists the whole counter. */
  lemma FullListingAddsUp(r: seq<(Json, nat)>, m: multiset<Json>)
    requires IsMostCommon(r, m, None)
    ensures SumCounts(r) == |m|
  {
    assert CountsListed(m, r) && Descending(r);
    ListingAddsUp(r, m);
  }

  /** The category breakdown accounts for every entry exactly once. */
  lemma CategoryBreakdownTotals(entries: seq<Entry>, byCategory: seq<(Json, nat)>)
    requires IsMostCommon(byCategory, CountsOf(entries).categories, None)
    ensures SumCounts(byCategory) == |entries|
  {
    FullListingAddsUp(byCategory, CountsOf(entries).categories);
    CountersTotal(entries);
  }

  /** The figures of a report are those of the counters `c` over `total`
      entries: the earliest and latest timestamp, the distinct keys, the
      success and failure outcomes, and the most common keys of each
      counter within the table's limit. */
  predicate Summarizes(r: Report, c: Counts, total: nat) {
    && r.total == total
    && (r.first.Some? <==> c.timestamps != []) && (r.last.Some? <==> c.timestamps != [])
    && (r.first.Some? ==> r.first.value in c.timestamps && forall t :: t in c.timestamps ==> Le(r.first.value, t))
    && (r.last.Some? ==> r.last.value in c.timestamps && forall t :: t in c.timestamps ==> Le(t, r.last.value))
    && r.uniqueCategories == |Support(c.categories)|
    && r.uniqueActions == |Support(c.actions)|
    && r.uniqueActors == |Support(c.actors)|
    && r.success == c.outcomes[JStr("success")] && r.failure == c.outcomes[JStr("failure")]
    && IsMostCommon(r.byCategory, c.categories, None)
    && IsMostCommon(r.topActions, c.actions, Some(20))
    && IsMostCommon(r.topActors, c.actors, Some(20))
    && IsMostCommon(r.topIps, c.ips, Some(10))
    && IsMostCommon(r.topFailures, c.failureActions, Some(20))
  }

  /** `timestamps.sort()` and the date range read off its ends. */
  method DateRange(timestamps: seq<string>) returns (first: Option<string>, last: Option<string>)
    ensures (first.Some? <==> timestamps != []) && (last.Some? <==> timestamps != [])
    ensures first.Some? ==> first.value in timestamps && forall t :: t in timestamps ==> Le(first.value, t)
    ensures last.Some? ==> last.value in timestamps && forall t :: t in timestamps ==> Le(t, last.value)
  {
    var sorted := Sorted(timestamps);
    if sorted != [] {
      Extremes(sorted);
      assert forall t :: t in timestamps <==> t in multiset(sorted);
      first, last := Some(sorted[0]), Some(sorted[|sorted| - 1]);
    } else {
      assert |multiset(timestamps)| == 0;
      first, last := None, None;
    }
  }

  /** The figures the tables show, from the filled counters. */
  method Figures(c: Counts, total: nat) returns (r: Report)
    ensures Summarizes(r, c, total)
  {
    var first, last := DateRange(c.timestamps);
    var byCategory := MostCommon(c.categories, None);
    var topActions := MostCommon(c.actions, Some(20));
    var topActors := MostCommon(c.actors, Some(20));
    var topIps := MostCommon(c.ips, Some(10));
    var topFailures := MostCommon(c.failureActions, Some(20));
    r := Report(
      total, first, last,
      |Support(c.categories)|, |Support(c.actions)|, |Support(c.actors)|,
      c.outcomes[JStr("success")], c.outcomes[JStr("failure")],
      byCategory, topActions, topActors, topIps, topFailures);
  }

  /** One round of the counting loop: the seven counters and the
      timestamps after `entry`. */
  method CountEntry(c: Counts, entry: Entry) returns (c': Counts)
    ensures c' == Tally(c, entry)
  {
    ghost var target := Tally(c, entry);
    var categories, actions, actors, outcomes, sources, ips, failureActions, timestamps :=
      c.categories, c.actions, c.actors, c.outcomes, c.sources, c.ips, c.failureActions, c.timestamps;
    categories := categories + multiset{Field(entry, "category")};
    actions := actions + multiset{Field(entry, "action")};
    actors := actors + multiset{Field(entry, "actor_id")};
    outcomes := outcomes + multiset{Field(entry, "outcome_type")};
    sources := sources + multiset{Field(entry, "source")};
    var ip := Ip(entry);
    if ip.Some? {
      ips := ips + multiset{ip.value};
    }
    assert ips == target.ips;
    var ts := Timestamp(entry);
    if ts.Some? {
      timestamps := timestamps + [ts.value];
    }
    assert timestamps == target.timestamps;
    if IsFailure(entry) {
      failureActions := failureActions + multiset{Field(entry, "action")};
    }
    assert failureActions == target.failureActions;
    c' := Counts(categories, actions, actors, outcomes, sources, ips, failureActions, timestamps);
  }

  /** The counting loop of `display_summary`: the counters start empty and
      each entry is counted in turn. */
  method CountEntries(entries: seq<Entry>) returns (c: Counts)
    requires forall i :: 0 <= i < |entries| ==> TimestampIsText(entries[i])
    ensures c == CountsOf(entries)
  {
    c := NoCounts;
    var i := 0;
    assert entries[..0] == [];
    while i < |entries|
      invariant 0 <= i <= |entries|
      invariant c == CountsOf(entries[..i])
    {
      PrefixStep(entries, i);
      c := CountEntry(c, entries[i]);
      i := i + 1;
    }
    assert entries[..i] == entries;
  }

  /** `display_summary`: nothing for no entries; otherwise the counting
      loop, then the figures of the counters it filled. */
  method Summarize(entries: seq<Entry>) returns (report: Option<Report>)
    requires forall i :: 0 <= i < |entries| ==> TimestampIsText(entries[i])
    ensures report.None? <==> entries == []
    ensures report.Some? ==> Summarizes(report.value, CountsOf(entries), |entries|)
  {
    if entries == [] {
      return None;
    }
    var counts := CountEntries(entries);
    var figures := Figures(counts, |entries|);
    report := Some(figures);
  }

  /** No list is longer than its limit: at most 20 actions, actors and
      failing actions, and at most 10 addresses. */
  lemma TopListsBounded(r: seq<(Json, nat)>, m: multiset<Json>, n: nat)
    requires IsMostCommon(r, m, Some(n))
    ensures |r| <= n && |r| <= |Support(m)|
  {
  }
}
