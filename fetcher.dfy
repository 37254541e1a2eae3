/** The fetch orchestrator: planning a time range as windows of at most one
    hour, reading a relative time such as `24h`, and the per-window loop that
    skips cached windows, asks the API for each remaining window's files,
    parses them and stores the entries. Instants are integers counted in
    microseconds; the formatter that turns an instant into the API's
    `...T..:..:...000Z` text and the API's replies are parameters. */
module Fetcher {
  import opened Wrappers
  import opened Text
  import opened Foreign
  import opened Parser
  import opened Cache

  const Second := 1000000
  const Minute := 60 * Second
  const Hour := 60 * Minute
  const Day := 24 * Hour

  // ---------------------------------------------------------------------
  // Window planning

  /** The windows `generate_windows` cuts `[start, end)` into, as instants:
      from `start`, steps of one hour, the last one cut short at `end`. */
  function Plan(start: int, end: int): seq<(int, int)>
    decreases end - start
  {
    if start >= end then []
    else
      var stop := if start + Hour < end then start + Hour else end;
      [(start, stop)] + Plan(stop, end)
  }

  function Formatted(fmt: int -> string, spans: seq<(int, int)>): (r: seq<(string, string)>)
    ensures |r| == |spans| && forall i :: 0 <= i < |spans| ==> r[i] == (fmt(spans[i].0), fmt(spans[i].1))
  {
    seq(|spans|, i requires 0 <= i < |spans| => (fmt(spans[i].0), fmt(spans[i].1)))
  }

  /** `generate_windows(start, end)` */
  method GenerateWindows(fmt: int -> string, start: int, end: int) returns (windows: seq<(string, string)>)
    ensures windows == Formatted(fmt, Plan(start, end))
  {
    windows := [];
    var current := start;
    while current < end
      invariant Formatted(fmt, Plan(start, end)) == windows + Formatted(fmt, Plan(current, end))
      decreases end - current
    {
      var stop := if current + Hour < end then current + Hour else end;
      assert Formatted(fmt, Plan(current, end)) == [(fmt(current), fmt(stop))] + Formatted(fmt, Plan(stop, end));
      windows := windows + [(fmt(current), fmt(stop))];
      current := stop;
    }
  }

  /** An empty range gives no windows, and only an empty range. */
  lemma PlanEmpty(start: int, end: int)
    ensures Plan(start, end) == [] <==> start >= end
  {
  }

  /** The windows tile `[start, end)`: the first starts at `start`, the last
      ends at `end`, each ends where the next starts, and each is non-empty
      and at most an hour long. */
  lemma {:induction false} PlanTiles(start: int, end: int)
    requires start < end
    ensures
      var p := Plan(start, end);
      && p != [] && p[0].0 == start && p[|p| - 1].1 == end
      && (forall i :: 0 <= i < |p| ==> p[i].0 < p[i].1 <= p[i].0 + Hour)
      && (forall i :: 0 <= i < |p| - 1 ==> p[i].1 == p[i + 1].0)
    decreases end - start
  {
    var stop := if start + Hour < end then start + Hour else end;
    if stop < end {
      PlanTiles(stop, end);
      var rest := Plan(stop, end);
      var p := Plan(start, end);
      assert p == [(start, stop)] + rest;
      assert forall i :: 1 <= i < |p| ==> p[i] == rest[i - 1];
    }
  }

  /** There are `ceil((end - start) / 1h)` windows. */
  lemma {:induction false} PlanCount(start: int, end: int)
    requires start < end
    ensures |Plan(start, end)| == (end - start + Hour - 1) / Hour
    decreases end - start
  {
    if start + Hour < end {
      PlanCount(start + Hour, end);
      assert (end - start + Hour - 1) / Hour == (end - start - 1) / Hour + 1;
    }
  }

  // ---------------------------------------------------------------------
  // Relative times

  predicate IsUnit(c: char) {
    c == 'h' || c == 'd' || c == 'm'
  }

  function UnitLength(c: char): int
    requires IsUnit(c)
  {
    if c == 'h' then Hour else if c == 'd' then Day else Minute
  }

  /** `parse_relative_time(value)` with the current instant `now`: the text,
      stripped and lower-cased, is a count and one of the units `h`, `d`,
      `m`; the range ends now and starts that long before. */
  function ParseRelativeTime(value: string, now: int): (r: Result<(int, int)>)
    ensures r.Ok? ==>
      var v := Lower(Strip(value));
      && v != [] && IsUnit(v[|v| - 1]) && r.value.1 == now
      && ParseInt(v[..|v| - 1]).Some?
      && r.value.0 == now - ParseInt(v[..|v| - 1]).value * UnitLength(v[|v| - 1])
  {
    ParseRelative(Lower(Strip(value)), now)
  }

  /** The same on text already stripped and lower-cased. */
  function ParseRelative(v: string, now: int): (r: Result<(int, int)>)
    ensures r.Ok? ==>
      && v != [] && IsUnit(v[|v| - 1]) && r.value.1 == now
      && ParseInt(v[..|v| - 1]).Some?
      && r.value.0 == now - ParseInt(v[..|v| - 1]).value * UnitLength(v[|v| - 1])
  {
    if EndsWith(v, "h") || EndsWith(v, "d") || EndsWith(v, "m") then
      var unit := v[|v| - 1];
      assert IsUnit(unit);
      match ParseInt(v[..|v| - 1])
      case None => Err("invalid literal for int() with base 10: '" + v[..|v| - 1] + "'")
      case Some(n) => Ok((now - n * UnitLength(unit), now))
    else
      Err("Cannot parse relative time '" + v + "'. Use format like '24h', '7d', or '30m'.")
  }

  /** Text without a unit suffix is an error. */
  lemma RelativeTimeNeedsUnit(value: string, now: int)
    requires var v := Lower(Strip(value)); v == [] || !IsUnit(v[|v| - 1])
    ensures ParseRelativeTime(value, now).Err?
  {
  }

  /** A count written in decimal followed by a unit, in either case, reads
      back as that many units before now. */
  lemma RelativeTimeOfCount(n: nat, unit: char, now: int)
    requires IsUnit(LowerChar(unit))
    ensures ParseRelativeTime(NatToString(n) + [unit], now) == Ok((now - n * UnitLength(LowerChar(unit)), now))
  {
    ParseIntOfString(n);
    RelativeTimeOfDigits(NatToString(n), n, unit, now);
  }

  lemma RelativeTimeOfDigits(d: string, n: int, unit: char, now: int)
    requires d != [] && (forall i :: 0 <= i < |d| ==> IsDigit(d[i])) && ParseInt(d) == Some(n)
    requires IsUnit(LowerChar(unit))
    ensures ParseRelativeTime(d + [unit], now) == Ok((now - n * UnitLength(LowerChar(unit)), now))
  {
    DigitsAndUnitNormalised(d, unit, now);
    DigitsAndLowerUnit(d, n, unit, now);
  }

  lemma DigitsAndLowerUnit(d: string, n: int, unit: char, now: int)
    requires d != [] && (forall i :: 0 <= i < |d| ==> IsDigit(d[i])) && ParseInt(d) == Some(n)
    requires IsUnit(LowerChar(unit))
    ensures ParseRelative(d + [LowerChar(unit)], now) == Ok((now - n * UnitLength(LowerChar(unit)), now))
  {
    RelativeOfUnit(d, LowerChar(unit), n, now);
  }

  /** Digits and a unit read as the digits and the lower-case unit. */
  lemma DigitsAndUnitNormalised(d: string, unit: char, now: int)
    requires d != [] && forall i :: 0 <= i < |d| ==> IsDigit(d[i])
    requires IsUnit(LowerChar(unit))
    ensures ParseRelativeTime(d + [unit], now) == ParseRelative(d + [LowerChar(unit)], now)
  {
    NormalisedDigitsAndUnit(d, unit);
    ParseRelativeTimeVia(d + [unit], d + [LowerChar(unit)], now);
  }

  lemma ParseRelativeTimeVia(value: string, v: string, now: int)
    requires Lower(Strip(value)) == v
    ensures ParseRelativeTime(value, now) == ParseRelative(v, now)
  {
  }

  lemma {:induction false} NormalisedDigitsAndUnit(d: string, unit: char)
    requires d != [] && forall i :: 0 <= i < |d| ==> IsDigit(d[i])
    requires IsUnit(LowerChar(unit))
    ensures Lower(Strip(d + [unit])) == d + [LowerChar(unit)]
  {
    EndsAreNotSpace(d, unit);
    LowerOfStripped(d + [unit]);
    LowerDigitsThen(d, unit);
  }

  lemma EndsAreNotSpace(d: string, unit: char)
    requires d != [] && IsDigit(d[0])
    requires IsUnit(LowerChar(unit))
    ensures var s := d + [unit]; !IsSpace(s[0]) && !IsSpace(s[|s| - 1])
  {
    assert unit in "hdmHDM";
  }

  lemma RelativeOfUnit(d: string, u: char, n: int, now: int)
    requires IsUnit(u) && ParseInt(d) == Some(n)
    ensures ParseRelative(d + [u], now) == Ok((now - n * UnitLength(u), now))
  {
    var v := d + [u];
    assert v[..|v| - 1] == d && v[|v| - 1] == u;
    assert v[|v| - 1..] == [u];
    if u == 'h' {
      assert EndsWith(v, "h");
    } else if u == 'd' {
      assert EndsWith(v, "d");
    } else {
      assert EndsWith(v, "m");
    }
  }

  // ---------------------------------------------------------------------
  // The window loop

  /** What the download step reports for a window's files. */
  datatype DownloadReply = DownloadFailed(reason: string) | Downloaded(files: seq<Bytes>)

  /** What the API reports for a window: the location request failed, or the
      file locations and, when there are any, how downloading them went. */
  datatype WindowReply = LocationsFailed(reason: string) | Located(locations: seq<string>, download: DownloadReply)

  /** The reply ends the window with an error. */
  predicate Fails(reply: WindowReply) {
    reply.LocationsFailed? || (reply.locations != [] && reply.download.DownloadFailed?)
  }

  /** The counters of `FetchProgress`. */
  datatype Tally = Tally(
    totalWindows: int,
    completedWindows: int,
    skippedWindows: int,
    totalFiles: int,
    totalEntries: int,
    newEntries: int,
    errors: seq<string>)

  /** The cache's two tables and the counters, between windows. */
  datatype Snapshot = Snapshot(entries: map<string, Row>, ledger: map<(string, string), WindowRow>, tally: Tally)

  function LocationError(windowStart: string, reason: string): string {
    "Failed to fetch locations for " + windowStart + ": " + reason
  }

  function DownloadError(windowStart: string, reason: string): string {
    "Failed downloading files for " + windowStart + ": " + reason
  }

  /** One pass of the window loop of `fetch_audit_logs`. */
  function Step(libs: Libs, network: ((string, string)) -> WindowReply, s: Snapshot, w: (string, string)): Snapshot {
    var t := s.tally;
    if w in s.ledger then
      s.(tally := t.(skippedWindows := t.skippedWindows + 1, completedWindows := t.completedWindows + 1))
    else
      match network(w)
      case LocationsFailed(reason) =>
        s.(tally := t.(errors := t.errors + [LocationError(w.0, reason)]))
      case Located(locations, download) =>
        var t1 := t.(totalFiles := t.totalFiles + |locations|);
        if locations == [] then
          Snapshot(s.entries, s.ledger[w := WindowRow(0, 0)], t1.(completedWindows := t1.completedWindows + 1))
        else
          match download
          case DownloadFailed(reason) =>
            Snapshot(s.entries, s.ledger, t1.(errors := t1.errors + [DownloadError(w.0, reason)]))
          case Downloaded(files) =>
            var parsed := LogFilesEntries(libs, files);
            var stored := StoreAll(libs, s.entries, w.0, Raws(parsed));
            Snapshot(
              stored,
              s.ledger[w := WindowRow(|locations|, |parsed|)],
              t1.(totalEntries := t1.totalEntries + |parsed|,
                  newEntries := t1.newEntries + (|stored| - |s.entries|),
                  completedWindows := t1.completedWindows + 1))
  }

  /** The loop over `windows`, in order. */
  function Run(libs: Libs, network: ((string, string)) -> WindowReply, s: Snapshot, windows: seq<(string, string)>): Snapshot
    decreases |windows|
  {
    if windows == [] then s
    else Step(libs, network, Run(libs, network, s, windows[..|windows| - 1]), windows[|windows| - 1])
  }

  /** A cached window is counted as skipped and completed and nothing else
      happens: no reply of the API is looked at. */
  lemma SkipIgnoresNetwork(
    libs: Libs, net1: ((string, string)) -> WindowReply, net2: ((string, string)) -> WindowReply, s: Snapshot, w: (string, string))
    requires w in s.ledger
    ensures Step(libs, net1, s, w) == Step(libs, net2, s, w)
    ensures var t := Step(libs, net1, s, w).tally;
      && Step(libs, net1, s, w).entries == s.entries && Step(libs, net1, s, w).ledger == s.ledger
      && t.skippedWindows == s.tally.skippedWindows + 1 && t.completedWindows == s.tally.completedWindows + 1
      && t.errors == s.tally.errors
  {
  }

  /** A window either completes or adds one error, never both; a failing
      window leaves both tables as they were, and any other window ends up
      in the ledger. */
  lemma StepOutcome(libs: Libs, network: ((string, string)) -> WindowReply, s: Snapshot, w: (string, string))
    ensures
      var a := Step(libs, network, s, w);
      && (|| (a.tally.completedWindows == s.tally.completedWindows + 1 && a.tally.errors == s.tally.errors)
          || (a.tally.completedWindows == s.tally.completedWindows && |a.tally.errors| == |s.tally.errors| + 1))
      && a.tally.errors[..|s.tally.errors|] == s.tally.errors
      && (w !in s.ledger && Fails(network(w)) ==> a.entries == s.entries && a.ledger == s.ledger)
      && (w in s.ledger || !Fails(network(w)) ==> w in a.ledger)
  {
  }

  /** The growth of `new_entries` in one pass is between zero and the
      growth of `total_entries`; the other counters never shrink. */
  lemma StepCounts(libs: Libs, network: ((string, string)) -> WindowReply, s: Snapshot, w: (string, string))
    ensures
      var a := Step(libs, network, s, w);
      && 0 <= a.tally.newEntries - s.tally.newEntries <= a.tally.totalEntries - s.tally.totalEntries
      && a.tally.skippedWindows - s.tally.skippedWindows <= a.tally.completedWindows - s.tally.completedWindows
      && s.tally.totalFiles <= a.tally.totalFiles
      && a.tally.totalWindows == s.tally.totalWindows
      && s.ledger.Keys <= a.ledger.Keys
      && (forall id :: id in s.entries ==> id in a.entries && a.entries[id] == s.entries[id])
  {
    if w !in s.ledger && network(w).Located? && network(w).locations != [] && network(w).download.Downloaded? {
      var parsed := LogFilesEntries(libs, network(w).download.files);
      StoreKeepsExisting(libs, s.entries, w.0, Raws(parsed));
      var stored := StoreAll(libs, s.entries, w.0, Raws(parsed));
      assert s.entries.Keys <= stored.Keys;
      CardinalityGrows(s.entries.Keys, stored.Keys);
    }
  }

  lemma CardinalityGrows<K>(a: set<K>, b: set<K>)
    requires a <= b
    ensures |a| <= |b|
  {
    assert b == a + (b - a);
  }

  /** Over a whole run: every planned window completes or adds exactly one
      error; errors are only appended; `new_entries` grows by no more than
      `total_entries`; a window that enters the ledger was planned and did
      not fail; stored rows stay as they were. */
  lemma {:induction false} RunAccounts(libs: Libs, network: ((string, string)) -> WindowReply, s: Snapshot, windows: seq<(string, string)>)
    ensures
      var a := Run(libs, network, s, windows);
      && (a.tally.completedWindows - s.tally.completedWindows) + (|a.tally.errors| - |s.tally.errors|) == |windows|
      && |s.tally.errors| <= |a.tally.errors| && a.tally.errors[..|s.tally.errors|] == s.tally.errors
      && 0 <= a.tally.newEntries - s.tally.newEntries <= a.tally.totalEntries - s.tally.totalEntries
      && a.tally.skippedWindows - s.tally.skippedWindows <= a.tally.completedWindows - s.tally.completedWindows
      && a.tally.totalWindows == s.tally.totalWindows
      && s.ledger.Keys <= a.ledger.Keys
      && (forall w :: w in a.ledger && w !in s.ledger ==> w in windows && !Fails(network(w)))
      && (forall id :: id in s.entries ==> id in a.entries && a.entries[id] == s.entries[id])
    decreases |windows|
  {
    if windows != [] {
      var init := windows[..|windows| - 1];
      var w := windows[|windows| - 1];
      RunAccounts(libs, network, s, init);
      var m := Run(libs, network, s, init);
      StepOutcome(libs, network, m, w);
      StepCounts(libs, network, m, w);
      var a := Run(libs, network, s, windows);
      assert a == Step(libs, network, m, w);
      assert a.tally.errors[..|m.tally.errors|] == m.tally.errors;
      assert m.tally.errors[..|s.tally.errors|] == s.tally.errors;
      assert a.tally.errors[..|s.tally.errors|] == m.tally.errors[..|s.tally.errors|];
      forall v | v in a.ledger && v !in s.ledger
        ensures v in windows && !Fails(network(v))
      {
        if v in m.ledger {
          assert v in init;
        } else {
          assert v == w;
        }
      }
    }
  }

  /** Fetching again windows that are all cached changes neither table and
      counts every window as skipped. */
  lemma {:induction false} RefetchSkipsAll(libs: Libs, network: ((string, string)) -> WindowReply, s: Snapshot, windows: seq<(string, string)>)
    requires forall w :: w in windows ==> w in s.ledger
    ensures
      var a := Run(libs, network, s, windows);
      && a.entries == s.entries && a.ledger == s.ledger
      && a.tally.skippedWindows == s.tally.skippedWindows + |windows|
      && a.tally.completedWindows == s.tally.completedWindows + |windows|
      && a.tally.errors == s.tally.errors
    decreases |windows|
  {
    if windows != [] {
      var init := windows[..|windows| - 1];
      assert forall w :: w in init ==> w in windows;
      RefetchSkipsAll(libs, network, s, init);
      assert windows[|windows| - 1] in windows;
    }
  }

  /** `FetchProgress` */
  class FetchProgress {
    var totalWindows: int
    var completedWindows: int
    var skippedWindows: int
    var totalFiles: int
    var totalEntries: int
    var newEntries: int
    var errors: seq<string>

    constructor (totalWindows: int)
      ensures Values() == Tally(totalWindows, 0, 0, 0, 0, 0, [])
    {
      this.totalWindows := totalWindows;
      completedWindows := 0;
      skippedWindows := 0;
      totalFiles := 0;
      totalEntries := 0;
      newEntries := 0;
      errors := [];
    }

    function Values(): Tally
      reads this
    {
      Tally(totalWindows, completedWindows, skippedWindows, totalFiles, totalEntries, newEntries, errors)
    }
  }

  /** One pass of the loop, on the cache and the progress object. */
  method FetchWindow(
    libs: Libs, network: ((string, string)) -> WindowReply, cache: LogCache, progress: FetchProgress, w: (string, string))
    requires cache.Valid() && libs.LoadsInvertsDumps()
    modifies cache, progress
    ensures cache.Valid()
    ensures Snapshot(cache.entries, cache.windows, progress.Values())
      == Step(libs, network, Snapshot(old(cache.entries), old(cache.windows), old(progress.Values())), w)
  {
    var fetched := cache.IsWindowFetched(w.0, w.1);
    if fetched {
      progress.skippedWindows := progress.skippedWindows + 1;
      progress.completedWindows := progress.completedWindows + 1;
      return;
    }
    var reply := network(w);
    if reply.LocationsFailed? {
      progress.errors := progress.errors + [LocationError(w.0, reply.reason)];
      return;
    }
    var locations := reply.locations;
    progress.totalFiles := progress.totalFiles + |locations|;
    if locations == [] {
      var none := cache.StoreWindow(libs, w.0, w.1, [], 0);
      progress.completedWindows := progress.completedWindows + 1;
      return;
    }
    if reply.download.DownloadFailed? {
      progress.errors := progress.errors + [DownloadError(w.0, reply.download.reason)];
      return;
    }
    StoreDownloaded(libs, cache, progress, w, |locations|, reply.download.files);
    StepDownloaded(libs, network, Snapshot(old(cache.entries), old(cache.windows), old(progress.Values())), w);
  }

  /** The last part of a pass: parse the downloaded files, store the entries
      and the window, and count them. */
  method StoreDownloaded(libs: Libs, cache: LogCache, progress: FetchProgress, w: (string, string), fileCount: int, files: seq<Bytes>)
    requires cache.Valid() && libs.LoadsInvertsDumps()
    modifies cache, progress
    ensures cache.Valid()
    ensures
      var parsed := LogFilesEntries(libs, files);
      var stored := StoreAll(libs, old(cache.entries), w.0, Raws(parsed));
      var t := old(progress.Values());
      && cache.entries == stored
      && cache.windows == old(cache.windows)[w := WindowRow(fileCount, |parsed|)]
      && progress.Values() == t.(totalEntries := t.totalEntries + |parsed|,
                                 newEntries := t.newEntries + (|stored| - |old(cache.entries)|),
                                 completedWindows := t.completedWindows + 1)
  {
    var entries := ParseLogFiles(libs, files);
    ParsedAreDicts(libs, files);
    progress.totalEntries := progress.totalEntries + |entries|;
    var newCount := cache.StoreWindow(libs, w.0, w.1, entries, fileCount);
    progress.newEntries := progress.newEntries + newCount;
    progress.completedWindows := progress.completedWindows + 1;
  }

  /** What `StoreWindow` asks of its batch, for the entries the parser
      returns. */
  lemma ParsedAreDicts(libs: Libs, files: seq<Bytes>)
    requires libs.LoadsInvertsDumps()
    ensures var batch := LogFilesEntries(libs, files);
      forall i :: 0 <= i < |batch| && libs.loads(batch[i].rawJson).Some? ==> libs.loads(batch[i].rawJson).value.JObj?
  {
    EntriesDecodeToDicts(libs, files);
  }

  lemma StepDownloaded(libs: Libs, network: ((string, string)) -> WindowReply, s: Snapshot, w: (string, string))
    requires w !in s.ledger && network(w).Located? && network(w).locations != [] && network(w).download.Downloaded?
    ensures
      var locations := network(w).locations;
      var parsed := LogFilesEntries(libs, network(w).download.files);
      var stored := StoreAll(libs, s.entries, w.0, Raws(parsed));
      var t := s.tally;
      Step(libs, network, s, w) == Snapshot(
        stored,
        s.ledger[w := WindowRow(|locations|, |parsed|)],
        t.(totalFiles := t.totalFiles + |locations|,
           totalEntries := t.totalEntries + |parsed|,
           newEntries := t.newEntries + (|stored| - |s.entries|),
           completedWindows := t.completedWindows + 1))
  {
  }

  /** `fetch_audit_logs(settings, cache, start, end, progress)`: plan the
      windows, reset `total_windows` to their number, and run the loop.
      Passing a fresh `FetchProgress` stands for the call without one. */
  method FetchAuditLogs(
    libs: Libs, fmt: int -> string, network: ((string, string)) -> WindowReply,
    cache: LogCache, progress: FetchProgress, start: int, end: int)
    returns (ghost windows: seq<(string, string)>)
    requires cache.Valid() && libs.LoadsInvertsDumps()
    modifies cache, progress
    ensures windows == Formatted(fmt, Plan(start, end))
    ensures cache.Valid()
    ensures Snapshot(cache.entries, cache.windows, progress.Values())
      == Run(libs, network, Snapshot(old(cache.entries), old(cache.windows), old(progress.Values()).(totalWindows := |windows|)), windows)
  {
    var planned := GenerateWindows(fmt, start, end);
    windows := planned;
    progress.totalWindows := |planned|;
    ghost var init := Snapshot(cache.entries, cache.windows, progress.Values());
    var k := 0;
    while k < |planned|
      invariant 0 <= k <= |planned|
      invariant cache.Valid()
      invariant Snapshot(cache.entries, cache.windows, progress.Values()) == Run(libs, network, init, planned[..k])
    {
      assert planned[..k + 1][..k] == planned[..k];
      FetchWindow(libs, network, cache, progress, planned[k]);
      k := k + 1;
    }
    assert planned[..k] == planned;
  }
}
