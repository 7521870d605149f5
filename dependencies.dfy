/**
 * The driver downloader: for every browser installed on the machine it reads
 * the browser's version, looks the major version up in `row_in_list` and
 * runs the matching download command from the per-driver, per-OS list of
 * commands.  The list alternates a comment line and a command line, newest
 * release first, and is indexed from the end, so releases added at the front
 * leave every index in the table valid.
 *
 * The browser probes are the map `installed` from application name to full
 * version string (a name is absent when the browser is not installed), and
 * the command lists are the map `downloads`; the shell and the console are
 * recorded as events.  The row table is a parameter `table` of the
 * operations, so that what they do with a row is proved for any table whose
 * offsets count from the end; the program's own table is `RowInList`.
 */
module Dependencies {
  import opened Common
  import opened PyStr
  import opened RowTable

  /** `APPLICATION_NAME[os]`: the drivers set up on `os`, in declared order, each with its browser's application name. */
  function ApplicationName(os: Os): (names: seq<(Browser, string)>)
    ensures forall i, j :: 0 <= i < j < |names| ==> Rank(names[i].0) < Rank(names[j].0)
    ensures os == Linux ==> forall i :: 0 <= i < |names| ==> names[i].1 == ""
  {
    match os
    case MacOS =>
      [(Firefox, "Firefox"), (Opera, "Opera"), (Chrome, "Google Chrome"), (Brave, "Brave Browser"), (Edge, "Microsoft Edge")]
    case Linux =>
      [(Firefox, ""), (Opera, ""), (Chrome, "")]
    case Windows =>
      [(Firefox, "Mozilla Firefox"), (Opera, "Opera"), (Chrome, "Chrome"), (Brave, "Brave-Browser"), (Edge, "Edge")]
  }

  /** The keys of `APPLICATION_NAME[os]`, in the order a `for` loop over the dictionary visits them. */
  function Drivers(os: Os): (ds: seq<Browser>)
    ensures |ds| == |ApplicationName(os)|
    ensures forall i :: 0 <= i < |ds| ==> ds[i] == ApplicationName(os)[i].0
    ensures os == Linux ==> ds == [Firefox, Opera, Chrome]
    ensures os != Linux ==> ds == [Firefox, Opera, Chrome, Brave, Edge]
  {
    seq(|ApplicationName(os)|, i requires 0 <= i < |ApplicationName(os)| => ApplicationName(os)[i].0)
  }

  /** `names[d]` on a dictionary written as its list of entries, or `None` where Python raises `KeyError`. */
  function Lookup(names: seq<(Browser, string)>, d: Browser): (name: Option<string>)
    ensures name.Some? <==> exists i :: 0 <= i < |names| && names[i].0 == d
    ensures name.Some? ==> exists i :: 0 <= i < |names| && names[i] == (d, name.value)
  {
    if names == [] then None
    else if names[0].0 == d then Some(names[0].1)
    else
      var rest := Lookup(names[1..], d);
      assert forall i :: 1 <= i < |names| ==> names[i] == names[1..][i - 1];
      assert rest.Some? ==> exists i :: 0 <= i < |names| && names[i] == (d, rest.value) by {
        if rest.Some? {
          var j :| 0 <= j < |names[1..]| && names[1..][j] == (d, rest.value);
          assert names[j + 1] == (d, rest.value);
        }
      }
      rest
  }

  /** `APPLICATION_NAME[os][d]`: the name probed for driver `d`, or `KeyError` when `os` does not set `d` up. */
  function BrowserName(os: Os, d: Browser): (name: Option<string>)
    ensures name.Some? <==> d in Drivers(os)
  {
    Lookup(ApplicationName(os), d)
  }

  /** Python's `L[i]`: a negative index counts from the end. */
  function PyIndex<T>(L: seq<T>, i: int): (r: Result<T, PyError>)
    ensures r.Success? <==> -|L| <= i < |L|
    ensures r == Failure(IndexError) <==> r.Failure?
  {
    if 0 <= i < |L| then Success(L[i])
    else if -|L| <= i < 0 then Success(L[|L| + i])
    else Failure(IndexError)
  }

  /** Entries added at the front of a list leave every negative index that was valid reading the same entry. */
  lemma PrependKeepsNegativeIndex<T>(front: seq<T>, L: seq<T>, i: int)
    requires -|L| <= i < 0
    ensures PyIndex(front + L, i) == PyIndex(L, i)
    ensures PyIndex(L, i) == Success(L[|L| + i])
  {
    assert (front + L)[|front + L| + i] == L[|L| + i];
  }

  /** `full_version_number.split('.')[0]`: the text before the first `'.'`, or all of it when there is none. */
  function MajorVersion(full: string): (major: string)
    ensures major <= full
    ensures '.' !in major
    ensures |major| < |full| ==> full[|major|] == '.'
  {
    var pieces := Split(full, ".");
    SplitFirstPrefix(full, ".");
    ContainsChar(pieces[0], '.');
    pieces[0]
  }

  /** A row table: `row_in_list[driver]` for each driver, `None` where the driver is not a key. */
  type Table = Browser -> Option<map<nat, int>>

  /** Every offset in `table` is negative, so it indexes its list from the end. */
  ghost predicate CountsFromEnd(table: Table) {
    forall d, n :: table(d).Some? && n in table(d).value ==> table(d).value[n] < 0
  }

  lemma RowInListCountsFromEnd()
    ensures CountsFromEnd(RowInList)
  {
    forall d, n | RowInList(d).Some? && n in RowInList(d).value ensures RowInList(d).value[n] < 0 {
      EntryFacts(d, n);
    }
  }

  /**
   * `row_in_list[driver][major_version]`, given `row_in_list[driver]`: the
   * lookup succeeds exactly when the driver is a key and the version string
   * is `str` of a listed version.  There is no interpolation between listed
   * versions and no other spelling (`'095'`, `'95.0'`) of a listed one.
   */
  function LookupIn(rows: Option<map<nat, int>>, major: string): (r: Result<int, PyError>)
    ensures r.Success? <==> rows.Some? && IsDecimalNumeral(major) && DecimalValue(major) in rows.value
    ensures r.Success? ==> r.value == rows.value[DecimalValue(major)]
    ensures r.Failure? ==> r.error == KeyError
  {
    match rows
    case None => Failure(KeyError)
    case Some(rows) =>
      DictKeys(rows);
      var dict := Dict(rows);
      if major in dict then Success(dict[major]) else Failure(KeyError)
  }

  /**
   * In the program's table a lookup succeeds exactly for a driver other than
   * safari and `str` of a version listed for it, and yields a negative odd
   * offset in [-75, -1].
   */
  lemma RowInListLookup(d: Browser, major: string)
    ensures LookupIn(RowInList(d), major).Success? <==> d != Safari && IsDecimalNumeral(major) && DecimalValue(major) in RowInList(d).value
    ensures LookupIn(RowInList(d), major).Success? ==> NegativeOdd(LookupIn(RowInList(d), major).value)
  {
    if LookupIn(RowInList(d), major).Success? {
      EntryFacts(d, DecimalValue(major));
    }
  }

  /** A version the table lists, written as `str` writes it, is found. */
  lemma ListedVersionIsFound(d: Browser, n: nat)
    requires d != Safari && n in RowInList(d).value
    ensures LookupIn(RowInList(d), DecimalString(n)) == Success(RowInList(d).value[n])
  {
    DecimalStringRoundTrip(n);
  }

  /** What the downloader prints to the console or hands to the shell. */
  datatype Event =
    | UpdateBanner                                    // the automated-driver-update notice
    | BrowserFound(browser: string, version: string)
    | BrowserNotFound(browser: string, os: Os)
    | DownloadHeader(driver: Browser, major: string, os: Os)
    | Echo(line: string)                              // a line printed verbatim
    | Shell(command: string)                          // `os.system(command)`

  /** The events in order, and the exception that cut the run short, if any. */
  datatype Trace = Trace(events: seq<Event>, raised: Option<PyError>)

  /** `driver_downloads_for_os[driver][user_os]`. */
  function DownloadList(downloads: map<Browser, map<Os, seq<string>>>, d: Browser, os: Os): (r: Result<seq<string>, PyError>)
    ensures r.Success? <==> d in downloads && os in downloads[d]
    ensures r.Success? ==> r.value == downloads[d][os]
    ensures r.Failure? ==> r.error == KeyError
  {
    if d in downloads && os in downloads[d] then Success(downloads[d][os]) else Failure(KeyError)
  }

  /**
   * `execute_download_command` once the row is looked up: print the header,
   * print the entry at `row - 1` followed by `' #'`, then print the entry at
   * `row` and run it.  Each step that raises ends the trace there.
   */
  function ExecuteRow(row: Result<int, PyError>, d: Browser, os: Os, major: string, downloads: map<Browser, map<Os, seq<string>>>): (t: Trace)
  {
    match row
    case Failure(e) => Trace([], Some(e))
    case Success(row) =>
      var header := [DownloadHeader(d, major, os)];
      match DownloadList(downloads, d, os)
      case Failure(e) => Trace(header, Some(e))
      case Success(L) =>
        match PyIndex(L, row - 1)
        case Failure(e) => Trace(header, Some(e))
        case Success(comment) =>
          match PyIndex(L, row)
          case Failure(e) => Trace(header + [Echo(comment + " #")], Some(e))
          case Success(command) => Trace(header + [Echo(comment + " #"), Echo(command), Shell(command)], None)
  }

  /** `execute_download_command`: the row comes from the table. */
  function ExecuteDownloadCommand(table: Table, d: Browser, os: Os, major: string, downloads: map<Browser, map<Os, seq<string>>>): (t: Trace)
  {
    ExecuteRow(LookupIn(table(d), major), d, os, major, downloads)
  }

  /**
   * For a negative row, the command runs exactly when the list holds at
   * least `|row| + 1` entries; it is then the entry `|row|` from the end,
   * and the one before it is printed as its comment.  A failed lookup
   * raises before anything is printed, a missing or short list right after
   * the header.
   */
  lemma ExecuteRowOutcome(row: Result<int, PyError>, d: Browser, os: Os, major: string, downloads: map<Browser, map<Os, seq<string>>>)
    requires row.Success? ==> row.value < 0
    ensures var t := ExecuteRow(row, d, os, major, downloads);
      && (t.raised.None? <==> row.Success? && DownloadList(downloads, d, os).Success? && 1 - row.value <= |downloads[d][os]|)
      && (t.raised.None? ==>
          var L := downloads[d][os];
          t.events == [DownloadHeader(d, major, os), Echo(L[|L| + row.value - 1] + " #"), Echo(L[|L| + row.value]), Shell(L[|L| + row.value])])
      && (row.Failure? ==> t == Trace([], Some(row.error)))
      && (row.Success? && DownloadList(downloads, d, os).Failure? ==> t == Trace([DownloadHeader(d, major, os)], Some(KeyError)))
      && (row.Success? && DownloadList(downloads, d, os).Success? && |downloads[d][os]| < 1 - row.value ==>
            t == Trace([DownloadHeader(d, major, os)], Some(IndexError)))
  {
  }

  /**
   * Prepending releases to a download list does not change which entries
   * a successful download prints and runs: the reason the table counts from
   * the end.
   */
  lemma PrependKeepsRow(row: Result<int, PyError>, d: Browser, os: Os, major: string, downloads: map<Browser, map<Os, seq<string>>>, front: seq<string>)
    requires row.Success? ==> row.value < 0
    requires ExecuteRow(row, d, os, major, downloads).raised.None?
    ensures ExecuteRow(row, d, os, major, downloads[d := downloads[d][os := front + downloads[d][os]]])
         == ExecuteRow(row, d, os, major, downloads)
  {
    ExecuteRowOutcome(row, d, os, major, downloads);
    var L := downloads[d][os];
    PrependKeepsNegativeIndex(front, L, row.value - 1);
    PrependKeepsNegativeIndex(front, L, row.value);
  }

  /**
   * For a table that counts from the end, `execute_download_command` runs a
   * command exactly when the version is found and the list holds at least
   * `|row| + 1` entries; it prints and runs the entries `|row| + 1` and
   * `|row|` from the end.  A version that is not found raises `KeyError`
   * before anything is printed.
   */
  lemma ExecuteDownloadCommandOutcome(table: Table, d: Browser, os: Os, major: string, downloads: map<Browser, map<Os, seq<string>>>)
    requires CountsFromEnd(table)
    ensures var row := LookupIn(table(d), major);
      var t := ExecuteDownloadCommand(table, d, os, major, downloads);
      && (t.raised.None? <==> row.Success? && d in downloads && os in downloads[d] && 1 - row.value <= |downloads[d][os]|)
      && (t.raised.None? ==>
          var L := downloads[d][os];
          t.events == [DownloadHeader(d, major, os), Echo(L[|L| + row.value - 1] + " #"), Echo(L[|L| + row.value]), Shell(L[|L| + row.value])])
      && (row.Failure? ==> t == Trace([], Some(KeyError)))
  {
    ExecuteRowOutcome(LookupIn(table(d), major), d, os, major, downloads);
  }

  /** Prepending releases to a download list leaves a successful download unchanged, for any table that counts from the end. */
  lemma PrependKeepsDownload(table: Table, d: Browser, os: Os, major: string, downloads: map<Browser, map<Os, seq<string>>>, front: seq<string>)
    requires CountsFromEnd(table)
    requires ExecuteDownloadCommand(table, d, os, major, downloads).raised.None?
    ensures ExecuteDownloadCommand(table, d, os, major, downloads[d := downloads[d][os := front + downloads[d][os]]])
         == ExecuteDownloadCommand(table, d, os, major, downloads)
  {
    PrependKeepsRow(LookupIn(table(d), major), d, os, major, downloads, front);
  }

  /**
   * `download_specific_dependency`: probe for the browser; when it is
   * installed, report its version and download the driver for its major
   * version.
   */
  function DownloadSpecificDependency(table: Table, d: Browser, os: Os, installed: map<string, string>, downloads: map<Browser, map<Os, seq<string>>>): (t: Trace)
  {
    match BrowserName(os, d)
    case None => Trace([], Some(KeyError))
    case Some(browser) =>
      if browser in installed then
        var full := installed[browser];
        var rest := ExecuteDownloadCommand(table, d, os, MajorVersion(full), downloads);
        Trace([BrowserFound(browser, full)] + rest.events, rest.raised)
      else
        Trace([BrowserNotFound(browser, os)], None)
  }

  /**
   * A driver of `os` whose browser is missing is only reported; one whose
   * browser is installed is downloaded for the text before the first `'.'`
   * of the browser's version.
   */
  lemma DownloadSpecificDependencyOutcome(table: Table, d: Browser, os: Os, installed: map<string, string>, downloads: map<Browser, map<Os, seq<string>>>)
    requires d in Drivers(os)
    ensures var browser := BrowserName(os, d).value;
      var t := DownloadSpecificDependency(table, d, os, installed, downloads);
      && (browser !in installed ==> t == Trace([BrowserNotFound(browser, os)], None))
      && (browser in installed ==>
            && t.events[0] == BrowserFound(browser, installed[browser])
            && t.events[1..] == ExecuteDownloadCommand(table, d, os, MajorVersion(installed[browser]), downloads).events
            && t.raised == ExecuteDownloadCommand(table, d, os, MajorVersion(installed[browser]), downloads).raised)
  {
    var t := DownloadSpecificDependency(table, d, os, installed, downloads);
    var browser := BrowserName(os, d).value;
    if browser in installed {
      var rest := ExecuteDownloadCommand(table, d, os, MajorVersion(installed[browser]), downloads);
      assert t.events == [BrowserFound(browser, installed[browser])] + rest.events;
      assert t.events[1..] == rest.events;
    }
  }

  /** Running steps in turn: the events of each step up to and including the first that raises. */
  function InTurn(steps: seq<Trace>): (t: Trace)
  {
    if steps == [] then Trace([], None)
    else if steps[0].raised.Some? then steps[0]
    else
      var rest := InTurn(steps[1..]);
      Trace(steps[0].events + rest.events, rest.raised)
  }

  /** One more step after a run that raised nothing adds its trace after the run's. */
  lemma {:induction false} InTurnSnoc(steps: seq<Trace>, last: Trace)
    requires InTurn(steps).raised.None?
    ensures InTurn(steps + [last]) == Trace(InTurn(steps).events + last.events, last.raised)
    decreases |steps|
  {
    if steps == [] {
      assert [last][1..] == [];
      assert last.events + [] == last.events;
    } else {
      assert (steps + [last])[0] == steps[0];
      assert (steps + [last])[1..] == steps[1..] + [last];
      InTurnSnoc(steps[1..], last);
      var rest := InTurn(steps[1..]);
      assert steps[0].events + rest.events + last.events == steps[0].events + (rest.events + last.events);
    }
  }

  /** A run raises nothing exactly when no step raises. */
  lemma {:induction false} InTurnRaisesNothingIff(steps: seq<Trace>)
    ensures InTurn(steps).raised.None? <==> forall i :: 0 <= i < |steps| ==> steps[i].raised.None?
    decreases |steps|
  {
    if steps != [] {
      InTurnRaisesNothingIff(steps[1..]);
      forall i | 1 <= i < |steps| ensures steps[i] == steps[1..][i - 1] {
      }
    }
  }

  /** A run stops at the first step that raises: the steps after it play no part. */
  lemma {:induction false} InTurnStopsAt(steps: seq<Trace>, i: nat)
    requires i < |steps|
    requires forall k :: 0 <= k < i ==> steps[k].raised.None?
    requires steps[i].raised.Some?
    ensures InTurn(steps) == InTurn(steps[..i + 1])
    ensures InTurn(steps).raised == steps[i].raised
    decreases i
  {
    if i > 0 {
      assert steps[..i + 1][0] == steps[0];
      assert steps[..i + 1][1..] == steps[1..][..i];
      forall k | 0 <= k < i - 1 ensures steps[1..][k].raised.None? {
        assert steps[1..][k] == steps[k + 1];
      }
      InTurnStopsAt(steps[1..], i - 1);
    } else {
      assert steps[..1][0] == steps[0];
    }
  }

  /** The trace of `download_specific_dependency` for each of `ds`, before any is cut short. */
  function DownloadSteps(table: Table, ds: seq<Browser>, os: Os, installed: map<string, string>, downloads: map<Browser, map<Os, seq<string>>>): (steps: seq<Trace>)
    ensures |steps| == |ds|
  {
    seq(|ds|, i requires 0 <= i < |ds| => DownloadSpecificDependency(table, ds[i], os, installed, downloads))
  }

  /** Taking the next step of a run that has raised nothing so far. */
  lemma InTurnNext(steps: seq<Trace>, i: nat)
    requires i < |steps|
    requires InTurn(steps[..i]).raised.None?
    ensures InTurn(steps[..i + 1]) == Trace(InTurn(steps[..i]).events + steps[i].events, steps[i].raised)
    ensures steps[i].raised.Some? ==> InTurn(steps) == InTurn(steps[..i + 1])
  {
    InTurnSnoc(steps[..i], steps[i]);
    assert steps[..i] + [steps[i]] == steps[..i + 1];
    if steps[i].raised.Some? {
      InTurnRaisesNothingIff(steps[..i]);
      assert forall k :: 0 <= k < i ==> steps[..i][k] == steps[k];
      InTurnStopsAt(steps, i);
    }
  }

  /** No step before the end of a run that raised nothing, or before the step that raised, raised. */
  lemma InTurnPrefix(steps: seq<Trace>, i: nat, k: nat)
    requires k < i <= |steps|
    requires InTurn(steps[..i]).raised.None?
    ensures steps[k].raised.None?
  {
    InTurnRaisesNothingIff(steps[..i]);
    assert steps[..i][k] == steps[k];
  }

  /** The traces of `step` on each of `ds`, before any is cut short. */
  function Steps(ds: seq<Browser>, step: Browser -> Trace): (steps: seq<Trace>)
    ensures |steps| == |ds|
    ensures forall i :: 0 <= i < |ds| ==> steps[i] == step(ds[i])
  {
    seq(|ds|, i requires 0 <= i < |ds| => step(ds[i]))
  }

  /**
   * `for driver in ds: step(driver)`: calls `step` for each of `ds` in turn,
   * an exception ending the loop.  `visited` is the drivers it was called
   * for: all of them unless one raised, in which case that one is the last.
   */
  method ForEachDriver(ds: seq<Browser>, step: Browser -> Trace) returns (body: seq<Event>, raised: Option<PyError>, visited: seq<Browser>)
    ensures Trace(body, raised) == InTurn(Steps(ds, step))
    ensures visited <= ds
    ensures raised.None? ==> visited == ds
    ensures raised.Some? ==> visited != [] && step(visited[|visited| - 1]).raised == raised
    ensures forall i :: 0 <= i < |visited| - 1 ==> step(visited[i]).raised.None?
  {
    ghost var steps := Steps(ds, step);
    body := [];
    raised := None;
    var i := 0;
    while i < |ds| && raised.None?
      invariant 0 <= i <= |ds|
      invariant raised.None? ==> Trace(body, raised) == InTurn(steps[..i])
      invariant raised.Some? ==> 0 < i && InTurn(steps[..i - 1]).raised.None? && steps[i - 1].raised == raised && Trace(body, raised) == InTurn(steps)
    {
      var t := step(ds[i]);
      InTurnNext(steps, i);
      body := body + t.events;
      raised := t.raised;
      i := i + 1;
    }
    ghost var done := if raised.None? then i else i - 1;
    if raised.None? {
      assert steps[..i] == steps;
    }
    visited := ds[..i];
    forall k | 0 <= k < done ensures step(visited[k]).raised.None? {
      InTurnPrefix(steps, done, k);
      assert visited[k] == ds[k];
    }
    if raised.Some? {
      assert visited[i - 1] == ds[i - 1];
    }
  }

  /** The trace of one `download_all_dependencies(os)` call: the banner, then the drivers in turn. */
  function DownloadAll(table: Table, os: Os, installed: map<string, string>, downloads: map<Browser, map<Os, seq<string>>>): Trace {
    var body := InTurn(DownloadSteps(table, Drivers(os), os, installed, downloads));
    Trace([UpdateBanner] + body.events, body.raised)
  }

  /**
   * `download_all_dependencies`: announce the update, then call
   * `download_specific_dependency` for each driver of `APPLICATION_NAME[os]`
   * in declared order, an exception ending the loop.
   */
  method DownloadAllDependencies(table: Table, os: Os, installed: map<string, string>, downloads: map<Browser, map<Os, seq<string>>>)
    returns (t: Trace, visited: seq<Browser>)
    ensures t == DownloadAll(table, os, installed, downloads)
    ensures |t.events| >= 1 && t.events[0] == UpdateBanner
    ensures Trace(t.events[1..], t.raised) == InTurn(DownloadSteps(table, Drivers(os), os, installed, downloads))
    ensures visited <= Drivers(os)
    ensures t.raised.None? ==> visited == Drivers(os)
    ensures t.raised.Some? ==> visited != [] && DownloadSpecificDependency(table, visited[|visited| - 1], os, installed, downloads).raised == t.raised
    ensures forall i :: 0 <= i < |visited| - 1 ==> DownloadSpecificDependency(table, visited[i], os, installed, downloads).raised.None?
  {
    var step := d => DownloadSpecificDependency(table, d, os, installed, downloads);
    var body, raised;
    body, raised, visited := ForEachDriver(Drivers(os), step);
    assert Steps(Drivers(os), step) == DownloadSteps(table, Drivers(os), os, installed, downloads);
    t := Trace([UpdateBanner] + body, raised);
    assert t.events[1..] == body;
  }
}
