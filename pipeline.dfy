/**
  One run of the meteorological update for a selected site file: the early
  exits, the key derivation, one request per date, the consumption of the
  finished requests, the extraction, the batch update and the save.
*/
module Pipeline {
  import opened Wrappers
  import opened Timestamps
  import opened Records
  import opened Registry
  import opened Events
  import opened Fetching
  import opened Extraction
  import opened Frames

  /** How a run ends. */
  datatype Outcome =
    | FileMissing              // the site file does not exist
    | NoCoordinates            // no registry row has the site's file name
    | BadTimestamp(text: string) // `parse_date` raised on this `local_time`
    | NoRows                   // the file has no rows: the `.dt` accessor raises on the empty column
    | BadResponse(date: string)  // the table of this date's body could not be read
    | Saved                    // the updated table was written back

  /** `os.path.basename`: the part of `path` after its last `/`. */
  function Basename(path: string): (r: string)
    ensures '/' !in r
    ensures |r| <= |path| && r == path[|path| - |r|..]
    ensures r != path ==> path[|path| - |r| - 1] == '/'
    decreases |path|
  {
    if path == [] then []
    else if path[|path| - 1] == '/' then []
    else
      var init := path[..|path| - 1];
      var r := Basename(init) + [path[|path| - 1]];
      assert path == init + [path[|path| - 1]];
      SuffixExtend(init, path[|path| - 1], Basename(init));
      r
  }

  lemma SuffixExtend(init: string, c: char, b: string)
    requires |b| <= |init| && b == init[|init| - |b|..]
    ensures b + [c] == (init + [c])[|init| - |b|..]
  {
  }

  /** The `date` column. */
  function DatesOf(keys: seq<Key>): (r: seq<string>)
    ensures |r| == |keys| && forall i :: 0 <= i < |keys| ==> r[i] == keys[i].date
  {
    seq(|keys|, i requires 0 <= i < |keys| => keys[i].date)
  }

  /** The requests in the order they finished, each with what `fetch_api_data` returned for it. */
  function Completions(order: seq<Request>, respond: Request -> Option<Body>): (c: seq<Completion>)
    ensures |c| == |order| && forall i :: 0 <= i < |c| ==> c[i] == Completion(order[i].start, respond(order[i]))
  {
    seq(|order|, i requires 0 <= i < |order| => Completion(order[i].start, respond(order[i])))
  }

  /** The messages queued after a successful save. */
  function Finale(file: string): seq<Event> {
    [ShowStatus(Updated(file)), SetProgress(Hundred), SuccessBox(file), Refresh(Table), Refresh(Checkboxes)]
  }

  // ---- one request per date ----

  /** There is one request per distinct date key, none twice, and each is a one-day range at the site. */
  lemma RequestsPerDate(at: Coordinates, dates: seq<string>)
    ensures Distinct(RequestsFor(at, Unique(dates)))
    ensures |RequestsFor(at, Unique(dates))| == |set d | d in dates|
    ensures forall r :: r in RequestsFor(at, Unique(dates)) <==> r.at == at && r.start == r.end && r.start in dates
  {
    var u := Unique(dates);
    var rs := RequestsFor(at, u);
    UniqueCount(dates);
    forall r ensures r in rs <==> r.at == at && r.start == r.end && r.start in dates {
      if r in rs {
        var i :| 0 <= i < |rs| && rs[i] == r;
        assert r == Request(at, u[i], u[i]);
      }
      if r.at == at && r.start == r.end && r.start in dates {
        var i :| 0 <= i < |u| && u[i] == r.start;
        assert rs[i] == r;
      }
    }
  }

  /** Rows whose timestamps fall on the same calendar day give a single request. */
  lemma SameDayOneRequest(at: Coordinates, first: DateTime, second: DateTime)
    requires Valid(first) && Valid(second)
    requires first.year == second.year && first.month == second.month && first.day == second.day
    ensures RequestsFor(at, Unique(DatesOf(KeysOf([first, second])))) == [Request(at, DateKey(first), DateKey(first))]
  {
    DateKeyExactly(first, second);
    var dates := DatesOf(KeysOf([first, second]));
    assert dates == [DateKey(first), DateKey(first)];
    assert dates[..1][..0] == [];
    assert Unique(dates[..1]) == [DateKey(first)];
  }

  /** Two rows on `01/03/2023` give a single request, for `20230301`. */
  lemma ExampleOneRequest(at: Coordinates, s: string, key: string, first: DateTime, second: DateTime)
    requires s == "01/03/2023 05:00" && key == "20230301" && Parse(Text(s)) == Ok(first)
    requires Valid(second) && second.year == 2023 && second.month == 3 && second.day == 1
    ensures RequestsFor(at, Unique(DatesOf(KeysOf([first, second])))) == [Request(at, key, key)]
  {
    ParsesDayFirstExample(s, DateTime(2023, 3, 1, 5, 0, 0));
    SameDayOneRequest(at, first, second);
  }

  // ---- the completion order ----

  lemma {:induction false} DistinctCount<T>(s: seq<T>, x: T)
    requires Distinct(s)
    ensures multiset(s)[x] <= 1
    decreases |s|
  {
    if s != [] {
      var init := s[..|s| - 1];
      assert s == init + [s[|s| - 1]];
      DistinctCount(init, x);
      if s[|s| - 1] == x {
        assert x !in init;
      }
    }
  }

  /** A reordering of a sequence without repeats has no repeats. */
  lemma PermutationDistinct<T>(a: seq<T>, b: seq<T>)
    requires multiset(a) == multiset(b) && Distinct(a)
    ensures Distinct(b)
  {
    forall i, j | 0 <= i < j < |b| ensures b[i] != b[j] {
      DistinctCount(a, b[i]);
      RepeatCount(b, i, j);
    }
  }

  lemma RepeatCount<T>(b: seq<T>, i: int, j: int)
    requires 0 <= i < j < |b|
    ensures b[i] == b[j] ==> multiset(b)[b[i]] >= 2
  {
    assert b == b[..i] + [b[i]] + b[i + 1..j] + [b[j]] + b[j + 1..];
  }

  /** Whatever order the requests finish in, each date finishes once. */
  lemma CompletionDatesDistinct(at: Coordinates, dates: seq<string>, order: seq<Request>, respond: Request -> Option<Body>)
    requires multiset(order) == multiset(RequestsFor(at, Unique(dates)))
    ensures DistinctDates(Completions(order, respond))
  {
    var rs := RequestsFor(at, Unique(dates));
    RequestsPerDate(at, dates);
    PermutationDistinct(rs, order);
    var c := Completions(order, respond);
    forall i, j | 0 <= i < j < |c| ensures c[i].date != c[j].date {
      assert order[i] in multiset(rs) && order[j] in multiset(rs);
      assert order[i] in rs && order[j] in rs;
    }
  }

  lemma CompletionsMember(order: seq<Request>, respond: Request -> Option<Body>, x: Completion)
    ensures x in Completions(order, respond) <==> exists r :: r in order && x == Completion(r.start, respond(r))
  {
    var c := Completions(order, respond);
    if exists r :: r in order && x == Completion(r.start, respond(r)) {
      var r :| r in order && x == Completion(r.start, respond(r));
      var i :| 0 <= i < |order| && order[i] == r;
      assert c[i] == x;
    }
  }

  lemma TablesMember(rs: seq<Response>, d: DayTable)
    requires Tables(rs).Ok?
    ensures d in Tables(rs).value <==> exists r :: r in rs && r.body.table.Some? && d == DayTable(r.date, r.body.table.value)
  {
    var days := Tables(rs).value;
    if exists r :: r in rs && r.body.table.Some? && d == DayTable(r.date, r.body.table.value) {
      var r :| r in rs && r.body.table.Some? && d == DayTable(r.date, r.body.table.value);
      var i :| 0 <= i < |rs| && rs[i] == r;
      assert days[i] == d;
    }
  }

  lemma TablesDistinct(rs: seq<Response>)
    requires Tables(rs).Ok? && DistinctResponseDates(rs)
    ensures DistinctDays(Tables(rs).value)
  {
  }

  /**
    The kept responses depend on which requests finished with which body, not
    on the order they finished in: whether every table can be read is the same,
    and the merged table is the same.
  */
  lemma CompletionOrderFree(rows: seq<Row>, keys: seq<Key>, at: Coordinates, dates: seq<string>,
                            respond: Request -> Option<Body>, order1: seq<Request>, order2: seq<Request>)
    requires |keys| == |rows|
    requires multiset(order1) == multiset(RequestsFor(at, Unique(dates)))
    requires multiset(order2) == multiset(RequestsFor(at, Unique(dates)))
    ensures var kept1 := Successful(Completions(order1, respond));
            var kept2 := Successful(Completions(order2, respond));
            && (Extracted(kept1).Ok? <==> Extracted(kept2).Ok?)
            && (Extracted(kept1).Ok? ==> Merged(rows, keys, Extracted(kept1).value) == Merged(rows, keys, Extracted(kept2).value))
  {
    var c1 := Completions(order1, respond);
    var c2 := Completions(order2, respond);
    var kept1 := Successful(c1);
    var kept2 := Successful(c2);
    forall x ensures x in c1 <==> x in c2 {
      CompletionsMember(order1, respond, x);
      CompletionsMember(order2, respond, x);
      assert forall r :: r in order1 <==> r in order2 by {
        assert forall r :: r in order1 <==> r in multiset(order1);
        assert forall r :: r in order2 <==> r in multiset(order2);
      }
    }
    forall r ensures r in kept1 <==> r in kept2 {
      SuccessfulMember(c1, r);
      SuccessfulMember(c2, r);
    }
    CompletionDatesDistinct(at, dates, order1, respond);
    CompletionDatesDistinct(at, dates, order2, respond);
    SuccessfulDistinct(c1);
    SuccessfulDistinct(c2);
    assert Tables(kept1).Ok? <==> Tables(kept2).Ok? by {
      assert Tables(kept1).Ok? <==> forall r :: r in kept1 ==> r.body.table.Some?;
      assert Tables(kept2).Ok? <==> forall r :: r in kept2 ==> r.body.table.Some?;
    }
    if Tables(kept1).Ok? {
      var days1 := Tables(kept1).value;
      var days2 := Tables(kept2).value;
      forall d ensures d in days1 <==> d in days2 {
        TablesMember(kept1, d);
        TablesMember(kept2, d);
      }
      TablesDistinct(kept1);
      TablesDistinct(kept2);
      MergedOrderFree(rows, keys, days1, days2);
    }
  }

  // ---- progress ----

  /** The events of a run that reached the fetch: progress 0, the fetch log, and the finale if saved. */
  function FetchRunEvents(site: string, file: string, c: seq<Completion>, saved: bool): seq<Event> {
    [ShowStatus(ProcessingSite(site)), SetProgress(Zero)] + FetchLog(site, c, |c|) + [ShowStatus(Matching)]
    + (if saved then Finale(file) else [])
  }

  /** The progress values of a run: 0, one step per finished request, then 100 if saved. */
  function ProgressShape(n: nat, saved: bool): seq<Progress> {
    [Zero] + Steps(n, n) + (if saved then [Hundred] else [])
  }

  /**
    The progress bar of a run that reached the fetch shows 0, then one step
    per finished request up to `total / total`, then 100 once saved, and never
    moves backwards.
  */
  lemma RunProgress(site: string, file: string, c: seq<Completion>, saved: bool)
    ensures ProgressOf(FetchRunEvents(site, file, c, saved)) == ProgressShape(|c|, saved)
    ensures NonDecreasing(ProgressOf(FetchRunEvents(site, file, c, saved)))
  {
    var head: seq<Event> := [ShowStatus(ProcessingSite(site)), SetProgress(Zero)];
    var log := FetchLog(site, c, |c|);
    var tail: seq<Event> := [ShowStatus(Matching)] + (if saved then Finale(file) else []);
    assert FetchRunEvents(site, file, c, saved) == head + log + tail;
    ProgressOfAppend(head + log, tail);
    ProgressOfAppend(head, log);
    HeadProgress(site);
    FetchLogProgress(site, c, |c|);
    TailProgress(file, saved);
    ShapeNonDecreasing(|c|, saved);
  }

  lemma HeadProgress(site: string)
    ensures ProgressOf([ShowStatus(ProcessingSite(site)), SetProgress(Zero)]) == [Zero]
  {
    ProgressOfAppend([ShowStatus(ProcessingSite(site))], [SetProgress(Zero)]);
    NoProgress([ShowStatus(ProcessingSite(site))]);
    assert [SetProgress(Zero)][..0] == [];
    assert [ShowStatus(ProcessingSite(site)), SetProgress(Zero)] == [ShowStatus(ProcessingSite(site))] + [SetProgress(Zero)];
  }

  lemma TailProgress(file: string, saved: bool)
    ensures ProgressOf([ShowStatus(Matching)] + (if saved then Finale(file) else [])) == if saved then [Hundred] else []
  {
    var tail: seq<Event> := [ShowStatus(Matching)] + (if saved then Finale(file) else []);
    if saved {
      var before: seq<Event> := [ShowStatus(Matching), ShowStatus(Updated(file))];
      var after: seq<Event> := [SuccessBox(file), Refresh(Table), Refresh(Checkboxes)];
      assert tail == before + [SetProgress(Hundred)] + after;
      ProgressOfAppend(before + [SetProgress(Hundred)], after);
      ProgressOfAppend(before, [SetProgress(Hundred)]);
      NoProgress(before);
      NoProgress(after);
      assert [SetProgress(Hundred)][..0] == [];
    } else {
      NoProgress(tail);
    }
  }

  lemma ShapeNonDecreasing(n: nat, saved: bool)
    ensures NonDecreasing(ProgressShape(n, saved))
  {
    var ps := ProgressShape(n, saved);
    var st := Steps(n, n);
    assert |ps| == n + 1 + (if saved then 1 else 0);
    assert ps[0] == Zero;
    assert forall i :: 1 <= i <= n ==> ps[i] == st[i - 1];
    assert saved ==> ps[n + 1] == Hundred;
    forall i, j | 0 <= i < j < |ps| ensures AtMost(ps[i], ps[j]) {
      if i > 0 && j <= n {
        assert ps[i] == Step(i, n) && ps[j] == Step(j, n);
      }
    }
  }

  lemma {:induction false} NoProgress(events: seq<Event>)
    requires forall i :: 0 <= i < |events| ==> !events[i].SetProgress?
    ensures ProgressOf(events) == []
    decreases |events|
  {
    if events != [] {
      NoProgress(events[..|events| - 1]);
    }
  }

  // ---- the run ----

  /**
    `fetch_and_update_data` for `selectedFile`. The site file's content is
    `siteFile` (None if it does not exist) and the registry is `registry`.
    The network is `respond`, what `fetch_api_data` returns for a request,
    and `complete` is the order the requests finish in, any reordering of
    them. The result is how the run ends, the requests submitted, the
    messages queued and the table written back, if any.
  */
  method Run(selectedFile: string, siteFile: Option<seq<Row>>, registry: seq<SiteEntry>,
             respond: Request -> Option<Body>, complete: seq<Request> -> seq<Request>)
    returns (outcome: Outcome, requests: seq<Request>, events: seq<Event>, written: Option<seq<Row>>)
    requires siteFile.Some? ==> forall i :: 0 <= i < |siteFile.value| ==> Sound(siteFile.value[i].localTime)
    requires forall rs :: multiset(complete(rs)) == multiset(rs)
    ensures siteFile.None? ==> outcome == FileMissing && requests == [] && written == None
                               && events == [ShowStatus(FileNotFound(selectedFile))]
    ensures siteFile.Some? && Lookup(registry, Basename(selectedFile)).None? ==>
              && outcome == NoCoordinates && requests == [] && written == None
              && events == [ShowStatus(ProcessingSite(Basename(selectedFile))), ShowStatus(CoordinatesNotFound(Basename(selectedFile)))]
    ensures siteFile.Some? && Lookup(registry, Basename(selectedFile)).Some? && ParseAll(siteFile.value).Err? ==>
              && outcome == BadTimestamp(ParseAll(siteFile.value).error) && requests == [] && written == None
              && events == [ShowStatus(ProcessingSite(Basename(selectedFile)))]
    ensures siteFile == Some([]) && Lookup(registry, Basename(selectedFile)).Some? ==>
              && outcome == NoRows && requests == [] && written == None
              && events == [ShowStatus(ProcessingSite(Basename(selectedFile)))]
    ensures siteFile.Some? && siteFile.value != [] && Lookup(registry, Basename(selectedFile)).Some? && ParseAll(siteFile.value).Ok? ==>
              var rows, dts := siteFile.value, ParseAll(siteFile.value).value;
              var at := Lookup(registry, Basename(selectedFile)).value;
              && (forall i :: 0 <= i < |dts| ==> Valid(dts[i]))
              && requests == RequestsFor(at, Unique(DatesOf(KeysOf(dts))))
              && var completed := Completions(complete(requests), respond);
                 && events == FetchRunEvents(Basename(selectedFile), selectedFile, completed, outcome == Saved)
                 && match Extracted(Successful(completed))
                    case Err(date) => outcome == BadResponse(date) && written == None
                    case Ok(updates) => outcome == Saved && written == Some(Merged(Stamped(rows, dts), KeysOf(dts), updates))
  {
    requests, events, written := [], [], None;
    if siteFile.None? {
      events := [ShowStatus(FileNotFound(selectedFile))];
      return FileMissing, requests, events, written;
    }
    var site := Basename(selectedFile);
    var found := Lookup(registry, site);
    if found.None? {
      events := [ShowStatus(ProcessingSite(site)), ShowStatus(CoordinatesNotFound(site))];
      return NoCoordinates, requests, events, written;
    }
    outcome, requests, events, written := ProcessFrame(siteFile.value, selectedFile, site, found.value, respond, complete);
  }

  /**
    The part of the run after the coordinate lookup, on the table `rows` read
    from the site file: the key derivation, the two early exits it can lead
    to, then the fetch and merge. `events` start with the "processing"
    status, queued before the lookup.
  */
  method ProcessFrame(rows: seq<Row>, file: string, site: string, at: Coordinates,
                      respond: Request -> Option<Body>, complete: seq<Request> -> seq<Request>)
    returns (outcome: Outcome, requests: seq<Request>, events: seq<Event>, written: Option<seq<Row>>)
    requires forall i :: 0 <= i < |rows| ==> Sound(rows[i].localTime)
    requires forall rs :: multiset(complete(rs)) == multiset(rs)
    ensures ParseAll(rows).Err? ==>
              && outcome == BadTimestamp(ParseAll(rows).error) && requests == [] && written == None
              && events == [ShowStatus(ProcessingSite(site))]
    ensures rows == [] ==>
              outcome == NoRows && requests == [] && events == [ShowStatus(ProcessingSite(site))] && written == None
    ensures rows != [] && ParseAll(rows).Ok? ==>
              var dts := ParseAll(rows).value;
              && (forall i :: 0 <= i < |dts| ==> Valid(dts[i]))
              && requests == RequestsFor(at, Unique(DatesOf(KeysOf(dts))))
              && var completed := Completions(complete(requests), respond);
                 && events == FetchRunEvents(site, file, completed, outcome == Saved)
                 && match Extracted(Successful(completed))
                    case Err(date) => outcome == BadResponse(date) && written == None
                    case Ok(updates) => outcome == Saved && written == Some(Merged(Stamped(rows, dts), KeysOf(dts), updates))
  {
    requests, events, written := [], [ShowStatus(ProcessingSite(site))], None;
    var frame := new SiteFrame(rows);
    var parsed := frame.DeriveKeys();
    if parsed.Err? {
      return BadTimestamp(parsed.error), requests, events, written;
    }
    if frame.rows.Length == 0 {
      return NoRows, requests, events, written;
    }
    outcome, requests, events, written := FetchAndMerge(frame, file, site, at, respond, complete);
  }

  /**
    The part of the run after the key derivation: one request per date, the
    consumption of the finished requests, the extraction, the batch update,
    the column drop and the save. `events` are all the messages of the run.
  */
  method FetchAndMerge(frame: SiteFrame, file: string, site: string, at: Coordinates,
                       respond: Request -> Option<Body>, complete: seq<Request> -> seq<Request>)
    returns (outcome: Outcome, requests: seq<Request>, events: seq<Event>, written: Option<seq<Row>>)
    requires frame.Keyed()
    requires forall rs :: multiset(complete(rs)) == multiset(rs)
    modifies frame, frame.rows
    ensures requests == RequestsFor(at, Unique(DatesOf(old(frame.keys))))
    ensures var completed := Completions(complete(requests), respond);
            && events == FetchRunEvents(site, file, completed, outcome == Saved)
            && match Extracted(Successful(completed))
               case Err(date) => outcome == BadResponse(date) && written == None
               case Ok(updates) => outcome == Saved && written == Some(Merged(old(frame.rows[..]), old(frame.keys), updates))
  {
    written := None;
    ghost var before, keys := frame.rows[..], frame.keys;
    var dates := Unique(DatesOf(frame.keys));
    requests := RequestsFor(at, dates);
    var completed := Completions(complete(requests), respond);
    var kept, log := CollectResponses(site, completed);
    events := [ShowStatus(ProcessingSite(site)), SetProgress(Zero)] + log + [ShowStatus(Matching)];
    var updates := ExtractUpdates(kept);
    if updates.Err? {
      outcome := BadResponse(updates.error);
      assert events + [] == events;
      return;
    }
    frame.Merge(updates.value);
    frame.DropKeys();
    written := Some(frame.rows[..]);
    assert written == Some(Merged(before, keys, updates.value));
    events := events + Finale(file);
    outcome := Saved;
  }
}
