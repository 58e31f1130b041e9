/**
  The fetch phase of the update: one request per distinct date key, and the
  loop that consumes the finished requests in completion order, keeping the
  non-empty bodies and reporting progress.
*/
module Fetching {
  import opened Wrappers
  import opened Registry
  import opened Records
  import opened Events

  predicate Distinct<T(==)>(s: seq<T>) {
    forall i, j :: 0 <= i < j < |s| ==> s[i] != s[j]
  }

  /** `Series.unique()`: each value once, in order of first appearance. */
  function Unique(s: seq<string>): (r: seq<string>)
    ensures Distinct(r)
    ensures forall x :: x in r <==> x in s
    ensures |r| <= |s|
    decreases |s|
  {
    if s == [] then []
    else
      var u := Unique(s[..|s| - 1]);
      assert forall x :: x in s <==> x in s[..|s| - 1] || x == s[|s| - 1];
      if s[|s| - 1] in u then u else u + [s[|s| - 1]]
  }

  lemma {:induction false} DistinctCard<T>(s: seq<T>)
    requires Distinct(s)
    ensures |set x | x in s| == |s|
    decreases |s|
  {
    if s != [] {
      var init := s[..|s| - 1];
      DistinctCard(init);
      assert (set x | x in s) == (set x | x in init) + {s[|s| - 1]};
      assert s[|s| - 1] !in (set x | x in init);
    }
  }

  /** There are exactly as many unique dates as distinct date keys. */
  lemma UniqueCount(s: seq<string>)
    ensures |Unique(s)| == |set x | x in s|
  {
    DistinctCard(Unique(s));
    assert (set x | x in Unique(s)) == (set x | x in s);
  }

  /** One API request: the site's coordinates and a one-day range `start = end = date`. */
  datatype Request = Request(at: Coordinates, start: string, end: string)

  function RequestsFor(at: Coordinates, dates: seq<string>): (r: seq<Request>)
    ensures |r| == |dates|
  {
    seq(|dates|, i requires 0 <= i < |dates| => Request(at, dates[i], dates[i]))
  }

  /** A finished request: its date and the body `fetch_api_data` returned, None on failure. */
  datatype Completion = Completion(date: string, body: Option<Body>)

  /** A kept response of `api_responses`. */
  datatype Response = Response(date: string, body: Body)

  /** `if response_text:` holds for a returned, non-empty body. */
  predicate Succeeded(body: Option<Body>) {
    body.Some? && body.value.text != ""
  }

  /** The completions whose body is kept, in completion order. */
  function Successful(c: seq<Completion>): seq<Response>
    decreases |c|
  {
    if c == [] then []
    else
      var last := c[|c| - 1];
      Successful(c[..|c| - 1]) + (if Succeeded(last.body) then [Response(last.date, last.body.value)] else [])
  }

  /** What the consumption loop queues for the `step`-th finished request (counted from 1). */
  function StepEvents(site: string, x: Completion, step: nat, total: nat): seq<Event> {
    (if Succeeded(x.body) then [] else [ShowStatus(FetchFailed(site, x.date))])
    + [SetProgress(Step(step, total)), ShowStatus(Fetched(x.date, step, total))]
  }

  /** Everything the consumption loop queues for the completions `c`. */
  function FetchLog(site: string, c: seq<Completion>, total: nat): seq<Event>
    decreases |c|
  {
    if c == [] then [] else FetchLog(site, c[..|c| - 1], total) + StepEvents(site, c[|c| - 1], |c|, total)
  }

  /**
    The `as_completed` loop: every finished request is consumed once, in
    completion order; a non-empty body is kept, any other outcome is
    reported; the step counter and a "Fetched" message follow either way.
  */
  method CollectResponses(site: string, completed: seq<Completion>) returns (responses: seq<Response>, events: seq<Event>)
    ensures responses == Successful(completed)
    ensures events == FetchLog(site, completed, |completed|)
  {
    var total := |completed|;
    responses, events := [], [];
    var step := 0;
    while step < total
      invariant 0 <= step <= total
      invariant responses == Successful(completed[..step])
      invariant events == FetchLog(site, completed[..step], total)
    {
      var x := completed[step];
      assert completed[..step + 1][..step] == completed[..step];
      if x.body.Some? && x.body.value.text != "" {
        responses := responses + [Response(x.date, x.body.value)];
      } else {
        events := events + [ShowStatus(FetchFailed(site, x.date))];
      }
      events := events + [SetProgress(Step(step + 1, total)), ShowStatus(Fetched(x.date, step + 1, total))];
      step := step + 1;
    }
    assert completed[..step] == completed;
  }

  lemma StepEventsShape(site: string, x: Completion, step: nat, total: nat, d: string)
    ensures ProgressOf(StepEvents(site, x, step, total)) == [Step(step, total)]
    ensures FetchedOf(StepEvents(site, x, step, total)) == [x.date]
    ensures ShowStatus(FetchFailed(site, d)) in StepEvents(site, x, step, total) <==> x.date == d && !Succeeded(x.body)
  {
    var fail: seq<Event> := if Succeeded(x.body) then [] else [ShowStatus(FetchFailed(site, x.date))];
    var tail: seq<Event> := [SetProgress(Step(step, total)), ShowStatus(Fetched(x.date, step, total))];
    assert StepEvents(site, x, step, total) == fail + tail;
    ProgressOfAppend(fail, tail);
    FetchedOfAppend(fail, tail);
    assert ProgressOf(fail) == [] && FetchedOf(fail) == [];
    assert tail[..1] == [SetProgress(Step(step, total))];
    assert ProgressOf(tail) == [Step(step, total)];
    assert FetchedOf(tail) == [x.date];
  }

  /** The progress bar shows steps 1, 2, ..., n of the total, one per finished request. */
  lemma {:induction false} FetchLogProgress(site: string, c: seq<Completion>, total: nat)
    ensures ProgressOf(FetchLog(site, c, total)) == Steps(|c|, total)
    decreases |c|
  {
    if c != [] {
      var init := c[..|c| - 1];
      FetchLogProgress(site, init, total);
      var x := c[|c| - 1];
      assert FetchLog(site, c, total) == FetchLog(site, init, total) + StepEvents(site, x, |c|, total);
      ProgressOfAppend(FetchLog(site, init, total), StepEvents(site, x, |c|, total));
      StepEventsShape(site, x, |c|, total, x.date);
    }
  }

  /** Each finished request gets exactly one "Fetched" message, in completion order. */
  lemma {:induction false} FetchLogFetched(site: string, c: seq<Completion>, total: nat)
    ensures FetchedOf(FetchLog(site, c, total)) == seq(|c|, i requires 0 <= i < |c| => c[i].date)
    decreases |c|
  {
    if c != [] {
      var init := c[..|c| - 1];
      FetchLogFetched(site, init, total);
      var x := c[|c| - 1];
      FetchedOfAppend(FetchLog(site, init, total), StepEvents(site, x, |c|, total));
      StepEventsShape(site, x, |c|, total, x.date);
      var want := seq(|c|, i requires 0 <= i < |c| => c[i].date);
      assert want == seq(|init|, i requires 0 <= i < |init| => init[i].date) + [x.date];
    }
  }

  /** Some request for date `d` finished without a usable body. */
  predicate FailedOn(c: seq<Completion>, d: string) {
    exists i :: 0 <= i < |c| && c[i].date == d && !Succeeded(c[i].body)
  }

  lemma FailedOnSplit(c: seq<Completion>, d: string)
    requires c != []
    ensures FailedOn(c, d) <==> FailedOn(c[..|c| - 1], d) || (c[|c| - 1].date == d && !Succeeded(c[|c| - 1].body))
  {
    var init := c[..|c| - 1];
    if FailedOn(c, d) {
      var i :| 0 <= i < |c| && c[i].date == d && !Succeeded(c[i].body);
      if i < |init| {
        assert init[i] == c[i];
      }
    }
    if FailedOn(init, d) {
      var i :| 0 <= i < |init| && init[i].date == d && !Succeeded(init[i].body);
      assert c[i] == init[i];
    }
  }

  /** A "Failed to fetch" message names a date exactly when a request for that date failed. */
  lemma {:induction false} FetchLogFailures(site: string, c: seq<Completion>, total: nat, d: string)
    ensures ShowStatus(FetchFailed(site, d)) in FetchLog(site, c, total) <==> FailedOn(c, d)
    decreases |c|
  {
    if c != [] {
      var init := c[..|c| - 1];
      FetchLogFailures(site, init, total, d);
      var x := c[|c| - 1];
      StepEventsShape(site, x, |c|, total, d);
      FailedOnSplit(c, d);
      var e := ShowStatus(FetchFailed(site, d));
      assert FetchLog(site, c, total) == FetchLog(site, init, total) + StepEvents(site, x, |c|, total);
      assert e in FetchLog(site, c, total) <==> e in FetchLog(site, init, total) || e in StepEvents(site, x, |c|, total);
    }
  }

  /** A kept response is exactly a finished request with a non-empty body. */
  lemma {:induction false} SuccessfulMember(c: seq<Completion>, r: Response)
    ensures r in Successful(c) <==> Completion(r.date, Some(r.body)) in c && r.body.text != ""
    decreases |c|
  {
    if c != [] {
      var init := c[..|c| - 1];
      SuccessfulMember(init, r);
      assert c == init + [c[|c| - 1]];
    }
  }

  /** `Distinct` on the completions' dates, kept on the fields for the solver's triggers. */
  predicate DistinctDates(c: seq<Completion>) {
    forall i, j :: 0 <= i < j < |c| ==> c[i].date != c[j].date
  }

  /** `Distinct` on the responses' dates, kept on the fields for the solver's triggers. */
  predicate DistinctResponseDates(rs: seq<Response>) {
    forall i, j :: 0 <= i < j < |rs| ==> rs[i].date != rs[j].date
  }

  /** Each date is kept at most once when each date finished once. */
  lemma {:induction false} SuccessfulDistinct(c: seq<Completion>)
    requires DistinctDates(c)
    ensures DistinctResponseDates(Successful(c))
    decreases |c|
  {
    if c != [] {
      var init := c[..|c| - 1];
      SuccessfulDistinct(init);
      var x := c[|c| - 1];
      if Succeeded(x.body) {
        var s := Successful(init);
        forall r | r in s ensures r.date != x.date {
          SuccessfulMember(init, r);
          var i :| 0 <= i < |init| && init[i] == Completion(r.date, Some(r.body));
          assert c[i] == init[i];
        }
        var t := s + [Response(x.date, x.body.value)];
        forall i, j | 0 <= i < j < |t| ensures t[i].date != t[j].date {
          if j == |s| {
            assert t[i] in s;
          } else {
            assert t[i] == s[i] && t[j] == s[j];
          }
        }
      }
    }
  }
}
