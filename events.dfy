/**
  The messages the update puts on the GUI queue: status-label texts, progress
  bar values, the final message box and the refresh callbacks. The queue is
  first-in first-out, so a sequence of events is what the GUI sees, in order.
*/
module Events {

  /** The status-label texts, one constructor per message the update composes. */
  datatype Status =
    | FileNotFound(file: string)              // "File {file} not found."
    | ProcessingSite(site: string)            // "Processing site: {site}"
    | CoordinatesNotFound(site: string)       // "Coordinates for site {site} not found."
    | FetchFailed(site: string, date: string) // "Failed to fetch data for {site} on {date}"
    | Fetched(date: string, step: nat, total: nat) // "Fetched data for date: {date} ({step}/{total})"
    | Matching                                // "Processing fetched data: Matching hourly records."
    | Updated(file: string)                   // "Updated data for {file}"

  /** A progress-bar value: 0, `done / total * 100`, or 100. */
  datatype Progress = Zero | Step(done: nat, total: nat) | Hundred

  datatype View = Table | Checkboxes

  datatype Event =
    | ShowStatus(status: Status)
    | SetProgress(progress: Progress)
    | SuccessBox(file: string)
    | Refresh(view: View)

  /** The progress values among `events`, in order. */
  function ProgressOf(events: seq<Event>): seq<Progress>
    decreases |events|
  {
    if events == [] then []
    else ProgressOf(events[..|events| - 1])
         + (match events[|events| - 1] case SetProgress(p) => [p] case _ => [])
  }

  /** The dates of the "Fetched data for date" messages among `events`, in order. */
  function FetchedOf(events: seq<Event>): seq<string>
    decreases |events|
  {
    if events == [] then []
    else FetchedOf(events[..|events| - 1])
         + (match events[|events| - 1] case ShowStatus(Fetched(d, _, _)) => [d] case _ => [])
  }

  lemma {:induction false} ProgressOfAppend(a: seq<Event>, b: seq<Event>)
    ensures ProgressOf(a + b) == ProgressOf(a) + ProgressOf(b)
    decreases |b|
  {
    if b == [] {
      assert a + b == a;
    } else {
      assert (a + b)[..|a + b| - 1] == a + b[..|b| - 1];
      ProgressOfAppend(a, b[..|b| - 1]);
    }
  }

  lemma {:induction false} FetchedOfAppend(a: seq<Event>, b: seq<Event>)
    ensures FetchedOf(a + b) == FetchedOf(a) + FetchedOf(b)
    decreases |b|
  {
    if b == [] {
      assert a + b == a;
    } else {
      assert (a + b)[..|a + b| - 1] == a + b[..|b| - 1];
      FetchedOfAppend(a, b[..|b| - 1]);
    }
  }

  /** `p` shows no more progress than `q`. */
  predicate AtMost(p: Progress, q: Progress) {
    match (p, q)
    case (Zero, _) => true
    case (Step(a, t), Step(b, u)) => t == u && a <= b
    case (Step(_, _), Hundred) => true
    case (Hundred, Hundred) => true
    case _ => false
  }

  /** The progress values `1 / total, 2 / total, ..., n / total`. */
  function Steps(n: nat, total: nat): (r: seq<Progress>)
    ensures |r| == n && forall i :: 0 <= i < n ==> r[i] == Step(i + 1, total)
  {
    if n == 0 then [] else Steps(n - 1, total) + [Step(n, total)]
  }

  /** The progress bar never moves backwards and never passes 100%. */
  predicate NonDecreasing(ps: seq<Progress>) {
    && (forall i :: 0 <= i < |ps| && ps[i].Step? ==> ps[i].done <= ps[i].total)
    && (forall i, j :: 0 <= i < j < |ps| ==> AtMost(ps[i], ps[j]))
  }
}
