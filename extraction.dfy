/**
  Building the update dictionary from the kept responses: for every hour of
  the day that a response's `HR` column holds, the first such row gives one
  `(date, hour, value)` entry to each of the five parameter lists.
*/
module Extraction {
  import opened Wrappers
  import opened Records
  import opened Fetching

  const HOURS: nat := 24

  /** A kept response whose table could be read. */
  datatype DayTable = DayTable(date: string, table: seq<ApiRow>)

  /** The first row of `table` whose `HR` is `h` (`df[df['HR'] == h]`, row 0). */
  function FirstAt(table: seq<ApiRow>, h: int): (r: Option<ApiRow>)
    ensures r.None? <==> forall i :: 0 <= i < |table| ==> table[i].hr != h
    ensures r.Some? ==> r.value.hr == h && r.value in table
  {
    if table == [] then None
    else if table[0].hr == h then Some(table[0])
    else
      var r := FirstAt(table[1..], h);
      assert forall i :: 1 <= i < |table| ==> table[i] == table[1..][i - 1];
      r
  }

  /** The row found is the first of its hour: every earlier row has another `HR`. */
  lemma {:induction false} FirstAtIsFirst(table: seq<ApiRow>, h: int)
    requires FirstAt(table, h).Some?
    ensures exists i :: 0 <= i < |table| && table[i] == FirstAt(table, h).value
                        && forall j :: 0 <= j < i ==> table[j].hr != h
  {
    if table[0].hr != h {
      FirstAtIsFirst(table[1..], h);
      var i :| 0 <= i < |table[1..]| && table[1..][i] == FirstAt(table, h).value
                && forall j :: 0 <= j < i ==> table[1..][j].hr != h;
      assert table[i + 1] == table[1..][i];
      assert forall j :: 1 <= j < i + 1 ==> table[j] == table[1..][j - 1];
    } else {
      assert table[0] == FirstAt(table, h).value;
    }
  }

  /** The entries of one response for parameter `p` and the hours `0 .. n - 1`, in hour order. */
  function HourUpdates(d: DayTable, p: Param, n: nat): (r: seq<Update>)
    ensures |r| <= n
  {
    if n == 0 then []
    else
      HourUpdates(d, p, n - 1) + HourEntry(d, p, n - 1)
  }

  /** The entry of hour `h`, if the table has a row for it. */
  function HourEntry(d: DayTable, p: Param, h: int): (r: seq<Update>)
    ensures |r| <= 1
    ensures forall u :: u in r ==> u.date == d.date && u.hour == h
  {
    match FirstAt(d.table, h)
    case None => []
    case Some(row) => [Update(d.date, h, row.reading.Get(p))]
  }

  /** The list of parameter `p` after all of `days`, in the order the responses were kept. */
  function Collect(days: seq<DayTable>, p: Param): seq<Update>
    decreases |days|
  {
    if days == [] then [] else Collect(days[..|days| - 1], p) + HourUpdates(days[|days| - 1], p, HOURS)
  }

  /**
    The tables of the kept responses, or the date of the first response whose
    table cannot be read (the exception ends the update there).
  */
  function Tables(rs: seq<Response>): (r: Result<seq<DayTable>, string>)
    ensures r.Ok? <==> forall i :: 0 <= i < |rs| ==> rs[i].body.table.Some?
    ensures r.Ok? ==> |r.value| == |rs| && forall i :: 0 <= i < |rs| ==> r.value[i] == DayTable(rs[i].date, rs[i].body.table.value)
    ensures r.Err? ==> exists i :: 0 <= i < |rs| && rs[i].body.table.None? && r.error == rs[i].date
                                   && forall j :: 0 <= j < i ==> rs[j].body.table.Some?
    decreases |rs|
  {
    if rs == [] then Ok([])
    else
      var init := rs[..|rs| - 1];
      var last := rs[|rs| - 1];
      assert forall i :: 0 <= i < |init| ==> init[i] == rs[i];
      match Tables(init)
      case Err(e) => Err(e)
      case Ok(t) =>
        match last.body.table
        case None => Err(last.date)
        case Some(table) => Ok(t + [DayTable(last.date, table)])
  }

  function UpdatesFor(days: seq<DayTable>): (u: map<Param, seq<Update>>)
    ensures forall p: Param :: p in u
  {
    assert forall p: Param :: p in PARAM_SET by {
      forall p: Param { ParamCovered(p); }
    }
    map p | p in PARAM_SET :: Collect(days, p)
  }

  /** The update dictionary of the kept responses, or the date whose table cannot be read. */
  function Extracted(rs: seq<Response>): Result<map<Param, seq<Update>>, string> {
    match Tables(rs)
    case Err(date) => Err(date)
    case Ok(days) => Ok(UpdatesFor(days))
  }

  /** The innermost loop: one entry per parameter, in dictionary order, from the first row of the hour. */
  method AppendRow(updates: map<Param, seq<Update>>, date: string, hour: int, row: ApiRow)
    returns (r: map<Param, seq<Update>>)
    requires forall p: Param :: p in updates
    ensures forall p: Param :: p in r && r[p] == updates[p] + [Update(date, hour, row.reading.Get(p))]
  {
    r := updates;
    var k := 0;
    while k < |PARAMS|
      invariant 0 <= k <= |PARAMS|
      invariant forall p: Param :: p in r && r[p] == updates[p] + (if ParamIndex(p) < k then [Update(date, hour, row.reading.Get(p))] else [])
    {
      var p := PARAMS[k];
      r := r[p := r[p] + [Update(date, hour, row.reading.Get(p))]];
      k := k + 1;
    }
  }

  /** One iteration of the hour loop: the entries of hour `hour`, if the table has a row for it. */
  method AppendHour(updates: map<Param, seq<Update>>, date: string, table: seq<ApiRow>, hour: int)
    returns (r: map<Param, seq<Update>>)
    requires forall p: Param :: p in updates
    ensures forall p: Param :: p in r && r[p] == updates[p] + HourEntry(DayTable(date, table), p, hour)
  {
    var matching := FirstAt(table, hour);
    if matching.Some? {
      r := AppendRow(updates, date, hour, matching.value);
    } else {
      r := updates;
    }
  }

  lemma NextHour(updates: map<Param, seq<Update>>, before: map<Param, seq<Update>>, after: map<Param, seq<Update>>,
                 d: DayTable, hour: nat)
    requires forall p: Param :: p in updates
    requires forall p: Param :: p in before && before[p] == updates[p] + HourUpdates(d, p, hour)
    requires forall p: Param :: p in after && after[p] == before[p] + HourEntry(d, p, hour)
    ensures forall p: Param :: p in after && after[p] == updates[p] + HourUpdates(d, p, hour + 1)
  {
    forall p: Param ensures after[p] == updates[p] + HourUpdates(d, p, hour + 1) {
      var a, b, c := updates[p], HourUpdates(d, p, hour), HourEntry(d, p, hour);
      assert HourUpdates(d, p, hour + 1) == b + c;
      assert (a + b) + c == a + (b + c);
    }
  }

  /** The hour loop over one response's table. */
  method AppendDay(updates: map<Param, seq<Update>>, date: string, table: seq<ApiRow>)
    returns (r: map<Param, seq<Update>>)
    requires forall p: Param :: p in updates
    ensures forall p: Param :: p in r && r[p] == updates[p] + HourUpdates(DayTable(date, table), p, HOURS)
  {
    r := updates;
    var hour := 0;
    while hour < HOURS
      invariant 0 <= hour <= HOURS
      invariant forall p: Param :: p in r && r[p] == updates[p] + HourUpdates(DayTable(date, table), p, hour)
    {
      ghost var before := r;
      r := AppendHour(r, date, table, hour);
      NextHour(updates, before, r, DayTable(date, table), hour);
      hour := hour + 1;
    }
  }

  /**
    The nested loops of the update: responses in the order they were kept,
    hours 0 to 23, and the five parameters in dictionary order.
  */
  method ExtractUpdates(responses: seq<Response>) returns (r: Result<map<Param, seq<Update>>, string>)
    ensures r == Extracted(responses)
  {
    var updates: map<Param, seq<Update>> :=
      map[Precipitation := [], Temperature := [], Humidity := [], WindSpeed := [], SolarRadiation := []];
    ghost var days: seq<DayTable> := [];
    forall p: Param ensures p in updates && updates[p] == Collect(days, p) {
      match p
      case Precipitation => case Temperature => case Humidity => case WindSpeed => case SolarRadiation =>
    }
    var i := 0;
    while i < |responses|
      invariant 0 <= i <= |responses|
      invariant Tables(responses[..i]) == Ok(days)
      invariant forall p: Param :: p in updates && updates[p] == Collect(days, p)
    {
      var resp := responses[i];
      if resp.body.table.None? {
        TablesFirstError(responses, i);
        return Err(resp.date);
      }
      TablesStep(responses, i, days);
      ghost var before := updates;
      updates := AppendDay(updates, resp.date, resp.body.table.value);
      ghost var day := DayTable(resp.date, resp.body.table.value);
      CollectStep(days, day, before, updates);
      days := days + [day];
      i := i + 1;
    }
    assert responses[..i] == responses;
    UpdatesForIs(days, updates);
    r := Ok(updates);
  }

  /** One more readable response: its table extends the tables read so far. */
  lemma TablesStep(rs: seq<Response>, i: nat, days: seq<DayTable>)
    requires i < |rs| && Tables(rs[..i]) == Ok(days) && rs[i].body.table.Some?
    ensures Tables(rs[..i + 1]) == Ok(days + [DayTable(rs[i].date, rs[i].body.table.value)])
  {
    assert rs[..i + 1][..i] == rs[..i];
  }

  /** The first unreadable response decides the error. */
  lemma TablesFirstError(rs: seq<Response>, i: nat)
    requires i < |rs| && Tables(rs[..i]).Ok? && rs[i].body.table.None?
    ensures Tables(rs) == Err(rs[i].date)
  {
    assert forall j :: 0 <= j < i ==> rs[..i][j] == rs[j];
    var k :| 0 <= k < |rs| && rs[k].body.table.None? && Tables(rs).error == rs[k].date
             && forall j :: 0 <= j < k ==> rs[j].body.table.Some?;
    assert k == i;
  }

  lemma CollectStep(days: seq<DayTable>, day: DayTable, before: map<Param, seq<Update>>, after: map<Param, seq<Update>>)
    requires forall p: Param :: p in before && before[p] == Collect(days, p)
    requires forall p: Param :: p in after && after[p] == before[p] + HourUpdates(day, p, HOURS)
    ensures forall p: Param :: p in after && after[p] == Collect(days + [day], p)
  {
    assert (days + [day])[..|days|] == days;
  }

  lemma UpdatesForIs(days: seq<DayTable>, updates: map<Param, seq<Update>>)
    requires forall p: Param :: p in updates && updates[p] == Collect(days, p)
    ensures updates == UpdatesFor(days)
  {
    forall p: Param ensures p in PARAM_SET { ParamCovered(p); }
  }

  // ---- what the dictionary holds ----

  /** Response `d` reports `u` for parameter `p`: the first row of hour `u.hour` in its table carries `u.value`. */
  predicate Reports(d: DayTable, p: Param, u: Update) {
    u.date == d.date && 0 <= u.hour < HOURS
    && FirstAt(d.table, u.hour).Some? && u.value == FirstAt(d.table, u.hour).value.reading.Get(p)
  }

  lemma {:induction false} HourUpdatesMember(d: DayTable, p: Param, n: nat, u: Update)
    requires n <= HOURS
    ensures u in HourUpdates(d, p, n) <==> Reports(d, p, u) && u.hour < n
  {
    if n > 0 {
      var a, c := HourUpdates(d, p, n - 1), HourEntry(d, p, n - 1);
      assert HourUpdates(d, p, n) == a + c;
      HourUpdatesMember(d, p, n - 1, u);
      HourEntryMember(d, p, n - 1, u);
      assert u in HourUpdates(d, p, n) <==> u in a || u in c;
    } else {
      assert HourUpdates(d, p, n) == [];
    }
  }

  lemma HourEntryMember(d: DayTable, p: Param, h: int, u: Update)
    requires 0 <= h < HOURS
    ensures u in HourEntry(d, p, h) <==> Reports(d, p, u) && u.hour == h
  {
  }

  /** Every entry of a response carries its date and an hour below `n`. */
  lemma {:induction false} HourUpdatesBound(d: DayTable, p: Param, n: nat, u: Update)
    requires u in HourUpdates(d, p, n)
    ensures u.date == d.date && 0 <= u.hour < n
  {
    var a, c := HourUpdates(d, p, n - 1), HourEntry(d, p, n - 1);
    assert HourUpdates(d, p, n) == a + c;
    if u in a {
      HourUpdatesBound(d, p, n - 1, u);
    }
  }

  /** A response's entries come in increasing hour order. */
  lemma {:induction false} HourUpdatesOrdered(d: DayTable, p: Param, n: nat)
    ensures forall i, j :: 0 <= i < j < |HourUpdates(d, p, n)| ==> HourUpdates(d, p, n)[i].hour < HourUpdates(d, p, n)[j].hour
  {
    if n > 0 {
      HourUpdatesOrdered(d, p, n - 1);
      var a := HourUpdates(d, p, n - 1);
      var c: seq<Update> := a + HourEntry(d, p, n - 1);
      forall i, j | 0 <= i < j < |c| ensures c[i].hour < c[j].hour {
        if j >= |a| {
          assert c[i] in a && c[j] in HourEntry(d, p, n - 1);
          HourUpdatesBound(d, p, n - 1, c[i]);
        } else {
          assert c[i] == a[i] && c[j] == a[j];
        }
      }
    }
  }

  /** Some response among `days` reports `u` for parameter `p`. */
  predicate ReportedBy(days: seq<DayTable>, p: Param, u: Update) {
    exists i :: 0 <= i < |days| && Reports(days[i], p, u)
  }

  lemma ReportedBySplit(days: seq<DayTable>, p: Param, u: Update)
    requires days != []
    ensures ReportedBy(days, p, u) <==> ReportedBy(days[..|days| - 1], p, u) || Reports(days[|days| - 1], p, u)
  {
    var init := days[..|days| - 1];
    if ReportedBy(days, p, u) {
      var i :| 0 <= i < |days| && Reports(days[i], p, u);
      if i < |init| {
        assert init[i] == days[i];
      }
    }
    if ReportedBy(init, p, u) {
      var i :| 0 <= i < |init| && Reports(init[i], p, u);
      assert days[i] == init[i];
    }
  }

  /** An entry is in the list of `p` exactly when some kept response reports it. */
  lemma {:induction false} CollectMember(days: seq<DayTable>, p: Param, u: Update)
    ensures u in Collect(days, p) <==> ReportedBy(days, p, u)
    decreases |days|
  {
    if days != [] {
      var init := days[..|days| - 1];
      var last := days[|days| - 1];
      CollectMember(init, p, u);
      HourUpdatesMember(last, p, HOURS, u);
      ReportedBySplit(days, p, u);
      assert Collect(days, p) == Collect(init, p) + HourUpdates(last, p, HOURS);
    }
  }

  /** `Distinct` on the tables' dates, kept on the fields for the solver's triggers. */
  predicate DistinctDays(days: seq<DayTable>) {
    forall i, j :: 0 <= i < j < |days| ==> days[i].date != days[j].date
  }

  predicate DistinctKeys(us: seq<Update>) {
    forall i, j :: 0 <= i < j < |us| ==> KeyOf(us[i]) != KeyOf(us[j])
  }

  /** With one response per date, no `(date, hour)` key appears twice in a list. */
  lemma {:induction false} CollectDistinctKeys(days: seq<DayTable>, p: Param)
    requires DistinctDays(days)
    ensures DistinctKeys(Collect(days, p))
    decreases |days|
  {
    if days != [] {
      var init := days[..|days| - 1];
      var last := days[|days| - 1];
      assert DistinctDays(init);
      CollectDistinctKeys(init, p);
      var a := Collect(init, p);
      var b := HourUpdates(last, p, HOURS);
      HourUpdatesOrdered(last, p, HOURS);
      forall u | u in a ensures u.date != last.date {
        CollectMember(init, p, u);
        var i :| 0 <= i < |init| && Reports(init[i], p, u);
        assert init[i] == days[i];
      }
      forall u | u in b ensures u.date == last.date {
        HourUpdatesBound(last, p, HOURS, u);
      }
      assert Collect(days, p) == a + b;
      DistinctKeysAppend(a, b, last.date);
    }
  }

  /** Two key-distinct lists stay key-distinct when joined, if their dates never meet. */
  lemma DistinctKeysAppend(a: seq<Update>, b: seq<Update>, date: string)
    requires DistinctKeys(a)
    requires forall i, j :: 0 <= i < j < |b| ==> b[i].hour < b[j].hour
    requires forall u :: u in a ==> u.date != date
    requires forall u :: u in b ==> u.date == date
    ensures DistinctKeys(a + b)
  {
    var c := a + b;
    forall i, j | 0 <= i < j < |c| ensures KeyOf(c[i]) != KeyOf(c[j]) {
      if j < |a| {
        assert c[i] == a[i] && c[j] == a[j];
      } else if i < |a| {
        assert c[i] in a && c[j] in b;
      } else {
        assert c[i] == b[i - |a|] && c[j] == b[j - |a|];
      }
    }
  }

  /** Two lists hold the same keys in the same positions. */
  predicate Aligned(us: seq<Update>, vs: seq<Update>) {
    |us| == |vs| && forall i :: 0 <= i < |us| ==> KeyOf(us[i]) == KeyOf(vs[i])
  }

  lemma {:induction false} HourUpdatesAligned(d: DayTable, p: Param, q: Param, n: nat)
    ensures Aligned(HourUpdates(d, p, n), HourUpdates(d, q, n))
  {
    if n > 0 {
      var a, b := HourUpdates(d, p, n - 1), HourUpdates(d, q, n - 1);
      var c, e := HourEntry(d, p, n - 1), HourEntry(d, q, n - 1);
      HourUpdatesAligned(d, p, q, n - 1);
      HourEntryAligned(d, p, q, n - 1);
      AlignedAppend(a, b, c, e);
      assert HourUpdates(d, p, n) == a + c && HourUpdates(d, q, n) == b + e;
    }
  }

  lemma HourEntryAligned(d: DayTable, p: Param, q: Param, h: int)
    ensures Aligned(HourEntry(d, p, h), HourEntry(d, q, h))
  {
  }

  lemma AlignedAppend(a: seq<Update>, b: seq<Update>, c: seq<Update>, e: seq<Update>)
    requires Aligned(a, b) && Aligned(c, e)
    ensures Aligned(a + c, b + e)
  {
    forall i | 0 <= i < |a + c| ensures KeyOf((a + c)[i]) == KeyOf((b + e)[i]) {
      if i < |a| {
        assert (a + c)[i] == a[i] && (b + e)[i] == b[i];
      } else {
        assert (a + c)[i] == c[i - |a|] && (b + e)[i] == e[i - |a|];
      }
    }
  }

  /** The five lists run in parallel: the same `(date, hour)` keys in the same order. */
  lemma {:induction false} CollectAligned(days: seq<DayTable>, p: Param, q: Param)
    ensures Aligned(Collect(days, p), Collect(days, q))
    decreases |days|
  {
    if days != [] {
      CollectAligned(days[..|days| - 1], p, q);
      HourUpdatesAligned(days[|days| - 1], p, q, HOURS);
    }
  }

  /** The table of the first kept response for `date`. */
  function FindDay(days: seq<DayTable>, date: string): (r: Option<seq<ApiRow>>)
    ensures r.None? <==> forall i :: 0 <= i < |days| ==> days[i].date != date
    ensures r.Some? ==> exists i :: 0 <= i < |days| && days[i] == DayTable(date, r.value)
  {
    if days == [] then None
    else if days[0].date == date then Some(days[0].table)
    else
      var r := FindDay(days[1..], date);
      assert forall i :: 1 <= i < |days| ==> days[i] == days[1..][i - 1];
      r
  }

  /** What the API said about key `k` and parameter `p`, read straight from the tables. */
  function ReportedValue(days: seq<DayTable>, k: Key, p: Param): Option<Cell> {
    if 0 <= k.hour < HOURS then
      match FindDay(days, k.date)
      case None => None
      case Some(table) =>
        match FirstAt(table, k.hour)
        case None => None
        case Some(row) => Some(row.reading.Get(p))
    else None
  }

  /**
    With one response per date, the list of `p` holds `(k, v)` exactly when
    the API reported `v` for key `k`.
  */
  lemma ReportedMeaning(days: seq<DayTable>, k: Key, p: Param, v: Cell)
    requires DistinctDays(days)
    ensures Update(k.date, k.hour, v) in Collect(days, p) <==> ReportedValue(days, k, p) == Some(v)
  {
    var u := Update(k.date, k.hour, v);
    CollectMember(days, p, u);
    if u in Collect(days, p) {
      var i :| 0 <= i < |days| && Reports(days[i], p, u);
      var t := FindDay(days, k.date);
      var j :| 0 <= j < |days| && days[j] == DayTable(k.date, t.value);
      assert i == j;
    }
    if ReportedValue(days, k, p) == Some(v) {
      var t := FindDay(days, k.date);
      var j :| 0 <= j < |days| && days[j] == DayTable(k.date, t.value);
      assert Reports(days[j], p, u);
    }
  }
}
