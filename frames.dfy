/**
  The site file's table while it is being updated: its rows, held in an
  array and changed in place, and the derived `date` / `hour` columns.
*/
module Frames {
  import opened Wrappers
  import opened Timestamps
  import opened Records
  import opened Extraction

  /**
    `local_time.apply(parse_date)`: every timestamp parsed, or the text of the
    first one that no layout accepts.
  */
  function ParseAll(rows: seq<Row>): (r: Result<seq<DateTime>, string>)
    ensures r.Ok? <==> forall i :: 0 <= i < |rows| ==> Parse(rows[i].localTime).Ok?
    ensures r.Ok? ==> |r.value| == |rows| && forall i :: 0 <= i < |rows| ==> Parse(rows[i].localTime) == Ok(r.value[i])
    ensures r.Err? ==> exists i :: 0 <= i < |rows| && Parse(rows[i].localTime) == Err(r.error)
                                   && forall j :: 0 <= j < i ==> Parse(rows[j].localTime).Ok?
    decreases |rows|
  {
    if rows == [] then Ok([])
    else
      var init := rows[..|rows| - 1];
      assert forall i :: 0 <= i < |init| ==> init[i] == rows[i];
      match ParseAll(init)
      case Err(e) => Err(e)
      case Ok(dts) =>
        match Parse(rows[|rows| - 1].localTime)
        case Err(e) => Err(e)
        case Ok(dt) => Ok(dts + [dt])
  }

  /** One more row that parses extends the parsed prefix by its value. */
  lemma ParseAllStep(rows: seq<Row>, i: nat, dts: seq<DateTime>)
    requires i < |rows| && ParseAll(rows[..i]) == Ok(dts) && Parse(rows[i].localTime).Ok?
    ensures ParseAll(rows[..i + 1]) == Ok(dts + [Parse(rows[i].localTime).value])
  {
    assert rows[..i + 1][..i] == rows[..i];
  }

  /** The first row that fails to parse decides the error of the whole column. */
  lemma FirstError(rows: seq<Row>, i: nat)
    requires i < |rows| && ParseAll(rows[..i]).Ok? && Parse(rows[i].localTime).Err?
    ensures ParseAll(rows) == Err(Parse(rows[i].localTime).error)
  {
    assert forall j :: 0 <= j < i ==> rows[..i][j] == rows[j];
    var k :| 0 <= k < |rows| && Parse(rows[k].localTime) == Err(ParseAll(rows).error)
             && forall j :: 0 <= j < k ==> Parse(rows[j].localTime).Ok?;
    assert k == i;
  }

  /** The rows with their `local_time` column replaced by the parsed values. */
  function Stamped(rows: seq<Row>, dts: seq<DateTime>): seq<Row>
    requires |dts| == |rows|
  {
    seq(|rows|, i requires 0 <= i < |rows| => rows[i].(localTime := Parsed(dts[i])))
  }

  /** The derived `date` and `hour` columns. */
  function KeysOf(dts: seq<DateTime>): seq<Key>
    requires forall i :: 0 <= i < |dts| ==> Valid(dts[i])
  {
    seq(|dts|, i requires 0 <= i < |dts| => RowKey(dts[i]))
  }

  /**
    A cell after the updates `us` of its column ran over it in order: each
    update whose key is the row's key overwrites it, so the last such wins.
  */
  function CellAfter(c: Cell, k: Key, us: seq<Update>): (r: Cell)
    ensures r == c || exists i :: 0 <= i < |us| && KeyOf(us[i]) == k && r == us[i].value
    decreases |us|
  {
    if us == [] then c
    else
      var init := us[..|us| - 1];
      var last := us[|us| - 1];
      if KeyOf(last) == k then last.value
      else
        assert forall i :: 0 <= i < |init| ==> init[i] == us[i];
        CellAfter(c, k, init)
  }

  /** The five parameter cells of a row with key `k` after all the update lists. */
  function MergedReading(r: Reading, k: Key, updates: map<Param, seq<Update>>): Reading
    requires forall p: Param :: p in updates
  {
    Reading(CellAfter(r.precipitation, k, updates[Precipitation]),
            CellAfter(r.temperature, k, updates[Temperature]),
            CellAfter(r.humidity, k, updates[Humidity]),
            CellAfter(r.windSpeed, k, updates[WindSpeed]),
            CellAfter(r.solarRadiation, k, updates[SolarRadiation]))
  }

  /** The table after the batch update. */
  function Merged(rows: seq<Row>, keys: seq<Key>, updates: map<Param, seq<Update>>): (r: seq<Row>)
    requires |keys| == |rows|
    requires forall p: Param :: p in updates
    ensures |r| == |rows|
    ensures forall i :: 0 <= i < |r| ==> r[i].localTime == rows[i].localTime && r[i].measured == rows[i].measured
  {
    seq(|rows|, i requires 0 <= i < |rows| => rows[i].(params := MergedReading(rows[i].params, keys[i], updates)))
  }

  /** `reading` after the whole list `us` of parameter `p` ran over a row with key `k`. */
  function Apply(reading: Reading, k: Key, p: Param, us: seq<Update>): Reading {
    reading.Set(p, CellAfter(reading.Get(p), k, us))
  }

  /** `reading` after the lists of the first `n` parameters in dictionary order. */
  function ApplyFirst(reading: Reading, k: Key, updates: map<Param, seq<Update>>, n: nat): Reading
    requires n <= |PARAMS|
    requires forall p: Param :: p in updates
  {
    if n == 0 then reading
    else Apply(ApplyFirst(reading, k, updates, n - 1), k, PARAMS[n - 1], updates[PARAMS[n - 1]])
  }

  lemma {:induction false} ApplyFirstGet(reading: Reading, k: Key, updates: map<Param, seq<Update>>, n: nat, p: Param)
    requires n <= |PARAMS|
    requires forall p: Param :: p in updates
    ensures ApplyFirst(reading, k, updates, n).Get(p)
            == if ParamIndex(p) < n then CellAfter(reading.Get(p), k, updates[p]) else reading.Get(p)
  {
    if n > 0 {
      ApplyFirstGet(reading, k, updates, n - 1, p);
      var q := PARAMS[n - 1];
      SetGet(ApplyFirst(reading, k, updates, n - 1), q, CellAfter(ApplyFirst(reading, k, updates, n - 1).Get(q), k, updates[q]), p);
      ApplyFirstGet(reading, k, updates, n - 1, q);
    }
  }

  lemma ApplyAll(reading: Reading, k: Key, updates: map<Param, seq<Update>>)
    requires forall p: Param :: p in updates
    ensures ApplyFirst(reading, k, updates, |PARAMS|) == MergedReading(reading, k, updates)
  {
    forall p: Param ensures ApplyFirst(reading, k, updates, |PARAMS|).Get(p) == MergedReading(reading, k, updates).Get(p) {
      ApplyFirstGet(reading, k, updates, |PARAMS|, p);
    }
    ReadingEq(ApplyFirst(reading, k, updates, |PARAMS|), MergedReading(reading, k, updates));
  }

  class SiteFrame {
    /** The rows of the table, in file order. */
    var rows: array<Row>
    /** The derived `date` / `hour` columns, one per row while they exist, empty once dropped. */
    var keys: seq<Key>

    /** The table as `read_csv` gives it, without derived columns. */
    constructor (content: seq<Row>)
      ensures rows[..] == content && keys == [] && fresh(rows)
    {
      rows := new Row[|content|](i requires 0 <= i < |content| => content[i]);
      keys := [];
    }

    /** The derived columns are present, one key per row. */
    predicate Keyed()
      reads this
    {
      |keys| == rows.Length
    }

    /** The loop of `apply(parse_date)`: every timestamp parsed, or the first text that fails. */
    method ParseColumn() returns (r: Result<seq<DateTime>, string>)
      requires forall i :: 0 <= i < rows.Length ==> Sound(rows[i].localTime)
      ensures r == ParseAll(rows[..])
      ensures r.Ok? ==> forall i :: 0 <= i < |r.value| ==> Valid(r.value[i])
    {
      var dts: seq<DateTime> := [];
      var i := 0;
      while i < rows.Length
        invariant 0 <= i <= rows.Length
        invariant ParseAll(rows[..i]) == Ok(dts)
        invariant forall j :: 0 <= j < |dts| ==> Valid(dts[j])
      {
        var parsed := Parse(rows[i].localTime);
        if parsed.Err? {
          FirstError(rows[..], i);
          return Err(parsed.error);
        }
        ParseAllStep(rows[..], i, dts);
        dts := dts + [parsed.value];
        i := i + 1;
      }
      assert rows[..i] == rows[..];
      r := Ok(dts);
    }

    /** The assignment of the parsed column to `local_time`. */
    method Stamp(dts: seq<DateTime>)
      requires |dts| == rows.Length
      modifies rows
      ensures rows[..] == Stamped(old(rows[..]), dts)
    {
      var i := 0;
      while i < rows.Length
        invariant 0 <= i <= rows.Length
        invariant forall j :: 0 <= j < i ==> rows[j] == old(rows[j]).(localTime := Parsed(dts[j]))
        invariant forall j :: i <= j < rows.Length ==> rows[j] == old(rows[j])
      {
        rows[i] := rows[i].(localTime := Parsed(dts[i]));
        i := i + 1;
      }
    }

    /**
      The key derivation: parse every `local_time`, replace the column by the
      parsed values and add the `date` / `hour` columns. If a timestamp cannot
      be parsed the table is left as it was and that text is the error.
    */
    method DeriveKeys() returns (r: Result<seq<DateTime>, string>)
      requires forall i :: 0 <= i < rows.Length ==> Sound(rows[i].localTime)
      modifies this, rows
      ensures rows == old(rows)
      ensures r == ParseAll(old(rows[..]))
      ensures r.Err? ==> rows[..] == old(rows[..]) && keys == old(keys)
      ensures r.Ok? ==> (forall i :: 0 <= i < |r.value| ==> Valid(r.value[i]))
                        && rows[..] == Stamped(old(rows[..]), r.value) && keys == KeysOf(r.value)
    {
      r := ParseColumn();
      if r.Ok? {
        Stamp(r.value);
        keys := KeysOf(r.value);
      }
    }

    /**
      `site_data_df.loc[mask, p] = u.value` with `mask` the rows whose
      `(date, hour)` is the update's key.
    */
    method Assign(p: Param, u: Update)
      requires Keyed()
      modifies rows
      ensures forall i :: 0 <= i < rows.Length ==>
                rows[i] == if keys[i] == KeyOf(u) then old(rows[i]).(params := old(rows[i]).params.Set(p, u.value))
                           else old(rows[i])
    {
      var i := 0;
      while i < rows.Length
        invariant 0 <= i <= rows.Length
        invariant forall j :: 0 <= j < i ==>
                    rows[j] == if keys[j] == KeyOf(u) then old(rows[j]).(params := old(rows[j]).params.Set(p, u.value))
                               else old(rows[j])
        invariant forall j :: i <= j < rows.Length ==> rows[j] == old(rows[j])
      {
        if keys[i] == KeyOf(u) {
          rows[i] := rows[i].(params := rows[i].params.Set(p, u.value));
        }
        i := i + 1;
      }
    }

    /** The whole list of parameter `p`, in order. */
    method AssignAll(p: Param, us: seq<Update>)
      requires Keyed()
      modifies rows
      ensures forall i :: 0 <= i < rows.Length ==>
                rows[i] == old(rows[i]).(params := Apply(old(rows[i]).params, keys[i], p, us))
    {
      var n := 0;
      while n < |us|
        invariant 0 <= n <= |us|
        invariant forall i :: 0 <= i < rows.Length ==>
                    rows[i] == old(rows[i]).(params := Apply(old(rows[i]).params, keys[i], p, us[..n]))
      {
        assert us[..n + 1][..n] == us[..n];
        Assign(p, us[n]);
        forall i | 0 <= i < rows.Length
          ensures rows[i] == old(rows[i]).(params := Apply(old(rows[i]).params, keys[i], p, us[..n + 1]))
        {
          SetGet(old(rows[i]).params, p, CellAfter(old(rows[i]).params.Get(p), keys[i], us[..n]), p);
        }
        n := n + 1;
      }
      assert us[..n] == us;
    }

    /** The batch update: each parameter's list in dictionary order, each list in order. */
    method Merge(updates: map<Param, seq<Update>>)
      requires Keyed()
      requires forall p: Param :: p in updates
      modifies rows
      ensures rows[..] == Merged(old(rows[..]), keys, updates)
    {
      var k := 0;
      while k < |PARAMS|
        invariant 0 <= k <= |PARAMS|
        invariant forall i :: 0 <= i < rows.Length ==>
                    rows[i] == old(rows[i]).(params := ApplyFirst(old(rows[i]).params, keys[i], updates, k))
      {
        AssignAll(PARAMS[k], updates[PARAMS[k]]);
        k := k + 1;
      }
      forall i | 0 <= i < rows.Length
        ensures rows[i] == Merged(old(rows[..]), keys, updates)[i]
      {
        ApplyAll(old(rows[i]).params, keys[i], updates);
      }
    }

    /** `drop(columns=['date', 'hour'])`: the rows stay, the derived columns go. */
    method DropKeys()
      modifies this
      ensures rows == old(rows) && keys == []
    {
      keys := [];
    }
  }

  // ---- what the merge does ----

  lemma MergedReadingGet(r: Reading, k: Key, updates: map<Param, seq<Update>>, p: Param)
    requires forall p: Param :: p in updates
    ensures MergedReading(r, k, updates).Get(p) == CellAfter(r.Get(p), k, updates[p])
  {
  }

  /** With distinct keys in the list, a row with key `k` receives the one value listed for `k`. */
  lemma {:induction false} CellAfterMatched(c: Cell, k: Key, us: seq<Update>, v: Cell)
    requires DistinctKeys(us)
    requires Update(k.date, k.hour, v) in us
    ensures CellAfter(c, k, us) == v
    decreases |us|
  {
    var init := us[..|us| - 1];
    var last := us[|us| - 1];
    if KeyOf(last) != k {
      assert us == init + [last];
      assert DistinctKeys(init) by {
        forall i, j | 0 <= i < j < |init| ensures KeyOf(init[i]) != KeyOf(init[j]) {
          assert init[i] == us[i] && init[j] == us[j];
        }
      }
      CellAfterMatched(c, k, init, v);
    } else {
      var i :| 0 <= i < |us| && us[i] == Update(k.date, k.hour, v);
      assert i == |us| - 1;
    }
  }

  /** Running a column's list twice leaves what running it once left. */
  lemma {:induction false} CellAfterIdempotent(c: Cell, k: Key, us: seq<Update>)
    ensures CellAfter(CellAfter(c, k, us), k, us) == CellAfter(c, k, us)
    decreases |us|
  {
    if us != [] {
      var init := us[..|us| - 1];
      if KeyOf(us[|us| - 1]) != k {
        CellAfterIdempotent(c, k, init);
      }
    }
  }

  /** The batch update is idempotent. */
  lemma MergedIdempotent(rows: seq<Row>, keys: seq<Key>, updates: map<Param, seq<Update>>)
    requires |keys| == |rows|
    requires forall p: Param :: p in updates
    ensures Merged(Merged(rows, keys, updates), keys, updates) == Merged(rows, keys, updates)
  {
    var once := Merged(rows, keys, updates);
    forall i | 0 <= i < |rows|
      ensures Merged(once, keys, updates)[i] == once[i]
    {
      ReadingIdempotent(rows[i].params, keys[i], updates);
    }
  }

  lemma ReadingIdempotent(r: Reading, k: Key, updates: map<Param, seq<Update>>)
    requires forall p: Param :: p in updates
    ensures MergedReading(MergedReading(r, k, updates), k, updates) == MergedReading(r, k, updates)
  {
    var once := MergedReading(r, k, updates);
    forall p: Param
      ensures MergedReading(once, k, updates).Get(p) == once.Get(p)
    {
      CellAfterIdempotent(r.Get(p), k, updates[p]);
    }
    ReadingEq(MergedReading(once, k, updates), once);
  }

  /** The value a row with key `k` holds in column `p` after the update. */
  function CellOutcome(days: seq<DayTable>, k: Key, p: Param, before: Cell): Cell {
    match ReportedValue(days, k, p)
    case Some(v) => v
    case None => before
  }

  /**
    After the update, each parameter cell of a row holds what the API
    reported for the row's `(date, hour)`, and its old value where the API
    reported nothing for that key.
  */
  lemma MergedMeaning(rows: seq<Row>, keys: seq<Key>, days: seq<DayTable>, i: int, p: Param)
    requires |keys| == |rows| && 0 <= i < |rows|
    requires DistinctDays(days)
    ensures Merged(rows, keys, UpdatesFor(days))[i].params.Get(p) == CellOutcome(days, keys[i], p, rows[i].params.Get(p))
  {
    var k := keys[i];
    var us := Collect(days, p);
    assert UpdatesFor(days)[p] == us;
    CollectDistinctKeys(days, p);
    match ReportedValue(days, k, p)
    case Some(v) =>
      ReportedMeaning(days, k, p, v);
      CellAfterMatched(rows[i].params.Get(p), k, us, v);
    case None =>
      forall j | 0 <= j < |us| ensures KeyOf(us[j]) != k {
        ReportedMeaning(days, k, p, us[j].value);
      }
  }

  /** Rows whose key the API reported nothing for, such as every row of a date that failed, are unchanged. */
  lemma MergedKeepsUnreported(rows: seq<Row>, keys: seq<Key>, days: seq<DayTable>, i: int)
    requires |keys| == |rows| && 0 <= i < |rows|
    requires DistinctDays(days)
    requires forall p: Param :: ReportedValue(days, keys[i], p).None?
    ensures Merged(rows, keys, UpdatesFor(days))[i] == rows[i]
  {
    var merged := Merged(rows, keys, UpdatesFor(days));
    forall p: Param ensures merged[i].params.Get(p) == rows[i].params.Get(p) {
      MergedMeaning(rows, keys, days, i, p);
    }
    ReadingEq(merged[i].params, rows[i].params);
  }

  /** Rows of a date with no kept response keep every value. */
  lemma MergedKeepsUnfetched(rows: seq<Row>, keys: seq<Key>, days: seq<DayTable>, i: int)
    requires |keys| == |rows| && 0 <= i < |rows|
    requires DistinctDays(days)
    requires forall j :: 0 <= j < |days| ==> days[j].date != keys[i].date
    ensures Merged(rows, keys, UpdatesFor(days))[i] == rows[i]
  {
    MergedKeepsUnreported(rows, keys, days, i);
  }

  /** All rows sharing a reported `(date, hour)` receive the same value. */
  lemma MergedSameKey(rows: seq<Row>, keys: seq<Key>, days: seq<DayTable>, i: int, j: int, p: Param)
    requires |keys| == |rows| && 0 <= i < |rows| && 0 <= j < |rows|
    requires DistinctDays(days)
    requires keys[i] == keys[j] && ReportedValue(days, keys[i], p).Some?
    ensures Merged(rows, keys, UpdatesFor(days))[i].params.Get(p) == Merged(rows, keys, UpdatesFor(days))[j].params.Get(p)
  {
    MergedMeaning(rows, keys, days, i, p);
    MergedMeaning(rows, keys, days, j, p);
  }

  lemma FindDayUnique(days: seq<DayTable>, d: DayTable)
    requires DistinctDays(days) && d in days
    ensures FindDay(days, d.date) == Some(d.table)
  {
    var t := FindDay(days, d.date);
    var i :| 0 <= i < |days| && days[i] == DayTable(d.date, t.value);
    var j :| 0 <= j < |days| && days[j] == d;
    assert i == j;
  }

  /** What the API reported depends only on which responses were kept, not on their order. */
  lemma ReportedOrderFree(days1: seq<DayTable>, days2: seq<DayTable>, k: Key, p: Param)
    requires DistinctDays(days1) && DistinctDays(days2)
    requires forall d :: d in days1 <==> d in days2
    ensures ReportedValue(days1, k, p) == ReportedValue(days2, k, p)
  {
    var t1 := FindDay(days1, k.date);
    var t2 := FindDay(days2, k.date);
    if t1.Some? {
      var i :| 0 <= i < |days1| && days1[i] == DayTable(k.date, t1.value);
      FindDayUnique(days2, days1[i]);
    } else if t2.Some? {
      var i :| 0 <= i < |days2| && days2[i] == DayTable(k.date, t2.value);
      FindDayUnique(days1, days2[i]);
    }
  }

  /** The merged table is the same whatever order the responses were kept in. */
  lemma MergedOrderFree(rows: seq<Row>, keys: seq<Key>, days1: seq<DayTable>, days2: seq<DayTable>)
    requires |keys| == |rows|
    requires DistinctDays(days1) && DistinctDays(days2)
    requires forall d :: d in days1 <==> d in days2
    ensures Merged(rows, keys, UpdatesFor(days1)) == Merged(rows, keys, UpdatesFor(days2))
  {
    var m1 := Merged(rows, keys, UpdatesFor(days1));
    var m2 := Merged(rows, keys, UpdatesFor(days2));
    forall i | 0 <= i < |rows| ensures m1[i] == m2[i] {
      forall p: Param ensures m1[i].params.Get(p) == m2[i].params.Get(p) {
        MergedMeaning(rows, keys, days1, i, p);
        MergedMeaning(rows, keys, days2, i, p);
        ReportedOrderFree(days1, days2, keys[i], p);
      }
      ReadingEq(m1[i].params, m2[i].params);
    }
  }
}
