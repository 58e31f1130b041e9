/**
  The timestamp parser of the site update (`parse_date`) and the `YYYYMMDD`
  date key derived from each parsed timestamp.

  A layout is a `strptime`/`strftime` format string: numeric fields are read
  as zero-padded digit runs of fixed width, every other character must appear
  literally, and the whole text must be consumed.
*/
module Timestamps {
  import opened Wrappers

  /** A naive `datetime` (no time zone, no fractional seconds). */
  datatype DateTime = DateTime(year: int, month: int, day: int, hour: int, minute: int, second: int)

  /** A value of the `local_time` column: text as read from the file, or a datetime already. */
  datatype TimeValue = Text(text: string) | Parsed(dt: DateTime)

  predicate IsLeapYear(y: int) {
    y % 4 == 0 && (y % 100 != 0 || y % 400 == 0)
  }

  function DaysInMonth(y: int, m: int): int
    requires 1 <= m <= 12
  {
    if m == 2 then (if IsLeapYear(y) then 29 else 28)
    else if m == 4 || m == 6 || m == 9 || m == 11 then 30
    else 31
  }

  /** The range and calendar checks `datetime` applies to the fields `strptime` read. */
  predicate Valid(dt: DateTime) {
    && 1 <= dt.year <= 9999
    && 1 <= dt.month <= 12
    && 1 <= dt.day <= DaysInMonth(dt.year, dt.month)
    && 0 <= dt.hour <= 23
    && 0 <= dt.minute <= 59
    && 0 <= dt.second <= 59
  }

  /** A datetime value always passed its constructor's checks; text may be anything. */
  predicate Sound(v: TimeValue) {
    v.Parsed? ==> Valid(v.dt)
  }

  predicate NonNegative(dt: DateTime) {
    dt.year >= 0 && dt.month >= 0 && dt.day >= 0 && dt.hour >= 0 && dt.minute >= 0 && dt.second >= 0
  }

  datatype Field = Year | Month | Day | Hour | Minute | Second

  /** One piece of a format string: a `%` field or a literal character. */
  datatype Directive = Num(field: Field) | Lit(c: char)

  type Layout = seq<Directive>

  function Width(f: Field): nat {
    if f == Year then 4 else 2
  }

  function Get(dt: DateTime, f: Field): int {
    match f
    case Year => dt.year
    case Month => dt.month
    case Day => dt.day
    case Hour => dt.hour
    case Minute => dt.minute
    case Second => dt.second
  }

  function With(dt: DateTime, f: Field, v: int): DateTime {
    match f
    case Year => dt.(year := v)
    case Month => dt.(month := v)
    case Day => dt.(day := v)
    case Hour => dt.(hour := v)
    case Minute => dt.(minute := v)
    case Second => dt.(second := v)
  }

  /** `%d/%m/%Y %H:%M` */
  const DAY_FIRST_SLASH: Layout :=
    [Num(Day), Lit('/'), Num(Month), Lit('/'), Num(Year), Lit(' '), Num(Hour), Lit(':'), Num(Minute)]
  /** `%d-%m-%Y %H:%M` */
  const DAY_FIRST_DASH: Layout :=
    [Num(Day), Lit('-'), Num(Month), Lit('-'), Num(Year), Lit(' '), Num(Hour), Lit(':'), Num(Minute)]
  /** `%d-%m-%Y %H:%M:%S` */
  const DAY_FIRST_DASH_SECONDS: Layout :=
    [Num(Day), Lit('-'), Num(Month), Lit('-'), Num(Year), Lit(' '), Num(Hour), Lit(':'), Num(Minute),
     Lit(':'), Num(Second)]
  /** `%Y-%m-%d %H:%M:%S` */
  const ISO_SECONDS: Layout :=
    [Num(Year), Lit('-'), Num(Month), Lit('-'), Num(Day), Lit(' '), Num(Hour), Lit(':'), Num(Minute),
     Lit(':'), Num(Second)]

  /** The layouts `parse_date` tries, in the order it tries them. */
  const LAYOUTS: seq<Layout> := [DAY_FIRST_SLASH, DAY_FIRST_DASH, DAY_FIRST_DASH_SECONDS, ISO_SECONDS]

  /** `%Y%m%d`, the date key of a row. */
  const KEY_LAYOUT: Layout := [Num(Year), Num(Month), Num(Day)]

  /** The fields `strptime` starts from: a field the layout does not read keeps its value here. */
  const UNSET := DateTime(1900, 1, 1, 0, 0, 0)

  // ---------------------------------------------------------------- digits

  predicate IsDigit(c: char) {
    '0' <= c <= '9'
  }

  predicate AllDigits(s: string) {
    forall i :: 0 <= i < |s| ==> IsDigit(s[i])
  }

  function DigitsValue(s: string): nat
    requires AllDigits(s)
    decreases |s|
  {
    if s == [] then 0 else DigitsValue(s[..|s| - 1]) * 10 + (s[|s| - 1] as int - '0' as int)
  }

  function Pow10(n: nat): nat {
    if n == 0 then 1 else 10 * Pow10(n - 1)
  }

  /** The last `w` decimal digits of `n`, zero-padded on the left. */
  function Padded(n: nat, w: nat): (s: string)
    ensures |s| == w && AllDigits(s)
  {
    if w == 0 then [] else Padded(n / 10, w - 1) + [('0' as int + n % 10) as char]
  }

  lemma {:induction false} PaddedValue(n: nat, w: nat)
    requires n < Pow10(w)
    ensures DigitsValue(Padded(n, w)) == n
  {
    if w > 0 {
      var p := Padded(n / 10, w - 1);
      var s := Padded(n, w);
      assert s == p + [('0' as int + n % 10) as char];
      assert s[..|s| - 1] == p;
      PaddedValue(n / 10, w - 1);
      assert DigitsValue(s) == (n / 10) * 10 + n % 10;
    }
  }

  lemma {:induction false} PaddedDigits(t: string)
    requires AllDigits(t)
    ensures Padded(DigitsValue(t), |t|) == t
  {
    if t != [] {
      var init := t[..|t| - 1];
      var d := t[|t| - 1] as int - '0' as int;
      var v := DigitsValue(init) * 10 + d;
      assert v / 10 == DigitsValue(init) && v % 10 == d;
      PaddedDigits(init);
      assert Padded(v, |t|) == init + [t[|t| - 1]];
    }
  }

  // ---------------------------------------------------------------- parsing

  /**
    Reads `s` against `layout`, starting from the fields in `acc`; None when a
    literal or a digit run does not match or text is left over.
  */
  function Scan(layout: Layout, s: string, acc: DateTime): Option<DateTime>
    decreases |layout|
  {
    if layout == [] then
      if s == [] then Some(acc) else None
    else
      match layout[0]
      case Lit(c) =>
        if |s| > 0 && s[0] == c then Scan(layout[1..], s[1..], acc) else None
      case Num(f) =>
        var w := Width(f);
        if w <= |s| && AllDigits(s[..w]) then Scan(layout[1..], s[w..], With(acc, f, DigitsValue(s[..w])))
        else None
  }

  /** `datetime.strptime(s, layout)`: None where it raises `ValueError`. */
  function ParseWith(layout: Layout, s: string): (r: Option<DateTime>)
    ensures r.Some? ==> Valid(r.value)
  {
    match Scan(layout, s, UNSET)
    case Some(dt) => if Valid(dt) then Some(dt) else None
    case None => None
  }

  /** The first layout of `layouts` that accepts `s` decides the result. */
  function FirstMatch(layouts: seq<Layout>, s: string): (r: Option<DateTime>)
    ensures r.None? <==> forall i :: 0 <= i < |layouts| ==> ParseWith(layouts[i], s).None?
    ensures r.Some? ==> exists i :: 0 <= i < |layouts| && ParseWith(layouts[i], s) == r
                                   && forall j :: 0 <= j < i ==> ParseWith(layouts[j], s).None?
  {
    if layouts == [] then None
    else
      match ParseWith(layouts[0], s)
      case Some(dt) => Some(dt)
      case None =>
        var r := FirstMatch(layouts[1..], s);
        assert forall i :: 1 <= i < |layouts| ==> layouts[i] == layouts[1..][i - 1];
        r
  }

  /**
    `parse_date`: a datetime is returned as it is; text is parsed with the
    first of the four layouts that accepts it, and is the error otherwise.
  */
  function Parse(v: TimeValue): (r: Result<DateTime, string>)
    ensures r.Err? <==> v.Text? && forall i :: 0 <= i < |LAYOUTS| ==> ParseWith(LAYOUTS[i], v.text).None?
    ensures r.Err? ==> r.error == v.text
    ensures v.Parsed? ==> r == Ok(v.dt)
    ensures v.Text? && r.Ok? ==>
              exists i :: 0 <= i < |LAYOUTS| && ParseWith(LAYOUTS[i], v.text) == Some(r.value)
                          && forall j :: 0 <= j < i ==> ParseWith(LAYOUTS[j], v.text).None?
    ensures r.Ok? && Sound(v) ==> Valid(r.value)
  {
    match v
    case Parsed(dt) => Ok(dt)
    case Text(s) =>
      match FirstMatch(LAYOUTS, s)
      case Some(dt) => Ok(dt)
      case None => Err(s)
  }

  // ---------------------------------------------------------------- rendering

  function Piece(d: Directive, dt: DateTime): string
    requires NonNegative(dt)
  {
    match d
    case Lit(c) => [c]
    case Num(f) => Padded(Get(dt, f), Width(f))
  }

  /** `dt.strftime(layout)` */
  function Render(layout: Layout, dt: DateTime): string
    requires NonNegative(dt)
    decreases |layout|
  {
    if layout == [] then [] else Piece(layout[0], dt) + Render(layout[1..], dt)
  }

  /** The row's date key, `dt.strftime("%Y%m%d")`. */
  function DateKey(dt: DateTime): string
    requires NonNegative(dt)
  {
    Render(KEY_LAYOUT, dt)
  }

  /** `acc` with the fields that `layout` mentions taken from `dt`. */
  function Fill(layout: Layout, dt: DateTime, acc: DateTime): DateTime
    decreases |layout|
  {
    if layout == [] then acc
    else
      match layout[0]
      case Lit(_) => Fill(layout[1..], dt, acc)
      case Num(f) => Fill(layout[1..], dt, With(acc, f, Get(dt, f)))
  }

  /** Each field appears at most once in the layout. */
  predicate Once(layout: Layout) {
    forall i, j :: 0 <= i < j < |layout| && layout[i].Num? ==> layout[i] != layout[j]
  }

  lemma OnceTail(layout: Layout)
    requires Once(layout) && layout != []
    ensures Once(layout[1..])
    ensures layout[0].Num? ==> layout[0] !in layout[1..]
  {
  }

  /** A field the layout names comes from `dt`; any other keeps its value in `acc`. */
  lemma {:induction false} FillGet(layout: Layout, dt: DateTime, acc: DateTime, f: Field)
    ensures Get(Fill(layout, dt, acc), f) == if Num(f) in layout then Get(dt, f) else Get(acc, f)
    decreases |layout|
  {
    if layout != [] {
      assert Num(f) in layout <==> layout[0] == Num(f) || Num(f) in layout[1..];
      match layout[0]
      case Lit(_) =>
        FillGet(layout[1..], dt, acc, f);
      case Num(g) =>
        FillGet(layout[1..], dt, With(acc, g, Get(dt, g)), f);
    }
  }

  /** A layout that names every field fills all of them from `dt`. */
  lemma FillComplete(layout: Layout, dt: DateTime, acc: DateTime)
    requires Num(Year) in layout && Num(Month) in layout && Num(Day) in layout
    requires Num(Hour) in layout && Num(Minute) in layout && Num(Second) in layout
    ensures Fill(layout, dt, acc) == dt
  {
    FillGet(layout, dt, acc, Year);
    FillGet(layout, dt, acc, Month);
    FillGet(layout, dt, acc, Day);
    FillGet(layout, dt, acc, Hour);
    FillGet(layout, dt, acc, Minute);
    FillGet(layout, dt, acc, Second);
  }

  lemma DateTimeEq(a: DateTime, b: DateTime)
    requires forall f :: Get(a, f) == Get(b, f)
    ensures a == b
  {
    assert Get(a, Year) == Get(b, Year) && Get(a, Month) == Get(b, Month) && Get(a, Day) == Get(b, Day);
    assert Get(a, Hour) == Get(b, Hour) && Get(a, Minute) == Get(b, Minute) && Get(a, Second) == Get(b, Second);
  }

  lemma {:induction false} RenderAppend(a: Layout, b: Layout, dt: DateTime)
    requires NonNegative(dt)
    ensures Render(a + b, dt) == Render(a, dt) + Render(b, dt)
    decreases |a|
  {
    if a == [] {
      assert a + b == b;
    } else {
      assert (a + b)[0] == a[0] && (a + b)[1..] == a[1..] + b;
      RenderAppend(a[1..], b, dt);
    }
  }

  lemma ValidFits(dt: DateTime, f: Field)
    requires Valid(dt)
    ensures 0 <= Get(dt, f) < Pow10(Width(f))
  {
    assert Pow10(2) == 100;
    assert Pow10(4) == 10000;
  }

  /** Rendering a valid datetime and scanning the text back recovers the fields the layout names. */
  lemma {:induction false} ScanRender(layout: Layout, dt: DateTime, acc: DateTime)
    requires Valid(dt)
    ensures Scan(layout, Render(layout, dt), acc) == Some(Fill(layout, dt, acc))
    decreases |layout|
  {
    if layout != [] {
      var s := Render(layout, dt);
      var rest := Render(layout[1..], dt);
      match layout[0]
      case Lit(c) =>
        assert s == [c] + rest;
        assert s[1..] == rest;
        ScanRender(layout[1..], dt, acc);
      case Num(f) =>
        var w := Width(f);
        var p := Padded(Get(dt, f), w);
        assert s == p + rest;
        assert s[..w] == p && s[w..] == rest;
        ValidFits(dt, f);
        PaddedValue(Get(dt, f), w);
        ScanRender(layout[1..], dt, With(acc, f, Get(dt, f)));
    }
  }

  lemma {:induction false} ScanKeeps(layout: Layout, s: string, acc: DateTime, f: Field)
    requires Scan(layout, s, acc).Some?
    requires Num(f) !in layout
    ensures Get(Scan(layout, s, acc).value, f) == Get(acc, f)
    decreases |layout|
  {
    if layout != [] {
      assert Num(f) !in layout[1..];
      match layout[0]
      case Lit(c) =>
        ScanKeeps(layout[1..], s[1..], acc, f);
      case Num(g) =>
        var w := Width(g);
        ScanKeeps(layout[1..], s[w..], With(acc, g, DigitsValue(s[..w])), f);
    }
  }

  lemma {:induction false} ScanNonNegative(layout: Layout, s: string, acc: DateTime)
    requires NonNegative(acc)
    requires Scan(layout, s, acc).Some?
    ensures NonNegative(Scan(layout, s, acc).value)
    decreases |layout|
  {
    if layout != [] {
      match layout[0]
      case Lit(c) =>
        ScanNonNegative(layout[1..], s[1..], acc);
      case Num(f) =>
        var w := Width(f);
        ScanNonNegative(layout[1..], s[w..], With(acc, f, DigitsValue(s[..w])));
    }
  }

  /** Whatever a layout accepts is exactly the rendering of what it read. */
  lemma {:induction false} ScanThenRender(layout: Layout, s: string, acc: DateTime)
    requires NonNegative(acc) && Once(layout)
    requires Scan(layout, s, acc).Some?
    ensures NonNegative(Scan(layout, s, acc).value)
    ensures s == Render(layout, Scan(layout, s, acc).value)
    decreases |layout|
  {
    ScanNonNegative(layout, s, acc);
    if layout != [] {
      OnceTail(layout);
      var r := Scan(layout, s, acc).value;
      match layout[0]
      case Lit(c) =>
        ScanThenRender(layout[1..], s[1..], acc);
        assert s == [c] + s[1..];
      case Num(f) =>
        var w := Width(f);
        var acc' := With(acc, f, DigitsValue(s[..w]));
        ScanThenRender(layout[1..], s[w..], acc');
        NumThenRender(layout, s, acc, f);
    }
  }

  /** The step of `ScanThenRender` for a leading field, given the claim for the rest of the layout. */
  lemma NumThenRender(layout: Layout, s: string, acc: DateTime, f: Field)
    requires NonNegative(acc) && Once(layout) && layout != [] && layout[0] == Num(f)
    requires Scan(layout, s, acc).Some?
    requires NonNegative(Scan(layout, s, acc).value)
    requires var w := Width(f);
             w <= |s| && AllDigits(s[..w]) &&
             var rest := Scan(layout[1..], s[w..], With(acc, f, DigitsValue(s[..w])));
             rest.Some? && NonNegative(rest.value) && s[w..] == Render(layout[1..], rest.value)
    ensures s == Render(layout, Scan(layout, s, acc).value)
  {
    OnceTail(layout);
    var r := Scan(layout, s, acc).value;
    var w := Width(f);
    var t := s[..w];
    var acc' := With(acc, f, DigitsValue(t));
    assert r == Scan(layout[1..], s[w..], acc').value;
    ScanKeeps(layout[1..], s[w..], acc', f);
    PaddedDigits(t);
    assert Piece(layout[0], r) == t;
    SplitAt(s, w);
  }

  lemma SplitAt(s: string, w: nat)
    requires w <= |s|
    ensures s == s[..w] + s[w..]
  {
  }

  /** Filling the start value from what was read gives back what was read. */
  lemma {:induction false} ScanThenFill(layout: Layout, s: string, acc: DateTime)
    requires Once(layout)
    requires Scan(layout, s, acc).Some?
    ensures Fill(layout, Scan(layout, s, acc).value, acc) == Scan(layout, s, acc).value
    decreases |layout|
  {
    if layout != [] {
      OnceTail(layout);
      var r := Scan(layout, s, acc).value;
      match layout[0]
      case Lit(c) =>
        ScanThenFill(layout[1..], s[1..], acc);
      case Num(f) =>
        var w := Width(f);
        var acc' := With(acc, f, DigitsValue(s[..w]));
        assert r == Scan(layout[1..], s[w..], acc').value;
        ScanThenFill(layout[1..], s[w..], acc');
        ScanKeeps(layout[1..], s[w..], acc', f);
        assert With(acc, f, Get(r, f)) == acc';
    }
  }

  /**
    What one layout accepts, characterised: exactly the renderings of valid
    datetimes whose fields outside the layout are `strptime`'s defaults.
  */
  lemma ParseWithExactly(layout: Layout, s: string, dt: DateTime)
    requires Once(layout)
    ensures ParseWith(layout, s) == Some(dt) <==>
              Valid(dt) && Fill(layout, dt, UNSET) == dt && s == Render(layout, dt)
  {
    if ParseWith(layout, s) == Some(dt) {
      ScanThenRender(layout, s, UNSET);
      ScanThenFill(layout, s, UNSET);
    }
    if Valid(dt) && Fill(layout, dt, UNSET) == dt && s == Render(layout, dt) {
      ScanRender(layout, dt, UNSET);
    }
  }

  // ---------------------------------------------------------------- properties of parse_date

  /** A value that is already a datetime parses to itself, so parsing a parsed value changes nothing. */
  lemma ParseIdempotent(v: TimeValue)
    ensures v.Parsed? ==> Parse(v) == Ok(v.dt)
    ensures Parse(v).Ok? ==> Parse(Parsed(Parse(v).value)) == Parse(v)
  {
  }

  /** Text that none of the four layouts accepts is the error, whatever layout it resembles. */
  lemma RejectsSlashedIsoDate()
    ensures Parse(Text("2023/03/01 05:00")) == Err("2023/03/01 05:00")
  {
    var s := "2023/03/01 05:00";
    assert |s| == 16 && s[2] == '2' && s[4] == '/';
    DayFirstRejects(LAYOUTS[0], s);
    DayFirstRejects(LAYOUTS[1], s);
    DayFirstRejects(LAYOUTS[2], s);
    YearFirstRejects(LAYOUTS[3], s);
    NoneMatches(LAYOUTS, s);
  }

  /** A year-first layout rejects text whose fifth character is not its first separator. */
  lemma YearFirstRejects(layout: Layout, s: string)
    requires |layout| >= 2 && layout[0] == Num(Year) && layout[1].Lit?
    requires |s| >= 5 && s[4] != layout[1].c
    ensures ParseWith(layout, s).None?
  {
    if AllDigits(s[..4]) {
      assert Scan(layout, s, UNSET) == Scan(layout[1..], s[4..], With(UNSET, Year, DigitsValue(s[..4])));
      assert layout[1..][0] == layout[1] && s[4..][0] == s[4];
    }
  }

  lemma NoneMatches(layouts: seq<Layout>, s: string)
    requires |layouts| == 4
    requires ParseWith(layouts[0], s).None? && ParseWith(layouts[1], s).None?
    requires ParseWith(layouts[2], s).None? && ParseWith(layouts[3], s).None?
    ensures forall i :: 0 <= i < |layouts| ==> ParseWith(layouts[i], s).None?
  {
  }

  lemma LayoutsOnce()
    ensures forall i :: 0 <= i < |LAYOUTS| ==> Once(LAYOUTS[i])
    ensures Once(KEY_LAYOUT)
  {
  }

  /** The day-first example of the site files: 1 March 2023, 05:00, keyed `20230301`, hour 5. */
  lemma ParsesDayFirstExample(s: string, dt: DateTime)
    requires s == "01/03/2023 05:00" && dt == DateTime(2023, 3, 1, 5, 0, 0)
    ensures Parse(Text(s)) == Ok(dt)
    ensures DateKey(dt) == "20230301" && dt.hour == 5
  {
    ExampleReadsDayFirst(s, dt);
    FirstDecides(LAYOUTS, s, dt);
    ExampleKey(dt);
  }

  lemma ExampleReadsDayFirst(s: string, dt: DateTime)
    requires s == "01/03/2023 05:00" && dt == DateTime(2023, 3, 1, 5, 0, 0)
    ensures ParseWith(LAYOUTS[0], s) == Some(dt)
  {
    var layout := LAYOUTS[0];
    ExampleRendering(layout, dt, s);
    ExampleFill(layout, dt);
    ScanRender(layout, dt, UNSET);
    assert Valid(dt);
  }

  lemma ExampleKey(dt: DateTime)
    requires dt == DateTime(2023, 3, 1, 5, 0, 0)
    ensures DateKey(dt) == "20230301"
  {
  }

  lemma ExampleRendering(layout: Layout, dt: DateTime, s: string)
    requires layout == DAY_FIRST_SLASH && dt == DateTime(2023, 3, 1, 5, 0, 0) && s == "01/03/2023 05:00"
    ensures Render(layout, dt) == s
  {
    var a: Layout := [Num(Day), Lit('/'), Num(Month)];
    var b: Layout := [Lit('/'), Num(Year), Lit(' ')];
    var c: Layout := [Num(Hour), Lit(':'), Num(Minute)];
    ExampleDayMonth(a, dt);
    ExampleYear(b, dt);
    ExampleTime(c, dt);
    SlashLayoutSplit(layout, a, b, c);
    RenderAppend(a, b, dt);
    RenderAppend(a + b, c, dt);
    ExampleTextSplit(s, "01/03", "/2023 ", "05:00");
  }

  lemma SlashLayoutSplit(layout: Layout, a: Layout, b: Layout, c: Layout)
    requires layout == DAY_FIRST_SLASH
    requires a == [Num(Day), Lit('/'), Num(Month)] && b == [Lit('/'), Num(Year), Lit(' ')]
    requires c == [Num(Hour), Lit(':'), Num(Minute)]
    ensures layout == a + b + c
  {
  }

  lemma ExampleTextSplit(s: string, x: string, y: string, z: string)
    requires s == "01/03/2023 05:00" && x == "01/03" && y == "/2023 " && z == "05:00"
    ensures s == x + y + z
  {
  }

  /** `Render` of a three-directive layout, one piece after another. */
  lemma RenderThree(layout: Layout, dt: DateTime)
    requires |layout| == 3 && NonNegative(dt)
    ensures Render(layout, dt) == Piece(layout[0], dt) + Piece(layout[1], dt) + Piece(layout[2], dt)
  {
    var rest := layout[1..];
    assert Render(layout, dt) == Piece(layout[0], dt) + Render(rest, dt);
    assert Render(rest, dt) == Piece(rest[0], dt) + Render(rest[1..], dt);
    assert Render(rest[1..], dt) == Piece(rest[1..][0], dt) + Render(rest[1..][1..], dt);
    assert rest[1..][1..] == [];
  }

  lemma ExampleDayMonth(a: Layout, dt: DateTime)
    requires a == [Num(Day), Lit('/'), Num(Month)] && dt == DateTime(2023, 3, 1, 5, 0, 0)
    ensures Render(a, dt) == "01/03"
  {
    RenderThree(a, dt);
    TwoDigits(1, '0', '1');
    TwoDigits(3, '0', '3');
  }

  lemma ExampleYear(b: Layout, dt: DateTime)
    requires b == [Lit('/'), Num(Year), Lit(' ')] && dt == DateTime(2023, 3, 1, 5, 0, 0)
    ensures Render(b, dt) == "/2023 "
  {
    RenderThree(b, dt);
    TwoDigits(20, '2', '0');
    assert Padded(2023, 4) == "2023" by {
      assert Padded(2023, 4) == Padded(202, 3) + ['3'];
      assert Padded(202, 3) == Padded(20, 2) + ['2'];
    }
  }

  lemma ExampleTime(c: Layout, dt: DateTime)
    requires c == [Num(Hour), Lit(':'), Num(Minute)] && dt == DateTime(2023, 3, 1, 5, 0, 0)
    ensures Render(c, dt) == "05:00"
  {
    RenderThree(c, dt);
    TwoDigits(5, '0', '5');
    TwoDigits(0, '0', '0');
  }

  /** The two-digit rendering of `n`, for a literal `n`. */
  lemma TwoDigits(n: nat, tens: char, units: char)
    requires n < 100 && tens as int == '0' as int + n / 10 && units as int == '0' as int + n % 10
    ensures Padded(n, 2) == [tens, units]
  {
    assert Padded(n / 10, 1) == Padded(n / 100, 0) + [tens];
  }

  lemma ExampleFill(layout: Layout, dt: DateTime)
    requires layout == DAY_FIRST_SLASH && dt == DateTime(2023, 3, 1, 5, 0, 0)
    ensures Fill(layout, dt, UNSET) == dt
  {
    assert layout[0] == Num(Day) && layout[2] == Num(Month);
    assert layout[4] == Num(Year) && layout[6] == Num(Hour) && layout[8] == Num(Minute);
    FillGet(layout, dt, UNSET, Year);
    FillGet(layout, dt, UNSET, Month);
    FillGet(layout, dt, UNSET, Day);
    FillGet(layout, dt, UNSET, Hour);
    FillGet(layout, dt, UNSET, Minute);
    FillGet(layout, dt, UNSET, Second);
    DateTimeEq(Fill(layout, dt, UNSET), dt);
  }

  lemma FirstDecides(layouts: seq<Layout>, s: string, dt: DateTime)
    requires |layouts| > 0 && ParseWith(layouts[0], s) == Some(dt)
    ensures FirstMatch(layouts, s) == Some(dt)
  {
  }

  /** A day-first layout rejects text whose third character is a digit rather than its separator. */
  lemma DayFirstRejects(layout: Layout, s: string)
    requires |layout| >= 2 && layout[0] == Num(Day) && layout[1].Lit? && !IsDigit(layout[1].c)
    requires |s| >= 3 && IsDigit(s[2])
    ensures ParseWith(layout, s).None?
  {
    if AllDigits(s[..2]) {
      assert Scan(layout, s, UNSET) == Scan(layout[1..], s[2..], With(UNSET, Day, DigitsValue(s[..2])));
      assert layout[1..][0] == layout[1] && s[2..][0] == s[2];
    }
  }

  /**
    A timestamp written back as `%Y-%m-%d %H:%M:%S` parses to the same
    datetime: the three day-first layouts reject it (its third character is a
    digit) and the ISO layout reads it.
  */
  lemma IsoRenderingReparses(dt: DateTime)
    requires Valid(dt)
    ensures Parse(Text(Render(ISO_SECONDS, dt))) == Ok(dt)
  {
    var s := Render(ISO_SECONDS, dt);
    IsoReads(ISO_SECONDS, dt);
    YearFirstDigit(ISO_SECONDS, dt);
    DayFirstLayouts(LAYOUTS);
    FourthDecides(LAYOUTS, s, dt);
  }

  /** The first three layouts start with a two-digit day and a non-digit separator; the last is `ISO_SECONDS`. */
  lemma DayFirstLayouts(layouts: seq<Layout>)
    requires layouts == LAYOUTS
    ensures |layouts| == 4 && layouts[3] == ISO_SECONDS
    ensures forall i :: 0 <= i < 3 ==>
      |layouts[i]| >= 2 && layouts[i][0] == Num(Day) && layouts[i][1].Lit? && !IsDigit(layouts[i][1].c)
  {
  }

  lemma IsoReads(layout: Layout, dt: DateTime)
    requires layout == ISO_SECONDS && Valid(dt)
    ensures ParseWith(layout, Render(layout, dt)) == Some(dt)
  {
    assert layout[0] == Num(Year) && layout[2] == Num(Month) && layout[4] == Num(Day);
    assert layout[6] == Num(Hour) && layout[8] == Num(Minute) && layout[10] == Num(Second);
    FillComplete(layout, dt, UNSET);
    ScanRender(layout, dt, UNSET);
  }

  lemma YearFirstDigit(layout: Layout, dt: DateTime)
    requires Valid(dt) && |layout| > 0 && layout[0] == Num(Year)
    ensures |Render(layout, dt)| >= 3 && IsDigit(Render(layout, dt)[2])
  {
    var y := Padded(dt.year, 4);
    assert Render(layout, dt) == y + Render(layout[1..], dt);
  }

  lemma FourthDecides(layouts: seq<Layout>, s: string, dt: DateTime)
    requires |layouts| == 4
    requires forall i :: 0 <= i < 3 ==>
      |layouts[i]| >= 2 && layouts[i][0] == Num(Day) && layouts[i][1].Lit? && !IsDigit(layouts[i][1].c)
    requires |s| >= 3 && IsDigit(s[2])
    requires ParseWith(layouts[3], s) == Some(dt)
    ensures FirstMatch(layouts, s) == Some(dt)
  {
    DayFirstRejects(layouts[0], s);
    DayFirstRejects(layouts[1], s);
    DayFirstRejects(layouts[2], s);
    assert FirstMatch(layouts[3..], s) == Some(dt);
    assert FirstMatch(layouts[2..], s) == FirstMatch(layouts[2..][1..], s) by { assert layouts[2..][1..] == layouts[3..]; }
    assert FirstMatch(layouts[1..], s) == FirstMatch(layouts[1..][1..], s) by { assert layouts[1..][1..] == layouts[2..]; }
  }

  /** The date key is eight digits, and two valid datetimes share it exactly when they fall on the same day. */
  /** The date key reads back, with `%Y%m%d`, as midnight of the same day. */
  lemma DateKeyReads(dt: DateTime)
    requires Valid(dt)
    ensures AllDigits(DateKey(dt))
    ensures Scan(KEY_LAYOUT, DateKey(dt), UNSET) == Some(DateTime(dt.year, dt.month, dt.day, 0, 0, 0))
  {
    DateKeyExactly(dt, dt);
    ScanRender(KEY_LAYOUT, dt, UNSET);
    assert Fill(KEY_LAYOUT, dt, UNSET) == DateTime(dt.year, dt.month, dt.day, 0, 0, 0);
  }

  lemma DateKeyExactly(a: DateTime, b: DateTime)
    requires Valid(a) && Valid(b)
    ensures |DateKey(a)| == 8 && AllDigits(DateKey(a))
    ensures DateKey(a) == DateKey(b) <==> a.year == b.year && a.month == b.month && a.day == b.day
  {
    ScanRender(KEY_LAYOUT, a, UNSET);
    ScanRender(KEY_LAYOUT, b, UNSET);
    assert Fill(KEY_LAYOUT, a, UNSET) == DateTime(a.year, a.month, a.day, 0, 0, 0);
    assert Fill(KEY_LAYOUT, b, UNSET) == DateTime(b.year, b.month, b.day, 0, 0, 0);
    assert DateKey(a) == Padded(a.year, 4) + Padded(a.month, 2) + Padded(a.day, 2);
    assert DateKey(b) == Padded(b.year, 4) + Padded(b.month, 2) + Padded(b.day, 2);
  }
}
