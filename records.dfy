/**
  The values the update moves around: rows of a site file, the five
  meteorological parameters, rows of an API response and the
  `(date, hour, value)` updates built from them.
*/
module Records {
  import opened Wrappers
  import opened Timestamps

  /** The five parameters requested from the API, one column each in a site file. */
  datatype Param = Precipitation | Temperature | Humidity | WindSpeed | SolarRadiation

  /** The order of the keys of the update dictionary. */
  const PARAMS: seq<Param> := [Precipitation, Temperature, Humidity, WindSpeed, SolarRadiation]

  const PARAM_SET: set<Param> := {Precipitation, Temperature, Humidity, WindSpeed, SolarRadiation}

  /** The column name of a parameter, as the API and the site file spell it. */
  function ColumnName(p: Param): string {
    match p
    case Precipitation => "PRECTOTCORR"
    case Temperature => "T2M"
    case Humidity => "RH2M"
    case WindSpeed => "WS2M"
    case SolarRadiation => "ALLSKY_SFC_SW_DWN"
  }

  /** The position of a parameter in `PARAMS`. */
  function ParamIndex(p: Param): (i: nat)
    ensures i < |PARAMS| && PARAMS[i] == p
  {
    match p
    case Precipitation => 0
    case Temperature => 1
    case Humidity => 2
    case WindSpeed => 3
    case SolarRadiation => 4
  }

  lemma ParamCovered(p: Param)
    ensures p in PARAM_SET
  {
  }

  /** A cell of a table; values are only ever copied, never computed with. */
  datatype Cell = Blank | Number(x: real) | Word(s: string)

  /** The five parameter cells of one row. */
  datatype Reading = Reading(precipitation: Cell, temperature: Cell, humidity: Cell, windSpeed: Cell,
                             solarRadiation: Cell)
  {
    function Get(p: Param): Cell {
      match p
      case Precipitation => precipitation
      case Temperature => temperature
      case Humidity => humidity
      case WindSpeed => windSpeed
      case SolarRadiation => solarRadiation
    }

    function Set(p: Param, v: Cell): Reading {
      match p
      case Precipitation => this.(precipitation := v)
      case Temperature => this.(temperature := v)
      case Humidity => this.(humidity := v)
      case WindSpeed => this.(windSpeed := v)
      case SolarRadiation => this.(solarRadiation := v)
    }
  }

  /** Setting one parameter changes that cell and no other. */
  lemma SetGet(r: Reading, p: Param, v: Cell, q: Param)
    ensures r.Set(p, v).Get(q) == if p == q then v else r.Get(q)
  {
  }

  /** Two readings with the same five cells are the same reading. */
  lemma ReadingEq(a: Reading, b: Reading)
    requires forall p :: a.Get(p) == b.Get(p)
    ensures a == b
  {
    assert a.Get(Precipitation) == b.Get(Precipitation) && a.Get(Temperature) == b.Get(Temperature);
    assert a.Get(Humidity) == b.Get(Humidity) && a.Get(WindSpeed) == b.Get(WindSpeed);
    assert a.Get(SolarRadiation) == b.Get(SolarRadiation);
  }

  /**
    One row of a site file: its `local_time`, its five parameter columns and
    whatever other measured columns it has, which the update never touches.
  */
  datatype Row = Row(localTime: TimeValue, params: Reading, measured: seq<Cell>)

  /** The derived `(date, hour)` columns of a row. */
  datatype Key = Key(date: string, hour: int)

  /** One `(date, hour, value)` entry of a parameter's update list. */
  datatype Update = Update(date: string, hour: int, value: Cell)

  function KeyOf(u: Update): Key {
    Key(u.date, u.hour)
  }

  /** The derived columns of a parsed timestamp: `strftime("%Y%m%d")` and `.hour`. */
  function RowKey(dt: DateTime): (k: Key)
    requires Valid(dt)
    ensures |k.date| == 8 && AllDigits(k.date) && k.hour == dt.hour && 0 <= k.hour <= 23
    ensures Scan(KEY_LAYOUT, k.date, UNSET) == Some(DateTime(dt.year, dt.month, dt.day, 0, 0, 0))
  {
    DateKeyExactly(dt, dt);
    DateKeyReads(dt);
    Key(DateKey(dt), dt.hour)
  }

  /** A data row of an API response after the preamble: the `HR` column and the five parameters. */
  datatype ApiRow = ApiRow(hr: int, reading: Reading)

  /**
    A response body: its text, whose emptiness decides success, and the table
    `read_csv(skiprows=13)` makes of it, None where reading the table or
    selecting its `HR` and parameter columns raises.
  */
  datatype Body = Body(text: string, table: Option<seq<ApiRow>>)
}
