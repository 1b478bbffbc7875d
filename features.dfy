/**
 * The feature builder: a timestamp and optional previous-hour temperature and humidity
 * become the named feature vector a metric's model is scored on.
 */
module FeatureBuilder {
  import opened Common
  import opened Calendar

  /** The deployment site, fixed for the process. */
  const LAT: real := 27.83
  const LON: real := 76.23

  /** The feature names the models were trained on. */
  datatype Column =
    | Year | Month | Day | DayOfWeek | MonthSin | MonthCos | DowSin | DowCos
    | Latitude | Longitude | TempLag1 | HumidityLag1

  /** The key under which each column appears in the feature dict and the frame. */
  function Name(c: Column): string
  {
    match c
    case Year => "year"
    case Month => "month"
    case Day => "day"
    case DayOfWeek => "dayofweek"
    case MonthSin => "month_sin"
    case MonthCos => "month_cos"
    case DowSin => "dow_sin"
    case DowCos => "dow_cos"
    case Latitude => "latitude"
    case Longitude => "longitude"
    case TempLag1 => "temp_lag1"
    case HumidityLag1 => "humidity_lag1"
  }

  /** Distinct columns have distinct keys, so a column stands for its key in the dict. */
  lemma NamesDistinct(a: Column, b: Column)
    ensures Name(a) == Name(b) <==> a == b
  {
  }

  /** The ten columns every feature vector has, in their fixed order. */
  const BASE_COLUMNS: seq<Column> :=
    [Year, Month, Day, DayOfWeek, MonthSin, MonthCos, DowSin, DowCos, Latitude, Longitude]

  /** The twelve columns of a vector that carries both lag values. */
  const ALL_COLUMNS: seq<Column> := BASE_COLUMNS + [TempLag1] + [HumidityLag1]

  /**
   * The floating-point library, left uninterpreted: `sinTurns(k, n)` is `np.sin(2 * np.pi * k / n)`,
   * `cosTurns(k, n)` is `np.cos(2 * np.pi * k / n)`, `round2(x)` is Python's `round(float(x), 2)`
   * and `show(x)` is `str(x)`.
   */
  datatype Numerics = Numerics(
    sinTurns: (int, int) -> real,
    cosTurns: (int, int) -> real,
    round2: real -> real,
    show: real -> string)

  /** A Python dict from feature name to value: its keys in insertion order, and their values. */
  datatype FeatureMap = FeatureMap(keys: seq<Column>, values: map<Column, real>)

  predicate Distinct<T(==)>(s: seq<T>)
  {
    forall i, j :: 0 <= i < j < |s| ==> s[i] != s[j]
  }

  predicate WellFormed(f: FeatureMap)
  {
    Distinct(f.keys) && (forall c :: c in f.values <==> c in f.keys)
  }

  /** `f[c] = v`: a new key goes to the end, an existing key keeps its place. */
  function Insert(f: FeatureMap, c: Column, v: real): (r: FeatureMap)
    requires WellFormed(f)
    ensures WellFormed(r) && r.values == f.values[c := v]
    ensures r.keys == if c in f.values then f.keys else f.keys + [c]
  {
    if c in f.values then FeatureMap(f.keys, f.values[c := v])
    else FeatureMap(f.keys + [c], f.values[c := v])
  }

  /** The dict literal of the ten base features of date `d`, whose weekday is `dow`. */
  function BaseValues(num: Numerics, d: Date, dow: int): (m: map<Column, real>)
    ensures m.Keys == {Year, Month, Day, DayOfWeek, MonthSin, MonthCos, DowSin, DowCos, Latitude, Longitude}
    ensures TempLag1 !in m && HumidityLag1 !in m
    ensures m[Year] == d.year as real && m[Month] == d.month as real && m[Day] == d.day as real
    ensures m[DayOfWeek] == dow as real
    ensures m[MonthSin] == num.sinTurns(d.month, 12) && m[MonthCos] == num.cosTurns(d.month, 12)
    ensures m[DowSin] == num.sinTurns(dow, 7) && m[DowCos] == num.cosTurns(dow, 7)
    ensures m[Latitude] == LAT && m[Longitude] == LON
  {
    map[
      Year := d.year as real,
      Month := d.month as real,
      Day := d.day as real,
      DayOfWeek := dow as real,
      MonthSin := num.sinTurns(d.month, 12),
      MonthCos := num.cosTurns(d.month, 12),
      DowSin := num.sinTurns(dow, 7),
      DowCos := num.cosTurns(dow, 7),
      Latitude := LAT,
      Longitude := LON]
  }

  lemma BaseWellFormed(m: map<Column, real>)
    requires m.Keys == {Year, Month, Day, DayOfWeek, MonthSin, MonthCos, DowSin, DowCos, Latitude, Longitude}
    ensures WellFormed(FeatureMap(BASE_COLUMNS, m))
  {
  }

  /** The two conditional inserts of `create_features`: each lag key only when its value is given. */
  function WithLags(base: FeatureMap, prevTemp: Option<real>, prevHumidity: Option<real>): (f: FeatureMap)
    requires WellFormed(base) && TempLag1 !in base.values && HumidityLag1 !in base.values
    ensures WellFormed(f)
    ensures f.keys == base.keys + (if prevTemp.Some? then [TempLag1] else [])
                                + (if prevHumidity.Some? then [HumidityLag1] else [])
    ensures (TempLag1 in f.values <==> prevTemp.Some?) && (HumidityLag1 in f.values <==> prevHumidity.Some?)
    ensures prevTemp.Some? ==> f.values[TempLag1] == prevTemp.value
    ensures prevHumidity.Some? ==> f.values[HumidityLag1] == prevHumidity.value
    ensures forall c :: c in base.values ==> c in f.values && f.values[c] == base.values[c]
  {
    var withTemp := if prevTemp.Some? then Insert(base, TempLag1, prevTemp.value) else base;
    if prevHumidity.Some? then Insert(withTemp, HumidityLag1, prevHumidity.value) else withTemp
  }

  /**
   * `create_features(date_obj, prev_temp, prev_humidity)`. Only the date part of `t` is read;
   * `None` lag arguments are the absent Options.
   */
  function CreateFeatures(num: Numerics, t: DateTime, prevTemp: Option<real>, prevHumidity: Option<real>)
    : (f: FeatureMap)
    requires Valid(t.date)
    ensures WellFormed(f)
    ensures f.keys == BASE_COLUMNS + (if prevTemp.Some? then [TempLag1] else [])
                                   + (if prevHumidity.Some? then [HumidityLag1] else [])
    ensures (TempLag1 in f.values <==> prevTemp.Some?) && (HumidityLag1 in f.values <==> prevHumidity.Some?)
    ensures prevTemp.Some? ==> f.values[TempLag1] == prevTemp.value
    ensures prevHumidity.Some? ==> f.values[HumidityLag1] == prevHumidity.value
    ensures forall c :: c in BASE_COLUMNS ==> c in f.values && f.values[c] == BaseValues(num, t.date, Weekday(t.date))[c]
  {
    var d := t.date;
    var dow := Weekday(d);
    var base := FeatureMap(BASE_COLUMNS, BaseValues(num, d, dow));
    BaseWellFormed(base.values);
    WithLags(base, prevTemp, prevHumidity)
  }

  /** The time of day plays no part in the features. */
  lemma FeaturesIgnoreTime(num: Numerics, t: DateTime, u: DateTime, prevTemp: Option<real>, prevHumidity: Option<real>)
    requires Valid(t.date) && t.date == u.date
    ensures CreateFeatures(num, t, prevTemp, prevHumidity) == CreateFeatures(num, u, prevTemp, prevHumidity)
  {
  }

  /** The frame's column list: the base columns, then each lag column the dict holds. */
  function FeatureColumns(f: FeatureMap): seq<Column>
  {
    BASE_COLUMNS
      + (if TempLag1 in f.values then [TempLag1] else [])
      + (if HumidityLag1 in f.values then [HumidityLag1] else [])
  }

  /** One named cell of the single-row frame handed to a model. */
  datatype Cell = Cell(column: Column, value: real)

  type Row = seq<Cell>

  /** `pd.DataFrame([f])[cols]`: the dict's values, in the order of `cols`. */
  function Frame(f: FeatureMap, cols: seq<Column>): (row: Row)
    requires forall c :: c in cols ==> c in f.values
    ensures |row| == |cols|
    ensures forall i :: 0 <= i < |cols| ==> row[i].column == cols[i]
  {
    seq(|cols|, i requires 0 <= i < |cols| => Cell(cols[i], f.values[cols[i]]))
  }

  /** Each cell of a frame holds the dict's value for its column. */
  lemma FrameCell(f: FeatureMap, cols: seq<Column>, i: int)
    requires forall c :: c in cols ==> c in f.values
    requires 0 <= i < |cols|
    ensures Frame(f, cols)[i] == Cell(cols[i], f.values[cols[i]])
  {
  }

  /**
   * The column selection keeps the builder's own order: framing a built vector selects every
   * key of the vector exactly once, in insertion order.
   */
  lemma FeatureColumnsOfBuilt(num: Numerics, t: DateTime, prevTemp: Option<real>, prevHumidity: Option<real>)
    requires Valid(t.date)
    ensures var f := CreateFeatures(num, t, prevTemp, prevHumidity); FeatureColumns(f) == f.keys
  {
    var f := CreateFeatures(num, t, prevTemp, prevHumidity);
    var withTemp := if prevTemp.Some? then [TempLag1] else [];
    var withHumidity := if prevHumidity.Some? then [HumidityLag1] else [];
    assert FeatureColumns(f) == BASE_COLUMNS + withTemp + withHumidity;
  }

  /** The value a fully supplied vector holds for column `c`, column by column. */
  function ColumnValue(num: Numerics, d: ValidDate, temp: real, humidity: real, c: Column): real
  {
    match c
    case Year => d.year as real
    case Month => d.month as real
    case Day => d.day as real
    case DayOfWeek => Weekday(d) as real
    case MonthSin => num.sinTurns(d.month, 12)
    case MonthCos => num.cosTurns(d.month, 12)
    case DowSin => num.sinTurns(Weekday(d), 7)
    case DowCos => num.cosTurns(Weekday(d), 7)
    case Latitude => LAT
    case Longitude => LON
    case TempLag1 => temp
    case HumidityLag1 => humidity
  }

  /** With both lag values supplied, the vector holds all twelve columns, each with its value. */
  lemma FullVector(num: Numerics, t: DateTime, temp: real, humidity: real)
    requires Valid(t.date)
    ensures var f := CreateFeatures(num, t, Some(temp), Some(humidity));
      && f.keys == ALL_COLUMNS
      && forall c :: c in f.values && f.values[c] == ColumnValue(num, t.date, temp, humidity, c)
  {
    var f := CreateFeatures(num, t, Some(temp), Some(humidity));
    var m := BaseValues(num, t.date, Weekday(t.date));
    forall c
      ensures c in f.values && f.values[c] == ColumnValue(num, t.date, temp, humidity, c)
    {
      match c
      case TempLag1 =>
      case HumidityLag1 =>
      case _ =>
        assert c in BASE_COLUMNS;
        assert f.values[c] == m[c];
    }
  }
}
