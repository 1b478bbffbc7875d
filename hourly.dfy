/**
 * The hourly predictor (`predict_hourly`): for one metric and one date, 24 sequential scoring
 * calls, one per hour, each hour's raw temperature or humidity prediction fed back as the next
 * hour's lag feature.
 */
module HourlyPredictor {
  import opened Common
  import opened Calendar
  import opened FeatureBuilder
  import Text

  /** The metrics a model file exists for, in the order the loader visits them. */
  const METRIC_NAMES: seq<string> := ["temperature", "humidity", "pressure", "wind_speed", "uv_index"]

  /** One invocation of a model's `predict`: which metric's model, on which one-row frame. */
  datatype Call = Call(metric: string, row: Row)

  /**
   * What the request-handling code reads from the process: the names of the loaded models in
   * dict order, the models themselves as one scoring function, the float library, and the
   * `strptime(s, '%Y-%m-%d')` parser (None where it raises ValueError).
   */
  datatype Env = Env(
    loaded: seq<string>,
    score: (string, Row) -> real,
    num: Numerics,
    parse: string -> Option<ValidDate>)

  /** The model dict as the loader leaves it: each key once, each a known metric. */
  predicate StoreValid(env: Env)
  {
    Distinct(env.loaded) && forall m :: m in env.loaded ==> m in METRIC_NAMES
  }

  /** `{'hour': ..., 'datetime': ..., 'predicted': ...}` */
  datatype HourlyPrediction = HourlyPrediction(hour: string, datetime: string, predicted: real)

  /** What `predict_hourly` does: returns None, raises ValueError on the date, or returns the list. */
  datatype HourlyResult = NoModel | ParseFailed | Hours(hours: seq<HourlyPrediction>)

  /** The carried lag inputs `prev_temp` and `prev_humidity`. */
  datatype Lags = Lags(temp: real, humidity: real)

  /** The fixed cold-start lag values. */
  const DEFAULT_LAGS := Lags(25.0, 65.0)

  /** The feedback step at the end of each hour. */
  function NextLags(metric: string, lags: Lags, raw: real): Lags
  {
    if metric == "temperature" then lags.(temp := raw)
    else if metric == "humidity" then lags.(humidity := raw)
    else lags
  }

  /** `f"{hour:02d}:00"` */
  function HourLabel(h: nat): (s: string)
    requires h < 100
    ensures |s| == 5
  {
    Text.Pad2(h) + ":00"
  }

  /** The label reads back as its hour. */
  lemma ReadHourLabel(h: nat)
    requires h < 100
    ensures var s := HourLabel(h); Text.ReadDigits(s[..2]) == Some(h) && s[2..] == ":00"
  {
    var s := HourLabel(h);
    assert s[..2] == Text.Pad2(h);
    Text.ReadPad2(h);
  }

  /** The timestamp of hour `h` of date `d`: `date_obj.replace(hour=h, minute=0, second=0)`. */
  function HourTime(d: ValidDate, h: nat): DateTime
  {
    DateTime(d, h, 0, 0)
  }

  /** The frame scored at hour `h` of date `d` with lag inputs `lags`. */
  function HourRow(num: Numerics, d: ValidDate, h: nat, lags: Lags): Row
  {
    var f := CreateFeatures(num, HourTime(d, h), Some(lags.temp), Some(lags.humidity));
    Frame(f, FeatureColumns(f))
  }

  /**
   * A frame builder: the frame scored at an hour, given the lag inputs in force. The hourly
   * schedule below is stated for any builder; `Rows(num, d)` is the one `predict_hourly` uses.
   */
  type RowBuilder = (nat, Lags) -> Row

  /** The frame builder of date `d`. */
  function Rows(num: Numerics, d: ValidDate): RowBuilder
  {
    (h: nat, lags: Lags) => HourRow(num, d, h, lags)
  }

  /** The lag inputs in force at hour `h`. */
  function LagsAt(env: Env, rows: RowBuilder, metric: string, h: nat): Lags
    decreases h
  {
    if h == 0 then DEFAULT_LAGS
    else
      var before := LagsAt(env, rows, metric, h - 1);
      NextLags(metric, before, env.score(metric, rows(h - 1, before)))
  }

  /** The scoring call of hour `h`. */
  function HourCall(env: Env, rows: RowBuilder, metric: string, h: nat): Call
  {
    Call(metric, rows(h, LagsAt(env, rows, metric, h)))
  }

  /** The record of hour `h` of date `d` whose model returned `raw`. */
  function Record(num: Numerics, d: ValidDate, h: nat, raw: real): HourlyPrediction
    requires h < 24
  {
    HourlyPrediction(HourLabel(h), IsoFormat(HourTime(d, h)), num.round2(raw))
  }

  /** The record of hour `h`. */
  function HourRecord(env: Env, d: ValidDate, rows: RowBuilder, metric: string, h: nat): HourlyPrediction
    requires h < 24
  {
    Record(env.num, d, h, env.score(metric, HourCall(env, rows, metric, h).row))
  }

  /** The records of the first `n` hours. */
  function RecordsThrough(env: Env, d: ValidDate, rows: RowBuilder, metric: string, n: nat)
    : (r: seq<HourlyPrediction>)
    requires n <= 24
    ensures |r| == n
  {
    if n == 0 then [] else RecordsThrough(env, d, rows, metric, n - 1) + [HourRecord(env, d, rows, metric, n - 1)]
  }

  /** The scoring calls of the first `n` hours, in the order they are made. */
  function CallsThrough(env: Env, rows: RowBuilder, metric: string, n: nat): (r: seq<Call>)
    ensures |r| == n
  {
    if n == 0 then [] else CallsThrough(env, rows, metric, n - 1) + [HourCall(env, rows, metric, n - 1)]
  }

  /** One hour of the loop: what it appends and the lags it leaves. */
  lemma HourStep(env: Env, d: ValidDate, rows: RowBuilder, metric: string, h: nat)
    requires h < 24
    ensures var lags := LagsAt(env, rows, metric, h);
      var x := rows(h, lags);
      var raw := env.score(metric, x);
      && RecordsThrough(env, d, rows, metric, h + 1) == RecordsThrough(env, d, rows, metric, h) + [Record(env.num, d, h, raw)]
      && CallsThrough(env, rows, metric, h + 1) == CallsThrough(env, rows, metric, h) + [Call(metric, x)]
      && LagsAt(env, rows, metric, h + 1) == NextLags(metric, lags, raw)
  {
  }

  /** The 24 records for a loaded metric and a parsed date. */
  function HourlyRecords(env: Env, d: ValidDate, metric: string): seq<HourlyPrediction>
  {
    RecordsThrough(env, d, Rows(env.num, d), metric, 24)
  }

  /** The 24 scoring calls for a loaded metric and a parsed date. */
  function HourlyCalls(env: Env, d: ValidDate, metric: string): seq<Call>
  {
    CallsThrough(env, Rows(env.num, d), metric, 24)
  }

  /** The outcome of `predict_hourly(date_str, metric)`. */
  function HourlyOutcome(env: Env, dateStr: string, metric: string): HourlyResult
  {
    if metric !in env.loaded then NoModel
    else match env.parse(dateStr)
      case None => ParseFailed
      case Some(d) => Hours(HourlyRecords(env, d, metric))
  }

  /** The scoring calls `predict_hourly(date_str, metric)` makes: 24 when it returns the hours. */
  function HourlyCallLog(env: Env, dateStr: string, metric: string): (r: seq<Call>)
    ensures |r| == if HourlyOutcome(env, dateStr, metric).Hours? then 24 else 0
  {
    if metric !in env.loaded then []
    else match env.parse(dateStr)
      case None => []
      case Some(d) => HourlyCalls(env, d, metric)
  }

  /** `predict_hourly(date_str, metric)`, returning also the scoring calls it made. */
  method PredictHourly(env: Env, dateStr: string, metric: string) returns (r: HourlyResult, calls: seq<Call>)
    ensures r == HourlyOutcome(env, dateStr, metric) && calls == HourlyCallLog(env, dateStr, metric)
    ensures r.NoModel? <==> metric !in env.loaded
    ensures r.NoModel? || r.ParseFailed? ==> calls == []
    ensures r.Hours? ==> |r.hours| == 24 && |calls| == 24
  {
    if metric !in env.loaded {
      return NoModel, [];
    }
    var parsed := env.parse(dateStr);
    if parsed.None? {
      return ParseFailed, [];
    }
    var d := parsed.value;
    ghost var rows := Rows(env.num, d);
    var hourly: seq<HourlyPrediction> := [];
    calls := [];
    var prevTemp := 25.0;
    var prevHumidity := 65.0;
    for hour := 0 to 24
      invariant |hourly| == hour && |calls| == hour
      invariant Lags(prevTemp, prevHumidity) == LagsAt(env, rows, metric, hour)
      invariant hourly == RecordsThrough(env, d, rows, metric, hour)
      invariant calls == CallsThrough(env, rows, metric, hour)
    {
      var x := HourRow(env.num, d, hour, Lags(prevTemp, prevHumidity));
      var prediction := env.score(metric, x);
      HourStep(env, d, rows, metric, hour);
      calls := calls + [Call(metric, x)];
      hourly := hourly + [Record(env.num, d, hour, prediction)];
      if metric == "temperature" {
        prevTemp := prediction;
      } else if metric == "humidity" {
        prevHumidity := prediction;
      }
    }
    r := Hours(hourly);
  }


  /** Hour `i` of the first `n` records is the record of hour `i`. */
  lemma {:induction false} RecordsThroughAt(env: Env, d: ValidDate, rows: RowBuilder, metric: string, n: nat, i: nat)
    requires i < n <= 24
    ensures RecordsThrough(env, d, rows, metric, n)[i] == HourRecord(env, d, rows, metric, i)
  {
    var before := RecordsThrough(env, d, rows, metric, n - 1);
    assert RecordsThrough(env, d, rows, metric, n) == before + [HourRecord(env, d, rows, metric, n - 1)];
    if i < n - 1 {
      RecordsThroughAt(env, d, rows, metric, n - 1, i);
    }
  }

  /** Call `i` of the first `n` calls is the call of hour `i`. */
  lemma {:induction false} CallsThroughAt(env: Env, rows: RowBuilder, metric: string, n: nat, i: nat)
    requires i < n
    ensures CallsThrough(env, rows, metric, n)[i] == HourCall(env, rows, metric, i)
  {
    var before := CallsThrough(env, rows, metric, n - 1);
    assert CallsThrough(env, rows, metric, n) == before + [HourCall(env, rows, metric, n - 1)];
    if i < n - 1 {
      CallsThroughAt(env, rows, metric, n - 1, i);
    }
  }

  /**
   * The 24 records, hour by hour: labelled `HH:00` for hours 0 to 23 in order, stamped with that
   * hour of the date, and carrying the rounded result of the call made for that hour, which
   * scores that hour's frame on the metric's own model.
   */
  lemma HourlyRecordsMeaning(env: Env, d: ValidDate, metric: string, i: nat)
    requires i < 24
    ensures var r := HourlyRecords(env, d, metric)[i];
      var c := HourlyCalls(env, d, metric)[i];
      && r.hour == HourLabel(i)
      && Text.ReadDigits(r.hour[..2]) == Some(i)
      && r.datetime == IsoFormat(DateTime(d, i, 0, 0))
      && c.metric == metric
      && c.row == HourRow(env.num, d, i, LagsAt(env, Rows(env.num, d), metric, i))
      && r.predicted == env.num.round2(env.score(metric, c.row))
  {
    RecordsThroughAt(env, d, Rows(env.num, d), metric, 24, i);
    CallsThroughAt(env, Rows(env.num, d), metric, 24, i);
    ReadHourLabel(i);
  }

  /**
   * The frame scored at every hour has all twelve columns in training order: the calendar
   * features of the date (never of the hour), the site, and the two carried lag values last.
   */
  lemma HourRowLayout(num: Numerics, d: ValidDate, h: nat, lags: Lags)
    ensures var row := HourRow(num, d, h, lags);
      && |row| == 12
      && forall i :: 0 <= i < 12 ==>
           row[i] == Cell(ALL_COLUMNS[i], ColumnValue(num, d, lags.temp, lags.humidity, ALL_COLUMNS[i]))
  {
    var t := HourTime(d, h);
    var f := CreateFeatures(num, t, Some(lags.temp), Some(lags.humidity));
    FeatureColumnsOfBuilt(num, t, Some(lags.temp), Some(lags.humidity));
    FullVector(num, t, lags.temp, lags.humidity);
    forall i | 0 <= i < 12
      ensures HourRow(num, d, h, lags)[i] == Cell(ALL_COLUMNS[i], f.values[ALL_COLUMNS[i]])
    {
      FrameCell(f, f.keys, i);
    }
  }

  /** The last two cells of every hour's frame are the lag inputs in force. */
  lemma HourRowLags(num: Numerics, d: ValidDate, h: nat, lags: Lags)
    ensures var row := HourRow(num, d, h, lags);
      |row| == 12 && row[10] == Cell(TempLag1, lags.temp) && row[11] == Cell(HumidityLag1, lags.humidity)
  {
    HourRowLayout(num, d, h, lags);
    assert ALL_COLUMNS[10] == TempLag1 && ALL_COLUMNS[11] == HumidityLag1;
  }

  /** The time of day does not reach the frame: every hour of a date with the same lags scores the same row. */
  lemma HourRowIgnoresHour(num: Numerics, d: ValidDate, h: nat, k: nat, lags: Lags)
    ensures HourRow(num, d, h, lags) == HourRow(num, d, k, lags)
  {
    FeaturesIgnoreTime(num, HourTime(d, h), HourTime(d, k), Some(lags.temp), Some(lags.humidity));
  }

  /** Hour 0 starts from the cold-start lags 25.0 and 65.0. */
  lemma FirstHourLags(env: Env, d: ValidDate, metric: string)
    ensures var row := HourlyCalls(env, d, metric)[0].row;
      |row| == 12 && row[10] == Cell(TempLag1, 25.0) && row[11] == Cell(HumidityLag1, 65.0)
  {
    CallsThroughAt(env, Rows(env.num, d), metric, 24, 0);
    HourRowLags(env.num, d, 0, DEFAULT_LAGS);
  }

  /**
   * For temperature, each hour's raw (unrounded) prediction is the next hour's `temp_lag1`,
   * and `humidity_lag1` stays at its default.
   */
  lemma {:induction false} TemperatureLags(env: Env, rows: RowBuilder, h: nat)
    ensures LagsAt(env, rows, "temperature", h).humidity == 65.0
    ensures LagsAt(env, rows, "temperature", h + 1).temp == env.score("temperature", HourCall(env, rows, "temperature", h).row)
  {
    if h > 0 {
      TemperatureLags(env, rows, h - 1);
    }
  }

  /**
   * For humidity, each hour's raw (unrounded) prediction is the next hour's `humidity_lag1`,
   * and `temp_lag1` stays at its default.
   */
  lemma {:induction false} HumidityLags(env: Env, rows: RowBuilder, h: nat)
    ensures LagsAt(env, rows, "humidity", h).temp == 25.0
    ensures LagsAt(env, rows, "humidity", h + 1).humidity == env.score("humidity", HourCall(env, rows, "humidity", h).row)
  {
    if h > 0 {
      HumidityLags(env, rows, h - 1);
    }
  }

  /** Any other metric never feeds back: its lags stay at the defaults all day. */
  lemma {:induction false} OtherLagsStayDefault(env: Env, rows: RowBuilder, metric: string, h: nat)
    requires metric != "temperature" && metric != "humidity"
    ensures LagsAt(env, rows, metric, h) == DEFAULT_LAGS
  {
    if h > 0 {
      OtherLagsStayDefault(env, rows, metric, h - 1);
    }
  }

  /** Hour `h + 1` of a temperature forecast is scored on hour `h`'s raw result and the default humidity. */
  lemma TemperatureFeedback(env: Env, d: ValidDate, h: nat)
    requires h < 23
    ensures var calls := HourlyCalls(env, d, "temperature");
      var next := calls[h + 1].row;
      |next| == 12 && next[10] == Cell(TempLag1, env.score("temperature", calls[h].row))
      && next[11] == Cell(HumidityLag1, 65.0)
  {
    var rows := Rows(env.num, d);
    CallsThroughAt(env, rows, "temperature", 24, h);
    CallsThroughAt(env, rows, "temperature", 24, h + 1);
    HourRowLags(env.num, d, h + 1, LagsAt(env, rows, "temperature", h + 1));
    TemperatureLags(env, rows, h + 1);
    TemperatureLags(env, rows, h);
  }

  /** Hour `h + 1` of a humidity forecast is scored on hour `h`'s raw result and the default temperature. */
  lemma HumidityFeedback(env: Env, d: ValidDate, h: nat)
    requires h < 23
    ensures var calls := HourlyCalls(env, d, "humidity");
      var next := calls[h + 1].row;
      |next| == 12 && next[11] == Cell(HumidityLag1, env.score("humidity", calls[h].row))
      && next[10] == Cell(TempLag1, 25.0)
  {
    var rows := Rows(env.num, d);
    CallsThroughAt(env, rows, "humidity", 24, h);
    CallsThroughAt(env, rows, "humidity", 24, h + 1);
    HourRowLags(env.num, d, h + 1, LagsAt(env, rows, "humidity", h + 1));
    HumidityLags(env, rows, h + 1);
    HumidityLags(env, rows, h);
  }

  /** Every hour of any other metric's forecast is scored on the default lags. */
  lemma OtherMetricLags(env: Env, d: ValidDate, metric: string, h: nat)
    requires metric != "temperature" && metric != "humidity"
    requires h < 24
    ensures var row := HourlyCalls(env, d, metric)[h].row;
      |row| == 12 && row[10] == Cell(TempLag1, 25.0) && row[11] == Cell(HumidityLag1, 65.0)
  {
    var rows := Rows(env.num, d);
    CallsThroughAt(env, rows, metric, 24, h);
    OtherLagsStayDefault(env, rows, metric, h);
    HourRowLags(env.num, d, h, DEFAULT_LAGS);
  }

  /**
   * Any other metric is scored 24 times on one and the same row, so its forecast is flat:
   * every hour of the day carries the same predicted value.
   */
  lemma FlatForecast(env: Env, d: ValidDate, metric: string, i: nat, j: nat)
    requires metric != "temperature" && metric != "humidity"
    requires i < 24 && j < 24
    ensures HourlyRecords(env, d, metric)[i].predicted == HourlyRecords(env, d, metric)[j].predicted
  {
    HourlyRecordsMeaning(env, d, metric, i);
    HourlyRecordsMeaning(env, d, metric, j);
    OtherLagsStayDefault(env, Rows(env.num, d), metric, i);
    OtherLagsStayDefault(env, Rows(env.num, d), metric, j);
    HourRowIgnoresHour(env.num, d, i, j, DEFAULT_LAGS);
  }
}
