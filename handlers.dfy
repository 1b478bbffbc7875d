/**
 * The two single-date endpoints: `POST /api/predict` (every loaded metric) and
 * `POST /api/predict/<metric>` (one metric), from the request body to the JSON answer or the
 * error answer with its status code.
 */
module Requests {
  import opened Common
  import opened Calendar
  import opened FeatureBuilder
  import opened HourlyPredictor

  /** A value of the request's JSON object; only whether it is a string matters here. */
  datatype Json = JString(text: string) | JOther

  /** `request.json`: a JSON object, or None. */
  type Body = Option<map<string, Json>>

  /** `not data`: no body, or an empty object. */
  predicate Falsy(body: Body)
  {
    body.None? || |body.value| == 0
  }

  /** `key not in data` for a body that passed the `not data` test. */
  predicate Lacks(body: Body, key: string)
  {
    body.Some? && key !in body.value
  }

  /** The answer to a request: a JSON body with status 200, or an error message with its status. */
  datatype Response<T> = Ok(value: T) | Error(status: int, message: string)

  const BAD_REQUEST := 400
  const NOT_FOUND := 404
  const INTERNAL_ERROR := 500

  const DATE_REQUIRED := "Date is required"
  const INVALID_DATE := "Invalid date format. Use YYYY-MM-DD"
  const PREDICTION_FAILED := "Prediction failed"
  /** The answer of the 500 error handler, for exceptions the endpoint does not catch. */
  const INTERNAL_MESSAGE := "Internal server error"

  function NotFoundMessage(metric: string): string
  {
    "Model for " + metric + " not found"
  }

  /**
   * The date checks shared by both endpoints: the `date` key must be present, its value is
   * handed to `strptime`, which raises TypeError (answered 500) on a non-string and
   * ValueError (answered 400) on a string that is not a `%Y-%m-%d` date.
   */
  function DateArgument(env: Env, body: Body): (r: Response<string>)
    ensures r.Ok? ==> body.Some? && "date" in body.value && body.value["date"] == JString(r.value)
    ensures r.Ok? ==> env.parse(r.value).Some?
  {
    if Falsy(body) || "date" !in body.value then Error(BAD_REQUEST, DATE_REQUIRED)
    else match body.value["date"]
      case JOther => Error(INTERNAL_ERROR, INTERNAL_MESSAGE)
      case JString(s) => if env.parse(s).None? then Error(BAD_REQUEST, INVALID_DATE) else Ok(s)
  }

  /** `if hourly:` on what `predict_hourly` returned: None and an empty list are false. */
  predicate Truthy(r: HourlyResult)
  {
    r.Hours? && |r.hours| > 0
  }

  /** One entry `metric: hourly` of the `predictions` dict. */
  datatype MetricForecast = MetricForecast(metric: string, hours: seq<HourlyPrediction>)

  datatype Location = Location(latitude: real, longitude: real, name: string)

  const SITE := Location(LAT, LON, "Neemrana, Rajasthan")

  datatype Metadata = Metadata(modelVersion: string, trainedOn: string, modelType: string)

  const METADATA := Metadata("1.0", "2015-2024 NASA POWER data", "Random Forest Regressor")

  /** The JSON answer of `/api/predict`. */
  datatype PredictBody = PredictBody(
    date: string,
    location: Location,
    predictions: seq<MetricForecast>,
    metadata: Metadata)

  /** The `predictions` dict built from the metrics `ms`, in the order they are visited. */
  function Collect(env: Env, dateStr: string, ms: seq<string>): (r: seq<MetricForecast>)
    ensures |r| <= |ms|
  {
    if |ms| == 0 then []
    else
      var before := Collect(env, dateStr, ms[..|ms| - 1]);
      var metric := ms[|ms| - 1];
      var hourly := HourlyOutcome(env, dateStr, metric);
      if Truthy(hourly) then before + [MetricForecast(metric, hourly.hours)] else before
  }

  /** The scoring calls made while collecting the metrics `ms`. */
  function CollectCalls(env: Env, dateStr: string, ms: seq<string>): seq<Call>
  {
    if |ms| == 0 then []
    else CollectCalls(env, dateStr, ms[..|ms| - 1]) + HourlyCallLog(env, dateStr, ms[|ms| - 1])
  }

  /** One pass of the loop over the models: that model's forecast and its calls are appended. */
  lemma CollectStep(env: Env, dateStr: string, ms: seq<string>, i: nat)
    requires i < |ms|
    ensures var before, hourly := Collect(env, dateStr, ms[..i]), HourlyOutcome(env, dateStr, ms[i]);
      && Collect(env, dateStr, ms[..i + 1])
           == (if Truthy(hourly) then before + [MetricForecast(ms[i], hourly.hours)] else before)
      && CollectCalls(env, dateStr, ms[..i + 1])
           == CollectCalls(env, dateStr, ms[..i]) + HourlyCallLog(env, dateStr, ms[i])
  {
    assert ms[..i + 1][..i] == ms[..i];
  }

  /** The answer of `/api/predict` to the body `body`. */
  function PredictOutcome(env: Env, body: Body): Response<PredictBody>
  {
    match DateArgument(env, body)
    case Error(status, message) => Error(status, message)
    case Ok(dateStr) => Ok(PredictBody(dateStr, SITE, Collect(env, dateStr, env.loaded), METADATA))
  }

  /** The scoring calls `/api/predict` makes for the body `body`. */
  function PredictCallLog(env: Env, body: Body): seq<Call>
  {
    match DateArgument(env, body)
    case Error(_, _) => []
    case Ok(dateStr) => CollectCalls(env, dateStr, env.loaded)
  }

  /** `POST /api/predict`, returning also the scoring calls it made. */
  method Predict(env: Env, body: Body) returns (resp: Response<PredictBody>, calls: seq<Call>)
    ensures resp == PredictOutcome(env, body) && calls == PredictCallLog(env, body)
  {
    var date := DateArgument(env, body);
    if date.Error? {
      return Error(date.status, date.message), [];
    }
    var dateStr := date.value;
    var predictions: seq<MetricForecast> := [];
    calls := [];
    for i := 0 to |env.loaded|
      invariant predictions == Collect(env, dateStr, env.loaded[..i])
      invariant calls == CollectCalls(env, dateStr, env.loaded[..i])
    {
      var metric := env.loaded[i];
      CollectStep(env, dateStr, env.loaded, i);
      var hourly, made := PredictHourly(env, dateStr, metric);
      calls := calls + made;
      if Truthy(hourly) {
        predictions := predictions + [MetricForecast(metric, hourly.hours)];
      }
    }
    assert env.loaded[..|env.loaded|] == env.loaded;
    resp := Ok(PredictBody(dateStr, SITE, predictions, METADATA));
  }

  /**
   * Collecting loaded metrics for a date that parses keeps every one of them, in order, each
   * with its full 24-hour forecast.
   */
  lemma {:induction false} CollectAll(env: Env, dateStr: string, ms: seq<string>)
    requires env.parse(dateStr).Some?
    requires forall m :: m in ms ==> m in env.loaded
    ensures var r := Collect(env, dateStr, ms);
      && |r| == |ms|
      && forall i :: 0 <= i < |ms| ==>
           r[i] == MetricForecast(ms[i], HourlyRecords(env, env.parse(dateStr).value, ms[i]))
  {
    if |ms| > 0 {
      var prefix := ms[..|ms| - 1];
      assert forall m :: m in prefix ==> m in ms;
      CollectAll(env, dateStr, prefix);
      var d := env.parse(dateStr).value;
      var metric := ms[|ms| - 1];
      var hours := HourlyRecords(env, d, metric);
      assert HourlyOutcome(env, dateStr, metric) == Hours(hours);
      var before := Collect(env, dateStr, prefix);
      var r := Collect(env, dateStr, ms);
      assert r == before + [MetricForecast(metric, hours)];
      forall i | 0 <= i < |ms|
        ensures r[i] == MetricForecast(ms[i], HourlyRecords(env, d, ms[i]))
      {
        if i < |ms| - 1 {
          assert ms[i] == prefix[i];
        }
      }
    }
  }

  /**
   * A valid request to `/api/predict` is answered with the requested date, the site, the fixed
   * metadata and one 24-hour forecast per loaded model, in the order the models were loaded.
   */
  lemma PredictAnswersEveryModel(env: Env, body: Body)
    requires PredictOutcome(env, body).Ok?
    ensures var answer := PredictOutcome(env, body).value;
      var d := env.parse(answer.date).value;
      && body.Some? && body.value["date"] == JString(answer.date)
      && answer.location == Location(27.83, 76.23, "Neemrana, Rajasthan")
      && |answer.predictions| == |env.loaded|
      && forall i :: 0 <= i < |env.loaded| ==>
           && answer.predictions[i].metric == env.loaded[i]
           && answer.predictions[i].hours == HourlyRecords(env, d, env.loaded[i])
           && |answer.predictions[i].hours| == 24
  {
    var dateStr := DateArgument(env, body).value;
    var d := env.parse(dateStr).value;
    CollectAll(env, dateStr, env.loaded);
    var predictions := Collect(env, dateStr, env.loaded);
    assert PredictOutcome(env, body).value == PredictBody(dateStr, SITE, predictions, METADATA);
    forall i | 0 <= i < |env.loaded|
      ensures predictions[i].metric == env.loaded[i]
      ensures predictions[i].hours == HourlyRecords(env, d, env.loaded[i])
      ensures |predictions[i].hours| == 24
    {
      assert predictions[i] == MetricForecast(env.loaded[i], HourlyRecords(env, d, env.loaded[i]));
    }
  }

  /**
   * The answers of the date check shared by both endpoints, each error with its status and
   * message; `/api/predict` answers exactly that error, and no model is scored.
   */
  lemma DateErrors(env: Env, body: Body)
    ensures Falsy(body) || Lacks(body, "date") ==> DateArgument(env, body) == Error(400, "Date is required")
    ensures !Falsy(body) && !Lacks(body, "date") && body.value["date"].JOther?
      ==> DateArgument(env, body) == Error(500, "Internal server error")
    ensures !Falsy(body) && !Lacks(body, "date") && body.value["date"].JString?
      ==> (DateArgument(env, body) == Error(400, "Invalid date format. Use YYYY-MM-DD")
           <==> env.parse(body.value["date"].text).None?)
    ensures !Falsy(body) && !Lacks(body, "date") && body.value["date"].JString?
      && env.parse(body.value["date"].text).Some?
      ==> DateArgument(env, body) == Ok(body.value["date"].text)
    ensures DateArgument(env, body).Error? <==> PredictOutcome(env, body).Error?
    ensures DateArgument(env, body).Error? ==>
      && PredictOutcome(env, body) == Error(DateArgument(env, body).status, DateArgument(env, body).message)
      && PredictCallLog(env, body) == []
  {
  }

  /** A model's held-out scores as the training run reported them. */
  datatype Performance = Performance(mae: real, rmse: real, r2: real)

  /**
   * `model_metrics.get(metric, {})`: None for the empty dict. The table has an entry for
   * exactly the metrics that have a model file.
   */
  function PerformanceOf(metric: string): (r: Option<Performance>)
    ensures r.Some? <==> metric in METRIC_NAMES
  {
    if metric == "temperature" then Some(Performance(2.34, 3.12, 0.89))
    else if metric == "humidity" then Some(Performance(5.67, 7.23, 0.82))
    else if metric == "pressure" then Some(Performance(1.45, 2.01, 0.94))
    else if metric == "wind_speed" then Some(Performance(0.87, 1.23, 0.76))
    else if metric == "uv_index" then Some(Performance(0.65, 0.92, 0.85))
    else None
  }

  /** Every model the loader can produce has an entry in the performance table. */
  lemma PerformanceCoversStore(env: Env)
    requires StoreValid(env)
    ensures forall m :: m in env.loaded ==> PerformanceOf(m).Some?
  {
    forall m | m in env.loaded
      ensures PerformanceOf(m).Some?
    {
      assert m in METRIC_NAMES;
    }
  }

  /** The JSON answer of `/api/predict/<metric>`. */
  datatype MetricBody = MetricBody(
    date: string,
    metric: string,
    predictions: seq<HourlyPrediction>,
    performance: Option<Performance>)

  /** The answer of `/api/predict/<metric>` to the body `body`. */
  function MetricOutcome(env: Env, metric: string, body: Body): Response<MetricBody>
  {
    if metric !in env.loaded then Error(NOT_FOUND, NotFoundMessage(metric))
    else match DateArgument(env, body)
      case Error(status, message) => Error(status, message)
      case Ok(dateStr) =>
        var hourly := HourlyOutcome(env, dateStr, metric);
        if !Truthy(hourly) then Error(INTERNAL_ERROR, PREDICTION_FAILED)
        else Ok(MetricBody(dateStr, metric, hourly.hours, PerformanceOf(metric)))
  }

  /** The scoring calls `/api/predict/<metric>` makes for the body `body`. */
  function MetricCallLog(env: Env, metric: string, body: Body): seq<Call>
  {
    if metric !in env.loaded then []
    else match DateArgument(env, body)
      case Error(_, _) => []
      case Ok(dateStr) => HourlyCallLog(env, dateStr, metric)
  }

  /** `POST /api/predict/<metric>`, returning also the scoring calls it made. */
  method PredictMetric(env: Env, metric: string, body: Body) returns (resp: Response<MetricBody>, calls: seq<Call>)
    ensures resp == MetricOutcome(env, metric, body) && calls == MetricCallLog(env, metric, body)
  {
    if metric !in env.loaded {
      return Error(NOT_FOUND, NotFoundMessage(metric)), [];
    }
    var date := DateArgument(env, body);
    if date.Error? {
      return Error(date.status, date.message), [];
    }
    var hourly;
    hourly, calls := PredictHourly(env, date.value, metric);
    // The date was parsed just above, so the forecast has its 24 hours.
    assert Truthy(hourly);
    resp := Ok(MetricBody(date.value, metric, hourly.hours, PerformanceOf(metric)));
  }

  /**
   * `/api/predict/<metric>`: an unknown metric is answered 404 whatever the body, before any
   * date check; a valid request gets its own date and metric back with the metric's 24-hour
   * forecast and its performance entry; the 'Prediction failed' answer is never given; and
   * nothing is scored unless the answer is 200.
   */
  lemma MetricAnswers(env: Env, metric: string, body: Body)
    ensures metric !in env.loaded ==> MetricOutcome(env, metric, body) == Error(404, "Model for " + metric + " not found")
    ensures metric in env.loaded ==> (MetricOutcome(env, metric, body).Error? <==> DateArgument(env, body).Error?)
    ensures metric in env.loaded && DateArgument(env, body).Error? ==>
      MetricOutcome(env, metric, body) == Error(DateArgument(env, body).status, DateArgument(env, body).message)
    ensures MetricOutcome(env, metric, body) != Error(500, "Prediction failed")
    ensures MetricOutcome(env, metric, body).Error? ==> MetricCallLog(env, metric, body) == []
    ensures MetricOutcome(env, metric, body).Ok? ==>
      var answer := MetricOutcome(env, metric, body).value;
      && body.Some? && "date" in body.value && body.value["date"] == JString(answer.date)
      && answer.metric == metric
      && answer.predictions == HourlyRecords(env, env.parse(answer.date).value, metric)
      && |answer.predictions| == 24
      && answer.performance == PerformanceOf(metric)
      && MetricCallLog(env, metric, body) == HourlyCalls(env, env.parse(answer.date).value, metric)
  {
  }
}
