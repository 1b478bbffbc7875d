/**
 * The daily aggregator and `POST /api/predict/range`: every calendar day from `start_date`
 * to `end_date` gets one record holding, per loaded metric, the 2-decimal text of the mean of
 * that day's 24 rounded hourly predictions.
 */
module RangePredictor {
  import opened Common
  import opened Calendar
  import opened FeatureBuilder
  import opened HourlyPredictor
  import opened Requests

  const RANGE_REQUIRED := "start_date and end_date are required"
  const RANGE_TOO_LONG := "Date range cannot exceed 30 days"

  /** The longest accepted `(end - start).days`. */
  const MAX_SPAN := 30

  function Sum(xs: seq<real>): real
  {
    if |xs| == 0 then 0.0 else Sum(xs[..|xs| - 1]) + xs[|xs| - 1]
  }

  /** `np.mean(xs)`, over exact reals. */
  function Mean(xs: seq<real>): real
    requires |xs| > 0
  {
    Sum(xs) / |xs| as real
  }

  lemma {:induction false} SumAppend(xs: seq<real>, ys: seq<real>)
    ensures Sum(xs + ys) == Sum(xs) + Sum(ys)
    decreases |ys|
  {
    if |ys| > 0 {
      var init := ys[..|ys| - 1];
      assert (xs + ys)[..|xs + ys| - 1] == xs + init;
      assert Sum(xs + ys) == Sum(xs + init) + ys[|ys| - 1];
      SumAppend(xs, init);
    } else {
      assert xs + ys == xs;
    }
  }

  /** `n` copies of `c` add up to `n * c`. */
  lemma {:induction false} SumConstant(xs: seq<real>, c: real)
    requires forall i :: 0 <= i < |xs| ==> xs[i] == c
    ensures Sum(xs) == |xs| as real * c
  {
    if |xs| > 0 {
      SumConstant(xs[..|xs| - 1], c);
    }
  }

  /** The mean of a constant series is that constant. */
  lemma MeanConstant(xs: seq<real>, c: real)
    requires |xs| > 0 && forall i :: 0 <= i < |xs| ==> xs[i] == c
    ensures Mean(xs) == c
  {
    SumConstant(xs, c);
  }

  /** The mean lies between the smallest and the largest value. */
  lemma {:induction false} SumBounds(xs: seq<real>, lo: real, hi: real)
    requires forall i :: 0 <= i < |xs| ==> lo <= xs[i] <= hi
    ensures |xs| as real * lo <= Sum(xs) <= |xs| as real * hi
  {
    if |xs| > 0 {
      SumBounds(xs[..|xs| - 1], lo, hi);
    }
  }

  lemma MeanBounds(xs: seq<real>, lo: real, hi: real)
    requires |xs| > 0 && forall i :: 0 <= i < |xs| ==> lo <= xs[i] <= hi
    ensures lo <= Mean(xs) <= hi
  {
    SumBounds(xs, lo, hi);
  }

  /** Twelve hours at 10.00 and twelve at 20.00 average to 15.0. */
  lemma MeanExample()
    ensures Mean(seq(12, _ => 10.0) + seq(12, _ => 20.0)) == 15.0
  {
    var low, high := seq(12, _ => 10.0), seq(12, _ => 20.0);
    SumAppend(low, high);
    SumConstant(low, 10.0);
    SumConstant(high, 20.0);
  }

  /** `[h['predicted'] for h in hourly]` */
  function Predicted(hours: seq<HourlyPrediction>): (r: seq<real>)
    ensures |r| == |hours| && forall i :: 0 <= i < |hours| ==> r[i] == hours[i].predicted
  {
    seq(|hours|, i requires 0 <= i < |hours| => hours[i].predicted)
  }

  /** `str(round(float(np.mean(...)), 2))` of a day's forecast. */
  function DailyText(num: Numerics, hours: seq<HourlyPrediction>): string
    requires |hours| > 0
  {
    num.show(num.round2(Mean(Predicted(hours))))
  }

  /** A flat forecast averages to its own hourly value. */
  lemma DailyOfFlat(num: Numerics, hours: seq<HourlyPrediction>)
    requires |hours| > 0 && forall i :: 0 <= i < |hours| ==> hours[i].predicted == hours[0].predicted
    ensures DailyText(num, hours) == num.show(num.round2(hours[0].predicted))
  {
    MeanConstant(Predicted(hours), hours[0].predicted);
  }

  /** One `metric: text` entry of a day's record. */
  datatype DailyValue = DailyValue(metric: string, text: string)

  /** `{'date': date_str, metric: text, ...}` */
  datatype DayRecord = DayRecord(date: string, values: seq<DailyValue>)

  /**
   * The values of the day written `dateStr` for the metrics `ms`; None where a
   * `predict_hourly` call raises ValueError on the date text.
   */
  function DayValues(env: Env, dateStr: string, ms: seq<string>): Option<seq<DailyValue>>
  {
    if |ms| == 0 then Some([])
    else match DayValues(env, dateStr, ms[..|ms| - 1])
      case None => None
      case Some(values) =>
        var metric := ms[|ms| - 1];
        var hourly := HourlyOutcome(env, dateStr, metric);
        if hourly.ParseFailed? then None
        else if Truthy(hourly) then Some(values + [DailyValue(metric, DailyText(env.num, hourly.hours))])
        else Some(values)
  }

  /** The scoring calls made for the day written `dateStr`, up to a failing metric. */
  function DayCalls(env: Env, dateStr: string, ms: seq<string>): seq<Call>
  {
    if |ms| == 0 then []
    else
      var before := ms[..|ms| - 1];
      if DayValues(env, dateStr, before).None? then DayCalls(env, dateStr, before)
      else DayCalls(env, dateStr, before) + HourlyCallLog(env, dateStr, ms[|ms| - 1])
  }

  /**
   * What the day loop needs of one day, given its date text: the day's values (None where its
   * prediction fails) and the scoring calls made for it.
   */
  datatype DayRun = DayRun(values: string -> Option<seq<DailyValue>>, calls: string -> seq<Call>)

  /** The day predictions of the loaded metrics. */
  function Runs(env: Env): DayRun
  {
    DayRun(dateStr => DayValues(env, dateStr, env.loaded), dateStr => DayCalls(env, dateStr, env.loaded))
  }

  /** The records of the days `days`; None where some day's prediction fails. */
  function DaysRecords(run: DayRun, days: seq<ValidDate>): Option<seq<DayRecord>>
  {
    if |days| == 0 then Some([])
    else match DaysRecords(run, days[..|days| - 1])
      case None => None
      case Some(records) =>
        var dateStr := FormatDate(days[|days| - 1]);
        match run.values(dateStr)
        case None => None
        case Some(values) => Some(records + [DayRecord(dateStr, values)])
  }

  /** The scoring calls made for the days `days`, up to a failing day. */
  function DaysCalls(run: DayRun, days: seq<ValidDate>): seq<Call>
  {
    if |days| == 0 then []
    else
      var before := days[..|days| - 1];
      if DaysRecords(run, before).None? then DaysCalls(run, before)
      else DaysCalls(run, before) + run.calls(FormatDate(days[|days| - 1]))
  }

  /** The JSON answer: the request's own two values echoed, then the day records. */
  datatype RangeBody = RangeBody(startDate: Json, endDate: Json, predictions: seq<DayRecord>)

  /**
   * The checks before any prediction: both keys present, `start_date` parsed before
   * `end_date` (a non-string raises TypeError, answered 500), and a span of at most 30 days.
   */
  function RangeDates(env: Env, body: Body): (r: Response<(ValidDate, ValidDate)>)
    ensures r.Ok? ==> !Falsy(body) && "start_date" in body.value && "end_date" in body.value
    ensures r.Ok? ==>
      && body.value["start_date"].JString? && body.value["end_date"].JString?
      && env.parse(body.value["start_date"].text) == Some(r.value.0)
      && env.parse(body.value["end_date"].text) == Some(r.value.1)
      && DaysBetween(r.value.0, r.value.1) <= 30
  {
    if Falsy(body) || "start_date" !in body.value || "end_date" !in body.value then
      Error(BAD_REQUEST, RANGE_REQUIRED)
    else match body.value["start_date"]
      case JOther => Error(INTERNAL_ERROR, INTERNAL_MESSAGE)
      case JString(s) =>
        match env.parse(s)
        case None => Error(BAD_REQUEST, INVALID_DATE)
        case Some(start) =>
          match body.value["end_date"]
          case JOther => Error(INTERNAL_ERROR, INTERNAL_MESSAGE)
          case JString(e) =>
            match env.parse(e)
            case None => Error(BAD_REQUEST, INVALID_DATE)
            case Some(end) =>
              if DaysBetween(start, end) > MAX_SPAN then Error(BAD_REQUEST, RANGE_TOO_LONG)
              else Ok((start, end))
  }

  /**
   * The day loop from `start` to `end`: the records of every day, or None where a day fails or
   * stepping past 9999-12-31 after the last day raises OverflowError.
   */
  function SpanRecords(env: Env, start: ValidDate, end: ValidDate): Option<seq<DayRecord>>
  {
    var days := DaysThrough(start, end);
    if |days| > 0 && end == MAX_DATE then None else DaysRecords(Runs(env), days)
  }

  /** The answer of `/api/predict/range`; a failing day loop is answered by the 500 handler. */
  function RangeOutcome(env: Env, body: Body): Response<RangeBody>
  {
    match RangeDates(env, body)
    case Error(status, message) => Error(status, message)
    case Ok((start, end)) =>
      match SpanRecords(env, start, end)
      case None => Error(INTERNAL_ERROR, INTERNAL_MESSAGE)
      case Some(records) => Ok(RangeBody(body.value["start_date"], body.value["end_date"], records))
  }

  /** The scoring calls `/api/predict/range` makes. */
  function RangeCallLog(env: Env, body: Body): seq<Call>
  {
    match RangeDates(env, body)
    case Error(_, _) => []
    case Ok((start, end)) => DaysCalls(Runs(env), DaysThrough(start, end))
  }

  /** Once a metric has failed, later metrics change neither the day's outcome nor its calls. */
  lemma {:induction false} DayStaysFailed(env: Env, dateStr: string, ms: seq<string>, n: nat)
    requires n <= |ms| && DayValues(env, dateStr, ms[..n]).None?
    ensures DayValues(env, dateStr, ms).None?
    ensures DayCalls(env, dateStr, ms) == DayCalls(env, dateStr, ms[..n])
    decreases |ms| - n
  {
    if n < |ms| {
      assert ms[..n + 1][..n] == ms[..n];
      DayStaysFailed(env, dateStr, ms, n + 1);
    } else {
      assert ms[..n] == ms;
    }
  }

  /** Once a day has failed, later days change neither the outcome nor the calls. */
  lemma {:induction false} DaysStayFailed(run: DayRun, days: seq<ValidDate>, n: nat)
    requires n <= |days| && DaysRecords(run, days[..n]).None?
    ensures DaysRecords(run, days).None?
    ensures DaysCalls(run, days) == DaysCalls(run, days[..n])
    decreases |days| - n
  {
    if n < |days| {
      assert days[..n + 1][..n] == days[..n];
      DaysStayFailed(run, days, n + 1);
    } else {
      assert days[..n] == days;
    }
  }

  /** One more metric of the day, in terms of the metrics before it. */
  lemma DayStep(env: Env, dateStr: string, ms: seq<string>, i: nat)
    requires i < |ms|
    ensures var before, hourly := DayValues(env, dateStr, ms[..i]), HourlyOutcome(env, dateStr, ms[i]);
      && (before.None? ==> DayValues(env, dateStr, ms[..i + 1]).None?)
      && (before.Some? && hourly.ParseFailed? ==> DayValues(env, dateStr, ms[..i + 1]).None?)
      && (before.Some? && !hourly.ParseFailed? ==>
            DayValues(env, dateStr, ms[..i + 1]) ==
              if Truthy(hourly) then Some(before.value + [DailyValue(ms[i], DailyText(env.num, hourly.hours))])
              else before)
      && (before.Some? ==>
            DayCalls(env, dateStr, ms[..i + 1]) == DayCalls(env, dateStr, ms[..i]) + HourlyCallLog(env, dateStr, ms[i]))
  {
    assert ms[..i + 1][..i] == ms[..i];
  }

  /** One more day, in terms of the days before it. */
  lemma DaysStep(run: DayRun, days: seq<ValidDate>, k: nat)
    requires k < |days|
    ensures var before, dateStr := DaysRecords(run, days[..k]), FormatDate(days[k]);
      && (before.Some? ==> DaysCalls(run, days[..k + 1]) == DaysCalls(run, days[..k]) + run.calls(dateStr))
      && (before.Some? && run.values(dateStr).Some? ==>
            DaysRecords(run, days[..k + 1]) == Some(before.value + [DayRecord(dateStr, run.values(dateStr).value)]))
      && (before.Some? && run.values(dateStr).None? ==> DaysRecords(run, days[..k + 1]).None?)
  {
    assert days[..k + 1][..k] == days[..k];
  }

  /** The per-metric loop of one day: the values of the day written `dateStr`, and the calls made. */
  method DayPrediction(env: Env, dateStr: string) returns (values: Option<seq<DailyValue>>, calls: seq<Call>)
    ensures values == DayValues(env, dateStr, env.loaded) && calls == DayCalls(env, dateStr, env.loaded)
  {
    var entries: seq<DailyValue> := [];
    calls := [];
    for i := 0 to |env.loaded|
      invariant DayValues(env, dateStr, env.loaded[..i]) == Some(entries)
      invariant calls == DayCalls(env, dateStr, env.loaded[..i])
    {
      var metric := env.loaded[i];
      DayStep(env, dateStr, env.loaded, i);
      var hourly, made := PredictHourly(env, dateStr, metric);
      calls := calls + made;
      if hourly.ParseFailed? {
        DayStaysFailed(env, dateStr, env.loaded, i + 1);
        return None, calls;
      }
      if Truthy(hourly) {
        entries := entries + [DailyValue(metric, DailyText(env.num, hourly.hours))];
      }
    }
    assert env.loaded[..|env.loaded|] == env.loaded;
    values := Some(entries);
  }

  /** The `while current <= end` loop, returning also the scoring calls it made. */
  method PredictSpan(env: Env, start: ValidDate, end: ValidDate) returns (records: Option<seq<DayRecord>>, calls: seq<Call>)
    ensures records == SpanRecords(env, start, end) && calls == DaysCalls(Runs(env), DaysThrough(start, end))
  {
    ghost var run := Runs(env);
    ghost var days := DaysThrough(start, end);
    assert |days| == 0 <==> !LessEq(start, end) by { DaysThroughSteps(start, end); }
    if |days| > 0 {
      assert days[0] == start by { DaysThroughSteps(start, end); }
    }
    var daily: seq<DayRecord> := [];
    calls := [];
    var current := start;
    ghost var k := 0;
    while LessEq(current, end)
      invariant k <= |days|
      invariant k < |days| ==> current == days[k]
      invariant k == |days| ==> !LessEq(current, end)
      invariant DaysRecords(run, days[..k]) == Some(daily)
      invariant calls == DaysCalls(run, days[..k])
      decreases |days| - k
    {
      DaysStep(run, days, k);
      var dateStr := FormatDate(current);
      var values, made := DayPrediction(env, dateStr);
      assert values == run.values(dateStr) && made == run.calls(dateStr);
      calls := calls + made;
      if values.None? {
        DaysStayFailed(run, days, k + 1);
        return None, calls;
      }
      daily := daily + [DayRecord(dateStr, values.value)];
      k := k + 1;
      var next := NextDay(current);
      if k < |days| {
        assert NextDay(days[k - 1]) == Some(days[k]) by { DaysThroughSteps(start, end); }
      } else {
        assert days[k - 1] == end by { DaysThroughSteps(start, end); }
      }
      if next.None? {
        // `current + timedelta(days=1)` overflows: only after the last day, 9999-12-31.
        assert k == |days| && days[..|days|] == days;
        return None, calls;
      }
      current := next.value;
      if k == |days| {
        assert !LessEq(current, end) by { OrdinalOrder(current, end); }
      }
    }
    assert k == |days| by {
      if k < |days| {
        DaysThroughSteps(start, end);
      }
    }
    assert days[..|days|] == days;
    records := Some(daily);
  }

  /** `POST /api/predict/range`, returning also the scoring calls it made. */
  method PredictRange(env: Env, body: Body) returns (resp: Response<RangeBody>, calls: seq<Call>)
    ensures resp == RangeOutcome(env, body) && calls == RangeCallLog(env, body)
  {
    var dates := RangeDates(env, body);
    if dates.Error? {
      return Error(dates.status, dates.message), [];
    }
    var records;
    records, calls := PredictSpan(env, dates.value.0, dates.value.1);
    if records.None? {
      return Error(INTERNAL_ERROR, INTERNAL_MESSAGE), calls;
    }
    resp := Ok(RangeBody(body.value["start_date"], body.value["end_date"], records.value));
  }

  /**
   * Each rejection with its status and message, in the order the checks run: the keys, then
   * `start_date`, then `end_date`, then the span. Every rejection comes before the first
   * scoring call, and every error is a 400 or a 500.
   */
  lemma RangeErrors(env: Env, body: Body)
    ensures Falsy(body) || Lacks(body, "start_date") || Lacks(body, "end_date")
      ==> RangeOutcome(env, body) == Error(400, "start_date and end_date are required")
    ensures !Falsy(body) && !Lacks(body, "start_date") && !Lacks(body, "end_date") ==>
      var s, e := body.value["start_date"], body.value["end_date"];
      var start := if s.JString? then env.parse(s.text) else None;
      var end := if e.JString? then env.parse(e.text) else None;
      && (s.JOther? ==> RangeOutcome(env, body) == Error(500, "Internal server error"))
      && (s.JString? && start.None? ==> RangeOutcome(env, body) == Error(400, "Invalid date format. Use YYYY-MM-DD"))
      && (start.Some? && e.JOther? ==> RangeOutcome(env, body) == Error(500, "Internal server error"))
      && (start.Some? && e.JString? && end.None? ==> RangeOutcome(env, body) == Error(400, "Invalid date format. Use YYYY-MM-DD"))
      && (start.Some? && end.Some? ==>
            (RangeOutcome(env, body) == Error(400, "Date range cannot exceed 30 days")
             <==> DaysBetween(start.value, end.value) > 30))
    ensures RangeDates(env, body).Error? ==>
      && RangeOutcome(env, body) == Error(RangeDates(env, body).status, RangeDates(env, body).message)
      && RangeCallLog(env, body) == []
    ensures !Falsy(body) && !Lacks(body, "start_date") && !Lacks(body, "end_date")
      && body.value["start_date"].JString? && body.value["end_date"].JString?
      && env.parse(body.value["start_date"].text).Some? && env.parse(body.value["end_date"].text).Some?
      ==> (RangeDates(env, body).Error? <==>
             DaysBetween(env.parse(body.value["start_date"].text).value,
                         env.parse(body.value["end_date"].text).value) > 30)
    ensures RangeOutcome(env, body).Error? ==>
      RangeOutcome(env, body).status == 400 || RangeOutcome(env, body).status == 500
  {
  }

  /** A request naming the two dates as strings. */
  function RangeRequest(startText: string, endText: string): Body
  {
    Some(map["start_date" := JString(startText), "end_date" := JString(endText)])
  }

  /** 2024-01-01 to 2024-02-01 spans 31 days: rejected before any scoring call. */
  lemma ThirtyOneDaysRejected(env: Env)
    requires env.parse("2024-01-01") == Some(Date(2024, 1, 1))
    requires env.parse("2024-02-01") == Some(Date(2024, 2, 1))
    ensures RangeOutcome(env, RangeRequest("2024-01-01", "2024-02-01")) == Error(400, "Date range cannot exceed 30 days")
    ensures RangeCallLog(env, RangeRequest("2024-01-01", "2024-02-01")) == []
  {
    var body := RangeRequest("2024-01-01", "2024-02-01");
    assert body.value["start_date"] == JString("2024-01-01");
    assert body.value["end_date"] == JString("2024-02-01");
    assert DaysBetween(Date(2024, 1, 1), Date(2024, 2, 1)) == 31;
  }

  /** 2024-01-01 to 2024-01-31 spans 30 days: accepted. */
  lemma ThirtyDaysAccepted(env: Env)
    requires env.parse("2024-01-01") == Some(Date(2024, 1, 1))
    requires env.parse("2024-01-31") == Some(Date(2024, 1, 31))
    ensures RangeDates(env, RangeRequest("2024-01-01", "2024-01-31")) == Ok((Date(2024, 1, 1), Date(2024, 1, 31)))
  {
    var body := RangeRequest("2024-01-01", "2024-01-31");
    assert body.value["start_date"] == JString("2024-01-01");
    assert body.value["end_date"] == JString("2024-01-31");
    assert DaysBetween(Date(2024, 1, 1), Date(2024, 1, 31)) == 30;
  }

  /** An end before the start is not rejected: the loop runs no day and the answer lists none. */
  lemma EmptyRange(env: Env, body: Body)
    requires RangeDates(env, body).Ok?
    requires !LessEq(RangeDates(env, body).value.0, RangeDates(env, body).value.1)
    ensures RangeOutcome(env, body).Ok? && RangeOutcome(env, body).value.predictions == []
    ensures RangeCallLog(env, body) == []
  {
    var (start, end) := RangeDates(env, body).value;
    DaysThroughSteps(start, end);
  }

  /** The parser reads back every date the way `strftime('%Y-%m-%d')` writes it. */
  ghost predicate ReadsBack(env: Env)
  {
    forall d: ValidDate :: env.parse(FormatDate(d)) == Some(d)
  }

  /** A parser of the fixed-width `YYYY-MM-DD` form reads back every day text, so ReadsBack can hold. */
  lemma ReadDateReadsBack(env: Env)
    requires forall s :: env.parse(s) == ReadDate(s)
    ensures ReadsBack(env)
  {
    forall d: ValidDate
      ensures env.parse(FormatDate(d)) == Some(d)
    {
      ReadFormatDate(d);
    }
  }

  /** The text of one metric's daily mean for the day `d`. */
  function DailyValueOf(env: Env, d: ValidDate, metric: string): DailyValue
  {
    DailyValue(metric, DailyText(env.num, HourlyRecords(env, d, metric)))
  }

  /** The daily means of every loaded metric for the day `d`, in loading order. */
  function DayTable(env: Env, d: ValidDate): seq<DailyValue>
  {
    seq(|env.loaded|, j requires 0 <= j < |env.loaded| => DailyValueOf(env, d, env.loaded[j]))
  }

  /** One more loaded metric for a date text that parses: its daily mean is appended. */
  lemma DayStepParsed(env: Env, dateStr: string, d: ValidDate, ms: seq<string>)
    requires env.parse(dateStr) == Some(d) && |ms| > 0 && ms[|ms| - 1] in env.loaded
    requires DayValues(env, dateStr, ms[..|ms| - 1]).Some?
    ensures DayValues(env, dateStr, ms)
      == Some(DayValues(env, dateStr, ms[..|ms| - 1]).value + [DailyValueOf(env, d, ms[|ms| - 1])])
  {
    var hourly := HourlyOutcome(env, dateStr, ms[|ms| - 1]);
    assert hourly == Hours(HourlyRecords(env, d, ms[|ms| - 1]));
    assert |hourly.hours| == 24;
  }

  /** For a date text that parses, every listed loaded metric gets its daily mean, in order. */
  lemma {:induction false} DayValuesAll(env: Env, dateStr: string, d: ValidDate, ms: seq<string>)
    requires env.parse(dateStr) == Some(d)
    requires forall m :: m in ms ==> m in env.loaded
    ensures var r := DayValues(env, dateStr, ms);
      && r.Some? && |r.value| == |ms|
      && forall i :: 0 <= i < |ms| ==> r.value[i] == DailyValueOf(env, d, ms[i])
  {
    if |ms| > 0 {
      var prefix := ms[..|ms| - 1];
      assert forall m :: m in prefix ==> m in ms;
      DayValuesAll(env, dateStr, d, prefix);
      DayStepParsed(env, dateStr, d, ms);
      var before := DayValues(env, dateStr, prefix).value;
      var r := DayValues(env, dateStr, ms).value;
      forall i | 0 <= i < |ms|
        ensures r[i] == DailyValueOf(env, d, ms[i])
      {
        if i < |ms| - 1 {
          assert r[i] == before[i] && ms[i] == prefix[i];
        }
      }
    }
  }

  /** For a date text that parses, each listed loaded metric makes its 24 scoring calls. */
  lemma {:induction false} DayCallsAll(env: Env, dateStr: string, d: ValidDate, ms: seq<string>)
    requires env.parse(dateStr) == Some(d)
    requires forall m :: m in ms ==> m in env.loaded
    ensures |DayCalls(env, dateStr, ms)| == 24 * |ms|
  {
    if |ms| > 0 {
      var prefix := ms[..|ms| - 1];
      assert forall m :: m in prefix ==> m in ms;
      DayCallsAll(env, dateStr, d, prefix);
      DayValuesAll(env, dateStr, d, prefix);
      DayCallsStep(env, dateStr, d, ms);
    }
  }

  /** One more loaded metric for a date text that parses adds its 24 calls. */
  lemma DayCallsStep(env: Env, dateStr: string, d: ValidDate, ms: seq<string>)
    requires env.parse(dateStr) == Some(d) && |ms| > 0 && ms[|ms| - 1] in env.loaded
    requires DayValues(env, dateStr, ms[..|ms| - 1]).Some?
    ensures |DayCalls(env, dateStr, ms)| == |DayCalls(env, dateStr, ms[..|ms| - 1])| + 24
  {
    var metric := ms[|ms| - 1];
    assert HourlyCallLog(env, dateStr, metric) == HourlyCalls(env, d, metric);
    assert |HourlyCalls(env, d, metric)| == 24;
  }

  /** A day whose text reads back gets every loaded metric's daily mean. */
  lemma DayRunValues(env: Env, d: ValidDate)
    requires env.parse(FormatDate(d)) == Some(d)
    ensures Runs(env).values(FormatDate(d)) == Some(DayTable(env, d))
  {
    var dateStr := FormatDate(d);
    DayValuesAll(env, dateStr, d, env.loaded);
    var r := DayValues(env, dateStr, env.loaded).value;
    var table := DayTable(env, d);
    assert |r| == |table|;
    forall j | 0 <= j < |r|
      ensures r[j] == table[j]
    {
    }
    assert r == table;
    assert Runs(env).values(dateStr) == DayValues(env, dateStr, env.loaded);
  }

  /** A day whose text reads back makes 24 scoring calls per loaded metric. */
  lemma DayRunCalls(env: Env, d: ValidDate)
    requires env.parse(FormatDate(d)) == Some(d)
    ensures |Runs(env).calls(FormatDate(d))| == 24 * |env.loaded|
  {
    var dateStr := FormatDate(d);
    DayCallsAll(env, dateStr, d, env.loaded);
    assert Runs(env).calls(dateStr) == DayCalls(env, dateStr, env.loaded);
  }

  /** Every day that reads back gets its record, in order. */
  lemma {:induction false} DaysAll(env: Env, days: seq<ValidDate>)
    requires ReadsBack(env)
    ensures var r := DaysRecords(Runs(env), days);
      && r.Some? && |r.value| == |days|
      && forall i :: 0 <= i < |days| ==> r.value[i] == DayRecord(FormatDate(days[i]), DayTable(env, days[i]))
  {
    if |days| > 0 {
      var run := Runs(env);
      var n := |days| - 1;
      var prefix := days[..n];
      DaysAll(env, prefix);
      assert env.parse(FormatDate(days[n])) == Some(days[n]);
      DayRunValues(env, days[n]);
      DaysStep(run, days, n);
      assert days[..n + 1] == days;
      var before := DaysRecords(run, prefix).value;
      var r := DaysRecords(run, days).value;
      forall i | 0 <= i < |days|
        ensures r[i] == DayRecord(FormatDate(days[i]), DayTable(env, days[i]))
      {
        if i < n {
          assert r[i] == before[i] && days[i] == prefix[i];
        }
      }
    }
  }

  lemma MultiplyStep(a: int, n: int)
    ensures a * (n + 1) == a * n + a
  {
  }

  /** Every day that reads back makes 24 scoring calls per loaded metric. */
  lemma {:induction false} DaysCallsAll(env: Env, days: seq<ValidDate>)
    requires ReadsBack(env)
    ensures |DaysCalls(Runs(env), days)| == 24 * |env.loaded| * |days|
  {
    if |days| > 0 {
      var run := Runs(env);
      var n := |days| - 1;
      DaysCallsAll(env, days[..n]);
      DaysAll(env, days[..n]);
      assert env.parse(FormatDate(days[n])) == Some(days[n]);
      DayRunCalls(env, days[n]);
      DaysStep(run, days, n);
      assert days[..n + 1] == days;
      var perDay := 24 * |env.loaded|;
      assert |DaysCalls(run, days)| == |DaysCalls(run, days[..n])| + perDay;
      MultiplyStep(perDay, n);
    }
  }

  /**
   * Accepted dates whose text reads back: the answer echoes the two request values and lists
   * one record per day from the start to the end, in order, each holding every loaded model's
   * daily mean, after 24 scoring calls per model per day; only a range ending on 9999-12-31
   * (the day after it overflows) is answered 500 instead.
   */
  lemma RangeAnswers(env: Env, body: Body)
    requires ReadsBack(env)
    requires RangeDates(env, body).Ok?
    ensures var (start, end) := RangeDates(env, body).value;
      var days := DaysThrough(start, end);
      && (RangeOutcome(env, body).Error? <==> LessEq(start, end) && end == MAX_DATE)
      && (RangeOutcome(env, body).Error? ==> RangeOutcome(env, body) == Error(500, "Internal server error"))
      && (RangeOutcome(env, body).Ok? ==>
            var answer := RangeOutcome(env, body).value;
            && answer.startDate == body.value["start_date"] && answer.endDate == body.value["end_date"]
            && |answer.predictions| == |days|
            && forall i :: 0 <= i < |days| ==>
                 answer.predictions[i] == DayRecord(FormatDate(days[i]), DayTable(env, days[i])))
      && |RangeCallLog(env, body)| == 24 * |env.loaded| * |days|
  {
    var (start, end) := RangeDates(env, body).value;
    var days := DaysThrough(start, end);
    DaysThroughSteps(start, end);
    DaysAll(env, days);
    DaysCallsAll(env, days);
  }

  /** The number of records is the number of days: `(end - start).days + 1`, at most 31. */
  lemma RangeLength(start: ValidDate, end: ValidDate)
    requires LessEq(start, end) && DaysBetween(start, end) <= 30
    ensures 1 <= |DaysThrough(start, end)| == DaysBetween(start, end) + 1 <= 31
  {
    DaysThroughOrdinals(start, end);
  }

  /** A one-day range answers that day's record alone. */
  lemma SingleDay(env: Env, body: Body)
    requires ReadsBack(env)
    requires RangeDates(env, body).Ok? && RangeDates(env, body).value.0 == RangeDates(env, body).value.1
    requires RangeDates(env, body).value.0 != MAX_DATE
    ensures var d := RangeDates(env, body).value.0;
      && RangeOutcome(env, body).Ok?
      && RangeOutcome(env, body).value.predictions == [DayRecord(FormatDate(d), DayTable(env, d))]
  {
    var d := RangeDates(env, body).value.0;
    RangeAnswers(env, body);
    DaysThroughSteps(d, d);
    DaysThroughOrdinals(d, d);
    var p := RangeOutcome(env, body).value.predictions;
    assert |p| == 1;
  }

  /**
   * For a model other than temperature and humidity every hour sees the same features, so the
   * daily mean is that hour's value.
   */
  lemma FlatDaily(env: Env, d: ValidDate, metric: string)
    requires metric != "temperature" && metric != "humidity"
    ensures DailyValueOf(env, d, metric).text
      == env.num.show(env.num.round2(HourlyRecords(env, d, metric)[0].predicted))
  {
    var hours := HourlyRecords(env, d, metric);
    forall i | 0 <= i < |hours|
      ensures hours[i].predicted == hours[0].predicted
    {
      FlatForecast(env, d, metric, i, 0);
    }
    DailyOfFlat(env.num, hours);
  }
}
