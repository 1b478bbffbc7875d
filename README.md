# Weather station forecasting backend, modelled in Dafny

This project models the forecasting pipeline of the Flask backend in `backend/app.py`, which
serves Random Forest weather models for the Neemrana (Rajasthan) site. It covers four parts:

- the **feature builder** `create_features`. It maps a timestamp and two optional lag values to
  an ordered feature dict: ten base keys, then `temp_lag1` and `humidity_lag1` when given;
- the **hourly predictor** `predict_hourly`. It is a 24-step loop that scores one feature frame
  per hour, rounds the result and appends a record. For `temperature` and `humidity` the loop
  feeds the raw score back as the next hour's lag input;
- the **range predictor** `predict_range`. It has a span guard of 30 days and walks the calendar
  days from start to end inclusive. For each day it averages each loaded model's 24 rounded hourly
  values;
- the **request outcomes** of `predict` and `predict_metric`. These are the order of the checks,
  the status codes 400 / 404 / 500, and the JSON answer.

The models are one scoring function `score(metric, frame)` over a list of loaded metric names.
Both live in `Env`, with the float library and the date parser.

- The float library (`sin`/`cos` of `2π·k/n`, `round(x, 2)`, `str`) is left uninterpreted.
- The date parser (`strptime(s, '%Y-%m-%d')`) is also uninterpreted. It yields a valid calendar
  date or fails.

Every method also returns the sequence of scoring calls it made. This lets the contracts say
"no model was scored" as well as what each hour scored.

Modules follow the program's structure:

- `common.dfy`: `Option`.
- `text.dfy`: zero-padded decimal text and its reader.
- `calendar.dfy`: proleptic Gregorian dates as Python's `datetime` handles them. It covers the
  ordinal, the Monday=0 weekday, `+ timedelta(days=1)`, `(b - a).days`, tuple order, `strftime`
  and `isoformat`.
- `features.dfy`: `create_features` and the column selection `pd.DataFrame([f])[cols]`.
- `hourly.dfy`: `predict_hourly`, as an imperative method proved against a specification of the
  24-hour schedule, plus the lag-feedback lemmas.
- `handlers.dfy`: `predict` and `predict_metric`.
- `range.dfy`: the daily aggregator and `predict_range`, with its day loop and its per-metric
  loop as methods.

Some of what the code does in edge cases is easy to miss when reading it:

- **Start after end.** A range whose start comes after its end is not rejected. `(end - start).days`
  is negative, so the guard passes, the loop runs no day and the answer lists no records
  (`RangePredictor.EmptyRange`).
- **Non-string dates.** A date value that is not a string makes `strptime` raise `TypeError`. The
  endpoint catches only `ValueError`, so the answer is a 500, not a 400. With debug off, the 500
  handler answers "Internal server error", and that is the message the model gives. The server
  starts with `debug=True`, and in that mode Flask hands the exception to the debugger and the
  500 handler is bypassed. The status is 500 either way.
- **Last calendar day.** A range ending on 9999-12-31 is answered 500, after all of its days were
  scored, because `current += timedelta(days=1)` raises `OverflowError` after the last day. The
  message is that of the 500 handler, as for non-string dates.
- **Every loaded model answers in `predict`.** `predict` only visits loaded models, and the date
  was checked before the loop, so no forecast is dropped: every loaded model is in the answer
  (`Requests.PredictAnswersEveryModel`).

## Model

| member | source | states |
|---|---|---|
| Text.Pad2 | backend/app.py:115 | `f"{hour:02d}"` writes exactly two characters |
| Text.ReadPad2 | backend/app.py:115 | the two-digit text of `n < 100` reads back as `n` |
| Text.Pad4 | backend/app.py:239 | the year is written as four digits (`%04d`), as Calendar.FormatDate uses it; see the Calendar.FormatDate line under "## Left out" for years below 1000 |
| Text.ReadPad4 | backend/app.py:239 | the four-digit year text reads back as the year |
| Text.ReadDigits | backend/app.py:115 | a text reads as a number exactly when it is non-empty and all digits |
| Text.DigitChar | backend/app.py:115 | the digit written for `n < 10` is a digit character of value `n` |
| Calendar.Ordinal | backend/app.py:63 | `toordinal()`, counting 0001-01-01 as day 1; Weekday, DaysBetween and NextDay are stated through it |
| Calendar.Weekday | backend/app.py:63 | `weekday()` is in 0..6 |
| Calendar.WeekdayExample | backend/app.py:63 | 2024-01-01 is a Monday (weekday 0) |
| Calendar.WeekdayNext | backend/app.py:63 | the weekday of the next day is the weekday plus one, mod 7 |
| Calendar.DaysBetween | backend/app.py:232 | `(end - start).days` of two midnight datetimes is the difference of their ordinals; DaysThroughOrdinals and RangeLength state what it counts |
| Calendar.LessEq | backend/app.py:238 | `current <= end` on midnight datetimes is tuple order of (year, month, day); OrdinalOrder ties it to the ordinals |
| Calendar.OrdinalOrder | backend/app.py:238 | `current <= end` (tuple order) holds exactly when the ordinals are in order; equal ordinals mean the same date |
| Calendar.NextDay | backend/app.py:252 | `+ timedelta(days=1)` fails exactly on 9999-12-31 and otherwise gives the date whose ordinal is one more |
| Calendar.DaysThrough | backend/app.py:236-252 | the values `current` takes in `while current <= end: ... current += timedelta(days=1)`; DaysThroughOrdinals and DaysThroughSteps state what they are |
| Calendar.DaysThroughOrdinals | backend/app.py:232-252 | the days from start to end number `(end - start).days + 1` (none if start comes after end); the i-th is i days after start |
| Calendar.DaysThroughSteps | backend/app.py:238-252 | the day list is empty exactly when start comes after end; it starts at start, ends at end, stays at or before end, and each day is the next day of the one before |
| Calendar.FormatDate | backend/app.py:239 | `strftime('%Y-%m-%d')` writes ten characters |
| Calendar.ReadDate | backend/app.py:227 | a reader of the fixed-width `%Y-%m-%d` form that yields only valid calendar dates; ReadFormatDate and ReadDateReadsBack state what it reads back |
| Calendar.ReadFormatDate | backend/app.py:239 | reading back the formatted date gives the date |
| Calendar.FormatDateInjective | backend/app.py:239 | two dates have the same text exactly when they are equal |
| Calendar.IsoFormat | backend/app.py:116 | `isoformat()` of a whole-second timestamp is 19 characters |
| Calendar.ReadIsoFormat | backend/app.py:116 | the ISO text reads back as date, hour, minute and second, with `T` and the separators in place |
| FeatureBuilder.Name | backend/app.py:60-76 | the key each column has in the feature dict, `'year'` to `'humidity_lag1'`; NamesDistinct states that the keys are distinct |
| FeatureBuilder.NamesDistinct | backend/app.py:60-76 | two columns have the same dict key exactly when they are the same column, so the column type stands for the string keys |
| FeatureBuilder.Insert | backend/app.py:74-76 | `f[c] = v` keeps keys distinct, sets the value, and appends a new key at the end or keeps an existing key in place |
| FeatureBuilder.BaseValues | backend/app.py:59-70 | the dict literal has exactly the ten base keys; year, month and day come from the date, dayofweek is the weekday, the four cyclical features are sin/cos of month/12 and weekday/7, and latitude/longitude are LAT/LON |
| FeatureBuilder.WithLags | backend/app.py:72-76 | each lag key is present exactly when its value is given, holds that value, and goes after the base keys; base values are unchanged |
| FeatureBuilder.CreateFeatures | backend/app.py:57-78 | the vector is a well-formed ordered dict: the ten base keys in order, then `temp_lag1` iff a temperature lag is given, then `humidity_lag1` iff a humidity lag is given, with the base values of the date and the given lag values |
| FeatureBuilder.FeaturesIgnoreTime | backend/app.py:57-70 | the features depend only on the date, not on the time of day |
| FeatureBuilder.Frame | backend/app.py:109 | `pd.DataFrame([f])[cols]` has one cell per selected column, in the order of `cols` |
| FeatureBuilder.FrameCell | backend/app.py:109 | each cell holds the dict's value for its column |
| FeatureBuilder.FeatureColumnsOfBuilt | backend/app.py:98-109 | the column selection of `predict_hourly` picks every key of a built vector exactly once, in insertion order |
| FeatureBuilder.FullVector | backend/app.py:57-78 | with both lags given, the vector holds all twelve columns in training order and each column's value |
| FeatureBuilder.ColumnValue | backend/app.py:59-76 | the value each column should hold, written column by column and apart from the dict construction; FullVector and HourRowLayout prove that the built vector holds these values |
| FeatureBuilder.FeatureColumns | backend/app.py:98-107 | the column list `feature_cols`: the ten base columns, then each lag column the dict holds; FeatureColumnsOfBuilt states that it is the built vector's key order |
| HourlyPredictor.StoreValid | backend/app.py:43-54 | what `load_models` can leave in `models`: each loaded name once, each a key of `model_files`; PerformanceCoversStore uses it |
| HourlyPredictor.HourLabel | backend/app.py:115 | the hour label has five characters |
| HourlyPredictor.ReadHourLabel | backend/app.py:115 | the label is the two-digit hour followed by `:00` |
| HourlyPredictor.HourTime | backend/app.py:94 | `date_obj.replace(hour=h, minute=0, second=0)`: hour h of the date at minute and second 0 |
| HourlyPredictor.HourRow | backend/app.py:95-109 | the frame scored at an hour: the features of that hour with both lags, selected by `feature_cols`; HourRowLayout states its cells |
| HourlyPredictor.NextLags | backend/app.py:120-124 | the feedback step: temperature replaces the temperature lag, humidity the humidity lag, any other metric keeps both; TemperatureLags, HumidityLags and OtherLagsStayDefault state its effect over the day |
| HourlyPredictor.LagsAt | backend/app.py:90-124 | `prev_temp` and `prev_humidity` in force at hour h: 25.0 and 65.0 at hour 0, then the feedback step after each hour; FirstHourLags, TemperatureLags, HumidityLags and OtherLagsStayDefault state them |
| HourlyPredictor.HourCall | backend/app.py:109-112 | the scoring call of hour h, on the frame built with the lags in force; HourlyRecordsMeaning states it |
| HourlyPredictor.HourRecord | backend/app.py:112-118 | the record of hour h, made from the score of its call |
| HourlyPredictor.Record | backend/app.py:114-118 | the record of an hour: its `HH:00` label, its ISO timestamp and the score rounded to two places; HourlyRecordsMeaning states each field |
| HourlyPredictor.RecordsThrough | backend/app.py:93-118 | the first n hours give n records |
| HourlyPredictor.CallsThrough | backend/app.py:93-112 | the first n hours make n scoring calls |
| HourlyPredictor.HourlyRecords | backend/app.py:93-126 | the 24 records of a loaded metric on a parsed date; HourlyRecordsMeaning states each |
| HourlyPredictor.HourlyCalls | backend/app.py:93-112 | the 24 scoring calls of a loaded metric on a parsed date; CallsThroughAt states each |
| HourlyPredictor.HourStep | backend/app.py:93-124 | one pass of the loop appends that hour's record and call, and leaves the lags the feedback step computes from the raw score |
| HourlyPredictor.PredictHourly | backend/app.py:81-126 | the loop computes HourlyOutcome and HourlyCallLog; the result is None exactly for a metric that is not loaded; None or a failed parse means no call; otherwise 24 records and 24 calls |
| HourlyPredictor.HourlyOutcome | backend/app.py:81-126 | what `predict_hourly` gives: None for a metric that is not loaded, the ValueError of an unparsable date, or the 24 records; PredictHourly is proved to compute it |
| HourlyPredictor.HourlyCallLog | backend/app.py:81-126 | the scoring calls `predict_hourly` makes: 24 when it gives the records, none otherwise |
| HourlyPredictor.RecordsThroughAt | backend/app.py:93-118 | record i of the first n is the record of hour i |
| HourlyPredictor.CallsThroughAt | backend/app.py:93-112 | call i of the first n is the call of hour i |
| HourlyPredictor.HourlyRecordsMeaning | backend/app.py:93-118 | record i is labelled with hour i in `HH:00` form and stamped with hour i of the date; its value is Round2 of the raw score of call i; call i scores this metric's model on hour i's frame and lags |
| HourlyPredictor.HourRowLayout | backend/app.py:94-109 | every scored frame has the twelve columns in training order, with the date's calendar features, the site and the two lag values |
| HourlyPredictor.HourRowLags | backend/app.py:95-109 | the last two cells of an hour's frame are the lag values in force |
| HourlyPredictor.HourRowIgnoresHour | backend/app.py:94-95 | two hours of the same date with the same lags score the same frame |
| HourlyPredictor.FirstHourLags | backend/app.py:90-91 | hour 0 is scored with `temp_lag1 = 25.0` and `humidity_lag1 = 65.0` |
| HourlyPredictor.TemperatureLags | backend/app.py:120-122 | for temperature, hour h+1's temperature lag is hour h's raw score and the humidity lag stays 65.0 |
| HourlyPredictor.HumidityLags | backend/app.py:123-124 | for humidity, hour h+1's humidity lag is hour h's raw score and the temperature lag stays 25.0 |
| HourlyPredictor.OtherLagsStayDefault | backend/app.py:120-124 | for any other metric the lags stay 25.0 / 65.0 at every hour |
| HourlyPredictor.TemperatureFeedback | backend/app.py:90-124 | in the temperature forecast, the frame of hour h+1 carries hour h's raw score as `temp_lag1` and 65.0 as `humidity_lag1` |
| HourlyPredictor.HumidityFeedback | backend/app.py:90-124 | in the humidity forecast, the frame of hour h+1 carries hour h's raw score as `humidity_lag1` and 25.0 as `temp_lag1` |
| HourlyPredictor.OtherMetricLags | backend/app.py:90-124 | every frame scored for any other metric carries the default lags |
| HourlyPredictor.FlatForecast | backend/app.py:93-124 | any other metric predicts the same value at every hour of a date |
| Requests.DateArgument | backend/app.py:150-159 | the date check succeeds only for a present string date that parses |
| Requests.Falsy | backend/app.py:150 | `not data`: no body or an empty object; DateErrors and RangeErrors state the answer it leads to |
| Requests.DateErrors | backend/app.py:148-159 | a missing body or key gives 400 "Date is required"; a non-string date gives 500 "Internal server error"; a string date gives 400 "Invalid date format. Use YYYY-MM-DD" exactly when it does not parse, and passes with its text otherwise; `predict` answers exactly the date check's error, with its status and message, and makes no call |
| Requests.Collect | backend/app.py:161-167 | the predictions dict has at most one entry per visited model |
| Requests.Truthy | backend/app.py:166 | `if hourly:`: a list with at least one record; None and the empty list are false |
| Requests.CollectStep | backend/app.py:164-167 | one pass of the loop over the models appends that model's forecast when it is truthy, and its calls |
| Requests.CollectCalls | backend/app.py:164-165 | the scoring calls of the loop over the models: each model's forecast calls in turn; CollectStep states one pass |
| Requests.CollectAll | backend/app.py:164-167 | for a date that parses, every loaded model gets its entry, in order, with its 24-hour forecast |
| Requests.Predict | backend/app.py:145-184 | the loop over the models computes PredictOutcome and the calls of each model's forecast in turn |
| Requests.PredictOutcome | backend/app.py:145-184 | the answer of `predict`: the date check's error, or the date, the site, the predictions dict and the metadata; DateErrors and PredictAnswersEveryModel state its cases |
| Requests.PredictCallLog | backend/app.py:145-184 | the scoring calls of `predict`: none on a rejected date, else those of the loop; DateErrors states the first case |
| Requests.PredictAnswersEveryModel | backend/app.py:145-184 | a 200 answer echoes the date, names the site as 27.83 / 76.23 / "Neemrana, Rajasthan", and holds one 24-record forecast per loaded model, in loading order |
| Requests.PerformanceCoversStore | backend/app.py:34-40 | every model the loader can produce has a performance entry |
| Requests.PerformanceOf | backend/app.py:34-40 | `model_metrics.get(metric, {})` has an entry exactly for the five metrics that have a model file |
| Requests.PredictMetric | backend/app.py:187-215 | the handler computes MetricOutcome and its calls |
| Requests.MetricOutcome | backend/app.py:187-215 | the answer of `predict_metric`: 404 for an unknown metric, then the date check's error, then "Prediction failed" for an empty forecast, or the answer body; MetricAnswers states its cases |
| Requests.NotFoundMessage | backend/app.py:191 | the 404 message `f'Model for {metric} not found'`; MetricAnswers states when it is answered |
| Requests.MetricCallLog | backend/app.py:187-215 | the scoring calls of `predict_metric`: none on 404 or a rejected date, else the 24 of the forecast; MetricAnswers states both |
| Requests.MetricAnswers | backend/app.py:187-215 | an unknown metric is answered 404 "Model for <metric> not found" whatever the body; for a loaded metric the answer is an error exactly when the date check fails, and then it is that check's error with its status and message; "Prediction failed" is never answered; an error means no call; a 200 answer echoes the request's date and the path's metric and holds the 24 records, the performance entry and the 24 calls |
| RangePredictor.SumAppend | backend/app.py:248 | the sum of two series put together is the sum of their sums |
| RangePredictor.SumConstant | backend/app.py:248 | n copies of c add up to n·c |
| RangePredictor.MeanConstant | backend/app.py:248 | the mean of a constant series is that constant |
| RangePredictor.SumBounds | backend/app.py:248 | a sum of values in [lo, hi] lies between n·lo and n·hi |
| RangePredictor.MeanBounds | backend/app.py:248 | values all in [lo, hi] have a mean in [lo, hi] |
| RangePredictor.Mean | backend/app.py:248 | `np.mean` of a non-empty series, on exact reals: the sum divided by the count; MeanConstant, MeanBounds and MeanExample state its properties |
| RangePredictor.MeanExample | backend/app.py:248 | twelve hours at 10.00 and twelve at 20.00 average to 15.0 |
| RangePredictor.Predicted | backend/app.py:248 | `[h['predicted'] for h in hourly]` keeps each record's value, in order |
| RangePredictor.DailyText | backend/app.py:248-249 | `str(round(float(avg), 2))` of the mean of a day's rounded hourly values; DailyOfFlat and FlatDaily state it for flat days |
| RangePredictor.DailyOfFlat | backend/app.py:248-249 | a flat day shows the text of its repeated hourly value |
| RangePredictor.FlatDaily | backend/app.py:248-249 | for any metric other than temperature and humidity, the daily text is that of its hour-0 value |
| RangePredictor.RangeDates | backend/app.py:221-233 | the checks pass only for a non-empty body holding both keys as strings; the dates they give are what the parser read from `start_date` and `end_date`, and they are at most 30 days apart |
| RangePredictor.RangeErrors | backend/app.py:221-233 | a missing body or key gives 400 "start_date and end_date are required"; then a non-string `start_date` gives 500 "Internal server error", an unparsable one 400 "Invalid date format. Use YYYY-MM-DD", and likewise for `end_date` after that; two parsed dates get 400 "Date range cannot exceed 30 days" exactly when they are more than 30 days apart; any rejection makes no call; every error is a 400 or a 500 |
| RangePredictor.ThirtyOneDaysRejected | backend/app.py:232-233 | 2024-01-01 to 2024-02-01 is rejected with "Date range cannot exceed 30 days" and no call |
| RangePredictor.ThirtyDaysAccepted | backend/app.py:232-233 | 2024-01-01 to 2024-01-31 passes the checks |
| RangePredictor.EmptyRange | backend/app.py:235-252 | an end before the start answers 200 with no records and makes no call |
| RangePredictor.DayStaysFailed | backend/app.py:244-245 | once a metric's forecast raises, the day fails and later metrics make no call |
| RangePredictor.DaysStayFailed | backend/app.py:238-252 | once a day fails, the range fails and later days make no call |
| RangePredictor.DayStep | backend/app.py:244-249 | one pass of the per-metric loop adds that metric's daily text when its forecast is non-empty, fails on a raising forecast, and adds its calls |
| RangePredictor.DaysStep | backend/app.py:238-252 | one pass of the day loop appends that day's record, or fails with it, and adds its calls |
| RangePredictor.DayPrediction | backend/app.py:242-249 | the per-metric loop computes DayValues of the loaded metrics and their calls, stopping at a raising forecast |
| RangePredictor.DayValues | backend/app.py:242-249 | the metric values of one day record, in loading order, skipping empty forecasts; None where a forecast raises; DayStep and DayValuesAll state its cases |
| RangePredictor.DayCalls | backend/app.py:244-245 | the scoring calls of the per-metric loop of one day, up to a raising forecast; DayStep and DayCallsAll state them |
| RangePredictor.DaysRecords | backend/app.py:238-252 | the day records in order, None from the first failing day on; DaysStep, DaysStayFailed and DaysAll state its cases |
| RangePredictor.DaysCalls | backend/app.py:238-252 | the scoring calls of the day loop, up to a failing day; DaysStep, DaysStayFailed and DaysCallsAll state them |
| RangePredictor.SpanRecords | backend/app.py:235-252 | the records of the loop from start to end, or a failure on a failing day or on the overflow past 9999-12-31; PredictSpan is proved to compute it |
| RangePredictor.PredictSpan | backend/app.py:235-252 | the `while current <= end` loop computes SpanRecords: the records of every day, or a failure on a failing day or on the overflow after 9999-12-31, with the calls up to that point |
| RangePredictor.PredictRange | backend/app.py:218-258 | the handler computes RangeOutcome and its calls |
| RangePredictor.RangeOutcome | backend/app.py:218-258 | the answer of `predict_range`: the check's error, the 500 of a failing loop, or both request values echoed with the records; RangeErrors and RangeAnswers state its cases |
| RangePredictor.RangeCallLog | backend/app.py:218-258 | the scoring calls of `predict_range`: none on a rejection, else those of the day loop; RangeErrors and RangeAnswers state both |
| RangePredictor.DayValuesAll | backend/app.py:244-249 | for a date text that parses, every loaded metric gets its daily mean text, in order |
| RangePredictor.DayCallsAll | backend/app.py:244-245 | for a date text that parses, each loaded metric makes 24 calls |
| RangePredictor.DayRunValues | backend/app.py:239-249 | a day whose text reads back gets every loaded metric's daily mean |
| RangePredictor.DayRunCalls | backend/app.py:239-249 | a day whose text reads back makes 24 calls per loaded metric |
| RangePredictor.DaysAll | backend/app.py:238-252 | when every day's text reads back, every day gets its record, in order, with its date text and its daily means |
| RangePredictor.DaysCallsAll | backend/app.py:238-252 | when every day's text reads back, there are 24 calls per loaded metric per day |
| RangePredictor.DailyValueOf | backend/app.py:244-249 | the entry `day_data[metric]` for a day that parses: the text of the mean of the metric's 24 records |
| RangePredictor.DayTable | backend/app.py:244-249 | the metric entries of `day_data` for a day that parses, one per loaded model in loading order; DayValuesAll, DaysAll and RangeAnswers are stated through it |
| RangePredictor.ReadsBack | backend/app.py:226-239 | the hypothesis on `strptime`: it reads back every `%Y-%m-%d` text that `strftime` writes; ReadDateReadsBack shows that it can hold |
| RangePredictor.ReadDateReadsBack | backend/app.py:227-239 | a parser that reads the `%Y-%m-%d` form reads back every day text the loop writes, so the hypothesis of RangeAnswers can be met |
| RangePredictor.RangeAnswers | backend/app.py:218-258 | accepted dates answer 500 exactly when the range is non-empty and ends on 9999-12-31; otherwise the answer echoes both request values and gives one record per day from start to end, with its date and every loaded model's daily mean; either way there are 24 calls per model per day |
| RangePredictor.RangeLength | backend/app.py:232-238 | an accepted, non-empty range has `(end - start).days + 1` days, between 1 and 31 |
| RangePredictor.SingleDay | backend/app.py:235-252 | a range whose start equals its end answers exactly that day's record |

## Left out

- `load_models`, `joblib`, the `os.path` checks and the startup printing are disk I/O and logging. The loaded models are an input, and `StoreValid` states what the loader can leave: distinct names, each a key of `model_files`.
- Flask routing, `request.json`, `jsonify`, CORS and the 404 handler are the web framework. Each handler is modelled as a function from the decoded body to an answer or an error status with its message. The 500 handler is modelled only by its message.
- A body that is not a JSON object, or not JSON at all, is left out. So are newer Flask versions' 415 answers. Only the object cases are modelled.
- The health, metrics and `models_info` endpoints are not modelled. They only report the store and the constant table, and `models_info` introspects foreign model objects.
- Floating point is left out. `np.sin`/`np.cos`, `round(x, 2)` and `str` are uninterpreted functions, and mean values are computed on exact reals. The identity sin² + cos² = 1 of the cyclical encoding is not stated for the same reason.
- Python's `round(float(prediction), 2)` in two places is one uninterpreted `round2` applied to the exact value.
- `strptime` is an uninterpreted parser. The range results are proved under the hypothesis `ReadsBack`, that it reads back every `YYYY-MM-DD` text the day loop writes.
- Calendar.FormatDate always pads the year to four digits. Python's `strftime('%Y')` writes years below 1000 in a platform-dependent way. Where it writes them unpadded, as with glibc, `predict_hourly` cannot parse a day text such as `999-01-01`, because `strptime`'s `%Y` expects four digits. It raises ValueError, and a range with such a day answers 500. RangeAnswers does not cover that case: the model always pads, and RangeAnswers assumes ReadsBack.
- `pd.DataFrame([features])[feature_cols]` is modelled as the ordered sequence of named cells the model sees.
- A loaded metric named `date` would overwrite the date key of a day record. `StoreValid` rules it out, and a day record keeps the date apart from the metric values.
- PredictAnswersEveryModel, CollectAll, DayValuesAll, DaysAll and RangeAnswers do not require `StoreValid`. For a store with a repeated name or a metric named `date`, they describe the model's sequence of entries, which no Python dict holds. Such a store is unreachable, because `load_models` fills a dict from the five keys of `model_files`.
- In `predict`, a forecast that raises on its date cannot happen after the date check. Requests.Collect therefore skips the raising case, and CollectAll proves that every loaded model is kept.
- The frontend (`frontend/src/services/mlService.js`, `src/router/index.js`, `src/main.js`) is not part of this model. It is random noise, browser I/O and app bootstrap.
- The `debug=True` server settings are not modelled. One consequence is that the 500 answers here carry the 500 handler's message. With debug on, Flask hands the uncaught exception to the debugger instead, and the JSON message is not sent. The status is 500 in both cases.
- The scorer is a total function. A model whose `predict` raises would make the endpoint answer 500, and the model does not represent that case.
- `jsonify` sorts object keys by default. "In loading order" in PredictAnswersEveryModel, CollectAll, DayValuesAll and DaysAll is therefore the order of the Python dict, not of the keys in the JSON text sent back.
