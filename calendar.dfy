/**
 * Proleptic Gregorian calendar dates as Python's `datetime` handles them: years 1..9999,
 * day ordinals counted from 0001-01-01 (ordinal 1, a Monday), the Monday=0 weekday, the
 * one-day step of `+ timedelta(days=1)` (which overflows after 9999-12-31), the day
 * difference `(end - start).days`, tuple-order comparison, and the text forms written by
 * `strftime('%Y-%m-%d')` and `isoformat()`.
 */
module Calendar {
  import opened Common
  import Text

  datatype Date = Date(year: int, month: int, day: int)

  /** A `datetime`: a date and a time of day (microseconds are always 0 here). */
  datatype DateTime = DateTime(date: Date, hour: int, minute: int, second: int)

  const MAX_YEAR := 9999
  const MAX_DATE := Date(9999, 12, 31)

  predicate IsLeap(y: int)
  {
    y % 4 == 0 && (y % 100 != 0 || y % 400 == 0)
  }

  function DaysInMonth(y: int, m: int): int
  {
    if m == 2 then (if IsLeap(y) then 29 else 28)
    else if m == 4 || m == 6 || m == 9 || m == 11 then 30
    else 31
  }

  function DaysInYear(y: int): int
  {
    if IsLeap(y) then 366 else 365
  }

  /** A date `datetime` accepts: MINYEAR..MAXYEAR, a real month, a day within that month. */
  predicate Valid(d: Date)
  {
    1 <= d.year <= MAX_YEAR && 1 <= d.month <= 12 && 1 <= d.day <= DaysInMonth(d.year, d.month)
  }

  type ValidDate = d: Date | Valid(d) witness Date(1, 1, 1)

  /** Days in the years before year `y` (y >= 1). */
  function DaysBeforeYear(y: int): int
  {
    var p := y - 1;
    p * 365 + p / 4 - p / 100 + p / 400
  }

  /** Days in the months of year `y` before month `m`. */
  function DaysBeforeMonth(y: int, m: int): int
    requires 1 <= m <= 12
  {
    var common :=
      if m == 1 then 0 else if m == 2 then 31 else if m == 3 then 59 else if m == 4 then 90
      else if m == 5 then 120 else if m == 6 then 151 else if m == 7 then 181
      else if m == 8 then 212 else if m == 9 then 243 else if m == 10 then 273
      else if m == 11 then 304 else 334;
    common + (if m > 2 && IsLeap(y) then 1 else 0)
  }

  /** `date.toordinal()`: 0001-01-01 is day 1. */
  function Ordinal(d: ValidDate): int
  {
    DaysBeforeYear(d.year) + DaysBeforeMonth(d.year, d.month) + d.day
  }

  /** `date.weekday()`: Monday is 0, Sunday is 6. */
  function Weekday(d: ValidDate): (w: int)
    ensures 0 <= w <= 6
  {
    (Ordinal(d) + 6) % 7
  }

  /** `(b - a).days` for two dates at the same time of day. */
  function DaysBetween(a: ValidDate, b: ValidDate): int
  {
    Ordinal(b) - Ordinal(a)
  }

  /** `a <= b` on `datetime` values at the same time of day: tuple order of (year, month, day). */
  predicate LessEq(a: Date, b: Date)
  {
    a.year < b.year
    || (a.year == b.year && (a.month < b.month || (a.month == b.month && a.day <= b.day)))
  }

  lemma YearStep(y: int)
    requires y >= 1
    ensures DaysBeforeYear(y + 1) == DaysBeforeYear(y) + DaysInYear(y)
  {
    var p := y - 1;
    assert (p + 1) / 4 == p / 4 + (if y % 4 == 0 then 1 else 0);
    assert (p + 1) / 100 == p / 100 + (if y % 100 == 0 then 1 else 0);
    assert (p + 1) / 400 == p / 400 + (if y % 400 == 0 then 1 else 0);
  }

  lemma MonthStep(y: int, m: int)
    requires 1 <= m < 12
    ensures DaysBeforeMonth(y, m + 1) == DaysBeforeMonth(y, m) + DaysInMonth(y, m)
  {
  }

  lemma {:induction false} YearMonotone(y1: int, y2: int)
    requires 1 <= y1 < y2
    ensures DaysBeforeYear(y1 + 1) <= DaysBeforeYear(y2)
    decreases y2 - y1
  {
    if y1 + 1 < y2 {
      YearMonotone(y1, y2 - 1);
      YearStep(y2 - 1);
    }
  }

  /** A valid date's ordinal lies within its own year. */
  lemma OrdinalInYear(d: ValidDate)
    ensures DaysBeforeYear(d.year) < Ordinal(d) <= DaysBeforeYear(d.year + 1)
  {
    YearStep(d.year);
  }

  lemma MonthMonotone(y: int, m1: int, m2: int)
    requires 1 <= m1 < m2 <= 12
    ensures DaysBeforeMonth(y, m1) + DaysInMonth(y, m1) <= DaysBeforeMonth(y, m2)
  {
  }

  /** Tuple order on valid dates is exactly the order of their ordinals. */
  lemma OrdinalOrder(a: ValidDate, b: ValidDate)
    ensures LessEq(a, b) <==> Ordinal(a) <= Ordinal(b)
    ensures Ordinal(a) == Ordinal(b) ==> a == b
  {
    OrdinalInYear(a);
    OrdinalInYear(b);
    if a.year < b.year {
      YearMonotone(a.year, b.year);
    } else if b.year < a.year {
      YearMonotone(b.year, a.year);
    } else if a.month < b.month {
      MonthMonotone(a.year, a.month, b.month);
    } else if b.month < a.month {
      MonthMonotone(a.year, b.month, a.month);
    }
  }

  /** `d + timedelta(days=1)`; None where Python raises OverflowError (after 9999-12-31). */
  function NextDay(d: ValidDate): (r: Option<ValidDate>)
    ensures r.None? <==> d == MAX_DATE
    ensures r.Some? ==> Ordinal(r.value) == Ordinal(d) + 1
  {
    if d.day < DaysInMonth(d.year, d.month) then
      Some(Date(d.year, d.month, d.day + 1))
    else if d.month < 12 then
      MonthStep(d.year, d.month);
      Some(Date(d.year, d.month + 1, 1))
    else if d.year < MAX_YEAR then
      YearStep(d.year);
      Some(Date(d.year + 1, 1, 1))
    else
      None
  }

  /**
   * The calendar days from `first` to `last`, both included, in ascending order;
   * empty when `first` comes after `last`.
   */
  function DaysThrough(first: ValidDate, last: ValidDate): seq<ValidDate>
    decreases Ordinal(last) - Ordinal(first)
  {
    OrdinalOrder(first, last);
    if !LessEq(first, last) then []
    else if first == last then [first]
    else
      assert first != MAX_DATE by { OrdinalOrder(last, MAX_DATE); }
      var next := NextDay(first).value;
      OrdinalOrder(next, last);
      [first] + DaysThrough(next, last)
  }

  /**
   * There are `(last - first).days + 1` days from `first` to `last`, none when `first` comes
   * after `last`, and the `i`-th of them is `i` days after `first`.
   */
  lemma {:induction false} DaysThroughOrdinals(first: ValidDate, last: ValidDate)
    ensures var r := DaysThrough(first, last);
      && |r| == (if LessEq(first, last) then DaysBetween(first, last) + 1 else 0)
      && forall i :: 0 <= i < |r| ==> Ordinal(r[i]) == Ordinal(first) + i
    decreases Ordinal(last) - Ordinal(first)
  {
    OrdinalOrder(first, last);
    if LessEq(first, last) && first != last {
      assert first != MAX_DATE by { OrdinalOrder(last, MAX_DATE); }
      var next := NextDay(first).value;
      OrdinalOrder(next, last);
      DaysThroughOrdinals(next, last);
      var r := DaysThrough(first, last);
      assert r == [first] + DaysThrough(next, last);
    }
  }

  /** The days run from `first` to `last`, each the day after the one before it. */
  lemma DaysThroughSteps(first: ValidDate, last: ValidDate)
    ensures var r := DaysThrough(first, last);
      && (|r| == 0 <==> !LessEq(first, last))
      && (|r| > 0 ==> r[0] == first && r[|r| - 1] == last)
      && (forall i :: 0 <= i < |r| ==> LessEq(r[i], last))
      && forall i :: 0 <= i < |r| - 1 ==> NextDay(r[i]) == Some(r[i + 1])
  {
    var r := DaysThrough(first, last);
    DaysThroughOrdinals(first, last);
    OrdinalOrder(first, last);
    if |r| > 0 {
      OrdinalOrder(r[0], first);
      OrdinalOrder(r[|r| - 1], last);
    }
    forall i | 0 <= i < |r|
      ensures LessEq(r[i], last)
    {
      OrdinalOrder(r[i], last);
    }
    forall i | 0 <= i < |r| - 1
      ensures NextDay(r[i]) == Some(r[i + 1])
    {
      assert Ordinal(r[i + 1]) == Ordinal(r[i]) + 1;
      OrdinalOrder(r[i + 1], MAX_DATE);
      assert r[i] != MAX_DATE;
      OrdinalOrder(NextDay(r[i]).value, r[i + 1]);
    }
  }

  /** `strftime('%Y-%m-%d')`, with the year written as four digits. */
  function FormatDate(d: ValidDate): (s: string)
    ensures |s| == 10
  {
    Text.Pad4(d.year) + "-" + Text.Pad2(d.month) + "-" + Text.Pad2(d.day)
  }

  /** Reads back the fixed-width `YYYY-MM-DD` form that FormatDate writes. */
  function ReadDate(s: string): Option<ValidDate>
  {
    if |s| != 10 || s[4] != '-' || s[7] != '-' then None
    else match (Text.ReadDigits(s[..4]), Text.ReadDigits(s[5..7]), Text.ReadDigits(s[8..]))
      case (Some(y), Some(m), Some(d)) =>
        if Valid(Date(y, m, d)) then Some(Date(y, m, d)) else None
      case _ => None
  }

  /** The date text reads back as the date written, so distinct days get distinct texts. */
  lemma ReadFormatDate(d: ValidDate)
    ensures ReadDate(FormatDate(d)) == Some(d)
  {
    var y, m, dd := Text.Pad4(d.year), Text.Pad2(d.month), Text.Pad2(d.day);
    var s := FormatDate(d);
    assert s[..4] == y && s[5..7] == m && s[8..] == dd;
    Text.ReadPad4(d.year);
    Text.ReadPad2(d.month);
    Text.ReadPad2(d.day);
  }

  lemma FormatDateInjective(a: ValidDate, b: ValidDate)
    ensures FormatDate(a) == FormatDate(b) <==> a == b
  {
    ReadFormatDate(a);
    ReadFormatDate(b);
  }

  /** `datetime.isoformat()` for a whole second: `YYYY-MM-DDTHH:MM:SS`. */
  function IsoFormat(t: DateTime): (s: string)
    requires Valid(t.date) && 0 <= t.hour < 24 && 0 <= t.minute < 60 && 0 <= t.second < 60
    ensures |s| == 19
  {
    FormatDate(t.date) + "T" + Text.Pad2(t.hour) + ":" + Text.Pad2(t.minute) + ":" + Text.Pad2(t.second)
  }

  /** The timestamp text holds the date text, then the hour, minute and second. */
  lemma ReadIsoFormat(t: DateTime)
    requires Valid(t.date) && 0 <= t.hour < 24 && 0 <= t.minute < 60 && 0 <= t.second < 60
    ensures var s := IsoFormat(t);
      && s[..10] == FormatDate(t.date) && s[10] == 'T' && s[13] == ':' && s[16] == ':'
      && Text.ReadDigits(s[11..13]) == Some(t.hour)
      && Text.ReadDigits(s[14..16]) == Some(t.minute)
      && Text.ReadDigits(s[17..]) == Some(t.second)
  {
    var date, h, m, sec := FormatDate(t.date), Text.Pad2(t.hour), Text.Pad2(t.minute), Text.Pad2(t.second);
    var s := IsoFormat(t);
    assert s[..10] == date && s[11..13] == h && s[14..16] == m && s[17..] == sec;
    Text.ReadPad2(t.hour);
    Text.ReadPad2(t.minute);
    Text.ReadPad2(t.second);
  }

  /** Consecutive days have consecutive weekdays. */
  lemma WeekdayNext(d: ValidDate)
    requires d != MAX_DATE
    ensures Weekday(NextDay(d).value) == (Weekday(d) + 1) % 7
  {
    var o := Ordinal(d);
    assert Ordinal(NextDay(d).value) == o + 1;
    SevenStep(o);
  }

  lemma SevenStep(o: int)
    ensures (o + 1 + 6) % 7 == ((o + 6) % 7 + 1) % 7
  {
  }

  /** 2024-01-01 was a Monday. */
  lemma WeekdayExample()
    ensures Weekday(Date(2024, 1, 1)) == 0
  {
  }
}
