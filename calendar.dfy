/**
 * Calendar arithmetic behind the feed's "next time available" stamps.
 *
 * Dates are proleptic Gregorian, as in Python's `datetime`. A date is
 * numbered by its ordinal (0001-01-01 is day 1) and its weekday is derived
 * from the ordinal (Monday is 0, Sunday is 6). Years are unbounded in the
 * arithmetic; a result whose year falls outside 1..9999 is the overflow
 * that `datetime` raises.
 */
module Calendar {

  const MinYear := 1
  const MaxYear := 9999
  const MinutesPerDay := 1440

  datatype Date = Date(year: int, month: int, day: int)

  /** A wall-clock reading: a date and a time of day to the second. */
  datatype DateTime = DateTime(date: Date, hour: int, minute: int, second: int)

  /** What `get_next_time_available` can raise: a ValueError from the
      `datetime` constructor, or an OverflowError from date arithmetic. */
  datatype DateError = InvalidDate | Overflow

  datatype Result<T> = Ok(value: T) | Err(error: DateError)

  predicate IsLeap(y: int) {
    y % 4 == 0 && (y % 100 != 0 || y % 400 == 0)
  }

  function DaysInMonth(y: int, m: int): (n: int)
    requires 1 <= m <= 12
    ensures 28 <= n <= 31
  {
    if m == 2 then (if IsLeap(y) then 29 else 28)
    else if m == 4 || m == 6 || m == 9 || m == 11 then 30
    else 31
  }

  /** A date on the calendar, whatever its year. */
  predicate WellFormed(d: Date) {
    1 <= d.month <= 12 && 1 <= d.day <= DaysInMonth(d.year, d.month)
  }

  /** A date `datetime` can represent. */
  predicate InRange(d: Date) {
    WellFormed(d) && MinYear <= d.year <= MaxYear
  }

  predicate ValidDateTime(t: DateTime) {
    InRange(t.date) && 0 <= t.hour < 24 && 0 <= t.minute < 60 && 0 <= t.second < 60
  }

  function DaysBeforeYear(y: int): int {
    var p := y - 1;
    365 * p + p / 4 - p / 100 + p / 400
  }

  function DaysBeforeMonth(y: int, m: int): int
    requires 1 <= m <= 12
  {
    var table := [0, 31, 59, 90, 120, 151, 181, 212, 243, 273, 304, 334];
    table[m - 1] + (if m > 2 && IsLeap(y) then 1 else 0)
  }

  /** Day number of a date; 0001-01-01 is day 1. */
  function Ordinal(d: Date): int
    requires WellFormed(d)
  {
    DaysBeforeYear(d.year) + DaysBeforeMonth(d.year, d.month) + d.day
  }

  /** Monday is 0, Sunday is 6. */
  function Weekday(d: Date): int
    requires WellFormed(d)
  {
    (Ordinal(d) + 6) % 7
  }

  function NextDay(d: Date): Date
    requires WellFormed(d)
  {
    if d.day < DaysInMonth(d.year, d.month) then Date(d.year, d.month, d.day + 1)
    else if d.month < 12 then Date(d.year, d.month + 1, 1)
    else Date(d.year + 1, 1, 1)
  }

  function PrevDay(d: Date): Date
    requires WellFormed(d)
  {
    if d.day > 1 then Date(d.year, d.month, d.day - 1)
    else if d.month > 1 then Date(d.year, d.month - 1, DaysInMonth(d.year, d.month - 1))
    else Date(d.year - 1, 12, 31)
  }

  /** The date `n` days after (or, for negative `n`, before) `d`. */
  function AddDays(d: Date, n: int): Date
    requires WellFormed(d)
    decreases if n < 0 then -n else n
  {
    if n == 0 then d
    else if n > 0 then (NextDayOrdinal(d); AddDays(NextDay(d), n - 1))
    else (PrevDayOrdinal(d); AddDays(PrevDay(d), n + 1))
  }

  /** A count of minutes on one timeline for every date and time of day. */
  function MinuteStamp(t: DateTime): int
    requires WellFormed(t.date)
  {
    Ordinal(t.date) * MinutesPerDay + t.hour * 60 + t.minute
  }

  lemma FloorStep4(y: int)
    ensures y / 4 - (y - 1) / 4 == (if y % 4 == 0 then 1 else 0)
  {
    var q, r := (y - 1) / 4, (y - 1) % 4;
    assert y - 1 == 4 * q + r && 0 <= r < 4;
    if r == 3 {
      assert y == 4 * (q + 1) + 0;
    } else {
      assert y == 4 * q + (r + 1);
    }
  }

  lemma FloorStep100(y: int)
    ensures y / 100 - (y - 1) / 100 == (if y % 100 == 0 then 1 else 0)
  {
    var q, r := (y - 1) / 100, (y - 1) % 100;
    assert y - 1 == 100 * q + r && 0 <= r < 100;
    if r == 99 {
      assert y == 100 * (q + 1) + 0;
    } else {
      assert y == 100 * q + (r + 1);
    }
  }

  lemma FloorStep400(y: int)
    ensures y / 400 - (y - 1) / 400 == (if y % 400 == 0 then 1 else 0)
  {
    var q, r := (y - 1) / 400, (y - 1) % 400;
    assert y - 1 == 400 * q + r && 0 <= r < 400;
    if r == 399 {
      assert y == 400 * (q + 1) + 0;
    } else {
      assert y == 400 * q + (r + 1);
    }
  }

  /** A year has 366 days when it is a leap year and 365 otherwise. */
  lemma YearStep(y: int)
    ensures DaysBeforeYear(y + 1) == DaysBeforeYear(y) + (if IsLeap(y) then 366 else 365)
  {
    FloorStep4(y);
    FloorStep100(y);
    FloorStep400(y);
  }

  lemma MonthStep(y: int, m: int)
    requires 1 <= m < 12
    ensures DaysBeforeMonth(y, m + 1) == DaysBeforeMonth(y, m) + DaysInMonth(y, m)
  {
  }

  lemma NextDayOrdinal(d: Date)
    requires WellFormed(d)
    ensures WellFormed(NextDay(d))
    ensures Ordinal(NextDay(d)) == Ordinal(d) + 1
  {
    if d.day == DaysInMonth(d.year, d.month) {
      if d.month == 12 {
        YearStep(d.year);
      } else {
        MonthStep(d.year, d.month);
      }
    }
  }

  lemma PrevDayOrdinal(d: Date)
    requires WellFormed(d)
    ensures WellFormed(PrevDay(d))
    ensures Ordinal(PrevDay(d)) == Ordinal(d) - 1
  {
    if d.day == 1 {
      if d.month == 1 {
        YearStep(d.year - 1);
      } else {
        MonthStep(d.year, d.month - 1);
      }
    }
  }

  lemma {:induction false} AddDaysOrdinal(d: Date, n: int)
    requires WellFormed(d)
    ensures WellFormed(AddDays(d, n))
    ensures Ordinal(AddDays(d, n)) == Ordinal(d) + n
    decreases if n < 0 then -n else n
  {
    if n > 0 {
      NextDayOrdinal(d);
      AddDaysOrdinal(NextDay(d), n - 1);
    } else if n < 0 {
      PrevDayOrdinal(d);
      AddDaysOrdinal(PrevDay(d), n + 1);
    }
  }

  /** The first representable date is a Monday, so no Sunday steps back out of range. */
  lemma FirstDayIsMonday()
    ensures Weekday(Date(MinYear, 1, 1)) == 0
  {
  }

  function CheckRange(t: DateTime): (r: Result<DateTime>)
    requires WellFormed(t.date)
    ensures r.Ok? <==> InRange(t.date)
    ensures r.Ok? ==> r.value == t
    ensures r.Err? ==> r.error == Overflow
  {
    if MinYear <= t.date.year <= MaxYear then Ok(t) else Err(Overflow)
  }

  /** `d + timedelta(hours=d.hour) + timedelta(minutes=d.minute)`. */
  function Daily(now: DateTime): DateTime
    requires ValidDateTime(now)
  {
    var total := 2 * (now.hour * 60 + now.minute);
    var date := if total >= MinutesPerDay then NextDay(now.date) else now.date;
    var mod := total % MinutesPerDay;
    DateTime(date, mod / 60, mod % 60, now.second)
  }

  /** `d + timedelta(days=5 - d.weekday())`. */
  function Weekly(now: DateTime): DateTime
    requires ValidDateTime(now)
  {
    DateTime(AddDays(now.date, 5 - Weekday(now.date)), now.hour, now.minute, now.second)
  }

  /** `datetime(year, month + 1, 1)` with the year bumped when month > 11:
      for December that asks for month 13, which `datetime` refuses. */
  function Monthly(now: DateTime): Result<DateTime>
    requires ValidDateTime(now)
  {
    var month := now.date.month;
    var year := now.date.year + (if month > 11 then 1 else 0);
    var next := month + 1;
    if next > 12 then Err(InvalidDate)
    else Ok(DateTime(Date(year, next, 1), 0, 0, 0))
  }

  /** `get_next_time_available(key)` with the clock reading `now` as an input. */
  function NextTimeAvailable(key: string, now: DateTime): (r: Result<DateTime>)
    requires ValidDateTime(now)
    ensures r.Ok? ==> ValidDateTime(r.value)
    ensures key != "daily" && key != "weekly" && key != "monthly" ==> r == Ok(now)
  {
    if key == "daily" then
      NextDayOrdinal(now.date);
      CheckRange(Daily(now))
    else if key == "weekly" then
      AddDaysOrdinal(now.date, 5 - Weekday(now.date));
      CheckRange(Weekly(now))
    else if key == "monthly" then Monthly(now)
    else Ok(now)
  }

  /** Daily: the result lies exactly (hour, minute) of `now` later on the timeline. */
  lemma DailyAddsClockReading(now: DateTime)
    requires ValidDateTime(now)
    ensures WellFormed(Daily(now).date)
    ensures MinuteStamp(Daily(now)) == MinuteStamp(now) + now.hour * 60 + now.minute
    ensures Daily(now).second == now.second
    ensures NextTimeAvailable("daily", now).Ok? ==> NextTimeAvailable("daily", now).value == Daily(now)
    ensures NextTimeAvailable("daily", now).Err? <==> !InRange(Daily(now).date)
  {
    NextDayOrdinal(now.date);
    var total := 2 * (now.hour * 60 + now.minute);
    var mod := total % MinutesPerDay;
    assert mod / 60 * 60 + mod % 60 == mod;
    if total >= MinutesPerDay {
      assert mod == total - MinutesPerDay;
    } else {
      assert mod == total;
    }
  }

  /** Weekly: the result is always a Saturday at the same time of day, at most five
      days later, and one day EARLIER exactly when `now` is a Sunday. It never falls
      before year 1; it overflows only when that Saturday is past 9999-12-31. */
  lemma WeeklyLandsOnSaturday(now: DateTime)
    requires ValidDateTime(now)
    ensures WellFormed(Weekly(now).date)
    ensures Weekday(Weekly(now).date) == 5
    ensures Ordinal(Weekly(now).date) - Ordinal(now.date) == 5 - Weekday(now.date)
    ensures -1 <= Ordinal(Weekly(now).date) - Ordinal(now.date) <= 5
    ensures Ordinal(Weekly(now).date) < Ordinal(now.date) <==> Weekday(now.date) == 6
    ensures Weekly(now).date.year >= MinYear
    ensures Weekly(now).hour == now.hour && Weekly(now).minute == now.minute && Weekly(now).second == now.second
    ensures NextTimeAvailable("weekly", now).Ok? ==> NextTimeAvailable("weekly", now).value == Weekly(now)
    ensures NextTimeAvailable("weekly", now).Err? <==> Weekly(now).date.year > MaxYear
  {
    var n := 5 - Weekday(now.date);
    AddDaysOrdinal(now.date, n);
    var d := AddDays(now.date, n);
    assert Weekday(d) == 5 by {
      SaturdayOfTheWeek(Ordinal(now.date));
    }
    WeeklyNotBeforeFirstYear(now);
    WeeklyIsChecked(now);
  }

  lemma WeeklyIsChecked(now: DateTime)
    requires ValidDateTime(now)
    ensures WellFormed(Weekly(now).date)
    ensures NextTimeAvailable("weekly", now) == CheckRange(Weekly(now))
  {
    AddDaysOrdinal(now.date, 5 - Weekday(now.date));
  }

  /** Stepping 5 - weekday days from day number x reaches weekday 5. */
  lemma SaturdayOfTheWeek(x: int)
    ensures (x + (5 - (x + 6) % 7) + 6) % 7 == 5
  {
    var w := (x + 6) % 7;
    assert x + 6 == 7 * ((x + 6) / 7) + w;
    assert x + (5 - w) + 6 == 7 * ((x + 6) / 7) + 5;
  }

  lemma WeeklyNotBeforeFirstYear(now: DateTime)
    requires ValidDateTime(now)
    ensures AddDays(now.date, 5 - Weekday(now.date)).year >= MinYear
  {
    var n := 5 - Weekday(now.date);
    AddDaysOrdinal(now.date, n);
    var d := AddDays(now.date, n);
    if d.year < MinYear {
      OrdinalBelowFirstYear(d);
      FirstDayIsMonday();
      OrdinalSecondDay(now.date);
    }
  }

  lemma OrdinalBelowFirstYear(d: Date)
    requires WellFormed(d) && d.year < MinYear
    ensures Ordinal(d) <= 0
  {
    YearStep(d.year);
    DaysBeforeYearMonotone(d.year + 1, MinYear);
  }

  /** Every in-range date has ordinal at least 1, and only 0001-01-01 has ordinal 1. */
  lemma OrdinalSecondDay(d: Date)
    requires InRange(d)
    ensures Ordinal(d) >= 1
    ensures d != Date(MinYear, 1, 1) ==> Ordinal(d) >= 2
  {
    DaysBeforeYearMonotone(MinYear, d.year);
    if d.year > MinYear {
      YearStep(MinYear);
      DaysBeforeYearMonotone(MinYear + 1, d.year);
    }
  }

  lemma {:induction false} DaysBeforeYearMonotone(a: int, b: int)
    requires a <= b
    ensures DaysBeforeYear(a) <= DaysBeforeYear(b)
    decreases b - a
  {
    if a < b {
      YearStep(a);
      DaysBeforeYearMonotone(a + 1, b);
    }
  }

  /** Monthly: midnight on the first of the next month, or the ValueError for December. */
  lemma MonthlyFirstOfNextMonth(now: DateTime)
    requires ValidDateTime(now)
    ensures now.date.month == 12 <==> NextTimeAvailable("monthly", now) == Err(InvalidDate)
    ensures now.date.month < 12 ==>
      NextTimeAvailable("monthly", now) == Ok(DateTime(Date(now.date.year, now.date.month + 1, 1), 0, 0, 0))
  {
  }
}
