/** Moments in time as the application sees them through JavaScript `Date`
    objects: a day of the local calendar and the time elapsed since local
    midnight. The day is a plain day number; module Calendar relates it to
    year, month and day of month. */
module Timestamps {

  const MsPerDay: nat := 86_400_000

  /** A local date and time: `day` counts days from 1970-01-01 in the local
      calendar, `msOfDay` the milliseconds since local midnight. */
  datatype Timestamp = Timestamp(day: int, msOfDay: nat) {
    predicate Valid() {
      msOfDay < MsPerDay
    }
  }

  /** `a < b` on two `Date` objects: `a` is strictly earlier. */
  predicate Before(a: Timestamp, b: Timestamp) {
    a.day < b.day || (a.day == b.day && a.msOfDay < b.msOfDay)
  }

  /** `a.toDateString() === b.toDateString()`: both fall on the same local
      calendar date. */
  predicate SameDate(a: Timestamp, b: Timestamp) {
    a.day == b.day
  }

  /** `d.setDate(d.getDate() + n)`: the same local time of day, `n` calendar
      days later (earlier when `n` is negative). */
  function AddDays(t: Timestamp, n: int): Timestamp {
    Timestamp(t.day + n, t.msOfDay)
  }

  /** The local midnight that starts the day of `t`: what a date-only string
      such as `t.toISOString().split("T")[0]` denotes once read back. */
  function StartOfDay(t: Timestamp): Timestamp {
    Timestamp(t.day, 0)
  }

  /** Milliseconds since local midnight of 1970-01-01: the reference timeline
      against which the calendar comparisons are checked. */
  function Millis(t: Timestamp): int {
    t.day * MsPerDay + t.msOfDay
  }

  lemma DayGapMillis(a: int, b: int)
    requires a < b
    ensures a * MsPerDay + MsPerDay <= b * MsPerDay
  {
    assert (b - a) * MsPerDay >= MsPerDay;
  }

  /** Comparing day first and time of day second is comparing instants. */
  lemma BeforeIsEarlier(a: Timestamp, b: Timestamp)
    requires a.Valid() && b.Valid()
    ensures Before(a, b) <==> Millis(a) < Millis(b)
  {
    if a.day < b.day {
      DayGapMillis(a.day, b.day);
    } else if b.day < a.day {
      DayGapMillis(b.day, a.day);
    }
  }

  /** Adding calendar days moves the instant by whole days (the local
      calendar is taken to have no daylight-saving jumps). */
  lemma AddDaysMillis(t: Timestamp, n: int)
    ensures AddDays(t, n).Valid() == t.Valid()
    ensures Millis(AddDays(t, n)) == Millis(t) + n * MsPerDay
  {
    assert (t.day + n) * MsPerDay == t.day * MsPerDay + n * MsPerDay;
  }

  /** `Before` is a strict total order on instants. */
  lemma BeforeStrictTotal(a: Timestamp, b: Timestamp, c: Timestamp)
    ensures !Before(a, a)
    ensures Before(a, b) && Before(b, c) ==> Before(a, c)
    ensures a != b ==> Before(a, b) || Before(b, a)
  {
  }
}

/** The proleptic Gregorian calendar, tying the day numbers of module
    Timestamps to year, month and day of month, so that the month and year
    rollover performed by `Date.prototype.setDate` can be stated. */
module Calendar {
  import opened Timestamps

  datatype Date = Date(year: int, month: int, day: int)

  predicate IsLeapYear(y: int) {
    y % 4 == 0 && (y % 100 != 0 || y % 400 == 0)
  }

  function DaysInMonth(y: int, m: int): int
    requires 1 <= m <= 12
  {
    if m == 2 then (if IsLeapYear(y) then 29 else 28)
    else if m == 4 || m == 6 || m == 9 || m == 11 then 30
    else 31
  }

  predicate ValidDate(d: Date) {
    1 <= d.month <= 12 && 1 <= d.day <= DaysInMonth(d.year, d.month)
  }

  /** The calendar date after `d`: the next day of the month, else the first
      of the next month, else the first of January of the next year. */
  function NextDate(d: Date): (r: Date)
    requires ValidDate(d)
    ensures ValidDate(r)
  {
    if d.day < DaysInMonth(d.year, d.month) then Date(d.year, d.month, d.day + 1)
    else if d.month < 12 then Date(d.year, d.month + 1, 1)
    else Date(d.year + 1, 1, 1)
  }

  /** The date `n` days after `d`, reached by stepping one date at a time. */
  function AddCivilDays(d: Date, n: nat): (r: Date)
    requires ValidDate(d)
    ensures ValidDate(r)
    decreases n
  {
    if n == 0 then d else AddCivilDays(NextDate(d), n - 1)
  }

  function DaysBeforeMonth(y: int, m: int): int
    requires 1 <= m <= 12
  {
    var common := [0, 31, 59, 90, 120, 151, 181, 212, 243, 273, 304, 334][m - 1];
    if m > 2 && IsLeapYear(y) then common + 1 else common
  }

  function LeapYearsBefore(y: int): int {
    (y - 1) / 4 - (y - 1) / 100 + (y - 1) / 400
  }

  function DaysBeforeYear(y: int): int {
    365 * (y - 1970) + LeapYearsBefore(y) - LeapYearsBefore(1970)
  }

  /** The day number of a date: days since 1970-01-01. */
  function DayNumber(d: Date): int
    requires ValidDate(d)
  {
    DaysBeforeYear(d.year) + DaysBeforeMonth(d.year, d.month) + d.day - 1
  }

  function YearLength(y: int): int {
    if IsLeapYear(y) then 366 else 365
  }

  lemma FloorStep(y: int)
    ensures y / 4 - (y - 1) / 4 == (if y % 4 == 0 then 1 else 0)
    ensures y / 100 - (y - 1) / 100 == (if y % 100 == 0 then 1 else 0)
    ensures y / 400 - (y - 1) / 400 == (if y % 400 == 0 then 1 else 0)
  {
  }

  /** Consecutive years start `YearLength` days apart. */
  lemma YearStep(y: int)
    ensures DaysBeforeYear(y + 1) == DaysBeforeYear(y) + YearLength(y)
  {
    FloorStep(y);
  }

  lemma {:induction false} YearsIncrease(y1: int, y2: int)
    requires y1 < y2
    ensures DaysBeforeYear(y1) + YearLength(y1) <= DaysBeforeYear(y2)
    decreases y2 - y1
  {
    YearStep(y1);
    if y1 + 1 < y2 {
      YearsIncrease(y1 + 1, y2);
    }
  }

  /** The day of the year of a valid date lies within its year. */
  lemma DayOfYearBounds(d: Date)
    requires ValidDate(d)
    ensures 0 <= DayNumber(d) - DaysBeforeYear(d.year) < YearLength(d.year)
  {
  }

  /** Successive dates have successive day numbers, across month and year
      ends and leap days. */
  lemma NextDateIsNextDay(d: Date)
    requires ValidDate(d)
    ensures DayNumber(NextDate(d)) == DayNumber(d) + 1
  {
    if d.day == DaysInMonth(d.year, d.month) && d.month == 12 {
      YearStep(d.year);
    }
  }

  /** Stepping `n` dates forward adds `n` to the day number. */
  lemma {:induction false} AddCivilDaysIsAddDays(d: Date, n: nat)
    requires ValidDate(d)
    ensures DayNumber(AddCivilDays(d, n)) == DayNumber(d) + n
    decreases n
  {
    if n > 0 {
      NextDateIsNextDay(d);
      AddCivilDaysIsAddDays(NextDate(d), n - 1);
    }
  }

  /** Day numbers name dates unambiguously, so comparing day numbers is
      comparing calendar dates. */
  lemma DayNumberInjective(d1: Date, d2: Date)
    requires ValidDate(d1) && ValidDate(d2)
    requires DayNumber(d1) == DayNumber(d2)
    ensures d1 == d2
  {
    DayOfYearBounds(d1);
    DayOfYearBounds(d2);
    if d1.year < d2.year {
      YearsIncrease(d1.year, d2.year);
    } else if d2.year < d1.year {
      YearsIncrease(d2.year, d1.year);
    }
  }

  /** The instant at local time `msOfDay` on date `d`. */
  function At(d: Date, msOfDay: nat): Timestamp
    requires ValidDate(d)
  {
    Timestamp(DayNumber(d), msOfDay)
  }

  /** `setDate(getDate() + n)` lands on the calendar date `n` days later, with
      month and year rolling over, at the same time of day. */
  lemma AddDaysRollsOver(d: Date, msOfDay: nat, n: nat)
    requires ValidDate(d)
    ensures AddDays(At(d, msOfDay), n) == At(AddCivilDays(d, n), msOfDay)
  {
    AddCivilDaysIsAddDays(d, n);
  }

  /** Two instants given by dates fall on the same date exactly when the
      dates are equal. */
  lemma SameDateIsSameCivilDate(d1: Date, d2: Date, ms1: nat, ms2: nat)
    requires ValidDate(d1) && ValidDate(d2)
    ensures SameDate(At(d1, ms1), At(d2, ms2)) <==> d1 == d2
  {
    if SameDate(At(d1, ms1), At(d2, ms2)) {
      DayNumberInjective(d1, d2);
    }
  }
}
