/**
 * Proleptic Gregorian calendar arithmetic standing in for the JavaScript
 * `Date` object that calendar.ts and ReminderBot.ts use: day numbers counted
 * from 1970-01-01, the days of a month, weekdays (Sunday = 0, as
 * `Date.getDay`), the normalisation `new Date(y, m, d)` applies to an
 * out-of-range month or day, and wall-clock instants in whole seconds.
 * Months are zero-based (0 = January), as `Date.getMonth` returns them.
 */
module CivilDates {

  /** A calendar date; `month` is zero-based. */
  datatype Date = Date(year: int, month: int, day: int)

  /** A local wall-clock instant (no time zone). */
  datatype DateTime = DateTime(date: Date, hour: int, minute: int, second: int)

  const SecondsPerDay := 86400

  /** 1970-01-01 is day 719162 counted from 0001-01-01. */
  const EpochOffset := 719162

  predicate IsLeapYear(y: int) {
    y % 4 == 0 && (y % 100 != 0 || y % 400 == 0)
  }

  function DaysInMonth(y: int, m: int): (n: int)
    requires 0 <= m < 12
    ensures 28 <= n <= 31
    ensures m == 1 ==> (n == 29 <==> IsLeapYear(y))
  {
    if m == 1 then (if IsLeapYear(y) then 29 else 28)
    else if m == 3 || m == 5 || m == 8 || m == 10 then 30
    else 31
  }

  predicate ValidDate(d: Date) {
    0 <= d.month < 12 && 1 <= d.day <= DaysInMonth(d.year, d.month)
  }

  predicate ValidDateTime(t: DateTime) {
    ValidDate(t.date) && 0 <= t.hour < 24 && 0 <= t.minute < 60 && 0 <= t.second < 60
  }

  /** Days of year `y` before the first of month `m`. */
  function DaysBeforeMonth(y: int, m: int): int
    requires 0 <= m < 12
  {
    [0, 31, 59, 90, 120, 151, 181, 212, 243, 273, 304, 334][m]
      + (if m >= 2 && IsLeapYear(y) then 1 else 0)
  }

  /** Days from 0001-01-01 to the first of January of `y` (negative before it). */
  function DaysBeforeYear(y: int): int {
    var p := y - 1;
    365 * p + p / 4 - p / 100 + p / 400
  }

  /** Day number of the first day of month `m` of year `y`, 1970-01-01 being 0. */
  function FirstDayNumber(y: int, m: int): int
    requires 0 <= m < 12
  {
    DaysBeforeYear(y) - EpochOffset + DaysBeforeMonth(y, m)
  }

  /** Day number of a date; a day outside the month counts on from its first. */
  function DayNumber(d: Date): int
    requires 0 <= d.month < 12
  {
    FirstDayNumber(d.year, d.month) + d.day - 1
  }

  /** Day of the week of a day number, Sunday = 0 (1970-01-01 was a Thursday). */
  function Weekday(n: int): (w: int)
    ensures 0 <= w < 7
  {
    (n + 4) % 7
  }

  function EpochSeconds(t: DateTime): int
    requires 0 <= t.date.month < 12
  {
    DayNumber(t.date) * SecondsPerDay + t.hour * 3600 + t.minute * 60 + t.second
  }

  /** Sakamoto's weekday formula (month one-based, Sunday = 0): an independent reference. */
  function SakamotoWeekday(y: int, m: int, d: int): int
    requires 1 <= m <= 12
  {
    var t := [0, 3, 2, 5, 0, 3, 5, 1, 4, 6, 2, 4][m - 1];
    var yy := if m < 3 then y - 1 else y;
    (yy + yy / 4 - yy / 100 + yy / 400 + t + d) % 7
  }

  // ---------------------------------------------------------------------
  // Lemmas about the day count

  lemma FloorStep(p: int)
    ensures (p + 1) / 4 - p / 4 == if (p + 1) % 4 == 0 then 1 else 0
    ensures (p + 1) / 100 - p / 100 == if (p + 1) % 100 == 0 then 1 else 0
    ensures (p + 1) / 400 - p / 400 == if (p + 1) % 400 == 0 then 1 else 0
  {
  }

  /** A year has 366 days exactly when it is a leap year. */
  lemma YearLength(y: int)
    ensures DaysBeforeYear(y + 1) - DaysBeforeYear(y) == if IsLeapYear(y) then 366 else 365
  {
    var p := y - 1;
    FloorStep(p);
    assert DaysBeforeYear(y + 1) - DaysBeforeYear(y)
      == 365 + ((p + 1) / 4 - p / 4) - ((p + 1) / 100 - p / 100) + ((p + 1) / 400 - p / 400);
    if y % 400 == 0 {
      DivisorsOf400(y);
    } else if y % 100 == 0 {
      DivisorsOf400(y);
    }
  }

  lemma DivisorsOf400(y: int)
    ensures y % 400 == 0 ==> y % 100 == 0
    ensures y % 100 == 0 ==> y % 4 == 0
  {
    if y % 400 == 0 {
      var k := y / 400;
      assert y == 400 * k;
      assert y / 100 == 4 * k;
    }
    if y % 100 == 0 {
      var k := y / 100;
      assert y == 100 * k;
      assert y / 4 == 25 * k;
    }
  }

  /** The first of the next month comes `DaysInMonth` days after the first of this one. */
  lemma MonthStep(y: int, m: int)
    requires 0 <= m < 12
    ensures m < 11 ==> FirstDayNumber(y, m + 1) == FirstDayNumber(y, m) + DaysInMonth(y, m)
    ensures m == 11 ==> FirstDayNumber(y + 1, 0) == FirstDayNumber(y, m) + DaysInMonth(y, m)
  {
    if m == 11 {
      YearLength(y);
    }
  }

  lemma {:induction false} YearStartMonotone(y1: int, y2: int)
    requires y1 <= y2
    ensures DaysBeforeYear(y1) + 365 * (y2 - y1) <= DaysBeforeYear(y2)
    decreases y2 - y1
  {
    if y1 < y2 {
      YearStartMonotone(y1, y2 - 1);
      YearLength(y2 - 1);
    }
  }

  lemma YearsOrdered(y1: int, y2: int)
    requires y1 < y2
    ensures FirstDayNumber(y1 + 1, 0) <= FirstDayNumber(y2, 0)
  {
    YearStartMonotone(y1 + 1, y2);
  }

  /** A valid date's day number lies inside its month and inside its year. */
  lemma DayNumberBounds(d: Date)
    requires ValidDate(d)
    ensures FirstDayNumber(d.year, d.month) <= DayNumber(d) < FirstDayNumber(d.year, d.month) + DaysInMonth(d.year, d.month)
    ensures FirstDayNumber(d.year, 0) <= DayNumber(d) < FirstDayNumber(d.year + 1, 0)
  {
    YearLength(d.year);
  }

  lemma MonthsOrdered(y: int, m1: int, m2: int)
    requires 0 <= m1 < m2 < 12
    ensures FirstDayNumber(y, m1) + DaysInMonth(y, m1) <= FirstDayNumber(y, m2)
  {
  }

  /** Distinct valid dates have distinct day numbers. */
  lemma DayNumberInjective(a: Date, b: Date)
    requires ValidDate(a) && ValidDate(b)
    requires DayNumber(a) == DayNumber(b)
    ensures a == b
  {
    assert a.year == b.year by {
      DayNumberBounds(a);
      DayNumberBounds(b);
      if a.year < b.year {
        YearsOrdered(a.year, b.year);
        assert false;
      } else if b.year < a.year {
        YearsOrdered(b.year, a.year);
        assert false;
      }
    }
    assert a.month == b.month by {
      DayNumberBounds(a);
      DayNumberBounds(b);
      if a.month < b.month {
        MonthsOrdered(a.year, a.month, b.month);
        assert false;
      } else if b.month < a.month {
        MonthsOrdered(a.year, b.month, a.month);
        assert false;
      }
    }
  }

  /** Distinct valid wall-clock instants have distinct epoch seconds. */
  lemma EpochSecondsInjective(a: DateTime, b: DateTime)
    requires ValidDateTime(a) && ValidDateTime(b)
    requires EpochSeconds(a) == EpochSeconds(b)
    ensures a == b
  {
    var sa := a.hour * 3600 + a.minute * 60 + a.second;
    var sb := b.hour * 3600 + b.minute * 60 + b.second;
    assert 0 <= sa < SecondsPerDay && 0 <= sb < SecondsPerDay;
    assert DayNumber(a.date) == DayNumber(b.date);
    DayNumberInjective(a.date, b.date);
  }

  lemma ModShift(a: int, k: int)
    ensures (a + 7 * k) % 7 == a % 7
  {
  }

  /** The weekday derived from the day number agrees with Sakamoto's formula. */
  lemma WeekdayAgreesWithSakamoto(d: Date)
    requires 0 <= d.month < 12
    ensures Weekday(DayNumber(d)) == SakamotoWeekday(d.year, d.month + 1, d.day)
  {
    var y, m := d.year, d.month;
    YearLength(y);
    var before := (y - 1) / 4 - (y - 1) / 100 + (y - 1) / 400;
    var through := y / 4 - y / 100 + y / 400;
    assert through - before == if IsLeapYear(y) then 1 else 0;
    var t := [0, 3, 2, 5, 0, 3, 5, 1, 4, 6, 2, 4][m];
    var c := [0, 4, 8, 12, 17, 21, 25, 30, 34, 38, 43, 47][m];
    var a := DayNumber(d) + 4;
    assert a == 365 * (y - 1) + before - EpochOffset + DaysBeforeMonth(y, m) + d.day + 3;
    var b;
    if m < 2 {
      b := (y - 1) + before + t + d.day;
    } else {
      b := y + through + t + d.day;
    }
    assert b == SakamotoWeekday(y, m + 1, d.day) + 7 * (b / 7);
    assert a == b + 7 * (52 * (y - 1) + c - 102737);
    ModShift(b, 52 * (y - 1) + c - 102737);
  }

  // ---------------------------------------------------------------------
  // JavaScript `Date` normalisation

  /**
   * The normalisation of date fields that `setDate(d)` on a date of month
   * `m` of year `y` applies, and `new Date(y, m, d)` after reading its year:
   * an out-of-range month carries into the year, then an out-of-range day
   * borrows from or carries into neighbouring months.
   */
  method MakeDate(y: int, m: int, d: int) returns (r: Date)
    ensures ValidDate(r)
    ensures DayNumber(r) == FirstDayNumber(y + m / 12, m % 12) + d - 1
    ensures 0 <= m < 12 && 1 <= d <= DaysInMonth(y, m) ==> r == Date(y, m, d)
  {
    var year, month, day := y + m / 12, m % 12, d;
    ghost var target := FirstDayNumber(year, month) + day - 1;
    while day < 1
      invariant 0 <= month < 12
      invariant FirstDayNumber(year, month) + day - 1 == target
      decreases -day
    {
      if month == 0 {
        year, month := year - 1, 11;
      } else {
        month := month - 1;
      }
      MonthStep(year, month);
      day := day + DaysInMonth(year, month);
    }
    while day > DaysInMonth(year, month)
      invariant 0 <= month < 12 && 1 <= day
      invariant FirstDayNumber(year, month) + day - 1 == target
      decreases day
    {
      MonthStep(year, month);
      day := day - DaysInMonth(year, month);
      if month == 11 {
        year, month := year + 1, 0;
      } else {
        month := month + 1;
      }
    }
    r := Date(year, month, day);
    assert 0 <= m < 12 && 1 <= d <= DaysInMonth(y, m) ==> r == Date(y, m, d) by {
      if 0 <= m < 12 && 1 <= d <= DaysInMonth(y, m) {
        assert m / 12 == 0 && m % 12 == m;
        DayNumberInjective(r, Date(y, m, d));
      }
    }
  }

  /** The year `new Date(y, m, d)` reads from its first argument: 0 to 99 stand for 1900 to 1999. */
  function FullYear(y: int): int {
    if 0 <= y <= 99 then 1900 + y else y
  }

  /**
   * `new Date(y, m, d)`: a year from 0 to 99 is read as 1900 to 1999 before
   * the month carries into it; then the fields are normalised.
   */
  method NewDate(y: int, m: int, d: int) returns (r: Date)
    ensures ValidDate(r)
    ensures DayNumber(r) == FirstDayNumber(FullYear(y) + m / 12, m % 12) + d - 1
    ensures 0 <= m < 12 && 1 <= d <= DaysInMonth(FullYear(y), m) ==> r == Date(FullYear(y), m, d)
  {
    var year := if 0 <= y <= 99 then 1900 + y else y;
    r := MakeDate(year, m, d);
  }

  /** `new Date(0, 1, 29)` is 1900-03-01: year 0 is read as 1900, which has no 29 February. */
  method YearZeroIsNineteenHundred() returns (r: Date)
    ensures r == Date(1900, 2, 1)
  {
    r := NewDate(0, 1, 29);
    assert DayNumber(r) == FirstDayNumber(1900, 1) + 28 by {
      assert FullYear(0) == 1900 && 1 / 12 == 0 && 1 % 12 == 1;
    }
    assert DayNumber(Date(1900, 2, 1)) == FirstDayNumber(1900, 1) + 28 by {
      MonthStep(1900, 1);
      assert !IsLeapYear(1900);
    }
    DayNumberInjective(r, Date(1900, 2, 1));
  }

  /**
   * `new Date(t * 1000)` read back in wall-clock fields: the valid instant
   * whose epoch seconds are `t`.
   */
  method FromEpochSeconds(t: int) returns (r: DateTime)
    ensures ValidDateTime(r)
    ensures EpochSeconds(r) == t
  {
    var days, secs := t / SecondsPerDay, t % SecondsPerDay;
    var date := MakeDate(1970, 0, days + 1);
    assert DayNumber(date) == days by {
      assert FirstDayNumber(1970, 0) == 0;
    }
    var rest := secs % 3600;
    r := DateTime(date, secs / 3600, rest / 60, rest % 60);
    assert r.hour * 3600 + r.minute * 60 + r.second == secs;
  }
}
