/** The validity date of an approved export document: setMonth(getMonth() + 6), section 21.4.1 of ECMA-262, in UTC. */
module ExportDates {

  /** A calendar date; month counts from 0 as in JavaScript. */
  datatype Date = Date(year: nat, month: nat, day: nat)

  predicate IsLeap(y: nat) {
    y % 4 == 0 && (y % 100 != 0 || y % 400 == 0)
  }

  function DaysInYear(y: nat): nat {
    if IsLeap(y) then 366 else 365
  }

  function DaysInMonth(y: nat, m: nat): nat
    requires m < 12
  {
    if m == 1 then (if IsLeap(y) then 29 else 28)
    else if m == 3 || m == 5 || m == 8 || m == 10 then 30
    else 31
  }

  predicate Valid(d: Date) {
    1970 <= d.year && d.month < 12 && 1 <= d.day <= DaysInMonth(d.year, d.month)
  }

  /** Day number of 1 January, by the closed formula of section 21.4.1. */
  function DayFromYear(y: nat): int {
    365 * (y - 1970) + (y - 1969) / 4 - (y - 1901) / 100 + (y - 1601) / 400
  }

  /** Days of the year before month m. */
  function DaysBefore(y: nat, m: nat): nat
    requires m <= 12
  {
    if m == 0 then 0 else DaysBefore(y, m - 1) + DaysInMonth(y, m - 1)
  }

  /** Days since 1 January 1970. */
  function DayNumber(d: Date): int
    requires d.month < 12
  {
    DayFromYear(d.year) + DaysBefore(d.year, d.month) + d.day - 1
  }

  lemma HundredthYear(y: nat)
    requires 1970 <= y
    ensures (y - 1900) / 100 - (y - 1901) / 100 == if y % 100 == 0 then 1 else 0
  {
  }

  lemma FourHundredthYear(y: nat)
    requires 1970 <= y
    ensures (y - 1600) / 400 - (y - 1601) / 400 == if y % 400 == 0 then 1 else 0
  {
  }

  lemma Centuries(y: nat)
    ensures y % 400 == 0 ==> y % 100 == 0
    ensures y % 100 == 0 ==> y % 4 == 0
  {
    if y % 400 == 0 {
      assert y == 100 * (4 * (y / 400));
    }
    if y % 100 == 0 {
      assert y == 4 * (25 * (y / 100));
    }
  }

  /** The closed formula counts exactly the leap years. */
  lemma YearLength(y: nat)
    requires 1970 <= y
    ensures DayFromYear(y + 1) == DayFromYear(y) + DaysInYear(y)
  {
    HundredthYear(y);
    FourHundredthYear(y);
    Centuries(y);
    assert y + 1 - 1969 == y - 1968 && y + 1 - 1901 == y - 1900 && y + 1 - 1601 == y - 1600;
  }

  lemma Table(y: nat)
    ensures var f := if IsLeap(y) then 1 else 0;
            && DaysBefore(y, 0) == 0 && DaysBefore(y, 1) == 31 && DaysBefore(y, 2) == 59 + f
            && DaysBefore(y, 3) == 90 + f && DaysBefore(y, 4) == 120 + f && DaysBefore(y, 5) == 151 + f
            && DaysBefore(y, 6) == 181 + f && DaysBefore(y, 7) == 212 + f && DaysBefore(y, 8) == 243 + f
            && DaysBefore(y, 9) == 273 + f && DaysBefore(y, 10) == 304 + f && DaysBefore(y, 11) == 334 + f
            && DaysBefore(y, 12) == 365 + f
  {
  }

  /** The first of the month six months on. */
  function SixMonthsOn(d: Date): (r: (nat, nat))
    requires d.month < 12
    ensures r.1 < 12
  {
    if d.month < 6 then (d.year, d.month + 6) else (d.year + 1, d.month - 6)
  }

  /** setMonth keeps the day of the month and lets it run over into the following month. */
  function AddSixMonths(d: Date): Date
    requires d.month < 12
  {
    var (y, m) := SixMonthsOn(d);
    if d.day <= DaysInMonth(y, m) then Date(y, m, d.day)
    else if m < 11 then Date(y, m + 1, d.day - DaysInMonth(y, m))
    else Date(y + 1, 0, d.day - DaysInMonth(y, m))
  }

  /** MakeDay of the shifted fields: the first of the target month plus the unchanged day. */
  function MakeDay(d: Date): int
    requires d.month < 12
  {
    var (y, m) := SixMonthsOn(d);
    DayFromYear(y) + DaysBefore(y, m) + d.day - 1
  }

  /** The normalised date is a real one and denotes the day MakeDay computes. */
  lemma OverflowIsMakeDay(d: Date)
    requires Valid(d)
    ensures Valid(AddSixMonths(d)) && DayNumber(AddSixMonths(d)) == MakeDay(d)
  {
    var (y, m) := SixMonthsOn(d);
    assert DaysInMonth(y, m) >= 28;
    if d.day > DaysInMonth(y, m) {
      assert DaysBefore(y, m + 1) == DaysBefore(y, m) + DaysInMonth(y, m);
      if m == 11 {
        Table(y);
        YearLength(y);
      }
    }
  }

  /** The same day of the month exactly when the target month has it; otherwise at most three days into the next. */
  lemma SameDayIff(d: Date)
    requires Valid(d)
    ensures AddSixMonths(d).day == d.day <==> d.day <= DaysInMonth(SixMonthsOn(d).0, SixMonthsOn(d).1)
    ensures d.day > DaysInMonth(SixMonthsOn(d).0, SixMonthsOn(d).1) ==> AddSixMonths(d).day <= 3
  {
  }

  lemma NotBothLeap(y: nat)
    ensures !(IsLeap(y) && IsLeap(y + 1))
  {
  }

  lemma FirstHalf(y: nat, m: nat)
    requires m < 6
    ensures 181 <= DaysBefore(y, m + 6) - DaysBefore(y, m) <= 184
  {
    Table(y);
  }

  lemma SecondHalf(y: nat, m: nat)
    requires 6 <= m < 12
    ensures 181 <= DaysInYear(y) - DaysBefore(y, m) + DaysBefore(y + 1, m - 6) <= 184
  {
    Table(y);
    Table(y + 1);
    NotBothLeap(y);
  }

  /** Days from the start of a month to the start of the sixth month after it. */
  lemma HalfYear(y: nat, m: nat)
    requires 1970 <= y && m < 12
    ensures var (y', m') := SixMonthsOn(Date(y, m, 1));
            181 <= DayFromYear(y') + DaysBefore(y', m') - DayFromYear(y) - DaysBefore(y, m) <= 184
  {
    if m < 6 {
      FirstHalf(y, m);
    } else {
      YearLength(y);
      SecondHalf(y, m);
    }
  }

  /** For every date of the calendar the document stays valid between 181 and 184 days. */
  lemma ValidityWindow(d: Date)
    requires Valid(d)
    ensures 181 <= DayNumber(AddSixMonths(d)) - DayNumber(d) <= 184
  {
    OverflowIsMakeDay(d);
    HalfYear(d.year, d.month);
  }

  // ----- From the clock to the calendar -----

  const MS_PER_DAY: nat := 86_400_000

  /** The last year not after the day, searched upwards from y. */
  function YearOf(day: int, y: nat): (r: nat)
    requires 1970 <= y && DayFromYear(y) <= day
    ensures y <= r && DayFromYear(r) <= day < DayFromYear(r + 1)
    decreases day - DayFromYear(y)
  {
    YearLength(y);
    if DayFromYear(y + 1) <= day then YearOf(day, y + 1) else y
  }

  /** The month of a day of the year, searched upwards from m. */
  function MonthOf(y: nat, yday: nat, m: nat): (r: nat)
    requires m < 12 && DaysBefore(y, m) <= yday < DaysInYear(y)
    ensures r < 12 && DaysBefore(y, r) <= yday < DaysBefore(y, r) + DaysInMonth(y, r)
    decreases 12 - m
  {
    Table(y);
    if m < 11 && DaysBefore(y, m + 1) <= yday then MonthOf(y, yday, m + 1) else m
  }

  /** The UTC date of an instant. */
  function DateOf(now: nat): (d: Date)
    ensures Valid(d) && DayNumber(d) == now / MS_PER_DAY
  {
    var day := now / MS_PER_DAY;
    var y := YearOf(day, 1970);
    YearLength(y);
    var yday := day - DayFromYear(y);
    var m := MonthOf(y, yday, 0);
    Date(y, m, yday - DaysBefore(y, m) + 1)
  }

  /** Valid dates and day numbers correspond one to one. */
  lemma DayNumberInjective(d: Date, e: Date)
    requires Valid(d) && Valid(e) && DayNumber(d) == DayNumber(e)
    ensures d == e
  {
    if d.year < e.year {
      YearsOrdered(d, e);
    } else if e.year < d.year {
      YearsOrdered(e, d);
    } else if d.month < e.month {
      MonthsOrdered(d.year, d.month, e.month);
    } else if e.month < d.month {
      MonthsOrdered(d.year, e.month, d.month);
    }
  }

  lemma {:induction false} YearStarts(x: nat, y: nat)
    requires 1970 <= x < y
    ensures DayFromYear(x) + DaysInYear(x) <= DayFromYear(y)
    decreases y
  {
    YearLength(y - 1);
    if x < y - 1 {
      YearStarts(x, y - 1);
    }
  }

  lemma {:induction false} MonthsOrdered(y: nat, m: nat, n: nat)
    requires m < n <= 12
    ensures DaysBefore(y, m) + DaysInMonth(y, m) <= DaysBefore(y, n)
    decreases n
  {
    if m < n - 1 {
      MonthsOrdered(y, m, n - 1);
    }
  }

  lemma YearsOrdered(d: Date, e: Date)
    requires Valid(d) && Valid(e) && d.year < e.year
    ensures DayNumber(d) < DayNumber(e)
  {
    YearStarts(d.year, e.year);
    MonthsOrdered(d.year, d.month, 12);
    Table(d.year);
  }

  // ----- The calendar, anchored -----

  /** The last day of a month, by the usual table. */
  function LastDay(y: nat, m: nat): nat
    requires m < 12
  {
    if m in {0, 2, 4, 6, 7, 9, 11} then 31
    else if m in {3, 5, 8, 10} then 30
    else if (y % 4 == 0 && y % 100 != 0) || y % 400 == 0 then 29
    else 28
  }

  /** e is the day after d. */
  predicate IsNextDay(d: Date, e: Date)
    requires d.month < 12
  {
    if d.day < LastDay(d.year, d.month) then e.year == d.year && e.month == d.month && e.day == d.day + 1
    else if d.month < 11 then e.year == d.year && e.month == d.month + 1 && e.day == 1
    else e.year == d.year + 1 && e.month == 0 && e.day == 1
  }

  /** The first 86 400 000 milliseconds are 1 January 1970. */
  lemma EpochDay(now: nat)
    requires now < 86_400_000
    ensures DateOf(now) == Date(1970, 0, 1)
  {
    assert DayFromYear(1970) == 0 && DaysBefore(1970, 0) == 0;
    DayNumberInjective(DateOf(now), Date(1970, 0, 1));
  }

  /** The next date, by the month lengths of the model. */
  function NextDate(d: Date): Date
    requires d.month < 12
  {
    if d.day < DaysInMonth(d.year, d.month) then Date(d.year, d.month, d.day + 1)
    else if d.month < 11 then Date(d.year, d.month + 1, 1)
    else Date(d.year + 1, 0, 1)
  }

  lemma LastDayIs(y: nat, m: nat)
    requires m < 12
    ensures LastDay(y, m) == DaysInMonth(y, m)
  {
  }

  lemma NextIsNext(d: Date, e: Date)
    requires Valid(d) && Valid(e) && DayNumber(e) == DayNumber(d) + 1
    ensures IsNextDay(d, e)
  {
    NextDayNumber(d);
    DayNumberInjective(e, NextDate(d));
    LastDayIs(d.year, d.month);
  }

  lemma NextDayIndex(now: nat)
    ensures (now + 86_400_000) / 86_400_000 == now / 86_400_000 + 1
  {
  }

  /** A day later the date is the next day of the calendar. */
  lemma DayLater(now: nat)
    ensures IsNextDay(DateOf(now), DateOf(now + 86_400_000))
  {
    var d, e := DateOf(now), DateOf(now + 86_400_000);
    NextDayIndex(now);
    assert DayNumber(e) == DayNumber(d) + 1;
    NextIsNext(d, e);
  }

  lemma NextDayNumber(d: Date)
    requires Valid(d)
    ensures Valid(NextDate(d)) && DayNumber(NextDate(d)) == DayNumber(d) + 1
  {
    if d.day == DaysInMonth(d.year, d.month) {
      if d.month < 11 {
        assert DaysBefore(d.year, d.month + 1) == DaysBefore(d.year, d.month) + DaysInMonth(d.year, d.month);
      } else {
        Table(d.year);
        YearLength(d.year);
      }
    }
  }

  /** Within a day the date stays. */
  lemma SameDay(now: nat, later: nat)
    requires now / 86_400_000 == later / 86_400_000
    ensures DateOf(now) == DateOf(later)
  {
    DayNumberInjective(DateOf(now), DateOf(later));
  }

  /** e is d moved on by six months; a day the month does not have runs over into the next. */
  predicate SixMonthsAfter(d: Date, e: Date)
    requires d.month < 12
  {
    var y, m := d.year + (d.month + 6) / 12, (d.month + 6) % 12;
    if d.day <= LastDay(y, m) then e.year == y && e.month == m && e.day == d.day
    else if m < 11 then e.year == y && e.month == m + 1 && e.day == d.day - LastDay(y, m)
    else e.year == y + 1 && e.month == 0 && e.day == d.day - LastDay(y, m)
  }

  lemma SixMonthsLater(d: Date)
    requires d.month < 12
    ensures SixMonthsAfter(d, AddSixMonths(d))
  {
    var (y, m) := SixMonthsOn(d);
    assert y == d.year + (d.month + 6) / 12 && m == (d.month + 6) % 12;
    LastDayIs(y, m);
  }
}
