/** The proleptic Gregorian calendar: days counted from 0001-01-01, and their civil dates. */
module Calendar {
  import opened Wrappers

  datatype Date = Date(year: int, month: nat, day: nat)

  predicate Leap(year: int) {
    year % 4 == 0 && (year % 100 != 0 || year % 400 == 0)
  }

  function DaysInYear(year: int): nat {
    if Leap(year) then 366 else 365
  }

  /** Days of the year before the month; month 13 stands for the end of the year. */
  function DaysBeforeMonth(month: nat, leap: bool): nat
    requires 1 <= month <= 13
  {
    var common :=
      if month == 1 then 0 else if month == 2 then 31 else if month == 3 then 59 else if month == 4 then 90
      else if month == 5 then 120 else if month == 6 then 151 else if month == 7 then 181 else if month == 8 then 212
      else if month == 9 then 243 else if month == 10 then 273 else if month == 11 then 304
      else if month == 12 then 334 else 365;
    if leap && month > 2 then common + 1 else common
  }

  function DaysInMonth(year: int, month: nat): nat
    requires 1 <= month <= 12
  {
    DaysBeforeMonth(month + 1, Leap(year)) - DaysBeforeMonth(month, Leap(year))
  }

  predicate Valid(d: Date) {
    1 <= d.month <= 12 && 1 <= d.day <= DaysInMonth(d.year, d.month)
  }

  function DaysBeforeYear(year: int): int {
    var p := year - 1;
    365 * p + p / 4 - p / 100 + p / 400
  }

  /** Days from 0001-01-01 to the date. */
  function DayNumber(d: Date): int
    requires Valid(d)
  {
    DaysBeforeYear(d.year) + DaysBeforeMonth(d.month, Leap(d.year)) + d.day - 1
  }

  /** The year a day falls in and its index there: whole 400-, 100-, 4- and 1-year cycles are cut off in turn. */
  function YearAndDay(n: int): (int, int) {
    var era, inEra := n / 146097, n % 146097;
    var century := Min(inEra / 36524, 3);
    var inCentury := inEra - 36524 * century;
    var quad, inQuad := inCentury / 1461, inCentury % 1461;
    var y := Min(inQuad / 365, 3);
    (1 + 400 * era + 100 * century + 4 * quad + y, inQuad - 365 * y)
  }

  function MonthOf(yday: nat, leap: bool): nat {
    if yday < 31 then 1
    else if yday < DaysBeforeMonth(3, leap) then 2
    else if yday < DaysBeforeMonth(4, leap) then 3
    else if yday < DaysBeforeMonth(5, leap) then 4
    else if yday < DaysBeforeMonth(6, leap) then 5
    else if yday < DaysBeforeMonth(7, leap) then 6
    else if yday < DaysBeforeMonth(8, leap) then 7
    else if yday < DaysBeforeMonth(9, leap) then 8
    else if yday < DaysBeforeMonth(10, leap) then 9
    else if yday < DaysBeforeMonth(11, leap) then 10
    else if yday < DaysBeforeMonth(12, leap) then 11
    else 12
  }

  function Civil(n: int): (d: Date)
    ensures Valid(d) && DayNumber(d) == n
  {
    var (year, yday) := YearAndDay(n);
    YearAndDayIsRight(n);
    var month := MonthOf(yday, Leap(year));
    Date(year, month, yday - DaysBeforeMonth(month, Leap(year)) + 1)
  }

  lemma YearAndDayIsRight(n: int)
    ensures var (year, yday) := YearAndDay(n);
      0 <= yday < DaysInYear(year) && DaysBeforeYear(year) + yday == n
  {
    var era, inEra := n / 146097, n % 146097;
    var century := Min(inEra / 36524, 3);
    var inCentury := inEra - 36524 * century;
    var quad, inQuad := inCentury / 1461, inCentury % 1461;
    var y := Min(inQuad / 365, 3);
    assert 0 <= century <= 3 && 0 <= inCentury <= 36524 && (inCentury == 36524 ==> century == 3);
    assert 0 <= quad <= 24 && 0 <= y <= 3 && 0 <= inQuad - 365 * y <= 365;
    CyclesAddUp(era, century, quad, y);
    LongYears(era, century, quad, y);
  }

  lemma CyclesAddUp(era: int, century: int, quad: int, y: int)
    requires 0 <= century <= 3 && 0 <= quad <= 24 && 0 <= y <= 3
    ensures DaysBeforeYear(1 + 400 * era + 100 * century + 4 * quad + y) == 146097 * era + 36524 * century + 1461 * quad + 365 * y
  {
    var p := 400 * era + 100 * century + 4 * quad + y;
    assert p / 4 == 100 * era + 25 * century + quad;
    assert p / 100 == 4 * era + century;
    assert p / 400 == era;
  }

  /** The last year of a 4-year cycle is long, unless it also ends a century that does not end an era. */
  lemma LongYears(era: int, century: int, quad: int, y: int)
    requires 0 <= century <= 3 && 0 <= quad <= 24 && 0 <= y <= 3
    ensures Leap(1 + 400 * era + 100 * century + 4 * quad + y) <==> y == 3 && (quad == 24 ==> century == 3)
  {
    var w := 4 * quad + y + 1;
    var year := 400 * era + 100 * century + w;
    EndsCycleOf4(100 * era + 25 * century + quad, y + 1);
    EndsCycleOf100(4 * era + century, w);
    EndsCycleOf400(era, 100 * century + w);
    assert year == 4 * (100 * era + 25 * century + quad) + (y + 1);
    assert year == 100 * (4 * era + century) + w;
    assert year == 400 * era + (100 * century + w);
    assert Leap(year) <==> y + 1 == 4 && (w == 100 ==> 100 * century + w == 400);
  }

  lemma EndsCycleOf4(q: int, r: int)
    requires 0 < r <= 4
    ensures (4 * q + r) % 4 == 0 <==> r == 4
  {
  }

  lemma EndsCycleOf100(q: int, r: int)
    requires 0 < r <= 100
    ensures (100 * q + r) % 100 == 0 <==> r == 100
  {
  }

  lemma EndsCycleOf400(q: int, r: int)
    requires 0 < r <= 400
    ensures (400 * q + r) % 400 == 0 <==> r == 400
  {
  }

  lemma YearStep(year: int)
    ensures DaysBeforeYear(year + 1) == DaysBeforeYear(year) + DaysInYear(year)
  {
    var p := year - 1;
    assert (p + 1) / 4 == if year % 4 == 0 then p / 4 + 1 else p / 4;
    assert (p + 1) / 100 == if year % 100 == 0 then p / 100 + 1 else p / 100;
    assert (p + 1) / 400 == if year % 400 == 0 then p / 400 + 1 else p / 400;
  }

  lemma {:induction false} YearsGrow(y: int, z: int)
    requires y < z
    ensures DaysBeforeYear(y) + DaysInYear(y) <= DaysBeforeYear(z)
    decreases z - y
  {
    if y + 1 < z {
      YearsGrow(y, z - 1);
      YearStep(z - 1);
    } else {
      YearStep(y);
    }
  }

  predicate DateBefore(a: Date, b: Date) {
    a.year < b.year || (a.year == b.year && (a.month < b.month || (a.month == b.month && a.day < b.day)))
  }

  lemma LaterDateLaterDay(a: Date, b: Date)
    requires Valid(a) && Valid(b) && DateBefore(a, b)
    ensures DayNumber(a) < DayNumber(b)
  {
    if a.year < b.year {
      YearsGrow(a.year, b.year);
    }
  }

  /** A day has one civil date, and dates are ordered as days are. */
  lemma CivilOrder(m: int, n: int)
    ensures DateBefore(Civil(m), Civil(n)) <==> m < n
    ensures Civil(m) == Civil(n) <==> m == n
  {
    var a, b := Civil(m), Civil(n);
    if DateBefore(a, b) {
      LaterDateLaterDay(a, b);
    } else if a != b {
      LaterDateLaterDay(b, a);
    }
  }

  lemma CivilOfDayNumber(d: Date)
    requires Valid(d)
    ensures Civil(DayNumber(d)) == d
  {
    var e := Civil(DayNumber(d));
    if DateBefore(d, e) {
      LaterDateLaterDay(d, e);
    } else if e != d {
      LaterDateLaterDay(e, d);
    }
  }

  // ----- The calendar as it is told -----

  /** Thirty days hath September; the divisions by 4, 100 and 400 are all of February's rule. */
  function MonthLength(year: int, month: nat): nat {
    if month in {4, 6, 9, 11} then 30
    else if month != 2 then 31
    else if year % 400 == 0 then 29
    else if year % 100 == 0 then 28
    else if year % 4 == 0 then 29
    else 28
  }

  /** The day after. */
  function DayAfter(d: Date): Date {
    if d.day < MonthLength(d.year, d.month) then d.(day := d.day + 1)
    else if d.month < 12 then Date(d.year, d.month + 1, 1)
    else Date(d.year + 1, 1, 1)
  }

  lemma HundredsAreFours(year: int)
    ensures year % 100 == 0 ==> year % 4 == 0
    ensures year % 400 == 0 ==> year % 100 == 0
  {
    assert year == 100 * (year / 100) + year % 100;
    assert year == 400 * (year / 400) + year % 400;
    if year % 100 == 0 {
      EndsCycleOf4(25 * (year / 100) - 1, 4);
      assert year == 4 * (25 * (year / 100) - 1) + 4;
    }
    if year % 400 == 0 {
      EndsCycleOf100(4 * (year / 400) - 1, 100);
      assert year == 100 * (4 * (year / 400) - 1) + 100;
    }
  }

  lemma MonthsAreAsLong(year: int, month: nat)
    requires 1 <= month <= 12
    ensures DaysInMonth(year, month) == MonthLength(year, month)
  {
    HundredsAreFours(year);
  }

  lemma DayAfterIsNext(d: Date)
    requires Valid(d)
    ensures Valid(DayAfter(d)) && DayNumber(DayAfter(d)) == DayNumber(d) + 1
  {
    hide MonthLength, DaysBeforeYear;
    MonthsAreAsLong(d.year, d.month);
    if d.day == MonthLength(d.year, d.month) && d.month == 12 {
      YearStep(d.year);
    }
  }

  /** Day 0 is 1 January of year 1, and each day's date is the day after the one before: there is only one such calendar. */
  lemma CivilFollowsTheCalendar(n: int)
    ensures Civil(0) == Date(1, 1, 1)
    ensures Civil(n + 1) == DayAfter(Civil(n))
  {
    hide Civil, DayAfter, Valid, DayNumber;
    DayAfterIsNext(Civil(n));
    CivilOfDayNumber(DayAfter(Civil(n)));
    FirstDay();
    CivilOfDayNumber(Date(1, 1, 1));
  }

  lemma FirstDay()
    ensures Valid(Date(1, 1, 1)) && DayNumber(Date(1, 1, 1)) == 0
  {
  }
}
