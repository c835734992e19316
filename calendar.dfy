/**
 * The calendar fields that Scale.scaleDate reads and sets on a
 * java.util.Calendar, over instants given as milliseconds of local time.
 *
 * Days are numbered from 1970-01-01 (day 0); the calendar is the proleptic
 * Gregorian one. Years, months and weekdays are derived from day numbers, so
 * "the first of the month" and "the first day of the week" are facts about
 * day numbers that can be proved rather than assumed.
 */
module Calendar {

  const DayMs: int := 86_400_000

  /** java.util.Calendar's DAY_OF_WEEK values: 1 = SUNDAY, ..., 7 = SATURDAY. */
  type Weekday = d: int | 1 <= d <= 7 witness 1

  /** The day containing instant t (floor division: instants before 1970 belong to negative days). */
  function DayOf(t: int): (d: int)
    ensures d * DayMs <= t < d * DayMs + DayMs
  {
    t / DayMs
  }

  /** The first instant (midnight) of day d. */
  function StartOfDay(d: int): (t: int)
    ensures DayOf(t) == d && t % DayMs == 0
  {
    d * DayMs
  }

  predicate IsLeap(y: int) {
    y % 4 == 0 && (y % 100 != 0 || y % 400 == 0)
  }

  function DaysInYear(y: int): int {
    if IsLeap(y) then 366 else 365
  }

  /** The day number of January 1 of year y. */
  function YearStart(y: int): int
    decreases if y >= 1970 then y - 1970 else 1970 - y
  {
    if y == 1970 then 0
    else if y > 1970 then YearStart(y - 1) + DaysInYear(y - 1)
    else YearStart(y + 1) - DaysInYear(y)
  }

  lemma YearStartStep(y: int)
    ensures YearStart(y + 1) == YearStart(y) + DaysInYear(y)
  {
  }

  /** Later years start at least 365 days per year later. */
  lemma {:induction false} YearStartOrder(a: int, b: int)
    ensures a <= b ==> YearStart(a) + 365 * (b - a) <= YearStart(b)
    decreases b - a
  {
    if a < b {
      YearStartStep(b - 1);
      YearStartOrder(a, b - 1);
    }
  }

  function YearFrom(d: int, y: int): (r: int)
    requires YearStart(y) <= d
    ensures YearStart(r) <= d < YearStart(r + 1)
    decreases d - YearStart(y)
  {
    YearStartStep(y);
    if d < YearStart(y + 1) then y else YearFrom(d, y + 1)
  }

  function YearBefore(d: int, y: int): (r: int)
    requires d < YearStart(y + 1)
    ensures YearStart(r) <= d < YearStart(r + 1)
    decreases YearStart(y + 1) - d
  {
    YearStartStep(y);
    if YearStart(y) <= d then y else YearBefore(d, y - 1)
  }

  /** Calendar.YEAR of day d. */
  function YearOf(d: int): (y: int)
    ensures YearStart(y) <= d < YearStart(y + 1)
  {
    if d >= 0 then YearFrom(d, 1970) else YearBefore(d, 1969)
  }

  /** The years partition the days: a day lies in exactly one of them. */
  lemma {:induction false} YearOfUnique(d: int, y: int)
    requires YearStart(y) <= d < YearStart(y + 1)
    ensures YearOf(d) == y
  {
    var z := YearOf(d);
    YearStartOrder(z + 1, y);
    YearStartOrder(y + 1, z);
  }

  /** Days of year y before the first of month m (1 = January); m = 13 gives the length of the year. */
  function MonthStart(y: int, m: int): (n: int)
    requires 1 <= m <= 13
    ensures m == 13 ==> n == DaysInYear(y)
  {
    var common :=
      if m == 1 then 0 else if m == 2 then 31 else if m == 3 then 59
      else if m == 4 then 90 else if m == 5 then 120 else if m == 6 then 151
      else if m == 7 then 181 else if m == 8 then 212 else if m == 9 then 243
      else if m == 10 then 273 else if m == 11 then 304 else if m == 12 then 334
      else 365;
    common + if m > 2 && IsLeap(y) then 1 else 0
  }

  /** Every month has at least 28 days. */
  lemma {:induction false} MonthStartOrder(y: int, a: int, b: int)
    requires 1 <= a <= b <= 13
    ensures MonthStart(y, a) + 28 * (b - a) <= MonthStart(y, b)
    decreases b - a
  {
    if a < b {
      MonthStartOrder(y, a, b - 1);
    }
  }

  function MonthFrom(y: int, n: int, m: int): (r: int)
    requires 1 <= m <= 12
    requires MonthStart(y, m) <= n < DaysInYear(y)
    ensures m <= r <= 12 && MonthStart(y, r) <= n < MonthStart(y, r + 1)
    decreases 12 - m
  {
    if n < MonthStart(y, m + 1) then m else MonthFrom(y, n, m + 1)
  }

  /** Calendar.MONTH of day d, counted from 1 = January. */
  function MonthOf(d: int): (m: int)
    ensures 1 <= m <= 12
    ensures MonthStart(YearOf(d), m) <= d - YearStart(YearOf(d)) < MonthStart(YearOf(d), m + 1)
  {
    var y := YearOf(d);
    MonthFrom(y, d - YearStart(y), 1)
  }

  /** The months partition a year: a day of the year lies in exactly one of them. */
  lemma {:induction false} MonthOfUnique(d: int, m: int)
    requires 1 <= m <= 12
    requires MonthStart(YearOf(d), m) <= d - YearStart(YearOf(d)) < MonthStart(YearOf(d), m + 1)
    ensures MonthOf(d) == m
  {
    MonthsDisjoint(YearOf(d), d - YearStart(YearOf(d)), MonthOf(d), m);
  }

  /** A day of the year lies in one month only. */
  lemma MonthsDisjoint(y: int, n: int, k: int, m: int)
    requires 1 <= k <= 12 && 1 <= m <= 12
    requires MonthStart(y, k) <= n < MonthStart(y, k + 1)
    requires MonthStart(y, m) <= n < MonthStart(y, m + 1)
    ensures k == m
  {
    if k < m {
      MonthStartOrder(y, k + 1, m);
    }
    if m < k {
      MonthStartOrder(y, m + 1, k);
    }
  }

  /** The first day of the year containing d: Calendar.set(DAY_OF_YEAR, 1). */
  function FirstOfYear(d: int): int {
    YearStart(YearOf(d))
  }

  /** The first day of the month containing d: Calendar.set(DAY_OF_MONTH, 1). */
  function FirstOfMonth(d: int): int {
    MonthFirstDay(YearOf(d), MonthOf(d))
  }

  /** Calendar.DAY_OF_YEAR, from 1. */
  function DayOfYear(d: int): int {
    d - FirstOfYear(d) + 1
  }

  /** Calendar.DAY_OF_MONTH, from 1. */
  function DayOfMonth(d: int): int {
    d - FirstOfMonth(d) + 1
  }

  /** Calendar.DAY_OF_WEEK: 1970-01-01 (day 0) was a Thursday (5). */
  function DayOfWeek(d: int): Weekday {
    (d + 4) % 7 + 1
  }

  /** The first day of the week containing d, weeks starting on `first`: Calendar.set(DAY_OF_WEEK, getFirstDayOfWeek()). */
  function FirstOfWeek(d: int, first: Weekday): int {
    d - (DayOfWeek(d) - first + 7) % 7
  }

  /** January 1 of the same year: not after d, in d's year, and day 1 of that year. */
  lemma {:induction false} FirstOfYearIsStart(d: int)
    ensures FirstOfYear(d) <= d
    ensures YearOf(FirstOfYear(d)) == YearOf(d)
    ensures DayOfYear(FirstOfYear(d)) == 1
  {
    var y := YearOf(d);
    YearStartStep(y);
    YearOfUnique(YearStart(y), y);
  }

  /** Month m of year y starts within the year and lasts at least 28 days. */
  lemma MonthStartBounds(y: int, m: int)
    requires 1 <= m <= 12
    ensures 0 <= MonthStart(y, m) && MonthStart(y, m) + 28 <= MonthStart(y, m + 1) <= DaysInYear(y)
  {
    MonthStartOrder(y, 1, m);
    MonthStartOrder(y, m, m + 1);
    MonthStartOrder(y, m + 1, 13);
  }

  /** The day number of the first of month m of year y. */
  function MonthFirstDay(y: int, m: int): int
    requires 1 <= m <= 12
  {
    YearStart(y) + MonthStart(y, m)
  }

  /** The first day of month m of year y lies in year y and month m. */
  lemma MonthStartIsFirst(y: int, m: int)
    requires 1 <= m <= 12
    ensures YearOf(MonthFirstDay(y, m)) == y
    ensures MonthOf(MonthFirstDay(y, m)) == m
  {
    var s := MonthFirstDay(y, m);
    MonthStartBounds(y, m);
    YearStartStep(y);
    YearOfUnique(s, y);
    MonthOfUnique(s, m);
  }

  /** The first of the same month: not after d, in d's year and month, and day 1 of that month. */
  lemma FirstOfMonthIsStart(d: int)
    ensures FirstOfMonth(d) <= d
    ensures YearOf(FirstOfMonth(d)) == YearOf(d) && MonthOf(FirstOfMonth(d)) == MonthOf(d)
    ensures DayOfMonth(FirstOfMonth(d)) == 1
  {
    var y, m := YearOf(d), MonthOf(d);
    MonthStartIsFirst(y, m);
    assert FirstOfMonth(d) == MonthFirstDay(y, m);
  }

  /** The start of the week: at most six days back, on the week's first weekday, and its own week start. */
  lemma {:induction false} FirstOfWeekIsStart(d: int, first: Weekday)
    ensures d - 6 <= FirstOfWeek(d, first) <= d
    ensures DayOfWeek(FirstOfWeek(d, first)) == first
    ensures FirstOfWeek(FirstOfWeek(d, first), first) == FirstOfWeek(d, first)
  {
    var q, r := (d + 4) / 7, (d + 4) % 7;
    assert d + 4 == 7 * q + r && 0 <= r < 7;
    var t := r + 1 - first + 7;
    var f := FirstOfWeek(d, first);
    if t < 7 {
      assert f == d - t;
      assert f + 4 == 7 * (q - 1) + (first - 1);
    } else {
      assert f == d - (t - 7);
      assert f + 4 == 7 * q + (first - 1);
    }
    assert DayOfWeek(f) == first;
  }
}
