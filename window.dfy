/**
 * The date window of the trend chart when a year is configured: initDates
 * builds it from Utils.date(year, 0, 1) and Utils.date(year, 11, 31).
 * Utils.date sets the year, month and day of a Calendar taken at the current
 * instant, so both ends carry the clock's time of day.
 */
module DateWindow {
  import opened Utils
  import opened Calendar

  /**
   * Utils.date(year, month, day) at a given time of day: month counted from
   * 0, and a day beyond the month's end rolling over (the Calendar is lenient).
   */
  function DateOf(year: int, month: int, day: int, timeOfDay: int): (t: int)
    requires 0 <= month <= 11 && 0 <= timeOfDay < DayMs
    ensures DayOf(t) == MonthFirstDay(year, month + 1) + day - 1
    ensures t - StartOfDay(DayOf(t)) == timeOfDay
  {
    StartOfDay(MonthFirstDay(year, month + 1) + day - 1) + timeOfDay
  }

  /** initDates with a year, as written: January 1 to December 31, both at the clock's time of day. */
  function YearWindowAsWritten(year: int, timeOfDay: int): Dates
    requires 0 <= timeOfDay < DayMs
  {
    Dates(DateOf(year, 0, 1, timeOfDay), DateOf(year, 11, 31, timeOfDay))
  }

  /**
   * The window as written misses January 1: a row dated January 1 of the
   * year (parsed as "yyyy-MM-dd", so at midnight) lies before the window's
   * start whenever the clock is past midnight.
   */
  lemma YearWindowAsWrittenMissesNewYear(year: int, timeOfDay: int)
    requires 0 < timeOfDay < DayMs
    ensures YearOf(DayOf(StartOfDay(YearStart(year)))) == year
    ensures !YearWindowAsWritten(year, timeOfDay).Contains(StartOfDay(YearStart(year)))
  {
    YearStartStep(year);
    YearOfUnique(YearStart(year), year);
    assert MonthFirstDay(year, 1) == YearStart(year);
  }

  /** The year window as intended: from the first instant of January 1 to the last instant of December 31. */
  function YearWindow(year: int): (w: Dates)
    ensures w == Dates(DateOf(year, 0, 1, 0), DateOf(year, 11, 31, DayMs - 1))
  {
    YearStartStep(year);
    assert MonthFirstDay(year, 1) == YearStart(year);
    assert MonthFirstDay(year, 12) + 30 == YearStart(year + 1) - 1 by {
      assert MonthStart(year, 12) + 30 == DaysInYear(year) - 1;
    }
    assert DateOf(year, 11, 31, DayMs - 1) == StartOfDay(YearStart(year + 1) - 1) + DayMs - 1;
    Dates(StartOfDay(YearStart(year)), StartOfDay(YearStart(year + 1)) - 1)
  }

  /** An instant lies in the year window exactly when its day belongs to that year. */
  lemma YearWindowIsYear(year: int, t: int)
    ensures YearWindow(year).Contains(t) <==> YearOf(DayOf(t)) == year
  {
    var d := DayOf(t);
    if YearWindow(year).Contains(t) {
      assert YearStart(year) <= d < YearStart(year + 1);
      YearOfUnique(d, year);
    }
  }
}
