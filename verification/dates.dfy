/** Planting dates: the `dd/mm/yyyy` parser of the form and the ordering the
    record list is sorted by. */
module Dates {
  import opened Wrappers
  import opened Text

  /** A (year, month, day) triple, months and days counted from 1. */
  datatype Date = Date(year: int, month: int, day: int)

  /** Leap years of the proleptic Gregorian calendar the host uses. */
  predicate IsLeapYear(y: int) {
    y % 4 == 0 && (y % 100 != 0 || y % 400 == 0)
  }

  function DaysInMonth(y: int, m: int): int
    requires 1 <= m <= 12
  {
    if m == 2 then (if IsLeapYear(y) then 29 else 28)
    else if m == 4 || m == 6 || m == 9 || m == 11 then 30
    else 31
  }

  /** The triple names a real calendar day: what the host's date
      construction yields once it has normalised its arguments. */
  predicate IsCalendarDate(d: Date) {
    1 <= d.month <= 12 && 1 <= d.day <= DaysInMonth(d.year, d.month)
  }

  /** A calendar date with no time of day. */
  type CalendarDate = d: Date | IsCalendarDate(d) witness Date(1970, 1, 1)

  /** `a` is the same day as `b` or an earlier one: (year, month, day)
      compared lexicographically. */
  predicate AtOrBefore(a: Date, b: Date) {
    || a.year < b.year
    || (a.year == b.year && a.month < b.month)
    || (a.year == b.year && a.month == b.month && a.day <= b.day)
  }

  /** Days before the first of January of year `y + 1`, counted from a fixed
      origin. */
  function DaysThroughYear(y: int): int {
    365 * y + y / 4 - y / 100 + y / 400
  }

  /** Days in the months of year `y` before month `m`. */
  function DaysBeforeMonth(y: int, m: int): int
    requires 1 <= m <= 12
  {
    var common := [0, 31, 59, 90, 120, 151, 181, 212, 243, 273, 304, 334][m - 1];
    if m > 2 && IsLeapYear(y) then common + 1 else common
  }

  /** Position of a date on the count of days: the scale on which the host
      compares time values (one day apart per step, no time of day). */
  function DayNumber(d: CalendarDate): int {
    DaysThroughYear(d.year - 1) + DaysBeforeMonth(d.year, d.month) + d.day
  }

  lemma Quarter(y: int)
    ensures y / 4 - (y - 1) / 4 == (if y % 4 == 0 then 1 else 0)
  {
  }

  lemma Century(y: int)
    ensures y / 100 - (y - 1) / 100 == (if y % 100 == 0 then 1 else 0)
  {
  }

  lemma QuadCentury(y: int)
    ensures y / 400 - (y - 1) / 400 == (if y % 400 == 0 then 1 else 0)
  {
  }

  /** Consecutive years are one year's length apart. */
  lemma YearStep(y: int)
    ensures DaysThroughYear(y) - DaysThroughYear(y - 1) == (if IsLeapYear(y) then 366 else 365)
  {
    Quarter(y);
    Century(y);
    QuadCentury(y);
  }

  lemma {:induction false} YearsIncrease(y1: int, y2: int)
    requires y1 <= y2
    ensures DaysThroughYear(y1) <= DaysThroughYear(y2)
    decreases y2 - y1
  {
    if y1 < y2 {
      YearStep(y2);
      YearsIncrease(y1, y2 - 1);
    }
  }

  /** A date's day number lies within its own year's span of days. */
  lemma DayNumberInYear(d: CalendarDate)
    ensures DaysThroughYear(d.year - 1) < DayNumber(d) <= DaysThroughYear(d.year)
  {
    YearStep(d.year);
  }

  /** Every day of an earlier month of the same year comes before the first
      day of a later month. */
  lemma MonthsIncrease(y: int, m1: int, m2: int)
    requires 1 <= m1 < m2 <= 12
    ensures DaysBeforeMonth(y, m1) + DaysInMonth(y, m1) <= DaysBeforeMonth(y, m2)
  {
  }

  /** For calendar dates the lexicographic order is the order of days, so
      sorting by it is sorting by the dates' time values. */
  lemma OrderIsDayOrder(a: CalendarDate, b: CalendarDate)
    ensures AtOrBefore(a, b) <==> DayNumber(a) <= DayNumber(b)
  {
    if a.year < b.year {
      DayNumberInYear(a);
      DayNumberInYear(b);
      YearsIncrease(a.year, b.year - 1);
    } else if b.year < a.year {
      DayNumberInYear(a);
      DayNumberInYear(b);
      YearsIncrease(b.year, a.year - 1);
    } else if a.month < b.month {
      MonthsIncrease(a.year, a.month, b.month);
    } else if b.month < a.month {
      MonthsIncrease(a.year, b.month, a.month);
    }
  }

  /** Two calendar dates are the same day exactly when they are the same
      date. */
  lemma DayNumberInjective(a: CalendarDate, b: CalendarDate)
    ensures DayNumber(a) == DayNumber(b) <==> a == b
  {
    OrderIsDayOrder(a, b);
    OrderIsDayOrder(b, a);
    AtOrBeforeTotal(a, b);
  }

  /** The date order is a total order: any two dates compare, one way or
      both, and comparing both ways means equal. */
  lemma AtOrBeforeTotal(a: Date, b: Date)
    ensures AtOrBefore(a, b) || AtOrBefore(b, a)
    ensures AtOrBefore(a, b) && AtOrBefore(b, a) ==> a == b
  {
  }

  lemma AtOrBeforeTransitive(a: Date, b: Date, c: Date)
    requires AtOrBefore(a, b) && AtOrBefore(b, c)
    ensures AtOrBefore(a, c)
  {
  }

  /** The host's date construction from the three positional pieces (day,
      month, year), as written by the user. It stands for `parseInt` of each
      piece, the shift of the month to 0-based, `new Date(year, month, day)`
      and the rejection of an invalid time value; `None` is that rejection.
      What it returns is the calendar date the host's time value falls on:
      out-of-range days and months have already rolled over, so
      `32/01/2025` and `01/02/2025` give the same date. */
  type DateBuilder = (string, string, string) -> Option<CalendarDate>

  /** `parseBrazilianDate`: the text must split on `/` into exactly three
      pieces, which go to the host date construction as day, month and year;
      any other shape is refused. */
  function ParseBrazilianDate(text: string, build: DateBuilder): (r: Option<CalendarDate>)
    ensures Count(text, '/') != 2 ==> r == None
  {
    var parts := Split(text, '/');
    if |parts| == 3 then build(parts[0], parts[1], parts[2]) else None
  }

  /** A text of the shape `d/m/y` with slash-free pieces is handed to the
      host as exactly those pieces. */
  lemma ParseOfPieces(d: string, m: string, y: string, build: DateBuilder)
    requires '/' !in d && '/' !in m && '/' !in y
    ensures ParseBrazilianDate(d + "/" + m + "/" + y, build) == build(d, m, y)
  {
    var parts := [d, m, y];
    assert Join(parts[2..], '/') == y;
    assert Join(parts[1..], '/') == m + "/" + y;
    assert Join(parts, '/') == d + "/" + m + "/" + y;
    SplitJoin(parts, '/');
  }

  /** A date is parsed only from text of the shape `d/m/y` with slash-free
      pieces, and the result is what the host builds from those pieces. */
  lemma ParsedHasShape(text: string, build: DateBuilder)
    requires ParseBrazilianDate(text, build).Some?
    ensures var parts := Split(text, '/');
      && |parts| == 3
      && text == parts[0] + "/" + parts[1] + "/" + parts[2]
      && '/' !in parts[0] && '/' !in parts[1] && '/' !in parts[2]
      && ParseBrazilianDate(text, build) == build(parts[0], parts[1], parts[2])
  {
    TwoSeparators(text, '/');
  }

  /** `23/04/2025` reaches the host as day `23`, month `04`, year `2025`. */
  lemma ExampleDateParsed(build: DateBuilder)
    ensures ParseBrazilianDate("23/04/2025", build) == build("23", "04", "2025")
  {
    assert "23" + "/" + "04" + "/" + "2025" == "23/04/2025";
    ParseOfPieces("23", "04", "2025", build);
  }

  /** ISO-style text such as `2025-04-23` holds no slash and is refused. */
  lemma IsoTextRefused(build: DateBuilder)
    ensures ParseBrazilianDate("2025-04-23", build) == None
  {
    assert '/' !in "2025-04-23";
    assert Count("2025-04-23", '/') == 0;
  }
}
