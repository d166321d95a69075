/** The proleptic Gregorian calendar of section 21.4.1 of ECMA-262, and the release versions it validates. */
module Calendar {
  import opened Arithmetic

  const MS_PER_DAY: int := 86_400_000

  datatype Date = Date(year: int, month: int, day: int)

  predicate Leap(year: int) { year % 4 == 0 && (year % 100 != 0 || year % 400 == 0) }

  function DaysInYear(year: int): int { if Leap(year) then 366 else 365 }

  // The number of the first day of a year, counted from 1 January 1970.
  function DayFromYear(year: int): int {
    365 * (year - 1970) + (year - 1969) / 4 - (year - 1901) / 100 + (year - 1601) / 400
  }

  lemma {:induction false} YearLength(year: int)
    ensures DayFromYear(year + 1) == DayFromYear(year) + DaysInYear(year)
  {
    DivStep(year - 1969, 4);
    DivStep(year - 1901, 100);
    DivStep(year - 1601, 400);
    ModShift(year, 4, 492);
    ModShift(year, 100, 19);
    ModShift(year, 400, 4);
    CenturyLeap(year);
  }

  lemma {:induction false} CenturyLeap(year: int)
    ensures year % 100 == 0 ==> year % 4 == 0
    ensures year % 400 == 0 ==> year % 100 == 0
  {
  }

  // The year a day is in, searched for from 1970.
  function YearFromDay(day: int): (y: int)
    ensures DayFromYear(y) <= day < DayFromYear(y + 1)
  {
    if day >= 0 then YearUp(day, 1970) else YearDown(day, 1969)
  }

  function YearUp(day: int, year: int): (y: int)
    requires DayFromYear(year) <= day
    ensures DayFromYear(y) <= day < DayFromYear(y + 1)
    decreases day - DayFromYear(year)
  {
    YearLength(year);
    if day < DayFromYear(year + 1) then year else YearUp(day, year + 1)
  }

  function YearDown(day: int, year: int): (y: int)
    requires day < DayFromYear(year + 1)
    ensures DayFromYear(y) <= day < DayFromYear(y + 1)
    decreases DayFromYear(year + 1) - day
  {
    YearLength(year);
    if DayFromYear(year) <= day then year else YearDown(day, year - 1)
  }

  lemma {:induction false} YearsAscend(a: int, b: int)
    requires a <= b
    ensures DayFromYear(a) <= DayFromYear(b)
    decreases b - a
  {
    hide DayFromYear;
    if a < b {
      YearLength(a);
      YearsAscend(a + 1, b);
    }
  }

  lemma {:induction false} YearUnique(day: int, year: int)
    requires DayFromYear(year) <= day < DayFromYear(year + 1)
    ensures YearFromDay(day) == year
  {
    var y := YearFromDay(day);
    hide YearFromDay;
    hide DayFromYear;
    if y < year { YearsAscend(y + 1, year); }
    if year < y { YearsAscend(year + 1, y); }
  }

  // The days of the year before each month, and before the next year.
  function DaysBefore(month: int, leap: bool): int
    requires 1 <= month <= 13
  {
    var days := [0, 31, 59, 90, 120, 151, 181, 212, 243, 273, 304, 334, 365];
    days[month - 1] + if leap && month > 2 then 1 else 0
  }

  function DaysInMonth(year: int, month: int): int
    requires 1 <= month <= 12
  {
    DaysBefore(month + 1, Leap(year)) - DaysBefore(month, Leap(year))
  }

  ghost predicate Exists(d: Date) {
    1 <= d.month <= 12 && 1 <= d.day <= DaysInMonth(d.year, d.month)
  }

  // The last month that starts on or before a day of the year.
  function MonthFromDay(dayInYear: int, leap: bool): (m: int)
    requires 0 <= dayInYear < DaysBefore(13, leap)
    ensures 1 <= m <= 12 && DaysBefore(m, leap) <= dayInYear < DaysBefore(m + 1, leap)
  {
    MonthUp(dayInYear, leap, 1)
  }

  function MonthUp(dayInYear: int, leap: bool, month: int): (m: int)
    requires 1 <= month <= 12 && DaysBefore(month, leap) <= dayInYear < DaysBefore(13, leap)
    ensures 1 <= m <= 12 && DaysBefore(m, leap) <= dayInYear < DaysBefore(m + 1, leap)
    decreases 12 - month
  {
    if month == 12 || dayInYear < DaysBefore(month + 1, leap) then month else MonthUp(dayInYear, leap, month + 1)
  }

  lemma {:induction false} MonthUnique(dayInYear: int, leap: bool, m: int, n: int)
    requires 1 <= m <= 12 && DaysBefore(m, leap) <= dayInYear < DaysBefore(m + 1, leap)
    requires 1 <= n <= 12 && DaysBefore(n, leap) <= dayInYear < DaysBefore(n + 1, leap)
    ensures m == n
  {
  }

  lemma {:induction false} DayWithinYear(day: int, year: int)
    requires DayFromYear(year) <= day < DayFromYear(year + 1)
    ensures 0 <= day - DayFromYear(year) < DaysBefore(13, Leap(year))
  {
    YearLength(year);
    hide DayFromYear;
    hide Leap;
  }

  // getUTCFullYear, getUTCMonth + 1 and getUTCDate of a day.
  function DateOf(day: int): Date {
    var y := YearFromDay(day);
    DayWithinYear(day, y);
    var rest := day - DayFromYear(y);
    var m := MonthFromDay(rest, Leap(y));
    Date(y, m, rest - DaysBefore(m, Leap(y)) + 1)
  }

  // MakeDay for a month within the year.
  function DayOf(d: Date): int
    requires 1 <= d.month <= 12
  {
    DayFromYear(d.year) + DaysBefore(d.month, Leap(d.year)) + d.day - 1
  }

  // Every day has a date that exists, and is the day of that date.
  lemma {:induction false} DayRoundTrip(day: int)
    ensures Exists(DateOf(day)) && DayOf(DateOf(day)) == day
  {
  }

  // Every date that exists is the date of its day.
  lemma {:induction false} DateRoundTrip(d: Date)
    requires Exists(d)
    ensures DateOf(DayOf(d)) == d
  {
    hide DayFromYear;
    hide YearFromDay;
    hide MonthFromDay;
    hide Leap;
    var rest := DaysBefore(d.month, Leap(d.year)) + d.day - 1;
    YearLength(d.year);
    DayInYear(d);
    YearUnique(DayOf(d), d.year);
    hide DaysBefore;
    MonthUnique(rest, Leap(d.year), MonthFromDay(rest, Leap(d.year)), d.month);
  }

  lemma {:induction false} DayInYear(d: Date)
    requires Exists(d)
    ensures 0 <= DaysBefore(d.month, Leap(d.year)) + d.day - 1 < DaysInYear(d.year) == DaysBefore(13, Leap(d.year))
  {
    hide Leap;
  }

  lemma {:induction false} MonthBounds(year: int, month: int)
    requires 1 <= month <= 12
    ensures 28 <= DaysInMonth(year, month) <= 31
  {
  }

  // ---- The calendar of the wall ----

  // The months have their lengths, February by the leap years, and the days are counted from 1 January 1970.
  lemma {:induction false} MonthLengths(year: int)
    ensures forall m | m in {1, 3, 5, 7, 8, 10, 12} :: DaysInMonth(year, m) == 31
    ensures forall m | m in {4, 6, 9, 11} :: DaysInMonth(year, m) == 30
    ensures DaysInMonth(year, 2) == if year % 4 == 0 && (year % 100 != 0 || year % 400 == 0) then 29 else 28
    ensures DayOf(Date(1970, 1, 1)) == 0
  {
  }

  // The day after a date has the next number.
  lemma {:induction false} NextDay(d: Date)
    requires Exists(d)
    ensures d.day < DaysInMonth(d.year, d.month) ==> DayOf(d.(day := d.day + 1)) == DayOf(d) + 1
    ensures d.day == DaysInMonth(d.year, d.month) && d.month < 12 ==>
              DayOf(Date(d.year, d.month + 1, 1)) == DayOf(d) + 1
    ensures d.day == 31 && d.month == 12 ==> DayOf(Date(d.year + 1, 1, 1)) == DayOf(d) + 1
  {
    YearLength(d.year);
    hide DayFromYear;
  }
}
