/** Release versions: the dates they name and how far apart two moments are in UTC days. */
module ReleaseVersion {
  import opened Arithmetic
  import opened Basics
  import opened Calendar
  import opened Decimals

  // The matched fields of YYYY.M.D and YYYY.M.D-beta.N.
  datatype Fields = Fields(year: seq<Digit>, month: seq<Digit>, day: seq<Digit>, beta: Option<seq<Digit>>)

  predicate NumberText(ds: seq<Digit>, most: nat) { 1 <= |ds| <= most && ds[0] != 0 }

  // What the two version patterns let through.
  predicate Matched(f: Fields) {
    |f.year| == 4 && NumberText(f.month, 2) && NumberText(f.day, 2) &&
    (f.beta.None? || NumberText(f.beta.value, |f.beta.value|))
  }

  datatype Release = Release(date: Date, beta: Option<nat>)

  // Date.UTC for a month from 1 to 12, as a day: a year from 0 to 99 stands for one in the twentieth century.
  function UtcDay(d: Date): int
    requires 1 <= d.month <= 12
  {
    DayOf(if 0 <= d.year <= 99 then d.(year := 1900 + d.year) else d)
  }

  // parseDateParts: the date is accepted when Date.UTC gives it back unchanged.
  function Parse(f: Fields): Option<Release>
    requires Matched(f)
  {
    var date := Date(Value(f.year), Value(f.month), Value(f.day));
    var beta := if f.beta.None? then None else Some(Value(f.beta.value));
    if date.month < 1 || date.month > 12 || date.day < 1 || date.day > 31 then None
    else if beta.Some? && beta.value < 1 then None
    else if DateOf(UtcDay(date)) != date then None
    else Some(Release(date, beta))
  }

  // Only dates that exist are given back.
  lemma {:induction false} GivenBackExactly(d: Date)
    requires 1 <= d.month <= 12
    ensures DateOf(UtcDay(d)) == d <==> Exists(d) && !(0 <= d.year <= 99)
  {
    DayRoundTrip(UtcDay(d));
    hide DateOf;
    hide DayOf;
    hide DaysInMonth;
    if 0 <= d.year <= 99 {
      ShiftedYear(d);
    } else if Exists(d) {
      DateRoundTrip(d);
    }
  }

  // Date.UTC never gives a year below 100 back.
  lemma {:induction false} ShiftedYear(d: Date)
    requires 1 <= d.month <= 12 && 0 <= d.year <= 99
    ensures DateOf(UtcDay(d)) != d
  {
  }

  // A version with well-formed fields is accepted exactly when its date exists and its year is at least 100.
  lemma {:induction false} AcceptedExactly(f: Fields)
    requires Matched(f)
    ensures var d := Date(Value(f.year), Value(f.month), Value(f.day));
      Parse(f).Some? <==> Exists(d) && d.year >= 100
  {
    DigitsValue(f.month);
    DigitsValue(f.day);
    if f.beta.Some? { DigitsValue(f.beta.value); }
    var d := Date(Value(f.year), Value(f.month), Value(f.day));
    hide Value;
    hide Digits;
    hide DateOf;
    hide UtcDay;
    if d.month <= 12 {
      MonthBounds(d.year, d.month);
      hide DaysInMonth;
      GivenBackExactly(d);
    }
  }

  // ---- One text for each release ----

  function PadFour(n: nat): (ds: seq<Digit>)
    requires n < 10_000
    ensures |ds| == 4
  {
    var tens := n / 10;
    var hundreds := tens / 10;
    [hundreds / 10, hundreds % 10, tens % 10, n % 10]
  }

  // The text of a release.
  function Format(r: Release): Fields
    requires 0 <= r.date.year < 10_000 && r.date.month >= 0 && r.date.day >= 0
  {
    Fields(PadFour(r.date.year), Digits(r.date.month), Digits(r.date.day),
           if r.beta.None? then None else Some(Digits(r.beta.value)))
  }

  // Every release of a date that exists, from the year 100 on, has a text that is read back as that release.
  lemma {:induction false} FormatThenParse(r: Release)
    requires Exists(r.date) && 100 <= r.date.year < 10_000 && (r.beta.Some? ==> r.beta.value >= 1)
    ensures Matched(Format(r)) && Parse(Format(r)) == Some(r)
  {
    MonthBounds(r.date.year, r.date.month);
    TwoDigits(r.date.month);
    TwoDigits(r.date.day);
    if r.beta.Some? { ValueDigits(r.beta.value); }
    FourDigits(r.date.year);
    hide Value;
    hide Digits;
    hide PadFour;
    hide DaysInMonth;
    hide DateOf;
    hide UtcDay;
    AcceptedExactly(Format(r));
  }

  lemma {:induction false} TwoDigits(n: nat)
    requires 1 <= n <= 31
    ensures NumberText(Digits(n), 2) && Value(Digits(n)) == n
  {
    ValueDigits(n);
    if n >= 10 { assert |Digits(n / 10)| == 1; }
  }

  lemma {:induction false} FourDigits(n: nat)
    requires n < 10_000
    ensures Value(PadFour(n)) == n
  {
    ValueOfFour(PadFour(n));
    hide Value;
  }

  lemma {:induction false} FourDigitText(ds: seq<Digit>)
    requires |ds| == 4
    ensures Value(ds) < 10_000 && PadFour(Value(ds)) == ds
  {
    ValueOfFour(ds);
    hide Value;
    var n := Value(ds);
    var a: int, b: int, c: int, d: int := ds[0], ds[1], ds[2], ds[3];
    DivUnique(n, 10, a * 100 + b * 10 + c);
    DivUnique(a * 100 + b * 10 + c, 10, a * 10 + b);
    DivUnique(a * 10 + b, 10, a);
  }

  // An accepted version is the text of its release, so no two versions name the same release.
  lemma {:induction false} ParseThenFormat(f: Fields)
    requires Matched(f) && Parse(f).Some?
    ensures var r := Parse(f).value; 0 <= r.date.year < 10_000 && Format(r) == f
  {
    FourDigitText(f.year);
    DigitsValue(f.month);
    DigitsValue(f.day);
    if f.beta.Some? { DigitsValue(f.beta.value); }
    hide Value;
    hide Digits;
    hide PadFour;
    hide DateOf;
    hide UtcDay;
  }

  // ---- Days between two moments ----

  // startOfUtcDay, for a time in milliseconds.
  function StartOfUtcDay(time: int): int {
    UtcDay(DateOf(time / MS_PER_DAY)) * MS_PER_DAY
  }

  // Math.round of a quotient that is never negative.
  function Rounded(a: int, d: int): int
    requires 0 <= a && 0 < d
  {
    (2 * a + d) / (2 * d)
  }

  function Distance(left: int, right: int): int {
    var gap := StartOfUtcDay(left) - StartOfUtcDay(right);
    Rounded(if gap < 0 then -gap else gap, MS_PER_DAY)
  }

  predicate InFirstCentury(time: int) { 0 <= DateOf(time / MS_PER_DAY).year <= 99 }

  // The start of a day is the last midnight exactly outside the years 0 to 99.
  lemma {:induction false} StartExactly(time: int)
    ensures StartOfUtcDay(time) == time / 86_400_000 * 86_400_000 <==> !InFirstCentury(time)
  {
  }

  // The distance counts days between the two starts.
  lemma {:induction false} DistanceCounts(left: int, right: int)
    ensures var gap := UtcDay(DateOf(left / MS_PER_DAY)) - UtcDay(DateOf(right / MS_PER_DAY));
      Distance(left, right) == if gap < 0 then -gap else gap
  {
    var gap := UtcDay(DateOf(left / MS_PER_DAY)) - UtcDay(DateOf(right / MS_PER_DAY));
    assert StartOfUtcDay(left) - StartOfUtcDay(right) == gap * MS_PER_DAY;
    var n := if gap < 0 then -gap else gap;
    DivUnique(2 * n * MS_PER_DAY + MS_PER_DAY, 2 * MS_PER_DAY, n);
  }

  // The date that `Date.UTC` counts a date as: 1900 years later in the years 0 to 99, where the leap day of the year
  // 0 becomes 1 March, because 1900 has none.
  function Counted(d: Date): Date {
    if d == Date(0, 2, 29) then Date(1900, 3, 1)
    else if 0 <= d.year <= 99 then d.(year := 1900 + d.year)
    else d
  }

  lemma {:induction false} LeapYearsShift(year: int)
    requires 1 <= year <= 99
    ensures Leap(1900 + year) == Leap(year)
  {
    ModShift(1900 + year, 4, 475);
  }

  lemma {:induction false} CountedExists(d: Date)
    requires Exists(d)
    ensures Exists(Counted(d))
  {
    if 1 <= d.year <= 99 { LeapYearsShift(d.year); }
  }

  lemma {:induction false} CountedDay(d: Date)
    requires Exists(d)
    ensures Exists(Counted(d)) && DayOf(Counted(d)) == UtcDay(d)
  {
    CountedExists(d);
    if d == Date(0, 2, 29) { LeapDayShift(); }
  }

  // The date of a moment as the distance counts it.
  function CountedDate(time: int): Date { Counted(DateOf(time / MS_PER_DAY)) }

  lemma {:induction false} DistanceOfDates(a: int, b: int)
    ensures Exists(CountedDate(a)) && Exists(CountedDate(b))
    ensures var x, y := DayOf(CountedDate(a)), DayOf(CountedDate(b));
      Distance(a, b) == if x < y then y - x else x - y
  {
    DistanceCounts(a, b);
    DayRoundTrip(a / MS_PER_DAY);
    DayRoundTrip(b / MS_PER_DAY);
    hide Counted;
    hide DayOf;
    hide DateOf;
    hide UtcDay;
    hide Distance;
    CountedDay(DateOf(a / MS_PER_DAY));
    CountedDay(DateOf(b / MS_PER_DAY));
  }

  // For all moments the distance is zero exactly on dates that are counted as the same one, is symmetric and
  // satisfies the triangle inequality; outside the years 0 to 99 it counts the midnights between two moments.
  lemma {:induction false} DistanceMetric(a: int, b: int, c: int)
    ensures Distance(a, b) == 0 <==> CountedDate(a) == CountedDate(b)
    ensures Distance(a, b) == Distance(b, a)
    ensures Distance(a, c) <= Distance(a, b) + Distance(b, c)
    ensures !InFirstCentury(a) && !InFirstCentury(b) ==>
              var x, y := a / 86_400_000, b / 86_400_000;
              Distance(a, b) == if x < y then y - x else x - y
  {
    hide DayOf;
    hide DateOf;
    hide Distance;
    hide Exists;
    hide CountedDate;
    hide InFirstCentury;
    DistanceOfDates(a, b);
    DistanceOfDates(b, a);
    DistanceOfDates(b, c);
    DistanceOfDates(a, c);
    DateRoundTrip(CountedDate(a));
    DateRoundTrip(CountedDate(b));
    if !InFirstCentury(a) && !InFirstCentury(b) {
      CountedOutside(a);
      CountedOutside(b);
    }
  }

  lemma {:induction false} CountedOutside(time: int)
    requires !InFirstCentury(time) && Exists(CountedDate(time))
    ensures DayOf(CountedDate(time)) == time / MS_PER_DAY
  {
    DayRoundTrip(time / MS_PER_DAY);
    hide DayOf;
    hide DateOf;
  }

  lemma {:induction false} LeapDayShift()
    ensures Exists(Date(0, 2, 29)) && Exists(Date(0, 3, 1))
    ensures DayOf(Date(0, 3, 1)) == DayOf(Date(0, 2, 29)) + 1 && UtcDay(Date(0, 3, 1)) == UtcDay(Date(0, 2, 29))
  {
  }

  // 29 February and 1 March of the year 0 are both counted as 1 March 1900.
  lemma {:induction false} LeapDayLost()
    ensures var a, b := DayOf(Date(0, 2, 29)) * MS_PER_DAY, DayOf(Date(0, 3, 1)) * MS_PER_DAY;
      b - a == MS_PER_DAY && Distance(a, b) == 0
  {
    hide DayOf;
    hide DateOf;
    hide UtcDay;
    hide Distance;
    LeapDayShift();
    var feb, mar := Date(0, 2, 29), Date(0, 3, 1);
    DateRoundTrip(feb);
    DateRoundTrip(mar);
    var x, y := DayOf(feb), DayOf(mar);
    DivUnique(x * MS_PER_DAY, MS_PER_DAY, x);
    DivUnique(y * MS_PER_DAY, MS_PER_DAY, y);
    DistanceCounts(x * MS_PER_DAY, y * MS_PER_DAY);
  }

  // An accepted release is within two days of now exactly when it is at most two days from today's date as that is
  // counted.
  lemma {:induction false} NearRelease(f: Fields, now: int)
    requires Matched(f) && Parse(f).Some?
    ensures Exists(CountedDate(now))
    ensures var day, today := DayOf(Parse(f).value.date), DayOf(CountedDate(now));
      Distance(UtcDay(Parse(f).value.date) * MS_PER_DAY, now) <= 2 <==> today - 2 <= day <= today + 2
  {
    AcceptedExactly(f);
    hide Exists;
    hide DayOf;
    hide DateOf;
    hide Distance;
    hide Matched;
    hide Value;
    var date := Parse(f).value.date;
    hide Parse;
    DateRoundTrip(date);
    DivUnique(UtcDay(date) * MS_PER_DAY, MS_PER_DAY, UtcDay(date));
    DistanceOfDates(UtcDay(date) * MS_PER_DAY, now);
  }
}
