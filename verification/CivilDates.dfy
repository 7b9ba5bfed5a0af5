/** The proleptic Gregorian calendar on day numbers, as `Date.UTC` and the `getUTC*` methods define it
    (section 21.4.1 of ECMA-262, 14th edition). Day 0 is 1970-01-01; months count from 0. */
module CivilDates {
  predicate Leap(y: int) {
    y % 4 == 0 && (y % 100 != 0 || y % 400 == 0)
  }

  function DayFromYear(y: int): int {
    365 * (y - 1970) + (y - 1969) / 4 - (y - 1901) / 100 + (y - 1601) / 400
  }

  function DaysInYear(y: int): int {
    if Leap(y) then 366 else 365
  }

  lemma FourYears(y: int)
    ensures (y + 1 - 1969) / 4 - (y - 1969) / 4 == if y % 4 == 0 then 1 else 0
  {
  }

  lemma HundredYears(y: int)
    ensures (y + 1 - 1901) / 100 - (y - 1901) / 100 == if y % 100 == 0 then 1 else 0
  {
  }

  lemma FourHundredYears(y: int)
    ensures (y + 1 - 1601) / 400 - (y - 1601) / 400 == if y % 400 == 0 then 1 else 0
  {
  }

  lemma CenturyDivisors(y: int)
    ensures y % 400 == 0 ==> y % 100 == 0
    ensures y % 100 == 0 ==> y % 4 == 0
  {
  }

  lemma YearStep(y: int)
    ensures DayFromYear(y + 1) == DayFromYear(y) + DaysInYear(y)
  {
    FourYears(y);
    HundredYears(y);
    FourHundredYears(y);
    CenturyDivisors(y);
  }

  lemma {:induction false} YearsAscend(y: int, z: int)
    requires y <= z
    ensures DayFromYear(z) - DayFromYear(y) >= 365 * (z - y)
    decreases z - y
  {
    hide DayFromYear;
    if y < z {
      YearsAscend(y, z - 1);
      YearStep(z - 1);
    }
  }

  function YearFrom(y: int, day: int): (r: int)
    requires DayFromYear(y) <= day
    ensures DayFromYear(r) <= day < DayFromYear(r + 1)
    decreases day - DayFromYear(y)
  {
    YearStep(y);
    if day < DayFromYear(y + 1) then y else YearFrom(y + 1, day)
  }

  /** The year a day falls in: the largest whose first day is not after it. */
  function YearOf(day: int): (y: int)
    ensures DayFromYear(y) <= day < DayFromYear(y + 1)
  {
    var guess := if day < 0 then 1970 + day / 365 else 1970 + day / 366;
    YearFrom(guess, day)
  }

  lemma YearIsUnique(day: int, y: int)
    requires DayFromYear(y) <= day < DayFromYear(y + 1)
    ensures YearOf(day) == y
  {
    hide DayFromYear, YearOf;
    var r := YearOf(day);
    if r < y { YearsAscend(r + 1, y); }
    if y < r { YearsAscend(y + 1, r); }
  }

  lemma YearsAreMonotone(a: int, b: int)
    requires a <= b
    ensures YearOf(a) <= YearOf(b)
  {
    hide DayFromYear, YearOf;
    if YearOf(b) < YearOf(a) { YearsAscend(YearOf(b) + 1, YearOf(a)); }
  }

  /** Days of the year before month `m`; month 12 stands for the end of the year. */
  function DaysBefore(m: int, leap: bool): int
    requires 0 <= m <= 12
  {
    var l := if leap then 1 else 0;
    match m
    case 0 => 0
    case 1 => 31
    case 2 => 59 + l
    case 3 => 90 + l
    case 4 => 120 + l
    case 5 => 151 + l
    case 6 => 181 + l
    case 7 => 212 + l
    case 8 => 243 + l
    case 9 => 273 + l
    case 10 => 304 + l
    case 11 => 334 + l
    case _ => 365 + l
  }

  function DaysInMonth(y: int, m: int): (n: nat)
    requires 0 <= m < 12
    ensures 28 <= n <= 31
  {
    DaysBefore(m + 1, Leap(y)) - DaysBefore(m, Leap(y))
  }

  function DayInYear(day: int): (d: int)
    ensures 0 <= d < DaysInYear(YearOf(day))
  {
    YearStep(YearOf(day));
    day - DayFromYear(YearOf(day))
  }

  function MonthOf(day: int): (m: int)
    ensures 0 <= m < 12
    ensures DaysBefore(m, Leap(YearOf(day))) <= DayInYear(day) < DaysBefore(m + 1, Leap(YearOf(day)))
  {
    var d, leap := DayInYear(day), Leap(YearOf(day));
    if d < DaysBefore(1, leap) then 0
    else if d < DaysBefore(2, leap) then 1
    else if d < DaysBefore(3, leap) then 2
    else if d < DaysBefore(4, leap) then 3
    else if d < DaysBefore(5, leap) then 4
    else if d < DaysBefore(6, leap) then 5
    else if d < DaysBefore(7, leap) then 6
    else if d < DaysBefore(8, leap) then 7
    else if d < DaysBefore(9, leap) then 8
    else if d < DaysBefore(10, leap) then 9
    else if d < DaysBefore(11, leap) then 10
    else 11
  }

  function DateOf(day: int): int {
    DayInYear(day) - DaysBefore(MonthOf(day), Leap(YearOf(day))) + 1
  }

  /** Fields out of range carry over: months into years, days into months. */
  function MakeDay(y: int, m: int, d: int): int {
    DayFromYear(y + m / 12) + DaysBefore(m % 12, Leap(y + m / 12)) + d - 1
  }

  /** `Date.UTC` reads the years 0 to 99 as 1900 to 1999. */
  function UtcYear(y: int): int {
    if 0 <= y <= 99 then 1900 + y else y
  }

  function Utc(y: int, m: int, d: int): int {
    MakeDay(UtcYear(y), m, d)
  }

  /** `setUTCDate`. */
  function SetDate(day: int, d: int): int {
    MakeDay(YearOf(day), MonthOf(day), d)
  }

  /** `getUTCDay`: 0 is Sunday. */
  function Weekday(day: int): (w: int)
    ensures 0 <= w < 7
  {
    (day + 4) % 7
  }

  /** Every day has exactly one civil date, and every civil date is exactly one day. */
  lemma FieldsOfDay(day: int)
    ensures 1 <= DateOf(day) <= DaysInMonth(YearOf(day), MonthOf(day))
    ensures MakeDay(YearOf(day), MonthOf(day), DateOf(day)) == day
  {
    hide DayFromYear, YearOf, Leap;
  }

  lemma DaysBeforeAscend(m: int, n: int, leap: bool)
    requires 0 <= m <= n <= 12
    ensures DaysBefore(m, leap) <= DaysBefore(n, leap)
  {
  }

  lemma DayOfFields(y: int, m: int, d: int)
    requires 0 <= m < 12 && 1 <= d <= DaysInMonth(y, m)
    ensures YearOf(MakeDay(y, m, d)) == y && MonthOf(MakeDay(y, m, d)) == m && DateOf(MakeDay(y, m, d)) == d
  {
    hide DayFromYear, YearOf, Leap, MonthOf;
    var day := MakeDay(y, m, d);
    assert m / 12 == 0 && m % 12 == m;
    YearStep(y);
    assert 0 <= day - DayFromYear(y) < DaysInYear(y);
    YearIsUnique(day, y);
    var n := MonthOf(day);
    if n < m { DaysBeforeAscend(n + 1, m, Leap(y)); }
    if m < n { DaysBeforeAscend(m + 1, n, Leap(y)); }
  }

  lemma SetDateShifts(day: int, k: int)
    ensures SetDate(day, DateOf(day) + k) == day + k
  {
    hide DayFromYear, YearOf, Leap, MonthOf;
    FieldsOfDay(day);
  }

  /** The months have the lengths everyone knows. */
  lemma MonthLengths(y: int, m: int)
    requires 0 <= m < 12
    ensures DaysInMonth(y, m) ==
        if m == 1 then (if y % 400 == 0 || (y % 4 == 0 && y % 100 != 0) then 29 else 28)
        else if m == 3 || m == 5 || m == 8 || m == 10 then 30 else 31
  {
    CenturyDivisors(y);
  }

  /** The day numbers start at 1 January 1970, a Thursday, and the weekdays follow one another from there. */
  lemma WeekdaysFollow(day: int)
    ensures YearOf(0) == 1970 && MonthOf(0) == 0 && DateOf(0) == 1 && Weekday(0) == 4
    ensures Weekday(day + 1) == if Weekday(day) == 6 then 0 else Weekday(day) + 1
    ensures Weekday(day + 7) == Weekday(day)
  {
    YearIsUnique(0, 1970);
    hide YearOf;
  }
}
