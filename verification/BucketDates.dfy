/** Report bucket dates as the strings the routes carry: validation, truncation, enumeration, viewports.

    `src/lib/analysis/report-bucket-date.ts` and `src/lib/analysis/report-calendar-viewport.ts`. */
module BucketDates {
  import opened Common
  import opened Decimals
  import opened CivilDates

  datatype PeriodKind = LIVE | DAILY | WEEKLY | MONTHLY

  const LIVE_BUCKET_DATE := "1970-01-01"

  /** The regular expression `^(\d{4})-(\d{2})-(\d{2})$`. */
  predicate Shape(s: string) {
    |s| == 10 && s[4] == '-' && s[7] == '-' && AllDigits(s[..4]) && AllDigits(s[5..7]) && AllDigits(s[8..])
  }

  /** The instant the three groups name, after normalisation. */
  function DayOf(s: string): int
    requires Shape(s)
  {
    Utc(Number(s[..4]), Number(s[5..7]) - 1, Number(s[8..]))
  }

  predicate IsValidBucketDate(s: string): (valid: bool)
    ensures valid ==> Shape(s)
  {
    Shape(s) &&
    var year, month, day := Number(s[..4]), Number(s[5..7]), Number(s[8..]);
    && 1 <= month <= 12 && 1 <= day <= 31
    && YearOf(DayOf(s)) == year && MonthOf(DayOf(s)) == month - 1 && DateOf(DayOf(s)) == day
  }

  function YearText(y: int): string {
    if y < 0 then "-" + Decimal(-y) else Decimal(y)
  }

  function Pad2(n: nat): string {
    if |Decimal(n)| < 2 then "0" + Decimal(n) else Decimal(n)
  }

  function FmtDay(day: int): string {
    FieldsOfDay(day);
    YearText(YearOf(day)) + "-" + Pad2(MonthOf(day) + 1) + "-" + Pad2(DateOf(day))
  }

  /** The calendar's own notation, independent of how the code builds it. */
  function Iso(day: int): string
    requires 0 <= YearOf(day) <= 9999
  {
    FieldsOfDay(day);
    Padded(YearOf(day), 4) + "-" + Padded(MonthOf(day) + 1, 2) + "-" + Padded(DateOf(day), 2)
  }

  // ---------------------------------------------------------------------------
  // Validation and order
  // ---------------------------------------------------------------------------

  lemma PowersOfTen()
    ensures Power(1) == 10 && Power(2) == 100 && Power(3) == 1000 && Power(4) == 10000
  {
    assert Power(0) == 1;
  }

  lemma MonthsAreShort(day: int)
    ensures 1 <= DateOf(day) <= 31
  {
    hide YearOf, MonthOf;
    FieldsOfDay(day);
  }

  lemma IsoParts(day: int)
    requires 0 <= YearOf(day) <= 9999
    ensures Shape(Iso(day))
    ensures Number(Iso(day)[..4]) == YearOf(day)
    ensures Number(Iso(day)[5..7]) == MonthOf(day) + 1
    ensures Number(Iso(day)[8..]) == DateOf(day)
  {
    hide YearOf, MonthOf, DateOf, Number, Padded, Power;
    FieldsOfDay(day);
    MonthsAreShort(day);
    PowersOfTen();
    var y, m, d := YearOf(day), MonthOf(day) + 1, DateOf(day);
    NumberOfPadded(y, 4);
    NumberOfPadded(m, 2);
    NumberOfPadded(d, 2);
    var s := Padded(y, 4) + "-" + Padded(m, 2) + "-" + Padded(d, 2);
    assert s[..4] == Padded(y, 4) && s[5..7] == Padded(m, 2) && s[8..] == Padded(d, 2);
  }

  lemma RemappedYearsFail(s: string)
    requires Shape(s) && 1 <= Number(s[5..7]) <= 12 && 1 <= Number(s[8..]) <= 31 && Number(s[..4]) < 100
    ensures YearOf(DayOf(s)) != Number(s[..4])
  {
    hide YearOf, MonthOf, DateOf, Number, DayFromYear;
    var y, m, d := 1900 + Number(s[..4]), Number(s[5..7]) - 1, Number(s[8..]);
    assert m / 12 == 0;
    var day := MakeDay(y, m, d);
    if YearOf(day) < y - 1 { YearsAscend(YearOf(day) + 1, y); }
  }

  /** The check accepts exactly the calendar's own notation of the days from the year 100 on: `Date.UTC`
      moves the years 0 to 99 into the twentieth century, so their dates do not survive the round trip. */
  lemma ValidDatesAreIso(s: string)
    requires IsValidBucketDate(s)
    ensures 100 <= YearOf(DayOf(s)) <= 9999 && Iso(DayOf(s)) == s
  {
    hide YearOf, MonthOf, DateOf, Number, Padded, MakeDay, Power;
    var y, m, d := s[..4], s[5..7], s[8..];
    PaddedOfNumber(y);
    PaddedOfNumber(m);
    PaddedOfNumber(d);
    PowersOfTen();
    if Number(y) < 100 { RemappedYearsFail(s); }
    assert s == y + "-" + m + "-" + d;
  }

  lemma IsoIsValid(day: int)
    requires 100 <= YearOf(day) <= 9999
    ensures IsValidBucketDate(Iso(day)) && DayOf(Iso(day)) == day
  {
    hide YearOf, MonthOf, DateOf, Number, Padded, MakeDay, Iso;
    IsoParts(day);
    FieldsOfDay(day);
    MonthsAreShort(day);
  }

  lemma FieldsOrder(a: int, b: int)
    ensures a < b <==>
            || YearOf(a) < YearOf(b)
            || (YearOf(a) == YearOf(b) && MonthOf(a) < MonthOf(b))
            || (YearOf(a) == YearOf(b) && MonthOf(a) == MonthOf(b) && DateOf(a) < DateOf(b))
  {
    hide YearOf, MonthOf, DayFromYear, Leap;
    if a < b { YearsAreMonotone(a, b); } else { YearsAreMonotone(b, a); }
    if YearOf(a) == YearOf(b) {
      if MonthOf(a) < MonthOf(b) { DaysBeforeAscend(MonthOf(a) + 1, MonthOf(b), Leap(YearOf(a))); }
      if MonthOf(b) < MonthOf(a) { DaysBeforeAscend(MonthOf(b) + 1, MonthOf(a), Leap(YearOf(a))); }
    }
  }

  lemma IsoInjective(a: int, b: int)
    requires 0 <= YearOf(a) <= 9999 && 0 <= YearOf(b) <= 9999 && Iso(a) == Iso(b)
    ensures a == b
  {
    hide YearOf, MonthOf, DateOf, Iso, MakeDay;
    IsoParts(a);
    IsoParts(b);
    FieldsOfDay(a);
    FieldsOfDay(b);
  }

  lemma DashedOrder(a: string, b: string, c: string, d: string)
    requires |a| == |c|
    ensures Less(a + "-" + b, c + "-" + d) <==> Less(a, c) || (a == c && Less(b, d))
  {
    LessByParts(a, "-" + b, c, "-" + d);
    LessByParts("-", b, "-", d);
    assert !Less("-", "-");
    assert a + "-" + b == a + ("-" + b) && c + "-" + d == c + ("-" + d);
  }

  /** Comparing the strings is comparing the days: every `<` and `>` on bucket dates rests on this. */
  lemma StringOrderIsDateOrder(a: int, b: int)
    requires 0 <= YearOf(a) <= 9999 && 0 <= YearOf(b) <= 9999
    ensures Less(Iso(a), Iso(b)) <==> a < b
    ensures Iso(a) == Iso(b) <==> a == b
  {
    hide YearOf, MonthOf, DateOf, Number, Padded, MakeDay, Less, Power;
    FieldsOfDay(a);
    FieldsOfDay(b);
    MonthsAreShort(a);
    MonthsAreShort(b);
    PowersOfTen();
    FieldsOrder(a, b);
    FieldsOrder(b, a);
    var ya, ma, da := Padded(YearOf(a), 4), Padded(MonthOf(a) + 1, 2), Padded(DateOf(a), 2);
    var yb, mb, db := Padded(YearOf(b), 4), Padded(MonthOf(b) + 1, 2), Padded(DateOf(b), 2);
    PaddedOrder(YearOf(a), YearOf(b), 4);
    PaddedOrder(MonthOf(a) + 1, MonthOf(b) + 1, 2);
    PaddedOrder(DateOf(a), DateOf(b), 2);
    DashedOrder(ya, ma + "-" + da, yb, mb + "-" + db);
    DashedOrder(ma, da, mb, db);
    assert Iso(a) == ya + "-" + (ma + "-" + da) && Iso(b) == yb + "-" + (mb + "-" + db);
    if Iso(a) == Iso(b) { IsoInjective(a, b); }
  }

  lemma Pad2IsPadded(n: nat)
    requires n < 100
    ensures Pad2(n) == Padded(n, 2)
  {
    PowersOfTen();
    DecimalWidth(n, 1);
    DecimalWidth(n, 2);
    if n < 10 {
      assert Padded(0, 1) == Padded(0, 0) + [DigitChar(0)];
      assert Padded(n, 2) == Padded(n / 10, 1) + [DigitChar(n % 10)];
    }
  }

  lemma WrongShape(s: string)
    requires |s| != 10 || s[0] == '-'
    ensures !IsValidBucketDate(s)
  {
    if |s| == 10 { assert s[..4][0] == '-'; }
  }

  /** The code formats a day into the calendar's notation exactly when its year has four digits; otherwise
      what it builds is not a bucket date at all. */
  lemma FmtDayIsIso(day: int)
    ensures 1000 <= YearOf(day) <= 9999 ==> FmtDay(day) == Iso(day)
    ensures IsValidBucketDate(FmtDay(day)) <==> 1000 <= YearOf(day) <= 9999
  {
    hide YearOf, MonthOf, DateOf, Number, Padded, MakeDay, Decimal, Power, IsValidBucketDate;
    FieldsOfDay(day);
    MonthsAreShort(day);
    PowersOfTen();
    var y := YearOf(day);
    Pad2IsPadded(MonthOf(day) + 1);
    Pad2IsPadded(DateOf(day));
    if 1000 <= y <= 9999 {
      DecimalWidth(y, 3);
      DecimalWidth(y, 4);
      IsoIsValid(day);
    } else if y >= 0 {
      DecimalWidth(y, 3);
      DecimalWidth(y, 4);
      assert |FmtDay(day)| != 10;
      WrongShape(FmtDay(day));
    } else {
      assert FmtDay(day)[0] == '-';
      WrongShape(FmtDay(day));
    }
  }

  // ---------------------------------------------------------------------------
  // The bucket a day belongs to
  // ---------------------------------------------------------------------------

  function DaysSinceMonday(day: int): int {
    if Weekday(day) == 0 then 6 else Weekday(day) - 1
  }

  function MondayOf(day: int): int {
    SetDate(day, DateOf(day) - DaysSinceMonday(day))
  }

  /** `periodBucketDate`. */
  function PeriodBucketDate(period: PeriodKind, reference: string): Option<string> {
    if period.LIVE? then Some(LIVE_BUCKET_DATE)
    else if !IsValidBucketDate(reference) then None
    else if period.DAILY? then Some(reference)
    else if period.MONTHLY? then Some(reference[..4] + "-" + reference[5..7] + "-01")
    else Some(FmtDay(MondayOf(DayOf(reference))))
  }

  /** `start` opens a bucket of the period. */
  predicate IsStart(period: PeriodKind, start: int) {
    match period
    case LIVE => start == 0
    case DAILY => true
    case WEEKLY => Weekday(start) == 1
    case MONTHLY => DateOf(start) == 1
  }

  /** `day` belongs to the bucket that opens at `start`. */
  predicate InBucket(period: PeriodKind, start: int, day: int) {
    IsStart(period, start) &&
    match period
    case LIVE => true
    case DAILY => day == start
    case WEEKLY => start <= day < start + 7
    case MONTHLY => YearOf(day) == YearOf(start) && MonthOf(day) == MonthOf(start)
  }

  /** Days fall into exactly one bucket. */
  lemma BucketsPartitionDays(period: PeriodKind, a: int, b: int, day: int)
    requires !period.LIVE? && InBucket(period, a, day) && InBucket(period, b, day)
    ensures a == b
  {
    hide YearOf, MonthOf, DateOf, DaysBefore, DayInYear, DaysInYear, Leap, MakeDay, DayFromYear, DaysInMonth;
    if period.MONTHLY? {
      hide Weekday;
      FieldsOfDay(a);
      FieldsOfDay(b);
    }
  }

  lemma FirstOfMonth(day: int)
    ensures var first := MakeDay(YearOf(day), MonthOf(day), 1);
      YearOf(first) == YearOf(day) && MonthOf(first) == MonthOf(day) && DateOf(first) == 1
  {
    hide YearOf, MonthOf, DateOf, DaysBefore, DayInYear, DaysInYear, Leap, MakeDay, DayFromYear;
    FieldsOfDay(day);
    DayOfFields(YearOf(day), MonthOf(day), 1);
  }

  lemma MondayIsBack(day: int)
    ensures 0 <= DaysSinceMonday(day) < 7 && Weekday(day - DaysSinceMonday(day)) == 1
  {
    hide YearOf, MonthOf, DateOf, DayFromYear;
  }

  lemma MondayNotAfter(day: int)
    ensures MondayOf(day) <= day < MondayOf(day) + 7 && Weekday(MondayOf(day)) == 1
  {
    hide YearOf, MonthOf, DateOf, DaysBefore, DayInYear, DaysInYear, Leap, SetDate, DayFromYear, Weekday,
      DaysSinceMonday;
    SetDateShifts(day, -DaysSinceMonday(day));
    MondayIsBack(day);
  }

  function StartOf(period: PeriodKind, day: int): (start: int) {
    match period
    case LIVE => 0
    case DAILY => day
    case WEEKLY => MondayOf(day)
    case MONTHLY => MakeDay(YearOf(day), MonthOf(day), 1)
  }

  lemma StartContainsDay(period: PeriodKind, day: int)
    ensures InBucket(period, StartOf(period, day), day)
  {
    hide YearOf, MonthOf, DateOf, DaysBefore, DayInYear, DaysInYear, Leap, MakeDay, MondayOf, Weekday, DayFromYear;
    FirstOfMonth(day);
    MondayNotAfter(day);
  }

  lemma PadOne()
    ensures Padded(1, 2) == "01"
  {
    assert Padded(0, 1) == Padded(0, 0) + [DigitChar(0)];
  }

  lemma FirstText(day: int, first: int)
    requires 0 <= YearOf(day) <= 9999
    requires YearOf(first) == YearOf(day) && MonthOf(first) == MonthOf(day) && DateOf(first) == 1
    ensures Iso(first) == Iso(day)[..4] + "-" + Iso(day)[5..7] + "-01"
  {
    hide YearOf, MonthOf, DateOf, DaysBefore, DayInYear, DaysInYear, Leap, Padded, MakeDay, DayFromYear, DaysInMonth;
    FieldsOfDay(day);
    PadOne();
    var y, m, d := Padded(YearOf(day), 4), Padded(MonthOf(day) + 1, 2), Padded(DateOf(day), 2);
    assert Iso(day) == y + "-" + m + "-" + d;
    assert Iso(day)[..4] == y && Iso(day)[5..7] == m;
  }

  lemma IsoOfFirst(s: string)
    requires IsValidBucketDate(s)
    ensures 100 <= YearOf(StartOf(MONTHLY, DayOf(s))) == YearOf(DayOf(s)) <= 9999
    ensures Iso(StartOf(MONTHLY, DayOf(s))) == s[..4] + "-" + s[5..7] + "-01"
  {
    hide YearOf, MonthOf, DateOf, DaysBefore, DayInYear, DaysInYear, Leap, MakeDay, DayFromYear, IsValidBucketDate,
      Iso, DayOf;
    ValidDatesAreIso(s);
    FirstOfMonth(DayOf(s));
    FirstText(DayOf(s), StartOf(MONTHLY, DayOf(s)));
  }

  lemma WeekText(day: int)
    requires YearOf(day) <= 9999
    ensures var b := FmtDay(MondayOf(day));
      && (IsValidBucketDate(b) <==> 1000 <= YearOf(MondayOf(day)))
      && (IsValidBucketDate(b) ==>
           0 <= YearOf(MondayOf(day)) <= 9999 && DayOf(b) == MondayOf(day) && b == Iso(MondayOf(day)))
  {
    hide YearOf, MonthOf, DateOf, DaysBefore, DayInYear, DaysInYear, Leap, MondayOf, DayFromYear, Weekday, FmtDay,
      Iso, IsValidBucketDate, DayOf;
    MondayNotAfter(day);
    YearsAreMonotone(MondayOf(day), day);
    FmtDayIsIso(MondayOf(day));
    if 1000 <= YearOf(MondayOf(day)) { IsoIsValid(MondayOf(day)); }
  }

  /** The bucket date of a day is the bucket that contains it, written in the calendar's notation; a week
      whose Monday precedes the year 1000 is the only case where it is not a valid date. */
  lemma BucketContainsItsDay(period: PeriodKind, s: string)
    requires !period.LIVE? && IsValidBucketDate(s)
    ensures var b, start := PeriodBucketDate(period, s), StartOf(period, DayOf(s));
      && b.Some? && InBucket(period, start, DayOf(s))
      && (IsValidBucketDate(b.value) <==> period.WEEKLY? ==> 1000 <= YearOf(start))
      && (IsValidBucketDate(b.value) ==> 0 <= YearOf(start) <= 9999 && DayOf(b.value) == start && b.value == Iso(start))
  {
    hide YearOf, MonthOf, DateOf, DaysBefore, DayInYear, DaysInYear, Leap, MakeDay, MondayOf, DayFromYear, Weekday,
      FmtDay, Iso, IsValidBucketDate, InBucket, DayOf;
    var day := DayOf(s);
    ValidDatesAreIso(s);
    StartContainsDay(period, day);
    var start := StartOf(period, day);
    match period
    case DAILY =>
    case MONTHLY =>
      IsoOfFirst(s);
      IsoIsValid(start);
    case WEEKLY =>
      WeekText(day);
  }

  /** `addCalendarDays`. */
  function AddCalendarDays(date: string, days: int): string {
    if !IsValidBucketDate(date) then date
    else FmtDay(SetDate(DayOf(date), DateOf(DayOf(date)) + days))
  }

  /** The LIVE bucket has one date, whatever the reference, and no other period truncates what is no date. */
  lemma LiveBucketIsFixed(period: PeriodKind, s: string)
    ensures PeriodBucketDate(LIVE, s) == Some("1970-01-01")
    ensures period != LIVE ==> (PeriodBucketDate(period, s).None? <==> !IsValidBucketDate(s))
    ensures !IsValidBucketDate(s) ==> forall k :: AddCalendarDays(s, k) == s
  {
    hide IsValidBucketDate;
  }

  lemma StartIsInItself(period: PeriodKind, start: int)
    requires !period.LIVE? && IsStart(period, start)
    ensures InBucket(period, start, start)
  {
  }

  lemma StartOfStart(period: PeriodKind, day: int)
    requires !period.LIVE?
    ensures StartOf(period, StartOf(period, day)) == StartOf(period, day)
  {
    var start := StartOf(period, day);
    StartContainsDay(period, day);
    StartContainsDay(period, start);
    StartIsInItself(period, start);
    hide *;
    BucketsPartitionDays(period, start, StartOf(period, start), start);
  }

  lemma StartOfWeekly(day: int)
    ensures StartOf(WEEKLY, day) == MondayOf(day)
  {
  }

  /** Truncating a bucket date again changes nothing. */
  lemma TruncationIsIdempotent(period: PeriodKind, s: string, b: string)
    requires !period.LIVE? && IsValidBucketDate(s) && PeriodBucketDate(period, s) == Some(b) && IsValidBucketDate(b)
    ensures PeriodBucketDate(period, b) == Some(b)
  {
    hide YearOf, MonthOf, DateOf, DaysBefore, DayInYear, DaysInYear, Leap, MakeDay, MondayOf, DayFromYear, FmtDay,
      Iso, IsValidBucketDate, InBucket, DayOf, StartOf;
    BucketContainsItsDay(period, s);
    StartOfStart(period, DayOf(s));
    match period
    case DAILY =>
    case MONTHLY =>
      IsoOfFirst(s);
      IsoOfFirst(b);
    case WEEKLY =>
      StartOfWeekly(DayOf(s));
      StartOfWeekly(DayOf(b));
  }

  /** Going there and back returns the same string exactly when both days have four-digit years; outside
      them the first step already leaves the notation, and the second passes it through. */
  lemma AddingBackUndoes(s: string, k: int)
    requires IsValidBucketDate(s)
    ensures AddCalendarDays(AddCalendarDays(s, k), -k) == s
            <==> 1000 <= YearOf(DayOf(s)) && 1000 <= YearOf(DayOf(s) + k) <= 9999
    ensures 1000 <= YearOf(DayOf(s) + k) <= 9999 ==>
              IsValidBucketDate(AddCalendarDays(s, k)) && DayOf(AddCalendarDays(s, k)) == DayOf(s) + k
  {
    hide YearOf, MonthOf, DateOf, DaysBefore, DayInYear, DaysInYear, Leap, SetDate, DayFromYear, FmtDay, Iso,
      IsValidBucketDate, DayOf;
    var day := DayOf(s);
    SetDateShifts(day, k);
    SetDateShifts(day + k, -k);
    ValidDatesAreIso(s);
    FmtDayIsIso(day + k);
    FmtDayIsIso(day);
    if 1000 <= YearOf(day + k) <= 9999 { IsoIsValid(day + k); }
  }

  // ---------------------------------------------------------------------------
  // Enumeration
  // ---------------------------------------------------------------------------

  function Formatted(days: seq<int>): seq<string> {
    seq(|days|, i requires 0 <= i < |days| => FmtDay(days[i]))
  }

  function FirstMonday(year: int): int {
    var jan1 := DayFromYear(year);
    jan1 + (8 - Weekday(jan1)) % 7
  }

  function WeekCount(year: int): (n: nat)
    ensures 52 <= n <= 53
  {
    YearStep(year);
    (DayFromYear(year + 1) - 1 - FirstMonday(year)) / 7 + 1
  }

  function Mondays(year: int): seq<int> {
    seq(WeekCount(year), i => FirstMonday(year) + 7 * i)
  }

  lemma BeforeYear(year: int, day: int)
    requires day < DayFromYear(year)
    ensures YearOf(day) < year
  {
    hide YearOf, Leap, DayFromYear;
    YearStep(year - 1);
    YearIsUnique(DayFromYear(year) - 1, year - 1);
    YearsAreMonotone(day, DayFromYear(year) - 1);
  }

  lemma InYearIffBetween(year: int, day: int)
    ensures YearOf(day) == year <==> DayFromYear(year) <= day < DayFromYear(year + 1)
    ensures YearOf(day) <= year <==> day < DayFromYear(year + 1)
  {
    hide YearOf, Leap, DayFromYear;
    YearStep(year);
    YearStep(year + 1);
    YearIsUnique(DayFromYear(year + 1), year + 1);
    if DayFromYear(year) <= day < DayFromYear(year + 1) { YearIsUnique(day, year); }
    if day >= DayFromYear(year + 1) { YearsAreMonotone(DayFromYear(year + 1), day); }
    if day < DayFromYear(year) { BeforeYear(year, day); }
  }

  lemma MondayIndex(year: int, i: int)
    ensures YearOf(FirstMonday(year) + 7 * i) == year <==> 0 <= i < WeekCount(year)
    ensures YearOf(FirstMonday(year) + 7 * i) <= year <==> i < WeekCount(year)
  {
    InYearIffBetween(year, FirstMonday(year) + 7 * i);
    hide YearOf, Leap, DayFromYear;
  }

  lemma StartOfYear(year: int)
    ensures MakeDay(year, 0, 1) == DayFromYear(year)
    ensures MondayOf(DayFromYear(year)) == FirstMonday(year) || MondayOf(DayFromYear(year)) == FirstMonday(year) - 7
    ensures YearOf(MondayOf(DayFromYear(year))) >= year - 1
  {
    hide YearOf, MonthOf, DateOf, DayInYear, Leap, DayFromYear, MondayOf;
    MondayNotAfter(DayFromYear(year));
    YearStep(year - 1);
    var m := MondayOf(DayFromYear(year));
    YearsAreMonotone(DayFromYear(year - 1), m);
    YearIsUnique(DayFromYear(year - 1), year - 1);
  }

  /** `enumerateYearWeeks`: the Mondays of the year; none for the years `Date.UTC` moves elsewhere. */
  method EnumerateYearWeeks(year: int) returns (weeks: seq<string>)
    ensures weeks == if 0 <= year <= 99 then [] else Formatted(Mondays(year))
  {
    hide YearOf, MonthOf, DateOf, DaysBefore, DayInYear, DaysInYear, Leap, DayFromYear, MondayOf, MakeDay, SetDate,
      FirstMonday, WeekCount, FmtDay;
    var jan1 := Utc(year, 0, 1);
    var cursor := MondayOf(jan1);
    weeks := [];
    ghost var first, i := FirstMonday(UtcYear(year)), 0;
    StartOfYear(UtcYear(year));
    if cursor < first { i := -1; }
    if !(0 <= year <= 99) { MondayIndex(year, i); }
    while YearOf(cursor) <= year
      invariant i >= -1 && cursor == first + 7 * i
      invariant 0 <= year <= 99 ==> weeks == [] && YearOf(cursor) > year
      invariant !(0 <= year <= 99) ==> i <= WeekCount(year)
      invariant !(0 <= year <= 99) ==> weeks == Formatted(Mondays(year)[..if i < 0 then 0 else i])
      decreases WeekCount(year) - i
    {
      MondayIndex(year, i);
      if YearOf(cursor) == year {
        assert Mondays(year)[..i + 1] == Mondays(year)[..i] + [cursor];
        weeks := weeks + [FmtDay(cursor)];
      }
      SetDateShifts(cursor, 7);
      cursor := SetDate(cursor, DateOf(cursor) + 7);
      i := i + 1;
    }
    if !(0 <= year <= 99) {
      MondayIndex(year, i);
      assert Mondays(year)[..WeekCount(year)] == Mondays(year);
    }
  }

  function MonthDays(year: int, month: int): seq<int>
    requires 1 <= month <= 12
  {
    seq(DaysInMonth(year, month - 1), i => MakeDay(year, month - 1, i + 1))
  }

  function MonthStarts(year: int): seq<int> {
    seq(12, i => MakeDay(year, i, 1))
  }

  function DayText(year: int, month: nat, day: nat): string {
    YearText(year) + "-" + Pad2(month) + "-" + Pad2(day)
  }

  lemma LastOfMonth(year: int, month: int)
    requires 1 <= month <= 12
    ensures DateOf(MakeDay(year, month, 0)) == DaysInMonth(year, month - 1)
  {
    hide YearOf, MonthOf, DateOf, DayFromYear, Leap;
    YearStep(year);
    DayOfFields(year, month - 1, DaysInMonth(year, month - 1));
    assert MakeDay(year, month, 0) == MakeDay(year, month - 1, DaysInMonth(year, month - 1));
  }

  /** `enumerateMonthDays`: the count is read off the day before the next month. */
  method EnumerateMonthDays(year: int, month: int) returns (days: seq<string>)
    requires 1 <= month <= 12
    ensures |days| == DaysInMonth(UtcYear(year), month - 1)
    ensures forall i :: 0 <= i < |days| ==> days[i] == DayText(year, month, i + 1)
  {
    hide YearOf, MonthOf, DateOf, DayFromYear, MakeDay, Leap, DayText;
    days := [];
    var count := DateOf(Utc(year, month, 0));
    LastOfMonth(UtcYear(year), month);
    var day := 1;
    while day <= count
      invariant 1 <= day <= count + 1 && |days| == day - 1
      invariant forall i :: 0 <= i < |days| ==> days[i] == DayText(year, month, i + 1)
    {
      days := days + [DayText(year, month, day)];
      day := day + 1;
    }
  }

  /** `enumerateYearMonths`. */
  method EnumerateYearMonths(year: int) returns (months: seq<string>)
    ensures |months| == 12 && forall i :: 0 <= i < 12 ==> months[i] == YearText(year) + "-" + Pad2(i + 1) + "-01"
  {
    months := [];
    var m := 1;
    while m <= 12
      invariant 1 <= m <= 13 && |months| == m - 1
      invariant forall i :: 0 <= i < |months| ==> months[i] == YearText(year) + "-" + Pad2(i + 1) + "-01"
    {
      months := months + [YearText(year) + "-" + Pad2(m) + "-01"];
      m := m + 1;
    }
  }

  lemma DayTextIsFmt(year: int, month: int, day: int)
    requires 1 <= month <= 12 && 1 <= day <= DaysInMonth(year, month - 1)
    ensures FmtDay(MakeDay(year, month - 1, day)) == DayText(year, month, day)
  {
    hide YearOf, MonthOf, DateOf, DayFromYear, MakeDay, Leap, DaysBefore, DaysInMonth;
    DayOfFields(year, month - 1, day);
  }

  // ---------------------------------------------------------------------------
  // Viewports
  // ---------------------------------------------------------------------------

  datatype Viewport = MonthView(year: int, month: int) | YearView(year: int)

  /** The bucket starts a viewport shows, as days. */
  function ViewDays(period: PeriodKind, v: Viewport): seq<int> {
    if period.DAILY? then (if v.MonthView? && 1 <= v.month <= 12 then MonthDays(v.year, v.month) else [])
    else if v.MonthView? then []
    else if period.MONTHLY? then MonthStarts(v.year)
    else Mondays(v.year)
  }

  /** The viewport of a day's bucket. */
  function ViewOf(period: PeriodKind, day: int): Viewport {
    if period.DAILY? then MonthView(YearOf(day), MonthOf(day) + 1) else YearView(YearOf(day))
  }

  lemma MonthShowsDay(year: int, month: int, day: int)
    requires 1 <= month <= 12
    ensures day in MonthDays(year, month) <==> YearOf(day) == year && MonthOf(day) == month - 1
  {
    hide YearOf, MonthOf, DateOf, DayFromYear, MakeDay, Leap, DaysBefore, DaysInMonth;
    var days := MonthDays(year, month);
    if day in days {
      var i :| 0 <= i < |days| && days[i] == day;
      DayOfFields(year, month - 1, i + 1);
    }
    if YearOf(day) == year && MonthOf(day) == month - 1 {
      FieldsOfDay(day);
      assert days[DateOf(day) - 1] == day;
    }
  }

  lemma YearShowsFirst(year: int, day: int)
    ensures day in MonthStarts(year) <==> YearOf(day) == year && DateOf(day) == 1
  {
    hide YearOf, MonthOf, DateOf, DayFromYear, MakeDay, Leap, DaysInMonth;
    if day in MonthStarts(year) {
      var i :| 0 <= i < 12 && MonthStarts(year)[i] == day;
      DayOfFields(year, i, 1);
    }
    if YearOf(day) == year && DateOf(day) == 1 {
      FieldsOfDay(day);
      assert MonthStarts(year)[MonthOf(day)] == day;
    }
  }

  lemma YearShowsMonday(year: int, day: int)
    ensures day in Mondays(year) <==> YearOf(day) == year && Weekday(day) == 1
  {
    hide YearOf, DayFromYear, Leap, WeekCount;
    if day in Mondays(year) {
      var i :| 0 <= i < WeekCount(year) && Mondays(year)[i] == day;
      MondayIndex(year, i);
    }
    if YearOf(day) == year && Weekday(day) == 1 {
      assert (day - FirstMonday(year)) % 7 == 0;
      var i := (day - FirstMonday(year)) / 7;
      MondayIndex(year, i);
      assert Mondays(year)[i] == day;
    }
  }

  /** A viewport shows exactly the bucket starts that belong to it ... */
  lemma ViewShowsItsStarts(period: PeriodKind, v: Viewport, day: int)
    requires !period.LIVE?
    ensures day in ViewDays(period, v) <==> IsStart(period, day) && ViewOf(period, day) == v
  {
    hide YearOf, MonthOf, DateOf, DayFromYear, MakeDay, Leap, DaysBefore, DaysInMonth, FirstMonday, WeekCount, Weekday;
    if period.DAILY? {
      FieldsOfDay(day);
      if v.MonthView? && 1 <= v.month <= 12 { MonthShowsDay(v.year, v.month, day); }
    } else if v.YearView? && period.MONTHLY? {
      YearShowsFirst(v.year, day);
    } else if v.YearView? {
      YearShowsMonday(v.year, day);
    }
  }

  /** ... each once, in ascending order. */
  lemma ViewAscends(period: PeriodKind, v: Viewport, i: int, j: int)
    requires 0 <= i < j < |ViewDays(period, v)|
    ensures ViewDays(period, v)[i] < ViewDays(period, v)[j]
  {
    hide YearOf, DayFromYear, Leap, FirstMonday, WeekCount, DaysBefore;
    if period.MONTHLY? && v.YearView? {
      assert DaysInMonth(v.year, i) > 0;
      DaysBeforeAscend(i + 1, j, Leap(v.year));
      assert i / 12 == 0 && j / 12 == 0 && i % 12 == i && j % 12 == j;
    }
  }

  /** `Date.UTC` moves the years 0 to 99 into the twentieth century: their weeks drop out of the list, and
      the February of the year 0 loses its leap day, since 1900 has none. */
  function ListedDays(period: PeriodKind, v: Viewport): seq<int> {
    var days := ViewDays(period, v);
    if period.WEEKLY? && 0 <= v.year <= 99 then []
    else if period.DAILY? && |days| == 29 && v.year == 0 then days[..28]
    else days
  }

  lemma ListedLeapDay(year: int, month: int)
    requires 1 <= month <= 12
    ensures DaysInMonth(UtcYear(year), month - 1)
         == if year == 0 && DaysInMonth(year, month - 1) == 29 then 28 else DaysInMonth(year, month - 1)
    ensures month == 2 && year == 0 <==> year == 0 && DaysInMonth(year, month - 1) == 29
  {
  }

  /** What the century remap loses of a viewport. */
  lemma ListedLoses(period: PeriodKind, v: Viewport)
    requires !period.LIVE? && (v.MonthView? ==> 1 <= v.month <= 12)
    ensures ListedDays(period, v) == ViewDays(period, v) <==>
              || v.MonthView? != period.DAILY?
              || !(0 <= v.year <= 99 && (period.WEEKLY? || (period.DAILY? && v.year == 0 && v.month == 2)))
  {
    hide YearOf, MonthOf, DateOf, DayFromYear, MakeDay, Leap, DaysInMonth, DaysBefore, FirstMonday, WeekCount;
    if v.MonthView? {
      ListedLeapDay(v.year, v.month);
    } else {
      assert |Mondays(v.year)| >= 52;
    }
  }

  lemma MonthDaysListed(year: int, month: int, texts: seq<string>)
    requires 1 <= month <= 12 && |texts| == DaysInMonth(UtcYear(year), month - 1)
    requires forall i :: 0 <= i < |texts| ==> texts[i] == DayText(year, month, i + 1)
    ensures texts == Formatted(ListedDays(DAILY, MonthView(year, month)))
  {
    hide YearOf, MonthOf, DateOf, DayFromYear, MakeDay, Leap, DaysInMonth, DaysBefore, FmtDay, UtcYear, DayText;
    ListedLeapDay(year, month);
    forall i | 0 <= i < |texts|
      ensures texts[i] == Formatted(ListedDays(DAILY, MonthView(year, month)))[i]
    {
      DayTextIsFmt(year, month, i + 1);
    }
  }

  lemma YearMonthsListed(year: int, texts: seq<string>)
    requires |texts| == 12
    requires forall i :: 0 <= i < 12 ==> texts[i] == YearText(year) + "-" + Pad2(i + 1) + "-01"
    ensures texts == Formatted(ListedDays(MONTHLY, YearView(year)))
  {
    hide YearOf, MonthOf, DateOf, DayFromYear, MakeDay, Leap, DaysInMonth, DaysBefore, FmtDay, YearText, Pad2;
    forall i | 0 <= i < 12
      ensures texts[i] == Formatted(ListedDays(MONTHLY, YearView(year)))[i]
    {
      DayTextIsFmt(year, i + 1, 1);
      Pad2IsPadded(1);
      PadOne();
    }
  }

  /** `enumerateViewport`, in terms of the three enumerators: the bucket starts of the viewport, formatted,
      from the year 100 on; below it the starts that survive the century remap. */
  method EnumerateViewport(period: PeriodKind, v: Viewport) returns (buckets: seq<string>)
    requires !period.LIVE? && (v.MonthView? ==> 1 <= v.month <= 12)
    ensures buckets == Formatted(ListedDays(period, v))
    ensures ListedDays(period, v) == ViewDays(period, v) <==>
              || v.MonthView? != period.DAILY?
              || !(0 <= v.year <= 99 && (period.WEEKLY? || (period.DAILY? && v.year == 0 && v.month == 2)))
  {
    hide YearOf, MonthOf, DateOf, DayFromYear, MakeDay, Leap, DaysInMonth, DaysBefore, FirstMonday, WeekCount, FmtDay,
      UtcYear, DayText, YearText, Pad2;
    ListedLoses(period, v);
    buckets := [];
    if period.DAILY? {
      if v.MonthView? {
        buckets := EnumerateMonthDays(v.year, v.month);
        MonthDaysListed(v.year, v.month, buckets);
      }
    } else if v.YearView? {
      if period.MONTHLY? {
        buckets := EnumerateYearMonths(v.year);
        YearMonthsListed(v.year, buckets);
      } else {
        buckets := EnumerateYearWeeks(v.year);
      }
    }
  }

  /** `viewportFromBucketDate`. */
  function ViewportFromBucketDate(period: PeriodKind, s: string): Viewport
    requires Shape(s)
  {
    if period.DAILY? then MonthView(Number(s[..4]), Number(s[5..7])) else YearView(Number(s[..4]))
  }

  function IndexCount(s: seq<string>, x: string): nat {
    if s == [] then 0 else (if s[0] == x then 1 else 0) + IndexCount(s[1..], x)
  }

  lemma {:induction false} CountNone(s: seq<string>, x: string)
    requires forall i :: 0 <= i < |s| ==> s[i] != x
    ensures IndexCount(s, x) == 0
  {
    if s != [] {
      assert forall i :: 0 <= i < |s[1..]| ==> s[1..][i] == s[i + 1];
      CountNone(s[1..], x);
    }
  }

  lemma {:induction false} CountOnce(s: seq<string>, k: nat)
    requires k < |s| && forall i :: 0 <= i < |s| && i != k ==> s[i] != s[k]
    ensures IndexCount(s, s[k]) == 1
  {
    if k == 0 {
      CountNone(s[1..], s[0]);
    } else {
      assert forall i :: 0 <= i < |s[1..]| ==> s[1..][i] == s[i + 1];
      CountOnce(s[1..], k - 1);
    }
  }

  lemma IsoViewport(period: PeriodKind, day: int)
    requires 0 <= YearOf(day) <= 9999
    ensures Shape(Iso(day)) && ViewportFromBucketDate(period, Iso(day)) == ViewOf(period, day)
  {
    hide YearOf, MonthOf, DateOf, Iso, Number;
    IsoParts(day);
  }

  lemma FmtDistinct(a: int, b: int)
    requires a != b && 1000 <= YearOf(b) <= 9999
    ensures FmtDay(a) != FmtDay(b)
  {
    hide YearOf, MonthOf, DateOf, FmtDay, Iso, IsValidBucketDate;
    FmtDayIsIso(a);
    FmtDayIsIso(b);
    if 1000 <= YearOf(a) <= 9999 && Iso(a) == Iso(b) { IsoInjective(a, b); }
  }

  /** Opening the calendar from a report shows the report's bucket: the bucket of any valid date whose
      bucket year has four digits is listed exactly once by the viewport it opens. */
  lemma BucketLiesInItsViewport(period: PeriodKind, s: string, b: string)
    requires !period.LIVE? && IsValidBucketDate(s) && PeriodBucketDate(period, s) == Some(b)
    requires IsValidBucketDate(b) && 1000 <= YearOf(DayOf(b))
    ensures IndexCount(Formatted(ViewDays(period, ViewportFromBucketDate(period, b))), b) == 1
  {
    hide YearOf, MonthOf, DateOf, DayFromYear, DaysBefore, DayInYear, DaysInYear, Leap, MakeDay, MondayOf, Weekday,
      StartOf, ViewDays;
    hide FmtDay, Iso, DayOf, PeriodBucketDate, IsValidBucketDate, ViewportFromBucketDate, ViewOf;
    var start := DayOf(b);
    BucketContainsItsDay(period, s);
    IsoViewport(period, start);
    var v := ViewOf(period, start);
    ViewShowsItsStarts(period, v, start);
    var days := ViewDays(period, v);
    var k :| 0 <= k < |days| && days[k] == start;
    FmtDayIsIso(start);
    forall i | 0 <= i < |days| && i != k
      ensures FmtDay(days[i]) != FmtDay(days[k])
    {
      if i < k { ViewAscends(period, v, i, k); } else { ViewAscends(period, v, k, i); }
      FmtDistinct(days[i], days[k]);
    }
    CountOnce(Formatted(days), k);
  }

  // ---------------------------------------------------------------------------
  // Week lists join
  // ---------------------------------------------------------------------------

  function WeeksOfYears(first: int, last: int): seq<int>
    decreases last - first
  {
    if first > last then [] else Mondays(first) + WeeksOfYears(first + 1, last)
  }

  lemma FirstMondayFacts(year: int)
    ensures DayFromYear(year) <= FirstMonday(year) < DayFromYear(year) + 7 && Weekday(FirstMonday(year)) == 1
  {
    hide DayFromYear;
  }

  lemma WeeksJoin(year: int)
    ensures FirstMonday(year) + 7 * WeekCount(year) == FirstMonday(year + 1)
  {
    hide FirstMonday, DayFromYear;
    var m := FirstMonday(year) + 7 * WeekCount(year);
    FirstMondayFacts(year);
    FirstMondayFacts(year + 1);
    assert Weekday(m) == 1;
    assert (m - FirstMonday(year + 1)) % 7 == 0;
  }

  /** The lists of consecutive years, put end to end, are one unbroken run of Mondays seven days apart. */
  lemma {:induction false} WeekListsJoin(first: int, last: int)
    ensures forall i :: 0 <= i < |WeeksOfYears(first, last)| ==>
        WeeksOfYears(first, last)[i] == FirstMonday(first) + 7 * i
    ensures first <= last ==> FirstMonday(first) + 7 * |WeeksOfYears(first, last)| == FirstMonday(last + 1)
    decreases last - first
  {
    hide FirstMonday, WeekCount;
    if first <= last {
      WeekListsJoin(first + 1, last);
      WeeksJoin(first);
    }
  }

  // ---------------------------------------------------------------------------
  // Stepping between viewports
  // ---------------------------------------------------------------------------

  /** JavaScript's `%`, which takes the sign of the dividend. */
  function Remainder(a: int, n: int): int
    requires n > 0
  {
    if a >= 0 then a % n else -((-a) % n)
  }

  function MonthIndex(v: Viewport): int
    requires v.MonthView?
  {
    v.year * 12 + (v.month - 1)
  }

  function ShiftViewport(v: Viewport, delta: int): Viewport {
    match v
    case MonthView(year, month) =>
      var idx := year * 12 + (month - 1) + delta;
      MonthView(idx / 12, Remainder(idx, 12) + 1)
    case YearView(year) => YearView(year + delta)
  }

  /** A month step lands on the right calendar month, and stepping back undoes it, exactly when the month
      counted from year 0 is not negative, or is a January; a negative remainder breaks the other months. */
  lemma MonthStepIsExact(v: Viewport, delta: int)
    requires v.MonthView? && 1 <= v.month <= 12
    ensures
      var idx, w := MonthIndex(v) + delta, ShiftViewport(v, delta);
      var exact := idx >= 0 || idx % 12 == 0;
      && (1 <= w.month <= 12 <==> exact)
      && (MonthIndex(w) == idx <==> exact)
      && (v.year >= 0 ==> (ShiftViewport(w, -delta) == v <==> exact))
  {
    var idx := MonthIndex(v) + delta;
    var q := (-idx) / 12;
    assert idx / 12 * 12 + idx % 12 == idx;
    assert idx < 0 ==> q * 12 + (-idx) % 12 == -idx;
  }

  /** A year step is exact both ways. */
  lemma YearStepIsExact(year: int, delta: int)
    ensures ShiftViewport(YearView(year), delta) == YearView(year + delta)
    ensures ShiftViewport(ShiftViewport(YearView(year), delta), -delta) == YearView(year)
  {
  }

  // ---------------------------------------------------------------------------
  // Viewport links
  // ---------------------------------------------------------------------------

  /** `resolveViewport`: a missing parameter opens the present month or year, a malformed one nothing. */
  function ResolveViewport(period: PeriodKind, raw: Option<string>, now: int): Option<Viewport> {
    if raw.None? then Some(ViewOf(period, now))
    else if period.DAILY? then
      var p := raw.value;
      if |p| == 7 && p[4] == '-' && AllDigits(p[..4]) && AllDigits(p[5..]) && 1 <= Number(p[5..]) <= 12
      then Some(MonthView(Number(p[..4]), Number(p[5..])))
      else None
    else if |raw.value| == 4 && AllDigits(raw.value) then Some(YearView(Number(raw.value)))
    else None
  }

  /** The parameter `calendarViewportQuery` puts on an "open calendar" link. */
  function CalendarParam(period: PeriodKind, bucket: string): string
    requires Shape(bucket)
  {
    if period.DAILY? then bucket[..7] else bucket[..4]
  }

  /** The parameter `viewportToQuery` puts on a previous/next link. */
  function ViewportParam(v: Viewport): string
    requires v.MonthView? ==> v.month >= 0
  {
    match v
    case MonthView(year, month) => YearText(year) + "-" + Pad2(month)
    case YearView(year) => YearText(year)
  }

  /** An "open calendar" link resolves to the viewport of the bucket it was built from. */
  lemma CalendarLinkOpensTheBucket(period: PeriodKind, s: string, now: int)
    requires !period.LIVE? && IsValidBucketDate(s)
    ensures ResolveViewport(period, Some(CalendarParam(period, s)), now) == Some(ViewportFromBucketDate(period, s))
  {
    hide YearOf, MonthOf, DateOf, DayOf, Number;
    assert s[..7][..4] == s[..4] && s[..7][5..] == s[5..7];
  }

  predicate IsMonthParam(p: string) {
    |p| == 7 && p[4] == '-' && AllDigits(p[..4]) && AllDigits(p[5..]) && 1 <= Number(p[5..]) <= 12
  }

  /** Without a parameter the calendar opens on the viewport that lists today's bucket, except the week that
      began in the year before: that one is listed a year earlier. A parameter opens nothing exactly when it
      is not of the period's form. */
  lemma ResolutionIsTotal(period: PeriodKind, raw: string, now: int)
    requires !period.LIVE?
    ensures ResolveViewport(period, None, now).Some?
    ensures StartOf(period, now) in ViewDays(period, ResolveViewport(period, None, now).value) <==>
        !period.WEEKLY? || YearOf(MondayOf(now)) == YearOf(now)
    ensures ResolveViewport(period, Some(raw), now).Some? <==>
        if period.DAILY? then IsMonthParam(raw) else |raw| == 4 && AllDigits(raw)
  {
    hide YearOf, MonthOf, DateOf, MondayOf, ViewDays, Number, MakeDay, DayFromYear, Weekday;
    StartContainsDay(period, now);
    StartIsInItself(period, StartOf(period, now));
    ViewShowsItsStarts(period, ViewOf(period, now), StartOf(period, now));
  }

  lemma YearTextWidth(year: int)
    ensures (|YearText(year)| == 4 && AllDigits(YearText(year))) <==> 1000 <= year <= 9999
    ensures 1000 <= year <= 9999 ==> Number(YearText(year)) == year
    ensures year >= 0 ==> AllDigits(YearText(year))
    ensures year < 0 ==> YearText(year)[0] == '-'
  {
    hide Number, Power, Padded;
    PowersOfTen();
    if year >= 0 {
      DecimalWidth(year, 3);
      DecimalWidth(year, 4);
      NumberOfDecimal(year);
    } else {
      assert !IsDigit(YearText(year)[0]);
    }
  }

  /** A previous/next link resolves to its viewport exactly when the year has four digits: the text is not
      padded, so the link out of an earlier year is a malformed one. */
  lemma ViewportLinkResolves(period: PeriodKind, v: Viewport, now: int)
    requires !period.LIVE? && (period.DAILY? <==> v.MonthView?) && (v.MonthView? ==> 1 <= v.month <= 12)
    ensures ResolveViewport(period, Some(ViewportParam(v)), now) == Some(v) <==> 1000 <= v.year <= 9999
    ensures !(1000 <= v.year <= 9999) ==> ResolveViewport(period, Some(ViewportParam(v)), now) == None
  {
    hide Number, Power, Padded, YearText, Pad2;
    YearTextWidth(v.year);
    if v.MonthView? {
      PowersOfTen();
      Pad2IsPadded(v.month);
      NumberOfPadded(v.month, 2);
      var y, p := YearText(v.year), ViewportParam(v);
      if |p| == 7 {
        assert p[..4] == y && p[5..] == Pad2(v.month);
      }
    }
  }
}
