/** How the date strings of the code compare, padded or not.

    `fmtDay` of `src/lib/analysis/report-bucket-date.ts` writes a year without padding, and PostgreSQL
    writes a `DATE` with a four-digit year; `src/lib/analysis/report-calendar-loader.ts` compares both as
    strings. */
module DateTexts {
  import opened Decimals
  import opened CivilDates
  import opened BucketDates

  /** `bucket_date::text`. */
  function DateText(date: int): string {
    if 0 <= YearOf(date) <= 9999 then Iso(date) else FmtDay(date)
  }

  /** A year's digits moved to the left of a four-digit field: what a string comparison sees first. */
  function Aligned(year: int): int {
    if year < 0 then -1
    else if year < 10 then 1000 * year
    else if year < 100 then 100 * year
    else if year < 1000 then 10 * year
    else year
  }

  /** A string comparison puts the two years the wrong way round. */
  predicate Scrambled(a: int, b: int) {
    (a < b && Aligned(a) > Aligned(b)) || (a > b && Aligned(a) < Aligned(b))
  }

  function Width(year: nat): (w: nat)
    requires year <= 9999
    ensures 1 <= w <= 4
  {
    if year < 10 then 1 else if year < 100 then 2 else if year < 1000 then 3 else 4
  }

  lemma YearDigits(year: nat)
    requires year <= 9999
    ensures |Decimal(year)| == Width(year) && Decimal(year) == Padded(year, Width(year)) && year < Power(Width(year))
  {
    PowersOfTen();
    DecimalWidth(year, 1);
    DecimalWidth(year, 2);
    DecimalWidth(year, 3);
    DecimalWidth(year, 4);
  }

  /** The number without its last `k` digits. */
  function Leading(n: nat, k: nat): nat {
    if k == 0 then n else Leading(n / 10, k - 1)
  }

  lemma {:induction false} PaddedPrefix(n: nat, width: nat, k: nat)
    ensures Padded(n, width + k)[..width] == Padded(Leading(n, k), width)
  {
    if k > 0 {
      PaddedPrefix(n / 10, width, k - 1);
      assert Padded(n, width + k)[..width] == Padded(n / 10, width + k - 1)[..width];
    } else {
      assert Padded(n, width)[..width] == Padded(n, width);
    }
  }

  lemma {:induction false} LeadingFits(n: nat, width: nat, k: nat)
    requires n < Power(width + k)
    ensures Leading(n, k) < Power(width)
  {
    if k > 0 { LeadingFits(n / 10, width, k - 1); }
  }

  lemma DashBeforeDigit(ra: string, s: string)
    requires s != "" && IsDigit(s[0])
    ensures Less("-" + ra, s) && !Less(s, "-" + ra)
  {
  }

  /** Numerals of unequal width, each closed by a dash: the shorter goes first exactly when the longer does
      not start below it. */
  lemma NarrowAgainstWide(a: nat, b: nat, ra: string, rb: string)
    requires a <= 9999 && b <= 9999 && Width(a) < Width(b)
    ensures Less(Decimal(a) + "-" + ra, Decimal(b) + "-" + rb) <==> a <= Leading(b, Width(b) - Width(a))
    ensures Less(Decimal(b) + "-" + rb, Decimal(a) + "-" + ra) <==> a > Leading(b, Width(b) - Width(a))
  {
    hide Less, Padded, Power, Decimal;
    var w, k := Width(a), Width(b) - Width(a);
    YearDigits(a);
    YearDigits(b);
    PaddedPrefix(b, w, k);
    LeadingFits(b, w, k);
    PaddedOrder(a, Leading(b, k), w);
    PaddedOrder(Leading(b, k), a, w);
    var head, tail := Decimal(b)[..w], Decimal(b)[w..];
    LessByParts(Decimal(a), "-" + ra, head, tail + "-" + rb);
    LessByParts(head, tail + "-" + rb, Decimal(a), "-" + ra);
    assert IsDigit(tail[0]) by { assert tail[0] == Decimal(b)[w]; }
    DashBeforeDigit(ra, tail + "-" + rb);
    assert Decimal(a) + "-" + ra == Decimal(a) + ("-" + ra);
    assert Decimal(b) + "-" + rb == head + (tail + "-" + rb);
  }

  lemma LeadingAligns(a: nat, b: nat)
    requires a <= 9999 && b <= 9999 && Width(a) < Width(b)
    ensures a <= Leading(b, Width(b) - Width(a)) <==> Aligned(a) <= Aligned(b)
  {
    var k := Width(b) - Width(a);
    assert k == 1 ==> Leading(b, k) == b / 10 by { assert Leading(b / 10, 0) == b / 10; }
    assert k == 2 ==> Leading(b, k) == b / 10 / 10 by { assert Leading(b / 10 / 10, 0) == b / 10 / 10; }
    assert k == 3 ==> Leading(b, k) == b / 10 / 10 / 10 by {
      assert Leading(b / 10 / 10, 1) == Leading(b / 10 / 10 / 10, 0) == b / 10 / 10 / 10;
    }
  }

  function DayPart(day: int): string {
    FieldsOfDay(day);
    Pad2(MonthOf(day) + 1) + "-" + Pad2(DateOf(day))
  }

  lemma FmtDayParts(day: int)
    ensures FmtDay(day) == YearText(YearOf(day)) + "-" + DayPart(day)
    ensures DayPart(day) == Padded(MonthOf(day) + 1, 2) + "-" + Padded(DateOf(day), 2)
  {
    hide YearOf, MonthOf, DateOf, YearText, Pad2, Padded;
    FieldsOfDay(day);
    MonthsAreShort(day);
    Pad2IsPadded(MonthOf(day) + 1);
    Pad2IsPadded(DateOf(day));
  }

  lemma DayPartOrder(a: int, b: int)
    ensures Less(DayPart(a), DayPart(b)) <==>
        MonthOf(a) < MonthOf(b) || (MonthOf(a) == MonthOf(b) && DateOf(a) < DateOf(b))
  {
    FmtDayParts(a);
    FmtDayParts(b);
    FieldsOfDay(a);
    FieldsOfDay(b);
    MonthsAreShort(a);
    MonthsAreShort(b);
    PowersOfTen();
    hide *;
    PaddedOrder(MonthOf(a) + 1, MonthOf(b) + 1, 2);
    PaddedOrder(DateOf(a), DateOf(b), 2);
    DashedOrder(Padded(MonthOf(a) + 1, 2), Padded(DateOf(a), 2), Padded(MonthOf(b) + 1, 2), Padded(DateOf(b), 2));
  }

  lemma SignDecides(a: int, b: int)
    requires (YearOf(a) < 0 <= YearOf(b)) || (YearOf(b) < 0 <= YearOf(a))
    ensures Less(FmtDay(a), FmtDay(b)) <==> YearOf(a) < 0
  {
    hide YearOf, MonthOf, DateOf, Decimal;
    FmtDayParts(a);
    FmtDayParts(b);
    var digits := if YearOf(a) < 0 then Decimal(YearOf(b)) else Decimal(YearOf(a));
    assert IsDigit(digits[0]);
  }

  /** Strings of formatted days compare by their aligned years and, when those coincide, as the days do. */
  lemma TextOrder(a: int, b: int)
    requires YearOf(a) <= 9999 && YearOf(b) <= 9999 && (0 <= YearOf(a) || 0 <= YearOf(b))
    ensures Less(FmtDay(a), FmtDay(b)) <==>
              Aligned(YearOf(a)) < Aligned(YearOf(b)) || (Aligned(YearOf(a)) == Aligned(YearOf(b)) && a < b)
  {
    hide YearOf, MonthOf, DateOf, FmtDay, DayPart, Less, Decimal;
    FmtDayParts(a);
    FmtDayParts(b);
    var ya, yb := YearOf(a), YearOf(b);
    if ya < 0 || yb < 0 {
      SignDecides(a, b);
    } else if Width(ya) == Width(yb) {
      YearDigits(ya);
      YearDigits(yb);
      PaddedOrder(ya, yb, Width(ya));
      DashedOrder(Decimal(ya), DayPart(a), Decimal(yb), DayPart(b));
      DayPartOrder(a, b);
      FieldsOrder(a, b);
    } else {
      if a < b { YearsAreMonotone(a, b); } else { YearsAreMonotone(b, a); }
      if Width(ya) < Width(yb) {
        NarrowAgainstWide(ya, yb, DayPart(a), DayPart(b));
        LeadingAligns(ya, yb);
      } else {
        NarrowAgainstWide(yb, ya, DayPart(b), DayPart(a));
        LeadingAligns(yb, ya);
      }
    }
  }

  /** A string the enumerators list for a four-digit year is the text of its own day only ... */
  lemma TextNamesItsDay(date: int, day: int)
    requires 1000 <= YearOf(day) <= 9999
    ensures DateText(date) == FmtDay(day) <==> date == day
  {
    hide YearOf, FmtDay, Iso, IsValidBucketDate;
    FmtDayIsIso(day);
    if 0 <= YearOf(date) <= 9999 {
      if Iso(date) == Iso(day) { IsoInjective(date, day); }
    } else {
      FmtDayIsIso(date);
    }
  }

  /** ... and for an earlier year it is the text of none. */
  lemma UnpaddedNamesNoDay(date: int, day: int)
    requires 0 <= YearOf(day) < 1000
    ensures DateText(date) != FmtDay(day)
  {
    hide YearOf, MonthOf, DateOf, Decimal, Padded;
    FmtDayParts(day);
    FmtDayParts(date);
    YearDigits(YearOf(day));
    assert |FmtDay(day)| < 10 && IsDigit(FmtDay(day)[0]);
    if 0 <= YearOf(date) <= 9999 {
      IsoParts(date);
    } else if YearOf(date) > 9999 {
      PowersOfTen();
      DecimalWidth(YearOf(date), 4);
    }
  }

  lemma YearTextIsInjective(a: int, b: int)
    requires YearText(a) == YearText(b)
    ensures a == b
  {
    hide Decimal, Number;
    if a >= 0 { assert IsDigit(Decimal(a)[0]); } else { NumberOfDecimal(-a); }
    if b >= 0 { assert IsDigit(Decimal(b)[0]); } else { NumberOfDecimal(-b); }
    if a < 0 && b < 0 {
      assert YearText(a)[1..] == Decimal(-a) && YearText(b)[1..] == Decimal(-b);
    } else if a >= 0 && b >= 0 {
      NumberOfDecimal(a);
      NumberOfDecimal(b);
    }
  }

  lemma DayPartPieces(day: int)
    ensures 0 <= DateOf(day) && |DayPart(day)| == 5
    ensures DayPart(day)[..2] == Padded(MonthOf(day) + 1, 2) && DayPart(day)[3..] == Padded(DateOf(day), 2)
    ensures MonthOf(day) + 1 < Power(2) && 0 <= DateOf(day) < Power(2)
  {
    hide YearOf, MonthOf, DateOf, Padded, DayPart, Pad2;
    FmtDayParts(day);
    MonthsAreShort(day);
    PowersOfTen();
  }

  lemma SameDayPart(a: int, b: int)
    requires DayPart(a) == DayPart(b)
    ensures MonthOf(a) == MonthOf(b) && DateOf(a) == DateOf(b)
  {
    hide *;
    DayPartPieces(a);
    DayPartPieces(b);
    PaddedIsInjective(MonthOf(a) + 1, MonthOf(b) + 1, 2);
    PaddedIsInjective(DateOf(a), DateOf(b), 2);
  }

  lemma FmtDayIsInjective(a: int, b: int)
    requires FmtDay(a) == FmtDay(b)
    ensures a == b
  {
    hide YearOf, MonthOf, DateOf, MakeDay, YearText, Padded, FmtDay, DayPart, Power, Pad2;
    FmtDayParts(a);
    FmtDayParts(b);
    var s, n := FmtDay(a), |FmtDay(a)|;
    assert s[..n - 6] == YearText(YearOf(a)) && s[n - 5..] == DayPart(a);
    assert s[..n - 6] == YearText(YearOf(b)) && s[n - 5..] == DayPart(b);
    YearTextIsInjective(YearOf(a), YearOf(b));
    SameDayPart(a, b);
    FieldsOfDay(a);
    FieldsOfDay(b);
  }

  lemma OutsideIsNotIso(outside: int, day: int)
    requires !(0 <= YearOf(outside) <= 9999) && 0 <= YearOf(day) <= 9999
    ensures FmtDay(outside) != Iso(day)
  {
    hide YearOf, MonthOf, DateOf, Decimal, Padded, Power, Number;
    FmtDayParts(outside);
    IsoParts(day);
    assert IsDigit(Iso(day)[..4][0]);
    if YearOf(outside) > 9999 {
      PowersOfTen();
      DecimalWidth(YearOf(outside), 4);
    }
  }

  /** The database's text of a date names no other date. */
  lemma DateTextIsInjective(a: int, b: int)
    requires DateText(a) == DateText(b)
    ensures a == b
  {
    hide YearOf, FmtDay, Iso;
    if 0 <= YearOf(a) <= 9999 && 0 <= YearOf(b) <= 9999 {
      IsoInjective(a, b);
    } else if 0 <= YearOf(a) <= 9999 {
      OutsideIsNotIso(b, a);
    } else if 0 <= YearOf(b) <= 9999 {
      OutsideIsNotIso(a, b);
    } else {
      FmtDayIsInjective(a, b);
    }
  }
}
