/** Decimal numerals: `String(n)`, `Number(digits)` and zero-padded fields. */
module Decimals {
  predicate IsDigit(c: char) {
    '0' <= c <= '9'
  }

  predicate AllDigits(s: string) {
    forall i :: 0 <= i < |s| ==> IsDigit(s[i])
  }

  function DigitValue(c: char): nat
    requires IsDigit(c)
  {
    c as int - '0' as int
  }

  function DigitChar(n: nat): (c: char)
    requires n < 10
    ensures IsDigit(c) && DigitValue(c) == n
  {
    (n + '0' as int) as char
  }

  function Number(s: string): nat
    requires AllDigits(s)
  {
    if s == "" then 0 else 10 * Number(s[..|s| - 1]) + DigitValue(s[|s| - 1])
  }

  function Decimal(n: nat): (s: string)
    ensures AllDigits(s) && s != ""
  {
    if n < 10 then [DigitChar(n)] else Decimal(n / 10) + [DigitChar(n % 10)]
  }

  /** The last `width` digits of `n`, with leading zeros. */
  function Padded(n: nat, width: nat): (s: string)
    ensures AllDigits(s) && |s| == width
  {
    if width == 0 then "" else Padded(n / 10, width - 1) + [DigitChar(n % 10)]
  }

  function Power(width: nat): nat {
    if width == 0 then 1 else 10 * Power(width - 1)
  }

  lemma {:induction false} NumberOfDecimal(n: nat)
    ensures Number(Decimal(n)) == n
  {
    if n >= 10 {
      NumberOfDecimal(n / 10);
      assert Decimal(n)[..|Decimal(n)| - 1] == Decimal(n / 10);
    }
  }

  lemma {:induction false} NumberOfPadded(n: nat, width: nat)
    requires n < Power(width)
    ensures Number(Padded(n, width)) == n
  {
    if width > 0 {
      NumberOfPadded(n / 10, width - 1);
      assert Padded(n, width)[..width - 1] == Padded(n / 10, width - 1);
    }
  }

  lemma {:induction false} PaddedOfNumber(s: string)
    requires AllDigits(s)
    ensures Number(s) < Power(|s|) && Padded(Number(s), |s|) == s
  {
    if s != "" {
      PaddedOfNumber(s[..|s| - 1]);
      assert s == s[..|s| - 1] + [s[|s| - 1]];
    }
  }

  /** Lexicographic order, as JavaScript compares strings of code units. */
  predicate Less(a: string, b: string) {
    b != "" && (a == "" || a[0] < b[0] || (a[0] == b[0] && Less(a[1..], b[1..])))
  }

  lemma {:induction false} LessByParts(a: string, b: string, c: string, d: string)
    requires |a| == |c|
    ensures Less(a + b, c + d) <==> Less(a, c) || (a == c && Less(b, d))
  {
    if a == "" {
      assert a + b == b && c + d == d;
    } else {
      assert (a + b)[1..] == a[1..] + b && (c + d)[1..] == c[1..] + d;
      LessByParts(a[1..], b, c[1..], d);
      assert a == [a[0]] + a[1..] && c == [c[0]] + c[1..];
    }
  }

  lemma PaddedIsInjective(m: nat, n: nat, width: nat)
    requires m < Power(width) && n < Power(width)
    ensures Padded(m, width) == Padded(n, width) <==> m == n
  {
    hide Number, Padded, Power;
    NumberOfPadded(m, width);
    NumberOfPadded(n, width);
  }

  lemma DigitOrder(m: nat, n: nat)
    requires m < 10 && n < 10
    ensures Less([DigitChar(m)], [DigitChar(n)]) <==> m < n
  {
  }

  lemma NothingIsLess()
    ensures !Less("", "")
  {
  }

  lemma {:induction false} PaddedOrder(m: nat, n: nat, width: nat)
    requires m < Power(width) && n < Power(width)
    ensures Less(Padded(m, width), Padded(n, width)) <==> m < n
    ensures Padded(m, width) == Padded(n, width) <==> m == n
  {
    PaddedIsInjective(m, n, width);
    hide Less, Number;
    if width == 0 {
      NothingIsLess();
    } else {
      PaddedOrder(m / 10, n / 10, width - 1);
      LessByParts(Padded(m / 10, width - 1), [DigitChar(m % 10)], Padded(n / 10, width - 1), [DigitChar(n % 10)]);
      DigitOrder(m % 10, n % 10);
    }
  }

  lemma {:induction false} PowerGrows(width: nat)
    requires 0 < width
    ensures Power(width) >= 10
  {
    if width > 1 { PowerGrows(width - 1); }
  }

  /** `String(n)` has no leading zero, so it is the padded form exactly at its own width. */
  lemma {:induction false} DecimalWidth(n: nat, width: nat)
    requires 0 < width
    ensures n < Power(width) <==> |Decimal(n)| <= width
    ensures |Decimal(n)| == width ==> Decimal(n) == Padded(n, width)
  {
    if width > 1 && n >= 10 {
      DecimalWidth(n / 10, width - 1);
    } else if n >= 10 {
      assert Power(1) == 10;
      assert |Decimal(n / 10)| > 0;
    } else {
      PowerGrows(width);
      if width == 1 { assert Padded(n, 1) == Padded(n / 10, 0) + [DigitChar(n % 10)]; }
    }
  }
}
