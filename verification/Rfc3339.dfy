/** The formatters of `Timestamp`, and the order of the strings they make. The layout is
    the one of section 5.6 of RFC 3339. */
module Rfc3339 {
  import opened Gregorian
  import opened Timestamp

  function Digit(d: int): char
    requires 0 <= d < 10
  {
    '0' + d as char
  }

  function Decimal(n: nat): string {
    if n < 10 then [Digit(n)] else Decimal(n / 10) + [Digit(n % 10)]
  }

  function Zeros(k: nat): string {
    if k == 0 then "" else Zeros(k - 1) + "0"
  }

  /** The format `{:0width}` of a number: the width is a minimum. */
  function Pad(n: int, width: nat): string {
    if n < 0 then "-" + PadNat(-n, if width == 0 then 0 else width - 1) else PadNat(n, width)
  }

  function PadNat(n: nat, width: nat): string {
    var digits := Decimal(n);
    if |digits| >= width then digits else Zeros(width - |digits|) + digits
  }

  function FormatFields(dt: DateTime, sub: int): string {
    Pad(dt.date.year, 4) + ("-" + (Pad(dt.date.month, 2) + ("-" + (Pad(dt.date.day, 2) + ("T"
    + (Pad(dt.hour, 2) + (":" + (Pad(dt.minute, 2) + (":" + (Pad(dt.second, 2) + ("."
    + (Pad(sub, 3) + "Z"))))))))))))
  }

  function FormatRfc3339(millis: int): string {
    FormatFields(ToYmdhms(millis), EpochSubsecMillis(millis))
  }

  function CompactFields(dt: DateTime): string {
    Pad(dt.date.year, 4) + (Pad(dt.date.month, 2) + (Pad(dt.date.day, 2) + ("-"
    + (Pad(dt.hour, 2) + (Pad(dt.minute, 2) + (Pad(dt.second, 2) + ""))))))
  }

  function FormatCompact(millis: int): string {
    CompactFields(ToYmdhms(millis))
  }

  /** Lexicographic order of strings. */
  predicate Less(a: string, b: string) {
    |b| > 0 && (|a| == 0 || a[0] < b[0] || (a[0] == b[0] && Less(a[1..], b[1..])))
  }

  /** The last `width` decimal digits of `n`. */
  function Fixed(n: nat, width: nat): (s: string)
    ensures |s| == width
  {
    if width == 0 then "" else Fixed(n / 10, width - 1) + [Digit(n % 10)]
  }

  function Pow10(k: nat): nat {
    if k == 0 then 1 else 10 * Pow10(k - 1)
  }

  lemma {:induction false} FixedZero(width: nat)
    ensures Fixed(0, width) == Zeros(width)
  {
    if width > 0 {
      FixedZero(width - 1);
    }
  }

  /** A number that fits is padded to exactly its width. */
  lemma {:induction false} PadIsFixed(n: nat, width: nat)
    requires width >= 1 && n < Pow10(width)
    ensures Pad(n, width) == Fixed(n, width)
  {
    if n < 10 {
      FixedZero(width - 1);
      assert Fixed(n, width) == Fixed(n / 10, width - 1) + [Digit(n)];
    } else {
      assert width > 1;
      PadIsFixed(n / 10, width - 1);
      var digits := Decimal(n / 10);
      if |digits| < width - 1 {
        assert Zeros(width - 1 - |digits|) + (digits + [Digit(n % 10)])
            == (Zeros(width - 1 - |digits|) + digits) + [Digit(n % 10)];
      }
    }
  }

  lemma LessHead(a: char, b: char, s: string, t: string)
    ensures Less([a] + s, [b] + t) <==> a < b || (a == b && Less(s, t))
  {
  }

  lemma DigitOrder(n: nat, m: nat)
    ensures n < m <==> n / 10 < m / 10 || (n / 10 == m / 10 && n % 10 < m % 10)
    ensures n == m <==> n / 10 == m / 10 && n % 10 == m % 10
  {
  }

  lemma FixedAppend(n: nat, width: nat, s: string)
    requires width > 0
    ensures Fixed(n, width) + s == Fixed(n / 10, width - 1) + ([Digit(n % 10)] + s)
  {
  }

  /** Fixed-width fields compare as the numbers they spell. */
  lemma {:induction false} LessFixed(n: nat, m: nat, width: nat, s: string, t: string)
    requires n < Pow10(width) && m < Pow10(width)
    ensures Less(Fixed(n, width) + s, Fixed(m, width) + t) <==> n < m || (n == m && Less(s, t))
  {
    if width == 0 {
      assert "" + s == s && "" + t == t;
    } else {
      var a, b := Digit(n % 10), Digit(m % 10);
      DigitOrder(n, m);
      LessFixed(n / 10, m / 10, width - 1, [a] + s, [b] + t);
      LessHead(a, b, s, t);
      FixedAppend(n, width, s);
      FixedAppend(m, width, t);
    }
  }

  lemma LessPad(n: int, m: int, width: nat, s: string, t: string)
    requires width >= 1 && 0 <= n < Pow10(width) && 0 <= m < Pow10(width)
    ensures Less(Pad(n, width) + s, Pad(m, width) + t) <==> n < m || (n == m && Less(s, t))
  {
    PadIsFixed(n, width);
    PadIsFixed(m, width);
    LessFixed(n, m, width, s, t);
  }

  lemma LessField(n: int, m: int, width: nat, c: char, s: string, t: string)
    requires width >= 1 && 0 <= n < Pow10(width) && 0 <= m < Pow10(width)
    ensures Less(Pad(n, width) + ([c] + s), Pad(m, width) + ([c] + t)) <==> n < m || (n == m && Less(s, t))
  {
    LessPad(n, m, width, [c] + s, [c] + t);
    LessHead(c, c, s, t);
  }

  lemma TimeLess(a: DateTime, b: DateTime, s: string, t: string)
    requires ValidDateTime(a) && ValidDateTime(b)
    ensures var u := Pad(a.hour, 2) + (":" + (Pad(a.minute, 2) + (":" + (Pad(a.second, 2) + ("." + s)))));
      var v := Pad(b.hour, 2) + (":" + (Pad(b.minute, 2) + (":" + (Pad(b.second, 2) + ("." + t)))));
      Less(u, v) <==>
        DateTimeLess(a.(date := b.date), b) || (a.(date := b.date) == b && Less(s, t))
  {
    assert Pow10(2) == 100;
    var u1, v1 := Pad(a.second, 2) + ("." + s), Pad(b.second, 2) + ("." + t);
    LessField(a.second, b.second, 2, '.', s, t);
    LessField(a.minute, b.minute, 2, ':', u1, v1);
    LessField(a.hour, b.hour, 2, ':', Pad(a.minute, 2) + (":" + u1), Pad(b.minute, 2) + (":" + v1));
  }

  lemma DayLess(a: Date, b: Date, s: string, t: string)
    requires ValidDate(a) && ValidDate(b) && 0 <= a.year <= 9999 && 0 <= b.year <= 9999
    ensures var u := Pad(a.year, 4) + ("-" + (Pad(a.month, 2) + ("-" + (Pad(a.day, 2) + ("T" + s)))));
      var v := Pad(b.year, 4) + ("-" + (Pad(b.month, 2) + ("-" + (Pad(b.day, 2) + ("T" + t)))));
      Less(u, v) <==> DateLess(a, b) || (a == b && Less(s, t))
  {
    assert Pow10(2) == 100 && Pow10(4) == 10000;
    var u1, v1 := Pad(a.day, 2) + ("T" + s), Pad(b.day, 2) + ("T" + t);
    LessField(a.day, b.day, 2, 'T', s, t);
    LessField(a.month, b.month, 2, '-', u1, v1);
    LessField(a.year, b.year, 4, '-', Pad(a.month, 2) + ("-" + u1), Pad(b.month, 2) + ("-" + v1));
  }

  /** The first instant of the year 10000. */
  const YEAR_TEN_THOUSAND: int := 253402300800000

  /** The timestamps from the epoch on that the four-digit year of section 5.6 can show. */
  predicate Printable(millis: int) {
    0 <= millis < YEAR_TEN_THOUSAND
  }

  lemma DaysToYearTenThousand()
    ensures EpochDays(Date(10000, 1, 1)) == 2932897
    ensures EpochDays(Date(9999, 12, 31)) == 2932896
  {
    assert LeapDays(9999) == 2424 && LeapDays(1969) == 477;
    YearsClosedForm(10000);
    assert DaysBeforeYear(10000) == DaysBeforeYear(9999) + DaysInYear(9999);
    MonthTable(9999);
  }

  /** The bound on the timestamp is the bound on the year. */
  lemma PrintableYears(millis: int)
    requires InRange(millis) && millis >= 0
    ensures ValidDateTime(ToYmdhms(millis)) && ToYmdhms(millis).date.year >= 0
    ensures Printable(millis) <==> ToYmdhms(millis).date.year <= 9999
  {
    YmdhmsCountsBack(millis);
    YearsOfSecond(ToYmdhms(millis), EpochSecs(millis));
    assert Printable(millis) <==> EpochSecs(millis) < YEAR_TEN_THOUSAND / 1000;
  }

  lemma YearsOfSecond(dt: DateTime, secs: int)
    requires ValidDateTime(dt) && EpochSeconds(dt) == secs && secs >= 0
    ensures dt.date.year >= 0 && (dt.date.year <= 9999 <==> secs < YEAR_TEN_THOUSAND / 1000)
  {
    DaysToYearTenThousand();
    var start := DateTime(Date(10000, 1, 1), 0, 0, 0);
    assert EpochSeconds(start) == YEAR_TEN_THOUSAND / 1000;
    EpochSecondsMonotone(dt, start);
    assert EpochDays(Date(1970, 1, 1)) == 0;
    if dt.date.year < 1970 {
      EpochDaysMonotone(dt.date, Date(1970, 1, 1));
    }
  }

  /** The formatted fields sort as the fields do. */
  lemma FieldsOrder(a: DateTime, sub1: int, b: DateTime, sub2: int)
    requires ValidDateTime(a) && ValidDateTime(b) && 0 <= a.date.year <= 9999 && 0 <= b.date.year <= 9999
    requires 0 <= sub1 < 1000 && 0 <= sub2 < 1000
    ensures Less(FormatFields(a, sub1), FormatFields(b, sub2)) <==> DateTimeLess(a, b) || (a == b && sub1 < sub2)
  {
    var s, t := Pad(sub1, 3) + "Z", Pad(sub2, 3) + "Z";
    SubsecLess(sub1, sub2);
    TimeLess(a, b, s, t);
    DayLess(a.date, b.date,
      Pad(a.hour, 2) + (":" + (Pad(a.minute, 2) + (":" + (Pad(a.second, 2) + ("." + s))))),
      Pad(b.hour, 2) + (":" + (Pad(b.minute, 2) + (":" + (Pad(b.second, 2) + ("." + t))))));
  }

  /** Strings sort as the instants they show; in particular no two instants share one. */
  lemma Rfc3339Order(t1: int, t2: int)
    requires Printable(t1) && Printable(t2)
    ensures Less(FormatRfc3339(t1), FormatRfc3339(t2)) <==> t1 < t2
  {
    PrintableYears(t1);
    PrintableYears(t2);
    SubsecOf(t1);
    SubsecOf(t2);
    FieldsOrder(ToYmdhms(t1), t1 % 1000, ToYmdhms(t2), t2 % 1000);
    InstantLess(t1, t2);
  }

  lemma YearTenThousandStarts()
    ensures ToYmdhms(YEAR_TEN_THOUSAND).date == Date(10000, 1, 1)
    ensures ToYmdhms(YEAR_TEN_THOUSAND - 1).date == Date(9999, 12, 31)
  {
    DaysToYearTenThousand();
    YmdhmsOntoCalendar(DateTime(Date(10000, 1, 1), 0, 0, 0), 0);
    YmdhmsOntoCalendar(DateTime(Date(9999, 12, 31), 23, 59, 59), 999);
  }

  /** A number's first digit, and how many follow it. */
  function FirstDigit(n: nat): (d: nat)
    ensures d < 10
  {
    if n < 10 then n else FirstDigit(n / 10)
  }

  lemma {:induction false} DecimalStarts(n: nat)
    ensures Decimal(n) != "" && Decimal(n)[0] == Digit(FirstDigit(n))
  {
    if n >= 10 {
      DecimalStarts(n / 10);
    }
  }

  lemma FourOrFiveDigits(y: nat)
    requires 1000 <= y <= 99999
    ensures |Decimal(y)| == if y <= 9999 then 4 else 5
    ensures FirstDigit(y) == if y <= 9999 then y / 10 / 10 / 10 else y / 10 / 10 / 10 / 10
  {
    var a, b, c := y / 10, y / 10 / 10, y / 10 / 10 / 10;
    assert |Decimal(y)| == |Decimal(a)| + 1 && |Decimal(a)| == |Decimal(b)| + 1 && |Decimal(b)| == |Decimal(c)| + 1;
    assert FirstDigit(y) == FirstDigit(a) == FirstDigit(b) == FirstDigit(c);
  }

  lemma YearStarts(y: nat)
    requires 1000 <= y <= 99999
    ensures Pad(y, 4) != "" && Pad(y, 4)[0] == Digit(FirstDigit(y))
  {
    FourOrFiveDigits(y);
    DecimalStarts(y);
  }

  lemma FieldsStart(dt: DateTime, sub: int)
    requires 1000 <= dt.date.year <= 99999
    ensures FormatFields(dt, sub) != "" && FormatFields(dt, sub)[0] == Digit(FirstDigit(dt.date.year))
  {
    YearStarts(dt.date.year);
  }

  lemma FieldsSortEarly(a: DateTime, sub1: int, b: DateTime, sub2: int)
    requires 2000 <= a.date.year <= 9999 && 10000 <= b.date.year <= 19999
    ensures Less(FormatFields(b, sub2), FormatFields(a, sub1))
  {
    FieldsStart(a, sub1);
    FieldsStart(b, sub2);
    FirstDigitsCross(a.date.year, b.date.year);
    DigitGrows(FirstDigit(b.date.year), FirstDigit(a.date.year));
    SmallerStartIsLess(FormatFields(b, sub2), FormatFields(a, sub1));
  }

  lemma FirstDigitsCross(x: nat, y: nat)
    requires 2000 <= x <= 9999 && 10000 <= y <= 19999
    ensures FirstDigit(y) == 1 < FirstDigit(x) <= 9
  {
    FourOrFiveDigits(x);
    FourOrFiveDigits(y);
  }

  lemma DigitGrows(d: nat, e: nat)
    requires d < e <= 9
    ensures Digit(d) < Digit(e)
  {
  }

  lemma SmallerStartIsLess(s: string, t: string)
    requires s != "" && t != "" && s[0] < t[0]
    ensures Less(s, t)
  {
  }

  /** The limit to four-digit years is needed: every instant of the years 10000 to 19999 sorts
      before every earlier one of the years 2000 to 9999. */
  lemma FiveDigitYearsSortEarly(t1: int, t2: int)
    requires InRange(t1) && InRange(t2) && 0 <= t1 && 0 <= t2
    requires 2000 <= ToYmdhms(t1).date.year <= 9999 && 10000 <= ToYmdhms(t2).date.year <= 19999
    ensures t1 < t2 && Less(FormatRfc3339(t2), FormatRfc3339(t1))
  {
    PrintableYears(t1);
    PrintableYears(t2);
    FieldsSortEarly(ToYmdhms(t1), EpochSubsecMillis(t1), ToYmdhms(t2), EpochSubsecMillis(t2));
  }

  /** It already fails from one millisecond to the next. */
  lemma YearTenThousandSortsEarly()
    ensures var t := YEAR_TEN_THOUSAND;
      InRange(t) && Printable(t - 1) && Less(FormatRfc3339(t), FormatRfc3339(t - 1))
  {
    YearTenThousandStarts();
    FiveDigitYearsSortEarly(YEAR_TEN_THOUSAND - 1, YEAR_TEN_THOUSAND);
  }

  lemma SubsecOf(t: int)
    requires t >= 0
    ensures EpochSubsecMillis(t) == t % 1000
  {
  }

  lemma SubsecLess(sub1: int, sub2: int)
    requires 0 <= sub1 < 1000 && 0 <= sub2 < 1000
    ensures Less(Pad(sub1, 3) + "Z", Pad(sub2, 3) + "Z") <==> sub1 < sub2
  {
    assert Pow10(3) == 1000;
    LessField(sub1, sub2, 3, 'Z', "", "");
    assert "Z" == ['Z'] + "";
  }

  lemma SecondsOrder(a: DateTime, s1: int, b: DateTime, s2: int)
    requires ValidDateTime(a) && ValidDateTime(b) && EpochSeconds(a) == s1 && EpochSeconds(b) == s2
    ensures (s1 < s2 <==> DateTimeLess(a, b)) && (s1 == s2 <==> a == b)
  {
    EpochSecondsMonotone(a, b);
  }

  lemma SecsThenMillis(t1: int, t2: int)
    requires t1 >= 0 && t2 >= 0
    ensures t1 < t2 <==> EpochSecs(t1) < EpochSecs(t2) || (EpochSecs(t1) == EpochSecs(t2) && t1 % 1000 < t2 % 1000)
    ensures EpochSecs(t1) >= 0 && EpochSecs(t2) >= 0
  {
    assert EpochSecs(t1) == t1 / 1000 && EpochSecs(t2) == t2 / 1000;
  }

  lemma InstantLess(t1: int, t2: int)
    requires InRange(t1) && InRange(t2) && t1 >= 0 && t2 >= 0
    ensures var a, b := ToYmdhms(t1), ToYmdhms(t2);
      t1 < t2 <==> DateTimeLess(a, b) || (a == b && t1 % 1000 < t2 % 1000)
  {
    YmdhmsCountsBack(t1);
    YmdhmsCountsBack(t2);
    SecsThenMillis(t1, t2);
    SecondsOrder(ToYmdhms(t1), EpochSecs(t1), ToYmdhms(t2), EpochSecs(t2));
  }

  lemma Rfc3339Injective(t1: int, t2: int)
    requires Printable(t1) && Printable(t2) && FormatRfc3339(t1) == FormatRfc3339(t2)
    ensures t1 == t2
  {
    Rfc3339Order(t1, t2);
    Rfc3339Order(t2, t1);
    LessIrreflexive(FormatRfc3339(t1));
  }

  lemma {:induction false} LessIrreflexive(s: string)
    ensures !Less(s, s)
  {
    if |s| > 0 {
      LessIrreflexive(s[1..]);
    }
  }

  lemma CompactTime(a: DateTime, b: DateTime)
    requires ValidDateTime(a) && ValidDateTime(b)
    ensures var u := Pad(a.hour, 2) + (Pad(a.minute, 2) + (Pad(a.second, 2) + ""));
      var v := Pad(b.hour, 2) + (Pad(b.minute, 2) + (Pad(b.second, 2) + ""));
      Less(u, v) <==> DateTimeLess(a.(date := b.date), b)
  {
    assert Pow10(2) == 100;
    var u1, v1 := Pad(a.second, 2) + "", Pad(b.second, 2) + "";
    LessPad(a.second, b.second, 2, "", "");
    LessPad(a.minute, b.minute, 2, u1, v1);
    LessPad(a.hour, b.hour, 2, Pad(a.minute, 2) + u1, Pad(b.minute, 2) + v1);
  }

  lemma CompactDay(a: Date, b: Date, s: string, t: string)
    requires ValidDate(a) && ValidDate(b) && 0 <= a.year <= 9999 && 0 <= b.year <= 9999
    ensures var u := Pad(a.year, 4) + (Pad(a.month, 2) + (Pad(a.day, 2) + ("-" + s)));
      var v := Pad(b.year, 4) + (Pad(b.month, 2) + (Pad(b.day, 2) + ("-" + t)));
      Less(u, v) <==> DateLess(a, b) || (a == b && Less(s, t))
  {
    assert Pow10(2) == 100 && Pow10(4) == 10000;
    var u1, v1 := Pad(a.day, 2) + ("-" + s), Pad(b.day, 2) + ("-" + t);
    LessField(a.day, b.day, 2, '-', s, t);
    LessPad(a.month, b.month, 2, u1, v1);
    LessPad(a.year, b.year, 4, Pad(a.month, 2) + u1, Pad(b.month, 2) + v1);
  }

  lemma CompactFieldsOrder(a: DateTime, b: DateTime)
    requires ValidDateTime(a) && ValidDateTime(b) && 0 <= a.date.year <= 9999 && 0 <= b.date.year <= 9999
    ensures Less(CompactFields(a), CompactFields(b)) <==> DateTimeLess(a, b)
  {
    CompactTime(a, b);
    CompactDay(a.date, b.date,
      Pad(a.hour, 2) + (Pad(a.minute, 2) + (Pad(a.second, 2) + "")),
      Pad(b.hour, 2) + (Pad(b.minute, 2) + (Pad(b.second, 2) + "")));
  }

  /** Backup file names sort by the second they were made in. */
  lemma CompactOrder(t1: int, t2: int)
    requires Printable(t1) && Printable(t2)
    ensures Less(FormatCompact(t1), FormatCompact(t2)) <==> EpochSecs(t1) < EpochSecs(t2)
  {
    PrintableYears(t1);
    PrintableYears(t2);
    CompactFieldsOrder(ToYmdhms(t1), ToYmdhms(t2));
    YmdhmsCountsBack(t1);
    YmdhmsCountsBack(t2);
    SecsThenMillis(t1, t2);
    SecondsOrder(ToYmdhms(t1), EpochSecs(t1), ToYmdhms(t2), EpochSecs(t2));
  }
}
