/** The proleptic Gregorian calendar as RFC 3339 fixes it: the day-of-month limits of
    section 5.7 and the leap-year rule of Appendix C.

    Days are counted from 1970-01-01 by adding up month and year lengths, so nothing here
    knows about eras or the March-based arithmetic that `Timestamp` uses. */
module Gregorian {
  datatype Date = Date(year: int, month: int, day: int)

  predicate IsLeap(y: int) {
    y % 4 == 0 && (y % 100 != 0 || y % 400 == 0)
  }

  function DaysInMonth(y: int, m: int): int
    requires 1 <= m <= 12
  {
    if m == 2 then (if IsLeap(y) then 29 else 28)
    else if m == 4 || m == 6 || m == 9 || m == 11 then 30
    else 31
  }

  function DaysInYear(y: int): int {
    if IsLeap(y) then 366 else 365
  }

  predicate ValidDate(date: Date) {
    1 <= date.month <= 12 && 1 <= date.day <= DaysInMonth(date.year, date.month)
  }

  /** Days in the months of year `y` before month `m`. */
  function DaysBeforeMonth(y: int, m: int): int
    requires 1 <= m <= 13
  {
    if m == 1 then 0 else DaysBeforeMonth(y, m - 1) + DaysInMonth(y, m - 1)
  }

  /** Days from 1970-01-01 to January 1 of year `y`, negative for earlier years. */
  function DaysBeforeYear(y: int): int
    decreases if y >= 1970 then y - 1970 else 1970 - y
  {
    if y == 1970 then 0
    else if y > 1970 then DaysBeforeYear(y - 1) + DaysInYear(y - 1)
    else DaysBeforeYear(y + 1) - DaysInYear(y)
  }

  function EpochDays(date: Date): int
    requires ValidDate(date)
  {
    DaysBeforeYear(date.year) + DaysBeforeMonth(date.year, date.month) + date.day - 1
  }

  predicate DateLess(a: Date, b: Date) {
    || a.year < b.year
    || (a.year == b.year && a.month < b.month)
    || (a.year == b.year && a.month == b.month && a.day < b.day)
  }

  /** Leap days from the year 1 through the year `y`. */
  function LeapDays(y: int): int {
    y / 4 - y / 100 + y / 400
  }

  lemma QuotientStep(y: int, k: int)
    requires k > 1
    ensures y / k == (y - 1) / k + (if y % k == 0 then 1 else 0)
  {
    var q, r := y / k, y % k;
    assert y == k * q + r;
    if r == 0 {
      assert y - 1 == k * (q - 1) + (k - 1);
      QuotientUnique(y - 1, k, q - 1, k - 1);
    } else {
      QuotientUnique(y - 1, k, q, r - 1);
    }
  }

  lemma QuotientUnique(n: int, k: int, q: int, r: int)
    requires k > 0 && 0 <= r < k && n == k * q + r
    ensures n / k == q && n % k == r
  {
    var d := q - n / k;
    assert k * d == n % k - r;
    MultipleIsFar(k, d);
  }

  lemma MultipleIsFar(k: int, d: int)
    requires k > 0
    ensures d > 0 ==> k * d >= k
    ensures d < 0 ==> k * d <= -k
  {
  }

  lemma LeapDaysStep(y: int)
    ensures LeapDays(y) == LeapDays(y - 1) + (if IsLeap(y) then 1 else 0)
  {
    QuotientStep(y, 4);
    QuotientStep(y, 100);
    QuotientStep(y, 400);
    MultiplesNest(y);
  }

  lemma MultiplesNest(y: int)
    ensures y % 400 == 0 ==> y % 100 == 0
    ensures y % 100 == 0 ==> y % 4 == 0
  {
  }

  /** The leap-year pattern repeats every 400 years. */
  lemma LeapDaysPeriod(k: int, n: int)
    ensures LeapDays(400 * k + n) == 97 * k + LeapDays(n)
    ensures IsLeap(400 * k + n) == IsLeap(n)
  {
    QuotientUnique(400 * k + n, 4, 100 * k + n / 4, n % 4);
    QuotientUnique(400 * k + n, 100, 4 * k + n / 100, n % 100);
    QuotientUnique(400 * k + n, 400, k + n / 400, n % 400);
  }

  /** The count of year lengths in closed form. */
  lemma {:induction false} YearsClosedForm(y: int)
    ensures DaysBeforeYear(y) == 365 * (y - 1970) + LeapDays(y - 1) - LeapDays(1969)
    decreases if y >= 1970 then y - 1970 else 1970 - y
  {
    if y > 1970 {
      YearsClosedForm(y - 1);
      LeapDaysStep(y - 1);
    } else if y < 1970 {
      YearsClosedForm(y + 1);
      LeapDaysStep(y);
    }
  }

  lemma MonthTable(y: int)
    ensures DaysBeforeMonth(y, 2) == 31
    ensures DaysBeforeMonth(y, 3) == 59 + (if IsLeap(y) then 1 else 0)
    ensures DaysBeforeMonth(y, 4) == DaysBeforeMonth(y, 3) + 31
    ensures DaysBeforeMonth(y, 5) == DaysBeforeMonth(y, 3) + 61
    ensures DaysBeforeMonth(y, 6) == DaysBeforeMonth(y, 3) + 92
    ensures DaysBeforeMonth(y, 7) == DaysBeforeMonth(y, 3) + 122
    ensures DaysBeforeMonth(y, 8) == DaysBeforeMonth(y, 3) + 153
    ensures DaysBeforeMonth(y, 9) == DaysBeforeMonth(y, 3) + 184
    ensures DaysBeforeMonth(y, 10) == DaysBeforeMonth(y, 3) + 214
    ensures DaysBeforeMonth(y, 11) == DaysBeforeMonth(y, 3) + 245
    ensures DaysBeforeMonth(y, 12) == DaysBeforeMonth(y, 3) + 275
    ensures DaysBeforeMonth(y, 13) == DaysInYear(y)
  {
  }

  lemma {:induction false} MonthsGrow(y: int, m: int, n: int)
    requires 1 <= m < n <= 13
    ensures DaysBeforeMonth(y, m) + DaysInMonth(y, m) <= DaysBeforeMonth(y, n)
    decreases n
  {
    if m + 1 < n {
      MonthsGrow(y, m, n - 1);
    }
  }

  lemma {:induction false} YearsGrow(y: int, z: int)
    requires y < z
    ensures DaysBeforeYear(y) + DaysInYear(y) <= DaysBeforeYear(z)
    decreases z - y
  {
    if y + 1 < z {
      YearsGrow(y, z - 1);
    }
  }

  /** Counting days keeps the calendar order, so no two dates share a count. */
  lemma EpochDaysMonotone(a: Date, b: Date)
    requires ValidDate(a) && ValidDate(b) && DateLess(a, b)
    ensures EpochDays(a) < EpochDays(b)
  {
    if a.year < b.year {
      YearsGrow(a.year, b.year);
      MonthTable(a.year);
      MonthsGrow(a.year, a.month, 13);
      MonthsNonNegative(b.year, b.month);
    } else if a.month < b.month {
      MonthsGrow(a.year, a.month, b.month);
    }
  }

  lemma {:induction false} MonthsNonNegative(y: int, m: int)
    requires 1 <= m <= 13
    ensures DaysBeforeMonth(y, m) >= 0
  {
    if m > 1 {
      MonthsNonNegative(y, m - 1);
    }
  }

  lemma EpochDaysInjective(a: Date, b: Date)
    requires ValidDate(a) && ValidDate(b) && EpochDays(a) == EpochDays(b)
    ensures a == b
  {
    if DateLess(a, b) {
      EpochDaysMonotone(a, b);
    } else if DateLess(b, a) {
      EpochDaysMonotone(b, a);
    }
  }
}
