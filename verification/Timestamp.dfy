/** `Timestamp` of core/types/mod.rs: a Unix time in milliseconds, its conversion to a
    calendar date and time of day, and what that conversion promises. */
module Timestamp {
  import opened Gregorian

  const MILLIS_MIN: int := -0x8000_0000_0000_0000
  const MILLIS_MAX: int := 0x7FFF_FFFF_FFFF_FFFF
  const SECONDS_PER_DAY: int := 86400

  datatype DateTime = DateTime(date: Date, hour: int, minute: int, second: int)

  /** Signed division as the source's integers do it, toward zero. */
  function TruncDiv(a: int, b: int): int
    requires b > 0
  {
    if a >= 0 then a / b else -(-a / b)
  }

  function TruncRem(a: int, b: int): int
    requires b > 0
  {
    a - b * TruncDiv(a, b)
  }

  function Abs(a: int): int {
    if a >= 0 then a else -a
  }

  /** The casts `as u32` and `as i32`. */
  function AsU32(a: int): int {
    a % 0x1_0000_0000
  }

  function AsI32(a: int): int {
    (a + 0x8000_0000) % 0x1_0000_0000 - 0x8000_0000
  }

  function EpochSecs(millis: int): int {
    TruncDiv(millis, 1000)
  }

  function EpochSubsecMillis(millis: int): int {
    AsU32(Abs(TruncRem(millis, 1000)))
  }

  function Era(z: int): int {
    TruncDiv(if z >= 0 then z else z - 146096, 146097)
  }

  /** The year of the era a day of the era falls into; years start in March. */
  function YearOfEra(doe: int): int {
    TruncDiv(doe - TruncDiv(doe, 1460) + TruncDiv(doe, 36524) - TruncDiv(doe, 146096), 365)
  }

  /** Days of the era before its year `yoe`. */
  function EraYearStart(yoe: int): int {
    365 * yoe + TruncDiv(yoe, 4) - TruncDiv(yoe, 100)
  }

  /** Day `doy` of the year that starts on March 1 of the year `y`. */
  function MarchDate(y: int, doy: int): Date {
    var mp := TruncDiv(5 * doy + 2, 153);
    var d := AsU32(doy - TruncDiv(153 * mp + 2, 5) + 1);
    var m := AsU32(if mp < 10 then mp + 3 else mp - 9);
    var year := y + if m <= 2 then 1 else 0;
    Date(AsI32(year), m, d)
  }

  /** The date part of `to_ymdhms`, for the day `z` counted from March 1 of the year 0. */
  function YearMonthDay(z: int): Date {
    var era := Era(z);
    var doe := z - era * 146097;
    var yoe := YearOfEra(doe);
    MarchDate(yoe + era * 400, doe - EraYearStart(yoe))
  }

  /** The seconds of the day, as `to_ymdhms` takes them. */
  function SecondsOfDay(secs: int): int {
    if secs >= 0 then TruncRem(secs, 86400) else 86400 - TruncRem(-secs, 86400)
  }

  function ToYmdhms(millis: int): DateTime {
    var secs := EpochSecs(millis);
    var rem := SecondsOfDay(secs);
    DateTime(YearMonthDay(TruncDiv(secs, 86400) + 719468),
             AsU32(TruncDiv(rem, 3600)),
             AsU32(TruncDiv(TruncRem(rem, 3600), 60)),
             AsU32(TruncRem(rem, 60)))
  }

  lemma CastsKeep(a: int)
    ensures 0 <= a < 0x1_0000_0000 ==> AsU32(a) == a
    ensures -0x8000_0000 <= a < 0x8000_0000 ==> AsI32(a) == a
  {
  }

  lemma EraIsFloor(z: int)
    ensures Era(z) == z / 146097
  {
    if z < 0 {
      var q, r := z / 146097, z % 146097;
      assert -(z - 146096) == 146097 * -q + (146096 - r);
      QuotientUnique(-(z - 146096), 146097, -q, 146096 - r);
    }
  }

  lemma YearOfEraFloors(doe: int)
    requires 0 <= doe
    ensures YearOfEra(doe) == (doe - doe / 1460 + doe / 36524 - doe / 146096) / 365
  {
  }

  /** A day of the era as centuries, four-year cycles, years and a day of the year. */
  predicate Split(c: int, q: int, a: int, g: int) {
    && 0 <= c <= 3 && 0 <= q <= 24 && 0 <= a <= 3
    && 0 <= g <= (if a == 3 && (q < 24 || c == 3) then 365 else 364)
  }

  function SplitDays(c: int, q: int, a: int, g: int): int {
    36524 * c + 1461 * q + 365 * a + g
  }

  /** The three corrections of the year-of-era formula, for a split day. */
  lemma Corrections(c: int, q: int, a: int, g: int) returns (carry: int, last: int)
    requires Split(c, q, a, g)
    ensures var doe := SplitDays(c, q, a, g);
      && doe / 1460 == 25 * c + q + carry && doe / 36524 == c + last && doe / 146096 == last
      && 0 <= g - carry < 365
  {
    var doe := SplitDays(c, q, a, g);
    var r := 24 * c + q + 365 * a + g;
    carry := if r >= 1460 then 1 else 0;
    QuotientUnique(doe, 1460, 25 * c + q + carry, r - 1460 * carry);
    last := if doe == 146096 then 1 else 0;
    QuotientUnique(doe, 36524, c + last, doe - 36524 * (c + last));
    QuotientUnique(doe, 146096, last, doe - 146096 * last);
  }

  lemma YearOfEraSplit(c: int, q: int, a: int, g: int)
    requires Split(c, q, a, g)
    ensures YearOfEra(SplitDays(c, q, a, g)) == 100 * c + 4 * q + a
  {
    var doe := SplitDays(c, q, a, g);
    var carry, last := Corrections(c, q, a, g);
    YearOfEraFloors(doe);
    var corrected := doe - doe / 1460 + doe / 36524 - doe / 146096;
    assert corrected == 365 * (100 * c + 4 * q + a) + (g - carry);
    QuotientUnique(corrected, 365, 100 * c + 4 * q + a, g - carry);
  }

  lemma SplitYear(c: int, q: int, a: int)
    requires Split(c, q, a, 0)
    ensures var yoe := 100 * c + 4 * q + a;
      && 0 <= yoe <= 399
      && EraYearStart(yoe) == SplitDays(c, q, a, 0)
      && (a == 3 && (q < 24 || c == 3) ==> IsLeap(yoe + 1))
  {
    var yoe := 100 * c + 4 * q + a;
    QuotientUnique(yoe, 4, 25 * c + q, a);
    QuotientUnique(yoe, 100, c, 4 * q + a);
    if a == 3 && q < 24 {
      QuotientUnique(yoe + 1, 4, 25 * c + q + 1, 0);
      QuotientUnique(yoe + 1, 100, c, 4 * q + 4);
    }
  }

  lemma SplitDay(doe: int) returns (c: int, q: int, a: int, g: int)
    requires 0 <= doe < 146097
    ensures Split(c, q, a, g) && doe == SplitDays(c, q, a, g)
  {
    c := if doe == 146096 then 3 else doe / 36524;
    var e := doe - 36524 * c;
    q := e / 1461;
    var f := e % 1461;
    a := if f == 1460 then 3 else f / 365;
    g := f - 365 * a;
  }

  /** `doe` is a day of year `yoe` of the era; only a year whose February has 29 days reaches
      day 365. */
  predicate InYear(doe: int, yoe: int) {
    0 <= yoe <= 399 && 0 <= doe - EraYearStart(yoe) <= (if IsLeap(yoe + 1) then 365 else 364)
  }

  lemma SplitDayInYear(c: int, q: int, a: int, g: int)
    requires Split(c, q, a, g)
    ensures InYear(SplitDays(c, q, a, g), 100 * c + 4 * q + a)
  {
    SplitYear(c, q, a);
  }

  /** A day of the era lies inside the year `YearOfEra` names. */
  lemma YearOfEraBrackets(doe: int)
    requires 0 <= doe < 146097
    ensures InYear(doe, YearOfEra(doe))
  {
    var c, q, a, g := SplitDay(doe);
    YearOfEraSplit(c, q, a, g);
    SplitDayInYear(c, q, a, g);
  }

  /** The months from March on, by the day of the March-based year. */
  lemma MarchMonths(doy: int)
    requires 0 <= doy <= 365
    ensures var mp := (5 * doy + 2) / 153;
      && mp == TruncDiv(5 * doy + 2, 153) && TruncDiv(153 * mp + 2, 5) == (153 * mp + 2) / 5
      && 0 <= mp <= 11
      && 1 <= doy - (153 * mp + 2) / 5 + 1
      && (mp < 11 ==> doy < (153 * (mp + 1) + 2) / 5)
  {
  }

  /** Days from March 1 of a year to the first of each month that follows it. */
  lemma MarchTable(y: int, mp: int)
    requires 0 <= mp <= 11
    ensures mp < 10 ==> DaysBeforeMonth(y, mp + 3) == DaysBeforeMonth(y, 3) + (153 * mp + 2) / 5
    ensures mp >= 10 ==> DaysBeforeMonth(y, mp - 9) == (153 * mp + 2) / 5 - 306
    ensures mp < 10 ==> DaysInMonth(y, mp + 3) == (153 * (mp + 1) + 2) / 5 - (153 * mp + 2) / 5
    ensures DaysInMonth(y, 1) == 31 && (153 * 11 + 2) / 5 - (153 * 10 + 2) / 5 == 31
  {
    MonthTable(y);
    assert (153 * 11 + 2) / 5 == 337;
    match mp {
      case 0 => case 1 => case 2 => case 3 => case 4 => case 5 =>
      case 6 => case 7 => case 8 => case 9 => case 10 => case _ =>
    }
  }

  lemma LeapDaysOfEra(era: int, yoe: int)
    requires 0 <= yoe < 400
    ensures LeapDays(400 * era + yoe) == 97 * era + EraYearStart(yoe) - 365 * yoe
  {
    LeapDaysPeriod(era, yoe);
    QuotientUnique(yoe, 400, 0, yoe);
  }

  /** Days before the January 1 inside year `yoe` of the era. */
  lemma JanuaryStart(era: int, yoe: int)
    requires 0 <= yoe < 400
    ensures DaysBeforeYear(400 * era + yoe + 1) == 146097 * era + EraYearStart(yoe) - 719468 + 306
  {
    YearsClosedForm(400 * era + yoe + 1);
    LeapDaysOfEra(era, yoe);
    assert LeapDays(1969) == 477;
  }

  /** Days before the March 1 that starts year `yoe` of the era. */
  lemma MarchStart(era: int, yoe: int)
    requires 0 <= yoe < 400
    ensures var y := 400 * era + yoe;
      DaysBeforeYear(y) + DaysBeforeMonth(y, 3) == 146097 * era + EraYearStart(yoe) - 719468
  {
    var y := 400 * era + yoe;
    JanuaryStart(era, yoe);
    MonthTable(y);
    YearsClosedForm(y);
    YearsClosedForm(y + 1);
    LeapDaysStep(y);
  }

  lemma MarchDateFields(y: int, doy: int)
    requires -500_000_000 <= y <= 500_000_000 && 0 <= doy <= 365
    ensures var mp := (5 * doy + 2) / 153;
      var m := if mp < 10 then mp + 3 else mp - 9;
      MarchDate(y, doy) == Date(y + (if m <= 2 then 1 else 0), m, doy - (153 * mp + 2) / 5 + 1)
  {
  }

  /** A date on or after March 1. */
  lemma SpringDays(era: int, yoe: int, mp: int, d: int)
    requires 0 <= yoe < 400 && 0 <= mp < 10 && 1 <= d <= (153 * (mp + 1) + 2) / 5 - (153 * mp + 2) / 5
    ensures var date := Date(yoe + era * 400, mp + 3, d);
      ValidDate(date) && EpochDays(date) == 146097 * era + EraYearStart(yoe) - 719468 + (153 * mp + 2) / 5 + d - 1
  {
    MarchStart(era, yoe);
    MarchTable(yoe + era * 400, mp);
  }

  /** A date in January or February, which belongs to the March-based year before it. */
  lemma WinterDays(era: int, yoe: int, mp: int, d: int)
    requires 0 <= yoe < 400 && 10 <= mp <= 11 && 1 <= d
    requires d <= if mp == 10 then 31 else if IsLeap(yoe + 1) then 29 else 28
    ensures var date := Date(yoe + era * 400 + 1, mp - 9, d);
      ValidDate(date) && EpochDays(date) == 146097 * era + EraYearStart(yoe) - 719468 + (153 * mp + 2) / 5 + d - 1
  {
    JanuaryStart(era, yoe);
    MarchTable(yoe + era * 400 + 1, mp);
    LeapDaysPeriod(era, yoe + 1);
    assert 400 * era + (yoe + 1) == yoe + era * 400 + 1;
  }

  lemma MarchDateDays(era: int, yoe: int, doy: int)
    requires -1_000_000 <= era <= 1_000_000 && 0 <= yoe < 400
    requires 0 <= doy <= (if IsLeap(yoe + 1) then 365 else 364)
    ensures var date := MarchDate(yoe + era * 400, doy);
      ValidDate(date) && EpochDays(date) == 146097 * era + EraYearStart(yoe) + doy - 719468
  {
    var mp := (5 * doy + 2) / 153;
    var d := doy - (153 * mp + 2) / 5 + 1;
    MarchDateFields(yoe + era * 400, doy);
    MarchMonths(doy);
    if mp < 10 {
      SpringDays(era, yoe, mp, d);
    } else {
      assert (153 * 10 + 2) / 5 == 306 && (153 * 11 + 2) / 5 == 337;
      WinterDays(era, yoe, mp, d);
    }
  }

  lemma YearMonthDayParts(z: int)
    ensures var doe := z % 146097;
      YearMonthDay(z) == MarchDate(YearOfEra(doe) + z / 146097 * 400, doe - EraYearStart(YearOfEra(doe)))
  {
    EraIsFloor(z);
    assert z == 146097 * (z / 146097) + z % 146097;
  }

  /** The date of a day counts back to that day. */
  lemma YearMonthDayCountsBack(z: int)
    requires -110_000_000_000 <= z <= 110_000_000_000
    ensures ValidDate(YearMonthDay(z)) && EpochDays(YearMonthDay(z)) == z - 719468
  {
    var era, doe := z / 146097, z % 146097;
    YearMonthDayParts(z);
    YearOfEraBrackets(doe);
    var yoe := YearOfEra(doe);
    MarchDateDays(era, yoe, doe - EraYearStart(yoe));
  }

  predicate InRange(millis: int) {
    MILLIS_MIN <= millis <= MILLIS_MAX
  }

  predicate ValidDateTime(dt: DateTime) {
    ValidDate(dt.date) && 0 <= dt.hour < 24 && 0 <= dt.minute < 60 && 0 <= dt.second < 60
  }

  /** Seconds from 1970-01-01T00:00:00Z, counted with the calendar. */
  function EpochSeconds(dt: DateTime): int
    requires ValidDate(dt.date)
  {
    SECONDS_PER_DAY * EpochDays(dt.date) + 3600 * dt.hour + 60 * dt.minute + dt.second
  }

  lemma SecondsSplit(rem: int)
    requires 0 <= rem
    ensures 3600 * (rem / 3600) + 60 * (rem % 3600 / 60) + rem % 60 == rem
    ensures 0 <= rem % 3600 / 60 < 60
  {
    QuotientUnique(rem % 60, 60, 0, rem % 60);
    QuotientUnique(rem, 60, 60 * (rem / 3600) + rem % 3600 / 60, rem % 3600 % 60);
  }

  /** The clock fields of a number of seconds. */
  predicate ClockOf(dt: DateTime, rem: int) {
    && 3600 * dt.hour + 60 * dt.minute + dt.second == rem
    && 0 <= dt.hour && (dt.hour < 24 <==> rem < SECONDS_PER_DAY)
    && 0 <= dt.minute < 60 && 0 <= dt.second < 60
  }

  /** The clock fields as `ToYmdhms` computes them. */
  lemma ClockFields(date: Date, rem: int)
    requires 0 <= rem <= SECONDS_PER_DAY
    ensures ClockOf(DateTime(date, AsU32(TruncDiv(rem, 3600)), AsU32(TruncDiv(TruncRem(rem, 3600), 60)),
                             AsU32(TruncRem(rem, 60))), rem)
  {
    SecondsSplit(rem);
    assert TruncDiv(rem, 3600) == rem / 3600 && TruncRem(rem, 3600) == rem % 3600 && TruncRem(rem, 60) == rem % 60;
    CastsKeep(rem / 3600);
    CastsKeep(rem % 3600 / 60);
    CastsKeep(rem % 60);
  }

  lemma TimeOfYmdhms(millis: int)
    ensures ClockOf(ToYmdhms(millis), SecondsOfDay(EpochSecs(millis)))
  {
    var secs := EpochSecs(millis);
    DayAndRest(secs);
    ClockFields(YearMonthDay(TruncDiv(secs, 86400) + 719468), SecondsOfDay(secs));
  }

  lemma DayAndRest(secs: int)
    ensures SECONDS_PER_DAY * TruncDiv(secs, 86400) + SecondsOfDay(secs)
         == secs + (if secs >= 0 then 0 else SECONDS_PER_DAY)
    ensures 0 <= SecondsOfDay(secs) <= 86400
    ensures SecondsOfDay(secs) == 86400 <==> secs < 0 && secs % 86400 == 0
  {
    if secs < 0 {
      QuotientUnique(secs, 86400, -(-secs / 86400) - (if -secs % 86400 == 0 then 0 else 1),
                     if -secs % 86400 == 0 then 0 else 86400 - -secs % 86400);
    }
  }

  lemma DayIsInRange(millis: int)
    requires InRange(millis)
    ensures -110_000_000_000 <= TruncDiv(EpochSecs(millis), 86400) + 719468 <= 110_000_000_000
  {
    SecsAreInRange(millis);
  }

  lemma SecsAreInRange(millis: int)
    requires InRange(millis)
    ensures -0x20_C49B_A5E3_53F7 <= EpochSecs(millis) <= 0x20_C49B_A5E3_53F7
  {
  }

  lemma DateOfYmdhms(millis: int)
    requires InRange(millis)
    ensures ValidDate(ToYmdhms(millis).date) && EpochDays(ToYmdhms(millis).date) == TruncDiv(EpochSecs(millis), 86400)
  {
    DayIsInRange(millis);
    YearMonthDayCountsBack(TruncDiv(EpochSecs(millis), 86400) + 719468);
  }

  /** What `to_ymdhms` makes of second `secs`: the date is valid; the time of day is valid, and
      counting back gives the same second, from the epoch on; before it the result is exactly
      one day late, and at a midnight the hour reads 24. */
  ghost predicate CountsBack(dt: DateTime, secs: int) {
    && ValidDate(dt.date)
    && (ValidDateTime(dt) <==> secs >= 0 || secs % 86400 != 0)
    && EpochSeconds(dt) == secs + (if secs >= 0 then 0 else SECONDS_PER_DAY)
  }

  lemma PartsCountBack(dt: DateTime, secs: int, days: int, rem: int)
    requires ValidDate(dt.date) && EpochDays(dt.date) == days && ClockOf(dt, rem)
    requires SECONDS_PER_DAY * days + rem == secs + (if secs >= 0 then 0 else SECONDS_PER_DAY)
    requires rem <= 86400 && (rem == 86400 <==> secs < 0 && secs % 86400 == 0)
    ensures CountsBack(dt, secs)
  {
  }

  /** Every representable timestamp counts back as described. */
  lemma YmdhmsCountsBack(millis: int)
    requires InRange(millis)
    ensures CountsBack(ToYmdhms(millis), EpochSecs(millis))
  {
    var secs := EpochSecs(millis);
    DateOfYmdhms(millis);
    TimeOfYmdhms(millis);
    DayAndRest(secs);
    PartsCountBack(ToYmdhms(millis), secs, TruncDiv(secs, 86400), SecondsOfDay(secs));
  }

  /** The conversion is right exactly on the timestamps later than -1000 ms. */
  lemma YmdhmsRoundTrip(millis: int)
    requires InRange(millis)
    ensures var dt := ToYmdhms(millis);
      (ValidDateTime(dt) && EpochSeconds(dt) == EpochSecs(millis)) <==> millis > -1000
  {
    YmdhmsCountsBack(millis);
  }

  /** One second before the epoch comes out as the last second of January 1, 1970. */
  lemma BeforeEpochIsADayLate()
    ensures var dt := ToYmdhms(-1000);
      EpochSecs(-1000) == -1 && ValidDateTime(dt) && EpochSeconds(dt) == 86399
  {
    YmdhmsCountsBack(-1000);
  }

  lemma TimeOfDayUnique(days1: int, h1: int, m1: int, s1: int, days2: int, h2: int, m2: int, s2: int)
    requires 0 <= h1 < 24 && 0 <= m1 < 60 && 0 <= s1 < 60
    requires 0 <= h2 < 24 && 0 <= m2 < 60 && 0 <= s2 < 60
    requires 86400 * days1 + 3600 * h1 + 60 * m1 + s1 == 86400 * days2 + 3600 * h2 + 60 * m2 + s2
    ensures days1 == days2 && h1 == h2 && m1 == m2 && s1 == s2
  {
  }

  /** Every valid date and time from the epoch on is the image of its own second. */
  lemma YmdhmsOntoCalendar(dt: DateTime, sub: int)
    requires ValidDateTime(dt) && EpochSeconds(dt) >= 0 && 0 <= sub < 1000
    requires InRange(1000 * EpochSeconds(dt) + sub)
    ensures ToYmdhms(1000 * EpochSeconds(dt) + sub) == dt
  {
    var millis := 1000 * EpochSeconds(dt) + sub;
    YmdhmsCountsBack(millis);
    var back := ToYmdhms(millis);
    TimeOfDayUnique(EpochDays(dt.date), dt.hour, dt.minute, dt.second,
                    EpochDays(back.date), back.hour, back.minute, back.second);
    EpochDaysInjective(dt.date, back.date);
  }

  predicate DateTimeLess(a: DateTime, b: DateTime) {
    || DateLess(a.date, b.date)
    || (a.date == b.date && a.hour < b.hour)
    || (a.date == b.date && a.hour == b.hour && a.minute < b.minute)
    || (a.date == b.date && a.hour == b.hour && a.minute == b.minute && a.second < b.second)
  }

  lemma EpochSecondsMonotone(a: DateTime, b: DateTime)
    requires ValidDateTime(a) && ValidDateTime(b)
    ensures EpochSeconds(a) < EpochSeconds(b) <==> DateTimeLess(a, b)
    ensures EpochSeconds(a) == EpochSeconds(b) <==> a == b
  {
    if DateLess(a.date, b.date) {
      EpochDaysMonotone(a.date, b.date);
    } else if DateLess(b.date, a.date) {
      EpochDaysMonotone(b.date, a.date);
    }
  }
}
