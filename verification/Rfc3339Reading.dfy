/** The formatted timestamps read back: the characters spell the instant. */
module Rfc3339Reading {
  import opened Gregorian
  import opened Rfc3339
  import opened Timestamp

  predicate AllDigits(s: string) {
    forall i | 0 <= i < |s| :: '0' <= s[i] <= '9'
  }

  /** A string of digits read as a decimal number. */
  function Read(s: string): int {
    if s == "" then 0 else 10 * Read(s[..|s| - 1]) + (s[|s| - 1] as int - '0' as int)
  }

  /** `width` digits that spell `n`. */
  predicate Spells(s: string, width: nat, n: int) {
    |s| == width && AllDigits(s) && Read(s) == n
  }

  lemma {:induction false} FixedSpells(n: nat, width: nat)
    requires n < Pow10(width)
    ensures Spells(Fixed(n, width), width, n)
  {
    if width > 0 {
      FixedSpells(n / 10, width - 1);
      var front, last := Fixed(n / 10, width - 1), Digit(n % 10);
      assert Fixed(n, width) == front + [last];
      assert (front + [last])[..width - 1] == front;
    }
  }

  lemma PadSpells(n: int, width: nat)
    requires width >= 1 && 0 <= n < Pow10(width)
    ensures Spells(Pad(n, width), width, n)
  {
    PadIsFixed(n, width);
    FixedSpells(n, width);
  }

  /** The fields of a time as they are spelt. */
  datatype Spelling = Spelling(year: string, month: string, day: string, hour: string, minute: string, second: string)

  ghost predicate IsSpelling(w: Spelling, dt: DateTime) {
    && Spells(w.year, 4, dt.date.year) && Spells(w.month, 2, dt.date.month) && Spells(w.day, 2, dt.date.day)
    && Spells(w.hour, 2, dt.hour) && Spells(w.minute, 2, dt.minute) && Spells(w.second, 2, dt.second)
  }

  lemma SpellFields(dt: DateTime) returns (w: Spelling)
    requires ValidDateTime(dt) && 0 <= dt.date.year <= 9999
    ensures IsSpelling(w, dt)
    ensures w == Spelling(Pad(dt.date.year, 4), Pad(dt.date.month, 2), Pad(dt.date.day, 2),
                          Pad(dt.hour, 2), Pad(dt.minute, 2), Pad(dt.second, 2))
  {
    assert Pow10(2) == 100 && Pow10(4) == 10000;
    w := Spelling(Pad(dt.date.year, 4), Pad(dt.date.month, 2), Pad(dt.date.day, 2),
                  Pad(dt.hour, 2), Pad(dt.minute, 2), Pad(dt.second, 2));
    PadSpells(dt.date.year, 4);
    PadSpells(dt.date.month, 2);
    PadSpells(dt.date.day, 2);
    PadSpells(dt.hour, 2);
    PadSpells(dt.minute, 2);
    PadSpells(dt.second, 2);
  }

  /** The layout of section 5.6 of RFC 3339, with a fraction of three digits. */
  function Layout(w: Spelling, millis: string): string {
    w.year + ("-" + (w.month + ("-" + (w.day + ("T"
    + (w.hour + (":" + (w.minute + (":" + (w.second + ("." + (millis + "Z"))))))))))))
  }

  function CompactLayout(w: Spelling): string {
    w.year + (w.month + (w.day + ("-" + (w.hour + (w.minute + (w.second + ""))))))
  }

  lemma FieldsAreLaidOut(dt: DateTime, sub: int, w: Spelling)
    requires w == Spelling(Pad(dt.date.year, 4), Pad(dt.date.month, 2), Pad(dt.date.day, 2),
                           Pad(dt.hour, 2), Pad(dt.minute, 2), Pad(dt.second, 2))
    ensures FormatFields(dt, sub) == Layout(w, Pad(sub, 3))
    ensures CompactFields(dt) == CompactLayout(w)
  {
  }

  /** The string of a timestamp up to the year 9999 has the layout, and its digits, read as
      numbers and counted with the calendar, give back the very millisecond. */
  lemma Rfc3339ReadsBack(t: int) returns (w: Spelling, dt: DateTime, millis: string)
    requires Printable(t)
    ensures FormatRfc3339(t) == Layout(w, millis)
    ensures IsSpelling(w, dt) && ValidDateTime(dt) && Spells(millis, 3, t % 1000)
    ensures 1000 * EpochSeconds(dt) + t % 1000 == t
  {
    dt := ToYmdhms(t);
    PrintableYears(t);
    SubsecOf(t);
    YmdhmsCountsBack(t);
    w := SpellFields(dt);
    assert Pow10(3) == 1000;
    PadSpells(t % 1000, 3);
    millis := Pad(t % 1000, 3);
    FieldsAreLaidOut(dt, t % 1000, w);
    assert EpochSecs(t) == t / 1000;
  }

  /** The compact string reads back to the second. */
  lemma CompactReadsBack(t: int) returns (w: Spelling, dt: DateTime)
    requires Printable(t)
    ensures FormatCompact(t) == CompactLayout(w)
    ensures IsSpelling(w, dt) && ValidDateTime(dt) && EpochSeconds(dt) == t / 1000
  {
    dt := ToYmdhms(t);
    PrintableYears(t);
    YmdhmsCountsBack(t);
    w := SpellFields(dt);
    FieldsAreLaidOut(dt, 0, w);
    assert EpochSecs(t) == t / 1000;
  }
}
