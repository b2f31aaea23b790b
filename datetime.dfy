/**
 * Instants as the server handles them: UTC calendar date-times of whole
 * seconds with four-digit years, the range in which chrono's `%Y` prints
 * exactly four digits.
 */
module Times {
  import opened Maybe
  import opened Text

  datatype DateTime = DateTime(year: int, month: int, day: int, hour: int, minute: int, second: int)

  predicate IsLeapYear(y: int) {
    y % 4 == 0 && (y % 100 != 0 || y % 400 == 0)
  }

  function DaysInMonth(y: int, m: int): int
    requires 1 <= m <= 12
  {
    if m == 2 then (if IsLeapYear(y) then 29 else 28)
    else if m == 4 || m == 6 || m == 9 || m == 11 then 30
    else 31
  }

  /** A proleptic Gregorian date-time with a four-digit year. */
  predicate ValidTime(t: DateTime) {
    && 0 <= t.year <= 9999
    && 1 <= t.month <= 12
    && 1 <= t.day <= DaysInMonth(t.year, t.month)
    && 0 <= t.hour < 24
    && 0 <= t.minute < 60
    && 0 <= t.second < 60
  }

  /** A value of chrono's `DateTime<Utc>`: always a valid instant. */
  type Instant = t: DateTime | ValidTime(t) witness DateTime(1970, 1, 1, 0, 0, 0)

  function DaysBeforeMonth(y: int, m: int): int
    requires 1 <= m <= 12
  {
    if m == 1 then 0 else DaysBeforeMonth(y, m - 1) + DaysInMonth(y, m - 1)
  }

  /** Days from 0000-01-01 to the date of `t`. */
  function DayNumber(t: DateTime): int
    requires ValidTime(t)
  {
    var y := t.year;
    365 * y + (y + 3) / 4 - (y + 99) / 100 + (y + 399) / 400 + DaysBeforeMonth(y, t.month) + t.day - 1
  }

  /** Seconds since 0000-01-01T00:00:00Z: chrono compares `DateTime<Utc>` values by this number. */
  function Timestamp(t: DateTime): int
    requires ValidTime(t)
  {
    DayNumber(t) * 86400 + t.hour * 3600 + t.minute * 60 + t.second
  }

  // ---------------------------------------------------------------------
  // Formatting

  /** `format("%Y%m%d")`. */
  function FormatBasicDate(t: DateTime): string
    requires ValidTime(t)
  {
    PadDigits(t.year, 4) + PadDigits(t.month, 2) + PadDigits(t.day, 2)
  }

  /** `format("%Y%m%dT%H%M%SZ")`: the UTC form of the DATE-TIME value of RFC 5545 section 3.3.5. */
  function FormatUtc(t: DateTime): string
    requires ValidTime(t)
  {
    FormatBasicDate(t) + "T" + PadDigits(t.hour, 2) + PadDigits(t.minute, 2) + PadDigits(t.second, 2) + "Z"
  }

  /** `format("%Y-%m-%dT%H:%M")`: the value of an HTML datetime-local input. */
  function FormatLocalInput(t: DateTime): string
    requires ValidTime(t)
  {
    PadDigits(t.year, 4) + "-" + PadDigits(t.month, 2) + "-" + PadDigits(t.day, 2)
    + "T" + PadDigits(t.hour, 2) + ":" + PadDigits(t.minute, 2)
  }

  // ---------------------------------------------------------------------
  // Parsing on the fixed-width digit grammar

  function Checked(t: DateTime): (r: Option<DateTime>)
    ensures r.Some? ==> ValidTime(r.value) && r.value == t
    ensures ValidTime(t) ==> r == Some(t)
  {
    if ValidTime(t) then Some(t) else None
  }

  /**
   * `NaiveDate::parse_from_str(s, "%Y%m%d")` taken at 00:00:00, read only in
   * its zero-padded fixed-width spelling (the DATE value of RFC 5545 section
   * 3.3.4): chrono's shorter fields, leading blanks and signed years are not.
   */
  function ParseBasicDate(s: string): (r: Option<DateTime>)
    ensures r.Some? ==> ValidTime(r.value) && r.value.hour == 0 && r.value.minute == 0 && r.value.second == 0
  {
    if |s| == 8 && AllDigits(s) then
      Checked(DateTime(DigitsValue(s[0..4]), DigitsValue(s[4..6]), DigitsValue(s[6..8]), 0, 0, 0))
    else None
  }

  /**
   * `NaiveDateTime::parse_from_str(s, "%Y%m%dT%H%M%S")`, read only in its
   * zero-padded fixed-width spelling, as RFC 5545 section 3.3.5 writes it.
   */
  function ParseBasicDateTime(s: string): (r: Option<DateTime>)
    ensures r.Some? ==> ValidTime(r.value)
  {
    if |s| == 15 && s[8] == 'T' && AllDigits(s[..8]) && AllDigits(s[9..]) then
      BasicDateTimeDigits(s);
      Checked(DateTime(DigitsValue(s[0..4]), DigitsValue(s[4..6]), DigitsValue(s[6..8]),
                       DigitsValue(s[9..11]), DigitsValue(s[11..13]), DigitsValue(s[13..15])))
    else None
  }

  /** The six numeric fields of a `%Y%m%dT%H%M%S` value are digits. */
  lemma BasicDateTimeDigits(s: string)
    requires |s| == 15 && AllDigits(s[..8]) && AllDigits(s[9..])
    ensures AllDigits(s[0..4]) && AllDigits(s[4..6]) && AllDigits(s[6..8])
    ensures AllDigits(s[9..11]) && AllDigits(s[11..13]) && AllDigits(s[13..15])
  {
    assert forall k :: 0 <= k < 8 ==> IsDigit(s[..8][k]);
    assert forall k :: 0 <= k < 8 ==> IsDigit(s[k]);
    assert forall k :: 0 <= k < 6 ==> IsDigit(s[9..][k]);
    assert forall k :: 9 <= k < 15 ==> s[k] == s[9..][k - 9];
  }

  /**
   * `NaiveDateTime::parse_from_str(s, "%Y-%m-%dT%H:%M")`, seconds zero, read
   * only in the zero-padded fixed-width spelling a datetime-local input sends.
   */
  function ParseLocalInput(s: string): (r: Option<DateTime>)
    ensures r.Some? ==> ValidTime(r.value) && r.value.second == 0
  {
    if && |s| == 16 && s[4] == '-' && s[7] == '-' && s[10] == 'T' && s[13] == ':'
       && AllDigits(s[0..4]) && AllDigits(s[5..7]) && AllDigits(s[8..10])
       && AllDigits(s[11..13]) && AllDigits(s[14..16])
    then
      Checked(DateTime(DigitsValue(s[0..4]), DigitsValue(s[5..7]), DigitsValue(s[8..10]),
                       DigitsValue(s[11..13]), DigitsValue(s[14..16]), 0))
    else None
  }

  // ---------------------------------------------------------------------
  // Round trips

  lemma FieldsFit(t: DateTime)
    requires ValidTime(t)
    ensures t.year < Pow10(4) && t.month < Pow10(2) && t.day < Pow10(2)
    ensures t.hour < Pow10(2) && t.minute < Pow10(2) && t.second < Pow10(2)
  {
    assert Pow10(2) == 100;
    assert Pow10(4) == 10000;
  }

  /** The UTC form holds digits, with `T` at index 8 and `Z` at index 15. */
  lemma FormatUtcChars(t: DateTime)
    requires ValidTime(t)
    ensures var s := FormatUtc(t);
      && |s| == 16 && s[8] == 'T' && s[15] == 'Z'
      && forall i :: 0 <= i < 16 && i != 8 && i != 15 ==> IsDigit(s[i])
  {
    var y, mo, d := PadDigits(t.year, 4), PadDigits(t.month, 2), PadDigits(t.day, 2);
    var h, mi, se := PadDigits(t.hour, 2), PadDigits(t.minute, 2), PadDigits(t.second, 2);
    var s := FormatUtc(t);
    assert s == y + mo + d + "T" + h + mi + se + "Z";
    forall i | 0 <= i < 16 && i != 8 && i != 15
      ensures IsDigit(s[i])
    {
      if i < 4 { assert s[i] == y[i]; }
      else if i < 6 { assert s[i] == mo[i - 4]; }
      else if i < 8 { assert s[i] == d[i - 6]; }
      else if i < 11 { assert s[i] == h[i - 9]; }
      else if i < 13 { assert s[i] == mi[i - 11]; }
      else { assert s[i] == se[i - 13]; }
    }
  }

  /** The first fifteen characters of the UTC form are read back as the same instant. */
  lemma ParseFormatUtc(t: DateTime)
    requires ValidTime(t)
    ensures |FormatUtc(t)| == 16 && FormatUtc(t)[15] == 'Z' && IsAscii(FormatUtc(t))
    ensures ParseBasicDateTime(FormatUtc(t)[..15]) == Some(t)
  {
    var y, mo, d := PadDigits(t.year, 4), PadDigits(t.month, 2), PadDigits(t.day, 2);
    var h, mi, se := PadDigits(t.hour, 2), PadDigits(t.minute, 2), PadDigits(t.second, 2);
    var s := FormatUtc(t);
    assert s == y + mo + d + "T" + h + mi + se + "Z";
    var p := s[..15];
    assert p == y + mo + d + "T" + h + mi + se;
    assert p[0..4] == y;
    assert p[4..6] == mo;
    assert p[6..8] == d;
    assert p[9..11] == h;
    assert p[11..13] == mi;
    assert p[13..15] == se;
    assert p[8] == 'T';
    assert AllDigits(p[..8]) by {
      assert p[..8] == y + mo + d;
    }
    assert AllDigits(p[9..]) by {
      assert p[9..] == h + mi + se;
    }
    FieldsFit(t);
    PadDigitsValue(t.year, 4);
    PadDigitsValue(t.month, 2);
    PadDigitsValue(t.day, 2);
    PadDigitsValue(t.hour, 2);
    PadDigitsValue(t.minute, 2);
    PadDigitsValue(t.second, 2);
    FormatUtcChars(t);
  }

  /** A basic-format date is read back as midnight of the same day. */
  lemma ParseFormatBasicDate(t: DateTime)
    requires ValidTime(t)
    ensures ParseBasicDate(FormatBasicDate(t)) == Some(DateTime(t.year, t.month, t.day, 0, 0, 0))
  {
    var y, mo, d := PadDigits(t.year, 4), PadDigits(t.month, 2), PadDigits(t.day, 2);
    var s := FormatBasicDate(t);
    assert s == y + mo + d;
    assert s[0..4] == y;
    assert s[4..6] == mo;
    assert s[6..8] == d;
    FieldsFit(t);
    PadDigitsValue(t.year, 4);
    PadDigitsValue(t.month, 2);
    PadDigitsValue(t.day, 2);
    assert ValidTime(DateTime(t.year, t.month, t.day, 0, 0, 0));
  }

  /** The fields of the datetime-local form sit at fixed positions. */
  lemma LocalInputLayout(t: DateTime)
    requires ValidTime(t)
    ensures var s := FormatLocalInput(t);
      && |s| == 16 && s[4] == '-' && s[7] == '-' && s[10] == 'T' && s[13] == ':'
      && s[0..4] == PadDigits(t.year, 4) && s[5..7] == PadDigits(t.month, 2)
      && s[8..10] == PadDigits(t.day, 2) && s[11..13] == PadDigits(t.hour, 2)
      && s[14..16] == PadDigits(t.minute, 2)
  {
    var date := PadDigits(t.year, 4) + "-" + PadDigits(t.month, 2) + "-" + PadDigits(t.day, 2);
    var time := PadDigits(t.hour, 2) + ":" + PadDigits(t.minute, 2);
    var s := FormatLocalInput(t);
    assert s == date + "T" + time;
    assert |date| == 10 && |time| == 5;
    assert s[..10] == date;
    assert s[11..] == time;
    assert date[0..4] == PadDigits(t.year, 4) && date[5..7] == PadDigits(t.month, 2) && date[8..10] == PadDigits(t.day, 2);
    assert time[0..2] == PadDigits(t.hour, 2) && time[3..5] == PadDigits(t.minute, 2);
  }

  /** What the event form displays is parsed back as the same minute; the seconds are dropped. */
  lemma ParseFormatLocalInput(t: DateTime)
    requires ValidTime(t)
    ensures ParseLocalInput(FormatLocalInput(t)) == Some(t.(second := 0))
  {
    LocalInputLayout(t);
    FieldsFit(t);
    PadDigitsValue(t.year, 4);
    PadDigitsValue(t.month, 2);
    PadDigitsValue(t.day, 2);
    PadDigitsValue(t.hour, 2);
    PadDigitsValue(t.minute, 2);
  }
}
