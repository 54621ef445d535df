/** Calendar date-times as Python's `datetime` handles them (proleptic
    Gregorian calendar, years 1 to 9999, whole seconds), the fixed-width
    `strftime` layouts the calendar layer writes, and the matching
    `strptime` parses. */
module DateTimes {
  import opened Text

  datatype DateTime = DateTime(year: int, month: int, day: int, hour: int, minute: int, second: int)

  predicate IsLeapYear(y: int)
  {
    y % 4 == 0 && (y % 100 != 0 || y % 400 == 0)
  }

  function DaysInMonth(y: int, m: int): int
  {
    if m == 2 then (if IsLeapYear(y) then 29 else 28)
    else if m == 4 || m == 6 || m == 9 || m == 11 then 30
    else 31
  }

  predicate ValidDate(y: int, m: int, d: int)
  {
    1 <= y <= 9999 && 1 <= m <= 12 && 1 <= d <= DaysInMonth(y, m)
  }

  /** A value Python's `datetime` accepts. */
  predicate Valid(t: DateTime)
  {
    ValidDate(t.year, t.month, t.day) &&
    0 <= t.hour < 24 && 0 <= t.minute < 60 && 0 <= t.second < 60
  }

  type Stamp = t: DateTime | Valid(t) witness DateTime(1, 1, 1, 0, 0, 0)

  function DaysInYear(y: int): int
  {
    if IsLeapYear(y) then 366 else 365
  }

  function DaysBeforeYear(y: int): int
  {
    365 * (y - 1) + (y - 1) / 4 - (y - 1) / 100 + (y - 1) / 400
  }

  /** Days in the months of year `y` before month `m`. */
  function DaysBeforeMonth(y: int, m: int): int
    requires 1 <= m <= 12
    decreases m
  {
    if m == 1 then 0 else DaysBeforeMonth(y, m - 1) + DaysInMonth(y, m - 1)
  }

  /** Python's `date.toordinal()`: 1 for 0001-01-01. */
  function DayNumber(y: int, m: int, d: int): int
    requires 1 <= m <= 12
  {
    DaysBeforeYear(y) + DaysBeforeMonth(y, m) + d
  }

  /** Seconds since 0001-01-01T00:00:00: the instant a naive `datetime`
      denotes, and what `datetime` comparison and subtraction work on. */
  function Seconds(t: Stamp): int
  {
    (DayNumber(t.year, t.month, t.day) - 1) * 86400 + t.hour * 3600 + t.minute * 60 + t.second
  }

  /** `datetime.min` and `datetime.max`, to the second. */
  const MinInstant: int := 0
  const MaxInstant: int := 3652059 * 86400 - 1

  /** Python's `weekday()`: 0 for Monday. */
  function Weekday(t: Stamp): (w: int)
    ensures 0 <= w < 7
  {
    (DayNumber(t.year, t.month, t.day) + 6) % 7
  }

  /** `%A` in the C locale. */
  function WeekdayName(w: int): string
    requires 0 <= w < 7
  {
    ["Monday", "Tuesday", "Wednesday", "Thursday", "Friday", "Saturday", "Sunday"][w]
  }

  /** `%B` in the C locale. */
  function MonthName(m: int): string
    requires 1 <= m <= 12
  {
    ["January", "February", "March", "April", "May", "June", "July",
     "August", "September", "October", "November", "December"][m - 1]
  }

  /** The calendar day after `t`, same time of day. */
  function NextDay(t: Stamp): DateTime
  {
    if t.day < DaysInMonth(t.year, t.month) then t.(day := t.day + 1)
    else if t.month < 12 then t.(month := t.month + 1, day := 1)
    else t.(year := t.year + 1, month := 1, day := 1)
  }

  lemma DaysBeforeMonthBound(y: int, m: int)
    requires 1 <= m <= 12
    ensures DaysBeforeMonth(y, m) + DaysInMonth(y, m) <= DaysInYear(y)
    ensures m == 12 ==> DaysBeforeMonth(y, m) + DaysInMonth(y, m) == DaysInYear(y)
  {
  }

  lemma DaysBeforeNextYear(y: int)
    requires y >= 1
    ensures DaysBeforeYear(y + 1) == DaysBeforeYear(y) + DaysInYear(y)
  {
    DivStep4(y);
    DivStep100(y);
    DivStep400(y);
  }

  lemma DivStep4(y: int)
    ensures y / 4 - (y - 1) / 4 == (if y % 4 == 0 then 1 else 0)
  {
  }

  lemma DivStep100(y: int)
    ensures y / 100 - (y - 1) / 100 == (if y % 100 == 0 then 1 else 0)
  {
  }

  lemma DivStep400(y: int)
    ensures y / 400 - (y - 1) / 400 == (if y % 400 == 0 then 1 else 0)
  {
  }

  /** The next day is exactly one day number, and so 86400 seconds, later. */
  lemma NextDayNumber(t: Stamp)
    requires t.year < 9999 || t.month < 12 || t.day < 31
    ensures Valid(NextDay(t))
    ensures Seconds(NextDay(t)) == Seconds(t) + 86400
  {
    if t.day == DaysInMonth(t.year, t.month) {
      DaysBeforeMonthBound(t.year, t.month);
      if t.month == 12 {
        DaysBeforeNextYear(t.year);
      }
    }
  }

  /** Every day of a year comes before the first day of the next. */
  lemma BeforeNextYear(y: int, m: int, d: int)
    requires ValidDate(y, m, d)
    ensures DayNumber(y, m, d) < DayNumber(y + 1, 1, 1)
  {
    DaysBeforeMonthBound(y, m);
    DaysBeforeNextYear(y);
  }

  /** The first day of a year comes no later than any day of it. */
  lemma FirstOfYear(y: int, m: int, d: int)
    requires ValidDate(y, m, d)
    ensures DayNumber(y, 1, 1) <= DayNumber(y, m, d)
  {
    DaysBeforeMonthNonNeg(y, m);
  }

  /** Later in the calendar means a larger day number. */
  lemma {:induction false} DayNumberMonotone(y1: int, m1: int, d1: int, y2: int, m2: int, d2: int)
    requires ValidDate(y1, m1, d1) && ValidDate(y2, m2, d2)
    requires y1 < y2 || (y1 == y2 && (m1 < m2 || (m1 == m2 && d1 < d2)))
    ensures DayNumber(y1, m1, d1) < DayNumber(y2, m2, d2)
    decreases y2 - y1
  {
    if y1 < y2 {
      BeforeNextYear(y1, m1, d1);
      if y1 + 1 < y2 {
        DayNumberMonotone(y1 + 1, 1, 1, y2, m2, d2);
      } else {
        FirstOfYear(y2, m2, d2);
      }
    } else if m1 < m2 {
      DaysBeforeMonthIncreasing(y1, m1, m2);
    }
  }

  lemma {:induction false} DaysBeforeMonthNonNeg(y: int, m: int)
    requires 1 <= m <= 12
    ensures DaysBeforeMonth(y, m) >= 0
    decreases m
  {
    if m > 1 { DaysBeforeMonthNonNeg(y, m - 1); }
  }

  lemma {:induction false} DaysBeforeMonthIncreasing(y: int, m1: int, m2: int)
    requires 1 <= m1 < m2 <= 12
    ensures DaysBeforeMonth(y, m1) + DaysInMonth(y, m1) <= DaysBeforeMonth(y, m2)
    decreases m2 - m1
  {
    if m1 + 1 < m2 {
      DaysBeforeMonthIncreasing(y, m1 + 1, m2);
    }
  }

  /** Distinct date-times denote distinct instants, in calendar order. */
  lemma SecondsInjective(a: Stamp, b: Stamp)
    requires Seconds(a) == Seconds(b)
    ensures a == b
  {
    var da, db := DayNumber(a.year, a.month, a.day), DayNumber(b.year, b.month, b.day);
    assert (da - 1) * 86400 <= Seconds(a) < da * 86400;
    assert (db - 1) * 86400 <= Seconds(b) < db * 86400;
    assert da == db;
    {
      if (a.year, a.month, a.day) != (b.year, b.month, b.day) {
        if a.year < b.year || (a.year == b.year && (a.month < b.month || (a.month == b.month && a.day < b.day))) {
          DayNumberMonotone(a.year, a.month, a.day, b.year, b.month, b.day);
        } else {
          DayNumberMonotone(b.year, b.month, b.day, a.year, a.month, a.day);
        }
      }
    }
  }

  /** "`e` minus one day equals `s`", Python's full-day test, holds exactly
      when `e` is the calendar day after `s` at the same time of day. */
  lemma OneDayApart(s: Stamp, e: Stamp)
    ensures Seconds(e) - 86400 == Seconds(s) <==> e == NextDay(s)
  {
    if s.year == 9999 && s.month == 12 && s.day == 31 {
      LastDay(e);
      LastDay(s);
      assert Seconds(s) >= (3652059 - 1) * 86400;
      assert NextDay(s).year == 10000;
    } else {
      NextDayNumber(s);
      if Seconds(e) - 86400 == Seconds(s) {
        SecondsInjective(e, NextDay(s));
      }
    }
  }

  /** 9999-12-31 is day number 3652059, so no instant lies beyond `MaxInstant`. */
  lemma LastDay(t: Stamp)
    ensures DayNumber(9999, 12, 31) == 3652059
    ensures Seconds(t) <= MaxInstant
  {
    assert DaysBeforeYear(9999) == 3651694;
    assert DaysBeforeMonth(9999, 12) == 334;
    if (t.year, t.month, t.day) != (9999, 12, 31) {
      DayNumberMonotone(t.year, t.month, t.day, 9999, 12, 31);
    }
  }

  // ---------------------------------------------------------------------
  // Fixed-width decimal fields

  function Pow10(w: nat): nat
  {
    if w == 0 then 1 else 10 * Pow10(w - 1)
  }

  predicate IsDigit(c: char)
  {
    '0' <= c <= '9'
  }

  predicate AllDigits(s: string)
  {
    forall k :: 0 <= k < |s| ==> IsDigit(s[k])
  }

  /** `n` written in decimal, zero-padded to `w` digits (`%02d`, `%04d`). */
  function Pad(n: nat, w: nat): (s: string)
    ensures |s| == w && AllDigits(s)
  {
    if w == 0 then [] else Pad(n / 10, w - 1) + [('0' as int + n % 10) as char]
  }

  /** The number a string of decimal digits denotes. */
  function DigitsValue(s: string): nat
    requires AllDigits(s)
  {
    if |s| == 0 then 0 else DigitsValue(s[..|s| - 1]) * 10 + (s[|s| - 1] as int - '0' as int)
  }

  lemma {:induction false} PadValue(n: nat, w: nat)
    requires n < Pow10(w)
    ensures DigitsValue(Pad(n, w)) == n
  {
    if w > 0 {
      PadValue(n / 10, w - 1);
      var s := Pad(n, w);
      assert s[..|s| - 1] == Pad(n / 10, w - 1);
    }
  }

  lemma {:induction false} ValuePad(s: string)
    requires AllDigits(s)
    ensures Pad(DigitsValue(s), |s|) == s
  {
    if |s| > 0 {
      var p := s[..|s| - 1];
      ValuePad(p);
      var v := DigitsValue(s);
      assert v / 10 == DigitsValue(p);
      assert v % 10 == s[|s| - 1] as int - '0' as int;
      assert s == p + [s[|s| - 1]];
    }
  }

  // ---------------------------------------------------------------------
  // strftime layouts

  /** `%Y%m%d`. */
  function FormatDate(t: Stamp): (s: string)
  {
    Pad(t.year, 4) + Pad(t.month, 2) + Pad(t.day, 2)
  }

  /** `%Y%m%dT%H%M%S`. */
  function FormatLocal(t: Stamp): (s: string)
  {
    FormatDate(t) + "T" + Pad(t.hour, 2) + Pad(t.minute, 2) + Pad(t.second, 2)
  }

  /** `%Y%m%dT%H%M%SZ`, the layout the calendar layer sorts and renders by. */
  function FormatUtc(t: Stamp): (s: string)
  {
    FormatLocal(t) + "Z"
  }

  // ---------------------------------------------------------------------
  // strptime

  /** Positions `i` to `j` of `s` hold decimal digits. */
  predicate DigitsBetween(s: string, i: int, j: int)
  {
    0 <= i <= j <= |s| && forall k :: i <= k < j ==> IsDigit(s[k])
  }

  /** The number written at positions `i` to `j` of `s`. */
  function Field(s: string, i: int, j: int): nat
    requires DigitsBetween(s, i, j)
    decreases j - i
  {
    if i == j then 0 else Field(s, i, j - 1) * 10 + (s[j - 1] as int - '0' as int)
  }

  /** A field is the value of the digits it spans. */
  lemma {:induction false} FieldValue(s: string, i: int, j: int)
    requires DigitsBetween(s, i, j)
    ensures AllDigits(s[i..j]) && Field(s, i, j) == DigitsValue(s[i..j])
    decreases j - i
  {
    assert AllDigits(s[i..j]) by {
      forall k | 0 <= k < j - i ensures IsDigit(s[i..j][k]) { assert s[i..j][k] == s[i + k]; }
    }
    if i < j {
      FieldValue(s, i, j - 1);
      assert s[i..j][..j - i - 1] == s[i..j - 1];
    }
  }

  /** `datetime.strptime(s, '%Y%m%dT%H%M%SZ')`; `None` where Python raises
      `ValueError`. */
  function ParseUtc(s: string): Option<Stamp>
  {
    if |s| == 16 && DigitsBetween(s, 0, 8) && s[8] == 'T' && DigitsBetween(s, 9, 15) && s[15] == 'Z' then
      var t := DateTime(Field(s, 0, 4), Field(s, 4, 6), Field(s, 6, 8),
                        Field(s, 9, 11), Field(s, 11, 13), Field(s, 13, 15));
      if Valid(t) then var st: Stamp := t; Some(st) else None
    else None
  }

  /** `time.strptime(s, '%Y%m%d')`, midnight of that date; `None` where
      Python raises `ValueError`. */
  function ParseDate(s: string): Option<Stamp>
  {
    if |s| == 8 && DigitsBetween(s, 0, 8) then
      var t := DateTime(Field(s, 0, 4), Field(s, 4, 6), Field(s, 6, 8), 0, 0, 0);
      if Valid(t) then var st: Stamp := t; Some(st) else None
    else None
  }

  lemma FormatDateLayout(t: Stamp)
    ensures var s := FormatDate(t);
      |s| == 8 && DigitsBetween(s, 0, 8) &&
      s[..4] == Pad(t.year, 4) && s[4..6] == Pad(t.month, 2) && s[6..8] == Pad(t.day, 2)
  {
    var s := FormatDate(t);
    assert s[..4] == Pad(t.year, 4);
    assert s[4..6] == Pad(t.month, 2);
    assert s[6..8] == Pad(t.day, 2);
  }

  lemma FormatLocalLayout(t: Stamp)
    ensures var l := FormatLocal(t);
      |l| == 15 && l[..8] == FormatDate(t) && l[8] == 'T' &&
      l[9..11] == Pad(t.hour, 2) && l[11..13] == Pad(t.minute, 2) && l[13..15] == Pad(t.second, 2)
  {
    var d := FormatDate(t);
    var hms := Pad(t.hour, 2) + Pad(t.minute, 2) + Pad(t.second, 2);
    var l := FormatLocal(t);
    assert l == d + "T" + hms;
    assert l[..8] == d;
    assert l[9..15] == hms;
    assert l[9..11] == hms[..2] && l[11..13] == hms[2..4] && l[13..15] == hms[4..];
  }

  lemma FormatUtcLayout(t: Stamp)
    ensures var s := FormatUtc(t);
      |s| == 16 && DigitsBetween(s, 0, 8) && s[8] == 'T' && DigitsBetween(s, 9, 15) && s[15] == 'Z' &&
      s[..4] == Pad(t.year, 4) && s[4..6] == Pad(t.month, 2) && s[6..8] == Pad(t.day, 2) &&
      s[9..11] == Pad(t.hour, 2) && s[11..13] == Pad(t.minute, 2) && s[13..15] == Pad(t.second, 2)
  {
    var d := FormatDate(t);
    FormatDateLayout(t);
    var l := FormatLocal(t);
    FormatLocalLayout(t);
    var s := FormatUtc(t);
    assert s[..15] == l;
    assert s[..8] == l[..8] == d;
    assert s[..4] == d[..4] && s[4..6] == d[4..6] && s[6..8] == d[6..8];
    assert s[9..15] == l[9..15];
    assert s[9..11] == l[9..11] && s[11..13] == l[11..13] && s[13..15] == l[13..15];
    assert DigitsBetween(s, 9, 15) by {
      forall k | 9 <= k < 15 ensures IsDigit(s[k]) {
        if k < 11 {
          assert s[k] == s[9..11][k - 9];
        } else if k < 13 {
          assert s[k] == s[11..13][k - 11];
        } else {
          assert s[k] == s[13..15][k - 13];
        }
      }
    }
  }

  /** Parsing reads back exactly what formatting wrote. */
  lemma ParseFormatUtc(t: Stamp)
    ensures ParseUtc(FormatUtc(t)) == Some(t)
  {
    FormatUtcLayout(t);
    var s := FormatUtc(t);
    FieldValue(s, 0, 4);
    FieldValue(s, 4, 6);
    FieldValue(s, 6, 8);
    FieldValue(s, 9, 11);
    FieldValue(s, 11, 13);
    FieldValue(s, 13, 15);
    PadValue(t.year, 4);
    PadValue(t.month, 2);
    PadValue(t.day, 2);
    PadValue(t.hour, 2);
    PadValue(t.minute, 2);
    PadValue(t.second, 2);
  }

  /** And whatever parses is the formatting of what it parses to. */
  lemma FormatParseUtc(s: string)
    requires ParseUtc(s).Some?
    ensures FormatUtc(ParseUtc(s).value) == s
  {
    var t := ParseUtc(s).value;
    FieldPad(s, 0, 4);
    FieldPad(s, 4, 6);
    FieldPad(s, 6, 8);
    FieldPad(s, 9, 11);
    FieldPad(s, 11, 13);
    FieldPad(s, 13, 15);
    FormatUtcLayout(t);
    var f := FormatUtc(t);
    assert f == f[..4] + f[4..6] + f[6..8] + [f[8]] + f[9..11] + f[11..13] + f[13..15] + [f[15]];
    assert s == s[..4] + s[4..6] + s[6..8] + [s[8]] + s[9..11] + s[11..13] + s[13..15] + [s[15]];
  }

  lemma FieldPad(s: string, i: int, j: int)
    requires DigitsBetween(s, i, j)
    ensures Pad(Field(s, i, j), j - i) == s[i..j]
  {
    FieldValue(s, i, j);
    ValuePad(s[i..j]);
  }

  lemma ParseFormatDate(t: Stamp)
    ensures ParseDate(FormatDate(t)).Some?
    ensures ParseDate(FormatDate(t)).value == t.(hour := 0, minute := 0, second := 0)
  {
    FormatDateLayout(t);
    var s := FormatDate(t);
    FieldValue(s, 0, 4);
    FieldValue(s, 4, 6);
    FieldValue(s, 6, 8);
    PadValue(t.year, 4);
    PadValue(t.month, 2);
    PadValue(t.day, 2);
  }

  lemma FormatParseDate(s: string)
    requires ParseDate(s).Some?
    ensures FormatDate(ParseDate(s).value) == s
  {
    FieldPad(s, 0, 4);
    FieldPad(s, 4, 6);
    FieldPad(s, 6, 8);
    FormatDateLayout(ParseDate(s).value);
    var f := FormatDate(ParseDate(s).value);
    assert f == f[..4] + f[4..6] + f[6..8];
    assert s == s[..4] + s[4..6] + s[6..8];
  }
}
