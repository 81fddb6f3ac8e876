/** `datetime.strptime` with the two formats the extractor uses,
    `%d.%m.%Y %H:%M` and `%d.%m.%Y`, read as fixed-width digit fields and
    checked against the Gregorian calendar. */
module Dates {
  import opened Wrappers
  import opened Patterns
  import opened Money

  datatype Date = Date(day: nat, month: nat, year: nat)
  datatype DateTime = DateTime(date: Date, hour: nat, minute: nat)

  predicate IsLeapYear(y: nat) {
    y % 4 == 0 && (y % 100 != 0 || y % 400 == 0)
  }

  function DaysInMonth(month: nat, year: nat): nat
    requires 1 <= month <= 12
  {
    if month == 2 then (if IsLeapYear(year) then 29 else 28)
    else if month == 4 || month == 6 || month == 9 || month == 11 then 30
    else 31
  }

  /** A calendar date `datetime` accepts (years 1 to 9999). */
  predicate ValidDate(d: Date) {
    1 <= d.year <= 9999 && 1 <= d.month <= 12 && 1 <= d.day <= DaysInMonth(d.month, d.year)
  }

  predicate ValidDateTime(t: DateTime) {
    ValidDate(t.date) && t.hour < 24 && t.minute < 60
  }

  const DateShape: Pattern := Template("##.##.####")
  const DateTimeShape: Pattern := Template("##.##.#### ##:##")

  function Pow10(w: nat): nat {
    if w == 0 then 1 else 10 * Pow10(w - 1)
  }

  /** `n` written with exactly `w` digits, leading zeros added. */
  function Pad(n: nat, w: nat): (r: string)
    ensures |r| == w && AllDigits(r)
  {
    if w == 0 then "" else Pad(n / 10, w - 1) + [DigitChar(n % 10)]
  }

  lemma {:induction false} PadValue(n: nat, w: nat)
    requires n < Pow10(w)
    ensures DigitsValue(Pad(n, w)) == n
  {
    if w > 0 {
      assert n / 10 < Pow10(w - 1);
      PadValue(n / 10, w - 1);
      var r := Pad(n, w);
      assert r[..|r| - 1] == Pad(n / 10, w - 1);
    }
  }

  lemma {:induction false} ValuePad(s: string)
    requires AllDigits(s)
    ensures DigitsValue(s) < Pow10(|s|)
    ensures Pad(DigitsValue(s), |s|) == s
  {
    if |s| > 0 {
      var init := s[..|s| - 1];
      ValuePad(init);
      var v := DigitsValue(s);
      assert v / 10 == DigitsValue(init) && v % 10 == DigitValue(s[|s| - 1]);
      assert DigitChar(v % 10) == s[|s| - 1];
      assert s == init + [s[|s| - 1]];
    }
  }

  lemma DateShapeParts(s: string)
    requires PatAt(s, 0, DateShape)
    ensures AllDigits(s[0..2]) && AllDigits(s[3..5]) && AllDigits(s[6..10])
    ensures s[2] == '.' && s[5] == '.'
  {
    var t := "##.##.####";
    assert forall k :: 0 <= k < 10 ==> Matches(Template(t)[k], s[k]);
    assert forall k :: 0 <= k < 10 && t[k] == '#' ==> IsDigit(s[k]);
  }

  lemma DateTimeShapeParts(s: string)
    requires PatAt(s, 0, DateTimeShape)
    ensures PatAt(s, 0, DateShape)
    ensures AllDigits(s[11..13]) && AllDigits(s[14..16])
    ensures IsSpace(s[10]) && s[13] == ':'
  {
    var t := "##.##.#### ##:##";
    assert forall k :: 0 <= k < 16 ==> Matches(Template(t)[k], s[k]);
    assert forall k :: 0 <= k < 16 && t[k] == '#' ==> IsDigit(s[k]);
    assert forall k :: 0 <= k < 10 ==> DateShape[k] == DateTimeShape[k];
  }

  /** The day, month and year fields of a `dd.mm.yyyy` prefix. */
  function ReadDate(s: string): Date
    requires PatAt(s, 0, DateShape)
  {
    DateShapeParts(s);
    Date(DigitsValue(s[0..2]), DigitsValue(s[3..5]), DigitsValue(s[6..10]))
  }

  /** `datetime.strptime(s, '%d.%m.%Y')`; `None` where it raises `ValueError`. */
  function ParseDate(s: string): (r: Option<Date>)
    ensures r.Some? ==> ValidDate(r.value)
  {
    if |s| == 10 && PatAt(s, 0, DateShape) && ValidDate(ReadDate(s)) then Some(ReadDate(s)) else None
  }

  /** `datetime.strptime(s, '%d.%m.%Y %H:%M')`; `None` where it raises `ValueError`. */
  function ParseDateTime(s: string): (r: Option<DateTime>)
    ensures r.Some? ==> ValidDateTime(r.value)
  {
    if |s| == 16 && PatAt(s, 0, DateTimeShape) then
      DateTimeShapeParts(s);
      var t := DateTime(ReadDate(s), DigitsValue(s[11..13]), DigitsValue(s[14..16]));
      if ValidDateTime(t) then Some(t) else None
    else
      None
  }

  /** How the statement writes a date. */
  function FormatDate(d: Date): string {
    Pad(d.day, 2) + "." + Pad(d.month, 2) + "." + Pad(d.year, 4)
  }

  /** How the statement writes a time of day. */
  function FormatTime(t: DateTime): string {
    Pad(t.hour, 2) + ":" + Pad(t.minute, 2)
  }

  /** How the statement writes a date and time. */
  function FormatDateTime(t: DateTime): string {
    FormatDate(t.date) + " " + FormatTime(t)
  }

  lemma FormattedDateShape(d: Date)
    ensures PatAt(FormatDate(d), 0, DateShape)
    ensures FormatDate(d)[0..2] == Pad(d.day, 2)
    ensures FormatDate(d)[3..5] == Pad(d.month, 2)
    ensures FormatDate(d)[6..10] == Pad(d.year, 4)
  {
    var f := FormatDate(d);
    forall k | 0 <= k < 10 ensures Matches(DateShape[k], f[k]) {
      if k < 2 { assert f[k] == Pad(d.day, 2)[k]; }
      else if 3 <= k < 5 { assert f[k] == Pad(d.month, 2)[k - 3]; }
      else if 6 <= k { assert f[k] == Pad(d.year, 4)[k - 6]; }
    }
  }

  /** A valid date, written out and read back, is the same date. */
  lemma ParseFormatDate(d: Date)
    requires ValidDate(d)
    ensures ParseDate(FormatDate(d)) == Some(d)
  {
    FormattedDateShape(d);
    PadValue(d.day, 2);
    PadValue(d.month, 2);
    PadValue(d.year, 4);
  }

  /** Every text the date parser accepts is the way the statement writes that date. */
  lemma FormatParseDate(s: string)
    requires ParseDate(s).Some?
    ensures FormatDate(ParseDate(s).value) == s
  {
    DateShapeParts(s);
    var d := ReadDate(s);
    assert ParseDate(s).value == d;
    ValuePad(s[0..2]);
    ValuePad(s[3..5]);
    ValuePad(s[6..10]);
    calc {
      FormatDate(d);
      Pad(d.day, 2) + "." + Pad(d.month, 2) + "." + Pad(d.year, 4);
      s[0..2] + [s[2]] + s[3..5] + [s[5]] + s[6..10];
      { assert |s| == 10; }
      s;
    }
  }

  lemma FormattedDateTimeShape(t: DateTime)
    ensures PatAt(FormatDateTime(t), 0, DateTimeShape)
    ensures FormatDateTime(t)[..10] == FormatDate(t.date)
    ensures FormatDateTime(t)[11..13] == Pad(t.hour, 2)
    ensures FormatDateTime(t)[14..16] == Pad(t.minute, 2)
  {
    var f := FormatDateTime(t);
    var date := FormatDate(t.date);
    FormattedDateShape(t.date);
    forall k | 0 <= k < 16 ensures Matches(DateTimeShape[k], f[k]) {
      if k < 10 {
        assert f[k] == date[k];
        assert Matches(DateShape[k], date[k]);
        assert DateShape[k] == DateTimeShape[k];
      } else if 11 <= k < 13 {
        assert f[k] == Pad(t.hour, 2)[k - 11];
      } else if 14 <= k {
        assert f[k] == Pad(t.minute, 2)[k - 14];
      }
    }
  }

  /** A valid date and time, written out and read back, is the same date and time. */
  lemma ParseFormatDateTime(t: DateTime)
    requires ValidDateTime(t)
    ensures ParseDateTime(FormatDateTime(t)) == Some(t)
  {
    var f := FormatDateTime(t);
    FormattedDateTimeShape(t);
    FormattedDateShape(t.date);
    assert f[..10][0..2] == f[0..2] && f[..10][3..5] == f[3..5] && f[..10][6..10] == f[6..10];
    PadValue(t.date.day, 2);
    PadValue(t.date.month, 2);
    PadValue(t.date.year, 4);
    PadValue(t.hour, 2);
    PadValue(t.minute, 2);
  }

  /** Every text the date-and-time parser accepts is the way the statement writes it,
      up to the whitespace character between date and time. */
  lemma FormatParseDateTime(s: string)
    requires ParseDateTime(s).Some?
    requires s[10] == ' '
    ensures FormatDateTime(ParseDateTime(s).value) == s
  {
    DateTimeShapeParts(s);
    DateShapeParts(s);
    ValuePad(s[0..2]);
    ValuePad(s[3..5]);
    ValuePad(s[6..10]);
    ValuePad(s[11..13]);
    ValuePad(s[14..16]);
    assert s == s[0..2] + [s[2]] + s[3..5] + [s[5]] + s[6..10] + [s[10]] + s[11..13] + [s[13]] + s[14..16];
  }
}
