/**
 * The "dd-MM-yyyy" date text of the customer API: reading it the way
 * LocalDate.parse does with DateTimeFormatter.ofPattern("dd-MM-yyyy") and the
 * formatter's default SMART resolver, and writing it back.
 */
module DobFormat {
  import opened Wrappers
  import opened CalendarDates

  predicate IsDigit(c: char) {
    '0' <= c <= '9'
  }

  function DigitValue(c: char): (v: nat)
    requires IsDigit(c)
    ensures v <= 9
  {
    (c as int) - ('0' as int)
  }

  function DigitChar(v: nat): (c: char)
    requires v <= 9
    ensures IsDigit(c) && DigitValue(c) == v
  {
    (('0' as int) + v) as char
  }

  /** Ten characters: two digits, '-', two digits, '-', four digits. */
  predicate HasDobShape(s: string) {
    |s| == 10 &&
    IsDigit(s[0]) && IsDigit(s[1]) && s[2] == '-' &&
    IsDigit(s[3]) && IsDigit(s[4]) && s[5] == '-' &&
    IsDigit(s[6]) && IsDigit(s[7]) && IsDigit(s[8]) && IsDigit(s[9])
  }

  /** The day, month and year numbers as written, before any calendar check. */
  function DobFields(s: string): (r: Option<Date>)
    ensures r.Some? <==> HasDobShape(s)
    ensures r.Some? ==> 0 <= r.value.day <= 99 && 0 <= r.value.month <= 99 && 0 <= r.value.year <= MaxYear
  {
    if HasDobShape(s) then
      Some(Date(
        1000 * DigitValue(s[6]) + 100 * DigitValue(s[7]) + 10 * DigitValue(s[8]) + DigitValue(s[9]),
        10 * DigitValue(s[3]) + DigitValue(s[4]),
        10 * DigitValue(s[0]) + DigitValue(s[1])))
    else None
  }

  /**
   * The field range checks made before resolving: day-of-month 1..31,
   * month-of-year 1..12, year-of-era at least 1 (so "0000" is refused).
   */
  predicate FieldsInRange(f: Date) {
    1 <= f.day <= 31 && 1 <= f.month <= 12 && 1 <= f.year
  }

  /**
   * LocalDate.parse(s, ofPattern("dd-MM-yyyy")): None where Java throws
   * DateTimeParseException. The SMART resolver moves a day 29, 30 or 31 that
   * the month does not have back to the month's last day.
   */
  function ParseDob(s: string): (r: Option<CalendarDate>)
    ensures r.Some? <==> HasDobShape(s) && FieldsInRange(DobFields(s).value)
    ensures r.Some? ==>
      var f := DobFields(s).value;
      r.value.year == f.year && r.value.month == f.month && r.value.day <= f.day
    ensures r.Some? && ValidDate(DobFields(s).value) ==> r.value == DobFields(s).value
    ensures r.Some? && !ValidDate(DobFields(s).value) ==>
      r.value.day == DaysInMonth(r.value.year, r.value.month) < DobFields(s).value.day
  {
    match DobFields(s)
    case None => None
    case Some(f) =>
      if FieldsInRange(f) then
        var last := DaysInMonth(f.year, f.month);
        Some(Date(f.year, f.month, if f.day <= last then f.day else last))
      else None
  }

  function Pad2(v: nat): (s: string)
    requires v <= 99
    ensures |s| == 2 && IsDigit(s[0]) && IsDigit(s[1])
    ensures 10 * DigitValue(s[0]) + DigitValue(s[1]) == v
  {
    [DigitChar(v / 10), DigitChar(v % 10)]
  }

  function Pad4(v: nat): (s: string)
    requires v <= 9999
    ensures |s| == 4 && IsDigit(s[0]) && IsDigit(s[1]) && IsDigit(s[2]) && IsDigit(s[3])
    ensures 1000 * DigitValue(s[0]) + 100 * DigitValue(s[1]) + 10 * DigitValue(s[2]) + DigitValue(s[3]) == v
  {
    var hi, lo := Pad2(v / 100), Pad2(v % 100);
    assert 100 * (v / 100) + v % 100 == v;
    hi + lo
  }

  /** Writes a date as "dd-MM-yyyy", zero-padded; reading the text back gives the same fields. */
  function FormatDate(d: CalendarDate): (s: string)
    ensures HasDobShape(s)
    ensures DobFields(s) == Some(d)
  {
    Pad2(d.day) + "-" + Pad2(d.month) + "-" + Pad4(d.year)
  }

  /** Every date survives formatting and parsing. */
  lemma ParseFormatRoundTrip(d: CalendarDate)
    ensures ParseDob(FormatDate(d)) == Some(d)
  {
    assert DobFields(FormatDate(d)) == Some(d);
  }

  /**
   * Text that names a real calendar date parses to that date, and formatting
   * the date gives the text back character for character.
   */
  lemma FormatParseRoundTrip(s: string)
    requires HasDobShape(s) && ValidDate(DobFields(s).value)
    ensures ParseDob(s) == Some(DobFields(s).value)
    ensures FormatDate(ParseDob(s).value) == s
  {
    var d := ParseDob(s).value;
    var t := FormatDate(d);
    assert DobFields(t) == DobFields(s);
    forall i | 0 <= i < 10
      ensures t[i] == s[i]
    {
      DigitsDetermined(t, s);
    }
  }

  /** Two well-shaped texts with the same fields are the same text. */
  lemma DigitsDetermined(t: string, s: string)
    requires HasDobShape(t) && HasDobShape(s) && DobFields(t) == DobFields(s)
    ensures t == s
  {
    var a, b := DigitValue(t[0]), DigitValue(s[0]);
    assert 10 * a + DigitValue(t[1]) == 10 * b + DigitValue(s[1]);
    assert a == b && DigitValue(t[1]) == DigitValue(s[1]);
    assert DigitValue(t[3]) == DigitValue(s[3]) && DigitValue(t[4]) == DigitValue(s[4]);
    assert DigitValue(t[6]) == DigitValue(s[6]) && DigitValue(t[7]) == DigitValue(s[7]);
    assert DigitValue(t[8]) == DigitValue(s[8]) && DigitValue(t[9]) == DigitValue(s[9]);
    assert forall i | 0 <= i < 10 :: t[i] == s[i];
  }
}
