/**
  The calendar-date extended format of ISO 8601 (ISO 8601:2004, section 4.1.2.2),
  `YYYY-MM-DD`, as `date.isoformat()` writes it and `date.fromisoformat` reads it.
*/
module IsoDate {
  import opened Wrappers
  import opened Calendar
  import opened Numerals

  /** `d.isoformat()`. */
  function FormatIso(d: Date): (s: string)
    ensures |s| == 10 && s[4] == '-' && s[7] == '-'
    ensures AllDigits(s[..4]) && AllDigits(s[5..7]) && AllDigits(s[8..])
  {
    var s := Padded(d.year, 4) + "-" + Padded(d.month, 2) + "-" + Padded(d.day, 2);
    assert s[..4] == Padded(d.year, 4) && s[5..7] == Padded(d.month, 2) && s[8..] == Padded(d.day, 2);
    s
  }

  /** Four digits, a hyphen, two digits, a hyphen, two digits. */
  predicate IsIsoShape(s: string) {
    |s| == 10 && s[4] == '-' && s[7] == '-' && AllDigits(s[..4]) && AllDigits(s[5..7]) && AllDigits(s[8..])
  }

  /**
    `date.fromisoformat(s)`: `None` stands for the `ValueError` raised when `s` is not of
    the form `YYYY-MM-DD` or names a date that does not exist.
  */
  function ParseIso(s: string): (r: Option<Date>)
    ensures r.Some? ==> IsIsoShape(s)
  {
    if !IsIsoShape(s) then None
    else
      var ymd := Ymd(DigitsValue(s[..4]), DigitsValue(s[5..7]), DigitsValue(s[8..]));
      if IsValidDate(ymd) then Some(ymd) else None
  }

  /** Every date written by `isoformat` is read back as the same date. */
  lemma ParseFormat(d: Date)
    ensures ParseIso(FormatIso(d)) == Some(d)
  {
    var s := FormatIso(d);
    assert s[..4] == Padded(d.year, 4) && s[5..7] == Padded(d.month, 2) && s[8..] == Padded(d.day, 2);
    PaddedValue(d.year, 4);
    PaddedValue(d.month, 2);
    PaddedValue(d.day, 2);
  }

  /** A ten-character string is its three fields and the two characters between them. */
  lemma Fields(s: string)
    requires |s| == 10
    ensures s == s[..4] + [s[4]] + s[5..7] + [s[7]] + s[8..]
  {
  }

  /** The three fields of `isoformat`'s output. */
  lemma FormattedFields(d: Date)
    ensures var t := FormatIso(d);
      t[..4] == Padded(d.year, 4) && t[5..7] == Padded(d.month, 2) && t[8..] == Padded(d.day, 2)
  {
  }

  /** The date read from a string is made of the values of its three fields. */
  lemma ParsedFields(s: string, d: Date)
    requires ParseIso(s) == Some(d)
    ensures IsIsoShape(s)
    ensures d.year == DigitsValue(s[..4]) && d.month == DigitsValue(s[5..7]) && d.day == DigitsValue(s[8..])
  {
  }

  /** Every string that parses is exactly the `isoformat` of the date it names. */
  lemma FormatParse(s: string, d: Date)
    requires ParseIso(s) == Some(d)
    ensures FormatIso(d) == s
  {
    ParsedFields(s, d);
    ValuePadded(s[..4]);
    ValuePadded(s[5..7]);
    ValuePadded(s[8..]);
    var t := FormatIso(d);
    FormattedFields(d);
    Fields(s);
    Fields(t);
  }

  /** Different dates have different ISO strings. */
  lemma FormatInjective(a: Date, b: Date)
    requires FormatIso(a) == FormatIso(b)
    ensures a == b
  {
    ParseFormat(a);
    ParseFormat(b);
  }
}
