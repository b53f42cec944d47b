/**
 * The request timestamp: a UTC calendar time written with chrono's
 * `%Y-%m-%dT%H:%M:%SZ`, the RFC 3339 (section 5.6) `date-time` shape with a
 * literal `Z` offset and whole seconds.
 */
module Timestamp {
  import opened Wrappers
  import opened Decimal

  /** A UTC calendar time, as `Utc::now()` would report it. */
  datatype DateTime = DateTime(year: int, month: nat, day: nat, hour: nat, minute: nat, second: nat)

  /** Field ranges of a calendar time; second 60 is a leap second. */
  predicate ValidDateTime(t: DateTime) {
    && 1 <= t.month <= 12
    && 1 <= t.day <= 31
    && t.hour < 24
    && t.minute < 60
    && t.second <= 60
  }

  /**
   * chrono's `%Y`: years 0 through 9999 as four zero-padded digits; any other
   * year carries an explicit sign before at least four digits.
   */
  function FormatYear(year: int): (s: string)
    ensures 0 <= year <= 9999 ==> |s| == 4 && AllDigits(s) && DigitsValue(s) == year
    ensures !(0 <= year <= 9999) ==>
      && |s| >= 5 && s[0] == (if year < 0 then '-' else '+')
      && AllDigits(s[1..]) && DigitsValue(s[1..]) == (if year < 0 then -year else year)
  {
    if 0 <= year <= 9999 then
      PadZerosWidth(year, 4);
      PadZerosRoundTrip(year, 4);
      PadZeros(year, 4)
    else
      var magnitude := if year < 0 then -year else year;
      PadZerosRoundTrip(magnitude, 4);
      var s := (if year < 0 then "-" else "+") + PadZeros(magnitude, 4);
      assert s[1..] == PadZeros(magnitude, 4);
      s
  }

  /** A two-digit field (`%m %d %H %M %S`). */
  function FormatField(n: nat): (s: string)
    ensures n < 100 ==> |s| == 2 && AllDigits(s) && DigitsValue(s) == n
  {
    if n < 100 then
      PadZerosWidth(n, 2);
      PadZerosRoundTrip(n, 2);
      PadZeros(n, 2)
    else PadZeros(n, 2)
  }

  /** `format("%Y-%m-%dT%H:%M:%SZ")`. */
  function Format(t: DateTime): string
  {
    FormatYear(t.year) + "-" + FormatField(t.month) + "-" + FormatField(t.day)
      + "T" + FormatField(t.hour) + ":" + FormatField(t.minute) + ":" + FormatField(t.second) + "Z"
  }

  /** Reads `YYYY-MM-DDTHH:MM:SSZ` back into calendar fields. */
  function Parse(s: string): (r: Option<DateTime>)
    ensures r.Some? ==> |s| == 20 && s[19] == 'Z'
  {
    if |s| == 20 && s[4] == '-' && s[7] == '-' && s[10] == 'T' && s[13] == ':' && s[16] == ':' && s[19] == 'Z'
      && AllDigits(s[0..4]) && AllDigits(s[5..7]) && AllDigits(s[8..10])
      && AllDigits(s[11..13]) && AllDigits(s[14..16]) && AllDigits(s[17..19])
    then
      Some(DateTime(DigitsValue(s[0..4]), DigitsValue(s[5..7]), DigitsValue(s[8..10]),
        DigitsValue(s[11..13]), DigitsValue(s[14..16]), DigitsValue(s[17..19])))
    else None
  }

  /** Where six fields of widths 4, 2, 2, 2, 2, 2 and their separators sit in a timestamp. */
  lemma {:induction false} Layout(y: string, mo: string, d: string, h: string, mi: string, se: string)
    requires |y| == 4 && |mo| == 2 && |d| == 2 && |h| == 2 && |mi| == 2 && |se| == 2
    ensures var s := y + "-" + mo + "-" + d + "T" + h + ":" + mi + ":" + se + "Z";
      && |s| == 20
      && s[4] == '-' && s[7] == '-' && s[10] == 'T' && s[13] == ':' && s[16] == ':' && s[19] == 'Z'
      && s[0..4] == y && s[5..7] == mo && s[8..10] == d
      && s[11..13] == h && s[14..16] == mi && s[17..19] == se
  {
    var s := y + "-" + mo + "-" + d + "T" + h + ":" + mi + ":" + se + "Z";
    assert s == y + ("-" + (mo + ("-" + (d + ("T" + (h + (":" + (mi + (":" + (se + "Z"))))))))));
  }

  /** Where each field and separator of a timestamp sits, for years 0 through 9999. */
  lemma {:induction false} FormatLayout(t: DateTime)
    requires ValidDateTime(t) && 0 <= t.year <= 9999
    ensures var s := Format(t);
      && |s| == 20
      && s[4] == '-' && s[7] == '-' && s[10] == 'T' && s[13] == ':' && s[16] == ':' && s[19] == 'Z'
      && s[0..4] == FormatYear(t.year) && s[5..7] == FormatField(t.month) && s[8..10] == FormatField(t.day)
      && s[11..13] == FormatField(t.hour) && s[14..16] == FormatField(t.minute) && s[17..19] == FormatField(t.second)
  {
    Layout(FormatYear(t.year), FormatField(t.month), FormatField(t.day),
      FormatField(t.hour), FormatField(t.minute), FormatField(t.second));
  }

  /**
   * For every valid time in years 0 through 9999 the timestamp is 20
   * characters: digits everywhere except a `-` at 4 and 7, `T` at 10, `:` at
   * 13 and 16 and `Z` at 19.
   */
  lemma {:induction false} FormatShape(t: DateTime)
    requires ValidDateTime(t) && 0 <= t.year <= 9999
    ensures var s := Format(t);
      && |s| == 20
      && s[4] == '-' && s[7] == '-' && s[10] == 'T' && s[13] == ':' && s[16] == ':' && s[19] == 'Z'
      && forall i :: 0 <= i < 20 && i !in {4, 7, 10, 13, 16, 19} ==> IsDigit(s[i])
  {
    var s := Format(t);
    FormatLayout(t);
    var y, mo, d, h, mi, se := s[0..4], s[5..7], s[8..10], s[11..13], s[14..16], s[17..19];
    forall i | 0 <= i < 20 && i !in {4, 7, 10, 13, 16, 19} ensures IsDigit(s[i]) {
      if i < 4 { assert s[i] == y[i]; }
      else if i < 7 { assert s[i] == mo[i - 5]; }
      else if i < 10 { assert s[i] == d[i - 8]; }
      else if i < 13 { assert s[i] == h[i - 11]; }
      else if i < 16 { assert s[i] == mi[i - 14]; }
      else { assert s[i] == se[i - 17]; }
    }
  }

  /** The timestamp determines the time it was written from. */
  lemma {:induction false} ParseFormatRoundTrip(t: DateTime)
    requires ValidDateTime(t) && 0 <= t.year <= 9999
    ensures Parse(Format(t)) == Some(t)
  {
    FormatLayout(t);
  }
}
