/**
 * Calendar dates as text: the `full-date` of section 5.6 of RFC 3339
 * (`YYYY-MM-DD`), extended, as `Date.prototype.toISOString` and Luxon's
 * `toISODate` do, to a sign and six year digits outside years 0..9999.
 */
module IsoDate {
  import opened Wrappers
  import opened Text
  import opened CivilDate

  /** Years that a six-digit expanded year can hold. */
  predicate InRange(d: Date) {
    -999999 <= d.year <= 999999
  }

  function FormatYear(y: int): (s: string)
    requires -999999 <= y <= 999999
    ensures 0 <= y <= 9999 ==> |s| == 4 && AllDigits(s) && DigitsValue(s) == y
    ensures !(0 <= y <= 9999) ==>
      && |s| == 7 && s[0] == (if y < 0 then '-' else '+')
      && AllDigits(s[1..]) && DigitsValue(s[1..]) == (if y < 0 then -y else y)
  {
    if 0 <= y <= 9999 then
      PadDigitsRoundTrip(y, 4);
      PadDigits(y, 4)
    else
      var a := if y < 0 then -y else y;
      PadDigitsRoundTrip(a, 6);
      var s := (if y < 0 then "-" else "+") + PadDigits(a, 6);
      assert s[1..] == PadDigits(a, 6);
      s
  }

  function Format(d: Date): (s: string)
    requires ValidDate(d) && InRange(d)
    ensures 0 <= d.year <= 9999 ==>
      && |s| == 10 && s[4] == '-' && s[7] == '-'
      && AllDigits(s[..4]) && AllDigits(s[5..7]) && AllDigits(s[8..])
      && DigitsValue(s[..4]) == d.year && DigitsValue(s[5..7]) == d.month && DigitsValue(s[8..]) == d.day
  {
    var y := FormatYear(d.year);
    var mm := PadDigits(d.month, 2);
    var dd := PadDigits(d.day, 2);
    PadDigitsRoundTrip(d.month, 2);
    PadDigitsRoundTrip(d.day, 2);
    var s := y + "-" + mm + "-" + dd;
    assert |y| == 4 ==> s[..4] == y && s[5..7] == mm && s[8..] == dd;
    s
  }

  function Checked(d: Date): (r: Option<Date>)
    ensures r.Some? <==> ValidDate(d)
    ensures r.Some? ==> r.value == d
  {
    if ValidDate(d) then Some(d) else None
  }

  /**
   * Reads `YYYY-MM-DD`, or `+YYYYYY-MM-DD` / `-YYYYYY-MM-DD`; anything else,
   * and any month or day outside the calendar, is `None`.
   */
  function Parse(s: string): (r: Option<Date>)
    ensures r.Some? ==> ValidDate(r.value) && InRange(r.value)
  {
    if |s| == 10 && AllDigits(s[..4]) && s[4] == '-' && AllDigits(s[5..7]) && s[7] == '-' && AllDigits(s[8..]) then
      PadDigitsBound(s[..4]);
      Checked(Date(DigitsValue(s[..4]), DigitsValue(s[5..7]), DigitsValue(s[8..])))
    else if |s| == 13 && (s[0] == '+' || s[0] == '-') && AllDigits(s[1..7]) && s[7] == '-'
            && AllDigits(s[8..10]) && s[10] == '-' && AllDigits(s[11..]) then
      var a: int := DigitsValue(s[1..7]);
      PadDigitsBound(s[1..7]);
      Checked(Date(if s[0] == '-' then -a else a, DigitsValue(s[8..10]), DigitsValue(s[11..])))
    else None
  }

  lemma {:induction false} PadDigitsBound(s: string)
    requires AllDigits(s)
    ensures DigitsValue(s) < Pow10(|s|)
  {
    if s != [] {
      PadDigitsBound(s[..|s| - 1]);
    }
  }

  /** Parsing a formatted date gives the date back, so formatting is injective. */
  lemma ParseFormat(d: Date)
    requires ValidDate(d) && InRange(d)
    ensures Parse(Format(d)) == Some(d)
  {
    var y := FormatYear(d.year);
    var mm := PadDigits(d.month, 2);
    var dd := PadDigits(d.day, 2);
    PadDigitsRoundTrip(d.month, 2);
    PadDigitsRoundTrip(d.day, 2);
    var s := Format(d);
    assert s == y + "-" + mm + "-" + dd;
    if !(0 <= d.year <= 9999) {
      assert s[1..7] == y[1..] && s[8..10] == mm && s[11..] == dd;
    }
  }

  lemma FormatInjective(d1: Date, d2: Date)
    requires ValidDate(d1) && InRange(d1) && ValidDate(d2) && InRange(d2)
    ensures Format(d1) == Format(d2) <==> d1 == d2
  {
    ParseFormat(d1);
    ParseFormat(d2);
  }
}
