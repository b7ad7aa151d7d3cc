/** Calendar dates and the two textual forms the exports write them in. */
module Dates {
  import opened Wrappers
  import opened Text

  datatype Date = Date(year: int, month: int, day: int)

  function DaysInMonth(year: int, month: int): (n: int)
    requires 1 <= month <= 12
    ensures 28 <= n <= 31
  {
    if month == 2 then (if (year % 4 == 0 && year % 100 != 0) || year % 400 == 0 then 29 else 28)
    else if month == 4 || month == 6 || month == 9 || month == 11 then 30
    else 31
  }

  /** A date Python's `datetime.date` accepts. */
  predicate Valid(d: Date)
  {
    1 <= d.year <= 9999 && 1 <= d.month <= 12 && 1 <= d.day <= DaysInMonth(d.year, d.month)
  }

  /** The dates a Python `date` or `datetime` field can hold. */
  type CalendarDate = d: Date | Valid(d) witness Date(1970, 1, 1)

  /** Python's date comparison `a <= b`: chronological, i.e. lexicographic on (year, month, day). */
  predicate Le(a: Date, b: Date)
  {
    a.year < b.year || (a.year == b.year && (a.month < b.month || (a.month == b.month && a.day <= b.day)))
  }

  lemma LeTotalOrder(a: Date, b: Date, c: Date)
    ensures Le(a, a)
    ensures Le(a, b) || Le(b, a)
    ensures Le(a, b) && Le(b, a) ==> a == b
    ensures Le(a, b) && Le(b, c) ==> Le(a, c)
  {
  }

  /** `str(d)` and `d.strftime('%Y-%m-%d')`: "YYYY-MM-DD". */
  function IsoFormat(d: Date): (s: string)
    requires Valid(d)
  {
    Padded(d.year, 4) + "-" + Padded(d.month, 2) + "-" + Padded(d.day, 2)
  }

  /** `d.strftime('%d-%m-%Y')`: "DD-MM-YYYY". */
  function DmyFormat(d: Date): (s: string)
    requires Valid(d)
  {
    Padded(d.day, 2) + "-" + Padded(d.month, 2) + "-" + Padded(d.year, 4)
  }

  /** Reads back the "YYYY-MM-DD" form; None for anything that is not a valid date in that form. */
  function ParseIso(s: string): (r: Option<Date>)
  {
    if |s| == 10 && s[4] == '-' && s[7] == '-' && AllDigits(s[..4]) && AllDigits(s[5..7]) && AllDigits(s[8..]) then
      var d := Date(DecimalValue(s[..4]), DecimalValue(s[5..7]), DecimalValue(s[8..]));
      if Valid(d) then Some(d) else None
    else None
  }

  /** Reads back the "DD-MM-YYYY" form; None for anything that is not a valid date in that form. */
  function ParseDmy(s: string): (r: Option<Date>)
  {
    if |s| == 10 && s[2] == '-' && s[5] == '-' && AllDigits(s[..2]) && AllDigits(s[3..5]) && AllDigits(s[6..]) then
      var d := Date(DecimalValue(s[6..]), DecimalValue(s[3..5]), DecimalValue(s[..2]));
      if Valid(d) then Some(d) else None
    else None
  }

  /** A digit string of width w is the zero-padded form of its own value. */
  lemma {:induction false} DigitsArePadded(s: string)
    requires AllDigits(s)
    ensures DecimalValue(s) < Power10(|s|)
    ensures Padded(DecimalValue(s), |s|) == s
  {
    if s != [] {
      var p := s[..|s| - 1];
      assert AllDigits(p);
      DigitsArePadded(p);
      var n := DecimalValue(s);
      assert n == 10 * DecimalValue(p) + DigitValue(s[|s| - 1]);
      assert n / 10 == DecimalValue(p) && n % 10 == DigitValue(s[|s| - 1]);
      assert DigitChar(DigitValue(s[|s| - 1])) == s[|s| - 1];
      assert p + [s[|s| - 1]] == s;
    }
  }

  /** The ISO form of a valid date reads back as that date, and a string reads back as a date
      exactly when it is that date's ISO form. */
  lemma IsoRoundTrip(d: Date, s: string)
    requires Valid(d)
    ensures ParseIso(IsoFormat(d)) == Some(d)
    ensures ParseIso(s) == Some(d) <==> s == IsoFormat(d)
  {
    PaddedRoundTrip(d.year, 4);
    PaddedRoundTrip(d.month, 2);
    PaddedRoundTrip(d.day, 2);
    var t := IsoFormat(d);
    assert t[..4] == Padded(d.year, 4);
    assert t[5..7] == Padded(d.month, 2);
    assert t[8..] == Padded(d.day, 2);
    if ParseIso(s) == Some(d) {
      DigitsArePadded(s[..4]);
      DigitsArePadded(s[5..7]);
      DigitsArePadded(s[8..]);
      assert s == s[..4] + "-" + s[5..7] + "-" + s[8..];
    }
  }

  /** The same two facts for the "DD-MM-YYYY" form. */
  lemma DmyRoundTrip(d: Date, s: string)
    requires Valid(d)
    ensures ParseDmy(DmyFormat(d)) == Some(d)
    ensures ParseDmy(s) == Some(d) <==> s == DmyFormat(d)
  {
    PaddedRoundTrip(d.year, 4);
    PaddedRoundTrip(d.month, 2);
    PaddedRoundTrip(d.day, 2);
    var t := DmyFormat(d);
    assert t[..2] == Padded(d.day, 2);
    assert t[3..5] == Padded(d.month, 2);
    assert t[6..] == Padded(d.year, 4);
    if ParseDmy(s) == Some(d) {
      DigitsArePadded(s[..2]);
      DigitsArePadded(s[3..5]);
      DigitsArePadded(s[6..]);
      assert s == s[..2] + "-" + s[3..5] + "-" + s[6..];
    }
  }

  /** The DD-MM-YYYY form is made of digits and '-' only. */
  lemma DmyCharacters(d: Date)
    requires Valid(d)
    ensures forall k :: 0 <= k < |DmyFormat(d)| ==> DmyFormat(d)[k] == '-' || IsDigit(DmyFormat(d)[k])
  {
    PaddedRoundTrip(d.year, 4);
    PaddedRoundTrip(d.month, 2);
    PaddedRoundTrip(d.day, 2);
  }

  /** Both forms are ten characters long. */
  lemma FormatLengths(d: Date)
    requires Valid(d)
    ensures |IsoFormat(d)| == 10 && |DmyFormat(d)| == 10
  {
    PaddedRoundTrip(d.year, 4);
    PaddedRoundTrip(d.month, 2);
    PaddedRoundTrip(d.day, 2);
  }
}
