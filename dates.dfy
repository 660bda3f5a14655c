/**
 * Calendar dates and the two birth-date formats the player importer tries,
 * `%m/%d/%y` and then `%m/%d/%Y`, as Python's `datetime.strptime` reads
 * them: `%m` is 1-12 in one or two digits, `%d` is 1-31 in one or two digits
 * (or a space and one digit), `%y` is exactly two digits with the POSIX pivot
 * (69-99 -> 19xx, 00-68 -> 20xx), `%Y` exactly four digits, the whole string
 * must be consumed, and the date must exist in the Gregorian calendar.
 */
module Dates {
  import opened Wrappers
  import opened Text

  datatype Date = Date(year: int, month: int, day: int)

  predicate IsLeapYear(y: int) {
    y % 4 == 0 && (y % 100 != 0 || y % 400 == 0)
  }

  function DaysInMonth(y: int, m: int): (n: int)
    requires 1 <= m <= 12
    ensures 28 <= n <= 31
  {
    if m == 2 then (if IsLeapYear(y) then 29 else 28)
    else if m == 4 || m == 6 || m == 9 || m == 11 then 30
    else 31
  }

  /** The dates `datetime.date` can represent (years 1 to 9999). */
  predicate IsValidDate(d: Date) {
    1 <= d.year <= 9999 && 1 <= d.month <= 12 && 1 <= d.day <= DaysInMonth(d.year, d.month)
  }

  // ------------------------------------------------------ format fields

  /** `%m`: "1".."9", "01".."09", "10".."12". */
  function ParseMonthField(f: string): (r: Option<int>)
    ensures r.Some? ==> 1 <= r.value <= 12
  {
    if 1 <= |f| <= 2 && AllDigits(f) && 1 <= DigitsValue(f) <= 12 then Some(DigitsValue(f)) else None
  }

  /** `%d`: "1".."9", "01".."31", or a space followed by "1".."9". */
  function ParseDayField(f: string): (r: Option<int>)
    ensures r.Some? ==> 1 <= r.value <= 31
  {
    if 1 <= |f| <= 2 && AllDigits(f) && 1 <= DigitsValue(f) <= 31 then Some(DigitsValue(f))
    else if |f| == 2 && f[0] == ' ' && IsDigit(f[1]) && f[1] != '0' then Some(DigitValue(f[1]))
    else None
  }

  /** `%y`: exactly two digits, pivoted into 1969..2068. */
  function ParseShortYearField(f: string): (r: Option<int>)
    ensures r.Some? ==> 1969 <= r.value <= 2068
  {
    if |f| == 2 && AllDigits(f) then
      var v := DigitsValue(f);
      DigitsValueBound(f);
      Some(if v <= 68 then 2000 + v else 1900 + v)
    else None
  }

  /** `%Y`: exactly four digits. */
  function ParseLongYearField(f: string): (r: Option<int>)
    ensures r.Some? ==> 0 <= r.value <= 9999
  {
    if |f| == 4 && AllDigits(f) then DigitsValueBound(f); Some(DigitsValue(f)) else None
  }

  /** `strptime(s, '%m/%d/%y')` (long = false) or `strptime(s, '%m/%d/%Y')` (long = true). */
  function ParseWith(s: string, long: bool): (r: Option<Date>)
    ensures r.Some? ==> IsValidDate(r.value)
    ensures r.Some? && !long ==> 1969 <= r.value.year <= 2068
  {
    var fs := Split(s, '/');
    if |fs| != 3 then None
    else
      var m := ParseMonthField(fs[0]);
      var d := ParseDayField(fs[1]);
      var y := if long then ParseLongYearField(fs[2]) else ParseShortYearField(fs[2]);
      if m.Some? && d.Some? && y.Some? && IsValidDate(Date(y.value, m.value, d.value))
      then Some(Date(y.value, m.value, d.value))
      else None
  }

  /**
   * The importer's birth-date rule: the two-digit-year format first, the
   * four-digit-year format only when that fails, None when both fail.
   */
  function ParseBirthDate(s: string): (r: Option<Date>)
    ensures r.Some? ==> IsValidDate(r.value)
    ensures ParseWith(s, false).Some? ==> r == ParseWith(s, false)
    ensures ParseWith(s, false).None? ==> r == ParseWith(s, true)
  {
    var short := ParseWith(s, false);
    if short.Some? then short else ParseWith(s, true)
  }

  // ------------------------------------------------------------ formatting

  function Pad2(n: nat): (s: string)
    requires n < 100
    ensures |s| == 2 && AllDigits(s)
  {
    [DigitChar(n / 10), DigitChar(n % 10)]
  }

  function Pad4(n: nat): (s: string)
    requires n < 10000
    ensures |s| == 4 && AllDigits(s)
  {
    Pad2(n / 100) + Pad2(n % 100)
  }

  /** `date.strftime('%m/%d/%y')`. */
  function FormatShort(d: Date): string
    requires IsValidDate(d)
  {
    Pad2(d.month) + "/" + Pad2(d.day) + "/" + Pad2(d.year % 100)
  }

  /** `date.strftime('%m/%d/%Y')`. */
  function FormatLong(d: Date): string
    requires IsValidDate(d)
  {
    Pad2(d.month) + "/" + Pad2(d.day) + "/" + Pad4(d.year)
  }

  lemma Pad2Value(n: nat)
    requires n < 100
    ensures DigitsValue(Pad2(n)) == n
  {
    var s := Pad2(n);
    var hi := s[..1];
    assert hi[..0] == [];
    assert hi == [DigitChar(n / 10)];
    assert DigitsValue(hi) == n / 10;
    assert DigitsValue(s) == DigitsValue(hi) * 10 + DigitValue(s[1]);
  }

  lemma Pad4Value(n: nat)
    requires n < 10000
    ensures DigitsValue(Pad4(n)) == n
  {
    Pad2Value(n / 100);
    Pad2Value(n % 100);
    DigitsConcat(Pad2(n / 100), Pad2(n % 100));
  }

  lemma NoSlashInDigits(s: string)
    requires AllDigits(s)
    ensures '/' !in s
  {
    forall k | 0 <= k < |s| ensures s[k] != '/' { assert IsDigit(s[k]); }
  }

  /** Splitting "a/b/c" where a, b, c hold only digits gives back [a, b, c]. */
  lemma SplitThree(a: string, b: string, c: string)
    requires AllDigits(a) && AllDigits(b) && AllDigits(c)
    ensures Split(a + "/" + b + "/" + c, '/') == [a, b, c]
  {
    NoSlashInDigits(a);
    NoSlashInDigits(b);
    NoSlashInDigits(c);
    assert a + "/" + b + "/" + c == a + ['/'] + (b + ['/'] + c);
    SplitJoin(a, b + ['/'] + c, '/');
    SplitJoin(b, c, '/');
    SplitNoSep(c, '/');
  }

  /** A date in the pivot window written as m/d/yy is read back by the first format. */
  lemma {:induction false} ShortRoundTrip(d: Date)
    requires IsValidDate(d) && 1969 <= d.year <= 2068
    ensures ParseWith(FormatShort(d), false) == Some(d)
    ensures ParseBirthDate(FormatShort(d)) == Some(d)
  {
    var fs := [Pad2(d.month), Pad2(d.day), Pad2(d.year % 100)];
    SplitThree(fs[0], fs[1], fs[2]);
    Pad2Value(d.month);
    Pad2Value(d.day);
    Pad2Value(d.year % 100);
    assert ParseMonthField(fs[0]) == Some(d.month);
    assert ParseDayField(fs[1]) == Some(d.day);
    PivotYear(d.year);
    assert ParseShortYearField(fs[2]) == Some(d.year);
  }

  /** The two-digit year of a year in the pivot window pivots back to it. */
  lemma PivotYear(y: int)
    requires 1969 <= y <= 2068
    ensures var v := y % 100; (if v <= 68 then 2000 + v else 1900 + v) == y
  {
    if y >= 2000 { assert y % 100 == y - 2000; } else { assert y % 100 == y - 1900; }
  }

  /** Any representable date written as m/d/yyyy is rejected by the first format and read back by the second. */
  lemma {:induction false} LongRoundTrip(d: Date)
    requires IsValidDate(d)
    ensures ParseWith(FormatLong(d), false) == None
    ensures ParseBirthDate(FormatLong(d)) == Some(d)
  {
    SplitThree(Pad2(d.month), Pad2(d.day), Pad4(d.year));
    Pad2Value(d.month);
    Pad2Value(d.day);
    Pad4Value(d.year);
  }
}
