/**
 * Calendar dates as Python's `datetime.date` holds them (proleptic Gregorian,
 * years 1..9999), their ISO 8601 text form `YYYY-MM-DD`, their order and
 * their day of the week.
 */
module Dates {
  import opened Wrappers
  import opened Text

  datatype Date = Date(year: int, month: int, day: int)

  predicate IsLeapYear(y: int) {
    y % 4 == 0 && (y % 100 != 0 || y % 400 == 0)
  }

  function DaysInMonth(y: int, m: int): (n: int)
    requires 1 <= m <= 12
    ensures 28 <= n <= 31
  {
    if m == 2 then (if IsLeapYear(y) then 29 else 28)
    else if m == 4 || m == 6 || m == 9 || m == 11 then 30
    else 31
  }

  /** What `date(year, month, day)` accepts without raising ValueError. */
  predicate ValidDate(d: Date) {
    1 <= d.year <= 9999 && 1 <= d.month <= 12 && 1 <= d.day <= DaysInMonth(d.year, d.month)
  }

  /** A `datetime.date` value: the constructor has already checked it. */
  type CalendarDate = d: Date | ValidDate(d) witness Date(1, 1, 1)

  /** Python's `a <= b` on dates: chronological order. */
  predicate NotAfter(a: Date, b: Date) {
    a.year < b.year || (a.year == b.year && (a.month < b.month || (a.month == b.month && a.day <= b.day)))
  }

  // ---------------------------------------------------------------- day of the week

  function DaysBeforeMonth(y: int, m: int): int
    requires 1 <= m <= 12
  {
    var before := [0, 31, 59, 90, 120, 151, 181, 212, 243, 273, 304, 334][m - 1];
    if m > 2 && IsLeapYear(y) then before + 1 else before
  }

  /** Python's `date.toordinal()`: 0001-01-01 is day 1. */
  function Ordinal(d: CalendarDate): (n: int)
    ensures n >= 1
  {
    var y := d.year - 1;
    y * 365 + y / 4 - y / 100 + y / 400 + DaysBeforeMonth(d.year, d.month) + d.day
  }

  /** Python's `date.weekday()`: Monday is 0, Saturday 5, Sunday 6. */
  function Weekday(d: CalendarDate): (w: int)
    ensures 0 <= w < 7
  {
    (Ordinal(d) + 6) % 7
  }

  lemma WeekdayExamples()
    ensures Weekday(Date(2025, 12, 29)) == 0  // a Monday
    ensures Weekday(Date(2025, 12, 27)) == 5  // a Saturday
    ensures Weekday(Date(1, 1, 1)) == 0
  {
  }

  // ---------------------------------------------------------------- ISO 8601 text

  /** Python's `date.isoformat()`: `YYYY-MM-DD`, each field zero-padded. */
  function IsoFormat(d: CalendarDate): (s: string)
    ensures |s| == 10 && IsoShaped(s)
  {
    NatToStringWidth(d.year, 4);
    NatToStringWidth(d.month, 2);
    NatToStringWidth(d.day, 2);
    ZeroPad(NatToString(d.year), 4) + "-" + ZeroPad(NatToString(d.month), 2) + "-" + ZeroPad(NatToString(d.day), 2)
  }

  /** Ten characters: four digits, '-', two digits, '-', two digits. */
  predicate IsoShaped(s: string) {
    && |s| == 10 && s[4] == '-' && s[7] == '-'
    && AllDigits(s[..4]) && AllDigits(s[5..7]) && AllDigits(s[8..])
  }

  /**
   * Python's `date.fromisoformat(s)` (the strict form of Python 3.7 to 3.10):
   * None where it raises ValueError.
   */
  function ParseIsoDate(s: string): (r: Option<CalendarDate>)
    ensures r.Some? ==> IsoShaped(s)
  {
    if !IsoShaped(s) then None
    else
      var d := Date(DigitsValue(s[..4]), DigitsValue(s[5..7]), DigitsValue(s[8..]));
      if ValidDate(d) then Some(d) else None
  }

  /** Every date survives a trip through its ISO text. */
  lemma IsoRoundTrip(d: CalendarDate)
    ensures ParseIsoDate(IsoFormat(d)) == Some(d)
  {
    var s := IsoFormat(d);
    NatToStringWidth(d.year, 4);
    NatToStringWidth(d.month, 2);
    NatToStringWidth(d.day, 2);
    assert s[..4] == ZeroPad(NatToString(d.year), 4);
    assert s[5..7] == ZeroPad(NatToString(d.month), 2);
    assert s[8..] == ZeroPad(NatToString(d.day), 2);
    ZeroPadValue(d.year, 4);
    ZeroPadValue(d.month, 2);
    ZeroPadValue(d.day, 2);
  }

  /** The ISO text of a date is the only text that parses to it. */
  lemma IsoParseCanonical(s: string)
    requires ParseIsoDate(s).Some?
    ensures IsoFormat(ParseIsoDate(s).value) == s
  {
    var d := ParseIsoDate(s).value;
    var t := IsoFormat(d);
    IsoRoundTrip(d);
    SameIsoFields(s, t);
  }

  /** Two ISO-shaped texts that parse to the same date are the same text. */
  lemma SameIsoFields(s: string, t: string)
    requires ParseIsoDate(s).Some? && ParseIsoDate(t) == ParseIsoDate(s)
    ensures s == t
  {
    DigitsInjective(s[..4], t[..4]);
    DigitsInjective(s[5..7], t[5..7]);
    DigitsInjective(s[8..], t[8..]);
    assert s == s[..4] + "-" + s[5..7] + "-" + s[8..];
    assert t == t[..4] + "-" + t[5..7] + "-" + t[8..];
  }

  /** Two digit strings of equal length with equal value are equal. */
  lemma {:induction false} DigitsInjective(a: string, b: string)
    requires AllDigits(a) && AllDigits(b) && |a| == |b|
    requires DigitsValue(a) == DigitsValue(b)
    ensures a == b
    decreases |a|
  {
    if |a| > 0 {
      var n := |a| - 1;
      var x, y := DigitValue(a[n]), DigitValue(b[n]);
      assert 10 * DigitsValue(a[..n]) + x == 10 * DigitsValue(b[..n]) + y;
      assert x == y && DigitsValue(a[..n]) == DigitsValue(b[..n]);
      DigitsInjective(a[..n], b[..n]);
      assert a[n] == b[n] by {
        assert a[n] as int == x + '0' as int && b[n] as int == y + '0' as int;
      }
      assert a == a[..n] + [a[n]] && b == b[..n] + [b[n]];
    }
  }

  function Pow10(k: nat): (p: nat)
    ensures p >= 1
  {
    if k == 0 then 1 else 10 * Pow10(k - 1)
  }

  lemma {:induction false} NatToStringLength(n: nat, k: nat)
    requires k >= 1 && n < Pow10(k)
    ensures |NatToString(n)| <= k
    decreases n
  {
    if n >= 10 {
      NatToStringLength(n / 10, k - 1);
    }
  }

  lemma NatToStringWidth(n: nat, k: nat)
    requires k >= 1 && n < Pow10(k)
    ensures |ZeroPad(NatToString(n), k)| == k
  {
    NatToStringLength(n, k);
  }
}
