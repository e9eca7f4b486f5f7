/**
 * Calendar dates of the price history and their `YYYY-MM-DD` rendering
 * (`strftime('%Y-%m-%d')`, the `full-date` form of section 5.6 of RFC 3339).
 * The dates are timezone-naive: only year, month and day remain.
 */
module Dates {
  import opened Wrappers
  import opened Text

  datatype Ymd = Ymd(year: int, month: int, day: int)

  predicate IsLeapYear(y: int) {
    y % 4 == 0 && (y % 100 != 0 || y % 400 == 0)
  }

  function DaysInMonth(y: int, m: int): (n: int)
    requires 1 <= m <= 12
    ensures 28 <= n <= 31
  {
    if m == 2 then (if IsLeapYear(y) then 29 else 28)
    else if m == 4 || m == 6 || m == 9 || m == 11 then 30
    else 31
  }

  /** A real calendar day with a four-digit year (pandas timestamps lie
      between the years 1677 and 2262). */
  predicate ValidYmd(d: Ymd) {
    && 1000 <= d.year <= 9999
    && 1 <= d.month <= 12
    && 1 <= d.day <= DaysInMonth(d.year, d.month)
  }

  type CalendarDate = d: Ymd | ValidYmd(d) witness Ymd(2000, 1, 1)

  /** Chronological order: `a` is an earlier day than `b`. */
  predicate Before(a: Ymd, b: Ymd) {
    || a.year < b.year
    || (a.year == b.year && a.month < b.month)
    || (a.year == b.year && a.month == b.month && a.day < b.day)
  }

  /** The part after the year: `-MM-DD`. */
  function MonthDayText(d: CalendarDate): string {
    "-" + Digits(2, d.month) + "-" + Digits(2, d.day)
  }

  /** `strftime('%Y-%m-%d')`: fixed width, dashes at positions 4 and 7,
      decimal digits everywhere else. */
  function FormatDate(d: CalendarDate): (s: string)
    ensures |s| == 10 && s[4] == '-' && s[7] == '-'
    ensures forall i :: 0 <= i < 10 && i != 4 && i != 7 ==> IsDigit(s[i])
  {
    Digits(4, d.year) + MonthDayText(d)
  }

  /** Reads a `YYYY-MM-DD` string back; the inverse of FormatDate. */
  function ParseDate(s: string): Option<CalendarDate> {
    if |s| == 10 && s[4] == '-' && s[7] == '-'
       && AllDigits(s[..4]) && AllDigits(s[5..7]) && AllDigits(s[8..])
    then
      var d := Ymd(Value(s[..4]), Value(s[5..7]), Value(s[8..]));
      if ValidYmd(d) then Some(d) else None
    else None
  }

  lemma ParseFormat(d: CalendarDate)
    ensures ParseDate(FormatDate(d)) == Some(d)
  {
    var s := FormatDate(d);
    assert s[..4] == Digits(4, d.year);
    assert s[5..7] == Digits(2, d.month);
    assert s[8..] == Digits(2, d.day);
    ValueOfDigits(4, d.year);
    ValueOfDigits(2, d.month);
    ValueOfDigits(2, d.day);
  }

  /** Every string ParseDate accepts is the canonical rendering of its date. */
  lemma FormatParse(s: string)
    requires ParseDate(s).Some?
    ensures FormatDate(ParseDate(s).value) == s
  {
    var d := ParseDate(s).value;
    DigitsOfValue(s[..4]);
    DigitsOfValue(s[5..7]);
    DigitsOfValue(s[8..]);
    assert s == s[..4] + "-" + s[5..7] + "-" + s[8..];
  }

  lemma FormatInjective(a: CalendarDate, b: CalendarDate)
    requires FormatDate(a) == FormatDate(b)
    ensures a == b
  {
    ParseFormat(a);
    ParseFormat(b);
  }

  /** On these strings, string order is chronological order (section 5.1 of
      RFC 3339). */
  lemma FormatOrder(a: CalendarDate, b: CalendarDate)
    ensures LexLess(FormatDate(a), FormatDate(b)) <==> Before(a, b)
  {
    LexLessConcat(Digits(4, a.year), MonthDayText(a), Digits(4, b.year), MonthDayText(b));
    DigitsOrder(4, a.year, b.year);
    assert Digits(4, a.year) == Digits(4, b.year) <==> a.year == b.year by {
      if Digits(4, a.year) == Digits(4, b.year) {
        DigitsInjective(4, a.year, b.year);
      }
    }
    var ma, mb := Digits(2, a.month), Digits(2, b.month);
    var da, db := Digits(2, a.day), Digits(2, b.day);
    assert MonthDayText(a) == "-" + (ma + ("-" + da));
    assert MonthDayText(b) == "-" + (mb + ("-" + db));
    LexLessConcat("-", ma + ("-" + da), "-", mb + ("-" + db));
    LexLessIrreflexive("-");
    LexLessConcat(ma, "-" + da, mb, "-" + db);
    DigitsOrder(2, a.month, b.month);
    assert ma == mb <==> a.month == b.month by {
      if ma == mb {
        DigitsInjective(2, a.month, b.month);
      }
    }
    LexLessConcat("-", da, "-", db);
    DigitsOrder(2, a.day, b.day);
  }
}
