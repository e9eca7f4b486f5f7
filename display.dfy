/**
 * Formatting for the spreadsheet (main.py:98-102): the date as `YYYY-MM-DD`,
 * the close rounded to two decimals, the flag as `TRUE` or `FALSE`.
 */
module Display {
  import opened Wrappers
  import opened Dates
  import opened MonthlyLow

  /** One output row, columns `Date`, `Close`, `Is_Low` in that order. */
  datatype OutRow = OutRow(date: string, close: real, isLow: string)

  /** `Series.round(2)`: to the nearest hundredth, halves to the even
      hundredth. The result is a whole number of hundredths within half a
      hundredth of `x`. */
  function Round2(x: real): (r: real)
    ensures (r * 100.0).Floor as real == r * 100.0
    ensures -0.005 <= r - x <= 0.005
  {
    var scaled := x * 100.0;
    var f := scaled.Floor;
    var frac := scaled - f as real;
    var k := if frac < 0.5 then f
             else if frac > 0.5 then f + 1
             else if f % 2 == 0 then f else f + 1;
    k as real / 100.0
  }

  /** `astype(str).str.upper()` on a boolean: `True` becomes `TRUE`. */
  function BoolText(b: bool): (s: string)
    ensures s == "TRUE" || s == "FALSE"
    ensures s == "TRUE" <==> b
  {
    if b then "TRUE" else "FALSE"
  }

  /** main.py:98-102: each flagged row becomes one output row whose date
      string reads back as its date, whose close is its close rounded for
      display, and whose `Is_Low` text is `TRUE` exactly for flagged rows. */
  function Render(rows: seq<Flagged>): (out: seq<OutRow>)
    ensures |out| == |rows|
    ensures forall i :: 0 <= i < |rows| ==> ParseDate(out[i].date) == Some(rows[i].date)
    ensures forall i :: 0 <= i < |rows| ==> out[i].close == Round2(rows[i].close)
    ensures forall i :: 0 <= i < |rows| ==> -0.005 <= out[i].close - rows[i].close <= 0.005
    ensures forall i :: 0 <= i < |rows| ==> (out[i].isLow == "TRUE" <==> rows[i].isLow)
    ensures forall i :: 0 <= i < |rows| ==> out[i].isLow == "TRUE" || out[i].isLow == "FALSE"
  {
    var out := seq(|rows|, i requires 0 <= i < |rows| =>
                 OutRow(FormatDate(rows[i].date), Round2(rows[i].close), BoolText(rows[i].isLow)));
    assert forall i :: 0 <= i < |rows| ==> ParseDate(out[i].date) == Some(rows[i].date) by {
      forall i | 0 <= i < |rows|
        ensures ParseDate(out[i].date) == Some(rows[i].date)
      {
        ParseFormat(rows[i].date);
      }
    }
    out
  }

  /** Closes 123.454 and 123.451 in one month both display as 123.45, yet
      only the lower one is flagged, because the flag is decided on the
      unrounded close before rounding. */
  lemma RoundingDoesNotDecideLow()
    ensures var qs := [Quote(Ymd(2024, 3, 4), 123.454), Quote(Ymd(2024, 3, 5), 123.451)];
            var out := Render(Annotate(qs));
            && out[0].close == out[1].close == 123.45
            && out[0].isLow == "FALSE" && out[1].isLow == "TRUE"
  {
    var qs := [Quote(Ymd(2024, 3, 4), 123.454), Quote(Ymd(2024, 3, 5), 123.451)];
    assert SameMonth(qs[0], qs[1]);
    assert !IsMonthlyLow(qs, 0);
    assert IsMonthlyLow(qs, 1);
    assert (123.454 * 100.0).Floor == 12345;
    assert (123.451 * 100.0).Floor == 12345;
  }
}
