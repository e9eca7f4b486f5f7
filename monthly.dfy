/**
 * The monthly-low annotation of main.py:93-95: rows are grouped by calendar
 * (year, month), each group's minimum close is computed, and a row is
 * flagged when its close equals the minimum of its group.
 */
module MonthlyLow {
  import opened Dates

  /** One (Date, Close) row, the close at full precision. */
  datatype Quote = Quote(date: CalendarDate, close: real)

  /** A row with its `Is_Low` flag. */
  datatype Flagged = Flagged(date: CalendarDate, close: real, isLow: bool)

  /** `Period('M')`: the calendar month a day falls in. */
  datatype YearMonth = YearMonth(year: int, month: int)

  function MonthOf(d: CalendarDate): (m: YearMonth)
    ensures m.year == d.year && m.month == d.month
    ensures 1 <= m.month <= 12
  {
    YearMonth(d.year, d.month)
  }

  predicate SameMonth(a: Quote, b: Quote) {
    MonthOf(a.date) == MonthOf(b.date)
  }

  /** The specification of the flag: row `i` closes no higher than any row of
      its own month. */
  predicate IsMonthlyLow(qs: seq<Quote>, i: nat)
    requires i < |qs|
  {
    forall j :: 0 <= j < |qs| && SameMonth(qs[j], qs[i]) ==> qs[i].close <= qs[j].close
  }

  /** `groupby('YearMonth')['Close'].min()`: one entry per month present,
      holding the least close of that month. */
  function MonthlyLows(qs: seq<Quote>): (lows: map<YearMonth, real>)
    ensures forall i :: 0 <= i < |qs| ==>
              MonthOf(qs[i].date) in lows && lows[MonthOf(qs[i].date)] <= qs[i].close
    ensures forall m :: m in lows ==>
              exists i :: 0 <= i < |qs| && MonthOf(qs[i].date) == m && qs[i].close == lows[m]
  {
    if qs == [] then map[]
    else
      var init := qs[..|qs| - 1];
      var q := qs[|qs| - 1];
      var lows := MonthlyLows(init);
      var m := MonthOf(q.date);
      assert forall i :: 0 <= i < |init| ==> init[i] == qs[i];
      if m in lows && lows[m] <= q.close then lows else lows[m := q.close]
  }

  /** main.py:93-95, `Close == transform('min')`: the flag compares the
      unrounded close with its month's minimum, so it holds exactly for the
      rows that are lows of their month. Every row is kept, in order. */
  function Annotate(qs: seq<Quote>): (r: seq<Flagged>)
    ensures |r| == |qs|
    ensures forall i :: 0 <= i < |qs| ==> r[i].date == qs[i].date && r[i].close == qs[i].close
    ensures forall i :: 0 <= i < |qs| ==> (r[i].isLow <==> IsMonthlyLow(qs, i))
  {
    var lows := MonthlyLows(qs);
    var r := seq(|qs|, i requires 0 <= i < |qs| =>
               Flagged(qs[i].date, qs[i].close, qs[i].close == lows[MonthOf(qs[i].date)]));
    assert forall i :: 0 <= i < |qs| ==> (r[i].isLow <==> IsMonthlyLow(qs, i)) by {
      forall i | 0 <= i < |qs|
        ensures r[i].isLow <==> IsMonthlyLow(qs, i)
      {
        var m := MonthOf(qs[i].date);
        var k :| 0 <= k < |qs| && MonthOf(qs[k].date) == m && qs[k].close == lows[m];
        assert SameMonth(qs[k], qs[i]);
      }
    }
    r
  }

  /** Every month present has at least one flagged row. */
  lemma EveryMonthHasLow(qs: seq<Quote>, i: nat)
    requires i < |qs|
    ensures exists j :: 0 <= j < |qs| && SameMonth(qs[j], qs[i]) && Annotate(qs)[j].isLow
  {
    var lows := MonthlyLows(qs);
    var m := MonthOf(qs[i].date);
    var j :| 0 <= j < |qs| && MonthOf(qs[j].date) == m && qs[j].close == lows[m];
    assert IsMonthlyLow(qs, j) by {
      forall k | 0 <= k < |qs| && SameMonth(qs[k], qs[j])
        ensures qs[j].close <= qs[k].close
      {
        assert MonthOf(qs[k].date) == m;
      }
    }
  }

  /** Ties are all flagged, and flagged rows of one month share one close:
      the month's minimum. */
  lemma LowsOfAMonthAgree(qs: seq<Quote>, i: nat, j: nat)
    requires i < |qs| && j < |qs| && SameMonth(qs[i], qs[j])
    requires Annotate(qs)[i].isLow
    ensures Annotate(qs)[j].isLow <==> qs[j].close == qs[i].close
  {
  }
}
