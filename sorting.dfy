/**
 * `sort_values(by='Date', ascending=False)` (main.py:105): the output rows
 * ordered by their date string, greatest first.
 */
module Sorting {
  import opened Text
  import opened Display

  /** No row's date string is less than a later row's. */
  predicate NewestFirst(rows: seq<OutRow>) {
    forall i, j :: 0 <= i < j < |rows| ==> !LexLess(rows[i].date, rows[j].date)
  }

  /** Places `x` into rows already in descending order, before the first row
      whose date string is not greater than its own. */
  function Insert(x: OutRow, rows: seq<OutRow>): (r: seq<OutRow>)
    requires NewestFirst(rows)
    ensures NewestFirst(r)
    ensures multiset(r) == multiset(rows) + multiset{x}
  {
    if rows == [] then [x]
    else if !LexLess(x.date, rows[0].date) then
      assert forall j :: 0 <= j < |rows| ==> !LexLess(x.date, rows[j].date) by {
        forall j | 0 <= j < |rows|
          ensures !LexLess(x.date, rows[j].date)
        {
          if j > 0 {
            NotLessTransitive(x.date, rows[0].date, rows[j].date);
          }
        }
      }
      [x] + rows
    else
      var tail := Insert(x, rows[1..]);
      assert rows == [rows[0]] + rows[1..];
      assert !LexLess(rows[0].date, x.date) by {
        if LexLess(rows[0].date, x.date) {
          LexLessTransitive(x.date, rows[0].date, x.date);
          LexLessIrreflexive(x.date);
        }
      }
      assert forall k :: 0 <= k < |tail| ==> !LexLess(rows[0].date, tail[k].date) by {
        forall k | 0 <= k < |tail|
          ensures !LexLess(rows[0].date, tail[k].date)
        {
          assert tail[k] in multiset(tail);
          if tail[k] != x {
            assert tail[k] in multiset(rows[1..]);
            var j :| 0 <= j < |rows[1..]| && rows[1..][j] == tail[k];
            assert rows[j + 1] == tail[k];
          }
        }
      }
      [rows[0]] + tail
  }

  /** The rows in descending date-string order: a reordering of the input,
      nothing added and nothing lost. */
  function SortNewestFirst(rows: seq<OutRow>): (r: seq<OutRow>)
    ensures NewestFirst(r)
    ensures multiset(r) == multiset(rows)
    ensures |r| == |rows|
  {
    if rows == [] then []
    else
      assert rows == [rows[0]] + rows[1..];
      Insert(rows[0], SortNewestFirst(rows[1..]))
  }
}
