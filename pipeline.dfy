/**
 * `update_data` (main.py:64-115) without credentials and the spreadsheet
 * service: fetch with fallback, refuse an empty result, pick out the
 * (Date, Close) columns, flag monthly lows, format, sort newest first, and
 * build the header-plus-rows payload that is written from cell A1.
 */
module Pipeline {
  import opened Wrappers
  import opened Text
  import opened Dates
  import opened Frame
  import opened Fetch
  import opened MonthlyLow
  import opened Display
  import opened Sorting

  /** Why a run stops before anything is uploaded. */
  datatype Error =
    | NoData                        // main.py:67-68, both fetch attempts came back without rows
    | MissingClose(columns: seq<Label>)  // main.py:85-88, reported with the columns found
    | MissingDate                   // main.py:90, `df[['Date', 'Close']]` raises KeyError
    | DateNotDatetime               // a `Date` cell that is not a calendar day (main.py:78, 93)
    | CloseNotNumeric               // main.py:99, rounding meets a non-numeric close

  /** A value written to one spreadsheet cell. */
  datatype SheetValue = Str(text: string) | Number(value: real)

  const Header: seq<SheetValue> := [Str("Date"), Str("Close"), Str("Is_Low")]

  /** Every `Date` cell of a table holds a calendar day. */
  predicate DatesAreDays(t: Table)
    requires t.WellFormed() && Name("Date") in t.columns
  {
    forall i :: 0 <= i < |t.rows| ==> CellOf(t, i, Name("Date")).Day?
  }

  /** Every `Close` cell of a table holds a number. */
  predicate ClosesAreNumbers(t: Table)
    requires t.WellFormed() && Name("Close") in t.columns
  {
    forall i :: 0 <= i < |t.rows| ==> CellOf(t, i, Name("Close")).Num?
  }

  /** main.py:74-90: flatten the header, demand a `Close` column, then read
      the first `Date` and `Close` columns of every row. Each outcome is
      stated with the condition that leads to it; on success, quote `i` is
      the `Date` and `Close` cells of row `i`. */
  function Prices(raw: Table): (r: Result<seq<Quote>, Error>)
    requires raw.WellFormed()
    ensures Name("Close") !in FlattenColumns(raw).columns <==>
            r == Err(MissingClose(FlattenColumns(raw).columns))
    ensures Name("Close") in FlattenColumns(raw).columns && Name("Date") !in FlattenColumns(raw).columns <==>
            r == Err(MissingDate)
    ensures (&& Name("Close") in FlattenColumns(raw).columns && Name("Date") in FlattenColumns(raw).columns
             && !DatesAreDays(FlattenColumns(raw))) <==>
            r == Err(DateNotDatetime)
    ensures (&& Name("Close") in FlattenColumns(raw).columns && Name("Date") in FlattenColumns(raw).columns
             && DatesAreDays(FlattenColumns(raw)) && !ClosesAreNumbers(FlattenColumns(raw))) <==>
            r == Err(CloseNotNumeric)
    ensures (&& Name("Close") in FlattenColumns(raw).columns && Name("Date") in FlattenColumns(raw).columns
             && DatesAreDays(FlattenColumns(raw)) && ClosesAreNumbers(FlattenColumns(raw))) <==>
            r.Ok?
    ensures r.Ok? ==> |r.value| == |raw.rows|
    ensures r.Ok? ==> forall i :: 0 <= i < |raw.rows| ==>
              && CellOf(FlattenColumns(raw), i, Name("Date")) == Day(r.value[i].date)
              && CellOf(FlattenColumns(raw), i, Name("Close")) == Num(r.value[i].close)
  {
    var df := FlattenColumns(raw);
    if Name("Close") !in df.columns then Err(MissingClose(df.columns))
    else if Name("Date") !in df.columns then Err(MissingDate)
    else if !DatesAreDays(df) then Err(DateNotDatetime)
    else if !ClosesAreNumbers(df) then Err(CloseNotNumeric)
    else Ok(seq(|df.rows|, i requires 0 <= i < |df.rows| =>
              Quote(CellOf(df, i, Name("Date")).date, CellOf(df, i, Name("Close")).value)))
  }

  /** main.py:73-105: the annotated, formatted rows, newest first. They are a
      reordering of the rendered quotes, one per fetched row. */
  function Process(raw: Table): (r: Result<seq<OutRow>, Error>)
    requires raw.WellFormed()
    ensures Prices(raw).Err? ==> r == Err(Prices(raw).error)
    ensures Prices(raw).Ok? ==> r.Ok? && NewestFirst(r.value)
    ensures Prices(raw).Ok? ==> multiset(r.value) == multiset(Render(Annotate(Prices(raw).value)))
    ensures r.Ok? ==> |r.value| == |raw.rows|
  {
    var quotes :- Prices(raw);
    Ok(SortNewestFirst(Render(Annotate(quotes))))
  }

  /** main.py:115: the header row, then one three-cell row per output row,
      in the order `Date`, `Close`, `Is_Low`. */
  function Payload(rows: seq<OutRow>): (p: seq<seq<SheetValue>>)
    ensures |p| == |rows| + 1 && p[0] == Header
    ensures forall i :: 0 <= i < |rows| ==>
              p[i + 1] == [Str(rows[i].date), Number(rows[i].close), Str(rows[i].isLow)]
  {
    [Header] + seq(|rows|, i requires 0 <= i < |rows| =>
                 [Str(rows[i].date), Number(rows[i].close), Str(rows[i].isLow)])
  }

  /** A data row of the sheet as the dashboard reads it back. */
  predicate IsDataRow(cells: seq<SheetValue>) {
    |cells| == 3 && cells[0].Str? && cells[1].Number? && cells[2].Str?
  }

  /** Reads an uploaded sheet back into output rows; the inverse of Payload. */
  function SheetRows(p: seq<seq<SheetValue>>): Option<seq<OutRow>> {
    if |p| >= 1 && p[0] == Header && forall i :: 1 <= i < |p| ==> IsDataRow(p[i]) then
      Some(seq(|p| - 1, i requires 0 <= i < |p| - 1 =>
             OutRow(p[i + 1][0].text, p[i + 1][1].value, p[i + 1][2].text)))
    else None
  }

  lemma SheetRowsOfPayload(rows: seq<OutRow>)
    ensures SheetRows(Payload(rows)) == Some(rows)
  {
    var p := Payload(rows);
    assert forall i :: 1 <= i < |p| ==> IsDataRow(p[i]) by {
      forall i | 1 <= i < |p| ensures IsDataRow(p[i]) {
        assert p[(i - 1) + 1] == [Str(rows[i - 1].date), Number(rows[i - 1].close), Str(rows[i - 1].isLow)];
      }
    }
    var back := SheetRows(p).value;
    forall i | 0 <= i < |rows| ensures back[i] == rows[i] {
      assert p[i + 1] == [Str(rows[i].date), Number(rows[i].close), Str(rows[i].isLow)];
    }
    assert back == rows;
  }

  /** The upload that follows a processing result: the payload when it
      succeeded, the same error otherwise. */
  function Publish(r: Result<seq<OutRow>, Error>): Result<seq<seq<SheetValue>>, Error> {
    match r
    case Ok(rows) => Ok(Payload(rows))
    case Err(e) => Err(e)
  }

  /** `update_data` after authentication: fetch with fallback, stop with
      NoData when nothing came back, otherwise process the chosen table
      step by step and hand over the header-plus-rows payload. Nothing is
      uploaded on any error. */
  method UpdateData(history: Attempt, download: Attempt)
      returns (upload: Result<seq<seq<SheetValue>>, Error>, attempts: nat)
    requires history.Returned? ==> history.table.WellFormed()
    requires download.Returned? ==> download.table.WellFormed()
    ensures attempts == (if Succeeded(history) then 1 else 2)
    ensures !Succeeded(history) && !Succeeded(download) ==> upload == Err(NoData)
    ensures Succeeded(history) ==> upload == Publish(Process(history.table))
    ensures !Succeeded(history) && Succeeded(download) ==> upload == Publish(Process(download.table))
    ensures upload.Ok? ==> |upload.value| >= 2 && upload.value[0] == Header
  {
    var df;
    df, attempts := FetchRobust(history, download);
    if df.Empty() {
      upload := Err(NoData);
      return;
    }
    var quotes := Prices(df);
    if quotes.Err? {
      upload := Err(quotes.error);
      return;
    }
    var flagged := Annotate(quotes.value);
    var formatted := Render(flagged);
    var finalData := SortNewestFirst(formatted);
    // main.py:108 reads `iloc[0]`: there is a first row.
    assert |finalData| == |df.rows| > 0;
    upload := Ok(Payload(finalData));
  }

  /** Any rows whose date strings are renderings of calendar days and which
      are in descending string order are newest first in time. */
  lemma NewestFirstIsChronological(rows: seq<OutRow>)
    requires forall k :: 0 <= k < |rows| ==> ParseDate(rows[k].date).Some?
    requires NewestFirst(rows)
    ensures forall i, j :: 0 <= i < j < |rows| ==>
              !Before(ParseDate(rows[i].date).value, ParseDate(rows[j].date).value)
  {
    forall i, j | 0 <= i < j < |rows|
      ensures !Before(ParseDate(rows[i].date).value, ParseDate(rows[j].date).value)
    {
      var a, b := ParseDate(rows[i].date).value, ParseDate(rows[j].date).value;
      FormatParse(rows[i].date);
      FormatParse(rows[j].date);
      FormatOrder(a, b);
    }
  }

  /** Each output row is the rendering of one fetched quote: its date string
      reads back as the quote's day, its close is the rounded close, and it
      says `TRUE` exactly when the quote is a low of its month. */
  lemma OutputRowIsAnnotatedQuote(raw: Table, qs: seq<Quote>, k: nat) returns (i: nat)
    requires raw.WellFormed() && Prices(raw) == Ok(qs)
    requires k < |Process(raw).value|
    ensures i < |qs| && i < |raw.rows|
    ensures CellOf(FlattenColumns(raw), i, Name("Date")) == Day(qs[i].date)
    ensures CellOf(FlattenColumns(raw), i, Name("Close")) == Num(qs[i].close)
    ensures var row := Process(raw).value[k];
            && ParseDate(row.date) == Some(qs[i].date)
            && row.close == Round2(qs[i].close)
            && (row.isLow == "TRUE" <==> IsMonthlyLow(qs, i))
  {
    var out := Process(raw).value;
    assert multiset(out) == multiset(Render(Annotate(qs)));
    i := QuoteOfRow(qs, out, k);
  }

  /** Row `k` of a reordering of the rendered quotes is the rendering of
      some quote `i`. */
  lemma QuoteOfRow(qs: seq<Quote>, out: seq<OutRow>, k: nat) returns (i: nat)
    requires multiset(out) == multiset(Render(Annotate(qs))) && k < |out|
    ensures i < |qs|
    ensures ParseDate(out[k].date) == Some(qs[i].date)
    ensures out[k].close == Round2(qs[i].close)
    ensures out[k].isLow == "TRUE" <==> IsMonthlyLow(qs, i)
  {
    var flagged := Annotate(qs);
    var rendered := Render(flagged);
    i := Occurrence(rendered, out, k);
    assert ParseDate(rendered[i].date) == Some(flagged[i].date);
  }

  /** The output is newest first in calendar time, and every date in it is a
      well-formed `YYYY-MM-DD` string. */
  lemma OutputIsChronological(raw: Table)
    requires raw.WellFormed() && Process(raw).Ok?
    ensures var out := Process(raw).value;
            && (forall k :: 0 <= k < |out| ==> ParseDate(out[k].date).Some?)
            && (forall i, j :: 0 <= i < j < |out| ==>
                  !Before(ParseDate(out[i].date).value, ParseDate(out[j].date).value))
  {
    var out := Process(raw).value;
    var qs := Prices(raw).value;
    assert multiset(out) == multiset(Render(Annotate(qs)));
    forall k | 0 <= k < |out| ensures ParseDate(out[k].date).Some? {
      var i := QuoteOfRow(qs, out, k);
    }
    NewestFirstIsChronological(out);
  }

  /** Every calendar month present in the fetched data has a `TRUE` row in
      the output. */
  lemma OutputFlagsEveryMonth(raw: Table, qs: seq<Quote>, i: nat)
    requires raw.WellFormed() && Prices(raw) == Ok(qs) && i < |qs|
    ensures Process(raw).Ok?
    ensures var out := Process(raw).value;
            exists k :: && 0 <= k < |out|
                        && out[k].isLow == "TRUE"
                        && ParseDate(out[k].date).Some?
                        && MonthOf(ParseDate(out[k].date).value) == MonthOf(qs[i].date)
  {
    var out := Process(raw).value;
    assert multiset(out) == multiset(Render(Annotate(qs)));
    var k := MonthLowRendered(qs, out, i);
  }

  /** A reordering of the rendered quotes holds a `TRUE` row for the month of
      quote `i`. */
  lemma MonthLowRendered(qs: seq<Quote>, out: seq<OutRow>, i: nat) returns (k: nat)
    requires multiset(out) == multiset(Render(Annotate(qs))) && i < |qs|
    ensures k < |out| && out[k].isLow == "TRUE" && ParseDate(out[k].date).Some?
    ensures MonthOf(ParseDate(out[k].date).value) == MonthOf(qs[i].date)
  {
    var flagged := Annotate(qs);
    var rendered := Render(flagged);
    EveryMonthHasLow(qs, i);
    var j :| 0 <= j < |qs| && SameMonth(qs[j], qs[i]) && flagged[j].isLow;
    k := Occurrence(out, rendered, j);
    assert ParseDate(rendered[j].date) == Some(flagged[j].date);
  }

  /** Where an element of `b` sits in a reordering `a` of it. */
  lemma Occurrence<T>(a: seq<T>, b: seq<T>, j: nat) returns (k: nat)
    requires multiset(a) == multiset(b) && j < |b|
    ensures k < |a| && a[k] == b[j]
  {
    assert b[j] in multiset(b);
    k :| 0 <= k < |a| && a[k] == b[j];
  }
}
