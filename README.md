# TSLA dashboard refresh: fetch-with-fallback and monthly-low annotation

This project models the core of a batch job. The job downloads five years of
daily TSLA closing prices and flags, within each calendar month, the day or
days with the lowest close. It writes the result to a spreadsheet, newest day
first. The model covers four things:

- **Fetch with fallback** (`Fetch`). The first provider call
  (`Ticker.history`) is tried. If it raises or returns no rows, the second
  call (`download`) is tried after a pause. If that also fails, the result is
  an explicit empty table. Each call's outcome is an input: `Raised` or
  `Returned(table)`.
- **Table shape** (`Frame`). A table is column labels plus rows of cells.
  A label is a plain name or a tuple such as `('Close', 'TSLA')`. A flag says
  whether the labels form a two-level header. A cell is a calendar day, a
  price or text.
- **Transform** (`Pipeline.Prices`, `MonthlyLow`, `Display`, `Sorting`).
  The header is flattened to its first level. A `Close` column is required.
  The `Date` and `Close` columns are read. Each row is flagged when its
  unrounded close equals the minimum close of its (year, month). Dates are
  written `YYYY-MM-DD`, the `full-date` form of section 5.6 of RFC 3339.
  Closes are rounded to two decimals and flags are written `TRUE`/`FALSE`.
  Rows are then sorted by the date string, descending.
- **The run** (`Pipeline.UpdateData`). Fetch, then stop with `NoData` on an
  empty table. Otherwise process the table and build the upload payload: the
  header row `Date, Close, Is_Low` followed by one row per output row.

Dates are `(year, month, day)` triples that are real calendar days with a
four-digit year. Prices are `real`. String comparison is modelled as
Python's: code point by code point, with a proper prefix first (`Text.LexLess`).

Two facts are proved about that order. Fixed-width zero-padded dates compare
as strings exactly as they compare in time (`Dates.FormatOrder`). So the
descending string sort is newest-first in time
(`Pipeline.OutputIsChronological`).

Two behaviours of the code are worth stating outright:

- Every row whose close ties its month's minimum is flagged, not just one
  (main.py:95; `MonthlyLow.LowsOfAMonthAgree`).
- Rows are sorted by date string in descending order, newest first
  (main.py:105; `Sorting.SortNewestFirst`).

## Model

| member | source | states |
|---|---|---|
| `Fetch.FetchRobust` | main.py:24-52 | If `history` returns rows, that table is returned unchanged after one call. Otherwise a second call is made; `download`'s table is returned if it has rows, else the empty table. The result is empty exactly when neither call produced rows. |
| `Frame.FlattenLabel` | main.py:83 | A tuple label becomes its first component; a plain name stays as it is. |
| `Frame.FlattenColumns` | main.py:81-83 | A two-level header becomes the first level of each label. Column count and order are kept, rows are untouched, and a single-level header is left unchanged. |
| `Frame.FlattenFindsFirstLevel` | main.py:81-85 | After flattening a two-level header, a column `name` exists exactly when some original label has `name` as its first level. So `Close` is found behind `('Close', 'TSLA')`. |
| `Frame.IndexOf` | main.py:90 | Gives the position of the first column with the given label. |
| `Frame.CellOf` | main.py:90 | `df[c]` at row `i` is a cell of row `i`, taken from the first column labelled `c`. |
| `Frame.Table.Empty` | main.py:35-48 | `df.empty` holds exactly when the table has no rows. |
| `Fetch.Succeeded` | main.py:35-48 | An attempt ends the chain exactly when it returned a table with at least one row. |
| `MonthlyLow.MonthOf` | main.py:93 | `dt.to_period('M')` keeps the day's year and month, and the month lies between 1 and 12. |
| `Text.LexLess` | main.py:105 | Python's `str <`, which `sort_values` uses. It never holds between equal strings, and a proper prefix sorts first. |
| `Text.Digits` | main.py:98 | The `%Y`/`%m`/`%d` fields are zero-padded decimal digits of exactly the given width. |
| `Pipeline.Prices` | main.py:73-90 | Each outcome comes with its exact condition. `MissingClose` with the flattened columns is returned exactly when no column is named `Close`. `MissingDate` is returned exactly when `Close` exists but `Date` does not. `DateNotDatetime` is returned exactly when both exist and some `Date` cell is not a day. `CloseNotNumeric` is returned exactly when all `Date` cells are days and some `Close` cell is not a number. Success happens exactly when none of these applies. On success there is one quote per row, and quote `i` is the first `Date` cell and the first `Close` cell of row `i`. |
| `MonthlyLow.MonthlyLows` | main.py:93-94 | The group-by-month minimum: every row's month has an entry no greater than that row's close, and every entry is the close of some row of that month. |
| `MonthlyLow.Annotate` | main.py:93-95 | Keeps every row with its day and close. A row's flag is true exactly when its close is no greater than any close in its month. |
| `MonthlyLow.EveryMonthHasLow` | main.py:93-95 | Every month present has at least one flagged row. |
| `MonthlyLow.LowsOfAMonthAgree` | main.py:95 | Given one flagged row of a month, another row of that month is flagged exactly when it has the same close, so ties are all flagged. |
| `Dates.FormatDate` | main.py:98 | `%Y-%m-%d` is ten characters: dashes at positions 4 and 7, decimal digits elsewhere. |
| `Dates.ParseFormat` | main.py:98 | Reading a formatted date back gives the original calendar day. |
| `Dates.FormatParse` | main.py:98 | Every string that parses as a date is the canonical rendering of that date. |
| `Dates.FormatInjective` | main.py:98 | Distinct days render as distinct strings. |
| `Dates.FormatOrder` | main.py:98 | One rendered date is less than another as a string exactly when its day comes earlier. |
| `Text.DigitsOrder` | main.py:98 | Zero-padded numbers of equal width compare as strings exactly as they compare as numbers. |
| `Text.ValueOfDigits` | main.py:98 | Zero-padded digits read back as the number written. |
| `Text.DigitsOfValue` | main.py:98 | A digit string is the zero-padded rendering of its value. |
| `Text.LexLessTotal` | main.py:105 | Two different strings are ordered one way or the other. |
| `Text.LexLessTransitive` | main.py:105 | String order is transitive. |
| `Text.NotLessTransitive` | main.py:105 | "Not less than" is transitive, which the descending sort relies on. |
| `Text.LexLessConcat` | main.py:105 | For strings that start with blocks of equal width, the first blocks decide unless they are equal. |
| `Display.Round2` | main.py:99 | The rounded close is a whole number of hundredths, within half a hundredth of the close. |
| `Display.BoolText` | main.py:100 | The flag text is `TRUE` or `FALSE`, and it is `TRUE` exactly for a true flag. |
| `Display.Render` | main.py:98-102 | One output row per flagged row. Each date string reads back as its day. Each close is that row's close passed through `Round2`, so it is within half a hundredth. `Is_Low` is `TRUE` exactly for flagged rows. |
| `Display.RoundingDoesNotDecideLow` | main.py:93-99 | Closes 123.454 and 123.451 in one month both display as 123.45, yet only the 123.451 row is `TRUE`. |
| `Sorting.Insert` | main.py:105 | Inserting into a descending sequence keeps it descending and adds exactly that row. |
| `Sorting.SortNewestFirst` | main.py:105 | The result is in descending date-string order and has exactly the same rows. |
| `Pipeline.Process` | main.py:73-105 | Errors from column selection are passed on. On success the rows are in descending date order, are a reordering of the rendered annotated quotes, and number one per fetched row. |
| `Pipeline.Payload` | main.py:115 | The payload is the header `Date, Close, Is_Low` followed by one three-cell row per output row, in order. |
| `Pipeline.SheetRowsOfPayload` | main.py:115 | Reading the payload back as a sheet gives exactly the output rows. |
| `Pipeline.UpdateData` | main.py:64-115 | Makes one provider call when `history` succeeds, else two. When neither call produces rows the run ends with `NoData` and nothing is uploaded. Otherwise the upload is the payload of the chosen table's processing, or its error. A successful upload has the header and at least one data row, so `iloc[0]` is defined. |
| `Pipeline.NewestFirstIsChronological` | main.py:98-105 | Rows whose dates parse and that are in descending string order are newest first in time. |
| `Pipeline.OutputRowIsAnnotatedQuote` | main.py:90-105 | Each output row comes from one fetched row `i`. Its date reads back as the day in row `i`'s `Date` cell, and its close is row `i`'s `Close` cell rounded. It says `TRUE` exactly when that close is its month's low. |
| `Pipeline.OutputIsChronological` | main.py:98-105 | Every output date is a well-formed `YYYY-MM-DD` string, and the output is newest first in time. |
| `Pipeline.OutputFlagsEveryMonth` | main.py:93-105 | Every month present in the fetched data has a `TRUE` row in the output. |
| `Pipeline.MonthLowRendered` | main.py:93-105 | Any reordering of the rendered quotes contains a `TRUE` row for the month of any given quote. |
| `Pipeline.QuoteOfRow` | main.py:93-105 | Each row of any reordering of the rendered quotes is the rendering of one quote. Its date reads back as that quote's day, its close is the quote's close rounded, and its flag text is `TRUE` exactly for a monthly low. |
| `Pipeline.Occurrence` | main.py:105 | Every element of a sequence appears somewhere in any reordering of it. |

## Left out

- Network calls (`get_session` headers, `yf.Ticker(...).history`, `yf.download`) and `time.sleep(2)`. Each call is I/O, so its outcome is an input (`Raised` or `Returned(table)`). The pause is visible only as `attempts == 2`.
- Credential loading (main.py:55-62): the environment variable, `json.loads` and `gspread.service_account_from_dict`. These are external configuration, and the model starts after authentication. The missing-credentials error at main.py:58-59 is therefore not modelled.
- The spreadsheet calls (`gc.open`, `sheet1`, `worksheet.clear`, `worksheet.update`). These are an external service; the model stops at the payload handed to `update`.
- `reset_index` (main.py:74). The model's table is the frame after that call, with `Date` an ordinary column. `df.empty` is therefore read as "no rows". A fetched frame with rows but no columns is not distinguished.
- Timezone stripping (main.py:77-78) and the parsing of text into dates by `pd.to_datetime`. Date cells are already naive calendar days.
- Pipeline.Prices: a `Date` cell that is not a day is reported as `DateNotDatetime`, after the `Close` and `Date` checks. In the code, `pd.to_datetime` at main.py:78 runs first whenever a `Date` column exists, before the `Close` check at main.py:85. It parses such a cell, coerces it, or raises. So both the model's error and the order of errors differ from the code for such cells. For example, with no `Close` column the code may fail at line 78 where the model returns `MissingClose`.
- pandas MultiIndex membership semantics and duplicate column names. `Prices` reads the first `Date` and `Close` columns, whereas pandas would select every column with the name.
- MonthlyLow.Annotate: NaN closes are not modelled. pandas' group minimum skips NaN, and `NaN == min` is false, so a NaN row is never `TRUE`. A month whose closes are all NaN has no `TRUE` row, which `MonthlyLow.EveryMonthHasLow` does not account for.
- Display.Round2: modelled as round-half-to-even on the exact real value, not on binary floating point, so the few inputs where float representation moves a halfway case are not captured.
- Sorting.SortNewestFirst: a stable insertion sort. pandas' default sort is not guaranteed stable, so the order of rows with equal dates is fixed in the model but unspecified in the code. The contract states only descending order and permutation, which every valid order meets.
- The `print` logging, including the column listing printed before the `MissingClose` error (that error carries the columns instead).
