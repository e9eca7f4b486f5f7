/**
 * The fallback fetch of main.py:24-52. The two provider calls
 * (`Ticker.history` and `download`) are network I/O; the model takes what
 * each call would do as an input: raise, or return a table (possibly empty).
 */
module Fetch {
  import opened Frame

  /** The outcome of one provider call. */
  datatype Attempt = Raised | Returned(table: Table)

  /** An attempt that ends the chain: it returned a table with rows. */
  predicate Succeeded(a: Attempt)
    ensures Succeeded(a) <==> a.Returned? && a.table.rows != []
  {
    a.Returned? && !a.table.Empty()
  }

  /** `fetch_data_robust`: try `history` first and return its table if it has
      rows; otherwise (it raised or came back empty) wait and try
      `download`, and return its table if it has rows; otherwise return an
      empty table. `attempts` counts the provider calls made, so
      `attempts == 2` is exactly when the two-second pause happens. */
  method FetchRobust(history: Attempt, download: Attempt) returns (df: Table, attempts: nat)
    ensures Succeeded(history) ==> df == history.table && attempts == 1
    ensures !Succeeded(history) ==> attempts == 2
    ensures !Succeeded(history) && Succeeded(download) ==> df == download.table
    ensures !Succeeded(history) && !Succeeded(download) ==> df == EmptyTable
    ensures df.Empty() <==> !Succeeded(history) && !Succeeded(download)
  {
    attempts := 1;
    if history.Returned? {
      df := history.table;
      if !df.Empty() {
        return;
      }
    }
    attempts := 2;
    if download.Returned? {
      df := download.table;
      if !df.Empty() {
        return;
      }
    }
    df := EmptyTable;
  }
}
