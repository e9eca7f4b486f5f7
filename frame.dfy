/**
 * The price table a fetch returns, as it stands after `reset_index`
 * (main.py:74): the trading day is an ordinary column named `Date`.
 * Column labels are plain names or, when the provider answers with a
 * two-level header, tuples such as `('Close', 'TSLA')`.
 */
module Frame {
  import opened Dates

  /** A column label: a plain name, or a tuple of names (never empty). */
  datatype Label = Name(name: string) | Tuple(head: string, rest: seq<string>)

  /** One cell of the table: a naive calendar day, a float price, or text. */
  datatype Cell = Day(date: CalendarDate) | Num(value: real) | Text(text: string)

  /** `columns` are the labels in order; `multiLevel` says whether they form a
      two-level header (a pandas MultiIndex); each row holds one cell per
      column. */
  datatype Table = Table(columns: seq<Label>, multiLevel: bool, rows: seq<seq<Cell>>) {

    /** What pandas guarantees of every frame: rows are as wide as the header,
        and a multi-level header holds only tuples. */
    predicate WellFormed() {
      && (forall r :: r in rows ==> |r| == |columns|)
      && (multiLevel ==> forall c :: c in columns ==> c.Tuple?)
    }

    /** `df.empty`: there is nothing to process. */
    predicate Empty()
      ensures Empty() <==> rows == []
    {
      |rows| == 0
    }
  }

  /** `pd.DataFrame()`, the result when every fetch attempt failed. */
  const EmptyTable := Table([], false, [])

  /** The first level of a label, the whole label's name when it is plain. */
  function FirstLevel(c: Label): string {
    match c
    case Name(n) => n
    case Tuple(h, _) => h
  }

  /** `c[0] if isinstance(c, tuple) else c`. */
  function FlattenLabel(c: Label): (r: Label)
    ensures r.Name? && r.name == FirstLevel(c)
  {
    match c
    case Name(_) => c
    case Tuple(h, _) => Name(h)
  }

  /** main.py:81-83: a two-level header is replaced by its first level; a
      single-level header is left as it is. The rows do not move. */
  function FlattenColumns(t: Table): (r: Table)
    requires t.WellFormed()
    ensures r.WellFormed() && !r.multiLevel && r.rows == t.rows
    ensures |r.columns| == |t.columns|
    ensures t.multiLevel ==> forall i :: 0 <= i < |t.columns| ==>
              r.columns[i] == Name(FirstLevel(t.columns[i]))
    ensures !t.multiLevel ==> r.columns == t.columns
  {
    if t.multiLevel then
      Table(seq(|t.columns|, i requires 0 <= i < |t.columns| => FlattenLabel(t.columns[i])), false, t.rows)
    else
      t
  }

  /** After flattening a two-level header, a column is called `name` exactly
      when some original column has `name` as its first level, so `Close`
      is found behind `('Close', 'TSLA')`. */
  lemma FlattenFindsFirstLevel(t: Table, name: string)
    requires t.WellFormed() && t.multiLevel
    ensures Name(name) in FlattenColumns(t).columns <==>
            exists i :: 0 <= i < |t.columns| && FirstLevel(t.columns[i]) == name
  {
    var r := FlattenColumns(t);
    if Name(name) in r.columns {
      var i :| 0 <= i < |r.columns| && r.columns[i] == Name(name);
      assert t.columns[i] in t.columns;
      assert FirstLevel(t.columns[i]) == name;
    }
    if exists i :: 0 <= i < |t.columns| && FirstLevel(t.columns[i]) == name {
      var i :| 0 <= i < |t.columns| && FirstLevel(t.columns[i]) == name;
      assert t.columns[i] in t.columns;
      assert r.columns[i] == Name(name);
    }
  }

  /** The position of the first column labelled `c`. */
  function IndexOf(cols: seq<Label>, c: Label): (i: nat)
    requires c in cols
    ensures i < |cols| && cols[i] == c
    ensures forall j :: 0 <= j < i ==> cols[j] != c
  {
    if cols[0] == c then 0 else 1 + IndexOf(cols[1..], c)
  }

  /** `df[c]` at row `i`: the cell of row `i` under the first column
      labelled `c`. */
  function CellOf(t: Table, i: nat, c: Label): (cell: Cell)
    requires t.WellFormed() && c in t.columns && i < |t.rows|
    ensures cell in t.rows[i]
  {
    assert t.rows[i] in t.rows;
    t.rows[i][IndexOf(t.columns, c)]
  }
}
