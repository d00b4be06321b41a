/**
  The in-memory table (a pandas DataFrame) that all three scripts work on:
  named columns and rows that map column names to cells. A `Frame` is a
  table whose columns the scripts assign in place; a `Table` is the same
  data as a value.
 */
module Tables {
  import opened Seqs

  datatype Option<T> = None | Some(value: T)

  /** A spreadsheet cell: empty (NaN), a number, or text. */
  datatype Cell = Missing | Num(n: real) | Text(s: string)

  type Row = map<string, Cell>

  datatype Table = Table(columns: seq<string>, rows: seq<Row>)

  /** The cell of `r` in column `col`; a column the row lacks reads as NaN. */
  function Get(r: Row, col: string): Cell {
    if col in r then r[col] else Missing
  }

  /** The number a numeric cell holds, with NaN read as 0 (`fillna(0)`). */
  function NumOrZero(c: Cell): real {
    if c.Num? then c.n else 0.0
  }

  /** A cell of a numeric column: a number or NaN. */
  predicate IsNumeric(c: Cell) {
    c.Missing? || c.Num?
  }

  /** Every cell of column `col` is a number or NaN. */
  predicate NumericColumn(rows: seq<Row>, col: string) {
    forall i :: 0 <= i < |rows| ==> IsNumeric(Get(rows[i], col))
  }

  /** The cells of column `col`, top to bottom (`df[col]`). */
  function Column(rows: seq<Row>, col: string): seq<Cell> {
    seq(|rows|, i requires 0 <= i < |rows| => Get(rows[i], col))
  }

  function ColumnSet(columns: seq<string>): set<string> {
    set c | c in columns
  }

  /** A frame as pandas keeps it: distinct column names, and every row has exactly those columns. */
  ghost predicate WellFormed(t: Table) {
    && NoDup(t.columns)
    && forall i :: 0 <= i < |t.rows| ==> t.rows[i].Keys == ColumnSet(t.columns)
  }

  /** The column list after `df[name] = ...`: an existing column keeps its place, a new one goes last. */
  function WithColumn(columns: seq<string>, name: string): (r: seq<string>)
    ensures name in r
    ensures NoDup(columns) ==> NoDup(r)
  {
    if name in columns then columns else columns + [name]
  }

  /** A column holding `v` in all `n` rows (`df[name] = v` with a scalar). */
  function Constant(v: Cell, n: nat): (r: seq<Cell>)
    ensures |r| == n && forall i :: 0 <= i < n ==> r[i] == v
  {
    seq(n, _ => v)
  }

  /** The names in `required` that `columns` lacks, in the order of `required`. */
  function MissingColumns(required: seq<string>, columns: seq<string>): (r: seq<string>)
    ensures forall c :: c in r <==> c in required && c !in columns
    ensures NoDup(required) ==> NoDup(r)
  {
    if required == [] then []
    else
      var rest := MissingColumns(required[1..], columns);
      assert NoDup(required) ==> NoDup(required[1..]) && required[0] !in required[1..] by {
        if NoDup(required) {
          forall i, j | 0 <= i < j < |required[1..]|
            ensures required[1..][i] != required[1..][j]
          {
            assert required[1..][i] == required[i + 1] && required[1..][j] == required[j + 1];
          }
          forall k | 0 <= k < |required[1..]|
            ensures required[1..][k] != required[0]
          {
            assert required[1..][k] == required[k + 1];
          }
        }
      }
      assert forall c :: c in required <==> c == required[0] || c in required[1..] by {
        assert required == [required[0]] + required[1..];
      }
      if required[0] in columns then rest else [required[0]] + rest
  }

  /** The row with cell `vals[i]` in column `cols[i]`; a later column of the same name would win. */
  function ToRow(cols: seq<string>, vals: seq<Cell>): (r: Row)
    requires |cols| == |vals|
    ensures r.Keys == ColumnSet(cols)
  {
    if cols == [] then map[]
    else ToRow(cols[..|cols| - 1], vals[..|vals| - 1])[cols[|cols| - 1] := vals[|vals| - 1]]
  }

  /** With distinct column names every column reads back its own value. */
  lemma {:induction false} ToRowGet(cols: seq<string>, vals: seq<Cell>, k: int)
    requires |cols| == |vals| && NoDup(cols) && 0 <= k < |cols|
    ensures Get(ToRow(cols, vals), cols[k]) == vals[k]
  {
    var n := |cols| - 1;
    if k < n {
      var front, fvals := cols[..n], vals[..n];
      NoDupPrefix(cols, n);
      assert ToRow(cols, vals) == ToRow(front, fvals)[cols[n] := vals[n]];
      assert cols[k] != cols[n];
      ToRowGet(front, fvals, k);
      assert front[k] == cols[k] && fvals[k] == vals[k];
    }
  }

  /**
    `rows` hold the cells of `rows0` in the columns `columns0`, and NaN in
    every other column.
   */
  ghost predicate PaddedWithNaN(rows: seq<Row>, rows0: seq<Row>, columns0: seq<string>) {
    && |rows| == |rows0|
    && forall i, c :: 0 <= i < |rows| ==>
         Get(rows[i], c) == if c in columns0 then Get(rows0[i], c) else Missing
  }

  /** In a well-formed table a column the table lacks reads as NaN in every row. */
  lemma WellFormedPadded(t: Table)
    requires WellFormed(t)
    ensures PaddedWithNaN(t.rows, t.rows, t.columns)
  {
    forall i, c | 0 <= i < |t.rows| && c !in t.columns
      ensures Get(t.rows[i], c) == Missing
    {
      assert c !in ColumnSet(t.columns);
    }
  }

  /** One step of the fill loop: a new all-NaN column leaves every other cell as it was. */
  lemma NaNColumnKeepsOthers(rows0: seq<Row>, before: seq<Row>, after: seq<Row>, columns0: seq<string>, name: string)
    requires |after| == |before| && name !in columns0
    requires forall i :: 0 <= i < |after| ==> after[i] == before[i][name := Missing]
    requires PaddedWithNaN(before, rows0, columns0)
    ensures PaddedWithNaN(after, rows0, columns0)
  {
    forall i, c | 0 <= i < |after|
      ensures Get(after[i], c) == if c in columns0 then Get(rows0[i], c) else Missing
    {
      if c != name {
        assert Get(after[i], c) == Get(before[i], c);
      }
    }
  }

  /** A DataFrame whose columns are assigned in place. */
  class Frame {
    var columns: seq<string>
    var rows: seq<Row>

    ghost predicate Valid()
      reads this
    {
      WellFormed(Table(columns, rows))
    }

    /** The frame's current contents as a value. */
    function View(): (t: Table)
      reads this
      ensures t.columns == columns && t.rows == rows
    {
      Table(columns, rows)
    }

    constructor (t: Table)
      ensures columns == t.columns && rows == t.rows
    {
      columns := t.columns;
      rows := t.rows;
    }

    /** `df[name] = values`: sets column `name` of every row, adding the column if it is new. */
    method SetColumn(name: string, values: seq<Cell>)
      requires |values| == |rows|
      modifies this
      ensures columns == WithColumn(old(columns), name)
      ensures |rows| == |old(rows)|
      ensures forall i :: 0 <= i < |rows| ==> rows[i] == old(rows[i])[name := values[i]]
      ensures old(Valid()) ==> Valid()
    {
      var current := rows;
      columns := WithColumn(columns, name);
      rows := seq(|current|, i requires 0 <= i < |current| => current[i][name := values[i]]);
    }

    /** `df.loc[df[keyCol].isin(keys), name] = v`: sets the existing column `name` to `v` in the rows whose `keyCol` cell is one of `keys`. */
    method SetWhere(name: string, keyCol: string, keys: seq<Cell>, v: Cell)
      requires name in columns
      modifies this
      ensures columns == old(columns)
      ensures |rows| == |old(rows)|
      ensures forall i :: 0 <= i < |rows| ==>
                rows[i] == if Get(old(rows[i]), keyCol) in keys then old(rows[i])[name := v] else old(rows[i])
      ensures old(Valid()) ==> Valid()
    {
      var current := rows;
      rows := seq(|current|, i requires 0 <= i < |current| =>
                if Get(current[i], keyCol) in keys then current[i][name := v] else current[i]);
    }

    /**
      The loop that adds every required column the frame lacks, filled with
      NaN; cells of the columns already there keep their values.
     */
    method AddMissingColumns(required: seq<string>)
      requires Valid() && NoDup(required)
      modifies this
      ensures Valid()
      ensures columns == old(columns) + MissingColumns(required, old(columns))
      ensures forall c :: c in required ==> c in columns
      ensures PaddedWithNaN(rows, old(rows), old(columns))
    {
      var missing := MissingColumns(required, columns);
      ghost var columns0, rows0 := columns, rows;
      WellFormedPadded(View());
      for k := 0 to |missing|
        invariant Valid()
        invariant columns == columns0 + missing[..k]
        invariant PaddedWithNaN(rows, rows0, columns0)
      {
        assert missing[k] !in columns0 + missing[..k] by {
          assert missing[k] !in columns0;
          assert forall j :: 0 <= j < k ==> missing[..k][j] == missing[j];
        }
        ghost var before := rows;
        SetColumn(missing[k], Constant(Missing, |rows|));
        assert columns == columns0 + missing[..k] + [missing[k]];
        assert missing[..k + 1] == missing[..k] + [missing[k]];
        NaNColumnKeepsOthers(rows0, before, rows, columns0, missing[k]);
      }
      assert missing[..|missing|] == missing;
    }
  }
}
