/**
  `merge_with_master_data`: a right join of the roster (the master data)
  with selected columns of the marks table on `Chest No`, re-sorted by
  total. The join follows pandas `merge(how='right')`: every marks row
  yields its matching roster rows, or one row with empty roster cells when
  none matches; a column name both sides share (other than the key) is
  suffixed `_x` on the roster side and `_y` on the marks side.
 */
module Merging {
  import opened Seqs
  import opened Sorting
  import opened Tables
  import opened Scoring

  datatype MergeOutcome =
    | NoChestNo           // "Chest No column not found in one or both files"; the function returns None
    | Failed              // pandas raises: a selected column is missing, the suffixes clash, or there is no `total marks` to sort by
    | Merged(table: Table)

  function NotKey(): string -> bool {
    c => c != CHEST_NO
  }

  /** The selected marks columns other than the key, in their selected order. */
  function MarksSide(selected: seq<string>): seq<string> {
    Filter(selected, NotKey())
  }

  /** The name a roster column gets in the result. */
  function LeftName(c: string, selected: seq<string>): string {
    if c != CHEST_NO && c in selected then c + "_x" else c
  }

  /** The name a non-key marks column gets in the result. */
  function RightName(c: string, masterColumns: seq<string>): string {
    if c in masterColumns then c + "_y" else c
  }

  function LeftNamer(selected: seq<string>): string -> string {
    c => LeftName(c, selected)
  }

  function RightNamer(masterColumns: seq<string>): string -> string {
    c => RightName(c, masterColumns)
  }

  /** The result's columns: the roster's columns in place, then the marks side's. */
  function MergedColumns(masterColumns: seq<string>, selected: seq<string>): seq<string> {
    MapSeq(masterColumns, LeftNamer(selected)) + MapSeq(MarksSide(selected), RightNamer(masterColumns))
  }

  /** The roster-side cells of a result row; the key always comes from the marks row. */
  function LeftValues(masterColumns: seq<string>, m: Option<Row>, k: Row): seq<Cell> {
    MapSeq(masterColumns, c => if c == CHEST_NO then Get(k, CHEST_NO) else if m.Some? then Get(m.value, c) else Missing)
  }

  function RightValues(selected: seq<string>, k: Row): seq<Cell> {
    MapSeq(MarksSide(selected), c => Get(k, c))
  }

  /** One result row: roster row `m` (or none) joined with marks row `k`. */
  function Combine(masterColumns: seq<string>, selected: seq<string>, m: Option<Row>, k: Row): (r: Row)
    ensures r.Keys == ColumnSet(MergedColumns(masterColumns, selected))
  {
    ToRow(MergedColumns(masterColumns, selected), LeftValues(masterColumns, m, k) + RightValues(selected, k))
  }

  function SameChest(x: Cell): Row -> bool {
    m => Get(m, CHEST_NO) == x
  }

  /** The roster rows with the Chest No of marks row `k`. */
  function Matches(masterRows: seq<Row>, k: Row): seq<Row> {
    Filter(masterRows, SameChest(Get(k, CHEST_NO)))
  }

  /** The result rows marks row `k` yields: one per matching roster row, or a single row with empty roster cells. */
  function JoinedFor(masterRows: seq<Row>, masterColumns: seq<string>, selected: seq<string>, k: Row): (r: seq<Row>)
    ensures |r| >= 1
    ensures forall i :: 0 <= i < |r| ==> r[i].Keys == ColumnSet(MergedColumns(masterColumns, selected))
  {
    var ms := Matches(masterRows, k);
    if ms == [] then [Combine(masterColumns, selected, None, k)]
    else seq(|ms|, i requires 0 <= i < |ms| => Combine(masterColumns, selected, Some(ms[i]), k))
  }

  /** The unsorted right join: the rows each marks row yields, in marks order. */
  function JoinAll(masterRows: seq<Row>, masterColumns: seq<string>, selected: seq<string>, marksRows: seq<Row>): (r: seq<Row>)
    ensures |r| >= |marksRows|
    ensures forall i :: 0 <= i < |r| ==> r[i].Keys == ColumnSet(MergedColumns(masterColumns, selected))
  {
    if marksRows == [] then []
    else JoinedFor(masterRows, masterColumns, selected, marksRows[0]) + JoinAll(masterRows, masterColumns, selected, marksRows[1..])
  }

  /**
    `pd.merge(master, marks[selected], on='Chest No', how='right')` followed
    by `sort_values(by='total marks', ascending=False)`.
   */
  function Merge(marks: Table, master: Table, selected: seq<string>): (r: MergeOutcome)
    ensures r.NoChestNo? <==> CHEST_NO !in marks.columns || CHEST_NO !in master.columns
    ensures r.Failed? <==>
              && CHEST_NO in marks.columns && CHEST_NO in master.columns
              && (|| (exists c :: c in selected && c !in marks.columns)
                  || CHEST_NO !in selected
                  || !NoDup(MergedColumns(master.columns, selected))
                  || TOTAL_MARKS !in MergedColumns(master.columns, selected))
    ensures r.Merged? ==>
              && r.table.columns == MergedColumns(master.columns, selected)
              && WellFormed(r.table)
              && multiset(r.table.rows) == multiset(JoinAll(master.rows, master.columns, selected, marks.rows))
              && SortedDesc(r.table.rows, Total)
  {
    if CHEST_NO !in marks.columns || CHEST_NO !in master.columns then NoChestNo
    else if (exists c :: c in selected && c !in marks.columns) || CHEST_NO !in selected then Failed
    else
      var columns := MergedColumns(master.columns, selected);
      if !NoDup(columns) || TOTAL_MARKS !in columns then Failed
      else
        var joined := JoinAll(master.rows, master.columns, selected, marks.rows);
        var rows := SortDesc(joined, Total);
        assert forall i :: 0 <= i < |rows| ==> rows[i].Keys == ColumnSet(columns) by {
          forall i | 0 <= i < |rows|
            ensures rows[i].Keys == ColumnSet(columns)
          {
            PermutationMembers(joined, rows, i);
          }
        }
        Merged(Table(columns, rows))
  }

  /** `row` holds the Chest No of marks row `k` and each of its selected marks columns, under the result's names. */
  ghost predicate Carries(row: Row, k: Row, masterColumns: seq<string>, selected: seq<string>) {
    && Get(row, CHEST_NO) == Get(k, CHEST_NO)
    && forall c :: c in MarksSide(selected) ==> Get(row, RightName(c, masterColumns)) == Get(k, c)
  }

  /** `row` holds the cells of roster row `m` in the roster's non-key columns, or empty cells when there is no `m`. */
  ghost predicate CarriesRoster(row: Row, m: Option<Row>, masterColumns: seq<string>, selected: seq<string>) {
    forall c :: c in masterColumns && c != CHEST_NO ==>
      Get(row, LeftName(c, selected)) == if m.Some? then Get(m.value, c) else Missing
  }

  /** A joined row carries both of the rows it came from. */
  lemma CombineCarries(masterColumns: seq<string>, selected: seq<string>, m: Option<Row>, k: Row)
    requires CHEST_NO in masterColumns && NoDup(MergedColumns(masterColumns, selected))
    ensures Carries(Combine(masterColumns, selected, m, k), k, masterColumns, selected)
    ensures CarriesRoster(Combine(masterColumns, selected, m, k), m, masterColumns, selected)
  {
    CombineCarriesMarks(masterColumns, selected, m, k);
    forall c | c in masterColumns
      ensures Get(Combine(masterColumns, selected, m, k), LeftName(c, selected)) ==
                if c == CHEST_NO then Get(k, CHEST_NO) else if m.Some? then Get(m.value, c) else Missing
    {
      CombineRosterCell(masterColumns, selected, m, k, c);
    }
    assert LeftName(CHEST_NO, selected) == CHEST_NO;
  }

  lemma CombineCarriesMarks(masterColumns: seq<string>, selected: seq<string>, m: Option<Row>, k: Row)
    requires NoDup(MergedColumns(masterColumns, selected))
    ensures forall c :: c in MarksSide(selected) ==>
              Get(Combine(masterColumns, selected, m, k), RightName(c, masterColumns)) == Get(k, c)
  {
    var cols := MergedColumns(masterColumns, selected);
    var vals := LeftValues(masterColumns, m, k) + RightValues(selected, k);
    var n := |masterColumns|;
    var side := MarksSide(selected);
    forall c | c in side
      ensures Get(ToRow(cols, vals), RightName(c, masterColumns)) == Get(k, c)
    {
      var idx :| 0 <= idx < |side| && side[idx] == c;
      assert cols[n + idx] == RightName(c, masterColumns) && vals[n + idx] == Get(k, c);
      ToRowGet(cols, vals, n + idx);
    }
  }

  lemma CombineRosterCell(masterColumns: seq<string>, selected: seq<string>, m: Option<Row>, k: Row, c: string)
    requires NoDup(MergedColumns(masterColumns, selected)) && c in masterColumns
    ensures Get(Combine(masterColumns, selected, m, k), LeftName(c, selected)) ==
              if c == CHEST_NO then Get(k, CHEST_NO) else if m.Some? then Get(m.value, c) else Missing
  {
    var cols := MergedColumns(masterColumns, selected);
    var vals := LeftValues(masterColumns, m, k) + RightValues(selected, k);
    var idx := IndexOf(masterColumns, c);
    assert cols[idx] == LeftName(c, selected) && vals[idx] == LeftValues(masterColumns, m, k)[idx];
    ToRowGet(cols, vals, idx);
  }

  /** The first row marks row `marksRows[i]` yields is in the join. */
  lemma {:induction false} JoinAllHas(masterRows: seq<Row>, masterColumns: seq<string>, selected: seq<string>, marksRows: seq<Row>, i: int)
    requires 0 <= i < |marksRows|
    ensures JoinedFor(masterRows, masterColumns, selected, marksRows[i])[0] in JoinAll(masterRows, masterColumns, selected, marksRows)
  {
    if i > 0 {
      JoinAllHas(masterRows, masterColumns, selected, marksRows[1..], i - 1);
    }
  }

  /** Every row marks row `marksRows[i]` yields is in the join. */
  lemma {:induction false} JoinAllContains(masterRows: seq<Row>, masterColumns: seq<string>, selected: seq<string>, marksRows: seq<Row>, i: int, x: Row)
    requires 0 <= i < |marksRows| && x in JoinedFor(masterRows, masterColumns, selected, marksRows[i])
    ensures x in JoinAll(masterRows, masterColumns, selected, marksRows)
  {
    var head := JoinedFor(masterRows, masterColumns, selected, marksRows[0]);
    var rest := JoinAll(masterRows, masterColumns, selected, marksRows[1..]);
    assert JoinAll(masterRows, masterColumns, selected, marksRows) == head + rest;
    if i > 0 {
      assert marksRows[1..][i - 1] == marksRows[i];
      JoinAllContains(masterRows, masterColumns, selected, marksRows[1..], i - 1, x);
      assert x in rest;
    }
  }

  /** Every row of the join was yielded by some marks row. */
  lemma {:induction false} JoinAllFrom(masterRows: seq<Row>, masterColumns: seq<string>, selected: seq<string>, marksRows: seq<Row>, x: Row)
    requires x in JoinAll(masterRows, masterColumns, selected, marksRows)
    ensures exists i :: 0 <= i < |marksRows| && x in JoinedFor(masterRows, masterColumns, selected, marksRows[i])
  {
    if x !in JoinedFor(masterRows, masterColumns, selected, marksRows[0]) {
      JoinAllFrom(masterRows, masterColumns, selected, marksRows[1..], x);
      var i :| 0 <= i < |marksRows[1..]| && x in JoinedFor(masterRows, masterColumns, selected, marksRows[1..][i]);
      assert marksRows[1..][i] == marksRows[i + 1];
    }
  }

  /** A row marks row `k` yields joins `k` with a roster row of the same Chest No, or with none when the roster has no such row. */
  lemma JoinedForShape(masterRows: seq<Row>, masterColumns: seq<string>, selected: seq<string>, k: Row, x: Row)
    requires x in JoinedFor(masterRows, masterColumns, selected, k)
    ensures || (exists m :: m in masterRows && Get(m, CHEST_NO) == Get(k, CHEST_NO) && x == Combine(masterColumns, selected, Some(m), k))
            || ((forall m :: m in masterRows ==> Get(m, CHEST_NO) != Get(k, CHEST_NO)) && x == Combine(masterColumns, selected, None, k))
  {
    var p := SameChest(Get(k, CHEST_NO));
    var ms := Matches(masterRows, k);
    if ms == [] {
      forall m | m in masterRows
        ensures Get(m, CHEST_NO) != Get(k, CHEST_NO)
      {
        var j :| 0 <= j < |masterRows| && masterRows[j] == m;
        if p(m) {
          FilterKeeps(masterRows, p, j);
        }
      }
    } else {
      var i :| 0 <= i < |ms| && x == Combine(masterColumns, selected, Some(ms[i]), k);
      FilterMember(masterRows, p, i);
    }
  }

  /** When no two roster rows share a Chest No every marks row yields exactly one row. */
  lemma {:induction false} JoinAllLength(masterRows: seq<Row>, masterColumns: seq<string>, selected: seq<string>, marksRows: seq<Row>)
    requires forall a, b :: 0 <= a < b < |masterRows| ==> Get(masterRows[a], CHEST_NO) != Get(masterRows[b], CHEST_NO)
    ensures |JoinAll(masterRows, masterColumns, selected, marksRows)| == |marksRows|
  {
    if marksRows != [] {
      FilterAtMostOne(masterRows, SameChest(Get(marksRows[0], CHEST_NO)));
      JoinAllLength(masterRows, masterColumns, selected, marksRows[1..]);
    }
  }

  /** Right join: every marks row appears in the merged table with its Chest No and its selected marks. */
  lemma MergeKeepsMarksRows(marks: Table, master: Table, selected: seq<string>, i: int)
    requires Merge(marks, master, selected).Merged? && 0 <= i < |marks.rows|
    ensures var rows := Merge(marks, master, selected).table.rows;
            exists j :: 0 <= j < |rows| && Carries(rows[j], marks.rows[i], master.columns, selected)
  {
    var rows := Merge(marks, master, selected).table.rows;
    var joined := JoinAll(master.rows, master.columns, selected, marks.rows);
    var x := JoinedFor(master.rows, master.columns, selected, marks.rows[i])[0];
    JoinAllHas(master.rows, master.columns, selected, marks.rows, i);
    JoinedForShape(master.rows, master.columns, selected, marks.rows[i], x);
    var m: Option<Row> :| x == Combine(master.columns, selected, m, marks.rows[i]);
    CombineCarries(master.columns, selected, m, marks.rows[i]);
    assert x in multiset(joined);
    var j :| 0 <= j < |rows| && rows[j] == x;
  }

  /**
    Right join, roster side: every roster row with the Chest No of a marks
    row is joined with it in a row of its own.
   */
  lemma MergeKeepsPairs(marks: Table, master: Table, selected: seq<string>, i: int, m: Row)
    requires Merge(marks, master, selected).Merged? && 0 <= i < |marks.rows|
    requires m in master.rows && Get(m, CHEST_NO) == Get(marks.rows[i], CHEST_NO)
    ensures Combine(master.columns, selected, Some(m), marks.rows[i]) in Merge(marks, master, selected).table.rows
  {
    var k := marks.rows[i];
    var rows := Merge(marks, master, selected).table.rows;
    var joined := JoinAll(master.rows, master.columns, selected, marks.rows);
    var ms := Matches(master.rows, k);
    var x := Combine(master.columns, selected, Some(m), k);
    var h :| 0 <= h < |master.rows| && master.rows[h] == m;
    FilterKeeps(master.rows, SameChest(Get(k, CHEST_NO)), h);
    var g :| 0 <= g < |ms| && ms[g] == m;
    assert JoinedFor(master.rows, master.columns, selected, k)[g] == x;
    JoinAllContains(master.rows, master.columns, selected, marks.rows, i, x);
    assert x in multiset(joined);
    assert x in multiset(rows);
  }

  /**
    `row` joins marks row `k` with the roster: it carries `k`, and the cells
    of a roster row with the same Chest No, or empty roster cells when the
    roster has no such row.
   */
  ghost predicate JoinsMarksRow(row: Row, k: Row, master: Table, selected: seq<string>) {
    && Carries(row, k, master.columns, selected)
    && (|| (exists m :: m in master.rows && Get(m, CHEST_NO) == Get(k, CHEST_NO) &&
                        CarriesRoster(row, Some(m), master.columns, selected))
        || ((forall m :: m in master.rows ==> Get(m, CHEST_NO) != Get(k, CHEST_NO)) &&
            CarriesRoster(row, None, master.columns, selected)))
  }

  /** Every row of the unsorted join joins some marks row with the roster. */
  lemma JoinAllOrigin(marks: Table, master: Table, selected: seq<string>, x: Row)
    requires CHEST_NO in master.columns && NoDup(MergedColumns(master.columns, selected))
    requires x in JoinAll(master.rows, master.columns, selected, marks.rows)
    ensures exists i :: 0 <= i < |marks.rows| && JoinsMarksRow(x, marks.rows[i], master, selected)
  {
    JoinAllFrom(master.rows, master.columns, selected, marks.rows, x);
    var i :| 0 <= i < |marks.rows| && x in JoinedFor(master.rows, master.columns, selected, marks.rows[i]);
    var k := marks.rows[i];
    JoinedForShape(master.rows, master.columns, selected, k, x);
    if exists m :: m in master.rows && Get(m, CHEST_NO) == Get(k, CHEST_NO) && x == Combine(master.columns, selected, Some(m), k) {
      var m :| m in master.rows && Get(m, CHEST_NO) == Get(k, CHEST_NO) && x == Combine(master.columns, selected, Some(m), k);
      CombineCarries(master.columns, selected, Some(m), k);
    } else {
      CombineCarries(master.columns, selected, None, k);
    }
    assert JoinsMarksRow(x, k, master, selected);
  }

  /** Every merged row joins some marks row with the roster: the join adds no row of its own. */
  lemma MergeRowOrigin(marks: Table, master: Table, selected: seq<string>, j: int)
    requires Merge(marks, master, selected).Merged?
    requires 0 <= j < |Merge(marks, master, selected).table.rows|
    ensures exists i :: 0 <= i < |marks.rows| &&
              JoinsMarksRow(Merge(marks, master, selected).table.rows[j], marks.rows[i], master, selected)
  {
    var rows := Merge(marks, master, selected).table.rows;
    var joined := JoinAll(master.rows, master.columns, selected, marks.rows);
    assert rows[j] in multiset(rows);
    JoinAllOrigin(marks, master, selected, rows[j]);
  }

  /** When the roster's Chest Nos are distinct, the merged table has exactly one row per marks row. */
  lemma MergeOneToOne(marks: Table, master: Table, selected: seq<string>)
    requires Merge(marks, master, selected).Merged?
    requires forall a, b :: 0 <= a < b < |master.rows| ==> Get(master.rows[a], CHEST_NO) != Get(master.rows[b], CHEST_NO)
    ensures |Merge(marks, master, selected).table.rows| == |marks.rows|
  {
    var joined := JoinAll(master.rows, master.columns, selected, marks.rows);
    JoinAllLength(master.rows, master.columns, selected, marks.rows);
    PermutationMembers(joined, Merge(marks, master, selected).table.rows, 0);
  }

  /** When the roster shares no column with the marks side but the key, no name is suffixed and all names stay distinct. */
  lemma MergedColumnsDisjoint(masterColumns: seq<string>, selected: seq<string>)
    requires NoDup(masterColumns) && NoDup(selected)
    requires forall c :: c in masterColumns && c != CHEST_NO ==> c !in selected
    ensures MergedColumns(masterColumns, selected) == masterColumns + MarksSide(selected)
    ensures NoDup(MergedColumns(masterColumns, selected))
  {
    var side := MarksSide(selected);
    forall k | 0 <= k < |side|
      ensures side[k] in selected && side[k] != CHEST_NO && side[k] !in masterColumns
    {
      FilterMember(selected, NotKey(), k);
    }
    assert MapSeq(masterColumns, LeftNamer(selected)) == masterColumns;
    assert MapSeq(side, RightNamer(masterColumns)) == side;
    FilterNoDup(selected, NotKey());
    var cols := masterColumns + side;
    forall i, j | 0 <= i < j < |cols|
      ensures cols[i] != cols[j]
    {
      var n := |masterColumns|;
      if j >= n && i < n {
        assert cols[i] in masterColumns && cols[j] == side[j - n];
      }
    }
  }

  /**
    Marks that have every selected column, including `Chest No` and `total
    marks`, merge with a roster that has `Chest No` and shares no other
    column with them.
   */
  lemma MergeSucceeds(marks: Table, master: Table, selected: seq<string>)
    requires NoDup(selected) && CHEST_NO in selected && TOTAL_MARKS in selected
    requires forall c :: c in selected ==> c in marks.columns
    requires CHEST_NO in master.columns && NoDup(master.columns)
    requires forall c :: c in master.columns && c != CHEST_NO ==> c !in selected
    ensures Merge(marks, master, selected).Merged?
  {
    MergedColumnsDisjoint(master.columns, selected);
    var k := IndexOf(selected, TOTAL_MARKS);
    FilterKeeps(selected, NotKey(), k);
  }

  /** The position of the first occurrence of `x` in `s`. */
  function IndexOf(s: seq<string>, x: string): (i: nat)
    requires x in s
    ensures i < |s| && s[i] == x
  {
    if s[0] == x then 0 else 1 + IndexOf(s[1..], x)
  }
}
