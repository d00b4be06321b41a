/**
  Totals and competition ranks, the part of `calculate_total_and_rank`
  that talentfinder.py and talentfinderX.py share, with the column names
  both scripts use.
 */
module Scoring {
  import opened Seqs
  import opened Sorting
  import opened Tables

  const CHEST_NO := "Chest No"
  const MARK1 := "mark1"
  const MARK2 := "mark2"
  const MARK3 := "mark3"
  const TOTAL_MARKS := "total marks"
  const RANK := "Rank"

  /** The frame has the three mark columns and each holds numbers or NaN, as the data editor's number columns do. */
  predicate MarksReady(t: Table) {
    && MARK1 in t.columns && MARK2 in t.columns && MARK3 in t.columns
    && NumericColumn(t.rows, MARK1) && NumericColumn(t.rows, MARK2) && NumericColumn(t.rows, MARK3)
  }

  /** `mark1.fillna(0) + mark2.fillna(0) + mark3.fillna(0)` for one row. */
  function MarkSum(r: Row): real {
    NumOrZero(Get(r, MARK1)) + NumOrZero(Get(r, MARK2)) + NumOrZero(Get(r, MARK3))
  }

  /** The `total marks` cell computed for one row. */
  function TotalCell(r: Row): Cell {
    Num(MarkSum(r))
  }

  /** The row's `total marks`, read as a number. */
  function Total(r: Row): real {
    NumOrZero(Get(r, TOTAL_MARKS))
  }

  /** The row after `df['total marks'] = ...`. */
  function WithTotal(r: Row): Row {
    r[TOTAL_MARKS := TotalCell(r)]
  }

  /** The row's `total marks` cell holds the sum of its three marks, a missing mark counting as 0. */
  ghost predicate TotalIsMarkSum(r: Row) {
    Get(r, TOTAL_MARKS) == Num(MarkSum(r))
  }

  /** A freshly computed total is the sum of the row's marks. */
  lemma WithTotalIsMarkSum(r: Row)
    ensures TotalIsMarkSum(WithTotal(r))
  {
    assert MARK1 != TOTAL_MARKS && MARK2 != TOTAL_MARKS && MARK3 != TOTAL_MARKS;
  }

  /** Writing a column other than the marks and the total leaves the total, and its agreement with the marks, as it was. */
  lemma OtherColumnKeepsTotal(r: Row, name: string, c: Cell)
    requires name != MARK1 && name != MARK2 && name != MARK3 && name != TOTAL_MARKS
    ensures Total(r[name := c]) == Total(r) && MarkSum(r[name := c]) == MarkSum(r)
    ensures TotalIsMarkSum(r) ==> TotalIsMarkSum(r[name := c])
  {
  }

  function Above(t: real): Row -> bool {
    r => Total(r) > t
  }

  /** The number of rows whose total is strictly greater than `t`. */
  function CountAbove(rows: seq<Row>, t: real): nat {
    |Filter(rows, Above(t))|
  }

  /** `rank(method='min', ascending=False)` of the total `t` among `rows`. */
  function Rank(rows: seq<Row>, t: real): nat {
    1 + CountAbove(rows, t)
  }

  /** The `Rank` column of `rows`, as the floats pandas produces. */
  function RankColumn(rows: seq<Row>): seq<Cell> {
    seq(|rows|, i requires 0 <= i < |rows| => Num(Rank(rows, Total(rows[i])) as real))
  }

  /** `df.sort_values(by='total marks', ascending=False)`: a new frame, the caller's frame untouched. */
  method SortByTotal(df: Frame) returns (sorted: Frame)
    requires df.Valid()
    ensures fresh(sorted) && sorted.Valid()
    ensures sorted.columns == df.columns
    ensures multiset(sorted.rows) == multiset(df.rows)
    ensures SortedDesc(sorted.rows, Total)
  {
    var rows := SortDesc(df.rows, Total);
    forall i | 0 <= i < |rows|
      ensures rows[i].Keys == ColumnSet(df.columns)
    {
      PermutationMembers(df.rows, rows, i);
    }
    sorted := new Frame(Table(df.columns, rows));
  }

  /**
    A rank lies between 1 and the number of rows; equal totals share a rank,
    and a strictly greater total has a strictly smaller rank.
   */
  lemma RankBounds(rows: seq<Row>, i: int, j: int)
    requires 0 <= i < |rows| && 0 <= j < |rows|
    ensures 1 <= Rank(rows, Total(rows[i])) <= |rows|
    ensures Total(rows[i]) == Total(rows[j]) ==> Rank(rows, Total(rows[i])) == Rank(rows, Total(rows[j]))
    ensures Total(rows[i]) > Total(rows[j]) ==> Rank(rows, Total(rows[i])) < Rank(rows, Total(rows[j]))
  {
    FilterSkips(rows, Above(Total(rows[i])), i);
    if Total(rows[i]) > Total(rows[j]) {
      FilterWeaker(rows, Above(Total(rows[i])), Above(Total(rows[j])), i);
    }
  }

  /** Ranks depend only on the multiset of totals, not on row order. */
  lemma RankPermutation(a: seq<Row>, b: seq<Row>, t: real)
    requires multiset(a) == multiset(b)
    ensures Rank(a, t) == Rank(b, t)
  {
    FilterPermutation(a, b, Above(t));
  }

  /** Ranks depend only on the totals: changing other columns of the rows leaves every rank as it was. */
  lemma {:induction false} RankSameTotals(a: seq<Row>, b: seq<Row>, t: real)
    requires |a| == |b| && forall i :: 0 <= i < |a| ==> Total(a[i]) == Total(b[i])
    ensures Rank(a, t) == Rank(b, t)
  {
    if a != [] {
      assert forall i :: 0 <= i < |a[1..]| ==> Total(a[1..][i]) == Total(b[1..][i]) by {
        forall i | 0 <= i < |a[1..]|
          ensures Total(a[1..][i]) == Total(b[1..][i])
        {
          assert a[1..][i] == a[i + 1] && b[1..][i] == b[i + 1];
        }
      }
      RankSameTotals(a[1..], b[1..], t);
      assert Total(a[0]) == Total(b[0]);
    }
  }

  /**
    In a table sorted by total, a row's rank is at most its position plus
    one, and exactly that for the first row of each group of equal totals:
    competition ranking, where a tie leaves a gap after it.
   */
  lemma RankInSortedTable(rows: seq<Row>, i: int)
    requires SortedDesc(rows, Total) && 0 <= i < |rows|
    ensures Rank(rows, Total(rows[i])) <= i + 1
    ensures i == 0 || Total(rows[i - 1]) > Total(rows[i]) ==> Rank(rows, Total(rows[i])) == i + 1
  {
    var p := Above(Total(rows[i]));
    assert rows == rows[..i] + rows[i..];
    FilterConcat(rows[..i], rows[i..], p);
    forall k | 0 <= k < |rows[i..]|
      ensures !p(rows[i..][k])
    {
      assert rows[i..][k] == rows[i + k];
    }
    FilterNone(rows[i..], p);
    if i == 0 || Total(rows[i - 1]) > Total(rows[i]) {
      forall k | 0 <= k < |rows[..i]|
        ensures p(rows[..i][k])
      {
        assert rows[..i][k] == rows[k];
        assert Total(rows[k]) >= Total(rows[i - 1]);
      }
      FilterAll(rows[..i], p);
    }
  }

  /** A row whose total no other row exceeds is ranked first. */
  lemma TopTotalRanksFirst(rows: seq<Row>, i: int)
    requires 0 <= i < |rows|
    requires forall j :: 0 <= j < |rows| ==> Total(rows[j]) <= Total(rows[i])
    ensures Rank(rows, Total(rows[i])) == 1
  {
    FilterNone(rows, Above(Total(rows[i])));
  }

  /**
    When two rows share rank 1 no row is ranked 2: the next rank after a
    shared first place is at least 3.
   */
  lemma SharedFirstSkipsSecond(rows: seq<Row>, i1: int, i2: int, j: int)
    requires 0 <= i1 < |rows| && 0 <= i2 < |rows| && 0 <= j < |rows| && i1 != i2
    requires Rank(rows, Total(rows[i1])) == 1 && Rank(rows, Total(rows[i2])) == 1
    ensures Rank(rows, Total(rows[j])) != 2
  {
    RankBounds(rows, i1, i2);
    RankBounds(rows, i2, i1);
    RankBounds(rows, j, i1);
    if Total(rows[j]) < Total(rows[i1]) {
      FilterTwo(rows, Above(Total(rows[j])), i1, i2);
    }
  }
}
