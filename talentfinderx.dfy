/**
  The event results calculator with points and ties (talentfinderX.py):
  totals and ranks as in talentfinder.py, configurable points for the first
  three ranks, the tie dictionary and the `Tie Status` flag, the right join
  with the roster, the fill of missing required columns and the download
  step of `main`.
 */
module TalentFinderX {
  import opened Seqs
  import opened Sorting
  import opened Tables
  import opened Scoring
  import opened Merging
  import opened Ties
  import TalentFinder

  const POINTS := "Points"
  const TIE_STATUS := "Tie Status"

  /** The columns the marks table must have; the fill loop adds those it lacks. */
  const REQUIRED_COLUMNS: seq<string> := [CHEST_NO, MARK1, MARK2, MARK3, TOTAL_MARKS, RANK, POINTS, TIE_STATUS]

  /** The marks-side columns the merge takes. */
  const MERGE_COLUMNS: seq<string> := [CHEST_NO, MARK1, MARK2, MARK3, TOTAL_MARKS, RANK, POINTS, TIE_STATUS]

  lemma RequiredColumnsDistinct()
    ensures NoDup(REQUIRED_COLUMNS) && NoDup(MERGE_COLUMNS)
  {
  }

  /** The "Points Configuration" inputs: whole numbers, at least 0. */
  datatype PointValues = PointValues(first: nat, second: nat, third: nat)

  /** The points a rank earns: the configured value for ranks 1 to 3, nothing for any other rank. */
  function PointsFor(rank: nat, pv: PointValues): nat {
    if rank == 1 then pv.first
    else if rank == 2 then pv.second
    else if rank == 3 then pv.third
    else 0
  }

  /**
    The points `df.loc[df['Rank'] == k, 'Points']` leaves for a row whose
    `Rank` cell is `c`: the configured value when the cell is 1, 2 or 3,
    and the initial 0 for any other cell, NaN included.
   */
  function PointsForCell(c: Cell, pv: PointValues): nat {
    if c == Num(1.0) then pv.first
    else if c == Num(2.0) then pv.second
    else if c == Num(3.0) then pv.third
    else 0
  }

  /** A `Rank` cell holding a whole rank earns that rank's points; a cell that is not rank 1, 2 or 3 earns nothing. */
  lemma PointsForRankCell(c: Cell, pv: PointValues)
    ensures forall rank: nat :: c == Num(rank as real) ==> PointsForCell(c, pv) == PointsFor(rank, pv)
    ensures c != Num(1.0) && c != Num(2.0) && c != Num(3.0) ==> PointsForCell(c, pv) == 0
  {
  }

  /** The `Tie Status` cell of a row with Chest No `c`. */
  function TieCell(groups: seq<TieGroup>, c: Cell): Cell {
    if InSomeGroup(groups, c) then Text("Tied") else Text("")
  }

  /** A sorted row with its rank and the points for that rank. */
  function Pointed(r: Row, rank: nat, pv: PointValues): Row {
    r[RANK := Num(rank as real)][POINTS := Num(PointsFor(rank, pv) as real)]
  }

  /** A sorted row as `calculate_total_and_rank` leaves it: its rank, the points for that rank and its tie flag. */
  function Scored(r: Row, rank: nat, pv: PointValues, groups: seq<TieGroup>): Row {
    Pointed(r, rank, pv)[TIE_STATUS := TieCell(groups, ChestOf(r))]
  }

  /** Scoring a row leaves its total, its marks and its Chest No alone and writes the three result cells. */
  lemma ScoredCells(r: Row, rank: nat, pv: PointValues, groups: seq<TieGroup>)
    ensures Total(Pointed(r, rank, pv)) == Total(r) && ChestOf(Pointed(r, rank, pv)) == ChestOf(r)
    ensures Total(Scored(r, rank, pv, groups)) == Total(r)
    ensures ChestOf(Scored(r, rank, pv, groups)) == ChestOf(r)
    ensures TotalIsMarkSum(r) ==> TotalIsMarkSum(Scored(r, rank, pv, groups))
    ensures Get(Scored(r, rank, pv, groups), RANK) == Num(rank as real)
    ensures Get(Scored(r, rank, pv, groups), POINTS) == Num(PointsFor(rank, pv) as real)
    ensures Get(Scored(r, rank, pv, groups), TIE_STATUS) == TieCell(groups, ChestOf(r))
  {
    var r1 := r[RANK := Num(rank as real)];
    var r2 := Pointed(r, rank, pv);
    OtherColumnKeepsTotal(r, RANK, Num(rank as real));
    OtherColumnKeepsTotal(r1, POINTS, Num(PointsFor(rank, pv) as real));
    OtherColumnKeepsTotal(r2, TIE_STATUS, TieCell(groups, ChestOf(r)));
  }

  /** The `Chest No` groups up to `k + 1` are those up to `k` and group `k`. */
  lemma InSomeGroupStep(groups: seq<TieGroup>, k: int, c: Cell)
    requires 0 <= k < |groups|
    ensures InSomeGroup(groups[..k + 1], c) <==> InSomeGroup(groups[..k], c) || c in groups[k].chestNos
  {
    if InSomeGroup(groups[..k + 1], c) {
      var g :| 0 <= g < k + 1 && c in groups[..k + 1][g].chestNos;
      if g < k {
        assert groups[..k][g] == groups[g];
      }
    }
    if InSomeGroup(groups[..k], c) {
      var g :| 0 <= g < k && c in groups[..k][g].chestNos;
      assert groups[..k + 1][g] == groups[g];
    }
    if c in groups[k].chestNos {
      assert groups[..k + 1][k] == groups[k];
    }
  }

  /**
    `df['Points'] = 0` and the three `df.loc[df['Rank'] == k, 'Points']`
    assignments: every row ends with the points its rank earns.
   */
  method AwardPoints(df: Frame, pv: PointValues)
    requires df.Valid()
    modifies df
    ensures df.Valid() && df.columns == WithColumn(old(df.columns), POINTS)
    ensures |df.rows| == |old(df.rows)|
    ensures forall i :: 0 <= i < |df.rows| ==>
              df.rows[i] == old(df.rows[i])[POINTS := Num(PointsForCell(Get(old(df.rows[i]), RANK), pv) as real)]
  {
    df.SetColumn(POINTS, Constant(Num(0.0), |df.rows|));
    df.SetWhere(POINTS, RANK, [Num(1.0)], Num(pv.first as real));
    df.SetWhere(POINTS, RANK, [Num(2.0)], Num(pv.second as real));
    df.SetWhere(POINTS, RANK, [Num(3.0)], Num(pv.third as real));
  }

  /**
    `df['Tie Status'] = ''` and the loop over the tie dictionary that marks
    `Tied` every row whose Chest No one of its groups lists.
   */
  method FlagTies(df: Frame, groups: seq<TieGroup>)
    requires df.Valid()
    modifies df
    ensures df.Valid() && df.columns == WithColumn(old(df.columns), TIE_STATUS)
    ensures |df.rows| == |old(df.rows)|
    ensures forall i :: 0 <= i < |df.rows| ==>
              df.rows[i] == old(df.rows[i])[TIE_STATUS := TieCell(groups, ChestOf(old(df.rows[i])))]
  {
    ghost var start := df.rows;
    df.SetColumn(TIE_STATUS, Constant(Text(""), |df.rows|));
    for k := 0 to |groups|
      invariant df.Valid() && df.columns == WithColumn(old(df.columns), TIE_STATUS)
      invariant |df.rows| == |start|
      invariant forall i :: 0 <= i < |df.rows| ==>
                  df.rows[i] == start[i][TIE_STATUS := TieCell(groups[..k], ChestOf(start[i]))]
    {
      ghost var before := df.rows;
      df.SetWhere(TIE_STATUS, CHEST_NO, groups[k].chestNos, Text("Tied"));
      forall i | 0 <= i < |df.rows|
        ensures df.rows[i] == start[i][TIE_STATUS := TieCell(groups[..k + 1], ChestOf(start[i]))]
      {
        var c := ChestOf(start[i]);
        assert ChestOf(before[i]) == c;
        InSomeGroupStep(groups, k, c);
      }
    }
    assert groups[..|groups|] == groups;
  }

  /**
    `calculate_total_and_rank(df, point_values)`: writes `total marks` into
    the caller's frame, then returns a sorted copy with `Rank`, `Points` and
    `Tie Status`, together with the tie dictionary of the ranked rows.
    `ordered` is the order the sort chose.
   */
  method CalculateTotalAndRank(df: Frame, pv: PointValues) returns (result: Frame, groups: seq<TieGroup>, ghost ordered: seq<Row>)
    requires df.Valid() && MarksReady(df.View()) && !ChestNoLookupFails(df.View())
    modifies df
    ensures df.Valid() && df.columns == WithColumn(old(df.columns), TOTAL_MARKS)
    ensures |df.rows| == |old(df.rows)| && forall i :: 0 <= i < |df.rows| ==> df.rows[i] == WithTotal(old(df.rows[i]))
    ensures fresh(result) && result.Valid()
    ensures Calculated(result.View(), groups, ordered, df.columns, df.rows, pv)
    ensures |groups| > 0 <==> SharesPositiveMarkSum(old(df.rows))
  {
    result, ordered := TalentFinder.CalculateTotalAndRank(df);
    ghost var ranked := result.rows;
    AwardPoints(result, pv);
    ghost var pointed := result.rows;
    groups := IdentifyTies(result.rows);
    FlagTies(result, groups);
    ScoredRows(df.rows, ordered, ranked, pointed, result.rows, pv, groups);
    TiesFollowMarkSums(groups, old(df.rows), df.rows);
  }

  /**
    Two rows share a sum of marks above zero: `identify_ties` then has ties
    to list and reads their `Chest No`.
   */
  predicate SharesPositiveMarkSum(rows: seq<Row>) {
    exists i, j :: 0 <= i < j < |rows| && MarkSum(rows[i]) > 0.0 && MarkSum(rows[i]) == MarkSum(rows[j])
  }

  /**
    `calculate_total_and_rank` raises `KeyError`: the frame has no `Chest No`
    column, and it has a tie, whose Chest Nos `identify_ties` looks up.
   */
  predicate ChestNoLookupFails(t: Table) {
    CHEST_NO !in t.columns && SharesPositiveMarkSum(t.rows)
  }

  /** The tie dictionary of the rows with their totals written is non-empty exactly when two mark sums above zero agree. */
  lemma TiesFollowMarkSums(groups: seq<TieGroup>, before: seq<Row>, rows: seq<Row>)
    requires |rows| == |before| && forall i :: 0 <= i < |rows| ==> rows[i] == WithTotal(before[i])
    requires IsTieMap(groups, rows)
    ensures |groups| > 0 <==> SharesPositiveMarkSum(before)
  {
    forall i | 0 <= i < |rows|
      ensures Total(rows[i]) == MarkSum(before[i])
    {
      WithTotalIsMarkSum(before[i]);
    }
    TieMapEmptyIff(groups, rows);
  }

  /** `rows` are the sorted rows `ordered`, each scored with its rank among them. */
  ghost predicate ScoredFrom(rows: seq<Row>, ordered: seq<Row>, pv: PointValues, groups: seq<TieGroup>) {
    && |rows| == |ordered|
    && forall i :: 0 <= i < |rows| ==> rows[i] == Scored(ordered[i], Rank(ordered, Total(ordered[i])), pv, groups)
  }

  /**
    The cells `calculate_total_and_rank` fills in, stated against the rows
    it returns: the total is the sum of the marks, the rank counts the rows
    with a greater total, the points are those of the rank and the tie flag
    says whether the Chest No is in the tie dictionary.
   */
  ghost predicate ResultCells(rows: seq<Row>, pv: PointValues, groups: seq<TieGroup>) {
    forall i :: 0 <= i < |rows| ==>
      && TotalIsMarkSum(rows[i])
      && Get(rows[i], RANK) == Num(Rank(rows, Total(rows[i])) as real)
      && Get(rows[i], POINTS) == Num(PointsFor(Rank(rows, Total(rows[i])), pv) as real)
      && Get(rows[i], TIE_STATUS) == TieCell(groups, ChestOf(rows[i]))
  }

  /**
    The rows `calculate_total_and_rank` returns, followed through its steps:
    `ranked` after the sort and `Rank`, `pointed` after `Points`, `rows`
    after `Tie Status`; `groups` is the tie dictionary of `pointed`.
   */
  lemma ScoredRows(callerRows: seq<Row>, ordered: seq<Row>, ranked: seq<Row>, pointed: seq<Row>, rows: seq<Row>,
                   pv: PointValues, groups: seq<TieGroup>)
    requires multiset(ordered) == multiset(callerRows) && SortedDesc(ordered, Total)
    requires forall i :: 0 <= i < |ordered| ==> TotalIsMarkSum(ordered[i])
    requires |ranked| == |ordered| && |pointed| == |ordered| && |rows| == |ordered|
    requires forall i :: 0 <= i < |ranked| ==> ranked[i] == ordered[i][RANK := Num(Rank(ordered, Total(ordered[i])) as real)]
    requires forall i :: 0 <= i < |pointed| ==>
               pointed[i] == ranked[i][POINTS := Num(PointsForCell(Get(ranked[i], RANK), pv) as real)]
    requires IsTieMap(groups, pointed)
    requires forall i :: 0 <= i < |rows| ==> rows[i] == pointed[i][TIE_STATUS := TieCell(groups, ChestOf(pointed[i]))]
    ensures ScoredFrom(rows, ordered, pv, groups)
    ensures IsTieMap(groups, callerRows) && IsTieMap(groups, rows)
    ensures SortedDesc(rows, Total)
    ensures ResultCells(rows, pv, groups)
  {
    assert forall i :: 0 <= i < |pointed| ==>
             && pointed[i] == Pointed(ordered[i], Rank(ordered, Total(ordered[i])), pv)
             && Total(pointed[i]) == Total(ordered[i]) && ChestOf(pointed[i]) == ChestOf(ordered[i]) by {
      forall i | 0 <= i < |pointed|
        ensures pointed[i] == Pointed(ordered[i], Rank(ordered, Total(ordered[i])), pv)
        ensures Total(pointed[i]) == Total(ordered[i]) && ChestOf(pointed[i]) == ChestOf(ordered[i])
      {
        var rank := Rank(ordered, Total(ordered[i]));
        assert Get(ranked[i], RANK) == Num(rank as real);
        PointsForRankCell(Num(rank as real), pv);
        ScoredCells(ordered[i], rank, pv, groups);
      }
    }
    assert ScoredFrom(rows, ordered, pv, groups);
    TieMapAlike(groups, pointed, ordered);
    TieMapPermutation(groups, ordered, callerRows);
    ScoredFromCells(rows, ordered, pv, groups);
  }

  /** The facts about rows scored from sorted rows whose totals are the sums of their marks. */
  lemma ScoredFromCells(rows: seq<Row>, ordered: seq<Row>, pv: PointValues, groups: seq<TieGroup>)
    requires ScoredFrom(rows, ordered, pv, groups) && SortedDesc(ordered, Total)
    requires forall i :: 0 <= i < |ordered| ==> TotalIsMarkSum(ordered[i])
    requires IsTieMap(groups, ordered)
    ensures IsTieMap(groups, rows)
    ensures SortedDesc(rows, Total)
    ensures ResultCells(rows, pv, groups)
  {
    forall i | 0 <= i < |rows|
      ensures Total(rows[i]) == Total(ordered[i]) && ChestOf(rows[i]) == ChestOf(ordered[i])
      ensures TotalIsMarkSum(rows[i])
      ensures Rank(rows, Total(rows[i])) == Rank(ordered, Total(ordered[i]))
    {
      ScoredCells(ordered[i], Rank(ordered, Total(ordered[i])), pv, groups);
      RankSameTotals(ordered, rows, Total(ordered[i]));
    }
    forall i | 0 <= i < |rows|
      ensures Get(rows[i], RANK) == Num(Rank(rows, Total(rows[i])) as real)
      ensures Get(rows[i], POINTS) == Num(PointsFor(Rank(rows, Total(rows[i])), pv) as real)
      ensures Get(rows[i], TIE_STATUS) == TieCell(groups, ChestOf(rows[i]))
    {
      ScoredCells(ordered[i], Rank(ordered, Total(ordered[i])), pv, groups);
    }
    TieMapAlike(groups, ordered, rows);
  }

  /** With the usual point values (more for a better place) a higher total never earns fewer points. */
  lemma PointsFollowTotals(rows: seq<Row>, i: int, j: int, pv: PointValues)
    requires 0 <= i < |rows| && 0 <= j < |rows|
    requires pv.first >= pv.second >= pv.third
    requires Total(rows[i]) >= Total(rows[j])
    ensures PointsFor(Rank(rows, Total(rows[i])), pv) >= PointsFor(Rank(rows, Total(rows[j])), pv)
  {
    RankBounds(rows, i, j);
    RankBounds(rows, j, i);
  }

  /** Every row with the highest total, alone or tied, earns the first-place points. */
  lemma TopTotalGetsFirst(rows: seq<Row>, i: int, pv: PointValues)
    requires 0 <= i < |rows|
    requires forall j :: 0 <= j < |rows| ==> Total(rows[j]) <= Total(rows[i])
    ensures PointsFor(Rank(rows, Total(rows[i])), pv) == pv.first
  {
    TopTotalRanksFirst(rows, i);
  }

  /**
    In a table sorted by total whose first three totals all differ, the
    first three rows earn the first-, second- and third-place points and
    every row whose total is below the third earns nothing.
   */
  lemma PodiumOfDistinctTotals(rows: seq<Row>, pv: PointValues)
    requires SortedDesc(rows, Total) && |rows| >= 3
    requires Total(rows[0]) > Total(rows[1]) > Total(rows[2])
    ensures PointsFor(Rank(rows, Total(rows[0])), pv) == pv.first
    ensures PointsFor(Rank(rows, Total(rows[1])), pv) == pv.second
    ensures PointsFor(Rank(rows, Total(rows[2])), pv) == pv.third
    ensures forall j :: 0 <= j < |rows| && Total(rows[j]) < Total(rows[2]) ==> PointsFor(Rank(rows, Total(rows[j])), pv) == 0
  {
    RankInSortedTable(rows, 0);
    RankInSortedTable(rows, 1);
    RankInSortedTable(rows, 2);
    forall j | 0 <= j < |rows| && Total(rows[j]) < Total(rows[2])
      ensures PointsFor(Rank(rows, Total(rows[j])), pv) == 0
    {
      RankBounds(rows, 2, j);
    }
  }

  /**
    When no two rows share a Chest No, the `Tie Status` of a returned row is
    `Tied` exactly when another row has the same total and that total is
    above zero.
   */
  lemma TieStatusMarksTies(groups: seq<TieGroup>, rows: seq<Row>, i: int)
    requires IsTieMap(groups, rows) && NoDup(Column(rows, CHEST_NO)) && 0 <= i < |rows|
    requires Get(rows[i], TIE_STATUS) == TieCell(groups, ChestOf(rows[i]))
    ensures Get(rows[i], TIE_STATUS) == Text("Tied") <==> IsTiedTotal(rows, Total(rows[i]))
    ensures Get(rows[i], TIE_STATUS) != Text("Tied") ==> Get(rows[i], TIE_STATUS) == Text("")
  {
    ListedIffTied(groups, rows, i);
  }

  /**
    The fill loop of `main` for this script's eight required columns: all of
    them are there afterwards and the cells already there are unchanged.
   */
  method FillRequiredColumns(df: Frame)
    requires df.Valid()
    modifies df
    ensures df.Valid()
    ensures df.columns == old(df.columns) + MissingColumns(REQUIRED_COLUMNS, old(df.columns))
    ensures forall c :: c in REQUIRED_COLUMNS ==> c in df.columns
    ensures PaddedWithNaN(df.rows, old(df.rows), old(df.columns))
  {
    RequiredColumnsDistinct();
    df.AddMissingColumns(REQUIRED_COLUMNS);
  }

  /** `merge_with_master_data` with the eight marks columns this script keeps. */
  function MergeWithMasterData(marks: Table, master: Table): (r: MergeOutcome)
    ensures r.NoChestNo? <==> CHEST_NO !in marks.columns || CHEST_NO !in master.columns
    ensures r.Merged? ==>
              && r.table.columns == MergedColumns(master.columns, MERGE_COLUMNS)
              && WellFormed(r.table)
              && SortedDesc(r.table.rows, Total)
  {
    Merge(marks, master, MERGE_COLUMNS)
  }

  /** A result table with the eight merge columns and a roster that shares no column with it but `Chest No` always merge. */
  lemma MergeWithMasterDataSucceeds(marks: Table, master: Table)
    requires forall c :: c in MERGE_COLUMNS ==> c in marks.columns
    requires CHEST_NO in master.columns && NoDup(master.columns)
    requires forall c :: c in master.columns && c != CHEST_NO ==> c !in MERGE_COLUMNS
    ensures MergeWithMasterData(marks, master).Merged?
  {
    RequiredColumnsDistinct();
    MergeSucceeds(marks, master, MERGE_COLUMNS);
  }

  /**
    `computed` and `groups` are what `calculate_total_and_rank(df,
    point_values)` returns for a frame whose columns and rows are `columns`
    and `rows` once `total marks` is written: the rows in the order
    `ordered` the sort chose, each scored, and the tie dictionary.
   */
  ghost predicate Calculated(computed: Table, groups: seq<TieGroup>, ordered: seq<Row>, columns: seq<string>, rows: seq<Row>, pv: PointValues) {
    && computed.columns == WithColumn(WithColumn(WithColumn(columns, RANK), POINTS), TIE_STATUS)
    && multiset(ordered) == multiset(rows) && SortedDesc(ordered, Total)
    && ScoredFrom(computed.rows, ordered, pv, groups)
    && IsTieMap(groups, rows) && IsTieMap(groups, computed.rows)
    && SortedDesc(computed.rows, Total)
    && ResultCells(computed.rows, pv, groups)
  }

  /**
    The "Download Result" branch of `main`: refuse without an event name,
    recompute the results with the configured points, merge them with the
    roster when one is uploaded, and offer the table under the event's file
    name. `computed`, `groups` and `ordered` are the recomputed results. The
    error report covers marks that are not ready and the `KeyError` of a tie
    without a `Chest No` column.
   */
  method DownloadResult(eventName: string, pv: PointValues, edited: Frame, master: Option<Table>)
    returns (d: TalentFinder.Download, ghost computed: Table, ghost groups: seq<TieGroup>, ghost ordered: seq<Row>)
    requires edited.Valid()
    modifies edited
    ensures d.NoEventName? <==> eventName == ""
    ensures eventName == "" || !MarksReady(old(edited.View())) ==> unchanged(edited)
    ensures d.CalcFailed? <==>
              eventName != "" && (!MarksReady(old(edited.View())) || ChestNoLookupFails(old(edited.View())))
    ensures eventName != "" && MarksReady(old(edited.View())) ==>
              && edited.Valid() && edited.columns == WithColumn(old(edited.columns), TOTAL_MARKS)
              && |edited.rows| == |old(edited.rows)|
              && (forall i :: 0 <= i < |edited.rows| ==> edited.rows[i] == WithTotal(old(edited.rows[i])))
    ensures eventName != "" && MarksReady(old(edited.View())) && !ChestNoLookupFails(old(edited.View())) ==>
              && Calculated(computed, groups, ordered, edited.columns, edited.rows, pv)
              && (master.None? ==> d == TalentFinder.Offer(eventName + "_results.xlsx", computed))
              && (master.Some? ==>
                    d == TalentFinder.Downloadable(eventName + "_results.xlsx", MergeWithMasterData(computed, master.value)))
    ensures d.MergeRefused? <==>
              && eventName != "" && MarksReady(old(edited.View())) && !ChestNoLookupFails(old(edited.View()))
              && master.Some? && (CHEST_NO !in old(edited.columns) || CHEST_NO !in master.value.columns)
    ensures d.Offer? ==> TalentFinder.ResultFileName(eventName) == Some(d.fileName) && SortedDesc(d.table.rows, Total)
  {
    computed, groups, ordered := edited.View(), [], [];
    if eventName == "" {
      return TalentFinder.NoEventName, computed, groups, ordered;
    }
    if !MarksReady(edited.View()) {
      return TalentFinder.CalcFailed, computed, groups, ordered;
    }
    if ChestNoLookupFails(edited.View()) {
      // The total, the sort and the rank are computed before the lookup raises.
      var partial;
      ghost var partialOrder;
      partial, partialOrder := TalentFinder.CalculateTotalAndRank(edited);
      return TalentFinder.CalcFailed, computed, groups, ordered;
    }
    var result, tieGroups;
    result, tieGroups, ordered := CalculateTotalAndRank(edited, pv);
    computed, groups := result.View(), tieGroups;
    var fileName := eventName + "_results.xlsx";
    if master.None? {
      return TalentFinder.Offer(fileName, result.View()), computed, groups, ordered;
    }
    assert CHEST_NO in computed.columns <==> CHEST_NO in old(edited.columns);
    d := TalentFinder.Downloadable(fileName, MergeWithMasterData(result.View(), master.value));
  }
}
