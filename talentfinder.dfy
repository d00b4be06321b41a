/**
  The event results calculator (talentfinder.py): totals and ranks for the
  marks table, the right join with the roster, the fill of missing
  required columns and the download step of `main`.
 */
module TalentFinder {
  import opened Seqs
  import opened Sorting
  import opened Tables
  import opened Scoring
  import opened Merging

  /** The columns the marks table must have; the fill loop adds those it lacks. */
  const REQUIRED_COLUMNS: seq<string> := [CHEST_NO, MARK1, MARK2, MARK3, TOTAL_MARKS, RANK]

  /** The marks-side columns the merge takes. */
  const MERGE_COLUMNS: seq<string> := [CHEST_NO, MARK1, MARK2, MARK3, TOTAL_MARKS, RANK]

  lemma RequiredColumnsDistinct()
    ensures NoDup(REQUIRED_COLUMNS) && NoDup(MERGE_COLUMNS)
  {
  }

  /**
    The loop in `main` that adds each missing required column filled with
    NaN: afterwards every required column is there and the cells of the
    columns already there are unchanged.
   */
  method FillRequiredColumns(df: Frame)
    requires df.Valid()
    modifies df
    ensures df.Valid()
    ensures df.columns == old(df.columns) + MissingColumns(REQUIRED_COLUMNS, old(df.columns))
    ensures forall c :: c in REQUIRED_COLUMNS ==> c in df.columns
    ensures PaddedWithNaN(df.rows, old(df.rows), old(df.columns))
  {
    RequiredColumnsDistinct();
    df.AddMissingColumns(REQUIRED_COLUMNS);
  }

  /**
    `calculate_total_and_rank`: writes `total marks` into the caller's frame,
    then returns a sorted copy with a `Rank` column. `ordered` is the order
    the sort chose; pandas promises only that it is non-increasing in total.
   */
  method CalculateTotalAndRank(df: Frame) returns (result: Frame, ghost ordered: seq<Row>)
    requires df.Valid() && MarksReady(df.View())
    modifies df
    ensures df.Valid() && df.columns == WithColumn(old(df.columns), TOTAL_MARKS)
    ensures |df.rows| == |old(df.rows)| && forall i :: 0 <= i < |df.rows| ==> df.rows[i] == WithTotal(old(df.rows[i]))
    ensures fresh(result) && result.Valid()
    ensures Calculated(result.View(), ordered, df.columns, df.rows)
  {
    df.SetColumn(TOTAL_MARKS, MapSeq(df.rows, TotalCell));
    result := SortByTotal(df);
    ordered := result.rows;
    forall i | 0 <= i < |ordered|
      ensures TotalIsMarkSum(ordered[i])
    {
      PermutationMembers(df.rows, ordered, i);
      var j :| 0 <= j < |df.rows| && df.rows[j] == ordered[i];
      WithTotalIsMarkSum(old(df.rows[j]));
    }
    result.SetColumn(RANK, RankColumn(result.rows));
    forall i | 0 <= i < |result.rows|
      ensures Total(result.rows[i]) == Total(ordered[i]) && TotalIsMarkSum(result.rows[i])
    {
      OtherColumnKeepsTotal(ordered[i], RANK, RankColumn(ordered)[i]);
    }
    forall i | 0 <= i < |result.rows|
      ensures Get(result.rows[i], RANK) == Num(Rank(result.rows, Total(result.rows[i])) as real)
    {
      RankSameTotals(ordered, result.rows, Total(ordered[i]));
    }
  }

  /** `merge_with_master_data` with the six marks columns this script keeps. */
  function MergeWithMasterData(marks: Table, master: Table): (r: MergeOutcome)
    ensures r.NoChestNo? <==> CHEST_NO !in marks.columns || CHEST_NO !in master.columns
    ensures r.Merged? ==>
              && r.table.columns == MergedColumns(master.columns, MERGE_COLUMNS)
              && WellFormed(r.table)
              && SortedDesc(r.table.rows, Total)
  {
    Merge(marks, master, MERGE_COLUMNS)
  }

  /** A result table with the six merge columns and a roster that shares no column with it but `Chest No` always merge. */
  lemma MergeWithMasterDataSucceeds(marks: Table, master: Table)
    requires forall c :: c in MERGE_COLUMNS ==> c in marks.columns
    requires CHEST_NO in master.columns && NoDup(master.columns)
    requires forall c :: c in master.columns && c != CHEST_NO ==> c !in MERGE_COLUMNS
    ensures MergeWithMasterData(marks, master).Merged?
  {
    RequiredColumnsDistinct();
    MergeSucceeds(marks, master, MERGE_COLUMNS);
  }

  /** The download file name: none for an empty event name (the download is refused). */
  function ResultFileName(eventName: string): (r: Option<string>)
    ensures r.None? <==> eventName == ""
    ensures r.Some? ==> r.value == eventName + "_results.xlsx"
  {
    if eventName == "" then None else Some(eventName + "_results.xlsx")
  }

  /** Different event names give different file names. */
  lemma ResultFileNameInjective(a: string, b: string)
    requires ResultFileName(a).Some? && ResultFileName(a) == ResultFileName(b)
    ensures a == b
  {
    var fa, fb := a + "_results.xlsx", b + "_results.xlsx";
    assert |a| == |b|;
    assert a == fa[..|a|] && b == fb[..|b|];
  }

  /** What the "Download Result" button leads to. */
  datatype Download =
    | NoEventName    // "Please enter an event name before downloading"
    | CalcFailed     // pandas raises computing the totals: a mark column is missing or holds text
    | MergeRefused   // the merge found no `Chest No` and returned None
    | MergeFailed    // pandas raises inside the merge
    | Offer(fileName: string, table: Table)

  /** The download a merge outcome leads to: the merged table under `fileName`, or the merge's refusal or failure. */
  function Downloadable(fileName: string, m: MergeOutcome): (d: Download)
    ensures d.MergeRefused? <==> m.NoChestNo?
    ensures d.MergeFailed? <==> m.Failed?
    ensures d.Offer? <==> m.Merged?
    ensures d.Offer? ==> d.fileName == fileName && d.table == m.table
  {
    match m
    case NoChestNo => MergeRefused
    case Failed => MergeFailed
    case Merged(t) => Offer(fileName, t)
  }

  /**
    `computed` is what `calculate_total_and_rank` returns for a frame whose
    columns and rows are `columns` and `rows` once `total marks` is written:
    the rows in the order `ordered` the sort chose, each with its rank.
   */
  ghost predicate Calculated(computed: Table, ordered: seq<Row>, columns: seq<string>, rows: seq<Row>) {
    && computed.columns == WithColumn(columns, RANK)
    && multiset(ordered) == multiset(rows) && SortedDesc(ordered, Total)
    && (forall i :: 0 <= i < |ordered| ==> TotalIsMarkSum(ordered[i]))
    && |computed.rows| == |ordered|
    && (forall i :: 0 <= i < |computed.rows| ==>
          computed.rows[i] == ordered[i][RANK := Num(Rank(ordered, Total(ordered[i])) as real)])
    && SortedDesc(computed.rows, Total)
    && (forall i :: 0 <= i < |computed.rows| ==> TotalIsMarkSum(computed.rows[i]))
    && (forall i :: 0 <= i < |computed.rows| ==>
          Get(computed.rows[i], RANK) == Num(Rank(computed.rows, Total(computed.rows[i])) as real))
  }

  /**
    The "Download Result" branch of `main`: refuse without an event name,
    recompute the results from the edited frame, merge them with the roster
    when one is uploaded, and offer the table under the event's file name.
    `computed` and `ordered` are the recomputed results and the sort's order.
   */
  method DownloadResult(eventName: string, edited: Frame, master: Option<Table>)
    returns (d: Download, ghost computed: Table, ghost ordered: seq<Row>)
    requires edited.Valid()
    modifies edited
    ensures d.NoEventName? <==> eventName == ""
    ensures eventName == "" || !MarksReady(old(edited.View())) ==> unchanged(edited)
    ensures d.CalcFailed? <==> eventName != "" && !MarksReady(old(edited.View()))
    ensures eventName != "" && MarksReady(old(edited.View())) ==>
              && edited.Valid() && edited.columns == WithColumn(old(edited.columns), TOTAL_MARKS)
              && |edited.rows| == |old(edited.rows)|
              && (forall i :: 0 <= i < |edited.rows| ==> edited.rows[i] == WithTotal(old(edited.rows[i])))
              && Calculated(computed, ordered, edited.columns, edited.rows)
              && (master.None? ==> d == Offer(eventName + "_results.xlsx", computed))
              && (master.Some? ==> d == Downloadable(eventName + "_results.xlsx", MergeWithMasterData(computed, master.value)))
    ensures d.MergeRefused? <==>
              && eventName != "" && MarksReady(old(edited.View())) && master.Some?
              && (CHEST_NO !in old(edited.columns) || CHEST_NO !in master.value.columns)
    ensures d.Offer? ==> ResultFileName(eventName) == Some(d.fileName) && SortedDesc(d.table.rows, Total)
  {
    computed, ordered := edited.View(), [];
    if eventName == "" {
      return NoEventName, computed, ordered;
    }
    if !MarksReady(edited.View()) {
      return CalcFailed, computed, ordered;
    }
    var result;
    result, ordered := CalculateTotalAndRank(edited);
    computed := result.View();
    var fileName := eventName + "_results.xlsx";
    if master.None? {
      return Offer(fileName, result.View()), computed, ordered;
    }
    assert CHEST_NO in computed.columns <==> CHEST_NO in old(edited.columns);
    d := Downloadable(fileName, MergeWithMasterData(result.View(), master.value));
  }
}
