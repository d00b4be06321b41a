/**
  The competition analysis dashboard (talentfinderpro.py): the top
  performers of a category (students, churches, sections or regions) by
  summed points, the distinct counts of the summary and the download file
  name.
 */
module TalentFinderPro {
  import opened Seqs
  import opened Sorting
  import opened Tables

  const POINTS := "Points"
  const ID_NO := "ID No"
  const STUDENT_NAME := "Student Name"
  const CHURCH := "Church"
  const SECTION := "Section"
  const REGION := "Region"

  /** The columns `get_top_performers` groups by for a category; none for a category it does not know. */
  function KeyColumns(category: string): (r: Option<seq<string>>)
    ensures r.Some? <==> category in ["Student", "Church", "Section", "Region"]
    ensures r.Some? ==> NoDup(r.value + [POINTS]) && |r.value| >= 1
  {
    if category == "Student" then Some([ID_NO, STUDENT_NAME, CHURCH, SECTION, REGION])
    else if category == "Church" then Some([CHURCH])
    else if category == "Section" then Some([SECTION])
    else if category == "Region" then Some([REGION])
    else None
  }

  /** The group key of a row: its cells in the key columns. */
  function KeyOfRow(r: Row, cols: seq<string>): seq<Cell> {
    seq(|cols|, i requires 0 <= i < |cols| => Get(r, cols[i]))
  }

  function KeyOf(cols: seq<string>): Row -> seq<Cell> {
    r => KeyOfRow(r, cols)
  }

  /** `groupby` drops a row with NaN in any key column. */
  function HasKey(cols: seq<string>): Row -> bool {
    r => Missing !in KeyOfRow(r, cols)
  }

  function WithKey(cols: seq<string>, key: seq<Cell>): Row -> bool {
    r => KeyOfRow(r, cols) == key
  }

  /** A row's points for `sum`, NaN counting as nothing. */
  function RowPoints(r: Row): real {
    NumOrZero(Get(r, POINTS))
  }

  /** A group and its summed points: one row of the `groupby(...)['Points'].sum()` result. */
  datatype Standing = Standing(key: seq<Cell>, points: real)

  function PointsOf(s: Standing): real {
    s.points
  }

  function KeyOfStanding(s: Standing): seq<Cell> {
    s.key
  }

  /** The distinct group keys, each at the first row that has it. */
  function GroupKeys(rows: seq<Row>, cols: seq<string>): seq<seq<Cell>> {
    Distinct(MapSeq(Filter(rows, HasKey(cols)), KeyOf(cols)))
  }

  /** The points of group `key`: the sum over the rows with that key. */
  function GroupSum(rows: seq<Row>, cols: seq<string>, key: seq<Cell>): real {
    Sum(MapSeq(Filter(rows, WithKey(cols, key)), RowPoints))
  }

  function StandingOf(rows: seq<Row>, cols: seq<string>): seq<Cell> -> Standing {
    key => Standing(key, GroupSum(rows, cols, key))
  }

  /** `groupby(cols)['Points'].sum().reset_index()`, one standing per group. */
  function Standings(rows: seq<Row>, cols: seq<string>): seq<Standing> {
    MapSeq(GroupKeys(rows, cols), StandingOf(rows, cols))
  }

  /** `head(n)`: the first `n` entries, or for a negative `n` all but the last `-n`. */
  function Head<T>(s: seq<T>, n: int): (r: seq<T>)
    ensures |r| <= |s| && r == s[..|r|]
    ensures n >= 0 ==> |r| == Min(n, |s|)
    ensures n < 0 ==> |r| == Max(|s| + n, 0)
  {
    if n >= 0 then s[..Min(n, |s|)] else s[..Max(|s| + n, 0)]
  }

  /** The standings sorted by points, highest first, cut to `n`. */
  function TopStandings(rows: seq<Row>, cols: seq<string>, n: int): seq<Standing> {
    Head(SortDesc(Standings(rows, cols), PointsOf), n)
  }

  /** The row of the result table for one standing. */
  function StandingRow(cols: seq<string>, s: Standing): Row
    requires |s.key| == |cols|
  {
    ToRow(cols + [POINTS], s.key + [Num(s.points)])
  }

  /**
    `get_top_performers(df, category, n)`: the top `n` groups of the
    category with their summed points, or nothing for an unknown category.
    The source raises when `Points` or a key column is missing, and sums
    `Points` only as numbers.
   */
  function GetTopPerformers(df: Table, category: string, n: int := 5): (r: Option<Table>)
    requires NumericColumn(df.rows, POINTS)
    ensures r.None? <==> KeyColumns(category).None?
    ensures r.Some? ==> r.value.columns == KeyColumns(category).value + [POINTS]
    ensures r.Some? ==> |r.value.rows| == |TopStandings(df.rows, KeyColumns(category).value, n)|
    ensures r.Some? ==> WellFormed(r.value)
  {
    match KeyColumns(category)
    case None => None
    case Some(cols) =>
      var top := TopStandings(df.rows, cols, n);
      TopKeyWidth(df.rows, cols, n);
      var t := Table(cols + [POINTS], seq(|top|, i requires 0 <= i < |top| => StandingRow(cols, top[i])));
      Some(t)
  }

  /** Every group key has one cell per key column. */
  lemma TopKeyWidth(rows: seq<Row>, cols: seq<string>, n: int)
    ensures forall i :: 0 <= i < |TopStandings(rows, cols, n)| ==> |TopStandings(rows, cols, n)[i].key| == |cols|
  {
    var top := TopStandings(rows, cols, n);
    forall i | 0 <= i < |top|
      ensures |top[i].key| == |cols|
    {
      TopIsStanding(rows, cols, n, i);
    }
  }

  /** A group key belongs to a row that has no NaN in its key columns. */
  lemma GroupKeysMember(rows: seq<Row>, cols: seq<string>, key: seq<Cell>)
    ensures key in GroupKeys(rows, cols) <==> exists j :: 0 <= j < |rows| && HasKey(cols)(rows[j]) && KeyOfRow(rows[j], cols) == key
  {
    var keyed := Filter(rows, HasKey(cols));
    var keys := MapSeq(keyed, KeyOf(cols));
    if key in GroupKeys(rows, cols) {
      var h :| 0 <= h < |keys| && keys[h] == key;
      FilterMember(rows, HasKey(cols), h);
      var j :| 0 <= j < |rows| && rows[j] == keyed[h];
    }
    if exists j :: 0 <= j < |rows| && HasKey(cols)(rows[j]) && KeyOfRow(rows[j], cols) == key {
      var j :| 0 <= j < |rows| && HasKey(cols)(rows[j]) && KeyOfRow(rows[j], cols) == key;
      FilterKeeps(rows, HasKey(cols), j);
      var h :| 0 <= h < |keyed| && keyed[h] == rows[j];
      assert keys[h] == key;
    }
  }

  /** Each returned standing is the standing of one of the groups. */
  lemma TopIsStanding(rows: seq<Row>, cols: seq<string>, n: int, i: int)
    requires 0 <= i < |TopStandings(rows, cols, n)|
    ensures TopStandings(rows, cols, n)[i] in Standings(rows, cols)
    ensures TopStandings(rows, cols, n)[i].key in GroupKeys(rows, cols)
    ensures TopStandings(rows, cols, n)[i].points == GroupSum(rows, cols, TopStandings(rows, cols, n)[i].key)
    ensures |TopStandings(rows, cols, n)[i].key| == |cols|
  {
    var all := Standings(rows, cols);
    var s := TopStandings(rows, cols, n)[i];
    assert s in all by {
      var sorted := SortDesc(all, PointsOf);
      assert s == sorted[i];
      PermutationMembers(all, sorted, i);
    }
    var keys := GroupKeys(rows, cols);
    var k :| 0 <= k < |all| && all[k] == s;
    assert s == Standing(keys[k], GroupSum(rows, cols, keys[k]));
    GroupKeyWidth(rows, cols, k);
  }

  /** A group key has one cell per key column. */
  lemma GroupKeyWidth(rows: seq<Row>, cols: seq<string>, k: int)
    requires 0 <= k < |GroupKeys(rows, cols)|
    ensures |GroupKeys(rows, cols)[k]| == |cols|
  {
    var keys := MapSeq(Filter(rows, HasKey(cols)), KeyOf(cols));
    assert GroupKeys(rows, cols)[k] in keys;
  }

  /** The returned standings are in non-increasing order of points. */
  lemma TopSorted(rows: seq<Row>, cols: seq<string>, n: int)
    ensures SortedDesc(TopStandings(rows, cols, n), PointsOf)
  {
    var sorted := SortDesc(Standings(rows, cols), PointsOf);
    var top := TopStandings(rows, cols, n);
    forall i, j | 0 <= i < j < |top|
      ensures PointsOf(top[i]) >= PointsOf(top[j])
    {
      assert top[i] == sorted[i] && top[j] == sorted[j];
    }
  }

  /** At most `n` groups are returned (a negative `n` drops that many from the end), and never more than there are. */
  lemma TopCount(rows: seq<Row>, cols: seq<string>, n: int)
    ensures n >= 0 ==> |TopStandings(rows, cols, n)| <= n
    ensures |TopStandings(rows, cols, n)| <= |GroupKeys(rows, cols)|
  {
    var sorted := SortDesc(Standings(rows, cols), PointsOf);
    assert |multiset(sorted)| == |multiset(Standings(rows, cols))|;
  }

  /** No group is returned twice. */
  lemma TopDistinct(rows: seq<Row>, cols: seq<string>, n: int)
    ensures NoDup(MapSeq(TopStandings(rows, cols, n), KeyOfStanding))
  {
    var all := Standings(rows, cols);
    var sorted := SortDesc(all, PointsOf);
    var top := TopStandings(rows, cols, n);
    var allKeys, sortedKeys := MapSeq(all, KeyOfStanding), MapSeq(sorted, KeyOfStanding);
    assert NoDup(allKeys) by {
      assert allKeys == GroupKeys(rows, cols);
    }
    assert NoDup(sortedKeys) by {
      MapPermutation(all, sorted, KeyOfStanding);
      NoDupPermutation(allKeys, sortedKeys);
    }
    NoDupPrefix(sortedKeys, |top|);
    assert sortedKeys[..|top|] == MapSeq(top, KeyOfStanding);
  }

  /** Where the group `key` would sit among the sorted standings. */
  lemma SortedPosition(rows: seq<Row>, cols: seq<string>, key: seq<Cell>) returns (k: int)
    requires key in GroupKeys(rows, cols)
    ensures 0 <= k < |SortDesc(Standings(rows, cols), PointsOf)|
    ensures SortDesc(Standings(rows, cols), PointsOf)[k] == Standing(key, GroupSum(rows, cols, key))
  {
    var all := Standings(rows, cols);
    var sorted := SortDesc(all, PointsOf);
    var keys := GroupKeys(rows, cols);
    var h :| 0 <= h < |keys| && keys[h] == key;
    assert all[h] == Standing(key, GroupSum(rows, cols, key));
    PermutationMembers(all, sorted, h);
    k :| 0 <= k < |sorted| && sorted[k] == all[h];
  }

  /**
    A group that is left out has no more points than any group that is
    returned.
   */
  lemma TopMaximal(rows: seq<Row>, cols: seq<string>, n: int, key: seq<Cell>, i: int)
    requires key in GroupKeys(rows, cols) && key !in MapSeq(TopStandings(rows, cols, n), KeyOfStanding)
    requires 0 <= i < |TopStandings(rows, cols, n)|
    ensures GroupSum(rows, cols, key) <= TopStandings(rows, cols, n)[i].points
  {
    var sorted := SortDesc(Standings(rows, cols), PointsOf);
    var top := TopStandings(rows, cols, n);
    var k := SortedPosition(rows, cols, key);
    PrefixKeys(sorted, top, k);
    assert top[i] == sorted[i];
  }

  /** A standing at position `k` of a sequence whose prefix is `top` is in `top` when `k` is inside the prefix. */
  lemma PrefixKeys(sorted: seq<Standing>, top: seq<Standing>, k: int)
    requires |top| <= |sorted| && top == sorted[..|top|] && 0 <= k < |sorted|
    ensures k < |top| ==> sorted[k].key in MapSeq(top, KeyOfStanding)
  {
    if k < |top| {
      assert MapSeq(top, KeyOfStanding)[k] == sorted[k].key;
    }
  }

  /** With no more than `n` groups every group is returned. */
  lemma TopAllWhenFew(rows: seq<Row>, cols: seq<string>, n: int, key: seq<Cell>)
    requires |GroupKeys(rows, cols)| <= n && key in GroupKeys(rows, cols)
    ensures exists i :: 0 <= i < |TopStandings(rows, cols, n)| && TopStandings(rows, cols, n)[i] == Standing(key, GroupSum(rows, cols, key))
  {
    var sorted := SortDesc(Standings(rows, cols), PointsOf);
    var k := SortedPosition(rows, cols, key);
    assert |multiset(sorted)| == |multiset(Standings(rows, cols))|;
    assert TopStandings(rows, cols, n) == sorted;
  }

  /** The table rows read back as the standings: the group key in the key columns, the summed points in `Points`. */
  lemma TopPerformersRows(df: Table, category: string, n: int, i: int)
    requires NumericColumn(df.rows, POINTS) && KeyColumns(category).Some?
    requires 0 <= i < |GetTopPerformers(df, category, n).value.rows|
    ensures Get(GetTopPerformers(df, category, n).value.rows[i], POINTS)
              == Num(GroupSum(df.rows, KeyColumns(category).value, TopStandings(df.rows, KeyColumns(category).value, n)[i].key))
    ensures KeyOfRow(GetTopPerformers(df, category, n).value.rows[i], KeyColumns(category).value)
              == TopStandings(df.rows, KeyColumns(category).value, n)[i].key
  {
    var cols := KeyColumns(category).value;
    var s := TopStandings(df.rows, cols, n)[i];
    var row := GetTopPerformers(df, category, n).value.rows[i];
    TopIsStanding(df.rows, cols, n, i);
    var names, vals := cols + [POINTS], s.key + [Num(s.points)];
    assert row == ToRow(names, vals);
    ToRowGet(names, vals, |cols|);
    forall c | 0 <= c < |cols|
      ensures KeyOfRow(row, cols)[c] == s.key[c]
    {
      ToRowGet(names, vals, c);
      assert names[c] == cols[c] && vals[c] == s.key[c];
    }
  }

  function Present(col: string): Row -> bool {
    r => Get(r, col) != Missing
  }

  function CellOf(col: string): Row -> Cell {
    r => Get(r, col)
  }

  /** `df[col].nunique()`: the number of distinct cells of the column, NaN not counted. */
  function NUnique(rows: seq<Row>, col: string): nat {
    |Distinct(MapSeq(Filter(rows, Present(col)), CellOf(col)))|
  }

  /** The distinct count is the size of the set of non-NaN values in the column. */
  lemma NUniqueIsValueCount(rows: seq<Row>, col: string)
    ensures NUnique(rows, col) == |set j | 0 <= j < |rows| && Get(rows[j], col) != Missing :: Get(rows[j], col)|
  {
    var present := Filter(rows, Present(col));
    var cells := MapSeq(present, CellOf(col));
    var d := Distinct(cells);
    NoDupCardinality(d);
    var values := set j | 0 <= j < |rows| && Get(rows[j], col) != Missing :: Get(rows[j], col);
    forall x
      ensures x in d <==> x in values
    {
      if x in d {
        var h :| 0 <= h < |cells| && cells[h] == x;
        FilterMember(rows, Present(col), h);
        var j :| 0 <= j < |rows| && rows[j] == present[h];
      }
      if x in values {
        var j :| 0 <= j < |rows| && Get(rows[j], col) != Missing && Get(rows[j], col) == x;
        FilterKeeps(rows, Present(col), j);
        var h :| 0 <= h < |present| && present[h] == rows[j];
        assert cells[h] == x;
      }
    }
    assert (set x | x in d) == values;
  }

  /** One count of the summary statistics. */
  datatype SummaryCount = SummaryCount(name: string, value: nat)

  /**
    The distinct counts of the summary: students and churches for the
    Student view, churches or sections for those views, and regions for
    any other category (the `else` branch).
   */
  function SummaryCounts(df: Table, category: string): (r: seq<SummaryCount>)
    ensures category == "Student" ==>
              r == [SummaryCount("Total Students", NUnique(df.rows, ID_NO)), SummaryCount("Total Churches", NUnique(df.rows, CHURCH))]
    ensures category == "Church" ==> r == [SummaryCount("Total Churches", NUnique(df.rows, CHURCH))]
    ensures category == "Section" ==> r == [SummaryCount("Total Sections", NUnique(df.rows, SECTION))]
    ensures category !in ["Student", "Church", "Section"] ==> r == [SummaryCount("Total Regions", NUnique(df.rows, REGION))]
  {
    if category == "Student" then
      [SummaryCount("Total Students", NUnique(df.rows, ID_NO)), SummaryCount("Total Churches", NUnique(df.rows, CHURCH))]
    else if category == "Church" then [SummaryCount("Total Churches", NUnique(df.rows, CHURCH))]
    else if category == "Section" then [SummaryCount("Total Sections", NUnique(df.rows, SECTION))]
    else [SummaryCount("Total Regions", NUnique(df.rows, REGION))]
  }

  /** `str.replace(' ', '_')`. */
  function ReplaceSpaces(s: string): (r: string)
    ensures |r| == |s|
    ensures forall i :: 0 <= i < |s| ==> r[i] == if s[i] == ' ' then '_' else s[i]
  {
    if s == [] then [] else [if s[0] == ' ' then '_' else s[0]] + ReplaceSpaces(s[1..])
  }

  /** The replaced title has no space, and a title without spaces is kept as it is. */
  lemma ReplaceSpacesLeavesNone(s: string)
    ensures ' ' !in ReplaceSpaces(s)
    ensures ' ' !in s ==> ReplaceSpaces(s) == s
  {
    var r := ReplaceSpaces(s);
    assert forall i :: 0 <= i < |r| ==> r[i] != ' ';
  }

  /** Replacing twice is replacing once. */
  lemma ReplaceSpacesIdempotent(s: string)
    ensures ReplaceSpaces(ReplaceSpaces(s)) == ReplaceSpaces(s)
  {
    ReplaceSpacesLeavesNone(s);
    ReplaceSpacesLeavesNone(ReplaceSpaces(s));
  }

  /** What follows the title in the download file name: `_`, the category and `_results.xlsx`. */
  function FileSuffix(category: string): string {
    "_" + category + "_results.xlsx"
  }

  /** The download file name: the title with spaces replaced by underscores, then the suffix for the category. */
  function DownloadFileName(title: string, category: string): string {
    ReplaceSpaces(title) + FileSuffix(category)
  }

  /** For a category without spaces the file name has none. */
  lemma DownloadFileNameHasNoSpaces(title: string, category: string)
    requires ' ' !in category
    ensures ' ' !in DownloadFileName(title, category)
  {
    ReplaceSpacesLeavesNone(title);
    assert ' ' !in "_" && ' ' !in "_results.xlsx";
  }

  /** The file name splits into the replaced title and the suffix for the category. */
  lemma DownloadFileNameParts(title: string, category: string)
    ensures |DownloadFileName(title, category)| == |title| + |category| + 14
    ensures DownloadFileName(title, category)[..|title|] == ReplaceSpaces(title)
    ensures DownloadFileName(title, category)[|title|..] == FileSuffix(category)
  {
    var t := ReplaceSpaces(title);
    var r := DownloadFileName(title, category);
    assert r[..|t|] == t;
    assert r[|t|..] == FileSuffix(category);
  }
}
