/**
  `identify_ties` of talentfinderX.py: the totals above zero that two or
  more rows share, each with the Chest Nos of the rows that have it, in
  descending order of total.
 */
module Ties {
  import opened Seqs
  import opened Sorting
  import opened Tables
  import opened Scoring

  /** One entry of the tie dictionary: a shared total and the Chest Nos listed under it. */
  datatype TieGroup = TieGroup(total: real, chestNos: seq<Cell>)

  function ChestOf(r: Row): Cell {
    Get(r, CHEST_NO)
  }

  function HasTotal(t: real): Row -> bool {
    r => Total(r) == t
  }

  /** The number of rows whose total is `t`. */
  function CountTotal(rows: seq<Row>, t: real): nat {
    |Filter(rows, HasTotal(t))|
  }

  /** The Chest Nos of the rows whose total is `t`, in row order. */
  function ChestNosWith(rows: seq<Row>, t: real): seq<Cell> {
    MapSeq(Filter(rows, HasTotal(t)), ChestOf)
  }

  /** `t` counts as a tie: it is above zero and at least two rows have it. */
  predicate IsTiedTotal(rows: seq<Row>, t: real) {
    t > 0.0 && CountTotal(rows, t) >= 2
  }

  /**
    `groups` is the tie dictionary of `rows`: its totals strictly decrease,
    each is a tie whose Chest Nos are those of the rows with that total (in
    some order), and every tie has an entry.
   */
  ghost predicate IsTieMap(groups: seq<TieGroup>, rows: seq<Row>) {
    && (forall i, j :: 0 <= i < j < |groups| ==> groups[i].total > groups[j].total)
    && (forall i :: 0 <= i < |groups| ==>
          && IsTiedTotal(rows, groups[i].total)
          && multiset(groups[i].chestNos) == multiset(ChestNosWith(rows, groups[i].total)))
    && (forall t :: IsTiedTotal(rows, t) ==> exists i :: 0 <= i < |groups| && groups[i].total == t)
  }

  /** Chest No `c` is listed in some tie group. */
  predicate InSomeGroup(groups: seq<TieGroup>, c: Cell) {
    exists g :: 0 <= g < |groups| && c in groups[g].chestNos
  }

  function Positive(): Row -> bool {
    r => Total(r) > 0.0
  }

  function Duplicated(rows: seq<Row>): Row -> bool {
    r => CountTotal(rows, Total(r)) >= 2
  }

  /** `tie_groups[mark] = list(ties[ties['total marks'] == mark]['Chest No'])`. */
  function GroupFor(ties: seq<Row>, mark: real): TieGroup {
    TieGroup(mark, MapSeq(Filter(ties, HasTotal(mark)), ChestOf))
  }

  /** `df[df['total marks'] > 0]`, then the rows whose total occurs more than once there (`duplicated(keep=False)`). */
  function TieCandidates(rows: seq<Row>): seq<Row> {
    var nonZero := Filter(rows, Positive());
    Filter(nonZero, Duplicated(nonZero))
  }

  /** `identify_ties`: the dictionary is filled in a loop over the distinct totals of the sorted candidates. */
  method IdentifyTies(rows: seq<Row>) returns (groups: seq<TieGroup>)
    ensures IsTieMap(groups, rows)
  {
    var ties := SortDesc(TieCandidates(rows), Total);
    groups := [];
    if ties != [] {
      var marks := Distinct(MapSeq(ties, Total));
      groups := FillGroups(ties, marks);
      TieGroupsCorrect(rows, ties, marks, groups);
    } else {
      forall t | IsTiedTotal(rows, t)
        ensures false
      {
        TiedIsListed(rows, ties, t);
      }
    }
  }

  /** The loop of `identify_ties`: one dictionary entry per total in `marks`, in that order. */
  method FillGroups(ties: seq<Row>, marks: seq<real>) returns (groups: seq<TieGroup>)
    ensures |groups| == |marks|
    ensures forall i :: 0 <= i < |marks| ==> groups[i] == GroupFor(ties, marks[i])
  {
    groups := [];
    for k := 0 to |marks|
      invariant |groups| == k
      invariant forall i :: 0 <= i < k ==> groups[i] == GroupFor(ties, marks[i])
    {
      groups := groups + [GroupFor(ties, marks[k])];
    }
  }

  /** For a positive `t`, dropping the rows with total 0 or less keeps every row with total `t`. */
  lemma NonZeroKeepsTotal(rows: seq<Row>, t: real)
    requires t > 0.0
    ensures Filter(Filter(rows, Positive()), HasTotal(t)) == Filter(rows, HasTotal(t))
  {
    FilterOfFilter(rows, Positive(), HasTotal(t));
  }

  /** The candidates with a tied total `t` are all the rows with total `t`. */
  lemma CandidatesWithTotal(rows: seq<Row>, t: real)
    requires IsTiedTotal(rows, t)
    ensures Filter(TieCandidates(rows), HasTotal(t)) == Filter(rows, HasTotal(t))
  {
    var nonZero := Filter(rows, Positive());
    NonZeroKeepsTotal(rows, t);
    FilterOfFilter(nonZero, Duplicated(nonZero), HasTotal(t));
  }

  /** Every candidate has a tied total. */
  lemma CandidateIsTied(rows: seq<Row>, ties: seq<Row>, j: int)
    requires multiset(ties) == multiset(TieCandidates(rows)) && 0 <= j < |ties|
    ensures IsTiedTotal(rows, Total(ties[j]))
  {
    var nonZero := Filter(rows, Positive());
    var candidates := TieCandidates(rows);
    PermutationMembers(candidates, ties, j);
    var i :| 0 <= i < |candidates| && candidates[i] == ties[j];
    FilterMember(nonZero, Duplicated(nonZero), i);
    var h :| 0 <= h < |nonZero| && nonZero[h] == ties[j];
    FilterMember(rows, Positive(), h);
    NonZeroKeepsTotal(rows, Total(ties[j]));
  }

  /** A tied total is the total of some candidate. */
  lemma TiedIsListed(rows: seq<Row>, ties: seq<Row>, t: real)
    requires multiset(ties) == multiset(TieCandidates(rows)) && IsTiedTotal(rows, t)
    ensures exists j :: 0 <= j < |ties| && Total(ties[j]) == t
  {
    var nonZero := Filter(rows, Positive());
    var withT := Filter(rows, HasTotal(t));
    FilterMember(rows, HasTotal(t), 0);
    var x := withT[0];
    var h :| 0 <= h < |rows| && rows[h] == x;
    FilterKeeps(rows, Positive(), h);
    NonZeroKeepsTotal(rows, t);
    var i :| 0 <= i < |nonZero| && nonZero[i] == x;
    FilterKeeps(nonZero, Duplicated(nonZero), i);
    assert x in multiset(ties);
  }

  /** The chest list built for a tied total holds the Chest Nos of exactly the rows with that total. */
  lemma GroupChests(rows: seq<Row>, ties: seq<Row>, t: real)
    requires multiset(ties) == multiset(TieCandidates(rows)) && IsTiedTotal(rows, t)
    ensures multiset(MapSeq(Filter(ties, HasTotal(t)), ChestOf)) == multiset(ChestNosWith(rows, t))
  {
    FilterPermutation(ties, TieCandidates(rows), HasTotal(t));
    CandidatesWithTotal(rows, t);
    MapPermutation(Filter(ties, HasTotal(t)), Filter(rows, HasTotal(t)), ChestOf);
  }

  /** The groups a loop over `marks` builds: one per distinct total of `ties`, with the Chest Nos under it. */
  ghost predicate BuiltFrom(groups: seq<TieGroup>, ties: seq<Row>, marks: seq<real>) {
    && marks == Distinct(MapSeq(ties, Total))
    && |groups| == |marks|
    && forall i :: 0 <= i < |marks| ==> groups[i] == GroupFor(ties, marks[i])
  }

  /** The groups the loop of `IdentifyTies` builds form the tie dictionary. */
  lemma TieGroupsCorrect(rows: seq<Row>, ties: seq<Row>, marks: seq<real>, groups: seq<TieGroup>)
    requires multiset(ties) == multiset(TieCandidates(rows)) && SortedDesc(ties, Total)
    requires BuiltFrom(groups, ties, marks)
    ensures IsTieMap(groups, rows)
  {
    DistinctOfDescending(MapSeq(ties, Total));
    TieGroupsSound(rows, ties, marks, groups);
    TieGroupsComplete(rows, ties, marks, groups);
  }

  lemma TieGroupsSound(rows: seq<Row>, ties: seq<Row>, marks: seq<real>, groups: seq<TieGroup>)
    requires multiset(ties) == multiset(TieCandidates(rows))
    requires BuiltFrom(groups, ties, marks)
    ensures forall i :: 0 <= i < |groups| ==>
              && IsTiedTotal(rows, groups[i].total)
              && multiset(groups[i].chestNos) == multiset(ChestNosWith(rows, groups[i].total))
  {
    var totals := MapSeq(ties, Total);
    forall i | 0 <= i < |groups|
      ensures IsTiedTotal(rows, groups[i].total)
      ensures multiset(groups[i].chestNos) == multiset(ChestNosWith(rows, groups[i].total))
    {
      var j :| 0 <= j < |totals| && totals[j] == marks[i];
      CandidateIsTied(rows, ties, j);
      GroupChests(rows, ties, marks[i]);
    }
  }

  lemma TieGroupsComplete(rows: seq<Row>, ties: seq<Row>, marks: seq<real>, groups: seq<TieGroup>)
    requires multiset(ties) == multiset(TieCandidates(rows))
    requires BuiltFrom(groups, ties, marks)
    ensures forall t :: IsTiedTotal(rows, t) ==> exists i :: 0 <= i < |groups| && groups[i].total == t
  {
    var totals := MapSeq(ties, Total);
    forall t | IsTiedTotal(rows, t)
      ensures exists i :: 0 <= i < |groups| && groups[i].total == t
    {
      TiedIsListed(rows, ties, t);
      var j :| 0 <= j < |ties| && Total(ties[j]) == t;
      assert totals[j] == t;
      var i :| 0 <= i < |marks| && marks[i] == t;
      assert groups[i].total == t;
    }
  }

  /** A row whose total is tied has its Chest No listed in the tie dictionary. */
  lemma TiedRowListed(groups: seq<TieGroup>, rows: seq<Row>, i: int)
    requires IsTieMap(groups, rows) && 0 <= i < |rows| && IsTiedTotal(rows, Total(rows[i]))
    ensures InSomeGroup(groups, ChestOf(rows[i]))
  {
    var t := Total(rows[i]);
    var g :| 0 <= g < |groups| && groups[g].total == t;
    FilterKeeps(rows, HasTotal(t), i);
    var withT := Filter(rows, HasTotal(t));
    var h :| 0 <= h < |withT| && withT[h] == rows[i];
    assert ChestNosWith(rows, t)[h] == ChestOf(rows[i]);
    assert ChestOf(rows[i]) in multiset(ChestNosWith(rows, t));
  }

  /** A Chest No listed in the tie dictionary belongs to a row whose total is tied. */
  lemma ListedChestIsTied(groups: seq<TieGroup>, rows: seq<Row>, c: Cell)
    requires IsTieMap(groups, rows) && InSomeGroup(groups, c)
    ensures exists j :: 0 <= j < |rows| && ChestOf(rows[j]) == c && IsTiedTotal(rows, Total(rows[j]))
  {
    var g :| 0 <= g < |groups| && c in groups[g].chestNos;
    var t := groups[g].total;
    assert c in multiset(ChestNosWith(rows, t));
    var withT := Filter(rows, HasTotal(t));
    var h :| 0 <= h < |withT| && ChestOf(withT[h]) == c;
    FilterMember(rows, HasTotal(t), h);
    var j :| 0 <= j < |rows| && rows[j] == withT[h];
  }

  /**
    When no two rows share a Chest No, a row's Chest No is listed exactly
    when its total is tied.
   */
  lemma ListedIffTied(groups: seq<TieGroup>, rows: seq<Row>, i: int)
    requires IsTieMap(groups, rows) && NoDup(Column(rows, CHEST_NO)) && 0 <= i < |rows|
    ensures InSomeGroup(groups, ChestOf(rows[i])) <==> IsTiedTotal(rows, Total(rows[i]))
  {
    if IsTiedTotal(rows, Total(rows[i])) {
      TiedRowListed(groups, rows, i);
    }
    if InSomeGroup(groups, ChestOf(rows[i])) {
      ListedChestIsTied(groups, rows, ChestOf(rows[i]));
      var j :| 0 <= j < |rows| && ChestOf(rows[j]) == ChestOf(rows[i]) && IsTiedTotal(rows, Total(rows[j]));
      assert Column(rows, CHEST_NO)[j] == Column(rows, CHEST_NO)[i];
    }
  }

  /** Two rows share a total above zero. */
  predicate SharedPositiveTotal(rows: seq<Row>) {
    exists i, j :: 0 <= i < j < |rows| && Total(rows[i]) > 0.0 && Total(rows[i]) == Total(rows[j])
  }

  /** The tie dictionary has an entry exactly when two rows share a total above zero. */
  lemma TieMapEmptyIff(groups: seq<TieGroup>, rows: seq<Row>)
    requires IsTieMap(groups, rows)
    ensures |groups| > 0 <==> SharedPositiveTotal(rows)
  {
    if |groups| > 0 && !SharedPositiveTotal(rows) {
      var t := groups[0].total;
      FilterAtMostOne(rows, HasTotal(t));
      assert false;
    }
    if SharedPositiveTotal(rows) {
      var i, j :| 0 <= i < j < |rows| && Total(rows[i]) > 0.0 && Total(rows[i]) == Total(rows[j]);
      FilterTwo(rows, HasTotal(Total(rows[i])), i, j);
      assert IsTiedTotal(rows, Total(rows[i]));
    }
  }

  /** The tie dictionary sees only totals and Chest Nos: rows that agree on both, position by position, have the same one. */
  lemma TieMapAlike(groups: seq<TieGroup>, a: seq<Row>, b: seq<Row>)
    requires |a| == |b| && forall i :: 0 <= i < |a| ==> Total(a[i]) == Total(b[i]) && ChestOf(a[i]) == ChestOf(b[i])
    requires IsTieMap(groups, a)
    ensures IsTieMap(groups, b)
  {
    forall t
      ensures CountTotal(a, t) == CountTotal(b, t) && ChestNosWith(a, t) == ChestNosWith(b, t)
    {
      FilterMapAlike(a, b, HasTotal(t), ChestOf);
      assert |ChestNosWith(a, t)| == CountTotal(a, t);
    }
    SameCountsSameTieMap(groups, a, b);
  }

  /** The tie dictionary does not depend on row order. */
  lemma TieMapPermutation(groups: seq<TieGroup>, a: seq<Row>, b: seq<Row>)
    requires multiset(a) == multiset(b) && IsTieMap(groups, a)
    ensures IsTieMap(groups, b)
  {
    forall t
      ensures CountTotal(a, t) == CountTotal(b, t)
      ensures multiset(ChestNosWith(a, t)) == multiset(ChestNosWith(b, t))
    {
      FilterPermutation(a, b, HasTotal(t));
      assert |multiset(Filter(a, HasTotal(t)))| == CountTotal(a, t);
      assert |multiset(Filter(b, HasTotal(t)))| == CountTotal(b, t);
      MapPermutation(Filter(a, HasTotal(t)), Filter(b, HasTotal(t)), ChestOf);
    }
    SameCountsSameTieMap(groups, a, b);
  }

  /** Rows with the same count and the same Chest Nos for every total have the same tie dictionary. */
  lemma SameCountsSameTieMap(groups: seq<TieGroup>, a: seq<Row>, b: seq<Row>)
    requires forall t :: CountTotal(a, t) == CountTotal(b, t)
    requires forall t :: multiset(ChestNosWith(a, t)) == multiset(ChestNosWith(b, t))
    requires IsTieMap(groups, a)
    ensures IsTieMap(groups, b)
  {
    forall t | IsTiedTotal(b, t)
      ensures exists i :: 0 <= i < |groups| && groups[i].total == t
    {
      assert IsTiedTotal(a, t);
    }
  }
}
