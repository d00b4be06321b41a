/**
  Descending sort by a numeric score, standing for pandas
  `sort_values(..., ascending=False)`. pandas does not promise an order
  among equal scores, so what callers may rely on is exactly the two
  postconditions of `SortDesc`: the result is ordered and is a
  permutation of the input.
 */
module Sorting {

  /** Scores never increase from left to right. */
  ghost predicate SortedDesc<T>(s: seq<T>, score: T -> real) {
    forall i, j :: 0 <= i < j < |s| ==> score(s[i]) >= score(s[j])
  }

  /** An ordered sequence stays ordered with an element in front that scores at least as much as its first. */
  lemma SortedCons<T>(h: T, t: seq<T>, score: T -> real)
    requires SortedDesc(t, score) && (t == [] || score(h) >= score(t[0]))
    ensures SortedDesc([h] + t, score)
  {
    var r := [h] + t;
    forall i, j | 0 <= i < j < |r|
      ensures score(r[i]) >= score(r[j])
    {
      if i == 0 {
        assert r[j] == t[j - 1] && score(t[0]) >= score(t[j - 1]);
      } else {
        assert r[i] == t[i - 1] && r[j] == t[j - 1];
      }
    }
  }

  /** Dropping the first element keeps a sequence ordered. */
  lemma SortedTail<T>(s: seq<T>, score: T -> real)
    requires SortedDesc(s, score) && s != []
    ensures SortedDesc(s[1..], score)
  {
    var rest := s[1..];
    forall i, j | 0 <= i < j < |rest|
      ensures score(rest[i]) >= score(rest[j])
    {
      assert rest[i] == s[i + 1] && rest[j] == s[j + 1];
    }
  }

  /** Put `x` into `s` before the first element that scores no more than it. */
  function Insert<T>(x: T, s: seq<T>, score: T -> real): (r: seq<T>)
    ensures |r| == |s| + 1
  {
    if s == [] then [x]
    else if score(x) >= score(s[0]) then [x] + s
    else [s[0]] + Insert(x, s[1..], score)
  }

  /** Inserting adds exactly `x`. */
  lemma {:induction false} InsertPermutation<T>(x: T, s: seq<T>, score: T -> real)
    ensures multiset(Insert(x, s, score)) == multiset{x} + multiset(s)
  {
    if s != [] && score(x) < score(s[0]) {
      InsertPermutation(x, s[1..], score);
      assert s == [s[0]] + s[1..];
    }
  }

  /** Inserting into an ordered sequence keeps it ordered; the new first element is `x` or the old one. */
  lemma {:induction false} InsertSorted<T>(x: T, s: seq<T>, score: T -> real)
    requires SortedDesc(s, score)
    ensures SortedDesc(Insert(x, s, score), score)
    ensures Insert(x, s, score)[0] == x || (s != [] && Insert(x, s, score)[0] == s[0])
  {
    if s == [] {
    } else if score(x) >= score(s[0]) {
      SortedCons(x, s, score);
    } else {
      SortedTail(s, score);
      InsertSorted(x, s[1..], score);
      var tail := Insert(x, s[1..], score);
      assert score(s[0]) >= score(tail[0]) by {
        if tail[0] != x {
          assert s[1..][0] == s[1];
        }
      }
      SortedCons(s[0], tail, score);
    }
  }

  function SortDesc<T>(s: seq<T>, score: T -> real): (r: seq<T>)
    ensures multiset(r) == multiset(s)
    ensures SortedDesc(r, score)
  {
    if s == [] then []
    else
      var t := SortDesc(s[1..], score);
      InsertPermutation(s[0], t, score);
      InsertSorted(s[0], t, score);
      assert s == [s[0]] + s[1..];
      Insert(s[0], t, score)
  }

  /** A permutation of `s` has the same length and the same elements. */
  lemma PermutationMembers<T>(s: seq<T>, r: seq<T>, k: int)
    requires multiset(r) == multiset(s)
    ensures |r| == |s|
    ensures 0 <= k < |s| ==> s[k] in r
    ensures 0 <= k < |r| ==> r[k] in s
  {
    assert |multiset(r)| == |r| && |multiset(s)| == |s|;
    if 0 <= k < |s| {
      assert s[k] in multiset(s);
    }
    if 0 <= k < |r| {
      assert r[k] in multiset(r);
    }
  }
}
