/**
  Sequence helpers behind the table operations: boolean-mask filtering,
  element-wise mapping, order-preserving de-duplication and sums, with the
  facts about them that the scoring proofs use.
 */
module Seqs {

  /** `s` holds no element twice. */
  predicate NoDup<T(==)>(s: seq<T>) {
    forall i, j :: 0 <= i < j < |s| ==> s[i] != s[j]
  }

  function Min(a: int, b: int): int { if a <= b then a else b }

  function Max(a: int, b: int): int { if a <= b then b else a }

  /** The elements of `s` that satisfy `p`, in their original order (a boolean mask). */
  function Filter<T>(s: seq<T>, p: T -> bool): (r: seq<T>)
    ensures |r| <= |s|
  {
    if s == [] then [] else (if p(s[0]) then [s[0]] else []) + Filter(s[1..], p)
  }

  /** Every kept element comes from `s` and passes the mask. */
  lemma {:induction false} FilterMember<T>(s: seq<T>, p: T -> bool, k: int)
    requires 0 <= k < |Filter(s, p)|
    ensures Filter(s, p)[k] in s && p(Filter(s, p)[k])
  {
    if p(s[0]) && k == 0 {
    } else if p(s[0]) {
      FilterMember(s[1..], p, k - 1);
    } else {
      FilterMember(s[1..], p, k);
    }
  }

  /** An element that passes the mask is kept. */
  lemma {:induction false} FilterKeeps<T>(s: seq<T>, p: T -> bool, k: int)
    requires 0 <= k < |s| && p(s[k])
    ensures s[k] in Filter(s, p)
  {
    if k > 0 {
      FilterKeeps(s[1..], p, k - 1);
    }
  }

  /** `f` applied to every element of `s`. */
  function MapSeq<T, U>(s: seq<T>, f: T -> U): seq<U> {
    seq(|s|, i requires 0 <= i < |s| => f(s[i]))
  }

  /** The elements of `s` without repetitions, each at its first appearance (pandas `unique`). */
  function Distinct<T(==)>(s: seq<T>): (r: seq<T>)
    ensures NoDup(r)
    ensures forall i :: 0 <= i < |r| ==> r[i] in s
    ensures forall i :: 0 <= i < |s| ==> s[i] in r
  {
    if s == [] then []
    else
      var d := Distinct(s[..|s| - 1]);
      assert forall i :: 0 <= i < |s| - 1 ==> s[i] == s[..|s| - 1][i];
      if s[|s| - 1] in d then d else d + [s[|s| - 1]]
  }

  function Sum(s: seq<real>): real {
    if s == [] then 0.0 else s[0] + Sum(s[1..])
  }

  /** A permutation of a non-empty `a` holds its first element at some `k`, and the rest of `a` is a permutation of `b` without that element. */
  lemma PermutationSplit<T>(a: seq<T>, b: seq<T>) returns (k: int)
    requires multiset(a) == multiset(b) && a != []
    ensures 0 <= k < |b| && b[k] == a[0]
    ensures multiset(a[1..]) == multiset(b[..k] + b[k + 1..])
  {
    assert a[0] in b by {
      assert a[0] in multiset(a);
    }
    k := Find(b, a[0]);
    var restA, restB := multiset(a[1..]), multiset(b[..k] + b[k + 1..]);
    assert restB + multiset{a[0]} == multiset(b) by {
      RemoveAt(b, k);
    }
    assert restA + multiset{a[0]} == multiset(a) by {
      RemoveAt(a, 0);
      assert a[..0] + a[1..] == a[1..];
    }
    Cancel(restA, restB, a[0]);
  }

  /** A position of `x` in `s`. */
  lemma {:induction false} Find<T>(s: seq<T>, x: T) returns (k: int)
    requires x in s
    ensures 0 <= k < |s| && s[k] == x
  {
    if s[0] == x {
      k := 0;
    } else {
      assert x in s[1..];
      k := Find(s[1..], x);
      k := k + 1;
    }
  }

  /** A prefix of a sequence without repetitions has none. */
  lemma NoDupPrefix<T>(s: seq<T>, n: int)
    requires NoDup(s) && 0 <= n <= |s|
    ensures NoDup(s[..n])
  {
    var front := s[..n];
    forall i, j | 0 <= i < j < |front|
      ensures front[i] != front[j]
    {
      assert front[i] == s[i] && front[j] == s[j];
    }
  }

  /** Filtering commutes with reordering: permuted inputs give permuted results. */
  lemma {:induction false} FilterPermutation<T>(a: seq<T>, b: seq<T>, p: T -> bool)
    requires multiset(a) == multiset(b)
    ensures multiset(Filter(a, p)) == multiset(Filter(b, p))
    ensures |Filter(a, p)| == |Filter(b, p)|
    decreases |a|
  {
    if a == [] {
      assert |b| == |multiset(b)| == 0;
    } else {
      var k := PermutationSplit(a, b);
      FilterPermutation(a[1..], b[..k] + b[k + 1..], p);
      assert b == b[..k] + [a[0]] + b[k + 1..];
      assert a == [] + [a[0]] + a[1..];
      FilterRemoveMiddle(b[..k], a[0], b[k + 1..], p);
      FilterRemoveMiddle([], a[0], a[1..], p);
    }
    assert |multiset(Filter(a, p))| == |Filter(a, p)|;
  }

  /** Filtering with one element taken out of the middle. */
  lemma FilterRemoveMiddle<T>(front: seq<T>, x: T, back: seq<T>, p: T -> bool)
    ensures multiset(Filter(front + [x] + back, p)) == multiset(Filter(front + back, p)) + multiset(Filter([x], p))
  {
    FilterConcat(front + [x], back, p);
    FilterConcat(front, [x], p);
    FilterConcat(front, back, p);
  }

  lemma {:induction false} FilterConcat<T>(a: seq<T>, b: seq<T>, p: T -> bool)
    ensures Filter(a + b, p) == Filter(a, p) + Filter(b, p)
  {
    if a == [] {
      assert a + b == b;
    } else {
      var head := if p(a[0]) then [a[0]] else [];
      assert Filter(a + b, p) == head + Filter(a[1..] + b, p) by {
        assert (a + b)[0] == a[0] && (a + b)[1..] == a[1..] + b;
      }
      FilterConcat(a[1..], b, p);
      assert Filter(a, p) == head + Filter(a[1..], p);
    }
  }

  lemma {:induction false} FilterNone<T>(s: seq<T>, p: T -> bool)
    requires forall i :: 0 <= i < |s| ==> !p(s[i])
    ensures Filter(s, p) == []
  {
    if s != [] {
      FilterNone(s[1..], p);
    }
  }

  lemma {:induction false} FilterAll<T>(s: seq<T>, p: T -> bool)
    requires forall i :: 0 <= i < |s| ==> p(s[i])
    ensures Filter(s, p) == s
  {
    if s != [] {
      FilterAll(s[1..], p);
    }
  }

  /** A mask that rejects one element keeps fewer than all elements. */
  lemma {:induction false} FilterSkips<T>(s: seq<T>, p: T -> bool, k: int)
    requires 0 <= k < |s| && !p(s[k])
    ensures |Filter(s, p)| < |s|
  {
    if k > 0 {
      FilterSkips(s[1..], p, k - 1);
    }
  }

  /** A weaker mask keeps at least as many elements, and strictly more when it keeps an element the stronger one drops. */
  lemma {:induction false} FilterWeaker<T>(s: seq<T>, p: T -> bool, q: T -> bool, k: int)
    requires forall x :: p(x) ==> q(x)
    ensures |Filter(s, p)| <= |Filter(s, q)|
    ensures 0 <= k < |s| && q(s[k]) && !p(s[k]) ==> |Filter(s, p)| < |Filter(s, q)|
  {
    if s != [] {
      FilterWeaker(s[1..], p, q, k - 1);
    }
  }

  /** Two different positions that pass the mask give at least two kept elements. */
  lemma {:induction false} FilterTwo<T>(s: seq<T>, p: T -> bool, i: int, j: int)
    requires 0 <= i < |s| && 0 <= j < |s| && i != j
    requires p(s[i]) && p(s[j])
    ensures |Filter(s, p)| >= 2
  {
    if i == 0 {
      FilterKeeps(s[1..], p, j - 1);
    } else if j == 0 {
      FilterKeeps(s[1..], p, i - 1);
    } else {
      FilterTwo(s[1..], p, i - 1, j - 1);
    }
  }

  /** When at most one position can pass the mask, at most one element is kept. */
  lemma {:induction false} FilterAtMostOne<T>(s: seq<T>, p: T -> bool)
    requires forall i, j :: 0 <= i < j < |s| && p(s[i]) ==> !p(s[j])
    ensures |Filter(s, p)| <= 1
  {
    if s != [] {
      if p(s[0]) {
        forall i | 0 <= i < |s[1..]|
          ensures !p(s[1..][i])
        {
          assert s[1..][i] == s[i + 1];
        }
        FilterNone(s[1..], p);
      } else {
        forall i, j | 0 <= i < j < |s[1..]| && p(s[1..][i])
          ensures !p(s[1..][j])
        {
          assert s[1..][i] == s[i + 1] && s[1..][j] == s[j + 1];
        }
        FilterAtMostOne(s[1..], p);
      }
    }
  }

  /** Filtering twice, where the second mask implies the first, is filtering once. */
  lemma {:induction false} FilterOfFilter<T>(s: seq<T>, p: T -> bool, q: T -> bool)
    requires forall x :: q(x) ==> p(x)
    ensures Filter(Filter(s, p), q) == Filter(s, q)
  {
    if s != [] {
      FilterOfFilter(s[1..], p, q);
      var head := if p(s[0]) then [s[0]] else [];
      FilterConcat(head, Filter(s[1..], p), q);
    }
  }

  lemma {:induction false} FilterNoDup<T>(s: seq<T>, p: T -> bool)
    ensures NoDup(s) ==> NoDup(Filter(s, p))
  {
    if s != [] && NoDup(s) {
      assert NoDup(s[1..]) by {
        forall i, j | 0 <= i < j < |s[1..]|
          ensures s[1..][i] != s[1..][j]
        {
          assert s[1..][i] == s[i + 1] && s[1..][j] == s[j + 1];
        }
      }
      FilterNoDup(s[1..], p);
      forall k | 0 <= k < |Filter(s[1..], p)|
        ensures Filter(s[1..], p)[k] != s[0]
      {
        FilterMember(s[1..], p, k);
      }
      assert s[0] !in s[1..] by {
        forall k | 0 <= k < |s[1..]|
          ensures s[1..][k] != s[0]
        {
          assert s[1..][k] == s[k + 1];
        }
      }
    }
  }

  lemma MapConcat<T, U>(a: seq<T>, b: seq<T>, f: T -> U)
    ensures MapSeq(a + b, f) == MapSeq(a, f) + MapSeq(b, f)
  {
  }

  /**
    Two sequences whose elements agree position by position on the mask and
    on `f` give the same mapped selection.
   */
  lemma {:induction false} FilterMapAlike<T, U>(a: seq<T>, b: seq<T>, p: T -> bool, f: T -> U)
    requires |a| == |b| && forall i :: 0 <= i < |a| ==> p(a[i]) == p(b[i]) && f(a[i]) == f(b[i])
    ensures MapSeq(Filter(a, p), f) == MapSeq(Filter(b, p), f)
  {
    if a != [] {
      assert forall i :: 0 <= i < |a[1..]| ==> p(a[1..][i]) == p(b[1..][i]) && f(a[1..][i]) == f(b[1..][i]) by {
        forall i | 0 <= i < |a[1..]|
          ensures p(a[1..][i]) == p(b[1..][i]) && f(a[1..][i]) == f(b[1..][i])
        {
          assert a[1..][i] == a[i + 1] && b[1..][i] == b[i + 1];
        }
      }
      FilterMapAlike(a[1..], b[1..], p, f);
      var headA := if p(a[0]) then [a[0]] else [];
      var headB := if p(b[0]) then [b[0]] else [];
      MapConcat(headA, Filter(a[1..], p), f);
      MapConcat(headB, Filter(b[1..], p), f);
      assert MapSeq(headA, f) == MapSeq(headB, f);
    }
  }

  /** Taking out the element at `k` takes one copy of it out of the multiset. */
  lemma RemoveAt<T>(b: seq<T>, k: int)
    requires 0 <= k < |b|
    ensures multiset(b) == multiset(b[..k] + b[k + 1..]) + multiset{b[k]}
  {
    var front, back := b[..k], b[k + 1..];
    assert b == front + ([b[k]] + back);
    assert multiset(b) == multiset(front) + (multiset{b[k]} + multiset(back));
    assert multiset(front + back) == multiset(front) + multiset(back);
  }

  /** Two multisets that are equal after adding the same element were equal before. */
  lemma Cancel<T>(a: multiset<T>, b: multiset<T>, x: T)
    requires a + multiset{x} == b + multiset{x}
    ensures a == b
  {
    assert a == (a + multiset{x}) - multiset{x};
    assert b == (b + multiset{x}) - multiset{x};
  }

  /** Mapping a sequence with the element at `k` taken out. */
  lemma MapRemoveAt<T, U>(b: seq<T>, k: int, f: T -> U)
    requires 0 <= k < |b|
    ensures multiset(MapSeq(b, f)) == multiset(MapSeq(b[..k] + b[k + 1..], f)) + multiset{f(b[k])}
  {
    var front, back := b[..k], b[k + 1..];
    assert b == front + [b[k]] + back;
    MapConcat(front + [b[k]], back, f);
    MapConcat(front, [b[k]], f);
    MapConcat(front, back, f);
  }

  /** Mapping commutes with reordering. */
  lemma {:induction false} MapPermutation<T, U>(a: seq<T>, b: seq<T>, f: T -> U)
    requires multiset(a) == multiset(b)
    ensures multiset(MapSeq(a, f)) == multiset(MapSeq(b, f))
    decreases |a|
  {
    if a == [] {
      assert |b| == |multiset(b)| == 0;
    } else {
      var k := PermutationSplit(a, b);
      var restA, restB := multiset(MapSeq(a[1..], f)), multiset(MapSeq(b[..k] + b[k + 1..], f));
      assert restA == restB by {
        MapPermutation(a[1..], b[..k] + b[k + 1..], f);
      }
      assert multiset(MapSeq(b, f)) == restB + multiset{f(a[0])} by {
        MapRemoveAt(b, k, f);
      }
      assert multiset(MapSeq(a, f)) == restA + multiset{f(a[0])} by {
        MapRemoveAt(a, 0, f);
        assert a[..0] + a[1..] == a[1..];
      }
    }
  }

  /** An element occurs at most once in a sequence without repetitions. */
  lemma {:induction false} NoDupCount<T>(s: seq<T>, x: T)
    requires NoDup(s)
    ensures multiset(s)[x] <= 1
  {
    if s != [] {
      assert s == [s[0]] + s[1..];
      assert NoDup(s[1..]) by {
        forall i, j | 0 <= i < j < |s[1..]|
          ensures s[1..][i] != s[1..][j]
        {
          assert s[1..][i] == s[i + 1] && s[1..][j] == s[j + 1];
        }
      }
      NoDupCount(s[1..], x);
      if x == s[0] {
        assert x !in s[1..] by {
          forall k | 0 <= k < |s[1..]|
            ensures s[1..][k] != x
          {
            assert s[1..][k] == s[k + 1];
          }
        }
      }
    }
  }

  /** Freedom from repetition survives reordering. */
  lemma NoDupPermutation<T>(a: seq<T>, b: seq<T>)
    requires multiset(a) == multiset(b) && NoDup(a)
    ensures NoDup(b)
  {
    forall i, j | 0 <= i < j < |b|
      ensures b[i] != b[j]
    {
      if b[i] == b[j] {
        var x := b[i];
        assert b == b[..j] + b[j..];
        assert x in b[..j] && x in b[j..];
        assert multiset(b)[x] == multiset(b[..j])[x] + multiset(b[j..])[x];
        NoDupCount(a, x);
        assert false;
      }
    }
  }

  /** A sequence without repetitions has as many elements as its set. */
  lemma {:induction false} NoDupCardinality<T>(s: seq<T>)
    requires NoDup(s)
    ensures |set x | x in s| == |s|
  {
    if s != [] {
      var init := s[..|s| - 1];
      var last := s[|s| - 1];
      assert NoDup(init) by {
        forall i, j | 0 <= i < j < |init|
          ensures init[i] != init[j]
        {
          assert init[i] == s[i] && init[j] == s[j];
        }
      }
      NoDupCardinality(init);
      assert last !in init by {
        forall k | 0 <= k < |init|
          ensures init[k] != last
        {
          assert init[k] == s[k];
        }
      }
      assert s == init + [last];
      assert (set x | x in s) == (set x | x in init) + {last};
    }
  }

  /** De-duplicating a non-increasing sequence of numbers gives a strictly decreasing one. */
  lemma {:induction false} DistinctOfDescending(s: seq<real>)
    requires forall i, j :: 0 <= i < j < |s| ==> s[i] >= s[j]
    ensures forall i, j :: 0 <= i < j < |Distinct(s)| ==> Distinct(s)[i] > Distinct(s)[j]
  {
    if s != [] {
      var init := s[..|s| - 1];
      var last := s[|s| - 1];
      DistinctOfDescending(init);
      var d := Distinct(init);
      forall y | y in d
        ensures y >= last
      {
        var k :| 0 <= k < |init| && init[k] == y;
        assert init[k] == s[k];
      }
    }
  }
}
