/**
 * The order grouped updates are applied in (stateUpdaterArray.Less in
 * state/updater.go and statemanager/updater.go): ascending group priority,
 * then ascending name. sort.Sort is modelled by an insertion sort proved to
 * return a sorted permutation; when no two distinct updaters share a rank
 * that permutation is the only sorted one, so the model loses nothing by
 * fixing the order an unstable sort would pick.
 */
module Ordering {
  import opened GoBase

  /** What Less compares: the group priority, then the name. */
  datatype Rank = Rank(priority: nat, name: string)

  /** stateUpdaterArray.Less */
  predicate RankLess(a: Rank, b: Rank)
  {
    if a.priority < b.priority then true
    else if a.priority > b.priority then false
    else StringLess(a.name, b.name)
  }

  lemma RankLessIrreflexive(a: Rank)
    ensures !RankLess(a, a)
  {
    StringLessIrreflexive(a.name);
  }

  lemma RankLessTransitive(a: Rank, b: Rank, c: Rank)
    requires RankLess(a, b) && RankLess(b, c)
    ensures RankLess(a, c)
  {
    if a.priority == b.priority == c.priority {
      StringLessTransitive(a.name, b.name, c.name);
    }
  }

  lemma RankLessTotal(a: Rank, b: Rank)
    ensures a == b || RankLess(a, b) || RankLess(b, a)
  {
    StringLessTotal(a.name, b.name);
  }

  lemma RankLessAsymmetric(a: Rank, b: Rank)
    requires RankLess(a, b)
    ensures !RankLess(b, a)
  {
    if a.priority == b.priority {
      StringLessAsymmetric(a.name, b.name);
    }
  }

  /** No later element ranks strictly below an earlier one. */
  ghost predicate SortedBy<T>(s: seq<T>, rank: T -> Rank)
  {
    forall i, j :: 0 <= i < j < |s| ==> !RankLess(rank(s[j]), rank(s[i]))
  }

  /** Insert `x` before the first element that ranks strictly above it. */
  function Insert<T>(x: T, s: seq<T>, rank: T -> Rank): (r: seq<T>)
    requires SortedBy(s, rank)
    ensures multiset(r) == multiset(s) + multiset{x}
    ensures SortedBy(r, rank)
  {
    if |s| == 0 then [x]
    else if RankLess(rank(s[0]), rank(x)) || rank(s[0]) == rank(x) then
      var tail := Insert(x, s[1..], rank);
      assert s == [s[0]] + s[1..];
      InsertKeepsHead(s[0], x, s[1..], tail, rank);
      [s[0]] + tail
    else
      InsertAtFront(x, s, rank);
      [x] + s
  }

  lemma InsertAtFront<T>(x: T, s: seq<T>, rank: T -> Rank)
    requires SortedBy(s, rank) && |s| > 0
    requires !RankLess(rank(s[0]), rank(x)) && rank(s[0]) != rank(x)
    ensures SortedBy([x] + s, rank)
  {
    RankLessTotal(rank(s[0]), rank(x));
    forall j | 0 < j < |[x] + s|
      ensures !RankLess(rank(([x] + s)[j]), rank(x))
    {
      var y := s[j - 1];
      if j - 1 > 0 {
        assert !RankLess(rank(y), rank(s[0]));
        RankLessTotal(rank(y), rank(s[0]));
        if RankLess(rank(y), rank(x)) {
          if rank(y) == rank(s[0]) {
          } else {
            RankLessTransitive(rank(s[0]), rank(y), rank(x));
          }
        }
      } else {
        RankLessAsymmetric(rank(x), rank(s[0]));
      }
    }
  }

  lemma InsertKeepsHead<T>(h: T, x: T, s: seq<T>, tail: seq<T>, rank: T -> Rank)
    requires SortedBy([h] + s, rank)
    requires RankLess(rank(h), rank(x)) || rank(h) == rank(x)
    requires multiset(tail) == multiset(s) + multiset{x}
    requires SortedBy(tail, rank)
    ensures SortedBy([h] + tail, rank)
  {
    forall j | 0 <= j < |tail|
      ensures !RankLess(rank(tail[j]), rank(h))
    {
      assert tail[j] in multiset(tail);
      if tail[j] == x {
        if RankLess(rank(h), rank(x)) {
          RankLessAsymmetric(rank(h), rank(x));
        } else {
          RankLessIrreflexive(rank(h));
        }
      } else {
        assert tail[j] in multiset(s);
        var i :| 0 <= i < |s| && s[i] == tail[j];
        assert ([h] + s)[i + 1] == s[i] && ([h] + s)[0] == h;
      }
    }
  }

  /** sort.Sort(stateUpdaterArray(u)), as an insertion sort. */
  function SortBy<T>(s: seq<T>, rank: T -> Rank): (r: seq<T>)
    ensures multiset(r) == multiset(s)
    ensures SortedBy(r, rank)
  {
    if |s| == 0 then []
    else
      assert s == s[..|s| - 1] + [s[|s| - 1]];
      Insert(s[|s| - 1], SortBy(s[..|s| - 1], rank), rank)
  }

  /** Two sorted runs, the second ranked nowhere below the first, make a sorted whole. */
  lemma SortedAppend<T>(a: seq<T>, b: seq<T>, rank: T -> Rank)
    requires SortedBy(a, rank) && SortedBy(b, rank)
    requires forall i, j :: 0 <= i < |a| && 0 <= j < |b| ==> !RankLess(rank(b[j]), rank(a[i]))
    ensures SortedBy(a + b, rank)
  {
    forall i, j | 0 <= i < j < |a + b|
      ensures !RankLess(rank((a + b)[j]), rank((a + b)[i]))
    {
      if j < |a| {
        assert (a + b)[i] == a[i] && (a + b)[j] == a[j];
      } else if i < |a| {
        assert (a + b)[i] == a[i] && (a + b)[j] == b[j - |a|];
      } else {
        assert (a + b)[i] == b[i - |a|] && (a + b)[j] == b[j - |a|];
      }
    }
  }

  /** A run of one repeated element is sorted. */
  lemma SortedRepeat<T>(a: seq<T>, x: T, rank: T -> Rank)
    requires forall i :: 0 <= i < |a| ==> a[i] == x
    ensures SortedBy(a, rank)
  {
    RankLessIrreflexive(rank(x));
  }

  /** Distinct elements of `s` have distinct ranks. */
  ghost predicate RankInjective<T>(s: seq<T>, rank: T -> Rank)
  {
    forall i, j :: 0 <= i < |s| && 0 <= j < |s| && rank(s[i]) == rank(s[j]) ==> s[i] == s[j]
  }

  /** Two sorted rearrangements of each other start with the same element. */
  lemma SameHead<T>(a: seq<T>, b: seq<T>, rank: T -> Rank)
    requires multiset(a) == multiset(b) && |a| > 0
    requires SortedBy(a, rank) && SortedBy(b, rank)
    requires RankInjective(a, rank)
    ensures |b| > 0 && a[0] == b[0]
  {
    assert a[0] in multiset(b);
    var j :| 0 <= j < |b| && b[j] == a[0];
    assert b[0] in multiset(a);
    var i :| 0 <= i < |a| && a[i] == b[0];
    if i > 0 { assert !RankLess(rank(a[i]), rank(a[0])); }
    if j > 0 { assert !RankLess(rank(b[j]), rank(b[0])); }
    RankLessTotal(rank(a[0]), rank(b[0]));
  }

  /** Dropping equal heads keeps the rest a sorted, injective rearrangement. */
  lemma SameTail<T>(a: seq<T>, b: seq<T>)
    requires multiset(a) == multiset(b) && |a| > 0 && |b| > 0 && a[0] == b[0]
    ensures multiset(a[1..]) == multiset(b[1..])
  {
    assert a == [a[0]] + a[1..] && b == [b[0]] + b[1..];
    assert multiset(a[1..]) == multiset(a) - multiset{a[0]};
    assert multiset(b[1..]) == multiset(b) - multiset{b[0]};
  }

  /** Dropping the first element keeps a sequence sorted. */
  lemma SortedTail<T>(s: seq<T>, rank: T -> Rank)
    requires |s| > 0 && SortedBy(s, rank)
    ensures SortedBy(s[1..], rank)
  {
    forall i, j | 0 <= i < j < |s| - 1
      ensures !RankLess(rank(s[1..][j]), rank(s[1..][i]))
    {
      assert s[1..][i] == s[i + 1] && s[1..][j] == s[j + 1];
    }
  }

  /**
   * Any sorted rearrangement of `s` equals SortBy's, when equal ranks mean
   * equal elements: whatever order sort.Sort settles on, it is this one.
   */
  lemma {:induction false} SortedPermutationUnique<T>(a: seq<T>, b: seq<T>, rank: T -> Rank)
    requires multiset(a) == multiset(b)
    requires SortedBy(a, rank) && SortedBy(b, rank)
    requires RankInjective(a, rank)
    ensures a == b
    decreases |a|
  {
    assert |a| == |multiset(a)| == |multiset(b)| == |b|;
    if |a| > 0 {
      SameHead(a, b, rank);
      SameTail(a, b);
      SortedTail(a, rank);
      SortedTail(b, rank);
      assert RankInjective(a[1..], rank) by {
        forall i, j | 0 <= i < |a| - 1 && 0 <= j < |a| - 1 && rank(a[1..][i]) == rank(a[1..][j])
          ensures a[1..][i] == a[1..][j]
        {
          assert a[1..][i] == a[i + 1] && a[1..][j] == a[j + 1];
        }
      }
      SortedPermutationUnique(a[1..], b[1..], rank);
      assert a == [a[0]] + a[1..] && b == [b[0]] + b[1..];
    }
  }
}
