/**
 Ranked selection, shared by the BM25 branch and the fusion step.

 A comparator is given as `better(a, b)`: a is ranked before b.  The specification
 of every selection is rank based: the item at position i of a result is the one
 that exactly i other items beat.  `UniqueTopK` shows that this determines the result,
 and `PruneKeepsTopK` is the law behind every pruning rule of the search loops.
 */
module Ranking {

  /** A strict weak order: what a three-way comparator that ends in a tie-breaker defines. */
  ghost predicate WeakOrder<T(!new)>(better: (T, T) -> bool) {
    && (forall a :: !better(a, a))
    && (forall a, b, c :: better(a, b) && better(b, c) ==> better(a, c))
    && (forall a, b, c :: better(a, c) ==> better(a, b) || better(b, c))
  }

  /** No two members of S compare equal. */
  ghost predicate TotalOn<T(!new)>(better: (T, T) -> bool, S: set<T>) {
    forall a, b :: a in S && b in S && a != b ==> better(a, b) || better(b, a)
  }

  ghost predicate Distinct<T>(s: seq<T>) {
    forall i, j :: 0 <= i < j < |s| ==> s[i] != s[j]
  }

  ghost function Elements<T>(s: seq<T>): (S: set<T>) {
    set x | x in s
  }

  ghost function Beating<T>(better: (T, T) -> bool, S: set<T>, x: T): set<T> {
    set y | y in S && better(y, x)
  }

  /** How many members of S are ranked before x. */
  ghost function Rank<T>(better: (T, T) -> bool, S: set<T>, x: T): nat {
    |Beating(better, S, x)|
  }

  function Min(a: int, b: int): int { if a <= b then a else b }

  /** r lists the k best members of S, best first. */
  ghost predicate IsTopK<T(!new)>(better: (T, T) -> bool, S: set<T>, k: nat, r: seq<T>) {
    && |r| == Min(k, |S|)
    && forall i :: 0 <= i < |r| ==> r[i] in S && Rank(better, S, r[i]) == i
  }

  // ----- sets

  lemma {:induction false} SubsetSize<T>(A: set<T>, B: set<T>)
    requires A <= B
    ensures |A| <= |B|
    ensures |A| == |B| ==> A == B
  {
    assert B == A + (B - A);
    assert |B| == |A| + |B - A|;
  }

  lemma {:induction false} DistinctSize<T>(s: seq<T>)
    requires Distinct(s)
    ensures |Elements(s)| == |s|
  {
    if s == [] {
      assert Elements(s) == {};
    } else {
      var t := s[..|s| - 1];
      DistinctSize(t);
      assert s == t + [s[|s| - 1]];
      assert Elements(s) == Elements(t) + {s[|s| - 1]};
    }
  }

  // ----- rank

  lemma {:induction false} BetterHasSmallerRank<T(!new)>(better: (T, T) -> bool, S: set<T>, a: T, b: T)
    requires WeakOrder(better) && a in S && better(a, b)
    ensures Rank(better, S, a) < Rank(better, S, b)
  {
    var A, B := Beating(better, S, a), Beating(better, S, b);
    assert a in B && a !in A && A <= B;
    SubsetSize(A + {a}, B);
  }

  lemma {:induction false} RankIsMonotone<T(!new)>(better: (T, T) -> bool, S: set<T>, S': set<T>, x: T)
    requires S <= S'
    ensures Rank(better, S, x) <= Rank(better, S', x)
  {
    SubsetSize(Beating(better, S, x), Beating(better, S', x));
  }

  /** At most one sequence lists the k best members of S. */
  lemma {:induction false} UniqueTopK<T(!new)>(better: (T, T) -> bool, S: set<T>, k: nat, r: seq<T>, r': seq<T>)
    requires WeakOrder(better) && TotalOn(better, S)
    requires IsTopK(better, S, k, r) && IsTopK(better, S, k, r')
    ensures r == r'
  {
    forall i | 0 <= i < |r|
      ensures r[i] == r'[i]
    {
      if r[i] != r'[i] {
        if better(r[i], r'[i]) {
          BetterHasSmallerRank(better, S, r[i], r'[i]);
        } else {
          BetterHasSmallerRank(better, S, r'[i], r[i]);
        }
      }
    }
  }

  /** In a total order the rank tells members apart. */
  lemma {:induction false} RankTells<T(!new)>(better: (T, T) -> bool, S: set<T>, a: T, b: T)
    requires WeakOrder(better) && TotalOn(better, S) && a in S && b in S && Rank(better, S, a) == Rank(better, S, b)
    ensures a == b
  {
    if a != b {
      if better(a, b) {
        BetterHasSmallerRank(better, S, a, b);
      } else {
        BetterHasSmallerRank(better, S, b, a);
      }
    }
  }

  /** Whatever is better than one of the k best is listed before it. */
  lemma {:induction false} BetterIsListed<T(!new)>(better: (T, T) -> bool, S: set<T>, k: nat, r: seq<T>, x: T,
                                                   j: nat) returns (i: nat)
    requires WeakOrder(better) && TotalOn(better, S) && IsTopK(better, S, k, r) && j < |r| && x in S && better(x, r[j])
    ensures i < j && r[i] == x
  {
    BetterHasSmallerRank(better, S, x, r[j]);
    i := Rank(better, S, x);
    RankTells(better, S, x, r[i]);
  }

  /** The k best come in order, and before all others. */
  lemma {:induction false} TopKInOrder<T(!new)>(better: (T, T) -> bool, S: set<T>, k: nat, r: seq<T>)
    requires WeakOrder(better) && TotalOn(better, S) && IsTopK(better, S, k, r)
    ensures forall i, j :: 0 <= i < j < |r| ==> better(r[i], r[j])
    ensures forall i, y :: 0 <= i < |r| && y in S && y !in r ==> better(r[i], y)
  {
    forall i, j | 0 <= i < j < |r|
      ensures better(r[i], r[j])
    {
      assert Rank(better, S, r[i]) == i && Rank(better, S, r[j]) == j;
      if !better(r[i], r[j]) {
        BetterHasSmallerRank(better, S, r[j], r[i]);
      }
    }
    forall i, y | 0 <= i < |r| && y in S && y !in r
      ensures better(r[i], y)
    {
      if better(y, r[i]) {
        var l := BetterIsListed(better, S, k, r, y, i);
      }
    }
  }

  /**
   Candidates that k kept candidates beat can be dropped: the k best of the kept
   ones are the k best of all.
   */
  lemma {:induction false} PruneKeepsTopK<T(!new)>(better: (T, T) -> bool, kept: set<T>, all: set<T>, k: nat, r: seq<T>)
    requires WeakOrder(better) && kept <= all
    requires forall x :: x in all - kept ==> Rank(better, kept, x) >= k
    requires IsTopK(better, kept, k, r)
    ensures IsTopK(better, all, k, r)
  {
    if all == kept {
      return;
    }
    SubsetSize(kept, all);
    assert all == kept + (all - kept);
    var x :| x in all - kept;
    SubsetSize(Beating(better, kept, x), kept);
    forall i | 0 <= i < |r|
      ensures Rank(better, all, r[i]) == i
    {
      var K, A := Beating(better, kept, r[i]), Beating(better, all, r[i]);
      forall y | y in A
        ensures y in K
      {
        if y !in kept {
          assert y in all - kept;
          SubsetSize(Beating(better, kept, y), K);
        }
      }
      assert A == K;
    }
  }

  /** The k best members of a prefix of a ranking are its first k. */
  lemma {:induction false} TopKPrefix<T(!new)>(better: (T, T) -> bool, S: set<T>, n: nat, k: nat, r: seq<T>)
    requires k <= n && IsTopK(better, S, n, r)
    ensures IsTopK(better, S, k, r[..Min(k, |r|)])
  {
  }

  // ----- sorting

  ghost predicate Sorted<T(!new)>(better: (T, T) -> bool, s: seq<T>) {
    forall i, j :: 0 <= i < j < |s| ==> !better(s[j], s[i])
  }

  function Insert<T>(better: (T, T) -> bool, x: T, s: seq<T>): seq<T> {
    if s == [] || better(x, s[0]) then [x] + s else [s[0]] + Insert(better, x, s[1..])
  }

  /** What `qsort` with the comparator leaves behind. */
  function SortBy<T>(better: (T, T) -> bool, s: seq<T>): seq<T> {
    if s == [] then [] else Insert(better, s[0], SortBy(better, s[1..]))
  }

  lemma {:induction false} SortedCons<T(!new)>(better: (T, T) -> bool, x: T, s: seq<T>)
    requires Sorted(better, s) && forall y :: y in s ==> !better(y, x)
    ensures Sorted(better, [x] + s)
  {
  }

  lemma {:induction false} InsertPermutes<T>(better: (T, T) -> bool, x: T, s: seq<T>)
    ensures multiset(Insert(better, x, s)) == multiset{x} + multiset(s)
  {
    if !(s == [] || better(x, s[0])) {
      InsertPermutes(better, x, s[1..]);
      assert s == [s[0]] + s[1..];
    }
  }

  /** What comes before the first of a sorted sequence comes before all of it. */
  lemma {:induction false} BeforeFirst<T(!new)>(better: (T, T) -> bool, x: T, s: seq<T>)
    requires WeakOrder(better) && Sorted(better, s) && s != [] && better(x, s[0])
    ensures forall y :: y in s ==> !better(y, x)
  {
    forall y | y in s
      ensures !better(y, x)
    {
      var j :| 0 <= j < |s| && s[j] == y;
      assert j > 0 ==> !better(s[j], s[0]);
    }
  }

  lemma {:induction false} InsertSorts<T(!new)>(better: (T, T) -> bool, x: T, s: seq<T>)
    requires WeakOrder(better) && Sorted(better, s)
    ensures Sorted(better, Insert(better, x, s))
    ensures multiset(Insert(better, x, s)) == multiset{x} + multiset(s)
  {
    InsertPermutes(better, x, s);
    if s == [] || better(x, s[0]) {
      if s != [] {
        BeforeFirst(better, x, s);
      }
      SortedCons(better, x, s);
    } else {
      InsertSorts(better, x, s[1..]);
      var t := Insert(better, x, s[1..]);
      forall y | y in t
        ensures !better(y, s[0])
      {
        assert y in multiset{x} + multiset(s[1..]);
        if y != x {
          assert y in s[1..];
        }
      }
      SortedCons(better, s[0], t);
    }
  }

  lemma {:induction false} SortBySorts<T(!new)>(better: (T, T) -> bool, s: seq<T>)
    requires WeakOrder(better)
    ensures Sorted(better, SortBy(better, s))
    ensures multiset(SortBy(better, s)) == multiset(s)
  {
    if s != [] {
      SortBySorts(better, s[1..]);
      InsertSorts(better, s[0], SortBy(better, s[1..]));
      assert s == [s[0]] + s[1..];
    }
  }

  lemma {:induction false} SameMultisetDistinct<T>(s: seq<T>, t: seq<T>)
    requires multiset(s) == multiset(t) && Distinct(s)
    ensures Distinct(t) && Elements(s) == Elements(t) && |s| == |t|
  {
    assert |multiset(s)| == |s| && |multiset(t)| == |t|;
    forall x
      ensures x in s <==> x in t
    {
      assert x in s <==> x in multiset(s);
      assert x in t <==> x in multiset(t);
    }
    forall i, j | 0 <= i < j < |t|
      ensures t[i] != t[j]
    {
      if t[i] == t[j] {
        assert t == t[..j] + [t[j]] + t[j + 1..];
        assert t[i] in t[..j];
        assert multiset(t)[t[j]] >= 2;
        OnceInDistinct(s, t[j]);
      }
    }
  }

  lemma {:induction false} OnceInDistinct<T>(s: seq<T>, x: T)
    requires Distinct(s)
    ensures multiset(s)[x] <= 1
  {
    if s != [] {
      assert s == [s[0]] + s[1..];
      OnceInDistinct(s[1..], x);
      if s[0] == x {
        assert x !in s[1..];
      }
    }
  }

  /**
   Sorting a sub-collection `top` of S whose members beat everything else in S gives
   the |top| best members of S.
   */
  lemma {:induction false} SortedIsTopK<T(!new)>(better: (T, T) -> bool, S: set<T>, k: nat, r: seq<T>)
    requires WeakOrder(better) && TotalOn(better, S)
    requires Distinct(r) && Sorted(better, r) && |r| == Min(k, |S|)
    requires Elements(r) <= S
    requires forall x, y :: x in r && y in S && y !in r ==> better(x, y)
    ensures IsTopK(better, S, k, r)
  {
    forall i | 0 <= i < |r|
      ensures r[i] in S && Rank(better, S, r[i]) == i
    {
      var ri := r[i];
      assert ri in Elements(r);
      var B := Beating(better, S, r[i]);
      forall y
        ensures y in B <==> y in r[..i]
      {
        if y in B {
          assert y !in r ==> better(ri, y);
          var j :| 0 <= j < |r| && r[j] == y;
          assert j < i;
          assert r[..i][j] == y;
        }
        if y in r[..i] {
          var j :| 0 <= j < i && r[j] == y;
          assert y in Elements(r) && !better(r[i], y);
        }
      }
      assert B == Elements(r[..i]);
      DistinctSize(r[..i]);
    }
  }

  /** Sorting everything and cutting at k is the reference selection. */
  lemma {:induction false} SortByIsTopK<T(!new)>(better: (T, T) -> bool, s: seq<T>, k: nat)
    requires WeakOrder(better) && TotalOn(better, Elements(s)) && Distinct(s)
    ensures |SortBy(better, s)| == |s|
    ensures IsTopK(better, Elements(s), k, SortBy(better, s)[..Min(k, |s|)])
  {
    var r := SortBy(better, s);
    SortBySorts(better, s);
    SameMultisetDistinct(s, r);
    DistinctSize(s);
    SortedIsTopK(better, Elements(s), |s|, r);
    if k <= |s| {
      TopKPrefix(better, Elements(s), |s|, k, r);
    } else {
      assert r[..|s|] == r;
    }
  }
}
