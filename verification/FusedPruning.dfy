/**
 Pruning BM25 candidates by the fused-score bound does not change the best fused results.

 The BM25 ranks of the surviving documents shift, so results are compared by everything but
 that rank: node id, heap tid, parts, fused score and position.
 */
module FusedPruning {
  import opened Wrappers
  import opened Ranking
  import opened FusedBound
  import opened Accumulator
  import opened Fusion
  import opened FusedRanking
  import TopKSearch
  import Wand

  // ----- orders that agree on the head of two sets

  lemma {:induction false} HeadIsTopK<T(!new)>(better: (T, T) -> bool, A: set<T>, H: set<T>, k: nat, r: seq<T>)
    requires WeakOrder(better) && H <= A && k <= |H| && IsTopK(better, A, k, r)
    requires forall x, y :: x in H && y in A - H ==> better(x, y)
    ensures IsTopK(better, H, k, r)
  {
    SubsetSize(H, A);
    forall i | 0 <= i < |r|
      ensures r[i] in H && Rank(better, H, r[i]) == i
    {
      if r[i] !in H {
        SubsetSize(H, Beating(better, A, r[i]));
      }
      var x := r[i];
      forall y | y in A - H
        ensures !better(y, x)
      {
        assert better(x, y);
      }
      assert Beating(better, A, x) == Beating(better, H, x);
    }
  }

  /** Two rankings whose heads consist of the same members in the same order have the same first k. */
  lemma {:induction false} AgreeingHeads<T(!new)>(better: (T, T) -> bool, better': (T, T) -> bool, A: set<T>, A': set<T>, H: set<T>,
                               k: nat, r: seq<T>, r': seq<T>)
    requires WeakOrder(better) && WeakOrder(better') && TotalOn(better, A)
    requires H <= A && H <= A' && k <= |H|
    requires forall x, y :: x in H && y in A - H ==> better(x, y)
    requires forall x, y :: x in H && y in A' - H ==> better'(x, y)
    requires forall x, y :: x in H && y in H ==> (better(x, y) <==> better'(x, y))
    requires IsTopK(better, A, k, r) && IsTopK(better', A', k, r')
    ensures r == r'
  {
    HeadIsTopK(better, A, H, k, r);
    HeadIsTopK(better', A', H, k, r');
    forall i | 0 <= i < |r'|
      ensures Rank(better, H, r'[i]) == i
    {
      assert Beating(better, H, r'[i]) == Beating(better', H, r'[i]);
    }
    UniqueTopK(better, H, k, r, r');
  }

  // ----- ranking nodes instead of results

  ghost function At(f: Method, m: map<nat, Result>, n: nat): Result {
    FusedRanking.Scored(f, if n in m then m[n] else Blank(n))
  }

  ghost function NodeOrder(f: Method, m: map<nat, Result>): (nat, nat) -> bool {
    (a: nat, b: nat) => ResultBefore(At(f, m, a), At(f, m, b))
  }

  ghost function Image(f: Method, m: map<nat, Result>, A: set<nat>): set<Result> {
    set n | n in A :: At(f, m, n)
  }

  ghost predicate Keyed(m: map<nat, Result>) {
    forall n :: n in m ==> m[n].node == n
  }

  lemma {:induction false} NotInImage(f: Method, m: map<nat, Result>, A: set<nat>, n: nat)
    requires Keyed(m) && n !in A
    ensures At(f, m, n) !in Image(f, m, A)
  {
    assert forall k :: k in A ==> At(f, m, k).node == k;
  }

  lemma {:induction false} ImageSize(f: Method, m: map<nat, Result>, A: set<nat>)
    requires Keyed(m)
    ensures |Image(f, m, A)| == |A|
    decreases A
  {
    if A != {} {
      var n :| n in A;
      ImageSize(f, m, A - {n});
      assert Image(f, m, A) == Image(f, m, A - {n}) + {At(f, m, n)};
      NotInImage(f, m, A - {n}, n);
    }
  }

  ghost function NodesOf(rs: seq<Result>): (ns: seq<nat>)
    ensures |ns| == |rs| && forall i :: 0 <= i < |rs| ==> ns[i] == rs[i].node
  {
    seq(|rs|, i requires 0 <= i < |rs| => rs[i].node)
  }

  lemma {:induction false} NodeOrderIsTotal(f: Method, m: map<nat, Result>)
    requires Keyed(m)
    ensures WeakOrder(NodeOrder(f, m)) && TotalOn(NodeOrder(f, m), m.Keys)
  {
    BetterIsWeakOrder();
    var g := NodeOrder(f, m);
    forall a: nat, b: nat, c: nat
      ensures !g(a, a)
      ensures g(a, b) && g(b, c) ==> g(a, c)
      ensures g(a, c) ==> g(a, b) || g(b, c)
    {
      OrderAt(At(f, m, a), At(f, m, b), At(f, m, c));
    }
    forall a, b | a in m.Keys && b in m.Keys && a != b
      ensures g(a, b) || g(b, a)
    {
      assert At(f, m, a).node == a && At(f, m, b).node == b;
    }
  }

  lemma {:induction false} OrderAt(x: Result, y: Result, z: Result)
    ensures !ResultBefore(x, x)
    ensures ResultBefore(x, y) && ResultBefore(y, z) ==> ResultBefore(x, z)
    ensures ResultBefore(x, z) ==> ResultBefore(x, y) || ResultBefore(y, z)
  {
  }

  /** The best results of a map are those of its best nodes. */
  lemma {:induction false} RankedNodes(f: Method, m: map<nat, Result>, k: nat, r: seq<Result>)
    requires Keyed(m) && IsTopK(Better, Image(f, m, m.Keys), k, r)
    ensures IsTopK(NodeOrder(f, m), m.Keys, k, NodesOf(r))
    ensures forall i :: 0 <= i < |r| ==> r[i].node in m && r[i] == At(f, m, r[i].node)
  {
    ImageSize(f, m, m.Keys);
    forall i | 0 <= i < |r|
      ensures r[i].node in m && r[i] == At(f, m, r[i].node)
      ensures Rank(NodeOrder(f, m), m.Keys, r[i].node) == i
    {
      var x := r[i].node;
      assert r[i] in Image(f, m, m.Keys);
      var B := Beating(NodeOrder(f, m), m.Keys, x);
      ImageSize(f, m, B);
      assert Image(f, m, B) == Beating(Better, Image(f, m, m.Keys), r[i]);
    }
  }

  // ----- the bound

  predicate EntryBefore(a: DenseEntry, b: DenseEntry) { a.node < b.node }

  predicate Larger(a: real, b: real) { a > b }

  ghost predicate OneEach(dense: seq<DenseCandidate>) {
    forall i, j :: 0 <= i < j < |dense| ==> dense[i].node != dense[j].node
  }

  /** What a dense part adds to the fused score. */
  function Contribution(alpha: real, part: DensePart): real { alpha * part.norm }

  function Entries(alpha: real, dense: seq<DenseCandidate>): (es: seq<DenseEntry>)
    ensures |es| == |dense| && forall i :: 0 <= i < |dense| ==> es[i] == DenseEntry(dense[i].node, Contribution(alpha, dense[i].part))
  {
    seq(|dense|, i requires 0 <= i < |dense| => DenseEntry(dense[i].node, Contribution(alpha, dense[i].part)))
  }

  function Contributions(alpha: real, dense: seq<DenseCandidate>): (cs: seq<real>)
    ensures |cs| == |dense| && forall i :: 0 <= i < |dense| ==> cs[i] == Contribution(alpha, dense[i].part)
  {
    seq(|dense|, i requires 0 <= i < |dense| => Contribution(alpha, dense[i].part))
  }

  ghost function Strong(cs: seq<real>, t: real): set<nat> {
    set i: nat | i < |cs| && cs[i] >= t
  }

  /** What the search may rely on: contributions by node, and finalK candidates that reach the k-th score alone. */
  ghost predicate IsBound(b: FusedBound, alpha: real, dense: seq<DenseCandidate>, finalK: nat) {
    && b.enabled && b.alpha == alpha && SortedByNode(b.dense)
    && (forall i :: 0 <= i < |dense| ==> DenseContribution(b.dense, dense[i].node) == Contribution(alpha, dense[i].part))
    && (forall n: nat :: (forall i :: 0 <= i < |dense| ==> dense[i].node != n) ==> DenseContribution(b.dense, n) == 0.0)
    && |Strong(Contributions(alpha, dense), b.kthScore)| >= finalK
  }

  /** Sorting keeps the entries, and orders them by node. */
  lemma {:induction false} EntriesSorted(raw: seq<DenseEntry>)
    requires forall i, j :: 0 <= i < j < |raw| ==> raw[i].node != raw[j].node
    ensures var es := SortBy(EntryBefore, raw); SortedByNode(es) && Elements(es) == Elements(raw)
  {
    var es := SortBy(EntryBefore, raw);
    SortBySorts(EntryBefore, raw);
    SameMultisetDistinct(raw, es);
    forall i, j | 0 <= i < j < |es|
      ensures es[i].node < es[j].node
    {
      assert es[i] in Elements(raw) && es[j] in Elements(raw);
      var a :| 0 <= a < |raw| && raw[a] == es[i];
      var b :| 0 <= b < |raw| && raw[b] == es[j];
      assert es[i] != es[j];
    }
  }

  lemma {:induction false} EntryContributes(es: seq<DenseEntry>, raw: seq<DenseEntry>, i: nat)
    requires SortedByNode(es) && Elements(es) == Elements(raw) && i < |raw|
    ensures DenseContribution(es, raw[i].node) == raw[i].contribution
  {
    assert raw[i] in Elements(es);
    var j :| 0 <= j < |es| && es[j] == raw[i];
    ContributionAt(es, j);
  }

  lemma {:induction false} AbsentContributes(es: seq<DenseEntry>, raw: seq<DenseEntry>, n: nat)
    requires Elements(es) == Elements(raw) && forall i :: 0 <= i < |raw| ==> raw[i].node != n
    ensures DenseContribution(es, n) == 0.0
  {
    forall j | 0 <= j < |es|
      ensures es[j].node != n
    {
      assert es[j] in Elements(raw);
    }
    ContributionAbsent(es, n);
  }

  lemma {:induction false} EntriesAreBound(alpha: real, dense: seq<DenseCandidate>)
    requires OneEach(dense)
    ensures var es := SortBy(EntryBefore, Entries(alpha, dense));
            && SortedByNode(es)
            && (forall i :: 0 <= i < |dense| ==> DenseContribution(es, dense[i].node) == Contribution(alpha, dense[i].part))
            && (forall n: nat :: (forall i :: 0 <= i < |dense| ==> dense[i].node != n) ==> DenseContribution(es, n) == 0.0)
  {
    var raw := Entries(alpha, dense);
    var es := SortBy(EntryBefore, raw);
    EntriesSorted(raw);
    forall i | 0 <= i < |dense|
      ensures DenseContribution(es, dense[i].node) == Contribution(alpha, dense[i].part)
    {
      EntryContributes(es, raw, i);
    }
    forall n: nat | forall i :: 0 <= i < |dense| ==> dense[i].node != n
      ensures DenseContribution(es, n) == 0.0
    {
      AbsentContributes(es, raw, n);
    }
  }

  lemma {:induction false} StrongSplit(s: seq<real>, t: real)
    requires s != []
    ensures |Strong(s, t)| == |Strong(s[..|s| - 1], t)| + if s[|s| - 1] >= t then 1 else 0
  {
    var p, n: nat := s[..|s| - 1], |s| - 1;
    var one: set<nat> := if s[n] >= t then {n} else {};
    forall i: nat
      ensures i in Strong(s, t) <==> i in Strong(p, t) || i in one
    {
      assert i < n ==> p[i] == s[i];
    }
    assert Strong(s, t) == Strong(p, t) + one && n !in Strong(p, t);
  }

  lemma {:induction false} StrongMinus(s: seq<real>, x: real, i: nat, t: real)
    requires i < |s| && s[i] == x
    ensures |Strong(s, t)| == |Strong(s[..i] + s[i + 1..], t)| + if x >= t then 1 else 0
    decreases |s|
  {
    StrongSplit(s, t);
    if i < |s| - 1 {
      var rest := s[..i] + s[i + 1..];
      StrongSplit(rest, t);
      var p := s[..|s| - 1];
      StrongMinus(p, x, i, t);
      assert rest[..|rest| - 1] == p[..i] + p[i + 1..];
    } else {
      assert s[..i] + s[i + 1..] == s[..|s| - 1];
    }
  }

  lemma {:induction false} WithoutOne(r: seq<real>, i: nat)
    requires i < |r|
    ensures multiset(r[..i] + r[i + 1..]) == multiset(r) - multiset{r[i]}
  {
    assert r == r[..i] + [r[i]] + r[i + 1..];
  }

  lemma {:induction false} SharedValue(s: seq<real>, r: seq<real>, x: real) returns (i: nat)
    requires multiset(s) == multiset(r) && x in s
    ensures i < |r| && r[i] == x
  {
    assert x in multiset(s);
    i :| 0 <= i < |r| && r[i] == x;
  }

  /** How many values reach t does not depend on their order. */
  lemma {:induction false} StrongIsOrderFree(s: seq<real>, r: seq<real>, t: real)
    requires multiset(s) == multiset(r)
    ensures |Strong(s, t)| == |Strong(r, t)|
    decreases |s|
  {
    if s == [] {
      assert |multiset(r)| == 0;
    } else {
      var last := |s| - 1;
      var i := SharedValue(s, r, s[last]);
      WithoutOne(s, last);
      WithoutOne(r, i);
      StrongIsOrderFree(s[..last] + s[last + 1..], r[..i] + r[i + 1..], t);
      StrongMinus(s, s[last], last, t);
      StrongMinus(r, s[last], i, t);
    }
  }

  lemma {:induction false} KthIsReached(cs: seq<real>, k: nat)
    requires 0 < k <= |cs|
    ensures |SortBy(Larger, cs)| == |cs| && |Strong(cs, SortBy(Larger, cs)[k - 1])| >= k
  {
    SortBySorts(Larger, cs);
    var s := SortBy(Larger, cs);
    assert |multiset(s)| == |multiset(cs)|;
    StrongIsOrderFree(cs, s, s[k - 1]);
    FirstAreStrong(s, k);
  }

  lemma {:induction false} FirstAreStrong(s: seq<real>, k: nat)
    requires 0 < k <= |s| && forall i, j :: 0 <= i < j < |s| ==> s[i] >= s[j]
    ensures |Strong(s, s[k - 1])| >= k
  {
    var first: seq<nat> := seq(k, i => i);
    DistinctSize(first);
    SubsetSize(Elements(first), Strong(s, s[k - 1]));
  }

  /** No larger score is reached by that many. */
  lemma {:induction false} FewerReachMore(cs: seq<real>, k: nat, t: real)
    requires 0 < k <= |cs| && |SortBy(Larger, cs)| == |cs| && t > SortBy(Larger, cs)[k - 1]
    ensures |Strong(cs, t)| < k
  {
    var s := SortBy(Larger, cs);
    SortBySorts(Larger, cs);
    StrongIsOrderFree(cs, s, t);
    var first: seq<nat> := seq(k - 1, i => i);
    DistinctSize(first);
    forall j | k - 1 <= j < |s|
      ensures s[j] <= s[k - 1]
    {
      assert j > k - 1 ==> !Larger(s[j], s[k - 1]);
    }
    forall i | i in Strong(s, t)
      ensures i in Elements(first)
    {
      assert first[i] == i;
    }
    SubsetSize(Strong(s, t), Elements(first));
  }

  /** Sets the bound up from the dense candidates; off unless there are at least finalK of them. */
  method PrepareFastWeightedBound(alpha: real, dense: seq<DenseCandidate>, finalK: nat) returns (b: FusedBound)
    requires OneEach(dense)
    ensures b.enabled <==> 0 < finalK <= |dense|
    ensures b.enabled ==> IsBound(b, alpha, dense, finalK)
    ensures b.enabled ==> forall t: real :: t > b.kthScore ==> |Strong(Contributions(alpha, dense), t)| < finalK
  {
    if finalK == 0 || |dense| < finalK {
      return NO_BOUND;
    }
    var contributions := Contributions(alpha, dense);
    KthIsReached(contributions, finalK);
    EntriesAreBound(alpha, dense);
    forall t: real | t > SortBy(Larger, contributions)[finalK - 1]
      ensures |Strong(contributions, t)| < finalK
    {
      FewerReachMore(contributions, finalK, t);
    }
    b := FusedBound(true, alpha, SortBy(Larger, contributions)[finalK - 1], SortBy(EntryBefore, Entries(alpha, dense)));
  }

  // ----- what the test decides

  /** With this BM25 score the node reaches the k-th score. */
  ghost predicate Reaches(b: FusedBound, node: nat, score: real) {
    exists y: real :: IsSaturated(y, score) && DenseContribution(b.dense, node) + (1.0 - b.alpha) * y >= b.kthScore
  }

  lemma {:induction false} ReachesIs(b: FusedBound, node: nat, score: real)
    ensures Reaches(b, node, score) <==> MaxFused(b, node, score) >= b.kthScore
  {
    SaturatingLaw(score);
    assert IsSaturated(Saturating(score), score);
  }

  /** A candidate is dismissed if and only if no score up to its bound would reach the k-th. */
  lemma {:induction false} PrunedIff(b: FusedBound, node: nat, bm25Bound: real)
    requires b.enabled && 0.0 <= b.alpha <= 1.0
    ensures CanPrune(b, node, bm25Bound) <==> forall score: real :: score <= bm25Bound ==> !Reaches(b, node, score)
  {
    ReachesIs(b, node, bm25Bound);
    forall score: real | score <= bm25Bound && CanPrune(b, node, bm25Bound)
      ensures !Reaches(b, node, score)
    {
      ReachesIs(b, node, score);
      SaturatingGrows(score, bm25Bound);
      Weighted(b.alpha, Saturating(score), Saturating(bm25Bound));
    }
  }

  // ----- the BM25 branch's candidates

  ghost predicate OneScoreEach(S: set<NodeScore>) {
    forall x, y :: x in S && y in S && x.node == y.node ==> x == y
  }

  /** The branch's results in rank order, with their heap tids. */
  ghost function Candidates(top: seq<NodeScore>, tidOf: nat -> nat): (cs: seq<Bm25Candidate>)
    requires |top| < INT_MAX - 1
    ensures |cs| == |top|
    ensures forall i :: 0 <= i < |top| ==> cs[i] == Bm25Candidate(top[i].node, tidOf(top[i].node), Bm25Part(top[i].score, i + 1))
  {
    seq(|top|, i requires 0 <= i < |top| => Bm25Candidate(top[i].node, tidOf(top[i].node), Bm25Part(top[i].score, i + 1)))
  }

  /** Everything the BM25 branch found, ranked. */
  ghost predicate RanksAll(S: set<NodeScore>, top: seq<NodeScore>) {
    OneScoreEach(S) && IsTopK(Before, S, |S|, top) && |top| < INT_MAX - 1
  }

  lemma {:induction false} AllRanked(S: set<NodeScore>, top: seq<NodeScore>)
    requires RanksAll(S, top)
    ensures Distinct(top) && Elements(top) == S
    ensures forall i, j :: 0 <= i < |top| && 0 <= j < |top| ==> (i < j <==> Before(top[i], top[j]))
    ensures forall i, j :: 0 <= i < j < |top| ==> top[i].node != top[j].node
  {
    BeforeIsWeakOrder();
    forall i, j | 0 <= i < |top| && 0 <= j < |top|
      ensures i < j ==> Before(top[i], top[j]) && top[i].node != top[j].node
    {
      if Before(top[j], top[i]) {
        BetterHasSmallerRank(Before, S, top[j], top[i]);
      }
    }
    DistinctSize(top);
    SubsetSize(Elements(top), S);
  }

  // ----- what the merge knows about a node

  ghost predicate InDense(dense: seq<DenseCandidate>, n: nat) {
    exists i :: 0 <= i < |dense| && dense[i].node == n
  }

  lemma {:induction false} MergedDense(dense: seq<DenseCandidate>, cs: seq<Bm25Candidate>, m: map<nat, Result>, n: nat)
    requires Merges(Items(dense, cs), m)
    ensures forall i :: 0 <= i < |dense| && dense[i].node == n ==>
              n in m && m[n].dense == Some(dense[i].part) && m[n].tid == dense[i].tid
    ensures n in m && m[n].dense.Some? ==> InDense(dense, n)
  {
    var items := Items(dense, cs);
    forall i | 0 <= i < |dense| && dense[i].node == n
      ensures n in m && m[n].dense == Some(dense[i].part) && m[n].tid == dense[i].tid
    {
      assert items[i] == FromDense(dense[i]);
      assert Touches(items, n);
      assert n in m;
    }
    if n in m && m[n].dense.Some? {
      var k :| 0 <= k < |items| && items[k].node == n && items[k].dense.Some?;
      assert k >= |dense| ==> items[|dense| + (k - |dense|)] == FromBm25(cs[k - |dense|]);
      assert items[k] == FromDense(dense[k]);
    }
  }

  lemma {:induction false} MergedBm25(dense: seq<DenseCandidate>, cs: seq<Bm25Candidate>, m: map<nat, Result>, n: nat)
    requires Merges(Items(dense, cs), m)
    ensures forall j :: 0 <= j < |cs| && cs[j].node == n ==>
              n in m && m[n].bm25 == Some(cs[j].part) && (m[n].dense.None? ==> m[n].tid == cs[j].tid)
    ensures n in m && m[n].bm25.Some? ==> exists j :: 0 <= j < |cs| && cs[j].node == n
    ensures n in m ==> m[n].dense.Some? || m[n].bm25.Some?
  {
    var items := Items(dense, cs);
    forall j | 0 <= j < |cs| && cs[j].node == n
      ensures n in m && m[n].bm25 == Some(cs[j].part) && (m[n].dense.None? ==> m[n].tid == cs[j].tid)
    {
      assert items[|dense| + j] == FromBm25(cs[j]);
      assert Touches(items, n);
      assert n in m;
    }
    if n in m {
      if m[n].bm25.Some? {
        var k :| 0 <= k < |items| && items[k].node == n && items[k].bm25.Some?;
        assert k < |dense| ==> items[k] == FromDense(dense[k]);
        assert items[|dense| + (k - |dense|)] == FromBm25(cs[k - |dense|]);
      }
      var k :| 0 <= k < |items| && items[k].node == n;
      assert k < |dense| ==> items[k] == FromDense(dense[k]);
      assert k >= |dense| ==> items[|dense| + (k - |dense|)] == FromBm25(cs[k - |dense|]);
    }
  }

  /** m merges the dense candidates with the ranked scores S. */
  ghost predicate Fusing(dense: seq<DenseCandidate>, S: set<NodeScore>, top: seq<NodeScore>, tidOf: nat -> nat,
                         m: map<nat, Result>) {
    RanksAll(S, top) && Merges(Items(dense, Candidates(top, tidOf)), m)
  }

  lemma {:induction false} MergedScore(dense: seq<DenseCandidate>, S: set<NodeScore>, top: seq<NodeScore>,
                                       tidOf: nat -> nat, m: map<nat, Result>, x: NodeScore)
    requires Fusing(dense, S, top, tidOf, m) && x in S
    ensures x.node in m && m[x.node].bm25.Some? && m[x.node].bm25.value.score == x.score
    ensures m[x.node].dense.None? ==> m[x.node].tid == tidOf(x.node)
    ensures 1 <= m[x.node].bm25.value.rank <= |top| && top[m[x.node].bm25.value.rank - 1] == x
  {
    AllRanked(S, top);
    MergedBm25(dense, Candidates(top, tidOf), m, x.node);
    assert x in Elements(top);
    var j :| 0 <= j < |top| && top[j] == x;
    assert Candidates(top, tidOf)[j].node == x.node;
  }

  ghost function DenseAt(dense: seq<DenseCandidate>, n: nat): Option<DensePart> {
    if i :| 0 <= i < |dense| && dense[i].node == n then Some(dense[i].part) else None
  }

  ghost function TidAt(dense: seq<DenseCandidate>, tidOf: nat -> nat, n: nat): nat {
    if i :| 0 <= i < |dense| && dense[i].node == n then dense[i].tid else tidOf(n)
  }

  ghost predicate InScores(S: set<NodeScore>, n: nat) {
    exists x :: x in S && x.node == n
  }

  /** Everything about node n in the merge, but for its BM25 rank. */
  ghost predicate Known(dense: seq<DenseCandidate>, S: set<NodeScore>, tidOf: nat -> nat, m: map<nat, Result>, n: nat) {
    && (n in m <==> InDense(dense, n) || InScores(S, n))
    && (n in m ==>
          && m[n].node == n && m[n].dense == DenseAt(dense, n) && m[n].tid == TidAt(dense, tidOf, n)
          && (m[n].bm25.Some? <==> InScores(S, n))
          && (forall x :: x in S && x.node == n ==> m[n].bm25.value.score == x.score))
  }

  lemma {:induction false} MergedScoreOnly(dense: seq<DenseCandidate>, S: set<NodeScore>, top: seq<NodeScore>,
                                           tidOf: nat -> nat, m: map<nat, Result>, n: nat)
    requires Fusing(dense, S, top, tidOf, m) && n in m && m[n].bm25.Some?
    ensures InScores(S, n)
  {
    AllRanked(S, top);
    MergedBm25(dense, Candidates(top, tidOf), m, n);
    var j :| 0 <= j < |top| && Candidates(top, tidOf)[j].node == n;
    assert top[j] in Elements(top);
  }

  lemma {:induction false} MergedIsKnown(dense: seq<DenseCandidate>, S: set<NodeScore>, top: seq<NodeScore>,
                                         tidOf: nat -> nat, m: map<nat, Result>, n: nat)
    requires OneEach(dense) && Fusing(dense, S, top, tidOf, m)
    ensures Known(dense, S, tidOf, m, n)
  {
    MergedDense(dense, Candidates(top, tidOf), m, n);
    MergedBm25(dense, Candidates(top, tidOf), m, n);
    forall x | x in S && x.node == n
      ensures n in m && m[n].bm25.Some? && m[n].bm25.value.score == x.score
      ensures m[n].dense.None? ==> m[n].tid == tidOf(n)
    {
      MergedScore(dense, S, top, tidOf, m, x);
    }
    if n in m && m[n].bm25.Some? {
      MergedScoreOnly(dense, S, top, tidOf, m, n);
    }
  }

  lemma {:induction false} BoundKnows(b: FusedBound, alpha: real, dense: seq<DenseCandidate>, finalK: nat, n: nat)
    requires IsBound(b, alpha, dense, finalK)
    ensures DenseContribution(b.dense, n) == DenseShare(FastWeighted(alpha), DenseAt(dense, n))
  {
    if i :| 0 <= i < |dense| && dense[i].node == n && DenseAt(dense, n) == Some(dense[i].part) {
      assert DenseContribution(b.dense, dense[i].node) == Contribution(alpha, dense[i].part);
    }
  }

  // ----- dismissed documents are weak

  lemma {:induction false} SaturatingGrows(a: real, b: real)
    requires a <= b
    ensures 0.0 <= Saturating(a) <= Saturating(b)
  {
    if a > 0.0 {
      var ra, rb := a / (a + 1.0), b / (b + 1.0);
      assert ra == 1.0 - 1.0 / (a + 1.0) && rb == 1.0 - 1.0 / (b + 1.0);
      Inverse(a + 1.0, b + 1.0);
    }
  }

  lemma {:induction false} Inverse(x: real, y: real)
    requires 0.0 < x <= y
    ensures 1.0 / y <= 1.0 / x
  {
    var p, q := 1.0 / x, 1.0 / y;
    assert p * x == 1.0 && q * y == 1.0;
    assert q * y >= q * x;
  }

  lemma {:induction false} Weighted(alpha: real, a: real, b: real)
    requires 0.0 <= alpha <= 1.0 && 0.0 <= a <= b
    ensures 0.0 <= (1.0 - alpha) * a <= (1.0 - alpha) * b
  {
  }

  lemma {:induction false} DismissedIsWeak(b: FusedBound, x: NodeScore)
    requires 0.0 <= b.alpha <= 1.0 && TopKSearch.Dismissed(b, x)
    ensures DenseContribution(b.dense, x.node) + (1.0 - b.alpha) * Saturating(x.score) < b.kthScore
    ensures DenseContribution(b.dense, x.node) < b.kthScore
  {
    var ub: real :| ub >= x.score && CanPrune(b, x.node, ub);
    SaturatingGrows(x.score, ub);
    Weighted(b.alpha, Saturating(x.score), Saturating(ub));
  }

  // ----- pruning

  /** Equal but for the BM25 rank. */
  ghost predicate Alike(r: Result, r': Result) {
    && r.node == r'.node && r.tid == r'.tid && r.dense == r'.dense && r.fusedScore == r'.fusedScore
    && (r.bm25.Some? <==> r'.bm25.Some?)
    && (r.bm25.Some? ==> r.bm25.value.score == r'.bm25.value.score)
  }

  /** All matches S, of which the bound dismissed those not kept. */
  ghost predicate Pruned(dense: seq<DenseCandidate>, alpha: real, finalK: nat, b: FusedBound, S: set<NodeScore>,
                         kept: set<NodeScore>) {
    && OneEach(dense) && 0.0 <= alpha <= 1.0 && IsBound(b, alpha, dense, finalK)
    && kept <= S && forall x :: x in S - kept ==> TopKSearch.Dismissed(b, x)
  }

  ghost predicate Weak(b: FusedBound, f: Method, m: map<nat, Result>, n: nat) {
    n in m && At(f, m, n).fusedScore < b.kthScore
  }

  /** A node of either merge is the same in both, or weak wherever it occurs. */
  lemma {:induction false} AlikeOrWeak(dense: seq<DenseCandidate>, alpha: real, b: FusedBound, S: set<NodeScore>,
                                       kept: set<NodeScore>,
                    tidOf: nat -> nat, m: map<nat, Result>, m': map<nat, Result>, n: nat)
    requires OneScoreEach(S) && kept <= S && Known(dense, S, tidOf, m, n) && Known(dense, kept, tidOf, m', n)
    requires 0.0 <= alpha <= 1.0 && b.alpha == alpha
    requires DenseContribution(b.dense, n) == DenseShare(FastWeighted(alpha), DenseAt(dense, n))
    requires forall x :: x in S - kept ==> TopKSearch.Dismissed(b, x)
    ensures var f := FastWeighted(alpha);
            || (n in m && n in m' && Alike(At(f, m, n), At(f, m', n)))
            || ((n in m ==> Weak(b, f, m, n)) && (n in m' ==> Weak(b, f, m', n)))
  {
    if x :| x in S && x.node == n {
      if x in kept {
        assert InScores(kept, n);
      } else {
        assert !InScores(kept, n);
        DismissedIsWeak(b, x);
      }
    } else {
      assert !InScores(kept, n);
    }
  }

  /** The merges of all matches and of the kept ones. */
  ghost predicate Twins(dense: seq<DenseCandidate>, alpha: real, finalK: nat, b: FusedBound, S: set<NodeScore>,
                        kept: set<NodeScore>,
                        top: seq<NodeScore>, top': seq<NodeScore>, tidOf: nat -> nat, m: map<nat, Result>, m': map<nat, Result>) {
    && Pruned(dense, alpha, finalK, b, S, kept)
    && Fusing(dense, S, top, tidOf, m) && Fusing(dense, kept, top', tidOf, m')
  }

  lemma {:induction false} TwinNodes(dense: seq<DenseCandidate>, alpha: real, finalK: nat, b: FusedBound,
                                     S: set<NodeScore>, kept: set<NodeScore>,
                  top: seq<NodeScore>, top': seq<NodeScore>, tidOf: nat -> nat, m: map<nat, Result>, m': map<nat, Result>, n: nat)
    requires Twins(dense, alpha, finalK, b, S, kept, top, top', tidOf, m, m')
    ensures var f := FastWeighted(alpha);
            || (n in m && n in m' && Alike(At(f, m, n), At(f, m', n)))
            || ((n in m ==> Weak(b, f, m, n)) && (n in m' ==> Weak(b, f, m', n)))
  {
    MergedIsKnown(dense, S, top, tidOf, m, n);
    MergedIsKnown(dense, kept, top', tidOf, m', n);
    BoundKnows(b, alpha, dense, finalK, n);
    AlikeOrWeak(dense, alpha, b, S, kept, tidOf, m, m', n);
  }

  /** BM25 ranks of kept documents compare alike in both merges. */
  lemma {:induction false} RanksCompareAlike(dense: seq<DenseCandidate>, S: set<NodeScore>, kept: set<NodeScore>,
                                             top: seq<NodeScore>, top': seq<NodeScore>,
                          tidOf: nat -> nat, m: map<nat, Result>, m': map<nat, Result>, x: NodeScore, y: NodeScore)
    requires Fusing(dense, S, top, tidOf, m) && Fusing(dense, kept, top', tidOf, m') && kept <= S && x in kept && y in kept
    ensures x.node in m && y.node in m && x.node in m' && y.node in m'
    ensures m[x.node].bm25.Some? && m[y.node].bm25.Some? && m'[x.node].bm25.Some? && m'[y.node].bm25.Some?
    ensures m[x.node].bm25.value.rank < m[y.node].bm25.value.rank <==> m'[x.node].bm25.value.rank < m'[y.node].bm25.value.rank
    ensures m[x.node].bm25.value.rank == m[y.node].bm25.value.rank <==> m'[x.node].bm25.value.rank == m'[y.node].bm25.value.rank
  {
    AllRanked(S, top);
    AllRanked(kept, top');
    MergedScore(dense, S, top, tidOf, m, x);
    MergedScore(dense, S, top, tidOf, m, y);
    MergedScore(dense, kept, top', tidOf, m', x);
    MergedScore(dense, kept, top', tidOf, m', y);
  }

  lemma {:induction false} KeptScore(dense: seq<DenseCandidate>, kept: set<NodeScore>, top': seq<NodeScore>,
                                     tidOf: nat -> nat, m': map<nat, Result>, n: nat)
    returns (x: NodeScore)
    requires OneEach(dense) && Fusing(dense, kept, top', tidOf, m') && n in m' && m'[n].bm25.Some?
    ensures x in kept && x.node == n
  {
    MergedIsKnown(dense, kept, top', tidOf, m', n);
    x :| x in kept && x.node == n;
  }

  lemma {:induction false} SameOrder(r: Result, s: Result, r': Result, s': Result)
    requires Alike(r, r') && Alike(s, s')
    requires r.bm25.Some? && s.bm25.Some? ==>
               && (r.bm25.value.rank < s.bm25.value.rank <==> r'.bm25.value.rank < s'.bm25.value.rank)
               && (r.bm25.value.rank == s.bm25.value.rank <==> r'.bm25.value.rank == s'.bm25.value.rank)
    ensures ResultBefore(r, s) <==> ResultBefore(r', s')
  {
  }

  lemma {:induction false} TwinOrder(dense: seq<DenseCandidate>, alpha: real, finalK: nat, b: FusedBound,
                                     S: set<NodeScore>, kept: set<NodeScore>,
                  top: seq<NodeScore>, top': seq<NodeScore>, tidOf: nat -> nat, m: map<nat, Result>, m': map<nat, Result>, n: nat, k: nat)
    requires Twins(dense, alpha, finalK, b, S, kept, top, top', tidOf, m, m') && n in m && k in m && n in m' && k in m'
    requires var f := FastWeighted(alpha); Alike(At(f, m, n), At(f, m', n)) && Alike(At(f, m, k), At(f, m', k))
    ensures var f := FastWeighted(alpha); NodeOrder(f, m)(n, k) <==> NodeOrder(f, m')(n, k)
  {
    var f := FastWeighted(alpha);
    if m'[n].bm25.Some? && m'[k].bm25.Some? {
      var x := KeptScore(dense, kept, top', tidOf, m', n);
      var y := KeptScore(dense, kept, top', tidOf, m', k);
      RanksCompareAlike(dense, S, kept, top, top', tidOf, m, m', x, y);
    }
    SameOrder(At(f, m, n), At(f, m, k), At(f, m', n), At(f, m', k));
  }

  ghost function Head(b: FusedBound, f: Method, m: map<nat, Result>): set<nat> {
    set n | n in m && !Weak(b, f, m, n)
  }

  /** At least finalK results reach the k-th dense contribution. */
  lemma {:induction false} HeadIsLarge(dense: seq<DenseCandidate>, alpha: real, finalK: nat, b: FusedBound,
                                       S: set<NodeScore>,
                    top: seq<NodeScore>, tidOf: nat -> nat, m: map<nat, Result>)
    requires OneEach(dense) && 0.0 <= alpha <= 1.0 && IsBound(b, alpha, dense, finalK) && Fusing(dense, S, top, tidOf, m)
    ensures |Head(b, FastWeighted(alpha), m)| >= finalK
  {
    var strong := Strong(Contributions(alpha, dense), b.kthScore);
    forall i | i in strong
      ensures dense[i].node in Head(b, FastWeighted(alpha), m)
    {
      StrongInHead(dense, alpha, b, Candidates(top, tidOf), m, i, dense[i].part);
    }
    DenseNodesSize(dense, strong);
    SubsetSize(DenseNodes(dense, strong), Head(b, FastWeighted(alpha), m));
  }

  lemma {:induction false} StrongInHead(dense: seq<DenseCandidate>, alpha: real, b: FusedBound,
                                        cs: seq<Bm25Candidate>, m: map<nat, Result>, i: nat, part: DensePart)
    requires 0.0 <= alpha <= 1.0 && Merges(Items(dense, cs), m) && i < |dense| && dense[i].part == part
    requires Contribution(alpha, part) >= b.kthScore
    ensures dense[i].node in Head(b, FastWeighted(alpha), m)
  {
    DensePartMerged(dense, cs, m, i);
    StrongPart(alpha, b, m, dense[i].node, part);
  }

  lemma {:induction false} DensePartMerged(dense: seq<DenseCandidate>, cs: seq<Bm25Candidate>, m: map<nat, Result>,
                                           i: nat)
    requires Merges(Items(dense, cs), m) && i < |dense|
    ensures dense[i].node in m && m[dense[i].node].dense == Some(dense[i].part)
  {
    MergedDense(dense, cs, m, dense[i].node);
  }

  lemma {:induction false} StrongPart(alpha: real, b: FusedBound, m: map<nat, Result>, n: nat, part: DensePart)
    requires 0.0 <= alpha <= 1.0 && n in m && m[n].dense == Some(part) && Contribution(alpha, part) >= b.kthScore
    ensures n in Head(b, FastWeighted(alpha), m)
  {
    StrongReaches(alpha, m[n], part.norm, b.kthScore);
  }

  lemma {:induction false} StrongReaches(alpha: real, r: Result, norm: real, t: real)
    requires 0.0 <= alpha <= 1.0 && r.dense.Some? && r.dense.value.norm == norm && alpha * norm >= t
    ensures FusedRanking.Scored(FastWeighted(alpha), r).fusedScore >= t
  {
    if r.bm25.Some? {
      SaturatingGrows(r.bm25.value.score, r.bm25.value.score);
      Weighted(alpha, Saturating(r.bm25.value.score), Saturating(r.bm25.value.score));
    }
  }

  ghost function DenseNodes(dense: seq<DenseCandidate>, I: set<nat>): set<nat>
    requires forall i :: i in I ==> i < |dense|
  {
    set i | i in I :: dense[i].node
  }

  lemma {:induction false} DenseNodesSize(dense: seq<DenseCandidate>, I: set<nat>)
    requires OneEach(dense) && forall i :: i in I ==> i < |dense|
    ensures |DenseNodes(dense, I)| == |I|
    decreases I
  {
    if I != {} {
      var i :| i in I;
      DenseNodesSize(dense, I - {i});
      assert DenseNodes(dense, I) == DenseNodes(dense, I - {i}) + {dense[i].node};
      forall j | j in I - {i}
        ensures dense[j].node != dense[i].node
      {
        assert j < i || i < j;
      }
    }
  }

  /** The nodes that are not weak are the same in both merges, come first in both, and in the same order. */
  lemma {:induction false} HeadsAgree(dense: seq<DenseCandidate>, alpha: real, finalK: nat, b: FusedBound,
                                      S: set<NodeScore>, kept: set<NodeScore>,
                   top: seq<NodeScore>, top': seq<NodeScore>, tidOf: nat -> nat, m: map<nat, Result>, m': map<nat, Result>)
    requires Twins(dense, alpha, finalK, b, S, kept, top, top', tidOf, m, m')
    ensures var f := FastWeighted(alpha); var H := Head(b, f, m);
            && H == Head(b, f, m')
            && (forall n :: n in H ==> Alike(At(f, m, n), At(f, m', n)))
            && (forall n, k :: n in H && k in H ==> (NodeOrder(f, m)(n, k) <==> NodeOrder(f, m')(n, k)))
  {
    var f := FastWeighted(alpha);
    forall n: nat
      ensures n in Head(b, f, m) <==> n in Head(b, f, m')
      ensures n in Head(b, f, m) ==> Alike(At(f, m, n), At(f, m', n))
    {
      TwinNodes(dense, alpha, finalK, b, S, kept, top, top', tidOf, m, m', n);
    }
    forall n, k | n in Head(b, f, m) && k in Head(b, f, m)
      ensures NodeOrder(f, m)(n, k) <==> NodeOrder(f, m')(n, k)
    {
      TwinOrder(dense, alpha, finalK, b, S, kept, top, top', tidOf, m, m', n, k);
    }
  }

  lemma {:induction false} HeadComesFirst(b: FusedBound, f: Method, m: map<nat, Result>, n: nat, k: nat)
    requires n in Head(b, f, m) && k in m && k !in Head(b, f, m)
    ensures NodeOrder(f, m)(n, k)
  {
  }

  /** The best finalK nodes are the same with and without pruning. */
  lemma {:induction false} SameNodes(dense: seq<DenseCandidate>, alpha: real, finalK: nat, b: FusedBound,
                                     S: set<NodeScore>, kept: set<NodeScore>,
                  top: seq<NodeScore>, top': seq<NodeScore>, tidOf: nat -> nat, m: map<nat, Result>, m': map<nat, Result>,
                  k: nat, r: seq<nat>, r': seq<nat>)
    requires Twins(dense, alpha, finalK, b, S, kept, top, top', tidOf, m, m') && k <= finalK
    requires IsTopK(NodeOrder(FastWeighted(alpha), m), m.Keys, k, r) && IsTopK(NodeOrder(FastWeighted(alpha), m'), m'.Keys, k, r')
    ensures r == r' && forall i :: 0 <= i < |r| ==> r[i] in Head(b, FastWeighted(alpha), m)
  {
    var f := FastWeighted(alpha);
    var H := Head(b, f, m);
    NodeOrderIsTotal(f, m);
    NodeOrderIsTotal(f, m');
    HeadsAgree(dense, alpha, finalK, b, S, kept, top, top', tidOf, m, m');
    HeadIsLarge(dense, alpha, finalK, b, S, top, tidOf, m);
    forall n, y | n in H && y in m.Keys - H
      ensures NodeOrder(f, m)(n, y)
    {
      HeadComesFirst(b, f, m, n, y);
    }
    forall n, y | n in H && y in m'.Keys - H
      ensures NodeOrder(f, m')(n, y)
    {
      HeadComesFirst(b, f, m', n, y);
    }
    AgreeingHeads(NodeOrder(f, m), NodeOrder(f, m'), m.Keys, m'.Keys, H, k, r, r');
    HeadIsTopK(NodeOrder(f, m), m.Keys, H, k, r);
  }

  lemma {:induction false} FusedSetIsImage(items: seq<Result>, f: Method)
    requires Separate(items)
    ensures FusedSet(items, f, false) == Image(f, MergeMap(items), MergeMap(items).Keys)
    ensures Keyed(MergeMap(items))
  {
    MergeMapMerges(items);
  }

  /** The first finalK fused results of a ranked list, as nodes. */
  lemma {:induction false} FirstNodes(items: seq<Result>, f: Method, n: nat, k: nat, final: seq<Result>)
    requires Separate(items) && IsTopK(Better, FusedSet(items, f, false), n, final) && k <= n
    ensures var m := MergeMap(items);
            && IsTopK(NodeOrder(f, m), m.Keys, k, NodesOf(final[..Min(k, |final|)]))
            && forall i :: 0 <= i < |final| ==> final[i].node in m && final[i] == At(f, m, final[i].node)
  {
    var m := MergeMap(items);
    FusedSetIsImage(items, f);
    RankedNodes(f, m, n, final);
    TopKPrefix(Better, FusedSet(items, f, false), n, k, final);
    RankedNodes(f, m, k, final[..Min(k, |final|)]);
  }

  lemma {:induction false} CandidatesAreDistinct(dense: seq<DenseCandidate>, S: set<NodeScore>, top: seq<NodeScore>,
                                                 tidOf: nat -> nat)
    requires OneEach(dense) && RanksAll(S, top)
    ensures DistinctNodes(dense, Candidates(top, tidOf)) && Separate(Items(dense, Candidates(top, tidOf)))
    ensures Fusing(dense, S, top, tidOf, MergeMap(Items(dense, Candidates(top, tidOf))))
  {
    AllRanked(S, top);
    ItemsAreSeparate(dense, Candidates(top, tidOf));
    MergeMapMerges(Items(dense, Candidates(top, tidOf)));
  }

  /** One of the two fused lists: the merged map, and the nodes of its first k results. */
  lemma {:induction false} RankedSide(dense: seq<DenseCandidate>, S: set<NodeScore>, top: seq<NodeScore>,
                                      tidOf: nat -> nat, f: Method, n: nat, k: nat, final: seq<Result>)
    returns (m: map<nat, Result>, r: seq<nat>)
    requires OneEach(dense) && RanksAll(S, top) && k <= n
    requires IsTopK(Better, FusedSet(Items(dense, Candidates(top, tidOf)), f, false), n, final)
    ensures Fusing(dense, S, top, tidOf, m) && IsTopK(NodeOrder(f, m), m.Keys, k, r)
    ensures |r| <= |final| && forall i :: 0 <= i < |r| ==> final[i] == At(f, m, r[i])
  {
    var items := Items(dense, Candidates(top, tidOf));
    m, r := MergeMap(items), NodesOf(final[..Min(k, |final|)]);
    CandidatesAreDistinct(dense, S, top, tidOf);
    FirstNodes(items, f, n, k, final);
  }

  /** Node by node, on the merged maps: the first k nodes agree, and so do their results. */
  lemma {:induction false} FirstAlike(dense: seq<DenseCandidate>, alpha: real, finalK: nat, b: FusedBound,
                                      S: set<NodeScore>, kept: set<NodeScore>,
                   top: seq<NodeScore>, top': seq<NodeScore>, tidOf: nat -> nat, m: map<nat, Result>, m': map<nat, Result>,
                   k: nat, r: seq<nat>, r': seq<nat>)
    requires Twins(dense, alpha, finalK, b, S, kept, top, top', tidOf, m, m') && k <= finalK
    requires IsTopK(NodeOrder(FastWeighted(alpha), m), m.Keys, k, r) && IsTopK(NodeOrder(FastWeighted(alpha), m'), m'.Keys, k, r')
    ensures r == r' && |r| == k
    ensures forall i :: 0 <= i < k ==> r[i] in m && r[i] in m' && Alike(At(FastWeighted(alpha), m, r[i]), At(FastWeighted(alpha), m', r[i]))
  {
    SameNodes(dense, alpha, finalK, b, S, kept, top, top', tidOf, m, m', k, r, r');
    HeadsAgree(dense, alpha, finalK, b, S, kept, top, top', tidOf, m, m');
    HeadIsLarge(dense, alpha, finalK, b, S, top, tidOf, m);
    SubsetSize(Head(b, FastWeighted(alpha), m), m.Keys);
  }

  /**
   With alpha in [0, 1], at least finalK dense candidates and every match found but for those
   the bound dismissed, the first finalK fused results are those of the unpruned search, in
   the same order: same nodes, heap tids, parts and fused scores.
   */
  lemma {:induction false} PruningIsInvisible(dense: seq<DenseCandidate>, alpha: real, finalK: nat, b: FusedBound,
                                              S: set<NodeScore>, kept: set<NodeScore>,
                           top: seq<NodeScore>, top': seq<NodeScore>, tidOf: nat -> nat, n: nat, n': nat,
                           full: seq<Result>, pruned: seq<Result>, i: nat)
    requires Pruned(dense, alpha, finalK, b, S, kept) && RanksAll(S, top) && RanksAll(kept, top')
    requires IsTopK(Better, FusedSet(Items(dense, Candidates(top, tidOf)), FastWeighted(alpha), false), n, full)
    requires IsTopK(Better, FusedSet(Items(dense, Candidates(top', tidOf)), FastWeighted(alpha), false), n', pruned)
    requires i < finalK && i < n && i < n'
    ensures i < |full| && i < |pruned| && Alike(full[i], pruned[i])
  {
    var f := FastWeighted(alpha);
    var m, r := RankedSide(dense, S, top, tidOf, f, n, i + 1, full);
    var m', r' := RankedSide(dense, kept, top', tidOf, f, n', i + 1, pruned);
    FirstAlike(dense, alpha, finalK, b, S, kept, top, top', tidOf, m, m', i + 1, r, r');
  }

  lemma {:induction false} RoomForAll(S: set<NodeScore>, k: nat, top: seq<NodeScore>)
    requires OneScoreEach(S) && |S| <= k && IsTopK(Before, S, k, top) && k < INT_MAX - 1
    ensures RanksAll(S, top)
  {
  }

  /**
   The same for the BM25 branch as it is run: top comes from a search without the bound, top'
   from one with it, over any chunk layout, and the budget has room for every match.
   */
  lemma {:induction false} SearchPruningIsInvisible(dense: seq<DenseCandidate>, alpha: real, finalK: nat,
                                 L: seq<seq<Wand.Live>>, D: seq<seq<Wand.Live>>, q: Wand.Query, kept: set<NodeScore>,
                                 top: seq<NodeScore>, top': seq<NodeScore>, tidOf: nat -> nat, n: nat, n': nat,
                                 full: seq<Result>, pruned: seq<Result>, i: nat)
    requires OneEach(dense) && 0.0 <= alpha <= 1.0 && IsBound(q.bound, alpha, dense, finalK) && |D| == |L|
    requires |Wand.Matching(TopKSearch.Combined(L, D), q.matcher)| <= q.k < INT_MAX - 1
    requires IsTopK(Before, Wand.Matching(TopKSearch.Combined(L, D), q.matcher), q.k, top)
    requires TopKSearch.KeptFrom(kept, L, D, q) && IsTopK(Before, kept, q.k, top')
    requires IsTopK(Better, FusedSet(Items(dense, Candidates(top, tidOf)), FastWeighted(alpha), false), n, full)
    requires IsTopK(Better, FusedSet(Items(dense, Candidates(top', tidOf)), FastWeighted(alpha), false), n', pruned)
    requires i < finalK && i < n && i < n'
    ensures i < |full| && i < |pruned| && Alike(full[i], pruned[i])
  {
    var S := Wand.Matching(TopKSearch.Combined(L, D), q.matcher);
    SubsetSize(kept, S);
    RoomForAll(S, q.k, top);
    RoomForAll(kept, q.k, top');
    PruningIsInvisible(dense, alpha, finalK, q.bound, S, kept, top, top', tidOf, n, n', full, pruned, i);
  }
}
