/**
 The WAND loop over the live postings of the query terms, as a deterministic run.

 Each term is reduced to what its iterator shows: the live postings still ahead, each with
 its node id, its score and the upper bound of the chunk it lies in.  The specification of
 the loop is exhaustive scoring: every document's complete sum over all terms.
 */
module Wand {
  import opened Ranking
  import opened Sums
  import opened QueryEval
  import opened FusedBound
  import opened Accumulator

  /** One live posting as an iterator standing on it shows it. */
  datatype Live = Live(node: nat, score: real, bound: real)

  /** Live postings in increasing node order. */
  ghost predicate Ascending(l: seq<Live>) {
    forall a, b :: 0 <= a < b < |l| ==> l[a].node < l[b].node
  }

  /** Scores are not negative and no posting scores above the bound of its own chunk. */
  ghost predicate Bounded(l: seq<Live>) {
    forall a :: 0 <= a < |l| ==> 0.0 <= l[a].score <= l[a].bound
  }

  ghost predicate WellFormed(L: seq<seq<Live>>) {
    forall i :: 0 <= i < |L| ==> Ascending(L[i]) && Bounded(L[i])
  }

  // ----- exhaustive scoring

  ghost predicate Has(l: seq<Live>, d: nat) {
    exists a :: 0 <= a < |l| && l[a].node == d
  }

  ghost function ScoreIn(l: seq<Live>, d: nat): real {
    if l == [] then 0.0 else if l[0].node == d then l[0].score else ScoreIn(l[1..], d)
  }

  ghost function TermScores(L: seq<seq<Live>>, d: nat): (fs: seq<real>)
    ensures |fs| == |L| && forall i :: 0 <= i < |L| ==> fs[i] == ScoreIn(L[i], d)
  {
    seq(|L|, i requires 0 <= i < |L| => ScoreIn(L[i], d))
  }

  /** A document's complete score: the sum over all query terms. */
  ghost function DocScore(L: seq<seq<Live>>, d: nat): real {
    Sum(TermScores(L, d))
  }

  ghost function DocMask(L: seq<seq<Live>>, d: nat): Mask {
    set i | 0 <= i < |L| && Has(L[i], d)
  }

  ghost function Nodes(l: seq<Live>): (S: set<nat>)
    ensures forall d :: d in S <==> Has(l, d)
  {
    var S := set a | 0 <= a < |l| :: l[a].node;
    assert forall d :: Has(l, d) ==> d in S;
    S
  }

  ghost function AllNodes(L: seq<seq<Live>>): set<nat> {
    if L == [] then {} else Nodes(L[0]) + AllNodes(L[1..])
  }

  lemma {:induction false} InAllNodes(L: seq<seq<Live>>, d: nat)
    ensures d in AllNodes(L) <==> exists i :: 0 <= i < |L| && Has(L[i], d)
  {
    if L != [] {
      InAllNodes(L[1..], d);
      if d in AllNodes(L) {
        if !Has(L[0], d) {
          var i :| 0 <= i < |L[1..]| && Has(L[1..][i], d);
          assert Has(L[i + 1], d);
        }
      }
      if i :| 0 <= i < |L| && Has(L[i], d) {
        if i > 0 {
          assert Has(L[1..][i - 1], d);
        }
      }
    }
  }

  ghost function Scored(L: seq<seq<Live>>, d: nat): NodeScore {
    NodeScore(d, DocScore(L, d))
  }

  /** Every document whose matched terms satisfy the query, with its complete score. */
  ghost function Matching(L: seq<seq<Live>>, matcher: Matcher): (S: set<NodeScore>)
    ensures forall x :: x in S <==>
              x.node in AllNodes(L) && Matched(matcher, DocMask(L, x.node)) && x == Scored(L, x.node)
  {
    set d | d in AllNodes(L) && Matched(matcher, DocMask(L, d)) :: Scored(L, d)
  }

  // ----- the run

  /** k results, a boolean query over matched-term masks, and a candidate pruning rule. */
  datatype Query = Query(k: nat, matcher: Matcher, bound: FusedBound)

  ghost function DropBelow(l: seq<Live>, v: nat): seq<Live> {
    if l == [] || l[0].node >= v then l else DropBelow(l[1..], v)
  }

  ghost function DropAll(R: seq<seq<Live>>, v: nat): (R': seq<seq<Live>>)
    ensures |R'| == |R| && forall i :: 0 <= i < |R| ==> R'[i] == DropBelow(R[i], v)
  {
    seq(|R|, i requires 0 <= i < |R| => DropBelow(R[i], v))
  }

  ghost function BoundsUpTo(R: seq<seq<Live>>, v: nat): (fs: seq<real>)
    ensures |fs| == |R|
    ensures forall i :: 0 <= i < |R| ==> fs[i] == if R[i] != [] && R[i][0].node <= v then R[i][0].bound else 0.0
  {
    seq(|R|, i requires 0 <= i < |R| => if R[i] != [] && R[i][0].node <= v then R[i][0].bound else 0.0)
  }

  /** Upper bound of what the iterators standing at or before v can still contribute. */
  ghost function BoundUpTo(R: seq<seq<Live>>, v: nat): real {
    Sum(BoundsUpTo(R, v))
  }

  ghost predicate IsHead(R: seq<seq<Live>>, v: nat) {
    exists i :: 0 <= i < |R| && R[i] != [] && R[i][0].node == v
  }

  ghost predicate NoHeadBelow(R: seq<seq<Live>>, v: nat) {
    forall i :: 0 <= i < |R| && R[i] != [] ==> v <= R[i][0].node
  }

  /** The k-th best score so far; nothing is pruned before k documents are touched. */
  ghost function Threshold(T: seq<NodeScore>, k: nat): real {
    if 0 < k <= |T| && |SortBy(Before, T)| == |T| then SortBy(Before, T)[k - 1].score else 0.0
  }

  ghost predicate SomeHeadUpTo(R: seq<seq<Live>>, u: nat) {
    exists i :: 0 <= i < |R| && R[i] != [] && R[i][0].node <= u
  }

  /** The iterators standing at or before u could still produce a result. */
  ghost predicate CanBeat(R: seq<seq<Live>>, T: seq<NodeScore>, k: nat, u: nat) {
    |T| < k || BoundUpTo(R, u) > Threshold(T, k)
  }

  /** v is the first head at which the accumulated bounds can still beat the threshold. */
  ghost predicate IsPivot(R: seq<seq<Live>>, T: seq<NodeScore>, k: nat, v: nat) {
    && IsHead(R, v)
    && CanBeat(R, T, k, v)
    && forall u: nat :: u < v && SomeHeadUpTo(R, u) ==> !CanBeat(R, T, k, u)
  }

  ghost function TotalLen(R: seq<seq<Live>>): nat {
    if R == [] then 0 else |R[0]| + TotalLen(R[1..])
  }

  lemma {:induction false} DropShrinks(l: seq<Live>, v: nat)
    ensures |DropBelow(l, v)| <= |l|
    ensures l != [] && l[0].node < v ==> |DropBelow(l, v)| < |l|
    ensures l == [] || l[0].node >= v ==> DropBelow(l, v) == l
  {
    if !(l == [] || l[0].node >= v) {
      DropShrinks(l[1..], v);
    }
  }

  lemma {:induction false} DropAllShrinks(R: seq<seq<Live>>, v: nat)
    ensures TotalLen(DropAll(R, v)) <= TotalLen(R)
    ensures (exists i :: 0 <= i < |R| && R[i] != [] && R[i][0].node < v) ==> TotalLen(DropAll(R, v)) < TotalLen(R)
  {
    if R != [] {
      DropAllShrinks(R[1..], v);
      DropShrinks(R[0], v);
      assert DropAll(R, v)[1..] == DropAll(R[1..], v);
      if i :| 0 <= i < |R| && R[i] != [] && R[i][0].node < v {
        if i > 0 {
          assert R[1..][i - 1] == R[i];
        }
      }
    }
  }

  /** Documents accepted when the run stands at document v. */
  ghost function Visit(R: seq<seq<Live>>, T: seq<NodeScore>, q: Query, v: nat): seq<NodeScore> {
    var score := DocScore(R, v);
    if Matched(q.matcher, DocMask(R, v)) && (|T| < q.k || score > Threshold(T, q.k))
    then T + [NodeScore(v, score)]
    else T
  }

  /** What one turn at pivot v accepts, and the frontier it moves the iterators to. */
  ghost function Taken(R: seq<seq<Live>>, T: seq<NodeScore>, q: Query, v: nat): seq<NodeScore> {
    if !NoHeadBelow(R, v) || CanPrune(q.bound, v, BoundUpTo(R, v)) then T else Visit(R, T, q, v)
  }

  ghost function Frontier(R: seq<seq<Live>>, v: nat): nat {
    if NoHeadBelow(R, v) then v + 1 else v
  }

  lemma {:induction false} TurnShrinks(R: seq<seq<Live>>, v: nat)
    requires IsHead(R, v)
    ensures TotalLen(DropAll(R, Frontier(R, v))) < TotalLen(R)
  {
    DropAllShrinks(R, Frontier(R, v));
  }

  /** The accepted documents, in the order in which the loop accepts them. */
  ghost function Run(R: seq<seq<Live>>, T: seq<NodeScore>, q: Query): seq<NodeScore>
    decreases TotalLen(R)
  {
    if v: nat :| IsPivot(R, T, q.k, v) then
      TurnShrinks(R, v);
      Run(DropAll(R, Frontier(R, v)), Taken(R, T, q, v), q)
    else
      T
  }

  lemma {:induction false} PivotIsUnique(R: seq<seq<Live>>, T: seq<NodeScore>, k: nat, v: nat, v': nat)
    requires IsPivot(R, T, k, v) && IsPivot(R, T, k, v')
    ensures v == v'
  {
    assert SomeHeadUpTo(R, v) && SomeHeadUpTo(R, v');
  }

  /** If some bound still beats the threshold, there is a pivot. */
  lemma {:induction false} PivotExists(R: seq<seq<Live>>, T: seq<NodeScore>, k: nat, u: nat)
    requires SomeHeadUpTo(R, u) && CanBeat(R, T, k, u)
    ensures exists v: nat :: IsPivot(R, T, k, v)
  {
    if !IsHead(R, u) {
      assert SomeHeadUpTo(R, u - 1);
      assert BoundsUpTo(R, u - 1) == BoundsUpTo(R, u);
      PivotExists(R, T, k, u - 1);
    } else if w: nat :| w < u && SomeHeadUpTo(R, w) && CanBeat(R, T, k, w) {
      PivotExists(R, T, k, w);
    } else {
      assert IsPivot(R, T, k, u);
    }
  }

  // ----- what remains ahead of the frontier

  lemma {:induction false} DropBelowFacts(l: seq<Live>, v: nat)
    requires Ascending(l)
    ensures |DropBelow(l, v)| <= |l| && DropBelow(l, v) == l[|l| - |DropBelow(l, v)|..]
    ensures forall a :: 0 <= a < |DropBelow(l, v)| ==> DropBelow(l, v)[a].node >= v
    ensures forall a :: 0 <= a < |l| - |DropBelow(l, v)| ==> l[a].node < v
  {
    if !(l == [] || l[0].node >= v) {
      DropBelowFacts(l[1..], v);
    }
  }

  lemma {:induction false} DropTwice(l: seq<Live>, u: nat, v: nat)
    requires u <= v
    ensures DropBelow(DropBelow(l, u), v) == DropBelow(l, v)
  {
    if !(l == [] || l[0].node >= u) {
      DropTwice(l[1..], u, v);
    }
  }

  lemma {:induction false} DropAllTwice(L: seq<seq<Live>>, u: nat, v: nat)
    requires u <= v
    ensures DropAll(DropAll(L, u), v) == DropAll(L, v)
  {
    forall i | 0 <= i < |L|
      ensures DropBelow(DropBelow(L[i], u), v) == DropBelow(L[i], v)
    {
      DropTwice(L[i], u, v);
    }
  }

  lemma {:induction false} ScoreOfMember(l: seq<Live>, a: nat)
    requires Ascending(l) && a < |l|
    ensures ScoreIn(l, l[a].node) == l[a].score
  {
    if a > 0 {
      ScoreOfMember(l[1..], a - 1);
    }
  }

  lemma {:induction false} ScoreOfAbsent(l: seq<Live>, d: nat)
    requires !Has(l, d)
    ensures ScoreIn(l, d) == 0.0
  {
    if l != [] {
      assert l[0].node != d;
      forall a | 0 <= a < |l[1..]|
        ensures l[1..][a].node != d
      {
        assert l[a + 1].node != d;
      }
      ScoreOfAbsent(l[1..], d);
    }
  }

  lemma {:induction false} AheadUnchanged(l: seq<Live>, f: nat, d: nat)
    requires Ascending(l) && f <= d
    ensures Has(DropBelow(l, f), d) <==> Has(l, d)
    ensures ScoreIn(DropBelow(l, f), d) == ScoreIn(l, d)
  {
    DropBelowFacts(l, f);
    var r := DropBelow(l, f);
    var skip := |l| - |r|;
    if Has(l, d) {
      var a :| 0 <= a < |l| && l[a].node == d;
      assert r[a - skip] == l[a];
      ScoreOfMember(l, a);
      ScoreOfMember(r, a - skip);
    } else {
      assert forall a :: 0 <= a < |r| ==> r[a] == l[a + skip];
      ScoreOfAbsent(l, d);
      ScoreOfAbsent(r, d);
    }
  }

  /** A document at or beyond the frontier is seen in full by the iterators. */
  lemma {:induction false} DocUnchanged(L: seq<seq<Live>>, f: nat, d: nat)
    requires WellFormed(L) && f <= d
    ensures DocScore(DropAll(L, f), d) == DocScore(L, d)
    ensures DocMask(DropAll(L, f), d) == DocMask(L, d)
  {
    forall i | 0 <= i < |L|
      ensures Has(DropBelow(L[i], f), d) <==> Has(L[i], d)
      ensures ScoreIn(DropBelow(L[i], f), d) == ScoreIn(L[i], d)
    {
      AheadUnchanged(L[i], f, d);
    }
    assert TermScores(DropAll(L, f), d) == TermScores(L, d);
  }

  // ----- bounds

  /**
   The bound of the chunk an iterator stands on also covers everything after it.  Node 0 is
   exempt: nothing can have been accepted before it.
   */
  ghost predicate Safe(l: seq<Live>) {
    forall a, b :: 0 <= a <= b < |l| && l[a].node > 0 ==> l[b].score <= l[a].bound
  }

  ghost predicate AllSafe(L: seq<seq<Live>>) {
    forall i :: 0 <= i < |L| ==> Safe(L[i])
  }

  /** Bounds that never grow along a list cover everything after them. */
  lemma {:induction false} NonIncreasingIsSafe(l: seq<Live>)
    requires Bounded(l) && forall a, b :: 0 <= a < b < |l| ==> l[b].bound <= l[a].bound
    ensures Safe(l)
  {
  }

  /** At the smallest head every contribution lies in a current chunk: any layout will do. */
  lemma {:induction false} HeadScoreBounded(L: seq<seq<Live>>, f: nat, v: nat)
    requires WellFormed(L) && NoHeadBelow(DropAll(L, f), v)
    ensures DocScore(DropAll(L, f), v) <= BoundUpTo(DropAll(L, f), v)
  {
    var R := DropAll(L, f);
    forall i | 0 <= i < |R|
      ensures TermScores(R, v)[i] <= BoundsUpTo(R, v)[i]
    {
      DropBelowFacts(L[i], f);
      HeadScore(R[i], v);
    }
    SumMonotone(TermScores(R, v), BoundsUpTo(R, v));
  }

  lemma {:induction false} HeadScore(r: seq<Live>, d: nat)
    requires Ascending(r) && (r != [] ==> r[0].node >= d)
    ensures r != [] && r[0].node == d ==> ScoreIn(r, d) == r[0].score
    ensures r == [] || r[0].node != d ==> ScoreIn(r, d) == 0.0
  {
    if r == [] || r[0].node != d {
      ScoreOfAbsent(r, d);
    }
  }

  lemma {:induction false} SafeScoreBounded(L: seq<seq<Live>>, f: nat, d: nat)
    requires WellFormed(L) && AllSafe(L) && 0 < f <= d
    ensures DocScore(DropAll(L, f), d) <= BoundUpTo(DropAll(L, f), d)
  {
    var R := DropAll(L, f);
    forall i | 0 <= i < |R|
      ensures TermScores(R, d)[i] <= BoundsUpTo(R, d)[i]
    {
      var r := R[i];
      DropBelowFacts(L[i], f);
      var skip := |L[i]| - |r|;
      if Has(r, d) {
        var b :| 0 <= b < |r| && r[b].node == d;
        ScoreOfMember(r, b);
        assert r[b] == L[i][skip + b] && r[0] == L[i][skip];
      } else {
        ScoreOfAbsent(r, d);
      }
    }
    SumMonotone(TermScores(R, d), BoundsUpTo(R, d));
  }

  // ----- the k-th score

  ghost predicate Increasing(T: seq<NodeScore>) {
    forall a, b :: 0 <= a < b < |T| ==> T[a].node < T[b].node
  }

  lemma {:induction false} IncreasingIsRankable(T: seq<NodeScore>)
    requires Increasing(T)
    ensures Distinct(T) && TotalOn(Before, Elements(T)) && WeakOrder(Before)
  {
    forall x, y | x in Elements(T) && y in Elements(T) && x != y
      ensures Before(x, y) || Before(y, x)
    {
      var a :| 0 <= a < |T| && T[a] == x;
      var b :| 0 <= b < |T| && T[b] == y;
    }
  }

  /** A later document that does not score above the threshold is beaten by k accepted ones. */
  lemma {:induction false} ThresholdBeats(T: seq<NodeScore>, k: nat, x: NodeScore)
    requires Increasing(T) && k <= |T| && x.score <= Threshold(T, k)
    requires forall a :: 0 <= a < |T| ==> T[a].node < x.node
    ensures Rank(Before, Elements(T), x) >= k
  {
    if k == 0 {
      return;
    }
    IncreasingIsRankable(T);
    SortByIsTopK(Before, T, k);
    var r := SortBy(Before, T)[..k];
    var last := r[k - 1];
    assert last.score == Threshold(T, k);
    assert last in Elements(T);
    assert Before(last, x) by {
      var a :| 0 <= a < |T| && T[a] == last;
    }
    BetterHasSmallerRank(Before, Elements(T), last, x);
  }

  // ----- the run is sound and complete

  /** x was accepted, pruned by the caller's rule, or k documents are already there (and beat it). */
  ghost predicate Accounted(L: seq<seq<Live>>, q: Query, r: seq<NodeScore>, x: NodeScore) {
    || x in r
    || (exists ub: real :: ub >= x.score && CanPrune(q.bound, x.node, ub))
    || (|r| >= q.k && (AllSafe(L) ==> Rank(Before, Elements(r), x) >= q.k))
  }

  ghost predicate Accepted(L: seq<seq<Live>>, q: Query, T: seq<NodeScore>, f: nat) {
    && Increasing(T)
    && (forall a :: 0 <= a < |T| ==> T[a].node < f && T[a] in Matching(L, q.matcher))
  }

  lemma {:induction false} AccountedExtends(L: seq<seq<Live>>, q: Query, T: seq<NodeScore>, r: seq<NodeScore>,
                                            x: NodeScore)
    requires Accounted(L, q, T, x) && T <= r
    ensures Accounted(L, q, r, x)
  {
    assert forall y :: y in T ==> y in r;
    RankIsMonotone(Before, Elements(T), Elements(r), x);
  }

  /** A document ahead of the frontier has some iterator standing at or before it. */
  lemma {:induction false} PendingHasHead(L: seq<seq<Live>>, f: nat, d: nat)
    requires WellFormed(L) && f <= d && d in AllNodes(L)
    ensures SomeHeadUpTo(DropAll(L, f), d)
  {
    InAllNodes(L, d);
    var i :| 0 <= i < |L| && Has(L[i], d);
    AheadUnchanged(L[i], f, d);
    DropBelowFacts(L[i], f);
    var R := DropAll(L, f);
    assert R[i] == DropBelow(L[i], f);
    var a :| 0 <= a < |R[i]| && R[i][a].node == d;
    assert R[i] != [] && R[i][0].node <= d;
  }

  lemma {:induction false} DismissedIsAccounted(L: seq<seq<Live>>, q: Query, f: nat, T: seq<NodeScore>, x: NodeScore)
    requires WellFormed(L) && Accepted(L, q, T, f) && x in Matching(L, q.matcher) && f <= x.node
    requires !CanBeat(DropAll(L, f), T, q.k, x.node)
    ensures Accounted(L, q, T, x)
  {
    if AllSafe(L) && q.k > 0 {
      assert T[0].node < f;
      DocUnchanged(L, f, x.node);
      SafeScoreBounded(L, f, x.node);
      ThresholdBeats(T, q.k, x);
    }
  }

  /** Visiting document v accounts for it, whatever the layout of the chunks. */
  lemma {:induction false} VisitAccounts(L: seq<seq<Live>>, q: Query, f: nat, T: seq<NodeScore>, v: nat)
    requires WellFormed(L) && Accepted(L, q, T, f) && f <= v && IsHead(DropAll(L, f), v)
    ensures var T' := Visit(DropAll(L, f), T, q, v);
            T <= T' && Accepted(L, q, T', v + 1) &&
            (Scored(L, v) in Matching(L, q.matcher) ==> Accounted(L, q, T', Scored(L, v)))
  {
    var R := DropAll(L, f);
    var T' := Visit(R, T, q, v);
    DocUnchanged(L, f, v);
    assert v in AllNodes(L) by {
      var i :| 0 <= i < |R| && R[i] != [] && R[i][0].node == v;
      assert Has(R[i], v);
      AheadUnchanged(L[i], f, v);
      assert Has(L[i], v);
      InAllNodes(L, v);
    }
    if Matched(q.matcher, DocMask(L, v)) {
      var x := Scored(L, v);
      if |T| < q.k || x.score > Threshold(T, q.k) {
        assert T' == T + [x];
        assert T'[|T|] == x;
      } else {
        ThresholdBeats(T, q.k, x);
      }
    }
  }

  lemma {:induction false} NothingBeforeHead(L: seq<seq<Live>>, f: nat, v: nat, d: nat)
    requires WellFormed(L) && NoHeadBelow(DropAll(L, f), v) && f <= d && d in AllNodes(L)
    ensures v <= d
  {
    PendingHasHead(L, f, d);
  }

  /** What a run from frontier f with T already accepted ends with. */
  ghost predicate RunFacts(L: seq<seq<Live>>, q: Query, f: nat, T: seq<NodeScore>, r: seq<NodeScore>) {
    && T <= r && Increasing(r)
    && (forall x :: x in r ==> x in Matching(L, q.matcher))
    && (forall x :: x in Matching(L, q.matcher) && f <= x.node ==> Accounted(L, q, r, x))
  }

  /** Seeking to the pivot passes only documents that cannot win. */
  lemma {:induction false} SeekKeeps(L: seq<seq<Live>>, q: Query, f: nat, T: seq<NodeScore>, v: nat, r: seq<NodeScore>)
    requires WellFormed(L) && Accepted(L, q, T, f) && IsPivot(DropAll(L, f), T, q.k, v)
    requires RunFacts(L, q, v, T, r)
    ensures RunFacts(L, q, f, T, r)
  {
    forall x | x in Matching(L, q.matcher) && f <= x.node
      ensures Accounted(L, q, r, x)
    {
      if x.node < v {
        PendingHasHead(L, f, x.node);
        DismissedIsAccounted(L, q, f, T, x);
        AccountedExtends(L, q, T, r, x);
      }
    }
  }

  /** Stepping past a pruned head loses nothing the caller's rule does not account for. */
  lemma {:induction false} PruneKeeps(L: seq<seq<Live>>, q: Query, f: nat, T: seq<NodeScore>, v: nat, r: seq<NodeScore>)
    requires WellFormed(L) && NoHeadBelow(DropAll(L, f), v) && f <= v
    requires CanPrune(q.bound, v, BoundUpTo(DropAll(L, f), v)) && RunFacts(L, q, v + 1, T, r)
    ensures RunFacts(L, q, f, T, r)
  {
    forall x | x in Matching(L, q.matcher) && f <= x.node
      ensures Accounted(L, q, r, x)
    {
      NothingBeforeHead(L, f, v, x.node);
      if x.node == v {
        DocUnchanged(L, f, v);
        HeadScoreBounded(L, f, v);
      }
    }
  }

  lemma {:induction false} VisitKeeps(L: seq<seq<Live>>, q: Query, f: nat, T: seq<NodeScore>, v: nat, r: seq<NodeScore>)
    requires WellFormed(L) && Accepted(L, q, T, f) && NoHeadBelow(DropAll(L, f), v) && f <= v && IsHead(DropAll(L, f), v)
    requires RunFacts(L, q, v + 1, Visit(DropAll(L, f), T, q, v), r)
    ensures RunFacts(L, q, f, T, r)
  {
    VisitAccounts(L, q, f, T, v);
    forall x | x in Matching(L, q.matcher) && f <= x.node
      ensures Accounted(L, q, r, x)
    {
      NothingBeforeHead(L, f, v, x.node);
      if x.node == v {
        AccountedExtends(L, q, Visit(DropAll(L, f), T, q, v), r, x);
      }
    }
  }

  lemma {:induction false} StopKeeps(L: seq<seq<Live>>, q: Query, f: nat, T: seq<NodeScore>)
    requires WellFormed(L) && Accepted(L, q, T, f) && !exists v: nat :: IsPivot(DropAll(L, f), T, q.k, v)
    ensures RunFacts(L, q, f, T, T)
  {
    forall x | x in Matching(L, q.matcher) && f <= x.node
      ensures Accounted(L, q, T, x)
    {
      PendingHasHead(L, f, x.node);
      if CanBeat(DropAll(L, f), T, q.k, x.node) {
        PivotExists(DropAll(L, f), T, q.k, x.node);
      }
      DismissedIsAccounted(L, q, f, T, x);
    }
  }

  /** One turn of the loop at pivot v. */
  lemma {:induction false} RunStep(R: seq<seq<Live>>, T: seq<NodeScore>, q: Query, v: nat)
    requires IsPivot(R, T, q.k, v)
    ensures Run(R, T, q) == Run(DropAll(R, Frontier(R, v)), Taken(R, T, q, v), q)
    ensures TotalLen(DropAll(R, Frontier(R, v))) < TotalLen(R)
  {
    forall v': nat | IsPivot(R, T, q.k, v') ensures v' == v {
      PivotIsUnique(R, T, q.k, v, v');
    }
    TurnShrinks(R, v);
  }

  /**
   The whole run: documents are accepted in strictly increasing node order, each once and with
   its complete score; and every matching document ahead of the frontier is accounted for.
   */
  lemma {:induction false} RunAccounts(L: seq<seq<Live>>, q: Query, f: nat, T: seq<NodeScore>)
    requires WellFormed(L) && Accepted(L, q, T, f)
    ensures RunFacts(L, q, f, T, Run(DropAll(L, f), T, q))
    decreases TotalLen(DropAll(L, f))
  {
    var R := DropAll(L, f);
    var r := Run(R, T, q);
    if v: nat :| IsPivot(R, T, q.k, v) {
      RunStep(R, T, q, v);
      HeadIsAhead(L, f, v);
      DropAllTwice(L, f, v);
      DropAllTwice(L, f, v + 1);
      AcceptedLater(L, q, T, f, v);
      AcceptedLater(L, q, T, f, v + 1);
      if !NoHeadBelow(R, v) {
        RunAccounts(L, q, v, T);
        SeekKeeps(L, q, f, T, v, r);
      } else if CanPrune(q.bound, v, BoundUpTo(R, v)) {
        RunAccounts(L, q, v + 1, T);
        PruneKeeps(L, q, f, T, v, r);
      } else {
        VisitAccounts(L, q, f, T, v);
        RunAccounts(L, q, v + 1, Visit(R, T, q, v));
        VisitKeeps(L, q, f, T, v, r);
      }
    } else {
      StopKeeps(L, q, f, T);
    }
  }

  lemma {:induction false} HeadIsAhead(L: seq<seq<Live>>, f: nat, v: nat)
    requires WellFormed(L) && IsHead(DropAll(L, f), v)
    ensures f <= v
  {
    var R: seq<seq<Live>> := DropAll(L, f);
    var i :| 0 <= i < |R| && R[i] != [] && R[i][0].node == v;
    DropBelowFacts(L[i], f);
  }

  lemma {:induction false} AcceptedLater(L: seq<seq<Live>>, q: Query, T: seq<NodeScore>, f: nat, f': nat)
    requires Accepted(L, q, T, f) && f <= f'
    ensures Accepted(L, q, T, f')
  {
  }

  // ----- exactness

  ghost predicate NeverPrunes(q: Query) {
    !q.bound.enabled
  }

  lemma {:induction false} DropNothing(L: seq<seq<Live>>)
    ensures DropAll(L, 0) == L
  {
  }

  /** What a selection of k may be made from instead of all: whatever is missing is beaten by k kept ones. */
  ghost predicate Suffices(kept: set<NodeScore>, all: set<NodeScore>, k: nat) {
    kept <= all && forall x :: x in all - kept ==> Rank(Before, kept, x) >= k
  }

  /** With bounds that cover what follows them, whatever is not accepted is beaten by k accepted documents. */
  lemma {:induction false} WandSuffices(L: seq<seq<Live>>, q: Query)
    requires WellFormed(L) && AllSafe(L) && NeverPrunes(q)
    ensures Suffices(Elements(Run(L, [], q)), Matching(L, q.matcher), q.k)
  {
    DropNothing(L);
    RunAccounts(L, q, 0, []);
  }

  /** So the k best accepted documents are the k best of all matching documents under exhaustive scoring. */
  lemma {:induction false} WandIsExact(L: seq<seq<Live>>, q: Query, top: seq<NodeScore>)
    requires WellFormed(L) && AllSafe(L) && NeverPrunes(q)
    requires IsTopK(Before, Elements(Run(L, [], q)), q.k, top)
    ensures IsTopK(Before, Matching(L, q.matcher), q.k, top)
  {
    WandSuffices(L, q);
    BeforeIsWeakOrder();
    PruneKeepsTopK(Before, Elements(Run(L, [], q)), Matching(L, q.matcher), q.k, top);
  }

  /**
   With a budget of at least the number of matches, every match is accepted unless the
   caller's rule pruned it, whatever the layout of the chunks.
   */
  lemma {:induction false} LargeBudgetAcceptsAll(L: seq<seq<Live>>, q: Query, x: NodeScore)
    requires WellFormed(L) && |Matching(L, q.matcher)| <= q.k
    requires x in Matching(L, q.matcher)
    ensures x in Run(L, [], q) || exists ub: real :: ub >= x.score && CanPrune(q.bound, x.node, ub)
  {
    DropNothing(L);
    RunAccounts(L, q, 0, []);
    var r := Run(L, [], q);
    if |r| >= q.k {
      IncreasingIsRankable(r);
      DistinctSize(r);
      SubsetSize(Elements(r), Matching(L, q.matcher));
    }
  }

  // ----- the condition is also necessary

  /** The live postings of a list when only the nodes in alive are. */
  ghost function Surviving(l: seq<Live>, alive: set<nat>): seq<Live> {
    if l == [] then [] else (if l[0].node in alive then [l[0]] else []) + Surviving(l[1..], alive)
  }

  lemma {:induction false} SurvivingIsSublist(l: seq<Live>, alive: set<nat>)
    requires Ascending(l)
    ensures Ascending(Surviving(l, alive))
    ensures forall c :: 0 <= c < |Surviving(l, alive)| ==> Surviving(l, alive)[c] in l
  {
    if l != [] {
      SurvivingIsSublist(l[1..], alive);
      var s, r := Surviving(l[1..], alive), Surviving(l, alive);
      forall c | 0 <= c < |s|
        ensures s[c] in l && s[c].node > l[0].node
      {
        var e :| 0 <= e < |l[1..]| && l[1..][e] == s[c];
        assert l[e + 1] == s[c];
      }
      forall c | 0 <= c < |r|
        ensures r[c] in l
      {
        assert r[c] == l[0] || r[c] in s;
      }
    }
  }

  lemma {:induction false} SurvivingKeeps(l: seq<Live>, alive: set<nat>)
    requires Ascending(l) && Bounded(l)
    ensures Ascending(Surviving(l, alive)) && Bounded(Surviving(l, alive))
    ensures Safe(l) ==> Safe(Surviving(l, alive))
  {
    SurvivingIsSublist(l, alive);
    var s := Surviving(l, alive);
    if Safe(l) {
      forall c, e | 0 <= c <= e < |s| && s[c].node > 0
        ensures s[e].score <= s[c].bound
      {
        var a :| 0 <= a < |l| && l[a] == s[c];
        var b :| 0 <= b < |l| && l[b] == s[e];
        assert a <= b;
      }
    }
  }

  lemma {:induction false} SurvivingPair(l: seq<Live>, a: nat, b: nat, alive: set<nat>)
    requires Ascending(l) && a < b < |l| && forall c :: 0 <= c < |l| ==> (l[c].node in alive <==> c == a || c == b)
    ensures Surviving(l, alive) == [l[a], l[b]]
  {
    if a > 0 {
      SurvivingPair(l[1..], a - 1, b - 1, alive);
    } else {
      SurvivingOne(l[1..], b - 1, alive);
    }
  }

  lemma {:induction false} SurvivingOne(l: seq<Live>, b: nat, alive: set<nat>)
    requires Ascending(l) && b < |l| && forall c :: 0 <= c < |l| ==> (l[c].node in alive <==> c == b)
    ensures Surviving(l, alive) == [l[b]]
  {
    if b > 0 {
      SurvivingOne(l[1..], b - 1, alive);
    } else {
      SurvivingNone(l[1..], alive);
    }
  }

  lemma {:induction false} SurvivingNone(l: seq<Live>, alive: set<nat>)
    requires forall c :: 0 <= c < |l| ==> l[c].node !in alive
    ensures Surviving(l, alive) == []
  {
    if l != [] {
      SurvivingNone(l[1..], alive);
    }
  }

  /** One live set filters all lists. */
  ghost function SurvivingAll(L: seq<seq<Live>>, alive: set<nat>): (L': seq<seq<Live>>)
    ensures |L'| == |L| && forall i :: 0 <= i < |L| ==> L'[i] == Surviving(L[i], alive)
  {
    seq(|L|, i requires 0 <= i < |L| => Surviving(L[i], alive))
  }

  /** WAND agrees with exhaustive scoring on this query over these lists. */
  ghost predicate ExactOn(L: seq<seq<Live>>, q: Query) {
    forall top :: IsTopK(Before, Elements(Run(L, [], q)), q.k, top) ==> IsTopK(Before, Matching(L, q.matcher), q.k, top)
  }

  /** WAND is exact whichever documents are alive and whichever safe lists the list is queried with. */
  ghost predicate AlwaysExact(l: seq<Live>) {
    forall alive: set<nat>, others: seq<seq<Live>>, q: Query ::
      WellFormed(others) && AllSafe(others) && NeverPrunes(q) ==> ExactOn(SurvivingAll([l] + others, alive), q)
  }

  /** The query a | b. */
  const EITHER: Matcher := Prepare(Or(Val("a"), Val("b")))

  lemma {:induction false} EitherMatches(m: Mask)
    requires 0 in m || 1 in m
    ensures Matched(EITHER, m)
  {
    var q := Or(Val("a"), Val("b"));
    assert Collect(Val("b"), false, []) == ["b"];
    assert Terms(q) == ["b", "a"];
    assert 0 in AllBits(2) && 1 in AllBits(2);
    assert 0 in m ==> 0 in m * AllBits(2);
    assert 1 in m ==> 1 in m * AllBits(2);
  }

  lemma {:induction false} SumOfTwo(fs: seq<real>)
    requires |fs| == 2
    ensures Sum(fs) == fs[0] + fs[1]
  {
    assert Sum(fs[1..]) == fs[1] + Sum(fs[1..][1..]);
    assert Sum(fs[1..][1..]) == 0.0;
  }

  /** Ask for the best of a | b. */
  const BEST: Query := Query(1, EITHER, NO_BOUND)

  /** Two lists of which one starts with document 0, and bounds that promise nothing better after it. */
  ghost predicate Trap(L: seq<seq<Live>>) {
    && |L| == 2 && WellFormed(L) && IsHead(L, 0)
    && forall v: nat :: BoundUpTo(DropAll(L, 1), v) <= DocScore(L, 0)
  }

  lemma {:induction false} HeadMatches(L: seq<seq<Live>>, d: nat, i: nat)
    requires |L| == 2 && i < 2 && Has(L[i], d)
    ensures d in AllNodes(L) && Matched(EITHER, DocMask(L, d))
  {
    assert i in DocMask(L, d);
    EitherMatches(DocMask(L, d));
    InAllNodes(L, d);
  }

  lemma {:induction false} FirstVisit(L: seq<seq<Live>>)
    requires Trap(L)
    ensures IsPivot(L, [], 1, 0) && NoHeadBelow(L, 0) && Visit(L, [], BEST, 0) == [NodeScore(0, DocScore(L, 0))]
  {
    var i :| 0 <= i < |L| && L[i] != [] && L[i][0].node == 0;
    HeadMatches(L, 0, i);
  }

  lemma {:induction false} ThenStops(L: seq<seq<Live>>, v: nat)
    requires Trap(L)
    ensures !IsPivot(DropAll(L, 1), [NodeScore(0, DocScore(L, 0))], 1, v)
  {
    var T := [NodeScore(0, DocScore(L, 0))];
    assert SortBy(Before, T) == Insert(Before, T[0], SortBy(Before, T[1..]));
    assert SortBy(Before, T[1..]) == [];
    assert Threshold(T, 1) == DocScore(L, 0);
  }

  /** The run stops after document 0. */
  lemma {:induction false} StopsTooEarly(L: seq<seq<Live>>)
    requires Trap(L)
    ensures Run(L, [], BEST) == [NodeScore(0, DocScore(L, 0))]
  {
    FirstVisit(L);
    RunStep(L, [], BEST, 0);
    forall v: nat ensures !IsPivot(DropAll(L, 1), [NodeScore(0, DocScore(L, 0))], 1, v) {
      ThenStops(L, v);
    }
  }

  /** That is wrong if a document of either list scores more. */
  lemma {:induction false} TrapIsInexact(L: seq<seq<Live>>, d: nat, i: nat)
    requires Trap(L) && i < 2 && Has(L[i], d) && DocScore(L, d) > DocScore(L, 0)
    ensures !ExactOn(L, BEST)
  {
    var z, M := NodeScore(0, DocScore(L, 0)), Matching(L, EITHER);
    StopsTooEarly(L);
    assert Beating(Before, {z}, z) == {};
    assert Elements([z]) == {z};
    assert IsTopK(Before, {z}, 1, [z]);
    HeadMatches(L, d, i);
    assert Scored(L, d) in Beating(Before, M, z);
    assert [z][0] == z && !IsTopK(Before, M, 1, [z]);
  }

  /** A chunk holding x whose bound does not cover a later y. */
  ghost predicate Uncovered(x: Live, y: Live) {
    0 < x.node < y.node && 0.0 <= x.score <= x.bound < y.score <= y.bound
  }

  lemma {:induction false} TwoListScore(L: seq<seq<Live>>, d: nat)
    requires |L| == 2
    ensures DocScore(L, d) == ScoreIn(L[0], d) + ScoreIn(L[1], d)
  {
    SumOfTwo(TermScores(L, d));
  }

  lemma {:induction false} TwoListBound(R: seq<seq<Live>>, v: nat)
    requires |R| == 2
    ensures BoundUpTo(R, v) == BoundsUpTo(R, v)[0] + BoundsUpTo(R, v)[1]
  {
    SumOfTwo(BoundsUpTo(R, v));
  }

  /** A list that ends with x and y, and scores zero at document 0. */
  ghost predicate EndsUncovered(l: seq<Live>, x: Live, y: Live, zero: real) {
    && Uncovered(x, y) && Ascending(l) && Bounded(l) && DropBelow(l, 1) == [x, y]
    && ScoreIn(l, 0) == zero >= 0.0 && Has(l, y.node) && ScoreIn(l, y.node) == y.score
  }

  lemma {:induction false} PairEnds(x: Live, y: Live)
    requires Uncovered(x, y)
    ensures EndsUncovered([x, y], x, y, 0.0)
  {
    var l := [x, y];
    assert l[1] == y;
    ScoreOfAbsent(l, 0);
    ScoreOfMember(l, 1);
  }

  lemma {:induction false} TripleEnds(p: Live, x: Live, y: Live)
    requires Uncovered(x, y) && p.node == 0 && 0.0 <= p.score <= p.bound
    ensures EndsUncovered([p, x, y], x, y, p.score)
  {
    var l := [p, x, y];
    assert l[2] == y && l[1..] == [x, y];
    ScoreOfMember(l, 0);
    ScoreOfMember(l, 2);
  }

  /** The other list adds to document 0 what it lacks of the bound of x. */
  lemma {:induction false} TrapAtZero(l: seq<Live>, x: Live, y: Live, zero: real)
    requires EndsUncovered(l, x, y, zero) && zero <= x.bound
    ensures !ExactOn([l, [Live(0, x.bound - zero, x.bound - zero)]], BEST)
  {
    var z := Live(0, x.bound - zero, x.bound - zero);
    var L: seq<seq<Live>> := [l, [z]];
    assert L[1][0].node == 0;
    BoundAfterZero(L, x, y, x.bound);
    TwoListScore(L, 0);
    TwoListScore(L, y.node);
    ScoreOfMember(L[1], 0);
    ScoreOfAbsent(L[1], y.node);
    TrapIsInexact(L, y.node, 0);
  }

  /** Document 0 scores more than the bound of x alone; the other list makes up the difference at y. */
  lemma {:induction false} TrapAtLater(l: seq<Live>, x: Live, y: Live, zero: real)
    requires EndsUncovered(l, x, y, zero) && zero > x.bound && l[0].node == 0
    ensures !ExactOn([l, [Live(y.node, zero - x.bound, zero - x.bound)]], BEST)
  {
    var z := Live(y.node, zero - x.bound, zero - x.bound);
    var L: seq<seq<Live>> := [l, [z]];
    assert L[0][0].node == 0;
    BoundAfterZero(L, x, y, zero);
    TwoListScore(L, 0);
    TwoListScore(L, y.node);
    ScoreOfAbsent(L[1], 0);
    ScoreOfMember(L[1], 0);
    TrapIsInexact(L, y.node, 0);
  }

  /** After document 0 the bounds add up to that of x and that of the other list, if it goes on. */
  lemma {:induction false} BoundAfterZero(L: seq<seq<Live>>, x: Live, y: Live, most: real)
    requires |L| == 2 && DropBelow(L[0], 1) == [x, y] && |L[1]| == 1 && x.bound >= 0.0 && L[1][0].bound >= 0.0
    requires x.bound + (if L[1][0].node == 0 then 0.0 else L[1][0].bound) <= most
    ensures forall v: nat :: BoundUpTo(DropAll(L, 1), v) <= most
  {
    var R := DropAll(L, 1);
    assert R[0] == [x, y];
    assert L[1][1..] == [] && DropBelow(L[1][1..], 1) == [];
    assert R[1] == if L[1][0].node == 0 then [] else L[1];
    forall v: nat
      ensures BoundUpTo(R, v) <= most
    {
      TwoListBound(R, v);
    }
  }

  /** The postings left of a list when only document 0 and two others are alive. */
  lemma {:induction false} SurvivingTrap(l: seq<Live>, a: nat, b: nat)
    requires Ascending(l) && a < b < |l| && l[a].node > 0
    ensures Surviving(l, {0, l[a].node, l[b].node}) == (if l[0].node == 0 then [l[0]] else []) + [l[a], l[b]]
  {
    var alive := {0, l[a].node, l[b].node};
    if l[0].node == 0 {
      SurvivingPair(l[1..], a - 1, b - 1, alive);
    } else {
      SurvivingPair(l, a, b, alive);
      assert [] + [l[a], l[b]] == [l[a], l[b]];
    }
  }

  /** What is left of a list with an uncovered posting. */
  lemma {:induction false} SurvivorsEnd(l: seq<Live>, a: nat, b: nat) returns (s: seq<Live>, zero: real)
    requires Ascending(l) && Bounded(l) && a < b < |l| && Uncovered(l[a], l[b])
    ensures s == Surviving(l, {0, l[a].node, l[b].node}) && EndsUncovered(s, l[a], l[b], zero)
    ensures s[0].node == 0 || zero == 0.0
  {
    SurvivingTrap(l, a, b);
    if l[0].node == 0 {
      s, zero := [l[0], l[a], l[b]], l[0].score;
      assert [l[0]] + [l[a], l[b]] == s;
      TripleEnds(l[0], l[a], l[b]);
    } else {
      s, zero := [l[a], l[b]], 0.0;
      PairEnds(l[a], l[b]);
    }
  }

  /** A second list that makes the early stop go wrong, its document alive with the others. */
  lemma {:induction false} TrapFor(s: seq<Live>, x: Live, y: Live, zero: real) returns (z: Live)
    requires EndsUncovered(s, x, y, zero) && (s[0].node == 0 || zero == 0.0)
    ensures (z.node == 0 || z.node == y.node) && 0.0 <= z.score <= z.bound
    ensures !ExactOn([s, [z]], BEST)
  {
    if zero <= x.bound {
      z := Live(0, x.bound - zero, x.bound - zero);
      TrapAtZero(s, x, y, zero);
    } else {
      z := Live(y.node, zero - x.bound, zero - x.bound);
      TrapAtLater(s, x, y, zero);
    }
  }

  lemma {:induction false} SurvivingTwo(l: seq<Live>, z: Live, alive: set<nat>)
    requires z.node in alive
    ensures SurvivingAll([l] + [[z]], alive) == [Surviving(l, alive), [z]]
  {
    var L: seq<seq<Live>> := [l] + [[z]];
    assert L[0] == l && L[1] == [z];
    SurvivingOne([z], 0, alive);
  }

  lemma {:induction false} OneIsSafe(z: Live)
    requires 0.0 <= z.score <= z.bound
    ensures WellFormed([[z]]) && AllSafe([[z]])
  {
  }

  /** A list whose bounds fail to cover what follows is queried wrongly by some query. */
  lemma {:induction false} UnsafeIsInexact(l: seq<Live>)
    requires Ascending(l) && Bounded(l) && !Safe(l)
    ensures !AlwaysExact(l)
  {
    var a, b :| 0 <= a <= b < |l| && l[a].node > 0 && l[b].score > l[a].bound;
    var s, zero := SurvivorsEnd(l, a, b);
    var z := TrapFor(s, l[a], l[b], zero);
    SurvivingTwo(l, z, {0, l[a].node, l[b].node});
    NotAlwaysExact(l, z, {0, l[a].node, l[b].node});
  }

  lemma {:induction false} NotAlwaysExact(l: seq<Live>, z: Live, alive: set<nat>)
    requires 0.0 <= z.score <= z.bound && !ExactOn(SurvivingAll([l] + [[z]], alive), BEST)
    ensures !AlwaysExact(l)
  {
    OneIsSafe(z);
    assert NeverPrunes(BEST);
  }

  lemma {:induction false} SurvivorsAreSafe(L: seq<seq<Live>>, alive: set<nat>)
    requires WellFormed(L) && AllSafe(L)
    ensures WellFormed(SurvivingAll(L, alive)) && AllSafe(SurvivingAll(L, alive))
  {
    forall i | 0 <= i < |L|
      ensures Ascending(Surviving(L[i], alive)) && Bounded(Surviving(L[i], alive)) && Safe(Surviving(L[i], alive))
    {
      SurvivingKeeps(L[i], alive);
    }
  }

  /** Exactly when the code meets the promise of exhaustive scoring. */
  lemma {:induction false} ExactIffSafe(l: seq<Live>)
    requires Ascending(l) && Bounded(l)
    ensures AlwaysExact(l) <==> Safe(l)
  {
    if Safe(l) {
      forall alive: set<nat>, others: seq<seq<Live>>, q: Query
        | WellFormed(others) && AllSafe(others) && NeverPrunes(q)
        ensures ExactOn(SurvivingAll([l] + others, alive), q)
      {
        var L: seq<seq<Live>> := SurvivingAll([l] + others, alive);
        SurvivorsAreSafe([l] + others, alive);
        forall top | IsTopK(Before, Elements(Run(L, [], q)), q.k, top)
          ensures IsTopK(Before, Matching(L, q.matcher), q.k, top)
        {
          WandIsExact(L, q, top);
        }
      }
    } else {
      UnsafeIsInexact(l);
    }
  }
}
