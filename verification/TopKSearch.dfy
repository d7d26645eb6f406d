/** The BM25 branch from end to end: base scoring by one of three strategies, delta scoring, final selection. */
module TopKSearch {
  import opened Ranking
  import opened QueryEval
  import opened FusedBound
  import opened Accumulator
  import opened Wand
  import opened PostingLists
  import opened PostingIterators
  import opened WandSearch
  import opened AndSearch
  import opened FinalSelection
  import opened Exhaustive

  // ----- base and delta documents together

  /** Each term's base and delta postings in one list. */
  ghost function Combined(L: seq<seq<Live>>, D: seq<seq<Live>>): (C: seq<seq<Live>>)
    requires |D| == |L|
    ensures |C| == |L| && forall i :: 0 <= i < |L| ==> C[i] == L[i] + D[i]
  {
    seq(|L|, i requires 0 <= i < |L| => L[i] + D[i])
  }

  /** No document is in the base and in the delta. */
  ghost predicate Disjoint(L: seq<seq<Live>>, D: seq<seq<Live>>) {
    forall n :: n in AllNodes(L) ==> n !in AllNodes(D)
  }

  lemma {:induction false} HasJoined(l: seq<Live>, d: seq<Live>, n: nat)
    ensures Has(l + d, n) <==> Has(l, n) || Has(d, n)
  {
    var r := l + d;
    assert forall a :: 0 <= a < |l| ==> r[a] == l[a];
    assert forall b :: 0 <= b < |d| ==> r[|l| + b] == d[b];
    if Has(r, n) {
      var a :| 0 <= a < |r| && r[a].node == n;
      assert a < |l| ==> Has(l, n);
      assert a >= |l| ==> d[a - |l|].node == n;
    }
  }

  lemma {:induction false} ScoreJoined(l: seq<Live>, d: seq<Live>, n: nat)
    ensures ScoreIn(l + d, n) == if Has(l, n) then ScoreIn(l, n) else ScoreIn(d, n)
  {
    if l == [] {
      assert l + d == d;
    } else {
      assert (l + d)[1..] == l[1..] + d;
      ScoreJoined(l[1..], d, n);
      HasJoined(l[..1], l[1..], n);
      assert l[..1] + l[1..] == l;
    }
  }

  /** A document's totals are those of the side it is on. */
  lemma {:induction false} JoinedTotals(L: seq<seq<Live>>, D: seq<seq<Live>>, n: nat)
    requires |D| == |L| && Disjoint(L, D)
    ensures n in AllNodes(Combined(L, D)) <==> n in AllNodes(L) || n in AllNodes(D)
    ensures n in AllNodes(L) ==> Scored(Combined(L, D), n) == Scored(L, n) && DocMask(Combined(L, D), n) == DocMask(L, n)
    ensures n in AllNodes(D) ==> Scored(Combined(L, D), n) == Scored(D, n) && DocMask(Combined(L, D), n) == DocMask(D, n)
  {
    var C := Combined(L, D);
    InAllNodes(L, n);
    InAllNodes(D, n);
    InAllNodes(C, n);
    forall i | 0 <= i < |L|
      ensures Has(C[i], n) <==> Has(L[i], n) || Has(D[i], n)
      ensures ScoreIn(C[i], n) == if Has(L[i], n) then ScoreIn(L[i], n) else ScoreIn(D[i], n)
      ensures !Has(L[i], n) ==> ScoreIn(L[i], n) == 0.0
      ensures !Has(D[i], n) ==> ScoreIn(D[i], n) == 0.0
    {
      HasJoined(L[i], D[i], n);
      ScoreJoined(L[i], D[i], n);
      if !Has(L[i], n) {
        ScoreOfAbsent(L[i], n);
      }
      if !Has(D[i], n) {
        ScoreOfAbsent(D[i], n);
      }
    }
    if n in AllNodes(L) {
      assert TermScores(C, n) == TermScores(L, n);
    }
    if n in AllNodes(D) {
      assert TermScores(C, n) == TermScores(D, n);
    }
  }

  lemma {:induction false} JoinedMatching(L: seq<seq<Live>>, D: seq<seq<Live>>, matcher: Matcher)
    requires |D| == |L| && Disjoint(L, D)
    ensures Matching(Combined(L, D), matcher) == Matching(L, matcher) + Matching(D, matcher)
  {
    forall x: NodeScore
      ensures x in Matching(Combined(L, D), matcher) <==> x in Matching(L, matcher) || x in Matching(D, matcher)
    {
      JoinedTotals(L, D, x.node);
    }
  }

  lemma {:induction false} SufficesJoined(kept: set<NodeScore>, all: set<NodeScore>, delta: set<NodeScore>, k: nat)
    requires Suffices(kept, all, k)
    ensures Suffices(kept + delta, all + delta, k)
  {
    forall x | x in (all + delta) - (kept + delta)
      ensures Rank(Before, kept + delta, x) >= k
    {
      RankIsMonotone(Before, kept, kept + delta, x);
    }
  }

  // ----- delta documents are not visible in the base

  lemma {:induction false} LiveOntoVisible(c: Corpus, ps: seq<Posting>, bound: real, tail: seq<Live>)
    requires forall a :: 0 <= a < |tail| ==> Visible(c, tail[a].node)
    ensures forall a :: 0 <= a < |LiveOnto(c, ps, bound, tail)| ==> Visible(c, LiveOnto(c, ps, bound, tail)[a].node)
  {
    if ps != [] {
      LiveOntoVisible(c, ps[1..], bound, tail);
    }
  }

  lemma {:induction false} ListVisible(c: Corpus, chunks: seq<Chunk>, k: nat)
    requires k <= |chunks|
    ensures forall a :: 0 <= a < |ListFrom(c, chunks, k)| ==> Visible(c, ListFrom(c, chunks, k)[a].node)
    decreases |chunks| - k
  {
    if k < |chunks| {
      ListVisible(c, chunks, k + 1);
      LiveOntoVisible(c, chunks[k].postings, chunks[k].bound, ListFrom(c, chunks, k + 1));
    }
  }

  /** Postings of documents appended after the base was built, whose base document length is therefore 0. */
  ghost predicate DeltaOf(corpus: Corpus, D: seq<seq<Live>>) {
    forall t :: 0 <= t < |D| ==>
      Once(D[t]) && forall a :: 0 <= a < |D[t]| ==> D[t][a].score >= 0.0 && !Visible(corpus, D[t][a].node)
  }

  lemma {:induction false} BaseIsVisible(corpus: Corpus, lists: seq<seq<Chunk>>, L: seq<seq<Live>>, n: nat)
    requires Stored(corpus, lists, L) && n in AllNodes(L)
    ensures Visible(corpus, n)
  {
    InAllNodes(L, n);
    var i :| 0 <= i < |L| && Has(L[i], n);
    ListVisible(corpus, lists[i], 0);
  }

  lemma {:induction false} DeltaIsDisjoint(corpus: Corpus, lists: seq<seq<Chunk>>, L: seq<seq<Live>>, D: seq<seq<Live>>)
    requires Stored(corpus, lists, L) && DeltaOf(corpus, D)
    ensures Disjoint(L, D)
  {
    forall n | n in AllNodes(L)
      ensures n !in AllNodes(D)
    {
      BaseIsVisible(corpus, lists, L, n);
      InAllNodes(D, n);
    }
  }

  // ----- the base

  lemma {:induction false} StoredIsWellFormed(corpus: Corpus, lists: seq<seq<Chunk>>, L: seq<seq<Live>>)
    requires Stored(corpus, lists, L)
    ensures WellFormed(L)
    ensures (forall t :: 0 <= t < |lists| ==> BoundsNeverGrow(lists[t])) ==> AllSafe(L)
  {
    forall t | 0 <= t < |lists|
      ensures Ascending(L[t]) && Bounded(L[t]) && (BoundsNeverGrow(lists[t]) ==> Safe(L[t]))
    {
      LiveListFacts(corpus, lists[t]);
    }
  }

  method OpenIterators(corpus: Corpus, lists: seq<seq<Chunk>>,
                       ghost L: seq<seq<Live>>) returns (iters: seq<PostingIterator>)
    requires Stored(corpus, lists, L)
    ensures Shows(iters, L) && forall i :: 0 <= i < |iters| ==> fresh(iters[i])
  {
    iters := [];
    for t := 0 to |lists|
      invariant |iters| == t && Separate(iters)
      invariant forall i :: 0 <= i < t ==> fresh(iters[i]) && ShowsOne(iters[i], L[i])
    {
      var it := new PostingIterator(t, corpus, lists[t]);
      ghost var before := iters;
      iters := iters + [it];
      forall i, j | 0 <= i <= t && 0 <= j <= t && i != j
        ensures Apart(iters, i, j)
      {
        assert i < t && j < t ==> Apart(before, i, j);
      }
    }
  }

  /** What the accumulator holds when it holds the accepted documents T. */
  lemma {:induction false} HeldEntries(es: Entries, touched: seq<nat>, T: seq<NodeScore>, matcher: Matcher)
    requires Tracks(es, touched, T, matcher) && Elements(touched) == es.Keys
    ensures MatchedEntries(es, matcher) == Elements(T)
  {
    forall x: NodeScore
      ensures x in MatchedEntries(es, matcher) <==> x in Elements(T)
    {
      if x in MatchedEntries(es, matcher) {
        assert x.node in Elements(touched);
        var a :| 0 <= a < |touched| && touched[a] == x.node;
        assert T[a] == x;
      }
      if x in Elements(T) {
        var a :| 0 <= a < |T| && T[a] == x;
      }
    }
  }

  datatype Strategy = Auto | WandOnly | Daat

  /** The conjunctive loop is tried first, for conjunctions of at least two terms. */
  predicate DrivesAnd(strategy: Strategy, matcher: Matcher, n: nat) {
    strategy == Auto && matcher.eval.shape == PureAnd && n > 1
  }

  /** What base scoring leaves is enough to select from. */
  ghost predicate BaseScored(acc: QueryAccumulator, L: seq<seq<Live>>, q: Query, exact: bool)
    reads acc, acc.topHeap
  {
    && acc.Valid()
    && MatchedEntries(acc.entries, q.matcher) <= Matching(L, q.matcher)
    && (forall n :: n in acc.entries ==> n in AllNodes(L))
    && (exact ==> Suffices(MatchedEntries(acc.entries, q.matcher), Matching(L, q.matcher), q.k))
    && Unpruned(MatchedEntries(acc.entries, q.matcher), L, q)
  }

  /** With room for every match, only those the fused bound dismisses are missing. */
  ghost predicate Unpruned(kept: set<NodeScore>, L: seq<seq<Live>>, q: Query) {
    |Matching(L, q.matcher)| <= q.k ==>
      forall x :: x in Matching(L, q.matcher) - kept ==> Dismissed(q.bound, x)
  }

  /** The fused bound rejects the document at some upper bound of its score. */
  ghost predicate Dismissed(b: FusedBound, x: NodeScore) {
    exists ub: real :: ub >= x.score && CanPrune(b, x.node, ub)
  }

  lemma {:induction false} EnoughKeepsAll(kept: set<NodeScore>, L: seq<seq<Live>>, q: Query)
    requires Suffices(kept, Matching(L, q.matcher), q.k)
    ensures Unpruned(kept, L, q)
  {
    var all := Matching(L, q.matcher);
    if |all| <= q.k {
      if x :| x in all - kept {
        SubsetSize(Beating(Before, kept, x), kept);
        SubsetSize(kept, all - {x});
      }
      assert all - kept == {};
    }
  }

  /** Holding what a loop accepted, of which enough is known, is a scored base. */
  lemma {:induction false} HoldingIsScored(acc: QueryAccumulator, T: seq<NodeScore>, L: seq<seq<Live>>, q: Query,
                                           exact: bool)
    requires Holds(acc, T, q) && Elements(T) <= Matching(L, q.matcher)
    requires exact ==> Suffices(Elements(T), Matching(L, q.matcher), q.k)
    requires Unpruned(Elements(T), L, q)
    ensures BaseScored(acc, L, q, exact)
  {
    HeldEntries(acc.entries, acc.touched, T, q.matcher);
    forall n | n in acc.entries
      ensures n in AllNodes(L)
    {
      assert n in Elements(acc.touched);
      var a :| 0 <= a < |acc.touched| && acc.touched[a] == n;
      assert T[a] in Elements(T);
    }
  }

  lemma {:induction false} WandLeaves(L: seq<seq<Live>>, q: Query)
    requires WellFormed(L)
    ensures Elements(Run(L, [], q)) <= Matching(L, q.matcher)
    ensures AllSafe(L) && NeverPrunes(q) ==> Suffices(Elements(Run(L, [], q)), Matching(L, q.matcher), q.k)
    ensures Unpruned(Elements(Run(L, [], q)), L, q)
  {
    DropNothing(L);
    RunAccounts(L, q, 0, []);
    if AllSafe(L) && NeverPrunes(q) {
      WandSuffices(L, q);
    }
    if |Matching(L, q.matcher)| <= q.k {
      forall x | x in Matching(L, q.matcher) - Elements(Run(L, [], q))
        ensures Dismissed(q.bound, x)
      {
        LargeBudgetAcceptsAll(L, q, x);
      }
    }
  }

  method BaseByWand(iters: seq<PostingIterator>, acc: QueryAccumulator, q: Query, ghost L: seq<seq<Live>>)
    returns (used: bool)
    requires Shows(iters, L) && WellFormed(L) && Holds(acc, [], q) && SortedByNode(q.bound.dense)
    modifies iters, acc, acc.topHeap
    ensures used ==> BaseScored(acc, L, q, AllSafe(L) && NeverPrunes(q))
    ensures !used ==> Holds(acc, [], q)
  {
    WandLeaves(L, q);
    used := ScoreBaseWand(iters, acc, q, L);
    if used {
      HoldingIsScored(acc, Run(L, [], q), L, q, AllSafe(L) && NeverPrunes(q));
    }
  }

  method AllStarted(iters: seq<PostingIterator>, ghost L: seq<seq<Live>>) returns (ok: bool, ghost missing: nat)
    requires Shows(iters, L)
    ensures !ok ==> missing < |L| && L[missing] == []
  {
    for i := 0 to |iters| {
      assert ShowsOne(iters[i], L[i]);
      iters[i].Head();
      if !iters[i].valid {
        return false, i;
      }
    }
    return true, 0;
  }

  lemma {:induction false} AndLeaves(L: seq<seq<Live>>, q: Query, driver: nat)
    requires WellFormed(L) && RequiresAll(q.matcher, |L|) && driver < |L|
    ensures Elements(AndRun(L, L[driver], [], q.k)) <= Matching(L, q.matcher)
    ensures Suffices(Elements(AndRun(L, L[driver], [], q.k)), Matching(L, q.matcher), q.k)
    ensures Unpruned(Elements(AndRun(L, L[driver], [], q.k)), L, q)
  {
    AndSuffices(L, q.matcher, driver, q.k);
    EnoughKeepsAll(Elements(AndRun(L, L[driver], [], q.k)), L, q);
  }

  method BaseByAnd(iters: seq<PostingIterator>, dfs: seq<nat>, acc: QueryAccumulator, q: Query, ghost L: seq<seq<Live>>)
    requires Shows(iters, L) && WellFormed(L) && Holds(acc, [], q) && |dfs| == |L| > 0 && RequiresAll(q.matcher, |L|)
    modifies iters, acc, acc.topHeap
    ensures BaseScored(acc, L, q, true)
  {
    var driver := RarestTerm(dfs);
    AndLeaves(L, q, driver);
    var ok;
    ghost var missing;
    ok, missing := AllStarted(iters, L);
    if ok {
      ScoreBaseAnd(iters, acc, q, driver, L);
    } else {
      MissingTerm(L, driver, missing, L[driver], q.k);
    }
    HoldingIsScored(acc, AndRun(L, L[driver], [], q.k), L, q, true);
  }

  lemma {:induction false} StartsEmpty(acc: QueryAccumulator, q: Query)
    requires Holds(acc, [], q)
    ensures Adding(acc, map[], [])
  {
    assert acc.touched == [] && acc.entries.Keys == Elements(acc.touched);
    assert acc.entries == map[];
  }

  method BaseExhaustively(corpus: Corpus, lists: seq<seq<Chunk>>, acc: QueryAccumulator, q: Query,
                          ghost L: seq<seq<Live>>)
    requires Stored(corpus, lists, L) && Holds(acc, [], q)
    modifies acc, acc.topHeap
    ensures BaseScored(acc, L, q, true)
  {
    StartsEmpty(acc, q);
    ScoreExhaustively(corpus, lists, acc, L);
    TotalsAreMatching(map[], acc.entries, L, q.matcher);
    assert MatchedEntries(map[], q.matcher) == {};
    EnoughKeepsAll(Matching(L, q.matcher), L, q);
  }

  /** A prepared query over as many lists as it has terms. */
  ghost predicate Suits(q: Query, n: nat) {
    q.matcher == Prepare(q.matcher.query) && |q.matcher.terms| == n && SortedByNode(q.bound.dense)
  }

  /** When the strategy taken is exact: always, but for WAND over lists whose bounds grow or with a fused bound. */
  ghost predicate ExactStrategy(strategy: Strategy, q: Query, L: seq<seq<Live>>) {
    strategy == Daat || DrivesAnd(strategy, q.matcher, |L|) || (AllSafe(L) && NeverPrunes(q))
  }

  method ScoreBase(corpus: Corpus, lists: seq<seq<Chunk>>, dfs: seq<nat>, acc: QueryAccumulator, q: Query,
                   strategy: Strategy, ghost L: seq<seq<Live>>)
    requires Stored(corpus, lists, L) && Holds(acc, [], q) && Suits(q, |L|) && |dfs| == |lists|
    modifies acc, acc.topHeap
    ensures BaseScored(acc, L, q, ExactStrategy(strategy, q, L))
  {
    StoredIsWellFormed(corpus, lists, L);
    if DrivesAnd(strategy, q.matcher, |lists|) {
      var iters := OpenIterators(corpus, lists, L);
      BaseByAnd(iters, dfs, acc, q, L);
      return;
    }
    var used := false;
    if strategy != Daat {
      var iters := OpenIterators(corpus, lists, L);
      used := BaseByWand(iters, acc, q, L);
    }
    if !used {
      BaseExhaustively(corpus, lists, acc, q, L);
    }
  }

  // ----- base, delta and selection

  /** What may be missing from the documents the branch selects from. */
  ghost predicate KeptFrom(kept: set<NodeScore>, L: seq<seq<Live>>, D: seq<seq<Live>>, q: Query)
    requires |D| == |L|
  {
    && kept <= Matching(Combined(L, D), q.matcher)
    && (|Matching(Combined(L, D), q.matcher)| <= q.k ==>
          forall x :: x in Matching(Combined(L, D), q.matcher) - kept ==> Dismissed(q.bound, x))
  }

  lemma {:induction false} KeptAfterDelta(base: set<NodeScore>, L: seq<seq<Live>>, D: seq<seq<Live>>, q: Query)
    requires |D| == |L| && Disjoint(L, D) && base <= Matching(L, q.matcher) && Unpruned(base, L, q)
    ensures KeptFrom(base + Matching(D, q.matcher), L, D, q)
  {
    JoinedMatching(L, D, q.matcher);
    SubsetSize(Matching(L, q.matcher), Matching(Combined(L, D), q.matcher));
  }

  lemma {:induction false} ExactAfterDelta(base: set<NodeScore>, L: seq<seq<Live>>, D: seq<seq<Live>>, q: Query,
                                           top: seq<NodeScore>)
    requires |D| == |L| && Disjoint(L, D) && Suffices(base, Matching(L, q.matcher), q.k)
    requires IsTopK(Before, base + Matching(D, q.matcher), q.k, top)
    ensures IsTopK(Before, Matching(Combined(L, D), q.matcher), q.k, top)
  {
    JoinedMatching(L, D, q.matcher);
    SufficesJoined(base, Matching(L, q.matcher), Matching(D, q.matcher), q.k);
    BeforeIsWeakOrder();
    PruneKeepsTopK(Before, base + Matching(D, q.matcher), Matching(Combined(L, D), q.matcher), q.k, top);
  }

  method SelectWithDelta(acc: QueryAccumulator, D: seq<seq<Live>>, q: Query) returns (top: seq<NodeScore>)
    requires acc.Valid() && DeltaLists(D, acc.entries)
    modifies acc, acc.topHeap
    ensures IsTopK(Before, old(MatchedEntries(acc.entries, q.matcher)) + Matching(D, q.matcher), q.k, top)
  {
    ghost var es0 := acc.entries;
    ScoreDelta(D, acc);
    TotalsAreMatching(es0, acc.entries, D, q.matcher);
    top := SelectFinalTopK(acc, q.matcher, q.k);
  }

  lemma {:induction false} DeltaUntouched(corpus: Corpus, lists: seq<seq<Chunk>>, L: seq<seq<Live>>,
                                          D: seq<seq<Live>>, es: Entries)
    requires Stored(corpus, lists, L) && DeltaOf(corpus, D) && forall n :: n in es ==> n in AllNodes(L)
    ensures DeltaLists(D, es)
  {
    forall n | n in es
      ensures Visible(corpus, n)
    {
      BaseIsVisible(corpus, lists, L, n);
    }
  }

  /**
   The BM25 branch returns exactly the k best of all matching documents, base and delta, by
   complete score descending and then node id ascending, unless WAND runs over bounds that
   grow or with a fused bound; and with room for every match only dismissed ones are missing.
   */
  method TopK(corpus: Corpus, lists: seq<seq<Chunk>>, dfs: seq<nat>, delta: seq<seq<Live>>, q: Query,
              strategy: Strategy, ghost L: seq<seq<Live>>)
    returns (top: seq<NodeScore>, ghost kept: set<NodeScore>)
    requires Stored(corpus, lists, L) && DeltaOf(corpus, delta) && |delta| == |lists| == |dfs| && Suits(q, |L|)
    ensures ExactStrategy(strategy, q, L) ==> IsTopK(Before, Matching(Combined(L, delta), q.matcher), q.k, top)
    ensures KeptFrom(kept, L, delta, q) && IsTopK(Before, kept, q.k, top)
  {
    var acc := new QueryAccumulator(q.k);
    ScoreBase(corpus, lists, dfs, acc, q, strategy, L);
    ghost var base := MatchedEntries(acc.entries, q.matcher);
    DeltaIsDisjoint(corpus, lists, L, delta);
    DeltaUntouched(corpus, lists, L, delta, acc.entries);
    kept := base + Matching(delta, q.matcher);
    KeptAfterDelta(base, L, delta, q);
    top := SelectWithDelta(acc, delta, q);
    if ExactStrategy(strategy, q, L) {
      ExactAfterDelta(base, L, delta, q, top);
    }
  }

  /** Wherever a loop is exact, selecting from what it accepted gives the sequence of exhaustive scoring. */
  lemma {:induction false} StrategiesAgree(L: seq<seq<Live>>, q: Query, driver: nat,
                                           wand: seq<NodeScore>, conj: seq<NodeScore>, full: seq<NodeScore>)
    requires WellFormed(L) && driver < |L|
    requires IsTopK(Before, Matching(L, q.matcher), q.k, full)
    requires IsTopK(Before, Elements(Run(L, [], q)), q.k, wand)
    requires IsTopK(Before, Elements(AndRun(L, L[driver], [], q.k)), q.k, conj)
    ensures AllSafe(L) && NeverPrunes(q) ==> wand == full
    ensures RequiresAll(q.matcher, |L|) ==> conj == full
  {
    BeforeIsWeakOrder();
    if AllSafe(L) && NeverPrunes(q) {
      WandIsExact(L, q, wand);
      UniqueTopK(Before, Matching(L, q.matcher), q.k, wand, full);
    }
    if RequiresAll(q.matcher, |L|) {
      AndIsExact(L, q.matcher, driver, q.k, conj);
      UniqueTopK(Before, Matching(L, q.matcher), q.k, conj, full);
    }
  }
}
