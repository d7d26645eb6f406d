/** Term-at-a-time scoring of whole lists: the reference the pruned loops are measured against. */
module Exhaustive {
  import opened Sums
  import opened QueryEval
  import opened Accumulator
  import opened Wand
  import opened PostingLists
  import opened PostingIterators
  import opened FinalSelection

  /**
   The accumulator holds what it held before, and for exactly the documents of P their
   complete sums and masks over P.
   */
  ghost predicate Totals(es0: Entries, es: Entries, P: seq<seq<Live>>) {
    && (forall n: nat :: n in es <==> n in es0 || n in AllNodes(P))
    && (forall n :: n in es0 ==> n !in AllNodes(P))
    && (forall n :: n in es0 ==> es[n].score == es0[n].score && es[n].matched == es0[n].matched)
    && (forall n :: n in es && n !in es0 ==> es[n].score == DocScore(P, n) && es[n].matched == DocMask(P, n))
  }

  lemma {:induction false} ScoreAppended(l: seq<Live>, x: Live, n: nat)
    requires !Has(l, x.node)
    ensures ScoreIn(l + [x], n) == if n == x.node then x.score else ScoreIn(l, n)
    ensures Has(l + [x], n) <==> Has(l, n) || n == x.node
  {
    var r := l + [x];
    assert r[|l|] == x;
    assert forall a :: 0 <= a < |l| ==> r[a] == l[a];
    if l != [] {
      assert l[0].node != x.node;
      forall a | 0 <= a < |l[1..]|
        ensures l[1..][a].node != x.node
      {
        assert l[a + 1].node != x.node;
      }
      ScoreAppended(l[1..], x, n);
      assert r[1..] == l[1..] + [x];
    } else {
      assert r == [x] && r[1..] == [];
    }
  }

  /** One more posting of term t changes one document's totals. */
  lemma {:induction false} DocAppended(P: seq<seq<Live>>, t: nat, x: Live, n: nat)
    requires t < |P| && !Has(P[t], x.node)
    ensures var P' := P[t := P[t] + [x]];
            && DocScore(P', n) == DocScore(P, n) + (if n == x.node then x.score else 0.0)
            && DocMask(P', n) == DocMask(P, n) + (if n == x.node then {t} else {})
            && (n in AllNodes(P') <==> n in AllNodes(P) || n == x.node)
  {
    var P' := P[t := P[t] + [x]];
    ScoreAppended(P[t], x, n);
    if n == x.node {
      ScoreOfAbsent(P[t], n);
    }
    var fs := TermScores(P, n);
    assert TermScores(P', n) == fs[t := ScoreIn(P'[t], n)];
    SumUpdate(fs, t, ScoreIn(P'[t], n));
    InAllNodes(P, n);
    InAllNodes(P', n);
    assert Has(P'[t], n) <==> Has(P[t], n) || n == x.node;
    assert forall i :: 0 <= i < |P| && i != t ==> P'[i] == P[i];
  }

  lemma {:induction false} AbsentScoresZero(P: seq<seq<Live>>, n: nat)
    requires n !in AllNodes(P)
    ensures DocScore(P, n) == 0.0 && DocMask(P, n) == {}
  {
    InAllNodes(P, n);
    forall i | 0 <= i < |P|
      ensures TermScores(P, n)[i] == 0.0
    {
      ScoreOfAbsent(P[i], n);
    }
    SumZero(TermScores(P, n));
  }

  /** Every other entry stays, and the one of x gains its score and term. */
  lemma {:induction false} EntryAppended(es: Entries, es': Entries, t: nat, x: Live, n: nat)
    requires Scores(es') == Added(Scores(es), x.node, x.score)
    requires Masks(es') == Masks(es)[x.node := Get(Masks(es), x.node, {}) + {t}]
    ensures n in es' <==> n in es || n == x.node
    ensures n in es && n != x.node ==> es'[n].score == es[n].score && es'[n].matched == es[n].matched
    ensures n == x.node ==> es'[n].score == (if n in es then es[n].score else 0.0) + x.score
    ensures n == x.node ==> es'[n].matched == (if n in es then es[n].matched else {}) + {t}
  {
    assert n in es' <==> n in Scores(es');
    assert n in es <==> n in Scores(es) && n in Masks(es);
    assert n in es' ==> es'[n].score == Scores(es')[n] && es'[n].matched == Masks(es')[n];
    assert n in es ==> es[n].score == Scores(es)[n] && es[n].matched == Masks(es)[n];
  }

  /** What the totals say of one node. */
  ghost predicate TotalAt(es0: Entries, es: Entries, P: seq<seq<Live>>, n: nat) {
    && (n in es <==> n in es0 || n in AllNodes(P))
    && (n in es0 ==> n !in AllNodes(P) && es[n].score == es0[n].score && es[n].matched == es0[n].matched)
    && (n in es && n !in es0 ==> es[n].score == DocScore(P, n) && es[n].matched == DocMask(P, n))
  }

  lemma {:induction false} TotalStepAt(es0: Entries, es: Entries, es': Entries, P: seq<seq<Live>>, t: nat, x: Live,
                                       n: nat)
    requires TotalAt(es0, es, P, n) && t < |P| && !Has(P[t], x.node) && x.node !in es0
    requires Scores(es') == Added(Scores(es), x.node, x.score)
    requires Masks(es') == Masks(es)[x.node := Get(Masks(es), x.node, {}) + {t}]
    ensures TotalAt(es0, es', P[t := P[t] + [x]], n)
  {
    DocAppended(P, t, x, n);
    EntryAppended(es, es', t, x, n);
    if n !in es && n !in es0 {
      AbsentScoresZero(P, n);
    }
  }

  lemma {:induction false} TotalsStep(es0: Entries, es: Entries, es': Entries, P: seq<seq<Live>>, t: nat, x: Live)
    requires Totals(es0, es, P) && t < |P| && !Has(P[t], x.node) && x.node !in es0
    requires Scores(es') == Added(Scores(es), x.node, x.score)
    requires Masks(es') == Masks(es)[x.node := Get(Masks(es), x.node, {}) + {t}]
    ensures Totals(es0, es', P[t := P[t] + [x]])
  {
    var P' := P[t := P[t] + [x]];
    forall n: nat
      ensures TotalAt(es0, es', P', n)
    {
      assert TotalAt(es0, es, P, n);
      TotalStepAt(es0, es, es', P, t, x, n);
    }
    TotalsFromEach(es0, es', P');
  }

  lemma {:induction false} TotalsFromEach(es0: Entries, es: Entries, P: seq<seq<Live>>)
    requires forall n: nat :: TotalAt(es0, es, P, n)
    ensures Totals(es0, es, P)
  {
    forall n | n in es
      ensures n in es0 || (n in AllNodes(P) && es[n].score == DocScore(P, n) && es[n].matched == DocMask(P, n))
    {
      assert TotalAt(es0, es, P, n);
    }
    forall n | n in es0
      ensures n in es && n !in AllNodes(P) && es[n].score == es0[n].score && es[n].matched == es0[n].matched
    {
      assert TotalAt(es0, es, P, n);
    }
    forall n | n in AllNodes(P)
      ensures n in es
    {
      assert TotalAt(es0, es, P, n);
    }
  }

  /** The totals are those of exhaustive scoring: selecting from them is selecting from all matching documents. */
  lemma {:induction false} TotalsAreMatching(es0: Entries, es: Entries, P: seq<seq<Live>>, matcher: Matcher)
    requires Totals(es0, es, P)
    ensures MatchedEntries(es, matcher) == MatchedEntries(es0, matcher) + Matching(P, matcher)
  {
  }

  // ----- one list

  /** done are the live postings before posting p of chunk k. */
  ghost predicate Scanned(c: Corpus, chunks: seq<Chunk>, k: nat, p: nat, done: seq<Live>) {
    && k < |chunks| && p <= |chunks[k].postings|
    && done + AheadAt(c, chunks, k, p) == LiveList(c, chunks)
  }

  lemma {:induction false} ScannedStep(c: Corpus, chunks: seq<Chunk>, k: nat, p: nat, done: seq<Live>)
    requires ValidList(chunks) && Scanned(c, chunks, k, p, done) && p < |chunks[k].postings|
    ensures var x := chunks[k].postings[p];
            var y := Live(x.node, x.score, chunks[k].bound);
            if Visible(c, x.node) then Scanned(c, chunks, k, p + 1, done + [y]) && !Has(done, x.node) && y.score >= 0.0
            else Scanned(c, chunks, k, p + 1, done)
  {
    var ps := chunks[k].postings[p..];
    assert ps[1..] == chunks[k].postings[p + 1..] && ps[0] == chunks[k].postings[p];
    var x := chunks[k].postings[p];
    var y := Live(x.node, x.score, chunks[k].bound);
    var l := LiveList(c, chunks);
    assert ValidChunk(chunks[k]);
    if Visible(c, x.node) {
      var rest := AheadAt(c, chunks, k, p + 1);
      assert AheadAt(c, chunks, k, p) == [y] + rest;
      assert done + ([y] + rest) == (done + [y]) + rest;
      LiveListFacts(c, chunks);
      assert l[|done|] == y;
      assert forall a :: 0 <= a < |done| ==> l[a] == done[a];
    } else {
      StepOverDead(c, chunks, k, p);
    }
  }

  lemma {:induction false} ScannedChunk(c: Corpus, chunks: seq<Chunk>, k: nat, done: seq<Live>)
    requires k < |chunks| && Scanned(c, chunks, k, |chunks[k].postings|, done)
    ensures k + 1 < |chunks| ==> Scanned(c, chunks, k + 1, 0, done)
    ensures k + 1 == |chunks| ==> done == LiveList(c, chunks)
  {
    StepOffChunk(c, chunks, k);
    if k + 1 < |chunks| {
      assert chunks[k + 1].postings[0..] == chunks[k + 1].postings;
    }
  }

  lemma {:induction false} ScannedNothing(c: Corpus, chunks: seq<Chunk>)
    ensures chunks == [] ==> LiveList(c, chunks) == []
    ensures chunks != [] ==> Scanned(c, chunks, 0, 0, [])
  {
    if chunks != [] {
      assert chunks[0].postings[0..] == chunks[0].postings;
      assert [] + AheadAt(c, chunks, 0, 0) == AheadAt(c, chunks, 0, 0);
    }
  }

  /** The lists of the first t terms, and what was read so far of the next one. */
  ghost function ReadSoFar(L: seq<seq<Live>>, t: nat, done: seq<Live>): seq<seq<Live>>
    requires t < |L|
  {
    L[..t] + [done]
  }

  lemma {:induction false} ReadAll(L: seq<seq<Live>>, t: nat)
    requires t < |L|
    ensures ReadSoFar(L, t, L[t]) == L[..t + 1]
    ensures ReadSoFar(L, t, L[t][..|L[t]|]) == L[..t + 1]
    ensures ReadSoFar(L, t, L[t][..0]) == L[..t] + [[]]
  {
    assert L[t][..|L[t]|] == L[t] && L[t][..0] == [];
  }

  ghost predicate Adding(acc: QueryAccumulator, es0: Entries, P: seq<seq<Live>>)
    reads acc, acc.topHeap
  {
    acc.Valid() && Totals(es0, acc.entries, P)
  }

  method AddPosting(acc: QueryAccumulator, t: nat, x: Live, ghost es0: Entries, ghost P: seq<seq<Live>>)
    requires Adding(acc, es0, P) && t < |P| && !Has(P[t], x.node) && x.score >= 0.0 && x.node !in es0
    modifies acc, acc.topHeap
    ensures Adding(acc, es0, P[t := P[t] + [x]])
  {
    ghost var es := acc.entries;
    acc.AddTermScore(x.node, x.score, {t});
    TotalsStep(es0, es, acc.entries, P, t, x);
  }

  lemma {:induction false} ReadOneMore(L: seq<seq<Live>>, t: nat, done: seq<Live>, x: Live)
    requires t < |L|
    ensures var P := ReadSoFar(L, t, done); P[t := P[t] + [x]] == ReadSoFar(L, t, done + [x])
  {
  }

  method ScorePosting(corpus: Corpus, chunks: seq<Chunk>, n: nat, i: nat, t: nat, acc: QueryAccumulator,
                      ghost es0: Entries, ghost L: seq<seq<Live>>, ghost done0: seq<Live>)
    returns (ghost done: seq<Live>)
    requires ValidList(chunks) && t < |L| && L[t] == LiveList(corpus, chunks) && n < |chunks| && i < |chunks[n].postings|
    requires Scanned(corpus, chunks, n, i, done0) && Adding(acc, es0, ReadSoFar(L, t, done0)) && es0 == map[]
    modifies acc, acc.topHeap
    ensures Scanned(corpus, chunks, n, i + 1, done) && Adding(acc, es0, ReadSoFar(L, t, done))
  {
    done := done0;
    var posting := chunks[n].postings[i];
    ScannedStep(corpus, chunks, n, i, done);
    if Visible(corpus, posting.node) {
      var x := Live(posting.node, posting.score, chunks[n].bound);
      ReadOneMore(L, t, done, x);
      AddPosting(acc, t, x, es0, ReadSoFar(L, t, done));
      done := done + [x];
    }
  }

  method ScoreChunk(corpus: Corpus, chunks: seq<Chunk>, n: nat, t: nat, acc: QueryAccumulator,
                    ghost es0: Entries, ghost L: seq<seq<Live>>, ghost done0: seq<Live>)
    returns (ghost done: seq<Live>)
    requires ValidList(chunks) && t < |L| && L[t] == LiveList(corpus, chunks) && n < |chunks|
    requires Scanned(corpus, chunks, n, 0, done0) && Adding(acc, es0, ReadSoFar(L, t, done0)) && es0 == map[]
    modifies acc, acc.topHeap
    ensures Scanned(corpus, chunks, n, |chunks[n].postings|, done) && Adding(acc, es0, ReadSoFar(L, t, done))
  {
    var chunk := chunks[n];
    done := done0;
    var i: nat := 0;
    while i < |chunk.postings|
      invariant i <= |chunk.postings|
      invariant Scanned(corpus, chunks, n, i, done) && Adding(acc, es0, ReadSoFar(L, t, done))
    {
      done := ScorePosting(corpus, chunks, n, i, t, acc, es0, L, done);
      i := i + 1;
    }
  }

  method ScoreList(corpus: Corpus, chunks: seq<Chunk>, t: nat, acc: QueryAccumulator, ghost es0: Entries,
                   ghost L: seq<seq<Live>>)
    requires ValidList(chunks) && t < |L| && L[t] == LiveList(corpus, chunks)
    requires Adding(acc, es0, L[..t]) && es0 == map[]
    modifies acc, acc.topHeap
    ensures Adding(acc, es0, L[..t + 1])
  {
    TotalsNextTerm(es0, acc.entries, L[..t]);
    ghost var done := [];
    ScannedNothing(corpus, chunks);
    var n: nat := 0;
    while n < |chunks|
      invariant n <= |chunks| && Adding(acc, es0, ReadSoFar(L, t, done))
      invariant if n < |chunks| then Scanned(corpus, chunks, n, 0, done) else done == L[t]
    {
      done := ScoreChunk(corpus, chunks, n, t, acc, es0, L, done);
      ScannedChunk(corpus, chunks, n, done);
      n := n + 1;
    }
    ReadAll(L, t);
  }

  lemma {:induction false} EmptyListAdds(P: seq<seq<Live>>, n: nat)
    ensures DocScore(P + [[]], n) == DocScore(P, n) && DocMask(P + [[]], n) == DocMask(P, n)
    ensures n in AllNodes(P + [[]]) <==> n in AllNodes(P)
  {
    var Q: seq<seq<Live>> := P + [[]];
    assert TermScores(Q, n) == TermScores(P, n) + [0.0];
    SumAppend(TermScores(P, n), 0.0);
    assert !Has(Q[|P|], n);
    assert forall i :: 0 <= i < |P| ==> Q[i] == P[i];
    InAllNodes(P, n);
    InAllNodes(Q, n);
  }

  lemma {:induction false} TotalsNextTerm(es0: Entries, es: Entries, P: seq<seq<Live>>)
    requires Totals(es0, es, P)
    ensures Totals(es0, es, P + [[]])
  {
    forall n: nat
      ensures DocScore(P + [[]], n) == DocScore(P, n) && DocMask(P + [[]], n) == DocMask(P, n)
      ensures n in AllNodes(P + [[]]) <==> n in AllNodes(P)
    {
      EmptyListAdds(P, n);
    }
  }

  /** The lists of the query terms as an index stores them. */
  ghost predicate Stored(corpus: Corpus, lists: seq<seq<Chunk>>, L: seq<seq<Live>>) {
    && |L| == |lists|
    && forall t :: 0 <= t < |lists| ==> ValidList(lists[t]) && L[t] == LiveList(corpus, lists[t])
  }

  lemma {:induction false} StoredAt(corpus: Corpus, lists: seq<seq<Chunk>>, L: seq<seq<Live>>, t: nat)
    requires Stored(corpus, lists, L) && t < |lists|
    ensures t < |L| && ValidList(lists[t]) && L[t] == LiveList(corpus, lists[t])
  {
  }

  /** Scores every posting of every term, starting from an empty accumulator. */
  method ScoreExhaustively(corpus: Corpus, lists: seq<seq<Chunk>>, acc: QueryAccumulator, ghost L: seq<seq<Live>>)
    requires Stored(corpus, lists, L) && Adding(acc, map[], [])
    modifies acc, acc.topHeap
    ensures Adding(acc, map[], L)
  {
    var t: nat := 0;
    ghost var es0: Entries := map[];
    assert L[..0] == [];
    while t < |lists|
      invariant t <= |lists| && Adding(acc, es0, L[..t])
    {
      StoredAt(corpus, lists, L, t);
      ScoreList(corpus, lists[t], t, acc, es0, L);
      t := t + 1;
    }
    assert L[..t] == L;
  }

  // ----- delta

  ghost predicate Once(l: seq<Live>) {
    forall a, b :: 0 <= a < b < |l| ==> l[a].node != l[b].node
  }

  /** Delta postings per term: each document once per term, in any order, none of them known to es0. */
  ghost predicate DeltaLists(D: seq<seq<Live>>, es0: Entries) {
    forall t :: 0 <= t < |D| ==> Once(D[t]) && forall a :: 0 <= a < |D[t]| ==> D[t][a].score >= 0.0 && D[t][a].node !in es0
  }

  lemma {:induction false} DeltaPosting(D: seq<seq<Live>>, es0: Entries, t: nat, i: nat)
    requires DeltaLists(D, es0) && t < |D| && i < |D[t]|
    ensures var P := ReadSoFar(D, t, D[t][..i]);
            && !Has(P[t], D[t][i].node) && D[t][i].score >= 0.0 && D[t][i].node !in es0
            && P[t := P[t] + [D[t][i]]] == ReadSoFar(D, t, D[t][..i + 1])
  {
    assert D[t][..i + 1] == D[t][..i] + [D[t][i]];
    assert Once(D[t]);
  }

  method ScoreDeltaTerm(D: seq<seq<Live>>, t: nat, acc: QueryAccumulator, ghost es0: Entries)
    requires t < |D| && DeltaLists(D, es0) && Adding(acc, es0, D[..t])
    modifies acc, acc.topHeap
    ensures Adding(acc, es0, D[..t + 1])
  {
    TotalsNextTerm(es0, acc.entries, D[..t]);
    ReadAll(D, t);
    var i: nat := 0;
    while i < |D[t]|
      invariant i <= |D[t]| && Adding(acc, es0, ReadSoFar(D, t, D[t][..i]))
    {
      DeltaPosting(D, es0, t, i);
      AddPosting(acc, t, D[t][i], es0, ReadSoFar(D, t, D[t][..i]));
      i := i + 1;
    }
    ReadAll(D, t);
  }

  lemma {:induction false} NothingAdded(es0: Entries, D: seq<seq<Live>>)
    ensures Totals(es0, es0, D[..0])
  {
    assert AllNodes(D[..0]) == {};
  }

  /** Adds every delta posting on top of what the base scoring left. */
  method ScoreDelta(D: seq<seq<Live>>, acc: QueryAccumulator)
    requires acc.Valid() && DeltaLists(D, acc.entries)
    modifies acc, acc.topHeap
    ensures Adding(acc, old(acc.entries), D)
  {
    ghost var es0 := acc.entries;
    var t: nat := 0;
    NothingAdded(es0, D);
    while t < |D|
      invariant t <= |D| && Adding(acc, es0, D[..t])
    {
      ScoreDeltaTerm(D, t, acc, es0);
      t := t + 1;
    }
    assert D[..t] == D;
  }
}
