/** The final selection of the BM25 branch from the accumulator's touched nodes. */
module FinalSelection {
  import opened Ranking
  import opened BoundedSelection
  import opened QueryEval
  import opened Accumulator

  /** The touched nodes whose matched terms satisfy the query, with their scores. */
  ghost function MatchedEntries(es: Entries, matcher: Matcher): (S: set<NodeScore>)
    ensures forall x: NodeScore :: x in S <==> x.node in es && Matched(matcher, es[x.node].matched) && x.score == es[x.node].score
  {
    var S := set n | n in es && Matched(matcher, es[n].matched) :: NodeScore(n, es[n].score);
    forall x: NodeScore | x.node in es && Matched(matcher, es[x.node].matched) && x.score == es[x.node].score
      ensures x in S
    {
      assert x == NodeScore(x.node, es[x.node].score);
    }
    S
  }

  lemma {:induction false} EntriesAreRankable(es: Entries, matcher: Matcher)
    ensures WeakOrder(Before) && TotalOn(Before, MatchedEntries(es, matcher))
  {
  }

  /** cs lists the matched ones among the first n touched nodes. */
  ghost predicate Collected(es: Entries, matcher: Matcher, touched: seq<nat>, n: nat, cs: seq<NodeScore>) {
    && Distinct(cs) && n <= |touched|
    && forall x :: x in cs <==> x in MatchedEntries(es, matcher) && x.node in touched[..n]
  }

  lemma {:induction false} CollectedStep(es: Entries, matcher: Matcher, touched: seq<nat>, n: nat, cs: seq<NodeScore>)
    requires Distinct(touched) && n < |touched| && touched[n] in es && Collected(es, matcher, touched, n, cs)
    ensures var e := es[touched[n]];
            Collected(es, matcher, touched, n + 1,
                      if Matched(matcher, e.matched) then cs + [NodeScore(touched[n], e.score)] else cs)
  {
    assert touched[..n + 1] == touched[..n] + [touched[n]];
    assert touched[n] !in touched[..n];
  }

  method CollectMatched(acc: QueryAccumulator, matcher: Matcher) returns (cs: seq<NodeScore>)
    requires Distinct(acc.touched) && Elements(acc.touched) == acc.entries.Keys
    ensures Distinct(cs) && Elements(cs) == MatchedEntries(acc.entries, matcher)
  {
    cs := [];
    ghost var es := acc.entries;
    for i := 0 to |acc.touched|
      invariant Collected(es, matcher, acc.touched, i, cs)
    {
      assert acc.touched[i] in Elements(acc.touched);
      CollectedStep(es, matcher, acc.touched, i, cs);
      var entry := acc.entries[acc.touched[i]];
      if Matched(matcher, entry.matched) {
        cs := cs + [NodeScore(acc.touched[i], entry.score)];
      }
    }
    AllCollected(es, matcher, acc.touched, cs);
  }

  lemma {:induction false} AllCollected(es: Entries, matcher: Matcher, touched: seq<nat>, cs: seq<NodeScore>)
    requires Elements(touched) == es.Keys && Collected(es, matcher, touched, |touched|, cs)
    ensures Elements(cs) == MatchedEntries(es, matcher)
  {
    assert touched[..|touched|] == touched;
    forall x | x in MatchedEntries(es, matcher)
      ensures x.node in touched
    {
      assert x.node in Elements(touched);
    }
  }

  /** The k best matched nodes, by score descending and then node id ascending. */
  method SelectFinalTopK(acc: QueryAccumulator, matcher: Matcher, k: nat) returns (top: seq<NodeScore>)
    requires acc.Valid()
    ensures IsTopK(Before, MatchedEntries(acc.entries, matcher), k, top)
  {
    if k == 0 {
      return [];
    }
    var cs := CollectMatched(acc, matcher);
    EntriesAreRankable(acc.entries, matcher);
    top := SelectTopN(cs, k, Before);
  }
}
