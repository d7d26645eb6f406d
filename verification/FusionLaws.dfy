/**
 What fusing promises of the final list, over the candidates alone: whoever is ahead in every
 branch in which the other occurs comes first.
 */
module FusionLaws {
  import opened Wrappers
  import opened FusedBound
  import opened Fusion
  import opened FusedRanking

  // ----- shares

  lemma {:induction false} SmallerFactor(x: real, d: real, x': real, d': real, n: real)
    requires x * d == n && x' * d' == n && n > 0.0 && 0.0 < d < d'
    ensures x > x' > 0.0
  {
    assert x' > 0.0;
    assert x' * d < x' * d';
    assert (x - x') * d > 0.0;
  }

  lemma {:induction false} SmallerRank(weight: real, k: nat, rank: Position, rank': Position, x: real, x': real)
    requires weight > 0.0 && rank < rank' && IsRankShare(x, weight, k, rank) && IsRankShare(x', weight, k, rank')
    ensures x > x' > 0.0
  {
    SmallerFactor(x, (k + rank) as real, x', (k + rank') as real, weight);
  }

  lemma {:induction false} ShareIsPositive(weight: real, k: nat, rank: Position, x: real)
    requires weight > 0.0 && IsRankShare(x, weight, k, rank)
    ensures x > 0.0
  {
  }

  lemma {:induction false} LargerScore(y: real, y': real, score: real, score': real)
    requires IsSaturated(y, score) && IsSaturated(y', score') && score > 0.0 && score > score'
    ensures y > y' >= 0.0
  {
    assert y > 0.0;
    if score' > 0.0 {
      SmallerFactor(1.0 - y', score' + 1.0, 1.0 - y, score + 1.0, 1.0);
    }
  }

  lemma {:induction false} Grows(weight: real, x: real, y: real)
    requires weight > 0.0 && x > y
    ensures weight * x > weight * y
  {
  }

  lemma {:induction false} NotNegative(weight: real, x: real)
    requires weight >= 0.0 && x >= 0.0
    ensures weight * x >= 0.0
  {
  }

  // ----- one branch against the other

  /** Each branch counts, and no contribution is negative. */
  ghost predicate Counting(f: Method) {
    match f
    case Rrf(k, denseWeight, bm25Weight) => denseWeight > 0.0 && bm25Weight > 0.0
    case FastWeighted(alpha) => 0.0 < alpha < 1.0
  }

  /** One dense candidate is ahead of another: by rank, or by similarity where that is what counts. */
  ghost predicate DenseAhead(f: Method, p: DensePart, q: DensePart) {
    if f.Rrf? then p.rank < q.rank else p.norm > q.norm
  }

  ghost predicate Bm25Ahead(f: Method, p: Bm25Part, q: Bm25Part) {
    if f.Rrf? then p.rank < q.rank else p.score > 0.0 && p.score > q.score
  }

  lemma {:induction false} DenseShareAhead(f: Method, p: Option<DensePart>, q: Option<DensePart>, x: real, y: real)
    requires Counting(f) && DenseAdds(f, p, x) && DenseAdds(f, q, y)
    requires q.Some? ==> p.Some? && DenseAhead(f, p.value, q.value)
    requires f.FastWeighted? && p.Some? ==> p.value.norm >= 0.0
    ensures x >= y && (q.Some? ==> x > y)
  {
    if f.Rrf? && p.Some? {
      ShareIsPositive(f.denseWeight, f.k, p.value.rank, x);
      if q.Some? {
        SmallerRank(f.denseWeight, f.k, p.value.rank, q.value.rank, x, y);
      }
    } else if p.Some? {
      NotNegative(f.alpha, p.value.norm);
      if q.Some? {
        Grows(f.alpha, p.value.norm, q.value.norm);
      }
    }
  }

  lemma {:induction false} SaturatedAhead(weight: real, score: real, score': real, x: real, x': real)
    requires weight > 0.0 && IsSaturatedShare(x, weight, score) && IsSaturatedShare(x', weight, score')
    requires score > 0.0 && score > score'
    ensures x > x'
  {
    var y :| IsSaturated(y, score) && x == weight * y;
    var y' :| IsSaturated(y', score') && x' == weight * y';
    LargerScore(y, y', score, score');
    Grows(weight, y, y');
  }

  lemma {:induction false} SaturatedNotNegative(weight: real, score: real, x: real)
    requires weight > 0.0 && IsSaturatedShare(x, weight, score)
    ensures x >= 0.0
  {
    var y :| IsSaturated(y, score) && x == weight * y;
    if score > 0.0 {
      LargerScore(y, 0.0, score, 0.0);
    }
    NotNegative(weight, y);
  }

  lemma {:induction false} Bm25ShareAhead(f: Method, p: Option<Bm25Part>, q: Option<Bm25Part>, x: real, y: real)
    requires Counting(f) && Bm25Adds(f, p, x) && Bm25Adds(f, q, y)
    requires q.Some? ==> p.Some? && Bm25Ahead(f, p.value, q.value)
    ensures x >= y && (q.Some? ==> x > y)
  {
    if f.Rrf? && p.Some? {
      ShareIsPositive(f.bm25Weight, f.k, p.value.rank, x);
      if q.Some? {
        SmallerRank(f.bm25Weight, f.k, p.value.rank, q.value.rank, x, y);
      }
    } else if p.Some? {
      SaturatedNotNegative(1.0 - f.alpha, p.value.score, x);
      if q.Some? {
        SaturatedAhead(1.0 - f.alpha, p.value.score, q.value.score, x, y);
      }
    }
  }

  // ----- dominance

  /** Wherever node b is a candidate, node a is one that is ahead of it. */
  ghost predicate AheadOf(f: Method, dense: seq<DenseCandidate>, bm25: seq<Bm25Candidate>, a: nat, b: nat) {
    && (forall j :: 0 <= j < |dense| && dense[j].node == b ==>
          exists i :: 0 <= i < |dense| && dense[i].node == a && DenseAhead(f, dense[i].part, dense[j].part))
    && (forall j :: 0 <= j < |bm25| && bm25[j].node == b ==>
          exists i :: 0 <= i < |bm25| && bm25[i].node == a && Bm25Ahead(f, bm25[i].part, bm25[j].part))
  }

  /** Similarities are normalized by the logistic function. */
  ghost predicate Normalized(dense: seq<DenseCandidate>) {
    forall i :: 0 <= i < |dense| ==> dense[i].part.norm >= 0.0
  }

  ghost predicate NodePrecedes(final: seq<Result>, a: nat, b: nat) {
    forall j :: 0 <= j < |final| && final[j].node == b ==> exists i :: 0 <= i < j && final[i].node == a
  }

  lemma {:induction false} AheadScoresMore(f: Method, dense: seq<DenseCandidate>, bm25: seq<Bm25Candidate>,
                                           requireBm25: bool, x: Result, y: Result)
    requires DistinctNodes(dense, bm25) && Counting(f) && (f.FastWeighted? ==> Normalized(dense)) && AheadOf(f, dense, bm25, x.node, y.node)
    requires Fused(dense, bm25, f, requireBm25, x) && Fused(dense, bm25, f, requireBm25, y)
    ensures x.fusedScore > y.fusedScore
  {
    assert forall i, j :: 0 <= i < |dense| && 0 <= j < |dense| && dense[i].node == dense[j].node ==> i == j;
    assert forall i, j :: 0 <= i < |bm25| && 0 <= j < |bm25| && bm25[i].node == bm25[j].node ==> i == j;
    var d, l :| DenseAdds(f, x.dense, d) && Bm25Adds(f, x.bm25, l) && x.fusedScore == d + l;
    var d', l' :| DenseAdds(f, y.dense, d') && Bm25Adds(f, y.bm25, l') && y.fusedScore == d' + l';
    DenseShareAhead(f, x.dense, y.dense, d, d');
    Bm25ShareAhead(f, x.bm25, y.bm25, l, l');
  }

  /**
   With positive weights, a node ahead in every branch in which the other occurs precedes it in
   the final list: the other is not listed without it.
   */
  lemma {:induction false} AheadPrecedes(f: Method, dense: seq<DenseCandidate>, bm25: seq<Bm25Candidate>,
                                         requireBm25: bool, final: seq<Result>, a: nat, b: nat)
    requires DistinctNodes(dense, bm25) && FusedList(dense, bm25, f, requireBm25, final)
    requires Counting(f) && (f.FastWeighted? ==> Normalized(dense)) && AheadOf(f, dense, bm25, a, b)
    ensures NodePrecedes(final, a, b)
  {
    forall j | 0 <= j < |final| && final[j].node == b
      ensures exists i :: 0 <= i < j && final[i].node == a
    {
      var x := FusedExists(dense, bm25, f, requireBm25, a);
      AheadScoresMore(f, dense, bm25, requireBm25, x, final[j]);
      assert x in final;
      var i :| 0 <= i < |final| && final[i] == x;
      assert i < j;
    }
  }
}
