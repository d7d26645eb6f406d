/** The fused-score bound the fusion step hands to the BM25 branch, and its per-candidate test. */
module FusedBound {

  /** A dense candidate's contribution alpha * normalized similarity. */
  datatype DenseEntry = DenseEntry(node: nat, contribution: real)

  /** Dense entries are sorted by node id; kthScore is the finalK-th largest dense contribution. */
  datatype FusedBound = FusedBound(enabled: bool, alpha: real, kthScore: real, dense: seq<DenseEntry>)

  const NO_BOUND := FusedBound(false, 0.0, 0.0, [])

  function Saturating(score: real): real {
    if score <= 0.0 then 0.0 else score / (score + 1.0)
  }

  /** The share of one in score plus one; none of it for a score that is not positive. */
  ghost predicate IsSaturated(x: real, score: real) {
    if score <= 0.0 then x == 0.0 else x * (score + 1.0) == score
  }

  lemma {:induction false} SaturatingLaw(score: real)
    ensures forall x: real :: IsSaturated(x, score) <==> x == Saturating(score)
  {
    if score > 0.0 {
      var d := score + 1.0;
      assert Saturating(score) * d == score;
      forall x: real | IsSaturated(x, score)
        ensures x == Saturating(score)
      {
        assert (x - Saturating(score)) * d == 0.0;
      }
    }
  }

  /** The contribution of the candidate with this node id, zero when there is none. */
  function DenseContribution(dense: seq<DenseEntry>, node: nat): real {
    if dense == [] then 0.0
    else if dense[0].node == node then dense[0].contribution
    else DenseContribution(dense[1..], node)
  }

  function MaxFused(b: FusedBound, node: nat, bm25Bound: real): real {
    DenseContribution(b.dense, node) + (1.0 - b.alpha) * Saturating(bm25Bound)
  }

  /** Strict, because ties are broken by more than the fused score. */
  predicate CanPrune(b: FusedBound, node: nat, bm25Bound: real) {
    b.enabled && MaxFused(b, node, bm25Bound) < b.kthScore
  }

  ghost predicate SortedByNode(dense: seq<DenseEntry>) {
    forall i, j :: 0 <= i < j < |dense| ==> dense[i].node < dense[j].node
  }

  lemma {:induction false} ContributionAt(dense: seq<DenseEntry>, i: nat)
    requires SortedByNode(dense) && i < |dense|
    ensures DenseContribution(dense, dense[i].node) == dense[i].contribution
  {
    if i > 0 {
      ContributionAt(dense[1..], i - 1);
    }
  }

  lemma {:induction false} ContributionAbsent(dense: seq<DenseEntry>, node: nat)
    requires forall i :: 0 <= i < |dense| ==> dense[i].node != node
    ensures DenseContribution(dense, node) == 0.0
  {
    if dense != [] {
      ContributionAbsent(dense[1..], node);
    }
  }

  /** Binary search finds the contribution a linear search would. */
  method DenseContributionForBound(b: FusedBound, node: nat) returns (r: real)
    requires SortedByNode(b.dense)
    ensures b.enabled ==> r == DenseContribution(b.dense, node)
    ensures !b.enabled ==> r == 0.0
  {
    if !b.enabled {
      return 0.0;
    }
    var left, right := 0, |b.dense|;
    while left < right
      invariant 0 <= left <= right <= |b.dense|
      invariant forall i :: 0 <= i < left ==> b.dense[i].node < node
      invariant forall i :: right <= i < |b.dense| ==> b.dense[i].node > node
    {
      var mid := left + (right - left) / 2;
      if b.dense[mid].node == node {
        ContributionAt(b.dense, mid);
        return b.dense[mid].contribution;
      }
      if b.dense[mid].node < node {
        left := mid + 1;
      } else {
        right := mid;
      }
    }
    ContributionAbsent(b.dense, node);
    return 0.0;
  }

  /** The test as the search makes it. */
  method CanPruneCandidate(b: FusedBound, node: nat, bm25Bound: real) returns (prune: bool)
    requires SortedByNode(b.dense)
    ensures prune == CanPrune(b, node, bm25Bound)
  {
    var dense := DenseContributionForBound(b, node);
    return b.enabled && dense + (1.0 - b.alpha) * Saturating(bm25Bound) < b.kthScore;
  }
}
