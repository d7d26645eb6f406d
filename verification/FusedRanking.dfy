/** Scoring and ordering merged results, and the agreement of the three fusion paths. */
module FusedRanking {
  import opened Wrappers
  import opened Ranking
  import opened BoundedSelection
  import opened GenerationArrays
  import opened FusedBound
  import opened Fusion
  import opened FusionPaths

  // ----- fused score

  /** Reciprocal rank fusion, and the weighted fusion of saturating normalizations. */
  datatype Method = Rrf(k: nat, denseWeight: real, bm25Weight: real) | FastWeighted(alpha: real)

  function Reciprocal(k: nat, rank: Position): real {
    1.0 / ((k + rank) as real)
  }

  function DenseShare(f: Method, p: Option<DensePart>): real {
    if p.None? then 0.0
    else if f.Rrf? then f.denseWeight * Reciprocal(f.k, p.value.rank)
    else f.alpha * p.value.norm
  }

  function Bm25Share(f: Method, p: Option<Bm25Part>): real {
    if p.None? then 0.0
    else if f.Rrf? then f.bm25Weight * Reciprocal(f.k, p.value.rank)
    else (1.0 - f.alpha) * Saturating(p.value.score)
  }

  function Scored(f: Method, r: Result): Result {
    r.(fusedScore := DenseShare(f, r.dense) + Bm25Share(f, r.bm25))
  }

  // ----- fused score, by equations

  /** So many times k + rank is the weight of the branch. */
  ghost predicate IsRankShare(x: real, weight: real, k: nat, rank: Position) {
    x * (k + rank) as real == weight
  }

  lemma {:induction false} RankShareLaw(weight: real, k: nat, rank: Position)
    ensures forall x: real :: IsRankShare(x, weight, k, rank) <==> x == weight * Reciprocal(k, rank)
  {
    var d := (k + rank) as real;
    var y := weight * (1.0 / d);
    assert 1.0 / d * d == 1.0;
    assert y * d == weight;
    forall x: real | IsRankShare(x, weight, k, rank)
      ensures x == y
    {
      assert (x - y) * d == 0.0;
    }
  }

  /** What the dense branch adds to a fused score; nothing where it has no part. */
  ghost predicate DenseAdds(f: Method, p: Option<DensePart>, x: real) {
    match p
    case None => x == 0.0
    case Some(part) => if f.Rrf? then IsRankShare(x, f.denseWeight, f.k, part.rank) else x == f.alpha * part.norm
  }

  ghost predicate IsSaturatedShare(x: real, weight: real, score: real) {
    exists y: real :: IsSaturated(y, score) && x == weight * y
  }

  /** What the BM25 branch adds. */
  ghost predicate Bm25Adds(f: Method, p: Option<Bm25Part>, x: real) {
    match p
    case None => x == 0.0
    case Some(part) =>
      if f.Rrf? then IsRankShare(x, f.bm25Weight, f.k, part.rank) else IsSaturatedShare(x, 1.0 - f.alpha, part.score)
  }

  lemma {:induction false} DenseShareLaw(f: Method, p: Option<DensePart>)
    ensures forall x: real :: DenseAdds(f, p, x) <==> x == DenseShare(f, p)
  {
    if f.Rrf? && p.Some? {
      RankShareLaw(f.denseWeight, f.k, p.value.rank);
    }
  }

  lemma {:induction false} SaturatedShareLaw(weight: real, score: real)
    ensures forall x: real :: IsSaturatedShare(x, weight, score) <==> x == weight * Saturating(score)
  {
    SaturatingLaw(score);
    assert IsSaturated(Saturating(score), score);
  }

  lemma {:induction false} Bm25ShareLaw(f: Method, p: Option<Bm25Part>)
    ensures forall x: real :: Bm25Adds(f, p, x) <==> x == Bm25Share(f, p)
  {
    if p.Some? {
      if f.Rrf? {
        RankShareLaw(f.bm25Weight, f.k, p.value.rank);
      } else {
        var weight, score := 1.0 - f.alpha, p.value.score;
        SaturatedShareLaw(weight, score);
        assert Bm25Share(f, p) == weight * Saturating(score);
        assert forall x: real :: Bm25Adds(f, p, x) <==> IsSaturatedShare(x, weight, score);
      }
    }
  }

  /** The fused score is what the two branches add. */
  ghost predicate AddsUp(f: Method, r: Result) {
    exists d: real, l: real :: DenseAdds(f, r.dense, d) && Bm25Adds(f, r.bm25, l) && r.fusedScore == d + l
  }

  lemma {:induction false} FusedScoreLaw(f: Method, r: Result)
    ensures AddsUp(f, r) <==> r.fusedScore == DenseShare(f, r.dense) + Bm25Share(f, r.bm25)
  {
    DenseShareLaw(f, r.dense);
    Bm25ShareLaw(f, r.bm25);
    assert DenseAdds(f, r.dense, DenseShare(f, r.dense)) && Bm25Adds(f, r.bm25, Bm25Share(f, r.bm25));
  }

  // ----- result order

  function DenseRank(r: Result): nat { if r.dense.Some? then r.dense.value.rank else INT_MAX }

  function Bm25Rank(r: Result): nat { if r.bm25.Some? then r.bm25.value.rank else INT_MAX }

  predicate Both(r: Result) { r.dense.Some? && r.bm25.Some? }

  /** Fused score descending, results of both branches first, then dense rank, BM25 rank and node id ascending. */
  predicate ResultBefore(a: Result, b: Result) {
    if a.fusedScore != b.fusedScore then a.fusedScore > b.fusedScore
    else if Both(a) != Both(b) then Both(a)
    else if DenseRank(a) != DenseRank(b) then DenseRank(a) < DenseRank(b)
    else if Bm25Rank(a) != Bm25Rank(b) then Bm25Rank(a) < Bm25Rank(b)
    else a.node < b.node
  }

  const Better: (Result, Result) -> bool := ResultBefore

  lemma {:induction false} BetterIsWeakOrder()
    ensures WeakOrder(Better)
  {
  }

  // ----- the merge as a function

  ghost function MergeMap(items: seq<Result>): map<nat, Result> {
    if items == [] then map[] else AbsorbInto(MergeMap(items[..|items| - 1]), items[|items| - 1])
  }

  lemma {:induction false} MergeMapMerges(items: seq<Result>)
    requires Separate(items)
    ensures Merges(items, MergeMap(items))
  {
    if items != [] {
      var n := |items| - 1;
      assert items[..n] + [items[n]] == items;
      SeparatePrefix(items, n);
      MergeMapMerges(items[..n]);
      MergesStep(items[..n], MergeMap(items[..n]), items[n]);
    }
  }

  /** The scored results of a merge. */
  ghost function FusedSet(items: seq<Result>, f: Method, requireBm25: bool): set<Result> {
    var m := MergeMap(items);
    set n | n in m && (requireBm25 ==> m[n].bm25.Some?) :: Scored(f, m[n])
  }

  ghost function ScoredAll(f: Method, merged: seq<Result>): (s: seq<Result>)
    ensures |s| == |merged| && forall i :: 0 <= i < |s| ==> s[i] == Scored(f, merged[i])
  {
    seq(|merged|, i requires 0 <= i < |merged| => Scored(f, merged[i]))
  }

  /** Whichever way the items were merged, scoring the merge gives the fused set, each result once. */
  lemma {:induction false} MergeIsFusedSet(items: seq<Result>, f: Method, requireBm25: bool, merged: seq<Result>)
    requires Separate(items) && IsMerge(items, requireBm25, merged)
    ensures Distinct(ScoredAll(f, merged)) && Elements(ScoredAll(f, merged)) == FusedSet(items, f, requireBm25)
    ensures |FusedSet(items, f, requireBm25)| == |merged|
  {
    MergeMapMerges(items);
    var m, s := MergeMap(items), ScoredAll(f, merged);
    forall x | x in s
      ensures x in FusedSet(items, f, requireBm25)
    {
      var i :| 0 <= i < |s| && s[i] == x;
      assert merged[i] in merged;
      GathersIsUnique(items, merged[i], m[merged[i].node]);
    }
    forall x | x in FusedSet(items, f, requireBm25)
      ensures x in s
    {
      var n :| n in m && (requireBm25 ==> m[n].bm25.Some?) && x == Scored(f, m[n]);
      assert m[n] in merged;
      var i :| 0 <= i < |merged| && merged[i] == m[n];
      assert s[i] == x;
    }
    DistinctSize(s);
  }

  lemma {:induction false} FusedSetIsRankable(items: seq<Result>, f: Method, requireBm25: bool)
    requires Separate(items)
    ensures WeakOrder(Better) && TotalOn(Better, FusedSet(items, f, requireBm25))
  {
    MergeMapMerges(items);
  }

  /** The order in which candidates are merged does not matter. */
  lemma {:induction false} PermutationFusesAlike(items: seq<Result>, items': seq<Result>, requireBm25: bool,
                                                 merged: seq<Result>)
    requires multiset(items) == multiset(items') && IsMerge(items', requireBm25, merged)
    ensures IsMerge(items, requireBm25, merged)
  {
    forall r: Result
      ensures Gathers(items, r) <==> Gathers(items', r)
    {
      OrderDoesNotMatter(items, items', r);
    }
  }

  lemma {:induction false} PermutationIsSeparate(items: seq<Result>, items': seq<Result>)
    requires Separate(items) && multiset(items) == multiset(items')
    ensures Separate(items')
  {
    SameMultisetDistinct(items, items');
    forall i | 0 <= i < |items'|
      ensures items'[i] in items
    {
      assert items'[i] in Elements(items');
    }
    forall i, j | 0 <= i < j < |items'|
      ensures !Clash(items'[i], items'[j])
    {
      var a := Find(items, items'[i]);
      var b := Find(items, items'[j]);
      assert a < b || b < a;
    }
  }

  // ----- the fused list over the candidates

  ghost predicate HasDense(dense: seq<DenseCandidate>, n: nat, tid: nat, part: DensePart) {
    exists i :: 0 <= i < |dense| && dense[i] == DenseCandidate(n, tid, part)
  }

  ghost predicate HasBm25(bm25: seq<Bm25Candidate>, n: nat, tid: nat, part: Bm25Part) {
    exists i :: 0 <= i < |bm25| && bm25[i] == Bm25Candidate(n, tid, part)
  }

  /** The BM25 part is that of the candidate, and so is the heap tid where there is no dense part. */
  ghost predicate IsBm25Of(bm25: seq<Bm25Candidate>, r: Result)
    requires r.bm25.Some?
  {
    exists tid: nat :: HasBm25(bm25, r.node, tid, r.bm25.value) && (r.dense.None? ==> r.tid == tid)
  }

  ghost function DenseNodes(dense: seq<DenseCandidate>): set<nat> { set i | 0 <= i < |dense| :: dense[i].node }

  ghost function Bm25Nodes(bm25: seq<Bm25Candidate>): set<nat> { set i | 0 <= i < |bm25| :: bm25[i].node }

  /** The nodes that are fused: those of either branch, or of the BM25 branch alone. */
  ghost function FusedNodes(dense: seq<DenseCandidate>, bm25: seq<Bm25Candidate>, requireBm25: bool): set<nat> {
    if requireBm25 then Bm25Nodes(bm25) else DenseNodes(dense) + Bm25Nodes(bm25)
  }

  /** r is the fused result of its node: its parts are the candidates of the node, and its score what they add. */
  ghost predicate Fused(dense: seq<DenseCandidate>, bm25: seq<Bm25Candidate>, f: Method, requireBm25: bool, r: Result) {
    && r.node in FusedNodes(dense, bm25, requireBm25) && AddsUp(f, r)
    && (if r.node in DenseNodes(dense) then r.dense.Some? && HasDense(dense, r.node, r.tid, r.dense.value) else r.dense.None?)
    && (if r.node in Bm25Nodes(bm25) then r.bm25.Some? && IsBm25Of(bm25, r) else r.bm25.None?)
  }

  lemma {:induction false} CandidateParts(dense: seq<DenseCandidate>, bm25: seq<Bm25Candidate>, n: nat)
    ensures HasDensePart(Items(dense, bm25), n) <==> n in DenseNodes(dense)
    ensures HasBm25Part(Items(dense, bm25), n) <==> n in Bm25Nodes(bm25)
    ensures Touches(Items(dense, bm25), n) <==> n in DenseNodes(dense) + Bm25Nodes(bm25)
  {
    var items := Items(dense, bm25);
    forall i | |dense| <= i < |items|
      ensures items[i] == FromBm25(bm25[i - |dense|])
    {
      var k := i - |dense|;
      assert items[|dense| + k] == FromBm25(bm25[k]);
    }
    if i :| 0 <= i < |dense| && dense[i].node == n {
      assert items[i] == FromDense(dense[i]);
    }
    if i :| 0 <= i < |bm25| && bm25[i].node == n {
      assert items[|dense| + i] == FromBm25(bm25[i]);
    }
  }

  /** What a merge gathers, over the candidates. */
  lemma {:induction false} GathersCandidates(dense: seq<DenseCandidate>, bm25: seq<Bm25Candidate>, r: Result)
    requires DistinctNodes(dense, bm25) && Gathers(Items(dense, bm25), r)
    ensures r.node in DenseNodes(dense) + Bm25Nodes(bm25)
    ensures if r.node in DenseNodes(dense) then r.dense.Some? && HasDense(dense, r.node, r.tid, r.dense.value) else r.dense.None?
    ensures if r.node in Bm25Nodes(bm25) then r.bm25.Some? && IsBm25Of(bm25, r) else r.bm25.None?
  {
    var items := Items(dense, bm25);
    CandidateParts(dense, bm25, r.node);
    if i :| 0 <= i < |dense| && dense[i].node == r.node {
      assert items[i] == FromDense(dense[i]);
    }
    if i :| 0 <= i < |bm25| && bm25[i].node == r.node {
      assert items[|dense| + i] == FromBm25(bm25[i]);
      assert HasBm25(bm25, r.node, bm25[i].tid, r.bm25.value);
    }
  }

  /** Two such results of a node are the same. */
  lemma {:induction false} FusedIsUnique(dense: seq<DenseCandidate>, bm25: seq<Bm25Candidate>, f: Method,
                                         requireBm25: bool,
                                         r: Result, r': Result)
    requires DistinctNodes(dense, bm25) && r.node == r'.node
    requires Fused(dense, bm25, f, requireBm25, r) && Fused(dense, bm25, f, requireBm25, r')
    ensures r == r'
  {
    assert forall i, j :: 0 <= i < |dense| && 0 <= j < |dense| && dense[i].node == dense[j].node ==> i == j;
    assert forall i, j :: 0 <= i < |bm25| && 0 <= j < |bm25| && bm25[i].node == bm25[j].node ==> i == j;
    FusedScoreLaw(f, r);
    FusedScoreLaw(f, r');
  }

  /** The fused set is exactly the fused results of the fused nodes. */
  lemma {:induction false} FusedSetIs(dense: seq<DenseCandidate>, bm25: seq<Bm25Candidate>, f: Method,
                                      requireBm25: bool,
                                      r: Result)
    requires DistinctNodes(dense, bm25)
    ensures r in FusedSet(Items(dense, bm25), f, requireBm25) <==> Fused(dense, bm25, f, requireBm25, r)
  {
    var items := Items(dense, bm25);
    var m := MergeMap(items);
    ItemsAreSeparate(dense, bm25);
    MergeMapMerges(items);
    CandidateParts(dense, bm25, r.node);
    if r.node in m {
      var x := Scored(f, m[r.node]);
      GathersCandidates(dense, bm25, m[r.node]);
      FusedScoreLaw(f, x);
      if Fused(dense, bm25, f, requireBm25, r) {
        FusedIsUnique(dense, bm25, f, requireBm25, r, x);
      }
    }
  }

  /** And there is one. */
  lemma {:induction false} FusedExists(dense: seq<DenseCandidate>, bm25: seq<Bm25Candidate>, f: Method,
                                       requireBm25: bool, n: nat) returns (r: Result)
    requires DistinctNodes(dense, bm25) && n in FusedNodes(dense, bm25, requireBm25)
    ensures Fused(dense, bm25, f, requireBm25, r) && r.node == n
  {
    var items := Items(dense, bm25);
    var m := MergeMap(items);
    ItemsAreSeparate(dense, bm25);
    MergeMapMerges(items);
    CandidateParts(dense, bm25, n);
    r := Scored(f, m[n]);
    FusedSetIs(dense, bm25, f, requireBm25, r);
  }

  lemma {:induction false} FusedSetSize(dense: seq<DenseCandidate>, bm25: seq<Bm25Candidate>, f: Method,
                                        requireBm25: bool)
    requires DistinctNodes(dense, bm25)
    ensures |FusedSet(Items(dense, bm25), f, requireBm25)| == |FusedNodes(dense, bm25, requireBm25)|
  {
    var items := Items(dense, bm25);
    forall n: nat
      ensures IsFusedNode(MergeMap(items), n, requireBm25) <==> n in FusedNodes(dense, bm25, requireBm25)
      ensures n in MergeMap(items) ==> MergeMap(items)[n].node == n
    {
      FusedNode(dense, bm25, requireBm25, n);
    }
    SizeOfSet(items, f, requireBm25, FusedNodes(dense, bm25, requireBm25));
  }

  ghost predicate IsFusedNode(m: map<nat, Result>, n: nat, requireBm25: bool) {
    n in m && (requireBm25 ==> m[n].bm25.Some?)
  }

  lemma {:induction false} FusedNode(dense: seq<DenseCandidate>, bm25: seq<Bm25Candidate>, requireBm25: bool, n: nat)
    requires DistinctNodes(dense, bm25)
    ensures var m := MergeMap(Items(dense, bm25));
            (IsFusedNode(m, n, requireBm25) <==> n in FusedNodes(dense, bm25, requireBm25)) && (n in m ==> m[n].node == n)
  {
    ItemsAreSeparate(dense, bm25);
    MergeMapMerges(Items(dense, bm25));
    CandidateParts(dense, bm25, n);
  }

  lemma {:induction false} SizeOfSet(items: seq<Result>, f: Method, requireBm25: bool, ns: set<nat>)
    requires forall n: nat :: IsFusedNode(MergeMap(items), n, requireBm25) <==> n in ns
    requires forall n :: n in MergeMap(items) ==> MergeMap(items)[n].node == n
    ensures |FusedSet(items, f, requireBm25)| == |ns|
  {
    var m := MergeMap(items);
    forall n | n in ns
      ensures n in m && m[n].node == n
    {
      assert IsFusedNode(m, n, requireBm25);
    }
    SizeOfScored(m, f, ns);
    forall x
      ensures x in FusedSet(items, f, requireBm25) <==> x in ScoredSet(m, f, ns)
    {
      if x in FusedSet(items, f, requireBm25) {
        var n :| n in m && (requireBm25 ==> m[n].bm25.Some?) && x == Scored(f, m[n]);
        assert IsFusedNode(m, n, requireBm25);
      }
      if x in ScoredSet(m, f, ns) {
        var n :| n in ns && x == Scored(f, m[n]);
        assert IsFusedNode(m, n, requireBm25);
      }
    }
    assert FusedSet(items, f, requireBm25) == ScoredSet(m, f, ns);
  }

  ghost function ScoredSet(m: map<nat, Result>, f: Method, ns: set<nat>): set<Result>
    requires forall n :: n in ns ==> n in m
  {
    set n | n in ns :: Scored(f, m[n])
  }

  lemma {:induction false} SizeOfScored(m: map<nat, Result>, f: Method, ns: set<nat>)
    requires forall n :: n in ns ==> n in m && m[n].node == n
    ensures |ScoredSet(m, f, ns)| == |ns|
    decreases ns
  {
    if ns == {} {
      assert ScoredSet(m, f, ns) == {};
    } else {
      var k :| k in ns;
      SizeOfScored(m, f, ns - {k});
      assert ScoredSet(m, f, ns) == ScoredSet(m, f, ns - {k}) + {Scored(f, m[k])};
      assert forall n :: n in ns - {k} ==> Scored(f, m[n]).node != k;
    }
  }

  /** The rank in one branch is smaller, where a missing part is behind all ranks. */
  ghost predicate Earlier(a: Option<Position>, b: Option<Position>) {
    a.Some? && (b.Some? ==> a.value < b.value)
  }

  ghost function RankIn(r: Result): (ranks: (Option<Position>, Option<Position>)) {
    (if r.dense.Some? then Some(r.dense.value.rank) else None, if r.bm25.Some? then Some(r.bm25.value.rank) else None)
  }

  /**
   a comes before b: the score is larger; at equal scores a alone is of both branches; else its
   dense rank is smaller; else, at equal dense ranks, its BM25 rank; else its node.
   */
  ghost predicate InOrder(a: Result, b: Result) {
    || a.fusedScore > b.fusedScore
    || (a.fusedScore == b.fusedScore && Both(a) && !Both(b))
    || (a.fusedScore == b.fusedScore && (Both(a) <==> Both(b))
        && var (d, l), (d', l') := RankIn(a), RankIn(b);
           Earlier(d, d') || (d == d' && Earlier(l, l')) || (d == d' && l == l' && a.node < b.node))
  }

  lemma {:induction false} BetterIsInOrder(a: Result, b: Result)
    ensures Better(a, b) <==> InOrder(a, b)
  {
  }

  /** final lists fused results in order, and none that is left out should be before one of them. */
  ghost predicate FusedList(dense: seq<DenseCandidate>, bm25: seq<Bm25Candidate>, f: Method, requireBm25: bool,
                            final: seq<Result>) {
    && (forall i :: 0 <= i < |final| ==> Fused(dense, bm25, f, requireBm25, final[i]))
    && (forall i, j :: 0 <= i < j < |final| ==> InOrder(final[i], final[j]))
    && forall i, r :: 0 <= i < |final| && Fused(dense, bm25, f, requireBm25, r) && r !in final ==> InOrder(final[i], r)
  }

  /** As many as there are, as the union cap and, without an active limit, finalK allow. */
  ghost predicate AsMany(n: nat, fused: nat, finalK: nat, maxUnion: nat, activeLimit: int) {
    && n <= fused && (maxUnion > 0 ==> n <= maxUnion) && (activeLimit <= 0 ==> n <= finalK)
    && (n == fused || (maxUnion > 0 && n == maxUnion) || (activeLimit <= 0 && n == finalK))
  }

  /** The ranked prefix of the fused set, over the candidates. */
  lemma {:induction false} TopIsFusedList(dense: seq<DenseCandidate>, bm25: seq<Bm25Candidate>, f: Method,
                                          requireBm25: bool, n: nat, final: seq<Result>)
    requires DistinctNodes(dense, bm25) && IsTopK(Better, FusedSet(Items(dense, bm25), f, requireBm25), n, final)
    ensures FusedList(dense, bm25, f, requireBm25, final) && |final| == Min(n, |FusedNodes(dense, bm25, requireBm25)|)
  {
    var S := FusedSet(Items(dense, bm25), f, requireBm25);
    ItemsAreSeparate(dense, bm25);
    FusedSetIsRankable(Items(dense, bm25), f, requireBm25);
    TopKInOrder(Better, S, n, final);
    FusedSetSize(dense, bm25, f, requireBm25);
    forall r: Result
      ensures r in S <==> Fused(dense, bm25, f, requireBm25, r)
    {
      FusedSetIs(dense, bm25, f, requireBm25, r);
    }
    forall a: Result, b: Result
      ensures Better(a, b) <==> InOrder(a, b)
    {
      BetterIsInOrder(a, b);
    }
  }

  // ----- finishing

  /** How many results to return: an active LIMIT lifts the cap at finalK. */
  function FinalTarget(mergedCount: nat, finalK: nat, maxUnion: nat, activeLimit: int): (r: nat)
    ensures AsMany(r, mergedCount, finalK, maxUnion, activeLimit)
  {
    var capped := if maxUnion > 0 then Min(mergedCount, maxUnion) else mergedCount;
    if activeLimit <= 0 then Min(capped, finalK) else capped
  }

  method ScoreResults(f: Method, merged: seq<Result>) returns (scored: seq<Result>)
    ensures scored == ScoredAll(f, merged)
  {
    scored := [];
    for i := 0 to |merged|
      invariant |scored| == i && forall j :: 0 <= j < i ==> scored[j] == Scored(f, merged[j])
    {
      scored := scored + [Scored(f, merged[i])];
    }
  }

  /** The bounded heap returns the prefix of the full sort: the best results of the fused set, best first. */
  method FinalizeFused(f: Method, merged: seq<Result>, finalK: nat, maxUnion: nat, activeLimit: int,
                       ghost items: seq<Result>, ghost requireBm25: bool)
    returns (final: seq<Result>)
    requires Separate(items) && IsMerge(items, requireBm25, merged)
    ensures var S := FusedSet(items, f, requireBm25); IsTopK(Better, S, FinalTarget(|S|, finalK, maxUnion, activeLimit), final)
  {
    var scored := ScoreResults(f, merged);
    MergeIsFusedSet(items, f, requireBm25, merged);
    FusedSetIsRankable(items, f, requireBm25);
    var finalCount := FinalTarget(|merged|, finalK, maxUnion, activeLimit);
    if finalCount < |merged| {
      final := SelectTopN(scored, finalCount, Better);
    } else {
      SortByIsTopK(Better, scored, |scored|);
      final := SortBy(Better, scored);
      assert final[..|scored|] == final;
    }
  }

  // ----- the three paths

  datatype Path = UseGenerationArray | UseHash | UseSort

  predicate NodeBefore(a: Result, b: Result) { a.node < b.node }

  method FuseBySorting(items: seq<Result>, sorted: seq<Result>, requireBm25: bool) returns (merged: seq<Result>)
    requires Separate(items) && multiset(sorted) == multiset(items) && SortedByNodeId(sorted)
    ensures IsMerge(items, requireBm25, merged)
  {
    PermutationIsSeparate(items, sorted);
    merged := FuseSorted(sorted, requireBm25);
    PermutationFusesAlike(items, sorted, requireBm25, merged);
  }

  /**
   Whichever path is taken, with a cache in whatever state earlier queries left it, the final
   sequence is the same: it is determined by the candidates alone.
   */
  method FuseCandidates(path: Path, cache: FusionArray<Result>, nodeCount: nat, dense: seq<DenseCandidate>,
                        bm25: seq<Bm25Candidate>,
                        f: Method, requireBm25: bool, finalK: nat, maxUnion: nat, activeLimit: int)
    returns (final: seq<Result>)
    requires DistinctNodes(dense, bm25) && cache.Valid()
    requires path == UseGenerationArray ==> forall i :: 0 <= i < |Items(dense, bm25)| ==> Items(dense, bm25)[i].node < nodeCount
    modifies cache, cache.entries
    ensures cache.Valid()
    ensures var S := FusedSet(Items(dense, bm25), f, requireBm25);
            IsTopK(Better, S, FinalTarget(|S|, finalK, maxUnion, activeLimit), final)
    ensures FusedList(dense, bm25, f, requireBm25, final)
    ensures AsMany(|final|, |FusedNodes(dense, bm25, requireBm25)|, finalK, maxUnion, activeLimit)
  {
    var items := Items(dense, bm25);
    ItemsAreSeparate(dense, bm25);
    var merged: seq<Result>;
    match path {
      case UseGenerationArray =>
        merged := FuseGenerationArray(cache, items, nodeCount, requireBm25);
      case UseHash =>
        merged := FuseHash(items, requireBm25);
      case UseSort =>
        SortBySorts(NodeBefore, items);
        var sorted := SortBy(NodeBefore, items);
        merged := FuseBySorting(items, sorted, requireBm25);
    }
    final := FinalizeFused(f, merged, finalK, maxUnion, activeLimit, items, requireBm25);
    FusedSetSize(dense, bm25, f, requireBm25);
    TopIsFusedList(dense, bm25, f, requireBm25, |final|, final);
  }

  /** So two paths over the same candidates return the same sequence. */
  lemma {:induction false} PathsAgree(items: seq<Result>, f: Method, requireBm25: bool, n: nat, final: seq<Result>,
                                      final': seq<Result>)
    requires Separate(items)
    requires IsTopK(Better, FusedSet(items, f, requireBm25), n, final)
    requires IsTopK(Better, FusedSet(items, f, requireBm25), n, final')
    ensures final == final'
  {
    FusedSetIsRankable(items, f, requireBm25);
    UniqueTopK(Better, FusedSet(items, f, requireBm25), n, final, final');
  }
}
