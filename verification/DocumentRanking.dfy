/** The two merges by heap tid, scored and ranked: the same documents in the same order. */
module DocumentRanking {
  import opened Wrappers
  import opened Ranking
  import opened FusedBound
  import F = Fusion
  import opened DocumentFusion
  import FusedRanking

  // ----- fused score

  /** Ranks alone where all three branches run; similarities where the dense one is the vector or the multivector. */
  datatype Method = Rrf(k: nat, denseWeight: real, multiWeight: real, bm25Weight: real) | FastWeighted(alpha: real)

  function RankShare(weight: real, k: nat, p: Option<F.DensePart>): real {
    if p.None? then 0.0 else weight * FusedRanking.Reciprocal(k, p.value.rank)
  }

  function DenseLike(r: Document): Option<F.DensePart> { if r.dense.Some? then r.dense else r.multi }

  function FusedScore(f: Method, r: Document): real {
    match f
    case Rrf(k, dense, multi, bm25) =>
      RankShare(dense, k, r.dense) + RankShare(multi, k, r.multi)
      + (if r.bm25.None? then 0.0 else bm25 * FusedRanking.Reciprocal(k, r.bm25.value.rank))
    case FastWeighted(alpha) =>
      (if DenseLike(r).None? then 0.0 else alpha * DenseLike(r).value.norm)
      + (if r.bm25.None? then 0.0 else (1.0 - alpha) * Saturating(r.bm25.value.score))
  }

  function Scored(f: Method, r: Document): Document { r.(fusedScore := FusedScore(f, r)) }

  // ----- result order

  function PartRank(p: Option<F.DensePart>): nat { if p.Some? then p.value.rank else F.INT_MAX }

  function Bm25Rank(r: Document): nat { if r.bm25.Some? then r.bm25.value.rank else F.INT_MAX }

  predicate Both(r: Document) { DenseLike(r).Some? && r.bm25.Some? }

  /** Fused score descending, documents of both kinds first, then dense, multivector and BM25 rank and node id ascending. */
  predicate DocumentBefore(a: Document, b: Document) {
    if a.fusedScore != b.fusedScore then a.fusedScore > b.fusedScore
    else if Both(a) != Both(b) then Both(a)
    else if PartRank(a.dense) != PartRank(b.dense) then PartRank(a.dense) < PartRank(b.dense)
    else if PartRank(a.multi) != PartRank(b.multi) then PartRank(a.multi) < PartRank(b.multi)
    else if Bm25Rank(a) != Bm25Rank(b) then Bm25Rank(a) < Bm25Rank(b)
    else a.node < b.node
  }

  const Better: (Document, Document) -> bool := DocumentBefore

  lemma {:induction false} BetterIsWeakOrder()
    ensures WeakOrder(Better)
  {
  }

  predicate SameRanks(a: Document, b: Document) {
    PartRank(a.dense) == PartRank(b.dense) && PartRank(a.multi) == PartRank(b.multi) && Bm25Rank(a) == Bm25Rank(b)
  }

  /** Two documents never have all their ranks in common. */
  lemma {:induction false} RanksTell(items: seq<Document>, a: Document, b: Document)
    requires Separate(items) && Gathers(items, a) && Gathers(items, b) && SameRanks(a, b)
    ensures a.tid == b.tid
  {
    var i :| 0 <= i < |items| && items[i].tid == a.tid;
    var branch := BranchOf(items[i]);
    assert HasPart(items, a.tid, branch) && Single(items[i]);
    assert HasPart(items, b.tid, branch);
    var j := PartIn(items, b.tid, branch);
    assert Single(items[j]) && Takes(a, items[i]) && Takes(b, items[j]);
    assert RankOf(items[i]) == RankOf(items[j]);
    assert !(i < j) && !(j < i);
  }

  // ----- fused documents

  /** The scored documents of a merge. */
  ghost function FusedSet(f: Method, m: map<nat, Document>, requireBm25: bool): set<Document> {
    set t | t in m && (requireBm25 ==> m[t].bm25.Some?) :: Scored(f, m[t])
  }

  ghost predicate AllFound(items: seq<Document>, m: map<nat, Document>) {
    Separate(items) && Merges(items, m)
  }

  /** The order is total before it comes to node ids. */
  lemma {:induction false} RanksDecide(items: seq<Document>, m: map<nat, Document>, f: Method, requireBm25: bool,
                                       a: Document, b: Document)
    requires AllFound(items, m) && a in FusedSet(f, m, requireBm25) && b in FusedSet(f, m, requireBm25)
    ensures a.tid in m && b.tid in m && a == Scored(f, m[a.tid]) && b == Scored(f, m[b.tid])
    ensures a != b ==> a.tid != b.tid && !SameRanks(a, b)
  {
    var t :| t in m && (requireBm25 ==> m[t].bm25.Some?) && a == Scored(f, m[t]);
    var u :| u in m && (requireBm25 ==> m[u].bm25.Some?) && b == Scored(f, m[u]);
    if a != b && SameRanks(a, b) {
      RanksTell(items, m[t], m[u]);
    }
  }

  lemma {:induction false} FusedSetIsRankable(items: seq<Document>, m: map<nat, Document>, f: Method, requireBm25: bool)
    requires AllFound(items, m)
    ensures WeakOrder(Better) && TotalOn(Better, FusedSet(f, m, requireBm25))
  {
    var S := FusedSet(f, m, requireBm25);
    forall a, b | a in S && b in S && a != b
      ensures Better(a, b) || Better(b, a)
    {
      RanksDecide(items, m, f, requireBm25, a, b);
    }
  }

  // ----- forgetting node ids

  ghost function AllParts(S: set<Document>): set<Document> { set x | x in S :: Parts(x) }

  function PartsOf(s: seq<Document>): (r: seq<Document>)
    ensures |r| == |s| && forall i :: 0 <= i < |s| ==> r[i] == Parts(s[i])
  {
    seq(|s|, i requires 0 <= i < |s| => Parts(s[i]))
  }

  /** No two documents differ by node id only. */
  ghost predicate PartsTell(S: set<Document>) {
    forall a, b :: a in S && b in S && Parts(a) == Parts(b) ==> a == b
  }

  /** Nor are any two ordered by it. */
  ghost predicate NodeFree(S: set<Document>) {
    PartsTell(S) && forall a, b :: a in S && b in S ==> (Better(Parts(a), Parts(b)) <==> Better(a, b))
  }

  lemma {:induction false} FusedIsNodeFree(items: seq<Document>, m: map<nat, Document>, f: Method, requireBm25: bool)
    requires AllFound(items, m)
    ensures NodeFree(FusedSet(f, m, requireBm25))
  {
    var S := FusedSet(f, m, requireBm25);
    forall a, b | a in S && b in S
      ensures (Parts(a) == Parts(b) ==> a == b) && (Better(Parts(a), Parts(b)) <==> Better(a, b))
    {
      RanksDecide(items, m, f, requireBm25, a, b);
    }
    assert PartsTell(S);
  }

  lemma {:induction false} PartsOnce(S: set<Document>, T: set<Document>, x: Document)
    requires T <= S && PartsTell(S) && x in S && x !in T
    ensures Parts(x) !in AllParts(T) && AllParts(T + {x}) == AllParts(T) + {Parts(x)}
  {
    forall y | y in T
      ensures Parts(y) != Parts(x)
    {
      assert y in S;
    }
  }

  lemma {:induction false} ImageSize(S: set<Document>, T: set<Document>)
    requires T <= S && PartsTell(S)
    ensures |AllParts(T)| == |T|
    decreases T
  {
    if T == {} {
      assert AllParts(T) == {};
    } else {
      var x :| x in T;
      var rest := T - {x};
      ImageSize(S, rest);
      PartsOnce(S, rest, x);
      assert T == rest + {x};
    }
  }

  lemma {:induction false} BeatingWithoutNodes(S: set<Document>, x: Document)
    requires NodeFree(S) && x in S
    ensures Rank(Better, AllParts(S), Parts(x)) == Rank(Better, S, x)
  {
    var B := Beating(Better, S, x);
    forall y
      ensures y in Beating(Better, AllParts(S), Parts(x)) <==> y in AllParts(B)
    {
      if y in Beating(Better, AllParts(S), Parts(x)) {
        var a :| a in S && y == Parts(a);
        assert a in B;
      }
      if y in AllParts(B) {
        var a :| a in B && y == Parts(a);
        assert a in S;
      }
    }
    assert Beating(Better, AllParts(S), Parts(x)) == AllParts(B);
    ImageSize(S, B);
  }

  /** The best of such documents are the best without their node ids. */
  lemma {:induction false} TopWithoutNodes(S: set<Document>, n: nat, final: seq<Document>)
    requires NodeFree(S) && IsTopK(Better, S, n, final)
    ensures IsTopK(Better, AllParts(S), n, PartsOf(final))
  {
    ImageSize(S, S);
    forall i | 0 <= i < |final|
      ensures PartsOf(final)[i] in AllParts(S) && Rank(Better, AllParts(S), PartsOf(final)[i]) == i
    {
      BeatingWithoutNodes(S, final[i]);
    }
  }

  lemma {:induction false} PartsScoreAlike(f: Method, r: Document, r': Document)
    requires Parts(r) == Parts(r')
    ensures Parts(Scored(f, r)) == Parts(Scored(f, r'))
  {
    assert r' == r.(node := r'.node);
  }

  lemma {:induction false} SameSets(f: Method, m: map<nat, Document>, m': map<nat, Document>, requireBm25: bool)
    requires m.Keys == m'.Keys && forall t :: t in m ==> Parts(m[t]) == Parts(m'[t])
    ensures AllParts(FusedSet(f, m, requireBm25)) <= AllParts(FusedSet(f, m', requireBm25))
  {
    forall x | x in AllParts(FusedSet(f, m, requireBm25))
      ensures x in AllParts(FusedSet(f, m', requireBm25))
    {
      var t :| t in m && (requireBm25 ==> m[t].bm25.Some?) && x == Parts(Scored(f, m[t]));
      assert Parts(m[t]).bm25 == m[t].bm25 && Parts(m'[t]).bm25 == m'[t].bm25;
      PartsScoreAlike(f, m[t], m'[t]);
      assert Scored(f, m'[t]) in FusedSet(f, m', requireBm25);
    }
  }

  lemma {:induction false} TotalWithoutNodes(S: set<Document>)
    requires NodeFree(S) && TotalOn(Better, S)
    ensures TotalOn(Better, AllParts(S))
  {
    forall x, y | x in AllParts(S) && y in AllParts(S) && x != y
      ensures Better(x, y) || Better(y, x)
    {
      var a :| a in S && x == Parts(a);
      var b :| b in S && y == Parts(b);
      assert Better(a, b) || Better(b, a);
    }
  }

  /** Two such sets of the same documents have the same best ones. */
  lemma {:induction false} SidesAgree(S: set<Document>, S': set<Document>, n: nat, final: seq<Document>,
                                      final': seq<Document>)
    requires NodeFree(S) && NodeFree(S') && TotalOn(Better, S) && AllParts(S) == AllParts(S')
    requires IsTopK(Better, S, n, final) && IsTopK(Better, S', n, final')
    ensures PartsOf(final) == PartsOf(final')
  {
    TopWithoutNodes(S, n, final);
    TopWithoutNodes(S', n, final');
    TotalWithoutNodes(S);
    BetterIsWeakOrder();
    UniqueTopK(Better, AllParts(S), n, PartsOf(final), PartsOf(final'));
  }

  /**
   Whatever the number of results, and however the sort left items of the same document and
   node, both paths return the same documents with the same parts and scores in the same order.
   */
  lemma {:induction false} DocumentPathsAgree(items: seq<Document>, sorted: seq<Document>, f: Method,
                                              requireBm25: bool, n: nat,
                                              final: seq<Document>, final': seq<Document>)
    requires Separate(items) && multiset(items) == multiset(sorted)
    requires IsTopK(Better, FusedSet(f, TakeAll(items), requireBm25), n, final)
    requires IsTopK(Better, FusedSet(f, JoinAll(sorted), requireBm25), n, final')
    ensures PartsOf(final) == PartsOf(final')
  {
    var m, m' := TakeAll(items), JoinAll(sorted);
    SortedIsSeparate(items, sorted);
    TakeMerges(items);
    JoinMerges(sorted);
    FusedIsNodeFree(items, m, f, requireBm25);
    FusedIsNodeFree(sorted, m', f, requireBm25);
    FusedSetIsRankable(items, m, f, requireBm25);
    SameDocuments(items, sorted);
    SameSets(f, m, m', requireBm25);
    SameSets(f, m', m, requireBm25);
    SidesAgree(FusedSet(f, m, requireBm25), FusedSet(f, m', requireBm25), n, final, final');
  }
}
