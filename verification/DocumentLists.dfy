/**
 The final list of documents over the candidates of the three branches: which documents, with
 which parts and fused scores, in which order; and that a document ahead in every branch comes
 first.
 */
module DocumentLists {
  import opened Wrappers
  import opened Ranking
  import F = Fusion
  import opened DocumentFusion
  import opened DocumentRanking
  import Two = FusedRanking
  import FusionLaws

  // ----- fused score, by equations

  /** How the dense branch and the BM25 branch count. */
  function Outer(f: Method): Two.Method {
    match f
    case Rrf(k, dense, multi, bm25) => Two.Rrf(k, dense, bm25)
    case FastWeighted(alpha) => Two.FastWeighted(alpha)
  }

  /** How the multivector branch counts. */
  function Middle(f: Method): Two.Method {
    match f
    case Rrf(k, dense, multi, bm25) => Two.Rrf(k, multi, bm25)
    case FastWeighted(alpha) => Two.FastWeighted(alpha)
  }

  /** The multivector part that counts: by similarity, only where there is no dense part. */
  function MultiPart(f: Method, r: Document): Option<F.DensePart> {
    if f.FastWeighted? && r.dense.Some? then None else r.multi
  }

  /** The fused score is what the three branches add. */
  ghost predicate AddsUp(f: Method, r: Document) {
    exists d: real, m: real, l: real ::
      && Two.DenseAdds(Outer(f), r.dense, d) && Two.DenseAdds(Middle(f), MultiPart(f, r), m) && Two.Bm25Adds(Outer(f), r.bm25, l)
      && r.fusedScore == d + m + l
  }

  lemma {:induction false} RankShareIs(weight: real, k: nat, p: Option<F.DensePart>, f: Two.Method)
    requires f.Rrf? && f.k == k && f.denseWeight == weight
    ensures RankShare(weight, k, p) == Two.DenseShare(f, p)
  {
  }

  lemma {:induction false} RrfScoreIs(f: Method, r: Document)
    requires f.Rrf?
    ensures FusedScore(f, r) ==
            Two.DenseShare(Outer(f), r.dense) + Two.DenseShare(Middle(f), r.multi) + Two.Bm25Share(Outer(f), r.bm25)
  {
    RankShareIs(f.denseWeight, f.k, r.dense, Outer(f));
    RankShareIs(f.multiWeight, f.k, r.multi, Middle(f));
  }

  lemma {:induction false} SimilarityIs(f: Method, r: Document)
    requires f.FastWeighted?
    ensures Two.DenseShare(Outer(f), r.dense) + Two.DenseShare(Middle(f), MultiPart(f, r)) == Two.DenseShare(Outer(f), DenseLike(r))
  {
  }

  lemma {:induction false} FusedScoreIs(f: Method, r: Document)
    ensures FusedScore(f, r) ==
            Two.DenseShare(Outer(f), r.dense) + Two.DenseShare(Middle(f), MultiPart(f, r)) + Two.Bm25Share(Outer(f), r.bm25)
  {
    if f.Rrf? {
      RrfScoreIs(f, r);
    } else {
      SimilarityIs(f, r);
      assert FusedScore(f, r) == Two.DenseShare(Outer(f), DenseLike(r)) + Two.Bm25Share(Outer(f), r.bm25);
    }
  }

  lemma {:induction false} FusedScoreLaw(f: Method, r: Document)
    ensures AddsUp(f, r) <==> r.fusedScore == FusedScore(f, r)
  {
    FusedScoreIs(f, r);
    Two.DenseShareLaw(Outer(f), r.dense);
    Two.DenseShareLaw(Middle(f), MultiPart(f, r));
    Two.Bm25ShareLaw(Outer(f), r.bm25);
    var d, m, l := Two.DenseShare(Outer(f), r.dense), Two.DenseShare(Middle(f), MultiPart(f, r)), Two.Bm25Share(Outer(f), r.bm25);
    assert Two.DenseAdds(Outer(f), r.dense, d) && Two.DenseAdds(Middle(f), MultiPart(f, r), m) && Two.Bm25Adds(Outer(f), r.bm25, l);
  }

  // ----- the documents over the candidates

  ghost function Tids(cs: seq<F.DenseCandidate>): set<nat> { set i | 0 <= i < |cs| :: cs[i].tid }

  ghost function Bm25Tids(cs: seq<F.Bm25Candidate>): set<nat> { set i | 0 <= i < |cs| :: cs[i].tid }

  /** The candidates of the three branches. */
  datatype Found = Found(dense: seq<F.DenseCandidate>, multi: seq<F.DenseCandidate>, bm25: seq<F.Bm25Candidate>)

  ghost predicate WellListed(c: Found) { Listed(c.dense, c.multi, c.bm25) }

  function ItemsOf(c: Found): seq<Document> { Candidates(c.dense, c.multi, c.bm25) }

  ghost function FusedTids(c: Found, requireBm25: bool): set<nat> {
    if requireBm25 then Bm25Tids(c.bm25) else Tids(c.dense) + Tids(c.multi) + Bm25Tids(c.bm25)
  }

  /** The part of the document in a branch: that of its candidate, or none. */
  ghost predicate IsPart(cs: seq<F.DenseCandidate>, tid: nat, p: Option<F.DensePart>) {
    if tid in Tids(cs) then p.Some? && exists i :: 0 <= i < |cs| && cs[i].tid == tid && cs[i].part == p.value else p.None?
  }

  ghost predicate IsBm25Part(cs: seq<F.Bm25Candidate>, tid: nat, p: Option<F.Bm25Part>) {
    if tid in Bm25Tids(cs) then p.Some? && exists i :: 0 <= i < |cs| && cs[i].tid == tid && cs[i].part == p.value else p.None?
  }

  ghost predicate HasParts(c: Found, r: Document) {
    IsPart(c.dense, r.tid, r.dense) && IsPart(c.multi, r.tid, r.multi) && IsBm25Part(c.bm25, r.tid, r.bm25)
  }

  /** r is a fused document: its parts are its candidates, its score is what they add. */
  ghost predicate FusedDocument(c: Found, f: Method, requireBm25: bool, r: Document) {
    r.tid in FusedTids(c, requireBm25) && HasParts(c, r) && AddsUp(f, r)
  }

  lemma {:induction false} PlacesOf(c: Found)
    ensures forall i :: 0 <= i < |c.dense| ==> ItemsOf(c)[i] == FromDense(c.dense[i])
    ensures forall i :: 0 <= i < |c.multi| ==> ItemsOf(c)[|c.dense| + i] == FromMulti(c.multi[i])
    ensures forall i :: 0 <= i < |c.bm25| ==> ItemsOf(c)[|c.dense| + |c.multi| + i] == FromBm25(c.bm25[i])
  {
  }

  lemma {:induction false} BranchIn(c: Found, k: nat)
    requires k < |ItemsOf(c)|
    ensures var x := ItemsOf(c)[k];
            match BranchOf(x)
            case Dense => x.tid in Tids(c.dense)
            case Multi => x.tid in Tids(c.multi)
            case Lexical => x.tid in Bm25Tids(c.bm25)
  {
    PlacesOf(c);
    var d, m := |c.dense|, |c.multi|;
    if k < d {
      assert ItemsOf(c)[k] == FromDense(c.dense[k]);
    } else if k < d + m {
      var i := k - d;
      assert ItemsOf(c)[d + i] == FromMulti(c.multi[i]);
    } else {
      var i := k - d - m;
      assert ItemsOf(c)[d + m + i] == FromBm25(c.bm25[i]);
    }
  }

  lemma {:induction false} BranchTids(c: Found, t: nat)
    ensures HasPart(ItemsOf(c), t, Dense) <==> t in Tids(c.dense)
    ensures HasPart(ItemsOf(c), t, Multi) <==> t in Tids(c.multi)
    ensures HasPart(ItemsOf(c), t, Lexical) <==> t in Bm25Tids(c.bm25)
    ensures Touches(ItemsOf(c), t) <==> t in FusedTids(c, false)
  {
    BranchesOnly(c, t);
    BranchesAll(c, t);
  }

  lemma {:induction false} BranchesOnly(c: Found, t: nat)
    ensures HasPart(ItemsOf(c), t, Dense) ==> t in Tids(c.dense)
    ensures HasPart(ItemsOf(c), t, Multi) ==> t in Tids(c.multi)
    ensures HasPart(ItemsOf(c), t, Lexical) ==> t in Bm25Tids(c.bm25)
    ensures Touches(ItemsOf(c), t) ==> t in FusedTids(c, false)
  {
    var items := ItemsOf(c);
    forall k | 0 <= k < |items| && items[k].tid == t
      ensures match BranchOf(items[k]) case Dense => t in Tids(c.dense) case Multi => t in Tids(c.multi) case Lexical => t in Bm25Tids(c.bm25)
    {
      BranchIn(c, k);
    }
  }

  lemma {:induction false} BranchesAll(c: Found, t: nat)
    ensures t in Tids(c.dense) ==> HasPart(ItemsOf(c), t, Dense)
    ensures t in Tids(c.multi) ==> HasPart(ItemsOf(c), t, Multi)
    ensures t in Bm25Tids(c.bm25) ==> HasPart(ItemsOf(c), t, Lexical)
    ensures t in FusedTids(c, false) ==> Touches(ItemsOf(c), t)
  {
    var items := ItemsOf(c);
    PlacesOf(c);
    if t in Tids(c.dense) {
      var i :| 0 <= i < |c.dense| && c.dense[i].tid == t;
      assert items[i] == FromDense(c.dense[i]);
    }
    if t in Tids(c.multi) {
      var i :| 0 <= i < |c.multi| && c.multi[i].tid == t;
      assert items[|c.dense| + i] == FromMulti(c.multi[i]);
    }
    if t in Bm25Tids(c.bm25) {
      var i :| 0 <= i < |c.bm25| && c.bm25[i].tid == t;
      assert items[|c.dense| + |c.multi| + i] == FromBm25(c.bm25[i]);
    }
  }

  /** What a merge gathers, over the candidates. */
  lemma {:induction false} GathersParts(c: Found, r: Document)
    requires Gathers(ItemsOf(c), r)
    ensures r.tid in FusedTids(c, false) && HasParts(c, r)
  {
    var items := ItemsOf(c);
    BranchTids(c, r.tid);
    PlacesOf(c);
    if i :| 0 <= i < |c.dense| && c.dense[i].tid == r.tid {
      assert Takes(r, items[i]) && items[i] == FromDense(c.dense[i]);
    }
    if i :| 0 <= i < |c.multi| && c.multi[i].tid == r.tid {
      assert Takes(r, items[|c.dense| + i]) && items[|c.dense| + i] == FromMulti(c.multi[i]);
    }
    if i :| 0 <= i < |c.bm25| && c.bm25[i].tid == r.tid {
      assert Takes(r, items[|c.dense| + |c.multi| + i]) && items[|c.dense| + |c.multi| + i] == FromBm25(c.bm25[i]);
    }
  }

  lemma {:induction false} PartIsUnique(cs: seq<F.DenseCandidate>, tid: nat, p: Option<F.DensePart>,
                                        p': Option<F.DensePart>)
    requires forall i, j :: 0 <= i < j < |cs| ==> cs[i].tid != cs[j].tid
    requires IsPart(cs, tid, p) && IsPart(cs, tid, p')
    ensures p == p'
  {
    assert forall i, j :: 0 <= i < |cs| && 0 <= j < |cs| && cs[i].tid == cs[j].tid ==> i == j;
  }

  lemma {:induction false} Bm25PartIsUnique(cs: seq<F.Bm25Candidate>, tid: nat, p: Option<F.Bm25Part>,
                                            p': Option<F.Bm25Part>)
    requires forall i, j :: 0 <= i < j < |cs| ==> cs[i].tid != cs[j].tid
    requires IsBm25Part(cs, tid, p) && IsBm25Part(cs, tid, p')
    ensures p == p'
  {
    assert forall i, j :: 0 <= i < |cs| && 0 <= j < |cs| && cs[i].tid == cs[j].tid ==> i == j;
  }

  lemma {:induction false} SameParts(c: Found, r: Document, r': Document)
    requires WellListed(c) && r.tid == r'.tid && HasParts(c, r) && HasParts(c, r')
    ensures r.dense == r'.dense && r.multi == r'.multi && r.bm25 == r'.bm25
  {
    PartIsUnique(c.dense, r.tid, r.dense, r'.dense);
    PartIsUnique(c.multi, r.tid, r.multi, r'.multi);
    Bm25PartIsUnique(c.bm25, r.tid, r.bm25, r'.bm25);
  }

  lemma {:induction false} SameScores(f: Method, r: Document, r': Document)
    requires r.tid == r'.tid && r.dense == r'.dense && r.multi == r'.multi && r.bm25 == r'.bm25
    ensures FusedScore(f, r) == FusedScore(f, r')
  {
    assert r' == r.(node := r'.node, fusedScore := r'.fusedScore);
  }

  /** Two fused documents of one tid differ by their node ids at most. */
  lemma {:induction false} FusedIsUnique(c: Found, f: Method, requireBm25: bool, r: Document, r': Document)
    requires WellListed(c) && r.tid == r'.tid
    requires FusedDocument(c, f, requireBm25, r) && FusedDocument(c, f, requireBm25, r')
    ensures Parts(r) == Parts(r')
  {
    SameParts(c, r, r');
    SameScores(f, r, r');
    FusedScoreLaw(f, r);
    FusedScoreLaw(f, r');
  }

  // ----- the fused set of a path

  /** A merge of the candidates in some order. */
  ghost predicate MergedFrom(c: Found, items: seq<Document>, m: map<nat, Document>) {
    WellListed(c) && AllFound(items, m) && multiset(items) == multiset(ItemsOf(c))
  }

  lemma {:induction false} MergedTids(c: Found, items: seq<Document>, m: map<nat, Document>, t: nat)
    requires MergedFrom(c, items, m)
    ensures t in m <==> t in FusedTids(c, false)
    ensures t in m ==> m[t].tid == t && Gathers(ItemsOf(c), m[t])
  {
    BranchTids(c, t);
    SameTouches(items, ItemsOf(c), t);
    if t in m {
      GathersAlike(items, ItemsOf(c), m[t]);
    }
  }

  lemma {:induction false} SameTouches(items: seq<Document>, items': seq<Document>, t: nat)
    requires multiset(items) == multiset(items')
    ensures Touches(items, t) <==> Touches(items', t)
  {
    if i :| 0 <= i < |items| && items[i].tid == t {
      SameItems(items, items', items[i]);
    }
    if i :| 0 <= i < |items'| && items'[i].tid == t {
      SameItems(items, items', items'[i]);
    }
  }

  lemma {:induction false} MergedParts(c: Found, items: seq<Document>, m: map<nat, Document>, f: Method,
                                       requireBm25: bool, t: nat)
    requires MergedFrom(c, items, m)
    ensures t in m && (requireBm25 ==> m[t].bm25.Some?) <==> t in FusedTids(c, requireBm25)
    ensures t in FusedTids(c, requireBm25) ==> m[t].tid == t && FusedDocument(c, f, requireBm25, Scored(f, m[t]))
  {
    MergedTids(c, items, m, t);
    if t in m {
      ScoredIsFused(c, f, m[t]);
    }
  }

  lemma {:induction false} ScoredIsFused(c: Found, f: Method, r: Document)
    requires Gathers(ItemsOf(c), r)
    ensures HasParts(c, Scored(f, r)) && AddsUp(f, Scored(f, r)) && r.tid in FusedTids(c, false)
    ensures r.bm25.Some? <==> r.tid in Bm25Tids(c.bm25)
  {
    GathersParts(c, r);
    SameScores(f, r, Scored(f, r));
    FusedScoreLaw(f, Scored(f, r));
  }

  ghost function ScoredSet(m: map<nat, Document>, f: Method, ts: set<nat>): set<Document>
    requires forall t :: t in ts ==> t in m
  {
    set t | t in ts :: Scored(f, m[t])
  }

  lemma {:induction false} SizeOfScored(m: map<nat, Document>, f: Method, ts: set<nat>)
    requires forall t :: t in ts ==> t in m && m[t].tid == t
    ensures |ScoredSet(m, f, ts)| == |ts|
    decreases ts
  {
    if ts == {} {
      assert ScoredSet(m, f, ts) == {};
    } else {
      var k :| k in ts;
      SizeOfScored(m, f, ts - {k});
      assert ScoredSet(m, f, ts) == ScoredSet(m, f, ts - {k}) + {Scored(f, m[k])};
      assert forall t :: t in ts - {k} ==> Scored(f, m[t]).tid != k;
    }
  }

  lemma {:induction false} FusedMember(c: Found, items: seq<Document>, m: map<nat, Document>, f: Method,
                                       requireBm25: bool, x: Document)
    requires MergedFrom(c, items, m) && x in FusedSet(f, m, requireBm25)
    ensures FusedDocument(c, f, requireBm25, x)
  {
    var t :| t in m && (requireBm25 ==> m[t].bm25.Some?) && x == Scored(f, m[t]);
    MergedParts(c, items, m, f, requireBm25, t);
  }

  lemma {:induction false} FusedOfTid(c: Found, items: seq<Document>, m: map<nat, Document>, f: Method,
                                      requireBm25: bool, t: nat) returns (x: Document)
    requires MergedFrom(c, items, m) && t in FusedTids(c, requireBm25)
    ensures x in FusedSet(f, m, requireBm25) && x.tid == t && FusedDocument(c, f, requireBm25, x)
  {
    MergedParts(c, items, m, f, requireBm25, t);
    x := Scored(f, m[t]);
  }

  lemma {:induction false} FusedSetSize(c: Found, items: seq<Document>, m: map<nat, Document>, f: Method,
                                        requireBm25: bool)
    requires MergedFrom(c, items, m)
    ensures |FusedSet(f, m, requireBm25)| == |FusedTids(c, requireBm25)|
  {
    var ts := FusedTids(c, requireBm25);
    forall t: nat
      ensures IsFusedTid(m, t, requireBm25) <==> t in ts
      ensures t in ts ==> m[t].tid == t
    {
      MergedParts(c, items, m, f, requireBm25, t);
    }
    SizeOfSet(f, m, requireBm25, ts);
  }

  ghost predicate IsFusedTid(m: map<nat, Document>, t: nat, requireBm25: bool) {
    t in m && (requireBm25 ==> m[t].bm25.Some?)
  }

  lemma {:induction false} SizeOfSet(f: Method, m: map<nat, Document>, requireBm25: bool, ts: set<nat>)
    requires forall t: nat :: IsFusedTid(m, t, requireBm25) <==> t in ts
    requires forall t :: t in ts ==> t in m && m[t].tid == t
    ensures |FusedSet(f, m, requireBm25)| == |ts|
  {
    SizeOfScored(m, f, ts);
    assert forall t :: t in ts ==> IsFusedTid(m, t, requireBm25);
    forall x
      ensures x in FusedSet(f, m, requireBm25) <==> x in ScoredSet(m, f, ts)
    {
      if x in FusedSet(f, m, requireBm25) {
        var t :| t in m && (requireBm25 ==> m[t].bm25.Some?) && x == Scored(f, m[t]);
        assert IsFusedTid(m, t, requireBm25);
      }
      if x in ScoredSet(m, f, ts) {
        var t :| t in ts && x == Scored(f, m[t]);
        assert IsFusedTid(m, t, requireBm25);
      }
    }
    assert FusedSet(f, m, requireBm25) == ScoredSet(m, f, ts);
  }

  // ----- the final list

  ghost function RanksOf(r: Document): (Option<F.Position>, Option<F.Position>, Option<F.Position>) {
    (if r.dense.Some? then Some(r.dense.value.rank) else None, if r.multi.Some? then Some(r.multi.value.rank) else None,
     if r.bm25.Some? then Some(r.bm25.value.rank) else None)
  }

  /**
   a comes before b: the score is larger; at equal scores a alone has a BM25 part and one of the
   others; else its dense rank is smaller; else, where those are equal, its multivector rank;
   else its BM25 rank.
   */
  ghost predicate InOrder(a: Document, b: Document) {
    || a.fusedScore > b.fusedScore
    || (a.fusedScore == b.fusedScore && Both(a) && !Both(b))
    || (a.fusedScore == b.fusedScore && (Both(a) <==> Both(b))
        && var (d, m, l), (d', m', l') := RanksOf(a), RanksOf(b);
           Two.Earlier(d, d') || (d == d' && Two.Earlier(m, m')) || (d == d' && m == m' && Two.Earlier(l, l')))
  }

  lemma {:induction false} BetterIsInOrder(a: Document, b: Document)
    requires Better(a, b) && !SameRanks(a, b)
    ensures InOrder(a, b)
  {
  }

  /** final lists fused documents in order, and none that is left out should be before one of them. */
  ghost predicate DocumentList(c: Found, f: Method, requireBm25: bool, final: seq<Document>) {
    && (forall i :: 0 <= i < |final| ==> FusedDocument(c, f, requireBm25, final[i]))
    && (forall i, j :: 0 <= i < j < |final| ==> final[i].tid != final[j].tid && InOrder(final[i], final[j]))
    && forall i, r :: 0 <= i < |final| && FusedDocument(c, f, requireBm25, r) && !Lists(final, r.tid) ==> InOrder(final[i], r)
  }

  ghost predicate Lists(final: seq<Document>, tid: nat) {
    exists i :: 0 <= i < |final| && final[i].tid == tid
  }

  lemma {:induction false} BetterInSet(c: Found, items: seq<Document>, m: map<nat, Document>, f: Method,
                                       requireBm25: bool,
                                       a: Document, b: Document)
    requires MergedFrom(c, items, m) && a in FusedSet(f, m, requireBm25) && b in FusedSet(f, m, requireBm25) && Better(a, b)
    ensures a.tid != b.tid && InOrder(a, b)
  {
    BetterIsWeakOrder();
    RanksDecide(items, m, f, requireBm25, a, b);
    BetterIsInOrder(a, b);
  }

  /** What is left out belongs behind what is listed. */
  lemma {:induction false} LeftOut(c: Found, items: seq<Document>, m: map<nat, Document>, f: Method, requireBm25: bool,
                                   n: nat, final: seq<Document>, i: nat, r: Document)
    requires MergedFrom(c, items, m) && IsTopK(Better, FusedSet(f, m, requireBm25), n, final)
    requires i < |final| && FusedDocument(c, f, requireBm25, r) && !Lists(final, r.tid)
    ensures InOrder(final[i], r)
  {
    FusedSetIsRankable(items, m, f, requireBm25);
    TopKInOrder(Better, FusedSet(f, m, requireBm25), n, final);
    var x := FusedOfTid(c, items, m, f, requireBm25, r.tid);
    FusedIsUnique(c, f, requireBm25, r, x);
    assert x !in final;
    BetterInSet(c, items, m, f, requireBm25, final[i], x);
    OrderWithoutNodes(final[i], x, r);
  }

  lemma {:induction false} Listing(c: Found, items: seq<Document>, m: map<nat, Document>, f: Method, requireBm25: bool,
                                   n: nat, final: seq<Document>, i: nat, j: nat)
    requires MergedFrom(c, items, m) && IsTopK(Better, FusedSet(f, m, requireBm25), n, final) && i < j < |final|
    ensures final[i].tid != final[j].tid && InOrder(final[i], final[j])
  {
    FusedSetIsRankable(items, m, f, requireBm25);
    TopKInOrder(Better, FusedSet(f, m, requireBm25), n, final);
    BetterInSet(c, items, m, f, requireBm25, final[i], final[j]);
  }

  /** The ranked prefix of the fused set of either path, over the candidates. */
  lemma {:induction false} TopIsDocumentList(c: Found, items: seq<Document>, m: map<nat, Document>, f: Method,
                                             requireBm25: bool, n: nat, final: seq<Document>)
    requires MergedFrom(c, items, m) && IsTopK(Better, FusedSet(f, m, requireBm25), n, final)
    ensures DocumentList(c, f, requireBm25, final) && |final| == Min(n, |FusedTids(c, requireBm25)|)
  {
    FusedSetSize(c, items, m, f, requireBm25);
    forall i | 0 <= i < |final|
      ensures FusedDocument(c, f, requireBm25, final[i])
    {
      FusedMember(c, items, m, f, requireBm25, final[i]);
    }
    forall i, j | 0 <= i < j < |final|
      ensures final[i].tid != final[j].tid && InOrder(final[i], final[j])
    {
      Listing(c, items, m, f, requireBm25, n, final, i, j);
    }
    forall i, r | 0 <= i < |final| && FusedDocument(c, f, requireBm25, r) && !Lists(final, r.tid)
      ensures InOrder(final[i], r)
    {
      LeftOut(c, items, m, f, requireBm25, n, final, i, r);
    }
  }

  lemma {:induction false} OrderWithoutNodes(a: Document, x: Document, r: Document)
    requires InOrder(a, x) && Parts(x) == Parts(r)
    ensures InOrder(a, r)
  {
    assert r == x.(node := r.node);
  }

  // ----- dominance

  ghost predicate Counting(f: Method) {
    FusionLaws.Counting(Outer(f)) && FusionLaws.Counting(Middle(f))
  }

  /** Wherever document b is a candidate of a branch, a is one that is ahead of it. */
  ghost predicate AheadOf(c: Found, f: Method, a: nat, b: nat) {
    && DenseBehind(f, c.dense, a, b) && DenseBehind(f, c.multi, a, b)
    && forall j :: 0 <= j < |c.bm25| && c.bm25[j].tid == b ==>
         exists i :: 0 <= i < |c.bm25| && c.bm25[i].tid == a && FusionLaws.Bm25Ahead(Outer(f), c.bm25[i].part, c.bm25[j].part)
  }

  ghost predicate DenseBehind(f: Method, cs: seq<F.DenseCandidate>, a: nat, b: nat) {
    forall j :: 0 <= j < |cs| && cs[j].tid == b ==>
      exists i :: 0 <= i < |cs| && cs[i].tid == a && FusionLaws.DenseAhead(Outer(f), cs[i].part, cs[j].part)
  }

  /** a precedes b wherever b is listed. */
  ghost predicate TidPrecedes(final: seq<Document>, a: nat, b: nat) {
    forall j :: 0 <= j < |final| && final[j].tid == b ==> exists i :: 0 <= i < j && final[i].tid == a
  }

  lemma {:induction false} PartAhead(f: Method, cs: seq<F.DenseCandidate>, a: nat, b: nat, p: Option<F.DensePart>,
                                     q: Option<F.DensePart>)
    requires forall i, j :: 0 <= i < j < |cs| ==> cs[i].tid != cs[j].tid
    requires DenseBehind(f, cs, a, b) && IsPart(cs, a, p) && IsPart(cs, b, q)
    ensures q.Some? ==> p.Some? && FusionLaws.DenseAhead(Outer(f), p.value, q.value)
  {
    assert forall i, j :: 0 <= i < |cs| && 0 <= j < |cs| && cs[i].tid == cs[j].tid ==> i == j;
  }

  lemma {:induction false} Bm25PartAhead(c: Found, f: Method, a: nat, b: nat, p: Option<F.Bm25Part>,
                                         q: Option<F.Bm25Part>)
    requires WellListed(c) && AheadOf(c, f, a, b) && IsBm25Part(c.bm25, a, p) && IsBm25Part(c.bm25, b, q)
    ensures q.Some? ==> p.Some? && FusionLaws.Bm25Ahead(Outer(f), p.value, q.value)
  {
    assert forall i, j :: 0 <= i < |c.bm25| && 0 <= j < |c.bm25| && c.bm25[i].tid == c.bm25[j].tid ==> i == j;
  }

  lemma {:induction false} SharesOf(f: Method, r: Document) returns (d: real, m: real, l: real)
    requires f.Rrf? && AddsUp(f, r)
    ensures Two.DenseAdds(Outer(f), r.dense, d) && Two.DenseAdds(Middle(f), r.multi, m) && Two.Bm25Adds(Outer(f), r.bm25, l)
    ensures r.fusedScore == d + m + l
  {
    d, m, l :| Two.DenseAdds(Outer(f), r.dense, d) && Two.DenseAdds(Middle(f), r.multi, m) && Two.Bm25Adds(Outer(f), r.bm25, l) &&
        r.fusedScore == d + m + l;
  }

  lemma {:induction false} AheadScoresMore(c: Found, f: Method, requireBm25: bool, x: Document, y: Document)
    requires WellListed(c) && f.Rrf? && Counting(f) && AheadOf(c, f, x.tid, y.tid)
    requires FusedDocument(c, f, requireBm25, x) && FusedDocument(c, f, requireBm25, y)
    ensures x.fusedScore > y.fusedScore
  {
    var d, m, l := SharesOf(f, x);
    var d', m', l' := SharesOf(f, y);
    PartAhead(f, c.dense, x.tid, y.tid, x.dense, y.dense);
    PartAhead(f, c.multi, x.tid, y.tid, x.multi, y.multi);
    Bm25PartAhead(c, f, x.tid, y.tid, x.bm25, y.bm25);
    FusionLaws.DenseShareAhead(Outer(f), x.dense, y.dense, d, d');
    FusionLaws.DenseShareAhead(Middle(f), x.multi, y.multi, m, m');
    FusionLaws.Bm25ShareAhead(Outer(f), x.bm25, y.bm25, l, l');
  }

  lemma {:induction false} FusedExists(c: Found, f: Method, requireBm25: bool, t: nat) returns (r: Document)
    requires WellListed(c) && t in FusedTids(c, requireBm25)
    ensures FusedDocument(c, f, requireBm25, r) && r.tid == t
  {
    var items := ItemsOf(c);
    CandidatesAreSeparate(c.dense, c.multi, c.bm25);
    TakeMerges(items);
    r := FusedOfTid(c, items, TakeAll(items), f, requireBm25, t);
  }

  lemma {:induction false} AheadIsFused(c: Found, f: Method, requireBm25: bool, a: nat, b: nat)
    requires AheadOf(c, f, a, b) && b in FusedTids(c, requireBm25)
    ensures a in FusedTids(c, requireBm25)
  {
  }

  /**
   Reciprocal rank fusion with positive weights: a document ranked ahead in every branch in which
   the other occurs precedes it in the final list.
   */
  lemma {:induction false} AheadPrecedes(c: Found, f: Method, requireBm25: bool, final: seq<Document>, a: nat, b: nat)
    requires WellListed(c) && f.Rrf? && Counting(f) && AheadOf(c, f, a, b) && DocumentList(c, f, requireBm25, final)
    ensures TidPrecedes(final, a, b)
  {
    forall j | 0 <= j < |final| && final[j].tid == b
      ensures exists i :: 0 <= i < j && final[i].tid == a
    {
      AheadIsFused(c, f, requireBm25, a, b);
      forall x | FusedDocument(c, f, requireBm25, x) && x.tid == a
        ensures x.fusedScore > final[j].fusedScore
      {
        AheadScoresMore(c, f, requireBm25, x, final[j]);
      }
      var x := FusedExists(c, f, requireBm25, a);
      var i := MoreIsBefore(c, f, requireBm25, final, x, j);
    }
  }

  /** Whatever scores more than a listed document is listed before it. */
  lemma {:induction false} MoreIsBefore(c: Found, f: Method, requireBm25: bool, final: seq<Document>, x: Document,
                                        j: nat) returns (i: nat)
    requires DocumentList(c, f, requireBm25, final) && j < |final| && FusedDocument(c, f, requireBm25, x)
    requires forall y :: FusedDocument(c, f, requireBm25, y) && y.tid == x.tid ==> y.fusedScore > final[j].fusedScore
    ensures i < j && final[i].tid == x.tid
  {
    assert !Lists(final, x.tid) ==> InOrder(final[j], x);
    i :| 0 <= i < |final| && final[i].tid == x.tid;
    assert forall k :: j < k < |final| ==> InOrder(final[j], final[k]);
  }
}
