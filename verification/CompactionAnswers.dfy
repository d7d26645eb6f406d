/**
 Compaction and answers.  A query over a compacted index finds the documents it found before.
 Their scores are computed from counters that a compaction sets anew: it no longer counts dead
 documents, nor empty ones.  Where every counted document is kept, the statistics stay, and so
 do all answers unless norms are quantized; a quantized score stays where its norm does.
 */
module CompactionAnswers {
  import opened Integers
  import opened Ranking
  import opened QueryEval
  import opened TermTuples
  import opened DeltaStore
  import opened DocLengths
  import opened Compaction
  import opened Counting
  import opened IndexSearch
  import opened Statistics
  import Bm25 = Bm25Scoring

  /** The index after a compaction that read the live nodes live. */
  ghost function Compacted(s: Snapshot, live: seq<bool>): Snapshot {
    Snapshot(SortBy(Before, Collected(s.base, s.docLens, s.docs, live)), NewDocLens(s.docLens, s.docs, live), [], s.live)
  }

  ghost predicate Good(s: Snapshot, nodeCount: nat, live: seq<bool>) {
    Stored(s.base, s.docLens, s.docs, nodeCount) && Within(s.live, live)
  }

  ghost predicate SeenBase(s: Snapshot, key: Term, n: nat, i: nat) {
    SeenAt(s.base, s.docLens, s.live, key, n, i)
  }

  ghost predicate SeenDelta(s: Snapshot, key: Term, n: nat, x: Segment) {
    SegmentAt(s.docs, s.live, key, n, x)
  }

  function Scorer(st: Storage, idf: real): Bm25.Scorer { Bm25.Scorer(st.meta, idf) }

  /** The score of a posting as a base stores it. */
  function StoredScore(st: Storage, idf: real, n: nat, tf: nat, docLen: nat): real {
    Bm25.Score(Scorer(st, idf), Codec.Posting(n, tf, st.norm(n, tf)), docLen)
  }

  // ----- shares, with the posting they come from

  lemma {:induction false} BaseShareIs(s: Snapshot, st: Storage, key: Term, idf: real, n: nat, i: nat)
    requires DistinctKeys(s.base) && SeenBase(s, key, n, i)
    ensures BaseShare(s.base, s.docLens, s.live, st, key, idf, n) == StoredScore(st, idf, n, s.base[i].tf, s.docLens[n])
  {
    forall j | 0 <= j < |s.base| && SeenBase(s, key, n, j)
      ensures j == i
    {
      assert SameTerm(s.base[i], s.base[j]) && SameTerm(s.base[j], s.base[i]);
      assert !(i < j) && !(j < i);
    }
  }

  lemma {:induction false} DeltaShareIs(s: Snapshot, st: Storage, key: Term, idf: real, n: nat, x: Segment)
    requires DistinctSegments(AllSegments(s.docs)) && SeenDelta(s, key, n, x)
    ensures DeltaShare(s.docs, s.live, key, Scorer(st, idf), n) == DeltaScore(Scorer(st, idf), x)
  {
    var segs := AllSegments(s.docs);
    forall y | SeenDelta(s, key, n, y)
      ensures y == x
    {
      var a :| 0 <= a < |segs| && segs[a] == x;
      var b :| 0 <= b < |segs| && segs[b] == y;
      assert !(a < b) && !(b < a);
    }
  }

  lemma {:induction false} NoDelta(s: Snapshot, st: Storage, key: Term, idf: real, n: nat)
    requires forall x :: !SeenDelta(s, key, n, x)
    ensures DeltaShare(s.docs, s.live, key, Scorer(st, idf), n) == 0.0
  {
    forall x
      ensures !SegmentAt(s.docs, s.live, key, n, x)
    {
      assert !SeenDelta(s, key, n, x);
    }
  }

  lemma {:induction false} NoBase(s: Snapshot, st: Storage, key: Term, idf: real, n: nat)
    requires forall i: nat :: !SeenBase(s, key, n, i)
    ensures BaseShare(s.base, s.docLens, s.live, st, key, idf, n) == 0.0
  {
    forall i: nat
      ensures !SeenAt(s.base, s.docLens, s.live, key, n, i)
    {
      assert !SeenBase(s, key, n, i);
    }
  }

  // ----- where the postings of the compacted base come from

  lemma {:induction false} InCompacted(s: Snapshot, live: seq<bool>, t: Tuple)
    ensures t in Compacted(s, live).base <==>
            (t in s.base && BaseSees(live, s.docLens, t)) || Comes(AllSegments(s.docs), live, t)
  {
    var all := Collected(s.base, s.docLens, s.docs, live);
    BeforeIsWeakOrder();
    SortBySorts(Before, all);
    assert t in SortBy(Before, all) <==> t in multiset(SortBy(Before, all));
    assert t in all <==> t in multiset(all);
    InKeptBase(s.base, s.docLens, live, t);
    InKeptDelta(AllSegments(s.docs), live, t);
  }

  /** A delta document is unknown to the base, and known by its own length afterwards. */
  lemma {:induction false} DeltaDocument(s: Snapshot, nodeCount: nat, live: seq<bool>, x: Segment)
    requires Good(s, nodeCount, live) && x in AllSegments(s.docs)
    ensures x.node !in s.docLens && x.docLen > 0 && x.hash == HashTerm(x.bytes)
    ensures Live(live, x.node) ==> x.node in Compacted(s, live).docLens && Compacted(s, live).docLens[x.node] == x.docLen
  {
    var k, i := SegmentHasDoc(s.docs, x);
    assert ProperDoc(s.docs[k]) && ProperTerm(s.docs[k].terms[i]);
    KnownLengths(s.docLens, s.docs, live, x.node);
  }

  /** A posting seen in the base is seen in the compacted base. */
  lemma {:induction false} BaseSurvives(s: Snapshot, nodeCount: nat, live: seq<bool>, key: Term, n: nat,
                                        i: nat) returns (j: nat)
    requires Good(s, nodeCount, live) && SeenBase(s, key, n, i)
    ensures SeenBase(Compacted(s, live), key, n, j) && Compacted(s, live).base[j] == s.base[i]
    ensures Compacted(s, live).docLens[n] == s.docLens[n]
  {
    var t, c := s.base[i], Compacted(s, live);
    InCompacted(s, live, t);
    KnownLengths(s.docLens, s.docs, live, n);
    j :| 0 <= j < |c.base| && c.base[j] == t;
  }

  /** And so is a posting seen in the delta. */
  lemma {:induction false} DeltaSurvives(s: Snapshot, nodeCount: nat, live: seq<bool>, key: Term, n: nat,
                                         x: Segment) returns (j: nat)
    requires Good(s, nodeCount, live) && SeenDelta(s, key, n, x) && key.hash == HashTerm(key.bytes)
    ensures SeenBase(Compacted(s, live), key, n, j) && Compacted(s, live).base[j].tf == x.tf
    ensures Compacted(s, live).docLens[n] == x.docLen
  {
    var segs, c := AllSegments(s.docs), Compacted(s, live);
    var a :| 0 <= a < |segs| && segs[a] == x;
    assert Comes(segs, live, TupleOf(x));
    InCompacted(s, live, TupleOf(x));
    DeltaDocument(s, nodeCount, live, x);
    j :| 0 <= j < |c.base| && c.base[j] == TupleOf(x);
  }

  /** Nothing else is seen in the compacted base. */
  lemma {:induction false} CompactedOrigin(s: Snapshot, nodeCount: nat, live: seq<bool>, key: Term, n: nat, j: nat)
    requires Good(s, nodeCount, live) && SeenBase(Compacted(s, live), key, n, j)
    ensures (exists i :: 0 <= i < |s.base| && SeenBase(s, key, n, i)) || (exists x :: SeenDelta(s, key, n, x))
  {
    var t, segs := Compacted(s, live).base[j], AllSegments(s.docs);
    assert t in Compacted(s, live).base;
    InCompacted(s, live, t);
    if t in s.base && BaseSees(live, s.docLens, t) {
      var i :| 0 <= i < |s.base| && s.base[i] == t;
      assert SeenBase(s, key, n, i);
    } else {
      var i :| 0 <= i < |segs| && TupleOf(segs[i]) == t && Live(live, segs[i].node);
      assert segs[i] in segs && SeenDelta(s, key, n, segs[i]);
    }
  }

  // ----- shares after compaction

  lemma {:induction false} BaseNotDelta(s: Snapshot, nodeCount: nat, live: seq<bool>, key: Term, n: nat, i: nat)
    requires Good(s, nodeCount, live) && SeenBase(s, key, n, i)
    ensures forall x :: !SeenDelta(s, key, n, x)
  {
    forall x | SeenDelta(s, key, n, x)
      ensures false
    {
      DeltaDocument(s, nodeCount, live, x);
    }
  }

  lemma {:induction false} NoDeltaShare(s: Snapshot, key: Term, n: nat)
    requires s.docs == []
    ensures forall x :: !SeenDelta(s, key, n, x)
  {
    assert AllSegments(s.docs) == [];
  }

  /** A share that comes from the base alone. */
  lemma {:induction false} ShareOfBase(s: Snapshot, st: Storage, key: Term, idf: real, n: nat, i: nat)
    requires DistinctKeys(s.base) && SeenBase(s, key, n, i) && forall x :: !SeenDelta(s, key, n, x)
    ensures Share(s, st, key, idf, n) == StoredScore(st, idf, n, s.base[i].tf, s.docLens[n])
  {
    BaseShareIs(s, st, key, idf, n, i);
    NoDelta(s, st, key, idf, n);
  }

  /** A share that comes from the delta alone. */
  lemma {:induction false} ShareOfDelta(s: Snapshot, st: Storage, key: Term, idf: real, n: nat, x: Segment)
    requires DistinctSegments(AllSegments(s.docs)) && SeenDelta(s, key, n, x) && n !in s.docLens
    ensures Share(s, st, key, idf, n) == DeltaScore(Scorer(st, idf), x)
  {
    DeltaShareIs(s, st, key, idf, n, x);
    assert forall i: nat :: !SeenBase(s, key, n, i);
    NoBase(s, st, key, idf, n);
  }

  lemma {:induction false} NoShare(s: Snapshot, st: Storage, key: Term, idf: real, n: nat)
    requires (forall i: nat :: !SeenBase(s, key, n, i)) && (forall x :: !SeenDelta(s, key, n, x))
    ensures Share(s, st, key, idf, n) == 0.0
  {
    NoBase(s, st, key, idf, n);
    NoDelta(s, st, key, idf, n);
  }

  lemma {:induction false} CompactedIsDistinct(s: Snapshot, nodeCount: nat, live: seq<bool>)
    requires Good(s, nodeCount, live)
    ensures DistinctKeys(Compacted(s, live).base) && Compacted(s, live).docs == []
  {
    CompactionKeeps(s.base, s.docLens, s.docs, nodeCount, live);
  }

  /** A document of the base: its posting is scored as stored, before and after. */
  lemma {:induction false} BaseShares(s: Snapshot, nodeCount: nat, live: seq<bool>, st: Storage, st': Storage,
                                      key: Term, idf: real, idf': real, n: nat, i: nat)
    requires Good(s, nodeCount, live) && SeenBase(s, key, n, i)
    ensures Share(s, st, key, idf, n) == StoredScore(st, idf, n, s.base[i].tf, s.docLens[n])
    ensures Share(Compacted(s, live), st', key, idf', n) == StoredScore(st', idf', n, s.base[i].tf, s.docLens[n])
  {
    var c := Compacted(s, live);
    CompactedIsDistinct(s, nodeCount, live);
    var j := BaseSurvives(s, nodeCount, live, key, n, i);
    BaseNotDelta(s, nodeCount, live, key, n, i);
    ShareOfBase(s, st, key, idf, n, i);
    NoDeltaShare(c, key, n);
    ShareOfBase(c, st', key, idf', n, j);
  }

  /** A document of the delta is scored from frequency and length, and as the base stores it from then on. */
  lemma {:induction false} DeltaShares(s: Snapshot, nodeCount: nat, live: seq<bool>, st: Storage, st': Storage,
                                       key: Term, idf: real, idf': real, n: nat, x: Segment)
    requires Good(s, nodeCount, live) && SeenDelta(s, key, n, x) && key.hash == HashTerm(key.bytes)
    ensures Share(s, st, key, idf, n) == DeltaScore(Scorer(st, idf), x)
    ensures Share(Compacted(s, live), st', key, idf', n) == StoredScore(st', idf', n, x.tf, x.docLen)
  {
    var c := Compacted(s, live);
    CompactedIsDistinct(s, nodeCount, live);
    var j := DeltaSurvives(s, nodeCount, live, key, n, x);
    NoDeltaShare(c, key, n);
    ShareOfBase(c, st', key, idf', n, j);
    DeltaDocument(s, nodeCount, live, x);
    ShareOfDelta(s, st, key, idf, n, x);
  }

  lemma {:induction false} NothingSeen(s: Snapshot, nodeCount: nat, live: seq<bool>, key: Term, n: nat)
    requires Good(s, nodeCount, live)
    requires (forall i: nat :: !SeenBase(s, key, n, i)) && (forall x :: !SeenDelta(s, key, n, x))
    ensures forall j: nat :: !SeenBase(Compacted(s, live), key, n, j)
  {
    forall j: nat | SeenBase(Compacted(s, live), key, n, j)
      ensures false
    {
      CompactedOrigin(s, nodeCount, live, key, n, j);
    }
  }

  /** A document without the term stays without it. */
  lemma {:induction false} NoShares(s: Snapshot, nodeCount: nat, live: seq<bool>, st: Storage, st': Storage,
                                    key: Term, idf: real, idf': real, n: nat)
    requires Good(s, nodeCount, live)
    requires (forall i: nat :: !SeenBase(s, key, n, i)) && (forall x :: !SeenDelta(s, key, n, x))
    ensures Share(s, st, key, idf, n) == Share(Compacted(s, live), st', key, idf', n) == 0.0
  {
    var c := Compacted(s, live);
    CompactedIsDistinct(s, nodeCount, live);
    NothingSeen(s, nodeCount, live, key, n);
    NoDeltaShare(c, key, n);
    NoShare(s, st, key, idf, n);
    NoShare(c, st', key, idf', n);
  }

  /** The query finds the same documents by the same terms. */
  lemma {:induction false} CompactionKeepsTerms(s: Snapshot, nodeCount: nat, live: seq<bool>, t: QueryTerms,
                                                t': QueryTerms, n: nat)
    requires Good(s, nodeCount, live) && t.keys == t'.keys
    ensures TermsOf(Compacted(s, live), t', n) == TermsOf(s, t, n)
  {
    CompactionKeeps(s.base, s.docLens, s.docs, nodeCount, live);
    assert SeenIn(Compacted(s, live)) == SeenIn(s);
  }

  // ----- what a compaction counts

  /** Every counted document is live, and those of the base have a length. */
  ghost predicate AllKept(docLens: map<nat, nat>, docs: seq<Doc>, live: seq<bool>) {
    (forall n :: n in docLens ==> Keeps(docLens, live, n)) && forall k :: 0 <= k < |docs| ==> Live(live, docs[k].node)
  }

  ghost predicate AllCounted(s: Snapshot, live: seq<bool>) { AllKept(s.docLens, s.docs, live) }

  /** No document of the delta with the term has died since. */
  ghost predicate Settled(s: Snapshot, live: seq<bool>, key: Term) {
    forall x :: x in AllSegments(s.docs) && LiveOfTerm(key, live)(x) ==> LiveOfTerm(key, s.live)(x)
  }

  lemma {:induction false} KeptOfBase(docLens: map<nat, nat>, live: seq<bool>)
    ensures |NewDocLens(docLens, [], live)| <= |docLens|
    ensures |NewDocLens(docLens, [], live)| == |docLens| <==> forall n :: n in docLens ==> Keeps(docLens, live, n)
    ensures (forall n :: n in docLens ==> Keeps(docLens, live, n)) ==> NewDocLens(docLens, [], live) == docLens
  {
    var m := NewDocLens(docLens, [], live);
    assert |docLens| == |docLens.Keys| && |m| == |m.Keys|;
    assert forall n :: n in m <==> n in docLens && Keeps(docLens, live, n);
    SubsetSize(m.Keys, docLens.Keys);
    if forall n :: n in docLens ==> Keeps(docLens, live, n) {
      assert m == docLens;
    }
  }

  lemma {:induction false} OneMoreCounted(docLens: map<nat, nat>, docs: seq<Doc>, live: seq<bool>)
    requires docs != [] && DistinctDocs(docs) && forall k :: 0 <= k < |docs| ==> docs[k].node !in docLens
    ensures var m, d := NewDocLens(docLens, docs[..|docs| - 1], live), docs[|docs| - 1];
            && d.node !in m
            && NewDocLens(docLens, docs, live) == (if Live(live, d.node) then m[d.node := d.docLen] else m)
  {
    var p, d := docs[..|docs| - 1], docs[|docs| - 1];
    KnownLengths(docLens, p, live, d.node);
    assert forall k :: 0 <= k < |p| ==> p[k] == docs[k];
  }

  lemma {:induction false} KeptStep(docLens: map<nat, nat>, docs: seq<Doc>, live: seq<bool>)
    requires docs != []
    ensures AllKept(docLens, docs, live) <==> AllKept(docLens, docs[..|docs| - 1], live) && Live(live, docs[|docs| - 1].node)
  {
    var p, d := docs[..|docs| - 1], docs[|docs| - 1];
    assert docs == p + [d];
  }

  /** The table of kept documents against what was counted before. */
  ghost predicate CountsLess(m: map<nat, nat>, docLens: map<nat, nat>, docs: seq<Doc>, all: bool) {
    && |m| <= |docLens| + |docs| && (|m| == |docLens| + |docs| <==> all)
    && (all ==> TotalLen(m) == TotalLen(docLens) + DocsLen(docs))
  }

  lemma {:induction false} CountsStep(m: map<nat, nat>, docLens: map<nat, nat>, docs: seq<Doc>, all: bool, live: bool)
    requires docs != [] && CountsLess(m, docLens, docs[..|docs| - 1], all) && docs[|docs| - 1].node !in m
    ensures var d := docs[|docs| - 1];
            CountsLess(if live then m[d.node := d.docLen] else m, docLens, docs, all && live)
  {
    var d := docs[|docs| - 1];
    TotalWith(m, d.node, d.docLen);
    assert m[d.node := d.docLen].Keys == m.Keys + {d.node};
    assert |m[d.node := d.docLen]| == |m| + 1;
  }

  /** A compaction counts every document it counted before if and only if all are kept; the lengths then add up to the same. */
  lemma {:induction false} CountedDocs(docLens: map<nat, nat>, docs: seq<Doc>, live: seq<bool>)
    requires DistinctDocs(docs) && forall k :: 0 <= k < |docs| ==> docs[k].node !in docLens
    ensures CountsLess(NewDocLens(docLens, docs, live), docLens, docs, AllKept(docLens, docs, live))
  {
    if docs == [] {
      KeptOfBase(docLens, live);
    } else {
      var p, d := docs[..|docs| - 1], docs[|docs| - 1];
      assert forall k :: 0 <= k < |p| ==> p[k] == docs[k];
      CountedDocs(docLens, p, live);
      OneMoreCounted(docLens, docs, live);
      CountsStep(NewDocLens(docLens, p, live), docLens, docs, AllKept(docLens, p, live), Live(live, d.node));
      KeptStep(docLens, docs, live);
    }
  }

  lemma {:induction false} TupleOfTerm(x: Segment, key: Term)
    requires key.hash == HashTerm(key.bytes)
    ensures OfTerm(key)(TupleOf(x)) <==> x.bytes == key.bytes
  {
  }

  lemma {:induction false} KeptDeltaCountNext(segs: seq<Segment>, x: Segment, live: seq<bool>, key: Term)
    requires key.hash == HashTerm(key.bytes)
    requires Count(OfTerm(key), KeptDelta(segs, live)) == Count(LiveOfTerm(key, live), segs)
    ensures Count(OfTerm(key), KeptDelta(segs + [x], live)) == Count(LiveOfTerm(key, live), segs + [x])
  {
    var kept := KeptDelta(segs, live);
    KeptDeltaAppend(segs, x, live);
    CountAppend(LiveOfTerm(key, live), segs, x);
    if Live(live, x.node) {
      TupleOfTerm(x, key);
      CountAppend(OfTerm(key), kept, TupleOf(x));
    } else {
      assert kept + [] == kept;
    }
  }

  lemma {:induction false} KeptDeltaCount(segs: seq<Segment>, live: seq<bool>, key: Term)
    requires key.hash == HashTerm(key.bytes)
    ensures Count(OfTerm(key), KeptDelta(segs, live)) == Count(LiveOfTerm(key, live), segs)
  {
    if segs != [] {
      var p, x := segs[..|segs| - 1], segs[|segs| - 1];
      KeptDeltaCount(p, live, key);
      KeptDeltaCountNext(p, x, live, key);
      assert segs == p + [x];
    }
  }

  lemma {:induction false} KeptBaseWhole(base: seq<Tuple>, docLens: map<nat, nat>, live: seq<bool>)
    requires forall i :: 0 <= i < |base| ==> BaseSees(live, docLens, base[i])
    ensures KeptBase(base, docLens, live) == base
  {
    if base != [] {
      var n := |base| - 1;
      KeptBaseWhole(base[..n], docLens, live);
      KeptAppend(base[..n], base[n], docLens, live);
      assert base == base[..n] + [base[n]];
    }
  }

  /** The document frequency after a compaction: of the kept postings. */
  lemma {:induction false} CompactedDf(s: Snapshot, live: seq<bool>, key: Term)
    requires key.hash == HashTerm(key.bytes)
    ensures DocFreq(Compacted(s, live), key) ==
            Count(OfTerm(key), KeptBase(s.base, s.docLens, live)) + Count(LiveOfTerm(key, live), AllSegments(s.docs))
  {
    var all := Collected(s.base, s.docLens, s.docs, live);
    BeforeIsWeakOrder();
    SortBySorts(Before, all);
    CountPermuted(OfTerm(key), SortBy(Before, all), all);
    CountJoined(OfTerm(key), KeptBase(s.base, s.docLens, live), KeptDelta(AllSegments(s.docs), live));
    KeptDeltaCount(AllSegments(s.docs), live, key);
    assert AllSegments([]) == [];
  }

  /** Where all documents are kept, so is a document frequency, unless a document of the delta has died since. */
  lemma {:induction false} DfKeptIff(s: Snapshot, nodeCount: nat, live: seq<bool>, key: Term)
    requires Good(s, nodeCount, live) && AllCounted(s, live) && key.hash == HashTerm(key.bytes)
    ensures DocFreq(Compacted(s, live), key) == DocFreq(s, key) <==> Settled(s, live, key)
  {
    CompactedDf(s, live, key);
    forall i | 0 <= i < |s.base|
      ensures BaseSees(live, s.docLens, s.base[i])
    {
      assert s.base[i] in s.base && Keeps(s.docLens, live, s.base[i].node);
    }
    KeptBaseWhole(s.base, s.docLens, live);
    CountStronger(LiveOfTerm(key, s.live), LiveOfTerm(key, live), AllSegments(s.docs));
  }

  // ----- statistics

  ghost predicate Hashes(keys: seq<Term>) {
    forall i :: 0 <= i < |keys| ==> keys[i].hash == HashTerm(keys[i].bytes)
  }

  /** Documents counted, their total length, and the document frequencies of a query. */
  datatype Totals = Totals(docs: nat, len: nat, dfs: seq<nat>)

  ghost function TotalsOf(s: Snapshot, keys: seq<Term>): Totals {
    var c := CountersOf(s);
    Totals(c.docCount + c.deltaDocCount, c.totalDocLen + c.deltaTotalDocLen, DocFreqs(s, keys))
  }

  /**
   A compaction keeps the statistics of a query if and only if every counted document is live at
   the compaction, those of the base with a length, and no delta document with one of the terms
   has died since.
   */
  lemma {:induction false} StatisticsKeptIff(s: Snapshot, nodeCount: nat, live: seq<bool>, keys: seq<Term>)
    requires Good(s, nodeCount, live) && Hashes(keys)
    ensures TotalsOf(Compacted(s, live), keys) == TotalsOf(s, keys) <==>
            AllCounted(s, live) && forall i :: 0 <= i < |keys| ==> Settled(s, live, keys[i])
  {
    CountedDocs(s.docLens, s.docs, live);
    var c := Compacted(s, live);
    if AllCounted(s, live) {
      forall i | 0 <= i < |keys|
        ensures DocFreqs(c, keys)[i] == DocFreqs(s, keys)[i] <==> Settled(s, live, keys[i])
      {
        DfKeptIff(s, nodeCount, live, keys[i]);
      }
      if forall i :: 0 <= i < |keys| ==> Settled(s, live, keys[i]) {
        assert DocFreqs(c, keys) == DocFreqs(s, keys);
      }
    }
  }

  /** A query at the time of the compaction: its statistics stay if and only if every counted document is kept. */
  lemma {:induction false} StatisticsKeptNow(s: Snapshot, nodeCount: nat, keys: seq<Term>)
    requires Good(s, nodeCount, s.live) && Hashes(keys)
    ensures TotalsOf(Compacted(s, s.live), keys) == TotalsOf(s, keys) <==> AllCounted(s, s.live)
  {
    StatisticsKeptIff(s, nodeCount, s.live, keys);
  }

  // ----- scores

  /** What a term adds to a document, by the statistics of the index. */
  ghost function ScoredShare(cfg: Settings, s: Snapshot, key: Term, n: nat): real {
    Share(s, StorageIn(cfg, s), key, TermIdf(cfg, s, key), n)
  }

  /** Answers stay where every share does. */
  lemma {:induction false} SharesMakeAnswers(cfg: Settings, s: Snapshot, nodeCount: nat, live: seq<bool>,
                                             keys: seq<Term>, matcher: Matcher)
    requires Good(s, nodeCount, live)
    requires forall i, n: nat :: 0 <= i < |keys| ==> ScoredShare(cfg, Compacted(s, live), keys[i], n) == ScoredShare(cfg, s, keys[i], n)
    ensures ScoredAnswers(cfg, Compacted(s, live), keys, matcher) == ScoredAnswers(cfg, s, keys, matcher)
  {
    var c := Compacted(s, live);
    var t, t' := QueryOf(cfg, s, keys, NoPages(keys)), QueryOf(cfg, c, keys, NoPages(keys));
    forall n: nat
      ensures TermsOf(c, t', n) == TermsOf(s, t, n)
      ensures TermShares(c, StorageIn(cfg, c), t', n) == TermShares(s, StorageIn(cfg, s), t, n)
    {
      CompactionKeepsTerms(s, nodeCount, live, t, t', n);
      forall i | 0 <= i < |keys|
        ensures TermShares(c, StorageIn(cfg, c), t', n)[i] == TermShares(s, StorageIn(cfg, s), t, n)[i]
      {
        assert ScoredShare(cfg, c, keys[i], n) == ScoredShare(cfg, s, keys[i], n);
      }
    }
  }

  lemma {:induction false} SameAverages(c: Counters, c': Counters)
    requires c'.docCount == c.docCount + c.deltaDocCount && c'.totalDocLen == c.totalDocLen + c.deltaTotalDocLen
    requires c'.deltaDocCount == c'.deltaTotalDocLen == 0
    ensures CorpusDocs(c') == CorpusDocs(c) && AvgDocLen(c') == AvgDocLen(c)
    ensures c'.docCount > 0 ==> BuildAvg(c') == AvgDocLen(c)
  {
  }

  lemma {:induction false} CompactedCounters(s: Snapshot, nodeCount: nat, live: seq<bool>)
    requires Good(s, nodeCount, live) && AllCounted(s, live)
    ensures var c := CountersOf(s);
            CountersOf(Compacted(s, live)) == Counters(c.docCount + c.deltaDocCount, c.totalDocLen + c.deltaTotalDocLen, 0, 0)
  {
    CountedDocs(s.docLens, s.docs, live);
  }

  /** With the same statistics, idf and average length are the same. */
  lemma {:induction false} SameStatistics(cfg: Settings, s: Snapshot, nodeCount: nat, live: seq<bool>, key: Term)
    requires Good(s, nodeCount, live) && AllCounted(s, live) && Settled(s, live, key) && key.hash == HashTerm(key.bytes)
    ensures var c := Compacted(s, live);
            && TermIdf(cfg, c, key) == TermIdf(cfg, s, key)
            && AvgDocLen(CountersOf(c)) == AvgDocLen(CountersOf(s))
            && (|s.docLens| + |s.docs| > 0 ==> BuildAvg(CountersOf(c)) == AvgDocLen(CountersOf(s)))
  {
    CompactedCounters(s, nodeCount, live);
    SameAverages(CountersOf(s), CountersOf(Compacted(s, live)));
    DfKeptIff(s, nodeCount, live, key);
  }

  /** Without quantized norms a posting, stored or in the delta, is scored from frequency and length. */
  lemma {:induction false} PlainScore(cfg: Settings, c: Counters, docLens: map<nat, nat>, idf: real, x: Segment)
    requires Sane(cfg) && !cfg.quantized && idf > 0.0 && x.tf >= 1
    ensures StoredScore(StorageOf(cfg, c, docLens), idf, x.node, x.tf, x.docLen) ==
            Bm25.PostingScore(MetaOf(cfg, AvgDocLen(c)), idf, x.tf, x.docLen)
    ensures DeltaScore(Scorer(StorageOf(cfg, c, docLens), idf), x) == Bm25.PostingScore(MetaOf(cfg, AvgDocLen(c)), idf, x.tf, x.docLen)
  {
  }

  /** A share by the statistics, when these and the posting behind it are known. */
  lemma {:induction false} ScoredBy(cfg: Settings, s: Snapshot, key: Term, n: nat, idf: real, share: real)
    requires TermIdf(cfg, s, key) == idf && Share(s, StorageIn(cfg, s), key, idf, n) == share
    ensures ScoredShare(cfg, s, key, n) == share
  {
  }

  /** The score of a posting of the term by the statistics of the index. */
  ghost function PlainShare(cfg: Settings, s: Snapshot, key: Term, tf: nat, docLen: nat): real
    requires Sane(cfg) && tf >= 1
  {
    Bm25.PostingScore(MetaOf(cfg, AvgDocLen(CountersOf(s))), TermIdf(cfg, s, key), tf, docLen)
  }

  lemma {:induction false} PositiveIdfs(cfg: Settings, s: Snapshot, nodeCount: nat, live: seq<bool>, key: Term)
    requires Lawful(cfg) && Good(s, nodeCount, live)
    ensures TermIdf(cfg, s, key) > 0.0 && TermIdf(cfg, Compacted(s, live), key) > 0.0
  {
    IdfIsPositive(cfg, s, nodeCount, key);
    CompactionKeeps(s.base, s.docLens, s.docs, nodeCount, live);
    IdfIsPositive(cfg, Compacted(s, live), nodeCount, key);
  }

  /** The posting of a document that has the term, with a frequency and a length. */
  ghost predicate Posted(s: Snapshot, key: Term, n: nat, tf: nat, docLen: nat) {
    (exists i: nat :: SeenBase(s, key, n, i) && s.base[i].tf == tf && s.docLens[n] == docLen)
    || (exists x :: SeenDelta(s, key, n, x) && x.tf == tf && x.docLen == docLen)
  }

  lemma {:induction false} PlainBaseShares(cfg: Settings, s: Snapshot, nodeCount: nat, live: seq<bool>, key: Term,
                                           n: nat, i: nat)
    requires Lawful(cfg) && !cfg.quantized && Good(s, nodeCount, live) && SeenBase(s, key, n, i)
    ensures s.base[i].tf >= 1
    ensures ScoredShare(cfg, s, key, n) == PlainShare(cfg, s, key, s.base[i].tf, s.docLens[n])
    ensures ScoredShare(cfg, Compacted(s, live), key, n) == PlainShare(cfg, Compacted(s, live), key, s.base[i].tf, s.docLens[n])
  {
    var c, x := Compacted(s, live), Segment(0, [], n, s.base[i].tf, s.docLens[n], 0);
    var idf, idf' := TermIdf(cfg, s, key), TermIdf(cfg, c, key);
    assert Proper(s.base[i]);
    PositiveIdfs(cfg, s, nodeCount, live, key);
    BaseShares(s, nodeCount, live, StorageIn(cfg, s), StorageIn(cfg, c), key, idf, idf', n, i);
    PlainScore(cfg, CountersOf(s), s.docLens, idf, x);
    ScoredBy(cfg, s, key, n, idf, PlainShare(cfg, s, key, x.tf, x.docLen));
    PlainScore(cfg, CountersOf(c), c.docLens, idf', x);
    ScoredBy(cfg, c, key, n, idf', PlainShare(cfg, c, key, x.tf, x.docLen));
  }

  lemma {:induction false} PlainDeltaShares(cfg: Settings, s: Snapshot, nodeCount: nat, live: seq<bool>, key: Term,
                                            n: nat, x: Segment)
    requires Lawful(cfg) && !cfg.quantized && Good(s, nodeCount, live) && SeenDelta(s, key, n, x) && key.hash == HashTerm(key.bytes)
    ensures x.tf >= 1
    ensures ScoredShare(cfg, s, key, n) == PlainShare(cfg, s, key, x.tf, x.docLen)
    ensures ScoredShare(cfg, Compacted(s, live), key, n) == PlainShare(cfg, Compacted(s, live), key, x.tf, x.docLen)
  {
    var c, idf, idf' := Compacted(s, live), TermIdf(cfg, s, key), TermIdf(cfg, Compacted(s, live), key);
    var k, j := SegmentHasDoc(s.docs, x);
    assert ProperDoc(s.docs[k]) && ProperTerm(s.docs[k].terms[j]);
    PositiveIdfs(cfg, s, nodeCount, live, key);
    DeltaShares(s, nodeCount, live, StorageIn(cfg, s), StorageIn(cfg, c), key, idf, idf', n, x);
    PlainScore(cfg, CountersOf(s), s.docLens, idf, x);
    ScoredBy(cfg, s, key, n, idf, PlainShare(cfg, s, key, x.tf, x.docLen));
    PlainScore(cfg, CountersOf(c), c.docLens, idf', x);
    ScoredBy(cfg, c, key, n, idf', PlainShare(cfg, c, key, x.tf, x.docLen));
  }

  /** Without quantized norms a document with the term is scored by the same formula before and after. */
  lemma {:induction false} PlainShares(cfg: Settings, s: Snapshot, nodeCount: nat, live: seq<bool>, key: Term, n: nat,
                                       tf: nat, docLen: nat)
    requires Lawful(cfg) && !cfg.quantized && Good(s, nodeCount, live) && key.hash == HashTerm(key.bytes) && Posted(s, key, n, tf, docLen)
    ensures tf >= 1 && ScoredShare(cfg, s, key, n) == PlainShare(cfg, s, key, tf, docLen)
    ensures ScoredShare(cfg, Compacted(s, live), key, n) == PlainShare(cfg, Compacted(s, live), key, tf, docLen)
  {
    if i: nat :| SeenBase(s, key, n, i) && s.base[i].tf == tf && s.docLens[n] == docLen {
      PlainBaseShares(cfg, s, nodeCount, live, key, n, i);
    } else {
      var x :| SeenDelta(s, key, n, x) && x.tf == tf && x.docLen == docLen;
      PlainDeltaShares(cfg, s, nodeCount, live, key, n, x);
    }
  }

  // ----- when scores stay

  ghost function RarityOf(s: Snapshot, key: Term): real { Rarity(CorpusDocs(CountersOf(s)), DocFreq(s, key)) }

  /** The average length that norms are reckoned by; one at least. */
  ghost function EffectiveLen(s: Snapshot): real { Bm25.MaxReal(AvgDocLen(CountersOf(s)), 1.0) }

  /** The compaction keeps all that the score of a term depends on. */
  ghost predicate ScoringKept(s: Snapshot, live: seq<bool>, key: Term) {
    RarityOf(Compacted(s, live), key) == RarityOf(s, key) && EffectiveLen(Compacted(s, live)) == EffectiveLen(s)
  }

  /** So it does where the statistics stay. */
  lemma {:induction false} StatisticsMakeScores(s: Snapshot, nodeCount: nat, live: seq<bool>, key: Term)
    requires Good(s, nodeCount, live) && AllCounted(s, live) && Settled(s, live, key) && key.hash == HashTerm(key.bytes)
    ensures ScoringKept(s, live, key)
  {
    CompactedCounters(s, nodeCount, live);
    SameAverages(CountersOf(s), CountersOf(Compacted(s, live)));
    DfKeptIff(s, nodeCount, live, key);
  }

  lemma {:induction false} ScoreByLen(cfg: Settings, avg: real, avg': real, idf: real, tf: nat, docLen: nat)
    requires Sane(cfg) && tf >= 1 && Bm25.MaxReal(avg, 1.0) == Bm25.MaxReal(avg', 1.0)
    ensures Bm25.PostingScore(MetaOf(cfg, avg), idf, tf, docLen) == Bm25.PostingScore(MetaOf(cfg, avg'), idf, tf, docLen)
  {
    assert Bm25.Norm(MetaOf(cfg, avg), docLen) == Bm25.Norm(MetaOf(cfg, avg'), docLen);
  }

  lemma {:induction false} PlainShareKept(cfg: Settings, s: Snapshot, nodeCount: nat, live: seq<bool>, key: Term,
                                          n: nat, tf: nat, docLen: nat)
    requires Lawful(cfg) && !cfg.quantized && Good(s, nodeCount, live) && key.hash == HashTerm(key.bytes) && Posted(s, key, n, tf, docLen)
    requires ScoringKept(s, live, key)
    ensures ScoredShare(cfg, Compacted(s, live), key, n) == ScoredShare(cfg, s, key, n)
  {
    var c := Compacted(s, live);
    PlainShares(cfg, s, nodeCount, live, key, n, tf, docLen);
    assert TermIdf(cfg, c, key) == TermIdf(cfg, s, key);
    ScoreByLen(cfg, AvgDocLen(CountersOf(c)), AvgDocLen(CountersOf(s)), TermIdf(cfg, s, key), tf, docLen);
  }

  /** Settings under which a score is the rarity of its term less one. */
  function RaritySettings(): Settings { Settings(0.0, 0.0, false, 1, (x: real) => x - 1.0) }

  /** Settings under which scores differ by frequency and relative length only. */
  function LengthSettings(): Settings { Settings(1.0, 1.0, false, 1, (x: real) => 1.0) }

  lemma {:induction false} RarityShows(avg: real, idf: real, tf: nat, docLen: nat)
    requires tf >= 1
    ensures Bm25.PostingScore(MetaOf(RaritySettings(), avg), idf, tf, docLen) == idf
  {
    var m := MetaOf(RaritySettings(), avg);
    assert Bm25.Norm(m, docLen) == 0.0;
    assert Bm25.Saturation(tf as real, 1.0, 0.0) == 1.0;
  }

  lemma {:induction false} LengthShows(avg: real, avg': real, tf: nat, docLen: nat)
    requires tf >= 1
    requires Bm25.PostingScore(MetaOf(LengthSettings(), avg), 1.0, tf, docLen) == Bm25.PostingScore(MetaOf(LengthSettings(), avg'), 1.0, tf, docLen)
    ensures Bm25.MaxReal(avg, 1.0) == Bm25.MaxReal(avg', 1.0)
  {
    var m, m' := MetaOf(LengthSettings(), avg), MetaOf(LengthSettings(), avg');
    var len, a, a', x := Bm25.MaxReal(docLen as real, 1.0), Bm25.MaxReal(avg, 1.0), Bm25.MaxReal(avg', 1.0), tf as real;
    assert Bm25.Norm(m, docLen) == len / a && Bm25.Norm(m', docLen) == len / a';
    SameQuotient(x * 2.0, x + len / a, x + len / a');
    SameQuotient(len, a, a');
  }

  lemma {:induction false} SameQuotient(x: real, y: real, z: real)
    requires x > 0.0 && y > 0.0 && z > 0.0 && x / y == x / z
    ensures y == z
  {
    var q := x / y;
    assert q > 0.0 && q * y == x;
    assert x / z * z == x;
    SameUnits(q, x, x, y, z);
  }

  lemma {:induction false} ShowingIdfs(s: Snapshot, key: Term)
    ensures TermIdf(RaritySettings(), s, key) == RarityOf(s, key) - 1.0 && TermIdf(LengthSettings(), s, key) == 1.0
  {
  }

  lemma {:induction false} RarityTells(s: Snapshot, nodeCount: nat, live: seq<bool>, key: Term, n: nat, tf: nat,
                                       docLen: nat)
    requires Good(s, nodeCount, live) && key.hash == HashTerm(key.bytes) && Posted(s, key, n, tf, docLen)
    requires ScoredShare(RaritySettings(), Compacted(s, live), key, n) == ScoredShare(RaritySettings(), s, key, n)
    ensures RarityOf(Compacted(s, live), key) == RarityOf(s, key)
  {
    var c, cfg := Compacted(s, live), RaritySettings();
    PlainShares(cfg, s, nodeCount, live, key, n, tf, docLen);
    RarityShows(AvgDocLen(CountersOf(s)), TermIdf(cfg, s, key), tf, docLen);
    RarityShows(AvgDocLen(CountersOf(c)), TermIdf(cfg, c, key), tf, docLen);
    ShowingIdfs(s, key);
    ShowingIdfs(c, key);
  }

  lemma {:induction false} LengthTells(s: Snapshot, nodeCount: nat, live: seq<bool>, key: Term, n: nat, tf: nat,
                                       docLen: nat)
    requires Good(s, nodeCount, live) && key.hash == HashTerm(key.bytes) && Posted(s, key, n, tf, docLen)
    requires ScoredShare(LengthSettings(), Compacted(s, live), key, n) == ScoredShare(LengthSettings(), s, key, n)
    ensures EffectiveLen(Compacted(s, live)) == EffectiveLen(s)
  {
    var c, cfg := Compacted(s, live), LengthSettings();
    PlainShares(cfg, s, nodeCount, live, key, n, tf, docLen);
    ShowingIdfs(s, key);
    ShowingIdfs(c, key);
    LengthShows(AvgDocLen(CountersOf(c)), AvgDocLen(CountersOf(s)), tf, docLen);
  }

  /**
   Without quantized norms, a document keeps the score of a term under all parameters and
   logarithms if and only if the compaction keeps the rarity of the term and the effective
   average length.
   */
  lemma {:induction false} PlainScoreKeptIff(s: Snapshot, nodeCount: nat, live: seq<bool>, key: Term, n: nat, tf: nat,
                                             docLen: nat)
    requires Good(s, nodeCount, live) && key.hash == HashTerm(key.bytes) && Posted(s, key, n, tf, docLen)
    ensures (forall cfg: Settings :: Lawful(cfg) && !cfg.quantized ==>
               ScoredShare(cfg, Compacted(s, live), key, n) == ScoredShare(cfg, s, key, n)) <==> ScoringKept(s, live, key)
  {
    if ScoringKept(s, live, key) {
      forall cfg: Settings | Lawful(cfg) && !cfg.quantized
        ensures ScoredShare(cfg, Compacted(s, live), key, n) == ScoredShare(cfg, s, key, n)
      {
        PlainShareKept(cfg, s, nodeCount, live, key, n, tf, docLen);
      }
    } else if forall cfg: Settings :: Lawful(cfg) && !cfg.quantized ==>
                ScoredShare(cfg, Compacted(s, live), key, n) == ScoredShare(cfg, s, key, n) {
      assert Lawful(RaritySettings()) && Lawful(LengthSettings());
      RarityTells(s, nodeCount, live, key, n, tf, docLen);
      LengthTells(s, nodeCount, live, key, n, tf, docLen);
    }
  }

  lemma {:induction false} EveryShareKept(cfg: Settings, s: Snapshot, nodeCount: nat, live: seq<bool>, key: Term,
                                          n: nat)
    requires Lawful(cfg) && !cfg.quantized && Good(s, nodeCount, live) && key.hash == HashTerm(key.bytes) && ScoringKept(s, live, key)
    ensures ScoredShare(cfg, Compacted(s, live), key, n) == ScoredShare(cfg, s, key, n)
  {
    var c := Compacted(s, live);
    if i: nat :| SeenBase(s, key, n, i) {
      assert Posted(s, key, n, s.base[i].tf, s.docLens[n]);
      PlainShareKept(cfg, s, nodeCount, live, key, n, s.base[i].tf, s.docLens[n]);
    } else if x :| SeenDelta(s, key, n, x) {
      assert Posted(s, key, n, x.tf, x.docLen);
      PlainShareKept(cfg, s, nodeCount, live, key, n, x.tf, x.docLen);
    } else {
      NoShares(s, nodeCount, live, StorageIn(cfg, s), StorageIn(cfg, c), key, TermIdf(cfg, s, key), TermIdf(cfg, c, key), n);
    }
  }

  /** Without quantized norms a compaction that keeps what the scores of the query terms depend on keeps all answers, scores included. */
  lemma {:induction false} CompactionKeepsAnswers(cfg: Settings, s: Snapshot, nodeCount: nat, live: seq<bool>,
                                                  keys: seq<Term>, matcher: Matcher)
    requires Lawful(cfg) && !cfg.quantized && Good(s, nodeCount, live) && Hashes(keys)
    requires forall i :: 0 <= i < |keys| ==> ScoringKept(s, live, keys[i])
    ensures ScoredAnswers(cfg, Compacted(s, live), keys, matcher) == ScoredAnswers(cfg, s, keys, matcher)
  {
    forall i, n: nat | 0 <= i < |keys|
      ensures ScoredShare(cfg, Compacted(s, live), keys[i], n) == ScoredShare(cfg, s, keys[i], n)
    {
      EveryShareKept(cfg, s, nodeCount, live, keys[i], n);
    }
    SharesMakeAnswers(cfg, s, nodeCount, live, keys, matcher);
  }

  /** In particular, one that drops no counted document does. */
  lemma {:induction false} KeptDocumentsKeepAnswers(cfg: Settings, s: Snapshot, nodeCount: nat, live: seq<bool>,
                                                    keys: seq<Term>, matcher: Matcher)
    requires Lawful(cfg) && !cfg.quantized && Good(s, nodeCount, live) && Hashes(keys)
    requires AllCounted(s, live) && forall i :: 0 <= i < |keys| ==> Settled(s, live, keys[i])
    ensures ScoredAnswers(cfg, Compacted(s, live), keys, matcher) == ScoredAnswers(cfg, s, keys, matcher)
  {
    forall i | 0 <= i < |keys|
      ensures ScoringKept(s, live, keys[i])
    {
      StatisticsMakeScores(s, nodeCount, live, keys[i]);
    }
    CompactionKeepsAnswers(cfg, s, nodeCount, live, keys, matcher);
  }

  // ----- quantized norms

  /** The worth of one unit of the quantized norm. */
  function Unit(cfg: Settings, idf: real): real { idf * (cfg.k1 + 1.0) / UINT16_MAX as real }

  /** The score of a norm. */
  function Worth(unit: real, norm: real): real { unit * norm }

  /** A score in units of the quantized norm. */
  lemma {:induction false} ScoreInUnits(cfg: Settings, avgDocLen: real, idf: real, tf: nat, docLen: nat)
    requires Sane(cfg) && tf >= 1
    ensures Bm25.PostingScore(MetaOf(cfg, avgDocLen), idf, tf, docLen) ==
            Worth(Unit(cfg, idf), Units(cfg, avgDocLen, docLen, tf))
  {
    var m := MetaOf(cfg, avgDocLen);
    var sat := Bm25.Saturation(tf as real, cfg.k1 + 1.0, Bm25.Norm(m, docLen));
    var scale := Bm25.Scale(m);
    assert scale == cfg.k1 + 1.0;
    assert sat / scale * scale == sat;
    InUnits(idf, scale, sat / scale, UINT16_MAX as real);
  }

  lemma {:induction false} InUnits(idf: real, scale: real, part: real, units: real)
    requires units > 0.0
    ensures idf * (part * scale) == idf * scale / units * (part * units)
  {
    var x := idf * scale;
    assert x / units * units == x;
    assert x / units * (part * units) == (x / units * units) * part;
  }

  lemma {:induction false} PrecomputedInUnits(cfg: Settings, avgDocLen: real, idf: real, q: nat)
    requires Sane(cfg)
    ensures Bm25.PrecomputedScore(MetaOf(cfg, avgDocLen), idf, q) == Worth(Unit(cfg, idf), q as real)
  {
    var x := idf * (cfg.k1 + 1.0);
    assert x * (q as real / UINT16_MAX as real) == x / UINT16_MAX as real * q as real;
  }

  lemma {:induction false} UnitIsPositive(cfg: Settings, idf: real)
    requires Sane(cfg) && idf > 0.0
    ensures Unit(cfg, idf) > 0.0
  {
    assert idf * (cfg.k1 + 1.0) > 0.0;
  }

  /** The norm stored with a posting of a kept document. */
  lemma {:induction false} StoredInUnits(cfg: Settings, c: Counters, docLens: map<nat, nat>, idf: real, n: nat, tf: nat)
    requires Sane(cfg) && idf > 0.0 && cfg.quantized && tf >= 1 && n in docLens
    ensures StoredScore(StorageOf(cfg, c, docLens), idf, n, tf, docLens[n]) ==
            Worth(Unit(cfg, idf), QuantizeTfNorm(cfg, BuildAvg(c), docLens[n], tf) as real)
  {
    PrecomputedInUnits(cfg, AvgDocLen(c), idf, StoredNorm(cfg, c, docLens[n], tf));
  }

  lemma {:induction false} ExactInUnits(cfg: Settings, c: Counters, docLens: map<nat, nat>, idf: real, x: Segment)
    requires Sane(cfg) && idf > 0.0 && x.tf >= 1
    ensures DeltaScore(Scorer(StorageOf(cfg, c, docLens), idf), x) == Worth(Unit(cfg, idf), Units(cfg, AvgDocLen(c), x.docLen, x.tf))
  {
    ScoreInUnits(cfg, AvgDocLen(c), idf, x.tf, x.docLen);
  }

  lemma {:induction false} SameUnits(unit: real, a: real, b: real, x: real, y: real)
    requires unit > 0.0 && a == Worth(unit, x) && b == Worth(unit, y)
    ensures a == b <==> x == y
  {
    if x < y {
      assert unit * (y - x) > 0.0;
    } else if x > y {
      assert unit * (x - y) > 0.0;
    }
  }

  lemma {:induction false} Halved(unit: real, d: real)
    requires unit > 0.0 && d >= 0.0
    ensures unit * d >= 0.0
  {
  }

  lemma {:induction false} HalfUnit(unit: real, a: real, b: real, x: real, y: real)
    requires unit > 0.0 && a == Worth(unit, x) && b == Worth(unit, y) && -0.5 <= x - y <= 0.5
    ensures -(unit / 2.0) <= a - b <= unit / 2.0
  {
    var d := x - y;
    assert a - b == unit * d;
    Halved(unit, 0.5 - d);
    Halved(unit, 0.5 + d);
  }

  /** The conditions under which a compaction keeps the statistics of a term. */
  ghost predicate Steady(cfg: Settings, s: Snapshot, nodeCount: nat, live: seq<bool>, key: Term) {
    && Lawful(cfg) && cfg.quantized && Good(s, nodeCount, live) && key.hash == HashTerm(key.bytes)
    && AllCounted(s, live) && Settled(s, live, key)
  }

  lemma {:induction false} SteadyIdf(cfg: Settings, s: Snapshot, nodeCount: nat, live: seq<bool>, key: Term)
    requires Steady(cfg, s, nodeCount, live, key)
    ensures var c := Compacted(s, live);
            TermIdf(cfg, c, key) == TermIdf(cfg, s, key) > 0.0
  {
    SameStatistics(cfg, s, nodeCount, live, key);
    IdfIsPositive(cfg, s, nodeCount, key);
  }

  /** The norm of a base posting before a compaction, and after it. */
  function NormBefore(cfg: Settings, c: Counters, docLen: nat, tf: nat): nat { QuantizeTfNorm(cfg, BuildAvg(c),
                      docLen, tf) }

  function NormAfter(cfg: Settings, c: Counters, docLen: nat, tf: nat): nat { QuantizeTfNorm(cfg, AvgDocLen(c),
                     docLen, tf) }

  /** A base posting is scored by its norm, old and new. */
  lemma {:induction false} QuantizedBaseShares(cfg: Settings, s: Snapshot, nodeCount: nat, live: seq<bool>, key: Term,
                                               n: nat, i: nat)
    requires Steady(cfg, s, nodeCount, live, key) && SeenBase(s, key, n, i)
    ensures var unit := Unit(cfg, TermIdf(cfg, s, key));
            && ScoredShare(cfg, s, key, n) == Worth(unit, NormBefore(cfg, CountersOf(s), s.docLens[n], s.base[i].tf) as real)
            && ScoredShare(cfg, Compacted(s, live), key, n) == Worth(unit, NormAfter(cfg, CountersOf(s), s.docLens[n], s.base[i].tf) as real)
  {
    var c, idf, tf, len := Compacted(s, live), TermIdf(cfg, s, key), s.base[i].tf, s.docLens[n];
    SteadyIdf(cfg, s, nodeCount, live, key);
    SameStatistics(cfg, s, nodeCount, live, key);
    assert Proper(s.base[i]) && n in s.docLens.Keys;
    BaseShares(s, nodeCount, live, StorageIn(cfg, s), StorageIn(cfg, c), key, idf, idf, n, i);
    var j := BaseSurvives(s, nodeCount, live, key, n, i);
    StoredInUnits(cfg, CountersOf(s), s.docLens, idf, n, tf);
    ScoredBy(cfg, s, key, n, idf, Worth(Unit(cfg, idf), NormBefore(cfg, CountersOf(s), len, tf) as real));
    StoredInUnits(cfg, CountersOf(c), c.docLens, idf, n, tf);
    ScoredBy(cfg, c, key, n, idf, Worth(Unit(cfg, idf), NormAfter(cfg, CountersOf(s), len, tf) as real));
  }

  /** With quantized norms, a document of the base keeps the score of a term if and only if the norm by the new average is the old one. */
  lemma {:induction false} QuantizedBaseKeptIff(cfg: Settings, s: Snapshot, nodeCount: nat, live: seq<bool>,
                                                key: Term, n: nat, i: nat)
    requires Steady(cfg, s, nodeCount, live, key) && SeenBase(s, key, n, i)
    ensures ScoredShare(cfg, Compacted(s, live), key, n) == ScoredShare(cfg, s, key, n) <==>
            NormAfter(cfg, CountersOf(s), s.docLens[n], s.base[i].tf) == NormBefore(cfg, CountersOf(s), s.docLens[n], s.base[i].tf)
  {
    QuantizedBaseShares(cfg, s, nodeCount, live, key, n, i);
    SteadyIdf(cfg, s, nodeCount, live, key);
    UnitIsPositive(cfg, TermIdf(cfg, s, key));
    SameUnits(Unit(cfg, TermIdf(cfg, s, key)), ScoredShare(cfg, Compacted(s, live), key, n), ScoredShare(cfg, s, key, n),
              NormAfter(cfg, CountersOf(s), s.docLens[n], s.base[i].tf) as real, NormBefore(cfg, CountersOf(s), s.docLens[n], s.base[i].tf) as real);
  }

  /** A delta posting is scored exactly, and by its norm from then on. */
  lemma {:induction false} QuantizedDeltaShares(cfg: Settings, s: Snapshot, nodeCount: nat, live: seq<bool>,
                                                key: Term, n: nat, x: Segment)
    requires Steady(cfg, s, nodeCount, live, key) && SeenDelta(s, key, n, x)
    ensures x.tf >= 1
    ensures var unit, avg := Unit(cfg, TermIdf(cfg, s, key)), AvgDocLen(CountersOf(s));
            && ScoredShare(cfg, s, key, n) == Worth(unit, Units(cfg, avg, x.docLen, x.tf))
            && ScoredShare(cfg, Compacted(s, live), key, n) == Worth(unit, QuantizeTfNorm(cfg, avg, x.docLen, x.tf) as real)
  {
    var c, idf := Compacted(s, live), TermIdf(cfg, s, key);
    SteadyIdf(cfg, s, nodeCount, live, key);
    SameStatistics(cfg, s, nodeCount, live, key);
    var k, j := SegmentHasDoc(s.docs, x);
    assert ProperDoc(s.docs[k]) && ProperTerm(s.docs[k].terms[j]);
    DeltaShares(s, nodeCount, live, StorageIn(cfg, s), StorageIn(cfg, c), key, idf, idf, n, x);
    DeltaDocument(s, nodeCount, live, x);
    var avg := AvgDocLen(CountersOf(s));
    ExactInUnits(cfg, CountersOf(s), s.docLens, idf, x);
    ScoredBy(cfg, s, key, n, idf, Worth(Unit(cfg, idf), Units(cfg, avg, x.docLen, x.tf)));
    StoredInUnits(cfg, CountersOf(c), c.docLens, idf, n, x.tf);
    ScoredBy(cfg, c, key, n, idf, Worth(Unit(cfg, idf), QuantizeTfNorm(cfg, avg, x.docLen, x.tf) as real));
  }

  /**
   With quantized norms, a document of the delta keeps the score of a term if and only if its
   frequency factor is a whole number of units; in any case it changes by half a unit at most.
   */
  lemma {:induction false} QuantizedDeltaKeptIff(cfg: Settings, s: Snapshot, nodeCount: nat, live: seq<bool>,
                                                 key: Term, n: nat, x: Segment)
    requires Steady(cfg, s, nodeCount, live, key) && SeenDelta(s, key, n, x)
    ensures ScoredShare(cfg, Compacted(s, live), key, n) == ScoredShare(cfg, s, key, n) <==>
            Whole(cfg, AvgDocLen(CountersOf(s)), x.docLen, x.tf)
    ensures var half := Unit(cfg, TermIdf(cfg, s, key)) / 2.0;
            -half <= ScoredShare(cfg, Compacted(s, live), key, n) - ScoredShare(cfg, s, key, n) <= half
  {
    QuantizedDeltaShares(cfg, s, nodeCount, live, key, n, x);
    SteadyIdf(cfg, s, nodeCount, live, key);
    UnitIsPositive(cfg, TermIdf(cfg, s, key));
    var avg, unit := AvgDocLen(CountersOf(s)), Unit(cfg, TermIdf(cfg, s, key));
    var u, q := Units(cfg, avg, x.docLen, x.tf), QuantizeTfNorm(cfg, avg, x.docLen, x.tf) as real;
    NearestUnit(cfg, avg, x.docLen, x.tf);
    SameUnits(unit, ScoredShare(cfg, Compacted(s, live), key, n), ScoredShare(cfg, s, key, n), q, u);
    HalfUnit(unit, ScoredShare(cfg, Compacted(s, live), key, n), ScoredShare(cfg, s, key, n), q, u);
  }

  /** A frequency factor that quantization does not change. */
  predicate Whole(cfg: Settings, avgDocLen: real, docLen: nat, tf: nat) {
    Sane(cfg) && tf >= 1 && Units(cfg, avgDocLen, docLen, tf) == Units(cfg, avgDocLen, docLen, tf).Floor as real
  }

  /** Rounding to units changes nothing only where there is nothing to round. */
  lemma {:induction false} NearestUnit(cfg: Settings, avgDocLen: real, docLen: nat, tf: nat)
    requires Sane(cfg) && tf >= 1
    ensures var u, q := Units(cfg, avgDocLen, docLen, tf), QuantizeTfNorm(cfg, avgDocLen, docLen, tf) as real;
            (q == u <==> Whole(cfg, avgDocLen, docLen, tf)) && -0.5 <= q - u <= 0.5
  {
    var u := Units(cfg, avgDocLen, docLen, tf);
    QuantizedIsNear(cfg, avgDocLen, docLen, tf);
    UnitsInRange(cfg, avgDocLen, docLen, tf);
    if u == u.Floor as real {
      assert (u + 0.5).Floor == u.Floor;
    }
  }

  /** Quantization gives every posting of the term that a query sees its old score. */
  ghost predicate NormsKept(cfg: Settings, s: Snapshot, key: Term) {
    && (forall n: nat, i: nat :: SeenBase(s, key, n, i) ==>
          NormAfter(cfg, CountersOf(s), s.docLens[n], s.base[i].tf) == NormBefore(cfg, CountersOf(s), s.docLens[n], s.base[i].tf))
    && (forall n: nat, x :: SeenDelta(s, key, n, x) ==> Whole(cfg, AvgDocLen(CountersOf(s)), x.docLen, x.tf))
  }

  /** So a term is scored alike in all documents if and only if none of its norms changes. */
  lemma {:induction false} QuantizedTermKeptIff(cfg: Settings, s: Snapshot, nodeCount: nat, live: seq<bool>, key: Term)
    requires Steady(cfg, s, nodeCount, live, key)
    ensures (forall n: nat :: ScoredShare(cfg, Compacted(s, live), key, n) == ScoredShare(cfg, s, key, n)) <==> NormsKept(cfg, s, key)
  {
    forall n: nat, i: nat | SeenBase(s, key, n, i)
      ensures ScoredShare(cfg, Compacted(s, live), key, n) == ScoredShare(cfg, s, key, n) <==>
              NormAfter(cfg, CountersOf(s), s.docLens[n], s.base[i].tf) == NormBefore(cfg, CountersOf(s), s.docLens[n], s.base[i].tf)
    {
      QuantizedBaseKeptIff(cfg, s, nodeCount, live, key, n, i);
    }
    forall n: nat, x | SeenDelta(s, key, n, x)
      ensures ScoredShare(cfg, Compacted(s, live), key, n) == ScoredShare(cfg, s, key, n) <==>
              Whole(cfg, AvgDocLen(CountersOf(s)), x.docLen, x.tf)
    {
      QuantizedDeltaKeptIff(cfg, s, nodeCount, live, key, n, x);
    }
    forall n: nat | (forall i: nat :: !SeenBase(s, key, n, i)) && (forall x :: !SeenDelta(s, key, n, x))
      ensures ScoredShare(cfg, Compacted(s, live), key, n) == ScoredShare(cfg, s, key, n)
    {
      var c := Compacted(s, live);
      NoShares(s, nodeCount, live, StorageIn(cfg, s), StorageIn(cfg, c), key, TermIdf(cfg, s, key), TermIdf(cfg, c, key), n);
    }
  }

  /** With quantized norms a compaction that keeps statistics and norms keeps all answers. */
  lemma {:induction false} QuantizedAnswersKept(cfg: Settings, s: Snapshot, nodeCount: nat, live: seq<bool>,
                                                keys: seq<Term>, matcher: Matcher)
    requires Good(s, nodeCount, live)
    requires forall i :: 0 <= i < |keys| ==> Steady(cfg, s, nodeCount, live, keys[i]) && NormsKept(cfg, s, keys[i])
    ensures ScoredAnswers(cfg, Compacted(s, live), keys, matcher) == ScoredAnswers(cfg, s, keys, matcher)
  {
    forall i | 0 <= i < |keys|
      ensures forall n: nat :: ScoredShare(cfg, Compacted(s, live), keys[i], n) == ScoredShare(cfg, s, keys[i], n)
    {
      QuantizedTermKeptIff(cfg, s, nodeCount, live, keys[i]);
    }
    SharesMakeAnswers(cfg, s, nodeCount, live, keys, matcher);
  }
}
