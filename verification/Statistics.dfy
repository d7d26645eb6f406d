/**
 The corpus statistics behind every score: document counts, average length, document
 frequencies, and the norms that a build quantizes.  A search that computes them from the
 counters of the index returns the best answers by them.
 */
module Statistics {
  import opened Integers
  import opened Ranking
  import opened QueryEval
  import opened TermTuples
  import opened DeltaStore
  import opened DocLengths
  import opened Compaction
  import opened Counting
  import opened IndexSearch
  import Bm25 = Bm25Scoring
  import Codec = PostingsCodec
  import Accumulator
  import TopKSearch
  import Wand
  import HotCache

  /** What the options of an index fix, and the logarithm in use. */
  datatype Settings = Settings(k1: real, b: real, quantized: bool, chunkSize: nat, log: real -> real)

  /** The logarithm is positive above one. */
  ghost predicate Lawful(cfg: Settings) {
    cfg.k1 >= 0.0 && 0.0 <= cfg.b <= 1.0 && cfg.chunkSize > 0 && forall x: real :: x > 1.0 ==> cfg.log(x) > 0.0
  }

  // ----- counters

  /** The counters of the index: those of the last build or compaction, and those of the delta. */
  datatype Counters = Counters(docCount: nat, totalDocLen: nat, deltaDocCount: nat, deltaTotalDocLen: nat)

  ghost function CountersOf(s: Snapshot): Counters {
    Counters(|s.docLens|, TotalLen(s.docLens), |s.docs|, DocsLen(s.docs))
  }

  /** The number of documents that a query reckons with; dead ones count until the next compaction. */
  function CorpusDocs(c: Counters): (n: nat)
    ensures n >= 1
  {
    if c.docCount + c.deltaDocCount > 1 then c.docCount + c.deltaDocCount else 1
  }

  function AvgDocLen(c: Counters): real {
    (c.totalDocLen + c.deltaTotalDocLen) as real / CorpusDocs(c) as real
  }

  // ----- document frequency

  function OfTerm(key: Term): Tuple -> bool { (t: Tuple) => IsTerm(t, key) }

  function EntryOfTerm(key: Term): Segment -> bool { (x: Segment) => x.bytes == key.bytes }

  function LiveOfTerm(key: Term, live: seq<bool>): Segment -> bool {
    (x: Segment) => x.bytes == key.bytes && Live(live, x.node)
  }

  /** Postings of the base, and postings of live documents of the delta. */
  function DocFreq(s: Snapshot, key: Term): nat {
    Count(OfTerm(key), s.base) + Count(LiveOfTerm(key, s.live), AllSegments(s.docs))
  }

  lemma {:induction false} PostingsCount(s: seq<Tuple>, key: Term)
    ensures |TermPostings(s, key)| == Count(OfTerm(key), s)
  {
    if s != [] {
      PostingsCount(s[1..], key);
      CountJoined(OfTerm(key), [s[0]], s[1..]);
      CountAppend(OfTerm(key), [], s[0]);
      assert [s[0]] + s[1..] == s && [] + [s[0]] == [s[0]];
    }
  }

  lemma {:induction false} PassingCount(f: Filter, segs: seq<Segment>, key: Term)
    requires Asked(f, key)
    ensures Count(EntryOfTerm(key), Passing(f, segs)) == Count(LiveOfTerm(key, f.live), segs)
  {
    if segs != [] {
      var n := |segs| - 1;
      PassingCount(f, segs[..n], key);
      CountAppend(EntryOfTerm(key), Passing(f, segs[..n]), segs[n]);
      if segs[n].bytes == key.bytes {
        assert Wanted(f, segs[n].bytes);
      }
    }
  }

  /** The delivered entries of a term are its postings in live documents of the delta. */
  lemma {:induction false} DeliveredCount(entries: seq<Segment>, docs: seq<Doc>, f: Filter, key: Term)
    requires Delivered(entries, docs, f) && Asked(f, key)
    ensures Count(EntryOfTerm(key), entries) == Count(LiveOfTerm(key, f.live), AllSegments(docs))
  {
    CountPermuted(EntryOfTerm(key), entries, Passing(f, AllSegments(docs)));
    PassingCount(f, AllSegments(docs), key);
  }

  lemma {:induction false} BaseDfAtMost(base: seq<Tuple>, docLens: map<nat, nat>, key: Term)
    requires DistinctKeys(base) && Known(base, docLens)
    ensures Count(OfTerm(key), base) <= |docLens|
  {
    var node := (t: Tuple) => t.node;
    forall i, j | 0 <= i < j < |base| && OfTerm(key)(base[i]) && OfTerm(key)(base[j])
      ensures node(base[i]) != node(base[j])
    {
      assert SameTerm(base[i], base[j]);
    }
    CountWithin(OfTerm(key), node, base, docLens.Keys);
    assert |docLens| == |docLens.Keys|;
  }

  lemma {:induction false} NodesOfDocs(docs: seq<Doc>)
    ensures |(set k | 0 <= k < |docs| :: docs[k].node)| <= |docs|
  {
    var ns := set k | 0 <= k < |docs| :: docs[k].node;
    if docs != [] {
      var n := |docs| - 1;
      NodesOfDocs(docs[..n]);
      var ms := set k | 0 <= k < |docs[..n]| :: docs[..n][k].node;
      assert ns == ms + {docs[n].node};
    }
  }

  lemma {:induction false} DeltaDfAtMost(docs: seq<Doc>, live: seq<bool>, key: Term)
    requires DistinctSegments(AllSegments(docs))
    ensures Count(LiveOfTerm(key, live), AllSegments(docs)) <= |docs|
  {
    var node, segs := (x: Segment) => x.node, AllSegments(docs);
    var ns := set k | 0 <= k < |docs| :: docs[k].node;
    forall i | 0 <= i < |segs| && LiveOfTerm(key, live)(segs[i])
      ensures node(segs[i]) in ns
    {
      assert segs[i] in segs;
      var k, j := SegmentHasDoc(docs, segs[i]);
    }
    CountWithin(LiveOfTerm(key, live), node, segs, ns);
    NodesOfDocs(docs);
  }

  /** No term is in more documents than are counted, whatever has died since. */
  lemma {:induction false} DfAtMostDocs(s: Snapshot, nodeCount: nat, key: Term)
    requires Stored(s.base, s.docLens, s.docs, nodeCount)
    ensures DocFreq(s, key) <= CorpusDocs(CountersOf(s))
  {
    BaseDfAtMost(s.base, s.docLens, key);
    DeltaDfAtMost(s.docs, s.live, key);
  }

  // ----- inverse document frequency

  function Rarity(docs: nat, df: nat): real {
    1.0 + (docs as real - df as real + 0.5) / (df as real + 0.5)
  }

  function Idf(cfg: Settings, docs: nat, df: nat): real { cfg.log(Rarity(docs, df)) }

  ghost function TermIdf(cfg: Settings, s: Snapshot, key: Term): real { Idf(cfg, CorpusDocs(CountersOf(s)),
                         DocFreq(s, key)) }

  lemma {:induction false} RarityAboveOne(docs: nat, df: nat)
    requires df <= docs
    ensures Rarity(docs, df) > 1.0
  {
    var x, y := docs as real - df as real + 0.5, df as real + 0.5;
    assert x > 0.0 && y > 0.0;
    assert x / y > 0.0;
  }

  /** So every term of a stored index adds to scores. */
  lemma {:induction false} IdfIsPositive(cfg: Settings, s: Snapshot, nodeCount: nat, key: Term)
    requires Lawful(cfg) && Stored(s.base, s.docLens, s.docs, nodeCount)
    ensures TermIdf(cfg, s, key) > 0.0
  {
    DfAtMostDocs(s, nodeCount, key);
    RarityAboveOne(CorpusDocs(CountersOf(s)), DocFreq(s, key));
  }

  // ----- quantized norms

  /** The average length at the last build or compaction. */
  function BuildAvg(c: Counters): real {
    if c.docCount == 0 then 1.0 else c.totalDocLen as real / c.docCount as real
  }

  function MetaOf(cfg: Settings, avgDocLen: real): Bm25.Meta { Bm25.Meta(cfg.k1, cfg.b, avgDocLen, cfg.quantized) }

  predicate Sane(cfg: Settings) { cfg.k1 >= 0.0 && 0.0 <= cfg.b <= 1.0 }

  /** The frequency factor of a posting in units of 1/65535 of its largest value. */
  function Units(cfg: Settings, avgDocLen: real, docLen: nat, tf: nat): real
    requires Sane(cfg) && tf >= 1
  {
    Bm25.Saturation(tf as real, cfg.k1 + 1.0, Bm25.Norm(MetaOf(cfg, avgDocLen), docLen)) / Bm25.Scale(MetaOf(cfg, avgDocLen)) * UINT16_MAX as real
  }

  function QuantizeTfNorm(cfg: Settings, avgDocLen: real, docLen: nat, tf: nat): (q: nat)
    ensures q <= UINT16_MAX
  {
    if Sane(cfg) && tf >= 1 then
      var quantized := (Units(cfg, avgDocLen, docLen, tf) + 0.5).Floor;
      if quantized < 0 then 0 else if quantized > UINT16_MAX then UINT16_MAX else quantized
    else 0
  }

  lemma {:induction false} SaturationInRange(tf: real, k: real, norm: real)
    requires tf > 0.0 && norm >= 0.0 && k >= 0.0
    ensures 0.0 <= Bm25.Saturation(tf, k, norm) <= k
  {
    assert tf * k <= k * (tf + norm);
    Bm25.CrossMultiply(tf * k, tf + norm, k, 1.0);
    Bm25.CrossMultiply(0.0, 1.0, tf * k, tf + norm);
  }

  lemma {:induction false} PartOfUnits(x: real, scale: real, units: real)
    requires 0.0 <= x <= scale && scale > 0.0 && units >= 0.0
    ensures 0.0 <= x / scale * units <= units
  {
    Bm25.CrossMultiply(x, scale, 1.0, 1.0);
    Bm25.CrossMultiply(0.0, 1.0, x, scale);
    Bm25.ScaledMonotone(units, x / scale, 1.0);
  }

  lemma {:induction false} UnitsInRange(cfg: Settings, avgDocLen: real, docLen: nat, tf: nat)
    requires Sane(cfg) && tf >= 1
    ensures 0.0 <= Units(cfg, avgDocLen, docLen, tf) <= UINT16_MAX as real
  {
    var m := MetaOf(cfg, avgDocLen);
    var norm, scale := Bm25.Norm(m, docLen), Bm25.Scale(m);
    SaturationInRange(tf as real, cfg.k1 + 1.0, norm);
    PartOfUnits(Bm25.Saturation(tf as real, cfg.k1 + 1.0, norm), scale, UINT16_MAX as real);
  }

  /** The quantized norm is the nearest one. */
  lemma {:induction false} QuantizedIsNear(cfg: Settings, avgDocLen: real, docLen: nat, tf: nat)
    requires Sane(cfg) && tf >= 1
    ensures -0.5 <= QuantizeTfNorm(cfg, avgDocLen, docLen, tf) as real - Units(cfg, avgDocLen, docLen, tf) <= 0.5
  {
    UnitsInRange(cfg, avgDocLen, docLen, tf);
    var u := Units(cfg, avgDocLen, docLen, tf);
    assert (u + 0.5).Floor as real <= u + 0.5 < (u + 0.5).Floor as real + 1.0;
  }

  // ----- scoring by the statistics

  /** The norm stored with a posting when the base was written. */
  function StoredNorm(cfg: Settings, c: Counters, docLen: nat, tf: nat): nat {
    if cfg.quantized then QuantizeTfNorm(cfg, BuildAvg(c), docLen, tf) else 0
  }

  function LenOf(docLens: map<nat, nat>, n: nat): nat { if n in docLens then docLens[n] else 0 }

  /** How an index with these counters stores and scores. */
  function StorageOf(cfg: Settings, c: Counters, docLens: map<nat, nat>): Storage {
    Storage(MetaOf(cfg, AvgDocLen(c)), (n: nat, tf: nat) => StoredNorm(cfg, c, LenOf(docLens, n), tf), cfg.chunkSize)
  }

  ghost function StorageIn(cfg: Settings, s: Snapshot): Storage { StorageOf(cfg, CountersOf(s), s.docLens) }

  ghost function DocFreqs(s: Snapshot, keys: seq<Term>): (dfs: seq<nat>)
    ensures |dfs| == |keys| && forall i :: 0 <= i < |keys| ==> dfs[i] == DocFreq(s, keys[i])
  {
    seq(|keys|, i requires 0 <= i < |keys| => DocFreq(s, keys[i]))
  }

  ghost function Idfs(cfg: Settings, s: Snapshot, keys: seq<Term>): (idfs: seq<real>)
    ensures |idfs| == |keys| && forall i :: 0 <= i < |keys| ==> idfs[i] == TermIdf(cfg, s, keys[i])
  {
    seq(|keys|, i requires 0 <= i < |keys| => TermIdf(cfg, s, keys[i]))
  }

  /** The query with its statistics, and the pages of its lists. */
  ghost function QueryOf(cfg: Settings, s: Snapshot, keys: seq<Term>, pages: seq<seq<HotCache.Page>>): QueryTerms {
    QueryTerms(keys, Idfs(cfg, s, keys), pages, DocFreqs(s, keys))
  }

  ghost function NoPages(keys: seq<Term>): (pages: seq<seq<HotCache.Page>>)
    ensures |pages| == |keys|
  {
    seq(|keys|, i => [])
  }

  /** The documents that satisfy the query, each with its score by the statistics of the index. */
  ghost function ScoredAnswers(cfg: Settings, s: Snapshot, keys: seq<Term>,
                               matcher: Matcher): set<Accumulator.NodeScore> {
    Answers(s, StorageIn(cfg, s), QueryOf(cfg, s, keys, NoPages(keys)), matcher)
  }

  /** Answers depend on the terms and their idf alone. */
  lemma {:induction false} AnswersIgnorePages(s: Snapshot, st: Storage, t: QueryTerms, u: QueryTerms, matcher: Matcher)
    requires SameLength(t) && SameLength(u) && t.keys == u.keys && t.idfs == u.idfs
    ensures Answers(s, st, t, matcher) == Answers(s, st, u, matcher)
  {
    forall n: nat
      ensures TermsOf(s, t, n) == TermsOf(s, u, n) && TermShares(s, st, t, n) == TermShares(s, st, u, n)
    {
    }
  }

  // ----- the search

  /** Nodes and frequencies fit their fields. */
  ghost predicate FieldsFit(base: seq<Tuple>) {
    forall i :: 0 <= i < |base| ==> base[i].node < UINT32_MAX && base[i].tf <= UINT16_MAX
  }

  lemma {:induction false} StoredFits(base: seq<Tuple>, cfg: Settings, c: Counters, docLens: map<nat, nat>)
    requires AllProper(base) && FieldsFit(base)
    ensures Fits(base, StorageOf(cfg, c, docLens))
  {
    forall i | 0 <= i < |base|
      ensures var st := StorageOf(cfg, c, docLens);
              base[i].tf >= 1 && Codec.FieldsFit(Codec.Posting(base[i].node, base[i].tf, st.norm(base[i].node, base[i].tf)), st.meta.tfNormQ16)
    {
      assert Proper(base[i]);
    }
  }

  /** The pages of a term, as last written. */
  ghost predicate Paged(base: seq<Tuple>, st: Storage, keys: seq<Term>, pages: seq<seq<HotCache.Page>>) {
    && st.chunkSize > 0 && |keys| == |pages|
    && forall i :: 0 <= i < |keys| ==> keys[i].hash == HashTerm(keys[i].bytes) && TermStored(base, st, keys[i], pages[i])
  }

  lemma {:induction false} TermsReady(cfg: Settings, s: Snapshot, nodeCount: nat, keys: seq<Term>,
                                      pages: seq<seq<HotCache.Page>>)
    requires Lawful(cfg) && Stored(s.base, s.docLens, s.docs, nodeCount) && Paged(s.base, StorageIn(cfg, s), keys, pages)
    ensures SameLength(QueryOf(cfg, s, keys, pages))
    ensures forall i :: 0 <= i < |keys| ==> TermReady(s.base, StorageIn(cfg, s), QueryOf(cfg, s, keys, pages), i)
  {
    forall i | 0 <= i < |keys|
      ensures TermReady(s.base, StorageIn(cfg, s), QueryOf(cfg, s, keys, pages), i)
    {
      IdfIsPositive(cfg, s, nodeCount, keys[i]);
    }
  }

  method CountEntries(entries: seq<Segment>, key: Term) returns (n: nat)
    ensures n == Count(EntryOfTerm(key), entries)
  {
    n := 0;
    for i := 0 to |entries|
      invariant n == Count(EntryOfTerm(key), entries[..i])
    {
      assert entries[..i + 1][..i] == entries[..i];
      if entries[i].bytes == key.bytes {
        n := n + 1;
      }
    }
    assert entries[..|entries|] == entries;
  }

  /** The stored index that a query finds, and the entries it is delivered. */
  ghost predicate Found(s: Snapshot, lexicon: seq<Entry>, size: nat, keys: seq<Term>, entries: seq<Segment>) {
    && size > 0 && lexicon == Lexicon(s.base, size) && Sorted(Before, s.base) && DistinctKeys(s.base) && FieldsFit(s.base)
    && Delivered(entries, s.docs, Filter(keys, s.live))
  }

  /** The document frequency of a term: that of its lexicon entry, and the delivered entries of the delta. */
  method TermDf(lexicon: seq<Entry>, key: Term, entries: seq<Segment>, ghost s: Snapshot, ghost size: nat,
                ghost keys: seq<Term>) returns (df: nat)
    requires Found(s, lexicon, size, keys, entries) && Asked(Filter(keys, s.live), key)
    ensures df == DocFreq(s, key)
  {
    LexiconCounts(s.base, size, key);
    PostingsCount(s.base, key);
    DeliveredCount(entries, s.docs, Filter(keys, s.live), key);
    var n := CountEntries(entries, key);
    df := DfOf(lexicon, key) + n;
  }

  /** Document frequencies and idfs of the query terms. */
  method TermStatistics(lexicon: seq<Entry>, cfg: Settings, keys: seq<Term>, docs: nat, entries: seq<Segment>,
                        ghost s: Snapshot, ghost size: nat)
    returns (idfs: seq<real>, dfs: seq<nat>)
    requires Found(s, lexicon, size, keys, entries) && docs == CorpusDocs(CountersOf(s))
    requires forall i :: 0 <= i < |keys| ==> keys[i].hash == HashTerm(keys[i].bytes)
    ensures dfs == DocFreqs(s, keys) && idfs == Idfs(cfg, s, keys)
  {
    idfs, dfs := [], [];
    for i := 0 to |keys|
      invariant |dfs| == |idfs| == i
      invariant forall j :: 0 <= j < i ==> dfs[j] == DocFreq(s, keys[j]) && idfs[j] == TermIdf(cfg, s, keys[j])
    {
      var df := TermDf(lexicon, keys[i], entries, s, size, keys);
      idfs, dfs := idfs + [Idf(cfg, docs, df)], dfs + [df];
    }
  }

  /**
   The search with its statistics computed from the index as it stands: counters, document
   frequencies and average length.  Where the strategy is exact, the result is the k best
   answers by the scores these give; otherwise the k best of some of them.
   */
  method Search(index: Index, live: seq<bool>, cfg: Settings, keys: seq<Term>, pages: seq<seq<HotCache.Page>>,
                q: Wand.Query, strategy: TopKSearch.Strategy)
    returns (top: seq<Accumulator.NodeScore>, ghost kept: set<Accumulator.NodeScore>)
    requires index.Valid() && Lawful(cfg) && cfg.chunkSize == index.chunkSize && FieldsFit(index.base)
    requires Paged(index.base, StorageIn(cfg, SnapshotOf(index, live)), keys, pages) && TopKSearch.Suits(q, |keys|)
    ensures var s := SnapshotOf(index, live);
            TopKSearch.ExactStrategy(strategy, q, BaseOf(s, StorageIn(cfg, s), QueryOf(cfg, s, keys, pages))) ==>
              IsTopK(Accumulator.Before, ScoredAnswers(cfg, s, keys, q.matcher), q.k, top)
    ensures kept <= ScoredAnswers(cfg, SnapshotOf(index, live), keys, q.matcher) && IsTopK(Accumulator.Before, kept, q.k, top)
    ensures var S := ScoredAnswers(cfg, SnapshotOf(index, live), keys, q.matcher);
            |S| <= q.k ==> forall x :: x in S - kept ==> TopKSearch.Dismissed(q.bound, x)
  {
    ghost var s := SnapshotOf(index, live);
    var c := Counters(index.docCount, index.totalDocLen, index.delta.docCount, index.delta.totalDocLen);
    assert c == CountersOf(s);
    var st := StorageOf(cfg, c, index.docLens);
    var entries := index.delta.Lookup(Filter(keys, live));
    var idfs, dfs := TermStatistics(index.lexicon, cfg, keys, CorpusDocs(c), entries, s, index.chunkSize);
    var t := QueryTerms(keys, idfs, pages, dfs);
    assert t == QueryOf(cfg, s, keys, pages);
    TermsReady(cfg, s, index.nodeCount, keys, pages);
    StoredFits(index.base, cfg, c, index.docLens);
    AnswersIgnorePages(s, st, t, QueryOf(cfg, s, keys, NoPages(keys)), q.matcher);
    top, kept := SearchIndex(index, live, st, t, q, strategy);
  }
}
