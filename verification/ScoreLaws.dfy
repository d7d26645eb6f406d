/**
 What the scores of the BM25 branch are, without the functions that compute them: equations
 over counts and lengths for average, norm, rarity and score, document frequencies as numbers
 of documents, and what follows for the order of answers.  The rarer word wins.
 */
module ScoreLaws {
  import opened Integers
  import opened Ranking
  import opened QueryEval
  import opened Sums
  import opened TermTuples
  import opened DeltaStore
  import opened DocLengths
  import opened Compaction
  import opened Counting
  import opened IndexSearch
  import opened Statistics
  import opened CompactionAnswers
  import Accumulator
  import Bm25 = Bm25Scoring
  import Codec = PostingsCodec

  // ----- quotients

  lemma {:induction false} QuotientIs(a: real, b: real)
    requires b > 0.0
    ensures a / b * b == a
  {
  }

  lemma {:induction false} OnlyQuotient(x: real, y: real, b: real)
    requires b > 0.0 && x * b == y * b
    ensures x == y
  {
    assert (x - y) * b == 0.0;
  }

  // ----- norm and score of a posting

  /** The norm of a length is linear in the length relative to the average, with slope k1 * b, and k1 at the average. */
  ghost predicate IsNorm(norm: real, k1: real, b: real, average: real, docLen: nat) {
    var len, avg := Bm25.MaxReal(docLen as real, 1.0), Bm25.MaxReal(average, 1.0);
    (norm - k1) * avg == k1 * b * (len - avg)
  }

  lemma {:induction false} NormOf(k1: real, b: real, len: real, avg: real)
    requires avg > 0.0
    ensures (k1 * (1.0 - b + b * (len / avg)) - k1) * avg == k1 * b * (len - avg)
  {
    var rel := len / avg;
    assert rel * avg == len;
    assert (k1 * (1.0 - b + b * rel) - k1) * avg == k1 * b * (rel * avg - avg);
  }

  lemma {:induction false} NormLaw(m: Bm25.Meta, docLen: nat)
    requires Bm25.ValidMeta(m)
    ensures IsNorm(Bm25.Norm(m, docLen), m.k1, m.b, m.avgDocLen, docLen)
    ensures Bm25.MaxReal(docLen as real, 1.0) == Bm25.MaxReal(m.avgDocLen, 1.0) ==> Bm25.Norm(m, docLen) == m.k1
  {
    var len, avg := Bm25.MaxReal(docLen as real, 1.0), Bm25.MaxReal(m.avgDocLen, 1.0);
    NormOf(m.k1, m.b, len, avg);
    if len == avg {
      OnlyQuotient(Bm25.Norm(m, docLen) - m.k1, 0.0, avg);
    }
  }

  lemma {:induction false} ShareOfParts(idf: real, tf: real, k: real, norm: real)
    requires tf > 0.0 && norm >= 0.0
    ensures idf * Bm25.Saturation(tf, k, norm) * (tf + norm) == idf * tf * k
  {
    var sat := Bm25.Saturation(tf, k, norm);
    assert sat * (tf + norm) == tf * k;
    assert idf * sat * (tf + norm) == idf * (sat * (tf + norm));
  }

  lemma {:induction false} PostingScoreLaw(m: Bm25.Meta, idf: real, tf: nat, docLen: nat)
    requires Bm25.ValidMeta(m) && tf >= 1
    ensures Bm25.PostingScore(m, idf, tf, docLen) * (tf as real + Bm25.Norm(m, docLen)) == idf * tf as real * (m.k1 + 1.0)
  {
    ShareOfParts(idf, tf as real, m.k1 + 1.0, Bm25.Norm(m, docLen));
  }

  /** A quantized norm stands for its part of 65535 of the largest factor, k1 + 1. */
  lemma {:induction false} PrecomputedLaw(m: Bm25.Meta, idf: real, tfNorm: nat)
    requires Bm25.ValidMeta(m)
    ensures Bm25.PrecomputedScore(m, idf, tfNorm) * 65535.0 == idf * (m.k1 + 1.0) * tfNorm as real
  {
    var part, scale := tfNorm as real / 65535.0, idf * (m.k1 + 1.0);
    assert part * 65535.0 == tfNorm as real;
    assert scale * part * 65535.0 == scale * (part * 65535.0);
  }

  lemma {:induction false} UnitsOfParts(sat: real, scale: real, units: real, tf: real, norm: real)
    requires scale > 0.0 && sat * (tf + norm) == tf * scale
    ensures sat / scale * units * (tf + norm) == tf * units
  {
    var part := sat / scale;
    assert part * scale == sat;
    assert part * (tf + norm) * scale == part * scale * (tf + norm) == tf * scale;
    OnlyQuotient(part * (tf + norm), tf, scale);
    assert part * units * (tf + norm) == part * (tf + norm) * units;
  }

  /** The units of a frequency: 65535 where the norm is zero, less by the norm's part otherwise. */
  lemma {:induction false} UnitsLaw(cfg: Settings, avgDocLen: real, docLen: nat, tf: nat)
    requires Sane(cfg) && tf >= 1
    ensures Units(cfg, avgDocLen, docLen, tf) * (tf as real + Bm25.Norm(MetaOf(cfg, avgDocLen), docLen)) == tf as real * 65535.0
  {
    var m := MetaOf(cfg, avgDocLen);
    var norm, scale := Bm25.Norm(m, docLen), Bm25.Scale(m);
    var sat := Bm25.Saturation(tf as real, cfg.k1 + 1.0, norm);
    assert sat * (tf as real + norm) == tf as real * scale;
    UnitsOfParts(sat, scale, 65535.0, tf as real, norm);
  }

  // ----- chunk bounds

  lemma {:induction false} LargestPosting(ps: seq<Codec.Posting>) returns (i: nat, j: nat)
    requires ps != []
    ensures i < |ps| && ps[i].tf == Codec.MaxTf(ps) && j < |ps| && ps[j].tfNorm == Codec.MaxNorm(ps)
  {
    i :| 0 <= i < |ps| && ps[i].tf == Codec.MaxTf(ps);
    j :| 0 <= j < |ps| && ps[j].tfNorm == Codec.MaxNorm(ps);
  }

  lemma {:induction false} PlainAttained(sc: Bm25.Scorer, p: Codec.Posting, tf: nat, norm: nat, factor: real)
    requires Bm25.Usable(sc) && !sc.meta.tfNormQ16 && p.tf == tf && tf >= 1
    ensures Bm25.Score(sc, p, 1) == Bm25.Bound(sc, tf, norm, factor)
  {
  }

  lemma {:induction false} QuantizedAttained(sc: Bm25.Scorer, p: Codec.Posting, tf: nat, norm: nat, factor: real,
                                             docLen: nat)
    requires Bm25.Usable(sc) && sc.meta.tfNormQ16 && p.tf >= 1 && tf >= 1 && p.tfNorm == norm > 0
    requires Bm25.FactorFits(sc.meta, norm, factor)
    ensures Bm25.Score(sc, p, docLen) == Bm25.Bound(sc, tf, norm, factor)
  {
    Bm25.PrecomputedMonotone(sc.meta, sc.idf, norm, norm);
  }

  /** The bound of a chunk as written, from its largest frequency and norm. */
  ghost function ChunkBound(sc: Bm25.Scorer, ch: Bm25.Chunk): real {
    Bm25.Bound(sc, Bm25.LoadedMaxTf(ch), Bm25.LoadedMaxTfNorm(ch), ch.maxScoreFactor)
  }

  /**
   The bound of a written chunk is no larger than it must be.  From frequencies, it is the score
   that the posting of the largest one has in a document of a single word; from norms, it is the
   score of the posting with the largest one.
   */
  lemma {:induction false} BoundIsAttained(sc: Bm25.Scorer, ch: Bm25.Chunk) returns (i: nat)
    requires Bm25.Usable(sc) && Bm25.Written(sc, ch)
    ensures i < |ch.postings|
    ensures !sc.meta.tfNormQ16 ==> Bm25.Score(sc, ch.postings[i], 1) == ChunkBound(sc, ch)
    ensures sc.meta.tfNormQ16 && Bm25.LoadedMaxTfNorm(ch) > 0 ==>
              forall docLen: nat :: Bm25.Score(sc, ch.postings[i], docLen) == ChunkBound(sc, ch)
  {
    var a, b := LargestPosting(ch.postings);
    var tf, norm := Bm25.LoadedMaxTf(ch), Bm25.LoadedMaxTfNorm(ch);
    assert tf == ch.postings[a].tf && norm == ch.postings[b].tfNorm;
    if !sc.meta.tfNormQ16 {
      i := a;
      PlainAttained(sc, ch.postings[a], tf, norm, ch.maxScoreFactor);
    } else {
      i := b;
      if norm > 0 {
        forall docLen: nat
          ensures Bm25.Score(sc, ch.postings[b], docLen) == ChunkBound(sc, ch)
        {
          QuantizedAttained(sc, ch.postings[b], tf, norm, ch.maxScoreFactor, docLen);
        }
      }
    }
  }

  // ----- rarity

  /** One more than the number of documents, over the document frequency and a half. */
  ghost predicate IsRarity(x: real, docs: nat, df: nat) {
    x * (df as real + 0.5) == docs as real + 1.0
  }

  lemma {:induction false} RarityLaw(docs: nat, df: nat)
    ensures IsRarity(Rarity(docs, df), docs, df)
    ensures forall x: real :: IsRarity(x, docs, df) ==> x == Rarity(docs, df)
  {
    var n, d := docs as real - df as real + 0.5, df as real + 0.5;
    QuotientIs(n, d);
    assert (1.0 + n / d) * d == d + n;
    forall x: real | IsRarity(x, docs, df)
      ensures x == Rarity(docs, df)
    {
      OnlyQuotient(x, Rarity(docs, df), d);
    }
  }

  lemma {:induction false} SmallerFactor(x: real, d: real, x': real, d': real, n: real)
    requires x * d == n && x' * d' == n && n > 0.0 && 0.0 < d < d'
    ensures x' < x
  {
    assert x' > 0.0;
    assert x' * d < x' * d';
    assert (x - x') * d > 0.0;
  }

  lemma {:induction false} RarityFalls(docs: nat, df: nat, df': nat)
    requires df < df'
    ensures Rarity(docs, df') < Rarity(docs, df)
  {
    RarityLaw(docs, df);
    RarityLaw(docs, df');
    SmallerFactor(Rarity(docs, df), df as real + 0.5, Rarity(docs, df'), df' as real + 0.5, docs as real + 1.0);
  }

  /** A logarithm that grows. */
  ghost predicate Grows(log: real -> real) {
    forall x, y: real :: 1.0 < x < y ==> log(x) < log(y)
  }

  /** The idf of a term falls strictly as its document frequency grows. */
  lemma {:induction false} IdfFalls(cfg: Settings, s: Snapshot, nodeCount: nat, key: Term, key': Term)
    requires Grows(cfg.log) && Stored(s.base, s.docLens, s.docs, nodeCount) && DocFreq(s, key) < DocFreq(s, key')
    ensures TermIdf(cfg, s, key') < TermIdf(cfg, s, key)
  {
    var docs := CorpusDocs(CountersOf(s));
    DfAtMostDocs(s, nodeCount, key');
    RarityAboveOne(docs, DocFreq(s, key'));
    RarityFalls(docs, DocFreq(s, key), DocFreq(s, key'));
  }

  // ----- counts

  ghost function BaseDocs(s: Snapshot, key: Term): set<nat> {
    set i | 0 <= i < |s.base| && IsTerm(s.base[i], key) :: s.base[i].node
  }

  ghost function DeltaDocs(s: Snapshot, key: Term): set<nat> {
    set x | x in AllSegments(s.docs) && x.bytes == key.bytes && Live(s.live, x.node) :: x.node
  }

  /** The document frequency: the documents of the base with the term, dead or alive, and the live ones of the delta. */
  lemma {:induction false} DocFreqCounts(s: Snapshot, nodeCount: nat, key: Term)
    requires Stored(s.base, s.docLens, s.docs, nodeCount)
    ensures DocFreq(s, key) == |BaseDocs(s, key)| + |DeltaDocs(s, key)|
  {
    var segs, of, node := AllSegments(s.docs), (x: Segment) => x.node, (t: Tuple) => t.node;
    forall i, j | 0 <= i < j < |s.base| && OfTerm(key)(s.base[i]) && OfTerm(key)(s.base[j])
      ensures node(s.base[i]) != node(s.base[j])
    {
      assert SameTerm(s.base[i], s.base[j]);
    }
    CountIsSize(OfTerm(key), node, s.base);
    CountIsSize(LiveOfTerm(key, s.live), of, segs);
    assert Images(OfTerm(key), node, s.base) == BaseDocs(s, key);
    ImagesOfMembers(s, key, of);
  }

  lemma {:induction false} ImagesOfMembers(s: Snapshot, key: Term, of: Segment -> nat)
    requires forall x: Segment :: of(x) == x.node
    ensures Images(LiveOfTerm(key, s.live), of, AllSegments(s.docs)) == DeltaDocs(s, key)
  {
    var segs := AllSegments(s.docs);
    forall n | n in DeltaDocs(s, key)
      ensures n in Images(LiveOfTerm(key, s.live), of, segs)
    {
      var x :| x in segs && x.bytes == key.bytes && Live(s.live, x.node) && x.node == n;
      var i :| 0 <= i < |segs| && segs[i] == x;
      assert LiveOfTerm(key, s.live)(segs[i]);
    }
  }

  /** The number of documents a query reckons with: all stored ones, dead or alive, one at least. */
  ghost predicate IsDocs(docs: nat, s: Snapshot) {
    docs == |s.docLens| + |s.docs| || (docs == 1 && s.docLens == map[] && s.docs == [])
  }

  /** Their average length: that many times it is all their lengths. */
  ghost predicate IsAverage(average: real, docs: nat, s: Snapshot) {
    average * docs as real == (TotalLen(s.docLens) + DocsLen(s.docs)) as real
  }

  lemma {:induction false} CountsOf(s: Snapshot, docs: nat, average: real)
    requires IsDocs(docs, s) && docs > 0 && IsAverage(average, docs, s)
    ensures docs == CorpusDocs(CountersOf(s)) && average == AvgDocLen(CountersOf(s))
  {
    var total := (TotalLen(s.docLens) + DocsLen(s.docs)) as real;
    assert |s.docLens| == 0 <==> s.docLens == map[];
    QuotientIs(total, docs as real);
    OnlyQuotient(average, total / docs as real, docs as real);
  }

  // ----- scores from counts

  /** Number of documents, average length, rarity of a term and norm of a length, as an index defines them. */
  ghost predicate Figures(cfg: Settings, s: Snapshot, key: Term, docLen: nat, docs: nat, average: real, rarity: real,
                          norm: real) {
    && docs > 0 && IsDocs(docs, s) && IsAverage(average, docs, s) && norm >= 0.0
    && IsRarity(rarity, docs, |BaseDocs(s, key)| + |DeltaDocs(s, key)|)
    && IsNorm(norm, cfg.k1, cfg.b, average, docLen)
  }

  lemma {:induction false} FiguresAre(cfg: Settings, s: Snapshot, nodeCount: nat, key: Term, docLen: nat, docs: nat,
                                      average: real, rarity: real, norm: real)
    requires Sane(cfg) && Stored(s.base, s.docLens, s.docs, nodeCount)
    requires Figures(cfg, s, key, docLen, docs, average, rarity, norm)
    ensures TermIdf(cfg, s, key) == cfg.log(rarity)
    ensures Bm25.Norm(MetaOf(cfg, AvgDocLen(CountersOf(s))), docLen) == norm
  {
    CountsOf(s, docs, average);
    DocFreqCounts(s, nodeCount, key);
    RarityLaw(docs, DocFreq(s, key));
    NormIs(MetaOf(cfg, average), docLen, norm);
  }

  lemma {:induction false} NormIs(m: Bm25.Meta, docLen: nat, norm: real)
    requires Bm25.ValidMeta(m) && IsNorm(norm, m.k1, m.b, m.avgDocLen, docLen)
    ensures Bm25.Norm(m, docLen) == norm
  {
    NormLaw(m, docLen);
    OnlyNorm(Bm25.Norm(m, docLen), norm, m.k1, m.b, m.avgDocLen, docLen);
  }

  lemma {:induction false} OnlyNorm(x: real, y: real, k1: real, b: real, average: real, docLen: nat)
    requires IsNorm(x, k1, b, average, docLen) && IsNorm(y, k1, b, average, docLen)
    ensures x == y
  {
    OnlyQuotient(x - k1, y - k1, Bm25.MaxReal(average, 1.0));
  }

  /** There are such figures. */
  lemma {:induction false} FiguresExist(cfg: Settings, s: Snapshot, nodeCount: nat, key: Term, docLen: nat)
    returns (docs: nat, average: real, rarity: real, norm: real)
    requires Sane(cfg) && Stored(s.base, s.docLens, s.docs, nodeCount)
    ensures Figures(cfg, s, key, docLen, docs, average, rarity, norm)
  {
    docs, average := CountsExist(s);
    rarity, norm := Rarity(docs, DocFreq(s, key)), Bm25.Norm(MetaOf(cfg, average), docLen);
    DocFreqCounts(s, nodeCount, key);
    RarityLaw(docs, DocFreq(s, key));
    NormLaw(MetaOf(cfg, average), docLen);
  }

  lemma {:induction false} CountsExist(s: Snapshot) returns (docs: nat, average: real)
    ensures docs > 0 && IsDocs(docs, s) && IsAverage(average, docs, s)
  {
    docs := CorpusDocs(CountersOf(s));
    assert |s.docLens| == 0 <==> s.docLens == map[];
    average := AverageExists(s, docs);
  }

  lemma {:induction false} AverageExists(s: Snapshot, docs: nat) returns (average: real)
    requires docs > 0
    ensures IsAverage(average, docs, s)
  {
    average := Quotient((TotalLen(s.docLens) + DocsLen(s.docs)) as real, docs as real);
  }

  lemma {:induction false} Quotient(a: real, b: real) returns (x: real)
    requires b > 0.0
    ensures x * b == a
  {
    x := a / b;
  }

  /** The share of a frequency that saturates at idf * (k1 + 1). */
  ghost predicate IsScore(score: real, idf: real, tf: nat, norm: real, k1: real) {
    score * (tf as real + norm) == idf * tf as real * (k1 + 1.0)
  }

  /** Without quantized norms, what a term adds to a document that has it, from counts and lengths. */
  lemma {:induction false} ShareLaw(cfg: Settings, s: Snapshot, nodeCount: nat, key: Term, n: nat, tf: nat, docLen: nat,
                                    docs: nat, average: real, rarity: real, norm: real)
    requires Lawful(cfg) && !cfg.quantized && Good(s, nodeCount, s.live) && key.hash == HashTerm(key.bytes)
    requires Posted(s, key, n, tf, docLen) && Figures(cfg, s, key, docLen, docs, average, rarity, norm)
    ensures tf >= 1
    ensures IsScore(ScoredShare(cfg, s, key, n), cfg.log(rarity), tf, norm, cfg.k1)
  {
    PlainShares(cfg, s, nodeCount, s.live, key, n, tf, docLen);
    FiguresAre(cfg, s, nodeCount, key, docLen, docs, average, rarity, norm);
    ScoreIs(MetaOf(cfg, AvgDocLen(CountersOf(s))), tf, docLen, cfg.log(rarity), norm, ScoredShare(cfg, s, key, n));
  }

  lemma {:induction false} ScoreIs(m: Bm25.Meta, tf: nat, docLen: nat, idf: real, norm: real, score: real)
    requires Bm25.ValidMeta(m) && tf >= 1 && Bm25.Norm(m, docLen) == norm && Bm25.PostingScore(m, idf, tf, docLen) == score
    ensures IsScore(score, idf, tf, norm, m.k1)
  {
    PostingScoreLaw(m, idf, tf, docLen);
  }

  // ----- quantized norms

  /** The average length at the last build or compaction: that of its documents, or one. */
  ghost predicate IsBuildAverage(average: real, s: Snapshot) {
    if s.docLens == map[] then average == 1.0 else average * |s.docLens| as real == TotalLen(s.docLens) as real
  }

  lemma {:induction false} BuildAverage(s: Snapshot, average: real)
    requires IsBuildAverage(average, s)
    ensures BuildAvg(CountersOf(s)) == average
  {
    assert |s.docLens| == 0 <==> s.docLens == map[];
    if s.docLens != map[] {
      var total, docs := TotalLen(s.docLens) as real, |s.docLens| as real;
      QuotientIs(total, docs);
      OnlyQuotient(average, total / docs, docs);
    }
  }

  /** The whole number nearest to 65535 times the part of the frequency in frequency and norm. */
  ghost predicate IsQuantized(q: nat, tf: nat, norm: real) {
    -(tf as real + norm) <= 2.0 * (q as real * (tf as real + norm) - 65535.0 * tf as real) <= tf as real + norm
  }

  lemma {:induction false} NearInProducts(q: real, units: real, whole: real, product: real)
    requires -0.5 <= q - units <= 0.5 && whole > 0.0 && units * whole == product
    ensures -whole <= 2.0 * (q * whole - product) <= whole
  {
    var d := q - units;
    assert q * whole - product == whole * d;
    Halved(whole, 0.5 - d);
    Halved(whole, 0.5 + d);
  }

  lemma {:induction false} QuantizedLaw(cfg: Settings, avgDocLen: real, docLen: nat, tf: nat, norm: real)
    requires Sane(cfg) && tf >= 1 && norm >= 0.0 && IsNorm(norm, cfg.k1, cfg.b, avgDocLen, docLen)
    ensures IsQuantized(QuantizeTfNorm(cfg, avgDocLen, docLen, tf), tf, norm)
  {
    NormIs(MetaOf(cfg, avgDocLen), docLen, norm);
    UnitsLaw(cfg, avgDocLen, docLen, tf);
    QuantizedIsNear(cfg, avgDocLen, docLen, tf);
    NearInProducts(QuantizeTfNorm(cfg, avgDocLen, docLen, tf) as real, Units(cfg, avgDocLen, docLen, tf),
                   tf as real + norm, tf as real * 65535.0);
  }

  /** The share of a stored norm. */
  ghost predicate IsStoredScore(score: real, idf: real, q: nat, k1: real) {
    score * 65535.0 == idf * (k1 + 1.0) * q as real
  }

  lemma {:induction false} StoredScoreLaw(cfg: Settings, c: Counters, docLens: map<nat, nat>, idf: real, n: nat,
                                          tf: nat,
                                          q: nat, score: real)
    requires Sane(cfg) && cfg.quantized && idf > 0.0 && tf >= 1 && n in docLens
    requires q == QuantizeTfNorm(cfg, BuildAvg(c), docLens[n], tf)
    requires score == StoredScore(StorageOf(cfg, c, docLens), idf, n, tf, docLens[n])
    ensures IsStoredScore(score, idf, q, cfg.k1)
  {
    PrecomputedLaw(MetaOf(cfg, AvgDocLen(c)), idf, q);
  }

  /**
   With quantized norms, what a term adds to a document of the base: the norm is that of the
   average length at the last build or compaction, the idf that of today's counts.
   */
  lemma {:induction false} StoredShareLaw(cfg: Settings, s: Snapshot, nodeCount: nat, key: Term, n: nat, i: nat,
                                          docs: nat, rarity: real, average: real, norm: real) returns (q: nat)
    requires Lawful(cfg) && cfg.quantized && Good(s, nodeCount, s.live) && SeenBase(s, key, n, i)
    requires docs > 0 && IsDocs(docs, s) && IsRarity(rarity, docs, |BaseDocs(s, key)| + |DeltaDocs(s, key)|)
    requires IsBuildAverage(average, s) && norm >= 0.0 && IsNorm(norm, cfg.k1, cfg.b, average, s.docLens[n])
    ensures IsQuantized(q, s.base[i].tf, norm)
    ensures IsStoredScore(ScoredShare(cfg, s, key, n), cfg.log(rarity), q, cfg.k1)
  {
    var tf := s.base[i].tf;
    assert Proper(s.base[i]) && n in s.docLens.Keys;
    IdfIs(cfg, s, nodeCount, key, docs, rarity);
    BuildAverage(s, average);
    q := QuantizeTfNorm(cfg, average, s.docLens[n], tf);
    QuantizedLaw(cfg, average, s.docLens[n], tf, norm);
    StoredShareIs(cfg, s, nodeCount, key, n, i, cfg.log(rarity), q);
  }

  lemma {:induction false} StoredShareIs(cfg: Settings, s: Snapshot, nodeCount: nat, key: Term, n: nat, i: nat,
                                         idf: real, q: nat)
    requires Lawful(cfg) && cfg.quantized && Good(s, nodeCount, s.live) && SeenBase(s, key, n, i)
    requires TermIdf(cfg, s, key) == idf && n in s.docLens
    requires q == QuantizeTfNorm(cfg, BuildAvg(CountersOf(s)), s.docLens[n], s.base[i].tf)
    ensures IsStoredScore(ScoredShare(cfg, s, key, n), idf, q, cfg.k1)
  {
    var st := StorageIn(cfg, s);
    assert Proper(s.base[i]);
    IdfIsPositive(cfg, s, nodeCount, key);
    BaseShares(s, nodeCount, s.live, st, st, key, idf, idf, n, i);
    StoredScoreLaw(cfg, CountersOf(s), s.docLens, idf, n, s.base[i].tf, q, ScoredShare(cfg, s, key, n));
  }

  lemma {:induction false} IdfIs(cfg: Settings, s: Snapshot, nodeCount: nat, key: Term, docs: nat, rarity: real)
    requires Stored(s.base, s.docLens, s.docs, nodeCount)
    requires docs > 0 && IsDocs(docs, s) && IsRarity(rarity, docs, |BaseDocs(s, key)| + |DeltaDocs(s, key)|)
    ensures TermIdf(cfg, s, key) == cfg.log(rarity)
  {
    assert |s.docLens| == 0 <==> s.docLens == map[];
    DocFreqCounts(s, nodeCount, key);
    RarityLaw(docs, DocFreq(s, key));
  }

  /** A document of the delta is scored from frequency and length, with or without quantized norms. */
  lemma {:induction false} DeltaShareLaw(cfg: Settings, s: Snapshot, nodeCount: nat, key: Term, n: nat, x: Segment,
                                         docs: nat, average: real, rarity: real, norm: real)
    requires Lawful(cfg) && Good(s, nodeCount, s.live) && key.hash == HashTerm(key.bytes) && SeenDelta(s, key, n, x)
    requires Figures(cfg, s, key, x.docLen, docs, average, rarity, norm)
    ensures IsScore(ScoredShare(cfg, s, key, n), cfg.log(rarity), x.tf, norm, cfg.k1)
  {
    var st, idf := StorageIn(cfg, s), TermIdf(cfg, s, key);
    var k, j := SegmentHasDoc(s.docs, x);
    assert ProperDoc(s.docs[k]) && ProperTerm(s.docs[k].terms[j]);
    IdfIsPositive(cfg, s, nodeCount, key);
    DeltaShares(s, nodeCount, s.live, st, st, key, idf, idf, n, x);
    FiguresAre(cfg, s, nodeCount, key, x.docLen, docs, average, rarity, norm);
    ScoreIs(MetaOf(cfg, AvgDocLen(CountersOf(s))), x.tf, x.docLen, cfg.log(rarity), norm, ScoredShare(cfg, s, key, n));
  }

  // ----- documents alike in frequency and length

  lemma {:induction false} MoreIdf(idf: real, idf': real, sat: real)
    requires idf < idf' && sat > 0.0
    ensures idf * sat < idf' * sat
  {
  }

  lemma {:induction false} SaturationIsPositive(tf: real, k: real, norm: real)
    requires tf > 0.0 && k > 0.0 && norm >= 0.0
    ensures Bm25.Saturation(tf, k, norm) > 0.0
  {
    var x := Bm25.Saturation(tf, k, norm);
    assert x * (tf + norm) == tf * k && tf * k > 0.0;
  }

  lemma {:induction false} MoreScore(m: Bm25.Meta, idf: real, idf': real, tf: nat, docLen: nat)
    requires Bm25.ValidMeta(m) && tf >= 1 && idf < idf'
    ensures Bm25.PostingScore(m, idf, tf, docLen) < Bm25.PostingScore(m, idf', tf, docLen)
  {
    var norm := Bm25.Norm(m, docLen);
    SaturationIsPositive(tf as real, m.k1 + 1.0, norm);
    MoreIdf(idf, idf', Bm25.Saturation(tf as real, m.k1 + 1.0, norm));
  }

  /** Of two documents alike in frequency and length, the one with the rarer term is scored higher. */
  lemma {:induction false} RarerScoresMore(cfg: Settings, s: Snapshot, nodeCount: nat, rare: Term, common: Term, m: nat,
                                           n: nat, tf: nat, docLen: nat)
    requires Lawful(cfg) && Grows(cfg.log) && !cfg.quantized && Good(s, nodeCount, s.live)
    requires rare.hash == HashTerm(rare.bytes) && common.hash == HashTerm(common.bytes)
    requires Posted(s, rare, m, tf, docLen) && Posted(s, common, n, tf, docLen) && DocFreq(s, rare) < DocFreq(s, common)
    ensures ScoredShare(cfg, s, common, n) < ScoredShare(cfg, s, rare, m)
  {
    PlainShares(cfg, s, nodeCount, s.live, rare, m, tf, docLen);
    PlainShares(cfg, s, nodeCount, s.live, common, n, tf, docLen);
    IdfFalls(cfg, s, nodeCount, rare, common);
    MoreScore(MetaOf(cfg, AvgDocLen(CountersOf(s))), TermIdf(cfg, s, common), TermIdf(cfg, s, rare), tf, docLen);
  }

  ghost function TermsIn(s: Snapshot, keys: seq<Term>, n: nat): set<nat> {
    set i | 0 <= i < |keys| && InSight(SeenIn(s), keys[i].bytes, n)
  }

  lemma {:induction false} ShareOutOfSight(cfg: Settings, s: Snapshot, nodeCount: nat, key: Term, n: nat)
    requires Stored(s.base, s.docLens, s.docs, nodeCount) && key.hash == HashTerm(key.bytes)
    requires !InSight(SeenIn(s), key.bytes, n)
    ensures ScoredShare(cfg, s, key, n) == 0.0
  {
    SeenInBase(s.base, s.docLens, s.live, key, n);
    assert forall tf: nat :: Triple(key.bytes, n, tf) in BaseVisible(s.base, s.docLens, s.live) ==> Triple(key.bytes, n, tf) in SeenIn(s);
    assert forall i: nat :: !SeenBase(s, key, n, i);
    forall x
      ensures !SeenDelta(s, key, n, x)
    {
      assert x in AllSegments(s.docs) && x.bytes == key.bytes && x.node == n && Live(s.live, n) ==>
          Triple(key.bytes, n, x.tf) in SeenIn(s);
    }
    NoShare(s, StorageIn(cfg, s), key, TermIdf(cfg, s, key), n);
  }

  /** The score of an answer: the sum of what the terms add, nothing for those it does not have. */
  lemma {:induction false} AnswerScore(cfg: Settings, s: Snapshot, nodeCount: nat, keys: seq<Term>, matcher: Matcher,
                                       x: Accumulator.NodeScore)
    requires Stored(s.base, s.docLens, s.docs, nodeCount) && Hashes(keys)
    requires x in ScoredAnswers(cfg, s, keys, matcher)
    ensures Matched(matcher, TermsIn(s, keys, x.node)) && TermsIn(s, keys, x.node) != {}
    ensures x.score == Sum(seq(|keys|, i requires 0 <= i < |keys| => ScoredShare(cfg, s, keys[i], x.node)))
    ensures forall i :: 0 <= i < |keys| && i !in TermsIn(s, keys, x.node) ==> ScoredShare(cfg, s, keys[i], x.node) == 0.0
  {
    var t := QueryOf(cfg, s, keys, NoPages(keys));
    assert TermsOf(s, t, x.node) == TermsIn(s, keys, x.node);
    assert TermShares(s, StorageIn(cfg, s), t, x.node) == seq(|keys|, i requires 0 <= i < |keys| => ScoredShare(cfg, s, keys[i], x.node));
    forall i | 0 <= i < |keys| && i !in TermsIn(s, keys, x.node)
      ensures ScoredShare(cfg, s, keys[i], x.node) == 0.0
    {
      ShareOutOfSight(cfg, s, nodeCount, keys[i], x.node);
    }
  }

  lemma {:induction false} SumOfOne(fs: seq<real>, i: nat)
    requires i < |fs| && forall j :: 0 <= j < |fs| && j != i ==> fs[j] == 0.0
    ensures Sum(fs) == fs[i]
  {
    SumUpdate(fs, i, 0.0);
    SumZero(fs[i := 0.0]);
  }

  /** An answer with one of the terms alone has the score of that term. */
  lemma {:induction false} OneTermScore(cfg: Settings, s: Snapshot, nodeCount: nat, keys: seq<Term>, matcher: Matcher,
                                        x: Accumulator.NodeScore, i: nat)
    requires Stored(s.base, s.docLens, s.docs, nodeCount) && Hashes(keys) && i < |keys|
    requires x in ScoredAnswers(cfg, s, keys, matcher) && TermsIn(s, keys, x.node) == {i}
    ensures x.score == ScoredShare(cfg, s, keys[i], x.node)
  {
    AnswerScore(cfg, s, nodeCount, keys, matcher, x);
    SumOfOne(seq(|keys|, j requires 0 <= j < |keys| => ScoredShare(cfg, s, keys[j], x.node)), i);
  }

  /**
   Of two answers with one term each, alike in frequency and length, the one with the rarer term
   comes first: wherever the other is among the k best, it is listed before it.
   */
  lemma {:induction false} RarerPrecedes(cfg: Settings, s: Snapshot, nodeCount: nat, keys: seq<Term>, matcher: Matcher,
                                         x: Accumulator.NodeScore, y: Accumulator.NodeScore, i: nat, j: nat,
                                         tf: nat, docLen: nat)
    requires Lawful(cfg) && Grows(cfg.log) && !cfg.quantized && Good(s, nodeCount, s.live) && Hashes(keys)
    requires x in ScoredAnswers(cfg, s, keys, matcher) && y in ScoredAnswers(cfg, s, keys, matcher)
    requires i < |keys| && j < |keys| && TermsIn(s, keys, x.node) == {i} && TermsIn(s, keys, y.node) == {j}
    requires Posted(s, keys[i], x.node, tf, docLen) && Posted(s, keys[j], y.node, tf, docLen)
    requires DocFreq(s, keys[i]) < DocFreq(s, keys[j])
    ensures x.score > y.score
    ensures forall k, top :: IsTopK(Accumulator.Before, ScoredAnswers(cfg, s, keys, matcher), k, top) ==> Precedes(top, x, y)
  {
    OneTermScore(cfg, s, nodeCount, keys, matcher, x, i);
    OneTermScore(cfg, s, nodeCount, keys, matcher, y, j);
    RarerScoresMore(cfg, s, nodeCount, keys[i], keys[j], x.node, y.node, tf, docLen);
    forall k, top | IsTopK(Accumulator.Before, ScoredAnswers(cfg, s, keys, matcher), k, top)
      ensures Precedes(top, x, y)
    {
      ResultOrder(cfg, s, keys, matcher, k, top);
    }
  }

  /** Wherever y is listed, x is listed before it. */
  ghost predicate Precedes<T>(r: seq<T>, x: T, y: T) {
    forall j :: 0 <= j < |r| && r[j] == y ==> exists i :: 0 <= i < j && r[i] == x
  }

  // ----- the order of answers

  /** By score downwards, at equal scores by node upwards, each node once, and nothing better left out. */
  ghost predicate BestFirst(S: set<Accumulator.NodeScore>, k: nat, top: seq<Accumulator.NodeScore>) {
    && (|top| == k || (|top| < k && |top| == |S|)) && (forall i :: 0 <= i < |top| ==> top[i] in S)
    && (forall i, j :: 0 <= i < j < |top| ==>
          top[i].score > top[j].score || (top[i].score == top[j].score && top[i].node < top[j].node))
    && forall i, y :: 0 <= i < |top| && y in S && y !in top ==>
         top[i].score > y.score || (top[i].score == y.score && top[i].node < y.node)
  }

  lemma {:induction false} AnswersAreTotal(S: set<Accumulator.NodeScore>)
    requires forall x, y :: x in S && y in S && x.node == y.node ==> x == y
    ensures TotalOn(Accumulator.Before, S)
  {
  }

  lemma {:induction false} BestComeFirst(S: set<Accumulator.NodeScore>, k: nat, top: seq<Accumulator.NodeScore>)
    requires TotalOn(Accumulator.Before, S) && IsTopK(Accumulator.Before, S, k, top)
    ensures BestFirst(S, k, top)
    ensures forall x, y :: x in S && y in S && x.score > y.score ==> Precedes(top, x, y)
  {
    Accumulator.BeforeIsWeakOrder();
    TopKInOrder(Accumulator.Before, S, k, top);
    forall x, y | x in S && y in S && x.score > y.score
      ensures Precedes(top, x, y)
    {
      forall j | 0 <= j < |top| && top[j] == y
        ensures exists i :: 0 <= i < j && top[i] == x
      {
        var i := BetterIsListed(Accumulator.Before, S, k, top, x, j);
      }
    }
  }

  /** The k best answers of an index come by score, then node, and nothing better is left out. */
  lemma {:induction false} ResultOrder(cfg: Settings, s: Snapshot, keys: seq<Term>, matcher: Matcher, k: nat,
                                       top: seq<Accumulator.NodeScore>)
    requires IsTopK(Accumulator.Before, ScoredAnswers(cfg, s, keys, matcher), k, top)
    ensures BestFirst(ScoredAnswers(cfg, s, keys, matcher), k, top)
    ensures var S := ScoredAnswers(cfg, s, keys, matcher);
            forall x, y :: x in S && y in S && x.score > y.score ==> Precedes(top, x, y)
  {
    AnswersAreTotal(ScoredAnswers(cfg, s, keys, matcher));
    BestComeFirst(ScoredAnswers(cfg, s, keys, matcher), k, top);
  }
}
