/** BM25 posting scores and chunk bounds, in exact arithmetic. */
module Bm25Scoring {
  import opened Integers
  import PL = PostingLists
  import Codec = PostingsCodec

  /** A posting as stored: the tf norm is present when the meta flag says so. */
  type Posting = Codec.Posting

  /** A stored chunk: its postings and the summary fields of its header. */
  datatype Chunk = Chunk(postings: seq<Posting>, lastNode: nat, maxTf: nat, maxTfNorm: nat, maxScoreFactor: real)

  /** tfNormQ16 is the meta flag that says postings carry a quantized tf norm. */
  datatype Meta = Meta(k1: real, b: real, avgDocLen: real, tfNormQ16: bool)

  ghost predicate ValidMeta(m: Meta) {
    m.k1 >= 0.0 && 0.0 <= m.b <= 1.0
  }

  function MaxReal(x: real, y: real): real { if x >= y then x else y }

  // ----- scores

  function Norm(m: Meta, docLen: nat): (norm: real)
    requires ValidMeta(m)
    ensures norm >= 0.0
  {
    var rel := MaxReal(docLen as real, 1.0) / MaxReal(m.avgDocLen, 1.0);
    NormIsPositive(m.k1, m.b, rel);
    m.k1 * (1.0 - m.b + m.b * rel)
  }

  lemma {:induction false} NormIsPositive(k1: real, b: real, rel: real)
    requires k1 >= 0.0 && 0.0 <= b <= 1.0 && rel >= 0.0
    ensures k1 * (1.0 - b + b * rel) >= 0.0
  {
    assert b * rel >= 0.0;
  }

  /** The saturating term-frequency factor of BM25. */
  function Saturation(tf: real, k: real, norm: real): real
    requires tf > 0.0 && norm >= 0.0
  {
    (tf * k) / (tf + norm)
  }

  function PostingScore(m: Meta, idf: real, tf: nat, docLen: nat): real
    requires ValidMeta(m) && tf >= 1
  {
    idf * Saturation(tf as real, m.k1 + 1.0, Norm(m, docLen))
  }

  function Scale(m: Meta): real { MaxReal(m.k1 + 1.0, 1.0) }

  function PrecomputedScore(m: Meta, idf: real, tfNorm: nat): real {
    idf * Scale(m) * (tfNorm as real / UINT16_MAX as real)
  }

  function ScoreDecoded(m: Meta, idf: real, p: Posting, docLen: nat): real
    requires ValidMeta(m) && p.tf >= 1
  {
    if m.tfNormQ16 then PrecomputedScore(m, idf, p.tfNorm) else PostingScore(m, idf, p.tf, docLen)
  }

  /** A document of length one has the smallest norm, hence the largest contribution. */
  function BlockUpperBound(m: Meta, idf: real, maxTf: nat): real
    requires ValidMeta(m) && maxTf >= 1
  {
    PostingScore(m, idf, maxTf, 1)
  }

  function UpperBound(m: Meta, idf: real, maxTf: nat, maxTfNorm: nat, maxScoreFactor: real): real
    requires ValidMeta(m) && maxTf >= 1
  {
    if m.tfNormQ16 && maxTfNorm > 0 then QuantizedBound(m, idf, maxTfNorm, maxScoreFactor)
    else
      BlockUpperBound(m, idf, maxTf)
  }

  // ----- the bound of a chunk covers its postings

  lemma {:induction false} CrossMultiply(a: real, b: real, c: real, d: real)
    requires b > 0.0 && d > 0.0 && a * d <= c * b
    ensures a / b <= c / d
  {
    assert (c / d - a / b) * (b * d) == c * b - a * d;
    assert b * d > 0.0;
  }

  lemma {:induction false} SaturationMonotone(tf: real, maxTf: real, norm: real, norm1: real, k: real)
    requires 1.0 <= tf <= maxTf && 0.0 <= norm1 <= norm && k >= 0.0
    ensures 0.0 <= Saturation(tf, k, norm) <= Saturation(maxTf, k, norm1)
  {
    assert tf * k <= maxTf * k;
    assert (tf * k) * norm1 <= (maxTf * k) * norm;
    CrossMultiply(tf * k, tf + norm, maxTf * k, maxTf + norm1);
    CrossMultiply(0.0, 1.0, tf * k, tf + norm);
  }

  lemma {:induction false} ScaledMonotone(idf: real, x: real, y: real)
    requires idf >= 0.0 && 0.0 <= x <= y
    ensures 0.0 <= idf * x <= idf * y
  {
  }

  lemma {:induction false} ShorterHasSmallerNorm(m: Meta, docLen: nat)
    requires ValidMeta(m)
    ensures Norm(m, 1) <= Norm(m, docLen)
  {
    var one, len, avg := MaxReal(1 as real, 1.0), MaxReal(docLen as real, 1.0), MaxReal(m.avgDocLen, 1.0);
    CrossMultiply(one, avg, len, avg);
    CrossMultiply(0.0, 1.0, one, avg);
    ScaledMonotone(m.b, one / avg, len / avg);
    ScaledMonotone(m.k1, 1.0 - m.b + m.b * (one / avg), 1.0 - m.b + m.b * (len / avg));
  }

  lemma {:induction false} PrecomputedMonotone(m: Meta, idf: real, q: nat, q': nat)
    requires idf >= 0.0 && q <= q'
    ensures 0.0 <= PrecomputedScore(m, idf, q) <= PrecomputedScore(m, idf, q')
    ensures PrecomputedScore(m, idf, q') == idf * (Scale(m) * (q' as real / UINT16_MAX as real))
  {
    assert q as real / UINT16_MAX as real <= q' as real / UINT16_MAX as real;
    ScaledMonotone(idf * Scale(m), q as real / UINT16_MAX as real, q' as real / UINT16_MAX as real);
  }

  lemma {:induction false} PostingScoreMonotone(m: Meta, idf: real, tf: nat, maxTf: nat, docLen: nat)
    requires ValidMeta(m) && idf >= 0.0 && 1 <= tf <= maxTf
    ensures 0.0 <= PostingScore(m, idf, tf, docLen) <= BlockUpperBound(m, idf, maxTf)
  {
    ShorterHasSmallerNorm(m, docLen);
    var k, n, n1 := m.k1 + 1.0, Norm(m, docLen), Norm(m, 1);
    SaturationMonotone(tf as real, maxTf as real, n, n1, k);
    ScaledMonotone(idf, Saturation(tf as real, k, n), Saturation(maxTf as real, k, n1));
  }

  lemma {:induction false} PrecomputedZero(m: Meta, idf: real)
    ensures PrecomputedScore(m, idf, 0) == 0.0
  {
  }

  function QuantizedBound(m: Meta, idf: real, maxTfNorm: nat, maxScoreFactor: real): real {
    if maxScoreFactor > 0.0 then idf * maxScoreFactor else PrecomputedScore(m, idf, maxTfNorm)
  }

  lemma {:induction false} QuantizedBoundHolds(m: Meta, idf: real, q: nat, maxQ: nat, factor: real)
    requires idf >= 0.0 && q <= maxQ
    requires factor == 0.0 || factor == Scale(m) * (maxQ as real / UINT16_MAX as real)
    ensures 0.0 <= PrecomputedScore(m, idf, q) <= QuantizedBound(m, idf, maxQ, factor)
  {
    PrecomputedMonotone(m, idf, q, maxQ);
  }

  lemma {:induction false} BoundHolds(m: Meta, idf: real, p: Posting, docLen: nat, tf: nat, norm: nat, factor: real)
    requires ValidMeta(m) && idf >= 0.0 && 1 <= p.tf <= tf && p.tfNorm <= norm
    requires factor == 0.0 || factor == Scale(m) * (norm as real / UINT16_MAX as real)
    ensures 0.0 <= ScoreDecoded(m, idf, p, docLen) <= UpperBound(m, idf, tf, norm, factor)
  {
    if !m.tfNormQ16 {
      PostingScoreMonotone(m, idf, p.tf, tf, docLen);
    } else if norm > 0 {
      QuantizedBoundHolds(m, idf, p.tfNorm, norm, factor);
    } else {
      PrecomputedZero(m, idf);
      PostingScoreMonotone(m, idf, tf, tf, 1);
    }
  }

  /** How one term is scored in an index. */
  datatype Scorer = Scorer(meta: Meta, idf: real)

  predicate Usable(sc: Scorer) {
    sc.meta.k1 >= 0.0 && 0.0 <= sc.meta.b <= 1.0 && sc.idf >= 0.0
  }

  /** The contribution of a posting in a document of the given length. */
  function Score(sc: Scorer, p: Posting, docLen: nat): real {
    if Usable(sc) && p.tf >= 1 then ScoreDecoded(sc.meta, sc.idf, p, docLen) else 0.0
  }

  /** The bound computed from a chunk's summary fields. */
  function Bound(sc: Scorer, maxTf: nat, maxTfNorm: nat, maxScoreFactor: real): real {
    if Usable(sc) && maxTf >= 1 then UpperBound(sc.meta, sc.idf, maxTf, maxTfNorm, maxScoreFactor) else 0.0
  }

  /** The stored score factor is missing, or that of the largest norm. */
  ghost predicate FactorFits(m: Meta, maxTfNorm: nat, factor: real) {
    factor == 0.0 || factor == Scale(m) * (maxTfNorm as real / UINT16_MAX as real)
  }

  /** In exact arithmetic no posting scores above a bound computed from larger maxima. */
  lemma {:induction false} BoundCovers(sc: Scorer, p: Posting, docLen: nat, maxTf: nat, maxTfNorm: nat, factor: real)
    requires Usable(sc) && 1 <= p.tf <= maxTf && p.tfNorm <= maxTfNorm
    requires FactorFits(sc.meta, maxTfNorm, factor)
    ensures 0.0 <= Score(sc, p, docLen) <= Bound(sc, maxTf, maxTfNorm, factor)
  {
    BoundHolds(sc.meta, sc.idf, p, docLen, maxTf, maxTfNorm, factor);
  }

  /** The maxima an iterator works with: stored ones, or recomputed when the header has none. */
  function LoadedMaxTf(ch: Chunk): nat { if ch.maxTf == 0 then Codec.MaxTf(ch.postings) else ch.maxTf }
  function LoadedMaxTfNorm(ch: Chunk): nat { if ch.maxTfNorm == 0 then Codec.MaxNorm(ch.postings) else ch.maxTfNorm }

  /** A chunk as the writer leaves it, summary fields present or (in old tuples) zero. */
  ghost predicate Written(sc: Scorer, ch: Chunk) {
    && ch.postings != []
    && ch.lastNode == ch.postings[|ch.postings| - 1].node
    && (forall i, j :: 0 <= i < j < |ch.postings| ==> ch.postings[i].node < ch.postings[j].node)
    && (forall i :: 0 <= i < |ch.postings| ==> ch.postings[i].tf >= 1)
    && (ch.maxTf == 0 || ch.maxTf == Codec.MaxTf(ch.postings))
    && (ch.maxTfNorm == 0 || ch.maxTfNorm == Codec.MaxNorm(ch.postings))
    && FactorFits(sc.meta, LoadedMaxTfNorm(ch), ch.maxScoreFactor)
  }

  /** A document's length, where the node is known. */
  function DocLen(c: PL.Corpus, node: nat): nat {
    if node < |c.docLens| then c.docLens[node] else 0
  }

  /** A stored chunk as the query sees it: each posting with its contribution, and the chunk's bound. */
  function Scored(sc: Scorer, c: PL.Corpus, ch: Chunk): PL.Chunk {
    PL.Chunk(seq(|ch.postings|, i requires 0 <= i < |ch.postings| =>
                   PL.Posting(ch.postings[i].node, Score(sc, ch.postings[i], DocLen(c, ch.postings[i].node)))),
             ch.lastNode,
             Bound(sc, LoadedMaxTf(ch), LoadedMaxTfNorm(ch), ch.maxScoreFactor))
  }

  lemma {:induction false} PostingCovered(sc: Scorer, ch: Chunk, i: nat, docLen: nat)
    requires Usable(sc) && Written(sc, ch) && i < |ch.postings|
    ensures 0.0 <= Score(sc, ch.postings[i], docLen) <= Bound(sc, LoadedMaxTf(ch), LoadedMaxTfNorm(ch), ch.maxScoreFactor)
  {
    var p, tf, norm := ch.postings[i], LoadedMaxTf(ch), LoadedMaxTfNorm(ch);
    assert 1 <= p.tf <= tf && p.tfNorm <= norm;
    BoundCovers(sc, p, docLen, tf, norm, ch.maxScoreFactor);
  }

  /** In exact arithmetic the bound of every written chunk covers the contributions in it. */
  lemma {:induction false} WrittenIsValid(sc: Scorer, c: PL.Corpus, ch: Chunk)
    requires Usable(sc) && Written(sc, ch)
    ensures PL.ValidChunk(Scored(sc, c, ch))
  {
    forall i | 0 <= i < |ch.postings|
      ensures 0.0 <= Scored(sc, c, ch).postings[i].score <= Scored(sc, c, ch).bound
    {
      PostingCovered(sc, ch, i, DocLen(c, ch.postings[i].node));
    }
  }
}
