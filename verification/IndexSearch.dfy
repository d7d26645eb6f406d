/**
 Searching a stored index: the lexicon of a compacted base and the delta give the lists of the
 query terms, and these show exactly the postings a query sees.
 */
module IndexSearch {
  import opened Sequences
  import opened Integers
  import opened Ranking
  import opened TermTuples
  import opened DeltaStore
  import opened Compaction
  import opened Wand
  import opened Sums
  import opened QueryEval
  import opened StoredIndex
  import Codec = PostingsCodec
  import Exhaustive
  import TopKSearch

  // ----- the postings of a term

  predicate IsTerm(t: Tuple, key: Term) {
    t.hash == key.hash && t.bytes == key.bytes
  }

  function TermPostings(s: seq<Tuple>, key: Term): seq<Posting> {
    if s == [] then []
    else (if IsTerm(s[0], key) then [Posting(s[0].node, s[0].tf)] else []) + TermPostings(s[1..], key)
  }

  /** The chunks of the term's lexicon entry; none when the term is not in the lexicon. */
  function ChunksOf(lexicon: seq<Entry>, key: Term): seq<seq<Posting>> {
    if lexicon == [] then []
    else if lexicon[0].hash == key.hash && lexicon[0].bytes == key.bytes then lexicon[0].chunks
    else ChunksOf(lexicon[1..], key)
  }

  lemma {:induction false} TermPostingsSplit(a: seq<Tuple>, b: seq<Tuple>, key: Term)
    ensures TermPostings(a + b, key) == TermPostings(a, key) + TermPostings(b, key)
  {
    if a == [] {
      assert a + b == b;
    } else {
      assert (a + b)[1..] == a[1..] + b;
      TermPostingsSplit(a[1..], b, key);
    }
  }

  lemma {:induction false} GroupPostings(g: seq<Tuple>, key: Term)
    requires forall i :: 0 <= i < |g| ==> IsTerm(g[i], key)
    ensures TermPostings(g, key) == Postings(g)
  {
    if g != [] {
      GroupPostings(g[1..], key);
    }
  }

  lemma {:induction false} NoPostings(g: seq<Tuple>, key: Term)
    requires forall i :: 0 <= i < |g| ==> !IsTerm(g[i], key)
    ensures TermPostings(g, key) == []
  {
    if g != [] {
      NoPostings(g[1..], key);
    }
  }

  /** In sorted tuples a term does not come back after its group. */
  lemma {:induction false} GroupIsWhole(s: seq<Tuple>, n: nat, i: nat)
    requires Sorted(Before, s) && s != [] && n == GroupLength(s, 1) && n <= i < |s|
    ensures !SameTerm(s[0], s[i])
  {
    TermOrder(s[0], s[n], s[i]);
    assert !Before(s[n], s[0]);
    if i > n {
      assert !Before(s[i], s[n]);
    }
  }

  lemma {:induction false} SortedTail(s: seq<Tuple>, n: nat)
    requires Sorted(Before, s) && n <= |s|
    ensures Sorted(Before, s[n..])
  {
  }

  /** The postings of the first group, if it is the term's, are all of them. */
  lemma {:induction false} FirstGroup(s: seq<Tuple>, key: Term, n: nat)
    requires Sorted(Before, s) && s != [] && n == GroupLength(s, 1)
    ensures TermPostings(s, key) == if IsTerm(s[0], key) then Postings(s[..n]) else TermPostings(s[n..], key)
  {
    var g, rest := s[..n], s[n..];
    assert s == g + rest;
    TermPostingsSplit(g, rest, key);
    assert forall i :: 0 <= i < |g| ==> SameTerm(s[0], g[i]);
    if IsTerm(s[0], key) {
      GroupPostings(g, key);
      forall i | 0 <= i < |rest|
        ensures !IsTerm(rest[i], key)
      {
        GroupIsWhole(s, n, n + i);
      }
      NoPostings(rest, key);
    } else {
      NoPostings(g, key);
    }
  }

  lemma {:induction false} FirstEntry(s: seq<Tuple>, size: nat, key: Term, n: nat)
    requires s != [] && size > 0 && n == GroupLength(s, 1)
    ensures ChunksOf(Lexicon(s, size), key) ==
            if IsTerm(s[0], key) then Chunked(Postings(s[..n]), size) else ChunksOf(Lexicon(s[n..], size), key)
  {
    var lex := [EntryOf(s[..n], size)] + Lexicon(s[n..], size);
    assert Lexicon(s, size) == lex && lex[1..] == Lexicon(s[n..], size);
  }

  /** Looking a term up in the written lexicon gives its postings, in non-empty chunks. */
  lemma {:induction false} LexiconFinds(s: seq<Tuple>, size: nat, key: Term)
    requires Sorted(Before, s) && size > 0
    ensures var cs := ChunksOf(Lexicon(s, size), key);
            Flatten(cs) == TermPostings(s, key) && forall c :: 0 <= c < |cs| ==> cs[c] != []
    decreases |s|
  {
    if s != [] {
      var n := GroupLength(s, 1);
      FirstGroup(s, key, n);
      FirstEntry(s, size, key, n);
      SortedTail(s, n);
      LexiconFinds(s[n..], size, key);
      ChunkedFlattens(Postings(s[..n]), size);
    }
  }

  /** Where a posting of the term comes from. */
  lemma {:induction false} PostingOrigin(s: seq<Tuple>, key: Term, a: nat) returns (i: nat)
    requires a < |TermPostings(s, key)|
    ensures i < |s| && IsTerm(s[i], key) && TermPostings(s, key)[a] == Posting(s[i].node, s[i].tf)
  {
    if IsTerm(s[0], key) && a == 0 {
      i := 0;
    } else {
      var j := PostingOrigin(s[1..], key, if IsTerm(s[0], key) then a - 1 else a);
      i := j + 1;
    }
  }

  lemma {:induction false} TupleListed(s: seq<Tuple>, key: Term, i: nat) returns (a: nat)
    requires i < |s| && IsTerm(s[i], key)
    ensures a < |TermPostings(s, key)| && TermPostings(s, key)[a] == Posting(s[i].node, s[i].tf)
  {
    if i == 0 {
      a := 0;
    } else {
      var b := TupleListed(s[1..], key, i - 1);
      a := if IsTerm(s[0], key) then b + 1 else b;
    }
  }

  lemma {:induction false} FirstIsLeast(s: seq<Tuple>, j: nat)
    requires Sorted(Before, s) && DistinctKeys(s) && 0 < j < |s| && SameTerm(s[0], s[j])
    ensures s[0].node < s[j].node
  {
    assert !Before(s[j], s[0]);
  }

  /** The postings of a term come by strictly increasing node. */
  lemma {:induction false} TermAscends(s: seq<Tuple>, key: Term, a: nat, b: nat)
    requires Sorted(Before, s) && DistinctKeys(s) && a < b < |TermPostings(s, key)|
    ensures TermPostings(s, key)[a].node < TermPostings(s, key)[b].node
  {
    SortedTail(s, 1);
    if !IsTerm(s[0], key) {
      TermAscends(s[1..], key, a, b);
    } else if a > 0 {
      TermAscends(s[1..], key, a - 1, b - 1);
    } else {
      var j := PostingOrigin(s[1..], key, b - 1);
      FirstIsLeast(s, j + 1);
    }
  }

  /** The document frequency of the term's lexicon entry. */
  function DfOf(lexicon: seq<Entry>, key: Term): nat {
    if lexicon == [] then 0
    else if lexicon[0].hash == key.hash && lexicon[0].bytes == key.bytes then lexicon[0].df
    else DfOf(lexicon[1..], key)
  }

  lemma {:induction false} FirstDf(s: seq<Tuple>, size: nat, key: Term, n: nat)
    requires s != [] && size > 0 && n == GroupLength(s, 1)
    ensures DfOf(Lexicon(s, size), key) == if IsTerm(s[0], key) then Df(s[..n]) else DfOf(Lexicon(s[n..], size), key)
  {
    var lex := [EntryOf(s[..n], size)] + Lexicon(s[n..], size);
    assert Lexicon(s, size) == lex && lex[1..] == Lexicon(s[n..], size);
  }

  lemma {:induction false} GroupDf(s: seq<Tuple>, n: nat)
    requires s != [] && n == GroupLength(s, 1) && DistinctKeys(s) && forall i :: 0 <= i < |s| ==> s[i].node < UINT32_MAX
    ensures Df(s[..n]) == n
  {
    var g := s[..n];
    assert forall i :: 0 <= i < |g| ==> SameTerm(g[i], g[0]);
    DfCounts(g);
  }

  /** The document frequency found in the lexicon is the number of the term's postings. */
  lemma {:induction false} LexiconCounts(s: seq<Tuple>, size: nat, key: Term)
    requires Sorted(Before, s) && DistinctKeys(s) && size > 0 && forall i :: 0 <= i < |s| ==> s[i].node < UINT32_MAX
    ensures DfOf(Lexicon(s, size), key) == |TermPostings(s, key)|
    decreases |s|
  {
    if s != [] {
      var n := GroupLength(s, 1);
      FirstGroup(s, key, n);
      FirstDf(s, size, key, n);
      GroupDf(s, n);
      SortedTail(s, n);
      LexiconCounts(s[n..], size, key);
    }
  }

  // ----- as stored

  /** How the index is stored: its norms by node and frequency, and what it takes to score a term. */
  datatype Storage = Storage(meta: Bm25.Meta, norm: (nat, nat) -> nat, chunkSize: nat)

  function ToCodec(ps: seq<Posting>, norm: (nat, nat) -> nat): (cs: seq<Codec.Posting>)
    ensures |cs| == |ps| && forall i :: 0 <= i < |ps| ==> cs[i] == Codec.Posting(ps[i].node, ps[i].tf, norm(ps[i].node, ps[i].tf))
  {
    seq(|ps|, i requires 0 <= i < |ps| => Codec.Posting(ps[i].node, ps[i].tf, norm(ps[i].node, ps[i].tf)))
  }

  function AllToCodec(chunks: seq<seq<Posting>>, norm: (nat, nat) -> nat): (cs: seq<seq<Codec.Posting>>)
    ensures |cs| == |chunks| && forall i :: 0 <= i < |chunks| ==> cs[i] == ToCodec(chunks[i], norm)
  {
    seq(|chunks|, i requires 0 <= i < |chunks| => ToCodec(chunks[i], norm))
  }

  lemma {:induction false} CodecFlattens(chunks: seq<seq<Posting>>, norm: (nat, nat) -> nat)
    ensures Flatten(AllToCodec(chunks, norm)) == ToCodec(Flatten(chunks), norm)
  {
    if chunks != [] {
      CodecFlattens(chunks[1..], norm);
      assert AllToCodec(chunks, norm)[1..] == AllToCodec(chunks[1..], norm);
      assert ToCodec(chunks[0] + Flatten(chunks[1..]), norm) == ToCodec(chunks[0], norm) + ToCodec(Flatten(chunks[1..]), norm);
    }
  }

  /** Nodes, frequencies and norms fit their fields. */
  ghost predicate Fits(base: seq<Tuple>, st: Storage) {
    forall i :: 0 <= i < |base| ==>
      base[i].tf >= 1 && Codec.FieldsFit(Codec.Posting(base[i].node, base[i].tf, st.norm(base[i].node, base[i].tf)), st.meta.tfNormQ16)
  }

  /** The pages written for a term of the lexicon. */
  ghost predicate TermStored(base: seq<Tuple>, st: Storage, key: Term, pages: seq<HotCache.Page>)
    requires st.chunkSize > 0
  {
    PagesHold(pages, AllToCodec(ChunksOf(Lexicon(base, st.chunkSize), key), st.norm), st.meta, st.meta.tfNormQ16)
  }

  /** The stored postings of a term: in order, within their fields, and those of the sorted base. */
  lemma {:induction false} StoredPostings(base: seq<Tuple>, st: Storage, key: Term)
    requires Sorted(Before, base) && DistinctKeys(base) && Fits(base, st) && st.chunkSize > 0
    ensures var ps := Flatten(AllToCodec(ChunksOf(Lexicon(base, st.chunkSize), key), st.norm));
            ps == ToCodec(TermPostings(base, key), st.norm) && Ascends(ps) && Writable(ps, st.meta.tfNormQ16)
  {
    var ts := TermPostings(base, key);
    var ps := ToCodec(ts, st.norm);
    CodecFlattens(ChunksOf(Lexicon(base, st.chunkSize), key), st.norm);
    LexiconFinds(base, st.chunkSize, key);
    forall a, b | 0 <= a < b < |ps|
      ensures ps[a].node < ps[b].node
    {
      TermAscends(base, key, a, b);
    }
    forall a | 0 <= a < |ps|
      ensures Codec.FieldsFit(ps[a], st.meta.tfNormQ16) && ps[a].tf >= 1
    {
      var i := PostingOrigin(base, key, a);
    }
  }

  /** Lengths and liveness by node, as a query reads them. */
  function CorpusOf(docLens: map<nat, nat>, live: seq<bool>): PL.Corpus {
    PL.Corpus(seq(|live|, n requires 0 <= n < |live| => if n in docLens then docLens[n] else 0), live)
  }

  /** The list shows the term in exactly the documents in which a query sees it. */
  ghost predicate ShowsTerm(l: seq<Live>, key: Term, seen: set<Triple>) {
    forall n: nat :: Has(l, n) <==> InSight(seen, key.bytes, n)
  }

  ghost predicate InSight(seen: set<Triple>, bytes: seq<nat>, n: nat) {
    exists tf: nat :: Triple(bytes, n, tf) in seen
  }

  ghost predicate SeenAt(base: seq<Tuple>, docLens: map<nat, nat>, live: seq<bool>, key: Term, n: nat, i: nat) {
    i < |base| && IsTerm(base[i], key) && base[i].node == n && BaseSees(live, docLens, base[i])
  }

  /** A posting in sight is one of the base. */
  lemma {:induction false} SeenInBase(base: seq<Tuple>, docLens: map<nat, nat>, live: seq<bool>, key: Term, n: nat)
    requires (forall i :: 0 <= i < |base| ==> Proper(base[i])) && key.hash == HashTerm(key.bytes)
    ensures InSight(BaseVisible(base, docLens, live), key.bytes, n) <==> exists i :: 0 <= i < |base| && SeenAt(base, docLens, live, key, n, i)
  {
    if InSight(BaseVisible(base, docLens, live), key.bytes, n) {
      var tf: nat :| Triple(key.bytes, n, tf) in BaseVisible(base, docLens, live);
      var t :| t in base && BaseSees(live, docLens, t) && Triple(t.bytes, t.node, t.tf) == Triple(key.bytes, n, tf);
      var i :| 0 <= i < |base| && base[i] == t;
      assert SeenAt(base, docLens, live, key, n, i);
    }
    if i :| 0 <= i < |base| && SeenAt(base, docLens, live, key, n, i) {
      assert base[i] in base;
      assert Triple(key.bytes, n, base[i].tf) in BaseVisible(base, docLens, live);
    }
  }

  lemma {:induction false} BaseListed(base: seq<Tuple>, docLens: map<nat, nat>, live: seq<bool>, key: Term,
                                      norm: (nat, nat) -> nat, n: nat)
    requires forall i :: 0 <= i < |base| ==> Proper(base[i])
    requires key.hash == HashTerm(key.bytes)
    ensures PL.Visible(CorpusOf(docLens, live), n) && Listed(ToCodec(TermPostings(base, key), norm), n) <==>
            InSight(BaseVisible(base, docLens, live), key.bytes, n)
  {
    var ps := ToCodec(TermPostings(base, key), norm);
    SeenInBase(base, docLens, live, key, n);
    if PL.Visible(CorpusOf(docLens, live), n) && Listed(ps, n) {
      var a :| 0 <= a < |ps| && ps[a].node == n;
      var i := PostingOrigin(base, key, a);
      assert SeenAt(base, docLens, live, key, n, i);
    }
    if i :| 0 <= i < |base| && SeenAt(base, docLens, live, key, n, i) {
      var a := TupleListed(base, key, i);
      assert ps[a].node == n;
    }
  }

  /** What a term adds to a document of the base: the score of the stored posting that a query sees. */
  ghost function BaseShare(base: seq<Tuple>, docLens: map<nat, nat>, live: seq<bool>, st: Storage, key: Term,
                           idf: real, n: nat): real {
    if i :| 0 <= i < |base| && SeenAt(base, docLens, live, key, n, i)
    then Bm25.Score(Bm25.Scorer(st.meta, idf), Codec.Posting(n, base[i].tf, st.norm(n, base[i].tf)), docLens[n])
    else 0.0
  }

  /** The score that the list shows is that of the stored posting. */
  lemma {:induction false} BaseScored(base: seq<Tuple>, docLens: map<nat, nat>, live: seq<bool>, st: Storage,
                                      key: Term, idf: real, pages: seq<HotCache.Page>, n: nat, i: nat)
    requires Sorted(Before, base) && DistinctKeys(base) && Fits(base, st) && st.chunkSize > 0 && TermStored(base, st, key, pages)
    requires Bm25.Usable(Bm25.Scorer(st.meta, idf)) && SeenAt(base, docLens, live, key, n, i)
    ensures ScoreIn(PL.LiveList(CorpusOf(docLens, live), SearchList(Bm25.Scorer(st.meta, idf), CorpusOf(docLens, live), pages)), n) ==
            Bm25.Score(Bm25.Scorer(st.meta, idf), Codec.Posting(n, base[i].tf, st.norm(n, base[i].tf)), docLens[n])
  {
    StoredPostings(base, st, key);
    var a := TupleListed(base, key, i);
    PostingShown(Bm25.Scorer(st.meta, idf), CorpusOf(docLens, live), pages,
                 AllToCodec(ChunksOf(Lexicon(base, st.chunkSize), key), st.norm), st.meta.tfNormQ16, a);
  }

  /** The list gives every document the term's share. */
  lemma {:induction false} BaseScores(base: seq<Tuple>, docLens: map<nat, nat>, live: seq<bool>, st: Storage,
                                      key: Term, idf: real, pages: seq<HotCache.Page>, n: nat)
    requires Sorted(Before, base) && DistinctKeys(base) && Fits(base, st) && st.chunkSize > 0 && TermStored(base, st, key, pages)
    requires (forall i :: 0 <= i < |base| ==> Proper(base[i])) && key.hash == HashTerm(key.bytes)
    requires Bm25.Usable(Bm25.Scorer(st.meta, idf))
    requires ShowsTerm(PL.LiveList(CorpusOf(docLens, live), SearchList(Bm25.Scorer(st.meta, idf), CorpusOf(docLens, live), pages)),
                       key, BaseVisible(base, docLens, live))
    ensures ScoreIn(PL.LiveList(CorpusOf(docLens, live), SearchList(Bm25.Scorer(st.meta, idf), CorpusOf(docLens, live), pages)), n) ==
            BaseShare(base, docLens, live, st, key, idf, n)
  {
    var l := PL.LiveList(CorpusOf(docLens, live), SearchList(Bm25.Scorer(st.meta, idf), CorpusOf(docLens, live), pages));
    SeenInBase(base, docLens, live, key, n);
    if exists i :: 0 <= i < |base| && SeenAt(base, docLens, live, key, n, i) {
      forall i | 0 <= i < |base| && SeenAt(base, docLens, live, key, n, i)
        ensures ScoreIn(l, n) == Bm25.Score(Bm25.Scorer(st.meta, idf), Codec.Posting(n, base[i].tf, st.norm(n, base[i].tf)), docLens[n])
      {
        BaseScored(base, docLens, live, st, key, idf, pages, n, i);
      }
      BasePinned(base, docLens, live, st, key, idf, n, ScoreIn(l, n));
    } else {
      ScoreOfAbsent(l, n);
    }
  }

  /** The share is what every posting in sight would give. */
  lemma {:induction false} BasePinned(base: seq<Tuple>, docLens: map<nat, nat>, live: seq<bool>, st: Storage,
                                      key: Term, idf: real, n: nat, v: real)
    requires exists i :: 0 <= i < |base| && SeenAt(base, docLens, live, key, n, i)
    requires forall i :: 0 <= i < |base| && SeenAt(base, docLens, live, key, n, i) ==>
               v == Bm25.Score(Bm25.Scorer(st.meta, idf), Codec.Posting(n, base[i].tf, st.norm(n, base[i].tf)), docLens[n])
    ensures BaseShare(base, docLens, live, st, key, idf, n) == v
  {
  }

  /** A stored term of the base: a list the search accepts, showing what a query sees of the base, with its scores. */
  lemma {:induction false} TermIsSearchable(base: seq<Tuple>, docLens: map<nat, nat>, live: seq<bool>, st: Storage,
                                            key: Term, idf: real, pages: seq<HotCache.Page>)
    requires Sorted(Before, base) && DistinctKeys(base) && Fits(base, st) && st.chunkSize > 0 && TermStored(base, st, key, pages)
    requires (forall i :: 0 <= i < |base| ==> Proper(base[i])) && key.hash == HashTerm(key.bytes)
    requires Bm25.Usable(Bm25.Scorer(st.meta, idf))
    ensures var corpus := CorpusOf(docLens, live);
            var list := SearchList(Bm25.Scorer(st.meta, idf), corpus, pages);
            && PL.ValidList(list) && ShowsTerm(PL.LiveList(corpus, list), key, BaseVisible(base, docLens, live))
            && (forall n: nat :: ScoreIn(PL.LiveList(corpus, list), n) == BaseShare(base, docLens, live, st, key, idf, n))
  {
    var sc, corpus := Bm25.Scorer(st.meta, idf), CorpusOf(docLens, live);
    var chunks := AllToCodec(ChunksOf(Lexicon(base, st.chunkSize), key), st.norm);
    StoredPostings(base, st, key);
    PagesAreValid(sc, corpus, pages, chunks, st.meta.tfNormQ16);
    forall n: nat
      ensures Has(PL.LiveList(corpus, SearchList(sc, corpus, pages)), n) <==> InSight(BaseVisible(base, docLens, live), key.bytes, n)
    {
      PagesShow(sc, corpus, pages, chunks, st.meta.tfNormQ16, n);
      BaseListed(base, docLens, live, key, st.norm, n);
    }
    forall n: nat
      ensures ScoreIn(PL.LiveList(corpus, SearchList(sc, corpus, pages)), n) == BaseShare(base, docLens, live, st, key, idf, n)
    {
      BaseScores(base, docLens, live, st, key, idf, pages, n);
    }
  }

  // ----- the delta

  /** A delta posting scored as the source scores it, from frequency and length. */
  function DeltaScore(sc: Bm25.Scorer, x: Segment): real {
    if Bm25.Usable(sc) && x.tf >= 1 then Bm25.PostingScore(sc.meta, sc.idf, x.tf, x.docLen) else 0.0
  }

  /** The delta entries of one term. */
  function DeltaList(entries: seq<Segment>, key: Term, sc: Bm25.Scorer): seq<Live> {
    if entries == [] then []
    else
      var x := entries[0];
      (if x.bytes == key.bytes then [Live(x.node, DeltaScore(sc, x), DeltaScore(sc, x))] else []) + DeltaList(entries[1..], key, sc)
  }

  lemma {:induction false} DeltaOrigin(entries: seq<Segment>, key: Term, sc: Bm25.Scorer, a: nat) returns (i: nat)
    requires a < |DeltaList(entries, key, sc)|
    ensures i < |entries| && entries[i].bytes == key.bytes && DeltaList(entries, key, sc)[a].node == entries[i].node
    ensures DeltaList(entries, key, sc)[a].score == DeltaScore(sc, entries[i])
  {
    if entries[0].bytes == key.bytes && a == 0 {
      i := 0;
    } else {
      var j := DeltaOrigin(entries[1..], key, sc, if entries[0].bytes == key.bytes then a - 1 else a);
      i := j + 1;
    }
  }

  lemma {:induction false} EntryListed(entries: seq<Segment>, key: Term, sc: Bm25.Scorer, i: nat) returns (a: nat)
    requires i < |entries| && entries[i].bytes == key.bytes
    ensures a < |DeltaList(entries, key, sc)| && DeltaList(entries, key, sc)[a].node == entries[i].node
    ensures DeltaList(entries, key, sc)[a].score == DeltaScore(sc, entries[i])
  {
    if i == 0 {
      a := 0;
    } else {
      var b := EntryListed(entries[1..], key, sc, i - 1);
      a := if entries[0].bytes == key.bytes then b + 1 else b;
    }
  }

  /** Each document comes once in the list of a term. */
  lemma {:induction false} DeltaOnce(entries: seq<Segment>, key: Term, sc: Bm25.Scorer, a: nat, b: nat)
    requires DistinctSegments(entries) && a < b < |DeltaList(entries, key, sc)|
    ensures DeltaList(entries, key, sc)[a].node != DeltaList(entries, key, sc)[b].node
  {
    if entries[0].bytes != key.bytes {
      DeltaOnce(entries[1..], key, sc, a, b);
    } else if a > 0 {
      DeltaOnce(entries[1..], key, sc, a - 1, b - 1);
    } else {
      var j := DeltaOrigin(entries[1..], key, sc, b - 1);
      assert entries[1..][j] == entries[j + 1];
    }
  }

  lemma {:induction false} InPassing(f: Filter, segs: seq<Segment>, x: Segment)
    ensures x in Passing(f, segs) <==> x in segs && Passes(f, x)
  {
    if segs != [] {
      var n := |segs| - 1;
      InPassing(f, segs[..n], x);
      assert segs == segs[..n] + [segs[n]];
    }
  }

  lemma {:induction false} PassingDistinct(f: Filter, segs: seq<Segment>)
    requires DistinctSegments(segs)
    ensures DistinctSegments(Passing(f, segs))
  {
    if segs != [] {
      var n := |segs| - 1;
      PassingDistinct(f, segs[..n]);
      var p := Passing(f, segs[..n]);
      forall i | 0 <= i < |p|
        ensures !(p[i].bytes == segs[n].bytes && p[i].node == segs[n].node)
      {
        InPassing(f, segs[..n], p[i]);
        var j :| 0 <= j < n && segs[..n][j] == p[i];
        assert segs[j] == p[i];
      }
    }
  }

  /** The order in which entries are delivered does not matter. */
  lemma {:induction false} PermutedDistinct(s: seq<Segment>, t: seq<Segment>)
    requires DistinctSegments(s) && multiset(s) == multiset(t)
    ensures DistinctSegments(t) && Elements(s) == Elements(t)
  {
    SameMultisetDistinct(s, t);
    forall i, j | 0 <= i < j < |t|
      ensures !(t[i].bytes == t[j].bytes && t[i].node == t[j].node)
    {
      assert t[i] in Elements(s) && t[j] in Elements(s) && t[i] != t[j];
      var a :| 0 <= a < |s| && s[a] == t[i];
      var b :| 0 <= b < |s| && s[b] == t[j];
      assert a < b || b < a;
    }
  }

  /** The delta entries a query is delivered. */
  ghost predicate Delivered(entries: seq<Segment>, docs: seq<Doc>, f: Filter) {
    multiset(entries) == multiset(Passing(f, AllSegments(docs)))
  }

  lemma {:induction false} EntriesAre(entries: seq<Segment>, docs: seq<Doc>, f: Filter, x: Segment)
    requires Delivered(entries, docs, f) && DistinctSegments(AllSegments(docs))
    ensures DistinctSegments(entries) && (x in entries <==> x in AllSegments(docs) && Passes(f, x))
  {
    PassingDistinct(f, AllSegments(docs));
    PermutedDistinct(Passing(f, AllSegments(docs)), entries);
    InPassing(f, AllSegments(docs), x);
    assert x in entries <==> x in Elements(entries);
  }

  ghost predicate Asked(f: Filter, key: Term) {
    exists i :: 0 <= i < |f.terms| && f.terms[i].bytes == key.bytes && f.terms[i].hash == HashTerm(key.bytes)
  }

  /** The list of a term shows what a query sees of it in the delta. */
  lemma {:induction false} DeltaListed(entries: seq<Segment>, docs: seq<Doc>, f: Filter, key: Term, sc: Bm25.Scorer,
                                       n: nat)
    requires Delivered(entries, docs, f) && DistinctSegments(AllSegments(docs)) && Asked(f, key)
    ensures Has(DeltaList(entries, key, sc), n) <==> InSight(DeltaVisible(docs, f.live), key.bytes, n)
  {
    var l := DeltaList(entries, key, sc);
    if Has(l, n) {
      var a :| 0 <= a < |l| && l[a].node == n;
      var i := DeltaOrigin(entries, key, sc, a);
      EntriesAre(entries, docs, f, entries[i]);
      assert Triple(key.bytes, n, entries[i].tf) in DeltaVisible(docs, f.live);
    }
    if InSight(DeltaVisible(docs, f.live), key.bytes, n) {
      var tf: nat :| Triple(key.bytes, n, tf) in DeltaVisible(docs, f.live);
      var x :| x in AllSegments(docs) && Compaction.Live(f.live, x.node) && Triple(x.bytes, x.node, x.tf) == Triple(key.bytes, n, tf);
      EntriesAre(entries, docs, f, x);
      assert Passes(f, x);
      var i :| 0 <= i < |entries| && entries[i] == x;
      var a := EntryListed(entries, key, sc, i);
    }
  }

  /** Every entry belongs to an inserted document, of which the base knows no length. */
  lemma {:induction false} EntryIsNew(entries: seq<Segment>, docs: seq<Doc>, docLens: map<nat, nat>, f: Filter, i: nat)
    requires Delivered(entries, docs, f) && DistinctSegments(AllSegments(docs)) && i < |entries|
    requires forall k :: 0 <= k < |docs| ==> docs[k].node !in docLens
    ensures !PL.Visible(CorpusOf(docLens, f.live), entries[i].node)
  {
    EntriesAre(entries, docs, f, entries[i]);
    var k, j := SegmentHasDoc(docs, entries[i]);
  }

  /** What a term adds to a document of the delta. */
  ghost function DeltaShare(docs: seq<Doc>, live: seq<bool>, key: Term, sc: Bm25.Scorer, n: nat): real {
    if x :| SegmentAt(docs, live, key, n, x) then DeltaScore(sc, x) else 0.0
  }

  ghost predicate SegmentAt(docs: seq<Doc>, live: seq<bool>, key: Term, n: nat, x: Segment) {
    x in AllSegments(docs) && x.bytes == key.bytes && x.node == n && Compaction.Live(live, n)
  }

  lemma {:induction false} ScoreOfOnce(l: seq<Live>, a: nat)
    requires Exhaustive.Once(l) && a < |l|
    ensures ScoreIn(l, l[a].node) == l[a].score
  {
    if a > 0 {
      ScoreOfOnce(l[1..], a - 1);
    }
  }

  lemma {:induction false} DeltaScored(entries: seq<Segment>, docs: seq<Doc>, f: Filter, key: Term, sc: Bm25.Scorer,
                                       n: nat, x: Segment)
    requires Delivered(entries, docs, f) && DistinctSegments(AllSegments(docs)) && Asked(f, key)
    requires Exhaustive.Once(DeltaList(entries, key, sc)) && SegmentAt(docs, f.live, key, n, x)
    ensures ScoreIn(DeltaList(entries, key, sc), n) == DeltaScore(sc, x)
  {
    EntriesAre(entries, docs, f, x);
    assert Passes(f, x);
    var i :| 0 <= i < |entries| && entries[i] == x;
    var a := EntryListed(entries, key, sc, i);
    ScoreOfOnce(DeltaList(entries, key, sc), a);
  }

  lemma {:induction false} DeltaScores(entries: seq<Segment>, docs: seq<Doc>, f: Filter, key: Term, sc: Bm25.Scorer,
                                       n: nat)
    requires Delivered(entries, docs, f) && DistinctSegments(AllSegments(docs)) && Asked(f, key)
    requires Exhaustive.Once(DeltaList(entries, key, sc))
    ensures ScoreIn(DeltaList(entries, key, sc), n) == DeltaShare(docs, f.live, key, sc, n)
  {
    DeltaListed(entries, docs, f, key, sc, n);
    if exists x :: SegmentAt(docs, f.live, key, n, x) {
      forall x | SegmentAt(docs, f.live, key, n, x)
        ensures ScoreIn(DeltaList(entries, key, sc), n) == DeltaScore(sc, x)
      {
        DeltaScored(entries, docs, f, key, sc, n, x);
      }
    } else {
      if InSight(DeltaVisible(docs, f.live), key.bytes, n) {
        var x := SegmentInSight(docs, f.live, key, n);
      }
      ScoreOfAbsent(DeltaList(entries, key, sc), n);
    }
  }

  lemma {:induction false} SegmentInSight(docs: seq<Doc>, live: seq<bool>, key: Term, n: nat) returns (x: Segment)
    requires InSight(DeltaVisible(docs, live), key.bytes, n)
    ensures SegmentAt(docs, live, key, n, x)
  {
    var tf: nat :| Triple(key.bytes, n, tf) in DeltaVisible(docs, live);
    x :| x in AllSegments(docs) && Compaction.Live(live, x.node) && Triple(x.bytes, x.node, x.tf) == Triple(key.bytes, n, tf);
  }

  /** The list of a term is one the search accepts as delta. */
  lemma {:induction false} DeltaIsSearchable(entries: seq<Segment>, docs: seq<Doc>, docLens: map<nat, nat>, f: Filter,
                                             key: Term, sc: Bm25.Scorer)
    requires Delivered(entries, docs, f) && DistinctSegments(AllSegments(docs)) && Asked(f, key)
    requires forall k :: 0 <= k < |docs| ==> docs[k].node !in docLens
    ensures var l := DeltaList(entries, key, sc);
            && Exhaustive.Once(l) && ShowsTerm(l, key, DeltaVisible(docs, f.live))
            && (forall a :: 0 <= a < |l| ==> l[a].score >= 0.0 && !PL.Visible(CorpusOf(docLens, f.live), l[a].node))
            && (forall n: nat :: ScoreIn(l, n) == DeltaShare(docs, f.live, key, sc, n))
  {
    var l := DeltaList(entries, key, sc);
    forall n: nat
      ensures Has(l, n) <==> InSight(DeltaVisible(docs, f.live), key.bytes, n)
    {
      DeltaListed(entries, docs, f, key, sc, n);
    }
    forall a | 0 <= a < |l|
      ensures l[a].score >= 0.0 && !PL.Visible(CorpusOf(docLens, f.live), l[a].node)
    {
      var i := DeltaOrigin(entries, key, sc, a);
      EntryIsNew(entries, docs, docLens, f, i);
      DeltaScoreCounts(sc, entries[i]);
    }
    forall a, b | 0 <= a < b < |l|
      ensures l[a].node != l[b].node
    {
      EntriesAre(entries, docs, f, entries[0]);
      DeltaOnce(entries, key, sc, a, b);
    }
    forall n: nat
      ensures ScoreIn(l, n) == DeltaShare(docs, f.live, key, sc, n)
    {
      DeltaScores(entries, docs, f, key, sc, n);
    }
  }

  lemma {:induction false} DeltaScoreCounts(sc: Bm25.Scorer, x: Segment)
    ensures DeltaScore(sc, x) >= 0.0
  {
    if Bm25.Usable(sc) && x.tf >= 1 {
      Bm25.PostingScoreMonotone(sc.meta, sc.idf, x.tf, x.tf, x.docLen);
    }
  }

  // ----- the whole search

  /** What a query brings: its terms, their inverse document frequencies, and the pages of their lists. */
  datatype QueryTerms = QueryTerms(keys: seq<Term>, idfs: seq<real>, pages: seq<seq<HotCache.Page>>, dfs: seq<nat>)

  predicate SameLength(t: QueryTerms) {
    |t.keys| == |t.idfs| == |t.pages| == |t.dfs|
  }

  ghost predicate TermReady(base: seq<Tuple>, st: Storage, t: QueryTerms, i: nat)
    requires SameLength(t) && st.chunkSize > 0
  {
    && i < |t.keys| && t.keys[i].hash == HashTerm(t.keys[i].bytes)
    && Bm25.Usable(Bm25.Scorer(st.meta, t.idfs[i])) && TermStored(base, st, t.keys[i], t.pages[i])
  }

  function Lists(st: Storage, corpus: PL.Corpus, t: QueryTerms): (ls: seq<seq<PL.Chunk>>)
    requires SameLength(t)
    ensures |ls| == |t.keys|
    ensures forall i :: 0 <= i < |t.keys| ==> ls[i] == SearchList(Bm25.Scorer(st.meta, t.idfs[i]), corpus, t.pages[i])
  {
    seq(|t.keys|, i requires 0 <= i < |t.keys| => SearchList(Bm25.Scorer(st.meta, t.idfs[i]), corpus, t.pages[i]))
  }

  function DeltaLists(st: Storage, entries: seq<Segment>, t: QueryTerms): (ds: seq<seq<Live>>)
    requires SameLength(t)
    ensures |ds| == |t.keys|
    ensures forall i :: 0 <= i < |t.keys| ==> ds[i] == DeltaList(entries, t.keys[i], Bm25.Scorer(st.meta, t.idfs[i]))
  {
    seq(|t.keys|, i requires 0 <= i < |t.keys| => DeltaList(entries, t.keys[i], Bm25.Scorer(st.meta, t.idfs[i])))
  }

  ghost function LiveLists(corpus: PL.Corpus, lists: seq<seq<PL.Chunk>>): (L: seq<seq<Live>>)
    ensures |L| == |lists| && forall i :: 0 <= i < |lists| ==> L[i] == PL.LiveList(corpus, lists[i])
  {
    seq(|lists|, i requires 0 <= i < |lists| => PL.LiveList(corpus, lists[i]))
  }

  /** A stored index at one moment, and the live nodes. */
  datatype Snapshot = Snapshot(base: seq<Tuple>, docLens: map<nat, nat>, docs: seq<Doc>, live: seq<bool>)

  ghost function SeenIn(s: Snapshot): set<Triple> {
    Visible(s.base, s.docLens, s.docs, s.live)
  }

  /** What a term adds to a document: its stored posting scored, in base or delta. */
  ghost function Share(s: Snapshot, st: Storage, key: Term, idf: real, n: nat): real {
    BaseShare(s.base, s.docLens, s.live, st, key, idf, n) + DeltaShare(s.docs, s.live, key, Bm25.Scorer(st.meta, idf), n)
  }

  ghost function TermShares(s: Snapshot, st: Storage, t: QueryTerms, n: nat): (fs: seq<real>)
    requires SameLength(t)
    ensures |fs| == |t.keys| && forall i :: 0 <= i < |t.keys| ==> fs[i] == Share(s, st, t.keys[i], t.idfs[i], n)
  {
    seq(|t.keys|, i requires 0 <= i < |t.keys| => Share(s, st, t.keys[i], t.idfs[i], n))
  }

  /** The query terms that a query sees in a document. */
  ghost function TermsOf(s: Snapshot, t: QueryTerms, n: nat): set<nat> {
    set i | 0 <= i < |t.keys| && InSight(SeenIn(s), t.keys[i].bytes, n)
  }

  /** The documents that satisfy the query by the postings it sees, each with the sum of its terms' shares. */
  ghost function Answers(s: Snapshot, st: Storage, t: QueryTerms, matcher: Matcher): (S: set<Accumulator.NodeScore>)
    requires SameLength(t)
    ensures forall x :: x in S <==>
              && TermsOf(s, t, x.node) != {} && Matched(matcher, TermsOf(s, t, x.node))
              && x == Accumulator.NodeScore(x.node, Sum(TermShares(s, st, t, x.node)))
  {
    var nodes := set x | x in SeenIn(s) :: x.node;
    forall n | TermsOf(s, t, n) != {}
      ensures n in nodes
    {
      SomeTriple(s, t, n);
    }
    set n | n in nodes && TermsOf(s, t, n) != {} && Matched(matcher, TermsOf(s, t, n)) :: Accumulator.NodeScore(n, Sum(TermShares(s, st, t, n)))
  }

  lemma {:induction false} SomeTriple(s: Snapshot, t: QueryTerms, n: nat)
    requires TermsOf(s, t, n) != {}
    ensures exists x :: x in SeenIn(s) && x.node == n
  {
    var i :| i in TermsOf(s, t, n);
    var tf: nat :| Triple(t.keys[i].bytes, n, tf) in SeenIn(s);
    assert Triple(t.keys[i].bytes, n, tf).node == n;
  }

  /** Base and delta of a term together show what a query sees of it. */
  lemma {:induction false} BothShow(l: seq<Live>, d: seq<Live>, key: Term, base: set<Triple>, delta: set<Triple>)
    requires ShowsTerm(l, key, base) && ShowsTerm(d, key, delta)
    ensures ShowsTerm(l + d, key, base + delta)
  {
    forall n: nat
      ensures Has(l + d, n) <==> InSight(base + delta, key.bytes, n)
    {
      TopKSearch.HasJoined(l, d, n);
      if InSight(base + delta, key.bytes, n) {
        var tf: nat :| Triple(key.bytes, n, tf) in base + delta;
      }
      if tf: nat :| Triple(key.bytes, n, tf) in base {
        assert Triple(key.bytes, n, tf) in base + delta;
      }
      if tf: nat :| Triple(key.bytes, n, tf) in delta {
        assert Triple(key.bytes, n, tf) in base + delta;
      }
    }
  }

  /** Everything the search is given, for one term. */
  lemma {:induction false} TermGiven(base: seq<Tuple>, docLens: map<nat, nat>, docs: seq<Doc>, nodeCount: nat,
                                     live: seq<bool>,
                                     st: Storage, t: QueryTerms, entries: seq<Segment>, i: nat)
    requires Stored(base, docLens, docs, nodeCount) && Fits(base, st) && st.chunkSize > 0 && SameLength(t) && TermReady(base, st, t, i)
    requires Delivered(entries, docs, Filter(t.keys, live))
    ensures var corpus := CorpusOf(docLens, live);
            var l, d := PL.LiveList(corpus, Lists(st, corpus, t)[i]), DeltaLists(st, entries, t)[i];
            && PL.ValidList(Lists(st, corpus, t)[i]) && Exhaustive.Once(d)
            && (forall a :: 0 <= a < |d| ==> d[a].score >= 0.0 && !PL.Visible(corpus, d[a].node))
            && ShowsTerm(l + d, t.keys[i], Visible(base, docLens, docs, live))
            && (forall n: nat :: ScoreIn(l, n) == BaseShare(base, docLens, live, st, t.keys[i], t.idfs[i], n))
            && (forall n: nat :: ScoreIn(d, n) == DeltaShare(docs, live, t.keys[i], Bm25.Scorer(st.meta, t.idfs[i]), n))
  {
    var key, sc, f := t.keys[i], Bm25.Scorer(st.meta, t.idfs[i]), Filter(t.keys, live);
    assert f.terms[i].bytes == key.bytes;
    TermIsSearchable(base, docLens, live, st, key, t.idfs[i], t.pages[i]);
    DeltaIsSearchable(entries, docs, docLens, f, key, sc);
    var corpus := CorpusOf(docLens, live);
    BothShow(PL.LiveList(corpus, Lists(st, corpus, t)[i]), DeltaLists(st, entries, t)[i], key,
             BaseVisible(base, docLens, live), DeltaVisible(docs, live));
  }

  /** The lists the search works on, base and delta. */
  ghost function BaseOf(s: Snapshot, st: Storage, t: QueryTerms): (L: seq<seq<Live>>)
    requires SameLength(t)
    ensures |L| == |t.keys|
  {
    LiveLists(CorpusOf(s.docLens, s.live), Lists(st, CorpusOf(s.docLens, s.live), t))
  }

  ghost predicate Ready(s: Snapshot, nodeCount: nat, st: Storage, t: QueryTerms, entries: seq<Segment>) {
    && Stored(s.base, s.docLens, s.docs, nodeCount) && Fits(s.base, st) && st.chunkSize > 0 && SameLength(t)
    && (forall i :: 0 <= i < |t.keys| ==> TermReady(s.base, st, t, i))
    && Delivered(entries, s.docs, Filter(t.keys, s.live))
  }

  /** The lists of a query are what the search asks for. */
  lemma {:induction false} QueryGiven(s: Snapshot, nodeCount: nat, st: Storage, t: QueryTerms, entries: seq<Segment>)
    requires Ready(s, nodeCount, st, t, entries)
    ensures var corpus := CorpusOf(s.docLens, s.live);
            Exhaustive.Stored(corpus, Lists(st, corpus, t), BaseOf(s, st, t)) && TopKSearch.DeltaOf(corpus, DeltaLists(st, entries, t))
  {
    forall i | 0 <= i < |t.keys|
      ensures var corpus := CorpusOf(s.docLens, s.live);
              var d := DeltaLists(st, entries, t)[i];
              && PL.ValidList(Lists(st, corpus, t)[i]) && Exhaustive.Once(d)
              && (forall a :: 0 <= a < |d| ==> d[a].score >= 0.0 && !PL.Visible(corpus, d[a].node))
    {
      TermGiven(s.base, s.docLens, s.docs, nodeCount, s.live, st, t, entries, i);
    }
  }

  /** For one term and document: whether and with what score the lists show it. */
  lemma {:induction false} TermAgrees(s: Snapshot, nodeCount: nat, st: Storage, t: QueryTerms, entries: seq<Segment>,
                                      i: nat, n: nat)
    requires Ready(s, nodeCount, st, t, entries) && i < |t.keys|
    ensures var l := TopKSearch.Combined(BaseOf(s, st, t), DeltaLists(st, entries, t))[i];
            && (Has(l, n) <==> InSight(SeenIn(s), t.keys[i].bytes, n))
            && ScoreIn(l, n) == Share(s, st, t.keys[i], t.idfs[i], n)
  {
    TermGiven(s.base, s.docLens, s.docs, nodeCount, s.live, st, t, entries, i);
    var l, d := BaseOf(s, st, t)[i], DeltaLists(st, entries, t)[i];
    if Has(l, n) {
      OneSide(s, nodeCount, st, t, entries, i, n);
    }
    JoinedShare(l, d, n);
  }

  /** A document on one side only has that side's score. */
  lemma {:induction false} JoinedShare(l: seq<Live>, d: seq<Live>, n: nat)
    requires !(Has(l, n) && Has(d, n))
    ensures ScoreIn(l + d, n) == ScoreIn(l, n) + ScoreIn(d, n)
  {
    TopKSearch.ScoreJoined(l, d, n);
    if Has(l, n) {
      ScoreOfAbsent(d, n);
    } else {
      ScoreOfAbsent(l, n);
    }
  }

  /** A document of the base has no posting in the delta. */
  lemma {:induction false} OneSide(s: Snapshot, nodeCount: nat, st: Storage, t: QueryTerms, entries: seq<Segment>,
                                   i: nat, n: nat)
    requires Ready(s, nodeCount, st, t, entries) && i < |t.keys| && Has(BaseOf(s, st, t)[i], n)
    ensures !Has(DeltaLists(st, entries, t)[i], n)
  {
    var corpus := CorpusOf(s.docLens, s.live);
    QueryGiven(s, nodeCount, st, t, entries);
    InAllNodes(BaseOf(s, st, t), n);
    TopKSearch.BaseIsVisible(corpus, Lists(st, corpus, t), BaseOf(s, st, t), n);
  }

  /** The matches over the lists are the answers by what is stored. */
  lemma {:induction false} MatchesAreAnswers(s: Snapshot, nodeCount: nat, st: Storage, t: QueryTerms,
                                             entries: seq<Segment>, matcher: Matcher)
    requires Ready(s, nodeCount, st, t, entries)
    ensures Matching(TopKSearch.Combined(BaseOf(s, st, t), DeltaLists(st, entries, t)), matcher) == Answers(s, st, t, matcher)
  {
    var C := TopKSearch.Combined(BaseOf(s, st, t), DeltaLists(st, entries, t));
    forall x: Accumulator.NodeScore
      ensures x in Matching(C, matcher) <==> x in Answers(s, st, t, matcher)
    {
      DocAgrees(s, nodeCount, st, t, entries, x.node);
    }
  }

  lemma {:induction false} DocAgrees(s: Snapshot, nodeCount: nat, st: Storage, t: QueryTerms, entries: seq<Segment>,
                                     n: nat)
    requires Ready(s, nodeCount, st, t, entries)
    ensures var C := TopKSearch.Combined(BaseOf(s, st, t), DeltaLists(st, entries, t));
            && DocMask(C, n) == TermsOf(s, t, n) && DocScore(C, n) == Sum(TermShares(s, st, t, n))
            && (n in AllNodes(C) <==> TermsOf(s, t, n) != {})
  {
    var C := TopKSearch.Combined(BaseOf(s, st, t), DeltaLists(st, entries, t));
    forall i | 0 <= i < |t.keys|
      ensures (Has(C[i], n) <==> InSight(SeenIn(s), t.keys[i].bytes, n)) && ScoreIn(C[i], n) == Share(s, st, t.keys[i], t.idfs[i], n)
    {
      TermAgrees(s, nodeCount, st, t, entries, i, n);
    }
    ListsAgree(s, st, t, C, n);
  }

  /** Lists that show every term as it is stored give the document its terms and its total. */
  lemma {:induction false} ListsAgree(s: Snapshot, st: Storage, t: QueryTerms, C: seq<seq<Live>>, n: nat)
    requires SameLength(t) && |C| == |t.keys|
    requires forall i :: 0 <= i < |C| ==> (Has(C[i], n) <==> InSight(SeenIn(s), t.keys[i].bytes, n))
    requires forall i :: 0 <= i < |C| ==> ScoreIn(C[i], n) == Share(s, st, t.keys[i], t.idfs[i], n)
    ensures DocMask(C, n) == TermsOf(s, t, n) && DocScore(C, n) == Sum(TermShares(s, st, t, n))
    ensures n in AllNodes(C) <==> TermsOf(s, t, n) != {}
  {
    assert TermScores(C, n) == TermShares(s, st, t, n);
    InAllNodes(C, n);
    if i :| 0 <= i < |C| && Has(C[i], n) {
      assert i in TermsOf(s, t, n);
    }
    assert forall i :: i in TermsOf(s, t, n) ==> Has(C[i], n);
  }

  ghost function SnapshotOf(index: Index, live: seq<bool>): Snapshot
    reads index, index.delta
  {
    Snapshot(index.base, index.docLens, index.delta.docs, live)
  }

  /**
   A query over a stored index, after whatever inserts and compactions.  Where the strategy is
   exact, the result is the k best answers by score and then node id; answers and scores are
   those of the stored postings that the query sees.  In every case the result is the k best of
   some of them, of which, given room for all, only those are missing that the fused bound
   dismisses.
   */
  method SearchIndex(index: Index, live: seq<bool>, st: Storage, t: QueryTerms, q: Query, strategy: TopKSearch.Strategy)
    returns (top: seq<Accumulator.NodeScore>, ghost kept: set<Accumulator.NodeScore>)
    requires index.Valid() && st.chunkSize == index.chunkSize && Fits(index.base, st) && SameLength(t)
    requires forall i :: 0 <= i < |t.keys| ==> TermReady(index.base, st, t, i)
    requires TopKSearch.Suits(q, |t.keys|)
    ensures TopKSearch.ExactStrategy(strategy, q, BaseOf(SnapshotOf(index, live), st, t)) ==>
              IsTopK(Accumulator.Before, Answers(SnapshotOf(index, live), st, t, q.matcher), q.k, top)
    ensures kept <= Answers(SnapshotOf(index, live), st, t, q.matcher) && IsTopK(Accumulator.Before, kept, q.k, top)
    ensures |Answers(SnapshotOf(index, live), st, t, q.matcher)| <= q.k ==>
              forall x :: x in Answers(SnapshotOf(index, live), st, t, q.matcher) - kept ==> TopKSearch.Dismissed(q.bound, x)
  {
    var entries := index.delta.Lookup(Filter(t.keys, live));
    ghost var s := SnapshotOf(index, live);
    QueryGiven(s, index.nodeCount, st, t, entries);
    MatchesAreAnswers(s, index.nodeCount, st, t, entries, q.matcher);
    var corpus := CorpusOf(index.docLens, live);
    top, kept := TopKSearch.TopK(corpus, Lists(st, corpus, t), t.dfs, DeltaLists(st, entries, t), q, strategy, BaseOf(s, st, t));
  }
}
