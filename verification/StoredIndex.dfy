/**
 From storage to search: what the writer stores of a term, read back chunk by chunk through
 the cache or not, is a list that the search accepts and that shows exactly the postings a
 query may see.
 */
module StoredIndex {
  import opened Wrappers
  import opened Sequences
  import opened Wand
  import opened PostingsCodec
  import opened HotCache
  import PostingsChain
  import Bm25 = Bm25Scoring
  import PL = PostingLists

  // ----- one chunk

  ghost predicate Ascends(ps: seq<Posting>) {
    forall i, j :: 0 <= i < j < |ps| ==> ps[i].node < ps[j].node
  }

  /** Postings as they are written: fields within their widths and a frequency of at least one. */
  ghost predicate Writable(ps: seq<Posting>, hasTfNorm: bool) {
    forall i :: 0 <= i < |ps| ==> FieldsFit(ps[i], hasTfNorm) && ps[i].tf >= 1
  }

  /** The page of a chunk: the encoded postings and the summary fields of its header. */
  ghost predicate PageHolds(page: Page, ps: seq<Posting>, meta: Bm25.Meta, hasTfNorm: bool) {
    Encodes(page.tuple, ps, hasTfNorm) && page.maxTfNorm == MaxNorm(ps) && Bm25.FactorFits(meta, MaxNorm(ps), page.maxScoreFactor)
  }

  function ChunkOf(c: Chunk): Bm25.Chunk {
    Bm25.Chunk(c.postings, c.lastNode, c.maxTf, c.maxTfNorm, c.maxScoreFactor)
  }

  lemma {:induction false} LoadedFields(page: Page, ps: seq<Posting>, meta: Bm25.Meta, hasTfNorm: bool)
    requires ps != [] && Ascends(ps) && Writable(ps, hasTfNorm) && PageHolds(page, ps, meta, hasTfNorm)
    ensures LoadPage(page) == Some(Chunk(ps, ps[|ps| - 1].node, MaxTf(ps), MaxNorm(ps), page.maxScoreFactor, page.next))
  {
    RoundTrip(page.tuple, ps, hasTfNorm);
    assert Decode(page.tuple) == Some(ps);
    assert page.tuple.lastNode == ps[|ps| - 1].node && page.tuple.maxTf == MaxTf(ps);
  }

  lemma {:induction false} FieldsAreWritten(sc: Bm25.Scorer, ps: seq<Posting>, factor: real, hasTfNorm: bool)
    requires ps != [] && Ascends(ps) && Writable(ps, hasTfNorm) && Bm25.FactorFits(sc.meta, MaxNorm(ps), factor)
    ensures Bm25.Written(sc, Bm25.Chunk(ps, ps[|ps| - 1].node, MaxTf(ps), MaxNorm(ps), factor))
  {
  }

  /** What the iterator loads from a written page is the chunk that was written. */
  lemma {:induction false} LoadedIsWritten(page: Page, ps: seq<Posting>, sc: Bm25.Scorer, hasTfNorm: bool)
    requires ps != [] && Ascends(ps) && Writable(ps, hasTfNorm) && PageHolds(page, ps, sc.meta, hasTfNorm)
    ensures LoadPage(page).Some? && LoadPage(page).value.postings == ps && Bm25.Written(sc, ChunkOf(LoadPage(page).value))
  {
    LoadedFields(page, ps, sc.meta, hasTfNorm);
    FieldsAreWritten(sc, ps, page.maxScoreFactor, hasTfNorm);
  }

  /** A page as the search sees it. */
  function SearchChunk(sc: Bm25.Scorer, corpus: PL.Corpus, page: Page): PL.Chunk {
    var c := LoadPage(page);
    if c.Some? then Bm25.Scored(sc, corpus, ChunkOf(c.value)) else PL.Chunk([], 0, 0.0)
  }

  function SearchList(sc: Bm25.Scorer, corpus: PL.Corpus, pages: seq<Page>): (l: seq<PL.Chunk>)
    ensures |l| == |pages| && forall k :: 0 <= k < |pages| ==> l[k] == SearchChunk(sc, corpus, pages[k])
  {
    seq(|pages|, k requires 0 <= k < |pages| => SearchChunk(sc, corpus, pages[k]))
  }

  function ScorePosting(sc: Bm25.Scorer, corpus: PL.Corpus, p: Posting): PL.Posting {
    PL.Posting(p.node, Bm25.Score(sc, p, Bm25.DocLen(corpus, p.node)))
  }

  lemma {:induction false} SearchChunkFacts(sc: Bm25.Scorer, corpus: PL.Corpus, page: Page, ps: seq<Posting>,
                                            hasTfNorm: bool)
    requires Bm25.Usable(sc) && ps != [] && Ascends(ps) && Writable(ps, hasTfNorm) && PageHolds(page, ps, sc.meta, hasTfNorm)
    ensures var c := SearchChunk(sc, corpus, page);
            && PL.ValidChunk(c) && |c.postings| == |ps|
            && (forall i :: 0 <= i < |ps| ==> c.postings[i] == ScorePosting(sc, corpus, ps[i]))
  {
    LoadedIsWritten(page, ps, sc, hasTfNorm);
    Bm25.WrittenIsValid(sc, corpus, ChunkOf(LoadPage(page).value));
  }

  // ----- a list of chunks

  /** The pages of a term's chunks, in order. */
  ghost predicate PagesHold(pages: seq<Page>, chunks: seq<seq<Posting>>, meta: Bm25.Meta, hasTfNorm: bool) {
    |pages| == |chunks| && forall k :: 0 <= k < |chunks| ==> chunks[k] != [] && PageHolds(pages[k], chunks[k], meta, hasTfNorm)
  }

  /** A posting of a chunk is one of the list. */
  lemma {:induction false} InFlat(chunks: seq<seq<Posting>>, k: nat, i: nat) returns (a: nat)
    requires k < |chunks| && i < |chunks[k]|
    ensures a < |Flatten(chunks)| && Flatten(chunks)[a] == chunks[k][i]
    ensures k == 0 ==> a == i
    ensures k > 0 ==> a >= |chunks[0]|
  {
    if k == 0 {
      a := i;
    } else {
      var b := InFlat(chunks[1..], k - 1, i);
      a := |chunks[0]| + b;
    }
  }

  /** Positions in the flat list follow positions in the chunks. */
  lemma {:induction false} FlatOrder(chunks: seq<seq<Posting>>, k: nat, i: nat, m: nat, j: nat)
    requires k < |chunks| && i < |chunks[k]| && m < |chunks| && j < |chunks[m]| && (k < m || (k == m && i < j))
    requires Ascends(Flatten(chunks))
    ensures chunks[k][i].node < chunks[m][j].node
  {
    if k > 0 {
      FlatTail(chunks);
      FlatOrder(chunks[1..], k - 1, i, m - 1, j);
    } else {
      var a := InFlat(chunks, k, i);
      var b := InFlat(chunks, m, j);
    }
  }

  lemma {:induction false} FlatTail(chunks: seq<seq<Posting>>)
    requires chunks != [] && Ascends(Flatten(chunks))
    ensures Ascends(Flatten(chunks[1..]))
  {
    var f, t := Flatten(chunks), Flatten(chunks[1..]);
    assert forall i :: 0 <= i < |t| ==> t[i] == f[|chunks[0]| + i];
  }

  lemma {:induction false} ChunkFits(chunks: seq<seq<Posting>>, k: nat, hasTfNorm: bool)
    requires k < |chunks| && Ascends(Flatten(chunks)) && Writable(Flatten(chunks), hasTfNorm)
    ensures Ascends(chunks[k]) && Writable(chunks[k], hasTfNorm)
  {
    forall i, j | 0 <= i < j < |chunks[k]|
      ensures chunks[k][i].node < chunks[k][j].node
    {
      FlatOrder(chunks, k, i, k, j);
    }
    forall i | 0 <= i < |chunks[k]|
      ensures FieldsFit(chunks[k][i], hasTfNorm) && chunks[k][i].tf >= 1
    {
      var a := InFlat(chunks, k, i);
    }
  }

  /** The written pages of a sorted list are a list the search accepts. */
  lemma {:induction false} PagesAreValid(sc: Bm25.Scorer, corpus: PL.Corpus, pages: seq<Page>,
                                         chunks: seq<seq<Posting>>, hasTfNorm: bool)
    requires Bm25.Usable(sc) && PagesHold(pages, chunks, sc.meta, hasTfNorm)
    requires Ascends(Flatten(chunks)) && Writable(Flatten(chunks), hasTfNorm)
    ensures PL.ValidList(SearchList(sc, corpus, pages))
  {
    var l := SearchList(sc, corpus, pages);
    forall k | 0 <= k < |l|
      ensures PL.ValidChunk(l[k]) && |l[k].postings| == |chunks[k]|
      ensures l[k].postings[0].node == chunks[k][0].node && l[k].lastNode == chunks[k][|chunks[k]| - 1].node
    {
      ChunkFits(chunks, k, hasTfNorm);
      SearchChunkFacts(sc, corpus, pages[k], chunks[k], hasTfNorm);
    }
    forall k, m | 0 <= k < m < |l|
      ensures PL.Precedes(l[k], l[m])
    {
      FlatOrder(chunks, k, |chunks[k]| - 1, m, 0);
    }
  }

  /** The cells of a chain load as its chunks. */
  lemma {:induction false} ChainLoads(items: seq<PostingsChain.Cell>, first: nat, chunks: seq<seq<Posting>>, k: nat,
                                      page: Page)
    requires PostingsChain.Chain(items, first, chunks) && k < |chunks| && first + k < |items| && page.tuple == items[first + k].tuple
    ensures LoadPage(page).Some? && LoadPage(page).value.postings == chunks[k]
  {
    assert PostingsChain.Linked(items, first, chunks, k);
  }

  // ----- what the list shows

  /** Posting i of chunk m, as an iterator standing on it shows it. */
  ghost predicate Shown(c: PL.Corpus, chunks: seq<PL.Chunk>, m: nat, i: nat, x: Live) {
    && m < |chunks| && i < |chunks[m].postings| && PL.Visible(c, chunks[m].postings[i].node)
    && x == Live(chunks[m].postings[i].node, chunks[m].postings[i].score, chunks[m].bound)
  }

  lemma {:induction false} InLiveOnto(c: PL.Corpus, ps: seq<PL.Posting>, bound: real, tail: seq<Live>, x: Live)
    ensures x in PL.LiveOnto(c, ps, bound, tail) <==>
            x in tail || exists i :: 0 <= i < |ps| && PL.Visible(c, ps[i].node) && x == Live(ps[i].node, ps[i].score, bound)
  {
    if ps != [] {
      InLiveOnto(c, ps[1..], bound, tail, x);
      if i :| 0 <= i < |ps| && PL.Visible(c, ps[i].node) && x == Live(ps[i].node, ps[i].score, bound) {
        assert i > 0 ==> ps[1..][i - 1] == ps[i];
      }
    }
  }

  lemma {:induction false} InListFrom(c: PL.Corpus, chunks: seq<PL.Chunk>, k: nat, x: Live)
    requires k <= |chunks|
    ensures x in PL.ListFrom(c, chunks, k) <==> exists m: nat, i: nat :: k <= m && Shown(c, chunks, m, i, x)
    decreases |chunks| - k
  {
    if k < |chunks| {
      InListFrom(c, chunks, k + 1, x);
      var ps, tail := chunks[k].postings, PL.ListFrom(c, chunks, k + 1);
      InLiveOnto(c, ps, chunks[k].bound, tail, x);
      if x in PL.ListFrom(c, chunks, k) && x !in tail {
        var i :| 0 <= i < |ps| && PL.Visible(c, ps[i].node) && x == Live(ps[i].node, ps[i].score, chunks[k].bound);
        assert Shown(c, chunks, k, i, x);
      }
    }
  }

  lemma {:induction false} FromFlat(chunks: seq<seq<Posting>>, a: nat) returns (k: nat, i: nat)
    requires a < |Flatten(chunks)|
    ensures k < |chunks| && i < |chunks[k]| && chunks[k][i] == Flatten(chunks)[a]
  {
    if a < |chunks[0]| {
      k, i := 0, a;
    } else {
      k, i := FromFlat(chunks[1..], a - |chunks[0]|);
      k := k + 1;
    }
  }

  ghost predicate Listed(ps: seq<Posting>, n: nat) {
    exists a :: 0 <= a < |ps| && ps[a].node == n
  }

  /** A written posting of a visible document is shown, with its score. */
  lemma {:induction false} PostingShown(sc: Bm25.Scorer, corpus: PL.Corpus, pages: seq<Page>,
                                        chunks: seq<seq<Posting>>, hasTfNorm: bool, a: nat)
    requires Bm25.Usable(sc) && PagesHold(pages, chunks, sc.meta, hasTfNorm)
    requires Ascends(Flatten(chunks)) && Writable(Flatten(chunks), hasTfNorm)
    requires a < |Flatten(chunks)| && PL.Visible(corpus, Flatten(chunks)[a].node)
    ensures var l, p := PL.LiveList(corpus, SearchList(sc, corpus, pages)), Flatten(chunks)[a];
            Has(l, p.node) && ScoreIn(l, p.node) == Bm25.Score(sc, p, Bm25.DocLen(corpus, p.node))
  {
    var p, list := Flatten(chunks)[a], SearchList(sc, corpus, pages);
    var l := PL.LiveList(corpus, list);
    var k, i := FromFlat(chunks, a);
    ChunkFits(chunks, k, hasTfNorm);
    SearchChunkFacts(sc, corpus, pages[k], chunks[k], hasTfNorm);
    var x := Live(p.node, Bm25.Score(sc, p, Bm25.DocLen(corpus, p.node)), list[k].bound);
    assert Shown(corpus, list, k, i, x);
    InListFrom(corpus, list, 0, x);
    var e :| 0 <= e < |l| && l[e] == x;
    PagesAreValid(sc, corpus, pages, chunks, hasTfNorm);
    PL.LiveListFacts(corpus, list);
    ScoreOfMember(l, e);
  }

  /** And nothing else is shown. */
  lemma {:induction false} ShownIsPosting(sc: Bm25.Scorer, corpus: PL.Corpus, pages: seq<Page>,
                                          chunks: seq<seq<Posting>>, hasTfNorm: bool, n: nat)
    requires Bm25.Usable(sc) && PagesHold(pages, chunks, sc.meta, hasTfNorm)
    requires Ascends(Flatten(chunks)) && Writable(Flatten(chunks), hasTfNorm)
    requires Has(PL.LiveList(corpus, SearchList(sc, corpus, pages)), n)
    ensures PL.Visible(corpus, n) && Listed(Flatten(chunks), n)
  {
    var list := SearchList(sc, corpus, pages);
    var l := PL.LiveList(corpus, list);
    var e :| 0 <= e < |l| && l[e].node == n;
    InListFrom(corpus, list, 0, l[e]);
    var k: nat, i: nat :| 0 <= k && Shown(corpus, list, k, i, l[e]);
    ChunkFits(chunks, k, hasTfNorm);
    SearchChunkFacts(sc, corpus, pages[k], chunks[k], hasTfNorm);
    var a := InFlat(chunks, k, i);
  }

  /** The list shows exactly the written postings of visible documents. */
  lemma {:induction false} PagesShow(sc: Bm25.Scorer, corpus: PL.Corpus, pages: seq<Page>, chunks: seq<seq<Posting>>,
                                     hasTfNorm: bool, n: nat)
    requires Bm25.Usable(sc) && PagesHold(pages, chunks, sc.meta, hasTfNorm)
    requires Ascends(Flatten(chunks)) && Writable(Flatten(chunks), hasTfNorm)
    ensures Has(PL.LiveList(corpus, SearchList(sc, corpus, pages)), n) <==> PL.Visible(corpus, n) && Listed(Flatten(chunks), n)
  {
    if PL.Visible(corpus, n) && Listed(Flatten(chunks), n) {
      var a :| 0 <= a < |Flatten(chunks)| && Flatten(chunks)[a].node == n;
      PostingShown(sc, corpus, pages, chunks, hasTfNorm, a);
    }
    if Has(PL.LiveList(corpus, SearchList(sc, corpus, pages)), n) {
      ShownIsPosting(sc, corpus, pages, chunks, hasTfNorm, n);
    }
  }
}
