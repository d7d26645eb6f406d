/**
 A compaction that changes the best answer.  Three documents were inserted and the third has
 died since.  It is counted until the compaction, which makes documents shorter on average;
 without it the longer of the two others is the better answer, with it the shorter one was.
 */
module CompactionExample {
  import opened Ranking
  import opened QueryEval
  import opened Sums
  import opened DeltaStore
  import opened DocLengths
  import opened Compaction
  import opened IndexSearch
  import opened Statistics
  import opened CompactionAnswers
  import Accumulator
  import Bm25 = Bm25Scoring

  function TermOf(bytes: seq<nat>, tf: nat): Term { Term(HashTerm(bytes), bytes, tf) }

  /** The word once in two words, twice in five, and once alone; rest stands for the other words. */
  function Inserted(word: seq<nat>, rest: seq<nat>): seq<Doc> {
    [Doc(0, 0, 2, [TermOf(word, 1), TermOf(rest, 1)]), Doc(1, 1, 5, [TermOf(word, 2), TermOf(rest, 3)]), Doc(2, 2, 1, [TermOf(word, 1)])]
  }

  const LIVE: seq<bool> := [true, true, false]

  ghost function Start(word: seq<nat>, rest: seq<nat>): Snapshot { Snapshot([], map[], Inserted(word, rest), LIVE) }

  ghost predicate Words(word: seq<nat>, rest: seq<nat>) { word != [] && rest != [] && word != rest }

  function Entry(word: seq<nat>, node: nat, tf: nat, docLen: nat): Segment {
    Segment(HashTerm(word), word, node, tf, docLen, node)
  }

  lemma {:induction false} DocEntries(d: Doc)
    ensures |d.terms| == 1 ==> DocSegments(d, 0) == [SegmentOf(d, d.terms[0])]
    ensures |d.terms| == 2 ==> DocSegments(d, 0) == [SegmentOf(d, d.terms[0]), SegmentOf(d, d.terms[1])]
  {
    if |d.terms| == 1 {
      assert DocSegments(d, 1) == [];
    } else if |d.terms| == 2 {
      assert DocSegments(d, 2) == [];
      assert DocSegments(d, 1) == [SegmentOf(d, d.terms[1])];
    }
  }

  lemma {:induction false} AllEntries(word: seq<nat>, rest: seq<nat>)
    ensures AllSegments(Inserted(word, rest)) ==
            [Entry(word, 0, 1, 2), Entry(rest, 0, 1, 2), Entry(word, 1, 2, 5), Entry(rest, 1, 3, 5), Entry(word, 2, 1, 1)]
  {
    var docs := Inserted(word, rest);
    DocEntries(docs[0]);
    DocEntries(docs[1]);
    DocEntries(docs[2]);
    assert docs[..3] == docs && docs[..2][..1] == docs[..1] && docs[..1][..0] == [];
    SegmentsNext(docs, 0);
    SegmentsNext(docs, 1);
    SegmentsNext(docs, 2);
    assert docs[..0] == [] && AllSegments(docs[..0]) == [];
  }

  lemma {:induction false} StartIsGood(word: seq<nat>, rest: seq<nat>)
    requires Words(word, rest)
    ensures Good(Start(word, rest), 3, LIVE)
  {
    AllEntries(word, rest);
  }

  lemma {:induction false} LengthsAdd(a: Doc, b: Doc, c: Doc)
    ensures DocsLen([a, b, c]) == a.docLen + b.docLen + c.docLen
  {
    assert [a][..0] == [] && DocsLen([a]) == a.docLen;
    assert [a, b][..1] == [a] && DocsLen([a, b]) == a.docLen + b.docLen;
    assert [a, b, c][..2] == [a, b];
  }

  /** The counters before: three documents of length eight together. */
  lemma {:induction false} CountersBefore(word: seq<nat>, rest: seq<nat>)
    ensures CountersOf(Start(word, rest)) == Counters(0, 0, 3, 8)
  {
    var docs := Inserted(word, rest);
    LengthsAdd(docs[0], docs[1], docs[2]);
  }

  lemma {:induction false} LengthsAfter(word: seq<nat>, rest: seq<nat>)
    ensures NewDocLens(map[], Inserted(word, rest), LIVE) == map[0 := 2, 1 := 5]
  {
    var docs := Inserted(word, rest);
    NewDocLensNext(map[], docs, LIVE, 0);
    NewDocLensNext(map[], docs, LIVE, 1);
    NewDocLensNext(map[], docs, LIVE, 2);
    assert docs[..0] == [] && docs[..3] == docs;
    assert NewDocLens(map[], [], LIVE) == map[];
  }

  /** The counters after: the two that are alive. */
  lemma {:induction false} CountersAfter(word: seq<nat>, rest: seq<nat>)
    ensures CountersOf(Compacted(Start(word, rest), LIVE)) == Counters(2, 7, 0, 0)
  {
    LengthsAfter(word, rest);
    TotalOfTwo(2, 5);
  }

  lemma {:induction false} TotalOfTwo(x: nat, y: nat)
    ensures TotalLen(map[0 := x, 1 := y]) == x + y && |map[0 := x, 1 := y]| == 2
  {
    var m: map<nat, nat> := map[];
    TotalWith(m, 0, x);
    TotalWith(m[0 := x], 1, y);
    assert m[0 := x][1 := y] == map[0 := x, 1 := y];
  }

  // ----- scores

  /** The default parameters, without quantized norms. */
  ghost predicate Plain(cfg: Settings) {
    Lawful(cfg) && cfg.k1 == 1.2 && cfg.b == 0.75 && !cfg.quantized
  }

  /** The score of a document with the word, for a given average length. */
  function WordScore(cfg: Settings, avg: real, idf: real, tf: nat, docLen: nat): real
    requires Sane(cfg) && tf >= 1
  {
    Bm25.PostingScore(MetaOf(cfg, avg), idf, tf, docLen)
  }

  lemma {:induction false} SaturationsCompare(cfg: Settings, avg: real)
    requires Sane(cfg) && cfg.k1 == 1.2 && cfg.b == 0.75 && avg >= 1.0
    ensures var k := cfg.k1 + 1.0;
            var short, long := Bm25.Saturation(1.0, k, Bm25.Norm(MetaOf(cfg, avg), 2)), Bm25.Saturation(2.0, k, Bm25.Norm(MetaOf(cfg, avg), 5));
            (avg == 8.0 / 3.0 ==> short > long) && (avg == 7.0 / 2.0 ==> short < long)
  {
  }

  /** Longer documents on average favour the longer one. */
  lemma {:induction false} ScoresCompare(cfg: Settings, idf: real)
    requires Sane(cfg) && cfg.k1 == 1.2 && cfg.b == 0.75 && idf > 0.0
    ensures WordScore(cfg, 8.0 / 3.0, idf, 1, 2) > WordScore(cfg, 8.0 / 3.0, idf, 2, 5)
    ensures WordScore(cfg, 7.0 / 2.0, idf, 1, 2) < WordScore(cfg, 7.0 / 2.0, idf, 2, 5)
  {
    SaturationsCompare(cfg, 8.0 / 3.0);
    SaturationsCompare(cfg, 7.0 / 2.0);
  }

  lemma {:induction false} Averages()
    ensures AvgDocLen(Counters(0, 0, 3, 8)) == 8.0 / 3.0 && AvgDocLen(Counters(2, 7, 0, 0)) == 7.0 / 2.0
  {
  }

  ghost predicate Stands(node: nat, tf: nat, docLen: nat) {
    (node == 0 && tf == 1 && docLen == 2) || (node == 1 && tf == 2 && docLen == 5)
  }

  lemma {:induction false} WordIsPosted(word: seq<nat>, rest: seq<nat>, node: nat, tf: nat, docLen: nat)
    requires Words(word, rest) && Stands(node, tf, docLen)
    ensures Posted(Start(word, rest), TermOf(word, 1), node, tf, docLen)
  {
    AllEntries(word, rest);
    assert SeenDelta(Start(word, rest), TermOf(word, 1), node, Entry(word, node, tf, docLen));
  }

  /** The scores of the two documents, before and after. */
  lemma {:induction false} ScoresOf(cfg: Settings, word: seq<nat>, rest: seq<nat>, node: nat, tf: nat, docLen: nat)
    requires Plain(cfg) && Words(word, rest) && Stands(node, tf, docLen)
    ensures var s, key := Start(word, rest), TermOf(word, 1);
            && ScoredShare(cfg, s, key, node) == WordScore(cfg, 8.0 / 3.0, TermIdf(cfg, s, key), tf, docLen)
            && ScoredShare(cfg, Compacted(s, LIVE), key, node) ==
               WordScore(cfg, 7.0 / 2.0, TermIdf(cfg, Compacted(s, LIVE), key), tf, docLen)
  {
    StartIsGood(word, rest);
    WordIsPosted(word, rest, node, tf, docLen);
    PlainShares(cfg, Start(word, rest), 3, LIVE, TermOf(word, 1), node, tf, docLen);
    Averages();
    CountersBefore(word, rest);
    CountersAfter(word, rest);
  }

  // ----- the best answer

  lemma {:induction false} TopOfTwo(S: set<Accumulator.NodeScore>, a: Accumulator.NodeScore, b: Accumulator.NodeScore)
    requires a in S && Accumulator.Before(a, b) && forall x :: x in S ==> x == a || x == b
    ensures IsTopK(Accumulator.Before, S, 1, [a])
  {
    assert Beating(Accumulator.Before, S, a) == {};
    SubsetSize({a}, S);
  }

  /** The two live documents have the word, and no others. */
  lemma {:induction false} TermsOfWord(word: seq<nat>, rest: seq<nat>, t: QueryTerms, n: nat)
    requires Words(word, rest) && t.keys == [TermOf(word, 1)]
    ensures TermsOf(Start(word, rest), t, n) == if n < 2 then {0} else {}
  {
    var s := Start(word, rest);
    AllEntries(word, rest);
    if n < 2 {
      var x := Entry(word, n, n + 1, if n == 0 then 2 else 5);
      assert x in AllSegments(s.docs) && Live(LIVE, n);
      assert Triple(word, n, n + 1) in DeltaVisible(s.docs, LIVE);
    }
    if InSight(SeenIn(s), word, n) {
      var tf: nat :| Triple(word, n, tf) in SeenIn(s);
      assert Live(LIVE, n);
    }
  }

  /** The answers of an index in which the query finds the two documents. */
  lemma {:induction false} AnswersAre(cfg: Settings, s: Snapshot, key: Term, matcher: Matcher, t: QueryTerms)
    requires t == QueryOf(cfg, s, [key], NoPages([key])) && Matched(matcher, {0})
    requires forall n: nat :: TermsOf(s, t, n) == if n < 2 then {0} else {}
    ensures forall x :: x in ScoredAnswers(cfg, s, [key], matcher) <==> x.node < 2 && x.score == ScoredShare(cfg, s, key, x.node)
  {
    forall n: nat
      ensures Sum(TermShares(s, StorageIn(cfg, s), t, n)) == ScoredShare(cfg, s, key, n)
    {
      var shares := TermShares(s, StorageIn(cfg, s), t, n);
      assert |shares| == 1 && shares[0] == ScoredShare(cfg, s, key, n) && shares[1..] == [];
    }
  }

  /** The query finds the two documents. */
  ghost predicate FindsTwo(cfg: Settings, s: Snapshot, key: Term) {
    forall n: nat :: TermsOf(s, QueryOf(cfg, s, [key], NoPages([key])), n) == if n < 2 then {0} else {}
  }

  /** Then the one with the higher score is the best answer. */
  lemma {:induction false} BetterIsBest(cfg: Settings, s: Snapshot, key: Term, matcher: Matcher, best: nat, other: nat)
    requires FindsTwo(cfg, s, key) && Matched(matcher, {0}) && {best, other} == {0, 1}
    requires ScoredShare(cfg, s, key, best) > ScoredShare(cfg, s, key, other)
    ensures IsTopK(Accumulator.Before, ScoredAnswers(cfg, s, [key], matcher), 1, [Accumulator.NodeScore(best, ScoredShare(cfg, s, key, best))])
  {
    AnswersAre(cfg, s, key, matcher, QueryOf(cfg, s, [key], NoPages([key])));
    var a := Accumulator.NodeScore(best, ScoredShare(cfg, s, key, best));
    var b := Accumulator.NodeScore(other, ScoredShare(cfg, s, key, other));
    assert best in {0, 1} && other in {0, 1} && 0 in {best, other} && 1 in {best, other};
    TopOfTwo(ScoredAnswers(cfg, s, [key], matcher), a, b);
  }

  lemma {:induction false} BothFindTwo(cfg: Settings, word: seq<nat>, rest: seq<nat>)
    requires Words(word, rest)
    ensures FindsTwo(cfg, Start(word, rest), TermOf(word, 1)) && FindsTwo(cfg, Compacted(Start(word, rest), LIVE), TermOf(word, 1))
  {
    var s, key := Start(word, rest), TermOf(word, 1);
    var c := Compacted(s, LIVE);
    var t, t' := QueryOf(cfg, s, [key], NoPages([key])), QueryOf(cfg, c, [key], NoPages([key]));
    StartIsGood(word, rest);
    forall n: nat
      ensures TermsOf(s, t, n) == TermsOf(c, t', n) == if n < 2 then {0} else {}
    {
      TermsOfWord(word, rest, t, n);
      CompactionKeepsTerms(s, 3, LIVE, t, t', n);
    }
  }

  /**
   With the default parameters, and whatever logarithm is positive above one, a query for the
   word returns the first document before the compaction and the second one after it.
   */
  lemma {:induction false} BestAnswerChanges(cfg: Settings, word: seq<nat>, rest: seq<nat>, matcher: Matcher)
    requires Plain(cfg) && Words(word, rest) && Matched(matcher, {0})
    ensures var s, key := Start(word, rest), TermOf(word, 1);
            var c := Compacted(s, LIVE);
            && IsTopK(Accumulator.Before, ScoredAnswers(cfg, s, [key], matcher), 1, [Accumulator.NodeScore(0, ScoredShare(cfg, s, key, 0))])
            && IsTopK(Accumulator.Before, ScoredAnswers(cfg, c, [key], matcher), 1, [Accumulator.NodeScore(1, ScoredShare(cfg, c, key, 1))])
  {
    var s, key := Start(word, rest), TermOf(word, 1);
    BothFindTwo(cfg, word, rest);
    OrderChanges(cfg, word, rest);
    BetterIsBest(cfg, s, key, matcher, 0, 1);
    BetterIsBest(cfg, Compacted(s, LIVE), key, matcher, 1, 0);
  }

  /** The first document scores more before, the second one after. */
  lemma {:induction false} OrderChanges(cfg: Settings, word: seq<nat>, rest: seq<nat>)
    requires Plain(cfg) && Words(word, rest)
    ensures var s, key := Start(word, rest), TermOf(word, 1);
            var c := Compacted(s, LIVE);
            ScoredShare(cfg, s, key, 0) > ScoredShare(cfg, s, key, 1) && ScoredShare(cfg, c, key, 0) < ScoredShare(cfg, c, key, 1)
  {
    var s, key := Start(word, rest), TermOf(word, 1);
    ScoresOf(cfg, word, rest, 0, 1, 2);
    ScoresOf(cfg, word, rest, 1, 2, 5);
    StartIsGood(word, rest);
    PositiveIdfs(cfg, s, 3, LIVE, key);
    ScoresCompare(cfg, TermIdf(cfg, s, key));
    ScoresCompare(cfg, TermIdf(cfg, Compacted(s, LIVE), key));
  }

  // ----- empty documents

  /** A document without words is counted by the compaction that takes it from the delta, and no more by the next. */
  lemma {:induction false} EmptyDocumentDropsOut(node: nat, live: seq<bool>)
    requires Live(live, node)
    ensures var s := Snapshot([], map[], [Doc(node, node, 0, [])], live);
            var c := Compacted(s, live);
            CorpusDocs(CountersOf(c)) == CountersOf(c).docCount == 1 && CountersOf(Compacted(c, live)).docCount == 0
  {
    var docs := [Doc(node, node, 0, [])];
    NewDocLensNext(map[], docs, live, 0);
    assert docs[..0] == [] && docs[..1] == docs;
    assert NewDocLens(map[], [], live) == map[];
    var m: map<nat, nat> := map[node := 0];
    assert NewDocLens(map[], docs, live) == m && m.Keys == {node} && |m| == |m.Keys|;
    assert NewDocLens(m, [], live) == map[];
  }
}
