/** Folding the delta into the base: what a query can see before is exactly what it sees after. */
module Compaction {
  import opened Sequences
  import opened Ranking
  import opened TermTuples
  import SpillMerge
  import opened DeltaStore
  import opened DocLengths

  // ----- the base as a list of tuples

  /** The postings of one chunk as tuples of their term. */
  function ChunkTuples(e: Entry, ps: seq<Posting>): (ts: seq<Tuple>)
    ensures |ts| == |ps| && forall i :: 0 <= i < |ps| ==> ts[i] == Tuple(e.hash, e.bytes, ps[i].node, ps[i].tf)
  {
    seq(|ps|, i requires 0 <= i < |ps| => Tuple(e.hash, e.bytes, ps[i].node, ps[i].tf))
  }

  /** The postings of the chunks from c on. */
  function EntryTuples(e: Entry, c: nat): seq<Tuple>
    requires c <= |e.chunks|
    decreases |e.chunks| - c
  {
    if c == |e.chunks| then [] else ChunkTuples(e, e.chunks[c]) + EntryTuples(e, c + 1)
  }

  /** Everything a lexicon holds. */
  function Contents(lexicon: seq<Entry>): seq<Tuple> {
    if lexicon == [] then [] else EntryTuples(lexicon[0], 0) + Contents(lexicon[1..])
  }

  lemma {:induction false} EntryFlattens(e: Entry, c: nat)
    requires c <= |e.chunks|
    ensures EntryTuples(e, c) == ChunkTuples(e, Flatten(e.chunks[c..]))
    decreases |e.chunks| - c
  {
    if c < |e.chunks| {
      EntryFlattens(e, c + 1);
      assert e.chunks[c..][1..] == e.chunks[c + 1..];
    } else {
      assert e.chunks[c..] == [];
    }
  }

  lemma {:induction false} GroupKept(g: seq<Tuple>, size: nat)
    requires g != [] && size > 0 && forall i :: 0 <= i < |g| ==> SameTerm(g[0], g[i])
    ensures EntryTuples(EntryOf(g, size), 0) == g
  {
    var e := EntryOf(g, size);
    EntryFlattens(e, 0);
    ChunkedFlattens(Postings(g), size);
    assert e.chunks[0..] == e.chunks;
    forall i | 0 <= i < |g|
      ensures ChunkTuples(e, Postings(g))[i] == g[i]
    {
      assert SameTerm(g[0], g[i]);
    }
  }

  lemma {:induction false} ContentsCons(e: Entry, rest: seq<Entry>)
    ensures Contents([e] + rest) == EntryTuples(e, 0) + Contents(rest)
  {
    assert ([e] + rest)[1..] == rest;
  }

  /** Writing the lexicon loses nothing: reading it gives the tuples back, in order. */
  lemma {:induction false} LexiconKeeps(s: seq<Tuple>, size: nat)
    requires size > 0
    ensures Contents(Lexicon(s, size)) == s
    decreases |s|
  {
    if s != [] {
      var n := GroupLength(s, 1);
      var g, rest := s[..n], s[n..];
      assert s == g + rest;
      assert forall i :: 0 <= i < |g| ==> SameTerm(g[0], g[i]);
      var e := EntryOf(g, size);
      assert Lexicon(s, size) == [e] + Lexicon(rest, size);
      GroupKept(g, size);
      LexiconKeeps(rest, size);
      ContentsCons(e, Lexicon(rest, size));
    }
  }

  // ----- what a query can see

  datatype Triple = Triple(bytes: seq<nat>, node: nat, tf: nat)

  predicate Live(live: seq<bool>, node: nat) { node < |live| && live[node] }

  /** A base posting of a document that is live and whose length is known. */
  predicate BaseSees(live: seq<bool>, docLens: map<nat, nat>, t: Tuple) {
    Live(live, t.node) && t.node in docLens && docLens[t.node] > 0
  }

  ghost function BaseVisible(base: seq<Tuple>, docLens: map<nat, nat>, live: seq<bool>): set<Triple> {
    set t | t in base && BaseSees(live, docLens, t) :: Triple(t.bytes, t.node, t.tf)
  }

  ghost function DeltaVisible(docs: seq<Doc>, live: seq<bool>): set<Triple> {
    set x | x in AllSegments(docs) && Live(live, x.node) :: Triple(x.bytes, x.node, x.tf)
  }

  // ----- collecting

  function KeptBase(base: seq<Tuple>, docLens: map<nat, nat>, live: seq<bool>): seq<Tuple> {
    if base == [] then []
    else
      var n := |base| - 1;
      KeptBase(base[..n], docLens, live) + if BaseSees(live, docLens, base[n]) then [base[n]] else []
  }

  lemma {:induction false} KeptAppend(base: seq<Tuple>, t: Tuple, docLens: map<nat, nat>, live: seq<bool>)
    ensures KeptBase(base + [t], docLens, live) == KeptBase(base, docLens, live) + if BaseSees(live, docLens, t) then [t] else []
  {
    assert (base + [t])[..|base|] == base;
  }

  function TupleOf(x: Segment): Tuple { Tuple(HashTerm(x.bytes), x.bytes, x.node, x.tf) }

  function KeptDelta(segs: seq<Segment>, live: seq<bool>): seq<Tuple> {
    if segs == [] then []
    else
      var n := |segs| - 1;
      KeptDelta(segs[..n], live) + if Live(live, segs[n].node) then [TupleOf(segs[n])] else []
  }

  lemma {:induction false} KeptDeltaAppend(segs: seq<Segment>, x: Segment, live: seq<bool>)
    ensures KeptDelta(segs + [x], live) == KeptDelta(segs, live) + if Live(live, x.node) then [TupleOf(x)] else []
  {
    assert (segs + [x])[..|segs|] == segs;
  }

  lemma {:induction false} InKeptBase(base: seq<Tuple>, docLens: map<nat, nat>, live: seq<bool>, t: Tuple)
    ensures t in KeptBase(base, docLens, live) <==> t in base && BaseSees(live, docLens, t)
  {
    if base != [] {
      var n := |base| - 1;
      InKeptBase(base[..n], docLens, live, t);
      assert base == base[..n] + [base[n]];
    }
  }

  lemma {:induction false} InKeptDelta(segs: seq<Segment>, live: seq<bool>, t: Tuple)
    ensures t in KeptDelta(segs, live) <==> Comes(segs, live, t)
  {
    if segs != [] {
      var p, x := segs[..|segs| - 1], segs[|segs| - 1];
      InKeptDelta(p, live, t);
      KeptDeltaStep(p, x, live, t);
      assert segs == p + [x];
    }
  }

  ghost predicate Comes(segs: seq<Segment>, live: seq<bool>, t: Tuple) {
    exists i :: 0 <= i < |segs| && TupleOf(segs[i]) == t && Live(live, segs[i].node)
  }

  lemma {:induction false} KeptDeltaStep(p: seq<Segment>, x: Segment, live: seq<bool>, t: Tuple)
    requires t in KeptDelta(p, live) <==> Comes(p, live, t)
    ensures t in KeptDelta(p + [x], live) <==> Comes(p + [x], live, t)
  {
    var s := p + [x];
    KeptDeltaAppend(p, x, live);
    assert s[|p|] == x;
    if i :| 0 <= i < |p| && TupleOf(p[i]) == t && Live(live, p[i].node) {
      assert s[i] == p[i];
    }
    if i :| 0 <= i < |s| && TupleOf(s[i]) == t && Live(live, s[i].node) {
      assert i < |p| ==> p[i] == s[i];
    }
  }

  // ----- keys stay distinct

  lemma {:induction false} KeptBaseKeys(base: seq<Tuple>, docLens: map<nat, nat>, live: seq<bool>)
    requires DistinctKeys(base)
    ensures DistinctKeys(KeptBase(base, docLens, live))
  {
    if base != [] {
      var n := |base| - 1;
      KeptBaseKeys(base[..n], docLens, live);
      var k := KeptBase(base[..n], docLens, live);
      forall i | 0 <= i < |k|
        ensures !(SameTerm(k[i], base[n]) && k[i].node == base[n].node)
      {
        InKeptBase(base[..n], docLens, live, k[i]);
        assert k[i] in k;
        var j :| 0 <= j < n && base[..n][j] == k[i];
        assert base[j] == k[i];
      }
    }
  }

  /** Every inserted document has a node of its own and each of its terms once. */
  ghost predicate DistinctSegments(segs: seq<Segment>) {
    forall i, j :: 0 <= i < j < |segs| ==> !(segs[i].bytes == segs[j].bytes && segs[i].node == segs[j].node)
  }

  lemma {:induction false} KeptDeltaKeys(segs: seq<Segment>, live: seq<bool>)
    requires DistinctSegments(segs)
    ensures DistinctKeys(KeptDelta(segs, live))
  {
    if segs != [] {
      var n := |segs| - 1;
      KeptDeltaKeys(segs[..n], live);
      var k, t := KeptDelta(segs[..n], live), TupleOf(segs[n]);
      forall i | 0 <= i < |k|
        ensures !(SameTerm(k[i], t) && k[i].node == t.node)
      {
        InKeptDelta(segs[..n], live, k[i]);
        assert k[i] in k;
        var j :| 0 <= j < |segs[..n]| && TupleOf(segs[..n][j]) == k[i] && Live(live, segs[..n][j].node);
        assert segs[..n][j] == segs[j];
      }
    }
  }

  lemma {:induction false} JoinedKeys(a: seq<Tuple>, b: seq<Tuple>)
    requires DistinctKeys(a) && DistinctKeys(b)
    requires forall x, y :: x in a && y in b ==> x.node != y.node
    ensures DistinctKeys(a + b)
  {
    var c := a + b;
    forall i, j | 0 <= i < j < |c|
      ensures !(SameTerm(c[i], c[j]) && c[i].node == c[j].node)
    {
      if i < |a| && j >= |a| {
        assert c[i] in a && c[j] in b;
      } else if i >= |a| {
        assert c[i] == b[i - |a|] && c[j] == b[j - |a|];
      }
    }
  }

  // ----- the collecting loops

  predicate Proper(t: Tuple) { t.bytes != [] && t.tf > 0 && t.hash == HashTerm(t.bytes) }

  method AddTuple(collector: SpillMerge.Collector, t: Tuple) returns (ok: bool)
    requires collector.Valid() && Proper(t)
    modifies collector
    ensures collector.Valid() && collector.docs == old(collector.docs) && collector.Affords(ok)
    ensures ok ==> collector.added == old(collector.added) + [t]
  {
    ok := collector.AppendBuildTerm(HashTerm(t.bytes), t.bytes, t.node, t.tf);
  }

  lemma {:induction false} NextTuple(done: seq<Tuple>, ts: seq<Tuple>, i: nat, all: seq<Tuple>)
    requires i < |ts| && done + ts[i..] == all
    ensures (done + [ts[i]]) + ts[i + 1..] == all
  {
    assert ts[i..] == [ts[i]] + ts[i + 1..];
  }

  lemma {:induction false} NextEntry(done: seq<Tuple>, lexicon: seq<Entry>, n: nat, all: seq<Tuple>)
    requires n < |lexicon| && done + Contents(lexicon[n..]) == all
    ensures (done + EntryTuples(lexicon[n], 0)) + Contents(lexicon[n + 1..]) == all
    ensures Contents(lexicon[n..]) == EntryTuples(lexicon[n], 0) + Contents(lexicon[n + 1..])
  {
    assert lexicon[n..][1..] == lexicon[n + 1..];
  }

  /** The visible postings of a list of tuples, as the lexicon delivers them. */
  method CollectTuples(collector: SpillMerge.Collector, ts: seq<Tuple>, docLens: map<nat, nat>, live: seq<bool>,
                       ghost before: seq<Tuple>)
    returns (ok: bool)
    requires collector.Valid() && collector.added == KeptBase(before, docLens, live)
    requires AllProper(ts)
    modifies collector
    ensures collector.Valid() && collector.docs == old(collector.docs) && collector.Affords(ok)
    ensures ok ==> collector.added == KeptBase(before + ts, docLens, live)
  {
    ok := true;
    var i: nat := 0;
    ghost var done, all := before, before + ts;
    assert ts[0..] == ts;
    while i < |ts| && ok
      invariant i <= |ts| && collector.Valid() && collector.docs == old(collector.docs) && collector.Affords(ok)
      invariant done + ts[i..] == all
      invariant ok ==> collector.added == KeptBase(done, docLens, live)
    {
      NextTuple(done, ts, i, all);
      KeptAppend(done, ts[i], docLens, live);
      if BaseSees(live, docLens, ts[i]) {
        ok := AddTuple(collector, ts[i]);
      }
      done := done + [ts[i]];
      i := i + 1;
    }
    assert ok ==> ts[i..] == [] && done + [] == done;
  }

  ghost predicate AllProper(ts: seq<Tuple>) {
    forall i :: 0 <= i < |ts| ==> Proper(ts[i])
  }

  /** One more chunk of an entry is done. */
  lemma {:induction false} NextChunk(done: seq<Tuple>, e: Entry, c: nat, all: seq<Tuple>)
    requires c < |e.chunks| && done + EntryTuples(e, c) == all && AllProper(EntryTuples(e, c))
    ensures var ts := ChunkTuples(e, e.chunks[c]);
            && AllProper(ts) && AllProper(EntryTuples(e, c + 1)) && (done + ts) + EntryTuples(e, c + 1) == all
  {
    ProperParts(ChunkTuples(e, e.chunks[c]), EntryTuples(e, c + 1));
  }

  /** Reads one lexicon entry, chunk by chunk. */
  method CollectEntry(collector: SpillMerge.Collector, e: Entry, docLens: map<nat, nat>, live: seq<bool>,
                      ghost before: seq<Tuple>)
    returns (ok: bool)
    requires collector.Valid() && collector.added == KeptBase(before, docLens, live) && AllProper(EntryTuples(e, 0))
    modifies collector
    ensures collector.Valid() && collector.docs == old(collector.docs) && collector.Affords(ok)
    ensures ok ==> collector.added == KeptBase(before + EntryTuples(e, 0), docLens, live)
  {
    ok := true;
    var c: nat := 0;
    ghost var done, all := before, before + EntryTuples(e, 0);
    while c < |e.chunks| && ok
      invariant c <= |e.chunks| && collector.Valid() && collector.docs == old(collector.docs) && collector.Affords(ok)
      invariant done + EntryTuples(e, c) == all && AllProper(EntryTuples(e, c))
      invariant ok ==> collector.added == KeptBase(done, docLens, live)
    {
      NextChunk(done, e, c, all);
      var ts := ChunkTuples(e, e.chunks[c]);
      ok := CollectTuples(collector, ts, docLens, live, done);
      done := done + ts;
      c := c + 1;
    }
    assert ok ==> done + [] == done;
  }

  lemma {:induction false} ProperParts(a: seq<Tuple>, b: seq<Tuple>)
    requires AllProper(a + b)
    ensures AllProper(a) && AllProper(b)
  {
    assert forall i :: 0 <= i < |a| ==> (a + b)[i] == a[i];
    assert forall i :: 0 <= i < |b| ==> (a + b)[|a| + i] == b[i];
  }

  method CollectBase(collector: SpillMerge.Collector, lexicon: seq<Entry>, docLens: map<nat, nat>,
                     live: seq<bool>) returns (ok: bool)
    requires collector.Valid() && collector.added == [] && AllProper(Contents(lexicon))
    modifies collector
    ensures collector.Valid() && collector.docs == old(collector.docs) && collector.Affords(ok)
    ensures ok ==> collector.added == KeptBase(Contents(lexicon), docLens, live)
  {
    ok := true;
    var n: nat := 0;
    ghost var done: seq<Tuple> := [];
    assert lexicon[0..] == lexicon && done + Contents(lexicon) == Contents(lexicon);
    while n < |lexicon| && ok
      invariant n <= |lexicon| && collector.Valid() && collector.docs == old(collector.docs) && collector.Affords(ok)
      invariant done + Contents(lexicon[n..]) == Contents(lexicon)
      invariant AllProper(Contents(lexicon[n..]))
      invariant ok ==> collector.added == KeptBase(done, docLens, live)
    {
      NextEntry(done, lexicon, n, Contents(lexicon));
      ProperParts(EntryTuples(lexicon[n], 0), Contents(lexicon[n + 1..]));
      ok := CollectEntry(collector, lexicon[n], docLens, live, done);
      done := done + EntryTuples(lexicon[n], 0);
      n := n + 1;
    }
    assert ok ==> lexicon[n..] == [] && done + [] == done;
  }

  /** A dead document is skipped whole. */
  lemma {:induction false} KeptDeltaDead(segs: seq<Segment>, d: Doc, i: nat, live: seq<bool>)
    requires i <= |d.terms| && !Live(live, d.node)
    ensures KeptDelta(segs + DocSegments(d, i), live) == KeptDelta(segs, live)
    decreases |d.terms| - i
  {
    if i < |d.terms| {
      var x := SegmentOf(d, d.terms[i]);
      KeptDeltaAppend(segs, x, live);
      KeptDeltaDead(segs + [x], d, i + 1, live);
      assert segs + ([x] + DocSegments(d, i + 1)) == (segs + [x]) + DocSegments(d, i + 1);
    } else {
      assert segs + [] == segs;
    }
  }

  predicate ProperTerm(t: Term) { t.bytes != [] && t.tf > 0 && t.hash == HashTerm(t.bytes) }

  method CollectDoc(collector: SpillMerge.Collector, d: Doc, live: seq<bool>, ghost base: seq<Tuple>,
                    ghost segs: seq<Segment>)
    returns (ok: bool)
    requires collector.Valid() && collector.added == base + KeptDelta(segs, live)
    requires forall i :: 0 <= i < |d.terms| ==> ProperTerm(d.terms[i])
    modifies collector
    ensures collector.Valid() && collector.docs == old(collector.docs) && collector.Affords(ok)
    ensures ok ==> collector.added == base + KeptDelta(segs + DocSegments(d, 0), live)
  {
    ok := true;
    if !Live(live, d.node) {
      KeptDeltaDead(segs, d, 0, live);
      return;
    }
    ghost var done := segs;
    var i: nat := 0;
    while i < |d.terms| && ok
      invariant i <= |d.terms| && collector.Valid() && collector.docs == old(collector.docs) && collector.Affords(ok)
      invariant done + DocSegments(d, i) == segs + DocSegments(d, 0)
      invariant ok ==> collector.added == base + KeptDelta(done, live)
    {
      ghost var x := SegmentOf(d, d.terms[i]);
      ok := AddTuple(collector, Tuple(HashTerm(d.terms[i].bytes), d.terms[i].bytes, d.node, d.terms[i].tf));
      DeltaStep(base, done, x, DocSegments(d, i + 1), live);
      done := done + [x];
      i := i + 1;
    }
    assert ok ==> done + [] == done;
  }

  lemma {:induction false} DeltaStep(base: seq<Tuple>, done: seq<Segment>, x: Segment, rest: seq<Segment>,
                                     live: seq<bool>)
    ensures done + ([x] + rest) == (done + [x]) + rest
    ensures Live(live, x.node) ==> base + KeptDelta(done + [x], live) == (base + KeptDelta(done, live)) + [TupleOf(x)]
  {
    KeptDeltaAppend(done, x, live);
  }

  /** A document with terms has a length. */
  ghost predicate ProperDoc(d: Doc) {
    forall i :: 0 <= i < |d.terms| ==> ProperTerm(d.terms[i]) && d.docLen > 0
  }

  ghost predicate ProperDocs(docs: seq<Doc>) {
    forall k :: 0 <= k < |docs| ==> ProperDoc(docs[k])
  }

  lemma {:induction false} SegmentsNext(docs: seq<Doc>, n: nat)
    requires n < |docs|
    ensures AllSegments(docs[..n + 1]) == AllSegments(docs[..n]) + DocSegments(docs[n], 0)
  {
    assert docs[..n + 1][..n] == docs[..n];
  }

  // ----- the documents that are kept

  /** A live document joins the table unless it is in it. */
  function WithDoc(m: map<nat, nat>, d: Doc, live: seq<bool>): map<nat, nat> {
    if Live(live, d.node) && d.node !in m then m[d.node := d.docLen] else m
  }

  /** The document lengths after compaction: live base documents, and live delta documents not among them. */
  function NewDocLens(docLens: map<nat, nat>, docs: seq<Doc>, live: seq<bool>): map<nat, nat> {
    if docs == [] then map n | n in docLens && Live(live, n) && docLens[n] > 0 :: docLens[n]
    else
      WithDoc(NewDocLens(docLens, docs[..|docs| - 1], live), docs[|docs| - 1], live)
  }

  lemma {:induction false} NewDocLensNext(docLens: map<nat, nat>, docs: seq<Doc>, live: seq<bool>, n: nat)
    requires n < |docs|
    ensures NewDocLens(docLens, docs[..n + 1], live) == WithDoc(NewDocLens(docLens, docs[..n], live), docs[n], live)
  {
    assert docs[..n + 1][..n] == docs[..n];
  }

  /** The documents listed, and those marked as seen, are the ones of the table. */
  ghost predicate Marked(docs: seq<BuildDoc>, seen: set<nat>, m: map<nat, nat>) {
    Lists(docs, m) && seen == m.Keys
  }

  /** The base documents below n that are kept. */
  ghost function KeptBelow(docLens: map<nat, nat>, live: seq<bool>, n: nat): map<nat, nat> {
    map k | k in docLens && Live(live, k) && docLens[k] > 0 && k < n :: docLens[k]
  }

  predicate Keeps(docLens: map<nat, nat>, live: seq<bool>, n: nat) {
    n in docLens && Live(live, n) && docLens[n] > 0
  }

  lemma {:induction false} KeptBelowNext(docLens: map<nat, nat>, live: seq<bool>, n: nat)
    ensures KeptBelow(docLens, live, n + 1) ==
            if Keeps(docLens, live, n) then KeptBelow(docLens, live, n)[n := docLens[n]] else KeptBelow(docLens, live, n)
  {
  }

  lemma {:induction false} MarkedNext(docs: seq<BuildDoc>, seen: set<nat>, docLens: map<nat, nat>, live: seq<bool>,
                                      n: nat)
    requires Marked(docs, seen, KeptBelow(docLens, live, n))
    ensures Keeps(docLens, live, n) ==> Marked(docs + [BuildDoc(n, docLens[n])], seen + {n}, KeptBelow(docLens, live, n + 1))
    ensures !Keeps(docLens, live, n) ==> Marked(docs, seen, KeptBelow(docLens, live, n + 1))
  {
    KeptBelowNext(docLens, live, n);
    if Keeps(docLens, live, n) {
      ListsMore(docs, KeptBelow(docLens, live, n), n, docLens[n]);
    }
  }

  lemma {:induction false} MarkedStarts(docLens: map<nat, nat>, live: seq<bool>)
    ensures Marked([], {}, KeptBelow(docLens, live, 0))
  {
    assert KeptBelow(docLens, live, 0) == map[];
  }

  lemma {:induction false} MarkedIsFewer(docs: seq<BuildDoc>, seen: set<nat>, docLens: map<nat, nat>, live: seq<bool>,
                                         n: nat)
    requires Marked(docs, seen, KeptBelow(docLens, live, n))
    ensures |docs| <= |docLens|
    ensures n >= |live| ==> KeptBelow(docLens, live, n) == NewDocLens(docLens, [], live)
  {
    var m := KeptBelow(docLens, live, n);
    SubsetSize(m.Keys, docLens.Keys);
    assert |docLens| == |docLens.Keys| && |m| == |m.Keys|;
  }

  method CollectDocsNext(collector: SpillMerge.Collector, docLens: map<nat, nat>, live: seq<bool>, n: nat,
                         seen: set<nat>)
    returns (ok: bool, seen': set<nat>)
    requires n < |live| && collector.Valid() && Marked(collector.docs, seen, KeptBelow(docLens, live, n))
    modifies collector
    ensures collector.Valid() && collector.added == old(collector.added) && collector.Affords(ok)
    ensures Marked(collector.docs, seen', KeptBelow(docLens, live, n + 1))
  {
    ok, seen' := true, seen;
    MarkedNext(collector.docs, seen, docLens, live, n);
    if live[n] && n in docLens && docLens[n] > 0 {
      ok := collector.AppendBuildDoc(n, docLens[n]);
      seen' := seen + {n};
    }
  }

  /** The documents that the base keeps, one by one. */
  method CollectDocs(collector: SpillMerge.Collector, docLens: map<nat, nat>, live: seq<bool>) returns (ok: bool,
                     seen: set<nat>)
    requires collector.Valid() && collector.docs == []
    modifies collector
    ensures collector.Valid() && collector.added == old(collector.added) && collector.Affords(ok)
    ensures collector.docCount <= |docLens|
    ensures ok ==> Marked(collector.docs, seen, NewDocLens(docLens, [], live))
  {
    ok, seen := true, {};
    var n: nat := 0;
    MarkedStarts(docLens, live);
    while n < |live| && ok
      invariant n <= |live| && collector.Valid() && collector.added == old(collector.added) && collector.Affords(ok)
      invariant Marked(collector.docs, seen, KeptBelow(docLens, live, n))
    {
      ok, seen := CollectDocsNext(collector, docLens, live, n, seen);
      n := n + 1;
    }
    MarkedIsFewer(collector.docs, seen, docLens, live, n);
  }

  /** One delta document: the document itself unless it was seen, and its postings. */
  method CollectDeltaDoc(collector: SpillMerge.Collector, d: Doc, live: seq<bool>, seen: set<nat>,
                         ghost base: seq<Tuple>, ghost segs: seq<Segment>, ghost m: map<nat, nat>)
    returns (ok: bool, seen': set<nat>)
    requires collector.Valid() && collector.added == base + KeptDelta(segs, live) && ProperDoc(d) && Marked(collector.docs, seen, m)
    modifies collector
    ensures collector.Valid() && collector.Affords(ok)
    ensures Marked(collector.docs, seen', WithDoc(m, d, live)) && collector.docCount <= old(collector.docCount) + 1
    ensures ok ==> collector.added == base + KeptDelta(segs + DocSegments(d, 0), live)
  {
    ok, seen' := true, seen;
    if Live(live, d.node) && d.node !in seen {
      ListsMore(collector.docs, m, d.node, d.docLen);
      ok := collector.AppendBuildDoc(d.node, d.docLen);
      seen' := seen + {d.node};
    }
    if ok {
      ok := CollectDoc(collector, d, live, base, segs);
    }
  }

  /** The first n delta documents are collected: their postings, and they themselves among those listed. */
  ghost predicate DeltaDone(added: seq<Tuple>, listed: seq<BuildDoc>, seen: set<nat>,
                            base: seq<Tuple>, docLens: map<nat, nat>, docs: seq<Doc>, live: seq<bool>, n: nat)
    requires n <= |docs|
  {
    added == base + KeptDelta(AllSegments(docs[..n]), live) && Marked(listed, seen, NewDocLens(docLens, docs[..n], live))
  }

  lemma {:induction false} DeltaStarts(base: seq<Tuple>, listed: seq<BuildDoc>, seen: set<nat>,
                                       docLens: map<nat, nat>, docs: seq<Doc>, live: seq<bool>)
    requires Marked(listed, seen, NewDocLens(docLens, [], live))
    ensures DeltaDone(base, listed, seen, base, docLens, docs, live, 0)
  {
    assert docs[..0] == [] && base + [] == base;
  }

  lemma {:induction false} DeltaEnds(added: seq<Tuple>, listed: seq<BuildDoc>, seen: set<nat>,
                                     base: seq<Tuple>, docLens: map<nat, nat>, docs: seq<Doc>, live: seq<bool>, n: nat)
    requires n == |docs| && DeltaDone(added, listed, seen, base, docLens, docs, live, n)
    ensures added == base + KeptDelta(AllSegments(docs), live) && Lists(listed, NewDocLens(docLens, docs, live))
  {
    assert docs[..n] == docs;
  }

  method CollectDeltaNext(collector: SpillMerge.Collector, docs: seq<Doc>, n: nat, live: seq<bool>, seen: set<nat>,
                          ghost base: seq<Tuple>, ghost docLens: map<nat, nat>)
    returns (ok: bool, seen': set<nat>)
    requires n < |docs| && collector.Valid() && ProperDocs(docs)
    requires DeltaDone(collector.added, collector.docs, seen, base, docLens, docs, live, n)
    modifies collector
    ensures collector.Valid() && collector.Affords(ok) && collector.docCount <= old(collector.docCount) + 1
    ensures ok ==> DeltaDone(collector.added, collector.docs, seen', base, docLens, docs, live, n + 1)
  {
    assert ProperDoc(docs[n]);
    ok, seen' := CollectDeltaDoc(collector, docs[n], live, seen, base, AllSegments(docs[..n]), NewDocLens(docLens, docs[..n], live));
    SegmentsNext(docs, n);
    NewDocLensNext(docLens, docs, live, n);
  }

  method CollectDelta(collector: SpillMerge.Collector, docs: seq<Doc>, live: seq<bool>, seen: set<nat>,
                      ghost base: seq<Tuple>, ghost docLens: map<nat, nat>)
    returns (ok: bool)
    requires collector.Valid() && collector.added == base && ProperDocs(docs)
    requires Marked(collector.docs, seen, NewDocLens(docLens, [], live))
    modifies collector
    ensures collector.Valid() && collector.Affords(ok) && collector.docCount <= old(collector.docCount) + |docs|
    ensures ok ==> collector.added == base + KeptDelta(AllSegments(docs), live) && Lists(collector.docs, NewDocLens(docLens, docs, live))
  {
    ok := true;
    var n, seen' := 0, seen;
    DeltaStarts(base, collector.docs, seen, docLens, docs, live);
    while n < |docs| && ok
      invariant n <= |docs| && collector.Valid() && collector.Affords(ok)
      invariant collector.docCount <= old(collector.docCount) + n
      invariant ok ==> DeltaDone(collector.added, collector.docs, seen', base, docLens, docs, live, n)
    {
      ok, seen' := CollectDeltaNext(collector, docs, n, live, seen', base, docLens);
      n := n + 1;
    }
    if ok {
      DeltaEnds(collector.added, collector.docs, seen', base, docLens, docs, live, n);
    }
  }

  // ----- compaction keeps what is visible

  /** What a query sees of base and delta together. */
  ghost function Visible(base: seq<Tuple>, docLens: map<nat, nat>, docs: seq<Doc>, live: seq<bool>): set<Triple> {
    BaseVisible(base, docLens, live) + DeltaVisible(docs, live)
  }

  /** Documents of the delta are unknown to the base. */
  ghost predicate Fresh(base: seq<Tuple>, docLens: map<nat, nat>, docs: seq<Doc>) {
    forall k :: 0 <= k < |docs| ==> docs[k].node !in docLens && forall t :: t in base ==> t.node != docs[k].node
  }

  ghost function Collected(base: seq<Tuple>, docLens: map<nat, nat>, docs: seq<Doc>, live: seq<bool>): seq<Tuple> {
    KeptBase(base, docLens, live) + KeptDelta(AllSegments(docs), live)
  }

  lemma {:induction false} SegmentHasDoc(docs: seq<Doc>, x: Segment) returns (k: nat, i: nat)
    requires x in AllSegments(docs)
    ensures k < |docs| && i < |docs[k].terms| && x == SegmentOf(docs[k], docs[k].terms[i])
  {
    var n := |docs| - 1;
    if x in AllSegments(docs[..n]) {
      k, i := SegmentHasDoc(docs[..n], x);
    } else {
      k := n;
      i := InDocSegments(docs[n], 0, x);
    }
  }

  /** An entry of a document: one of its terms, with its frequency, and the node, length and tid of the document. */
  ghost predicate EntryOfDoc(d: Doc, t: Term, x: Segment) {
    && x.hash == t.hash && x.bytes == t.bytes && x.tf == t.tf
    && x.node == d.node && x.docLen == d.docLen && x.tid == d.tid
  }

  ghost predicate EntryOfDocs(docs: seq<Doc>, x: Segment) {
    exists k, i :: 0 <= k < |docs| && 0 <= i < |docs[k].terms| && EntryOfDoc(docs[k], docs[k].terms[i], x)
  }

  lemma {:induction false} TermHasSegment(d: Doc, i: nat, j: nat)
    requires i <= j < |d.terms|
    ensures SegmentOf(d, d.terms[j]) in DocSegments(d, i)
    decreases |d.terms| - i
  {
    if i < j {
      TermHasSegment(d, i + 1, j);
    }
  }

  lemma {:induction false} DocHasSegments(docs: seq<Doc>, k: nat, i: nat)
    requires k < |docs| && i < |docs[k].terms|
    ensures SegmentOf(docs[k], docs[k].terms[i]) in AllSegments(docs)
  {
    if k < |docs| - 1 {
      DocHasSegments(docs[..|docs| - 1], k, i);
    } else {
      TermHasSegment(docs[k], 0, i);
    }
  }

  /** The delta holds exactly the entries of its documents. */
  lemma {:induction false} SegmentsAreEntries(docs: seq<Doc>, x: Segment)
    ensures x in AllSegments(docs) <==> EntryOfDocs(docs, x)
  {
    if x in AllSegments(docs) {
      var k, i := SegmentHasDoc(docs, x);
      assert EntryOfDoc(docs[k], docs[k].terms[i], x);
    }
    if k, i :| 0 <= k < |docs| && 0 <= i < |docs[k].terms| && EntryOfDoc(docs[k], docs[k].terms[i], x) {
      DocHasSegments(docs, k, i);
      assert x == SegmentOf(docs[k], docs[k].terms[i]);
    }
  }

  lemma {:induction false} InDocSegments(d: Doc, i: nat, x: Segment) returns (j: nat)
    requires i <= |d.terms| && x in DocSegments(d, i)
    ensures j < |d.terms| && x == SegmentOf(d, d.terms[j])
    decreases |d.terms| - i
  {
    if x == SegmentOf(d, d.terms[i]) {
      j := i;
    } else {
      j := InDocSegments(d, i + 1, x);
    }
  }

  lemma {:induction false} CollectedKeys(base: seq<Tuple>, docLens: map<nat, nat>, docs: seq<Doc>, live: seq<bool>)
    requires DistinctKeys(base) && DistinctSegments(AllSegments(docs)) && Fresh(base, docLens, docs)
    ensures DistinctKeys(Collected(base, docLens, docs, live))
  {
    var segs := AllSegments(docs);
    KeptBaseKeys(base, docLens, live);
    KeptDeltaKeys(segs, live);
    forall x, y | x in KeptBase(base, docLens, live) && y in KeptDelta(segs, live)
      ensures x.node != y.node
    {
      InKeptBase(base, docLens, live, x);
      InKeptDelta(segs, live, y);
      var i :| 0 <= i < |segs| && TupleOf(segs[i]) == y && Live(live, segs[i].node);
      var k, j := SegmentHasDoc(docs, segs[i]);
    }
    JoinedKeys(KeptBase(base, docLens, live), KeptDelta(segs, live));
  }

  ghost function Triples(ts: seq<Tuple>): set<Triple> {
    set t | t in ts :: Triple(t.bytes, t.node, t.tf)
  }

  lemma {:induction false} CollectedIsVisible(base: seq<Tuple>, docLens: map<nat, nat>, docs: seq<Doc>, live: seq<bool>)
    ensures Triples(Collected(base, docLens, docs, live)) == Visible(base, docLens, docs, live)
  {
    var segs, all := AllSegments(docs), Collected(base, docLens, docs, live);
    forall x | x in Triples(all)
      ensures x in Visible(base, docLens, docs, live)
    {
      var t :| t in all && x == Triple(t.bytes, t.node, t.tf);
      InKeptBase(base, docLens, live, t);
      InKeptDelta(segs, live, t);
      if t !in KeptBase(base, docLens, live) {
        var i :| 0 <= i < |segs| && TupleOf(segs[i]) == t && Live(live, segs[i].node);
        assert segs[i] in segs;
      }
    }
    forall x | x in Visible(base, docLens, docs, live)
      ensures x in Triples(all)
    {
      if x in BaseVisible(base, docLens, live) {
        var t :| t in base && BaseSees(live, docLens, t) && x == Triple(t.bytes, t.node, t.tf);
        InKeptBase(base, docLens, live, t);
      } else {
        var y :| y in segs && Live(live, y.node) && x == Triple(y.bytes, y.node, y.tf);
        var i :| 0 <= i < |segs| && segs[i] == y;
        assert Comes(segs, live, TupleOf(y));
        InKeptDelta(segs, live, TupleOf(y));
      }
    }
  }

  lemma {:induction false} KnownLengths(docLens: map<nat, nat>, docs: seq<Doc>, live: seq<bool>, n: nat)
    ensures n in NewDocLens(docLens, docs, live) ==>
              Live(live, n) && (n in docLens || exists k :: 0 <= k < |docs| && docs[k].node == n)
    ensures n in docLens && Live(live, n) && docLens[n] > 0 ==>
              n in NewDocLens(docLens, docs, live) && NewDocLens(docLens, docs, live)[n] == docLens[n]
    ensures forall k :: 0 <= k < |docs| && docs[k].node == n && Live(live, n) ==> n in NewDocLens(docLens, docs, live)
    ensures n in NewDocLens(docLens, docs, live) && n !in docLens ==>
              exists k :: 0 <= k < |docs| && docs[k].node == n && NewDocLens(docLens, docs, live)[n] == docs[k].docLen
  {
    if docs != [] {
      var p := docs[..|docs| - 1];
      KnownLengths(docLens, p, live, n);
      assert forall k :: 0 <= k < |p| ==> p[k] == docs[k];
      var d := docs[|docs| - 1];
      assert docs[|docs| - 1].node == d.node;
    }
  }

  /** Everything collected is visible again, from the base alone. */
  lemma {:induction false} CollectedStaysVisible(base: seq<Tuple>, docLens: map<nat, nat>, docs: seq<Doc>,
                                                 live: seq<bool>, t: Tuple)
    requires t in Collected(base, docLens, docs, live) && ProperDocs(docs) && Fresh(base, docLens, docs)
    requires forall j, k :: 0 <= j < |docs| && 0 <= k < |docs| && docs[j].node == docs[k].node ==> j == k
    ensures BaseSees(live, NewDocLens(docLens, docs, live), t)
  {
    var segs := AllSegments(docs);
    KnownLengths(docLens, docs, live, t.node);
    InKeptBase(base, docLens, live, t);
    InKeptDelta(segs, live, t);
    if t !in KeptBase(base, docLens, live) {
      var i :| 0 <= i < |segs| && TupleOf(segs[i]) == t && Live(live, segs[i].node);
      var k, j := SegmentHasDoc(docs, segs[i]);
      assert ProperDoc(docs[k]) && docs[k].docLen > 0;
    }
  }

  /** Documents only die after live was read. */
  ghost predicate Within(live': seq<bool>, live: seq<bool>) {
    forall n: nat :: Live(live', n) ==> Live(live, n)
  }

  /** A query sees the same of both, with the live nodes of now or of any later time. */
  ghost predicate SeesAlike(base: seq<Tuple>, docLens: map<nat, nat>, docs: seq<Doc>,
                            base': seq<Tuple>, docLens': map<nat, nat>, docs': seq<Doc>, live: seq<bool>) {
    forall live' :: Within(live', live) ==> Visible(base', docLens', docs', live') == Visible(base, docLens, docs, live')
  }

  /** With fewer live nodes a query sees the part that belongs to them. */
  lemma {:induction false} VisibleRestricts(base: seq<Tuple>, docLens: map<nat, nat>, docs: seq<Doc>, live: seq<bool>,
                                            live': seq<bool>)
    requires Within(live', live)
    ensures Visible(base, docLens, docs, live') == set x | x in Visible(base, docLens, docs, live) && Live(live', x.node)
  {
    forall t: Tuple
      ensures BaseSees(live', docLens, t) <==> BaseSees(live, docLens, t) && Live(live', t.node)
    {
    }
    assert BaseVisible(base, docLens, live') == set x | x in BaseVisible(base, docLens, live) && Live(live', x.node);
    assert DeltaVisible(docs, live') == set x | x in DeltaVisible(docs, live) && Live(live', x.node);
  }

  /** What is seen alike when live is read is seen alike ever after. */
  lemma {:induction false} AlikeEverAfter(base: seq<Tuple>, docLens: map<nat, nat>, docs: seq<Doc>,
                                          base': seq<Tuple>, docLens': map<nat, nat>, docs': seq<Doc>, live: seq<bool>)
    requires Visible(base', docLens', docs', live) == Visible(base, docLens, docs, live)
    ensures SeesAlike(base, docLens, docs, base', docLens', docs', live)
  {
    forall live' | Within(live', live)
      ensures Visible(base', docLens', docs', live') == Visible(base, docLens, docs, live')
    {
      VisibleRestricts(base, docLens, docs, live, live');
      VisibleRestricts(base', docLens', docs', live, live');
    }
  }

  lemma {:induction false} VisibleAfter(base: seq<Tuple>, docLens: map<nat, nat>, docs: seq<Doc>, live: seq<bool>,
                                        base': seq<Tuple>)
    requires multiset(base') == multiset(Collected(base, docLens, docs, live)) && ProperDocs(docs) && Fresh(base, docLens, docs)
    requires forall j, k :: 0 <= j < |docs| && 0 <= k < |docs| && docs[j].node == docs[k].node ==> j == k
    ensures SeesAlike(base, docLens, docs, base', NewDocLens(docLens, docs, live), [], live)
  {
    var all, m := Collected(base, docLens, docs, live), NewDocLens(docLens, docs, live);
    CollectedIsVisible(base, docLens, docs, live);
    forall t: Tuple
      ensures t in base' <==> t in all
    {
      assert t in base' <==> t in multiset(base');
      assert t in all <==> t in multiset(all);
    }
    forall t | t in all
      ensures BaseSees(live, m, t)
    {
      CollectedStaysVisible(base, docLens, docs, live, t);
    }
    assert BaseVisible(base', m, live) == Triples(all);
    assert DeltaVisible([], live) == {};
    AlikeEverAfter(base, docLens, docs, base', m, [], live);
  }

  // ----- the index

  ghost predicate DistinctDocs(docs: seq<Doc>) {
    forall j, k :: 0 <= j < |docs| && 0 <= k < |docs| && docs[j].node == docs[k].node ==> j == k
  }

  ghost predicate DistinctTerms(d: Doc) {
    forall i, j :: 0 <= i < j < |d.terms| ==> d.terms[i].bytes != d.terms[j].bytes
  }

  /** Postings of the base belong to documents with a length. */
  ghost predicate Known(base: seq<Tuple>, docLens: map<nat, nat>) {
    forall t :: t in base ==> t.node in docLens && docLens[t.node] > 0
  }

  /** What inserts and compactions keep of the stored base and delta. */
  ghost predicate Stored(base: seq<Tuple>, docLens: map<nat, nat>, docs: seq<Doc>, nodeCount: nat) {
    && Sorted(Before, base) && DistinctKeys(base) && (forall i :: 0 <= i < |base| ==> Proper(base[i]) && base[i].node < nodeCount)
    && Known(base, docLens) && (forall n :: n in docLens ==> n < nodeCount)
    && ProperDocs(docs) && DistinctDocs(docs) && Fresh(base, docLens, docs) && DistinctSegments(AllSegments(docs))
    && forall k :: 0 <= k < |docs| ==> docs[k].node < nodeCount
  }

  lemma {:induction false} InsertKeeps(base: seq<Tuple>, docLens: map<nat, nat>, docs: seq<Doc>, nodeCount: nat, d: Doc)
    requires Stored(base, docLens, docs, nodeCount) && d.node >= nodeCount && DistinctTerms(d) && ProperDoc(d)
    ensures Stored(base, docLens, docs + [d], d.node + 1)
  {
    var docs' := docs + [d];
    forall k | 0 <= k < |docs'|
      ensures docs'[k] == (if k < |docs| then docs[k] else d) && docs'[k].node < d.node + 1
      ensures docs'[k].node !in docLens
    {
    }
    assert docs'[..|docs|] == docs;
    SegmentsStayDistinct(docs, d, nodeCount);
    forall k, t | 0 <= k < |docs'| && t in base
      ensures t.node != docs'[k].node
    {
      var i :| 0 <= i < |base| && base[i] == t;
    }
  }

  lemma {:induction false} SegmentsStayDistinct(docs: seq<Doc>, d: Doc, nodeCount: nat)
    requires DistinctSegments(AllSegments(docs)) && DistinctTerms(d) && d.node >= nodeCount
    requires forall k :: 0 <= k < |docs| ==> docs[k].node < nodeCount
    ensures DistinctSegments(AllSegments(docs) + DocSegments(d, 0))
  {
    var a, b := AllSegments(docs), DocSegments(d, 0);
    forall i | 0 <= i < |a|
      ensures a[i].node < nodeCount
    {
      assert a[i] in a;
      var k, j := SegmentHasDoc(docs, a[i]);
    }
    if d.terms != [] {
      DocSegmentsAt(d, 0, 0);
    }
    forall i | 0 <= i < |b|
      ensures i < |d.terms| && b[i] == SegmentOf(d, d.terms[i])
    {
      DocSegmentsAt(d, 0, i);
    }
  }

  lemma {:induction false} StaysKnown(base: seq<Tuple>, docLens: map<nat, nat>, docs: seq<Doc>, live: seq<bool>,
                                      base': seq<Tuple>)
    requires ProperDocs(docs) && Fresh(base, docLens, docs) && DistinctDocs(docs)
    requires multiset(base') == multiset(Collected(base, docLens, docs, live))
    ensures Known(base', NewDocLens(docLens, docs, live))
  {
    forall t | t in base'
      ensures t.node in NewDocLens(docLens, docs, live) && NewDocLens(docLens, docs, live)[t.node] > 0
    {
      assert t in multiset(base');
      CollectedStaysVisible(base, docLens, docs, live, t);
    }
  }

  lemma {:induction false} CompactionKeeps(base: seq<Tuple>, docLens: map<nat, nat>, docs: seq<Doc>, nodeCount: nat,
                                           live: seq<bool>)
    requires Stored(base, docLens, docs, nodeCount)
    ensures Stored(SortBy(Before, Collected(base, docLens, docs, live)), NewDocLens(docLens, docs, live), [], nodeCount)
    ensures SeesAlike(base, docLens, docs, SortBy(Before, Collected(base, docLens, docs, live)), NewDocLens(docLens, docs, live), [], live)
  {
    var all := Collected(base, docLens, docs, live);
    CollectedKeys(base, docLens, docs, live);
    BeforeIsWeakOrder();
    SortBySorts(Before, all);
    SameMultisetDistinctKeys(all, SortBy(Before, all));
    VisibleAfter(base, docLens, docs, live, SortBy(Before, all));
    StaysKnown(base, docLens, docs, live, SortBy(Before, all));
    SortedIsProper(base, docLens, docs, nodeCount, live, SortBy(Before, all));
    LengthsBelow(base, docLens, docs, nodeCount, live);
    assert AllSegments([]) == [];
  }

  /** A new base that can take the place of base and delta. */
  ghost predicate Replaces(base: seq<Tuple>, docLens: map<nat, nat>, docs: seq<Doc>, nodeCount: nat, live: seq<bool>,
                           base': seq<Tuple>, docLens': map<nat, nat>, docs': seq<Doc>) {
    Stored(base', docLens', docs', nodeCount) && SeesAlike(base, docLens, docs, base', docLens', docs', live)
  }

  lemma {:induction false} ReplacementKeeps(base: seq<Tuple>, docLens: map<nat, nat>, docs: seq<Doc>, nodeCount: nat,
                                            live: seq<bool>,
                                            base': seq<Tuple>, docLens': map<nat, nat>)
    requires Stored(base, docLens, docs, nodeCount) && docLens' == NewDocLens(docLens, docs, live)
    requires base' == SortBy(Before, Collected(base, docLens, docs, live))
    ensures Replaces(base, docLens, docs, nodeCount, live, base', docLens', [])
  {
    CompactionKeeps(base, docLens, docs, nodeCount, live);
  }

  lemma {:induction false} SortedIsProper(base: seq<Tuple>, docLens: map<nat, nat>, docs: seq<Doc>, nodeCount: nat,
                                          live: seq<bool>, base': seq<Tuple>)
    requires Stored(base, docLens, docs, nodeCount) && multiset(base') == multiset(Collected(base, docLens, docs, live))
    ensures forall i :: 0 <= i < |base'| ==> Proper(base'[i]) && base'[i].node < nodeCount
  {
    forall i | 0 <= i < |base'|
      ensures Proper(base'[i]) && base'[i].node < nodeCount
    {
      assert base'[i] in multiset(Collected(base, docLens, docs, live));
      CollectedIsProper(base, docLens, docs, nodeCount, live, base'[i]);
    }
  }

  lemma {:induction false} LengthsBelow(base: seq<Tuple>, docLens: map<nat, nat>, docs: seq<Doc>, nodeCount: nat,
                                        live: seq<bool>)
    requires Stored(base, docLens, docs, nodeCount)
    ensures forall n :: n in NewDocLens(docLens, docs, live) ==> n < nodeCount
  {
    forall n | n in NewDocLens(docLens, docs, live)
      ensures n < nodeCount
    {
      KnownLengths(docLens, docs, live, n);
    }
  }

  lemma {:induction false} CollectedIsProper(base: seq<Tuple>, docLens: map<nat, nat>, docs: seq<Doc>, nodeCount: nat,
                                             live: seq<bool>, t: Tuple)
    requires Stored(base, docLens, docs, nodeCount) && t in Collected(base, docLens, docs, live)
    ensures Proper(t) && t.node < nodeCount
  {
    var segs := AllSegments(docs);
    InKeptBase(base, docLens, live, t);
    InKeptDelta(segs, live, t);
    if t in KeptBase(base, docLens, live) {
      var i :| 0 <= i < |base| && base[i] == t;
    } else {
      var i :| 0 <= i < |segs| && TupleOf(segs[i]) == t && Live(live, segs[i].node);
      var k, j := SegmentHasDoc(docs, segs[i]);
      assert ProperDoc(docs[k]) && ProperTerm(docs[k].terms[j]);
    }
  }

  lemma {:induction false} AmpleIsEnough(b: SpillMerge.Budget, n: nat, m: nat)
    requires n <= m
    ensures SpillMerge.Ample(b, m) ==> SpillMerge.Ample(b, n)
  {
    if SpillMerge.Ample(b, m) {
      SpillMerge.AmpleForFewer(b, n, m);
    }
  }

  /** Documents and postings in the order of the source: base documents, base postings, delta. */
  method CollectAll(collector: SpillMerge.Collector, lexicon: seq<Entry>, docLens: map<nat, nat>, docs: seq<Doc>,
                    live: seq<bool>) returns (ok: bool)
    requires collector.Valid() && collector.docs == [] && collector.added == []
    requires AllProper(Contents(lexicon)) && ProperDocs(docs)
    modifies collector
    ensures collector.Valid() && (SpillMerge.Ample(collector.budget, |docLens| + |docs|) ==> ok)
    ensures ok ==> collector.added == Collected(Contents(lexicon), docLens, docs, live)
    ensures ok ==> Lists(collector.docs, NewDocLens(docLens, docs, live))
  {
    var seen;
    ok, seen := CollectDocs(collector, docLens, live);
    if ok {
      ok := CollectBase(collector, lexicon, docLens, live);
    }
    if ok {
      ok := CollectDelta(collector, docs, live, seen, collector.added, docLens);
    }
    AmpleIsEnough(collector.budget, collector.docCount, |docLens| + |docs|);
  }

  /** A base written from collected postings and documents: its lexicon, lengths and counters. */
  datatype Written = Written(lexicon: seq<Entry>, docLens: map<nat, nat>, docCount: nat, totalDocLen: nat)

  /** The counters are those of the table of lengths. */
  ghost predicate CountsTable(docCount: nat, totalDocLen: nat, docLens: map<nat, nat>) {
    docCount == |docLens| && totalDocLen == TotalLen(docLens)
  }

  /** Collects every visible posting, within whatever memory budget, and writes the new base. */
  method CollectVisible(lexicon: seq<Entry>, docLens: map<nat, nat>, docs: seq<Doc>, live: seq<bool>,
                        budget: SpillMerge.Budget, size: nat,
                        ghost base: seq<Tuple>)
    returns (ok: bool, w: Written)
    requires size > 0 && Contents(lexicon) == base && AllProper(base) && ProperDocs(docs)
    requires DistinctKeys(Collected(base, docLens, docs, live))
    ensures SpillMerge.Ample(budget, |docLens| + |docs|) ==> ok
    ensures ok ==> w.lexicon == Lexicon(SortBy(Before, Collected(base, docLens, docs, live)), size)
    ensures ok ==> w.docLens == NewDocLens(docLens, docs, live) && CountsTable(w.docCount, w.totalDocLen, w.docLens)
  {
    w := Written([], map[], 0, 0);
    var collector := new SpillMerge.Collector(budget);
    ok := CollectAll(collector, lexicon, docLens, docs, live);
    if ok {
      var docLens' := WriteDocStats(collector.docs);
      w := Written([], docLens', collector.docCount, collector.totalDocLen);
      var lexicon' := collector.WriteLexicon(size);
      w := w.(lexicon := lexicon');
    }
  }

  lemma {:induction false} ReadyToCollect(base: seq<Tuple>, docLens: map<nat, nat>, docs: seq<Doc>, nodeCount: nat,
                                          live: seq<bool>, size: nat)
    requires Stored(base, docLens, docs, nodeCount) && size > 0
    ensures Contents(Lexicon(base, size)) == base && AllProper(base) && ProperDocs(docs)
    ensures DistinctKeys(Collected(base, docLens, docs, live))
  {
    LexiconKeeps(base, size);
    CollectedKeys(base, docLens, docs, live);
  }

  /** Collecting what is stored. */
  method CollectStored(lexicon: seq<Entry>, docLens: map<nat, nat>, docs: seq<Doc>, live: seq<bool>,
                       budget: SpillMerge.Budget, size: nat, ghost base: seq<Tuple>, ghost nodeCount: nat)
    returns (ok: bool, w: Written)
    requires size > 0 && lexicon == Lexicon(base, size) && Stored(base, docLens, docs, nodeCount)
    ensures SpillMerge.Ample(budget, |docLens| + |docs|) ==> ok
    ensures ok ==> w.lexicon == Lexicon(SortBy(Before, Collected(base, docLens, docs, live)), size)
    ensures ok ==> w.docLens == NewDocLens(docLens, docs, live) && CountsTable(w.docCount, w.totalDocLen, w.docLens)
  {
    ReadyToCollect(base, docLens, docs, nodeCount, live, size);
    ok, w := CollectVisible(lexicon, docLens, docs, live, budget, size, base);
  }

  lemma {:induction false} HashedTerms(d: Doc)
    requires ProperDoc(d)
    ensures forall i :: 0 <= i < |d.terms| ==> d.terms[i].hash == HashTerm(d.terms[i].bytes)
  {
  }

  /** The larger of two products is that with the larger factor. */
  lemma {:induction false} DueIff(inserted: nat, docs: nat, threshold: nat)
    ensures inserted * 100 >= (if docs > 1 then docs else 1) * threshold <==> 100 * inserted >= threshold * docs && 100 * inserted >= threshold
  {
    ProductAtLeast(docs, threshold);
    assert docs == 1 ==> threshold * docs == threshold;
    assert docs == 0 ==> threshold * docs == 0;
  }

  lemma {:induction false} ProductAtLeast(n: nat, x: nat)
    ensures n * x == x * n && (n >= 1 ==> n * x >= x)
  {
    if n >= 1 {
      assert n * x == (n - 1) * x + x;
    }
  }

  class Index {
    var lexicon: seq<Entry>
    var docLens: map<nat, nat>
    var docCount: nat
    var totalDocLen: nat
    const delta: Delta
    var nodeCount: nat
    var compactions: nat
    const chunkSize: nat
    ghost var base: seq<Tuple>

    ghost predicate Valid()
      reads this, delta
    {
      && chunkSize > 0 && lexicon == Lexicon(base, chunkSize)
      && CountsTable(docCount, totalDocLen, docLens)
      && delta.Valid() && Stored(base, docLens, delta.docs, nodeCount)
    }

    /** The delta holds at least threshold percent of the base's documents. */
    predicate Due(threshold: nat)
      reads this, delta
    {
      delta.docCount > 0 && delta.docCount * 100 >= (if docCount > 1 then docCount else 1) * threshold
    }

    ghost function Sees(live: seq<bool>): set<Triple>
      reads this, delta
    {
      Visible(base, docLens, delta.docs, live)
    }

    constructor (chunkSize: nat)
      requires chunkSize > 0
      ensures Valid() && fresh(delta) && base == [] && delta.docs == []
    {
      this.chunkSize := chunkSize;
      lexicon, docLens, docCount, totalDocLen, nodeCount, compactions, base := [], map[], 0, 0, 0, 0, [];
      delta := new Delta();
    }

    /** A delta is due exactly when it is not empty and holds so many documents for each hundred of the base, or of one. */
    lemma {:induction false} DueMeans(threshold: nat)
      requires Valid()
      ensures Due(threshold) <==>
              delta.docs != [] && 100 * |delta.docs| >= threshold * |docLens| && 100 * |delta.docs| >= threshold
      ensures Due(0) <==> delta.docs != []
    {
      DueIff(delta.docCount, docCount, threshold);
      DueIff(delta.docCount, docCount, 0);
    }

    /** A completed insert: a document with a node id beyond all known ones. */
    method Insert(d: Doc)
      requires Valid() && d.node >= nodeCount && DistinctTerms(d) && ProperDoc(d)
      modifies this, delta
      ensures Valid() && delta.docs == old(delta.docs) + [d] && base == old(base) && docLens == old(docLens)
      ensures forall threshold: nat :: old(Due(threshold)) ==> Due(threshold)
    {
      InsertKeeps(base, docLens, delta.docs, nodeCount, d);
      HashedTerms(d);
      nodeCount := d.node + 1;
      delta.AppendDelta(d);
    }

    /** Writes the new base over base and delta. */
    method Install(w: Written, ghost base': seq<Tuple>)
      requires delta.Valid()
      modifies this, delta
      ensures delta.Valid() && w == Written(lexicon, docLens, docCount, totalDocLen) && base == base' && nodeCount == old(nodeCount)
      ensures delta.docs == [] && delta.generation == old(delta.generation) + 1 && compactions == old(compactions) + 1
    {
      lexicon, docLens, docCount, totalDocLen := w.lexicon, w.docLens, w.docCount, w.totalDocLen;
      compactions, base := compactions + 1, base';
      delta.Reset();
    }

    /** The new base takes the place of base and delta. */
    method Replace(w: Written, ghost live: seq<bool>)
      requires Valid() && w.docLens == NewDocLens(docLens, delta.docs, live) && CountsTable(w.docCount, w.totalDocLen, w.docLens)
      requires w.lexicon == Lexicon(SortBy(Before, Collected(base, docLens, delta.docs, live)), chunkSize)
      modifies this, delta
      ensures Valid() && SeesAlike(old(base), old(docLens), old(delta.docs), base, docLens, delta.docs, live)
      ensures delta.docs == [] && delta.generation == old(delta.generation) + 1 && compactions == old(compactions) + 1
      ensures base == SortBy(Before, Collected(old(base), old(docLens), old(delta.docs), live)) && docLens == w.docLens
    {
      ghost var base' := SortBy(Before, Collected(base, docLens, delta.docs, live));
      ReplacementKeeps(base, docLens, delta.docs, nodeCount, live, base', w.docLens);
      Install(w, base');
      assert Replaces(old(base), old(docLens), old(delta.docs), nodeCount, live, base, docLens, delta.docs);
    }

    /** Writes a new base from what is live, and puts it in place of base and delta; too little memory changes nothing. */
    method Compact(live: seq<bool>, budget: SpillMerge.Budget) returns (ok: bool)
      requires Valid()
      modifies this, delta
      ensures Valid() && SeesAlike(old(base), old(docLens), old(delta.docs), base, docLens, delta.docs, live)
      ensures ok ==> delta.docs == [] && delta.generation == old(delta.generation) + 1 && compactions == old(compactions) + 1
      ensures ok ==> base == SortBy(Before, Collected(old(base), old(docLens), old(delta.docs), live))
      ensures ok ==> docLens == NewDocLens(old(docLens), old(delta.docs), live)
      ensures SpillMerge.Ample(budget, |old(docLens)| + |old(delta.docs)|) ==> ok
      ensures !ok ==> delta.docs == old(delta.docs) && base == old(base) && delta.generation == old(delta.generation)
    {
      var w;
      ok, w := CollectLive(live, budget);
      if ok {
        Replace(w, live);
      }
    }

    /** What a new base would be. */
    method CollectLive(live: seq<bool>, budget: SpillMerge.Budget) returns (ok: bool, w: Written)
      requires Valid()
      ensures SpillMerge.Ample(budget, |docLens| + |delta.docs|) ==> ok
      ensures ok ==> w.lexicon == Lexicon(SortBy(Before, Collected(base, docLens, delta.docs, live)), chunkSize)
      ensures ok ==> w.docLens == NewDocLens(docLens, delta.docs, live) && CountsTable(w.docCount, w.totalDocLen, w.docLens)
    {
      ok, w := CollectStored(lexicon, docLens, delta.docs, live, budget, chunkSize, base, nodeCount);
    }

    /**
     Folds the delta into the base once it is large enough.  What a query sees with the live
     nodes of the time, or of any later time, is the same before and after; the delta is empty
     and the generation new.
     */
    method MaybeCompact(live: seq<bool>, threshold: nat, budget: SpillMerge.Budget) returns (done: bool)
      requires Valid()
      modifies this, delta
      ensures Valid() && SeesAlike(old(base), old(docLens), old(delta.docs), base, docLens, delta.docs, live)
      ensures forall live' :: Within(live', live) ==> Sees(live') == old(Sees(live'))
      ensures done ==> old(delta.docs) != [] &&
                       100 * |old(delta.docs)| >= threshold * |old(docLens)| && 100 * |old(delta.docs)| >= threshold
      ensures done ==> delta.docs == [] && delta.generation == old(delta.generation) + 1 && compactions == old(compactions) + 1
      ensures done ==> base == SortBy(Before, Collected(old(base), old(docLens), old(delta.docs), live))
      ensures done ==> docLens == NewDocLens(old(docLens), old(delta.docs), live)
      ensures SpillMerge.Ample(budget, |old(docLens)| + |old(delta.docs)|) ==>
                (done <==> old(delta.docs) != [] &&
                           100 * |old(delta.docs)| >= threshold * |old(docLens)| && 100 * |old(delta.docs)| >= threshold)
      ensures !done ==> delta.docs == old(delta.docs) && base == old(base) && delta.generation == old(delta.generation)
    {
      done := false;
      DueMeans(threshold);
      if Due(threshold) {
        done := Compact(live, budget);
      }
    }
  }
}
