/** Posting lists in chunks, and the live postings an iterator over one shows. */
module PostingLists {
  import opened Wand

  /** A decoded posting with its contribution to its document's score. */
  datatype Posting = Posting(node: nat, score: real)

  /** A chunk: its postings, the last node id in its header, and the bound computed from its header. */
  datatype Chunk = Chunk(postings: seq<Posting>, lastNode: nat, bound: real)

  /** Document lengths and liveness by node id. */
  datatype Corpus = Corpus(docLens: seq<nat>, liveNodes: seq<bool>)

  /** A node that belongs to the base index and has not been deleted. */
  predicate Visible(c: Corpus, node: nat) {
    node < |c.docLens| && node < |c.liveNodes| && c.docLens[node] != 0 && c.liveNodes[node]
  }

  ghost predicate Sorted(ps: seq<Posting>) {
    forall i, j :: 0 <= i < j < |ps| ==> ps[i].node < ps[j].node
  }

  ghost predicate ValidChunk(ch: Chunk) {
    && ch.postings != []
    && ch.lastNode == ch.postings[|ch.postings| - 1].node
    && Sorted(ch.postings)
    && (forall i :: 0 <= i < |ch.postings| ==> 0.0 <= ch.postings[i].score <= ch.bound)
  }

  /** Every node of one chunk is below every node of the other. */
  ghost predicate Precedes(a: Chunk, b: Chunk) {
    a.postings != [] && b.postings != [] && a.lastNode < b.postings[0].node
  }

  ghost predicate ValidList(chunks: seq<Chunk>) {
    && (forall k :: 0 <= k < |chunks| ==> ValidChunk(chunks[k]))
    && (forall k, m :: 0 <= k < m < |chunks| ==> Precedes(chunks[k], chunks[m]))
  }

  // ----- the live postings of a list

  /** The live postings among ps, each with the bound of its chunk, followed by tail. */
  ghost function LiveOnto(c: Corpus, ps: seq<Posting>, bound: real, tail: seq<Live>): seq<Live> {
    if ps == [] then tail
    else if Visible(c, ps[0].node)
    then [Live(ps[0].node, ps[0].score, bound)] + LiveOnto(c, ps[1..], bound, tail)
    else LiveOnto(c, ps[1..], bound, tail)
  }

  /** The live postings from chunk k on. */
  ghost function ListFrom(c: Corpus, chunks: seq<Chunk>, k: nat): seq<Live>
    requires k <= |chunks|
    decreases |chunks| - k
  {
    if k == |chunks| then []
    else LiveOnto(c, chunks[k].postings, chunks[k].bound, ListFrom(c, chunks, k + 1))
  }

  /** What an iterator over the whole list shows, in order. */
  ghost function LiveList(c: Corpus, chunks: seq<Chunk>): seq<Live> {
    ListFrom(c, chunks, 0)
  }

  /** Chunk bounds never grow along the list. */
  ghost predicate BoundsNeverGrow(chunks: seq<Chunk>) {
    forall k, m :: 0 <= k < m < |chunks| ==> chunks[m].bound <= chunks[k].bound
  }

  ghost predicate NodesFrom(l: seq<Live>, lo: nat) {
    forall a :: 0 <= a < |l| ==> lo <= l[a].node
  }

  /** Every bound in l is at most b, and bounds never grow along l. */
  ghost predicate Tightening(l: seq<Live>, b: real) {
    && (forall a :: 0 <= a < |l| ==> l[a].bound <= b)
    && (forall a, e :: 0 <= a < e < |l| ==> l[e].bound <= l[a].bound)
  }

  /** What may follow a posting of a chunk with the given bound, strictly after node lo - 1. */
  ghost predicate Tail(l: seq<Live>, lo: nat) {
    Ascending(l) && Bounded(l) && NodesFrom(l, lo)
  }

  lemma {:induction false} TailPrepend(x: Live, l: seq<Live>, lo: nat)
    requires Tail(l, x.node + 1) && lo <= x.node && 0.0 <= x.score <= x.bound
    ensures Tail([x] + l, lo)
    ensures Tightening(l, x.bound) ==> Tightening([x] + l, x.bound)
  {
    var r := [x] + l;
    assert forall a :: 0 < a < |r| ==> r[a] == l[a - 1];
  }

  lemma {:induction false} LiveOntoFacts(c: Corpus, ps: seq<Posting>, bound: real, tail: seq<Live>, lo: nat)
    requires Sorted(ps) && forall i :: 0 <= i < |ps| ==> lo <= ps[i].node && 0.0 <= ps[i].score <= bound
    requires Tail(tail, if ps == [] then lo else ps[|ps| - 1].node + 1)
    ensures Tail(LiveOnto(c, ps, bound, tail), lo)
    ensures Tightening(tail, bound) ==> Tightening(LiveOnto(c, ps, bound, tail), bound)
  {
    if ps != [] {
      LiveOntoFacts(c, ps[1..], bound, tail, ps[0].node + 1);
      var x := Live(ps[0].node, ps[0].score, bound);
      TailPrepend(x, LiveOnto(c, ps[1..], bound, tail), lo);
    }
  }

  /** The first node of chunk k, a lower bound of everything from there on. */
  ghost function FirstNode(chunks: seq<Chunk>, k: nat): nat
    requires ValidList(chunks) && k <= |chunks|
  {
    if k < |chunks| then chunks[k].postings[0].node else 0
  }

  lemma {:induction false} ListFromFacts(c: Corpus, chunks: seq<Chunk>, k: nat)
    requires ValidList(chunks) && k <= |chunks|
    ensures var l := ListFrom(c, chunks, k);
            && Tail(l, FirstNode(chunks, k))
            && (BoundsNeverGrow(chunks) && k < |chunks| ==> Tightening(l, chunks[k].bound))
    decreases |chunks| - k
  {
    if k < |chunks| {
      ListFromFacts(c, chunks, k + 1);
      assert ValidChunk(chunks[k]);
      var tail := ListFrom(c, chunks, k + 1);
      if k + 1 < |chunks| {
        assert Precedes(chunks[k], chunks[k + 1]);
        assert BoundsNeverGrow(chunks) ==> Tightening(tail, chunks[k].bound);
      }
      LiveOntoFacts(c, chunks[k].postings, chunks[k].bound, tail, chunks[k].postings[0].node);
    }
  }

  /** The live postings of a valid list are ascending and bounded; bounds that never grow make it safe for WAND. */
  lemma {:induction false} LiveListFacts(c: Corpus, chunks: seq<Chunk>)
    requires ValidList(chunks)
    ensures Ascending(LiveList(c, chunks)) && Bounded(LiveList(c, chunks))
    ensures BoundsNeverGrow(chunks) ==> Safe(LiveList(c, chunks))
  {
    ListFromFacts(c, chunks, 0);
    if BoundsNeverGrow(chunks) {
      NonIncreasingIsSafe(LiveList(c, chunks));
    }
  }
}
