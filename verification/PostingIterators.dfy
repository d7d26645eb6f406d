/** The chunked postings iterator: what it still has ahead, and how seeking changes that. */
module PostingIterators {
  import opened Wand
  import opened PostingLists

  /** The live postings from posting p of chunk k on. */
  ghost function AheadAt(c: Corpus, chunks: seq<Chunk>, k: nat, p: nat): seq<Live>
    requires k < |chunks| && p <= |chunks[k].postings|
  {
    LiveOnto(c, chunks[k].postings[p..], chunks[k].bound,
             ListFrom(c, chunks, k + 1))
  }

  lemma {:induction false} StepOverDead(c: Corpus, chunks: seq<Chunk>, k: nat, p: nat)
    requires k < |chunks| && p < |chunks[k].postings| && !Visible(c, chunks[k].postings[p].node)
    ensures AheadAt(c, chunks, k, p + 1) == AheadAt(c, chunks, k, p)
  {
    assert chunks[k].postings[p..][1..] == chunks[k].postings[p + 1..];
  }

  lemma {:induction false} StepOffChunk(c: Corpus, chunks: seq<Chunk>, k: nat)
    requires k < |chunks|
    ensures AheadAt(c, chunks, k, |chunks[k].postings|) == ListFrom(c, chunks, k + 1)
  {
    assert chunks[k].postings[|chunks[k].postings|..] == [];
  }

  /** Stepping over one posting below the target does not change what seeking would leave. */
  lemma {:induction false} StepBelow(c: Corpus, chunks: seq<Chunk>, k: nat, p: nat, target: nat)
    requires k < |chunks| && p < |chunks[k].postings| && chunks[k].postings[p].node < target
    ensures DropBelow(AheadAt(c, chunks, k, p + 1), target) == DropBelow(AheadAt(c, chunks, k, p), target)
  {
    var ps := chunks[k].postings[p..];
    assert ps[1..] == chunks[k].postings[p + 1..];
    if Visible(c, ps[0].node) {
      assert AheadAt(c, chunks, k, p)[1..] == AheadAt(c, chunks, k, p + 1);
    }
  }

  lemma {:induction false} NothingBelow(c: Corpus, chunks: seq<Chunk>, k: nat, p: nat, target: nat)
    requires ValidList(chunks) && k < |chunks| && p < |chunks[k].postings|
    requires target <= chunks[k].postings[p].node
    ensures DropBelow(AheadAt(c, chunks, k, p), target) == AheadAt(c, chunks, k, p)
  {
    var ps := chunks[k].postings[p..];
    ListFromFacts(c, chunks, k + 1);
    assert ValidChunk(chunks[k]);
    assert k + 1 < |chunks| ==> Precedes(chunks[k], chunks[k + 1]);
    LiveOntoFacts(c, ps, chunks[k].bound, ListFrom(c, chunks, k + 1), target);
  }

  lemma {:induction false} SkipDead(c: Corpus, chunks: seq<Chunk>, k: nat, p: nat, q: nat)
    requires k < |chunks| && p <= q <= |chunks[k].postings|
    requires forall i :: p <= i < q ==> !Visible(c, chunks[k].postings[i].node)
    ensures AheadAt(c, chunks, k, q) == AheadAt(c, chunks, k, p)
    decreases q - p
  {
    if p < q {
      StepOverDead(c, chunks, k, p);
      SkipDead(c, chunks, k, p + 1, q);
    }
  }

  lemma {:induction false} SkipBelow(c: Corpus, chunks: seq<Chunk>, k: nat, p: nat, q: nat, target: nat)
    requires k < |chunks| && p <= q <= |chunks[k].postings|
    requires forall i :: p <= i < q ==> chunks[k].postings[i].node < target
    ensures DropBelow(AheadAt(c, chunks, k, q), target) == DropBelow(AheadAt(c, chunks, k, p), target)
    decreases q - p
  {
    if p < q {
      StepBelow(c, chunks, k, p, target);
      SkipBelow(c, chunks, k, p + 1, q, target);
    }
  }

  /** A chunk whose last node is below the target can be skipped whole. */
  lemma {:induction false} SkipChunk(c: Corpus, chunks: seq<Chunk>, k: nat, p: nat, target: nat)
    requires ValidList(chunks) && k < |chunks| && p <= |chunks[k].postings| && chunks[k].lastNode < target
    ensures DropBelow(AheadAt(c, chunks, k, p), target) == DropBelow(ListFrom(c, chunks, k + 1), target)
  {
    assert ValidChunk(chunks[k]);
    SkipBelow(c, chunks, k, p, |chunks[k].postings|, target);
    StepOffChunk(c, chunks, k);
  }

  method ScanLive(c: Corpus, ps: seq<Posting>, start: nat) returns (p: nat)
    requires start <= |ps|
    ensures start <= p <= |ps| && forall i :: start <= i < p ==> !Visible(c, ps[i].node)
    ensures p < |ps| ==> Visible(c, ps[p].node)
  {
    p := start;
    while p < |ps| && !Visible(c, ps[p].node)
      invariant start <= p <= |ps| && forall i :: start <= i < p ==> !Visible(c, ps[i].node)
    {
      p := p + 1;
    }
  }

  method ScanTo(ps: seq<Posting>, start: nat, target: nat) returns (p: nat)
    requires start < |ps| && ps[|ps| - 1].node >= target
    ensures start <= p < |ps| && ps[p].node >= target
    ensures forall i :: start <= i < p ==> ps[i].node < target
  {
    p := start;
    while ps[p].node < target
      invariant start <= p < |ps| && forall i :: start <= i < p ==> ps[i].node < target
      decreases |ps| - p
    {
      p := p + 1;
    }
  }

  ghost predicate NonEmpty(chunks: seq<Chunk>) {
    forall k :: 0 <= k < |chunks| ==> chunks[k].postings != []
  }

  class PostingIterator {
    const termId: nat
    const corpus: Corpus
    const chunks: seq<Chunk>
    var chunkNo: nat
    var postings: seq<Posting>
    var pos: nat
    var lastNodeId: nat
    var bound: real
    var valid: bool

    /** The iterator's fields describe the last loaded chunk of its list. */
    ghost predicate Loaded()
      reads this
    {
      && NonEmpty(chunks)
      && chunkNo <= |chunks|
      && (valid ==>
            && chunkNo > 0
            && postings == chunks[chunkNo - 1].postings
            && pos <= |postings|
            && lastNodeId == chunks[chunkNo - 1].lastNode
            && bound == chunks[chunkNo - 1].bound)
    }

    /** The live postings at or after the iterator's position. */
    ghost function Ahead(): seq<Live>
      reads this
      requires Loaded()
    {
      if !valid then [] else AheadAt(corpus, chunks, chunkNo - 1, pos)
    }

    /** Between calls the iterator is exhausted or stands on a live posting. */
    ghost predicate Standing()
      reads this
    {
      Loaded() && (valid ==> pos < |postings| && Visible(corpus, postings[pos].node))
    }

    method LoadChunk() returns (ok: bool)
      requires Loaded()
      modifies this
      ensures Loaded() && ok == valid
      ensures old(chunkNo) < |chunks| ==> ok && chunkNo == old(chunkNo) + 1 && pos == 0
      ensures old(chunkNo) == |chunks| ==> !ok && chunkNo == old(chunkNo)
      ensures Ahead() == ListFrom(corpus, chunks, old(chunkNo))
    {
      valid, pos, postings := false, 0, [];
      if chunkNo >= |chunks| {
        return false;
      }
      var chunk := chunks[chunkNo];
      postings := chunk.postings;
      lastNodeId := chunk.lastNode;
      bound := chunk.bound;
      chunkNo := chunkNo + 1;
      valid := |postings| > 0;
      assert postings[0..] == postings;
      return valid;
    }

    /** Moves to the first live posting at or after the position, loading chunks as needed. */
    method AdvanceValid() returns (ok: bool)
      requires Loaded() && valid
      modifies this
      ensures Standing() && ok == valid
      ensures Ahead() == old(Ahead())
    {
      while true
        invariant Loaded() && valid
        invariant Ahead() == old(Ahead())
        decreases |chunks| - chunkNo
      {
        var p := ScanLive(corpus, postings, pos);
        SkipDead(corpus, chunks, chunkNo - 1, pos, p);
        pos := p;
        if pos < |postings| {
          return true;
        }
        StepOffChunk(corpus, chunks, chunkNo - 1);
        ok := LoadChunk();
        if !ok {
          return false;
        }
      }
    }

    /** Skips whole chunks by their last node id, then postings, to the first live one at or after target. */
    method SeekTo(target: nat) returns (ok: bool)
      requires Standing() && ValidList(chunks)
      modifies this
      ensures Standing() && ok == valid
      ensures Ahead() == DropBelow(old(Ahead()), target)
    {
      while valid
        invariant Loaded() && (valid ==> pos < |postings|)
        invariant DropBelow(Ahead(), target) == DropBelow(old(Ahead()), target)
        decreases valid, |chunks| - chunkNo
      {
        if lastNodeId < target {
          SkipChunk(corpus, chunks, chunkNo - 1, pos, target);
          ok := LoadChunk();
          if !ok {
            return false;
          }
        } else {
          SkipPostings(target);
          ok := AdvanceValid();
          return;
        }
      }
      return false;
    }

    method SkipPostings(target: nat)
      requires ValidList(chunks) && Loaded() && valid && target <= lastNodeId && pos < |postings|
      modifies this`pos
      ensures Loaded() && Ahead() == DropBelow(old(Ahead()), target)
    {
      var p := ScanTo(postings, pos, target);
      SkipBelow(corpus, chunks, chunkNo - 1, pos, p, target);
      NothingBelow(corpus, chunks, chunkNo - 1, p, target);
      pos := p;
    }

    /** Moves past the given node. */
    method AdvancePast(node: nat) returns (ok: bool)
      requires Standing() && ValidList(chunks)
      modifies this
      ensures Standing() && ok == valid
      ensures Ahead() == DropBelow(old(Ahead()), node + 1)
    {
      ok := SeekTo(node + 1);
    }

    constructor (termId: nat, corpus: Corpus, chunks: seq<Chunk>)
      requires ValidList(chunks)
      ensures Standing()
      ensures this.termId == termId && this.corpus == corpus && this.chunks == chunks
      ensures Ahead() == LiveList(corpus, chunks)
    {
      this.termId, this.corpus, this.chunks := termId, corpus, chunks;
      chunkNo, postings, pos := 0, [], 0;
      lastNodeId, bound := 0, 0.0;
      valid := false;
      new;
      var ok := LoadChunk();
      if ok {
        ok := AdvanceValid();
      }
      assert chunks[0..] == chunks;
    }

    function NodeId(): nat
      reads this
      requires Standing() && valid
    {
      postings[pos].node
    }

    /** What the iterator stands on is what it has ahead first. */
    lemma {:induction false} Head()
      requires Standing()
      ensures valid <==> Ahead() != []
      ensures valid ==> Ahead()[0] == Live(postings[pos].node, postings[pos].score, bound)
    {
    }
  }
}
