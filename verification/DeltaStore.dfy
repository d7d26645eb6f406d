/**
 Inserted documents: an append-only chain of documents, and the same postings by hash bucket
 of their term.  Reading only the buckets of the query terms gives the same entries as
 scanning every document.
 */
module DeltaStore {

  const BUCKETS: nat := 64

  /** A term of a document; the hash is that of its bytes. */
  datatype Term = Term(hash: nat, bytes: seq<nat>, tf: nat)

  datatype Doc = Doc(node: nat, tid: nat, docLen: nat, terms: seq<Term>)

  /** One posting as both readers deliver it. */
  datatype Segment = Segment(hash: nat, bytes: seq<nat>, node: nat, tf: nat, docLen: nat, tid: nat)

  /** FNV-1a over the bytes of a term, 64 bits. */
  function HashTerm(bytes: seq<nat>): nat {
    if bytes == [] then 1469598103934665603
    else
      var h := HashTerm(bytes[..|bytes| - 1]);
      (h - h % 256 + Xor(h % 256, bytes[|bytes| - 1] % 256)) * 1099511628211 % 0x1_0000_0000_0000_0000
  }

  function Xor(a: nat, b: nat): nat
    requires a < 256 && b < 256
  {
    ((a as bv8) ^ (b as bv8)) as nat
  }

  function Bucket(hash: nat): (b: nat)
    ensures b < BUCKETS
  {
    hash % BUCKETS
  }

  function SegmentOf(d: Doc, t: Term): Segment {
    Segment(t.hash, t.bytes, d.node, t.tf, d.docLen, d.tid)
  }

  // ----- the two readers

  /** The postings of a document's terms from i on. */
  function DocSegments(d: Doc, i: nat): seq<Segment>
    requires i <= |d.terms|
    decreases |d.terms| - i
  {
    if i == |d.terms| then [] else [SegmentOf(d, d.terms[i])] + DocSegments(d, i + 1)
  }

  function AllSegments(docs: seq<Doc>): seq<Segment> {
    if docs == [] then [] else AllSegments(docs[..|docs| - 1]) + DocSegments(docs[|docs| - 1], 0)
  }

  /** The length of all documents together. */
  function DocsLen(docs: seq<Doc>): nat {
    if docs == [] then 0 else DocsLen(docs[..|docs| - 1]) + docs[|docs| - 1].docLen
  }

  /** The query's terms, and which nodes are alive. */
  datatype Filter = Filter(terms: seq<Term>, live: seq<bool>)

  predicate Alive(f: Filter, node: nat) { node < |f.live| && f.live[node] }

  /** A query term with these bytes; the hash is computed from the bytes. */
  predicate Wanted(f: Filter, bytes: seq<nat>) {
    exists i :: 0 <= i < |f.terms| && f.terms[i].hash == HashTerm(bytes) && f.terms[i].bytes == bytes
  }

  predicate Passes(f: Filter, s: Segment) { Wanted(f, s.bytes) && Alive(f, s.node) }

  predicate NeedsBucket(f: Filter, b: nat) {
    exists i :: 0 <= i < |f.terms| && Bucket(f.terms[i].hash) == b
  }

  /** The postings that pass. */
  function Passing(f: Filter, segs: seq<Segment>): seq<Segment> {
    if segs == [] then []
    else
      var n := |segs| - 1;
      if Passes(f, segs[n]) then Passing(f, segs[..n]) + [segs[n]] else Passing(f, segs[..n])
  }

  /** What the needed ones among the first n buckets hold. */
  function FromBuckets(f: Filter, buckets: seq<seq<Segment>>, n: nat): seq<Segment>
    requires n <= |buckets|
  {
    if n == 0 then []
    else if NeedsBucket(f, n - 1) then FromBuckets(f, buckets, n - 1) + Passing(f, buckets[n - 1])
    else FromBuckets(f, buckets, n - 1)
  }

  // ----- what a run of inserts keeps

  /** The postings of one bucket, in order of insertion. */
  function InBucket(segs: seq<Segment>, b: nat): seq<Segment> {
    if segs == [] then []
    else
      var n := |segs| - 1;
      if Bucket(segs[n].hash) == b then InBucket(segs[..n], b) + [segs[n]] else InBucket(segs[..n], b)
  }

  ghost predicate Hashed(segs: seq<Segment>) {
    forall i :: 0 <= i < |segs| ==> segs[i].hash == HashTerm(segs[i].bytes)
  }

  /** Every bucket holds exactly its share of segs. */
  ghost predicate Shares(buckets: seq<seq<Segment>>, segs: seq<Segment>) {
    |buckets| == BUCKETS && forall b :: 0 <= b < BUCKETS ==> buckets[b] == InBucket(segs, b)
  }

  lemma {:induction false} PassingAppend(f: Filter, segs: seq<Segment>, x: Segment)
    ensures Passing(f, segs + [x]) == if Passes(f, x) then Passing(f, segs) + [x] else Passing(f, segs)
  {
    assert (segs + [x])[..|segs|] == segs;
  }

  lemma {:induction false} InBucketAppend(segs: seq<Segment>, x: Segment, b: nat)
    ensures InBucket(segs + [x], b) == if Bucket(x.hash) == b then InBucket(segs, b) + [x] else InBucket(segs, b)
  {
    assert (segs + [x])[..|segs|] == segs;
  }

  /** A posting that passes lies in a bucket the query needs. */
  lemma {:induction false} PassingIsNeeded(f: Filter, x: Segment)
    requires Passes(f, x) && x.hash == HashTerm(x.bytes)
    ensures NeedsBucket(f, Bucket(x.hash))
  {
    var i :| 0 <= i < |f.terms| && f.terms[i].hash == HashTerm(x.bytes) && f.terms[i].bytes == x.bytes;
  }

  /** Buckets as they should be. */
  ghost function Ideal(segs: seq<Segment>): (buckets: seq<seq<Segment>>)
    ensures Shares(buckets, segs)
  {
    seq(BUCKETS, b requires 0 <= b < BUCKETS => InBucket(segs, b))
  }

  /** One more posting reaches the reader of buckets once, if it passes and its bucket is among those read. */
  lemma {:induction false} OneMore(f: Filter, segs: seq<Segment>, x: Segment, n: nat)
    requires n <= BUCKETS && (Passes(f, x) ==> x.hash == HashTerm(x.bytes))
    ensures multiset(FromBuckets(f, Ideal(segs + [x]), n)) ==
            multiset(FromBuckets(f, Ideal(segs), n)) + if Passes(f, x) && Bucket(x.hash) < n then multiset{x} else multiset{}
  {
    if n > 0 {
      OneMore(f, segs, x, n - 1);
      InBucketAppend(segs, x, n - 1);
      if Bucket(x.hash) == n - 1 {
        PassingAppend(f, InBucket(segs, n - 1), x);
        if Passes(f, x) {
          PassingIsNeeded(f, x);
        }
      }
    }
  }

  lemma {:induction false} NothingInBuckets(f: Filter, n: nat)
    requires n <= BUCKETS
    ensures FromBuckets(f, Ideal([]), n) == []
  {
    if n > 0 {
      NothingInBuckets(f, n - 1);
    }
  }

  /** Reading the needed buckets delivers exactly the postings that pass. */
  lemma {:induction false} BucketsDeliver(f: Filter, segs: seq<Segment>)
    requires Hashed(segs)
    ensures multiset(FromBuckets(f, Ideal(segs), BUCKETS)) == multiset(Passing(f, segs))
  {
    if segs == [] {
      NothingInBuckets(f, BUCKETS);
    } else {
      var n := |segs| - 1;
      BucketsDeliver(f, segs[..n]);
      assert segs == segs[..n] + [segs[n]];
      OneMore(f, segs[..n], segs[n], BUCKETS);
      PassingAppend(f, segs[..n], segs[n]);
    }
  }

  // ----- the store

  class Delta {
    var docs: seq<Doc>
    var buckets: seq<seq<Segment>>
    var docCount: nat
    var totalDocLen: nat
    var termCount: nat
    var generation: nat

    ghost predicate Valid()
      reads this
    {
      && Hashed(AllSegments(docs)) && Shares(buckets, AllSegments(docs))
      && docCount == |docs| && totalDocLen == DocsLen(docs) && termCount == |AllSegments(docs)|
    }

    constructor ()
      ensures Valid() && docs == [] && generation == 0
    {
      docs, docCount, totalDocLen, termCount, generation := [], 0, 0, 0, 0;
      buckets := seq(BUCKETS, b => []);
    }

    /** Compaction empties the delta and starts a new generation. */
    method Reset()
      requires Valid()
      modifies this
      ensures Valid() && docs == [] && generation == old(generation) + 1
    {
      docs, docCount, totalDocLen, termCount := [], 0, 0, 0;
      buckets := seq(BUCKETS, b => []);
      generation := generation + 1;
    }

    /** Appends one posting to the tail of its bucket. */
    method AppendSegment(x: Segment, ghost segs: seq<Segment>)
      requires Shares(buckets, segs)
      modifies this`buckets
      ensures Shares(buckets, segs + [x])
    {
      var b := Bucket(x.hash);
      forall c | 0 <= c < BUCKETS
        ensures InBucket(segs + [x], c) == if c == b then InBucket(segs, c) + [x] else InBucket(segs, c)
      {
        InBucketAppend(segs, x, c);
      }
      buckets := buckets[b := buckets[b] + [x]];
    }

    /** The document's postings go to their buckets. */
    method AppendTermSegments(d: Doc, ghost segs: seq<Segment>)
      requires Shares(buckets, segs)
      modifies this`buckets
      ensures Shares(buckets, segs + DocSegments(d, 0))
    {
      ghost var done: seq<Segment> := segs;
      var i: nat := 0;
      while i < |d.terms|
        invariant i <= |d.terms| && Shares(buckets, done) && done + DocSegments(d, i) == segs + DocSegments(d, 0)
      {
        var x := SegmentOf(d, d.terms[i]);
        AppendSegment(x, done);
        assert done + ([x] + DocSegments(d, i + 1)) == (done + [x]) + DocSegments(d, i + 1);
        done := done + [x];
        i := i + 1;
      }
      assert done + [] == done;
    }

    /** A completed insert: the document is appended, and its postings to their buckets. */
    method AppendDelta(d: Doc)
      requires Valid() && forall i :: 0 <= i < |d.terms| ==> d.terms[i].hash == HashTerm(d.terms[i].bytes)
      modifies this
      ensures Valid() && docs == old(docs) + [d] && generation == old(generation) + 1
    {
      ghost var segs := AllSegments(docs);
      SegmentsAppend(docs, d);
      docs := docs + [d];
      AppendTermSegments(d, segs);
      docCount, totalDocLen, termCount := docCount + 1, totalDocLen + d.docLen, termCount + |d.terms|;
      generation := generation + 1;
    }

    /** Scans every document. */
    method ScanDocs(f: Filter) returns (entries: seq<Segment>)
      requires Valid()
      ensures entries == Passing(f, AllSegments(docs))
    {
      entries := [];
      var i: nat := 0;
      while i < |docs|
        invariant i <= |docs| && entries == Passing(f, AllSegments(docs[..i]))
      {
        assert docs[..i + 1][..i] == docs[..i];
        entries := ScanDoc(f, docs[i], entries, AllSegments(docs[..i]));
        i := i + 1;
      }
      assert docs[..i] == docs;
    }

    /** Reads the buckets of the query terms. */
    method ReadBuckets(f: Filter) returns (entries: seq<Segment>)
      requires Valid()
      ensures entries == FromBuckets(f, buckets, BUCKETS)
    {
      entries := [];
      var b: nat := 0;
      while b < BUCKETS
        invariant b <= BUCKETS && entries == FromBuckets(f, buckets, b)
      {
        if NeedsBucket(f, b) {
          var found := ScanSegments(f, buckets[b]);
          entries := entries + found;
        }
        b := b + 1;
      }
    }

    /** After any run of inserts both readers deliver the same postings. */
    method Lookup(f: Filter) returns (entries: seq<Segment>)
      requires Valid()
      ensures multiset(entries) == multiset(Passing(f, AllSegments(docs)))
    {
      if |f.terms| > 0 {
        entries := ReadBuckets(f);
        SameBuckets(buckets, AllSegments(docs));
        BucketsDeliver(f, AllSegments(docs));
      } else {
        entries := ScanDocs(f);
      }
    }
  }

  lemma {:induction false} SameBuckets(buckets: seq<seq<Segment>>, segs: seq<Segment>)
    requires Shares(buckets, segs)
    ensures buckets == Ideal(segs)
  {
  }

  lemma {:induction false} DocSegmentsAt(d: Doc, i: nat, j: nat)
    requires i <= j < |d.terms|
    ensures |DocSegments(d, i)| == |d.terms| - i && DocSegments(d, i)[j - i] == SegmentOf(d, d.terms[j])
    decreases |d.terms| - i
  {
    if i + 1 < |d.terms| {
      DocSegmentsAt(d, i + 1, if i < j then j else j + 1);
    }
  }

  lemma {:induction false} SegmentsAppend(docs: seq<Doc>, d: Doc)
    requires forall i :: 0 <= i < |d.terms| ==> d.terms[i].hash == HashTerm(d.terms[i].bytes)
    requires Hashed(AllSegments(docs))
    ensures AllSegments(docs + [d]) == AllSegments(docs) + DocSegments(d, 0)
    ensures Hashed(AllSegments(docs + [d])) && |DocSegments(d, 0)| == |d.terms| && DocsLen(docs + [d]) == DocsLen(docs) + d.docLen
  {
    assert (docs + [d])[..|docs|] == docs;
    var s := DocSegments(d, 0);
    if d.terms != [] {
      DocSegmentsAt(d, 0, 0);
    }
    forall i | 0 <= i < |s|
      ensures s[i].hash == HashTerm(s[i].bytes)
    {
      DocSegmentsAt(d, 0, i);
    }
  }

  lemma {:induction false} PassingDead(f: Filter, segs: seq<Segment>, d: Doc, i: nat)
    requires i <= |d.terms| && !Alive(f, d.node)
    ensures Passing(f, segs + DocSegments(d, i)) == Passing(f, segs)
    decreases |d.terms| - i
  {
    if i < |d.terms| {
      var x := SegmentOf(d, d.terms[i]);
      PassingAppend(f, segs, x);
      PassingDead(f, segs + [x], d, i + 1);
      assert segs + ([x] + DocSegments(d, i + 1)) == (segs + [x]) + DocSegments(d, i + 1);
    } else {
      assert segs + [] == segs;
    }
  }

  /** A dead document is skipped whole. */
  method ScanDoc(f: Filter, d: Doc, before: seq<Segment>, ghost segs: seq<Segment>) returns (entries: seq<Segment>)
    requires before == Passing(f, segs)
    ensures entries == Passing(f, segs + DocSegments(d, 0))
  {
    entries := before;
    if !Alive(f, d.node) {
      PassingDead(f, segs, d, 0);
      return;
    }
    ghost var done: seq<Segment> := segs;
    var i: nat := 0;
    while i < |d.terms|
      invariant i <= |d.terms| && entries == Passing(f, done) && done + DocSegments(d, i) == segs + DocSegments(d, 0)
    {
      var x := SegmentOf(d, d.terms[i]);
      PassingAppend(f, done, x);
      assert done + ([x] + DocSegments(d, i + 1)) == (done + [x]) + DocSegments(d, i + 1);
      if Wanted(f, x.bytes) {
        entries := entries + [x];
      }
      done := done + [x];
      i := i + 1;
    }
    assert done + [] == done;
  }

  method ScanSegments(f: Filter, segs: seq<Segment>) returns (entries: seq<Segment>)
    ensures entries == Passing(f, segs)
  {
    entries := [];
    for i := 0 to |segs|
      invariant entries == Passing(f, segs[..i])
    {
      assert segs[..i + 1] == segs[..i] + [segs[i]];
      PassingAppend(f, segs[..i], segs[i]);
      if Passes(f, segs[i]) {
        entries := entries + [segs[i]];
      }
    }
    assert segs[..|segs|] == segs;
  }
}
