/**
 Fusing dense, multivector and BM25 candidates by document.  A query with a multivector merges
 by heap tid, through a hash table or a sorted array.  The two agree in everything but the node
 id a document is left with, and so in the final order too.
 */
module DocumentFusion {
  import opened Wrappers
  import opened Ranking
  import opened Fusion

  datatype Document = Document(tid: nat, node: nat, dense: Option<DensePart>, multi: Option<DensePart>, bm25: Option<Bm25Part>, fusedScore: real)

  function Empty(tid: nat): Document { Document(tid, 0, None, None, None, 0.0) }

  // ----- candidates as documents with a single part

  datatype Branch = Dense | Multi | Lexical

  predicate Single(x: Document) {
    && x.fusedScore == 0.0
    && ((x.dense.Some? && x.multi.None? && x.bm25.None?) || (x.dense.None? && x.multi.Some? && x.bm25.None?)
        || (x.dense.None? && x.multi.None? && x.bm25.Some?))
  }

  function BranchOf(x: Document): Branch { if x.dense.Some? then Dense else if x.multi.Some? then Multi else Lexical }

  function FromDense(c: DenseCandidate): Document { Document(c.tid, c.node, Some(c.part), None, None, 0.0) }

  function FromMulti(c: DenseCandidate): Document { Document(c.tid, c.node, None, Some(c.part), None, 0.0) }

  function FromBm25(c: Bm25Candidate): Document { Document(c.tid, c.node, None, None, Some(c.part), 0.0) }

  /** The candidates in the order in which they are merged: dense, multivector, BM25. */
  function Candidates(dense: seq<DenseCandidate>, multi: seq<DenseCandidate>,
                      bm25: seq<Bm25Candidate>): (items: seq<Document>)
    ensures |items| == |dense| + |multi| + |bm25|
  {
    seq(|dense|, i requires 0 <= i < |dense| => FromDense(dense[i])) +
    seq(|multi|, i requires 0 <= i < |multi| => FromMulti(multi[i])) +
    seq(|bm25|, i requires 0 <= i < |bm25| => FromBm25(bm25[i]))
  }

  /** Candidates of a branch are different documents at different ranks. */
  ghost predicate Listed(dense: seq<DenseCandidate>, multi: seq<DenseCandidate>, bm25: seq<Bm25Candidate>) {
    && (forall i, j :: 0 <= i < j < |dense| ==> dense[i].tid != dense[j].tid && dense[i].part.rank != dense[j].part.rank)
    && (forall i, j :: 0 <= i < j < |multi| ==> multi[i].tid != multi[j].tid && multi[i].part.rank != multi[j].part.rank)
    && (forall i, j :: 0 <= i < j < |bm25| ==> bm25[i].tid != bm25[j].tid && bm25[i].part.rank != bm25[j].part.rank)
  }

  function RankOf(x: Document): nat {
    if x.dense.Some? then x.dense.value.rank else if x.multi.Some? then x.multi.value.rank
    else if x.bm25.Some? then x.bm25.value.rank else INT_MAX
  }

  /** Items of one branch have nothing in common. */
  predicate Clash(x: Document, y: Document) { BranchOf(x) == BranchOf(y) && (x.tid == y.tid || RankOf(x) == RankOf(y)) }

  ghost predicate Separate(items: seq<Document>) {
    && (forall i :: 0 <= i < |items| ==> Single(items[i]))
    && (forall i, j :: 0 <= i < j < |items| ==> !Clash(items[i], items[j]))
  }

  lemma {:induction false} CandidatesAreSeparate(dense: seq<DenseCandidate>, multi: seq<DenseCandidate>,
                                                 bm25: seq<Bm25Candidate>)
    requires Listed(dense, multi, bm25)
    ensures Separate(Candidates(dense, multi, bm25))
  {
    var items := Candidates(dense, multi, bm25);
    forall i | 0 <= i < |items|
      ensures items[i] ==
              if i < |dense| then FromDense(dense[i])
              else if i < |dense| + |multi| then FromMulti(multi[i - |dense|])
              else FromBm25(bm25[i - |dense| - |multi|])
    {
    }
  }

  // ----- what a document gathers

  ghost predicate Touches(items: seq<Document>, tid: nat) {
    exists i :: 0 <= i < |items| && items[i].tid == tid
  }

  ghost predicate HasPart(items: seq<Document>, tid: nat, b: Branch) {
    exists i :: 0 <= i < |items| && items[i].tid == tid && BranchOf(items[i]) == b
  }

  /** r holds exactly the parts of its document. */
  ghost predicate Gathers(items: seq<Document>, r: Document) {
    && Touches(items, r.tid) && r.fusedScore == 0.0
    && (r.dense.Some? <==> HasPart(items, r.tid, Dense))
    && (r.multi.Some? <==> HasPart(items, r.tid, Multi))
    && (r.bm25.Some? <==> HasPart(items, r.tid, Lexical))
    && forall i :: 0 <= i < |items| && items[i].tid == r.tid ==> Takes(r, items[i])
  }

  predicate Takes(r: Document, x: Document) {
    && (x.dense.Some? ==> r.dense == x.dense) && (x.multi.Some? ==> r.multi == x.multi) && (x.bm25.Some? ==> r.bm25 == x.bm25)
  }

  /** A document but for its node id. */
  function Parts(r: Document): Document { r.(node := 0) }

  lemma {:induction false} PartIn(items: seq<Document>, tid: nat, b: Branch) returns (i: nat)
    requires HasPart(items, tid, b)
    ensures i < |items| && items[i].tid == tid && BranchOf(items[i]) == b
  {
    i :| 0 <= i < |items| && items[i].tid == tid && BranchOf(items[i]) == b;
  }

  /** So its parts are determined by the items. */
  lemma {:induction false} PartsAreUnique(items: seq<Document>, r: Document, r': Document)
    requires (forall i :: 0 <= i < |items| ==> Single(items[i])) && Gathers(items, r) && Gathers(items, r') && r.tid == r'.tid
    ensures Parts(r) == Parts(r')
  {
    if r.dense.Some? {
      var i := PartIn(items, r.tid, Dense);
    }
    if r.multi.Some? {
      var i := PartIn(items, r.tid, Multi);
    }
    if r.bm25.Some? {
      var i := PartIn(items, r.tid, Lexical);
    }
  }

  lemma {:induction false} PartsAppended(items: seq<Document>, x: Document, tid: nat, b: Branch)
    ensures Touches(items + [x], tid) <==> Touches(items, tid) || x.tid == tid
    ensures HasPart(items + [x], tid, b) <==> HasPart(items, tid, b) || (x.tid == tid && BranchOf(x) == b)
  {
    var all := items + [x];
    assert all[|items|] == x;
    assert forall i :: 0 <= i < |items| ==> all[i] == items[i];
  }

  /** Taking in one more item of the document, whatever the node id becomes. */
  lemma {:induction false} OnePartMore(items: seq<Document>, x: Document, r: Document, r': Document)
    requires Separate(items + [x]) && r.tid == r'.tid == x.tid && r'.fusedScore == 0.0
    requires Gathers(items, r) || (!Touches(items, x.tid) && Parts(r) == Empty(x.tid))
    requires r'.dense == (if x.dense.Some? then x.dense else r.dense)
    requires r'.multi == (if x.multi.Some? then x.multi else r.multi)
    requires r'.bm25 == (if x.bm25.Some? then x.bm25 else r.bm25)
    ensures Gathers(items + [x], r')
  {
    var all := items + [x];
    assert all[|items|] == x && Single(x);
    assert forall i :: 0 <= i < |items| ==> all[i] == items[i];
    PartsAppended(items, x, x.tid, Dense);
    PartsAppended(items, x, x.tid, Multi);
    PartsAppended(items, x, x.tid, Lexical);
    forall i | 0 <= i < |all| && all[i].tid == x.tid
      ensures Takes(r', all[i])
    {
      if i < |items| {
        assert !Clash(all[i], all[|items|]) && Single(all[i]);
      }
    }
  }

  lemma {:induction false} OtherPartMore(items: seq<Document>, x: Document, r: Document)
    requires r.tid != x.tid && Gathers(items, r)
    ensures Gathers(items + [x], r)
  {
    var all := items + [x];
    assert forall i :: 0 <= i < |items| ==> all[i] == items[i];
    PartsAppended(items, x, r.tid, Dense);
    PartsAppended(items, x, r.tid, Multi);
    PartsAppended(items, x, r.tid, Lexical);
  }

  // ----- the two ways to take in an item

  /** Into a hash slot: the node id becomes that of the item. */
  function Take(r: Document, x: Document): Document {
    if x.dense.Some? then r.(node := x.node, tid := x.tid, dense := x.dense)
    else if x.multi.Some? then r.(node := x.node, tid := x.tid, multi := x.multi)
    else r.(node := x.node, tid := if r.dense.None? && r.multi.None? then x.tid else r.tid, bm25 := x.bm25)
  }

  /** Into the first item of a group: the node id stays. */
  function Join(r: Document, x: Document): Document {
    var r1 := if x.dense.Some? then r.(dense := x.dense, tid := x.tid) else r;
    var r2 := if x.multi.Some? then r1.(multi := x.multi, tid := x.tid) else r1;
    if x.bm25.Some? then r2.(bm25 := x.bm25, tid := if r2.dense.None? && r2.multi.None? then x.tid else r2.tid) else r2
  }

  function TakeInto(m: map<nat, Document>, x: Document): map<nat, Document> {
    m[x.tid := Take(if x.tid in m then m[x.tid] else Empty(x.tid), x)]
  }

  function JoinInto(m: map<nat, Document>, x: Document): map<nat, Document> {
    m[x.tid := if x.tid in m then Join(m[x.tid], x) else x]
  }

  ghost function TakeAll(items: seq<Document>): map<nat, Document> {
    if items == [] then map[] else TakeInto(TakeAll(items[..|items| - 1]), items[|items| - 1])
  }

  ghost function JoinAll(items: seq<Document>): map<nat, Document> {
    if items == [] then map[] else JoinInto(JoinAll(items[..|items| - 1]), items[|items| - 1])
  }

  lemma {:induction false} AllNext(items: seq<Document>, i: nat)
    requires i < |items|
    ensures TakeAll(items[..i + 1]) == TakeInto(TakeAll(items[..i]), items[i])
    ensures JoinAll(items[..i + 1]) == JoinInto(JoinAll(items[..i]), items[i])
  {
    assert items[..i + 1][..i] == items[..i];
  }

  /** One document for each tid, with all its parts. */
  ghost predicate Merges(items: seq<Document>, m: map<nat, Document>) {
    && (forall t: nat :: t in m <==> Touches(items, t))
    && forall t :: t in m ==> m[t].tid == t && Gathers(items, m[t])
  }

  lemma {:induction false} MergesNext(items: seq<Document>, x: Document, m: map<nat, Document>, r: Document)
    requires Separate(items + [x]) && Merges(items, m) && r.tid == x.tid && Gathers(items + [x], r)
    ensures Merges(items + [x], m[x.tid := r])
  {
    forall t: nat
      ensures t in m[x.tid := r] <==> Touches(items + [x], t)
      ensures t in m && t != x.tid ==> Gathers(items + [x], m[t])
    {
      PartsAppended(items, x, t, Dense);
      if t in m && t != x.tid {
        OtherPartMore(items, x, m[t]);
      }
    }
  }

  lemma {:induction false} SeparateInit(items: seq<Document>)
    requires Separate(items) && items != []
    ensures Separate(items[..|items| - 1]) && items == items[..|items| - 1] + [items[|items| - 1]] && Single(items[|items| - 1])
  {
  }

  /** Both ways merge. */
  lemma {:induction false} TakeMerges(items: seq<Document>)
    requires Separate(items)
    ensures Merges(items, TakeAll(items))
  {
    if items != [] {
      var p, x := items[..|items| - 1], items[|items| - 1];
      SeparateInit(items);
      TakeMerges(p);
      var m := TakeAll(p);
      var r := if x.tid in m then m[x.tid] else Empty(x.tid);
      OnePartMore(p, x, r, Take(r, x));
      MergesNext(p, x, m, Take(r, x));
    }
  }

  lemma {:induction false} JoinMerges(items: seq<Document>)
    requires Separate(items)
    ensures Merges(items, JoinAll(items))
  {
    if items != [] {
      var p, x := items[..|items| - 1], items[|items| - 1];
      SeparateInit(items);
      JoinMerges(p);
      var m := JoinAll(p);
      var r := if x.tid in m then m[x.tid] else Empty(x.tid);
      var r' := if x.tid in m then Join(r, x) else x;
      OnePartMore(p, x, r, r');
      MergesNext(p, x, m, r');
    }
  }

  // ----- the node ids

  /** The node of the last item of a document, and that of the first. */
  ghost function LastNode(items: seq<Document>, tid: nat): nat {
    if items == [] then 0
    else if items[|items| - 1].tid == tid then items[|items| - 1].node else LastNode(items[..|items| - 1], tid)
  }

  ghost function FirstNode(items: seq<Document>, tid: nat): nat {
    if items == [] then 0 else if items[0].tid == tid then items[0].node else FirstNode(items[1..], tid)
  }

  lemma {:induction false} FirstAppended(items: seq<Document>, x: Document, tid: nat)
    ensures FirstNode(items + [x], tid) == if Touches(items, tid) then FirstNode(items, tid) else if x.tid == tid then x.node else 0
  {
    if items != [] {
      var rest := items[1..];
      assert (items + [x])[1..] == rest + [x];
      FirstAppended(rest, x, tid);
      if items[0].tid != tid {
        assert Touches(items, tid) <==> Touches(rest, tid) by {
          if i :| 0 <= i < |items| && items[i].tid == tid {
            assert rest[i - 1].tid == tid;
          }
          if i :| 0 <= i < |rest| && rest[i].tid == tid {
            assert items[i + 1].tid == tid;
          }
        }
      }
    } else {
      assert items + [x] == [x] && [x][1..] == [];
    }
  }

  /** A hash slot is left with the node of the last candidate of its document. */
  lemma {:induction false} TakeLeavesLast(items: seq<Document>, t: nat)
    requires t in TakeAll(items)
    ensures TakeAll(items)[t].node == LastNode(items, t)
  {
    var p, x := items[..|items| - 1], items[|items| - 1];
    if x.tid != t {
      TakeLeavesLast(p, t);
    }
  }

  /** A group of the sorted array is left with the node of its first item. */
  lemma {:induction false} JoinLeavesFirst(items: seq<Document>, t: nat)
    requires Separate(items) && t in JoinAll(items)
    ensures JoinAll(items)[t].node == FirstNode(items, t)
  {
    var p, x := items[..|items| - 1], items[|items| - 1];
    SeparateInit(items);
    JoinMerges(p);
    FirstAppended(p, x, t);
    if t in JoinAll(p) {
      JoinLeavesFirst(p, t);
    }
  }

  /** By heap tid, then node id. */
  predicate TidBefore(a: Document, b: Document) { a.tid < b.tid || (a.tid == b.tid && a.node < b.node) }

  ghost predicate SortedByTid(items: seq<Document>) {
    forall i, j :: 0 <= i < j < |items| ==> !TidBefore(items[j], items[i])
  }

  lemma {:induction false} FirstIsLeast(items: seq<Document>, t: nat)
    requires SortedByTid(items) && Touches(items, t)
    ensures exists i :: 0 <= i < |items| && items[i].tid == t && items[i].node == FirstNode(items, t)
    ensures forall i :: 0 <= i < |items| && items[i].tid == t ==> FirstNode(items, t) <= items[i].node
  {
    if items[0].tid == t {
      assert items[0].node == FirstNode(items, t);
      forall i | 0 <= i < |items| && items[i].tid == t
        ensures FirstNode(items, t) <= items[i].node
      {
        assert i > 0 ==> !TidBefore(items[i], items[0]);
      }
    } else {
      var rest := items[1..];
      var i :| 0 <= i < |items| && items[i].tid == t;
      assert rest[i - 1].tid == t;
      FirstIsLeast(rest, t);
      var j :| 0 <= j < |rest| && rest[j].tid == t && rest[j].node == FirstNode(rest, t);
      assert items[j + 1] == rest[j];
      forall k | 0 <= k < |items| && items[k].tid == t
        ensures FirstNode(items, t) <= items[k].node
      {
        assert rest[k - 1] == items[k];
      }
    }
  }

  // ----- the two orders of items

  lemma {:induction false} SameItems(items: seq<Document>, sorted: seq<Document>, x: Document)
    requires multiset(items) == multiset(sorted)
    ensures x in items <==> x in sorted
  {
    assert x in items <==> x in multiset(items);
    assert x in sorted <==> x in multiset(sorted);
  }

  lemma {:induction false} SortedIsSeparate(items: seq<Document>, sorted: seq<Document>)
    requires Separate(items) && multiset(items) == multiset(sorted)
    ensures Separate(sorted)
  {
    SameMultisetDistinct(items, sorted);
    forall i | 0 <= i < |sorted|
      ensures sorted[i] in items
    {
      SameItems(items, sorted, sorted[i]);
    }
    forall i, j | 0 <= i < j < |sorted|
      ensures !Clash(sorted[i], sorted[j])
    {
      var a :| 0 <= a < |items| && items[a] == sorted[i];
      var b :| 0 <= b < |items| && items[b] == sorted[j];
      assert a < b || b < a;
    }
  }

  lemma {:induction false} GathersAlike(items: seq<Document>, sorted: seq<Document>, r: Document)
    requires multiset(items) == multiset(sorted) && Gathers(items, r)
    ensures Gathers(sorted, r)
  {
    forall t: nat, b | HasPart(items, t, b)
      ensures HasPart(sorted, t, b)
    {
      var i := PartIn(items, t, b);
      SameItems(items, sorted, items[i]);
    }
    forall t: nat, b | HasPart(sorted, t, b)
      ensures HasPart(items, t, b)
    {
      var i := PartIn(sorted, t, b);
      SameItems(items, sorted, sorted[i]);
    }
    var i :| 0 <= i < |items| && items[i].tid == r.tid;
    assert HasPart(items, r.tid, BranchOf(items[i]));
    forall k | 0 <= k < |sorted| && sorted[k].tid == r.tid
      ensures Takes(r, sorted[k])
    {
      SameItems(items, sorted, sorted[k]);
    }
  }

  /** Both paths find the same documents, with the same parts. */
  lemma {:induction false} SameDocuments(items: seq<Document>, sorted: seq<Document>)
    requires Separate(items) && multiset(items) == multiset(sorted)
    ensures TakeAll(items).Keys == JoinAll(sorted).Keys
    ensures forall t :: t in TakeAll(items) ==> Parts(TakeAll(items)[t]) == Parts(JoinAll(sorted)[t])
  {
    var m, m' := TakeAll(items), JoinAll(sorted);
    SortedIsSeparate(items, sorted);
    TakeMerges(items);
    JoinMerges(sorted);
    forall t | t in m
      ensures t in m' && Parts(m[t]) == Parts(m'[t])
    {
      GathersAlike(items, sorted, m[t]);
      PartsAreUnique(sorted, m[t], m'[t]);
    }
    forall t | t in m'
      ensures t in m
    {
      GathersAlike(sorted, items, m'[t]);
    }
  }

  /** The paths leave a document with the same node id if and only if its last candidate has the least one. */
  lemma {:induction false} NodesAgreeIff(items: seq<Document>, sorted: seq<Document>, t: nat)
    requires Separate(items) && multiset(items) == multiset(sorted) && SortedByTid(sorted) && t in TakeAll(items)
    ensures t in JoinAll(sorted)
    ensures TakeAll(items)[t].node == JoinAll(sorted)[t].node <==>
            forall i :: 0 <= i < |items| && items[i].tid == t ==> LastNode(items, t) <= items[i].node
  {
    SameDocuments(items, sorted);
    SortedIsSeparate(items, sorted);
    TakeLeavesLast(items, t);
    JoinLeavesFirst(sorted, t);
    JoinMerges(sorted);
    FirstIsLeast(sorted, t);
    LastIsOne(items, t);
    forall i | 0 <= i < |items| && items[i].tid == t
      ensures FirstNode(sorted, t) <= items[i].node
    {
      SameItems(items, sorted, items[i]);
    }
    var j :| 0 <= j < |sorted| && sorted[j].tid == t && sorted[j].node == FirstNode(sorted, t);
    SameItems(items, sorted, sorted[j]);
  }

  lemma {:induction false} LastIsOne(items: seq<Document>, t: nat)
    requires t in TakeAll(items)
    ensures exists i :: 0 <= i < |items| && items[i].tid == t && items[i].node == LastNode(items, t)
  {
    var p, x := items[..|items| - 1], items[|items| - 1];
    if x.tid == t {
      assert items[|items| - 1].tid == t;
    } else {
      LastIsOne(p, t);
      var i :| 0 <= i < |p| && p[i].tid == t && p[i].node == LastNode(p, t);
      assert items[i] == p[i];
    }
  }

  /** A document found as node 1 by its vector and as node 2 by its words: the paths return different node ids. */
  lemma {:induction false} NodesDiffer(dense: DensePart, bm25: Bm25Part)
    ensures var x, y := Document(7, 1, Some(dense), None, None, 0.0), Document(7, 2, None, None, Some(bm25), 0.0);
            TakeAll([x, y])[7].node == 2 && JoinAll([x, y])[7].node == 1 && SortedByTid([x, y])
  {
    var x, y := Document(7, 1, Some(dense), None, None, 0.0), Document(7, 2, None, None, Some(bm25), 0.0);
    AllNext([x, y], 0);
    AllNext([x, y], 1);
    assert [x, y][..0] == [] && [x, y][..2] == [x, y];
  }
}
