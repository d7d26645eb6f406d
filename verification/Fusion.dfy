/**
 Fusing dense and BM25 candidates by node id.  The source writes the same merge three times,
 over a generation-stamped array, a linear-probing hash table and a sorted array; each is
 proved against one declarative notion of a merge, so all three agree.
 */
module Fusion {
  import opened Wrappers

  const INT_MAX: nat := 0x7FFF_FFFF

  /** One-based ranks, always below the value that stands for "absent". */
  type Position = r: nat | 1 <= r < INT_MAX witness 1

  /** norm is the logistic of the similarity. */
  datatype DensePart = DensePart(distance: real, norm: real, rank: Position, exactScored: bool)

  datatype Bm25Part = Bm25Part(score: real, rank: Position)

  datatype DenseCandidate = DenseCandidate(node: nat, tid: nat, part: DensePart)

  datatype Bm25Candidate = Bm25Candidate(node: nat, tid: nat, part: Bm25Part)

  datatype Result = Result(node: nat, tid: nat, dense: Option<DensePart>, bm25: Option<Bm25Part>, fusedScore: real)

  function Blank(node: nat): Result {
    Result(node, 0, None, None, 0.0)
  }

  // ----- candidates as results with a single part

  function FromDense(c: DenseCandidate): Result {
    Result(c.node, c.tid, Some(c.part), None, 0.0)
  }

  function FromBm25(c: Bm25Candidate): Result {
    Result(c.node, c.tid, None, Some(c.part), 0.0)
  }

  function Items(dense: seq<DenseCandidate>, bm25: seq<Bm25Candidate>): (items: seq<Result>)
    ensures |items| == |dense| + |bm25|
    ensures forall i :: 0 <= i < |dense| ==> items[i] == FromDense(dense[i])
    ensures forall i :: 0 <= i < |bm25| ==> items[|dense| + i] == FromBm25(bm25[i])
  {
    seq(|dense|, i requires 0 <= i < |dense| => FromDense(dense[i])) +
    seq(|bm25|, i requires 0 <= i < |bm25| => FromBm25(bm25[i]))
  }

  predicate Single(x: Result) {
    x.fusedScore == 0.0 && (x.dense.Some? <==> x.bm25.None?)
  }

  /** Two items of the same node from the same branch. */
  predicate Clash(x: Result, y: Result) {
    x.node == y.node && (x.dense.Some? <==> y.dense.Some?)
  }

  /** Single-part items, with distinct node ids within each branch. */
  ghost predicate Separate(items: seq<Result>) {
    && (forall i :: 0 <= i < |items| ==> Single(items[i]))
    && (forall i, j :: 0 <= i < j < |items| ==> !Clash(items[i], items[j]))
  }

  ghost predicate DistinctNodes(dense: seq<DenseCandidate>, bm25: seq<Bm25Candidate>) {
    && (forall i, j :: 0 <= i < j < |dense| ==> dense[i].node != dense[j].node)
    && (forall i, j :: 0 <= i < j < |bm25| ==> bm25[i].node != bm25[j].node)
  }

  lemma {:induction false} ItemsAreSeparate(dense: seq<DenseCandidate>, bm25: seq<Bm25Candidate>)
    requires DistinctNodes(dense, bm25)
    ensures Separate(Items(dense, bm25))
  {
    var items := Items(dense, bm25);
    forall i | 0 <= i < |items|
      ensures if i < |dense| then items[i] == FromDense(dense[i]) else items[i] == FromBm25(bm25[i - |dense|])
    {
      if i >= |dense| {
        assert items[|dense| + (i - |dense|)] == FromBm25(bm25[i - |dense|]);
      }
    }
  }

  // ----- what a merge is

  ghost predicate Touches(items: seq<Result>, n: nat) {
    exists i :: 0 <= i < |items| && items[i].node == n
  }

  ghost predicate HasDensePart(items: seq<Result>, n: nat) {
    exists i :: 0 <= i < |items| && items[i].node == n && items[i].dense.Some?
  }

  ghost predicate HasBm25Part(items: seq<Result>, n: nat) {
    exists i :: 0 <= i < |items| && items[i].node == n && items[i].bm25.Some?
  }

  /** r collects exactly the parts of its node, and the heap tid of the dense branch where there is one. */
  ghost predicate Gathers(items: seq<Result>, r: Result) {
    && Touches(items, r.node) && r.fusedScore == 0.0
    && (r.dense.Some? <==> HasDensePart(items, r.node))
    && (r.bm25.Some? <==> HasBm25Part(items, r.node))
    && forall i :: 0 <= i < |items| && items[i].node == r.node ==>
         && (items[i].dense.Some? ==> r.dense == items[i].dense && r.tid == items[i].tid)
         && (items[i].bm25.Some? ==> r.bm25 == items[i].bm25 && (r.dense.None? ==> r.tid == items[i].tid))
  }

  lemma {:induction false} GathersIsUnique(items: seq<Result>, r: Result, r': Result)
    requires (forall i :: 0 <= i < |items| ==> Single(items[i])) && Gathers(items, r) && Gathers(items, r') && r.node == r'.node
    ensures r == r'
  {
    var i :| 0 <= i < |items| && items[i].node == r.node;
    if r.dense.Some? {
      var j :| 0 <= j < |items| && items[j].node == r.node && items[j].dense.Some?;
    }
    if r.bm25.Some? {
      var j :| 0 <= j < |items| && items[j].node == r.node && items[j].bm25.Some?;
    }
  }

  /** A result takes in another item of its node; the dense branch's heap tid wins. */
  function Absorb(r: Result, x: Result): Result {
    var r1 := if x.dense.Some? then r.(dense := x.dense, tid := x.tid) else r;
    if x.bm25.Some? then r1.(bm25 := x.bm25, tid := if r1.dense.None? then x.tid else r1.tid) else r1
  }

  lemma {:induction false} TouchesAppended(items: seq<Result>, x: Result, n: nat)
    ensures Touches(items + [x], n) <==> Touches(items, n) || x.node == n
    ensures HasDensePart(items + [x], n) <==> HasDensePart(items, n) || (x.node == n && x.dense.Some?)
    ensures HasBm25Part(items + [x], n) <==> HasBm25Part(items, n) || (x.node == n && x.bm25.Some?)
  {
    var all := items + [x];
    assert all[|items|] == x;
    assert forall i :: 0 <= i < |items| ==> all[i] == items[i];
  }

  /** One more item changes the result of its own node only. */
  lemma {:induction false} GathersAppended(items: seq<Result>, x: Result, r: Result)
    requires Separate(items + [x])
    ensures r.node != x.node ==> (Gathers(items + [x], r) <==> Gathers(items, r))
    ensures r.node == x.node && Gathers(items, r) ==> Gathers(items + [x], Absorb(r, x))
    ensures !Touches(items, x.node) ==> Gathers(items + [x], x)
  {
    var all := items + [x];
    assert all[|items|] == x && Single(x);
    assert forall i :: 0 <= i < |items| ==> all[i] == items[i];
    TouchesAppended(items, x, r.node);
    TouchesAppended(items, x, x.node);
    assert forall i :: 0 <= i < |items| ==> !Clash(all[i], all[|items|]);
  }

  /** The merge of items, as a map by node id. */
  ghost predicate Merges(items: seq<Result>, m: map<nat, Result>) {
    && (forall n: nat :: n in m <==> Touches(items, n))
    && forall n :: n in m ==> m[n].node == n && Gathers(items, m[n])
  }

  function AbsorbInto(m: map<nat, Result>, x: Result): map<nat, Result> {
    m[x.node := Absorb(if x.node in m then m[x.node] else Blank(x.node), x)]
  }

  lemma {:induction false} MergesStep(items: seq<Result>, m: map<nat, Result>, x: Result)
    requires Separate(items + [x]) && Merges(items, m)
    ensures Merges(items + [x], AbsorbInto(m, x))
  {
    var m' := AbsorbInto(m, x);
    assert Single((items + [x])[|items|]);
    forall n: nat
      ensures n in m' <==> Touches(items + [x], n)
      ensures n in m' ==> m'[n].node == n && Gathers(items + [x], m'[n])
    {
      TouchesAppended(items, x, n);
      if n in m' {
        GathersAppended(items, x, if n in m then m[n] else x);
      }
    }
  }

  /** A finished merge: one result per node, without those lacking a required BM25 match. */
  ghost predicate IsMerge(items: seq<Result>, requireBm25: bool, merged: seq<Result>) {
    && (forall i, j :: 0 <= i < j < |merged| ==> merged[i].node != merged[j].node)
    && (forall r :: r in merged <==> Gathers(items, r) && (requireBm25 ==> r.bm25.Some?))
  }

  /** The items in another order have the same merge. */
  lemma {:induction false} OrderDoesNotMatter(items: seq<Result>, items': seq<Result>, r: Result)
    requires multiset(items) == multiset(items')
    ensures Gathers(items, r) <==> Gathers(items', r)
  {
    forall x: Result
      ensures x in items <==> x in items'
    {
      assert x in items <==> x in multiset(items);
      assert x in items' <==> x in multiset(items');
    }
    GathersIn(items, items', r);
    GathersIn(items', items, r);
  }

  lemma {:induction false} GathersIn(items: seq<Result>, items': seq<Result>, r: Result)
    requires forall x: Result :: x in items <==> x in items'
    ensures Gathers(items, r) ==> Gathers(items', r)
  {
    if Gathers(items, r) {
      var i :| 0 <= i < |items| && items[i].node == r.node;
      var j := Find(items', items[i]);
      if k :| 0 <= k < |items| && items[k].node == r.node && items[k].dense.Some? {
        var l := Find(items', items[k]);
      }
      if k :| 0 <= k < |items| && items[k].node == r.node && items[k].bm25.Some? {
        var l := Find(items', items[k]);
      }
      forall k | 0 <= k < |items'|
        ensures items'[k] in items
      {
        assert items'[k] in items';
      }
    }
  }

  lemma {:induction false} Find(items: seq<Result>, x: Result) returns (i: nat)
    requires x in items
    ensures i < |items| && items[i] == x
  {
    i :| 0 <= i < |items| && items[i] == x;
  }
}
