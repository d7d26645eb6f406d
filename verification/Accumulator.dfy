/**
 The query accumulator of the BM25 branch: a score per touched node, and an indexed
 min-heap over the best k of them whose root score is the pruning threshold.
 */
module Accumulator {
  import opened Ranking
  import opened BoundedSelection
  import opened QueryEval

  datatype NodeScore = NodeScore(node: nat, score: real)

  /** Result order of the BM25 branch: score descending, then node id ascending. */
  predicate ScoreBefore(a: NodeScore, b: NodeScore) {
    a.score > b.score || (a.score == b.score && a.node < b.node)
  }

  const Before: (NodeScore, NodeScore) -> bool := ScoreBefore

  lemma {:induction false} BeforeIsWeakOrder()
    ensures WeakOrder(Before)
  {
  }

  /** heapIndex is -1 outside the heap. */
  datatype Entry = Entry(score: real, matched: Mask, heapIndex: int)

  type Entries = map<nat, Entry>

  ghost function Scores(es: Entries): map<nat, real> {
    map n | n in es :: es[n].score
  }

  ghost function Masks(es: Entries): map<nat, Mask> {
    map n | n in es :: es[n].matched
  }

  ghost predicate HeapNodes(es: Entries, heap: seq<nat>) {
    forall i :: 0 <= i < |heap| ==> heap[i] in es
  }

  ghost function View(es: Entries, heap: seq<nat>): (v: seq<NodeScore>)
    requires HeapNodes(es, heap)
    ensures |v| == |heap|
    ensures forall i :: 0 <= i < |heap| ==> v[i] == NodeScore(heap[i], es[heap[i]].score)
  {
    seq(|heap|, i requires 0 <= i < |heap| => NodeScore(heap[i], es[heap[i]].score))
  }

  /** Heap slots and back-indices agree. */
  ghost predicate Indexed(es: Entries, heap: seq<nat>) {
    && HeapNodes(es, heap)
    && (forall i :: 0 <= i < |heap| ==> es[heap[i]].heapIndex == i)
    && (forall n :: n in es && es[n].heapIndex != -1 ==>
          0 <= es[n].heapIndex < |heap| && heap[es[n].heapIndex] == n)
  }

  function SwapIndices(es: Entries, heap: seq<nat>, a: nat, b: nat): Entries
    requires a < |heap| && b < |heap| && heap[a] in es && heap[b] in es
  {
    es[heap[b] := es[heap[b]].(heapIndex := a)][heap[a] := es[heap[a]].(heapIndex := b)]
  }

  /** Who is in the heap, and every score and mask, are untouched by moving entries about. */
  ghost predicate SameContents(es: Entries, es': Entries) {
    && es'.Keys == es.Keys
    && forall n :: n in es ==>
         && es'[n].score == es[n].score
         && es'[n].matched == es[n].matched
         && (es'[n].heapIndex == -1 <==> es[n].heapIndex == -1)
  }

  lemma {:induction false} SwapStaysIndexed(es: Entries, heap: seq<nat>, a: nat, b: nat)
    requires Indexed(es, heap) && a < |heap| && b < |heap| && a != b
    ensures Indexed(SwapIndices(es, heap, a, b), Swap(heap, a, b))
    ensures SameContents(es, SwapIndices(es, heap, a, b))
    ensures View(SwapIndices(es, heap, a, b), Swap(heap, a, b)) == Swap(View(es, heap), a, b)
  {
  }

  lemma {:induction false} SameContentsTransitive(es: Entries, es': Entries, es'': Entries)
    requires SameContents(es, es') && SameContents(es', es'')
    ensures SameContents(es, es'')
  {
  }

  ghost function AtLeast(m: map<nat, real>, t: real): set<nat> {
    set n | n in m && m[n] >= t
  }

  ghost function Above(m: map<nat, real>, t: real): set<nat> {
    set n | n in m && m[n] > t
  }

  /** t is the k-th largest value of m, values counted with their multiplicity. */
  ghost predicate IsKthLargest(m: map<nat, real>, k: nat, t: real) {
    |AtLeast(m, t)| >= k > |Above(m, t)|
  }

  lemma {:induction false} KthLargestIsUnique(m: map<nat, real>, k: nat, t: real, t': real)
    requires IsKthLargest(m, k, t) && IsKthLargest(m, k, t')
    ensures t == t'
  {
    if t < t' {
      SubsetSize(AtLeast(m, t'), Above(m, t));
    } else if t' < t {
      SubsetSize(AtLeast(m, t), Above(m, t'));
    }
  }

  /** Raising values and adding nodes never lowers the k-th largest. */
  lemma {:induction false} KthLargestGrows(m: map<nat, real>, m': map<nat, real>, k: nat, t: real, t': real)
    requires IsKthLargest(m, k, t) && IsKthLargest(m', k, t')
    requires forall n :: n in m ==> n in m' && m[n] <= m'[n]
    ensures t <= t'
  {
    if t' < t {
      SubsetSize(AtLeast(m, t), Above(m', t'));
    }
  }

  /** The heap holds the best scores, in heap order. */
  ghost predicate Settled(es: Entries, heap: seq<nat>, capacity: nat) {
    && |heap| == Min(capacity, |es|)
    && Indexed(es, heap)
    && HeapOrder(Before, View(es, heap))
    && (forall n :: n in es ==> es[n].score >= 0.0)
    && Outclassed(es, heap)
  }

  /** The state of an accumulator between two calls. */
  ghost predicate Consistent(es: Entries, touched: seq<nat>, heap: seq<nat>, capacity: nat, threshold: real) {
    && Distinct(touched)
    && Elements(touched) == es.Keys
    && Settled(es, heap, capacity)
    && threshold == (if 0 < capacity == |heap| then es[heap[0]].score else 0.0)
  }

  /** Whoever is not in the heap does not score above its root. */
  ghost predicate Outclassed(es: Entries, heap: seq<nat>)
    requires HeapNodes(es, heap)
  {
    forall n :: n in es && es[n].heapIndex == -1 && heap != [] ==> es[n].score <= es[heap[0]].score
  }

  /** The threshold of a full heap is exactly the k-th largest score. */
  lemma {:induction false} ThresholdIsKthLargest(es: Entries, touched: seq<nat>, heap: seq<nat>, k: nat,
                                                 threshold: real)
    requires Consistent(es, touched, heap, k, threshold) && 0 < k <= |es|
    ensures IsKthLargest(Scores(es), k, threshold)
  {
    var m := Scores(es);
    BeforeIsWeakOrder();
    assert Distinct(heap) by {
      forall i, j | 0 <= i < j < |heap| ensures heap[i] != heap[j] {
        assert es[heap[i]].heapIndex == i && es[heap[j]].heapIndex == j;
      }
    }
    DistinctSize(heap);
    forall i | 0 <= i < |heap|
      ensures es[heap[i]].score >= threshold
    {
      RootIsWorst(Before, View(es, heap), i);
    }
    SubsetSize(Elements(heap), AtLeast(m, threshold));
    var others := Elements(heap) - {heap[0]};
    assert heap[0] in Elements(heap);
    assert |others| == k - 1;
    forall n | n in Above(m, threshold)
      ensures n in others
    {
      assert es[n].heapIndex != -1;
      assert heap[es[n].heapIndex] == n;
    }
    SubsetSize(Above(m, threshold), others);
  }

  /** t separates the scores inside the heap from those outside. */
  ghost predicate Split(es: Entries, t: real) {
    forall n :: n in es ==> if es[n].heapIndex == -1 then es[n].score <= t else es[n].score >= t
  }

  lemma {:induction false} RootSplits(es: Entries, heap: seq<nat>)
    requires Indexed(es, heap) && heap != [] && HeapOrder(Before, View(es, heap)) && Outclassed(es, heap)
    ensures Split(es, es[heap[0]].score)
  {
    BeforeIsWeakOrder();
    forall n | n in es && es[n].heapIndex != -1
      ensures es[n].score >= es[heap[0]].score
    {
      RootIsWorst(Before, View(es, heap), es[n].heapIndex);
    }
  }

  /** Before the heap is full it holds every touched node. */
  lemma {:induction false} AllInHeap(es: Entries, heap: seq<nat>)
    requires Indexed(es, heap) && |heap| == |es|
    ensures forall n :: n in es ==> es[n].heapIndex != -1
  {
    assert Distinct(heap) by {
      forall i, j | 0 <= i < j < |heap| ensures heap[i] != heap[j] {
        assert es[heap[i]].heapIndex == i && es[heap[j]].heapIndex == j;
      }
    }
    DistinctSize(heap);
    SubsetSize(Elements(heap), es.Keys);
    assert |es.Keys| == |es|;
    forall n | n in es
      ensures es[n].heapIndex != -1
    {
      assert n in Elements(heap);
      var i :| 0 <= i < |heap| && heap[i] == n;
    }
  }

  /** Distinct slots hold distinct nodes, none of them a node outside the heap. */
  lemma {:induction false} SlotsDiffer(es: Entries, heap: seq<nat>, n: nat)
    requires Indexed(es, heap)
    ensures forall i :: 0 <= i < |heap| && heap[i] == n ==> n in es && es[n].heapIndex == i
  {
  }

  lemma {:induction false} RaisedIndexed(es: Entries, heap: seq<nat>, n: nat, e: Entry)
    requires Indexed(es, heap) && n in es && es[n].heapIndex != -1 && e.heapIndex == es[n].heapIndex
    ensures Indexed(es[n := e], heap)
    ensures View(es[n := e], heap) == View(es, heap)[e.heapIndex := NodeScore(n, e.score)]
  {
    SlotsDiffer(es, heap, n);
  }

  /** On plain values: raising one item of a heap leaves it out of place below only. */
  lemma {:induction false} RaisedItemSinks(v: seq<NodeScore>, pos: nat, x: NodeScore)
    requires HeapOrder(Before, v) && pos < |v| && x.node == v[pos].node && x.score >= v[pos].score
    ensures Sinking(Before, v[pos := x], pos)
  {
    BeforeIsWeakOrder();
    var w := v[pos := x];
    forall c | 0 < c < |w| && (c - 1) / 2 != pos
      ensures Fits(Before, w, c)
    {
      assert Fits(Before, v, c);
    }
    forall c | 2 < c < |w| && (c - 1) / 2 == pos
      ensures FitsAbove(Before, w, c)
    {
      assert Fits(Before, v, c) && Fits(Before, v, pos);
    }
  }

  /** A heap entry whose score went up can only move away from the root. */
  lemma {:induction false} RaisedSinks(es: Entries, heap: seq<nat>, n: nat, e: Entry)
    requires Indexed(es, heap) && HeapOrder(Before, View(es, heap))
    requires n in es && es[n].heapIndex != -1 && e.heapIndex == es[n].heapIndex && e.score >= es[n].score
    ensures Indexed(es[n := e], heap)
    ensures Sinking(Before, View(es[n := e], heap), e.heapIndex)
  {
    RaisedIndexed(es, heap, n, e);
    RaisedItemSinks(View(es, heap), e.heapIndex, NodeScore(n, e.score));
  }

  lemma {:induction false} AppendedIndexed(es: Entries, heap: seq<nat>, n: nat, e: Entry)
    requires Indexed(es, heap) && (n in es ==> es[n].heapIndex == -1) && e.heapIndex == |heap|
    ensures Indexed(es[n := e], heap + [n])
    ensures View(es[n := e], heap + [n]) == View(es, heap) + [NodeScore(n, e.score)]
  {
    SlotsDiffer(es, heap, n);
  }

  lemma {:induction false} AppendedItemRises(v: seq<NodeScore>, x: NodeScore)
    requires HeapOrder(Before, v)
    ensures Rising(Before, v + [x], |v|)
  {
    var w := v + [x];
    forall c | 0 < c < |w| && c != |v|
      ensures Fits(Before, w, c)
    {
      assert Fits(Before, v, c);
    }
  }

  lemma {:induction false} AppendedRises(es: Entries, heap: seq<nat>, n: nat, e: Entry)
    requires Indexed(es, heap) && HeapOrder(Before, View(es, heap))
    requires n in es ==> es[n].heapIndex == -1
    requires e.heapIndex == |heap|
    ensures Indexed(es[n := e], heap + [n])
    ensures Rising(Before, View(es[n := e], heap + [n]), |heap|)
  {
    AppendedIndexed(es, heap, n, e);
    AppendedItemRises(View(es, heap), NodeScore(n, e.score));
  }

  /** The root gives up its slot to n. */
  function Replaced(es: Entries, heap: seq<nat>, n: nat, e: Entry): Entries
    requires heap != [] && heap[0] in es
  {
    es[heap[0] := es[heap[0]].(heapIndex := -1)][n := e.(heapIndex := 0)]
  }

  lemma {:induction false} ReplacedIndexed(es: Entries, heap: seq<nat>, n: nat, e: Entry)
    requires Indexed(es, heap) && heap != [] && (n in es ==> es[n].heapIndex == -1)
    ensures n != heap[0] && Indexed(Replaced(es, heap, n, e), heap[0 := n])
    ensures View(Replaced(es, heap, n, e), heap[0 := n]) == View(es, heap)[0 := NodeScore(n, e.score)]
  {
    SlotsDiffer(es, heap, n);
    SlotsDiffer(es, heap, heap[0]);
  }

  lemma {:induction false} ReplacedSplits(es: Entries, heap: seq<nat>, n: nat, e: Entry)
    requires heap != [] && heap[0] in es && n != heap[0] && Split(es, es[heap[0]].score) && e.score > es[heap[0]].score
    ensures Split(Replaced(es, heap, n, e), es[heap[0]].score)
  {
  }

  /** The places in the heap matter neither to scores nor to masks. */
  lemma {:induction false} ReplacedTables(es: Entries, heap: seq<nat>, n: nat, e: Entry)
    requires heap != [] && heap[0] in es && n != heap[0]
    ensures Scores(Replaced(es, heap, n, e)) == Scores(es[n := e])
    ensures Masks(Replaced(es, heap, n, e)) == Masks(es[n := e])
    ensures |Replaced(es, heap, n, e)| >= |es|
  {
    var es' := Replaced(es, heap, n, e);
    SubsetSize(es.Keys, es'.Keys);
    assert |es| == |es.Keys| && |es'| == |es'.Keys|;
  }

  lemma {:induction false} ReplacePrepared(es: Entries, heap: seq<nat>, n: nat, e: Entry)
    requires Settled(es, heap, |heap|) && heap != []
    requires (n in es ==> es[n].heapIndex == -1) && e.heapIndex == -1 && e.score > es[heap[0]].score
    ensures n != heap[0]
    ensures Indexed(Replaced(es, heap, n, e), heap[0 := n])
    ensures Sinking(Before, View(Replaced(es, heap, n, e), heap[0 := n]), 0)
    ensures Split(Replaced(es, heap, n, e), es[heap[0]].score)
    ensures Min(|heap|, |Replaced(es, heap, n, e)|) == |heap|
    ensures Scores(Replaced(es, heap, n, e)) == Scores(es[n := e])
    ensures Masks(Replaced(es, heap, n, e)) == Masks(es[n := e])
  {
    ReplacedIndexed(es, heap, n, e);
    ReplacedRootSinks(Before, View(es, heap), NodeScore(n, e.score));
    RootSplits(es, heap);
    ReplacedSplits(es, heap, n, e);
    ReplacedTables(es, heap, n, e);
  }

  lemma {:induction false} AppendedTables(es: Entries, n: nat, e: Entry, i: int)
    ensures Scores(es[n := e.(heapIndex := i)]) == Scores(es[n := e])
    ensures Masks(es[n := e.(heapIndex := i)]) == Masks(es[n := e])
  {
  }

  lemma {:induction false} AppendedSize(es: Entries, n: nat, e: Entry)
    requires n !in es
    ensures |es[n := e]| == |es| + 1
  {
    assert es[n := e].Keys == es.Keys + {n};
    assert |es| == |es.Keys| && |es[n := e]| == |es[n := e].Keys|;
  }

  lemma {:induction false} AppendPrepared(es: Entries, heap: seq<nat>, capacity: nat, n: nat, e: Entry)
    requires Settled(es, heap, capacity) && |heap| < capacity
    requires (n in es ==> es[n].heapIndex == -1) && e.score >= 0.0
    ensures Indexed(es[n := e.(heapIndex := |heap|)], heap + [n])
    ensures Rising(Before, View(es[n := e.(heapIndex := |heap|)], heap + [n]), |heap|)
    ensures Split(es[n := e.(heapIndex := |heap|)], 0.0)
    ensures |es[n := e.(heapIndex := |heap|)]| == |heap| + 1
    ensures Scores(es[n := e.(heapIndex := |heap|)]) == Scores(es[n := e])
    ensures Masks(es[n := e.(heapIndex := |heap|)]) == Masks(es[n := e])
  {
    var e' := e.(heapIndex := |heap|);
    AllInHeap(es, heap);
    AppendedRises(es, heap, n, e');
    AppendedSize(es, n, e');
    AppendedTables(es, n, e, |heap|);
  }

  lemma {:induction false} RaisedSplits(es: Entries, heap: seq<nat>, n: nat, e: Entry)
    requires Indexed(es, heap) && HeapOrder(Before, View(es, heap)) && Outclassed(es, heap)
    requires n in es && es[n].heapIndex != -1 && e.heapIndex == es[n].heapIndex && e.score >= es[n].score
    ensures heap != [] && Split(es[n := e], es[heap[0]].score)
  {
    RootSplits(es, heap);
  }

  /** An entry outside a full heap that does not beat the root leaves the heap as it is. */
  lemma {:induction false} LeftAlone(es: Entries, heap: seq<nat>, n: nat, e: Entry)
    requires Settled(es, heap, |heap|) && heap != []
    requires (n in es ==> es[n].heapIndex == -1) && e.heapIndex == -1 && 0.0 <= e.score <= es[heap[0]].score
    ensures Settled(es[n := e], heap, |heap|)
  {
    assert forall i :: 0 <= i < |heap| ==> heap[i] != n by {
      forall i | 0 <= i < |heap| ensures heap[i] != n {
        assert es[heap[i]].heapIndex == i;
      }
    }
    assert View(es[n := e], heap) == View(es, heap);
    assert |es[n := e]| >= |heap| by {
      SubsetSize(es.Keys, es[n := e].Keys);
      assert |es| == |es.Keys| && |es[n := e]| == |es[n := e].Keys|;
    }
  }

  lemma {:induction false} SettledAfter(es1: Entries, es: Entries, heap: seq<nat>, capacity: nat, t: real)
    requires SameContents(es1, es) && Split(es1, t) && forall n :: n in es1 ==> es1[n].score >= 0.0
    requires Indexed(es, heap) && HeapOrder(Before, View(es, heap)) && |heap| == Min(capacity, |es1|)
    ensures Settled(es, heap, capacity)
    ensures Scores(es) == Scores(es1) && Masks(es) == Masks(es1)
  {
    assert es.Keys == es1.Keys;
    assert |es| == |es.Keys| && |es1| == |es1.Keys|;
    if heap != [] {
      assert es[heap[0]].heapIndex == 0;
    }
  }

  function Get<T>(m: map<nat, T>, n: nat, default: T): T {
    if n in m then m[n] else default
  }

  /** A score table after one more addition. */
  function Added(m: map<nat, real>, n: nat, score: real): map<nat, real> {
    m[n := Get(m, n, 0.0) + score]
  }

  function Bump(es: Entries, n: nat, score: real, matchBit: Mask): Entries {
    var e := Get(es, n, Entry(0.0, {}, -1));
    es[n := e.(score := e.score + score, matched := e.matched + matchBit)]
  }

  lemma {:induction false} BumpAdds(es: Entries, n: nat, score: real, matchBit: Mask)
    requires score >= 0.0
    ensures Scores(Bump(es, n, score, matchBit)) == Added(Scores(es), n, score)
    ensures Masks(Bump(es, n, score, matchBit)) == Masks(es)[n := Get(Masks(es), n, {}) + matchBit]
    ensures forall m :: m in es ==> m in Bump(es, n, score, matchBit) && es[m].score <= Bump(es, n, score, matchBit)[m].score
  {
  }

  /** es differs from es0 only in node's entry, which is new or has a higher score. */
  ghost predicate Raised(es0: Entries, es: Entries, node: nat) {
    && node in es
    && es == es0[node := es[node]]
    && es[node].score >= 0.0
    && if node in es0
       then es[node].score >= es0[node].score && es[node].heapIndex == es0[node].heapIndex
       else es[node].heapIndex == -1
  }

  lemma {:induction false} BumpRaises(es: Entries, n: nat, score: real, matchBit: Mask)
    requires score >= 0.0 && forall m :: m in es ==> es[m].score >= 0.0
    ensures Raised(es, Bump(es, n, score, matchBit), n)
  {
  }

  lemma {:induction false} ScoresKeys(es: Entries, es': Entries)
    requires Scores(es) == Scores(es')
    ensures es.Keys == es'.Keys
  {
    assert es.Keys == Scores(es).Keys && es'.Keys == Scores(es').Keys;
  }

  lemma {:induction false} TouchedExtends(es: Entries, touched: seq<nat>, n: nat)
    requires Distinct(touched) && Elements(touched) == es.Keys && n !in es
    ensures Distinct(touched + [n]) && Elements(touched + [n]) == es.Keys + {n}
  {
    assert n in touched ==> n in Elements(touched);
  }

  lemma {:induction false} SameScoresSameGrowth(es0: Entries, es1: Entries, es: Entries)
    requires Scores(es) == Scores(es1)
    requires forall m :: m in es0 ==> m in es1 && es0[m].score <= es1[m].score
    ensures es.Keys == es1.Keys
    ensures forall m :: m in es0 ==> m in es && es0[m].score <= es[m].score
  {
    assert es.Keys == Scores(es).Keys && es1.Keys == Scores(es1).Keys;
    forall m | m in es0
      ensures es0[m].score <= es[m].score
    {
      assert Scores(es)[m] == Scores(es1)[m];
    }
  }

  lemma {:induction false} ThresholdGrows(es: Entries, touched: seq<nat>, heap: seq<nat>, t: real,
                       es': Entries, touched': seq<nat>, heap': seq<nat>, t': real, k: nat)
    requires Consistent(es, touched, heap, k, t) && Consistent(es', touched', heap', k, t')
    requires forall n :: n in es ==> n in es' && es[n].score <= es'[n].score
    ensures t <= t'
  {
    if 0 < k <= |es| {
      SubsetSize(es.Keys, es'.Keys);
      assert |es| == |es.Keys| && |es'| == |es'.Keys|;
      ThresholdIsKthLargest(es, touched, heap, k, t);
      ThresholdIsKthLargest(es', touched', heap', k, t');
      KthLargestGrows(Scores(es), Scores(es'), k, t, t');
    }
  }

  class QueryAccumulator {
    var entries: Entries
    var touched: seq<nat>
    const topHeap: array<nat>
    var topHeapCount: nat
    var threshold: real

    ghost predicate Valid()
      reads this, topHeap
    {
      && topHeapCount <= topHeap.Length
      && Consistent(entries, touched, topHeap[..topHeapCount], topHeap.Length, threshold)
    }

    constructor (topK: nat)
      ensures Valid() && fresh(topHeap) && topHeap.Length == topK
      ensures entries == map[] && touched == []
    {
      entries, touched, topHeapCount, threshold := map[], [], 0, 0.0;
      topHeap := new nat[topK](_ => 0);
    }

    method HeapSwap(a: nat, b: nat)
      requires topHeapCount <= topHeap.Length && a < topHeapCount && b < topHeapCount && a != b
      requires Indexed(entries, topHeap[..topHeapCount])
      modifies this`entries, topHeap
      ensures topHeap[..topHeapCount] == Swap(old(topHeap[..topHeapCount]), a, b)
      ensures Indexed(entries, topHeap[..topHeapCount]) && SameContents(old(entries), entries)
      ensures View(entries, topHeap[..topHeapCount]) == Swap(old(View(entries, topHeap[..topHeapCount])), a, b)
    {
      ghost var heap: seq<nat> := topHeap[..topHeapCount];
      SwapStaysIndexed(entries, heap, a, b);
      var na, nb := topHeap[a], topHeap[b];
      topHeap[a], topHeap[b] := nb, na;
      entries := entries[nb := entries[nb].(heapIndex := a)];
      entries := entries[na := entries[na].(heapIndex := b)];
      assert topHeap[..topHeapCount] == Swap(heap, a, b);
    }

    method HeapSiftUp(start: nat)
      requires topHeapCount <= topHeap.Length && start < topHeapCount
      requires Indexed(entries, topHeap[..topHeapCount])
      requires Rising(Before, View(entries, topHeap[..topHeapCount]), start)
      modifies this`entries, topHeap
      ensures Indexed(entries, topHeap[..topHeapCount]) && SameContents(old(entries), entries)
      ensures HeapOrder(Before, View(entries, topHeap[..topHeapCount]))
    {
      BeforeIsWeakOrder();
      var pos: nat := start;
      while pos > 0
        invariant Indexed(entries, topHeap[..topHeapCount]) && SameContents(old(entries), entries)
        invariant Rising(Before, View(entries, topHeap[..topHeapCount]), pos)
      {
        ghost var view := View(entries, topHeap[..topHeapCount]);
        var parent := (pos - 1) / 2;
        if !ScoreBefore(NodeScore(topHeap[parent], entries[topHeap[parent]].score),
                        NodeScore(topHeap[pos], entries[topHeap[pos]].score)) {
          assert Fits(Before, view, pos);
          break;
        }
        assert !Fits(Before, view, pos);
        RisingStep(Before, view, pos);
        HeapSwap(pos, parent);
        pos := parent;
      }
    }

    method HeapSiftDown(start: nat)
      requires topHeapCount <= topHeap.Length && start < topHeapCount
      requires Indexed(entries, topHeap[..topHeapCount])
      requires Sinking(Before, View(entries, topHeap[..topHeapCount]), start)
      modifies this`entries, topHeap
      ensures Indexed(entries, topHeap[..topHeapCount]) && SameContents(old(entries), entries)
      ensures HeapOrder(Before, View(entries, topHeap[..topHeapCount]))
    {
      BeforeIsWeakOrder();
      var pos: nat := start;
      while true
        invariant Indexed(entries, topHeap[..topHeapCount]) && SameContents(old(entries), entries)
        invariant Sinking(Before, View(entries, topHeap[..topHeapCount]), pos)
        decreases topHeapCount - pos
      {
        ghost var view := View(entries, topHeap[..topHeapCount]);
        var smallest := SmallestChild(pos);
        if smallest == pos {
          SinkingDone(Before, view, pos);
          break;
        }
        SinkingStep(Before, view, pos, smallest);
        HeapSwap(pos, smallest);
        pos := smallest;
      }
    }

    /** The smallest of a slot and its children. */
    method SmallestChild(pos: nat) returns (smallest: nat)
      requires pos < topHeapCount <= topHeap.Length && Indexed(entries, topHeap[..topHeapCount])
      ensures pos <= smallest < topHeapCount
      ensures var v := View(entries, topHeap[..topHeapCount]);
              && (forall c :: 0 < c < |v| && (c - 1) / 2 == pos ==> !Before(v[smallest], v[c]))
              && (smallest != pos ==> smallest > pos && (smallest - 1) / 2 == pos && !Fits(Before, v, smallest))
    {
      BeforeIsWeakOrder();
      ghost var view := View(entries, topHeap[..topHeapCount]);
      var left, right := 2 * pos + 1, 2 * pos + 2;
      smallest := pos;
      if left < topHeapCount && HeapLess(left, smallest) {
        smallest := left;
      }
      if right < topHeapCount && HeapLess(right, smallest) {
        smallest := right;
      }
      WorstOfThree(Before, view, pos, smallest);
    }

    /** The entry in slot a ranks below the one in slot b. */
    predicate HeapLess(a: nat, b: nat)
      reads this, topHeap
      requires topHeapCount <= topHeap.Length && a < topHeapCount && b < topHeapCount
      requires topHeap[a] in entries && topHeap[b] in entries
    {
      ScoreBefore(NodeScore(topHeap[b], entries[topHeap[b]].score),
                  NodeScore(topHeap[a], entries[topHeap[a]].score))
    }

    /** Restores the heap and the threshold after `node` was created or its score went up. */
    method UpdateTopK(node: nat, ghost es0: Entries)
      requires topHeapCount <= topHeap.Length
      requires Settled(es0, topHeap[..topHeapCount], topHeap.Length) && Raised(es0, entries, node)
      modifies this`entries, this`topHeapCount, this`threshold, topHeap
      ensures topHeapCount <= topHeap.Length && Settled(entries, topHeap[..topHeapCount], topHeap.Length)
      ensures threshold == if 0 < topHeap.Length == topHeapCount then entries[topHeap[0]].score else 0.0
      ensures Scores(entries) == old(Scores(entries)) && Masks(entries) == old(Masks(entries))
    {
      ghost var heap0: seq<nat> := topHeap[..topHeapCount];
      if topHeap.Length == 0 {
        // no heap to keep
      } else if entries[node].heapIndex >= 0 {
        RaiseTopK(node, es0);
      } else if topHeapCount < topHeap.Length {
        AppendTopK(node, es0);
      } else if entries[node].score > entries[topHeap[0]].score {
        ReplaceTopK(node, es0);
      } else {
        assert heap0[0] == topHeap[0];
        LeftAlone(es0, heap0, node, entries[node]);
      }
      RefreshThreshold();
    }

    method RaiseTopK(node: nat, ghost es0: Entries)
      requires topHeapCount <= topHeap.Length && node in entries && node in es0
      requires Settled(es0, topHeap[..topHeapCount], topHeap.Length)
      requires entries == es0[node := entries[node]] && entries[node].score >= es0[node].score
      requires -1 != entries[node].heapIndex == es0[node].heapIndex
      modifies this`entries, topHeap
      ensures Settled(entries, topHeap[..topHeapCount], topHeap.Length)
      ensures Scores(entries) == old(Scores(entries)) && Masks(entries) == old(Masks(entries))
    {
      ghost var heap0: seq<nat> := topHeap[..topHeapCount];
      ghost var given := entries;
      assert |given| == |es0| by {
        assert given.Keys == es0.Keys;
        assert |given| == |given.Keys| && |es0| == |es0.Keys|;
      }
      RaisedSinks(es0, heap0, node, entries[node]);
      RaisedSplits(es0, heap0, node, entries[node]);
      HeapSiftDown(entries[node].heapIndex);
      SettledAfter(given, entries, topHeap[..topHeapCount], topHeap.Length, es0[heap0[0]].score);
    }

    method AppendTopK(node: nat, ghost es0: Entries)
      requires topHeapCount < topHeap.Length && node in entries
      requires Settled(es0, topHeap[..topHeapCount], topHeap.Length)
      requires node in es0 ==> es0[node].heapIndex == -1
      requires entries == es0[node := entries[node]] && entries[node].score >= 0.0 && entries[node].heapIndex == -1
      modifies this`entries, this`topHeapCount, topHeap
      ensures topHeapCount <= topHeap.Length && Settled(entries, topHeap[..topHeapCount], topHeap.Length)
      ensures Scores(entries) == old(Scores(entries)) && Masks(entries) == old(Masks(entries))
    {
      ghost var heap0: seq<nat> := topHeap[..topHeapCount];
      ghost var es1 := es0[node := entries[node].(heapIndex := topHeapCount)];
      AppendPrepared(es0, heap0, topHeap.Length, node, entries[node]);
      entries := entries[node := entries[node].(heapIndex := topHeapCount)];
      assert entries == es1;
      topHeap[topHeapCount] := node;
      topHeapCount := topHeapCount + 1;
      assert topHeap[..topHeapCount] == heap0 + [node];
      HeapSiftUp(topHeapCount - 1);
      SettledAfter(es1, entries, topHeap[..topHeapCount], topHeap.Length, 0.0);
    }

    method ReplaceTopK(node: nat, ghost es0: Entries)
      requires 0 < topHeapCount == topHeap.Length && node in entries
      requires Settled(es0, topHeap[..topHeapCount], topHeap.Length)
      requires entries == es0[node := entries[node]] && entries[node].heapIndex == -1
      requires node in es0 ==> es0[node].heapIndex == -1
      requires topHeap[0] in entries && entries[node].score > entries[topHeap[0]].score
      modifies this`entries, topHeap
      ensures Settled(entries, topHeap[..topHeapCount], topHeap.Length)
      ensures Scores(entries) == old(Scores(entries)) && Masks(entries) == old(Masks(entries))
    {
      ghost var heap0: seq<nat> := topHeap[..topHeapCount];
      assert heap0[0] == topHeap[0];
      ReplacePrepared(es0, heap0, node, entries[node]);
      ghost var es1 := Replaced(es0, heap0, node, entries[node]);
      SeatAtRoot(node, es0);
      HeapSiftDown(0);
      SettledAfter(es1, entries, topHeap[..topHeapCount], topHeap.Length, es0[heap0[0]].score);
    }

    /** The root leaves the heap and node takes its slot. */
    method SeatAtRoot(node: nat, ghost es0: Entries)
      requires 0 < topHeapCount <= topHeap.Length && node in entries && topHeap[0] in entries
      requires topHeap[0] in es0 && node != topHeap[0] && entries == es0[node := entries[node]]
      modifies this`entries, topHeap
      ensures entries == Replaced(es0, old(topHeap[..topHeapCount]), node, old(entries[node]))
      ensures topHeap[..topHeapCount] == old(topHeap[..topHeapCount])[0 := node]
    {
      entries := entries[topHeap[0] := entries[topHeap[0]].(heapIndex := -1)];
      entries := entries[node := entries[node].(heapIndex := 0)];
      topHeap[0] := node;
    }

    method RefreshThreshold()
      requires topHeapCount <= topHeap.Length
      requires topHeapCount > 0 ==> topHeap[0] in entries
      modifies this`threshold
      ensures threshold == if 0 < topHeap.Length == topHeapCount then entries[topHeap[0]].score else 0.0
    {
      if topHeap.Length > 0 && topHeapCount == topHeap.Length {
        threshold := entries[topHeap[0]].score;
      } else {
        threshold := 0.0;
      }
    }

    /** Adds one term's contribution to a node's score, creating the entry on first touch. */
    method AddTermScore(node: nat, score: real, matchBit: Mask)
      requires Valid() && score >= 0.0
      modifies this, topHeap
      ensures Valid()
      ensures Scores(entries) == Added(old(Scores(entries)), node, score)
      ensures Masks(entries) == old(Masks(entries))[node := Get(old(Masks(entries)), node, {}) + matchBit]
      ensures touched == if node in old(entries) then old(touched) else old(touched) + [node]
      ensures threshold >= old(threshold)
    {
      ghost var es0, touched0, heap0: seq<nat>, t0 := entries, touched, topHeap[..topHeapCount], threshold;
      BumpAdds(entries, node, score, matchBit);
      BumpEntry(node, score, matchBit);
      SameScoresSameGrowth(es0, Bump(es0, node, score, matchBit), entries);
      ThresholdGrows(es0, touched0, heap0, t0, entries, touched, topHeap[..topHeapCount], threshold, topHeap.Length);
    }

    method BumpEntry(node: nat, score: real, matchBit: Mask)
      requires Valid() && score >= 0.0
      modifies this, topHeap
      ensures Valid()
      ensures Scores(entries) == old(Scores(Bump(entries, node, score, matchBit)))
      ensures Masks(entries) == old(Masks(Bump(entries, node, score, matchBit)))
      ensures touched == if node in old(entries) then old(touched) else old(touched) + [node]
    {
      Touch(node);
      RaiseEntry(node, score, matchBit);
    }

    method Touch(node: nat)
      requires Distinct(touched) && Elements(touched) == entries.Keys
      modifies this`touched
      ensures touched == if node in entries then old(touched) else old(touched) + [node]
      ensures Distinct(touched) && Elements(touched) == entries.Keys + {node}
    {
      if node !in entries {
        TouchedExtends(entries, touched, node);
        touched := touched + [node];
      }
    }

    method RaiseEntry(node: nat, score: real, matchBit: Mask)
      requires topHeapCount <= topHeap.Length && score >= 0.0
      requires Settled(entries, topHeap[..topHeapCount], topHeap.Length)
      modifies this`entries, this`topHeapCount, this`threshold, topHeap
      ensures topHeapCount <= topHeap.Length && Settled(entries, topHeap[..topHeapCount], topHeap.Length)
      ensures threshold == if 0 < topHeap.Length == topHeapCount then entries[topHeap[0]].score else 0.0
      ensures Scores(entries) == old(Scores(Bump(entries, node, score, matchBit)))
      ensures Masks(entries) == old(Masks(Bump(entries, node, score, matchBit)))
      ensures entries.Keys == old(entries.Keys) + {node}
    {
      ghost var es0 := entries;
      BumpRaises(entries, node, score, matchBit);
      entries := Bump(entries, node, score, matchBit);
      ghost var es1 := entries;
      UpdateTopK(node, es0);
      ScoresKeys(entries, es1);
    }
  }
}
