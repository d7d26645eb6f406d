/** The WAND loop over chunked iterators, against the run of module Wand. */
module WandSearch {
  import opened Ranking
  import opened Sums
  import opened QueryEval
  import opened FusedBound
  import opened Accumulator
  import opened Wand
  import opened PostingLists
  import opened PostingIterators
  import opened ActiveOrder

  // ----- iterators and what they show

  ghost predicate Apart(iters: seq<PostingIterator>, i: nat, j: nat) {
    i < |iters| && j < |iters| && iters[i] != iters[j]
  }

  ghost predicate Separate(iters: seq<PostingIterator>) {
    forall i, j :: 0 <= i < |iters| && 0 <= j < |iters| && i != j ==> Apart(iters, i, j)
  }

  ghost predicate ShowsOne(it: PostingIterator, r: seq<Live>)
    reads it
  {
    it.Standing() && ValidList(it.chunks) && it.Ahead() == r
  }

  /** Iterator i has exactly R[i] ahead. */
  ghost predicate Shows(iters: seq<PostingIterator>, R: seq<seq<Live>>)
    reads iters
  {
    && Separate(iters) && |R| == |iters|
    && forall i {:trigger ShowsOne(iters[i], R[i])} :: 0 <= i < |iters| ==> ShowsOne(iters[i], R[i])
  }

  /** order lists the iterators that still have postings, by increasing current node. */
  ghost predicate Ordered(R: seq<seq<Live>>, order: seq<nat>) {
    && Indices(order, |R|)
    && (forall i :: 0 <= i < |R| ==> (R[i] != [] <==> i in order))
    && SortedHeads(R, order)
  }

  ghost predicate SortedHeads(R: seq<seq<Live>>, order: seq<nat>)
    requires forall a :: 0 <= a < |order| ==> order[a] < |R|
  {
    && (forall a :: 0 <= a < |order| ==> R[order[a]] != [])
    && (forall a, b :: 0 <= a < b < |order| ==> R[order[a]][0].node <= R[order[b]][0].node)
  }

  ghost predicate AllPositive(R: seq<seq<Live>>) {
    forall i :: 0 <= i < |R| && R[i] != [] ==> R[i][0].bound >= 0.0
  }

  // ----- sums over the active order

  /** The bounds of the first m active iterators add up to the bound at their last node. */
  lemma {:induction false} PrefixBound(R: seq<seq<Live>>, order: seq<nat>, m: nat, v: nat)
    requires Ordered(R, order) && m <= |order|
    requires forall a :: 0 <= a < m ==> R[order[a]][0].node <= v
    requires forall a :: m <= a < |order| ==> R[order[a]][0].node > v
    ensures Indices(order[..m], |R|) && Picked(BoundsUpTo(R, v), order[..m]) == BoundUpTo(R, v)
  {
    var fs := BoundsUpTo(R, v);
    forall a | 0 <= a < m
      ensures order[a] in order[..m]
    {
      assert order[..m][a] == order[a];
    }
    forall i | 0 <= i < |fs| && i !in order[..m]
      ensures fs[i] == 0.0
    {
      if R[i] != [] {
        var a :| 0 <= a < |order| && order[a] == i;
      }
    }
    PickedIsSum(fs, order[..m]);
  }

  ghost function HeadBounds(R: seq<seq<Live>>): (fs: seq<real>)
    ensures |fs| == |R| && forall i :: 0 <= i < |R| ==> fs[i] == if R[i] != [] then R[i][0].bound else 0.0
  {
    seq(|R|, i requires 0 <= i < |R| => if R[i] != [] then R[i][0].bound else 0.0)
  }

  /** How many active iterators stand at or before v. */
  lemma {:induction false} SplitAt(R: seq<seq<Live>>, order: seq<nat>, v: nat) returns (m: nat)
    requires Ordered(R, order)
    ensures m <= |order|
    ensures forall a :: 0 <= a < m ==> R[order[a]][0].node <= v
    ensures forall a :: m <= a < |order| ==> R[order[a]][0].node > v
  {
    m := 0;
    while m < |order| && R[order[m]][0].node <= v
      invariant m <= |order| && forall a :: 0 <= a < m ==> R[order[a]][0].node <= v
    {
      m := m + 1;
    }
  }

  /** The accumulated bounds of a prefix of the order, against the bound at a node. */
  lemma {:induction false} PrefixSum(R: seq<seq<Live>>, order: seq<nat>, v: nat) returns (m: nat)
    requires Ordered(R, order)
    ensures m <= |order|
    ensures forall a :: 0 <= a < m ==> R[order[a]][0].node <= v
    ensures forall a :: m <= a < |order| ==> R[order[a]][0].node > v
    ensures Picked(HeadBounds(R), order[..m]) == BoundUpTo(R, v)
  {
    m := SplitAt(R, order, v);
    PrefixBound(R, order, m, v);
    PickedAgrees(HeadBounds(R), BoundsUpTo(R, v), order[..m]);
  }

  /** None of the first n prefixes of the order reaches above the threshold. */
  ghost predicate NotCrossed(R: seq<seq<Live>>, order: seq<nat>, T: seq<NodeScore>, k: nat, n: nat)
    requires Below(order, |R|) && n <= |order|
  {
    forall m :: 0 < m <= n ==> |T| >= k && Picked(HeadBounds(R), order[..m]) <= Threshold(T, k)
  }

  lemma {:induction false} NotCrossedStep(R: seq<seq<Live>>, order: seq<nat>, T: seq<NodeScore>, k: nat, n: nat)
    requires Below(order, |R|) && n < |order| && NotCrossed(R, order, T, k, n)
    requires |T| >= k && Picked(HeadBounds(R), order[..n + 1]) <= Threshold(T, k)
    ensures NotCrossed(R, order, T, k, n + 1)
  {
  }

  /** Crossing the threshold at index p of the order makes its node the pivot. */
  lemma {:induction false} CrossingIsPivot(R: seq<seq<Live>>, order: seq<nat>, T: seq<NodeScore>, k: nat, p: nat)
    requires Ordered(R, order) && AllPositive(R) && p < |order|
    requires NotCrossed(R, order, T, k, p)
    requires |T| < k || Picked(HeadBounds(R), order[..p + 1]) > Threshold(T, k)
    ensures IsPivot(R, T, k, R[order[p]][0].node)
  {
    var v := R[order[p]][0].node;
    assert IsHead(R, v);
    var m := PrefixSum(R, order, v);
    assert p < m;
    PickedMonotone(HeadBounds(R), order, p + 1, m);
    forall u: nat | u < v && SomeHeadUpTo(R, u)
      ensures !CanBeat(R, T, k, u)
    {
      var n := PrefixSum(R, order, u);
      var i :| 0 <= i < |R| && R[i] != [] && R[i][0].node <= u;
      var a :| 0 <= a < |order| && order[a] == i;
      assert 0 < n <= p;
    }
  }

  lemma {:induction false} NeverCrossing(R: seq<seq<Live>>, order: seq<nat>, T: seq<NodeScore>, k: nat)
    requires Ordered(R, order)
    requires NotCrossed(R, order, T, k, |order|)
    ensures !exists v: nat :: IsPivot(R, T, k, v)
  {
    forall v: nat
      ensures !IsPivot(R, T, k, v)
    {
      if IsHead(R, v) {
        var m := PrefixSum(R, order, v);
        var i :| 0 <= i < |R| && R[i] != [] && R[i][0].node == v;
        var a :| 0 <= a < |order| && order[a] == i;
        assert 0 < m;
      }
    }
  }

  lemma {:induction false} ReadHead(iters: seq<PostingIterator>, R: seq<seq<Live>>, i: nat)
    requires Shows(iters, R) && i < |iters| && R[i] != []
    ensures iters[i].Standing() && iters[i].valid
    ensures R[i][0] == Live(iters[i].NodeId(), iters[i].postings[iters[i].pos].score, iters[i].bound)
  {
    assert ShowsOne(iters[i], R[i]);
    iters[i].Head();
  }

  method FindPivot(iters: seq<PostingIterator>, active: array<nat>, count: nat,
                   touched: nat, k: nat, threshold: real, ghost R: seq<seq<Live>>, ghost T: seq<NodeScore>)
    returns (pivot: int)
    requires Shows(iters, R) && AllPositive(R) && count <= active.Length && Ordered(R, active[..count])
    requires touched == |T| && (touched >= k ==> threshold == Threshold(T, k))
    ensures -1 <= pivot < count
    ensures pivot == -1 ==> !exists v: nat :: IsPivot(R, T, k, v)
    ensures pivot >= 0 ==> IsPivot(R, T, k, R[active[pivot]][0].node)
  {
    ghost var order := active[..count];
    var upperBound := 0.0;
    for i := 0 to count
      invariant upperBound == Picked(HeadBounds(R), order[..i])
      invariant NotCrossed(R, order, T, k, i)
    {
      assert order[i] == active[i];
      ReadHead(iters, R, active[i]);
      PickedStep(HeadBounds(R), order, i);
      upperBound := upperBound + iters[active[i]].bound;
      if touched < k || upperBound > threshold {
        CrossingIsPivot(R, order, T, k, i);
        return i;
      }
      NotCrossedStep(R, order, T, k, i);
    }
    assert order[..count] == order;
    NeverCrossing(R, order, T, k);
    return -1;
  }

  // ----- scoring the document at the head

  /** Every index in the order names an iterator that has postings ahead. */
  ghost predicate Names(R: seq<seq<Live>>, order: seq<nat>) {
    Below(order, |R|) && forall a :: 0 <= a < |order| ==> R[order[a]] != []
  }

  /** m active iterators stand at or before v, and their bounds add up to the bound at v. */
  ghost predicate Upto(R: seq<seq<Live>>, order: seq<nat>, v: nat, m: nat)
    requires Names(R, order)
  {
    && m <= |order|
    && (forall a :: 0 <= a < |order| ==> (R[order[a]][0].node <= v <==> a < m))
    && Picked(HeadBounds(R), order[..m]) == BoundUpTo(R, v)
  }

  lemma {:induction false} PrefixUpto(R: seq<seq<Live>>, order: seq<nat>, v: nat) returns (m: nat)
    requires Ordered(R, order)
    ensures Names(R, order) && Upto(R, order, v, m)
  {
    m := PrefixSum(R, order, v);
  }

  method CandidateBound(iters: seq<PostingIterator>, active: array<nat>, count: nat, v: nat,
                        ghost R: seq<seq<Live>>, ghost m: nat)
    returns (ub: real)
    requires Shows(iters, R) && count <= active.Length && Names(R, active[..count]) && Upto(R, active[..count], v, m)
    ensures ub == BoundUpTo(R, v)
  {
    ghost var order := active[..count];
    ub := 0.0;
    var i := 0;
    while i < count
      invariant i <= m <= count && ub == Picked(HeadBounds(R), order[..i])
    {
      assert order[i] == active[i];
      ReadHead(iters, R, active[i]);
      if iters[active[i]].NodeId() > v {
        assert i == m;
        return;
      }
      PickedStep(HeadBounds(R), order, i);
      ub := ub + iters[active[i]].bound;
      i := i + 1;
    }
    assert i == m;
  }

  /** What term i contributes to the document at the smallest head v. */
  lemma {:induction false} TermAtHead(R: seq<seq<Live>>, v: nat, i: nat)
    requires WellFormed(R) && NoHeadBelow(R, v) && i < |R|
    ensures Has(R[i], v) <==> R[i] != [] && R[i][0].node == v
    ensures TermScores(R, v)[i] == if R[i] != [] && R[i][0].node == v then R[i][0].score else 0.0
    ensures R[i] != [] && R[i][0].node >= v ==> DropBelow(R[i], v) == R[i]
  {
    HeadScore(R[i], v);
    if R[i] != [] && R[i][0].node == v {
      assert Has(R[i], v);
    }
  }

  /** The terms among the first ones of the order whose iterators stand on v. */
  ghost function HeadMask(R: seq<seq<Live>>, order: seq<nat>, v: nat): Mask
    requires Names(R, order)
  {
    if order == [] then {}
    else
      var i := order[|order| - 1];
      HeadMask(R, order[..|order| - 1], v) + if R[i][0].node == v then {i} else {}
  }

  lemma {:induction false} InHeadMask(R: seq<seq<Live>>, order: seq<nat>, v: nat, i: nat)
    requires Names(R, order)
    ensures i in HeadMask(R, order, v) <==> i in order && R[i][0].node == v
  {
    if order != [] {
      var o := order[..|order| - 1];
      assert order == o + [order[|order| - 1]];
      InHeadMask(R, o, v, i);
    }
  }

  lemma {:induction false} HeadMaskStep(R: seq<seq<Live>>, order: seq<nat>, v: nat, i: nat)
    requires Names(R, order) && i < |order|
    ensures HeadMask(R, order[..i + 1], v) ==
            HeadMask(R, order[..i], v) + if R[order[i]][0].node == v then {order[i]} else {}
  {
    assert order[..i + 1][..i] == order[..i];
  }

  lemma {:induction false} ActiveScores(R: seq<seq<Live>>, order: seq<nat>, v: nat)
    requires WellFormed(R) && Ordered(R, order) && NoHeadBelow(R, v)
    ensures Names(R, order)
    ensures Picked(TermScores(R, v), order) == DocScore(R, v)
    ensures HeadMask(R, order, v) == DocMask(R, v)
  {
    forall i | 0 <= i < |R|
      ensures i !in order ==> TermScores(R, v)[i] == 0.0
      ensures Has(R[i], v) <==> R[i] != [] && R[i][0].node == v
    {
      TermAtHead(R, v, i);
    }
    PickedIsSum(TermScores(R, v), order);
    forall i: nat
      ensures i in HeadMask(R, order, v) <==> i in DocMask(R, v)
    {
      InHeadMask(R, order, v, i);
      if i in order {
        var a :| 0 <= a < |order| && order[a] == i;
      }
    }
  }

  /** Seeking a single iterator leaves the others alone. */
  method SeekOne(iters: seq<PostingIterator>, i: nat, v: nat, ghost R: seq<seq<Live>>)
    requires Shows(iters, R) && i < |iters|
    modifies iters[i]
    ensures Shows(iters, R[i := DropBelow(R[i], v)])
  {
    forall j | 0 <= j < |iters|
      ensures ShowsOne(iters[j], R[j]) && (j != i ==> iters[j] != iters[i])
    {
      assert j != i ==> Apart(iters, j, i);
    }
    var ok := iters[i].SeekTo(v);
    ghost var R' := R[i := DropBelow(R[i], v)];
    forall j | 0 <= j < |iters|
      ensures ShowsOne(iters[j], R'[j])
    {
    }
  }

  /** One active iterator's part in scoring the document at the smallest head v. */
  method ScoreTerm(iters: seq<PostingIterator>, i: nat, v: nat, ghost R: seq<seq<Live>>)
    returns (score: real, mask: Mask)
    requires Shows(iters, R) && WellFormed(R) && NoHeadBelow(R, v) && i < |R| && R[i] != []
    modifies iters
    ensures Shows(iters, R)
    ensures score == TermScores(R, v)[i] && mask == if R[i][0].node == v then {i} else {}
  {
    TermAtHead(R, v, i);
    SeekOne(iters, i, v, R);
    assert R[i := R[i]] == R;
    ReadHead(iters, R, i);
    if iters[i].NodeId() == v {
      return iters[i].postings[iters[i].pos].score, {i};
    }
    return 0.0, {};
  }

  method ScoreDocument(iters: seq<PostingIterator>, active: array<nat>, count: nat, v: nat, ghost R: seq<seq<Live>>)
    returns (score: real, mask: Mask)
    requires Shows(iters, R) && WellFormed(R) && NoHeadBelow(R, v)
    requires count <= active.Length && Names(R, active[..count])
    modifies iters
    ensures Shows(iters, R)
    ensures score == Picked(TermScores(R, v), active[..count])
    ensures mask == HeadMask(R, active[..count], v)
  {
    ghost var order := active[..count];
    score, mask := 0.0, {};
    var i := 0;
    while i < count
      invariant 0 <= i <= count && Shows(iters, R)
      invariant score == Picked(TermScores(R, v), order[..i]) && mask == HeadMask(R, order[..i], v)
    {
      assert order[i] == active[i];
      PickedStep(TermScores(R, v), order, i);
      HeadMaskStep(R, order, v, i);
      var s, m := ScoreTerm(iters, active[i], v, R);
      score, mask := score + s, mask + m;
      i := i + 1;
    }
    assert order[..count] == order;
  }

  // ----- moving the iterators

  /** The iterators in done have been moved to v, the others not yet. */
  ghost function Moved(R: seq<seq<Live>>, done: seq<nat>, v: nat): (R': seq<seq<Live>>)
    ensures |R'| == |R|
    ensures forall j :: 0 <= j < |R| ==> R'[j] == if j in done then DropBelow(R[j], v) else R[j]
  {
    seq(|R|, j requires 0 <= j < |R| => if j in done then DropBelow(R[j], v) else R[j])
  }

  lemma {:induction false} MovedStep(R: seq<seq<Live>>, order: seq<nat>, i: nat, v: nat)
    requires Below(order, |R|) && i < |order|
    ensures Moved(R, order[..i], v)[order[i] := DropBelow(Moved(R, order[..i], v)[order[i]], v)] == Moved(R, order[..i + 1], v)
  {
    var j := order[i];
    DropTwice(R[j], v, v);
    assert order[..i + 1] == order[..i] + [j];
  }

  /** Moving every iterator that stands before v moves them all. */
  lemma {:induction false} MovedAll(R: seq<seq<Live>>, done: seq<nat>, v: nat)
    requires forall j :: 0 <= j < |R| && j !in done ==> R[j] == [] || R[j][0].node >= v
    ensures Moved(R, done, v) == DropAll(R, v)
  {
    forall j | 0 <= j < |R|
      ensures Moved(R, done, v)[j] == DropAll(R, v)[j]
    {
      DropShrinks(R[j], v);
    }
  }

  lemma {:induction false} MovedNone(R: seq<seq<Live>>, v: nat)
    ensures Moved(R, [], v) == R
  {
  }

  /** Seeks the first n active iterators to v. */
  method SeekActive(iters: seq<PostingIterator>, active: array<nat>, n: nat, v: nat, ghost R: seq<seq<Live>>)
    requires Shows(iters, R) && n <= active.Length && Below(active[..n], |R|)
    modifies iters
    ensures Shows(iters, Moved(R, active[..n], v))
  {
    ghost var order := active[..n];
    MovedNone(R, v);
    var i := 0;
    assert order[..0] == [];
    while i < n
      invariant 0 <= i <= n && Shows(iters, Moved(R, order[..i], v))
    {
      assert order[i] == active[i];
      MovedStep(R, order, i, v);
      SeekOne(iters, active[i], v, Moved(R, order[..i], v));
      i := i + 1;
    }
    assert order[..n] == order;
  }

  lemma {:induction false} DropHead(l: seq<Live>, v: nat)
    ensures DropBelow(l, v) != [] ==> DropBelow(l, v)[0].node >= v
  {
    if !(l == [] || l[0].node >= v) {
      DropHead(l[1..], v);
    }
  }

  lemma {:induction false} MovedHeads(R: seq<seq<Live>>, done: seq<nat>, v: nat, j: nat)
    requires NoHeadBelow(R, v) && j < |R|
    ensures Moved(R, done, v + 1)[j] != [] ==> Moved(R, done, v + 1)[j][0].node >= v
  {
    DropHead(R[j], v + 1);
  }

  lemma {:induction false} AloneUnmoved(r: seq<Live>, v: nat)
    requires r == [] || r[0].node > v
    ensures DropBelow(r, v + 1) == r
  {
  }

  /** Advances past v each active iterator that stands on it. */
  method AdvanceActive(iters: seq<PostingIterator>, active: array<nat>, count: nat, v: nat, ghost R: seq<seq<Live>>)
    requires Shows(iters, R) && count <= active.Length && Below(active[..count], |R|) && NoHeadBelow(R, v)
    modifies iters
    ensures Shows(iters, Moved(R, active[..count], v + 1))
  {
    ghost var order := active[..count];
    MovedNone(R, v + 1);
    var i := 0;
    assert order[..0] == [];
    while i < count
      invariant 0 <= i <= count && Shows(iters, Moved(R, order[..i], v + 1))
    {
      assert order[i] == active[i];
      MovedStep(R, order, i, v + 1);
      MovedHeads(R, order[..i], v, active[i]);
      AdvanceOne(iters, active[i], v, Moved(R, order[..i], v + 1));
      i := i + 1;
    }
    assert order[..count] == order;
  }

  method AdvanceOne(iters: seq<PostingIterator>, i: nat, v: nat, ghost R: seq<seq<Live>>)
    requires Shows(iters, R) && i < |iters| && (R[i] != [] ==> R[i][0].node >= v)
    modifies iters
    ensures Shows(iters, R[i := DropBelow(R[i], v + 1)])
  {
    assert ShowsOne(iters[i], R[i]);
    iters[i].Head();
    if iters[i].valid && iters[i].NodeId() == v {
      SeekOne(iters, i, v + 1, R);
    } else {
      AloneUnmoved(R[i], v);
      assert R[i := R[i]] == R;
    }
  }

  // ----- keeping the active iterators in order

  /** kept lists those of the first i of the order that have postings left. */
  ghost predicate Kept(kept: seq<nat>, order: seq<nat>, i: nat, R: seq<seq<Live>>)
    requires i <= |order|
  {
    Indices(kept, |R|) && forall j :: j in kept <==> j in order[..i] && j < |R| && R[j] != []
  }

  lemma {:induction false} KeptNext(kept: seq<nat>, order: seq<nat>, i: nat, R: seq<seq<Live>>)
    requires i < |order| && Indices(order, |R|) && Kept(kept, order, i, R)
    ensures Kept(if R[order[i]] != [] then kept + [order[i]] else kept, order, i + 1, R)
  {
    assert order[..i + 1] == order[..i] + [order[i]];
    assert order[i] !in order[..i];
  }

  /** Iterator number i of the order stays among the active ones if it has postings left. */
  method DropStep(iters: seq<PostingIterator>, active: array<nat>, i: nat, out: nat, ghost order: seq<nat>,
                  ghost R: seq<seq<Live>>)
    returns (out': nat)
    requires Shows(iters, R) && out <= i < |order| <= active.Length && Indices(order, |R|) && Kept(active[..out], order, i, R)
    requires forall a :: i <= a < |order| ==> active[a] == order[a]
    modifies active
    ensures out' <= i + 1 && Kept(active[..out'], order, i + 1, R)
    ensures forall a :: i < a < |order| ==> active[a] == order[a]
  {
    var it := active[i];
    KeptNext(active[..out], order, i, R);
    assert ShowsOne(iters[it], R[it]);
    iters[it].Head();
    out' := out;
    if iters[it].valid {
      ghost var kept := active[..out];
      active[out] := it;
      assert active[..out + 1] == kept + [it];
      out' := out + 1;
    }
  }

  /** Keeps the iterators with postings left at the front of the array, in order. */
  method DropExhausted(iters: seq<PostingIterator>, active: array<nat>, count: nat, ghost R: seq<seq<Live>>)
    returns (out: nat)
    requires Shows(iters, R) && count <= active.Length && Indices(active[..count], |R|)
    modifies active
    ensures out <= count && Kept(active[..out], old(active[..count]), count, R)
  {
    ghost var order: seq<nat> := active[..count];
    out := 0;
    var i: nat := 0;
    while i < count
      invariant out <= i <= count && Kept(active[..out], order, i, R)
      invariant forall a :: i <= a < count ==> active[a] == order[a]
    {
      out := DropStep(iters, active, i, out, order, R);
      i := i + 1;
    }
  }

  /** The keys the comparator of active iterators looks at. */
  method ReadKeys(iters: seq<PostingIterator>, ghost R: seq<seq<Live>>) returns (keys: seq<Key>)
    requires Shows(iters, R)
    ensures |keys| == |iters|
    ensures forall i :: 0 <= i < |iters| && R[i] != [] ==> keys[i].node == R[i][0].node
  {
    keys := [];
    for i := 0 to |iters|
      invariant |keys| == i
      invariant forall j :: 0 <= j < i && R[j] != [] ==> keys[j].node == R[j][0].node
    {
      assert ShowsOne(iters[i], R[i]);
      iters[i].Head();
      keys := keys + [Key(if iters[i].valid then iters[i].NodeId() else 0, iters[i].termId)];
    }
  }

  lemma {:induction false} PermutedMembers(s: seq<nat>, t: seq<nat>)
    requires multiset(s) == multiset(t)
    ensures forall j :: j in s <==> j in t
  {
    forall j
      ensures j in s <==> j in t
    {
      assert j in s <==> j in multiset(s);
      assert j in t <==> j in multiset(t);
    }
  }

  lemma {:induction false} SortedIsOrdered(R: seq<seq<Live>>, before: seq<nat>, kept: seq<nat>, order: seq<nat>,
                                           keys: seq<Key>)
    requires |keys| == |R| && forall i :: 0 <= i < |R| && R[i] != [] ==> keys[i].node == R[i][0].node
    requires forall i :: 0 <= i < |R| && R[i] != [] ==> i in before
    requires Indices(kept, |R|) && forall j :: j in kept <==> j in before && j < |R| && R[j] != []
    requires multiset(order) == multiset(kept) && SortedKeys(keys, order)
    ensures Ordered(R, order)
  {
    SameMultisetDistinct(kept, order);
    PermutedMembers(order, kept);
    forall a | 0 <= a < |order|
      ensures order[a] < |R| && R[order[a]] != []
    {
      assert order[a] in order && order[a] in kept;
    }
  }

  /** Drops exhausted iterators and restores the order by current node. */
  method RefreshActiveOrder(iters: seq<PostingIterator>, active: array<nat>, count: nat, ghost R: seq<seq<Live>>)
    returns (count': nat)
    requires Shows(iters, R) && count <= active.Length && Indices(active[..count], |R|)
    requires forall i :: 0 <= i < |R| && R[i] != [] ==> i in active[..count]
    modifies active
    ensures count' <= count && Ordered(R, active[..count'])
  {
    ghost var before := active[..count];
    count' := DropExhausted(iters, active, count, R);
    ghost var kept := active[..count'];
    var keys := ReadKeys(iters, R);
    forall a | 0 <= a < count'
      ensures active[a] < |keys|
    {
      assert active[a] == active[..count'][a];
    }
    Sort(active, count', keys);
    SortedIsOrdered(R, before, kept, active[..count'], keys);
  }

  // ----- the accumulator holds the accepted documents

  ghost predicate Tracks(es: Entries, touched: seq<nat>, T: seq<NodeScore>, matcher: Matcher) {
    && |touched| == |T|
    && forall a :: 0 <= a < |T| ==>
         && touched[a] == T[a].node && T[a].node in es
         && es[T[a].node].score == T[a].score && Matched(matcher, es[T[a].node].matched)
  }

  ghost predicate Holds(acc: QueryAccumulator, T: seq<NodeScore>, q: Query)
    reads acc, acc.topHeap
  {
    && acc.Valid() && acc.topHeap.Length == q.k && Increasing(T)
    && Tracks(acc.entries, acc.touched, T, q.matcher)
  }

  ghost function NodesOf(X: set<NodeScore>): set<nat> {
    set x | x in X :: x.node
  }

  lemma {:induction false} NodesOfSize(T: seq<NodeScore>, X: set<NodeScore>)
    requires Increasing(T) && X <= Elements(T)
    ensures |NodesOf(X)| == |X|
    decreases X
  {
    if X != {} {
      var x :| x in X;
      NodesOfSize(T, X - {x});
      assert x.node !in NodesOf(X - {x}) by {
        forall y | y in X - {x} ensures y.node != x.node {
          assert y in Elements(T) && x in Elements(T);
          var a :| 0 <= a < |T| && T[a] == y;
          var b :| 0 <= b < |T| && T[b] == x;
        }
      }
      assert NodesOf(X) == NodesOf(X - {x}) + {x.node};
    }
  }

  /** The k-th score of the accepted documents is the k-th largest of the accumulator. */
  lemma {:induction false} AtLeastTracked(es: Entries, touched: seq<nat>, T: seq<NodeScore>, matcher: Matcher,
                                          X: set<NodeScore>, t: real)
    requires Tracks(es, touched, T, matcher) && Elements(touched) == es.Keys
    requires X <= Elements(T) && forall x :: x in X ==> x.score >= t
    ensures NodesOf(X) <= AtLeast(Scores(es), t)
  {
    forall n | n in NodesOf(X)
      ensures n in AtLeast(Scores(es), t)
    {
      var x :| x in X && x.node == n;
      var a :| 0 <= a < |T| && T[a] == x;
    }
  }

  lemma {:induction false} AboveTracked(es: Entries, touched: seq<nat>, T: seq<NodeScore>, matcher: Matcher,
                                        X: set<NodeScore>, t: real)
    requires Tracks(es, touched, T, matcher) && Elements(touched) == es.Keys
    requires forall a :: 0 <= a < |T| && T[a].score > t ==> T[a] in X
    ensures Above(Scores(es), t) <= NodesOf(X)
  {
    forall n | n in Above(Scores(es), t)
      ensures n in NodesOf(X)
    {
      assert n in Elements(touched);
      var a :| 0 <= a < |touched| && touched[a] == n;
      assert T[a] in X;
    }
  }

  /** The document at the threshold, and those before it. */
  lemma {:induction false} KthDocument(T: seq<NodeScore>, k: nat) returns (last: NodeScore, B: set<NodeScore>)
    requires Increasing(T) && 0 < k <= |T|
    ensures last in Elements(T) && last !in B && B <= Elements(T) && |B| == k - 1
    ensures last.score == Threshold(T, k)
    ensures forall x :: x in B ==> x.score >= last.score
    ensures forall a :: 0 <= a < |T| && T[a].score > last.score ==> T[a] in B
  {
    IncreasingIsRankable(T);
    SortByIsTopK(Before, T, k);
    var r := SortBy(Before, T)[..k];
    last := r[k - 1];
    B := Beating(Before, Elements(T), last);
    assert Rank(Before, Elements(T), last) == k - 1;
  }

  lemma {:induction false} ThresholdIsKth(es: Entries, touched: seq<nat>, T: seq<NodeScore>, matcher: Matcher, k: nat)
    requires Tracks(es, touched, T, matcher) && Elements(touched) == es.Keys && Increasing(T) && 0 < k <= |T|
    ensures IsKthLargest(Scores(es), k, Threshold(T, k))
  {
    var last, B := KthDocument(T, k);
    var t, m, A := Threshold(T, k), Scores(es), B + {last};
    assert |A| == k && A <= Elements(T);
    NodesOfSize(T, B);
    NodesOfSize(T, A);
    AtLeastTracked(es, touched, T, matcher, A, t);
    AboveTracked(es, touched, T, matcher, B, t);
    SubsetSize(NodesOf(A), AtLeast(m, t));
    SubsetSize(Above(m, t), NodesOf(B));
  }

  /** The pruning threshold, as the loop reads it. */
  method KthScore(acc: QueryAccumulator, k: nat, ghost T: seq<NodeScore>, ghost q: Query) returns (threshold: real)
    requires Holds(acc, T, q) && k == q.k
    ensures |acc.touched| == |T|
    ensures k <= |T| ==> threshold == Threshold(T, k)
  {
    if k == 0 || acc.topHeapCount < k {
      threshold := 0.0;
    } else {
      threshold := acc.threshold;
    }
    SizeOfEntries(acc.entries, acc.touched);
    if 0 < k <= |T| {
      ThresholdIsKth(acc.entries, acc.touched, T, q.matcher, k);
      ThresholdIsKthLargest(acc.entries, acc.touched, acc.topHeap[..acc.topHeapCount], k, acc.threshold);
      KthLargestIsUnique(Scores(acc.entries), k, acc.threshold, Threshold(T, k));
    }
  }

  lemma {:induction false} SizeOfEntries(es: Entries, touched: seq<nat>)
    requires Distinct(touched) && Elements(touched) == es.Keys
    ensures |es| == |touched|
  {
    DistinctSize(touched);
    assert |es| == |es.Keys|;
  }

  lemma {:induction false} TracksExtended(es: Entries, es': Entries, touched: seq<nat>, T: seq<NodeScore>,
                                          matcher: Matcher, v: nat, score: real, mask: Mask)
    requires Tracks(es, touched, T, matcher) && Increasing(T) && v !in es && Matched(matcher, mask)
    requires forall a :: 0 <= a < |T| ==> T[a].node < v
    requires Scores(es') == Added(Scores(es), v, score) && Masks(es') == Masks(es)[v := {} + mask]
    ensures Tracks(es', touched + [v], T + [NodeScore(v, score)], matcher)
    ensures Increasing(T + [NodeScore(v, score)])
  {
    assert es'.Keys == Scores(es').Keys;
    forall n | n in es
      ensures n in es' && es'[n].score == es[n].score && es'[n].matched == es[n].matched
    {
      assert Scores(es')[n] == Scores(es)[n] && Masks(es')[n] == Masks(es)[n];
    }
    assert Scores(es')[v] == score && Masks(es')[v] == mask;
  }

  method Accept(acc: QueryAccumulator, v: nat, score: real, mask: Mask, ghost T: seq<NodeScore>, ghost q: Query)
    requires Holds(acc, T, q) && score >= 0.0 && Matched(q.matcher, mask)
    requires forall a :: 0 <= a < |T| ==> T[a].node < v
    modifies acc, acc.topHeap
    ensures Holds(acc, T + [NodeScore(v, score)], q)
  {
    ghost var es, touched := acc.entries, acc.touched;
    assert v !in Elements(touched);
    acc.AddTermScore(v, score, mask);
    assert v !in Scores(es) && v !in Masks(es);
    TracksExtended(es, acc.entries, touched, T, q.matcher, v, score, mask);
  }

  // ----- the loop

  /** Where the loop stands: R is what remains of L from frontier f on, T what was accepted before it. */
  ghost predicate Progress(L: seq<seq<Live>>, R: seq<seq<Live>>, T: seq<NodeScore>, q: Query, f: nat) {
    && WellFormed(L) && WellFormed(R) && R == DropAll(L, f)
    && (forall a :: 0 <= a < |T| ==> T[a].node < f)
    && Run(R, T, q) == Run(L, [], q)
  }

  lemma {:induction false} DropAllWellFormed(L: seq<seq<Live>>, f: nat)
    requires WellFormed(L)
    ensures WellFormed(DropAll(L, f))
  {
    forall i | 0 <= i < |L|
      ensures Ascending(DropBelow(L[i], f)) && Bounded(DropBelow(L[i], f))
    {
      DropBelowFacts(L[i], f);
    }
  }

  lemma {:induction false} ProgressTo(L: seq<seq<Live>>, R: seq<seq<Live>>, T: seq<NodeScore>, q: Query, f: nat,
                                      f': nat, T': seq<NodeScore>)
    requires Progress(L, R, T, q, f) && f <= f'
    requires Run(DropAll(R, f'), T', q) == Run(R, T, q)
    requires forall a :: 0 <= a < |T'| ==> T'[a].node < f'
    ensures Progress(L, DropAll(R, f'), T', q, f')
  {
    DropAllTwice(L, f, f');
    DropAllWellFormed(L, f');
  }

  lemma {:induction false} FirstIsSmallest(R: seq<seq<Live>>, order: seq<nat>)
    requires Ordered(R, order) && order != []
    ensures NoHeadBelow(R, R[order[0]][0].node)
  {
    forall i | 0 <= i < |R| && R[i] != []
      ensures R[order[0]][0].node <= R[i][0].node
    {
      var a :| 0 <= a < |order| && order[a] == i;
    }
  }

  /** Seeking the iterators before the pivot moves every iterator to its node. */
  lemma {:induction false} SeekReachesAll(R: seq<seq<Live>>, order: seq<nat>, p: nat)
    requires Ordered(R, order) && p < |order|
    ensures Moved(R, order[..p], R[order[p]][0].node) == DropAll(R, R[order[p]][0].node)
  {
    var v := R[order[p]][0].node;
    forall a | 0 <= a < p
      ensures order[a] in order[..p]
    {
      assert order[..p][a] == order[a];
    }
    forall j | 0 <= j < |R| && j !in order[..p]
      ensures R[j] == [] || R[j][0].node >= v
    {
      if R[j] != [] {
        var a :| 0 <= a < |order| && order[a] == j;
      }
    }
    MovedAll(R, order[..p], v);
  }

  lemma {:induction false} AdvanceReachesAll(R: seq<seq<Live>>, order: seq<nat>, v: nat)
    requires Ordered(R, order)
    ensures Moved(R, order, v + 1) == DropAll(R, v + 1)
  {
    MovedAll(R, order, v + 1);
  }

  lemma {:induction false} HeadScoreNonNegative(R: seq<seq<Live>>, v: nat)
    requires WellFormed(R) && NoHeadBelow(R, v)
    ensures DocScore(R, v) >= 0.0
  {
    var zeros := seq(|R|, i => 0.0);
    forall i | 0 <= i < |R|
      ensures zeros[i] <= TermScores(R, v)[i]
    {
      TermAtHead(R, v, i);
    }
    SumMonotone(zeros, TermScores(R, v));
    SumZero(zeros);
  }

  method ScoreHead(iters: seq<PostingIterator>, active: array<nat>, count: nat, v: nat, ghost R: seq<seq<Live>>)
    returns (score: real, mask: Mask)
    requires Shows(iters, R) && WellFormed(R) && NoHeadBelow(R, v)
    requires count <= active.Length && Ordered(R, active[..count])
    modifies iters
    ensures Shows(iters, R)
    ensures score == DocScore(R, v) >= 0.0 && mask == DocMask(R, v)
  {
    ActiveScores(R, active[..count], v);
    HeadScoreNonNegative(R, v);
    score, mask := ScoreDocument(iters, active, count, v, R);
  }

  ghost function Offered(T: seq<NodeScore>, q: Query, v: nat, score: real, mask: Mask): seq<NodeScore> {
    if Matched(q.matcher, mask) && (|T| < q.k || score > Threshold(T, q.k)) then T + [NodeScore(v, score)] else T
  }

  method Offer(acc: QueryAccumulator, q: Query, v: nat, score: real, mask: Mask, threshold: real,
               ghost T: seq<NodeScore>)
    returns (used: bool)
    requires Holds(acc, T, q) && score >= 0.0 && (q.k <= |T| ==> threshold == Threshold(T, q.k))
    requires forall a :: 0 <= a < |T| ==> T[a].node < v
    modifies acc, acc.topHeap
    ensures Holds(acc, Offered(T, q, v, score, mask), q)
    ensures !used ==> Offered(T, q, v, score, mask) == T
  {
    used := Matched(q.matcher, mask);
    if used && (|acc.touched| < q.k || score > threshold) {
      Accept(acc, v, score, mask, T, q);
    }
  }

  lemma {:induction false} VisitIsOffered(R: seq<seq<Live>>, T: seq<NodeScore>, q: Query, v: nat)
    ensures Visit(R, T, q, v) == Offered(T, q, v, DocScore(R, v), DocMask(R, v))
  {
  }

  /** Scores the document at the smallest head and offers it to the accumulator. */
  method VisitHead(iters: seq<PostingIterator>, active: array<nat>, count: nat, acc: QueryAccumulator, q: Query,
                   v: nat, threshold: real, ghost R: seq<seq<Live>>, ghost T: seq<NodeScore>)
    returns (used: bool)
    requires Shows(iters, R) && WellFormed(R) && NoHeadBelow(R, v)
    requires count <= active.Length && Ordered(R, active[..count])
    requires Holds(acc, T, q) && (q.k <= |T| ==> threshold == Threshold(T, q.k))
    requires forall a :: 0 <= a < |T| ==> T[a].node < v
    modifies iters, acc, acc.topHeap
    ensures Shows(iters, R) && Holds(acc, Visit(R, T, q, v), q)
    ensures !used ==> Visit(R, T, q, v) == T
  {
    VisitIsOffered(R, T, q, v);
    var score, mask := ScoreHead(iters, active, count, v, R);
    used := Offer(acc, q, v, score, mask, threshold, T);
  }

  /** The pivot's iterator is not the first: seek those before it. */
  method SeekToPivot(iters: seq<PostingIterator>, active: array<nat>, count: nat, pivot: nat, v: nat,
                     ghost R: seq<seq<Live>>)
    requires Shows(iters, R) && pivot < count <= active.Length && Ordered(R, active[..count])
    requires v == R[active[pivot]][0].node
    modifies iters
    ensures Shows(iters, DropAll(R, v))
  {
    ghost var order := active[..count];
    assert order[..pivot] == active[..pivot] && order[pivot] == active[pivot];
    SeekReachesAll(R, order, pivot);
    SeekActive(iters, active, pivot, v, R);
  }

  method LeaveNode(iters: seq<PostingIterator>, active: array<nat>, count: nat, v: nat, ghost R: seq<seq<Live>>)
    requires Shows(iters, R) && count <= active.Length && Ordered(R, active[..count]) && NoHeadBelow(R, v)
    modifies iters
    ensures Shows(iters, DropAll(R, v + 1))
  {
    AdvanceReachesAll(R, active[..count], v);
    AdvanceActive(iters, active, count, v, R);
  }

  /** The fused bound's test of the candidate at the smallest head. */
  method PruneTest(iters: seq<PostingIterator>, active: array<nat>, count: nat, q: Query, v: nat,
                   ghost R: seq<seq<Live>>)
    returns (prune: bool)
    requires Shows(iters, R) && count <= active.Length && Ordered(R, active[..count]) && SortedByNode(q.bound.dense)
    ensures prune == CanPrune(q.bound, v, BoundUpTo(R, v))
  {
    ghost var m := PrefixUpto(R, active[..count], v);
    var ub := CandidateBound(iters, active, count, v, R, m);
    prune := CanPruneCandidate(q.bound, v, ub);
  }

  method HeadTurn(iters: seq<PostingIterator>, active: array<nat>, count: nat, acc: QueryAccumulator, q: Query,
                  v: nat, threshold: real, ghost R: seq<seq<Live>>, ghost T: seq<NodeScore>)
    returns (used: bool)
    requires Shows(iters, R) && WellFormed(R) && NoHeadBelow(R, v)
    requires count <= active.Length && Ordered(R, active[..count]) && SortedByNode(q.bound.dense)
    requires Holds(acc, T, q) && (q.k <= |T| ==> threshold == Threshold(T, q.k))
    requires forall a :: 0 <= a < |T| ==> T[a].node < v
    requires active != acc.topHeap
    modifies iters, acc, acc.topHeap
    ensures Shows(iters, DropAll(R, Frontier(R, v))) && Holds(acc, Taken(R, T, q, v), q)
    ensures !used ==> Taken(R, T, q, v) == T
  {
    var prune := PruneTest(iters, active, count, q, v, R);
    used := false;
    if !prune {
      used := VisitHead(iters, active, count, acc, q, v, threshold, R, T);
    }
    LeaveNode(iters, active, count, v, R);
  }

  /** The pivot's node, and whether the first active iterator stands on it too. */
  method PivotNode(iters: seq<PostingIterator>, active: array<nat>, count: nat, pivot: nat, ghost R: seq<seq<Live>>)
    returns (v: nat, atHead: bool)
    requires Shows(iters, R) && pivot < count <= active.Length && Ordered(R, active[..count])
    ensures v == R[active[pivot]][0].node && (atHead <==> NoHeadBelow(R, v))
  {
    ghost var order := active[..count];
    assert order[0] == active[0] && order[pivot] == active[pivot];
    FirstIsSmallest(R, order);
    ReadHead(iters, R, active[pivot]);
    ReadHead(iters, R, active[0]);
    v := iters[active[pivot]].NodeId();
    atHead := iters[active[0]].NodeId() == v;
  }

  method SeekTurn(iters: seq<PostingIterator>, active: array<nat>, count: nat, acc: QueryAccumulator, ghost q: Query,
                  pivot: nat, v: nat, ghost R: seq<seq<Live>>, ghost T: seq<NodeScore>)
    requires Shows(iters, R) && pivot < count <= active.Length && Ordered(R, active[..count])
    requires v == R[active[pivot]][0].node && !NoHeadBelow(R, v) && Holds(acc, T, q)
    modifies iters
    ensures Shows(iters, DropAll(R, Frontier(R, v))) && Holds(acc, Taken(R, T, q, v), q)
    ensures Taken(R, T, q, v) == T
  {
    SeekToPivot(iters, active, count, pivot, v, R);
  }

  /** One turn of the loop at pivot v. */
  method Turn(iters: seq<PostingIterator>, active: array<nat>, count: nat, acc: QueryAccumulator, q: Query,
              pivot: nat, v: nat, atHead: bool, threshold: real, ghost R: seq<seq<Live>>, ghost T: seq<NodeScore>)
    returns (used: bool)
    requires Shows(iters, R) && WellFormed(R)
    requires pivot < count <= active.Length && Ordered(R, active[..count]) && SortedByNode(q.bound.dense)
    requires v == R[active[pivot]][0].node && (atHead <==> NoHeadBelow(R, v))
    requires Holds(acc, T, q) && (q.k <= |T| ==> threshold == Threshold(T, q.k))
    requires active != acc.topHeap && forall a :: 0 <= a < |T| ==> T[a].node < v
    modifies iters, acc, acc.topHeap
    ensures Shows(iters, DropAll(R, Frontier(R, v))) && Holds(acc, Taken(R, T, q, v), q)
    ensures !used ==> Taken(R, T, q, v) == T
  {
    if atHead {
      used := HeadTurn(iters, active, count, acc, q, v, threshold, R, T);
    } else {
      SeekTurn(iters, active, count, acc, q, pivot, v, R, T);
      used := false;
    }
  }

  /** One turn, after which the active iterators are put back in order. */
  method TurnAndRefresh(iters: seq<PostingIterator>, active: array<nat>, count: nat, acc: QueryAccumulator, q: Query,
                        pivot: nat, v: nat, atHead: bool, threshold: real, ghost R: seq<seq<Live>>, ghost T: seq<NodeScore>)
    returns (used: bool, count': nat)
    requires Shows(iters, R) && WellFormed(R)
    requires pivot < count <= active.Length && Ordered(R, active[..count]) && SortedByNode(q.bound.dense)
    requires v == R[active[pivot]][0].node && (atHead <==> NoHeadBelow(R, v))
    requires Holds(acc, T, q) && (q.k <= |T| ==> threshold == Threshold(T, q.k))
    requires active != acc.topHeap && forall a :: 0 <= a < |T| ==> T[a].node < v
    modifies iters, active, acc, acc.topHeap
    ensures Shows(iters, DropAll(R, Frontier(R, v))) && Holds(acc, Taken(R, T, q, v), q)
    ensures !used ==> Taken(R, T, q, v) == T
    ensures count' <= active.Length && Ordered(DropAll(R, Frontier(R, v)), active[..count'])
  {
    OrderedSurvives(R, active[..count], Frontier(R, v));
    used := Turn(iters, active, count, acc, q, pivot, v, atHead, threshold, R, T);
    count' := RefreshActiveOrder(iters, active, count, DropAll(R, Frontier(R, v)));
  }

  lemma {:induction false} OrderedSurvives(R: seq<seq<Live>>, order: seq<nat>, f: nat)
    requires Ordered(R, order)
    ensures Indices(order, |DropAll(R, f)|)
    ensures forall i :: 0 <= i < |R| && DropAll(R, f)[i] != [] ==> i in order
  {
  }

  lemma {:induction false} TakenBefore(R: seq<seq<Live>>, T: seq<NodeScore>, q: Query, v: nat)
    requires forall a :: 0 <= a < |T| ==> T[a].node < v
    ensures forall a :: 0 <= a < |Taken(R, T, q, v)| ==> Taken(R, T, q, v)[a].node < Frontier(R, v)
  {
  }

  /** The turn follows the run. */
  lemma {:induction false} TurnFollowsRun(L: seq<seq<Live>>, R: seq<seq<Live>>, T: seq<NodeScore>, q: Query, f: nat,
                                          v: nat)
    requires Progress(L, R, T, q, f) && IsPivot(R, T, q.k, v) && f <= v
    ensures Progress(L, DropAll(R, Frontier(R, v)), Taken(R, T, q, v), q, Frontier(R, v))
    ensures TotalLen(DropAll(R, Frontier(R, v))) < TotalLen(R)
  {
    RunStep(R, T, q, v);
    TakenBefore(R, T, q, v);
    ProgressTo(L, R, T, q, f, Frontier(R, v), Taken(R, T, q, v));
  }

  lemma {:induction false} HeadsAhead(L: seq<seq<Live>>, R: seq<seq<Live>>, f: nat, i: nat)
    requires WellFormed(L) && R == DropAll(L, f) && i < |R| && R[i] != []
    ensures f <= R[i][0].node
  {
    DropBelowFacts(L[i], f);
  }

  lemma {:induction false} PivotAhead(L: seq<seq<Live>>, R: seq<seq<Live>>, T: seq<NodeScore>, q: Query, f: nat,
                                      order: seq<nat>, p: nat)
    requires Progress(L, R, T, q, f) && Ordered(R, order) && p < |order|
    ensures f <= R[order[p]][0].node
  {
    HeadsAhead(L, R, f, order[p]);
  }

  /** Every iterator is active at first, but those without a live posting. */
  method StartActive(iters: seq<PostingIterator>, active: array<nat>, ghost R: seq<seq<Live>>) returns (count: nat)
    requires Shows(iters, R) && active.Length == |iters|
    modifies active
    ensures count <= active.Length && Ordered(R, active[..count])
  {
    var i: nat := 0;
    while i < active.Length
      invariant i <= active.Length && forall a :: 0 <= a < i ==> active[a] == a
    {
      active[i] := i;
      i := i + 1;
    }
    forall a | 0 <= a < |R|
      ensures a in active[..active.Length]
    {
      assert active[..active.Length][a] == a;
    }
    count := RefreshActiveOrder(iters, active, active.Length, R);
  }

  lemma {:induction false} Started(L: seq<seq<Live>>, q: Query)
    requires WellFormed(L)
    ensures Progress(L, L, [], q, 0)
  {
    DropNothing(L);
  }

  /** The state between turns: what the iterators show, what the accumulator holds, and how far the run is. */
  ghost predicate Between(iters: seq<PostingIterator>, active: array<nat>, count: nat, acc: QueryAccumulator, q: Query,
                          L: seq<seq<Live>>, R: seq<seq<Live>>, T: seq<NodeScore>, f: nat)
    reads iters, active, acc, acc.topHeap
  {
    && count <= active.Length && Ordered(R, active[..count]) && active != acc.topHeap
    && Shows(iters, R) && Holds(acc, T, q) && Progress(L, R, T, q, f)
  }

  lemma {:induction false} NoPivotIsDone(L: seq<seq<Live>>, R: seq<seq<Live>>, T: seq<NodeScore>, q: Query, f: nat)
    requires Progress(L, R, T, q, f) && !exists v: nat :: IsPivot(R, T, q.k, v)
    ensures T == Run(L, [], q)
  {
  }

  /** What the turn at a pivot needs to know, and where the run is after it. */
  lemma {:induction false} PivotFollowsRun(L: seq<seq<Live>>, R: seq<seq<Live>>, T: seq<NodeScore>, q: Query, f: nat,
                                           order: seq<nat>, p: nat)
    requires Progress(L, R, T, q, f) && Ordered(R, order) && p < |order| && IsPivot(R, T, q.k, R[order[p]][0].node)
    ensures order[p] < |R| && R[order[p]] != []
    ensures var v := R[order[p]][0].node;
            && WellFormed(R) && (forall a :: 0 <= a < |T| ==> T[a].node < v)
            && Progress(L, DropAll(R, Frontier(R, v)), Taken(R, T, q, v), q, Frontier(R, v))
            && TotalLen(DropAll(R, Frontier(R, v))) < TotalLen(R)
  {
    PivotAhead(L, R, T, q, f, order, p);
    TurnFollowsRun(L, R, T, q, f, R[order[p]][0].node);
  }

  /** The turn at a chosen pivot. */
  method PassAt(iters: seq<PostingIterator>, active: array<nat>, count: nat, acc: QueryAccumulator, q: Query,
                pivot: nat, threshold: real, ghost R: seq<seq<Live>>, ghost T: seq<NodeScore>, ghost v: nat)
    returns (used: bool, count': nat)
    requires Shows(iters, R) && WellFormed(R)
    requires pivot < count <= active.Length && Ordered(R, active[..count]) && SortedByNode(q.bound.dense)
    requires v == R[active[pivot]][0].node
    requires Holds(acc, T, q) && (q.k <= |T| ==> threshold == Threshold(T, q.k))
    requires active != acc.topHeap && forall a :: 0 <= a < |T| ==> T[a].node < v
    modifies iters, active, acc, acc.topHeap
    ensures Shows(iters, DropAll(R, Frontier(R, v))) && Holds(acc, Taken(R, T, q, v), q)
    ensures !used ==> Taken(R, T, q, v) == T
    ensures count' <= active.Length && Ordered(DropAll(R, Frontier(R, v)), active[..count'])
    ensures active != acc.topHeap
  {
    var node, atHead := PivotNode(iters, active, count, pivot, R);
    used, count' := TurnAndRefresh(iters, active, count, acc, q, pivot, node, atHead, threshold, R, T);
  }

  /** One pass through the loop body. */
  method Pass(iters: seq<PostingIterator>, active: array<nat>, count: nat, acc: QueryAccumulator, q: Query,
              ghost L: seq<seq<Live>>, ghost R: seq<seq<Live>>, ghost T: seq<NodeScore>, ghost f: nat)
    returns (stop: bool, used: bool, count': nat, ghost R': seq<seq<Live>>, ghost T': seq<NodeScore>, ghost f': nat)
    requires Between(iters, active, count, acc, q, L, R, T, f) && count > 0 && SortedByNode(q.bound.dense)
    modifies iters, active, acc, acc.topHeap
    ensures Between(iters, active, count', acc, q, L, R', T', f')
    ensures !used ==> T' == T
    ensures if stop then T' == Run(L, [], q) else TotalLen(R') < TotalLen(R)
  {
    var threshold := KthScore(acc, q.k, T, q);
    var pivot := FindPivot(iters, active, count, |acc.touched|, q.k, threshold, R, T);
    if pivot < 0 {
      NoPivotIsDone(L, R, T, q, f);
      return true, false, count, R, T, f;
    }
    ghost var order := active[..count];
    assert order[pivot] == active[pivot];
    PivotFollowsRun(L, R, T, q, f, order, pivot);
    ghost var v := R[order[pivot]][0].node;
    stop, R', T', f' := false, DropAll(R, Frontier(R, v)), Taken(R, T, q, v), Frontier(R, v);
    used, count' := PassAt(iters, active, count, acc, q, pivot, threshold, R, T, v);
  }

  /** The loop leaves in the accumulator exactly what the run accepts. */
  method ScoreBaseWand(iters: seq<PostingIterator>, acc: QueryAccumulator, q: Query, ghost L: seq<seq<Live>>)
    returns (used: bool)
    requires Shows(iters, L) && WellFormed(L) && Holds(acc, [], q) && SortedByNode(q.bound.dense)
    modifies iters, acc, acc.topHeap
    ensures Holds(acc, Run(L, [], q), q)
    ensures !used ==> Run(L, [], q) == []
  {
    var active := new nat[|iters|];
    var count := StartActive(iters, active, L);
    ghost var R: seq<seq<Live>>, T: seq<NodeScore>, f: nat := L, [], 0;
    Started(L, q);
    used := false;
    var stop := false;
    while count > 0 && !stop
      invariant Between(iters, active, count, acc, q, L, R, T, f)
      invariant !used ==> T == []
      invariant stop ==> T == Run(L, [], q)
      decreases !stop, TotalLen(R)
    {
      var u;
      stop, u, count, R, T, f := Pass(iters, active, count, acc, q, L, R, T, f);
      used := used || u;
    }
    if !stop {
      assert active[..count] == [];
      NoneActive(R, T, q);
    }
  }

  lemma {:induction false} NoneActive(R: seq<seq<Live>>, T: seq<NodeScore>, q: Query)
    requires Ordered(R, [])
    ensures Run(R, T, q) == T
  {
  }
}
