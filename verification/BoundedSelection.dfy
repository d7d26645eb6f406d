/**
 The bounded-heap selection used twice by the source: by the BM25 branch to pick its
 final k documents and by the fusion step to pick its final rows.  The heap keeps the
 worst retained item at the root.
 */
module BoundedSelection {
  import opened Ranking

  /** The item at c is not ranked after its parent. */
  ghost predicate Fits<T(!new)>(better: (T, T) -> bool, h: seq<T>, c: nat)
    requires 0 < c < |h|
  {
    !better(h[(c - 1) / 2], h[c])
  }

  /** The item at c is not ranked after its grandparent. */
  ghost predicate FitsAbove<T(!new)>(better: (T, T) -> bool, h: seq<T>, c: nat)
    requires 2 < c < |h|
  {
    !better(h[((c - 1) / 2 - 1) / 2], h[c])
  }

  ghost predicate HeapOrder<T(!new)>(better: (T, T) -> bool, h: seq<T>) {
    forall c :: 0 < c < |h| ==> Fits(better, h, c)
  }

  /** Heap order, except that the item at pos may be ranked after its parent. */
  ghost predicate Rising<T(!new)>(better: (T, T) -> bool, h: seq<T>, pos: nat) {
    && pos < |h|
    && (forall c :: 0 < c < |h| && c != pos ==> Fits(better, h, c))
    && (forall c :: 2 < c < |h| && (c - 1) / 2 == pos ==> FitsAbove(better, h, c))
  }

  /** Heap order, except that the item at pos may be ranked before its children. */
  ghost predicate Sinking<T(!new)>(better: (T, T) -> bool, h: seq<T>, pos: nat) {
    && pos < |h|
    && (forall c :: 0 < c < |h| && (c - 1) / 2 != pos ==> Fits(better, h, c))
    && (forall c :: 2 < c < |h| && (c - 1) / 2 == pos ==> FitsAbove(better, h, c))
  }

  function Swap<T>(s: seq<T>, i: nat, j: nat): seq<T>
    requires i < |s| && j < |s|
  {
    s[i := s[j]][j := s[i]]
  }

  lemma {:induction false} RisingStep<T(!new)>(better: (T, T) -> bool, h: seq<T>, pos: nat)
    requires WeakOrder(better) && Rising(better, h, pos) && pos > 0 && !Fits(better, h, pos)
    ensures Rising(better, Swap(h, pos, (pos - 1) / 2), (pos - 1) / 2)
  {
    var parent := (pos - 1) / 2;
    var g := Swap(h, pos, parent);
    forall c | 0 < c < |g| && c != parent
      ensures Fits(better, g, c)
    {
      if c != pos {
        assert Fits(better, h, c);
      }
      if c > 2 && (c - 1) / 2 == pos {
        assert FitsAbove(better, h, c);
      }
    }
    forall c | 2 < c < |g| && (c - 1) / 2 == parent
      ensures FitsAbove(better, g, c)
    {
      assert Fits(better, h, parent);
      if c != pos {
        assert Fits(better, h, c);
      }
    }
  }

  /** worst is the child the sinking item changes places with. */
  lemma {:induction false} SinkingStep<T(!new)>(better: (T, T) -> bool, h: seq<T>, pos: nat, worst: nat)
    requires WeakOrder(better) && Sinking(better, h, pos)
    requires 0 < worst < |h| && (worst - 1) / 2 == pos && !Fits(better, h, worst)
    requires forall c :: 0 < c < |h| && (c - 1) / 2 == pos ==> !better(h[worst], h[c])
    ensures Sinking(better, Swap(h, pos, worst), worst)
  {
    var g := Swap(h, pos, worst);
    forall c | 0 < c < |g| && (c - 1) / 2 != worst
      ensures Fits(better, g, c)
    {
      if (c - 1) / 2 != pos {
        assert Fits(better, h, c);
      }
      if c == pos && worst > 2 {
        assert FitsAbove(better, h, worst);
      }
    }
    forall c | 2 < c < |g| && (c - 1) / 2 == worst
      ensures FitsAbove(better, g, c)
    {
      assert Fits(better, h, c);
    }
  }

  lemma {:induction false} WorstOfThree<T(!new)>(better: (T, T) -> bool, h: seq<T>, pos: nat, worst: nat)
    requires WeakOrder(better) && pos < |h| && worst < |h|
    requires worst == pos || worst == 2 * pos + 1 || worst == 2 * pos + 2
    requires worst != pos ==> better(h[pos], h[worst])
    requires 2 * pos + 1 < |h| ==> !better(h[worst], h[2 * pos + 1])
    requires 2 * pos + 2 < |h| ==> !better(h[worst], h[2 * pos + 2])
    ensures forall c :: 0 < c < |h| && (c - 1) / 2 == pos ==> !better(h[worst], h[c])
    ensures worst != pos ==> (worst - 1) / 2 == pos && !Fits(better, h, worst)
  {
    forall c | 0 < c < |h| && (c - 1) / 2 == pos
      ensures !better(h[worst], h[c])
    {
      assert c == 2 * pos + 1 || c == 2 * pos + 2;
    }
  }

  lemma {:induction false} SinkingDone<T(!new)>(better: (T, T) -> bool, h: seq<T>, pos: nat)
    requires Sinking(better, h, pos)
    requires forall c :: 0 < c < |h| && (c - 1) / 2 == pos ==> !better(h[pos], h[c])
    ensures HeapOrder(better, h)
  {
  }

  lemma {:induction false} RootIsWorst<T(!new)>(better: (T, T) -> bool, h: seq<T>, i: nat)
    requires WeakOrder(better) && HeapOrder(better, h) && i < |h|
    ensures !better(h[0], h[i])
  {
    if i > 0 {
      RootIsWorst(better, h, (i - 1) / 2);
      assert Fits(better, h, i);
    }
  }

  method SiftUp<T(!new)>(heap: array<T>, better: (T, T) -> bool, start: nat)
    requires WeakOrder(better) && start < heap.Length
    requires HeapOrder(better, heap[..start])
    modifies heap
    ensures HeapOrder(better, heap[..start + 1])
    ensures multiset(heap[..start + 1]) == old(multiset(heap[..start + 1]))
  {
    var pos: nat := start;
    ghost var n := start + 1;
    forall c | 0 < c < start
      ensures Fits(better, heap[..n], c)
    {
      assert Fits(better, heap[..start], c);
    }
    while pos > 0
      invariant Rising(better, heap[..n], pos)
      invariant multiset(heap[..n]) == old(multiset(heap[..n]))
    {
      var parent := (pos - 1) / 2;
      if !better(heap[parent], heap[pos]) {
        assert Fits(better, heap[..n], pos);
        break;
      }
      ghost var before := heap[..n];
      RisingStep(better, before, pos);
      SwapKeepsMultiset(before, pos, parent);
      heap[pos], heap[parent] := heap[parent], heap[pos];
      assert heap[..n] == Swap(before, pos, parent);
      pos := parent;
    }
  }

  /** The worst of an entry and its children. */
  method WorstChild<T(!new)>(heap: array<T>, better: (T, T) -> bool, count: nat, pos: nat) returns (worst: nat)
    requires WeakOrder(better) && pos < count <= heap.Length
    ensures pos <= worst < count
    ensures forall c :: 0 < c < count && (c - 1) / 2 == pos ==> !better(heap[..count][worst], heap[..count][c])
    ensures worst != pos ==> worst > pos && (worst - 1) / 2 == pos && !Fits(better, heap[..count], worst)
  {
    var left, right := 2 * pos + 1, 2 * pos + 2;
    worst := pos;
    if left < count && better(heap[worst], heap[left]) {
      worst := left;
    }
    if right < count && better(heap[worst], heap[right]) {
      worst := right;
    }
    WorstOfThree(better, heap[..count], pos, worst);
  }

  method SiftDown<T(!new)>(heap: array<T>, better: (T, T) -> bool, count: nat)
    requires WeakOrder(better) && 0 < count <= heap.Length
    requires Sinking(better, heap[..count], 0)
    modifies heap
    ensures HeapOrder(better, heap[..count])
    ensures multiset(heap[..count]) == old(multiset(heap[..count]))
  {
    var pos: nat := 0;
    while true
      invariant 0 <= pos < count
      invariant Sinking(better, heap[..count], pos)
      invariant multiset(heap[..count]) == old(multiset(heap[..count]))
      decreases count - pos
    {
      var worst := WorstChild(heap, better, count, pos);
      ghost var before := heap[..count];
      if worst == pos {
        SinkingDone(better, before, pos);
        break;
      }
      SinkingStep(better, before, pos, worst);
      SwapKeepsMultiset(before, pos, worst);
      heap[pos], heap[worst] := heap[worst], heap[pos];
      assert heap[..count] == Swap(before, pos, worst);
      pos := worst;
    }
  }

  lemma {:induction false} SwapKeepsMultiset<T>(s: seq<T>, i: nat, j: nat)
    requires i < |s| && j < |s|
    ensures multiset(Swap(s, i, j)) == multiset(s)
  {
  }

  /** What a bounded heap over the items read so far retains. */
  ghost predicate Retains<T(!new)>(better: (T, T) -> bool, seen: seq<T>, target: nat, h: seq<T>) {
    && Distinct(h)
    && |h| == Min(target, |seen|)
    && Elements(h) <= Elements(seen)
    && forall x, y :: x in h && y in seen && y !in h ==> better(x, y)
  }

  lemma {:induction false} DistinctExtended<T>(seen: seq<T>, x: T)
    requires Distinct(seen + [x])
    ensures Distinct(seen) && x !in seen
    ensures Elements(seen + [x]) == Elements(seen) + {x}
  {
    var s := seen + [x];
    forall i, j | 0 <= i < j < |seen|
      ensures seen[i] != seen[j]
    {
      assert s[i] == seen[i] && s[j] == seen[j];
    }
    forall i | 0 <= i < |seen|
      ensures seen[i] != x
    {
      assert s[i] == seen[i] && s[|seen|] == x;
    }
  }

  lemma {:induction false} RetainsGrown<T(!new)>(better: (T, T) -> bool, seen: seq<T>, x: T, target: nat, h: seq<T>, h': seq<T>)
    requires Retains(better, seen, target, h) && Distinct(seen + [x]) && |h| < target
    requires multiset(h') == multiset(h + [x])
    ensures Retains(better, seen + [x], target, h')
  {
    DistinctExtended(seen, x);
    assert x in h ==> x in Elements(h);
    assert Distinct(h + [x]);
    SameMultisetDistinct(h + [x], h');
    assert Elements(h + [x]) == Elements(h) + {x};
    SameMembers(h, Elements(h));
    SameMembers(h', Elements(h) + {x});
    SameMembers(seen + [x], Elements(seen) + {x});
    DistinctSize(h);
    DistinctSize(seen);
    SubsetSize(Elements(h), Elements(seen));
  }

  lemma {:induction false} SameMembers<T>(s: seq<T>, S: set<T>)
    requires Elements(s) == S
    ensures forall y :: y in s <==> y in S
  {
  }

  lemma {:induction false} RetainsKept<T(!new)>(better: (T, T) -> bool, seen: seq<T>, x: T, target: nat, h: seq<T>)
    requires WeakOrder(better) && TotalOn(better, Elements(seen + [x]))
    requires Retains(better, seen, target, h) && Distinct(seen + [x]) && |h| == target > 0
    requires HeapOrder(better, h) && !better(x, h[0])
    ensures Retains(better, seen + [x], target, h)
  {
    DistinctExtended(seen, x);
    SameMembers(seen, Elements(seen));
    SameMembers(seen + [x], Elements(seen) + {x});
    SameMembers(h, Elements(h));
    forall i | 0 <= i < |h|
      ensures better(h[i], x)
    {
      RootIsWorst(better, h, i);
      assert h[0] in h && h[0] in Elements(h);
    }
  }

  lemma {:induction false} RetainsReplaced<T(!new)>(better: (T, T) -> bool, seen: seq<T>, x: T, target: nat, h: seq<T>, h': seq<T>)
    requires WeakOrder(better) && TotalOn(better, Elements(seen + [x]))
    requires Retains(better, seen, target, h) && Distinct(seen + [x]) && |h| == target > 0
    requires HeapOrder(better, h) && better(x, h[0]) && multiset(h') == multiset(h[0 := x])
    ensures Retains(better, seen + [x], target, h')
  {
    DistinctExtended(seen, x);
    var g := h[0 := x];
    SameMembers(h, Elements(h));
    SameMembers(seen, Elements(seen));
    SameMembers(seen + [x], Elements(seen) + {x});
    assert x !in h;
    assert Distinct(g);
    SameMultisetDistinct(g, h');
    var old0 := h[0];
    assert forall y :: y in g <==> y == x || (y in h && y != old0) by {
      forall y | y in h && y != old0
        ensures y in g
      {
        var i :| 0 <= i < |h| && h[i] == y;
        assert g[i] == y;
      }
      assert g[0] == x;
      forall y | y in g
        ensures y == x || (y in h && y != old0)
      {
        var i :| 0 <= i < |g| && g[i] == y;
        assert i > 0 ==> h[i] == y && h[0] != h[i];
      }
    }
    SameMembers(g, Elements(g));
    SameMembers(h', Elements(g));
    forall y, z | y in h' && z in seen + [x] && z !in h'
      ensures better(y, z)
    {
      assert z in seen && old0 in h;
      if z == old0 {
        if y != x {
          var i :| 0 <= i < |h| && h[i] == y;
          RootIsWorst(better, h, i);
        }
      } else {
        assert better(old0, z);
      }
    }
  }

  /**
   Selects the `target` best of the items.  The result is the prefix of the full sort,
   whatever the order in which the items arrive.
   */
  method SelectTopN<T(!new)>(items: seq<T>, target: int, better: (T, T) -> bool) returns (top: seq<T>)
    requires WeakOrder(better) && Distinct(items) && TotalOn(better, Elements(items))
    ensures target <= 0 ==> top == []
    ensures target > 0 ==> |SortBy(better, items)| == |items| && top == SortBy(better, items)[..Min(target, |items|)]
    ensures target > 0 ==> IsTopK(better, Elements(items), target, top)
  {
    if target <= 0 {
      return [];
    }
    SortByIsTopK(better, items, target);
    if |items| == 0 {
      return [];
    }
    var heap := new T[target](_ => items[0]);
    var count: nat := 0;
    for i := 0 to |items|
      invariant count <= target
      invariant HeapOrder(better, heap[..count])
      invariant Retains(better, items[..i], target, heap[..count])
    {
      assert items[..i + 1] == items[..i] + [items[i]];
      assert TotalOn(better, Elements(items[..i + 1]));
      count := Offer(heap, better, count, items[i], items[..i]);
    }
    assert items[..|items|] == items;
    top := SortBy(better, heap[..count]);
    RetainedIsTopK(better, items, target, heap[..count]);
    UniqueTopK(better, Elements(items), target, top, SortBy(better, items)[..Min(target, |items|)]);
  }

  /** Offers one more item to a heap that retains the best of `seen`. */
  method PushItem<T(!new)>(heap: array<T>, better: (T, T) -> bool, count: nat, x: T)
    requires WeakOrder(better) && count < heap.Length && HeapOrder(better, heap[..count])
    modifies heap
    ensures HeapOrder(better, heap[..count + 1]) && multiset(heap[..count + 1]) == multiset(old(heap[..count]) + [x])
  {
    ghost var before := heap[..count];
    heap[count] := x;
    assert heap[..count] == before && heap[..count + 1] == before + [x];
    SiftUp(heap, better, count);
  }

  method ReplaceRoot<T(!new)>(heap: array<T>, better: (T, T) -> bool, count: nat, x: T)
    requires WeakOrder(better) && 0 < count <= heap.Length && HeapOrder(better, heap[..count]) && better(x, heap[0])
    modifies heap
    ensures HeapOrder(better, heap[..count]) && multiset(heap[..count]) == multiset(old(heap[..count])[0 := x])
  {
    ghost var before := heap[..count];
    heap[0] := x;
    assert heap[..count] == before[0 := x];
    ReplacedRootSinks(better, before, x);
    SiftDown(heap, better, count);
  }

  method Offer<T(!new)>(heap: array<T>, better: (T, T) -> bool, count: nat, x: T, ghost seen: seq<T>)
    returns (count': nat)
    requires WeakOrder(better) && TotalOn(better, Elements(seen + [x])) && Distinct(seen + [x])
    requires count <= heap.Length && heap.Length > 0
    requires HeapOrder(better, heap[..count]) && Retains(better, seen, heap.Length, heap[..count])
    modifies heap
    ensures count' <= heap.Length
    ensures HeapOrder(better, heap[..count']) && Retains(better, seen + [x], heap.Length, heap[..count'])
  {
    ghost var before := heap[..count];
    count' := count;
    if count < heap.Length {
      PushItem(heap, better, count, x);
      count' := count + 1;
      RetainsGrown(better, seen, x, heap.Length, before, heap[..count']);
    } else if better(x, heap[0]) {
      ReplaceRoot(heap, better, count, x);
      RetainsReplaced(better, seen, x, heap.Length, before, heap[..count]);
    } else {
      RetainsKept(better, seen, x, heap.Length, before);
    }
  }

  lemma {:induction false} ReplacedRootSinks<T(!new)>(better: (T, T) -> bool, h: seq<T>, x: T)
    requires h != [] && HeapOrder(better, h)
    ensures Sinking(better, h[0 := x], 0)
  {
    var g := h[0 := x];
    forall c | 0 < c < |g| && (c - 1) / 2 != 0
      ensures Fits(better, g, c)
    {
      assert Fits(better, h, c);
    }
  }

  lemma {:induction false} RetainedIsTopK<T(!new)>(better: (T, T) -> bool, items: seq<T>, target: nat, h: seq<T>)
    requires WeakOrder(better) && Distinct(items) && TotalOn(better, Elements(items))
    requires Retains(better, items, target, h)
    ensures IsTopK(better, Elements(items), target, SortBy(better, h))
  {
    var r := SortBy(better, h);
    SortBySorts(better, h);
    SameMultisetDistinct(h, r);
    DistinctSize(items);
    SameMembers(h, Elements(r));
    SortedIsTopK(better, Elements(items), target, r);
  }
}
