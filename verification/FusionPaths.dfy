/** The three merges: generation cache, linear-probing hash, sorted cache. */
module FusionPaths {
  import opened Wrappers
  import opened Ranking
  import opened GenerationArrays
  import opened Fusion
  import opened Probing

  // ----- collecting the results of a map

  /** The results of the listed nodes that pass the filter, in order. */
  ghost predicate Listed(m: map<nat, Result>, nodes: seq<nat>, n: nat, requireBm25: bool, merged: seq<Result>) {
    && n <= |nodes|
    && (forall i, j :: 0 <= i < j < |merged| ==> merged[i].node != merged[j].node)
    && (forall r :: r in merged <==> r.node in nodes[..n] && r.node in m && r == m[r.node] && (requireBm25 ==> r.bm25.Some?))
  }

  lemma {:induction false} ListedStep(m: map<nat, Result>, nodes: seq<nat>, n: nat, requireBm25: bool,
                                      merged: seq<Result>)
    requires Listed(m, nodes, n, requireBm25, merged) && n < |nodes| && Distinct(nodes)
    requires nodes[n] in m && m[nodes[n]].node == nodes[n]
    ensures Listed(m, nodes, n + 1, requireBm25,
                   if requireBm25 && m[nodes[n]].bm25.None? then merged else merged + [m[nodes[n]]])
  {
    assert nodes[..n + 1] == nodes[..n] + [nodes[n]];
    assert nodes[n] !in nodes[..n];
    forall i | 0 <= i < |merged|
      ensures merged[i].node != nodes[n]
    {
      assert merged[i] in merged;
    }
  }

  lemma {:induction false} ListedAll(items: seq<Result>, m: map<nat, Result>, nodes: seq<nat>, requireBm25: bool,
                                     merged: seq<Result>)
    requires Separate(items) && Merges(items, m) && Elements(nodes) == m.Keys
    requires Listed(m, nodes, |nodes|, requireBm25, merged)
    ensures IsMerge(items, requireBm25, merged)
  {
    assert nodes[..|nodes|] == nodes;
    forall r: Result
      ensures r in merged <==> Gathers(items, r) && (requireBm25 ==> r.bm25.Some?)
    {
      if Gathers(items, r) {
        assert r.node in m;
        assert r.node in Elements(nodes);
        GathersIsUnique(items, r, m[r.node]);
      }
    }
  }

  // ----- generation array

  ghost predicate ArrayHolds(cache: FusionArray<Result>, items: seq<Result>, touched: seq<nat>)
    reads cache, cache.entries
  {
    && cache.Valid() && Merges(items, cache.View())
    && Distinct(touched) && Elements(touched) == cache.View().Keys
  }

  lemma {:induction false} TouchedGrows(m: map<nat, Result>, x: Result, touched: seq<nat>)
    requires Distinct(touched) && Elements(touched) == m.Keys
    ensures var touched' := if x.node in m then touched else touched + [x.node];
            Distinct(touched') && Elements(touched') == AbsorbInto(m, x).Keys
  {
    assert x.node in touched ==> x.node in Elements(touched);
    var touched' := if x.node in m then touched else touched + [x.node];
    assert Elements(touched + [x.node]) == Elements(touched) + {x.node};
    assert AbsorbInto(m, x).Keys == m.Keys + {x.node};
    assert x.node in m ==> x.node in Elements(touched);
    assert Elements(touched') == AbsorbInto(m, x).Keys;
  }

  /** One candidate of either branch. */
  method StampCandidate(cache: FusionArray<Result>, x: Result, touched: seq<nat>, ghost items: seq<Result>)
    returns (touched': seq<nat>)
    requires ArrayHolds(cache, items, touched) && Fusion.Separate(items + [x]) && x.node < cache.entries.Length
    modifies cache.entries
    ensures ArrayHolds(cache, items + [x], touched')
  {
    ghost var m := cache.View();
    MergesStep(items, m, x);
    TouchedGrows(m, x, touched);
    touched' := touched;
    var base := Blank(x.node);
    if cache.Has(x.node) {
      base := cache.entries[x.node].value;
    } else {
      touched' := touched + [x.node];
    }
    cache.Put(x.node, Absorb(base, x));
  }

  method StampNext(cache: FusionArray<Result>, items: seq<Result>, i: nat,
                   touched: seq<nat>) returns (touched': seq<nat>)
    requires i < |items| && ArrayHolds(cache, items[..i], touched) && Separate(items) && items[i].node < cache.entries.Length
    modifies cache.entries
    ensures ArrayHolds(cache, items[..i + 1], touched')
  {
    assert items[..i + 1] == items[..i] + [items[i]];
    SeparatePrefix(items, i + 1);
    touched' := StampCandidate(cache, items[i], touched, items[..i]);
  }

  lemma {:induction false} NothingMerged(items: seq<Result>)
    ensures Merges(items[..0], map[]) && Elements<nat>([]) == {}
  {
    assert items[..0] == [];
  }

  /** The merge over the generation cache, whatever its earlier uses left in it. */
  method FuseGenerationArray(cache: FusionArray<Result>, items: seq<Result>, nodeCount: nat, requireBm25: bool)
    returns (merged: seq<Result>)
    requires cache.Valid() && Separate(items) && forall i :: 0 <= i < |items| ==> items[i].node < nodeCount
    modifies cache, cache.entries
    ensures cache.Valid() && (cache.entries == old(cache.entries) || fresh(cache.entries))
    ensures IsMerge(items, requireBm25, merged)
  {
    cache.Begin(nodeCount);
    var touched: seq<nat> := [];
    ghost var before := cache.entries;
    NothingMerged(items);
    var i: nat := 0;
    while i < |items|
      invariant i <= |items| && ArrayHolds(cache, items[..i], touched)
      invariant cache.entries == before && nodeCount <= cache.entries.Length
    {
      touched := StampNext(cache, items, i, touched);
      i := i + 1;
    }
    assert items[..i] == items;
    merged := CollectTouched(cache, touched, requireBm25, items);
  }

  method CollectTouched(cache: FusionArray<Result>, touched: seq<nat>, requireBm25: bool, ghost items: seq<Result>)
    returns (merged: seq<Result>)
    requires ArrayHolds(cache, items, touched) && Separate(items)
    ensures IsMerge(items, requireBm25, merged)
  {
    merged := [];
    ghost var m := cache.View();
    for i := 0 to |touched|
      invariant Listed(m, touched, i, requireBm25, merged)
    {
      assert touched[i] in Elements(touched);
      ListedStep(m, touched, i, requireBm25, merged);
      var item := cache.entries[touched[i]].value;
      if !(requireBm25 && item.bm25.None?) {
        merged := merged + [item];
      }
    }
    ListedAll(items, m, touched, requireBm25, merged);
  }

  // ----- linear-probing hash

  /** Results by node id, under the multiplicative hash. */
  const BY_NODE: Keying<Result> := Keying((r: Result) => r.node, (node: nat) => node * 2654435761 % 0x1_0000_0000)

  method HashCandidate(slots: array<Option<Result>>, x: Result, ghost items: seq<Result>, ghost m: map<nat, Result>)
    requires Separate(items + [x]) && Merges(items, m) && Table(BY_NODE, slots[..], m) && |m| < slots.Length
    modifies slots
    ensures Merges(items + [x], AbsorbInto(m, x)) && Table(BY_NODE, slots[..], AbsorbInto(m, x))
  {
    MergesStep(items, m, x);
    var s := FindMergeSlot(BY_NODE, slots, x.node, m);
    var base := if slots[s].None? then Blank(x.node) else slots[s].value;
    assert base == if x.node in m then m[x.node] else Blank(x.node);
    TableStep(BY_NODE, slots[..], m, x.node, Absorb(base, x), s);
    ghost var slots' := slots[..][s := Some(Absorb(base, x))];
    slots[s] := Some(Absorb(base, x));
    assert slots[..] == slots';
  }

  lemma {:induction false} DoubledPower(r: nat)
    requires IsPowerOfTwo(r)
    ensures IsPowerOfTwo(r * 2)
  {
    var d := r * 2;
    assert d % 2 == 0 && d / 2 == r;
  }

  /** The first power of two that is at least value. */
  method NextPowerOfTwo(value: nat) returns (r: nat)
    ensures r >= value && r >= 1 && (r > 1 ==> r < 2 * value)
    ensures IsPowerOfTwo(r)
  {
    r := 1;
    while r < value
      invariant r >= 1 && (r > 1 ==> r < 2 * value) && IsPowerOfTwo(r)
      decreases value - r
    {
      DoubledPower(r);
      r := r * 2;
    }
  }

  ghost predicate IsPowerOfTwo(r: nat) {
    r == 1 || (r > 1 && r % 2 == 0 && IsPowerOfTwo(r / 2))
  }

  /** More slots than items, whatever their number. */
  method FusionHashSlotCount(itemCount: nat) returns (r: nat)
    ensures r > itemCount && r >= 16 && IsPowerOfTwo(r)
  {
    if itemCount == 0 {
      assert IsPowerOfTwo(8) by {
        assert IsPowerOfTwo(4);
      }
      return 16;
    }
    var target := itemCount + itemCount / 4 + 1;
    r := NextPowerOfTwo(if target < 16 then 16 else target);
  }

  /** As many nodes as items at most. */
  lemma {:induction false} MergeIsSmall(items: seq<Result>, m: map<nat, Result>)
    requires Merges(items, m)
    ensures |m| <= |items|
  {
    var nodes: seq<nat> := seq(|items|, i requires 0 <= i < |items| => items[i].node);
    forall n | n in m
      ensures n in Elements(nodes)
    {
      var i :| 0 <= i < |items| && items[i].node == n;
      assert nodes[i] == n;
    }
    SubsetSize(m.Keys, Elements(nodes));
    ElementsAtMost(nodes);
    assert |m| == |m.Keys|;
  }

  lemma {:induction false} ElementsAtMost(s: seq<nat>)
    ensures |Elements(s)| <= |s|
  {
    if s != [] {
      var t := s[..|s| - 1];
      assert s == t + [s[|s| - 1]];
      ElementsAtMost(t);
      assert Elements(s) == Elements(t) + {s[|s| - 1]};
    }
  }

  method HashNext(slots: array<Option<Result>>, items: seq<Result>, i: nat, ghost m: map<nat, Result>)
    returns (ghost m': map<nat, Result>)
    requires Separate(items) && i < |items| < slots.Length && Merges(items[..i], m) && Table(BY_NODE, slots[..], m)
    modifies slots
    ensures Merges(items[..i + 1], m') && Table(BY_NODE, slots[..], m')
  {
    MergeIsSmall(items[..i], m);
    assert items[..i + 1] == items[..i] + [items[i]];
    SeparatePrefix(items, i + 1);
    HashCandidate(slots, items[i], items[..i], m);
    m' := AbsorbInto(m, items[i]);
  }

  method FuseHash(items: seq<Result>, requireBm25: bool) returns (merged: seq<Result>)
    requires Separate(items)
    ensures IsMerge(items, requireBm25, merged)
  {
    var slotCount := FusionHashSlotCount(|items|);
    var slots := new Option<Result>[slotCount](_ => None);
    ghost var m: map<nat, Result> := map[];
    assert items[..0] == [];
    var i: nat := 0;
    while i < |items|
      invariant i <= |items| && slots.Length == slotCount
      invariant Merges(items[..i], m) && Table(BY_NODE, slots[..], m)
    {
      m := HashNext(slots, items, i, m);
      i := i + 1;
    }
    assert items[..i] == items;
    merged := CollectSlots(BY_NODE, slots, Passes(requireBm25), m);
    CollectedIsMerge(items, m, requireBm25, merged);
  }

  lemma {:induction false} SeparatePrefix(items: seq<Result>, n: nat)
    requires Separate(items) && n <= |items|
    ensures Separate(items[..n])
  {
  }

  function Passes(requireBm25: bool): Result -> bool { (r: Result) => requireBm25 ==> r.bm25.Some? }

  /** The collected results of a merge are the merge. */
  lemma {:induction false} CollectedIsMerge(items: seq<Result>, m: map<nat, Result>, requireBm25: bool,
                                            merged: seq<Result>)
    requires Separate(items) && Merges(items, m) && Collects(BY_NODE, m, Passes(requireBm25), merged)
    ensures IsMerge(items, requireBm25, merged)
  {
    forall r: Result
      ensures r.node in m && r == m[r.node] <==> Gathers(items, r)
    {
      if Gathers(items, r) {
        GathersIsUnique(items, r, m[r.node]);
      }
    }
    forall i | 0 <= i < |merged|
      ensures BY_NODE.key(merged[i]) == merged[i].node
    {
    }
  }

  // ----- sorted array

  ghost predicate SortedByNodeId(items: seq<Result>) {
    forall i, j :: 0 <= i < j < |items| ==> items[i].node <= items[j].node
  }

  /** merged holds the finished results of the first n items. */
  ghost predicate Finished(items: seq<Result>, n: nat, requireBm25: bool, merged: seq<Result>) {
    && n <= |items|
    && (forall i, j :: 0 <= i < j < |merged| ==> merged[i].node != merged[j].node)
    && (forall r :: r in merged <==> Gathers(items[..n], r) && (requireBm25 ==> r.bm25.Some?))
    && (forall i :: 0 <= i < |merged| && n < |items| ==> merged[i].node < items[n].node)
  }

  /** item gathers the first i items of its node; the n items before them are finished. */
  ghost predicate Gathering(items: seq<Result>, n: nat, i: nat, item: Result) {
    && n < i <= |items| && Gathers(items[..i], item)
    && forall j :: n <= j < i ==> items[j].node == item.node
  }

  lemma {:induction false} GroupStart(items: seq<Result>, n: nat)
    requires Separate(items) && SortedByNodeId(items) && n < |items| && !Touches(items[..n], items[n].node)
    ensures Gathering(items, n, n + 1, items[n])
  {
    assert items[..n + 1] == items[..n] + [items[n]];
    SeparatePrefix(items, n + 1);
    GathersAppended(items[..n], items[n], items[n]);
  }

  lemma {:induction false} GroupStep(items: seq<Result>, n: nat, i: nat, item: Result)
    requires Separate(items) && Gathering(items, n, i, item) && i < |items| && items[i].node == item.node
    ensures Gathering(items, n, i + 1, Absorb(item, items[i]))
  {
    assert items[..i + 1] == items[..i] + [items[i]];
    SeparatePrefix(items, i + 1);
    GathersAppended(items[..i], items[i], item);
  }

  lemma {:induction false} OthersUnchanged(items: seq<Result>, n: nat, i: nat, r: Result)
    requires Separate(items) && n <= i <= |items| && forall j :: n <= j < i ==> items[j].node != r.node
    ensures Gathers(items[..i], r) <==> Gathers(items[..n], r)
    decreases i
  {
    if n < i {
      OthersUnchanged(items, n, i - 1, r);
      assert items[..i] == items[..i - 1] + [items[i - 1]];
      SeparatePrefix(items, i);
      GathersAppended(items[..i - 1], items[i - 1], r);
    }
  }

  lemma {:induction false} GroupEnd(items: seq<Result>, n: nat, i: nat, item: Result, requireBm25: bool,
                                    merged: seq<Result>)
    requires Separate(items) && SortedByNodeId(items) && Finished(items, n, requireBm25, merged)
    requires Gathering(items, n, i, item) && (i < |items| ==> items[i].node != item.node)
    ensures Finished(items, i, requireBm25, if requireBm25 && item.bm25.None? then merged else merged + [item])
  {
    assert items[n].node == item.node;
    SeparatePrefix(items, i);
    forall r: Result
      ensures Gathers(items[..i], r) <==> r == item || (r.node != item.node && Gathers(items[..n], r))
    {
      if r.node != item.node {
        OthersUnchanged(items, n, i, r);
      } else if Gathers(items[..i], r) {
        GathersIsUnique(items[..i], r, item);
      }
    }
    FinishedGrows(items, n, i, item, requireBm25, merged);
  }

  lemma {:induction false} FinishedGrows(items: seq<Result>, n: nat, i: nat, item: Result, requireBm25: bool,
                                         merged: seq<Result>)
    requires Finished(items, n, requireBm25, merged) && n < i <= |items| && items[n].node == item.node
    requires forall r :: Gathers(items[..i], r) <==> r == item || (r.node != item.node && Gathers(items[..n], r))
    requires i < |items| ==> item.node < items[i].node
    ensures Finished(items, i, requireBm25, if requireBm25 && item.bm25.None? then merged else merged + [item])
  {
    forall k | 0 <= k < |merged|
      ensures merged[k].node < item.node
    {
      assert merged[k].node < items[n].node;
    }
    forall r | r in merged
      ensures r.node != item.node
    {
      var k :| 0 <= k < |merged| && merged[k] == r;
    }
  }

  lemma {:induction false} NextIsNew(items: seq<Result>, n: nat)
    requires SortedByNodeId(items) && n < |items| && (n > 0 ==> items[n - 1].node != items[n].node)
    ensures !Touches(items[..n], items[n].node)
  {
    forall i | 0 <= i < n
      ensures items[i].node < items[n].node
    {
      assert i < n - 1 ==> items[i].node <= items[n - 1].node;
    }
  }

  /** The merge over the sorted items, in whatever order equal node ids come. */
  method FuseSorted(items: seq<Result>, requireBm25: bool) returns (merged: seq<Result>)
    requires Separate(items) && SortedByNodeId(items)
    ensures IsMerge(items, requireBm25, merged)
  {
    merged := [];
    var i: nat := 0;
    while i < |items|
      invariant Finished(items, i, requireBm25, merged)
      invariant 0 < i < |items| ==> items[i - 1].node != items[i].node
    {
      ghost var n := i;
      NextIsNew(items, n);
      GroupStart(items, n);
      var item := items[i];
      i := i + 1;
      while i < |items| && items[i].node == item.node
        invariant Gathering(items, n, i, item)
      {
        GroupStep(items, n, i, item);
        item := Absorb(item, items[i]);
        i := i + 1;
      }
      GroupEnd(items, n, i, item, requireBm25, merged);
      if !(requireBm25 && item.bm25.None?) {
        merged := merged + [item];
      }
    }
    assert items[..i] == items;
  }
}
