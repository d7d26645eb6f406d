/** The loops that merge by heap tid: over a probing hash table, and over a sorted array. */
module DocumentPaths {
  import opened Wrappers
  import opened Ranking
  import opened BoundedSelection
  import opened Probing
  import opened DocumentFusion
  import opened DocumentRanking
  import opened DocumentLists
  import F = Fusion
  import FusionPaths
  import FusedRanking

  // ----- merged documents

  /** The documents of m that pass the filter, each once. */
  ghost predicate ListsAll(m: map<nat, Document>, requireBm25: bool, merged: seq<Document>) {
    && (forall i, j :: 0 <= i < j < |merged| ==> merged[i].tid != merged[j].tid)
    && (forall r :: r in merged <==> r.tid in m && r == m[r.tid] && (requireBm25 ==> r.bm25.Some?))
  }

  function Passes(requireBm25: bool): Document -> bool { (r: Document) => requireBm25 ==> r.bm25.Some? }

  // ----- hash path

  /** A heap tid is a block number and an offset of 16 bits. */
  function HashHeapTid(tid: nat): nat {
    var block, offset := (tid / 0x1_0000) * 2654435761 % 0x1_0000_0000, (tid % 0x1_0000) * 2246822519 % 0x1_0000_0000;
    ((block as bv32) ^ (offset as bv32)) as nat
  }

  const BY_TID: Keying<Document> := Keying((r: Document) => r.tid, HashHeapTid)

  method TakeCandidate(slots: array<Option<Document>>, x: Document, ghost m: map<nat, Document>)
    requires Table(BY_TID, slots[..], m) && |m| < slots.Length
    modifies slots
    ensures Table(BY_TID, slots[..], TakeInto(m, x))
  {
    assert x.tid in m ==> Findable(BY_TID, slots[..], m, x.tid);
    var s := FindMergeSlot(BY_TID, slots, x.tid, m);
    var base := if slots[s].None? then Empty(x.tid) else slots[s].value;
    assert base == if x.tid in m then m[x.tid] else Empty(x.tid);
    TableStep(BY_TID, slots[..], m, x.tid, Take(base, x), s);
    ghost var slots' := slots[..][s := Some(Take(base, x))];
    slots[s] := Some(Take(base, x));
    assert slots[..] == slots';
  }

  lemma {:induction false} TakeAllIsSmall(items: seq<Document>)
    ensures |TakeAll(items)| <= |items|
  {
    if items != [] {
      var p, x := items[..|items| - 1], items[|items| - 1];
      TakeAllIsSmall(p);
      var m := TakeAll(p);
      assert TakeInto(m, x).Keys == m.Keys + {x.tid};
      assert |TakeInto(m, x)| == |TakeInto(m, x).Keys| && |m| == |m.Keys|;
    }
  }

  lemma {:induction false} CollectedLists(m: map<nat, Document>, requireBm25: bool, merged: seq<Document>)
    requires Collects(BY_TID, m, Passes(requireBm25), merged)
    ensures ListsAll(m, requireBm25, merged)
  {
    forall i | 0 <= i < |merged|
      ensures BY_TID.key(merged[i]) == merged[i].tid
    {
    }
  }

  method FuseHash(items: seq<Document>, requireBm25: bool) returns (merged: seq<Document>)
    ensures ListsAll(TakeAll(items), requireBm25, merged)
  {
    var slotCount := FusionPaths.FusionHashSlotCount(|items|);
    var slots := new Option<Document>[slotCount](_ => None);
    var i: nat := 0;
    assert items[..0] == [];
    while i < |items|
      invariant i <= |items| && slots.Length == slotCount && Table(BY_TID, slots[..], TakeAll(items[..i]))
    {
      TakeAllIsSmall(items[..i]);
      AllNext(items, i);
      TakeCandidate(slots, items[i], TakeAll(items[..i]));
      i := i + 1;
    }
    assert items[..i] == items;
    merged := CollectSlots(BY_TID, slots, Passes(requireBm25), TakeAll(items));
    CollectedLists(TakeAll(items), requireBm25, merged);
  }

  // ----- sort path

  /** merged lists the documents of the first n items, all of them before the next one. */
  ghost predicate Finished(items: seq<Document>, n: nat, requireBm25: bool, merged: seq<Document>) {
    && n <= |items| && ListsAll(JoinAll(items[..n]), requireBm25, merged)
    && (n < |items| ==> items[n].tid !in JoinAll(items[..n]))
  }

  /** item is the document of items n to i; those before are untouched. */
  ghost predicate Joining(items: seq<Document>, n: nat, i: nat, item: Document) {
    n < i <= |items| && item.tid == items[n].tid && JoinAll(items[..i]) == JoinAll(items[..n])[item.tid := item]
  }

  lemma {:induction false} JoinStarts(items: seq<Document>, n: nat)
    requires n < |items| && items[n].tid !in JoinAll(items[..n])
    ensures Joining(items, n, n + 1, items[n])
  {
    AllNext(items, n);
  }

  lemma {:induction false} JoinGoesOn(items: seq<Document>, n: nat, i: nat, item: Document)
    requires Joining(items, n, i, item) && i < |items| && items[i].tid == item.tid
    ensures Joining(items, n, i + 1, Join(item, items[i]))
  {
    AllNext(items, i);
    var m: map<nat, Document>, t: nat := JoinAll(items[..n]), item.tid;
    assert m[t := item][t := Join(item, items[i])] == m[t := Join(item, items[i])];
  }

  lemma {:induction false} InJoined(items: seq<Document>, t: nat)
    ensures t in JoinAll(items) <==> Touches(items, t)
  {
    if items != [] {
      var p, x := items[..|items| - 1], items[|items| - 1];
      InJoined(p, t);
      PartsAppended(p, x, t, Dense);
      assert items == p + [x];
    }
  }

  /** In sorted items a document does not come back after its group. */
  lemma {:induction false} NextIsNew(items: seq<Document>, i: nat)
    requires SortedByTid(items) && 0 < i < |items| && items[i - 1].tid != items[i].tid
    ensures items[i].tid !in JoinAll(items[..i])
  {
    InJoined(items[..i], items[i].tid);
    forall j | 0 <= j < i
      ensures items[..i][j].tid != items[i].tid
    {
      assert !TidBefore(items[i], items[i - 1]) && (j < i - 1 ==> !TidBefore(items[i - 1], items[j]));
    }
  }

  lemma {:induction false} GroupDone(items: seq<Document>, n: nat, i: nat, item: Document, requireBm25: bool,
                                     merged: seq<Document>)
    requires SortedByTid(items) && Finished(items, n, requireBm25, merged) && Joining(items, n, i, item)
    requires i < |items| ==> items[i - 1].tid == item.tid != items[i].tid
    ensures Finished(items, i, requireBm25, if requireBm25 && item.bm25.None? then merged else merged + [item])
  {
    if i < |items| {
      NextIsNew(items, i);
    }
    ListsOneMore(JoinAll(items[..n]), requireBm25, merged, item);
  }

  lemma {:induction false} ListsOneMore(m: map<nat, Document>, requireBm25: bool, merged: seq<Document>, item: Document)
    requires ListsAll(m, requireBm25, merged) && item.tid !in m
    ensures ListsAll(m[item.tid := item], requireBm25, if requireBm25 && item.bm25.None? then merged else merged + [item])
  {
    forall k | 0 <= k < |merged|
      ensures merged[k].tid != item.tid
    {
      assert merged[k] in merged;
    }
  }

  /** The items of one document, joined in whatever order they come. */
  method JoinGroup(items: seq<Document>, n: nat) returns (item: Document, i: nat)
    requires n < |items| && items[n].tid !in JoinAll(items[..n])
    ensures Joining(items, n, i, item) && items[i - 1].tid == item.tid && (i < |items| ==> items[i].tid != item.tid)
  {
    JoinStarts(items, n);
    item, i := items[n], n + 1;
    while i < |items| && items[i].tid == item.tid
      invariant Joining(items, n, i, item) && items[i - 1].tid == item.tid
    {
      JoinGoesOn(items, n, i, item);
      item := Join(item, items[i]);
      i := i + 1;
    }
  }

  /** Document by document. */
  method FuseSorted(items: seq<Document>, requireBm25: bool) returns (merged: seq<Document>)
    requires SortedByTid(items)
    ensures ListsAll(JoinAll(items), requireBm25, merged)
  {
    merged := [];
    var i: nat := 0;
    assert items[..0] == [];
    while i < |items|
      invariant Finished(items, i, requireBm25, merged)
    {
      ghost var n := i;
      var item;
      item, i := JoinGroup(items, i);
      GroupDone(items, n, i, item, requireBm25, merged);
      if !(requireBm25 && item.bm25.None?) {
        merged := merged + [item];
      }
    }
    assert items[..i] == items;
  }

  // ----- finishing

  ghost function ScoredAll(f: Method, merged: seq<Document>): (s: seq<Document>)
    ensures |s| == |merged| && forall i :: 0 <= i < |s| ==> s[i] == Scored(f, merged[i])
  {
    seq(|merged|, i requires 0 <= i < |merged| => Scored(f, merged[i]))
  }

  method ScoreDocuments(f: Method, merged: seq<Document>) returns (scored: seq<Document>)
    ensures scored == ScoredAll(f, merged)
  {
    scored := [];
    for i := 0 to |merged|
      invariant |scored| == i && forall j :: 0 <= j < i ==> scored[j] == Scored(f, merged[j])
    {
      scored := scored + [Scored(f, merged[i])];
    }
  }

  lemma {:induction false} ScoredIsFusedSet(f: Method, m: map<nat, Document>, requireBm25: bool, merged: seq<Document>)
    requires ListsAll(m, requireBm25, merged) && forall t :: t in m ==> m[t].tid == t
    ensures Distinct(ScoredAll(f, merged)) && Elements(ScoredAll(f, merged)) == FusedSet(f, m, requireBm25)
    ensures |FusedSet(f, m, requireBm25)| == |merged|
  {
    var s := ScoredAll(f, merged);
    forall x | x in s
      ensures x in FusedSet(f, m, requireBm25)
    {
      var i :| 0 <= i < |s| && s[i] == x;
      assert merged[i] in merged;
    }
    forall x | x in FusedSet(f, m, requireBm25)
      ensures x in s
    {
      var t :| t in m && (requireBm25 ==> m[t].bm25.Some?) && x == Scored(f, m[t]);
      assert m[t] in merged;
      var i :| 0 <= i < |merged| && merged[i] == m[t];
      assert s[i] == x;
    }
    DistinctSize(s);
  }

  /** The best documents of a merge, best first. */
  method FinalizeDocuments(f: Method, merged: seq<Document>, requireBm25: bool, finalK: nat, maxUnion: nat,
                           activeLimit: int,
                           ghost items: seq<Document>, ghost m: map<nat, Document>)
    returns (final: seq<Document>)
    requires AllFound(items, m) && ListsAll(m, requireBm25, merged)
    ensures var S := FusedSet(f, m, requireBm25); IsTopK(Better, S, FusedRanking.FinalTarget(|S|, finalK, maxUnion, activeLimit), final)
  {
    var scored := ScoreDocuments(f, merged);
    ScoredIsFusedSet(f, m, requireBm25, merged);
    FusedSetIsRankable(items, m, f, requireBm25);
    var finalCount := FusedRanking.FinalTarget(|merged|, finalK, maxUnion, activeLimit);
    if finalCount < |merged| {
      final := SelectTopN(scored, finalCount, Better);
    } else {
      SortByIsTopK(Better, scored, |scored|);
      final := SortBy(Better, scored);
      assert final[..|scored|] == final;
    }
  }

  datatype Path = UseHash | UseSort

  /** The merge that a path makes of the candidates. */
  ghost function MergeOf(path: Path, items: seq<Document>): map<nat, Document> {
    if path == UseHash then TakeAll(items) else JoinAll(SortBy(TidBefore, items))
  }

  lemma {:induction false} SortsByTid(items: seq<Document>)
    ensures multiset(SortBy(TidBefore, items)) == multiset(items) && SortedByTid(SortBy(TidBefore, items))
  {
    SortBySorts(TidBefore, items);
  }

  lemma {:induction false} PathMerges(path: Path, items: seq<Document>, sorted: seq<Document>)
    requires Separate(items) && sorted == SortBy(TidBefore, items)
    ensures AllFound(if path == UseHash then items else sorted, MergeOf(path, items))
  {
    SortsByTid(items);
    SortedIsSeparate(items, sorted);
    TakeMerges(items);
    JoinMerges(sorted);
  }

  /** The best documents of all candidates, by the path taken. */
  method FuseDocuments(path: Path, dense: seq<F.DenseCandidate>, multi: seq<F.DenseCandidate>,
                       bm25: seq<F.Bm25Candidate>,
                       f: Method, requireBm25: bool, finalK: nat, maxUnion: nat, activeLimit: int)
    returns (final: seq<Document>)
    requires Listed(dense, multi, bm25)
    ensures var S := FusedSet(f, MergeOf(path, Candidates(dense, multi, bm25)), requireBm25);
            IsTopK(Better, S, FusedRanking.FinalTarget(|S|, finalK, maxUnion, activeLimit), final)
    ensures DocumentList(Found(dense, multi, bm25), f, requireBm25, final)
    ensures FusedRanking.AsMany(|final|, |FusedTids(Found(dense, multi, bm25), requireBm25)|, finalK, maxUnion, activeLimit)
  {
    var items := Candidates(dense, multi, bm25);
    CandidatesAreSeparate(dense, multi, bm25);
    var sorted := SortBy(TidBefore, items);
    PathMerges(path, items, sorted);
    SortsByTid(items);
    var merged: seq<Document>;
    match path {
      case UseHash => merged := FuseHash(items, requireBm25);
      case UseSort => merged := FuseSorted(sorted, requireBm25);
    }
    final := FinalizeDocuments(f, merged, requireBm25, finalK, maxUnion, activeLimit,
                               if path == UseHash then items else sorted, MergeOf(path, items));
    FusedSetSize(Found(dense, multi, bm25), if path == UseHash then items else sorted, MergeOf(path, items), f, requireBm25);
    TopIsDocumentList(Found(dense, multi, bm25), if path == UseHash then items else sorted, MergeOf(path, items), f, requireBm25,
                      |final|, final);
  }
}
