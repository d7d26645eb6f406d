/**
 The cache of decoded chunks: a hash table and a doubly linked list of entries in order of
 use, within a byte limit.  Entries are records in a map from references to records, so that
 links are references as in the source.
 */
module HotCache {
  import opened Wrappers
  import opened PostingsCodec

  /** Term and page address of a chunk. */
  datatype Key = Key(termId: nat, block: nat, offset: nat)

  /** What an iterator takes from a chunk, whether decoded or cached. */
  datatype Chunk = Chunk(postings: seq<Posting>, lastNode: nat, maxTf: nat, maxTfNorm: nat, maxScoreFactor: real, next: nat)

  /** Links are references of other entries, or NULL. */
  datatype Entry = Entry(key: Key, chunk: Chunk, bytes: nat, lastUsed: nat, prev: int, next: int)

  const NULL := -1

  type Heap = map<nat, Entry>

  datatype State = State(heap: Heap, hash: map<Key, nat>, head: int, tail: int, bytes: nat, clock: nat, evictions: nat, nextRef: nat)

  // ----- pages

  /** A postings tuple as stored; its header fields may be missing (zero) in older tuples. */
  datatype Page = Page(tuple: PostingsTuple, maxTfNorm: nat, maxScoreFactor: real, next: nat)

  /** What an iterator takes from a page; zero header fields are computed from the postings. */
  function LoadPage(page: Page): Option<Chunk> {
    var ps := Decode(page.tuple);
    if ps.None? then None
    else Some(Chunk(ps.value, page.tuple.lastNode,
                    if page.tuple.maxTf == 0 then MaxTf(ps.value) else page.tuple.maxTf,
                    if page.maxTfNorm == 0 then MaxNorm(ps.value) else page.maxTfNorm,
                    page.maxScoreFactor, page.next))
  }

  method LargestNorm(ps: seq<Posting>) returns (m: nat)
    ensures m == MaxNorm(ps)
  {
    m := 0;
    for i := 0 to |ps|
      invariant m == MaxNorm(ps[..i])
    {
      assert ps[..i + 1][..i] == ps[..i];
      m := if ps[i].tfNorm > m then ps[i].tfNorm else m;
    }
    assert ps[..|ps|] == ps;
  }

  method ReadPage(page: Page) returns (chunk: Option<Chunk>)
    ensures chunk == LoadPage(page)
  {
    var ps := DecodePostings(page.tuple);
    if ps.None? {
      return None;
    }
    var maxTf, maxNorm := page.tuple.maxTf, page.maxTfNorm;
    if maxTf == 0 {
      maxTf := LargestTf(ps.value);
    }
    if maxNorm == 0 {
      maxNorm := LargestNorm(ps.value);
    }
    return Some(Chunk(ps.value, page.tuple.lastNode, maxTf, maxNorm, page.maxScoreFactor, page.next));
  }

  // ----- what holds between calls

  ghost function PrevIn(list: seq<nat>, i: nat): int
    requires i < |list|
  {
    if i == 0 then NULL else list[i - 1]
  }

  ghost function NextIn(list: seq<nat>, i: nat): int
    requires i < |list|
  {
    if i + 1 == |list| then NULL else list[i + 1]
  }

  ghost function HeadOf(list: seq<nat>): int { if list == [] then NULL else list[0] }

  ghost function TailOf(list: seq<nat>): int { if list == [] then NULL else list[|list| - 1] }

  /** The entry at place i is linked to its neighbours, found by its key, and holds what decoding its page gives. */
  ghost predicate EntryOk(s: State, list: seq<nat>, pages: map<Key, Page>, i: nat)
    requires i < |list|
  {
    && list[i] in s.heap
    && var e := s.heap[list[i]];
       && e.prev == PrevIn(list, i) && e.next == NextIn(list, i)
       && e.key in s.hash && s.hash[e.key] == list[i]
       && e.lastUsed <= s.clock
       && e.key in pages && LoadPage(pages[e.key]) == Some(e.chunk)
  }

  /** More recently used entries come first, so no entry comes twice. */
  ghost predicate ByUse(heap: Heap, list: seq<nat>) {
    forall i, j :: 0 <= i < j < |list| && list[i] in heap && list[j] in heap ==> heap[list[i]].lastUsed > heap[list[j]].lastUsed
  }

  /** There are no entries outside the list, and references are not reused while in use. */
  ghost predicate AllListed(s: State, list: seq<nat>) {
    forall r :: r in s.heap ==> r in list && r < s.nextRef
  }

  ghost predicate HashOk(s: State) {
    forall key :: key in s.hash ==> s.hash[key] in s.heap && s.heap[s.hash[key]].key == key
  }

  ghost function TotalBytes(heap: Heap, list: seq<nat>): nat {
    if list == [] then 0 else (if list[0] in heap then heap[list[0]].bytes else 0) + TotalBytes(heap, list[1..])
  }

  ghost predicate Ok(s: State, list: seq<nat>, pages: map<Key, Page>, limit: nat) {
    && s.head == HeadOf(list) && s.tail == TailOf(list)
    && (forall i :: 0 <= i < |list| ==> EntryOk(s, list, pages, i))
    && ByUse(s.heap, list) && AllListed(s, list) && HashOk(s)
    && s.bytes == TotalBytes(s.heap, list) <= limit
  }

  // ----- unlinking

  ghost function Without<T>(s: seq<T>, k: nat): (r: seq<T>)
    requires k < |s|
    ensures |r| == |s| - 1
    ensures forall i :: 0 <= i < |r| ==> r[i] == s[if i < k then i else i + 1]
  {
    seq(|s| - 1, i requires 0 <= i < |s| - 1 => if i < k then s[i] else s[i + 1])
  }

  function WithNext(heap: Heap, r: int, next: int): Heap {
    if r in heap then heap[r := heap[r].(next := next)] else heap
  }

  function WithPrev(heap: Heap, r: int, prev: int): Heap {
    if r in heap then heap[r := heap[r].(prev := prev)] else heap
  }

  function Unlinked(heap: Heap, r: nat): Heap
    requires r in heap
  {
    WithPrev(WithNext(heap, heap[r].prev, heap[r].next), heap[r].next, heap[r].prev) - {r}
  }

  /** Unlinking changes the links of the neighbours only. */
  lemma {:induction false} UnlinkedValue(heap: Heap, r: nat)
    requires r in heap
    ensures Unlinked(heap, r).Keys == heap.Keys - {r}
    ensures forall x :: x in heap && x != r ==>
              Unlinked(heap, r)[x] == heap[x].(next := if x == heap[r].prev then heap[r].next else heap[x].next,
                                               prev := if x == heap[r].next then heap[r].prev else heap[x].prev)
  {
  }

  /** An entry is taken out of list and hash table. */
  function Freed(s: State, r: nat): State
    requires r in s.heap && s.heap[r].bytes <= s.bytes
  {
    State(Unlinked(s.heap, r), s.hash - {s.heap[r].key},
          if s.heap[r].prev == NULL then s.heap[r].next else s.head,
          if s.heap[r].next == NULL then s.heap[r].prev else s.tail,
          s.bytes - s.heap[r].bytes, s.clock, s.evictions, s.nextRef)
  }

  /** Different places hold different entries. */
  lemma {:induction false} Apart(s: State, list: seq<nat>, pages: map<Key, Page>, limit: nat, i: nat, j: nat)
    requires Ok(s, list, pages, limit) && i < |list| && j < |list| && i != j
    ensures list[i] in s.heap && list[j] in s.heap && list[i] != list[j] && s.heap[list[i]].key != s.heap[list[j]].key
  {
    assert EntryOk(s, list, pages, i) && EntryOk(s, list, pages, j);
    assert i < j || j < i;
  }

  /** Nothing but links differs. */
  ghost predicate SameContents(heap: Heap, heap': Heap, list: seq<nat>) {
    forall i :: 0 <= i < |list| ==>
      && list[i] in heap && list[i] in heap'
      && heap'[list[i]] == heap[list[i]].(prev := heap'[list[i]].prev, next := heap'[list[i]].next)
  }

  lemma {:induction false} SameBytes(heap: Heap, heap': Heap, list: seq<nat>)
    requires forall i :: 0 <= i < |list| ==> list[i] in heap && list[i] in heap' && heap[list[i]].bytes == heap'[list[i]].bytes
    ensures TotalBytes(heap', list) == TotalBytes(heap, list)
  {
    if list != [] {
      assert forall i :: 0 <= i < |list[1..]| ==> list[1..][i] == list[i + 1];
      SameBytes(heap, heap', list[1..]);
    }
  }

  lemma {:induction false} BytesWithout(heap: Heap, list: seq<nat>, k: nat)
    requires k < |list| && list[k] in heap
    ensures TotalBytes(heap, list) == TotalBytes(heap, Without(list, k)) + heap[list[k]].bytes
  {
    if k == 0 {
      assert Without(list, 0) == list[1..];
    } else {
      BytesWithout(heap, list[1..], k - 1);
      assert Without(list, k)[1..] == Without(list[1..], k - 1);
    }
  }

  lemma {:induction false} FreedEntry(s: State, list: seq<nat>, pages: map<Key, Page>, limit: nat, k: nat, i: nat)
    requires Ok(s, list, pages, limit) && k < |list| && i < |list| - 1 && list[k] in s.heap && s.heap[list[k]].bytes <= s.bytes
    ensures EntryOk(Freed(s, list[k]), Without(list, k), pages, i)
    ensures var r := Without(list, k)[i]; var heap' := Freed(s, list[k]).heap;
            r in s.heap && heap'[r] == s.heap[r].(prev := heap'[r].prev, next := heap'[r].next)
  {
    var j := if i < k then i else i + 1;
    assert EntryOk(s, list, pages, k) && EntryOk(s, list, pages, j);
    UnlinkedValue(s.heap, list[k]);
    Apart(s, list, pages, limit, j, k);
    NotNeighbour(s, list, pages, limit, j, k);
    FreedLinks(list, k, i);
  }

  /** Only the entries beside place k are linked to it. */
  lemma {:induction false} NotNeighbour(s: State, list: seq<nat>, pages: map<Key, Page>, limit: nat, j: nat, k: nat)
    requires Ok(s, list, pages, limit) && j < |list| && k < |list| && j != k && list[j] in s.heap && list[k] in s.heap
    ensures list[j] == s.heap[list[k]].prev <==> j == k - 1
    ensures list[j] == s.heap[list[k]].next <==> j == k + 1
  {
    assert EntryOk(s, list, pages, k);
    if k > 0 && j != k - 1 {
      Apart(s, list, pages, limit, j, k - 1);
    }
    if k + 1 < |list| && j != k + 1 {
      Apart(s, list, pages, limit, j, k + 1);
    }
  }

  lemma {:induction false} FreedLinks(list: seq<nat>, k: nat, i: nat)
    requires k < |list| && i < |list| - 1
    ensures var j := if i < k then i else i + 1;
            && PrevIn(Without(list, k), i) == (if j == k + 1 then PrevIn(list, k) else PrevIn(list, j))
            && NextIn(Without(list, k), i) == (if j == k - 1 then NextIn(list, k) else NextIn(list, j))
  {
  }

  lemma {:induction false} FreedRest(s: State, list: seq<nat>, pages: map<Key, Page>, limit: nat, k: nat)
    requires Ok(s, list, pages, limit) && k < |list| && list[k] in s.heap && s.heap[list[k]].bytes <= s.bytes
    ensures AllListed(Freed(s, list[k]), Without(list, k)) && HashOk(Freed(s, list[k]))
    ensures list[k] !in Freed(s, list[k]).heap
  {
    var t, w := Freed(s, list[k]), Without(list, k);
    assert EntryOk(s, list, pages, k);
    UnlinkedValue(s.heap, list[k]);
    forall r | r in t.heap
      ensures r in w && r < t.nextRef
    {
      var i :| 0 <= i < |list| && list[i] == r;
      assert w[if i < k then i else i - 1] == r;
    }
    forall key | key in t.hash
      ensures t.hash[key] in t.heap && t.heap[t.hash[key]].key == key
    {
      assert s.hash[key] != list[k];
    }
  }

  lemma {:induction false} FreedEnds(s: State, list: seq<nat>, pages: map<Key, Page>, limit: nat, k: nat)
    requires Ok(s, list, pages, limit) && k < |list| && list[k] in s.heap && s.heap[list[k]].bytes <= s.bytes
    ensures var t := Freed(s, list[k]); t.head == HeadOf(Without(list, k)) && t.tail == TailOf(Without(list, k))
  {
    assert EntryOk(s, list, pages, k);
  }

  lemma {:induction false} FreedByUse(heap: Heap, heap': Heap, list: seq<nat>, k: nat)
    requires ByUse(heap, list) && k < |list| && SameContents(heap, heap', Without(list, k))
    ensures ByUse(heap', Without(list, k))
  {
  }

  lemma {:induction false} FreedIsOk(s: State, list: seq<nat>, pages: map<Key, Page>, limit: nat, k: nat)
    requires Ok(s, list, pages, limit) && k < |list|
    ensures list[k] in s.heap && s.heap[list[k]].bytes <= s.bytes && Ok(Freed(s, list[k]), Without(list, k), pages, limit)
    ensures list[k] !in Freed(s, list[k]).heap
  {
    assert EntryOk(s, list, pages, k);
    BytesWithout(s.heap, list, k);
    FreedContents(s, list, pages, limit, k);
    FreedRest(s, list, pages, limit, k);
    FreedEnds(s, list, pages, limit, k);
    FreedEntries(s, list, pages, limit, k);
  }

  lemma {:induction false} FreedEntries(s: State, list: seq<nat>, pages: map<Key, Page>, limit: nat, k: nat)
    requires Ok(s, list, pages, limit) && k < |list| && list[k] in s.heap && s.heap[list[k]].bytes <= s.bytes
    ensures forall i :: 0 <= i < |list| - 1 ==> EntryOk(Freed(s, list[k]), Without(list, k), pages, i)
  {
    forall i | 0 <= i < |list| - 1
      ensures EntryOk(Freed(s, list[k]), Without(list, k), pages, i)
    {
      FreedEntry(s, list, pages, limit, k, i);
    }
  }

  lemma {:induction false} FreedContents(s: State, list: seq<nat>, pages: map<Key, Page>, limit: nat, k: nat)
    requires Ok(s, list, pages, limit) && k < |list| && list[k] in s.heap && s.heap[list[k]].bytes <= s.bytes
    ensures ByUse(Freed(s, list[k]).heap, Without(list, k))
    ensures TotalBytes(Freed(s, list[k]).heap, Without(list, k)) == TotalBytes(s.heap, Without(list, k))
  {
    var heap', w := Freed(s, list[k]).heap, Without(list, k);
    forall i | 0 <= i < |w|
      ensures w[i] in s.heap && w[i] in heap' && heap'[w[i]] == s.heap[w[i]].(prev := heap'[w[i]].prev, next := heap'[w[i]].next)
    {
      FreedEntry(s, list, pages, limit, k, i);
    }
    SameBytes(s.heap, heap', w);
    FreedByUse(s.heap, heap', list, k);
  }

  // ----- linking in front

  function Pushed(heap: Heap, head: int, r: nat, e: Entry): Heap {
    WithPrev(heap, head, r)[r := e.(prev := NULL, next := head)]
  }

  /** An entry is linked in front, as the one used last. */
  function Added(s: State, r: nat, e: Entry): State {
    State(Pushed(s.heap, s.head, r, e), s.hash[e.key := r], r, if s.head == NULL then r else s.tail,
          s.bytes + e.bytes, s.clock + 1, s.evictions, s.nextRef)
  }

  lemma {:induction false} AddedEntry(s: State, list: seq<nat>, pages: map<Key, Page>, limit: nat, r: nat, e: Entry,
                                      i: nat)
    requires Ok(s, list, pages, limit) && r !in s.heap && e.key !in s.hash && i < |list|
    ensures EntryOk(Added(s, r, e), [r] + list, pages, i + 1)
    ensures var heap' := Added(s, r, e).heap;
            list[i] in s.heap && list[i] in heap' && heap'[list[i]] == s.heap[list[i]].(prev := heap'[list[i]].prev, next := heap'[list[i]].next)
  {
    assert EntryOk(s, list, pages, i) && EntryOk(s, list, pages, 0);
    if i > 0 {
      Apart(s, list, pages, limit, 0, i);
    }
    var l := [r] + list;
    assert l[i + 1] == list[i] && l[i] == (if i == 0 then r else list[i - 1]);
    assert i + 1 < |list| ==> l[i + 2] == list[i + 1];
  }

  lemma {:induction false} AddedByUse(heap: Heap, heap': Heap, list: seq<nat>, r: nat)
    requires ByUse(heap, list) && SameContents(heap, heap', list) && r in heap'
    requires forall i :: 0 <= i < |list| ==> heap[list[i]].lastUsed < heap'[r].lastUsed
    ensures ByUse(heap', [r] + list)
  {
    var l := [r] + list;
    forall i, j | 0 <= i < j < |l| && l[i] in heap' && l[j] in heap'
      ensures heap'[l[i]].lastUsed > heap'[l[j]].lastUsed
    {
      assert l[j] == list[j - 1];
      assert i > 0 ==> l[i] == list[i - 1];
    }
  }

  lemma {:induction false} AddedRest(s: State, list: seq<nat>, pages: map<Key, Page>, limit: nat, r: nat, e: Entry)
    requires Ok(s, list, pages, limit) && r !in s.heap && r < s.nextRef && e.key !in s.hash
    ensures AllListed(Added(s, r, e), [r] + list) && HashOk(Added(s, r, e))
  {
    var t, l := Added(s, r, e), [r] + list;
    forall x | x in t.heap
      ensures x in l && x < t.nextRef
    {
      assert x != r ==> x in s.heap;
    }
    forall key | key in t.hash
      ensures t.hash[key] in t.heap && t.heap[t.hash[key]].key == key
    {
      assert key != e.key ==> key in s.hash && s.hash[key] != r;
    }
  }

  lemma {:induction false} AddedIsOk(s: State, list: seq<nat>, pages: map<Key, Page>, limit: nat, r: nat, e: Entry)
    requires Ok(s, list, pages, limit) && r !in s.heap && r < s.nextRef && e.key !in s.hash && s.bytes + e.bytes <= limit
    requires e.lastUsed == s.clock + 1 && e.key in pages && LoadPage(pages[e.key]) == Some(e.chunk)
    ensures Ok(Added(s, r, e), [r] + list, pages, limit)
  {
    AddedContents(s, list, pages, limit, r, e);
    AddedRest(s, list, pages, limit, r, e);
    AddedEntries(s, list, pages, limit, r, e);
  }

  lemma {:induction false} AddedEntries(s: State, list: seq<nat>, pages: map<Key, Page>, limit: nat, r: nat, e: Entry)
    requires Ok(s, list, pages, limit) && r !in s.heap && e.key !in s.hash
    requires e.lastUsed == s.clock + 1 && e.key in pages && LoadPage(pages[e.key]) == Some(e.chunk)
    ensures forall i :: 0 <= i < |list| + 1 ==> EntryOk(Added(s, r, e), [r] + list, pages, i)
  {
    var l := [r] + list;
    forall i | 0 <= i < |list| + 1
      ensures EntryOk(Added(s, r, e), l, pages, i)
    {
      if i > 0 {
        AddedEntry(s, list, pages, limit, r, e, i - 1);
      } else {
        assert NextIn(l, 0) == HeadOf(list);
      }
    }
  }

  lemma {:induction false} AddedContents(s: State, list: seq<nat>, pages: map<Key, Page>, limit: nat, r: nat, e: Entry)
    requires Ok(s, list, pages, limit) && r !in s.heap && e.key !in s.hash && e.lastUsed == s.clock + 1
    ensures ByUse(Added(s, r, e).heap, [r] + list)
    ensures TotalBytes(Added(s, r, e).heap, [r] + list) == e.bytes + TotalBytes(s.heap, list)
  {
    var t, l := Added(s, r, e), [r] + list;
    forall i | 0 <= i < |list|
      ensures list[i] in s.heap && list[i] in t.heap && s.heap[list[i]].lastUsed <= s.clock
      ensures t.heap[list[i]] == s.heap[list[i]].(prev := t.heap[list[i]].prev, next := t.heap[list[i]].next)
    {
      AddedEntry(s, list, pages, limit, r, e, i);
      assert EntryOk(s, list, pages, i);
    }
    assert SameContents(s.heap, t.heap, list);
    SameBytes(s.heap, t.heap, list);
    AddedByUse(s.heap, t.heap, list, r);
    assert l[1..] == list;
  }

  // ----- moving to the front, and the entry to evict

  lemma {:induction false} CachedEntry(s: State, list: seq<nat>, pages: map<Key, Page>, limit: nat,
                                       key: Key) returns (k: nat)
    requires Ok(s, list, pages, limit) && key in s.hash
    ensures k < |list| && list[k] == s.hash[key] && list[k] in s.heap && s.heap[list[k]].key == key && list[k] < s.nextRef
    ensures key in pages && LoadPage(pages[key]) == Some(s.heap[list[k]].chunk)
  {
    k :| 0 <= k < |list| && list[k] == s.hash[key];
    assert EntryOk(s, list, pages, k);
  }

  function Moved(s: State, r: nat): State
    requires r in s.heap && s.heap[r].bytes <= s.bytes
  {
    Added(Freed(s, r), r, s.heap[r].(lastUsed := s.clock + 1))
  }

  lemma {:induction false} MovedIsAdded(s: State, t: State, r: nat, e: Entry)
    requires r in s.heap && s.heap[r].bytes <= s.bytes && t == Freed(s, r) && e == s.heap[r].(lastUsed := s.clock + 1)
    ensures Moved(s, r) == Added(t, r, e)
    ensures e.key !in t.hash && t.bytes + e.bytes == s.bytes && t.clock == s.clock && t.nextRef == s.nextRef
    ensures e.key == s.heap[r].key && e.chunk == s.heap[r].chunk
  {
  }

  lemma {:induction false} ReaddedIsOk(s: State, t: State, list: seq<nat>, pages: map<Key, Page>, limit: nat, r: nat)
    requires r in s.heap && s.heap[r].bytes <= s.bytes <= limit && t == Freed(s, r) && Ok(t, list, pages, limit)
    requires r !in t.heap && r < s.nextRef && s.heap[r].key in pages && LoadPage(pages[s.heap[r].key]) == Some(s.heap[r].chunk)
    ensures Ok(Moved(s, r), [r] + list, pages, limit)
  {
    var e := s.heap[r].(lastUsed := s.clock + 1);
    MovedIsAdded(s, t, r, e);
    AddedIsOk(t, list, pages, limit, r, e);
  }

  lemma {:induction false} MovedIsOk(s: State, list: seq<nat>, pages: map<Key, Page>, limit: nat,
                                     key: Key) returns (k: nat)
    requires Ok(s, list, pages, limit) && key in s.hash
    ensures k < |list| && list[k] == s.hash[key] && list[k] in s.heap && s.heap[list[k]].bytes <= s.bytes
    ensures key in pages && LoadPage(pages[key]) == Some(s.heap[list[k]].chunk)
    ensures Ok(Moved(s, list[k]), [list[k]] + Without(list, k), pages, limit)
  {
    k := CachedEntry(s, list, pages, limit, key);
    FreedIsOk(s, list, pages, limit, k);
    ReaddedIsOk(s, Freed(s, list[k]), Without(list, k), pages, limit, list[k]);
  }

  /** The tail of the list is the entry used longest ago. */
  lemma {:induction false} OldestEntry(s: State, list: seq<nat>, pages: map<Key, Page>, limit: nat)
    requires Ok(s, list, pages, limit) && s.tail != NULL
    ensures list != [] && s.tail == list[|list| - 1]
    ensures s.tail in s.heap && forall r :: r in s.heap ==> s.heap[s.tail].lastUsed <= s.heap[r].lastUsed
  {
    var n := |list| - 1;
    assert EntryOk(s, list, pages, n);
    forall r | r in s.heap
      ensures s.heap[s.tail].lastUsed <= s.heap[r].lastUsed
    {
      var i :| 0 <= i < |list| && list[i] == r;
      assert i < n ==> s.heap[list[i]].lastUsed > s.heap[list[n]].lastUsed;
    }
  }

  function Evicted(s: State, r: nat): State
    requires r in s.heap && s.heap[r].bytes <= s.bytes
  {
    Freed(s, r).(evictions := s.evictions + 1)
  }

  lemma {:induction false} LastOff<T>(l: seq<T>, n: nat)
    requires 0 < n <= |l|
    ensures l[..n][..n - 1] == l[..n - 1] && Without(l, |l| - 1) == l[..|l| - 1]
  {
  }

  lemma {:induction false} CountedIsOk(s: State, list: seq<nat>, pages: map<Key, Page>, limit: nat, n: nat, ref: nat)
    requires Ok(s, list, pages, limit) && s.nextRef <= ref
    ensures Ok(s.(evictions := n, nextRef := ref), list, pages, limit)
  {
    var t := s.(evictions := n, nextRef := ref);
    forall i | 0 <= i < |list|
      ensures EntryOk(t, list, pages, i)
    {
      assert EntryOk(s, list, pages, i);
    }
  }

  lemma {:induction false} EvictedIsOk(s: State, list: seq<nat>, pages: map<Key, Page>, limit: nat)
    requires Ok(s, list, pages, limit) && s.tail != NULL
    ensures list != [] && s.tail in s.heap && s.heap[s.tail].bytes <= s.bytes
    ensures Ok(Evicted(s, s.tail), list[..|list| - 1], pages, limit)
  {
    OldestEntry(s, list, pages, limit);
    FreedIsOk(s, list, pages, limit, |list| - 1);
    LastOff(list, |list|);
    CountedIsOk(Freed(s, s.tail), list[..|list| - 1], pages, limit, s.evictions + 1, s.nextRef);
  }

  lemma {:induction false} NothingCached(s: State, list: seq<nat>, pages: map<Key, Page>, limit: nat)
    requires Ok(s, list, pages, limit) && s.tail == NULL
    ensures s.bytes == 0
  {
  }

  /** The entries that stay are as large as they were. */
  ghost predicate SameSizes(was: Heap, heap: Heap) {
    forall r :: r in heap ==> r in was && heap[r].bytes == was[r].bytes
  }

  lemma {:induction false} EvictedSizes(s: State, r: nat)
    requires r in s.heap && s.heap[r].bytes <= s.bytes
    ensures SameSizes(s.heap, Evicted(s, r).heap)
  {
    UnlinkedValue(s.heap, r);
  }

  /** The byte total is that of the entries kept, at their old sizes. */
  lemma {:induction false} KeptBytes(was: Heap, s: State, list: seq<nat>, pages: map<Key, Page>, limit: nat)
    requires Ok(s, list, pages, limit) && SameSizes(was, s.heap)
    ensures s.bytes == TotalBytes(was, list)
  {
    forall i | 0 <= i < |list|
      ensures list[i] in s.heap
    {
      assert EntryOk(s, list, pages, i);
    }
    SameBytes(was, s.heap, list);
  }

  // ----- the cache

  class Cache {
    const limit: nat
    ghost const pages: map<Key, Page>
    var s: State
    ghost var list: seq<nat>

    ghost predicate Valid()
      reads this
    {
      Ok(s, list, pages, limit)
    }

    constructor (limit: nat, ghost pages: map<Key, Page>)
      ensures Valid() && list == [] && this.limit == limit && this.pages == pages
    {
      this.limit, this.pages := limit, pages;
      s, list := State(map[], map[], NULL, NULL, 0, 0, 0, 0), [];
    }

    /** A hit gives the cached chunk and makes its entry the one used last. */
    method Lookup(key: Key) returns (hit: bool, chunk: Chunk, ghost k: nat)
      requires Valid()
      modifies this
      ensures Valid() && (hit <==> key in old(s).hash)
      ensures !hit ==> list == old(list) && s == old(s)
      ensures hit ==> key in pages && LoadPage(pages[key]) == Some(chunk)
      ensures hit ==> k < |old(list)| && old(list)[k] == old(s).hash[key] && list == [old(list)[k]] + Without(old(list), k)
      ensures hit ==> key in s.hash && s.hash[key] == list[0]
    {
      hit, chunk, k := key in s.hash, Chunk([], 0, 0, 0, 0.0, 0), 0;
      if hit {
        k := MovedIsOk(s, list, pages, limit, key);
        var r := s.hash[key];
        chunk := s.heap[r].chunk;
        list := [list[k]] + Without(list, k);
        s := Moved(s, r);
      }
    }

    /** Forgets the entry used longest ago. */
    method EvictOne()
      requires Valid() && s.tail != NULL
      modifies this
      ensures Valid() && |old(list)| > 0 && list == old(list)[..|old(list)| - 1]
      ensures s.hash.Keys <= old(s).hash.Keys && s.nextRef == old(s).nextRef && SameSizes(old(s).heap, s.heap)
    {
      EvictedIsOk(s, list, pages, limit);
      EvictedSizes(s, s.tail);
      list := list[..|list| - 1];
      s := Evicted(s, s.tail);
    }

    /** Evicts the entries used longest ago until there is room, and no more: with one fewer there was none. */
    method MakeRoom(size: nat) returns (ghost n: nat)
      requires Valid() && size <= limit
      modifies this
      ensures Valid() && s.bytes + size <= limit && s.hash.Keys <= old(s).hash.Keys && s.nextRef == old(s).nextRef
      ensures n <= |old(list)| && list == old(list)[..n]
      ensures n < |old(list)| ==> TotalBytes(old(s).heap, old(list)[..n + 1]) + size > limit
      ensures old(s).bytes + size <= limit ==> s == old(s) && n == |old(list)|
    {
      ghost var l := list;
      n := |l|;
      assert l[..n] == l;
      while s.bytes + size > limit && s.tail != NULL
        invariant Valid() && n <= |l| && list == l[..n] && s.hash.Keys <= old(s).hash.Keys && s.nextRef == old(s).nextRef
        invariant old(s).bytes + size <= limit ==> s == old(s) && n == |l|
        invariant SameSizes(old(s).heap, s.heap)
        invariant n < |l| ==> TotalBytes(old(s).heap, l[..n + 1]) + size > limit
        decreases n
      {
        KeptBytes(old(s).heap, s, list, pages, limit);
        EvictOne();
        LastOff(l, n);
        n := n - 1;
      }
      if s.tail == NULL {
        NothingCached(s, list, pages, limit);
      }
    }

    method Add(key: Key, chunk: Chunk, size: nat)
      requires Valid() && key !in s.hash && s.bytes + size <= limit && key in pages && LoadPage(pages[key]) == Some(chunk)
      modifies this
      ensures Valid() && list == [old(s).nextRef] + old(list) && key in s.hash && s.hash[key] == old(s).nextRef
    {
      var r := s.nextRef;
      CountedIsOk(s, list, pages, limit, s.evictions, r + 1);
      s := s.(nextRef := r + 1);
      var e := Entry(key, chunk, size, s.clock + 1, NULL, NULL);
      AddedIsOk(s, list, pages, limit, r, e);
      list := [r] + list;
      s := Added(s, r, e);
    }

    /** The list without the entry of a key, should it have one. */
    ghost predicate IsListWithout(before: seq<nat>, was: State, key: Key, after: seq<nat>) {
      if key in was.hash then exists k :: 0 <= k < |before| && before[k] == was.hash[key] && after == Without(before, k)
      else after == before
    }

    method Forget(key: Key)
      requires Valid()
      modifies this
      ensures Valid() && key !in s.hash && s.nextRef == old(s).nextRef
      ensures IsListWithout(old(list), old(s), key, list)
    {
      if key in s.hash {
        ghost var k := CachedEntry(s, list, pages, limit, key);
        FreedIsOk(s, list, pages, limit, k);
        list := Without(list, k);
        s := Freed(s, s.hash[key]);
      }
    }

    /**
     Stores a decoded chunk as the entry used last, before those of the others that were used
     most recently; one that is larger than the whole cache is not kept.
     */
    method Store(key: Key, chunk: Chunk, size: nat) returns (ghost others: seq<nat>, ghost n: nat)
      requires Valid() && key in pages && LoadPage(pages[key]) == Some(chunk)
      modifies this
      ensures Valid()
      ensures size > limit ==> s == old(s) && list == old(list)
      ensures size <= limit ==> IsListWithout(old(list), old(s), key, others) && n <= |others|
      ensures size <= limit ==> key in s.hash && list == [s.hash[key]] + others[..n]
    {
      if size > limit {
        return list, 0;
      }
      Forget(key);
      others := list;
      n := MakeRoom(size);
      Add(key, chunk, size);
    }

    /**
     Loads a chunk through the cache.  Hit or miss, the iterator gets what decoding the page
     gives, and the cache stays consistent, faithful to the pages and within its limit.
     */
    method LoadChunk(key: Key, page: Page, mayLookup: bool, mayStore: bool, size: nat) returns (chunk: Option<Chunk>)
      requires Valid() && key in pages && pages[key] == page
      modifies this
      ensures Valid()
      ensures chunk == LoadPage(page)
      ensures chunk.Some? && mayStore && size <= limit ==> list != [] && key in s.hash && s.hash[key] == list[0]
      ensures key !in old(s).hash && !(chunk.Some? && mayStore) ==> s == old(s)
    {
      if mayLookup {
        var hit, cached;
        ghost var k;
        hit, cached, k := Lookup(key);
        if hit {
          return Some(cached);
        }
      }
      chunk := ReadPage(page);
      if chunk.Some? && mayStore {
        ghost var others, n := Store(key, chunk.value, size);
      }
    }
  }
}
