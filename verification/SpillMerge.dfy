/** The memory-bounded collector: sorted runs, their heap merge, and the two lexicon writers. */
module SpillMerge {
  import opened Integers
  import opened Sequences
  import opened Ranking
  import opened BoundedSelection
  import opened TermTuples
  import opened DocLengths

  // ----- runs still to be read

  ghost predicate SortedRuns(rem: seq<seq<Tuple>>) {
    forall c :: 0 <= c < |rem| ==> Sorted(Before, rem[c])
  }

  /** Everything still to come, in order. */
  ghost function Rest(rem: seq<seq<Tuple>>): seq<Tuple> {
    SortBy(Before, Flatten(rem))
  }

  lemma {:induction false} FlattenWithout(rem: seq<seq<Tuple>>, c: nat)
    requires c < |rem| && rem[c] != []
    ensures multiset(Flatten(rem)) == multiset{rem[c][0]} + multiset(Flatten(rem[c := rem[c][1..]]))
  {
    var rem' := rem[c := rem[c][1..]];
    if c == 0 {
      assert rem'[1..] == rem[1..];
      assert rem[0] == [rem[0][0]] + rem[0][1..];
      assert Flatten(rem) == [rem[0][0]] + Flatten(rem');
    } else {
      FlattenWithout(rem[1..], c - 1);
      assert rem'[1..] == rem[1..][c - 1 := rem[c][1..]];
    }
  }

  lemma {:induction false} InFlatten(rem: seq<seq<Tuple>>, x: Tuple) returns (c: nat, i: nat)
    requires x in Flatten(rem)
    ensures c < |rem| && i < |rem[c]| && rem[c][i] == x
  {
    if x in rem[0] {
      c := 0;
      i :| 0 <= i < |rem[0]| && rem[0][i] == x;
    } else {
      c, i := InFlatten(rem[1..], x);
      c := c + 1;
    }
  }

  /** The smallest head comes next, and reading past it leaves the rest. */
  lemma {:induction false} SmallestIsNext(rem: seq<seq<Tuple>>, c: nat)
    requires SortedRuns(rem) && DistinctKeys(Flatten(rem)) && c < |rem| && rem[c] != []
    requires forall d :: 0 <= d < |rem| && rem[d] != [] ==> !Before(rem[d][0], rem[c][0])
    ensures var rem' := rem[c := rem[c][1..]];
            Rest(rem) == [rem[c][0]] + Rest(rem') && SortedRuns(rem') && DistinctKeys(Flatten(rem'))
  {
    var x, rem' := rem[c][0], rem[c := rem[c][1..]];
    BeforeIsWeakOrder();
    FlattenWithout(rem, c);
    SortBySorts(Before, Flatten(rem'));
    var r := Rest(rem');
    NothingSmaller(rem, c, r);
    SortedCons(Before, x, r);
    assert multiset([x] + r) == multiset(Flatten(rem));
    SortedIsUnique(Flatten(rem), [x] + r);
    KeysWithout(Flatten(rem), x, Flatten(rem'));
  }

  lemma {:induction false} NothingSmaller(rem: seq<seq<Tuple>>, c: nat, r: seq<Tuple>)
    requires SortedRuns(rem) && c < |rem| && rem[c] != [] && multiset(r) == multiset(Flatten(rem[c := rem[c][1..]]))
    requires forall d :: 0 <= d < |rem| && rem[d] != [] ==> !Before(rem[d][0], rem[c][0])
    ensures forall y :: y in r ==> !Before(y, rem[c][0])
  {
    forall y | y in r
      ensures !Before(y, rem[c][0])
    {
      assert y in multiset(r);
      var d, i := InFlatten(rem[c := rem[c][1..]], y);
      NotBeforeHead(rem, c, d, if d == c then i + 1 else i);
    }
  }

  lemma {:induction false} KeysWithout(s: seq<Tuple>, x: Tuple, t: seq<Tuple>)
    requires DistinctKeys(s) && multiset(s) == multiset{x} + multiset(t)
    ensures DistinctKeys(t)
  {
    var u := [x] + t;
    assert multiset(u) == multiset(s);
    SameMultisetDistinctKeys(s, u);
    TailKeys(u);
    assert u[1..] == t;
  }

  lemma {:induction false} TailKeys(s: seq<Tuple>)
    requires DistinctKeys(s) && s != []
    ensures DistinctKeys(s[1..])
  {
  }

  lemma {:induction false} NotBeforeHead(rem: seq<seq<Tuple>>, c: nat, d: nat, i: nat)
    requires SortedRuns(rem) && c < |rem| && rem[c] != [] && d < |rem| && i < |rem[d]|
    requires forall d :: 0 <= d < |rem| && rem[d] != [] ==> !Before(rem[d][0], rem[c][0])
    ensures !Before(rem[d][i], rem[c][0])
  {
    BeforeIsWeakOrder();
    var x, h, y := rem[c][0], rem[d][0], rem[d][i];
    assert !Before(h, x);
    assert Sorted(Before, rem[d]);
    assert i > 0 ==> !Before(y, h);
    assert Before(y, x) ==> Before(y, h) || Before(h, x);
  }

  // ----- the heap of cursors

  /** A cursor with the tuple it stands on. */
  datatype Head = Head(cursor: nat, tuple: Tuple)

  /** Ranked after: the heap keeps the smallest tuple at its root. */
  predicate HeadAfter(a: Head, b: Head) { TupleBefore(b.tuple, a.tuple) }

  const After: (Head, Head) -> bool := HeadAfter

  lemma {:induction false} AfterIsWeakOrder()
    ensures WeakOrder(After)
  {
    BeforeIsWeakOrder();
    forall a: Head, b: Head, c: Head
      ensures !After(a, a)
      ensures After(a, b) && After(b, c) ==> After(a, c)
      ensures After(a, c) ==> After(a, b) || After(b, c)
    {
      assert Before(c.tuple, a.tuple) ==> Before(c.tuple, b.tuple) || Before(b.tuple, a.tuple);
      assert Before(c.tuple, b.tuple) && Before(b.tuple, a.tuple) ==> Before(c.tuple, a.tuple);
    }
  }

  function HeadOf(rem: seq<seq<Tuple>>, c: nat): Head
    requires c < |rem| && rem[c] != []
  {
    Head(c, rem[c][0])
  }

  /** The heads of exactly the cursors that are not exhausted, each once. */
  ghost predicate Covers(rem: seq<seq<Tuple>>, h: multiset<Head>) {
    && (forall x :: x in h ==> x.cursor < |rem| && rem[x.cursor] != [] && x.tuple == rem[x.cursor][0])
    && (forall c :: 0 <= c < |rem| && rem[c] != [] ==> h[Head(c, rem[c][0])] == 1)
  }

  lemma {:induction false} RootIsSmallest(rem: seq<seq<Tuple>>, h: seq<Head>)
    requires h != [] && HeapOrder(After, h) && Covers(rem, multiset(h))
    ensures h[0].cursor < |rem| && rem[h[0].cursor] != [] && h[0].tuple == rem[h[0].cursor][0]
    ensures forall d :: 0 <= d < |rem| && rem[d] != [] ==> !Before(rem[d][0], h[0].tuple)
  {
    AfterIsWeakOrder();
    assert h[0] in multiset(h);
    forall d | 0 <= d < |rem| && rem[d] != []
      ensures !Before(rem[d][0], h[0].tuple)
    {
      assert Head(d, rem[d][0]) in multiset(h);
      var i :| 0 <= i < |h| && h[i] == Head(d, rem[d][0]);
      RootIsWorst(After, h, i);
    }
  }

  lemma {:induction false} CoversPopped(rem: seq<seq<Tuple>>, h: multiset<Head>, c: nat)
    requires Covers(rem, h) && c < |rem| && rem[c] != []
    ensures var rem' := rem[c := rem[c][1..]]; var h' := h - multiset{Head(c, rem[c][0])};
            Covers(rem', if rem'[c] == [] then h' else h' + multiset{Head(c, rem'[c][0])})
  {
    var x := Head(c, rem[c][0]);
    assert h[x] == 1;
    forall y | y in h && y != x
      ensures y.cursor != c
    {
    }
  }

  class Merger {
    var rem: seq<seq<Tuple>>
    const heap: array<Head>
    var count: nat

    ghost predicate Valid()
      reads this, heap
    {
      && count <= heap.Length == |rem|
      && HeapOrder(After, heap[..count]) && Covers(rem, multiset(heap[..count]))
      && SortedRuns(rem) && DistinctKeys(Flatten(rem))
    }

    constructor (runs: seq<seq<Tuple>>)
      requires SortedRuns(runs) && DistinctKeys(Flatten(runs))
      ensures Valid() && fresh(heap) && rem == runs
    {
      rem := runs;
      count := 0;
      heap := new Head[|runs|](_ => Head(0, Tuple(0, [], 0, 0)));
      new;
      var i: nat := 0;
      while i < |runs|
        invariant i <= |runs| == heap.Length && count <= i && rem == runs
        invariant HeapOrder(After, heap[..count]) && CoversFirst(runs, i, multiset(heap[..count]))
      {
        CoversNext(runs, i, multiset(heap[..count]));
        if runs[i] != [] {
          Push(Head(i, runs[i][0]));
        }
        i := i + 1;
      }
    }

    method Push(x: Head)
      requires count < heap.Length && HeapOrder(After, heap[..count])
      modifies this`count, heap
      ensures count == old(count) + 1 && HeapOrder(After, heap[..count])
      ensures multiset(heap[..count]) == old(multiset(heap[..count])) + multiset{x}
    {
      AfterIsWeakOrder();
      ghost var h: seq<Head> := heap[..count];
      heap[count] := x;
      assert heap[..count] == h && heap[..count + 1] == h + [x];
      SiftUp(heap, After, count);
      count := count + 1;
    }

    method MoveLast(ghost h: seq<Head>)
      requires 0 < count < heap.Length && h == heap[..count + 1] && HeapOrder(After, h)
      modifies heap
      ensures Sinking(After, heap[..count], 0) && multiset(heap[..count]) == multiset(h) - multiset{h[0]}
    {
      ghost var g := RootReplaced(h);
      heap[0] := heap[count];
      assert heap[..count] == g;
    }

    /** Removes the root, putting the last item in its place. */
    method Pop()
      requires 0 < count <= heap.Length && HeapOrder(After, heap[..count])
      modifies this`count, heap
      ensures count == old(count) - 1 && HeapOrder(After, heap[..count])
      ensures multiset(heap[..count]) == old(multiset(heap[..count])) - multiset{old(heap[0])}
    {
      AfterIsWeakOrder();
      ghost var h: seq<Head> := heap[..count];
      count := count - 1;
      if count > 0 {
        MoveLast(h);
        SiftDown(heap, After, count);
      } else {
        assert h == [h[0]] && heap[..count] == [];
      }
    }

    /** The next tuple of the merge, if any. */
    method Peek() returns (more: bool, t: Tuple)
      requires Valid()
      ensures more <==> Rest(rem) != []
      ensures more ==> count > 0 && t == heap[0].tuple == Rest(rem)[0]
    {
      if count == 0 {
        assert heap[..count] == [];
        NothingLeft(rem);
        return false, Tuple(0, [], 0, 0);
      }
      ghost var h: seq<Head> := heap[..count];
      RootIsSmallest(rem, h);
      SmallestIsNext(rem, h[0].cursor);
      return true, heap[0].tuple;
    }

    /** Reads past the next tuple. */
    method Advance()
      requires Valid() && count > 0
      modifies this`rem, this`count, heap
      ensures Valid() && old(Rest(rem)) == [old(heap[0].tuple)] + Rest(rem)
    {
      ghost var h: seq<Head> := heap[..count];
      RootIsSmallest(rem, h);
      var c := heap[0].cursor;
      SmallestIsNext(rem, c);
      CoversPopped(rem, multiset(h), c);
      Pop();
      rem := rem[c := rem[c][1..]];
      if rem[c] != [] {
        Push(Head(c, rem[c][0]));
      }
    }
  }

  ghost predicate CoversFirst(rem: seq<seq<Tuple>>, n: nat, h: multiset<Head>) {
    && n <= |rem|
    && (forall x :: x in h ==> x.cursor < n && rem[x.cursor] != [] && x.tuple == rem[x.cursor][0])
    && (forall c :: 0 <= c < n && rem[c] != [] ==> h[Head(c, rem[c][0])] == 1)
  }

  lemma {:induction false} CoversNext(rem: seq<seq<Tuple>>, n: nat, h: multiset<Head>)
    requires CoversFirst(rem, n, h) && n < |rem|
    ensures CoversFirst(rem, n + 1, if rem[n] == [] then h else h + multiset{Head(n, rem[n][0])})
  {
    if rem[n] != [] {
      assert h[Head(n, rem[n][0])] == 0;
    }
  }

  lemma {:induction false} RootReplaced(h: seq<Head>) returns (g: seq<Head>)
    requires |h| > 1 && HeapOrder(After, h)
    ensures |g| == |h| - 1 && g[0] == h[|g|] && forall i :: 0 < i < |g| ==> g[i] == h[i]
    ensures Sinking(After, g, 0) && multiset(g) == multiset(h) - multiset{h[0]}
  {
    var n := |h| - 1;
    var p := h[..n];
    g := p[0 := h[n]];
    forall c | 0 < c < n
      ensures Fits(After, p, c)
    {
      assert Fits(After, h, c);
    }
    ReplacedRootSinks(After, p, h[n]);
    assert h == p + [h[n]];
    assert multiset(g) == multiset(p) - multiset{h[0]} + multiset{h[n]};
  }

  lemma {:induction false} NothingLeft(rem: seq<seq<Tuple>>)
    requires Covers(rem, multiset{})
    ensures Rest(rem) == []
  {
    AllEmpty(rem);
  }

  lemma {:induction false} AllEmpty(rem: seq<seq<Tuple>>)
    requires forall c :: 0 <= c < |rem| ==> rem[c] == []
    ensures Flatten(rem) == []
  {
    if rem != [] {
      AllEmpty(rem[1..]);
    }
  }

  // ----- writing one term

  /** The counters and the open chunk of the term being written, after the tuples g. */
  datatype Writing = Writing(df: nat, cf: nat, prevNode: nat, maxTf: nat, chunks: seq<seq<Posting>>, chunk: seq<Posting>)

  ghost predicate Written(w: Writing, g: seq<Tuple>, size: nat) {
    && size > 0 && Counted(g, w.df, w.cf, w.maxTf, w.prevNode)
    && InChunks(w.chunks, w.chunk, size, Postings(g))
  }

  /** Counts a tuple and adds its posting, closing the chunk when it is full. */
  method WriteTuple(w: Writing, t: Tuple, size: nat, ghost g: seq<Tuple>) returns (w': Writing)
    requires Written(w, g, size)
    ensures Written(w', g + [t], size)
  {
    CountersStep(g, t);
    var df := if t.node != w.prevNode then w.df + 1 else w.df;
    var cf, maxTf := (w.cf + t.tf) % 0x1_0000_0000, if t.tf > w.maxTf then t.tf else w.maxTf;
    var chunks, chunk := AddPosting(w.chunks, w.chunk, Posting(t.node, t.tf), size, Postings(g));
    w' := Writing(df, cf, t.node, maxTf, chunks, chunk);
  }

  /** Full chunks and an open one hold ps. */
  ghost predicate InChunks(chunks: seq<seq<Posting>>, chunk: seq<Posting>, size: nat, ps: seq<Posting>) {
    && |chunk| < size && Flatten(chunks) + chunk == ps
    && forall c :: 0 <= c < |chunks| ==> |chunks[c]| == size
  }

  method AddPosting(chunks: seq<seq<Posting>>, chunk: seq<Posting>, p: Posting, size: nat, ghost ps: seq<Posting>)
    returns (chunks': seq<seq<Posting>>, chunk': seq<Posting>)
    requires InChunks(chunks, chunk, size, ps)
    ensures InChunks(chunks', chunk', size, ps + [p])
  {
    PostingAppended(chunks, chunk, ps, p);
    if |chunk| + 1 == size {
      chunks', chunk' := chunks + [chunk + [p]], [];
    } else {
      chunks', chunk' := chunks, chunk + [p];
    }
  }

  lemma {:induction false} PostingAppended(chunks: seq<seq<Posting>>, chunk: seq<Posting>, ps: seq<Posting>, p: Posting)
    requires Flatten(chunks) + chunk == ps
    ensures Flatten(chunks) + (chunk + [p]) == ps + [p]
    ensures Flatten(chunks + [chunk + [p]]) + [] == ps + [p]
  {
    FlattenAppend(chunks, chunk + [p]);
    assert Flatten(chunks) + (chunk + [p]) == (Flatten(chunks) + chunk) + [p];
  }

  lemma {:induction false} CountersStep(g: seq<Tuple>, t: Tuple)
    ensures Df(g + [t]) == Df(g) + (if t.node != PrevNode(g) then 1 else 0)
    ensures Cf(g + [t]) == (Cf(g) + t.tf) % 0x1_0000_0000
    ensures GroupMaxTf(g + [t]) == (if t.tf > GroupMaxTf(g) then t.tf else GroupMaxTf(g))
    ensures PrevNode(g + [t]) == t.node
    ensures Postings(g + [t]) == Postings(g) + [Posting(t.node, t.tf)]
  {
    assert (g + [t])[..|g|] == g;
  }

  method FinishTerm(w: Writing, first: Tuple, size: nat, ghost g: seq<Tuple>) returns (e: Entry)
    requires Written(w, g, size) && g != [] && SameTerm(g[0], first)
    ensures e == EntryOf(g, size)
  {
    ChunksInOrder(w.chunks, w.chunk, size, Postings(g));
    var chunks := if |w.chunk| > 0 then w.chunks + [w.chunk] else w.chunks;
    e := Entry(first.hash, first.bytes, w.df, w.cf, w.maxTf, chunks);
  }

  // ----- writing from runs

  /** The first n tuples of s are the ones written, and all of the first tuple's term. */
  ghost predicate InGroup(s: seq<Tuple>, n: nat) {
    n <= |s| && forall i :: 0 <= i < n ==> SameTerm(s[0], s[i])
  }

  lemma {:induction false} GroupEnds(s: seq<Tuple>, n: nat)
    requires 0 < n <= |s| && InGroup(s, n) && (n < |s| ==> !SameTerm(s[0], s[n]))
    ensures GroupLength(s, 1) == n
  {
    var r := GroupLength(s, 1);
    assert !(r < n) && !(n < r);
  }

  /** Merges one term's tuples from the runs into an entry. */
  method MergeTerm(merger: Merger, size: nat, first: Tuple) returns (e: Entry)
    requires merger.Valid() && size > 0 && merger.count > 0
    requires Rest(merger.rem) != [] && first == merger.heap[0].tuple == Rest(merger.rem)[0]
    modifies merger, merger.heap
    ensures merger.Valid()
    ensures var s := old(Rest(merger.rem)); var n := GroupLength(s, 1);
            e == EntryOf(s[..n], size) && Rest(merger.rem) == s[n..]
  {
    ghost var s := Rest(merger.rem);
    var w := Writing(0, 0, UINT32_MAX, 0, [], []);
    var more, t := true, first;
    ghost var n: nat := 0;
    assert s[..0] == [];
    while more && SameTerm(t, first)
      invariant Merging(merger, s, n, more, t) && WritingGroup(w, s, n, size)
      invariant n == 0 ==> more && t == first
      decreases |s| - n
    {
      w := WriteNext(w, t, size, s, n);
      more, t := NextTuple(merger, s, n, t);
      n := n + 1;
    }
    e := FinishGroup(w, first, size, s, n);
  }

  /** The first n tuples of s, all of one term, are written. */
  ghost predicate WritingGroup(w: Writing, s: seq<Tuple>, n: nat, size: nat) {
    InGroup(s, n) && Written(w, s[..n], size)
  }

  method WriteNext(w: Writing, t: Tuple, size: nat, ghost s: seq<Tuple>, ghost n: nat) returns (w': Writing)
    requires WritingGroup(w, s, n, size) && n < |s| && t == s[n] && SameTerm(s[0], s[n])
    ensures WritingGroup(w', s, n + 1, size)
  {
    assert s[..n + 1] == s[..n] + [t];
    w' := WriteTuple(w, t, size, s[..n]);
  }

  method FinishGroup(w: Writing, first: Tuple, size: nat, ghost s: seq<Tuple>, ghost n: nat) returns (e: Entry)
    requires WritingGroup(w, s, n, size) && 0 < n && first == s[0] && (n < |s| ==> !SameTerm(s[0], s[n]))
    ensures n == GroupLength(s, 1) && e == EntryOf(s[..n], size)
  {
    GroupEnds(s, n);
    e := FinishTerm(w, first, size, s[..n]);
  }

  /** n tuples of s have been merged; t is the next one, if there are more. */
  ghost predicate Merging(merger: Merger, s: seq<Tuple>, n: nat, more: bool, t: Tuple)
    reads merger, merger.heap
  {
    && merger.Valid() && n <= |s| && Rest(merger.rem) == s[n..]
    && (more <==> n < |s|)
    && (more ==> merger.count > 0 && t == merger.heap[0].tuple == s[n])
  }

  method NextTuple(merger: Merger, ghost s: seq<Tuple>, ghost n: nat, ghost t: Tuple) returns (more: bool, t': Tuple)
    requires Merging(merger, s, n, true, t)
    modifies merger, merger.heap
    ensures Merging(merger, s, n + 1, more, t')
  {
    merger.Advance();
    RestDropped(s, n, Rest(merger.rem));
    more, t' := merger.Peek();
  }

  lemma {:induction false} RestDropped(s: seq<Tuple>, n: nat, rest: seq<Tuple>)
    requires n < |s| && s[n..] == [s[n]] + rest
    ensures rest == s[n + 1..]
  {
    assert s[n..][1..] == s[n + 1..];
  }

  lemma {:induction false} LexiconStep(entries: seq<Entry>, s: seq<Tuple>, size: nat, all: seq<Entry>)
    requires s != [] && size > 0 && entries + Lexicon(s, size) == all
    ensures var n := GroupLength(s, 1); entries + [EntryOf(s[..n], size)] + Lexicon(s[n..], size) == all
  {
  }

  /** Merging the runs writes the lexicon of all their tuples in order. */
  method WriteFromRuns(runs: seq<seq<Tuple>>, size: nat) returns (entries: seq<Entry>)
    requires SortedRuns(runs) && DistinctKeys(Flatten(runs)) && size > 0
    ensures entries == Lexicon(Rest(runs), size)
  {
    var merger := new Merger(runs);
    entries := [];
    var more, first := merger.Peek();
    while more
      invariant merger.Valid() && fresh(merger) && fresh(merger.heap)
      invariant entries + Lexicon(Rest(merger.rem), size) == Lexicon(Rest(runs), size)
      invariant more <==> Rest(merger.rem) != []
      invariant more ==> merger.count > 0 && first == merger.heap[0].tuple == Rest(merger.rem)[0]
      decreases |Rest(merger.rem)|
    {
      ghost var s, all := Rest(merger.rem), Lexicon(Rest(runs), size);
      var e := MergeTerm(merger, size, first);
      LexiconStep(entries, s, size, all);
      entries := entries + [e];
      more, first := merger.Peek();
    }
  }

  // ----- writing in memory

  method WriteChunks(ps: seq<Posting>, size: nat) returns (chunks: seq<seq<Posting>>)
    requires size > 0
    ensures chunks == Chunked(ps, size)
  {
    chunks := [];
    var start: nat := 0;
    assert ps[0..] == ps;
    while start < |ps|
      invariant start <= |ps| && chunks + Chunked(ps[start..], size) == Chunked(ps, size)
    {
      var end := Min(start + size, |ps|);
      ghost var rest := ps[start..];
      assert end < |ps| ==> rest[..size] == ps[start..end] && rest[size..] == ps[end..];
      assert end == |ps| ==> rest == ps[start..end] && ps[end..] == [];
      chunks := chunks + [ps[start..end]];
      start := end;
    }
  }

  ghost predicate Counted(g: seq<Tuple>, df: nat, cf: nat, maxTf: nat, prevNode: nat) {
    df == Df(g) && cf == Cf(g) && maxTf == GroupMaxTf(g) && prevNode == PrevNode(g)
  }

  lemma {:induction false} CountedStep(terms: seq<Tuple>, start: nat, end: nat, df: nat, cf: nat, maxTf: nat,
                                       prevNode: nat)
    requires start <= end < |terms| && Counted(terms[start..end], df, cf, maxTf, prevNode)
    ensures var t := terms[end];
            Counted(terms[start..end + 1], if t.node != prevNode then df + 1 else df, (cf + t.tf) % 0x1_0000_0000,
                    if t.tf > maxTf then t.tf else maxTf, t.node)
  {
    assert terms[start..end + 1] == terms[start..end] + [terms[end]];
    CountersStep(terms[start..end], terms[end]);
  }

  /** Counts df, cf and the largest tf of the tuples from start on that are of one term. */
  method CountGroup(terms: seq<Tuple>, start: nat) returns (end: nat, df: nat, cf: nat, maxTf: nat)
    requires start < |terms|
    ensures end == start + GroupLength(terms[start..], 1)
    ensures var g := terms[start..end]; df == Df(g) && cf == Cf(g) && maxTf == GroupMaxTf(g)
  {
    var first := terms[start];
    var prevNode := UINT32_MAX;
    end, df, cf, maxTf := start, 0, 0, 0;
    ghost var s := terms[start..];
    assert terms[start..start] == [];
    while end < |terms| && SameTerm(first, terms[end])
      invariant start <= end <= |terms| && InGroup(s, end - start)
      invariant Counted(terms[start..end], df, cf, maxTf, prevNode)
    {
      var t := terms[end];
      CountedStep(terms, start, end, df, cf, maxTf, prevNode);
      df, prevNode := if t.node != prevNode then df + 1 else df, t.node;
      cf, maxTf := (cf + t.tf) % 0x1_0000_0000, if t.tf > maxTf then t.tf else maxTf;
      end := end + 1;
    }
    GroupEnds(s, end - start);
  }

  method WriteGroup(terms: seq<Tuple>, start: nat, size: nat) returns (e: Entry, end: nat)
    requires start < |terms| && size > 0
    ensures start < end <= |terms| && end - start == GroupLength(terms[start..], 1)
    ensures e == EntryOf(terms[start..][..end - start], size)
  {
    var df, cf, maxTf;
    end, df, cf, maxTf := CountGroup(terms, start);
    assert terms[start..][..end - start] == terms[start..end];
    var chunks := WriteChunks(Postings(terms[start..end]), size);
    e := Entry(terms[start].hash, terms[start].bytes, df, cf, maxTf, chunks);
  }

  lemma {:induction false} GroupWritten(entries: seq<Entry>, terms: seq<Tuple>, i: nat, end: nat, e: Entry, size: nat,
                                        all: seq<Entry>)
    requires i < end <= |terms| && size > 0 && entries + Lexicon(terms[i..], size) == all
    requires end - i == GroupLength(terms[i..], 1) && e == EntryOf(terms[i..][..end - i], size)
    ensures entries + [e] + Lexicon(terms[end..], size) == all
  {
    LexiconStep(entries, terms[i..], size, all);
    assert terms[i..][end - i..] == terms[end..];
  }

  method WriteInMemory(terms: seq<Tuple>, size: nat) returns (entries: seq<Entry>)
    requires size > 0
    ensures entries == Lexicon(terms, size)
  {
    entries := [];
    var i: nat := 0;
    assert terms[0..] == terms;
    while i < |terms|
      invariant i <= |terms| && entries + Lexicon(terms[i..], size) == Lexicon(terms, size)
    {
      var e, end := WriteGroup(terms, i, size);
      GroupWritten(entries, terms, i, end, e, size, Lexicon(terms, size));
      entries := entries + [e];
      i := end;
    }
  }

  // ----- the collector

  /** Sizes of the source's records, and the rest of what counts against the budget. */
  datatype Budget = Budget(limit: nat, tupleSize: nat, docSize: nat, mapBytes: nat, allowSpill: bool)

  /** Slots of the document array, which doubles from 1024 on. */
  function DocSlots(docCount: nat): nat {
    if docCount == 0 then 0 else GrowCapacity(1024, docCount)
  }

  /** What no spill can help: the node map and the document array. */
  function FixedBytes(b: Budget, slots: nat): nat {
    b.mapBytes + slots * b.docSize
  }

  /** Spilling helps: with so many documents and without any term the budget holds. */
  predicate Ample(b: Budget, docCount: nat) {
    b.allowSpill && FixedBytes(b, DocSlots(docCount)) <= b.limit
  }

  /** The bytes of so many terms. */
  ghost function TermBytes(terms: seq<Tuple>): nat {
    if terms == [] then 0 else TermBytes(terms[..|terms| - 1]) + |terms[|terms| - 1].bytes|
  }

  /** The memory in use: documents by capacity, tuples and term bytes by number, and the node map. */
  ghost function BytesInUse(b: Budget, docs: seq<BuildDoc>, terms: seq<Tuple>): nat {
    b.mapBytes + DocSlots(|docs|) * b.docSize + |terms| * b.tupleSize + TermBytes(terms)
  }

  /** The runs are sorted, and with the tuples in memory hold everything added, each as often. */
  ghost predicate Together(added: seq<Tuple>, runs: seq<seq<Tuple>>, terms: seq<Tuple>) {
    SortedRuns(runs) && multiset(added) == multiset(Flatten(runs)) + multiset(terms)
  }

  class Collector {
    const budget: Budget
    var docs: seq<BuildDoc>
    var docCount: nat
    var docCapacity: nat
    var totalDocLen: nat
    var terms: seq<Tuple>
    var termCapacity: nat
    var termBytesUsed: nat
    var termBytesCapacity: nat
    var runs: seq<seq<Tuple>>
    ghost var added: seq<Tuple>

    /** Nothing added is lost or duplicated, wherever the spills fell. */
    ghost predicate Valid()
      reads this
    {
      && Together(added, runs, terms)
      && termBytesUsed == TermBytes(terms)
      && docCount == |docs| && docCapacity == DocSlots(docCount) && totalDocLen == ListedLen(docs)
    }

    /** With so many documents a budget that is ample does not fail. */
    predicate Affords(ok: bool)
      reads this
    {
      Ample(budget, docCount) ==> ok
    }

    /** The memory in use exceeds the budget. */
    predicate Over()
      reads this
      ensures Valid() ==> (Over() <==> BytesInUse(budget, docs, terms) > budget.limit)
    {
      FixedBytes(budget, docCapacity) + |terms| * budget.tupleSize + termBytesUsed > budget.limit
    }

    constructor (budget: Budget)
      ensures Valid() && added == [] && docs == [] && this.budget == budget
    {
      this.budget, docs, docCount, docCapacity, totalDocLen := budget, [], 0, 0, 0;
      terms, termCapacity, termBytesUsed, termBytesCapacity, runs, added := [], 0, 0, 0, [], [];
    }

    method SpillTermRun()
      requires Valid()
      modifies this
      ensures Valid() && added == old(added) && terms == [] && docs == old(docs)
      ensures termBytesUsed <= old(termBytesUsed) && termBytesCapacity == old(termBytesCapacity)
      ensures runs == if old(terms) == [] then old(runs) else old(runs) + [SortBy(Before, old(terms))]
    {
      if |terms| == 0 {
        return;
      }
      SpillKeeps(added, runs, terms);
      TakeRun(SortBy(Before, terms));
    }

    /** The run takes the place of the tuples in memory. */
    method TakeRun(run: seq<Tuple>)
      requires Together(added, runs + [run], [])
      modifies this`runs, this`terms, this`termBytesUsed
      ensures runs == old(runs) + [run] && terms == [] && termBytesUsed == TermBytes(terms) && Together(added, runs, terms)
    {
      runs := runs + [run];
      terms, termBytesUsed := [], 0;
    }

    /** Over the budget: spill if that is allowed and there is something to spill, else give up. */
    method CheckBudget() returns (ok: bool)
      requires Valid()
      modifies this
      ensures Valid() && added == old(added) && docs == old(docs)
      ensures termBytesUsed <= old(termBytesUsed) && termBytesCapacity == old(termBytesCapacity)
      ensures Ample(budget, docCount) ==> ok && !Over()
      ensures var over := BytesInUse(budget, old(docs), old(terms)) > budget.limit;
              && (ok <==> !over || (budget.allowSpill && |old(terms)| > 0))
              && (ok && over ==> terms == [] && runs == old(runs) + [SortBy(Before, old(terms))])
              && (!ok || !over ==> terms == old(terms) && runs == old(runs))
    {
      ok := true;
      if Over() {
        if budget.allowSpill && |terms| > 0 {
          SpillTermRun();
        } else {
          ok := false;
        }
      }
    }

    /** Room for the tuple and its bytes; growing either arena checks the budget. */
    method Reserve(len: nat) returns (ok: bool)
      requires Valid()
      modifies this
      ensures Valid() && added == old(added) && docs == old(docs)
      ensures ok ==> termBytesUsed + len <= termBytesCapacity
      ensures Ample(budget, docCount) ==> ok
    {
      ok := true;
      if |terms| >= termCapacity {
        termCapacity := GrowCapacity(if termCapacity == 0 then 4096 else termCapacity, |terms| + 1);
        ok := CheckBudget();
      }
      if ok && termBytesUsed + len > termBytesCapacity {
        termBytesCapacity := GrowCapacity(if termBytesCapacity == 0 then 65536 else termBytesCapacity, termBytesUsed + len);
        ok := CheckBudget();
      }
    }

    /** One more document; growing the array checks the budget, which may spill terms or fail. */
    method AppendBuildDoc(node: nat, docLen: nat) returns (ok: bool)
      requires Valid()
      modifies this
      ensures Valid() && added == old(added) && docs == old(docs) + [BuildDoc(node, docLen)]
      ensures Affords(ok)
      ensures old(docCount) < old(docCapacity) ==> ok && terms == old(terms) && runs == old(runs)
    {
      ok := true;
      var full := docCount >= docCapacity;
      CountDoc(BuildDoc(node, docLen));
      if full {
        ok := CheckBudget();
      }
    }

    /** Room for one more document, which then takes it. */
    method CountDoc(d: BuildDoc)
      requires docCount == |docs| && docCapacity == DocSlots(docCount) && totalDocLen == ListedLen(docs)
      modifies this`docs, this`docCount, this`docCapacity, this`totalDocLen
      ensures docs == old(docs) + [d] && docCount == |docs| && docCapacity == DocSlots(docCount) && totalDocLen == ListedLen(docs)
    {
      assert (docs + [d])[..|docs|] == docs;
      SlotsStep(docCount);
      if docCount >= docCapacity {
        docCapacity := GrowCapacity(if docCapacity == 0 then 1024 else docCapacity, docCount + 1);
      }
      docs, docCount, totalDocLen := docs + [d], docCount + 1, totalDocLen + d.docLen;
    }

    method AppendBuildTerm(hash: nat, bytes: seq<nat>, node: nat, tf: nat) returns (ok: bool)
      requires Valid()
      modifies this
      ensures Valid() && docs == old(docs)
      ensures ok ==> added == if bytes == [] then old(added) else old(added) + [Tuple(hash, bytes, node, if tf > 0 then tf else 1)]
      ensures Ample(budget, docCount) ==> ok && (bytes != [] ==> !Over())
    {
      if |bytes| == 0 {
        return true;
      }
      ok := Reserve(|bytes|);
      if !ok {
        return;
      }
      AddTuple(Tuple(hash, bytes, node, if tf > 0 then tf else 1));
      ok := CheckBudget();
    }

    method AddTuple(t: Tuple)
      requires Together(added, runs, terms) && termBytesUsed == TermBytes(terms)
      modifies this`terms, this`termBytesUsed, this`added
      ensures Together(added, runs, terms) && termBytesUsed == TermBytes(terms)
      ensures terms == old(terms) + [t] && added == old(added) + [t]
    {
      assert (terms + [t])[..|terms|] == terms;
      terms, termBytesUsed, added := terms + [t], termBytesUsed + |t.bytes|, added + [t];
    }

    /**
     However small the budget and wherever the spills fell, the lexicon written is that of the
     in-memory sort of everything added.
     */
    method WriteLexicon(size: nat) returns (entries: seq<Entry>)
      requires Valid() && DistinctKeys(added) && size > 0
      modifies this
      ensures entries == Lexicon(SortBy(Before, old(added)), size)
    {
      if |runs| > 0 {
        SpillTermRun();
        assert multiset(terms) == multiset{};
        SameMultisetDistinctKeys(added, Flatten(runs));
        SameSort(added, Flatten(runs));
        entries := WriteFromRuns(runs, size);
      } else {
        assert Flatten(runs) == [];
        BeforeIsWeakOrder();
        SortBySorts(Before, terms);
        SortedIsUnique(added, SortBy(Before, terms));
        terms := SortBy(Before, terms);
        entries := WriteInMemory(terms, size);
      }
    }
  }

  /** Moving the tuples in memory to a sorted run keeps everything added. */
  lemma {:induction false} SpillKeeps(added: seq<Tuple>, runs: seq<seq<Tuple>>, terms: seq<Tuple>)
    requires Together(added, runs, terms)
    ensures Together(added, runs + [SortBy(Before, terms)], [])
  {
    RunAdded(runs, terms);
  }

  /** Growing by need, one document at a time, doubles the array as growing at once would. */
  lemma {:induction false} SlotsStep(n: nat)
    ensures n < DocSlots(n) ==> DocSlots(n + 1) == DocSlots(n)
    ensures n >= DocSlots(n) ==> DocSlots(n + 1) == GrowCapacity(if DocSlots(n) == 0 then 1024 else DocSlots(n), n + 1)
    ensures n <= DocSlots(n)
  {
    if n > 0 {
      GrowOn(1024, n);
    }
  }

  lemma {:induction false} GrowOn(c: nat, n: nat)
    requires c > 0
    ensures n < GrowCapacity(c, n) ==> GrowCapacity(c, n + 1) == GrowCapacity(c, n)
    ensures GrowCapacity(GrowCapacity(c, n), n + 1) == GrowCapacity(c, n + 1)
    decreases n - c
  {
    if c < n {
      GrowOn(2 * c, n);
    }
  }

  lemma {:induction false} GrowMonotone(c: nat, n: nat, m: nat)
    requires c > 0 && n <= m
    ensures GrowCapacity(c, n) <= GrowCapacity(c, m)
    decreases m - c
  {
    if c < m {
      GrowMonotone(2 * c, n, m);
    }
  }

  /** A budget that is ample for more documents is ample for fewer. */
  lemma {:induction false} AmpleForFewer(b: Budget, n: nat, m: nat)
    requires n <= m && Ample(b, m)
    ensures Ample(b, n)
  {
    if n > 0 {
      GrowMonotone(1024, n, m);
    }
    var x, y := DocSlots(n), DocSlots(m);
    assert x <= y;
    assert x * b.docSize <= y * b.docSize;
  }

  function GrowCapacity(capacity: nat, needed: nat): (r: nat)
    requires capacity > 0
    ensures r >= needed && r >= capacity && (r == capacity || r < 2 * needed)
    decreases needed - capacity
  {
    if capacity < needed then GrowCapacity(2 * capacity, needed) else capacity
  }

  lemma {:induction false} RunAdded(runs: seq<seq<Tuple>>, terms: seq<Tuple>)
    requires SortedRuns(runs)
    ensures SortedRuns(runs + [SortBy(Before, terms)])
    ensures multiset(Flatten(runs + [SortBy(Before, terms)])) == multiset(Flatten(runs)) + multiset(terms)
  {
    BeforeIsWeakOrder();
    SortBySorts(Before, terms);
    FlattenAppend(runs, SortBy(Before, terms));
  }

  lemma {:induction false} SameSort(s: seq<Tuple>, t: seq<Tuple>)
    requires DistinctKeys(s) && multiset(s) == multiset(t)
    ensures SortBy(Before, t) == SortBy(Before, s)
  {
    BeforeIsWeakOrder();
    SortBySorts(Before, t);
    SortedIsUnique(s, SortBy(Before, t));
  }
}
