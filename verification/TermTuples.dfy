/** Collected term occurrences, their order, and the lexicon written from a sorted list of them. */
module TermTuples {
  import opened Integers
  import opened Sequences
  import opened Ranking

  /** One term of one document. */
  datatype Tuple = Tuple(hash: nat, bytes: seq<nat>, node: nat, tf: nat)

  /** memcmp of two terms of the same length. */
  predicate LexLess(a: seq<nat>, b: seq<nat>) {
    if a == [] || b == [] then false
    else if a[0] != b[0] then a[0] < b[0]
    else LexLess(a[1..], b[1..])
  }

  /** Term order: hash, then length, then bytes. */
  predicate TermLess(a: Tuple, b: Tuple) {
    if a.hash != b.hash then a.hash < b.hash
    else if |a.bytes| != |b.bytes| then |a.bytes| < |b.bytes|
    else LexLess(a.bytes, b.bytes)
  }

  predicate SameTerm(a: Tuple, b: Tuple) {
    a.hash == b.hash && a.bytes == b.bytes
  }

  predicate TupleBefore(a: Tuple, b: Tuple) {
    TermLess(a, b) || (SameTerm(a, b) && a.node < b.node)
  }

  const Before: (Tuple, Tuple) -> bool := TupleBefore

  lemma {:induction false} LexOrder(a: seq<nat>, b: seq<nat>, c: seq<nat>)
    requires |a| == |b| == |c|
    ensures !LexLess(a, a)
    ensures LexLess(a, b) && LexLess(b, c) ==> LexLess(a, c)
    ensures LexLess(a, b) || LexLess(b, a) || a == b
  {
    if a != [] {
      LexOrder(a[1..], b[1..], c[1..]);
      assert a == [a[0]] + a[1..] && b == [b[0]] + b[1..];
    }
  }

  lemma {:induction false} TermOrder(a: Tuple, b: Tuple, c: Tuple)
    ensures !TermLess(a, a)
    ensures TermLess(a, b) && TermLess(b, c) ==> TermLess(a, c)
    ensures TermLess(a, b) || TermLess(b, a) || SameTerm(a, b)
    ensures TermLess(a, b) ==> !TermLess(b, a)
  {
    LexOrder(a.bytes, a.bytes, a.bytes);
    if |a.bytes| == |b.bytes| {
      LexOrder(a.bytes, b.bytes, a.bytes);
      if |b.bytes| == |c.bytes| {
        LexOrder(a.bytes, b.bytes, c.bytes);
      }
    }
  }

  lemma {:induction false} BeforeIsWeakOrder()
    ensures WeakOrder(Before)
  {
    forall a, b, c
      ensures !Before(a, a)
      ensures Before(a, b) && Before(b, c) ==> Before(a, c)
      ensures Before(a, c) ==> Before(a, b) || Before(b, c)
    {
      TermOrder(a, b, c);
      TermOrder(b, c, a);
      TermOrder(a, c, b);
    }
  }

  /** Every document has each of its terms once. */
  ghost predicate DistinctKeys(s: seq<Tuple>) {
    forall i, j :: 0 <= i < j < |s| ==> !(SameTerm(s[i], s[j]) && s[i].node == s[j].node)
  }

  lemma {:induction false} KeysAreRankable(s: seq<Tuple>)
    requires DistinctKeys(s)
    ensures Distinct(s) && TotalOn(Before, Elements(s)) && WeakOrder(Before)
  {
    BeforeIsWeakOrder();
    forall x, y | x in Elements(s) && y in Elements(s) && x != y
      ensures Before(x, y) || Before(y, x)
    {
      var i :| 0 <= i < |s| && s[i] == x;
      var j :| 0 <= j < |s| && s[j] == y;
      assert i < j || j < i;
      TermOrder(x, y, x);
    }
  }

  lemma {:induction false} SameMultisetDistinctKeys(s: seq<Tuple>, t: seq<Tuple>)
    requires multiset(s) == multiset(t) && DistinctKeys(s)
    ensures DistinctKeys(t)
  {
    KeysAreRankable(s);
    SameMultisetDistinct(s, t);
    forall i, j | 0 <= i < j < |t|
      ensures !(SameTerm(t[i], t[j]) && t[i].node == t[j].node)
    {
      assert t[i] in Elements(t) && t[j] in Elements(t);
      var a :| 0 <= a < |s| && s[a] == t[i];
      var b :| 0 <= b < |s| && s[b] == t[j];
      assert a < b || b < a;
    }
  }

  /** There is one way to sort tuples with distinct keys. */
  lemma {:induction false} SortedIsUnique(s: seq<Tuple>, t: seq<Tuple>)
    requires DistinctKeys(s) && multiset(s) == multiset(t) && Sorted(Before, t)
    ensures t == SortBy(Before, s)
  {
    KeysAreRankable(s);
    var r := SortBy(Before, s);
    SortBySorts(Before, s);
    SameMultisetDistinct(s, t);
    SameMultisetDistinct(s, r);
    DistinctSize(s);
    SortedIsTopK(Before, Elements(s), |s|, r);
    SortedIsTopK(Before, Elements(s), |s|, t);
    UniqueTopK(Before, Elements(s), |s|, r, t);
  }

  // ----- the lexicon

  datatype Posting = Posting(node: nat, tf: nat)

  /** A lexicon entry with its postings chunks. */
  datatype Entry = Entry(hash: nat, bytes: seq<nat>, df: nat, cf: nat, maxTf: nat, chunks: seq<seq<Posting>>)

  function Postings(g: seq<Tuple>): (ps: seq<Posting>)
    ensures |ps| == |g| && forall i :: 0 <= i < |g| ==> ps[i] == Posting(g[i].node, g[i].tf)
  {
    seq(|g|, i requires 0 <= i < |g| => Posting(g[i].node, g[i].tf))
  }

  /** The node the counting loops remember; at first one that cannot occur. */
  function PrevNode(g: seq<Tuple>): nat {
    if g == [] then UINT32_MAX else g[|g| - 1].node
  }

  /** Document frequency: a new document at every change of node. */
  function Df(g: seq<Tuple>): nat {
    if g == [] then 0
    else
      var t := g[|g| - 1];
      Df(g[..|g| - 1]) + if t.node != PrevNode(g[..|g| - 1]) then 1 else 0
  }

  /** Collection frequency, a 32-bit counter. */
  function Cf(g: seq<Tuple>): nat {
    if g == [] then 0 else (Cf(g[..|g| - 1]) + g[|g| - 1].tf) % 0x1_0000_0000
  }

  function GroupMaxTf(g: seq<Tuple>): nat {
    if g == [] then 0
    else
      var t := g[|g| - 1];
      var m := GroupMaxTf(g[..|g| - 1]);
      if t.tf > m then t.tf else m
  }

  /** Postings cut into chunks of the given size. */
  function Chunked(ps: seq<Posting>, size: nat): seq<seq<Posting>>
    requires size > 0
  {
    if ps == [] then []
    else if |ps| <= size then [ps]
    else [ps[..size]] + Chunked(ps[size..], size)
  }

  /** How many tuples at the start of s are of the same term as the first. */
  function GroupLength(s: seq<Tuple>, n: nat): (r: nat)
    requires 0 < n <= |s|
    ensures n <= r <= |s|
    ensures forall i :: n <= i < r ==> SameTerm(s[0], s[i])
    ensures r < |s| ==> !SameTerm(s[0], s[r])
    decreases |s| - n
  {
    if n < |s| && SameTerm(s[0], s[n]) then GroupLength(s, n + 1) else n
  }

  function EntryOf(g: seq<Tuple>, size: nat): Entry
    requires g != [] && size > 0
  {
    Entry(g[0].hash, g[0].bytes, Df(g), Cf(g), GroupMaxTf(g), Chunked(Postings(g), size))
  }

  /** What is written from sorted tuples: an entry per term, term ids in order. */
  function Lexicon(s: seq<Tuple>, size: nat): seq<Entry>
    requires size > 0
    decreases |s|
  {
    if s == [] then []
    else
      var n := GroupLength(s, 1);
      [EntryOf(s[..n], size)] + Lexicon(s[n..], size)
  }

  /** In a sorted list each document of a term comes once, so df counts its postings. */
  lemma {:induction false} DfCounts(g: seq<Tuple>)
    requires forall i :: 0 <= i < |g| ==> g[i].node < UINT32_MAX && SameTerm(g[i], g[0])
    requires DistinctKeys(g)
    ensures Df(g) == |g|
  {
    if g != [] {
      var p := g[..|g| - 1];
      DfCounts(p);
      if p != [] {
        assert g[|p| - 1] == p[|p| - 1];
        assert SameTerm(g[|p| - 1], g[0]) && SameTerm(g[|p|], g[0]);
      }
    }
  }

  /** Walking the chunks gives back the whole list. */
  lemma {:induction false} ChunkedFlattens(ps: seq<Posting>, size: nat)
    requires size > 0
    ensures Flatten(Chunked(ps, size)) == ps
    ensures forall c :: 0 <= c < |Chunked(ps, size)| ==> 0 < |Chunked(ps, size)[c]| <= size
  {
    if ps != [] {
      if |ps| <= size {
        assert [ps][1..] == [];
        assert ps + Flatten<Posting>([]) == ps;
      } else {
        ChunkedFlattens(ps[size..], size);
        var c := [ps[..size]] + Chunked(ps[size..], size);
        assert c[1..] == Chunked(ps[size..], size);
        assert ps[..size] + ps[size..] == ps;
      }
    }
  }

  /** Full chunks followed by a shorter rest are the chunks of the whole. */
  lemma {:induction false} ChunksInOrder(done: seq<seq<Posting>>, rest: seq<Posting>, size: nat, ps: seq<Posting>)
    requires size > 0 && |rest| < size && ps == Flatten(done) + rest
    requires forall c :: 0 <= c < |done| ==> |done[c]| == size
    ensures Chunked(ps, size) == if rest == [] then done else done + [rest]
    decreases |done|
  {
    if done == [] {
      assert ps == rest;
    } else {
      var tail := Flatten(done[1..]) + rest;
      assert ps == done[0] + tail;
      assert ps[..size] == done[0] && ps[size..] == tail;
      ChunksInOrder(done[1..], rest, size, tail);
      assert done == [done[0]] + done[1..];
      if tail == [] {
        LongerThanChunk(done[1..]);
        assert done[1..] == [];
        assert Chunked(ps, size) == [ps] && ps == done[0];
      }
    }
  }

  lemma {:induction false} LongerThanChunk(done: seq<seq<Posting>>)
    requires Flatten(done) == [] && forall c :: 0 <= c < |done| ==> |done[c]| > 0
    ensures done == []
  {
  }
}
