/**
 What a lexicon holds, over the tuples it was written from: one entry for each term, in the
 order of hash, length and bytes, with every posting of the term by node, the counts of these
 postings, and chunks that are full but for the last.
 */
module LexiconLaws {
  import opened Integers
  import opened Sequences
  import opened Ranking
  import opened TermTuples

  // ----- order of terms

  /** The first byte in which they differ is smaller. */
  ghost predicate FirstDiffers(a: seq<nat>, b: seq<nat>) {
    exists k :: 0 <= k < |a| && k < |b| && a[k] < b[k] && forall i :: 0 <= i < k ==> a[i] == b[i]
  }

  lemma {:induction false} LexLessIs(a: seq<nat>, b: seq<nat>)
    ensures LexLess(a, b) <==> FirstDiffers(a, b)
  {
    if a != [] && b != [] {
      LexLessIs(a[1..], b[1..]);
      if a[0] == b[0] {
        if k :| 0 <= k < |a[1..]| && k < |b[1..]| && a[1..][k] < b[1..][k] && forall i :: 0 <= i < k ==> a[1..][i] == b[1..][i] {
          forall i | 0 <= i < k + 1
            ensures a[i] == b[i]
          {
            assert i > 0 ==> a[1..][i - 1] == b[1..][i - 1];
          }
          assert a[k + 1] < b[k + 1];
        }
        if k :| 0 <= k < |a| && k < |b| && a[k] < b[k] && forall i :: 0 <= i < k ==> a[i] == b[i] {
          forall i | 0 <= i < k - 1
            ensures a[1..][i] == b[1..][i]
          {
            assert a[i + 1] == b[i + 1];
          }
          assert a[1..][k - 1] < b[1..][k - 1];
        }
      }
    }
  }

  /** By hash; at equal hashes the shorter term; at equal lengths by the first differing byte. */
  ghost predicate InTermOrder(hash: nat, bytes: seq<nat>, hash': nat, bytes': seq<nat>) {
    || hash < hash' || (hash == hash' && |bytes| < |bytes'|)
    || (hash == hash' && |bytes| == |bytes'| && FirstDiffers(bytes, bytes'))
  }

  lemma {:induction false} TermLessIs(a: Tuple, b: Tuple)
    ensures TermLess(a, b) <==> InTermOrder(a.hash, a.bytes, b.hash, b.bytes)
  {
    LexLessIs(a.bytes, b.bytes);
  }

  // ----- counts of a group

  /** The frequencies of postings, added up. */
  ghost function TfSum(ps: seq<Posting>): nat {
    if ps == [] then 0 else ps[0].tf + TfSum(ps[1..])
  }

  lemma {:induction false} TfSumAppend(ps: seq<Posting>, p: Posting)
    ensures TfSum(ps + [p]) == TfSum(ps) + p.tf
  {
    if ps == [] {
      assert [p][1..] == [] && ps + [p] == [p];
    } else {
      assert (ps + [p])[1..] == ps[1..] + [p];
      TfSumAppend(ps[1..], p);
    }
  }

  /** The 32-bit counter holds the sum of the frequencies, modulo 2^32. */
  lemma {:induction false} CfIs(g: seq<Tuple>)
    ensures Cf(g) == TfSum(Postings(g)) % 0x1_0000_0000
  {
    if g != [] {
      var p, t := g[..|g| - 1], g[|g| - 1];
      CfIs(p);
      assert Postings(g) == Postings(p) + [Posting(t.node, t.tf)];
      TfSumAppend(Postings(p), Posting(t.node, t.tf));
    }
  }

  ghost predicate IsLargestTf(m: nat, ps: seq<Posting>) {
    (forall i :: 0 <= i < |ps| ==> ps[i].tf <= m) && exists i :: 0 <= i < |ps| && ps[i].tf == m
  }

  lemma {:induction false} MaxTfIs(g: seq<Tuple>)
    requires g != []
    ensures IsLargestTf(GroupMaxTf(g), Postings(g))
  {
    var p, t := g[..|g| - 1], g[|g| - 1];
    var ps := Postings(g);
    assert ps[|p|].tf == t.tf;
    if p != [] {
      MaxTfIs(p);
      var i :| 0 <= i < |p| && Postings(p)[i].tf == GroupMaxTf(p);
      assert ps[i].tf == Postings(p)[i].tf;
      forall k | 0 <= k < |ps|
        ensures ps[k].tf <= GroupMaxTf(g)
      {
        assert k < |p| ==> ps[k] == Postings(p)[k];
      }
    }
  }

  // ----- chunks

  /** All chunks are full but the last, which is not empty. */
  ghost predicate Full(chunks: seq<seq<Posting>>, size: nat) {
    forall c :: 0 <= c < |chunks| ==> if c < |chunks| - 1 then |chunks[c]| == size else 0 < |chunks[c]| <= size
  }

  lemma {:induction false} ChunkedIsFull(ps: seq<Posting>, size: nat)
    requires size > 0
    ensures Full(Chunked(ps, size), size) && (ps != [] ==> Chunked(ps, size) != [])
    decreases |ps|
  {
    if |ps| > size {
      ChunkedIsFull(ps[size..], size);
      var tail := Chunked(ps[size..], size);
      var all := [ps[..size]] + tail;
      forall c | 0 <= c < |all|
        ensures if c < |all| - 1 then |all[c]| == size else 0 < |all[c]| <= size
      {
        assert c > 0 ==> all[c] == tail[c - 1];
      }
    }
  }

  // ----- entries

  /** All tuples of one term, side by side. */
  ghost predicate IsGroup(s: seq<Tuple>, lo: nat, hi: nat) {
    lo < hi <= |s| && forall i :: 0 <= i < |s| ==> (lo <= i < hi <==> SameTerm(s[lo], s[i]))
  }

  lemma {:induction false} FirstIsGroup(s: seq<Tuple>, n: nat)
    requires Sorted(Before, s) && s != [] && n == GroupLength(s, 1)
    ensures IsGroup(s, 0, n)
  {
    forall i | n <= i < |s|
      ensures !SameTerm(s[0], s[i])
    {
      TermOrder(s[0], s[n], s[i]);
      assert !Before(s[n], s[0]);
      assert i > n ==> !Before(s[i], s[n]);
    }
  }

  /** What comes after a group is of greater terms. */
  lemma {:induction false} LaterIsGreater(s: seq<Tuple>, i: nat, j: nat)
    requires Sorted(Before, s) && i < j < |s| && !SameTerm(s[i], s[j])
    ensures TermLess(s[i], s[j])
  {
    assert !Before(s[j], s[i]);
    TermOrder(s[i], s[j], s[i]);
  }

  /** The first entry, and the others from the tuples after its group. */
  lemma {:induction false} EntryAt(s: seq<Tuple>, size: nat, n: nat, k: nat)
    requires s != [] && size > 0 && n == GroupLength(s, 1) && k < |Lexicon(s, size)|
    ensures k == 0 ==> Lexicon(s, size)[k] == EntryOf(s[..n], size)
    ensures k > 0 ==> k - 1 < |Lexicon(s[n..], size)| && Lexicon(s, size)[k] == Lexicon(s[n..], size)[k - 1]
  {
  }

  lemma {:induction false} TailIsSorted(s: seq<Tuple>, n: nat)
    requires Sorted(Before, s) && n <= |s|
    ensures Sorted(Before, s[n..])
    ensures DistinctKeys(s) ==> DistinctKeys(s[n..])
  {
  }

  ghost predicate OfTuple(e: Entry, t: Tuple) { e.hash == t.hash && e.bytes == t.bytes }

  /** Each entry is of the term of some tuple. */
  lemma {:induction false} EntryTuple(s: seq<Tuple>, size: nat, k: nat, e: Entry) returns (i: nat)
    requires size > 0 && k < |Lexicon(s, size)| && e == Lexicon(s, size)[k]
    ensures i < |s| && OfTuple(e, s[i])
    decreases |s|
  {
    var n := GroupLength(s, 1);
    EntryAt(s, size, n, k);
    if k == 0 {
      i := 0;
    } else {
      var i' := EntryTuple(s[n..], size, k - 1, e);
      i := n + i';
    }
  }

  /** The entry of a term: all its postings by node, their number, frequencies and largest frequency, in full chunks. */
  ghost predicate Describes(e: Entry, s: seq<Tuple>, size: nat) {
    var ps := Flatten(e.chunks);
    && ps != [] && Full(e.chunks, size)
    && (forall i, j :: 0 <= i < j < |ps| ==> ps[i].node < ps[j].node)
    && (forall p :: p in ps <==> Tuple(e.hash, e.bytes, p.node, p.tf) in s)
    && e.df == |ps| && e.cf == TfSum(ps) % 0x1_0000_0000 && IsLargestTf(e.maxTf, ps)
  }

  lemma {:induction false} GroupAscends(s: seq<Tuple>, n: nat, i: nat, j: nat)
    requires Sorted(Before, s) && DistinctKeys(s) && IsGroup(s, 0, n) && i < j < n
    ensures s[i].node < s[j].node
  {
    assert SameTerm(s[0], s[i]) && SameTerm(s[0], s[j]);
    assert !Before(s[j], s[i]);
  }

  lemma {:induction false} GroupPostingsAre(s: seq<Tuple>, n: nat, p: Posting)
    requires IsGroup(s, 0, n)
    ensures p in Postings(s[..n]) <==> Tuple(s[0].hash, s[0].bytes, p.node, p.tf) in s
  {
    var g := s[..n];
    if p in Postings(g) {
      var i :| 0 <= i < |g| && Postings(g)[i] == p;
      assert g[i] == s[i] && SameTerm(s[0], s[i]);
    }
    if Tuple(s[0].hash, s[0].bytes, p.node, p.tf) in s {
      var i :| 0 <= i < |s| && s[i] == Tuple(s[0].hash, s[0].bytes, p.node, p.tf);
      assert SameTerm(s[0], s[i]);
      assert g[i] == s[i] && Postings(g)[i] == p;
    }
  }

  /** The entry of the first group, with what was proved of its parts. */
  lemma {:induction false} GroupDescribes(s: seq<Tuple>, size: nat, n: nat)
    requires Sorted(Before, s) && DistinctKeys(s) && size > 0 && IsGroup(s, 0, n)
    requires forall i :: 0 <= i < |s| ==> s[i].node < UINT32_MAX
    ensures Describes(EntryOf(s[..n], size), s, size)
  {
    var g := s[..n];
    var ps := Postings(g);
    ChunkedFlattens(ps, size);
    ChunkedIsFull(ps, size);
    CfIs(g);
    MaxTfIs(g);
    FirstDf(s, n);
    forall p
      ensures p in ps <==> Tuple(s[0].hash, s[0].bytes, p.node, p.tf) in s
    {
      GroupPostingsAre(s, n, p);
    }
    forall i, j | 0 <= i < j < |g|
      ensures ps[i].node < ps[j].node
    {
      GroupAscends(s, n, i, j);
    }
  }

  lemma {:induction false} FirstDf(s: seq<Tuple>, n: nat)
    requires DistinctKeys(s) && IsGroup(s, 0, n) && forall i :: 0 <= i < |s| ==> s[i].node < UINT32_MAX
    ensures Df(s[..n]) == n
  {
    var g := s[..n];
    forall i | 0 <= i < |g|
      ensures g[i].node < UINT32_MAX && SameTerm(g[i], g[0])
    {
      assert SameTerm(s[0], s[i]) && g[i] == s[i];
    }
    forall i, j | 0 <= i < j < |g|
      ensures !(SameTerm(g[i], g[j]) && g[i].node == g[j].node)
    {
      assert g[i] == s[i] && g[j] == s[j];
    }
    DfCounts(g);
  }

  /** What is described among the tuples after the first group is described among all. */
  lemma {:induction false} DescribesMore(e: Entry, s: seq<Tuple>, size: nat, n: nat)
    requires IsGroup(s, 0, n) && Describes(e, s[n..], size)
    ensures Describes(e, s, size)
  {
    var ps := Flatten(e.chunks);
    assert Tuple(e.hash, e.bytes, ps[0].node, ps[0].tf) in s[n..];
    var j :| 0 <= j < |s[n..]| && s[n..][j] == Tuple(e.hash, e.bytes, ps[0].node, ps[0].tf);
    assert !SameTerm(s[0], s[n + j]);
    forall p
      ensures p in ps <==> Tuple(e.hash, e.bytes, p.node, p.tf) in s
    {
      InRest(s, n, Tuple(e.hash, e.bytes, p.node, p.tf));
    }
  }

  lemma {:induction false} InRest(s: seq<Tuple>, n: nat, t: Tuple)
    requires IsGroup(s, 0, n) && !SameTerm(s[0], t)
    ensures t in s[n..] <==> t in s
  {
    if t in s {
      var i :| 0 <= i < |s| && s[i] == t;
      assert s[n..][i - n] == t;
    }
  }

  /** Every entry describes a term of the tuples. */
  lemma {:induction false} EntriesDescribe(s: seq<Tuple>, size: nat, k: nat)
    requires Sorted(Before, s) && DistinctKeys(s) && size > 0 && k < |Lexicon(s, size)|
    requires forall i :: 0 <= i < |s| ==> s[i].node < UINT32_MAX
    ensures Describes(Lexicon(s, size)[k], s, size)
    decreases |s|
  {
    var n := GroupLength(s, 1);
    FirstIsGroup(s, n);
    EntryAt(s, size, n, k);
    if k == 0 {
      GroupDescribes(s, size, n);
    } else {
      TailIsSorted(s, n);
      EntriesDescribe(s[n..], size, k - 1);
      DescribesMore(Lexicon(s[n..], size)[k - 1], s, size, n);
    }
  }

  ghost predicate InEntryOrder(a: Entry, b: Entry) { InTermOrder(a.hash, a.bytes, b.hash, b.bytes) }

  lemma {:induction false} TuplesOrderEntries(a: Entry, b: Entry, s: seq<Tuple>, i: nat, j: nat)
    requires Sorted(Before, s) && i < j < |s| && OfTuple(a, s[i]) && OfTuple(b, s[j]) && !SameTerm(s[i], s[j])
    ensures InEntryOrder(a, b)
  {
    LaterIsGreater(s, i, j);
    TermLessIs(s[i], s[j]);
  }

  /** Entries come in the order of their terms, each term once. */
  lemma {:induction false} EntriesInOrder(s: seq<Tuple>, size: nat, j: nat, k: nat, a: Entry, b: Entry)
    requires Sorted(Before, s) && size > 0 && j < k < |Lexicon(s, size)| && a == Lexicon(s, size)[j] && b == Lexicon(s, size)[k]
    ensures InEntryOrder(a, b)
    decreases |s|
  {
    var n := GroupLength(s, 1);
    if j > 0 {
      var rest := PairInRest(s, size, n, j, k, a, b);
      EntriesInOrder(rest, size, j - 1, k - 1, a, b);
    } else {
      EntryAt(s, size, n, j);
      EntryAt(s, size, n, k);
      LaterEntry(s, size, n, k - 1, a, b);
    }
  }

  lemma {:induction false} PairInRest(s: seq<Tuple>, size: nat, n: nat, j: nat, k: nat, a: Entry, b: Entry)
    returns (rest: seq<Tuple>)
    requires Sorted(Before, s) && size > 0 && 0 < j < k < |Lexicon(s, size)| && a == Lexicon(s, size)[j] && b == Lexicon(s, size)[k]
    requires s != [] && n == GroupLength(s, 1)
    ensures |rest| < |s| && Sorted(Before, rest) && k - 1 < |Lexicon(rest, size)|
    ensures a == Lexicon(rest, size)[j - 1] && b == Lexicon(rest, size)[k - 1]
  {
    rest := s[n..];
    EntryAt(s, size, n, j);
    EntryAt(s, size, n, k);
    TailIsSorted(s, n);
  }

  lemma {:induction false} LaterEntry(s: seq<Tuple>, size: nat, n: nat, k: nat, a: Entry, b: Entry)
    requires Sorted(Before, s) && s != [] && size > 0 && n == GroupLength(s, 1)
    requires a == EntryOf(s[..n], size) && k < |Lexicon(s[n..], size)| && b == Lexicon(s[n..], size)[k]
    ensures InEntryOrder(a, b)
  {
    FirstIsGroup(s, n);
    TailIsSorted(s, n);
    var i := EntryTuple(s[n..], size, k, b);
    assert s[n..][i] == s[n + i];
    TuplesOrderEntries(a, b, s, 0, n + i);
  }

  /** Every term of the tuples has an entry. */
  lemma {:induction false} EveryTermHasEntry(s: seq<Tuple>, size: nat, i: nat) returns (k: nat)
    requires Sorted(Before, s) && size > 0 && i < |s|
    ensures k < |Lexicon(s, size)| && OfTuple(Lexicon(s, size)[k], s[i])
    decreases |s|
  {
    var n := GroupLength(s, 1);
    FirstIsGroup(s, n);
    if i < n {
      k := 0;
      EntryAt(s, size, n, 0);
      assert SameTerm(s[0], s[i]);
    } else {
      TailIsSorted(s, n);
      var k' := EveryTermHasEntry(s[n..], size, i - n);
      k := k' + 1;
      EntryAt(s, size, n, k);
    }
  }
}
