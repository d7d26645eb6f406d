/** A term's postings as a chain of linked chunks in append-only storage. */
module PostingsChain {
  import opened Wrappers
  import opened Sequences
  import opened PostingsCodec

  /** A stored tuple and the address of the next chunk of its list. */
  datatype Cell = Cell(tuple: PostingsTuple, next: Option<nat>)

  /** Follows the links for at most limit chunks, decoding each. */
  function ReadChain(items: seq<Cell>, at: Option<nat>, limit: nat): Option<seq<Posting>>
    decreases limit
  {
    if limit == 0 || at.None? then Some([])
    else if at.value >= |items| then None
    else
      var cell := items[at.value];
      var chunk := Decode(cell.tuple);
      if chunk.None? then None
      else
        var rest := ReadChain(items, cell.next, limit - 1);
        if rest.None? then None else Some(chunk.value + rest.value)
  }

  ghost predicate Linked(items: seq<Cell>, base: nat, chunks: seq<seq<Posting>>, j: nat) {
    && base + j < |items| && j < |chunks|
    && Decode(items[base + j].tuple) == Some(chunks[j])
    && items[base + j].next == if j + 1 < |chunks| then Some(base + j + 1) else None
  }

  /** The chunks lie one after the other from base on, each linked to the next. */
  ghost predicate Chain(items: seq<Cell>, base: nat, chunks: seq<seq<Posting>>) {
    forall j: nat :: j < |chunks| ==> Linked(items, base, chunks, j)
  }

  /** Walking a chain gives back the whole list. */
  lemma {:induction false} WalkChain(items: seq<Cell>, base: nat, chunks: seq<seq<Posting>>, j: nat)
    requires Chain(items, base, chunks) && j <= |chunks|
    ensures ReadChain(items, if j < |chunks| then Some(base + j) else None, |chunks| - j) == Some(Flatten(chunks[j..]))
    decreases |chunks| - j
  {
    if j < |chunks| {
      WalkChain(items, base, chunks, j + 1);
      assert Linked(items, base, chunks, j);
      assert chunks[j..][1..] == chunks[j + 1..];
    } else {
      assert chunks[j..] == [];
    }
  }

  /** A chunk appended to the storage and linked from the one before it. */
  lemma {:induction false} ChainGrows(items: seq<Cell>, base: nat, chunks: seq<seq<Posting>>, t: PostingsTuple,
                                      c: seq<Posting>, items': seq<Cell>)
    requires Chain(items, base, chunks) && |items| == base + |chunks| && Decode(t) == Some(c)
    requires |items'| == |items| + 1 && items'[|items|] == Cell(t, None)
    requires forall k :: 0 <= k < |items| ==>
               items'[k] == if chunks != [] && k == |items| - 1 then items[k].(next := Some(|items|)) else items[k]
    ensures Chain(items', base, chunks + [c])
  {
    forall j: nat | j < |chunks| + 1
      ensures Linked(items', base, chunks + [c], j)
    {
      if j < |chunks| {
        assert Linked(items, base, chunks, j);
      }
    }
  }

  class PostingsStore {
    var items: seq<Cell>

    constructor ()
      ensures items == []
    {
      items := [];
    }

    method AddItem(t: PostingsTuple) returns (at: nat)
      modifies this
      ensures at == |old(items)| && items == old(items) + [Cell(t, None)]
    {
      at := |items|;
      items := items + [Cell(t, None)];
    }

    method LinkPostingsChunk(prev: nat, next: nat)
      requires prev < |items|
      modifies this
      ensures items == old(items)[prev := old(items)[prev].(next := Some(next))]
    {
      items := items[prev := items[prev].(next := Some(next))];
    }

    /** Writes one chunk, linking it from the previous one. */
    method WriteChunk(ps: seq<Posting>, hasTfNorm: bool, linkPrevious: bool, ghost base: nat,
                      ghost chunks: seq<seq<Posting>>)
      requires Encodable(ps, hasTfNorm) && Chain(items, base, chunks) && |items| == base + |chunks|
      requires linkPrevious <==> chunks != []
      modifies this
      ensures Chain(items, base, chunks + [ps]) && |items| == base + |chunks| + 1
      ensures forall k :: 0 <= k < base ==> items[k] == old(items[k])
    {
      var t := WritePostingsChunk(ps, hasTfNorm);
      RoundTrip(t, ps, hasTfNorm);
      ghost var before := items;
      var at := AddItem(t);
      if linkPrevious {
        LinkPostingsChunk(at - 1, at);
      }
      ChainGrows(before, base, chunks, t, ps, items);
    }

    /** Writes a list of any length; reading it back from its first chunk gives it back. */
    method WritePostings(ps: seq<Posting>, hasTfNorm: bool, size: nat) returns (first: nat, chunkCount: nat)
      requires Encodable(ps, hasTfNorm) && size > 0
      modifies this
      ensures |old(items)| <= |items| && forall k :: 0 <= k < |old(items)| ==> items[k] == old(items)[k]
      ensures ReadChain(items, Some(first), chunkCount) == Some(ps)
    {
      first, chunkCount := |items|, 0;
      ghost var chunks: seq<seq<Posting>> := [];
      var start: nat := 0;
      while start < |ps|
        invariant start <= |ps| && |chunks| == chunkCount && (start > 0 ==> chunkCount > 0)
        invariant Chain(items, first, chunks) && |items| == first + chunkCount && Flatten(chunks) == ps[..start]
        invariant forall k :: 0 <= k < first ==> items[k] == old(items)[k]
      {
        var end := if start + size < |ps| then start + size else |ps|;
        FlattenAppend(chunks, ps[start..end]);
        assert ps[..start] + ps[start..end] == ps[..end];
        SliceEncodable(ps, hasTfNorm, start, end);
        WriteChunk(ps[start..end], hasTfNorm, chunkCount > 0, first, chunks);
        chunks := chunks + [ps[start..end]];
        chunkCount := chunkCount + 1;
        start := end;
      }
      WalkChain(items, first, chunks, 0);
      assert chunks[0..] == chunks && ps[..start] == ps;
    }
  }

  lemma {:induction false} SliceEncodable(ps: seq<Posting>, hasTfNorm: bool, start: nat, end: nat)
    requires Encodable(ps, hasTfNorm) && start < end <= |ps|
    ensures Encodable(ps[start..end], hasTfNorm)
  {
  }
}
