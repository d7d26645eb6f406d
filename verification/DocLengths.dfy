/** Documents as the collector lists them, and their lengths by node. */
module DocLengths {

  /** A document counted by a build: its node and its length. */
  datatype BuildDoc = BuildDoc(node: nat, docLen: nat)

  /** The sum of the lengths of listed documents. */
  function ListedLen(docs: seq<BuildDoc>): nat {
    if docs == [] then 0 else ListedLen(docs[..|docs| - 1]) + docs[|docs| - 1].docLen
  }

  /** The table of lengths that is written of listed documents: the last one of a node counts. */
  function LengthTable(docs: seq<BuildDoc>): map<nat, nat> {
    if docs == [] then map[]
    else
      var d := docs[|docs| - 1];
      LengthTable(docs[..|docs| - 1])[d.node := d.docLen]
  }

  method WriteDocStats(docs: seq<BuildDoc>) returns (m: map<nat, nat>)
    ensures m == LengthTable(docs)
  {
    m := map[];
    for i := 0 to |docs|
      invariant m == LengthTable(docs[..i])
    {
      assert docs[..i + 1][..i] == docs[..i];
      m := m[docs[i].node := docs[i].docLen];
    }
    assert docs[..|docs|] == docs;
  }

  // ----- the total of a table

  /** The sum of all lengths of a table. */
  ghost function TotalLen(m: map<nat, nat>): nat {
    if m == map[] then 0
    else
      var n :| n in m;
      m[n] + TotalLen(m - {n})
  }

  /** Any document may be counted first. */
  lemma {:induction false} TotalWithout(m: map<nat, nat>, n: nat)
    requires n in m
    ensures TotalLen(m) == m[n] + TotalLen(m - {n})
    decreases |m|
  {
    var p :| p in m && TotalLen(m) == m[p] + TotalLen(m - {p});
    if p != n {
      TotalWithout(m - {p}, n);
      TotalWithout(m - {n}, p);
      assert (m - {p}) - {n} == (m - {n}) - {p};
    }
  }

  lemma {:induction false} TotalWith(m: map<nat, nat>, n: nat, docLen: nat)
    requires n !in m
    ensures TotalLen(m[n := docLen]) == TotalLen(m) + docLen
  {
    TotalWithout(m[n := docLen], n);
    assert m[n := docLen] - {n} == m;
  }

  // ----- listed once each

  /** The list holds exactly the documents of the table, each once. */
  ghost predicate Lists(docs: seq<BuildDoc>, m: map<nat, nat>) {
    LengthTable(docs) == m && |docs| == |m| && ListedLen(docs) == TotalLen(m)
  }

  lemma {:induction false} ListsNone()
    ensures Lists([], map[])
  {
  }

  /** A document that was not listed before makes the table grow by one and the total by its length. */
  lemma {:induction false} ListsMore(docs: seq<BuildDoc>, m: map<nat, nat>, node: nat, docLen: nat)
    requires Lists(docs, m) && node !in m
    ensures Lists(docs + [BuildDoc(node, docLen)], m[node := docLen])
  {
    assert (docs + [BuildDoc(node, docLen)])[..|docs|] == docs;
    TotalWith(m, node, docLen);
    assert m[node := docLen].Keys == m.Keys + {node};
  }
}
