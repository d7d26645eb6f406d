/** The stamped arrays of the dense accumulator hold the score table of the query, use after use. */
module DenseAccumulator {
  import opened GenerationArrays
  import opened Accumulator
  import opened QueryEval

  const BLANK: Entry := Entry(0.0, {}, -1)

  /** A new query starts from the empty table, whatever earlier queries left in the arrays. */
  method StartQuery(d: DenseEntries<Entry>, nodeCount: nat)
    requires d.Valid()
    modifies d, d.generations
    ensures d.Valid() && d.View() == map[] && nodeCount <= d.entries.Length
    ensures d.entries == old(d.entries) || fresh(d.entries)
    ensures d.generations == old(d.generations) || fresh(d.generations)
  {
    d.Begin(nodeCount);
  }

  /** Adding a score to a node's entry in place is adding it in the table. */
  method AddInPlace(d: DenseEntries<Entry>, n: nat, score: real, matchBit: Mask) returns (ok: bool)
    requires d.Valid() && d.blank == BLANK
    modifies d.entries, d.generations
    ensures d.Valid() && ok == (n < d.entries.Length)
    ensures d.View() == if ok then Bump(old(d.View()), n, score, matchBit) else old(d.View())
  {
    ghost var before := d.View();
    var found;
    found, ok := d.Lookup(n, true);
    if ok {
      var e := d.entries[n];
      ghost var now := d.View();
      assert n in now && now[n] == e && e == Get(before, n, BLANK);
      d.entries[n] := e.(score := e.score + score, matched := e.matched + matchBit);
      assert d.View() == now[n := d.entries[n]];
    }
  }
}
