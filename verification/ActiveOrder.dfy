/** In-place insertion sort of the active iterators by current node id, then term id. */
module ActiveOrder {

  datatype Key = Key(node: nat, termId: nat)

  predicate KeyBefore(a: Key, b: Key) {
    a.node < b.node || (a.node == b.node && a.termId < b.termId)
  }

  /** By node, and at equal nodes by term. */
  ghost predicate InOrder(a: Key, b: Key) {
    a.node <= b.node && (a.node == b.node ==> a.termId <= b.termId)
  }

  ghost predicate SortedKeys(keys: seq<Key>, s: seq<nat>) {
    && (forall a :: 0 <= a < |s| ==> s[a] < |keys|)
    && (forall a, b :: 0 <= a < b < |s| ==> InOrder(keys[s[a]], keys[s[b]]))
  }

  /** Inserting x before position j of s. */
  ghost function Inserted(s: seq<nat>, j: nat, x: nat): seq<nat>
    requires j <= |s|
  {
    s[..j] + [x] + s[j..]
  }

  lemma {:induction false} InsertedSorted(keys: seq<Key>, s: seq<nat>, j: nat, x: nat)
    requires SortedKeys(keys, s) && j <= |s| && x < |keys|
    requires j > 0 ==> InOrder(keys[s[j - 1]], keys[x])
    requires j < |s| ==> InOrder(keys[x], keys[s[j]])
    ensures SortedKeys(keys, Inserted(s, j, x))
  {
  }

  lemma {:induction false} InsertedMultiset(s: seq<nat>, j: nat, x: nat)
    requires j <= |s|
    ensures multiset(Inserted(s, j, x)) == multiset(s + [x])
  {
    assert s == s[..j] + s[j..];
  }

  /** Shifts larger entries up until active[i] fits. */
  method Shift(active: array<nat>, i: nat, keys: seq<Key>) returns (j: nat)
    requires i < active.Length && forall a :: 0 <= a <= i ==> active[a] < |keys|
    modifies active
    ensures j <= i && active[..i + 1] == Inserted(old(active[..i]), j, old(active[i]))
    ensures active[i + 1..] == old(active[i + 1..])
    ensures j > 0 ==> InOrder(keys[old(active[..i])[j - 1]], keys[old(active[i])])
    ensures j < i ==> InOrder(keys[old(active[i])], keys[old(active[..i])[j]])
  {
    ghost var s := active[..i];
    var it := active[i];
    j := i;
    while j > 0
      invariant 0 <= j <= i
      invariant active[..j] == s[..j] && active[j + 1..i + 1] == s[j..]
      invariant active[i + 1..] == old(active[i + 1..])
      invariant j < i ==> InOrder(keys[it], keys[s[j]])
    {
      assert active[j - 1] == active[..j][j - 1] == s[j - 1];
      if !KeyBefore(keys[it], keys[active[j - 1]]) {
        break;
      }
      active[j] := active[j - 1];
      assert active[j..i + 1] == [s[j - 1]] + s[j..];
      j := j - 1;
    }
    active[j] := it;
    assert active[..i + 1] == active[..j] + [it] + active[j + 1..i + 1];
  }

  lemma {:induction false} InRangeMultiset(n: nat, s: seq<nat>, t: seq<nat>)
    requires multiset(s) == multiset(t) && forall a :: 0 <= a < |s| ==> s[a] < n
    ensures forall a :: 0 <= a < |t| ==> t[a] < n
  {
    forall a | 0 <= a < |t|
      ensures t[a] < n
    {
      assert t[a] in multiset(t) && t[a] in multiset(s);
      assert t[a] in s;
    }
  }

  method InsertOne(active: array<nat>, i: nat, count: nat, keys: seq<Key>)
    requires i < count <= active.Length && forall a :: 0 <= a < count ==> active[a] < |keys|
    requires SortedKeys(keys, active[..i])
    modifies active
    ensures SortedKeys(keys, active[..i + 1])
    ensures multiset(active[..count]) == old(multiset(active[..count]))
  {
    ghost var s, it, before := active[..i], active[i], active[..];
    var j := Shift(active, i, keys);
    InsertedSorted(keys, s, j, it);
    InsertedKeeps(before, active[..], i, count, j);
    assert before[..count] == old(active[..count]) && active[..][..count] == active[..count];
  }

  /** On plain values: inserting item i among those before it keeps the items of any longer prefix. */
  lemma {:induction false} InsertedKeeps(before: seq<nat>, after: seq<nat>, i: nat, count: nat, j: nat)
    requires |before| == |after| && j <= i < count <= |before|
    requires after[..i + 1] == Inserted(before[..i], j, before[i]) && after[i + 1..] == before[i + 1..]
    ensures multiset(before[..count]) == multiset(after[..count])
  {
    assert before[..i + 1] == before[..i] + [before[i]];
    InsertedMultiset(before[..i], j, before[i]);
    SamePrefixMultiset(before, after, i + 1, count);
  }

  lemma {:induction false} SamePrefixMultiset(s: seq<nat>, t: seq<nat>, n: nat, count: nat)
    requires |s| == |t| && n <= count <= |s| && multiset(s[..n]) == multiset(t[..n]) && s[n..] == t[n..]
    ensures multiset(s[..count]) == multiset(t[..count])
  {
    assert s[..count] == s[..n] + s[n..][..count - n];
    assert t[..count] == t[..n] + t[n..][..count - n];
  }

  method Sort(active: array<nat>, count: nat, keys: seq<Key>)
    requires count <= active.Length && forall a :: 0 <= a < count ==> active[a] < |keys|
    modifies active
    ensures SortedKeys(keys, active[..count])
    ensures multiset(active[..count]) == old(multiset(active[..count]))
  {
    if count == 0 {
      return;
    }
    var i := 1;
    while i < count
      invariant 1 <= i <= count
      invariant forall a :: 0 <= a < count ==> active[a] < |keys|
      invariant SortedKeys(keys, active[..i])
      invariant multiset(active[..count]) == old(multiset(active[..count]))
    {
      ghost var before := active[..count];
      InsertOne(active, i, count, keys);
      InRangeMultiset(|keys|, before, active[..count]);
      assert forall a :: 0 <= a < count ==> active[a] == active[..count][a];
      i := i + 1;
    }
  }
}
