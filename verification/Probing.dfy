/** A hash table with linear probing, over whatever its items are keyed by. */
module Probing {
  import opened Wrappers
  import opened Ranking

  /** The key of an item, and the hash of a key. */
  datatype Keying<!T> = Keying(key: T -> nat, hash: nat -> nat)

  /** Slot of a key: its hash modulo the power-of-two table size. */
  function Home<T>(k: Keying<T>, key: nat, size: nat): (h: nat)
    requires size > 0
    ensures h < size
  {
    k.hash(key) % size
  }

  /** The slot after s, wrapping at the end of the table. */
  function NextSlot(s: nat, size: nat): (r: nat)
    requires s < size
    ensures r < size
  {
    if s + 1 == size then 0 else s + 1
  }

  function Probe<T>(k: Keying<T>, key: nat, size: nat, step: nat): (s: nat)
    requires size > 0
    ensures s < size
  {
    if step == 0 then Home(k, key, size) else NextSlot(Probe(k, key, size, step - 1), size)
  }

  /** The slots probed for the key before the given step are all taken. */
  ghost predicate Reaches<T>(k: Keying<T>, slots: seq<Option<T>>, key: nat, step: nat)
    requires |slots| > 0
  {
    forall j: nat :: j < step ==> slots[Probe(k, key, |slots|, j)].Some?
  }

  /** r is found at the given step of probing for its key. */
  ghost predicate Stored<T>(k: Keying<T>, slots: seq<Option<T>>, r: T, step: nat)
    requires |slots| > 0
  {
    Reaches(k, slots, k.key(r), step) && slots[Probe(k, k.key(r), |slots|, step)] == Some(r)
  }

  /** Each key is stored in one slot only. */
  ghost predicate OneSlot<T>(k: Keying<T>, slots: seq<Option<T>>) {
    forall i, j :: 0 <= i < j < |slots| && slots[i].Some? && slots[j].Some? ==> k.key(slots[i].value) != k.key(slots[j].value)
  }

  /** The table holds exactly the items of m, each where probing finds it. */
  ghost predicate Table<T>(k: Keying<T>, slots: seq<Option<T>>, m: map<nat, T>) {
    && |slots| > 0 && OneSlot(k, slots)
    && (forall s :: 0 <= s < |slots| && slots[s].Some? ==> k.key(slots[s].value) in m && slots[s].value == m[k.key(slots[s].value)])
    && (forall n {:trigger Findable(k, slots, m, n)} :: n in m ==> Findable(k, slots, m, n))
  }

  ghost predicate Findable<T>(k: Keying<T>, slots: seq<Option<T>>, m: map<nat, T>, n: nat)
    requires |slots| > 0 && n in m
  {
    k.key(m[n]) == n && exists step: nat :: Stored(k, slots, m[n], step)
  }

  lemma {:induction false} FullTable<T>(k: Keying<T>, slots: seq<Option<T>>, m: map<nat, T>)
    requires Table(k, slots, m) && forall s :: 0 <= s < |slots| ==> slots[s].Some?
    ensures |slots| <= |m|
  {
    var keys: seq<nat> := seq(|slots|, s requires 0 <= s < |slots| => k.key(slots[s].value));
    DistinctSize(keys);
    SubsetSize(Elements(keys), m.Keys);
    assert |m.Keys| == |m|;
  }

  /** While there are fewer keys than slots, some slot is free. */
  lemma {:induction false} FreeSlot<T>(k: Keying<T>, slots: seq<Option<T>>, m: map<nat, T>) returns (s: nat)
    requires Table(k, slots, m) && |m| < |slots|
    ensures s < |slots| && slots[s].None?
  {
    if forall s' :: 0 <= s' < |slots| ==> slots[s'].Some? {
      FullTable(k, slots, m);
    }
    s :| 0 <= s < |slots| && slots[s].None?;
  }

  lemma {:induction false} ProbeAhead<T>(k: Keying<T>, key: nat, size: nat, step: nat)
    requires size > 0
    ensures Home(k, key, size) + step < size ==> Probe(k, key, size, step) == Home(k, key, size) + step
    ensures size <= Home(k, key, size) + step < 2 * size ==> Probe(k, key, size, step) == Home(k, key, size) + step - size
  {
    if step > 0 {
      ProbeAhead(k, key, size, step - 1);
    }
  }

  /** Probing visits every slot. */
  lemma {:induction false} ProbeCovers<T>(k: Keying<T>, key: nat, size: nat, s: nat) returns (step: nat)
    requires s < size
    ensures Probe(k, key, size, step) == s
  {
    var h := Home(k, key, size);
    step := if s >= h then s - h else s - h + size;
    ProbeAhead(k, key, size, step);
  }

  /** Where probing for a key ends: at its item, or at the first free slot if it has none. */
  ghost predicate Found<T>(k: Keying<T>, slots: seq<Option<T>>, m: map<nat, T>, key: nat, s: nat) {
    && |slots| > 0 && s < |slots|
    && (key in m ==> slots[s] == Some(m[key]))
    && (key !in m ==> slots[s].None? && exists step: nat :: Reaches(k, slots, key, step) && Probe(k, key, |slots|, step) == s)
  }

  /** None of the slots probed before the given step holds the key. */
  ghost predicate Missed<T>(k: Keying<T>, slots: seq<Option<T>>, key: nat, step: nat)
    requires |slots| > 0
  {
    Reaches(k, slots, key, step) && forall j: nat :: j < step ==> k.key(slots[Probe(k, key, |slots|, j)].value) != key
  }

  /** A free slot on the probe path means the key is not stored. */
  lemma {:induction false} FreeMeansAbsent<T>(k: Keying<T>, slots: seq<Option<T>>, m: map<nat, T>, key: nat, step: nat)
    requires Table(k, slots, m) && Missed(k, slots, key, step) && slots[Probe(k, key, |slots|, step)].None?
    ensures key !in m
  {
    assert key in m ==> Findable(k, slots, m, key);
  }

  /** Probes for a key; a free slot stops the probing, because there are more slots than keys. */
  method FindMergeSlot<T>(k: Keying<T>, slots: array<Option<T>>, key: nat, ghost m: map<nat, T>) returns (s: nat)
    requires Table(k, slots[..], m) && |m| < slots.Length
    ensures Found(k, slots[..], m, key, s)
  {
    ghost var view: seq<Option<T>> := slots[..];
    ghost var free := FreeSlot(k, view, m);
    ghost var last := ProbeCovers(k, key, slots.Length, free);
    ghost var step: nat := 0;
    s := Home(k, key, slots.Length);
    while true
      invariant s == Probe(k, key, |view|, step) && step <= last && Missed(k, view, key, step)
      decreases last - step
    {
      if slots[s].None? {
        FreeMeansAbsent(k, view, m, key, step);
        return;
      }
      assert view[s].Some?;
      if k.key(slots[s].value) == key {
        return;
      }
      s := NextSlot(s, slots.Length);
      step := step + 1;
    }
  }

  /** Writing the key's new item into the slot found for it writes it into the table. */
  lemma {:induction false} TableStep<T>(k: Keying<T>, slots: seq<Option<T>>, m: map<nat, T>, key: nat, r: T, s: nat)
    requires Table(k, slots, m) && Found(k, slots, m, key, s) && k.key(r) == key
    ensures Table(k, slots[s := Some(r)], m[key := r])
  {
    var m', slots' := m[key := r], slots[s := Some(r)];
    assert key in m ==> Findable(k, slots, m, key);
    forall n | n in m'
      ensures Findable(k, slots', m', n)
    {
      StillFindable(k, slots, m, key, r, s, n);
    }
    assert OneSlot(k, slots') by {
      forall i, j | 0 <= i < j < |slots'| && slots'[i].Some? && slots'[j].Some?
        ensures k.key(slots'[i].value) != k.key(slots'[j].value)
      {
        assert i != s ==> slots'[i] == slots[i];
        assert j != s ==> slots'[j] == slots[j];
      }
    }
  }

  lemma {:induction false} StillFindable<T>(k: Keying<T>, slots: seq<Option<T>>, m: map<nat, T>, key: nat, r: T,
                                            s: nat, n: nat)
    requires Table(k, slots, m) && Found(k, slots, m, key, s) && k.key(r) == key && n in m[key := r]
    ensures Findable(k, slots[s := Some(r)], m[key := r], n)
  {
    var m', slots' := m[key := r], slots[s := Some(r)];
    if n in m {
      assert Findable(k, slots, m, n);
      var step: nat :| Stored(k, slots, m[n], step);
      if n == key {
        SameSlot(k, slots, m, n, step, s);
      } else {
        assert key in m ==> Findable(k, slots, m, key);
        assert Probe(k, n, |slots|, step) != s;
      }
      assert Stored(k, slots', m'[n], step);
    } else {
      var step: nat :| Reaches(k, slots, key, step) && Probe(k, key, |slots|, step) == s;
      assert Stored(k, slots', r, step);
    }
  }

  lemma {:induction false} SameSlot<T>(k: Keying<T>, slots: seq<Option<T>>, m: map<nat, T>, n: nat, step: nat, s: nat)
    requires Table(k, slots, m) && n in m && Stored(k, slots, m[n], step) && s < |slots| && slots[s] == Some(m[n])
    ensures Probe(k, n, |slots|, step) == s
  {
    assert Findable(k, slots, m, n);
    var p := Probe(k, n, |slots|, step);
    assert p < s || p == s || p > s;
  }

  // ----- collecting

  /** The items of m that pass the filter, each once. */
  ghost predicate Collects<T(!new)>(k: Keying<T>, m: map<nat, T>, keep: T -> bool, merged: seq<T>) {
    && (forall i, j :: 0 <= i < j < |merged| ==> k.key(merged[i]) != k.key(merged[j]))
    && (forall r :: r in merged <==> k.key(r) in m && r == m[k.key(r)] && keep(r))
  }

  /** The items in the first n slots that pass. */
  ghost predicate Swept<T(!new)>(k: Keying<T>, slots: seq<Option<T>>, n: nat, keep: T -> bool, merged: seq<T>) {
    && n <= |slots|
    && (forall i, j :: 0 <= i < j < |merged| ==> k.key(merged[i]) != k.key(merged[j]))
    && (forall r :: r in merged <==> Some(r) in slots[..n] && keep(r))
  }

  lemma {:induction false} SweptStep<T(!new)>(k: Keying<T>, slots: seq<Option<T>>, n: nat, keep: T -> bool, merged: seq<T>)
    requires OneSlot(k, slots) && Swept(k, slots, n, keep, merged) && n < |slots|
    ensures Swept(k, slots, n + 1, keep, if slots[n].Some? && keep(slots[n].value) then merged + [slots[n].value] else merged)
  {
    assert slots[..n + 1] == slots[..n] + [slots[n]];
    if slots[n].Some? {
      forall i | 0 <= i < |merged|
        ensures k.key(merged[i]) != k.key(slots[n].value)
      {
        assert merged[i] in merged;
        var j :| 0 <= j < n && slots[..n][j] == Some(merged[i]);
        assert slots[j] == Some(merged[i]);
      }
    }
  }

  lemma {:induction false} SweptAll<T(!new)>(k: Keying<T>, m: map<nat,
                                      T>, slots: seq<Option<T>>, keep: T -> bool, merged: seq<T>)
    requires Table(k, slots, m) && Swept(k, slots, |slots|, keep, merged)
    ensures Collects(k, m, keep, merged)
  {
    assert slots[..|slots|] == slots;
    forall r: T
      ensures Some(r) in slots <==> k.key(r) in m && r == m[k.key(r)]
    {
      if k.key(r) in m && r == m[k.key(r)] {
        assert Findable(k, slots, m, k.key(r));
        var step: nat :| Stored(k, slots, m[k.key(r)], step);
      }
    }
  }

  method CollectSlots<T(!new)>(k: Keying<T>, slots: array<Option<T>>, keep: T -> bool, ghost m: map<nat,
                        T>) returns (merged: seq<T>)
    requires Table(k, slots[..], m)
    ensures Collects(k, m, keep, merged)
  {
    merged := [];
    for i := 0 to slots.Length
      invariant Swept(k, slots[..], i, keep, merged)
    {
      SweptStep(k, slots[..], i, keep, merged);
      if slots[i].Some? && keep(slots[i].value) {
        merged := merged + [slots[i].value];
      }
    }
    SweptAll(k, m, slots[..], keep, merged);
  }
}
