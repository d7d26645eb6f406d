/**
 Arrays that are emptied by advancing a counter: an entry counts only while its stamp equals
 the current generation.  Whatever earlier uses left behind, a new use starts from the empty map.
 */
module GenerationArrays {
  import opened Integers

  datatype Stamped<T> = Stamped(generation: nat, value: T)

  /** The fusion cache: stamp and result side by side; growing replaces the array. */
  class FusionArray<T(0)> {
    var entries: array<Stamped<T>>
    var generation: nat
    const blank: T

    ghost predicate Valid()
      reads this, entries
    {
      && generation <= UINT32_MAX
      && forall i :: 0 <= i < entries.Length ==> entries[i].generation <= generation
    }

    /** What the current use sees. */
    ghost function View(): (m: map<nat, T>)
      reads this, entries
    {
      map i: nat | i < entries.Length && entries[i].generation == generation :: entries[i].value
    }

    constructor (blank: T)
      ensures Valid() && fresh(entries) && generation == 0 && entries.Length == 0 && this.blank == blank
    {
      this.blank := blank;
      entries := new Stamped<T>[0];
      generation := 0;
    }

    /** Starts a new use with room for nodeCount entries. */
    method Begin(nodeCount: nat)
      requires Valid()
      modifies this, entries
      ensures Valid() && View() == map[] && generation > 0
      ensures entries == old(entries) || fresh(entries)
      ensures nodeCount <= entries.Length
    {
      if entries.Length < nodeCount || entries.Length == 0 {
        entries := new Stamped<T>[nodeCount](_ => Stamped(0, blank));
        generation := 1;
      } else if generation == UINT32_MAX {
        Clear();
        generation := 1;
      } else {
        generation := generation + 1;
      }
    }

    method Clear()
      modifies entries
      ensures forall i :: 0 <= i < entries.Length ==> entries[i].generation == 0
    {
      for i := 0 to entries.Length
        invariant forall j :: 0 <= j < i ==> entries[j].generation == 0
      {
        entries[i] := Stamped(0, blank);
      }
    }

    predicate Has(n: nat)
      reads this, entries
      ensures Has(n) <==> n in View()
    {
      n < entries.Length && entries[n].generation == generation
    }

    method Put(n: nat, value: T)
      requires Valid() && n < entries.Length
      modifies entries
      ensures Valid() && View() == old(View())[n := value]
    {
      entries[n] := Stamped(generation, value);
    }
  }

  /** The dense accumulator: stamps beside the entries; growing keeps old stamps and zeroes new ones. */
  class DenseEntries<T(0)> {
    var entries: array<T>
    var generations: array<nat>
    var generation: nat
    const blank: T

    ghost predicate Valid()
      reads this, generations
    {
      && (entries as object) != (generations as object)
      && entries.Length == generations.Length
      && generation <= UINT32_MAX
      && forall i :: 0 <= i < generations.Length ==> generations[i] <= generation
    }

    ghost function View(): (m: map<nat, T>)
      reads this, entries, generations
      requires entries.Length == generations.Length
    {
      map i: nat | i < generations.Length && generations[i] == generation :: entries[i]
    }

    constructor (blank: T)
      ensures Valid() && fresh(entries) && fresh(generations) && generation == 0 && entries.Length == 0
    {
      this.blank := blank;
      entries := new T[0];
      generations := new nat[0];
      generation := 0;
    }

    method Grow(nodeCount: nat)
      requires Valid() && entries.Length < nodeCount
      modifies this
      ensures Valid() && entries.Length == nodeCount && generation == old(generation)
      ensures fresh(entries) && fresh(generations)
    {
      var oldEntries, oldGenerations := entries, generations;
      var newEntries := new T[nodeCount](i requires 0 <= i < nodeCount reads this, oldEntries =>
        if i < oldEntries.Length then oldEntries[i] else blank);
      var newGenerations := new nat[nodeCount](i requires 0 <= i < nodeCount reads oldGenerations =>
        if i < oldGenerations.Length then oldGenerations[i] else 0);
      entries, generations := newEntries, newGenerations;
    }

    method ClearStamps()
      modifies generations
      ensures forall i :: 0 <= i < generations.Length ==> generations[i] == 0
    {
      for i := 0 to generations.Length
        invariant forall j :: 0 <= j < i ==> generations[j] == 0
      {
        generations[i] := 0;
      }
    }

    /** Starts a new use with room for nodeCount entries; the 32-bit counter may wrap to zero. */
    method Begin(nodeCount: nat)
      requires Valid()
      modifies this, generations
      ensures Valid() && View() == map[] && generation > 0
      ensures generations == old(generations) || fresh(generations)
      ensures entries == old(entries) || fresh(entries)
      ensures nodeCount <= entries.Length
    {
      if entries.Length < nodeCount {
        Grow(nodeCount);
      }
      generation := (generation + 1) % (UINT32_MAX + 1);
      if generation == 0 {
        ClearStamps();
        generation := 1;
      }
    }

    /** Finds a node's entry, creating a blank one on request; a node beyond the capacity has none. */
    method Lookup(n: nat, create: bool) returns (found: bool, present: bool)
      requires Valid()
      modifies entries, generations
      ensures Valid()
      ensures found == (n in old(View()))
      ensures present == (found || (create && n < entries.Length))
      ensures View() == if present && !found then old(View())[n := blank] else old(View())
    {
      if n >= entries.Length {
        return false, false;
      }
      found := generations[n] == generation;
      if found || !create {
        return found, found;
      }
      generations[n] := generation;
      entries[n] := blank;
      return false, true;
    }
  }
}
