/** Finite sums of reals, and their independence of the order of summation. */
module Sums {
  import opened Ranking

  function Sum(fs: seq<real>): real {
    if fs == [] then 0.0 else fs[0] + Sum(fs[1..])
  }

  lemma {:induction false} SumUpdate(fs: seq<real>, i: nat, x: real)
    requires i < |fs|
    ensures Sum(fs[i := x]) == Sum(fs) - fs[i] + x
  {
    if i > 0 {
      SumUpdate(fs[1..], i - 1, x);
      assert fs[i := x][1..] == fs[1..][i - 1 := x];
    } else {
      assert fs[i := x][1..] == fs[1..];
    }
  }

  lemma {:induction false} SumZero(fs: seq<real>)
    requires forall i :: 0 <= i < |fs| ==> fs[i] == 0.0
    ensures Sum(fs) == 0.0
  {
    if fs != [] {
      SumZero(fs[1..]);
    }
  }

  lemma {:induction false} SumMonotone(fs: seq<real>, gs: seq<real>)
    requires |fs| == |gs| && forall i :: 0 <= i < |fs| ==> fs[i] <= gs[i]
    ensures Sum(fs) <= Sum(gs)
  {
    if fs != [] {
      SumMonotone(fs[1..], gs[1..]);
    }
  }

  lemma {:induction false} SumAppend(fs: seq<real>, x: real)
    ensures Sum(fs + [x]) == Sum(fs) + x
  {
    if fs == [] {
      assert fs + [x] == [x];
    } else {
      SumAppend(fs[1..], x);
      assert (fs + [x])[1..] == fs[1..] + [x];
    }
  }

  ghost predicate Below(order: seq<nat>, n: nat) {
    forall j :: 0 <= j < |order| ==> order[j] < n
  }

  ghost predicate Indices(order: seq<nat>, n: nat) {
    Distinct(order) && Below(order, n)
  }

  /** The sum of the values at the given indices, in the given order. */
  ghost function Picked(fs: seq<real>, order: seq<nat>): real
    requires Below(order, |fs|)
  {
    if order == [] then 0.0 else Picked(fs, order[..|order| - 1]) + fs[order[|order| - 1]]
  }

  lemma {:induction false} PickedElsewhere(fs: seq<real>, order: seq<nat>, i: nat, x: real)
    requires Below(order, |fs|) && i < |fs| && i !in order
    ensures Picked(fs[i := x], order) == Picked(fs, order)
  {
    if order != [] {
      PickedElsewhere(fs, order[..|order| - 1], i, x);
    }
  }

  /** Picking every index that matters, once, gives the whole sum. */
  lemma {:induction false} PickedIsSum(fs: seq<real>, order: seq<nat>)
    requires Indices(order, |fs|)
    requires forall i :: 0 <= i < |fs| && i !in order ==> fs[i] == 0.0
    ensures Picked(fs, order) == Sum(fs)
    decreases |order|
  {
    if order == [] {
      SumZero(fs);
    } else {
      var o, i := order[..|order| - 1], order[|order| - 1];
      assert order == o + [i];
      assert i !in o;
      PickedElsewhere(fs, o, i, 0.0);
      PickedIsSum(fs[i := 0.0], o);
      SumUpdate(fs, i, 0.0);
    }
  }

  lemma {:induction false} PickedMonotone(fs: seq<real>, order: seq<nat>, m: nat, n: nat)
    requires Below(order, |fs|) && m <= n <= |order|
    requires forall i :: 0 <= i < |fs| ==> fs[i] >= 0.0
    ensures Picked(fs, order[..m]) <= Picked(fs, order[..n])
  {
    if m < n {
      PickedMonotone(fs, order, m, n - 1);
      assert order[..n][..n - 1] == order[..n - 1];
    }
  }

  lemma {:induction false} PickedAgrees(fs: seq<real>, gs: seq<real>, order: seq<nat>)
    requires |fs| == |gs| && Below(order, |fs|)
    requires forall j :: 0 <= j < |order| ==> fs[order[j]] == gs[order[j]]
    ensures Picked(fs, order) == Picked(gs, order)
  {
    if order != [] {
      PickedAgrees(fs, gs, order[..|order| - 1]);
    }
  }

  lemma {:induction false} PickedStep(fs: seq<real>, order: seq<nat>, i: nat)
    requires Below(order, |fs|) && i < |order|
    ensures Picked(fs, order[..i + 1]) == Picked(fs, order[..i]) + fs[order[i]]
  {
    assert order[..i + 1][..i] == order[..i];
  }
}
