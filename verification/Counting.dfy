/** Counting the elements of a sequence that satisfy a condition. */
module Counting {
  import opened Ranking

  function Count<T>(p: T -> bool, s: seq<T>): nat {
    if s == [] then 0 else Count(p, s[..|s| - 1]) + if p(s[|s| - 1]) then 1 else 0
  }

  lemma {:induction false} CountAppend<T>(p: T -> bool, s: seq<T>, x: T)
    ensures Count(p, s + [x]) == Count(p, s) + if p(x) then 1 else 0
  {
    assert (s + [x])[..|s|] == s;
  }

  lemma {:induction false} CountJoined<T>(p: T -> bool, a: seq<T>, b: seq<T>)
    ensures Count(p, a + b) == Count(p, a) + Count(p, b)
  {
    if b == [] {
      assert a + b == a;
    } else {
      var n := |b| - 1;
      CountJoined(p, a, b[..n]);
      CountAppend(p, a + b[..n], b[n]);
      assert (a + b[..n]) + [b[n]] == a + b;
    }
  }

  lemma {:induction false} CountWithout<T>(p: T -> bool, s: seq<T>, j: nat)
    requires j < |s|
    ensures Count(p, s) == Count(p, s[..j] + s[j + 1..]) + if p(s[j]) then 1 else 0
    ensures multiset(s) == multiset(s[..j] + s[j + 1..]) + multiset{s[j]}
  {
    CountJoined(p, s[..j], s[j + 1..]);
    CountAppend(p, s[..j], s[j]);
    CountJoined(p, s[..j] + [s[j]], s[j + 1..]);
    assert (s[..j] + [s[j]]) + s[j + 1..] == s;
  }

  /** The order does not matter. */
  lemma {:induction false} CountPermuted<T>(p: T -> bool, a: seq<T>, b: seq<T>)
    requires multiset(a) == multiset(b)
    ensures Count(p, a) == Count(p, b)
    decreases |a|
  {
    assert |a| == |multiset(a)| && |b| == |multiset(b)|;
    if a != [] {
      var n := |a| - 1;
      assert a[n] in multiset(b);
      var j :| 0 <= j < |b| && b[j] == a[n];
      CountWithout(p, b, j);
      var b' := b[..j] + b[j + 1..];
      assert a == a[..n] + [a[n]];
      assert multiset(a[..n]) == multiset(a) - multiset{a[n]} == multiset(b');
      CountPermuted(p, a[..n], b');
    }
  }

  /** A stronger condition counts less, and as much only where it is no stronger. */
  lemma {:induction false} CountStronger<T>(p: T -> bool, q: T -> bool, s: seq<T>)
    requires forall x :: x in s && p(x) ==> q(x)
    ensures Count(p, s) <= Count(q, s)
    ensures Count(p, s) == Count(q, s) <==> forall x :: x in s && q(x) ==> p(x)
  {
    if s != [] {
      var n := |s| - 1;
      CountStronger(p, q, s[..n]);
      assert s == s[..n] + [s[n]];
    }
  }

  lemma {:induction false} CountAll<T>(p: T -> bool, s: seq<T>)
    ensures Count(p, s) <= |s|
  {
    if s != [] {
      CountAll(p, s[..|s| - 1]);
    }
  }

  ghost function Images<T>(p: T -> bool, f: T -> nat, s: seq<T>): set<nat> {
    set i | 0 <= i < |s| && p(s[i]) :: f(s[i])
  }

  ghost predicate Apart<T>(p: T -> bool, f: T -> nat, s: seq<T>) {
    forall i, j :: 0 <= i < j < |s| && p(s[i]) && p(s[j]) ==> f(s[i]) != f(s[j])
  }

  lemma {:induction false} ImagesAppend<T>(p: T -> bool, f: T -> nat, s: seq<T>, x: T)
    ensures Images(p, f, s + [x]) == Images(p, f, s) + if p(x) then {f(x)} else {}
  {
    var t := s + [x];
    assert t[|s|] == x;
    forall n | n in Images(p, f, s) + if p(x) then {f(x)} else {}
      ensures n in Images(p, f, t)
    {
      if n in Images(p, f, s) {
        var i :| 0 <= i < |s| && p(s[i]) && f(s[i]) == n;
        assert t[i] == s[i];
      }
    }
  }

  /** Elements told apart by a number within a set are at most as many as the set has. */
  lemma {:induction false} CountIsSize<T>(p: T -> bool, f: T -> nat, s: seq<T>)
    requires Apart(p, f, s)
    ensures Count(p, s) == |Images(p, f, s)|
  {
    if s != [] {
      var n := |s| - 1;
      CountIsSize(p, f, s[..n]);
      ImagesAppend(p, f, s[..n], s[n]);
      assert s == s[..n] + [s[n]];
      if p(s[n]) {
        assert f(s[n]) !in Images(p, f, s[..n]);
      }
    }
  }

  lemma {:induction false} CountWithin<T>(p: T -> bool, f: T -> nat, s: seq<T>, ns: set<nat>)
    requires Apart(p, f, s) && forall i :: 0 <= i < |s| && p(s[i]) ==> f(s[i]) in ns
    ensures Count(p, s) <= |ns|
  {
    CountIsSize(p, f, s);
    SubsetSize(Images(p, f, s), ns);
  }
}
