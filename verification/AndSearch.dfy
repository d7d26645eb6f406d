/** The conjunctive search: the rarest term drives, the others are sought exactly. */
module AndSearch {
  import opened Ranking
  import opened Sums
  import opened QueryEval
  import opened Accumulator
  import opened Wand
  import opened PostingIterators
  import opened WandSearch

  /** A conjunctive query requires every one of its n terms. */
  ghost predicate RequiresAll(matcher: Matcher, n: nat) {
    matcher.eval.mode == MaskMode && matcher.eval.shape == PureAnd && matcher.eval.requiredMask == AllBits(n)
  }

  ghost predicate InAll(L: seq<seq<Live>>, d: nat) {
    forall i :: 0 <= i < |L| ==> Has(L[i], d)
  }

  ghost function AndVisit(L: seq<seq<Live>>, T: seq<NodeScore>, k: nat, d: nat): seq<NodeScore> {
    if InAll(L, d) && (|T| < k || DocScore(L, d) > Threshold(T, k)) then T + [Scored(L, d)] else T
  }

  /** The documents accepted when the driver has D ahead and T was accepted before. */
  ghost function AndRun(L: seq<seq<Live>>, D: seq<Live>, T: seq<NodeScore>, k: nat): seq<NodeScore> {
    if D == [] then T else AndRun(L, D[1..], AndVisit(L, T, k, D[0].node), k)
  }

  // ----- the run is exact

  lemma {:induction false} ConjunctiveMatch(L: seq<seq<Live>>, matcher: Matcher, d: nat)
    requires RequiresAll(matcher, |L|)
    ensures Matched(matcher, DocMask(L, d)) <==> InAll(L, d)
  {
    var m, all := DocMask(L, d), AllBits(|L|);
    if m * all == all {
      forall i | 0 <= i < |L|
        ensures Has(L[i], d)
      {
        assert i in all && i in m;
      }
    }
    assert InAll(L, d) ==> m * all == all;
  }

  /** x was accepted, or k accepted documents beat it. */
  ghost predicate Decided(r: seq<NodeScore>, k: nat, x: NodeScore) {
    x in r || (|r| >= k && Rank(Before, Elements(r), x) >= k)
  }

  ghost predicate AndFacts(L: seq<seq<Live>>, matcher: Matcher, k: nat, f: nat, T: seq<NodeScore>, r: seq<NodeScore>) {
    && T <= r && Increasing(r)
    && (forall x :: x in r ==> x in Matching(L, matcher))
    && (forall x :: x in Matching(L, matcher) && f <= x.node ==> Decided(r, k, x))
  }

  ghost predicate AndAccepted(L: seq<seq<Live>>, matcher: Matcher, f: nat, T: seq<NodeScore>) {
    && Increasing(T)
    && forall a :: 0 <= a < |T| ==> T[a].node < f && T[a] in Matching(L, matcher)
  }

  lemma {:induction false} DecidedExtends(T: seq<NodeScore>, r: seq<NodeScore>, k: nat, x: NodeScore)
    requires Decided(T, k, x) && T <= r
    ensures Decided(r, k, x)
  {
    assert forall y :: y in T ==> y in r;
    RankIsMonotone(Before, Elements(T), Elements(r), x);
  }

  lemma {:induction false} AndVisitDecides(L: seq<seq<Live>>, matcher: Matcher, k: nat, T: seq<NodeScore>, d: nat)
    requires L != [] && RequiresAll(matcher, |L|) && AndAccepted(L, matcher, d, T)
    ensures var T' := AndVisit(L, T, k, d);
            && T <= T' && AndAccepted(L, matcher, d + 1, T')
            && (Scored(L, d) in Matching(L, matcher) ==> Decided(T', k, Scored(L, d)))
  {
    ConjunctiveMatch(L, matcher, d);
    if InAll(L, d) {
      assert Has(L[0], d);
      InAllNodes(L, d);
      var x := Scored(L, d);
      if |T| < k || x.score > Threshold(T, k) {
        var T' := T + [x];
        assert T'[|T|] == x;
      } else {
        ThresholdBeats(T, k, x);
      }
    }
  }

  /** Every matching document from the frontier on is among what the driver has ahead. */
  lemma {:induction false} DriverHasAll(L: seq<seq<Live>>, matcher: Matcher, driver: nat, D: seq<Live>, f: nat,
                                        x: NodeScore)
    requires WellFormed(L) && RequiresAll(matcher, |L|) && driver < |L| && D == DropBelow(L[driver], f)
    requires x in Matching(L, matcher) && f <= x.node
    ensures Has(D, x.node)
  {
    ConjunctiveMatch(L, matcher, x.node);
    AheadUnchanged(L[driver], f, x.node);
  }

  lemma {:induction false} NextAhead(l: seq<Live>, f: nat)
    requires Ascending(l) && DropBelow(l, f) != []
    ensures var D := DropBelow(l, f); f <= D[0].node && DropBelow(l, D[0].node + 1) == D[1..]
  {
    var D := DropBelow(l, f);
    DropBelowFacts(l, f);
    DropTwice(l, f, D[0].node + 1);
    assert DropBelow(D, D[0].node + 1) == DropBelow(D[1..], D[0].node + 1);
  }

  lemma {:induction false} AndVisitKeeps(L: seq<seq<Live>>, matcher: Matcher, driver: nat, k: nat, f: nat,
                                         T: seq<NodeScore>, r: seq<NodeScore>)
    requires WellFormed(L) && RequiresAll(matcher, |L|) && driver < |L| && AndAccepted(L, matcher, f, T)
    requires DropBelow(L[driver], f) != []
    requires var d := DropBelow(L[driver], f)[0].node; AndFacts(L, matcher, k, d + 1, AndVisit(L, T, k, d), r)
    ensures AndFacts(L, matcher, k, f, T, r)
  {
    var D := DropBelow(L[driver], f);
    var d := D[0].node;
    DropBelowFacts(L[driver], f);
    AndVisitDecides(L, matcher, k, T, d);
    forall x | x in Matching(L, matcher) && f <= x.node
      ensures Decided(r, k, x)
    {
      DriverHasAll(L, matcher, driver, D, f, x);
      if x.node <= d {
        assert x.node == d;
        DecidedExtends(AndVisit(L, T, k, d), r, k, x);
      }
    }
  }

  lemma {:induction false} AndRunFacts(L: seq<seq<Live>>, matcher: Matcher, driver: nat, k: nat, f: nat,
                                       T: seq<NodeScore>)
    requires WellFormed(L) && RequiresAll(matcher, |L|) && driver < |L| && AndAccepted(L, matcher, f, T)
    ensures AndFacts(L, matcher, k, f, T, AndRun(L, DropBelow(L[driver], f), T, k))
    decreases |DropBelow(L[driver], f)|
  {
    var D := DropBelow(L[driver], f);
    if D == [] {
      forall x | x in Matching(L, matcher)
        ensures x.node < f
      {
        if f <= x.node {
          DriverHasAll(L, matcher, driver, D, f, x);
        }
      }
    } else {
      var d := D[0].node;
      var T' := AndVisit(L, T, k, d);
      NextAhead(L[driver], f);
      AndVisitDecides(L, matcher, k, T, d);
      AndRunFacts(L, matcher, driver, k, d + 1, T');
      AndVisitKeeps(L, matcher, driver, k, f, T, AndRun(L, D[1..], T', k));
    }
  }

  /** For any chunk layout, whatever is not accepted is beaten by k accepted documents. */
  lemma {:induction false} AndSuffices(L: seq<seq<Live>>, matcher: Matcher, driver: nat, k: nat)
    requires WellFormed(L) && RequiresAll(matcher, |L|) && driver < |L|
    ensures Suffices(Elements(AndRun(L, L[driver], [], k)), Matching(L, matcher), k)
  {
    assert DropBelow(L[driver], 0) == L[driver];
    AndRunFacts(L, matcher, driver, k, 0, []);
  }

  /** So the best k accepted are the best k of the documents that have every term. */
  lemma {:induction false} AndIsExact(L: seq<seq<Live>>, matcher: Matcher, driver: nat, k: nat, top: seq<NodeScore>)
    requires WellFormed(L) && RequiresAll(matcher, |L|) && driver < |L|
    requires IsTopK(Before, Elements(AndRun(L, L[driver], [], k)), k, top)
    ensures IsTopK(Before, Matching(L, matcher), k, top)
  {
    AndSuffices(L, matcher, driver, k);
    BeforeIsWeakOrder();
    PruneKeepsTopK(Before, Elements(AndRun(L, L[driver], [], k)), Matching(L, matcher), k, top);
  }

  /** A term without live postings leaves nothing to accept. */
  lemma {:induction false} MissingTerm(L: seq<seq<Live>>, driver: nat, i: nat, D: seq<Live>, k: nat)
    requires i < |L| && L[i] == []
    ensures AndRun(L, D, [], k) == []
  {
    if D != [] {
      assert !Has(L[i], D[0].node);
      MissingTerm(L, driver, i, D[1..], k);
    }
  }

  // ----- the loop

  ghost predicate LagsOne(r: seq<Live>, l: seq<Live>, f: nat) {
    DropBelow(r, f) == DropBelow(l, f)
  }

  /** Iterators other than the driver may lag behind the frontier, but have everything from it on. */
  ghost predicate Lagging(L: seq<seq<Live>>, R: seq<seq<Live>>, driver: nat, f: nat) {
    && |R| == |L| && driver < |L| && R[driver] == DropBelow(L[driver], f)
    && forall i {:trigger LagsOne(R[i], L[i], f)} :: 0 <= i < |L| ==> LagsOne(R[i], L[i], f)
  }

  lemma {:induction false} LaggingSeek(L: seq<seq<Live>>, R: seq<seq<Live>>, driver: nat, f: nat, i: nat)
    requires Lagging(L, R, driver, f) && i < |L| && i != driver
    ensures Lagging(L, R[i := DropBelow(R[i], f)], driver, f)
  {
    DropTwice(R[i], f, f);
    var R' := R[i := DropBelow(R[i], f)];
    forall j | 0 <= j < |L|
      ensures LagsOne(R'[j], L[j], f)
    {
      assert LagsOne(R[j], L[j], f);
    }
  }

  lemma {:induction false} LaggingLater(L: seq<seq<Live>>, R: seq<seq<Live>>, driver: nat, f: nat, f': nat)
    requires Lagging(L, R, driver, f) && f <= f'
    ensures Lagging(L, R[driver := DropBelow(R[driver], f')], driver, f')
  {
    var R' := R[driver := DropBelow(R[driver], f')];
    forall i | 0 <= i < |L|
      ensures LagsOne(R[i], L[i], f') && LagsOne(R'[i], L[i], f')
    {
      assert LagsOne(R[i], L[i], f);
      DropTwice(R[i], f, f');
      DropTwice(L[i], f, f');
      DropTwice(R[i], f', f');
    }
  }

  /** What seeking term i exactly to d finds. */
  lemma {:induction false} ExactSeek(l: seq<Live>, d: nat)
    requires Ascending(l)
    ensures var r := DropBelow(l, d);
            && (Has(l, d) <==> r != [] && r[0].node == d)
            && (Has(l, d) ==> r[0].score == ScoreIn(l, d))
  {
    DropBelowFacts(l, d);
    AheadUnchanged(l, d, d);
    var r := DropBelow(l, d);
    HeadScore(r, d);
    if r != [] && r[0].node == d {
      assert Has(r, d);
    }
  }

  method SeekExact(iters: seq<PostingIterator>, i: nat, d: nat, ghost R: seq<seq<Live>>) returns (found: bool,
                   score: real)
    requires Shows(iters, R) && i < |iters|
    modifies iters[i]
    ensures Shows(iters, R[i := DropBelow(R[i], d)])
    ensures found <==> DropBelow(R[i], d) != [] && DropBelow(R[i], d)[0].node == d
    ensures found ==> score == DropBelow(R[i], d)[0].score
  {
    SeekOne(iters, i, d, R);
    ghost var R' := R[i := DropBelow(R[i], d)];
    assert ShowsOne(iters[i], R'[i]);
    iters[i].Head();
    if iters[i].valid && iters[i].NodeId() == d {
      return true, iters[i].postings[iters[i].pos].score;
    }
    return false, 0.0;
  }

  /** The driver first, then the other terms in order. */
  ghost function DriverOrder(driver: nat, n: nat): seq<nat> {
    if n == 0 then [driver] else if n - 1 == driver then DriverOrder(driver, n - 1) else DriverOrder(driver, n - 1) + [n - 1]
  }

  lemma {:induction false} DriverOrderFacts(driver: nat, n: nat, all: nat)
    requires driver < all && n <= all
    ensures Indices(DriverOrder(driver, n), all)
    ensures forall i: nat :: i in DriverOrder(driver, n) <==> i == driver || i < n
  {
    if n > 0 {
      DriverOrderFacts(driver, n - 1, all);
      assert n - 1 != driver ==> n - 1 !in DriverOrder(driver, n - 1);
    }
  }

  /** The driver's score and those of the other ones among the first n terms. */
  ghost function PartialScore(L: seq<seq<Live>>, driver: nat, n: nat, d: nat): real
    requires driver < |L| && n <= |L|
  {
    if n == 0 then ScoreIn(L[driver], d)
    else PartialScore(L, driver, n - 1, d) + if n - 1 == driver then 0.0 else ScoreIn(L[n - 1], d)
  }

  lemma {:induction false} PartialIsPicked(L: seq<seq<Live>>, driver: nat, n: nat, d: nat)
    requires driver < |L| && n <= |L|
    ensures Indices(DriverOrder(driver, n), |L|)
    ensures PartialScore(L, driver, n, d) == Picked(TermScores(L, d), DriverOrder(driver, n))
  {
    DriverOrderFacts(driver, n, |L|);
    if n == 0 {
      assert DriverOrder(driver, 0) == [driver] && [driver][..0] == [];
      assert Picked(TermScores(L, d), [driver]) == 0.0 + TermScores(L, d)[driver];
    } else {
      PartialIsPicked(L, driver, n - 1, d);
      var o := DriverOrder(driver, n - 1);
      assert (o + [n - 1])[..|o|] == o;
    }
  }

  /** The order of summation does not matter: the driver's document gets its complete score. */
  lemma {:induction false} PartialIsComplete(L: seq<seq<Live>>, driver: nat, d: nat)
    requires driver < |L|
    ensures PartialScore(L, driver, |L|, d) == DocScore(L, d)
  {
    PartialIsPicked(L, driver, |L|, d);
    DriverOrderFacts(driver, |L|, |L|);
    PickedIsSum(TermScores(L, d), DriverOrder(driver, |L|));
  }

  ghost predicate InFirst(L: seq<seq<Live>>, n: nat, d: nat) {
    forall i :: 0 <= i < n && i < |L| ==> Has(L[i], d)
  }

  lemma {:induction false} SoughtTerm(L: seq<seq<Live>>, R: seq<seq<Live>>, driver: nat, d: nat, i: nat)
    requires WellFormed(L) && Lagging(L, R, driver, d) && i < |L|
    ensures var r := DropBelow(R[i], d);
            && (Has(L[i], d) <==> r != [] && r[0].node == d)
            && (Has(L[i], d) ==> r[0].score == ScoreIn(L[i], d))
  {
    assert LagsOne(R[i], L[i], d);
    ExactSeek(L[i], d);
  }

  /** The iterators on the way to document d of the driver. */
  ghost predicate Seeking(iters: seq<PostingIterator>, L: seq<seq<Live>>, R: seq<seq<Live>>, driver: nat, d: nat)
    reads iters
  {
    Shows(iters, R) && WellFormed(L) && Lagging(L, R, driver, d) && Has(L[driver], d)
  }

  /** The first t terms have d, and these are their scores added to the driver's. */
  ghost predicate VerifiedTo(L: seq<seq<Live>>, driver: nat, t: nat, d: nat, score: real) {
    driver < |L| && t <= |L| && InFirst(L, t, d) && score == PartialScore(L, driver, t, d)
  }

  lemma {:induction false} VerifiedStep(L: seq<seq<Live>>, driver: nat, t: nat, d: nat, score: real, s: real)
    requires VerifiedTo(L, driver, t, d, score) && t < |L| && Has(L[t], d)
    requires s == if t == driver then 0.0 else ScoreIn(L[t], d)
    ensures VerifiedTo(L, driver, t + 1, d, score + s)
  {
  }

  lemma {:induction false} VerifiedNone(L: seq<seq<Live>>, driver: nat, d: nat)
    requires driver < |L|
    ensures VerifiedTo(L, driver, 0, d, ScoreIn(L[driver], d))
  {
  }

  /** Whether d has all terms, and then its complete score. */
  ghost predicate Verdict(L: seq<seq<Live>>, d: nat, verified: bool, score: real) {
    (verified <==> InAll(L, d)) && (verified ==> score == DocScore(L, d))
  }

  lemma {:induction false} VerifiedAll(L: seq<seq<Live>>, driver: nat, d: nat, score: real)
    requires VerifiedTo(L, driver, |L|, d, score)
    ensures Verdict(L, d, true, score)
  {
    PartialIsComplete(L, driver, d);
  }

  /** Seeks term t to d, unless it is the driver, and adds its score; the other iterators stay. */
  method VerifyTerm(iters: seq<PostingIterator>, driver: nat, d: nat, t: nat, score: real,
                    ghost L: seq<seq<Live>>, ghost R: seq<seq<Live>>)
    returns (found: bool, score': real, ghost R': seq<seq<Live>>)
    requires Seeking(iters, L, R, driver, d) && t < |L| && VerifiedTo(L, driver, t, d, score)
    modifies iters
    ensures Seeking(iters, L, R', driver, d)
    ensures if found then VerifiedTo(L, driver, t + 1, d, score') else Verdict(L, d, false, score')
  {
    if t == driver {
      VerifiedStep(L, driver, t, d, score, 0.0);
      return true, score, R;
    }
    SoughtTerm(L, R, driver, d, t);
    LaggingSeek(L, R, driver, d, t);
    var s;
    found, s := SeekExact(iters, t, d, R);
    R' := R[t := DropBelow(R[t], d)];
    score' := score + s;
    if found {
      VerifiedStep(L, driver, t, d, score, s);
    }
  }

  /** Verifies the driver's document against the other terms, stopping at the first that lacks it. */
  method VerifyDocument(iters: seq<PostingIterator>, driver: nat, d: nat, driverScore: real,
                        ghost L: seq<seq<Live>>, ghost R0: seq<seq<Live>>)
    returns (verified: bool, score: real, ghost R: seq<seq<Live>>)
    requires Seeking(iters, L, R0, driver, d) && driverScore == ScoreIn(L[driver], d)
    modifies iters
    ensures Seeking(iters, L, R, driver, d)
    ensures Verdict(L, d, verified, score)
  {
    R, score, verified := R0, driverScore, true;
    VerifiedNone(L, driver, d);
    var n, t := |iters|, 0;
    assert n == |L|;
    while t < n && verified
      invariant 0 <= t <= |L| && Seeking(iters, L, R, driver, d)
      invariant if verified then VerifiedTo(L, driver, t, d, score) else Verdict(L, d, false, score)
    {
      verified, score, R := VerifyTerm(iters, driver, d, t, score, L, R);
      t := t + 1;
    }
    if verified {
      VerifiedAll(L, driver, d, score);
    }
  }

  lemma {:induction false} AndScoreNonNegative(L: seq<seq<Live>>, d: nat)
    requires WellFormed(L)
    ensures DocScore(L, d) >= 0.0
  {
    var zeros := seq(|L|, i => 0.0);
    forall i | 0 <= i < |L|
      ensures zeros[i] <= TermScores(L, d)[i]
    {
      if Has(L[i], d) {
        var a :| 0 <= a < |L[i]| && L[i][a].node == d;
        ScoreOfMember(L[i], a);
      } else {
        ScoreOfAbsent(L[i], d);
      }
    }
    SumMonotone(zeros, TermScores(L, d));
    SumZero(zeros);
  }

  method OfferVerified(acc: QueryAccumulator, q: Query, d: nat, verified: bool, score: real,
                       ghost L: seq<seq<Live>>, ghost T: seq<NodeScore>)
    requires WellFormed(L) && Holds(acc, T, q) && Matched(q.matcher, q.matcher.eval.requiredMask)
    requires Verdict(L, d, verified, score)
    requires forall a :: 0 <= a < |T| ==> T[a].node < d
    modifies acc, acc.topHeap
    ensures Holds(acc, AndVisit(L, T, q.k, d), q)
  {
    var threshold := KthScore(acc, q.k, T, q);
    if verified && (|acc.touched| < q.k || score > threshold) {
      AndScoreNonNegative(L, d);
      Accept(acc, d, score, q.matcher.eval.requiredMask, T, q);
    }
  }

  /** The first of the terms with the smallest document frequency. */
  method RarestTerm(dfs: seq<nat>) returns (driver: nat)
    requires dfs != []
    ensures driver < |dfs| && forall i :: 0 <= i < |dfs| ==> dfs[driver] <= dfs[i]
    ensures forall i :: 0 <= i < driver ==> dfs[driver] < dfs[i]
  {
    driver := 0;
    for t := 1 to |dfs|
      invariant driver < t && (forall i :: 0 <= i < t ==> dfs[driver] <= dfs[i])
      invariant forall i :: 0 <= i < driver ==> dfs[driver] < dfs[i]
    {
      if dfs[t] < dfs[driver] {
        driver := t;
      }
    }
  }

  ghost predicate AndProgress(L: seq<seq<Live>>, R: seq<seq<Live>>, driver: nat, T: seq<NodeScore>, k: nat, f: nat) {
    && Lagging(L, R, driver, f)
    && (forall a :: 0 <= a < |T| ==> T[a].node < f)
    && AndRun(L, R[driver], T, k) == AndRun(L, L[driver], [], k)
  }

  lemma {:induction false} DriverDocument(L: seq<seq<Live>>, R: seq<seq<Live>>, driver: nat, f: nat)
    requires WellFormed(L) && Lagging(L, R, driver, f) && R[driver] != []
    ensures var d := R[driver][0].node;
            && f <= d && Lagging(L, R, driver, d)
            && Has(L[driver], d) && R[driver][0].score == ScoreIn(L[driver], d)
  {
    var d := R[driver][0].node;
    NextAhead(L[driver], f);
    DropTwice(L[driver], f, d);
    DropShrinks(R[driver], d);
    forall i | 0 <= i < |L|
      ensures LagsOne(R[i], L[i], d)
    {
      assert LagsOne(R[i], L[i], f);
      DropTwice(R[i], f, d);
      DropTwice(L[i], f, d);
    }
    ExactSeek(L[driver], d);
  }

  lemma {:induction false} AndNext(L: seq<seq<Live>>, R: seq<seq<Live>>, driver: nat, T: seq<NodeScore>, k: nat,
                                   f: nat, R1: seq<seq<Live>>, d: nat)
    returns (R': seq<seq<Live>>, T': seq<NodeScore>, f': nat)
    requires WellFormed(L) && AndProgress(L, R, driver, T, k, f) && R[driver] != []
    requires Lagging(L, R1, driver, d) && d == R[driver][0].node
    ensures R' == R1[driver := DropBelow(R1[driver], d + 1)] && T' == AndVisit(L, T, k, d)
    ensures AndProgress(L, R', driver, T', k, f') && |R'[driver]| < |R[driver]|
  {
    R', T', f' := R1[driver := DropBelow(R1[driver], d + 1)], AndVisit(L, T, k, d), d + 1;
    DriverDocument(L, R, driver, f);
    LaggingLater(L, R1, driver, d, d + 1);
    NextAhead(L[driver], f);
    DropTwice(L[driver], d, d + 1);
  }

  /** Verifies the document the driver stands on. */
  method VerifyDriver(iters: seq<PostingIterator>, driver: nat, ghost k: nat,
                      ghost L: seq<seq<Live>>, ghost R: seq<seq<Live>>, ghost T: seq<NodeScore>, ghost f: nat)
    returns (d: nat, verified: bool, score: real,
             ghost R1: seq<seq<Live>>, ghost R': seq<seq<Live>>, ghost T': seq<NodeScore>, ghost f': nat)
    requires Shows(iters, R) && WellFormed(L) && AndProgress(L, R, driver, T, k, f) && R[driver] != []
    modifies iters
    ensures Shows(iters, R1) && |R1| == |L| && driver < |L| && R' == R1[driver := DropBelow(R1[driver], d + 1)]
    ensures verified <==> InAll(L, d)
    ensures verified ==> score == DocScore(L, d)
    ensures f <= d && T' == AndVisit(L, T, k, d)
    ensures AndProgress(L, R', driver, T', k, f') && |R'[driver]| < |R[driver]|
  {
    ReadHead(iters, R, driver);
    DriverDocument(L, R, driver, f);
    d := iters[driver].NodeId();
    var driverScore := iters[driver].postings[iters[driver].pos].score;
    verified, score, R1 := VerifyDocument(iters, driver, d, driverScore, L, R);
    R', T', f' := AndNext(L, R, driver, T, k, f, R1, d);
  }

  method OfferAndAdvance(iters: seq<PostingIterator>, acc: QueryAccumulator, q: Query, driver: nat,
                         d: nat, verified: bool, score: real,
                         ghost L: seq<seq<Live>>, ghost T: seq<NodeScore>, ghost R: seq<seq<Live>>)
    requires Shows(iters, R) && driver < |R|
    requires WellFormed(L) && Holds(acc, T, q) && Matched(q.matcher, q.matcher.eval.requiredMask)
    requires Verdict(L, d, verified, score)
    requires forall a :: 0 <= a < |T| ==> T[a].node < d
    modifies iters, acc, acc.topHeap
    ensures Shows(iters, R[driver := DropBelow(R[driver], d + 1)]) && Holds(acc, AndVisit(L, T, q.k, d), q)
  {
    OfferVerified(acc, q, d, verified, score, L, T);
    SeekOne(iters, driver, d + 1, R);
  }

  /** One document of the driver. */
  method AndPass(iters: seq<PostingIterator>, acc: QueryAccumulator, q: Query, driver: nat,
                 ghost L: seq<seq<Live>>, ghost R: seq<seq<Live>>, ghost T: seq<NodeScore>, ghost f: nat)
    returns (ghost R': seq<seq<Live>>, ghost T': seq<NodeScore>, ghost f': nat)
    requires Shows(iters, R) && WellFormed(L) && Holds(acc, T, q) && AndProgress(L, R, driver, T, q.k, f)
    requires Matched(q.matcher, q.matcher.eval.requiredMask) && R[driver] != []
    modifies iters, acc, acc.topHeap
    ensures Shows(iters, R') && Holds(acc, T', q) && AndProgress(L, R', driver, T', q.k, f')
    ensures |R'[driver]| < |R[driver]|
  {
    var d, verified, score;
    ghost var R1;
    d, verified, score, R1, R', T', f' := VerifyDriver(iters, driver, q.k, L, R, T, f);
    OfferAndAdvance(iters, acc, q, driver, d, verified, score, L, T, R1);
  }

  /** The loop leaves in the accumulator exactly what the run accepts. */
  method ScoreBaseAnd(iters: seq<PostingIterator>, acc: QueryAccumulator, q: Query, driver: nat,
                      ghost L: seq<seq<Live>>)
    requires Shows(iters, L) && WellFormed(L) && Holds(acc, [], q) && driver < |L|
    requires Matched(q.matcher, q.matcher.eval.requiredMask)
    modifies iters, acc, acc.topHeap
    ensures Holds(acc, AndRun(L, L[driver], [], q.k), q)
  {
    ghost var R: seq<seq<Live>>, T: seq<NodeScore>, f: nat := L, [], 0;
    assert ShowsOne(iters[driver], R[driver]);
    iters[driver].Head();
    while iters[driver].valid
      invariant Shows(iters, R) && Holds(acc, T, q) && AndProgress(L, R, driver, T, q.k, f)
      invariant iters[driver].valid <==> R[driver] != []
      decreases |R[driver]|
    {
      R, T, f := AndPass(iters, acc, q, driver, L, R, T, f);
      assert ShowsOne(iters[driver], R[driver]);
      iters[driver].Head();
    }
  }
}
