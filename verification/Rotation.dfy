/**
 The vector rotation behind the codes: greedy power-of-two Hadamard chunks, then three rounds
 of a seeded permutation and the same chunks.  In exact arithmetic it preserves the inner
 product of any two vectors of any dimension.

 The passes are first treated with an abstract measure of a range of components in place of
 the inner product, and an abstract normalization in place of the product by 1 / sqrt(2^e).
 */
module Rotation {
  import opened Integers

  // ----- passes

  /** Pairwise sums and differences of the 2h components from start on. */
  function Block(s: seq<real>, start: nat, h: nat): (r: seq<real>)
    requires start + 2 * h <= |s|
    ensures |r| == |s|
  {
    seq(|s|, i requires 0 <= i < |s| =>
      if start <= i < start + h then s[i] + s[i + h]
      else if start + h <= i < start + 2 * h then s[i - h] - s[i]
      else s[i])
  }

  /** The number of components in so many blocks of 2h. */
  function Span(h: nat, blocks: nat): nat {
    if blocks == 0 then 0 else 2 * h + Span(h, blocks - 1)
  }

  /** One level: butterflies on consecutive blocks. */
  function Level(s: seq<real>, start: nat, h: nat, blocks: nat): (r: seq<real>)
    requires start + Span(h, blocks) <= |s|
    ensures |r| == |s|
    ensures forall i :: (0 <= i < start || start + Span(h, blocks) <= i < |s|) ==> r[i] == s[i]
    decreases blocks
  {
    if blocks == 0 then s else Level(Block(s, start, h), start + 2 * h, h, blocks - 1)
  }

  lemma {:induction false} SpanSplits(h: nat, a: nat, b: nat)
    ensures Span(h, a + b) == Span(h, a) + Span(h, b)
  {
    if a > 0 {
      SpanSplits(h, a - 1, b);
    }
  }

  lemma {:induction false} SpanOfPowers(l: nat, k: nat)
    ensures Span(Pow2(l), Pow2(k)) == Pow2(l + k + 1)
  {
    if k == 0 {
      assert Span(Pow2(l), 1) == 2 * Pow2(l) + Span(Pow2(l), 0);
    } else {
      SpanOfPowers(l, k - 1);
      SpanSplits(Pow2(l), Pow2(k - 1), Pow2(k - 1));
    }
  }

  /** The blocks of level l tile a chunk of size 2^e exactly. */
  lemma {:induction false} Tiling(l: nat, e: nat)
    requires l < e
    ensures Span(Pow2(l), Pow2(e - l - 1)) == Pow2(e)
  {
    SpanOfPowers(l, e - l - 1);
  }

  /** How a component of a chunk of the given size is normalized. */
  type Norms = (nat, real) -> real

  function Scale(s: seq<real>, lo: nat, size: nat, norms: Norms): (r: seq<real>)
    requires lo + size <= |s|
    ensures |r| == |s|
  {
    seq(|s|, i requires 0 <= i < |s| => if lo <= i < lo + size then norms(size, s[i]) else s[i])
  }

  /** The levels from l on of a chunk of size 2^e, and then its normalization. */
  function Chunk(s: seq<real>, start: nat, l: nat, e: nat, norms: Norms): (r: seq<real>)
    requires l <= e && start + Pow2(e) <= |s|
    ensures |r| == |s|
    ensures forall i :: (0 <= i < start || start + Pow2(e) <= i < |s|) ==> r[i] == s[i]
    decreases e - l
  {
    if l == e then Scale(s, start, Pow2(e), norms)
    else
      Tiling(l, e);
      Chunk(Level(s, start, Pow2(l), Pow2(e - l - 1)), start, l + 1, e, norms)
  }

  /** The exponent of the largest power of two that is at most n. */
  function Log2(n: nat): (e: nat)
    requires n > 0
    ensures Pow2(e) <= n < 2 * Pow2(e)
  {
    if n == 1 then 0 else Log2(n / 2) + 1
  }

  /** Greedy chunks over the remaining components from offset on. */
  function Chunks(s: seq<real>, offset: nat, remaining: nat, norms: Norms): (r: seq<real>)
    requires offset + remaining == |s|
    ensures |r| == |s|
    ensures forall i :: 0 <= i < offset ==> r[i] == s[i]
    decreases remaining
  {
    if remaining == 0 then s
    else
      var e := Log2(remaining);
      Chunks(Chunk(s, offset, 0, e, norms), offset + Pow2(e), remaining - Pow2(e), norms)
  }

  const TWO_64: nat := 0x1_0000_0000_0000_0000

  /** Multiplication and addition wrap at 64 bits. */
  function LcgNext(state: nat): nat {
    (state * 6364136223846793005 + 1442695040888963407) % TWO_64
  }

  function BoundedRand(value: nat, bound: nat): (r: nat)
    requires bound > 0
    ensures r < bound
  {
    (value / 0x1_0000_0000) % bound
  }

  function Swapped(s: seq<real>, i: nat, j: nat): (r: seq<real>)
    requires i < |s| && j < |s|
    ensures |r| == |s|
  {
    s[i := s[j]][j := s[i]]
  }

  /** The swaps for positions i, i - 1, ..., 1. */
  function Permuted(s: seq<real>, i: nat, state: nat): (r: seq<real>)
    requires i < |s| || i == 0
    ensures |r| == |s|
    decreases i
  {
    if i == 0 then s
    else
      var next := LcgNext(state);
      Permuted(Swapped(s, i, BoundedRand(next, i + 1)), i - 1, next)
  }

  const SEEDS: seq<nat> := [654605292835415893, 8636605637963351413, 1775280196666917949]

  function Last(s: seq<real>): nat { if |s| > 0 then |s| - 1 else 0 }

  function Round(s: seq<real>, seed: nat, norms: Norms): (r: seq<real>)
    ensures |r| == |s|
  {
    Chunks(Permuted(s, Last(s), seed), 0, |s|, norms)
  }

  function Rounds(s: seq<real>, seeds: seq<nat>, norms: Norms): (r: seq<real>)
    ensures |r| == |s|
    decreases |seeds|
  {
    if seeds == [] then s else Rounds(Round(s, seeds[0], norms), seeds[1..], norms)
  }

  function Rotated(s: seq<real>, norms: Norms): (r: seq<real>)
    ensures |r| == |s|
  {
    Rounds(Chunks(s, 0, |s|, norms), SEEDS, norms)
  }

  // ----- measures

  /** A number for the components lo..hi-1 of two vectors. */
  type Measure = (seq<real>, seq<real>, nat, nat) -> real

  ghost predicate Fits(x: seq<real>, y: seq<real>, lo: nat, hi: nat) {
    lo <= hi <= |x| == |y|
  }

  ghost predicate Splits(D: Measure, x: seq<real>, y: seq<real>, lo: nat, mid: nat, hi: nat) {
    Fits(x, y, lo, hi) && lo <= mid <= hi ==> D(x, y, lo, hi) == D(x, y, lo, mid) + D(x, y, mid, hi)
  }

  ghost predicate Same(x: seq<real>, x': seq<real>, lo: nat, hi: nat) {
    |x| == |x'| && hi <= |x| && forall i :: lo <= i < hi ==> x[i] == x'[i]
  }

  ghost predicate Local(D: Measure, x: seq<real>, y: seq<real>, x': seq<real>, y': seq<real>, lo: nat, hi: nat) {
    Fits(x, y, lo, hi) && Same(x, x', lo, hi) && Same(y, y', lo, hi) ==> D(x, y, lo, hi) == D(x', y', lo, hi)
  }

  /** A block doubles its measure. */
  ghost predicate Doubles(D: Measure, x: seq<real>, y: seq<real>, start: nat, h: nat) {
    Fits(x, y, start, start + 2 * h) ==>
      D(Block(x, start, h), Block(y, start, h), start, start + 2 * h) == 2.0 * D(x, y, start, start + 2 * h)
  }

  ghost function Doubled(d: real, k: nat): real
    decreases k
  {
    if k == 0 then d else Doubled(2.0 * d, k - 1)
  }

  /** Normalizing a chunk of size 2^e takes back e doublings. */
  ghost predicate Shrinks(D: Measure, norms: Norms, x: seq<real>, y: seq<real>, lo: nat, size: nat, e: nat) {
    Fits(x, y, lo, lo + size) && size == Pow2(e) ==>
      Doubled(D(Scale(x, lo, size, norms), Scale(y, lo, size, norms), lo, lo + size), e) == D(x, y, lo, lo + size)
  }

  ghost predicate Exchanges(D: Measure, x: seq<real>, y: seq<real>, i: nat, j: nat) {
    |x| == |y| && i < |x| && j < |x| ==> D(Swapped(x, i, j), Swapped(y, i, j), 0, |x|) == D(x, y, 0, |x|)
  }

  /** What the passes need to know of a measure and a normalization, up to a dimension. */
  ghost predicate Lawful(D: Measure, norms: Norms, dim: nat) {
    && (forall x, y, lo, mid, hi :: Splits(D, x, y, lo, mid, hi))
    && (forall x, y, x', y', lo, hi :: Local(D, x, y, x', y', lo, hi))
    && (forall x, y, start, h :: Doubles(D, x, y, start, h))
    && (forall x, y, lo, size, e :: |x| == dim ==> Shrinks(D, norms, x, y, lo, size, e))
    && (forall x, y, i, j :: Exchanges(D, x, y, i, j))
  }

  /** A pass over lo..mid-1 and then one over mid..hi-1, each multiplying the measure by c. */
  lemma {:induction false} TwoPasses(D: Measure, norms: Norms, dim: nat, c: real, x: seq<real>, y: seq<real>,
                                     x1: seq<real>, y1: seq<real>,
                  x2: seq<real>, y2: seq<real>, lo: nat, mid: nat, hi: nat)
    requires Lawful(D, norms, dim) && |x| == dim && lo <= mid <= hi <= |x| && |y| == |x|
    requires Same(x, x1, mid, hi) && Same(y, y1, mid, hi) && Same(x1, x2, lo, mid) && Same(y1, y2, lo, mid)
    requires c == 1.0 || c == 2.0
    requires D(x1, y1, lo, mid) == c * D(x, y, lo, mid) && D(x2, y2, mid, hi) == c * D(x1, y1, mid, hi)
    ensures D(x2, y2, lo, hi) == c * D(x, y, lo, hi)
  {
    assert Splits(D, x, y, lo, mid, hi) && Splits(D, x2, y2, lo, mid, hi);
    assert Local(D, x, y, x1, y1, mid, hi) && Local(D, x1, y1, x2, y2, lo, mid);
  }

  lemma {:induction false} BlockIsLocal(s: seq<real>, start: nat, h: nat, hi: nat)
    requires start + 2 * h <= hi <= |s|
    ensures Same(s, Block(s, start, h), start + 2 * h, hi)
  {
  }

  lemma {:induction false} LevelDoubles(D: Measure, norms: Norms, dim: nat, x: seq<real>, y: seq<real>, start: nat,
                                        h: nat, blocks: nat)
    requires Lawful(D, norms, dim) && |x| == dim && |x| == |y| && start + Span(h, blocks) <= |x|
    ensures D(Level(x, start, h, blocks), Level(y, start, h, blocks), start, start + Span(h, blocks)) ==
            2.0 * D(x, y, start, start + Span(h, blocks))
    decreases blocks
  {
    if blocks == 0 {
      assert Splits(D, x, y, start, start, start);
    } else {
      var mid, hi := start + 2 * h, start + Span(h, blocks);
      BlockIsLocal(x, start, h, hi);
      BlockIsLocal(y, start, h, hi);
      var bx, bz := Block(x, start, h), Block(y, start, h);
      LevelDoubles(D, norms, dim, bx, bz, mid, h, blocks - 1);
      assert Doubles(D, x, y, start, h);
      TwoPasses(D, norms, dim, 2.0, x, y, bx, bz, Level(bx, mid, h, blocks - 1), Level(bz, mid, h, blocks - 1), start, mid, hi);
    }
  }

  lemma {:induction false} DoubledOnce(d: real, k: nat)
    ensures Doubled(d, k + 1) == 2.0 * Doubled(d, k)
    decreases k
  {
    if k > 0 {
      DoubledOnce(2.0 * d, k - 1);
    }
  }

  /** After l levels a chunk measures 2^l times what it ends up with. */
  lemma {:induction false} ChunkShrinks(D: Measure, norms: Norms, dim: nat, x: seq<real>, y: seq<real>, start: nat,
                                        l: nat, e: nat)
    requires Lawful(D, norms, dim) && |x| == |y| == dim && l <= e && start + Pow2(e) <= dim
    ensures Doubled(D(Chunk(x, start, l, e, norms), Chunk(y, start, l, e, norms), start, start + Pow2(e)), l) == D(x, y, start, start + Pow2(e))
    decreases e - l
  {
    if l == e {
      assert Shrinks(D, norms, x, y, start, Pow2(e), e);
    } else {
      Tiling(l, e);
      var h, blocks := Pow2(l), Pow2(e - l - 1);
      var lx, ly := Level(x, start, h, blocks), Level(y, start, h, blocks);
      LevelDoubles(D, norms, dim, x, y, start, h, blocks);
      ChunkShrinks(D, norms, dim, lx, ly, start, l + 1, e);
      DoubledOnce(D(Chunk(lx, start, l + 1, e, norms), Chunk(ly, start, l + 1, e, norms), start, start + Pow2(e)), l);
    }
  }

  /** A normalized chunk keeps the measure of its components. */
  lemma {:induction false} ChunkPreserves(D: Measure, norms: Norms, dim: nat, x: seq<real>, y: seq<real>, start: nat,
                                          e: nat)
    requires Lawful(D, norms, dim) && |x| == |y| == dim && start + Pow2(e) <= dim
    ensures D(Chunk(x, start, 0, e, norms), Chunk(y, start, 0, e, norms), start, start + Pow2(e)) == D(x, y, start, start + Pow2(e))
  {
    ChunkShrinks(D, norms, dim, x, y, start, 0, e);
  }

  lemma {:induction false} ChunksAreLocal(s: seq<real>, offset: nat, e: nat, left: nat, norms: Norms)
    requires offset + Pow2(e) + left == |s|
    ensures var c := Chunk(s, offset, 0, e, norms);
            Same(s, c, offset + Pow2(e), |s|) && Same(c, Chunks(c, offset + Pow2(e), left, norms), offset, offset + Pow2(e))
  {
  }

  /** One chunk more, when the chunks after it preserve the measure of theirs. */
  lemma {:induction false} ChunksStep(D: Measure, norms: Norms, dim: nat, x: seq<real>, y: seq<real>, cx: seq<real>,
                                      cy: seq<real>,
                                      rx: seq<real>, ry: seq<real>, offset: nat, e: nat, left: nat)
    requires Lawful(D, norms, dim) && |x| == |y| == dim && offset + Pow2(e) + left == dim
    requires cx == Chunk(x, offset, 0, e, norms) && rx == Chunks(cx, offset + Pow2(e), left, norms)
    requires cy == Chunk(y, offset, 0, e, norms) && ry == Chunks(cy, offset + Pow2(e), left, norms)
    requires D(rx, ry, offset + Pow2(e), dim) == D(cx, cy, offset + Pow2(e), dim)
    ensures D(rx, ry, offset, dim) == D(x, y, offset, dim)
  {
    ChunksAreLocal(x, offset, e, left, norms);
    ChunksAreLocal(y, offset, e, left, norms);
    ChunkPreserves(D, norms, dim, x, y, offset, e);
    BothPreserve(D, norms, dim, x, y, cx, cy, rx, ry, offset, offset + Pow2(e));
  }

  lemma {:induction false} ChunksPreserve(D: Measure, norms: Norms, dim: nat, x: seq<real>, y: seq<real>, offset: nat,
                                          remaining: nat)
    requires Lawful(D, norms, dim) && |x| == |y| == dim && offset + remaining == dim
    ensures D(Chunks(x, offset, remaining, norms), Chunks(y, offset, remaining, norms), offset, dim) == D(x, y, offset, dim)
    decreases remaining
  {
    if remaining > 0 {
      var e := Log2(remaining);
      var mid, left := offset + Pow2(e), remaining - Pow2(e);
      var cx, cy := Chunk(x, offset, 0, e, norms), Chunk(y, offset, 0, e, norms);
      var rx, ry := Chunks(cx, mid, left, norms), Chunks(cy, mid, left, norms);
      ChunksPreserve(D, norms, dim, cx, cy, mid, left);
      ChunksStep(D, norms, dim, x, y, cx, cy, rx, ry, offset, e, left);
    }
  }

  lemma {:induction false} BothPreserve(D: Measure, norms: Norms, dim: nat, x: seq<real>, y: seq<real>, x1: seq<real>,
                                        y1: seq<real>,
                     x2: seq<real>, y2: seq<real>, lo: nat, mid: nat)
    requires Lawful(D, norms, dim) && |x| == |y| == dim && lo <= mid <= dim
    requires Same(x, x1, mid, dim) && Same(y, y1, mid, dim) && Same(x1, x2, lo, mid) && Same(y1, y2, lo, mid)
    requires D(x1, y1, lo, mid) == D(x, y, lo, mid) && D(x2, y2, mid, dim) == D(x1, y1, mid, dim)
    ensures D(x2, y2, lo, dim) == D(x, y, lo, dim)
  {
    TwoPasses(D, norms, dim, 1.0, x, y, x1, y1, x2, y2, lo, mid, dim);
  }

  lemma {:induction false} PermutedPreserves(D: Measure, norms: Norms, dim: nat, x: seq<real>, y: seq<real>, i: nat,
                                             state: nat)
    requires Lawful(D, norms, dim) && |x| == dim && |x| == |y| && (i < |x| || i == 0)
    ensures D(Permuted(x, i, state), Permuted(y, i, state), 0, |x|) == D(x, y, 0, |x|)
    decreases i
  {
    if i > 0 {
      var next := LcgNext(state);
      var j := BoundedRand(next, i + 1);
      assert Exchanges(D, x, y, i, j);
      PermutedPreserves(D, norms, dim, Swapped(x, i, j), Swapped(y, i, j), i - 1, next);
    }
  }

  lemma {:induction false} RoundsPreserve(D: Measure, norms: Norms, dim: nat, x: seq<real>, y: seq<real>,
                                          seeds: seq<nat>)
    requires Lawful(D, norms, dim) && |x| == dim && |x| == |y|
    ensures D(Rounds(x, seeds, norms), Rounds(y, seeds, norms), 0, |x|) == D(x, y, 0, |x|)
    decreases |seeds|
  {
    if seeds != [] {
      PermutedPreserves(D, norms, dim, x, y, Last(x), seeds[0]);
      ChunksPreserve(D, norms, dim, Permuted(x, Last(x), seeds[0]), Permuted(y, Last(x), seeds[0]), 0, |x|);
      RoundsPreserve(D, norms, dim, Round(x, seeds[0], norms), Round(y, seeds[0], norms), seeds[1..]);
    }
  }

  lemma {:induction false} MeasurePreserved(D: Measure, norms: Norms, dim: nat, x: seq<real>, y: seq<real>)
    requires Lawful(D, norms, dim) && |x| == dim && |x| == |y|
    ensures D(Rotated(x, norms), Rotated(y, norms), 0, |x|) == D(x, y, 0, |x|)
  {
    ChunksPreserve(D, norms, dim, x, y, 0, |x|);
    RoundsPreserve(D, norms, dim, Chunks(x, 0, |x|, norms), Chunks(y, 0, |x|, norms), SEEDS);
  }

  // ----- the inner product is such a measure

  function Times(a: real, b: real): real { a * b }

  /** The inner product of the components lo..hi-1. */
  ghost function Dot(x: seq<real>, y: seq<real>, lo: nat, hi: nat): real
    requires Fits(x, y, lo, hi)
    decreases hi
  {
    if lo == hi then 0.0 else Dot(x, y, lo, hi - 1) + Times(x[hi - 1], y[hi - 1])
  }

  ghost const DOT: Measure := (x: seq<real>, y: seq<real>, lo: nat, hi: nat) => if Fits(x, y, lo, hi) then Dot(x, y, lo, hi) else 0.0

  lemma {:induction false} DotSplits(x: seq<real>, y: seq<real>, lo: nat, mid: nat, hi: nat)
    requires Fits(x, y, lo, hi) && lo <= mid <= hi
    ensures Dot(x, y, lo, hi) == Dot(x, y, lo, mid) + Dot(x, y, mid, hi)
    decreases hi
  {
    if mid < hi {
      DotSplits(x, y, lo, mid, hi - 1);
    }
  }

  lemma {:induction false} DotIsLocal(x: seq<real>, y: seq<real>, x': seq<real>, y': seq<real>, lo: nat, hi: nat)
    requires Fits(x, y, lo, hi) && Same(x, x', lo, hi) && Same(y, y', lo, hi)
    ensures Dot(x, y, lo, hi) == Dot(x', y', lo, hi)
    decreases hi
  {
    if lo < hi {
      DotIsLocal(x, y, x', y', lo, hi - 1);
    }
  }

  lemma {:induction false} Butterfly(a: real, b: real, c: real, d: real)
    ensures (a + b) * (c + d) + (a - b) * (c - d) == 2.0 * (a * c) + 2.0 * (b * d)
  {
    assert (a + b) * (c + d) == a * c + a * d + b * c + b * d;
    assert (a - b) * (c - d) == a * c - a * d - b * c + b * d;
  }

  lemma {:induction false} PairDoubles(x: seq<real>, y: seq<real>, start: nat, h: nat, p: nat, q: nat)
    requires Fits(x, y, start, start + 2 * h) && start <= p < start + h && q == p + h
    ensures var bx, bz := Block(x, start, h), Block(y, start, h);
            Times(bx[p], bz[p]) + Times(bx[q], bz[q]) == 2.0 * Times(x[p], y[p]) + 2.0 * Times(x[q], y[q])
  {
    var bx, bz := Block(x, start, h), Block(y, start, h);
    var a, b, c, d := x[p], x[q], y[p], y[q];
    assert bx[p] == a + b && bz[p] == c + d && bx[q] == a - b && bz[q] == c - d;
    Butterfly(a, b, c, d);
  }

  /** Products at p and q that add up to twice other products extend two sums that do. */
  lemma {:induction false} AddPair(bx: seq<real>, bz: seq<real>, x: seq<real>, y: seq<real>, lo: nat, mid: nat,
                                   p: nat, q: nat)
    requires Fits(bx, bz, lo, p + 1) && Fits(bx, bz, mid, q + 1) && Fits(x, y, lo, p + 1) && Fits(x, y, mid, q + 1) && lo <= p && mid <= q
    requires Dot(bx, bz, lo, p) + Dot(bx, bz, mid, q) == 2.0 * Dot(x, y, lo, p) + 2.0 * Dot(x, y, mid, q)
    requires Times(bx[p], bz[p]) + Times(bx[q], bz[q]) == 2.0 * Times(x[p], y[p]) + 2.0 * Times(x[q], y[q])
    ensures Dot(bx, bz, lo, p + 1) + Dot(bx, bz, mid, q + 1) == 2.0 * Dot(x, y, lo, p + 1) + 2.0 * Dot(x, y, mid, q + 1)
  {
  }

  lemma {:induction false} HalvesDouble(x: seq<real>, y: seq<real>, start: nat, h: nat, p: nat)
    requires Fits(x, y, start, start + 2 * h) && start <= p <= start + h
    ensures var bx, bz := Block(x, start, h), Block(y, start, h);
            Dot(bx, bz, start, p) + Dot(bx, bz, start + h, p + h) == 2.0 * Dot(x, y, start, p) + 2.0 * Dot(x, y, start + h, p + h)
    decreases p
  {
    if start < p {
      HalvesDouble(x, y, start, h, p - 1);
      PairDoubles(x, y, start, h, p - 1, p + h - 1);
      AddPair(Block(x, start, h), Block(y, start, h), x, y, start, start + h, p - 1, p + h - 1);
    }
  }

  lemma {:induction false} BlockDoubles(x: seq<real>, y: seq<real>, start: nat, h: nat)
    requires Fits(x, y, start, start + 2 * h)
    ensures Dot(Block(x, start, h), Block(y, start, h), start, start + 2 * h) == 2.0 * Dot(x, y, start, start + 2 * h)
  {
    HalvesDouble(x, y, start, h, start + h);
    DotSplits(x, y, start, start + h, start + 2 * h);
    DotSplits(Block(x, start, h), Block(y, start, h), start, start + h, start + 2 * h);
  }

  lemma {:induction false} DotUpdate(x: seq<real>, y: seq<real>, i: nat, a: real, b: real, hi: nat)
    requires |x| == |y| && i < hi <= |x|
    ensures Dot(x[i := a], y[i := b], 0, hi) == Dot(x, y, 0, hi) - Times(x[i], y[i]) + Times(a, b)
    decreases hi
  {
    if i < hi - 1 {
      DotUpdate(x, y, i, a, b, hi - 1);
    } else {
      DotIsLocal(x[i := a], y[i := b], x, y, 0, hi - 1);
    }
  }

  lemma {:induction false} SwapPreserves(x: seq<real>, y: seq<real>, i: nat, j: nat)
    requires |x| == |y| && i < |x| && j < |x|
    ensures Dot(Swapped(x, i, j), Swapped(y, i, j), 0, |x|) == Dot(x, y, 0, |x|)
  {
    DotUpdate(x, y, i, x[j], y[j], |x|);
    DotUpdate(x[i := x[j]], y[i := y[j]], j, x[i], y[i], |x|);
  }

  // ----- normalization by 1 / sqrt(size)

  /** weights[c] stands for 1 / sqrt(c). */
  ghost predicate Normalizes(weights: seq<real>, dim: nat) {
    |weights| > dim && forall c :: 1 <= c <= dim ==> weights[c] * weights[c] * (c as real) == 1.0
  }

  function Multiplying(weights: seq<real>): Norms {
    (size: nat, v: real) => if size < |weights| then v * weights[size] else v
  }

  lemma {:induction false} DoubledAdds(d: real, d': real, k: nat)
    ensures Doubled(d + d', k) == Doubled(d, k) + Doubled(d', k)
    decreases k
  {
    if k > 0 {
      DoubledAdds(2.0 * d, 2.0 * d', k - 1);
      assert 2.0 * (d + d') == 2.0 * d + 2.0 * d';
    }
  }

  lemma {:induction false} DoubledIsProduct(d: real, e: nat)
    ensures Doubled(d, e) == (Pow2(e) as real) * d
    decreases e
  {
    if e > 0 {
      DoubledIsProduct(2.0 * d, e - 1);
      var p := Pow2(e - 1) as real;
      assert Pow2(e) as real == 2.0 * p;
      assert p * (2.0 * d) == (2.0 * p) * d;
    }
  }

  lemma {:induction false} Rescaled(a: real, b: real, c: real, sa: real, sb: real, e: nat)
    requires c * c * (Pow2(e) as real) == 1.0 && sa == a * c && sb == b * c
    ensures Doubled(Times(sa, sb), e) == Times(a, b)
  {
    var p, product := Pow2(e) as real, Times(sa, sb);
    DoubledIsProduct(product, e);
    assert product == (c * c) * (a * b);
    assert p * ((c * c) * (a * b)) == (c * c * p) * (a * b);
  }

  /** Products that shrink one by one shrink in sum. */
  lemma {:induction false} SumShrinks(x: seq<real>, y: seq<real>, sx: seq<real>, sy: seq<real>, lo: nat, hi: nat,
                                      e: nat)
    requires Fits(x, y, lo, hi) && Fits(sx, sy, lo, hi)
    requires forall i :: lo <= i < hi ==> Doubled(Times(sx[i], sy[i]), e) == Times(x[i], y[i])
    ensures Doubled(Dot(sx, sy, lo, hi), e) == Dot(x, y, lo, hi)
    decreases hi
  {
    if lo == hi {
      DoubledAdds(0.0, 0.0, e);
    } else {
      SumShrinks(x, y, sx, sy, lo, hi - 1, e);
      DoubledAdds(Dot(sx, sy, lo, hi - 1), Times(sx[hi - 1], sy[hi - 1]), e);
    }
  }

  lemma {:induction false} ScaleShrinks(weights: seq<real>, x: seq<real>, y: seq<real>, lo: nat, size: nat, e: nat)
    requires Normalizes(weights, |x|) && Fits(x, y, lo, lo + size) && size == Pow2(e)
    ensures Shrinks(DOT, Multiplying(weights), x, y, lo, size, e)
  {
    var n := Multiplying(weights);
    var sx, sy := Scale(x, lo, size, n), Scale(y, lo, size, n);
    forall i | lo <= i < lo + size
      ensures Doubled(Times(sx[i], sy[i]), e) == Times(x[i], y[i])
    {
      assert n(size, x[i]) == x[i] * weights[size] && n(size, y[i]) == y[i] * weights[size];
      Rescaled(x[i], y[i], weights[size], n(size, x[i]), n(size, y[i]), e);
    }
    SumShrinks(x, y, sx, sy, lo, lo + size, e);
  }

  lemma {:induction false} DotIsLawful(weights: seq<real>, dim: nat)
    requires Normalizes(weights, dim)
    ensures Lawful(DOT, Multiplying(weights), dim)
  {
    forall x, y, lo, mid, hi
      ensures Splits(DOT, x, y, lo, mid, hi)
    {
      if Fits(x, y, lo, hi) && lo <= mid <= hi {
        DotSplits(x, y, lo, mid, hi);
      }
    }
    forall x, y, x', y', lo, hi
      ensures Local(DOT, x, y, x', y', lo, hi)
    {
      if Fits(x, y, lo, hi) && Same(x, x', lo, hi) && Same(y, y', lo, hi) {
        DotIsLocal(x, y, x', y', lo, hi);
      }
    }
    forall x: seq<real>, y: seq<real>, start: nat, h: nat
      ensures Doubles(DOT, x, y, start, h)
    {
      if Fits(x, y, start, start + 2 * h) {
        BlockDoubles(x, y, start, h);
      }
    }
    forall x: seq<real>, y: seq<real>, lo: nat, size: nat, e: nat | |x| == dim
      ensures Shrinks(DOT, Multiplying(weights), x, y, lo, size, e)
    {
      if Fits(x, y, lo, lo + size) && size == Pow2(e) {
        ScaleShrinks(weights, x, y, lo, size, e);
      }
    }
    forall x: seq<real>, y: seq<real>, i: nat, j: nat
      ensures Exchanges(DOT, x, y, i, j)
    {
      if |x| == |y| && i < |x| && j < |x| {
        SwapPreserves(x, y, i, j);
      }
    }
  }

  /** The rotation preserves the inner product of any two vectors of any dimension. */
  lemma {:induction false} RotationPreserves(x: seq<real>, y: seq<real>, weights: seq<real>)
    requires |x| == |y| && Normalizes(weights, |x|)
    ensures var norms := Multiplying(weights);
            Dot(Rotated(x, norms), Rotated(y, norms), 0, |x|) == Dot(x, y, 0, |x|)
  {
    DotIsLawful(weights, |x|);
    MeasurePreserved(DOT, Multiplying(weights), |x|, x, y);
  }

  // ----- in place

  method HadamardBlock(values: array<real>, start: nat, h: nat)
    requires start + 2 * h <= values.Length
    modifies values
    ensures values[..] == Block(old(values[..]), start, h)
  {
    ghost var s := values[..];
    BlockStarts(s, start, h);
    for j := 0 to h
      invariant BlockDone(s, values[..], start, h, j)
    {
      var a, b := values[start + j], values[start + j + h];
      ghost var t := values[..];
      BlockStep(s, t, start, h, j);
      values[start + j] := a + b;
      values[start + j + h] := a - b;
      assert values[..] == t[start + j := a + b][start + j + h := a - b];
    }
    BlockEnds(s, values[..], start, h);
  }

  ghost function BlockValue(s: seq<real>, start: nat, h: nat, j: nat, i: nat): real
    requires start + 2 * h <= |s| && j <= h && i < |s|
  {
    if start <= i < start + j then s[i] + s[i + h]
    else if start + h <= i < start + h + j then s[i - h] - s[i]
    else s[i]
  }

  /** The first j pairs of the block are done. */
  ghost predicate BlockDone(s: seq<real>, t: seq<real>, start: nat, h: nat, j: nat) {
    && start + 2 * h <= |s| == |t| && j <= h
    && forall i :: 0 <= i < |s| ==> t[i] == BlockValue(s, start, h, j, i)
  }

  lemma {:induction false} BlockStarts(s: seq<real>, start: nat, h: nat)
    requires start + 2 * h <= |s|
    ensures BlockDone(s, s, start, h, 0)
  {
  }

  lemma {:induction false} BlockStep(s: seq<real>, t: seq<real>, start: nat, h: nat, j: nat)
    requires BlockDone(s, t, start, h, j) && j < h
    ensures var a, b := t[start + j], t[start + j + h];
            BlockDone(s, t[start + j := a + b][start + j + h := a - b], start, h, j + 1)
  {
    assert t[start + j] == s[start + j] && t[start + j + h] == s[start + j + h];
  }

  lemma {:induction false} BlockEnds(s: seq<real>, t: seq<real>, start: nat, h: nat)
    requires BlockDone(s, t, start, h, h)
    ensures t == Block(s, start, h)
  {
  }

  lemma {:induction false} LevelStep(s: seq<real>, i: nat, h: nat, left: nat)
    requires left > 0 && i + Span(h, left) <= |s|
    ensures Span(h, left) == 2 * h + Span(h, left - 1)
    ensures Level(s, i, h, left) == Level(Block(s, i, h), i + 2 * h, h, left - 1)
  {
  }

  method HadamardLevel(values: array<real>, offset: nat, h: nat, end: nat, ghost blocks: nat)
    requires h > 0 && end == offset + Span(h, blocks) && end <= values.Length
    modifies values
    ensures values[..] == Level(old(values[..]), offset, h, blocks)
  {
    var i: nat := offset;
    ghost var left: nat := blocks;
    while i < end
      invariant i + Span(h, left) == end
      invariant Level(values[..], i, h, left) == Level(old(values[..]), offset, h, blocks)
      decreases left
    {
      LevelStep(values[..], i, h, left);
      HadamardBlock(values, i, h);
      i := i + 2 * h;
      left := left - 1;
    }
  }

  /** The largest power of two that is at most remaining. */
  method ChunkSize(remaining: nat) returns (chunk: nat)
    requires remaining > 0
    ensures chunk == Pow2(Log2(remaining))
  {
    chunk := 1;
    ghost var e := 0;
    while chunk <= remaining / 2
      invariant chunk == Pow2(e) <= remaining
      decreases remaining - chunk
    {
      chunk := chunk * 2;
      e := e + 1;
    }
    Log2IsUnique(remaining, e);
  }

  lemma {:induction false} Pow2Grows(a: nat, b: nat)
    requires a < b
    ensures 2 * Pow2(a) <= Pow2(b)
  {
    if a + 1 < b {
      Pow2Grows(a, b - 1);
    }
  }

  lemma {:induction false} Log2IsUnique(n: nat, e: nat)
    requires n > 0 && Pow2(e) <= n < 2 * Pow2(e)
    ensures e == Log2(n)
  {
    if e < Log2(n) {
      Pow2Grows(e, Log2(n));
    } else if Log2(n) < e {
      Pow2Grows(Log2(n), e);
    }
  }

  method ScaleRange(values: array<real>, lo: nat, size: nat, weights: seq<real>)
    requires lo + size <= values.Length < |weights|
    modifies values
    ensures values[..] == Scale(old(values[..]), lo, size, Multiplying(weights))
  {
    ghost var s := values[..];
    ghost var r := Scale(s, lo, size, Multiplying(weights));
    for i := lo to lo + size
      invariant forall j :: 0 <= j < values.Length ==> values[j] == if lo <= j < i then r[j] else s[j]
    {
      assert r[i] == s[i] * weights[size];
      values[i] := values[i] * weights[size];
    }
    assert values[..] == r;
  }

  method HadamardChunk(values: array<real>, offset: nat, chunk: nat, weights: seq<real>, ghost e: nat)
    requires chunk == Pow2(e) && offset + chunk <= values.Length < |weights|
    modifies values
    ensures values[..] == Chunk(old(values[..]), offset, 0, e, Multiplying(weights))
  {
    ghost var norms := Multiplying(weights);
    var h := 1;
    ghost var l := 0;
    while h < chunk
      invariant l <= e && h == Pow2(l)
      invariant Chunk(values[..], offset, l, e, norms) == Chunk(old(values[..]), offset, 0, e, norms)
      decreases e - l
    {
      Tiling(l, e);
      HadamardLevel(values, offset, h, offset + chunk, Pow2(e - l - 1));
      h := h * 2;
      l := l + 1;
    }
    if l < e {
      Pow2Grows(l, e);
    }
    ScaleRange(values, offset, chunk, weights);
  }

  method RotateHadamardChunks(values: array<real>, weights: seq<real>)
    requires values.Length < |weights|
    modifies values
    ensures values[..] == Chunks(old(values[..]), 0, values.Length, Multiplying(weights))
  {
    ghost var norms := Multiplying(weights);
    var offset: nat, remaining: nat := 0, values.Length;
    while remaining > 0
      invariant offset + remaining == values.Length
      invariant Chunks(values[..], offset, remaining, norms) == Chunks(old(values[..]), 0, values.Length, norms)
    {
      var chunk := ChunkSize(remaining);
      HadamardChunk(values, offset, chunk, weights, Log2(remaining));
      offset, remaining := offset + chunk, remaining - chunk;
    }
  }

  method RotatePermute(values: array<real>, seed: nat)
    modifies values
    ensures values[..] == Permuted(old(values[..]), Last(old(values[..])), seed)
  {
    var state := seed;
    var i := values.Length - 1;
    while i >= 1
      invariant i < values.Length && (values.Length > 0 ==> i >= 0) && (values.Length == 0 ==> i == -1)
      invariant values.Length > 0 ==> Permuted(values[..], i, state) == Permuted(old(values[..]), values.Length - 1, seed)
      invariant values.Length == 0 ==> values[..] == old(values[..])
    {
      state := LcgNext(state);
      var j := BoundedRand(state, i + 1);
      ghost var s := values[..];
      values[i], values[j] := values[j], values[i];
      assert values[..] == Swapped(s, i, j);
      i := i - 1;
    }
  }
}
