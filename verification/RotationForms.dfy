/**
 The rotation in closed form: a Hadamard pass as sums of signed components, chunk by chunk, the
 seeded shuffle as a one-to-one map of positions drawn without replacement, and the rotation as
 four passes with three shuffles between them.
 */
module RotationForms {
  import opened Integers
  import opened Ranking
  import opened Rotation

  // ----- signs

  /** The number of bits that are set in both. */
  function CommonBits(i: nat, j: nat): nat {
    if i == 0 || j == 0 then 0 else (if i % 2 == 1 && j % 2 == 1 then 1 else 0) + CommonBits(i / 2, j / 2)
  }

  function Signed(bits: nat, v: real): real { if bits % 2 == 0 then v else -v }

  /** The n components from start on, each with the sign of the bits it has in common with i. */
  ghost function SignedSum(s: seq<real>, start: nat, i: nat, n: nat): real
    requires start + n <= |s|
  {
    if n == 0 then 0.0 else SignedSum(s, start, i, n - 1) + Signed(CommonBits(i, n - 1), s[start + n - 1])
  }

  lemma {:induction false} HighBit(l: nat, i: nat, j: nat)
    requires i < Pow2(l) && j < Pow2(l)
    ensures CommonBits(Pow2(l) + i, j) == CommonBits(i, Pow2(l) + j) == CommonBits(i, j)
    ensures CommonBits(Pow2(l) + i, Pow2(l) + j) == CommonBits(i, j) + 1
  {
    if l == 0 {
      assert CommonBits(1, 1) == 1 + CommonBits(0, 0);
    } else {
      var h := Pow2(l - 1);
      assert (2 * h + i) / 2 == h + i / 2 && (2 * h + j) / 2 == h + j / 2;
      assert (2 * h + i) % 2 == i % 2 && (2 * h + j) % 2 == j % 2;
      HighBit(l - 1, i / 2, j / 2);
    }
  }

  lemma {:induction false} SumIsLocal(s: seq<real>, t: seq<real>, start: nat, i: nat, n: nat)
    requires |s| == |t| && start + n <= |s| && forall k :: start <= k < start + n ==> s[k] == t[k]
    ensures SignedSum(s, start, i, n) == SignedSum(t, start, i, n)
  {
    if n > 0 {
      SumIsLocal(s, t, start, i, n - 1);
    }
  }

  lemma {:induction false} SumNext(s: seq<real>, start: nat, i: nat, n: nat)
    requires start + n < |s|
    ensures SignedSum(s, start, i, n + 1) == SignedSum(s, start, i, n) + Signed(CommonBits(i, n), s[start + n])
  {
  }

  lemma {:induction false} OtherSign(bits: nat, v: real)
    ensures Signed(bits + 1, v) == -Signed(bits, v)
  {
  }

  /** In the lower half the high bit makes no difference. */
  lemma {:induction false} LowerHalf(s: seq<real>, start: nat, l: nat, h: nat, i: nat, n: nat)
    requires h == Pow2(l) && start + n <= |s| && i < h && n <= h
    ensures SignedSum(s, start, h + i, n) == SignedSum(s, start, i, n)
  {
    if n > 0 {
      LowerHalf(s, start, l, h, i, n - 1);
      HighBit(l, i, n - 1);
    }
  }

  /** The upper half adds its own sum where the high bit is not set. */
  lemma {:induction false} UpperAdds(s: seq<real>, start: nat, l: nat, h: nat, i: nat, n: nat)
    requires h == Pow2(l) && start + h + n <= |s| && i < h && n <= h
    ensures SignedSum(s, start, i, h + n) == SignedSum(s, start, i, h) + SignedSum(s, start + h, i, n)
  {
    if n > 0 {
      var k := n - 1;
      UpperAdds(s, start, l, h, i, k);
      HighBit(l, i, k);
      SumNext(s, start, i, h + k);
      SumNext(s, start + h, i, k);
    }
  }

  /** And takes it away where it is set. */
  lemma {:induction false} UpperSubtracts(s: seq<real>, start: nat, l: nat, h: nat, i: nat, n: nat)
    requires h == Pow2(l) && start + h + n <= |s| && i < h && n <= h
    ensures SignedSum(s, start, h + i, h + n) == SignedSum(s, start, i, h) - SignedSum(s, start + h, i, n)
  {
    if n == 0 {
      LowerHalf(s, start, l, h, i, h);
    } else {
      var k := n - 1;
      UpperSubtracts(s, start, l, h, i, k);
      HighBit(l, i, k);
      OtherSign(CommonBits(i, k), s[start + h + k]);
      SumNext(s, start, h + i, h + k);
      SumNext(s, start + h, i, k);
    }
  }

  // ----- one chunk

  /** t has the sum and the difference of the pair that starts at p. */
  ghost predicate Paired(s: seq<real>, t: seq<real>, p: nat, q: nat) {
    p < |s| && q < |s| && |t| == |s| && t[p] == s[p] + s[q] && t[q] == s[p] - s[q]
  }

  lemma {:induction false} BlockAt(s: seq<real>, start: nat, h: nat, r: nat)
    requires start + 2 * h <= |s| && r < h
    ensures Paired(s, Block(s, start, h), start + r, start + h + r)
  {
  }

  /** Sums and differences in each block. */
  lemma {:induction false} LevelAt(s: seq<real>, start: nat, h: nat, blocks: nat, b: nat, r: nat, p: nat)
    requires b < blocks && start + Span(h, blocks) <= |s| && r < h && p == start + Span(h, b) + r
    ensures Paired(s, Level(s, start, h, blocks), p, p + h)
    decreases b
  {
    var u := Block(s, start, h);
    if b > 0 {
      LevelAt(u, start + 2 * h, h, blocks - 1, b - 1, r, p);
      BlockIsLocal(s, start, h, |s|);
    } else {
      BlockAt(s, start, h, r);
    }
  }

  /** Where stretch b of 2^l components begins. */
  function Base(l: nat, b: nat): nat { if b == 0 then 0 else Pow2(l) + Base(l, b - 1) }

  lemma {:induction false} BaseHalves(l: nat, b: nat)
    ensures Base(l + 1, b) == Base(l, 2 * b) == Span(Pow2(l), b) && Base(l, 2 * b + 1) == Base(l, 2 * b) + Pow2(l)
  {
    if b > 0 {
      BaseHalves(l, b - 1);
      assert Base(l, 2 * b) == Pow2(l) + Base(l, 2 * b - 1);
    }
  }

  lemma {:induction false} BaseInChunk(l: nat, e: nat, b: nat)
    requires l <= e && b < Pow2(e - l)
    ensures Base(l, b) + Pow2(l) <= Pow2(e)
    decreases e - l
  {
    if l < e {
      BaseHalves(l, b / 2);
      BaseInChunk(l + 1, e, b / 2);
    }
  }

  /** After l levels: each stretch of 2^l components holds its own signed sums. */
  ghost predicate Leveled(s: seq<real>, t: seq<real>, start: nat, l: nat, e: nat) {
    |s| == |t| && l <= e && start + Pow2(e) <= |s| && forall b: nat, r: nat :: SumsAt(s, t, start, l, e, b, r)
  }

  ghost predicate SumsAt(s: seq<real>, t: seq<real>, start: nat, l: nat, e: nat, b: nat, r: nat) {
    |s| == |t| && l <= e && start + Base(l, b) + Pow2(l) <= |s| && b < Pow2(e - l) && r < Pow2(l) ==>
      t[start + Base(l, b) + r] == SignedSum(s, start + Base(l, b), r, Pow2(l))
  }

  lemma {:induction false} BaseOfOnes(b: nat)
    ensures Base(0, b) == b
  {
    if b > 0 {
      BaseOfOnes(b - 1);
    }
  }

  lemma {:induction false} SumAtStart(s: seq<real>, start: nat, e: nat, b: nat, r: nat)
    ensures SumsAt(s, s, start, 0, e, b, r)
  {
    BaseOfOnes(b);
    if start + b + 1 <= |s| {
      SumNext(s, start + b, 0, 0);
    }
  }

  lemma {:induction false} LeveledAtStart(s: seq<real>, start: nat, l: nat, e: nat)
    requires start + Pow2(e) <= |s| && l == 0
    ensures Leveled(s, s, start, l, e)
  {
    forall b: nat, r: nat
      ensures SumsAt(s, s, start, l, e, b, r)
    {
      SumAtStart(s, start, e, b, r);
    }
  }

  lemma {:induction false} NextLevel(s: seq<real>, t: seq<real>, start: nat, l: nat, e: nat)
    requires Leveled(s, t, start, l, e) && l < e
    ensures start + Span(Pow2(l), Pow2(e - l - 1)) <= |t|
    ensures Leveled(s, Level(t, start, Pow2(l), Pow2(e - l - 1)), start, l + 1, e)
  {
    Tiling(l, e);
    var h, next := Pow2(l), l + 1;
    var t' := Level(t, start, h, Pow2(e - l - 1));
    forall b: nat, r: nat
      ensures SumsAt(s, t', start, next, e, b, r)
    {
      NextSumsAt(s, t, t', start, l, h, e, b, r);
    }
  }

  lemma {:induction false} NextSumsAt(s: seq<real>, t: seq<real>, t': seq<real>, start: nat, l: nat, h: nat, e: nat,
                                      b: nat, r: nat)
    requires Leveled(s, t, start, l, e) && l < e && h == Pow2(l) && start + Span(h, Pow2(e - l - 1)) <= |t|
    requires t' == Level(t, start, h, Pow2(e - l - 1))
    ensures SumsAt(s, t', start, l + 1, e, b, r)
  {
    if b < Pow2(e - l - 1) && r < 2 * h {
      var a := NextSum(s, t, t', start, l, h, e, b, if r < h then r else r - h);
      NamedSum(s, t', start, l, h, e, b, r, a);
    }
  }

  lemma {:induction false} NamedSum(s: seq<real>, t: seq<real>, start: nat, l: nat, h: nat, e: nat, b: nat, r: nat,
                                    a: nat)
    requires |s| == |t| && h == Pow2(l) && a == start + Base(l + 1, b) && a + 2 * h <= |s| && r < 2 * h
    requires t[a + r] == SignedSum(s, a, r, 2 * h)
    ensures SumsAt(s, t, start, l + 1, e, b, r)
  {
    assert Pow2(l + 1) == 2 * h;
  }

  lemma {:induction false} NextSum(s: seq<real>, t: seq<real>, t': seq<real>, start: nat, l: nat, h: nat, e: nat,
                                   b: nat,
                                   r: nat) returns (a: nat)
    requires Leveled(s, t, start, l, e) && l < e && h == Pow2(l) && start + Span(h, Pow2(e - l - 1)) <= |t|
    requires t' == Level(t, start, h, Pow2(e - l - 1)) && b < Pow2(e - l - 1) && r < h
    ensures a == start + Base(l + 1, b) && a + 2 * h <= |s|
    ensures t'[a + r] == SignedSum(s, a, r, 2 * h) && t'[a + (h + r)] == SignedSum(s, a, h + r, 2 * h)
  {
    a := start + Base(l + 1, b);
    HalvesSum(s, t, start, l, h, e, b, r, a);
    BaseHalves(l, b);
    LevelAt(t, start, h, Pow2(e - l - 1), b, r, a + r);
    PairSums(s, t, t', a, l, h, r);
  }

  lemma {:induction false} HalvesSum(s: seq<real>, t: seq<real>, start: nat, l: nat, h: nat, e: nat, b: nat, r: nat,
                                     a: nat)
    requires Leveled(s, t, start, l, e) && l < e && h == Pow2(l) && b < Pow2(e - l - 1) && r < h
    requires a == start + Base(l + 1, b)
    ensures a + 2 * h <= |s| && t[a + r] == SignedSum(s, a, r, h) && t[a + h + r] == SignedSum(s, a + h, r, h)
  {
    BaseHalves(l, b);
    BaseInChunk(l + 1, e, b);
    assert SumsAt(s, t, start, l, e, 2 * b, r) && SumsAt(s, t, start, l, e, 2 * b + 1, r);
  }

  lemma {:induction false} PairSums(s: seq<real>, t: seq<real>, t': seq<real>, a: nat, l: nat, h: nat, r: nat)
    requires h == Pow2(l) && r < h && a + 2 * h <= |s| && |t| == |s| && Paired(t, t', a + r, a + r + h)
    requires t[a + r] == SignedSum(s, a, r, h) && t[a + h + r] == SignedSum(s, a + h, r, h)
    ensures t'[a + r] == SignedSum(s, a, r, 2 * h) && t'[a + (h + r)] == SignedSum(s, a, h + r, 2 * h)
  {
    UpperAdds(s, a, l, h, r, h);
    UpperSubtracts(s, a, l, h, r, h);
  }

  /** Component i of a chunk: the norm of the sum with the signs of i. */
  lemma {:induction false} ChunkSums(s: seq<real>, t: seq<real>, start: nat, l: nat, e: nat, norms: Norms, i: nat)
    requires Leveled(s, t, start, l, e) && l <= e && i < Pow2(e)
    ensures Chunk(t, start, l, e, norms)[start + i] == norms(Pow2(e), SignedSum(s, start, i, Pow2(e)))
    decreases e - l
  {
    if l == e {
      assert SumsAt(s, t, start, l, e, 0, i) && Base(l, 0) == 0;
    } else {
      NextLevel(s, t, start, l, e);
      ChunkSums(s, Level(t, start, Pow2(l), Pow2(e - l - 1)), start, l + 1, e, norms, i);
    }
  }

  // ----- a pass

  /** The number that the e lowest bits of n make. */
  function LowBits(n: nat, e: nat): (low: nat)
    ensures low < Pow2(e) && low <= n
  {
    if e == 0 then 0 else n % 2 + 2 * LowBits(n / 2, e - 1)
  }

  /** n components have a chunk of 2^e for each bit e of n that is set. */
  predicate IsChunk(n: nat, e: nat) { LowBits(n, e + 1) >= Pow2(e) }

  /** It starts where the larger ones end. */
  function ChunkStart(n: nat, e: nat): (start: nat)
    requires IsChunk(n, e)
    ensures start + Pow2(e) <= n
  {
    n - LowBits(n, e + 1)
  }

  /** Every component is in a chunk. */
  lemma {:induction false} InSomeChunk(n: nat, p: nat) returns (e: nat)
    requires p < n
    ensures IsChunk(n, e) && ChunkStart(n, e) <= p < ChunkStart(n, e) + Pow2(e)
    decreases n
  {
    var top := Log2(n);
    if p < Pow2(top) {
      e := top;
      TopChunk(n, top);
    } else {
      e := InSomeChunk(n - Pow2(top), p - Pow2(top));
      SmallerChunk(n, top, e);
    }
  }

  /** All bits of a number below 2^e. */
  lemma {:induction false} AllBits(n: nat, e: nat)
    requires n < Pow2(e)
    ensures LowBits(n, e) == n
  {
    if e > 0 {
      AllBits(n / 2, e - 1);
    }
  }

  lemma {:induction false} TopChunk(n: nat, top: nat)
    requires Pow2(top) <= n < 2 * Pow2(top)
    ensures IsChunk(n, top) && ChunkStart(n, top) == 0
    ensures forall e :: top < e ==> !IsChunk(n, e)
  {
    AllBits(n, top + 1);
    forall e | top < e
      ensures !IsChunk(n, e)
    {
      Pow2Grows(top, e);
      AllBits(n, e + 1);
    }
  }

  /** A higher bit does not change the lower ones. */
  lemma {:induction false} LowerBits(n: nat, top: nat, high: nat, e: nat)
    requires e <= top && high == Pow2(top)
    ensures LowBits(n + high, e) == LowBits(n, e)
  {
    if e > 0 {
      var h := Pow2(top - 1);
      assert (n + high) % 2 == n % 2 && (n + high) / 2 == n / 2 + h;
      LowerBits(n / 2, top - 1, h, e - 1);
    }
  }

  lemma {:induction false} NoTopInRest(n: nat, top: nat)
    requires n < Pow2(top)
    ensures forall e :: top <= e ==> !IsChunk(n, e)
  {
    forall e | top <= e
      ensures !IsChunk(n, e)
    {
      if top < e {
        Pow2Grows(top, e);
      }
      AllBits(n, e + 1);
    }
  }

  /** The largest chunk comes first, the others as in the rest. */
  lemma {:induction false} SmallerChunk(n: nat, top: nat, e: nat)
    requires Pow2(top) <= n < 2 * Pow2(top) && ((IsChunk(n, e) && e != top) || IsChunk(n - Pow2(top), e))
    ensures IsChunk(n, e) && IsChunk(n - Pow2(top), e) && ChunkStart(n, e) == Pow2(top) + ChunkStart(n - Pow2(top), e)
  {
    TopChunk(n, top);
    NoTopInRest(n - Pow2(top), top);
    LowerBits(n - Pow2(top), top, Pow2(top), e + 1);
  }

  /** r has the normalized signed sum of i in the chunk of s. */
  ghost predicate SumIn(r: seq<real>, s: seq<real>, start: nat, size: nat, norms: Norms, i: nat) {
    |r| == |s| && start + size <= |s| && i < size && r[start + i] == norms(size, SignedSum(s, start, i, size))
  }

  /** Later chunks leave the first one as it is, and see the rest as it was. */
  lemma {:induction false} ChunksNext(s: seq<real>, offset: nat, n: nat, norms: Norms, top: nat)
    requires offset + n == |s| && n > 0 && top == Log2(n)
    ensures var c := Chunk(s, offset, 0, top, norms);
            && Chunks(s, offset, n, norms) == Chunks(c, offset + Pow2(top), n - Pow2(top), norms)
            && Same(s, c, offset + Pow2(top), |s|)
            && Same(c, Chunks(s, offset, n, norms), offset, offset + Pow2(top))
  {
  }

  lemma {:induction false} FirstChunkSums(s: seq<real>, offset: nat, n: nat, norms: Norms, top: nat, i: nat)
    requires offset + n == |s| && n > 0 && top == Log2(n) && i < Pow2(top)
    ensures SumIn(Chunks(s, offset, n, norms), s, offset, Pow2(top), norms, i)
  {
    LeveledAtStart(s, offset, 0, top);
    ChunkSums(s, s, offset, 0, top, norms, i);
    ChunksNext(s, offset, n, norms, top);
  }

  lemma {:induction false} SumOfSame(r: seq<real>, s: seq<real>, c: seq<real>, lo: nat, start: nat, size: nat,
                                     norms: Norms, i: nat)
    requires Same(s, c, lo, |s|) && lo <= start && SumIn(r, c, start, size, norms, i)
    ensures SumIn(r, s, start, size, norms, i)
  {
    SumIsLocal(s, c, start, i, size);
  }

  /** A sum in the chunks after the first is one in all of them. */
  lemma {:induction false} LaterSum(s: seq<real>, c: seq<real>, offset: nat, n: nat, norms: Norms, top: nat, start: nat,
                                    size: nat, i: nat)
    requires offset + n == |s| && n > 0 && top == Log2(n) && c == Chunk(s, offset, 0, top, norms) && offset + Pow2(top) <= start
    requires SumIn(Chunks(c, offset + Pow2(top), n - Pow2(top), norms), c, start, size, norms, i)
    ensures SumIn(Chunks(s, offset, n, norms), s, start, size, norms, i)
  {
    ChunksNext(s, offset, n, norms, top);
    SumOfSame(Chunks(c, offset + Pow2(top), n - Pow2(top), norms), s, c, offset + Pow2(top), start, size, norms, i);
  }

  lemma {:induction false} ChunksSums(s: seq<real>, offset: nat, n: nat, norms: Norms, e: nat, i: nat, start: nat)
    requires offset + n == |s| && IsChunk(n, e) && i < Pow2(e) && start == offset + ChunkStart(n, e)
    ensures SumIn(Chunks(s, offset, n, norms), s, start, Pow2(e), norms, i)
    decreases n
  {
    var top := Log2(n);
    if e == top {
      TopChunk(n, top);
      FirstChunkSums(s, offset, n, norms, top, i);
    } else {
      var c := Chunk(s, offset, 0, top, norms);
      SmallerChunk(n, top, e);
      ChunksSums(c, offset + Pow2(top), n - Pow2(top), norms, e, i, start);
      LaterSum(s, c, offset, n, norms, top, start, Pow2(e), i);
    }
  }

  /** r is the Hadamard pass over s: component i of a chunk is its signed sum with i, times the weight of the size. */
  ghost predicate IsPass(s: seq<real>, r: seq<real>, weights: seq<real>) {
    |s| == |r| && |s| < |weights| && forall e: nat, i: nat :: IsChunk(|s|, e) && i < Pow2(e) ==> PassAt(s, r, weights, e, i)
  }

  ghost predicate PassAt(s: seq<real>, r: seq<real>, weights: seq<real>, e: nat, i: nat)
    requires |s| == |r| && |s| < |weights| && IsChunk(|s|, e) && i < Pow2(e)
  {
    r[ChunkStart(|s|, e) + i] == SignedSum(s, ChunkStart(|s|, e), i, Pow2(e)) * weights[Pow2(e)]
  }

  lemma {:induction false} SumIsPass(s: seq<real>, r: seq<real>, weights: seq<real>, e: nat, i: nat)
    requires |s| == |r| && |s| < |weights| && IsChunk(|s|, e) && i < Pow2(e)
    requires SumIn(r, s, ChunkStart(|s|, e), Pow2(e), Multiplying(weights), i)
    ensures PassAt(s, r, weights, e, i)
  {
    var sum := SignedSum(s, ChunkStart(|s|, e), i, Pow2(e));
    assert Multiplying(weights)(Pow2(e), sum) == sum * weights[Pow2(e)];
  }

  /** All sums of all chunks make a pass. */
  lemma {:induction false} SumsArePass(s: seq<real>, r: seq<real>, weights: seq<real>)
    requires |s| == |r| && |s| < |weights|
    requires forall e: nat, i: nat :: IsChunk(|s|, e) && i < Pow2(e) ==> SumIn(r, s, ChunkStart(|s|, e), Pow2(e), Multiplying(weights), i)
    ensures IsPass(s, r, weights)
  {
    forall e: nat, i: nat | IsChunk(|s|, e) && i < Pow2(e)
      ensures PassAt(s, r, weights, e, i)
    {
      SumIsPass(s, r, weights, e, i);
    }
  }

  lemma {:induction false} ChunksArePass(s: seq<real>, weights: seq<real>)
    requires |s| < |weights|
    ensures IsPass(s, Chunks(s, 0, |s|, Multiplying(weights)), weights)
  {
    var norms := Multiplying(weights);
    forall e: nat, i: nat | IsChunk(|s|, e) && i < Pow2(e)
      ensures SumIn(Chunks(s, 0, |s|, norms), s, ChunkStart(|s|, e), Pow2(e), norms, i)
    {
      ChunksSums(s, 0, |s|, norms, e, i, ChunkStart(|s|, e));
    }
    SumsArePass(s, Chunks(s, 0, |s|, norms), weights);
  }

  /** There is one pass only. */
  lemma {:induction false} PassIsUnique(s: seq<real>, r: seq<real>, r': seq<real>, weights: seq<real>)
    requires IsPass(s, r, weights) && IsPass(s, r', weights)
    ensures r == r'
  {
    forall p | 0 <= p < |s|
      ensures r[p] == r'[p]
    {
      var e := InSomeChunk(|s|, p);
      var i := p - ChunkStart(|s|, e);
      assert PassAt(s, r, weights, e, i) && PassAt(s, r', weights, e, i);
    }
  }

  // ----- the shuffle

  /** The state after so many steps of the generator. */
  function StateAfter(seed: nat, steps: nat): nat {
    if steps == 0 then seed else LcgNext(StateAfter(seed, steps - 1))
  }

  /** The upper half of the state, modulo the bound. */
  function Draw(seed: nat, steps: nat, bound: nat): (j: nat)
    requires bound > 0
    ensures j < bound
  {
    StateAfter(seed, steps) / 0x1_0000_0000 % bound
  }

  ghost function Positions(n: nat): (all: seq<nat>)
    ensures |all| == n && forall p :: 0 <= p < n ==> all[p] == p
  {
    seq(n, i => i)
  }

  /** The positions that remain for the first m places: those drawn are gone, the last one in their place. */
  ghost function Remaining(n: nat, seed: nat, m: nat): (pool: seq<nat>)
    requires m <= n
    ensures |pool| == m
    decreases n - m
  {
    if m == n then Positions(n)
    else
      var pool := Remaining(n, seed, m + 1);
      pool[Draw(seed, n - m, m + 1) := pool[m]][..m]
  }

  /** Which position each place draws from those that remain. */
  ghost function Order(n: nat, seed: nat): (order: seq<nat>)
    ensures |order| == n
  {
    seq(n, p requires 0 <= p < n => Remaining(n, seed, p + 1)[Draw(seed, n - p, p + 1)])
  }

  /** The multiset of a pool without one of its elements. */
  lemma {:induction false} DrawnOut(pool: seq<nat>, j: nat, m: nat)
    requires j < |pool| == m + 1
    ensures multiset(pool[j := pool[m]][..m]) + multiset{pool[j]} == multiset(pool)
  {
    var x, y, before := pool[j], pool[m], pool[..j];
    if j < m {
      var between := pool[j + 1..m];
      assert pool == before + [x] + between + [y];
      assert pool[j := y][..m] == before + [y] + between;
      Exchanged(before, x, between, y);
    } else {
      assert pool == before + [x] && pool[j := y][..m] == before;
    }
  }

  lemma {:induction false} Exchanged(a: seq<nat>, x: nat, b: seq<nat>, y: nat)
    ensures multiset(a + [y] + b) + multiset{x} == multiset(a + [x] + b + [y])
  {
  }

  /** No place draws what another one has drawn, and every position is drawn. */
  lemma {:induction false} DrawnApart(n: nat, seed: nat, m: nat)
    requires m <= n
    ensures multiset(Remaining(n, seed, m)) + multiset(Order(n, seed)[m..]) == multiset(Positions(n))
    decreases n - m
  {
    var order := Order(n, seed);
    if m == n {
      assert order[n..] == [];
    } else {
      DrawnApart(n, seed, m + 1);
      PlaceDraws(n, seed, m);
      OneMoreDrawn(Remaining(n, seed, m + 1), Draw(seed, n - m, m + 1), m, order);
    }
  }

  /** What place m draws, and what remains. */
  lemma {:induction false} PlaceDraws(n: nat, seed: nat, m: nat)
    requires m < n
    ensures var pool, j := Remaining(n, seed, m + 1), Draw(seed, n - m, m + 1);
            Order(n, seed)[m] == pool[j] && Remaining(n, seed, m) == pool[j := pool[m]][..m]
  {
  }

  lemma {:induction false} OneMoreDrawn(pool: seq<nat>, j: nat, m: nat, order: seq<nat>)
    requires j < |pool| == m + 1 <= |order| && order[m] == pool[j]
    ensures multiset(pool[j := pool[m]][..m]) + multiset(order[m..]) == multiset(pool) + multiset(order[m + 1..])
  {
    DrawnOut(pool, j, m);
    assert order[m..] == [order[m]] + order[m + 1..];
  }

  /** So the shuffle is one-to-one. */
  lemma {:induction false} OrderIsBijective(n: nat, seed: nat)
    ensures Distinct(Order(n, seed)) && forall p: nat :: p in Order(n, seed) <==> p < n
  {
    var order, all := Order(n, seed), Positions(n);
    DrawnApart(n, seed, 0);
    assert order[0..] == order && Remaining(n, seed, 0) == [];
    SameMultisetDistinct(all, order);
    forall p: nat
      ensures p in Elements(all) <==> p < n
    {
      assert p < n ==> all[p] == p;
    }
    assert forall p: nat :: p in order <==> p in Elements(order);
  }

  /** r is s with each place taking the component it draws. */
  ghost predicate IsShuffle(s: seq<real>, r: seq<real>, seed: nat) {
    |r| == |s| && forall p :: 0 <= p < |s| ==> Order(|s|, seed)[p] < |s| && r[p] == s[Order(|s|, seed)[p]]
  }

  /** The swaps down to place i are done: t has the remaining positions in front, those drawn behind. */
  ghost predicate ShuffledDownTo(s: seq<real>, t: seq<real>, seed: nat, m: nat) {
    && |t| == |s| && m <= |s|
    && (forall p :: 0 <= p < m ==> Remaining(|s|, seed, m)[p] < |s| && t[p] == s[Remaining(|s|, seed, m)[p]])
    && forall p :: m <= p < |s| ==> Order(|s|, seed)[p] < |s| && t[p] == s[Order(|s|, seed)[p]]
  }

  lemma {:induction false} SwapDraws(s: seq<real>, t: seq<real>, seed: nat, m: nat)
    requires ShuffledDownTo(s, t, seed, m + 1)
    ensures ShuffledDownTo(s, Swapped(t, m, Draw(seed, |s| - m, m + 1)), seed, m)
  {
    var j := Draw(seed, |s| - m, m + 1);
    var pool := Remaining(|s|, seed, m + 1);
    assert Remaining(|s|, seed, m) == pool[j := pool[m]][..m];
    assert Order(|s|, seed)[m] == pool[j];
  }

  /** The first place takes what is left. */
  lemma {:induction false} LastPlace(s: seq<real>, t: seq<real>, seed: nat)
    requires s != [] && ShuffledDownTo(s, t, seed, 1)
    ensures IsShuffle(s, t, seed)
  {
    PlaceDraws(|s|, seed, 0);
    assert Draw(seed, |s|, 1) == 0;
  }

  lemma {:induction false} PermutedShuffles(s: seq<real>, t: seq<real>, seed: nat, i: nat)
    requires i < |s| && ShuffledDownTo(s, t, seed, i + 1)
    ensures IsShuffle(s, Permuted(t, i, StateAfter(seed, |s| - 1 - i)), seed)
    decreases i
  {
    var state := StateAfter(seed, |s| - 1 - i);
    if i == 0 {
      LastPlace(s, t, seed);
    } else {
      assert LcgNext(state) == StateAfter(seed, |s| - i);
      var t' := Swapped(t, i, Draw(seed, |s| - i, i + 1));
      SwapDraws(s, t, seed, i);
      PermutedShuffles(s, t', seed, i - 1);
    }
  }

  /** The swaps in place are that shuffle. */
  lemma {:induction false} PermutedIsShuffle(s: seq<real>, seed: nat)
    ensures IsShuffle(s, Permuted(s, Last(s), seed), seed)
  {
    if s != [] {
      assert Remaining(|s|, seed, |s|) == Positions(|s|) && StateAfter(seed, 0) == seed;
      PermutedShuffles(s, s, seed, |s| - 1);
    }
  }

  lemma {:induction false} ShuffleIsUnique(s: seq<real>, r: seq<real>, r': seq<real>, seed: nat)
    requires IsShuffle(s, r, seed) && IsShuffle(s, r', seed)
    ensures r == r'
  {
  }

  /** No two states of 64 bits step to the same one: a step can be undone. */
  lemma {:induction false} StepIsUndone(state: nat)
    requires state < 0x1_0000_0000_0000_0000
    ensures LcgNext(state) < 0x1_0000_0000_0000_0000
    ensures (LcgNext(state) - 1442695040888963407) * INVERSE % 0x1_0000_0000_0000_0000 == state
  {
    var q := (state * 6364136223846793005 + 1442695040888963407) / 0x1_0000_0000_0000_0000;
    assert (LcgNext(state) - 1442695040888963407) * INVERSE ==
           state + 0x1_0000_0000_0000_0000 * (4787856489426250814 * state - q * INVERSE);
  }

  const INVERSE: int := 13877824140714322085

  // ----- the rotation

  /** A pass, and then three times a shuffle and a pass. */
  ghost predicate RotatesTo(s: seq<real>, r: seq<real>, weights: seq<real>) {
    exists a, b, c, d, e, f ::
      && IsPass(s, a, weights)
      && IsShuffle(a, b, 654605292835415893) && IsPass(b, c, weights)
      && IsShuffle(c, d, 8636605637963351413) && IsPass(d, e, weights)
      && IsShuffle(e, f, 1775280196666917949) && IsPass(f, r, weights)
  }

  /** One round: a shuffle and a pass. */
  lemma {:induction false} RoundIs(s: seq<real>, seed: nat, weights: seq<real>) returns (t: seq<real>)
    requires |s| < |weights|
    ensures IsShuffle(s, t, seed) && IsPass(t, Round(s, seed, Multiplying(weights)), weights)
  {
    t := Permuted(s, Last(s), seed);
    PermutedIsShuffle(s, seed);
    ChunksArePass(t, weights);
  }

  lemma {:induction false} RotatedRotates(s: seq<real>, weights: seq<real>)
    requires |s| < |weights|
    ensures RotatesTo(s, Rotated(s, Multiplying(weights)), weights)
  {
    var norms := Multiplying(weights);
    var a := Chunks(s, 0, |s|, norms);
    ChunksArePass(s, weights);
    var c, e := Round(a, SEEDS[0], norms), Round(Round(a, SEEDS[0], norms), SEEDS[1], norms);
    var b := RoundIs(a, SEEDS[0], weights);
    var d := RoundIs(c, SEEDS[1], weights);
    var f := RoundIs(e, SEEDS[2], weights);
    assert SEEDS[1..][0] == SEEDS[1] && SEEDS[1..][1..] == SEEDS[2..] && SEEDS[2..][0] == SEEDS[2] && SEEDS[2..][1..] == [];
    assert Rotated(s, norms) == Round(e, SEEDS[2], norms);
  }

  /** The rotation is the only vector that these steps lead to. */
  lemma {:induction false} RotationIsUnique(s: seq<real>, r: seq<real>, r': seq<real>, weights: seq<real>)
    requires RotatesTo(s, r, weights) && RotatesTo(s, r', weights)
    ensures r == r'
  {
    var a, b, c, d, e, f :|
      && IsPass(s, a, weights)
      && IsShuffle(a, b, 654605292835415893) && IsPass(b, c, weights)
      && IsShuffle(c, d, 8636605637963351413) && IsPass(d, e, weights)
      && IsShuffle(e, f, 1775280196666917949) && IsPass(f, r, weights);
    var a', b', c', d', e', f' :|
      && IsPass(s, a', weights)
      && IsShuffle(a', b', 654605292835415893) && IsPass(b', c', weights)
      && IsShuffle(c', d', 8636605637963351413) && IsPass(d', e', weights)
      && IsShuffle(e', f', 1775280196666917949) && IsPass(f', r', weights);
    PassIsUnique(s, a, a', weights);
    ShuffleIsUnique(a, b, b', 654605292835415893);
    PassIsUnique(b, c, c', weights);
    ShuffleIsUnique(c, d, d', 8636605637963351413);
    PassIsUnique(d, e, e', weights);
    ShuffleIsUnique(e, f, f', 1775280196666917949);
    PassIsUnique(f, r, r', weights);
  }

  // ----- in place

  /** A float component; a NaN is rotated as zero. */
  datatype Component = NotANumber | Number(value: real)

  function Cleaned(input: seq<Component>): (s: seq<real>)
    ensures |s| == |input|
  {
    seq(|input|, i requires 0 <= i < |input| => if input[i].NotANumber? then 0.0 else input[i].value)
  }

  method RotateVector(input: seq<Component>, weights: seq<real>) returns (rotated: array<real>)
    requires |input| < |weights|
    ensures fresh(rotated) && rotated[..] == Rotated(Cleaned(input), Multiplying(weights))
    ensures RotatesTo(Cleaned(input), rotated[..], weights)
  {
    ghost var norms := Multiplying(weights);
    rotated := new real[|input|](i requires 0 <= i < |input| => if input[i].NotANumber? then 0.0 else input[i].value);
    assert rotated[..] == Cleaned(input);
    RotateHadamardChunks(rotated, weights);
    for i := 0 to |SEEDS|
      invariant Rounds(rotated[..], SEEDS[i..], norms) == Rotated(Cleaned(input), norms)
    {
      assert SEEDS[i..][1..] == SEEDS[i + 1..];
      RotatePermute(rotated, SEEDS[i]);
      RotateHadamardChunks(rotated, weights);
    }
    RotatedRotates(Cleaned(input), weights);
  }
}
