/**
 The asymmetric one-bit query: the query is quantized to signed integers and laid out in bit
 planes, so that weighted popcounts of code AND plane give the exact inner product.
 A byte is the set of its set bits: OR is union, AND intersection, popcount the size.
 */
module BitPlanes {
  import opened Integers

  type Byte = set<nat>

  const BYTE_BITS: nat := 8

  /** Bytes of a plane within a block, and the dimensions these stand for. */
  const BLOCK_BYTES: nat := 16
  const BLOCK_DIMS: nat := 128

  // ----- quantization

  /** The supported plane width for a request: the least that is enough, or the largest. */
  function SupportedBits(bits: int): (r: nat)
    ensures Width(r) && (bits <= r || forall w: nat :: Width(w) ==> w <= r)
    ensures forall w: nat :: Width(w) && bits <= w ==> r <= w
  {
    if bits <= 8 then 8 else if bits <= 12 then 12 else 16
  }

  ghost predicate Width(bits: nat) { bits == 8 || bits == 12 || bits == 16 }

  /** The largest quantized value. */
  function Levels(bits: nat): nat
    requires bits > 0
  {
    Pow2(bits - 1) - 1
  }

  /** Round half away from zero. */
  function Round(x: real): int {
    if x >= 0.0 then (x + 0.5).Floor else -((0.5 - x).Floor)
  }

  function Quantize(scaled: real, bits: nat): (q: int)
    requires bits > 0
    ensures InRange(q, bits)
  {
    var limit := Levels(bits);
    var r := Round(scaled);
    if r > limit then limit else if r < 0 - limit then 0 - limit else r
  }

  function Abs(x: real): real { if x < 0.0 then -x else x }

  /** The nearest whole number, away from zero where there are two. */
  ghost predicate Nearest(q: int, x: real) {
    Abs(q as real - x) < 0.5 || (Abs(q as real - x) == 0.5 && Abs(q as real) > Abs(x))
  }

  lemma {:induction false} RoundIsNearest(x: real, limit: nat)
    requires Abs(x) <= limit as real
    ensures Nearest(Round(x), x) && 0 - limit <= Round(x) <= limit
  {
    var half := if x >= 0.0 then (x + 0.5).Floor else (0.5 - x).Floor;
    assert half as real < limit as real + 1.0;
  }

  /** A value within the largest magnitude is quantized to the nearest step, without clamping. */
  lemma {:induction false} QuantizeIsNearest(x: real, scale: real, absMax: real, bits: nat)
    requires bits > 0 && absMax > 0.0 && Abs(x) <= absMax && scale == Levels(bits) as real / absMax
    ensures Near(Quantize(x * scale, bits), x, scale)
  {
    ScaledFits(x, absMax, Levels(bits) as real);
    RoundIsNearest(x * scale, Levels(bits));
  }

  /** A component in steps, rounded. */
  ghost predicate Near(q: int, x: real, scale: real) { Nearest(q, x * scale) }

  lemma {:induction false} ScaledFits(x: real, absMax: real, limit: real)
    requires absMax > 0.0 && Abs(x) <= absMax && limit >= 0.0
    ensures Abs(x * (limit / absMax)) <= limit
  {
    var scale := limit / absMax;
    assert scale * absMax == limit && scale >= 0.0;
    Scaled(scale, x, absMax);
    Scaled(scale, -x, absMax);
    assert scale * (-x) == -(x * scale);
  }

  lemma {:induction false} Scaled(scale: real, x: real, y: real)
    requires scale >= 0.0 && x <= y
    ensures scale * x <= scale * y
  {
  }

  predicate InRange(q: int, bits: nat)
    requires bits > 0
  {
    0 - Pow2(bits - 1) < q < Pow2(bits - 1)
  }

  /** Bit b of a natural number. */
  predicate BitOf(x: nat, b: nat) { if b == 0 then x % 2 == 1 else BitOf(x / 2, b - 1) }

  /** Two's complement in the given width. */
  function Encoded(q: int, bits: nat): nat { if q >= 0 then q else if q + Pow2(bits) >= 0 then q + Pow2(bits) else 0 }

  predicate QBit(q: int, bits: nat, b: nat) { BitOf(Encoded(q, bits), b) }

  // ----- weights

  /** 2^b, but the sign plane counts negatively. */
  function Weight(bits: nat, b: nat): int { if b + 1 == bits then 0 - Pow2(b) else Pow2(b) }

  /** The weighted sum of the first n bits. */
  ghost function Weighted(x: nat, bits: nat, n: nat): int {
    if n == 0 then 0 else Weighted(x, bits, n - 1) + if BitOf(x, n - 1) then Weight(bits, n - 1) else 0
  }

  /** The low n bits, all counted positively. */
  ghost function Positive(x: nat, n: nat): (r: nat)
    ensures r < Pow2(n)
  {
    if n == 0 then 0 else Positive(x, n - 1) + if BitOf(x, n - 1) then Pow2(n - 1) else 0
  }

  lemma {:induction false} PositiveShifts(x: nat, n: nat)
    requires n > 0
    ensures Positive(x, n) == x % 2 + 2 * Positive(x / 2, n - 1)
  {
    if n == 1 {
      assert Positive(x, 1) == Positive(x, 0) + if BitOf(x, 0) then Pow2(0) else 0;
    } else {
      PositiveShifts(x, n - 1);
    }
  }

  /** A number below 2^n is the sum of its n bits. */
  lemma {:induction false} PositiveIsNumber(x: nat, n: nat)
    requires x < Pow2(n)
    ensures Positive(x, n) == x
  {
    if n > 0 {
      PositiveShifts(x, n);
      PositiveIsNumber(x / 2, n - 1);
    }
  }

  lemma {:induction false} WeightedIsPositive(x: nat, bits: nat, n: nat)
    requires n < bits
    ensures Weighted(x, bits, n) == Positive(x, n)
  {
    if n > 0 {
      WeightedIsPositive(x, bits, n - 1);
    }
  }

  /** All weighted bits of a two's complement number add up to the number. */
  lemma {:induction false} WeightsAddUp(q: int, bits: nat)
    requires bits > 0 && InRange(q, bits)
    ensures Weighted(Encoded(q, bits), bits, bits) == q
  {
    var x := Encoded(q, bits);
    assert Pow2(bits) == 2 * Pow2(bits - 1);
    WeightedIsPositive(x, bits, bits - 1);
    PositiveIsNumber(x, bits);
  }

  // ----- layout

  /** The bytes of the planes of so many blocks. */
  function PlaneBytes(bits: nat, blocks: nat): nat {
    if blocks == 0 then 0 else PlaneBytes(bits, blocks - 1) + 16 * bits
  }

  lemma {:induction false} PlaneBytesAre(bits: nat, blocks: nat)
    requires Width(bits)
    ensures bits == 8 ==> PlaneBytes(bits, blocks) == 128 * blocks
    ensures bits == 12 ==> PlaneBytes(bits, blocks) == 192 * blocks
    ensures bits == 16 ==> PlaneBytes(bits, blocks) == 256 * blocks
  {
    if blocks > 0 {
      PlaneBytesAre(bits, blocks - 1);
    }
  }

  /** Plane b of a block starts after the planes of the blocks before it. */
  function Address(bits: nat, block: nat, b: nat, byte: nat): nat { PlaneBytes(bits, block) + 16 * b + byte }

  function BlockOf(bits: nat, a: nat): nat
    requires bits > 0
  {
    a / 16 / bits
  }

  function PlaneOf(bits: nat, a: nat): nat
    requires bits > 0
  {
    a / 16 % bits
  }

  lemma {:induction false} AddressInverse(bits: nat, block: nat, b: nat, byte: nat)
    requires Width(bits) && b < bits && byte < 16
    ensures var a := Address(bits, block, b, byte); BlockOf(bits, a) == block && PlaneOf(bits, a) == b && a % 16 == byte
  {
    PlaneBytesAre(bits, block);
  }

  lemma {:induction false} AddressOf(bits: nat, a: nat)
    requires Width(bits)
    ensures Address(bits, BlockOf(bits, a), PlaneOf(bits, a), a % 16) == a && PlaneOf(bits, a) < bits
  {
    PlaneBytesAre(bits, BlockOf(bits, a));
  }

  /** Bit k of the byte at an address belongs to this dimension. */
  function Dimension(block: nat, byte: nat, k: nat): nat { 128 * block + 8 * byte + k }

  /** Which planes hold a bit of which dimension. */
  type Table = (nat, nat) -> bool

  function TableOf(q: seq<int>, bits: nat): Table {
    (i: nat, b: nat) => i < |q| && QBit(q[i], bits, b)
  }

  /** What stands at plane b of a byte once the dimensions below n are laid out, and dimension n in the planes below m. */
  ghost function PlaneByte(t: Table, n: nat, m: nat, block: nat, b: nat, byte: nat): Byte {
    set k: nat | k < 8 && Laid(t, n, m, b, Dimension(block, byte, k))
  }

  predicate Laid(t: Table, n: nat, m: nat, b: nat, i: nat) {
    (i < n || (i == n && b < m)) && t(i, b)
  }

  ghost predicate LaidOut(planes: seq<Byte>, t: Table, bits: nat, n: nat, m: nat) {
    bits > 0 && forall a :: 0 <= a < |planes| ==> planes[a] == PlaneByte(t, n, m, BlockOf(bits, a), PlaneOf(bits, a), a % 16)
  }

  lemma {:induction false} Div8(high: nat, low: nat)
    requires low < 8
    ensures (8 * high + low) / 8 == high && (8 * high + low) % 8 == low
  {
  }

  lemma {:induction false} Div128(high: nat, low: nat)
    requires low < 128
    ensures (128 * high + low) / 128 == high && (128 * high + low) % 128 == low
  {
  }

  lemma {:induction false} DimensionParts(i: nat)
    ensures Dimension(i / 128, i % 128 / 8, i % 8) == i && i % 128 / 8 < 16
  {
    var r := i % 128;
    Div8(16 * (i / 128) + r / 8, r % 8);
  }

  lemma {:induction false} SameDimension(block: nat, byte: nat, k: nat, i: nat)
    requires byte < 16 && k < 8 && Dimension(block, byte, k) == i
    ensures block == i / 128 && byte == i % 128 / 8 && k == i % 8
  {
    Div128(block, 8 * byte + k);
    Div8(byte, k);
    Div8(16 * block + byte, k);
  }

  /** One bit is added at one address. */
  lemma {:induction false} PlaneStep(planes: seq<Byte>, t: Table, bits: nat, n: nat, m: nat, a: nat)
    requires LaidOut(planes, t, bits, n, m) && Width(bits) && m < bits && a < |planes|
    ensures var at := Address(bits, n / 128, m, n % 128 / 8);
            PlaneByte(t, n, m + 1, BlockOf(bits, a), PlaneOf(bits, a), a % 16) == planes[a] + if a == at && t(n, m) then {n % 8} else {}
  {
    var block, b, byte := BlockOf(bits, a), PlaneOf(bits, a), a % 16;
    AddressOf(bits, a);
    DimensionParts(n);
    AddressInverse(bits, n / 128, m, n % 128 / 8);
    forall k: nat | k < 8
      ensures Laid(t, n, m + 1, b, Dimension(block, byte, k)) <==>
              Laid(t, n, m, b, Dimension(block, byte, k)) || (a == Address(bits, n / 128, m, n % 128 / 8) && t(n, m) && k == n % 8)
    {
      if Dimension(block, byte, k) == n {
        SameDimension(block, byte, k, n);
      }
    }
  }

  /** Finishing the planes of a dimension is starting the next. */
  lemma {:induction false} NextDimension(planes: seq<Byte>, t: Table, bits: nat, n: nat)
    requires LaidOut(planes, t, bits, n, bits) && Width(bits)
    ensures LaidOut(planes, t, bits, n + 1, 0)
  {
    forall a | 0 <= a < |planes|
      ensures planes[a] == PlaneByte(t, n + 1, 0, BlockOf(bits, a), PlaneOf(bits, a), a % 16)
    {
      AddressOf(bits, a);
      var block, b, byte := BlockOf(bits, a), PlaneOf(bits, a), a % 16;
      assert forall k: nat :: Laid(t, n + 1, 0, b, Dimension(block, byte, k)) <==> Laid(t, n, bits, b, Dimension(block, byte, k));
    }
  }

  ghost function Sum(q: seq<int>, n: nat): int
    requires n <= |q|
  {
    if n == 0 then 0 else Sum(q, n - 1) + q[n - 1]
  }

  lemma {:induction false} AddressFits(bits: nat, dim: nat, n: nat, m: nat)
    requires Width(bits) && n < dim && m < bits
    ensures Address(bits, n / 128, m, n % 128 / 8) < PlaneBytes(bits, (dim + 127) / 128)
  {
    var block, blocks := n / 128, (dim + 127) / 128;
    assert block + 1 <= blocks && n % 128 / 8 < 16;
    PlaneBytesAre(bits, block);
    PlaneBytesAre(bits, block + 1);
    PlaneBytesAre(bits, blocks);
  }

  method OrBit(planes: array<Byte>, at: nat, on: bool, k: nat, ghost t: Table, ghost bits: nat, ghost n: nat,
               ghost m: nat)
    requires Width(bits) && m < bits && LaidOut(planes[..], t, bits, n, m)
    requires at == Address(bits, n / 128, m, n % 128 / 8) < planes.Length && on == t(n, m) && k == n % 8
    modifies planes
    ensures LaidOut(planes[..], t, bits, n, m + 1)
  {
    ghost var before: seq<Byte> := planes[..];
    forall a | 0 <= a < |before|
      ensures PlaneByte(t, n, m + 1, BlockOf(bits, a), PlaneOf(bits, a), a % 16) == before[a] + if a == at && on then {k} else {}
    {
      PlaneStep(before, t, bits, n, m, a);
    }
    if on {
      planes[at] := planes[at] + {k};
    }
  }

  /** Lays the quantized query out in planes. */
  method PreparePlanes(q: seq<int>, bits: nat) returns (planes: array<Byte>, sumSigned: int)
    requires Width(bits)
    ensures LaidOut(planes[..], TableOf(q, bits), bits, |q|, 0) && sumSigned == Sum(q, |q|)
    ensures planes.Length == PlaneBytes(bits, (|q| + 127) / 128)
  {
    planes := new Byte[PlaneBytes(bits, (|q| + 127) / 128)](_ => {});
    sumSigned := 0;
    ghost var t := TableOf(q, bits);
    var n: nat := 0;
    NothingLaid(planes[..], t, bits);
    while n < |q|
      invariant n <= |q| && planes.Length == PlaneBytes(bits, (|q| + 127) / 128)
      invariant LaidOut(planes[..], t, bits, n, 0) && sumSigned == Sum(q, n)
    {
      sumSigned := sumSigned + q[n];
      var m: nat := 0;
      while m < bits
        invariant m <= bits && planes.Length == PlaneBytes(bits, (|q| + 127) / 128)
        invariant LaidOut(planes[..], t, bits, n, m)
      {
        AddressFits(bits, |q|, n, m);
        OrBit(planes, Address(bits, n / 128, m, n % 128 / 8), QBit(q[n], bits, m), n % 8, t, bits, n, m);
        m := m + 1;
      }
      NextDimension(planes[..], t, bits, n);
      n := n + 1;
    }
  }

  lemma {:induction false} NothingLaid(planes: seq<Byte>, t: Table, bits: nat)
    requires Width(bits) && forall a :: 0 <= a < |planes| ==> planes[a] == {}
    ensures LaidOut(planes, t, bits, 0, 0)
  {
  }

  // ----- scoring a code

  /** A stored code, zero padded beyond its last byte. */
  ghost function CodeByte(code: seq<Byte>, g: nat): Byte { if g < |code| then code[g] else {} }

  ghost predicate InCode(code: seq<Byte>, i: nat) { i % 8 in CodeByte(code, i / 8) }

  /** Set bits of code AND plane b in the first n bytes of a block. */
  ghost function Popcount(planes: seq<Byte>, code: seq<Byte>, bits: nat, block: nat, b: nat, n: nat): nat
    requires Address(bits, block, b, n) <= |planes|
  {
    if n == 0 then 0
    else Popcount(planes, code, bits, block, b, n - 1) + |CodeByte(code, 16 * block + (n - 1)) * planes[Address(bits, block, b, n - 1)]|
  }

  /** The weighted popcounts of the first m planes of a block. */
  ghost function BlockScore(planes: seq<Byte>, code: seq<Byte>, bits: nat, block: nat, m: nat): int
    requires m <= bits && Address(bits, block, bits, 0) <= |planes|
  {
    if m == 0 then 0
    else BlockScore(planes, code, bits, block, m - 1) + Weight(bits, m - 1) * Popcount(planes, code, bits, block, m - 1, BLOCK_BYTES)
  }

  ghost function Score(planes: seq<Byte>, code: seq<Byte>, bits: nat, blocks: nat): int
    requires PlaneBytes(bits, blocks) <= |planes|
  {
    if blocks == 0 then 0
    else Score(planes, code, bits, blocks - 1) + BlockScore(planes, code, bits, blocks - 1, bits)
  }

  // ----- counting by dimension

  /** The dimensions whose bit is set in the code. */
  type Selection = nat -> bool

  ghost function SelectionOf(code: seq<Byte>): Selection {
    (i: nat) => InCode(code, i)
  }

  ghost function Count(t: Table, on: Selection, b: nat, lo: nat, n: nat): nat {
    if n == 0 then 0 else Count(t, on, b, lo, n - 1) + if on(lo + n - 1) && t(lo + n - 1, b) then 1 else 0
  }

  ghost predicate Counts(t: Table, on: Selection, b: nat, lo: nat, k: nat) {
    on(lo + k) && t(lo + k, b)
  }

  ghost function Low(t: Table, on: Selection, b: nat, lo: nat, n: nat): Byte {
    set k: nat | k < n && Counts(t, on, b, lo, k)
  }

  lemma {:induction false} LowSize(t: Table, on: Selection, b: nat, lo: nat, n: nat)
    ensures |Low(t, on, b, lo, n)| == Count(t, on, b, lo, n)
  {
    if n > 0 {
      LowSize(t, on, b, lo, n - 1);
      var s, r := Low(t, on, b, lo, n), Low(t, on, b, lo, n - 1);
      if Counts(t, on, b, lo, n - 1) {
        assert s == r + {n - 1};
      } else {
        assert s == r;
      }
    } else {
      assert Low(t, on, b, lo, 0) == {};
    }
  }

  lemma {:induction false} CountSplits(t: Table, on: Selection, b: nat, lo: nat, n: nat, m: nat)
    ensures Count(t, on, b, lo, n + m) == Count(t, on, b, lo, n) + Count(t, on, b, lo + n, m)
  {
    if m > 0 {
      CountSplits(t, on, b, lo, n, m - 1);
    }
  }

  /** A table without bits beyond the last dimension. */
  ghost predicate Bounded(t: Table, dim: nat) {
    forall i: nat, b: nat :: t(i, b) ==> i < dim
  }

  lemma {:induction false} CodeBit(code: seq<Byte>, block: nat, byte: nat, k: nat)
    requires byte < 16 && k < 8
    ensures SelectionOf(code)(Dimension(block, byte, 0) + k) <==> k in CodeByte(code, 16 * block + byte)
  {
    var i := Dimension(block, byte, 0) + k;
    assert i / 8 == 16 * block + byte && i % 8 == k;
  }

  lemma {:induction false} AndByte(t: Table, dim: nat, code: seq<Byte>, block: nat, b: nat, byte: nat)
    requires byte < 16 && Bounded(t, dim)
    ensures CodeByte(code, 16 * block + byte) * PlaneByte(t, dim, 0, block, b, byte) ==
            Low(t, SelectionOf(code), b, Dimension(block, byte, 0), BYTE_BITS)
  {
    var lo, on := Dimension(block, byte, 0), SelectionOf(code);
    forall k: nat | k < 8
      ensures Counts(t, on, b, lo, k) <==> k in CodeByte(code, 16 * block + byte) && Laid(t, dim, 0, b, Dimension(block, byte, k))
    {
      CodeBit(code, block, byte, k);
      assert lo + k == Dimension(block, byte, k);
    }
  }

  /** The popcount of one byte of code AND plane counts eight dimensions. */
  lemma {:induction false} ByteCounts(planes: seq<Byte>, t: Table, dim: nat, bits: nat, code: seq<Byte>, block: nat,
                                      b: nat, byte: nat)
    requires LaidOut(planes, t, bits, dim, 0) && Bounded(t, dim) && Width(bits) && b < bits && byte < 16 && Address(bits, block, b, byte) < |planes|
    ensures |CodeByte(code, 16 * block + byte) * planes[Address(bits, block, b, byte)]| ==
            Count(t, SelectionOf(code), b, Dimension(block, byte, 0), BYTE_BITS)
  {
    AddressInverse(bits, block, b, byte);
    AndByte(t, dim, code, block, b, byte);
    LowSize(t, SelectionOf(code), b, Dimension(block, byte, 0), BYTE_BITS);
  }

  lemma {:induction false} NextEight(t: Table, on: Selection, b: nat, lo: nat, n: nat)
    ensures Count(t, on, b, lo, 8 * (n + 1)) == Count(t, on, b, lo, 8 * n) + Count(t, on, b, lo + 8 * n, BYTE_BITS)
  {
    CountSplits(t, on, b, lo, 8 * n, BYTE_BITS);
    assert 8 * n + BYTE_BITS == 8 * (n + 1);
  }

  /** Byte by byte, the popcounts of a plane count its dimensions. */
  ghost predicate CountsByte(planes: seq<Byte>, t: Table, bits: nat, code: seq<Byte>, block: nat, b: nat, byte: nat,
                             w: nat) {
    && Address(bits, block, b, byte) < |planes|
    && |CodeByte(code, 16 * block + byte) * planes[Address(bits, block, b, byte)]| == Count(t, SelectionOf(code), b, 128 * block + 8 * byte, w)
  }

  ghost function ByteCount(t: Table, on: Selection, b: nat, lo: nat, n: nat, w: nat): nat {
    if n == 0 then 0 else ByteCount(t, on, b, lo, n - 1, w) + Count(t, on, b, lo + 8 * (n - 1), w)
  }

  lemma {:induction false} ByteCountIsCount(t: Table, on: Selection, b: nat, lo: nat, n: nat)
    ensures ByteCount(t, on, b, lo, n, BYTE_BITS) == Count(t, on, b, lo, 8 * n)
  {
    if n > 0 {
      ByteCountIsCount(t, on, b, lo, n - 1);
      NextEight(t, on, b, lo, n - 1);
    }
  }

  lemma {:induction false} PopcountAdds(planes: seq<Byte>, t: Table, bits: nat, code: seq<Byte>, block: nat, b: nat,
                                        n: nat, w: nat)
    requires Address(bits, block, b, n) <= |planes|
    requires forall byte: nat :: byte < n ==> CountsByte(planes, t, bits, code, block, b, byte, w)
    ensures Popcount(planes, code, bits, block, b, n) == ByteCount(t, SelectionOf(code), b, 128 * block, n, w)
  {
    if n > 0 {
      PopcountAdds(planes, t, bits, code, block, b, n - 1, w);
      assert CountsByte(planes, t, bits, code, block, b, n - 1, w);
    }
  }

  lemma {:induction false} ByteIsCounted(planes: seq<Byte>, t: Table, dim: nat, bits: nat, code: seq<Byte>,
                                         block: nat, b: nat, byte: nat)
    requires LaidOut(planes, t, bits, dim, 0) && Bounded(t, dim) && Width(bits) && b < bits && byte < 16 && Address(bits, block, b, byte) < |planes|
    ensures CountsByte(planes, t, bits, code, block, b, byte, BYTE_BITS)
  {
    ByteCounts(planes, t, dim, bits, code, block, b, byte);
    assert Dimension(block, byte, 0) == 128 * block + 8 * byte;
  }

  lemma {:induction false} AllBytesCount(planes: seq<Byte>, t: Table, dim: nat, bits: nat, code: seq<Byte>,
                                         block: nat, b: nat, n: nat)
    requires LaidOut(planes, t, bits, dim, 0) && Bounded(t, dim) && Width(bits) && b < bits && n <= 16 && Address(bits, block, b, n) <= |planes|
    ensures forall byte: nat :: byte < n ==> CountsByte(planes, t, bits, code, block, b, byte, BYTE_BITS)
  {
    forall byte: nat | byte < n
      ensures CountsByte(planes, t, bits, code, block, b, byte, BYTE_BITS)
    {
      ByteIsCounted(planes, t, dim, bits, code, block, b, byte);
    }
  }

  lemma {:induction false} PopcountCounts(planes: seq<Byte>, t: Table, dim: nat, bits: nat, code: seq<Byte>,
                                          block: nat, b: nat, n: nat)
    requires LaidOut(planes, t, bits, dim, 0) && Bounded(t, dim) && Width(bits) && b < bits && n <= 16 && Address(bits, block, b, n) <= |planes|
    ensures Popcount(planes, code, bits, block, b, n) == Count(t, SelectionOf(code), b, 128 * block, 8 * n)
  {
    AllBytesCount(planes, t, dim, bits, code, block, b, n);
    PopcountAdds(planes, t, bits, code, block, b, n, BYTE_BITS);
    ByteCountIsCount(t, SelectionOf(code), b, 128 * block, n);
  }

  // ----- from planes to dimensions

  /** The weighted bits of dimension i in the first m planes. */
  ghost function TableValue(t: Table, bits: nat, i: nat, m: nat): int {
    if m == 0 then 0 else TableValue(t, bits, i, m - 1) + if t(i, m - 1) then Weight(bits, m - 1) else 0
  }

  /** The weighted counts of the first m planes over n dimensions. */
  ghost function PlaneSum(t: Table, on: Selection, bits: nat, m: nat, lo: nat, n: nat): int {
    if m == 0 then 0 else PlaneSum(t, on, bits, m - 1, lo, n) + Weight(bits, m - 1) * Count(t, on, m - 1, lo, n)
  }

  /** The values of the selected dimensions. */
  ghost function Selected(v: nat -> int, on: Selection, lo: nat, n: nat): int {
    if n == 0 then 0 else Selected(v, on, lo, n - 1) + if on(lo + n - 1) then v(lo + n - 1) else 0
  }

  lemma {:induction false} OneCount(w: int, c: nat, more: bool)
    ensures w * (c + if more then 1 else 0) == w * c + if more then w else 0
  {
  }

  lemma {:induction false} OneDimension(t: Table, on: Selection, bits: nat, m: nat, lo: nat, n: nat)
    requires m <= bits
    ensures PlaneSum(t, on, bits, m, lo, n + 1) == PlaneSum(t, on, bits, m, lo, n) + if on(lo + n) then TableValue(t, bits, lo + n, m) else 0
  {
    if m > 0 {
      OneDimension(t, on, bits, m - 1, lo, n);
      OneCount(Weight(bits, m - 1), Count(t, on, m - 1, lo, n), on(lo + n) && t(lo + n, m - 1));
    }
  }

  lemma {:induction false} NoDimensions(t: Table, on: Selection, bits: nat, m: nat, lo: nat)
    ensures PlaneSum(t, on, bits, m, lo, 0) == 0
  {
    if m > 0 {
      NoDimensions(t, on, bits, m - 1, lo);
    }
  }

  /** Every dimension's planes weigh what its value is. */
  ghost predicate Weighs(t: Table, bits: nat, v: nat -> int) {
    forall i: nat :: TableValue(t, bits, i, bits) == v(i)
  }

  lemma {:induction false} PlanesSelect(t: Table, on: Selection, bits: nat, v: nat -> int, lo: nat, n: nat)
    requires Weighs(t, bits, v)
    ensures PlaneSum(t, on, bits, bits, lo, n) == Selected(v, on, lo, n)
  {
    if n == 0 {
      NoDimensions(t, on, bits, bits, lo);
    } else {
      PlanesSelect(t, on, bits, v, lo, n - 1);
      OneDimension(t, on, bits, bits, lo, n - 1);
    }
  }

  /** A whole plane of n bytes counts its span of dimensions. */
  lemma {:induction false} PlaneCounts(planes: seq<Byte>, t: Table, dim: nat, bits: nat, code: seq<Byte>, block: nat,
                                       b: nat)
    requires LaidOut(planes, t, bits, dim, 0) && Bounded(t, dim) && Width(bits) && b < bits && Address(bits, block, b, BLOCK_BYTES) <= |planes|
    ensures Popcount(planes, code, bits, block, b, BLOCK_BYTES) == Count(t, SelectionOf(code), b, 128 * block, BLOCK_DIMS)
  {
    PopcountCounts(planes, t, dim, bits, code, block, b, BLOCK_BYTES);
    assert 8 * BLOCK_BYTES == BLOCK_DIMS;
  }

  lemma {:induction false} BlockSums(planes: seq<Byte>, t: Table, dim: nat, bits: nat, code: seq<Byte>, block: nat,
                                     m: nat)
    requires LaidOut(planes, t, bits, dim, 0) && Bounded(t, dim) && Width(bits) && m <= bits && Address(bits, block, bits, 0) <= |planes|
    ensures BlockScore(planes, code, bits, block, m) == PlaneSum(t, SelectionOf(code), bits, m, 128 * block, BLOCK_DIMS)
  {
    if m > 0 {
      BlockSums(planes, t, dim, bits, code, block, m - 1);
      PlaneCounts(planes, t, dim, bits, code, block, m - 1);
    }
  }

  lemma {:induction false} SelectedSplits(v: nat -> int, on: Selection, n: nat, m: nat)
    ensures Selected(v, on, 0, n + m) == Selected(v, on, 0, n) + Selected(v, on, n, m)
  {
    if m > 0 {
      SelectedSplits(v, on, n, m - 1);
    }
  }

  lemma {:induction false} NextBlock(v: nat -> int, on: Selection, blocks: nat)
    requires blocks > 0
    ensures Selected(v, on, 0, 128 * blocks) == Selected(v, on, 0, 128 * (blocks - 1)) + Selected(v, on, 128 * (blocks - 1), BLOCK_DIMS)
  {
    var m: nat := 128 * (blocks - 1);
    SelectedSplits(v, on, m, BLOCK_DIMS);
    assert m + BLOCK_DIMS == 128 * blocks;
  }

  /** The last of the blocks adds the selected values of its span of dimensions. */
  lemma {:induction false} BlockSelects(planes: seq<Byte>, t: Table, dim: nat, bits: nat, v: nat -> int,
                                        code: seq<Byte>, blocks: nat)
    requires blocks > 0
    requires LaidOut(planes, t, bits, dim, 0) && Bounded(t, dim) && Weighs(t, bits, v) && Width(bits) && PlaneBytes(bits, blocks) <= |planes|
    ensures Selected(v, SelectionOf(code), 0, 128 * blocks) ==
            Selected(v, SelectionOf(code), 0, 128 * (blocks - 1)) + BlockScore(planes, code, bits, blocks - 1, bits)
  {
    BlockSums(planes, t, dim, bits, code, blocks - 1, bits);
    PlanesSelect(t, SelectionOf(code), bits, v, 128 * (blocks - 1), BLOCK_DIMS);
    NextBlock(v, SelectionOf(code), blocks);
  }

  lemma {:induction false} ScoreSelects(planes: seq<Byte>, t: Table, dim: nat, bits: nat, v: nat -> int,
                                        code: seq<Byte>, blocks: nat)
    requires LaidOut(planes, t, bits, dim, 0) && Bounded(t, dim) && Weighs(t, bits, v) && Width(bits) && PlaneBytes(bits, blocks) <= |planes|
    ensures Score(planes, code, bits, blocks) == Selected(v, SelectionOf(code), 0, 128 * blocks)
  {
    if blocks > 0 {
      ScoreSelects(planes, t, dim, bits, v, code, blocks - 1);
      BlockSelects(planes, t, dim, bits, v, code, blocks);
    }
  }

  // ----- the quantized query

  ghost function ValueOf(q: seq<int>): nat -> int {
    (i: nat) => if i < |q| then q[i] else 0
  }

  lemma {:induction false} TableWeighs(q: seq<int>, bits: nat, i: nat, m: nat)
    ensures TableValue(TableOf(q, bits), bits, i, m) == if i < |q| then Weighted(Encoded(q[i], bits), bits, m) else 0
  {
    if m > 0 {
      TableWeighs(q, bits, i, m - 1);
    }
  }

  lemma {:induction false} QueryWeighs(q: seq<int>, bits: nat)
    requires bits > 0 && forall i :: 0 <= i < |q| ==> InRange(q[i], bits)
    ensures Weighs(TableOf(q, bits), bits, ValueOf(q)) && Bounded(TableOf(q, bits), |q|)
  {
    forall i: nat
      ensures TableValue(TableOf(q, bits), bits, i, bits) == ValueOf(q)(i)
    {
      TableWeighs(q, bits, i, bits);
      if i < |q| {
        WeightsAddUp(q[i], bits);
      }
    }
  }

  /** The query against the code read as +1 and -1. */
  ghost function SignedDot(q: seq<int>, code: seq<Byte>, n: nat): int
    requires n <= |q|
  {
    if n == 0 then 0 else SignedDot(q, code, n - 1) + if InCode(code, n - 1) then q[n - 1] else -q[n - 1]
  }

  lemma {:induction false} SignedIsTwice(q: seq<int>, code: seq<Byte>, n: nat)
    requires n <= |q|
    ensures SignedDot(q, code, n) == 2 * Selected(ValueOf(q), SelectionOf(code), 0, n) - Sum(q, n)
  {
    if n > 0 {
      SignedIsTwice(q, code, n - 1);
    }
  }

  /** Dimensions beyond the last one contribute nothing, whatever the padding bits of the code. */
  lemma {:induction false} PaddingIsSilent(q: seq<int>, code: seq<Byte>, n: nat)
    requires n >= |q|
    ensures Selected(ValueOf(q), SelectionOf(code), 0, n) == Selected(ValueOf(q), SelectionOf(code), 0, |q|)
  {
    if n > |q| {
      PaddingIsSilent(q, code, n - 1);
    }
  }

  /** Twice the weighted popcounts minus the sum of the query is the exact plus/minus-one inner product. */
  lemma {:induction false} PopcountsAreExact(planes: seq<Byte>, q: seq<int>, bits: nat, code: seq<Byte>, blocks: nat)
    requires LaidOut(planes, TableOf(q, bits), bits, |q|, 0) && Width(bits) && blocks == (|q| + 127) / 128 && |planes| == PlaneBytes(bits, blocks)
    requires forall i :: 0 <= i < |q| ==> InRange(q[i], bits)
    ensures 2 * Score(planes, code, bits, blocks) - Sum(q, |q|) == SignedDot(q, code, |q|)
  {
    QueryWeighs(q, bits);
    ScoreSelects(planes, TableOf(q, bits), |q|, bits, ValueOf(q), code, blocks);
    PaddingIsSilent(q, code, 128 * blocks);
    SignedIsTwice(q, code, |q|);
  }

  // ----- preparing a query

  /** The largest magnitude, but at least the given smallest one. */
  ghost predicate IsLargest(m: real, values: seq<real>, least: real) {
    && m >= least && (forall i :: 0 <= i < |values| ==> Abs(values[i]) <= m)
    && (m == least || exists i :: 0 <= i < |values| && Abs(values[i]) == m)
  }

  method LargestMagnitude(values: seq<real>, least: real) returns (m: real)
    requires least > 0.0
    ensures IsLargest(m, values, least)
  {
    m := least;
    for i := 0 to |values|
      invariant IsLargest(m, values[..i], least)
    {
      ghost var before := values[..i];
      assert values[..i + 1] == before + [values[i]];
      if Abs(values[i]) > m {
        m := Abs(values[i]);
        assert values[..i + 1][i] == values[i];
      } else if exists k :: 0 <= k < |before| && Abs(before[k]) == m {
        var k :| 0 <= k < |before| && Abs(before[k]) == m;
        assert values[..i + 1][k] == before[k];
      }
    }
    assert values[..|values|] == values;
  }

  /** The popcounts of any code give its exact dot product with the quantized query. */
  ghost predicate Answers(planes: seq<Byte>, q: seq<int>, bits: nat, sumSigned: int) {
    |planes| == PlaneBytes(bits, (|q| + 127) / 128) &&
    forall code: seq<Byte> :: 2 * Score(planes, code, bits, (|q| + 127) / 128) - sumSigned == SignedDot(q, code, |q|)
  }

  lemma {:induction false} LaidOutAnswers(planes: seq<Byte>, q: seq<int>, bits: nat)
    requires LaidOut(planes, TableOf(q, bits), bits, |q|, 0) && Width(bits) && |planes| == PlaneBytes(bits, (|q| + 127) / 128)
    requires forall i :: 0 <= i < |q| ==> InRange(q[i], bits)
    ensures Answers(planes, q, bits, Sum(q, |q|))
  {
    forall code: seq<Byte>
      ensures 2 * Score(planes, code, bits, (|q| + 127) / 128) - Sum(q, |q|) == SignedDot(q, code, |q|)
    {
      PopcountsAreExact(planes, q, bits, code, (|q| + 127) / 128);
    }
  }

  method QuantizeOne(x: real, scale: real, bits: nat, ghost absMax: real) returns (q: int)
    requires bits > 0 && absMax > 0.0 && Abs(x) <= absMax && scale == Levels(bits) as real / absMax
    ensures InRange(q, bits) && Near(q, x, scale)
  {
    QuantizeIsNearest(x, scale, absMax, bits);
    q := Quantize(x * scale, bits);
  }

  method QuantizeQuery(values: seq<real>, scale: real, bits: nat, ghost absMax: real) returns (q: seq<int>)
    requires bits > 0 && absMax > 0.0 && scale == Levels(bits) as real / absMax
    requires forall i :: 0 <= i < |values| ==> Abs(values[i]) <= absMax
    ensures |q| == |values|
    ensures forall i :: 0 <= i < |q| ==> InRange(q[i], bits) && Near(q[i], values[i], scale)
  {
    q := [];
    for i := 0 to |values|
      invariant |q| == i
      invariant forall k :: 0 <= k < i ==> InRange(q[k], bits) && Near(q[k], values[k], scale)
    {
      var x := QuantizeOne(values[i], scale, bits, absMax);
      q := q + [x];
    }
  }

  /** So many steps are within half a step of the component, and all of them at either end. */
  ghost predicate Restores(q: int, x: real, step: real, levels: nat, m: real) {
    && -step <= 2.0 * (q as real * step - x) <= step
    && (x == m ==> q == levels) && (x == -m ==> q == 0 - levels)
  }

  ghost predicate AllRestored(q: seq<int>, values: seq<real>, step: real, levels: nat, m: real) {
    |q| == |values| && forall i :: 0 <= i < |q| ==> Restores(q[i], values[i], step, levels, m)
  }

  lemma {:induction false} StepOfScale(levels: real, m: real, scale: real) returns (step: real)
    requires levels > 0.0 && m > 0.0 && scale == levels / m
    ensures scale > 0.0 && step > 0.0 && scale * step == 1.0 && step * levels == m
  {
    step := m / levels;
    assert scale * m == levels && step * levels == m;
    assert scale * step * levels == scale * m;
    assert (scale * step - 1.0) * levels == 0.0;
  }

  /** What is nearest in steps is within half a step. */
  lemma {:induction false} NearRestores(q: int, x: real, scale: real, step: real, levels: nat, m: real)
    requires Near(q, x, scale) && scale > 0.0 && step > 0.0 && scale * step == 1.0 && step * levels as real == m
    ensures Restores(q, x, step, levels, m)
  {
    var y := x * scale;
    assert y * step == x;
    var d := q as real - y;
    assert q as real * step - x == d * step;
    HalfStep(d, step);
    if x == m {
      assert y == (step * levels as real) * scale == levels as real;
      OnlyNearest(q, levels, y);
    }
    if x == -m {
      assert y == -(step * levels as real) * scale == -(levels as real);
      OnlyNearest(q, 0 - levels, y);
    }
  }

  lemma {:induction false} HalfStep(d: real, step: real)
    requires step > 0.0 && -0.5 <= d <= 0.5
    ensures -step <= 2.0 * (d * step) <= step
  {
    assert (0.5 - d) * step >= 0.0;
    assert (0.5 + d) * step >= 0.0;
  }

  lemma {:induction false} OnlyNearest(q: int, n: int, y: real)
    requires Nearest(q, y) && y == n as real
    ensures q == n
  {
  }

  lemma {:induction false} LevelsAre(bits: nat)
    requires Width(bits)
    ensures Levels(bits) == if bits == 8 then 127 else if bits == 12 then 2047 else 32767
  {
    assert Pow2(7) == 128;
    assert Pow2(11) == 16 * Pow2(7);
    assert Pow2(15) == 16 * Pow2(11);
  }

  /** The largest quantized value of each width. */
  function LargestOf(bits: nat): nat { if bits == 8 then 127 else if bits == 12 then 2047 else 32767 }

  /**
   Prepares the planes of a rotated query at a requested width.  A step is the largest magnitude
   divided by the largest quantized value; every component is within half a step of its quantized
   value, a component of the largest magnitude gets the largest value, and popcounts against any
   code are exact for these values.  The scale is the value of a step times the center of the codes.
   */
  method PrepareQuery(values: seq<real>, requested: int, epsilon: real, center: real)
    returns (planes: array<Byte>, q: seq<int>, sumSigned: int, scale: real, ghost step: real, ghost m: real)
    requires epsilon > 0.0
    ensures IsLargest(m, values, epsilon) && AllRestored(q, values, step, LargestOf(SupportedBits(requested)), m)
    ensures step > 0.0 && step * LargestOf(SupportedBits(requested)) as real == m && scale == center * step
    ensures Answers(planes[..], q, SupportedBits(requested), sumSigned)
  {
    var bits: nat := SupportedBits(requested);
    var absMax := LargestMagnitude(values, epsilon);
    m := absMax;
    q, scale, step := QuantizeByStep(values, bits, absMax, center);
    planes, sumSigned := PreparePlanes(q, bits);
    LaidOutAnswers(planes[..], q, bits);
  }

  method QuantizeByStep(values: seq<real>, bits: nat, absMax: real, center: real)
    returns (q: seq<int>, scale: real, ghost step: real)
    requires Width(bits) && absMax > 0.0 && forall i :: 0 <= i < |values| ==> Abs(values[i]) <= absMax
    ensures step > 0.0 && step * LargestOf(bits) as real == absMax && scale == center * step
    ensures AllRestored(q, values, step, LargestOf(bits), absMax) && forall i :: 0 <= i < |q| ==> InRange(q[i], bits)
  {
    LevelsAre(bits);
    var levels := Levels(bits) as real;
    var qScale := levels / absMax;
    step := StepOfScale(levels, absMax, qScale);
    q := QuantizeQuery(values, qScale, bits, absMax);
    AllRestore(q, values, qScale, step, LargestOf(bits), absMax);
    scale := center / qScale;
    QuotientIsProduct(center, qScale, step);
  }

  lemma {:induction false} AllRestore(q: seq<int>, values: seq<real>, scale: real, step: real, levels: nat, m: real)
    requires |q| == |values| && forall i :: 0 <= i < |q| ==> Near(q[i], values[i], scale)
    requires scale > 0.0 && step > 0.0 && scale * step == 1.0 && step * levels as real == m
    ensures AllRestored(q, values, step, levels, m)
  {
    forall i | 0 <= i < |q|
      ensures Restores(q[i], values[i], step, levels, m)
    {
      NearRestores(q[i], values[i], scale, step, levels, m);
    }
  }

  lemma {:induction false} QuotientIsProduct(center: real, scale: real, step: real)
    requires scale > 0.0 && scale * step == 1.0
    ensures center / scale == center * step
  {
    var x := center / scale;
    assert x * scale == center;
    assert x * scale * step == x * (scale * step);
  }

  // ----- the score of a query

  /** The exact plus or minus one dot product of the components before quantization. */
  ghost function ExactDot(values: seq<real>, code: seq<Byte>, n: nat): real
    requires n <= |values|
  {
    if n == 0 then 0.0 else ExactDot(values, code, n - 1) + if InCode(code, n - 1) then values[n - 1] else -values[n - 1]
  }

  /** So many steps are within half a step for each dimension of the value. */
  ghost predicate DotsClose(steps: int, value: real, n: nat, step: real) {
    -(n as real * step) <= 2.0 * (steps as real * step - value) <= n as real * step
  }

  lemma {:induction false} OneMoreClose(a: int, e: real, n: nat, step: real, q: int, y: real, levels: nat, m: real,
                                        sign: bool)
    requires DotsClose(a, e, n, step) && Restores(q, y, step, levels, m)
    ensures DotsClose(if sign then a + q else a - q, if sign then e + y else e - y, n + 1, step)
  {
    var x, z := a as real * step, q as real * step;
    assert (a + q) as real * step == x + z && (a - q) as real * step == x - z;
    assert (n + 1) as real * step == n as real * step + step;
  }

  /** The quantized dot product is within half a step for each dimension of the exact one. */
  lemma {:induction false} DotIsClose(q: seq<int>, values: seq<real>, code: seq<Byte>, step: real, levels: nat, m: real,
                                      n: nat)
    requires n <= |q| && AllRestored(q, values, step, levels, m)
    ensures DotsClose(SignedDot(q, code, n), ExactDot(values, code, n), n, step)
  {
    if n > 0 {
      DotIsClose(q, values, code, step, levels, m, n - 1);
      OneMoreClose(SignedDot(q, code, n - 1), ExactDot(values, code, n - 1), n - 1, step, q[n - 1], values[n - 1], levels, m,
                   InCode(code, n - 1));
    }
  }

  /** The score: the quantized dot product in steps, times the center of the codes. */
  ghost predicate ScoreClose(score: real, exact: real, n: nat, step: real, center: real) {
    -(center * (n as real * step)) <= 2.0 * (score - center * exact) <= center * (n as real * step)
  }

  lemma {:induction false} CenteredClose(a: int, step: real, e: real, n: nat, center: real)
    requires DotsClose(a, e, n, step) && center >= 0.0
    ensures ScoreClose(center * step * a as real, e, n, step, center)
  {
    var d, w := a as real * step - e, n as real * step;
    Scaled(center, -w, 2.0 * d);
    Scaled(center, 2.0 * d, w);
    assert center * step * a as real == center * (a as real * step);
    assert center * (a as real * step) - center * e == center * d;
  }

  lemma {:induction false} ScaledClose(a: int, step: real, e: real, n: nat, center: real, scale: real, score: real)
    requires DotsClose(a, e, n, step) && center >= 0.0 && scale == center * step && score == scale * a as real
    ensures ScoreClose(score, e, n, step, center)
  {
    CenteredClose(a, step, e, n, center);
  }

  /** So the score is within half a step for each dimension of the exact dot product, both times the center. */
  lemma {:induction false} ScoreIsClose(q: seq<int>, values: seq<real>, code: seq<Byte>, step: real, levels: nat,
                                        m: real, center: real, scale: real, score: real)
    requires AllRestored(q, values, step, levels, m)
    requires center >= 0.0 && scale == center * step && score == scale * SignedDot(q, code, |q|) as real
    ensures ScoreClose(score, ExactDot(values, code, |q|), |q|, step, center)
  {
    var a := SignedDot(q, code, |q|);
    DotIsClose(q, values, code, step, levels, m, |q|);
    ScaledClose(a, step, ExactDot(values, code, |q|), |q|, center, scale, score);
  }
}
