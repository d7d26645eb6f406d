/** The scalar scorer of 1-bit codes: popcounts of code AND plane, weighted, block by block and then a padded tail. */
module BitPlaneScoring {
  import opened Integers
  import opened BitPlanes

  /** The code bytes that a block is scored with. */
  ghost predicate BlockData(data: seq<Byte>, code: seq<Byte>, block: nat) {
    |data| == BLOCK_BYTES && forall i :: 0 <= i < |data| ==> data[i] == CodeByte(code, 16 * block + i)
  }

  /** The set bits that a block and one of its planes have in common. */
  method PlanePopcount(data: seq<Byte>, planes: seq<Byte>, bits: nat, block: nat, b: nat,
                       ghost code: seq<Byte>) returns (pop: nat)
    requires BlockData(data, code, block) && Address(bits, block, b, |data|) <= |planes|
    ensures pop == Popcount(planes, code, bits, block, b, |data|)
  {
    pop := 0;
    var i: nat := 0;
    while i < |data|
      invariant i <= |data| && pop == Popcount(planes, code, bits, block, b, i)
    {
      pop := pop + |data[i] * planes[Address(bits, block, b, i)]|;
      i := i + 1;
    }
  }

  lemma {:induction false} PlaneInside(planes: seq<Byte>, bits: nat, block: nat, b: nat)
    requires b < bits && Address(bits, block, bits, 0) <= |planes|
    ensures Address(bits, block, b, BLOCK_BYTES) <= |planes|
  {
    assert 16 * b + BLOCK_BYTES <= 16 * bits;
  }

  /** One block, plane by plane; the last plane is the sign and counts negatively. */
  method ScoreBlock(data: seq<Byte>, planes: seq<Byte>, bits: nat, block: nat, v: int,
                    ghost code: seq<Byte>) returns (v': int)
    requires BlockData(data, code, block) && Address(bits, block, bits, 0) <= |planes|
    ensures v' == v + BlockScore(planes, code, bits, block, bits)
  {
    v' := v;
    var b: nat := 0;
    while b < bits
      invariant b <= bits && v' == v + BlockScore(planes, code, bits, block, b)
    {
      PlaneInside(planes, bits, block, b);
      var pop := PlanePopcount(data, planes, bits, block, b, code);
      v' := if b == bits - 1 then v' - Pow2(bits - 1) * pop else v' + Pow2(b) * pop;
      b := b + 1;
    }
  }

  lemma {:induction false} BlocksFit(bits: nat, block: nat, blocks: nat)
    requires Width(bits) && block < blocks
    ensures Address(bits, block, bits, 0) <= PlaneBytes(bits, blocks)
  {
    PlaneBytesAre(bits, block + 1);
    PlaneBytesAre(bits, blocks);
  }

  /** Full blocks are read from the code itself. */
  lemma {:induction false} FullBlock(code: seq<Byte>, block: nat)
    requires BLOCK_BYTES * (block + 1) <= |code|
    ensures BlockData(code[BLOCK_BYTES * block..BLOCK_BYTES * block + BLOCK_BYTES], code, block)
  {
  }

  /** The tail is copied into a block of zeroes. */
  lemma {:induction false} TailBlock(code: seq<Byte>, block: nat)
    requires BLOCK_BYTES * block < |code| <= BLOCK_BYTES * (block + 1)
    ensures BlockData(code[BLOCK_BYTES * block..] + seq(BLOCK_BYTES - (|code| - BLOCK_BYTES * block), i => {}), code, block)
  {
  }

  method ScoreFullBlocks(planes: seq<Byte>, bits: nat, numFullBlocks: nat, code: seq<Byte>,
                         ghost blocks: nat) returns (v: int)
    requires Width(bits) && BLOCK_BYTES * numFullBlocks <= |code| && numFullBlocks <= blocks && PlaneBytes(bits, blocks) <= |planes|
    ensures PlaneBytes(bits, numFullBlocks) <= |planes| && v == Score(planes, code, bits, numFullBlocks)
  {
    v := 0;
    var block: nat := 0;
    while block < numFullBlocks
      invariant block <= numFullBlocks && PlaneBytes(bits, block) <= |planes| && v == Score(planes, code, bits, block)
    {
      BlockInCode(code, block, numFullBlocks);
      FullBlock(code, block);
      v := ScoreNext(code[BLOCK_BYTES * block..BLOCK_BYTES * block + BLOCK_BYTES], planes, bits, block, v, code, blocks);
      block := block + 1;
    }
    MorePlanes(bits, numFullBlocks, blocks);
  }

  lemma {:induction false} BlockInCode(code: seq<Byte>, block: nat, full: nat)
    requires block < full && BLOCK_BYTES * full <= |code|
    ensures BLOCK_BYTES * block + BLOCK_BYTES == BLOCK_BYTES * (block + 1) <= |code|
  {
  }

  lemma {:induction false} MorePlanes(bits: nat, block: nat, blocks: nat)
    requires Width(bits) && block <= blocks
    ensures PlaneBytes(bits, block) <= PlaneBytes(bits, blocks)
  {
    PlaneBytesAre(bits, block);
    PlaneBytesAre(bits, blocks);
  }

  /** The full blocks, and the tail as one more. */
  method ScoreAllBlocks(planes: seq<Byte>, bits: nat, numFullBlocks: nat, tailBytes: nat,
                        code: seq<Byte>) returns (v: int)
    requires Width(bits) && tailBytes <= BLOCK_BYTES && |code| == BLOCK_BYTES * numFullBlocks + tailBytes
    requires PlaneBytes(bits, Blocks(numFullBlocks, tailBytes)) <= |planes|
    ensures v == Score(planes, code, bits, Blocks(numFullBlocks, tailBytes))
  {
    v := ScoreFullBlocks(planes, bits, numFullBlocks, code, Blocks(numFullBlocks, tailBytes));
    if tailBytes > 0 {
      var scratch := PaddedTail(code, numFullBlocks, tailBytes);
      v := ScoreNext(scratch, planes, bits, numFullBlocks, v, code, Blocks(numFullBlocks, tailBytes));
    }
  }

  /** Twice the weighted popcounts minus the sum of the query, scaled. */
  method AsymBit1RawScore(planes: seq<Byte>, bits: nat, numFullBlocks: nat, tailBytes: nat, code: seq<Byte>,
                          sumSigned: int, scale: real)
    returns (score: real)
    requires Width(bits) && tailBytes <= BLOCK_BYTES && |code| == BLOCK_BYTES * numFullBlocks + tailBytes
    requires PlaneBytes(bits, Blocks(numFullBlocks, tailBytes)) <= |planes|
    ensures score == scale * (2 * Score(planes, code, bits, Blocks(numFullBlocks, tailBytes)) - sumSigned) as real
  {
    var v := ScoreAllBlocks(planes, bits, numFullBlocks, tailBytes, code);
    score := scale * (2 * v - sumSigned) as real;
  }

  /** The tail, zero padded to a block. */
  method PaddedTail(code: seq<Byte>, block: nat, tailBytes: nat) returns (scratch: seq<Byte>)
    requires 0 < tailBytes <= BLOCK_BYTES && |code| == BLOCK_BYTES * block + tailBytes
    ensures BlockData(scratch, code, block)
  {
    TailBlock(code, block);
    scratch := code[BLOCK_BYTES * block..] + seq(BLOCK_BYTES - tailBytes, i => {});
  }

  function Blocks(numFullBlocks: nat, tailBytes: nat): nat {
    numFullBlocks + if tailBytes > 0 then 1 else 0
  }

  /** The next block of so many is added to the score of those before it. */
  method ScoreNext(data: seq<Byte>, planes: seq<Byte>, bits: nat, block: nat, v: int, ghost code: seq<Byte>,
                   ghost blocks: nat) returns (v': int)
    requires Width(bits) && block < blocks && PlaneBytes(bits, blocks) <= |planes| && BlockData(data, code, block)
    requires PlaneBytes(bits, block) <= |planes| && v == Score(planes, code, bits, block)
    ensures PlaneBytes(bits, block + 1) <= |planes| && v' == Score(planes, code, bits, block + 1)
  {
    BlocksFit(bits, block, blocks);
    v' := ScoreBlock(data, planes, bits, block, v, code);
  }

  lemma {:induction false} BlocksOfDim(dim: nat)
    ensures Blocks(dim / 128, (dim % 128 + 7) / 8) == (dim + 127) / 128
    ensures 16 * (dim / 128) + (dim % 128 + 7) / 8 == (dim + 7) / 8 && (dim % 128 + 7) / 8 <= 16
  {
    var q, r := dim / 128, dim % 128;
    assert dim == 128 * q + r;
  }

  /** Against prepared planes the scorer returns the exact dot product with the quantized query, scaled. */
  method ScoreCode(planes: seq<Byte>, q: seq<int>, bits: nat, code: seq<Byte>, sumSigned: int,
                   scale: real) returns (score: real)
    requires Width(bits) && Answers(planes, q, bits, sumSigned) && |code| == (|q| + 7) / 8
    ensures score == scale * SignedDot(q, code, |q|) as real
  {
    BlocksOfDim(|q|);
    score := AsymBit1RawScore(planes, bits, |q| / 128, (|q| % 128 + 7) / 8, code, sumSigned, scale);
  }
}
