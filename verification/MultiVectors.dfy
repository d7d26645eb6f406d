/** The multivector value: a count by dim matrix of floats, optionally cut into contexts with field ids. */
module MultiVectors {
  import opened Wrappers

  const MAX_DIM: int := 16000
  const MAX_COUNT: int := 4096
  const MAX_ALLOC: int := 0x3FFF_FFFF
  const HEADER_BYTES: int := 16

  type Int32 = x: int | -0x8000_0000 <= x < 0x8000_0000

  type Word = w: int | 0 <= w < 0x1_0000_0000

  /** A float is its IEEE 754 single-precision bit pattern; an exponent of all ones is infinite or NaN. */
  predicate Finite(bits: Word) {
    bits / 0x80_0000 % 0x100 != 0xFF
  }

  /** The stored struct; contexts and fields are the trailing metadata that the flags announce. */
  datatype MultiVector = MultiVector(
    dim: Int32, count: Int32, flags: Word, values: seq<Word>, contexts: seq<Int32>, fields: seq<Int32>)

  predicate HasContexts(flags: Word) {
    flags % 2 == 1
  }

  predicate HasFields(flags: Word) {
    flags / 2 % 2 == 1
  }

  predicate ValidHeader(count: Int32, dim: Int32) {
    0 < dim <= MAX_DIM && 0 < count <= MAX_COUNT
  }

  function ValueCount(count: Int32, dim: Int32): nat
    requires ValidHeader(count, dim)
  {
    (count as int) * (dim as int)
  }

  /** Context starts: the first at zero, strictly increasing, all within the count. */
  predicate ValidContexts(count: Int32, contexts: seq<Int32>) {
    && 0 < |contexts| <= count
    && contexts[0] == 0
    && (forall i :: 0 <= i < |contexts| ==> 0 <= contexts[i] < count)
    && (forall i, j :: 0 <= i < j < |contexts| ==> contexts[i] < contexts[j])
  }

  predicate ValidMetadata(mv: MultiVector) {
    && (HasFields(mv.flags) ==> HasContexts(mv.flags))
    && (if HasContexts(mv.flags) then ValidContexts(mv.count, mv.contexts) else mv.contexts == [])
    && |mv.fields| == (if HasFields(mv.flags) then |mv.contexts| else 0)
    && (forall i :: 0 <= i < |mv.fields| ==> mv.fields[i] >= 0)
  }

  predicate AllFinite(values: seq<Word>) {
    forall i :: 0 <= i < |values| ==> Finite(values[i])
  }

  predicate Valid(mv: MultiVector) {
    && mv.flags < 4
    && ValidHeader(mv.count, mv.dim)
    && |mv.values| == ValueCount(mv.count, mv.dim)
    && AllFinite(mv.values)
    && ValidMetadata(mv)
  }

  /** Bytes of the stored value with its metadata. */
  function StoredSize(count: int, dim: int, contexts: int, fields: int): int {
    HEADER_BYTES + 4 * (count * dim) + 4 + 4 * contexts + 4 * fields
  }

  /** Within the header limits no size check can fail: the largest value stays far below the allocation limit. */
  lemma {:induction false} NeverTooLarge(count: Int32, dim: Int32, contexts: nat, fields: nat)
    requires ValidHeader(count, dim) && contexts <= count && fields <= contexts
    ensures count * dim <= MAX_ALLOC / 4
    ensures StoredSize(count, dim, contexts, fields) <= MAX_ALLOC
  {
    assert count * dim <= MAX_COUNT * dim;
  }

  /** The metadata pass: adjacent comparisons establish the order of all pairs. */
  method ValidateContexts(count: Int32, contexts: seq<Int32>, fields: Option<seq<Int32>>) returns (ok: bool)
    requires fields.Some? ==> |fields.value| == |contexts|
    ensures ok <==> ValidContexts(count, contexts)
                    && (fields.Some? ==> forall i :: 0 <= i < |fields.value| ==> fields.value[i] >= 0)
  {
    if |contexts| == 0 || |contexts| > count || contexts[0] != 0 {
      return false;
    }
    for i := 0 to |contexts|
      invariant forall k :: 0 <= k < i ==> 0 <= contexts[k] < count
      invariant forall j, k :: 0 <= j < k < i ==> contexts[j] < contexts[k]
      invariant fields.Some? ==> forall k :: 0 <= k < i ==> fields.value[k] >= 0
    {
      if contexts[i] < 0 || contexts[i] >= count {
        return false;
      }
      if i > 0 && contexts[i] <= contexts[i - 1] {
        return false;
      }
      if fields.Some? && fields.value[i] < 0 {
        return false;
      }
    }
    return true;
  }

  /** The check every entry point ends with; the payload sizes are the lengths of the sequences. */
  method CheckMultiVector(mv: MultiVector) returns (ok: bool)
    ensures ok <==> Valid(mv)
  {
    if mv.flags >= 4 || (HasFields(mv.flags) && !HasContexts(mv.flags)) || !ValidHeader(mv.count, mv.dim) {
      return false;
    }
    var contexts := if HasContexts(mv.flags) then |mv.contexts| else 0;
    var fields := if HasFields(mv.flags) then contexts else 0;
    if |mv.values| != ValueCount(mv.count, mv.dim) || |mv.contexts| != contexts || |mv.fields| != fields {
      return false;
    }
    for i := 0 to |mv.values|
      invariant forall k :: 0 <= k < i ==> Finite(mv.values[k])
    {
      if !Finite(mv.values[i]) {
        return false;
      }
    }
    ok := true;
    if HasContexts(mv.flags) {
      ok := ValidateContexts(mv.count, mv.contexts, if HasFields(mv.flags) then Some(mv.fields) else None);
    }
  }
}
