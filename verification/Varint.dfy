/** Bytes, 16-bit values and 32-bit variable-length integers as postings payloads hold them. */
module Varint {
  import opened Wrappers

  type Byte = b: nat | b < 256

  const TWO_32: nat := 0x1_0000_0000

  /** Seven bits per byte, low bits first, the high bit set on all but the last byte; then the rest. */
  function PutVarint(value: nat, rest: seq<Byte>): (bytes: seq<Byte>)
    ensures |bytes| == VarintLen(value) + |rest|
  {
    if value >= 128 then [value % 128 + 128] + PutVarint(value / 128, rest) else [value] + rest
  }

  function VarintLen(value: nat): (n: nat)
    ensures n > 0
  {
    if value >= 128 then 1 + VarintLen(value / 128) else 1
  }

  /** A decoded value and the bytes after it. */
  datatype Read = Read(value: nat, rest: seq<Byte>)

  /** Reads at most five bytes; scale is 128 to the number of bytes read, and bits beyond 32 are lost. */
  function GetVarintFrom(bytes: seq<Byte>, count: nat, scale: nat, result: nat): (r: Option<Read>)
    requires count <= 5
    ensures r.Some? ==> |r.value.rest| < |bytes|
    decreases 5 - count
  {
    if bytes != [] && count < 5 then
      var result' := (result + bytes[0] % 128 * scale) % TWO_32;
      if bytes[0] < 128 then Some(Read(result', bytes[1..]))
      else GetVarintFrom(bytes[1..], count + 1, scale * 128, result')
    else None
  }

  function GetVarint(bytes: seq<Byte>): (r: Option<Read>)
    ensures r.Some? ==> |r.value.rest| < |bytes|
  {
    GetVarintFrom(bytes, 0, 1, 0)
  }

  lemma {:induction false} DigitsAddUp(value: nat, scale: nat)
    ensures value % 128 * scale + value / 128 * (scale * 128) == value * scale
    ensures value % 128 * scale <= value * scale
  {
    var q, r := value / 128, value % 128;
    assert value == q * 128 + r;
    assert (q * 128 + r) * scale == q * 128 * scale + r * scale;
    assert q * (scale * 128) == q * 128 * scale;
    assert q * (scale * 128) >= 0;
  }

  /** value has at most 5 - count digits of seven bits. */
  ghost predicate Short(value: nat, count: nat) {
    count < 5 && (value >= 128 ==> Short(value / 128, count + 1))
  }

  /** One step of reading, with the product named. */
  lemma {:induction false} OneDigit(bytes: seq<Byte>, value: nat, count: nat, scale: nat, result: nat, digit: nat)
    requires bytes != [] && count < 5 && bytes[0] == (if value >= 128 then value % 128 + 128 else value)
    requires digit == value % 128 * scale && result + digit < TWO_32
    ensures GetVarintFrom(bytes, count, scale, result) ==
            if value >= 128 then GetVarintFrom(bytes[1..], count + 1, scale * 128, result + digit)
            else Some(Read(result + digit, bytes[1..]))
  {
    assert bytes[0] % 128 == value % 128;
    assert (result + digit) % TWO_32 == result + digit;
  }

  lemma {:induction false} VarintReads(value: nat, rest: seq<Byte>, count: nat, scale: nat, result: nat, total: nat)
    requires count <= 5 && Short(value, count) && total == result + value * scale < TWO_32
    ensures GetVarintFrom(PutVarint(value, rest), count, scale, result) == Some(Read(total, rest))
    decreases value
  {
    var bytes, digit := PutVarint(value, rest), value % 128 * scale;
    DigitsAddUp(value, scale);
    OneDigit(bytes, value, count, scale, result, digit);
    if value >= 128 {
      assert bytes[1..] == PutVarint(value / 128, rest);
      VarintReads(value / 128, rest, count + 1, scale * 128, result + digit, total);
    } else {
      assert value % 128 == value && bytes[1..] == rest;
    }
  }

  /** The number of values of at most that many seven-bit digits. */
  function Limit(digits: nat): nat {
    if digits == 0 then 1 else 128 * Limit(digits - 1)
  }

  lemma {:induction false} FewDigits(value: nat, count: nat)
    requires count < 5 && value < Limit(5 - count)
    ensures Short(value, count) && VarintLen(value) <= 5 - count
    decreases 5 - count
  {
    if value >= 128 {
      FewDigits(value / 128, count + 1);
    }
  }

  /** Every 32-bit value is written in the predicted length, at most five bytes, and read back. */
  lemma {:induction false} VarintRoundTrip(value: nat, rest: seq<Byte>)
    requires value < TWO_32
    ensures GetVarint(PutVarint(value, rest)) == Some(Read(value, rest))
    ensures |PutVarint(value, rest)| == VarintLen(value) + |rest| && VarintLen(value) <= 5
  {
    assert Limit(1) == 128 && Limit(2) == 128 * 128 && Limit(3) == 128 * 128 * 128;
    assert Limit(4) == 128 * Limit(3) && Limit(5) == 128 * Limit(4);
    FewDigits(value, 0);
    VarintReads(value, rest, 0, 1, 0, value);
  }

  lemma {:induction false} PutAppends(value: nat, rest: seq<Byte>)
    ensures PutVarint(value, rest) == PutVarint(value, []) + rest
  {
    if value >= 128 {
      PutAppends(value / 128, rest);
    }
  }

  /** The writing loop, at the end of a buffer. */
  method AppendVarint(buffer: seq<Byte>, value: nat) returns (buffer': seq<Byte>)
    ensures buffer' == buffer + PutVarint(value, [])
  {
    buffer' := buffer;
    var v := value;
    while v >= 128
      invariant buffer' + PutVarint(v, []) == buffer + PutVarint(value, [])
    {
      buffer' := buffer' + [v % 128 + 128];
      v := v / 128;
    }
    buffer' := buffer' + [v];
  }

  /** The reading loop: a cursor into the payload. */
  method ReadVarint(data: seq<Byte>, ptr: nat) returns (ok: bool, value: nat, next: nat)
    requires ptr <= |data|
    ensures ok <==> GetVarint(data[ptr..]).Some?
    ensures ok ==> ptr < next <= |data| && GetVarint(data[ptr..]) == Some(Read(value, data[next..]))
  {
    var count: nat, scale: nat := 0, 1;
    value, next := 0, ptr;
    while next < |data| && count < 5
      invariant ptr <= next <= |data| && count <= 5
      invariant GetVarintFrom(data[next..], count, scale, value) == GetVarint(data[ptr..])
      decreases 5 - count
    {
      var byte := data[next];
      assert data[next..][1..] == data[next + 1..];
      value := (value + byte % 128 * scale) % TWO_32;
      next := next + 1;
      if byte < 128 {
        return true, value, next;
      }
      count, scale := count + 1, scale * 128;
    }
    return false, 0, ptr;
  }

  // ----- 16-bit values

  function Low(value: nat): Byte { value % 256 }

  function High(value: nat): Byte
    requires value < 65536
  {
    value / 256
  }

  function GetUint16(data: seq<Byte>, ptr: nat): (v: nat)
    requires ptr + 2 <= |data|
    ensures v < 65536
  {
    (data[ptr] as nat) + 256 * (data[ptr + 1] as nat)
  }

  /** The bytes of a 16-bit value stand at ptr. */
  ghost predicate Holds16(data: seq<Byte>, ptr: nat, value: nat) {
    ptr + 2 <= |data| && value < 65536 && data[ptr] == Low(value) && data[ptr + 1] == High(value)
  }

  lemma {:induction false} Uint16RoundTrip(data: seq<Byte>, ptr: nat, value: nat)
    requires Holds16(data, ptr, value)
    ensures GetUint16(data, ptr) == value
  {
  }
}
