/** What the bytes of varints and postings chunks are, place by place, and which encoding a chunk gets. */
module CodecLaws {
  import opened Integers
  import opened Varint
  import opened PostingsCodec

  // ----- varints

  /** The value that seven bits of each byte make, low bytes first. */
  ghost function Digits(bytes: seq<Byte>): nat {
    if bytes == [] then 0 else bytes[0] % 128 + 128 * Digits(bytes[1..])
  }

  /** The high bit is set on all bytes but the last, which is not zero unless it is alone. */
  ghost predicate Terminated(bytes: seq<Byte>) {
    && bytes != [] && (forall i :: 0 <= i < |bytes| ==> (bytes[i] >= 128 <==> i < |bytes| - 1))
    && (|bytes| > 1 ==> bytes[|bytes| - 1] > 0)
  }

  lemma {:induction false} SameLowBits(byte: nat, value: nat)
    requires byte == value % 128 + 128
    ensures byte % 128 == value % 128 && value == value % 128 + 128 * (value / 128)
  {
  }

  lemma {:induction false} VarintIs(value: nat)
    ensures Terminated(PutVarint(value, [])) && Digits(PutVarint(value, [])) == value
  {
    var bytes := PutVarint(value, []);
    if value >= 128 {
      VarintIs(value / 128);
      var rest := PutVarint(value / 128, []);
      assert bytes == [value % 128 + 128] + rest && bytes[1..] == rest;
      SameLowBits(bytes[0], value);
      assert Digits(bytes) == value % 128 + 128 * Digits(rest);
      forall i | 0 <= i < |bytes|
        ensures bytes[i] >= 128 <==> i < |bytes| - 1
      {
        assert i > 0 ==> bytes[i] == rest[i - 1];
      }
    } else {
      assert bytes == [value] && Digits(bytes[1..]) == 0;
    }
  }

  /** No other such bytes make the value. */
  lemma {:induction false} VarintIsUnique(bytes: seq<Byte>)
    requires Terminated(bytes)
    ensures bytes == PutVarint(Digits(bytes), [])
  {
    var rest := bytes[1..];
    if |bytes| == 1 {
      assert Digits(rest) == 0 && bytes == [bytes[0]];
    } else {
      forall i | 0 <= i < |rest|
        ensures rest[i] >= 128 <==> i < |rest| - 1
      {
        assert rest[i] == bytes[i + 1];
      }
      assert rest[|rest| - 1] == bytes[|bytes| - 1];
      VarintIsUnique(rest);
      PositiveDigits(rest);
      var d := Digits(bytes);
      assert d % 128 == bytes[0] % 128 && d / 128 == Digits(rest);
      assert bytes[0] == d % 128 + 128;
      assert bytes == [bytes[0]] + rest;
    }
  }

  lemma {:induction false} PositiveDigits(bytes: seq<Byte>)
    requires bytes != [] && 0 < bytes[|bytes| - 1] < 128
    ensures Digits(bytes) > 0
  {
    if |bytes| > 1 {
      PositiveDigits(bytes[1..]);
    }
  }

  // ----- the encoding that is chosen

  ghost predicate StepsFit(ps: seq<Posting>) {
    forall i :: 0 < i < |ps| ==> ps[i].node - ps[i - 1].node <= 65535
  }

  /**
   Offsets if the last node is at most 65535 beyond the first, in columns when there are norms;
   else deltas if no two neighbours are farther apart than that; else varints.
   */
  lemma {:induction false} ChosenIs(ps: seq<Posting>, hasTfNorm: bool)
    requires Encodable(ps, hasTfNorm)
    ensures Chosen(ps, hasTfNorm) ==
            if ps[|ps| - 1].node - ps[0].node <= 65535 then (if hasTfNorm then Offset16Soa else Offset16)
            else if StepsFit(ps) then Delta16
            else DeltaVarint
  {
    var n := |ps| - 1;
    assert Value(Offset16, ps, n) == ps[n].node - ps[0].node;
    if ps[n].node - ps[0].node <= 65535 {
      forall i | 0 <= i < |ps|
        ensures 0 <= Value(Offset16, ps, i) <= UINT16_MAX
      {
        assert i < n ==> ps[i].node <= ps[n].node;
        assert i > 0 ==> ps[0].node <= ps[i].node;
      }
    }
    forall i | 0 <= i < |ps|
      ensures Value(Delta16, ps, i) == if i == 0 then 0 else ps[i].node - ps[i - 1].node
      ensures i > 0 ==> ps[i - 1].node <= ps[i].node
    {
    }
    if Narrow(Delta16, ps) {
      forall i | 0 < i < |ps|
        ensures ps[i].node - ps[i - 1].node <= 65535
      {
        assert Value(Delta16, ps, i) <= UINT16_MAX;
      }
    }
    if StepsFit(ps) {
      forall i | 0 <= i < |ps|
        ensures 0 <= Value(Delta16, ps, i) <= UINT16_MAX
      {
      }
    }
  }

  // ----- layout

  /** Two bytes, the low one first. */
  ghost predicate TwoBytes(data: seq<Byte>, at: nat, value: int) {
    at + 2 <= |data| && data[at] as int + 256 * data[at + 1] as int == value
  }

  lemma {:induction false} HeldPair(data: seq<Byte>, at: nat, value: nat)
    requires Holds16(data, at, value)
    ensures TwoBytes(data, at, value)
  {
  }

  /** What a written tuple holds in front of its norms. */
  ghost predicate DataLaidOut(enc: Encoding, ps: seq<Posting>, data: seq<Byte>, i: nat)
    requires ps != [] && i < |ps|
  {
    match enc
    case Offset16 => TwoBytes(data, 4 * i, ps[i].node - ps[0].node) && TwoBytes(data, 4 * i + 2, ps[i].tf)
    case Offset16Soa => TwoBytes(data, 2 * i, ps[i].node - ps[0].node) && TwoBytes(data, 2 * |ps| + 2 * i, ps[i].tf)
    case Delta16 => TwoBytes(data, 4 * i, if i == 0 then 0 else ps[i].node - ps[i - 1].node) && TwoBytes(data, 4 * i + 2, ps[i].tf)
    case DeltaVarint => true
  }

  /** The fixed-width encodings: offset or step, and frequency, interleaved or in two columns. */
  lemma {:induction false} FixedLayout(t: PostingsTuple, ps: seq<Posting>, hasTfNorm: bool, i: nat)
    requires Encodable(ps, hasTfNorm) && Encodes(t, ps, hasTfNorm) && i < |ps|
    ensures DataLaidOut(t.encoding, ps, t.payload[..DataEnd(t)], i)
    ensures !t.encoding.DeltaVarint? ==> DataEnd(t) == 4 * |ps|
  {
    var data := t.payload[..DataEnd(t)];
    if !t.encoding.DeltaVarint? {
      assert HoldsPair(t.encoding, ps, data, i);
      HeldPair(data, ValueAt(t.encoding, i), Value(t.encoding, ps, i));
      HeldPair(data, TfAt(t.encoding, |ps|, i), ps[i].tf);
    }
  }

  /** The norms, two bytes each, at the end. */
  lemma {:induction false} NormLayout(t: PostingsTuple, ps: seq<Posting>, hasTfNorm: bool, i: nat)
    requires Encodable(ps, hasTfNorm) && Encodes(t, ps, hasTfNorm) && i < |ps| && hasTfNorm
    ensures |t.payload| == DataEnd(t) + 2 * |ps| && TwoBytes(t.payload, DataEnd(t) + 2 * i, ps[i].tfNorm)
  {
    var norms := t.payload[DataEnd(t)..];
    HeldPair(norms, 2 * i, ps[i].tfNorm);
    assert norms[2 * i] == t.payload[DataEnd(t) + 2 * i] && norms[2 * i + 1] == t.payload[DataEnd(t) + 2 * i + 1];
  }

  /** The step and the frequency of each posting from i on, as varints one after the other. */
  ghost predicate Steps(bytes: seq<Byte>, ps: seq<Posting>, i: nat)
    requires i <= |ps|
    decreases |ps| - i
  {
    if i == |ps| then bytes == []
    else
      exists step: seq<Byte>, tf: seq<Byte>, rest: seq<Byte> ::
        && bytes == step + tf + rest && Terminated(step) && Terminated(tf) && Steps(rest, ps, i + 1)
        && Digits(step) == (if i == 0 then 0 else ps[i].node - ps[i - 1].node) && Digits(tf) == ps[i].tf
  }

  lemma {:induction false} VarintsAreSteps(ps: seq<Posting>, hasTfNorm: bool, i: nat)
    requires Encodable(ps, hasTfNorm) && i <= |ps|
    ensures Steps(Varints(ps, i), ps, i)
    decreases |ps| - i
  {
    if i < |ps| {
      VarintsAreSteps(ps, hasTfNorm, i + 1);
      NodeRecovered(DeltaVarint, ps, hasTfNorm, i);
      var value, rest := Value(DeltaVarint, ps, i), Varints(ps, i + 1);
      var step, tf := PutVarint(value, []), PutVarint(ps[i].tf, []);
      PutAppends(value, PutVarint(ps[i].tf, rest));
      PutAppends(ps[i].tf, rest);
      VarintIs(value);
      VarintIs(ps[i].tf);
      assert Varints(ps, i) == step + tf + rest;
    }
  }

  /** A chunk of varints: these and nothing else in front of the norms. */
  lemma {:induction false} VarintLayout(t: PostingsTuple, ps: seq<Posting>, hasTfNorm: bool)
    requires Encodable(ps, hasTfNorm) && Encodes(t, ps, hasTfNorm) && t.encoding.DeltaVarint?
    ensures Steps(t.payload[..DataEnd(t)], ps, 0)
  {
    VarintsAreSteps(ps, hasTfNorm, 0);
  }
}
