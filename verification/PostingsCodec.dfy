/** The four encodings of a postings chunk: offsets or deltas of 16 bits, interleaved or in columns, or varints. */
module PostingsCodec {
  import opened Integers
  import opened Wrappers
  import opened Varint

  /** tfNorm is zero in chunks without precomputed norms. */
  datatype Posting = Posting(node: nat, tf: nat, tfNorm: nat)

  datatype Encoding = Offset16 | Offset16Soa | Delta16 | DeltaVarint

  datatype PostingsTuple = PostingsTuple(
    count: nat, firstNode: nat, lastNode: nat, maxTf: nat, encoding: Encoding, hasTfNorm: bool, payload: seq<Byte>)

  ghost predicate FieldsFit(p: Posting, hasTfNorm: bool) {
    p.node <= UINT32_MAX && p.tf <= UINT16_MAX && p.tfNorm <= UINT16_MAX && (!hasTfNorm ==> p.tfNorm == 0)
  }

  /** A chunk the writer is given: sorted by node id, fields within their widths. */
  ghost predicate Encodable(ps: seq<Posting>, hasTfNorm: bool) {
    && ps != []
    && (forall i :: 0 <= i < |ps| ==> FieldsFit(ps[i], hasTfNorm))
    && (forall i, j :: 0 <= i < j < |ps| ==> ps[i].node <= ps[j].node)
  }

  predicate IsOffset(enc: Encoding) { enc.Offset16? || enc.Offset16Soa? }

  // ----- layout

  function PrevNode(ps: seq<Posting>, i: nat): nat
    requires ps != [] && i <= |ps|
  {
    if i == 0 then ps[0].node else ps[i - 1].node
  }

  /** What is stored for posting i instead of its node id. */
  function Value(enc: Encoding, ps: seq<Posting>, i: nat): int
    requires i < |ps|
  {
    ps[i].node - if IsOffset(enc) then ps[0].node else PrevNode(ps, i)
  }

  /** Every stored value fits into 16 bits. */
  ghost predicate Narrow(enc: Encoding, ps: seq<Posting>) {
    forall i :: 0 <= i < |ps| ==> 0 <= Value(enc, ps, i) <= UINT16_MAX
  }

  /** Where a fixed-width encoding keeps value and frequency of posting i. */
  function ValueAt(enc: Encoding, i: nat): nat { if enc.Offset16Soa? then 2 * i else 4 * i }

  function TfAt(enc: Encoding, count: nat, i: nat): nat { if enc.Offset16Soa? then 2 * count + 2 * i else 4 * i + 2 }

  /** Value and frequency of posting i stand in their places. */
  ghost predicate HoldsPair(enc: Encoding, ps: seq<Posting>, data: seq<Byte>, i: nat)
    requires i < |ps|
  {
    && 0 <= Value(enc, ps, i)
    && Holds16(data, ValueAt(enc, i), Value(enc, ps, i)) && Holds16(data, TfAt(enc, |ps|, i), ps[i].tf)
  }

  /** Varints of the postings from i on: the step from the previous node, and the frequency. */
  function Varints(ps: seq<Posting>, i: nat): seq<Byte>
    requires i <= |ps|
    decreases |ps| - i
  {
    if i == |ps| then []
    else if Value(DeltaVarint, ps, i) < 0 then []
    else PutVarint(Value(DeltaVarint, ps, i), PutVarint(ps[i].tf, Varints(ps, i + 1)))
  }

  ghost predicate HoldsData(enc: Encoding, ps: seq<Posting>, data: seq<Byte>) {
    if enc.DeltaVarint? then data == Varints(ps, 0)
    else |data| == 4 * |ps| && forall i :: 0 <= i < |ps| ==> HoldsPair(enc, ps, data, i)
  }

  ghost predicate HoldsNorms(ps: seq<Posting>, norms: seq<Byte>) {
    |norms| == 2 * |ps| && forall i :: 0 <= i < |ps| ==> Holds16(norms, 2 * i, ps[i].tfNorm)
  }

  /** Offsets where they fit, in columns when there are norms; else narrow deltas; else varints. */
  ghost function Chosen(ps: seq<Posting>, hasTfNorm: bool): Encoding {
    if Narrow(Offset16, ps) then (if hasTfNorm then Offset16Soa else Offset16)
    else if Narrow(Delta16, ps) then Delta16
    else DeltaVarint
  }

  function MaxTf(ps: seq<Posting>): (m: nat)
    ensures forall i :: 0 <= i < |ps| ==> ps[i].tf <= m
    ensures ps != [] ==> exists i :: 0 <= i < |ps| && ps[i].tf == m
  {
    if ps == [] then 0
    else
      var m, t := MaxTf(ps[..|ps| - 1]), ps[|ps| - 1].tf;
      if t > m || |ps| == 1 then t else m
  }

  function MaxNorm(ps: seq<Posting>): (m: nat)
    ensures forall i :: 0 <= i < |ps| ==> ps[i].tfNorm <= m
    ensures ps != [] ==> exists i :: 0 <= i < |ps| && ps[i].tfNorm == m
  {
    if ps == [] then 0
    else
      var m, t := MaxNorm(ps[..|ps| - 1]), ps[|ps| - 1].tfNorm;
      if t > m || |ps| == 1 then t else m
  }

  ghost predicate Encodes(t: PostingsTuple, ps: seq<Posting>, hasTfNorm: bool) {
    && ps != []
    && t.count == |ps| && t.firstNode == ps[0].node && t.lastNode == ps[|ps| - 1].node && t.maxTf == MaxTf(ps)
    && t.encoding == Chosen(ps, hasTfNorm) && t.hasTfNorm == hasTfNorm
    && DataEnd(t) >= 0 && HoldsData(t.encoding, ps, t.payload[..DataEnd(t)])
    && (hasTfNorm ==> HoldsNorms(ps, t.payload[DataEnd(t)..]))
  }

  // ----- decoding

  /** Where the norms start, if there is room for them. */
  function DataEnd(t: PostingsTuple): int {
    |t.payload| - if t.hasTfNorm then 2 * t.count else 0
  }

  /** The node id a stored value stands for, unless it is out of order or out of range. */
  function NodeAt(enc: Encoding, firstNode: nat, prev: nat, i: nat, value: nat): Option<nat> {
    if i == 0 && value != 0 then None
    else if IsOffset(enc) then
      var node := (firstNode + value) % TWO_32;
      if node < prev then None else Some(node)
    else if UINT32_MAX - prev < value then None
    else Some(prev + value)
  }

  datatype Raw = Raw(node: nat, tf: nat)

  function Prepend(raw: Raw, r: Option<seq<Raw>>): Option<seq<Raw>> {
    if r.None? then None else Some([raw] + r.value)
  }

  function DecodeFixed(enc: Encoding, data: seq<Byte>, count: nat, firstNode: nat, i: nat,
                       prev: nat): (r: Option<seq<Raw>>)
    requires |data| == 4 * count && i <= count
    ensures r.Some? ==> |r.value| == count - i
    decreases count - i
  {
    if i == count then Some([])
    else
      var node := NodeAt(enc, firstNode, prev, i, GetUint16(data, ValueAt(enc, i)));
      if node.None? then None
      else Prepend(Raw(node.value, GetUint16(data, TfAt(enc, count, i))), DecodeFixed(enc, data, count, firstNode, i + 1, node.value))
  }

  /** The next value and frequency, and the bytes after them. */
  datatype Pair = Pair(value: nat, tf: nat, rest: seq<Byte>)

  function GetPair(bytes: seq<Byte>): Option<Pair> {
    var v := GetVarint(bytes);
    if v.None? then None
    else
      var t := GetVarint(v.value.rest);
      if t.None? || t.value.value > UINT16_MAX then None else Some(Pair(v.value.value, t.value.value, t.value.rest))
  }

  function DecodeVarints(bytes: seq<Byte>, count: nat, firstNode: nat, i: nat, prev: nat): (r: Option<seq<Raw>>)
    requires i <= count
    ensures r.Some? ==> |r.value| == count - i
    decreases count - i
  {
    if i == count then (if bytes == [] then Some([]) else None)
    else
      var p := GetPair(bytes);
      if p.None? then None
      else
        var node := NodeAt(DeltaVarint, firstNode, prev, i, p.value.value);
        if node.None? then None
        else Prepend(Raw(node.value, p.value.tf), DecodeVarints(p.value.rest, count, firstNode, i + 1, node.value))
  }

  function WithNorms(raws: seq<Raw>, hasTfNorm: bool, norms: seq<Byte>): (ps: seq<Posting>)
    requires hasTfNorm ==> |norms| == 2 * |raws|
    ensures |ps| == |raws|
  {
    seq(|raws|, i requires 0 <= i < |raws| => Posting(raws[i].node, raws[i].tf, if hasTfNorm then GetUint16(norms, 2 * i) else 0))
  }

  function DecodeData(enc: Encoding, data: seq<Byte>, count: nat, firstNode: nat): (r: Option<seq<Raw>>)
    ensures r.Some? ==> |r.value| == count
  {
    if enc.DeltaVarint? then DecodeVarints(data, count, firstNode, 0, firstNode)
    else if |data| != 4 * count then None
    else DecodeFixed(enc, data, count, firstNode, 0, firstNode)
  }

  /** The postings of a tuple, or nothing if its payload is damaged. */
  function Decode(t: PostingsTuple): Option<seq<Posting>> {
    if DataEnd(t) < 0 then None
    else
      var r := DecodeData(t.encoding, t.payload[..DataEnd(t)], t.count, t.firstNode);
      if r.None? then None else Some(WithNorms(r.value, t.hasTfNorm, t.payload[DataEnd(t)..]))
  }

  // ----- round trip

  lemma {:induction false} NodeRecovered(enc: Encoding, ps: seq<Posting>, hasTfNorm: bool, i: nat)
    requires Encodable(ps, hasTfNorm) && i < |ps|
    ensures 0 <= Value(enc, ps, i) <= UINT32_MAX && ps[i].tf <= UINT16_MAX
    ensures NodeAt(enc, ps[0].node, PrevNode(ps, i), i, Value(enc, ps, i)) == Some(ps[i].node)
  {
    assert FieldsFit(ps[i], hasTfNorm);
    assert i > 0 ==> ps[i - 1].node <= ps[i].node && ps[0].node <= ps[i].node;
  }

  ghost function RawsFrom(ps: seq<Posting>, i: nat): seq<Raw>
    requires i <= |ps|
    decreases |ps| - i
  {
    if i == |ps| then [] else [Raw(ps[i].node, ps[i].tf)] + RawsFrom(ps, i + 1)
  }

  lemma {:induction false} RawsAt(ps: seq<Posting>, i: nat, j: nat)
    requires i <= j < |ps|
    ensures |RawsFrom(ps, i)| == |ps| - i && RawsFrom(ps, i)[j - i] == Raw(ps[j].node, ps[j].tf)
    decreases |ps| - i
  {
    if i + 1 < |ps| {
      RawsAt(ps, i + 1, if i < j then j else j + 1);
    }
  }

  lemma {:induction false} FixedRecovered(enc: Encoding, ps: seq<Posting>, hasTfNorm: bool, data: seq<Byte>, i: nat)
    requires Encodable(ps, hasTfNorm) && !enc.DeltaVarint? && HoldsData(enc, ps, data) && i <= |ps|
    ensures DecodeFixed(enc, data, |ps|, ps[0].node, i, PrevNode(ps, i)) == Some(RawsFrom(ps, i))
    decreases |ps| - i
  {
    if i < |ps| {
      NodeRecovered(enc, ps, hasTfNorm, i);
      assert HoldsPair(enc, ps, data, i);
      Uint16RoundTrip(data, ValueAt(enc, i), Value(enc, ps, i));
      Uint16RoundTrip(data, TfAt(enc, |ps|, i), ps[i].tf);
      FixedRecovered(enc, ps, hasTfNorm, data, i + 1);
    }
  }

  lemma {:induction false} PairRecovered(value: nat, tf: nat, rest: seq<Byte>)
    requires value <= UINT32_MAX && tf <= UINT16_MAX
    ensures GetPair(PutVarint(value, PutVarint(tf, rest))) == Some(Pair(value, tf, rest))
  {
    VarintRoundTrip(value, PutVarint(tf, rest));
    VarintRoundTrip(tf, rest);
  }

  lemma {:induction false} VarintStep(bytes: seq<Byte>, p: Pair, count: nat, firstNode: nat, i: nat, prev: nat,
                                      node: nat, raws: seq<Raw>)
    requires i < count && GetPair(bytes) == Some(p) && NodeAt(DeltaVarint, firstNode, prev, i, p.value) == Some(node)
    requires DecodeVarints(p.rest, count, firstNode, i + 1, node) == Some(raws)
    ensures DecodeVarints(bytes, count, firstNode, i, prev) == Some([Raw(node, p.tf)] + raws)
  {
  }

  /** The bytes hold the pairs of the postings from i on, and nothing else. */
  ghost predicate Parses(bytes: seq<Byte>, ps: seq<Posting>, i: nat)
    requires i <= |ps|
    decreases |ps| - i
  {
    if i == |ps| then bytes == []
    else
      var p := GetPair(bytes);
      p.Some? && p.value.value == Value(DeltaVarint, ps, i) && p.value.tf == ps[i].tf && Parses(p.value.rest, ps, i + 1)
  }

  lemma {:induction false} VarintsParse(ps: seq<Posting>, hasTfNorm: bool, i: nat)
    requires Encodable(ps, hasTfNorm) && i <= |ps|
    ensures Parses(Varints(ps, i), ps, i)
    decreases |ps| - i
  {
    if i < |ps| {
      NodeRecovered(DeltaVarint, ps, hasTfNorm, i);
      VarintsParse(ps, hasTfNorm, i + 1);
      ParseStep(ps, i, Value(DeltaVarint, ps, i), Varints(ps, i + 1));
    }
  }

  lemma {:induction false} ParseStep(ps: seq<Posting>, i: nat, value: nat, rest: seq<Byte>)
    requires i < |ps| && value == Value(DeltaVarint, ps, i) && value <= UINT32_MAX && ps[i].tf <= UINT16_MAX && Parses(rest, ps, i + 1)
    ensures Parses(PutVarint(value, PutVarint(ps[i].tf, rest)), ps, i)
  {
    PairRecovered(value, ps[i].tf, rest);
    PairParses(PutVarint(value, PutVarint(ps[i].tf, rest)), ps, i, Pair(value, ps[i].tf, rest));
  }

  lemma {:induction false} PairParses(bytes: seq<Byte>, ps: seq<Posting>, i: nat, p: Pair)
    requires i < |ps| && GetPair(bytes) == Some(p) && p.value == Value(DeltaVarint, ps, i) && p.tf == ps[i].tf && Parses(p.rest, ps, i + 1)
    ensures Parses(bytes, ps, i)
  {
  }

  lemma {:induction false} ParsedDecodes(bytes: seq<Byte>, ps: seq<Posting>, hasTfNorm: bool, i: nat)
    requires Encodable(ps, hasTfNorm) && i <= |ps| && Parses(bytes, ps, i)
    ensures DecodeVarints(bytes, |ps|, ps[0].node, i, PrevNode(ps, i)) == Some(RawsFrom(ps, i))
    decreases |ps| - i
  {
    if i < |ps| {
      NodeRecovered(DeltaVarint, ps, hasTfNorm, i);
      var p := GetPair(bytes).value;
      ParsedDecodes(p.rest, ps, hasTfNorm, i + 1);
      VarintStep(bytes, p, |ps|, ps[0].node, i, PrevNode(ps, i), ps[i].node, RawsFrom(ps, i + 1));
    }
  }

  lemma {:induction false} NormsRecovered(ps: seq<Posting>, hasTfNorm: bool, norms: seq<Byte>)
    requires Encodable(ps, hasTfNorm) && (hasTfNorm ==> HoldsNorms(ps, norms))
    ensures |RawsFrom(ps, 0)| == |ps| && WithNorms(RawsFrom(ps, 0), hasTfNorm, norms) == ps
  {
    RawsAt(ps, 0, 0);
    forall i | 0 <= i < |ps|
      ensures WithNorms(RawsFrom(ps, 0), hasTfNorm, norms)[i] == ps[i]
    {
      RawsAt(ps, 0, i);
      assert FieldsFit(ps[i], hasTfNorm);
      if hasTfNorm {
        Uint16RoundTrip(norms, 2 * i, ps[i].tfNorm);
      }
    }
  }

  /** Decoding what was encoded gives the postings back, whichever encoding was chosen. */
  lemma {:induction false} RoundTrip(t: PostingsTuple, ps: seq<Posting>, hasTfNorm: bool)
    requires Encodable(ps, hasTfNorm) && Encodes(t, ps, hasTfNorm)
    ensures Decode(t) == Some(ps)
  {
    var data := t.payload[..DataEnd(t)];
    if t.encoding.DeltaVarint? {
      VarintsParse(ps, hasTfNorm, 0);
      ParsedDecodes(data, ps, hasTfNorm, 0);
    } else {
      FixedRecovered(t.encoding, ps, hasTfNorm, data, 0);
    }
    assert DecodeData(t.encoding, data, t.count, t.firstNode) == Some(RawsFrom(ps, 0));
    NormsRecovered(ps, hasTfNorm, t.payload[DataEnd(t)..]);
  }

  // ----- the decoding loops

  function After(done: seq<Raw>, r: Option<seq<Raw>>): Option<seq<Raw>> {
    if r.None? then None else Some(done + r.value)
  }

  lemma {:induction false} AfterStep(done: seq<Raw>, raw: Raw, r: Option<seq<Raw>>)
    ensures After(done, Prepend(raw, r)) == After(done + [raw], r)
  {
    if r.Some? {
      assert done + ([raw] + r.value) == (done + [raw]) + r.value;
    }
  }

  lemma {:induction false} AfterEnds(done: seq<Raw>, r: Option<seq<Raw>>)
    ensures After([], r) == r && After(done, Some([])) == Some(done)
  {
    if r.Some? {
      assert [] + r.value == r.value;
    }
    assert done + [] == done;
  }

  method DecodeFixedLoop(enc: Encoding, data: seq<Byte>, count: nat, firstNode: nat) returns (r: Option<seq<Raw>>)
    requires |data| == 4 * count
    ensures r == DecodeFixed(enc, data, count, firstNode, 0, firstNode)
  {
    var prev, raws: seq<Raw> := firstNode, [];
    var i: nat := 0;
    AfterEnds(raws, DecodeFixed(enc, data, count, firstNode, 0, firstNode));
    while i < count
      invariant i <= count && |raws| == i
      invariant After(raws, DecodeFixed(enc, data, count, firstNode, i, prev)) == DecodeFixed(enc, data, count, firstNode, 0, firstNode)
    {
      var value, tf := GetUint16(data, ValueAt(enc, i)), GetUint16(data, TfAt(enc, count, i));
      var node := NodeAt(enc, firstNode, prev, i, value);
      if node.None? {
        return None;
      }
      AfterStep(raws, Raw(node.value, tf), DecodeFixed(enc, data, count, firstNode, i + 1, node.value));
      prev := node.value;
      raws := raws + [Raw(prev, tf)];
      i := i + 1;
    }
    AfterEnds(raws, None);
    return Some(raws);
  }

  /** Reads a pair of varints at a cursor. */
  method ReadPair(data: seq<Byte>, ptr: nat) returns (ok: bool, value: nat, tf: nat, next: nat)
    requires ptr <= |data|
    ensures ok <==> GetPair(data[ptr..]).Some?
    ensures ok ==> next <= |data| && GetPair(data[ptr..]) == Some(Pair(value, tf, data[next..]))
  {
    ok, value, next := ReadVarint(data, ptr);
    tf := 0;
    if ok {
      ok, tf, next := ReadVarint(data, next);
      ok := ok && tf <= UINT16_MAX;
    }
  }

  /** Reads posting i at a cursor. */
  method ReadPosting(data: seq<Byte>, count: nat, firstNode: nat, i: nat, ptr: nat, prev: nat)
    returns (ok: bool, node: nat, tf: nat, next: nat)
    requires ptr <= |data| && i < count
    ensures !ok ==> DecodeVarints(data[ptr..], count, firstNode, i, prev).None?
    ensures ok ==> next <= |data| && DecodeVarints(data[ptr..], count, firstNode, i, prev) ==
                   Prepend(Raw(node, tf), DecodeVarints(data[next..], count, firstNode, i + 1, node))
  {
    var value;
    ok, value, tf, next := ReadPair(data, ptr);
    node := 0;
    if ok {
      var n := NodeAt(DeltaVarint, firstNode, prev, i, value);
      if n.None? {
        ok := false;
      } else {
        node := n.value;
      }
    }
  }

  method DecodeVarintLoop(data: seq<Byte>, count: nat, firstNode: nat) returns (r: Option<seq<Raw>>)
    ensures r == DecodeVarints(data, count, firstNode, 0, firstNode)
  {
    var prev, raws: seq<Raw> := firstNode, [];
    var i: nat, ptr: nat := 0, 0;
    assert data[0..] == data;
    ghost var all := DecodeVarints(data, count, firstNode, 0, firstNode);
    AfterEnds(raws, all);
    while i < count
      invariant i <= count && ptr <= |data|
      invariant After(raws, DecodeVarints(data[ptr..], count, firstNode, i, prev)) == all
    {
      var ok, node, tf, next := ReadPosting(data, count, firstNode, i, ptr, prev);
      if !ok {
        return None;
      }
      AfterStep(raws, Raw(node, tf), DecodeVarints(data[next..], count, firstNode, i + 1, node));
      prev, ptr := node, next;
      raws := raws + [Raw(prev, tf)];
      i := i + 1;
    }
    AfterEnds(raws, None);
    return if ptr == |data| then Some(raws) else None;
  }

  method AttachNorms(raws: seq<Raw>, hasTfNorm: bool, norms: seq<Byte>) returns (ps: seq<Posting>)
    requires hasTfNorm ==> |norms| == 2 * |raws|
    ensures ps == WithNorms(raws, hasTfNorm, norms)
  {
    ps := [];
    for i := 0 to |raws|
      invariant |ps| == i && forall j :: 0 <= j < i ==> ps[j] == WithNorms(raws, hasTfNorm, norms)[j]
    {
      ps := ps + [Posting(raws[i].node, raws[i].tf, if hasTfNorm then GetUint16(norms, 2 * i) else 0)];
    }
  }

  method DecodePostings(t: PostingsTuple) returns (r: Option<seq<Posting>>)
    ensures r == Decode(t)
  {
    var end := DataEnd(t);
    if end < 0 {
      return None;
    }
    var data, norms := t.payload[..end], t.payload[end..];
    var raws: Option<seq<Raw>>;
    if t.encoding.DeltaVarint? {
      raws := DecodeVarintLoop(data, t.count, t.firstNode);
    } else if |data| != 4 * t.count {
      raws := None;
    } else {
      raws := DecodeFixedLoop(t.encoding, data, t.count, t.firstNode);
    }
    if raws.None? {
      return None;
    }
    var ps := AttachNorms(raws.value, t.hasTfNorm, norms);
    return Some(ps);
  }

  // ----- the encoding loops

  /** Which of the narrow encodings the chunk admits. */
  method NarrowEncodings(ps: seq<Posting>) returns (useOffset16: bool, useDelta16: bool)
    requires ps != []
    ensures useOffset16 == Narrow(Offset16, ps) && useDelta16 == Narrow(Delta16, ps)
  {
    useOffset16, useDelta16 := true, true;
    var prev := ps[0].node;
    for i := 0 to |ps|
      invariant prev == PrevNode(ps, i)
      invariant useOffset16 <==> forall j :: 0 <= j < i ==> 0 <= Value(Offset16, ps, j) <= UINT16_MAX
      invariant useDelta16 <==> forall j :: 0 <= j < i ==> 0 <= Value(Delta16, ps, j) <= UINT16_MAX
    {
      if !(0 <= Value(Offset16, ps, i) <= UINT16_MAX) {
        useOffset16 := false;
      }
      if !(0 <= Value(Delta16, ps, i) <= UINT16_MAX) {
        useDelta16 := false;
      }
      prev := ps[i].node;
    }
  }

  lemma {:induction false} SortedValues(enc: Encoding, ps: seq<Posting>, hasTfNorm: bool)
    requires Encodable(ps, hasTfNorm)
    ensures forall i :: 0 <= i < |ps| ==> Value(enc, ps, i) >= 0
  {
    forall i | 0 <= i < |ps|
      ensures Value(enc, ps, i) >= 0
    {
      NodeRecovered(enc, ps, hasTfNorm, i);
    }
  }

  lemma {:induction false} VarintsAppend(ps: seq<Posting>, i: nat, head: seq<Byte>, all: seq<Byte>)
    requires i < |ps| && Value(DeltaVarint, ps, i) >= 0 && head + Varints(ps, i) == all
    ensures ((head + PutVarint(Value(DeltaVarint, ps, i), [])) + PutVarint(ps[i].tf, [])) + Varints(ps, i + 1) == all
  {
    var v: nat, t, rest := Value(DeltaVarint, ps, i), ps[i].tf, Varints(ps, i + 1);
    PutAppends(v, PutVarint(t, rest));
    PutAppends(t, rest);
    var a, b := PutVarint(v, []), PutVarint(t, []);
    assert head + (a + (b + rest)) == ((head + a) + b) + rest;
  }

  /** The varint payload, together with the length predicted for it. */
  method EncodeVarints(ps: seq<Posting>, ghost hasTfNorm: bool) returns (bytes: seq<Byte>, predicted: nat)
    requires Encodable(ps, hasTfNorm)
    ensures bytes == Varints(ps, 0) && predicted == |bytes|
  {
    SortedValues(DeltaVarint, ps, hasTfNorm);
    bytes, predicted := [], 0;
    var i: nat := 0;
    while i < |ps|
      invariant i <= |ps| && bytes + Varints(ps, i) == Varints(ps, 0) && predicted == |bytes|
    {
      VarintsAppend(ps, i, bytes, Varints(ps, 0));
      var delta := Value(DeltaVarint, ps, i);
      predicted := predicted + VarintLen(delta) + VarintLen(ps[i].tf);
      bytes := AppendVarint(bytes, delta);
      bytes := AppendVarint(bytes, ps[i].tf);
      i := i + 1;
    }
  }

  method Put16(buffer: array<Byte>, ptr: nat, value: nat)
    requires ptr + 2 <= buffer.Length && value <= UINT16_MAX
    modifies buffer
    ensures Holds16(buffer[..], ptr, value)
    ensures forall k :: 0 <= k < buffer.Length && k != ptr && k != ptr + 1 ==> buffer[k] == old(buffer[k])
  {
    buffer[ptr], buffer[ptr + 1] := Low(value), High(value);
  }

  lemma {:induction false} HoldsElsewhere(a: seq<Byte>, b: seq<Byte>, ptr: nat, at: nat, value: nat)
    requires |a| == |b| && Holds16(a, at, value) && (at + 2 <= ptr || ptr + 2 <= at)
    requires forall k :: 0 <= k < |a| && k != ptr && k != ptr + 1 ==> b[k] == a[k]
    ensures Holds16(b, at, value)
  {
  }

  /** The first i postings stand in their places. */
  ghost predicate HoldsFirst(enc: Encoding, ps: seq<Posting>, data: seq<Byte>, i: nat) {
    |data| == 4 * |ps| && i <= |ps| && forall j :: 0 <= j < i ==> HoldsPair(enc, ps, data, j)
  }

  lemma {:induction false} HoldsNext(enc: Encoding, ps: seq<Posting>, a: seq<Byte>, b: seq<Byte>, c: seq<Byte>, i: nat)
    requires HoldsFirst(enc, ps, a, i) && i < |ps| && !enc.DeltaVarint? && |b| == |a| == |c| && 0 <= Value(enc, ps, i)
    requires forall k :: 0 <= k < |a| && k != ValueAt(enc, i) && k != ValueAt(enc, i) + 1 ==> b[k] == a[k]
    requires forall k :: 0 <= k < |a| && k != TfAt(enc, |ps|, i) && k != TfAt(enc, |ps|, i) + 1 ==> c[k] == b[k]
    requires Holds16(b, ValueAt(enc, i), Value(enc, ps, i)) && Holds16(c, TfAt(enc, |ps|, i), ps[i].tf)
    ensures HoldsFirst(enc, ps, c, i + 1)
  {
    var v, t := ValueAt(enc, i), TfAt(enc, |ps|, i);
    HoldsElsewhere(b, c, t, v, Value(enc, ps, i));
    forall j | 0 <= j < i
      ensures HoldsPair(enc, ps, c, j)
    {
      assert HoldsPair(enc, ps, a, j);
      HoldsElsewhere(a, b, v, ValueAt(enc, j), Value(enc, ps, j));
      HoldsElsewhere(b, c, t, ValueAt(enc, j), Value(enc, ps, j));
      HoldsElsewhere(a, b, v, TfAt(enc, |ps|, j), ps[j].tf);
      HoldsElsewhere(b, c, t, TfAt(enc, |ps|, j), ps[j].tf);
    }
  }

  method EncodeFixed(enc: Encoding, ps: seq<Posting>, ghost hasTfNorm: bool) returns (data: seq<Byte>)
    requires Encodable(ps, hasTfNorm) && !enc.DeltaVarint? && Narrow(enc, ps)
    ensures HoldsData(enc, ps, data)
  {
    var buffer := new Byte[4 * |ps|](_ => 0);
    var i: nat := 0;
    while i < |ps|
      invariant i <= |ps| && buffer.Length == 4 * |ps| && HoldsFirst(enc, ps, buffer[..], i)
    {
      ghost var a: seq<Byte> := buffer[..];
      NodeRecovered(enc, ps, hasTfNorm, i);
      Put16(buffer, ValueAt(enc, i), Value(enc, ps, i));
      ghost var b: seq<Byte> := buffer[..];
      Put16(buffer, TfAt(enc, |ps|, i), ps[i].tf);
      HoldsNext(enc, ps, a, b, buffer[..], i);
      i := i + 1;
    }
    data := buffer[..];
  }

  method EncodeNorms(ps: seq<Posting>, ghost hasTfNorm: bool) returns (norms: seq<Byte>)
    requires Encodable(ps, hasTfNorm)
    ensures HoldsNorms(ps, norms)
  {
    var buffer := new Byte[2 * |ps|](_ => 0);
    for i := 0 to |ps|
      invariant forall j :: 0 <= j < i ==> Holds16(buffer[..], 2 * j, ps[j].tfNorm)
    {
      ghost var a: seq<Byte> := buffer[..];
      assert FieldsFit(ps[i], hasTfNorm);
      Put16(buffer, 2 * i, ps[i].tfNorm);
      forall j | 0 <= j < i
        ensures Holds16(buffer[..], 2 * j, ps[j].tfNorm)
      {
        HoldsElsewhere(a, buffer[..], 2 * i, 2 * j, ps[j].tfNorm);
      }
    }
    norms := buffer[..];
  }

  method LargestTf(ps: seq<Posting>) returns (m: nat)
    ensures m == MaxTf(ps)
  {
    m := 0;
    for i := 0 to |ps|
      invariant m == MaxTf(ps[..i])
    {
      assert ps[..i + 1][..i] == ps[..i];
      m := if ps[i].tf > m then ps[i].tf else m;
    }
    assert ps[..|ps|] == ps;
  }

  /** Writes a chunk in the encoding its node ids admit. */
  method WritePostingsChunk(ps: seq<Posting>, hasTfNorm: bool) returns (t: PostingsTuple)
    requires Encodable(ps, hasTfNorm)
    ensures Encodes(t, ps, hasTfNorm)
  {
    var useOffset16, useDelta16 := NarrowEncodings(ps);
    var enc := if useOffset16 then (if hasTfNorm then Offset16Soa else Offset16) else if useDelta16 then Delta16 else DeltaVarint;
    var data: seq<Byte>;
    if enc.DeltaVarint? {
      var predicted;
      data, predicted := EncodeVarints(ps, hasTfNorm);
    } else {
      SameOffsets(ps);
      data := EncodeFixed(enc, ps, hasTfNorm);
    }
    var norms: seq<Byte> := [];
    if hasTfNorm {
      norms := EncodeNorms(ps, hasTfNorm);
    }
    var maxTf := LargestTf(ps);
    t := PostingsTuple(|ps|, ps[0].node, ps[|ps| - 1].node, maxTf, enc, hasTfNorm, data + norms);
    assert (data + norms)[..|data|] == data && (data + norms)[|data|..] == norms;
  }

  lemma {:induction false} SameOffsets(ps: seq<Posting>)
    ensures Narrow(Offset16Soa, ps) <==> Narrow(Offset16, ps)
  {
    assert forall i :: 0 <= i < |ps| ==> Value(Offset16Soa, ps, i) == Value(Offset16, ps, i);
  }
}
