/**
 The binary form of a multivector: big-endian 32-bit words.  Receiving accepts exactly the
 messages that sending produces, plus one harmless variant of the version word.
 */
module MultiVectorWire {
  import opened Wrappers
  import opened Varint
  import opened MultiVectors

  const VERSION_PLAIN: Word := 1
  const VERSION_CONTEXTS: Word := 2

  function PutWord(w: Word): (b: seq<Byte>)
    ensures |b| == 4
  {
    [w / 0x100 / 0x100 / 0x100, w / 0x100 / 0x100 % 0x100, w / 0x100 % 0x100, w % 0x100]
  }

  function WordOf(a: int, b: int, c: int, d: int): int {
    ((a * 0x100 + b) * 0x100 + c) * 0x100 + d
  }

  function WordAt(bytes: seq<Byte>, pos: nat): Word
    requires pos + 4 <= |bytes|
  {
    WordOf(bytes[pos], bytes[pos + 1], bytes[pos + 2], bytes[pos + 3])
  }

  lemma {:induction false} LowByte(high: int, low: Byte)
    ensures (high * 0x100 + low) / 0x100 == high && (high * 0x100 + low) % 0x100 == low
  {
  }

  lemma {:induction false} WordOfBytes(a: Byte, b: Byte, c: Byte, d: Byte)
    ensures PutWord(WordOf(a, b, c, d)) == [a, b, c, d]
  {
    LowByte(a, b);
    LowByte(a * 0x100 + b, c);
    LowByte((a * 0x100 + b) * 0x100 + c, d);
  }

  lemma {:induction false} BytesOfWord(w: Word)
    ensures var b := PutWord(w); WordOf(b[0], b[1], b[2], b[3]) == w
  {
  }

  function Pack(ws: seq<Word>): (bytes: seq<Byte>)
    ensures |bytes| == 4 * |ws|
  {
    seq(4 * |ws|, i requires 0 <= i < 4 * |ws| => PutWord(ws[i / 4])[i % 4])
  }

  function Unpack(bytes: seq<Byte>): (ws: seq<Word>)
    ensures |ws| == |bytes| / 4
  {
    seq(|bytes| / 4, i requires 0 <= i < |bytes| / 4 => WordAt(bytes, 4 * i))
  }

  lemma {:induction false} PackedByte(ws: seq<Word>, i: nat, k: nat)
    requires i < |ws| && k < 4
    ensures Pack(ws)[4 * i + k] == PutWord(ws[i])[k]
  {
    assert (4 * i + k) / 4 == i && (4 * i + k) % 4 == k;
  }

  lemma {:induction false} PackedWord(ws: seq<Word>, i: nat)
    requires i < |ws|
    ensures WordAt(Pack(ws), 4 * i) == ws[i]
  {
    PackedByte(ws, i, 0);
    PackedByte(ws, i, 1);
    PackedByte(ws, i, 2);
    PackedByte(ws, i, 3);
    BytesOfWord(ws[i]);
  }

  lemma {:induction false} UnpackPack(ws: seq<Word>)
    ensures Unpack(Pack(ws)) == ws
  {
    forall i | 0 <= i < |ws|
      ensures Unpack(Pack(ws))[i] == ws[i]
    {
      PackedWord(ws, i);
    }
  }

  lemma {:induction false} PackUnpack(bytes: seq<Byte>)
    requires |bytes| % 4 == 0
    ensures Pack(Unpack(bytes)) == bytes
  {
    forall i | 0 <= i < |bytes|
      ensures Pack(Unpack(bytes))[i] == bytes[i]
    {
      var j := 4 * (i / 4);
      WordOfBytes(bytes[j], bytes[j + 1], bytes[j + 2], bytes[j + 3]);
      assert Unpack(bytes)[i / 4] == WordAt(bytes, j);
      assert i == j + i % 4;
    }
  }

  lemma {:induction false} PackAppend(ws: seq<Word>, w: Word)
    ensures Pack(ws + [w]) == Pack(ws) + PutWord(w)
  {
    forall i | 0 <= i < 4 * |ws| + 4
      ensures Pack(ws + [w])[i] == (Pack(ws) + PutWord(w))[i]
    {
      if i < 4 * |ws| {
        assert (ws + [w])[i / 4] == ws[i / 4];
      } else {
        PackedByte(ws + [w], |ws|, i - 4 * |ws|);
      }
    }
  }

  /** An int32 as the word that carries it, and back. */
  function ToWord(x: Int32): Word {
    if x < 0 then x + 0x1_0000_0000 else x
  }

  function ToInt32(w: Word): (x: Int32)
    ensures ToWord(x) == w
  {
    if w >= 0x8000_0000 then w - 0x1_0000_0000 else w
  }

  function Words(xs: seq<Int32>): (ws: seq<Word>)
    ensures |ws| == |xs|
  {
    seq(|xs|, i requires 0 <= i < |xs| => ToWord(xs[i]))
  }

  function Int32s(ws: seq<Word>): (xs: seq<Int32>)
    ensures |xs| == |ws|
  {
    seq(|ws|, i requires 0 <= i < |ws| => ToInt32(ws[i]))
  }

  function VersionOf(flags: Word): Word {
    if HasContexts(flags) then VERSION_CONTEXTS else VERSION_PLAIN
  }

  /** The words before the metadata and the values. */
  function Head(version: Word, mv: MultiVector): seq<Word>
    requires Valid(mv)
  {
    if HasContexts(mv.flags)
    then [version, ToWord(mv.dim), ToWord(mv.count), mv.flags, ToWord(|mv.contexts|)]
    else [version, ToWord(mv.dim), ToWord(mv.count), mv.flags]
  }

  /** The words of a message under a given version. */
  function Message(version: Word, mv: MultiVector): seq<Word>
    requires Valid(mv)
  {
    Head(version, mv) + Words(mv.contexts) + Words(mv.fields) + mv.values
  }

  /** What receiving makes of the words of a message. */
  function Decoded(ws: seq<Word>): Option<MultiVector> {
    if |ws| < 4 || (ws[0] != VERSION_PLAIN && ws[0] != VERSION_CONTEXTS) then None else
    var dim, count, flags := ToInt32(ws[1]), ToInt32(ws[2]), ws[3];
    if !ValidHeader(count, dim) then None else
    if !HasContexts(flags) then Split(ws, 4, 0, 0) else
    if |ws| < 5 || ws[0] < VERSION_CONTEXTS then None else
    var c := ToInt32(ws[4]);
    if !(0 < c <= count) then None else
    Split(ws, 5, c, if HasFields(flags) then c else 0)
  }

  /** A head of h words, then c context starts, f field ids and the values. */
  function Split(ws: seq<Word>, h: nat, c: nat, f: nat): Option<MultiVector>
    requires 4 <= h <= |ws|
  {
    if |ws| < h + c + f then None else
    Checked(MultiVector(ToInt32(ws[1]), ToInt32(ws[2]), ws[3],
                        ws[h + c + f..], Int32s(ws[h..h + c]), Int32s(ws[h + c..h + c + f])))
  }

  function Checked(mv: MultiVector): Option<MultiVector> {
    if Valid(mv) then Some(mv) else None
  }

  function Received(bytes: seq<Byte>): Option<MultiVector> {
    if |bytes| % 4 == 0 then Decoded(Unpack(bytes)) else None
  }

  /** The messages that stand for mv: the one sent, and for a value without contexts the version 2 spelling. */
  ghost predicate Spells(ws: seq<Word>, mv: MultiVector)
    requires Valid(mv)
  {
    ws == Message(VersionOf(mv.flags), mv) || (!HasContexts(mv.flags) && ws == Message(VERSION_CONTEXTS, mv))
  }

  lemma {:induction false} WordsInt32s(ws: seq<Word>)
    ensures Words(Int32s(ws)) == ws
  {
    forall i | 0 <= i < |ws|
      ensures Words(Int32s(ws))[i] == ws[i]
    {
    }
  }

  lemma {:induction false} Int32sWords(xs: seq<Int32>)
    ensures Int32s(Words(xs)) == xs
  {
    forall i | 0 <= i < |xs|
      ensures Int32s(Words(xs))[i] == xs[i]
    {
    }
  }

  /** The four parts of a message are its slices, and the slices make it up. */
  lemma {:induction false} Sliced(a: seq<Word>, b: seq<Word>, c: seq<Word>, d: seq<Word>)
    ensures var ws := a + b + c + d;
            && ws[..|a|] == a
            && ws[|a|..|a| + |b|] == b
            && ws[|a| + |b|..|a| + |b| + |c|] == c
            && ws[|a| + |b| + |c|..] == d
  {
  }

  lemma {:induction false} Joined(ws: seq<Word>, i: nat, j: nat, k: nat)
    requires i <= j <= k <= |ws|
    ensures ws[..i] + ws[i..j] + ws[j..k] + ws[k..] == ws
  {
  }

  lemma {:induction false} MessageSplits(version: Word, mv: MultiVector)
    requires Valid(mv)
    ensures var ws := Message(version, mv); var h := |Head(version, mv)|;
            && h <= |ws| && ws[..h] == Head(version, mv)
            && Split(ws, h, |mv.contexts|, |mv.fields|) == Some(mv)
  {
    var h := Head(version, mv);
    var ws := Message(version, mv);
    Sliced(h, Words(mv.contexts), Words(mv.fields), mv.values);
    assert forall i :: 0 <= i < |h| ==> ws[i] == ws[..|h|][i];
    Int32sWords(mv.contexts);
    Int32sWords(mv.fields);
  }

  lemma {:induction false} SpelledDecodes(ws: seq<Word>, mv: MultiVector)
    requires Valid(mv) && Spells(ws, mv)
    ensures Decoded(ws) == Some(mv)
  {
    var version := if ws == Message(VersionOf(mv.flags), mv) then VersionOf(mv.flags) else VERSION_CONTEXTS;
    var h := Head(version, mv);
    MessageSplits(version, mv);
    assert forall i :: 0 <= i < |h| ==> ws[i] == ws[..|h|][i];
    assert ws[0] == version && ws[3] == mv.flags;
  }

  lemma {:induction false} SplitIsMessage(ws: seq<Word>, h: nat, c: nat, f: nat)
    requires 4 <= h <= |ws| && h + c + f <= |ws| && Split(ws, h, c, f).Some?
    requires ws[..h] == Head(ws[0], Split(ws, h, c, f).value)
    ensures ws == Message(ws[0], Split(ws, h, c, f).value)
  {
    WordsInt32s(ws[h..h + c]);
    WordsInt32s(ws[h + c..h + c + f]);
    Joined(ws, h, h + c, h + c + f);
  }

  lemma {:induction false} DecodedIsSpelled(ws: seq<Word>)
    requires Decoded(ws).Some?
    ensures var mv := Decoded(ws).value; Valid(mv) && Spells(ws, mv)
  {
    var mv := Decoded(ws).value;
    var h := if HasContexts(ws[3]) then 5 else 4;
    assert ws[..h] == Head(ws[0], mv);
    SplitIsMessage(ws, h, |mv.contexts|, |mv.fields|);
  }

  /** Exactly which messages are accepted, and as what: sending and receiving are inverse. */
  lemma {:induction false} ReceivedIff(bytes: seq<Byte>, mv: MultiVector)
    ensures Received(bytes) == Some(mv)
       <==> Valid(mv) && exists ws :: Spells(ws, mv) && bytes == Pack(ws)
  {
    if Received(bytes) == Some(mv) {
      DecodedIsSpelled(Unpack(bytes));
      PackUnpack(bytes);
    }
    if Valid(mv) && exists ws :: Spells(ws, mv) && bytes == Pack(ws) {
      var ws :| Spells(ws, mv) && bytes == Pack(ws);
      UnpackPack(ws);
      SpelledDecodes(ws, mv);
    }
  }

  /** Sending then receiving gives the value back. */
  lemma {:induction false} WireRoundTrip(mv: MultiVector)
    requires Valid(mv)
    ensures Received(Pack(Message(VersionOf(mv.flags), mv))) == Some(mv)
  {
    var ws := Message(VersionOf(mv.flags), mv);
    assert Spells(ws, mv);
    ReceivedIff(Pack(ws), mv);
  }

  method SendWords(buf: seq<Byte>, ghost sent: seq<Word>, ws: seq<Word>) returns (out: seq<Byte>)
    requires buf == Pack(sent)
    ensures out == Pack(sent + ws)
  {
    out := buf;
    assert sent + ws[..0] == sent;
    for i := 0 to |ws|
      invariant out == Pack(sent + ws[..i])
    {
      PackAppend(sent + ws[..i], ws[i]);
      assert sent + ws[..i + 1] == sent + ws[..i] + [ws[i]];
      out := out + PutWord(ws[i]);
    }
    assert ws[..|ws|] == ws;
  }

  method Send(mv: MultiVector) returns (bytes: seq<Byte>)
    requires Valid(mv)
    ensures bytes == Pack(Message(VersionOf(mv.flags), mv))
  {
    var words := [VersionOf(mv.flags), ToWord(mv.dim), ToWord(mv.count), mv.flags];
    if HasContexts(mv.flags) {
      words := words + [ToWord(|mv.contexts|)];
    }
    ghost var head := Head(VersionOf(mv.flags), mv);
    assert [] + words == head;
    bytes := SendWords([], [], words);
    bytes := SendWords(bytes, head, Words(mv.contexts));
    bytes := SendWords(bytes, head + Words(mv.contexts), Words(mv.fields));
    bytes := SendWords(bytes, head + Words(mv.contexts) + Words(mv.fields), mv.values);
  }

  method GetWord(bytes: seq<Byte>, at: nat) returns (r: Option<Word>)
    requires at <= |bytes| / 4
    ensures r == if at < |bytes| / 4 then Some(Unpack(bytes)[at]) else None
  {
    if |bytes| < 4 * at + 4 {
      return None;
    }
    r := Some(WordAt(bytes, 4 * at));
  }

  /** Reads n words from word position at, or fails when the message is too short. */
  method GetWords(bytes: seq<Byte>, at: nat, n: nat) returns (r: Option<seq<Word>>)
    requires at <= |bytes| / 4
    ensures r.Some? <==> at + n <= |bytes| / 4
    ensures r.Some? ==> r.value == Unpack(bytes)[at..at + n]
  {
    ghost var all := Unpack(bytes);
    var ws := [];
    for i := 0 to n
      invariant at + i <= |all| && ws == all[at..at + i]
    {
      var w :- GetWord(bytes, at + i);
      ws := ws + [w];
    }
    r := Some(ws);
  }

  lemma {:induction false} SplitNeedsValues(ws: seq<Word>, h: nat, c: nat, f: nat, n: nat)
    requires 4 <= h <= |ws| && ValidHeader(ToInt32(ws[2]), ToInt32(ws[1])) && n == ValueCount(ToInt32(ws[2]), ToInt32(ws[1])) && |ws| != h + c + f + n
    ensures Split(ws, h, c, f) == None
  {
  }

  lemma {:induction false} SplitReads(ws: seq<Word>, h: nat, c: nat, f: nat, mv: MultiVector)
    requires 4 <= h && h + c + f <= |ws|
    requires mv == MultiVector(ToInt32(ws[1]), ToInt32(ws[2]), ws[3], ws[h + c + f..|ws|],
                               Int32s(ws[h..h + c]), Int32s(ws[h + c..h + c + f]))
    ensures Split(ws, h, c, f) == Checked(mv)
  {
    assert ws[h + c + f..|ws|] == ws[h + c + f..];
  }

  /** After a head of h words: the metadata, n values, the end of the message and the final check. */
  method ReceiveBody(bytes: seq<Byte>, dim: Int32, count: Int32, flags: Word, h: nat, c: nat, f: nat,
                     n: nat) returns (r: Option<MultiVector>)
    requires ValidHeader(count, dim) && 4 <= h <= |bytes| / 4 && n == ValueCount(count, dim)
    requires var ws := Unpack(bytes); ToInt32(ws[1]) == dim && ToInt32(ws[2]) == count && ws[3] == flags
    ensures r == if |bytes| % 4 == 0 then Split(Unpack(bytes), h, c, f) else None
  {
    ghost var ws := Unpack(bytes);
    if |ws| != h + c + f + n {
      SplitNeedsValues(ws, h, c, f, n);
    }
    var contexts :- GetWords(bytes, h, c);
    var fields :- GetWords(bytes, h + c, f);
    var values :- GetWords(bytes, h + c + f, n);
    if |bytes| != 4 * (h + c + f + n) {
      return None;
    }
    assert |bytes| % 4 == 0 && |ws| == h + c + f + n;
    var mv := MultiVector(dim, count, flags, values, Int32s(contexts), Int32s(fields));
    SplitReads(ws, h, c, f, mv);
    var ok := CheckMultiVector(mv);
    r := if ok then Some(mv) else None;
  }

  method Receive(bytes: seq<Byte>) returns (r: Option<MultiVector>)
    ensures r == Received(bytes)
  {
    var version :- GetWord(bytes, 0);
    if version != VERSION_PLAIN && version != VERSION_CONTEXTS {
      return None;
    }
    var shape :- GetWords(bytes, 1, 3);
    var dim, count, flags := ToInt32(shape[0]), ToInt32(shape[1]), shape[2];
    if !ValidHeader(count, dim) {
      return None;
    }
    var n := ValueCount(count, dim);
    if !HasContexts(flags) {
      r := ReceiveBody(bytes, dim, count, flags, 4, 0, 0, n);
      return;
    }
    var counted :- GetWord(bytes, 4);
    var c := ToInt32(counted);
    if version < VERSION_CONTEXTS || c <= 0 || c > count {
      return None;
    }
    r := ReceiveBody(bytes, dim, count, flags, 5, c, if HasFields(flags) then c else 0, n);
  }
}
