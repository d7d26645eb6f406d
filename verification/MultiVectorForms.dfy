/** What a multivector looks like: the printed text piece by piece, and the sent bytes place by place. */
module MultiVectorForms {
  import opened Varint
  import opened MultiVectors
  import opened MultiVectorText
  import Wire = MultiVectorWire

  // ----- text

  /** The pieces with commas between them. */
  function Joined(pieces: seq<string>): string {
    if pieces == [] then "" else if |pieces| == 1 then pieces[0] else pieces[0] + "," + Joined(pieces[1..])
  }

  function Bracketed(s: string): string { "[" + s + "]" }

  /** The number that decimal digits make, the last one the ones. */
  function Decimal(s: string): int {
    if s == [] then 0 else 10 * Decimal(s[..|s| - 1]) + (s[|s| - 1] as int - '0' as int)
  }

  lemma {:induction false} DigitsAre(n: nat)
    ensures Decimal(Digits(n)) == n && (forall i :: 0 <= i < |Digits(n)| ==> '0' <= Digits(n)[i] <= '9')
    ensures |Digits(n)| > 1 ==> Digits(n)[0] != '0'
  {
    if n < 10 {
      assert Digits(n)[..0] == [];
    } else {
      DigitsAre(n / 10);
      var high, all := Digits(n / 10), Digits(n);
      assert all == high + [Digit(n % 10)] && all[..|all| - 1] == high;
      if |high| == 1 {
        assert Decimal(high) == 10 * Decimal(high[..0]) + (high[0] as int - '0' as int) && high[..0] == [];
      }
    }
  }

  /** A decimal number without superfluous zeros, after a minus where it is negative. */
  ghost predicate IsDecimal(s: string, x: int) {
    if x < 0 then s != [] && s[0] == '-' && IsNatural(s[1..], -x) else IsNatural(s, x)
  }

  ghost predicate IsNatural(s: string, n: int) {
    s != [] && (forall i :: 0 <= i < |s| ==> '0' <= s[i] <= '9') && Decimal(s) == n && (|s| > 1 ==> s[0] != '0')
  }

  lemma {:induction false} PrintedInt(x: Int32)
    ensures IsDecimal(PrintInt(x), x)
  {
    var n: nat := if x < 0 then 0 - (x as int) else x;
    DigitsAre(n);
    assert (['-'] + Digits(n))[1..] == Digits(n);
  }

  function Floats(ft: FloatText, vs: seq<Word>): (r: seq<string>)
    ensures |r| == |vs|
  {
    seq(|vs|, i requires 0 <= i < |vs| => ft.format(vs[i]))
  }

  function Ints(xs: seq<Int32>): (r: seq<string>)
    ensures |r| == |xs|
  {
    seq(|xs|, i requires 0 <= i < |xs| => PrintInt(xs[i]))
  }

  /** The rows of dim floats each, in brackets. */
  function Rows(ft: FloatText, vs: seq<Word>, dim: nat, n: nat): (r: seq<string>)
    requires |vs| == n * dim
    ensures |r| == n
  {
    if n == 0 then []
    else
      Whole(n, dim);
      [Bracketed(Joined(Floats(ft, vs[..dim])))] + Rows(ft, vs[dim..], dim, n - 1)
  }

  lemma {:induction false} Whole(n: nat, dim: nat)
    requires n > 0
    ensures n * dim - dim == (n - 1) * dim >= 0
  {
  }

  lemma {:induction false} RowPrints(ft: FloatText, vs: seq<Word>, next: Tokens)
    ensures Text(RowTokens(ft, vs, next)) == Joined(Floats(ft, vs)) + Text(next)
  {
    var fs := Floats(ft, vs);
    if |vs| > 1 {
      RowPrints(ft, vs[1..], next);
      assert fs[1..] == Floats(ft, vs[1..]);
      var rest := Text(RowTokens(ft, vs[1..], next));
      assert Text(RowTokens(ft, vs, next)) == fs[0] + ("," + rest);
    }
  }

  lemma {:induction false} IntsPrint(xs: seq<Int32>, next: Tokens)
    ensures Text(IntsTokens(xs, next)) == Joined(Ints(xs)) + Text(next)
  {
    var ps := Ints(xs);
    if |xs| > 1 {
      IntsPrint(xs[1..], next);
      assert ps[1..] == Ints(xs[1..]);
      assert Text(IntsTokens(xs, next)) == ps[0] + ("," + Text(IntsTokens(xs[1..], next)));
    }
  }

  lemma {:induction false} Regrouped(a: string, b: string, c: string)
    ensures (a + b) + c == a + (b + c)
  {
  }

  lemma {:induction false} TokenPrints(text: string, next: Tokens)
    ensures Text(Token(text, next)) == text + Text(next)
  {
  }

  /** Opening bracket, what is in between, closing bracket, and the rest. */
  function InBrackets(s: string, rest: string): string { "[" + (s + ("]" + rest)) }

  lemma {:induction false} BracketsRegroup(s: string, rest: string)
    ensures InBrackets(s, rest) == Bracketed(s) + rest
  {
    Regrouped(s, "]", rest);
    Regrouped("[", s + "]", rest);
    Regrouped("[", s, "]");
  }

  lemma {:induction false} OneRowPrints(ft: FloatText, vs: seq<Word>, next: Tokens)
    ensures Text(Token("[", RowTokens(ft, vs, Token("]", next)))) == Bracketed(Joined(Floats(ft, vs))) + Text(next)
  {
    RowPrints(ft, vs, Token("]", next));
    TokenPrints("]", next);
    TokenPrints("[", RowTokens(ft, vs, Token("]", next)));
    BracketsRegroup(Joined(Floats(ft, vs)), Text(next));
  }

  lemma {:induction false} RowsPrint(ft: FloatText, vs: seq<Word>, dim: nat, n: nat, next: Tokens)
    requires dim > 0 && n > 0 && |vs| == n * dim
    ensures Text(RowsTokens(ft, vs, dim, next)) == Joined(Rows(ft, vs, dim, n)) + Text(next)
    decreases n
  {
    Whole(n, dim);
    if n == 1 {
      OneRowPrints(ft, vs, next);
      assert vs[..dim] == vs && Rows(ft, vs, dim, 1) == [Bracketed(Joined(Floats(ft, vs)))];
    } else {
      Whole(n - 1, dim);
      var tail := RowsTokens(ft, vs[dim..], dim, next);
      OneRowPrints(ft, vs[..dim], Token(",", tail));
      RowsPrint(ft, vs[dim..], dim, n - 1, next);
      TokenPrints(",", tail);
      var row, rest := Bracketed(Joined(Floats(ft, vs[..dim]))), Rows(ft, vs[dim..], dim, n - 1);
      RowsRegroup(row, rest, Text(next));
      assert Rows(ft, vs, dim, n) == [row] + rest;
    }
  }

  lemma {:induction false} RowsRegroup(row: string, rest: seq<string>, after: string)
    requires rest != []
    ensures row + ("," + (Joined(rest) + after)) == Joined([row] + rest) + after
  {
    assert ([row] + rest)[1..] == rest;
    Regrouped(",", Joined(rest), after);
    Regrouped(row, "," + Joined(rest), after);
    Regrouped(row, ",", Joined(rest));
  }

  /** A comma, the name, and the numbers in brackets. */
  function ListText(name: string, xs: seq<Int32>, rest: string): string {
    "," + (name + ("=" + InBrackets(Joined(Ints(xs)), rest)))
  }

  lemma {:induction false} ListPrints(name: string, xs: seq<Int32>, next: Tokens)
    ensures Text(ListTokens(name, xs, next)) == ListText(name, xs, Text(next))
  {
    var inner := IntsTokens(xs, Token("]", next));
    IntsPrint(xs, Token("]", next));
    TokenPrints("]", next);
    TokenPrints("[", inner);
    TokenPrints("=", Token("[", inner));
    TokenPrints(name, Token("=", Token("[", inner)));
    TokenPrints(",", Token(name, Token("=", Token("[", inner))));
  }

  /** Contexts and fields where there are any, and the closing parenthesis. */
  function MetadataText(mv: MultiVector): string {
    var fields := if HasFields(mv.flags) then ListText("fields", mv.fields, ")") else ")";
    if HasContexts(mv.flags) then ListText("contexts", mv.contexts, fields) else ")"
  }

  lemma {:induction false} MetadataPrints(mv: MultiVector)
    requires Valid(mv)
    ensures Text(MetadataTokens(mv)) == MetadataText(mv)
  {
    var close := Token(")", End);
    TokenPrints(")", End);
    assert ")" + "" == ")";
    if HasFields(mv.flags) {
      ListPrints("fields", mv.fields, close);
    }
    if HasContexts(mv.flags) {
      ListPrints("contexts", mv.contexts, FieldTokens(mv));
    }
  }

  function NumberText(name: string, x: Int32, rest: string): string { name + ("=" + (PrintInt(x) + rest)) }

  lemma {:induction false} NumberPrints(name: string, x: Int32, next: Tokens)
    ensures Text(NumberTokens(name, x, next)) == NumberText(name, x, Text(next))
  {
    TokenPrints(PrintInt(x), next);
    TokenPrints("=", Token(PrintInt(x), next));
    TokenPrints(name, Token("=", Token(PrintInt(x), next)));
  }

  /** The rows, each in brackets, in brackets. */
  function ValuesText(ft: FloatText, mv: MultiVector): string
    requires |mv.values| == mv.count * mv.dim && mv.count >= 0 && mv.dim >= 0
  {
    "," + ("values" + ("=" + InBrackets(Joined(Rows(ft, mv.values, mv.dim, mv.count)), MetadataText(mv))))
  }

  lemma {:induction false} ValuesPrint(ft: FloatText, mv: MultiVector)
    requires Valid(mv)
    ensures |mv.values| == mv.count * mv.dim && Text(ValuesTokens(ft, mv)) == ValuesText(ft, mv)
  {
    var close := Token("]", MetadataTokens(mv));
    var rows := RowsTokens(ft, mv.values, mv.dim, close);
    MetadataPrints(mv);
    RowsPrint(ft, mv.values, mv.dim, mv.count, close);
    TokenPrints("]", MetadataTokens(mv));
    TokenPrints("[", rows);
    TokenPrints("=", Token("[", rows));
    TokenPrints("values", Token("=", Token("[", rows)));
    TokenPrints(",", Token("values", Token("=", Token("[", rows))));
  }

  /** The printed text: name, dimension, count, the rows in brackets, and the metadata. */
  lemma {:induction false} PrintedText(ft: FloatText, mv: MultiVector)
    requires Valid(mv)
    ensures |mv.values| == mv.count * mv.dim
    ensures Text(TokensOf(ft, mv)) ==
            "turbohybrid_multivector" + ("(" + NumberText("dim", mv.dim, "," + NumberText("count", mv.count, ValuesText(ft, mv))))
  {
    ValuesPrint(ft, mv);
    var counts := NumberTokens("count", mv.count, ValuesTokens(ft, mv));
    var dims := NumberTokens("dim", mv.dim, Token(",", counts));
    NumberPrints("count", mv.count, ValuesTokens(ft, mv));
    TokenPrints(",", counts);
    NumberPrints("dim", mv.dim, Token(",", counts));
    TokenPrints("(", dims);
    TokenPrints(NAME, Token("(", dims));
  }

  // ----- bytes

  /** The 32 bits at a place, the high byte first. */
  ghost predicate Word32(bytes: seq<Byte>, at: nat, w: int) {
    at + 4 <= |bytes|
    && bytes[at] as int * 0x100_0000 + bytes[at + 1] as int * 0x1_0000 + bytes[at + 2] as int * 0x100 + bytes[at + 3] as int == w
  }

  /** The bytes hold the words in order. */
  ghost predicate Holds(bytes: seq<Byte>, ws: seq<Word>) {
    |bytes| == 4 * |ws| && forall i :: 0 <= i < |ws| ==> WordIs(bytes, i, ws[i])
  }

  ghost predicate WordIs(bytes: seq<Byte>, i: int, w: int) { i >= 0 && Word32(bytes, 4 * i, w) }

  /** A signed number in two's complement. */
  ghost predicate IntIs(bytes: seq<Byte>, i: int, x: int) { WordIs(bytes, i, if x < 0 then x + 0x1_0000_0000 else x) }

  lemma {:induction false} PackHolds(ws: seq<Word>)
    ensures Holds(Wire.Pack(ws), ws)
  {
    forall i | 0 <= i < |ws|
      ensures WordIs(Wire.Pack(ws), i, ws[i])
    {
      Wire.PackedWord(ws, i);
    }
  }

  /** Version, dimension, count and flags; with contexts their number, starts and fields; the values at the end. */
  ghost predicate SentAs(bytes: seq<Byte>, mv: MultiVector) {
    var h := if HasContexts(mv.flags) then 5 else 4;
    var c, f := |mv.contexts|, |mv.fields|;
    && |bytes| == 4 * (h + c + f + |mv.values|)
    && WordIs(bytes, 0, if HasContexts(mv.flags) then 2 else 1) && IntIs(bytes, 1, mv.dim) && IntIs(bytes, 2, mv.count)
    && WordIs(bytes, 3, mv.flags) && (HasContexts(mv.flags) ==> WordIs(bytes, 4, c))
    && (forall i :: 0 <= i < c ==> IntIs(bytes, h + i, mv.contexts[i]))
    && (forall i :: 0 <= i < f ==> IntIs(bytes, h + c + i, mv.fields[i]))
    && forall i :: 0 <= i < |mv.values| ==> WordIs(bytes, h + c + f + i, mv.values[i])
  }

  lemma {:induction false} HeldInts(bytes: seq<Byte>, ws: seq<Word>, before: seq<Word>, xs: seq<Int32>,
                                    after: seq<Word>)
    requires Holds(bytes, ws) && ws == before + Wire.Words(xs) + after
    ensures forall i :: 0 <= i < |xs| ==> IntIs(bytes, |before| + i, xs[i])
  {
    forall i | 0 <= i < |xs|
      ensures IntIs(bytes, |before| + i, xs[i])
    {
      assert ws[|before| + i] == Wire.Words(xs)[i];
    }
  }

  lemma {:induction false} HeldWords(bytes: seq<Byte>, ws: seq<Word>, before: seq<Word>, vs: seq<Word>)
    requires Holds(bytes, ws) && ws == before + vs
    ensures forall i :: 0 <= i < |vs| ==> WordIs(bytes, |before| + i, vs[i])
  {
    forall i | 0 <= i < |vs|
      ensures WordIs(bytes, |before| + i, vs[i])
    {
      assert ws[|before| + i] == vs[i];
    }
  }

  lemma {:induction false} HeldHead(bytes: seq<Byte>, mv: MultiVector, head: seq<Word>, rest: seq<Word>)
    requires Valid(mv) && head == Wire.Head(Wire.VersionOf(mv.flags), mv) && Holds(bytes, head + rest)
    ensures WordIs(bytes, 0, if HasContexts(mv.flags) then 2 else 1) && IntIs(bytes, 1, mv.dim) && IntIs(bytes, 2, mv.count)
    ensures WordIs(bytes, 3, mv.flags) && (HasContexts(mv.flags) ==> WordIs(bytes, 4, |mv.contexts|))
  {
    var ws := head + rest;
    assert WordIs(bytes, 0, ws[0]) && WordIs(bytes, 1, ws[1]) && WordIs(bytes, 2, ws[2]) && WordIs(bytes, 3, ws[3]);
    assert HasContexts(mv.flags) ==> WordIs(bytes, 4, ws[4]);
  }

  lemma {:induction false} HeldMessage(bytes: seq<Byte>, mv: MultiVector, ws: seq<Word>)
    requires Valid(mv) && ws == Wire.Message(Wire.VersionOf(mv.flags), mv) && Holds(bytes, ws)
    ensures SentAs(bytes, mv)
  {
    var head := Wire.Head(Wire.VersionOf(mv.flags), mv);
    var cs, fs := Wire.Words(mv.contexts), Wire.Words(mv.fields);
    assert ws == head + (cs + fs + mv.values) == head + cs + (fs + mv.values) == (head + cs) + fs + mv.values == (head + cs + fs) + mv.values;
    HeldHead(bytes, mv, head, cs + fs + mv.values);
    HeldInts(bytes, ws, head, mv.contexts, fs + mv.values);
    HeldInts(bytes, ws, head + cs, mv.fields, mv.values);
    HeldWords(bytes, ws, head + cs + fs, mv.values);
  }

  /** The bytes that are sent for a value. */
  lemma {:induction false} SentBytes(mv: MultiVector)
    requires Valid(mv)
    ensures SentAs(Wire.Pack(Wire.Message(Wire.VersionOf(mv.flags), mv)), mv)
  {
    var ws := Wire.Message(Wire.VersionOf(mv.flags), mv);
    PackHolds(ws);
    HeldMessage(Wire.Pack(ws), mv, ws);
  }
}
