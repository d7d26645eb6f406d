/**
 The text form of a multivector.  Printing lists tokens; parsing skips white space before each
 token, so every spacing of the printed tokens is read back as the same value.
 */
module MultiVectorText {
  import opened Wrappers
  import opened MultiVectors

  const NAME: string := "turbohybrid_multivector"

  predicate IsSpace(c: char) {
    c == ' ' || '\t' <= c <= '\r'
  }

  predicate IsDigit(c: char) {
    '0' <= c <= '9'
  }

  /** What is read at a place, and the text after it. */
  datatype Read<+T> = Read(value: T, rest: string)

  /** A float scanned from the front of a text, and how many characters it took. */
  datatype Scanned = Scanned(bits: Word, length: nat)

  /** The C library's nine-digit printing of floats, and its scanner; None when nothing finite is found. */
  datatype FloatText = FloatText(format: Word -> string, scan: string -> Option<Scanned>)

  /** Where a printed float may end. */
  predicate EndsFloat(rest: string) {
    rest != [] && (IsSpace(rest[0]) || rest[0] == ',' || rest[0] == ']')
  }

  /** Nine digits identify a float: scanning a printed float gives it back, up to the next separator. */
  ghost predicate Lawful(ft: FloatText) {
    && (forall x: Word :: Finite(x) ==> ft.format(x) != [] && !IsSpace(ft.format(x)[0]))
    && (forall x: Word, rest: string :: Finite(x) && EndsFloat(rest) ==>
      ft.scan(ft.format(x) + rest) == Some(Scanned(x, |ft.format(x)|)))
  }

  // Reading, on the text from the cursor on.

  function Skip(s: string): (r: string)
    ensures |r| <= |s| && (r == [] || !IsSpace(r[0]))
  {
    if s != [] && IsSpace(s[0]) then Skip(s[1..]) else s
  }

  function Literal(s: string, literal: string): Option<string> {
    var t := Skip(s);
    if literal <= t then Some(t[|literal|..]) else None
  }

  predicate StartsWith(s: string, c: char) {
    s != [] && s[0] == c
  }

  function Char(s: string, c: char): Option<string> {
    var t := Skip(s);
    if StartsWith(t, c) then Some(t[1..]) else None
  }

  function DigitsFrom(s: string, value: nat): (r: Read<nat>)
    ensures |r.rest| <= |s|
  {
    if s != [] && IsDigit(s[0]) then DigitsFrom(s[1..], value * 10 + (s[0] - '0') as nat) else Read(value, s)
  }

  /** strtol in base ten: an optional sign and at least one digit. */
  function LongFrom(s: string): (r: Option<Read<int>>)
    ensures r.Some? ==> |r.value.rest| < |s|
  {
    var digits := if StartsWith(s, '-') || StartsWith(s, '+') then s[1..] else s;
    if digits == [] || !IsDigit(digits[0]) then None else
    var n := DigitsFrom(digits[1..], (digits[0] - '0') as nat);
    var value: int := n.value;
    Some(Read(if StartsWith(s, '-') then 0 - value else value, n.rest))
  }

  function ReadInt(s: string): (r: Option<Read<Int32>>)
    ensures r.Some? ==> |r.value.rest| < |s|
  {
    var n :- LongFrom(Skip(s));
    if -0x8000_0000 <= n.value < 0x8000_0000 then Some(Read(n.value, n.rest)) else None
  }

  function ReadFloat(ft: FloatText, s: string): Option<Read<Word>> {
    var t := Skip(s);
    var x :- ft.scan(t);
    if 0 < x.length <= |t| && Finite(x.bits) then Some(Read(x.bits, t[x.length..])) else None
  }

  function Separator(s: string, more: bool): Option<string> {
    if more then Char(s, ',') else Some(s)
  }

  function ReadRow(ft: FloatText, s: string, n: nat, done: seq<Word>): Option<Read<seq<Word>>>
    decreases n
  {
    if n == 0 then Some(Read(done, s)) else
    var x :- ReadFloat(ft, s);
    var rest :- Separator(x.rest, n > 1);
    ReadRow(ft, rest, n - 1, done + [x.value])
  }

  function ReadRows(ft: FloatText, s: string, n: nat, dim: nat, done: seq<Word>): Option<Read<seq<Word>>>
    decreases n
  {
    if n == 0 then Some(Read(done, s)) else
    var inside :- Char(s, '[');
    var row :- ReadRow(ft, inside, dim, done);
    var outside :- Char(row.rest, ']');
    var rest :- Separator(outside, n > 1);
    ReadRows(ft, rest, n - 1, dim, row.value)
  }

  function ReadInts(s: string, done: seq<Int32>): Option<Read<seq<Int32>>>
    decreases |s|
  {
    var n :- ReadInt(s);
    var t := Skip(n.rest);
    if StartsWith(t, ',') then ReadInts(t[1..], done + [n.value]) else Some(Read(done + [n.value], t))
  }

  function ReadNumber(s: string, name: string): Option<Read<Int32>> {
    var named :- Literal(s, name);
    var value :- Char(named, '=');
    ReadInt(value)
  }

  function ReadList(s: string, name: string): Option<Read<seq<Int32>>> {
    var named :- Literal(s, name);
    var bracket :- Char(named, '=');
    var items :- Char(bracket, '[');
    var xs :- ReadInts(items, []);
    var rest :- Char(xs.rest, ']');
    Some(Read(xs.value, rest))
  }

  /** The fields, absent when no comma follows the contexts. */
  function ReadFields(s: string, mv: MultiVector): Option<Read<MultiVector>> {
    var t := Skip(s);
    if !StartsWith(t, ',') then Some(Read(mv, t)) else
    var fields :- ReadList(t[1..], "fields");
    if |fields.value| == |mv.contexts| then Some(Read(mv.(flags := 3, fields := fields.value), fields.rest)) else None
  }

  /** The contexts and fields, absent when no comma follows the values. */
  function ReadMetadata(s: string, plain: MultiVector): Option<Read<MultiVector>> {
    var t := Skip(s);
    if !StartsWith(t, ',') then Some(Read(plain, t)) else
    var contexts :- ReadList(t[1..], "contexts");
    ReadFields(contexts.rest, plain.(flags := 1, contexts := contexts.value))
  }

  function ReadValues(ft: FloatText, s: string, count: Int32, dim: Int32): Option<Read<seq<Word>>> {
    if !ValidHeader(count, dim) then None else
    var comma :- Char(s, ',');
    var named :- Literal(comma, "values");
    var bracket :- Char(named, '=');
    var inside :- Char(bracket, '[');
    var values :- ReadRows(ft, inside, count, dim, []);
    var rest :- Char(values.rest, ']');
    Some(Read(values.value, rest))
  }

  datatype Header = Header(dim: Int32, count: Int32)

  function ReadHeader(s: string): Option<Read<Header>> {
    var named :- Literal(s, NAME);
    var inside :- Char(named, '(');
    var dim :- ReadNumber(inside, "dim");
    var comma :- Char(dim.rest, ',');
    var count :- ReadNumber(comma, "count");
    Some(Read(Header(dim.value, count.value), count.rest))
  }

  function Parsed(ft: FloatText, s: string): (r: Option<MultiVector>)
    ensures r.Some? ==> Valid(r.value)
  {
    var h :- ReadHeader(s);
    var values :- ReadValues(ft, h.rest, h.value.count, h.value.dim);
    var mv :- ReadMetadata(values.rest, MultiVector(h.value.dim, h.value.count, 0, values.value, [], []));
    var end :- Char(mv.rest, ')');
    if Skip(end) == [] && Valid(mv.value) then Some(mv.value) else None
  }

  // Printing, as a list of tokens.

  datatype Tokens = End | Token(text: string, next: Tokens)

  function Digit(d: nat): char
    requires d < 10
  {
    '0' + d as char
  }

  function Digits(n: nat): (s: string)
    ensures s != [] && IsDigit(s[0])
  {
    if n < 10 then [Digit(n)] else Digits(n / 10) + [Digit(n % 10)]
  }

  function PrintInt(x: Int32): string {
    if x < 0 then ['-'] + Digits(0 - (x as int)) else Digits(x)
  }

  function RowTokens(ft: FloatText, vs: seq<Word>, next: Tokens): Tokens {
    if vs == [] then next else
    if |vs| == 1 then Token(ft.format(vs[0]), next) else
    Token(ft.format(vs[0]), Token(",", RowTokens(ft, vs[1..], next)))
  }

  function RowsTokens(ft: FloatText, vs: seq<Word>, dim: nat, next: Tokens): Tokens
    requires dim > 0
  {
    if |vs| <= dim then Token("[", RowTokens(ft, vs, Token("]", next))) else
    Token("[", RowTokens(ft, vs[..dim], Token("]", Token(",", RowsTokens(ft, vs[dim..], dim, next)))))
  }

  function IntsTokens(xs: seq<Int32>, next: Tokens): Tokens {
    if xs == [] then next else
    if |xs| == 1 then Token(PrintInt(xs[0]), next) else
    Token(PrintInt(xs[0]), Token(",", IntsTokens(xs[1..], next)))
  }

  function ListTokens(name: string, xs: seq<Int32>, next: Tokens): Tokens {
    Token(",", Token(name, Token("=", Token("[", IntsTokens(xs, Token("]", next))))))
  }

  function NumberTokens(name: string, x: Int32, next: Tokens): Tokens {
    Token(name, Token("=", Token(PrintInt(x), next)))
  }

  function FieldTokens(mv: MultiVector): Tokens {
    if HasFields(mv.flags) then ListTokens("fields", mv.fields, Token(")", End)) else Token(")", End)
  }

  function MetadataTokens(mv: MultiVector): Tokens {
    if HasContexts(mv.flags) then ListTokens("contexts", mv.contexts, FieldTokens(mv)) else Token(")", End)
  }

  function ValuesTokens(ft: FloatText, mv: MultiVector): Tokens
    requires Valid(mv)
  {
    Token(",", Token("values", Token("=", Token("[",
      RowsTokens(ft, mv.values, mv.dim, Token("]", MetadataTokens(mv)))))))
  }

  function TokensOf(ft: FloatText, mv: MultiVector): Tokens
    requires Valid(mv)
  {
    Token(NAME, Token("(", NumberTokens("dim", mv.dim, Token(",",
      NumberTokens("count", mv.count, ValuesTokens(ft, mv))))))
  }

  /** The printed text: the tokens with nothing between them. */
  function Text(ts: Tokens): string {
    if ts.End? then [] else ts.text + Text(ts.next)
  }

  /** The tokens with the given text before each of them and at the end. */
  function Spaced(ts: Tokens, gap: Tokens -> string): string {
    if ts.End? then gap(ts) else gap(ts) + (ts.text + Spaced(ts.next, gap))
  }

  ghost predicate AllSpace(s: string) {
    forall i :: 0 <= i < |s| ==> IsSpace(s[i])
  }

  ghost predicate IsGap(gap: Tokens -> string) {
    forall ts :: AllSpace(gap(ts))
  }

  // Every spacing of a token list reads back.

  lemma {:induction false} SkipGap(g: string, s: string)
    requires AllSpace(g) && (s == [] || !IsSpace(s[0]))
    ensures Skip(g + s) == s
  {
    if g == [] {
      assert g + s == s;
    } else {
      assert (g + s)[1..] == g[1..] + s;
      SkipGap(g[1..], s);
    }
  }

  /** A token that skipping does not touch. */
  predicate Solid(ts: Tokens) {
    ts.Token? && ts.text != [] && !IsSpace(ts.text[0])
  }

  lemma {:induction false} SkipToToken(ts: Tokens, gap: Tokens -> string)
    requires Solid(ts) && IsGap(gap)
    ensures Skip(Spaced(ts, gap)) == ts.text + Spaced(ts.next, gap)
  {
    SkipGap(gap(ts), ts.text + Spaced(ts.next, gap));
  }

  lemma {:induction false} SpacedStarts(ts: Tokens, gap: Tokens -> string)
    requires Solid(ts) && IsGap(gap)
    ensures var s := Spaced(ts, gap); s != [] && (IsSpace(s[0]) || s[0] == ts.text[0])
  {
    if gap(ts) != [] {
      assert Spaced(ts, gap)[0] == gap(ts)[0];
    } else {
      assert Spaced(ts, gap) == ts.text + Spaced(ts.next, gap);
    }
  }

  lemma {:induction false} CharReads(ts: Tokens, gap: Tokens -> string, c: char)
    requires ts.Token? && IsGap(gap) && ts.text == [c] && !IsSpace(c)
    ensures StartsWith(Skip(Spaced(ts, gap)), c)
    ensures Skip(Spaced(ts, gap))[1..] == Spaced(ts.next, gap)
    ensures Char(Spaced(ts, gap), c) == Some(Spaced(ts.next, gap))
    ensures forall d :: d != c ==> !StartsWith(Skip(Spaced(ts, gap)), d)
  {
    SkipToToken(ts, gap);
    assert ([c] + Spaced(ts.next, gap))[1..] == Spaced(ts.next, gap);
  }

  lemma {:induction false} LiteralReads(ts: Tokens, gap: Tokens -> string, literal: string)
    requires Solid(ts) && IsGap(gap) && ts.text == literal
    ensures Literal(Spaced(ts, gap), literal) == Some(Spaced(ts.next, gap))
  {
    SkipToToken(ts, gap);
    var s := Spaced(ts.next, gap);
    assert (literal + s)[|literal|..] == s;
  }

  lemma {:induction false} OneDigitReads(high: nat, low: nat, rest: string)
    requires low < 10
    ensures DigitsFrom([Digit(low)] + rest, high) == DigitsFrom(rest, high * 10 + low)
  {
    assert ([Digit(low)] + rest)[1..] == rest;
  }

  lemma {:induction false} DigitsReadOn(n: nat, rest: string)
    ensures DigitsFrom(Digits(n) + rest, 0) == DigitsFrom(rest, n)
  {
    var d := [Digit(n % 10)] + rest;
    OneDigitReads(n / 10, n % 10, rest);
    if n >= 10 {
      assert Digits(n) + rest == Digits(n / 10) + d;
      DigitsReadOn(n / 10, d);
    }
  }

  lemma {:induction false} NatReads(n: nat, rest: string)
    requires rest == [] || !IsDigit(rest[0])
    ensures var s := Digits(n) + rest; IsDigit(s[0]) && DigitsFrom(s[1..], (s[0] - '0') as nat) == Read(n, rest)
  {
    DigitsReadOn(n, rest);
  }

  lemma {:induction false} SignedReads(digits: string, n: nat, rest: string)
    requires digits != [] && IsDigit(digits[0]) && DigitsFrom(digits[1..], (digits[0] - '0') as nat) == Read(n, rest)
    ensures LongFrom(digits) == Some(Read(n, rest))
    ensures LongFrom(['-'] + digits) == Some(Read(0 - (n as int), rest))
  {
    assert (['-'] + digits)[1..] == digits;
  }

  lemma {:induction false} LongReads(x: Int32, rest: string)
    requires rest == [] || !IsDigit(rest[0])
    ensures LongFrom(PrintInt(x) + rest) == Some(Read(x, rest))
  {
    var n: nat := if x < 0 then 0 - (x as int) else x;
    NatReads(n, rest);
    SignedReads(Digits(n) + rest, n, rest);
    assert ['-'] + (Digits(n) + rest) == ['-'] + Digits(n) + rest;
  }

  /** A printed integer starts like no separator and no space. */
  lemma {:induction false} PrintedIsSolid(x: Int32)
    ensures PrintInt(x) != [] && !IsSpace(PrintInt(x)[0])
  {
  }

  lemma {:induction false} IntReads(ts: Tokens, gap: Tokens -> string, x: Int32)
    requires ts.Token? && Solid(ts.next) && IsGap(gap) && ts.text == PrintInt(x) && !IsDigit(ts.next.text[0])
    ensures ReadInt(Spaced(ts, gap)) == Some(Read(x, Spaced(ts.next, gap)))
  {
    SpacedStarts(ts.next, gap);
    PrintedIsSolid(x);
    SkipToToken(ts, gap);
    LongReads(x, Spaced(ts.next, gap));
  }

  lemma {:induction false} FloatReads(ft: FloatText, ts: Tokens, gap: Tokens -> string, x: Word)
    requires Lawful(ft) && Finite(x) && IsGap(gap)
    requires ts.Token? && ts.text == ft.format(x) && ts.next.Token? && (ts.next.text == "," || ts.next.text == "]")
    ensures ReadFloat(ft, Spaced(ts, gap)) == Some(Read(x, Spaced(ts.next, gap)))
  {
    var rest := Spaced(ts.next, gap);
    SpacedStarts(ts.next, gap);
    SkipToToken(ts, gap);
    assert EndsFloat(rest);
    assert ft.scan(ft.format(x) + rest) == Some(Scanned(x, |ft.format(x)|));
    assert (ft.format(x) + rest)[|ft.format(x)|..] == rest;
  }

  lemma {:induction false} Regroup<T>(done: seq<T>, xs: seq<T>, n: nat)
    requires n <= |xs|
    ensures done + xs[..n] + xs[n..] == done + xs
  {
  }

  lemma {:induction false} RegroupOne<T>(done: seq<T>, xs: seq<T>)
    requires xs != []
    ensures done + [xs[0]] + xs[1..] == done + xs
    ensures |xs| == 1 ==> done + [xs[0]] == done + xs
  {
  }

  lemma {:induction false} RowReads(ft: FloatText, vs: seq<Word>, next: Tokens, gap: Tokens -> string, done: seq<Word>)
    requires Lawful(ft) && AllFinite(vs) && IsGap(gap) && next.Token? && next.text == "]"
    ensures ReadRow(ft, Spaced(RowTokens(ft, vs, next), gap), |vs|, done) == Some(Read(done + vs, Spaced(next, gap)))
  {
    if vs == [] {
      assert done + vs == done;
    } else {
      var ts := RowTokens(ft, vs, next);
      FloatReads(ft, ts, gap, vs[0]);
      if |vs| > 1 {
        CharReads(ts.next, gap, ',');
        RowReads(ft, vs[1..], next, gap, done + [vs[0]]);
      }
      RegroupOne(done, vs);
    }
  }

  /** Reading one row, its brackets and the separator after it. */
  lemma {:induction false} RowsStep(ft: FloatText, vs: seq<Word>, n: nat, dim: nat, next: Tokens,
                                    gap: Tokens -> string, done: seq<Word>)
    requires Lawful(ft) && AllFinite(vs) && IsGap(gap) && 0 < dim <= |vs| && n > 0 && (n > 1 <==> |vs| > dim)
    ensures ReadRows(ft, Spaced(RowsTokens(ft, vs, dim, next), gap), n, dim, done)
         == ReadRows(ft, Spaced(if n > 1 then RowsTokens(ft, vs[dim..], dim, next) else next, gap), n - 1, dim, done + vs[..dim])
  {
    var ts := RowsTokens(ft, vs, dim, next);
    assert n == 1 ==> vs[..dim] == vs;
    CharReads(ts, gap, '[');
    var after := Token("]", if n > 1 then Token(",", RowsTokens(ft, vs[dim..], dim, next)) else next);
    RowReads(ft, vs[..dim], after, gap, done);
    CharReads(after, gap, ']');
    if n > 1 {
      CharReads(after.next, gap, ',');
    }
  }

  lemma {:induction false} FewerRows(n: nat, dim: nat)
    requires n > 0
    ensures n * dim == (n - 1) * dim + dim && (n > 1 ==> (n - 1) * dim >= dim)
  {
  }

  lemma {:induction false} RowsRead(ft: FloatText, vs: seq<Word>, n: nat, dim: nat, next: Tokens,
                                    gap: Tokens -> string, done: seq<Word>)
    requires Lawful(ft) && AllFinite(vs) && IsGap(gap) && dim > 0 && n > 0 && |vs| == n * dim
    ensures ReadRows(ft, Spaced(RowsTokens(ft, vs, dim, next), gap), n, dim, done) == Some(Read(done + vs, Spaced(next, gap)))
    decreases n
  {
    FewerRows(n, dim);
    RowsStep(ft, vs, n, dim, next, gap, done);
    Regroup(done, vs, dim);
    if n > 1 {
      RowsRead(ft, vs[dim..], n - 1, dim, next, gap, done + vs[..dim]);
    } else {
      assert vs[..dim] == vs;
    }
  }

  lemma {:induction false} IntsRead(xs: seq<Int32>, next: Tokens, gap: Tokens -> string, done: seq<Int32>)
    requires xs != [] && IsGap(gap) && next.Token? && next.text == "]"
    ensures ReadInts(Spaced(IntsTokens(xs, next), gap), done) == Some(Read(done + xs, Skip(Spaced(next, gap))))
  {
    var ts := IntsTokens(xs, next);
    IntReads(ts, gap, xs[0]);
    if |xs| > 1 {
      CharReads(ts.next, gap, ',');
      IntsRead(xs[1..], next, gap, done + [xs[0]]);
    } else {
      CharReads(next, gap, ']');
    }
    RegroupOne(done, xs);
  }

  lemma {:induction false} SkipIdempotent(s: string)
    ensures Skip(Skip(s)) == Skip(s)
  {
  }

  lemma {:induction false} ListReads(name: string, xs: seq<Int32>, next: Tokens, gap: Tokens -> string)
    requires xs != [] && IsGap(gap) && name != [] && !IsSpace(name[0])
    ensures var s := Spaced(ListTokens(name, xs, next), gap);
            StartsWith(Skip(s), ',') && ReadList(Skip(s)[1..], name) == Some(Read(xs, Spaced(next, gap)))
  {
    var ts := ListTokens(name, xs, next);
    CharReads(ts, gap, ',');
    LiteralReads(ts.next, gap, name);
    CharReads(ts.next.next, gap, '=');
    CharReads(ts.next.next.next, gap, '[');
    var close := Token("]", next);
    IntsRead(xs, close, gap, []);
    assert [] + xs == xs;
    SkipIdempotent(Spaced(close, gap));
    CharReads(close, gap, ']');
  }

  lemma {:induction false} NumberReads(name: string, x: Int32, next: Tokens, gap: Tokens -> string)
    requires IsGap(gap) && name != [] && !IsSpace(name[0]) && next.Token? && next.text == ","
    ensures ReadNumber(Spaced(NumberTokens(name, x, next), gap), name) == Some(Read(x, Spaced(next, gap)))
  {
    var ts := NumberTokens(name, x, next);
    LiteralReads(ts, gap, name);
    CharReads(ts.next, gap, '=');
    IntReads(ts.next.next, gap, x);
  }

  lemma {:induction false} ValuesRead(ft: FloatText, mv: MultiVector, gap: Tokens -> string)
    requires Lawful(ft) && Valid(mv) && IsGap(gap)
    ensures ReadValues(ft, Spaced(ValuesTokens(ft, mv), gap), mv.count, mv.dim)
         == Some(Read(mv.values, Spaced(MetadataTokens(mv), gap)))
  {
    var ts := ValuesTokens(ft, mv);
    CharReads(ts, gap, ',');
    LiteralReads(ts.next, gap, "values");
    CharReads(ts.next.next, gap, '=');
    CharReads(ts.next.next.next, gap, '[');
    var close := Token("]", MetadataTokens(mv));
    RowsRead(ft, mv.values, mv.count, mv.dim, close, gap, []);
    assert [] + mv.values == mv.values;
    CharReads(close, gap, ']');
  }

  /** The text after a list of metadata: at the closing parenthesis, from where it may be skipped to again. */
  ghost predicate AtEnd(s: string, gap: Tokens -> string) {
    !StartsWith(Skip(s), ',') && Char(s, ')') == Some(Spaced(End, gap)) == Char(Skip(s), ')')
  }

  lemma {:induction false} CloseIsEnd(gap: Tokens -> string)
    requires IsGap(gap)
    ensures AtEnd(Spaced(Token(")", End), gap), gap)
  {
    var close := Token(")", End);
    CharReads(close, gap, ')');
    SkipIdempotent(Spaced(close, gap));
  }

  lemma {:induction false} FieldsRead(mv: MultiVector, gap: Tokens -> string)
    requires Valid(mv) && IsGap(gap) && HasContexts(mv.flags)
    ensures var r := ReadFields(Spaced(FieldTokens(mv), gap), mv.(flags := 1, fields := []));
            r.Some? && r.value.value == mv && Char(r.value.rest, ')') == Some(Spaced(End, gap))
  {
    CloseIsEnd(gap);
    if HasFields(mv.flags) {
      ListReads("fields", mv.fields, Token(")", End), gap);
    }
  }

  /** The metadata is read up to the closing parenthesis. */
  lemma {:induction false} MetadataReads(mv: MultiVector, gap: Tokens -> string)
    requires Valid(mv) && IsGap(gap)
    ensures var r := ReadMetadata(Spaced(MetadataTokens(mv), gap), mv.(flags := 0, contexts := [], fields := []));
            r.Some? && r.value.value == mv && Char(r.value.rest, ')') == Some(Spaced(End, gap))
  {
    if HasContexts(mv.flags) {
      ListReads("contexts", mv.contexts, FieldTokens(mv), gap);
      FieldsRead(mv, gap);
    } else {
      CloseIsEnd(gap);
    }
  }

  /** Every spacing of the printed tokens is read back as the value they were printed from. */
  lemma {:induction false} EverySpacingReadsBack(ft: FloatText, mv: MultiVector, gap: Tokens -> string)
    requires Lawful(ft) && Valid(mv) && IsGap(gap)
    ensures Parsed(ft, Spaced(TokensOf(ft, mv), gap)) == Some(mv)
  {
    var ts := TokensOf(ft, mv);
    LiteralReads(ts, gap, NAME);
    CharReads(ts.next, gap, '(');
    var count := NumberTokens("count", mv.count, ValuesTokens(ft, mv));
    NumberReads("dim", mv.dim, Token(",", count), gap);
    CharReads(Token(",", count), gap, ',');
    NumberReads("count", mv.count, ValuesTokens(ft, mv), gap);
    ValuesRead(ft, mv, gap);
    MetadataReads(mv, gap);
    SkipGap(gap(End), []);
    assert gap(End) + [] == gap(End);
  }

  /** Scanning a bit pattern written out in decimal. */
  function ScanPattern(s: string): Option<Scanned> {
    var n :- LongFrom(s);
    if 0 <= n.value < 0x1_0000_0000 then Some(Scanned(n.value, |s| - |n.rest|)) else None
  }

  /** The law asked of the float text can be met: writing the bit pattern in decimal meets it. */
  lemma {:induction false} LawfulTextExists()
    ensures Lawful(FloatText((x: Word) => Digits(x), ScanPattern))
  {
    forall x: Word, rest: string | EndsFloat(rest)
      ensures ScanPattern(Digits(x) + rest) == Some(Scanned(x, |Digits(x)|))
    {
      NatReads(x, rest);
      SignedReads(Digits(x) + rest, x, rest);
    }
  }

  function NoGap(ts: Tokens): string {
    []
  }

  lemma {:induction false} TextIsSpaced(ts: Tokens)
    ensures Text(ts) == Spaced(ts, NoGap)
  {
    if ts.Token? {
      TextIsSpaced(ts.next);
      assert NoGap(ts) + (ts.text + Spaced(ts.next, NoGap)) == ts.text + Spaced(ts.next, NoGap);
    }
  }

  /** Parsing what was printed gives the value back. */
  lemma {:induction false} TextRoundTrip(ft: FloatText, mv: MultiVector)
    requires Lawful(ft) && Valid(mv)
    ensures Parsed(ft, Text(TokensOf(ft, mv))) == Some(mv)
  {
    TextIsSpaced(TokensOf(ft, mv));
    EverySpacingReadsBack(ft, mv, NoGap);
  }

  /** No two values print alike. */
  lemma {:induction false} PrintingIsInjective(ft: FloatText, a: MultiVector, b: MultiVector)
    requires Lawful(ft) && Valid(a) && Valid(b) && Text(TokensOf(ft, a)) == Text(TokensOf(ft, b))
    ensures a == b
  {
    TextRoundTrip(ft, a);
    TextRoundTrip(ft, b);
  }

  /** What parses is valid and survives another round. */
  lemma {:induction false} ParsedIsStable(ft: FloatText, text: string)
    requires Lawful(ft) && Parsed(ft, text).Some?
    ensures var mv := Parsed(ft, text).value; Valid(mv) && Parsed(ft, Text(TokensOf(ft, mv))) == Some(mv)
  {
    TextRoundTrip(ft, Parsed(ft, text).value);
  }

  // The parser, moving a cursor over the text.

  /** A value and the cursor after it. */
  datatype Found<+T> = Found(value: T, pos: nat)

  /** A cursor standing where the specification stands, or a failure of both. */
  ghost predicate At(text: string, pos: Option<nat>, rest: Option<string>) {
    if pos.None? then rest.None? else rest.Some? && pos.value <= |text| && text[pos.value..] == rest.value
  }

  ghost predicate FoundAt<T>(text: string, found: Option<Found<T>>, read: Option<Read<T>>) {
    if found.None? then read.None?
    else read.Some? && found.value.value == read.value.value
         && found.value.pos <= |text| && text[found.value.pos..] == read.value.rest
  }

  method SkipSpaces(text: string, pos: nat) returns (next: nat)
    requires pos <= |text|
    ensures pos <= next <= |text| && text[next..] == Skip(text[pos..])
  {
    next := pos;
    while next < |text| && IsSpace(text[next])
      invariant pos <= next <= |text| && Skip(text[next..]) == Skip(text[pos..])
    {
      assert text[next..][1..] == text[next + 1..];
      next := next + 1;
    }
  }

  method ConsumeLiteral(text: string, pos: nat, literal: string) returns (r: Option<nat>)
    requires pos <= |text|
    ensures At(text, r, Literal(text[pos..], literal))
  {
    var next := SkipSpaces(text, pos);
    ghost var s := text[next..];
    assert literal <= s <==> |literal| <= |s| && text[next..next + |literal|] == literal;
    if next + |literal| > |text| || text[next..next + |literal|] != literal {
      return None;
    }
    assert s[|literal|..] == text[next + |literal|..];
    r := Some(next + |literal|);
  }

  method ExpectChar(text: string, pos: nat, c: char) returns (r: Option<nat>)
    requires pos <= |text|
    ensures At(text, r, Char(text[pos..], c))
  {
    var next := SkipSpaces(text, pos);
    if next == |text| || text[next] != c {
      return None;
    }
    assert text[next..][1..] == text[next + 1..];
    r := Some(next + 1);
  }

  method ParseInt32(text: string, pos: nat) returns (r: Option<Found<Int32>>)
    requires pos <= |text|
    ensures FoundAt(text, r, ReadInt(text[pos..]))
    ensures r.Some? ==> r.value.pos > pos
  {
    var next := SkipSpaces(text, pos);
    var n :- LongFrom(text[next..]);
    if n.value < -0x8000_0000 || n.value > 0x7FFF_FFFF {
      return None;
    }
    RestIsSuffix(text[next..]);
    assert text[next..][|text| - next - |n.rest|..] == text[|text| - |n.rest|..];
    r := Some(Found(n.value, |text| - |n.rest|));
  }

  /** Scanning leaves a suffix of the text, so its length gives the cursor. */
  lemma {:induction false} DigitsSuffix(s: string, value: nat)
    ensures var r := DigitsFrom(s, value).rest; |r| <= |s| && s[|s| - |r|..] == r
  {
    if s != [] && IsDigit(s[0]) {
      DigitsSuffix(s[1..], value * 10 + (s[0] - '0') as nat);
      var r := DigitsFrom(s, value).rest;
      assert s[1..][|s[1..]| - |r|..] == s[|s| - |r|..];
    }
  }

  lemma {:induction false} RestIsSuffix(s: string)
    requires LongFrom(s).Some?
    ensures var r := LongFrom(s).value.rest; s[|s| - |r|..] == r
  {
    var d := if StartsWith(s, '-') || StartsWith(s, '+') then s[1..] else s;
    DigitsSuffix(d[1..], (d[0] - '0') as nat);
    var r := LongFrom(s).value.rest;
    assert d[1..][|d[1..]| - |r|..] == s[|s| - |r|..];
  }

  method ParseFloat4(ft: FloatText, text: string, pos: nat) returns (r: Option<Found<Word>>)
    requires pos <= |text|
    ensures FoundAt(text, r, ReadFloat(ft, text[pos..]))
  {
    var next := SkipSpaces(text, pos);
    var x :- ft.scan(text[next..]);
    if x.length == 0 || x.length > |text| - next || !Finite(x.bits) {
      return None;
    }
    assert text[next..][x.length..] == text[next + x.length..];
    r := Some(Found(x.bits, next + x.length));
  }

  /** The row loop of the values: dim floats with commas between them, appended to the buffer. */
  method ParseRow(ft: FloatText, text: string, pos: nat, dim: nat,
                  done: seq<Word>) returns (r: Option<Found<seq<Word>>>)
    requires pos <= |text|
    ensures FoundAt(text, r, ReadRow(ft, text[pos..], dim, done))
  {
    var cursor, values := pos, done;
    for j := 0 to dim
      invariant 0 <= cursor <= |text|
      invariant ReadRow(ft, text[pos..], dim, done) == ReadRow(ft, text[cursor..], dim - j, values)
    {
      var x :- ParseFloat4(ft, text, cursor);
      cursor, values := x.pos, values + [x.value];
      if j + 1 < dim {
        cursor :- ExpectChar(text, cursor, ',');
      }
    }
    r := Some(Found(values, cursor));
  }

  method ParseRows(ft: FloatText, text: string, pos: nat, count: nat, dim: nat) returns (r: Option<Found<seq<Word>>>)
    requires pos <= |text|
    ensures FoundAt(text, r, ReadRows(ft, text[pos..], count, dim, []))
  {
    var cursor, values := pos, [];
    for i := 0 to count
      invariant 0 <= cursor <= |text|
      invariant ReadRows(ft, text[pos..], count, dim, []) == ReadRows(ft, text[cursor..], count - i, dim, values)
    {
      cursor :- ExpectChar(text, cursor, '[');
      var row :- ParseRow(ft, text, cursor, dim, values);
      values := row.value;
      cursor :- ExpectChar(text, row.pos, ']');
      if i + 1 < count {
        cursor :- ExpectChar(text, cursor, ',');
      }
    }
    r := Some(Found(values, cursor));
  }

  method ParseInts(text: string, pos: nat) returns (r: Option<Found<seq<Int32>>>)
    requires pos <= |text|
    ensures FoundAt(text, r, ReadInts(text[pos..], []))
  {
    var cursor, values := pos, [];
    while true
      invariant 0 <= cursor <= |text|
      invariant ReadInts(text[pos..], []) == ReadInts(text[cursor..], values)
      decreases |text| - cursor
    {
      var n :- ParseInt32(text, cursor);
      values := values + [n.value];
      cursor := SkipSpaces(text, n.pos);
      if cursor == |text| || text[cursor] != ',' {
        return Some(Found(values, cursor));
      }
      assert text[cursor..][1..] == text[cursor + 1..];
      cursor := cursor + 1;
    }
  }

  method ParseNumber(text: string, pos: nat, name: string) returns (r: Option<Found<Int32>>)
    requires pos <= |text|
    ensures FoundAt(text, r, ReadNumber(text[pos..], name))
  {
    var cursor :- ConsumeLiteral(text, pos, name);
    cursor :- ExpectChar(text, cursor, '=');
    r := ParseInt32(text, cursor);
  }

  method ParseList(text: string, pos: nat, name: string) returns (r: Option<Found<seq<Int32>>>)
    requires pos <= |text|
    ensures FoundAt(text, r, ReadList(text[pos..], name))
  {
    var cursor :- ConsumeLiteral(text, pos, name);
    cursor :- ExpectChar(text, cursor, '=');
    cursor :- ExpectChar(text, cursor, '[');
    var xs :- ParseInts(text, cursor);
    cursor :- ExpectChar(text, xs.pos, ']');
    r := Some(Found(xs.value, cursor));
  }

  method ParseFields(text: string, pos: nat, mv: MultiVector) returns (r: Option<Found<MultiVector>>)
    requires pos <= |text|
    ensures FoundAt(text, r, ReadFields(text[pos..], mv))
  {
    var cursor := SkipSpaces(text, pos);
    if cursor == |text| || text[cursor] != ',' {
      return Some(Found(mv, cursor));
    }
    assert text[cursor..][1..] == text[cursor + 1..];
    var fields :- ParseList(text, cursor + 1, "fields");
    if |fields.value| != |mv.contexts| {
      return None;
    }
    r := Some(Found(mv.(flags := 3, fields := fields.value), fields.pos));
  }

  method ParseMetadata(text: string, pos: nat, plain: MultiVector) returns (r: Option<Found<MultiVector>>)
    requires pos <= |text|
    ensures FoundAt(text, r, ReadMetadata(text[pos..], plain))
  {
    var cursor := SkipSpaces(text, pos);
    if cursor == |text| || text[cursor] != ',' {
      return Some(Found(plain, cursor));
    }
    assert text[cursor..][1..] == text[cursor + 1..];
    var contexts :- ParseList(text, cursor + 1, "contexts");
    r := ParseFields(text, contexts.pos, plain.(flags := 1, contexts := contexts.value));
  }

  method ParseValues(ft: FloatText, text: string, pos: nat, count: Int32,
                     dim: Int32) returns (r: Option<Found<seq<Word>>>)
    requires pos <= |text|
    ensures FoundAt(text, r, ReadValues(ft, text[pos..], count, dim))
  {
    if !ValidHeader(count, dim) {
      return None;
    }
    var cursor :- ExpectChar(text, pos, ',');
    cursor :- ConsumeLiteral(text, cursor, "values");
    cursor :- ExpectChar(text, cursor, '=');
    cursor :- ExpectChar(text, cursor, '[');
    var values :- ParseRows(ft, text, cursor, count, dim);
    cursor :- ExpectChar(text, values.pos, ']');
    r := Some(Found(values.value, cursor));
  }

  method ParseHeader(text: string) returns (r: Option<Found<Header>>)
    ensures FoundAt(text, r, ReadHeader(text))
  {
    assert text[0..] == text;
    var cursor :- ConsumeLiteral(text, 0, NAME);
    cursor :- ExpectChar(text, cursor, '(');
    var dim :- ParseNumber(text, cursor, "dim");
    cursor :- ExpectChar(text, dim.pos, ',');
    var count :- ParseNumber(text, cursor, "count");
    r := Some(Found(Header(dim.value, count.value), count.pos));
  }

  method ParseMultiVector(ft: FloatText, text: string) returns (r: Option<MultiVector>)
    ensures r == Parsed(ft, text)
  {
    var h :- ParseHeader(text);
    var values :- ParseValues(ft, text, h.pos, h.value.count, h.value.dim);
    var mv :- ParseMetadata(text, values.pos, MultiVector(h.value.dim, h.value.count, 0, values.value, [], []));
    var end :- ExpectChar(text, mv.pos, ')');
    end := SkipSpaces(text, end);
    var valid := CheckMultiVector(mv.value);
    r := if end == |text| && valid then Some(mv.value) else None;
  }

  // The printer, appending to a buffer.

  lemma {:induction false} Append(buf: string, ts: Tokens)
    requires ts.Token?
    ensures buf + Text(ts) == buf + ts.text + Text(ts.next)
  {
  }

  method PrintRow(ft: FloatText, buf: string, vs: seq<Word>, ghost next: Tokens) returns (out: string)
    ensures out + Text(next) == buf + Text(RowTokens(ft, vs, next))
  {
    out := buf;
    ghost var ts := RowTokens(ft, vs, next);
    for j := 0 to |vs|
      invariant ts == if 0 < j < |vs| then Token(",", RowTokens(ft, vs[j..], next)) else RowTokens(ft, vs[j..], next)
      invariant out + Text(ts) == buf + Text(RowTokens(ft, vs, next))
    {
      if j > 0 {
        Append(out, ts);
        out, ts := out + ",", ts.next;
      }
      Append(out, ts);
      assert vs[j..][1..] == vs[j + 1..];
      out, ts := out + ft.format(vs[j]), ts.next;
    }
  }

  method PrintInts(buf: string, xs: seq<Int32>, ghost next: Tokens) returns (out: string)
    ensures out + Text(next) == buf + Text(IntsTokens(xs, next))
  {
    out := buf;
    ghost var ts := IntsTokens(xs, next);
    for j := 0 to |xs|
      invariant ts == if 0 < j < |xs| then Token(",", IntsTokens(xs[j..], next)) else IntsTokens(xs[j..], next)
      invariant out + Text(ts) == buf + Text(IntsTokens(xs, next))
    {
      if j > 0 {
        Append(out, ts);
        out, ts := out + ",", ts.next;
      }
      Append(out, ts);
      assert xs[j..][1..] == xs[j + 1..];
      out, ts := out + PrintInt(xs[j]), ts.next;
    }
  }

  /** The tokens still to be written before row number i, when vs holds the values from that row on. */
  ghost function RowsLeft(ft: FloatText, vs: seq<Word>, i: nat, dim: nat, next: Tokens): Tokens
    requires dim > 0
  {
    if vs == [] then next else if i > 0 then Token(",", RowsTokens(ft, vs, dim, next)) else RowsTokens(ft, vs, dim, next)
  }

  /** One row with its brackets, and the comma before it unless it is the first. */
  method PrintNextRow(ft: FloatText, buf: string, vs: seq<Word>, i: nat, dim: nat,
                      ghost next: Tokens) returns (out: string)
    requires 0 < dim <= |vs|
    ensures out + Text(RowsLeft(ft, vs[dim..], i + 1, dim, next)) == buf + Text(RowsLeft(ft, vs, i, dim, next))
  {
    out := buf;
    if i > 0 {
      Append(out, RowsLeft(ft, vs, i, dim, next));
      out := out + ",";
    }
    ghost var ts := RowsTokens(ft, vs, dim, next);
    ghost var close := Token("]", RowsLeft(ft, vs[dim..], i + 1, dim, next));
    assert |vs| == dim ==> vs[..dim] == vs;
    Append(out, ts);
    out := out + "[";
    out := PrintRow(ft, out, vs[..dim], close);
    Append(out, close);
    out := out + "]";
  }

  ghost function Cells(rows: nat, dim: nat): nat {
    if rows == 0 then 0 else Cells(rows - 1, dim) + dim
  }

  lemma {:induction false} CellsAre(rows: nat, dim: nat)
    ensures Cells(rows, dim) == rows * dim
  {
    if rows > 0 {
      CellsAre(rows - 1, dim);
      FewerRows(rows, dim);
    }
  }

  method PrintRows(ft: FloatText, buf: string, values: seq<Word>, count: nat, dim: nat,
                   ghost next: Tokens) returns (out: string)
    requires count > 0 && dim > 0 && |values| == Cells(count, dim)
    ensures out + Text(next) == buf + Text(RowsTokens(ft, values, dim, next))
  {
    out := buf;
    var at := 0;
    for i := 0 to count
      invariant 0 <= at <= |values| && |values| - at == Cells(count - i, dim)
      invariant out + Text(RowsLeft(ft, values[at..], i, dim, next)) == buf + Text(RowsTokens(ft, values, dim, next))
    {
      out := PrintNextRow(ft, out, values[at..], i, dim, next);
      assert values[at..][dim..] == values[at + dim..];
      at := at + dim;
    }
  }

  method PrintList(buf: string, name: string, xs: seq<Int32>, ghost next: Tokens) returns (out: string)
    ensures out + Text(next) == buf + Text(ListTokens(name, xs, next))
  {
    ghost var ts := ListTokens(name, xs, next);
    Append(buf, ts);
    Append(buf + ",", ts.next);
    Append(buf + "," + name, ts.next.next);
    Append(buf + "," + name + "=", ts.next.next.next);
    out := PrintInts(buf + "," + name + "=" + "[", xs, Token("]", next));
    Append(out, Token("]", next));
    out := out + "]";
  }

  method PrintNumber(buf: string, name: string, x: Int32, ghost next: Tokens) returns (out: string)
    ensures out + Text(next) == buf + Text(NumberTokens(name, x, next))
  {
    ghost var ts := NumberTokens(name, x, next);
    Append(buf, ts);
    Append(buf + name, ts.next);
    Append(buf + name + "=", ts.next.next);
    out := buf + name + "=" + PrintInt(x);
  }

  method PrintValues(ft: FloatText, buf: string, mv: MultiVector) returns (out: string)
    requires Valid(mv)
    ensures out + Text(MetadataTokens(mv)) == buf + Text(ValuesTokens(ft, mv))
  {
    ghost var ts := ValuesTokens(ft, mv);
    Append(buf, ts);
    Append(buf + ",", ts.next);
    Append(buf + "," + "values", ts.next.next);
    Append(buf + "," + "values" + "=", ts.next.next.next);
    ghost var close := Token("]", MetadataTokens(mv));
    CellsAre(mv.count, mv.dim);
    out := PrintRows(ft, buf + "," + "values" + "=" + "[", mv.values, mv.count, mv.dim, close);
    Append(out, close);
    out := out + "]";
  }

  method PrintMultiVector(ft: FloatText, mv: MultiVector) returns (text: string)
    requires Valid(mv)
    ensures text == Text(TokensOf(ft, mv))
    ensures Lawful(ft) ==> Parsed(ft, text) == Some(mv)
  {
    ghost var count := NumberTokens("count", mv.count, ValuesTokens(ft, mv));
    ghost var ts := TokensOf(ft, mv);
    text := NAME + "(";
    assert text + Text(ts.next.next) == Text(ts);
    text := PrintNumber(text, "dim", mv.dim, Token(",", count));
    Append(text, Token(",", count));
    text := PrintNumber(text + ",", "count", mv.count, ValuesTokens(ft, mv));
    text := PrintValues(ft, text, mv);
    if HasContexts(mv.flags) {
      text := PrintList(text, "contexts", mv.contexts, FieldTokens(mv));
      if HasFields(mv.flags) {
        text := PrintList(text, "fields", mv.fields, Token(")", End));
      }
    }
    Append(text, Token(")", End));
    text := text + ")";
    if Lawful(ft) {
      TextRoundTrip(ft, mv);
    }
  }
}
