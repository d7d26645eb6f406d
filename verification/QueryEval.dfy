/**
 Boolean matching of a tsquery against the set of query terms a document contains: the
 recursive evaluator, the compiled mask form, and exactly when the two agree.
 */
module QueryEval {
  import opened Ranking

  /** A 64-bit match mask, as the set of its bit numbers. */
  type Mask = set<nat>

  datatype TsQuery =
    | Val(lexeme: string)
    | Not(arg: TsQuery)
    | And(left: TsQuery, right: TsQuery)
    | Or(left: TsQuery, right: TsQuery)
    | Phrase(left: TsQuery, right: TsQuery)

  datatype Shape = Empty | Single | PureOr | PureAnd | Mixed

  datatype Mode = NoMode | SingleMode | MaskMode | TreeMode

  datatype Eval = Eval(shape: Shape, mode: Mode, requiredMask: Mask)

  // ----- terms

  /** Collects the operands under an even number of negations, right operand first, each lexeme once. */
  function Collect(q: TsQuery, negated: bool, terms: seq<string>): seq<string> {
    match q
    case Val(x) => if negated || x in terms then terms else terms + [x]
    case Not(a) => Collect(a, !negated, terms)
    case And(l, r) => Collect(l, negated, Collect(r, negated, terms))
    case Or(l, r) => Collect(l, negated, Collect(r, negated, terms))
    case Phrase(l, r) => Collect(l, negated, Collect(r, negated, terms))
  }

  function Terms(q: TsQuery): seq<string> {
    Collect(q, false, [])
  }

  /** The first term equal to x, or -1. */
  function FindTerm(terms: seq<string>, x: string): int {
    if terms == [] then -1
    else if terms[|terms| - 1] == x && x !in terms[..|terms| - 1] then |terms| - 1
    else FindTerm(terms[..|terms| - 1], x)
  }

  // ----- evaluation

  /** The recursive evaluator: NOT does not constrain, PHRASE is AND. */
  predicate EvalItem(q: TsQuery, terms: seq<string>, m: Mask) {
    match q
    case Val(x) => FindTerm(terms, x) >= 0 && FindTerm(terms, x) in m
    case Not(_) => true
    case And(l, r) => EvalItem(l, terms, m) && EvalItem(r, terms, m)
    case Phrase(l, r) => EvalItem(l, terms, m) && EvalItem(r, terms, m)
    case Or(l, r) => EvalItem(l, terms, m) || EvalItem(r, terms, m)
  }

  predicate HasOr(q: TsQuery) {
    match q
    case Val(_) => false
    case Not(a) => HasOr(a)
    case Or(_, _) => true
    case And(l, r) => HasOr(l) || HasOr(r)
    case Phrase(l, r) => HasOr(l) || HasOr(r)
  }

  predicate HasAnd(q: TsQuery) {
    match q
    case Val(_) => false
    case Not(a) => HasAnd(a)
    case And(_, _) => true
    case Or(l, r) => HasAnd(l) || HasAnd(r)
    case Phrase(l, r) => HasAnd(l) || HasAnd(r)
  }

  function AllBits(n: nat): (m: Mask)
    ensures forall i: nat :: i in m <==> i < n
  {
    if n == 0 then {} else AllBits(n - 1) + {n - 1}
  }

  function Compile(q: TsQuery): Eval {
    var n := |Terms(q)|;
    var all := AllBits(n);
    if n == 0 then Eval(Empty, NoMode, all)
    else if n == 1 && !HasOr(q) && !HasAnd(q) then Eval(Single, SingleMode, all)
    else if HasOr(q) && !HasAnd(q) then Eval(PureOr, MaskMode, all)
    else if HasAnd(q) && !HasOr(q) then Eval(PureAnd, MaskMode, all)
    else Eval(Mixed, TreeMode, all)
  }

  /** A query with its term list and compiled form, as the search loops carry it. */
  datatype Matcher = Matcher(query: TsQuery, terms: seq<string>, eval: Eval)

  function Prepare(q: TsQuery): Matcher {
    Matcher(q, Terms(q), Compile(q))
  }

  predicate Matched(q: Matcher, m: Mask) {
    if q.eval.mode == SingleMode then m * q.eval.requiredMask != {}
    else if q.eval.mode == MaskMode && q.eval.shape == PureOr then m * q.eval.requiredMask != {}
    else if q.eval.mode == MaskMode && q.eval.shape == PureAnd then m * q.eval.requiredMask == q.eval.requiredMask
    else EvalItem(q.query, q.terms, m)
  }

  // ----- term lists

  lemma {:induction false} FindTermFacts(terms: seq<string>, x: string)
    requires Distinct(terms)
    ensures x in terms ==> 0 <= FindTerm(terms, x) < |terms| && terms[FindTerm(terms, x)] == x
    ensures x !in terms ==> FindTerm(terms, x) == -1
  {
    if terms != [] {
      var t := terms[..|terms| - 1];
      assert terms == t + [terms[|terms| - 1]];
      FindTermFacts(t, x);
    }
  }

  /** The collected lexemes: those already there and those under an even number of negations. */
  ghost function Positive(q: TsQuery, negated: bool): set<string> {
    match q
    case Val(x) => if negated then {} else {x}
    case Not(a) => Positive(a, !negated)
    case And(l, r) => Positive(l, negated) + Positive(r, negated)
    case Or(l, r) => Positive(l, negated) + Positive(r, negated)
    case Phrase(l, r) => Positive(l, negated) + Positive(r, negated)
  }

  lemma {:induction false} CollectFacts(q: TsQuery, negated: bool, terms: seq<string>)
    requires Distinct(terms)
    ensures Distinct(Collect(q, negated, terms))
    ensures Elements(Collect(q, negated, terms)) == Elements(terms) + Positive(q, negated)
  {
    match q
    case Val(x) =>
      if !negated && x !in terms {
        assert Elements(terms + [x]) == Elements(terms) + {x};
      }
    case Not(a) => CollectFacts(a, !negated, terms);
    case And(l, r) =>
      CollectFacts(r, negated, terms);
      CollectFacts(l, negated, Collect(r, negated, terms));
    case Or(l, r) =>
      CollectFacts(r, negated, terms);
      CollectFacts(l, negated, Collect(r, negated, terms));
    case Phrase(l, r) =>
      CollectFacts(r, negated, terms);
      CollectFacts(l, negated, Collect(r, negated, terms));
  }

  // ----- meaning over sets of lexemes

  ghost function Lexemes(terms: seq<string>, m: Mask): set<string> {
    set i | i in m && i < |terms| :: terms[i]
  }

  ghost predicate Sat(q: TsQuery, M: set<string>) {
    match q
    case Val(x) => x in M
    case Not(_) => true
    case And(l, r) => Sat(l, M) && Sat(r, M)
    case Phrase(l, r) => Sat(l, M) && Sat(r, M)
    case Or(l, r) => Sat(l, M) || Sat(r, M)
  }

  lemma {:induction false} EvalIsSat(q: TsQuery, terms: seq<string>, m: Mask)
    requires Distinct(terms)
    ensures EvalItem(q, terms, m) <==> Sat(q, Lexemes(terms, m))
  {
    match q
    case Val(x) =>
      FindTermFacts(terms, x);
      if x in Lexemes(terms, m) {
        var i :| i in m && i < |terms| && terms[i] == x;
      }
    case Not(_) =>
    case And(l, r) => EvalIsSat(l, terms, m); EvalIsSat(r, terms, m);
    case Phrase(l, r) => EvalIsSat(l, terms, m); EvalIsSat(r, terms, m);
    case Or(l, r) => EvalIsSat(l, terms, m); EvalIsSat(r, terms, m);
  }

  lemma {:induction false} SatIsMonotone(q: TsQuery, M: set<string>, M': set<string>)
    requires M <= M' && Sat(q, M)
    ensures Sat(q, M')
  {
    match q
    case Val(_) =>
    case Not(_) =>
    case And(l, r) => SatIsMonotone(l, M, M'); SatIsMonotone(r, M, M');
    case Phrase(l, r) => SatIsMonotone(l, M, M'); SatIsMonotone(r, M, M');
    case Or(l, r) =>
      if Sat(l, M) {
        SatIsMonotone(l, M, M');
      } else {
        SatIsMonotone(r, M, M');
      }
  }

  /** The lexemes of operands that no NOT covers. */
  ghost function Required(q: TsQuery): set<string> {
    match q
    case Val(x) => {x}
    case Not(_) => {}
    case And(l, r) => Required(l) + Required(r)
    case Or(l, r) => Required(l) + Required(r)
    case Phrase(l, r) => Required(l) + Required(r)
  }

  lemma {:induction false} RequiredIsPositive(q: TsQuery)
    ensures Required(q) <= Positive(q, false)
  {
    match q
    case Val(_) =>
    case Not(_) =>
    case And(l, r) => RequiredIsPositive(l); RequiredIsPositive(r);
    case Or(l, r) => RequiredIsPositive(l); RequiredIsPositive(r);
    case Phrase(l, r) => RequiredIsPositive(l); RequiredIsPositive(r);
  }

  /** Without OR the evaluator asks for every operand that no NOT covers. */
  lemma {:induction false} SatWithoutOr(q: TsQuery, M: set<string>)
    requires !HasOr(q)
    ensures Sat(q, M) <==> Required(q) <= M
  {
    match q
    case Val(_) =>
    case Not(_) =>
    case And(l, r) => SatWithoutOr(l, M); SatWithoutOr(r, M);
    case Phrase(l, r) => SatWithoutOr(l, M); SatWithoutOr(r, M);
  }

  ghost predicate HasNot(q: TsQuery) {
    match q
    case Val(_) => false
    case Not(_) => true
    case And(l, r) => HasNot(l) || HasNot(r)
    case Or(l, r) => HasNot(l) || HasNot(r)
    case Phrase(l, r) => HasNot(l) || HasNot(r)
  }

  ghost predicate HasPhrase(q: TsQuery) {
    match q
    case Val(_) => false
    case Not(a) => HasPhrase(a)
    case Phrase(_, _) => true
    case And(l, r) => HasPhrase(l) || HasPhrase(r)
    case Or(l, r) => HasPhrase(l) || HasPhrase(r)
  }

  lemma {:induction false} WithoutNot(q: TsQuery)
    requires !HasNot(q)
    ensures Required(q) == Positive(q, false)
  {
    match q
    case Val(_) =>
    case And(l, r) => WithoutNot(l); WithoutNot(r);
    case Or(l, r) => WithoutNot(l); WithoutNot(r);
    case Phrase(l, r) => WithoutNot(l); WithoutNot(r);
  }

  lemma {:induction false} OnlyOr(q: TsQuery, M: set<string>)
    requires !HasNot(q) && !HasPhrase(q) && !HasAnd(q)
    ensures Sat(q, M) <==> Required(q) * M != {}
  {
    match q
    case Val(x) => assert x in M ==> x in {x} * M;
    case Or(l, r) =>
      OnlyOr(l, M);
      OnlyOr(r, M);
      assert (Required(l) + Required(r)) * M == Required(l) * M + Required(r) * M;
  }

  // ----- the compiled form against the evaluator

  /** The compiled form accepts the same matched-term sets; a scored document matches at least one term. */
  ghost predicate Agrees(q: TsQuery) {
    forall m: Mask :: m != {} && m <= AllBits(|Terms(q)|) ==>
      (Matched(Prepare(q), m) <==> EvalItem(q, Terms(q), m))
  }

  /** What the chosen shape needs: each term alone suffices, or no collected term hides under NOT. */
  ghost predicate Faithful(q: TsQuery) {
    match Compile(q).shape
    case PureOr => forall i: nat :: i < |Terms(q)| ==> EvalItem(q, Terms(q), {i})
    case PureAnd => |Terms(q)| <= 1 || Required(q) == Positive(q, false)
    case _ => true
  }

  lemma {:induction false} TermsFacts(q: TsQuery)
    ensures Distinct(Terms(q)) && Elements(Terms(q)) == Positive(q, false)
  {
    CollectFacts(q, false, []);
    assert Elements<string>([]) == {};
  }

  lemma {:induction false} AllLexemes(terms: seq<string>, m: Mask)
    requires Distinct(terms) && m <= AllBits(|terms|)
    ensures Elements(terms) <= Lexemes(terms, m) <==> m == AllBits(|terms|)
  {
    if Elements(terms) <= Lexemes(terms, m) {
      forall i | i in AllBits(|terms|)
        ensures i in m
      {
        assert terms[i] in Elements(terms);
        var j :| j in m && j < |terms| && terms[j] == terms[i];
      }
    }
    if m == AllBits(|terms|) {
      forall x | x in Elements(terms)
        ensures x in Lexemes(terms, m)
      {
        var i :| 0 <= i < |terms| && terms[i] == x;
        assert i in m;
      }
    }
  }

  /** On one mask: what the tree asks for, and what the AND mask asks for. */
  lemma {:induction false} AndOnMask(q: TsQuery, m: Mask)
    requires Compile(q).shape == PureAnd && m != {} && m <= AllBits(|Terms(q)|)
    ensures EvalItem(q, Terms(q), m) <==> Required(q) <= Lexemes(Terms(q), m)
    ensures Matched(Prepare(q), m) <==> m == AllBits(|Terms(q)|)
    ensures Elements(Terms(q)) <= Lexemes(Terms(q), m) <==> m == AllBits(|Terms(q)|)
  {
    var terms := Terms(q);
    TermsFacts(q);
    EvalIsSat(q, terms, m);
    SatWithoutOr(q, Lexemes(terms, m));
    AllLexemes(terms, m);
    assert m * AllBits(|terms|) == m;
  }

  /** The mask of the required words. */
  lemma {:induction false} RequiredMask(q: TsQuery, terms: seq<string>) returns (m: Mask)
    requires Required(q) <= Elements(terms)
    ensures m <= AllBits(|terms|) && Lexemes(terms, m) == Required(q)
  {
    m := set i | i in AllBits(|terms|) && terms[i] in Required(q);
    forall x | x in Required(q)
      ensures x in Lexemes(terms, m)
    {
      var i :| 0 <= i < |terms| && terms[i] == x;
      assert i in m;
    }
  }

  /** A mask that the tree accepts and the AND mask does not. */
  lemma {:induction false} AndDisagrees(q: TsQuery) returns (m: Mask)
    requires Compile(q).shape == PureAnd && |Terms(q)| > 1 && Required(q) != Positive(q, false)
    ensures m != {} && m <= AllBits(|Terms(q)|) && EvalItem(q, Terms(q), m) && !Matched(Prepare(q), m)
  {
    var terms := Terms(q);
    TermsFacts(q);
    RequiredIsPositive(q);
    if Required(q) == {} {
      m := {0};
      assert 1 in AllBits(|terms|) && 0 in AllBits(|terms|);
    } else {
      m := RequiredMask(q, terms);
      assert m != {} by {
        var x :| x in Required(q);
        assert x in Lexemes(terms, m);
      }
    }
    AndOnMask(q, m);
  }

  lemma {:induction false} AndAgrees(q: TsQuery)
    requires Compile(q).shape == PureAnd
    ensures Agrees(q) <==> Faithful(q)
  {
    var terms := Terms(q);
    TermsFacts(q);
    RequiredIsPositive(q);
    if Faithful(q) {
      forall m: Mask | m != {} && m <= AllBits(|terms|)
        ensures Matched(Prepare(q), m) <==> EvalItem(q, terms, m)
      {
        AndOnMask(q, m);
        if |terms| <= 1 {
          var i :| i in m;
          assert i == 0 && m == AllBits(|terms|);
        }
      }
    } else {
      var m := AndDisagrees(q);
    }
  }

  lemma {:induction false} OrAgrees(q: TsQuery)
    requires Compile(q).shape == PureOr
    ensures Agrees(q) <==> Faithful(q)
  {
    var terms := Terms(q);
    var n := |terms|;
    TermsFacts(q);
    forall m: Mask | m != {} && m <= AllBits(n)
      ensures Matched(Prepare(q), m)
    {
      assert m * AllBits(n) == m;
    }
    if Faithful(q) {
      forall m: Mask | m != {} && m <= AllBits(n)
        ensures EvalItem(q, terms, m)
      {
        var i :| i in m;
        EvalIsSat(q, terms, {i});
        EvalIsSat(q, terms, m);
        SatIsMonotone(q, Lexemes(terms, {i}), Lexemes(terms, m));
      }
    } else {
      var i: nat :| i < n && !EvalItem(q, terms, {i});
      assert {i} <= AllBits(n);
    }
  }

  lemma {:induction false} SingleAgrees(q: TsQuery)
    requires Compile(q).shape == Single
    ensures Agrees(q)
  {
    var terms := Terms(q);
    TermsFacts(q);
    RequiredIsPositive(q);
    forall m: Mask | m != {} && m <= AllBits(1)
      ensures Matched(Prepare(q), m) && EvalItem(q, terms, m)
    {
      var i :| i in m;
      assert m == AllBits(1);
      AllLexemes(terms, m);
      EvalIsSat(q, terms, m);
      SatWithoutOr(q, Lexemes(terms, m));
      assert m * AllBits(1) == m;
    }
  }

  /** Exactly when the compiled form accepts what the recursive evaluator accepts. */
  lemma {:induction false} CompiledAgreesIff(q: TsQuery)
    ensures Agrees(q) <==> Faithful(q)
  {
    match Compile(q).shape
    case Empty =>
    case Single => SingleAgrees(q);
    case PureOr => OrAgrees(q);
    case PureAnd => AndAgrees(q);
    case Mixed =>
  }

  /** Queries without NOT, and without PHRASE where OR occurs, are compiled faithfully. */
  lemma {:induction false} PlainQueriesAgree(q: TsQuery)
    requires !HasNot(q) && (HasOr(q) ==> !HasPhrase(q))
    ensures Agrees(q)
  {
    TermsFacts(q);
    WithoutNot(q);
    if Compile(q).shape == PureOr {
      var terms := Terms(q);
      forall i: nat | i < |terms|
        ensures EvalItem(q, terms, {i})
      {
        EvalIsSat(q, terms, {i});
        assert terms[i] in Elements(terms);
        assert terms[i] in Lexemes(terms, {i});
        OnlyOr(q, Lexemes(terms, {i}));
        assert terms[i] in Required(q) * Lexemes(terms, {i});
      }
    }
    CompiledAgreesIff(q);
  }

  lemma {:induction false} PhraseTerms()
    ensures Terms(Or(Phrase(Val("a"), Val("b")), Val("c"))) == ["c", "b", "a"]
    ensures Compile(Or(Phrase(Val("a"), Val("b")), Val("c"))).shape == PureOr
  {
  }

  lemma {:induction false} OneWordOfPhrase(terms: seq<string>)
    requires terms == ["c", "b", "a"] && Distinct(terms)
    ensures !EvalItem(Or(Phrase(Val("a"), Val("b")), Val("c")), terms, {1})
  {
    EvalIsSat(Or(Phrase(Val("a"), Val("b")), Val("c")), terms, {1});
    assert terms[1] == "b" && Lexemes(terms, {1}) == {"b"};
    assert !Sat(Val("a"), {"b"}) && !Sat(Val("c"), {"b"});
  }

  /** A phrase beside an OR is matched by one of its words alone. */
  lemma {:induction false} PhraseUnderOrDisagrees()
    ensures !Agrees(Or(Phrase(Val("a"), Val("b")), Val("c")))
  {
    var q := Or(Phrase(Val("a"), Val("b")), Val("c"));
    PhraseTerms();
    TermsFacts(q);
    OneWordOfPhrase(Terms(q));
    CompiledAgreesIff(q);
  }

  /** A doubly negated operand is required by the AND mask although the evaluator ignores it. */
  lemma {:induction false} DoubleNegationDisagrees()
    ensures !Agrees(And(Not(Not(Val("a"))), Val("b")))
  {
    var q := And(Not(Not(Val("a"))), Val("b"));
    assert Terms(q) == ["b", "a"];
    TermsFacts(q);
    assert Required(q) == {"b"} && "a" in Positive(q, false);
    CompiledAgreesIff(q);
  }
}
