/** Rendered text parses back to a condition with the meaning of the tree it was rendered from. */
module SqlMeaning {
  import opened SqlExpr
  import opened SqlText

  // ---------------------------------------------------------------- the pieces are properly spaced

  ghost predicate EndsOpen(cs: seq<Chunk>) {
    cs != [] && var last := cs[|cs| - 1]; last.Name? || last.Reserved? || last.Numeral?
  }

  lemma SpacedCat(a: seq<Chunk>, b: seq<Chunk>)
    requires Spaced(a) && Spaced(b) && (EndsOpen(a) && b != [] ==> Separates(b[0]))
    ensures Spaced(a + b)
  {
    forall i | 0 <= i < |a + b| ensures SpacedAt(a + b, i) {
      if i < |a| {
        assert SpacedAt(a, i);
        assert i + 1 < |a| ==> (a + b)[i + 1] == a[i + 1];
        assert i + 1 == |a| && b != [] ==> (a + b)[i + 1] == b[0];
      } else {
        assert SpacedAt(b, i - |a|);
        assert i + 1 < |a + b| ==> (a + b)[i + 1] == b[i - |a| + 1];
      }
    }
  }

  lemma SpacedBracketed(cs: seq<Chunk>)
    requires Spaced(cs)
    ensures Spaced(Bracketed(cs))
  {
    SpacedCat([Mark('(')], cs);
    SpacedCat([Mark('(')] + cs, [Mark(')')]);
  }

  lemma {:induction false} SpacedQuestions(k: nat)
    ensures Spaced(QuestionList(k))
  {
    if k > 1 {
      SpacedQuestions(k - 1);
      SpacedCat([Question, Mark(','), Space], QuestionList(k - 1));
    }
  }

  lemma SpacedCons(a: Chunk, cs: seq<Chunk>)
    requires GoodChunk(a) && Spaced(cs)
    ensures Spaced([a, Space] + cs)
  {
    SpacedCat([a, Space], cs);
  }

  lemma LeafSpaced<V>(e: Expr<V>)
    requires !e.Group? && !e.Not?
    ensures Spaced(Chunks(e))
  {
    match e
    case Compare(_, column, op, _) =>
      SpacedCons(Op(op), [Question]);
      SpacedCons(Name(column), [Op(op), Space] + [Question]);
    case InList(_, column, negated, values) =>
      if values == [] {
        ConstantSpaced(negated);
      } else {
        SpacedQuestions(|values|);
        SpacedBracketed(QuestionList(|values|));
        SpacedCons(Reserved("IN"), Bracketed(QuestionList(|values|)));
        var list := [Reserved("IN"), Space] + Bracketed(QuestionList(|values|));
        SpacedCons(Reserved("NOT"), list);
        SpacedCons(Name(column), if negated then [Reserved("NOT"), Space] + list else list);
      }
    case Between(_, column, _, _) =>
      SpacedCons(Reserved("AND"), [Question]);
      var c1 := [Reserved("AND"), Space] + [Question];
      SpacedCons(Question, c1);
      SpacedCons(Reserved("BETWEEN"), [Question, Space] + c1);
      SpacedCons(Name(column), [Reserved("BETWEEN"), Space] + ([Question, Space] + c1));
    case NullTest(_, column, negated) =>
      var last := [Reserved("NULL")];
      SpacedCons(Reserved("NOT"), last);
      var c1 := if negated then [Reserved("NOT"), Space] + last else last;
      SpacedCons(Reserved("IS"), c1);
      SpacedCons(Name(column), [Reserved("IS"), Space] + c1);
    case Nil =>
  }

  lemma ConstantSpaced(b: bool)
    ensures Spaced(Constant(b))
  {
    var last := [Numeral(if b then "1" else "0")];
    SpacedCons(Mark('='), last);
    SpacedCons(Numeral("1"), [Mark('='), Space] + last);
  }

  lemma {:induction false} ChunksSpaced<V>(e: Expr<V>)
    ensures Spaced(Chunks(e))
    decreases e, 0
  {
    if e.Group? {
      if e.exprs == [] { ConstantSpaced(e.connective.And?); } else { ChunksFromSpaced(e.connective, e.exprs, 0); }
    } else if e.Not? {
      ChunksSpaced(e.expr);
      SpacedBracketed(Chunks(e.expr));
      SpacedCons(Reserved("NOT"), Bracketed(Chunks(e.expr)));
    } else {
      LeafSpaced(e);
    }
  }

  lemma {:induction false} ChunksFromSpaced<V>(c: Connective, es: seq<Expr<V>>, i: nat)
    requires i <= |es|
    ensures Spaced(ChunksFrom(c, es, i))
    decreases es, |es| - i
  {
    if i < |es| {
      ChunksSpaced(es[i]);
      SpacedBracketed(Chunks(es[i]));
      SpacedCat(Glue(c, i), Bracketed(Chunks(es[i])));
      ChunksFromSpaced(c, es, i + 1);
      SpacedCat(Glue(c, i) + Bracketed(Chunks(es[i])), ChunksFrom(c, es, i + 1));
    }
  }

  // ---------------------------------------------------------------- their tokens

  /** The tokens of `e` when its first placeholder is the n-th. */
  ghost function TokensFor<V>(e: Expr<V>, n: nat): seq<Token> { TokensIn(Chunks(e), n) }

  ghost function One(c: Chunk): nat { if c.Question? then 1 else 0 }

  lemma TokensOf2(a: Chunk, b: Chunk, cs: seq<Chunk>, n: nat)
    ensures TokensIn([a, b] + cs, n)
         == ChunkTokens(a, n) + (ChunkTokens(b, n + One(a)) + TokensIn(cs, n + One(a) + One(b)))
    ensures Questions([a, b] + cs) == One(a) + One(b) + Questions(cs)
  {
    var s := [a, b] + cs;
    assert s[1..] == [b] + cs && s[1..][1..] == cs;
  }

  lemma TokensOf1(c: Chunk, n: nat)
    ensures TokensIn([c], n) == ChunkTokens(c, n) && Questions([c]) == One(c)
  {
    assert [c][1..] == [];
    assert ChunkTokens(c, n) + [] == ChunkTokens(c, n);
  }

  ghost function InBrackets(ts: seq<Token>): seq<Token> { [Symbol("(")] + ts + [Symbol(")")] }

  lemma TokensOfBracketed(cs: seq<Chunk>, n: nat)
    ensures TokensIn(Bracketed(cs), n) == InBrackets(TokensIn(cs, n))
    ensures Questions(Bracketed(cs)) == Questions(cs)
  {
    TokensCat([Mark('(')], cs, n);
    TokensCat([Mark('(')] + cs, [Mark(')')], n);
  }

  lemma TokensOfCompare<V>(e: Expr<V>, n: nat)
    requires e.Compare?
    ensures TokensFor(e, n) == [Ident(e.column), OperatorToken(e.op), Hole(n)] && Questions(Chunks(e)) == 1
  {
    TokensOf1(Question, n);
    TokensOf2(Op(e.op), Space, [Question], n);
    TokensOf2(Name(e.column), Space, [Op(e.op), Space] + [Question], n);
  }

  lemma TokensOfConstant(b: bool, n: nat)
    ensures TokensIn(Constant(b), n) == [Number("1"), Symbol("="), Number(if b then "1" else "0")]
    ensures Questions(Constant(b)) == 0
  {
    var last := Numeral(if b then "1" else "0");
    TokensOf1(last, n);
    TokensOf2(Mark('='), Space, [last], n);
    TokensOf2(Numeral("1"), Space, [Mark('='), Space] + [last], n);
  }

  lemma TokensOfBounds(n: nat)
    ensures var cs := [Question, Space] + ([Reserved("AND"), Space] + [Question]);
            TokensIn(cs, n) == [Hole(n), Keyword("AND"), Hole(n + 1)] && Questions(cs) == 2
  {
    TokensOf1(Question, n + 1);
    TokensOf2(Reserved("AND"), Space, [Question], n + 1);
    TokensOf2(Question, Space, [Reserved("AND"), Space] + [Question], n);
  }

  lemma TokensOfBetween<V>(e: Expr<V>, n: nat)
    requires e.Between?
    ensures TokensFor(e, n) == [Ident(e.column), Keyword("BETWEEN"), Hole(n), Keyword("AND"), Hole(n + 1)]
    ensures Questions(Chunks(e)) == 2
  {
    TokensOfBounds(n);
    var bounds := [Question, Space] + ([Reserved("AND"), Space] + [Question]);
    TokensOf2(Reserved("BETWEEN"), Space, bounds, n);
    TokensOf2(Name(e.column), Space, [Reserved("BETWEEN"), Space] + bounds, n);
  }

  ghost function NullTokens(negated: bool): seq<Token> {
    if negated then [Keyword("IS"), Keyword("NOT"), Keyword("NULL")] else [Keyword("IS"), Keyword("NULL")]
  }

  ghost function NullChunks(negated: bool): seq<Chunk> {
    [Reserved("IS"), Space] + (if negated then [Reserved("NOT"), Space] + [Reserved("NULL")] else [Reserved("NULL")])
  }

  lemma TokensOfNull(negated: bool, n: nat)
    ensures TokensIn(NullChunks(negated), n) == NullTokens(negated) && Questions(NullChunks(negated)) == 0
  {
    TokensOf1(Reserved("NULL"), n);
    TokensOf2(Reserved("NOT"), Space, [Reserved("NULL")], n);
    TokensOf2(Reserved("IS"), Space, if negated then [Reserved("NOT"), Space] + [Reserved("NULL")] else [Reserved("NULL")], n);
    hide TokensIn, Questions;
  }

  lemma TokensOfNullTest<V>(e: Expr<V>, n: nat)
    requires e.NullTest?
    ensures TokensFor(e, n) == [Ident(e.column)] + NullTokens(e.negated) && Questions(Chunks(e)) == 0
  {
    assert Chunks(e) == [Name(e.column), Space] + NullChunks(e.negated);
    hide TokensIn, Questions, Chunks, NullChunks, NullTokens;
    TokensOfNull(e.negated, n);
    TokensOf2(Name(e.column), Space, NullChunks(e.negated), n);
    assert [] + NullTokens(e.negated) == NullTokens(e.negated);
  }

  ghost function HoleList(n: nat, k: nat): seq<Token>
    decreases k
  {
    if k == 0 then [] else if k == 1 then [Hole(n)] else [Hole(n), Symbol(",")] + HoleList(n + 1, k - 1)
  }

  lemma TokensOfHoleComma(cs: seq<Chunk>, n: nat)
    ensures TokensIn([Question, Mark(','), Space] + cs, n) == [Hole(n), Symbol(",")] + TokensIn(cs, n + 1)
    ensures Questions([Question, Mark(','), Space] + cs) == 1 + Questions(cs)
  {
    var first := [Question, Mark(',')] + [Space];
    assert first == [Question, Mark(','), Space];
    TokensOf1(Space, n + 1);
    TokensOf2(Question, Mark(','), [Space], n);
    TokensCat(first, cs, n);
    hide TokensIn, Questions;
  }

  lemma {:induction false} TokensOfQuestions(k: nat, n: nat)
    ensures TokensIn(QuestionList(k), n) == HoleList(n, k) && Questions(QuestionList(k)) == k
    decreases k
  {
    if k == 1 {
      TokensOf1(Question, n);
    } else if k > 1 {
      assert QuestionList(k) == [Question, Mark(','), Space] + QuestionList(k - 1);
      assert HoleList(n, k) == [Hole(n), Symbol(",")] + HoleList(n + 1, k - 1);
      hide TokensIn, Questions, QuestionList, HoleList;
      TokensOfQuestions(k - 1, n + 1);
      TokensOfHoleComma(QuestionList(k - 1), n);
    }
  }

  ghost function InTokens(negated: bool): seq<Token> {
    if negated then [Keyword("NOT"), Keyword("IN")] else [Keyword("IN")]
  }

  ghost function InChunks(negated: bool, k: nat): seq<Chunk> {
    var list := [Reserved("IN"), Space] + Bracketed(QuestionList(k));
    if negated then [Reserved("NOT"), Space] + list else list
  }

  lemma TokensOfIn(negated: bool, k: nat, n: nat)
    ensures TokensIn(InChunks(negated, k), n) == InTokens(negated) + InBrackets(HoleList(n, k))
    ensures Questions(InChunks(negated, k)) == k
  {
    TokensOfQuestions(k, n);
    TokensOfBracketed(QuestionList(k), n);
    var list := [Reserved("IN"), Space] + Bracketed(QuestionList(k));
    TokensOf2(Reserved("IN"), Space, Bracketed(QuestionList(k)), n);
    TokensOf2(Reserved("NOT"), Space, list, n);
    hide TokensIn, Questions, Bracketed, QuestionList, HoleList, InBrackets;
    var brackets := InBrackets(HoleList(n, k));
    assert [Keyword("IN")] + ([] + brackets) == [Keyword("IN")] + brackets;
    if negated { CatAssociates([Keyword("NOT")], [Keyword("IN")], brackets); }
  }

  lemma TokensOfInList<V>(e: Expr<V>, n: nat)
    requires e.InList? && e.values != []
    ensures TokensFor(e, n) == [Ident(e.column)] + InTokens(e.negated) + InBrackets(HoleList(n, |e.values|))
    ensures Questions(Chunks(e)) == |e.values|
  {
    var k := |e.values|;
    assert Chunks(e) == [Name(e.column), Space] + InChunks(e.negated, k);
    hide TokensIn, Questions, Chunks, InChunks, HoleList, InTokens, InBrackets;
    TokensOfIn(e.negated, k, n);
    TokensOf2(Name(e.column), Space, InChunks(e.negated, k), n);
    var brackets := InBrackets(HoleList(n, k));
    CatAssociates([Ident(e.column)], InTokens(e.negated), brackets);
    assert [] + TokensIn(InChunks(e.negated, k), n) == TokensIn(InChunks(e.negated, k), n);
  }

  /** The renderer writes one placeholder per argument. */
  lemma {:induction false} QuestionsAreArgs<V>(e: Expr<V>)
    ensures Questions(Chunks(e)) == |Args(e)|
    decreases e, 0
  {
    match e
    case Compare(_, _, _, _) => TokensOfCompare(e, 0);
    case InList(_, _, negated, values) => if values == [] { TokensOfConstant(negated, 0); } else { TokensOfInList(e, 0); }
    case Between(_, _, _, _) => TokensOfBetween(e, 0);
    case NullTest(_, _, _) => TokensOfNullTest(e, 0);
    case Group(c, es) => if es == [] { TokensOfConstant(c.And?, 0); } else { QuestionsFromAreArgs(c, es, 0); }
    case Not(child) =>
      QuestionsAreArgs(child);
      TokensOfBracketed(Chunks(child), 0);
      TokensOf2(Reserved("NOT"), Space, Bracketed(Chunks(child)), 0);
    case Nil =>
  }

  lemma {:induction false} QuestionsFromAreArgs<V>(c: Connective, es: seq<Expr<V>>, i: nat)
    requires i <= |es|
    ensures Questions(ChunksFrom(c, es, i)) == |ArgsFrom(es, i)|
    decreases es, |es| - i
  {
    if i < |es| {
      QuestionsAreArgs(es[i]);
      QuestionsFromAreArgs(c, es, i + 1);
      TokensOfPiece(c, es, i, 0);
    }
  }

  ghost function GlueTokens(c: Connective, i: nat): seq<Token> { if i == 0 then [] else [Keyword(Word(c))] }

  lemma TokensOfGlue(c: Connective, i: nat, n: nat)
    ensures TokensIn(Glue(c, i), n) == GlueTokens(c, i) && Questions(Glue(c, i)) == 0
  {
    if i > 0 {
      assert TokensIn([Space], n) == [] && Questions([Space]) == 0;
      TokensOf2(Space, Reserved(Word(c)), [Space], n);
      assert [Space, Reserved(Word(c))] + [Space] == Glue(c, i);
    }
  }

  lemma TokensOfThree(a: seq<Chunk>, ta: seq<Token>, b: seq<Chunk>, tb: seq<Token>, q: nat, c: seq<Chunk>, n: nat)
    requires Questions(a) == 0 && TokensIn(a, n) == ta && TokensIn(b, n) == tb && Questions(b) == q
    ensures TokensIn(a + b + c, n) == ta + tb + TokensIn(c, n + q)
    ensures Questions(a + b + c) == q + Questions(c)
  {
    TokensCat(a, b, n);
    TokensCat(a + b, c, n);
    hide TokensIn, Questions;
  }

  lemma TokensOfThreeThen(a: seq<Chunk>, ta: seq<Token>, b: seq<Chunk>, tb: seq<Token>, c: seq<Chunk>, n: nat, rest: seq<Token>)
    requires Questions(a) == Questions(b) == 0 && TokensIn(a, n) == ta && TokensIn(b, n) == tb
    ensures TokensIn(a + b + c, n) + rest == ta + (tb + (TokensIn(c, n) + rest))
    ensures Questions(a + b + c) == Questions(c)
  {
    hide TokensIn, Questions;
    TokensOfThree(a, ta, b, tb, 0, c, n);
    Regrouped(ta, tb, TokensIn(c, n), rest);
  }

  lemma Regrouped<T>(a: seq<T>, b: seq<T>, c: seq<T>, e: seq<T>)
    ensures a + b + c + e == a + (b + (c + e))
  {
  }

  lemma TokensOfPiece<V>(c: Connective, es: seq<Expr<V>>, i: nat, n: nat)
    requires i < |es|
    ensures var q := Questions(Chunks(es[i]));
            TokensIn(ChunksFrom(c, es, i), n)
              == GlueTokens(c, i) + InBrackets(TokensFor(es[i], n)) + TokensIn(ChunksFrom(c, es, i + 1), n + q) &&
            Questions(ChunksFrom(c, es, i)) == q + Questions(ChunksFrom(c, es, i + 1))
  {
    hide *;
    ChunksFromIs(c, es, i);
    TokensOfGlue(c, i, n);
    TokensOfBracketed(Chunks(es[i]), n);
    TokensForIs(es[i], n);
    TokensOfThree(Glue(c, i), GlueTokens(c, i), Bracketed(Chunks(es[i])), InBrackets(TokensFor(es[i], n)), Questions(Chunks(es[i])),
                  ChunksFrom(c, es, i + 1), n);
  }

  lemma ChunksFromIs<V>(c: Connective, es: seq<Expr<V>>, i: nat)
    requires i < |es|
    ensures ChunksFrom(c, es, i) == Glue(c, i) + Bracketed(Chunks(es[i])) + ChunksFrom(c, es, i + 1)
  {
    hide Chunks, Glue, Bracketed;
  }

  lemma TokensForIs<V>(e: Expr<V>, n: nat)
    ensures TokensFor(e, n) == TokensIn(Chunks(e), n)
  {
  }

  // ---------------------------------------------------------------- parsing them

  ghost function HoleNumbers(n: nat, k: nat): seq<nat>
    decreases k
  {
    if k == 0 then [] else [n] + HoleNumbers(n + 1, k - 1)
  }

  /** The syntax tree of `e` when its first placeholder is the n-th. */
  ghost function Syntax<V>(e: Expr<V>, n: nat): Sql
    decreases e, 0
  {
    match e
    case Compare(_, column, op, _) => Test(column, op, n)
    case InList(_, column, negated, values) =>
      if values == [] then Literals("1", if negated then "1" else "0") else Within(column, negated, HoleNumbers(n, |values|))
    case Between(_, column, _, _) => Range(column, n, n + 1)
    case NullTest(_, column, negated) => NullCheck(column, negated)
    case Group(c, es) =>
      if es == [] then Literals("1", if c.And? then "1" else "0")
      else SyntaxFrom(c, Syntax(es[0], n), es, 1, n + Questions(Chunks(es[0])))
    case Not(child) => Negation(Syntax(child, n))
    case Nil => Literals("0", "0")
  }

  ghost function SyntaxFrom<V>(c: Connective, left: Sql, es: seq<Expr<V>>, i: nat, n: nat): Sql
    requires i <= |es|
    decreases es, |es| - i
  {
    if i == |es| then left
    else SyntaxFrom(c, Joined(c, left, Syntax(es[i], n)), es, i + 1, n + Questions(Chunks(es[i])))
  }

  ghost predicate NoNil<V>(e: Expr<V>)
    decreases e
  {
    match e
    case Group(_, es) => forall i :: 0 <= i < |es| ==> NoNil(es[i])
    case Not(child) => NoNil(child)
    case Nil => false
    case _ => true
  }

  /** What may follow a complete condition. */
  ghost predicate Ends(rest: seq<Token>) { !Starts(rest, Keyword("AND")) && !Starts(rest, Keyword("OR")) }

  lemma {:induction false} ParsesHoles(column: string, negated: bool, holes: seq<nat>, n: nat, k: nat, rest: seq<Token>)
    requires k > 0
    ensures ParseHoles(column, negated, holes, HoleList(n, k) + ([Symbol(")")] + rest))
         == Parsed(Within(column, negated, holes + HoleNumbers(n, k)), rest)
    decreases k
  {
    var ts := HoleList(n, k) + ([Symbol(")")] + rest);
    if k == 1 {
      assert ts == [Hole(n), Symbol(")")] + rest && ts[2..] == rest;
      assert HoleNumbers(n, 1) == [n];
    } else {
      var tail := HoleList(n + 1, k - 1) + ([Symbol(")")] + rest);
      assert ts == [Hole(n), Symbol(",")] + tail && ts[2..] == tail;
      ParsesHoles(column, negated, holes + [n], n + 1, k - 1, rest);
      assert holes + [n] + HoleNumbers(n + 1, k - 1) == holes + HoleNumbers(n, k);
    }
  }

  lemma ParsesIn(column: string, negated: bool, n: nat, k: nat, rest: seq<Token>)
    requires k > 0
    ensures ParseTest([Ident(column)] + InTokens(negated) + [Symbol("(")] + (HoleList(n, k) + ([Symbol(")")] + rest)))
         == Parsed(Within(column, negated, HoleNumbers(n, k)), rest)
  {
    var list := HoleList(n, k) + ([Symbol(")")] + rest);
    var ts := [Ident(column)] + InTokens(negated) + [Symbol("(")] + list;
    ParsesHoles(column, negated, [], n, k, rest);
    hide ParseHoles, HoleList;
    assert [] + HoleNumbers(n, k) == HoleNumbers(n, k);
    if negated { assert ts[4..] == list; } else { assert ts[3..] == list; }
  }

  lemma Reassociate<T>(a: seq<T>, b: seq<T>, c: seq<T>, e: seq<T>)
    ensures a + (b + c + e) == a + b + (c + e)
    ensures a + (b + (c + e)) == a + b + c + e
    ensures a + (b + c) + e == a + b + (c + e)
  {
  }

  lemma ParsesInList<V>(e: Expr<V>, n: nat, rest: seq<Token>)
    requires e.InList? && e.values != []
    ensures ParseTest(TokensFor(e, n) + rest) == Parsed(Syntax(e, n), rest)
  {
    var k := |e.values|;
    TokensOfInList(e, n);
    ParsesIn(e.column, e.negated, n, k, rest);
    hide ParseTest, HoleList, TokensIn, Chunks;
    Shift([Ident(e.column)] + InTokens(e.negated), [Symbol("(")], HoleList(n, k), [Symbol(")")], rest);
  }

  lemma Shift<T>(a: seq<T>, b: seq<T>, c: seq<T>, e: seq<T>, f: seq<T>)
    ensures a + (b + c + e) + f == a + b + (c + (e + f))
  {
  }

  lemma ParsesCompare<V>(e: Expr<V>, n: nat, rest: seq<Token>)
    requires e.Compare?
    ensures ParseTest(TokensFor(e, n) + rest) == Parsed(Syntax(e, n), rest) && (TokensFor(e, n) + rest)[0].Ident?
  {
    var ts := TokensFor(e, n) + rest;
    TokensOfCompare(e, n);
    assert OperatorOf(OperatorToken(e.op)) == [e.op];
    assert ts[3..] == rest;
    hide TokensIn, Chunks, OperatorOf, OperatorToken;
  }

  lemma ParsesBetween<V>(e: Expr<V>, n: nat, rest: seq<Token>)
    requires e.Between?
    ensures ParseTest(TokensFor(e, n) + rest) == Parsed(Syntax(e, n), rest) && (TokensFor(e, n) + rest)[0].Ident?
  {
    var ts := TokensFor(e, n) + rest;
    TokensOfBetween(e, n);
    assert ts[5..] == rest;
    hide TokensIn, Chunks;
  }

  lemma ParsesNullTest<V>(e: Expr<V>, n: nat, rest: seq<Token>)
    requires e.NullTest?
    ensures ParseTest(TokensFor(e, n) + rest) == Parsed(Syntax(e, n), rest) && (TokensFor(e, n) + rest)[0].Ident?
  {
    var ts := TokensFor(e, n) + rest;
    TokensOfNullTest(e, n);
    if e.negated { assert ts[4..] == rest; } else { assert ts[3..] == rest; }
    hide TokensIn, Chunks;
  }

  lemma ParsesLeaf<V>(e: Expr<V>, n: nat, rest: seq<Token>)
    requires !e.Group? && !e.Not? && !e.Nil?
    ensures var ts := TokensFor(e, n) + rest;
            ParseTest(ts) == Parsed(Syntax(e, n), rest) && |ts| > 0 && (ts[0].Ident? || ts[0].Number?)
  {
    match e
    case Compare(_, _, _, _) => hide ParseTest; ParsesCompare(e, n, rest);
    case InList(_, _, negated, values) =>
      if values == [] {
        TokensOfConstant(negated, n);
        assert (TokensFor(e, n) + rest)[3..] == rest;
      } else {
        hide ParseTest;
        ParsesInList(e, n, rest);
        TokensOfInList(e, n);
      }
    case Between(_, _, _, _) => hide ParseTest; ParsesBetween(e, n, rest);
    case NullTest(_, _, _) => hide ParseTest; ParsesNullTest(e, n, rest);
  }

  lemma ParsesWhole(ts: seq<Token>, sql: Sql, rest: seq<Token>)
    requires ParseNot(ts) == Parsed(sql, rest) && Ends(rest)
    ensures ParseOr(ts) == Parsed(sql, rest)
  {
    assert AndTail(sql, rest) == Parsed(sql, rest);
    assert ParseAnd(ts) == Parsed(sql, rest);
  }

  lemma ParsesBracketed(ts: seq<Token>, sql: Sql, rest: seq<Token>)
    requires ParseOr(ts + ([Symbol(")")] + rest)) == Parsed(sql, [Symbol(")")] + rest)
    ensures ParseNot(InBrackets(ts) + rest) == Parsed(sql, rest)
  {
    var all := InBrackets(ts) + rest;
    assert all[1..] == ts + ([Symbol(")")] + rest);
    assert ([Symbol(")")] + rest)[1..] == rest;
  }

  lemma {:induction false} ParsesExpr<V>(e: Expr<V>, n: nat, rest: seq<Token>)
    requires NoNil(e) && Ends(rest)
    ensures ParseOr(TokensFor(e, n) + rest) == Parsed(Syntax(e, n), rest)
    decreases e, 0
  {
    if e.Group? {
      if e.exprs == [] { ParsesConstant(e.connective.And?, n, rest); } else { ParsesGroup(e.connective, e.exprs, n, rest); }
    } else if e.Not? {
      ParsesExpr(e.expr, n, [Symbol(")")] + rest);
      ParsesNot(e.expr, n, rest);
    } else {
      ParsesLeaf(e, n, rest);
      ParsesWhole(TokensFor(e, n) + rest, Syntax(e, n), rest);
    }
  }

  lemma ParsesConstant(b: bool, n: nat, rest: seq<Token>)
    requires Ends(rest)
    ensures ParseOr(TokensIn(Constant(b), n) + rest) == Parsed(Literals("1", if b then "1" else "0"), rest)
  {
    TokensOfConstant(b, n);
    var ts := TokensIn(Constant(b), n) + rest;
    assert ts[3..] == rest;
    ParsesWhole(ts, Literals("1", if b then "1" else "0"), rest);
  }

  lemma TokensOfKeyword(word: string, cs: seq<Chunk>, n: nat)
    ensures TokensIn([Reserved(word), Space] + cs, n) == [Keyword(word)] + TokensIn(cs, n)
  {
    TokensOf2(Reserved(word), Space, cs, n);
    hide TokensIn;
    assert [] + TokensIn(cs, n) == TokensIn(cs, n);
  }

  lemma TokensOfNot<V>(child: Expr<V>, n: nat)
    ensures TokensFor(Not(child), n) == [Keyword("NOT")] + InBrackets(TokensFor(child, n))
  {
    assert Chunks(Not(child)) == [Reserved("NOT"), Space] + Bracketed(Chunks(child));
    hide TokensIn, Questions, Chunks, Bracketed, InBrackets;
    TokensOfBracketed(Chunks(child), n);
    TokensOfKeyword("NOT", Bracketed(Chunks(child)), n);
  }

  lemma ParseNotStep(ts: seq<Token>, sql: Sql, rest: seq<Token>)
    requires ParseNot(ts) == Parsed(sql, rest)
    ensures ParseNot([Keyword("NOT")] + ts) == Parsed(Negation(sql), rest)
  {
    assert ([Keyword("NOT")] + ts)[1..] == ts;
    assert Starts([Keyword("NOT")] + ts, Keyword("NOT"));
  }

  lemma ParsesNot<V>(child: Expr<V>, n: nat, rest: seq<Token>)
    requires Ends(rest)
    requires ParseOr(TokensFor(child, n) + ([Symbol(")")] + rest)) == Parsed(Syntax(child, n), [Symbol(")")] + rest)
    ensures ParseOr(TokensFor(Not(child), n) + rest) == Parsed(Negation(Syntax(child, n)), rest)
  {
    hide *;
    TokensOfNot(child, n);
    ParsesBracketed(TokensFor(child, n), Syntax(child, n), rest);
    CatAssociates([Keyword("NOT")], InBrackets(TokensFor(child, n)), rest);
    ParseNotStep(InBrackets(TokensFor(child, n)) + rest, Syntax(child, n), rest);
    ParsesWhole(TokensFor(Not(child), n) + rest, Negation(Syntax(child, n)), rest);
  }

  /** The tokens of a group from its i-th member on. */
  ghost function Members<V>(c: Connective, es: seq<Expr<V>>, i: nat, n: nat, rest: seq<Token>): seq<Token>
    requires i <= |es|
  {
    TokensIn(ChunksFrom(c, es, i), n) + rest
  }

  /** One bracketed member of a group. */
  lemma {:induction false} ParsesMember<V>(c: Connective, es: seq<Expr<V>>, i: nat, n: nat, rest: seq<Token>)
    requires i < |es| && NoneNil(es)
    ensures var tail := Members(c, es, i + 1, n + Questions(Chunks(es[i])), rest);
            ParseNot(InBrackets(TokensFor(es[i], n)) + tail) == Parsed(Syntax(es[i], n), tail)
    decreases es, |es| - i, 0
  {
    var tail := Members(c, es, i + 1, n + Questions(Chunks(es[i])), rest);
    ParsesExpr(es[i], n, [Symbol(")")] + tail);
    ParsesBracketed(TokensFor(es[i], n), Syntax(es[i], n), tail);
  }

  lemma MembersShape<V>(c: Connective, es: seq<Expr<V>>, i: nat, n: nat, rest: seq<Token>)
    requires i < |es|
    ensures Members(c, es, i, n, rest)
         == GlueTokens(c, i) + (InBrackets(TokensFor(es[i], n))
                                + Members(c, es, i + 1, n + Questions(Chunks(es[i])), rest))
    ensures i > 0 ==>
              Starts(Members(c, es, i, n, rest), Keyword(Word(c))) &&
              Members(c, es, i, n, rest)[1..]
                == InBrackets(TokensFor(es[i], n)) + Members(c, es, i + 1, n + Questions(Chunks(es[i])), rest)
  {
    TokensOfPiece(c, es, i, n);
    hide TokensIn, ChunksFrom, Chunks, InBrackets;
    var q := Questions(Chunks(es[i]));
    var glue, piece := GlueTokens(c, i), InBrackets(TokensFor(es[i], n));
    Reassociate(glue, piece, TokensIn(ChunksFrom(c, es, i + 1), n + q), rest);
    assert i > 0 ==> (glue + (piece + Members(c, es, i + 1, n + q, rest)))[1..] == piece + Members(c, es, i + 1, n + q, rest);
  }

  lemma AndTailStep(left: Sql, right: Sql, ts: seq<Token>, tail: seq<Token>)
    requires Starts(ts, Keyword("AND")) && ParseNot(ts[1..]) == Parsed(right, tail)
    ensures AndTail(left, ts) == AndTail(Joined(And, left, right), tail)
  {
  }

  lemma OrTailStep(left: Sql, right: Sql, ts: seq<Token>, tail: seq<Token>)
    requires Starts(ts, Keyword("OR")) && ParseNot(ts[1..]) == Parsed(right, tail) && !Starts(tail, Keyword("AND"))
    ensures OrTail(left, ts) == OrTail(Joined(Or, left, right), tail)
  {
    assert AndTail(right, tail) == Parsed(right, tail);
    assert ParseAnd(ts[1..]) == Parsed(right, tail);
  }

  ghost predicate NoneNil<V>(es: seq<Expr<V>>) { forall k :: 0 <= k < |es| ==> NoNil(es[k]) }

  lemma MembersGlue<V>(c: Connective, es: seq<Expr<V>>, i: nat, n: nat, rest: seq<Token>)
    requires 1 <= i < |es|
    ensures Members(c, es, i, n, rest) != []
    ensures c.And? ==> Starts(Members(c, es, i, n, rest), Keyword("AND"))
    ensures c.Or? ==> Starts(Members(c, es, i, n, rest), Keyword("OR"))
  {
    assert Word(And) == "AND" && Word(Or) == "OR";
    hide Members, Chunks, Questions, InBrackets, TokensFor, GlueTokens, Word;
    MembersShape(c, es, i, n, rest);
  }

  /** From the second member on, what follows the connective is one condition. */
  lemma {:induction false} MemberParses<V>(c: Connective, es: seq<Expr<V>>, i: nat, n: nat, rest: seq<Token>)
    requires 1 <= i < |es| && NoneNil(es)
    ensures Members(c, es, i, n, rest) != []
    ensures ParseNot(Members(c, es, i, n, rest)[1..])
         == Parsed(Syntax(es[i], n), Members(c, es, i + 1, n + Questions(Chunks(es[i])), rest))
    decreases es, |es| - i, 1
  {
    hide *;
    MembersGlue(c, es, i, n, rest);
    MembersShape(c, es, i, n, rest);
    ParsesMember(c, es, i, n, rest);
  }

  lemma {:induction false} AndMembersStep<V>(left: Sql, es: seq<Expr<V>>, i: nat, n: nat, rest: seq<Token>)
    requires 1 <= i < |es| && NoneNil(es) && Ends(rest)
    ensures AndTail(left, Members(And, es, i, n, rest))
         == AndTail(Joined(And, left, Syntax(es[i], n)), Members(And, es, i + 1, n + Questions(Chunks(es[i])), rest))
    decreases es, |es| - i, 2
  {
    hide *;
    MembersGlue(And, es, i, n, rest);
    MemberParses(And, es, i, n, rest);
    AndTailStep(left, Syntax(es[i], n), Members(And, es, i, n, rest), Members(And, es, i + 1, n + Questions(Chunks(es[i])), rest));
  }

  lemma MembersEnd<V>(c: Connective, es: seq<Expr<V>>, n: nat, rest: seq<Token>)
    ensures Members(c, es, |es|, n, rest) == rest
  {
    assert [] + rest == rest;
  }

  /** The members after the first: the loop of the connective takes them all, left to right. */
  lemma {:induction false} ParsesAndMembers<V>(left: Sql, es: seq<Expr<V>>, i: nat, n: nat, rest: seq<Token>)
    requires 1 <= i <= |es| && NoneNil(es) && Ends(rest)
    ensures AndTail(left, Members(And, es, i, n, rest)) == Parsed(SyntaxFrom(And, left, es, i, n), rest)
    decreases es, |es| - i, 3
  {
    if i == |es| {
      MembersEnd(And, es, n, rest);
    } else {
      var joined, m := Joined(And, left, Syntax(es[i], n)), n + Questions(Chunks(es[i]));
      assert SyntaxFrom(And, left, es, i, n) == SyntaxFrom(And, joined, es, i + 1, m);
      hide *;
      AndMembersStep(left, es, i, n, rest);
      ParsesAndMembers(joined, es, i + 1, m, rest);
    }
  }

  lemma NotAnd<V>(es: seq<Expr<V>>, i: nat, n: nat, rest: seq<Token>)
    requires 1 <= i <= |es| && Ends(rest)
    ensures !Starts(Members(Or, es, i, n, rest), Keyword("AND"))
  {
    if i == |es| {
      assert Members(Or, es, i, n, rest) == rest;
    } else {
      MembersShape(Or, es, i, n, rest);
    }
  }

  lemma {:induction false} OrMembersStep<V>(left: Sql, es: seq<Expr<V>>, i: nat, n: nat, rest: seq<Token>)
    requires 1 <= i < |es| && NoneNil(es) && Ends(rest)
    ensures OrTail(left, Members(Or, es, i, n, rest))
         == OrTail(Joined(Or, left, Syntax(es[i], n)), Members(Or, es, i + 1, n + Questions(Chunks(es[i])), rest))
    decreases es, |es| - i, 2
  {
    hide *;
    MembersGlue(Or, es, i, n, rest);
    MemberParses(Or, es, i, n, rest);
    NotAnd(es, i + 1, n + Questions(Chunks(es[i])), rest);
    OrTailStep(left, Syntax(es[i], n), Members(Or, es, i, n, rest), Members(Or, es, i + 1, n + Questions(Chunks(es[i])), rest));
  }

  lemma {:induction false} ParsesOrMembers<V>(left: Sql, es: seq<Expr<V>>, i: nat, n: nat, rest: seq<Token>)
    requires 1 <= i <= |es| && NoneNil(es) && Ends(rest)
    ensures OrTail(left, Members(Or, es, i, n, rest)) == Parsed(SyntaxFrom(Or, left, es, i, n), rest)
    decreases es, |es| - i, 3
  {
    if i == |es| {
      MembersEnd(Or, es, n, rest);
    } else {
      var joined, m := Joined(Or, left, Syntax(es[i], n)), n + Questions(Chunks(es[i]));
      assert SyntaxFrom(Or, left, es, i, n) == SyntaxFrom(Or, joined, es, i + 1, m);
      hide *;
      OrMembersStep(left, es, i, n, rest);
      ParsesOrMembers(joined, es, i + 1, m, rest);
    }
  }

  lemma ParsesFromFirst(c: Connective, ts: seq<Token>, first: Sql, tail: seq<Token>, sql: Sql, rest: seq<Token>)
    requires ParseNot(ts) == Parsed(first, tail) && Ends(rest)
    requires c.And? ==> AndTail(first, tail) == Parsed(sql, rest)
    requires c.Or? ==> !Starts(tail, Keyword("AND")) && OrTail(first, tail) == Parsed(sql, rest)
    ensures ParseOr(ts) == Parsed(sql, rest)
  {
    if c.And? {
      assert ParseAnd(ts) == Parsed(sql, rest);
    } else {
      assert AndTail(first, tail) == Parsed(first, tail);
      assert ParseAnd(ts) == Parsed(first, tail);
    }
  }

  lemma {:induction false} ParsesGroup<V>(c: Connective, es: seq<Expr<V>>, n: nat, rest: seq<Token>)
    requires es != [] && NoneNil(es) && Ends(rest)
    ensures ParseOr(Members(c, es, 0, n, rest))
         == Parsed(SyntaxFrom(c, Syntax(es[0], n), es, 1, n + Questions(Chunks(es[0]))), rest)
    decreases es, |es| + 1
  {
    hide TokensIn, ChunksFrom, Chunks, Members, ParseOr, ParseNot, ParseAnd, AndTail, OrTail, Syntax, SyntaxFrom;
    var m := n + Questions(Chunks(es[0]));
    MembersShape(c, es, 0, n, rest);
    ParsesMember(c, es, 0, n, rest);
    var first := InBrackets(TokensFor(es[0], n)) + Members(c, es, 1, m, rest);
    assert GlueTokens(c, 0) + first == first;
    if c.And? {
      ParsesAndMembers(Syntax(es[0], n), es, 1, m, rest);
    } else {
      ParsesOrMembers(Syntax(es[0], n), es, 1, m, rest);
      NotAnd(es, 1, m, rest);
    }
    ParsesFromFirst(c, Members(c, es, 0, n, rest), Syntax(es[0], n), Members(c, es, 1, m, rest),
                    SyntaxFrom(c, Syntax(es[0], n), es, 1, m), rest);
  }

  // ---------------------------------------------------------------- evaluating them

  /** The arguments of `e` are where its placeholders point. */
  ghost predicate Bound<V>(args: seq<V>, n: nat, mine: seq<V>) {
    n + |mine| <= |args| && args[n..n + |mine|] == mine
  }

  lemma {:induction false} AnyHoleIsAnyEqual<V>(sem: Sem<V>, x: V, args: seq<V>, n: nat, values: seq<V>)
    requires Bound(args, n, values)
    ensures AnyHole(sem, x, args, HoleNumbers(n, |values|)) == AnyEqual(sem, x, values)
    decreases values
  {
    if values != [] {
      assert args[n] == args[n..n + |values|][0] == values[0];
      assert args[n + 1..n + 1 + |values[1..]|] == args[n..n + |values|][1..] == values[1..];
      AnyHoleIsAnyEqual(sem, x, args, n + 1, values[1..]);
      var holes := HoleNumbers(n, |values|);
      assert holes[0] == n && holes[1..] == HoleNumbers(n + 1, |values[1..]|);
    }
  }

  lemma EvalsLeaf<V>(sem: Sem<V>, row: string -> V, args: seq<V>, e: Expr<V>, n: nat)
    requires !e.Group? && !e.Not? && !e.Nil? && Bound(args, n, Args(e))
    ensures Eval(sem, row, args, Syntax(e, n)) == Meaning(sem, row, e)
  {
    match e
    case Compare(_, _, _, value) => assert args[n] == args[n..n + 1][0];
    case InList(_, column, _, values) => AnyHoleIsAnyEqual(sem, row(column), args, n, values);
    case Between(_, _, _, _) => assert args[n] == args[n..n + 2][0] && args[n + 1] == args[n..n + 2][1];
    case NullTest(_, _, _) =>
  }

  lemma GroupUnroll<V>(sem: Sem<V>, row: string -> V, c: Connective, es: seq<Expr<V>>, n: nat)
    requires es != []
    ensures var e := Group(c, es);
            Args(e) == Args(es[0]) + ArgsFrom(es, 1) &&
            Syntax(e, n) == SyntaxFrom(c, Syntax(es[0], n), es, 1, n + Questions(Chunks(es[0]))) &&
            Meaning(sem, row, e) == Connect(c, Meaning(sem, row, es[0]), MeaningFrom(sem, row, c, es, 1))
  {
  }

  lemma {:induction false} EvalsExpr<V>(sem: Sem<V>, row: string -> V, args: seq<V>, e: Expr<V>, n: nat)
    requires NoNil(e) && Bound(args, n, Args(e))
    ensures Eval(sem, row, args, Syntax(e, n)) == Meaning(sem, row, e)
    decreases e, 0
  {
    if e.Group? {
      if e.exprs != [] { EvalsGroup(sem, row, args, e.connective, e.exprs, n); }
    } else if e.Not? {
      EvalsExpr(sem, row, args, e.expr, n);
    } else {
      EvalsLeaf(sem, row, args, e, n);
    }
  }

  lemma {:induction false} EvalsGroup<V>(sem: Sem<V>, row: string -> V, args: seq<V>, c: Connective, es: seq<Expr<V>>, n: nat)
    requires es != [] && NoneNil(es) && Bound(args, n, Args(Group(c, es)))
    ensures Eval(sem, row, args, Syntax(Group(c, es), n)) == Meaning(sem, row, Group(c, es))
    decreases es, |es| + 1
  {
    GroupUnroll(sem, row, c, es, n);
    assert NoNil(es[0]);
    hide *;
    QuestionsAreArgs(es[0]);
    var k := |Args(es[0])|;
    BoundSplits(args, n, Args(es[0]), ArgsFrom(es, 1));
    EvalsExpr(sem, row, args, es[0], n);
    EvalsMembers(sem, row, args, c, Syntax(es[0], n), es, 1, n + k);
  }

  lemma BoundSplits<V>(args: seq<V>, n: nat, a: seq<V>, b: seq<V>)
    requires Bound(args, n, a + b)
    ensures Bound(args, n, a) && Bound(args, n + |a|, b)
  {
    var mine := args[n..n + |a + b|];
    assert args[n..n + |a|] == mine[..|a|] && args[n + |a|..n + |a| + |b|] == mine[|a|..];
  }

  lemma MembersUnroll<V>(
    sem: Sem<V>, row: string -> V, args: seq<V>, c: Connective, left: Sql, es: seq<Expr<V>>, i: nat, n: nat)
    requires i < |es| && Questions(Chunks(es[i])) == |Args(es[i])|
    ensures var joined := Joined(c, left, Syntax(es[i], n));
            ArgsFrom(es, i) == Args(es[i]) + ArgsFrom(es, i + 1) &&
            SyntaxFrom(c, left, es, i, n) == SyntaxFrom(c, joined, es, i + 1, n + |Args(es[i])|) &&
            Eval(sem, row, args, joined) == Connect(c, Eval(sem, row, args, left), Eval(sem, row, args, Syntax(es[i], n))) &&
            MeaningFrom(sem, row, c, es, i) == Connect(c, Meaning(sem, row, es[i]), MeaningFrom(sem, row, c, es, i + 1))
  {
    hide Connect, Questions, Chunks, Args, Meaning, Syntax;
  }

  lemma {:induction false} EvalsMembers<V>(
    sem: Sem<V>, row: string -> V, args: seq<V>, c: Connective, left: Sql, es: seq<Expr<V>>, i: nat, n: nat)
    requires 1 <= i <= |es| && NoneNil(es) && Bound(args, n, ArgsFrom(es, i))
    ensures Eval(sem, row, args, SyntaxFrom(c, left, es, i, n))
         == Connect(c, Eval(sem, row, args, left), MeaningFrom(sem, row, c, es, i))
    decreases es, |es| - i
  {
    if i == |es| {
      ConnectNeutral(c, Eval(sem, row, args, left));
    } else {
      assert NoNil(es[i]);
      hide *;
      QuestionsAreArgs(es[i]);
      MembersUnroll(sem, row, args, c, left, es, i, n);
      BoundSplits(args, n, Args(es[i]), ArgsFrom(es, i + 1));
      EvalsExpr(sem, row, args, es[i], n);
      EvalsMembers(sem, row, args, c, Joined(c, left, Syntax(es[i], n)), es, i + 1, n + |Args(es[i])|);
      ConnectAssociative(c, Eval(sem, row, args, left), Meaning(sem, row, es[i]), MeaningFrom(sem, row, c, es, i + 1));
    }
  }

  lemma ConnectNeutral(c: Connective, a: Truth)
    ensures Connect(c, a, Neutral(c)) == Connect(c, Neutral(c), a) == a
  {
  }

  lemma ConnectAssociative(c: Connective, x: Truth, y: Truth, z: Truth)
    ensures Connect(c, Connect(c, x, y), z) == Connect(c, x, Connect(c, y, z))
  {
  }

  // ---------------------------------------------------------------- when rendering fails

  /** Every leaf names a column and no expression is nil. */
  ghost predicate Renderable<V>(e: Expr<V>)
    decreases e
  {
    match e
    case Group(_, es) => forall i :: 0 <= i < |es| ==> Renderable(es[i])
    case Not(child) => Renderable(child)
    case Nil => false
    case _ => e.column != ""
  }

  lemma {:induction false} RendersExactly<V>(d: Dialect, e: Expr<V>)
    ensures Render(d, e).Rendered? <==> Renderable(e)
    decreases e, 0
  {
    match e
    case Group(c, es) => if es != [] { RendersFromExactly(d, c, es, 0); }
    case Not(child) => RendersExactly(d, child);
    case _ =>
  }

  lemma {:induction false} RendersFromExactly<V>(d: Dialect, c: Connective, es: seq<Expr<V>>, i: nat)
    requires i <= |es|
    ensures RenderFrom(d, c, es, i).Rendered? <==> forall k :: i <= k < |es| ==> Renderable(es[k])
    decreases es, |es| - i
  {
    if i < |es| {
      RendersExactly(d, es[i]);
      RendersFromExactly(d, c, es, i + 1);
    }
  }

  lemma {:induction false} RenderableHasNoNil<V>(e: Expr<V>)
    requires Renderable(e)
    ensures NoNil(e)
    decreases e
  {
    match e
    case Group(_, es) => forall k | 0 <= k < |es| ensures NoNil(es[k]) { RenderableHasNoNil(es[k]); }
    case Not(child) => RenderableHasNoNil(child);
    case _ =>
  }

  // ---------------------------------------------------------------- when BuildWhere fails

  /** A leaf of the tree is about this column. */
  ghost predicate HasLeaf<V>(e: Expr<V>, owner: string, column: string)
    decreases e
  {
    match e
    case Group(_, es) => exists i :: 0 <= i < |es| && HasLeaf(es[i], owner, column)
    case Not(child) => HasLeaf(child, owner, column)
    case Nil => false
    case _ => e.owner == owner && e.column == column
  }

  ghost predicate LeavesAllowed<V>(e: Expr<V>, allowed: Columns) {
    forall owner, column :: HasLeaf(e, owner, column) ==> owner + "\0" + column in allowed || (owner == "" && column in allowed)
  }

  ghost predicate LeavesNamed<V>(e: Expr<V>) { forall owner, column :: HasLeaf(e, owner, column) ==> column != "" }

  lemma LeavesOfMember<V>(e: Expr<V>, i: nat)
    requires e.Group? && i < |e.exprs|
    ensures forall owner, column :: HasLeaf(e.exprs[i], owner, column) ==> HasLeaf(e, owner, column)
  {
  }

  lemma {:induction false} AllowedExactly<V>(e: Expr<V>, allowed: Columns)
    ensures ColumnsAllowed(e, allowed) <==> NoNil(e) && LeavesAllowed(e, allowed)
    decreases e
  {
    match e
    case Group(_, es) =>
      forall i | 0 <= i < |es|
        ensures ColumnsAllowed(es[i], allowed) <==> NoNil(es[i]) && LeavesAllowed(es[i], allowed)
        ensures LeavesAllowed(e, allowed) ==> LeavesAllowed(es[i], allowed)
      {
        AllowedExactly(es[i], allowed);
        LeavesOfMember(e, i);
      }
    case Not(child) =>
      AllowedExactly(child, allowed);
      assert forall owner, column :: HasLeaf(e, owner, column) <==> HasLeaf(child, owner, column);
    case Nil =>
    case _ =>
      assert ColumnsAllowed(e, allowed) <==> AllowedColumn(e.owner, e.column, allowed);
      assert HasLeaf(e, e.owner, e.column);
  }

  lemma {:induction false} RenderableExactly<V>(e: Expr<V>)
    ensures Renderable(e) <==> NoNil(e) && LeavesNamed(e)
    decreases e
  {
    match e
    case Group(_, es) =>
      forall i | 0 <= i < |es|
        ensures Renderable(es[i]) <==> NoNil(es[i]) && LeavesNamed(es[i])
        ensures LeavesNamed(e) ==> LeavesNamed(es[i])
      {
        RenderableExactly(es[i]);
        LeavesOfMember(e, i);
      }
      assert NoNil(e) && LeavesNamed(e) ==> forall i :: 0 <= i < |es| ==> NoNil(es[i]) && Renderable(es[i]);
      if Renderable(e) {
        forall owner, column | HasLeaf(e, owner, column) ensures column != "" {
          var i :| 0 <= i < |es| && HasLeaf(es[i], owner, column);
          assert Renderable(es[i]);
        }
      }
    case Not(child) =>
      RenderableExactly(child);
      assert forall owner, column :: HasLeaf(e, owner, column) <==> HasLeaf(child, owner, column);
    case Nil =>
    case _ => assert HasLeaf(e, e.owner, e.column);
  }

  /** A WHERE clause is written exactly when there are no expressions, or none is nil, at any depth, and every
      leaf names a column the model admits. */
  lemma BuildWhereExactly<V>(d: Dialect, exprs: seq<Expr<V>>, allowed: Columns)
    ensures BuildWhere(d, exprs, allowed).Rendered? <==>
            exprs == [] || var e := Group(And, exprs); NoNil(e) && LeavesNamed(e) && LeavesAllowed(e, allowed)
  {
    var e := Group(And, exprs);
    AllowedExactly(e, allowed);
    RenderableExactly(e);
    RendersExactly(d, e);
    hide Render, ColumnsAllowed, Renderable, NoNil, LeavesNamed, LeavesAllowed;
  }

  // ---------------------------------------------------------------- the theorem about WHERE

  /** Reads a whole condition, with every placeholder accounted for. */
  ghost predicate Means<V>(sem: Sem<V>, row: string -> V, d: Dialect, text: string, args: seq<V>, truth: Truth) {
    var lexed := Lex(d, text, 0);
    lexed.Tokens? &&
    var parsed := ParseOr(lexed.tokens);
    parsed.Parsed? && parsed.rest == [] && Eval(sem, row, args, parsed.sql) == truth
  }

  lemma LexedNothing(d: Dialect, ts: seq<Token>, n: nat)
    ensures Prepend(ts, Lex(d, [], n)) == Tokens(ts)
  {
    assert ts + [] == ts;
  }

  lemma RenderLexes<V>(d: Dialect, e: Expr<V>)
    requires Render(d, e).Rendered?
    ensures Render(d, e).args == Args(e) && Lex(d, Render(d, e).text, 0) == Tokens(TokensFor(e, 0))
  {
    var cs := Chunks(e);
    hide Render, Chunks, Text, TokensIn, Lex, Args, Spaced, Questions;
    RenderIsText(d, e);
    ChunksSpaced(e);
    LexText(d, cs, [], 0);
    assert Text(d, cs) + [] == Text(d, cs);
    LexedNothing(d, TokensIn(cs, 0), Questions(cs));
  }

  /** Compilation preserves meaning: in both dialects, for every tree, every row and every notion of
      comparison, the rendered text read back as SQL and evaluated with the returned arguments has the
      truth value of the tree. */
  lemma RenderKeepsMeaning<V>(sem: Sem<V>, row: string -> V, d: Dialect, e: Expr<V>)
    requires Render(d, e).Rendered?
    ensures var r := Render(d, e); Means(sem, row, d, r.text, r.args, Meaning(sem, row, e))
  {
    assert Args(e)[0..|Args(e)|] == Args(e);
    hide Render, Chunks, TokensIn, Lex, ParseOr, Syntax, Eval, Meaning, Args, NoNil, Renderable;
    RenderLexes(d, e);
    RendersExactly(d, e);
    RenderableHasNoNil(e);
    ParsesExpr(e, 0, []);
    assert TokensFor(e, 0) + [] == TokensFor(e, 0);
    EvalsExpr(sem, row, Args(e), e, 0);
  }

  lemma WhereKeepsMeaning<V>(sem: Sem<V>, row: string -> V, d: Dialect, exprs: seq<Expr<V>>, allowed: Columns)
    requires exprs != [] && BuildWhere(d, exprs, allowed).Rendered?
    ensures var r := BuildWhere(d, exprs, allowed);
            |r.text| >= 7 && r.text[..7] == " WHERE " &&
            Means(sem, row, d, r.text[7..], r.args, Meaning(sem, row, Group(And, exprs)))
  {
    RenderKeepsMeaning(sem, row, d, Group(And, exprs));
    var text := Render(d, Group(And, exprs)).text;
    assert (" WHERE " + text)[7..] == text;
  }
}
