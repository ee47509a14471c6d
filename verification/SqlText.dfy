/** Reading rendered SQL back: a lexer and a recursive-descent parser for the predicate grammar of SQL
    (NOT binds tighter than AND, AND tighter than OR), its evaluation with positional arguments, and the
    proof that text rendered by `SqlExpr` means what its tree means. */
module SqlText {
  import opened SqlExpr

  // ---------------------------------------------------------------- the lexer

  /** A placeholder carries its position among the placeholders of the text. */
  datatype Token = Ident(name: string) | Keyword(word: string) | Number(digits: string) | Symbol(text: string) | Hole(index: nat)

  datatype Lexed = Tokens(tokens: seq<Token>) | BadText

  function Cons(t: Token, r: Lexed): Lexed { if r.Tokens? then Tokens([t] + r.tokens) else BadText }

  function Prepend(ts: seq<Token>, r: Lexed): Lexed { if r.Tokens? then Tokens(ts + r.tokens) else BadText }

  predicate IsLetter(c: char) { 'A' <= c <= 'Z' || 'a' <= c <= 'z' || c == '_' }

  predicate IsDigit(c: char) { '0' <= c <= '9' }

  function Letters(s: string): (k: nat)
    ensures k <= |s|
  {
    if s == [] || !IsLetter(s[0]) then 0 else 1 + Letters(s[1..])
  }

  function Digits(s: string): (k: nat)
    ensures k <= |s|
  {
    if s == [] || !IsDigit(s[0]) then 0 else 1 + Digits(s[1..])
  }

  datatype Unquoted = Unquoted(name: string, rest: string) | Unterminated

  /** Reads up to the closing mark; two marks stand for one. */
  function Unquote(mark: char, s: string): (r: Unquoted)
    ensures r.Unquoted? ==> |r.rest| < |s|
  {
    if s == [] then Unterminated
    else if s[0] != mark then
      var r := Unquote(mark, s[1..]);
      if r.Unquoted? then Unquoted([s[0]] + r.name, r.rest) else Unterminated
    else if |s| > 1 && s[1] == mark then
      var r := Unquote(mark, s[2..]);
      if r.Unquoted? then Unquoted([mark] + r.name, r.rest) else Unterminated
    else Unquoted("", s[1..])
  }

  predicate TwoCharSymbol(s: string) { |s| >= 2 && (s[..2] == "<>" || s[..2] == "<=" || s[..2] == ">=") }

  predicate OneCharSymbol(c: char) { c in {'(', ')', ',', '.', '+', '-', '=', '<', '>'} }

  function Lex(d: Dialect, s: string, n: nat): Lexed
    decreases |s|
  {
    if s == [] then Tokens([])
    else if s[0] == ' ' then Lex(d, s[1..], n)
    else if s[0] == '?' then Cons(Hole(n), Lex(d, s[1..], n + 1))
    else if s[0] == QuoteMark(d) then
      var r := Unquote(QuoteMark(d), s[1..]);
      if r.Unquoted? then Cons(Ident(r.name), Lex(d, r.rest, n)) else BadText
    else if IsLetter(s[0]) then Cons(Keyword(s[..Letters(s)]), Lex(d, s[Letters(s)..], n))
    else if IsDigit(s[0]) then Cons(Number(s[..Digits(s)]), Lex(d, s[Digits(s)..], n))
    else if TwoCharSymbol(s) then Cons(Symbol(s[..2]), Lex(d, s[2..], n))
    else if OneCharSymbol(s[0]) then Cons(Symbol(s[..1]), Lex(d, s[1..], n))
    else BadText
  }

  // ---------------------------------------------------------------- the parser

  datatype Sql =
    | Literals(left: string, right: string)
    | Test(column: string, op: Comparison, hole: nat)
    | Within(column: string, negated: bool, holes: seq<nat>)
    | Range(column: string, low: nat, high: nat)
    | NullCheck(column: string, negated: bool)
    | Joined(connective: Connective, left_: Sql, right_: Sql)
    | Negation(sql: Sql)

  datatype Parsed = Parsed(sql: Sql, rest: seq<Token>) | NoParse

  predicate Starts(ts: seq<Token>, t: Token) { ts != [] && ts[0] == t }

  function ParseOr(ts: seq<Token>): (r: Parsed)
    ensures r.Parsed? ==> |r.rest| < |ts|
    decreases |ts|, 4
  {
    match ParseAnd(ts)
    case NoParse => NoParse
    case Parsed(a, rest) => OrTail(a, rest)
  }

  function OrTail(a: Sql, ts: seq<Token>): (r: Parsed)
    ensures r.Parsed? ==> |r.rest| <= |ts|
    decreases |ts|, 5
  {
    if Starts(ts, Keyword("OR")) then
      match ParseAnd(ts[1..])
      case NoParse => NoParse
      case Parsed(b, rest) => OrTail(Joined(Or, a, b), rest)
    else Parsed(a, ts)
  }

  function ParseAnd(ts: seq<Token>): (r: Parsed)
    ensures r.Parsed? ==> |r.rest| < |ts|
    decreases |ts|, 3
  {
    match ParseNot(ts)
    case NoParse => NoParse
    case Parsed(a, rest) => AndTail(a, rest)
  }

  function AndTail(a: Sql, ts: seq<Token>): (r: Parsed)
    ensures r.Parsed? ==> |r.rest| <= |ts|
    decreases |ts|, 4
  {
    if Starts(ts, Keyword("AND")) then
      match ParseNot(ts[1..])
      case NoParse => NoParse
      case Parsed(b, rest) => AndTail(Joined(And, a, b), rest)
    else Parsed(a, ts)
  }

  function ParseNot(ts: seq<Token>): (r: Parsed)
    ensures r.Parsed? ==> |r.rest| < |ts|
    decreases |ts|, 2
  {
    if Starts(ts, Keyword("NOT")) then
      match ParseNot(ts[1..])
      case NoParse => NoParse
      case Parsed(a, rest) => Parsed(Negation(a), rest)
    else if Starts(ts, Symbol("(")) then
      match ParseOr(ts[1..])
      case NoParse => NoParse
      case Parsed(a, rest) => if Starts(rest, Symbol(")")) then Parsed(a, rest[1..]) else NoParse
    else ParseTest(ts)
  }

  function OperatorOf(t: Token): (r: seq<Comparison>)
    ensures |r| <= 1
  {
    if t == Symbol("=") then [Eq]
    else if t == Symbol("<>") then [Ne]
    else if t == Symbol(">") then [Gt]
    else if t == Symbol(">=") then [Gte]
    else if t == Symbol("<") then [Lt]
    else if t == Symbol("<=") then [Lte]
    else if t == Keyword("LIKE") then [Like]
    else []
  }

  function ParseTest(ts: seq<Token>): (r: Parsed)
    ensures r.Parsed? ==> |r.rest| < |ts|
  {
    if |ts| < 3 then NoParse
    else if ts[0].Number? && ts[1] == Symbol("=") && ts[2].Number? then Parsed(Literals(ts[0].digits, ts[2].digits), ts[3..])
    else if !ts[0].Ident? then NoParse
    else if |OperatorOf(ts[1])| == 1 && ts[2].Hole? then Parsed(Test(ts[0].name, OperatorOf(ts[1])[0], ts[2].index), ts[3..])
    else if ts[1] == Keyword("IS") && ts[2] == Keyword("NULL") then Parsed(NullCheck(ts[0].name, false), ts[3..])
    else if ts[1] == Keyword("IS") && ts[2] == Keyword("NOT") && |ts| >= 4 && ts[3] == Keyword("NULL") then
      Parsed(NullCheck(ts[0].name, true), ts[4..])
    else if ts[1] == Keyword("BETWEEN") && |ts| >= 5 && ts[2].Hole? && ts[3] == Keyword("AND") && ts[4].Hole? then
      Parsed(Range(ts[0].name, ts[2].index, ts[4].index), ts[5..])
    else if ts[1] == Keyword("IN") && ts[2] == Symbol("(") then ParseHoles(ts[0].name, false, [], ts[3..])
    else if ts[1] == Keyword("NOT") && ts[2] == Keyword("IN") && |ts| >= 4 && ts[3] == Symbol("(") then
      ParseHoles(ts[0].name, true, [], ts[4..])
    else NoParse
  }

  /** The rest of a list of placeholders after `(` or `,`. */
  function ParseHoles(column: string, negated: bool, holes: seq<nat>, ts: seq<Token>): (r: Parsed)
    ensures r.Parsed? ==> |r.rest| < |ts|
    decreases |ts|
  {
    if |ts| < 2 || !ts[0].Hole? then NoParse
    else if ts[1] == Symbol(")") then Parsed(Within(column, negated, holes + [ts[0].index]), ts[2..])
    else if ts[1] == Symbol(",") then ParseHoles(column, negated, holes + [ts[0].index], ts[2..])
    else NoParse
  }

  // ---------------------------------------------------------------- evaluation

  ghost function TestValue<V>(sem: Sem<V>, x: V, op: Comparison, args: seq<V>, hole: nat): Truth {
    if hole < |args| then sem.compare(op, x, args[hole]) else Unknown
  }

  ghost function AnyHole<V>(sem: Sem<V>, x: V, args: seq<V>, holes: seq<nat>): Truth {
    if holes == [] then False else Or3(TestValue(sem, x, Eq, args, holes[0]), AnyHole(sem, x, args, holes[1..]))
  }

  /** SQL evaluation of a condition on a row, the k-th placeholder standing for the k-th argument. */
  ghost function Eval<V>(sem: Sem<V>, row: string -> V, args: seq<V>, sql: Sql): Truth {
    match sql
    case Literals(a, b) => if a == b then True else False
    case Test(column, op, hole) => TestValue(sem, row(column), op, args, hole)
    case Within(column, negated, holes) =>
      var any := AnyHole(sem, row(column), args, holes);
      if negated then Not3(any) else any
    case Range(column, low, high) =>
      And3(TestValue(sem, row(column), Gte, args, low), TestValue(sem, row(column), Lte, args, high))
    case NullCheck(column, negated) => if sem.isNull(row(column)) != negated then True else False
    case Joined(c, a, b) => Connect(c, Eval(sem, row, args, a), Eval(sem, row, args, b))
    case Negation(a) => Not3(Eval(sem, row, args, a))
  }

  // ---------------------------------------------------------------- the pieces of rendered text

  datatype Chunk = Name(name: string) | Reserved(word: string) | Numeral(digits: string) | Op(op: Comparison) | Mark(c: char) | Question | Space

  ghost function ChunkText(d: Dialect, c: Chunk): string {
    match c
    case Name(name) => QuoteIdentifier(d, name)
    case Reserved(word) => word
    case Numeral(digits) => digits
    case Op(op) => Operator(op)
    case Mark(c) => [c]
    case Question => "?"
    case Space => " "
  }

  ghost function Text(d: Dialect, cs: seq<Chunk>): string {
    if cs == [] then "" else ChunkText(d, cs[0]) + Text(d, cs[1..])
  }

  ghost function OperatorToken(op: Comparison): Token { if op.Like? then Keyword("LIKE") else Symbol(Operator(op)) }

  ghost function Questions(cs: seq<Chunk>): nat {
    if cs == [] then 0 else (if cs[0].Question? then 1 else 0) + Questions(cs[1..])
  }

  ghost function ChunkTokens(c: Chunk, n: nat): seq<Token> {
    match c
    case Name(name) => [Ident(name)]
    case Reserved(word) => [Keyword(word)]
    case Numeral(digits) => [Number(digits)]
    case Op(op) => [OperatorToken(op)]
    case Mark(c) => [Symbol([c])]
    case Question => [Hole(n)]
    case Space => []
  }

  ghost function TokensIn(cs: seq<Chunk>, n: nat): seq<Token>
    decreases cs
  {
    if cs == [] then [] else ChunkTokens(cs[0], n) + TokensIn(cs[1..], n + if cs[0].Question? then 1 else 0)
  }

  ghost predicate GoodChunk(c: Chunk) {
    match c
    case Reserved(word) => word != [] && forall i :: 0 <= i < |word| ==> IsLetter(word[i])
    case Numeral(digits) => digits != [] && forall i :: 0 <= i < |digits| ==> IsDigit(digits[i])
    case Mark(c) => c in {'(', ')', ',', '.', '+', '-', '='}
    case _ => true
  }

  ghost predicate Separates(c: Chunk) { c.Space? || (c.Mark? && c.c in {')', ',', '.'}) }

  /** A name, word, number or operator ends where a separator begins. */
  ghost predicate SpacedAt(cs: seq<Chunk>, i: nat)
    requires i < |cs|
  {
    GoodChunk(cs[i]) &&
    (cs[i].Op? ==> i + 1 < |cs| && cs[i + 1].Space?) &&
    (cs[i].Name? || cs[i].Reserved? || cs[i].Numeral? ==> i + 1 == |cs| || Separates(cs[i + 1]))
  }

  ghost predicate Spaced(cs: seq<Chunk>) { forall i :: 0 <= i < |cs| ==> SpacedAt(cs, i) }

  /** What may follow a rendered piece. */
  ghost predicate Clean(rest: string) { rest == [] || rest[0] in {' ', ')', ',', '.'} }

  lemma {:induction false} TextCat(d: Dialect, a: seq<Chunk>, b: seq<Chunk>)
    ensures Text(d, a + b) == Text(d, a) + Text(d, b)
  {
    if a == [] {
      assert a + b == b;
    } else {
      assert (a + b)[0] == a[0] && (a + b)[1..] == a[1..] + b;
      TextCat(d, a[1..], b);
    }
  }

  lemma CatAssociates<T>(a: seq<T>, b: seq<T>, c: seq<T>)
    ensures a + (b + c) == a + b + c
  {
  }

  lemma {:induction false} TokensCat(a: seq<Chunk>, b: seq<Chunk>, n: nat)
    ensures Questions(a + b) == Questions(a) + Questions(b)
    ensures TokensIn(a + b, n) == TokensIn(a, n) + TokensIn(b, n + Questions(a))
    decreases a
  {
    if a == [] {
      assert a + b == b;
    } else {
      assert (a + b)[0] == a[0] && (a + b)[1..] == a[1..] + b;
      var m := n + if a[0].Question? then 1 else 0;
      TokensCat(a[1..], b, m);
      hide ChunkTokens;
      CatAssociates(ChunkTokens(a[0], n), TokensIn(a[1..], m), TokensIn(b, n + Questions(a)));
    }
  }

  // ---------------------------------------------------------------- lexing them

  lemma {:induction false} LettersOf(w: string, rest: string)
    requires forall i :: 0 <= i < |w| ==> IsLetter(w[i])
    requires rest == [] || !IsLetter(rest[0])
    ensures Letters(w + rest) == |w|
  {
    if w == [] {
      assert w + rest == rest;
    } else {
      assert (w + rest)[1..] == w[1..] + rest;
      LettersOf(w[1..], rest);
    }
  }

  lemma LexWord(d: Dialect, w: string, rest: string, n: nat)
    requires w != [] && forall i :: 0 <= i < |w| ==> IsLetter(w[i])
    requires Clean(rest)
    ensures Lex(d, w + rest, n) == Cons(Keyword(w), Lex(d, rest, n))
  {
    LettersOf(w, rest);
    assert (w + rest)[0] == w[0] && (w + rest)[..|w|] == w && (w + rest)[|w|..] == rest;
  }

  lemma {:induction false} DigitsOf(w: string, rest: string)
    requires forall i :: 0 <= i < |w| ==> IsDigit(w[i])
    requires rest == [] || !IsDigit(rest[0])
    ensures Digits(w + rest) == |w|
  {
    if w == [] {
      assert w + rest == rest;
    } else {
      assert (w + rest)[1..] == w[1..] + rest;
      DigitsOf(w[1..], rest);
    }
  }

  lemma LexNumber(d: Dialect, w: string, rest: string, n: nat)
    requires w != [] && forall i :: 0 <= i < |w| ==> IsDigit(w[i])
    requires Clean(rest)
    ensures Lex(d, w + rest, n) == Cons(Number(w), Lex(d, rest, n))
  {
    DigitsOf(w, rest);
    assert (w + rest)[0] == w[0] && (w + rest)[..|w|] == w && (w + rest)[|w|..] == rest;
  }

  lemma LexSpaceOrHole(d: Dialect, rest: string, n: nat)
    ensures Lex(d, " " + rest, n) == Lex(d, rest, n)
    ensures Lex(d, "?" + rest, n) == Cons(Hole(n), Lex(d, rest, n + 1))
  {
    assert (" " + rest)[1..] == rest && ("?" + rest)[1..] == rest;
  }

  lemma LexMark(d: Dialect, c: char, rest: string, n: nat)
    requires c in {'(', ')', ',', '.', '+', '-', '='}
    ensures Lex(d, [c] + rest, n) == Cons(Symbol([c]), Lex(d, rest, n))
  {
    var s := [c] + rest;
    assert s[0] == c && s[1..] == rest && s[..1] == [c];
    assert !TwoCharSymbol(s) by {
      if |s| >= 2 { assert s[..2][0] == c; }
    }
    LexSymbol(d, s, n);
  }

  lemma LexSymbol(d: Dialect, s: string, n: nat)
    requires s != [] && OneCharSymbol(s[0]) && !TwoCharSymbol(s)
    ensures Lex(d, s, n) == Cons(Symbol(s[..1]), Lex(d, s[1..], n))
  {
    var c := s[0];
    assert c != ' ' && c != '?' && c != QuoteMark(d) && !IsLetter(c) && !IsDigit(c);
    hide OneCharSymbol, TwoCharSymbol, IsLetter, IsDigit, QuoteMark;
  }

  lemma LexOperator(d: Dialect, op: Comparison, rest: string, n: nat)
    requires rest != [] && rest[0] == ' '
    ensures Lex(d, Operator(op) + rest, n) == Cons(OperatorToken(op), Lex(d, rest, n))
  {
    var s := Operator(op) + rest;
    if op.Like? {
      LexWord(d, "LIKE", rest, n);
    } else if |Operator(op)| == 2 {
      assert s[..2] == Operator(op) && s[2..] == rest;
    } else {
      assert s[..1] == Operator(op) && s[1..] == rest;
      assert s[1] == ' ';
    }
  }

  lemma {:induction false} UnquoteDoubled(mark: char, name: string, rest: string)
    requires rest == [] || rest[0] != mark
    ensures Unquote(mark, Doubled(mark, name) + [mark] + rest) == Unquoted(name, rest)
  {
    var s := Doubled(mark, name) + [mark] + rest;
    if name == [] {
      assert s == [mark] + rest && s[1..] == rest;
    } else {
      UnquoteDoubled(mark, name[1..], rest);
      var tail := Doubled(mark, name[1..]) + [mark] + rest;
      if name[0] == mark {
        assert s == [mark, mark] + tail && s[2..] == tail;
      } else {
        assert s == [name[0]] + tail && s[1..] == tail;
      }
      assert [name[0]] + name[1..] == name;
    }
  }

  /** Quoting survives the lexer, whatever the name contains. */
  lemma LexIdentifier(d: Dialect, name: string, rest: string, n: nat)
    requires rest == [] || rest[0] != QuoteMark(d)
    ensures Lex(d, QuoteIdentifier(d, name) + rest, n) == Cons(Ident(name), Lex(d, rest, n))
  {
    var mark := QuoteMark(d);
    var s := QuoteIdentifier(d, name) + rest;
    UnquoteDoubled(mark, name, rest);
    assert s == [mark] + (Doubled(mark, name) + [mark] + rest);
    assert s[1..] == Doubled(mark, name) + [mark] + rest;
  }

  ghost predicate Follows(c: Chunk, rest: string) {
    GoodChunk(c) && (c.Op? ==> rest != [] && rest[0] == ' ') && (c.Name? || c.Reserved? || c.Numeral? ==> Clean(rest))
  }

  lemma LexChunk(d: Dialect, c: Chunk, rest: string, n: nat)
    requires Follows(c, rest)
    ensures Lex(d, ChunkText(d, c) + rest, n)
         == Prepend(ChunkTokens(c, n), Lex(d, rest, n + if c.Question? then 1 else 0))
  {
    match c
    case Name(name) => LexIdentifier(d, name, rest, n);
    case Reserved(word) => LexWord(d, word, rest, n);
    case Numeral(digits) => LexNumber(d, digits, rest, n);
    case Op(op) => LexOperator(d, op, rest, n);
    case Mark(ch) => LexMark(d, ch, rest, n);
    case _ =>
      LexSpaceOrHole(d, rest, n);
      var r := Lex(d, rest, n);
      assert r.Tokens? ==> [] + r.tokens == r.tokens;
  }

  lemma SpacedFollows(d: Dialect, cs: seq<Chunk>, rest: string)
    requires cs != [] && Spaced(cs) && Clean(rest)
    ensures Follows(cs[0], Text(d, cs[1..]) + rest) && Spaced(cs[1..])
  {
    var tail := cs[1..];
    assert SpacedAt(cs, 0);
    if tail != [] {
      assert tail[0] == cs[1];
      assert Text(d, tail) == ChunkText(d, cs[1]) + Text(d, tail[1..]);
    } else {
      assert Text(d, tail) + rest == rest;
    }
    forall i | 0 <= i < |tail| ensures SpacedAt(tail, i) { assert SpacedAt(cs, i + 1); }
  }

  lemma PrependTwice(a: seq<Token>, b: seq<Token>, r: Lexed)
    ensures Prepend(a, Prepend(b, r)) == Prepend(a + b, r)
  {
    if r.Tokens? { assert a + (b + r.tokens) == (a + b) + r.tokens; }
  }

  /** Properly spaced pieces come back from the lexer one by one, their placeholders numbered in order. */
  lemma {:induction false} LexText(d: Dialect, cs: seq<Chunk>, rest: string, n: nat)
    requires Spaced(cs) && Clean(rest)
    ensures Lex(d, Text(d, cs) + rest, n) == Prepend(TokensIn(cs, n), Lex(d, rest, n + Questions(cs)))
    decreases cs
  {
    hide Lex;
    if cs == [] {
      assert Text(d, cs) + rest == rest;
      var r := Lex(d, rest, n);
      assert r.Tokens? ==> [] + r.tokens == r.tokens;
    } else {
      SpacedFollows(d, cs, rest);
      var tail := Text(d, cs[1..]) + rest;
      assert Text(d, cs) + rest == ChunkText(d, cs[0]) + tail;
      LexChunk(d, cs[0], tail, n);
      var m := n + if cs[0].Question? then 1 else 0;
      LexText(d, cs[1..], rest, m);
      PrependTwice(ChunkTokens(cs[0], n), TokensIn(cs[1..], m), Lex(d, rest, n + Questions(cs)));
    }
  }

  // ---------------------------------------------------------------- the pieces and the syntax of a tree

  /** The arguments of a tree, in the order its values appear. */
  function Args<V>(e: Expr<V>): seq<V>
    decreases e, 0
  {
    match e
    case Compare(_, _, _, value) => [value]
    case InList(_, _, _, values) => values
    case Between(_, _, low, high) => [low, high]
    case Group(_, es) => ArgsFrom(es, 0)
    case Not(child) => Args(child)
    case _ => []
  }

  function ArgsFrom<V>(es: seq<Expr<V>>, i: nat): seq<V>
    requires i <= |es|
    decreases es, |es| - i
  {
    if i == |es| then [] else Args(es[i]) + ArgsFrom(es, i + 1)
  }

  ghost function Constant(b: bool): seq<Chunk> {
    [Numeral("1"), Space] + ([Mark('='), Space] + [Numeral(if b then "1" else "0")])
  }

  ghost function QuestionList(k: nat): seq<Chunk> {
    if k == 0 then [] else if k == 1 then [Question] else [Question, Mark(','), Space] + QuestionList(k - 1)
  }

  ghost function Bracketed(cs: seq<Chunk>): seq<Chunk> { [Mark('(')] + cs + [Mark(')')] }

  ghost function Chunks<V>(e: Expr<V>): seq<Chunk>
    decreases e, 0
  {
    match e
    case Compare(_, column, op, _) => [Name(column), Space] + ([Op(op), Space] + [Question])
    case InList(_, column, negated, values) =>
      if values == [] then Constant(negated)
      else
        var list := [Reserved("IN"), Space] + Bracketed(QuestionList(|values|));
        [Name(column), Space] + (if negated then [Reserved("NOT"), Space] + list else list)
    case Between(_, column, _, _) =>
      [Name(column), Space]
      + ([Reserved("BETWEEN"), Space] + ([Question, Space] + ([Reserved("AND"), Space] + [Question])))
    case NullTest(_, column, negated) =>
      var last := [Reserved("NULL")];
      [Name(column), Space] + ([Reserved("IS"), Space] + (if negated then [Reserved("NOT"), Space] + last else last))
    case Group(c, es) => if es == [] then Constant(c.And?) else ChunksFrom(c, es, 0)
    case Not(child) => [Reserved("NOT"), Space] + Bracketed(Chunks(child))
    case Nil => []
  }

  ghost function Glue(c: Connective, i: nat): seq<Chunk> { if i == 0 then [] else [Space, Reserved(Word(c)), Space] }

  ghost function ChunksFrom<V>(c: Connective, es: seq<Expr<V>>, i: nat): seq<Chunk>
    requires i <= |es|
    decreases es, |es| - i
  {
    if i == |es| then [] else Glue(c, i) + Bracketed(Chunks(es[i])) + ChunksFrom(c, es, i + 1)
  }

  lemma TextOf2(d: Dialect, a: Chunk, b: Chunk, cs: seq<Chunk>)
    ensures Text(d, [a]) == ChunkText(d, a)
    ensures Text(d, [a, b] + cs) == ChunkText(d, a) + (ChunkText(d, b) + Text(d, cs))
  {
    var s := [a, b] + cs;
    assert s[1..] == [b] + cs && s[1..][1..] == cs;
  }

  lemma TextOfBracketed(d: Dialect, cs: seq<Chunk>)
    ensures Text(d, Bracketed(cs)) == "(" + Text(d, cs) + ")"
  {
    TextOf2(d, Mark('('), Space, []);
    TextOf2(d, Mark(')'), Space, []);
    TextCat(d, [Mark('(')], cs);
    TextCat(d, [Mark('(')] + cs, [Mark(')')]);
  }

  lemma TextOfConstant(d: Dialect, b: bool)
    ensures Text(d, Constant(b)) == if b then "1 = 1" else "1 = 0"
  {
    var last := Numeral(if b then "1" else "0");
    TextOf2(d, last, Space, []);
    TextOf2(d, Mark('='), Space, [last]);
    TextOf2(d, Numeral("1"), Space, [Mark('='), Space] + [last]);
  }

  lemma {:induction false} TextOfQuestions(d: Dialect, k: nat)
    ensures Text(d, QuestionList(k)) == Placeholders(k)
  {
    if k > 1 {
      TextOfQuestions(d, k - 1);
      var rest := [Space] + QuestionList(k - 1);
      assert rest[1..] == QuestionList(k - 1);
      TextOf2(d, Question, Mark(','), rest);
      assert [Question, Mark(',')] + rest == QuestionList(k);
    } else {
      TextOf2(d, Question, Space, []);
    }
  }

  lemma CompareText(q: string, op: string)
    ensures q + (" " + (op + (" " + "?"))) == q + " " + op + " ?"
  {
  }

  lemma TextOfCompare<V>(d: Dialect, e: Expr<V>)
    requires e.Compare?
    ensures Text(d, Chunks(e)) == QuoteIdentifier(d, e.column) + " " + Operator(e.op) + " ?"
  {
    TextOf2(d, Question, Space, []);
    TextOf2(d, Op(e.op), Space, [Question]);
    TextOf2(d, Name(e.column), Space, [Op(e.op), Space] + [Question]);
    CompareText(QuoteIdentifier(d, e.column), Operator(e.op));
  }

  lemma BetweenText()
    ensures " " + ("BETWEEN" + (" " + ("?" + (" " + ("AND" + (" " + "?")))))) == " BETWEEN ? AND ?"
  {
  }

  lemma TextOfBetween<V>(d: Dialect, e: Expr<V>)
    requires e.Between?
    ensures Text(d, Chunks(e)) == QuoteIdentifier(d, e.column) + " BETWEEN ? AND ?"
  {
    BetweenText();
    TextOf2(d, Question, Space, []);
    var c1 := [Reserved("AND"), Space] + [Question];
    TextOf2(d, Reserved("AND"), Space, [Question]);
    var c2 := [Question, Space] + c1;
    TextOf2(d, Question, Space, c1);
    var c3 := [Reserved("BETWEEN"), Space] + c2;
    TextOf2(d, Reserved("BETWEEN"), Space, c2);
    TextOf2(d, Name(e.column), Space, c3);
  }

  lemma InText(p: string)
    ensures " " + ("NOT" + (" " + ("IN" + (" " + ("(" + p + ")"))))) == " NOT IN (" + p + ")"
    ensures " " + ("IN" + (" " + ("(" + p + ")"))) == " IN (" + p + ")"
  {
  }

  lemma TextOfIn(d: Dialect, column: string, k: nat)
    ensures Text(d, [Name(column), Space] + ([Reserved("IN"), Space] + Bracketed(QuestionList(k))))
         == QuoteIdentifier(d, column) + (" IN (" + Placeholders(k) + ")")
  {
    TextOfQuestions(d, k);
    TextOfBracketed(d, QuestionList(k));
    var c0 := Bracketed(QuestionList(k));
    TextOf2(d, Reserved("IN"), Space, c0);
    TextOf2(d, Name(column), Space, [Reserved("IN"), Space] + c0);
    InText(Placeholders(k));
  }

  lemma TextOfNotIn(d: Dialect, column: string, k: nat)
    ensures Text(d, [Name(column), Space] + ([Reserved("NOT"), Space] + ([Reserved("IN"), Space] + Bracketed(QuestionList(k)))))
         == QuoteIdentifier(d, column) + (" NOT IN (" + Placeholders(k) + ")")
  {
    TextOfQuestions(d, k);
    TextOfBracketed(d, QuestionList(k));
    var c0 := Bracketed(QuestionList(k));
    TextOf2(d, Reserved("IN"), Space, c0);
    var c1 := [Reserved("IN"), Space] + c0;
    TextOf2(d, Reserved("NOT"), Space, c1);
    TextOf2(d, Name(column), Space, [Reserved("NOT"), Space] + c1);
    InText(Placeholders(k));
  }

  lemma Regroup(a: string, b: string, c: string, e: string)
    ensures a + (b + c + e) == a + b + c + e
  {
  }

  lemma TextOfInList<V>(d: Dialect, e: Expr<V>)
    requires e.InList? && e.values != []
    ensures Text(d, Chunks(e)) == QuoteIdentifier(d, e.column) + (if e.negated then " NOT IN (" else " IN (") + Placeholders(|e.values|) + ")"
  {
    var k := |e.values|;
    if e.negated {
      TextOfNotIn(d, e.column, k);
      Regroup(QuoteIdentifier(d, e.column), " NOT IN (", Placeholders(k), ")");
    } else {
      TextOfIn(d, e.column, k);
      Regroup(QuoteIdentifier(d, e.column), " IN (", Placeholders(k), ")");
    }
  }

  lemma NullText()
    ensures " " + ("IS" + (" " + ("NOT" + (" " + "NULL")))) == " IS NOT NULL"
    ensures " " + ("IS" + (" " + "NULL")) == " IS NULL"
  {
  }

  lemma TextOfNullTest<V>(d: Dialect, e: Expr<V>)
    requires e.NullTest?
    ensures Text(d, Chunks(e)) == QuoteIdentifier(d, e.column) + if e.negated then " IS NOT NULL" else " IS NULL"
  {
    NullText();
    var c0 := [Reserved("NULL")];
    TextOf2(d, Reserved("NULL"), Space, []);
    if e.negated {
      TextOf2(d, Reserved("NOT"), Space, c0);
      var c1 := [Reserved("NOT"), Space] + c0;
      TextOf2(d, Reserved("IS"), Space, c1);
      TextOf2(d, Name(e.column), Space, [Reserved("IS"), Space] + c1);
    } else {
      TextOf2(d, Reserved("IS"), Space, c0);
      TextOf2(d, Name(e.column), Space, [Reserved("IS"), Space] + c0);
    }
  }

  lemma TextOfNot(d: Dialect, cs: seq<Chunk>)
    ensures Text(d, [Reserved("NOT"), Space] + Bracketed(cs)) == "NOT (" + Text(d, cs) + ")"
  {
    TextOfBracketed(d, cs);
    TextOf2(d, Reserved("NOT"), Space, Bracketed(cs));
  }

  lemma TextOfPiece(d: Dialect, c: Connective, i: nat, cs: seq<Chunk>)
    ensures Text(d, Glue(c, i) + Bracketed(cs)) == Piece(c, i, Text(d, cs))
  {
    TextOfBracketed(d, cs);
    TextCat(d, Glue(c, i), Bracketed(cs));
    TextOfGlue(d, c, i);
    hide Text, Glue, Bracketed, Separator;
    assert Separator(c, i) + ("(" + Text(d, cs) + ")") == Separator(c, i) + "(" + Text(d, cs) + ")";
  }

  lemma TextOfGlue(d: Dialect, c: Connective, i: nat)
    ensures Text(d, Glue(c, i)) == Separator(c, i)
  {
    if i > 0 {
      TextOf2(d, Space, Space, []);
      TextOf2(d, Space, Reserved(Word(c)), [Space]);
      assert [Space, Reserved(Word(c))] + [Space] == Glue(c, i);
    }
  }

  lemma RenderLeafIsText<V>(d: Dialect, e: Expr<V>)
    requires !e.Group? && !e.Not? && Render(d, e).Rendered?
    ensures Render(d, e) == Rendered(Text(d, Chunks(e)), Args(e))
  {
    match e
    case Compare(_, _, _, _) => TextOfCompare(d, e);
    case InList(_, _, negated, values) =>
      if values == [] { TextOfConstant(d, negated); } else { TextOfInList(d, e); }
    case Between(_, _, _, _) => TextOfBetween(d, e);
    case NullTest(_, _, _) => TextOfNullTest(d, e);
  }

  /** The renderer writes exactly these pieces, and returns exactly these arguments. */
  lemma {:induction false} RenderIsText<V>(d: Dialect, e: Expr<V>)
    requires Render(d, e).Rendered?
    ensures Render(d, e) == Rendered(Text(d, Chunks(e)), Args(e))
    decreases e, 0
  {
    if e.Group? {
      if e.exprs == [] { TextOfConstant(d, e.connective.And?); } else { RenderFromIsText(d, e.connective, e.exprs, 0); }
    } else if e.Not? {
      RenderIsText(d, e.expr);
      TextOfNot(d, Chunks(e.expr));
    } else {
      RenderLeafIsText(d, e);
    }
  }

  lemma {:induction false} RenderFromIsText<V>(d: Dialect, c: Connective, es: seq<Expr<V>>, i: nat)
    requires i <= |es| && RenderFrom(d, c, es, i).Rendered?
    ensures RenderFrom(d, c, es, i) == Rendered(Text(d, ChunksFrom(c, es, i)), ArgsFrom(es, i))
    decreases es, |es| - i
  {
    if i < |es| {
      RenderIsText(d, es[i]);
      RenderFromIsText(d, c, es, i + 1);
      TextOfPiece(d, c, i, Chunks(es[i]));
      TextCat(d, Glue(c, i) + Bracketed(Chunks(es[i])), ChunksFrom(c, es, i + 1));
    }
  }
}
