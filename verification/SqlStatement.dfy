/** The UPDATE of the generated query builder: SET before WHERE, each with its arguments in the order of its
    placeholders. */
module SqlStatement {
  import opened Options
  import opened SqlExpr
  import opened SqlText
  import opened SqlMeaning

  // ---------------------------------------------------------------- assignments

  /** `Set`, `Add`, `Sub` and `SetNull` of a column. */
  datatype Assignment<V> =
    | Assign(owner: string, column: string, value: V)
    | Shift(owner: string, column: string, plus: bool, value: V)
    | Clear(owner: string, column: string)

  function Sign(plus: bool): string { if plus then "+" else "-" }

  function RenderAssignment<V>(d: Dialect, a: Assignment<V>): Rendered<V> {
    var column := QuoteIdentifier(d, a.column);
    if a.column == "" then InvalidArgument
    else
      match a
      case Assign(_, _, value) => Rendered(column + " = ?", [value])
      case Shift(_, _, plus, value) => Rendered(column + " = " + column + " " + Sign(plus) + " ?", [value])
      case Clear(_, _) => Rendered(column + " = NULL", [])
  }

  function Comma(i: nat): string { if i == 0 then "" else ", " }

  function AssignmentsFrom<V>(d: Dialect, items: seq<Assignment<V>>, allowed: Columns, i: nat, seen: set<string>): Rendered<V>
    requires i <= |items|
    decreases |items| - i
  {
    if i == |items| then Rendered("", [])
    else
      var item := items[i];
      var key := ColumnKey(item.owner, item.column);
      if !AllowedColumn(item.owner, item.column, allowed) || key in seen then InvalidArgument
      else
        match RenderAssignment(d, item)
        case InvalidArgument => InvalidArgument
        case Rendered(part, args) => Before(Comma(i) + part, args, AssignmentsFrom(d, items, allowed, i + 1, seen + {key}))
  }

  function BuildAssignments<V>(d: Dialect, items: seq<Assignment<V>>, allowed: Columns): Rendered<V> {
    if items == [] then InvalidArgument else AssignmentsFrom(d, items, allowed, 0, {})
  }

  /** `BuildAssignments` as the source runs it: a builder, an argument slice and a set of seen keys. */
  method WriteAssignments<V>(d: Dialect, items: seq<Assignment<V>>, allowed: Columns) returns (r: Rendered<V>)
    ensures r == BuildAssignments(d, items, allowed)
  {
    if items == [] { return InvalidArgument; }
    var builder, args: seq<V>, seen: set<string> := "", [], {};
    for i := 0 to |items|
      invariant AssignmentsFrom(d, items, allowed, 0, {}) == Before(builder, args, AssignmentsFrom(d, items, allowed, i, seen))
    {
      var item := items[i];
      var key := ColumnKey(item.owner, item.column);
      if !AllowedColumn(item.owner, item.column, allowed) { return InvalidArgument; }
      if key in seen { return InvalidArgument; }
      ghost var seen' := seen + {key};
      seen := seen + {key};
      var part := RenderAssignment(d, item);
      if part.InvalidArgument? { return InvalidArgument; }
      BeforeTwice(builder, args, Comma(i) + part.text, part.args, AssignmentsFrom(d, items, allowed, i + 1, seen'));
      builder := builder + (Comma(i) + part.text);
      args := args + part.args;
    }
    r := Rendered(builder, args);
  }

  /** What an assignment does to a row; the same shape with values for what SQL says with placeholders. */
  datatype Effect<V> = ToValue(column: string, value: V) | ToSum(column: string, source: string, plus: bool, value: V) | ToNull(column: string)

  function EffectOf<V>(a: Assignment<V>): Effect<V> {
    match a
    case Assign(_, column, value) => ToValue(column, value)
    case Shift(_, column, plus, value) => ToSum(column, column, plus, value)
    case Clear(_, column) => ToNull(column)
  }

  function EffectsFrom<V>(items: seq<Assignment<V>>, i: nat): seq<Effect<V>>
    requires i <= |items|
    decreases |items| - i
  {
    if i == |items| then [] else [EffectOf(items[i])] + EffectsFrom(items, i + 1)
  }

  // ---------------------------------------------------------------- parsing SET

  datatype SetClause = SetHole(column: string, hole: nat) | SetSum(column: string, source: string, plus: bool, hole: nat) | SetNull(column: string)

  datatype ParsedSets = Sets(clauses: seq<SetClause>, rest: seq<Token>) | NoSets

  datatype ParsedSet = OneSet(clause: SetClause, rest: seq<Token>) | NoSet

  function ParseSet(ts: seq<Token>): (r: ParsedSet)
    ensures r.OneSet? ==> |r.rest| < |ts|
  {
    if |ts| < 3 || !ts[0].Ident? || ts[1] != Symbol("=") then NoSet
    else if ts[2].Hole? then OneSet(SetHole(ts[0].name, ts[2].index), ts[3..])
    else if ts[2] == Keyword("NULL") then OneSet(SetNull(ts[0].name), ts[3..])
    else if |ts| >= 5 && ts[2].Ident? && (ts[3] == Symbol("+") || ts[3] == Symbol("-")) && ts[4].Hole? then
      OneSet(SetSum(ts[0].name, ts[2].name, ts[3] == Symbol("+"), ts[4].index), ts[5..])
    else NoSet
  }

  function ParseSets(ts: seq<Token>): (r: ParsedSets)
    ensures r.Sets? ==> |r.rest| < |ts|
    decreases |ts|
  {
    match ParseSet(ts)
    case NoSet => NoSets
    case OneSet(clause, rest) =>
      if Starts(rest, Symbol(",")) then
        match ParseSets(rest[1..])
        case NoSets => NoSets
        case Sets(more, end) => Sets([clause] + more, end)
      else Sets([clause], rest)
  }

  datatype Resolved<V> = Resolved(effects: seq<Effect<V>>) | Unbound

  /** Fills the placeholders of a SET list with the arguments of the statement. */
  ghost function Resolve<V>(clauses: seq<SetClause>, args: seq<V>): Resolved<V> {
    if clauses == [] then Resolved([])
    else
      var tail := Resolve(clauses[1..], args);
      if tail.Unbound? then Unbound
      else
        match clauses[0]
        case SetNull(column) => Resolved([ToNull(column)] + tail.effects)
        case SetHole(column, k) => if k < |args| then Resolved([ToValue(column, args[k])] + tail.effects) else Unbound
        case SetSum(column, source, plus, k) =>
          if k < |args| then Resolved([ToSum(column, source, plus, args[k])] + tail.effects) else Unbound
  }

  // ---------------------------------------------------------------- the pieces of SET

  function SetArgs<V>(a: Assignment<V>): seq<V> { if a.Clear? then [] else [a.value] }

  function SetArgsFrom<V>(items: seq<Assignment<V>>, i: nat): seq<V>
    requires i <= |items|
    decreases |items| - i
  {
    if i == |items| then [] else SetArgs(items[i]) + SetArgsFrom(items, i + 1)
  }

  ghost function SetChunks<V>(a: Assignment<V>): seq<Chunk> {
    [Name(a.column), Space] + ([Mark('='), Space] +
      match a
      case Assign(_, _, _) => [Question]
      case Shift(_, column, plus, _) => [Name(column), Space] + ([Mark(if plus then '+' else '-'), Space] + [Question])
      case Clear(_, _) => [Reserved("NULL")])
  }

  ghost function CommaChunks(i: nat): seq<Chunk> { if i == 0 then [] else [Mark(','), Space] }

  ghost function SetChunksFrom<V>(items: seq<Assignment<V>>, i: nat): seq<Chunk>
    requires i <= |items|
    decreases |items| - i
  {
    if i == |items| then [] else CommaChunks(i) + SetChunks(items[i]) + SetChunksFrom(items, i + 1)
  }

  lemma SetTexts(q: string, s: string)
    ensures q + (" " + ("=" + (" " + "?"))) == q + " = ?"
    ensures q + (" " + ("=" + (" " + "NULL"))) == q + " = NULL"
    ensures q + (" " + ("=" + (" " + (q + (" " + (s + (" " + "?"))))))) == q + " = " + q + " " + s + " ?"
  {
  }

  lemma TextOfSet<V>(d: Dialect, a: Assignment<V>)
    ensures a.column != "" ==> RenderAssignment(d, a) == Rendered(Text(d, SetChunks(a)), SetArgs(a))
  {
    var q := QuoteIdentifier(d, a.column);
    SetTexts(q, Sign(a.Shift? && a.plus));
    TextOf2(d, Question, Space, []);
    TextOf2(d, Reserved("NULL"), Space, []);
    match a
    case Assign(_, column, _) =>
      TextOf2(d, Mark('='), Space, [Question]);
      TextOf2(d, Name(column), Space, [Mark('='), Space] + [Question]);
    case Shift(_, column, plus, _) =>
      var sign := Mark(if plus then '+' else '-');
      TextOf2(d, sign, Space, [Question]);
      var c1 := [sign, Space] + [Question];
      TextOf2(d, Name(column), Space, c1);
      var c2 := [Name(column), Space] + c1;
      TextOf2(d, Mark('='), Space, c2);
      TextOf2(d, Name(column), Space, [Mark('='), Space] + c2);
      hide Text, QuoteIdentifier;
      assert ChunkText(d, sign) == Sign(plus);
    case Clear(_, column) =>
      TextOf2(d, Mark('='), Space, [Reserved("NULL")]);
      TextOf2(d, Name(column), Space, [Mark('='), Space] + [Reserved("NULL")]);
  }

  lemma {:induction false} TextOfSets<V>(d: Dialect, items: seq<Assignment<V>>, allowed: Columns, i: nat, seen: set<string>)
    requires i <= |items| && AssignmentsFrom(d, items, allowed, i, seen).Rendered?
    ensures AssignmentsFrom(d, items, allowed, i, seen) == Rendered(Text(d, SetChunksFrom(items, i)), SetArgsFrom(items, i))
    decreases |items| - i
  {
    if i < |items| {
      TextOfSet(d, items[i]);
      TextOfSets(d, items, allowed, i + 1, seen + {ColumnKey(items[i].owner, items[i].column)});
      TextOfComma(d, i);
      TextCat(d, CommaChunks(i), SetChunks(items[i]));
      TextCat(d, CommaChunks(i) + SetChunks(items[i]), SetChunksFrom(items, i + 1));
      hide Text, SetChunks, CommaChunks, Comma;
    }
  }

  lemma TextOfComma(d: Dialect, i: nat)
    ensures Text(d, CommaChunks(i)) == Comma(i)
  {
    TextOf2(d, Mark(','), Space, []);
    assert [Mark(','), Space] + [] == [Mark(','), Space];
  }

  lemma SetSpaced<V>(a: Assignment<V>)
    ensures Spaced(SetChunks(a))
  {
    match a
    case Assign(_, column, _) =>
      SpacedCons(Mark('='), [Question]);
      SpacedCons(Name(column), [Mark('='), Space] + [Question]);
    case Shift(_, column, plus, _) =>
      var sign := Mark(if plus then '+' else '-');
      SpacedCons(sign, [Question]);
      SpacedCons(Name(column), [sign, Space] + [Question]);
      var c := [Name(column), Space] + ([sign, Space] + [Question]);
      SpacedCons(Mark('='), c);
      SpacedCons(Name(column), [Mark('='), Space] + c);
    case Clear(_, column) =>
      SpacedCons(Mark('='), [Reserved("NULL")]);
      SpacedCons(Name(column), [Mark('='), Space] + [Reserved("NULL")]);
  }

  lemma {:induction false} SetsSpaced<V>(items: seq<Assignment<V>>, i: nat)
    requires i <= |items|
    ensures Spaced(SetChunksFrom(items, i))
    ensures 0 < i < |items| ==> SetChunksFrom(items, i)[0] == Mark(',')
    decreases |items| - i
  {
    if i < |items| {
      SetSpaced(items[i]);
      SpacedCat(CommaChunks(i), SetChunks(items[i]));
      SetsSpaced(items, i + 1);
      SpacedCat(CommaChunks(i) + SetChunks(items[i]), SetChunksFrom(items, i + 1));
    }
  }

  // ---------------------------------------------------------------- their tokens parse back

  ghost function ClauseOf<V>(a: Assignment<V>, n: nat): SetClause {
    match a
    case Assign(_, column, _) => SetHole(column, n)
    case Shift(_, column, plus, _) => SetSum(column, column, plus, n)
    case Clear(_, column) => SetNull(column)
  }

  ghost function ClausesFrom<V>(items: seq<Assignment<V>>, i: nat, n: nat): seq<SetClause>
    requires i <= |items|
    decreases |items| - i
  {
    if i == |items| then [] else [ClauseOf(items[i], n)] + ClausesFrom(items, i + 1, n + |SetArgs(items[i])|)
  }

  ghost function SetTokens<V>(a: Assignment<V>, n: nat): seq<Token> {
    match a
    case Assign(_, column, _) => [Ident(column), Symbol("="), Hole(n)]
    case Shift(_, column, plus, _) => [Ident(column), Symbol("="), Ident(column), Symbol(Sign(plus)), Hole(n)]
    case Clear(_, column) => [Ident(column), Symbol("="), Keyword("NULL")]
  }

  lemma TokensOfShift(column: string, plus: bool, n: nat)
    ensures var cs := [Name(column), Space] + ([Mark(if plus then '+' else '-'), Space] + [Question]);
            TokensIn(cs, n) == [Ident(column), Symbol(Sign(plus)), Hole(n)] && Questions(cs) == 1
  {
    var sign := Mark(if plus then '+' else '-');
    TokensOf1(Question, n);
    TokensOf2(sign, Space, [Question], n);
    TokensOf2(Name(column), Space, [sign, Space] + [Question], n);
  }

  lemma TokensOfTarget(column: string, value: seq<Chunk>, n: nat)
    ensures var cs := [Name(column), Space] + ([Mark('='), Space] + value);
            TokensIn(cs, n) == [Ident(column), Symbol("=")] + TokensIn(value, n) && Questions(cs) == Questions(value)
  {
    TokensOf2(Mark('='), Space, value, n);
    TokensOf2(Name(column), Space, [Mark('='), Space] + value, n);
    hide TokensIn, Questions;
  }

  lemma TokensOfSet<V>(a: Assignment<V>, n: nat)
    ensures TokensIn(SetChunks(a), n) == SetTokens(a, n) && Questions(SetChunks(a)) == |SetArgs(a)|
  {
    TokensOf1(Question, n);
    TokensOf1(Reserved("NULL"), n);
    match a
    case Assign(_, column, _) =>
      TokensOfTarget(column, [Question], n);
    case Shift(_, column, plus, _) =>
      TokensOfShift(column, plus, n);
      TokensOfTarget(column, [Name(column), Space] + ([Mark(if plus then '+' else '-'), Space] + [Question]), n);
    case Clear(_, column) =>
      TokensOfTarget(column, [Reserved("NULL")], n);
  }

  lemma ParsesSet<V>(a: Assignment<V>, n: nat, rest: seq<Token>)
    ensures ParseSet(SetTokens(a, n) + rest) == OneSet(ClauseOf(a, n), rest)
  {
    var ts := SetTokens(a, n) + rest;
    if a.Shift? { assert ts[5..] == rest; } else { assert ts[3..] == rest; }
  }

  ghost function CommaTokens(i: nat): seq<Token> { if i == 0 then [] else [Symbol(",")] }

  lemma TokensOfSets<V>(items: seq<Assignment<V>>, i: nat, n: nat)
    requires i < |items|
    ensures TokensIn(SetChunksFrom(items, i), n)
         == CommaTokens(i) + SetTokens(items[i], n) + TokensIn(SetChunksFrom(items, i + 1), n + |SetArgs(items[i])|)
    ensures Questions(SetChunksFrom(items, i)) == |SetArgs(items[i])| + Questions(SetChunksFrom(items, i + 1))
  {
    assert SetChunksFrom(items, i) == CommaChunks(i) + SetChunks(items[i]) + SetChunksFrom(items, i + 1);
    TokensOfComma(i, n);
    hide TokensIn, Questions, SetChunksFrom, SetChunks, CommaChunks, CommaTokens, SetTokens;
    TokensOfSet(items[i], n);
    TokensCat(CommaChunks(i), SetChunks(items[i]), n);
    TokensCat(CommaChunks(i) + SetChunks(items[i]), SetChunksFrom(items, i + 1), n);
  }

  lemma TokensOfComma(i: nat, n: nat)
    ensures TokensIn(CommaChunks(i), n) == CommaTokens(i) && Questions(CommaChunks(i)) == 0
  {
    TokensOf2(Mark(','), Space, [], n);
    assert [Mark(','), Space] + [] == [Mark(','), Space];
  }

  lemma {:induction false} QuestionsOfSets<V>(items: seq<Assignment<V>>, i: nat)
    requires i <= |items|
    ensures Questions(SetChunksFrom(items, i)) == |SetArgsFrom(items, i)|
    decreases |items| - i
  {
    if i < |items| {
      TokensOfSets(items, i, 0);
      QuestionsOfSets(items, i + 1);
    }
  }

  /** The SET list from its i-th assignment on, without the comma before it. */
  ghost function SetList<V>(items: seq<Assignment<V>>, i: nat, n: nat, rest: seq<Token>): seq<Token>
    requires i < |items|
  {
    SetTokens(items[i], n) + (TokensIn(SetChunksFrom(items, i + 1), n + |SetArgs(items[i])|) + rest)
  }

  lemma ParseSetsStep(ts: seq<Token>, clause: SetClause, rest: seq<Token>)
    requires ParseSet(ts) == OneSet(clause, rest)
    ensures !Starts(rest, Symbol(",")) ==> ParseSets(ts) == Sets([clause], rest)
    ensures Starts(rest, Symbol(",")) && ParseSets(rest[1..]).Sets? ==>
              ParseSets(ts) == Sets([clause] + ParseSets(rest[1..]).clauses, ParseSets(rest[1..]).rest)
  {
  }

  lemma TailOfSets<V>(items: seq<Assignment<V>>, i: nat, n: nat, rest: seq<Token>)
    requires 0 < i < |items|
    ensures var tail := TokensIn(SetChunksFrom(items, i), n) + rest;
            Starts(tail, Symbol(",")) && tail[1..] == SetList(items, i, n, rest)
  {
    TokensOfSets(items, i, n);
    hide TokensIn, SetTokens, SetChunksFrom;
    Reassociate([Symbol(",")], SetTokens(items[i], n), TokensIn(SetChunksFrom(items, i + 1), n + |SetArgs(items[i])|), rest);
  }

  lemma {:induction false} ParsesSets<V>(items: seq<Assignment<V>>, i: nat, n: nat, rest: seq<Token>)
    requires i < |items| && !Starts(rest, Symbol(","))
    ensures ParseSets(SetList(items, i, n, rest)) == Sets(ClausesFrom(items, i, n), rest)
    decreases |items| - i
  {
    var m := n + |SetArgs(items[i])|;
    var tail := TokensIn(SetChunksFrom(items, i + 1), m) + rest;
    ParsesSet(items[i], n, tail);
    ParseSetsStep(SetList(items, i, n, rest), ClauseOf(items[i], n), tail);
    if i + 1 == |items| {
      assert tail == rest;
      assert ClausesFrom(items, i, n) == [ClauseOf(items[i], n)];
    } else {
      TailOfSets(items, i + 1, m, rest);
      hide ParseSet, ParseSets, TokensIn, SetTokens, SetChunksFrom, SetList;
      ParsesSets(items, i + 1, m, rest);
    }
  }

  lemma {:induction false} ResolvesSets<V>(items: seq<Assignment<V>>, i: nat, n: nat, args: seq<V>)
    requires i <= |items| && Bound(args, n, SetArgsFrom(items, i))
    ensures Resolve(ClausesFrom(items, i, n), args) == Resolved(EffectsFrom(items, i))
    decreases |items| - i
  {
    if i < |items| {
      var mine := SetArgs(items[i]);
      BoundSplits(args, n, mine, SetArgsFrom(items, i + 1));
      ResolvesSets(items, i + 1, n + |mine|, args);
      assert mine != [] ==> args[n] == args[n..n + |mine|][0];
      var clauses := ClausesFrom(items, i, n);
      assert clauses[0] == ClauseOf(items[i], n) && clauses[1..] == ClausesFrom(items, i + 1, n + |mine|);
    }
  }

  // ---------------------------------------------------------------- WHERE inside a statement

  datatype ParsedWhere = Where(condition: seq<Sql>, rest: seq<Token>) | NoWhere

  /** An optional WHERE; the condition has at most one member. */
  function ParseWhere(ts: seq<Token>): ParsedWhere {
    if !Starts(ts, Keyword("WHERE")) then Where([], ts)
    else
      match ParseOr(ts[1..])
      case NoParse => NoWhere
      case Parsed(sql, rest) => Where([sql], rest)
  }

  ghost function EvalWhere<V>(sem: Sem<V>, row: string -> V, args: seq<V>, condition: seq<Sql>): Truth {
    if condition == [] then True else Eval(sem, row, args, condition[0])
  }

  ghost function WhereChunks<V>(exprs: seq<Expr<V>>): seq<Chunk> {
    if exprs == [] then [] else [Space, Reserved("WHERE")] + ([Space] + Chunks(Group(And, exprs)))
  }

  ghost function Condition<V>(exprs: seq<Expr<V>>, n: nat): seq<Sql> {
    if exprs == [] then [] else [Syntax(Group(And, exprs), n)]
  }

  lemma TextOfWhere<V>(d: Dialect, exprs: seq<Expr<V>>)
    ensures exprs != [] ==> Text(d, WhereChunks(exprs)) == " WHERE " + Text(d, Chunks(Group(And, exprs)))
  {
    var cs := Chunks(Group(And, exprs));
    TextOf2(d, Space, Reserved("WHERE"), [Space] + cs);
    TextOf2(d, Space, Space, []);
    TextCat(d, [Space], cs);
    hide Text, Chunks;
    assert " " + ("WHERE" + (" " + Text(d, cs))) == " WHERE " + Text(d, cs);
  }

  lemma WhereSpaced<V>(exprs: seq<Expr<V>>)
    ensures Spaced(WhereChunks(exprs)) && (exprs != [] ==> WhereChunks(exprs)[0] == Space)
  {
    if exprs != [] {
      var cs := Chunks(Group(And, exprs));
      ChunksSpaced(Group(And, exprs));
      hide Chunks;
      SpacedCat([Space], cs);
      SpacedCat([Space, Reserved("WHERE")], [Space] + cs);
    }
  }

  lemma WhereIsText<V>(d: Dialect, exprs: seq<Expr<V>>, allowed: Columns)
    requires BuildWhere(d, exprs, allowed).Rendered?
    ensures BuildWhere(d, exprs, allowed) == Rendered(Text(d, WhereChunks(exprs)), Args(Group(And, exprs)))
    ensures NoNil(Group(And, exprs))
  {
    if exprs != [] {
      var e := Group(And, exprs);
      RenderIsText(d, e);
      RendersExactly(d, e);
      RenderableHasNoNil(e);
      TextOfWhere(d, exprs);
    }
  }

  lemma TokensOfWord(word: string, cs: seq<Chunk>, n: nat)
    ensures var all := [Space, Reserved(word)] + ([Space] + cs);
            TokensIn(all, n) == [Keyword(word)] + TokensIn(cs, n) && Questions(all) == Questions(cs)
  {
    TokensOf1(Space, n);
    TokensCat([Space], cs, n);
    TokensOf2(Space, Reserved(word), [Space] + cs, n);
    hide TokensIn, Questions;
    assert [] + TokensIn(cs, n) == TokensIn(cs, n);
    assert [] + ([Keyword(word)] + TokensIn(cs, n)) == [Keyword(word)] + TokensIn(cs, n);
  }

  lemma TokensOfWhere<V>(exprs: seq<Expr<V>>, n: nat)
    ensures TokensIn(WhereChunks(exprs), n) == if exprs == [] then [] else [Keyword("WHERE")] + TokensFor(Group(And, exprs), n)
    ensures Questions(WhereChunks(exprs)) == |Args(Group(And, exprs))|
  {
    if exprs != [] {
      var e := Group(And, exprs);
      hide TokensIn, Questions, Chunks, Args;
      QuestionsAreArgs(e);
      TokensOfWord("WHERE", Chunks(e), n);
    }
  }

  lemma ParsesWhere<V>(exprs: seq<Expr<V>>, n: nat, rest: seq<Token>)
    requires NoNil(Group(And, exprs)) && Ends(rest) && !Starts(rest, Keyword("WHERE"))
    ensures ParseWhere(TokensIn(WhereChunks(exprs), n) + rest) == Where(Condition(exprs, n), rest)
  {
    TokensOfWhere(exprs, n);
    hide TokensIn, Questions, Chunks, ParseOr, Syntax;
    var ts := TokensIn(WhereChunks(exprs), n) + rest;
    if exprs == [] {
      assert ts == rest;
    } else {
      var e := Group(And, exprs);
      ParsesExpr(e, n, rest);
      assert ts[1..] == TokensFor(e, n) + rest;
    }
  }

  lemma EvalsWhere<V>(sem: Sem<V>, row: string -> V, args: seq<V>, exprs: seq<Expr<V>>, n: nat)
    requires NoNil(Group(And, exprs)) && Bound(args, n, Args(Group(And, exprs)))
    ensures EvalWhere(sem, row, args, Condition(exprs, n)) == Meaning(sem, row, Group(And, exprs))
  {
    if exprs != [] { EvalsExpr(sem, row, args, Group(And, exprs), n); }
  }

  lemma LexWhole(d: Dialect, cs: seq<Chunk>)
    requires Spaced(cs)
    ensures Lex(d, Text(d, cs), 0) == Tokens(TokensIn(cs, 0))
  {
    LexText(d, cs, [], 0);
    assert Text(d, cs) + [] == Text(d, cs) && TokensIn(cs, 0) + [] == TokensIn(cs, 0);
  }

  // ---------------------------------------------------------------- UPDATE

  datatype Statement<V> = Statement(text: string, args: seq<V>) | Unsafe | Invalid

  function QuoteTable(d: Dialect, schema: string, table: string): string {
    if schema != "" then QuoteIdentifier(d, schema) + "." + QuoteIdentifier(d, table) else QuoteIdentifier(d, table)
  }

  /** The emitted `Update`: guard, SET, WHERE, in this order. */
  ghost function Update<V>(
    d: Dialect, schema: string, table: string, allowed: Columns, allowAll: bool,
    items: seq<Assignment<V>>, exprs: seq<Expr<V>>): Statement<V>
  {
    if Kleene(Group(And, exprs)) == True && !allowAll then Unsafe
    else
      match BuildAssignments(d, items, allowed)
      case InvalidArgument => Invalid
      case Rendered(sets, args) =>
        match BuildWhere(d, exprs, allowed)
        case InvalidArgument => Invalid
        case Rendered(condition, whereArgs) =>
          Statement("UPDATE " + QuoteTable(d, schema, table) + " SET " + sets + condition, args + whereArgs)
  }

  datatype ParsedUpdate = ParsedUpdate(table: seq<string>, clauses: seq<SetClause>, condition: seq<Sql>) | NoUpdate

  function ParseTail(table: seq<string>, ts: seq<Token>): ParsedUpdate {
    if !Starts(ts, Keyword("SET")) then NoUpdate
    else
      match ParseSets(ts[1..])
      case NoSets => NoUpdate
      case Sets(clauses, rest) =>
        match ParseWhere(rest)
        case NoWhere => NoUpdate
        case Where(condition, end) => if end == [] then ParsedUpdate(table, clauses, condition) else NoUpdate
  }

  function ParseUpdate(ts: seq<Token>): ParsedUpdate {
    if |ts| < 2 || ts[0] != Keyword("UPDATE") || !ts[1].Ident? then NoUpdate
    else if |ts| > 3 && ts[2] == Symbol(".") && ts[3].Ident? then ParseTail([ts[1].name, ts[3].name], ts[4..])
    else ParseTail([ts[1].name], ts[2..])
  }

  /** Read as SQL, the text updates this table with these effects on the rows where the condition is true. */
  ghost predicate Updates<V>(
    sem: Sem<V>, row: string -> V, d: Dialect, text: string, args: seq<V>, table: seq<string>, effects: seq<Effect<V>>, truth: Truth)
  {
    var lexed := Lex(d, text, 0);
    lexed.Tokens? &&
    var parsed := ParseUpdate(lexed.tokens);
    parsed.ParsedUpdate? && parsed.table == table &&
    Resolve(parsed.clauses, args) == Resolved(effects) &&
    EvalWhere(sem, row, args, parsed.condition) == truth
  }

  ghost function HeadChunks(schema: string, table: string): seq<Chunk> {
    [Reserved("UPDATE"), Space] + ((if schema == "" then [] else [Name(schema), Mark('.')])
                                   + ([Name(table), Space] + ([Reserved("SET"), Space] + [])))
  }

  ghost function TableName(schema: string, table: string): seq<string> { if schema == "" then [table] else [schema, table] }

  ghost function HeadTokens(schema: string, table: string): seq<Token> {
    if schema == "" then [Keyword("UPDATE"), Ident(table), Keyword("SET")]
    else [Keyword("UPDATE"), Ident(schema), Symbol("."), Ident(table), Keyword("SET")]
  }

  lemma HeadText(q: string, t: string)
    ensures "UPDATE" + (" " + (t + (" " + ("SET" + (" " + ""))))) == "UPDATE " + t + " SET "
    ensures "UPDATE" + (" " + (q + ("." + (t + (" " + ("SET" + (" " + ""))))))) == "UPDATE " + (q + "." + t) + " SET "
  {
  }

  lemma TextOfHead(d: Dialect, schema: string, table: string)
    ensures Text(d, HeadChunks(schema, table)) == "UPDATE " + QuoteTable(d, schema, table) + " SET "
  {
    var c0: seq<Chunk> := [];
    TextOf2(d, Reserved("SET"), Space, c0);
    var c1 := [Reserved("SET"), Space] + c0;
    TextOf2(d, Name(table), Space, c1);
    var c2 := [Name(table), Space] + c1;
    HeadText(QuoteIdentifier(d, schema), QuoteIdentifier(d, table));
    assert Text(d, c0) == "";
    if schema == "" {
      assert [] + c2 == c2;
      TextOf2(d, Reserved("UPDATE"), Space, c2);
      hide Text, QuoteIdentifier;
    } else {
      TextOf2(d, Name(schema), Mark('.'), c2);
      TextOf2(d, Reserved("UPDATE"), Space, [Name(schema), Mark('.')] + c2);
      hide Text, QuoteIdentifier;
    }
  }

  lemma HeadSpaced(schema: string, table: string)
    ensures Spaced(HeadChunks(schema, table)) && !EndsOpen(HeadChunks(schema, table))
  {
    var c0: seq<Chunk> := [];
    SpacedCons(Reserved("SET"), c0);
    var c1 := [Reserved("SET"), Space] + c0;
    SpacedCons(Name(table), c1);
    var c2 := [Name(table), Space] + c1;
    SpacedCat(if schema == "" then [] else [Name(schema), Mark('.')], c2);
    SpacedCons(Reserved("UPDATE"), (if schema == "" then [] else [Name(schema), Mark('.')]) + c2);
  }

  lemma TokensOfTable(table: string, n: nat)
    ensures var cs := [Name(table), Space] + ([Reserved("SET"), Space] + []);
            TokensIn(cs, n) == [Ident(table), Keyword("SET")] && Questions(cs) == 0
  {
    TokensOf2(Reserved("SET"), Space, [], n);
    TokensOf2(Name(table), Space, [Reserved("SET"), Space] + [], n);
  }

  lemma TokensOfHead(schema: string, table: string, n: nat)
    ensures TokensIn(HeadChunks(schema, table), n) == HeadTokens(schema, table) && Questions(HeadChunks(schema, table)) == 0
  {
    var c := [Name(table), Space] + ([Reserved("SET"), Space] + []);
    var named := [Name(schema), Mark('.')] + c;
    assert [] + c == c;
    assert HeadChunks(schema, table) == [Reserved("UPDATE"), Space] + if schema == "" then c else named;
    hide TokensIn, Questions, HeadChunks;
    TokensOfTable(table, n);
    TokensOf2(Name(schema), Mark('.'), c, n);
    TokensOf2(Reserved("UPDATE"), Space, if schema == "" then c else named, n);
  }

  lemma ParsesHead(schema: string, table: string, ts: seq<Token>)
    ensures ParseUpdate(HeadTokens(schema, table) + ts) == ParseTail(TableName(schema, table), [Keyword("SET")] + ts)
  {
    var whole, rest := HeadTokens(schema, table) + ts, [Keyword("SET")] + ts;
    hide ParseTail;
    if schema == "" {
      DropsFront([Keyword("UPDATE"), Ident(table)], [Keyword("SET")], ts);
      assert whole == [Keyword("UPDATE"), Ident(table)] + [Keyword("SET")] + ts;
      assert whole[2] == Keyword("SET");
    } else {
      var front := [Keyword("UPDATE"), Ident(schema), Symbol("."), Ident(table)];
      DropsFront(front, [Keyword("SET")], ts);
      assert whole == front + [Keyword("SET")] + ts;
      assert whole[2] == Symbol(".") && whole[3] == Ident(table);
    }
  }

  lemma DropsFront<T>(a: seq<T>, b: seq<T>, c: seq<T>)
    ensures (a + b + c)[|a|..] == b + c
  {
  }

  ghost function UpdateChunks<V>(schema: string, table: string, items: seq<Assignment<V>>, exprs: seq<Expr<V>>): seq<Chunk> {
    HeadChunks(schema, table) + (SetChunksFrom(items, 0) + WhereChunks(exprs))
  }

  lemma UpdateSpaced<V>(schema: string, table: string, items: seq<Assignment<V>>, exprs: seq<Expr<V>>)
    ensures Spaced(UpdateChunks(schema, table, items, exprs))
  {
    HeadSpaced(schema, table);
    SetsSpaced(items, 0);
    WhereSpaced(exprs);
    assert exprs == [] ==> WhereChunks(exprs) == [];
    hide HeadChunks, SetChunksFrom, WhereChunks, Spaced;
    SpacedCat(SetChunksFrom(items, 0), WhereChunks(exprs));
    SpacedCat(HeadChunks(schema, table), SetChunksFrom(items, 0) + WhereChunks(exprs));
  }

  lemma TextOfUpdate<V>(d: Dialect, schema: string, table: string, items: seq<Assignment<V>>, exprs: seq<Expr<V>>)
    ensures Text(d, UpdateChunks(schema, table, items, exprs))
         == "UPDATE " + QuoteTable(d, schema, table) + " SET " + Text(d, SetChunksFrom(items, 0)) + Text(d, WhereChunks(exprs))
  {
    hide Text, HeadChunks, SetChunksFrom, WhereChunks, QuoteTable;
    TextOfHead(d, schema, table);
    var head, sets, condition := HeadChunks(schema, table), SetChunksFrom(items, 0), WhereChunks(exprs);
    TextCat(d, sets, condition);
    TextCat(d, head, sets + condition);
    Associate(Text(d, head), Text(d, sets), Text(d, condition));
  }

  lemma Associate<T>(a: seq<T>, b: seq<T>, c: seq<T>)
    ensures a + (b + c) == a + b + c
  {
  }

  lemma UpdateIsText<V>(
    d: Dialect, schema: string, table: string, allowed: Columns, allowAll: bool, items: seq<Assignment<V>>, exprs: seq<Expr<V>>)
    requires Update(d, schema, table, allowed, allowAll, items, exprs).Statement?
    ensures Update(d, schema, table, allowed, allowAll, items, exprs)
         == Statement(Text(d, UpdateChunks(schema, table, items, exprs)), SetArgsFrom(items, 0) + Args(Group(And, exprs)))
    ensures NoNil(Group(And, exprs)) && items != []
  {
    hide Text, UpdateChunks, SetChunksFrom, WhereChunks, Kleene, AssignmentsFrom, BuildWhere, NoNil, Args, SetArgsFrom, QuoteTable;
    TextOfSets(d, items, allowed, 0, {});
    WhereIsText(d, exprs, allowed);
    TextOfUpdate(d, schema, table, items, exprs);
  }

  lemma TokensOfSetsThen<V>(items: seq<Assignment<V>>, rest: seq<Token>)
    requires items != []
    ensures TokensIn(SetChunksFrom(items, 0), 0) + rest == SetList(items, 0, 0, rest)
  {
    TokensOfSets(items, 0, 0);
    var first, more := SetTokens(items[0], 0), TokensIn(SetChunksFrom(items, 1), |SetArgs(items[0])|);
    hide TokensIn, SetChunksFrom, SetTokens;
    assert [] + first == first;
    Associate(first, more, rest);
  }

  lemma TokensOfUpdate<V>(schema: string, table: string, items: seq<Assignment<V>>, exprs: seq<Expr<V>>)
    requires items != []
    ensures TokensIn(UpdateChunks(schema, table, items, exprs), 0)
         == HeadTokens(schema, table) + SetList(items, 0, 0, TokensIn(WhereChunks(exprs), |SetArgsFrom(items, 0)|))
  {
    hide TokensIn, Questions, HeadChunks, HeadTokens, SetChunksFrom, SetList, WhereChunks, SetArgsFrom;
    TokensOfHead(schema, table, 0);
    QuestionsOfSets(items, 0);
    var sets, condition := SetChunksFrom(items, 0), WhereChunks(exprs);
    TokensCat(sets, condition, 0);
    TokensCat(HeadChunks(schema, table), sets + condition, 0);
    TokensOfSetsThen(items, TokensIn(condition, |SetArgsFrom(items, 0)|));
  }

  lemma TailParses<V>(table: seq<string>, items: seq<Assignment<V>>, exprs: seq<Expr<V>>, condition: seq<Token>, n: nat)
    requires items != [] && NoNil(Group(And, exprs)) && condition == TokensIn(WhereChunks(exprs), n) && !Starts(condition, Symbol(","))
    ensures ParseTail(table, [Keyword("SET")] + SetList(items, 0, 0, condition))
         == ParsedUpdate(table, ClausesFrom(items, 0, 0), Condition(exprs, n))
  {
    hide TokensIn, WhereChunks, SetList, ParseSets, ParseWhere, ClausesFrom, Condition, NoNil;
    AfterSet(SetList(items, 0, 0, condition));
    ParsesSets(items, 0, 0, condition);
    ParsesWhere(exprs, n, []);
    assert condition + [] == condition;
  }

  lemma WhereStarts<V>(exprs: seq<Expr<V>>, n: nat)
    ensures !Starts(TokensIn(WhereChunks(exprs), n), Symbol(","))
  {
    hide TokensIn, WhereChunks, TokensFor, Args, Questions;
    TokensOfWhere(exprs, n);
  }

  lemma ParsesUpdate<V>(schema: string, table: string, items: seq<Assignment<V>>, exprs: seq<Expr<V>>)
    requires items != [] && NoNil(Group(And, exprs))
    ensures ParseUpdate(TokensIn(UpdateChunks(schema, table, items, exprs), 0))
         == ParsedUpdate(TableName(schema, table), ClausesFrom(items, 0, 0), Condition(exprs, |SetArgsFrom(items, 0)|))
  {
    hide *;
    var n := |SetArgsFrom(items, 0)|;
    var condition := TokensIn(WhereChunks(exprs), n);
    TokensOfUpdate(schema, table, items, exprs);
    ParsesHead(schema, table, SetList(items, 0, 0, condition));
    WhereStarts(exprs, n);
    TailParses(TableName(schema, table), items, exprs, condition, n);
  }

  lemma AfterSet(ts: seq<Token>)
    ensures Starts([Keyword("SET")] + ts, Keyword("SET")) && ([Keyword("SET")] + ts)[1..] == ts
  {
  }

  /** An UPDATE compiles to the statement it stands for: each column gets the value, sum or NULL of its own
      assignment, and the rows touched are those where the predicates hold, whatever the values. */
  lemma UpdateKeepsMeaning<V>(
    sem: Sem<V>, row: string -> V, d: Dialect, schema: string, table: string, allowed: Columns, allowAll: bool,
    items: seq<Assignment<V>>, exprs: seq<Expr<V>>)
    requires Update(d, schema, table, allowed, allowAll, items, exprs).Statement?
    ensures var u := Update(d, schema, table, allowed, allowAll, items, exprs);
            Updates(sem, row, d, u.text, u.args, TableName(schema, table), EffectsFrom(items, 0), Meaning(sem, row, Group(And, exprs)))
  {
    hide Update, Text, Lex, TokensIn, UpdateChunks, SetArgsFrom, Args, NoNil, ClausesFrom, Condition, EvalWhere, Resolve, EffectsFrom, Meaning, ParseUpdate;
    UpdateIsText(d, schema, table, allowed, allowAll, items, exprs);
    UpdateSpaced(schema, table, items, exprs);
    LexWhole(d, UpdateChunks(schema, table, items, exprs));
    ParsesUpdate(schema, table, items, exprs);
    var mine, theirs := SetArgsFrom(items, 0), Args(Group(And, exprs));
    var args := mine + theirs;
    assert args[0..|mine|] == mine && args[|mine|..|mine| + |theirs|] == theirs;
    ResolvesSets(items, 0, 0, args);
    EvalsWhere(sem, row, args, exprs, |mine|);
  }

  // ---------------------------------------------------------------- each column once

  ghost predicate SetsOnce<V>(items: seq<Assignment<V>>) {
    forall i, j :: 0 <= i < j < |items| ==> items[i].column != items[j].column
  }

  /** No two assignments of the same column come from different owners. */
  ghost predicate OneOwnerPerColumn<V>(items: seq<Assignment<V>>) {
    forall i, j :: 0 <= i < j < |items| && items[i].column == items[j].column ==> items[i].owner == items[j].owner
  }

  /** The model admits the column, by its owner or, without one, by its name. */
  ghost predicate Admits(allowed: Columns, owner: string, column: string) {
    column != "" && (owner + "\0" + column in allowed || (owner == "" && column in allowed))
  }

  ghost predicate AllAdmitted<V>(items: seq<Assignment<V>>, allowed: Columns, i: nat) {
    forall k :: i <= k < |items| ==> Admits(allowed, items[k].owner, items[k].column)
  }

  /** No two assignments have the same owner and column, and none has one already seen. */
  ghost predicate KeysNew<V>(items: seq<Assignment<V>>, i: nat, seen: set<string>) {
    (forall k :: i <= k < |items| ==> ColumnKey(items[k].owner, items[k].column) !in seen) &&
    (forall j, k :: i <= j < k < |items| ==> ColumnKey(items[j].owner, items[j].column) != ColumnKey(items[k].owner, items[k].column))
  }

  lemma KeysNewStep<V>(items: seq<Assignment<V>>, i: nat, seen: set<string>)
    requires i < |items|
    ensures var key := ColumnKey(items[i].owner, items[i].column);
            KeysNew(items, i, seen) <==> key !in seen && KeysNew(items, i + 1, seen + {key})
  {
    hide ColumnKey;
    var key := ColumnKey(items[i].owner, items[i].column);
    if KeysNew(items, i + 1, seen + {key}) {
      assert forall k :: i < k < |items| ==> ColumnKey(items[k].owner, items[k].column) !in seen + {key};
    }
  }

  lemma {:induction false} AssignmentsFromExactly<V>(d: Dialect, items: seq<Assignment<V>>, allowed: Columns, i: nat, seen: set<string>)
    requires i <= |items|
    ensures AssignmentsFrom(d, items, allowed, i, seen).Rendered? <==> AllAdmitted(items, allowed, i) && KeysNew(items, i, seen)
    decreases |items| - i
  {
    if i < |items| {
      var key := ColumnKey(items[i].owner, items[i].column);
      AssignmentsFromExactly(d, items, allowed, i + 1, seen + {key});
      KeysNewStep(items, i, seen);
      assert AllAdmitted(items, allowed, i) <==> Admits(allowed, items[i].owner, items[i].column) && AllAdmitted(items, allowed, i + 1);
      hide KeysNew, AllAdmitted;
    }
  }

  /** A SET list is written exactly when it is not empty, the model admits every column, and no owner and
      column come twice. */
  lemma BuildAssignmentsExactly<V>(d: Dialect, items: seq<Assignment<V>>, allowed: Columns)
    ensures BuildAssignments(d, items, allowed).Rendered? <==> items != [] && AllAdmitted(items, allowed, 0) && KeysNew(items, 0, {})
  {
    AssignmentsFromExactly(d, items, allowed, 0, {});
  }

  /** An UPDATE is refused as unsafe exactly when nothing allows it on all rows and its condition is certain
      whatever the row, and otherwise written exactly when its columns are admitted and none comes twice. */
  lemma UpdatesExactly<V>(
    d: Dialect, schema: string, table: string, allowed: Columns, allowAll: bool, items: seq<Assignment<V>>, exprs: seq<Expr<V>>)
    ensures var r := Update(d, schema, table, allowed, allowAll, items, exprs);
            var e := Group(And, exprs);
            (r == Unsafe <==> !allowAll && Kleene(e) == True) &&
            (r.Statement? <==>
              (allowAll || Kleene(e) != True) && items != [] && AllAdmitted(items, allowed, 0) && KeysNew(items, 0, {}) &&
              (exprs == [] || (NoNil(e) && LeavesNamed(e) && LeavesAllowed(e, allowed))))
  {
    BuildAssignmentsExactly(d, items, allowed);
    BuildWhereExactly(d, exprs, allowed);
    hide BuildAssignments, BuildWhere, Kleene, AllAdmitted, KeysNew, NoNil, LeavesNamed, LeavesAllowed, QuoteTable;
  }

  /** An accepted SET list sets each column once exactly when no column comes with two owners, as the columns
      generated for one model do; the keys it compares are owner and column together. */
  lemma SetsOnceExactly<V>(d: Dialect, items: seq<Assignment<V>>, allowed: Columns)
    requires BuildAssignments(d, items, allowed).Rendered?
    ensures SetsOnce(items) <==> OneOwnerPerColumn(items)
  {
    BuildAssignmentsExactly(d, items, allowed);
    hide AssignmentsFrom, ColumnKey, AllAdmitted;
  }

  /** Two owners do happen: a column without owner and one with, both admitted, are both set.  The columns
      generated for a model all carry its one owner, so they never do this. */
  lemma ColumnsCanBeSetTwice<V>(d: Dialect, v: V, w: V)
    ensures var items := [Assign("", "c", v), Assign("t", "c", w)];
            BuildAssignments(d, items, {"c", ColumnKey("t", "c")}).Rendered? && !SetsOnce(items)
  {
    var items := [Assign("", "c", v), Assign("t", "c", w)];
    var allowed := {"c", ColumnKey("t", "c")};
    var first, second := ColumnKey("", "c"), ColumnKey("t", "c");
    assert first[0] == '\0' && second[0] == 't';
    assert AssignmentsFrom(d, items, allowed, 2, {first, second}).Rendered?;
    assert AssignmentsFrom(d, items, allowed, 1, {first}).Rendered? by { assert {first} + {second} == {first, second}; }
    assert {} + {first} == {first};
    assert items[0].column == items[1].column;
  }

  /** How a database adds and subtracts, and its NULL. */
  datatype Arithmetic<!V> = Arithmetic(shift: (bool, V, V) -> V, null_: V)

  ghost function NewValue<V>(ar: Arithmetic<V>, row: string -> V, e: Effect<V>): V {
    match e
    case ToValue(_, value) => value
    case ToSum(_, source, plus, value) => ar.shift(plus, row(source), value)
    case ToNull(_) => ar.null_
  }

  ghost function Put<V>(row: string -> V, column: string, value: V): string -> V { c => if c == column then value else row(c) }

  /** All right-hand sides read the row as it was, as PostgreSQL does. */
  ghost function AtOnce<V>(ar: Arithmetic<V>, before: string -> V, row: string -> V, effects: seq<Effect<V>>): string -> V
    decreases effects
  {
    if effects == [] then row
    else AtOnce(ar, before, Put(row, effects[0].column, NewValue(ar, before, effects[0])), effects[1..])
  }

  /** Each right-hand side reads the row the assignments before it have left, as MySQL does. */
  ghost function LeftToRight<V>(ar: Arithmetic<V>, row: string -> V, effects: seq<Effect<V>>): string -> V
    decreases effects
  {
    if effects == [] then row
    else LeftToRight(ar, Put(row, effects[0].column, NewValue(ar, row, effects[0])), effects[1..])
  }

  /** An effect reads no column but its own. */
  ghost predicate ReadsItself<V>(e: Effect<V>) { e.ToSum? ==> e.source == e.column }

  lemma {:induction false} OrdersOfSetAgree<V>(ar: Arithmetic<V>, before: string -> V, row: string -> V, effects: seq<Effect<V>>)
    requires forall i :: 0 <= i < |effects| ==> ReadsItself(effects[i]) && row(effects[i].column) == before(effects[i].column)
    requires forall i, j :: 0 <= i < j < |effects| ==> effects[i].column != effects[j].column
    ensures LeftToRight(ar, row, effects) == AtOnce(ar, before, row, effects)
    decreases effects
  {
    if effects != [] {
      var e := effects[0];
      var row' := Put(row, e.column, NewValue(ar, row, e));
      assert NewValue(ar, row, e) == NewValue(ar, before, e);
      forall i | 0 <= i < |effects[1..]|
        ensures ReadsItself(effects[1..][i]) && row'(effects[1..][i].column) == before(effects[1..][i].column)
      {
        assert effects[1..][i] == effects[i + 1];
      }
      OrdersOfSetAgree(ar, before, row', effects[1..]);
    }
  }

  lemma {:induction false} EffectsAt<V>(items: seq<Assignment<V>>, i: nat, k: nat)
    requires i <= |items|
    ensures |EffectsFrom(items, i)| == |items| - i
    ensures k < |items| - i ==> EffectsFrom(items, i)[k] == EffectOf(items[i + k])
    decreases |items| - i
  {
    if i < |items| { EffectsAt(items, i + 1, if k == 0 then 0 else k - 1); }
  }

  /** With one owner per column the two orders of evaluation give the same row, so an UPDATE means the same in
      both dialects. */
  lemma DialectsAgreeOnSet<V>(ar: Arithmetic<V>, row: string -> V, d: Dialect, items: seq<Assignment<V>>, allowed: Columns)
    requires BuildAssignments(d, items, allowed).Rendered? && OneOwnerPerColumn(items)
    ensures LeftToRight(ar, row, EffectsFrom(items, 0)) == AtOnce(ar, row, row, EffectsFrom(items, 0))
  {
    SetsOnceExactly(d, items, allowed);
    var effects := EffectsFrom(items, 0);
    EffectsAt(items, 0, 0);
    forall i | 0 <= i < |effects| ensures effects[i] == EffectOf(items[i]) { EffectsAt(items, 0, i); }
    hide BuildAssignments, EffectsFrom;
    OrdersOfSetAgree(ar, row, row, effects);
  }
}
