/** The predicate trees of `pkg/sqlxgen/sqlxgen.go`: what they mean, how they are rendered, and the
    classifier that guards mutations.

    An `Expr` is what the column constructors, `And`, `Or` and `Not` can build; `Nil` is a nil
    interface value.  Argument values are opaque to the renderer, so their type is a parameter. */
module SqlExpr {
  datatype Dialect = PostgreSQL | MySQL

  datatype Comparison = Eq | Ne | Gt | Gte | Lt | Lte | Like

  datatype Connective = And | Or

  datatype Expr<V> =
    | Compare(owner: string, column: string, op: Comparison, value: V)
    | InList(owner: string, column: string, negated: bool, values: seq<V>)
    | Between(owner: string, column: string, low: V, high: V)
    | NullTest(owner: string, column: string, negated: bool)
    | Group(connective: Connective, exprs: seq<Expr<V>>)
    | Not(expr: Expr<V>)
    | Nil

  // ---------------------------------------------------------------- three-valued logic

  datatype Truth = True | False | Unknown

  function And3(a: Truth, b: Truth): Truth {
    if a.False? || b.False? then False else if a.True? && b.True? then True else Unknown
  }

  function Or3(a: Truth, b: Truth): Truth {
    if a.True? || b.True? then True else if a.False? && b.False? then False else Unknown
  }

  function Not3(a: Truth): Truth {
    match a
    case True => False
    case False => True
    case Unknown => Unknown
  }

  function Connect(c: Connective, a: Truth, b: Truth): Truth { if c.And? then And3(a, b) else Or3(a, b) }

  function Neutral(c: Connective): Truth { if c.And? then True else False }

  // ---------------------------------------------------------------- meaning

  /** What a database makes of values: how it compares them and which of them is NULL. */
  datatype Sem<!V> = Sem(compare: (Comparison, V, V) -> Truth, isNull: V -> bool)

  ghost function AnyEqual<V>(sem: Sem<V>, x: V, values: seq<V>): Truth {
    if values == [] then False else Or3(sem.compare(Eq, x, values[0]), AnyEqual(sem, x, values[1..]))
  }

  /** The truth value of a predicate on a row. */
  ghost function Meaning<V>(sem: Sem<V>, row: string -> V, e: Expr<V>): Truth
    decreases e, 0
  {
    match e
    case Compare(_, column, op, value) => sem.compare(op, row(column), value)
    case InList(_, column, negated, values) =>
      var any := AnyEqual(sem, row(column), values);
      if negated then Not3(any) else any
    case Between(_, column, low, high) =>
      And3(sem.compare(Gte, row(column), low), sem.compare(Lte, row(column), high))
    case NullTest(_, column, negated) => if sem.isNull(row(column)) != negated then True else False
    case Group(c, es) => MeaningFrom(sem, row, c, es, 0)
    case Not(child) => Not3(Meaning(sem, row, child))
    case Nil => Unknown
  }

  ghost function MeaningFrom<V>(sem: Sem<V>, row: string -> V, c: Connective, es: seq<Expr<V>>, i: nat): Truth
    requires i <= |es|
    decreases es, |es| - i
  {
    if i == |es| then Neutral(c) else Connect(c, Meaning(sem, row, es[i]), MeaningFrom(sem, row, c, es, i + 1))
  }

  // ---------------------------------------------------------------- rendering

  datatype Rendered<V> = Rendered(text: string, args: seq<V>) | InvalidArgument

  function QuoteMark(d: Dialect): char { if d.MySQL? then '`' else '"' }

  function Doubled(mark: char, s: string): string {
    if s == [] then [] else (if s[0] == mark then [mark, mark] else [s[0]]) + Doubled(mark, s[1..])
  }

  function QuoteIdentifier(d: Dialect, identifier: string): string {
    [QuoteMark(d)] + Doubled(QuoteMark(d), identifier) + [QuoteMark(d)]
  }

  function Operator(op: Comparison): string {
    match op
    case Eq => "="
    case Ne => "<>"
    case Gt => ">"
    case Gte => ">="
    case Lt => "<"
    case Lte => "<="
    case Like => "LIKE"
  }

  function Word(c: Connective): string { if c.And? then "AND" else "OR" }

  function Separator(c: Connective, i: nat): string { if i == 0 then "" else " " + Word(c) + " " }

  /** `?, ?, ..., ?` */
  function Placeholders(n: nat): string {
    if n == 0 then "" else if n == 1 then "?" else "?" + ", " + Placeholders(n - 1)
  }

  function Render<V>(d: Dialect, e: Expr<V>): Rendered<V>
    decreases e, 0
  {
    match e
    case Compare(_, column, op, value) =>
      if column == "" then InvalidArgument
      else Rendered(QuoteIdentifier(d, column) + " " + Operator(op) + " ?", [value])
    case InList(_, column, negated, values) =>
      if column == "" then InvalidArgument
      else if values == [] then Rendered(if negated then "1 = 1" else "1 = 0", [])
      else Rendered(QuoteIdentifier(d, column) + (if negated then " NOT IN (" else " IN (") + Placeholders(|values|) + ")", values)
    case Between(_, column, low, high) =>
      if column == "" then InvalidArgument
      else Rendered(QuoteIdentifier(d, column) + " BETWEEN ? AND ?", [low, high])
    case NullTest(_, column, negated) =>
      if column == "" then InvalidArgument
      else Rendered(QuoteIdentifier(d, column) + (if negated then " IS NOT NULL" else " IS NULL"), [])
    case Group(c, es) =>
      if es == [] then Rendered(if c.And? then "1 = 1" else "1 = 0", []) else RenderFrom(d, c, es, 0)
    case Not(child) =>
      (match Render(d, child)
       case InvalidArgument => InvalidArgument
       case Rendered(text, args) => Rendered("NOT (" + text + ")", args))
    case Nil => InvalidArgument
  }

  function RenderFrom<V>(d: Dialect, c: Connective, es: seq<Expr<V>>, i: nat): Rendered<V>
    requires i <= |es|
    decreases es, |es| - i
  {
    if i == |es| then Rendered("", [])
    else
      match Render(d, es[i])
      case InvalidArgument => InvalidArgument
      case Rendered(part, args) => Before(Piece(c, i, part), args, RenderFrom(d, c, es, i + 1))
  }

  function Piece(c: Connective, i: nat, part: string): string { Separator(c, i) + "(" + part + ")" }

  function Before<V>(text: string, args: seq<V>, r: Rendered<V>): Rendered<V> {
    match r
    case InvalidArgument => InvalidArgument
    case Rendered(rest, more) => Rendered(text + rest, args + more)
  }

  lemma BeforeTwice<V>(t: string, a: seq<V>, t': string, a': seq<V>, r: Rendered<V>)
    ensures Before(t, a, Before(t', a', r)) == Before(t + t', a + a', r)
  {
    if r.Rendered? {
      assert t + (t' + r.text) == (t + t') + r.text && a + (a' + r.args) == (a + a') + r.args;
    }
  }

  lemma {:induction false} OneMorePlaceholder(n: nat)
    requires n > 0
    ensures Placeholders(n + 1) == Placeholders(n) + ", " + "?"
  {
    if n > 1 {
      OneMorePlaceholder(n - 1);
      assert "?" + ", " + (Placeholders(n - 1) + ", " + "?") == "?" + ", " + Placeholders(n - 1) + ", " + "?";
    }
  }

  /** The placeholder loop of an IN list. */
  method WritePlaceholders(n: nat) returns (text: string)
    ensures text == Placeholders(n)
  {
    text := "";
    for index := 0 to n
      invariant text == Placeholders(index)
    {
      if index > 0 {
        OneMorePlaceholder(index);
        text := text + ", ";
      }
      text := text + "?";
    }
  }

  /** `render` as the source runs it, with a builder and an argument slice. */
  method RenderExpr<V>(d: Dialect, e: Expr<V>) returns (r: Rendered<V>)
    ensures r == Render(d, e)
    decreases e, 0
  {
    match e
    case Compare(_, column, op, value) =>
      if column == "" { return InvalidArgument; }
      r := Rendered(QuoteIdentifier(d, column) + " " + Operator(op) + " ?", [value]);
    case InList(_, column, negated, values) =>
      if column == "" { return InvalidArgument; }
      if values == [] { return Rendered(if negated then "1 = 1" else "1 = 0", []); }
      var marks := WritePlaceholders(|values|);
      r := Rendered(QuoteIdentifier(d, column) + (if negated then " NOT IN (" else " IN (") + marks + ")", values);
    case Between(_, column, low, high) =>
      if column == "" { return InvalidArgument; }
      r := Rendered(QuoteIdentifier(d, column) + " BETWEEN ? AND ?", [low, high]);
    case NullTest(_, column, negated) =>
      if column == "" { return InvalidArgument; }
      r := Rendered(QuoteIdentifier(d, column) + (if negated then " IS NOT NULL" else " IS NULL"), []);
    case Group(c, es) =>
      if es == [] { return Rendered(if c.And? then "1 = 1" else "1 = 0", []); }
      r := RenderGroup(d, c, es);
    case Not(child) =>
      var inner := RenderExpr(d, child);
      if inner.InvalidArgument? { return InvalidArgument; }
      r := Rendered("NOT (" + inner.text + ")", inner.args);
    case Nil =>
      r := InvalidArgument;
  }

  lemma RenderStep<V>(d: Dialect, c: Connective, es: seq<Expr<V>>, i: nat)
    requires i < |es|
    ensures var part := Render(d, es[i]);
            RenderFrom(d, c, es, i)
              == if part.InvalidArgument? then InvalidArgument else Before(Piece(c, i, part.text), part.args, RenderFrom(d, c, es, i + 1))
  {
    hide Render, Piece, Before;
  }

  method RenderGroup<V>(d: Dialect, c: Connective, es: seq<Expr<V>>) returns (r: Rendered<V>)
    ensures r == RenderFrom(d, c, es, 0)
    decreases es, |es| + 1
  {
    var builder, arguments: seq<V> := "", [];
    for index := 0 to |es|
      invariant RenderFrom(d, c, es, 0) == Before(builder, arguments, RenderFrom(d, c, es, index))
    {
      var part := RenderExpr(d, es[index]);
      RenderStep(d, c, es, index);
      hide RenderFrom, Render, Piece;
      if part.InvalidArgument? { return InvalidArgument; }
      BeforeTwice(builder, arguments, Piece(c, index, part.text), part.args, RenderFrom(d, c, es, index + 1));
      builder := builder + Piece(c, index, part.text);
      arguments := arguments + part.args;
    }
    r := Rendered(builder, arguments);
  }

  // ---------------------------------------------------------------- BuildWhere

  type Columns = set<string>

  function ColumnKey(owner: string, column: string): string { owner + "\0" + column }

  predicate AllowedColumn(owner: string, column: string, allowed: Columns) {
    ColumnKey(owner, column) in allowed || (owner == "" && column in allowed)
  }

  /** `validateExprColumns` on one expression. */
  predicate ColumnsAllowed<V>(e: Expr<V>, allowed: Columns)
    decreases e
  {
    match e
    case Compare(owner, column, _, _) => AllowedColumn(owner, column, allowed)
    case InList(owner, column, _, _) => AllowedColumn(owner, column, allowed)
    case Between(owner, column, _, _) => AllowedColumn(owner, column, allowed)
    case NullTest(owner, column, _) => AllowedColumn(owner, column, allowed)
    case Group(_, es) => forall i :: 0 <= i < |es| ==> ColumnsAllowed(es[i], allowed)
    case Not(child) => ColumnsAllowed(child, allowed)
    case Nil => false
  }

  function BuildWhere<V>(d: Dialect, exprs: seq<Expr<V>>, allowed: Columns): Rendered<V> {
    if exprs == [] then Rendered("", [])
    else if !ColumnsAllowed(Group(And, exprs), allowed) then InvalidArgument
    else
      match Render(d, Group(And, exprs))
      case InvalidArgument => InvalidArgument
      case Rendered(text, args) => Rendered(" WHERE " + text, args)
  }

  // ---------------------------------------------------------------- the guard of mutations

  /** Strong Kleene evaluation with every leaf unknown except an empty list. */
  ghost function Kleene<V>(e: Expr<V>): Truth
    decreases e, 0
  {
    match e
    case InList(_, _, negated, values) => if values != [] then Unknown else if negated then True else False
    case Group(c, es) => KleeneFrom(c, es, 0)
    case Not(child) => Not3(Kleene(child))
    case _ => Unknown
  }

  ghost function KleeneFrom<V>(c: Connective, es: seq<Expr<V>>, i: nat): Truth
    requires i <= |es|
    decreases es, |es| - i
  {
    if i == |es| then Neutral(c) else Connect(c, Kleene(es[i]), KleeneFrom(c, es, i + 1))
  }

  /** `classifyPredicate`, with its early exits and its two flags: it computes the Kleene value. */
  method ClassifyPredicate<V>(e: Expr<V>) returns (class_: Truth)
    ensures class_ == Kleene(e)
    decreases e
  {
    match e
    case InList(_, _, negated, values) =>
      if values != [] { return Unknown; }
      class_ := if negated then True else False;
    case Not(child) =>
      var inner := ClassifyPredicate(child);
      class_ := match inner { case True => False case False => True case Unknown => Unknown };
    case Group(c, es) =>
      if es == [] { return if c.And? then True else False; }
      var allTrue, allFalse := true, true;
      for i := 0 to |es|
        invariant Kleene(e) == KleeneFrom(c, es, 0)
        invariant var seen := if i == 0 then Neutral(c) else if allTrue then True else if allFalse then False else Unknown;
                  KleeneFrom(c, es, 0) == Connect(c, seen, KleeneFrom(c, es, i))
        invariant i > 0 ==> !(allTrue && allFalse)
        invariant i > 0 ==> !(if c.And? then allFalse else allTrue)
        invariant i == 0 ==> allTrue && allFalse
      {
        var child := ClassifyPredicate(es[i]);
        if c.And? && child.False? { return False; }
        if c.Or? && child.True? { return True; }
        allTrue := allTrue && child.True?;
        allFalse := allFalse && child.False?;
      }
      class_ := if allTrue then True else if allFalse then False else Unknown;
    case _ =>
      class_ := Unknown;
  }

  method IsUnrestricted<V>(exprs: seq<Expr<V>>) returns (b: bool)
    ensures b <==> Kleene(Group(And, exprs)).True?
  {
    if exprs == [] { return true; }
    var class_ := ClassifyPredicate(Group(And, exprs));
    b := class_.True?;
  }

  /** A decided Kleene value is the truth value on every row, whatever the database compares. */
  lemma {:induction false} KleeneIsSound<V>(sem: Sem<V>, row: string -> V, e: Expr<V>)
    ensures !Kleene(e).Unknown? ==> Meaning(sem, row, e) == Kleene(e)
    decreases e, 0
  {
    match e
    case Group(c, es) => KleeneFromIsSound(sem, row, c, es, 0);
    case Not(child) => KleeneIsSound(sem, row, child);
    case _ =>
  }

  lemma {:induction false} KleeneFromIsSound<V>(sem: Sem<V>, row: string -> V, c: Connective, es: seq<Expr<V>>, i: nat)
    requires i <= |es|
    ensures !KleeneFrom(c, es, i).Unknown? ==> MeaningFrom(sem, row, c, es, i) == KleeneFrom(c, es, i)
    decreases es, |es| - i
  {
    if i < |es| {
      KleeneIsSound(sem, row, es[i]);
      KleeneFromIsSound(sem, row, c, es, i + 1);
    }
  }

  /** The predicate when each leaf that is not constant has the truth value given to it. */
  ghost function Assigned<V>(leaf: Expr<V> -> Truth, e: Expr<V>): Truth
    decreases e, 0
  {
    match e
    case InList(_, _, negated, values) => if values != [] then leaf(e) else if negated then True else False
    case Group(c, es) => AssignedFrom(leaf, c, es, 0)
    case Not(child) => Not3(Assigned(leaf, child))
    case _ => leaf(e)
  }

  ghost function AssignedFrom<V>(leaf: Expr<V> -> Truth, c: Connective, es: seq<Expr<V>>, i: nat): Truth
    requires i <= |es|
    decreases es, |es| - i
  {
    if i == |es| then Neutral(c) else Connect(c, Assigned(leaf, es[i]), AssignedFrom(leaf, c, es, i + 1))
  }

  lemma {:induction false} AssignedKleene<V>(leaf: Expr<V> -> Truth, e: Expr<V>)
    ensures !Kleene(e).Unknown? ==> Assigned(leaf, e) == Kleene(e)
    ensures Assigned(_ => Unknown, e) == Kleene(e)
    decreases e, 0
  {
    match e
    case Group(c, es) => AssignedFromKleene(leaf, c, es, 0);
    case Not(child) => AssignedKleene(leaf, child);
    case _ =>
  }

  lemma {:induction false} AssignedFromKleene<V>(leaf: Expr<V> -> Truth, c: Connective, es: seq<Expr<V>>, i: nat)
    requires i <= |es|
    ensures !KleeneFrom(c, es, i).Unknown? ==> AssignedFrom(leaf, c, es, i) == KleeneFrom(c, es, i)
    ensures AssignedFrom(_ => Unknown, c, es, i) == KleeneFrom(c, es, i)
    decreases es, |es| - i
  {
    if i < |es| {
      AssignedKleene(leaf, es[i]);
      AssignedFromKleene(leaf, c, es, i + 1);
    }
  }

  /** The guard refuses exactly the predicate lists that are true under every assignment of truth values to
      their leaves. */
  lemma GuardIsExactOnLeaves<V(!new)>(exprs: seq<Expr<V>>)
    ensures Kleene(Group(And, exprs)).True? <==> forall leaf: Expr<V> -> Truth :: Assigned(leaf, Group(And, exprs)).True?
  {
    var e := Group(And, exprs);
    forall leaf: Expr<V> -> Truth ensures Kleene(e).True? ==> Assigned(leaf, e).True? { AssignedKleene(leaf, e); }
    AssignedKleene(_ => Unknown, e);
  }

  ghost predicate NoNullTest<V>(e: Expr<V>)
    decreases e
  {
    match e
    case NullTest(_, _, _) => false
    case Group(_, es) => forall i :: 0 <= i < |es| ==> NoNullTest(es[i])
    case Not(child) => NoNullTest(child)
    case _ => true
  }

  /** `null` compares as unknown with everything. */
  ghost predicate IsNull<V(!new)>(sem: Sem<V>, null_: V) {
    forall op, v :: sem.compare(op, null_, v).Unknown?
  }

  /** On the row of NULLs a predicate without null tests has exactly its Kleene value. */
  lemma {:induction false} KleeneIsTheNullRow<V(!new)>(sem: Sem<V>, null_: V, e: Expr<V>)
    requires IsNull(sem, null_) && NoNullTest(e)
    ensures Meaning(sem, _ => null_, e) == Kleene(e)
    decreases e, 0
  {
    match e
    case Group(c, es) => KleeneFromIsTheNullRow(sem, null_, c, es, 0);
    case Not(child) => KleeneIsTheNullRow(sem, null_, child);
    case InList(_, _, _, values) => AnyEqualToNull(sem, null_, values);
    case _ =>
  }

  lemma {:induction false} KleeneFromIsTheNullRow<V(!new)>(sem: Sem<V>, null_: V, c: Connective, es: seq<Expr<V>>, i: nat)
    requires i <= |es| && IsNull(sem, null_) && forall k :: 0 <= k < |es| ==> NoNullTest(es[k])
    ensures MeaningFrom(sem, _ => null_, c, es, i) == KleeneFrom(c, es, i)
    decreases es, |es| - i
  {
    if i < |es| {
      KleeneIsTheNullRow(sem, null_, es[i]);
      KleeneFromIsTheNullRow(sem, null_, c, es, i + 1);
    }
  }

  lemma AnyEqualToNull<V(!new)>(sem: Sem<V>, null_: V, values: seq<V>)
    requires IsNull(sem, null_)
    ensures AnyEqual(sem, null_, values) == if values == [] then False else Unknown
  {
  }

  /** The guard is exact on predicates without null tests: they are refused if and only if they hold on
      every row, in any database that has a NULL. */
  lemma GuardIsExact<V(!new)>(sem: Sem<V>, null_: V, exprs: seq<Expr<V>>)
    requires IsNull(sem, null_) && NoNullTest(Group(And, exprs))
    ensures Kleene(Group(And, exprs)).True? <==> forall row: string -> V :: Meaning(sem, row, Group(And, exprs)).True?
  {
    var e := Group(And, exprs);
    if Kleene(e).True? {
      forall row: string -> V ensures Meaning(sem, row, e).True? { KleeneIsSound(sem, row, e); }
    } else {
      KleeneIsTheNullRow(sem, null_, e);
      assert !Meaning(sem, _ => null_, e).True?;
    }
  }

  /** Null tests are where it is only sound: `c IS NULL OR c IS NOT NULL` holds on every row, and the
      guard lets it through. */
  lemma NullTestsEscapeTheGuard<V(!new)>(sem: Sem<V>)
    ensures var e: Expr<V> := Group(Or, [NullTest("", "c", false), NullTest("", "c", true)]);
            !Kleene(Group(And, [e])).True? && forall row: string -> V :: Meaning(sem, row, Group(And, [e])).True?
  {
    var es: seq<Expr<V>> := [NullTest("", "c", false), NullTest("", "c", true)];
    var e := Group(Or, es);
    assert KleeneFrom(Or, es, 1) == Or3(Kleene(es[1]), KleeneFrom(Or, es, 2));
    assert Kleene(e).Unknown?;
    assert KleeneFrom(And, [e], 1) == True;
    forall row: string -> V ensures Meaning(sem, row, Group(And, [e])).True? {
      assert MeaningFrom(sem, row, Or, es, 1) == Or3(Meaning(sem, row, es[1]), MeaningFrom(sem, row, Or, es, 2));
      assert Meaning(sem, row, e).True?;
      assert MeaningFrom(sem, row, And, [e], 1) == True;
    }
  }

  // ---------------------------------------------------------------- deciding null tests

  /** The columns a predicate tests for NULL. */
  ghost function NullColumns<V>(e: Expr<V>): set<string>
    decreases e
  {
    match e
    case NullTest(_, column, _) => {column}
    case Group(_, es) => set i, c | 0 <= i < |es| && c in NullColumns(es[i]) :: c
    case Not(child) => NullColumns(child)
    case _ => {}
  }

  /** Strong Kleene evaluation when the null tests are decided, exactly the columns in `nulls` being NULL,
      and every other leaf that is not constant is unknown. */
  ghost function KleeneAt<V>(nulls: set<string>, e: Expr<V>): Truth
    decreases e, 0
  {
    match e
    case InList(_, _, negated, values) => if values != [] then Unknown else if negated then True else False
    case NullTest(_, column, negated) => if (column in nulls) != negated then True else False
    case Group(c, es) => KleeneAtFrom(nulls, c, es, 0)
    case Not(child) => Not3(KleeneAt(nulls, child))
    case _ => Unknown
  }

  ghost function KleeneAtFrom<V>(nulls: set<string>, c: Connective, es: seq<Expr<V>>, i: nat): Truth
    requires i <= |es|
    decreases es, |es| - i
  {
    if i == |es| then Neutral(c) else Connect(c, KleeneAt(nulls, es[i]), KleeneAtFrom(nulls, c, es, i + 1))
  }

  /** On the columns given, the row is NULL exactly where `nulls` says. */
  ghost predicate NullsAre<V>(sem: Sem<V>, row: string -> V, columns: set<string>, nulls: set<string>) {
    forall c <- columns :: sem.isNull(row(c)) <==> c in nulls
  }

  lemma {:induction false} KleeneAtIsSound<V>(sem: Sem<V>, row: string -> V, nulls: set<string>, e: Expr<V>)
    requires NullsAre(sem, row, NullColumns(e), nulls)
    ensures !KleeneAt(nulls, e).Unknown? ==> Meaning(sem, row, e) == KleeneAt(nulls, e)
    decreases e, 0
  {
    match e
    case Group(c, es) => KleeneAtFromIsSound(sem, row, nulls, c, es, 0);
    case Not(child) => KleeneAtIsSound(sem, row, nulls, child);
    case NullTest(_, column, _) => assert column in NullColumns(e);
    case _ =>
  }

  lemma {:induction false} KleeneAtFromIsSound<V>(sem: Sem<V>, row: string -> V, nulls: set<string>, c: Connective, es: seq<Expr<V>>, i: nat)
    requires i <= |es| && NullsAre(sem, row, NullColumns(Group(c, es)), nulls)
    ensures !KleeneAtFrom(nulls, c, es, i).Unknown? ==> MeaningFrom(sem, row, c, es, i) == KleeneAtFrom(nulls, c, es, i)
    decreases es, |es| - i
  {
    if i < |es| {
      forall column | column in NullColumns(es[i]) ensures sem.isNull(row(column)) <==> column in nulls {
        assert column in NullColumns(Group(c, es));
      }
      KleeneAtIsSound(sem, row, nulls, es[i]);
      KleeneAtFromIsSound(sem, row, nulls, c, es, i + 1);
    }
  }

  /** The predicate has the value true for every choice of the NULL columns it tests. */
  ghost predicate HoldsForAllNulls<V>(e: Expr<V>) {
    forall nulls: set<string> :: nulls <= NullColumns(e) ==> KleeneAt(nulls, e).True?
  }

  /** That is enough to hold on every row, whatever the database compares. */
  lemma HoldsForAllNullsSuffices<V>(sem: Sem<V>, row: string -> V, e: Expr<V>)
    requires HoldsForAllNulls(e)
    ensures Meaning(sem, row, e).True?
  {
    var nulls := set c | c in NullColumns(e) && sem.isNull(row(c));
    assert KleeneAt(nulls, e).True?;
    KleeneAtIsSound(sem, row, nulls, e);
  }
}
