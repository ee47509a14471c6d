/** When the guard of mutations is exact on rows: which predicates hold on every row of every SQL database, and
    which of them it lets through.

    What is assumed of a database: a comparison is unknown exactly when a side is NULL; the other values are
    totally preordered, and the six comparison operators follow from that order; the constants of the predicate
    compare with each other as given.  A column may take values between and beyond the constants, and LIKE
    decides as it likes. */
module SqlGuard {
  import opened SqlExpr

  // ---------------------------------------------------------------- SQL databases

  /** What an operator says about two values, from "at most" in both directions. */
  predicate Decides(op: Comparison, le: bool, ge: bool)
    requires !op.Like?
  {
    match op
    case Eq => le && ge
    case Ne => !(le && ge)
    case Gt => !le
    case Gte => ge
    case Lt => !ge
    case Lte => le
  }

  function Known(b: bool): Truth { if b then True else False }

  ghost predicate AtMost<V>(sem: Sem<V>, x: V, y: V) { sem.compare(Lte, x, y).True? }

  ghost predicate LawfulAt<V>(sem: Sem<V>, null_: V, op: Comparison, x: V, v: V) {
    (sem.compare(op, x, v).Unknown? <==> x == null_ || v == null_) &&
    (x != null_ && v != null_ && !op.Like? ==> sem.compare(op, x, v) == Known(Decides(op, AtMost(sem, x, v), AtMost(sem, v, x))))
  }

  ghost predicate IsSql<V(!new)>(sem: Sem<V>, null_: V) {
    (forall x :: sem.isNull(x) <==> x == null_) &&
    (forall op, x, v :: LawfulAt(sem, null_, op, x, v)) &&
    (forall x, y :: x != null_ && y != null_ ==> AtMost(sem, x, y) || AtMost(sem, y, x)) &&
    (forall x, y, z :: AtMost(sem, x, y) && AtMost(sem, y, z) ==> AtMost(sem, x, z))
  }

  /** The database orders the constants in this way. */
  ghost predicate Orders<V>(sem: Sem<V>, null_: V, order: V -> int, values: set<V>) {
    forall v, w :: v in values && w in values && v != null_ && w != null_ ==> (AtMost(sem, v, w) <==> order(v) <= order(w))
  }

  // ---------------------------------------------------------------- leaves of a predicate

  ghost function Columns<V>(e: Expr<V>): set<string>
    decreases e
  {
    match e
    case Group(_, es) => set i, c | 0 <= i < |es| && c in Columns(es[i]) :: c
    case Not(child) => Columns(child)
    case Nil => {}
    case _ => {e.column}
  }

  ghost function Constants<V>(e: Expr<V>): set<V>
    decreases e
  {
    match e
    case Compare(_, _, _, value) => {value}
    case InList(_, _, _, values) => set v | v in values
    case Between(_, _, low, high) => {low, high}
    case Group(_, es) => set i, v | 0 <= i < |es| && v in Constants(es[i]) :: v
    case Not(child) => Constants(child)
    case _ => {}
  }

  // ---------------------------------------------------------------- deciding the leaves

  /** A choice for the columns of a predicate: which are NULL, where the others lie among the constants, and
      what LIKE says.  A constant lies at twice its place in the order, so there is room between any two. */
  datatype Choice<!V> = Choice(nulls: set<string>, place: string -> int, like: (string, V) -> bool)

  ghost function CompareAt<V>(null_: V, order: V -> int, w: Choice<V>, op: Comparison, c: string, v: V): Truth {
    if c in w.nulls || v == null_ then Unknown
    else if op.Like? then Known(w.like(c, v))
    else Known(Decides(op, w.place(c) <= 2 * order(v), 2 * order(v) <= w.place(c)))
  }

  ghost function AnyAt<V>(null_: V, order: V -> int, w: Choice<V>, c: string, values: seq<V>): Truth {
    if values == [] then False else Or3(CompareAt(null_, order, w, Eq, c, values[0]), AnyAt(null_, order, w, c, values[1..]))
  }

  ghost function ValueAt<V>(null_: V, order: V -> int, w: Choice<V>, e: Expr<V>): Truth
    decreases e, 0
  {
    match e
    case Compare(_, c, op, value) => CompareAt(null_, order, w, op, c, value)
    case InList(_, c, negated, values) =>
      var any := AnyAt(null_, order, w, c, values);
      if negated then Not3(any) else any
    case Between(_, c, low, high) => And3(CompareAt(null_, order, w, Gte, c, low), CompareAt(null_, order, w, Lte, c, high))
    case NullTest(_, c, negated) => Known((c in w.nulls) != negated)
    case Group(c, es) => ValueAtFrom(null_, order, w, c, es, 0)
    case Not(child) => Not3(ValueAt(null_, order, w, child))
    case Nil => Unknown
  }

  ghost function ValueAtFrom<V>(null_: V, order: V -> int, w: Choice<V>, c: Connective, es: seq<Expr<V>>, i: nat): Truth
    requires i <= |es|
    decreases es, |es| - i
  {
    if i == |es| then Neutral(c) else Connect(c, ValueAt(null_, order, w, es[i]), ValueAtFrom(null_, order, w, c, es, i + 1))
  }

  /** Row and choice say the same about these columns and constants. */
  ghost predicate Agree<V>(sem: Sem<V>, row: string -> V, null_: V, order: V -> int, w: Choice<V>, columns: set<string>, values: set<V>) {
    (forall c <- columns :: sem.isNull(row(c)) <==> c in w.nulls) &&
    forall op, c, v :: c in columns && v in values ==> sem.compare(op, row(c), v) == CompareAt(null_, order, w, op, c, v)
  }

  lemma {:induction false} AnyAgrees<V>(
    sem: Sem<V>, row: string -> V, null_: V, order: V -> int, w: Choice<V>, columns: set<string>, all: set<V>, c: string, values: seq<V>)
    requires Agree(sem, row, null_, order, w, columns, all) && c in columns && forall v <- values :: v in all
    ensures AnyEqual(sem, row(c), values) == AnyAt(null_, order, w, c, values)
    decreases values
  {
    if values != [] {
      assert values[0] in values && forall v <- values[1..] :: v in values;
      AnyAgrees(sem, row, null_, order, w, columns, all, c, values[1..]);
    }
  }

  lemma {:induction false} MeaningIsValueAt<V>(
    sem: Sem<V>, row: string -> V, null_: V, order: V -> int, w: Choice<V>, columns: set<string>, values: set<V>, e: Expr<V>)
    requires Agree(sem, row, null_, order, w, columns, values) && Columns(e) <= columns && Constants(e) <= values
    ensures Meaning(sem, row, e) == ValueAt(null_, order, w, e)
    decreases e, 0
  {
    match e
    case Compare(_, c, _, value) => assert c in Columns(e) && value in Constants(e);
    case InList(_, c, _, list) =>
      assert c in Columns(e) && forall v <- list :: v in Constants(e);
      AnyAgrees(sem, row, null_, order, w, columns, values, c, list);
    case Between(_, c, low, high) => assert c in Columns(e) && low in Constants(e) && high in Constants(e);
    case NullTest(_, c, _) => assert c in Columns(e);
    case Group(c, es) => MeaningFromIsValueAt(sem, row, null_, order, w, columns, values, c, es, 0);
    case Not(child) => MeaningIsValueAt(sem, row, null_, order, w, columns, values, child);
    case Nil =>
  }

  lemma {:induction false} MeaningFromIsValueAt<V>(
    sem: Sem<V>, row: string -> V, null_: V, order: V -> int, w: Choice<V>, columns: set<string>, values: set<V>, c: Connective,
    es: seq<Expr<V>>, i: nat)
    requires i <= |es| && Agree(sem, row, null_, order, w, columns, values)
    requires Columns(Group(c, es)) <= columns && Constants(Group(c, es)) <= values
    ensures MeaningFrom(sem, row, c, es, i) == ValueAtFrom(null_, order, w, c, es, i)
    decreases es, |es| - i
  {
    if i < |es| {
      forall x | x in Columns(es[i]) ensures x in columns { assert x in Columns(Group(c, es)); }
      forall v | v in Constants(es[i]) ensures v in values { assert v in Constants(Group(c, es)); }
      hide Agree;
      MeaningIsValueAt(sem, row, null_, order, w, columns, values, es[i]);
      MeaningFromIsValueAt(sem, row, null_, order, w, columns, values, c, es, i + 1);
    }
  }

  // ---------------------------------------------------------------- every row makes a choice

  /** A place among the constants that says about each what the value says. */
  ghost predicate Fits<V>(sem: Sem<V>, null_: V, order: V -> int, values: set<V>, x: V, p: int) {
    forall v :: v in values && v != null_ ==>
      (AtMost(sem, x, v) <==> p <= 2 * order(v)) && (AtMost(sem, v, x) <==> 2 * order(v) <= p)
  }

  lemma {:induction false} LowerBound<V>(order: V -> int, values: set<V>) returns (b: int)
    ensures forall v <- values :: b < 2 * order(v)
    decreases |values|
  {
    if values == {} {
      b := 0;
    } else {
      var v :| v in values;
      var rest := LowerBound(order, values - {v});
      b := if rest < 2 * order(v) then rest else 2 * order(v) - 1;
      forall u | u in values ensures b < 2 * order(u) { if u != v { assert u in values - {v}; } }
    }
  }

  lemma {:induction false} Greatest<V>(order: V -> int, values: set<V>) returns (m: V)
    requires values != {}
    ensures m in values && forall v <- values :: order(v) <= order(m)
    decreases |values|
  {
    m :| m in values;
    var others := values - {m};
    if others != {} {
      var n := Greatest(order, others);
      var top := if order(m) < order(n) then n else m;
      forall v | v in values ensures order(v) <= order(top) { if v != m { assert v in others; } }
      m := top;
    }
  }

  lemma PlaceExists<V(!new)>(sem: Sem<V>, null_: V, order: V -> int, values: set<V>, x: V) returns (p: int)
    requires IsSql(sem, null_) && Orders(sem, null_, order, values) && x != null_
    ensures Fits(sem, null_, order, values, x, p)
  {
    var below := set v | v in values && v != null_ && AtMost(sem, v, x);
    if below == {} {
      p := LowerBound(order, values);
      assert forall v :: v in values && v != null_ ==> v !in below;
    } else {
      var m := Greatest(order, below);
      p := if AtMost(sem, x, m) then 2 * order(m) else 2 * order(m) + 1;
      forall v | v in values && v != null_
        ensures (AtMost(sem, x, v) <==> p <= 2 * order(v)) && (AtMost(sem, v, x) <==> 2 * order(v) <= p)
      {
        PlacedRight(sem, null_, order, values, x, m, v);
        if v in below { assert order(v) <= order(m); }
      }
    }
  }

  /** Where a constant lies when `m` is the greatest of those not above `x`. */
  lemma PlacedRight<V(!new)>(sem: Sem<V>, null_: V, order: V -> int, values: set<V>, x: V, m: V, v: V)
    requires IsSql(sem, null_) && Orders(sem, null_, order, values) && x != null_
    requires m in values && m != null_ && AtMost(sem, m, x) && v in values && v != null_
    requires AtMost(sem, v, x) ==> order(v) <= order(m)
    ensures AtMost(sem, v, x) <==> order(v) <= order(m)
    ensures AtMost(sem, x, v) <==> order(m) < order(v) || (order(m) <= order(v) && AtMost(sem, x, m))
  {
    assert AtMost(sem, v, m) <==> order(v) <= order(m);
    assert AtMost(sem, m, v) <==> order(m) <= order(v);
    assert AtMost(sem, x, v) || AtMost(sem, v, x);
    if AtMost(sem, v, m) { assert AtMost(sem, v, x); }
    if AtMost(sem, x, v) { assert AtMost(sem, m, v); }
    if AtMost(sem, x, v) && order(v) <= order(m) { assert AtMost(sem, v, m); assert AtMost(sem, x, m); }
    if AtMost(sem, x, m) && AtMost(sem, m, v) { assert AtMost(sem, x, v); }
  }

  ghost function PlaceOf<V>(sem: Sem<V>, null_: V, order: V -> int, values: set<V>, x: V): int {
    if exists p :: Fits(sem, null_, order, values, x, p) then var p :| Fits(sem, null_, order, values, x, p); p else 0
  }

  /** The choice a row makes. */
  ghost function ChoiceOf<V>(sem: Sem<V>, row: string -> V, null_: V, order: V -> int, columns: set<string>, values: set<V>): Choice<V> {
    Choice(
      (set c | c in columns && row(c) == null_),
      c => PlaceOf(sem, null_, order, values, row(c)),
      (c, v) => sem.compare(Like, row(c), v).True?)
  }

  lemma ChoiceAgrees<V(!new)>(sem: Sem<V>, row: string -> V, null_: V, order: V -> int, columns: set<string>, values: set<V>)
    requires IsSql(sem, null_) && Orders(sem, null_, order, values)
    ensures Agree(sem, row, null_, order, ChoiceOf(sem, row, null_, order, columns, values), columns, values)
  {
    var w := ChoiceOf(sem, row, null_, order, columns, values);
    forall op, c, v | c in columns && v in values ensures sem.compare(op, row(c), v) == CompareAt(null_, order, w, op, c, v) {
      assert LawfulAt(sem, null_, op, row(c), v);
      if row(c) != null_ {
        var p := PlaceExists(sem, null_, order, values, row(c));
        assert Fits(sem, null_, order, values, row(c), w.place(c));
      }
    }
  }

  // ---------------------------------------------------------------- every choice is made by a row

  /** Enough values: one for each column, none of them NULL or a constant of the predicate. */
  ghost predicate Stands<V>(null_: V, e: Expr<V>, value: string -> V, name: V -> string) {
    forall c <- Columns(e) :: name(value(c)) == c && value(c) != null_ && value(c) !in Constants(e)
  }

  /** Where a value lies: a column's value at the place of the column, any other at its own. */
  ghost function Rank<V>(order: V -> int, w: Choice<V>, columns: set<string>, value: string -> V, name: V -> string, x: V): int {
    if name(x) in columns && value(name(x)) == x then w.place(name(x)) else 2 * order(x)
  }

  ghost function ComparesBy<V>(null_: V, rank: V -> int, like: (V, V) -> bool, op: Comparison, x: V, v: V): Truth {
    if x == null_ || v == null_ then Unknown
    else if op.Like? then Known(like(x, v))
    else Known(Decides(op, rank(x) <= rank(v), rank(v) <= rank(x)))
  }

  /** The database in which values lie at these ranks. */
  ghost function Ranked<V>(null_: V, rank: V -> int, like: (V, V) -> bool): Sem<V> {
    Sem((op, x, v) => ComparesBy(null_, rank, like, op, x, v), x => x == null_)
  }

  lemma RankedIsSql<V(!new)>(null_: V, rank: V -> int, like: (V, V) -> bool)
    ensures IsSql(Ranked(null_, rank, like), null_)
    ensures forall x, y :: AtMost(Ranked(null_, rank, like), x, y) <==> x != null_ && y != null_ && rank(x) <= rank(y)
  {
    var sem := Ranked(null_, rank, like);
    forall x, y ensures AtMost(sem, x, y) <==> x != null_ && y != null_ && rank(x) <= rank(y) {
      assert sem.compare(Lte, x, y) == ComparesBy(null_, rank, like, Lte, x, y);
    }
    forall op, x, v ensures LawfulAt(sem, null_, op, x, v) {
      assert sem.compare(op, x, v) == ComparesBy(null_, rank, like, op, x, v);
    }
  }

  lemma ChoiceIsMade<V(!new)>(null_: V, order: V -> int, w: Choice<V>, e: Expr<V>, value: string -> V, name: V -> string)
    returns (sem: Sem<V>, row: string -> V)
    requires Stands(null_, e, value, name)
    ensures IsSql(sem, null_) && Orders(sem, null_, order, Constants(e)) && Agree(sem, row, null_, order, w, Columns(e), Constants(e))
  {
    var columns, values := Columns(e), Constants(e);
    var rank := x => Rank(order, w, columns, value, name, x);
    var like := (x, v) => w.like(name(x), v);
    sem, row := Ranked(null_, rank, like), c => if c in w.nulls then null_ else value(c);
    RankedIsSql(null_, rank, like);
    forall v | v in values && v != null_ ensures rank(v) == 2 * order(v) { ConstantKeepsRank(null_, order, w, e, value, name, v); }
    forall op, c, v | c in columns && v in values ensures sem.compare(op, row(c), v) == CompareAt(null_, order, w, op, c, v) {
      assert sem.compare(op, row(c), v) == ComparesBy(null_, rank, like, op, row(c), v);
    }
  }

  lemma ConstantKeepsRank<V>(null_: V, order: V -> int, w: Choice<V>, e: Expr<V>, value: string -> V, name: V -> string, v: V)
    requires Stands(null_, e, value, name) && v in Constants(e)
    ensures Rank(order, w, Columns(e), value, name, v) == 2 * order(v)
  {
  }

  // ---------------------------------------------------------------- the exact condition

  /** The predicate holds on every row of every database that orders its constants like this. */
  ghost predicate HoldsEverywhere<V(!new)>(null_: V, order: V -> int, e: Expr<V>) {
    forall sem: Sem<V>, row: string -> V :: IsSql(sem, null_) && Orders(sem, null_, order, Constants(e)) ==> Meaning(sem, row, e).True?
  }

  /** Whichever of its columns are NULL, wherever the others lie among its constants. */
  ghost predicate HoldsForAllChoices<V(!new)>(null_: V, order: V -> int, e: Expr<V>) {
    forall w: Choice<V> :: w.nulls <= Columns(e) ==> ValueAt(null_, order, w, e).True?
  }

  lemma AllChoicesSuffice<V(!new)>(null_: V, order: V -> int, e: Expr<V>)
    requires HoldsForAllChoices(null_, order, e)
    ensures HoldsEverywhere(null_, order, e)
  {
    forall sem: Sem<V>, row: string -> V | IsSql(sem, null_) && Orders(sem, null_, order, Constants(e)) ensures Meaning(sem, row, e).True? {
      ChoiceAgrees(sem, row, null_, order, Columns(e), Constants(e));
      MeaningIsValueAt(sem, row, null_, order, ChoiceOf(sem, row, null_, order, Columns(e), Constants(e)), Columns(e), Constants(e), e);
    }
  }

  /** What being true on every row means on the tree. */
  lemma HoldsEverywhereExactly<V(!new)>(null_: V, order: V -> int, e: Expr<V>, value: string -> V, name: V -> string)
    requires Stands(null_, e, value, name)
    ensures HoldsEverywhere(null_, order, e) <==> HoldsForAllChoices(null_, order, e)
  {
    if HoldsForAllChoices(null_, order, e) { AllChoicesSuffice(null_, order, e); }
    if HoldsEverywhere(null_, order, e) {
      forall w: Choice<V> | w.nulls <= Columns(e) ensures ValueAt(null_, order, w, e).True? {
        var sem, row := ChoiceIsMade(null_, order, w, e, value, name);
        MeaningIsValueAt(sem, row, null_, order, w, Columns(e), Constants(e), e);
      }
    }
  }

  /** The guard is exact on a predicate list exactly when it refuses it or some choice leaves the list not true;
      it misses the lists that are true for all choices without having the Kleene value true. */
  lemma GuardIsExactExactly<V(!new)>(null_: V, order: V -> int, exprs: seq<Expr<V>>, value: string -> V, name: V -> string)
    requires Stands(null_, Group(And, exprs), value, name)
    ensures var e := Group(And, exprs);
            ((Kleene(e).True? <==> HoldsEverywhere(null_, order, e)) <==> (Kleene(e).True? || !HoldsForAllChoices(null_, order, e)))
  {
    var e := Group(And, exprs);
    HoldsEverywhereExactly(null_, order, e, value, name);
    if Kleene(e).True? {
      forall sem: Sem<V>, row: string -> V ensures Meaning(sem, row, e).True? { KleeneIsSound(sem, row, e); }
    }
  }

  // ---------------------------------------------------------------- finitely many choices matter

  /** Two choices that say the same about these columns and constants. */
  ghost predicate SameChoice<V>(null_: V, order: V -> int, w: Choice<V>, w': Choice<V>, columns: set<string>, values: set<V>) {
    (forall c <- columns :: c in w.nulls <==> c in w'.nulls) &&
    forall op, c, v :: c in columns && v in values ==> CompareAt(null_, order, w, op, c, v) == CompareAt(null_, order, w', op, c, v)
  }

  lemma {:induction false} SameAny<V>(
    null_: V, order: V -> int, w: Choice<V>, w': Choice<V>, columns: set<string>, all: set<V>, c: string, values: seq<V>)
    requires SameChoice(null_, order, w, w', columns, all) && c in columns && forall v <- values :: v in all
    ensures AnyAt(null_, order, w, c, values) == AnyAt(null_, order, w', c, values)
    decreases values
  {
    if values != [] {
      assert values[0] in values && forall v <- values[1..] :: v in values;
      SameAny(null_, order, w, w', columns, all, c, values[1..]);
    }
  }

  lemma {:induction false} SameValue<V>(
    null_: V, order: V -> int, w: Choice<V>, w': Choice<V>, columns: set<string>, values: set<V>, e: Expr<V>)
    requires SameChoice(null_, order, w, w', columns, values) && Columns(e) <= columns && Constants(e) <= values
    ensures ValueAt(null_, order, w, e) == ValueAt(null_, order, w', e)
    decreases e, 0
  {
    match e
    case Compare(_, c, _, value) => assert c in Columns(e) && value in Constants(e);
    case InList(_, c, _, list) =>
      assert c in Columns(e) && forall v <- list :: v in Constants(e);
      SameAny(null_, order, w, w', columns, values, c, list);
    case Between(_, c, low, high) => assert c in Columns(e) && low in Constants(e) && high in Constants(e);
    case NullTest(_, c, _) => assert c in Columns(e);
    case Group(c, es) => SameValueFrom(null_, order, w, w', columns, values, c, es, 0);
    case Not(child) => SameValue(null_, order, w, w', columns, values, child);
    case Nil =>
  }

  lemma {:induction false} SameValueFrom<V>(
    null_: V, order: V -> int, w: Choice<V>, w': Choice<V>, columns: set<string>, values: set<V>, c: Connective, es: seq<Expr<V>>, i: nat)
    requires i <= |es| && SameChoice(null_, order, w, w', columns, values)
    requires Columns(Group(c, es)) <= columns && Constants(Group(c, es)) <= values
    ensures ValueAtFrom(null_, order, w, c, es, i) == ValueAtFrom(null_, order, w', c, es, i)
    decreases es, |es| - i
  {
    if i < |es| {
      forall x | x in Columns(es[i]) ensures x in columns { assert x in Columns(Group(c, es)); }
      forall v | v in Constants(es[i]) ensures v in values { assert v in Constants(Group(c, es)); }
      hide SameChoice;
      SameValue(null_, order, w, w', columns, values, es[i]);
      SameValueFrom(null_, order, w, w', columns, values, c, es, i + 1);
    }
  }

  function Clamp(low: int, high: int, p: int): int { if p < low then low else if p > high then high else p }

  /** The check is finite: what matters is which columns are NULL, what LIKE says about each pair of a column
      and a constant, and a place for each column between just below the least constant and just above the
      greatest. */
  lemma PlacesBeyondDoNotMatter<V>(null_: V, order: V -> int, w: Choice<V>, e: Expr<V>, low: int, high: int)
    requires forall v <- Constants(e) :: low < 2 * order(v) < high
    requires low <= high
    ensures ValueAt(null_, order, w.(place := c => Clamp(low, high, w.place(c))), e) == ValueAt(null_, order, w, e)
  {
    var w' := w.(place := c => Clamp(low, high, w.place(c)));
    forall op, c, v | c in Columns(e) && v in Constants(e)
      ensures CompareAt(null_, order, w, op, c, v) == CompareAt(null_, order, w', op, c, v)
    {
      assert w'.place(c) == Clamp(low, high, w.place(c));
    }
    SameValue(null_, order, w, w', Columns(e), Constants(e), e);
  }

  // ---------------------------------------------------------------- inputs the guard misses

  ghost function EitherOf<V>(x: Expr<V>, y: Expr<V>, z: Expr<V>): seq<Expr<V>> { [Group(Or, [x, y, z])] }

  lemma ThreeValues<V>(null_: V, order: V -> int, w: Choice<V>, es: seq<Expr<V>>)
    requires |es| == 3
    ensures ValueAtFrom(null_, order, w, Or, es, 0)
         == Or3(ValueAt(null_, order, w, es[0]), Or3(ValueAt(null_, order, w, es[1]), ValueAt(null_, order, w, es[2])))
  {
    hide ValueAt;
    assert ValueAtFrom(null_, order, w, Or, es, 3) == False;
    assert ValueAtFrom(null_, order, w, Or, es, 2) == ValueAt(null_, order, w, es[2]);
    assert ValueAtFrom(null_, order, w, Or, es, 1) == Or3(ValueAt(null_, order, w, es[1]), ValueAt(null_, order, w, es[2]));
  }

  lemma ThreeClasses<V>(es: seq<Expr<V>>)
    requires |es| == 3
    ensures KleeneFrom(Or, es, 0) == Or3(Kleene(es[0]), Or3(Kleene(es[1]), Kleene(es[2])))
  {
    hide Kleene;
    assert KleeneFrom(Or, es, 3) == False;
    assert KleeneFrom(Or, es, 2) == Kleene(es[2]);
    assert KleeneFrom(Or, es, 1) == Or3(Kleene(es[1]), Kleene(es[2]));
  }

  lemma OneMember<V>(null_: V, order: V -> int, w: Choice<V>, e: Expr<V>)
    ensures ValueAt(null_, order, w, Group(And, [e])) == ValueAt(null_, order, w, e) && Kleene(Group(And, [e])) == Kleene(e)
  {
    assert ValueAtFrom(null_, order, w, And, [e], 1) == True && KleeneFrom(And, [e], 1) == True;
  }

  lemma EitherUnrolled<V>(null_: V, order: V -> int, w: Choice<V>, x: Expr<V>, y: Expr<V>, z: Expr<V>)
    ensures var e := Group(And, EitherOf(x, y, z));
            ValueAt(null_, order, w, e)
              == Or3(ValueAt(null_, order, w, x), Or3(ValueAt(null_, order, w, y), ValueAt(null_, order, w, z))) &&
            Kleene(e) == Or3(Kleene(x), Or3(Kleene(y), Kleene(z)))
  {
    var either := Group(Or, [x, y, z]);
    assert ValueAt(null_, order, w, either) == ValueAtFrom(null_, order, w, Or, [x, y, z], 0) && Kleene(either) == KleeneFrom(Or, [x, y, z], 0);
    hide ValueAt, ValueAtFrom, Kleene, KleeneFrom, Or3;
    ThreeValues(null_, order, w, [x, y, z]);
    ThreeClasses([x, y, z]);
    OneMember(null_, order, w, either);
  }

  /** `c = v OR NOT (c = v) OR c IS NULL` holds on every row and passes. */
  lemma OppositesEscapeTheGuard<V(!new)>(null_: V, order: V -> int, c: string, v: V)
    requires v != null_
    ensures var test := Compare("", c, Eq, v);
            var e := Group(And, EitherOf(test, Not(test), NullTest("", c, false)));
            !Kleene(e).True? && HoldsEverywhere(null_, order, e)
  {
    var test := Compare("", c, Eq, v);
    var last := NullTest("", c, false);
    var e := Group(And, EitherOf(test, Not(test), last));
    EitherUnrolled(null_, order, Choice({}, _ => 0, (_, _) => false), test, Not(test), last);
    forall w: Choice<V> | w.nulls <= Columns(e) ensures ValueAt(null_, order, w, e).True? {
      EitherUnrolled(null_, order, w, test, Not(test), last);
    }
    AllChoicesSuffice(null_, order, e);
  }

  /** So does `c < high OR c > low OR c IS NULL` when `low` is below `high`. */
  lemma RangesEscapeTheGuard<V(!new)>(null_: V, order: V -> int, c: string, low: V, high: V)
    requires low != null_ && high != null_ && order(low) < order(high)
    ensures var e := Group(And, EitherOf(Compare("", c, Lt, high), Compare("", c, Gt, low), NullTest("", c, false)));
            !Kleene(e).True? && HoldsEverywhere(null_, order, e)
  {
    var x, y, z := Compare("", c, Lt, high), Compare("", c, Gt, low), NullTest("", c, false);
    var e := Group(And, EitherOf(x, y, z));
    EitherUnrolled(null_, order, Choice({}, _ => 0, (_, _) => false), x, y, z);
    forall w: Choice<V> | w.nulls <= Columns(e) ensures ValueAt(null_, order, w, e).True? {
      EitherUnrolled(null_, order, w, x, y, z);
    }
    AllChoicesSuffice(null_, order, e);
  }
}
