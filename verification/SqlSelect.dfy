/** The SELECT of the generated query builder after its table: WHERE, ORDER BY and pagination. */
module SqlSelect {
  import opened Options
  import opened SqlExpr
  import opened SqlText
  import opened SqlMeaning
  import opened SqlStatement

  // ---------------------------------------------------------------- ordering

  datatype Order = Order(owner: string, column: string, desc: bool)

  function DirectionWord(desc: bool): string { if desc then "DESC" else "ASC" }

  function OrderPiece(d: Dialect, o: Order): string { QuoteIdentifier(d, o.column) + (" " + DirectionWord(o.desc)) }

  predicate OrderAllowed(o: Order, allowed: Columns) { AllowedColumn(o.owner, o.column, allowed) && o.column != "" }

  function OrdersFrom(d: Dialect, orders: seq<Order>, i: nat): string
    requires i <= |orders|
    decreases |orders| - i
  {
    if i == |orders| then "" else Comma(i) + OrderPiece(d, orders[i]) + OrdersFrom(d, orders, i + 1)
  }

  function BuildOrder(d: Dialect, orders: seq<Order>, allowed: Columns): Option<string> {
    if orders == [] then Some("")
    else if exists i :: 0 <= i < |orders| && !OrderAllowed(orders[i], allowed) then None
    else Some(" ORDER BY " + OrdersFrom(d, orders, 0))
  }

  /** `BuildOrder` as the source runs it: a builder whose length tells whether a comma is due. */
  method WriteOrders(d: Dialect, orders: seq<Order>, allowed: Columns) returns (r: Option<string>)
    ensures r == BuildOrder(d, orders, allowed)
  {
    if orders == [] { return Some(""); }
    var builder := " ORDER BY ";
    for i := 0 to |orders|
      invariant forall k :: 0 <= k < i ==> OrderAllowed(orders[k], allowed)
      invariant |builder| >= 10 && (|builder| > 10 <==> i > 0)
      invariant " ORDER BY " + OrdersFrom(d, orders, 0) == builder + OrdersFrom(d, orders, i)
    {
      var item := orders[i];
      if !AllowedColumn(item.owner, item.column, allowed) { return None; }
      if item.column == "" { return None; }
      ghost var before := builder;
      if |builder| > 10 { builder := builder + ", "; }
      OrderStep(d, orders, i, before);
      builder := builder + OrderPiece(d, item);
      assert builder == before + Comma(i) + OrderPiece(d, item);
      hide OrdersFrom, QuoteIdentifier;
      assert |OrderPiece(d, item)| > 0;
    }
    assert builder + "" == builder;
    r := Some(builder);
  }

  lemma OrderStep(d: Dialect, orders: seq<Order>, i: nat, before: string)
    requires i < |orders|
    ensures before + OrdersFrom(d, orders, i) == before + Comma(i) + OrderPiece(d, orders[i]) + OrdersFrom(d, orders, i + 1)
  {
    assert OrdersFrom(d, orders, i) == Comma(i) + OrderPiece(d, orders[i]) + OrdersFrom(d, orders, i + 1);
    hide *;
    Spread(before, Comma(i), OrderPiece(d, orders[i]), OrdersFrom(d, orders, i + 1));
  }

  lemma Spread<T>(a: seq<T>, b: seq<T>, c: seq<T>, e: seq<T>)
    ensures a + (b + c + e) == a + b + c + e
  {
  }

  // ---------------------------------------------------------------- parsing ORDER BY

  datatype SortKey = SortKey(column: string, desc: bool)

  datatype ParsedOrders = SortedBy(keys: seq<SortKey>, rest: seq<Token>) | NoOrders

  function ParseKeys(ts: seq<Token>): ParsedOrders
    decreases |ts|
  {
    if |ts| < 2 || !ts[0].Ident? || (ts[1] != Keyword("ASC") && ts[1] != Keyword("DESC")) then NoOrders
    else
      var key := SortKey(ts[0].name, ts[1] == Keyword("DESC"));
      if |ts| > 2 && ts[2] == Symbol(",") then
        match ParseKeys(ts[3..])
        case NoOrders => NoOrders
        case SortedBy(more, rest) => SortedBy([key] + more, rest)
      else SortedBy([key], ts[2..])
  }

  /** An optional ORDER BY. */
  function ParseOrderBy(ts: seq<Token>): ParsedOrders {
    if |ts| >= 2 && ts[0] == Keyword("ORDER") && ts[1] == Keyword("BY") then ParseKeys(ts[2..]) else SortedBy([], ts)
  }

  ghost function KeyOf(o: Order): SortKey { SortKey(o.column, o.desc) }

  ghost function KeysFrom(orders: seq<Order>, i: nat): seq<SortKey>
    requires i <= |orders|
    decreases |orders| - i
  {
    if i == |orders| then [] else [KeyOf(orders[i])] + KeysFrom(orders, i + 1)
  }

  // ---------------------------------------------------------------- the pieces of ORDER BY

  ghost function KeyChunks(o: Order): seq<Chunk> { [Name(o.column), Space] + [Reserved(DirectionWord(o.desc))] }

  ghost function KeyChunksFrom(orders: seq<Order>, i: nat): seq<Chunk>
    requires i <= |orders|
    decreases |orders| - i
  {
    if i == |orders| then [] else CommaChunks(i) + KeyChunks(orders[i]) + KeyChunksFrom(orders, i + 1)
  }

  ghost function ByChunks(): seq<Chunk> { [Space, Reserved("ORDER")] + ([Space, Reserved("BY")] + [Space]) }

  ghost function OrderChunks(orders: seq<Order>): seq<Chunk> {
    if orders == [] then [] else ByChunks() + KeyChunksFrom(orders, 0)
  }

  lemma KeyFacts(d: Dialect, o: Order, n: nat)
    ensures Text(d, KeyChunks(o)) == OrderPiece(d, o)
    ensures TokensIn(KeyChunks(o), n) == [Ident(o.column), Keyword(DirectionWord(o.desc))] && Questions(KeyChunks(o)) == 0
    ensures Spaced(KeyChunks(o)) && KeyChunks(o)[0].Name?
  {
    var word := Reserved(DirectionWord(o.desc));
    TextOf2(d, word, Space, []);
    TextOf2(d, Name(o.column), Space, [word]);
    TokensOf1(word, n);
    TokensOf2(Name(o.column), Space, [word], n);
    SpacedCons(Name(o.column), [word]);
    hide Text, TokensIn, Questions, Spaced, QuoteIdentifier;
  }

  lemma {:induction false} TextOfKeys(d: Dialect, orders: seq<Order>, i: nat)
    requires i <= |orders|
    ensures Text(d, KeyChunksFrom(orders, i)) == OrdersFrom(d, orders, i)
    decreases |orders| - i
  {
    if i < |orders| {
      var cs := KeyChunksFrom(orders, i);
      assert cs == CommaChunks(i) + KeyChunks(orders[i]) + KeyChunksFrom(orders, i + 1);
      assert OrdersFrom(d, orders, i) == Comma(i) + OrderPiece(d, orders[i]) + OrdersFrom(d, orders, i + 1);
      hide Text, KeyChunks, CommaChunks, Comma, OrderPiece, KeyChunksFrom, OrdersFrom, TokensIn, Questions, Spaced;
      KeyFacts(d, orders[i], 0);
      TextOfKeys(d, orders, i + 1);
      TextOfComma(d, i);
      TextCat(d, CommaChunks(i), KeyChunks(orders[i]));
      TextCat(d, CommaChunks(i) + KeyChunks(orders[i]), KeyChunksFrom(orders, i + 1));
    }
  }

  lemma {:induction false} KeysSpaced(orders: seq<Order>, i: nat)
    requires i <= |orders|
    ensures Spaced(KeyChunksFrom(orders, i)) && (0 < i < |orders| ==> KeyChunksFrom(orders, i)[0] == Mark(','))
    decreases |orders| - i
  {
    if i < |orders| {
      KeyFacts(MySQL, orders[i], 0);
      KeysSpaced(orders, i + 1);
      var first := CommaChunks(i) + KeyChunks(orders[i]);
      SpacedCat(CommaChunks(i), KeyChunks(orders[i]));
      assert i + 1 == |orders| ==> KeyChunksFrom(orders, i + 1) == [];
      assert i > 0 ==> first[0] == Mark(',');
      assert KeyChunksFrom(orders, i) == first + KeyChunksFrom(orders, i + 1);
      hide KeyChunksFrom, KeyChunks, CommaChunks, Text, TokensIn, Questions;
      SpacedCat(first, KeyChunksFrom(orders, i + 1));
    }
  }

  ghost function KeyTokens(o: Order): seq<Token> { [Ident(o.column), Keyword(DirectionWord(o.desc))] }

  /** The list from its i-th key on, without the comma before it. */
  ghost function KeyList(orders: seq<Order>, i: nat, n: nat, rest: seq<Token>): seq<Token>
    requires i < |orders|
  {
    KeyTokens(orders[i]) + (TokensIn(KeyChunksFrom(orders, i + 1), n) + rest)
  }

  lemma KeyChunksFromIs(orders: seq<Order>, i: nat)
    requires i < |orders|
    ensures KeyChunksFrom(orders, i) == CommaChunks(i) + KeyChunks(orders[i]) + KeyChunksFrom(orders, i + 1)
  {
    hide CommaChunks, KeyChunks;
  }

  lemma TokensOfKeys(orders: seq<Order>, i: nat, n: nat, rest: seq<Token>)
    requires i < |orders|
    ensures TokensIn(KeyChunksFrom(orders, i), n) + rest == CommaTokens(i) + KeyList(orders, i, n, rest)
    ensures Questions(KeyChunksFrom(orders, i)) == Questions(KeyChunksFrom(orders, i + 1))
  {
    assert TokensIn(KeyChunks(orders[i]), n) == KeyTokens(orders[i]) && Questions(KeyChunks(orders[i])) == 0 by { KeyFacts(MySQL, orders[i], n); }
    hide TokensIn, Questions, KeyChunksFrom, KeyChunks, CommaChunks, CommaTokens, KeyTokens;
    KeyChunksFromIs(orders, i);
    TokensOfComma(i, n);
    TokensOfThreeThen(CommaChunks(i), CommaTokens(i), KeyChunks(orders[i]), KeyTokens(orders[i]), KeyChunksFrom(orders, i + 1), n, rest);
  }

  lemma {:induction false} NoQuestionsInKeys(orders: seq<Order>, i: nat)
    requires i <= |orders|
    ensures Questions(KeyChunksFrom(orders, i)) == 0
    decreases |orders| - i
  {
    if i < |orders| {
      hide TokensIn, KeyChunksFrom, Questions;
      TokensOfKeys(orders, i, 0, []);
      NoQuestionsInKeys(orders, i + 1);
    }
  }

  lemma ParseKeysStep(o: Order, tail: seq<Token>)
    ensures var ts := [Ident(o.column), Keyword(DirectionWord(o.desc))] + tail;
            (!Starts(tail, Symbol(",")) ==> ParseKeys(ts) == SortedBy([KeyOf(o)], tail)) &&
            (Starts(tail, Symbol(",")) && ParseKeys(tail[1..]).SortedBy? ==>
               ParseKeys(ts) == SortedBy([KeyOf(o)] + ParseKeys(tail[1..]).keys, ParseKeys(tail[1..]).rest))
  {
    var ts := [Ident(o.column), Keyword(DirectionWord(o.desc))] + tail;
    assert ts[2..] == tail;
    if tail != [] { assert ts[2] == tail[0] && ts[3..] == tail[1..]; }
  }

  lemma {:induction false} ParsesKeys(orders: seq<Order>, i: nat, n: nat, rest: seq<Token>)
    requires i < |orders| && !Starts(rest, Symbol(","))
    ensures ParseKeys(KeyList(orders, i, n, rest)) == SortedBy(KeysFrom(orders, i), rest)
    decreases |orders| - i
  {
    var tail := TokensIn(KeyChunksFrom(orders, i + 1), n) + rest;
    ParseKeysStep(orders[i], tail);
    assert KeysFrom(orders, i) == [KeyOf(orders[i])] + KeysFrom(orders, i + 1);
    if i + 1 == |orders| {
      assert tail == rest;
    } else {
      ParsesKeys(orders, i + 1, n, rest);
      TokensOfKeys(orders, i + 1, n, rest);
      assert CommaTokens(i + 1) == [Symbol(",")];
      hide ParseKeys, TokensIn, KeyChunksFrom, CommaTokens, KeysFrom;
      assert tail[1..] == KeyList(orders, i + 1, n, rest);
    }
  }

  lemma ByText(t: string)
    ensures " " + ("ORDER" + (" " + ("BY" + (" ")))) + t == " ORDER BY " + t
  {
  }

  lemma TextOfBy(d: Dialect)
    ensures Text(d, ByChunks()) == " " + ("ORDER" + (" " + ("BY" + " ")))
  {
    TextOf2(d, Space, Space, []);
    TextOf2(d, Space, Reserved("BY"), [Space]);
    TextOf2(d, Space, Reserved("ORDER"), [Space, Reserved("BY")] + [Space]);
    hide Text;
  }

  lemma TokensOfBy(n: nat)
    ensures TokensIn(ByChunks(), n) == [Keyword("ORDER"), Keyword("BY")] && Questions(ByChunks()) == 0
  {
    TokensOf1(Space, n);
    TokensOf2(Space, Reserved("BY"), [Space], n);
    TokensOf2(Space, Reserved("ORDER"), [Space, Reserved("BY")] + [Space], n);
    hide TokensIn, Questions;
  }

  lemma BySpaced()
    ensures Spaced(ByChunks()) && ByChunks()[0] == Space && !EndsOpen(ByChunks())
  {
    SpacedCat([Space, Reserved("BY")], [Space]);
    SpacedCat([Space, Reserved("ORDER")], [Space, Reserved("BY")] + [Space]);
  }

  lemma OrderIsText(d: Dialect, orders: seq<Order>, allowed: Columns)
    requires BuildOrder(d, orders, allowed).Some?
    ensures BuildOrder(d, orders, allowed) == Some(Text(d, OrderChunks(orders)))
    ensures Spaced(OrderChunks(orders)) && (orders != [] ==> OrderChunks(orders)[0] == Space)
  {
    if orders != [] {
      hide Text, TokensIn, Questions, Spaced, OrdersFrom, KeyChunksFrom, ByChunks;
      TextOfBy(d);
      BySpaced();
      TextOfKeys(d, orders, 0);
      KeysSpaced(orders, 0);
      TextCat(d, ByChunks(), KeyChunksFrom(orders, 0));
      ByText(OrdersFrom(d, orders, 0));
      SpacedCat(ByChunks(), KeyChunksFrom(orders, 0));
    }
  }

  lemma TokensOfOrderBy(orders: seq<Order>, n: nat)
    ensures TokensIn(OrderChunks(orders), n)
         == if orders == [] then [] else [Keyword("ORDER"), Keyword("BY")] + TokensIn(KeyChunksFrom(orders, 0), n)
    ensures Questions(OrderChunks(orders)) == 0
  {
    if orders != [] {
      hide TokensIn, Questions, KeyChunksFrom, ByChunks;
      TokensOfBy(n);
      NoQuestionsInKeys(orders, 0);
      TokensCat(ByChunks(), KeyChunksFrom(orders, 0), n);
    }
  }

  lemma ParsesOrderBy(orders: seq<Order>, n: nat, rest: seq<Token>)
    requires !Starts(rest, Symbol(",")) && !Starts(rest, Keyword("ORDER"))
    ensures ParseOrderBy(TokensIn(OrderChunks(orders), n) + rest) == SortedBy(KeysFrom(orders, 0), rest)
  {
    TokensOfOrderBy(orders, n);
    if orders == [] {
      hide TokensIn;
      assert [] + rest == rest;
    } else {
      hide TokensIn, OrderChunks, KeyChunksFrom, ParseOrderBy, ParseKeys, KeysFrom, KeyList;
      TokensOfKeys(orders, 0, n, rest);
      ParsesKeys(orders, 0, n, rest);
      assert [] + KeyList(orders, 0, n, rest) == KeyList(orders, 0, n, rest);
      AfterBy(TokensIn(KeyChunksFrom(orders, 0), n), rest);
    }
  }

  lemma AfterBy(keys: seq<Token>, rest: seq<Token>)
    ensures ParseOrderBy([Keyword("ORDER"), Keyword("BY")] + keys + rest) == ParseKeys(keys + rest)
  {
    var ts := [Keyword("ORDER"), Keyword("BY")] + keys + rest;
    assert ts[2..] == keys + rest;
    hide ParseKeys;
  }

  // ---------------------------------------------------------------- pagination

  predicate Negative(n: Option<int>) { n.Some? && n.value < 0 }

  function BuildPagination(d: Dialect, limit: Option<int>, offset: Option<int>): Rendered<int> {
    if Negative(limit) || Negative(offset) then InvalidArgument
    else
      match (limit, offset)
      case (None, None) => Rendered("", [])
      case (Some(l), None) => Rendered(" LIMIT ?", [l])
      case (Some(l), Some(o)) => Rendered(" LIMIT ? OFFSET ?", [l, o])
      case (None, Some(o)) =>
        if d.MySQL? then Rendered(" LIMIT 18446744073709551615 OFFSET ?", [o]) else Rendered(" OFFSET ?", [o])
  }

  function Values<V>(ofInt: int -> V, ns: seq<int>): seq<V> { seq(|ns|, i requires 0 <= i < |ns| => ofInt(ns[i])) }

  /** What the emitted `selectSQL` writes after the table, with its conditions, its order and its window. */
  function SelectTail<V>(
    d: Dialect, allowed: Columns, exprs: seq<Expr<V>>, orders: seq<Order>, limit: Option<int>, offset: Option<int>, ofInt: int -> V): Rendered<V>
  {
    match BuildWhere(d, exprs, allowed)
    case InvalidArgument => InvalidArgument
    case Rendered(condition, args) =>
      match BuildOrder(d, orders, allowed)
      case None => InvalidArgument
      case Some(order) =>
        match BuildPagination(d, limit, offset)
        case InvalidArgument => InvalidArgument
        case Rendered(page, pageArgs) => Rendered(condition + order + page, args + Values(ofInt, pageArgs))
  }

  /** A row count in SQL: absent, a numeral, or a placeholder. */
  datatype Amount = Absent | Literal(digits: string) | AtHole(index: nat)

  datatype ParsedAmount = Amount(amount: Amount, rest: seq<Token>)

  function ParseAmount(word: string, ts: seq<Token>): ParsedAmount {
    if |ts| >= 2 && ts[0] == Keyword(word) && ts[1].Hole? then Amount(AtHole(ts[1].index), ts[2..])
    else if |ts| >= 2 && ts[0] == Keyword(word) && ts[1].Number? then Amount(Literal(ts[1].digits), ts[2..])
    else Amount(Absent, ts)
  }

  datatype ParsedSelect = ParsedSelect(condition: seq<Sql>, keys: seq<SortKey>, limit: Amount, offset: Amount) | NoSelect

  function ParseSelectTail(ts: seq<Token>): ParsedSelect {
    match ParseWhere(ts)
    case NoWhere => NoSelect
    case Where(condition, rest) =>
      match ParseOrderBy(rest)
      case NoOrders => NoSelect
      case SortedBy(keys, window) =>
        var limit := ParseAmount("LIMIT", window);
        var offset := ParseAmount("OFFSET", limit.rest);
        if offset.rest == [] then ParsedSelect(condition, keys, limit.amount, offset.amount) else NoSelect
  }

  ghost predicate AmountIs<V>(a: Amount, args: seq<V>, value: V) { a.AtHole? && a.index < |args| && args[a.index] == value }

  /** Read as SQL, the text selects the rows where the condition is true, in this order, cut to this window. The largest
      64-bit count stands for no limit in MySQL, which has no OFFSET without LIMIT. */
  ghost predicate Selects<V>(
    sem: Sem<V>, row: string -> V, d: Dialect, text: string, args: seq<V>, truth: Truth, keys: seq<SortKey>,
    limit: Option<int>, offset: Option<int>, ofInt: int -> V)
  {
    var lexed := Lex(d, text, 0);
    lexed.Tokens? &&
    var parsed := ParseSelectTail(lexed.tokens);
    parsed.ParsedSelect? && EvalWhere(sem, row, args, parsed.condition) == truth && parsed.keys == keys &&
    (match offset case None => parsed.offset == Absent case Some(o) => AmountIs(parsed.offset, args, ofInt(o))) &&
    match limit
    case Some(l) => AmountIs(parsed.limit, args, ofInt(l))
    case None => parsed.limit == if offset.Some? && d.MySQL? then Literal("18446744073709551615") else Absent
  }

  ghost function AmountChunks(word: string, amount: seq<Chunk>): seq<Chunk> { [Space, Reserved(word)] + ([Space] + amount) }

  ghost function LimitChunks(d: Dialect, limit: Option<int>, offset: Option<int>): seq<Chunk> {
    if limit.Some? then AmountChunks("LIMIT", [Question])
    else if offset.Some? && d.MySQL? then AmountChunks("LIMIT", [Numeral("18446744073709551615")])
    else []
  }

  ghost function OffsetChunks(offset: Option<int>): seq<Chunk> {
    if offset.Some? then AmountChunks("OFFSET", [Question]) else []
  }

  ghost predicate AmountWord(word: string) { word == "LIMIT" || word == "OFFSET" }

  lemma AmountText(word: string, t: string)
    ensures " " + (word + (" " + (t + ""))) == " " + word + " " + t
  {
  }

  lemma TextOfAmount(d: Dialect, word: string, c: Chunk)
    ensures Text(d, AmountChunks(word, [c])) == " " + word + " " + ChunkText(d, c)
  {
    var tail := [Space, c] + [];
    assert tail == [Space] + [c];
    TextOf2(d, Space, c, []);
    TextOf2(d, Space, Reserved(word), tail);
    AmountText(word, ChunkText(d, c));
  }

  lemma TokensOfAmount(word: string, c: Chunk, n: nat)
    ensures TokensIn(AmountChunks(word, [c]), n) == [Keyword(word)] + ChunkTokens(c, n)
    ensures Questions(AmountChunks(word, [c])) == One(c)
  {
    var tail := [Space, c] + [];
    assert tail == [Space] + [c];
    TokensOf2(Space, c, [], n);
    TokensOf2(Space, Reserved(word), tail, n);
    assert ChunkTokens(c, n) + [] == ChunkTokens(c, n);
    hide TokensIn, Questions;
  }

  lemma AmountSpaced(word: string, c: Chunk)
    requires AmountWord(word) && (c == Question || c == Numeral("18446744073709551615"))
    ensures Spaced(AmountChunks(word, [c])) && AmountChunks(word, [c])[0] == Space
  {
    SpacedCat([Space], [c]);
    SpacedCat([Space, Reserved(word)], [Space] + [c]);
  }

  ghost function PageArgs(limit: Option<int>, offset: Option<int>): seq<int> {
    (if limit.Some? then [limit.value] else []) + (if offset.Some? then [offset.value] else [])
  }

  lemma PageTexts()
    ensures " " + "LIMIT" + " " + "?" == " LIMIT ?" && " " + "OFFSET" + " " + "?" == " OFFSET ?"
    ensures " LIMIT ?" + " OFFSET ?" == " LIMIT ? OFFSET ?"
    ensures " " + "LIMIT" + " " + "18446744073709551615" == " LIMIT 18446744073709551615"
    ensures " LIMIT 18446744073709551615" + " OFFSET ?" == " LIMIT 18446744073709551615 OFFSET ?"
  {
  }

  lemma PageIsText(d: Dialect, limit: Option<int>, offset: Option<int>)
    requires BuildPagination(d, limit, offset).Rendered?
    ensures BuildPagination(d, limit, offset)
         == Rendered(Text(d, LimitChunks(d, limit, offset)) + Text(d, OffsetChunks(offset)), PageArgs(limit, offset))
  {
    PageTexts();
    TextOfAmount(d, "LIMIT", Question);
    TextOfAmount(d, "LIMIT", Numeral("18446744073709551615"));
    TextOfAmount(d, "OFFSET", Question);
    assert Text(d, []) == "";
    hide Text;
    assert " LIMIT ?" + "" == " LIMIT ?" && "" + " OFFSET ?" == " OFFSET ?";
  }

  /** The tokens of the window when its first placeholder is the n-th. */
  ghost function LimitTokens(d: Dialect, limit: Option<int>, offset: Option<int>, n: nat): seq<Token> {
    if limit.Some? then [Keyword("LIMIT"), Hole(n)]
    else if offset.Some? && d.MySQL? then [Keyword("LIMIT"), Number("18446744073709551615")]
    else []
  }

  ghost function OffsetTokens(offset: Option<int>, n: nat): seq<Token> {
    if offset.Some? then [Keyword("OFFSET"), Hole(n)] else []
  }

  lemma TokensOfLimit(d: Dialect, limit: Option<int>, offset: Option<int>, n: nat)
    ensures var cs := LimitChunks(d, limit, offset);
            TokensIn(cs, n) == LimitTokens(d, limit, offset, n) &&
            Questions(cs) == (if limit.Some? then 1 else 0) && Spaced(cs) && (cs == [] || cs[0] == Space)
  {
    TokensOfAmount("LIMIT", Question, n);
    TokensOfAmount("LIMIT", Numeral("18446744073709551615"), n);
    AmountSpaced("LIMIT", Question);
    AmountSpaced("LIMIT", Numeral("18446744073709551615"));
    hide TokensIn, Questions, AmountChunks, Spaced;
  }

  lemma TokensOfOffset(offset: Option<int>, n: nat)
    ensures var cs := OffsetChunks(offset);
            TokensIn(cs, n) == OffsetTokens(offset, n) && Spaced(cs) && (cs == [] || cs[0] == Space)
  {
    TokensOfAmount("OFFSET", Question, n);
    AmountSpaced("OFFSET", Question);
    hide TokensIn, Questions, AmountChunks, Spaced;
  }

  ghost function LimitAmount(d: Dialect, limit: Option<int>, offset: Option<int>, n: nat): Amount {
    if limit.Some? then AtHole(n) else if offset.Some? && d.MySQL? then Literal("18446744073709551615") else Absent
  }

  lemma ParsesPage(d: Dialect, limit: Option<int>, offset: Option<int>, n: nat, m: nat)
    ensures ParseAmount("LIMIT", LimitTokens(d, limit, offset, n) + OffsetTokens(offset, m))
         == Amount(LimitAmount(d, limit, offset, n), OffsetTokens(offset, m))
    ensures ParseAmount("OFFSET", OffsetTokens(offset, m)) == Amount(if offset.Some? then AtHole(m) else Absent, [])
  {
    var ts := LimitTokens(d, limit, offset, n) + OffsetTokens(offset, m);
    if LimitTokens(d, limit, offset, n) == [] { assert ts == OffsetTokens(offset, m); } else { assert ts[2..] == OffsetTokens(offset, m); }
  }

  ghost function WindowChunks(d: Dialect, limit: Option<int>, offset: Option<int>): seq<Chunk> {
    LimitChunks(d, limit, offset) + OffsetChunks(offset)
  }

  ghost function WindowTokens(d: Dialect, limit: Option<int>, offset: Option<int>, n: nat): seq<Token> {
    LimitTokens(d, limit, offset, n) + OffsetTokens(offset, n + if limit.Some? then 1 else 0)
  }

  lemma WindowFacts(d: Dialect, limit: Option<int>, offset: Option<int>, n: nat)
    ensures var cs := WindowChunks(d, limit, offset);
            Text(d, cs) == Text(d, LimitChunks(d, limit, offset)) + Text(d, OffsetChunks(offset)) &&
            TokensIn(cs, n) == WindowTokens(d, limit, offset, n) && Spaced(cs) && (cs == [] || cs[0] == Space)
  {
    var b, c := LimitChunks(d, limit, offset), OffsetChunks(offset);
    hide Text, TokensIn, Questions, Spaced, LimitChunks, OffsetChunks, LimitTokens, OffsetTokens;
    TokensOfLimit(d, limit, offset, n);
    TokensOfOffset(offset, n + if limit.Some? then 1 else 0);
    TextCat(d, b, c);
    TokensCat(b, c, n);
    SpacedCat(b, c);
  }

  ghost function SelectChunks<V>(d: Dialect, exprs: seq<Expr<V>>, orders: seq<Order>, limit: Option<int>, offset: Option<int>): seq<Chunk> {
    WhereChunks(exprs) + (OrderChunks(orders) + WindowChunks(d, limit, offset))
  }

  lemma SelectSpaced<V>(d: Dialect, allowed: Columns, exprs: seq<Expr<V>>, orders: seq<Order>, limit: Option<int>, offset: Option<int>)
    requires BuildOrder(d, orders, allowed).Some?
    ensures Spaced(SelectChunks(d, exprs, orders, limit, offset))
  {
    assert exprs == [] ==> WhereChunks(exprs) == [];
    assert orders == [] ==> OrderChunks(orders) == [];
    hide Text, TokensIn, Spaced, WhereChunks, OrderChunks, WindowChunks, BuildOrder, WindowTokens;
    WhereSpaced(exprs);
    OrderIsText(d, orders, allowed);
    WindowFacts(d, limit, offset, 0);
    SpacedCat(OrderChunks(orders), WindowChunks(d, limit, offset));
    SpacedCat(WhereChunks(exprs), OrderChunks(orders) + WindowChunks(d, limit, offset));
  }

  lemma SelectIsText<V>(
    d: Dialect, allowed: Columns, exprs: seq<Expr<V>>, orders: seq<Order>, limit: Option<int>, offset: Option<int>, ofInt: int -> V)
    requires SelectTail(d, allowed, exprs, orders, limit, offset, ofInt).Rendered?
    ensures SelectTail(d, allowed, exprs, orders, limit, offset, ofInt)
         == Rendered(Text(d, SelectChunks(d, exprs, orders, limit, offset)), Args(Group(And, exprs)) + Values(ofInt, PageArgs(limit, offset)))
    ensures NoNil(Group(And, exprs)) && BuildOrder(d, orders, allowed).Some?
  {
    hide Text, TokensIn, Spaced, Args, NoNil, BuildWhere, BuildPagination, BuildOrder, WhereChunks, OrderChunks, WindowChunks, WindowTokens,
      LimitChunks, OffsetChunks, Values, PageArgs;
    WhereIsText(d, exprs, allowed);
    OrderIsText(d, orders, allowed);
    PageIsText(d, limit, offset);
    WindowFacts(d, limit, offset, 0);
    TextCat(d, OrderChunks(orders), WindowChunks(d, limit, offset));
    TextCat(d, WhereChunks(exprs), OrderChunks(orders) + WindowChunks(d, limit, offset));
    Associate(Text(d, WhereChunks(exprs)), Text(d, OrderChunks(orders)), Text(d, WindowChunks(d, limit, offset)));
  }

  lemma TokensOfSelect<V>(d: Dialect, exprs: seq<Expr<V>>, orders: seq<Order>, limit: Option<int>, offset: Option<int>, n: nat)
    requires n == |Args(Group(And, exprs))| && Questions(OrderChunks(orders)) == 0
    ensures TokensIn(SelectChunks(d, exprs, orders, limit, offset), 0)
         == TokensIn(WhereChunks(exprs), 0) + (TokensIn(OrderChunks(orders), n) + WindowTokens(d, limit, offset, n))
  {
    hide Text, Args, WhereChunks, OrderChunks, WindowChunks, TokensIn, Questions, WindowTokens, TokensFor, Spaced;
    TokensOfWhere(exprs, 0);
    WindowFacts(d, limit, offset, n);
    TokensCat(OrderChunks(orders), WindowChunks(d, limit, offset), n);
    TokensCat(WhereChunks(exprs), OrderChunks(orders) + WindowChunks(d, limit, offset), 0);
  }

  lemma WindowStarts(d: Dialect, limit: Option<int>, offset: Option<int>, n: nat)
    ensures var ts := WindowTokens(d, limit, offset, n);
            Ends(ts) && !Starts(ts, Keyword("WHERE")) && !Starts(ts, Keyword("ORDER")) && !Starts(ts, Symbol(","))
  {
  }

  lemma OrderStarts(order: seq<Token>, window: seq<Token>)
    requires order == [] || order[0] == Keyword("ORDER")
    requires Ends(window) && !Starts(window, Keyword("WHERE"))
    ensures Ends(order + window) && !Starts(order + window, Keyword("WHERE"))
  {
    if order == [] { assert order + window == window; }
  }

  lemma TailOfSelect(condition: seq<Sql>, orders: seq<Order>, ts: seq<Token>, rest: seq<Token>, window: seq<Token>, limit: Amount, offset: Amount, last: seq<Token>)
    requires ParseWhere(ts) == Where(condition, rest) && ParseOrderBy(rest) == SortedBy(KeysFrom(orders, 0), window)
    requires ParseAmount("LIMIT", window) == Amount(limit, last) && ParseAmount("OFFSET", last) == Amount(offset, [])
    ensures ParseSelectTail(ts) == ParsedSelect(condition, KeysFrom(orders, 0), limit, offset)
  {
    hide ParseWhere, ParseOrderBy, ParseAmount, KeysFrom;
  }

  lemma ParsesSelect<V>(d: Dialect, exprs: seq<Expr<V>>, orders: seq<Order>, limit: Option<int>, offset: Option<int>)
    requires NoNil(Group(And, exprs))
    ensures var n := |Args(Group(And, exprs))|;
            ParseSelectTail(TokensIn(SelectChunks(d, exprs, orders, limit, offset), 0))
              == ParsedSelect(Condition(exprs, 0), KeysFrom(orders, 0), LimitAmount(d, limit, offset, n),
                              if offset.Some? then AtHole(n + if limit.Some? then 1 else 0) else Absent)
  {
    var n := |Args(Group(And, exprs))|;
    var m := n + if limit.Some? then 1 else 0;
    var window, order := WindowTokens(d, limit, offset, n), TokensIn(OrderChunks(orders), n);
    assert window == LimitTokens(d, limit, offset, n) + OffsetTokens(offset, m);
    hide *;
    WindowStarts(d, limit, offset, n);
    TokensOfOrderBy(orders, n);
    ParsesOrderBy(orders, n, window);
    OrderFirst(orders, n);
    OrderStarts(order, window);
    TokensOfSelect(d, exprs, orders, limit, offset, n);
    ParsesWhere(exprs, 0, order + window);
    ParsesPage(d, limit, offset, n, m);
    TailOfSelect(Condition(exprs, 0), orders, TokensIn(SelectChunks(d, exprs, orders, limit, offset), 0), order + window, window,
                 LimitAmount(d, limit, offset, n), if offset.Some? then AtHole(m) else Absent, OffsetTokens(offset, m));
  }

  lemma OrderFirst(orders: seq<Order>, n: nat)
    ensures var order := TokensIn(OrderChunks(orders), n); order == [] || order[0] == Keyword("ORDER")
  {
    hide TokensIn, OrderChunks, Questions;
    TokensOfOrderBy(orders, n);
  }

  /** A SELECT is written exactly when its predicates name admitted columns, so do its sort keys, and neither
      limit nor offset is negative. */
  lemma SelectsExactly<V>(
    d: Dialect, allowed: Columns, exprs: seq<Expr<V>>, orders: seq<Order>, limit: Option<int>, offset: Option<int>, ofInt: int -> V)
    ensures SelectTail(d, allowed, exprs, orders, limit, offset, ofInt).Rendered? <==>
            (exprs == [] || var e := Group(And, exprs); NoNil(e) && LeavesNamed(e) && LeavesAllowed(e, allowed)) &&
            (forall i :: 0 <= i < |orders| ==> Admits(allowed, orders[i].owner, orders[i].column)) &&
            (limit.Some? ==> limit.value >= 0) && (offset.Some? ==> offset.value >= 0)
  {
    BuildWhereExactly(d, exprs, allowed);
    hide BuildWhere, NoNil, LeavesNamed, LeavesAllowed, OrdersFrom;
    assert forall i :: 0 <= i < |orders| ==> (OrderAllowed(orders[i], allowed) <==> Admits(allowed, orders[i].owner, orders[i].column));
  }

  /** A SELECT filters by its predicates, sorts by its keys and cuts the window it was asked for. */
  lemma SelectKeepsMeaning<V>(
    sem: Sem<V>, row: string -> V, d: Dialect, allowed: Columns, exprs: seq<Expr<V>>, orders: seq<Order>,
    limit: Option<int>, offset: Option<int>, ofInt: int -> V)
    requires SelectTail(d, allowed, exprs, orders, limit, offset, ofInt).Rendered?
    ensures var r := SelectTail(d, allowed, exprs, orders, limit, offset, ofInt);
            Selects(sem, row, d, r.text, r.args, Meaning(sem, row, Group(And, exprs)), KeysFrom(orders, 0), limit, offset, ofInt)
  {
    hide SelectTail, SelectChunks, Args, NoNil, Text, Lex, TokensIn, Condition, ParseSelectTail, EvalWhere, Meaning, Spaced, KeysFrom, BuildOrder;
    SelectIsText(d, allowed, exprs, orders, limit, offset, ofInt);
    SelectSpaced(d, allowed, exprs, orders, limit, offset);
    LexWhole(d, SelectChunks(d, exprs, orders, limit, offset));
    ParsesSelect(d, exprs, orders, limit, offset);
    var mine, page := Args(Group(And, exprs)), Values(ofInt, PageArgs(limit, offset));
    assert (mine + page)[0..|mine|] == mine;
    assert forall i :: 0 <= i < |page| ==> (mine + page)[|mine| + i] == page[i];
    EvalsWhere(sem, row, mine + page, exprs, 0);
  }
}
