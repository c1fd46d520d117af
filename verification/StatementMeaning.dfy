/** The compiled statement, read back clause by clause: what it selects, in which order, and how many rows. */
module StatementMeaning {
  import opened Values
  import opened QueryAst
  import opened PathLiterals
  import opened SqlText
  import opened AttributePath
  import opened Compile
  import opened CompileMeaning
  import opened PathMeaning
  import opened ConditionMeaning
  import opened SearchStatement

  // ----- Reading a statement -----

  /** A sort key and whether it is descending. */
  datatype SortKey = SortKey(tree: Tree, descending: bool)

  /** The clauses of a SELECT; LIMIT and OFFSET are placeholder numbers. */
  datatype Statement = Statement(condition: Option<Tree>, sorting: seq<SortKey>, limit: Option<nat>, offset: Option<nat>)

  function ReadFilter(tokens: seq<Token>): Option<(Option<Tree>, seq<Token>)> {
    if !At(tokens, Keyword("WHERE")) then Some((None, tokens))
    else match Read(OR, tokens[1..]) case Bad => None case Parsed(tree, rest) => Some((Some(tree), rest))
  }

  function ReadSortKeys(tokens: seq<Token>): Option<(seq<SortKey>, seq<Token>)>
    decreases |tokens|
  {
    match Read(OR, tokens)
    case Bad => None
    case Parsed(tree, rest) =>
      var after := if At(rest, Keyword("ASC")) || At(rest, Keyword("DESC")) then rest[1..] else rest;
      var key := SortKey(tree, At(rest, Keyword("DESC")));
      if !At(after, Comma) then Some(([key], after))
      else match ReadSortKeys(after[1..]) case None => None case Some((more, end)) => Some(([key] + more, end))
  }

  function ReadSorting(tokens: seq<Token>): Option<(seq<SortKey>, seq<Token>)> {
    if At(tokens, Keyword("ORDER BY")) then ReadSortKeys(tokens[1..]) else Some(([], tokens))
  }

  function ReadCount(word: string, tokens: seq<Token>): (Option<nat>, seq<Token>) {
    if At(tokens, Keyword(word)) && |tokens| > 1 && tokens[1].Param? then (Some(tokens[1].number), tokens[2..]) else (None, tokens)
  }

  function ReadStatement(tokens: seq<Token>): Option<Statement> {
    if !At(tokens, Keyword("SELECT")) then None
    else
      match ReadFilter(tokens[1..])
      case None => None
      case Some((condition, afterFilter)) =>
        match ReadSorting(afterFilter)
        case None => None
        case Some((sorting, afterSorting)) =>
          var (limit, afterLimit) := ReadCount("LIMIT", afterSorting);
          var (offset, rest) := ReadCount("OFFSET", afterLimit);
          if rest == [] then Some(Statement(condition, sorting, limit, offset)) else None
  }

  // ----- The ORDER BY clause -----

  predicate ReadableOrders(orders: seq<Order>) {
    forall i :: 0 <= i < |orders| ==> Readable(orders[i].expr)
  }

  /** A sort key is the value that was asked for, descending exactly when the direction is desc. */
  predicate SortsBy(w: World, names: Names, all: seq<Arg>, key: SortKey, order: Order) {
    key.descending == (order.direction == "desc") && ValueOf(w, all, key.tree) == ScalarMeaning(AsRead(w), names, order.expr)
  }

  predicate AllSortBy(w: World, names: Names, all: seq<Arg>, keys: seq<SortKey>, orders: seq<Order>) {
    |keys| == |orders| && forall i :: 0 <= i < |keys| ==> SortsBy(w, names, all, keys[i], orders[i])
  }

  lemma TermReads(w: World, names: Names, all: seq<Arg>, order: Order, args: seq<Arg>, term: Code, rest: seq<Token>) returns (key: SortKey)
    requires OrderTermSql(names, order, args) == Some(term) && Readable(order.expr) && term.args <= all
    ensures SortsBy(w, names, all, key, order)
    ensures Read(OR, term.text + rest) == Parsed(key.tree, [Keyword(if key.descending then "DESC" else "ASC")] + rest)
  {
    var value := ValueSql(names, order.expr, args).value;
    var word := Keyword(if order.direction == SORT_DESC then "DESC" else "ASC");
    ValueIsScalar(names, order.expr, args);
    assert term.text + rest == value.text + ([word] + rest);
    var tree := ScalarReads(w, names, all, order.expr, args, value, OR, [word] + rest);
    key := SortKey(tree, order.direction == "desc");
  }

  lemma LastKey(tokens: seq<Token>, key: SortKey, rest: seq<Token>)
    requires Read(OR, tokens) == Parsed(key.tree, [Keyword(if key.descending then "DESC" else "ASC")] + rest) && !At(rest, Comma)
    ensures ReadSortKeys(tokens) == Some(([key], rest))
  {
    TailOf(Keyword(if key.descending then "DESC" else "ASC"), rest);
  }

  lemma NextKey(tokens: seq<Token>, key: SortKey, rest: seq<Token>, more: seq<SortKey>, end: seq<Token>)
    requires Read(OR, tokens) == Parsed(key.tree, [Keyword(if key.descending then "DESC" else "ASC")] + ([Comma] + rest))
    requires ReadSortKeys(rest) == Some((more, end))
    ensures ReadSortKeys(tokens) == Some(([key] + more, end))
  {
    TailOf(Keyword(if key.descending then "DESC" else "ASC"), [Comma] + rest);
    TailOf(Comma, rest);
  }

  /** Text after what is already there, with a comma between. */
  function Listed(acc: seq<Token>, text: seq<Token>): seq<Token> {
    (if acc == [] then [] else acc + [Comma]) + text
  }

  lemma ListedThen(acc: seq<Token>, a: seq<Token>, b: seq<Token>)
    requires a != []
    ensures Listed(Listed(acc, a), b) == Listed(acc, a + [Comma] + b)
  {
    assert Listed(acc, a) != [];
  }

  /** The first order term, and the rest of the list after it. */
  lemma FirstOrder(names: Names, orders: seq<Order>, acc: Code, code: Code) returns (term: Code)
    requires orders != [] && OrdersSql(names, orders, acc) == Some(code)
    ensures OrderTermSql(names, orders[0], acc.args) == Some(term) && acc.args <= term.args && term.text != []
    ensures OrdersSql(names, orders[1..], Code(Listed(acc.text, term.text), term.args)) == Some(code)
  {
    term := OrderTermSql(names, orders[0], acc.args).value;
  }

  /** The order terms after `acc` read back as sort keys, in their order. */
  lemma {:induction false} OrdersRead(w: World, names: Names, all: seq<Arg>, orders: seq<Order>, acc: Code, code: Code, rest: seq<Token>)
    returns (tail: seq<Token>, keys: seq<SortKey>)
    requires orders != [] && OrdersSql(names, orders, acc) == Some(code) && ReadableOrders(orders) && code.args <= all && !At(rest, Comma)
    ensures acc.args <= code.args
    ensures code.text == Listed(acc.text, tail) && tail != []
    ensures ReadSortKeys(tail + rest) == Some((keys, rest)) && AllSortBy(w, names, all, keys, orders)
    decreases |orders|
  {
    var term := FirstOrder(names, orders, acc, code);
    var next := Code(Listed(acc.text, term.text), term.args);
    if |orders| == 1 {
      assert code == next;
      var key := TermReads(w, names, all, orders[0], acc.args, term, rest);
      tail, keys := term.text, [key];
      LastKey(tail + rest, key, rest);
    } else {
      var tail', keys' := OrdersRead(w, names, all, orders[1..], next, code, rest);
      ListedThen(acc.text, term.text, tail');
      tail, keys := OrdersThen(w, names, all, orders, acc.args, term, tail', keys', rest);
    }
  }

  lemma OrdersThen(w: World, names: Names, all: seq<Arg>, orders: seq<Order>, args: seq<Arg>, term: Code, more: seq<Token>, keys: seq<SortKey>,
                   rest: seq<Token>) returns (tail: seq<Token>, all': seq<SortKey>)
    requires orders != [] && OrderTermSql(names, orders[0], args) == Some(term) && Readable(orders[0].expr) && term.args <= all
    requires ReadSortKeys(more + rest) == Some((keys, rest)) && AllSortBy(w, names, all, keys, orders[1..])
    ensures tail == term.text + [Comma] + more
    ensures ReadSortKeys(tail + rest) == Some((all', rest)) && AllSortBy(w, names, all, all', orders)
  {
    var key := TermReads(w, names, all, orders[0], args, term, [Comma] + (more + rest));
    tail, all' := term.text + [Comma] + more, [key] + keys;
    Regroup3(term.text, [Comma], more, rest);
    NextKey(tail + rest, key, more + rest, keys, rest);
    KeysThen(w, names, all, key, keys, orders);
  }

  lemma KeysThen(w: World, names: Names, all: seq<Arg>, key: SortKey, more: seq<SortKey>, orders: seq<Order>)
    requires orders != [] && SortsBy(w, names, all, key, orders[0]) && AllSortBy(w, names, all, more, orders[1..])
    ensures AllSortBy(w, names, all, [key] + more, orders)
  {
    forall i | 0 < i < |orders| ensures SortsBy(w, names, all, ([key] + more)[i], orders[i]) {
      assert ([key] + more)[i] == more[i - 1] && orders[i] == orders[1..][i - 1];
    }
  }

  // ----- The whole statement -----

  /** What may follow a clause: the end, or the word of a later clause. */
  predicate EndsClause(rest: seq<Token>) {
    rest == [] || rest[0] == Keyword("ORDER BY") || rest[0] == Keyword("LIMIT") || rest[0] == Keyword("OFFSET")
  }

  lemma FilterReads(w: World, names: Names, all: seq<Arg>, scope: string, condition: Option<Expr>, code: Code, rest: seq<Token>)
    returns (read: Option<Tree>)
    requires WhereSql(names, scope, condition) == Some(code) && SafeCondition(names, condition) && ReadableCondition(condition)
    requires code.args <= all && EndsClause(rest)
    ensures ReadFilter(Clause("WHERE", code.text) + rest) == Some((read, rest))
    ensures read.Some? <==> scope != "" || condition.Some?
    ensures read.Some? ==> Holds(w, all, read.value) == WhereMeaning(AsRead(w), names, scope, condition)
  {
    if scope == "" && condition.None? {
      assert code.text == [] && [] + rest == rest;
      read := None;
    } else {
      var tree := WhereReadsBefore(w, names, all, scope, condition, code, rest);
      read := Some(tree);
      NotEmpty(code.text, rest);
      assert [Keyword("WHERE")] + code.text + rest == [Keyword("WHERE")] + (code.text + rest);
      TailOf(Keyword("WHERE"), code.text + rest);
    }
  }

  /** A clause word is no expression, so whatever is read in front of one is not empty. */
  lemma NotEmpty(text: seq<Token>, rest: seq<Token>)
    requires Read(OR, text + rest).Parsed? && EndsClause(rest)
    ensures text != []
  {
    if text == [] {
      assert text + rest == rest;
      ClauseWordIsNoExpression(OR, rest);
    }
  }

  lemma {:induction false} ClauseWordIsNoExpression(level: nat, rest: seq<Token>)
    requires 1 <= level <= PRIMARY && EndsClause(rest)
    ensures Read(level, rest) == Bad
    decreases PRIMARY - level
  {
    if level < PRIMARY {
      ClauseWordIsNoExpression(level + 1, rest);
    }
  }

  lemma SortingReads(w: World, names: Names, all: seq<Arg>, orders: seq<Order>, args: seq<Arg>, code: Code, rest: seq<Token>)
    returns (keys: seq<SortKey>)
    requires OrdersSql(names, orders, Code([], args)) == Some(code) && ReadableOrders(orders) && code.args <= all
    requires EndsClause(rest) && !At(rest, Keyword("ORDER BY"))
    ensures ReadSorting(Clause("ORDER BY", code.text) + rest) == Some((keys, rest)) && AllSortBy(w, names, all, keys, orders)
    ensures EndsClause(Clause("ORDER BY", code.text) + rest) && args <= code.args
  {
    if orders == [] {
      assert [] + rest == rest;
      keys := [];
    } else {
      var tail;
      tail, keys := OrdersRead(w, names, all, orders, Code([], args), code, rest);
      assert code.text == [] + tail == tail;
      assert [Keyword("ORDER BY")] + tail + rest == [Keyword("ORDER BY")] + (tail + rest);
      TailOf(Keyword("ORDER BY"), tail + rest);
    }
  }

  lemma CountReads(word: string, count: Option<int>, args: seq<Arg>, all: seq<Arg>, rest: seq<Token>) returns (number: Option<nat>)
    requires PageSql(word, count, args).args <= all && !At(rest, Keyword(word))
    ensures ReadCount(word, PageSql(word, count, args).text + rest) == (number, rest)
    ensures number.Some? <==> count.Some?
    ensures count.Some? ==> ArgAt(all, number.value) == IntArg(count.value)
  {
    if count.None? {
      assert [] + rest == rest;
      number := None;
    } else {
      NewestArg(all, args, IntArg(count.value));
      number := Some(|args| + 1);
      var text := [Keyword(word), Param(|args| + 1)] + rest;
      assert text[2..] == rest;
    }
  }

  /**
   A compiled statement reads back as one SELECT. Its condition says of every row what WhereMeaning says; its sort keys are
   those asked for, in their order, descending exactly for desc; and its LIMIT and OFFSET are the query's.
   */
  lemma StatementReads(w: World, names: Names, scope: string, query: Query, code: Code) returns (statement: Statement)
    requires StatementSql(names, scope, query) == Some(code) && SafeCondition(names, query.condition)
    requires ReadableCondition(query.condition) && ReadableOrders(query.orderBy)
    ensures ReadStatement(code.text) == Some(statement)
    ensures statement.condition.Some? <==> scope != "" || query.condition.Some?
    ensures statement.condition.Some? ==>
              Holds(w, code.args, statement.condition.value) == WhereMeaning(AsRead(w), names, scope, query.condition)
    ensures AllSortBy(w, names, code.args, statement.sorting, query.orderBy)
    ensures (statement.limit.Some? <==> query.limit.Some?) && (statement.offset.Some? <==> query.offset.Some?)
    ensures query.limit.Some? ==> ArgAt(code.args, statement.limit.value) == IntArg(query.limit.value)
    ensures query.offset.Some? ==> ArgAt(code.args, statement.offset.value) == IntArg(query.offset.value)
  {
    var all := code.args;
    var condition := WhereSql(names, scope, query.condition).value;
    var orders := OrdersSql(names, query.orderBy, Code([], condition.args)).value;
    var limit := PageSql("LIMIT", query.limit, orders.args);
    var offset := PageSql("OFFSET", query.offset, limit.args);
    var afterLimit := offset.text + [];
    var afterSorting := limit.text + afterLimit;
    var number := CountReads("OFFSET", query.offset, limit.args, all, []);
    var count := CountReads("LIMIT", query.limit, orders.args, all, afterLimit);
    var keys := SortingReads(w, names, all, query.orderBy, condition.args, orders, afterSorting);
    var afterFilter := Clause("ORDER BY", orders.text) + afterSorting;
    var read := FilterReads(w, names, all, scope, query.condition, condition, afterFilter);
    ClausesRegroup(Clause("WHERE", condition.text), Clause("ORDER BY", orders.text), limit.text, offset.text);
    statement := Statement(read, keys, count, number);
    ClausesRead(Clause("WHERE", condition.text) + afterFilter, afterFilter, afterSorting, afterLimit, statement);
  }

  lemma ClausesRead(clauses: seq<Token>, afterFilter: seq<Token>, afterSorting: seq<Token>, afterLimit: seq<Token>, statement: Statement)
    requires ReadFilter(clauses) == Some((statement.condition, afterFilter))
    requires ReadSorting(afterFilter) == Some((statement.sorting, afterSorting))
    requires ReadCount("LIMIT", afterSorting) == (statement.limit, afterLimit)
    requires ReadCount("OFFSET", afterLimit) == (statement.offset, [])
    ensures ReadStatement([Keyword("SELECT")] + clauses) == Some(statement)
  {
    TailOf(Keyword("SELECT"), clauses);
  }

  lemma ClausesRegroup(a: seq<Token>, b: seq<Token>, c: seq<Token>, d: seq<Token>)
    ensures [Keyword("SELECT")] + a + b + c + d == [Keyword("SELECT")] + (a + (b + (c + (d + []))))
  {
    assert d + [] == d;
    Regroup3(a, b, c, d);
    assert [Keyword("SELECT")] + a + b + c + d == [Keyword("SELECT")] + (a + b + c + d);
  }
}
