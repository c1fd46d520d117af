/** Whole queries: their trees, their parser, and the theorem that the parser accepts exactly the grammar, unambiguously. */
module QueryGrammar {
  import opened Values
  import opened QueryAst
  import opened Grammar
  import opened Parse
  import opened ParseSound
  import opened ParseComplete

  // ----- Trees -----

  datatype OrderTerm = OrderTerm(operand: Operand, direction: Option<Token>)

  datatype Orders = LastOrder(term: OrderTerm) | MoreOrders(term: OrderTerm, more: Orders)

  datatype Filter = NoFilter | Filter(word: Token, disj: Disj)

  datatype Ordering = NoOrdering | Ordering(orderWord: Token, byWord: Token, orders: Orders)

  datatype Page = NoPage | Page(word: Token, count: string)

  datatype QueryTree = QueryTree(fromWord: Token, target: Token, filter: Filter, ordering: Ordering, limit: Page, offset: Page)

  function Direction(c: OrderTerm): seq<Token> {
    match c.direction case Some(word) => [word] case None => []
  }

  function YieldTerm(c: OrderTerm): seq<Token> {
    YieldOperand(c.operand) + Direction(c)
  }

  function YieldOrders(c: Orders): seq<Token> {
    match c
    case LastOrder(term) => YieldTerm(term)
    case MoreOrders(term, more) => YieldTerm(term) + ([Comma] + YieldOrders(more))
  }

  function YieldFilter(c: Filter): seq<Token> {
    match c case NoFilter => [] case Filter(word, disj) => [word] + YieldDisj(disj)
  }

  function YieldOrdering(c: Ordering): seq<Token> {
    match c case NoOrdering => [] case Ordering(orderWord, byWord, orders) => [orderWord, byWord] + YieldOrders(orders)
  }

  function YieldPage(c: Page): seq<Token> {
    match c case NoPage => [] case Page(word, count) => [word, Num(count)]
  }

  function YieldQuery(c: QueryTree): seq<Token> {
    [c.fromWord, c.target] + (YieldFilter(c.filter) + (YieldOrdering(c.ordering) + (YieldPage(c.limit) + YieldPage(c.offset))))
  }

  predicate LegalTerm(words: Words, c: OrderTerm) {
    LegalOperand(words, c.operand) && (c.direction.Some? ==> Keyword(c.direction.value, "asc") || Keyword(c.direction.value, "desc"))
  }

  predicate LegalOrders(words: Words, c: Orders) {
    match c
    case LastOrder(term) => LegalTerm(words, term)
    case MoreOrders(term, more) => LegalTerm(words, term) && LegalOrders(words, more)
  }

  predicate LegalFilter(words: Words, c: Filter) {
    c.Filter? ==> Keyword(c.word, "where") && LegalDisj(words, c.disj)
  }

  predicate LegalOrdering(words: Words, c: Ordering) {
    c.Ordering? ==> Keyword(c.orderWord, "order") && Keyword(c.byWord, "by") && LegalOrders(words, c.orders)
  }

  function Count(words: Words, text: string): Option<int> {
    match words.count(text) case Some(n) => if n >= 0 then Some(n) else None case None => None
  }

  predicate LegalPage(words: Words, name: string, c: Page) {
    c.Page? ==> Keyword(c.word, name) && Count(words, c.count).Some?
  }

  function Target(token: Token): Option<string> {
    if Keyword(token, TARGET_OBJECTS) then Some(TARGET_OBJECTS) else if Keyword(token, TARGET_RELATIONS) then Some(TARGET_RELATIONS) else None
  }

  predicate LegalQuery(words: Words, c: QueryTree) {
    Keyword(c.fromWord, "from") && Target(c.target).Some? && LegalFilter(words, c.filter) && LegalOrdering(words, c.ordering) &&
    LegalPage(words, "limit", c.limit) && LegalPage(words, "offset", c.offset)
  }

  function AstTerm(words: Words, c: OrderTerm): Order
    requires LegalTerm(words, c)
  {
    Order(AstOperand(words, c.operand), if c.direction.Some? && Keyword(c.direction.value, "desc") then SORT_DESC else SORT_ASC)
  }

  function AstOrders(words: Words, c: Orders): seq<Order>
    requires LegalOrders(words, c)
    decreases c
  {
    match c
    case LastOrder(term) => [AstTerm(words, term)]
    case MoreOrders(term, more) => [AstTerm(words, term)] + AstOrders(words, more)
  }

  function AstPage(words: Words, name: string, c: Page): Option<int>
    requires LegalPage(words, name, c)
  {
    match c case NoPage => None case Page(_, count) => Count(words, count)
  }

  function AstFilter(words: Words, c: Filter): Option<Expr>
    requires LegalFilter(words, c)
  {
    match c case NoFilter => None case Filter(_, disj) => Some(AstDisj(words, disj))
  }

  function AstOrdering(words: Words, c: Ordering): seq<Order>
    requires LegalOrdering(words, c)
  {
    match c case NoOrdering => [] case Ordering(_, _, orders) => AstOrders(words, orders)
  }

  function AstQuery(words: Words, c: QueryTree): Query
    requires LegalQuery(words, c)
  {
    Query(VERSION, Target(c.target).value, AstFilter(words, c.filter), AstOrdering(words, c.ordering),
          AstPage(words, "limit", c.limit), AstPage(words, "offset", c.offset))
  }

  function DepthOrders(c: Orders): nat {
    match c
    case LastOrder(term) => DepthOperand(term.operand)
    case MoreOrders(term, more) => Max(DepthOperand(term.operand), DepthOrders(more))
  }

  function DepthQuery(c: QueryTree): nat {
    Max(if c.filter.Filter? then DepthDisj(c.filter.disj) else 0, if c.ordering.Ordering? then DepthOrders(c.ordering.orders) else 0)
  }

  // ----- The parser -----

  /** One order term and its direction. */
  function ParseTerm(words: Words, ts: seq<Token>, depth: int): (r: Parsed<Order>)
    ensures r.Ok? ==> |r.rest| < |ts|
  {
    match ParseOperand(words, ts, depth)
    case Fail => Fail
    case Ok(e, rest) =>
      if At(rest, "asc") then Ok(Order(e, SORT_ASC), rest[1..])
      else if At(rest, "desc") then Ok(Order(e, SORT_DESC), rest[1..])
      else Ok(Order(e, SORT_ASC), rest)
  }

  function ParseOrders(words: Words, ts: seq<Token>, depth: int): (r: Parsed<seq<Order>>)
    ensures r.Ok? ==> |r.rest| < |ts| && r.value != []
    decreases |ts|
  {
    match ParseTerm(words, ts, depth)
    case Fail => Fail
    case Ok(term, rest) =>
      if Head(rest) != Comma then Ok([term], rest)
      else match ParseOrders(words, rest[1..], depth) case Fail => Fail case Ok(more, after) => Ok([term] + more, after)
  }

  function ParseFilter(words: Words, ts: seq<Token>, depth: int): Parsed<Option<Expr>> {
    if !At(ts, "where") then Ok(None, ts)
    else match ParseDisj(words, ts[1..], depth) case Fail => Fail case Ok(e, rest) => Ok(Some(e), rest)
  }

  function ParseOrdering(words: Words, ts: seq<Token>, depth: int): Parsed<seq<Order>> {
    if !At(ts, "order") then Ok([], ts) else if !At(ts[1..], "by") then Fail else ParseOrders(words, ts[2..], depth)
  }

  function ParsePage(words: Words, name: string, ts: seq<Token>): Parsed<Option<int>> {
    if !At(ts, name) then Ok(None, ts)
    else if !Head(ts[1..]).Num? || Count(words, ts[1].text).None? then Fail
    else Ok(Count(words, ts[1].text), ts[2..])
  }

  function ParseQuery(words: Words, ts: seq<Token>, depth: int): Parsed<Query> {
    if !At(ts, "from") || Target(Head(ts[1..])).None? then Fail
    else
      match ParseFilter(words, ts[2..], depth)
      case Fail => Fail
      case Ok(condition, afterFilter) =>
        match ParseOrdering(words, afterFilter, depth)
        case Fail => Fail
        case Ok(orders, afterOrders) =>
          match ParsePage(words, "limit", afterOrders)
          case Fail => Fail
          case Ok(limit, afterLimit) =>
            match ParsePage(words, "offset", afterLimit)
            case Fail => Fail
            case Ok(offset, rest) => Ok(Query(VERSION, Target(ts[1]).value, condition, orders, limit, offset), rest)
  }

  /** Parse, on the lexer's tokens: the whole list up to the end marker must be one query. */
  function ParseTokens(words: Words, ts: seq<Token>): Option<Query> {
    match ParseQuery(words, ts, 0) case Fail => None case Ok(query, rest) => if Head(rest) == Eof then Some(query) else None
  }

  // ----- Soundness -----

  lemma {:induction false} SoundOrders(words: Words, ts: seq<Token>, depth: int) returns (c: Orders)
    requires ParseOrders(words, ts, depth).Ok?
    ensures LegalOrders(words, c) && ts == YieldOrders(c) + ParseOrders(words, ts, depth).rest
    ensures AstOrders(words, c) == ParseOrders(words, ts, depth).value && depth + DepthOrders(c) <= MAX_DEPTH
    decreases |ts|
  {
    var after := ParseTerm(words, ts, depth).rest;
    var term := SoundTerm(words, ts, depth);
    if Head(after) == Comma {
      var more := SoundOrders(words, after[1..], depth);
      c := MoreOrders(term, more);
      JoinText(ts, YieldTerm(term), after, YieldOrders(more), ParseOrders(words, ts, depth).rest);
    } else {
      c := LastOrder(term);
    }
  }

  lemma SoundTerm(words: Words, ts: seq<Token>, depth: int) returns (c: OrderTerm)
    requires ParseTerm(words, ts, depth).Ok?
    ensures LegalTerm(words, c) && ts == YieldTerm(c) + ParseTerm(words, ts, depth).rest
    ensures AstTerm(words, c) == ParseTerm(words, ts, depth).value && depth + DepthOperand(c.operand) <= MAX_DEPTH
  {
    var first := ParseOperand(words, ts, depth);
    var operand := SoundOperand(words, ts, depth);
    if At(first.rest, "asc") || At(first.rest, "desc") {
      c := OrderTerm(operand, Some(first.rest[0]));
      DirectedText(ts, YieldOperand(operand), first.rest);
    } else {
      c := OrderTerm(operand, None);
      Assoc(YieldOperand(operand), [], first.rest);
    }
  }

  lemma DirectedText(ts: seq<Token>, operand: seq<Token>, after: seq<Token>)
    requires ts == operand + after && after != []
    ensures ts == (operand + [after[0]]) + after[1..]
  {
    Split(after, 1);
    Assoc(operand, [after[0]], after[1..]);
  }

  lemma SoundFilter(words: Words, ts: seq<Token>, depth: int) returns (c: Filter)
    requires ParseFilter(words, ts, depth).Ok?
    ensures LegalFilter(words, c) && ts == YieldFilter(c) + ParseFilter(words, ts, depth).rest
    ensures ParseFilter(words, ts, depth).value == AstFilter(words, c)
    ensures c.Filter? ==> depth + DepthDisj(c.disj) <= MAX_DEPTH
  {
    if At(ts, "where") {
      var disj := SoundDisj(words, ts[1..], depth);
      c := Filter(ts[0], disj);
      Split(ts, 1);
      Assoc([ts[0]], YieldDisj(disj), ParseFilter(words, ts, depth).rest);
    } else {
      c := NoFilter;
    }
  }

  lemma SoundOrdering(words: Words, ts: seq<Token>, depth: int) returns (c: Ordering)
    requires ParseOrdering(words, ts, depth).Ok?
    ensures LegalOrdering(words, c) && ts == YieldOrdering(c) + ParseOrdering(words, ts, depth).rest
    ensures ParseOrdering(words, ts, depth).value == AstOrdering(words, c)
    ensures c.Ordering? ==> depth + DepthOrders(c.orders) <= MAX_DEPTH
  {
    if At(ts, "order") {
      var orders := SoundOrders(words, ts[2..], depth);
      c := Ordering(ts[0], ts[1], orders);
      assert ts == [ts[0], ts[1]] + ts[2..];
      Assoc([ts[0], ts[1]], YieldOrders(orders), ParseOrdering(words, ts, depth).rest);
    } else {
      c := NoOrdering;
    }
  }

  lemma SoundPage(words: Words, name: string, ts: seq<Token>) returns (c: Page)
    requires ParsePage(words, name, ts).Ok?
    ensures LegalPage(words, name, c) && ts == YieldPage(c) + ParsePage(words, name, ts).rest
    ensures AstPage(words, name, c) == ParsePage(words, name, ts).value
  {
    if At(ts, name) {
      c := Page(ts[0], ts[1].text);
      assert ts == [ts[0], Num(ts[1].text)] + ts[2..];
    } else {
      c := NoPage;
    }
  }

  lemma SoundQuery(words: Words, ts: seq<Token>, depth: int) returns (c: QueryTree)
    requires ParseQuery(words, ts, depth).Ok? && depth <= MAX_DEPTH
    ensures LegalQuery(words, c) && ts == YieldQuery(c) + ParseQuery(words, ts, depth).rest
    ensures AstQuery(words, c) == ParseQuery(words, ts, depth).value && depth + DepthQuery(c) <= MAX_DEPTH
  {
    var filter := SoundFilter(words, ts[2..], depth);
    var afterFilter := ParseFilter(words, ts[2..], depth).rest;
    var ordering := SoundOrdering(words, afterFilter, depth);
    var afterOrders := ParseOrdering(words, afterFilter, depth).rest;
    var limit := SoundPage(words, "limit", afterOrders);
    var afterLimit := ParsePage(words, "limit", afterOrders).rest;
    var offset := SoundPage(words, "offset", afterLimit);
    c := QueryTree(ts[0], ts[1], filter, ordering, limit, offset);
    ClausesText(ts, c, afterFilter, afterOrders, afterLimit, ParseQuery(words, ts, depth).rest);
  }

  lemma ClausesText(ts: seq<Token>, c: QueryTree, afterFilter: seq<Token>, afterOrders: seq<Token>, afterLimit: seq<Token>, rest: seq<Token>)
    requires |ts| >= 2 && c.fromWord == ts[0] && c.target == ts[1] && ts[2..] == YieldFilter(c.filter) + afterFilter
    requires afterFilter == YieldOrdering(c.ordering) + afterOrders && afterOrders == YieldPage(c.limit) + afterLimit
    requires afterLimit == YieldPage(c.offset) + rest
    ensures ts == YieldQuery(c) + rest
  {
    assert ts == [ts[0], ts[1]] + ts[2..];
    QueryText(c, rest);
  }

  lemma QueryText(c: QueryTree, rest: seq<Token>)
    ensures YieldQuery(c) + rest == [c.fromWord, c.target] +
      (YieldFilter(c.filter) + (YieldOrdering(c.ordering) + (YieldPage(c.limit) + (YieldPage(c.offset) + rest))))
  {
    var pages := YieldPage(c.limit) + YieldPage(c.offset);
    Assoc([c.fromWord, c.target], YieldFilter(c.filter) + (YieldOrdering(c.ordering) + pages), rest);
    Chain(YieldFilter(c.filter), YieldOrdering(c.ordering), pages, rest);
    Assoc(YieldPage(c.limit), YieldPage(c.offset), rest);
  }

  // ----- Completeness -----

  /** What may follow a clause of a query. */
  predicate EndsClause(rest: seq<Token>) {
    Head(rest) == Eof || At(rest, "order") || At(rest, "limit") || At(rest, "offset")
  }

  lemma {:induction false} CompleteOrders(words: Words, c: Orders, rest: seq<Token>, depth: int)
    requires LegalOrders(words, c) && depth + DepthOrders(c) <= MAX_DEPTH && EndsClause(rest)
    ensures ParseOrders(words, YieldOrders(c) + rest, depth) == Ok(AstOrders(words, c), rest)
    decreases c
  {
    match c
    case LastOrder(term) => CompleteTerm(words, term, rest, depth);
    case MoreOrders(term, more) =>
      Chain(YieldTerm(term), [Comma], YieldOrders(more), rest);
      Drop([Comma], YieldOrders(more) + rest);
      CompleteTerm(words, term, [Comma] + (YieldOrders(more) + rest), depth);
      CompleteOrders(words, more, rest, depth);
  }

  lemma CompleteTerm(words: Words, c: OrderTerm, rest: seq<Token>, depth: int)
    requires LegalTerm(words, c) && depth + DepthOperand(c.operand) <= MAX_DEPTH && (EndsClause(rest) || Head(rest) == Comma)
    ensures ParseTerm(words, YieldTerm(c) + rest, depth) == Ok(AstTerm(words, c), rest)
  {
    Assoc(YieldOperand(c.operand), Direction(c), rest);
    Drop(Direction(c), rest);
    CompleteOperand(words, c.operand, Direction(c) + rest, depth);
  }

  lemma CompleteFilter(words: Words, c: Filter, rest: seq<Token>, depth: int)
    requires LegalFilter(words, c) && (c.Filter? ==> depth + DepthDisj(c.disj) <= MAX_DEPTH) && EndsClause(rest)
    ensures ParseFilter(words, YieldFilter(c) + rest, depth) == Ok(AstFilter(words, c), rest)
  {
    match c
    case NoFilter => assert [] + rest == rest;
    case Filter(word, disj) =>
      Assoc([word], YieldDisj(disj), rest);
      Drop([word], YieldDisj(disj) + rest);
      CompleteDisj(words, disj, rest, depth);
  }

  lemma CompleteOrdering(words: Words, c: Ordering, rest: seq<Token>, depth: int)
    requires LegalOrdering(words, c) && (c.Ordering? ==> depth + DepthOrders(c.orders) <= MAX_DEPTH) && EndsClause(rest) && !At(rest, "order")
    ensures ParseOrdering(words, YieldOrdering(c) + rest, depth) == Ok(AstOrdering(words, c), rest)
    ensures EndsClause(YieldOrdering(c) + rest)
  {
    match c
    case NoOrdering => assert [] + rest == rest;
    case Ordering(orderWord, byWord, orders) =>
      var ts := YieldOrdering(c) + rest;
      Assoc([orderWord, byWord], YieldOrders(orders), rest);
      assert ts[1..][0] == byWord && ts[2..] == YieldOrders(orders) + rest;
      CompleteOrders(words, orders, rest, depth);
  }

  lemma CompletePage(words: Words, name: string, c: Page, rest: seq<Token>)
    requires LegalPage(words, name, c) && !At(rest, name)
    ensures ParsePage(words, name, YieldPage(c) + rest) == Ok(AstPage(words, name, c), rest)
    ensures Head(YieldPage(c) + rest) == if c.Page? then c.word else Head(rest)
  {
    match c
    case NoPage => assert [] + rest == rest;
    case Page(word, count) =>
      var ts := YieldPage(c) + rest;
      assert ts[1..][0] == Num(count) && ts[2..] == rest;
  }

  lemma CompleteQuery(words: Words, c: QueryTree, rest: seq<Token>, depth: int)
    requires LegalQuery(words, c) && depth + DepthQuery(c) <= MAX_DEPTH && Head(rest) == Eof
    ensures ParseQuery(words, YieldQuery(c) + rest, depth) == Ok(AstQuery(words, c), rest)
  {
    var afterLimit := YieldPage(c.offset) + rest;
    var afterOrders := YieldPage(c.limit) + afterLimit;
    var afterFilter := YieldOrdering(c.ordering) + afterOrders;
    var afterTarget := YieldFilter(c.filter) + afterFilter;
    QueryText(c, rest);
    var ts := [c.fromWord, c.target] + afterTarget;
    assert ts[1..][0] == c.target && ts[2..] == afterTarget;
    CompletePage(words, "offset", c.offset, rest);
    CompletePage(words, "limit", c.limit, afterLimit);
    CompleteOrdering(words, c.ordering, afterOrders, depth);
    CompleteFilter(words, c.filter, afterFilter, depth);
  }

  // ----- No tree yields the end marker -----

  lemma {:induction false} OperandHasNoEnd(words: Words, c: Operand)
    requires LegalOperand(words, c)
    ensures Eof !in YieldOperand(c)
    decreases c
  {
    CastedHasNoEnd(words, c.head);
    SumsHaveNoEnd(words, c.sums);
  }

  lemma {:induction false} CastedHasNoEnd(words: Words, c: Casted)
    requires LegalCasted(words, c)
    ensures Eof !in YieldCasted(c)
    decreases c
  {
    if c.primary.CastCall? {
      OperandHasNoEnd(words, c.primary.operand);
    }
    CastsHaveNoEnd(c.casts);
  }

  lemma {:induction false} SumsHaveNoEnd(words: Words, c: Sums)
    requires LegalSums(words, c)
    ensures Eof !in YieldSums(c)
    decreases c
  {
    if c.MoreSums? {
      CastedHasNoEnd(words, c.right);
      SumsHaveNoEnd(words, c.more);
    }
  }

  lemma CastsHaveNoEnd(c: Casts)
    ensures Eof !in YieldCasts(c)
  {
  }

  lemma {:induction false} OperandsHaveNoEnd(words: Words, c: Operands)
    requires LegalOperands(words, c)
    ensures Eof !in YieldOperands(c)
  {
    OperandHasNoEnd(words, c.operand);
    if c.MoreOperands? {
      OperandsHaveNoEnd(words, c.more);
    }
  }

  lemma TailHasNoEnd(words: Words, c: Tail)
    requires LegalTail(words, c)
    ensures Eof !in YieldTail(c)
  {
    match c
    case InTail(_, values) => OperandsHaveNoEnd(words, values);
    case BetweenTail(_, lower, _, upper) =>
      OperandHasNoEnd(words, lower);
      OperandHasNoEnd(words, upper);
    case CompareTail(_, right) => OperandHasNoEnd(words, right);
    case _ =>
  }

  lemma {:induction false} TestHasNoEnd(words: Words, c: Test)
    requires LegalTest(words, c)
    ensures Eof !in YieldTest(c)
    decreases c
  {
    match c
    case Not(_, test) => TestHasNoEnd(words, test);
    case Group(disj) => DisjHasNoEnd(words, disj);
    case Tested(left, tail) =>
      OperandHasNoEnd(words, left);
      TailHasNoEnd(words, tail);
    case _ =>
  }

  lemma {:induction false} ConjHasNoEnd(words: Words, c: Conj)
    requires LegalConj(words, c)
    ensures Eof !in YieldConj(c)
    decreases c
  {
    TestHasNoEnd(words, c.test);
    if c.AndAlso? {
      ConjHasNoEnd(words, c.more);
    }
  }

  lemma {:induction false} DisjHasNoEnd(words: Words, c: Disj)
    requires LegalDisj(words, c)
    ensures Eof !in YieldDisj(c)
    decreases c
  {
    ConjHasNoEnd(words, c.conj);
    if c.OrElse? {
      DisjHasNoEnd(words, c.more);
    }
  }

  lemma {:induction false} OrdersHaveNoEnd(words: Words, c: Orders)
    requires LegalOrders(words, c)
    ensures Eof !in YieldOrders(c)
  {
    OperandHasNoEnd(words, c.term.operand);
    if c.MoreOrders? {
      OrdersHaveNoEnd(words, c.more);
    }
  }

  lemma QueryHasNoEnd(words: Words, c: QueryTree)
    requires LegalQuery(words, c)
    ensures Eof !in YieldQuery(c)
  {
    if c.filter.Filter? {
      DisjHasNoEnd(words, c.filter.disj);
    }
    if c.ordering.Ordering? {
      OrdersHaveNoEnd(words, c.ordering.orders);
    }
  }

  // ----- The parser is the grammar -----

  /** A legal query tree within the nesting limit whose text is `body`. */
  ghost predicate Derives(words: Words, c: QueryTree, body: seq<Token>) {
    LegalQuery(words, c) && DepthQuery(c) <= MAX_DEPTH && YieldQuery(c) == body
  }

  /** Some tree within the limit yields `body` and means `query`. */
  ghost predicate Means(words: Words, body: seq<Token>, query: Query) {
    exists c :: Derives(words, c, body) && AstQuery(words, c) == query
  }

  /** Tokens parse to a query exactly when some tree within the limit yields them and means that query. */
  lemma ParserIsGrammar(words: Words, body: seq<Token>, query: Query)
    requires Eof !in body
    ensures ParseTokens(words, body + [Eof]) == Some(query) <==> Means(words, body, query)
  {
    if ParseTokens(words, body + [Eof]) == Some(query) {
      var c := SoundQuery(words, body + [Eof], 0);
      var rest := ParseQuery(words, body + [Eof], 0).rest;
      QueryHasNoEnd(words, c);
      EndMarker(body, YieldQuery(c), rest);
      assert Derives(words, c, body);
    }
    forall c | Derives(words, c, body) && AstQuery(words, c) == query
      ensures ParseTokens(words, body + [Eof]) == Some(query)
    {
      CompleteQuery(words, c, [Eof], 0);
    }
  }

  lemma EndMarker(body: seq<Token>, text: seq<Token>, rest: seq<Token>)
    requires Eof !in body && Eof !in text && body + [Eof] == text + rest && Head(rest) == Eof
    ensures text == body
  {
    EndIsAt(body, [Eof]);
    EndIsAt(text, rest);
    assert text == (text + rest)[..|text|] && body == (body + [Eof])[..|body|];
  }

  /** Where the first end marker stands. */
  function FirstEnd(tokens: seq<Token>): nat {
    if tokens == [] || tokens[0] == Eof then 0 else 1 + FirstEnd(tokens[1..])
  }

  lemma {:induction false} EndIsAt(a: seq<Token>, b: seq<Token>)
    requires Eof !in a && Head(b) == Eof
    ensures FirstEnd(a + b) == |a|
    decreases |a|
  {
    if a == [] {
      assert a + b == b;
    } else {
      assert (a + b)[1..] == a[1..] + b;
      EndIsAt(a[1..], b);
    }
  }

  /** The grammar is unambiguous, nested however deep: trees with the same text mean the same query. */
  lemma GrammarIsUnambiguous(words: Words, a: QueryTree, b: QueryTree)
    requires LegalQuery(words, a) && LegalQuery(words, b) && YieldQuery(a) == YieldQuery(b)
    ensures AstQuery(words, a) == AstQuery(words, b)
  {
    var depth := MAX_DEPTH - Max(DepthQuery(a), DepthQuery(b));
    CompleteQuery(words, a, [Eof], depth);
    CompleteQuery(words, b, [Eof], depth);
  }
}
