/** From query text to rows: what the text of a query asks for is what the statement compiled from it selects. */
module SearchText {
  import opened Values
  import opened QueryAst
  import G = Grammar
  import L = Lexer
  import Q = QueryGrammar
  import B = Bind
  import T = BindTheorems
  import Binder
  import C = Compile
  import CM = CompileMeaning
  import P = PathMeaning
  import S = SqlText
  import M = ConditionMeaning
  import SS = SearchStatement
  import R = StatementMeaning
  import opened TextMeaning
  import opened SearchPipeline

  // ----- Text with any layout is parsed -----

  /** A legal tree of known words, laid out with any white space that keeps the words apart, parses to its meaning. */
  lemma LaidOutText(words: G.Words, c: Q.QueryTree, body: seq<G.Token>, gaps: seq<string>)
    requires Q.LegalQuery(words, c) && Q.DepthQuery(c) <= 64 && body == Q.YieldQuery(c)
    requires (forall i :: 0 <= i < |body| ==> L.Lexical(body[i])) && |gaps| == |body| && L.Separates(body, gaps)
    ensures ParseText(words, L.Spread(body, gaps)) == if |L.Spread(body, gaps)| <= 16384 then Some(Q.AstQuery(words, c)) else None
  {
    L.LexSpread(body, gaps);
    Q.CompleteQuery(words, c, [G.Eof], 0);
  }

  // ----- Which words are accepted -----

  /** LIMIT and OFFSET take any number that is not negative. */
  lemma PageIff(words: G.Words, name: string, c: Q.Page)
    ensures Q.LegalPage(words, name, c) <==>
      match c
      case NoPage => true
      case Page(word, count) => word.Ident? && G.Lower(word.text) == name && words.count(count).Some? && words.count(count).value >= 0
  {
  }

  /** A query is about objects or relations. */
  lemma TargetIff(token: G.Token, target: string)
    ensures Q.Target(token) == Some(target) <==> token.Ident? && G.Lower(token.text) == target && target in {"objects", "relations"}
  {
  }

  predicate KnowsText(words: G.Words, kind: string, text: string) {
    match kind
    case "timestamp" => words.timestamp(text).Some?
    case "date" => words.date(text).Some?
    case "interval" => words.interval(text).Some?
    case _ => false
  }

  /** A date, an instant or an interval is accepted exactly when its own reader knows its text, and a number likewise. */
  lemma LiteralsIff(words: G.Words, word: G.Token, text: string)
    ensures G.LegalPrimary(words, G.Typed(word, text)) <==> word.Ident? && KnowsText(words, G.Lower(word.text), text)
    ensures G.LegalPrimary(words, G.NumberOf(text)) <==>
      if exists i :: 0 <= i < |text| && text[i] == '.' then words.float(text).Some? else words.integer(text).Some?
  {
    assert '.' in text <==> exists i :: 0 <= i < |text| && text[i] == '.';
  }

  /** Values are added and subtracted, and nothing else. */
  lemma SumsIff(words: G.Words, op: G.Token, right: G.Casted, more: G.Sums)
    ensures G.LegalSums(words, G.MoreSums(op, right, more)) <==>
      op in {G.Op("+"), G.Op("-")} && G.LegalCasted(words, right) && G.LegalSums(words, more)
  {
  }

  // ----- The ORDER BY clause -----

  function OrderTerms(c: Q.Orders): seq<Q.OrderTerm> {
    match c
    case LastOrder(term) => [term]
    case MoreOrders(term, more) => [term] + OrderTerms(more)
  }

  function TextTerms(c: Q.Ordering): seq<Q.OrderTerm> {
    match c case NoOrdering => [] case Ordering(_, _, orders) => OrderTerms(orders)
  }

  predicate Descends(term: Q.OrderTerm) {
    term.direction.Some? && term.direction.value.Ident? && G.Lower(term.direction.value.text) == "desc"
  }

  lemma {:induction false} OrdersMean(words: G.Words, c: Q.Orders)
    requires Q.LegalOrders(words, c)
    ensures var orders, terms := Q.AstOrders(words, c), OrderTerms(c);
      |orders| == |terms| && forall i :: 0 <= i < |terms| ==> Q.LegalTerm(words, terms[i]) && orders[i] == Q.AstTerm(words, terms[i])
    decreases c
  {
    if c.MoreOrders? {
      OrdersMean(words, c.more);
    }
  }

  /** A sort key is the value of the term's text, and descends exactly when the term says so. */
  predicate SortsAsTold(w: S.World, words: G.Words, names: C.Names, args: seq<S.Arg>, key: R.SortKey, term: Q.OrderTerm) {
    key.descending == Descends(term) && S.ValueOf(w, args, key.tree) == TextOperand(w, words, names, term.operand)
  }

  lemma TermSorts(w: S.World, words: G.Words, names: C.Names, args: seq<S.Arg>, key: R.SortKey, term: Q.OrderTerm)
    requires Q.LegalTerm(words, term) && R.SortsBy(w, names, args, key, Q.AstTerm(words, term)) && P.Plain(Q.AstTerm(words, term).expr)
    ensures SortsAsTold(w, words, names, args, key, term)
  {
    OperandMeans(w, words, names, term.operand);
    P.PlainScalar(w, names, G.AstOperand(words, term.operand));
  }

  predicate PlainOrders(orders: seq<Order>) {
    forall i :: 0 <= i < |orders| ==> P.Plain(orders[i].expr)
  }

  lemma AllTermsSort(w: S.World, words: G.Words, names: C.Names, args: seq<S.Arg>, keys: seq<R.SortKey>, c: Q.Ordering)
    requires Q.LegalOrdering(words, c) && PlainOrders(Q.AstOrdering(words, c))
    requires R.AllSortBy(w, names, args, keys, Q.AstOrdering(words, c))
    ensures |keys| == |TextTerms(c)| && forall i :: 0 <= i < |keys| ==> SortsAsTold(w, words, names, args, keys[i], TextTerms(c)[i])
  {
    if c.Ordering? {
      OrdersMean(words, c.orders);
      var orders := Q.AstOrdering(words, c);
      forall i | 0 <= i < |keys| ensures SortsAsTold(w, words, names, args, keys[i], TextTerms(c)[i]) {
        assert R.SortsBy(w, names, args, keys[i], orders[i]);
        TermSorts(w, words, names, args, keys[i], TextTerms(c)[i]);
      }
    }
  }

  // ----- The whole search -----

  function InScope(w: S.World, scope: string): S.Truth {
    if scope == "" then S.True else w.compare("=", w.column("bucket_id"), w.bind(S.TextArg(scope)))
  }

  /** The query is bound, compiled with the types found, and its attribute paths have plain names. */
  ghost predicate Compiled(registry: B.Registry, query: Query, names: C.Names, scope: string, code: C.Code) {
    && Binder.BindQuery(registry, query).Some? && names.attrTypes == T.TypesOf(Binder.BindQuery(registry, query).value)
    && SS.StatementSql(names, scope, query) == Some(code) && M.PlainCondition(query.condition) && PlainOrders(query.orderBy)
  }

  lemma OrdersAreReadable(orders: seq<Order>)
    requires PlainOrders(orders)
    ensures R.ReadableOrders(orders)
  {
    forall i | 0 <= i < |orders| ensures CM.Readable(orders[i].expr) {
      P.PlainIsReadable(orders[i].expr);
    }
  }

  lemma CompiledReads(w: S.World, registry: B.Registry, query: Query, names: C.Names, scope: string, code: C.Code) returns (statement: R.Statement)
    requires Compiled(registry, query, names, scope, code)
    ensures R.ReadStatement(code.text) == Some(statement)
    ensures statement.condition.Some? <==> scope != "" || query.condition.Some?
    ensures statement.condition.Some? ==>
      S.Holds(w, code.args, statement.condition.value) == M.WhereMeaning(S.AsRead(w), names, scope, query.condition)
    ensures R.AllSortBy(w, names, code.args, statement.sorting, query.orderBy)
    ensures Placed(code.args, statement.limit, query.limit) && Placed(code.args, statement.offset, query.offset)
  {
    if query.condition.Some? {
      Binder.BoundConditionsAreSafe(registry, query, names);
      P.PlainIsReadable(query.condition.value);
    }
    OrdersAreReadable(query.orderBy);
    statement := R.StatementReads(w, names, scope, query, code);
  }

  predicate Placed(args: seq<S.Arg>, number: Option<nat>, count: Option<int>) {
    (number.Some? <==> count.Some?) && (count.Some? ==> S.ArgAt(args, number.value) == S.IntArg(count.value))
  }

  /** What the statement's own condition says of a row, compared with scope and query. */
  lemma ConditionSelects(w: S.World, registry: B.Registry, query: Query, names: C.Names, scope: string, code: C.Code, truth: S.Truth)
    requires Compiled(registry, query, names, scope, code) && (scope != "" || query.condition.Some?)
    requires truth == M.WhereMeaning(S.AsRead(w), names, scope, query.condition)
    ensures (truth == M.Intended(w, names, scope, query.condition)) <==> M.StaysInScope(w, names, scope, query.condition)
  {
    M.PlainWhereMeaning(w, names, scope, query.condition);
    if query.condition.Some? {
      Binder.BoundConditionsAreSafe(registry, query, names);
    }
    var tree := M.WhereReads(w, names, scope, query.condition);
    var tree' := M.MeaningIsPreservedIff(w, names, scope, query.condition);
  }

  lemma FilterTold(w: S.World, words: G.Words, registry: B.Registry, query: Query, c: Q.Filter, names: C.Names, scope: string, code: C.Code,
                   truth: S.Truth)
    requires Compiled(registry, query, names, scope, code) && Q.LegalFilter(words, c) && query.condition == Q.AstFilter(words, c)
    requires (scope != "" || c.Filter?) && truth == M.WhereMeaning(S.AsRead(w), names, scope, query.condition)
    ensures c.Filter? ==>
      ((truth == S.And3(InScope(w, scope), TextDisj(w, words, names, c.disj))) <==> M.StaysInScope(w, names, scope, query.condition))
    ensures c.NoFilter? ==> truth == InScope(w, scope)
  {
    ConditionSelects(w, registry, query, names, scope, code, truth);
    if c.Filter? {
      DisjMeans(w, words, names, c.disj);
    }
  }

  /** The clause is there exactly when the text has one, and its argument is the number the text gives. */
  predicate Counts(words: G.Words, args: seq<S.Arg>, number: Option<nat>, c: Q.Page) {
    match c
    case NoPage => number.None?
    case Page(_, count) => number.Some? && words.count(count).Some? && S.ArgAt(args, number.value) == S.IntArg(words.count(count).value)
  }

  lemma PageTold(words: G.Words, args: seq<S.Arg>, number: Option<nat>, name: string, c: Q.Page)
    requires Q.LegalPage(words, name, c) && Placed(args, number, Q.AstPage(words, name, c))
    ensures Counts(words, args, number, c)
  {
  }

  /**
   A query text that binds and compiles, with plain names in its attribute paths. The statement reads back as one SELECT.
   On a row its condition has the truth of the scope and the text's condition exactly when the query stays in scope; its
   sort keys are the text's terms, in their order and direction; LIMIT and OFFSET are the text's numbers.
   */
  lemma TextSelects(w: S.World, words: G.Words, registry: B.Registry, c: Q.QueryTree, names: C.Names, scope: string, code: C.Code)
    returns (statement: R.Statement)
    requires Q.LegalQuery(words, c) && Compiled(registry, Q.AstQuery(words, c), names, scope, code)
    ensures R.ReadStatement(code.text) == Some(statement)
    ensures statement.condition.Some? <==> scope != "" || c.filter.Filter?
    ensures c.filter.Filter? ==>
      ((S.Holds(w, code.args, statement.condition.value) == S.And3(InScope(w, scope), TextDisj(w, words, names, c.filter.disj))) <==>
       M.StaysInScope(w, names, scope, Q.AstFilter(words, c.filter)))
    ensures c.filter.NoFilter? && scope != "" ==> S.Holds(w, code.args, statement.condition.value) == InScope(w, scope)
    ensures |statement.sorting| == |TextTerms(c.ordering)|
    ensures forall i :: 0 <= i < |statement.sorting| ==>
      SortsAsTold(w, words, names, code.args, statement.sorting[i], TextTerms(c.ordering)[i])
    ensures Counts(words, code.args, statement.limit, c.limit) && Counts(words, code.args, statement.offset, c.offset)
  {
    var query := Q.AstQuery(words, c);
    statement := CompiledReads(w, registry, query, names, scope, code);
    AllTermsSort(w, words, names, code.args, statement.sorting, c.ordering);
    if statement.condition.Some? {
      FilterTold(w, words, registry, query, c.filter, names, scope, code, S.Holds(w, code.args, statement.condition.value));
    }
    PageTold(words, code.args, statement.limit, "limit", c.limit);
    PageTold(words, code.args, statement.offset, "offset", c.offset);
  }
}
