/** The parser object: a position and a nesting depth moved over the token list. */
module QueryParser {
  import opened Values
  import opened QueryAst
  import opened Grammar
  import opened Parse
  import opened QueryGrammar

  // ----- What a loop has read so far, and what is left for it -----

  function MoreDisj(words: Words, terms: seq<Expr>, ts: seq<Token>, depth: nat): Parsed<seq<Expr>> {
    if !At(ts, "or") then Ok(terms, ts)
    else match ParseDisjTerms(words, ts[1..], depth) case Fail => Fail case Ok(more, rest) => Ok(terms + more, rest)
  }

  lemma DisjStep(words: Words, terms: seq<Expr>, ts: seq<Token>, depth: nat)
    requires At(ts, "or")
    ensures MoreDisj(words, terms, ts, depth) ==
      match ParseConj(words, ts[1..], depth) case Fail => Fail case Ok(next, rest) => MoreDisj(words, terms + [next], rest, depth)
  {
    match ParseDisjTerms(words, ts[1..], depth)
    case Fail =>
    case Ok(more, _) => assert terms + ([more[0]] + more[1..]) == terms + [more[0]] + more[1..];
  }

  function MoreConj(words: Words, terms: seq<Expr>, ts: seq<Token>, depth: nat): Parsed<seq<Expr>> {
    if !At(ts, "and") then Ok(terms, ts)
    else match ParseConjTerms(words, ts[1..], depth) case Fail => Fail case Ok(more, rest) => Ok(terms + more, rest)
  }

  lemma ConjStep(words: Words, terms: seq<Expr>, ts: seq<Token>, depth: nat)
    requires At(ts, "and")
    ensures MoreConj(words, terms, ts, depth) ==
      match ParseTest(words, ts[1..], depth) case Fail => Fail case Ok(next, rest) => MoreConj(words, terms + [next], rest, depth)
  {
    match ParseConjTerms(words, ts[1..], depth)
    case Fail =>
    case Ok(more, _) => assert terms + ([more[0]] + more[1..]) == terms + [more[0]] + more[1..];
  }

  function MoreValues(words: Words, values: seq<Expr>, ts: seq<Token>, depth: nat): Parsed<seq<Expr>> {
    if Head(ts) != Comma then Ok(values, ts)
    else if Head(ts[1..]) == RParen then Fail
    else match ParseValues(words, ts[1..], depth) case Fail => Fail case Ok(more, rest) => Ok(values + more, rest)
  }

  lemma ValuesStep(words: Words, values: seq<Expr>, ts: seq<Token>, depth: nat)
    requires Head(ts) == Comma && Head(ts[1..]) != RParen
    ensures MoreValues(words, values, ts, depth) ==
      match ParseOperand(words, ts[1..], depth) case Fail => Fail case Ok(next, rest) => MoreValues(words, values + [next], rest, depth)
  {
    match ParseValues(words, ts[1..], depth)
    case Fail =>
    case Ok(more, _) =>
      assert more != [];
      assert values + ([more[0]] + more[1..]) == values + [more[0]] + more[1..];
  }

  function RestOfOrders(words: Words, orders: seq<Order>, ts: seq<Token>): Parsed<seq<Order>> {
    if Head(ts) != Comma then Ok(orders, ts)
    else match ParseOrders(words, ts[1..], 0) case Fail => Fail case Ok(more, rest) => Ok(orders + more, rest)
  }

  lemma TermStep(words: Words, ts: seq<Token>)
    ensures ParseOrders(words, ts, 0) == match ParseTerm(words, ts, 0) case Fail => Fail case Ok(term, rest) => RestOfOrders(words, [term], rest)
  {
  }

  lemma OrdersStep(words: Words, orders: seq<Order>, ts: seq<Token>)
    requires Head(ts) == Comma
    ensures RestOfOrders(words, orders, ts) ==
      match ParseTerm(words, ts[1..], 0) case Fail => Fail case Ok(term, rest) => RestOfOrders(words, orders + [term], rest)
  {
    TermStep(words, ts[1..]);
    match ParseOrders(words, ts[1..], 0)
    case Fail =>
    case Ok(more, _) => assert orders + ([more[0]] + more[1..]) == orders + [more[0]] + more[1..];
  }

  lemma EndIsNoTerm(words: Words, ts: seq<Token>)
    requires Head(ts) == Eof
    ensures ParseTerm(words, ts, 0) == Fail
  {
    assert ParsePrimary(words, ts, 0) == Fail;
    assert ParseCasted(words, ts, 0) == Fail;
  }

  class Parser {
    const words: Words
    const tokens: seq<Token>
    var pos: nat
    var depth: nat

    constructor (words: Words, tokens: seq<Token>)
      ensures this.words == words && this.tokens == tokens && pos == 0 && depth == 0
    {
      this.words := words;
      this.tokens := tokens;
      pos := 0;
      depth := 0;
    }

    function Rest(): seq<Token>
      reads this
    {
      if pos <= |tokens| then tokens[pos..] else []
    }

    predicate Valid()
      reads this
    {
      pos <= |tokens|
    }

    /** A step succeeds with the parsed value and stands on the parsed rest, or fails. */
    predicate Did<T(==)>(result: Option<T>, parsed: Parsed<T>)
      reads this
    {
      Valid() && match parsed case Fail => result.None? case Ok(value, rest) => result == Some(value) && Rest() == rest
    }

    function Current(): Token
      requires Valid()
      reads this
      ensures Current() == Head(Rest())
    {
      if pos >= |tokens| then Eof else tokens[pos]
    }

    function Peek(): Token
      requires Valid()
      reads this
      ensures Peek() == if |Rest()| > 1 then Rest()[1] else Eof
    {
      if pos + 1 >= |tokens| then Eof else tokens[pos + 1]
    }

    method Advance()
      requires Valid()
      modifies `pos
      ensures Valid() && Rest() == if Head(old(Rest())) == Eof then old(Rest()) else old(Rest())[1..]
    {
      if Current() != Eof {
        pos := pos + 1;
      }
    }

    method Consume(token: Token) returns (ok: bool)
      requires Valid() && token != Eof
      modifies `pos
      ensures Valid() && ok == (Head(old(Rest())) == token) && Rest() == if ok then old(Rest())[1..] else old(Rest())
    {
      ok := Current() == token;
      if ok {
        Advance();
      }
    }

    method ConsumeKeyword(word: string) returns (ok: bool)
      requires Valid()
      modifies `pos
      ensures Valid() && ok == At(old(Rest()), word) && Rest() == if ok then old(Rest())[1..] else old(Rest())
    {
      ok := Keyword(Current(), word);
      if ok {
        Advance();
      }
    }

    /** A string token's text. */
    method ConsumeString() returns (text: Option<string>)
      requires Valid()
      modifies `pos
      ensures Valid()
      ensures var ts := old(Rest());
        if Head(ts).Str? then text == Some(ts[0].text) && Rest() == ts[1..] else text.None?
    {
      if !Current().Str? {
        return None;
      }
      text := Some(Current().text);
      Advance();
    }

    // ----- Conditions -----

    method ParseBoolExpr() returns (e: Option<Expr>)
      requires Valid()
      modifies `pos, `depth
      ensures depth == old(depth) && Did(e, ParseDisj(words, old(Rest()), depth))
      decreases |Rest()|, 11
    {
      var first := ParseAndExpr();
      if first.None? {
        return None;
      }
      var terms := [first.value];
      while true
        invariant Valid() && depth == old(depth) && terms != [] && |Rest()| < |old(Rest())|
        invariant ParseDisjTerms(words, old(Rest()), depth) == MoreDisj(words, terms, Rest(), depth)
        decreases |Rest()|
      {
        if !Keyword(Current(), "or") {
          break;
        }
        DisjStep(words, terms, Rest(), depth);
        Advance();
        var next := ParseAndExpr();
        if next.None? {
          return None;
        }
        terms := terms + [next.value];
      }
      e := Some(if |terms| == 1 then first.value else BoolExpr(BOOL_OR, terms));
    }

    method ParseAndExpr() returns (e: Option<Expr>)
      requires Valid()
      modifies `pos, `depth
      ensures depth == old(depth) && Did(e, ParseConj(words, old(Rest()), depth))
      decreases |Rest()|, 9
    {
      var first := ParseUnaryExpr();
      if first.None? {
        return None;
      }
      var terms := [first.value];
      while true
        invariant Valid() && depth == old(depth) && terms != [] && |Rest()| < |old(Rest())|
        invariant ParseConjTerms(words, old(Rest()), depth) == MoreConj(words, terms, Rest(), depth)
        decreases |Rest()|
      {
        if !Keyword(Current(), "and") {
          break;
        }
        ConjStep(words, terms, Rest(), depth);
        Advance();
        var next := ParseUnaryExpr();
        if next.None? {
          return None;
        }
        terms := terms + [next.value];
      }
      e := Some(if |terms| == 1 then first.value else BoolExpr(BOOL_AND, terms));
    }

    method ParseUnaryExpr() returns (e: Option<Expr>)
      requires Valid()
      modifies `pos, `depth
      ensures depth == old(depth) && Did(e, ParseTest(words, old(Rest()), depth))
      decreases |Rest()|, 7
    {
      depth := depth + 1;
      if depth > MAX_DEPTH {
        e := None;
      } else if Keyword(Current(), "not") {
        Advance();
        var inner := ParseUnaryExpr();
        e := if inner.None? then None else Some(NotExpr(inner.value));
      } else if Keyword(Current(), "has_relation") && Peek() == LParen {
        e := ParseRelationPredicate();
      } else if Keyword(Current(), "bucket") && Peek() == LParen {
        e := ParseBucketPredicate();
      } else if Current() == LParen {
        Advance();
        e := ParseGroupedExpr();
      } else {
        e := ParseComparisonExpr();
      }
      depth := depth - 1;
    }

    /** A condition and its closing parenthesis. */
    method ParseGroupedExpr() returns (e: Option<Expr>)
      requires Valid()
      modifies `pos, `depth
      ensures depth == old(depth) && Did(e, ParseGroup(words, old(Rest()), depth))
      decreases |Rest()|, 12
    {
      e := ParseBoolExpr();
      if e.Some? {
        var closed := Consume(RParen);
        e := if closed then e else None;
      }
    }

    method ParseRelationPredicate() returns (e: Option<Expr>)
      requires Valid() && Calls(Rest(), "has_relation")
      modifies `pos
      ensures Did(e, ParseRelation(words, old(Rest())[2..]))
    {
      Advance();
      Advance();
      ghost var ts := old(Rest())[2..];
      assert Rest() == ts;
      var relation := ConsumeString();
      if relation.None? || !words.validName(relation.value) {
        return None;
      }
      var direction := RELATION_ANY;
      var more := Consume(Comma);
      if more {
        var text := ConsumeString();
        if text.None? || text.value !in {RELATION_ANY, RELATION_OUT, RELATION_IN} {
          return None;
        }
        direction := text.value;
      }
      var closed := Consume(RParen);
      e := if closed then Some(RelationPredicate(relation.value, direction)) else None;
    }

    method ParseBucketPredicate() returns (e: Option<Expr>)
      requires Valid() && Calls(Rest(), "bucket")
      modifies `pos
      ensures Did(e, ParseBucket(words, old(Rest())[2..]))
    {
      Advance();
      Advance();
      var name := ConsumeString();
      if name.None? || !words.validName(name.value) {
        return None;
      }
      var closed := Consume(RParen);
      e := if closed then Some(BucketPredicate(name.value)) else None;
    }

    method ParseComparisonExpr() returns (e: Option<Expr>)
      requires Valid()
      modifies `pos, `depth
      ensures depth == old(depth) && Did(e, ParseComparison(words, old(Rest()), depth))
      decreases |Rest()|, 6
    {
      var left := ParseAdditiveExpr();
      if left.None? {
        return None;
      }
      var matched := ConsumeKeyword("in");
      if matched {
        e := ParseInComparison(left.value);
        return;
      }
      matched := ConsumeKeyword("between");
      if matched {
        e := ParseBetweenComparison(left.value);
        return;
      }
      matched := ConsumeKeyword("is");
      if matched {
        e := ParseNullComparison(left.value);
        return;
      }
      var op := CompareOp(Current());
      if op.None? {
        return None;
      }
      Advance();
      var right := ParseAdditiveExpr();
      e := if right.None? then None else Some(Comparison(op.value, left.value, right.value));
    }

    method ParseInComparison(left: Expr) returns (e: Option<Expr>)
      requires Valid()
      modifies `pos, `depth
      ensures depth == old(depth) && Did(e, ParseIn(words, left, old(Rest()), depth))
      decreases |Rest()|, 5
    {
      var entered := Consume(LParen);
      if !entered || Current() == RParen {
        return None;
      }
      var values := ParseValueList();
      if values.None? {
        return None;
      }
      var closed := Consume(RParen);
      e := if closed then Some(InComparison(left, values.value)) else None;
    }

    method ParseValueList() returns (values: Option<seq<Expr>>)
      requires Valid()
      modifies `pos, `depth
      ensures depth == old(depth) && Did(values, ParseValues(words, old(Rest()), depth))
      decreases |Rest()|, 5
    {
      var value := ParseAdditiveExpr();
      if value.None? {
        return None;
      }
      var collected := [value.value];
      while Current() == Comma
        invariant Valid() && depth == old(depth) && |Rest()| < |old(Rest())|
        invariant ParseValues(words, old(Rest()), depth) == MoreValues(words, collected, Rest(), depth)
        decreases |Rest()|
      {
        if Peek() == RParen {
          return None;
        }
        ValuesStep(words, collected, Rest(), depth);
        Advance();
        value := ParseAdditiveExpr();
        if value.None? {
          return None;
        }
        collected := collected + [value.value];
      }
      values := Some(collected);
    }

    method ParseBetweenComparison(left: Expr) returns (e: Option<Expr>)
      requires Valid()
      modifies `pos, `depth
      ensures depth == old(depth) && Did(e, ParseBetween(words, left, old(Rest()), depth))
      decreases |Rest()|, 5
    {
      var lower := ParseAdditiveExpr();
      if lower.None? {
        return None;
      }
      var joined := ConsumeKeyword("and");
      if !joined {
        return None;
      }
      var upper := ParseAdditiveExpr();
      e := if upper.None? then None else Some(BetweenComparison(left, lower.value, upper.value));
    }

    method ParseNullComparison(left: Expr) returns (e: Option<Expr>)
      requires Valid()
      modifies `pos
      ensures Did(e, ParseNullTest(left, old(Rest())))
    {
      var negated := ConsumeKeyword("not");
      var matched := ConsumeKeyword("null");
      e := if matched then Some(NullComparison(left, negated)) else None;
    }

    // ----- Operands -----

    method ParseAdditiveExpr() returns (e: Option<Expr>)
      requires Valid()
      modifies `pos, `depth
      ensures depth == old(depth) && Did(e, ParseOperand(words, old(Rest()), depth))
      decreases |Rest()|, 4
    {
      e := ParseCastOperand();
      if e.None? {
        return;
      }
      while Sign(Current())
        invariant Valid() && depth == old(depth) && e.Some? && |Rest()| < |old(Rest())|
        invariant ParseOperand(words, old(Rest()), depth) == ParseSums(words, e.value, Rest(), depth)
        decreases |Rest()|
      {
        var op := if Current() == Op("-") then ARITH_SUB else ARITH_ADD;
        Advance();
        var right := ParseCastOperand();
        if right.None? {
          return None;
        }
        e := Some(ArithmeticExpr(op, e.value, right.value));
      }
    }

    method ParseCastOperand() returns (e: Option<Expr>)
      requires Valid()
      modifies `pos, `depth
      ensures depth == old(depth) && Did(e, ParseCasted(words, old(Rest()), depth))
      decreases |Rest()|, 3
    {
      e := ParsePrimaryExpr();
      if e.None? {
        return;
      }
      while Current() == DoubleColon
        invariant Valid() && depth == old(depth) && e.Some?
        invariant ParseCasted(words, old(Rest()), depth) == ParseCasts(words, e.value, Rest())
        decreases |Rest()|
      {
        Advance();
        var typ := ParseCastTypeName();
        if typ.None? {
          return None;
        }
        e := Some(CastExpr(e.value, typ.value));
      }
    }

    method ParseCastTypeName() returns (typ: Option<string>)
      requires Valid()
      modifies `pos
      ensures Valid() && typ == CastType(words, old(Rest())) && (typ.Some? ==> Rest() == old(Rest())[1..])
    {
      if !Current().Ident? {
        return None;
      }
      typ := words.castType(Current().text);
      Advance();
    }

    method ParsePrimaryExpr() returns (e: Option<Expr>)
      requires Valid()
      modifies `pos, `depth
      ensures depth == old(depth) && Did(e, ParsePrimary(words, old(Rest()), depth))
      decreases |Rest()|, 2
    {
      depth := depth + 1;
      if depth > MAX_DEPTH {
        e := None;
      } else if Keyword(Current(), "cast") {
        Advance();
        e := ParseCastExpr();
      } else if Keyword(Current(), "now") && Peek() == LParen {
        Advance();
        Advance();
        var closed := Consume(RParen);
        e := if closed then Some(NowExpr) else None;
      } else {
        e := ParseLeaf();
      }
      depth := depth - 1;
    }

    /** CAST ( operand AS type ), after the word CAST. */
    method ParseCastExpr() returns (e: Option<Expr>)
      requires Valid()
      modifies `pos, `depth
      ensures depth == old(depth) && Did(e, ParseCastCall(words, old(Rest()), depth))
      decreases |Rest()|, 5
    {
      var entered := Consume(LParen);
      if !entered {
        return None;
      }
      var inner := ParseAdditiveExpr();
      if inner.None? {
        return None;
      }
      var matched := ConsumeKeyword("as");
      if !matched {
        return None;
      }
      var typ := ParseCastTypeName();
      if typ.None? {
        return None;
      }
      var closed := Consume(RParen);
      e := if closed then Some(CastExpr(inner.value, typ.value)) else None;
    }

    method ParseLeaf() returns (e: Option<Expr>)
      requires Valid()
      modifies `pos
      ensures Did(e, ParseAtom(words, old(Rest())))
    {
      var token := Current();
      match token
      case Ident(text) =>
        if Keyword(token, "attr") && Peek() == LParen {
          e := ParseAttrRef();
        } else if Keyword(token, "true") {
          Advance();
          e := Some(BoolLiteral(true));
        } else if Keyword(token, "false") {
          Advance();
          e := Some(BoolLiteral(false));
        } else if Keyword(token, "null") {
          Advance();
          e := Some(NullLiteral);
        } else if Keyword(token, "timestamp") || Keyword(token, "date") || Keyword(token, "interval") {
          Advance();
          var literal := ConsumeString();
          e := if literal.None? then None else TypedLiteral(words, token, literal.value);
        } else {
          Advance();
          e := Some(FieldRef(text));
        }
      case Str(text) =>
        Advance();
        e := Some(StringLiteral(text));
      case Num(text) =>
        Advance();
        e := NumberLiteral(words, text);
      case _ => e := None;
    }

    method ParseAttrRef() returns (e: Option<Expr>)
      requires Valid() && Calls(Rest(), "attr")
      modifies `pos
      ensures Did(e, ParseAtom(words, old(Rest())))
    {
      Advance();
      Advance();
      var path := ConsumeString();
      if path.None? || !words.validPath(path.value) {
        return None;
      }
      var closed := Consume(RParen);
      e := if closed then Some(AttrRef(path.value)) else None;
    }

    // ----- Queries -----

    method ParseOrderTerm() returns (term: Option<Order>)
      requires Valid() && depth == 0
      modifies `pos, `depth
      ensures depth == 0 && Did(term, ParseTerm(words, old(Rest()), 0))
      ensures term.Some? ==> |Rest()| < |old(Rest())|
    {
      var e := ParseAdditiveExpr();
      if e.None? {
        return None;
      }
      var direction := SORT_ASC;
      var matched := ConsumeKeyword("asc");
      if !matched {
        matched := ConsumeKeyword("desc");
        direction := if matched then SORT_DESC else SORT_ASC;
      }
      term := Some(Order(e.value, direction));
    }

    method ParseOrderBy() returns (orders: Option<seq<Order>>)
      requires Valid() && depth == 0
      modifies `pos, `depth
      ensures depth == 0 && Did(orders, ParseOrders(words, old(Rest()), 0))
    {
      TermStep(words, Rest());
      var term := ParseOrderTerm();
      if term.None? {
        return None;
      }
      var collected := [term.value];
      while Current() == Comma
        invariant Valid() && depth == 0
        invariant ParseOrders(words, old(Rest()), 0) == RestOfOrders(words, collected, Rest())
        decreases |Rest()|
      {
        OrdersStep(words, collected, Rest());
        Advance();
        if Current() == Eof {
          EndIsNoTerm(words, Rest());
          return None;
        }
        term := ParseOrderTerm();
        if term.None? {
          return None;
        }
        collected := collected + [term.value];
      }
      orders := Some(collected);
    }

    method ParseCount(name: string) returns (ok: bool, count: Option<int>)
      requires Valid()
      modifies `pos
      ensures Did(if ok then Some(count) else None, ParsePage(words, name, old(Rest())))
    {
      ok, count := true, None;
      var matched := ConsumeKeyword(name);
      if matched {
        if !Current().Num? {
          return false, None;
        }
        count := Count(words, Current().text);
        ok := count.Some?;
        Advance();
      }
    }

    method ParseWhere() returns (ok: bool, condition: Option<Expr>)
      requires Valid() && depth == 0
      modifies `pos, `depth
      ensures depth == 0 && Did(if ok then Some(condition) else None, ParseFilter(words, old(Rest()), 0))
    {
      ok, condition := true, None;
      var matched := ConsumeKeyword("where");
      if matched {
        condition := ParseBoolExpr();
        ok := condition.Some?;
      }
    }

    method ParseOrderClause() returns (orders: Option<seq<Order>>)
      requires Valid() && depth == 0
      modifies `pos, `depth
      ensures depth == 0 && Did(orders, ParseOrdering(words, old(Rest()), 0))
    {
      orders := Some([]);
      var matched := ConsumeKeyword("order");
      if matched {
        matched := ConsumeKeyword("by");
        if !matched {
          return None;
        }
        orders := ParseOrderBy();
      }
    }

    /** parseQuery. */
    method ParseClauses(target: string) returns (query: Option<Query>)
      requires Valid() && depth == 0 && |Rest()| + 2 == |tokens| && At(tokens, "from") && Target(Head(tokens[1..])) == Some(target)
      requires Rest() == tokens[2..]
      modifies `pos, `depth
      ensures depth == 0 && Did(query, ParseQuery(words, tokens, 0))
    {
      var ok, condition := ParseWhere();
      if !ok {
        return None;
      }
      var orders := ParseOrderClause();
      if orders.None? {
        return None;
      }
      var limit, offset;
      ok, limit := ParseCount("limit");
      if !ok {
        return None;
      }
      ok, offset := ParseCount("offset");
      if !ok {
        return None;
      }
      query := Some(Query(VERSION, target, condition, orders.value, limit, offset));
    }

    /** Parse, after the lexer: one query and nothing after it. */
    method ParseWhole() returns (query: Option<Query>)
      requires pos == 0 && depth == 0
      modifies `pos, `depth
      ensures query == ParseTokens(words, tokens) && depth == 0
    {
      assert Rest() == tokens;
      var started := ConsumeKeyword("from");
      if !started {
        return None;
      }
      var target := Target(Current());
      if target.None? {
        return None;
      }
      Advance();
      assert tokens[1..][1..] == tokens[2..];
      query := ParseClauses(target.value);
      if query.Some? && Current() != Eof {
        query := None;
      }
    }
  }
}
