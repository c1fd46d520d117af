/** Recursive descent over a token list, as functions; `depth` is the nesting already entered, below zero to allow for more. */
module Parse {
  import opened Values
  import opened QueryAst
  import opened Grammar

  datatype Parsed<T> = Fail | Ok(value: T, rest: seq<Token>)

  function Head(ts: seq<Token>): Token {
    if ts == [] then Eof else ts[0]
  }

  predicate At(ts: seq<Token>, word: string) {
    Keyword(Head(ts), word)
  }

  predicate Calls(ts: seq<Token>, word: string) {
    At(ts, word) && |ts| > 1 && ts[1] == LParen
  }

  function ParseDisjTerms(words: Words, ts: seq<Token>, depth: int): (r: Parsed<seq<Expr>>)
    ensures r.Ok? ==> |r.rest| < |ts| && r.value != []
    decreases |ts|, 10
  {
    match ParseConj(words, ts, depth)
    case Fail => Fail
    case Ok(first, rest) =>
      if At(rest, "or") then
        match ParseDisjTerms(words, rest[1..], depth) case Fail => Fail case Ok(more, after) => Ok([first] + more, after)
      else Ok([first], rest)
  }

  function ParseDisj(words: Words, ts: seq<Token>, depth: int): (r: Parsed<Expr>)
    ensures r.Ok? ==> |r.rest| < |ts|
    decreases |ts|, 11
  {
    match ParseDisjTerms(words, ts, depth) case Fail => Fail case Ok(terms, rest) => Ok(Joined(BOOL_OR, terms), rest)
  }

  function ParseConjTerms(words: Words, ts: seq<Token>, depth: int): (r: Parsed<seq<Expr>>)
    ensures r.Ok? ==> |r.rest| < |ts| && r.value != []
    decreases |ts|, 8
  {
    match ParseTest(words, ts, depth)
    case Fail => Fail
    case Ok(first, rest) =>
      if At(rest, "and") then
        match ParseConjTerms(words, rest[1..], depth) case Fail => Fail case Ok(more, after) => Ok([first] + more, after)
      else Ok([first], rest)
  }

  function ParseConj(words: Words, ts: seq<Token>, depth: int): (r: Parsed<Expr>)
    ensures r.Ok? ==> |r.rest| < |ts|
    decreases |ts|, 9
  {
    match ParseConjTerms(words, ts, depth) case Fail => Fail case Ok(terms, rest) => Ok(Joined(BOOL_AND, terms), rest)
  }

  /** parseUnaryExpr. */
  function ParseTest(words: Words, ts: seq<Token>, depth: int): (r: Parsed<Expr>)
    ensures r.Ok? ==> |r.rest| < |ts|
    decreases |ts|, 7
  {
    if depth + 1 > MAX_DEPTH then Fail
    else if At(ts, "not") then
      match ParseTest(words, ts[1..], depth + 1) case Fail => Fail case Ok(e, rest) => Ok(NotExpr(e), rest)
    else if Calls(ts, "has_relation") then ParseRelation(words, ts[2..])
    else if Calls(ts, "bucket") then ParseBucket(words, ts[2..])
    else if Head(ts) == LParen then ParseGroup(words, ts[1..], depth + 1)
    else ParseComparison(words, ts, depth + 1)
  }

  /** After an opening parenthesis. */
  function ParseGroup(words: Words, ts: seq<Token>, depth: int): (r: Parsed<Expr>)
    ensures r.Ok? ==> |r.rest| < |ts|
    decreases |ts|, 12
  {
    match ParseDisj(words, ts, depth)
    case Fail => Fail
    case Ok(e, rest) => if Head(rest) == RParen then Ok(e, rest[1..]) else Fail
  }

  /** After has_relation and its parenthesis. */
  function ParseRelation(words: Words, ts: seq<Token>): (r: Parsed<Expr>)
    ensures r.Ok? ==> |r.rest| < |ts|
  {
    if !Head(ts).Str? || !words.validName(ts[0].text) then Fail
    else if Head(ts[1..]) == RParen then Ok(RelationPredicate(ts[0].text, RELATION_ANY), ts[2..])
    else if Head(ts[1..]) == Comma && Head(ts[2..]).Str? && ts[2].text in {RELATION_ANY, RELATION_OUT, RELATION_IN} && Head(ts[3..]) == RParen
    then Ok(RelationPredicate(ts[0].text, ts[2].text), ts[4..])
    else Fail
  }

  function ParseBucket(words: Words, ts: seq<Token>): (r: Parsed<Expr>)
    ensures r.Ok? ==> |r.rest| < |ts|
  {
    if Head(ts).Str? && words.validName(ts[0].text) && Head(ts[1..]) == RParen then Ok(BucketPredicate(ts[0].text), ts[2..]) else Fail
  }

  function ParseComparison(words: Words, ts: seq<Token>, depth: int): (r: Parsed<Expr>)
    ensures r.Ok? ==> |r.rest| < |ts|
    decreases |ts|, 6
  {
    match ParseOperand(words, ts, depth) case Fail => Fail case Ok(left, rest) => ParseTail(words, left, rest, depth)
  }

  function ParseTail(words: Words, left: Expr, ts: seq<Token>, depth: int): (r: Parsed<Expr>)
    ensures r.Ok? ==> |r.rest| < |ts|
    decreases |ts|, 5
  {
    if At(ts, "in") then ParseIn(words, left, ts[1..], depth)
    else if At(ts, "between") then ParseBetween(words, left, ts[1..], depth)
    else if At(ts, "is") then ParseNullTest(left, ts[1..])
    else ParseCompare(words, left, ts, depth)
  }

  function ParseIn(words: Words, left: Expr, ts: seq<Token>, depth: int): (r: Parsed<Expr>)
    ensures r.Ok? ==> |r.rest| < |ts|
    decreases |ts|, 4
  {
    if Head(ts) != LParen || Head(ts[1..]) == RParen then Fail
    else
      match ParseValues(words, ts[1..], depth)
      case Fail => Fail
      case Ok(values, rest) => if Head(rest) == RParen then Ok(InComparison(left, values), rest[1..]) else Fail
  }

  function ParseNullTest(left: Expr, ts: seq<Token>): (r: Parsed<Expr>)
    ensures r.Ok? ==> |r.rest| < |ts|
  {
    if At(ts, "not") then (if At(ts[1..], "null") then Ok(NullComparison(left, true), ts[2..]) else Fail)
    else if At(ts, "null") then Ok(NullComparison(left, false), ts[1..])
    else Fail
  }

  function ParseCompare(words: Words, left: Expr, ts: seq<Token>, depth: int): (r: Parsed<Expr>)
    ensures r.Ok? ==> |r.rest| < |ts|
    decreases |ts|, 4
  {
    if CompareOp(Head(ts)).None? then Fail
    else
      match ParseOperand(words, ts[1..], depth)
      case Fail => Fail
      case Ok(right, rest) => Ok(Comparison(CompareOp(Head(ts)).value, left, right), rest)
  }

  function ParseBetween(words: Words, left: Expr, ts: seq<Token>, depth: int): (r: Parsed<Expr>)
    ensures r.Ok? ==> |r.rest| < |ts|
    decreases |ts|, 4
  {
    match ParseOperand(words, ts, depth)
    case Fail => Fail
    case Ok(lower, rest) =>
      if !At(rest, "and") then Fail
      else
        match ParseOperand(words, rest[1..], depth)
        case Fail => Fail
        case Ok(upper, after) => Ok(BetweenComparison(left, lower, upper), after)
  }

  function ParseValues(words: Words, ts: seq<Token>, depth: int): (r: Parsed<seq<Expr>>)
    ensures r.Ok? ==> |r.rest| < |ts| && r.value != []
    decreases |ts|, 4
  {
    match ParseOperand(words, ts, depth)
    case Fail => Fail
    case Ok(value, rest) =>
      if Head(rest) != Comma then Ok([value], rest)
      else if Head(rest[1..]) == RParen then Fail
      else match ParseValues(words, rest[1..], depth) case Fail => Fail case Ok(more, after) => Ok([value] + more, after)
  }

  function ParseOperand(words: Words, ts: seq<Token>, depth: int): (r: Parsed<Expr>)
    ensures r.Ok? ==> |r.rest| < |ts|
    decreases |ts|, 3
  {
    match ParseCasted(words, ts, depth) case Fail => Fail case Ok(left, rest) => ParseSums(words, left, rest, depth)
  }

  function ParseSums(words: Words, left: Expr, ts: seq<Token>, depth: int): (r: Parsed<Expr>)
    ensures r.Ok? ==> |r.rest| <= |ts|
    decreases |ts|, 3
  {
    if !Sign(Head(ts)) then Ok(left, ts)
    else
      match ParseCasted(words, ts[1..], depth)
      case Fail => Fail
      case Ok(right, rest) =>
        ParseSums(words, ArithmeticExpr(if ts[0] == Op("-") then ARITH_SUB else ARITH_ADD, left, right), rest, depth)
  }

  function ParseCasted(words: Words, ts: seq<Token>, depth: int): (r: Parsed<Expr>)
    ensures r.Ok? ==> |r.rest| < |ts|
    decreases |ts|, 2
  {
    match ParsePrimary(words, ts, depth) case Fail => Fail case Ok(e, rest) => ParseCasts(words, e, rest)
  }

  function ParseCasts(words: Words, inner: Expr, ts: seq<Token>): (r: Parsed<Expr>)
    ensures r.Ok? ==> |r.rest| <= |ts|
    decreases |ts|
  {
    if Head(ts) != DoubleColon then Ok(inner, ts)
    else
      match CastType(words, ts[1..]) case None => Fail case Some(typ) => ParseCasts(words, CastExpr(inner, typ), ts[2..])
  }

  function CastType(words: Words, ts: seq<Token>): (typ: Option<string>)
    ensures typ.Some? ==> |ts| > 0
  {
    if Head(ts).Ident? then words.castType(ts[0].text) else None
  }

  function ParsePrimary(words: Words, ts: seq<Token>, depth: int): (r: Parsed<Expr>)
    ensures r.Ok? ==> |r.rest| < |ts|
    decreases |ts|, 1
  {
    if depth + 1 > MAX_DEPTH then Fail
    else if At(ts, "cast") then ParseCastCall(words, ts[1..], depth + 1)
    else if Calls(ts, "now") then (if Head(ts[2..]) == RParen then Ok(NowExpr, ts[3..]) else Fail)
    else ParseAtom(words, ts)
  }

  function ParseCastCall(words: Words, ts: seq<Token>, depth: int): (r: Parsed<Expr>)
    ensures r.Ok? ==> |r.rest| < |ts|
    decreases |ts|, 4
  {
    if Head(ts) != LParen then Fail
    else
      match ParseOperand(words, ts[1..], depth)
      case Fail => Fail
      case Ok(operand, rest) =>
        if At(rest, "as") && CastType(words, rest[1..]).Some? && Head(rest[2..]) == RParen
        then Ok(CastExpr(operand, CastType(words, rest[1..]).value), rest[3..]) else Fail
  }

  function ParseAtom(words: Words, ts: seq<Token>): (r: Parsed<Expr>)
    ensures r.Ok? ==> |r.rest| < |ts|
  {
    match Head(ts)
    case Ident(text) =>
      if Calls(ts, "attr") then
        if Head(ts[2..]).Str? && words.validPath(ts[2].text) && Head(ts[3..]) == RParen then Ok(AttrRef(ts[2].text), ts[4..]) else Fail
      else if At(ts, "true") then Ok(BoolLiteral(true), ts[1..])
      else if At(ts, "false") then Ok(BoolLiteral(false), ts[1..])
      else if At(ts, "null") then Ok(NullLiteral, ts[1..])
      else if At(ts, "timestamp") || At(ts, "date") || At(ts, "interval") then
        if !Head(ts[1..]).Str? then Fail
        else match TypedLiteral(words, ts[0], ts[1].text) case None => Fail case Some(e) => Ok(e, ts[2..])
      else Ok(FieldRef(text), ts[1..])
    case Str(text) => Ok(StringLiteral(text), ts[1..])
    case Num(text) => (match NumberLiteral(words, text) case None => Fail case Some(e) => Ok(e, ts[1..]))
    case _ => Fail
  }
}
