/**
 The grammar of PithosysQL as concrete syntax trees: `Yield` is the text of a tree, `Ast` its meaning, `Depth` its nesting.
 OR joins conjunctions, AND joins tests, NOT and parentheses nest, and BETWEEN owns the AND between its bounds.
 */
module Grammar {
  import opened Values
  import opened Characters
  import opened QueryAst

  datatype Token =
    | Ident(text: string) | Str(text: string) | Num(text: string) | Op(text: string)
    | LParen | RParen | Comma | Semicolon | DoubleColon | Eof

  /** Readers of literals and names; their details are left open. */
  datatype Words = Words(
    validPath: string -> bool,
    validName: string -> bool,
    integer: string -> Option<int>,
    float: string -> Option<real>,
    count: string -> Option<int>,
    date: string -> Option<Time>,
    timestamp: string -> Option<Time>,
    interval: string -> Option<string>,
    castType: string -> Option<string>)

  const MAX_DEPTH := 64
  const VERSION := "pithosysql.v1"

  function Lower(text: string): string {
    seq(|text|, i requires 0 <= i < |text| => LowerChar(text[i]))
  }

  /** Keywords are identifiers in any mixture of cases. */
  predicate Keyword(token: Token, word: string) {
    token.Ident? && Lower(token.text) == word
  }

  // ----- Concrete syntax -----

  datatype Disj = OneConj(conj: Conj) | OrElse(conj: Conj, word: Token, more: Disj)

  datatype Conj = OneTest(test: Test) | AndAlso(test: Test, word: Token, more: Conj)

  datatype Test =
    | Not(word: Token, test: Test)
    | Group(disj: Disj)
    | HasRelation(word: Token, relation: string)
    | HasDirectedRelation(word: Token, relation: string, direction: string)
    | InBucket(word: Token, name: string)
    | Tested(left: Operand, tail: Tail)

  datatype Tail =
    | InTail(word: Token, values: Operands)
    | BetweenTail(word: Token, lower: Operand, andWord: Token, upper: Operand)
    | NullTail(isWord: Token, nullWord: Token)
    | NotNullTail(isWord: Token, notWord: Token, nullWord: Token)
    | CompareTail(op: Token, right: Operand)

  datatype Operands = OneOperand(operand: Operand) | MoreOperands(operand: Operand, more: Operands)

  datatype Operand = Operand(head: Casted, sums: Sums)

  datatype Sums = NoSums | MoreSums(op: Token, right: Casted, more: Sums)

  datatype Casted = Casted(primary: Primary, casts: Casts)

  datatype Casts = NoCasts | MoreCasts(typ: string, more: Casts)

  datatype Primary =
    | CastCall(word: Token, operand: Operand, asWord: Token, typ: string)
    | NowCall(word: Token)
    | AttrCall(word: Token, path: string)
    | Word(word: Token)                    // TRUE, FALSE, NULL
    | Typed(word: Token, text: string)     // TIMESTAMP, DATE, INTERVAL with a string
    | Field(word: Token)
    | StringOf(text: string)
    | NumberOf(text: string)

  // ----- Text -----

  function YieldDisj(c: Disj): seq<Token> {
    match c
    case OneConj(conj) => YieldConj(conj)
    case OrElse(conj, word, more) => YieldConj(conj) + ([word] + YieldDisj(more))
  }

  function YieldConj(c: Conj): seq<Token> {
    match c
    case OneTest(test) => YieldTest(test)
    case AndAlso(test, word, more) => YieldTest(test) + ([word] + YieldConj(more))
  }

  function YieldTest(c: Test): seq<Token> {
    match c
    case Not(word, test) => [word] + YieldTest(test)
    case Group(disj) => [LParen] + (YieldDisj(disj) + [RParen])
    case HasRelation(word, relation) => [word, LParen, Str(relation), RParen]
    case HasDirectedRelation(word, relation, direction) => [word, LParen, Str(relation), Comma, Str(direction), RParen]
    case InBucket(word, name) => [word, LParen, Str(name), RParen]
    case Tested(left, tail) => YieldOperand(left) + YieldTail(tail)
  }

  function YieldTail(c: Tail): seq<Token> {
    match c
    case InTail(word, values) => [word, LParen] + (YieldOperands(values) + [RParen])
    case BetweenTail(word, lower, andWord, upper) => [word] + (YieldOperand(lower) + ([andWord] + YieldOperand(upper)))
    case NullTail(isWord, nullWord) => [isWord, nullWord]
    case NotNullTail(isWord, notWord, nullWord) => [isWord, notWord, nullWord]
    case CompareTail(op, right) => [op] + YieldOperand(right)
  }

  function YieldOperands(c: Operands): seq<Token> {
    match c
    case OneOperand(operand) => YieldOperand(operand)
    case MoreOperands(operand, more) => YieldOperand(operand) + ([Comma] + YieldOperands(more))
  }

  function YieldOperand(c: Operand): seq<Token> {
    YieldCasted(c.head) + YieldSums(c.sums)
  }

  function YieldSums(c: Sums): seq<Token> {
    match c
    case NoSums => []
    case MoreSums(op, right, more) => [op] + (YieldCasted(right) + YieldSums(more))
  }

  function YieldCasted(c: Casted): seq<Token> {
    YieldPrimary(c.primary) + YieldCasts(c.casts)
  }

  function YieldCasts(c: Casts): seq<Token> {
    match c
    case NoCasts => []
    case MoreCasts(typ, more) => [DoubleColon, Ident(typ)] + YieldCasts(more)
  }

  function YieldPrimary(c: Primary): seq<Token> {
    match c
    case CastCall(word, operand, asWord, typ) => [word, LParen] + (YieldOperand(operand) + [asWord, Ident(typ), RParen])
    case NowCall(word) => [word, LParen, RParen]
    case AttrCall(word, path) => [word, LParen, Str(path), RParen]
    case Word(word) => [word]
    case Typed(word, text) => [word, Str(text)]
    case Field(word) => [word]
    case StringOf(text) => [Str(text)]
    case NumberOf(text) => [Num(text)]
  }

  // ----- Which trees are in the language -----

  predicate Reserved(word: Token) {
    Keyword(word, "cast") || Keyword(word, "true") || Keyword(word, "false") || Keyword(word, "null") ||
    Keyword(word, "timestamp") || Keyword(word, "date") || Keyword(word, "interval")
  }

  function CompareOp(token: Token): Option<string> {
    match token
    case Op(text) => Symbol(text)
    case Str(text) => Symbol(text)
    case Ident(_) => if Keyword(token, "like") then Some("like") else if Keyword(token, "ilike") then Some("ilike") else None
    case _ => None
  }

  /** The operator is recognised by its text alone, so a string token may stand for it. */
  function Symbol(text: string): Option<string> {
    if text == "=" then Some("eq")
    else if text == "!=" || text == "<>" then Some("neq")
    else if text == "<" then Some("lt")
    else if text == "<=" then Some("lte")
    else if text == ">" then Some("gt")
    else if text == ">=" then Some("gte")
    else None
  }

  predicate Sign(token: Token) {
    token == Op("+") || token == Op("-")
  }

  predicate LegalDisj(words: Words, c: Disj) {
    match c
    case OneConj(conj) => LegalConj(words, conj)
    case OrElse(conj, word, more) => LegalConj(words, conj) && Keyword(word, "or") && LegalDisj(words, more)
  }

  predicate LegalConj(words: Words, c: Conj) {
    match c
    case OneTest(test) => LegalTest(words, test)
    case AndAlso(test, word, more) => LegalTest(words, test) && Keyword(word, "and") && LegalConj(words, more)
  }

  predicate LegalTest(words: Words, c: Test) {
    match c
    case Not(word, test) => Keyword(word, "not") && LegalTest(words, test)
    case Group(disj) => LegalDisj(words, disj)
    case HasRelation(word, relation) => Keyword(word, "has_relation") && words.validName(relation)
    case HasDirectedRelation(word, relation, direction) =>
      Keyword(word, "has_relation") && words.validName(relation) && direction in {RELATION_ANY, RELATION_OUT, RELATION_IN}
    case InBucket(word, name) => Keyword(word, "bucket") && words.validName(name)
    case Tested(left, tail) =>
      LegalOperand(words, left) && LegalTail(words, tail) && !(left.head.primary.Field? && Keyword(left.head.primary.word, "not"))
  }

  predicate LegalTail(words: Words, c: Tail) {
    match c
    case InTail(word, values) => Keyword(word, "in") && LegalOperands(words, values)
    case BetweenTail(word, lower, andWord, upper) =>
      Keyword(word, "between") && LegalOperand(words, lower) && Keyword(andWord, "and") && LegalOperand(words, upper)
    case NullTail(isWord, nullWord) => Keyword(isWord, "is") && Keyword(nullWord, "null")
    case NotNullTail(isWord, notWord, nullWord) => Keyword(isWord, "is") && Keyword(notWord, "not") && Keyword(nullWord, "null")
    case CompareTail(op, right) => CompareOp(op).Some? && LegalOperand(words, right)
  }

  predicate LegalOperands(words: Words, c: Operands) {
    match c
    case OneOperand(operand) => LegalOperand(words, operand)
    case MoreOperands(operand, more) => LegalOperand(words, operand) && LegalOperands(words, more)
  }

  predicate LegalOperand(words: Words, c: Operand) {
    LegalCasted(words, c.head) && LegalSums(words, c.sums)
  }

  predicate LegalSums(words: Words, c: Sums) {
    match c
    case NoSums => true
    case MoreSums(op, right, more) => Sign(op) && LegalCasted(words, right) && LegalSums(words, more)
  }

  predicate LegalCasted(words: Words, c: Casted) {
    LegalPrimary(words, c.primary) && LegalCasts(words, c.casts)
  }

  predicate LegalCasts(words: Words, c: Casts) {
    match c
    case NoCasts => true
    case MoreCasts(typ, more) => words.castType(typ).Some? && LegalCasts(words, more)
  }

  predicate LegalPrimary(words: Words, c: Primary) {
    match c
    case CastCall(word, operand, asWord, typ) =>
      Keyword(word, "cast") && LegalOperand(words, operand) && Keyword(asWord, "as") && words.castType(typ).Some?
    case NowCall(word) => Keyword(word, "now")
    case AttrCall(word, path) => Keyword(word, "attr") && words.validPath(path)
    case Word(word) => Keyword(word, "true") || Keyword(word, "false") || Keyword(word, "null")
    case Typed(word, text) => TypedLiteral(words, word, text).Some?
    case Field(word) => word.Ident? && !Reserved(word)
    case StringOf(_) => true
    case NumberOf(text) => NumberLiteral(words, text).Some?
  }

  // ----- Meaning -----

  function TypedLiteral(words: Words, word: Token, text: string): Option<Expr> {
    if Keyword(word, "timestamp") then
      (match words.timestamp(text) case Some(time) => Some(TimestampLiteral(time)) case None => None)
    else if Keyword(word, "date") then
      (match words.date(text) case Some(time) => Some(TimestampLiteral(Utc(time))) case None => None)
    else if Keyword(word, "interval") then
      (match words.interval(text) case Some(value) => Some(IntervalLiteral(value)) case None => None)
    else None
  }

  function NumberLiteral(words: Words, text: string): Option<Expr> {
    if '.' in text then (match words.float(text) case Some(x) => Some(FloatLiteral(x)) case None => None)
    else (match words.integer(text) case Some(n) => Some(IntLiteral(n)) case None => None)
  }

  function Joined(op: string, terms: seq<Expr>): Expr {
    if |terms| == 1 then terms[0] else BoolExpr(op, terms)
  }

  function DisjTerms(words: Words, c: Disj): (terms: seq<Expr>)
    requires LegalDisj(words, c)
    ensures |terms| > 0
    decreases c, 0
  {
    match c
    case OneConj(conj) => [AstConj(words, conj)]
    case OrElse(conj, _, more) => [AstConj(words, conj)] + DisjTerms(words, more)
  }

  function AstDisj(words: Words, c: Disj): Expr
    requires LegalDisj(words, c)
    decreases c, 1
  {
    Joined(BOOL_OR, DisjTerms(words, c))
  }

  function ConjTerms(words: Words, c: Conj): (terms: seq<Expr>)
    requires LegalConj(words, c)
    ensures |terms| > 0
    decreases c, 0
  {
    match c
    case OneTest(test) => [AstTest(words, test)]
    case AndAlso(test, _, more) => [AstTest(words, test)] + ConjTerms(words, more)
  }

  function AstConj(words: Words, c: Conj): Expr
    requires LegalConj(words, c)
    decreases c, 1
  {
    Joined(BOOL_AND, ConjTerms(words, c))
  }

  function AstTest(words: Words, c: Test): Expr
    requires LegalTest(words, c)
    decreases c
  {
    match c
    case Not(_, test) => NotExpr(AstTest(words, test))
    case Group(disj) => AstDisj(words, disj)
    case HasRelation(_, relation) => RelationPredicate(relation, RELATION_ANY)
    case HasDirectedRelation(_, relation, direction) => RelationPredicate(relation, direction)
    case InBucket(_, name) => BucketPredicate(name)
    case Tested(left, tail) => AstTail(words, AstOperand(words, left), tail)
  }

  function AstTail(words: Words, left: Expr, c: Tail): Expr
    requires LegalTail(words, c)
    decreases c
  {
    match c
    case InTail(_, values) => InComparison(left, AstOperands(words, values))
    case BetweenTail(_, lower, _, upper) => BetweenComparison(left, AstOperand(words, lower), AstOperand(words, upper))
    case NullTail(_, _) => NullComparison(left, false)
    case NotNullTail(_, _, _) => NullComparison(left, true)
    case CompareTail(op, right) => Comparison(CompareOp(op).value, left, AstOperand(words, right))
  }

  function AstOperands(words: Words, c: Operands): seq<Expr>
    requires LegalOperands(words, c)
    decreases c
  {
    match c
    case OneOperand(operand) => [AstOperand(words, operand)]
    case MoreOperands(operand, more) => [AstOperand(words, operand)] + AstOperands(words, more)
  }

  /** + and - associate to the left. */
  function AstOperand(words: Words, c: Operand): Expr
    requires LegalOperand(words, c)
    decreases c
  {
    AstSums(words, AstCasted(words, c.head), c.sums)
  }

  function AstSums(words: Words, left: Expr, c: Sums): Expr
    requires LegalSums(words, c)
    decreases c
  {
    match c
    case NoSums => left
    case MoreSums(op, right, more) =>
      AstSums(words, ArithmeticExpr(if op == Op("-") then ARITH_SUB else ARITH_ADD, left, AstCasted(words, right)), more)
  }

  function AstCasted(words: Words, c: Casted): Expr
    requires LegalCasted(words, c)
    decreases c
  {
    AstCasts(words, AstPrimary(words, c.primary), c.casts)
  }

  function AstCasts(words: Words, inner: Expr, c: Casts): Expr
    requires LegalCasts(words, c)
    decreases c
  {
    match c
    case NoCasts => inner
    case MoreCasts(typ, more) => AstCasts(words, CastExpr(inner, words.castType(typ).value), more)
  }

  function AstPrimary(words: Words, c: Primary): Expr
    requires LegalPrimary(words, c)
    decreases c
  {
    match c
    case CastCall(_, operand, _, typ) => CastExpr(AstOperand(words, operand), words.castType(typ).value)
    case NowCall(_) => NowExpr
    case AttrCall(_, path) => AttrRef(path)
    case Word(word) => if Keyword(word, "null") then NullLiteral else BoolLiteral(Keyword(word, "true"))
    case Typed(word, text) => TypedLiteral(words, word, text).value
    case Field(word) => FieldRef(word.text)
    case StringOf(text) => StringLiteral(text)
    case NumberOf(text) => NumberLiteral(words, text).value
  }

  // ----- Nesting -----

  function DepthDisj(c: Disj): nat {
    match c
    case OneConj(conj) => DepthConj(conj)
    case OrElse(conj, _, more) => Max(DepthConj(conj), DepthDisj(more))
  }

  function DepthConj(c: Conj): nat {
    match c
    case OneTest(test) => DepthTest(test)
    case AndAlso(test, _, more) => Max(DepthTest(test), DepthConj(more))
  }

  function DepthTest(c: Test): nat {
    match c
    case Not(_, test) => 1 + DepthTest(test)
    case Group(disj) => 1 + DepthDisj(disj)
    case Tested(left, tail) => 1 + Max(DepthOperand(left), DepthTail(tail))
    case _ => 1
  }

  function DepthTail(c: Tail): nat {
    match c
    case InTail(_, values) => DepthOperands(values)
    case BetweenTail(_, lower, _, upper) => Max(DepthOperand(lower), DepthOperand(upper))
    case CompareTail(_, right) => DepthOperand(right)
    case _ => 0
  }

  function DepthOperands(c: Operands): nat {
    match c
    case OneOperand(operand) => DepthOperand(operand)
    case MoreOperands(operand, more) => Max(DepthOperand(operand), DepthOperands(more))
  }

  function DepthOperand(c: Operand): nat {
    Max(DepthPrimary(c.head.primary), DepthSums(c.sums))
  }

  function DepthSums(c: Sums): nat {
    match c
    case NoSums => 0
    case MoreSums(_, right, more) => Max(DepthPrimary(right.primary), DepthSums(more))
  }

  function DepthPrimary(c: Primary): nat {
    1 + if c.CastCall? then DepthOperand(c.operand) else 0
  }
}
