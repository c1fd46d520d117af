/** The PithosysQL abstract syntax, shared by the parser, the binder, the JSON codec and the compiler. */
module QueryAst {
  import opened Values

  // Operators, targets, directions and types are named strings, as in the stored form of a query.
  const BOOL_AND := "and"
  const BOOL_OR := "or"
  const ARITH_ADD := "add"
  const ARITH_SUB := "sub"
  const TARGET_OBJECTS := "objects"
  const TARGET_RELATIONS := "relations"
  const RELATION_ANY := "any"
  const RELATION_OUT := "out"
  const RELATION_IN := "in"
  const SORT_ASC := "asc"
  const SORT_DESC := "desc"
  const TYPE_UNKNOWN := "unknown"
  const TYPE_NULL := "null"
  const TYPE_STRING := "string"
  const TYPE_INTEGER := "integer"
  const TYPE_FLOAT := "float"
  const TYPE_BOOLEAN := "boolean"
  const TYPE_TIMESTAMP := "timestamp"
  const TYPE_INTERVAL := "interval"

  /** An instant with the offset it was written in; two offsets may denote the same instant. */
  datatype Time = Time(instant: int, offset: int)

  function Utc(time: Time): Time {
    time.(offset := 0)
  }

  datatype Expr =
    | BoolExpr(op: string, terms: seq<Expr>)
    | NotExpr(expr: Expr)
    | Comparison(op: string, left: Expr, right: Expr)
    | InComparison(left: Expr, values: seq<Expr>)
    | BetweenComparison(left: Expr, lower: Expr, upper: Expr)
    | NullComparison(left: Expr, negated: bool)
    | RelationPredicate(relationType: string, direction: string)
    | BucketPredicate(name: string)
    | FieldRef(name: string)
    | AttrRef(path: string)
    | CastExpr(expr: Expr, typ: string)
    | StringLiteral(text: string)
    | IntLiteral(number: int)
    | FloatLiteral(decimal: real)
    | BoolLiteral(flag: bool)
    | TimestampLiteral(time: Time)
    | NullLiteral
    | NowExpr
    | IntervalLiteral(interval: string)
    | ArithmeticExpr(op: string, left: Expr, right: Expr)

  datatype Order = Order(expr: Expr, direction: string)

  datatype Query = Query(
    version: string,
    target: string,
    condition: Option<Expr>,
    orderBy: seq<Order>,
    limit: Option<int>,
    offset: Option<int>)
}
