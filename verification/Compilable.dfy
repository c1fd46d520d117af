/** Which conditions compile, told without compiling them. */
module Compilable {
  import opened Values
  import opened QueryAst
  import opened SqlText
  import opened AttributePath
  import opened Compile
  import opened SearchStatement

  const STORED_TYPES := {"string", "unknown", "integer", "float", "boolean", "timestamp"}

  const OBJECT_FIELDS := {"id", "bucket_id", "key", "created_at", "updated_at"}

  const OPERATORS := {"eq", "neq", "lt", "lte", "gt", "gte", "like", "ilike"}

  predicate AttributeCompiles(path: string, typ: string) {
    JsonPath(path).Some? && typ in STORED_TYPES
  }

  /** What may stand on the left of IN, BETWEEN and IS NULL, and what may be sorted by. */
  predicate ValueCompiles(names: Names, e: Expr) {
    match e
    case FieldRef(name) => name in OBJECT_FIELDS
    case AttrRef(path) => AttributeCompiles(path, if path in names.attrTypes then names.attrTypes[path] else "unknown")
    case CastExpr(AttrRef(path), typ) => AttributeCompiles(path, typ)
    case CastExpr(StringLiteral(text), typ) => typ == "timestamp" && names.parseTime(text).Some?
    case _ => false
  }

  predicate ScalarCompiles(names: Names, e: Expr) {
    match e
    case StringLiteral(_) => true
    case IntLiteral(_) => true
    case FloatLiteral(_) => true
    case BoolLiteral(_) => true
    case TimestampLiteral(_) => true
    case NowExpr => true
    case IntervalLiteral(interval) => names.parseInterval(interval).Some?
    case ArithmeticExpr(_, left, right) => ScalarCompiles(names, left) && ScalarCompiles(names, right)
    case _ => ValueCompiles(names, e)
  }

  predicate Compiles(names: Names, e: Expr) {
    match e
    case BoolExpr(_, terms) => terms != [] && forall i :: 0 <= i < |terms| ==> Compiles(names, terms[i])
    case NotExpr(inner) => Compiles(names, inner)
    case Comparison(op, left, right) => op in OPERATORS && ScalarCompiles(names, left) && ScalarCompiles(names, right)
    case InComparison(left, values) =>
      ValueCompiles(names, left) && values != [] && forall i :: 0 <= i < |values| ==> ScalarCompiles(names, values[i])
    case BetweenComparison(left, lower, upper) =>
      ValueCompiles(names, left) && ScalarCompiles(names, lower) && ScalarCompiles(names, upper)
    case NullComparison(left, _) => ValueCompiles(names, left)
    case RelationPredicate(_, direction) => direction in {"any", "out", "in"}
    case BucketPredicate(_) => true
    case _ => false
  }

  lemma ValueCompilesIff(names: Names, e: Expr, args: seq<Arg>)
    ensures ValueSql(names, e, args).Some? <==> ValueCompiles(names, e)
  {
  }

  lemma {:induction false} ScalarCompilesIff(names: Names, e: Expr, args: seq<Arg>)
    ensures ScalarSql(names, e, args).Some? <==> ScalarCompiles(names, e)
    decreases e
  {
    match e
    case ArithmeticExpr(_, left, right) =>
      ScalarCompilesIff(names, left, args);
      if ScalarSql(names, left, args).Some? {
        ScalarCompilesIff(names, right, ScalarSql(names, left, args).value.args);
      }
    case _ => ValueCompilesIff(names, e, args);
  }

  lemma {:induction false} ScalarsCompileIff(names: Names, es: seq<Expr>, args: seq<Arg>)
    ensures ScalarsSql(names, es, args).Some? <==> es != [] && forall i :: 0 <= i < |es| ==> ScalarCompiles(names, es[i])
    decreases |es|
  {
    if es != [] {
      ScalarCompilesIff(names, es[0], args);
      if |es| > 1 && ScalarSql(names, es[0], args).Some? {
        ScalarsCompileIff(names, es[1..], ScalarSql(names, es[0], args).value.args);
        assert forall i :: 1 <= i < |es| ==> es[i] == es[1..][i - 1];
      }
    }
  }

  lemma PredicateCompilesIff(names: Names, e: Expr, args: seq<Arg>)
    requires !e.BoolExpr? && !e.NotExpr?
    ensures PredicateSql(names, e, args).Some? <==> Compiles(names, e)
  {
    match e
    case Comparison(op, left, right) =>
      ScalarCompilesIff(names, left, args);
      if ScalarSql(names, left, args).Some? {
        ScalarCompilesIff(names, right, ScalarSql(names, left, args).value.args);
      }
    case InComparison(left, values) =>
      ValueCompilesIff(names, left, args);
      if ValueSql(names, left, args).Some? {
        ScalarsCompileIff(names, values, ValueSql(names, left, args).value.args);
      }
    case BetweenComparison(left, lower, upper) =>
      ValueCompilesIff(names, left, args);
      if ValueSql(names, left, args).Some? {
        var l := ValueSql(names, left, args).value;
        ScalarCompilesIff(names, lower, l.args);
        if ScalarSql(names, lower, l.args).Some? {
          ScalarCompilesIff(names, upper, ScalarSql(names, lower, l.args).value.args);
        }
      }
    case NullComparison(left, _) => ValueCompilesIff(names, left, args);
    case _ =>
  }

  /** A condition compiles exactly when it consists of these parts, wherever it stands. */
  lemma {:induction false} CompilesIff(names: Names, e: Expr, nested: bool, args: seq<Arg>)
    ensures ExprSql(names, e, nested, args).Some? <==> Compiles(names, e)
    decreases e, 0
  {
    match e
    case BoolExpr(op, terms) => TermsCompileIff(names, op, terms, args);
    case NotExpr(inner) => CompilesIff(names, inner, true, args);
    case _ => PredicateCompilesIff(names, e, args);
  }

  lemma {:induction false} TermsCompileIff(names: Names, op: string, terms: seq<Expr>, args: seq<Arg>)
    ensures TermsSql(names, op, terms, args).Some? <==> terms != [] && forall i :: 0 <= i < |terms| ==> Compiles(names, terms[i])
    decreases terms, 0
  {
    if terms != [] {
      CompilesIff(names, terms[0], true, args);
      if |terms| > 1 && ExprSql(names, terms[0], true, args).Some? {
        TermsCompileIff(names, op, terms[1..], ExprSql(names, terms[0], true, args).value.args);
        assert forall i :: 1 <= i < |terms| ==> terms[i] == terms[1..][i - 1];
      }
    }
  }

  lemma {:induction false} OrdersCompileIff(names: Names, orders: seq<Order>, code: Code)
    ensures OrdersSql(names, orders, code).Some? <==> forall i :: 0 <= i < |orders| ==> ValueCompiles(names, orders[i].expr)
    decreases |orders|
  {
    if orders != [] {
      ValueCompilesIff(names, orders[0].expr, code.args);
      match OrderTermSql(names, orders[0], code.args)
      case None =>
      case Some(term) =>
        OrdersCompileIff(names, orders[1..], Code((if code.text == [] then [] else code.text + [Comma]) + term.text, term.args));
        assert forall i :: 1 <= i < |orders| ==> orders[i] == orders[1..][i - 1];
    }
  }

  /** A query compiles exactly when it searches objects, and its condition and sort keys compile. */
  lemma QueryCompilesIff(names: Names, scope: string, query: Query)
    ensures StatementSql(names, scope, query).Some? <==>
              && query.target == "objects" && (query.condition.Some? ==> Compiles(names, query.condition.value))
              && forall i :: 0 <= i < |query.orderBy| ==> ValueCompiles(names, query.orderBy[i].expr)
  {
    if query.condition.Some? {
      CompilesIff(names, query.condition.value, false, ScopeSql(scope).args);
    }
    match WhereSql(names, scope, query.condition)
    case None =>
    case Some(condition) => OrdersCompileIff(names, query.orderBy, Code([], condition.args));
  }
}
