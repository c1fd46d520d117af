/** Binding: every reference is resolved against a registry, typed, and recorded as a dependency. */
module Bind {
  import opened Values
  import opened QueryAst

  datatype Registry = Registry(targets: set<string>, fields: map<(string, string), string>, attributes: map<string, string>)

  datatype Dependency = Dependency(kind: string, name: string, typ: string)

  datatype Typed = Typed(typ: string, deps: seq<Dependency>)

  const TARGET := "target"
  const FIELD := "field"
  const ATTRIBUTE := "attribute"
  const RELATION := "relation"
  const BUCKET := "bucket"

  function TypeOfAttribute(registry: Registry, path: string): string {
    if path in registry.attributes then registry.attributes[path] else TYPE_UNKNOWN
  }

  predicate Has(deps: seq<Dependency>, kind: string, name: string) {
    exists i :: 0 <= i < |deps| && deps[i].kind == kind && deps[i].name == name
  }

  /** addDependency: the first entry for a kind and name stays. */
  function Add(deps: seq<Dependency>, d: Dependency): seq<Dependency> {
    if Has(deps, d.kind, d.name) then deps else deps + [d]
  }

  predicate BothNumeric(left: string, right: string) {
    left in {TYPE_INTEGER, TYPE_FLOAT} && right in {TYPE_INTEGER, TYPE_FLOAT}
  }

  predicate SameOrNumeric(left: string, right: string) {
    left == right || BothNumeric(left, right)
  }

  predicate Compatible(op: string, left: string, right: string) {
    if left == TYPE_NULL || right == TYPE_NULL then false
    else if left == TYPE_UNKNOWN || right == TYPE_UNKNOWN then op in {"eq", "neq", "like", "ilike"}
    else if op in {"eq", "neq"} then SameOrNumeric(left, right)
    else if op in {"lt", "lte", "gt", "gte"} then BothNumeric(left, right) || (left == TYPE_TIMESTAMP && right == TYPE_TIMESTAMP)
    else op in {"like", "ilike"} && left == TYPE_STRING && right == TYPE_STRING
  }

  function ArithmeticType(op: string, left: string, right: string): Option<string> {
    if left == TYPE_TIMESTAMP && right == TYPE_INTERVAL && op in {ARITH_ADD, ARITH_SUB} then Some(TYPE_TIMESTAMP)
    else if left == TYPE_INTERVAL && right == TYPE_TIMESTAMP && op == ARITH_ADD then Some(TYPE_TIMESTAMP)
    else None
  }

  predicate CastOperand(e: Expr) {
    e.AttrRef? || e.StringLiteral? || e.TimestampLiteral?
  }

  function ExprType(registry: Registry, target: string, e: Expr, deps: seq<Dependency>): Option<Typed>
    decreases e, 1
  {
    match e
    case FieldRef(name) =>
      if (target, name) !in registry.fields then None
      else var typ := registry.fields[(target, name)]; Some(Typed(typ, Add(deps, Dependency(FIELD, name, typ))))
    case AttrRef(path) =>
      var typ := TypeOfAttribute(registry, path);
      Some(Typed(typ, Add(deps, Dependency(ATTRIBUTE, path, typ))))
    case CastExpr(operand, typ) =>
      if !CastOperand(operand) then None
      else (match BindExpr(registry, target, operand, deps) case None => None case Some(after) => Some(Typed(typ, after)))
    case StringLiteral(_) => Some(Typed(TYPE_STRING, deps))
    case IntLiteral(_) => Some(Typed(TYPE_INTEGER, deps))
    case FloatLiteral(_) => Some(Typed(TYPE_FLOAT, deps))
    case BoolLiteral(_) => Some(Typed(TYPE_BOOLEAN, deps))
    case TimestampLiteral(_) => Some(Typed(TYPE_TIMESTAMP, deps))
    case NowExpr => Some(Typed(TYPE_TIMESTAMP, deps))
    case IntervalLiteral(_) => Some(Typed(TYPE_INTERVAL, deps))
    case ArithmeticExpr(op, left, right) =>
      (match ExprType(registry, target, left, deps)
       case None => None
       case Some(l) =>
         match ExprType(registry, target, right, l.deps)
         case None => None
         case Some(r) =>
           match ArithmeticType(op, l.typ, r.typ) case None => None case Some(typ) => Some(Typed(typ, r.deps)))
    case NullLiteral => Some(Typed(TYPE_NULL, deps))
    case _ => match BindExpr(registry, target, e, deps) case None => None case Some(after) => Some(Typed(TYPE_UNKNOWN, after))
  }

  function BindExpr(registry: Registry, target: string, e: Expr, deps: seq<Dependency>): Option<seq<Dependency>>
    decreases e, 0
  {
    match e
    case BoolExpr(_, terms) => BindTerms(registry, target, terms, deps)
    case NotExpr(inner) => BindExpr(registry, target, inner, deps)
    case Comparison(op, left, right) =>
      (match ExprType(registry, target, left, deps)
       case None => None
       case Some(l) =>
         match ExprType(registry, target, right, l.deps)
         case None => None
         case Some(r) => if Compatible(op, l.typ, r.typ) then Some(r.deps) else None)
    case InComparison(left, values) =>
      (match ExprType(registry, target, left, deps)
       case None => None
       case Some(l) => BindValues(registry, target, l.typ, values, l.deps))
    case BetweenComparison(left, lower, upper) =>
      (match ExprType(registry, target, left, deps)
       case None => None
       case Some(l) =>
         match ExprType(registry, target, lower, l.deps)
         case None => None
         case Some(lo) =>
           match ExprType(registry, target, upper, lo.deps)
           case None => None
           case Some(up) =>
             if Compatible("gte", l.typ, lo.typ) && Compatible("lte", l.typ, up.typ) && SameOrNumeric(lo.typ, up.typ)
             then Some(up.deps) else None)
    case NullComparison(left, _) => BindExpr(registry, target, left, deps)
    case RelationPredicate(relationType, _) =>
      if target == TARGET_OBJECTS then Some(Add(deps, Dependency(RELATION, relationType, ""))) else None
    case BucketPredicate(name) =>
      if target == TARGET_OBJECTS then Some(Add(deps, Dependency(BUCKET, name, ""))) else None
    case FieldRef(name) =>
      if (target, name) !in registry.fields then None
      else Some(Add(deps, Dependency(FIELD, name, registry.fields[(target, name)])))
    case AttrRef(path) => Some(Add(deps, Dependency(ATTRIBUTE, path, TypeOfAttribute(registry, path))))
    case CastExpr(operand, _) => if CastOperand(operand) then BindExpr(registry, target, operand, deps) else None
    case ArithmeticExpr(_, left, right) =>
      (match BindExpr(registry, target, left, deps) case None => None case Some(after) => BindExpr(registry, target, right, after))
    case _ => Some(deps)
  }

  function BindTerms(registry: Registry, target: string, terms: seq<Expr>, deps: seq<Dependency>): Option<seq<Dependency>>
    decreases terms, 0
  {
    if terms == [] then Some(deps)
    else
      match BindExpr(registry, target, terms[0], deps)
      case None => None
      case Some(after) => BindTerms(registry, target, terms[1..], after)
  }

  function BindValues(registry: Registry, target: string, left: string, values: seq<Expr>, deps: seq<Dependency>): Option<seq<Dependency>>
    decreases values, 0
  {
    if values == [] then Some(deps)
    else
      match ExprType(registry, target, values[0], deps)
      case None => None
      case Some(v) => if Compatible("eq", left, v.typ) then BindValues(registry, target, left, values[1..], v.deps) else None
  }

  function BindOrders(registry: Registry, target: string, orders: seq<Order>, deps: seq<Dependency>): Option<seq<Dependency>> {
    if orders == [] then Some(deps)
    else
      match BindExpr(registry, target, orders[0].expr, deps)
      case None => None
      case Some(after) => BindOrders(registry, target, orders[1..], after)
  }

  /** Bind, before the dependencies are sorted. */
  function Collect(registry: Registry, query: Query): Option<seq<Dependency>> {
    if query.target !in registry.targets then None
    else
      var start := [Dependency(TARGET, query.target, "")];
      match if query.condition.None? then Some(start) else BindExpr(registry, query.target, query.condition.value, start)
      case None => None
      case Some(deps) => BindOrders(registry, query.target, query.orderBy, deps)
  }
}
