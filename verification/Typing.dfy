/** Which expressions bind, and at which types, told without the dependencies the binder collects. */
module Typing {
  import opened Values
  import opened QueryAst
  import opened Bind

  const NUMBERS := {"integer", "float"}

  /** Operator by operator, the operand types it accepts. */
  predicate Applies(op: string, left: string, right: string) {
    && left != "null" && right != "null"
    && match op
       case "eq" => Alike(left, right)
       case "neq" => Alike(left, right)
       case "lt" => Ordered(left, right)
       case "lte" => Ordered(left, right)
       case "gt" => Ordered(left, right)
       case "gte" => Ordered(left, right)
       case "like" => Texts(left, right)
       case "ilike" => Texts(left, right)
       case _ => false
  }

  predicate Alike(left: string, right: string) {
    left == "unknown" || right == "unknown" || left == right || {left, right} <= NUMBERS
  }

  predicate Ordered(left: string, right: string) {
    {left, right} <= NUMBERS || {left, right} == {"timestamp"}
  }

  predicate Texts(left: string, right: string) {
    left == "unknown" || right == "unknown" || {left, right} == {"string"}
  }

  /** An operator binds two operand types exactly as the table says. */
  lemma CompatibleIff(op: string, left: string, right: string)
    ensures Compatible(op, left, right) <==> Applies(op, left, right)
  {
    assert {left, right} <= NUMBERS <==> left in NUMBERS && right in NUMBERS by {
      assert left in {left, right} && right in {left, right};
    }
    assert {left, right} == {"timestamp"} <==> left == right == "timestamp" by {
      assert left in {left, right} && right in {left, right};
    }
    assert {left, right} == {"string"} <==> left == right == "string" by {
      assert left in {left, right} && right in {left, right};
    }
  }

  /** The type of a value; None when it does not bind. */
  function ValueType(registry: Registry, target: string, e: Expr): Option<string>
    decreases e, 1
  {
    match e
    case FieldRef(name) => Lookup(registry.fields, (target, name))
    case AttrRef(path) => Some(if path in registry.attributes then registry.attributes[path] else "unknown")
    case CastExpr(operand, typ) => if operand.AttrRef? || operand.StringLiteral? || operand.TimestampLiteral? then Some(typ) else None
    case StringLiteral(_) => Some("string")
    case IntLiteral(_) => Some("integer")
    case FloatLiteral(_) => Some("float")
    case BoolLiteral(_) => Some("boolean")
    case TimestampLiteral(_) => Some("timestamp")
    case NowExpr => Some("timestamp")
    case IntervalLiteral(_) => Some("interval")
    case NullLiteral => Some("null")
    case ArithmeticExpr(op, left, right) =>
      (match (ValueType(registry, target, left), ValueType(registry, target, right))
       case (Some(l), Some(r)) => if (op, l, r) in MOVES then Some("timestamp") else None
       case _ => None)
    case _ => if Binds(registry, target, e) then Some("unknown") else None
  }

  /** An instant is moved by an interval, either way; an interval is moved by an instant only by adding. */
  const MOVES := {("add", "timestamp", "interval"), ("sub", "timestamp", "interval"), ("add", "interval", "timestamp")}

  predicate Binds(registry: Registry, target: string, e: Expr)
    decreases e, 0
  {
    match e
    case BoolExpr(_, terms) => forall i :: 0 <= i < |terms| ==> Binds(registry, target, terms[i])
    case NotExpr(inner) => Binds(registry, target, inner)
    case Comparison(op, left, right) =>
      (match (ValueType(registry, target, left), ValueType(registry, target, right))
       case (Some(l), Some(r)) => Applies(op, l, r)
       case _ => false)
    case InComparison(left, values) =>
      && ValueType(registry, target, left).Some?
      && forall i :: 0 <= i < |values| ==>
           var v := ValueType(registry, target, values[i]); v.Some? && Applies("eq", ValueType(registry, target, left).value, v.value)
    case BetweenComparison(left, lower, upper) =>
      (match (ValueType(registry, target, left), ValueType(registry, target, lower), ValueType(registry, target, upper))
       case (Some(l), Some(lo), Some(up)) => Applies("gte", l, lo) && Applies("lte", l, up) && (lo == up || {lo, up} <= NUMBERS)
       case _ => false)
    case NullComparison(left, _) => Binds(registry, target, left)
    case RelationPredicate(_, _) => target == "objects"
    case BucketPredicate(_) => target == "objects"
    case FieldRef(name) => (target, name) in registry.fields
    case CastExpr(operand, _) => operand.AttrRef? || operand.StringLiteral? || operand.TimestampLiteral?
    case ArithmeticExpr(_, left, right) => Binds(registry, target, left) && Binds(registry, target, right)
    case _ => true
  }

  function TypeOf(typed: Option<Typed>): Option<string> {
    match typed case None => None case Some(t) => Some(t.typ)
  }

  /** A value binds, with this type, whatever was collected before. */
  lemma {:induction false} TypedAs(registry: Registry, target: string, e: Expr, deps: seq<Dependency>)
    ensures TypeOf(ExprType(registry, target, e, deps)) == ValueType(registry, target, e)
    decreases e, 2
  {
    match e
    case CastExpr(operand, _) => if CastOperand(operand) { BindsIff(registry, target, operand, deps); }
    case ArithmeticExpr(op, left, right) =>
      TypedAs(registry, target, left, deps);
      if ExprType(registry, target, left, deps).Some? {
        TypedAs(registry, target, right, ExprType(registry, target, left, deps).value.deps);
      }
    case BoolExpr(_, _) => BindsIff(registry, target, e, deps);
    case NotExpr(_) => BindsIff(registry, target, e, deps);
    case Comparison(_, _, _) => BindsIff(registry, target, e, deps);
    case InComparison(_, _) => BindsIff(registry, target, e, deps);
    case BetweenComparison(_, _, _) => BindsIff(registry, target, e, deps);
    case NullComparison(_, _) => BindsIff(registry, target, e, deps);
    case RelationPredicate(_, _) => BindsIff(registry, target, e, deps);
    case BucketPredicate(_) => BindsIff(registry, target, e, deps);
    case _ =>
  }

  /** A condition binds exactly when its parts have the types its operators accept. */
  lemma {:induction false} BindsIff(registry: Registry, target: string, e: Expr, deps: seq<Dependency>)
    ensures BindExpr(registry, target, e, deps).Some? <==> Binds(registry, target, e)
    decreases e, 1
  {
    match e
    case BoolExpr(_, terms) => TermsBindIff(registry, target, terms, deps);
    case NotExpr(inner) => BindsIff(registry, target, inner, deps);
    case Comparison(_, _, _) => ComparisonBindsIff(registry, target, e, deps);
    case InComparison(left, values) =>
      TypedAs(registry, target, left, deps);
      match ExprType(registry, target, left, deps) {
        case None =>
        case Some(l) => ValuesBindIff(registry, target, l.typ, values, l.deps);
      }
    case BetweenComparison(_, _, _) => BetweenBindsIff(registry, target, e, deps);
    case NullComparison(left, _) => BindsIff(registry, target, left, deps);
    case CastExpr(operand, _) => if CastOperand(operand) { BindsIff(registry, target, operand, deps); }
    case ArithmeticExpr(_, left, right) =>
      BindsIff(registry, target, left, deps);
      match BindExpr(registry, target, left, deps) {
        case None =>
        case Some(after) => BindsIff(registry, target, right, after);
      }
    case _ =>
  }

  lemma {:induction false} ComparisonBindsIff(registry: Registry, target: string, e: Expr, deps: seq<Dependency>)
    requires e.Comparison?
    ensures BindExpr(registry, target, e, deps).Some? <==> Binds(registry, target, e)
    decreases e, 0
  {
    var op, left, right := e.op, e.left, e.right;
    TypedAs(registry, target, left, deps);
    match ExprType(registry, target, left, deps)
    case None =>
    case Some(l) =>
      TypedAs(registry, target, right, l.deps);
      match ExprType(registry, target, right, l.deps) {
        case None =>
        case Some(r) => CompatibleIff(op, l.typ, r.typ);
      }
  }

  lemma {:induction false} BetweenBindsIff(registry: Registry, target: string, e: Expr, deps: seq<Dependency>)
    requires e.BetweenComparison?
    ensures BindExpr(registry, target, e, deps).Some? <==> Binds(registry, target, e)
    decreases e, 0
  {
    var left, lower, upper := e.left, e.lower, e.upper;
    TypedAs(registry, target, left, deps);
    match ExprType(registry, target, left, deps)
    case None =>
    case Some(l) =>
      TypedAs(registry, target, lower, l.deps);
      match ExprType(registry, target, lower, l.deps) {
        case None =>
        case Some(lo) =>
          TypedAs(registry, target, upper, lo.deps);
          match ExprType(registry, target, upper, lo.deps) {
            case None =>
            case Some(up) =>
              CompatibleIff("gte", l.typ, lo.typ);
              CompatibleIff("lte", l.typ, up.typ);
              assert {lo.typ, up.typ} <= NUMBERS <==> lo.typ in NUMBERS && up.typ in NUMBERS by {
                assert lo.typ in {lo.typ, up.typ} && up.typ in {lo.typ, up.typ};
              }
          }
      }
  }

  lemma {:induction false} TermsBindIff(registry: Registry, target: string, terms: seq<Expr>, deps: seq<Dependency>)
    ensures BindTerms(registry, target, terms, deps).Some? <==> forall i :: 0 <= i < |terms| ==> Binds(registry, target, terms[i])
    decreases terms, 0
  {
    if terms != [] {
      BindsIff(registry, target, terms[0], deps);
      match BindExpr(registry, target, terms[0], deps)
      case None =>
      case Some(after) =>
        TermsBindIff(registry, target, terms[1..], after);
        assert forall i :: 1 <= i < |terms| ==> terms[i] == terms[1..][i - 1];
    }
  }

  lemma {:induction false} ValuesBindIff(registry: Registry, target: string, left: string, values: seq<Expr>, deps: seq<Dependency>)
    ensures BindValues(registry, target, left, values, deps).Some? <==>
            forall i :: 0 <= i < |values| ==>
              var v := ValueType(registry, target, values[i]); v.Some? && Applies("eq", left, v.value)
    decreases values, 0
  {
    if values != [] {
      TypedAs(registry, target, values[0], deps);
      match ExprType(registry, target, values[0], deps)
      case None =>
      case Some(v) =>
        CompatibleIff("eq", left, v.typ);
        ValuesBindIff(registry, target, left, values[1..], v.deps);
        assert forall i :: 1 <= i < |values| ==> values[i] == values[1..][i - 1];
    }
  }

  lemma {:induction false} OrdersBindIff(registry: Registry, target: string, orders: seq<Order>, deps: seq<Dependency>)
    ensures BindOrders(registry, target, orders, deps).Some? <==> forall i :: 0 <= i < |orders| ==> Binds(registry, target, orders[i].expr)
    decreases |orders|
  {
    if orders != [] {
      BindsIff(registry, target, orders[0].expr, deps);
      match BindExpr(registry, target, orders[0].expr, deps)
      case None =>
      case Some(after) =>
        OrdersBindIff(registry, target, orders[1..], after);
        assert forall i :: 1 <= i < |orders| ==> orders[i] == orders[1..][i - 1];
    }
  }

  /** A query binds exactly when its target is registered, and its condition and sort keys bind. */
  lemma QueryBindsIff(registry: Registry, query: Query)
    ensures Collect(registry, query).Some? <==>
              && query.target in registry.targets && (query.condition.Some? ==> Binds(registry, query.target, query.condition.value))
              && forall i :: 0 <= i < |query.orderBy| ==> Binds(registry, query.target, query.orderBy[i].expr)
  {
    var start := [Dependency(TARGET, query.target, "")];
    if query.condition.Some? {
      BindsIff(registry, query.target, query.condition.value, start);
    }
    match if query.condition.None? then Some(start) else BindExpr(registry, query.target, query.condition.value, start)
    case None =>
    case Some(deps) => OrdersBindIff(registry, query.target, query.orderBy, deps);
  }
}
