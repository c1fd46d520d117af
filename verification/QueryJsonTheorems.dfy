/** Storing a query and reading it back. */
module QueryJsonTheorems {
  import opened Values
  import opened QueryAst
  import opened QueryJson

  // ----- Each written shape is recognised as itself: no earlier name occurs in it -----

  lemma TextRoundTrip(clock: Clock, e: Expr)
    requires e.FieldRef? || e.AttrRef? || e.StringLiteral? || e.IntervalLiteral? || e.BucketPredicate?
    ensures UnmarshalExpr(clock, MarshalExpr(clock, e)) == Some(Normal(e))
  {
  }

  lemma RelationRoundTrip(clock: Clock, e: Expr)
    requires e.RelationPredicate?
    ensures UnmarshalExpr(clock, MarshalExpr(clock, e)) == Some(Normal(e))
  {
  }

  lemma LeafRoundTrip(clock: Clock, e: Expr)
    requires Faithful(clock) && Sized(e)
    requires e.IntLiteral? || e.FloatLiteral? || e.BoolLiteral? || e.TimestampLiteral? || e.NullLiteral? || e.NowExpr?
    ensures UnmarshalExpr(clock, MarshalExpr(clock, e)) == Some(Normal(e))
  {
  }

  lemma CastShape(clock: Clock, operand: Json, typ: string, e: Expr)
    requires UnmarshalExpr(clock, operand) == Some(e)
    ensures UnmarshalExpr(clock, JObject(map["cast" := JObject(map["expr" := operand, "type" := JText(typ)])])) == Some(CastExpr(e, typ))
  {
    var body := JObject(map["expr" := operand, "type" := JText(typ)]);
    assert UnmarshalCast(clock, body) == Some(CastExpr(e, typ));
  }

  lemma NotShape(clock: Clock, operand: Json, e: Expr)
    requires UnmarshalExpr(clock, operand) == Some(e)
    ensures UnmarshalExpr(clock, JObject(map["not" := operand])) == Some(NotExpr(e))
  {
  }

  lemma InShape(clock: Clock, left: Json, items: seq<Json>, l: Expr, es: seq<Expr>)
    requires UnmarshalExpr(clock, left) == Some(l) && UnmarshalAll(clock, JList(items), items) == Some(es)
    ensures UnmarshalExpr(clock, JObject(map["in" := JObject(map["left" := left, "values" := JList(items)])])) == Some(InComparison(l, es))
  {
    var body := JObject(map["left" := left, "values" := JList(items)]);
    assert UnmarshalIn(clock, body) == Some(InComparison(l, es));
  }

  lemma BetweenShape(clock: Clock, left: Json, lower: Json, upper: Json, l: Expr, lo: Expr, up: Expr)
    requires UnmarshalExpr(clock, left) == Some(l) && UnmarshalExpr(clock, lower) == Some(lo) && UnmarshalExpr(clock, upper) == Some(up)
    ensures UnmarshalExpr(clock, JObject(map["between" := JObject(map["left" := left, "lower" := lower, "upper" := upper])])) ==
      Some(BetweenComparison(l, lo, up))
  {
    var body := JObject(map["left" := left, "lower" := lower, "upper" := upper]);
    assert UnmarshalBetween(clock, body) == Some(BetweenComparison(l, lo, up));
  }

  lemma NullTestShape(clock: Clock, left: Json, negated: bool, l: Expr)
    requires UnmarshalExpr(clock, left) == Some(l)
    ensures UnmarshalExpr(clock, JObject(map["is_null" := JObject(map["left" := left, "not" := JBool(negated)])])) ==
      Some(NullComparison(l, negated))
  {
    var body := JObject(map["left" := left, "not" := JBool(negated)]);
    assert UnmarshalNullTest(clock, body) == Some(NullComparison(l, negated));
  }

  /** Neither operator document has a name that is looked for before its own. */
  lemma OperatorNames(word: string, op: string, left: Json, right: Json)
    requires word == "op" || word == "arith"
    ensures var json := JObject(map[word := JText(op), "left" := left, "right" := right]);
      && !IsLeaf(json) && !Has(json, "cast") && !Has(json, "not") && !Has(json, "in") && !Has(json, "between") && !Has(json, "is_null")
      && !Has(json, "terms") && Has(json, "arith") == (word == "arith") && Part(json, word) == Some(JText(op))
      && Part(json, "left") == Some(left) && Part(json, "right") == Some(right)
  {
  }

  lemma ComparisonShape(clock: Clock, op: string, left: Json, right: Json, l: Expr, r: Expr)
    requires UnmarshalExpr(clock, left) == Some(l) && UnmarshalExpr(clock, right) == Some(r)
    ensures UnmarshalExpr(clock, JObject(map["op" := JText(op), "left" := left, "right" := right])) == Some(Comparison(op, l, r))
  {
    var json := JObject(map["op" := JText(op), "left" := left, "right" := right]);
    OperatorNames("op", op, left, right);
    assert UnmarshalOperator(clock, json) == Some(Comparison(op, l, r));
  }

  lemma ArithmeticShape(clock: Clock, op: string, left: Json, right: Json, l: Expr, r: Expr)
    requires UnmarshalExpr(clock, left) == Some(l) && UnmarshalExpr(clock, right) == Some(r)
    ensures UnmarshalExpr(clock, JObject(map["arith" := JText(op), "left" := left, "right" := right])) == Some(ArithmeticExpr(op, l, r))
  {
    var json := JObject(map["arith" := JText(op), "left" := left, "right" := right]);
    OperatorNames("arith", op, left, right);
    assert UnmarshalOperator(clock, json) == Some(ArithmeticExpr(op, l, r));
  }

  lemma TermsShape(clock: Clock, op: string, items: seq<Json>, es: seq<Expr>)
    requires UnmarshalAll(clock, JList(items), items) == Some(es)
    ensures UnmarshalExpr(clock, JObject(map["op" := JText(op), "terms" := JList(items)])) == Some(BoolExpr(op, es))
  {
    var json := JObject(map["op" := JText(op), "terms" := JList(items)]);
    assert UnmarshalOperator(clock, json) == Some(BoolExpr(op, es));
  }

  // ----- Round trips -----

  /** Reading a written expression gives it back, with directions and instants in their normal form. */
  lemma {:induction false} RoundTrip(clock: Clock, e: Expr)
    requires Faithful(clock) && Sized(e)
    ensures UnmarshalExpr(clock, MarshalExpr(clock, e)) == Some(Normal(e))
    decreases e, 1
  {
    match e
    case BoolExpr(op, terms) =>
      AllRoundTrip(clock, terms);
      TermsShape(clock, op, MarshalAll(clock, terms), NormalAll(terms));
    case NotExpr(inner) =>
      RoundTrip(clock, inner);
      NotShape(clock, MarshalExpr(clock, inner), Normal(inner));
    case InComparison(left, values) =>
      RoundTrip(clock, left);
      AllRoundTrip(clock, values);
      InShape(clock, MarshalExpr(clock, left), MarshalAll(clock, values), Normal(left), NormalAll(values));
    case NullComparison(left, negated) =>
      RoundTrip(clock, left);
      NullTestShape(clock, MarshalExpr(clock, left), negated, Normal(left));
    case CastExpr(operand, typ) =>
      RoundTrip(clock, operand);
      CastShape(clock, MarshalExpr(clock, operand), typ, Normal(operand));
    case Comparison(op, left, right) =>
      RoundTrip(clock, left);
      RoundTrip(clock, right);
      ComparisonShape(clock, op, MarshalExpr(clock, left), MarshalExpr(clock, right), Normal(left), Normal(right));
    case ArithmeticExpr(op, left, right) =>
      RoundTrip(clock, left);
      RoundTrip(clock, right);
      ArithmeticShape(clock, op, MarshalExpr(clock, left), MarshalExpr(clock, right), Normal(left), Normal(right));
    case BetweenComparison(left, lower, upper) =>
      RoundTrip(clock, left);
      RoundTrip(clock, lower);
      RoundTrip(clock, upper);
      BetweenShape(clock, MarshalExpr(clock, left), MarshalExpr(clock, lower), MarshalExpr(clock, upper), Normal(left), Normal(lower), Normal(upper));
    case RelationPredicate(_, _) => RelationRoundTrip(clock, e);
    case FieldRef(_) => TextRoundTrip(clock, e);
    case AttrRef(_) => TextRoundTrip(clock, e);
    case StringLiteral(_) => TextRoundTrip(clock, e);
    case IntervalLiteral(_) => TextRoundTrip(clock, e);
    case BucketPredicate(_) => TextRoundTrip(clock, e);
    case _ => LeafRoundTrip(clock, e);
  }

  lemma {:induction false} AllRoundTrip(clock: Clock, es: seq<Expr>)
    requires Faithful(clock) && forall i :: 0 <= i < |es| ==> Sized(es[i])
    ensures UnmarshalAll(clock, JList(MarshalAll(clock, es)), MarshalAll(clock, es)) == Some(NormalAll(es))
    decreases es, 1
  {
    ItemsRoundTrip(clock, es, JList(MarshalAll(clock, es)));
  }

  lemma {:induction false} ItemsRoundTrip(clock: Clock, es: seq<Expr>, list: Json)
    requires Faithful(clock) && forall i :: 0 <= i < |es| ==> Sized(es[i])
    requires var items := MarshalAll(clock, es); forall i :: 0 <= i < |items| ==> items[i] < list
    ensures UnmarshalAll(clock, list, MarshalAll(clock, es)) == Some(NormalAll(es))
    decreases es, 0
  {
    if es != [] {
      RoundTrip(clock, es[0]);
      assert MarshalAll(clock, es)[1..] == MarshalAll(clock, es[1..]);
      ItemsRoundTrip(clock, es[1..], list);
    }
  }

  lemma {:induction false} OrdersRoundTrip(clock: Clock, orders: seq<Order>)
    requires Faithful(clock) && forall i :: 0 <= i < |orders| ==> Sized(orders[i].expr)
    ensures UnmarshalOrders(clock, MarshalOrders(clock, orders)) == Some(NormalOrders(orders))
  {
    if orders != [] {
      RoundTrip(clock, orders[0].expr);
      OrderShape(clock, MarshalExpr(clock, orders[0].expr), orders[0].direction, Normal(orders[0].expr));
      OrdersRoundTrip(clock, orders[1..]);
      assert MarshalOrders(clock, orders)[1..] == MarshalOrders(clock, orders[1..]);
    }
  }

  lemma OrderShape(clock: Clock, expr: Json, direction: string, e: Expr)
    requires UnmarshalExpr(clock, expr) == Some(e)
    ensures var json := JObject(WithField(map["expr" := expr], "direction", if direction == "" then None else Some(JText(direction))));
      UnmarshalPart(clock, json, "expr") == Some(e) && QueryJson.Text(Part(json, "direction")) == Some(direction)
  {
  }

  /** What MarshalQuery wrote, part by part. */
  lemma QueryParts(clock: Clock, q: Query)
    ensures var json := MarshalQuery(clock, q);
      && Part(json, "version") == Some(JText(q.version)) && Part(json, "from") == Some(JText(q.target))
      && Part(json, "where") == (if q.condition.None? then None else Some(MarshalExpr(clock, q.condition.value)))
      && Part(json, "order_by") == (if q.orderBy == [] then None else Some(JList(MarshalOrders(clock, q.orderBy))))
      && Part(json, "limit") == NumberJson(q.limit) && Part(json, "offset") == NumberJson(q.offset)
  {
  }

  lemma PointerRoundTrip(n: Option<int>)
    requires n.Some? ==> Int64(n.value)
    ensures Pointer(NumberJson(n)) == Some(n)
  {
  }

  lemma ConditionRoundTrip(clock: Clock, condition: Option<Expr>, json: Json)
    requires Faithful(clock) && (condition.Some? ==> Sized(condition.value))
    requires Part(json, "where") == (if condition.None? then None else Some(MarshalExpr(clock, condition.value)))
    ensures UnmarshalCondition(clock, json) == Some(if condition.None? then None else Some(Normal(condition.value)))
  {
    if condition.Some? {
      RoundTrip(clock, condition.value);
    }
  }

  lemma OrderByRoundTrip(clock: Clock, orders: seq<Order>, json: Json)
    requires Faithful(clock) && forall i :: 0 <= i < |orders| ==> Sized(orders[i].expr)
    requires Part(json, "order_by") == (if orders == [] then None else Some(JList(MarshalOrders(clock, orders))))
    ensures UnmarshalOrderBy(clock, json) == Some(NormalOrders(orders))
  {
    OrdersRoundTrip(clock, orders);
  }

  /** Storing a query and reading it back gives its normal form. */
  lemma QueryRoundTrip(clock: Clock, q: Query)
    requires Faithful(clock) && SizedQuery(q)
    ensures UnmarshalQuery(clock, MarshalQuery(clock, q)) == Some(NormalQuery(q))
  {
    var json := MarshalQuery(clock, q);
    QueryParts(clock, q);
    PointerRoundTrip(q.limit);
    PointerRoundTrip(q.offset);
    ConditionRoundTrip(clock, q.condition, json);
    OrderByRoundTrip(clock, q.orderBy, json);
  }

  // ----- The normal form is what the stored form records -----

  lemma {:induction false} NormalWritesTheSame(clock: Clock, e: Expr)
    ensures MarshalExpr(clock, Normal(e)) == MarshalExpr(clock, e)
    decreases e, 0
  {
    match e
    case BoolExpr(_, terms) => NormalAllWritesTheSame(clock, terms);
    case NotExpr(inner) => NormalWritesTheSame(clock, inner);
    case Comparison(_, left, right) =>
      NormalWritesTheSame(clock, left);
      NormalWritesTheSame(clock, right);
    case InComparison(left, values) =>
      NormalWritesTheSame(clock, left);
      NormalAllWritesTheSame(clock, values);
    case BetweenComparison(left, lower, upper) =>
      NormalWritesTheSame(clock, left);
      NormalWritesTheSame(clock, lower);
      NormalWritesTheSame(clock, upper);
    case NullComparison(left, _) => NormalWritesTheSame(clock, left);
    case CastExpr(operand, _) => NormalWritesTheSame(clock, operand);
    case ArithmeticExpr(_, left, right) =>
      NormalWritesTheSame(clock, left);
      NormalWritesTheSame(clock, right);
    case _ =>
  }

  lemma {:induction false} NormalAllWritesTheSame(clock: Clock, es: seq<Expr>)
    ensures MarshalAll(clock, NormalAll(es)) == MarshalAll(clock, es)
    decreases es, 0
  {
    if es != [] {
      NormalWritesTheSame(clock, es[0]);
      NormalAllWritesTheSame(clock, es[1..]);
      assert NormalAll(es)[1..] == NormalAll(es[1..]);
    }
  }

  /** Two conditions are stored alike exactly when their normal forms agree: nothing else is lost or merged. */
  lemma StoredAlikeIff(clock: Clock, a: Expr, b: Expr)
    requires Faithful(clock) && Sized(a) && Sized(b)
    ensures (MarshalExpr(clock, a) == MarshalExpr(clock, b)) <==> (Normal(a) == Normal(b))
  {
    RoundTrip(clock, a);
    RoundTrip(clock, b);
    NormalWritesTheSame(clock, a);
    NormalWritesTheSame(clock, b);
  }
}
