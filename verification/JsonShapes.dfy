/** Which stored documents stand for which expressions, told shape by shape, and that exactly these are read and written. */
module JsonShapes {
  import opened Values
  import opened QueryAst
  import opened QueryJson
  import opened QueryJsonTheorems

  datatype Shape =
    | Attr | Field | Str | Whole | Decimal | Truth | Instant | Nil | Now | Span | Relation | Bucket
    | Cast | Not | In | Between | NullTest | Arith | Junction | Test | NoShape

  predicate Present(json: Json, name: string) {
    json.JObject? && name in json.fields
  }

  /** Of the names present, the first in this order decides. */
  function ShapeOf(json: Json): Shape {
    if Present(json, "attr") then Attr
    else if Present(json, "field") then Field
    else if Present(json, "string") then Str
    else if Present(json, "integer") then Whole
    else if Present(json, "float") then Decimal
    else if Present(json, "boolean") then Truth
    else if Present(json, "timestamp") then Instant
    else if Present(json, "null") then Nil
    else if Present(json, "now") then Now
    else if Present(json, "interval") then Span
    else if Present(json, "has_relation") then Relation
    else if Present(json, "bucket") then Bucket
    else if Present(json, "cast") then Cast
    else if Present(json, "not") then Not
    else if Present(json, "in") then In
    else if Present(json, "between") then Between
    else if Present(json, "is_null") then NullTest
    else if Present(json, "arith") then Arith
    else if !Present(json, "op") then NoShape
    else if Present(json, "terms") then Junction
    else Test
  }

  // ----- Parts; one that is missing or null counts as the zero value -----

  predicate Absent(json: Json, name: string) {
    !Present(json, name) || json.fields[name] == JNull
  }

  predicate TextAt(json: Json, name: string, text: string) {
    if Absent(json, name) then text == "" else json.fields[name] == JText(text)
  }

  predicate IntAt(json: Json, name: string, n: int) {
    if Absent(json, name) then n == 0
    else -9223372036854775808 <= n <= 9223372036854775807 && json.fields[name] == JNumber(n as real)
  }

  predicate NumberAt(json: Json, name: string, x: real) {
    if Absent(json, name) then x == 0.0 else json.fields[name] == JNumber(x)
  }

  predicate FlagAt(json: Json, name: string, flag: bool) {
    if Absent(json, name) then !flag else json.fields[name] == JBool(flag)
  }

  /** An instant is read in UTC. */
  ghost predicate TimeAt(clock: Clock, json: Json, name: string, time: Time) {
    exists text :: TextAt(json, name, text) && clock.parse(text).Some? && time == Time(clock.parse(text).value.instant, 0)
  }

  predicate DirectionAt(json: Json, direction: string) {
    if Present(json, "direction") then TextAt(json, "direction", direction) else direction == "any"
  }

  function Body(json: Json, name: string): Json {
    if Present(json, name) then json.fields[name] else JNull
  }

  ghost predicate PartStands(clock: Clock, json: Json, name: string, e: Expr)
    decreases e, 1
  {
    Present(json, name) && Stands(clock, json.fields[name], e)
  }

  ghost predicate ListStands(clock: Clock, json: Json, name: string, es: seq<Expr>)
    decreases es, 1
  {
    if Absent(json, name) then es == []
    else json.fields[name].JList? && AllStand(clock, json.fields[name].items, es)
  }

  ghost predicate AllStand(clock: Clock, items: seq<Json>, es: seq<Expr>)
    decreases es, 0
  {
    |items| == |es| && forall i :: 0 <= i < |es| ==> Stands(clock, items[i], es[i])
  }

  /** The document stands for the expression. */
  ghost predicate Stands(clock: Clock, json: Json, e: Expr)
    decreases e, 0
  {
    match e
    case AttrRef(path) => ShapeOf(json) == Attr && TextAt(json, "attr", path)
    case FieldRef(name) => ShapeOf(json) == Field && TextAt(json, "field", name)
    case StringLiteral(text) => ShapeOf(json) == Str && TextAt(json, "string", text)
    case IntLiteral(n) => ShapeOf(json) == Whole && IntAt(json, "integer", n)
    case FloatLiteral(x) => ShapeOf(json) == Decimal && NumberAt(json, "float", x)
    case BoolLiteral(flag) => ShapeOf(json) == Truth && FlagAt(json, "boolean", flag)
    case TimestampLiteral(time) => ShapeOf(json) == Instant && TimeAt(clock, json, "timestamp", time)
    case NullLiteral => ShapeOf(json) == Nil
    case NowExpr => ShapeOf(json) == Now
    case IntervalLiteral(interval) => ShapeOf(json) == Span && TextAt(json, "interval", interval)
    case RelationPredicate(relationType, direction) =>
      ShapeOf(json) == Relation && TextAt(json, "has_relation", relationType) && DirectionAt(json, direction)
    case BucketPredicate(name) => ShapeOf(json) == Bucket && TextAt(json, "bucket", name)
    case CastExpr(operand, typ) =>
      ShapeOf(json) == Cast && TextAt(Body(json, "cast"), "type", typ) && PartStands(clock, Body(json, "cast"), "expr", operand)
    case NotExpr(inner) => ShapeOf(json) == Not && PartStands(clock, json, "not", inner)
    case InComparison(left, values) =>
      ShapeOf(json) == In && PartStands(clock, Body(json, "in"), "left", left) && ListStands(clock, Body(json, "in"), "values", values)
    case BetweenComparison(left, lower, upper) =>
      && ShapeOf(json) == Between && PartStands(clock, Body(json, "between"), "left", left)
      && PartStands(clock, Body(json, "between"), "lower", lower) && PartStands(clock, Body(json, "between"), "upper", upper)
    case NullComparison(left, negated) =>
      ShapeOf(json) == NullTest && PartStands(clock, Body(json, "is_null"), "left", left) && FlagAt(Body(json, "is_null"), "not", negated)
    case ArithmeticExpr(op, left, right) =>
      ShapeOf(json) == Arith && TextAt(json, "arith", op) && PartStands(clock, json, "left", left) && PartStands(clock, json, "right", right)
    case BoolExpr(op, terms) =>
      ShapeOf(json) == Junction && TextAt(json, "op", op) && ListStands(clock, json, "terms", terms)
    case Comparison(op, left, right) =>
      && ShapeOf(json) == Test && TextAt(json, "op", op)
      && PartStands(clock, json, "left", left) && PartStands(clock, json, "right", right)
  }

  // ----- The decoder reads exactly these -----

  lemma TextIff(json: Json, name: string, text: string)
    ensures QueryJson.Text(Part(json, name)) == Some(text) <==> TextAt(json, name, text)
  {
  }

  lemma TimeIff(clock: Clock, json: Json, e: Expr)
    ensures UnmarshalTime(clock, QueryJson.Text(Part(json, "timestamp"))) == Some(e) <==>
            e.TimestampLiteral? && TimeAt(clock, json, "timestamp", e.time)
  {
    var text := QueryJson.Text(Part(json, "timestamp"));
    if text.Some? {
      TextIff(json, "timestamp", text.value);
    }
    if e.TimestampLiteral? && TimeAt(clock, json, "timestamp", e.time) {
      var t :| TextAt(json, "timestamp", t) && clock.parse(t).Some? && e.time == Time(clock.parse(t).value.instant, 0);
      TextIff(json, "timestamp", t);
    }
  }

  lemma TextLeafIff(clock: Clock, json: Json, e: Expr)
    requires ShapeOf(json) in {Attr, Field, Str, Span, Bucket}
    ensures UnmarshalLeaf(clock, json) == Some(e) <==> Stands(clock, json, e)
  {
  }

  lemma ValueLeafIff(clock: Clock, json: Json, e: Expr)
    requires ShapeOf(json) in {Truth, Nil, Now}
    ensures UnmarshalLeaf(clock, json) == Some(e) <==> Stands(clock, json, e)
  {
  }

  lemma NumberLeafIff(clock: Clock, json: Json, e: Expr)
    requires ShapeOf(json) in {Whole, Decimal}
    ensures UnmarshalLeaf(clock, json) == Some(e) <==> Stands(clock, json, e)
  {
  }

  lemma RelationLeafIff(clock: Clock, json: Json, e: Expr)
    requires ShapeOf(json) == Relation
    ensures UnmarshalLeaf(clock, json) == Some(e) <==> Stands(clock, json, e)
  {
  }

  lemma InstantLeafIff(clock: Clock, json: Json, e: Expr)
    requires ShapeOf(json) == Instant
    ensures UnmarshalLeaf(clock, json) == Some(e) <==> Stands(clock, json, e)
  {
    TimeIff(clock, json, e);
  }

  lemma LeafShapes(json: Json)
    ensures IsLeaf(json) <==> ShapeOf(json) in {Attr, Field, Str, Whole, Decimal, Truth, Instant, Nil, Now, Span, Relation, Bucket}
  {
  }

  lemma {:induction false} PartIff(clock: Clock, json: Json, name: string, e: Expr)
    ensures UnmarshalPart(clock, json, name) == Some(e) <==> PartStands(clock, json, name, e)
    decreases json, 0
  {
    if Part(json, name).Some? {
      StandsIff(clock, Part(json, name).value, e);
    }
  }

  lemma {:induction false} ListIff(clock: Clock, json: Json, name: string, es: seq<Expr>)
    ensures UnmarshalList(clock, json, name) == Some(es) <==> ListStands(clock, json, name, es)
    decreases json, 0
  {
    if Part(json, name).Some? && Part(json, name).value.JList? {
      AllIff(clock, Part(json, name).value, Part(json, name).value.items, es);
    }
  }

  lemma {:induction false} AllIff(clock: Clock, list: Json, items: seq<Json>, es: seq<Expr>)
    requires forall i :: 0 <= i < |items| ==> items[i] < list
    ensures UnmarshalAll(clock, list, items) == Some(es) <==> AllStand(clock, items, es)
    decreases list, 0, |items|
  {
    if items != [] {
      if es != [] {
        StandsIff(clock, items[0], es[0]);
        AllIff(clock, list, items[1..], es[1..]);
        assert es == [es[0]] + es[1..];
        assert forall i :: 1 <= i < |es| ==> es[i] == es[1..][i - 1];
        assert forall i :: 1 <= i < |items| ==> items[i] == items[1..][i - 1];
      }
    }
  }

  lemma {:induction false} BodyIff(clock: Clock, json: Json, e: Expr)
    requires ShapeOf(json) in {Cast, In, Between, NullTest}
    ensures UnmarshalExpr(clock, json) == Some(e) <==> Stands(clock, json, e)
    decreases json, 1
  {
    match ShapeOf(json)
    case Cast => if e.CastExpr? { PartIff(clock, json.fields["cast"], "expr", e.expr); }
    case In =>
      if e.InComparison? {
        PartIff(clock, json.fields["in"], "left", e.left);
        ListIff(clock, json.fields["in"], "values", e.values);
      }
    case Between =>
      if e.BetweenComparison? {
        PartIff(clock, json.fields["between"], "left", e.left);
        PartIff(clock, json.fields["between"], "lower", e.lower);
        PartIff(clock, json.fields["between"], "upper", e.upper);
      }
    case NullTest => if e.NullComparison? { PartIff(clock, json.fields["is_null"], "left", e.left); }
    case _ =>
  }

  lemma {:induction false} ArithIff(clock: Clock, json: Json, e: Expr)
    requires ShapeOf(json) == Arith
    ensures UnmarshalExpr(clock, json) == Some(e) <==> Stands(clock, json, e)
    decreases json, 1
  {
    if e.ArithmeticExpr? {
      PartIff(clock, json, "left", e.left);
      PartIff(clock, json, "right", e.right);
    }
  }

  lemma {:induction false} TestIff(clock: Clock, json: Json, e: Expr)
    requires ShapeOf(json) == Test
    ensures UnmarshalExpr(clock, json) == Some(e) <==> Stands(clock, json, e)
    decreases json, 1
  {
    if e.Comparison? {
      PartIff(clock, json, "left", e.left);
      PartIff(clock, json, "right", e.right);
    }
  }

  lemma {:induction false} JunctionIff(clock: Clock, json: Json, e: Expr)
    requires ShapeOf(json) in {Junction, NoShape}
    ensures UnmarshalExpr(clock, json) == Some(e) <==> Stands(clock, json, e)
    decreases json, 1
  {
    if e.BoolExpr? {
      ListIff(clock, json, "terms", e.terms);
    }
  }

  lemma {:induction false} NegationIff(clock: Clock, json: Json, e: Expr)
    requires ShapeOf(json) == Not
    ensures UnmarshalExpr(clock, json) == Some(e) <==> Stands(clock, json, e)
    decreases json, 1
  {
    if e.NotExpr? {
      PartIff(clock, json, "not", e.expr);
    }
  }

  /** A document is read as an expression exactly when it stands for it, and is refused when it stands for none. */
  lemma {:induction false} StandsIff(clock: Clock, json: Json, e: Expr)
    ensures UnmarshalExpr(clock, json) == Some(e) <==> Stands(clock, json, e)
    decreases json, 2
  {
    LeafShapes(json);
    match ShapeOf(json)
    case Cast => BodyIff(clock, json, e);
    case In => BodyIff(clock, json, e);
    case Between => BodyIff(clock, json, e);
    case NullTest => BodyIff(clock, json, e);
    case Not => NegationIff(clock, json, e);
    case Arith => ArithIff(clock, json, e);
    case Test => TestIff(clock, json, e);
    case Junction => JunctionIff(clock, json, e);
    case NoShape => JunctionIff(clock, json, e);
    case Instant => InstantLeafIff(clock, json, e);
    case Relation => RelationLeafIff(clock, json, e);
    case Whole => NumberLeafIff(clock, json, e);
    case Decimal => NumberLeafIff(clock, json, e);
    case Attr => TextLeafIff(clock, json, e);
    case Field => TextLeafIff(clock, json, e);
    case Str => TextLeafIff(clock, json, e);
    case Span => TextLeafIff(clock, json, e);
    case Bucket => TextLeafIff(clock, json, e);
    case _ => ValueLeafIff(clock, json, e);
  }

  /** What is written for an expression stands for it, up to what a round trip settles. */
  lemma WrittenStands(clock: Clock, e: Expr)
    requires Faithful(clock) && Sized(e)
    ensures Stands(clock, MarshalExpr(clock, e), Normal(e))
  {
    RoundTrip(clock, e);
    StandsIff(clock, MarshalExpr(clock, e), Normal(e));
  }

  /** An integer is read back exactly when 64 bits hold it, which is what a round trip asks of it. */
  lemma IntegerReadsBackIff(clock: Clock, n: int)
    ensures UnmarshalExpr(clock, MarshalExpr(clock, IntLiteral(n))) == Some(IntLiteral(n)) <==> -9223372036854775808 <= n <= 9223372036854775807
    ensures Sized(IntLiteral(n)) <==> -9223372036854775808 <= n <= 9223372036854775807
  {
    var json := MarshalExpr(clock, IntLiteral(n));
    StandsIff(clock, json, IntLiteral(n));
    assert Present(json, "integer") && json.fields["integer"] == JNumber(n as real);
  }

  // ----- Whole queries -----

  predicate CountAt(json: Json, name: string, n: Option<int>) {
    if Absent(json, name) then n == None else n.Some? && IntAt(json, name, n.value)
  }

  /** A sort key; without a direction it ascends. */
  ghost predicate OrderStands(clock: Clock, json: Json, order: Order) {
    && PartStands(clock, json, "expr", order.expr)
    && exists direction :: TextAt(json, "direction", direction) && order.direction == if direction == "" then "asc" else direction
  }

  ghost predicate OrdersStand(clock: Clock, json: Json, orders: seq<Order>) {
    if Absent(json, "order_by") then orders == []
    else
      && json.fields["order_by"].JList? && |json.fields["order_by"].items| == |orders|
      && forall i :: 0 <= i < |orders| ==> OrderStands(clock, json.fields["order_by"].items[i], orders[i])
  }

  /** The document stands for the query. */
  ghost predicate QueryStands(clock: Clock, json: Json, q: Query) {
    && (json.JObject? || json.JNull?)
    && TextAt(json, "version", q.version) && TextAt(json, "from", q.target)
    && (if Present(json, "where") then q.condition.Some? && PartStands(clock, json, "where", q.condition.value) else q.condition == None)
    && OrdersStand(clock, json, q.orderBy)
    && CountAt(json, "limit", q.limit) && CountAt(json, "offset", q.offset)
  }

  lemma OrderIff(clock: Clock, json: Json, order: Order)
    ensures OrderStands(clock, json, order) <==>
      && UnmarshalPart(clock, json, "expr") == Some(order.expr) && QueryJson.Text(Part(json, "direction")).Some?
      && order.direction == if QueryJson.Text(Part(json, "direction")) == Some("") then "asc" else QueryJson.Text(Part(json, "direction")).value
  {
    PartIff(clock, json, "expr", order.expr);
    var text := QueryJson.Text(Part(json, "direction"));
    if text.Some? {
      TextIff(json, "direction", text.value);
    }
    if direction :| TextAt(json, "direction", direction) {
      TextIff(json, "direction", direction);
    }
  }

  lemma {:induction false} OrdersIff(clock: Clock, items: seq<Json>, orders: seq<Order>)
    ensures UnmarshalOrders(clock, items) == Some(orders) <==>
      |items| == |orders| && forall i :: 0 <= i < |orders| ==> OrderStands(clock, items[i], orders[i])
    decreases |items|
  {
    if items != [] && orders != [] {
      OrderIff(clock, items[0], orders[0]);
      OrdersIff(clock, items[1..], orders[1..]);
      assert orders == [orders[0]] + orders[1..];
      assert forall i :: 1 <= i < |orders| ==> orders[i] == orders[1..][i - 1];
      assert forall i :: 1 <= i < |items| ==> items[i] == items[1..][i - 1];
    }
  }

  lemma OrderByIff(clock: Clock, json: Json, orders: seq<Order>)
    ensures UnmarshalOrderBy(clock, json) == Some(orders) <==> OrdersStand(clock, json, orders)
  {
    if Absent(json, "order_by") {
      OrdersIff(clock, [], orders);
    } else if json.fields["order_by"].JList? {
      OrdersIff(clock, json.fields["order_by"].items, orders);
    }
  }

  lemma CountIff(json: Json, name: string, n: Option<int>)
    ensures Pointer(Part(json, name)) == Some(n) <==> CountAt(json, name, n)
  {
  }

  /** A document is read as a query exactly when it stands for it. */
  lemma QueryStandsIff(clock: Clock, json: Json, q: Query)
    ensures UnmarshalQuery(clock, json) == Some(q) <==> QueryStands(clock, json, q)
  {
    TextIff(json, "version", q.version);
    TextIff(json, "from", q.target);
    if q.condition.Some? {
      PartIff(clock, json, "where", q.condition.value);
    }
    OrderByIff(clock, json, q.orderBy);
    CountIff(json, "limit", q.limit);
    CountIff(json, "offset", q.offset);
  }

  /** What is written for a query stands for it, up to what a round trip settles. */
  lemma WrittenQueryStands(clock: Clock, q: Query)
    requires Faithful(clock) && SizedQuery(q)
    ensures QueryStands(clock, MarshalQuery(clock, q), NormalQuery(q))
  {
    QueryRoundTrip(clock, q);
    QueryStandsIff(clock, MarshalQuery(clock, q), NormalQuery(q));
  }
}
