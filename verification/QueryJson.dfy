/** The stored JSON form of a query. */
module QueryJson {
  import opened Values
  import opened QueryAst

  datatype Json =
    | JNull
    | JBool(flag: bool)
    | JNumber(number: real)
    | JText(text: string)
    | JList(items: seq<Json>)
    | JObject(fields: map<string, Json>)

  /** How instants are written and read as text. */
  datatype Clock = Clock(format: int -> string, parse: string -> Option<Time>)

  /** Reading a written instant gives that instant back. */
  ghost predicate Faithful(clock: Clock) {
    forall instant :: clock.parse(clock.format(instant)).Some? && clock.parse(clock.format(instant)).value.instant == instant
  }

  const INT64_MIN := -0x8000_0000_0000_0000
  const INT64_MAX := 0x7FFF_FFFF_FFFF_FFFF

  // ----- Writing -----

  function MarshalExpr(clock: Clock, e: Expr): Json
    decreases e, 0
  {
    match e
    case BoolExpr(op, terms) => JObject(map["op" := JText(op), "terms" := JList(MarshalAll(clock, terms))])
    case NotExpr(inner) => JObject(map["not" := MarshalExpr(clock, inner)])
    case Comparison(op, left, right) =>
      JObject(map["op" := JText(op), "left" := MarshalExpr(clock, left), "right" := MarshalExpr(clock, right)])
    case InComparison(left, values) =>
      JObject(map["in" := JObject(map["left" := MarshalExpr(clock, left), "values" := JList(MarshalAll(clock, values))])])
    case BetweenComparison(left, lower, upper) =>
      JObject(map["between" := JObject(map[
        "left" := MarshalExpr(clock, left), "lower" := MarshalExpr(clock, lower), "upper" := MarshalExpr(clock, upper)])])
    case NullComparison(left, negated) =>
      JObject(map["is_null" := JObject(map["left" := MarshalExpr(clock, left), "not" := JBool(negated)])])
    case RelationPredicate(relationType, direction) =>
      JObject(if direction == "" || direction == RELATION_ANY then map["has_relation" := JText(relationType)]
              else map["has_relation" := JText(relationType), "direction" := JText(direction)])
    case BucketPredicate(name) => JObject(map["bucket" := JText(name)])
    case FieldRef(name) => JObject(map["field" := JText(name)])
    case AttrRef(path) => JObject(map["attr" := JText(path)])
    case CastExpr(operand, typ) => JObject(map["cast" := JObject(map["expr" := MarshalExpr(clock, operand), "type" := JText(typ)])])
    case StringLiteral(text) => JObject(map["string" := JText(text)])
    case IntLiteral(n) => JObject(map["integer" := JNumber(n as real)])
    case FloatLiteral(x) => JObject(map["float" := JNumber(x)])
    case BoolLiteral(b) => JObject(map["boolean" := JBool(b)])
    case TimestampLiteral(time) => JObject(map["timestamp" := JText(clock.format(time.instant))])
    case NullLiteral => JObject(map["null" := JBool(true)])
    case NowExpr => JObject(map["now" := JBool(true)])
    case IntervalLiteral(interval) => JObject(map["interval" := JText(interval)])
    case ArithmeticExpr(op, left, right) =>
      JObject(map["arith" := JText(op), "left" := MarshalExpr(clock, left), "right" := MarshalExpr(clock, right)])
  }

  function MarshalAll(clock: Clock, es: seq<Expr>): seq<Json>
    decreases es, 0
  {
    if es == [] then [] else [MarshalExpr(clock, es[0])] + MarshalAll(clock, es[1..])
  }

  function WithField(fields: map<string, Json>, name: string, value: Option<Json>): map<string, Json> {
    match value case Some(json) => fields[name := json] case None => fields
  }

  function MarshalOrders(clock: Clock, orders: seq<Order>): seq<Json> {
    if orders == [] then []
    else
      [JObject(WithField(map["expr" := MarshalExpr(clock, orders[0].expr)], "direction",
                         if orders[0].direction == "" then None else Some(JText(orders[0].direction))))]
      + MarshalOrders(clock, orders[1..])
  }

  function NumberJson(n: Option<int>): Option<Json> {
    match n case Some(i) => Some(JNumber(i as real)) case None => None
  }

  function MarshalQuery(clock: Clock, q: Query): Json {
    var head := map["version" := JText(q.version), "from" := JText(q.target)];
    var condition := if q.condition.None? then None else Some(MarshalExpr(clock, q.condition.value));
    var orders := if q.orderBy == [] then None else Some(JList(MarshalOrders(clock, q.orderBy)));
    JObject(WithField(WithField(WithField(WithField(head, "where", condition), "order_by", orders),
                                "limit", NumberJson(q.limit)), "offset", NumberJson(q.offset)))
  }

  // ----- Reading -----

  /** A named part of a document; parts are smaller than the document. */
  function Part(json: Json, name: string): (part: Option<Json>)
    ensures part.Some? ==> part.value < json
  {
    if json.JObject? && name in json.fields then Some(json.fields[name]) else None
  }

  predicate Has(json: Json, name: string) {
    Part(json, name).Some?
  }

  // Absent and null parts decode to the zero value of the Go type.

  function Text(json: Option<Json>): Option<string> {
    match json case Some(JText(text)) => Some(text) case None => Some("") case Some(JNull) => Some("") case _ => None
  }

  function Integer(json: Option<Json>): Option<int> {
    match json
    case Some(JNumber(x)) => if x == x.Floor as real && INT64_MIN <= x.Floor <= INT64_MAX then Some(x.Floor) else None
    case None => Some(0)
    case Some(JNull) => Some(0)
    case _ => None
  }

  function Number(json: Option<Json>): Option<real> {
    match json case Some(JNumber(x)) => Some(x) case None => Some(0.0) case Some(JNull) => Some(0.0) case _ => None
  }

  function Flag(json: Option<Json>): Option<bool> {
    match json case Some(JBool(b)) => Some(b) case None => Some(false) case Some(JNull) => Some(false) case _ => None
  }

  function Items(json: Option<Json>): (items: Option<seq<Json>>)
    ensures json.Some? && items.Some? ==> forall i :: 0 <= i < |items.value| ==> items.value[i] < json.value
  {
    match json case Some(JList(items)) => Some(items) case None => Some([]) case Some(JNull) => Some([]) case _ => None
  }

  function UnmarshalPart(clock: Clock, json: Json, name: string): Option<Expr>
    decreases json, 0
  {
    match Part(json, name) case Some(part) => UnmarshalExpr(clock, part) case None => None
  }

  function UnmarshalList(clock: Clock, json: Json, name: string): Option<seq<Expr>>
    decreases json, 0
  {
    match Items(Part(json, name))
    case None => None
    case Some(items) =>
      if Part(json, name).None? then Some([])
      else UnmarshalAll(clock, Part(json, name).value, items)
  }

  function UnmarshalAll(clock: Clock, list: Json, items: seq<Json>): Option<seq<Expr>>
    requires forall i :: 0 <= i < |items| ==> items[i] < list
    decreases list, 0, |items|
  {
    if items == [] then Some([])
    else
      match UnmarshalExpr(clock, items[0])
      case None => None
      case Some(e) =>
        match UnmarshalAll(clock, list, items[1..]) case None => None case Some(es) => Some([e] + es)
  }

  function UnmarshalTime(clock: Clock, text: Option<string>): Option<Expr> {
    match text
    case None => None
    case Some(t) => match clock.parse(t) case Some(time) => Some(TimestampLiteral(Utc(time))) case None => None
  }

  function UnmarshalRelation(json: Json): Option<Expr> {
    match Text(Part(json, "has_relation"))
    case None => None
    case Some(relationType) =>
      if !Has(json, "direction") then Some(RelationPredicate(relationType, RELATION_ANY))
      else match Text(Part(json, "direction")) case None => None case Some(direction) => Some(RelationPredicate(relationType, direction))
  }

  predicate IsLeaf(json: Json) {
    Has(json, "attr") || Has(json, "field") || Has(json, "string") || Has(json, "integer") || Has(json, "float") ||
    Has(json, "boolean") || Has(json, "timestamp") || Has(json, "null") || Has(json, "now") || Has(json, "interval") ||
    Has(json, "has_relation") || Has(json, "bucket")
  }

  /** The shapes without expressions inside them, by the first name found. */
  function UnmarshalLeaf(clock: Clock, json: Json): Option<Expr> {
    if Has(json, "attr") then (match Text(Part(json, "attr")) case None => None case Some(path) => Some(AttrRef(path)))
    else if Has(json, "field") then (match Text(Part(json, "field")) case None => None case Some(name) => Some(FieldRef(name)))
    else if Has(json, "string") then (match Text(Part(json, "string")) case None => None case Some(text) => Some(StringLiteral(text)))
    else if Has(json, "integer") then (match Integer(Part(json, "integer")) case None => None case Some(n) => Some(IntLiteral(n)))
    else if Has(json, "float") then (match Number(Part(json, "float")) case None => None case Some(x) => Some(FloatLiteral(x)))
    else if Has(json, "boolean") then (match Flag(Part(json, "boolean")) case None => None case Some(b) => Some(BoolLiteral(b)))
    else if Has(json, "timestamp") then UnmarshalTime(clock, Text(Part(json, "timestamp")))
    else if Has(json, "null") then Some(NullLiteral)
    else if Has(json, "now") then Some(NowExpr)
    else if Has(json, "interval") then (match Text(Part(json, "interval")) case None => None case Some(text) => Some(IntervalLiteral(text)))
    else if Has(json, "has_relation") then UnmarshalRelation(json)
    else match Text(Part(json, "bucket")) case None => None case Some(name) => Some(BucketPredicate(name))
  }

  /** unmarshalExpr: the first name found, in this order, decides the shape. */
  function UnmarshalExpr(clock: Clock, json: Json): Option<Expr>
    decreases json, 2
  {
    if IsLeaf(json) then UnmarshalLeaf(clock, json)
    else if Has(json, "cast") then UnmarshalCast(clock, Part(json, "cast").value)
    else if Has(json, "not") then
      (match UnmarshalPart(clock, json, "not") case None => None case Some(inner) => Some(NotExpr(inner)))
    else if Has(json, "in") then UnmarshalIn(clock, Part(json, "in").value)
    else if Has(json, "between") then UnmarshalBetween(clock, Part(json, "between").value)
    else if Has(json, "is_null") then UnmarshalNullTest(clock, Part(json, "is_null").value)
    else UnmarshalOperator(clock, json)
  }

  function UnmarshalCast(clock: Clock, body: Json): Option<Expr>
    decreases body, 1
  {
    match (Text(Part(body, "type")), UnmarshalPart(clock, body, "expr"))
    case (Some(typ), Some(operand)) => Some(CastExpr(operand, typ))
    case _ => None
  }

  function UnmarshalIn(clock: Clock, body: Json): Option<Expr>
    decreases body, 1
  {
    match (UnmarshalPart(clock, body, "left"), UnmarshalList(clock, body, "values"))
    case (Some(left), Some(values)) => Some(InComparison(left, values))
    case _ => None
  }

  function UnmarshalBetween(clock: Clock, body: Json): Option<Expr>
    decreases body, 1
  {
    match (UnmarshalPart(clock, body, "left"), UnmarshalPart(clock, body, "lower"), UnmarshalPart(clock, body, "upper"))
    case (Some(left), Some(lower), Some(upper)) => Some(BetweenComparison(left, lower, upper))
    case _ => None
  }

  function UnmarshalNullTest(clock: Clock, body: Json): Option<Expr>
    decreases body, 1
  {
    match (UnmarshalPart(clock, body, "left"), Flag(Part(body, "not")))
    case (Some(left), Some(negated)) => Some(NullComparison(left, negated))
    case _ => None
  }

  function UnmarshalOperator(clock: Clock, json: Json): Option<Expr>
    decreases json, 1
  {
    if Has(json, "arith") then
      match (Text(Part(json, "arith")), UnmarshalPart(clock, json, "left"), UnmarshalPart(clock, json, "right"))
      case (Some(op), Some(left), Some(right)) => Some(ArithmeticExpr(op, left, right))
      case _ => None
    else if !Has(json, "op") then None
    else if Has(json, "terms") then
      match (Text(Part(json, "op")), UnmarshalList(clock, json, "terms"))
      case (Some(op), Some(terms)) => Some(BoolExpr(op, terms))
      case _ => None
    else
      match (Text(Part(json, "op")), UnmarshalPart(clock, json, "left"), UnmarshalPart(clock, json, "right"))
      case (Some(op), Some(left), Some(right)) => Some(Comparison(op, left, right))
      case _ => None
  }

  function UnmarshalOrders(clock: Clock, items: seq<Json>): Option<seq<Order>> {
    if items == [] then Some([])
    else
      match (UnmarshalPart(clock, items[0], "expr"), Text(Part(items[0], "direction")), UnmarshalOrders(clock, items[1..]))
      case (Some(e), Some(direction), Some(more)) => Some([Order(e, if direction == "" then SORT_ASC else direction)] + more)
      case _ => None
  }

  /** A pointer to an int: absent and null are nil. */
  function Pointer(json: Option<Json>): Option<Option<int>> {
    if json.None? || json == Some(JNull) then Some(None)
    else match Integer(json) case None => None case Some(n) => Some(Some(n))
  }

  function UnmarshalCondition(clock: Clock, json: Json): Option<Option<Expr>> {
    if !Has(json, "where") then Some(None)
    else match UnmarshalPart(clock, json, "where") case None => None case Some(e) => Some(Some(e))
  }

  function UnmarshalOrderBy(clock: Clock, json: Json): Option<seq<Order>> {
    match Items(Part(json, "order_by")) case None => None case Some(items) => UnmarshalOrders(clock, items)
  }

  function UnmarshalQuery(clock: Clock, json: Json): Option<Query> {
    if !json.JObject? && !json.JNull? then None
    else
      match (Text(Part(json, "version")), Text(Part(json, "from")), UnmarshalCondition(clock, json))
      case (Some(version), Some(target), Some(condition)) =>
        (match (UnmarshalOrderBy(clock, json), Pointer(Part(json, "limit")), Pointer(Part(json, "offset")))
         case (Some(orderBy), Some(limit), Some(offset)) => Some(Query(version, target, condition, orderBy, limit, offset))
         case _ => None)
      case _ => None
  }

  // ----- What a round trip settles -----

  function Normal(e: Expr): Expr
    decreases e, 0
  {
    match e
    case BoolExpr(op, terms) => BoolExpr(op, NormalAll(terms))
    case NotExpr(inner) => NotExpr(Normal(inner))
    case Comparison(op, left, right) => Comparison(op, Normal(left), Normal(right))
    case InComparison(left, values) => InComparison(Normal(left), NormalAll(values))
    case BetweenComparison(left, lower, upper) => BetweenComparison(Normal(left), Normal(lower), Normal(upper))
    case NullComparison(left, negated) => NullComparison(Normal(left), negated)
    case RelationPredicate(relationType, direction) => RelationPredicate(relationType, if direction == "" then RELATION_ANY else direction)
    case CastExpr(operand, typ) => CastExpr(Normal(operand), typ)
    case TimestampLiteral(time) => TimestampLiteral(Utc(time))
    case ArithmeticExpr(op, left, right) => ArithmeticExpr(op, Normal(left), Normal(right))
    case _ => e
  }

  function NormalAll(es: seq<Expr>): (r: seq<Expr>)
    ensures |r| == |es|
    decreases es, 0
  {
    if es == [] then [] else [Normal(es[0])] + NormalAll(es[1..])
  }

  function NormalOrders(orders: seq<Order>): (r: seq<Order>)
    ensures |r| == |orders|
  {
    if orders == [] then []
    else [Order(Normal(orders[0].expr), if orders[0].direction == "" then SORT_ASC else orders[0].direction)] + NormalOrders(orders[1..])
  }

  function NormalQuery(q: Query): Query {
    q.(condition := if q.condition.None? then None else Some(Normal(q.condition.value)), orderBy := NormalOrders(q.orderBy))
  }

  // ----- Values the Go types can hold -----

  predicate Int64(n: int) {
    INT64_MIN <= n <= INT64_MAX
  }

  predicate Sized(e: Expr)
    decreases e
  {
    match e
    case BoolExpr(_, terms) => forall i :: 0 <= i < |terms| ==> Sized(terms[i])
    case NotExpr(inner) => Sized(inner)
    case Comparison(_, left, right) => Sized(left) && Sized(right)
    case InComparison(left, values) => Sized(left) && forall i :: 0 <= i < |values| ==> Sized(values[i])
    case BetweenComparison(left, lower, upper) => Sized(left) && Sized(lower) && Sized(upper)
    case NullComparison(left, _) => Sized(left)
    case CastExpr(operand, _) => Sized(operand)
    case IntLiteral(n) => Int64(n)
    case ArithmeticExpr(_, left, right) => Sized(left) && Sized(right)
    case _ => true
  }

  predicate SizedQuery(q: Query) {
    && (q.condition.Some? ==> Sized(q.condition.value))
    && (forall i :: 0 <= i < |q.orderBy| ==> Sized(q.orderBy[i].expr))
    && (q.limit.Some? ==> Int64(q.limit.value)) && (q.offset.Some? ==> Int64(q.offset.value))
  }
}
