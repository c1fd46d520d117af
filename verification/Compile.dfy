/** Compilation of bound PithosysQL conditions into parameterised SQL. */
module Compile {
  import opened Values
  import opened QueryAst
  import opened SqlText
  import opened AttributePath
  import opened PathLiterals

  /** Attribute types the binder resolved, and the text parsers whose details are left open. */
  datatype Names = Names(
    attrTypes: map<string, string>,
    parseTime: string -> Option<int>,
    parseInterval: string -> Option<string>)

  datatype Code = Code(text: seq<Token>, args: seq<Arg>)

  /** addArg: the next placeholder, and the arguments with the new one. */
  function AddArg(args: seq<Arg>, arg: Arg): Code {
    Code([Param(|args| + 1)], args + [arg])
  }

  predicate IsObjectField(name: string) {
    name in {"id", "bucket_id", "key", "created_at", "updated_at"}
  }

  function SqlOperator(op: string): Option<Token> {
    if op == "eq" then Some(Compare("="))
    else if op == "neq" then Some(Compare("<>"))
    else if op == "lt" then Some(Compare("<"))
    else if op == "lte" then Some(Compare("<="))
    else if op == "gt" then Some(Compare(">"))
    else if op == "gte" then Some(Compare(">="))
    else if op == "like" then Some(LikeWord("LIKE"))
    else if op == "ilike" then Some(LikeWord("ILIKE"))
    else None
  }

  predicate Uncast(typ: string) {
    typ == TYPE_STRING || typ == TYPE_UNKNOWN
  }

  function SqlType(typ: string): Option<string> {
    if typ == TYPE_INTEGER then Some("bigint")
    else if typ == TYPE_FLOAT then Some("double precision")
    else if typ == TYPE_BOOLEAN then Some("boolean")
    else if typ == TYPE_TIMESTAMP then Some("timestamptz")
    else None
  }

  /** Compiling only ever appends arguments. */
  predicate Appends(args: seq<Arg>, code: Option<Code>) {
    code.Some? ==> args <= code.value.args
  }

  /** Code for a value never starts with NOT. */
  predicate StartsPlain(code: Option<Code>) {
    code.Some? ==> code.value.text != [] && code.value.text[0] != NotWord
  }

  function AttributeSql(path: string, typ: string): (text: Option<seq<Token>>)
    ensures text.Some? ==> text.value != [] && text.value[0] != NotWord
  {
    match JsonPath(path)
    case None => None
    case Some(parts) =>
      var text := [AttributesColumn, TextAtPath, PathLiteral(LiteralText(parts))];
      if Uncast(typ) then Some(text)
      else
        match SqlType(typ)
        case None => None
        case Some(name) => Some([LParen] + text + [RParen, CastTo(name)])
  }

  /** Code that takes no argument. */
  function Bare(text: Option<seq<Token>>, args: seq<Arg>): Option<Code> {
    match text case Some(tokens) => Some(Code(tokens, args)) case None => None
  }

  function AttrType(names: Names, path: string): string {
    if path in names.attrTypes then names.attrTypes[path] else TYPE_UNKNOWN
  }

  function LiteralValue(names: Names, e: Expr): Option<Arg> {
    match e
    case CastExpr(StringLiteral(text), typ) =>
      if typ != TYPE_TIMESTAMP then None
      else (match names.parseTime(text) case Some(instant) => Some(TimeArg(instant)) case None => None)
    case StringLiteral(text) => Some(TextArg(text))
    case IntLiteral(n) => Some(IntArg(n))
    case FloatLiteral(x) => Some(FloatArg(x))
    case BoolLiteral(b) => Some(BoolArg(b))
    case TimestampLiteral(time) => Some(TimeArg(time.instant))
    case _ => None
  }

  function LiteralSql(names: Names, e: Expr, args: seq<Arg>): (code: Option<Code>)
    ensures StartsPlain(code) && Appends(args, code)
  {
    match LiteralValue(names, e)
    case Some(arg) => Some(AddArg(args, arg))
    case None => None
  }

  /** compileValueExpr: a field, an attribute, or a cast of an attribute or of a timestamp string. */
  function ValueSql(names: Names, e: Expr, args: seq<Arg>): (code: Option<Code>)
    ensures StartsPlain(code) && Appends(args, code)
  {
    match e
    case FieldRef(name) => if IsObjectField(name) then Some(Code([Column(name)], args)) else None
    case AttrRef(path) => Bare(AttributeSql(path, AttrType(names, path)), args)
    case CastExpr(AttrRef(path), typ) => Bare(AttributeSql(path, typ), args)
    case CastExpr(StringLiteral(_), _) => LiteralSql(names, e, args)
    case _ => None
  }

  function SumSql(op: string, l: Code, r: Code): Code {
    Code([LParen] + l.text + [if op == ARITH_SUB then Minus else Plus] + r.text + [RParen], r.args)
  }

  function ScalarSql(names: Names, e: Expr, args: seq<Arg>): (code: Option<Code>)
    ensures StartsPlain(code) && Appends(args, code)
  {
    match e
    case NowExpr => Some(Code([NowCall], args))
    case IntervalLiteral(interval) =>
      (match names.parseInterval(interval) case Some(text) => Some(Code([Interval(text)], args)) case None => None)
    case ArithmeticExpr(op, left, right) =>
      (match ScalarSql(names, left, args)
       case None => None
       case Some(l) => match ScalarSql(names, right, l.args) case None => None case Some(r) => Some(SumSql(op, l, r)))
    case FieldRef(_) => ValueSql(names, e, args)
    case AttrRef(_) => ValueSql(names, e, args)
    case CastExpr(AttrRef(_), _) => ValueSql(names, e, args)
    case _ => LiteralSql(names, e, args)
  }

  function ScalarsSql(names: Names, es: seq<Expr>, args: seq<Arg>): (code: Option<Code>)
    ensures Appends(args, code)
  {
    if es == [] then None
    else
      match ScalarSql(names, es[0], args)
      case None => None
      case Some(first) =>
        if |es| == 1 then Some(first)
        else
          match ScalarsSql(names, es[1..], first.args)
          case None => None
          case Some(more) => Some(Code(first.text + [Comma] + more.text, more.args))
  }

  function ComparisonSql(names: Names, op: string, left: Expr, right: Expr, args: seq<Arg>): (code: Option<Code>)
    ensures Appends(args, code)
  {
    match ScalarSql(names, left, args)
    case None => None
    case Some(l) =>
      match ScalarSql(names, right, l.args)
      case None => None
      case Some(r) =>
        match SqlOperator(op)
        case None => None
        case Some(token) => Some(Code(l.text + [token] + r.text, r.args))
  }

  function MembershipSql(names: Names, left: Expr, values: seq<Expr>, args: seq<Arg>): (code: Option<Code>)
    ensures Appends(args, code)
  {
    match ValueSql(names, left, args)
    case None => None
    case Some(l) =>
      match ScalarsSql(names, values, l.args)
      case None => None
      case Some(v) => Some(Code(l.text + [InWord] + [LParen] + v.text + [RParen], v.args))
  }

  function BetweenSql(names: Names, left: Expr, lower: Expr, upper: Expr, args: seq<Arg>): (code: Option<Code>)
    ensures Appends(args, code)
  {
    match ValueSql(names, left, args)
    case None => None
    case Some(l) =>
      match ScalarSql(names, lower, l.args)
      case None => None
      case Some(lo) =>
        match ScalarSql(names, upper, lo.args)
        case None => None
        case Some(up) => Some(Code(l.text + [BetweenWord] + lo.text + [AndWord] + up.text, up.args))
  }

  function NullTestSql(names: Names, left: Expr, negated: bool, args: seq<Arg>): (code: Option<Code>)
    ensures Appends(args, code)
  {
    match ValueSql(names, left, args)
    case None => None
    case Some(l) => Some(Code(l.text + ([IsWord] + (if negated then [NotWord] else []) + [NullWord]), l.args))
  }

  /** The conditions without conditions inside them. */
  function PredicateSql(names: Names, e: Expr, args: seq<Arg>): (code: Option<Code>)
    ensures Appends(args, code)
  {
    match e
    case Comparison(op, left, right) => ComparisonSql(names, op, left, right, args)
    case InComparison(left, values) => MembershipSql(names, left, values, args)
    case BetweenComparison(left, lower, upper) => BetweenSql(names, left, lower, upper, args)
    case NullComparison(left, negated) => NullTestSql(names, left, negated, args)
    case RelationPredicate(relationType, direction) =>
      if direction in {RELATION_ANY, RELATION_OUT, RELATION_IN}
      then Some(Code([ExistsRelation(direction, |args| + 1)], args + [TextArg(relationType)])) else None
    case BucketPredicate(name) =>
      Some(Code([Column("bucket_id"), Compare("="), BucketIdQuery(|args| + 1)], args + [TextArg(name)]))
    case _ => None
  }

  /** compileExprNested. */
  function ExprSql(names: Names, e: Expr, nested: bool, args: seq<Arg>): (code: Option<Code>)
    ensures Appends(args, code)
    decreases e, 0
  {
    match e
    case BoolExpr(op, terms) =>
      (match TermsSql(names, op, terms, args)
       case None => None
       case Some(code) =>
         if nested && |terms| > 1 then Some(Code([LParen] + code.text + [RParen], code.args)) else Some(code))
    case NotExpr(inner) =>
      (match ExprSql(names, inner, true, args)
       case None => None
       case Some(code) => Some(Code([NotWord, LParen] + code.text + [RParen], code.args)))
    case _ => PredicateSql(names, e, args)
  }

  function Joiner(op: string): Token {
    if op == BOOL_OR then OrWord else AndWord
  }

  function TermsSql(names: Names, op: string, terms: seq<Expr>, args: seq<Arg>): (code: Option<Code>)
    ensures Appends(args, code)
    decreases terms, 0
  {
    if terms == [] then None
    else
      match ExprSql(names, terms[0], true, args)
      case None => None
      case Some(first) =>
        if |terms| == 1 then Some(first)
        else
          match TermsSql(names, op, terms[1..], first.args)
          case None => None
          case Some(more) => Some(Code(first.text + [Joiner(op)] + more.text, more.args))
  }

  /** The scope test: objects.bucket_id = $1, or nothing. */
  function ScopeSql(scope: string): Code {
    if scope == "" then Code([], []) else Code([Column("bucket_id"), Compare("="), Param(1)], [TextArg(scope)])
  }

  /** The WHERE clause: the scope test, if any, joined to the condition, if any, with AND. */
  function WhereSql(names: Names, scope: string, condition: Option<Expr>): Option<Code> {
    match condition
    case None => Some(ScopeSql(scope))
    case Some(e) =>
      match ExprSql(names, e, false, ScopeSql(scope).args)
      case None => None
      case Some(code) =>
        Some(Code(if scope == "" then code.text else ScopeSql(scope).text + [AndWord] + code.text, code.args))
  }

  // ----- Meaning -----

  // The meaning has its own tables of types, literals and operators.

  /** The SQL type an attribute's text is converted to before it is compared; none for texts and unknown types. */
  function Conversion(typ: string): Option<string> {
    match typ
    case "integer" => Some("bigint")
    case "float" => Some("double precision")
    case "boolean" => Some("boolean")
    case "timestamp" => Some("timestamptz")
    case _ => None
  }

  function AttributeValue(w: World, path: string, typ: string): Datum {
    match JsonPath(path)
    case None => NullDatum
    case Some(parts) =>
      match Conversion(typ)
      case Some(name) => w.convert(name, w.attribute(parts))
      case None => w.attribute(parts)
  }

  function ScalarMeaning(w: World, names: Names, e: Expr): Datum {
    match e
    case FieldRef(name) => w.column(name)
    case AttrRef(path) => AttributeValue(w, path, AttrType(names, path))
    case CastExpr(AttrRef(path), typ) => AttributeValue(w, path, typ)
    case NowExpr => w.now
    case IntervalLiteral(interval) =>
      (match names.parseInterval(interval) case Some(text) => w.interval(text) case None => NullDatum)
    case ArithmeticExpr(op, left, right) =>
      w.add(op == ARITH_SUB, ScalarMeaning(w, names, left), ScalarMeaning(w, names, right))
    case StringLiteral(text) => w.bind(TextArg(text))
    case IntLiteral(n) => w.bind(IntArg(n))
    case FloatLiteral(x) => w.bind(FloatArg(x))
    case BoolLiteral(b) => w.bind(BoolArg(b))
    case TimestampLiteral(time) => w.bind(TimeArg(time.instant))
    case CastExpr(StringLiteral(text), _) =>
      (match names.parseTime(text) case Some(instant) => w.bind(TimeArg(instant)) case None => NullDatum)
    case _ => NullDatum
  }

  function MemberMeaning(w: World, names: Names, datum: Datum, values: seq<Expr>): Truth {
    if values == [] then False
    else Or3(w.compare("=", datum, ScalarMeaning(w, names, values[0])), MemberMeaning(w, names, datum, values[1..]))
  }

  function OperatorName(op: string): string {
    match op
    case "eq" => "="
    case "neq" => "<>"
    case "lt" => "<"
    case "lte" => "<="
    case "gt" => ">"
    case "gte" => ">="
    case "like" => "LIKE"
    case "ilike" => "ILIKE"
    case _ => ""
  }

  function PredicateMeaning(w: World, names: Names, e: Expr): Truth {
    match e
    case Comparison(op, left, right) =>
      w.compare(OperatorName(op), ScalarMeaning(w, names, left), ScalarMeaning(w, names, right))
    case InComparison(left, values) => MemberMeaning(w, names, ScalarMeaning(w, names, left), values)
    case BetweenComparison(left, lower, upper) =>
      And3(w.compare(">=", ScalarMeaning(w, names, left), ScalarMeaning(w, names, lower)),
           w.compare("<=", ScalarMeaning(w, names, left), ScalarMeaning(w, names, upper)))
    case NullComparison(left, negated) => OfBool((ScalarMeaning(w, names, left) == NullDatum) != negated)
    case RelationPredicate(relationType, direction) => OfBool(w.related(direction, TextArg(relationType)))
    case BucketPredicate(name) => w.compare("=", w.column("bucket_id"), w.bucketId(TextArg(name)))
    case _ => Unknown
  }

  /** What a condition says of a row, directly on the syntax tree. */
  function Meaning(w: World, names: Names, e: Expr): Truth
    decreases e, 0
  {
    match e
    case BoolExpr(op, terms) => TermsMeaning(w, names, op, terms)
    case NotExpr(inner) => Not3(Meaning(w, names, inner))
    case _ => PredicateMeaning(w, names, e)
  }

  function Combine(op: string, a: Truth, b: Truth): Truth {
    if op == BOOL_OR then Or3(a, b) else And3(a, b)
  }

  function TermsMeaning(w: World, names: Names, op: string, terms: seq<Expr>): Truth
    decreases terms, 0
  {
    if terms == [] then Unknown
    else if |terms| == 1 then Meaning(w, names, terms[0])
    else Combine(op, Meaning(w, names, terms[0]), TermsMeaning(w, names, op, terms[1..]))
  }

  function ScopeMeaning(w: World, scope: string): Truth {
    if scope == "" then True else w.compare("=", w.column("bucket_id"), w.bind(TextArg(scope)))
  }
}
