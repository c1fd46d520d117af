/** The whole SELECT statement and its arguments, as a value and as the compiler that builds it step by step. */
module SearchStatement {
  import opened Values
  import opened QueryAst
  import opened SqlText
  import opened AttributePath
  import opened PathLiterals
  import opened Compile

  // ----- The statement as a value -----

  function OrderTermSql(names: Names, order: Order, args: seq<Arg>): (code: Option<Code>)
    ensures Appends(args, code)
  {
    match ValueSql(names, order.expr, args)
    case None => None
    case Some(value) => Some(Code(value.text + [Keyword(if order.direction == SORT_DESC then "DESC" else "ASC")], value.args))
  }

  /** The order terms from `done` on, separated by commas. */
  function OrdersSql(names: Names, orders: seq<Order>, code: Code): Option<Code> {
    if orders == [] then Some(code)
    else
      match OrderTermSql(names, orders[0], code.args)
      case None => None
      case Some(term) =>
        OrdersSql(names, orders[1..], Code((if code.text == [] then [] else code.text + [Comma]) + term.text, term.args))
  }

  function PageSql(word: string, count: Option<int>, args: seq<Arg>): Code {
    match count
    case None => Code([], args)
    case Some(n) => Code([Keyword(word), Param(|args| + 1)], args + [IntArg(n)])
  }

  function Clause(word: string, text: seq<Token>): seq<Token> {
    if text == [] then [] else [Keyword(word)] + text
  }

  function StatementSql(names: Names, scope: string, query: Query): Option<Code> {
    if query.target != TARGET_OBJECTS then None
    else
      match WhereSql(names, scope, query.condition)
      case None => None
      case Some(condition) =>
        match OrdersSql(names, query.orderBy, Code([], condition.args))
        case None => None
        case Some(orders) =>
          var limit := PageSql("LIMIT", query.limit, orders.args);
          var offset := PageSql("OFFSET", query.offset, limit.args);
          Some(Code([Keyword("SELECT")] + Clause("WHERE", condition.text) + Clause("ORDER BY", orders.text) + limit.text + offset.text,
                    offset.args))
  }

  // ----- Placeholders and arguments are aligned -----

  function NumberOf(token: Token): seq<nat> {
    match token
    case Param(n) => [n]
    case ExistsRelation(_, n) => [n]
    case BucketIdQuery(n) => [n]
    case _ => []
  }

  function Numbers(text: seq<Token>): seq<nat> {
    if text == [] then [] else NumberOf(text[0]) + Numbers(text[1..])
  }

  function Count(after: nat, upTo: nat): seq<nat>
    requires after <= upTo
  {
    seq(upTo - after, i requires 0 <= i < upTo - after => after + i + 1)
  }

  lemma {:induction false} NumbersJoin(a: seq<Token>, b: seq<Token>)
    ensures Numbers(a + b) == Numbers(a) + Numbers(b)
  {
    if a == [] {
      assert a + b == b;
    } else {
      NumbersJoin(a[1..], b);
      assert (a + b)[1..] == a[1..] + b;
      Grouped(NumberOf(a[0]), Numbers(a[1..]), Numbers(b));
    }
  }

  lemma Grouped(a: seq<nat>, b: seq<nat>, c: seq<nat>)
    ensures a + (b + c) == (a + b) + c
  {
  }

  lemma CountJoin(low: nat, middle: nat, high: nat)
    requires low <= middle <= high
    ensures Count(low, middle) + Count(middle, high) == Count(low, high)
  {
  }

  /** The text uses, left to right, exactly the placeholders of the arguments it adds. */
  predicate Aligned(args: seq<Arg>, code: Code) {
    args <= code.args && Numbers(code.text) == Count(|args|, |code.args|)
  }

  lemma Quiet1(token: Token)
    requires !token.Param? && !token.ExistsRelation? && !token.BucketIdQuery?
    ensures Numbers([token]) == []
  {
    assert [token][1..] == [];
  }

  /** Tokens without placeholders may be put around aligned code. */
  lemma WrapAligned(args: seq<Arg>, before: seq<Token>, code: Code, after: seq<Token>)
    requires Aligned(args, code) && Numbers(before) == [] && Numbers(after) == []
    ensures Aligned(args, Code(before + code.text + after, code.args))
  {
    NumbersJoin(before + code.text, after);
    NumbersJoin(before, code.text);
  }

  lemma JoinAligned(args: seq<Arg>, first: Code, between: seq<Token>, second: Code)
    requires Aligned(args, first) && Aligned(first.args, second) && Numbers(between) == []
    ensures Aligned(args, Code(first.text + between + second.text, second.args))
  {
    NumbersJoin(first.text + between, second.text);
    NumbersJoin(first.text, between);
    CountJoin(|args|, |first.args|, |second.args|);
  }

  lemma AttributeIsQuiet(path: string, typ: string)
    requires AttributeSql(path, typ).Some?
    ensures Numbers(AttributeSql(path, typ).value) == []
  {
    var path' := [AttributesColumn, TextAtPath, PathLiteral(LiteralText(JsonPath(path).value))];
    assert path'[1..] == [TextAtPath, PathLiteral(LiteralText(JsonPath(path).value))];
    assert path'[1..][1..] == [PathLiteral(LiteralText(JsonPath(path).value))];
    Quiet1(PathLiteral(LiteralText(JsonPath(path).value)));
    assert Numbers(path') == [];
    if !Uncast(typ) {
      var cast := [RParen, CastTo(SqlType(typ).value)];
      assert cast[1..] == [CastTo(SqlType(typ).value)];
      Quiet1(CastTo(SqlType(typ).value));
      Quiet1(LParen);
      NumbersJoin([LParen] + path', cast);
      NumbersJoin([LParen], path');
    }
  }

  lemma ValueAligned(names: Names, e: Expr, args: seq<Arg>, code: Code)
    requires ValueSql(names, e, args) == Some(code) || LiteralSql(names, e, args) == Some(code)
    ensures Aligned(args, code)
  {
    if LiteralSql(names, e, args) == Some(code) {
      LiteralAligned(args, LiteralValue(names, e).value);
    } else {
      match e
      case FieldRef(name) => Quiet1(Column(name));
      case AttrRef(path) => AttributeIsQuiet(path, AttrType(names, path));
      case CastExpr(AttrRef(path), typ) => AttributeIsQuiet(path, typ);
    }
  }

  lemma LiteralAligned(args: seq<Arg>, arg: Arg)
    ensures Aligned(args, AddArg(args, arg))
  {
    assert [Param(|args| + 1)][1..] == [];
  }

  lemma {:induction false} ScalarAligned(names: Names, e: Expr, args: seq<Arg>, code: Code)
    requires ScalarSql(names, e, args) == Some(code)
    ensures Aligned(args, code)
  {
    match e
    case NowExpr => Quiet1(NowCall);
    case IntervalLiteral(interval) => Quiet1(Interval(names.parseInterval(interval).value));
    case ArithmeticExpr(op, left, right) =>
      var l := ScalarSql(names, left, args).value;
      var r := ScalarSql(names, right, l.args).value;
      ScalarAligned(names, left, args, l);
      ScalarAligned(names, right, l.args, r);
      SumAligned(args, op, l, r);
    case _ => ValueAligned(names, e, args, code);
  }

  lemma SumAligned(args: seq<Arg>, op: string, l: Code, r: Code)
    requires Aligned(args, l) && Aligned(l.args, r)
    ensures Aligned(args, SumSql(op, l, r))
  {
    var sign := if op == ARITH_SUB then Minus else Plus;
    Quiet1(sign);
    Quiet1(LParen);
    Quiet1(RParen);
    JoinAligned(args, l, [sign], r);
    WrapAligned(args, [LParen], Code(l.text + [sign] + r.text, r.args), [RParen]);
    SumRegroups(l.text, sign, r.text);
  }

  lemma SumRegroups(l: seq<Token>, sign: Token, r: seq<Token>)
    ensures [LParen] + (l + [sign] + r) + [RParen] == [LParen] + l + [sign] + r + [RParen]
  {
    assert [LParen] + (l + [sign] + r) == [LParen] + l + [sign] + r;
  }

  lemma {:induction false} ScalarsAligned(names: Names, es: seq<Expr>, args: seq<Arg>, code: Code)
    requires ScalarsSql(names, es, args) == Some(code)
    ensures Aligned(args, code)
    decreases |es|
  {
    var first := ScalarSql(names, es[0], args).value;
    ScalarAligned(names, es[0], args, first);
    if |es| > 1 {
      var more := ScalarsSql(names, es[1..], first.args).value;
      ScalarsAligned(names, es[1..], first.args, more);
      Quiet1(Comma);
      JoinAligned(args, first, [Comma], more);
    }
  }

  lemma ComparisonAligned(names: Names, op: string, left: Expr, right: Expr, args: seq<Arg>, code: Code)
    requires ComparisonSql(names, op, left, right, args) == Some(code)
    ensures Aligned(args, code)
  {
    var l := ScalarSql(names, left, args).value;
    var r := ScalarSql(names, right, l.args).value;
    ScalarAligned(names, left, args, l);
    ScalarAligned(names, right, l.args, r);
    Quiet1(SqlOperator(op).value);
    JoinAligned(args, l, [SqlOperator(op).value], r);
  }

  lemma MembershipAligned(names: Names, left: Expr, values: seq<Expr>, args: seq<Arg>, code: Code)
    requires MembershipSql(names, left, values, args) == Some(code)
    ensures Aligned(args, code)
  {
    var l := ValueSql(names, left, args).value;
    var v := ScalarsSql(names, values, l.args).value;
    ValueAligned(names, left, args, l);
    ScalarsAligned(names, values, l.args, v);
    ListIsAligned(args, l, v);
  }

  lemma ListIsAligned(args: seq<Arg>, l: Code, v: Code)
    requires Aligned(args, l) && Aligned(l.args, v)
    ensures Aligned(args, Code(l.text + [InWord] + [LParen] + v.text + [RParen], v.args))
  {
    var middle := [InWord] + [LParen];
    Quiet1(InWord);
    Quiet1(LParen);
    Quiet1(RParen);
    NumbersJoin([InWord], [LParen]);
    JoinAligned(args, l, middle, v);
    WrapAligned(args, [], Code(l.text + middle + v.text, v.args), [RParen]);
    ListText(l.text, v.text);
  }

  lemma ListText(l: seq<Token>, v: seq<Token>)
    ensures [] + (l + ([InWord] + [LParen]) + v) + [RParen] == l + [InWord] + [LParen] + v + [RParen]
  {
    assert l + ([InWord] + [LParen]) == l + [InWord] + [LParen];
  }

  lemma BetweenAligned(names: Names, left: Expr, lower: Expr, upper: Expr, args: seq<Arg>, code: Code)
    requires BetweenSql(names, left, lower, upper, args) == Some(code)
    ensures Aligned(args, code)
  {
    var l := ValueSql(names, left, args).value;
    var lo := ScalarSql(names, lower, l.args).value;
    var up := ScalarSql(names, upper, lo.args).value;
    ValueAligned(names, left, args, l);
    ScalarAligned(names, lower, l.args, lo);
    ScalarAligned(names, upper, lo.args, up);
    Quiet1(BetweenWord);
    Quiet1(AndWord);
    JoinAligned(args, l, [BetweenWord], lo);
    JoinAligned(args, Code(l.text + [BetweenWord] + lo.text, lo.args), [AndWord], up);
  }

  lemma NullTestAligned(names: Names, left: Expr, negated: bool, args: seq<Arg>, code: Code)
    requires NullTestSql(names, left, negated, args) == Some(code)
    ensures Aligned(args, code)
  {
    var l := ValueSql(names, left, args).value;
    ValueAligned(names, left, args, l);
    var test := [IsWord] + (if negated then [NotWord] else []) + [NullWord];
    Quiet1(IsWord);
    Quiet1(NotWord);
    Quiet1(NullWord);
    NumbersJoin([IsWord] + (if negated then [NotWord] else []), [NullWord]);
    NumbersJoin([IsWord], if negated then [NotWord] else []);
    WrapAligned(args, [], l, test);
    assert [] + l.text + test == code.text;
  }

  lemma PredicateAligned(names: Names, e: Expr, args: seq<Arg>, code: Code)
    requires PredicateSql(names, e, args) == Some(code)
    ensures Aligned(args, code)
  {
    match e
    case Comparison(op, left, right) => ComparisonAligned(names, op, left, right, args, code);
    case InComparison(left, values) => MembershipAligned(names, left, values, args, code);
    case BetweenComparison(left, lower, upper) => BetweenAligned(names, left, lower, upper, args, code);
    case NullComparison(left, negated) => NullTestAligned(names, left, negated, args, code);
    case RelationPredicate(_, _) => assert code.text[1..] == [];
    case BucketPredicate(_) =>
      var query := [BucketIdQuery(|args| + 1)];
      assert query[1..] == [];
      Quiet1(Column("bucket_id"));
      Quiet1(Compare("="));
      NumbersJoin([Column("bucket_id")], [Compare("=")]);
      NumbersJoin([Column("bucket_id")] + [Compare("=")], query);
      assert code.text == [Column("bucket_id")] + [Compare("=")] + query;
  }

  lemma {:induction false} ExprAligned(names: Names, e: Expr, nested: bool, args: seq<Arg>, code: Code)
    requires ExprSql(names, e, nested, args) == Some(code)
    ensures Aligned(args, code)
    decreases e, 1
  {
    match e
    case BoolExpr(op, terms) =>
      var inner := TermsSql(names, op, terms, args).value;
      TermsAligned(names, op, terms, args, inner);
      Quiet1(LParen);
      Quiet1(RParen);
      WrapAligned(args, [LParen], inner, [RParen]);
    case NotExpr(operand) =>
      var inner := ExprSql(names, operand, true, args).value;
      ExprAligned(names, operand, true, args, inner);
      Quiet1(LParen);
      Quiet1(RParen);
      assert [NotWord, LParen][1..] == [LParen];
      WrapAligned(args, [NotWord, LParen], inner, [RParen]);
    case _ => PredicateAligned(names, e, args, code);
  }

  lemma {:induction false} TermsAligned(names: Names, op: string, terms: seq<Expr>, args: seq<Arg>, code: Code)
    requires TermsSql(names, op, terms, args) == Some(code)
    ensures Aligned(args, code)
    decreases terms, 1
  {
    var first := ExprSql(names, terms[0], true, args).value;
    ExprAligned(names, terms[0], true, args, first);
    if |terms| > 1 {
      var more := TermsSql(names, op, terms[1..], first.args).value;
      TermsAligned(names, op, terms[1..], first.args, more);
      Quiet1(Joiner(op));
      JoinAligned(args, first, [Joiner(op)], more);
    }
  }

  lemma WhereAligned(names: Names, scope: string, condition: Option<Expr>, code: Code)
    requires WhereSql(names, scope, condition) == Some(code)
    ensures Aligned([], code)
  {
    ScopeAligned(scope);
    if condition.Some? {
      var inner := ExprSql(names, condition.value, false, ScopeSql(scope).args).value;
      ExprAligned(names, condition.value, false, ScopeSql(scope).args, inner);
      Quiet1(AndWord);
      JoinAligned([], ScopeSql(scope), [AndWord], inner);
    }
  }

  lemma ScopeAligned(scope: string)
    ensures Aligned([], ScopeSql(scope))
  {
    if scope != "" {
      var text := ScopeSql(scope).text;
      assert text[1..] == [Compare("="), Param(1)] && text[1..][1..] == [Param(1)] && text[1..][1..][1..] == [];
    }
  }

  lemma {:induction false} OrdersAligned(names: Names, orders: seq<Order>, start: seq<Arg>, code: Code, result: Code)
    requires Aligned(start, code) && OrdersSql(names, orders, code) == Some(result)
    ensures Aligned(start, result)
    decreases |orders|
  {
    if orders != [] {
      var value := ValueSql(names, orders[0].expr, code.args).value;
      var term := OrderTermSql(names, orders[0], code.args).value;
      ValueAligned(names, orders[0].expr, code.args, value);
      var direction := Keyword(if orders[0].direction == SORT_DESC then "DESC" else "ASC");
      Quiet1(direction);
      Quiet1(Comma);
      WrapAligned(code.args, [], value, [direction]);
      assert [] + value.text + [direction] == term.text;
      var between := if code.text == [] then [] else [Comma];
      JoinAligned(start, code, between, term);
      var next := Code((if code.text == [] then [] else code.text + [Comma]) + term.text, term.args);
      assert next.text == code.text + between + term.text;
      OrdersAligned(names, orders[1..], start, next, result);
    }
  }

  lemma ClauseAligned(word: string, args: seq<Arg>, code: Code)
    requires Aligned(args, code)
    ensures Aligned(args, Code(Clause(word, code.text), code.args))
  {
    Quiet1(Keyword(word));
    WrapAligned(args, [Keyword(word)], code, []);
    assert [Keyword(word)] + code.text + [] == [Keyword(word)] + code.text;
  }

  lemma PageAligned(word: string, count: Option<int>, args: seq<Arg>)
    ensures Aligned(args, PageSql(word, count, args))
  {
    if count.Some? {
      Quiet1(Keyword(word));
      LiteralAligned(args, IntArg(count.value));
      WrapAligned(args, [Keyword(word)], AddArg(args, IntArg(count.value)), []);
      assert [Keyword(word)] + [Param(|args| + 1)] + [] == [Keyword(word), Param(|args| + 1)];
    }
  }

  /** Placeholders of the whole statement, left to right, are $1 up to the number of arguments. */
  lemma PlaceholdersAlign(names: Names, scope: string, query: Query)
    requires StatementSql(names, scope, query).Some?
    ensures var code := StatementSql(names, scope, query).value;
      Numbers(code.text) == seq(|code.args|, i requires 0 <= i < |code.args| => i + 1)
  {
    var condition := WhereSql(names, scope, query.condition).value;
    var orders := OrdersSql(names, query.orderBy, Code([], condition.args)).value;
    WhereAligned(names, scope, query.condition, condition);
    OrdersAligned(names, query.orderBy, condition.args, Code([], condition.args), orders);
    ClausesAlign(condition, orders, query.limit, query.offset);
  }

  lemma ClausesAlign(condition: Code, orders: Code, limit: Option<int>, offset: Option<int>)
    requires Aligned([], condition) && Aligned(condition.args, orders)
    ensures var l := PageSql("LIMIT", limit, orders.args); var o := PageSql("OFFSET", offset, l.args);
      Aligned([], Code([Keyword("SELECT")] + Clause("WHERE", condition.text) + Clause("ORDER BY", orders.text) + l.text + o.text, o.args))
  {
    var l := PageSql("LIMIT", limit, orders.args);
    var o := PageSql("OFFSET", offset, l.args);
    PageAligned("LIMIT", limit, orders.args);
    PageAligned("OFFSET", offset, l.args);
    ClauseAligned("WHERE", [], condition);
    ClauseAligned("ORDER BY", condition.args, orders);
    Quiet1(Keyword("SELECT"));
    var a := Code([Keyword("SELECT")] + Clause("WHERE", condition.text), condition.args);
    WrapAligned([], [Keyword("SELECT")], Code(Clause("WHERE", condition.text), condition.args), []);
    assert a.text == [Keyword("SELECT")] + Clause("WHERE", condition.text) + [];
    AppendAligned([], a, Code(Clause("ORDER BY", orders.text), orders.args));
    AppendAligned([], Code(a.text + Clause("ORDER BY", orders.text), orders.args), l);
    AppendAligned([], Code(a.text + Clause("ORDER BY", orders.text) + l.text, l.args), o);
  }

  lemma AppendAligned(args: seq<Arg>, first: Code, second: Code)
    requires Aligned(args, first) && Aligned(first.args, second)
    ensures Aligned(args, Code(first.text + second.text, second.args))
  {
    JoinAligned(args, first, [], second);
    assert first.text + [] + second.text == first.text + second.text;
  }

  // ----- The compiler -----

  /** compileContext: the argument list grows while the text is built. */
  class Compiler {
    const names: Names
    var args: seq<Arg>

    constructor (names: Names)
      ensures this.names == names && args == []
    {
      this.names := names;
      args := [];
    }

    /** What every step promises: the specified text, and the arguments appended in the specified order. */
    predicate Did(text: Option<seq<Token>>, code: Option<Code>)
      reads this
    {
      match code
      case None => text.None?
      case Some(c) => text == Some(c.text) && args == c.args
    }

    method AddArgument(arg: Arg) returns (number: nat)
      modifies `args
      ensures args == old(args) + [arg] && number == |args|
    {
      args := args + [arg];
      number := |args|;
    }

    method CompileLiteral(e: Expr) returns (text: Option<seq<Token>>)
      modifies `args
      ensures Did(text, LiteralSql(names, e, old(args)))
    {
      match LiteralValue(names, e)
      case None => text := None;
      case Some(arg) =>
        var number := AddArgument(arg);
        text := Some([Param(number)]);
    }

    method CompileValue(e: Expr) returns (text: Option<seq<Token>>)
      modifies `args
      ensures Did(text, ValueSql(names, e, old(args)))
    {
      match e
      case FieldRef(name) => text := if IsObjectField(name) then Some([Column(name)]) else None;
      case AttrRef(path) => text := AttributeSql(path, AttrType(names, path));
      case CastExpr(AttrRef(path), typ) => text := AttributeSql(path, typ);
      case CastExpr(StringLiteral(_), _) => text := CompileLiteral(e);
      case _ => text := None;
    }

    method CompileScalar(e: Expr) returns (text: Option<seq<Token>>)
      modifies `args
      ensures Did(text, ScalarSql(names, e, old(args)))
      decreases e
    {
      match e
      case NowExpr => text := Some([NowCall]);
      case IntervalLiteral(interval) =>
        var parsed := names.parseInterval(interval);
        text := if parsed.Some? then Some([Interval(parsed.value)]) else None;
      case ArithmeticExpr(op, left, right) =>
        var l := CompileScalar(left);
        if l.None? {
          return None;
        }
        var r := CompileScalar(right);
        if r.None? {
          return None;
        }
        text := Some([LParen] + l.value + [if op == ARITH_SUB then Minus else Plus] + r.value + [RParen]);
      case FieldRef(_) => text := CompileValue(e);
      case AttrRef(_) => text := CompileValue(e);
      case CastExpr(AttrRef(_), _) => text := CompileValue(e);
      case _ => text := CompileLiteral(e);
    }

    method CompileScalars(es: seq<Expr>) returns (text: Option<seq<Token>>)
      modifies `args
      ensures Did(text, ScalarsSql(names, es, old(args)))
    {
      if |es| == 0 {
        return None;
      }
      var joined := [];
      for i := 0 to |es|
        invariant i == 0 ==> args == old(args)
        invariant 0 < i ==> ScalarsSql(names, es, old(args)) == Resumed(Comma, Code(joined, args), RestOfScalars(es[i..], args))
      {
        var one := CompileScalar(es[i]);
        if one.None? {
          return None;
        }
        assert es[i..][1..] == es[i + 1..] && (i == 0 ==> es[i..] == es);
        ListRegroups(joined, Comma, one.value, ScalarsSql(names, es[i + 1..], args));
        joined := if i == 0 then one.value else joined + [Comma] + one.value;
      }
      assert es[|es|..] == [];
      text := Some(joined);
    }

    function RestOfScalars(es: seq<Expr>, args: seq<Arg>): Option<Option<Code>> {
      if es == [] then None else Some(ScalarsSql(names, es, args))
    }

    /** What a list compiles to when its first elements already did, and `rest` is what remains of it. */
    function Resumed(between: Token, sofar: Code, rest: Option<Option<Code>>): Option<Code> {
      match rest
      case None => Some(sofar)
      case Some(None) => None
      case Some(Some(more)) => Some(Code(sofar.text + [between] + more.text, more.args))
    }

    lemma ListRegroups(sofar: seq<Token>, between: Token, one: seq<Token>, rest: Option<Code>)
      ensures rest.Some? ==>
        sofar + [between] + (one + [between] + rest.value.text) == sofar + [between] + one + [between] + rest.value.text
    {
      if rest.Some? {
        Regroup3(one, [between], rest.value.text, []);
        Regroup5(sofar, [between], one, [between], rest.value.text, []);
      }
    }

    method CompilePredicate(e: Expr) returns (text: Option<seq<Token>>)
      modifies `args
      ensures Did(text, PredicateSql(names, e, old(args)))
    {
      match e
      case Comparison(op, left, right) => text := CompileComparison(op, left, right);
      case InComparison(left, values) => text := CompileMembership(left, values);
      case BetweenComparison(left, lower, upper) => text := CompileBetween(left, lower, upper);
      case NullComparison(left, negated) =>
        var l := CompileValue(left);
        text := if l.None? then None else Some(l.value + ([IsWord] + (if negated then [NotWord] else []) + [NullWord]));
      case RelationPredicate(relationType, direction) =>
        var number := AddArgument(TextArg(relationType));
        text := if direction in {RELATION_ANY, RELATION_OUT, RELATION_IN} then Some([ExistsRelation(direction, number)]) else None;
      case BucketPredicate(name) =>
        var number := AddArgument(TextArg(name));
        text := Some([Column("bucket_id"), Compare("="), BucketIdQuery(number)]);
      case _ => text := None;
    }

    method CompileComparison(op: string, left: Expr, right: Expr) returns (text: Option<seq<Token>>)
      modifies `args
      ensures Did(text, ComparisonSql(names, op, left, right, old(args)))
    {
      var l := CompileScalar(left);
      if l.None? {
        return None;
      }
      var r := CompileScalar(right);
      if r.None? {
        return None;
      }
      var operator := SqlOperator(op);
      text := if operator.None? then None else Some(l.value + [operator.value] + r.value);
    }

    method CompileMembership(left: Expr, values: seq<Expr>) returns (text: Option<seq<Token>>)
      modifies `args
      ensures Did(text, MembershipSql(names, left, values, old(args)))
    {
      var l := CompileValue(left);
      if l.None? {
        return None;
      }
      var v := CompileScalars(values);
      text := if v.None? then None else Some(l.value + [InWord] + [LParen] + v.value + [RParen]);
    }

    method CompileBetween(left: Expr, lower: Expr, upper: Expr) returns (text: Option<seq<Token>>)
      modifies `args
      ensures Did(text, BetweenSql(names, left, lower, upper, old(args)))
    {
      var l := CompileValue(left);
      if l.None? {
        return None;
      }
      var lo := CompileScalar(lower);
      if lo.None? {
        return None;
      }
      var up := CompileScalar(upper);
      text := if up.None? then None else Some(l.value + [BetweenWord] + lo.value + [AndWord] + up.value);
    }

    method CompileExpr(e: Expr, nested: bool) returns (text: Option<seq<Token>>)
      modifies `args
      ensures Did(text, ExprSql(names, e, nested, old(args)))
      decreases e, 0
    {
      match e
      case BoolExpr(op, terms) =>
        var joined := CompileTerms(op, terms);
        text := if joined.Some? && nested && |terms| > 1 then Some([LParen] + joined.value + [RParen]) else joined;
      case NotExpr(operand) =>
        var inner := CompileExpr(operand, true);
        text := if inner.None? then None else Some([NotWord, LParen] + inner.value + [RParen]);
      case _ => text := CompilePredicate(e);
    }

    function RestOfTerms(op: string, terms: seq<Expr>, args: seq<Arg>): Option<Option<Code>> {
      if terms == [] then None else Some(TermsSql(names, op, terms, args))
    }

    method CompileTerms(op: string, terms: seq<Expr>) returns (text: Option<seq<Token>>)
      modifies `args
      ensures Did(text, TermsSql(names, op, terms, old(args)))
      decreases terms, 0
    {
      if |terms| == 0 {
        return None;
      }
      var joined := [];
      for i := 0 to |terms|
        invariant i == 0 ==> args == old(args)
        invariant 0 < i ==> TermsSql(names, op, terms, old(args)) == Resumed(Joiner(op), Code(joined, args), RestOfTerms(op, terms[i..], args))
      {
        var term := CompileExpr(terms[i], true);
        if term.None? {
          return None;
        }
        assert terms[i..][1..] == terms[i + 1..] && (i == 0 ==> terms[i..] == terms);
        ListRegroups(joined, Joiner(op), term.value, TermsSql(names, op, terms[i + 1..], args));
        joined := if i == 0 then term.value else joined + [Joiner(op)] + term.value;
      }
      assert terms[|terms|..] == [];
      text := Some(joined);
    }

    method CompileOrders(orders: seq<Order>) returns (text: Option<seq<Token>>)
      modifies `args
      ensures Did(text, OrdersSql(names, orders, Code([], old(args))))
    {
      var joined := [];
      for i := 0 to |orders|
        invariant OrdersSql(names, orders, Code([], old(args))) == OrdersSql(names, orders[i..], Code(joined, args))
      {
        var value := CompileValue(orders[i].expr);
        if value.None? {
          return None;
        }
        assert orders[i..][1..] == orders[i + 1..];
        joined := (if joined == [] then [] else joined + [Comma]) +
          (value.value + [Keyword(if orders[i].direction == SORT_DESC then "DESC" else "ASC")]);
      }
      text := Some(joined);
    }

    method CompilePage(word: string, count: Option<int>) returns (text: seq<Token>)
      modifies `args
      ensures text == PageSql(word, count, old(args)).text && args == PageSql(word, count, old(args)).args
    {
      match count
      case None => text := [];
      case Some(n) =>
        var number := AddArgument(IntArg(n));
        text := [Keyword(word), Param(number)];
    }

    method CompileWhere(scope: string, condition: Option<Expr>) returns (text: Option<seq<Token>>)
      requires args == []
      modifies `args
      ensures Did(text, WhereSql(names, scope, condition))
    {
      var bound := [];
      if scope != "" {
        var number := AddArgument(TextArg(scope));
        bound := [Column("bucket_id"), Compare("="), Param(number)];
      }
      assert bound == ScopeSql(scope).text && args == ScopeSql(scope).args;
      match condition
      case None => text := Some(bound);
      case Some(e) =>
        var inner := CompileExpr(e, false);
        text := if inner.None? then None else Some(if scope == "" then inner.value else bound + [AndWord] + inner.value);
    }

    /** CompileObjectsSearch. */
    method CompileSearch(scope: string, query: Query) returns (text: Option<seq<Token>>)
      requires args == []
      modifies `args
      ensures Did(text, StatementSql(names, scope, query))
    {
      if query.target != TARGET_OBJECTS {
        return None;
      }
      var condition := CompileWhere(scope, query.condition);
      if condition.None? {
        return None;
      }
      var orders := CompileOrders(query.orderBy);
      if orders.None? {
        return None;
      }
      var limit := CompilePage("LIMIT", query.limit);
      var offset := CompilePage("OFFSET", query.offset);
      text := Some([Keyword("SELECT")] + Clause("WHERE", condition.value) + Clause("ORDER BY", orders.value) + limit + offset);
    }
  }
}
