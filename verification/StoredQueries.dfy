/** A stored query, read back, binds and compiles as the original did. */
module StoredQueries {
  import opened Values
  import opened QueryAst
  import opened QueryJson
  import opened QueryJsonTheorems
  import C = Compile
  import S = SearchStatement
  import B = Bind
  import Binder

  lemma NormalEach(es: seq<Expr>)
    requires es != []
    ensures NormalAll(es)[0] == Normal(es[0]) && NormalAll(es)[1..] == NormalAll(es[1..])
  {
  }

  // ----- Compilation -----

  lemma {:induction false} SameScalar(names: C.Names, e: Expr, args: seq<C.SqlText.Arg>)
    ensures C.ScalarSql(names, Normal(e), args) == C.ScalarSql(names, e, args)
  {
    match e
    case ArithmeticExpr(_, left, right) =>
      SameScalar(names, left, args);
      var l := C.ScalarSql(names, left, args);
      if l.Some? {
        SameScalar(names, right, l.value.args);
      }
    case _ =>
  }

  lemma SameValue(names: C.Names, e: Expr, args: seq<C.SqlText.Arg>)
    ensures C.ValueSql(names, Normal(e), args) == C.ValueSql(names, e, args)
  {
  }

  lemma {:induction false} SameScalars(names: C.Names, es: seq<Expr>, args: seq<C.SqlText.Arg>)
    ensures C.ScalarsSql(names, NormalAll(es), args) == C.ScalarsSql(names, es, args)
    decreases |es|
  {
    if es != [] {
      NormalEach(es);
      SameScalar(names, es[0], args);
      var first := C.ScalarSql(names, es[0], args);
      if first.Some? && |es| > 1 {
        SameScalars(names, es[1..], first.value.args);
      }
    }
  }

  lemma SamePredicate(names: C.Names, e: Expr, args: seq<C.SqlText.Arg>)
    requires C.PredicateSql(names, e, args).Some?
    ensures C.PredicateSql(names, Normal(e), args) == C.PredicateSql(names, e, args)
  {
    match e
    case Comparison(_, left, right) =>
      SameScalar(names, left, args);
      SameScalar(names, right, C.ScalarSql(names, left, args).value.args);
    case InComparison(left, values) =>
      SameValue(names, left, args);
      SameScalars(names, values, C.ValueSql(names, left, args).value.args);
    case BetweenComparison(left, lower, upper) =>
      SameValue(names, left, args);
      var l := C.ValueSql(names, left, args).value;
      SameScalar(names, lower, l.args);
      SameScalar(names, upper, C.ScalarSql(names, lower, l.args).value.args);
    case NullComparison(left, _) => SameValue(names, left, args);
    case _ =>
  }

  lemma {:induction false} SameExpr(names: C.Names, e: Expr, nested: bool, args: seq<C.SqlText.Arg>)
    requires C.ExprSql(names, e, nested, args).Some?
    ensures C.ExprSql(names, Normal(e), nested, args) == C.ExprSql(names, e, nested, args)
    decreases e, 1
  {
    match e
    case BoolExpr(op, terms) => SameTerms(names, op, terms, args);
    case NotExpr(inner) => SameExpr(names, inner, true, args);
    case _ => SamePredicate(names, e, args);
  }

  lemma {:induction false} SameTerms(names: C.Names, op: string, terms: seq<Expr>, args: seq<C.SqlText.Arg>)
    requires C.TermsSql(names, op, terms, args).Some?
    ensures C.TermsSql(names, op, NormalAll(terms), args) == C.TermsSql(names, op, terms, args)
    decreases terms, 1
  {
    NormalEach(terms);
    SameExpr(names, terms[0], true, args);
    if |terms| > 1 {
      SameTerms(names, op, terms[1..], C.ExprSql(names, terms[0], true, args).value.args);
    }
  }

  lemma {:induction false} SameOrders(names: C.Names, orders: seq<Order>, code: C.Code)
    ensures S.OrdersSql(names, NormalOrders(orders), code) == S.OrdersSql(names, orders, code)
    decreases |orders|
  {
    if orders != [] {
      SameValue(names, orders[0].expr, code.args);
      assert NormalOrders(orders)[1..] == NormalOrders(orders[1..]);
      var term := S.OrderTermSql(names, orders[0], code.args);
      assert S.OrderTermSql(names, NormalOrders(orders)[0], code.args) == term;
      if term.Some? {
        SameOrders(names, orders[1..],
                   C.Code((if code.text == [] then [] else code.text + [C.SqlText.Comma]) + term.value.text, term.value.args));
      }
    }
  }

  lemma SameStatement(names: C.Names, scope: string, q: Query)
    requires S.StatementSql(names, scope, q).Some?
    ensures S.StatementSql(names, scope, NormalQuery(q)) == S.StatementSql(names, scope, q)
  {
    if q.condition.Some? {
      SameExpr(names, q.condition.value, false, C.ScopeSql(scope).args);
    }
    var condition := C.WhereSql(names, scope, q.condition).value;
    SameOrders(names, q.orderBy, C.Code([], condition.args));
  }

  // ----- Binding -----

  lemma {:induction false} SameType(registry: B.Registry, target: string, e: Expr, deps: seq<B.Dependency>)
    ensures B.ExprType(registry, target, Normal(e), deps) == B.ExprType(registry, target, e, deps)
    decreases e, 1
  {
    match e
    case CastExpr(operand, _) => SameBinding(registry, target, operand, deps);
    case ArithmeticExpr(_, left, right) =>
      SameType(registry, target, left, deps);
      var l := B.ExprType(registry, target, left, deps);
      if l.Some? {
        SameType(registry, target, right, l.value.deps);
      }
    case FieldRef(_) =>
    case AttrRef(_) =>
    case StringLiteral(_) =>
    case IntLiteral(_) =>
    case FloatLiteral(_) =>
    case BoolLiteral(_) =>
    case TimestampLiteral(_) =>
    case NowExpr =>
    case IntervalLiteral(_) =>
    case NullLiteral =>
    case _ => SameBinding(registry, target, e, deps);
  }

  lemma {:induction false} SameBinding(registry: B.Registry, target: string, e: Expr, deps: seq<B.Dependency>)
    ensures B.BindExpr(registry, target, Normal(e), deps) == B.BindExpr(registry, target, e, deps)
    decreases e, 0
  {
    match e
    case BoolExpr(_, terms) => SameBindings(registry, target, terms, deps);
    case NotExpr(inner) => SameBinding(registry, target, inner, deps);
    case Comparison(_, left, right) =>
      SameType(registry, target, left, deps);
      var l := B.ExprType(registry, target, left, deps);
      if l.Some? {
        SameType(registry, target, right, l.value.deps);
      }
    case InComparison(left, values) =>
      SameType(registry, target, left, deps);
      var l := B.ExprType(registry, target, left, deps);
      if l.Some? {
        SameValues(registry, target, l.value.typ, values, l.value.deps);
      }
    case BetweenComparison(left, lower, upper) =>
      SameType(registry, target, left, deps);
      var l := B.ExprType(registry, target, left, deps);
      if l.Some? {
        SameType(registry, target, lower, l.value.deps);
        var lo := B.ExprType(registry, target, lower, l.value.deps);
        if lo.Some? {
          SameType(registry, target, upper, lo.value.deps);
        }
      }
    case NullComparison(left, _) => SameBinding(registry, target, left, deps);
    case CastExpr(operand, _) => SameBinding(registry, target, operand, deps);
    case ArithmeticExpr(_, left, right) =>
      SameBinding(registry, target, left, deps);
      var l := B.BindExpr(registry, target, left, deps);
      if l.Some? {
        SameBinding(registry, target, right, l.value);
      }
    case _ =>
  }

  lemma {:induction false} SameBindings(registry: B.Registry, target: string, terms: seq<Expr>, deps: seq<B.Dependency>)
    ensures B.BindTerms(registry, target, NormalAll(terms), deps) == B.BindTerms(registry, target, terms, deps)
    decreases terms, 0
  {
    if terms != [] {
      NormalEach(terms);
      SameBinding(registry, target, terms[0], deps);
      var first := B.BindExpr(registry, target, terms[0], deps);
      if first.Some? {
        SameBindings(registry, target, terms[1..], first.value);
      }
    }
  }

  lemma {:induction false} SameValues(registry: B.Registry, target: string, left: string, values: seq<Expr>, deps: seq<B.Dependency>)
    ensures B.BindValues(registry, target, left, NormalAll(values), deps) == B.BindValues(registry, target, left, values, deps)
    decreases values, 0
  {
    if values != [] {
      NormalEach(values);
      SameType(registry, target, values[0], deps);
      var first := B.ExprType(registry, target, values[0], deps);
      if first.Some? {
        SameValues(registry, target, left, values[1..], first.value.deps);
      }
    }
  }

  lemma {:induction false} SameOrderBindings(registry: B.Registry, target: string, orders: seq<Order>, deps: seq<B.Dependency>)
    ensures B.BindOrders(registry, target, NormalOrders(orders), deps) == B.BindOrders(registry, target, orders, deps)
    decreases |orders|
  {
    if orders != [] {
      SameBinding(registry, target, orders[0].expr, deps);
      assert NormalOrders(orders)[1..] == NormalOrders(orders[1..]);
      var first := B.BindExpr(registry, target, orders[0].expr, deps);
      if first.Some? {
        SameOrderBindings(registry, target, orders[1..], first.value);
      }
    }
  }

  lemma SameCollection(registry: B.Registry, q: Query)
    ensures B.Collect(registry, NormalQuery(q)) == B.Collect(registry, q)
  {
    var start := [B.Dependency(B.TARGET, q.target, "")];
    var deps := Some(start);
    if q.condition.Some? {
      SameBinding(registry, q.target, q.condition.value, start);
      deps := B.BindExpr(registry, q.target, q.condition.value, start);
    }
    if deps.Some? {
      SameOrderBindings(registry, q.target, q.orderBy, deps.value);
    }
  }

  /** A query that compiled when it was stored compiles to the same statement and arguments after it is read back. */
  lemma StoredQueryIsTheSame(clock: Clock, registry: B.Registry, names: C.Names, scope: string, q: Query)
    requires Faithful(clock) && SizedQuery(q)
    ensures var read := UnmarshalQuery(clock, MarshalQuery(clock, q));
      && read.Some?
      && Binder.BindQuery(registry, read.value) == Binder.BindQuery(registry, q)
      && (S.StatementSql(names, scope, q).Some? ==> S.StatementSql(names, scope, read.value) == S.StatementSql(names, scope, q))
  {
    QueryRoundTrip(clock, q);
    SameCollection(registry, q);
    if S.StatementSql(names, scope, q).Some? {
      SameStatement(names, scope, q);
    }
  }
}
