/** What binding guarantees: the dependencies are exactly what the query mentions, and bound conditions compile safely. */
module BindTheorems {
  import opened Values
  import opened QueryAst
  import opened Bind
  import C = Compile
  import M = CompileMeaning

  // ----- What a query mentions -----

  ghost function Mentions(registry: Registry, target: string, e: Expr): set<Dependency>
    decreases e
  {
    match e
    case BoolExpr(_, terms) => MentionsAll(registry, target, terms)
    case NotExpr(inner) => Mentions(registry, target, inner)
    case Comparison(_, left, right) => Mentions(registry, target, left) + Mentions(registry, target, right)
    case InComparison(left, values) => Mentions(registry, target, left) + MentionsAll(registry, target, values)
    case BetweenComparison(left, lower, upper) =>
      Mentions(registry, target, left) + Mentions(registry, target, lower) + Mentions(registry, target, upper)
    case NullComparison(left, _) => Mentions(registry, target, left)
    case RelationPredicate(relationType, _) => {Dependency(RELATION, relationType, "")}
    case BucketPredicate(name) => {Dependency(BUCKET, name, "")}
    case FieldRef(name) => if (target, name) in registry.fields then {Dependency(FIELD, name, registry.fields[(target, name)])} else {}
    case AttrRef(path) => {Dependency(ATTRIBUTE, path, TypeOfAttribute(registry, path))}
    case CastExpr(operand, _) => Mentions(registry, target, operand)
    case ArithmeticExpr(_, left, right) => Mentions(registry, target, left) + Mentions(registry, target, right)
    case _ => {}
  }

  ghost function MentionsAll(registry: Registry, target: string, es: seq<Expr>): set<Dependency>
    decreases es
  {
    if es == [] then {} else Mentions(registry, target, es[0]) + MentionsAll(registry, target, es[1..])
  }

  ghost function OrderMentions(registry: Registry, target: string, orders: seq<Order>): set<Dependency> {
    if orders == [] then {} else Mentions(registry, target, orders[0].expr) + OrderMentions(registry, target, orders[1..])
  }

  ghost function QueryMentions(registry: Registry, query: Query): set<Dependency> {
    {Dependency(TARGET, query.target, "")} +
    (if query.condition.None? then {} else Mentions(registry, query.target, query.condition.value)) +
    OrderMentions(registry, query.target, query.orderBy)
  }

  // ----- The dependency list is a ledger of mentions -----

  function KnownType(registry: Registry, target: string, kind: string, name: string): string {
    if kind == ATTRIBUTE then TypeOfAttribute(registry, name)
    else if kind == FIELD && (target, name) in registry.fields then registry.fields[(target, name)]
    else ""
  }

  ghost predicate Ledger(registry: Registry, target: string, deps: seq<Dependency>) {
    && (forall i :: 0 <= i < |deps| ==> deps[i].typ == KnownType(registry, target, deps[i].kind, deps[i].name))
    && (forall i, j :: 0 <= i < j < |deps| ==> (deps[i].kind, deps[i].name) != (deps[j].kind, deps[j].name))
  }

  ghost function Elements(deps: seq<Dependency>): set<Dependency> {
    set d | d in deps
  }

  /** `after` is a ledger holding what `before` held and `more`. */
  ghost predicate Grown(registry: Registry, target: string, before: seq<Dependency>, after: seq<Dependency>, more: set<Dependency>) {
    Ledger(registry, target, after) && Elements(after) == Elements(before) + more
  }

  lemma AddGrows(registry: Registry, target: string, deps: seq<Dependency>, d: Dependency)
    requires Ledger(registry, target, deps) && d.typ == KnownType(registry, target, d.kind, d.name)
    ensures Grown(registry, target, deps, Add(deps, d), {d})
  {
    if Has(deps, d.kind, d.name) {
      var i :| 0 <= i < |deps| && deps[i].kind == d.kind && deps[i].name == d.name;
      assert deps[i] == d;
    } else {
      assert Elements(deps + [d]) == Elements(deps) + {d};
    }
  }

  lemma {:induction false} TypeGrows(registry: Registry, target: string, e: Expr, deps: seq<Dependency>)
    requires Ledger(registry, target, deps) && ExprType(registry, target, e, deps).Some?
    ensures Grown(registry, target, deps, ExprType(registry, target, e, deps).value.deps, Mentions(registry, target, e))
    decreases e, 1
  {
    match e
    case FieldRef(name) => AddGrows(registry, target, deps, Dependency(FIELD, name, registry.fields[(target, name)]));
    case AttrRef(path) => AddGrows(registry, target, deps, Dependency(ATTRIBUTE, path, TypeOfAttribute(registry, path)));
    case CastExpr(operand, _) => BindGrows(registry, target, operand, deps);
    case ArithmeticExpr(_, left, right) =>
      TypeGrows(registry, target, left, deps);
      TypeGrows(registry, target, right, ExprType(registry, target, left, deps).value.deps);
    case StringLiteral(_) =>
    case IntLiteral(_) =>
    case FloatLiteral(_) =>
    case BoolLiteral(_) =>
    case TimestampLiteral(_) =>
    case NowExpr =>
    case IntervalLiteral(_) =>
    case NullLiteral =>
    case _ => BindGrows(registry, target, e, deps);
  }

  lemma {:induction false} BindGrows(registry: Registry, target: string, e: Expr, deps: seq<Dependency>)
    requires Ledger(registry, target, deps) && BindExpr(registry, target, e, deps).Some?
    ensures Grown(registry, target, deps, BindExpr(registry, target, e, deps).value, Mentions(registry, target, e))
    decreases e, 0
  {
    match e
    case BoolExpr(_, terms) => TermsGrow(registry, target, terms, deps);
    case NotExpr(inner) => BindGrows(registry, target, inner, deps);
    case Comparison(_, left, right) =>
      TypeGrows(registry, target, left, deps);
      TypeGrows(registry, target, right, ExprType(registry, target, left, deps).value.deps);
    case InComparison(left, values) =>
      TypeGrows(registry, target, left, deps);
      var l := ExprType(registry, target, left, deps).value;
      ValuesGrow(registry, target, l.typ, values, l.deps);
    case BetweenComparison(left, lower, upper) =>
      TypeGrows(registry, target, left, deps);
      var l := ExprType(registry, target, left, deps).value;
      TypeGrows(registry, target, lower, l.deps);
      TypeGrows(registry, target, upper, ExprType(registry, target, lower, l.deps).value.deps);
    case NullComparison(left, _) => BindGrows(registry, target, left, deps);
    case RelationPredicate(relationType, _) => AddGrows(registry, target, deps, Dependency(RELATION, relationType, ""));
    case BucketPredicate(name) => AddGrows(registry, target, deps, Dependency(BUCKET, name, ""));
    case FieldRef(name) => AddGrows(registry, target, deps, Dependency(FIELD, name, registry.fields[(target, name)]));
    case AttrRef(path) => AddGrows(registry, target, deps, Dependency(ATTRIBUTE, path, TypeOfAttribute(registry, path)));
    case CastExpr(operand, _) => BindGrows(registry, target, operand, deps);
    case ArithmeticExpr(_, left, right) =>
      BindGrows(registry, target, left, deps);
      BindGrows(registry, target, right, BindExpr(registry, target, left, deps).value);
    case _ =>
  }

  lemma {:induction false} TermsGrow(registry: Registry, target: string, terms: seq<Expr>, deps: seq<Dependency>)
    requires Ledger(registry, target, deps) && BindTerms(registry, target, terms, deps).Some?
    ensures Grown(registry, target, deps, BindTerms(registry, target, terms, deps).value, MentionsAll(registry, target, terms))
    decreases terms, 0
  {
    if terms != [] {
      BindGrows(registry, target, terms[0], deps);
      TermsGrow(registry, target, terms[1..], BindExpr(registry, target, terms[0], deps).value);
    }
  }

  lemma {:induction false} ValuesGrow(registry: Registry, target: string, left: string, values: seq<Expr>, deps: seq<Dependency>)
    requires Ledger(registry, target, deps) && BindValues(registry, target, left, values, deps).Some?
    ensures Grown(registry, target, deps, BindValues(registry, target, left, values, deps).value, MentionsAll(registry, target, values))
    decreases values, 0
  {
    if values != [] {
      TypeGrows(registry, target, values[0], deps);
      ValuesGrow(registry, target, left, values[1..], ExprType(registry, target, values[0], deps).value.deps);
    }
  }

  lemma {:induction false} OrdersGrow(registry: Registry, target: string, orders: seq<Order>, deps: seq<Dependency>)
    requires Ledger(registry, target, deps) && BindOrders(registry, target, orders, deps).Some?
    ensures Grown(registry, target, deps, BindOrders(registry, target, orders, deps).value, OrderMentions(registry, target, orders))
    decreases |orders|
  {
    if orders != [] {
      BindGrows(registry, target, orders[0].expr, deps);
      OrdersGrow(registry, target, orders[1..], BindExpr(registry, target, orders[0].expr, deps).value);
    }
  }

  /** Binding records every mention once, with the registry's type, and nothing else. */
  lemma DependenciesAreMentions(registry: Registry, query: Query)
    requires Collect(registry, query).Some?
    ensures Ledger(registry, query.target, Collect(registry, query).value)
    ensures Elements(Collect(registry, query).value) == QueryMentions(registry, query)
  {
    var start := [Dependency(TARGET, query.target, "")];
    assert Elements(start) == {start[0]};
    var deps := start;
    if query.condition.Some? {
      BindGrows(registry, query.target, query.condition.value, start);
      deps := BindExpr(registry, query.target, query.condition.value, start).value;
    }
    OrdersGrow(registry, query.target, query.orderBy, deps);
  }

  // ----- The compiler sees the registry's types -----

  /** attributeTypesFromDependencies. */
  function TypesOf(deps: seq<Dependency>): map<string, string> {
    if deps == [] then map[]
    else
      var d := deps[|deps| - 1];
      if d.kind == ATTRIBUTE then TypesOf(deps[..|deps| - 1])[d.name := d.typ] else TypesOf(deps[..|deps| - 1])
  }

  lemma {:induction false} TypesOfLedger(registry: Registry, target: string, deps: seq<Dependency>, path: string)
    requires Ledger(registry, target, deps)
    ensures path in TypesOf(deps) <==> Dependency(ATTRIBUTE, path, TypeOfAttribute(registry, path)) in deps
    ensures path in TypesOf(deps) ==> TypesOf(deps)[path] == TypeOfAttribute(registry, path)
    decreases |deps|
  {
    if deps != [] {
      var d := deps[|deps| - 1];
      TypesOfLedger(registry, target, deps[..|deps| - 1], path);
      assert deps == deps[..|deps| - 1] + [d];
    }
  }

  /** Every attribute `e` mentions is compiled at the type the registry gave the binder. */
  ghost predicate Agree(registry: Registry, target: string, names: C.Names, e: Expr) {
    forall d :: d in Mentions(registry, target, e) && d.kind == ATTRIBUTE ==> C.AttrType(names, d.name) == d.typ
  }

  lemma NamesAgree(registry: Registry, target: string, names: C.Names, deps: seq<Dependency>, e: Expr)
    requires Ledger(registry, target, deps) && names.attrTypes == TypesOf(deps)
    requires Mentions(registry, target, e) <= Elements(deps)
    ensures Agree(registry, target, names, e)
  {
    forall d | d in Mentions(registry, target, e) && d.kind == ATTRIBUTE
      ensures C.AttrType(names, d.name) == d.typ
    {
      assert d in deps;
      TypesOfLedger(registry, target, deps, d.name);
    }
  }

  lemma MentionsEach(registry: Registry, target: string, es: seq<Expr>, i: nat)
    requires i < |es|
    ensures Mentions(registry, target, es[i]) <= MentionsAll(registry, target, es)
    decreases i
  {
    if i > 0 {
      MentionsEach(registry, target, es[1..], i - 1);
    }
  }

  // ----- Bound conditions are safe to compile -----

  /** What a value's type says of its compiled form. */
  lemma {:induction false} TypedIsSafe(registry: Registry, target: string, names: C.Names, e: Expr, deps: seq<Dependency>)
    requires ExprType(registry, target, e, deps).Some? && Agree(registry, target, names, e)
    ensures M.SafeScalar(names, e)
    ensures ExprType(registry, target, e, deps).value.typ in {TYPE_TIMESTAMP, TYPE_INTERVAL} ==> !M.Loose(names, e)
  {
    match e
    case ArithmeticExpr(_, left, right) =>
      TypedIsSafe(registry, target, names, left, deps);
      TypedIsSafe(registry, target, names, right, ExprType(registry, target, left, deps).value.deps);
    case AttrRef(path) => assert Dependency(ATTRIBUTE, path, TypeOfAttribute(registry, path)) in Mentions(registry, target, e);
    case _ =>
  }

  lemma {:induction false} BoundIsSafe(registry: Registry, target: string, names: C.Names, e: Expr, deps: seq<Dependency>)
    requires BindExpr(registry, target, e, deps).Some? && Agree(registry, target, names, e)
    ensures M.Safe(names, e)
    decreases e, 0
  {
    match e
    case BoolExpr(_, terms) =>
      forall i | 0 <= i < |terms| ensures M.Safe(names, terms[i]) {
        MentionsEach(registry, target, terms, i);
        TermIsSafe(registry, target, names, terms, i, deps);
      }
    case NotExpr(inner) => BoundIsSafe(registry, target, names, inner, deps);
    case Comparison(_, left, right) =>
      TypedIsSafe(registry, target, names, left, deps);
      TypedIsSafe(registry, target, names, right, ExprType(registry, target, left, deps).value.deps);
    case InComparison(left, values) =>
      var l := ExprType(registry, target, left, deps).value;
      forall i | 0 <= i < |values| ensures M.SafeScalar(names, values[i]) {
        MentionsEach(registry, target, values, i);
        ValueIsSafe(registry, target, names, l.typ, values, i, l.deps);
      }
    case BetweenComparison(left, lower, upper) =>
      var l := ExprType(registry, target, left, deps).value;
      TypedIsSafe(registry, target, names, lower, l.deps);
      TypedIsSafe(registry, target, names, upper, ExprType(registry, target, lower, l.deps).value.deps);
    case _ =>
  }

  lemma {:induction false} TermIsSafe(registry: Registry, target: string, names: C.Names, terms: seq<Expr>, i: nat, deps: seq<Dependency>)
    requires BindTerms(registry, target, terms, deps).Some? && i < |terms| && Agree(registry, target, names, terms[i])
    ensures M.Safe(names, terms[i])
    decreases terms, 0
  {
    if i == 0 {
      BoundIsSafe(registry, target, names, terms[0], deps);
    } else {
      TermIsSafe(registry, target, names, terms[1..], i - 1, BindExpr(registry, target, terms[0], deps).value);
    }
  }

  lemma {:induction false} ValueIsSafe(registry: Registry, target: string, names: C.Names, left: string, values: seq<Expr>, i: nat,
                                       deps: seq<Dependency>)
    requires BindValues(registry, target, left, values, deps).Some? && i < |values| && Agree(registry, target, names, values[i])
    ensures M.SafeScalar(names, values[i])
    decreases |values|
  {
    var first := ExprType(registry, target, values[0], deps).value;
    if i == 0 {
      TypedIsSafe(registry, target, names, values[0], deps);
    } else {
      ValueIsSafe(registry, target, names, left, values[1..], i - 1, first.deps);
    }
  }
}
