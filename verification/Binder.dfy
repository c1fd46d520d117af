/** The binder object, and the sorted dependency list it hands to its callers. */
module Binder {
  import opened Values
  import opened QueryAst
  import opened Bind
  import opened BindTheorems
  import C = Compile
  import M = CompileMeaning

  // ----- The order of dependencies -----

  function KindRank(kind: string): int {
    if kind == TARGET then 0 else if kind == FIELD then 1 else if kind == ATTRIBUTE then 2
    else if kind == RELATION then 3 else if kind == BUCKET then 4 else 99
  }

  /** Go's order on strings. */
  predicate Less(a: string, b: string) {
    b != [] && (a == [] || a[0] < b[0] || (a[0] == b[0] && Less(a[1..], b[1..])))
  }

  predicate Before(a: Dependency, b: Dependency) {
    if a.kind != b.kind then KindRank(a.kind) < KindRank(b.kind)
    else if a.name != b.name then Less(a.name, b.name)
    else Less(a.typ, b.typ)
  }

  lemma {:induction false} LessIsTotal(a: string, b: string)
    ensures a == b || Less(a, b) || Less(b, a)
    ensures !(Less(a, b) && Less(b, a)) && !(a == b && Less(a, b))
  {
    if a != [] && b != [] && a[0] == b[0] {
      LessIsTotal(a[1..], b[1..]);
      assert a == [a[0]] + a[1..] && b == [b[0]] + b[1..];
    }
  }

  lemma {:induction false} LessIsTransitive(a: string, b: string, c: string)
    requires Less(a, b) && Less(b, c)
    ensures Less(a, c)
  {
    if a != [] && a[0] == b[0] == c[0] {
      LessIsTransitive(a[1..], b[1..], c[1..]);
    }
  }

  predicate KnownKind(kind: string) {
    kind in {TARGET, FIELD, ATTRIBUTE, RELATION, BUCKET}
  }

  lemma BeforeIsTotal(a: Dependency, b: Dependency)
    requires KnownKind(a.kind) && KnownKind(b.kind)
    ensures a == b || Before(a, b) || Before(b, a)
    ensures !(Before(a, b) && Before(b, a)) && !(a == b && Before(a, b))
  {
    LessIsTotal(a.name, b.name);
    LessIsTotal(a.typ, b.typ);
  }

  lemma BeforeIsTransitive(a: Dependency, b: Dependency, c: Dependency)
    requires KnownKind(a.kind) && KnownKind(b.kind) && KnownKind(c.kind) && Before(a, b) && Before(b, c)
    ensures Before(a, c)
  {
    if a.kind == b.kind == c.kind {
      LessIsTotal(a.name, b.name);
      LessIsTotal(b.name, c.name);
      if a.name == b.name == c.name {
        LessIsTransitive(a.typ, b.typ, c.typ);
      } else if a.name != b.name && b.name != c.name {
        LessIsTransitive(a.name, b.name, c.name);
        LessIsTotal(a.name, c.name);
      }
    }
  }

  predicate AllKnown(deps: seq<Dependency>) {
    forall i :: 0 <= i < |deps| ==> KnownKind(deps[i].kind)
  }

  predicate Ascending(deps: seq<Dependency>) {
    forall i, j :: 0 <= i < j < |deps| ==> Before(deps[i], deps[j])
  }

  /** A strictly ascending list is determined by its elements. */
  lemma {:induction false} AscendingIsCanonical(a: seq<Dependency>, b: seq<Dependency>)
    requires Ascending(a) && Ascending(b) && AllKnown(a) && AllKnown(b) && Elements(a) == Elements(b)
    ensures a == b
    decreases |a|
  {
    NoElements(a);
    NoElements(b);
    if a != [] && b != [] {
      SameHead(a, b);
      TailElements(a);
      TailElements(b);
      AscendingIsCanonical(a[1..], b[1..]);
      assert a == [a[0]] + a[1..] && b == [b[0]] + b[1..];
    }
  }

  lemma NoElements(deps: seq<Dependency>)
    ensures Elements(deps) == {} <==> deps == []
  {
    if deps != [] {
      assert deps[0] in Elements(deps);
    }
  }

  lemma SameHead(a: seq<Dependency>, b: seq<Dependency>)
    requires Ascending(a) && Ascending(b) && AllKnown(a) && AllKnown(b) && Elements(a) == Elements(b) && a != [] && b != []
    ensures a[0] == b[0]
  {
    assert a[0] in Elements(b) && b[0] in Elements(a);
    var i :| 0 <= i < |b| && b[i] == a[0];
    var j :| 0 <= j < |a| && a[j] == b[0];
    BeforeIsTotal(a[0], b[0]);
  }

  lemma TailElements(a: seq<Dependency>)
    requires Ascending(a) && AllKnown(a) && a != []
    ensures Elements(a[1..]) == Elements(a) - {a[0]}
  {
    forall d ensures d in a[1..] <==> d in a && d != a[0] {
      BeforeIsIrreflexive(a[0]);
      if d in a && d != a[0] {
        var i :| 0 <= i < |a| && a[i] == d;
        assert a[1..][i - 1] == d;
      }
    }
  }

  lemma BeforeIsIrreflexive(d: Dependency)
    ensures !Before(d, d)
  {
    LessIsTotal(d.typ, d.typ);
  }

  /** sortDependencies, as an insertion into an ascending list. */
  function Insert(d: Dependency, deps: seq<Dependency>): seq<Dependency> {
    if deps == [] || Before(d, deps[0]) then [d] + deps else [deps[0]] + Insert(d, deps[1..])
  }

  function Sorted(deps: seq<Dependency>): seq<Dependency> {
    if deps == [] then [] else Insert(deps[|deps| - 1], Sorted(deps[..|deps| - 1]))
  }

  lemma {:induction false} InsertKeepsOrder(d: Dependency, deps: seq<Dependency>)
    requires Ascending(deps) && AllKnown(deps) && KnownKind(d.kind) && d !in deps
    ensures Ascending(Insert(d, deps)) && AllKnown(Insert(d, deps))
    ensures Elements(Insert(d, deps)) == Elements(deps) + {d}
    decreases |deps|
  {
    if deps == [] {
    } else if Before(d, deps[0]) {
      forall i | 0 < i < |deps| ensures Before(d, deps[i]) {
        BeforeIsTransitive(d, deps[0], deps[i]);
      }
    } else {
      var tail := deps[1..];
      InsertKeepsOrder(d, tail);
      BeforeIsTotal(d, deps[0]);
      InsertedComesAfter(deps, d, Insert(d, tail));
      assert deps == [deps[0]] + tail;
    }
  }

  /** The first of an ascending list stays before the rest when something later joins it. */
  lemma InsertedComesAfter(deps: seq<Dependency>, d: Dependency, rest: seq<Dependency>)
    requires deps != [] && Ascending(deps) && Before(deps[0], d) && Elements(rest) == Elements(deps[1..]) + {d}
    ensures forall i :: 0 <= i < |rest| ==> Before(deps[0], rest[i])
  {
    forall i | 0 <= i < |rest| ensures Before(deps[0], rest[i]) {
      assert rest[i] in Elements(rest);
      if rest[i] != d {
        var j :| 0 <= j < |deps[1..]| && deps[1..][j] == rest[i];
        assert deps[j + 1] == rest[i];
      }
    }
  }

  lemma {:induction false} SortedIsAscending(deps: seq<Dependency>)
    requires AllKnown(deps) && forall i, j :: 0 <= i < j < |deps| ==> deps[i] != deps[j]
    ensures Ascending(Sorted(deps)) && AllKnown(Sorted(deps)) && Elements(Sorted(deps)) == Elements(deps)
    decreases |deps|
  {
    if deps != [] {
      var front, last := deps[..|deps| - 1], deps[|deps| - 1];
      SortedIsAscending(front);
      assert last !in front;
      assert last !in Elements(Sorted(front));
      InsertKeepsOrder(last, Sorted(front));
      assert deps == front + [last];
    }
  }

  // ----- Bind -----

  function BindQuery(registry: Registry, query: Query): Option<seq<Dependency>> {
    match Collect(registry, query) case None => None case Some(deps) => Some(Sorted(deps))
  }

  ghost predicate KnownMentions(mentions: set<Dependency>) {
    forall d :: d in mentions ==> KnownKind(d.kind)
  }

  lemma {:induction false} MentionsAreKnown(registry: Registry, target: string, e: Expr)
    ensures KnownMentions(Mentions(registry, target, e))
    decreases e, 0
  {
    match e
    case BoolExpr(_, terms) => AllMentionsAreKnown(registry, target, terms);
    case NotExpr(inner) => MentionsAreKnown(registry, target, inner);
    case Comparison(_, left, right) =>
      MentionsAreKnown(registry, target, left);
      MentionsAreKnown(registry, target, right);
    case InComparison(left, values) =>
      MentionsAreKnown(registry, target, left);
      AllMentionsAreKnown(registry, target, values);
    case BetweenComparison(left, lower, upper) =>
      MentionsAreKnown(registry, target, left);
      MentionsAreKnown(registry, target, lower);
      MentionsAreKnown(registry, target, upper);
    case NullComparison(left, _) => MentionsAreKnown(registry, target, left);
    case CastExpr(operand, _) => MentionsAreKnown(registry, target, operand);
    case ArithmeticExpr(_, left, right) =>
      MentionsAreKnown(registry, target, left);
      MentionsAreKnown(registry, target, right);
    case _ =>
  }

  lemma {:induction false} AllMentionsAreKnown(registry: Registry, target: string, es: seq<Expr>)
    ensures KnownMentions(MentionsAll(registry, target, es))
    decreases es, 0
  {
    if es != [] {
      MentionsAreKnown(registry, target, es[0]);
      AllMentionsAreKnown(registry, target, es[1..]);
    }
  }

  lemma {:induction false} OrderMentionsAreKnown(registry: Registry, target: string, orders: seq<Order>)
    ensures KnownMentions(OrderMentions(registry, target, orders))
    decreases |orders|
  {
    if orders != [] {
      MentionsAreKnown(registry, target, orders[0].expr);
      OrderMentionsAreKnown(registry, target, orders[1..]);
    }
  }

  /** The bound list: exactly the mentions, in ascending order. */
  lemma BoundList(registry: Registry, query: Query)
    requires BindQuery(registry, query).Some?
    ensures var deps := BindQuery(registry, query).value;
      Elements(deps) == QueryMentions(registry, query) && Ascending(deps) && AllKnown(deps)
  {
    var deps := Collect(registry, query).value;
    DependenciesAreMentions(registry, query);
    if query.condition.Some? {
      MentionsAreKnown(registry, query.target, query.condition.value);
    }
    OrderMentionsAreKnown(registry, query.target, query.orderBy);
    forall i | 0 <= i < |deps| ensures KnownKind(deps[i].kind) {
      assert deps[i] in Elements(deps);
    }
    SortedIsAscending(deps);
  }

  /** Two bound queries that mention the same things get the same dependency list, however they are written. */
  lemma DependenciesAreCanonical(registry: Registry, a: Query, b: Query)
    requires BindQuery(registry, a).Some? && BindQuery(registry, b).Some?
    ensures (BindQuery(registry, a) == BindQuery(registry, b)) <==> (QueryMentions(registry, a) == QueryMentions(registry, b))
  {
    BoundList(registry, a);
    BoundList(registry, b);
    if QueryMentions(registry, a) == QueryMentions(registry, b) {
      AscendingIsCanonical(BindQuery(registry, a).value, BindQuery(registry, b).value);
    }
  }

  /** Sorting keeps the ledger, so the compiler still sees the registry's types. */
  lemma SortedLedger(registry: Registry, query: Query)
    requires BindQuery(registry, query).Some?
    ensures Ledger(registry, query.target, BindQuery(registry, query).value)
  {
    var before, after := Collect(registry, query).value, BindQuery(registry, query).value;
    DependenciesAreMentions(registry, query);
    BoundList(registry, query);
    forall i | 0 <= i < |after|
      ensures after[i].typ == KnownType(registry, query.target, after[i].kind, after[i].name)
    {
      assert after[i] in Elements(before);
    }
    forall i, j | 0 <= i < j < |after|
      ensures (after[i].kind, after[i].name) != (after[j].kind, after[j].name)
    {
      BeforeIsIrreflexive(after[i]);
      assert after[i] in Elements(before) && after[j] in Elements(before);
    }
  }

  /** Every condition that binds is safe to compile: its attributes at the registry's types, its arithmetic never on uncast text. */
  lemma BoundConditionsAreSafe(registry: Registry, query: Query, names: C.Names)
    requires BindQuery(registry, query).Some? && names.attrTypes == TypesOf(BindQuery(registry, query).value)
    requires query.condition.Some?
    ensures Agree(registry, query.target, names, query.condition.value) && M.Safe(names, query.condition.value)
  {
    SortedLedger(registry, query);
    BoundList(registry, query);
    NamesAgree(registry, query.target, names, BindQuery(registry, query).value, query.condition.value);
    BoundIsSafe(registry, query.target, names, query.condition.value, [Dependency(TARGET, query.target, "")]);
  }

  // ----- The order itself -----

  /** Texts in the order of their first difference, a text before its continuations. */
  ghost predicate Precedes(a: string, b: string) {
    exists k: nat :: FirstDifference(a, b, k)
  }

  predicate FirstDifference(a: string, b: string, k: nat) {
    k <= |a| && k < |b| && a[..k] == b[..k] && (k == |a| || a[k] < b[k])
  }

  lemma {:induction false} LessIff(a: string, b: string)
    ensures Less(a, b) <==> Precedes(a, b)
  {
    if a != [] && b != [] && a[0] == b[0] {
      LessIff(a[1..], b[1..]);
      if Precedes(a[1..], b[1..]) {
        var k: nat :| FirstDifference(a[1..], b[1..], k);
        assert a[..k + 1] == [a[0]] + a[1..][..k] && b[..k + 1] == [b[0]] + b[1..][..k];
        assert FirstDifference(a, b, k + 1);
      }
      if Precedes(a, b) {
        var k: nat :| FirstDifference(a, b, k);
        assert k > 0 && a[1..][..k - 1] == a[..k][1..] && b[1..][..k - 1] == b[..k][1..];
        assert FirstDifference(a[1..], b[1..], k - 1);
      }
    } else if b != [] {
      if Less(a, b) {
        assert FirstDifference(a, b, 0);
      }
      if Precedes(a, b) {
        var k: nat :| FirstDifference(a, b, k);
        assert k > 0 ==> a[..k][0] == b[..k][0];
      }
    }
  }

  const KINDS := ["target", "field", "attribute", "relation", "bucket"]

  /** A bound list holds the target, then fields, attributes, relations and buckets; of one kind, by name. */
  lemma DependenciesInOrder(registry: Registry, query: Query, i: nat, j: nat)
    requires BindQuery(registry, query).Some? && i < j < |BindQuery(registry, query).value|
    ensures var a, b := BindQuery(registry, query).value[i], BindQuery(registry, query).value[j];
      && (a.kind == b.kind ==> Precedes(a.name, b.name))
      && exists m, n :: 0 <= m <= n < |KINDS| && KINDS[m] == a.kind && KINDS[n] == b.kind
  {
    BoundList(registry, query);
    SortedLedger(registry, query);
    var deps := BindQuery(registry, query).value;
    var a, b := deps[i], deps[j];
    assert Before(a, b) && KnownKind(a.kind) && KnownKind(b.kind);
    assert (a.kind, a.name) != (b.kind, b.name);
    LessIff(a.name, b.name);
    assert KINDS[KindRank(a.kind)] == a.kind && KINDS[KindRank(b.kind)] == b.kind;
  }

  // ----- The binder object -----

  class QueryBinder {
    const registry: Registry
    const target: string
    var dependencies: seq<Dependency>

    constructor (registry: Registry, target: string)
      ensures this.registry == registry && this.target == target && dependencies == [Dependency(TARGET, target, "")]
    {
      this.registry := registry;
      this.target := target;
      dependencies := [Dependency(TARGET, target, "")];
    }

    predicate Bound(ok: bool, spec: Option<seq<Dependency>>)
      reads this
    {
      ok == spec.Some? && (ok ==> dependencies == spec.value)
    }

    predicate TypedAs(typ: Option<string>, spec: Option<Typed>)
      reads this
    {
      match spec
      case None => typ.None?
      case Some(typed) => typ == Some(typed.typ) && dependencies == typed.deps
    }

    method AddDependency(d: Dependency)
      modifies `dependencies
      ensures dependencies == Add(old(dependencies), d)
    {
      for i := 0 to |dependencies|
        invariant dependencies == old(dependencies)
        invariant forall k :: 0 <= k < i ==> dependencies[k].kind != d.kind || dependencies[k].name != d.name
      {
        if dependencies[i].kind == d.kind && dependencies[i].name == d.name {
          return;
        }
      }
      dependencies := dependencies + [d];
    }

    method TypeExpr(e: Expr) returns (typ: Option<string>)
      modifies `dependencies
      ensures TypedAs(typ, ExprType(registry, target, e, old(dependencies)))
      decreases e, 2
    {
      match e
      case FieldRef(name) =>
        if (target, name) !in registry.fields {
          return None;
        }
        AddDependency(Dependency(FIELD, name, registry.fields[(target, name)]));
        typ := Some(registry.fields[(target, name)]);
      case AttrRef(path) =>
        AddDependency(Dependency(ATTRIBUTE, path, TypeOfAttribute(registry, path)));
        typ := Some(TypeOfAttribute(registry, path));
      case CastExpr(operand, castTyp) =>
        if !CastOperand(operand) {
          return None;
        }
        var ok := Bind(operand);
        typ := if ok then Some(castTyp) else None;
      case StringLiteral(_) => typ := Some(TYPE_STRING);
      case IntLiteral(_) => typ := Some(TYPE_INTEGER);
      case FloatLiteral(_) => typ := Some(TYPE_FLOAT);
      case BoolLiteral(_) => typ := Some(TYPE_BOOLEAN);
      case TimestampLiteral(_) => typ := Some(TYPE_TIMESTAMP);
      case NowExpr => typ := Some(TYPE_TIMESTAMP);
      case IntervalLiteral(_) => typ := Some(TYPE_INTERVAL);
      case ArithmeticExpr(op, left, right) =>
        var l := TypeExpr(left);
        if l.None? {
          return None;
        }
        var r := TypeExpr(right);
        if r.None? {
          return None;
        }
        typ := ArithmeticType(op, l.value, r.value);
      case NullLiteral => typ := Some(TYPE_NULL);
      case _ =>
        var ok := Bind(e);
        typ := if ok then Some(TYPE_UNKNOWN) else None;
    }

    method Bind(e: Expr) returns (ok: bool)
      modifies `dependencies
      ensures Bound(ok, BindExpr(registry, target, e, old(dependencies)))
      decreases e, 1
    {
      match e
      case BoolExpr(_, terms) => ok := BindAll(terms);
      case NotExpr(inner) => ok := Bind(inner);
      case Comparison(op, left, right) =>
        var l := TypeExpr(left);
        if l.None? {
          return false;
        }
        var r := TypeExpr(right);
        ok := r.Some? && Compatible(op, l.value, r.value);
      case InComparison(left, values) => ok := BindMembership(left, values, e);
      case BetweenComparison(left, lower, upper) => ok := BindBetween(left, lower, upper, e);
      case NullComparison(left, _) => ok := Bind(left);
      case RelationPredicate(relationType, _) =>
        if target != TARGET_OBJECTS {
          return false;
        }
        AddDependency(Dependency(RELATION, relationType, ""));
        ok := true;
      case BucketPredicate(name) =>
        if target != TARGET_OBJECTS {
          return false;
        }
        AddDependency(Dependency(BUCKET, name, ""));
        ok := true;
      case FieldRef(name) =>
        if (target, name) !in registry.fields {
          return false;
        }
        AddDependency(Dependency(FIELD, name, registry.fields[(target, name)]));
        ok := true;
      case AttrRef(path) =>
        AddDependency(Dependency(ATTRIBUTE, path, TypeOfAttribute(registry, path)));
        ok := true;
      case CastExpr(operand, _) =>
        if !CastOperand(operand) {
          return false;
        }
        ok := Bind(operand);
      case ArithmeticExpr(_, left, right) =>
        ok := Bind(left);
        if ok {
          ok := Bind(right);
        }
      case _ => ok := true;
    }

    method BindAll(terms: seq<Expr>) returns (ok: bool)
      modifies `dependencies
      ensures Bound(ok, BindTerms(registry, target, terms, old(dependencies)))
      decreases terms, 0
    {
      for i := 0 to |terms|
        invariant BindTerms(registry, target, terms, old(dependencies)) == BindTerms(registry, target, terms[i..], dependencies)
      {
        ok := Bind(terms[i]);
        if !ok {
          return;
        }
        assert terms[i..][1..] == terms[i + 1..];
      }
      ok := true;
    }

    method BindMembership(left: Expr, values: seq<Expr>, whole: Expr) returns (ok: bool)
      requires whole == InComparison(left, values)
      modifies `dependencies
      ensures Bound(ok, BindExpr(registry, target, whole, old(dependencies)))
      decreases whole, 0
    {
      var l := TypeExpr(left);
      if l.None? {
        return false;
      }
      for i := 0 to |values|
        invariant BindExpr(registry, target, whole, old(dependencies)) == BindValues(registry, target, l.value, values[i..], dependencies)
      {
        var v := TypeExpr(values[i]);
        if v.None? || !Compatible("eq", l.value, v.value) {
          return false;
        }
        assert values[i..][1..] == values[i + 1..];
      }
      ok := true;
    }

    method BindBetween(left: Expr, lower: Expr, upper: Expr, whole: Expr) returns (ok: bool)
      requires whole == BetweenComparison(left, lower, upper)
      modifies `dependencies
      ensures Bound(ok, BindExpr(registry, target, whole, old(dependencies)))
      decreases whole, 0
    {
      var l := TypeExpr(left);
      if l.None? {
        return false;
      }
      var lo := TypeExpr(lower);
      if lo.None? {
        return false;
      }
      var up := TypeExpr(upper);
      ok := up.Some? && Compatible("gte", l.value, lo.value) && Compatible("lte", l.value, up.value) && SameOrNumeric(lo.value, up.value);
    }
  }

  /** Bind. */
  method BindWhole(registry: Registry, query: Query) returns (deps: Option<seq<Dependency>>)
    ensures deps == BindQuery(registry, query)
  {
    if query.target !in registry.targets {
      return None;
    }
    var binder := new QueryBinder(registry, query.target);
    if query.condition.Some? {
      var ok := binder.Bind(query.condition.value);
      if !ok {
        return None;
      }
    }
    for i := 0 to |query.orderBy|
      invariant fresh(binder) && binder.registry == registry && binder.target == query.target
      invariant Collect(registry, query) == BindOrders(registry, query.target, query.orderBy[i..], binder.dependencies)
    {
      var ok := binder.Bind(query.orderBy[i].expr);
      if !ok {
        return None;
      }
      assert query.orderBy[i..][1..] == query.orderBy[i + 1..];
    }
    deps := Some(Sorted(binder.dependencies));
  }
}
