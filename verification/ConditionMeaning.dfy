/** Nested conditions and the whole WHERE clause, read back under SQL's precedence. */
module ConditionMeaning {
  import opened Values
  import opened QueryAst
  import opened SqlText
  import opened AttributePath
  import opened PathLiterals
  import opened Compile
  import opened CompileMeaning
  import opened PathMeaning

  function JoinLevel(op: string): nat {
    if op == BOOL_OR then OR else AND
  }

  lemma CombineAssociates(op: string, a: Truth, b: Truth, c: Truth)
    ensures Combine(op, Combine(op, a, b), c) == Combine(op, a, Combine(op, b, c))
  {
  }

  lemma JoinHolds(w: World, args: seq<Arg>, op: string, a: Tree, b: Tree)
    ensures Holds(w, args, JoinTrees(Joiner(op), a, b)) == Combine(op, Holds(w, args, a), Holds(w, args, b))
  {
  }

  /** A condition compiled inside another one reads back as one operand of AND, OR or NOT. */
  lemma {:induction false} NestedReads(w: World, names: Names, all: seq<Arg>, e: Expr, args: seq<Arg>, code: Code, rest: seq<Token>)
    returns (tree: Tree)
    requires ExprSql(names, e, true, args) == Some(code) && Sound(names, e) && code.args <= all && Stops(NOT, rest)
    ensures Read(NOT, code.text + rest) == Parsed(tree, rest)
    ensures Holds(w, all, tree) == Meaning(AsRead(w), names, e)
    decreases e, 1
  {
    match e
    case BoolExpr(op, terms) =>
      if |terms| == 1 {
        tree := NestedReads(w, names, all, terms[0], args, code, rest);
      } else {
        tree := GroupReads(w, names, all, op, terms, args, TermsSql(names, op, terms, args).value, rest);
      }
    case NotExpr(operand) =>
      tree := NotReads(w, names, all, operand, args, ExprSql(names, operand, true, args).value, rest);
    case _ =>
      tree := PredicateReads(w, names, all, e, args, code, rest);
  }

  lemma GroupReads(w: World, names: Names, all: seq<Arg>, op: string, terms: seq<Expr>, args: seq<Arg>, inner: Code, rest: seq<Token>)
    returns (tree: Tree)
    requires TermsSql(names, op, terms, args) == Some(inner) && |terms| > 1 && inner.args <= all && Stops(NOT, rest)
    requires forall i :: 0 <= i < |terms| ==> Sound(names, terms[i])
    ensures Read(NOT, [LParen] + inner.text + [RParen] + rest) == Parsed(tree, rest)
    ensures Holds(w, all, tree) == TermsMeaning(AsRead(w), names, op, terms)
    decreases terms, 3
  {
    tree := TermsRead(w, names, all, op, terms, args, inner, [RParen] + rest);
    ParensRead(JoinLevel(op), NOT, inner.text, tree, rest);
    Regroup3([LParen], inner.text, [RParen], rest);
  }

  lemma NotReads(w: World, names: Names, all: seq<Arg>, operand: Expr, args: seq<Arg>, inner: Code, rest: seq<Token>) returns (tree: Tree)
    requires ExprSql(names, operand, true, args) == Some(inner) && Sound(names, operand) && inner.args <= all && Stops(NOT, rest)
    ensures Read(NOT, [NotWord, LParen] + inner.text + [RParen] + rest) == Parsed(tree, rest)
    ensures Holds(w, all, tree) == Not3(Meaning(AsRead(w), names, operand))
    decreases operand, 2
  {
    var read := NestedReads(w, names, all, operand, args, inner, [RParen] + rest);
    NotText(inner.text, read, rest);
    NotRegroups(inner.text, rest);
    tree := Negation(read);
  }

  lemma NotRegroups(inner: seq<Token>, rest: seq<Token>)
    ensures [NotWord, LParen] + inner + [RParen] + rest == [NotWord] + ([LParen] + (inner + ([RParen] + rest)))
  {
    Regroup3([NotWord, LParen], inner, [RParen], rest);
    Regroup3([NotWord], [LParen], inner, [RParen] + rest);
  }

  lemma NotText(inner: seq<Token>, tree: Tree, rest: seq<Token>)
    requires Read(NOT, inner + ([RParen] + rest)) == Parsed(tree, [RParen] + rest) && Stops(NOT, rest)
    ensures Read(NOT, [NotWord] + ([LParen] + (inner + ([RParen] + rest)))) == Parsed(Negation(tree), rest)
  {
    ParensRead(NOT, NOT, inner, tree, rest);
    TailOf(NotWord, [LParen] + (inner + ([RParen] + rest)));
  }

  lemma {:induction false} TermsRead(w: World, names: Names, all: seq<Arg>, op: string, terms: seq<Expr>, args: seq<Arg>, code: Code,
                                     rest: seq<Token>) returns (tree: Tree)
    requires TermsSql(names, op, terms, args) == Some(code) && |terms| > 1 && code.args <= all && Stops(JoinLevel(op), rest)
    requires forall i :: 0 <= i < |terms| ==> Sound(names, terms[i])
    ensures Read(JoinLevel(op), code.text + rest) == Parsed(tree, rest)
    ensures Holds(w, all, tree) == TermsMeaning(AsRead(w), names, op, terms)
    decreases terms, 1
  {
    var first := ExprSql(names, terms[0], true, args).value;
    var more := TermsSql(names, op, terms[1..], first.args).value;
    Regroup3(first.text, [Joiner(op)], more.text, rest);
    var after := [Joiner(op)] + (more.text + rest);
    var head := NestedReads(w, names, all, terms[0], args, first, after);
    ReadThenContinue(JoinLevel(op), first.text + after, head, after);
    tree := TermsContinue(w, names, all, op, terms[1..], first.args, more, head, rest);
  }

  lemma ReadThenContinue(level: nat, tokens: seq<Token>, tree: Tree, rest: seq<Token>)
    requires level == OR || level == AND
    requires Read(NOT, tokens) == Parsed(tree, rest) && Stops(level + 1, rest)
    ensures Read(level, tokens) == Continue(level, tree, rest)
  {
    Descend(level + 1, NOT, tokens, tree, rest);
  }

  /** The terms after the first one are folded into `acc` from the left. */
  lemma {:induction false} TermsContinue(w: World, names: Names, all: seq<Arg>, op: string, terms: seq<Expr>, args: seq<Arg>, code: Code,
                                         acc: Tree, rest: seq<Token>) returns (tree: Tree)
    requires TermsSql(names, op, terms, args) == Some(code) && code.args <= all && Stops(JoinLevel(op), rest)
    requires forall i :: 0 <= i < |terms| ==> Sound(names, terms[i])
    ensures Continue(JoinLevel(op), acc, [Joiner(op)] + (code.text + rest)) == Parsed(tree, rest)
    ensures Holds(w, all, tree) == Combine(op, Holds(w, all, acc), TermsMeaning(AsRead(w), names, op, terms))
    decreases terms, 1
  {
    var first := ExprSql(names, terms[0], true, args).value;
    if |terms| == 1 {
      tree := TermJoins(w, names, all, op, terms[0], args, first, acc, rest);
    } else {
      var more := TermsSql(names, op, terms[1..], first.args).value;
      JoinerRegroups(op, first.text, more.text, rest);
      var joined := TermJoins(w, names, all, op, terms[0], args, first, acc, [Joiner(op)] + (more.text + rest));
      tree := TermsContinue(w, names, all, op, terms[1..], first.args, more, joined, rest);
      CombineAssociates(op, Holds(w, all, acc), Meaning(AsRead(w), names, terms[0]), TermsMeaning(AsRead(w), names, op, terms[1..]));
    }
  }

  lemma JoinerRegroups(op: string, first: seq<Token>, more: seq<Token>, rest: seq<Token>)
    ensures [Joiner(op)] + (first + [Joiner(op)] + more + rest) == [Joiner(op)] + (first + ([Joiner(op)] + (more + rest)))
  {
    Regroup3(first, [Joiner(op)], more, rest);
  }

  lemma TermJoins(w: World, names: Names, all: seq<Arg>, op: string, term: Expr, args: seq<Arg>, code: Code, acc: Tree, rest: seq<Token>)
    returns (joined: Tree)
    requires ExprSql(names, term, true, args) == Some(code) && Sound(names, term) && code.args <= all && Stops(JoinLevel(op) + 1, rest)
    ensures Continue(JoinLevel(op), acc, [Joiner(op)] + (code.text + rest)) == Continue(JoinLevel(op), joined, rest)
    ensures Stops(JoinLevel(op), rest) ==> Continue(JoinLevel(op), joined, rest) == Parsed(joined, rest)
    ensures Holds(w, all, joined) == Combine(op, Holds(w, all, acc), Meaning(AsRead(w), names, term))
    decreases term, 3
  {
    var tree := TermReadsAlone(w, names, all, op, term, args, code, rest);
    JoinContinues(JoinLevel(op), acc, Joiner(op), code.text, rest, tree);
    joined := JoinTrees(Joiner(op), acc, tree);
    JoinHolds(w, all, op, acc, tree);
  }

  lemma TermReadsAlone(w: World, names: Names, all: seq<Arg>, op: string, term: Expr, args: seq<Arg>, code: Code, rest: seq<Token>) returns (tree: Tree)
    requires ExprSql(names, term, true, args) == Some(code) && Sound(names, term) && code.args <= all && Stops(JoinLevel(op) + 1, rest)
    ensures Read(JoinLevel(op) + 1, code.text + rest) == Parsed(tree, rest)
    ensures Holds(w, all, tree) == Meaning(AsRead(w), names, term)
    decreases term, 2
  {
    tree := NestedReads(w, names, all, term, args, code, rest);
    Descend(JoinLevel(op) + 1, NOT, code.text + rest, tree, rest);
  }

  // ----- The WHERE clause -----

  predicate TopOr(e: Expr) {
    e.BoolExpr? && e.op == BOOL_OR && |e.terms| > 1
  }

  lemma TopIsNested(names: Names, e: Expr, args: seq<Arg>)
    requires !(e.BoolExpr? && |e.terms| > 1)
    ensures ExprSql(names, e, false, args) == ExprSql(names, e, true, args)
  {
  }

  lemma TopIsTerms(names: Names, e: Expr, args: seq<Arg>)
    requires e.BoolExpr? && |e.terms| > 1
    ensures ExprSql(names, e, false, args) == TermsSql(names, e.op, e.terms, args)
  {
  }

  /** A whole condition, outside any other one. */
  lemma TopReads(w: World, names: Names, all: seq<Arg>, e: Expr, args: seq<Arg>, code: Code, rest: seq<Token>) returns (tree: Tree)
    requires ExprSql(names, e, false, args) == Some(code) && Sound(names, e) && code.args <= all && Stops(OR, rest)
    ensures Read(OR, code.text + rest) == Parsed(tree, rest)
    ensures Holds(w, all, tree) == Meaning(AsRead(w), names, e)
  {
    if e.BoolExpr? && |e.terms| > 1 {
      TopIsTerms(names, e, args);
      tree := TermsRead(w, names, all, e.op, e.terms, args, code, rest);
      Descend(OR, JoinLevel(e.op), code.text + rest, tree, rest);
    } else {
      TopIsNested(names, e, args);
      tree := NestedReads(w, names, all, e, args, code, rest);
      Descend(OR, NOT, code.text + rest, tree, rest);
    }
  }

  /** A condition that is not an OR, after the scope and AND. */
  lemma ScopedReads(w: World, names: Names, all: seq<Arg>, e: Expr, args: seq<Arg>, code: Code, bound: Tree, rest: seq<Token>)
    returns (tree: Tree)
    requires ExprSql(names, e, false, args) == Some(code) && Sound(names, e) && code.args <= all && !TopOr(e) && Stops(OR, rest)
    ensures Continue(AND, bound, [AndWord] + (code.text + rest)) == Parsed(tree, rest)
    ensures Holds(w, all, tree) == And3(Holds(w, all, bound), Meaning(AsRead(w), names, e))
  {
    if e.BoolExpr? && |e.terms| > 1 {
      TopIsTerms(names, e, args);
      tree := TermsContinue(w, names, all, e.op, e.terms, args, code, bound, rest);
    } else {
      TopIsNested(names, e, args);
      tree := TermJoins(w, names, all, BOOL_AND, e, args, code, bound, rest);
    }
  }

  /** An OR after the scope and AND: the AND takes the first term only. */
  lemma SpilledReads(w: World, names: Names, all: seq<Arg>, e: Expr, args: seq<Arg>, code: Code, bound: Tree, after: seq<Token>)
    returns (first: Tree, rest: seq<Token>, tree: Tree)
    requires ExprSql(names, e, false, args) == Some(code) && Sound(names, e) && code.args <= all && TopOr(e) && Stops(OR, after)
    ensures Continue(AND, bound, [AndWord] + (code.text + after)) == Parsed(first, rest) && Continue(OR, first, rest) == Parsed(tree, after)
    ensures Holds(w, all, tree) ==
      Or3(And3(Holds(w, all, bound), Meaning(AsRead(w), names, e.terms[0])), TermsMeaning(AsRead(w), names, BOOL_OR, e.terms[1..]))
  {
    TopIsTerms(names, e, args);
    var head := ExprSql(names, e.terms[0], true, args).value;
    var more := TermsSql(names, BOOL_OR, e.terms[1..], head.args).value;
    first, rest, tree := SpilledParts(w, names, all, e, args, head, more, bound, after);
    assert code.text == head.text + [OrWord] + more.text;
  }

  lemma SpilledParts(w: World, names: Names, all: seq<Arg>, e: Expr, args: seq<Arg>, head: Code, more: Code, bound: Tree, after: seq<Token>)
    returns (first: Tree, rest: seq<Token>, tree: Tree)
    requires TopOr(e) && Sound(names, e) && more.args <= all && Stops(OR, after)
    requires ExprSql(names, e.terms[0], true, args) == Some(head) && TermsSql(names, BOOL_OR, e.terms[1..], head.args) == Some(more)
    ensures Continue(AND, bound, [AndWord] + ((head.text + [OrWord] + more.text) + after)) == Parsed(first, rest)
    ensures Continue(OR, first, rest) == Parsed(tree, after)
    ensures Holds(w, all, tree) ==
      Or3(And3(Holds(w, all, bound), Meaning(AsRead(w), names, e.terms[0])), TermsMeaning(AsRead(w), names, BOOL_OR, e.terms[1..]))
  {
    rest := [OrWord] + (more.text + after);
    Regroup3(head.text, [OrWord], more.text, after);
    first := TermJoins(w, names, all, BOOL_AND, e.terms[0], args, head, bound, rest);
    tree := TermsContinue(w, names, all, BOOL_OR, e.terms[1..], head.args, more, first, after);
  }

  /** The scope test, in front of AND and whatever follows. */
  lemma ScopeReads(w: World, all: seq<Arg>, scope: string, rest: seq<Token>) returns (bound: Tree)
    requires scope != "" && ScopeSql(scope).args <= all && Stops(NOT, rest)
    ensures Read(AND, ScopeSql(scope).text + rest) == Continue(AND, bound, rest)
    ensures Holds(w, all, bound) == ScopeMeaning(w, scope)
  {
    NewestArg(all, [], TextArg(scope));
    bound := BucketReads(Param(1), rest);
    ReadThenContinue(AND, ScopeSql(scope).text + rest, bound, rest);
  }

  /** What the compiled WHERE clause says of a row. */
  function WhereMeaning(w: World, names: Names, scope: string, condition: Option<Expr>): Truth {
    match condition
    case None => ScopeMeaning(w, scope)
    case Some(e) =>
      if scope != "" && TopOr(e)
      then Or3(And3(ScopeMeaning(w, scope), Meaning(w, names, e.terms[0])), TermsMeaning(w, names, BOOL_OR, e.terms[1..]))
      else And3(ScopeMeaning(w, scope), Meaning(w, names, e))
  }

  predicate SafeCondition(names: Names, condition: Option<Expr>) {
    condition.Some? ==> Safe(names, condition.value)
  }

  predicate ReadableCondition(condition: Option<Expr>) {
    condition.Some? ==> Readable(condition.value)
  }

  /**
   A WHERE clause is one well-formed condition exactly when the literals of all its attribute paths are readable, and
   then it says this of every row of every database, every attribute being the one its literal stands for.
   */
  lemma WhereReads(w: World, names: Names, scope: string, condition: Option<Expr>) returns (tree: Tree)
    requires WhereSql(names, scope, condition).Some? && SafeCondition(names, condition)
    requires scope != "" || condition.Some?
    ensures ReadCondition(WhereSql(names, scope, condition).value.text).Some? <==> ReadableCondition(condition)
    ensures ReadableCondition(condition) ==>
      var code := WhereSql(names, scope, condition).value;
      ReadCondition(code.text) == Some(tree) && Holds(w, code.args, tree) == WhereMeaning(AsRead(w), names, scope, condition)
  {
    tree := Atom(NullWord);
    if ReadableCondition(condition) {
      tree := ReadableReads(w, names, scope, condition);
    } else {
      UnreadableIsNotRead(names, scope, condition);
    }
  }

  lemma UnreadableIsNotRead(names: Names, scope: string, condition: Option<Expr>)
    requires WhereSql(names, scope, condition).Some? && !ReadableCondition(condition)
    ensures ReadCondition(WhereSql(names, scope, condition).value.text).None?
  {
    var text := WhereSql(names, scope, condition).value.text;
    if ReadCondition(text).Some? {
      ConditionIsLegible(text);
      var code := ExprSql(names, condition.value, false, ScopeSql(scope).args).value;
      assert forall token :: token in code.text ==> token in text;
      ExprIsLegible(names, condition.value, false, ScopeSql(scope).args, code);
    }
  }

  lemma ReadableReads(w: World, names: Names, scope: string, condition: Option<Expr>) returns (tree: Tree)
    requires WhereSql(names, scope, condition).Some? && SafeCondition(names, condition) && ReadableCondition(condition)
    requires scope != "" || condition.Some?
    ensures var code := WhereSql(names, scope, condition).value;
      ReadCondition(code.text) == Some(tree) && Holds(w, code.args, tree) == WhereMeaning(AsRead(w), names, scope, condition)
  {
    var code := WhereSql(names, scope, condition).value;
    assert code.text + [] == code.text;
    tree := WhereReadsBefore(w, names, code.args, scope, condition, code, []);
  }

  /** The WHERE clause in front of whatever ends it. */
  lemma WhereReadsBefore(w: World, names: Names, all: seq<Arg>, scope: string, condition: Option<Expr>, code: Code, rest: seq<Token>)
    returns (tree: Tree)
    requires WhereSql(names, scope, condition) == Some(code) && SafeCondition(names, condition) && ReadableCondition(condition)
    requires (scope != "" || condition.Some?) && code.args <= all && Stops(OR, rest)
    ensures Read(OR, code.text + rest) == Parsed(tree, rest)
    ensures Holds(w, all, tree) == WhereMeaning(AsRead(w), names, scope, condition)
  {
    if condition.None? {
      tree := ScopeAlone(w, all, scope, rest);
    } else {
      var inner := ExprSql(names, condition.value, false, ScopeSql(scope).args).value;
      if scope == "" {
        tree := TopReads(w, names, all, condition.value, [], inner, rest);
      } else {
        tree := ScopeThen(w, names, all, scope, condition.value, inner, rest);
      }
    }
  }

  lemma ScopeAlone(w: World, all: seq<Arg>, scope: string, rest: seq<Token>) returns (tree: Tree)
    requires scope != "" && ScopeSql(scope).args <= all && Stops(OR, rest)
    ensures Read(OR, ScopeSql(scope).text + rest) == Parsed(tree, rest) && Holds(w, all, tree) == ScopeMeaning(w, scope)
  {
    tree := ScopeReads(w, all, scope, rest);
    Descend(OR, AND, ScopeSql(scope).text + rest, tree, rest);
  }

  lemma ScopeThen(w: World, names: Names, all: seq<Arg>, scope: string, e: Expr, code: Code, rest: seq<Token>) returns (tree: Tree)
    requires scope != "" && ExprSql(names, e, false, ScopeSql(scope).args) == Some(code) && Sound(names, e)
    requires code.args <= all && Stops(OR, rest)
    ensures Read(OR, ScopeSql(scope).text + [AndWord] + code.text + rest) == Parsed(tree, rest)
    ensures Holds(w, all, tree) == WhereMeaning(AsRead(w), names, scope, Some(e))
  {
    var text, after := ScopeSql(scope).text, [AndWord] + (code.text + rest);
    Regroup3(text, [AndWord], code.text, rest);
    var bound := ScopeReads(w, all, scope, after);
    if TopOr(e) {
      var first, middle;
      first, middle, tree := SpilledReads(w, names, all, e, ScopeSql(scope).args, code, bound, rest);
    } else {
      tree := ScopedReads(w, names, all, e, ScopeSql(scope).args, code, bound, rest);
      Descend(OR, AND, text + after, tree, rest);
    }
  }

  function Rank(t: Truth): nat {
    match t case False => 0 case Unknown => 1 case True => 2
  }

  function Intended(w: World, names: Names, scope: string, condition: Option<Expr>): Truth {
    And3(ScopeMeaning(w, scope), if condition.None? then True else Meaning(w, names, condition.value))
  }

  /** Every attribute path of the condition is written as it will be read. */
  predicate PlainCondition(condition: Option<Expr>) {
    condition.Some? ==> Plain(condition.value)
  }

  /** No OR of several terms reaches beyond the scope on this row. */
  predicate StaysInScope(w: World, names: Names, scope: string, condition: Option<Expr>) {
    scope == "" || condition.None? || !TopOr(condition.value) ||
    Rank(TermsMeaning(w, names, BOOL_OR, condition.value.terms[1..])) <= Rank(ScopeMeaning(w, scope))
  }

  /**
   The clause is well formed exactly when every attribute path has a readable literal. If the paths are plain, so that
   the literals stand for these very paths, the clause means (scope AND condition) on a row exactly when there is no
   scope, or the condition is not an OR of several terms, or the terms after the first are no truer of the row than the
   scope is.
   */
  lemma MeaningIsPreservedIff(w: World, names: Names, scope: string, condition: Option<Expr>) returns (tree: Tree)
    requires WhereSql(names, scope, condition).Some? && SafeCondition(names, condition)
    requires scope != "" || condition.Some?
    ensures ReadCondition(WhereSql(names, scope, condition).value.text).Some? <==> ReadableCondition(condition)
    ensures ReadableCondition(condition) ==> ReadCondition(WhereSql(names, scope, condition).value.text) == Some(tree)
    ensures PlainCondition(condition) ==>
      var code := WhereSql(names, scope, condition).value;
      ReadCondition(code.text) == Some(tree) &&
      ((Holds(w, code.args, tree) == Intended(w, names, scope, condition)) <==> StaysInScope(w, names, scope, condition))
  {
    tree := WhereReads(w, names, scope, condition);
    if PlainCondition(condition) {
      PlainWhereMeaning(w, names, scope, condition);
      if condition.Some? && TopOr(condition.value) {
        OrMeaning(w, names, condition.value);
      }
    }
  }

  lemma PlainWhereMeaning(w: World, names: Names, scope: string, condition: Option<Expr>)
    requires PlainCondition(condition)
    ensures ReadableCondition(condition)
    ensures WhereMeaning(AsRead(w), names, scope, condition) == WhereMeaning(w, names, scope, condition)
  {
    if condition.Some? {
      var e := condition.value;
      PlainIsReadable(e);
      PlainMeaning(w, names, e);
      if TopOr(e) {
        PlainMeaning(w, names, e.terms[0]);
        assert forall i :: 0 <= i < |e.terms[1..]| ==> e.terms[1..][i] == e.terms[i + 1];
        PlainTermsMeaning(w, names, BOOL_OR, e.terms[1..]);
      }
    }
  }

  lemma OrMeaning(w: World, names: Names, e: Expr)
    requires TopOr(e)
    ensures Meaning(w, names, e) == Or3(Meaning(w, names, e.terms[0]), TermsMeaning(w, names, BOOL_OR, e.terms[1..]))
  {
  }

  // ----- Where the meaning is lost -----

  /** A row of bucket b under key b; comparisons with = are equality. */
  function SomeRow(): World {
    World(
      name => TextDatum("b"), path => NullDatum, (typ, datum) => datum, (minus, a, b) => NullDatum,
      (op, a, b) => OfBool(a == b), (direction, arg) => false, arg => NullDatum,
      (arg: Arg) => if arg.TextArg? then TextDatum(arg.text) else NullDatum, NullDatum, interval => NullDatum)
  }

  function KeyIs(key: string): Expr {
    Comparison("eq", FieldRef("key"), StringLiteral(key))
  }

  lemma KeyIsCompiles(names: Names, key: string, args: seq<Arg>)
    ensures ExprSql(names, KeyIs(key), true, args) ==
      Some(Code([Column("key")] + [Compare("=")] + [Param(|args| + 1)], args + [TextArg(key)]))
    ensures Safe(names, KeyIs(key)) && Readable(KeyIs(key))
  {
    assert ScalarSql(names, FieldRef("key"), args) == Some(Code([Column("key")], args));
    assert ScalarSql(names, StringLiteral(key), args) == Some(AddArg(args, TextArg(key)));
  }

  lemma EitherKeyCompiles(names: Names, args: seq<Arg>)
    ensures ExprSql(names, BoolExpr(BOOL_OR, [KeyIs("a"), KeyIs("b")]), false, args).Some?
  {
    var condition := BoolExpr(BOOL_OR, [KeyIs("a"), KeyIs("b")]);
    KeyIsCompiles(names, "a", args);
    KeyIsCompiles(names, "b", args + [TextArg("a")]);
    assert condition.terms[1..] == [KeyIs("b")];
    assert TermsSql(names, BOOL_OR, [KeyIs("b")], args + [TextArg("a")]).Some?;
    TopIsTerms(names, condition, args);
  }

  lemma EitherKeyLeaks(names: Names, condition: Expr)
    requires condition == BoolExpr(BOOL_OR, [KeyIs("a"), KeyIs("b")])
    ensures WhereMeaning(SomeRow(), names, "a", Some(condition)) == True
    ensures ScopeMeaning(SomeRow(), "a") == False && Intended(SomeRow(), names, "a", Some(condition)) == False
  {
    assert condition.terms[1..] == [KeyIs("b")];
    assert Meaning(SomeRow(), names, KeyIs("b")) == True;
  }

  /** An OR of two key tests within the scope of bucket a selects a row of bucket b. */
  lemma OrLeavesTheScope(names: Names) returns (w: World, condition: Expr, tree: Tree)
    ensures WhereSql(names, "a", Some(condition)).Some? && Safe(names, condition)
    ensures ReadCondition(WhereSql(names, "a", Some(condition)).value.text) == Some(tree)
    ensures Holds(w, WhereSql(names, "a", Some(condition)).value.args, tree) == True
    ensures ScopeMeaning(w, "a") == False && Intended(w, names, "a", Some(condition)) == False
  {
    w, condition := SomeRow(), BoolExpr(BOOL_OR, [KeyIs("a"), KeyIs("b")]);
    LeakCompiles(names, condition);
    LeakIsRead(names, condition);
    tree := WhereReads(w, names, "a", Some(condition));
  }

  lemma LeakIsRead(names: Names, condition: Expr)
    requires condition == BoolExpr(BOOL_OR, [KeyIs("a"), KeyIs("b")])
    ensures WhereMeaning(AsRead(SomeRow()), names, "a", Some(condition)) == True
    ensures ScopeMeaning(SomeRow(), "a") == False && Intended(SomeRow(), names, "a", Some(condition)) == False
  {
    EitherKeyLeaks(names, condition);
    assert Plain(KeyIs("a")) && Plain(KeyIs("b"));
    PlainWhereMeaning(SomeRow(), names, "a", Some(condition));
  }

  lemma LeakCompiles(names: Names, condition: Expr)
    requires condition == BoolExpr(BOOL_OR, [KeyIs("a"), KeyIs("b")])
    ensures WhereSql(names, "a", Some(condition)).Some? && Safe(names, condition) && Readable(condition)
  {
    EitherKeyCompiles(names, [TextArg("a")]);
    KeyIsCompiles(names, "a", []);
    KeyIsCompiles(names, "b", []);
  }

  /** Without a cast an attribute is not an operand of + or -: the operator takes the path instead. */
  lemma UncastOperandMisreads(w: World, names: Names, all: seq<Arg>, op: string, path: string, right: Expr, args: seq<Arg>, code: Code,
                              rest: seq<Token>) returns (tree: Tree)
    requires ScalarSql(names, ArithmeticExpr(op, AttrRef(path), right), args) == Some(code) && code.args <= all
    requires Loose(names, AttrRef(path)) && SoundScalar(names, right) && !Loose(names, right) && ReadablePath(path) && Stops(CAST, rest)
    ensures Read(CAST, code.text + rest) == Parsed(tree, rest)
    ensures tree.TextAt? && tree.left == Atom(AttributesColumn) && tree.right.Sum?
    ensures tree.right.left == Atom(PathLiteral(LiteralText(AttributePath.Split(path))))
    ensures ValueOf(w, all, tree.right.right) == ScalarMeaning(AsRead(w), names, right)
  {
    var r := UncastPieces(names, op, path, right, args, code);
    var literal := PathLiteral(LiteralText(AttributePath.Split(path)));
    var operand := TightReads(w, names, all, right, args, r, [RParen] + rest);
    assert ValueOf(w, all, operand) == ScalarMeaning(AsRead(w), names, right);
    tree := MisreadParts(literal, if op == ARITH_SUB then Minus else Plus, r.text, rest, operand);
  }

  lemma UncastPieces(names: Names, op: string, path: string, right: Expr, args: seq<Arg>, code: Code) returns (r: Code)
    requires ScalarSql(names, ArithmeticExpr(op, AttrRef(path), right), args) == Some(code) && Loose(names, AttrRef(path))
    ensures ScalarSql(names, right, args) == Some(r) && JsonPath(path) == Some(AttributePath.Split(path))
    ensures code.text == [LParen] + [AttributesColumn, TextAtPath, PathLiteral(LiteralText(AttributePath.Split(path)))]
                         + [if op == ARITH_SUB then Minus else Plus] + r.text + [RParen]
    ensures r.args == code.args
  {
    assert ScalarSql(names, AttrRef(path), args).value.args == args;
    r := ScalarSql(names, right, args).value;
  }

  lemma MisreadParts(literal: Token, sign: Token, r: seq<Token>, rest: seq<Token>, operand: Tree) returns (tree: Tree)
    requires (sign == Plus || sign == Minus) && IsAtom(literal) && Stops(CAST, rest)
    requires Read(CAST, r + ([RParen] + rest)) == Parsed(operand, [RParen] + rest)
    ensures Read(CAST, [LParen] + [AttributesColumn, TextAtPath, literal] + [sign] + r + [RParen] + rest) == Parsed(tree, rest)
    ensures tree == TextAt(Atom(AttributesColumn), JoinTrees(sign, Atom(literal), operand))
    ensures tree.right.Sum? && tree.right.left == Atom(literal) && tree.right.right == operand
  {
    tree := TextAt(Atom(AttributesColumn), JoinTrees(sign, Atom(literal), operand));
    MisreadText(literal, sign, r, rest, operand);
    MisreadRegroups(literal, sign, r, rest);
  }

  lemma MisreadRegroups(literal: Token, sign: Token, r: seq<Token>, rest: seq<Token>)
    ensures [LParen] + [AttributesColumn, TextAtPath, literal] + [sign] + r + [RParen] + rest ==
      [LParen] + ([AttributesColumn] + [TextAtPath] + ([literal] + [sign] + r) + ([RParen] + rest))
  {
    Regroup5([LParen], [AttributesColumn, TextAtPath, literal], [sign], r, [RParen], rest);
    Regroup3([literal], [sign], r, [RParen] + rest);
    Regroup3([AttributesColumn], [TextAtPath], [literal] + [sign] + r, [RParen] + rest);
    assert [AttributesColumn, TextAtPath, literal] + ([sign] + (r + ([RParen] + rest))) ==
      [AttributesColumn] + ([TextAtPath] + ([literal] + ([sign] + (r + ([RParen] + rest)))));
  }

  lemma MisreadText(literal: Token, sign: Token, r: seq<Token>, rest: seq<Token>, operand: Tree)
    requires (sign == Plus || sign == Minus) && IsAtom(literal) && Stops(CAST, rest)
    requires Read(CAST, r + ([RParen] + rest)) == Parsed(operand, [RParen] + rest)
    ensures Read(CAST, [LParen] + ([AttributesColumn] + [TextAtPath] + ([literal] + [sign] + r) + ([RParen] + rest))) ==
      Parsed(TextAt(Atom(AttributesColumn), JoinTrees(sign, Atom(literal), operand)), rest)
  {
    var after := [RParen] + rest;
    var sum := [literal] + [sign] + r;
    var sumTree := JoinTrees(sign, Atom(literal), operand);
    AtomAt(CAST, literal, [sign] + (r + after));
    BinaryReads(ADDITIVE, [literal], sign, r, after, Atom(literal), operand);
    Regroup3([literal], [sign], r, after);
    AtomAt(ADDITIVE, AttributesColumn, [TextAtPath] + (sum + after));
    BinaryReads(OPERATOR, [AttributesColumn], TextAtPath, sum, after, Atom(AttributesColumn), sumTree);
    Regroup3([AttributesColumn], [TextAtPath], sum, after);
    ParensRead(OPERATOR, CAST, [AttributesColumn] + [TextAtPath] + sum, TextAt(Atom(AttributesColumn), sumTree), rest);
  }
}
