/** The compiled WHERE clause, read back under SQL's precedence, means what the condition means. */
module CompileMeaning {
  import opened Values
  import opened QueryAst
  import opened SqlText
  import opened AttributePath
  import opened PathLiterals
  import opened Compile

  // ----- Which conditions the binder lets through -----

  /** An attribute compiled without a cast: it is not parenthesised and binds looser than + and -. */
  predicate Loose(names: Names, e: Expr) {
    match e
    case AttrRef(path) => Uncast(AttrType(names, path))
    case CastExpr(AttrRef(_), typ) => Uncast(typ)
    case _ => false
  }

  predicate SafeScalar(names: Names, e: Expr) {
    e.ArithmeticExpr? ==>
      !Loose(names, e.left) && !Loose(names, e.right) && SafeScalar(names, e.left) && SafeScalar(names, e.right)
  }

  predicate Safe(names: Names, e: Expr) {
    match e
    case BoolExpr(_, terms) => forall i :: 0 <= i < |terms| ==> Safe(names, terms[i])
    case NotExpr(inner) => Safe(names, inner)
    case Comparison(_, left, right) => SafeScalar(names, left) && SafeScalar(names, right)
    case InComparison(_, values) => forall i :: 0 <= i < |values| ==> SafeScalar(names, values[i])
    case BetweenComparison(_, lower, upper) => SafeScalar(names, lower) && SafeScalar(names, upper)
    case _ => true
  }

  // ----- Which attribute paths can be read -----

  /** A test of every attribute path in an expression. */
  predicate PathsAre(good: string -> bool, e: Expr) {
    match e
    case BoolExpr(_, terms) => forall i :: 0 <= i < |terms| ==> PathsAre(good, terms[i])
    case NotExpr(inner) => PathsAre(good, inner)
    case Comparison(_, left, right) => PathsAre(good, left) && PathsAre(good, right)
    case InComparison(left, values) => PathsAre(good, left) && forall i :: 0 <= i < |values| ==> PathsAre(good, values[i])
    case BetweenComparison(left, lower, upper) => PathsAre(good, left) && PathsAre(good, lower) && PathsAre(good, upper)
    case NullComparison(left, _) => PathsAre(good, left)
    case AttrRef(path) => good(path)
    case CastExpr(inner, _) => PathsAre(good, inner)
    case ArithmeticExpr(_, left, right) => PathsAre(good, left) && PathsAre(good, right)
    case _ => true
  }

  /** The literal of the path is a string constant that holds an array. */
  predicate ReadablePath(path: string) {
    JsonPath(path).Some? ==> ReadLiteral(LiteralText(JsonPath(path).value)).Some?
  }

  predicate Readable(e: Expr) {
    PathsAre(ReadablePath, e)
  }

  predicate SoundScalar(names: Names, e: Expr) {
    SafeScalar(names, e) && Readable(e)
  }

  predicate Sound(names: Names, e: Expr) {
    Safe(names, e) && Readable(e)
  }

  // ----- Values -----

  lemma NewestArg(all: seq<Arg>, args: seq<Arg>, arg: Arg)
    requires args + [arg] <= all
    ensures ArgAt(all, |args| + 1) == arg
  {
    assert (args + [arg])[|args|] == all[|args|];
  }

  lemma AttributeReads(w: World, all: seq<Arg>, path: string, typ: string, text: seq<Token>, rest: seq<Token>) returns (tree: Tree)
    requires AttributeSql(path, typ) == Some(text) && ReadablePath(path) && Stops(if Uncast(typ) then OPERATOR else CAST, rest)
    ensures Read(if Uncast(typ) then OPERATOR else CAST, text + rest) == Parsed(tree, rest)
    ensures ValueOf(w, all, tree) == AttributeValue(AsRead(w), path, typ)
  {
    var parts := JsonPath(path).value;
    if Uncast(typ) {
      tree := BaseReads(parts, rest);
    } else {
      tree := CastReads(parts, SqlType(typ).value, rest);
    }
  }

  lemma CastIsReadable(path: string, typ: string)
    ensures Readable(CastExpr(AttrRef(path), typ)) <==> ReadablePath(path)
  {
    assert PathsAre(ReadablePath, AttrRef(path)) == ReadablePath(path);
  }

  lemma CastReads(parts: seq<string>, name: string, rest: seq<Token>) returns (tree: Tree)
    requires Stops(CAST, rest) && Legible(PathLiteral(LiteralText(parts)))
    ensures Read(CAST, [LParen] + [AttributesColumn, TextAtPath, PathLiteral(LiteralText(parts))] + [RParen, CastTo(name)] + rest) == Parsed(tree, rest)
    ensures tree == Casting(TextAt(Atom(AttributesColumn), Atom(PathLiteral(LiteralText(parts)))), name)
  {
    var text, after := [AttributesColumn, TextAtPath, PathLiteral(LiteralText(parts))], [CastTo(name)] + rest;
    var inner := BaseReads(parts, [RParen] + after);
    ParensRead(OPERATOR, PRIMARY, text, inner, after);
    CastText([LParen] + (text + ([RParen] + after)), inner, name, rest);
    tree := Casting(inner, name);
    CastRegroups(text, name, rest);
  }

  lemma CastRegroups(text: seq<Token>, name: string, rest: seq<Token>)
    ensures [LParen] + text + [RParen, CastTo(name)] + rest == [LParen] + (text + ([RParen] + ([CastTo(name)] + rest)))
  {
    Regroup3([LParen], text, [RParen, CastTo(name)], rest);
    assert [RParen, CastTo(name)] + rest == [RParen] + ([CastTo(name)] + rest);
  }

  lemma CastText(tokens: seq<Token>, inner: Tree, name: string, rest: seq<Token>)
    requires Read(PRIMARY, tokens) == Parsed(inner, [CastTo(name)] + rest) && Stops(CAST, rest)
    ensures Read(CAST, tokens) == Parsed(Casting(inner, name), rest)
  {
    TailOf(CastTo(name), rest);
    assert Continue(CAST, inner, [CastTo(name)] + rest) == Continue(CAST, Casting(inner, name), rest);
  }

  lemma BaseReads(parts: seq<string>, rest: seq<Token>) returns (tree: Tree)
    requires Stops(OPERATOR, rest) && Legible(PathLiteral(LiteralText(parts)))
    ensures Read(OPERATOR, [AttributesColumn, TextAtPath, PathLiteral(LiteralText(parts))] + rest) == Parsed(tree, rest)
    ensures tree == TextAt(Atom(AttributesColumn), Atom(PathLiteral(LiteralText(parts))))
  {
    var l, r := [AttributesColumn], [PathLiteral(LiteralText(parts))];
    tree := TextAt(Atom(AttributesColumn), Atom(PathLiteral(LiteralText(parts))));
    AtomAt(ADDITIVE, AttributesColumn, [TextAtPath] + (r + rest));
    AtomAt(ADDITIVE, PathLiteral(LiteralText(parts)), rest);
    BinaryReads(OPERATOR, l, TextAtPath, r, rest, Atom(AttributesColumn), Atom(PathLiteral(LiteralText(parts))));
    Regroup3(l, [TextAtPath], r, rest);
    assert l + [TextAtPath] + r == [AttributesColumn, TextAtPath, PathLiteral(LiteralText(parts))];
  }

  lemma AtomAt(level: nat, token: Token, rest: seq<Token>)
    requires 1 <= level <= PRIMARY && IsAtom(token) && Stops(level, rest)
    ensures Read(level, [token] + rest) == Parsed(Atom(token), rest)
  {
    AtomReads(token, rest);
    Descend(level, PRIMARY, [token] + rest, Atom(token), rest);
  }

  /** A value that is not an uncast attribute reads back at the level of a cast. */
  lemma {:induction false} TightReads(w: World, names: Names, all: seq<Arg>, e: Expr, args: seq<Arg>, code: Code, rest: seq<Token>)
    returns (tree: Tree)
    requires ScalarSql(names, e, args) == Some(code) && SoundScalar(names, e) && !Loose(names, e)
    requires code.args <= all && Stops(CAST, rest)
    ensures Read(CAST, code.text + rest) == Parsed(tree, rest)
    ensures ValueOf(w, all, tree) == ScalarMeaning(AsRead(w), names, e)
    decreases e, 1
  {
    if e.ArithmeticExpr? {
      var l := ScalarSql(names, e.left, args).value;
      tree := SumReads(w, names, all, e, args, l, ScalarSql(names, e.right, l.args).value, rest);
    } else if IsAttribute(e) {
      tree := TypedAttributeReads(w, names, all, e, args, code, rest);
    } else {
      tree := PlainOperandReads(w, names, all, e, args, code, rest);
    }
  }

  predicate IsAttribute(e: Expr) {
    e.AttrRef? || (e.CastExpr? && e.expr.AttrRef?)
  }

  lemma TypedAttributeReads(w: World, names: Names, all: seq<Arg>, e: Expr, args: seq<Arg>, code: Code, rest: seq<Token>)
    returns (tree: Tree)
    requires ScalarSql(names, e, args) == Some(code) && IsAttribute(e) && Readable(e) && !Loose(names, e) && Stops(CAST, rest)
    ensures Read(CAST, code.text + rest) == Parsed(tree, rest)
    ensures ValueOf(w, all, tree) == ScalarMeaning(AsRead(w), names, e)
  {
    if e.AttrRef? {
      tree := AttributeReads(w, all, e.path, AttrType(names, e.path), code.text, rest);
    } else {
      CastIsReadable(e.expr.path, e.typ);
      tree := AttributeReads(w, all, e.expr.path, e.typ, code.text, rest);
    }
  }

  lemma PlainOperandReads(w: World, names: Names, all: seq<Arg>, e: Expr, args: seq<Arg>, code: Code, rest: seq<Token>) returns (tree: Tree)
    requires ScalarSql(names, e, args) == Some(code) && !e.ArithmeticExpr? && !IsAttribute(e)
    requires code.args <= all && Stops(CAST, rest)
    ensures Read(CAST, code.text + rest) == Parsed(tree, rest)
    ensures ValueOf(w, all, tree) == ScalarMeaning(AsRead(w), names, e)
  {
    var token := OperandToken(w, names, all, e, args, code);
    AtomAt(CAST, token, rest);
    tree := Atom(token);
  }

  /** A field, a literal, an interval or the current time is one token. */
  lemma OperandToken(w: World, names: Names, all: seq<Arg>, e: Expr, args: seq<Arg>, code: Code) returns (token: Token)
    requires ScalarSql(names, e, args) == Some(code) && !e.ArithmeticExpr? && !IsAttribute(e) && code.args <= all
    ensures code.text == [token] && IsAtom(token) && !token.PathLiteral?
    ensures AtomValue(w, all, token) == ScalarMeaning(AsRead(w), names, e)
  {
    token := code.text[0];
    if !e.NowExpr? && !e.IntervalLiteral? && !e.FieldRef? {
      assert LiteralSql(names, e, args) == Some(code);
      NewestArg(all, args, LiteralValue(names, e).value);
    }
  }

  lemma SumReads(w: World, names: Names, all: seq<Arg>, e: Expr, args: seq<Arg>, l: Code, r: Code, rest: seq<Token>) returns (tree: Tree)
    requires e.ArithmeticExpr? && SoundScalar(names, e) && Stops(CAST, rest)
    requires ScalarSql(names, e.left, args) == Some(l) && ScalarSql(names, e.right, l.args) == Some(r) && r.args <= all
    ensures Read(CAST, SumSql(e.op, l, r).text + rest) == Parsed(tree, rest)
    ensures ValueOf(w, all, tree) == w.add(e.op == ARITH_SUB, ScalarMeaning(AsRead(w), names, e.left), ScalarMeaning(AsRead(w), names, e.right))
    decreases e, 0
  {
    var sign := if e.op == ARITH_SUB then Minus else Plus;
    var afterRight := [RParen] + rest;
    var afterLeft := [sign] + (r.text + afterRight);
    var first := TightReads(w, names, all, e.left, args, l, afterLeft);
    var second := TightReads(w, names, all, e.right, l.args, r, afterRight);
    SumText(l.text, sign, r.text, rest, first, second);
    SumValue(w, all, sign, first, second);
    Regroup5([LParen], l.text, [sign], r.text, [RParen], rest);
    tree := JoinTrees(sign, first, second);
  }

  lemma SumValue(w: World, args: seq<Arg>, sign: Token, left: Tree, right: Tree)
    requires sign == Plus || sign == Minus
    ensures ValueOf(w, args, JoinTrees(sign, left, right)) == w.add(sign == Minus, ValueOf(w, args, left), ValueOf(w, args, right))
  {
  }

  lemma SumText(l: seq<Token>, sign: Token, r: seq<Token>, rest: seq<Token>, left: Tree, right: Tree)
    requires sign == Plus || sign == Minus
    requires l != [] && l[0] != NotWord && Stops(CAST, rest)
    requires Read(CAST, l + ([sign] + (r + ([RParen] + rest)))) == Parsed(left, [sign] + (r + ([RParen] + rest)))
    requires Read(CAST, r + ([RParen] + rest)) == Parsed(right, [RParen] + rest)
    ensures Read(CAST, [LParen] + (l + ([sign] + (r + ([RParen] + rest))))) == Parsed(JoinTrees(sign, left, right), rest)
  {
    var inner := l + [sign] + r;
    BinaryReads(ADDITIVE, l, sign, r, [RParen] + rest, left, right);
    Regroup3(l, [sign], r, [RParen] + rest);
    ParensRead(ADDITIVE, CAST, inner, JoinTrees(sign, left, right), rest);
  }

  lemma ScalarReads(w: World, names: Names, all: seq<Arg>, e: Expr, args: seq<Arg>, code: Code, level: nat, rest: seq<Token>)
    returns (tree: Tree)
    requires ScalarSql(names, e, args) == Some(code) && SoundScalar(names, e) && code.args <= all
    requires 1 <= level <= OPERATOR && Stops(level, rest)
    ensures Read(level, code.text + rest) == Parsed(tree, rest)
    ensures ValueOf(w, all, tree) == ScalarMeaning(AsRead(w), names, e)
  {
    assert (code.text + rest)[0] == code.text[0];
    if Loose(names, e) {
      if e.AttrRef? {
        tree := AttributeReads(w, all, e.path, AttrType(names, e.path), code.text, rest);
      } else {
        CastIsReadable(e.expr.path, e.typ);
        tree := AttributeReads(w, all, e.expr.path, e.typ, code.text, rest);
      }
      Descend(level, OPERATOR, code.text + rest, tree, rest);
    } else {
      tree := TightReads(w, names, all, e, args, code, rest);
      Descend(level, CAST, code.text + rest, tree, rest);
    }
  }

  lemma ValueIsScalar(names: Names, e: Expr, args: seq<Arg>)
    requires ValueSql(names, e, args).Some? && Readable(e)
    ensures ScalarSql(names, e, args) == ValueSql(names, e, args) && SoundScalar(names, e)
  {
  }

  // ----- Predicates -----

  lemma ComparisonPieces(names: Names, op: string, left: Expr, right: Expr, args: seq<Arg>, code: Code) returns (l: Code, r: Code, token: Token)
    requires ComparisonSql(names, op, left, right, args) == Some(code)
    ensures ScalarSql(names, left, args) == Some(l) && ScalarSql(names, right, l.args) == Some(r)
    ensures code.text == l.text + [token] + r.text && code.args == r.args
    ensures (token.Compare? || token.LikeWord?) && token.op == OperatorName(op)
  {
    l := ScalarSql(names, left, args).value;
    r := ScalarSql(names, right, l.args).value;
    token := SqlOperator(op).value;
  }

  lemma ComparisonReads(w: World, names: Names, all: seq<Arg>, op: string, left: Expr, right: Expr, args: seq<Arg>, code: Code,
                        rest: seq<Token>) returns (tree: Tree)
    requires ComparisonSql(names, op, left, right, args) == Some(code) && SoundScalar(names, left) && SoundScalar(names, right)
    requires code.args <= all && Stops(NOT, rest)
    ensures Read(NOT, code.text + rest) == Parsed(tree, rest)
    ensures Compares(w, all, tree, OperatorName(op), ScalarMeaning(AsRead(w), names, left), ScalarMeaning(AsRead(w), names, right))
  {
    var l, r, token := ComparisonPieces(names, op, left, right, args, code);
    Regroup3(l.text, [token], r.text, rest);
    tree := ComparisonParts(w, names, all, left, right, args, l, r, token, rest);
  }

  /** A comparison of operands with these values. */
  predicate Compares(w: World, all: seq<Arg>, tree: Tree, op: string, x: Datum, y: Datum) {
    tree.Comparing? && tree.op == op && ValueOf(w, all, tree.left) == x && ValueOf(w, all, tree.right) == y
  }

  lemma ComparesHolds(w: World, all: seq<Arg>, tree: Tree, op: string, x: Datum, y: Datum)
    requires Compares(w, all, tree, op, x, y)
    ensures Holds(w, all, tree) == w.compare(op, x, y)
  {
  }

  lemma ComparisonParts(w: World, names: Names, all: seq<Arg>, left: Expr, right: Expr, args: seq<Arg>, l: Code, r: Code, token: Token,
                        rest: seq<Token>) returns (tree: Tree)
    requires (token.Compare? || token.LikeWord?) && Stops(NOT, rest)
    requires ScalarSql(names, left, args) == Some(l) && ScalarSql(names, right, l.args) == Some(r) && r.args <= all
    requires SoundScalar(names, left) && SoundScalar(names, right)
    ensures Read(NOT, l.text + ([token] + (r.text + rest))) == Parsed(tree, rest)
    ensures Compares(w, all, tree, token.op, ScalarMeaning(AsRead(w), names, left), ScalarMeaning(AsRead(w), names, right))
  {
    FirstOf(l.text, [token] + (r.text + rest));
    var first, second;
    if token.Compare? {
      first, second := SidesRead(w, names, all, left, right, args, l, r, token, RANGE, rest);
      CompareText(token, l.text + ([token] + (r.text + rest)), r.text + rest, rest, first, second);
    } else {
      first, second := SidesRead(w, names, all, left, right, args, l, r, token, OPERATOR, rest);
      LikeText(token, l.text + ([token] + (r.text + rest)), r.text + rest, rest, first, second);
    }
    tree := Comparing(token.op, first, second);
  }

  lemma FirstOf(a: seq<Token>, b: seq<Token>)
    requires a != []
    ensures a + b != [] && (a + b)[0] == a[0]
  {
  }

  /** Both sides of an operator, read one level tighter than the operator. */
  lemma SidesRead(w: World, names: Names, all: seq<Arg>, left: Expr, right: Expr, args: seq<Arg>, l: Code, r: Code, token: Token, level: nat,
                  rest: seq<Token>) returns (first: Tree, second: Tree)
    requires 1 <= level <= OPERATOR && Continues(token) < level && Stops(NOT, rest) && NOT <= level
    requires ScalarSql(names, left, args) == Some(l) && ScalarSql(names, right, l.args) == Some(r) && r.args <= all
    requires SoundScalar(names, left) && SoundScalar(names, right)
    ensures Read(level, l.text + ([token] + (r.text + rest))) == Parsed(first, [token] + (r.text + rest))
    ensures Read(level, r.text + rest) == Parsed(second, rest)
    ensures ValueOf(w, all, first) == ScalarMeaning(AsRead(w), names, left) && ValueOf(w, all, second) == ScalarMeaning(AsRead(w), names, right)
  {
    first := ScalarReads(w, names, all, left, args, l, level, [token] + (r.text + rest));
    second := ScalarReads(w, names, all, right, l.args, r, level, rest);
  }

  lemma CompareText(token: Token, tokens: seq<Token>, right: seq<Token>, rest: seq<Token>, first: Tree, second: Tree)
    requires token.Compare? && !At(tokens, NotWord) && Stops(NOT, rest)
    requires Read(RANGE, tokens) == Parsed(first, [token] + right) && Read(RANGE, right) == Parsed(second, rest)
    ensures Read(NOT, tokens) == Parsed(Comparing(token.op, first, second), rest)
  {
    TailOf(token, right);
    assert Continue(COMPARISON, first, [token] + right) == Parsed(Comparing(token.op, first, second), rest);
    Descend(NOT, COMPARISON, tokens, Comparing(token.op, first, second), rest);
  }

  lemma LikeText(token: Token, tokens: seq<Token>, right: seq<Token>, rest: seq<Token>, first: Tree, second: Tree)
    requires token.LikeWord? && !At(tokens, NotWord) && Stops(NOT, rest)
    requires Read(OPERATOR, tokens) == Parsed(first, [token] + right) && Read(OPERATOR, right) == Parsed(second, rest)
    ensures Read(NOT, tokens) == Parsed(Comparing(token.op, first, second), rest)
  {
    TailOf(token, right);
    assert Continue(RANGE, first, [token] + right) == Parsed(Comparing(token.op, first, second), rest);
    Descend(NOT, RANGE, tokens, Comparing(token.op, first, second), rest);
  }

  /** The upper bound of BETWEEN owns the AND before it. */
  predicate ReadsBounds(bounds: seq<Token>, rest: seq<Token>, lower: Tree, upper: Tree) {
    match Read(OPERATOR, bounds)
    case Bad => false
    case Parsed(tree, after) => tree == lower && At(after, AndWord) && Read(OPERATOR, after[1..]) == Parsed(upper, rest)
  }

  /** The pieces a compiled BETWEEN was put together from. */
  lemma BetweenPieces(names: Names, left: Expr, lower: Expr, upper: Expr, args: seq<Arg>, code: Code) returns (l: Code, lo: Code, up: Code)
    requires BetweenSql(names, left, lower, upper, args) == Some(code) && Readable(left)
    ensures ScalarSql(names, left, args) == Some(l) && SoundScalar(names, left)
    ensures ScalarSql(names, lower, l.args) == Some(lo) && ScalarSql(names, upper, lo.args) == Some(up) && up.args == code.args
    ensures code.text == l.text + [BetweenWord] + lo.text + [AndWord] + up.text
  {
    l := ValueSql(names, left, args).value;
    lo := ScalarSql(names, lower, l.args).value;
    up := ScalarSql(names, upper, lo.args).value;
    ValueIsScalar(names, left, args);
  }

  lemma BetweenReads(w: World, names: Names, all: seq<Arg>, left: Expr, lower: Expr, upper: Expr, args: seq<Arg>, code: Code,
                     rest: seq<Token>) returns (tree: Tree)
    requires BetweenSql(names, left, lower, upper, args) == Some(code) && Readable(left) && SoundScalar(names, lower) && SoundScalar(names, upper)
    requires code.args <= all && Stops(NOT, rest)
    ensures Read(NOT, code.text + rest) == Parsed(tree, rest)
    ensures Ranges(w, all, tree, ScalarMeaning(AsRead(w), names, left), ScalarMeaning(AsRead(w), names, lower), ScalarMeaning(AsRead(w), names, upper))
  {
    var l, lo, up := BetweenPieces(names, left, lower, upper, args, code);
    tree := BetweenParts(w, names, all, left, lower, upper, args, l, lo, up, rest);
    Regroup5(l.text, [BetweenWord], lo.text, [AndWord], up.text, rest);
  }

  /** A range test over operands with these values. */
  predicate Ranges(w: World, all: seq<Arg>, tree: Tree, value: Datum, low: Datum, high: Datum) {
    tree.Ranging? && ValueOf(w, all, tree.operand) == value && ValueOf(w, all, tree.lower) == low && ValueOf(w, all, tree.upper) == high
  }

  lemma RangesHold(w: World, all: seq<Arg>, tree: Tree, value: Datum, low: Datum, high: Datum)
    requires Ranges(w, all, tree, value, low, high)
    ensures Holds(w, all, tree) == And3(w.compare(">=", value, low), w.compare("<=", value, high))
  {
  }

  lemma BetweenParts(w: World, names: Names, all: seq<Arg>, left: Expr, lower: Expr, upper: Expr, args: seq<Arg>, l: Code, lo: Code, up: Code,
                     rest: seq<Token>) returns (tree: Tree)
    requires ScalarSql(names, left, args) == Some(l) && SoundScalar(names, left)
    requires ScalarSql(names, lower, l.args) == Some(lo) && ScalarSql(names, upper, lo.args) == Some(up) && up.args <= all
    requires SoundScalar(names, lower) && SoundScalar(names, upper) && Stops(NOT, rest)
    ensures Read(NOT, l.text + ([BetweenWord] + (lo.text + ([AndWord] + (up.text + rest))))) == Parsed(tree, rest)
    ensures Ranges(w, all, tree, ScalarMeaning(AsRead(w), names, left), ScalarMeaning(AsRead(w), names, lower), ScalarMeaning(AsRead(w), names, upper))
  {
    var low, high := BoundsRead(w, names, all, lower, upper, l.args, lo, up, rest);
    tree := RangeReads(w, names, all, left, args, l, lo.text + ([AndWord] + (up.text + rest)), low, high, rest);
  }

  lemma BoundsRead(w: World, names: Names, all: seq<Arg>, lower: Expr, upper: Expr, args: seq<Arg>, lo: Code, up: Code, rest: seq<Token>)
    returns (first: Tree, second: Tree)
    requires ScalarSql(names, lower, args) == Some(lo) && ScalarSql(names, upper, lo.args) == Some(up) && up.args <= all
    requires SoundScalar(names, lower) && SoundScalar(names, upper) && Stops(NOT, rest)
    ensures ReadsBounds(lo.text + ([AndWord] + (up.text + rest)), rest, first, second)
    ensures ValueOf(w, all, first) == ScalarMeaning(AsRead(w), names, lower) && ValueOf(w, all, second) == ScalarMeaning(AsRead(w), names, upper)
  {
    first := ScalarReads(w, names, all, lower, args, lo, OPERATOR, [AndWord] + (up.text + rest));
    second := ScalarReads(w, names, all, upper, lo.args, up, OPERATOR, rest);
    TailOf(AndWord, up.text + rest);
  }

  lemma RangeReads(w: World, names: Names, all: seq<Arg>, left: Expr, args: seq<Arg>, l: Code, bounds: seq<Token>, lower: Tree, upper: Tree,
                   rest: seq<Token>) returns (tree: Tree)
    requires ScalarSql(names, left, args) == Some(l) && SoundScalar(names, left) && l.args <= all
    requires ReadsBounds(bounds, rest, lower, upper) && Stops(NOT, rest)
    ensures Read(NOT, l.text + ([BetweenWord] + bounds)) == Parsed(tree, rest)
    ensures tree.Ranging? && tree.lower == lower && tree.upper == upper && ValueOf(w, all, tree.operand) == ScalarMeaning(AsRead(w), names, left)
  {
    var operand := ScalarReads(w, names, all, left, args, l, OPERATOR, [BetweenWord] + bounds);
    BetweenText(l.text, bounds, rest, operand, lower, upper);
    tree := Ranging(operand, lower, upper);
  }

  lemma BetweenText(l: seq<Token>, bounds: seq<Token>, rest: seq<Token>, left: Tree, lower: Tree, upper: Tree)
    requires l != [] && l[0] != NotWord && Stops(NOT, rest)
    requires Read(OPERATOR, l + ([BetweenWord] + bounds)) == Parsed(left, [BetweenWord] + bounds)
    requires ReadsBounds(bounds, rest, lower, upper)
    ensures Read(NOT, l + ([BetweenWord] + bounds)) == Parsed(Ranging(left, lower, upper), rest)
  {
    TailOf(BetweenWord, bounds);
    assert Continue(RANGE, left, [BetweenWord] + bounds) == Parsed(Ranging(left, lower, upper), rest);
    Descend(NOT, RANGE, l + ([BetweenWord] + bounds), Ranging(left, lower, upper), rest);
  }

  lemma {:induction false} ListReads(w: World, names: Names, all: seq<Arg>, es: seq<Expr>, args: seq<Arg>, code: Code, rest: seq<Token>,
                                     datum: Datum) returns (trees: seq<Tree>)
    requires ScalarsSql(names, es, args) == Some(code) && forall i :: 0 <= i < |es| ==> SoundScalar(names, es[i])
    requires code.args <= all && Stops(OR, rest) && !At(rest, Comma)
    ensures ReadList(code.text + rest) == ParsedList(trees, rest)
    ensures EqualsAny(w, all, datum, trees) == MemberMeaning(AsRead(w), names, datum, es)
    decreases |es|, 1
  {
    var first := ScalarSql(names, es[0], args).value;
    if |es| == 1 {
      var tree := ScalarReads(w, names, all, es[0], args, first, OR, rest);
      trees := [tree];
      assert es[1..] == [] && trees[1..] == [];
    } else {
      var more := ScalarsSql(names, es[1..], first.args).value;
      Regroup3(first.text, [Comma], more.text, rest);
      trees := ListParts(w, names, all, es, args, first, more, rest, datum);
    }
  }

  lemma ListParts(w: World, names: Names, all: seq<Arg>, es: seq<Expr>, args: seq<Arg>, first: Code, more: Code, rest: seq<Token>, datum: Datum)
    returns (trees: seq<Tree>)
    requires |es| > 1 && ScalarSql(names, es[0], args) == Some(first) && ScalarsSql(names, es[1..], first.args) == Some(more)
    requires forall i :: 0 <= i < |es| ==> SoundScalar(names, es[i])
    requires more.args <= all && Stops(OR, rest) && !At(rest, Comma)
    ensures ReadList(first.text + ([Comma] + (more.text + rest))) == ParsedList(trees, rest)
    ensures EqualsAny(w, all, datum, trees) == MemberMeaning(AsRead(w), names, datum, es)
    decreases |es|, 0
  {
    var tree := ScalarReads(w, names, all, es[0], args, first, OR, [Comma] + (more.text + rest));
    var others := ListReads(w, names, all, es[1..], first.args, more, rest, datum);
    ListStep(first.text, more.text, rest, tree, others);
    trees := [tree] + others;
    assert trees[1..] == others;
  }

  lemma ListStep(first: seq<Token>, more: seq<Token>, rest: seq<Token>, tree: Tree, others: seq<Tree>)
    requires Read(OR, first + ([Comma] + (more + rest))) == Parsed(tree, [Comma] + (more + rest))
    requires ReadList(more + rest) == ParsedList(others, rest)
    ensures ReadList(first + ([Comma] + (more + rest))) == ParsedList([tree] + others, rest)
  {
    TailOf(Comma, more + rest);
  }

  /** A membership test of an operand with this value, with this outcome. */
  predicate Belongs(w: World, all: seq<Arg>, tree: Tree, value: Datum, outcome: Truth) {
    tree.Membership? && ValueOf(w, all, tree.operand) == value && EqualsAny(w, all, value, tree.values) == outcome
  }

  lemma BelongsHolds(w: World, all: seq<Arg>, tree: Tree, value: Datum, outcome: Truth)
    requires Belongs(w, all, tree, value, outcome)
    ensures Holds(w, all, tree) == outcome
  {
  }

  lemma MembershipPieces(names: Names, left: Expr, values: seq<Expr>, args: seq<Arg>, code: Code) returns (l: Code, v: Code)
    requires MembershipSql(names, left, values, args) == Some(code) && Readable(left)
    ensures ScalarSql(names, left, args) == Some(l) && SoundScalar(names, left)
    ensures ScalarsSql(names, values, l.args) == Some(v) && v.args == code.args
    ensures code.text == l.text + [InWord] + [LParen] + v.text + [RParen]
  {
    l := ValueSql(names, left, args).value;
    v := ScalarsSql(names, values, l.args).value;
    ValueIsScalar(names, left, args);
  }

  lemma MembershipReads(w: World, names: Names, all: seq<Arg>, left: Expr, values: seq<Expr>, args: seq<Arg>, code: Code, rest: seq<Token>)
    returns (tree: Tree)
    requires MembershipSql(names, left, values, args) == Some(code) && Readable(left) && forall i :: 0 <= i < |values| ==> SoundScalar(names, values[i])
    requires code.args <= all && Stops(NOT, rest)
    ensures Read(NOT, code.text + rest) == Parsed(tree, rest)
    ensures Belongs(w, all, tree, ScalarMeaning(AsRead(w), names, left), MemberMeaning(AsRead(w), names, ScalarMeaning(AsRead(w), names, left), values))
  {
    var l, v := MembershipPieces(names, left, values, args, code);
    tree := MembershipParts(w, names, all, left, values, args, l, v, rest);
    Regroup5(l.text, [InWord], [LParen], v.text, [RParen], rest);
  }

  lemma MembershipParts(w: World, names: Names, all: seq<Arg>, left: Expr, values: seq<Expr>, args: seq<Arg>, l: Code, v: Code,
                        rest: seq<Token>) returns (tree: Tree)
    requires ScalarSql(names, left, args) == Some(l) && SoundScalar(names, left) && ScalarsSql(names, values, l.args) == Some(v)
    requires forall i :: 0 <= i < |values| ==> SoundScalar(names, values[i])
    requires v.args <= all && Stops(NOT, rest)
    ensures Read(NOT, l.text + ([InWord] + ([LParen] + (v.text + ([RParen] + rest))))) == Parsed(tree, rest)
    ensures Belongs(w, all, tree, ScalarMeaning(AsRead(w), names, left), MemberMeaning(AsRead(w), names, ScalarMeaning(AsRead(w), names, left), values))
  {
    var trees := ListReads(w, names, all, values, l.args, v, [RParen] + rest, ScalarMeaning(AsRead(w), names, left));
    tree := MemberReads(w, names, all, left, args, l, v.text + ([RParen] + rest), trees, rest);
  }

  lemma MemberReads(w: World, names: Names, all: seq<Arg>, left: Expr, args: seq<Arg>, l: Code, list: seq<Token>, values: seq<Tree>,
                    rest: seq<Token>) returns (tree: Tree)
    requires ScalarSql(names, left, args) == Some(l) && SoundScalar(names, left) && l.args <= all
    requires ReadList(list) == ParsedList(values, [RParen] + rest) && Stops(NOT, rest)
    ensures Read(NOT, l.text + ([InWord] + ([LParen] + list))) == Parsed(tree, rest)
    ensures tree.Membership? && tree.values == values && ValueOf(w, all, tree.operand) == ScalarMeaning(AsRead(w), names, left)
  {
    var operand := ScalarReads(w, names, all, left, args, l, OPERATOR, [InWord] + ([LParen] + list));
    MembershipText(l.text, list, rest, operand, values);
    tree := Membership(operand, values);
  }

  lemma MembershipText(l: seq<Token>, list: seq<Token>, rest: seq<Token>, left: Tree, values: seq<Tree>)
    requires l != [] && l[0] != NotWord && Stops(NOT, rest)
    requires Read(OPERATOR, l + ([InWord] + ([LParen] + list))) == Parsed(left, [InWord] + ([LParen] + list))
    requires ReadList(list) == ParsedList(values, [RParen] + rest)
    ensures Read(NOT, l + ([InWord] + ([LParen] + list))) == Parsed(Membership(left, values), rest)
  {
    var after := [InWord] + ([LParen] + list);
    TailOf(InWord, [LParen] + list);
    TailOf(LParen, list);
    TailOf(RParen, rest);
    assert after[2..] == list;
    assert Continue(RANGE, left, after) == Parsed(Membership(left, values), rest);
    Descend(NOT, RANGE, l + after, Membership(left, values), rest);
  }

  lemma NullTestReads(w: World, names: Names, all: seq<Arg>, left: Expr, negated: bool, args: seq<Arg>, code: Code, rest: seq<Token>)
    returns (tree: Tree)
    requires NullTestSql(names, left, negated, args) == Some(code) && Readable(left) && code.args <= all && Stops(NOT, rest)
    ensures Read(NOT, code.text + rest) == Parsed(tree, rest)
    ensures Holds(w, all, tree) == OfBool((ScalarMeaning(AsRead(w), names, left) == NullDatum) != negated)
  {
    var l := ValueSql(names, left, args).value;
    var test := [IsWord] + (if negated then [NotWord] else []) + [NullWord];
    ValueIsScalar(names, left, args);
    assert code.text + rest == l.text + (test + rest);
    var operand := ScalarReads(w, names, all, left, args, l, COMPARISON, test + rest);
    NullTestText(l.text, negated, rest, operand);
    tree := NullTest(operand, negated);
  }

  lemma NullTestText(l: seq<Token>, negated: bool, rest: seq<Token>, left: Tree)
    requires l != [] && l[0] != NotWord && Stops(NOT, rest)
    requires var test := [IsWord] + (if negated then [NotWord] else []) + [NullWord];
      Read(COMPARISON, l + (test + rest)) == Parsed(left, test + rest)
    ensures var test := [IsWord] + (if negated then [NotWord] else []) + [NullWord];
      Read(NOT, l + (test + rest)) == Parsed(NullTest(left, negated), rest)
  {
    var test := [IsWord] + (if negated then [NotWord] else []) + [NullWord];
    var after := test + rest;
    assert after[1..][0] == if negated then NotWord else NullWord;
    assert negated ==> after[2..][0] == NullWord && after[3..] == rest;
    assert !negated ==> after[2..] == rest;
    assert Continue(IS, left, after) == Continue(IS, NullTest(left, negated), rest);
    Descend(NOT, IS, l + after, NullTest(left, negated), rest);
  }

  lemma PredicateReads(w: World, names: Names, all: seq<Arg>, e: Expr, args: seq<Arg>, code: Code, rest: seq<Token>) returns (tree: Tree)
    requires PredicateSql(names, e, args) == Some(code) && Sound(names, e) && code.args <= all && Stops(NOT, rest)
    ensures Read(NOT, code.text + rest) == Parsed(tree, rest)
    ensures Holds(w, all, tree) == PredicateMeaning(AsRead(w), names, e)
  {
    match e
    case Comparison(op, left, right) =>
      tree := ComparisonReads(w, names, all, op, left, right, args, code, rest);
      ComparesHolds(w, all, tree, OperatorName(op), ScalarMeaning(AsRead(w), names, left), ScalarMeaning(AsRead(w), names, right));
    case InComparison(left, values) =>
      tree := MembershipReads(w, names, all, left, values, args, code, rest);
      BelongsHolds(w, all, tree, ScalarMeaning(AsRead(w), names, left), MemberMeaning(AsRead(w), names, ScalarMeaning(AsRead(w), names, left), values));
    case BetweenComparison(left, lower, upper) =>
      tree := BetweenReads(w, names, all, left, lower, upper, args, code, rest);
      RangesHold(w, all, tree, ScalarMeaning(AsRead(w), names, left), ScalarMeaning(AsRead(w), names, lower), ScalarMeaning(AsRead(w), names, upper));
    case NullComparison(left, negated) => tree := NullTestReads(w, names, all, left, negated, args, code, rest);
    case RelationPredicate(relationType, direction) => tree := RelationReads(w, all, relationType, direction, args, rest);
    case BucketPredicate(name) => tree := InBucketReads(w, all, name, args, rest);
  }

  lemma RelationReads(w: World, all: seq<Arg>, relationType: string, direction: string, args: seq<Arg>, rest: seq<Token>) returns (tree: Tree)
    requires args + [TextArg(relationType)] <= all && Stops(NOT, rest)
    ensures Read(NOT, [ExistsRelation(direction, |args| + 1)] + rest) == Parsed(tree, rest)
    ensures Holds(w, all, tree) == OfBool(w.related(direction, TextArg(relationType)))
  {
    NewestArg(all, args, TextArg(relationType));
    AtomAt(NOT, ExistsRelation(direction, |args| + 1), rest);
    tree := Atom(ExistsRelation(direction, |args| + 1));
  }

  lemma InBucketReads(w: World, all: seq<Arg>, name: string, args: seq<Arg>, rest: seq<Token>) returns (tree: Tree)
    requires args + [TextArg(name)] <= all && Stops(NOT, rest)
    ensures Read(NOT, [Column("bucket_id"), Compare("="), BucketIdQuery(|args| + 1)] + rest) == Parsed(tree, rest)
    ensures Holds(w, all, tree) == w.compare("=", w.column("bucket_id"), w.bucketId(TextArg(name)))
  {
    NewestArg(all, args, TextArg(name));
    tree := BucketReads(BucketIdQuery(|args| + 1), rest);
  }

  /** objects.bucket_id = atom. */
  lemma BucketReads(token: Token, rest: seq<Token>) returns (tree: Tree)
    requires IsAtom(token) && Stops(NOT, rest)
    ensures Read(NOT, [Column("bucket_id"), Compare("="), token] + rest) == Parsed(tree, rest)
    ensures tree == Comparing("=", Atom(Column("bucket_id")), Atom(token))
  {
    var l, r := [Column("bucket_id")], [token];
    AtomAt(RANGE, Column("bucket_id"), [Compare("=")] + (r + rest));
    AtomAt(RANGE, token, rest);
    CompareText(Compare("="), l + ([Compare("=")] + (r + rest)), r + rest, rest, Atom(Column("bucket_id")), Atom(token));
    Regroup3(l, [Compare("=")], r, rest);
    assert l + [Compare("=")] + r + rest == [Column("bucket_id"), Compare("="), token] + rest;
    tree := Comparing("=", Atom(Column("bucket_id")), Atom(token));
  }
}
