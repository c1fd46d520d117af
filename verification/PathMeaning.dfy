/**
 Attribute paths of compiled conditions: each of them gets into the text, so that one that cannot be read spoils the
 whole; and the plain ones are looked up as they are.
 */
module PathMeaning {
  import opened Values
  import opened QueryAst
  import opened PathLiterals
  import opened SqlText
  import opened AttributePath
  import opened Compile
  import opened CompileMeaning

  // ----- Every path of an expression is in its text -----

  ghost predicate AllLegible(text: seq<Token>) {
    forall token :: token in text ==> Legible(token)
  }

  lemma LegibleParts(a: seq<Token>, b: seq<Token>, c: seq<Token>)
    requires AllLegible(a + b + c)
    ensures AllLegible(a) && AllLegible(c)
  {
    forall token | token in a || token in c ensures Legible(token) {
      assert token in a + b + c;
    }
  }

  lemma AttributeIsLegible(path: string, typ: string, text: seq<Token>)
    requires AttributeSql(path, typ) == Some(text) && AllLegible(text)
    ensures ReadablePath(path)
  {
    var literal := PathLiteral(LiteralText(JsonPath(path).value));
    assert literal == if Uncast(typ) then text[2] else text[3];
    assert literal in text && Legible(literal);
  }

  lemma {:induction false} ScalarIsLegible(names: Names, e: Expr, args: seq<Arg>, code: Code)
    requires ScalarSql(names, e, args) == Some(code) && AllLegible(code.text)
    ensures Readable(e)
    decreases e
  {
    match e
    case ArithmeticExpr(op, left, right) =>
      var l := ScalarSql(names, left, args).value;
      var r := ScalarSql(names, right, l.args).value;
      SumIsLegible(op, l, r);
      ScalarIsLegible(names, left, args, l);
      ScalarIsLegible(names, right, l.args, r);
    case AttrRef(path) => AttributeIsLegible(path, AttrType(names, path), code.text);
    case CastExpr(AttrRef(path), typ) =>
      AttributeIsLegible(path, typ, code.text);
      CastIsReadable(path, typ);
    case CastExpr(StringLiteral(text), _) => assert Readable(StringLiteral(text));
    case _ =>
  }

  lemma SumIsLegible(op: string, l: Code, r: Code)
    requires AllLegible(SumSql(op, l, r).text)
    ensures AllLegible(l.text) && AllLegible(r.text)
  {
    forall token | token in l.text || token in r.text ensures Legible(token) {
      assert token in SumSql(op, l, r).text;
    }
  }

  lemma {:induction false} ScalarsAreLegible(names: Names, es: seq<Expr>, args: seq<Arg>, code: Code)
    requires ScalarsSql(names, es, args) == Some(code) && AllLegible(code.text)
    ensures forall i :: 0 <= i < |es| ==> Readable(es[i])
    decreases |es|
  {
    var first := ScalarSql(names, es[0], args).value;
    if |es| == 1 {
      ScalarIsLegible(names, es[0], args, first);
    } else {
      var more := ScalarsSql(names, es[1..], first.args).value;
      LegibleParts(first.text, [Comma], more.text);
      ScalarIsLegible(names, es[0], args, first);
      ScalarsAreLegible(names, es[1..], first.args, more);
      assert forall i :: 1 <= i < |es| ==> es[i] == es[1..][i - 1];
    }
  }

  lemma ValueIsLegible(names: Names, e: Expr, args: seq<Arg>, code: Code)
    requires ValueSql(names, e, args) == Some(code) && AllLegible(code.text)
    ensures Readable(e)
  {
    match e
    case AttrRef(path) => AttributeIsLegible(path, AttrType(names, path), code.text);
    case CastExpr(AttrRef(path), typ) =>
      AttributeIsLegible(path, typ, code.text);
      CastIsReadable(path, typ);
    case CastExpr(StringLiteral(text), _) => assert Readable(StringLiteral(text));
    case _ =>
  }

  lemma ComparisonIsLegible(names: Names, op: string, left: Expr, right: Expr, args: seq<Arg>, code: Code)
    requires ComparisonSql(names, op, left, right, args) == Some(code) && AllLegible(code.text)
    ensures Readable(left) && Readable(right)
  {
    var l := ScalarSql(names, left, args).value;
    var r := ScalarSql(names, right, l.args).value;
    LegibleParts(l.text, [SqlOperator(op).value], r.text);
    ScalarIsLegible(names, left, args, l);
    ScalarIsLegible(names, right, l.args, r);
  }

  lemma MembershipIsLegible(names: Names, left: Expr, values: seq<Expr>, args: seq<Arg>, code: Code)
    requires MembershipSql(names, left, values, args) == Some(code) && AllLegible(code.text)
    ensures Readable(left) && forall i :: 0 <= i < |values| ==> Readable(values[i])
  {
    var l := ValueSql(names, left, args).value;
    var v := ScalarsSql(names, values, l.args).value;
    forall token | token in l.text || token in v.text ensures Legible(token) {
      assert token in l.text + [InWord] + [LParen] + v.text + [RParen];
    }
    ValueIsLegible(names, left, args, l);
    ScalarsAreLegible(names, values, l.args, v);
  }

  lemma BetweenIsLegible(names: Names, left: Expr, lower: Expr, upper: Expr, args: seq<Arg>, code: Code)
    requires BetweenSql(names, left, lower, upper, args) == Some(code) && AllLegible(code.text)
    ensures Readable(left) && Readable(lower) && Readable(upper)
  {
    var l := ValueSql(names, left, args).value;
    var lo := ScalarSql(names, lower, l.args).value;
    var up := ScalarSql(names, upper, lo.args).value;
    LegibleParts(l.text + [BetweenWord] + lo.text, [AndWord], up.text);
    LegibleParts(l.text, [BetweenWord], lo.text);
    ValueIsLegible(names, left, args, l);
    ScalarIsLegible(names, lower, l.args, lo);
    ScalarIsLegible(names, upper, lo.args, up);
  }

  lemma NullTestIsLegible(names: Names, left: Expr, negated: bool, args: seq<Arg>, code: Code)
    requires NullTestSql(names, left, negated, args) == Some(code) && AllLegible(code.text)
    ensures Readable(left)
  {
    var l := ValueSql(names, left, args).value;
    forall token | token in l.text ensures Legible(token) {
      assert token in code.text;
    }
    ValueIsLegible(names, left, args, l);
  }

  lemma PredicateIsLegible(names: Names, e: Expr, args: seq<Arg>, code: Code)
    requires PredicateSql(names, e, args) == Some(code) && AllLegible(code.text)
    ensures Readable(e)
  {
    match e
    case Comparison(op, left, right) => ComparisonIsLegible(names, op, left, right, args, code);
    case InComparison(left, values) => MembershipIsLegible(names, left, values, args, code);
    case BetweenComparison(left, lower, upper) => BetweenIsLegible(names, left, lower, upper, args, code);
    case NullComparison(left, negated) => NullTestIsLegible(names, left, negated, args, code);
    case _ =>
  }

  /** A condition whose text holds only readable literals has only readable paths. */
  lemma {:induction false} ExprIsLegible(names: Names, e: Expr, nested: bool, args: seq<Arg>, code: Code)
    requires ExprSql(names, e, nested, args) == Some(code) && AllLegible(code.text)
    ensures Readable(e)
    decreases e, 0
  {
    match e
    case BoolExpr(op, terms) =>
      var inner := TermsSql(names, op, terms, args).value;
      forall token | token in inner.text ensures Legible(token) {
        assert token in code.text;
      }
      TermsAreLegible(names, op, terms, args, inner);
    case NotExpr(inner) =>
      var operand := ExprSql(names, inner, true, args).value;
      forall token | token in operand.text ensures Legible(token) {
        assert token in code.text;
      }
      ExprIsLegible(names, inner, true, args, operand);
    case _ => PredicateIsLegible(names, e, args, code);
  }

  lemma {:induction false} TermsAreLegible(names: Names, op: string, terms: seq<Expr>, args: seq<Arg>, code: Code)
    requires TermsSql(names, op, terms, args) == Some(code) && AllLegible(code.text)
    ensures forall i :: 0 <= i < |terms| ==> Readable(terms[i])
    decreases terms, 0
  {
    var first := ExprSql(names, terms[0], true, args).value;
    if |terms| == 1 {
      ExprIsLegible(names, terms[0], true, args, first);
    } else {
      var more := TermsSql(names, op, terms[1..], first.args).value;
      LegibleParts(first.text, [Joiner(op)], more.text);
      ExprIsLegible(names, terms[0], true, args, first);
      TermsAreLegible(names, op, terms[1..], first.args, more);
      assert forall i :: 1 <= i < |terms| ==> terms[i] == terms[1..][i - 1];
    }
  }

  // ----- Plain paths are looked up as they are -----

  /** Every name of the path is plain, so that its literal stands for it. */
  predicate PlainAttribute(path: string) {
    JsonPath(path).Some? ==> PlainPath(JsonPath(path).value)
  }

  predicate Plain(e: Expr) {
    PathsAre(PlainAttribute, e)
  }

  lemma NamesOfAll(parts: seq<string>)
    ensures Steps(AllSome(parts)) == parts && None !in AllSome(parts)
  {
  }

  lemma PlainPathValue(w: World, parts: seq<string>)
    requires parts != [] && PlainPath(parts)
    ensures ReadLiteral(LiteralText(parts)).Some? && PathValue(w, LiteralText(parts)) == w.attribute(parts)
  {
    ReadsBackIff(parts);
    NamesOfAll(parts);
  }

  lemma {:induction false} PlainIsReadable(e: Expr)
    requires Plain(e)
    ensures Readable(e)
    decreases e
  {
    match e
    case BoolExpr(_, terms) => forall i | 0 <= i < |terms| ensures Readable(terms[i]) { PlainIsReadable(terms[i]); }
    case NotExpr(inner) => PlainIsReadable(inner);
    case Comparison(_, left, right) =>
      PlainIsReadable(left);
      PlainIsReadable(right);
    case InComparison(left, values) =>
      PlainIsReadable(left);
      forall i | 0 <= i < |values| ensures Readable(values[i]) { PlainIsReadable(values[i]); }
    case BetweenComparison(left, lower, upper) =>
      PlainIsReadable(left);
      PlainIsReadable(lower);
      PlainIsReadable(upper);
    case NullComparison(left, _) => PlainIsReadable(left);
    case AttrRef(path) => PathIsReadable(path);
    case CastExpr(inner, _) => PlainIsReadable(inner);
    case ArithmeticExpr(_, left, right) =>
      PlainIsReadable(left);
      PlainIsReadable(right);
    case _ =>
  }

  lemma PathIsReadable(path: string)
    requires PlainAttribute(path)
    ensures ReadablePath(path)
  {
    if JsonPath(path).Some? {
      ReadsBackIff(JsonPath(path).value);
    }
  }

  lemma PlainAttributeValue(w: World, path: string, typ: string)
    requires PlainAttribute(path)
    ensures AttributeValue(AsRead(w), path, typ) == AttributeValue(w, path, typ)
  {
    if JsonPath(path).Some? {
      PlainPathValue(w, JsonPath(path).value);
    }
  }

  lemma {:induction false} PlainScalar(w: World, names: Names, e: Expr)
    requires Plain(e)
    ensures ScalarMeaning(AsRead(w), names, e) == ScalarMeaning(w, names, e)
    decreases e
  {
    match e
    case AttrRef(path) => PlainAttributeValue(w, path, AttrType(names, path));
    case CastExpr(AttrRef(path), typ) =>
      assert Plain(AttrRef(path));
      PlainAttributeValue(w, path, typ);
    case ArithmeticExpr(_, left, right) =>
      PlainScalar(w, names, left);
      PlainScalar(w, names, right);
    case _ =>
  }

  lemma {:induction false} PlainMembers(w: World, names: Names, datum: Datum, values: seq<Expr>)
    requires forall i :: 0 <= i < |values| ==> Plain(values[i])
    ensures MemberMeaning(AsRead(w), names, datum, values) == MemberMeaning(w, names, datum, values)
    decreases |values|
  {
    if values != [] {
      PlainScalar(w, names, values[0]);
      PlainMembers(w, names, datum, values[1..]);
    }
  }

  lemma PlainPredicate(w: World, names: Names, e: Expr)
    requires Plain(e)
    ensures PredicateMeaning(AsRead(w), names, e) == PredicateMeaning(w, names, e)
  {
    match e
    case Comparison(_, left, right) =>
      PlainScalar(w, names, left);
      PlainScalar(w, names, right);
    case InComparison(left, values) =>
      PlainScalar(w, names, left);
      PlainMembers(w, names, ScalarMeaning(w, names, left), values);
    case BetweenComparison(left, lower, upper) =>
      PlainScalar(w, names, left);
      PlainScalar(w, names, lower);
      PlainScalar(w, names, upper);
    case NullComparison(left, _) => PlainScalar(w, names, left);
    case _ =>
  }

  /** A condition with plain paths says of the attributes it names what it says of those its literals stand for. */
  lemma {:induction false} PlainMeaning(w: World, names: Names, e: Expr)
    requires Plain(e)
    ensures Meaning(AsRead(w), names, e) == Meaning(w, names, e)
    decreases e, 0
  {
    match e
    case BoolExpr(op, terms) => PlainTermsMeaning(w, names, op, terms);
    case NotExpr(inner) => PlainMeaning(w, names, inner);
    case _ => PlainPredicate(w, names, e);
  }

  lemma {:induction false} PlainTermsMeaning(w: World, names: Names, op: string, terms: seq<Expr>)
    requires forall i :: 0 <= i < |terms| ==> Plain(terms[i])
    ensures TermsMeaning(AsRead(w), names, op, terms) == TermsMeaning(w, names, op, terms)
    decreases terms, 0
  {
    if terms != [] {
      PlainMeaning(w, names, terms[0]);
      PlainTermsMeaning(w, names, op, terms[1..]);
    }
  }
}
