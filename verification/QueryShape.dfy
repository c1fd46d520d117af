/** The shape of every parsed condition: OR and AND have at least two terms, nesting is bounded, operands hold no conditions. */
module QueryShape {
  import opened Values
  import opened QueryAst
  import opened Grammar
  import opened Parse
  import opened ParseSound

  predicate Scalar(e: Expr) {
    match e
    case CastExpr(operand, _) => Scalar(operand)
    case ArithmeticExpr(_, left, right) => Scalar(left) && Scalar(right)
    case FieldRef(_) => true
    case AttrRef(_) => true
    case NowExpr => true
    case NullLiteral => true
    case _ => e.StringLiteral? || e.IntLiteral? || e.FloatLiteral? || e.BoolLiteral? || e.TimestampLiteral? || e.IntervalLiteral?
  }

  predicate Shaped(e: Expr)
    decreases e
  {
    match e
    case BoolExpr(op, terms) => op in {BOOL_AND, BOOL_OR} && |terms| >= 2 && forall i :: 0 <= i < |terms| ==> Shaped(terms[i])
    case NotExpr(inner) => Shaped(inner)
    case Comparison(_, left, right) => Scalar(left) && Scalar(right)
    case InComparison(left, values) => Scalar(left) && |values| > 0 && forall i :: 0 <= i < |values| ==> Scalar(values[i])
    case BetweenComparison(left, lower, upper) => Scalar(left) && Scalar(lower) && Scalar(upper)
    case NullComparison(left, _) => Scalar(left)
    case RelationPredicate(_, direction) => direction in {RELATION_ANY, RELATION_OUT, RELATION_IN}
    case BucketPredicate(_) => true
    case _ => false
  }

  /** At most `levels` AND and OR nodes lie on any path. */
  predicate Within(e: Expr, levels: nat)
    decreases e
  {
    match e
    case BoolExpr(_, terms) => levels > 0 && forall i :: 0 <= i < |terms| ==> Within(terms[i], levels - 1)
    case NotExpr(inner) => Within(inner, levels)
    case _ => true
  }

  lemma {:induction false} WithinMore(e: Expr, levels: nat, more: nat)
    requires Within(e, levels) && levels <= more
    ensures Within(e, more)
    decreases e
  {
    match e
    case BoolExpr(_, terms) =>
      forall i | 0 <= i < |terms| ensures Within(terms[i], more - 1) {
        WithinMore(terms[i], levels - 1, more - 1);
      }
    case NotExpr(inner) => WithinMore(inner, levels, more);
    case _ =>
  }

  // ----- Operands -----

  lemma {:induction false} OperandIsScalar(words: Words, c: Operand)
    requires LegalOperand(words, c)
    ensures Scalar(AstOperand(words, c))
    decreases c
  {
    CastedIsScalar(words, c.head);
    SumsAreScalar(words, AstCasted(words, c.head), c.sums);
  }

  lemma {:induction false} CastedIsScalar(words: Words, c: Casted)
    requires LegalCasted(words, c)
    ensures Scalar(AstCasted(words, c))
    decreases c
  {
    if c.primary.CastCall? {
      OperandIsScalar(words, c.primary.operand);
    }
    CastsAreScalar(words, AstPrimary(words, c.primary), c.casts);
  }

  lemma {:induction false} CastsAreScalar(words: Words, inner: Expr, c: Casts)
    requires LegalCasts(words, c) && Scalar(inner)
    ensures Scalar(AstCasts(words, inner, c))
    decreases c
  {
    if c.MoreCasts? {
      CastsAreScalar(words, CastExpr(inner, words.castType(c.typ).value), c.more);
    }
  }

  lemma {:induction false} SumsAreScalar(words: Words, left: Expr, c: Sums)
    requires LegalSums(words, c) && Scalar(left)
    ensures Scalar(AstSums(words, left, c))
    decreases c
  {
    if c.MoreSums? {
      CastedIsScalar(words, c.right);
      SumsAreScalar(words, ArithmeticExpr(if c.op == Op("-") then ARITH_SUB else ARITH_ADD, left, AstCasted(words, c.right)), c.more);
    }
  }

  lemma {:induction false} OperandsAreScalar(words: Words, c: Operands)
    requires LegalOperands(words, c)
    ensures var es := AstOperands(words, c); |es| > 0 && forall i :: 0 <= i < |es| ==> Scalar(es[i])
    decreases c
  {
    OperandIsScalar(words, c.operand);
    if c.MoreOperands? {
      OperandsAreScalar(words, c.more);
    }
  }

  lemma TailIsShaped(words: Words, left: Expr, c: Tail)
    requires LegalTail(words, c) && Scalar(left)
    ensures Shaped(AstTail(words, left, c)) && Within(AstTail(words, left, c), 0)
  {
    match c
    case InTail(_, values) => OperandsAreScalar(words, values);
    case BetweenTail(_, lower, _, upper) =>
      OperandIsScalar(words, lower);
      OperandIsScalar(words, upper);
    case CompareTail(_, right) => OperandIsScalar(words, right);
    case _ =>
  }

  // ----- Conditions -----

  ghost predicate AllShaped(es: seq<Expr>, levels: nat) {
    forall i :: 0 <= i < |es| ==> Shaped(es[i]) && Within(es[i], levels)
  }

  lemma {:induction false} TestIsShaped(words: Words, c: Test)
    requires LegalTest(words, c)
    ensures DepthTest(c) > 0 && Shaped(AstTest(words, c)) && Within(AstTest(words, c), 2 * (DepthTest(c) - 1))
    decreases c, 0
  {
    match c
    case Not(_, test) =>
      TestIsShaped(words, test);
      WithinMore(AstTest(words, test), 2 * (DepthTest(test) - 1), 2 * (DepthTest(c) - 1));
    case Group(disj) => DisjIsShaped(words, disj);
    case Tested(left, tail) =>
      OperandIsScalar(words, left);
      TailIsShaped(words, AstOperand(words, left), tail);
      WithinMore(AstTest(words, c), 0, 2 * (DepthTest(c) - 1));
    case _ =>
  }

  lemma {:induction false} ConjTermsAreShaped(words: Words, c: Conj)
    requires LegalConj(words, c)
    ensures DepthConj(c) > 0 && AllShaped(ConjTerms(words, c), 2 * (DepthConj(c) - 1))
    decreases c, 0
  {
    TestIsShaped(words, c.test);
    WithinMore(AstTest(words, c.test), 2 * (DepthTest(c.test) - 1), 2 * (DepthConj(c) - 1));
    if c.AndAlso? {
      ConjTermsAreShaped(words, c.more);
      MoreShaped(ConjTerms(words, c.more), 2 * (DepthConj(c.more) - 1), 2 * (DepthConj(c) - 1));
    }
  }

  lemma MoreShaped(es: seq<Expr>, levels: nat, more: nat)
    requires AllShaped(es, levels) && levels <= more
    ensures AllShaped(es, more)
  {
    forall i | 0 <= i < |es| ensures Within(es[i], more) {
      WithinMore(es[i], levels, more);
    }
  }

  lemma JoinedIsShaped(op: string, es: seq<Expr>, levels: nat)
    requires op in {BOOL_AND, BOOL_OR} && |es| > 0 && AllShaped(es, levels)
    ensures Shaped(Joined(op, es)) && Within(Joined(op, es), levels + 1)
  {
    if |es| == 1 {
      WithinMore(es[0], levels, levels + 1);
    }
  }

  lemma {:induction false} DisjTermsAreShaped(words: Words, c: Disj)
    requires LegalDisj(words, c)
    ensures DepthDisj(c) > 0 && AllShaped(DisjTerms(words, c), 2 * DepthDisj(c) - 1)
    decreases c, 0
  {
    ConjTermsAreShaped(words, c.conj);
    JoinedIsShaped(BOOL_AND, ConjTerms(words, c.conj), 2 * (DepthConj(c.conj) - 1));
    WithinMore(AstConj(words, c.conj), 2 * DepthConj(c.conj) - 1, 2 * DepthDisj(c) - 1);
    if c.OrElse? {
      DisjTermsAreShaped(words, c.more);
      MoreShaped(DisjTerms(words, c.more), 2 * DepthDisj(c.more) - 1, 2 * DepthDisj(c) - 1);
    }
  }

  lemma {:induction false} DisjIsShaped(words: Words, c: Disj)
    requires LegalDisj(words, c)
    ensures Shaped(AstDisj(words, c)) && Within(AstDisj(words, c), 2 * DepthDisj(c))
    decreases c, 1
  {
    DisjTermsAreShaped(words, c);
    JoinedIsShaped(BOOL_OR, DisjTerms(words, c), 2 * DepthDisj(c) - 1);
  }

  /** Whatever condition the parser accepts is shaped, and at most 2 * 64 ANDs and ORs deep. */
  lemma ParsedConditionsAreShaped(words: Words, ts: seq<Token>)
    requires ParseDisj(words, ts, 0).Ok?
    ensures Shaped(ParseDisj(words, ts, 0).value) && Within(ParseDisj(words, ts, 0).value, 2 * MAX_DEPTH)
  {
    var c := SoundDisj(words, ts, 0);
    DisjIsShaped(words, c);
    WithinMore(AstDisj(words, c), 2 * DepthDisj(c), 2 * MAX_DEPTH);
  }
}
