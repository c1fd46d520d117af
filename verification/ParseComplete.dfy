/** Every legal tree within the nesting limit is parsed back from its text, whatever follows it that does not extend it. */
module ParseComplete {
  import opened Values
  import opened QueryAst
  import opened Grammar
  import opened Parse
  import opened ParseSound

  /** What follows does not extend an operand, and does not make its last word a call. */
  predicate EndsOperand(rest: seq<Token>) {
    !Sign(Head(rest)) && Head(rest) != DoubleColon && Head(rest) != LParen
  }

  predicate EndsConj(rest: seq<Token>) {
    EndsOperand(rest) && !At(rest, "and")
  }

  predicate EndsDisj(rest: seq<Token>) {
    EndsConj(rest) && !At(rest, "or")
  }

  lemma Drop(a: seq<Token>, rest: seq<Token>)
    ensures (a + rest)[|a|..] == rest
    ensures a != [] ==> Head(a + rest) == a[0]
  {
  }

  // ----- Operands -----

  lemma CompleteAtom(words: Words, c: Primary, rest: seq<Token>)
    requires LegalPrimary(words, c) && !c.CastCall? && !c.NowCall? && Head(rest) != LParen
    ensures ParseAtom(words, YieldPrimary(c) + rest) == Ok(AstPrimary(words, c), rest)
  {
    var ts := YieldPrimary(c) + rest;
    if c.AttrCall? {
      assert ts[2..][0] == Str(c.path) && ts[3..][0] == RParen && ts[4..] == rest;
    } else if c.Typed? {
      assert ts[1..][0] == Str(c.text) && ts[2..] == rest;
    } else {
      assert ts[1..] == rest && (|ts| > 1 ==> ts[1] == rest[0]);
    }
  }

  lemma {:induction false} CompletePrimary(words: Words, c: Primary, rest: seq<Token>, depth: int)
    requires LegalPrimary(words, c) && depth + DepthPrimary(c) <= MAX_DEPTH && Head(rest) != LParen
    ensures ParsePrimary(words, YieldPrimary(c) + rest, depth) == Ok(AstPrimary(words, c), rest)
    decreases c
  {
    var ts := YieldPrimary(c) + rest;
    match c
    case CastCall(word, operand, asWord, typ) =>
      var after := [asWord, Ident(typ), RParen] + rest;
      CompleteOperand(words, operand, after, depth + 1);
      CastText(word, operand, asWord, typ, rest);
      assert after[1..][0] == Ident(typ) && after[2..][0] == RParen && after[3..] == rest;
    case NowCall(word) =>
      assert ts[2..][0] == RParen && ts[3..] == rest;
    case _ =>
      CompleteAtom(words, c, rest);
      PrimaryStarts(words, c, rest);
  }

  lemma CastText(word: Token, operand: Operand, asWord: Token, typ: string, rest: seq<Token>)
    ensures var ts := YieldPrimary(CastCall(word, operand, asWord, typ)) + rest;
      && ts[0] == word && ts[1..] != [] && ts[1..][0] == LParen
      && ts[1..][1..] == YieldOperand(operand) + ([asWord, Ident(typ), RParen] + rest)
  {
    var inner := YieldOperand(operand) + [asWord, Ident(typ), RParen];
    Assoc([word, LParen], inner, rest);
    Assoc(YieldOperand(operand), [asWord, Ident(typ), RParen], rest);
    Drop([word, LParen], inner + rest);
    assert ([word, LParen] + (inner + rest))[1..][1..] == inner + rest;
  }

  /** No operand looks like a parenthesis, a relation test or a bucket test. */
  lemma PrimaryStarts(words: Words, c: Primary, rest: seq<Token>)
    requires LegalPrimary(words, c) && Head(rest) != LParen
    ensures var ts := YieldPrimary(c) + rest;
      && ts != [] && ts[0] != LParen && ts[0] != RParen && !Calls(ts, "has_relation") && !Calls(ts, "bucket")
      && (At(ts, "not") ==> c.Field? && Keyword(c.word, "not"))
      && (At(ts, "cast") ==> c.CastCall?) && (Calls(ts, "now") ==> c.NowCall?)
  {
    var ts := YieldPrimary(c) + rest;
    if c.Field? || c.Word? {
      assert |ts| > 1 ==> ts[1] == rest[0];
    }
  }

  lemma {:induction false} CompleteCasts(words: Words, inner: Expr, c: Casts, rest: seq<Token>)
    requires LegalCasts(words, c) && Head(rest) != DoubleColon
    ensures ParseCasts(words, inner, YieldCasts(c) + rest) == Ok(AstCasts(words, inner, c), rest)
    decreases c
  {
    match c
    case NoCasts => assert [] + rest == rest;
    case MoreCasts(typ, more) =>
      Assoc([DoubleColon, Ident(typ)], YieldCasts(more), rest);
      Drop([DoubleColon, Ident(typ)], YieldCasts(more) + rest);
      assert (YieldCasts(c) + rest)[1..][0] == Ident(typ);
      CompleteCasts(words, CastExpr(inner, words.castType(typ).value), more, rest);
  }

  lemma CompleteCasted(words: Words, c: Casted, rest: seq<Token>, depth: int)
    requires LegalCasted(words, c) && depth + DepthPrimary(c.primary) <= MAX_DEPTH && Head(rest) != DoubleColon && Head(rest) != LParen
    ensures ParseCasted(words, YieldCasted(c) + rest, depth) == Ok(AstCasted(words, c), rest)
    decreases c
  {
    Assoc(YieldPrimary(c.primary), YieldCasts(c.casts), rest);
    CastsStart(c.casts, rest);
    CompletePrimary(words, c.primary, YieldCasts(c.casts) + rest, depth);
    CompleteCasts(words, AstPrimary(words, c.primary), c.casts, rest);
  }

  lemma CastsStart(c: Casts, rest: seq<Token>)
    ensures Head(YieldCasts(c) + rest) == if c.NoCasts? then Head(rest) else DoubleColon
  {
  }

  lemma SumsStart(c: Sums, rest: seq<Token>)
    ensures Head(YieldSums(c) + rest) == if c.NoSums? then Head(rest) else c.op
  {
  }

  lemma {:induction false} CompleteSums(words: Words, left: Expr, c: Sums, rest: seq<Token>, depth: int)
    requires LegalSums(words, c) && depth + DepthSums(c) <= MAX_DEPTH && EndsOperand(rest)
    ensures ParseSums(words, left, YieldSums(c) + rest, depth) == Ok(AstSums(words, left, c), rest)
    decreases c
  {
    match c
    case NoSums => assert [] + rest == rest;
    case MoreSums(op, right, more) =>
      var after := YieldSums(more) + rest;
      Chain([op], YieldCasted(right), YieldSums(more), rest);
      Drop([op], YieldCasted(right) + after);
      SumsStart(more, rest);
      CompleteCasted(words, right, after, depth);
      CompleteSums(words, ArithmeticExpr(if op == Op("-") then ARITH_SUB else ARITH_ADD, left, AstCasted(words, right)), more, rest, depth);
  }

  lemma CompleteOperand(words: Words, c: Operand, rest: seq<Token>, depth: int)
    requires LegalOperand(words, c) && depth + DepthOperand(c) <= MAX_DEPTH && EndsOperand(rest)
    ensures ParseOperand(words, YieldOperand(c) + rest, depth) == Ok(AstOperand(words, c), rest)
    decreases c
  {
    Assoc(YieldCasted(c.head), YieldSums(c.sums), rest);
    SumsStart(c.sums, rest);
    CompleteCasted(words, c.head, YieldSums(c.sums) + rest, depth);
    CompleteSums(words, AstCasted(words, c.head), c.sums, rest, depth);
  }

  lemma OperandStarts(words: Words, c: Operand, rest: seq<Token>)
    requires LegalOperand(words, c) && EndsOperand(rest)
    ensures var ts := YieldOperand(c) + rest;
      && ts != [] && ts[0] != LParen && ts[0] != RParen && !Calls(ts, "has_relation") && !Calls(ts, "bucket")
      && (At(ts, "not") ==> c.head.primary.Field? && Keyword(c.head.primary.word, "not"))
  {
    var afterCasts := YieldSums(c.sums) + rest;
    var afterPrimary := YieldCasts(c.head.casts) + afterCasts;
    Assoc(YieldCasted(c.head), YieldSums(c.sums), rest);
    Assoc(YieldPrimary(c.head.primary), YieldCasts(c.head.casts), afterCasts);
    SumsStart(c.sums, rest);
    CastsStart(c.head.casts, afterCasts);
    PrimaryStarts(words, c.head.primary, afterPrimary);
  }

  // ----- Tests -----

  lemma {:induction false} CompleteValues(words: Words, c: Operands, rest: seq<Token>, depth: int)
    requires LegalOperands(words, c) && depth + DepthOperands(c) <= MAX_DEPTH && Head(rest) == RParen
    ensures ParseValues(words, YieldOperands(c) + rest, depth) == Ok(AstOperands(words, c), rest)
    ensures Head(YieldOperands(c) + rest) != RParen
    decreases c
  {
    match c
    case OneOperand(operand) =>
      CompleteOperand(words, operand, rest, depth);
      OperandStarts(words, operand, rest);
    case MoreOperands(operand, more) =>
      var after := [Comma] + (YieldOperands(more) + rest);
      Chain(YieldOperand(operand), [Comma], YieldOperands(more), rest);
      CompleteOperand(words, operand, after, depth);
      OperandStarts(words, operand, after);
      CompleteValues(words, more, rest, depth);
      Drop([Comma], YieldOperands(more) + rest);
  }

  lemma TailStarts(words: Words, c: Tail, rest: seq<Token>)
    requires LegalTail(words, c)
    ensures YieldTail(c) != [] && EndsOperand(YieldTail(c) + rest)
  {
    Drop(YieldTail(c), rest);
  }

  lemma CompleteTail(words: Words, left: Expr, c: Tail, rest: seq<Token>, depth: int)
    requires LegalTail(words, c) && depth + DepthTail(c) <= MAX_DEPTH && EndsOperand(rest)
    ensures ParseTail(words, left, YieldTail(c) + rest, depth) == Ok(AstTail(words, left, c), rest)
  {
    match c
    case InTail(word, values) => CompleteIn(words, left, c, rest, depth);
    case BetweenTail(_, _, _, _) => CompleteBetween(words, left, c, rest, depth);
    case NullTail(_, _) => CompleteNullTest(words, left, c, rest, depth);
    case NotNullTail(_, _, _) => CompleteNullTest(words, left, c, rest, depth);
    case CompareTail(op, right) =>
      Assoc([op], YieldOperand(right), rest);
      Drop([op], YieldOperand(right) + rest);
      CompleteOperand(words, right, rest, depth);
  }

  lemma CompleteNullTest(words: Words, left: Expr, c: Tail, rest: seq<Token>, depth: int)
    requires (c.NullTail? || c.NotNullTail?) && LegalTail(words, c)
    ensures ParseTail(words, left, YieldTail(c) + rest, depth) == Ok(AstTail(words, left, c), rest)
  {
    var ts := YieldTail(c) + rest;
    if c.NullTail? {
      assert ts[1..][0] == c.nullWord && ts[1..][1..] == rest;
    } else {
      assert ts[1..][0] == c.notWord && ts[1..][1..][0] == c.nullWord && ts[1..][2..] == rest;
    }
  }

  lemma CompleteIn(words: Words, left: Expr, c: Tail, rest: seq<Token>, depth: int)
    requires c.InTail? && LegalTail(words, c) && depth + DepthTail(c) <= MAX_DEPTH
    ensures ParseTail(words, left, YieldTail(c) + rest, depth) == Ok(AstTail(words, left, c), rest)
  {
    var list := YieldOperands(c.values) + ([RParen] + rest);
    InText(c.word, YieldOperands(c.values), rest);
    Drop([c.word], [LParen] + list);
    CompleteValues(words, c.values, [RParen] + rest, depth);
    InList(words, left, c.values, list, rest, depth);
  }

  lemma InText(word: Token, values: seq<Token>, rest: seq<Token>)
    ensures ([word, LParen] + (values + [RParen])) + rest == [word] + ([LParen] + (values + ([RParen] + rest)))
  {
    Chain([word, LParen], values, [RParen], rest);
    assert [word, LParen] == [word] + [LParen];
    Assoc([word], [LParen], values + ([RParen] + rest));
  }

  lemma InList(words: Words, left: Expr, c: Operands, list: seq<Token>, rest: seq<Token>, depth: int)
    requires LegalOperands(words, c) && Head(list) != RParen
    requires ParseValues(words, list, depth) == Ok(AstOperands(words, c), [RParen] + rest)
    ensures ParseIn(words, left, [LParen] + list, depth) == Ok(InComparison(left, AstOperands(words, c)), rest)
  {
    Drop([LParen], list);
    Drop([RParen], rest);
  }

  lemma CompleteBetween(words: Words, left: Expr, c: Tail, rest: seq<Token>, depth: int)
    requires c.BetweenTail? && LegalTail(words, c) && depth + DepthTail(c) <= MAX_DEPTH && EndsOperand(rest)
    ensures ParseTail(words, left, YieldTail(c) + rest, depth) == Ok(AstTail(words, left, c), rest)
  {
    var after := [c.andWord] + (YieldOperand(c.upper) + rest);
    Assoc([c.word], YieldOperand(c.lower) + ([c.andWord] + YieldOperand(c.upper)), rest);
    Chain(YieldOperand(c.lower), [c.andWord], YieldOperand(c.upper), rest);
    Drop([c.word], YieldOperand(c.lower) + after);
    Drop([c.andWord], YieldOperand(c.upper) + rest);
    CompleteOperand(words, c.lower, after, depth);
    CompleteOperand(words, c.upper, rest, depth);
    assert ParseBetween(words, left, YieldOperand(c.lower) + after, depth) == Ok(AstTail(words, left, c), rest);
  }

  lemma {:induction false} CompleteTest(words: Words, c: Test, rest: seq<Token>, depth: int)
    requires LegalTest(words, c) && depth + DepthTest(c) <= MAX_DEPTH && EndsOperand(rest)
    ensures ParseTest(words, YieldTest(c) + rest, depth) == Ok(AstTest(words, c), rest)
    decreases c
  {
    match c
    case Not(word, test) =>
      Assoc([word], YieldTest(test), rest);
      Drop([word], YieldTest(test) + rest);
      CompleteTest(words, test, rest, depth + 1);
    case Group(disj) =>
      Chain([LParen], YieldDisj(disj), [RParen], rest);
      Drop([LParen], YieldDisj(disj) + ([RParen] + rest));
      Drop([RParen], rest);
      CompleteDisj(words, disj, [RParen] + rest, depth + 1);
    case Tested(left, tail) => CompleteTested(words, c, rest, depth);
    case _ => CompleteCall(words, c, rest, depth);
  }

  lemma CompleteTested(words: Words, c: Test, rest: seq<Token>, depth: int)
    requires c.Tested? && LegalTest(words, c) && depth + DepthTest(c) <= MAX_DEPTH && EndsOperand(rest)
    ensures ParseTest(words, YieldTest(c) + rest, depth) == Ok(AstTest(words, c), rest)
  {
    var after := YieldTail(c.tail) + rest;
    Assoc(YieldOperand(c.left), YieldTail(c.tail), rest);
    TailStarts(words, c.tail, rest);
    OperandStarts(words, c.left, after);
    CompleteOperand(words, c.left, after, depth + 1);
    CompleteTail(words, AstOperand(words, c.left), c.tail, rest, depth + 1);
    assert ParseComparison(words, YieldOperand(c.left) + after, depth + 1) == Ok(AstTest(words, c), rest);
  }

  lemma CompleteCall(words: Words, c: Test, rest: seq<Token>, depth: int)
    requires (c.HasRelation? || c.HasDirectedRelation? || c.InBucket?) && LegalTest(words, c) && depth + 1 <= MAX_DEPTH
    ensures ParseTest(words, YieldTest(c) + rest, depth) == Ok(AstTest(words, c), rest)
  {
    var ts := YieldTest(c) + rest;
    var inner := ts[2..];
    if c.HasDirectedRelation? {
      assert inner[0] == Str(c.relation) && inner[1..][0] == Comma && inner[2..][0] == Str(c.direction) && inner[3..][0] == RParen;
      assert inner[4..] == rest;
    } else {
      assert inner[1..][0] == RParen && inner[2..] == rest;
    }
  }

  // ----- Conjunctions and disjunctions -----

  lemma {:induction false} CompleteConjTerms(words: Words, c: Conj, rest: seq<Token>, depth: int)
    requires LegalConj(words, c) && depth + DepthConj(c) <= MAX_DEPTH && EndsConj(rest)
    ensures ParseConjTerms(words, YieldConj(c) + rest, depth) == Ok(ConjTerms(words, c), rest)
    decreases c
  {
    match c
    case OneTest(test) => CompleteTest(words, test, rest, depth);
    case AndAlso(test, word, more) =>
      var after := [word] + (YieldConj(more) + rest);
      Chain(YieldTest(test), [word], YieldConj(more), rest);
      Drop([word], YieldConj(more) + rest);
      CompleteTest(words, test, after, depth);
      CompleteConjTerms(words, more, rest, depth);
  }

  lemma {:induction false} CompleteDisjTerms(words: Words, c: Disj, rest: seq<Token>, depth: int)
    requires LegalDisj(words, c) && depth + DepthDisj(c) <= MAX_DEPTH && EndsDisj(rest)
    ensures ParseDisjTerms(words, YieldDisj(c) + rest, depth) == Ok(DisjTerms(words, c), rest)
    decreases c, 0
  {
    match c
    case OneConj(conj) => CompleteConjTerms(words, conj, rest, depth);
    case OrElse(conj, word, more) =>
      var after := [word] + (YieldDisj(more) + rest);
      Chain(YieldConj(conj), [word], YieldDisj(more), rest);
      Drop([word], YieldDisj(more) + rest);
      CompleteConjTerms(words, conj, after, depth);
      CompleteDisjTerms(words, more, rest, depth);
  }

  lemma CompleteDisj(words: Words, c: Disj, rest: seq<Token>, depth: int)
    requires LegalDisj(words, c) && depth + DepthDisj(c) <= MAX_DEPTH && EndsDisj(rest)
    ensures ParseDisj(words, YieldDisj(c) + rest, depth) == Ok(AstDisj(words, c), rest)
    decreases c, 1
  {
    CompleteDisjTerms(words, c, rest, depth);
  }
}
