/** Whatever the parser returns is the meaning of a legal tree whose text is exactly the tokens consumed. */
module ParseSound {
  import opened Values
  import opened QueryAst
  import opened Grammar
  import opened Parse

  lemma Assoc(a: seq<Token>, b: seq<Token>, rest: seq<Token>)
    ensures (a + b) + rest == a + (b + rest)
  {
  }

  lemma Chain(head: seq<Token>, a: seq<Token>, b: seq<Token>, rest: seq<Token>)
    ensures (head + (a + b)) + rest == head + (a + (b + rest))
  {
    Assoc(head, a + b, rest);
    Assoc(a, b, rest);
  }

  /** `a`, a separator and `b`, put back together. */
  lemma JoinText(ts: seq<Token>, a: seq<Token>, after: seq<Token>, b: seq<Token>, rest: seq<Token>)
    requires ts == a + after && after != [] && after[1..] == b + rest
    ensures ts == (a + ([after[0]] + b)) + rest
  {
    Split(after, 1);
    Chain(a, [after[0]], b, rest);
    Assoc([after[0]], b, rest);
  }

  lemma Split(ts: seq<Token>, n: nat)
    requires n <= |ts|
    ensures ts == ts[..n] + ts[n..]
  {
  }

  lemma {:induction false} SoundDisjTerms(words: Words, ts: seq<Token>, depth: int) returns (c: Disj)
    requires ParseDisjTerms(words, ts, depth).Ok?
    ensures LegalDisj(words, c) && ts == YieldDisj(c) + ParseDisjTerms(words, ts, depth).rest
    ensures DisjTerms(words, c) == ParseDisjTerms(words, ts, depth).value && depth + DepthDisj(c) <= MAX_DEPTH
    decreases |ts|, 10
  {
    var first := ParseConj(words, ts, depth);
    var conj := SoundConj(words, ts, depth);
    if At(first.rest, "or") {
      var more := SoundDisjTerms(words, first.rest[1..], depth);
      c := OrElse(conj, first.rest[0], more);
      JoinText(ts, YieldConj(conj), first.rest, YieldDisj(more), ParseDisjTerms(words, ts, depth).rest);
    } else {
      c := OneConj(conj);
    }
  }

  lemma SoundDisj(words: Words, ts: seq<Token>, depth: int) returns (c: Disj)
    requires ParseDisj(words, ts, depth).Ok?
    ensures LegalDisj(words, c) && ts == YieldDisj(c) + ParseDisj(words, ts, depth).rest
    ensures AstDisj(words, c) == ParseDisj(words, ts, depth).value && depth + DepthDisj(c) <= MAX_DEPTH
    decreases |ts|, 11
  {
    c := SoundDisjTerms(words, ts, depth);
  }

  lemma {:induction false} SoundConjTerms(words: Words, ts: seq<Token>, depth: int) returns (c: Conj)
    requires ParseConjTerms(words, ts, depth).Ok?
    ensures LegalConj(words, c) && ts == YieldConj(c) + ParseConjTerms(words, ts, depth).rest
    ensures ConjTerms(words, c) == ParseConjTerms(words, ts, depth).value && depth + DepthConj(c) <= MAX_DEPTH
    decreases |ts|, 8
  {
    var first := ParseTest(words, ts, depth);
    var test := SoundTest(words, ts, depth);
    if At(first.rest, "and") {
      var more := SoundConjTerms(words, first.rest[1..], depth);
      c := AndAlso(test, first.rest[0], more);
      JoinText(ts, YieldTest(test), first.rest, YieldConj(more), ParseConjTerms(words, ts, depth).rest);
    } else {
      c := OneTest(test);
    }
  }

  lemma SoundConj(words: Words, ts: seq<Token>, depth: int) returns (c: Conj)
    requires ParseConj(words, ts, depth).Ok?
    ensures LegalConj(words, c) && ts == YieldConj(c) + ParseConj(words, ts, depth).rest
    ensures AstConj(words, c) == ParseConj(words, ts, depth).value && depth + DepthConj(c) <= MAX_DEPTH
    decreases |ts|, 9
  {
    c := SoundConjTerms(words, ts, depth);
  }

  lemma {:induction false} SoundTest(words: Words, ts: seq<Token>, depth: int) returns (c: Test)
    requires ParseTest(words, ts, depth).Ok?
    ensures LegalTest(words, c) && ts == YieldTest(c) + ParseTest(words, ts, depth).rest
    ensures AstTest(words, c) == ParseTest(words, ts, depth).value && depth + DepthTest(c) <= MAX_DEPTH
    decreases |ts|, 7
  {
    var rest := ParseTest(words, ts, depth).rest;
    if At(ts, "not") {
      var inner := SoundTest(words, ts[1..], depth + 1);
      c := Not(ts[0], inner);
      Split(ts, 1);
      Assoc([ts[0]], YieldTest(inner), rest);
    } else if Calls(ts, "has_relation") {
      c := SoundRelation(words, ts);
    } else if Calls(ts, "bucket") {
      c := InBucket(ts[0], ts[2].text);
      assert ts == [ts[0], LParen, Str(ts[2].text), RParen] + rest;
    } else if Head(ts) == LParen {
      var inner := SoundGroup(words, ts[1..], depth + 1);
      c := Group(inner);
      Split(ts, 1);
      Assoc([LParen], YieldDisj(inner) + [RParen], rest);
    } else {
      c := SoundComparison(words, ts, depth + 1);
    }
  }

  lemma SoundGroup(words: Words, ts: seq<Token>, depth: int) returns (c: Disj)
    requires ParseGroup(words, ts, depth).Ok?
    ensures LegalDisj(words, c) && ts == (YieldDisj(c) + [RParen]) + ParseGroup(words, ts, depth).rest
    ensures AstDisj(words, c) == ParseGroup(words, ts, depth).value && depth + DepthDisj(c) <= MAX_DEPTH
    decreases |ts|, 12
  {
    c := SoundDisj(words, ts, depth);
    Split(ParseDisj(words, ts, depth).rest, 1);
    Assoc(YieldDisj(c), [RParen], ParseGroup(words, ts, depth).rest);
  }

  lemma SoundRelation(words: Words, ts: seq<Token>) returns (c: Test)
    requires Calls(ts, "has_relation") && ParseRelation(words, ts[2..]).Ok?
    ensures LegalTest(words, c) && ts == YieldTest(c) + ParseRelation(words, ts[2..]).rest
    ensures AstTest(words, c) == ParseRelation(words, ts[2..]).value && DepthTest(c) == 1
  {
    var rest := ParseRelation(words, ts[2..]).rest;
    if ts[3] == RParen {
      c := HasRelation(ts[0], ts[2].text);
      assert ts == [ts[0], LParen, Str(ts[2].text), RParen] + rest;
    } else {
      c := HasDirectedRelation(ts[0], ts[2].text, ts[4].text);
      assert ts == [ts[0], LParen, Str(ts[2].text), Comma, Str(ts[4].text), RParen] + rest;
    }
  }

  lemma SoundComparison(words: Words, ts: seq<Token>, depth: int) returns (c: Test)
    requires ParseComparison(words, ts, depth).Ok? && !At(ts, "not") && depth <= MAX_DEPTH
    ensures LegalTest(words, c) && ts == YieldTest(c) + ParseComparison(words, ts, depth).rest
    ensures AstTest(words, c) == ParseComparison(words, ts, depth).value && depth + DepthTest(c) <= MAX_DEPTH + 1
    decreases |ts|, 6
  {
    var left := SoundOperand(words, ts, depth);
    var first := ParseOperand(words, ts, depth);
    var tail := SoundTail(words, first.value, first.rest, depth);
    c := Tested(left, tail);
    NotIsNoOperand(left, first.rest, ts);
    Assoc(YieldOperand(left), YieldTail(tail), ParseComparison(words, ts, depth).rest);
  }

  lemma NotIsNoOperand(left: Operand, rest: seq<Token>, ts: seq<Token>)
    requires ts == YieldOperand(left) + rest && !At(ts, "not")
    ensures !(left.head.primary.Field? && Keyword(left.head.primary.word, "not"))
  {
    if left.head.primary.Field? {
      assert YieldPrimary(left.head.primary) == [left.head.primary.word];
      assert ts[0] == left.head.primary.word;
    }
  }

  lemma SoundTail(words: Words, left: Expr, ts: seq<Token>, depth: int) returns (c: Tail)
    requires ParseTail(words, left, ts, depth).Ok? && depth <= MAX_DEPTH
    ensures LegalTail(words, c) && ts == YieldTail(c) + ParseTail(words, left, ts, depth).rest
    ensures AstTail(words, left, c) == ParseTail(words, left, ts, depth).value && depth + DepthTail(c) <= MAX_DEPTH
    decreases |ts|, 5
  {
    if At(ts, "in") {
      c := SoundIn(words, left, ts, depth);
    } else if At(ts, "between") {
      c := SoundBetween(words, left, ts, depth);
    } else if At(ts, "is") {
      c := SoundNullTest(words, left, ts);
    } else {
      var right := SoundOperand(words, ts[1..], depth);
      c := CompareTail(ts[0], right);
      Split(ts, 1);
      Assoc([ts[0]], YieldOperand(right), ParseCompare(words, left, ts, depth).rest);
    }
  }

  lemma SoundIn(words: Words, left: Expr, ts: seq<Token>, depth: int) returns (c: Tail)
    requires At(ts, "in") && ParseIn(words, left, ts[1..], depth).Ok?
    ensures LegalTail(words, c) && ts == YieldTail(c) + ParseIn(words, left, ts[1..], depth).rest
    ensures AstTail(words, left, c) == ParseIn(words, left, ts[1..], depth).value && depth + DepthTail(c) <= MAX_DEPTH
    decreases |ts|, 4
  {
    var values := SoundValues(words, ts[2..], depth);
    c := InTail(ts[0], values);
    var rest := ParseIn(words, left, ts[1..], depth).rest;
    assert ts[1..][1..] == ts[2..];
    Split(ParseValues(words, ts[2..], depth).rest, 1);
    assert ts == [ts[0], LParen] + ts[2..];
    Chain([ts[0], LParen], YieldOperands(values), [RParen], rest);
  }

  lemma SoundNullTest(words: Words, left: Expr, ts: seq<Token>) returns (c: Tail)
    requires At(ts, "is") && ParseNullTest(left, ts[1..]).Ok?
    ensures LegalTail(words, c) && ts == YieldTail(c) + ParseNullTest(left, ts[1..]).rest
    ensures AstTail(words, left, c) == ParseNullTest(left, ts[1..]).value && DepthTail(c) == 0
  {
    var rest := ParseNullTest(left, ts[1..]).rest;
    if At(ts[1..], "not") {
      c := NotNullTail(ts[0], ts[1], ts[2]);
      assert ts == [ts[0], ts[1], ts[2]] + rest;
    } else {
      c := NullTail(ts[0], ts[1]);
      assert ts == [ts[0], ts[1]] + rest;
    }
  }

  lemma SoundBetween(words: Words, left: Expr, ts: seq<Token>, depth: int) returns (c: Tail)
    requires At(ts, "between") && ParseBetween(words, left, ts[1..], depth).Ok?
    ensures LegalTail(words, c) && ts == YieldTail(c) + ParseBetween(words, left, ts[1..], depth).rest
    ensures AstTail(words, left, c) == ParseBetween(words, left, ts[1..], depth).value && depth + DepthTail(c) <= MAX_DEPTH
    decreases |ts|, 3
  {
    var lower := SoundOperand(words, ts[1..], depth);
    var after := ParseOperand(words, ts[1..], depth).rest;
    var upper := SoundOperand(words, after[1..], depth);
    var rest := ParseBetween(words, left, ts[1..], depth).rest;
    c := BetweenTail(ts[0], lower, after[0], upper);
    Split(ts, 1);
    Split(after, 1);
    Chain(YieldOperand(lower), [after[0]], YieldOperand(upper), rest);
    Assoc([ts[0]], YieldOperand(lower) + ([after[0]] + YieldOperand(upper)), rest);
  }

  lemma {:induction false} SoundValues(words: Words, ts: seq<Token>, depth: int) returns (c: Operands)
    requires ParseValues(words, ts, depth).Ok?
    ensures LegalOperands(words, c) && ts == YieldOperands(c) + ParseValues(words, ts, depth).rest
    ensures AstOperands(words, c) == ParseValues(words, ts, depth).value && depth + DepthOperands(c) <= MAX_DEPTH
    decreases |ts|, 4
  {
    var first := ParseOperand(words, ts, depth);
    var operand := SoundOperand(words, ts, depth);
    if Head(first.rest) == Comma {
      var more := SoundValues(words, first.rest[1..], depth);
      c := MoreOperands(operand, more);
      JoinText(ts, YieldOperand(operand), first.rest, YieldOperands(more), ParseValues(words, ts, depth).rest);
    } else {
      c := OneOperand(operand);
    }
  }

  lemma SoundOperand(words: Words, ts: seq<Token>, depth: int) returns (c: Operand)
    requires ParseOperand(words, ts, depth).Ok?
    ensures LegalOperand(words, c) && ts == YieldOperand(c) + ParseOperand(words, ts, depth).rest
    ensures AstOperand(words, c) == ParseOperand(words, ts, depth).value && depth + DepthOperand(c) <= MAX_DEPTH
    decreases |ts|, 3
  {
    var first := ParseCasted(words, ts, depth);
    var head := SoundCasted(words, ts, depth);
    var sums := SoundSums(words, first.value, first.rest, depth);
    c := Operand(head, sums);
    Assoc(YieldCasted(head), YieldSums(sums), ParseOperand(words, ts, depth).rest);
  }

  lemma {:induction false} SoundSums(words: Words, left: Expr, ts: seq<Token>, depth: int) returns (c: Sums)
    requires ParseSums(words, left, ts, depth).Ok? && depth <= MAX_DEPTH
    ensures LegalSums(words, c) && ts == YieldSums(c) + ParseSums(words, left, ts, depth).rest
    ensures AstSums(words, left, c) == ParseSums(words, left, ts, depth).value && depth + DepthSums(c) <= MAX_DEPTH
    decreases |ts|, 2
  {
    if Sign(Head(ts)) {
      var second := ParseCasted(words, ts[1..], depth);
      var right := SoundCasted(words, ts[1..], depth);
      var sum := ArithmeticExpr(if ts[0] == Op("-") then ARITH_SUB else ARITH_ADD, left, second.value);
      var more := SoundSums(words, sum, second.rest, depth);
      c := MoreSums(ts[0], right, more);
      SumsText(ts, YieldCasted(right), YieldSums(more), second.rest, ParseSums(words, left, ts, depth).rest);
    } else {
      c := NoSums;
    }
  }

  lemma SumsText(ts: seq<Token>, right: seq<Token>, more: seq<Token>, after: seq<Token>, rest: seq<Token>)
    requires ts != [] && ts[1..] == right + after && after == more + rest
    ensures ts == ([ts[0]] + (right + more)) + rest
  {
    Split(ts, 1);
    Chain([ts[0]], right, more, rest);
  }

  lemma SoundCasted(words: Words, ts: seq<Token>, depth: int) returns (c: Casted)
    requires ParseCasted(words, ts, depth).Ok?
    ensures LegalCasted(words, c) && ts == YieldCasted(c) + ParseCasted(words, ts, depth).rest
    ensures AstCasted(words, c) == ParseCasted(words, ts, depth).value && depth + DepthPrimary(c.primary) <= MAX_DEPTH
    decreases |ts|, 2
  {
    var first := ParsePrimary(words, ts, depth);
    var primary := SoundPrimary(words, ts, depth);
    var casts := SoundCasts(words, first.value, first.rest);
    c := Casted(primary, casts);
    Assoc(YieldPrimary(primary), YieldCasts(casts), ParseCasted(words, ts, depth).rest);
  }

  lemma {:induction false} SoundCasts(words: Words, inner: Expr, ts: seq<Token>) returns (c: Casts)
    requires ParseCasts(words, inner, ts).Ok?
    ensures LegalCasts(words, c) && ts == YieldCasts(c) + ParseCasts(words, inner, ts).rest
    ensures AstCasts(words, inner, c) == ParseCasts(words, inner, ts).value
    decreases |ts|
  {
    if Head(ts) == DoubleColon {
      var more := SoundCasts(words, CastExpr(inner, CastType(words, ts[1..]).value), ts[2..]);
      c := MoreCasts(ts[1].text, more);
      assert ts == [DoubleColon, Ident(ts[1].text)] + ts[2..];
      Assoc([DoubleColon, Ident(ts[1].text)], YieldCasts(more), ParseCasts(words, inner, ts).rest);
    } else {
      c := NoCasts;
    }
  }

  lemma {:induction false} SoundPrimary(words: Words, ts: seq<Token>, depth: int) returns (c: Primary)
    requires ParsePrimary(words, ts, depth).Ok?
    ensures LegalPrimary(words, c) && ts == YieldPrimary(c) + ParsePrimary(words, ts, depth).rest
    ensures AstPrimary(words, c) == ParsePrimary(words, ts, depth).value && depth + DepthPrimary(c) <= MAX_DEPTH
    decreases |ts|, 1
  {
    var rest := ParsePrimary(words, ts, depth).rest;
    if At(ts, "cast") {
      c := SoundCastCall(words, ts, depth + 1);
    } else if Calls(ts, "now") {
      c := NowCall(ts[0]);
      assert ts == [ts[0], LParen, RParen] + rest;
    } else {
      c := SoundAtom(words, ts);
    }
  }

  lemma SoundCastCall(words: Words, ts: seq<Token>, depth: int) returns (c: Primary)
    requires At(ts, "cast") && ParseCastCall(words, ts[1..], depth).Ok?
    ensures LegalPrimary(words, c) && ts == YieldPrimary(c) + ParseCastCall(words, ts[1..], depth).rest
    ensures AstPrimary(words, c) == ParseCastCall(words, ts[1..], depth).value && depth + DepthPrimary(c) <= MAX_DEPTH + 1
    decreases |ts|, 0
  {
    var rest := ParseCastCall(words, ts[1..], depth).rest;
    assert ts[1..][1..] == ts[2..];
    var operand := SoundOperand(words, ts[2..], depth);
    var after := ParseOperand(words, ts[2..], depth).rest;
    c := CastCall(ts[0], operand, after[0], after[1].text);
    assert after == [after[0], Ident(after[1].text), RParen] + rest;
    assert ts == [ts[0], LParen] + ts[2..];
    Chain([ts[0], LParen], YieldOperand(operand), [after[0], Ident(after[1].text), RParen], rest);
  }

  lemma SoundAtom(words: Words, ts: seq<Token>) returns (c: Primary)
    requires ParseAtom(words, ts).Ok? && !At(ts, "cast")
    ensures LegalPrimary(words, c) && ts == YieldPrimary(c) + ParseAtom(words, ts).rest
    ensures AstPrimary(words, c) == ParseAtom(words, ts).value && DepthPrimary(c) == 1
  {
    match ts[0]
    case Str(text) => c := StringOf(text); Split(ts, 1);
    case Num(text) => c := NumberOf(text); Split(ts, 1);
    case Ident(text) =>
      if Calls(ts, "attr") {
        c := AttrCall(ts[0], ts[2].text);
        assert ts == [ts[0], LParen, Str(ts[2].text), RParen] + ts[4..];
      } else if At(ts, "true") || At(ts, "false") || At(ts, "null") {
        c := Word(ts[0]);
        Split(ts, 1);
      } else if At(ts, "timestamp") || At(ts, "date") || At(ts, "interval") {
        c := Typed(ts[0], ts[1].text);
        assert ts == [ts[0], Str(ts[1].text)] + ts[2..];
      } else {
        c := Field(ts[0]);
        Split(ts, 1);
      }
  }
}
