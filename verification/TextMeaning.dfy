/** What query text says of a row, told word by word on its concrete syntax, and that this is what the query means. */
module TextMeaning {
  import opened Values
  import opened Characters
  import opened QueryAst
  import opened Grammar
  import S = SqlText
  import C = Compile
  import AttributePath

  /** The SQL operator that an operator symbol or word of the query asks for. */
  function ComparedBy(op: Token): string {
    match op
    case Op(text) => if text == "!=" then "<>" else text
    case Str(text) => if text == "!=" then "<>" else text
    case Ident(text) => if Lower(text) == "like" then "LIKE" else "ILIKE"
    case _ => ""
  }

  const SYMBOLS := {"=", "!=", "<>", "<", "<=", ">", ">="}

  predicate ComparesTo(op: Token) {
    match op
    case Op(text) => text in SYMBOLS
    case Str(text) => text in SYMBOLS
    case Ident(text) => Lower(text) in {"like", "ilike"}
    case _ => false
  }

  /** A token is a comparison operator exactly when it is one of nine, and it then means the SQL operator it spells. */
  lemma OperatorIff(op: Token)
    ensures CompareOp(op).Some? <==> ComparesTo(op)
    ensures ComparesTo(op) ==> C.OperatorName(CompareOp(op).value) == ComparedBy(op)
  {
  }

  /** A keyword is a name that differs from it at most in the case of its letters. */
  lemma KeywordIff(token: Token, word: string)
    requires forall c :: c in word ==> c == '_' || 'a' <= c <= 'z'
    ensures Keyword(token, word) <==>
              && token.Ident? && |token.text| == |word|
              && forall i :: 0 <= i < |word| ==> token.text[i] == word[i] || (word[i] != '_' && token.text[i] as int == word[i] as int - 32)
  {
    if token.Ident? && |token.text| == |word| {
      forall i | 0 <= i < |word| ensures Lower(token.text)[i] == word[i] <==>
        token.text[i] == word[i] || (word[i] != '_' && token.text[i] as int == word[i] as int - 32)
      {
        assert word[i] in word;
      }
    }
  }

  /** The words that are no field names. */
  lemma ReservedIff(token: Token)
    ensures Reserved(token) <==> token.Ident? && Lower(token.text) in {"cast", "true", "false", "null", "timestamp", "date", "interval"}
  {
  }

  // ----- Values -----

  function TextAttribute(w: S.World, path: string, typ: string): S.Datum {
    match AttributePath.JsonPath(path)
    case None => S.NullDatum
    case Some(parts) =>
      var text := w.attribute(parts);
      match typ
      case "integer" => w.convert("bigint", text)
      case "float" => w.convert("double precision", text)
      case "boolean" => w.convert("boolean", text)
      case "timestamp" => w.convert("timestamptz", text)
      case _ => text
  }

  /** A primary under one cast: an attribute read at that type, or the instant a text spells. */
  function TextCast(w: S.World, names: C.Names, c: Primary, typ: string): S.Datum {
    match c
    case AttrCall(_, path) => TextAttribute(w, path, typ)
    case StringOf(text) => (match names.parseTime(text) case Some(instant) => w.bind(S.TimeArg(instant)) case None => S.NullDatum)
    case _ => S.NullDatum
  }

  function TextTyped(w: S.World, words: Words, names: C.Names, word: string, text: string): S.Datum {
    match word
    case "timestamp" => (match words.timestamp(text) case Some(time) => w.bind(S.TimeArg(time.instant)) case None => S.NullDatum)
    case "date" => (match words.date(text) case Some(time) => w.bind(S.TimeArg(time.instant)) case None => S.NullDatum)
    case "interval" =>
      (match words.interval(text)
       case None => S.NullDatum
       case Some(value) => match names.parseInterval(value) case Some(interval) => w.interval(interval) case None => S.NullDatum)
    case _ => S.NullDatum
  }

  function TextNumber(w: S.World, words: Words, text: string): S.Datum {
    if exists i :: 0 <= i < |text| && text[i] == '.'
    then (match words.float(text) case Some(x) => w.bind(S.FloatArg(x)) case None => S.NullDatum)
    else (match words.integer(text) case Some(n) => w.bind(S.IntArg(n)) case None => S.NullDatum)
  }

  function TextPrimary(w: S.World, words: Words, names: C.Names, c: Primary): S.Datum {
    match c
    case CastCall(_, operand, _, typ) =>
      if operand.sums.NoSums? && operand.head.casts.NoCasts? && words.castType(typ).Some?
      then TextCast(w, names, operand.head.primary, words.castType(typ).value)
      else S.NullDatum
    case NowCall(_) => w.now
    case AttrCall(_, path) => TextAttribute(w, path, if path in names.attrTypes then names.attrTypes[path] else "unknown")
    case Word(word) => if word.Ident? && Lower(word.text) in {"true", "false"} then w.bind(S.BoolArg(Lower(word.text) == "true")) else S.NullDatum
    case Typed(word, text) => if word.Ident? then TextTyped(w, words, names, Lower(word.text), text) else S.NullDatum
    case Field(word) => if word.Ident? then w.column(word.text) else S.NullDatum
    case StringOf(text) => w.bind(S.TextArg(text))
    case NumberOf(text) => TextNumber(w, words, text)
  }

  function TextCasted(w: S.World, words: Words, names: C.Names, c: Casted): S.Datum {
    match c.casts
    case NoCasts => TextPrimary(w, words, names, c.primary)
    case MoreCasts(typ, more) =>
      if more.NoCasts? && words.castType(typ).Some? then TextCast(w, names, c.primary, words.castType(typ).value) else S.NullDatum
  }

  /** Sums are taken from the left; only a minus subtracts. */
  function TextSums(w: S.World, words: Words, names: C.Names, left: S.Datum, c: Sums): S.Datum
    decreases c
  {
    match c
    case NoSums => left
    case MoreSums(op, right, more) => TextSums(w, words, names, w.add(op == Op("-"), left, TextCasted(w, words, names, right)), more)
  }

  function TextOperand(w: S.World, words: Words, names: C.Names, c: Operand): S.Datum {
    TextSums(w, words, names, TextCasted(w, words, names, c.head), c.sums)
  }

  // ----- Conditions -----

  function TextDisj(w: S.World, words: Words, names: C.Names, c: Disj): S.Truth {
    match c
    case OneConj(conj) => TextConj(w, words, names, conj)
    case OrElse(conj, _, more) => S.Or3(TextConj(w, words, names, conj), TextDisj(w, words, names, more))
  }

  function TextConj(w: S.World, words: Words, names: C.Names, c: Conj): S.Truth {
    match c
    case OneTest(test) => TextTest(w, words, names, test)
    case AndAlso(test, _, more) => S.And3(TextTest(w, words, names, test), TextConj(w, words, names, more))
  }

  function TextTest(w: S.World, words: Words, names: C.Names, c: Test): S.Truth {
    match c
    case Not(_, test) => S.Not3(TextTest(w, words, names, test))
    case Group(disj) => TextDisj(w, words, names, disj)
    case HasRelation(_, relation) => if w.related("any", S.TextArg(relation)) then S.True else S.False
    case HasDirectedRelation(_, relation, direction) => if w.related(direction, S.TextArg(relation)) then S.True else S.False
    case InBucket(_, name) => w.compare("=", w.column("bucket_id"), w.bucketId(S.TextArg(name)))
    case Tested(left, tail) => TextTail(w, words, names, TextOperand(w, words, names, left), tail)
  }

  function TextTail(w: S.World, words: Words, names: C.Names, left: S.Datum, c: Tail): S.Truth {
    match c
    case InTail(_, values) => TextMember(w, words, names, left, values)
    case BetweenTail(_, lower, _, upper) =>
      S.And3(w.compare(">=", left, TextOperand(w, words, names, lower)), w.compare("<=", left, TextOperand(w, words, names, upper)))
    case NullTail(_, _) => if left == S.NullDatum then S.True else S.False
    case NotNullTail(_, _, _) => if left == S.NullDatum then S.False else S.True
    case CompareTail(op, right) => w.compare(ComparedBy(op), left, TextOperand(w, words, names, right))
  }

  function TextMember(w: S.World, words: Words, names: C.Names, left: S.Datum, c: Operands): S.Truth {
    match c
    case OneOperand(operand) => w.compare("=", left, TextOperand(w, words, names, operand))
    case MoreOperands(operand, more) =>
      S.Or3(w.compare("=", left, TextOperand(w, words, names, operand)), TextMember(w, words, names, left, more))
  }

  /** NOT, AND and OR in three truth values: NOT swaps true and false, AND takes the less true, OR the truer. */
  lemma ThreeTruths(a: S.Truth, b: S.Truth)
    ensures (S.Not3(a) == S.True <==> a == S.False) && (S.Not3(a) == S.False <==> a == S.True)
    ensures S.And3(a, b) == S.True <==> a == S.True && b == S.True
    ensures S.And3(a, b) == S.False <==> a == S.False || b == S.False
    ensures S.Or3(a, b) == S.True <==> a == S.True || b == S.True
    ensures S.Or3(a, b) == S.False <==> a == S.False && b == S.False
  {
  }

  // ----- The text's meaning is the query's -----

  lemma PrimaryMeans(w: S.World, words: Words, names: C.Names, c: Primary)
    requires LegalPrimary(words, c)
    ensures C.ScalarMeaning(w, names, AstPrimary(words, c)) == TextPrimary(w, words, names, c)
  {
    match c
    case CastCall(_, operand, _, typ) => CastCallMeans(w, words, names, operand, typ);
    case Word(word) =>
    case NumberOf(text) => assert '.' in text <==> exists i :: 0 <= i < |text| && text[i] == '.';
    case _ =>
  }

  /** A cast of a primary. */
  lemma CastMeans(w: S.World, words: Words, names: C.Names, c: Primary, typ: string)
    requires LegalPrimary(words, c)
    ensures C.ScalarMeaning(w, names, CastExpr(AstPrimary(words, c), typ)) == TextCast(w, names, c, typ)
  {
  }

  lemma CastCallMeans(w: S.World, words: Words, names: C.Names, operand: Operand, typ: string)
    requires LegalOperand(words, operand) && words.castType(typ).Some?
    ensures C.ScalarMeaning(w, names, CastExpr(AstOperand(words, operand), words.castType(typ).value)) ==
            if operand.sums.NoSums? && operand.head.casts.NoCasts?
            then TextCast(w, names, operand.head.primary, words.castType(typ).value) else S.NullDatum
  {
    var primary := AstPrimary(words, operand.head.primary);
    if operand.head.casts.MoreCasts? {
      CastsAreCasts(words, CastExpr(primary, words.castType(operand.head.casts.typ).value), operand.head.casts.more);
    }
    match operand.sums
    case NoSums => if operand.head.casts.NoCasts? { CastMeans(w, words, names, operand.head.primary, words.castType(typ).value); }
    case MoreSums(op, right, more) =>
      SumsAreSums(words, ArithmeticExpr(if op == Op("-") then ARITH_SUB else ARITH_ADD, AstCasted(words, operand.head), AstCasted(words, right)), more);
  }

  lemma {:induction false} SumsAreSums(words: Words, left: Expr, c: Sums)
    requires LegalSums(words, c) && left.ArithmeticExpr?
    ensures AstSums(words, left, c).ArithmeticExpr?
    decreases c
  {
    match c
    case NoSums =>
    case MoreSums(op, right, more) =>
      SumsAreSums(words, ArithmeticExpr(if op == Op("-") then ARITH_SUB else ARITH_ADD, left, AstCasted(words, right)), more);
  }

  /** A cast under further casts is a cast, and under at least one it is a cast of a cast. */
  lemma {:induction false} CastsAreCasts(words: Words, inner: Expr, c: Casts)
    requires LegalCasts(words, c) && inner.CastExpr?
    ensures AstCasts(words, inner, c).CastExpr?
    ensures c.MoreCasts? ==> AstCasts(words, inner, c).expr.CastExpr?
    decreases c
  {
    match c
    case NoCasts =>
    case MoreCasts(typ, more) => CastsAreCasts(words, CastExpr(inner, words.castType(typ).value), more);
  }

  lemma CastedMeans(w: S.World, words: Words, names: C.Names, c: Casted)
    requires LegalCasted(words, c)
    ensures C.ScalarMeaning(w, names, AstCasted(words, c)) == TextCasted(w, words, names, c)
  {
    var primary := AstPrimary(words, c.primary);
    match c.casts
    case NoCasts => PrimaryMeans(w, words, names, c.primary);
    case MoreCasts(typ, more) =>
      CastMeans(w, words, names, c.primary, words.castType(typ).value);
      CastsAreCasts(words, CastExpr(primary, words.castType(typ).value), more);
  }

  lemma SumMeans(w: S.World, words: Words, names: C.Names, left: Expr, op: Token, right: Casted)
    requires LegalCasted(words, right)
    ensures C.ScalarMeaning(w, names, ArithmeticExpr(if op == Op("-") then ARITH_SUB else ARITH_ADD, left, AstCasted(words, right))) ==
            w.add(op == Op("-"), C.ScalarMeaning(w, names, left), TextCasted(w, words, names, right))
  {
    CastedMeans(w, words, names, right);
  }

  lemma {:induction false} SumsMean(w: S.World, words: Words, names: C.Names, left: Expr, c: Sums)
    requires LegalSums(words, c)
    ensures C.ScalarMeaning(w, names, AstSums(words, left, c)) == TextSums(w, words, names, C.ScalarMeaning(w, names, left), c)
    decreases c
  {
    match c
    case NoSums =>
    case MoreSums(op, right, more) =>
      SumMeans(w, words, names, left, op, right);
      SumsMean(w, words, names, ArithmeticExpr(if op == Op("-") then ARITH_SUB else ARITH_ADD, left, AstCasted(words, right)), more);
  }

  /** A legal operand means what its text says. */
  lemma OperandMeans(w: S.World, words: Words, names: C.Names, c: Operand)
    requires LegalOperand(words, c)
    ensures C.ScalarMeaning(w, names, AstOperand(words, c)) == TextOperand(w, words, names, c)
  {
    CastedMeans(w, words, names, c.head);
    SumsMean(w, words, names, AstCasted(words, c.head), c.sums);
  }

  lemma {:induction false} MemberMeans(w: S.World, words: Words, names: C.Names, left: S.Datum, c: Operands)
    requires LegalOperands(words, c)
    ensures C.MemberMeaning(w, names, left, AstOperands(words, c)) == TextMember(w, words, names, left, c)
    decreases c
  {
    var values := AstOperands(words, c);
    match c
    case OneOperand(operand) =>
      OperandMeans(w, words, names, operand);
      assert values[1..] == [];
      assert C.MemberMeaning(w, names, left, []) == S.False;
      ThreeTruths(w.compare("=", left, TextOperand(w, words, names, operand)), S.False);
    case MoreOperands(operand, more) =>
      OperandMeans(w, words, names, operand);
      MemberMeans(w, words, names, left, more);
      assert values[1..] == AstOperands(words, more);
  }

  lemma ComparisonMeans(w: S.World, words: Words, names: C.Names, left: Expr, op: Token, right: Operand)
    requires CompareOp(op).Some? && LegalOperand(words, right)
    ensures C.Meaning(w, names, Comparison(CompareOp(op).value, left, AstOperand(words, right))) ==
            w.compare(ComparedBy(op), C.ScalarMeaning(w, names, left), TextOperand(w, words, names, right))
  {
    OperatorIff(op);
    OperandMeans(w, words, names, right);
  }

  lemma BetweenMeans(w: S.World, words: Words, names: C.Names, left: Expr, lower: Operand, upper: Operand)
    requires LegalOperand(words, lower) && LegalOperand(words, upper)
    ensures var value := C.ScalarMeaning(w, names, left);
      C.Meaning(w, names, BetweenComparison(left, AstOperand(words, lower), AstOperand(words, upper))) ==
      S.And3(w.compare(">=", value, TextOperand(w, words, names, lower)), w.compare("<=", value, TextOperand(w, words, names, upper)))
  {
    OperandMeans(w, words, names, lower);
    OperandMeans(w, words, names, upper);
  }

  lemma TailMeans(w: S.World, words: Words, names: C.Names, left: Expr, c: Tail)
    requires LegalTail(words, c)
    ensures C.Meaning(w, names, AstTail(words, left, c)) == TextTail(w, words, names, C.ScalarMeaning(w, names, left), c)
  {
    match c
    case InTail(_, values) => MemberMeans(w, words, names, C.ScalarMeaning(w, names, left), values);
    case BetweenTail(_, lower, _, upper) => BetweenMeans(w, words, names, left, lower, upper);
    case CompareTail(op, right) => ComparisonMeans(w, words, names, left, op, right);
    case _ =>
  }

  /** Several conditions joined by one word. */
  lemma JoinedMeans(w: S.World, names: C.Names, op: string, terms: seq<Expr>)
    requires |terms| > 0
    ensures C.Meaning(w, names, Joined(op, terms)) == C.TermsMeaning(w, names, op, terms)
  {
  }

  lemma FirstAndMore(w: S.World, names: C.Names, op: string, first: Expr, more: seq<Expr>)
    requires more != []
    ensures C.TermsMeaning(w, names, op, [first] + more) == C.Combine(op, C.Meaning(w, names, first), C.TermsMeaning(w, names, op, more))
  {
    assert ([first] + more)[1..] == more;
  }

  lemma {:induction false} TermsMean(w: S.World, words: Words, names: C.Names, c: Disj)
    requires LegalDisj(words, c)
    ensures C.TermsMeaning(w, names, BOOL_OR, DisjTerms(words, c)) == TextDisj(w, words, names, c)
    decreases c, 0
  {
    match c
    case OneConj(conj) => ConjMeans(w, words, names, conj);
    case OrElse(conj, _, more) =>
      ConjMeans(w, words, names, conj);
      TermsMean(w, words, names, more);
      FirstAndMore(w, names, BOOL_OR, AstConj(words, conj), DisjTerms(words, more));
  }

  /** A legal condition means what its text says. */
  lemma {:induction false} DisjMeans(w: S.World, words: Words, names: C.Names, c: Disj)
    requires LegalDisj(words, c)
    ensures C.Meaning(w, names, AstDisj(words, c)) == TextDisj(w, words, names, c)
    decreases c, 1
  {
    TermsMean(w, words, names, c);
    JoinedMeans(w, names, BOOL_OR, DisjTerms(words, c));
  }

  lemma {:induction false} FactorsMean(w: S.World, words: Words, names: C.Names, c: Conj)
    requires LegalConj(words, c)
    ensures C.TermsMeaning(w, names, BOOL_AND, ConjTerms(words, c)) == TextConj(w, words, names, c)
    decreases c, 0
  {
    match c
    case OneTest(test) => TestMeans(w, words, names, test);
    case AndAlso(test, _, more) =>
      TestMeans(w, words, names, test);
      FactorsMean(w, words, names, more);
      FirstAndMore(w, names, BOOL_AND, AstTest(words, test), ConjTerms(words, more));
  }

  lemma {:induction false} ConjMeans(w: S.World, words: Words, names: C.Names, c: Conj)
    requires LegalConj(words, c)
    ensures C.Meaning(w, names, AstConj(words, c)) == TextConj(w, words, names, c)
    decreases c, 1
  {
    FactorsMean(w, words, names, c);
    JoinedMeans(w, names, BOOL_AND, ConjTerms(words, c));
  }

  lemma {:induction false} TestMeans(w: S.World, words: Words, names: C.Names, c: Test)
    requires LegalTest(words, c)
    ensures C.Meaning(w, names, AstTest(words, c)) == TextTest(w, words, names, c)
    decreases c
  {
    match c
    case Not(_, test) => TestMeans(w, words, names, test);
    case Group(disj) => DisjMeans(w, words, names, disj);
    case Tested(left, tail) =>
      OperandMeans(w, words, names, left);
      TailMeans(w, words, names, AstOperand(words, left), tail);
    case _ =>
  }
}
