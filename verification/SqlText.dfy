/**
 SQL conditions as token strings. `Read` re-reads a token string under the operator precedence of
 section 4.1.6 of the PostgreSQL manual, and `Truth` evaluates what was read in three-valued logic.
 */
module SqlText {
  import opened Values
  import opened PathLiterals

  datatype Token =
    | LParen | RParen | Comma
    | AndWord | OrWord | NotWord | InWord | BetweenWord | IsWord | NullWord
    | Compare(op: string)            // = <> < <= > >=
    | LikeWord(op: string)           // LIKE, ILIKE
    | Plus | Minus
    | TextAtPath                     // #>>
    | CastTo(typ: string)            // ::bigint, ...
    | AttributesColumn               // objects.attributes
    | Column(name: string)           // objects.key, ...
    | PathLiteral(text: string)      // '{a,b}', character by character
    | Param(number: nat)             // $1, ...
    | NowCall
    | Interval(interval: string)
    | ExistsRelation(direction: string, number: nat)  // EXISTS (SELECT ... r.relation_type = $n)
    | BucketIdQuery(number: nat)                      // (SELECT b.id ... b.name = $n LIMIT 1)
    | Keyword(word: string)                           // SELECT ... FROM objects, WHERE, ORDER BY, ASC, ...

  datatype Tree =
    | Either(left: Tree, right: Tree)
    | Both(left: Tree, right: Tree)
    | Negation(operand: Tree)
    | NullTest(operand: Tree, negated: bool)
    | Comparing(op: string, left: Tree, right: Tree)
    | Ranging(operand: Tree, lower: Tree, upper: Tree)
    | Membership(operand: Tree, values: seq<Tree>)
    | TextAt(left: Tree, right: Tree)
    | Sum(minus: bool, left: Tree, right: Tree)
    | Casting(operand: Tree, typ: string)
    | Atom(token: Token)

  datatype Reading = Bad | Parsed(tree: Tree, rest: seq<Token>)

  datatype Readings = BadList | ParsedList(trees: seq<Tree>, tokens: seq<Token>)

  // Binding strength, weakest first.
  const OR := 1
  const AND := 2
  const NOT := 3
  const IS := 4
  const COMPARISON := 5
  const RANGE := 6
  const OPERATOR := 7
  const ADDITIVE := 8
  const CAST := 9
  const PRIMARY := 10

  /** The level at which a token continues an expression to its left; 0 for none. */
  function Continues(token: Token): nat {
    match token
    case OrWord => OR
    case AndWord => AND
    case IsWord => IS
    case Compare(_) => COMPARISON
    case BetweenWord => RANGE
    case InWord => RANGE
    case LikeWord(_) => RANGE
    case TextAtPath => OPERATOR
    case Plus => ADDITIVE
    case Minus => ADDITIVE
    case CastTo(_) => CAST
    case _ => 0
  }

  predicate At(tokens: seq<Token>, token: Token) {
    tokens != [] && tokens[0] == token
  }

  /** Nothing in `rest` continues an expression read at `level` or tighter. */
  predicate Stops(level: nat, rest: seq<Token>) {
    rest == [] || Continues(rest[0]) < level
  }

  /** A path literal must be one string constant that holds an array; other tokens are what they are. */
  predicate Legible(token: Token) {
    token.PathLiteral? ==> ReadLiteral(token.text).Some?
  }

  predicate IsAtom(token: Token) {
    token.AttributesColumn? || token.Column? || (token.PathLiteral? && Legible(token)) || token.Param? || token.NowCall? || token.Interval? ||
    token.ExistsRelation? || token.BucketIdQuery?
  }

  function Read(level: nat, tokens: seq<Token>): (r: Reading)
    requires 1 <= level <= PRIMARY
    ensures r.Parsed? ==> |r.rest| < |tokens|
    decreases |tokens|, 1, PRIMARY - level
  {
    if level == PRIMARY then ReadPrimary(tokens)
    else if level == NOT && At(tokens, NotWord) then
      match Read(NOT, tokens[1..])
      case Bad => Bad
      case Parsed(tree, rest) => Parsed(Negation(tree), rest)
    else
      match Read(level + 1, tokens)
      case Bad => Bad
      case Parsed(tree, rest) => Continue(level, tree, rest)
  }

  function ReadPrimary(tokens: seq<Token>): (r: Reading)
    ensures r.Parsed? ==> |r.rest| < |tokens|
    decreases |tokens|, 0, 0
  {
    if tokens == [] then Bad
    else if tokens[0] == LParen then
      match Read(OR, tokens[1..])
      case Bad => Bad
      case Parsed(tree, rest) => if At(rest, RParen) then Parsed(tree, rest[1..]) else Bad
    else if IsAtom(tokens[0]) then Parsed(Atom(tokens[0]), tokens[1..])
    else Bad
  }

  /** What may follow `left` at one level; comparisons and range tests do not chain. */
  function Continue(level: nat, left: Tree, tokens: seq<Token>): (r: Reading)
    requires 1 <= level < PRIMARY
    ensures r.Parsed? ==> |r.rest| <= |tokens|
    decreases |tokens|, 0, 0
  {
    if tokens == [] || Continues(tokens[0]) != level then Parsed(left, tokens)
    else
      var token := tokens[0];
      if token == IsWord then
        if At(tokens[1..], NullWord) then Continue(IS, NullTest(left, false), tokens[2..])
        else if At(tokens[1..], NotWord) && At(tokens[2..], NullWord) then Continue(IS, NullTest(left, true), tokens[3..])
        else Bad
      else if token.CastTo? then Continue(CAST, Casting(left, token.typ), tokens[1..])
      else if token == BetweenWord then
        match Read(OPERATOR, tokens[1..])
        case Bad => Bad
        case Parsed(lower, afterLower) =>
          if !At(afterLower, AndWord) then Bad
          else Once(RANGE, Read(OPERATOR, afterLower[1..]), upper => Ranging(left, lower, upper))
      else if token == InWord then
        if !At(tokens[1..], LParen) then Bad
        else
          match ReadList(tokens[2..])
          case BadList => Bad
          case ParsedList(values, rest) =>
            if At(rest, RParen) then Once(RANGE, Parsed(Membership(left, values), rest[1..]), tree => tree) else Bad
      else if token.LikeWord? then Once(RANGE, Read(OPERATOR, tokens[1..]), right => Comparing(token.op, left, right))
      else if token.Compare? then Once(COMPARISON, Read(RANGE, tokens[1..]), right => Comparing(token.op, left, right))
      else
        match Read(level + 1, tokens[1..])
        case Bad => Bad
        case Parsed(right, rest) => Continue(level, JoinTrees(token, left, right), rest)
  }

  function JoinTrees(token: Token, left: Tree, right: Tree): Tree {
    match token
    case OrWord => Either(left, right)
    case AndWord => Both(left, right)
    case TextAtPath => TextAt(left, right)
    case _ => Sum(token == Minus, left, right)
  }

  function Once(level: nat, reading: Reading, build: Tree -> Tree): (r: Reading)
    ensures r.Parsed? ==> reading.Parsed? && r.rest == reading.rest
  {
    match reading
    case Bad => Bad
    case Parsed(tree, rest) => if rest != [] && Continues(rest[0]) == level then Bad else Parsed(build(tree), rest)
  }

  function ReadList(tokens: seq<Token>): (r: Readings)
    ensures r.ParsedList? ==> |r.tokens| < |tokens|
    decreases |tokens|, 2, 0
  {
    match Read(OR, tokens)
    case Bad => BadList
    case Parsed(tree, rest) =>
      if At(rest, Comma) then
        match ReadList(rest[1..])
        case BadList => BadList
        case ParsedList(trees, after) => ParsedList([tree] + trees, after)
      else ParsedList([tree], rest)
  }

  /** A whole condition: everything must be consumed. */
  function ReadCondition(tokens: seq<Token>): Option<Tree> {
    match Read(OR, tokens)
    case Parsed(tree, rest) => if rest == [] then Some(tree) else None
    case Bad => None
  }

  // ----- Three-valued evaluation -----

  datatype Truth = False | Unknown | True

  function Not3(a: Truth): Truth {
    match a case True => False case Unknown => Unknown case False => True
  }

  function And3(a: Truth, b: Truth): Truth {
    if a == False || b == False then False else if a == True && b == True then True else Unknown
  }

  function Or3(a: Truth, b: Truth): Truth {
    if a == True || b == True then True else if a == False && b == False then False else Unknown
  }

  function OfBool(b: bool): Truth {
    if b then True else False
  }

  datatype Arg = TextArg(text: string) | IntArg(n: int) | FloatArg(x: real) | BoolArg(b: bool) | TimeArg(instant: int)

  datatype Datum = NullDatum | TextDatum(text: string) | NumberDatum(x: real) | BoolDatum(b: bool) | TimeDatum(instant: int)

  /** A row and a database, through everything a condition can ask of them; all of it arbitrary. */
  datatype World = World(
    column: string -> Datum,
    attribute: seq<string> -> Datum,
    convert: (string, Datum) -> Datum,
    add: (bool, Datum, Datum) -> Datum,
    compare: (string, Datum, Datum) -> Truth,
    related: (string, Arg) -> bool,
    bucketId: Arg -> Datum,
    bind: Arg -> Datum,
    now: Datum,
    interval: string -> Datum)

  function ArgAt(args: seq<Arg>, number: nat): Arg {
    if 1 <= number <= |args| then args[number - 1] else TextArg("")
  }

  function AtomValue(w: World, args: seq<Arg>, token: Token): Datum {
    match token
    case Column(name) => w.column(name)
    case Param(number) => w.bind(ArgAt(args, number))
    case NowCall => w.now
    case Interval(interval) => w.interval(interval)
    case BucketIdQuery(number) => w.bucketId(ArgAt(args, number))
    case _ => NullDatum
  }

  function Steps(elements: seq<Option<string>>): seq<string> {
    seq(|elements|, i requires 0 <= i < |elements| => if elements[i].Some? then elements[i].value else "")
  }

  /** What is found along the path a literal stands for; nothing, if the path has a NULL in it. */
  function PathValue(w: World, text: string): Datum {
    match ReadLiteral(text)
    case None => NullDatum
    case Some(elements) => if None in elements then NullDatum else w.attribute(Steps(elements))
  }

  /** objects.attributes #>> '{...}'. */
  function TextValue(w: World, left: Tree, right: Tree): Datum {
    if left == Atom(AttributesColumn) && right.Atom? && right.token.PathLiteral? then PathValue(w, right.token.text) else NullDatum
  }

  /** The same database with its attributes addressed through literals. */
  function AsRead(w: World): World {
    w.(attribute := (parts: seq<string>) => PathValue(w, LiteralText(parts)))
  }

  function ValueOf(w: World, args: seq<Arg>, tree: Tree): Datum {
    match tree
    case TextAt(left, right) => TextValue(w, left, right)
    case Sum(minus, left, right) => w.add(minus, ValueOf(w, args, left), ValueOf(w, args, right))
    case Casting(operand, typ) => w.convert(typ, ValueOf(w, args, operand))
    case Atom(token) => AtomValue(w, args, token)
    case _ => NullDatum
  }

  function EqualsAny(w: World, args: seq<Arg>, datum: Datum, values: seq<Tree>): Truth {
    if values == [] then False
    else Or3(w.compare("=", datum, ValueOf(w, args, values[0])), EqualsAny(w, args, datum, values[1..]))
  }

  function Holds(w: World, args: seq<Arg>, tree: Tree): Truth {
    match tree
    case Either(left, right) => Or3(Holds(w, args, left), Holds(w, args, right))
    case Both(left, right) => And3(Holds(w, args, left), Holds(w, args, right))
    case Negation(operand) => Not3(Holds(w, args, operand))
    case NullTest(operand, negated) => OfBool((ValueOf(w, args, operand) == NullDatum) != negated)
    case Comparing(op, left, right) => w.compare(op, ValueOf(w, args, left), ValueOf(w, args, right))
    case Ranging(operand, lower, upper) =>
      And3(w.compare(">=", ValueOf(w, args, operand), ValueOf(w, args, lower)),
           w.compare("<=", ValueOf(w, args, operand), ValueOf(w, args, upper)))
    case Membership(operand, values) => EqualsAny(w, args, ValueOf(w, args, operand), values)
    case Atom(token) =>
      if token.ExistsRelation? then OfBool(w.related(token.direction, ArgAt(args, token.number))) else Unknown
    case _ => Unknown
  }

  // ----- Regrouping token strings -----

  lemma Regroup3(a: seq<Token>, b: seq<Token>, c: seq<Token>, rest: seq<Token>)
    ensures a + b + c + rest == a + (b + (c + rest))
  {
  }

  lemma Regroup5(a: seq<Token>, b: seq<Token>, c: seq<Token>, d: seq<Token>, e: seq<Token>, rest: seq<Token>)
    ensures a + b + c + d + e + rest == a + (b + (c + (d + (e + rest))))
  {
    Regroup3(a, b, c, d + (e + rest));
    assert a + b + c + d + e + rest == a + b + c + (d + (e + rest));
  }

  lemma TailOf(token: Token, rest: seq<Token>)
    ensures ([token] + rest)[1..] == rest && ([token] + rest)[0] == token
  {
  }

  // ----- Facts about reading -----

  /** What is read at a tight level is read at every looser level whose operators do not follow. */
  lemma {:induction false} Descend(loose: nat, tight: nat, tokens: seq<Token>, tree: Tree, rest: seq<Token>)
    requires 1 <= loose <= tight <= PRIMARY
    requires Read(tight, tokens) == Parsed(tree, rest) && Stops(loose, rest)
    requires loose <= NOT < tight ==> !At(tokens, NotWord)
    ensures Read(loose, tokens) == Parsed(tree, rest)
    decreases tight - loose
  {
    if loose < tight {
      Descend(loose + 1, tight, tokens, tree, rest);
    }
  }

  lemma AtomReads(token: Token, rest: seq<Token>)
    requires IsAtom(token)
    ensures Read(PRIMARY, [token] + rest) == Parsed(Atom(token), rest)
  {
    TailOf(token, rest);
  }

  /** Parentheses make a primary of whatever was read inside them. */
  lemma ParensRead(inside: nat, outside: nat, inner: seq<Token>, tree: Tree, rest: seq<Token>)
    requires 1 <= inside <= PRIMARY && 1 <= outside <= PRIMARY && Stops(outside, rest)
    requires Read(inside, inner + ([RParen] + rest)) == Parsed(tree, [RParen] + rest)
    requires NOT < inside ==> !At(inner + ([RParen] + rest), NotWord)
    ensures Read(outside, [LParen] + (inner + ([RParen] + rest))) == Parsed(tree, rest)
  {
    var tokens := [LParen] + (inner + ([RParen] + rest));
    Descend(OR, inside, inner + ([RParen] + rest), tree, [RParen] + rest);
    TailOf(LParen, inner + ([RParen] + rest));
    TailOf(RParen, rest);
    assert Read(PRIMARY, tokens) == Parsed(tree, rest);
    Descend(outside, PRIMARY, tokens, tree, rest);
  }

  /** `left token right`, both sides read one level tighter, is one application of the token. */
  lemma BinaryReads(level: nat, left: seq<Token>, token: Token, right: seq<Token>, rest: seq<Token>, l: Tree, r: Tree)
    requires token in {OrWord, AndWord, TextAtPath, Plus, Minus} && level == Continues(token)
    requires Read(level + 1, left + ([token] + (right + rest))) == Parsed(l, [token] + (right + rest))
    requires Read(level + 1, right + rest) == Parsed(r, rest) && Stops(level, rest)
    ensures Read(level, left + ([token] + (right + rest))) == Parsed(JoinTrees(token, l, r), rest)
  {
    JoinContinues(level, l, token, right, rest, r);
    assert Continue(level, JoinTrees(token, l, r), rest) == Parsed(JoinTrees(token, l, r), rest);
  }

  lemma JoinContinues(level: nat, acc: Tree, token: Token, right: seq<Token>, rest: seq<Token>, r: Tree)
    requires token in {OrWord, AndWord, TextAtPath, Plus, Minus} && level == Continues(token)
    requires Read(level + 1, right + rest) == Parsed(r, rest)
    ensures Continue(level, acc, [token] + (right + rest)) == Continue(level, JoinTrees(token, acc, r), rest)
  {
    TailOf(token, right + rest);
  }

  // ----- Only legible tokens are read -----

  /** Reading got from `tokens` to `rest` over legible tokens. */
  ghost predicate Consumed(tokens: seq<Token>, rest: seq<Token>) {
    && |rest| <= |tokens| && rest == tokens[|tokens| - |rest|..]
    && forall i :: 0 <= i < |tokens| - |rest| ==> Legible(tokens[i])
  }

  lemma ConsumedStep(tokens: seq<Token>)
    requires tokens != [] && Legible(tokens[0])
    ensures Consumed(tokens, tokens[1..])
  {
  }

  lemma ConsumedThen(a: seq<Token>, b: seq<Token>, c: seq<Token>)
    requires Consumed(a, b) && Consumed(b, c)
    ensures Consumed(a, c)
  {
    forall i | 0 <= i < |a| - |c| ensures Legible(a[i]) {
      if i >= |a| - |b| {
        assert a[i] == b[i - (|a| - |b|)];
      }
    }
  }

  lemma {:induction false} ReadConsumes(level: nat, tokens: seq<Token>)
    requires 1 <= level <= PRIMARY && Read(level, tokens).Parsed?
    ensures Consumed(tokens, Read(level, tokens).rest)
    decreases |tokens|, 1, PRIMARY - level
  {
    if level == PRIMARY {
      PrimaryConsumes(tokens);
    } else if level == NOT && At(tokens, NotWord) {
      ReadConsumes(NOT, tokens[1..]);
      ConsumedStep(tokens);
      ConsumedThen(tokens, tokens[1..], Read(level, tokens).rest);
    } else {
      ReadConsumes(level + 1, tokens);
      var first := Read(level + 1, tokens);
      ContinueConsumes(level, first.tree, first.rest);
      ConsumedThen(tokens, first.rest, Read(level, tokens).rest);
    }
  }

  lemma {:induction false} PrimaryConsumes(tokens: seq<Token>)
    requires ReadPrimary(tokens).Parsed?
    ensures Consumed(tokens, ReadPrimary(tokens).rest)
    decreases |tokens|, 0, 0
  {
    ConsumedStep(tokens);
    if tokens[0] == LParen {
      ReadConsumes(OR, tokens[1..]);
      var inner := Read(OR, tokens[1..]).rest;
      ConsumedStep(inner);
      ConsumedThen(tokens, tokens[1..], inner);
      ConsumedThen(tokens, inner, inner[1..]);
    }
  }

  lemma {:induction false} ContinueConsumes(level: nat, left: Tree, tokens: seq<Token>)
    requires 1 <= level < PRIMARY && Continue(level, left, tokens).Parsed?
    ensures Consumed(tokens, Continue(level, left, tokens).rest)
    decreases |tokens|, 0, 1
  {
    if tokens == [] || Continues(tokens[0]) != level {
      assert Continue(level, left, tokens) == Parsed(left, tokens);
    } else {
      match tokens[0]
      case IsWord => NullTestConsumes(left, tokens);
      case CastTo(_) => CastConsumes(left, tokens);
      case BetweenWord => RangeConsumes(left, tokens);
      case InWord => ListTestConsumes(left, tokens);
      case LikeWord(_) => ComparisonConsumes(left, tokens);
      case Compare(_) => ComparisonConsumes(left, tokens);
      case OrWord => JoinConsumes(level, left, tokens);
      case AndWord => JoinConsumes(level, left, tokens);
      case TextAtPath => JoinConsumes(level, left, tokens);
      case Plus => JoinConsumes(level, left, tokens);
      case Minus => JoinConsumes(level, left, tokens);
      case _ =>
    }
  }

  lemma {:induction false} CastConsumes(left: Tree, tokens: seq<Token>)
    requires tokens != [] && tokens[0].CastTo? && Continue(CAST, left, tokens).Parsed?
    ensures Consumed(tokens, Continue(CAST, left, tokens).rest)
    decreases |tokens|, 0, 0
  {
    var rest := Continue(CAST, left, tokens).rest;
    CastStep(left, tokens);
    ContinueConsumes(CAST, Casting(left, tokens[0].typ), tokens[1..]);
    ConsumedStep(tokens);
    ConsumedThen(tokens, tokens[1..], rest);
  }

  lemma CastStep(left: Tree, tokens: seq<Token>)
    requires tokens != [] && tokens[0].CastTo?
    ensures Continue(CAST, left, tokens) == Continue(CAST, Casting(left, tokens[0].typ), tokens[1..])
  {
  }

  lemma {:induction false} ComparisonConsumes(left: Tree, tokens: seq<Token>)
    requires tokens != [] && (tokens[0].LikeWord? || tokens[0].Compare?) && Continue(Continues(tokens[0]), left, tokens).Parsed?
    ensures Consumed(tokens, Continue(Continues(tokens[0]), left, tokens).rest)
    decreases |tokens|, 0, 0
  {
    var level := if tokens[0].LikeWord? then OPERATOR else RANGE;
    ConsumedStep(tokens);
    ReadConsumes(level, tokens[1..]);
    ConsumedThen(tokens, tokens[1..], Read(level, tokens[1..]).rest);
  }

  lemma {:induction false} JoinConsumes(level: nat, left: Tree, tokens: seq<Token>)
    requires tokens != [] && tokens[0] in {OrWord, AndWord, TextAtPath, Plus, Minus} && level == Continues(tokens[0])
    requires Continue(level, left, tokens).Parsed?
    ensures Consumed(tokens, Continue(level, left, tokens).rest)
    decreases |tokens|, 0, 0
  {
    var right := Read(level + 1, tokens[1..]);
    ConsumedStep(tokens);
    ReadConsumes(level + 1, tokens[1..]);
    ConsumedThen(tokens, tokens[1..], right.rest);
    ContinueConsumes(level, JoinTrees(tokens[0], left, right.tree), right.rest);
    ConsumedThen(tokens, right.rest, Continue(level, left, tokens).rest);
  }

  lemma {:induction false} NullTestConsumes(left: Tree, tokens: seq<Token>)
    requires At(tokens, IsWord) && Continue(IS, left, tokens).Parsed?
    ensures Consumed(tokens, Continue(IS, left, tokens).rest)
    decreases |tokens|, 0, 0
  {
    var n := if At(tokens[1..], NullWord) then 2 else 3;
    assert n == 3 ==> tokens[1] == NotWord && tokens[2..][0] == tokens[2];
    assert Consumed(tokens, tokens[n..]);
    ContinueConsumes(IS, NullTest(left, n == 3), tokens[n..]);
    ConsumedThen(tokens, tokens[n..], Continue(IS, left, tokens).rest);
  }

  lemma {:induction false} RangeConsumes(left: Tree, tokens: seq<Token>)
    requires At(tokens, BetweenWord) && Continue(RANGE, left, tokens).Parsed?
    ensures Consumed(tokens, Continue(RANGE, left, tokens).rest)
    decreases |tokens|, 0, 0
  {
    var middle := Read(OPERATOR, tokens[1..]).rest;
    ConsumedStep(tokens);
    ReadConsumes(OPERATOR, tokens[1..]);
    ConsumedThen(tokens, tokens[1..], middle);
    ConsumedStep(middle);
    ConsumedThen(tokens, middle, middle[1..]);
    ReadConsumes(OPERATOR, middle[1..]);
    ConsumedThen(tokens, middle[1..], Read(OPERATOR, middle[1..]).rest);
  }

  lemma {:induction false} ListTestConsumes(left: Tree, tokens: seq<Token>)
    requires At(tokens, InWord) && Continue(RANGE, left, tokens).Parsed?
    ensures Consumed(tokens, Continue(RANGE, left, tokens).rest)
    decreases |tokens|, 0, 0
  {
    var rest := ReadList(tokens[2..]).tokens;
    assert tokens[1..][0] == tokens[1];
    assert Consumed(tokens, tokens[2..]);
    ListConsumes(tokens[2..]);
    ConsumedThen(tokens, tokens[2..], rest);
    ConsumedStep(rest);
    ConsumedThen(tokens, rest, rest[1..]);
  }

  lemma {:induction false} ListConsumes(tokens: seq<Token>)
    requires ReadList(tokens).ParsedList?
    ensures Consumed(tokens, ReadList(tokens).tokens)
    decreases |tokens|, 2, 0
  {
    var first := Read(OR, tokens).rest;
    ReadConsumes(OR, tokens);
    if At(first, Comma) {
      ConsumedStep(first);
      ConsumedThen(tokens, first, first[1..]);
      ListConsumes(first[1..]);
      ConsumedThen(tokens, first[1..], ReadList(tokens).tokens);
    }
  }

  /** A condition is well formed only if all its path literals are. */
  lemma ConditionIsLegible(tokens: seq<Token>)
    requires ReadCondition(tokens).Some?
    ensures forall token :: token in tokens ==> Legible(token)
  {
    ReadConsumes(OR, tokens);
  }
}
