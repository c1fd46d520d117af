/** Cutting query text into tokens. Characters stand for the bytes of the input. */
module Lexer {
  import opened Values
  import opened Characters
  import opened Grammar

  predicate IsLetter(c: char) {
    'a' <= c <= 'z' || 'A' <= c <= 'Z' || c as int in {0xAA, 0xB5, 0xBA} ||
    (0xC0 <= c as int <= 0xFF && c as int != 0xD7 && c as int != 0xF7)
  }

  predicate IdentStart(c: char) {
    IsLetter(c) || c == '_'
  }

  predicate IdentPart(c: char) {
    IsLetter(c) || IsDigit(c) || c == '_'
  }

  // ----- One token -----

  function IdentLength(s: string): (n: nat)
    ensures n <= |s|
  {
    if s != "" && IdentPart(s[0]) then 1 + IdentLength(s[1..]) else 0
  }

  function DigitsLength(s: string): (n: nat)
    ensures n <= |s|
  {
    if s != "" && IsDigit(s[0]) then 1 + DigitsLength(s[1..]) else 0
  }

  /** scanNumber: digits, and a fraction if a dot follows; 0 when the fraction has no digits. */
  function NumberLength(s: string): (n: nat)
    ensures n <= |s|
  {
    var whole := DigitsLength(s);
    if whole == |s| || s[whole] != '.' then whole
    else
      var fraction := DigitsLength(s[whole + 1..]);
      if fraction == 0 then 0 else whole + 1 + fraction
  }

  datatype Scan = Unterminated | Scanned(value: string, size: nat)

  /** scanString, after the opening quote: a doubled quote stands for one. */
  function StringBody(s: string): (r: Scan)
    ensures r.Scanned? ==> 0 < r.size <= |s|
  {
    if s == "" then Unterminated
    else if s[0] != '\'' then
      match StringBody(s[1..]) case Unterminated => Unterminated case Scanned(value, size) => Scanned([s[0]] + value, size + 1)
    else if |s| > 1 && s[1] == '\'' then
      match StringBody(s[2..]) case Unterminated => Unterminated case Scanned(value, size) => Scanned("'" + value, size + 2)
    else Scanned("", 1)
  }

  function OperatorLength(s: string): (n: nat)
    requires s != ""
    ensures n <= |s|
  {
    if |s| > 1 && s[..2] in {"!=", "<=", ">=", "<>"} then 2 else if s[0] in {'=', '<', '>'} then 1 else 0
  }

  datatype Step = Bad | Skip | Got(token: Token, size: nat)

  function LexStep(s: string): (step: Step)
    requires s != ""
    ensures step.Got? ==> 0 < step.size <= |s|
  {
    var c := s[0];
    if IsSpace(c) then Skip
    else if IdentStart(c) then var n := 1 + IdentLength(s[1..]); Got(Ident(s[..n]), n)
    else if IsDigit(c) then (if NumberLength(s) == 0 then Bad else Got(Num(s[..NumberLength(s)]), NumberLength(s)))
    else if c == '\'' then
      match StringBody(s[1..]) case Unterminated => Bad case Scanned(value, size) => Got(Str(value), size + 1)
    else if c == '(' then Got(LParen, 1)
    else if c == ')' then Got(RParen, 1)
    else if c == ',' then Got(Comma, 1)
    else if c == ';' then Got(Semicolon, 1)
    else if c == ':' then (if |s| > 1 && s[1] == ':' then Got(DoubleColon, 2) else Bad)
    else if c == '+' || c == '-' then Got(Op([c]), 1)
    else if c in {'=', '<', '>', '!'} then (if OperatorLength(s) == 0 then Bad else Got(Op(s[..OperatorLength(s)]), OperatorLength(s)))
    else Bad
  }

  function Lex(s: string): Option<seq<Token>> {
    if s == "" then Some([Eof])
    else
      match LexStep(s)
      case Bad => None
      case Skip => Lex(s[1..])
      case Got(token, size) => match Lex(s[size..]) case None => None case Some(more) => Some([token] + more)
  }

  // ----- The lexer's loops -----

  method ScanIdent(input: string, start: nat) returns (next: nat)
    requires start < |input|
    ensures next == start + 1 + IdentLength(input[start + 1..])
  {
    next := start + 1;
    while next < |input| && IdentPart(input[next])
      invariant start < next <= |input|
      invariant start + 1 + IdentLength(input[start + 1..]) == next + IdentLength(input[next..])
    {
      assert input[next..][1..] == input[next + 1..];
      next := next + 1;
    }
  }

  method ScanDigits(input: string, start: nat) returns (next: nat)
    requires start <= |input|
    ensures next == start + DigitsLength(input[start..])
  {
    next := start;
    while next < |input| && IsDigit(input[next])
      invariant start <= next <= |input|
      invariant start + DigitsLength(input[start..]) == next + DigitsLength(input[next..])
    {
      assert input[next..][1..] == input[next + 1..];
      next := next + 1;
    }
  }

  method ScanNumber(input: string, start: nat) returns (size: nat)
    requires start < |input|
    ensures size == NumberLength(input[start..])
  {
    var next := ScanDigits(input, start);
    if next >= |input| || input[next] != '.' {
      return next - start;
    }
    var end := ScanDigits(input, next + 1);
    assert input[start..][next - start + 1..] == input[next + 1..];
    size := if end == next + 1 then 0 else end - start;
  }

  method ScanString(input: string, start: nat) returns (r: Scan)
    requires start < |input|
    ensures r == StringBody(input[start + 1..])
  {
    var i := start + 1;
    var value := "";
    while i < |input|
      invariant start < i <= |input|
      invariant StringBody(input[start + 1..]) == Continued(value, i - start - 1, StringBody(input[i..]))
    {
      assert input[i..][1..] == input[i + 1..];
      if input[i] != '\'' {
        ContinueWith(value, i - start - 1, [input[i]], 1, StringBody(input[i + 1..]));
        value := value + [input[i]];
        i := i + 1;
      } else if i + 1 < |input| && input[i + 1] == '\'' {
        assert input[i..][2..] == input[i + 2..];
        ContinueWith(value, i - start - 1, "'", 2, StringBody(input[i + 2..]));
        value := value + "'";
        i := i + 2;
      } else {
        assert value + "" == value;
        return Scanned(value, i - start);
      }
    }
    r := Unterminated;
  }

  function Continued(value: string, size: nat, more: Scan): Scan {
    match more case Unterminated => Unterminated case Scanned(rest, n) => Scanned(value + rest, size + n)
  }

  lemma ContinueWith(value: string, size: nat, one: string, n: nat, more: Scan)
    ensures Continued(value, size, Continued(one, n, more)) == Continued(value + one, size + n, more)
  {
    if more.Scanned? {
      assert value + (one + more.value) == value + one + more.value;
    }
  }

  method NextToken(input: string, i: nat) returns (step: Step)
    requires i < |input|
    ensures step == LexStep(input[i..])
  {
    var c := input[i];
    var s := input[i..];
    assert s[1..] == input[i + 1..];
    if IsSpace(c) {
      step := Skip;
    } else if IdentStart(c) {
      var next := ScanIdent(input, i);
      assert input[i..next] == s[..next - i];
      step := Got(Ident(input[i..next]), next - i);
    } else if IsDigit(c) {
      var size := ScanNumber(input, i);
      step := if size == 0 then Bad else Got(Num(input[i..][..size]), size);
    } else if c == '\'' {
      var scan := ScanString(input, i);
      step := match scan case Unterminated => Bad case Scanned(value, size) => Got(Str(value), size + 1);
    } else {
      step := LexStep(s);
    }
  }

  method LexAll(input: string) returns (tokens: Option<seq<Token>>)
    ensures tokens == Lex(input)
  {
    var i := 0;
    var collected := [];
    LexStarts(input);
    while i < |input|
      invariant Lexed(input, i, collected)
      decreases |input| - i
    {
      var known;
      known, i, collected := TakeToken(input, i, collected);
      if !known {
        return None;
      }
    }
    LexEnds(input, collected);
    tokens := Some(collected + [Eof]);
  }

  /** Past a blank, or past one more token. */
  method TakeToken(input: string, start: nat, before: seq<Token>) returns (known: bool, next: nat, collected: seq<Token>)
    requires start < |input| && Lexed(input, start, before)
    ensures !known ==> Lex(input) == None
    ensures known ==> start < next && Lexed(input, next, collected)
  {
    var step := NextToken(input, start);
    LexGoesOn(input, start, before, step);
    match step
    case Bad => known, next, collected := false, start, before;
    case Skip => known, next, collected := true, start + 1, before;
    case Got(token, size) => known, next, collected := true, start + size, before + [token];
  }

  /** The tokens before a position have been collected. */
  ghost predicate Lexed(input: string, i: nat, collected: seq<Token>) {
    i <= |input| && Lex(input) == Prepend(collected, Lex(input[i..]))
  }

  lemma LexStarts(input: string)
    ensures Lexed(input, 0, [])
  {
    assert input[0..] == input;
    if Lex(input).Some? {
      assert [] + Lex(input).value == Lex(input).value;
    }
  }

  lemma LexEnds(input: string, collected: seq<Token>)
    requires Lexed(input, |input|, collected)
    ensures Lex(input) == Some(collected + [Eof])
  {
    assert input[|input|..] == "";
  }

  lemma LexGoesOn(input: string, i: nat, collected: seq<Token>, step: Step)
    requires i < |input| && Lexed(input, i, collected) && step == LexStep(input[i..])
    ensures step.Bad? ==> Lex(input) == None
    ensures step.Skip? ==> Lexed(input, i + 1, collected)
    ensures step.Got? ==> 0 < step.size <= |input| - i && Lexed(input, i + step.size, collected + [step.token])
  {
    LexFrom(input, i, collected, step);
  }

  /** One step of the lexer, with tokens already collected. */
  lemma LexBy(s: string, collected: seq<Token>)
    requires s != ""
    ensures LexStep(s).Bad? ==> Lex(s) == None
    ensures LexStep(s).Skip? ==> Lex(s) == Lex(s[1..])
    ensures LexStep(s).Got? ==>
      Prepend(collected, Lex(s)) == Prepend(collected + [LexStep(s).token], Lex(s[LexStep(s).size..]))
  {
    match LexStep(s)
    case Got(token, size) => PrependOne(collected, token, Lex(s[size..]));
    case _ =>
  }

  /** The same at a position of the input. */
  lemma LexFrom(input: string, i: nat, collected: seq<Token>, step: Step)
    requires i < |input| && step == LexStep(input[i..])
    ensures step.Bad? ==> Lex(input[i..]) == None
    ensures step.Skip? ==> Lex(input[i..]) == Lex(input[i + 1..])
    ensures step.Got? ==>
      && 0 < step.size <= |input| - i
      && Prepend(collected, Lex(input[i..])) == Prepend(collected + [step.token], Lex(input[i + step.size..]))
  {
    LexBy(input[i..], collected);
    assert input[i..][1..] == input[i + 1..];
    assert step.Got? ==> input[i..][step.size..] == input[i + step.size..];
  }

  function Prepend(tokens: seq<Token>, more: Option<seq<Token>>): Option<seq<Token>> {
    match more case None => None case Some(rest) => Some(tokens + rest)
  }

  lemma PrependOne(tokens: seq<Token>, token: Token, more: Option<seq<Token>>)
    ensures Prepend(tokens, Prepend([token], more)) == Prepend(tokens + [token], more)
  {
    if more.Some? {
      assert tokens + ([token] + more.value) == tokens + [token] + more.value;
    }
  }

  // ----- Writing tokens -----

  function Quoted(text: string): string {
    if text == "" then "" else (if text[0] == '\'' then "''" else [text[0]]) + Quoted(text[1..])
  }

  function ShowToken(token: Token): string {
    match token
    case Ident(text) => text
    case Str(text) => "'" + Quoted(text) + "'"
    case Num(text) => text
    case Op(text) => text
    case LParen => "("
    case RParen => ")"
    case Comma => ","
    case Semicolon => ";"
    case DoubleColon => "::"
    case Eof => ""
  }

  /** Tokens separated by blanks. */
  function Show(tokens: seq<Token>): string {
    if tokens == [] then "" else ShowToken(tokens[0]) + (" " + Show(tokens[1..]))
  }

  /** Tokens the lexer can produce. */
  predicate Lexical(token: Token) {
    match token
    case Ident(text) => text != "" && IdentStart(text[0]) && IdentLength(text) == |text|
    case Num(text) => text != "" && IsDigit(text[0]) && NumberLength(text) == |text|
    case Op(text) => text in {"+", "-", "=", "<", ">", "!=", "<=", ">=", "<>"}
    case Eof => false
    case _ => true
  }

  // ----- The characters of a name -----

  /** The letters of one byte: those of ASCII, the two ordinal signs and the micro sign, and the accented ones, without the signs for times and divided by. */
  const LETTERS := [(0x41, 0x5A), (0x61, 0x7A), (0xAA, 0xAA), (0xB5, 0xB5), (0xBA, 0xBA), (0xC0, 0xD6), (0xD8, 0xF6), (0xF8, 0xFF)]

  predicate Letter(c: char) {
    exists i :: 0 <= i < |LETTERS| && LETTERS[i].0 <= c as int <= LETTERS[i].1
  }

  /** A name begins with a letter or an underscore, and goes on with these and digits. */
  lemma NameCharacters(c: char)
    ensures IdentStart(c) <==> Letter(c) || c == '_'
    ensures IdentPart(c) <==> Letter(c) || c == '_' || '0' <= c <= '9'
  {
    var code := c as int;
    assert Letter(c) <==> exists i :: 0 <= i < |LETTERS| && LETTERS[i].0 <= code <= LETTERS[i].1;
    if IsLetter(c) {
      var i := if code <= 0x5A then 0 else if code <= 0x7A then 1 else if code == 0xAA then 2 else if code == 0xB5 then 3
               else if code == 0xBA then 4 else if code <= 0xD6 then 5 else if code <= 0xF6 then 6 else 7;
      assert LETTERS[i].0 <= code <= LETTERS[i].1;
    }
  }

  // ----- What may follow a token without a blank -----

  /** Characters that are no part of a word or a number. */
  const SEPARATORS := {'(', ')', ',', ';', ':', '+', '-', '=', '<', '>', '!', '\''}

  /** White space within one byte: tab, line feed, vertical tab, form feed, carriage return, space, next line, no-break space. */
  const WHITE := {0x09, 0x0A, 0x0B, 0x0C, 0x0D, 0x20, 0x85, 0xA0}

  predicate Separator(c: char) {
    c in SEPARATORS || c as int in WHITE
  }

  /** The text behind a token does not continue it. */
  predicate Ends(token: Token, rest: string) {
    rest == "" ||
    match token
    case Ident(_) => Separator(rest[0])
    case Num(_) => Separator(rest[0]) || 'a' <= rest[0] <= 'z' || 'A' <= rest[0] <= 'Z' || rest[0] == '_'
    case Str(_) => rest[0] != '\''
    case Op(text) => if text == "<" then rest[0] != '=' && rest[0] != '>' else if text == ">" then rest[0] != '=' else true
    case _ => true
  }

  lemma {:induction false} IdentStops(text: string, rest: string)
    requires IdentLength(text) == |text| && (rest == "" || Separator(rest[0]))
    ensures IdentLength(text + rest) == |text|
  {
    if text != "" {
      assert (text + rest)[1..] == text[1..] + rest;
      IdentStops(text[1..], rest);
    } else {
      assert text + rest == rest;
    }
  }

  lemma {:induction false} DigitsStop(text: string, rest: string)
    requires rest == "" || !IsDigit(rest[0])
    ensures DigitsLength(text + rest) == DigitsLength(text)
  {
    if text != "" {
      assert (text + rest)[1..] == text[1..] + rest;
      DigitsStop(text[1..], rest);
    } else {
      assert text + rest == rest;
    }
  }

  lemma NumberStops(text: string, rest: string)
    requires text != "" && IsDigit(text[0]) && NumberLength(text) == |text| && Ends(Num(text), rest)
    ensures NumberLength(text + rest) == |text|
  {
    DigitsStop(text, rest);
    var whole := DigitsLength(text);
    if whole < |text| {
      var tail := text[whole + 1..];
      assert (text + rest)[whole + 1..] == tail + rest;
      DigitsStop(tail, rest);
    }
  }

  lemma BodyStep(c: char, more: string)
    ensures StringBody((if c == '\'' then "''" else [c]) + more) == Continued([c], if c == '\'' then 2 else 1, StringBody(more))
  {
    var s := (if c == '\'' then "''" else [c]) + more;
    if c == '\'' {
      assert s[2..] == more && [c] == "'";
    } else {
      assert s[1..] == more;
    }
  }

  lemma {:induction false} BodyCloses(text: string, tail: string)
    requires StringBody(tail) == Scanned("", 1)
    ensures StringBody(Quoted(text) + tail) == Scanned(text, |Quoted(text)| + 1)
  {
    if text == "" {
      assert Quoted(text) + tail == tail;
    } else {
      var head, more := if text[0] == '\'' then "''" else [text[0]], Quoted(text[1..]);
      BodyCloses(text[1..], tail);
      BodyStep(text[0], more + tail);
      assert (head + more) + tail == head + (more + tail);
      assert [text[0]] + text[1..] == text;
    }
  }

  lemma StringCloses(text: string, rest: string)
    requires rest == "" || rest[0] != '\''
    ensures StringBody(Quoted(text) + ("'" + rest)) == Scanned(text, |Quoted(text)| + 1)
  {
    assert ("'" + rest)[1..] == rest;
    BodyCloses(text, "'" + rest);
  }

  predicate ReadsBack(token: Token, rest: string) {
    var s := ShowToken(token) + rest;
    ShowToken(token) != "" && LexStep(s) == Got(token, |ShowToken(token)|)
  }

  lemma IdentReadsBack(text: string, rest: string)
    requires Lexical(Ident(text)) && Ends(Ident(text), rest)
    ensures ReadsBack(Ident(text), rest)
  {
    var s := text + rest;
    assert text == [text[0]] + text[1..];
    assert s[1..] == text[1..] + rest && s[..|text|] == text;
    IdentStops(text[1..], rest);
  }

  lemma NumberReadsBack(text: string, rest: string)
    requires Lexical(Num(text)) && Ends(Num(text), rest)
    ensures ReadsBack(Num(text), rest)
  {
    NumberStops(text, rest);
    assert (text + rest)[..|text|] == text;
  }

  lemma StringReadsBack(text: string, rest: string)
    requires Ends(Str(text), rest)
    ensures ReadsBack(Str(text), rest)
  {
    var s := ShowToken(Str(text)) + rest;
    StringCloses(text, rest);
    assert s[1..] == Quoted(text) + ("'" + rest);
  }

  lemma OperatorReadsBack(text: string, rest: string)
    requires Lexical(Op(text)) && Ends(Op(text), rest)
    ensures ReadsBack(Op(text), rest)
  {
    var s := text + rest;
    assert s[..|text|] == text && s[0] == text[0];
    if |text| == 1 {
      assert text == [text[0]];
      assert rest != "" ==> s[..2] == [text[0], rest[0]];
    } else {
      assert s[..2] == text;
    }
  }

  /** A written token followed by something that does not continue it is read back as itself. */
  lemma TokenReadsBack(token: Token, rest: string)
    requires Lexical(token) && Ends(token, rest)
    ensures ReadsBack(token, rest)
  {
    match token
    case Ident(text) => IdentReadsBack(text, rest);
    case Num(text) => NumberReadsBack(text, rest);
    case Str(text) => StringReadsBack(text, rest);
    case Op(text) => OperatorReadsBack(text, rest);
    case _ =>
  }

  lemma LexToken(token: Token, rest: string)
    requires ReadsBack(token, rest)
    ensures Lex(ShowToken(token) + rest) == Prepend([token], Lex(rest))
  {
    var s := ShowToken(token) + rest;
    assert s[|ShowToken(token)|..] == rest;
  }

  /** White space a query may be laid out with. */
  predicate Gap(text: string) {
    forall c :: c in text ==> c as int in WHITE
  }

  lemma {:induction false} LexGap(gap: string, rest: string)
    requires Gap(gap)
    ensures Lex(gap + rest) == Lex(rest)
  {
    if gap == "" {
      assert gap + rest == rest;
    } else {
      assert gap[0] in gap && (gap + rest)[1..] == gap[1..] + rest;
      forall c | c in gap[1..] ensures c in gap {
      }
      LexGap(gap[1..], rest);
    }
  }

  /** Tokens, each followed by its gap. */
  function Spread(tokens: seq<Token>, gaps: seq<string>): string
    requires |gaps| == |tokens|
  {
    if tokens == [] then "" else ShowToken(tokens[0]) + (gaps[0] + Spread(tokens[1..], gaps[1..]))
  }

  /** Two tokens that may stand next to each other without a gap. */
  predicate Apart(a: Token, b: Token) {
    match a
    case Ident(_) => !b.Ident? && !b.Num?
    case Num(_) => !b.Num? && (b.Ident? ==> b.text != "" && ('a' <= b.text[0] <= 'z' || 'A' <= b.text[0] <= 'Z' || b.text[0] == '_'))
    case Str(_) => !b.Str?
    case Op("<") => b != Op("=") && b != Op(">") && b != Op(">=")
    case Op(">") => b != Op("=")
    case _ => true
  }

  /** The gaps are white space, and not empty where two tokens would run together. */
  predicate Separates(tokens: seq<Token>, gaps: seq<string>)
    requires |gaps| == |tokens| && forall i :: 0 <= i < |tokens| ==> Lexical(tokens[i])
  {
    forall i :: 0 <= i < |gaps| ==> Gap(gaps[i]) && (gaps[i] != "" || i == |gaps| - 1 || Apart(tokens[i], tokens[i + 1]))
  }

  lemma GapEnds(token: Token, gap: string, rest: string)
    requires Gap(gap) && gap != "" && !token.Eof?
    ensures Ends(token, gap + rest)
  {
    assert gap[0] in gap && (gap + rest)[0] == gap[0];
  }

  lemma ApartEnds(a: Token, b: Token, rest: string)
    requires Lexical(a) && Lexical(b) && Apart(a, b)
    ensures Ends(a, ShowToken(b) + rest)
  {
    var s := ShowToken(b) + rest;
    assert ShowToken(b) != "" && s[0] == ShowToken(b)[0];
    assert b.Num? ==> IsDigit(s[0]);
  }

  /** Tokens laid out with any white space, and with none where two of them do not run together, are read back. */
  lemma {:induction false} LexSpread(tokens: seq<Token>, gaps: seq<string>)
    requires |gaps| == |tokens| && (forall i :: 0 <= i < |tokens| ==> Lexical(tokens[i])) && Separates(tokens, gaps)
    ensures Lex(Spread(tokens, gaps)) == Some(tokens + [Eof])
    decreases |tokens|
  {
    if tokens == [] {
      assert [] + [Eof] == [Eof];
    } else {
      var rest := Spread(tokens[1..], gaps[1..]);
      assert forall i :: 0 <= i < |tokens| - 1 ==> tokens[1..][i] == tokens[i + 1] && gaps[1..][i] == gaps[i + 1];
      LexSpread(tokens[1..], gaps[1..]);
      FirstEnds(tokens, gaps);
      TokenReadsBack(tokens[0], gaps[0] + rest);
      LexToken(tokens[0], gaps[0] + rest);
      LexGap(gaps[0], rest);
      assert [tokens[0]] + (tokens[1..] + [Eof]) == tokens + [Eof];
    }
  }

  lemma FirstEnds(tokens: seq<Token>, gaps: seq<string>)
    requires tokens != [] && |gaps| == |tokens| && (forall i :: 0 <= i < |tokens| ==> Lexical(tokens[i])) && Separates(tokens, gaps)
    ensures Ends(tokens[0], gaps[0] + Spread(tokens[1..], gaps[1..]))
  {
    var rest := Spread(tokens[1..], gaps[1..]);
    if gaps[0] != "" {
      GapEnds(tokens[0], gaps[0], rest);
    } else if |tokens| > 1 {
      assert gaps[0] + rest == rest && tokens[1..][0] == tokens[1];
      ApartEnds(tokens[0], tokens[1], gaps[1..][0] + Spread(tokens[1..][1..], gaps[1..][1..]));
    } else {
      assert gaps[0] + rest == "";
    }
  }

  /** In particular tokens written with blanks between them are read back, strings with quotes in them included. */
  lemma LexShow(tokens: seq<Token>)
    requires forall i :: 0 <= i < |tokens| ==> Lexical(tokens[i])
    ensures Lex(Show(tokens)) == Some(tokens + [Eof])
  {
    var gaps := seq(|tokens|, i => " ");
    ShowIsSpread(tokens);
    LexSpread(tokens, gaps);
  }

  lemma {:induction false} ShowIsSpread(tokens: seq<Token>)
    ensures Show(tokens) == Spread(tokens, seq(|tokens|, i => " "))
  {
    if tokens != [] {
      ShowIsSpread(tokens[1..]);
      assert seq(|tokens|, i => " ")[1..] == seq(|tokens[1..]|, i => " ");
    }
  }

  lemma {:induction false} IdentPrefix(s: string)
    ensures IdentLength(s[..IdentLength(s)]) == IdentLength(s)
  {
    if s != "" && IdentPart(s[0]) {
      var n := IdentLength(s);
      assert s[..n][1..] == s[1..][..n - 1];
      IdentPrefix(s[1..]);
    }
  }

  lemma {:induction false} DigitsPrefix(s: string, n: nat)
    requires DigitsLength(s) <= n <= |s|
    ensures DigitsLength(s[..n]) == DigitsLength(s)
  {
    if s != "" && IsDigit(s[0]) {
      assert s[..n][1..] == s[1..][..n - 1];
      DigitsPrefix(s[1..], n - 1);
    }
  }

  lemma NumberPrefix(s: string)
    requires NumberLength(s) > 0
    ensures NumberLength(s[..NumberLength(s)]) == NumberLength(s)
  {
    var n := NumberLength(s);
    var whole := DigitsLength(s);
    DigitsPrefix(s, n);
    if whole < n {
      assert s[..n][whole + 1..] == s[whole + 1..][..n - whole - 1];
      DigitsPrefix(s[whole + 1..], n - whole - 1);
    }
  }

  lemma StepIsLexical(s: string)
    requires s != "" && LexStep(s).Got?
    ensures Lexical(LexStep(s).token)
  {
    match LexStep(s).token
    case Ident(text) =>
      IdentPrefix(s[1..]);
      assert text[1..] == s[1..][..|text| - 1];
    case Num(text) => NumberPrefix(s);
    case Op(text) =>
      if text == s[..1] {
        assert text == [s[0]];
      }
    case _ =>
  }

  /** Every token before the end marker could be written and read back. */
  lemma {:induction false} LexIsLexical(s: string)
    requires Lex(s).Some?
    ensures var tokens := Lex(s).value;
      |tokens| > 0 && tokens[|tokens| - 1] == Eof && forall i :: 0 <= i < |tokens| - 1 ==> Lexical(tokens[i])
    decreases |s|
  {
    if s != "" {
      match LexStep(s)
      case Skip => LexIsLexical(s[1..]);
      case Got(_, size) =>
        StepIsLexical(s);
        LexIsLexical(s[size..]);
    }
  }
}
