/** Tests of a single attribute: which paths are tested, and where another attribute is tested or none at all. */
module AttributeTests {
  import opened Values
  import opened QueryAst
  import opened Characters
  import opened PathLiterals
  import opened SqlText
  import opened AttributePath
  import opened Compile
  import opened CompileMeaning
  import opened PathMeaning
  import opened ConditionMeaning

  /** attr('path') = 'x'. */
  function Test(path: string): Expr {
    Comparison("eq", AttrRef(path), StringLiteral("x"))
  }

  function Where(names: Names, scope: string, path: string): Option<Code> {
    WhereSql(names, scope, Some(Test(path)))
  }

  lemma TestIsSound(names: Names, path: string)
    ensures Safe(names, Test(path)) && (Readable(Test(path)) <==> ReadablePath(path)) && (Plain(Test(path)) <==> PlainAttribute(path))
  {
    assert Readable(AttrRef(path)) == ReadablePath(path) && Readable(StringLiteral("x"));
    assert Plain(AttrRef(path)) == PlainAttribute(path) && Plain(StringLiteral("x"));
  }

  lemma TestCompiles(names: Names, scope: string, path: string)
    requires Where(names, scope, path).Some?
    ensures JsonPath(path).Some?
  {
    assert ScalarSql(names, AttrRef(path), ScopeSql(scope).args).Some?;
  }

  /** A row of the bucket `scope` whose only attribute is at `parts`, and is the text x; conversions keep the text. */
  function RowWith(scope: string, parts: seq<string>): World {
    World(
      name => TextDatum(scope), path => if path == parts then TextDatum("x") else NullDatum, (typ, datum) => datum,
      (minus, a, b) => NullDatum, (op, a, b) => OfBool(a == b), (direction, arg) => false, arg => NullDatum,
      (arg: Arg) => if arg.TextArg? then TextDatum(arg.text) else NullDatum, NullDatum, interval => NullDatum)
  }

  lemma TestOnRow(names: Names, scope: string, path: string, parts: seq<string>)
    requires JsonPath(path).Some?
    ensures ScopeMeaning(RowWith(scope, parts), scope) == True && ScopeMeaning(AsRead(RowWith(scope, parts)), scope) == True
    ensures Meaning(RowWith(scope, parts), names, Test(path)) == OfBool(JsonPath(path).value == parts)
    ensures Meaning(AsRead(RowWith(scope, parts)), names, Test(path)) ==
              OfBool(PathValue(RowWith(scope, parts), LiteralText(JsonPath(path).value)) == TextDatum("x"))
  {
    assert LiteralValue(names, StringLiteral("x")) == Some(TextArg("x"));
  }

  lemma OnlyItself(scope: string, parts: seq<string>)
    requires parts != [] && PathValue(RowWith(scope, parts), LiteralText(parts)) == TextDatum("x")
    ensures PlainPath(parts)
  {
    var elements := ReadLiteral(LiteralText(parts)).value;
    assert Steps(elements) == parts;
    forall i | 0 <= i < |elements| ensures elements[i] == Some(parts[i]) {
      assert elements[i] in elements && Steps(elements)[i] == parts[i];
    }
    assert elements == AllSome(parts);
    ReadsBackIff(parts);
  }

  /**
   A test of one attribute, in any scope and whatever the attribute's type, is compiled to one well-formed condition
   that means what it says on every row of every database exactly when all names of the path are plain.
   */
  lemma AttributeTestIsPreservedIff(names: Names, scope: string, path: string)
    requires Where(names, scope, path).Some?
    ensures PlainAttribute(path) <==>
              ReadCondition(Where(names, scope, path).value.text).Some? && forall w: World :: MeansTest(w, names, scope, path)
  {
    TestIsSound(names, path);
    TestCompiles(names, scope, path);
    if PlainAttribute(path) {
      forall w: World ensures MeansTest(w, names, scope, path) {
        var tree := MeaningIsPreservedIff(w, names, scope, Some(Test(path)));
      }
      PathIsReadable(path);
      var tree := MeaningIsPreservedIff(RowWith(scope, []), names, scope, Some(Test(path)));
    } else if ReadablePath(path) {
      MisreadSomewhere(names, scope, path);
    } else {
      UnreadableIsNotRead(names, scope, Some(Test(path)));
    }
  }

  /** What is read from the clause says of a row what was meant. */
  ghost predicate MeansTest(w: World, names: Names, scope: string, path: string)
    requires Where(names, scope, path).Some?
  {
    var code := Where(names, scope, path).value;
    match ReadCondition(code.text)
    case None => false
    case Some(tree) => Holds(w, code.args, tree) == Intended(w, names, scope, Some(Test(path)))
  }

  lemma MisreadSomewhere(names: Names, scope: string, path: string)
    requires Where(names, scope, path).Some? && JsonPath(path).Some? && ReadablePath(path) && !PlainAttribute(path)
    ensures !MeansTest(RowWith(scope, JsonPath(path).value), names, scope, path)
  {
    var parts := JsonPath(path).value;
    var w := RowWith(scope, parts);
    TestIsSound(names, path);
    var tree := WhereReads(w, names, scope, Some(Test(path)));
    TestOnRow(names, scope, path, parts);
    if PathValue(w, LiteralText(parts)) == TextDatum("x") {
      OnlyItself(scope, parts);
    }
  }

  // ----- Two paths that are not plain -----

  const COMMA := "user.a,b"
  const QUOTE := "a'b"

  lemma CommaPath()
    ensures JsonPath(COMMA) == Some(["user", "a,b"])
    ensures ReadLiteral(LiteralText(["user", "a,b"])) == Some(AllSome(["user", "a", "b"]))
  {
    SameText();
    PlainNames();
    ReadsBackIff(["user", "a", "b"]);
    CommaSplits();
  }

  lemma CommaSplits()
    ensures JsonPath(COMMA) == Some(["user", "a,b"])
  {
    SplitAtDot();
    StartsDark("user");
    StartsDark("a,b");
    assert Split(COMMA)[0] == "user" && Split(COMMA)[1] == "a,b";
  }

  lemma PlainNames()
    ensures PlainPath(["user", "a", "b"])
  {
    assert PlainName("user") && PlainName("a") && PlainName("b");
  }

  lemma StartsDark(text: string)
    requires text != "" && !IsSpace(text[0])
    ensures !Blank(text)
  {
  }

  lemma SameText()
    ensures LiteralText(["user", "a,b"]) == LiteralText(["user", "a", "b"])
  {
    assert ["user", "a,b"][1..] == ["a,b"] && ["user", "a", "b"][1..] == ["a", "b"] && ["a", "b"][1..] == ["b"];
    assert Commas(["a,b"]) == "a,b" && Commas(["b"]) == "b";
    assert Commas(["a", "b"]) == "a" + "," + "b" == "a,b";
    assert Commas(["user", "a,b"]) == "user" + "," + "a,b";
    assert Commas(["user", "a", "b"]) == "user" + "," + Commas(["a", "b"]);
    assert Commas(["user", "a,b"]) == Commas(["user", "a", "b"]);
  }

  lemma SplitAtDot()
    ensures Split(COMMA) == ["user", "a,b"]
  {
    var tail := ".a,b";
    CollectSegment("user", tail, "");
    assert COMMA == "user" + tail && tail[0] == '.' && tail[1..] == "a,b";
    assert "a,b" + "" == "a,b" && "" + "a,b" == "a,b" && "" + "user" == "user";
    CollectSegment("a,b", "", "");
    assert SplitFrom("a,b", "") == ["a,b"];
    assert SplitFrom(tail, "user") == ["user"] + SplitFrom("a,b", "");
  }

  /** attr('user.a,b') = 'x' tests the attribute b of a. */
  lemma CommaTestsAnother(w: World, names: Names) returns (tree: Tree)
    requires COMMA !in names.attrTypes
    ensures Where(names, "", COMMA).Some? && ReadCondition(Where(names, "", COMMA).value.text) == Some(tree)
    ensures Holds(w, Where(names, "", COMMA).value.args, tree) ==
              w.compare("=", w.attribute(["user", "a", "b"]), w.bind(TextArg("x")))
    ensures Intended(w, names, "", Some(Test(COMMA))) == w.compare("=", w.attribute(["user", "a,b"]), w.bind(TextArg("x")))
  {
    CommaPath();
    TestIsSound(names, COMMA);
    UntypedTestCompiles(names, COMMA);
    tree := WhereReads(w, names, "", Some(Test(COMMA)));
    UntypedTest(w, names, COMMA);
    UntypedTest(AsRead(w), names, COMMA);
    assert Steps(AllSome(["user", "a", "b"])) == ["user", "a", "b"];
  }

  lemma UntypedTestCompiles(names: Names, path: string)
    requires JsonPath(path).Some? && path !in names.attrTypes
    ensures Where(names, "", path).Some?
  {
    assert ScalarSql(names, AttrRef(path), []).Some?;
    assert ScalarSql(names, StringLiteral("x"), ScalarSql(names, AttrRef(path), []).value.args).Some?;
  }

  lemma UntypedTest(w: World, names: Names, path: string)
    requires JsonPath(path).Some? && path !in names.attrTypes
    ensures Meaning(w, names, Test(path)) == w.compare("=", w.attribute(JsonPath(path).value), w.bind(TextArg("x")))
    ensures WhereMeaning(w, names, "", Some(Test(path))) == Meaning(w, names, Test(path))
    ensures Intended(w, names, "", Some(Test(path))) == Meaning(w, names, Test(path))
  {
    assert LiteralValue(names, StringLiteral("x")) == Some(TextArg("x"));
    assert SqlType(TYPE_UNKNOWN) == None;
  }

  /** The text of attr('a''b') = 'x' is no well-formed condition: the path's literal ends at its quote. */
  lemma QuoteIsNotRead(names: Names)
    requires QUOTE !in names.attrTypes
    ensures Where(names, "", QUOTE).Some? && ReadCondition(Where(names, "", QUOTE).value.text) == None
  {
    CollectSegment(QUOTE, "", "");
    assert QUOTE + "" == QUOTE && "" + QUOTE == QUOTE;
    assert Split(QUOTE) == [QUOTE];
    StartsDark(QUOTE);
    assert JsonPath(QUOTE) == Some([QUOTE]);
    QuoteEndsEarly();
    TestIsSound(names, QUOTE);
    UntypedTestCompiles(names, QUOTE);
    UnreadableIsNotRead(names, "", Some(Test(QUOTE)));
  }

  lemma QuoteEndsEarly()
    ensures Content(LiteralText([QUOTE])) == None
  {
    assert LiteralText([QUOTE]) == "'{a'b}'";
    assert "'{a'b}'"[1..] == "{a'b}'" && "{a'b}'"[1..] == "a'b}'" && "a'b}'"[1..] == "'b}'";
  }
}
