/**
 The text of an attribute path in SQL, as the compiler writes it and as PostgreSQL reads it: a string constant by
 section 4.1.2.1 of the PostgreSQL manual, whose content is an array of text by section 8.15.6. Nothing is escaped when
 the text is written, so that not every path is read back.
 */
module PathLiterals {
  import opened Values
  import opened Characters

  // ----- Writing -----

  function Commas(parts: seq<string>): string {
    if parts == [] then "" else if |parts| == 1 then parts[0] else parts[0] + "," + Commas(parts[1..])
  }

  /** jsonbTextPathLiteral, once the path is split. */
  function LiteralText(parts: seq<string>): string {
    "'{" + Commas(parts) + "}'"
  }

  // ----- Reading a string constant -----

  const ZERO := 0 as char

  /** What follows an opening quote, up to the closing one; a doubled quote stands for one. */
  function Quoted(s: string): Option<string> {
    if s == "" || s[0] == ZERO then None
    else if s[0] != '\'' then Cons(s[0], Quoted(s[1..]))
    else if |s| == 1 then Some("")
    else if s[1] == '\'' then Cons('\'', Quoted(s[2..]))
    else None
  }

  function Cons(c: char, text: Option<string>): Option<string> {
    match text case None => None case Some(t) => Some([c] + t)
  }

  /** The content of a text that is one string constant; None when the constant ends early, or not at all. */
  function Content(text: string): Option<string> {
    if text != "" && text[0] == '\'' then Quoted(text[1..]) else None
  }

  // ----- Reading an array -----

  /** Elements are names or NULL; `dims` are the dimensions of each item when items are arrays themselves. */
  datatype Items = Malformed | Items(elements: seq<Option<string>>, count: nat, dims: seq<nat>, rest: string)

  datatype Item = NoItem | Item(elements: seq<Option<string>>, dims: seq<nat>, rest: string)

  datatype Scan = Broken | Scan(text: string, escaped: bool, rest: string)

  predicate ArraySpace(c: char) {
    c == ' ' || '\t' <= c <= '\r'
  }

  function SkipBlanks(s: string): (rest: string)
    ensures |rest| <= |s|
  {
    if s != "" && ArraySpace(s[0]) then SkipBlanks(s[1..]) else s
  }

  /** An unquoted element up to a comma or a closing brace; blanks at its end do not belong to it. */
  function Unquoted(s: string): (r: Scan)
    ensures r.Scan? ==> |r.rest| <= |s| && (r.text != "" ==> |r.rest| < |s|)
  {
    if s == "" || s[0] in {'{', '"'} then Broken
    else if s[0] in {',', '}'} then Scan("", false, s)
    else if s[0] == '\\' then
      if |s| == 1 then Broken else Prepend([s[1]], true, Unquoted(s[2..]))
    else Prepend(if ArraySpace(s[0]) && EmptyScan(Unquoted(s[1..])) then "" else [s[0]], false, Unquoted(s[1..]))
  }

  predicate EmptyScan(r: Scan) {
    r.Scan? && r.text == ""
  }

  function Prepend(head: string, escaped: bool, r: Scan): Scan {
    match r case Broken => Broken case Scan(text, more, rest) => Scan(head + text, escaped || more, rest)
  }

  /** A quoted element after its opening quote. */
  function InQuotes(s: string): (r: Scan)
    ensures r.Scan? ==> |r.rest| < |s|
  {
    if s == "" then Broken
    else if s[0] == '"' then Scan("", true, s[1..])
    else if s[0] == '\\' then
      if |s| == 1 then Broken else Prepend([s[1]], true, InQuotes(s[2..]))
    else Prepend([s[0]], true, InQuotes(s[1..]))
  }

  predicate NullWord(text: string) {
    |text| == 4 && LowerChar(text[0]) == 'n' && LowerChar(text[1]) == 'u' && LowerChar(text[2]) == 'l' && LowerChar(text[3]) == 'l'
  }

  function ReadItem(s: string): (r: Item)
    ensures r.Item? ==> |r.rest| < |s|
    decreases |s|, 0
  {
    if s != "" && s[0] == '{' then
      match ReadItems(s[1..])
      case Malformed => NoItem
      case Items(elements, count, dims, rest) => Item(elements, [count] + dims, rest)
    else if s != "" && s[0] == '"' then
      match InQuotes(s[1..]) case Broken => NoItem case Scan(text, _, rest) => Item([Some(text)], [], rest)
    else
      match Unquoted(s)
      case Broken => NoItem
      case Scan(text, escaped, rest) =>
        if text == "" then NoItem else Item([if NullWord(text) && !escaped then None else Some(text)], [], rest)
  }

  /** The items after an opening brace, up to its closing brace; all of them have the same dimensions. */
  function ReadItems(s: string): (r: Items)
    ensures r.Items? ==> |r.rest| < |s|
    decreases |s|, 2
  {
    var start := SkipBlanks(s);
    if start != "" && start[0] == '}' then Items([], 0, [], start[1..]) else ReadSomeItems(s)
  }

  function ReadSomeItems(s: string): (r: Items)
    ensures r.Items? ==> |r.rest| < |s|
    decreases |s|, 1
  {
    match ReadItem(SkipBlanks(s))
    case NoItem => Malformed
    case Item(first, dims, afterItem) =>
      var rest := SkipBlanks(afterItem);
      if rest == "" then Malformed
      else if rest[0] == '}' then Items(first, 1, dims, rest[1..])
      else if rest[0] != ',' then Malformed
      else
        match ReadSomeItems(rest[1..])
        case Malformed => Malformed
        case Items(more, count, others, after) => if others == dims then Items(first + more, count + 1, dims, after) else Malformed
  }

  const MAX_DIMENSIONS := 6

  function ReadArray(content: string): Option<seq<Option<string>>> {
    if content == "" || content[0] != '{' then None
    else
      match ReadItems(content[1..])
      case Malformed => None
      case Items(elements, _, dims, rest) => if SkipBlanks(rest) == "" && |dims| < MAX_DIMENSIONS then Some(elements) else None
  }

  /** The elements of the path a literal stands for; None when it is no string constant, or no array. */
  function ReadLiteral(text: string): Option<seq<Option<string>>> {
    match Content(text) case None => None case Some(content) => ReadArray(content)
  }

  // ----- Which paths are read back -----

  predicate PlainChar(c: char) {
    c !in {'\'', ',', '{', '}', '"', '\\', ZERO}
  }

  /** A name that no rule gives another meaning: nothing special in it, no blank at its ends, not the word NULL. */
  predicate PlainName(name: string) {
    && name != "" && !ArraySpace(name[0]) && !ArraySpace(name[|name| - 1]) && !NullWord(name)
    && forall c :: c in name ==> PlainChar(c)
  }

  function AllSome(parts: seq<string>): (elements: seq<Option<string>>)
    ensures |elements| == |parts| && forall i :: 0 <= i < |parts| ==> elements[i] == Some(parts[i])
  {
    seq(|parts|, i requires 0 <= i < |parts| => Some(parts[i]))
  }

  predicate PlainPath(parts: seq<string>) {
    forall i :: 0 <= i < |parts| ==> PlainName(parts[i])
  }

  // Plain names are read back.

  lemma {:induction false} PlainIsQuoted(s: string)
    requires forall c :: c in s ==> c != '\'' && c != ZERO
    ensures Quoted(s + "'") == Some(s)
    decreases |s|
  {
    if s != "" {
      assert (s + "'")[1..] == s[1..] + "'" && (s + "'")[0] == s[0] && s[0] in s;
      forall c | c in s[1..] ensures c in s {
      }
      PlainIsQuoted(s[1..]);
      assert [s[0]] + s[1..] == s;
    } else {
      assert s + "'" == "'";
    }
  }

  /** Characters with a plain last one, up to the end of the element. */
  lemma {:induction false} PlainIsScanned(name: string, tail: string)
    requires name != "" && !ArraySpace(name[|name| - 1]) && forall c :: c in name ==> PlainChar(c)
    requires tail != "" && tail[0] in {',', '}'}
    ensures Unquoted(name + tail) == Scan(name, false, tail)
    decreases |name|
  {
    assert (name + tail)[1..] == name[1..] + tail && (name + tail)[0] == name[0];
    assert name == [name[0]] + name[1..];
    assert name[0] in name;
    if |name| > 1 {
      PlainIsScanned(name[1..], tail);
    } else {
      assert name[1..] + tail == tail;
      assert [name[0]] + "" == name;
    }
  }

  lemma PlainIsRead(name: string, tail: string)
    requires PlainName(name) && tail != "" && tail[0] in {',', '}'}
    ensures SkipBlanks(name + tail) == name + tail && ReadItem(name + tail) == Item([Some(name)], [], tail)
  {
    PlainIsScanned(name, tail);
    assert (name + tail)[0] == name[0] && name[0] in name;
  }

  lemma LastIsRead(name: string)
    requires PlainName(name)
    ensures ReadSomeItems(name + "}") == Items([Some(name)], 1, [], "")
  {
    PlainIsRead(name, "}");
    assert "}"[1..] == "";
  }

  lemma FirstIsRead(name: string, more: string)
    requires PlainName(name) && ReadSomeItems(more).Items? && ReadSomeItems(more).dims == []
    ensures var r := ReadSomeItems(more);
      ReadSomeItems(name + ("," + more)) == Items([Some(name)] + r.elements, r.count + 1, [], r.rest)
  {
    PlainIsRead(name, "," + more);
    assert ("," + more)[1..] == more;
  }

  lemma {:induction false} PlainPathIsRead(parts: seq<string>)
    requires parts != [] && PlainPath(parts)
    ensures ReadSomeItems(Commas(parts) + "}") == Items(AllSome(parts), |parts|, [], "")
    decreases |parts|
  {
    var name := parts[0];
    if |parts| == 1 {
      LastIsRead(name);
      assert AllSome(parts) == [Some(name)];
    } else {
      var more := Commas(parts[1..]) + "}";
      PlainPathIsRead(parts[1..]);
      FirstIsRead(name, more);
      CommasSplit(parts);
    }
  }

  lemma CommasSplit(parts: seq<string>)
    requires |parts| > 1
    ensures Commas(parts) + "}" == parts[0] + ("," + (Commas(parts[1..]) + "}"))
    ensures AllSome(parts) == [Some(parts[0])] + AllSome(parts[1..])
  {
    CommaRegroups(parts[0], Commas(parts[1..]));
    AllSomeSplit(parts);
  }

  lemma CommaRegroups(first: string, more: string)
    ensures first + "," + more + "}" == first + ("," + (more + "}"))
  {
    assert first + "," + more == first + ("," + more);
    assert first + ("," + more) + "}" == first + (("," + more) + "}");
    assert ("," + more) + "}" == "," + (more + "}");
  }

  lemma AllSomeSplit(parts: seq<string>)
    requires parts != []
    ensures AllSome(parts) == [Some(parts[0])] + AllSome(parts[1..])
  {
  }

  lemma {:induction false} CommasAreUnquoted(parts: seq<string>)
    requires PlainPath(parts)
    ensures forall c :: c in Commas(parts) ==> c != '\'' && c != ZERO
    decreases |parts|
  {
    if parts != [] {
      CommasAreUnquoted(parts[1..]);
      assert forall c :: c in parts[0] ==> PlainChar(c);
    }
  }

  lemma BodyIsContent(parts: seq<string>)
    requires PlainPath(parts)
    ensures Content(LiteralText(parts)) == Some("{" + Commas(parts) + "}")
  {
    var body := "{" + Commas(parts) + "}";
    CommasAreUnquoted(parts);
    PlainIsQuoted(body);
    LiteralIsQuotedBody(parts);
  }

  lemma LiteralIsQuotedBody(parts: seq<string>)
    ensures LiteralText(parts) != "" && LiteralText(parts)[0] == '\'' && LiteralText(parts)[1..] == "{" + Commas(parts) + "}" + "'"
  {
  }

  lemma BodyIsRead(parts: seq<string>)
    requires parts != [] && PlainPath(parts)
    ensures ReadArray("{" + Commas(parts) + "}") == Some(AllSome(parts))
  {
    var body, inner := "{" + Commas(parts) + "}", Commas(parts) + "}";
    assert body[1..] == inner;
    PlainPathIsRead(parts);
    StartsPlainly(parts);
  }

  lemma StartsPlainly(parts: seq<string>)
    requires parts != [] && PlainPath(parts)
    ensures var inner := Commas(parts) + "}"; SkipBlanks(inner) == inner && inner[0] != '}'
  {
    assert PlainName(parts[0]) && parts[0][0] in parts[0];
  }

  lemma PlainPathsAreReadBack(parts: seq<string>)
    requires parts != [] && PlainPath(parts)
    ensures ReadLiteral(LiteralText(parts)) == Some(AllSome(parts))
  {
    BodyIsContent(parts);
    BodyIsRead(parts);
  }

  // Whatever else the text holds is lost on the way, so that the elements are shorter than what was written.

  function Size(element: Option<string>): nat {
    match element case None => 5 case Some(text) => |text| + 1
  }

  /** The characters that writing the elements plainly takes, each with what follows it. */
  function Weight(elements: seq<Option<string>>): nat {
    if elements == [] then 0 else Size(elements[0]) + Weight(elements[1..])
  }

  /** Plain as far as arrays are concerned. */
  predicate Unmarked(name: string) {
    && name != "" && !ArraySpace(name[0]) && !ArraySpace(name[|name| - 1]) && !NullWord(name)
    && forall c :: c in name ==> c !in {',', '{', '}', '"', '\\'}
  }

  ghost predicate AllUnmarked(elements: seq<Option<string>>) {
    forall i :: 0 <= i < |elements| && elements[i].Some? ==> Unmarked(elements[i].value)
  }

  lemma {:induction false} WeightAppend(a: seq<Option<string>>, b: seq<Option<string>>)
    ensures Weight(a + b) == Weight(a) + Weight(b)
    decreases |a|
  {
    if a == [] {
      assert a + b == b;
    } else {
      assert (a + b)[1..] == a[1..] + b;
      WeightAppend(a[1..], b);
    }
  }

  lemma {:induction false} QuotedShrinks(s: string)
    requires Quoted(s).Some?
    ensures |Quoted(s).value| + 1 <= |s|
    ensures |Quoted(s).value| + 1 == |s| ==> s == Quoted(s).value + "'" && forall c :: c in Quoted(s).value ==> c != '\'' && c != ZERO
    decreases |s|
  {
    if s[0] != '\'' {
      QuotedShrinks(s[1..]);
    } else if |s| > 1 {
      QuotedShrinks(s[2..]);
    }
  }

  /** Nothing in an unquoted element that has not shrunk was special, and it does not end with a blank. */
  lemma {:induction false} UnquotedShrinks(s: string)
    requires Unquoted(s).Scan?
    ensures var r := Unquoted(s);
      && |r.text| + |r.rest| <= |s|
      && (|r.text| + |r.rest| == |s| ==> forall c :: c in r.text ==> c !in {',', '{', '}', '"', '\\'})
      && (r.text != "" && |r.text| + |r.rest| == |s| ==> r.text[0] == s[0] && !ArraySpace(r.text[|r.text| - 1]) && !r.escaped)
    decreases |s|
  {
    if s[0] in {',', '}'} {
    } else if s[0] == '\\' {
      UnquotedShrinks(s[2..]);
    } else {
      UnquotedShrinks(s[1..]);
    }
  }

  lemma {:induction false} InQuotesShrinks(s: string)
    requires InQuotes(s).Scan?
    ensures |InQuotes(s).text| + 1 + |InQuotes(s).rest| <= |s|
    decreases |s|
  {
    if s[0] == '"' {
    } else if s[0] == '\\' {
      InQuotesShrinks(s[2..]);
    } else {
      InQuotesShrinks(s[1..]);
    }
  }

  lemma {:induction false} SkipShrinks(s: string)
    ensures var rest := SkipBlanks(s);
      && |rest| <= |s| && (|rest| == |s| ==> rest == s) && (rest != "" ==> !ArraySpace(rest[0]))
    decreases |s|
  {
    if s != "" && ArraySpace(s[0]) {
      SkipShrinks(s[1..]);
    }
  }

  /** An item takes at least what its elements weigh, counting the character after it, and if it takes no more they are unmarked. */
  lemma {:induction false} ItemShrinks(s: string)
    requires ReadItem(s).Item? && (s != "" ==> !ArraySpace(s[0]))
    ensures var r := ReadItem(s);
      Weight(r.elements) + |r.rest| <= |s| + 1 && (Weight(r.elements) + |r.rest| == |s| + 1 ==> AllUnmarked(r.elements))
    decreases |s|, 0
  {
    if s[0] == '{' {
      ItemsShrink(s[1..]);
    } else if s[0] == '"' {
      InQuotesShrinks(s[1..]);
      WeightOfOne(ReadItem(s).elements);
    } else {
      UnquotedShrinks(s);
      WeightOfOne(ReadItem(s).elements);
    }
  }

  lemma WeightOfOne(elements: seq<Option<string>>)
    requires |elements| == 1
    ensures Weight(elements) == Size(elements[0])
  {
    assert elements[1..] == [];
  }

  lemma {:induction false} ItemsShrink(s: string)
    requires ReadItems(s).Items?
    ensures var r := ReadItems(s);
      Weight(r.elements) + |r.rest| <= |s| && (Weight(r.elements) + |r.rest| == |s| ==> AllUnmarked(r.elements))
    decreases |s|, 2
  {
    var start := SkipBlanks(s);
    if start != "" && start[0] == '}' {
    } else {
      SomeItemsShrink(s);
    }
  }

  lemma {:induction false} SomeItemsShrink(s: string)
    requires ReadSomeItems(s).Items?
    ensures var r := ReadSomeItems(s);
      Weight(r.elements) + |r.rest| <= |s| && (Weight(r.elements) + |r.rest| == |s| ==> AllUnmarked(r.elements))
    decreases |s|, 1
  {
    SkipShrinks(s);
    var item := ReadItem(SkipBlanks(s));
    ItemShrinks(SkipBlanks(s));
    SkipShrinks(item.rest);
    var rest := SkipBlanks(item.rest);
    if rest[0] == ',' {
      SomeItemsShrink(rest[1..]);
      WeightAppend(item.elements, ReadSomeItems(rest[1..]).elements);
    }
  }

  lemma {:induction false} WeightOfPath(parts: seq<string>)
    requires parts != []
    ensures Weight(AllSome(parts)) == |Commas(parts)| + 1
    decreases |parts|
  {
    if |parts| > 1 {
      WeightOfPath(parts[1..]);
      assert AllSome(parts)[1..] == AllSome(parts[1..]);
    } else {
      WeightOfOne(AllSome(parts));
    }
  }

  lemma {:induction false} PartsAreWithin(parts: seq<string>, i: nat, c: char)
    requires i < |parts| && c in parts[i]
    ensures c in Commas(parts)
    decreases i
  {
    if i > 0 {
      PartsAreWithin(parts[1..], i - 1, c);
    }
  }

  /** The literal of a path is read back as that path exactly when all its names are plain. */
  lemma ReadsBackIff(parts: seq<string>)
    requires parts != []
    ensures ReadLiteral(LiteralText(parts)) == Some(AllSome(parts)) <==> PlainPath(parts)
  {
    if PlainPath(parts) {
      PlainPathsAreReadBack(parts);
    }
    if ReadLiteral(LiteralText(parts)) == Some(AllSome(parts)) {
      var body := "{" + Commas(parts) + "}";
      LiteralIsQuotedBody(parts);
      QuotedShrinks(body + "'");
      var content := Content(LiteralText(parts)).value;
      ItemsShrink(content[1..]);
      WeightOfPath(parts);
      assert content + "'" == body + "'";
      assert content == (content + "'")[..|content|] && body == (body + "'")[..|body|];
      forall i | 0 <= i < |parts| ensures PlainName(parts[i]) {
        assert AllSome(parts)[i] == Some(parts[i]);
        forall c | c in parts[i] ensures PlainChar(c) {
          PartsAreWithin(parts, i, c);
          assert c in content;
        }
      }
    }
  }
}
