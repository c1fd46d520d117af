/** Which attribute paths a mutation accepts, told on their text, and that it then writes. */
module AcceptedPaths {
  import opened Values
  import opened Characters
  import opened Sequences
  import opened AttributePath
  import opened AttributeTree
  import opened TypeCatalog
  import opened AttributeObservation
  import opened CatalogObservation
  import opened AttributeMutation

  /** No blank at either end. */
  predicate Trimmed(text: string) {
    text != "" && !IsSpace(text[0]) && !IsSpace(text[|text| - 1])
  }

  /** Apart from blanks around it the path is the prefix, a dot, and something after it without two dots in a row. */
  ghost predicate Allowed(prefix: string, path: string) {
    exists lead, rest, trail :: Around(prefix, path, lead, rest, trail)
  }

  ghost predicate Around(prefix: string, path: string, lead: string, rest: string, trail: string) {
    && path == lead + (prefix + "." + rest) + trail && Blank(lead) && Blank(trail) && Trimmed(prefix + "." + rest)
    && rest != "" && NoEmptyName(rest)
  }

  ghost predicate NoEmptyName(rest: string) {
    forall before, after :: rest != before + ".." + after
  }

  lemma NoEmptyNameIff(rest: string)
    ensures NoEmptyName(rest) <==> !HasDoubleDot(rest)
  {
    if before, after :| rest == before + ".." + after {
      assert rest[|before|] == '.' && rest[|before| + 1] == '.';
    }
    if i :| 0 <= i < |rest| - 1 && rest[i] == '.' && rest[i + 1] == '.' {
      assert rest == rest[..i] + ".." + rest[i + 2..];
    }
  }

  lemma {:induction false} TrimLeftOf(lead: string, rest: string)
    requires Blank(lead) && rest != "" && !IsSpace(rest[0])
    ensures TrimLeft(lead + rest) == rest
    decreases |lead|
  {
    if lead == "" {
      assert lead + rest == rest;
    } else {
      assert (lead + rest)[1..] == lead[1..] + rest;
      TrimLeftOf(lead[1..], rest);
    }
  }

  lemma {:induction false} TrimRightOf(rest: string, trail: string)
    requires Blank(trail) && rest != "" && !IsSpace(rest[|rest| - 1])
    ensures TrimRight(rest + trail) == rest
    decreases |trail|
  {
    if trail == "" {
      assert rest + trail == rest;
    } else {
      var n := |trail| - 1;
      assert (rest + trail)[..|rest + trail| - 1] == rest + trail[..n];
      TrimRightOf(rest, trail[..n]);
    }
  }

  lemma TrimOf(lead: string, core: string, trail: string)
    requires Blank(lead) && Blank(trail) && Trimmed(core)
    ensures Trim(lead + core + trail) == core
  {
    assert lead + core + trail == lead + (core + trail);
    TrimLeftOf(lead, core + trail);
    TrimRightOf(core, trail);
  }

  lemma {:induction false} TrimRightSplits(text: string)
    ensures TrimRight(text) <= text && Blank(text[|TrimRight(text)|..])
    ensures TrimRight(text) != "" ==> !IsSpace(TrimRight(text)[|TrimRight(text)| - 1])
    decreases |text|
  {
    if text != "" && IsSpace(text[|text| - 1]) {
      var n := |text| - 1;
      TrimRightSplits(text[..n]);
      var k := |TrimRight(text)|;
      assert text[k..] == text[..n][k..] + [text[n]];
    }
  }

  lemma {:induction false} TrimLeftStarts(text: string)
    ensures TrimLeft(text) != "" ==> !IsSpace(TrimLeft(text)[0])
  {
    if text != "" && IsSpace(text[0]) {
      TrimLeftStarts(text[1..]);
    }
  }

  lemma Reassemble(lead: string, text: string, n: nat)
    requires n <= |text|
    ensures lead + text == lead + text[..n] + text[n..]
  {
  }

  lemma TrimSplits(path: string) returns (lead: string, trail: string)
    ensures path == lead + Trim(path) + trail && Blank(lead) && Blank(trail)
    ensures Trim(path) != "" ==> Trimmed(Trim(path))
  {
    TrimLeftSplits(path);
    TrimLeftStarts(path);
    var left := TrimLeft(path);
    TrimRightSplits(left);
    var n := |path| - |left|;
    lead, trail := path[..n], left[|Trim(path)|..];
    assert path == lead + left;
    Reassemble(lead, left, |Trim(path)|);
  }

  lemma AcceptedIsAllowed(prefix: string, path: string)
    requires ValidPath(prefix, path)
    ensures Allowed(prefix, path)
  {
    var required := prefix + ".";
    var lead, trail := TrimSplits(path);
    var rest := Trim(path)[|required|..];
    assert Trim(path) == required + rest;
    NoEmptyNameIff(rest);
    assert Around(prefix, path, lead, rest, trail);
  }

  lemma AllowedIsAccepted(prefix: string, path: string, lead: string, rest: string, trail: string)
    requires Around(prefix, path, lead, rest, trail)
    ensures ValidPath(prefix, path)
  {
    var required := prefix + ".";
    TrimOf(lead, required + rest, trail);
    assert (required + rest)[|required|..] == rest && required <= required + rest;
    NoEmptyNameIff(rest);
  }

  /** A path is accepted exactly when it is allowed. */
  lemma ValidPathIff(prefix: string, path: string)
    ensures ValidPath(prefix, path) <==> Allowed(prefix, path)
  {
    if ValidPath(prefix, path) {
      AcceptedIsAllowed(prefix, path);
    }
    if lead, rest, trail :| Around(prefix, path, lead, rest, trail) {
      AllowedIsAccepted(prefix, path, lead, rest, trail);
    }
  }

  // ----- Paths of plain names -----

  lemma {:induction false} JoinShape(parts: seq<string>)
    requires parts != [] && forall i :: 0 <= i < |parts| ==> PlainSegment(parts[i])
    ensures Join(parts) != "" && !HasDoubleDot(Join(parts)) && Join(parts)[0] != '.'
    ensures var last := parts[|parts| - 1]; last != "" && Join(parts)[|Join(parts)| - 1] == last[|last| - 1]
    decreases |parts|
  {
    assert PlainSegment(parts[0]) && PlainSegment(parts[|parts| - 1]);
    if |parts| > 1 {
      JoinShape(parts[1..]);
      var first, more := parts[0], Join(parts[1..]);
      var text := first + "." + more;
      forall i | 0 <= i < |text| - 1 ensures !(text[i] == '.' && text[i + 1] == '.') {
        if i < |first| {
          assert text[i] == first[i];
        } else if i == |first| {
          assert text[i + 1] == more[0];
        } else {
          assert text[i] == more[i - |first| - 1] && text[i + 1] == more[i - |first|];
        }
      }
    }
  }

  predicate PlainNames(parts: seq<string>) {
    parts != [] && forall i :: 0 <= i < |parts| ==> PlainSegment(parts[i])
  }

  function Last(parts: seq<string>): char
    requires PlainNames(parts)
  {
    assert PlainSegment(parts[|parts| - 1]);
    parts[|parts| - 1][|parts[|parts| - 1]| - 1]
  }

  /** Every path of plain names below the prefix is accepted, if it neither begins nor ends with a blank, and blanks around it are. */
  lemma PlainPathIsAccepted(prefix: string, parts: seq<string>, lead: string, trail: string)
    requires PlainNames(parts) && prefix != "" && !IsSpace(prefix[0]) && Blank(lead) && Blank(trail)
    requires !IsSpace(Last(parts))
    ensures ValidPath(prefix, prefix + "." + Join(parts))
    ensures ValidPath(prefix, lead + (prefix + "." + Join(parts)) + trail)
  {
    JoinShape(parts);
    NoEmptyNameIff(Join(parts));
    var path := prefix + "." + Join(parts);
    assert path == "" + path + "";
    assert Around(prefix, path, "", Join(parts), "");
    assert Around(prefix, lead + path + trail, lead, Join(parts), trail);
    ValidPathIff(prefix, path);
    ValidPathIff(prefix, lead + path + trail);
  }

  /** The path a mutation of plain names is written with. */
  function PathText(prefix: string, parts: seq<string>): string {
    prefix + "." + Join(parts)
  }

  /** The names of a path below the prefix, the last one not ending in a blank. */
  ghost predicate Below(prefix: string, path: string) {
    exists parts :: PlainNames(parts) && !IsSpace(Last(parts)) && path == PathText(prefix, parts)
  }

  /** A prefix of plain names such as "user". */
  ghost predicate PlainPrefix(prefix: string) {
    prefix != "" && !IsSpace(prefix[0]) && exists names :: PlainNames(names) && prefix == Join(names)
  }

  /** A value set at a path never had a type that the catalogue could not widen. */
  ghost predicate NoClash(entries: map<string, CatalogEntry>, instant: string -> bool, path: string, value: Value) {
    path in entries ==>
      forall typ :: TypeOf(instant, value) == Some(typ) ==> Widen(entries[path].typ, typ).Some?
  }

  /** The check against the catalogue refuses exactly the clashes; a null never clashes. */
  lemma CompatibleIff(entries: map<string, CatalogEntry>, instant: string -> bool, path: string, value: Value)
    ensures Compatible(entries, instant, path, value) <==> NoClash(entries, instant, path, value)
    ensures value.Null? ==> Compatible(entries, instant, path, value)
  {
  }

  lemma BelowIsAccepted(prefix: string, path: string)
    requires PlainPrefix(prefix) && Below(prefix, path)
    ensures ValidPath(prefix, path) && Split(path) != []
  {
    var parts :| PlainNames(parts) && !IsSpace(Last(parts)) && path == PathText(prefix, parts);
    var names :| PlainNames(names) && prefix == Join(names);
    PlainPathIsAccepted(prefix, parts, "", "");
    SplitAtDot(prefix, Join(parts), "");
    SplitJoin(names);
  }

  /** The user's own attributes, unless the mutation names another prefix. */
  function AllowedPrefix(mutation: Mutation): string {
    if mutation.prefix == "" then "user" else mutation.prefix
  }

  lemma UserIsPlain()
    ensures PlainPrefix("user")
  {
    assert PlainSegment("user") && Join(["user"]) == "user" && "user"[0] == 'u';
    assert PlainNames(["user"]);
  }

  /** A mutation of plain paths below a plain prefix, none of whose values clashes with a stored type, is written. */
  lemma PlainMutationWrites(entries: map<string, CatalogEntry>, instant: string -> bool, mutation: Mutation, order: seq<string>)
    requires Lists(order, mutation.sets.Keys) && (mutation.prefix == "" || PlainPrefix(mutation.prefix))
    requires forall path :: path in mutation.sets ==> Below(AllowedPrefix(mutation), path) && NoClash(entries, instant, path, mutation.sets[path])
    requires forall path :: path in mutation.deletes ==> Below(AllowedPrefix(mutation), path)
    ensures Writes(entries, instant, mutation, order)
  {
    var prefix := AllowedPrefix(mutation);
    UserIsPlain();
    forall path | path in mutation.sets || path in mutation.deletes ensures ValidPath(prefix, path) && Split(path) != [] {
      BelowIsAccepted(prefix, path);
    }
    forall i | 0 <= i < |order| ensures Compatible(entries, instant, order[i], mutation.sets[order[i]]) && Split(order[i]) != [] {
      assert order[i] in order && order[i] in mutation.sets;
      CompatibleIff(entries, instant, order[i], mutation.sets[order[i]]);
    }
  }
}
