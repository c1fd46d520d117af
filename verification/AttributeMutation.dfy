/** Changing an object's attributes by path text, within one allowed prefix. */
module AttributeMutation {
  import opened Values
  import opened Characters
  import opened Sequences
  import opened AttributePath
  import opened AttributeTree
  import opened QueryAst
  import opened TypeCatalog
  import opened AttributeObservation
  import opened CatalogObservation

  // ----- setAttributeAtPath and deleteAttributeAtPath -----

  /** The maps met on the way down a path: `parents[i]` is the one its segment `i` is looked up in. */
  ghost predicate Descent(m: Fields, path: seq<string>, parents: seq<Fields>) {
    && 0 < |parents| <= |path| && parents[0] == m
    && forall i :: 0 < i < |parents| ==> parents[i] == Child(parents[i - 1], path[i - 1])
  }

  method SetAtPath(m: Fields, path: seq<string>, value: Value) returns (r: Fields)
    requires path != []
    ensures r == Set(m, path, value)
  {
    var parents := [m];
    for i := 0 to |path| - 1
      invariant |parents| == i + 1 && Descent(m, path, parents)
    {
      parents := parents + [Child(parents[i], path[i])];
    }
    var last := |path| - 1;
    r := parents[last][path[last] := value];
    for i := last downto 0
      invariant r == Set(parents[i], path[i..], value)
    {
      assert path[i..][1..] == path[i + 1..];
      r := parents[i][path[i] := Obj(r)];
    }
    assert path[0..] == path;
  }

  method DeleteAtPath(m: Fields, path: seq<string>) returns (r: Fields)
    requires path != []
    ensures r == Delete(m, path)
  {
    var parents := [m];
    assert path[0..] == path;
    for i := 0 to |path| - 1
      invariant |parents| == i + 1 && Descent(m, path, parents)
      invariant forall k :: 0 <= k < i ==> path[k] in parents[k] && parents[k][path[k]].Obj?
      invariant Walks(m, path) == Walks(parents[i], path[i..])
    {
      assert path[i..][1..] == path[i + 1..];
      if path[i] !in parents[i] || !parents[i][path[i]].Obj? {
        return m;
      }
      parents := parents + [parents[i][path[i]].fields];
    }
    var last := |path| - 1;
    r := parents[last] - {path[last]};
    for i := last downto 0
      invariant Walks(parents[i], path[i..]) && r == Prune(parents[i], path[i..])
    {
      assert path[i..][1..] == path[i + 1..];
      r := if r == map[] then parents[i] - {path[i]} else parents[i][path[i] := Obj(r)];
    }
  }

  // ----- Accepted paths -----

  function TrimLeft(text: string): string {
    if text != "" && IsSpace(text[0]) then TrimLeft(text[1..]) else text
  }

  function TrimRight(text: string): string {
    if text != "" && IsSpace(text[|text| - 1]) then TrimRight(text[..|text| - 1]) else text
  }

  function Trim(text: string): string {
    TrimRight(TrimLeft(text))
  }

  predicate HasDoubleDot(text: string) {
    exists i :: 0 <= i < |text| - 1 && text[i] == '.' && text[i + 1] == '.'
  }

  /** validateMutationPath: judged without surrounding blanks, although the path is used with them. */
  predicate ValidPath(prefix: string, path: string) {
    var trimmed := Trim(path);
    var required := prefix + ".";
    trimmed != "" && required <= trimmed && trimmed[|required|..] != "" && !HasDoubleDot(trimmed[|required|..])
  }

  /** A path below the allowed prefix, whose first segment may begin with blanks. */
  ghost predicate Inside(prefix: string, path: seq<string>) {
    exists blanks :: Blank(blanks) && Prefix(Split(blanks + prefix), path)
  }

  /** A path that is neither above nor below the allowed prefix, blanks or not. */
  ghost predicate Outside(prefix: string, path: seq<string>) {
    path != [] && forall blanks :: Blank(blanks) ==> Apart(Split(blanks + prefix), path)
  }

  lemma {:induction false} TrimLeftSplits(text: string)
    ensures |TrimLeft(text)| <= |text|
    ensures var n := |text| - |TrimLeft(text)|; Blank(text[..n]) && text[n..] == TrimLeft(text)
  {
    if text != "" && IsSpace(text[0]) {
      TrimLeftSplits(text[1..]);
      var n := |text| - |TrimLeft(text)|;
      assert text[..n] == [text[0]] + text[1..][..n - 1];
      assert text[n..] == text[1..][n - 1..];
    }
  }

  lemma {:induction false} TrimRightIsPrefix(text: string)
    ensures TrimRight(text) <= text
  {
    if text != "" && IsSpace(text[|text| - 1]) {
      TrimRightIsPrefix(text[..|text| - 1]);
    }
  }

  /** What comes after a dot is split on its own. */
  lemma {:induction false} SplitAtDot(head: string, tail: string, current: string)
    ensures SplitFrom(head + "." + tail, current) == SplitFrom(head, current) + SplitFrom(tail, "")
    decreases |head|
  {
    var path := head + "." + tail;
    if head == "" {
      assert path == "." + tail && path[1..] == tail;
    } else {
      assert path[1..] == head[1..] + "." + tail;
      if head[0] == '.' {
        SplitAtDot(head[1..], tail, "");
        assert Segment(current) + (SplitFrom(head[1..], "") + SplitFrom(tail, ""))
            == (Segment(current) + SplitFrom(head[1..], "")) + SplitFrom(tail, "");
      } else {
        SplitAtDot(head[1..], tail, current + [head[0]]);
      }
    }
  }

  /** An accepted path lies inside the allowed prefix. */
  lemma ValidPathStaysInside(prefix: string, path: string)
    requires ValidPath(prefix, path)
    ensures Inside(prefix, Split(path))
  {
    TrimLeftSplits(path);
    TrimRightIsPrefix(TrimLeft(path));
    var n := |path| - |TrimLeft(path)|;
    var blanks, required := path[..n], prefix + ".";
    assert required <= TrimLeft(path);
    assert path[n..][..|required|] == required;
    var head, tail := blanks + prefix, path[n + |required|..];
    assert path == head + "." + tail;
    SplitAtDot(head, tail, "");
    assert (Split(head) + Split(tail))[..|Split(head)|] == Split(head);
  }

  lemma ApartBelow(root: seq<string>, path: seq<string>, other: seq<string>)
    requires Prefix(root, path) && Apart(root, other)
    ensures Apart(path, other)
  {
  }

  lemma InsideIsApart(prefix: string, path: seq<string>, other: seq<string>)
    requires Inside(prefix, path) && Outside(prefix, other)
    ensures Apart(path, other)
  {
    var blanks :| Blank(blanks) && Prefix(Split(blanks + prefix), path);
    ApartBelow(Split(blanks + prefix), path, other);
  }

  // ----- What a mutation leaves alone -----

  function DeleteAll(m: Fields, paths: seq<string>): Fields
    requires forall i :: 0 <= i < |paths| ==> Split(paths[i]) != []
  {
    if paths == [] then m else DeleteAll(Delete(m, Split(paths[0])), paths[1..])
  }

  lemma {:induction false} SetsFrame(m: Fields, entries: seq<Entry>, other: seq<string>)
    requires other != [] && forall i :: 0 <= i < |entries| ==> entries[i].path != [] && Apart(entries[i].path, other)
    ensures Get(SetAll(m, entries), other) == Get(m, other)
    decreases |entries|
  {
    if entries != [] {
      SetFrame(m, entries[0].path, entries[0].value, other);
      SetsFrame(Set(m, entries[0].path, entries[0].value), entries[1..], other);
    }
  }

  lemma {:induction false} DeletesFrame(m: Fields, paths: seq<string>, other: seq<string>)
    requires other != [] && forall i :: 0 <= i < |paths| ==> Split(paths[i]) != [] && Apart(Split(paths[i]), other)
    ensures Get(DeleteAll(m, paths), other) == Get(m, other)
    decreases |paths|
  {
    if paths != [] {
      DeleteFrame(m, Split(paths[0]), other);
      DeletesFrame(Delete(m, Split(paths[0])), paths[1..], other);
    }
  }

  // ----- MutateObjectAttributes -----

  datatype Mutation = Mutation(prefix: string, sets: map<string, Value>, deletes: seq<string>, provenance: map<string, string>)

  const USER_PREFIX := "user"

  function PrefixOf(mutation: Mutation): string {
    if mutation.prefix == "" then USER_PREFIX else mutation.prefix
  }

  predicate Accepted(mutation: Mutation) {
    && (forall path :: path in mutation.sets ==> ValidPath(PrefixOf(mutation), path))
    && (forall i :: 0 <= i < |mutation.deletes| ==> ValidPath(PrefixOf(mutation), mutation.deletes[i]))
  }

  /** The sets in the order the map happened to be walked. */
  function Entries(sets: map<string, Value>, order: seq<string>): (entries: seq<Entry>)
    requires forall i :: 0 <= i < |order| ==> order[i] in sets
    ensures |entries| == |order| && forall i :: 0 <= i < |order| ==> entries[i] == Entry(Split(order[i]), sets[order[i]])
  {
    seq(|order|, i requires 0 <= i < |order| => Entry(Split(order[i]), sets[order[i]]))
  }

  /** The attributes after an accepted mutation whose map was walked in `order`. */
  ghost predicate Becomes(before: Fields, mutation: Mutation, order: seq<string>, after: Fields) {
    && Lists(order, mutation.sets.Keys)
    && (forall i :: 0 <= i < |order| ==> Split(order[i]) != [])
    && (forall i :: 0 <= i < |mutation.deletes| ==> Split(mutation.deletes[i]) != [])
    && after == DeleteAll(SetAll(before, Entries(mutation.sets, order)), mutation.deletes)
  }

  /** Every path outside the allowed prefix, however deep, reads as before. */
  lemma MutationStaysInside(before: Fields, mutation: Mutation, order: seq<string>, after: Fields, other: seq<string>)
    requires Accepted(mutation) && Becomes(before, mutation, order, after)
    requires Outside(PrefixOf(mutation), other)
    ensures Get(after, other) == Get(before, other)
  {
    var prefix, entries := PrefixOf(mutation), Entries(mutation.sets, order);
    forall i | 0 <= i < |entries| ensures Apart(entries[i].path, other) {
      ValidPathStaysInside(prefix, order[i]);
      InsideIsApart(prefix, entries[i].path, other);
    }
    forall i | 0 <= i < |mutation.deletes| ensures Apart(Split(mutation.deletes[i]), other) {
      ValidPathStaysInside(prefix, mutation.deletes[i]);
      InsideIsApart(prefix, Split(mutation.deletes[i]), other);
    }
    SetsFrame(before, entries, other);
    DeletesFrame(SetAll(before, entries), mutation.deletes, other);
  }

  /** Upstream and core evidence, at any depth, lie outside the user prefix. */
  lemma OtherNamespacesAreOutside(other: seq<string>)
    requires other != [] && other[0] in {"upstream", "core"}
    ensures Outside(USER_PREFIX, other)
  {
    forall blanks | Blank(blanks) ensures Apart(Split(blanks + USER_PREFIX), other) {
      var name := blanks + USER_PREFIX;
      assert '.' !in name;
      CollectSegment(name, "", "");
      assert name + "" == name && "" + name == name;
      assert name[|name| - 1] == 'r' && other[0][|other[0]| - 1] != 'r';
      assert Split(name)[0] != other[0];
    }
  }

  /** When no two set paths lie on each other, the order in which the map was walked does not show. */
  lemma WalkOrderIsImmaterial(before: Fields, mutation: Mutation, a: seq<string>, b: seq<string>, afterA: Fields, afterB: Fields)
    requires Becomes(before, mutation, a, afterA) && Becomes(before, mutation, b, afterB)
    requires AllApart(Entries(mutation.sets, a)) && AllApart(Entries(mutation.sets, b))
    ensures afterA == afterB
  {
    SameEntries(mutation.sets, a, b);
    OrderIsImmaterial(before, Entries(mutation.sets, a), Entries(mutation.sets, b));
  }

  lemma SameEntries(sets: map<string, Value>, a: seq<string>, b: seq<string>)
    requires Lists(a, sets.Keys) && Lists(b, sets.Keys) && AllApart(Entries(sets, a)) && AllApart(Entries(sets, b))
    ensures multiset(Entries(sets, a)) == multiset(Entries(sets, b))
  {
    forall e: Entry ensures multiset(Entries(sets, a))[e] == multiset(Entries(sets, b))[e] {
      OnceAtMost(Entries(sets, a), e);
      OnceAtMost(Entries(sets, b), e);
      if e in Entries(sets, a) {
        EntryMoves(sets, a, b, e);
      }
      if e in Entries(sets, b) {
        EntryMoves(sets, b, a, e);
      }
    }
  }

  lemma EntryMoves(sets: map<string, Value>, a: seq<string>, b: seq<string>, e: Entry)
    requires Lists(a, sets.Keys) && Lists(b, sets.Keys) && e in Entries(sets, a)
    ensures e in Entries(sets, b)
  {
    var i :| 0 <= i < |a| && Entries(sets, a)[i] == e;
    assert a[i] in a && a[i] in b;
    var j :| 0 <= j < |b| && b[j] == a[i];
    assert Entries(sets, b)[j] == e;
  }

  lemma {:induction false} OnceAtMost(entries: seq<Entry>, e: Entry)
    requires AllApart(entries)
    ensures multiset(entries)[e] <= 1
    decreases |entries|
  {
    if entries != [] {
      TailApart(entries);
      OnceAtMost(entries[1..], e);
      assert entries == [entries[0]] + entries[1..];
      forall i | 0 <= i < |entries[1..]| ensures entries[1..][i] != entries[0] {
        ApartDiffers(entries[0].path, entries[i + 1].path);
      }
      assert entries[0] !in entries[1..];
    }
  }

  /** The recorded origins: the mutation's own win, and deleted paths have none. */
  ghost predicate Recorded(before: map<string, string>, refs: map<string, string>, deletes: seq<string>, after: map<string, string>) {
    forall path: string :: Lookup(after, path) == Origin(before, refs, deletes, path)
  }

  ghost function Origin(before: map<string, string>, refs: map<string, string>, deletes: seq<string>, path: string): Option<string> {
    if path in deletes then None else if path in refs then Some(refs[path]) else Lookup(before, path)
  }

  method AllValid(prefix: string, paths: seq<string>) returns (ok: bool)
    ensures ok <==> forall i :: 0 <= i < |paths| ==> ValidPath(prefix, paths[i])
  {
    for i := 0 to |paths|
      invariant forall k :: 0 <= k < i ==> ValidPath(prefix, paths[k])
    {
      if !ValidPath(prefix, paths[i]) {
        return false;
      }
    }
    ok := true;
  }

  /** What the catalogue says, before the write, of a value set at a path; the path is looked up as it is written. */
  predicate Compatible(entries: map<string, CatalogEntry>, instant: string -> bool, path: string, value: Value) {
    match TypeOf(instant, value)
    case None => true
    case Some(typ) => path in entries ==> Widen(entries[path].typ, typ).Some?
  }

  /** validateMutationCatalogTypes. */
  method AllCompatible(entries: map<string, CatalogEntry>, instant: string -> bool, sets: map<string, Value>, order: seq<string>)
      returns (ok: bool)
    requires forall i :: 0 <= i < |order| ==> order[i] in sets
    ensures ok <==> forall i :: 0 <= i < |order| ==> Compatible(entries, instant, order[i], sets[order[i]])
  {
    for i := 0 to |order|
      invariant forall k :: 0 <= k < i ==> Compatible(entries, instant, order[k], sets[order[k]])
    {
      if !Compatible(entries, instant, order[i], sets[order[i]]) {
        return false;
      }
    }
    ok := true;
  }

  method RecordProvenance(before: map<string, string>, refs: map<string, string>, deletes: seq<string>) returns (after: map<string, string>)
    ensures Recorded(before, refs, deletes, after)
  {
    after := before + refs;
    assert deletes[..0] == [];
    for i := 0 to |deletes|
      invariant Recorded(before, refs, deletes[..i], after)
    {
      assert deletes[..i + 1] == deletes[..i] + [deletes[i]];
      ghost var previous := after;
      after := after - {deletes[i]};
      forall path: string ensures Lookup(after, path) == Origin(before, refs, deletes[..i + 1], path) {
        assert Lookup(previous, path) == Origin(before, refs, deletes[..i], path);
      }
    }
    assert deletes[..|deletes|] == deletes;
  }

  /** The stored object. */
  class StoredObject {
    var attributes: Fields
    var provenance: map<string, string>

    constructor (attributes: Fields, provenance: map<string, string>)
      ensures this.attributes == attributes && this.provenance == provenance
    {
      this.attributes := attributes;
      this.provenance := provenance;
    }

    /**
     MutateObjectAttributes; `order` is how the map of sets is walked, `visit` and `store` how what is written is observed.
     The object is observed after it was written, so that a type conflict found there is reported with the object changed.
     */
    method Mutate(mutation: Mutation, order: seq<string>, catalog: Catalog, instant: string -> bool, visit: Fields -> Visit,
                  store: map<string, string> -> seq<string>) returns (ok: bool)
      requires Lists(order, mutation.sets.Keys) && OrdersKeys(store)
      modifies this, catalog
      ensures !Writes(old(catalog.entries), instant, mutation, order) ==>
                !ok && attributes == old(attributes) && provenance == old(provenance) && catalog.entries == old(catalog.entries)
      ensures Writes(old(catalog.entries), instant, mutation, order) ==>
                && Becomes(old(attributes), mutation, order, attributes)
                && Recorded(old(provenance), mutation.provenance, mutation.deletes, provenance)
                && Stored(ok, catalog.entries) == ObservedInto(instant, old(catalog.entries), [attributes], [visit(attributes)], store)
      ensures Writes(old(catalog.entries), instant, mutation, order) && Visits(instant, attributes, visit(attributes)) ==>
                (!ok <==> SomeClash(old(catalog.entries), instant, attributes, visit(attributes)))
    {
      ok := AllValid(PrefixOf(mutation), order);
      if !ok {
        return;
      }
      ok := AllValid(PrefixOf(mutation), mutation.deletes);
      if !ok {
        return;
      }
      ok := AllCompatible(catalog.entries, instant, mutation.sets, order);
      if !ok {
        return;
      }
      var changed;
      ok, changed := SetEach(attributes, mutation.sets, order);
      if !ok {
        return;
      }
      ok, changed := DeleteEach(changed, mutation.deletes);
      if !ok {
        return;
      }
      attributes := changed;
      provenance := RecordProvenance(provenance, mutation.provenance, mutation.deletes);
      ok := ObserveOne(catalog, instant, attributes, visit(attributes), store);
    }
  }

  /** The mutation passes every check that comes before the write. */
  ghost predicate Writes(entries: map<string, CatalogEntry>, instant: string -> bool, mutation: Mutation, order: seq<string>)
    requires Lists(order, mutation.sets.Keys)
  {
    && Accepted(mutation) && AllSplit(order) && AllSplit(mutation.deletes)
    && forall i :: 0 <= i < |order| ==> Compatible(entries, instant, order[i], mutation.sets[order[i]])
  }

  // ----- When an error leaves the object changed -----

  /**
   After a mutation has passed the checks before the write, an error is reported exactly when some type of the new
   attributes clashes with a stored one, and then this type is none that the checks looked at: nothing was set under that
   path, or what was set there is observed with another type.
   */
  lemma ErrorAfterWriteIff(entries: map<string, CatalogEntry>, instant: string -> bool, before: Fields, mutation: Mutation,
                           order: seq<string>, after: Fields, visit: Visit, store: map<string, string> -> seq<string>)
    requires Lists(order, mutation.sets.Keys) && Writes(entries, instant, mutation, order) && Becomes(before, mutation, order, after)
    requires Visits(instant, after, visit) && OrdersKeys(store)
    ensures !ObservedInto(instant, entries, [after], [visit], store).ok <==> SomeClash(entries, instant, after, visit)
    ensures Observed(instant, [after], [visit]).Some?
    ensures forall path :: path in mutation.sets && ClashesAt(entries, instant, after, visit, path) && entries[path].source == OBSERVED ==>
              (TypeOf(instant, mutation.sets[path]) != Some(Observed(instant, [after], [visit]).value[path]))
  {
    FailsIffSomeClash(instant, entries, after, visit, store);
    ObservedIsProper(instant, after, visit);
    forall path | path in mutation.sets ensures Compatible(entries, instant, path, mutation.sets[path]) {
      assert path in order;
      var i :| 0 <= i < |order| && order[i] == path;
    }
  }

  const CLASHING := Mutation("", map["user.a" := Obj(map["b" := Text("x")])], [], map[])

  const INTEGERS := map["user.a.b" := CatalogEntry(TYPE_INTEGER, OBSERVED)]

  const CLASHED: Fields := map["user" := Obj(map["a" := Obj(map["b" := Text("x")])])]

  lemma UserASplits()
    ensures Split("user.a") == ["user", "a"] && ValidPath("user", "user.a")
  {
    SplitAtDot("user", "a", "");
    CollectSegment("user", "", "");
    CollectSegment("a", "", "");
    assert "user" + "" == "user" && "a" + "" == "a" && "" + "user" == "user" && "" + "a" == "a";
    assert "user" + "." + "a" == "user.a";
    var text, required := "user.a", "user" + ".";
    assert text[0] == 'u' && text[|text| - 1] == 'a';
    assert TrimLeft(text) == text && TrimRight(text) == text;
    assert |required| == 5 && text[..5] == required;
    assert text[5..] == "a" by {
      assert |text| == 6 && text[5] == 'a';
    }
  }

  lemma ClashingIsWritten(instant: string -> bool)
    ensures Lists(["user.a"], CLASHING.sets.Keys) && Writes(INTEGERS, instant, CLASHING, ["user.a"])
    ensures Becomes(map[], CLASHING, ["user.a"], CLASHED)
  {
    UserASplits();
    var entries := Entries(CLASHING.sets, ["user.a"]);
    assert entries == [Entry(["user", "a"], Obj(map["b" := Text("x")]))] && entries[1..] == [];
    SetInEmpty(Obj(map["b" := Text("x")]));
    assert SetAll(CLASHED, []) == CLASHED && SetAll(map[], entries) == CLASHED;
    assert DeleteAll(CLASHED, []) == CLASHED;
  }

  lemma SetInEmpty(value: Value)
    ensures Set(map[], ["user", "a"], value) == map["user" := Obj(map["a" := value])]
  {
    var path, root, none := ["user", "a"], map["a" := value], map[];
    assert path[1..] == ["a"] && path[0] == "user" && Child(none, "user") == none;
    assert Set(none, ["a"], value) == none["a" := value] == root;
    assert Set(none, path, value) == none["user" := Obj(root)];
  }

  /** The changed object has one plain value. */
  lemma OnlyLeaf(path: seq<string>)
    requires path != [] && Get(CLASHED, path).Some? && !Get(CLASHED, path).value.Obj?
    ensures path == ["user", "a", "b"] && Get(CLASHED, path) == Some(Text("x"))
  {
    var outer: Fields := map["a" := Obj(map["b" := Text("x")])];
    var inner: Fields := map["b" := Text("x")];
    assert path[0] == "user" && |path| > 1;
    var rest := path[1..];
    assert Get(CLASHED, path) == Get(outer, rest) && rest[0] == "a" && |rest| > 1;
    assert Get(outer, rest) == Get(inner, rest[1..]) && rest[1..][0] == "b" && |rest[1..]| == 1;
    assert path == [path[0]] + ([rest[0]] + rest[1..]);
  }

  lemma ClashIsObserved(instant: string -> bool, visit: Visit)
    requires Visits(instant, CLASHED, visit)
    ensures Observed(instant, [CLASHED], [visit]).Some?
    ensures Lookup(Observed(instant, [CLASHED], [visit]).value, "user.a.b") == TypeOf(instant, Text("x"))
  {
    var path, typ := ["user", "a", "b"], TypeOf(instant, Text("x")).value;
    assert path[1..] == ["a", "b"] && path[1..][1..] == ["b"];
    assert Get(map["b" := Text("x")], ["b"]) == Some(Text("x"));
    assert Get(map["a" := Obj(map["b" := Text("x")])], ["a", "b"]) == Some(Text("x"));
    assert path[..2] == ["user", "a"] && ["user", "a"][..1] == ["user"] && ["user"][..0] == [];
    assert Flat(["user"]) == "user" && Flat(["user", "a"]) == "user" + "." + "a" && Flat(path) == "user.a" + "." + "b";
    assert Flat(path) == "user.a.b" && TypedLeaf(instant, CLASHED, path, typ);
    LeafIsFound(instant, CLASHED, visit.walk, path, typ);
    var found := FoundLeaf(instant, CLASHED, visit.walk, "user.a.b");
    OnlyLeaf(found);
    ObservedAlone(instant, CLASHED, visit, "user.a.b");
  }

  /**
   A map set at user.a is of unknown type and passes the check before the write; the text inside it then clashes with the
   integers observed at user.a.b, and the error is reported for an object that has changed.
   */
  lemma ErrorLeavesObjectChanged(instant: string -> bool, visit: Visit, store: map<string, string> -> seq<string>)
    requires Visits(instant, CLASHED, visit) && OrdersKeys(store)
    ensures Lists(["user.a"], CLASHING.sets.Keys) && Writes(INTEGERS, instant, CLASHING, ["user.a"])
    ensures Becomes(map[], CLASHING, ["user.a"], CLASHED) && CLASHED != map[]
    ensures !ObservedInto(instant, INTEGERS, [CLASHED], [visit], store).ok
  {
    ClashingIsWritten(instant);
    ClashIsReported(instant, visit, store);
    assert "user" in CLASHED;
  }

  lemma ClashIsReported(instant: string -> bool, visit: Visit, store: map<string, string> -> seq<string>)
    requires Visits(instant, CLASHED, visit) && OrdersKeys(store)
    ensures !ObservedInto(instant, INTEGERS, [CLASHED], [visit], store).ok
  {
    ClashIsObserved(instant, visit);
    var observed := Observed(instant, [CLASHED], [visit]).value;
    assert Clashes(INTEGERS, "user.a.b", observed["user.a.b"]);
    ObservingFailsIff(instant, INTEGERS, CLASHED, visit, store);
  }

  /** No path is empty or made of dots only. */
  ghost predicate AllSplit(paths: seq<string>) {
    forall i :: 0 <= i < |paths| ==> Split(paths[i]) != []
  }

  lemma {:induction false} CollectingKeeps(path: string, current: string)
    requires SplitFrom(path, "") != []
    ensures SplitFrom(path, current) != []
    decreases |path|
  {
    if path != "" && path[0] != '.' && SplitFrom(path[1..], "") != [] {
      CollectingKeeps(path[1..], current + [path[0]]);
    } else if path != "" && path[0] != '.' {
      OnlyDots(path[1..], current + [path[0]]);
    }
  }

  lemma {:induction false} OnlyDots(path: string, current: string)
    requires current != ""
    ensures SplitFrom(path, current) != []
    decreases |path|
  {
    if path != "" && path[0] != '.' {
      OnlyDots(path[1..], current + [path[0]]);
    }
  }

  /** Unless the prefix is made of dots only, no accepted path is refused for being empty. */
  lemma AcceptedPathsSplit(mutation: Mutation, order: seq<string>)
    requires Accepted(mutation) && Lists(order, mutation.sets.Keys) && Split(PrefixOf(mutation)) != []
    ensures AllSplit(order) && AllSplit(mutation.deletes)
  {
    forall i | 0 <= i < |order| ensures Split(order[i]) != [] {
      AcceptedPathSplits(PrefixOf(mutation), order[i]);
    }
    forall i | 0 <= i < |mutation.deletes| ensures Split(mutation.deletes[i]) != [] {
      AcceptedPathSplits(PrefixOf(mutation), mutation.deletes[i]);
    }
  }

  lemma AcceptedPathSplits(prefix: string, path: string)
    requires ValidPath(prefix, path) && Split(prefix) != []
    ensures Split(path) != []
  {
    ValidPathStaysInside(prefix, path);
    var blanks :| Blank(blanks) && Prefix(Split(blanks + prefix), Split(path));
    assert '.' !in blanks;
    CollectSegment(blanks, prefix, "");
    CollectingKeeps(prefix, "" + blanks);
  }

  method SetEach(m: Fields, sets: map<string, Value>, order: seq<string>) returns (ok: bool, r: Fields)
    requires forall i :: 0 <= i < |order| ==> order[i] in sets
    ensures ok <==> AllSplit(order)
    ensures ok ==> r == SetAll(m, Entries(sets, order))
  {
    r := m;
    var entries := Entries(sets, order);
    for i := 0 to |order|
      invariant AllSplit(order[..i])
      invariant AllSplit(order) ==> SetAll(m, entries) == SetAll(r, entries[i..])
    {
      var parts := SplitAttributePath(order[i]);
      if parts == [] {
        return false, r;
      }
      assert entries[i..][1..] == entries[i + 1..];
      r := SetAtPath(r, parts, sets[order[i]]);
    }
    assert order[..|order|] == order;
    ok := true;
  }

  method DeleteEach(m: Fields, paths: seq<string>) returns (ok: bool, r: Fields)
    ensures ok <==> AllSplit(paths)
    ensures ok ==> r == DeleteAll(m, paths)
  {
    r := m;
    for i := 0 to |paths|
      invariant AllSplit(paths[..i])
      invariant AllSplit(paths) ==> DeleteAll(m, paths) == DeleteAll(r, paths[i..])
    {
      var parts := SplitAttributePath(paths[i]);
      if parts == [] {
        return false, r;
      }
      assert paths[i..][1..] == paths[i + 1..];
      r := DeleteAtPath(r, parts);
    }
    assert paths[..|paths|] == paths;
    ok := true;
  }
}
