/**
 Observing attribute types. An object's attributes are flattened into one type per dotted path while Go walks its maps
 in an arbitrary order; the types of a batch are merged, path by path and for every prefix of a path. What of this depends
 on an order, and what does not.
 */
module AttributeObservation {
  import opened Values
  import opened Sequences
  import opened QueryAst
  import opened AttributePath
  import opened AttributeTree
  import opened TypeCatalog

  // ----- Flattening -----

  /** joinAttributePath along nested names. */
  function Flat(path: seq<string>): string {
    if path == [] then "" else JoinName(Flat(path[..|path| - 1]), path[|path| - 1])
  }

  function JoinName(front: string, last: string): string {
    if front == "" then last else if last == "" then front else front + "." + last
  }

  /** inferCatalogValueType; `instant` tells the texts that are RFC 3339 times. */
  function TypeOf(instant: string -> bool, v: Value): Option<string> {
    match v
    case Null => None
    case Bool(_) => Some(TYPE_BOOLEAN)
    case Int(_) => Some(TYPE_INTEGER)
    case Float(x) => Some(if x == x.Floor as real then TYPE_INTEGER else TYPE_FLOAT)
    case Text(text) => Some(if instant(text) then TYPE_TIMESTAMP else TYPE_STRING)
    case List(_) => Some(TYPE_UNKNOWN)
    case Obj(_) => Some(TYPE_UNKNOWN)
  }

  /** In which order the names of each map are visited, the map being told by the path to it. */
  type Walk = seq<string> -> seq<string>

  function FieldsAt(m: Fields, at: seq<string>): Option<Fields> {
    if at == [] then Some(m)
    else match Get(m, at) case Some(Obj(fields)) => Some(fields) case _ => None
  }

  /** Every map is visited name by name, each name once. */
  ghost predicate Covers(m: Fields, walk: Walk) {
    forall at :: FieldsAt(m, at).Some? ==> Lists(walk(at), FieldsAt(m, at).value.Keys)
  }

  /** What flattenAttributeValue writes, in the order in which it writes it. */
  function Leaves(instant: string -> bool, walk: Walk, at: seq<string>, v: Value): seq<Observation>
    decreases v, 1, 0
  {
    if v.Obj? then LeavesOf(instant, walk, at, v, walk(at))
    else if Flat(at) == "" then []
    else match TypeOf(instant, v) case None => [] case Some(typ) => [Observation(Flat(at), typ)]
  }

  function LeavesOf(instant: string -> bool, walk: Walk, at: seq<string>, v: Value, names: seq<string>): seq<Observation>
    requires v.Obj?
    decreases v, 0, |names|
  {
    if names == [] then []
    else
      var n := |names| - 1;
      LeavesOf(instant, walk, at, v, names[..n]) + LeavesUnder(instant, walk, at, v, names[n])
  }

  function LeavesUnder(instant: string -> bool, walk: Walk, at: seq<string>, v: Value, name: string): seq<Observation>
    requires v.Obj?
    decreases v, 0, 0
  {
    if name in v.fields then Leaves(instant, walk, at + [name], v.fields[name]) else []
  }

  /** Later writes win. */
  function Overwritten(paths: map<string, string>, all: seq<Observation>): map<string, string> {
    if all == [] then paths
    else
      var n := |all| - 1;
      Overwritten(paths, all[..n])[all[n].path := all[n].typ]
  }

  /** flattenObjectAttributes. */
  function Walked(instant: string -> bool, walk: Walk, m: Fields): map<string, string> {
    Overwritten(map[], Leaves(instant, walk, [], Obj(m)))
  }

  lemma {:induction false} OverwrittenAppend(paths: map<string, string>, a: seq<Observation>, b: seq<Observation>)
    ensures Overwritten(paths, a + b) == Overwritten(Overwritten(paths, a), b)
    decreases |b|
  {
    if b == [] {
      assert a + b == a;
    } else {
      var n := |b| - 1;
      assert (a + b)[..|a + b| - 1] == a + b[..n];
      OverwrittenAppend(paths, a, b[..n]);
    }
  }

  /** What is found under a path is what some write put there. */
  lemma {:induction false} WrittenPaths(all: seq<Observation>, path: string)
    ensures path in Overwritten(map[], all) <==> exists i :: 0 <= i < |all| && all[i].path == path
    ensures path in Overwritten(map[], all) ==> Observation(path, Overwritten(map[], all)[path]) in all
    decreases |all|
  {
    if all != [] {
      var n := |all| - 1;
      WrittenPaths(all[..n], path);
      assert all == all[..n] + [all[n]];
      if path in Overwritten(map[], all[..n]) {
        var i :| 0 <= i < n && all[..n][i].path == path;
        assert all[i].path == path;
      }
    }
  }

  // ----- Leaves of a tree -----

  /** A value that is not a map and whose type is recorded. */
  ghost predicate TypedLeaf(instant: string -> bool, m: Fields, path: seq<string>, typ: string) {
    && path != [] && Flat(path) != ""
    && Get(m, path).Some? && !Get(m, path).value.Obj? && TypeOf(instant, Get(m, path).value) == Some(typ)
  }

  /** No two values recorded under one path have different types. */
  ghost predicate Unambiguous(instant: string -> bool, m: Fields) {
    forall p, q, s, t :: TypedLeaf(instant, m, p, s) && TypedLeaf(instant, m, q, t) && Flat(p) == Flat(q) ==> s == t
  }

  ghost predicate Located(m: Fields, at: seq<string>, v: Value) {
    if at == [] then v == Obj(m) else Get(m, at) == Some(v)
  }

  lemma {:induction false} GetSnoc(m: Fields, at: seq<string>, name: string)
    requires FieldsAt(m, at).Some?
    ensures Get(m, at + [name]) == Lookup(FieldsAt(m, at).value, name)
    decreases |at|
  {
    if at != [] {
      assert (at + [name])[1..] == at[1..] + [name];
      GetSnoc(m[at[0]].fields, at[1..], name);
    }
  }

  /** Every map on the way to a value is there and has the next name. */
  lemma {:induction false} OnTheWay(m: Fields, path: seq<string>, n: nat)
    requires n < |path| && Get(m, path).Some?
    ensures FieldsAt(m, path[..n]).Some? && path[n] in FieldsAt(m, path[..n]).value
    decreases |path|
  {
    if n > 0 {
      OnTheWay(m[path[0]].fields, path[1..], n - 1);
      assert path[..n][1..] == path[1..][..n - 1];
    }
  }

  lemma {:induction false} LeavesOfMember(instant: string -> bool, walk: Walk, at: seq<string>, v: Value, names: seq<string>, o: Observation)
    requires v.Obj?
    ensures o in LeavesOf(instant, walk, at, v, names) <==>
              exists name :: name in names && o in LeavesUnder(instant, walk, at, v, name)
    decreases |names|
  {
    if names != [] {
      var n := |names| - 1;
      LeavesOfMember(instant, walk, at, v, names[..n], o);
      forall name | name in names && o in LeavesUnder(instant, walk, at, v, name) ensures o in LeavesOf(instant, walk, at, v, names) {
        assert name == names[n] || name in names[..n];
      }
      if o in LeavesOf(instant, walk, at, v, names[..n]) {
        var name :| name in names[..n] && o in LeavesUnder(instant, walk, at, v, name);
        assert name in names;
      } else if o in LeavesUnder(instant, walk, at, v, names[n]) {
        assert names[n] in names;
      }
    }
  }

  /** Everything written is the type of a value of the tree, under its path. */
  lemma {:induction false} WritesAreLeaves(instant: string -> bool, walk: Walk, m: Fields, at: seq<string>, v: Value, o: Observation)
      returns (path: seq<string>)
    requires Located(m, at, v) && o in Leaves(instant, walk, at, v)
    ensures TypedLeaf(instant, m, path, o.typ) && Flat(path) == o.path
    decreases v
  {
    if v.Obj? {
      LeavesOfMember(instant, walk, at, v, walk(at), o);
      var name :| name in walk(at) && o in LeavesUnder(instant, walk, at, v, name);
      assert FieldsAt(m, at) == Some(v.fields);
      GetSnoc(m, at, name);
      path := WritesAreLeaves(instant, walk, m, at + [name], v.fields[name], o);
    } else {
      path := at;
    }
  }

  /** The type of every value of the tree is written under its path. */
  lemma {:induction false} LeavesAreWritten(instant: string -> bool, walk: Walk, m: Fields, path: seq<string>, typ: string, n: nat, v: Value)
    requires Covers(m, walk) && TypedLeaf(instant, m, path, typ) && n <= |path| && Located(m, path[..n], v)
    ensures Observation(Flat(path), typ) in Leaves(instant, walk, path[..n], v)
    decreases |path| - n
  {
    if n == |path| {
      assert path[..n] == path;
    } else {
      var at, name := path[..n], path[n];
      OnTheWay(m, path, n);
      assert FieldsAt(m, at) == Some(v.fields);
      GetSnoc(m, at, name);
      assert path[..n + 1] == at + [name];
      LeavesAreWritten(instant, walk, m, path, typ, n + 1, v.fields[name]);
      assert Lists(walk(at), v.fields.Keys);
      LeavesOfMember(instant, walk, at, v, walk(at), Observation(Flat(path), typ));
      assert name in walk(at) && Observation(Flat(path), typ) in LeavesUnder(instant, walk, at, v, name);
    }
  }

  // ----- Order of walking -----

  /** In an unambiguous tree it does not matter how the maps are walked. */
  lemma WalksAgree(instant: string -> bool, m: Fields, a: Walk, b: Walk)
    requires Unambiguous(instant, m) && Covers(m, a) && Covers(m, b)
    ensures Walked(instant, a, m) == Walked(instant, b, m)
  {
    forall path ensures Lookup(Walked(instant, a, m), path) == Lookup(Walked(instant, b, m), path) {
      if path in Walked(instant, a, m) {
        SameUnder(instant, m, a, b, path);
      } else if path in Walked(instant, b, m) {
        SameUnder(instant, m, b, a, path);
      }
    }
    assert forall path :: path in Walked(instant, a, m) ==> Lookup(Walked(instant, a, m), path).Some?;
    assert forall path :: path in Walked(instant, b, m) ==> Lookup(Walked(instant, b, m), path).Some?;
  }

  lemma SameUnder(instant: string -> bool, m: Fields, a: Walk, b: Walk, path: string)
    requires Unambiguous(instant, m) && Covers(m, a) && Covers(m, b) && path in Walked(instant, a, m)
    ensures path in Walked(instant, b, m) && Walked(instant, b, m)[path] == Walked(instant, a, m)[path]
  {
    var ta := Walked(instant, a, m)[path];
    var p := FoundLeaf(instant, m, a, path);
    LeafIsFound(instant, m, b, p, ta);
    var q := FoundLeaf(instant, m, b, path);
  }

  lemma FoundLeaf(instant: string -> bool, m: Fields, walk: Walk, path: string) returns (p: seq<string>)
    requires path in Walked(instant, walk, m)
    ensures TypedLeaf(instant, m, p, Walked(instant, walk, m)[path]) && Flat(p) == path
  {
    var all := Leaves(instant, walk, [], Obj(m));
    WrittenPaths(all, path);
    p := WritesAreLeaves(instant, walk, m, [], Obj(m), Observation(path, Overwritten(map[], all)[path]));
  }

  lemma LeafIsFound(instant: string -> bool, m: Fields, walk: Walk, p: seq<string>, typ: string)
    requires Covers(m, walk) && TypedLeaf(instant, m, p, typ)
    ensures Flat(p) in Walked(instant, walk, m)
  {
    var all := Leaves(instant, walk, [], Obj(m));
    assert p[..0] == [];
    LeavesAreWritten(instant, walk, m, p, typ, 0, Obj(m));
    WrittenPaths(all, Flat(p));
  }

  /** The walk that visits, in every map on the way to a value, the name on the way last. */
  ghost function LastVisit(m: Fields, path: seq<string>): Walk {
    (at: seq<string>) =>
      match FieldsAt(m, at)
      case None => []
      case Some(fields) =>
        if |at| < |path| && at == path[..|at|] && path[|at|] in fields
        then SomeList(fields.Keys - {path[|at|]}) + [path[|at|]]
        else SomeList(fields.Keys)
  }

  lemma LastVisitCovers(m: Fields, path: seq<string>)
    ensures Covers(m, LastVisit(m, path))
  {
    forall at | FieldsAt(m, at).Some? ensures Lists(LastVisit(m, path)(at), FieldsAt(m, at).value.Keys) {
      var names := FieldsAt(m, at).value.Keys;
      if |at| < |path| && at == path[..|at|] && path[|at|] in names {
        ListWithLast(names, path[|at|]);
      } else {
        SomeListLists(names);
      }
    }
  }

  lemma ListWithLast(names: set<string>, last: string)
    requires last in names
    ensures Lists(SomeList(names - {last}) + [last], names)
  {
    SomeListLists(names - {last});
  }

  lemma LeavesOfSnoc(instant: string -> bool, walk: Walk, at: seq<string>, v: Value, names: seq<string>, name: string)
    requires v.Obj?
    ensures LeavesOf(instant, walk, at, v, names + [name]) ==
            LeavesOf(instant, walk, at, v, names) + LeavesUnder(instant, walk, at, v, name)
  {
    assert (names + [name])[..|names|] == names;
  }

  /** On the way to a value, the walk visits the next name last. */
  ghost predicate SavesForLast(m: Fields, path: seq<string>, walk: Walk) {
    forall n :: 0 <= n < |path| && FieldsAt(m, path[..n]).Some? && path[n] in FieldsAt(m, path[..n]).value ==>
      walk(path[..n]) != [] && walk(path[..n])[|walk(path[..n])| - 1] == path[n]
  }

  lemma LastVisitSaves(m: Fields, path: seq<string>)
    ensures SavesForLast(m, path, LastVisit(m, path))
  {
    forall n | 0 <= n < |path| && FieldsAt(m, path[..n]).Some? && path[n] in FieldsAt(m, path[..n]).value
      ensures LastVisit(m, path)(path[..n]) == SomeList(FieldsAt(m, path[..n]).value.Keys - {path[n]}) + [path[n]]
    {
    }
  }

  lemma LastNameLast(instant: string -> bool, walk: Walk, at: seq<string>, v: Value, name: string)
    requires v.Obj? && name in v.fields && walk(at) != [] && walk(at)[|walk(at)| - 1] == name
    ensures Leaves(instant, walk, at, v) ==
            LeavesOf(instant, walk, at, v, walk(at)[..|walk(at)| - 1]) + Leaves(instant, walk, at + [name], v.fields[name])
  {
    var names := walk(at);
    assert Leaves(instant, walk, at, v) == LeavesOf(instant, walk, at, v, names);
    assert LeavesUnder(instant, walk, at, v, name) == Leaves(instant, walk, at + [name], v.fields[name]);
  }

  /** Such a walk writes the value's type last. */
  lemma {:induction false} WrittenLast(instant: string -> bool, m: Fields, path: seq<string>, walk: Walk, typ: string, n: nat, v: Value)
    requires TypedLeaf(instant, m, path, typ) && SavesForLast(m, path, walk) && n <= |path| && Located(m, path[..n], v)
    ensures var all := Leaves(instant, walk, path[..n], v);
      all != [] && all[|all| - 1] == Observation(Flat(path), typ)
    decreases |path| - n
  {
    if n == |path| {
      assert path[..n] == path;
    } else {
      var at, name := path[..n], path[n];
      OnTheWay(m, path, n);
      assert FieldsAt(m, at) == Some(v.fields);
      GetSnoc(m, at, name);
      assert path[..n + 1] == at + [name];
      WrittenLast(instant, m, path, walk, typ, n + 1, v.fields[name]);
      LastNameLast(instant, walk, at, v, name);
    }
  }

  lemma LastVisitWins(instant: string -> bool, m: Fields, path: seq<string>, typ: string)
    requires TypedLeaf(instant, m, path, typ)
    ensures Covers(m, LastVisit(m, path)) && Lookup(Walked(instant, LastVisit(m, path), m), Flat(path)) == Some(typ)
  {
    LastVisitCovers(m, path);
    assert path[..0] == [];
    LastVisitSaves(m, path);
    WrittenLast(instant, m, path, LastVisit(m, path), typ, 0, Obj(m));
  }

  /** Flattening does not depend on the order in which maps are walked exactly when no two values recorded under one path differ in type. */
  lemma WalksAgreeIff(instant: string -> bool, m: Fields)
    ensures Unambiguous(instant, m) <==>
              forall a, b :: Covers(m, a) && Covers(m, b) ==> Walked(instant, a, m) == Walked(instant, b, m)
  {
    if Unambiguous(instant, m) {
      forall a, b | Covers(m, a) && Covers(m, b) ensures Walked(instant, a, m) == Walked(instant, b, m) {
        WalksAgree(instant, m, a, b);
      }
    } else {
      var p, q, s, t :| TypedLeaf(instant, m, p, s) && TypedLeaf(instant, m, q, t) && Flat(p) == Flat(q) && s != t;
      LastVisitWins(instant, m, p, s);
      LastVisitWins(instant, m, q, t);
      assert Walked(instant, LastVisit(m, p), m) != Walked(instant, LastVisit(m, q), m);
    }
  }

  const DOTTED: Fields := map["a.b" := Int(1), "a" := Obj(map["b" := Text("x")])]

  lemma DottedLeaves(instant: string -> bool)
    ensures TypedLeaf(instant, DOTTED, ["a.b"], TYPE_INTEGER) && Flat(["a.b"]) == "a.b"
    ensures TypedLeaf(instant, DOTTED, ["a", "b"], TypeOf(instant, Text("x")).value) && Flat(["a", "b"]) == "a.b"
  {
    var p, q := ["a.b"], ["a", "b"];
    assert p[..0] == [] && ["a"][..0] == [] && q[..1] == ["a"];
    assert Flat(p) == "a.b" && Flat(["a"]) == "a" && Flat(q) == "a" + "." + "b";
    assert q[1..] == ["b"] && Get(map["b" := Text("x")], ["b"]) == Some(Text("x"));
    assert Get(DOTTED, q) == Some(Text("x")) && Get(DOTTED, p) == Some(Int(1));
  }

  /** With a dot in a name, two walks of one tree find two types under one path. */
  lemma DottedNamesCollide(instant: string -> bool) returns (a: Walk, b: Walk)
    ensures Covers(DOTTED, a) && Lookup(Walked(instant, a, DOTTED), "a.b") == Some(TYPE_INTEGER)
    ensures Covers(DOTTED, b) && Lookup(Walked(instant, b, DOTTED), "a.b") == TypeOf(instant, Text("x")) != Some(TYPE_INTEGER)
  {
    DottedLeaves(instant);
    LastVisitWins(instant, DOTTED, ["a.b"], TYPE_INTEGER);
    LastVisitWins(instant, DOTTED, ["a", "b"], TypeOf(instant, Text("x")).value);
    a, b := LastVisit(DOTTED, ["a.b"]), LastVisit(DOTTED, ["a", "b"]);
  }

  // ----- Names without dots -----

  ghost predicate PlainPath(path: seq<string>) {
    forall i :: 0 <= i < |path| ==> PlainSegment(path[i])
  }

  lemma {:induction false} JoinSnoc(path: seq<string>, last: string)
    requires path != []
    ensures Join(path + [last]) == Join(path) + "." + last
  {
    if |path| > 1 {
      JoinSnoc(path[1..], last);
      assert (path + [last])[1..] == path[1..] + [last];
      assert path[0] + "." + (Join(path[1..]) + "." + last) == path[0] + "." + Join(path[1..]) + "." + last;
    } else {
      assert (path + [last])[1..] == [last];
    }
  }

  lemma {:induction false} FlatIsJoin(path: seq<string>)
    requires PlainPath(path)
    ensures Flat(path) == Join(path) && (path != [] ==> Flat(path) != "")
  {
    if path != [] {
      var front, last := path[..|path| - 1], path[|path| - 1];
      assert PlainSegment(last);
      FlatIsJoin(front);
      assert path == front + [last];
      if front != [] {
        JoinSnoc(front, last);
      }
    }
  }

  /** In a tree whose names are not empty and hold no dots, no two values are recorded under one path. */
  lemma PlainTreesAreUnambiguous(instant: string -> bool, m: Fields)
    requires forall p, t :: TypedLeaf(instant, m, p, t) ==> PlainPath(p)
    ensures forall p, q, s, t :: TypedLeaf(instant, m, p, s) && TypedLeaf(instant, m, q, t) && Flat(p) == Flat(q) ==> p == q
    ensures Unambiguous(instant, m)
  {
    forall p, q, s, t | TypedLeaf(instant, m, p, s) && TypedLeaf(instant, m, q, t) && Flat(p) == Flat(q) ensures p == q {
      FlatIsJoin(p);
      FlatIsJoin(q);
      SplitJoin(p);
      SplitJoin(q);
    }
  }

  // ----- Observing a batch -----

  /** attributePathPrefixes. */
  function Prefixes(path: string): seq<string> {
    var parts := Split(path);
    seq(if parts == [] then 0 else |parts| - 1, i requires 0 <= i < |parts| => Join(parts[..i + 1]))
  }

  function Unknowns(paths: seq<string>): (all: seq<Observation>)
    ensures |all| == |paths| && forall i :: 0 <= i < |all| ==> all[i] == Observation(paths[i], TYPE_UNKNOWN)
  {
    seq(|paths|, i requires 0 <= i < |paths| => Observation(paths[i], TYPE_UNKNOWN))
  }

  /** What one flattened path contributes: its own type, and an unknown type for every prefix. */
  function PathObservations(flat: map<string, string>, path: string): seq<Observation> {
    if path in flat then [Observation(path, flat[path])] + Unknowns(Prefixes(path)) else []
  }

  function ObjectObservations(flat: map<string, string>, paths: seq<string>): seq<Observation> {
    if paths == [] then [] else PathObservations(flat, paths[0]) + ObjectObservations(flat, paths[1..])
  }

  /** How the maps of one object are walked, and then the map of its flattened paths. */
  datatype Visit = Visit(walk: Walk, paths: seq<string>)

  ghost predicate Visits(instant: string -> bool, m: Fields, visit: Visit) {
    Covers(m, visit.walk) && Lists(visit.paths, Walked(instant, visit.walk, m).Keys)
  }

  ghost predicate AllVisits(instant: string -> bool, objects: seq<Fields>, visits: seq<Visit>) {
    |objects| == |visits| && forall i :: 0 <= i < |objects| ==> Visits(instant, objects[i], visits[i])
  }

  function BatchObservations(instant: string -> bool, objects: seq<Fields>, visits: seq<Visit>): seq<Observation>
    requires |objects| == |visits|
  {
    if objects == [] then []
    else
      ObjectObservations(Walked(instant, visits[0].walk, objects[0]), visits[0].paths)
      + BatchObservations(instant, objects[1..], visits[1..])
  }

  /** The types observed in a batch; None when two of them conflict. */
  function Observed(instant: string -> bool, objects: seq<Fields>, visits: seq<Visit>): Option<map<string, string>>
    requires |objects| == |visits|
  {
    MergeAll(map[], BatchObservations(instant, objects, visits))
  }

  lemma {:induction false} MovedFirst(flat: map<string, string>, paths: seq<string>, k: nat)
    requires k < |paths|
    ensures multiset(ObjectObservations(flat, paths)) ==
            multiset(PathObservations(flat, paths[k])) + multiset(ObjectObservations(flat, RemoveAt(paths, k)))
    decreases k
  {
    if k == 0 {
      assert RemoveAt(paths, 0) == paths[1..];
    } else {
      RemoveLater(paths, k);
      MovedFirst(flat, paths[1..], k - 1);
      assert RemoveAt(paths, k)[1..] == RemoveAt(paths[1..], k - 1);
    }
  }

  lemma {:induction false} PathOrder(flat: map<string, string>, a: seq<string>, b: seq<string>)
    requires multiset(a) == multiset(b)
    ensures multiset(ObjectObservations(flat, a)) == multiset(ObjectObservations(flat, b))
    decreases |a|
  {
    if a == [] {
      assert |multiset(b)| == 0;
    } else {
      assert a[0] in multiset(b);
      var k :| 0 <= k < |b| && b[k] == a[0];
      SameRest(a, b, k);
      PathOrder(flat, a[1..], RemoveAt(b, k));
      MovedFirst(flat, b, k);
    }
  }

  lemma {:induction false} BatchOrder(instant: string -> bool, objects: seq<Fields>, a: seq<Visit>, b: seq<Visit>)
    requires AllVisits(instant, objects, a) && AllVisits(instant, objects, b)
    requires forall i :: 0 <= i < |objects| ==> Unambiguous(instant, objects[i])
    ensures multiset(BatchObservations(instant, objects, a)) == multiset(BatchObservations(instant, objects, b))
    decreases |objects|
  {
    if objects != [] {
      assert Visits(instant, objects[0], a[0]) && Visits(instant, objects[0], b[0]);
      WalksAgree(instant, objects[0], a[0].walk, b[0].walk);
      var flat := Walked(instant, a[0].walk, objects[0]);
      ListsAreSame(a[0].paths, b[0].paths, flat.Keys);
      PathOrder(flat, a[0].paths, b[0].paths);
      BatchOrder(instant, objects[1..], a[1..], b[1..]);
    }
  }

  /** In a batch of unambiguous objects neither conflicts nor types depend on how any map is walked. */
  lemma ObservedIsDetermined(instant: string -> bool, objects: seq<Fields>, a: seq<Visit>, b: seq<Visit>)
    requires AllVisits(instant, objects, a) && AllVisits(instant, objects, b)
    requires forall i :: 0 <= i < |objects| ==> Unambiguous(instant, objects[i])
    ensures Observed(instant, objects, a) == Observed(instant, objects, b)
  {
    BatchOrder(instant, objects, a, b);
    MergeOrderIsImmaterial(map[], BatchObservations(instant, objects, a), BatchObservations(instant, objects, b));
  }

  // ----- Observing one object -----

  predicate Fits(flat: map<string, string>, path: string, typ: string) {
    typ == TYPE_UNKNOWN || (path in flat && typ == flat[path])
  }

  /** The observations of one object never conflict, and every flattened path ends up with its own type. */
  lemma {:induction false} MergeFitting(flat: map<string, string>, before: map<string, string>, all: seq<Observation>)
    requires forall path :: path in before ==> Fits(flat, path, before[path])
    requires forall o :: o in all ==> Fits(flat, o.path, o.typ)
    ensures MergeAll(before, all).Some?
    ensures var after := MergeAll(before, all).value;
      forall path :: path in flat && (Lookup(before, path) == Some(flat[path]) || Observation(path, flat[path]) in all) ==>
        Lookup(after, path) == Some(flat[path])
    decreases |all|
  {
    if all != [] {
      var o := all[0];
      assert o in all && Merge(before, o).Some?;
      var next := Merge(before, o).value;
      assert forall path :: path in next ==> Fits(flat, path, next[path]);
      MergeFitting(flat, next, all[1..]);
      forall path | path in flat && (Lookup(before, path) == Some(flat[path]) || Observation(path, flat[path]) in all)
        ensures Lookup(MergeAll(before, all).value, path) == Some(flat[path])
      {
        assert Lookup(next, path) == Some(flat[path]) || Observation(path, flat[path]) in all[1..];
      }
    }
  }

  lemma {:induction false} ObservationsFit(flat: map<string, string>, paths: seq<string>)
    ensures forall o :: o in ObjectObservations(flat, paths) ==> Fits(flat, o.path, o.typ)
    ensures forall path :: path in paths && path in flat ==> Observation(path, flat[path]) in ObjectObservations(flat, paths)
    decreases |paths|
  {
    if paths != [] {
      ObservationsFit(flat, paths[1..]);
      if paths[0] in flat {
        assert PathObservations(flat, paths[0])[0] == Observation(paths[0], flat[paths[0]]);
      }
    }
  }

  lemma AloneIsMerged(instant: string -> bool, m: Fields, visit: Visit)
    ensures var all := ObjectObservations(Walked(instant, visit.walk, m), visit.paths);
      Observed(instant, [m], [visit]) == MergeAll(map[], all) && MergeAll(map[], all).Some?
  {
    var flat := Walked(instant, visit.walk, m);
    var all := ObjectObservations(flat, visit.paths);
    assert [m][1..] == [] && [visit][1..] == [] && all + [] == all;
    assert BatchObservations(instant, [m], [visit]) == all;
    ObservationsFit(flat, visit.paths);
    MergeFitting(flat, map[], all);
  }

  lemma ObservedAlone(instant: string -> bool, m: Fields, visit: Visit, path: string)
    requires Visits(instant, m, visit) && path in Walked(instant, visit.walk, m)
    ensures Observed(instant, [m], [visit]).Some?
    ensures Lookup(Observed(instant, [m], [visit]).value, path) == Some(Walked(instant, visit.walk, m)[path])
  {
    var flat := Walked(instant, visit.walk, m);
    AloneIsMerged(instant, m, visit);
    ObservationsFit(flat, visit.paths);
    MergeFitting(flat, map[], ObjectObservations(flat, visit.paths));
  }

  /** What is observed in one object is determined exactly when the object is unambiguous. */
  lemma ObservedIsDeterminedIff(instant: string -> bool, m: Fields)
    ensures Unambiguous(instant, m) <==>
              forall a, b :: Visits(instant, m, a) && Visits(instant, m, b) ==>
                               Observed(instant, [m], [a]) == Observed(instant, [m], [b])
  {
    if Unambiguous(instant, m) {
      forall a, b | Visits(instant, m, a) && Visits(instant, m, b) ensures Observed(instant, [m], [a]) == Observed(instant, [m], [b]) {
        ObservedIsDetermined(instant, [m], [a], [b]);
      }
    } else {
      var p, q, s, t :| TypedLeaf(instant, m, p, s) && TypedLeaf(instant, m, q, t) && Flat(p) == Flat(q) && s != t;
      var a := VisitFor(instant, m, p, s);
      var b := VisitFor(instant, m, q, t);
      assert Observed(instant, [m], [a]) != Observed(instant, [m], [b]);
    }
  }

  lemma VisitFor(instant: string -> bool, m: Fields, path: seq<string>, typ: string) returns (visit: Visit)
    requires TypedLeaf(instant, m, path, typ)
    ensures Visits(instant, m, visit) && Observed(instant, [m], [visit]).Some?
    ensures Lookup(Observed(instant, [m], [visit]).value, Flat(path)) == Some(typ)
  {
    LastVisitWins(instant, m, path, typ);
    var flat := Walked(instant, LastVisit(m, path), m);
    SomeListLists(flat.Keys);
    visit := Visit(LastVisit(m, path), SomeList(flat.Keys));
    ObservedAlone(instant, m, visit, Flat(path));
  }

  // ----- The loops -----

  /** flattenAttributeValue: the map of paths is written as the tree is walked. */
  method FlattenAttributeValue(instant: string -> bool, walk: Walk, at: seq<string>, prefix: string, v: Value, before: map<string, string>)
      returns (paths: map<string, string>)
    requires prefix == Flat(at)
    ensures paths == Overwritten(before, Leaves(instant, walk, at, v))
    decreases v
  {
    paths := before;
    if !v.Obj? {
      if prefix == "" {
        return;
      }
      var typ := TypeOf(instant, v);
      if typ.Some? {
        paths := paths[prefix := typ.value];
        assert [Observation(prefix, typ.value)][..0] == [];
      }
      return;
    }
    var names := walk(at);
    for i := 0 to |names|
      invariant paths == Overwritten(before, LeavesOf(instant, walk, at, v, names[..i]))
    {
      LeavesOfSnoc(instant, walk, at, v, names[..i], names[i]);
      assert names[..i + 1] == names[..i] + [names[i]];
      OverwrittenAppend(before, LeavesOf(instant, walk, at, v, names[..i]), LeavesUnder(instant, walk, at, v, names[i]));
      if names[i] in v.fields {
        assert (at + [names[i]])[..|at|] == at;
        paths := FlattenAttributeValue(instant, walk, at + [names[i]], JoinName(prefix, names[i]), v.fields[names[i]], paths);
      }
    }
    assert names[..|names|] == names;
  }

  lemma {:induction false} MergeAppend(before: map<string, string>, a: seq<Observation>, b: seq<Observation>)
    ensures MergeAll(before, a + b) == Then(MergeAll(before, a), b)
    decreases |a|
  {
    if a == [] {
      assert a + b == b;
    } else {
      assert (a + b)[1..] == a[1..] + b;
      if Merge(before, a[0]).Some? {
        MergeAppend(Merge(before, a[0]).value, a[1..], b);
      }
    }
  }

  method ObserveObject(flat: map<string, string>, paths: seq<string>, before: map<string, string>) returns (observed: Option<map<string, string>>)
    ensures observed == MergeAll(before, ObjectObservations(flat, paths))
  {
    var m := before;
    for i := 0 to |paths|
      invariant MergeAll(before, ObjectObservations(flat, paths)) == MergeAll(m, ObjectObservations(flat, paths[i..]))
    {
      assert paths[i..][1..] == paths[i + 1..];
      MergeAppend(m, PathObservations(flat, paths[i]), ObjectObservations(flat, paths[i + 1..]));
      var merged := Observe(m, PathObservations(flat, paths[i]));
      if merged.None? {
        return None;
      }
      m := merged.value;
    }
    observed := Some(m);
  }

  lemma BatchStep(instant: string -> bool, objects: seq<Fields>, visits: seq<Visit>, i: nat, m: map<string, string>)
    requires |objects| == |visits| && i < |objects|
    ensures MergeAll(m, BatchObservations(instant, objects[i..], visits[i..])) ==
            Then(MergeAll(m, ObjectObservations(Walked(instant, visits[i].walk, objects[i]), visits[i].paths)),
                 BatchObservations(instant, objects[i + 1..], visits[i + 1..]))
  {
    assert objects[i..][1..] == objects[i + 1..] && visits[i..][1..] == visits[i + 1..];
    MergeAppend(m, ObjectObservations(Walked(instant, visits[i].walk, objects[i]), visits[i].paths),
                BatchObservations(instant, objects[i + 1..], visits[i + 1..]));
  }

  /** The merging half of observeAttributeCatalog: flatten and merge object by object. */
  method ObserveBatch(instant: string -> bool, objects: seq<Fields>, visits: seq<Visit>) returns (observed: Option<map<string, string>>)
    requires |objects| == |visits|
    ensures observed == Observed(instant, objects, visits)
  {
    var m := map[];
    assert objects[0..] == objects && visits[0..] == visits;
    for i := 0 to |objects|
      invariant Observed(instant, objects, visits) == MergeAll(m, BatchObservations(instant, objects[i..], visits[i..]))
    {
      BatchStep(instant, objects, visits, i, m);
      var flat := FlattenAttributeValue(instant, visits[i].walk, [], "", Obj(objects[i]), map[]);
      var merged := ObserveObject(flat, visits[i].paths, m);
      if merged.None? {
        return None;
      }
      m := merged.value;
    }
    observed := Some(m);
  }
}
