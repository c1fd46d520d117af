/** Nested attribute maps: reading, setting and deleting along a path. */
module AttributeTree {
  import opened Values
  import opened Sequences
  import opened AttributePath

  type Fields = map<string, Value>

  // ----- Reading and writing -----

  function Get(m: Fields, path: seq<string>): Option<Value>
    requires path != []
    decreases |path|
  {
    if path[0] !in m then None
    else if |path| == 1 then Some(m[path[0]])
    else if m[path[0]].Obj? then Get(m[path[0]].fields, path[1..])
    else None
  }

  /** The map under a name; anything else is replaced by an empty one. */
  function Child(m: Fields, name: string): Fields {
    if name in m && m[name].Obj? then m[name].fields else map[]
  }

  function Set(m: Fields, path: seq<string>, value: Value): Fields
    requires path != []
    decreases |path|
  {
    if |path| == 1 then m[path[0] := value] else m[path[0] := Obj(Set(Child(m, path[0]), path[1..], value))]
  }

  /** The maps along a path exist down to the one holding its last name. */
  predicate Walks(m: Fields, path: seq<string>)
    requires path != []
    decreases |path|
  {
    |path| == 1 || (path[0] in m && m[path[0]].Obj? && Walks(m[path[0]].fields, path[1..]))
  }

  /** Removing the last name, and then every map along the path that became empty. */
  function Prune(m: Fields, path: seq<string>): Fields
    requires path != [] && Walks(m, path)
    decreases |path|
  {
    if |path| == 1 then m - {path[0]}
    else
      var child := Prune(m[path[0]].fields, path[1..]);
      if child == map[] then m - {path[0]} else m[path[0] := Obj(child)]
  }

  function Delete(m: Fields, path: seq<string>): Fields
    requires path != []
  {
    if Walks(m, path) then Prune(m, path) else m
  }

  // ----- Paths -----

  predicate Prefix(p: seq<string>, q: seq<string>) {
    |p| <= |q| && p == q[..|p|]
  }

  predicate Apart(p: seq<string>, q: seq<string>) {
    !Prefix(p, q) && !Prefix(q, p)
  }

  lemma PrefixTail(p: seq<string>, q: seq<string>)
    requires p != [] && q != [] && p[0] == q[0]
    ensures Prefix(p, q) <==> Prefix(p[1..], q[1..])
  {
    if |p| <= |q| {
      assert p == [p[0]] + p[1..];
      assert q[..|p|] == [q[0]] + q[1..][..|p| - 1];
      assert q[..|p|][1..] == q[1..][..|p| - 1];
    }
  }

  lemma ApartTail(p: seq<string>, q: seq<string>)
    requires p != [] && q != [] && Apart(p, q) && p[0] == q[0]
    ensures |p| > 1 && |q| > 1 && Apart(p[1..], q[1..])
  {
    PrefixTail(p, q);
    PrefixTail(q, p);
  }

  lemma ApartDiffers(p: seq<string>, q: seq<string>)
    requires Apart(p, q)
    ensures p != q
  {
    assert q[..|q|] == q;
  }

  // ----- Laws of setting -----

  lemma {:induction false} GetAfterSet(m: Fields, path: seq<string>, value: Value)
    requires path != []
    ensures Get(Set(m, path, value), path) == Some(value)
    decreases |path|
  {
    if |path| > 1 {
      GetAfterSet(Child(m, path[0]), path[1..], value);
    }
  }

  /** A path neither above nor below the one written reads as before. */
  lemma {:induction false} SetFrame(m: Fields, p: seq<string>, value: Value, q: seq<string>)
    requires p != [] && q != [] && Apart(p, q)
    ensures Get(Set(m, p, value), q) == Get(m, q)
    decreases |p|
  {
    if p[0] == q[0] {
      ApartTail(p, q);
      SetFrame(Child(m, p[0]), p[1..], value, q[1..]);
      if p[0] !in m || !m[p[0]].Obj? {
        assert Get(map[], q[1..]) == None;
      }
    }
  }

  lemma {:induction false} SetsCommute(m: Fields, p: seq<string>, v: Value, q: seq<string>, w: Value)
    requires p != [] && q != [] && Apart(p, q)
    ensures Set(Set(m, p, v), q, w) == Set(Set(m, q, w), p, v)
    decreases |p|
  {
    if p[0] == q[0] {
      ApartTail(p, q);
      SetsCommute(Child(m, p[0]), p[1..], v, q[1..], w);
      SetTwiceBelow(m, p, v, q, w);
      SetTwiceBelow(m, q, w, p, v);
    } else {
      SetsUnderOtherNames(m, p, v, q, w);
    }
  }

  lemma SetsUnderOtherNames(m: Fields, p: seq<string>, v: Value, q: seq<string>, w: Value)
    requires p != [] && q != [] && p[0] != q[0]
    ensures Set(Set(m, p, v), q, w) == Set(Set(m, q, w), p, v)
  {
    SetElsewhere(m, p, v, q, w);
    SetElsewhere(m, q, w, p, v);
    UpdatesCommute(m, p[0], Set(m, p, v)[p[0]], q[0], Set(m, q, w)[q[0]]);
  }

  lemma UpdatesCommute(m: Fields, a: string, x: Value, b: string, y: Value)
    requires a != b
    ensures m[a := x][b := y] == m[b := y][a := x]
  {
  }

  /** Two sets below one name are two sets in the map under it. */
  lemma SetTwiceBelow(m: Fields, p: seq<string>, v: Value, q: seq<string>, w: Value)
    requires |p| > 1 && |q| > 1 && p[0] == q[0]
    ensures Set(Set(m, p, v), q, w) == m[p[0] := Obj(Set(Set(Child(m, p[0]), p[1..], v), q[1..], w))]
  {
    assert Child(Set(m, p, v), q[0]) == Set(Child(m, p[0]), p[1..], v);
  }

  lemma SetElsewhere(m: Fields, p: seq<string>, v: Value, q: seq<string>, w: Value)
    requires p != [] && q != [] && p[0] != q[0]
    ensures p[0] in Set(m, p, v) && q[0] in Set(m, q, w)
    ensures Set(Set(m, p, v), q, w) == m[p[0] := Set(m, p, v)[p[0]]][q[0] := Set(m, q, w)[q[0]]]
  {
    assert Child(Set(m, p, v), q[0]) == Child(m, q[0]);
  }

  /** Something set below a path makes that path a map. */
  lemma {:induction false} SetBelow(m: Fields, p: seq<string>, q: seq<string>, w: Value)
    requires p != [] && Prefix(p, q) && |p| < |q|
    ensures Get(Set(m, q, w), p).Some? && Get(Set(m, q, w), p).value.Obj?
    decreases |p|
  {
    if |p| > 1 {
      assert p[1..] == q[1..][..|p| - 1];
      SetBelow(Child(m, p[0]), p[1..], q[1..], w);
    }
  }

  /** For plain values, the order of two sets is immaterial exactly when neither path lies on the other, or they agree. */
  lemma SetsCommuteIff(m: Fields, p: seq<string>, v: Value, q: seq<string>, w: Value)
    requires p != [] && q != [] && !v.Obj? && !w.Obj?
    ensures (Set(Set(m, p, v), q, w) == Set(Set(m, q, w), p, v)) <==> (Apart(p, q) || (p == q && v == w))
  {
    GetAfterSet(Set(m, p, v), q, w);
    GetAfterSet(Set(m, q, w), p, v);
    if Apart(p, q) {
      SetsCommute(m, p, v, q, w);
    } else if Prefix(p, q) && |p| < |q| {
      SetBelow(Set(m, p, v), p, q, w);
    } else if Prefix(q, p) && |q| < |p| {
      SetBelow(Set(m, q, w), q, p, v);
    } else {
      assert p == q;
    }
  }

  // ----- Many sets, in any order -----

  datatype Entry = Entry(path: seq<string>, value: Value)

  function SetAll(m: Fields, entries: seq<Entry>): Fields
    requires forall i :: 0 <= i < |entries| ==> entries[i].path != []
    decreases |entries|
  {
    if entries == [] then m else SetAll(Set(m, entries[0].path, entries[0].value), entries[1..])
  }

  ghost predicate AllApart(entries: seq<Entry>) {
    && (forall i :: 0 <= i < |entries| ==> entries[i].path != [])
    && (forall i, j :: 0 <= i < j < |entries| ==> Apart(entries[i].path, entries[j].path))
  }

  /** Any entry may be set first. */
  lemma {:induction false} SetFirst(m: Fields, entries: seq<Entry>, k: nat)
    requires AllApart(entries) && k < |entries|
    ensures AllApart(RemoveAt(entries, k))
    ensures SetAll(m, entries) == SetAll(Set(m, entries[k].path, entries[k].value), RemoveAt(entries, k))
    decreases k
  {
    RemoveKeepsApart(entries, k);
    if k == 0 {
      assert RemoveAt(entries, 0) == entries[1..];
    } else {
      var first, rest, moved := entries[0], entries[1..], entries[k];
      TailApart(entries);
      RemoveLater(entries, k);
      SetFirst(Set(m, first.path, first.value), rest, k - 1);
      assert Apart(first.path, moved.path);
      SwapFirst(m, first, moved, RemoveAt(rest, k - 1));
    }
  }

  ghost predicate NonEmptyPaths(entries: seq<Entry>) {
    forall i :: 0 <= i < |entries| ==> entries[i].path != []
  }

  lemma SwapFirst(m: Fields, first: Entry, moved: Entry, rest: seq<Entry>)
    requires first.path != [] && moved.path != [] && Apart(first.path, moved.path) && NonEmptyPaths(rest)
    ensures NonEmptyPaths([first] + rest)
    ensures SetAll(Set(Set(m, first.path, first.value), moved.path, moved.value), rest) ==
      SetAll(Set(m, moved.path, moved.value), [first] + rest)
  {
    SetsCommute(m, first.path, first.value, moved.path, moved.value);
    assert ([first] + rest)[1..] == rest;
  }

  lemma TailApart(entries: seq<Entry>)
    requires AllApart(entries) && entries != []
    ensures AllApart(entries[1..])
  {
  }

  lemma RemoveKeepsApart(entries: seq<Entry>, k: nat)
    requires AllApart(entries) && k < |entries|
    ensures AllApart(RemoveAt(entries, k))
  {
    var rest := RemoveAt(entries, k);
    forall i, j | 0 <= i < j < |rest| ensures Apart(rest[i].path, rest[j].path) {
      assert rest[i] == entries[if i < k then i else i + 1];
      assert rest[j] == entries[if j < k then j else j + 1];
    }
  }

  /** Whatever order the sets are enumerated in, the result is the same. */
  lemma {:induction false} OrderIsImmaterial(m: Fields, a: seq<Entry>, b: seq<Entry>)
    requires AllApart(a) && AllApart(b) && multiset(a) == multiset(b)
    ensures SetAll(m, a) == SetAll(m, b)
    decreases |a|
  {
    if a == [] {
      assert |multiset(b)| == 0;
    } else {
      assert a[0] in multiset(b);
      var k :| 0 <= k < |b| && b[k] == a[0];
      SetFirst(m, b, k);
      SameRest(a, b, k);
      OrderIsImmaterial(Set(m, a[0].path, a[0].value), a[1..], RemoveAt(b, k));
    }
  }

  // ----- Laws of deleting -----

  lemma {:induction false} GetAfterPrune(m: Fields, path: seq<string>)
    requires path != [] && Walks(m, path)
    ensures Get(Prune(m, path), path) == None
    decreases |path|
  {
    if |path| > 1 {
      GetAfterPrune(m[path[0]].fields, path[1..]);
    }
  }

  lemma {:induction false} AbsentOffTheWalk(m: Fields, path: seq<string>)
    requires path != [] && !Walks(m, path)
    ensures Get(m, path) == None
    decreases |path|
  {
    if path[0] in m && m[path[0]].Obj? {
      AbsentOffTheWalk(m[path[0]].fields, path[1..]);
    }
  }

  lemma GetAfterDelete(m: Fields, path: seq<string>)
    requires path != []
    ensures Get(Delete(m, path), path) == None
  {
    if Walks(m, path) {
      GetAfterPrune(m, path);
    } else {
      AbsentOffTheWalk(m, path);
    }
  }

  lemma {:induction false} PruneFrame(m: Fields, p: seq<string>, q: seq<string>)
    requires p != [] && q != [] && Walks(m, p) && Apart(p, q)
    ensures Get(Prune(m, p), q) == Get(m, q)
    decreases |p|
  {
    if p[0] == q[0] {
      ApartTail(p, q);
      PruneFrame(m[p[0]].fields, p[1..], q[1..]);
    }
  }

  lemma DeleteFrame(m: Fields, p: seq<string>, q: seq<string>)
    requires p != [] && q != [] && Apart(p, q)
    ensures Get(Delete(m, p), q) == Get(m, q)
  {
    if Walks(m, p) {
      PruneFrame(m, p, q);
    }
  }

  /** The first map of the path that is missing is missing from the root or from a map that holds something else. */
  predicate Fresh(m: Fields, path: seq<string>)
    requires path != []
    decreases |path|
  {
    path[0] !in m || (|path| > 1 && m[path[0]].Obj? && m[path[0]].fields != map[] && Fresh(m[path[0]].fields, path[1..]))
  }

  lemma {:induction false} SetWalks(m: Fields, path: seq<string>, value: Value)
    requires path != []
    ensures Walks(Set(m, path, value), path)
    decreases |path|
  {
    if |path| > 1 {
      SetWalks(Child(m, path[0]), path[1..], value);
    }
  }

  /** Setting and then deleting restores the tree exactly when the path was fresh. */
  lemma {:induction false} DeleteUndoesSetIff(m: Fields, path: seq<string>, value: Value)
    requires path != []
    ensures (Delete(Set(m, path, value), path) == m) <==> Fresh(m, path)
    decreases |path|
  {
    var name := path[0];
    SetWalks(m, path, value);
    if |path| == 1 {
      assert name !in m ==> m[name := value] - {name} == m;
      assert name in m ==> name !in Prune(Set(m, path, value), path);
    } else {
      var child := Child(m, name);
      SetWalks(child, path[1..], value);
      DeleteUndoesSetIff(child, path[1..], value);
      if name !in m {
        FreshInEmpty(path[1..]);
      }
      var pruned := Prune(Set(child, path[1..], value), path[1..]);
      var set' := m[name := Obj(Set(child, path[1..], value))];
      assert Set(m, path, value) == set';
      if pruned == map[] {
        assert name !in Prune(set', path);
        assert name !in m ==> set' - {name} == m;
      } else {
        assert Prune(set', path)[name] == Obj(pruned);
        assert name in m && m[name] == Obj(pruned) ==> m[name := Obj(pruned)] == m;
      }
    }
  }

  lemma FreshInEmpty(path: seq<string>)
    requires path != []
    ensures Fresh(map[], path)
  {
  }

  predicate Tidy(v: Value) {
    v.Obj? ==> v.fields != map[] && forall name :: name in v.fields ==> Tidy(v.fields[name])
  }

  /** No map below the root is empty. */
  predicate NoEmptyMaps(m: Fields) {
    forall name :: name in m ==> Tidy(m[name])
  }

  /** The path meets a plain value before its end. */
  predicate CrossesPlain(m: Fields, path: seq<string>)
    requires path != []
    decreases |path|
  {
    |path| > 1 && path[0] in m && (!m[path[0]].Obj? || CrossesPlain(m[path[0]].fields, path[1..]))
  }

  /** In a tree without empty maps, fresh means absent and crossing no plain value. */
  lemma {:induction false} FreshIff(m: Fields, path: seq<string>)
    requires path != [] && NoEmptyMaps(m)
    ensures Fresh(m, path) <==> (Get(m, path) == None && !CrossesPlain(m, path))
    decreases |path|
  {
    if |path| > 1 && path[0] in m && m[path[0]].Obj? {
      FreshIff(m[path[0]].fields, path[1..]);
    }
  }

  /** Pruning leaves no empty map behind. */
  lemma {:induction false} DeleteKeepsNoEmptyMaps(m: Fields, path: seq<string>)
    requires path != [] && NoEmptyMaps(m)
    ensures NoEmptyMaps(Delete(m, path))
    decreases |path|
  {
    if Walks(m, path) && |path| > 1 {
      DeleteKeepsNoEmptyMaps(m[path[0]].fields, path[1..]);
    }
  }

  // ----- Reading by path text -----

  function AttributeValue(m: Fields, path: string): Option<Value> {
    match JsonPath(path) case None => None case Some(parts) => Get(m, parts)
  }

  /** A value set at a path text is read back there unless a segment is blank, which reading refuses and setting does not. */
  lemma ReadBackIff(m: Fields, path: string, value: Value)
    requires Split(path) != []
    ensures (AttributeValue(Set(m, Split(path), value), path) == Some(value)) <==> JsonPath(path).Some?
  {
    GetAfterSet(m, Split(path), value);
  }
}
