/** The types themselves: what a value's type is, what two types widen to, and exactly what is observed in one object. */
module TypeTheorems {
  import opened Values
  import opened Sequences
  import opened AttributePath
  import opened AttributeTree
  import opened TypeCatalog
  import opened AttributeObservation

  // ----- Types of values -----

  predicate Equals(n: int, x: real) {
    n as real == x
  }

  /** The type of a value, type by type; a float that is a whole number is an integer. */
  ghost predicate HasType(instant: string -> bool, v: Value, typ: string) {
    match typ
    case "boolean" => v.Bool?
    case "integer" => v.Int? || (v.Float? && exists n: int :: Equals(n, v.x))
    case "float" => v.Float? && forall n: int :: !Equals(n, v.x)
    case "timestamp" => v.Text? && instant(v.text)
    case "string" => v.Text? && !instant(v.text)
    case "unknown" => v.List? || v.Obj?
    case _ => false
  }

  lemma TypeOfIff(instant: string -> bool, v: Value, typ: string)
    ensures TypeOf(instant, v) == Some(typ) <==> HasType(instant, v, typ)
  {
    if v.Float? {
      if n: int :| Equals(n, v.x) {
        assert v.x.Floor == n;
      }
      assert Equals(v.x.Floor, v.x) <==> v.x == v.x.Floor as real;
    }
  }

  // ----- Widening -----

  /** An unknown type lies below every type, and integers below floats. */
  predicate Under(a: string, b: string) {
    a == b || a == "unknown" || (a == "integer" && b == "float")
  }

  /** Two types widen exactly to the least type above both, and to none exactly when there is none. */
  lemma WidenIff(a: string, b: string, c: string)
    ensures Widen(a, b) == Some(c) <==> Under(a, c) && Under(b, c) && forall d :: Under(a, d) && Under(b, d) ==> Under(c, d)
    ensures Widen(a, b) == None <==> forall d :: !(Under(a, d) && Under(b, d))
  {
    var r := Widen(a, b);
    if r.Some? {
      assert Under(a, r.value) && Under(b, r.value);
    }
  }

  // ----- Storing a type -----

  const STORED := {"string", "integer", "float", "boolean", "timestamp", "unknown"}

  /** What an observed type does to the catalogue. */
  ghost predicate Stores(entries: map<string, CatalogEntry>, o: Observation, after: map<string, CatalogEntry>) {
    && o.path != "" && o.typ in STORED
    && (forall path :: path != o.path ==> Lookup(after, path) == Lookup(entries, path))
    && if o.path !in entries then Lookup(after, o.path) == Some(CatalogEntry(o.typ, "observed"))
       else if entries[o.path].source in {"builtin", "registered"} then Lookup(after, o.path) == Some(entries[o.path])
       else
         && entries[o.path].source == "observed" && o.path in after && after[o.path].source == "observed"
         && Under(entries[o.path].typ, after[o.path].typ) && Under(o.typ, after[o.path].typ)
         && forall d :: Under(entries[o.path].typ, d) && Under(o.typ, d) ==> Under(after[o.path].typ, d)
  }

  /** An upsert stores what it should, and is refused exactly when nothing would be right. */
  lemma UpsertedIff(entries: map<string, CatalogEntry>, o: Observation, after: map<string, CatalogEntry>)
    ensures Upserted(entries, o) == Some(after) <==> Stores(entries, o, after)
    ensures Upserted(entries, o) == None ==> !Stores(entries, o, after)
  {
    if o.path in entries && o.path in after {
      WidenIff(entries[o.path].typ, o.typ, after[o.path].typ);
    }
    if Stores(entries, o, after) {
      forall path ensures Lookup(Upserted(entries, o).value, path) == Lookup(after, path) {
      }
      SameEntries(Upserted(entries, o).value, after);
    }
  }

  lemma SameEntries(a: map<string, CatalogEntry>, b: map<string, CatalogEntry>)
    requires forall path :: Lookup(a, path) == Lookup(b, path)
    ensures a == b
  {
    forall path ensures path in a <==> path in b {
      assert Lookup(a, path) == Lookup(b, path);
    }
    forall path | path in a ensures a[path] == b[path] {
      assert Lookup(a, path) == Lookup(b, path);
    }
  }

  // ----- What is observed in one object -----

  ghost predicate PlainTree(instant: string -> bool, m: Fields) {
    forall p, t :: TypedLeaf(instant, m, p, t) ==> PlainPath(p)
  }

  /** A value of this type is found there. */
  ghost predicate LeafAt(instant: string -> bool, m: Fields, path: string, typ: string) {
    exists p :: TypedLeaf(instant, m, p, typ) && path == Join(p)
  }

  /** The path leads to a value, but not all the way. */
  ghost predicate Above(instant: string -> bool, m: Fields, path: string) {
    exists p, t, k :: TypedLeaf(instant, m, p, t) && 0 < k < |p| && path == Join(p[..k])
  }

  lemma {:induction false} InnerIsMap(m: Fields, p: seq<string>, k: nat)
    requires 0 < k < |p| && Get(m, p).Some?
    ensures Get(m, p[..k]).Some? && Get(m, p[..k]).value.Obj?
    decreases k
  {
    var inner := m[p[0]];
    if k > 1 {
      InnerIsMap(inner.fields, p[1..], k - 1);
      assert p[..k][1..] == p[1..][..k - 1];
    } else {
      assert p[..1] == [p[0]];
    }
  }

  lemma PrefixesOf(p: seq<string>)
    requires p != [] && PlainPath(p)
    ensures |Prefixes(Join(p))| == |p| - 1 && forall i :: 0 <= i < |p| - 1 ==> Prefixes(Join(p))[i] == Join(p[..i + 1])
  {
    SplitJoin(p);
  }

  /** Merging observations that fit leaves entries that fit, at exactly the paths observed. */
  lemma {:induction false} MergedFits(flat: map<string, string>, before: map<string, string>, all: seq<Observation>)
    requires forall path :: path in before ==> Fits(flat, path, before[path])
    requires forall o :: o in all ==> Fits(flat, o.path, o.typ)
    ensures MergeAll(before, all).Some?
    ensures var after := MergeAll(before, all).value;
      && (forall path :: path in after ==> Fits(flat, path, after[path]))
      && (forall path :: path in after <==> path in before || exists o :: o in all && o.path == path)
    decreases |all|
  {
    if all != [] {
      var o := all[0];
      assert o in all && Merge(before, o).Some?;
      var next := Merge(before, o).value;
      MergedFits(flat, next, all[1..]);
      var after := MergeAll(before, all).value;
      forall path ensures path in after <==> path in before || exists o :: o in all && o.path == path {
        if o' :| o' in all[1..] && o'.path == path {
          assert o' in all;
        }
        if o' :| o' in all && o'.path == path {
          assert o' == o || o' in all[1..];
        }
      }
    }
  }

  lemma {:induction false} ObservedPaths(flat: map<string, string>, paths: seq<string>, path: string)
    ensures (exists o :: o in ObjectObservations(flat, paths) && o.path == path) <==>
            exists q :: q in paths && q in flat && (path == q || path in Prefixes(q))
    decreases |paths|
  {
    if paths != [] {
      ObservedPaths(flat, paths[1..], path);
      var first := PathObservations(flat, paths[0]);
      FirstPaths(flat, paths[0], path);
      var all := ObjectObservations(flat, paths);
      assert all == first + ObjectObservations(flat, paths[1..]);
      if o :| o in all && o.path == path {
        assert o in first || o in ObjectObservations(flat, paths[1..]);
      }
      if q :| q in paths && q in flat && (path == q || path in Prefixes(q)) {
        if q != paths[0] {
          assert q in paths[1..];
          var o :| o in ObjectObservations(flat, paths[1..]) && o.path == path;
          assert o in all;
        } else {
          var o :| o in first && o.path == path;
          assert o in all;
        }
      }
    }
  }

  lemma FirstPaths(flat: map<string, string>, q: string, path: string)
    ensures (exists o :: o in PathObservations(flat, q) && o.path == path) <==> q in flat && (path == q || path in Prefixes(q))
  {
    if q in flat {
      var all := PathObservations(flat, q);
      assert all[0] == Observation(q, flat[q]);
      if path in Prefixes(q) {
        var i :| 0 <= i < |Prefixes(q)| && Prefixes(q)[i] == path;
        assert all[i + 1] == Observation(path, "unknown");
        assert all[i + 1] in all;
      }
    }
  }

  /** In a tree of plain names, a path is written with a type exactly when a value of that type is there. */
  lemma WalkedIff(instant: string -> bool, m: Fields, walk: Walk, path: string, typ: string)
    requires Covers(m, walk) && PlainTree(instant, m)
    ensures Lookup(Walked(instant, walk, m), path) == Some(typ) <==> LeafAt(instant, m, path, typ)
  {
    var flat := Walked(instant, walk, m);
    if path in flat && flat[path] == typ {
      var p := FoundLeaf(instant, m, walk, path);
      FlatIsJoin(p);
      assert TypedLeaf(instant, m, p, typ) && path == Join(p);
    }
    if p :| TypedLeaf(instant, m, p, typ) && path == Join(p) {
      FlatIsJoin(p);
      LeafIsFound(instant, m, walk, p, typ);
      var q := FoundLeaf(instant, m, walk, path);
      PlainTreesAreUnambiguous(instant, m);
    }
  }

  /** A path is above some recorded value exactly when it is a prefix of a path that was written. */
  lemma AboveIff(instant: string -> bool, m: Fields, walk: Walk, path: string)
    requires Covers(m, walk) && PlainTree(instant, m)
    ensures Above(instant, m, path) <==> exists q :: q in Walked(instant, walk, m) && path in Prefixes(q)
  {
    var flat := Walked(instant, walk, m);
    if p, t, k :| TypedLeaf(instant, m, p, t) && 0 < k < |p| && path == Join(p[..k]) {
      assert LeafAt(instant, m, Join(p), t);
      WalkedIff(instant, m, walk, Join(p), t);
      PrefixesOf(p);
      assert Prefixes(Join(p))[k - 1] == path;
      assert Join(p) in flat && path in Prefixes(Join(p));
    }
    if q :| q in flat && path in Prefixes(q) {
      WalkedIff(instant, m, walk, q, flat[q]);
      var p :| TypedLeaf(instant, m, p, flat[q]) && q == Join(p);
      PrefixesOf(p);
      var i :| 0 <= i < |Prefixes(q)| && Prefixes(q)[i] == path;
      assert TypedLeaf(instant, m, p, flat[q]) && 0 < i + 1 < |p| && path == Join(p[..i + 1]);
    }
  }

  /** What leads to a value is a map, so nothing is recorded there. */
  lemma AboveIsNoLeaf(instant: string -> bool, m: Fields, path: string, typ: string)
    requires PlainTree(instant, m) && Above(instant, m, path)
    ensures !LeafAt(instant, m, path, typ)
  {
    if LeafAt(instant, m, path, typ) {
      var p, t, k :| TypedLeaf(instant, m, p, t) && 0 < k < |p| && path == Join(p[..k]);
      var q :| TypedLeaf(instant, m, q, typ) && path == Join(q);
      SplitJoin(q);
      SplitJoin(p[..k]);
      InnerIsMap(m, p, k);
    }
  }

  /**
   In a tree of plain names, however it is walked, exactly these types are observed: at each value's path the value's
   type, and an unknown type at every shorter path that leads to a value.
   */
  lemma ObservedExactly(instant: string -> bool, m: Fields, visit: Visit, path: string, typ: string)
    requires Visits(instant, m, visit) && PlainTree(instant, m)
    ensures Observed(instant, [m], [visit]).Some?
    ensures Lookup(Observed(instant, [m], [visit]).value, path) == Some(typ) <==>
            LeafAt(instant, m, path, typ) || (typ == "unknown" && Above(instant, m, path))
  {
    var flat := Walked(instant, visit.walk, m);
    AloneIsMerged(instant, m, visit);
    ObservationsFit(flat, visit.paths);
    MergedFits(flat, map[], ObjectObservations(flat, visit.paths));
    ObservedPaths(flat, visit.paths, path);
    var after := Observed(instant, [m], [visit]).value;
    WalkedIff(instant, m, visit.walk, path, typ);
    AboveIff(instant, m, visit.walk, path);
    if path in flat {
      ObservedAlone(instant, m, visit, path);
      WalkedIff(instant, m, visit.walk, path, flat[path]);
      if Above(instant, m, path) {
        AboveIsNoLeaf(instant, m, path, flat[path]);
      }
    } else {
      assert path in after ==> after[path] == "unknown";
      assert path in after <==> Above(instant, m, path);
    }
  }
}
