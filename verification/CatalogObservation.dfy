/**
 Storing what was observed. The types of a batch are upserted one by one, in the arbitrary order in which their map is
 walked and outside of any transaction, so that those stored before a refused one stay. When the outcome depends on the
 order, and when observing fails.
 */
module CatalogObservation {
  import opened Values
  import opened Sequences
  import opened QueryAst
  import opened AttributePath
  import opened AttributeTree
  import opened TypeCatalog
  import opened AttributeObservation

  // ----- Storing what was observed -----

  /** Whether everything was stored, and the catalogue left behind. */
  datatype Stored = Stored(ok: bool, entries: map<string, CatalogEntry>)

  /** Upserts in the order in which the observed types are walked, up to the first that is refused. */
  function UpsertAll(entries: map<string, CatalogEntry>, observed: map<string, string>, paths: seq<string>): Stored
    requires forall i :: 0 <= i < |paths| ==> paths[i] in observed
    decreases |paths|
  {
    if paths == [] then Stored(true, entries)
    else
      match Upserted(entries, Observation(paths[0], observed[paths[0]]))
      case None => Stored(false, entries)
      case Some(next) => UpsertAll(next, observed, paths[1..])
  }

  /** The entry a path gets, if its upsert is accepted. */
  function NewEntry(entries: map<string, CatalogEntry>, o: Observation): Option<Option<CatalogEntry>> {
    match Upserted(entries, o) case None => None case Some(next) => Some(Lookup(next, o.path))
  }

  /** An upsert looks at, and changes, nothing but its own path. */
  lemma UpsertIsLocal(entries: map<string, CatalogEntry>, o: Observation, other: Observation)
    requires o.path != other.path && Upserted(entries, o).Some?
    ensures NewEntry(Upserted(entries, o).value, other) == NewEntry(entries, other)
    ensures Lookup(Upserted(entries, o).value, other.path) == Lookup(entries, other.path)
  {
  }

  ghost predicate AllAccepted(entries: map<string, CatalogEntry>, observed: map<string, string>, paths: seq<string>) {
    forall path :: path in paths && path in observed ==> NewEntry(entries, Observation(path, observed[path])).Some?
  }

  ghost function StoredAt(entries: map<string, CatalogEntry>, observed: map<string, string>, paths: seq<string>, path: string): Option<CatalogEntry>
    requires AllAccepted(entries, observed, paths)
  {
    if path in paths && path in observed then NewEntry(entries, Observation(path, observed[path])).value else Lookup(entries, path)
  }

  lemma {:induction false} UpsertsArePointwise(entries: map<string, CatalogEntry>, observed: map<string, string>, paths: seq<string>)
    requires Distinct(paths) && forall i :: 0 <= i < |paths| ==> paths[i] in observed
    ensures UpsertAll(entries, observed, paths).ok <==> AllAccepted(entries, observed, paths)
    ensures UpsertAll(entries, observed, paths).ok ==>
              forall path :: Lookup(UpsertAll(entries, observed, paths).entries, path) == StoredAt(entries, observed, paths, path)
    decreases |paths|
  {
    if paths != [] && Upserted(entries, Observation(paths[0], observed[paths[0]])).Some? {
      var o, rest := Observation(paths[0], observed[paths[0]]), paths[1..];
      var next := Upserted(entries, o).value;
      UpsertsArePointwise(next, observed, rest);
      forall path: string | path != o.path
        ensures Lookup(next, path) == Lookup(entries, path)
        ensures path in observed ==>
                  NewEntry(next, Observation(path, observed[path])) == NewEntry(entries, Observation(path, observed[path]))
      {
        UpsertIsLocal(entries, o, Observation(path, if path in observed then observed[path] else ""));
      }
      assert o.path !in rest && NewEntry(entries, o) == Some(Lookup(next, o.path));
      assert forall path :: path in paths <==> path == o.path || path in rest;
    } else if paths != [] {
      assert paths[0] in paths;
    }
  }

  /** No upsert is refused. */
  ghost predicate NoneRefused(entries: map<string, CatalogEntry>, observed: map<string, string>) {
    forall path :: path in observed ==> Upserted(entries, Observation(path, observed[path])).Some?
  }

  /** No upsert that is accepted changes an entry. */
  ghost predicate NoneChanges(entries: map<string, CatalogEntry>, observed: map<string, string>) {
    forall path :: path in observed ==>
      var next := Upserted(entries, Observation(path, observed[path])); next.None? || next == Some(entries)
  }

  /** Success does not depend on the order of the upserts, nor does the catalogue when there is success. */
  lemma SuccessIsDetermined(entries: map<string, CatalogEntry>, observed: map<string, string>, a: seq<string>, b: seq<string>)
    requires Lists(a, observed.Keys) && Lists(b, observed.Keys)
    ensures (forall i :: 0 <= i < |a| ==> a[i] in observed) && (forall i :: 0 <= i < |b| ==> b[i] in observed)
    ensures UpsertAll(entries, observed, a).ok <==> NoneRefused(entries, observed)
    ensures UpsertAll(entries, observed, b).ok <==> NoneRefused(entries, observed)
    ensures NoneRefused(entries, observed) ==> UpsertAll(entries, observed, a) == UpsertAll(entries, observed, b)
  {
    UpsertsArePointwise(entries, observed, a);
    UpsertsArePointwise(entries, observed, b);
    AcceptedIff(entries, observed, a);
    AcceptedIff(entries, observed, b);
    if NoneRefused(entries, observed) {
      var x, y := UpsertAll(entries, observed, a).entries, UpsertAll(entries, observed, b).entries;
      forall path ensures Lookup(x, path) == Lookup(y, path) {
        assert StoredAt(entries, observed, a, path) == StoredAt(entries, observed, b, path);
      }
      SameLookups(x, y);
    }
  }

  lemma AcceptedIff(entries: map<string, CatalogEntry>, observed: map<string, string>, paths: seq<string>)
    requires Lists(paths, observed.Keys)
    ensures AllAccepted(entries, observed, paths) <==> NoneRefused(entries, observed)
  {
    if AllAccepted(entries, observed, paths) {
      forall path | path in observed ensures Upserted(entries, Observation(path, observed[path])).Some? {
        assert path in paths && NewEntry(entries, Observation(path, observed[path])).Some?;
      }
    }
  }

  lemma SameLookups(x: map<string, CatalogEntry>, y: map<string, CatalogEntry>)
    requires forall path :: Lookup(x, path) == Lookup(y, path)
    ensures x == y
  {
    assert forall path :: path in x ==> Lookup(x, path) == Some(x[path]);
    assert forall path :: path in y ==> Lookup(y, path) == Some(y[path]);
  }

  lemma {:induction false} NothingChanges(entries: map<string, CatalogEntry>, observed: map<string, string>, paths: seq<string>)
    requires NoneChanges(entries, observed) && forall i :: 0 <= i < |paths| ==> paths[i] in observed
    ensures UpsertAll(entries, observed, paths).entries == entries
    decreases |paths|
  {
    if paths != [] && Upserted(entries, Observation(paths[0], observed[paths[0]])).Some? {
      NothingChanges(entries, observed, paths[1..]);
    }
  }

  /** The paths in some order, with the given ones first. */
  ghost function StartingWith(first: seq<string>, keys: set<string>): seq<string> {
    first + SomeList(keys - set path | path in first)
  }

  lemma StartingWithLists(first: seq<string>, keys: set<string>)
    requires Distinct(first) && forall path :: path in first ==> path in keys
    ensures Lists(StartingWith(first, keys), keys)
  {
    var more := keys - set path | path in first;
    SomeListLists(more);
    var all := StartingWith(first, keys);
    assert all == first + SomeList(more);
    forall path ensures path in all <==> path in keys {
      assert path in SomeList(more) <==> path in more;
    }
    forall i, j | 0 <= i < j < |all| ensures all[i] != all[j] {
      if i < |first| <= j {
        assert all[j] in SomeList(more);
      }
    }
  }

  /** A refused upsert leaves the catalogue alone when it comes first, and not when it comes after one that changes an entry. */
  lemma RefusedFirstOrSecond(entries: map<string, CatalogEntry>, observed: map<string, string>, refused: string, changed: string)
    requires refused in observed && Upserted(entries, Observation(refused, observed[refused])).None?
    requires changed in observed && Upserted(entries, Observation(changed, observed[changed])).Some?
    requires Upserted(entries, Observation(changed, observed[changed])).value != entries
    ensures var a, b := StartingWith([refused, changed], observed.Keys), StartingWith([changed, refused], observed.Keys);
      && Lists(a, observed.Keys) && Lists(b, observed.Keys)
      && UpsertAll(entries, observed, a).entries != UpsertAll(entries, observed, b).entries
  {
    var a, b := StartingWith([refused, changed], observed.Keys), StartingWith([changed, refused], observed.Keys);
    StartingWithLists([refused, changed], observed.Keys);
    StartingWithLists([changed, refused], observed.Keys);
    assert a[0] == refused && b[0] == changed && b[1..][0] == refused;
    UpsertIsLocal(entries, Observation(changed, observed[changed]), Observation(refused, observed[refused]));
  }

  ghost predicate SameForAllOrders(entries: map<string, CatalogEntry>, observed: map<string, string>) {
    forall a, b :: Lists(a, observed.Keys) && Lists(b, observed.Keys) ==>
      UpsertAll(entries, observed, a) == UpsertAll(entries, observed, b)
  }

  /** The catalogue left behind is the same for all orders exactly when no upsert is refused or no accepted one changes an entry. */
  lemma LeftBehindIff(entries: map<string, CatalogEntry>, observed: map<string, string>)
    ensures SameForAllOrders(entries, observed) <==> NoneRefused(entries, observed) || NoneChanges(entries, observed)
  {
    if NoneRefused(entries, observed) || NoneChanges(entries, observed) {
      forall a, b | Lists(a, observed.Keys) && Lists(b, observed.Keys)
        ensures UpsertAll(entries, observed, a) == UpsertAll(entries, observed, b)
      {
        SuccessIsDetermined(entries, observed, a, b);
        if NoneChanges(entries, observed) {
          NothingChanges(entries, observed, a);
          NothingChanges(entries, observed, b);
        }
      }
    } else {
      var refused :| refused in observed && Upserted(entries, Observation(refused, observed[refused])).None?;
      var changed :| changed in observed && Upserted(entries, Observation(changed, observed[changed])).Some?
                     && Upserted(entries, Observation(changed, observed[changed])).value != entries;
      RefusedFirstOrSecond(entries, observed, refused, changed);
    }
  }

  /** One path is new and another conflicts: the new one is stored, or not, depending on which comes first. */
  lemma OrderShowsInCatalogue()
    ensures var entries, observed := map["q" := CatalogEntry(TYPE_INTEGER, OBSERVED)], map["p" := TYPE_INTEGER, "q" := TYPE_STRING];
      && Lists(["p", "q"], observed.Keys) && Lists(["q", "p"], observed.Keys)
      && UpsertAll(entries, observed, ["p", "q"]) == Stored(false, entries["p" := CatalogEntry(TYPE_INTEGER, OBSERVED)])
      && UpsertAll(entries, observed, ["q", "p"]) == Stored(false, entries)
  {
    assert ["p", "q"][1..] == ["q"] && ["q", "p"][1..] == ["p"];
  }

  // ----- Observing -----

  /** A way to walk any map of observed types. */
  ghost predicate OrdersKeys(order: map<string, string> -> seq<string>) {
    forall observed :: Lists(order(observed), observed.Keys)
  }

  /** observeAttributeCatalog. */
  ghost function ObservedInto(instant: string -> bool, entries: map<string, CatalogEntry>, objects: seq<Fields>, visits: seq<Visit>,
                              order: map<string, string> -> seq<string>): Stored
    requires |objects| == |visits| && OrdersKeys(order)
  {
    match Observed(instant, objects, visits)
    case None => Stored(false, entries)
    case Some(observed) =>
      assert Lists(order(observed), observed.Keys);
      UpsertAll(entries, observed, order(observed))
  }

  /**
   Observing a batch of unambiguous objects: whether it succeeds depends on no map order, neither of the objects' maps,
   nor of their flattened paths, nor of the observed types; and the catalogue does not either when it succeeds.
   */
  lemma ObservingIsDetermined(instant: string -> bool, entries: map<string, CatalogEntry>, objects: seq<Fields>,
                              a: seq<Visit>, b: seq<Visit>,
                              orderA: map<string, string> -> seq<string>, orderB: map<string, string> -> seq<string>)
    requires AllVisits(instant, objects, a) && AllVisits(instant, objects, b) && OrdersKeys(orderA) && OrdersKeys(orderB)
    requires forall i :: 0 <= i < |objects| ==> Unambiguous(instant, objects[i])
    ensures var x, y := ObservedInto(instant, entries, objects, a, orderA), ObservedInto(instant, entries, objects, b, orderB);
      x.ok == y.ok && (x.ok ==> x == y)
  {
    ObservedIsDetermined(instant, objects, a, b);
    if Observed(instant, objects, a).Some? {
      var observed := Observed(instant, objects, a).value;
      assert Lists(orderA(observed), observed.Keys) && Lists(orderB(observed), observed.Keys);
      SuccessIsDetermined(entries, observed, orderA(observed), orderB(observed));
    }
  }

  /** The catalogue that observing leaves is the same for all orders. */
  ghost predicate OneCatalogue(instant: string -> bool, entries: map<string, CatalogEntry>, objects: seq<Fields>) {
    forall a, b, orderA, orderB ::
      AllVisits(instant, objects, a) && AllVisits(instant, objects, b) && OrdersKeys(orderA) && OrdersKeys(orderB) ==>
        ObservedInto(instant, entries, objects, a, orderA) == ObservedInto(instant, entries, objects, b, orderB)
  }

  /**
   The catalogue left behind, failure included, depends on no map order exactly when the objects conflict among
   themselves, or no upsert is refused, or no accepted one changes an entry.
   */
  lemma CatalogueIsDeterminedIff(instant: string -> bool, entries: map<string, CatalogEntry>, objects: seq<Fields>, visits: seq<Visit>)
    requires AllVisits(instant, objects, visits) && forall i :: 0 <= i < |objects| ==> Unambiguous(instant, objects[i])
    ensures OneCatalogue(instant, entries, objects) <==>
              var observed := Observed(instant, objects, visits);
              observed.None? || NoneRefused(entries, observed.value) || NoneChanges(entries, observed.value)
  {
    var found := Observed(instant, objects, visits);
    forall a | AllVisits(instant, objects, a) ensures Observed(instant, objects, a) == found {
      ObservedIsDetermined(instant, objects, a, visits);
    }
    if found.None? {
    } else if NoneRefused(entries, found.value) || NoneChanges(entries, found.value) {
      LeftBehindIff(entries, found.value);
      forall a, b, orderA, orderB |
        AllVisits(instant, objects, a) && AllVisits(instant, objects, b) && OrdersKeys(orderA) && OrdersKeys(orderB)
        ensures ObservedInto(instant, entries, objects, a, orderA) == ObservedInto(instant, entries, objects, b, orderB)
      {
        assert Lists(orderA(found.value), found.value.Keys) && Lists(orderB(found.value), found.value.Keys);
      }
    } else {
      LeftBehindIff(entries, found.value);
      var a, b :| Lists(a, found.value.Keys) && Lists(b, found.value.Keys)
                  && UpsertAll(entries, found.value, a) != UpsertAll(entries, found.value, b);
      OrdersAs(found.value, a);
      OrdersAs(found.value, b);
      assert ObservedInto(instant, entries, objects, visits, OrderAs(found.value, a)) == UpsertAll(entries, found.value, a);
      assert ObservedInto(instant, entries, objects, visits, OrderAs(found.value, b)) == UpsertAll(entries, found.value, b);
    }
  }

  /** Walks one map in the given order. */
  ghost function OrderAs(observed: map<string, string>, paths: seq<string>): map<string, string> -> seq<string> {
    (m: map<string, string>) => if m == observed then paths else SomeList(m.Keys)
  }

  lemma OrdersAs(observed: map<string, string>, paths: seq<string>)
    requires Lists(paths, observed.Keys)
    ensures OrdersKeys(OrderAs(observed, paths)) && OrderAs(observed, paths)(observed) == paths
  {
    forall m: map<string, string> ensures Lists(OrderAs(observed, paths)(m), m.Keys) {
      SomeListLists(m.Keys);
    }
  }

  // ----- When observing one object fails -----

  /** A stored type that the observed one cannot widen. */
  predicate Clashes(entries: map<string, CatalogEntry>, path: string, typ: string) {
    path in entries && entries[path].source !in {BUILTIN, REGISTERED} &&
    (entries[path].source != OBSERVED || Widen(entries[path].typ, typ).None?)
  }

  predicate Proper(o: Observation) {
    o.path != "" && Storable(o.typ)
  }

  lemma {:induction false} MergeProper(before: map<string, string>, all: seq<Observation>)
    requires forall path :: path in before ==> Proper(Observation(path, before[path]))
    requires forall o :: o in all ==> Proper(o)
    ensures MergeAll(before, all).Some? ==>
              forall path :: path in MergeAll(before, all).value ==> Proper(Observation(path, MergeAll(before, all).value[path]))
    decreases |all|
  {
    if all != [] && Merge(before, all[0]).Some? {
      assert all[0] in all;
      MergeProper(Merge(before, all[0]).value, all[1..]);
    }
  }

  lemma {:induction false} SegmentsAreNotEmpty(path: string, current: string)
    ensures forall part :: part in SplitFrom(path, current) ==> part != ""
    decreases |path|
  {
    if path != "" {
      SegmentsAreNotEmpty(path[1..], if path[0] == '.' then "" else current + [path[0]]);
    }
  }

  lemma PathIsProper(flat: map<string, string>, path: string)
    requires path in flat ==> Proper(Observation(path, flat[path]))
    ensures forall o :: o in PathObservations(flat, path) ==> Proper(o)
  {
    var parts := Split(path);
    SegmentsAreNotEmpty(path, "");
    forall i | 0 <= i < |Prefixes(path)| ensures Prefixes(path)[i] != "" {
      var front := parts[..i + 1];
      assert parts[0] in parts && front[0] == parts[0];
      assert Prefixes(path)[i] == Join(front);
    }
  }

  lemma {:induction false} ObjectIsProper(flat: map<string, string>, paths: seq<string>)
    requires forall path :: path in flat ==> Proper(Observation(path, flat[path]))
    ensures forall o :: o in ObjectObservations(flat, paths) ==> Proper(o)
    decreases |paths|
  {
    if paths != [] {
      PathIsProper(flat, paths[0]);
      ObjectIsProper(flat, paths[1..]);
    }
  }

  lemma ObservedIsProper(instant: string -> bool, m: Fields, visit: Visit)
    requires Visits(instant, m, visit)
    ensures Observed(instant, [m], [visit]).Some?
    ensures var observed := Observed(instant, [m], [visit]).value;
      forall path :: path in observed ==> Proper(Observation(path, observed[path]))
  {
    var flat := Walked(instant, visit.walk, m);
    forall path | path in flat ensures Proper(Observation(path, flat[path])) {
      var p := FoundLeaf(instant, m, visit.walk, path);
    }
    AloneIsMerged(instant, m, visit);
    ObjectIsProper(flat, visit.paths);
    MergeProper(map[], ObjectObservations(flat, visit.paths));
  }

  /** Observing one object fails exactly when one of its types clashes with a stored one. */
  lemma ObservingFailsIff(instant: string -> bool, entries: map<string, CatalogEntry>, m: Fields, visit: Visit,
                          order: map<string, string> -> seq<string>)
    requires Visits(instant, m, visit) && OrdersKeys(order)
    ensures Observed(instant, [m], [visit]).Some?
    ensures var observed := Observed(instant, [m], [visit]).value;
      !ObservedInto(instant, entries, [m], [visit], order).ok <==>
        exists path :: path in observed && Clashes(entries, path, observed[path])
  {
    ObservedIsProper(instant, m, visit);
    var observed := Observed(instant, [m], [visit]).value;
    assert Lists(order(observed), observed.Keys);
    SuccessIsDetermined(entries, observed, order(observed), order(observed));
    forall path | path in observed
      ensures Upserted(entries, Observation(path, observed[path])).None? <==> Clashes(entries, path, observed[path])
    {
      assert Proper(Observation(path, observed[path]));
    }
  }

  ghost predicate ClashesAt(entries: map<string, CatalogEntry>, instant: string -> bool, m: Fields, visit: Visit, path: string) {
    Observed(instant, [m], [visit]).Some? && path in Observed(instant, [m], [visit]).value &&
    Clashes(entries, path, Observed(instant, [m], [visit]).value[path])
  }

  /** A type of the object's attributes clashes with a stored one. */
  ghost predicate SomeClash(entries: map<string, CatalogEntry>, instant: string -> bool, m: Fields, visit: Visit) {
    exists path :: ClashesAt(entries, instant, m, visit, path)
  }

  lemma FailsIffSomeClash(instant: string -> bool, entries: map<string, CatalogEntry>, m: Fields, visit: Visit,
                          order: map<string, string> -> seq<string>)
    requires Visits(instant, m, visit) && OrdersKeys(order)
    ensures !ObservedInto(instant, entries, [m], [visit], order).ok <==> SomeClash(entries, instant, m, visit)
  {
    ObservingFailsIff(instant, entries, m, visit, order);
    var observed := Observed(instant, [m], [visit]).value;
    assert forall path :: ClashesAt(entries, instant, m, visit, path) <==> path in observed && Clashes(entries, path, observed[path]);
  }

  // ----- The loops -----

  /** observeAttributeCatalog; `order` is how the observed types are walked. What is stored before a refusal stays. */
  method ObserveAttributeCatalog(catalog: Catalog, instant: string -> bool, objects: seq<Fields>, visits: seq<Visit>,
                                 order: map<string, string> -> seq<string>) returns (ok: bool)
    requires |objects| == |visits| && OrdersKeys(order)
    modifies catalog
    ensures Stored(ok, catalog.entries) == ObservedInto(instant, old(catalog.entries), objects, visits, order)
  {
    var observed := ObserveBatch(instant, objects, visits);
    if observed.None? {
      return false;
    }
    assert Lists(order(observed.value), observed.value.Keys);
    ok := UpsertEach(catalog, observed.value, order(observed.value));
  }

  method UpsertEach(catalog: Catalog, observed: map<string, string>, paths: seq<string>) returns (ok: bool)
    requires forall i :: 0 <= i < |paths| ==> paths[i] in observed
    modifies catalog
    ensures Stored(ok, catalog.entries) == UpsertAll(old(catalog.entries), observed, paths)
  {
    for i := 0 to |paths|
      invariant UpsertAll(old(catalog.entries), observed, paths) == UpsertAll(catalog.entries, observed, paths[i..])
    {
      assert paths[i..][1..] == paths[i + 1..];
      var accepted := catalog.UpsertObserved(Observation(paths[i], observed[paths[i]]));
      if !accepted {
        return false;
      }
    }
    ok := true;
  }

  /** Observing one object. */
  method ObserveOne(catalog: Catalog, instant: string -> bool, m: Fields, visit: Visit, order: map<string, string> -> seq<string>)
      returns (ok: bool)
    requires OrdersKeys(order)
    modifies catalog
    ensures Stored(ok, catalog.entries) == ObservedInto(instant, old(catalog.entries), [m], [visit], order)
    ensures Visits(instant, m, visit) ==> (!ok <==> SomeClash(old(catalog.entries), instant, m, visit))
  {
    if Visits(instant, m, visit) {
      FailsIffSomeClash(instant, catalog.entries, m, visit, order);
    }
    ok := ObserveAttributeCatalog(catalog, instant, [m], [visit], order);
  }
}
