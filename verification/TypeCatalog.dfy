/** Attribute types: widening, merging observations in any order, and the catalogue that records them. */
module TypeCatalog {
  import opened Values
  import opened QueryAst
  import opened Sequences

  // ----- Widening -----

  predicate Numeric(typ: string) {
    typ == TYPE_INTEGER || typ == TYPE_FLOAT
  }

  /** widenCatalogValueType. */
  function Widen(a: string, b: string): Option<string> {
    if a == b then Some(a)
    else if a == TYPE_UNKNOWN then Some(b)
    else if b == TYPE_UNKNOWN then Some(a)
    else if Numeric(a) && Numeric(b) then Some(if a == TYPE_FLOAT || b == TYPE_FLOAT then TYPE_FLOAT else TYPE_INTEGER)
    else None
  }

  function Widen2(a: Option<string>, b: Option<string>): Option<string> {
    match (a, b) case (Some(x), Some(y)) => Widen(x, y) case _ => None
  }

  /** Widening is a partial join: which of several types meet first does not matter, nor whether they conflict. */
  lemma WidenIsJoin(a: string, b: string, c: string)
    ensures Widen(a, a) == Some(a)
    ensures Widen(a, b) == Widen(b, a)
    ensures Widen2(Widen(a, b), Some(c)) == Widen2(Some(a), Widen(b, c))
  {
  }

  predicate Below(a: string, b: string) {
    Widen(a, b) == Some(b)
  }

  /** The order that widening climbs; a widened type is the least type above both. */
  lemma BelowIsOrder(a: string, b: string, c: string)
    ensures Below(a, a) && (Below(a, b) && Below(b, a) ==> a == b) && (Below(a, b) && Below(b, c) ==> Below(a, c))
    ensures Widen(a, b).Some? ==>
      var j := Widen(a, b).value; Below(a, j) && Below(b, j) && (Below(a, c) && Below(b, c) ==> Below(j, c))
    ensures Widen(a, b).None? ==> !(Below(a, c) && Below(b, c))
  {
  }

  // ----- Observations -----

  datatype Observation = Observation(path: string, typ: string)

  function NewType(observed: map<string, string>, o: Observation): Option<string> {
    if o.path in observed then Widen(observed[o.path], o.typ) else Some(o.typ)
  }

  /** mergeObservedCatalogType. */
  function Merge(observed: map<string, string>, o: Observation): Option<map<string, string>> {
    match NewType(observed, o) case None => None case Some(typ) => Some(observed[o.path := typ])
  }

  function MergeAll(observed: map<string, string>, all: seq<Observation>): Option<map<string, string>>
    decreases |all|
  {
    if all == [] then Some(observed)
    else match Merge(observed, all[0]) case None => None case Some(next) => MergeAll(next, all[1..])
  }

  function Then(observed: Option<map<string, string>>, all: seq<Observation>): Option<map<string, string>> {
    match observed case None => None case Some(m) => MergeAll(m, all)
  }

  lemma MergesCommute(observed: map<string, string>, a: Observation, b: Observation)
    ensures Then(Merge(observed, a), [b]) == Then(Merge(observed, b), [a])
  {
    MergeOne(observed, a, b);
    MergeOne(observed, b, a);
    if a.path == b.path {
      Overwrites(observed, a, b);
      Overwrites(observed, b, a);
      if a.path in observed {
        WidenIsJoin(observed[a.path], a.typ, b.typ);
        WidenIsJoin(observed[a.path], b.typ, a.typ);
        WidenIsJoin(a.typ, b.typ, a.typ);
      } else {
        WidenIsJoin(a.typ, b.typ, a.typ);
      }
    } else {
      var ta, tb := NewType(observed, a), NewType(observed, b);
      if ta.Some? && tb.Some? {
        assert observed[a.path := ta.value][b.path := tb.value] == observed[b.path := tb.value][a.path := ta.value];
      }
    }
  }

  lemma Overwrites(observed: map<string, string>, a: Observation, b: Observation)
    requires a.path == b.path
    ensures var ta := NewType(observed, a); var t := Widen2(ta, Some(b.typ));
      t.Some? ==> observed[a.path := ta.value][a.path := t.value] == observed[a.path := t.value]
  {
  }

  lemma MergeOne(observed: map<string, string>, a: Observation, b: Observation)
    ensures Then(Merge(observed, a), [b]) == match Merge(observed, a) case None => None case Some(m) => Merge(m, b)
  {
    match Merge(observed, a)
    case None =>
    case Some(m) =>
      assert [b][1..] == [];
      assert MergeAll(m, [b]) == match Merge(m, b) case None => None case Some(next) => MergeAll(next, []);
  }

  lemma ThenSwaps(observed: map<string, string>, a: Observation, b: Observation, rest: seq<Observation>)
    ensures Then(Merge(observed, a), [b] + rest) == Then(Merge(observed, b), [a] + rest)
  {
    MergesCommute(observed, a, b);
    MergeOne(observed, a, b);
    MergeOne(observed, b, a);
    assert ([a] + rest)[1..] == rest && ([b] + rest)[1..] == rest;
  }

  /** Any observation may be merged first. */
  lemma {:induction false} MergeFirst(observed: map<string, string>, all: seq<Observation>, k: nat)
    requires k < |all|
    ensures MergeAll(observed, all) == Then(Merge(observed, all[k]), RemoveAt(all, k))
    decreases k
  {
    if k == 0 {
      assert RemoveAt(all, 0) == all[1..];
    } else {
      var first, moved, rest := all[0], all[k], RemoveAt(all[1..], k - 1);
      RemoveLater(all, k);
      match Merge(observed, first)
      case None =>
        ThenSwaps(observed, first, moved, rest);
      case Some(next) =>
        MergeFirst(next, all[1..], k - 1);
        assert ([moved] + rest)[1..] == rest;
        ThenSwaps(observed, first, moved, rest);
    }
  }

  /** Success, and the types found, do not depend on the order in which observations are merged. */
  lemma {:induction false} MergeOrderIsImmaterial(observed: map<string, string>, a: seq<Observation>, b: seq<Observation>)
    requires multiset(a) == multiset(b)
    ensures MergeAll(observed, a) == MergeAll(observed, b)
    decreases |a|
  {
    if a == [] {
      assert |multiset(b)| == 0;
    } else {
      assert a[0] in multiset(b);
      var k :| 0 <= k < |b| && b[k] == a[0];
      MergeFirst(observed, b, k);
      SameRest(a, b, k);
      if Merge(observed, a[0]).Some? {
        MergeOrderIsImmaterial(Merge(observed, a[0]).value, a[1..], RemoveAt(b, k));
      }
    }
  }

  // ----- The catalogue -----

  const BUILTIN := "builtin"
  const REGISTERED := "registered"
  const OBSERVED := "observed"

  datatype CatalogEntry = CatalogEntry(typ: string, source: string)

  predicate Storable(typ: string) {
    typ in {TYPE_STRING, TYPE_INTEGER, TYPE_FLOAT, TYPE_BOOLEAN, TYPE_TIMESTAMP, TYPE_UNKNOWN}
  }

  /** UpsertObserved, as the catalogue it leaves; None when it is refused. */
  function Upserted(entries: map<string, CatalogEntry>, o: Observation): Option<map<string, CatalogEntry>> {
    if o.path == "" || !Storable(o.typ) then None
    else if o.path !in entries then Some(entries[o.path := CatalogEntry(o.typ, OBSERVED)])
    else
      var entry := entries[o.path];
      if entry.source in {BUILTIN, REGISTERED} then Some(entries)
      else if entry.source != OBSERVED then None
      else
        match Widen(entry.typ, o.typ)
        case None => None
        case Some(typ) => Some(entries[o.path := CatalogEntry(typ, OBSERVED)])
  }

  /** A run of upserts, one after the other; a refused one changes nothing. */
  function Run(entries: map<string, CatalogEntry>, all: seq<Observation>): map<string, CatalogEntry>
    decreases |all|
  {
    if all == [] then entries
    else Run(match Upserted(entries, all[0]) case None => entries case Some(next) => next, all[1..])
  }

  /** How one entry may change: builtin and registered ones never, observed ones only upwards. */
  predicate Advances(before: CatalogEntry, after: CatalogEntry) {
    before.source == after.source && (if before.source == OBSERVED then Below(before.typ, after.typ) else before == after)
  }

  lemma {:induction false} RunOnlyAdvances(entries: map<string, CatalogEntry>, all: seq<Observation>, path: string)
    requires path in entries
    ensures path in Run(entries, all) && Advances(entries[path], Run(entries, all)[path])
    decreases |all|
  {
    if all != [] {
      var next := match Upserted(entries, all[0]) case None => entries case Some(n) => n;
      if all[0].path == path && entries[path].source == OBSERVED {
        BelowIsOrder(entries[path].typ, all[0].typ, all[0].typ);
      }
      BelowIsOrder(entries[path].typ, entries[path].typ, entries[path].typ);
      assert Advances(entries[path], next[path]);
      RunOnlyAdvances(next, all[1..], path);
      BelowIsOrder(entries[path].typ, next[path].typ, Run(entries, all)[path].typ);
    } else {
      BelowIsOrder(entries[path].typ, entries[path].typ, entries[path].typ);
    }
  }

  class Catalog {
    var entries: map<string, CatalogEntry>

    constructor (entries: map<string, CatalogEntry>)
      ensures this.entries == entries
    {
      this.entries := entries;
    }

    method UpsertObserved(o: Observation) returns (ok: bool)
      modifies this
      ensures ok == Upserted(old(entries), o).Some?
      ensures entries == if ok then Upserted(old(entries), o).value else old(entries)
    {
      if o.path == "" || !Storable(o.typ) {
        return false;
      }
      if o.path in entries {
        var entry := entries[o.path];
        if entry.source in {BUILTIN, REGISTERED} {
          return true;
        }
        if entry.source != OBSERVED {
          return false;
        }
        var widened := Widen(entry.typ, o.typ);
        if widened.None? {
          return false;
        }
        if widened.value == entry.typ {
          assert entries[o.path := CatalogEntry(widened.value, OBSERVED)] == entries;
          return true;
        }
        entries := entries[o.path := CatalogEntry(widened.value, OBSERVED)];
        return true;
      }
      entries := entries[o.path := CatalogEntry(o.typ, OBSERVED)];
      ok := true;
    }
  }

  /** Merging observations one after the other; None when two of them conflict. */
  method Observe(before: map<string, string>, all: seq<Observation>) returns (observed: Option<map<string, string>>)
    ensures observed == MergeAll(before, all)
  {
    var m := before;
    for i := 0 to |all|
      invariant MergeAll(before, all) == MergeAll(m, all[i..])
    {
      assert all[i..][1..] == all[i + 1..];
      var typ := all[i].typ;
      if all[i].path in m {
        var widened := Widen(m[all[i].path], all[i].typ);
        if widened.None? {
          return None;
        }
        typ := widened.value;
      }
      m := m[all[i].path := typ];
    }
    observed := Some(m);
  }
}
