/** What a finished sync has planned, told on the pages it listed and the rows it started from. */
module SyncOutcome {
  import opened Values
  import opened Sequences
  import opened Evidence
  import opened EvidenceTheorems
  import opened MutationPlan
  import opened SyncProtocol
  import opened SyncSafety
  import opened SyncTheorems

  // ----- What the listing says of a key -----

  predicate Names(listed: seq<Listed>, key: Key) {
    exists i :: 0 <= i < |listed| && listed[i].key == key
  }

  predicate LastIn(listed: seq<Listed>, i: nat, key: Key) {
    i < |listed| && listed[i].key == key && forall j :: i < j < |listed| ==> listed[j].key != key
  }

  /** The first page to name the key has this as the last of what it says of it. */
  ghost predicate SaidAt(cfg: Config, key: Key, page: nat, i: nat) {
    && page < |cfg.pages| && cfg.matches(key) && LastIn(cfg.pages[page].listed, i, key)
    && forall earlier :: 0 <= earlier < page ==> !Names(cfg.pages[earlier].listed, key)
  }

  ghost predicate Said(cfg: Config, key: Key, listed: Listed) {
    exists page: nat, i: nat :: SaidAt(cfg, key, page, i) && listed == cfg.pages[page].listed[i]
  }

  lemma {:induction false} SomeLast(listed: seq<Listed>, key: Key) returns (i: nat)
    requires Names(listed, key)
    ensures LastIn(listed, i, key)
    decreases |listed|
  {
    var n := |listed| - 1;
    if listed[n].key == key {
      i := n;
    } else {
      var k :| 0 <= k < |listed| && listed[k].key == key;
      assert listed[..n][k] == listed[k];
      i := SomeLast(listed[..n], key);
    }
  }

  lemma OneMoreListed(first: Listed, rest: seq<Listed>, matches: Key -> bool)
    ensures var later := LastWins(Filter(HasMatchingKey(matches), rest));
      LastWins(Filter(HasMatchingKey(matches), [first] + rest)) ==
      if matches(first.key) && first.key !in later then later[first.key := first] else later
  {
    var kept := Filter(HasMatchingKey(matches), rest);
    assert ([first] + rest)[0] == first && ([first] + rest)[1..] == rest;
    assert HasMatchingKey(matches)(first) == matches(first.key);
    assert ([first] + kept)[1..] == kept && [] + kept == kept;
  }

  lemma {:induction false} LastWinsIs(listed: seq<Listed>, matches: Key -> bool, key: Key)
    requires matches(key)
    ensures var kept := LastWins(Filter(HasMatchingKey(matches), listed));
      && (key in kept <==> Names(listed, key))
      && forall i: nat :: LastIn(listed, i, key) ==> key in kept && kept[key] == listed[i]
    decreases |listed|
  {
    if listed != [] {
      var first, rest := listed[0], listed[1..];
      LastWinsIs(rest, matches, key);
      OneMoreListed(first, rest, matches);
      assert listed == [first] + rest;
      var kept := LastWins(Filter(HasMatchingKey(matches), listed));
      assert Names(listed, key) <==> first.key == key || Names(rest, key) by {
        if Names(rest, key) {
          var k :| 0 <= k < |rest| && rest[k].key == key;
          assert listed[k + 1].key == key;
        }
        if i :| 0 < i < |listed| && listed[i].key == key {
          assert rest[i - 1].key == key;
        }
      }
      forall i: nat | LastIn(listed, i, key) ensures key in kept && kept[key] == listed[i] {
        if i > 0 {
          assert LastIn(rest, i - 1, key);
        } else {
          assert forall j :: 0 <= j < |rest| ==> rest[j] == listed[j + 1];
        }
      }
    }
  }

  lemma {:induction false} OnlyMatching(listed: seq<Listed>, matches: Key -> bool, key: Key)
    requires !matches(key)
    ensures key !in LastWins(Filter(HasMatchingKey(matches), listed))
    decreases |listed|
  {
    if listed != [] {
      OnlyMatching(listed[1..], matches, key);
      OneMoreListed(listed[0], listed[1..], matches);
      assert listed == [listed[0]] + listed[1..];
    }
  }

  /** What one more page adds. */
  lemma OneMorePage(cfg: Config, pages: nat, key: Key)
    requires pages < |cfg.pages|
    ensures key in Effective(cfg, pages + 1) <==>
      key in Effective(cfg, pages) || (cfg.matches(key) && Names(cfg.pages[pages].listed, key))
    ensures key in Effective(cfg, pages) ==> Effective(cfg, pages + 1)[key] == Effective(cfg, pages)[key]
    ensures key !in Effective(cfg, pages) && cfg.matches(key) ==>
      forall i: nat :: LastIn(cfg.pages[pages].listed, i, key) ==>
        key in Effective(cfg, pages + 1) && Effective(cfg, pages + 1)[key] == cfg.pages[pages].listed[i]
  {
    if cfg.matches(key) {
      LastWinsIs(cfg.pages[pages].listed, cfg.matches, key);
    } else {
      OnlyMatching(cfg.pages[pages].listed, cfg.matches, key);
    }
  }

  lemma {:induction false} EffectiveKeys(cfg: Config, pages: nat, key: Key)
    requires pages <= |cfg.pages|
    ensures key in Effective(cfg, pages) <==> cfg.matches(key) && exists page :: 0 <= page < pages && Names(cfg.pages[page].listed, key)
    decreases pages
  {
    if pages > 0 {
      EffectiveKeys(cfg, pages - 1, key);
      OneMorePage(cfg, pages - 1, key);
    }
  }

  lemma {:induction false} EffectiveSays(cfg: Config, pages: nat, key: Key, page: nat, i: nat)
    requires page < pages <= |cfg.pages| && SaidAt(cfg, key, page, i)
    ensures key in Effective(cfg, pages) && Effective(cfg, pages)[key] == cfg.pages[page].listed[i]
    decreases pages
  {
    OneMorePage(cfg, pages - 1, key);
    if page == pages - 1 {
      EffectiveKeys(cfg, page, key);
    } else {
      EffectiveSays(cfg, pages - 1, key, page, i);
    }
  }

  ghost predicate IsListed(cfg: Config, key: Key) {
    cfg.matches(key) && exists page :: 0 <= page < |cfg.pages| && Names(cfg.pages[page].listed, key)
  }

  lemma {:induction false} FirstPage(cfg: Config, key: Key, bound: nat) returns (page: nat)
    requires bound < |cfg.pages| && Names(cfg.pages[bound].listed, key)
    ensures page < |cfg.pages| && Names(cfg.pages[page].listed, key)
    ensures forall earlier :: 0 <= earlier < page ==> !Names(cfg.pages[earlier].listed, key)
    decreases bound
  {
    if earlier :| 0 <= earlier < bound && Names(cfg.pages[earlier].listed, key) {
      page := FirstPage(cfg, key, earlier);
    } else {
      page := bound;
    }
  }

  /** The listing the plan is made from is what the first page to name a key says last. */
  lemma EffectiveIff(cfg: Config, key: Key, listed: Listed)
    ensures Lookup(Effective(cfg, |cfg.pages|), key) == Some(listed) <==> Said(cfg, key, listed)
    ensures key in Effective(cfg, |cfg.pages|) <==> IsListed(cfg, key)
  {
    EffectiveKeys(cfg, |cfg.pages|, key);
    if IsListed(cfg, key) {
      var bound :| 0 <= bound < |cfg.pages| && Names(cfg.pages[bound].listed, key);
      var page := FirstPage(cfg, key, bound);
      var i := SomeLast(cfg.pages[page].listed, key);
      assert SaidAt(cfg, key, page, i);
      EffectiveSays(cfg, |cfg.pages|, key, page, i);
    }
    if page: nat, i: nat :| SaidAt(cfg, key, page, i) && listed == cfg.pages[page].listed[i] {
      EffectiveSays(cfg, |cfg.pages|, key, page, i);
    }
  }

  // ----- What has been planned -----

  /** The rows the sync is about: below the prefix, and in the partition. */
  predicate InPlace(cfg: Config, start: map<Key, Local>, key: Key) {
    key in start && |cfg.prefix| <= |key| && key[..|cfg.prefix|] == cfg.prefix && cfg.matches(key)
  }

  predicate Carries(item: Mutated, id: string, key: Key, listed: Listed) {
    item == Mutated(id, key, listed.etag, listed.size, listed.lastModified, listed.storageClass)
  }

  /** What should be planned for a key. */
  ghost predicate Due(cfg: Config, start: map<Key, Local>, key: Key, kind: Kind, item: Mutated) {
    match kind
    case Import => !InPlace(cfg, start, key) && exists listed :: Said(cfg, key, listed) && Carries(item, "", key, listed)
    case Refresh =>
      InPlace(cfg, start, key) &&
      exists listed :: Said(cfg, key, listed) && !UpToDate(start[key], listed) && Carries(item, start[key].id, key, listed)
    case Remove => InPlace(cfg, start, key) && !IsListed(cfg, key) && item == Mutated(start[key].id, key, "", 0, "", "")
  }

  /** The same for one listed object and one row. */
  predicate DueFor(key: Key, listed: Option<Listed>, row: Option<Local>, kind: Kind, item: Mutated) {
    match kind
    case Import => row.None? && listed.Some? && Carries(item, "", key, listed.value)
    case Refresh => row.Some? && listed.Some? && !UpToDate(row.value, listed.value) && Carries(item, row.value.id, key, listed.value)
    case Remove => row.Some? && listed.None? && item == Mutated(row.value.id, key, "", 0, "", "")
  }

  lemma DecideIff(key: Key, listed: Option<Listed>, row: Option<Local>, kind: Kind, item: Mutated)
    requires listed.Some? ==> listed.value.key == key
    ensures Decide(key, listed, row) == Some(Entry(kind, item)) <==> DueFor(key, listed, row, kind, item)
  {
    if listed.Some? && row.Some? {
      ChangedIff(listed.value, row.value);
    }
  }

  lemma DueIff(cfg: Config, start: map<Key, Local>, key: Key, kind: Kind, item: Mutated)
    ensures Due(cfg, start, key, kind, item) <==>
      DueFor(key, Lookup(Effective(cfg, |cfg.pages|), key), if InPlace(cfg, start, key) then Some(start[key]) else None, kind, item)
  {
    var listing := Effective(cfg, |cfg.pages|);
    EffectiveIff(cfg, key, Listed(key, "", 0, "", ""));
    if key in listing {
      EffectiveIff(cfg, key, listing[key]);
      assert Said(cfg, key, listing[key]);
    }
    forall listed | Said(cfg, key, listed) ensures key in listing && listed == listing[key] {
      EffectiveIff(cfg, key, listed);
    }
  }

  lemma GoalIff(cfg: Config, start: map<Key, Local>, key: Key, kind: Kind, item: Mutated)
    ensures Lookup(Goal(cfg, start), key) == Some(Entry(kind, item)) <==> Due(cfg, start, key, kind, item)
  {
    var listing, rows := Effective(cfg, |cfg.pages|), Scoped(cfg, start);
    DueIff(cfg, start, key, kind, item);
    DecideIff(key, Lookup(listing, key), Lookup(rows, key), kind, item);
    assert Lookup(rows, key) == if InPlace(cfg, start, key) then Some(start[key]) else None;
  }

  ghost predicate HasChild(s: State, kind: Kind, item: Mutated) {
    exists child :: 0 <= child < |s.children| && s.children[child].kind == kind && item in s.children[child].items
  }

  lemma {:induction false} EntriesAreChildren(children: seq<Batch>, kind: Kind, item: Mutated)
    ensures Entry(kind, item) in AllEntries(children) <==>
      exists child :: 0 <= child < |children| && children[child].kind == kind && item in children[child].items
    decreases |children|
  {
    if children != [] {
      EntriesAreChildren(children[1..], kind, item);
      var first := Entries(children[0]);
      assert Entry(kind, item) in first <==> children[0].kind == kind && item in children[0].items by {
        if children[0].kind == kind && item in children[0].items {
          var i :| 0 <= i < |children[0].items| && children[0].items[i] == item;
          assert first[i] == Entry(kind, item);
        }
      }
      if child :| 0 < child < |children| && children[child].kind == kind && item in children[child].items {
        assert children[1..][child - 1] == children[child];
      }
      if child :| 0 <= child < |children[1..]| && children[1..][child].kind == kind && item in children[1..][child].items {
        assert children[child + 1] == children[1..][child];
      }
    }
  }

  /**
   The children of a finished sync carry exactly what is due: an import without an id for a key listed and not in place, a
   refresh under its id for one that is in place and not up to date, a removal under its id for one in place and not listed.
   */
  lemma FinishedRunPlansTheDue(cfg: Config, start: map<Key, Local>, events: seq<Event>, kind: Kind, item: Mutated)
    requires FixedListing(cfg) && WellKept(start)
    requires Run(cfg, Initial(start), events).worker.Done?
    ensures HasChild(Run(cfg, Initial(start), events), kind, item) <==> Due(cfg, start, item.key, kind, item)
  {
    var s, goal, e := Run(cfg, Initial(start), events), Goal(cfg, start), Entry(kind, item);
    FinishedRunIsOneShot(cfg, start, events);
    EntriesAreChildren(s.children, kind, item);
    PlanIsKeyed(Effective(cfg, |cfg.pages|), Scoped(cfg, start));
    GoalIff(cfg, start, item.key, kind, item);
    assert e in AllEntries(s.children) <==> e in (set e | e in AllEntries(s.children));
    assert e in goal.Values <==> Lookup(goal, item.key) == Some(e);
  }

  /** Once everything took effect exactly the listed keys are in place, and every row that is not in place is as it was. */
  lemma ConvergedRows(cfg: Config, start: map<Key, Local>, events: seq<Event>, key: Key)
    requires FixedListing(cfg) && WellKept(start) && Settled(Run(cfg, Initial(start), events))
    requires |cfg.prefix| <= |key| && key[..|cfg.prefix|] == cfg.prefix && cfg.matches(key)
    ensures key in Run(cfg, Initial(start), events).catalogue <==> IsListed(cfg, key)
  {
    Converges(cfg, start, events);
    EffectiveIff(cfg, key, Listed(key, "", 0, "", ""));
    var s := Run(cfg, Initial(start), events);
    assert key in Scoped(cfg, s.catalogue) <==> key in s.catalogue;
  }

  lemma RowsElsewhereStay(cfg: Config, start: map<Key, Local>, events: seq<Event>, key: Key)
    requires FixedListing(cfg) && WellKept(start) && Settled(Run(cfg, Initial(start), events))
    requires |cfg.prefix| > |key| || key[..|cfg.prefix|] != cfg.prefix || !cfg.matches(key)
    ensures Lookup(Run(cfg, Initial(start), events).catalogue, key) == Lookup(start, key)
  {
    Converges(cfg, start, events);
  }
}
