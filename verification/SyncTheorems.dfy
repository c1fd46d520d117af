/** The promises of the crash-resumable sync, stated over every run. */
module SyncTheorems {
  import opened Values
  import opened Sequences
  import opened Evidence
  import opened MutationPlan
  import opened SyncProtocol
  import opened SyncSafety

  ghost function Offset(children: seq<Batch>, child: nat): nat
    requires child <= |children|
  {
    |AllEntries(children[..child])|
  }

  lemma OffsetStep(children: seq<Batch>, child: nat)
    requires child < |children|
    ensures AllEntries(children[..child + 1]) == AllEntries(children[..child]) + Entries(children[child])
  {
    AllEntriesOne(children[child]);
    AllEntriesAppend(children[..child], [children[child]]);
    assert children[..child + 1] == children[..child] + [children[child]];
  }

  lemma EntryAt(children: seq<Batch>, child: nat, position: nat)
    requires child < |children| && position < |children[child].items|
    ensures Offset(children, child + 1) == Offset(children, child) + |children[child].items| <= |AllEntries(children)|
    ensures AllEntries(children)[Offset(children, child) + position] == Entry(children[child].kind, children[child].items[position])
  {
    OffsetStep(children, child);
    AllEntriesAppend(children[..child + 1], children[child + 1..]);
    assert children == children[..child + 1] + children[child + 1..];
    assert AllEntries(children[..child + 1])[Offset(children, child) + position] == Entries(children[child])[position];
  }

  lemma OffsetsGrow(children: seq<Batch>, first: nat, second: nat)
    requires first <= second <= |children|
    ensures Offset(children, first) <= Offset(children, second)
  {
    AllEntriesAppend(children[..first], children[first..second]);
    assert children[..second] == children[..first] + children[first..second];
  }

  /** Positions in the list of children never share a key, within a child or across children. */
  lemma DistinctAcross(children: seq<Batch>, i: nat, a: nat, j: nat, b: nat)
    requires KeysDiffer(AllEntries(children))
    requires i <= j < |children| && a < |children[i].items| && b < |children[j].items|
    requires i == j ==> a < b
    ensures children[i].items[a].key != children[j].items[b].key
  {
    EntryAt(children, i, a);
    EntryAt(children, j, b);
    if i < j {
      OffsetsGrow(children, i + 1, j);
    }
  }

  /** In every reachable state every planned key is spilled, and no child is larger than a batch. */
  lemma PlannedIsSpilled(cfg: Config, start: map<Key, Local>, events: seq<Event>, child: nat, item: Mutated)
    requires FixedListing(cfg) && WellKept(start)
    requires var children := Run(cfg, Initial(start), events).children; child < |children| && item in children[child].items
    ensures var s := Run(cfg, Initial(start), events);
      item.key in s.spill && |s.children[child].items| <= 100
  {
    RunKeeps(cfg, start, events);
    ChildEntries(Run(cfg, Initial(start), events).children, child, item);
  }

  /** In every reachable state each key is planned at most once. */
  lemma PlannedAtMostOnce(cfg: Config, start: map<Key, Local>, events: seq<Event>, i: nat, a: nat, j: nat, b: nat)
    requires FixedListing(cfg) && WellKept(start)
    requires var children := Run(cfg, Initial(start), events).children;
             && i <= j < |children| && a < |children[i].items| && b < |children[j].items|
             && (i == j ==> a < b)
    ensures var s := Run(cfg, Initial(start), events);
      && s.children[i].items[a].key != s.children[j].items[b].key
      && s.children[i].items[a].key in s.spill && s.children[j].items[b].key in s.spill
      && |s.children[i].items| <= 100
  {
    var s := Run(cfg, Initial(start), events);
    RunKeeps(cfg, start, events);
    PlannedIsSpilled(cfg, start, events, i, s.children[i].items[a]);
    PlannedIsSpilled(cfg, start, events, j, s.children[j].items[b]);
    DistinctAcross(s.children, i, a, j, b);
  }

  /** In every reachable state, from the first page to the last, the keys of all checkpointed pages are spilled. */
  lemma CheckpointedKeysAreSpilled(cfg: Config, start: map<Key, Local>, events: seq<Event>)
    requires FixedListing(cfg) && WellKept(start)
    ensures var s := Run(cfg, Initial(start), events);
            var c := Decode(s.progress);
            Effective(cfg, if c.complete then |cfg.pages| else Locate(cfg, c.token, c.marker)).Keys <= s.spill
  {
    RunKeeps(cfg, start, events);
  }

  /**
   In every reachable state, a key in a remove child was in scope and in the partition at the start,
   carries the id it had then, and is never one the upstream lists.
   */
  lemma RemovalsAreSafe(cfg: Config, start: map<Key, Local>, events: seq<Event>, child: nat, item: Mutated)
    requires FixedListing(cfg) && WellKept(start)
    requires var children := Run(cfg, Initial(start), events).children;
             child < |children| && children[child].kind == Remove && item in children[child].items
    ensures item.key !in Effective(cfg, |cfg.pages|)
    ensures item.key in start && InScope(cfg, item.key) && item.id == start[item.key].id
    ensures forall page: nat, listed :: page < |cfg.pages| && listed in cfg.pages[page].listed ==> listed.key != item.key
  {
    var s := Run(cfg, Initial(start), events);
    RunKeeps(cfg, start, events);
    ChildItem(cfg, start, s, child, item);
    NotRemoved(cfg, start, item.key);
    forall page: nat, listed | page < |cfg.pages| && listed in cfg.pages[page].listed ensures listed.key != item.key {
      if cfg.matches(listed.key) {
        ListedIsEffective(cfg, page, listed);
      }
    }
  }

  lemma NotRemoved(cfg: Config, start: map<Key, Local>, key: Key)
    requires key in Goal(cfg, start) && Goal(cfg, start)[key].kind == Remove
    ensures key !in Effective(cfg, |cfg.pages|)
  {
    var decision := Decision(Effective(cfg, |cfg.pages|), Scoped(cfg, start), key);
  }

  lemma ListedIsEffective(cfg: Config, page: nat, listed: Listed)
    requires page < |cfg.pages| && listed in cfg.pages[page].listed && cfg.matches(listed.key)
    ensures listed.key in Effective(cfg, |cfg.pages|)
  {
    FilterListedMembers(cfg.pages[page].listed, cfg.matches, listed);
    LastWinsMembers(PageListed(cfg, page));
    EffectiveGrows(cfg, page + 1, |cfg.pages|);
  }

  /** How many mutations of one kind a plan holds. */
  ghost function KindKeys(plan: map<Key, Entry>, kind: Kind): set<Key> {
    set key | key in plan && plan[key].kind == kind
  }

  function KindCount(counts: Counts, kind: Kind): nat {
    match kind
    case Import => counts.imports
    case Refresh => counts.refreshes
    case Remove => counts.removes
  }

  ghost function KindEntries(entries: seq<Entry>, kind: Kind): set<Entry> {
    set e | e in entries && e.kind == kind
  }

  lemma KindEntriesAppend(first: seq<Entry>, second: seq<Entry>, kind: Kind)
    requires KeysDiffer(first + second)
    ensures KeysDiffer(first) && KeysDiffer(second)
    ensures |KindEntries(first + second, kind)| == |KindEntries(first, kind)| + |KindEntries(second, kind)|
  {
    var all := first + second;
    forall x, y | 0 <= x < y < |first| ensures first[x].item.key != first[y].item.key {
      assert all[x] == first[x] && all[y] == first[y];
    }
    forall x, y | 0 <= x < y < |second| ensures second[x].item.key != second[y].item.key {
      assert all[|first| + x] == second[x] && all[|first| + y] == second[y];
    }
    forall x, y | 0 <= x < |first| && 0 <= y < |second| ensures first[x] != second[y] {
      assert all[x] == first[x] && all[|first| + y] == second[y];
    }
    assert KindEntries(all, kind) == KindEntries(first, kind) + KindEntries(second, kind);
    assert KindEntries(first, kind) !! KindEntries(second, kind);
  }

  lemma {:induction false} CountsAreSizes(children: seq<Batch>, kind: Kind)
    requires KeysDiffer(AllEntries(children))
    ensures KindCount(ChildCounts(children), kind) == |KindEntries(AllEntries(children), kind)|
  {
    if children == [] {
      assert KindEntries([], kind) == {};
    } else {
      var init, last := children[..|children| - 1], children[|children| - 1];
      assert children == init + [last];
      AllEntriesAppend(init, [last]);
      AllEntriesOne(last);
      KindEntriesAppend(AllEntries(init), Entries(last), kind);
      CountsAreSizes(init, kind);
      EntriesAreMany(last, kind);
    }
  }

  lemma EntriesAreMany(batch: Batch, kind: Kind)
    requires forall x, y :: 0 <= x < y < |Entries(batch)| ==> Entries(batch)[x] != Entries(batch)[y]
    ensures |KindEntries(Entries(batch), kind)| == if batch.kind == kind then |batch.items| else 0
  {
    var entries := Entries(batch);
    if batch.kind == kind {
      assert KindEntries(entries, kind) == set e | e in entries;
      DistinctSize(entries);
    } else {
      assert KindEntries(entries, kind) == {};
    }
  }

  lemma {:induction false} DistinctSize<T>(items: seq<T>)
    requires forall x, y :: 0 <= x < y < |items| ==> items[x] != items[y]
    ensures |set e | e in items| == |items|
  {
    if items != [] {
      DistinctSize(items[1..]);
      assert (set e | e in items) == {items[0]} + set e | e in items[1..];
    }
  }

  /**
   A finished sync planned exactly the one-shot plan: the children hold every mutation of the plan
   and nothing else, and the reported counts are exact, whatever crashes and children came between.
   */
  lemma FinishedRunIsOneShot(cfg: Config, start: map<Key, Local>, events: seq<Event>)
    requires FixedListing(cfg) && WellKept(start)
    requires Run(cfg, Initial(start), events).worker.Done?
    ensures var s := Run(cfg, Initial(start), events);
      && (set e | e in AllEntries(s.children)) == Goal(cfg, start).Values
      && |AllEntries(s.children)| == |Goal(cfg, start).Keys|
      && s.worker.listed == ListedCount(cfg, |cfg.pages|)
      && (forall kind :: KindCount(s.worker.counts, kind) == |KindKeys(Goal(cfg, start), kind)|)
  {
    var s := Run(cfg, Initial(start), events);
    RunKeeps(cfg, start, events);
    DoneFacts(cfg, start, s);
    FinishedIsOneShot(Goal(cfg, start), s.children, s.spill);
  }

  lemma DoneFacts(cfg: Config, start: map<Key, Local>, s: State)
    requires Inv(cfg, start, s) && s.worker.Done?
    ensures Fulfils(AllEntries(s.children), Goal(cfg, start), s.spill)
    ensures Goal(cfg, start).Keys <= s.spill && KeyedPlan(Goal(cfg, start))
    ensures s.worker.listed == ListedCount(cfg, |cfg.pages|) && s.worker.counts == ChildCounts(s.children)
  {
    PlanIsKeyed(Effective(cfg, |cfg.pages|), Scoped(cfg, start));
  }

  lemma FinishedIsOneShot(goal: map<Key, Entry>, children: seq<Batch>, spill: set<Key>)
    requires Fulfils(AllEntries(children), goal, spill) && goal.Keys <= spill && KeyedPlan(goal)
    ensures (set e | e in AllEntries(children)) == goal.Values
    ensures |AllEntries(children)| == |goal.Keys|
    ensures forall kind :: KindCount(ChildCounts(children), kind) == |KindKeys(goal, kind)|
  {
    EntriesAreGoal(AllEntries(children), goal, spill);
    forall kind ensures KindCount(ChildCounts(children), kind) == |KindKeys(goal, kind)| {
      CountsAreSizes(children, kind);
      KindSize(AllEntries(children), goal, kind);
    }
  }

  lemma EntriesAreGoal(entries: seq<Entry>, goal: map<Key, Entry>, spill: set<Key>)
    requires Fulfils(entries, goal, spill) && goal.Keys <= spill && KeyedPlan(goal)
    ensures Fulfils(entries, goal, goal.Keys)
    ensures (set e | e in entries) == goal.Values
    ensures |entries| == |goal.Keys|
  {
    SameSize(entries, goal, goal.Keys);
  }

  lemma SameSize(entries: seq<Entry>, goal: map<Key, Entry>, keys: set<Key>)
    requires Fulfils(entries, goal, keys) && keys == goal.Keys && KeyedPlan(goal)
    ensures |entries| == |goal.Keys|
  {
    var names := seq(|entries|, i requires 0 <= i < |entries| => entries[i].item.key);
    DistinctSize(names);
    forall key ensures key in names <==> key in goal.Keys {
      if key in goal {
        var i :| 0 <= i < |entries| && entries[i] == goal[key];
        assert names[i] == key;
      }
      if key in names {
        var i :| 0 <= i < |names| && names[i] == key;
        assert entries[i] in entries;
      }
    }
    assert (set key | key in names) == goal.Keys;
  }

  lemma {:induction false} ImageSize(entries: set<Entry>, goal: map<Key, Entry>, keys: set<Key>)
    requires keys <= goal.Keys && KeyedPlan(goal)
    requires entries == set key | key in keys :: goal[key]
    ensures |entries| == |keys|
    decreases keys
  {
    if keys != {} {
      var key :| key in keys;
      forall other | other in keys - {key} ensures goal[other] != goal[key] {}
      ImageSize(entries - {goal[key]}, goal, keys - {key});
    }
  }

  lemma KindSize(entries: seq<Entry>, goal: map<Key, Entry>, kind: Kind)
    requires Fulfils(entries, goal, goal.Keys) && KeyedPlan(goal)
    ensures |KindEntries(entries, kind)| == |KindKeys(goal, kind)|
  {
    assert KindEntries(entries, kind) == set key | key in KindKeys(goal, kind) :: goal[key];
    ImageSize(KindEntries(entries, kind), goal, KindKeys(goal, kind));
  }

  // ----- Convergence -----

  ghost predicate Settled(s: State) {
    s.worker.Done? && EntryKeys(AllEntries(s.children)) <= s.applied
  }

  /** Once everything took effect the scope holds exactly the listed keys and nothing else moved. */
  lemma Converges(cfg: Config, start: map<Key, Local>, events: seq<Event>)
    requires FixedListing(cfg) && WellKept(start)
    requires Settled(Run(cfg, Initial(start), events))
    ensures var s := Run(cfg, Initial(start), events);
      && Scoped(cfg, s.catalogue).Keys == Effective(cfg, |cfg.pages|).Keys
      && (forall key :: !InScope(cfg, key) ==> Lookup(s.catalogue, key) == Lookup(start, key))
  {
    var s, listing := Run(cfg, Initial(start), events), Effective(cfg, |cfg.pages|);
    RunKeeps(cfg, start, events);
    forall key ensures key in Scoped(cfg, s.catalogue) <==> key in listing {
      SettledKey(cfg, start, s, key);
    }
    forall key | !InScope(cfg, key) ensures Lookup(s.catalogue, key) == Lookup(start, key) {
      SettledKey(cfg, start, s, key);
    }
  }

  lemma PlannedIsApplied(cfg: Config, start: map<Key, Local>, s: State, key: Key)
    requires Inv(cfg, start, s) && Settled(s)
    ensures key in Goal(cfg, start) <==> key in s.applied
  {
    var goal := Goal(cfg, start);
    assert RowOk(cfg, start, s.catalogue, s.applied, key);
    assert KeyedPlan(goal) && goal.Keys <= s.spill;
    if key in goal {
      assert goal[key] in AllEntries(s.children);
    }
  }

  lemma SettledKey(cfg: Config, start: map<Key, Local>, s: State, key: Key)
    requires FixedListing(cfg) && Inv(cfg, start, s) && Settled(s)
    ensures var goal := Goal(cfg, start);
      if key in goal then InScope(cfg, key) && Reflects(cfg, start, s.catalogue, key, goal[key])
      else Lookup(s.catalogue, key) == Lookup(start, key)
    ensures key in Effective(cfg, |cfg.pages|) <==> InScope(cfg, key) && key in s.catalogue
  {
    var listing := Effective(cfg, |cfg.pages|);
    PlannedIsApplied(cfg, start, s, key);
    assert RowOk(cfg, start, s.catalogue, s.applied, key);
    if key in listing {
      EffectiveInScope(cfg, |cfg.pages|, key);
    }
    var decision := Decision(listing, Scoped(cfg, start), key);
  }

  lemma ReplanKey(cfg: Config, start: map<Key, Local>, s: State, key: Key)
    requires FixedListing(cfg) && Inv(cfg, start, s) && Settled(s)
    ensures var listing := Effective(cfg, |cfg.pages|);
      key in Plan(listing, Scoped(cfg, s.catalogue)) <==>
      (key in Goal(cfg, start) && key in listing && !Settles(listing[key], cfg.head(key)))
  {
    var listing, goal := Effective(cfg, |cfg.pages|), Goal(cfg, start);
    SettledKey(cfg, start, s, key);
    var before, after := Decision(listing, Scoped(cfg, start), key), Decision(listing, Scoped(cfg, s.catalogue), key);
    if key in goal && key in listing {
      var row := s.catalogue[key].(id := goal[key].item.id);
      AppliedLooksChanged(listing[key], cfg.head(key), row);
      assert ObjectChanged(listing[key], row) == ObjectChanged(listing[key], s.catalogue[key]);
    }
  }

  /**
   Planning the same listing again, after everything took effect, asks exactly for the imported and
   refreshed objects whose listing fields are empty where the HEAD says something else.
   */
  lemma ReplanIsUnsettled(cfg: Config, start: map<Key, Local>, events: seq<Event>)
    requires FixedListing(cfg) && WellKept(start)
    requires Settled(Run(cfg, Initial(start), events))
    ensures var s, listing := Run(cfg, Initial(start), events), Effective(cfg, |cfg.pages|);
      Plan(listing, Scoped(cfg, s.catalogue)).Keys ==
        set key | key in Goal(cfg, start) && key in listing && !Settles(listing[key], cfg.head(key))
  {
    RunKeeps(cfg, start, events);
    forall key { ReplanKey(cfg, start, Run(cfg, Initial(start), events), key); }
  }

  /** What a refreshed object keeps, in every reachable state. */
  lemma RefreshKeepsTheRest(cfg: Config, start: map<Key, Local>, events: seq<Event>, key: Key)
    requires FixedListing(cfg) && WellKept(start)
    requires key in start && key in Effective(cfg, |cfg.pages|)
    ensures var s := Run(cfg, Initial(start), events);
      && key in s.catalogue
      && s.catalogue[key].id == start[key].id
      && s.catalogue[key].others == start[key].others
      && (start[key].firstSeen.Some? ==> s.catalogue[key].firstSeen == start[key].firstSeen)
  {
    var s := Run(cfg, Initial(start), events);
    RunKeeps(cfg, start, events);
    assert RowOk(cfg, start, s.catalogue, s.applied, key);
    EffectiveInScope(cfg, |cfg.pages|, key);
    var decision := Decision(Effective(cfg, |cfg.pages|), Scoped(cfg, start), key);
  }

  // ----- A listing that repeats keys -----

  function WholeListing(cfg: Config, pages: nat): seq<Listed>
    requires pages <= |cfg.pages|
  {
    if pages == 0 then [] else WholeListing(cfg, pages - 1) + PageListed(cfg, pages - 1)
  }

  lemma {:induction false} LastWinsAppend(first: seq<Listed>, second: seq<Listed>)
    ensures LastWins(first + second) == LastWins(first) + LastWins(second)
    decreases |second|
  {
    if second == [] {
      assert first + second == first;
    } else {
      var init, last := second[..|second| - 1], second[|second| - 1];
      calc {
        LastWins(first + second);
        { assert second == init + [last] && first + second == (first + init) + [last]; }
        LastWins((first + init) + [last]);
        { LastWinsSnoc(first + init, last); }
        LastWins(first + init)[last.key := last];
        { LastWinsAppend(first, init); }
        (LastWins(first) + LastWins(init))[last.key := last];
        LastWins(first) + LastWins(init)[last.key := last];
        { LastWinsSnoc(init, last); assert second == init + [last]; }
        LastWins(first) + LastWins(second);
      }
    }
  }

  lemma {:induction false} SameKeysListed(cfg: Config, pages: nat)
    requires pages <= |cfg.pages|
    ensures LastWins(WholeListing(cfg, pages)).Keys == Effective(cfg, pages).Keys
  {
    if pages > 0 {
      SameKeysListed(cfg, pages - 1);
      LastWinsAppend(WholeListing(cfg, pages - 1), PageListed(cfg, pages - 1));
    }
  }

  /**
   The planner's own one-shot input keeps the last occurrence of a key in the whole listing, the
   paged sync the last one of its first page. The finished children equal the one-shot plan of the
   whole listing exactly when these agree for every listed key.
   */
  lemma WholeListingPlan(cfg: Config, start: map<Key, Local>, events: seq<Event>)
    requires FixedListing(cfg) && WellKept(start)
    requires Run(cfg, Initial(start), events).worker.Done?
    ensures var whole := LastWins(WholeListing(cfg, |cfg.pages|));
      var planned := set e | e in AllEntries(Run(cfg, Initial(start), events).children);
      planned == Plan(whole, Scoped(cfg, start)).Values <==> whole == Effective(cfg, |cfg.pages|)
  {
    FinishedRunIsOneShot(cfg, start, events);
    SameKeysListed(cfg, |cfg.pages|);
    SamePlanValues(LastWins(WholeListing(cfg, |cfg.pages|)), Effective(cfg, |cfg.pages|), Scoped(cfg, start));
  }

  lemma SamePlanValues(first: map<Key, Listed>, second: map<Key, Listed>, locals: map<Key, Local>)
    requires Keyed(first) && Keyed(second) && first.Keys == second.Keys
    ensures Plan(first, locals).Values == Plan(second, locals).Values <==> first == second
  {
    PlanDeterminesListing(first, second, locals);
    PlanFromValues(Plan(first, locals), Plan(second, locals));
  }

  lemma PlanFromValues(first: map<Key, Entry>, second: map<Key, Entry>)
    requires KeyedPlan(first) && KeyedPlan(second)
    ensures first.Values == second.Values <==> first == second
  {
    if first.Values == second.Values {
      forall key | key in first ensures key in second && second[key] == first[key] {
        assert first[key] in second.Values;
      }
      forall key | key in second ensures key in first {
        assert second[key] in first.Values;
      }
    }
  }

  /** One page lists an object, the next one lists the same key. */
  function Repeated(first: Listed, second: Listed, head: Key -> map<string, Value>): Config {
    Config([Page([first], true, "next", ""), Page([second], false, "", "")], "", (key: Key) => true, head)
  }

  lemma RepeatedListing(first: Listed, second: Listed, head: Key -> map<string, Value>)
    requires first.key == second.key
    ensures var cfg := Repeated(first, second, head);
      && FixedListing(cfg) && |cfg.pages| == 2
      && Effective(cfg, 2) == map[first.key := first]
      && LastWins(WholeListing(cfg, 2)) == map[first.key := second]
  {
    var cfg := Repeated(first, second, head);
    assert Announces(cfg, 0);
    assert Filter(HasMatchingKey(cfg.matches), [first]) == [first] + Filter(HasMatchingKey(cfg.matches), []) by { assert [first][1..] == []; }
    assert Filter(HasMatchingKey(cfg.matches), [second]) == [second] + Filter(HasMatchingKey(cfg.matches), []) by { assert [second][1..] == []; }
    LastWinsSnoc([], first);
    LastWinsSnoc([first], second);
    LastWinsSnoc([], second);
    assert [] + [first] == [first] && [first] + [second] == [first, second] && [] + [second] == [second];
    assert LastWins([first]) == map[first.key := first] && LastWins([second]) == map[first.key := second];
    assert Effective(cfg, 0) == map[] && Effective(cfg, 1) == map[first.key := first] + map[];
    assert Effective(cfg, 2) == map[first.key := second] + map[first.key := first];
    assert WholeListing(cfg, 1) == [first] && WholeListing(cfg, 2) == [first] + [second];
  }

  /**
   Whenever two pages disagree about a key, whatever the catalogue and the run, the finished children
   follow the first page and are not the one-shot plan of the whole listing, which follows the second.
   */
  lemma ConflictingPagesDiffer(first: Listed, second: Listed, head: Key -> map<string, Value>, start: map<Key, Local>, events: seq<Event>)
    requires first.key == second.key && first != second && WellKept(start)
    requires Run(Repeated(first, second, head), Initial(start), events).worker.Done?
    ensures var cfg := Repeated(first, second, head);
      var planned := set e | e in AllEntries(Run(cfg, Initial(start), events).children);
      && planned == Plan(map[first.key := first], Scoped(cfg, start)).Values
      && planned != Plan(LastWins(WholeListing(cfg, 2)), Scoped(cfg, start)).Values
  {
    var cfg := Repeated(first, second, head);
    RepeatedListing(first, second, head);
    FinishedRunIsOneShot(cfg, start, events);
    WholeListingPlan(cfg, start, events);
    assert map[first.key := first][first.key] != map[first.key := second][first.key];
  }

  // ----- A run whose replan is not empty -----

  /** A bucket that holds one object. */
  function OneObject(u: Listed, head: Key -> map<string, Value>): Config {
    Config([Page([u], false, "", "")], "", (key: Key) => true, head)
  }

  function Imported(u: Listed, progress: Progress, worker: Worker): State {
    State(map[], {}, {u.key}, [Batch(Import, [EvidenceOf(u)])], {}, progress, worker)
  }

  lemma OneObjectIsListed(u: Listed, head: Key -> map<string, Value>)
    ensures var cfg := OneObject(u, head);
      && FixedListing(cfg) && |cfg.pages| == 1 && PageListed(cfg, 0) == [u]
      && Effective(cfg, 1) == map[u.key := u]
  {
    var cfg := OneObject(u, head);
    assert Filter(HasMatchingKey(cfg.matches), [u]) == [u] + Filter(HasMatchingKey(cfg.matches), []) by { assert [u][1..] == []; }
    LastWinsSnoc([], u);
    assert [] + [u] == [u] && Effective(cfg, 0) == map[];
    assert Effective(cfg, 1) == map[u.key := u] + map[];
  }

  lemma OneObjectIsPlanned(u: Listed)
    ensures PagePlan(map[], [u]) == map[u.key := Entry(Import, EvidenceOf(u))]
    ensures Enumerates([EvidenceOf(u)], Import, PagePlan(map[], [u])) && Enumerates([], Refresh, PagePlan(map[], [u]))
    ensures ToBatches(Import, [EvidenceOf(u)]) + ToBatches(Refresh, []) == [Batch(Import, [EvidenceOf(u)])]
    ensures LastWins([u]).Keys - ItemKeys([EvidenceOf(u)]) - ItemKeys([]) == {}
  {
    LastWinsSnoc([], u);
    assert [] + [u] == [u];
    assert Decision(map[u.key := u], map[], u.key) == Some(Entry(Import, EvidenceOf(u)));
    assert EvidenceOf(u) in [EvidenceOf(u)];
  }

  /** A run goes on by one event. */
  lemma GoesOn(cfg: Config, events: seq<Event>, before: State, event: Event, after: State) returns (more: seq<Event>)
    requires Run(cfg, Initial(map[]), events) == before && Apply(cfg, before, event) == after
    ensures Run(cfg, Initial(map[]), more) == after
  {
    more := events + [event];
    RunSnoc(cfg, Initial(map[]), events, event);
  }

  function Fresh(worker: Worker): State {
    Initial(map[]).(worker := worker)
  }

  lemma ListsOne(u: Listed, head: Key -> map<string, Value>)
    ensures var cfg := OneObject(u, head);
      && Apply(cfg, Initial(map[]), Start) == Fresh(Listing(0, 0, Counts(0, 0, 0)))
      && Apply(cfg, Fresh(Listing(0, 0, Counts(0, 0, 0))), FilterPage) == Fresh(Filtered(0, 1, Counts(0, 0, 0), [u]))
  {
    OneObjectIsListed(u, head);
    assert Without([u], {}) == [u] by { assert [u][1..] == []; }
  }

  lemma PlansOne(u: Listed, head: Key -> map<string, Value>)
    ensures Apply(OneObject(u, head), Fresh(Filtered(0, 1, Counts(0, 0, 0), [u])), ReadLocal([EvidenceOf(u)], []))
         == Fresh(Committing(0, 1, Counts(0, 0, 0), [Batch(Import, [EvidenceOf(u)])], {}))
  {
    OneObjectIsPlanned(u);
  }

  lemma CommitsOne(u: Listed, head: Key -> map<string, Value>)
    ensures Apply(OneObject(u, head), Fresh(Committing(0, 1, Counts(0, 0, 0), [Batch(Import, [EvidenceOf(u)])], {})), CommitBatch)
         == Imported(u, NO_PROGRESS, Committing(0, 1, Counts(1, 0, 0), [], {}))
  {
    var batch := Batch(Import, [EvidenceOf(u)]);
    assert ItemKeys([EvidenceOf(u)]) == {u.key} && {} + {u.key} == {u.key};
    assert [batch][1..] == [] && [] + [batch] == [batch];
    assert Initial(map[]).usedIds == {};
  }

  lemma CheckpointsOne(u: Listed, head: Key -> map<string, Value>)
    ensures var cfg, c := OneObject(u, head), Counts(1, 0, 0);
      var p := ListingFields("", "", 1, true, c);
      && Apply(cfg, Imported(u, NO_PROGRESS, Committing(0, 1, c, [], {})), SpillSettled) == Imported(u, NO_PROGRESS, Checkpointing(0, 1, c))
      && Apply(cfg, Imported(u, NO_PROGRESS, Checkpointing(0, 1, c)), SaveCheckpoint) == Imported(u, p, ListingDone(1, c))
      && Apply(cfg, Imported(u, p, ListingDone(1, c)), FinishListing) == Imported(u, p, Planning(1, c))
      && Apply(cfg, Imported(u, p, Planning(1, c)), SavePlanning) == Imported(u, p, Streaming(1, c))
  {
    assert {u.key} + {} == {u.key};
  }

  lemma RemovesNone(u: Listed, head: Key -> map<string, Value>, p: Progress)
    ensures var cfg, c := OneObject(u, head), Counts(1, 0, 0);
      && Apply(cfg, Imported(u, p, Streaming(1, c)), StreamRemovals([])) == Imported(u, p, Removing(1, c, []))
      && Apply(cfg, Imported(u, p, Removing(1, c, [])), Finish) == Imported(u, p, Done(1, c))
  {
    assert RemovalPlan(OneObject(u, head), map[], {u.key}) == map[];
    assert ToBatches(Remove, []) == [];
  }

  lemma OneObjectIsDone(u: Listed, head: Key -> map<string, Value>) returns (events: seq<Event>, p: Progress)
    ensures Run(OneObject(u, head), Initial(map[]), events) == Imported(u, p, Done(1, Counts(1, 0, 0)))
  {
    var cfg, b, c := OneObject(u, head), Counts(0, 0, 0), Counts(1, 0, 0);
    p := ListingFields("", "", 1, true, c);
    ListsOne(u, head);
    events := GoesOn(cfg, [], Initial(map[]), Start, Fresh(Listing(0, 0, b)));
    events := GoesOn(cfg, events, Fresh(Listing(0, 0, b)), FilterPage, Fresh(Filtered(0, 1, b, [u])));
    var queued := Fresh(Committing(0, 1, b, [Batch(Import, [EvidenceOf(u)])], {}));
    PlansOne(u, head);
    events := GoesOn(cfg, events, Fresh(Filtered(0, 1, b, [u])), ReadLocal([EvidenceOf(u)], []), queued);
    CommitsOne(u, head);
    events := GoesOn(cfg, events, queued, CommitBatch, Imported(u, NO_PROGRESS, Committing(0, 1, c, [], {})));
    events := Finishes(u, head, events);
  }

  lemma Finishes(u: Listed, head: Key -> map<string, Value>, committed: seq<Event>) returns (events: seq<Event>)
    requires Run(OneObject(u, head), Initial(map[]), committed) == Imported(u, NO_PROGRESS, Committing(0, 1, Counts(1, 0, 0), [], {}))
    ensures Run(OneObject(u, head), Initial(map[]), events)
         == Imported(u, ListingFields("", "", 1, true, Counts(1, 0, 0)), Done(1, Counts(1, 0, 0)))
  {
    var cfg, c := OneObject(u, head), Counts(1, 0, 0);
    var p := ListingFields("", "", 1, true, c);
    CheckpointsOne(u, head);
    RemovesNone(u, head, p);
    events := GoesOn(cfg, committed, Imported(u, NO_PROGRESS, Committing(0, 1, c, [], {})), SpillSettled,
                     Imported(u, NO_PROGRESS, Checkpointing(0, 1, c)));
    events := GoesOn(cfg, events, Imported(u, NO_PROGRESS, Checkpointing(0, 1, c)), SaveCheckpoint, Imported(u, p, ListingDone(1, c)));
    events := GoesOn(cfg, events, Imported(u, p, ListingDone(1, c)), FinishListing, Imported(u, p, Planning(1, c)));
    events := GoesOn(cfg, events, Imported(u, p, Planning(1, c)), SavePlanning, Imported(u, p, Streaming(1, c)));
    events := GoesOn(cfg, events, Imported(u, p, Streaming(1, c)), StreamRemovals([]), Imported(u, p, Removing(1, c, [])));
    events := GoesOn(cfg, events, Imported(u, p, Removing(1, c, [])), Finish, Imported(u, p, Done(1, c)));
  }

  /** From an empty catalogue a bucket of one object can be synced, and replanning it then asks for that object again or not. */
  lemma OneObjectReplan(u: Listed, head: Key -> map<string, Value>) returns (events: seq<Event>)
    ensures var cfg := OneObject(u, head);
      var s := Run(cfg, Initial(map[]), events);
      && FixedListing(cfg) && Settled(s)
      && Plan(Effective(cfg, 1), Scoped(cfg, s.catalogue)).Keys == if Settles(u, head(u.key)) then {} else {u.key}
  {
    var cfg := OneObject(u, head);
    var progress;
    events, progress := OneObjectIsDone(u, head);
    var before := Imported(u, progress, Done(1, Counts(1, 0, 0)));
    var effect := ApplyChild(0, map[u.key := "id"], "now");
    RunSnoc(cfg, Initial(map[]), events, effect);
    events := events + [effect];
    OneObjectIsListed(u, head);
    OneObjectSettles(u, cfg, before, effect);
    ReplanIsUnsettled(cfg, map[], events);
    assert Decision(map[u.key := u], map[], u.key) == Some(Entry(Import, EvidenceOf(u)));
    assert Scoped(cfg, map[]) == map[];
    assert Goal(cfg, map[]).Keys == {u.key};
  }

  lemma OneObjectSettles(u: Listed, cfg: Config, before: State, effect: Event)
    requires before == Imported(u, before.progress, Done(1, Counts(1, 0, 0)))
    requires effect == ApplyChild(0, map[u.key := "id"], "now")
    ensures Settled(Apply(cfg, before, effect))
  {
    assert ItemKeys([EvidenceOf(u)]) == {u.key} == map[u.key := "id"].Keys;
    AllEntriesOne(before.children[0]);
    assert Entries(before.children[0]) == [Entry(Import, EvidenceOf(u))];
    assert EntryKeys([Entry(Import, EvidenceOf(u))]) == {u.key};
  }

  /** An object listed without an ETag that a HEAD request has is planned again after every sync. */
  lemma ReplanIsNotAlwaysEmpty() returns (cfg: Config, events: seq<Event>)
    ensures FixedListing(cfg) && Settled(Run(cfg, Initial(map[]), events))
    ensures "a" in Plan(Effective(cfg, |cfg.pages|), Scoped(cfg, Run(cfg, Initial(map[]), events).catalogue))
  {
    var u, head := Listed("a", "", 1, "t", ""), (key: Key) => map["etag" := Text("e")];
    cfg := OneObject(u, head);
    events := OneObjectReplan(u, head);
    assert !Settles(u, head("a"));
  }
}
