/** What every run of the sync keeps, for every crash point and every interleaving of its children. */
module SyncSafety {
  import opened Values
  import opened Sequences
  import opened Evidence
  import opened Batching
  import opened MutationPlan
  import opened SyncProtocol

  // ----- The one-shot reference -----

  /** Per key, the last occurrence within the first page that lists it. */
  function Effective(cfg: Config, pages: nat): (listing: map<Key, Listed>)
    requires pages <= |cfg.pages|
    ensures Keyed(listing)
  {
    if pages == 0 then map[] else LastWins(PageListed(cfg, pages - 1)) + Effective(cfg, pages - 1)
  }

  function ListedCount(cfg: Config, pages: nat): nat
    requires pages <= |cfg.pages|
  {
    if pages == 0 then 0 else ListedCount(cfg, pages - 1) + |PageListed(cfg, pages - 1)|
  }

  function Scoped(cfg: Config, catalogue: map<Key, Local>): map<Key, Local> {
    map key | key in catalogue && InScope(cfg, key) :: catalogue[key]
  }

  /** The one-shot plan of the filtered listing against the starting in-scope catalogue. */
  function Goal(cfg: Config, start: map<Key, Local>): map<Key, Entry> {
    Plan(Effective(cfg, |cfg.pages|), Scoped(cfg, start))
  }

  ghost predicate Announces(cfg: Config, page: nat)
    requires page < |cfg.pages|
  {
    cfg.pages[page].truncated && !Stuck(cfg.pages[page])
  }

  /** The upstream serves a fixed chain of pages with distinct cursors and honours the prefix. */
  ghost predicate FixedListing(cfg: Config) {
    && |cfg.pages| > 0
    && (forall i :: 0 <= i < |cfg.pages| - 1 ==> Announces(cfg, i))
    && !Announces(cfg, |cfg.pages| - 1)
    && (forall i, j :: 0 <= i < j < |cfg.pages| - 1 ==>
          cfg.pages[i].nextToken != cfg.pages[j].nextToken || cfg.pages[i].nextMarker != cfg.pages[j].nextMarker)
    && (forall i, item :: 0 <= i < |cfg.pages| && item in cfg.pages[i].listed ==> cfg.prefix <= item.key)
  }

  ghost predicate WellKept(start: map<Key, Local>) {
    && (forall key :: key in start ==> start[key].id != "")
    && (forall a, b :: a in start && b in start && start[a].id == start[b].id ==> a == b)
  }

  // ----- The invariant -----

  ghost predicate KeysDiffer(entries: seq<Entry>) {
    forall i, j :: 0 <= i < j < |entries| ==> entries[i].item.key != entries[j].item.key
  }

  /** `entries` are exactly the planned mutations of the keys in `keys`, each once. */
  ghost predicate Fulfils(entries: seq<Entry>, goal: map<Key, Entry>, keys: set<Key>) {
    && KeysDiffer(entries)
    && (forall e :: e in entries ==> e.item.key in keys && e.item.key in goal && goal[e.item.key] == e)
    && (forall key :: key in goal && key in keys ==> goal[key] in entries)
  }

  /** Planned mutations still waiting to be committed. */
  ghost predicate Waiting(entries: seq<Entry>, goal: map<Key, Entry>, spill: set<Key>) {
    && KeysDiffer(entries)
    && (forall e :: e in entries ==> e.item.key !in spill && e.item.key in goal && goal[e.item.key] == e)
  }

  ghost function EntryKeys(entries: seq<Entry>): set<Key> {
    set e | e in entries :: e.item.key
  }

  ghost predicate SmallBatches(batches: seq<Batch>) {
    forall i :: 0 <= i < |batches| ==> 0 < |batches[i].items| <= CHILD_JOB_BATCH_SIZE
  }

  /** How the catalogue row of one key relates to the catalogue the run started from. */
  ghost predicate RowOk(cfg: Config, start: map<Key, Local>, catalogue: map<Key, Local>, applied: set<Key>, key: Key) {
    var goal := Goal(cfg, start);
    if key !in applied then Lookup(catalogue, key) == Lookup(start, key)
    else key in goal && Reflects(cfg, start, catalogue, key, goal[key])
  }

  /** The row of a key after its planned mutation took effect at least once. */
  ghost predicate Reflects(cfg: Config, start: map<Key, Local>, catalogue: map<Key, Local>, key: Key, entry: Entry) {
    match entry.kind
    case Remove => key !in catalogue
    case Import =>
      && key in catalogue && key !in start
      && catalogue[key].upstream == Some(WithEvidence(cfg.head(key), entry.item))
      && catalogue[key].id !in Initial(start).usedIds
    case Refresh =>
      && key in catalogue && key in start
      && catalogue[key].upstream == Some(WithEvidence(cfg.head(key), entry.item))
      && catalogue[key].id == start[key].id
      && catalogue[key].others == start[key].others
      && (start[key].firstSeen.Some? ==> catalogue[key].firstSeen == start[key].firstSeen)
  }

  ghost predicate RowsOk(cfg: Config, start: map<Key, Local>, catalogue: map<Key, Local>, applied: set<Key>) {
    forall key :: RowOk(cfg, start, catalogue, applied, key)
  }

  ghost predicate ChildrenOk(goal: map<Key, Entry>, children: seq<Batch>, spill: set<Key>, applied: set<Key>) {
    && Fulfils(AllEntries(children), goal, spill)
    && SmallBatches(children)
    && applied <= EntryKeys(AllEntries(children))
  }

  ghost predicate CountsWithin(a: Counts, b: Counts) {
    a.imports <= b.imports && a.refreshes <= b.refreshes && a.removes <= b.removes
  }

  ghost predicate CountsOk(children: seq<Batch>, progress: Progress, worker: Worker) {
    && CountsWithin(progress.counts, ChildCounts(children))
    && (worker.Down? || worker.counts == ChildCounts(children))
  }

  ghost predicate AllListed(cfg: Config, spill: set<Key>, listed: nat) {
    Effective(cfg, |cfg.pages|).Keys <= spill && listed == ListedCount(cfg, |cfg.pages|)
  }

  ghost predicate ListedUpTo(cfg: Config, spill: set<Key>, page: nat, listed: nat) {
    page < |cfg.pages| && Effective(cfg, page).Keys <= spill && listed == ListedCount(cfg, page)
  }

  ghost predicate CheckpointOk(cfg: Config, spill: set<Key>, progress: Progress) {
    var c := Decode(progress);
    if c.complete then AllListed(cfg, spill, c.listed) else ListedUpTo(cfg, spill, Locate(cfg, c.token, c.marker), c.listed)
  }

  ghost predicate QueueOk(goal: map<Key, Entry>, spill: set<Key>, queue: seq<Batch>) {
    Waiting(AllEntries(queue), goal, spill) && SmallBatches(queue)
  }

  ghost predicate AtPage(cfg: Config, page: nat, listed: nat) {
    page < |cfg.pages| && !Stuck(cfg.pages[page]) && listed == ListedCount(cfg, page + 1)
  }

  ghost predicate WorkerOk(cfg: Config, goal: map<Key, Entry>, spill: set<Key>, progress: Progress, worker: Worker) {
    match worker
    case Down => true
    case Listing(page, listed, _) => ListedUpTo(cfg, spill, page, listed)
    case Filtered(page, listed, _, pending) =>
      && AtPage(cfg, page, listed)
      && Effective(cfg, page).Keys <= spill
      && pending == Without(PageListed(cfg, page), spill)
    case Committing(page, listed, _, queue, settled) =>
      && AtPage(cfg, page, listed)
      && QueueOk(goal, spill, queue)
      && settled !! goal.Keys
      && Effective(cfg, page + 1).Keys <= spill + settled + EntryKeys(AllEntries(queue))
    case Checkpointing(page, listed, _) =>
      && AtPage(cfg, page, listed)
      && Effective(cfg, page + 1).Keys <= spill
    case ListingDone(listed, _) => AllListed(cfg, spill, listed)
    case Planning(listed, _) => AllListed(cfg, spill, listed) && Decode(progress).complete
    case Streaming(listed, _) => AllListed(cfg, spill, listed) && Decode(progress).complete
    case Removing(listed, _, queue) =>
      && AllListed(cfg, spill, listed) && Decode(progress).complete
      && QueueOk(goal, spill, queue)
      && goal.Keys <= spill + EntryKeys(AllEntries(queue))
    case Done(listed, _) => AllListed(cfg, spill, listed) && Decode(progress).complete && goal.Keys <= spill
  }

  ghost predicate Inv(cfg: Config, start: map<Key, Local>, s: State) {
    && RowsOk(cfg, start, s.catalogue, s.applied)
    && Initial(start).usedIds <= s.usedIds
    && ChildrenOk(Goal(cfg, start), s.children, s.spill, s.applied)
    && CountsOk(s.children, s.progress, s.worker)
    && CheckpointOk(cfg, s.spill, s.progress)
    && WorkerOk(cfg, Goal(cfg, start), s.spill, s.progress, s.worker)
  }

  // ----- Batches and entries -----

  lemma {:induction false} AllEntriesAppend(first: seq<Batch>, second: seq<Batch>)
    ensures AllEntries(first + second) == AllEntries(first) + AllEntries(second)
  {
    if first == [] {
      assert first + second == second;
    } else {
      assert (first + second)[1..] == first[1..] + second;
      AllEntriesAppend(first[1..], second);
    }
  }

  lemma AllEntriesOne(batch: Batch)
    ensures AllEntries([batch]) == Entries(batch)
  {
    assert AllEntries([batch][1..]) == [];
  }

  lemma {:induction false} ToBatchesEntries(kind: Kind, items: seq<Mutated>)
    ensures AllEntries(ToBatches(kind, items)) == Entries(Batch(kind, items))
    ensures SmallBatches(ToBatches(kind, items))
    decreases |items|
  {
    ChunkIsExact(items, CHILD_JOB_BATCH_SIZE);
    var batches := ToBatches(kind, items);
    if items == [] {
    } else if |items| <= CHILD_JOB_BATCH_SIZE {
      assert batches == [Batch(kind, items)];
      AllEntriesOne(Batch(kind, items));
    } else {
      var rest := items[CHILD_JOB_BATCH_SIZE..];
      ToBatchesEntries(kind, rest);
      assert batches[0] == Batch(kind, items[..CHILD_JOB_BATCH_SIZE]);
      assert batches[1..] == ToBatches(kind, rest);
    }
  }

  lemma KeysOfEntries(batch: Batch)
    ensures ItemKeys(batch.items) == EntryKeys(Entries(batch))
  {
    var entries := Entries(batch);
    forall key ensures key in ItemKeys(batch.items) <==> key in EntryKeys(entries) {
      if key in ItemKeys(batch.items) {
        var i :| 0 <= i < |batch.items| && batch.items[i].key == key;
        assert entries[i] in entries;
      }
      if key in EntryKeys(entries) {
        var i :| 0 <= i < |entries| && entries[i].item.key == key;
        assert batch.items[i] in batch.items;
      }
    }
  }

  /** Committing the next waiting batch fulfils its keys and leaves the rest waiting. */
  lemma CommitFulfils(done: seq<Entry>, next: seq<Entry>, rest: seq<Entry>, goal: map<Key, Entry>, spill: set<Key>)
    requires Fulfils(done, goal, spill)
    requires Waiting(next + rest, goal, spill)
    ensures Fulfils(done + next, goal, spill + EntryKeys(next))
    ensures Waiting(rest, goal, spill + EntryKeys(next))
  {
    var all := next + rest;
    forall i | 0 <= i < |next| ensures next[i] in all && next[i] == all[i] {}
    forall i | 0 <= i < |rest| ensures rest[i] in all && rest[i] == all[|next| + i] {}
    assert KeysDiffer(next) && KeysDiffer(rest);
    assert KeysDiffer(done + next) by {
      forall i, j | 0 <= i < j < |done + next|
        ensures (done + next)[i].item.key != (done + next)[j].item.key
      {
        if i < |done| <= j {
          assert done[i] in done && next[j - |done|] in next;
        }
      }
    }
    forall key | key in goal && key in spill + EntryKeys(next) ensures goal[key] in done + next {
      if key !in spill {
        var e :| e in next && e.item.key == key;
        assert e in all;
      }
    }
    forall e | e in rest ensures e.item.key !in EntryKeys(next) {
      var i :| 0 <= i < |rest| && rest[i] == e;
    }
  }

  lemma EntryKeysAppend(first: seq<Entry>, second: seq<Entry>)
    ensures EntryKeys(first + second) == EntryKeys(first) + EntryKeys(second)
  {
  }

  // ----- The listing -----

  lemma {:induction false} LocateFromNext(cfg: Config, page: nat, from: nat)
    requires FixedListing(cfg) && from <= page < |cfg.pages| - 1
    ensures LocateFrom(cfg, cfg.pages[page].nextToken, cfg.pages[page].nextMarker, from) == page + 1
    decreases page - from
  {
    assert Announces(cfg, page) && Announces(cfg, from);
    if from < page {
      LocateFromNext(cfg, page, from + 1);
    }
  }

  lemma LocateNext(cfg: Config, page: nat)
    requires FixedListing(cfg) && page < |cfg.pages| && Announces(cfg, page)
    ensures page < |cfg.pages| - 1
    ensures Locate(cfg, cfg.pages[page].nextToken, cfg.pages[page].nextMarker) == page + 1
  {
    LocateFromNext(cfg, page, 0);
  }

  lemma {:induction false} FilterListedMembers(listed: seq<Listed>, matches: Key -> bool, item: Listed)
    ensures item in Filter(HasMatchingKey(matches), listed) <==> item in listed && matches(item.key)
  {
    if listed != [] {
      FilterListedMembers(listed[1..], matches, item);
    }
  }

  lemma {:induction false} EffectiveInScope(cfg: Config, pages: nat, key: Key)
    requires FixedListing(cfg) && pages <= |cfg.pages|
    requires key in Effective(cfg, pages)
    ensures InScope(cfg, key)
  {
    var page := LastWins(PageListed(cfg, pages - 1));
    if key in Effective(cfg, pages - 1) {
      EffectiveInScope(cfg, pages - 1, key);
    } else {
      LastWinsMembers(PageListed(cfg, pages - 1));
      FilterListedMembers(cfg.pages[pages - 1].listed, cfg.matches, page[key]);
    }
  }

  lemma {:induction false} EffectiveGrows(cfg: Config, few: nat, many: nat)
    requires few <= many <= |cfg.pages|
    ensures Effective(cfg, few).Keys <= Effective(cfg, many).Keys
    ensures forall key :: key in Effective(cfg, few) ==> Effective(cfg, many)[key] == Effective(cfg, few)[key]
    decreases many - few
  {
    if few < many {
      EffectiveGrows(cfg, few, many - 1);
      var last, before := LastWins(PageListed(cfg, many - 1)), Effective(cfg, many - 1);
      assert Effective(cfg, many) == last + before;
    }
  }

  // ----- Steps -----

  /** A key that has not been spilled still has the row the run started from. */
  lemma UnspilledRow(cfg: Config, start: map<Key, Local>, s: State, key: Key)
    requires Inv(cfg, start, s) && key !in s.spill
    ensures Lookup(s.catalogue, key) == Lookup(start, key)
  {
    assert RowOk(cfg, start, s.catalogue, s.applied, key);
  }

  lemma StartKeeps(cfg: Config, start: map<Key, Local>, s: State)
    requires Inv(cfg, start, s)
    ensures Inv(cfg, start, Apply(cfg, s, Start))
  {
  }

  lemma FilterPageKeeps(cfg: Config, start: map<Key, Local>, s: State)
    requires Inv(cfg, start, s)
    ensures Inv(cfg, start, Apply(cfg, s, FilterPage))
  {
    if s.worker.Listing? {
      var page := s.worker.page;
      if !Stuck(cfg.pages[page]) && PageListed(cfg, page) == [] {
        assert LastWins([]) == map[];
        assert Effective(cfg, page + 1).Keys == Effective(cfg, page).Keys;
      }
    }
  }

  /** A key first listed on a page keeps, in the whole listing, what that page says of it. */
  lemma FirstListing(cfg: Config, page: nat, key: Key)
    requires FixedListing(cfg) && page < |cfg.pages|
    requires key in LastWins(PageListed(cfg, page)) && key !in Effective(cfg, page)
    ensures key in Effective(cfg, |cfg.pages|) && InScope(cfg, key)
    ensures Effective(cfg, |cfg.pages|)[key] == LastWins(PageListed(cfg, page))[key]
  {
    assert key in Effective(cfg, page + 1) && Effective(cfg, page + 1)[key] == LastWins(PageListed(cfg, page))[key];
    EffectiveGrows(cfg, page + 1, |cfg.pages|);
    EffectiveInScope(cfg, |cfg.pages|, key);
  }

  lemma SameDecision(listing: map<Key, Listed>, locals: map<Key, Local>, listing': map<Key, Listed>, locals': map<Key, Local>, key: Key)
    requires Lookup(listing, key) == Lookup(listing', key) && Lookup(locals, key) == Lookup(locals', key)
    ensures Lookup(Plan(listing, locals), key) == Lookup(Plan(listing', locals'), key)
  {
    assert Decision(listing, locals, key) == Decision(listing', locals', key);
  }

  /** What the executor plans for a page's pending keys is what the one-shot plan says of them. */
  lemma PagePlanAgrees(cfg: Config, start: map<Key, Local>, s: State, key: Key)
    requires FixedListing(cfg) && Inv(cfg, start, s) && s.worker.Filtered?
    requires key in LastWins(s.worker.pending)
    ensures key !in s.spill
    ensures Lookup(PagePlan(s.catalogue, s.worker.pending), key) == Lookup(Goal(cfg, start), key)
  {
    var byKey := LastWins(s.worker.pending);
    LastWinsWithout(PageListed(cfg, s.worker.page), s.spill);
    UnspilledRow(cfg, start, s, key);
    FirstListing(cfg, s.worker.page, key);
    SameDecision(byKey, RowsFor(s.catalogue, byKey.Keys), Effective(cfg, |cfg.pages|), Scoped(cfg, start), key);
  }

  lemma EnumeratedWaits(items: seq<Mutated>, kind: Kind, plan: map<Key, Entry>)
    requires Enumerates(items, kind, plan) && KeyedPlan(plan)
    ensures Waiting(Entries(Batch(kind, items)), plan, {})
    ensures EntryKeys(Entries(Batch(kind, items))) == ItemKeys(items)
    ensures ItemKeys(items) == set key | key in plan && plan[key].kind == kind
  {
    var entries := Entries(Batch(kind, items));
    forall e | e in entries ensures e.item in items && e.kind == kind {
      var i :| 0 <= i < |entries| && entries[i] == e;
    }
    KeysOfEntries(Batch(kind, items));
    forall key | key in plan && plan[key].kind == kind ensures key in ItemKeys(items) {
      var i :| 0 <= i < |items| && items[i] == plan[key].item;
      assert plan[items[i].key] == Entry(kind, items[i]);
    }
  }

  lemma PagePlanned(cfg: Config, start: map<Key, Local>, s: State)
    requires FixedListing(cfg) && Inv(cfg, start, s) && s.worker.Filtered?
    ensures KeyedPlan(PagePlan(s.catalogue, s.worker.pending))
    ensures PagePlan(s.catalogue, s.worker.pending).Keys <= LastWins(s.worker.pending).Keys
    ensures forall key :: key in PagePlan(s.catalogue, s.worker.pending) ==>
              PagePlan(s.catalogue, s.worker.pending)[key].kind != Remove
    ensures forall key :: key in LastWins(s.worker.pending) ==>
              key !in s.spill && Lookup(PagePlan(s.catalogue, s.worker.pending), key) == Lookup(Goal(cfg, start), key)
    ensures Effective(cfg, s.worker.page + 1).Keys <= s.spill + LastWins(s.worker.pending).Keys
  {
    var page, pending := s.worker.page, s.worker.pending;
    var byKey := LastWins(pending);
    LastWinsWithout(PageListed(cfg, page), s.spill);
    assert byKey.Keys == LastWins(PageListed(cfg, page)).Keys - s.spill;
    PlanIsKeyed(byKey, RowsFor(s.catalogue, byKey.Keys));
    forall key | key in byKey
      ensures key !in s.spill && Lookup(PagePlan(s.catalogue, pending), key) == Lookup(Goal(cfg, start), key)
    {
      PagePlanAgrees(cfg, start, s, key);
    }
  }

  /** Two lists enumerating the import and refresh parts of a plan make a waiting queue. */
  lemma PlanWaits(goal: map<Key, Entry>, spill: set<Key>, plan: map<Key, Entry>,
                  imports: seq<Mutated>, refreshes: seq<Mutated>)
    requires KeyedPlan(plan) && Enumerates(imports, Import, plan) && Enumerates(refreshes, Refresh, plan)
    requires forall key :: key in plan ==> key !in spill && Lookup(plan, key) == Lookup(goal, key)
    ensures QueueOk(goal, spill, ToBatches(Import, imports) + ToBatches(Refresh, refreshes))
    ensures EntryKeys(AllEntries(ToBatches(Import, imports) + ToBatches(Refresh, refreshes)))
         == ItemKeys(imports) + ItemKeys(refreshes)
  {
    var first, second := Entries(Batch(Import, imports)), Entries(Batch(Refresh, refreshes));
    ToBatchesEntries(Import, imports);
    ToBatchesEntries(Refresh, refreshes);
    AllEntriesAppend(ToBatches(Import, imports), ToBatches(Refresh, refreshes));
    EnumeratedWaits(imports, Import, plan);
    EnumeratedWaits(refreshes, Refresh, plan);
    EntryKeysAppend(first, second);
    JoinedWaits(goal, spill, plan, first, second);
  }

  lemma JoinedWaits(goal: map<Key, Entry>, spill: set<Key>, plan: map<Key, Entry>, imports: seq<Entry>, refreshes: seq<Entry>)
    requires Waiting(imports, plan, {}) && Waiting(refreshes, plan, {})
    requires forall i :: 0 <= i < |imports| ==> imports[i].kind == Import
    requires forall i :: 0 <= i < |refreshes| ==> refreshes[i].kind == Refresh
    requires forall key :: key in plan ==> key !in spill && Lookup(plan, key) == Lookup(goal, key)
    ensures Waiting(imports + refreshes, goal, spill)
  {
    var all := imports + refreshes;
    forall i, j | 0 <= i < j < |all| ensures all[i].item.key != all[j].item.key {
      if i < |imports| <= j {
        assert all[i] in imports && all[j] in refreshes;
      }
    }
    forall e | e in all ensures e.item.key !in spill && e.item.key in goal && goal[e.item.key] == e {
      assert e in imports || e in refreshes;
      assert Lookup(plan, e.item.key) == Lookup(goal, e.item.key);
    }
  }

  lemma ReadLocalKeeps(cfg: Config, start: map<Key, Local>, s: State, imports: seq<Mutated>, refreshes: seq<Mutated>)
    requires FixedListing(cfg) && Inv(cfg, start, s)
    ensures Inv(cfg, start, Apply(cfg, s, ReadLocal(imports, refreshes)))
  {
    if s.worker.Filtered? {
      var plan, byKey, goal := PagePlan(s.catalogue, s.worker.pending), LastWins(s.worker.pending), Goal(cfg, start);
      PagePlanned(cfg, start, s);
      if s.worker.pending == [] {
        assert byKey == map[];
      } else if PlanPage(s, imports, refreshes) != s.worker {
        PlanWaits(goal, s.spill, plan, imports, refreshes);
        EnumeratedWaits(imports, Import, plan);
        EnumeratedWaits(refreshes, Refresh, plan);
        var settled := byKey.Keys - ItemKeys(imports) - ItemKeys(refreshes);
        forall key | key in settled ensures key !in goal {
          assert Lookup(plan, key) == Lookup(goal, key);
        }
      }
    }
  }

  lemma CommitKeeps(cfg: Config, start: map<Key, Local>, s: State)
    requires Inv(cfg, start, s)
    ensures Inv(cfg, start, Apply(cfg, s, CommitBatch))
  {
    if (s.worker.Committing? || s.worker.Removing?) && s.worker.queue != [] {
      var goal, queue := Goal(cfg, start), s.worker.queue;
      QueueHeadCommits(goal, s.children, s.spill, s.applied, queue);
      ChildCounted(s.children, queue[0]);
      SpillGrows(cfg, s.spill, s.progress, ItemKeys(queue[0].items));
      WorkerCommits(cfg, goal, s.spill, s.progress, s.worker, Charge(s.worker.counts, queue[0]));
    }
  }

  lemma ChildCounted(children: seq<Batch>, batch: Batch)
    ensures ChildCounts(children + [batch]) == Charge(ChildCounts(children), batch)
    ensures CountsWithin(ChildCounts(children), ChildCounts(children + [batch]))
  {
    assert (children + [batch])[..|children|] == children;
  }

  lemma SpillGrows(cfg: Config, spill: set<Key>, progress: Progress, more: set<Key>)
    requires CheckpointOk(cfg, spill, progress)
    ensures CheckpointOk(cfg, spill + more, progress)
  {
  }

  lemma WorkerCommits(cfg: Config, goal: map<Key, Entry>, spill: set<Key>, progress: Progress, worker: Worker, counts: Counts)
    requires worker.Committing? || worker.Removing?
    requires WorkerOk(cfg, goal, spill, progress, worker) && worker.queue != []
    requires QueueOk(goal, spill + ItemKeys(worker.queue[0].items), worker.queue[1..])
    requires EntryKeys(AllEntries(worker.queue)) == ItemKeys(worker.queue[0].items) + EntryKeys(AllEntries(worker.queue[1..]))
    ensures WorkerOk(cfg, goal, spill + ItemKeys(worker.queue[0].items), progress,
                     if worker.Committing? then Committing(worker.page, worker.listed, counts, worker.queue[1..], worker.settled)
                     else Removing(worker.listed, counts, worker.queue[1..]))
  {
  }

  lemma QueueHeadCommits(goal: map<Key, Entry>, children: seq<Batch>, spill: set<Key>, applied: set<Key>, queue: seq<Batch>)
    requires ChildrenOk(goal, children, spill, applied) && QueueOk(goal, spill, queue) && queue != []
    ensures ChildrenOk(goal, children + [queue[0]], spill + ItemKeys(queue[0].items), applied)
    ensures QueueOk(goal, spill + ItemKeys(queue[0].items), queue[1..])
    ensures EntryKeys(AllEntries(queue)) == ItemKeys(queue[0].items) + EntryKeys(AllEntries(queue[1..]))
  {
    var batch, rest := queue[0], AllEntries(queue[1..]);
    KeysOfEntries(batch);
    AllEntriesAppend(children, [batch]);
    AllEntriesOne(batch);
    CommitFulfils(AllEntries(children), Entries(batch), rest, goal, spill);
    EntryKeysAppend(Entries(batch), rest);
    EntryKeysAppend(AllEntries(children), Entries(batch));
  }

  lemma SpillSettledKeeps(cfg: Config, start: map<Key, Local>, s: State)
    requires Inv(cfg, start, s)
    ensures Inv(cfg, start, Apply(cfg, s, SpillSettled))
  {
    if s.worker.Committing? && s.worker.queue == [] {
      UnplannedSpills(Goal(cfg, start), s.children, s.spill, s.applied, s.worker.settled);
      SpillGrows(cfg, s.spill, s.progress, s.worker.settled);
      assert EntryKeys(AllEntries(s.worker.queue)) == {};
    }
  }

  lemma UnplannedSpills(goal: map<Key, Entry>, children: seq<Batch>, spill: set<Key>, applied: set<Key>, settled: set<Key>)
    requires ChildrenOk(goal, children, spill, applied) && settled !! goal.Keys
    ensures ChildrenOk(goal, children, spill + settled, applied)
  {
  }

  lemma SaveCheckpointKeeps(cfg: Config, start: map<Key, Local>, s: State)
    requires FixedListing(cfg) && Inv(cfg, start, s)
    ensures Inv(cfg, start, Apply(cfg, s, SaveCheckpoint))
  {
    if s.worker.Checkpointing? {
      PageCheckpointed(cfg, s.spill, s.worker.page, s.worker.listed, s.worker.counts);
      assert Apply(cfg, s, SaveCheckpoint) == Checkpointed(cfg, s);
    }
  }

  lemma PageCheckpointed(cfg: Config, spill: set<Key>, page: nat, listed: nat, counts: Counts)
    requires FixedListing(cfg) && AtPage(cfg, page, listed) && Effective(cfg, page + 1).Keys <= spill
    ensures var p := cfg.pages[page];
      && CheckpointOk(cfg, spill, ListingFields(p.nextToken, p.nextMarker, listed, !p.truncated, counts))
      && (if p.truncated then ListedUpTo(cfg, spill, Locate(cfg, p.nextToken, p.nextMarker), listed)
          else AllListed(cfg, spill, listed))
  {
    var p := cfg.pages[page];
    DecodeListing(p.nextToken, p.nextMarker, listed, !p.truncated, counts);
    if p.truncated {
      LocateNext(cfg, page);
    } else {
      LastPage(cfg, page);
    }
  }

  lemma DecodeListing(token: string, marker: string, listed: nat, complete: bool, counts: Counts)
    ensures Decode(ListingFields(token, marker, listed, complete, counts)) == Checkpoint(token, marker, listed, complete)
  {
  }

  lemma LastPage(cfg: Config, page: nat)
    requires FixedListing(cfg) && page < |cfg.pages| && !cfg.pages[page].truncated
    ensures page + 1 == |cfg.pages|
  {
    assert page < |cfg.pages| - 1 ==> Announces(cfg, page);
  }

  lemma ProgressKeeps(cfg: Config, start: map<Key, Local>, s: State, event: Event)
    requires Inv(cfg, start, s)
    requires event.FinishListing? || event.SavePlanning? || event.Finish? || event.Crash?
    ensures Inv(cfg, start, Apply(cfg, s, event))
  {
    var t := Apply(cfg, s, event);
    assert t.catalogue == s.catalogue && t.spill == s.spill && t.children == s.children && t.applied == s.applied;
    if s.worker.Planning? || s.worker.ListingDone? {
      CompleteFields(cfg, s.spill, s.progress, s.worker.listed, s.worker.counts);
    } else if s.worker.Removing? && s.worker.queue == [] {
      assert EntryKeys(AllEntries(s.worker.queue)) == {};
    }
  }

  lemma CompleteFields(cfg: Config, spill: set<Key>, progress: Progress, listed: nat, counts: Counts)
    requires CheckpointOk(cfg, spill, progress) && AllListed(cfg, spill, listed)
    ensures CheckpointOk(cfg, spill, ListingFields("", "", listed, true, counts))
    ensures Decode(progress).complete ==>
              CheckpointOk(cfg, spill, PlanningFields(progress, listed, counts)) && Decode(PlanningFields(progress, listed, counts)).complete
  {
  }

  lemma StreamRemovalsKeeps(cfg: Config, start: map<Key, Local>, s: State, removes: seq<Mutated>)
    requires FixedListing(cfg) && Inv(cfg, start, s)
    ensures Inv(cfg, start, Apply(cfg, s, StreamRemovals(removes)))
  {
    var plan, goal := RemovalPlan(cfg, s.catalogue, s.spill), Goal(cfg, start);
    if s.worker.Streaming? && Enumerates(removes, Remove, plan) {
      forall key | key !in s.spill ensures Lookup(plan, key) == Lookup(goal, key) {
        UnspilledRow(cfg, start, s, key);
      }
      RemovalsWait(goal, s.spill, plan, removes);
    }
  }

  lemma RemovalsWait(goal: map<Key, Entry>, spill: set<Key>, plan: map<Key, Entry>, removes: seq<Mutated>)
    requires KeyedPlan(plan) && Enumerates(removes, Remove, plan)
    requires forall key :: key in plan ==> key !in spill && plan[key].kind == Remove
    requires forall key :: key !in spill ==> Lookup(plan, key) == Lookup(goal, key)
    ensures QueueOk(goal, spill, ToBatches(Remove, removes))
    ensures goal.Keys <= spill + EntryKeys(AllEntries(ToBatches(Remove, removes)))
  {
    EnumeratedWaits(removes, Remove, plan);
    ToBatchesEntries(Remove, removes);
    var entries := Entries(Batch(Remove, removes));
    forall e | e in entries ensures e.item.key !in spill && e.item.key in goal && goal[e.item.key] == e {
      assert Lookup(plan, e.item.key) == Lookup(goal, e.item.key);
    }
    forall key | key in goal && key !in spill ensures key in EntryKeys(entries) {
      assert Lookup(plan, key) == Lookup(goal, key);
    }
  }

  // ----- Children taking effect -----

  lemma {:induction false} ChildEntries(children: seq<Batch>, child: nat, item: Mutated)
    requires child < |children| && item in children[child].items
    ensures Entry(children[child].kind, item) in AllEntries(children)
  {
    if child == 0 {
      var i :| 0 <= i < |children[0].items| && children[0].items[i] == item;
      assert Entries(children[0])[i] in AllEntries(children);
    } else {
      ChildEntries(children[1..], child - 1, item);
    }
  }

  /** The planned entry of every key a child carries, and where the key stood at the start. */
  lemma ChildItem(cfg: Config, start: map<Key, Local>, s: State, child: nat, item: Mutated)
    requires FixedListing(cfg) && Inv(cfg, start, s)
    requires child < |s.children| && item in s.children[child].items
    ensures item.key in Goal(cfg, start) && Goal(cfg, start)[item.key] == Entry(s.children[child].kind, item)
    ensures item.key in EntryKeys(AllEntries(s.children)) && InScope(cfg, item.key)
    ensures match s.children[child].kind
            case Import => item.key !in start
            case Refresh => item.key in start
            case Remove => item.key in start && item.id == start[item.key].id
  {
    var listing, key := Effective(cfg, |cfg.pages|), item.key;
    ChildEntries(s.children, child, item);
    if key in listing {
      EffectiveInScope(cfg, |cfg.pages|, key);
    }
    assert Decision(listing, Scoped(cfg, start), key) == Some(Entry(s.children[child].kind, item));
  }

  lemma UpsertReflects(cfg: Config, start: map<Key, Local>, s: State, child: nat, key: Key, newId: string, seenAt: string)
    requires FixedListing(cfg) && Inv(cfg, start, s)
    requires child < |s.children| && s.children[child].kind != Remove && key in ItemKeys(s.children[child].items)
    requires newId !in s.usedIds
    ensures var item := FindItem(s.children[child].items, key);
      && key in Goal(cfg, start) && Goal(cfg, start)[key] == Entry(s.children[child].kind, item)
      && forall catalogue: map<Key, Local> | key in catalogue
           && catalogue[key] == Upsert(Lookup(s.catalogue, key), newId, seenAt, WithEvidence(cfg.head(key), item)) ::
             Reflects(cfg, start, catalogue, key, Goal(cfg, start)[key])
  {
    var item := FindItem(s.children[child].items, key);
    ChildItem(cfg, start, s, child, item);
    assert RowOk(cfg, start, s.catalogue, s.applied, key);
  }

  lemma UpsertKeeps(cfg: Config, start: map<Key, Local>, s: State, child: nat, ids: map<Key, string>, seenAt: string)
    requires FixedListing(cfg) && Inv(cfg, start, s)
    requires child < |s.children| && s.children[child].kind != Remove
    ensures Inv(cfg, start, TakeEffect(cfg, s, s.children[child], ids, seenAt))
  {
    var t, keys := TakeEffect(cfg, s, s.children[child], ids, seenAt), ItemKeys(s.children[child].items);
    if ids.Keys == keys && ids.Values !! s.usedIds {
      forall key ensures RowOk(cfg, start, t.catalogue, t.applied, key) {
        assert RowOk(cfg, start, s.catalogue, s.applied, key);
        if key in keys {
          assert ids[key] in ids.Values;
          UpsertReflects(cfg, start, s, child, key, ids[key], seenAt);
        }
      }
      forall key | key in keys ensures key in EntryKeys(AllEntries(s.children)) {
        ChildItem(cfg, start, s, child, FindItem(s.children[child].items, key));
      }
    }
  }

  /** Deleting by object id removes exactly the keys the child carries. */
  lemma RemoveIsExact(cfg: Config, start: map<Key, Local>, s: State, child: nat, key: Key)
    requires FixedListing(cfg) && WellKept(start) && Inv(cfg, start, s)
    requires child < |s.children| && s.children[child].kind == Remove
    ensures var gone := set item | item in s.children[child].items && item.id != "" :: item.id;
      key in s.catalogue ==> (s.catalogue[key].id in gone <==> key in ItemKeys(s.children[child].items))
  {
    var items := s.children[child].items;
    var gone := set item | item in items && item.id != "" :: item.id;
    assert RowOk(cfg, start, s.catalogue, s.applied, key);
    if key in s.catalogue {
      if key in ItemKeys(items) {
        var item := FindItem(items, key);
        ChildItem(cfg, start, s, child, item);
        assert item.id in gone;
      }
      if s.catalogue[key].id in gone {
        var item :| item in items && item.id == s.catalogue[key].id;
        ChildItem(cfg, start, s, child, item);
        assert start[item.key].id in Initial(start).usedIds;
      }
    }
  }

  lemma RemoveKeeps(cfg: Config, start: map<Key, Local>, s: State, child: nat, ids: map<Key, string>, seenAt: string)
    requires FixedListing(cfg) && WellKept(start) && Inv(cfg, start, s)
    requires child < |s.children| && s.children[child].kind == Remove
    ensures Inv(cfg, start, TakeEffect(cfg, s, s.children[child], ids, seenAt))
  {
    var t, items := TakeEffect(cfg, s, s.children[child], ids, seenAt), s.children[child].items;
    forall key ensures RowOk(cfg, start, t.catalogue, t.applied, key) {
      assert RowOk(cfg, start, s.catalogue, s.applied, key);
      RemoveIsExact(cfg, start, s, child, key);
      if key in ItemKeys(items) {
        ChildItem(cfg, start, s, child, FindItem(items, key));
      }
    }
    forall key | key in ItemKeys(items) ensures key in EntryKeys(AllEntries(s.children)) {
      ChildItem(cfg, start, s, child, FindItem(items, key));
    }
  }

  // ----- Every run -----

  lemma StepKeeps(cfg: Config, start: map<Key, Local>, s: State, event: Event)
    requires FixedListing(cfg) && WellKept(start) && Inv(cfg, start, s)
    ensures Inv(cfg, start, Apply(cfg, s, event))
  {
    match event
    case Start => StartKeeps(cfg, start, s);
    case FilterPage => FilterPageKeeps(cfg, start, s);
    case ReadLocal(imports, refreshes) => ReadLocalKeeps(cfg, start, s, imports, refreshes);
    case CommitBatch => CommitKeeps(cfg, start, s);
    case SpillSettled => SpillSettledKeeps(cfg, start, s);
    case SaveCheckpoint => SaveCheckpointKeeps(cfg, start, s);
    case StreamRemovals(removes) => StreamRemovalsKeeps(cfg, start, s, removes);
    case ApplyChild(child, ids, seenAt) =>
      if child < |s.children| {
        if s.children[child].kind == Remove {
          RemoveKeeps(cfg, start, s, child, ids, seenAt);
        } else {
          UpsertKeeps(cfg, start, s, child, ids, seenAt);
        }
      }
    case _ => ProgressKeeps(cfg, start, s, event);
  }

  lemma InitialHolds(cfg: Config, start: map<Key, Local>)
    requires FixedListing(cfg)
    ensures Inv(cfg, start, Initial(start))
  {
    assert RowsOk(cfg, start, start, {}) by {
      forall key ensures RowOk(cfg, start, start, {}, key) {}
    }
  }

  lemma {:induction false} RunKeeps(cfg: Config, start: map<Key, Local>, events: seq<Event>)
    requires FixedListing(cfg) && WellKept(start)
    ensures Inv(cfg, start, Run(cfg, Initial(start), events))
  {
    if events == [] {
      InitialHolds(cfg, start);
    } else {
      RunKeeps(cfg, start, events[..|events| - 1]);
      StepKeeps(cfg, start, Run(cfg, Initial(start), events[..|events| - 1]), events[|events| - 1]);
    }
  }
}
