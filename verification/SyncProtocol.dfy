/**
 The bucket sync as a state machine. Every event is one database commit or one read of the
 executor, a crash of the executor, or a child job taking effect; `Apply` is total and leaves the
 state alone when the event is not enabled, so a run is any sequence of events whatsoever.
 */
module SyncProtocol {
  import opened Values
  import opened Sequences
  import opened Evidence
  import opened Batching
  import opened MutationPlan

  const CHILD_JOB_BATCH_SIZE := 100

  datatype Page = Page(listed: seq<Listed>, truncated: bool, nextToken: string, nextMarker: string)

  /**
   What stays fixed during a run: the pages the upstream returns, the effective list prefix, the
   partition test (constantly true without a partition) and the attributes a HEAD request returns.
   */
  datatype Config = Config(
    pages: seq<Page>,
    prefix: string,
    matches: Key -> bool,
    head: Key -> map<string, Value>)

  datatype Batch = Batch(kind: Kind, items: seq<Mutated>)

  datatype Counts = Counts(imports: nat, refreshes: nat, removes: nat)

  datatype Nested = Nested(token: string, marker: string, listed: nat, complete: bool)

  /** The progress fields of the run that the sync reads back; a zero `listed` means absent. */
  datatype Progress = Progress(listed: nat, complete: bool, nested: Option<Nested>, counts: Counts)

  datatype Checkpoint = Checkpoint(token: string, marker: string, listed: nat, complete: bool)

  /** Volatile state of the one executor: lost by a crash. */
  datatype Worker =
    | Down
    | Listing(page: nat, listed: nat, counts: Counts)
    | Filtered(page: nat, listed: nat, counts: Counts, pending: seq<Listed>)
    | Committing(page: nat, listed: nat, counts: Counts, queue: seq<Batch>, settled: set<Key>)
    | Checkpointing(page: nat, listed: nat, counts: Counts)
    | ListingDone(listed: nat, counts: Counts)
    | Planning(listed: nat, counts: Counts)
    | Streaming(listed: nat, counts: Counts)
    | Removing(listed: nat, counts: Counts, queue: seq<Batch>)
    | Done(listed: nat, counts: Counts)

  datatype State = State(
    catalogue: map<Key, Local>,
    usedIds: set<string>,
    spill: set<Key>,
    children: seq<Batch>,
    applied: set<Key>,
    progress: Progress,
    worker: Worker)

  datatype Event =
    | Start
    | FilterPage
    | ReadLocal(imports: seq<Mutated>, refreshes: seq<Mutated>)
    | CommitBatch
    | SpillSettled
    | SaveCheckpoint
    | FinishListing
    | SavePlanning
    | StreamRemovals(removes: seq<Mutated>)
    | Finish
    | Crash
    | ApplyChild(child: nat, ids: map<Key, string>, seenAt: string)

  // ----- The listing -----

  /** The partition test, on a listed object. */
  function HasMatchingKey(matches: Key -> bool): Listed -> bool {
    (listed: Listed) => matches(listed.key)
  }

  function PageListed(cfg: Config, page: nat): seq<Listed>
    requires page < |cfg.pages|
  {
    Filter(HasMatchingKey(cfg.matches), cfg.pages[page].listed)
  }

  /** The page a (continuation token, marker) pair asks for; |pages| when no page announced it. */
  function Locate(cfg: Config, token: string, marker: string): (page: nat)
    ensures page <= |cfg.pages|
  {
    if token == "" && marker == "" then 0 else LocateFrom(cfg, token, marker, 0)
  }

  function LocateFrom(cfg: Config, token: string, marker: string, page: nat): (r: nat)
    ensures r <= |cfg.pages|
    decreases |cfg.pages| - page
  {
    if page >= |cfg.pages| then |cfg.pages|
    else if cfg.pages[page].truncated && cfg.pages[page].nextToken == token && cfg.pages[page].nextMarker == marker
    then page + 1
    else LocateFrom(cfg, token, marker, page + 1)
  }

  predicate Stuck(page: Page) {
    page.truncated && page.nextToken == "" && page.nextMarker == ""
  }

  // ----- Progress fields -----

  /** listingCheckpointFromProgress: nested fields override the top-level ones where present. */
  function Decode(progress: Progress): Checkpoint {
    match progress.nested
    case None => Checkpoint("", "", progress.listed, progress.complete)
    case Some(nested) =>
      Checkpoint(nested.token, nested.marker, if nested.listed > 0 then nested.listed else progress.listed, nested.complete)
  }

  function ListingFields(token: string, marker: string, listed: nat, complete: bool, counts: Counts): Progress {
    Progress(listed, complete, Some(Nested(token, marker, listed, complete)), counts)
  }

  /** planningProgressFields leaves the nested checkpoint that is already stored. */
  function PlanningFields(progress: Progress, listed: nat, counts: Counts): Progress {
    progress.(listed := listed, complete := true, counts := counts)
  }

  function MergeCounts(a: Counts, b: Counts): Counts {
    Counts(Max(a.imports, b.imports), Max(a.refreshes, b.refreshes), Max(a.removes, b.removes))
  }

  function Record(counts: Counts, kind: Kind, n: nat): Counts {
    match kind
    case Import => counts.(imports := counts.imports + n)
    case Refresh => counts.(refreshes := counts.refreshes + n)
    case Remove => counts.(removes := counts.removes + n)
  }

  function Charge(counts: Counts, batch: Batch): Counts {
    Record(counts, batch.kind, |batch.items|)
  }

  /** The counts loadSyncExecutionState recomputes from the child jobs. */
  function ChildCounts(children: seq<Batch>): Counts {
    if children == [] then Counts(0, 0, 0)
    else
      Charge(ChildCounts(children[..|children| - 1]), children[|children| - 1])
  }

  // ----- Batches -----

  function ToBatches(kind: Kind, items: seq<Mutated>): seq<Batch> {
    var chunks := Chunk(items, CHILD_JOB_BATCH_SIZE);
    seq(|chunks|, i requires 0 <= i < |chunks| => Batch(kind, chunks[i]))
  }

  function Entries(batch: Batch): (entries: seq<Entry>)
    ensures |entries| == |batch.items|
    ensures forall i :: 0 <= i < |entries| ==> entries[i] == Entry(batch.kind, batch.items[i])
  {
    seq(|batch.items|, i requires 0 <= i < |batch.items| => Entry(batch.kind, batch.items[i]))
  }

  function AllEntries(batches: seq<Batch>): seq<Entry> {
    if batches == [] then [] else Entries(batches[0]) + AllEntries(batches[1..])
  }

  function ItemKeys(items: seq<Mutated>): set<Key> {
    set item | item in items :: item.key
  }

  function FindItem(items: seq<Mutated>, key: Key): (item: Mutated)
    requires key in ItemKeys(items)
    ensures item in items && item.key == key
  {
    if items[0].key == key then items[0] else FindItem(items[1..], key)
  }

  // ----- What the executor reads from the catalogue -----

  function RowsFor(catalogue: map<Key, Local>, keys: set<Key>): map<Key, Local> {
    map key | key in catalogue && key in keys :: catalogue[key]
  }

  function PagePlan(catalogue: map<Key, Local>, pending: seq<Listed>): map<Key, Entry> {
    var byKey := LastWins(pending);
    Plan(byKey, RowsFor(catalogue, byKey.Keys))
  }

  predicate InScope(cfg: Config, key: Key) {
    cfg.prefix <= key && cfg.matches(key)
  }

  /** StreamObjectsInScopeMissingFromSpill, with the partition test of its callback. */
  function RemovalPlan(cfg: Config, catalogue: map<Key, Local>, spill: set<Key>): map<Key, Entry> {
    map key | key in catalogue && key !in spill && InScope(cfg, key)
      :: Entry(Remove, Mutated(catalogue[key].id, key, "", 0, "", ""))
  }

  // ----- Events -----

  function Commit(s: State, batch: Batch): State {
    s.(spill := s.spill + ItemKeys(batch.items), children := s.children + [batch])
  }

  ghost function Apply(cfg: Config, s: State, event: Event): State {
    match event
    case Start => if s.worker.Down? then s.(worker := Load(cfg, s)) else s
    case FilterPage => if s.worker.Listing? then s.(worker := ListPage(cfg, s)) else s
    case ReadLocal(imports, refreshes) =>
      if s.worker.Filtered? then s.(worker := PlanPage(s, imports, refreshes)) else s
    case CommitBatch =>
      (match s.worker
       case Committing(page, listed, counts, queue, settled) =>
         if queue == [] then s
         else Commit(s, queue[0]).(worker := Committing(page, listed, Charge(counts, queue[0]), queue[1..], settled))
       case Removing(listed, counts, queue) =>
         if queue == [] then s
         else Commit(s, queue[0]).(worker := Removing(listed, Charge(counts, queue[0]), queue[1..]))
       case _ => s)
    case SpillSettled =>
      if s.worker.Committing? && s.worker.queue == [] then
        var w := s.worker;
        s.(spill := s.spill + w.settled, worker := Checkpointing(w.page, w.listed, w.counts))
      else s
    case SaveCheckpoint => if s.worker.Checkpointing? && s.worker.page < |cfg.pages| then Checkpointed(cfg, s) else s
    case FinishListing =>
      if s.worker.ListingDone? then
        s.(progress := ListingFields("", "", s.worker.listed, true, s.worker.counts),
           worker := Planning(s.worker.listed, s.worker.counts))
      else s
    case SavePlanning =>
      if s.worker.Planning? then
        s.(progress := PlanningFields(s.progress, s.worker.listed, s.worker.counts),
           worker := Streaming(s.worker.listed, s.worker.counts))
      else s
    case StreamRemovals(removes) =>
      if s.worker.Streaming? && Enumerates(removes, Remove, RemovalPlan(cfg, s.catalogue, s.spill)) then
        s.(worker := Removing(s.worker.listed, s.worker.counts, ToBatches(Remove, removes)))
      else s
    case Finish =>
      if s.worker.Removing? && s.worker.queue == [] then s.(worker := Done(s.worker.listed, s.worker.counts)) else s
    case Crash => s.(worker := Down)
    case ApplyChild(child, ids, seenAt) =>
      if child < |s.children| then TakeEffect(cfg, s, s.children[child], ids, seenAt) else s
  }

  function Load(cfg: Config, s: State): Worker {
    var checkpoint := Decode(s.progress);
    var counts := MergeCounts(ChildCounts(s.children), s.progress.counts);
    if checkpoint.complete then Planning(checkpoint.listed, counts)
    else Listing(Locate(cfg, checkpoint.token, checkpoint.marker), checkpoint.listed, counts)
  }

  function ListPage(cfg: Config, s: State): Worker
    requires s.worker.Listing?
  {
    var w := s.worker;
    if w.page >= |cfg.pages| || Stuck(cfg.pages[w.page]) then Down
    else
      var listed := PageListed(cfg, w.page);
      if listed == [] then Checkpointing(w.page, w.listed, w.counts)
      else Filtered(w.page, w.listed + |listed|, w.counts, Without(listed, s.spill))
  }

  ghost function PlanPage(s: State, imports: seq<Mutated>, refreshes: seq<Mutated>): Worker
    requires s.worker.Filtered?
  {
    var w := s.worker;
    var plan := PagePlan(s.catalogue, w.pending);
    if w.pending == [] then Checkpointing(w.page, w.listed, w.counts)
    else if Enumerates(imports, Import, plan) && Enumerates(refreshes, Refresh, plan) then
      Committing(w.page, w.listed, w.counts, ToBatches(Import, imports) + ToBatches(Refresh, refreshes),
                 LastWins(w.pending).Keys - ItemKeys(imports) - ItemKeys(refreshes))
    else w
  }

  function Checkpointed(cfg: Config, s: State): State
    requires s.worker.Checkpointing? && s.worker.page < |cfg.pages|
  {
    var w, page := s.worker, cfg.pages[s.worker.page];
    s.(progress := ListingFields(page.nextToken, page.nextMarker, w.listed, !page.truncated, w.counts),
       worker := if page.truncated then Listing(Locate(cfg, page.nextToken, page.nextMarker), w.listed, w.counts)
                 else ListingDone(w.listed, w.counts))
  }

  /** A child job's database statement: an upsert of its objects, or a delete by object id. */
  function TakeEffect(cfg: Config, s: State, child: Batch, ids: map<Key, string>, seenAt: string): State {
    var keys := ItemKeys(child.items);
    if child.kind == Remove then
      var gone := set item | item in child.items && item.id != "" :: item.id;
      s.(catalogue := map key | key in s.catalogue && s.catalogue[key].id !in gone :: s.catalogue[key],
         applied := s.applied + keys)
    else if ids.Keys == keys && ids.Values !! s.usedIds then
      s.(catalogue := map key | key in s.catalogue.Keys + keys ::
           if key in keys then
             Upsert(Lookup(s.catalogue, key), ids[key], seenAt,
                    WithEvidence(cfg.head(key), FindItem(child.items, key)))
           else s.catalogue[key],
         usedIds := s.usedIds + ids.Values,
         applied := s.applied + keys)
    else s
  }

  ghost function Run(cfg: Config, s: State, events: seq<Event>): State {
    if events == [] then s
    else Apply(cfg, Run(cfg, s, events[..|events| - 1]), events[|events| - 1])
  }

  lemma RunSnoc(cfg: Config, s: State, events: seq<Event>, event: Event)
    ensures Run(cfg, s, events + [event]) == Apply(cfg, Run(cfg, s, events), event)
  {
    assert (events + [event])[..|events|] == events;
  }

  const NO_PROGRESS := Progress(0, false, None, Counts(0, 0, 0))

  /** A newly created sync run over a catalogue. */
  function Initial(catalogue: map<Key, Local>): State {
    State(catalogue, set key | key in catalogue :: catalogue[key].id, {}, [], {}, NO_PROGRESS, Down)
  }
}
