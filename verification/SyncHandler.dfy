/**
 The sync_bucket handler, step by step. Whatever fails and wherever children take effect, each call
 extends the store's history by protocol events, and a call that returns a result has reached Done.
 */
module SyncHandler {
  import opened Values
  import opened Sequences
  import opened Evidence
  import opened Batching
  import opened MutationPlan
  import opened SyncProtocol
  import opened SyncSafety
  import opened SyncStore
  import opened SyncTheorems

  const CHILD_PAGE := 500

  function Add(a: Counts, b: Counts): Counts {
    Counts(a.imports + b.imports, a.refreshes + b.refreshes, a.removes + b.removes)
  }

  lemma CountNext(children: seq<Batch>, counts: Counts, i: nat)
    requires i < |children|
    ensures Add(Charge(counts, children[i]), ChildCounts(children[..i])) == Add(counts, ChildCounts(children[..i + 1]))
  {
    assert children[..i + 1][..i] == children[..i];
  }

  /** loadSyncExecutionState: child jobs in pages of 500, newest first, then the progress counts. */
  method LoadCounts(store: Store) returns (counts: Counts)
    ensures counts == MergeCounts(ChildCounts(store.children), store.progress.counts)
  {
    counts := Counts(0, 0, 0);
    var children := store.children;
    var left := |children|;
    assert children[..left] == children;
    while true
      invariant 0 <= left <= |children|
      invariant Add(counts, ChildCounts(children[..left])) == ChildCounts(children)
      decreases left
    {
      var size := if left < CHILD_PAGE then left else CHILD_PAGE;
      var listed := children[left - size..left];
      for i := |listed| downto 0
        invariant Add(counts, ChildCounts(children[..left - size + i])) == ChildCounts(children)
      {
        CountNext(children, counts, left - size + i);
        counts := Charge(counts, listed[i]);
      }
      left := left - size;
      if size < CHILD_PAGE {
        break;
      }
    }
    counts := MergeCounts(counts, store.progress.counts);
  }

  /** The partition filter of the listing loop. */
  method FilterPageListed(cfg: Config, page: Page) returns (kept: seq<Listed>)
    ensures kept == Filter(HasMatchingKey(cfg.matches), page.listed)
  {
    kept := [];
    for i := 0 to |page.listed|
      invariant kept + Filter(HasMatchingKey(cfg.matches), page.listed[i..]) == Filter(HasMatchingKey(cfg.matches), page.listed)
    {
      assert page.listed[i..][1..] == page.listed[i + 1..];
      if cfg.matches(page.listed[i].key) {
        kept := kept + [page.listed[i]];
      }
    }
    assert page.listed[|page.listed|..] == [];
  }

  method ListedForKeys(listed: seq<Listed>, keys: seq<Key>, ghost spill: set<Key>) returns (kept: seq<Listed>)
    requires forall item :: item in listed ==> (item.key in keys <==> item.key !in spill)
    ensures kept == Without(listed, spill)
  {
    var allowed := set key | key in keys;
    kept := [];
    for i := 0 to |listed|
      invariant kept + Without(listed[i..], spill) == Without(listed, spill)
    {
      assert listed[i..][1..] == listed[i + 1..];
      if listed[i].key in allowed {
        kept := kept + [listed[i]];
      }
    }
    assert listed[|listed|..] == [];
  }

  method KeysOf(listed: seq<Listed>) returns (keys: seq<Key>)
    ensures |keys| == |listed| && forall i :: 0 <= i < |keys| ==> keys[i] == listed[i].key
  {
    keys := [];
    for i := 0 to |listed|
      invariant |keys| == i && forall j :: 0 <= j < i ==> keys[j] == listed[j].key
    {
      keys := keys + [listed[i].key];
    }
  }

  method FilterNotInSpill(store: Store, listed: seq<Listed>) returns (pending: seq<Listed>)
    ensures pending == Without(listed, store.spill)
  {
    var keys := KeysOf(listed);
    var free := store.FilterKeysNotInSpill(keys);
    forall item | item in listed ensures item.key in free <==> item.key !in store.spill {
      var i :| 0 <= i < |listed| && listed[i] == item;
      assert keys[i] == item.key;
      UnspilledMembers(keys, store.spill, item.key);
    }
    pending := ListedForKeys(listed, free, store.spill);
  }

  method IndexByKey(listed: seq<Listed>) returns (byKey: map<Key, Listed>)
    ensures byKey == LastWins(listed)
  {
    byKey := map[];
    for i := 0 to |listed|
      invariant byKey == LastWins(listed[..i])
    {
      LastWinsSnoc(listed[..i], listed[i]);
      assert listed[..i + 1] == listed[..i] + [listed[i]];
      byKey := byKey[listed[i].key := listed[i]];
    }
    assert listed[..|listed|] == listed;
  }

  /** enqueueMutationJobs: one transaction per batch, the planned counts kept alongside. */
  method Enqueue(store: Store, kind: Kind, items: seq<Mutated>, ghost rest: seq<Batch>, counts: Counts)
    returns (ok: bool, counted: Counts)
    requires store.Valid() && (store.worker.Committing? || store.worker.Removing?)
    requires store.worker.queue == ToBatches(kind, items) + rest && store.worker.counts == counts
    modifies store
    ensures store.Valid() && old(store.history) <= store.history
    ensures if ok then store.faults == old(store.faults) else store.faults > old(store.faults)
    ensures ok ==> store.worker == match old(store.worker)
                                   case Committing(page, listed, _, _, settled) => Committing(page, listed, counted, rest, settled)
                                   case Removing(listed, _, _) => Removing(listed, counted, rest)
                                   case w => w
  {
    counted := counts;
    var batches := Batches(items, CHILD_JOB_BATCH_SIZE);
    ghost var queue := ToBatches(kind, items);
    for i := 0 to |batches|
      invariant store.Valid() && old(store.history) <= store.history && store.faults == old(store.faults)
      invariant store.worker == match old(store.worker)
                                case Committing(page, listed, _, _, settled) => Committing(page, listed, counted, queue[i..] + rest, settled)
                                case Removing(listed, _, _) => Removing(listed, counted, queue[i..] + rest)
                                case w => w
    {
      assert (queue[i..] + rest)[0] == Batch(kind, batches[i]) && (queue[i..] + rest)[1..] == queue[i + 1..] + rest;
      var stored := store.CommitChild(kind, batches[i]);
      if !stored {
        return false, counted;
      }
      counted := Charge(counted, Batch(kind, batches[i]));
    }
    assert queue[|batches|..] + rest == rest;
    ok := true;
  }

  /** processListingPage, from the spill filter to the point where the checkpoint may be written. */
  method PlanAndEnqueue(store: Store, listed: seq<Listed>, counts: Counts) returns (ok: bool, counted: Counts)
    requires store.Valid() && store.worker.Filtered?
    requires store.worker.pending == Without(listed, store.spill) && store.worker.counts == counts
    modifies store
    ensures store.Valid() && old(store.history) <= store.history
    ensures if ok then store.faults == old(store.faults) else store.faults > old(store.faults)
    ensures ok ==> store.worker == Checkpointing(old(store.worker).page, old(store.worker).listed, counted)
  {
    var pending := FilterNotInSpill(store, listed);
    store.Others();
    if |pending| == 0 {
      store.Observe(ReadLocal([], []));
      return true, counts;
    }
    var byKey := IndexByKey(pending);
    var rows := store.GetObjectsByKeys(byKey.Keys);
    var imports, refreshes, _ := PlanObjectMutations(byKey, rows);
    store.Observe(ReadLocal(imports, refreshes));
    ok, counted := Enqueue(store, Import, imports, ToBatches(Refresh, refreshes), counts);
    if !ok {
      return false, counted;
    }
    assert ToBatches(Refresh, refreshes) == ToBatches(Refresh, refreshes) + [];
    ok, counted := Enqueue(store, Refresh, refreshes, [], counted);
    if !ok {
      return false, counted;
    }
    ok := store.InsertSettled(byKey.Keys - ItemKeys(imports) - ItemKeys(refreshes));
  }

  /** One upstream page: filter, plan, enqueue. */
  method SyncPage(store: Store, at: nat, listed: nat, counts: Counts) returns (ok: bool, total: nat, counted: Counts)
    requires at < |store.cfg.pages| && !Stuck(store.cfg.pages[at])
    requires store.Valid() && store.worker == Listing(at, listed, counts)
    modifies store
    ensures store.Valid() && old(store.history) <= store.history
    ensures if ok then store.faults == old(store.faults) else store.faults > old(store.faults)
    ensures ok ==> store.worker == Checkpointing(at, total, counted)
  {
    total, counted := listed, counts;
    var page := store.cfg.pages[at];
    var kept := FilterPageListed(store.cfg, page);
    store.Others();
    store.Observe(FilterPage);
    ok := true;
    if |kept| > 0 {
      total := total + |kept|;
      ok, counted := PlanAndEnqueue(store, kept, counted);
    }
  }

  lemma ListingInRange(store: Store)
    requires FixedListing(store.cfg) && WellKept(store.start) && store.Valid() && store.worker.Listing?
    ensures store.worker.page < |store.cfg.pages|
  {
    RunKeeps(store.cfg, store.start, store.history);
  }

  lemma NextIsFurther(cfg: Config, page: nat)
    requires FixedListing(cfg) && page < |cfg.pages| && cfg.pages[page].truncated && !Stuck(cfg.pages[page])
    ensures Locate(cfg, cfg.pages[page].nextToken, cfg.pages[page].nextMarker) == page + 1
  {
    LocateNext(cfg, page);
  }

  /** The upstream announces more pages without saying where they are. */
  ghost predicate EndsStuck(cfg: Config) {
    |cfg.pages| > 0 && Stuck(cfg.pages[|cfg.pages| - 1])
  }

  /** The listing loop: one page per round, from the checkpoint to the last page. */
  method ListAndPlan(store: Store, token: string, marker: string, listed: nat, counts: Counts)
    returns (ok: bool, total: nat, counted: Counts)
    requires FixedListing(store.cfg) && WellKept(store.start)
    requires store.Valid() && store.worker == Listing(Locate(store.cfg, token, marker), listed, counts)
    modifies store
    ensures store.Valid() && old(store.history) <= store.history
    ensures if ok then store.faults == old(store.faults) else store.faults > old(store.faults) || EndsStuck(store.cfg)
    ensures ok ==> store.worker == ListingDone(total, counted)
  {
    var continuation, mark := token, marker;
    total, counted := listed, counts;
    while true
      invariant store.Valid() && old(store.history) <= store.history && store.faults == old(store.faults)
      invariant store.worker == Listing(Locate(store.cfg, continuation, mark), total, counted)
      decreases |store.cfg.pages| - Locate(store.cfg, continuation, mark)
    {
      var at := Locate(store.cfg, continuation, mark);
      ListingInRange(store);
      assert at < |store.cfg.pages| - 1 ==> Announces(store.cfg, at);
      var refused := store.Fails();
      if refused || Stuck(store.cfg.pages[at]) {
        return false, total, counted;
      }
      var page := store.cfg.pages[at];
      ok, total, counted := SyncPage(store, at, total, counted);
      if !ok {
        return false, total, counted;
      }
      ok := store.UpdateProgress(ListingFields(page.nextToken, page.nextMarker, total, !page.truncated, counted), SaveCheckpoint);
      if !ok {
        return false, total, counted;
      }
      if !page.truncated {
        return true, total, counted;
      }
      NextIsFurther(store.cfg, at);
      continuation, mark := page.nextToken, page.nextMarker;
    }
  }

  /** What is left to remove from position `i` of the streamed rows on. */
  function ToRemove(cfg: Config, rows: seq<(Key, Local)>): seq<Mutated> {
    if rows == [] then []
    else
      (if cfg.matches(rows[0].0) then [Mutated(rows[0].1.id, rows[0].0, "", 0, "", "")] else []) + ToRemove(cfg, rows[1..])
  }

  lemma {:induction false} ToRemoveMembers(cfg: Config, rows: seq<(Key, Local)>)
    requires forall i, j :: 0 <= i < j < |rows| ==> rows[i].0 != rows[j].0
    ensures DistinctKeys(ToRemove(cfg, rows))
    ensures forall item :: item in ToRemove(cfg, rows) <==>
              exists row :: row in rows && cfg.matches(row.0) && item == Mutated(row.1.id, row.0, "", 0, "", "")
  {
    if rows != [] {
      ToRemoveMembers(cfg, rows[1..]);
      var rest := ToRemove(cfg, rows[1..]);
      forall item | item in rest ensures item.key != rows[0].0 {
        var row :| row in rows[1..] && item == Mutated(row.1.id, row.0, "", 0, "", "");
      }
      forall item
        ensures item in ToRemove(cfg, rows) <==>
                exists row :: row in rows && cfg.matches(row.0) && item == Mutated(row.1.id, row.0, "", 0, "", "")
      {
        assert rows == [rows[0]] + rows[1..];
        if item in ToRemove(cfg, rows) && item !in rest {
          assert rows[0] in rows;
        }
      }
    }
  }

  lemma RemovalsEnumerated(store: Store, rows: seq<(Key, Local)>)
    requires forall i, j :: 0 <= i < j < |rows| ==> rows[i].0 != rows[j].0
    requires forall row :: row in rows <==>
      (row.0 in store.catalogue && row.1 == store.catalogue[row.0] && store.cfg.prefix <= row.0 && row.0 !in store.spill)
    ensures Enumerates(ToRemove(store.cfg, rows), Remove, RemovalPlan(store.cfg, store.catalogue, store.spill))
  {
    var plan, items := RemovalPlan(store.cfg, store.catalogue, store.spill), ToRemove(store.cfg, rows);
    ToRemoveMembers(store.cfg, rows);
    forall key | key in plan ensures plan[key].item in items {
      assert (key, store.catalogue[key]) in rows;
    }
  }

  lemma FullBatch(items: seq<Mutated>, rest: seq<Mutated>)
    requires |items| == CHILD_JOB_BATCH_SIZE
    ensures ToBatches(Remove, items + rest) == ToBatches(Remove, items) + ToBatches(Remove, rest)
  {
    var all := items + rest;
    if rest == [] {
      assert all == items;
    } else {
      assert all[..CHILD_JOB_BATCH_SIZE] == items && all[CHILD_JOB_BATCH_SIZE..] == rest;
    }
  }

  /** The snapshot read that fixes which removals are streamed. */
  method ReadRemovals(store: Store) returns (rows: seq<(Key, Local)>)
    requires store.Valid() && store.worker.Streaming?
    modifies store
    ensures store.Valid() && old(store.history) <= store.history && store.faults == old(store.faults)
    ensures store.worker == Removing(old(store.worker).listed, old(store.worker).counts, ToBatches(Remove, ToRemove(store.cfg, rows)))
  {
    store.Others();
    rows := store.ObjectsMissingFromSpill();
    RemovalsEnumerated(store, rows);
    store.Observe(StreamRemovals(ToRemove(store.cfg, rows)));
  }

  /** The streaming callback: a row joins the batch, and a full batch is flushed. */
  method GrowBatch(store: Store, batch: seq<Mutated>, row: (Key, Local), ghost rest: seq<(Key, Local)>, counts: Counts)
    returns (ok: bool, grown: seq<Mutated>, counted: Counts)
    requires store.Valid() && store.worker.Removing? && |batch| < CHILD_JOB_BATCH_SIZE
    requires store.worker.queue == ToBatches(Remove, batch + ToRemove(store.cfg, [row] + rest)) && store.worker.counts == counts
    modifies store
    ensures store.Valid() && old(store.history) <= store.history
    ensures if ok then store.faults == old(store.faults) else store.faults > old(store.faults)
    ensures ok ==> |grown| < CHILD_JOB_BATCH_SIZE
    ensures ok ==> store.worker == Removing(old(store.worker).listed, counted, ToBatches(Remove, grown + ToRemove(store.cfg, rest)))
  {
    ok, grown, counted := true, batch, counts;
    ghost var later := ToRemove(store.cfg, rest);
    assert ([row] + rest)[1..] == rest && [] + later == later;
    if store.cfg.matches(row.0) {
      var item := Mutated(row.1.id, row.0, "", 0, "", "");
      assert batch + ([item] + later) == (batch + [item]) + later;
      grown := batch + [item];
      if |grown| >= CHILD_JOB_BATCH_SIZE {
        FullBatch(grown, later);
        ok, counted := Enqueue(store, Remove, grown, ToBatches(Remove, later), counted);
        grown := [];
      }
    }
  }

  /** streamAndEnqueueRemoveObjects: a batch grown by the streaming callback and flushed at 100. */
  method StreamRemovalJobs(store: Store, counts: Counts) returns (ok: bool, counted: Counts)
    requires store.Valid() && store.worker.Streaming? && store.worker.counts == counts
    modifies store
    ensures store.Valid() && old(store.history) <= store.history
    ensures if ok then store.faults == old(store.faults) else store.faults > old(store.faults)
    ensures ok ==> store.worker == Removing(old(store.worker).listed, counted, [])
  {
    var rows := ReadRemovals(store);
    counted := counts;
    var batch: seq<Mutated> := [];
    assert rows[0..] == rows && [] + ToRemove(store.cfg, rows) == ToRemove(store.cfg, rows);
    for i := 0 to |rows|
      invariant store.Valid() && old(store.history) <= store.history && store.faults == old(store.faults)
      invariant |batch| < CHILD_JOB_BATCH_SIZE
      invariant store.worker == Removing(old(store.worker).listed, counted, ToBatches(Remove, batch + ToRemove(store.cfg, rows[i..])))
    {
      assert rows[i..] == [rows[i]] + rows[i + 1..];
      ok, batch, counted := GrowBatch(store, batch, rows[i], rows[i + 1..], counted);
      if !ok {
        return false, counted;
      }
    }
    assert batch + ToRemove(store.cfg, rows[|rows|..]) == batch;
    assert ToBatches(Remove, batch) + [] == ToBatches(Remove, batch);
    ok, counted := Enqueue(store, Remove, batch, [], counted);
  }

  /**
   One execution of the handler. It fails only when a request failed or the upstream's listing ends
   stuck, and then leaves a crashed executor behind; a call that succeeds reports the exact listing count and has planned exactly the one-shot plan.
   */
  method Handle(store: Store) returns (ok: bool, listed: nat, counts: Counts)
    requires FixedListing(store.cfg) && WellKept(store.start)
    requires store.Valid() && store.worker.Down?
    modifies store
    ensures store.Valid() && old(store.history) <= store.history
    ensures if ok then store.faults == old(store.faults) else store.faults > old(store.faults) || EndsStuck(store.cfg)
    ensures !ok ==> store.worker.Down?
    ensures ok ==> store.worker == Done(listed, counts)
    ensures ok ==> listed == ListedCount(store.cfg, |store.cfg.pages|)
    ensures ok ==> (set e | e in AllEntries(store.children)) == Goal(store.cfg, store.start).Values
  {
    ok, listed, counts := Execute(store);
    if ok {
      FinishedRunIsOneShot(store.cfg, store.start, store.history);
    } else {
      store.Abandon();
    }
  }

  method Execute(store: Store) returns (ok: bool, listed: nat, counts: Counts)
    requires FixedListing(store.cfg) && WellKept(store.start)
    requires store.Valid() && store.worker.Down?
    modifies store
    ensures store.Valid() && old(store.history) <= store.history
    ensures if ok then store.faults == old(store.faults) else store.faults > old(store.faults) || EndsStuck(store.cfg)
    ensures ok ==> store.worker == Done(listed, counts)
  {
    var checkpoint;
    checkpoint, counts := Begin(store);
    listed := checkpoint.listed;
    if !checkpoint.complete {
      ok, listed, counts := ListToTheEnd(store, checkpoint, counts);
      if !ok {
        return false, listed, counts;
      }
    }
    ok, counts := RemoveTheRest(store, listed, counts);
  }

  method Begin(store: Store) returns (checkpoint: Checkpoint, counts: Counts)
    requires store.Valid() && store.worker.Down?
    modifies store
    ensures store.Valid() && old(store.history) <= store.history && store.faults == old(store.faults)
    ensures store.worker == if checkpoint.complete then Planning(checkpoint.listed, counts)
                            else Listing(Locate(store.cfg, checkpoint.token, checkpoint.marker), checkpoint.listed, counts)
  {
    store.Others();
    counts := LoadCounts(store);
    checkpoint := Decode(store.progress);
    store.Observe(Start);
  }

  method RemoveTheRest(store: Store, listed: nat, counts: Counts) returns (ok: bool, counted: Counts)
    requires store.Valid() && store.worker == Planning(listed, counts)
    modifies store
    ensures store.Valid() && old(store.history) <= store.history
    ensures if ok then store.faults == old(store.faults) else store.faults > old(store.faults)
    ensures ok ==> store.worker == Done(listed, counted)
  {
    counted := counts;
    ok := store.UpdateProgress(PlanningFields(store.progress, listed, counts), SavePlanning);
    if ok {
      ok, counted := StreamRemovalJobs(store, counts);
      if ok {
        store.Observe(Finish);
      }
    }
  }

  method ListToTheEnd(store: Store, checkpoint: Checkpoint, counts: Counts)
    returns (ok: bool, listed: nat, counted: Counts)
    requires FixedListing(store.cfg) && WellKept(store.start)
    requires store.Valid()
    requires store.worker == Listing(Locate(store.cfg, checkpoint.token, checkpoint.marker), checkpoint.listed, counts)
    modifies store
    ensures store.Valid() && old(store.history) <= store.history
    ensures if ok then store.faults == old(store.faults) else store.faults > old(store.faults) || EndsStuck(store.cfg)
    ensures ok ==> store.worker == Planning(listed, counted)
  {
    ok, listed, counted := ListAndPlan(store, checkpoint.token, checkpoint.marker, checkpoint.listed, counts);
    if ok {
      ok := store.UpdateProgress(ListingFields("", "", listed, true, counted), FinishListing);
    }
  }
}
