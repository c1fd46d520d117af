/**
 The database behind a sync run, updated in place. Every operation is one commit or one read, may
 be preceded by child jobs taking effect, and may fail before or after its commit. The ghost history
 records the protocol events, so that every state of the store is a state of the protocol; the ghost
 count of faults tells a failure the environment caused from one the executor made up.
 */
module SyncStore {
  import opened Values
  import opened Evidence
  import opened MutationPlan
  import opened SyncProtocol

  /** The keys that have no spill row. */
  function Unspilled(keys: seq<Key>, spill: set<Key>): seq<Key> {
    if keys == [] then []
    else if keys[0] in spill then Unspilled(keys[1..], spill)
    else [keys[0]] + Unspilled(keys[1..], spill)
  }

  lemma {:induction false} UnspilledMembers(keys: seq<Key>, spill: set<Key>, key: Key)
    ensures key in Unspilled(keys, spill) <==> key in keys && key !in spill
  {
    if keys != [] {
      UnspilledMembers(keys[1..], spill, key);
    }
  }

  class Store {
    const cfg: Config
    ghost const start: map<Key, Local>

    var catalogue: map<Key, Local>
    var usedIds: set<string>
    var spill: set<Key>
    var children: seq<Batch>
    var applied: set<Key>
    var progress: Progress
    ghost var worker: Worker
    ghost var history: seq<Event>
    ghost var faults: nat

    ghost function View(): State
      reads this
    {
      State(catalogue, usedIds, spill, children, applied, progress, worker)
    }

    ghost predicate Valid()
      reads this
    {
      View() == Run(cfg, Initial(start), history)
    }

    constructor (config: Config, objects: map<Key, Local>)
      ensures Valid() && cfg == config && start == objects && View() == Initial(objects) && history == []
    {
      cfg, start := config, objects;
      catalogue, usedIds := objects, set key | key in objects :: objects[key].id;
      spill, children, applied, progress := {}, [], {}, NO_PROGRESS;
      worker, history, faults := Down, [], 0;
    }

    /** Records an event whose effect on the stored fields has just been carried out. */
    ghost method Log(before: State, event: Event)
      requires before == Run(cfg, Initial(start), history)
      requires View().(worker := Apply(cfg, before, event).worker) == Apply(cfg, before, event)
      modifies `worker, `history
      ensures Valid() && View() == Apply(cfg, before, event)
      ensures history == old(history) + [event]
    {
      worker := Apply(cfg, before, event).worker;
      RunSnoc(cfg, Initial(start), history, event);
      history := history + [event];
    }

    method ChildTakesEffect(child: nat, ids: map<Key, string>, seenAt: string)
      requires Valid()
      modifies this
      ensures Valid() && View() == Apply(cfg, old(View()), ApplyChild(child, ids, seenAt))
      ensures old(history) <= history && OnlyEffects(old(View())) && faults == old(faults)
    {
      ghost var before := View();
      if child < |children| {
        var after := TakeEffect(cfg, State(catalogue, usedIds, spill, children, applied, progress, Down), children[child], ids, seenAt);
        catalogue, usedIds, applied := after.catalogue, after.usedIds, after.applied;
      }
      Log(before, ApplyChild(child, ids, seenAt));
    }

    /** Nothing but the catalogue and the bookkeeping of applied children moved. */
    ghost predicate OnlyEffects(before: State)
      reads this
    {
      spill == before.spill && children == before.children && progress == before.progress && worker == before.worker
    }

    /** Any number of children take effect, in any order, any of them repeatedly. */
    method Others()
      requires Valid()
      modifies this
      ensures Valid() && old(history) <= history && OnlyEffects(old(View())) && faults == old(faults)
    {
      var effects: seq<(nat, map<Key, string>, string)> := *;
      for i := 0 to |effects|
        invariant Valid() && old(history) <= history && OnlyEffects(old(View())) && faults == old(faults)
      {
        ChildTakesEffect(effects[i].0, effects[i].1, effects[i].2);
      }
    }

    /** A request to the database or to the upstream may fail at any time. */
    method Fails() returns (lost: bool)
      modifies `faults
      ensures if lost then faults > old(faults) else faults == old(faults)
    {
      lost := *;
      faults := if lost then faults + 1 else faults;
    }

    /** The executor is gone: an error was returned, or the process died. */
    method Abandon()
      requires Valid()
      modifies this
      ensures Valid() && old(history) <= history && worker.Down? && faults == old(faults)
    {
      Others();
      Log(View(), Crash);
    }

    /** InsertKeys and CreateJobRun in one transaction. */
    method CommitChild(kind: Kind, items: seq<Mutated>) returns (ok: bool)
      requires Valid() && (worker.Committing? || worker.Removing?)
      requires worker.queue != [] && worker.queue[0] == Batch(kind, items)
      modifies this
      ensures Valid() && old(history) <= history && (if ok then faults == old(faults) else faults > old(faults))
      ensures ok ==> progress == old(progress) &&
                     spill == old(spill) + ItemKeys(items) && children == old(children) + [Batch(kind, items)]
      ensures ok ==> worker == (match old(worker)
                                case Committing(page, listed, counts, queue, settled) =>
                                  Committing(page, listed, Charge(counts, queue[0]), queue[1..], settled)
                                case Removing(listed, counts, queue) => Removing(listed, Charge(counts, queue[0]), queue[1..])
                                case w => w)
    {
      Others();
      var lost := Fails();
      if lost {
        return false;
      }
      ghost var before := View();
      spill := spill + set item | item in items :: item.key;
      children := children + [Batch(kind, items)];
      Log(before, CommitBatch);
      lost := Fails();
      ok := !lost;
    }

    /** InsertKeys outside a transaction, for the keys of a page that need no mutation. */
    method InsertSettled(keys: set<Key>) returns (ok: bool)
      requires Valid() && worker.Committing? && worker.queue == [] && worker.settled == keys
      modifies this
      ensures Valid() && old(history) <= history && (if ok then faults == old(faults) else faults > old(faults))
      ensures ok ==> worker == Checkpointing(old(worker).page, old(worker).listed, old(worker).counts)
    {
      Others();
      var lost := Fails();
      if lost {
        return false;
      }
      ghost var before := View();
      spill := spill + keys;
      Log(before, SpillSettled);
      lost := Fails();
      ok := !lost;
    }

    /** UpdateJobRunProgress with the fields of one of the three progress events. */
    method UpdateProgress(fields: Progress, ghost event: Event) returns (ok: bool)
      requires Valid()
      requires event.SaveCheckpoint? || event.FinishListing? || event.SavePlanning?
      requires Apply(cfg, View(), event) == View().(progress := fields, worker := Apply(cfg, View(), event).worker)
      modifies this
      ensures Valid() && old(history) <= history && (if ok then faults == old(faults) else faults > old(faults))
      ensures ok ==> worker == Apply(cfg, old(View()), event).worker && spill == old(spill)
    {
      Others();
      var lost := Fails();
      if lost {
        return false;
      }
      ghost var before := View();
      progress := fields;
      Log(before, event);
      lost := Fails();
      ok := !lost;
    }

    /** A read of the executor that changes no stored field. */
    ghost method Observe(event: Event)
      requires Valid() && Apply(cfg, View(), event) == View().(worker := Apply(cfg, View(), event).worker)
      modifies this`worker, this`history
      ensures Valid() && old(history) <= history && worker == Apply(cfg, old(View()), event).worker
    {
      Log(View(), event);
    }

    /** FilterKeysNotInSpill: the keys without a spill row, in their order and with their repetitions. */
    method FilterKeysNotInSpill(keys: seq<Key>) returns (pending: seq<Key>)
      ensures pending == Unspilled(keys, spill)
    {
      pending := [];
      for i := 0 to |keys|
        invariant Unspilled(keys, spill) == pending + Unspilled(keys[i..], spill)
      {
        assert keys[i..][1..] == keys[i + 1..];
        if keys[i] !in spill {
          pending := pending + [keys[i]];
        }
      }
    }

    /** GetObjectsByBucketAndKeys: the rows come in no particular order. */
    method GetObjectsByKeys(keys: set<Key>) returns (rows: seq<(Key, Local)>)
      ensures ByKey(rows) == RowsFor(catalogue, keys)
    {
      rows := [];
      var left := set key | key in catalogue && key in keys;
      while left != {}
        invariant left <= catalogue.Keys * keys
        invariant ByKey(rows) == map key | key in catalogue && key in keys && key !in left :: catalogue[key]
        decreases left
      {
        var key :| key in left;
        var more := rows + [(key, catalogue[key])];
        assert more[..|more| - 1] == rows;
        rows, left := more, left - {key};
      }
    }

    /** One snapshot of the catalogued objects in scope that are missing from the spill. */
    method ObjectsMissingFromSpill() returns (rows: seq<(Key, Local)>)
      ensures forall i, j :: 0 <= i < j < |rows| ==> rows[i].0 != rows[j].0
      ensures forall row :: row in rows <==>
        (row.0 in catalogue && row.1 == catalogue[row.0] && cfg.prefix <= row.0 && row.0 !in spill)
    {
      rows := [];
      var left := set key | key in catalogue && cfg.prefix <= key && key !in spill;
      while left != {}
        invariant left <= catalogue.Keys
        invariant forall key :: key in left ==> cfg.prefix <= key && key !in spill
        invariant forall i, j :: 0 <= i < j < |rows| ==> rows[i].0 != rows[j].0
        invariant forall row :: row in rows <==>
          (row.0 in catalogue && row.1 == catalogue[row.0] && cfg.prefix <= row.0 && row.0 !in spill && row.0 !in left)
        decreases left
      {
        var key :| key in left;
        rows, left := rows + [(key, catalogue[key])], left - {key};
      }
    }
  }
}
