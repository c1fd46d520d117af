/**
 The job table updated in place by its SQL statements, the runner that claims and finishes jobs, and
 the ticker that finalizes them. Between any two statements of one process the others may do anything
 the protocol allows, except resuming a run a ticker has started on. The ghost history ties every
 state of the table to a guarded run of the protocol.
 */
module JobRunStore {
  import opened Values
  import opened JobProtocol
  import opened JobSafety
  import opened JobTheorems

  lemma GuardedSnoc(events: seq<Event>, event: Event)
    requires GuardedRun(EMPTY, events) && Guarded(Run(EMPTY, events), event)
    ensures GuardedRun(EMPTY, events + [event])
  {
    assert (events + [event])[..|events|] == events;
  }

  /** What happened in between was no write of this ticker. */
  ghost predicate NoWrite(before: seq<Event>, after: seq<Event>, me: nat) {
    before <= after && forall i :: |before| <= i < |after| ==> after[i] != TickWrite(me)
  }

  lemma NoWriteThen(first: seq<Event>, second: seq<Event>, third: seq<Event>, me: nat)
    requires NoWrite(first, second, me) && NoWrite(second, third, me)
    ensures NoWrite(first, third, me)
  {
  }

  ghost predicate EndsWith(history: seq<Event>, event: Event) {
    history != [] && history[|history| - 1] == event
  }

  /** The last event is a read of this ticker, and what it read is a reason to leave the run alone. */
  ghost predicate GivesUp(history: seq<Event>, me: nat, id: Id) {
    history != [] &&
    var jobs := Run(EMPTY, history[..|history| - 1]).jobs;
    || (EndsWith(history, TickGet(me, id)) && !(id in jobs && jobs[id].state == Running && jobs[id].awaits))
    || (EndsWith(history, TickComplete(me)) && !ChildrenComplete(jobs, id))
  }

  /** This ticker's only write is the very last event. */
  ghost predicate WritesOnce(before: seq<Event>, after: seq<Event>, me: nat) {
    EndsWith(after, TickWrite(me)) && NoWrite(before, after[..|after| - 1], me)
  }

  /** A finalized run agrees with its children as they are. */
  ghost predicate Finalized(jobs: map<Id, Job>, id: Id) {
    && id in jobs && ChildrenComplete(jobs, id)
    && jobs[id].state == (if ChildrenFailed(jobs, id) then Failed else Succeeded)
    && (jobs[id].state == Succeeded ==> AllSucceeded(jobs, id))
  }

  class Store {
    var jobs: map<Id, Job>
    var tickers: map<nat, Ticker>
    ghost var history: seq<Event>

    function View(): System
      reads this
    {
      System(jobs, tickers)
    }

    ghost predicate Valid()
      reads this
    {
      GuardedRun(EMPTY, history) && View() == Run(EMPTY, history)
    }

    constructor ()
      ensures Valid() && jobs == map[] && history == []
    {
      jobs, tickers, history := map[], map[], [];
    }

    lemma ValidInv()
      requires Valid()
      ensures Inv(View())
    {
      GuardedRunKeeps(history);
    }

    ghost method Log(before: System, event: Event)
      requires GuardedRun(EMPTY, history) && before == Run(EMPTY, history) && Guarded(before, event)
      requires View() == Apply(before, event)
      modifies `history
      ensures Valid() && history == old(history) + [event]
    {
      GuardedSnoc(history, event);
      RunSnoc(EMPTY, history, event);
      history := history + [event];
    }

    /** A statement or a read carried out by any process. */
    method Perform(event: Event)
      requires Valid() && Guarded(View(), event)
      modifies this
      ensures Valid() && View() == Apply(old(View()), event) && history == old(history) + [event]
    {
      ghost var before := View();
      var after := Apply(View(), event);
      jobs, tickers := after.jobs, after.tickers;
      Log(before, event);
    }

    /** Everything the other processes do before `me` gets its next turn. */
    method Others(me: nat)
      requires Valid()
      modifies this
      ensures Valid() && NoWrite(old(history), history, me) && TickerOf(View(), me) == old(TickerOf(View(), me))
    {
      var events: seq<Event> := *;
      for i := 0 to |events|
        invariant Valid() && NoWrite(old(history), history, me) && TickerOf(View(), me) == old(TickerOf(View(), me))
      {
        if Guarded(View(), events[i]) && !Concerns(events[i], me) {
          Perform(events[i]);
        }
      }
    }

    static predicate Concerns(event: Event, me: nat) {
      (event.TickGet? || event.TickComplete? || event.TickFailed? || event.TickWrite? || event.TickDies?) && event.ticker == me
    }

    // ----- SQL statements -----

    method DirectChildrenComplete(id: Id) returns (complete: bool)
      ensures complete == ChildrenComplete(jobs, id)
    {
      complete := !exists child :: child in jobs && jobs[child].parent == Some(id) &&
                    (jobs[child].state == Pending || jobs[child].state == Running);
      assert forall child :: child in jobs ==> (IsChild(jobs, id, child) <==> jobs[child].parent == Some(id));
    }

    method DirectChildrenFailed(id: Id) returns (failed: bool)
      ensures failed == ChildrenFailed(jobs, id)
    {
      failed := exists child :: child in jobs && jobs[child].parent == Some(id) && jobs[child].state == Failed;
      assert forall child :: child in jobs ==> (IsChild(jobs, id, child) <==> jobs[child].parent == Some(id));
    }

    /** A ticker's turn: whatever the others did, then one of the two completeness reads. */
    method PollComplete(me: nat, id: Id) returns (complete: bool)
      requires Valid() && (TickerOf(View(), me) == Got(id) || TickerOf(View(), me) == Complete(id))
      modifies this
      ensures Valid() && NoWrite(old(history), history, me) && complete == ChildrenComplete(jobs, id)
      ensures EndsWith(history, TickComplete(me)) && (!complete ==> GivesUp(history, me, id))
      ensures TickerOf(View(), me) == if !complete then Idle
                                      else if old(TickerOf(View(), me)).Got? then Complete(id) else CompleteAgain(id)
    {
      Others(me);
      complete := DirectChildrenComplete(id);
      ghost var before := history;
      Perform(TickComplete(me));
      assert history[..|history| - 1] == before;
    }

    method PollFailed(me: nat, id: Id) returns (failed: bool)
      requires Valid() && TickerOf(View(), me) == CompleteAgain(id)
      modifies this
      ensures Valid() && NoWrite(old(history), history, me) && TickerOf(View(), me) == Verdict(id, failed)
    {
      Others(me);
      failed := DirectChildrenFailed(id);
      Perform(TickFailed(me));
    }

    method SucceedJobRun(id: Id, awaits: bool)
      modifies `jobs
      ensures jobs == if id in old(jobs) then old(jobs)[id := Success(old(jobs)[id], awaits)] else old(jobs)
    {
      if id in jobs {
        jobs := jobs[id := jobs[id].(state := Succeeded, awaits := awaits, lockedBy := None, finished := true)];
      }
    }

    method FailJobRun(id: Id)
      modifies `jobs
      ensures jobs == if id in old(jobs) then old(jobs)[id := Failure(old(jobs)[id])] else old(jobs)
    {
      if id in jobs {
        jobs := jobs[id := jobs[id].(state := Failed, lockedBy := None, finished := true)];
      }
    }

    method RetryJobRun(id: Id)
      modifies `jobs
      ensures jobs == if id in old(jobs) then old(jobs)[id := Retried(old(jobs)[id])] else old(jobs)
    {
      if id in jobs && jobs[id].attempt < jobs[id].maxAttempts {
        jobs := jobs[id := jobs[id].(state := Pending, attempt := jobs[id].attempt + 1, lockedBy := None)];
      }
    }

    method AwaitJobRunChildren(id: Id)
      modifies `jobs
      ensures jobs == if id in old(jobs) && old(jobs)[id].state == Running
                      then old(jobs)[id := Awaiting(old(jobs)[id])] else old(jobs)
    {
      if id in jobs && jobs[id].state == Running {
        jobs := jobs[id := jobs[id].(awaits := true, lockedBy := None)];
      }
    }

    /** The oldest available run of the given types, or of any type when none is given; which one that is, is left open. */
    method ClaimJobRun(worker: string, types: set<JobType>) returns (claimed: Option<Id>)
      requires Valid()
      modifies this
      ensures Valid() && old(history) <= history
      ensures claimed.None? ==> jobs == old(jobs)
      ensures claimed.Some? ==>
                && claimed.value in old(jobs) && old(jobs)[claimed.value].state == Pending
                && (types == {} || old(jobs)[claimed.value].jobType in types)
                && jobs == old(jobs)[claimed.value := Claimed(old(jobs)[claimed.value], worker)]
    {
      var candidates := set id | id in jobs && jobs[id].state == Pending && (types == {} || jobs[id].jobType in types);
      var available: bool := *;
      if candidates == {} || !available {
        return None;
      }
      var id :| id in candidates;
      Perform(Claim(id, worker));
      return Some(id);
    }
  }

  // ----- The runner -----

  /** handleFailure: retry while attempts are left, fail otherwise. */
  method HandleFailure(store: Store, id: Id)
    requires store.Valid() && Executing(store.jobs, id)
    modifies store
    ensures store.Valid() && store.history == old(store.history) + [HandlerFails(id)]
    ensures id in store.jobs && store.jobs[id].lockedBy.None?
    ensures old(store.jobs)[id].attempt < old(store.jobs)[id].maxAttempts ==>
              store.jobs[id].state == Pending && store.jobs[id].attempt == old(store.jobs)[id].attempt + 1
    ensures old(store.jobs)[id].attempt >= old(store.jobs)[id].maxAttempts ==> store.jobs[id].state == Failed
  {
    ghost var before := store.View();
    if store.jobs[id].attempt < store.jobs[id].maxAttempts {
      store.RetryJobRun(id);
    } else {
      store.FailJobRun(id);
    }
    store.Log(before, HandlerFails(id));
  }

  /** Whatever the run's children are, its handler can return some result. */
  lemma HandlerCanReturn(jobs: map<Id, Job>, id: Id)
    requires id in jobs
    ensures MayAwait(jobs, id, jobs[id].jobType == SyncBucket && HasChildren(jobs, id))
  {
  }

  /**
   RunOnce after its claim: the handler runs while everything else goes on, then fails or returns
   any result a handler of its type can return. The outcome is the last thing written, unless the
   lock was lost meanwhile.
   */
  method Execute(store: Store, me: nat, id: Id, registered: bool, fails: bool) returns (written: bool, awaits: bool)
    requires store.Valid() && Executing(store.jobs, id)
    modifies store
    ensures store.Valid() && old(store.history) <= store.history
    ensures written ==> EndsWith(store.history, if !registered then NoHandler(id)
                                                else if fails then HandlerFails(id)
                                                else HandlerReturns(id, awaits))
    ensures written ==> id in store.jobs && store.jobs[id].lockedBy.None?
    ensures written && registered && !fails ==>
              store.jobs[id].awaits == awaits && store.jobs[id].state == if awaits then Running else Succeeded
    ensures !written ==> registered && !Executing(store.jobs, id)
  {
    awaits := false;
    if !registered {
      ghost var before := store.View();
      store.FailJobRun(id);
      store.Log(before, NoHandler(id));
      return true, false;
    }
    store.Others(me);
    if !(id in store.jobs && store.jobs[id].state == Running && store.jobs[id].lockedBy.Some?) {
      return false, false;
    }
    if fails {
      HandleFailure(store, id);
      return true, false;
    }
    HandlerCanReturn(store.jobs, id);
    awaits :| MayAwait(store.jobs, id, awaits);
    ghost var before := store.View();
    store.ValidInv();
    assert FlagOk(store.jobs[id]);
    if awaits {
      store.AwaitJobRunChildren(id);
    } else {
      store.SucceedJobRun(id, false);
    }
    store.Log(before, HandlerReturns(id, awaits));
    written := true;
  }

  // ----- The completion ticker -----

  /**
   FinalizeAwaitingJob. Each read and the final write are separate statements; when the write
   happens, it still agrees with the children as they are at that moment.
   */
  method FinalizeAwaitingJob(store: Store, me: nat, id: Id) returns (done: bool)
    requires store.Valid() && TickerOf(store.View(), me) == Complete(id)
    modifies store
    ensures store.Valid() && TickerOf(store.View(), me).Idle?
    ensures done ==> WritesOnce(old(store.history), store.history, me) && Finalized(store.jobs, id)
    ensures !done ==> NoWrite(old(store.history), store.history, me) && GivesUp(store.history, me, id)
  {
    var complete := store.PollComplete(me, id);
    if !complete {
      return false;
    }
    var failed := store.PollFailed(me, id);
    store.Others(me);
    ghost var before := store.history;
    WriteVerdict(store, me, id, failed);
    assert store.history[..|store.history| - 1] == before;
    done := true;
  }

  /** The finalizer's write, long after its reads: it still agrees with the children of the run. */
  method WriteVerdict(store: Store, me: nat, id: Id, failed: bool)
    requires store.Valid() && TickerOf(store.View(), me) == Verdict(id, failed)
    modifies store
    ensures store.Valid() && store.history == old(store.history) + [TickWrite(me)] && TickerOf(store.View(), me).Idle?
    ensures Finalized(store.jobs, id)
  {
    ghost var before := store.View();
    VerdictStands(store, me, id, failed);
    if failed {
      store.FailJobRun(id);
    } else {
      store.SucceedJobRun(id, true);
    }
    store.tickers := store.tickers[me := Idle];
    store.Log(before, TickWrite(me));
  }

  lemma VerdictStands(store: Store, me: nat, id: Id, failed: bool)
    requires store.Valid() && TickerOf(store.View(), me) == Verdict(id, failed)
    ensures id in store.jobs
    ensures var after := store.jobs[id := if failed then Failure(store.jobs[id]) else Success(store.jobs[id], true)];
      && ChildrenComplete(after, id) && failed == ChildrenFailed(after, id) && (!failed ==> AllSucceeded(after, id))
  {
    store.ValidInv();
    assert TickerOk(store.jobs, TickerOf(store.View(), me));
    VerdictMeans(store.jobs, id);
    var job := if failed then Failure(store.jobs[id]) else Success(store.jobs[id], true);
    OwnRowOk(store.jobs, id, job);
    SameVerdicts(store.jobs, store.jobs[id := job], id);
  }

  /**
   processAwaitingJob: a fresh look at the run, the first check of its children, then the finalizer.
   Either the run is finalized, in agreement with its children, by the ticker's only write; or the
   ticker writes nothing, because its last read found the run no longer awaiting or a child active.
   */
  method ProcessAwaitingJob(store: Store, me: nat, id: Id) returns (count: nat, done: bool)
    requires store.Valid() && TickerOf(store.View(), me).Idle?
    modifies store
    ensures store.Valid() && TickerOf(store.View(), me).Idle?
    ensures done ==> count == 1 && WritesOnce(old(store.history), store.history, me) && Finalized(store.jobs, id)
    ensures !done ==> count <= 1 && NoWrite(old(store.history), store.history, me) && GivesUp(store.history, me, id)
    ensures !done && EndsWith(store.history, TickGet(me, id)) ==> count == 0
  {
    store.Others(me);
    var awaiting := id in store.jobs && store.jobs[id].state == Running && store.jobs[id].awaits;
    ghost var before := store.history;
    store.Perform(TickGet(me, id));
    assert store.history[..|store.history| - 1] == before;
    if !awaiting {
      return 0, false;
    }
    ghost var looked := store.history;
    var complete := store.PollComplete(me, id);
    NoWriteThen(old(store.history), looked, store.history, me);
    if !complete {
      return 1, false;
    }
    ghost var polled := store.history;
    done := FinalizeAwaitingJob(store, me, id);
    NoWriteThen(old(store.history), polled, if done then store.history[..|store.history| - 1] else store.history, me);
    count := if done then 1 else 0;
  }
}
