/** What one event can do to one run: which states, attempts and locks change, by which events, from any state of the table. */
module JobTransitions {
  import opened Values
  import opened JobProtocol

  /** Everything about a run that no event changes. */
  predicate SameRun(before: Job, after: Job) {
    before.trace == after.trace && before.jobType == after.jobType && before.parent == after.parent && before.maxAttempts == after.maxAttempts
  }

  /** A worker holds the run's lock and has not finished. */
  predicate Held(s: System, id: Id) {
    id in s.jobs && s.jobs[id].state == Running && s.jobs[id].lockedBy != None
  }

  /** The event is the failure of a run that may be tried again. */
  predicate FailsWithAttemptsLeft(s: System, event: Event, id: Id) {
    event == HandlerFails(id) && Held(s, id) && s.jobs[id].attempt < s.jobs[id].maxAttempts
  }

  /** Runs are never deleted, and what identifies them never changes. */
  lemma RunsStay(s: System, event: Event, id: Id)
    requires id in s.jobs
    ensures var t := Apply(s, event); id in t.jobs && SameRun(s.jobs[id], t.jobs[id])
  {
  }

  /** A run's attempt changes only by its own failure with attempts left, by one, and it then waits to be claimed again. */
  lemma AttemptChangesIff(s: System, event: Event, id: Id)
    requires id in s.jobs
    ensures var before, after := s.jobs[id], Apply(s, event).jobs[id];
      && (after.attempt != before.attempt <==> FailsWithAttemptsLeft(s, event, id))
      && (before.state == Running && after.state == Pending <==> FailsWithAttemptsLeft(s, event, id))
      && (FailsWithAttemptsLeft(s, event, id) ==> after.attempt == before.attempt + 1 && after.lockedBy == None)
  {
  }

  /** Reclaiming a stale run, having no handler for it, and failing its last attempt end it, at the attempt it was at. */
  lemma HeldRunFails(s: System, event: Event, id: Id)
    requires Held(s, id)
    requires event in {Reclaim(id), NoHandler(id)} || (event == HandlerFails(id) && s.jobs[id].attempt >= s.jobs[id].maxAttempts)
    ensures var before, after := s.jobs[id], Apply(s, event).jobs[id];
      && after.state == Failed && after.finished && after.lockedBy == None
      && after.attempt == before.attempt && after.awaits == before.awaits && after.started == before.started
  {
  }

  /** Events of a worker do nothing to a run that is not held. */
  lemma OnlyHeldRunsAreWorkedOn(s: System, event: Event, id: Id)
    requires !Held(s, id)
    requires event in {Reclaim(id), NoHandler(id), HandlerFails(id), HandlerReturns(id, true), HandlerReturns(id, false)}
    ensures Apply(s, event) == s
  {
  }

  /** A step on one run leaves all others as they were; only a resume reaches several. */
  predicate ConcernsRun(s: System, event: Event, id: Id) {
    match event
    case Create(_, _, _) => false
    case CreateChild(_, _, _, _) => false
    case Resume(root) => id == root || (id in s.jobs && s.jobs[id].trace == root)
    case TickGet(_, _) => false
    case TickComplete(_) => false
    case TickFailed(_) => false
    case TickDies(_) => false
    case TickWrite(ticker) =>
      (match TickerOf(s, ticker) case Verdict(awaited, _) => awaited == id case _ => false)
    case _ => event.id == id
  }

  lemma OthersStay(s: System, event: Event, id: Id)
    requires id in s.jobs && !ConcernsRun(s, event, id)
    ensures id in Apply(s, event).jobs && Apply(s, event).jobs[id] == s.jobs[id]
  {
  }

  // ----- From state to state -----

  /** The events that take a run from one state to another. */
  ghost predicate Leads(s: System, event: Event, id: Id, from: JobState, to: JobState)
    requires id in s.jobs
  {
    match (from, to)
    case (Pending, Running) => event.Claim? && event.id == id
    case (Running, Pending) => FailsWithAttemptsLeft(s, event, id)
    case (Pending, Succeeded) => Concludes(s, event, id, false)
    case (Pending, Failed) => Concludes(s, event, id, true) || (event == Supersede(id) && s.jobs[id].jobType == ScanBucket)
    case (Running, Succeeded) => Concludes(s, event, id, false) || (event == HandlerReturns(id, false) && Held(s, id) && HasNothingToAwait(s, id))
    case (Running, Failed) =>
      || Concludes(s, event, id, true)
      || (event == Supersede(id) && s.jobs[id].jobType == ScanBucket)
      || (Held(s, id) && event in {Reclaim(id), NoHandler(id)})
      || (Held(s, id) && event == HandlerFails(id) && s.jobs[id].attempt >= s.jobs[id].maxAttempts)
    case (Failed, Pending) => event.Resume? && Reaches(s, event.id, id)
    case (Cancelled, Pending) => event.Resume? && Reaches(s, event.id, id)
    case (Failed, Succeeded) => Concludes(s, event, id, false)
    case (Cancelled, Succeeded) => Concludes(s, event, id, false)
    case (Succeeded, Failed) => Concludes(s, event, id, true)
    case (Cancelled, Failed) => Concludes(s, event, id, true)
    case _ => false
  }

  /** A ticker writes the verdict it has read. */
  predicate Concludes(s: System, event: Event, id: Id, failed: bool) {
    event.TickWrite? && event.ticker in s.tickers && s.tickers[event.ticker] == Verdict(id, failed)
  }

  /** Only a sync must wait for the children it has. */
  ghost predicate HasNothingToAwait(s: System, id: Id)
    requires id in s.jobs
  {
    s.jobs[id].jobType == SyncBucket ==> forall child :: child in s.jobs ==> s.jobs[child].parent != Some(id)
  }

  /** The failed or cancelled root sync is resumed, and with it the failed and cancelled runs of its trace. */
  predicate Reaches(s: System, root: Id, id: Id) {
    && root in s.jobs && s.jobs[root].state in {Failed, Cancelled} && s.jobs[root].jobType == SyncBucket && s.jobs[root].trace == root
    && id in s.jobs && s.jobs[id].state in {Failed, Cancelled} && (id == root || s.jobs[id].trace == root)
  }

  /** A run goes from one state to another exactly by the events of the table. */
  lemma StateChangesIff(s: System, event: Event, id: Id, to: JobState)
    requires id in s.jobs && to != s.jobs[id].state
    ensures Apply(s, event).jobs[id].state == to <==> Leads(s, event, id, s.jobs[id].state, to)
  {
    if event.TickWrite? {
      ConcludingChangesIff(s, event.ticker, id, to);
    } else if event.HandlerReturns? {
      ReturningChangesIff(s, event.id, event.awaits, id, to);
    } else if event.Resume? {
      ResumingChangesIff(s, event.id, id, to);
    } else if ConcernsRun(s, event, id) {
      OtherChangesIff(s, event, id, to);
    } else {
      OthersStay(s, event, id);
    }
  }

  lemma ConcludingChangesIff(s: System, ticker: nat, id: Id, to: JobState)
    requires id in s.jobs && to != s.jobs[id].state
    ensures Apply(s, TickWrite(ticker)).jobs[id].state == to <==> Leads(s, TickWrite(ticker), id, s.jobs[id].state, to)
  {
  }

  lemma ReturningChangesIff(s: System, returned: Id, awaits: bool, id: Id, to: JobState)
    requires id in s.jobs && to != s.jobs[id].state
    ensures Apply(s, HandlerReturns(returned, awaits)).jobs[id].state == to <==>
            Leads(s, HandlerReturns(returned, awaits), id, s.jobs[id].state, to)
  {
    SomeChild(s, id);
  }

  lemma ResumingChangesIff(s: System, root: Id, id: Id, to: JobState)
    requires id in s.jobs && to != s.jobs[id].state
    ensures Apply(s, Resume(root)).jobs[id].state == to <==> Leads(s, Resume(root), id, s.jobs[id].state, to)
  {
    ResumeBringsBack(s, root, id);
  }

  lemma OtherChangesIff(s: System, event: Event, id: Id, to: JobState)
    requires id in s.jobs && to != s.jobs[id].state
    requires event in {HandlerFails(id), NoHandler(id), Reclaim(id), Supersede(id)} || (event.Claim? && event.id == id)
    ensures Apply(s, event).jobs[id].state == to <==> Leads(s, event, id, s.jobs[id].state, to)
  {
  }

  lemma SomeChild(s: System, id: Id)
    ensures HasChildren(s.jobs, id) <==> exists child :: child in s.jobs && s.jobs[child].parent == Some(id)
  {
    if child :| child in s.jobs && s.jobs[child].parent == Some(id) {
      assert IsChild(s.jobs, id, child);
    }
  }

  /** A lock is given only to the worker that claims a pending run, and is gone whenever a run has left Running. */
  lemma LocksAreClaimed(s: System, event: Event, id: Id)
    requires id in s.jobs
    ensures var before, after := s.jobs[id], Apply(s, event).jobs[id];
      && (after.lockedBy != before.lockedBy && after.lockedBy != None ==>
            before.state == Pending && after.state == Running && event == Claim(id, after.lockedBy.value))
      && (after.state != before.state && after.state != Running ==> after.lockedBy == None)
      && (event.Claim? && event.id == id && before.state == Pending ==> after.lockedBy == Some(event.worker) && after.started)
  {
  }

  // ----- New runs -----

  /** Which handlers start which runs. */
  const STARTS := {(SyncBucket, ImportObjects), (SyncBucket, RefreshObjects), (SyncBucket, RemoveObjects), (ScanBucket, SyncBucket)}

  predicate Starts(s: System, event: Event, id: Id) {
    match event
    case Create(other, _, _) => other == id
    case CreateChild(other, parent, jobType, _) => other == id && Held(s, parent) && (s.jobs[parent].jobType, jobType) in STARTS
    case _ => false
  }

  /** A run appears exactly when it is enqueued or a held run of the right type starts it; it is then new in every respect. */
  lemma RunAppearsIff(s: System, event: Event, id: Id)
    requires id !in s.jobs
    ensures id in Apply(s, event).jobs <==> Starts(s, event, id)
    ensures id in Apply(s, event).jobs ==>
      var created := Apply(s, event).jobs[id];
      && created.state == Pending && created.attempt == 1 && created.lockedBy == None && !created.started && !created.finished && !created.awaits
      && created.jobType == event.jobType && created.maxAttempts >= 1 && (event.maxAttempts >= 1 ==> created.maxAttempts == event.maxAttempts)
      && (event.maxAttempts < 1 ==> created.maxAttempts == 1)
      && (if event.Create? then created.parent == None && created.trace == id
          else created.parent == Some(event.parent) && created.trace == s.jobs[event.parent].trace)
  {
  }

  // ----- Returning and waiting -----

  /** A held run that returns waits, still running, or has succeeded; a sync waits exactly when it has children. */
  lemma ReturningEndsOrWaits(s: System, id: Id, awaits: bool)
    requires Held(s, id)
    ensures var after := Apply(s, HandlerReturns(id, awaits)).jobs[id];
      && (after != s.jobs[id] && awaits ==> after.state == Running && after.awaits && after.lockedBy == None && after.finished == s.jobs[id].finished)
      && (after != s.jobs[id] && !awaits ==> after.state == Succeeded && after.finished && !after.awaits && after.lockedBy == None)
    ensures Apply(s, HandlerReturns(id, awaits)) != s <==>
      var some := exists child :: child in s.jobs && s.jobs[child].parent == Some(id);
      if s.jobs[id].jobType == SyncBucket then awaits == some
      else if s.jobs[id].jobType == ScanBucket then awaits ==> some
      else !awaits
  {
    SomeChild(s, id);
    var after := Apply(s, HandlerReturns(id, awaits)).jobs[id];
    if MayAwait(s.jobs, id, awaits) {
      assert after.lockedBy != s.jobs[id].lockedBy;
    }
  }

  // ----- The ticker -----

  ghost predicate AllChildrenEnded(s: System, id: Id) {
    forall child :: child in s.jobs && s.jobs[child].parent == Some(id) ==> s.jobs[child].state in {Succeeded, Failed, Cancelled}
  }

  ghost predicate SomeChildFailed(s: System, id: Id) {
    exists child :: child in s.jobs && s.jobs[child].parent == Some(id) && s.jobs[child].state == Failed
  }

  /** A ticker takes up a running, waiting run; twice it goes on only if all children have ended; then it reads whether one failed. */
  lemma TickerReads(s: System, ticker: nat, id: Id)
    ensures var at := TickerOf(s, ticker);
      && (TickerOf(Apply(s, TickGet(ticker, id)), ticker) == Got(id) && at == Idle <==>
            at == Idle && id in s.jobs && s.jobs[id].state == Running && s.jobs[id].awaits)
      && (at == Got(id) ==> TickerOf(Apply(s, TickComplete(ticker)), ticker) == if AllChildrenEnded(s, id) then Complete(id) else Idle)
      && (at == Complete(id) ==> TickerOf(Apply(s, TickComplete(ticker)), ticker) == if AllChildrenEnded(s, id) then CompleteAgain(id) else Idle)
      && (at == CompleteAgain(id) ==> TickerOf(Apply(s, TickFailed(ticker)), ticker) == Verdict(id, SomeChildFailed(s, id)))
  {
    ChildrenEnd(s, id);
  }

  lemma ChildrenEnd(s: System, id: Id)
    ensures ChildrenComplete(s.jobs, id) <==> AllChildrenEnded(s, id)
    ensures ChildrenFailed(s.jobs, id) <==> SomeChildFailed(s, id)
  {
    if child :| child in s.jobs && s.jobs[child].parent == Some(id) && s.jobs[child].state !in {Succeeded, Failed, Cancelled} {
      assert IsChild(s.jobs, id, child);
    }
    if child :| child in s.jobs && s.jobs[child].parent == Some(id) && s.jobs[child].state == Failed {
      assert IsChild(s.jobs, id, child);
    }
  }

  /** What is written in the end: failed or succeeded as read, finished, unlocked, at the same attempt, and the ticker is free again. */
  lemma VerdictIsWritten(s: System, ticker: nat, id: Id, failed: bool)
    requires TickerOf(s, ticker) == Verdict(id, failed) && id in s.jobs
    ensures var t := Apply(s, TickWrite(ticker)); var after := t.jobs[id];
      && after.state == (if failed then Failed else Succeeded) && after.finished && after.lockedBy == None
      && after.attempt == s.jobs[id].attempt && TickerOf(t, ticker) == Idle
  {
  }

  /** A resume brings back exactly the failed and cancelled runs it reaches, unlocked, unfinished and at the attempt they had. */
  lemma ResumeBringsBack(s: System, root: Id, id: Id)
    requires id in s.jobs
    ensures var before, after := s.jobs[id], Apply(s, Resume(root)).jobs[id];
      if Reaches(s, root, id)
      then after.state == Pending && after.lockedBy == None && !after.finished && !after.awaits && after.attempt == before.attempt
      else after == before
  {
  }
}
