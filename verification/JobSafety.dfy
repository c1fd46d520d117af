/** What every run of the job table keeps, and what it keeps as long as no resume races a ticker. */
module JobSafety {
  import opened Values
  import opened JobProtocol

  // ----- Lifecycle: kept by every event -----

  ghost predicate RowOk(job: Job) {
    && (job.lockedBy.Some? ==> job.state == Running)
    && (job.state == Running ==> job.started)
    && (Terminal(job.state) <==> job.finished)
    && 1 <= job.attempt <= job.maxAttempts
    && job.state != Cancelled
    && (job.state == Pending || job.lockedBy.Some? ==> !job.awaits)
    && (job.state == Running ==> job.lockedBy.Some? || job.awaits)
  }

  /** Parents exist, share the trace, and only syncs and scans have children. */
  ghost predicate PlacedOk(jobs: map<Id, Job>, id: Id)
    requires id in jobs
  {
    match jobs[id].parent
    case None => jobs[id].trace == id
    case Some(parent) =>
      && parent in jobs && parent != id && jobs[id].trace != id
      && jobs[id].trace == jobs[parent].trace
      && MayCreate(jobs[parent].jobType, jobs[id].jobType)
      && (jobs[id].jobType == SyncBucket ==> jobs[id].trace == parent)
      && (jobs[id].trace in jobs)
  }

  ghost predicate Lifecycle(jobs: map<Id, Job>) {
    forall id :: id in jobs ==> RowOk(jobs[id]) && PlacedOk(jobs, id)
  }

  /** Rewriting a row without moving it in the tree keeps every row in place. */
  lemma RewriteKeeps(jobs: map<Id, Job>, id: Id, job: Job)
    requires Lifecycle(jobs) && id in jobs && RowOk(job)
    requires job.trace == jobs[id].trace && job.jobType == jobs[id].jobType && job.parent == jobs[id].parent
    ensures Lifecycle(jobs[id := job])
  {
    var after := jobs[id := job];
    forall other | other in after ensures RowOk(after[other]) && PlacedOk(after, other) {
      assert PlacedOk(jobs, other);
    }
  }

  lemma InsertKeeps(jobs: map<Id, Job>, id: Id, job: Job)
    requires Lifecycle(jobs) && id !in jobs && RowOk(job) && PlacedOk(jobs[id := job], id)
    ensures Lifecycle(jobs[id := job])
  {
    var after := jobs[id := job];
    forall other | other in after ensures RowOk(after[other]) && PlacedOk(after, other) {
      if other != id {
        assert PlacedOk(jobs, other);
      }
    }
  }

  lemma ResumeTraceKeeps(jobs: map<Id, Job>, id: Id)
    requires Lifecycle(jobs) && id in jobs
    ensures Lifecycle(ResumeTrace(jobs, id))
  {
    var after := ResumeTrace(jobs, id);
    forall other | other in after ensures RowOk(after[other]) && PlacedOk(after, other) {
      assert RowOk(jobs[other]) && PlacedOk(jobs, other);
    }
  }

  lemma ChildIsPlaced(jobs: map<Id, Job>, id: Id, parent: Id, jobType: JobType, maxAttempts: int)
    requires Lifecycle(jobs) && id !in jobs && parent in jobs && MayCreate(jobs[parent].jobType, jobType)
    ensures Lifecycle(jobs[id := NewJob(id, jobs[parent].trace, jobType, Some(parent), maxAttempts)])
  {
    assert PlacedOk(jobs, parent);
    InsertKeeps(jobs, id, NewJob(id, jobs[parent].trace, jobType, Some(parent), maxAttempts));
  }

  lemma LifecycleStep(s: System, event: Event)
    requires Lifecycle(s.jobs)
    ensures Lifecycle(Apply(s, event).jobs)
  {
    match event
    case Create(id, jobType, maxAttempts) =>
      if id !in s.jobs {
        InsertKeeps(s.jobs, id, NewJob(id, id, jobType, None, maxAttempts));
      }
    case CreateChild(id, parent, jobType, maxAttempts) =>
      if id !in s.jobs && Executing(s.jobs, parent) && MayCreate(s.jobs[parent].jobType, jobType) {
        ChildIsPlaced(s.jobs, id, parent, jobType, maxAttempts);
      }
    case Resume(id) =>
      if MayResume(s, id) {
        ResumeTraceKeeps(s.jobs, id);
      }
    case TickWrite(ticker) =>
      if TickerOf(s, ticker).Verdict? && TickerOf(s, ticker).job in s.jobs {
        var id := TickerOf(s, ticker).job;
        assert RowOk(s.jobs[id]);
        RewriteKeeps(s.jobs, id, if TickerOf(s, ticker).failed then Failure(s.jobs[id]) else Success(s.jobs[id], true));
      }
    case TickGet(_, _) =>
    case TickComplete(_) =>
    case TickFailed(_) =>
    case TickDies(_) =>
    case _ => RowStep(s, event);
  }

  /** Events that rewrite the one row they name. */
  lemma RowStep(s: System, event: Event)
    requires Lifecycle(s.jobs)
    requires event.Claim? || event.HandlerReturns? || event.HandlerFails? || event.NoHandler? || event.Reclaim? || event.Supersede?
    ensures Lifecycle(Apply(s, event).jobs)
  {
    var after := Apply(s, event);
    if after != s {
      assert RowOk(s.jobs[event.id]);
      assert after == Write(s, event.id, after.jobs[event.id]);
      RewriteKeeps(s.jobs, event.id, after.jobs[event.id]);
    }
  }

  ghost predicate SamePlace(a: Job, b: Job) {
    a.trace == b.trace && a.jobType == b.jobType && a.parent == b.parent
  }

  /** Every reachable job table obeys the lifecycle, whatever races and crashes happened. */
  lemma {:induction false} LifecycleHolds(events: seq<Event>)
    ensures Lifecycle(Run(EMPTY, events).jobs)
  {
    if events != [] {
      LifecycleHolds(events[..|events| - 1]);
      LifecycleStep(Run(EMPTY, events[..|events| - 1]), events[|events| - 1]);
    }
  }

  // ----- Trace safety: kept while no resume overtakes a ticker -----

  predicate InFlight(s: System, ticker: nat, id: Id) {
    var t := TickerOf(s, ticker);
    !t.Idle? && t.job == id
  }

  /** No ticker has started on the job: what a caller must check before resuming it. */
  predicate Quiet(s: System, id: Id) {
    forall ticker :: ticker in s.tickers ==> !InFlight(s, ticker, id)
  }

  ghost predicate AllSucceeded(jobs: map<Id, Job>, parent: Id) {
    forall id :: id in jobs && IsChild(jobs, parent, id) ==> jobs[id].state == Succeeded
  }

  predicate FansOut(job: Job) {
    job.jobType == SyncBucket || job.jobType == ScanBucket
  }

  ghost predicate FlagOk(job: Job) {
    job.awaits ==> FansOut(job)
  }

  /** A succeeded sync, and any run the finalizer succeeded, has only succeeded direct children. */
  ghost predicate TreeOk(jobs: map<Id, Job>, id: Id)
    requires id in jobs
  {
    jobs[id].state == Succeeded && (jobs[id].jobType == SyncBucket || jobs[id].awaits) ==> AllSucceeded(jobs, id)
  }

  /** What a ticker's reads still mean now. */
  ghost predicate TickerOk(jobs: map<Id, Job>, t: Ticker) {
    t.Idle? ||
    var id := t.job;
    && id in jobs
    && jobs[id].state != Pending && jobs[id].lockedBy.None? && FansOut(jobs[id]) && jobs[id].awaits
    && (!t.Got? ==> ChildrenComplete(jobs, id))
    && (t.Verdict? ==> t.failed == ChildrenFailed(jobs, id))
    && (jobs[id].jobType == SyncBucket && Terminal(jobs[id].state) ==>
          ChildrenComplete(jobs, id) && (jobs[id].state == Failed <==> ChildrenFailed(jobs, id)))
  }

  ghost predicate Flags(jobs: map<Id, Job>) {
    forall id :: id in jobs ==> FlagOk(jobs[id])
  }

  ghost predicate Trees(jobs: map<Id, Job>) {
    forall id :: id in jobs ==> TreeOk(jobs, id)
  }

  ghost predicate Tickers(s: System) {
    forall ticker :: ticker in s.tickers ==> TickerOk(s.jobs, s.tickers[ticker])
  }

  ghost predicate Inv(s: System) {
    Lifecycle(s.jobs) && Flags(s.jobs) && Trees(s.jobs) && Tickers(s)
  }

  predicate Guarded(s: System, event: Event) {
    event.Resume? ==> Quiet(s, event.id)
  }

  ghost predicate GuardedRun(s: System, events: seq<Event>) {
    events == [] ||
      (GuardedRun(s, events[..|events| - 1]) && Guarded(Run(s, events[..|events| - 1]), events[|events| - 1]))
  }

  // ----- Steps of a guarded run -----

  /** The children of `parent` look the same in both tables. */
  ghost predicate SameChildren(jobs: map<Id, Job>, after: map<Id, Job>, parent: Id) {
    && (forall id :: id in after && IsChild(after, parent, id) ==>
          id in jobs && IsChild(jobs, parent, id) && jobs[id].state == after[id].state)
    && (forall id :: id in jobs && IsChild(jobs, parent, id) ==> id in after && IsChild(after, parent, id))
  }

  lemma SameVerdicts(jobs: map<Id, Job>, after: map<Id, Job>, parent: Id)
    requires SameChildren(jobs, after, parent)
    ensures ChildrenComplete(jobs, parent) == ChildrenComplete(after, parent)
    ensures ChildrenFailed(jobs, parent) == ChildrenFailed(after, parent)
    ensures AllSucceeded(jobs, parent) == AllSucceeded(after, parent)
    ensures HasChildren(jobs, parent) == HasChildren(after, parent)
  {
    if ChildrenFailed(jobs, parent) {
      var id :| id in jobs && IsChild(jobs, parent, id) && jobs[id].state == Failed;
      assert IsChild(after, parent, id);
    }
  }

  /** Rows that are untouched and whose children look the same keep their obligations. */
  lemma UntouchedOk(jobs: map<Id, Job>, after: map<Id, Job>, id: Id)
    requires id in jobs && id in after && after[id] == jobs[id] && SameChildren(jobs, after, id)
    ensures TreeOk(jobs, id) ==> TreeOk(after, id)
    ensures forall t: Ticker :: !t.Idle? && t.job == id && TickerOk(jobs, t) ==> TickerOk(after, t)
  {
    SameVerdicts(jobs, after, id);
  }

  predicate Active(job: Job) {
    job.state == Pending || job.state == Running
  }

  /** An active row rewritten, a row whose state stays, or a run that is nobody's child. */
  predicate Harmless(jobs: map<Id, Job>, id: Id, job: Job)
    requires id in jobs
  {
    && job.trace == jobs[id].trace && job.jobType == jobs[id].jobType && job.parent == jobs[id].parent
    && (Active(jobs[id]) || job.state == jobs[id].state || job.parent.None?)
  }

  lemma OtherRowOk(jobs: map<Id, Job>, id: Id, job: Job, other: Id)
    requires Lifecycle(jobs) && id in jobs && other in jobs && other != id && Harmless(jobs, id, job)
    ensures TreeOk(jobs, other) ==> TreeOk(jobs[id := job], other)
    ensures forall t: Ticker :: !t.Idle? && t.job == other && TickerOk(jobs, t) ==> TickerOk(jobs[id := job], t)
  {
    var after := jobs[id := job];
    if jobs[id].parent == Some(other) && job.state != jobs[id].state {
      assert IsChild(jobs, other, id);
      assert !ChildrenComplete(jobs, other) && !AllSucceeded(jobs, other);
    } else {
      UntouchedOk(jobs, after, other);
    }
  }

  lemma OwnRowOk(jobs: map<Id, Job>, id: Id, job: Job)
    requires Lifecycle(jobs) && id in jobs && Harmless(jobs, id, job)
    ensures SameChildren(jobs, jobs[id := job], id)
  {
    assert PlacedOk(jobs, id);
  }

  lemma WriteKeeps(s: System, id: Id, job: Job)
    requires Inv(s) && id in s.jobs && Harmless(s.jobs, id, job) && RowOk(job) && FlagOk(job)
    requires TreeOk(s.jobs[id := job], id)
    requires forall ticker :: ticker in s.tickers && InFlight(s, ticker, id) ==> TickerOk(s.jobs[id := job], s.tickers[ticker])
    ensures Inv(Write(s, id, job))
  {
    var after := s.jobs[id := job];
    RewriteKeeps(s.jobs, id, job);
    forall other | other in after ensures TreeOk(after, other) {
      if other != id {
        OtherRowOk(s.jobs, id, job, other);
      }
    }
    forall ticker | ticker in s.tickers ensures TickerOk(after, s.tickers[ticker]) {
      var t := s.tickers[ticker];
      if !t.Idle? && t.job != id {
        OtherRowOk(s.jobs, id, job, t.job);
      }
    }
  }

  /** A pending run and a run somebody executes are in nobody's flight. */
  lemma NotInFlight(s: System, id: Id)
    requires Inv(s) && id in s.jobs && (s.jobs[id].state == Pending || s.jobs[id].lockedBy.Some?)
    ensures Quiet(s, id)
  {
    forall ticker | ticker in s.tickers ensures !InFlight(s, ticker, id) {
      assert TickerOk(s.jobs, s.tickers[ticker]);
    }
  }

  lemma InsertedKeeps(s: System, id: Id, job: Job)
    requires Inv(s) && id !in s.jobs && RowOk(job) && FlagOk(job) && job.state == Pending
    requires Lifecycle(s.jobs[id := job])
    requires job.parent.Some? ==> Executing(s.jobs, job.parent.value)
    ensures Inv(Write(s, id, job))
  {
    var after := s.jobs[id := job];
    forall other | other in after ensures TreeOk(after, other) {
      if other != id && job.parent != Some(other) {
        UntouchedOk(s.jobs, after, other);
      }
    }
    forall ticker | ticker in s.tickers ensures TickerOk(after, s.tickers[ticker]) {
      var t := s.tickers[ticker];
      assert TickerOk(s.jobs, t);
      if !t.Idle? {
        UntouchedOk(s.jobs, after, t.job);
      }
    }
  }

  /** Resuming a root sync touches that root and its direct children, nothing else. */
  lemma ResumeTouches(jobs: map<Id, Job>, id: Id, other: Id)
    requires Lifecycle(jobs) && id in jobs && jobs[id].jobType == SyncBucket && jobs[id].trace == id
    requires other in jobs && other != id && jobs[other].trace == id
    ensures jobs[other].parent == Some(id) && !FansOut(jobs[other])
  {
    assert PlacedOk(jobs, other) && PlacedOk(jobs, id);
    var parent := jobs[other].parent.value;
    assert PlacedOk(jobs, parent);
  }

  lemma ResumeRowKeeps(jobs: map<Id, Job>, id: Id, other: Id)
    requires Lifecycle(jobs) && id in jobs && jobs[id].jobType == SyncBucket && jobs[id].trace == id && Resumable(jobs[id])
    requires other in jobs && other != id
    ensures SameChildren(jobs, ResumeTrace(jobs, id), other)
    ensures ResumeTrace(jobs, id)[other] == jobs[other] || !FansOut(jobs[other])
  {
    var after := ResumeTrace(jobs, id);
    forall child | child in jobs && after[child] != jobs[child] ensures !IsChild(jobs, other, child) {
      if child != id {
        ResumeTouches(jobs, id, child);
      } else {
        assert PlacedOk(jobs, id);
      }
    }
    if jobs[other].trace == id {
      ResumeTouches(jobs, id, other);
    }
  }

  lemma ResumeKeeps(s: System, id: Id)
    requires Inv(s) && MayResume(s, id) && Quiet(s, id)
    ensures Inv(Apply(s, Resume(id)))
  {
    var after := ResumeTrace(s.jobs, id);
    ResumeTraceKeeps(s.jobs, id);
    forall other | other in after ensures TreeOk(after, other) {
      if after[other] == s.jobs[other] {
        ResumeRowKeeps(s.jobs, id, other);
        UntouchedOk(s.jobs, after, other);
      }
    }
    forall ticker | ticker in s.tickers ensures TickerOk(after, s.tickers[ticker]) {
      var t := s.tickers[ticker];
      assert TickerOk(s.jobs, t) && !InFlight(s, ticker, id);
      if !t.Idle? {
        ResumeRowKeeps(s.jobs, id, t.job);
        UntouchedOk(s.jobs, after, t.job);
      }
    }
  }

  lemma MoveKeeps(s: System, ticker: nat, to: Ticker)
    requires Inv(s) && TickerOk(s.jobs, to)
    ensures Inv(Move(s, ticker, to))
  {
  }

  /** The finalizer's write is backed by its reads. */
  lemma TickWriteKeeps(s: System, ticker: nat)
    requires Inv(s)
    ensures Inv(Apply(s, TickWrite(ticker)))
  {
    var t := TickerOf(s, ticker);
    if t.Verdict? {
      assert TickerOk(s.jobs, t);
      var id := t.job;
      var job := if t.failed then Failure(s.jobs[id]) else Success(s.jobs[id], true);
      OwnRowOk(s.jobs, id, job);
      SameVerdicts(s.jobs, s.jobs[id := job], id);
      VerdictMeans(s.jobs, id);
      assert PlacedOk(s.jobs, id) && RowOk(s.jobs[id]);
      forall other | other in s.tickers && InFlight(s, other, id) ensures TickerOk(s.jobs[id := job], s.tickers[other]) {
        assert TickerOk(s.jobs, s.tickers[other]);
      }
      WriteKeeps(s, id, job);
      MoveKeeps(Write(s, id, job), ticker, Idle);
    }
  }

  lemma VerdictMeans(jobs: map<Id, Job>, id: Id)
    requires Lifecycle(jobs) && ChildrenComplete(jobs, id)
    ensures AllSucceeded(jobs, id) <==> !ChildrenFailed(jobs, id)
  {
    if !ChildrenFailed(jobs, id) {
      forall child | child in jobs && IsChild(jobs, id, child) ensures jobs[child].state == Succeeded {
        assert RowOk(jobs[child]);
      }
    }
  }

  lemma ExecutorKeeps(s: System, id: Id, job: Job)
    requires Inv(s) && id in s.jobs && (s.jobs[id].state == Pending || Executing(s.jobs, id))
    requires RowOk(job) && FlagOk(job) && SamePlace(s.jobs[id], job)
    requires job.state == Succeeded ==> !job.awaits && (job.jobType == SyncBucket ==> !HasChildren(s.jobs, id))
    ensures Inv(Write(s, id, job))
  {
    NotInFlight(s, id);
    OwnRowOk(s.jobs, id, job);
    SameVerdicts(s.jobs, s.jobs[id := job], id);
    WriteKeeps(s, id, job);
  }

  lemma SupersedeKeeps(s: System, id: Id)
    requires Inv(s) && id in s.jobs && s.jobs[id].jobType == ScanBucket && Active(s.jobs[id])
    ensures Inv(Write(s, id, Failure(s.jobs[id])))
  {
    var job := Failure(s.jobs[id]);
    assert RowOk(s.jobs[id]);
    OwnRowOk(s.jobs, id, job);
    SameVerdicts(s.jobs, s.jobs[id := job], id);
    forall ticker | ticker in s.tickers && InFlight(s, ticker, id) ensures TickerOk(s.jobs[id := job], s.tickers[ticker]) {
      assert TickerOk(s.jobs, s.tickers[ticker]);
    }
    WriteKeeps(s, id, job);
  }

  lemma TickReadKeeps(s: System, event: Event)
    requires Inv(s) && (event.TickGet? || event.TickComplete? || event.TickFailed? || event.TickDies?)
    ensures Inv(Apply(s, event))
  {
    assert TickerOk(s.jobs, TickerOf(s, event.ticker));
    match event
    case TickGet(ticker, id) =>
      if id in s.jobs {
        assert RowOk(s.jobs[id]) && FlagOk(s.jobs[id]);
      }
    case _ =>
  }

  lemma StepKeeps(s: System, event: Event)
    requires Inv(s) && Guarded(s, event)
    ensures Inv(Apply(s, event))
  {
    LifecycleStep(s, event);
    match event
    case Create(id, jobType, maxAttempts) =>
      if id !in s.jobs {
        InsertedKeeps(s, id, NewJob(id, id, jobType, None, maxAttempts));
      }
    case CreateChild(id, parent, jobType, maxAttempts) =>
      if id !in s.jobs && Executing(s.jobs, parent) && MayCreate(s.jobs[parent].jobType, jobType) {
        InsertedKeeps(s, id, NewJob(id, s.jobs[parent].trace, jobType, Some(parent), maxAttempts));
      }
    case Resume(id) =>
      if MayResume(s, id) {
        ResumeKeeps(s, id);
      }
    case Supersede(id) =>
      if id in s.jobs && s.jobs[id].jobType == ScanBucket && Active(s.jobs[id]) {
        SupersedeKeeps(s, id);
      }
    case Claim(id, worker) =>
      if id in s.jobs && s.jobs[id].state == Pending {
        assert RowOk(s.jobs[id]) && FlagOk(s.jobs[id]);
        ExecutorKeeps(s, id, Claimed(s.jobs[id], worker));
      }
    case TickWrite(ticker) => TickWriteKeeps(s, ticker);
    case HandlerReturns(id, _) => HandlerKeeps(s, event, id);
    case HandlerFails(id) => HandlerKeeps(s, event, id);
    case NoHandler(id) => HandlerKeeps(s, event, id);
    case Reclaim(id) => HandlerKeeps(s, event, id);
    case _ => TickReadKeeps(s, event);
  }

  lemma HandlerKeeps(s: System, event: Event, id: Id)
    requires Inv(s)
    requires event.HandlerReturns? || event.HandlerFails? || event.NoHandler? || event.Reclaim?
    requires event.id == id
    ensures Inv(Apply(s, event))
  {
    if Executing(s.jobs, id) && Apply(s, event) != s {
      assert RowOk(s.jobs[id]) && FlagOk(s.jobs[id]);
      ExecutorKeeps(s, id, Apply(s, event).jobs[id]);
    }
  }

  ghost predicate NoResume(events: seq<Event>) {
    forall e :: e in events ==> !e.Resume?
  }

  /** A guarded run leads from a safe state to safe states. */
  lemma {:induction false} GuardedKeeps(s: System, events: seq<Event>)
    requires Inv(s) && GuardedRun(s, events)
    ensures Inv(Run(s, events))
  {
    if events != [] {
      GuardedKeeps(s, events[..|events| - 1]);
      StepKeeps(Run(s, events[..|events| - 1]), events[|events| - 1]);
    }
  }

  lemma GuardedRunKeeps(events: seq<Event>)
    requires GuardedRun(EMPTY, events)
    ensures Inv(Run(EMPTY, events))
  {
    GuardedKeeps(EMPTY, events);
  }

  lemma {:induction false} NoResumeIsGuarded(s: System, events: seq<Event>)
    requires NoResume(events)
    ensures GuardedRun(s, events)
  {
    if events != [] {
      assert events[|events| - 1] in events;
      forall e | e in events[..|events| - 1] ensures e in events {}
      NoResumeIsGuarded(s, events[..|events| - 1]);
    }
  }

  lemma NoResumeKeeps(s: System, events: seq<Event>)
    requires Inv(s) && NoResume(events)
    ensures Inv(Run(s, events))
  {
    NoResumeIsGuarded(s, events);
    GuardedKeeps(s, events);
  }
}
