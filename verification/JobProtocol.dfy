/**
 Job runs and trace completion as a state machine. Every SQL statement is one atomic event, and each
 read of a completion ticker is an event of its own, so anything can happen between its reads and its
 final write. `Apply` leaves the state alone when an event is not enabled.
 */
module JobProtocol {
  import opened Values

  type Id = nat

  datatype JobType = SyncBucket | ScanBucket | ImportObjects | RefreshObjects | RemoveObjects | OtherJob

  datatype JobState = Pending | Running | Succeeded | Failed | Cancelled

  /** `awaits` is the await_children flag of the stored result. */
  datatype Job = Job(
    trace: Id,
    jobType: JobType,
    parent: Option<Id>,
    state: JobState,
    attempt: nat,
    maxAttempts: nat,
    lockedBy: Option<string>,
    started: bool,
    finished: bool,
    awaits: bool)

  /** Where a completion ticker is: which of its reads it has done for which job. */
  datatype Ticker =
    | Idle
    | Got(job: Id)                      // GetJobRun said: running and awaiting
    | Complete(job: Id)                 // DirectChildrenComplete, first time
    | CompleteAgain(job: Id)            // DirectChildrenComplete, inside FinalizeAwaitingJob
    | Verdict(job: Id, failed: bool)    // DirectChildrenFailed

  datatype System = System(jobs: map<Id, Job>, tickers: map<nat, Ticker>)

  datatype Event =
    | Create(id: Id, jobType: JobType, maxAttempts: int)
    | CreateChild(id: Id, parent: Id, jobType: JobType, maxAttempts: int)
    | Claim(id: Id, worker: string)
    | HandlerReturns(id: Id, awaits: bool)
    | HandlerFails(id: Id)
    | NoHandler(id: Id)
    | Reclaim(id: Id)
    | Supersede(id: Id)
    | Resume(id: Id)
    | TickGet(ticker: nat, id: Id)
    | TickComplete(ticker: nat)
    | TickFailed(ticker: nat)
    | TickWrite(ticker: nat)
    | TickDies(ticker: nat)

  predicate Terminal(state: JobState) {
    state == Succeeded || state == Failed || state == Cancelled
  }

  predicate IsChild(jobs: map<Id, Job>, parent: Id, id: Id) {
    id in jobs && jobs[id].parent == Some(parent)
  }

  predicate HasChildren(jobs: map<Id, Job>, parent: Id) {
    exists id :: id in jobs && IsChild(jobs, parent, id)
  }

  /** DirectChildrenComplete: no direct child is pending or running. */
  predicate ChildrenComplete(jobs: map<Id, Job>, parent: Id) {
    forall id :: id in jobs && IsChild(jobs, parent, id) ==> jobs[id].state != Pending && jobs[id].state != Running
  }

  /** DirectChildrenFailed: some direct child is failed. */
  predicate ChildrenFailed(jobs: map<Id, Job>, parent: Id) {
    exists id :: id in jobs && IsChild(jobs, parent, id) && jobs[id].state == Failed
  }

  // ----- The SQL statements, as transitions of one row -----

  function NewJob(id: Id, trace: Id, jobType: JobType, parent: Option<Id>, maxAttempts: int): Job {
    Job(trace, jobType, parent, Pending, 1, if maxAttempts <= 0 then 1 else maxAttempts, None, false, false, false)
  }

  function Claimed(job: Job, worker: string): Job {
    job.(state := Running, lockedBy := Some(worker), started := true)
  }

  function Awaiting(job: Job): Job {
    job.(awaits := true, lockedBy := None)
  }

  /** SucceedJobRun stores a new result and looks at nothing but the id. */
  function Success(job: Job, awaits: bool): Job {
    job.(state := Succeeded, awaits := awaits, lockedBy := None, finished := true)
  }

  /** FailJobRun, ReclaimStaleLockedJobs and FailActiveScanJobsForTarget all write this row. */
  function Failure(job: Job): Job {
    job.(state := Failed, lockedBy := None, finished := true)
  }

  /** RetryJobRun: WHERE attempt < max_attempts. */
  function Retried(job: Job): Job {
    if job.attempt < job.maxAttempts then job.(state := Pending, attempt := job.attempt + 1, lockedBy := None) else job
  }

  function Resumed(job: Job): Job {
    job.(state := Pending, awaits := false, lockedBy := None, finished := false)
  }

  predicate Resumable(job: Job) {
    job.state == Failed || job.state == Cancelled
  }

  /** The resume statement: the run itself and, for a root, every failed run of its trace. */
  function ResumeTrace(jobs: map<Id, Job>, id: Id): map<Id, Job>
    requires id in jobs
  {
    map other | other in jobs ::
      if Resumable(jobs[other]) && (other == id || (jobs[id].trace == id && jobs[other].trace == id))
      then Resumed(jobs[other]) else jobs[other]
  }

  // ----- Events -----

  /** A worker acts on a run only while it holds the run's lock. */
  predicate Executing(jobs: map<Id, Job>, id: Id) {
    id in jobs && jobs[id].state == Running && jobs[id].lockedBy.Some?
  }

  predicate MayCreate(parent: JobType, child: JobType) {
    || (parent == SyncBucket && (child == ImportObjects || child == RefreshObjects || child == RemoveObjects))
    || (parent == ScanBucket && child == SyncBucket)
  }

  /**
   When a handler's result awaits children. A sync reloads all its children and awaits if there are
   any; a scan awaits if this execution created some; other handlers never create children.
   */
  predicate MayAwait(jobs: map<Id, Job>, id: Id, awaits: bool)
    requires id in jobs
  {
    match jobs[id].jobType
    case SyncBucket => awaits == HasChildren(jobs, id)
    case ScanBucket => awaits ==> HasChildren(jobs, id)
    case _ => !awaits
  }

  function TickerOf(s: System, ticker: nat): Ticker {
    if ticker in s.tickers then s.tickers[ticker] else Idle
  }

  function Move(s: System, ticker: nat, to: Ticker): System {
    s.(tickers := s.tickers[ticker := to])
  }

  function Write(s: System, id: Id, job: Job): System {
    s.(jobs := s.jobs[id := job])
  }

  function Apply(s: System, event: Event): System {
    match event
    case Create(id, jobType, maxAttempts) =>
      if id in s.jobs then s else Write(s, id, NewJob(id, id, jobType, None, maxAttempts))
    case CreateChild(id, parent, jobType, maxAttempts) =>
      if id !in s.jobs && Executing(s.jobs, parent) && MayCreate(s.jobs[parent].jobType, jobType)
      then Write(s, id, NewJob(id, s.jobs[parent].trace, jobType, Some(parent), maxAttempts)) else s
    case Claim(id, worker) =>
      if id in s.jobs && s.jobs[id].state == Pending then Write(s, id, Claimed(s.jobs[id], worker)) else s
    case HandlerReturns(id, awaits) =>
      if Executing(s.jobs, id) && MayAwait(s.jobs, id, awaits)
      then Write(s, id, if awaits then Awaiting(s.jobs[id]) else Success(s.jobs[id], false)) else s
    case HandlerFails(id) =>
      if Executing(s.jobs, id)
      then Write(s, id, if s.jobs[id].attempt < s.jobs[id].maxAttempts then Retried(s.jobs[id]) else Failure(s.jobs[id]))
      else s
    case NoHandler(id) => if Executing(s.jobs, id) then Write(s, id, Failure(s.jobs[id])) else s
    case Reclaim(id) => if Executing(s.jobs, id) then Write(s, id, Failure(s.jobs[id])) else s
    case Supersede(id) =>
      if id in s.jobs && s.jobs[id].jobType == ScanBucket && (s.jobs[id].state == Pending || s.jobs[id].state == Running)
      then Write(s, id, Failure(s.jobs[id])) else s
    case Resume(id) => if MayResume(s, id) then s.(jobs := ResumeTrace(s.jobs, id)) else s
    case TickGet(ticker, id) =>
      if TickerOf(s, ticker).Idle? && id in s.jobs && s.jobs[id].state == Running && s.jobs[id].awaits
      then Move(s, ticker, Got(id)) else s
    case TickComplete(ticker) =>
      (match TickerOf(s, ticker)
       case Got(id) => Move(s, ticker, if ChildrenComplete(s.jobs, id) then Complete(id) else Idle)
       case Complete(id) => Move(s, ticker, if ChildrenComplete(s.jobs, id) then CompleteAgain(id) else Idle)
       case _ => s)
    case TickFailed(ticker) =>
      (match TickerOf(s, ticker)
       case CompleteAgain(id) => Move(s, ticker, Verdict(id, ChildrenFailed(s.jobs, id)))
       case _ => s)
    case TickWrite(ticker) =>
      (match TickerOf(s, ticker)
       case Verdict(id, failed) =>
         if id in s.jobs then
           Move(Write(s, id, if failed then Failure(s.jobs[id]) else Success(s.jobs[id], true)), ticker, Idle)
         else s
       case _ => s)
    case TickDies(ticker) => Move(s, ticker, Idle)
  }

  /** What the one caller of the resume statement checks: a failed root sync. */
  predicate MayResume(s: System, id: Id) {
    id in s.jobs && Resumable(s.jobs[id]) && s.jobs[id].jobType == SyncBucket && s.jobs[id].trace == id
  }

  function Run(s: System, events: seq<Event>): System {
    if events == [] then s else Apply(Run(s, events[..|events| - 1]), events[|events| - 1])
  }

  const EMPTY := System(map[], map[])
}
