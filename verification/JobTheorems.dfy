/** Promises of the job lifecycle and of trace completion over every run, and where they end. */
module JobTheorems {
  import opened Values
  import opened JobProtocol
  import opened JobSafety

  // ----- Trees -----

  /** A chain of direct children, from an ancestor down to a descendant. */
  ghost predicate Chain(jobs: map<Id, Job>, path: seq<Id>) {
    && |path| > 0
    && (forall i :: 0 <= i < |path| ==> path[i] in jobs)
    && (forall i :: 0 <= i < |path| - 1 ==> IsChild(jobs, path[i], path[i + 1]))
  }

  lemma {:induction false} ChainSucceeded(jobs: map<Id, Job>, path: seq<Id>)
    requires Lifecycle(jobs) && Trees(jobs) && Chain(jobs, path)
    requires jobs[path[0]].state == Succeeded && (jobs[path[0]].jobType == SyncBucket || jobs[path[0]].awaits)
    ensures jobs[path[|path| - 1]].state == Succeeded
  {
    if |path| > 1 {
      assert TreeOk(jobs, path[0]) && IsChild(jobs, path[0], path[1]);
      assert PlacedOk(jobs, path[1]);
      if |path| > 2 {
        assert IsChild(jobs, path[1], path[2]) && PlacedOk(jobs, path[2]);
        assert forall i :: 0 <= i < |path| - 2 ==> IsChild(jobs, path[1..][i], path[1..][i + 1]);
        ChainSucceeded(jobs, path[1..]);
      }
    }
  }

  /**
   In every reachable state of a guarded run, a succeeded sync, or a run the finalizer succeeded, has
   only succeeded descendants at any depth.
   */
  lemma SucceededTreesAreClean(events: seq<Event>, path: seq<Id>)
    requires GuardedRun(EMPTY, events)
    requires var jobs := Run(EMPTY, events).jobs;
      && Chain(jobs, path) && jobs[path[0]].state == Succeeded
      && (jobs[path[0]].jobType == SyncBucket || jobs[path[0]].awaits)
    ensures Run(EMPTY, events).jobs[path[|path| - 1]].state == Succeeded
  {
    GuardedRunKeeps(events);
    ChainSucceeded(Run(EMPTY, events).jobs, path);
  }

  /**
   A ticker about to write: its run neither waits to be claimed nor is executed by a worker, and its
   direct children are all succeeded, or all terminal with one failed, as the verdict says.
   */
  ghost predicate SafeVerdict(s: System, ticker: nat) {
    var t := TickerOf(s, ticker);
    t.Verdict? ==>
      && t.job in s.jobs && s.jobs[t.job].state != Pending && s.jobs[t.job].lockedBy.None?
      && (t.failed ==> ChildrenComplete(s.jobs, t.job) && ChildrenFailed(s.jobs, t.job))
      && (!t.failed ==> AllSucceeded(s.jobs, t.job))
  }

  lemma InvIsSafe(s: System, ticker: nat)
    requires Inv(s)
    ensures SafeVerdict(s, ticker)
  {
    var t := TickerOf(s, ticker);
    if t.Verdict? {
      assert TickerOk(s.jobs, t);
      VerdictMeans(s.jobs, t.job);
    }
  }

  /** At the moment of its write, every ticker of a guarded run is right about the run it finalizes. */
  lemma FinalizerIsSafe(events: seq<Event>, ticker: nat)
    requires GuardedRun(EMPTY, events)
    ensures SafeVerdict(Run(EMPTY, events), ticker)
  {
    GuardedRunKeeps(events);
    InvIsSafe(Run(EMPTY, events), ticker);
  }

  // ----- Terminal states -----

  /** A late finalizer is about to write the other outcome over a recorded one. */
  predicate Overrules(s: System, event: Event, id: Id)
    requires id in s.jobs
  {
    event.TickWrite? &&
    var t := TickerOf(s, event.ticker);
    t.Verdict? && t.job == id && s.jobs[id].state != if t.failed then Failed else Succeeded
  }

  predicate IsResumedBy(s: System, event: Event, id: Id)
    requires id in s.jobs
  {
    event.Resume? && MayResume(s, event.id) && Resumable(s.jobs[id]) && s.jobs[id].trace == event.id
  }

  /** A terminal state changes exactly when a resume of the trace takes it back or a late finalizer overrules it. */
  lemma TerminalChangesIff(s: System, event: Event, id: Id)
    requires Inv(s) && Guarded(s, event) && id in s.jobs && Terminal(s.jobs[id].state)
    ensures id in Apply(s, event).jobs
    ensures Apply(s, event).jobs[id].state != s.jobs[id].state <==> IsResumedBy(s, event, id) || Overrules(s, event, id)
  {
    assert RowOk(s.jobs[id]);
    match event
    case TickWrite(ticker) =>
      assert TickerOk(s.jobs, TickerOf(s, ticker));
    case _ =>
  }

  /** Only a scan recorded as failed, all of whose children have succeeded, is ever overruled. */
  lemma OverruledIsFailedScan(s: System, event: Event, id: Id)
    requires Inv(s) && id in s.jobs && Terminal(s.jobs[id].state) && Overrules(s, event, id)
    ensures s.jobs[id].jobType == ScanBucket && s.jobs[id].state == Failed && AllSucceeded(s.jobs, id)
    ensures Apply(s, event).jobs[id].state == Succeeded
  {
    var t := TickerOf(s, event.ticker);
    assert TickerOk(s.jobs, t) && TreeOk(s.jobs, id) && RowOk(s.jobs[id]);
    VerdictMeans(s.jobs, id);
  }

  /** The state of anything but a scan, once terminal, is left only by a resume of its trace. */
  lemma TerminalIsFinal(s: System, event: Event, id: Id)
    requires Inv(s) && Guarded(s, event)
    requires id in s.jobs && s.jobs[id].jobType != ScanBucket && Terminal(s.jobs[id].state)
    ensures id in Apply(s, event).jobs
    ensures Apply(s, event).jobs[id].state != s.jobs[id].state <==> IsResumedBy(s, event, id)
  {
    TerminalChangesIff(s, event, id);
    if Overrules(s, event, id) {
      OverruledIsFailedScan(s, event, id);
    }
  }

  // ----- The guard on resuming -----

  /** A succeeded sync with a direct child that has not succeeded. */
  ghost predicate Broken(jobs: map<Id, Job>) {
    exists id :: id in jobs && jobs[id].jobType == SyncBucket && jobs[id].state == Succeeded && !AllSucceeded(jobs, id)
  }

  lemma GuardedRunsAreNotBroken(events: seq<Event>)
    requires GuardedRun(EMPTY, events)
    ensures !Broken(Run(EMPTY, events).jobs)
  {
    GuardedRunKeeps(events);
    var jobs := Run(EMPTY, events).jobs;
    forall id | id in jobs && jobs[id].jobType == SyncBucket && jobs[id].state == Succeeded ensures AllSucceeded(jobs, id) {
      assert TreeOk(jobs, id);
    }
  }

  lemma RunSnoc(s: System, events: seq<Event>, event: Event)
    ensures Run(s, events + [event]) == Apply(Run(s, events), event)
  {
    assert (events + [event])[..|events|] == events;
  }

  lemma {:induction false} RunAppend(s: System, first: seq<Event>, second: seq<Event>)
    ensures Run(s, first + second) == Run(Run(s, first), second)
    decreases |second|
  {
    if second == [] {
      assert first + second == first;
    } else {
      var init, last := second[..|second| - 1], second[|second| - 1];
      RunAppend(s, first, init);
      RunSnoc(s, first + init, last);
      assert first + second == (first + init) + [last];
    }
  }

  /** The children of `id` wait, are executed or have succeeded, and none of them fans out. */
  ghost predicate Drainable(jobs: map<Id, Job>, id: Id) {
    forall child :: child in jobs && IsChild(jobs, id, child) ==>
      (jobs[child].state == Pending || Executing(jobs, child) || jobs[child].state == Succeeded) && !FansOut(jobs[child]) && child != id
  }

  ghost function Unfinished(jobs: map<Id, Job>, id: Id): set<Id> {
    set child | child in jobs && IsChild(jobs, id, child) && Active(jobs[child])
  }

  /** Nothing but the children of `id` has changed, and they have kept their places. */
  ghost predicate OnlyChildrenChange(before: map<Id, Job>, after: map<Id, Job>, id: Id) {
    && after.Keys == before.Keys
    && forall other :: other in before ==>
         SamePlace(before[other], after[other]) && (!IsChild(before, id, other) ==> after[other] == before[other])
  }

  /** Workers can always bring all unfinished children to success without touching anything else. */
  lemma {:induction false} Drain(s: System, id: Id) returns (events: seq<Event>)
    requires id in s.jobs && Drainable(s.jobs, id)
    ensures NoResume(events)
    ensures var t := Run(s, events);
      && t.tickers == s.tickers && OnlyChildrenChange(s.jobs, t.jobs, id) && t.jobs[id] == s.jobs[id] && AllSucceeded(t.jobs, id)
    decreases Unfinished(s.jobs, id)
  {
    events := [];
    if Unfinished(s.jobs, id) == {} {
      forall child | child in s.jobs && IsChild(s.jobs, id, child) ensures s.jobs[child].state == Succeeded {
        assert child !in Unfinished(s.jobs, id);
      }
    } else {
      var child :| child in Unfinished(s.jobs, id);
      var first := Finish(s, child);
      var next := Run(s, first);
      forall other | other in next.jobs && IsChild(next.jobs, id, other)
        ensures IsChild(s.jobs, id, other)
      {
      }
      assert Unfinished(next.jobs, id) == Unfinished(s.jobs, id) - {child};
      var rest := Drain(next, id);
      RunAppend(s, first, rest);
      events := first + rest;
    }
  }

  /** A worker brings one run that does not fan out to success. */
  lemma Finish(s: System, id: Id) returns (events: seq<Event>)
    requires id in s.jobs && !FansOut(s.jobs[id]) && (s.jobs[id].state == Pending || Executing(s.jobs, id))
    ensures NoResume(events)
    ensures var t := Run(s, events);
      id in t.jobs && t == Write(s, id, t.jobs[id]) && SamePlace(s.jobs[id], t.jobs[id]) && t.jobs[id].state == Succeeded
  {
    if s.jobs[id].state == Pending {
      events := [Claim(id, "w"), HandlerReturns(id, false)];
      TwoEvents(s, Claim(id, "w"), HandlerReturns(id, false));
    } else {
      events := [HandlerReturns(id, false)];
      RunSnoc(s, [], HandlerReturns(id, false));
      assert [] + events == events;
    }
  }

  /** A state right after a resume that a ticker, not yet through its polls, did not see. */
  ghost predicate Raced(s: System, id: Id, ticker: nat) {
    && id in s.jobs && s.jobs[id].jobType == SyncBucket && s.jobs[id].state == Pending
    && Drainable(s.jobs, id)
    && InFlight(s, ticker, id) && !TickerOf(s, ticker).Verdict?
  }

  lemma ResumedIsRaced(s: System, id: Id, ticker: nat)
    requires Inv(s) && MayResume(s, id) && InFlight(s, ticker, id) && !TickerOf(s, ticker).Verdict?
    ensures Raced(Apply(s, Resume(id)), id, ticker)
    ensures Unfinished(Apply(s, Resume(id)).jobs, id) != {}
  {
    var after := ResumeTrace(s.jobs, id);
    assert TickerOk(s.jobs, TickerOf(s, ticker));
    assert PlacedOk(s.jobs, id) && RowOk(s.jobs[id]);
    forall child | child in after && IsChild(after, id, child)
      ensures (after[child].state == Pending || after[child].state == Succeeded) && !FansOut(after[child]) && child != id
    {
      assert IsChild(s.jobs, id, child);
      assert PlacedOk(s.jobs, child) && RowOk(s.jobs[child]);
    }
    var failed :| failed in s.jobs && IsChild(s.jobs, id, failed) && s.jobs[failed].state == Failed;
    assert PlacedOk(s.jobs, failed);
    assert failed in Unfinished(after, id);
  }

  /** At the last stage the ticker's next two events succeed the run although a child is waiting. */
  lemma LateRaceBreaks(s: System, id: Id, ticker: nat)
    requires Raced(s, id, ticker) && TickerOf(s, ticker).CompleteAgain? && Unfinished(s.jobs, id) != {}
    ensures Broken(Run(s, [TickFailed(ticker), TickWrite(ticker)]).jobs)
  {
    assert !ChildrenFailed(s.jobs, id);
    TwoEvents(s, TickFailed(ticker), TickWrite(ticker));
    var t := Run(s, [TickFailed(ticker), TickWrite(ticker)]);
    assert t.jobs == s.jobs[id := Success(s.jobs[id], true)];
    var child :| child in Unfinished(s.jobs, id);
    assert child in t.jobs && IsChild(t.jobs, id, child) && t.jobs[child].state != Succeeded;
    assert !AllSucceeded(t.jobs, id) && t.jobs[id].state == Succeeded;
  }

  /** A ticker that polls a run without active children gets to the last of its reads. */
  lemma PollsThrough(s: System, id: Id, ticker: nat) returns (events: seq<Event>)
    requires ChildrenComplete(s.jobs, id)
    requires TickerOf(s, ticker) == Got(id) || TickerOf(s, ticker) == Complete(id)
    ensures NoResume(events)
    ensures Run(s, events).jobs == s.jobs && TickerOf(Run(s, events), ticker) == CompleteAgain(id)
  {
    var once := [TickComplete(ticker)];
    RunSnoc(s, [], TickComplete(ticker));
    assert [] + once == once && Run(s, once) == Apply(s, TickComplete(ticker));
    events := once;
    if TickerOf(s, ticker).Got? {
      RunSnoc(s, once, TickComplete(ticker));
      events := once + [TickComplete(ticker)];
    }
  }

  /** The ticker reads that nothing failed, the resumed run adds a child, and the ticker writes. */
  lemma StaleWriteBreaks(s: System, id: Id, ticker: nat, newId: Id) returns (events: seq<Event>)
    requires id in s.jobs && s.jobs[id].jobType == SyncBucket && s.jobs[id].state == Pending && newId !in s.jobs
    requires AllSucceeded(s.jobs, id) && TickerOf(s, ticker) == CompleteAgain(id)
    ensures NoResume(events) && Broken(Run(s, events).jobs)
  {
    events := [TickFailed(ticker), Claim(id, "w"), CreateChild(newId, id, ImportObjects, 1), TickWrite(ticker)];
    FourEvents(s, events);
    assert !ChildrenFailed(s.jobs, id);
    var a := Move(s, ticker, Verdict(id, false));
    var b := Write(a, id, Claimed(s.jobs[id], "w"));
    var child := NewJob(newId, s.jobs[id].trace, ImportObjects, Some(id), 1);
    var c := Write(b, newId, child);
    assert Apply(s, events[0]) == a && Apply(a, events[1]) == b && Apply(b, events[2]) == c;
    var jobs := Apply(c, events[3]).jobs;
    assert newId in jobs && IsChild(jobs, id, newId) && jobs[newId].state == Pending;
    assert jobs[id].state == Succeeded && !AllSucceeded(jobs, id);
  }

  lemma TwoEvents(s: System, first: Event, second: Event)
    ensures Run(s, [first, second]) == Apply(Apply(s, first), second)
  {
    RunSnoc(s, [], first);
    RunSnoc(s, [first], second);
    assert [] + [first] == [first] && [first] + [second] == [first, second];
  }

  lemma FourEvents(s: System, events: seq<Event>)
    requires |events| == 4
    ensures Run(s, events) == Apply(Apply(Apply(Apply(s, events[0]), events[1]), events[2]), events[3])
  {
    RunSnoc(s, [], events[0]);
    RunSnoc(s, [events[0]], events[1]);
    RunSnoc(s, [events[0], events[1]], events[2]);
    RunSnoc(s, [events[0], events[1], events[2]], events[3]);
    assert [] + [events[0]] == [events[0]] && [events[0]] + [events[1]] == [events[0], events[1]];
    assert [events[0], events[1]] + [events[2]] == [events[0], events[1], events[2]];
    assert [events[0], events[1], events[2]] + [events[3]] == events;
  }

  lemma FreshId(jobs: map<Id, Job>) returns (newId: Id)
    ensures newId !in jobs
  {
    var largest := LargestKey(jobs.Keys);
    newId := largest + 1;
  }

  lemma {:induction false} LargestKey(keys: set<Id>) returns (largest: nat)
    ensures forall key :: key in keys ==> key <= largest
    decreases keys
  {
    if keys == {} {
      largest := 0;
    } else {
      var key :| key in keys;
      var rest := LargestKey(keys - {key});
      largest := if key > rest then key else rest;
      forall other | other in keys ensures other <= largest {
        assert other == key || other in keys - {key};
      }
    }
  }

  /**
   The guard cannot be weakened: resuming a run while a ticker still has reads to do can always be
   continued, without any further resume, to a succeeded sync with a child that has not succeeded.
   */
  lemma UnguardedResumeBreaks(s: System, id: Id, ticker: nat)
    requires Inv(s) && MayResume(s, id) && InFlight(s, ticker, id) && !TickerOf(s, ticker).Verdict?
    ensures exists events :: NoResume(events) && Broken(Run(Apply(s, Resume(id)), events).jobs)
  {
    var after := Apply(s, Resume(id));
    ResumedIsRaced(s, id, ticker);
    if TickerOf(s, ticker).CompleteAgain? {
      LateRaceBreaks(after, id, ticker);
      assert NoResume([TickFailed(ticker), TickWrite(ticker)]);
    } else {
      EarlyRaceBreaks(after, id, ticker);
    }
  }

  lemma EarlyRaceBreaks(s: System, id: Id, ticker: nat)
    requires Raced(s, id, ticker) && !TickerOf(s, ticker).CompleteAgain?
    ensures exists events :: NoResume(events) && Broken(Run(s, events).jobs)
  {
    var drain := Drain(s, id);
    var drained := Run(s, drain);
    var newId := FreshId(drained.jobs);
    AllSucceededIsComplete(drained.jobs, id);
    var polls := PollsThrough(drained, id, ticker);
    var rest := StaleWriteBreaks(Run(drained, polls), id, ticker, newId);
    RunAppend(s, drain, polls);
    RunAppend(s, drain + polls, rest);
    assert NoResume(drain + polls + rest);
  }

  lemma AllSucceededIsComplete(jobs: map<Id, Job>, id: Id)
    requires AllSucceeded(jobs, id)
    ensures ChildrenComplete(jobs, id)
  {
  }

  /** A ticker in flight on a waiting run gets, without any resume, to a verdict on it while it still waits. */
  lemma WaitingRunIsJudged(s: System, id: Id, ticker: nat) returns (events: seq<Event>)
    requires id in s.jobs && s.jobs[id].state == Pending && InFlight(s, ticker, id)
    requires TickerOf(s, ticker).Verdict? || Drainable(s.jobs, id)
    ensures NoResume(events) && !SafeVerdict(Run(s, events), ticker)
  {
    var t := TickerOf(s, ticker);
    if t.Verdict? {
      events := [];
    } else if t.CompleteAgain? {
      events := [TickFailed(ticker)];
      RunSnoc(s, [], TickFailed(ticker));
      assert [] + events == events;
    } else {
      var drain := Drain(s, id);
      var drained := Run(s, drain);
      AllSucceededIsComplete(drained.jobs, id);
      var polls := PollsThrough(drained, id, ticker);
      RunAppend(s, drain, polls);
      RunSnoc(s, drain + polls, TickFailed(ticker));
      events := drain + polls + [TickFailed(ticker)];
    }
  }

  /**
   The guard is exact: resuming a run keeps the invariant, and lets no finalizer ever be wrong about a
   run it is about to write, however things go on as long as further resumes are guarded too, exactly
   when no ticker has started on the run.
   */
  lemma GuardIsExact(s: System, id: Id)
    requires Inv(s) && MayResume(s, id)
    ensures Inv(Apply(s, Resume(id))) <==> Quiet(s, id)
    ensures Quiet(s, id) <==>
              forall events, ticker :: GuardedRun(Apply(s, Resume(id)), events) ==>
                                         SafeVerdict(Run(Apply(s, Resume(id)), events), ticker)
  {
    var after := Apply(s, Resume(id));
    if Quiet(s, id) {
      ResumeKeeps(s, id);
      forall events, ticker | GuardedRun(after, events) ensures SafeVerdict(Run(after, events), ticker) {
        GuardedKeeps(after, events);
        InvIsSafe(Run(after, events), ticker);
      }
    } else {
      var ticker :| ticker in s.tickers && InFlight(s, ticker, id);
      assert after.jobs[id].state == Pending && TickerOf(after, ticker) == TickerOf(s, ticker);
      assert !TickerOk(after.jobs, after.tickers[ticker]);
      if !TickerOf(s, ticker).Verdict? {
        ResumedIsRaced(s, id, ticker);
      }
      var events := WaitingRunIsJudged(after, id, ticker);
      NoResumeIsGuarded(after, events);
      assert !SafeVerdict(Run(after, events), ticker);
    }
  }

  // ----- Such a state is reachable -----

  function SyncRow(state: JobState, lockedBy: Option<string>, awaits: bool): Job {
    Job(1, SyncBucket, None, state, 1, 5, lockedBy, state != Pending, Terminal(state), awaits)
  }

  function ImportRow(state: JobState, lockedBy: Option<string>): Job {
    Job(1, ImportObjects, Some(1), state, 1, 1, lockedBy, state != Pending, Terminal(state), false)
  }

  const FIRST_PART := [
    Create(1, SyncBucket, 5), Claim(1, "w"), CreateChild(2, 1, ImportObjects, 1), HandlerReturns(1, true)]

  /** A sync has fanned out one child and awaits it. */
  lemma FansOutOnce()
    ensures Run(EMPTY, FIRST_PART) == System(map[1 := SyncRow(Running, None, true), 2 := ImportRow(Pending, None)], map[])
  {
    FourEvents(EMPTY, FIRST_PART);
    var s := System(map[1 := SyncRow(Running, Some("w"), false), 2 := ImportRow(Pending, None)], map[]);
    assert Apply(Apply(Apply(EMPTY, FIRST_PART[0]), FIRST_PART[1]), FIRST_PART[2]) == s;
    assert IsChild(s.jobs, 1, 2);
  }

  const SECOND_PART := [Claim(2, "w"), HandlerFails(2), TickGet(7, 1), TickGet(8, 1)]

  /** The child fails for good and two tickers pick the sync up. */
  lemma ChildFailsForGood()
    ensures var jobs := map[1 := SyncRow(Running, None, true), 2 := ImportRow(Pending, None)];
      Run(System(jobs, map[]), SECOND_PART) ==
      System(map[1 := SyncRow(Running, None, true), 2 := ImportRow(Failed, None)], map[7 := Got(1), 8 := Got(1)])
  {
    FourEvents(System(map[1 := SyncRow(Running, None, true), 2 := ImportRow(Pending, None)], map[]), SECOND_PART);
  }

  const THIRD_PART := [TickComplete(7), TickComplete(7), TickComplete(8), TickComplete(8)]

  const FAILED_CHILD := map[1 := SyncRow(Running, None, true), 2 := ImportRow(Failed, None)]

  /** Both tickers read that no child is active. */
  lemma BothPoll()
    ensures Run(System(FAILED_CHILD, map[7 := Got(1), 8 := Got(1)]), THIRD_PART)
         == System(FAILED_CHILD, map[7 := CompleteAgain(1), 8 := CompleteAgain(1)])
  {
    FourEvents(System(FAILED_CHILD, map[7 := Got(1), 8 := Got(1)]), THIRD_PART);
    assert ChildrenComplete(FAILED_CHILD, 1);
  }

  const FOURTH_PART := [TickFailed(8), TickWrite(8)]

  /** One of them goes on to fail the sync. */
  lemma OneTickerIsSlow()
    ensures Run(System(FAILED_CHILD, map[7 := CompleteAgain(1), 8 := CompleteAgain(1)]), FOURTH_PART)
         == System(FAILED_CHILD[1 := SyncRow(Failed, None, true)], map[7 := CompleteAgain(1), 8 := Idle])
  {
    var s := System(FAILED_CHILD, map[7 := CompleteAgain(1), 8 := CompleteAgain(1)]);
    var t := System(FAILED_CHILD, map[7 := CompleteAgain(1), 8 := Verdict(1, true)]);
    assert 2 in FAILED_CHILD && IsChild(FAILED_CHILD, 1, 2) && FAILED_CHILD[2].state == Failed;
    assert Apply(s, TickFailed(8)) == t;
    TwoEvents(s, TickFailed(8), TickWrite(8));
  }

  /** From the empty table, without any resume, the race of UnguardedResumeBreaks can be set up. */
  lemma RaceIsReachable()
    ensures exists events :: GuardedRun(EMPTY, events) &&
              MayResume(Run(EMPTY, events), 1) && TickerOf(Run(EMPTY, events), 7) == CompleteAgain(1)
  {
    RaceScript();
    NoResumeIsGuarded(EMPTY, FIRST_PART + SECOND_PART + THIRD_PART + FOURTH_PART);
  }

  lemma RaceScript()
    ensures Run(EMPTY, FIRST_PART + SECOND_PART + THIRD_PART + FOURTH_PART)
         == System(FAILED_CHILD[1 := SyncRow(Failed, None, true)], map[7 := CompleteAgain(1), 8 := Idle])
  {
    RunAppend(EMPTY, FIRST_PART, SECOND_PART);
    RunAppend(EMPTY, FIRST_PART + SECOND_PART, THIRD_PART);
    RunAppend(EMPTY, FIRST_PART + SECOND_PART + THIRD_PART, FOURTH_PART);
    FansOutOnce();
    ChildFailsForGood();
    BothPoll();
    OneTickerIsSlow();
  }

  // ----- A superseded scan is overruled -----

  function ScanRow(state: JobState, lockedBy: Option<string>, awaits: bool): Job {
    Job(1, ScanBucket, None, state, 1, 5, lockedBy, state != Pending, Terminal(state), awaits)
  }

  function ScannedSync(state: JobState, lockedBy: Option<string>): Job {
    Job(1, SyncBucket, Some(1), state, 1, 5, lockedBy, state != Pending, Terminal(state), false)
  }

  const SCAN_ESCALATES := [
    Create(1, ScanBucket, 5), Claim(1, "w"), CreateChild(2, 1, SyncBucket, 5), HandlerReturns(1, true)]

  lemma ScanEscalates()
    ensures Run(EMPTY, SCAN_ESCALATES) == System(map[1 := ScanRow(Running, None, true), 2 := ScannedSync(Pending, None)], map[])
  {
    FourEvents(EMPTY, SCAN_ESCALATES);
    var s := System(map[1 := ScanRow(Running, Some("w"), false), 2 := ScannedSync(Pending, None)], map[]);
    assert Apply(Apply(Apply(EMPTY, SCAN_ESCALATES[0]), SCAN_ESCALATES[1]), SCAN_ESCALATES[2]) == s;
    assert IsChild(s.jobs, 1, 2);
  }

  const SYNC_SUCCEEDS := [Claim(2, "w"), HandlerReturns(2, false), TickGet(7, 1), TickComplete(7)]

  const SUCCEEDED_SYNC := map[1 := ScanRow(Running, None, true), 2 := ScannedSync(Succeeded, None)]

  /** The escalated sync finds nothing to do, and a ticker picks the scan up. */
  lemma SyncSucceeds()
    ensures var jobs := map[1 := ScanRow(Running, None, true), 2 := ScannedSync(Pending, None)];
      Run(System(jobs, map[]), SYNC_SUCCEEDS) == System(SUCCEEDED_SYNC, map[7 := Complete(1)])
  {
    var s := System(map[1 := ScanRow(Running, None, true), 2 := ScannedSync(Pending, None)], map[]);
    FourEvents(s, SYNC_SUCCEEDS);
    assert Apply(Apply(s, SYNC_SUCCEEDS[0]), SYNC_SUCCEEDS[1]) == System(SUCCEEDED_SYNC, map[]);
    assert ChildrenComplete(SUCCEEDED_SYNC, 1);
  }

  const SCAN_IS_SUPERSEDED := [TickComplete(7), TickFailed(7), Supersede(1)]

  const SUPERSEDED := System(SUCCEEDED_SYNC[1 := ScanRow(Failed, None, true)], map[7 := Verdict(1, false)])

  lemma TickerIsDone()
    ensures var s := System(SUCCEEDED_SYNC, map[7 := Complete(1)]);
      Apply(Apply(s, TickComplete(7)), TickFailed(7)) == System(SUCCEEDED_SYNC, map[7 := Verdict(1, false)])
  {
    assert ChildrenComplete(SUCCEEDED_SYNC, 1) && !ChildrenFailed(SUCCEEDED_SYNC, 1);
  }

  /** The ticker has its verdict when a newer scan supersedes this one. */
  lemma ScanIsSuperseded()
    ensures Run(System(SUCCEEDED_SYNC, map[7 := Complete(1)]), SCAN_IS_SUPERSEDED) == SUPERSEDED
  {
    var s := System(SUCCEEDED_SYNC, map[7 := Complete(1)]);
    var t := System(SUCCEEDED_SYNC, map[7 := Verdict(1, false)]);
    TickerIsDone();
    TwoEvents(s, TickComplete(7), TickFailed(7));
    RunSnoc(s, [TickComplete(7), TickFailed(7)], Supersede(1));
    assert [TickComplete(7), TickFailed(7)] + [Supersede(1)] == SCAN_IS_SUPERSEDED;
    assert Apply(t, Supersede(1)) == SUPERSEDED;
  }

  lemma SupersededScript()
    ensures Run(EMPTY, SCAN_ESCALATES + SYNC_SUCCEEDS + SCAN_IS_SUPERSEDED) == SUPERSEDED
  {
    RunAppend(EMPTY, SCAN_ESCALATES, SYNC_SUCCEEDS);
    RunAppend(EMPTY, SCAN_ESCALATES + SYNC_SUCCEEDS, SCAN_IS_SUPERSEDED);
    ScanEscalates();
    SyncSucceeds();
    ScanIsSuperseded();
  }

  lemma OverrulingWrite()
    ensures Apply(SUPERSEDED, TickWrite(7)).jobs == SUCCEEDED_SYNC[1 := ScanRow(Succeeded, None, true)]
  {
  }

  /** From the empty table, without any resume, a scan that has failed becomes a scan that has succeeded. */
  lemma FailedScanSucceeds() returns (events: seq<Event>)
    ensures GuardedRun(EMPTY, events + [TickWrite(7)])
    ensures Run(EMPTY, events).jobs == SUCCEEDED_SYNC[1 := ScanRow(Failed, None, true)]
    ensures Run(EMPTY, events + [TickWrite(7)]).jobs == SUCCEEDED_SYNC[1 := ScanRow(Succeeded, None, true)]
  {
    events := SCAN_ESCALATES + SYNC_SUCCEEDS + SCAN_IS_SUPERSEDED;
    SupersededScript();
    OverrulingWrite();
    RunSnoc(EMPTY, events, TickWrite(7));
    NoResumeIsGuarded(EMPTY, events + [TickWrite(7)]);
  }
}
