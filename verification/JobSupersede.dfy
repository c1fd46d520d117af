/**
 Superseding a scan. A newer scan of the same target fails an older one that is still active; whether that failure is final
 depends on the tickers that are finalizing the older scan at that moment, and on its children.
 */
module JobSupersede {
  import opened Values
  import opened JobProtocol
  import opened JobSafety
  import opened JobTheorems

  /** The run has failed, or one of its direct children has. */
  ghost predicate Doomed(jobs: map<Id, Job>, id: Id)
    requires id in jobs
  {
    jobs[id].state == Failed || ChildrenFailed(jobs, id)
  }

  /** Some child of the run is doomed. */
  ghost predicate Hopeless(jobs: map<Id, Job>, id: Id) {
    exists child :: child in jobs && IsChild(jobs, id, child) && Doomed(jobs, child)
  }

  // ----- When the failure is final -----

  /** A failed run that nobody is finalizing stays failed, and nobody starts finalizing it. */
  lemma QuietStays(s: System, event: Event, id: Id)
    requires Inv(s) && !event.Resume? && id in s.jobs && s.jobs[id].state == Failed && Quiet(s, id)
    ensures id in Apply(s, event).jobs && Apply(s, event).jobs[id].state == Failed && Quiet(Apply(s, event), id)
  {
    TerminalChangesIff(s, event, id);
    if event.TickWrite? {
      assert !InFlight(s, event.ticker, id);
    }
    var t := Apply(s, event);
    forall ticker | ticker in t.tickers ensures !InFlight(t, ticker, id) {
      assert TickerOf(t, ticker) != TickerOf(s, ticker) ==> event.TickGet? || event.TickComplete? || event.TickFailed? || event.TickWrite? || event.TickDies?;
      assert ticker in s.tickers ==> !InFlight(s, ticker, id);
    }
  }

  /** A failed run that does not fan out to a resume stays failed. */
  lemma FailedStays(s: System, event: Event, id: Id)
    requires Inv(s) && !event.Resume? && id in s.jobs && s.jobs[id].jobType != ScanBucket && s.jobs[id].state == Failed
    ensures id in Apply(s, event).jobs && Apply(s, event).jobs[id].state == Failed
  {
    TerminalIsFinal(s, event, id);
  }

  /** Places in the tree never change. */
  lemma PlacesStay(s: System, event: Event, id: Id)
    requires id in s.jobs
    ensures id in Apply(s, event).jobs && SamePlace(s.jobs[id], Apply(s, event).jobs[id])
  {
  }

  lemma HopelessStays(s: System, event: Event, id: Id)
    requires Inv(s) && !event.Resume? && id in s.jobs && s.jobs[id].jobType == ScanBucket && Hopeless(s.jobs, id)
    ensures id in Apply(s, event).jobs && Apply(s, event).jobs[id].jobType == ScanBucket && Hopeless(Apply(s, event).jobs, id)
  {
    var t := Apply(s, event);
    var child :| child in s.jobs && IsChild(s.jobs, id, child) && Doomed(s.jobs, child);
    PlacesStay(s, event, id);
    PlacesStay(s, event, child);
    assert PlacedOk(s.jobs, child);
    if s.jobs[child].state == Failed {
      FailedStays(s, event, child);
    } else {
      var grandchild :| grandchild in s.jobs && IsChild(s.jobs, child, grandchild) && s.jobs[grandchild].state == Failed;
      assert PlacedOk(s.jobs, grandchild);
      PlacesStay(s, event, grandchild);
      FailedStays(s, event, grandchild);
      assert IsChild(t.jobs, child, grandchild);
    }
    assert IsChild(t.jobs, id, child) && Doomed(t.jobs, child);
  }

  /** A hopeless failed scan stays failed. */
  lemma HopelessIsFinal(s: System, event: Event, id: Id)
    requires Inv(s) && !event.Resume? && id in s.jobs && s.jobs[id].state == Failed
    requires s.jobs[id].jobType == ScanBucket && Hopeless(s.jobs, id)
    ensures id in Apply(s, event).jobs && Apply(s, event).jobs[id].state == Failed
  {
    TerminalChangesIff(s, event, id);
    HopelessIsUnfinished(s, id);
    if Overrules(s, event, id) {
      OverruledIsFailedScan(s, event, id);
      assert false;
    }
  }

  /** No sync with a failed child succeeds, so a hopeless scan has a child that has not succeeded. */
  lemma HopelessIsUnfinished(s: System, id: Id)
    requires Inv(s) && id in s.jobs && s.jobs[id].jobType == ScanBucket && Hopeless(s.jobs, id)
    ensures !AllSucceeded(s.jobs, id)
  {
    var child :| child in s.jobs && IsChild(s.jobs, id, child) && Doomed(s.jobs, child);
    assert PlacedOk(s.jobs, child) && TreeOk(s.jobs, child);
  }

  /** A resume of another run leaves a scan, its syncs and their children as they are, and all tickers. */
  lemma ResumeLeavesScans(s: System, event: Event, id: Id)
    requires Inv(s) && event.Resume? && id in s.jobs && s.jobs[id].jobType == ScanBucket
    ensures var t := Apply(s, event);
      && id in t.jobs && t.jobs[id] == s.jobs[id] && (Quiet(t, id) <==> Quiet(s, id)) && (Hopeless(t.jobs, id) <==> Hopeless(s.jobs, id))
  {
    var t := Apply(s, event);
    assert PlacedOk(s.jobs, id) && s.jobs[id].trace == id;
    forall child | child in s.jobs && IsChild(s.jobs, id, child)
      ensures t.jobs[child] == s.jobs[child] && (Doomed(t.jobs, child) <==> Doomed(s.jobs, child))
    {
      assert PlacedOk(s.jobs, child) && s.jobs[child].trace == id;
      forall grandchild | grandchild in s.jobs && IsChild(s.jobs, child, grandchild) ensures t.jobs[grandchild] == s.jobs[grandchild] {
        assert PlacedOk(s.jobs, grandchild) && s.jobs[grandchild].trace == id;
      }
      TraceStays(s, event, child, id);
    }
    TraceStays(s, event, id, id);
  }

  /** No run becomes a child, or stops being one, by a resume. */
  lemma TraceStays(s: System, event: Event, parent: Id, id: Id)
    requires event.Resume?
    ensures Apply(s, event).jobs.Keys == s.jobs.Keys
    ensures forall other :: other in s.jobs ==> IsChild(Apply(s, event).jobs, parent, other) == IsChild(s.jobs, parent, other)
  {
  }

  ghost predicate StaysFailed(s: System, id: Id) {
    forall events :: GuardedRun(s, events) ==> id in Run(s, events).jobs && Run(s, events).jobs[id].state == Failed
  }

  lemma {:induction false} FailureIsFinal(s: System, events: seq<Event>, id: Id)
    requires Inv(s) && GuardedRun(s, events) && id in s.jobs && s.jobs[id].jobType == ScanBucket && s.jobs[id].state == Failed
    requires Quiet(s, id) || Hopeless(s.jobs, id)
    ensures var t := Run(s, events);
      && Inv(t) && id in t.jobs && t.jobs[id].jobType == ScanBucket && t.jobs[id].state == Failed
      && (Quiet(t, id) || Hopeless(t.jobs, id))
  {
    if events != [] {
      var init, event := events[..|events| - 1], events[|events| - 1];
      FailureIsFinal(s, init, id);
      var t := Run(s, init);
      StepKeeps(t, event);
      PlacesStay(t, event, id);
      if event.Resume? {
        ResumeLeavesScans(t, event, id);
      } else if Hopeless(t.jobs, id) {
        HopelessStays(t, event, id);
        HopelessIsFinal(t, event, id);
      } else {
        QuietStays(t, event, id);
      }
    }
  }

  // ----- When it is not: every child can be brought to success -----

  lemma NoResumeAppend(a: seq<Event>, b: seq<Event>)
    requires NoResume(a) && NoResume(b)
    ensures NoResume(a + b)
  {
  }

  /** The children of a sync, one of which has not failed, can be drained. */
  lemma SyncIsDrainable(s: System, id: Id)
    requires Inv(s) && id in s.jobs && s.jobs[id].jobType == SyncBucket && !ChildrenFailed(s.jobs, id)
    ensures Drainable(s.jobs, id)
  {
    forall child | child in s.jobs && IsChild(s.jobs, id, child)
      ensures (s.jobs[child].state == Pending || Executing(s.jobs, child) || s.jobs[child].state == Succeeded)
      ensures !FansOut(s.jobs[child]) && child != id
    {
      assert PlacedOk(s.jobs, child) && RowOk(s.jobs[child]) && FlagOk(s.jobs[child]);
    }
  }

  /** A ticker that is doing nothing. */
  lemma FreshTicker(s: System) returns (ticker: nat)
    ensures ticker !in s.tickers
  {
    var largest := LargestKey(s.tickers.Keys);
    ticker := largest + 1;
  }

  /** The tickers keep their places, except a new one. */
  ghost predicate TickersKept(before: System, after: System) {
    forall ticker :: ticker in before.tickers ==> ticker in after.tickers && after.tickers[ticker] == before.tickers[ticker]
  }

  /** A new ticker reads an awaiting run whose children have succeeded. */
  lemma TickerPolls(s: System, id: Id, ticker: nat)
    requires id in s.jobs && s.jobs[id].state == Running && s.jobs[id].awaits && AllSucceeded(s.jobs, id) && ticker !in s.tickers
    ensures Run(s, [TickGet(ticker, id), TickComplete(ticker), TickComplete(ticker), TickFailed(ticker)])
         == Move(s, ticker, Verdict(id, false))
  {
    FourEvents(s, [TickGet(ticker, id), TickComplete(ticker), TickComplete(ticker), TickFailed(ticker)]);
    EachPoll(s, id, ticker);
  }

  lemma EachPoll(s: System, id: Id, ticker: nat)
    requires id in s.jobs && s.jobs[id].state == Running && s.jobs[id].awaits && AllSucceeded(s.jobs, id) && ticker !in s.tickers
    ensures Apply(s, TickGet(ticker, id)) == Move(s, ticker, Got(id))
    ensures Apply(Move(s, ticker, Got(id)), TickComplete(ticker)) == Move(s, ticker, Complete(id))
    ensures Apply(Move(s, ticker, Complete(id)), TickComplete(ticker)) == Move(s, ticker, CompleteAgain(id))
    ensures Apply(Move(s, ticker, CompleteAgain(id)), TickFailed(ticker)) == Move(s, ticker, Verdict(id, false))
  {
    AllSucceededIsComplete(s.jobs, id);
    assert !ChildrenFailed(s.jobs, id);
  }

  /** And it finalizes the run. */
  lemma TickerFinalizes(s: System, id: Id, ticker: nat) returns (events: seq<Event>)
    requires id in s.jobs && s.jobs[id].state == Running && s.jobs[id].awaits && AllSucceeded(s.jobs, id) && ticker !in s.tickers
    ensures NoResume(events)
    ensures Run(s, events) == Move(Write(s, id, Success(s.jobs[id], true)), ticker, Idle)
  {
    var polls := [TickGet(ticker, id), TickComplete(ticker), TickComplete(ticker), TickFailed(ticker)];
    TickerPolls(s, id, ticker);
    events := polls + [TickWrite(ticker)];
    RunSnoc(s, polls, TickWrite(ticker));
    VerdictIsWritten(s, id, ticker);
  }

  lemma VerdictIsWritten(s: System, id: Id, ticker: nat)
    requires id in s.jobs
    ensures Apply(Move(s, ticker, Verdict(id, false)), TickWrite(ticker)) == Move(Write(s, id, Success(s.jobs[id], true)), ticker, Idle)
  {
  }

  /** Only the run and its children have changed, and no run has moved. */
  ghost predicate OnlyFamilyChanges(before: map<Id, Job>, after: map<Id, Job>, id: Id) {
    && after.Keys == before.Keys
    && forall other :: other in before ==>
         SamePlace(before[other], after[other]) && (other != id && !IsChild(before, id, other) ==> after[other] == before[other])
  }

  /** What the handler of a sync returns. */
  function Returned(jobs: map<Id, Job>, id: Id, awaits: bool): Job
    requires id in jobs
  {
    if awaits then Awaiting(jobs[id]) else Success(jobs[id], false)
  }

  lemma HandlerOfSyncReturns(s: System, id: Id, awaits: bool)
    requires Executing(s.jobs, id) && s.jobs[id].jobType == SyncBucket && awaits == HasChildren(s.jobs, id)
    ensures Run(s, [HandlerReturns(id, awaits)]) == Write(s, id, Returned(s.jobs, id, awaits))
  {
    var event := HandlerReturns(id, awaits);
    RunSnoc(s, [], event);
    assert [] + [event] == [event];
  }

  lemma ClaimedSyncReturns(s: System, id: Id, awaits: bool)
    requires id in s.jobs && s.jobs[id].jobType == SyncBucket && s.jobs[id].state == Pending && awaits == HasChildren(s.jobs, id)
    ensures Run(s, [Claim(id, "w")] + [HandlerReturns(id, awaits)])
         == Write(s, id, Returned(s.jobs[id := Claimed(s.jobs[id], "w")], id, awaits))
  {
    var claimed := Write(s, id, Claimed(s.jobs[id], "w"));
    RunSnoc(s, [], Claim(id, "w"));
    assert [] + [Claim(id, "w")] == [Claim(id, "w")];
    assert Run(s, [Claim(id, "w")]) == claimed;
    ClaimKeepsChildren(s.jobs, id);
    HandlerOfSyncReturns(claimed, id, awaits);
    RunAppend(s, [Claim(id, "w")], [HandlerReturns(id, awaits)]);
  }

  /** A worker gets a sync that is waiting or executing to return. */
  lemma SyncReturns(s: System, id: Id, awaits: bool) returns (events: seq<Event>)
    requires id in s.jobs && s.jobs[id].jobType == SyncBucket && (s.jobs[id].state == Pending || Executing(s.jobs, id))
    requires awaits == HasChildren(s.jobs, id)
    ensures NoResume(events)
    ensures var t := Run(s, events);
      && id in t.jobs && t == Write(s, id, t.jobs[id]) && SamePlace(s.jobs[id], t.jobs[id])
      && if awaits then t.jobs[id].state == Running && t.jobs[id].awaits else t.jobs[id].state == Succeeded
  {
    if s.jobs[id].state == Pending {
      ClaimedSyncReturns(s, id, awaits);
      events := [Claim(id, "w")] + [HandlerReturns(id, awaits)];
    } else {
      HandlerOfSyncReturns(s, id, awaits);
      events := [HandlerReturns(id, awaits)];
    }
  }

  lemma ClaimKeepsChildren(jobs: map<Id, Job>, id: Id)
    requires id in jobs
    ensures HasChildren(jobs[id := Claimed(jobs[id], "w")], id) == HasChildren(jobs, id)
  {
    var after := jobs[id := Claimed(jobs[id], "w")];
    assert forall child :: child in jobs ==> IsChild(after, id, child) == IsChild(jobs, id, child);
  }

  /** An awaiting sync without failed children is drained and finalized. */
  lemma AwaitingSyncSucceeds(s: System, id: Id) returns (events: seq<Event>)
    requires Inv(s) && id in s.jobs && s.jobs[id].jobType == SyncBucket && !ChildrenFailed(s.jobs, id)
    requires s.jobs[id].state == Running && s.jobs[id].awaits
    ensures NoResume(events)
    ensures var t := Run(s, events);
      TickersKept(s, t) && OnlyFamilyChanges(s.jobs, t.jobs, id) && t.jobs[id].state == Succeeded
  {
    SyncIsDrainable(s, id);
    var drain := Drain(s, id);
    var drained := Run(s, drain);
    var ticker := FreshTicker(drained);
    var finalize := TickerFinalizes(drained, id, ticker);
    RunAppend(s, drain, finalize);
    events := drain + finalize;
  }

  /** A sync that is not doomed can be brought to success, and nothing else changes but its children. */
  lemma SyncCanSucceed(s: System, id: Id) returns (events: seq<Event>)
    requires Inv(s) && id in s.jobs && s.jobs[id].jobType == SyncBucket && !Doomed(s.jobs, id)
    ensures NoResume(events)
    ensures var t := Run(s, events);
      TickersKept(s, t) && OnlyFamilyChanges(s.jobs, t.jobs, id) && t.jobs[id].state == Succeeded
  {
    assert RowOk(s.jobs[id]) && FlagOk(s.jobs[id]);
    if s.jobs[id].state == Succeeded {
      events := [];
    } else if s.jobs[id].state == Running && s.jobs[id].lockedBy.None? {
      events := AwaitingSyncSucceeds(s, id);
    } else {
      var first := SyncReturns(s, id, HasChildren(s.jobs, id));
      var t := Run(s, first);
      if HasChildren(s.jobs, id) {
        NoResumeKeeps(s, first);
        ReturnedIsNotFailed(s.jobs, t.jobs, id);
        var rest := AwaitingSyncSucceeds(t, id);
        RunAppend(s, first, rest);
        NoResumeAppend(first, rest);
        FamilyThen(s.jobs, t.jobs, Run(t, rest).jobs, id);
        events := first + rest;
      } else {
        events := first;
      }
    }
  }

  lemma ReturnedIsNotFailed(before: map<Id, Job>, after: map<Id, Job>, id: Id)
    requires Lifecycle(before) && id in before && id in after && after == before[id := after[id]]
    requires SamePlace(before[id], after[id]) && !ChildrenFailed(before, id)
    ensures !ChildrenFailed(after, id)
  {
    assert PlacedOk(before, id);
    forall child | child in after && IsChild(after, id, child) ensures after[child].state != Failed {
      assert IsChild(before, id, child) && child != id;
    }
  }

  lemma FamilyThen(a: map<Id, Job>, b: map<Id, Job>, c: map<Id, Job>, id: Id)
    requires id in a && OnlyFamilyChanges(a, b, id) && OnlyFamilyChanges(b, c, id)
    ensures OnlyFamilyChanges(a, c, id)
  {
    forall other | other in a ensures SamePlace(a[other], c[other]) && (other != id && !IsChild(a, id, other) ==> c[other] == a[other]) {
      assert IsChild(b, id, other) == IsChild(a, id, other);
    }
  }

  ghost function Lagging(jobs: map<Id, Job>, id: Id): set<Id> {
    set child | child in jobs && IsChild(jobs, id, child) && jobs[child].state != Succeeded
  }

  /** All children of a scan that is not hopeless can be brought to success, while the tickers stay where they are. */
  lemma {:induction false} ChildrenCanSucceed(s: System, id: Id) returns (events: seq<Event>)
    requires Inv(s) && id in s.jobs && s.jobs[id].jobType == ScanBucket && !Hopeless(s.jobs, id)
    ensures NoResume(events)
    ensures var t := Run(s, events);
      && TickersKept(s, t) && id in t.jobs && t.jobs[id] == s.jobs[id] && AllSucceeded(t.jobs, id)
    decreases Lagging(s.jobs, id)
  {
    events := [];
    if Lagging(s.jobs, id) == {} {
      forall child | child in s.jobs && IsChild(s.jobs, id, child) ensures s.jobs[child].state == Succeeded {
        assert child !in Lagging(s.jobs, id);
      }
    } else {
      var child :| child in Lagging(s.jobs, id);
      assert PlacedOk(s.jobs, child) && PlacedOk(s.jobs, id);
      var first := SyncCanSucceed(s, child);
      var t := Run(s, first);
      NoResumeKeeps(s, first);
      OneLessLags(s, t, id, child);
      var rest := ChildrenCanSucceed(t, id);
      RunAppend(s, first, rest);
      NoResumeAppend(first, rest);
      events := first + rest;
    }
  }

  lemma OneLessLags(s: System, t: System, id: Id, child: Id)
    requires Inv(s) && Inv(t) && id in s.jobs && s.jobs[id].jobType == ScanBucket && !Hopeless(s.jobs, id)
    requires child in Lagging(s.jobs, id) && OnlyFamilyChanges(s.jobs, t.jobs, child) && t.jobs[child].state == Succeeded
    ensures t.jobs[id] == s.jobs[id] && Lagging(t.jobs, id) == Lagging(s.jobs, id) - {child} && !Hopeless(t.jobs, id)
  {
    assert PlacedOk(s.jobs, child) && PlacedOk(s.jobs, id);
    forall other | other in s.jobs && IsChild(s.jobs, id, other) && other != child ensures t.jobs[other] == s.jobs[other] {
      assert PlacedOk(s.jobs, other) && !IsChild(s.jobs, child, other);
    }
    forall other | other in t.jobs && IsChild(t.jobs, id, other) ensures IsChild(s.jobs, id, other) && !Doomed(t.jobs, other) {
      assert SamePlace(s.jobs[other], t.jobs[other]);
      if other == child {
        assert PlacedOk(t.jobs, child) && TreeOk(t.jobs, child);
      } else {
        assert !Doomed(s.jobs, other);
        GrandchildrenStay(s.jobs, t.jobs, id, child, other);
      }
    }
  }

  lemma GrandchildrenStay(before: map<Id, Job>, after: map<Id, Job>, id: Id, child: Id, other: Id)
    requires Lifecycle(before) && OnlyFamilyChanges(before, after, child)
    requires child in before && IsChild(before, id, child) && other in before && IsChild(before, id, other) && other != child
    requires id in before && before[id].jobType == ScanBucket
    ensures ChildrenFailed(after, other) ==> ChildrenFailed(before, other)
  {
    if ChildrenFailed(after, other) {
      var grandchild :| grandchild in after && IsChild(after, other, grandchild) && after[grandchild].state == Failed;
      assert SamePlace(before[grandchild], after[grandchild]) && IsChild(before, other, grandchild);
      assert PlacedOk(before, child) && PlacedOk(before, grandchild) && PlacedOk(before, id) && PlacedOk(before, other);
      assert grandchild != child;
    }
  }

  lemma LastTwoSucceed(s: System, id: Id, ticker: nat)
    requires id in s.jobs && TickerOf(s, ticker) == CompleteAgain(id) && !ChildrenFailed(s.jobs, id)
    ensures var t := Run(s, [TickFailed(ticker), TickWrite(ticker)]); id in t.jobs && t.jobs[id].state == Succeeded
  {
    TwoEvents(s, TickFailed(ticker), TickWrite(ticker));
    assert Apply(s, TickFailed(ticker)) == Move(s, ticker, Verdict(id, false));
  }

  /** A ticker in flight on a scan whose children have all succeeded goes on to write success. */
  lemma TickerSucceeds(s: System, id: Id, ticker: nat) returns (events: seq<Event>)
    requires Inv(s) && id in s.jobs && InFlight(s, ticker, id) && AllSucceeded(s.jobs, id)
    ensures NoResume(events) && id in Run(s, events).jobs && Run(s, events).jobs[id].state == Succeeded
  {
    var t := TickerOf(s, ticker);
    assert TickerOk(s.jobs, t) && !ChildrenFailed(s.jobs, id);
    if t.Verdict? {
      events := [TickWrite(ticker)];
      RunSnoc(s, [], TickWrite(ticker));
      assert [] + events == events;
    } else if t.CompleteAgain? {
      events := [TickFailed(ticker), TickWrite(ticker)];
      LastTwoSucceed(s, id, ticker);
    } else {
      AllSucceededIsComplete(s.jobs, id);
      var polls := PollsThrough(s, id, ticker);
      var last := [TickFailed(ticker), TickWrite(ticker)];
      LastTwoSucceed(Run(s, polls), id, ticker);
      RunAppend(s, polls, last);
      NoResumeAppend(polls, last);
      events := polls + last;
    }
  }

  /**
   The failure that superseding writes is final, however things go on, guarded resumes of other runs included, exactly when
   no ticker has started on the scan, or one of its syncs has failed or has a failed child.
   */
  lemma SupersededIsFinalIff(s: System, id: Id)
    requires Inv(s) && id in s.jobs && s.jobs[id].jobType == ScanBucket && Active(s.jobs[id])
    ensures StaysFailed(Apply(s, Supersede(id)), id) <==> Quiet(s, id) || Hopeless(s.jobs, id)
  {
    var t := Apply(s, Supersede(id));
    StepKeeps(s, Supersede(id));
    SupersedingKeeps(s, id);
    if Quiet(s, id) || Hopeless(s.jobs, id) {
      forall events | GuardedRun(t, events) ensures id in Run(t, events).jobs && Run(t, events).jobs[id].state == Failed {
        FailureIsFinal(t, events, id);
      }
    } else {
      var ticker :| ticker in s.tickers && InFlight(s, ticker, id);
      var first := ChildrenCanSucceed(t, id);
      var u := Run(t, first);
      NoResumeKeeps(t, first);
      var rest := TickerSucceeds(u, id, ticker);
      RunAppend(t, first, rest);
      NoResumeAppend(first, rest);
      NoResumeIsGuarded(t, first + rest);
      assert Run(t, first + rest).jobs[id].state == Succeeded;
    }
  }

  lemma SupersedingKeeps(s: System, id: Id)
    requires Inv(s) && id in s.jobs && s.jobs[id].jobType == ScanBucket && Active(s.jobs[id])
    ensures var t := Apply(s, Supersede(id));
      && t.tickers == s.tickers && id in t.jobs && t.jobs[id].state == Failed && t.jobs[id].jobType == ScanBucket
      && (Hopeless(t.jobs, id) <==> Hopeless(s.jobs, id)) && (Quiet(t, id) <==> Quiet(s, id))
  {
    var t := Apply(s, Supersede(id));
    forall child | child in s.jobs && IsChild(s.jobs, id, child)
      ensures IsChild(t.jobs, id, child) && (Doomed(t.jobs, child) <==> Doomed(s.jobs, child))
    {
      SyncIsAsDoomed(s.jobs, id, child, Failure(s.jobs[id]));
    }
  }

  lemma SyncIsAsDoomed(jobs: map<Id, Job>, id: Id, child: Id, job: Job)
    requires Lifecycle(jobs) && id in jobs && jobs[id].jobType == ScanBucket && child in jobs && IsChild(jobs, id, child)
    requires SamePlace(jobs[id], job)
    ensures var after := jobs[id := job];
      IsChild(after, id, child) && child in after && (Doomed(after, child) <==> Doomed(jobs, child))
  {
    assert PlacedOk(jobs, child) && PlacedOk(jobs, id) && child != id;
    assert SameChildren(jobs, jobs[id := job], child);
    SameVerdicts(jobs, jobs[id := job], child);
  }
}
