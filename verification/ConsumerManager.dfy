/**
 Starting and stopping one consumer per bucket. The manager's critical sections and the steps of the
 consumers' goroutines interleave freely; the worker supervisor is the same machine with a constant config.
 */
module ConsumerManager {
  import opened Values

  /** A consumer runs, has returned, has taken itself out of the table, and has closed its done channel. */
  datatype Phase = Running | Returned | Removed | Closed

  datatype Consumer = Consumer(bucket: string, config: string, cancelled: bool, phase: Phase)

  /** What the manager's own goroutine is doing. */
  datatype Doing = Idle | Waiting(stopped: set<nat>, desired: map<string, string>) | Stopping(stopped: set<nat>) | Stopped

  datatype State = State(consumers: seq<Consumer>, running: map<string, nat>, doing: Doing)

  datatype Event =
    | Reconcile(desired: map<string, string>)          // first critical section of reconcile
    | Start(order: seq<string>, failing: set<string>)  // second one, when every stopped consumer is closed
    | StopAll
    | AllClosed
    | Return(id: nat)
    | Remove(id: nat)
    | Close(id: nat)

  const INITIAL := State([], map[], Idle)

  /** Entries whose bucket is no longer wanted, or wanted with another config. */
  function Unwanted(s: State, desired: map<string, string>): set<string> {
    set b | b in s.running && !(b in desired && s.running[b] < |s.consumers| && s.consumers[s.running[b]].config == desired[b])
  }

  function Cancelled(consumers: seq<Consumer>, ids: set<nat>): (r: seq<Consumer>)
    ensures |r| == |consumers|
  {
    seq(|consumers|, i requires 0 <= i < |consumers| => if i in ids then consumers[i].(cancelled := true) else consumers[i])
  }

  function Advance(s: State, id: nat, from: Phase, to: Phase): seq<Consumer> {
    if id < |s.consumers| && s.consumers[id].phase == from then s.consumers[id := s.consumers[id].(phase := to)] else s.consumers
  }

  predicate AllAreClosed(consumers: seq<Consumer>, ids: set<nat>) {
    forall id :: id in ids && id < |consumers| ==> consumers[id].phase == Closed
  }

  /** startLocked for one bucket; creating the consumer may fail. */
  function StartOne(s: State, desired: map<string, string>, bucket: string, fails: bool): State {
    if bucket !in desired || fails then s
    else if bucket in s.running && s.running[bucket] < |s.consumers| && s.consumers[s.running[bucket]].config == desired[bucket] then s
    else
      State(s.consumers + [Consumer(bucket, desired[bucket], false, Running)], s.running[bucket := |s.consumers|], s.doing)
  }

  function StartEach(s: State, desired: map<string, string>, order: seq<string>, failing: set<string>): State
    decreases |order|
  {
    if order == [] then s
    else StartEach(StartOne(s, desired, order[0], order[0] in failing), desired, order[1..], failing)
  }

  /** One atomic step; a step that is not enabled changes nothing. */
  function Apply(s: State, event: Event): State {
    match event
    case Reconcile(desired) =>
      if !s.doing.Idle? then s
      else
        var gone := Unwanted(s, desired);
        var ids := set b | b in gone :: s.running[b];
        State(Cancelled(s.consumers, ids), s.running - gone, Waiting(ids, desired))
    case Start(order, failing) =>
      if !(s.doing.Waiting? && AllAreClosed(s.consumers, s.doing.stopped)) then s
      else StartEach(s, s.doing.desired, order, failing).(doing := Idle)
    case StopAll =>
      if !s.doing.Idle? then s
      else State(Cancelled(s.consumers, s.running.Values), map[], Stopping(s.running.Values))
    case AllClosed => if s.doing.Stopping? && AllAreClosed(s.consumers, s.doing.stopped) then s.(doing := Stopped) else s
    case Return(id) => s.(consumers := Advance(s, id, Running, Returned))
    case Remove(id) =>
      if id < |s.consumers| && s.consumers[id].phase == Returned then
        var bucket := s.consumers[id].bucket;
        State(Advance(s, id, Returned, Removed),
              if bucket in s.running && s.running[bucket] == id then s.running - {bucket} else s.running, s.doing)
      else s
    case Close(id) => s.(consumers := Advance(s, id, Removed, Closed))
  }

  function Run(s: State, events: seq<Event>): State
    decreases |events|
  {
    if events == [] then s else Run(Apply(s, events[0]), events[1..])
  }

  // ----- The invariant -----

  function Awaited(s: State): set<nat> {
    match s.doing case Waiting(ids, _) => ids case Stopping(ids) => ids case _ => {}
  }

  /** Consumers the manager still has to account for: not yet taken out of the table by themselves. */
  predicate Alive(c: Consumer) {
    c.phase == Running || c.phase == Returned
  }

  ghost predicate Tabled(s: State) {
    forall b :: b in s.running ==> s.running[b] < |s.consumers| && s.consumers[s.running[b]].bucket == b && Alive(s.consumers[s.running[b]])
  }

  /** A consumer that is alive is in the table, or was taken out of it by the manager, which waits for it. */
  ghost predicate Accounted(s: State) {
    forall id :: 0 <= id < |s.consumers| && Alive(s.consumers[id]) ==> Listed(s, id) || id in Awaited(s)
  }

  predicate Listed(s: State, id: nat)
    requires id < |s.consumers|
  {
    s.consumers[id].bucket in s.running && s.running[s.consumers[id].bucket] == id
  }

  /** Buckets being waited for are not in the table, and two of them never coincide. */
  ghost predicate StoppedApart(s: State) {
    && (forall id :: id in Awaited(s) ==> id < |s.consumers| && s.consumers[id].bucket !in s.running)
    && (forall a, b :: a in Awaited(s) && b in Awaited(s) && s.consumers[a].bucket == s.consumers[b].bucket ==> a == b)
  }

  /** While the manager waits, everything left in the table is wanted as it is. */
  ghost predicate Wanted(s: State) {
    s.doing.Waiting? ==>
      forall b :: b in s.running && s.running[b] < |s.consumers| ==>
        b in s.doing.desired && s.consumers[s.running[b]].config == s.doing.desired[b]
  }

  ghost predicate Quiet(s: State) {
    (s.doing.Stopping? || s.doing.Stopped?) ==> s.running == map[]
  }

  ghost predicate Inv(s: State) {
    Tabled(s) && Accounted(s) && StoppedApart(s) && Wanted(s) && Quiet(s)
  }

  // ----- Steps keep it -----

  lemma ReconcileKeeps(s: State, desired: map<string, string>)
    requires Inv(s) && s.doing.Idle?
    ensures Inv(Apply(s, Reconcile(desired)))
  {
    var t := Apply(s, Reconcile(desired));
    var gone := Unwanted(s, desired);
    forall id | 0 <= id < |t.consumers| && Alive(t.consumers[id]) ensures Listed(t, id) || id in Awaited(t) {
      assert Listed(s, id);
    }
    forall id | id in Awaited(t) ensures id < |t.consumers| && t.consumers[id].bucket !in t.running {
      var b :| b in gone && s.running[b] == id;
      assert s.consumers[id].bucket == b;
    }
  }

  lemma StartOneKeeps(s: State, desired: map<string, string>, bucket: string, fails: bool)
    requires Inv(s) && s.doing == Waiting({}, desired)
    ensures var t := StartOne(s, desired, bucket, fails);
      && Inv(t) && t.doing == s.doing && |s.consumers| <= |t.consumers| && t.consumers[..|s.consumers|] == s.consumers
      && (forall b :: b in s.running ==> b in t.running && t.running[b] == s.running[b])
  {
    var t := StartOne(s, desired, bucket, fails);
    if t != s {
      assert bucket !in s.running;
      forall id | 0 <= id < |t.consumers| && Alive(t.consumers[id]) ensures Listed(t, id) {
        if id < |s.consumers| {
          assert Listed(s, id);
        }
      }
    }
  }

  lemma {:induction false} StartEachKeeps(s: State, desired: map<string, string>, order: seq<string>, failing: set<string>)
    requires Inv(s) && s.doing == Waiting({}, desired)
    ensures var t := StartEach(s, desired, order, failing);
      && Inv(t) && t.doing == s.doing && |s.consumers| <= |t.consumers| && t.consumers[..|s.consumers|] == s.consumers
      && (forall b :: b in s.running ==> b in t.running && t.running[b] == s.running[b])
    decreases |order|
  {
    if order != [] {
      var next := StartOne(s, desired, order[0], order[0] in failing);
      StartOneKeeps(s, desired, order[0], order[0] in failing);
      StartEachKeeps(next, desired, order[1..], failing);
      var t := StartEach(s, desired, order, failing);
      assert t.consumers[..|s.consumers|] == t.consumers[..|next.consumers|][..|s.consumers|];
    } else {
      assert s.consumers[..|s.consumers|] == s.consumers;
    }
  }

  /** Closed consumers need no more waiting. */
  lemma ForgetClosed(s: State)
    requires Inv(s) && s.doing.Waiting? && AllAreClosed(s.consumers, s.doing.stopped)
    ensures Inv(s.(doing := Waiting({}, s.doing.desired)))
  {
    var t := s.(doing := Waiting({}, s.doing.desired));
    forall id | 0 <= id < |t.consumers| && Alive(t.consumers[id]) ensures Listed(t, id) {
      assert Listed(s, id) || id in Awaited(s);
    }
  }

  lemma {:induction false} StartIgnoresDoing(s: State, doing: Doing, desired: map<string, string>, order: seq<string>, failing: set<string>)
    ensures StartEach(s.(doing := doing), desired, order, failing) == StartEach(s, desired, order, failing).(doing := doing)
    decreases |order|
  {
    if order != [] {
      var next := StartOne(s, desired, order[0], order[0] in failing);
      assert StartOne(s.(doing := doing), desired, order[0], order[0] in failing) == next.(doing := doing);
      StartIgnoresDoing(next, doing, desired, order[1..], failing);
    }
  }

  /** Starting adds consumers and entries; no entry that was there is replaced. */
  lemma StartKeeps(s: State, order: seq<string>, failing: set<string>)
    requires Inv(s) && s.doing.Waiting? && AllAreClosed(s.consumers, s.doing.stopped)
    ensures var t := Apply(s, Start(order, failing));
      Inv(t) && forall b :: b in s.running ==> b in t.running && t.running[b] == s.running[b]
  {
    var ready := s.(doing := Waiting({}, s.doing.desired));
    ForgetClosed(s);
    StartEachKeeps(ready, s.doing.desired, order, failing);
    StartIgnoresDoing(s, Waiting({}, s.doing.desired), s.doing.desired, order, failing);
    var u := StartEach(ready, s.doing.desired, order, failing);
    var t := Apply(s, Start(order, failing));
    assert t == u.(doing := Idle);
    forall id | 0 <= id < |t.consumers| && Alive(t.consumers[id]) ensures Listed(t, id) {
      assert Listed(u, id);
    }
  }

  lemma StopAllKeeps(s: State)
    requires Inv(s) && s.doing.Idle?
    ensures Inv(Apply(s, StopAll))
  {
    var t := Apply(s, StopAll);
    forall id | 0 <= id < |t.consumers| && Alive(t.consumers[id]) ensures id in Awaited(t) {
      assert Listed(s, id);
    }
    forall id | id in Awaited(t) ensures id < |t.consumers| {
      var b :| b in s.running && s.running[b] == id;
    }
    forall a, b | a in Awaited(t) && b in Awaited(t) && t.consumers[a].bucket == t.consumers[b].bucket ensures a == b {
      var x :| x in s.running && s.running[x] == a;
      var y :| y in s.running && s.running[y] == b;
    }
  }

  lemma AllClosedKeeps(s: State)
    requires Inv(s) && s.doing.Stopping? && AllAreClosed(s.consumers, s.doing.stopped)
    ensures Inv(Apply(s, AllClosed))
  {
    var t := Apply(s, AllClosed);
    forall id | 0 <= id < |t.consumers| && Alive(t.consumers[id]) ensures Listed(t, id) {
      assert Listed(s, id) || id in Awaited(s);
    }
  }

  lemma ReturnKeeps(s: State, id: nat)
    requires Inv(s)
    ensures Inv(Apply(s, Return(id)))
  {
    var t := Apply(s, Return(id));
    forall k | 0 <= k < |t.consumers| && Alive(t.consumers[k]) ensures Listed(t, k) || k in Awaited(t) {
      assert Alive(s.consumers[k]);
      assert Listed(s, k) || k in Awaited(s);
    }
  }

  lemma RemoveKeeps(s: State, id: nat)
    requires Inv(s)
    ensures Inv(Apply(s, Remove(id)))
  {
    var t := Apply(s, Remove(id));
    if id < |s.consumers| && s.consumers[id].phase == Returned {
      forall k | 0 <= k < |t.consumers| && Alive(t.consumers[k]) ensures Listed(t, k) || k in Awaited(t) {
        assert k != id && Alive(s.consumers[k]);
        assert Listed(s, k) || k in Awaited(s);
      }
      forall b | b in t.running
        ensures t.running[b] < |t.consumers| && t.consumers[t.running[b]].bucket == b && Alive(t.consumers[t.running[b]])
      {
        assert s.running[b] != id;
      }
    }
  }

  lemma CloseKeeps(s: State, id: nat)
    requires Inv(s)
    ensures Inv(Apply(s, Close(id)))
  {
    var t := Apply(s, Close(id));
    forall k | 0 <= k < |t.consumers| && Alive(t.consumers[k]) ensures Listed(t, k) || k in Awaited(t) {
      assert Alive(s.consumers[k]);
      assert Listed(s, k) || k in Awaited(s);
    }
  }

  lemma StepKeeps(s: State, event: Event)
    requires Inv(s)
    ensures Inv(Apply(s, event))
  {
    match event
    case Reconcile(desired) => if s.doing.Idle? { ReconcileKeeps(s, desired); }
    case Start(order, failing) =>
      if s.doing.Waiting? && AllAreClosed(s.consumers, s.doing.stopped) {
        StartKeeps(s, order, failing);
      }
    case StopAll => if s.doing.Idle? { StopAllKeeps(s); }
    case AllClosed => if s.doing.Stopping? && AllAreClosed(s.consumers, s.doing.stopped) { AllClosedKeeps(s); }
    case Return(id) => ReturnKeeps(s, id);
    case Remove(id) => RemoveKeeps(s, id);
    case Close(id) => CloseKeeps(s, id);
  }

  lemma {:induction false} RunKeeps(s: State, events: seq<Event>)
    requires Inv(s)
    ensures Inv(Run(s, events))
    decreases |events|
  {
    if events != [] {
      StepKeeps(s, events[0]);
      RunKeeps(Apply(s, events[0]), events[1..]);
    }
  }

  // ----- What it gives -----

  /** In every reachable state at most one consumer of a bucket runs, or has returned and not yet taken itself out of the table. */
  lemma AtMostOneIsAlive(events: seq<Event>, a: nat, b: nat)
    requires var s := Run(INITIAL, events);
      a < |s.consumers| && b < |s.consumers| && Alive(s.consumers[a]) && Alive(s.consumers[b]) &&
      s.consumers[a].bucket == s.consumers[b].bucket
    ensures a == b
  {
    RunKeeps(INITIAL, events);
    var s := Run(INITIAL, events);
    assert (Listed(s, a) || a in Awaited(s)) && (Listed(s, b) || b in Awaited(s));
  }

  /** No consumer is alive once stopAll has returned, and none is ever started again. */
  lemma NoneIsAliveAfterStop(events: seq<Event>, more: seq<Event>, id: nat)
    requires Run(INITIAL, events).doing == Stopped
    requires id < |Run(Run(INITIAL, events), more).consumers|
    ensures !Alive(Run(Run(INITIAL, events), more).consumers[id])
  {
    RunKeeps(INITIAL, events);
    StaysStopped(Run(INITIAL, events), more);
    var s := Run(Run(INITIAL, events), more);
    RunKeeps(Run(INITIAL, events), more);
    assert Alive(s.consumers[id]) ==> Listed(s, id) || id in Awaited(s);
  }

  lemma {:induction false} StaysStopped(s: State, more: seq<Event>)
    requires s.doing == Stopped
    ensures Run(s, more).doing == Stopped
    decreases |more|
  {
    if more != [] {
      StaysStopped(Apply(s, more[0]), more[1..]);
    }
  }

  /** An entry always stands for the live consumer of its bucket: a stale one never removes its successor's. */
  lemma EntriesAreLive(events: seq<Event>, bucket: string)
    requires bucket in Run(INITIAL, events).running
    ensures var s := Run(INITIAL, events); var id := s.running[bucket];
      id < |s.consumers| && s.consumers[id].bucket == bucket && Alive(s.consumers[id])
  {
    RunKeeps(INITIAL, events);
  }

  /** After reconcile, each wanted bucket whose consumer could be created has one with the wanted config. */
  lemma {:induction false} StartMeetsDesired(s: State, order: seq<string>, failing: set<string>, bucket: string)
    requires Inv(s) && s.doing.Waiting? && AllAreClosed(s.consumers, s.doing.stopped)
    requires bucket in s.doing.desired && bucket !in failing && bucket in order
    ensures var t := Apply(s, Start(order, failing));
      && bucket in t.running && t.running[bucket] < |t.consumers|
      && t.consumers[t.running[bucket]].config == s.doing.desired[bucket] && Alive(t.consumers[t.running[bucket]])
  {
    var ready := s.(doing := Waiting({}, s.doing.desired));
    ForgetClosed(s);
    StartIgnoresDoing(s, Waiting({}, s.doing.desired), s.doing.desired, order, failing);
    EachStarts(ready, s.doing.desired, order, failing, bucket);
    StartKeeps(s, order, failing);
    var u := StartEach(ready, s.doing.desired, order, failing);
    StartEachKeeps(ready, s.doing.desired, order, failing);
    assert bucket in u.running && u.running[bucket] < |u.consumers|;
  }

  lemma {:induction false} EachStarts(s: State, desired: map<string, string>, order: seq<string>, failing: set<string>, bucket: string)
    requires Inv(s) && s.doing == Waiting({}, desired) && bucket in desired && bucket !in failing && bucket in order
    ensures bucket in StartEach(s, desired, order, failing).running
    decreases |order|
  {
    var next := StartOne(s, desired, order[0], order[0] in failing);
    StartOneKeeps(s, desired, order[0], order[0] in failing);
    if bucket == order[0] {
      assert bucket in next.running;
      StartEachKeeps(next, desired, order[1..], failing);
    } else {
      assert bucket in order[1..];
      EachStarts(next, desired, order[1..], failing, bucket);
    }
  }

  // ----- Who is stopped, and who is left alone -----

  /** The consumer in the table for its bucket, whose bucket is not desired or is desired with another config. */
  predicate Replaced(s: State, desired: map<string, string>, id: nat)
    requires id < |s.consumers|
  {
    var c := s.consumers[id];
    Listed(s, id) && (c.bucket in desired ==> desired[c.bucket] != c.config)
  }

  /**
   A consumer is cancelled by a reconcile exactly when it is in the table and its bucket is not desired or is desired with
   another config; by stopAll exactly when it is in the table; and by nothing else.
   */
  lemma CancelledIff(s: State, event: Event, id: nat)
    requires Inv(s) && id < |s.consumers|
    ensures id < |Apply(s, event).consumers|
    ensures Apply(s, event).consumers[id].cancelled <==>
              || s.consumers[id].cancelled
              || (event.Reconcile? && s.doing.Idle? && Replaced(s, event.desired, id))
              || (event.StopAll? && s.doing.Idle? && Listed(s, id))
  {
    match event
    case Reconcile(desired) =>
      if s.doing.Idle? {
        var c, gone := s.consumers[id], Unwanted(s, desired);
        if b :| b in gone && s.running[b] == id {
          assert c.bucket == b;
        }
        if Replaced(s, desired, id) {
          assert c.bucket in gone;
        }
      }
    case Start(order, failing) =>
      if s.doing.Waiting? && AllAreClosed(s.consumers, s.doing.stopped) {
        EarlierAreKept(s, order, failing);
        assert Apply(s, event).consumers[..|s.consumers|][id] == s.consumers[id];
      }
    case StopAll =>
      if b :| b in s.running && s.running[b] == id {
        assert s.consumers[id].bucket == b;
      }
    case _ =>
  }

  lemma EarlierAreKept(s: State, order: seq<string>, failing: set<string>)
    requires Inv(s) && s.doing.Waiting? && AllAreClosed(s.consumers, s.doing.stopped)
    ensures var t := Apply(s, Start(order, failing)); |s.consumers| <= |t.consumers| && t.consumers[..|s.consumers|] == s.consumers
  {
    ForgetClosed(s);
    StartEachKeeps(s.(doing := Waiting({}, s.doing.desired)), s.doing.desired, order, failing);
    StartIgnoresDoing(s, Waiting({}, s.doing.desired), s.doing.desired, order, failing);
  }

  /** The table holds this consumer for its bucket, and the manager has not cancelled it. */
  ghost predicate Serves(s: State, b: string, id: nat, config: string) {
    && b in s.running && s.running[b] == id && id < |s.consumers|
    && s.consumers[id].bucket == b && s.consumers[id].config == config && !s.consumers[id].cancelled
  }

  /** Steps of consumers' own goroutines, none of them the one by which this consumer takes itself out of the table. */
  ghost predicate LeavesAlone(events: seq<Event>, id: nat) {
    forall i :: 0 <= i < |events| ==> (events[i].Return? || events[i].Remove? || events[i].Close?) && events[i] != Remove(id)
  }

  lemma {:induction false} StillServes(s: State, events: seq<Event>, b: string, id: nat, config: string)
    requires Inv(s) && Serves(s, b, id, config) && LeavesAlone(events, id)
    ensures Inv(Run(s, events)) && Serves(Run(s, events), b, id, config) && Run(s, events).doing == s.doing
    decreases |events|
  {
    if events != [] {
      var next := Apply(s, events[0]);
      StepKeeps(s, events[0]);
      CancelledIff(s, events[0], id);
      assert Serves(next, b, id, config);
      assert forall i :: 0 <= i < |events[1..]| ==> events[1..][i] == events[i + 1];
      StillServes(next, events[1..], b, id, config);
    }
  }

  /**
   A consumer whose bucket is desired with the config it has is left alone: through the reconcile, whatever consumers do
   until the stopped ones are closed, and the start that follows, it stays in the table under its id and is not cancelled.
   */
  lemma UnchangedIsKept(s: State, desired: map<string, string>, between: seq<Event>, order: seq<string>, failing: set<string>, b: string)
    requires Inv(s) && s.doing.Idle? && b in s.running && b in desired
    requires Serves(s, b, s.running[b], desired[b]) && LeavesAlone(between, s.running[b])
    ensures var waiting := Run(Apply(s, Reconcile(desired)), between);
      Serves(waiting, b, s.running[b], desired[b]) && Serves(Apply(waiting, Start(order, failing)), b, s.running[b], desired[b])
  {
    var id, t := s.running[b], Apply(s, Reconcile(desired));
    ReconcileKeeps(s, desired);
    CancelledIff(s, Reconcile(desired), id);
    assert b in t.running && t.running[b] == id;
    StillServes(t, between, b, id, desired[b]);
    var waiting := Run(t, between);
    CancelledIff(waiting, Start(order, failing), id);
    if waiting.doing.Waiting? && AllAreClosed(waiting.consumers, waiting.doing.stopped) {
      StartKeeps(waiting, order, failing);
      EarlierAreKept(waiting, order, failing);
      assert Apply(waiting, Start(order, failing)).consumers[..|waiting.consumers|][id] == waiting.consumers[id];
    }
  }

  /** After a reconcile the table holds exactly the consumers that are desired as they are; it waits for exactly the others. */
  lemma TableAfterReconcile(s: State, desired: map<string, string>, b: string)
    requires Inv(s) && s.doing.Idle?
    ensures var t := Apply(s, Reconcile(desired));
      && (b in t.running <==> b in s.running && b in desired && s.consumers[s.running[b]].config == desired[b])
      && (b in t.running ==> t.running[b] == s.running[b])
      && (b in s.running && b !in t.running ==> s.running[b] in Awaited(t))
  {
  }

  /** A consumer as it is when it has just been started. */
  ghost predicate JustStarted(s: State, desired: map<string, string>, order: seq<string>, failing: set<string>, id: nat)
    requires id < |s.consumers|
  {
    var c := s.consumers[id];
    && c.phase == Running && !c.cancelled && c.bucket in order && c.bucket !in failing
    && c.bucket in desired && c.config == desired[c.bucket] && Listed(s, id)
  }

  ghost predicate StartsFrom(s: State, t: State, desired: map<string, string>, order: seq<string>, failing: set<string>) {
    && |s.consumers| <= |t.consumers|
    && (forall b :: b in t.running <==> b in s.running || (b in desired && b in order && b !in failing))
    && (forall id :: |s.consumers| <= id < |t.consumers| ==>
          JustStarted(t, desired, order, failing, id) && t.consumers[id].bucket !in s.running)
  }

  lemma {:induction false} EachStartsExactly(s: State, desired: map<string, string>, order: seq<string>, failing: set<string>)
    requires Inv(s) && s.doing == Waiting({}, desired)
    ensures StartsFrom(s, StartEach(s, desired, order, failing), desired, order, failing)
    decreases |order|
  {
    if order != [] {
      var next := StartOne(s, desired, order[0], order[0] in failing);
      var t := StartEach(s, desired, order, failing);
      StartOneKeeps(s, desired, order[0], order[0] in failing);
      StartEachKeeps(next, desired, order[1..], failing);
      EachStartsExactly(next, desired, order[1..], failing);
      assert order == [order[0]] + order[1..];
      forall id | |s.consumers| <= id < |t.consumers|
        ensures JustStarted(t, desired, order, failing, id) && t.consumers[id].bucket !in s.running
      {
        if id < |next.consumers| {
          assert t.consumers[..|next.consumers|][id] == next.consumers[id];
        }
      }
    }
  }

  /**
   Starting adds exactly the desired buckets that were tried and could be created to those in the table. Every new consumer
   serves a bucket that had none, with the desired config; it is in the table, running and not cancelled.
   */
  lemma StartsExactly(s: State, order: seq<string>, failing: set<string>)
    requires Inv(s) && s.doing.Waiting? && AllAreClosed(s.consumers, s.doing.stopped)
    ensures StartsFrom(s, Apply(s, Start(order, failing)), s.doing.desired, order, failing)
  {
    var ready := s.(doing := Waiting({}, s.doing.desired));
    ForgetClosed(s);
    EachStartsExactly(ready, s.doing.desired, order, failing);
    StartIgnoresDoing(s, Waiting({}, s.doing.desired), s.doing.desired, order, failing);
    var u, t := StartEach(ready, s.doing.desired, order, failing), Apply(s, Start(order, failing));
    assert t == u.(doing := Idle);
    forall id | |s.consumers| <= id < |t.consumers| ensures JustStarted(t, s.doing.desired, order, failing, id) {
      assert JustStarted(u, s.doing.desired, order, failing, id);
    }
  }
}
