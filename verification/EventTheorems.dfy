/** What becomes of every event of a tick, told on the events themselves. */
module EventTheorems {
  import opened Values
  import opened Batching
  import opened Grouping
  import opened EventProcessing

  /** Why an event is skipped. */
  predicate SkippedFor(view: View, event: Event, reason: string) {
    match reason
    case "bucket_not_found" => !view.bucketExists(event.bucket)
    case "unsupported_event_name" => view.bucketExists(event.bucket) && view.jobType(event.name) == None
    case "object_not_found" =>
      && view.bucketExists(event.bucket) && view.jobType(event.name) in {Some("refresh_objects"), Some("remove_objects")}
      && view.stored(event.bucket, event.key) == None
    case _ => false
  }

  /** The event is handled: its bucket exists, its kind is known, and a refresh or a removal finds its object catalogued. */
  predicate Handled(view: View, event: Event) {
    && view.bucketExists(event.bucket) && view.jobType(event.name) != None
    && (view.jobType(event.name) in {Some("refresh_objects"), Some("remove_objects")} ==> view.stored(event.bucket, event.key) != None)
  }

  /** The object id a job gets: none for an import. */
  function TargetId(view: View, event: Event): string {
    if view.jobType(event.name) in {Some("refresh_objects"), Some("remove_objects")} && view.stored(event.bucket, event.key) != None
    then view.stored(event.bucket, event.key).value else ""
  }

  lemma JudgedIff(view: View, event: Event)
    ensures Judge(view, event).Kept? <==> Handled(view, event)
    ensures forall reason :: Judge(view, event) == Skipped(reason) <==> SkippedFor(view, event, reason)
    ensures Handled(view, event) ==>
      Judge(view, event).input == Input(event.id, event.bucket, event.key, view.jobType(event.name).value, TargetId(view, event))
  {
  }

  /** The marks of skipped events are exactly those of events that are skipped for their reason. */
  lemma {:induction false} SkipMarksIff(view: View, events: seq<Event>, mark: Mark)
    ensures mark in SkipMarks(view, events) <==>
      !mark.processed && exists i :: 0 <= i < |events| && events[i].id == mark.eventId && SkippedFor(view, events[i], mark.reason)
    decreases |events|
  {
    if events != [] {
      var n := |events| - 1;
      SkipMarksIff(view, events[..n], mark);
      JudgedIff(view, events[n]);
      if i :| 0 <= i < |events| && events[i].id == mark.eventId && SkippedFor(view, events[i], mark.reason) {
        assert i < n ==> events[..n][i] == events[i];
      }
    }
  }

  // ----- Processed events -----

  lemma {:induction false} InputsIff(view: View, events: seq<Event>, input: Input)
    ensures input in Inputs(view, events) <==> exists i :: 0 <= i < |events| && Judge(view, events[i]) == Kept(input)
    decreases |events|
  {
    if events != [] {
      var n := |events| - 1;
      InputsIff(view, events[..n], input);
      if i :| 0 <= i < |events| && Judge(view, events[i]) == Kept(input) {
        assert i < n ==> events[..n][i] == events[i];
      }
    }
  }

  lemma {:induction false} CountedIff<T>(f: T -> nat, s: seq<T>)
    ensures Count(f, s) > 0 <==> exists i :: 0 <= i < |s| && f(s[i]) > 0
    decreases |s|
  {
    if s != [] {
      var n := |s| - 1;
      CountedIff(f, s[..n]);
      if i :| 0 <= i < |s| && f(s[i]) > 0 {
        assert i < n ==> s[..n][i] == s[i];
      }
    }
  }

  lemma {:induction false} MarksAreProcessed(mutations: seq<Mutation>, mark: Mark)
    requires mark in MarksOf(mutations)
    ensures mark.processed && mark.reason == ""
    decreases |mutations|
  {
    var n := |mutations| - 1;
    if mark in MarksOf(mutations[..n]) {
      MarksAreProcessed(mutations[..n], mark);
    }
  }

  lemma {:induction false} AllMarksAreProcessed(groups: seq<Group>, mark: Mark)
    requires mark in AllMarks(groups)
    ensures mark.processed && mark.reason == ""
    decreases |groups|
  {
    var n := |groups| - 1;
    if mark in AllMarks(groups[..n]) {
      AllMarksAreProcessed(groups[..n], mark);
    } else {
      MarksAreProcessed(groups[n].mutations, mark);
    }
  }

  /** Marked by id, in the counting of the event processor. */
  lemma MarkedIff(id: string, marks: seq<Mark>)
    ensures Count(MarkIs(id), marks) > 0 <==> exists i :: 0 <= i < |marks| && marks[i].eventId == id
  {
    CountedIff(MarkIs(id), marks);
    assert forall i :: 0 <= i < |marks| ==> (MarkIs(id)(marks[i]) > 0 <==> marks[i].eventId == id);
  }

  lemma InputsCounted(id: string, inputs: seq<Input>)
    ensures Count(InputIs(id), inputs) > 0 <==> exists i :: 0 <= i < |inputs| && inputs[i].eventId == id
  {
    CountedIff(InputIs(id), inputs);
    assert forall i :: 0 <= i < |inputs| ==> (InputIs(id)(inputs[i]) > 0 <==> inputs[i].eventId == id);
  }

  /** Exactly the handled events are marked processed, without a reason. */
  lemma ProcessedIff(view: View, events: seq<Event>, mark: Mark)
    ensures mark in AllMarks(Groups(Mutations(Inputs(view, events)))) <==>
      mark.processed && mark.reason == "" && exists i :: 0 <= i < |events| && events[i].id == mark.eventId && Handled(view, events[i])
  {
    var inputs := Inputs(view, events);
    var groups := Groups(Mutations(inputs));
    var marks := AllMarks(groups);
    AllMarksCount(mark.eventId, groups);
    GroupsKeep(MutationHas(mark.eventId), Mutations(inputs));
    CoalescingKeepsEvents(mark.eventId, inputs);
    MarkedIff(mark.eventId, marks);
    InputsCounted(mark.eventId, inputs);
    if mark in marks {
      AllMarksAreProcessed(groups, mark);
      var k :| 0 <= k < |inputs| && inputs[k].eventId == mark.eventId;
      var i := InputComesFromEvent(view, events, k);
      JudgedIff(view, events[i]);
    }
    if i :| 0 <= i < |events| && events[i].id == mark.eventId && Handled(view, events[i]) {
      JudgedIff(view, events[i]);
      InputsIff(view, events, Judge(view, events[i]).input);
      var k :| 0 <= k < |marks| && marks[k].eventId == mark.eventId;
      AllMarksAreProcessed(groups, marks[k]);
      assert mark.processed && mark.reason == "" ==> marks[k] == mark;
    }
  }

  // ----- Jobs -----

  predicate Concerns(event: Event, bucket: string, key: string) {
    event.bucket == bucket && event.key == key
  }

  /** Exactly the objects of handled events are named by the jobs, each once. */
  lemma NamedIff(view: View, events: seq<Event>, size: nat, bucket: string, key: string)
    requires size > 0
    ensures Count(JobNames(bucket, key), AllJobs(Groups(Mutations(Inputs(view, events))), size)) ==
      if exists i :: 0 <= i < |events| && Concerns(events[i], bucket, key) && Handled(view, events[i]) then 1 else 0
  {
    var inputs := Inputs(view, events);
    ObjectsAreNamedOnce(bucket, key, inputs, size);
    if i :| 0 <= i < |events| && Concerns(events[i], bucket, key) && Handled(view, events[i]) {
      JudgedIff(view, events[i]);
      InputsIff(view, events, Judge(view, events[i]).input);
    }
    if k :| 0 <= k < |inputs| && inputs[k].bucket == bucket && inputs[k].key == key {
      var i := InputComesFromEvent(view, events, k);
      JudgedIff(view, events[i]);
      assert Concerns(events[i], bucket, key);
    }
  }

  /** The event is handled, and no later event of its object is. */
  ghost predicate LastHandled(view: View, events: seq<Event>, i: nat)
    requires i < |events|
  {
    && Handled(view, events[i])
    && forall j :: i < j < |events| && Concerns(events[j], events[i].bucket, events[i].key) ==> !Handled(view, events[j])
  }

  lemma {:induction false} LastHandledIsLatest(view: View, events: seq<Event>, i: nat) returns (k: nat)
    requires i < |events| && LastHandled(view, events, i)
    ensures k < |Inputs(view, events)| && Judge(view, events[i]) == Kept(Inputs(view, events)[k]) && Latest(Inputs(view, events), k)
    decreases |events|
  {
    var n := |events| - 1;
    JudgedIff(view, events[i]);
    JudgedIff(view, events[n]);
    if i < n {
      forall j | i < j < n && Concerns(events[..n][j], events[i].bucket, events[i].key) ensures !Handled(view, events[..n][j]) {
        assert events[..n][j] == events[j];
      }
      assert LastHandled(view, events[..n], i);
      k := LastHandledIsLatest(view, events[..n], i);
    } else {
      k := |Inputs(view, events)| - 1;
    }
  }

  /** Whichever job names an object does what the last handled event of that object asks for, to the object found for it. */
  lemma JobsDoTheLastHandled(view: View, events: seq<Event>, i: nat, size: nat, job: Job, e: Evidence)
    requires size > 0 && i < |events| && LastHandled(view, events, i)
    requires job in AllJobs(Groups(Mutations(Inputs(view, events))), size) && e in job.objects
    requires Concerns(events[i], job.bucket, e.key)
    ensures view.jobType(events[i].name) == Some(job.jobType) && e.id == TargetId(view, events[i])
  {
    var k := LastHandledIsLatest(view, events, i);
    JudgedIff(view, events[i]);
    JobsFollowTheLatestInput(Inputs(view, events), k, size, job, e);
  }

  lemma {:induction false} JobsForSizes(bucket: string, jobType: string, batches: seq<seq<Evidence>>, job: Job)
    requires job in JobsFor(bucket, jobType, batches)
    ensures job.objects in batches
    decreases |batches|
  {
    var n := |batches| - 1;
    if job in JobsFor(bucket, jobType, batches[..n]) {
      JobsForSizes(bucket, jobType, batches[..n], job);
    }
  }

  /** No job is empty or larger than the batch size. */
  lemma {:induction false} JobsAreBounded(groups: seq<Group>, size: nat, job: Job)
    requires size > 0 && job in AllJobs(groups, size)
    ensures 0 < |job.objects| <= size
    decreases |groups|
  {
    var n := |groups| - 1;
    if job in AllJobs(groups[..n], size) {
      JobsAreBounded(groups[..n], size, job);
    } else {
      var evidence := EvidenceOf(groups[n].mutations);
      JobsForSizes(groups[n].bucket, groups[n].jobType, Chunk(evidence, size), job);
      ChunkIsExact(evidence, size);
    }
  }
}
