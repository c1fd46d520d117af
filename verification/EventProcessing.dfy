/** Upstream events coalesced per object, grouped into mutation jobs, and marked. */
module EventProcessing {
  import opened Values
  import opened Grouping
  import opened Batching
  import opened Sequences

  const IMPORT := "import_objects"
  const REFRESH := "refresh_objects"
  const REMOVE := "remove_objects"

  datatype Event = Event(id: string, bucket: string, key: string, name: string)

  datatype Input = Input(eventId: string, bucket: string, key: string, jobType: string, objectId: string)

  datatype Mutation = Mutation(bucket: string, key: string, jobType: string, objectId: string, eventIds: seq<string>)

  datatype Evidence = Evidence(id: string, key: string)

  datatype Job = Job(jobType: string, bucket: string, objects: seq<Evidence>)

  datatype Mark = Mark(eventId: string, processed: bool, reason: string)

  // ----- Coalescing -----

  function Keyed(inputs: seq<Input>): (pairs: seq<((string, string), Input)>)
    ensures |pairs| == |inputs|
  {
    seq(|inputs|, i requires 0 <= i < |inputs| => ((inputs[i].bucket, inputs[i].key), inputs[i]))
  }

  function EventIds(inputs: seq<Input>): (ids: seq<string>)
    ensures |ids| == |inputs|
  {
    seq(|inputs|, i requires 0 <= i < |inputs| => inputs[i].eventId)
  }

  /** The last input of an object decides, and every input's event is kept, in order. */
  function Coalesced(key: (string, string), inputs: seq<Input>): Mutation
    requires inputs != []
  {
    var last := inputs[|inputs| - 1];
    Mutation(key.0, key.1, last.jobType, last.objectId, EventIds(inputs))
  }

  function MutationAt(pairs: seq<((string, string), Input)>, key: (string, string)): Mutation {
    if ValuesOf(pairs, key) == [] then Mutation(key.0, key.1, "", "", []) else Coalesced(key, ValuesOf(pairs, key))
  }

  function Mutations(inputs: seq<Input>): (mutations: seq<Mutation>)
    ensures |mutations| == |Keys(Keyed(inputs))|
  {
    var pairs, keys := Keyed(inputs), Keys(Keyed(inputs));
    seq(|keys|, i requires 0 <= i < |keys| => MutationAt(pairs, keys[i]))
  }

  lemma KeyedSnoc(inputs: seq<Input>, n: nat)
    requires n < |inputs|
    ensures Keyed(inputs[..n + 1]) == Keyed(inputs[..n]) + [((inputs[n].bucket, inputs[n].key), inputs[n])]
    ensures Keyed(inputs[..n + 1])[..n] == Keyed(inputs[..n])
  {
  }

  /** CoalesceMutations: an order list and a map filled in one pass. */
  method CoalesceMutations(inputs: seq<Input>) returns (mutations: seq<Mutation>)
    ensures mutations == Mutations(inputs)
  {
    var ordered: seq<(string, string)> := [];
    var byKey: map<(string, string), Mutation> := map[];
    for n := 0 to |inputs|
      invariant ordered == Keys(Keyed(inputs[..n]))
      invariant forall key :: key in byKey <==> key in ordered
      invariant forall key :: key in byKey ==> byKey[key] == MutationAt(Keyed(inputs[..n]), key)
    {
      var input := inputs[n];
      var key := (input.bucket, input.key);
      ghost var before, after := Keyed(inputs[..n]), Keyed(inputs[..n + 1]);
      KeyedSnoc(inputs, n);
      KeysAreDistinct(before);
      KeysAreDistinct(after);
      var current := if key in byKey then byKey[key] else Mutation(key.0, key.1, "", "", []);
      if key !in byKey {
        NoSuchKey(before, key);
        ordered := ordered + [key];
      }
      assert ValuesOf(after, key) == ValuesOf(before, key) + [input];
      EventIdsSnoc(ValuesOf(before, key), input);
      byKey := byKey[key := current.(jobType := input.jobType, objectId := input.objectId, eventIds := current.eventIds + [input.eventId])];
    }
    assert inputs[..|inputs|] == inputs;
    mutations := seq(|ordered|, i requires 0 <= i < |ordered| && ordered[i] in byKey => byKey[ordered[i]]);
  }

  lemma EventIdsSnoc(inputs: seq<Input>, last: Input)
    ensures EventIds(inputs + [last]) == EventIds(inputs) + [last.eventId]
    ensures inputs == [] ==> EventIds(inputs) == []
  {
  }

  // ----- Grouping by job -----

  function ByJob(mutations: seq<Mutation>): (pairs: seq<((string, string), Mutation)>)
    ensures |pairs| == |mutations|
  {
    seq(|mutations|, i requires 0 <= i < |mutations| => ((mutations[i].bucket, mutations[i].jobType), mutations[i]))
  }

  datatype Group = Group(bucket: string, jobType: string, mutations: seq<Mutation>)

  function Groups(mutations: seq<Mutation>): (groups: seq<Group>)
    ensures |groups| == |Keys(ByJob(mutations))|
  {
    var pairs, keys := ByJob(mutations), Keys(ByJob(mutations));
    seq(|keys|, i requires 0 <= i < |keys| => Group(keys[i].0, keys[i].1, ValuesOf(pairs, keys[i])))
  }

  lemma ByJobSnoc(mutations: seq<Mutation>, n: nat)
    requires n < |mutations|
    ensures ByJob(mutations[..n + 1]) == ByJob(mutations[..n]) + [((mutations[n].bucket, mutations[n].jobType), mutations[n])]
    ensures ByJob(mutations[..n + 1])[..n] == ByJob(mutations[..n])
  {
  }

  /** GroupMutationsByJob. */
  method GroupMutationsByJob(mutations: seq<Mutation>) returns (groups: seq<Group>)
    ensures groups == Groups(mutations)
  {
    var ordered: seq<(string, string)> := [];
    var byGroup: map<(string, string), seq<Mutation>> := map[];
    for n := 0 to |mutations|
      invariant ordered == Keys(ByJob(mutations[..n]))
      invariant forall key :: key in byGroup <==> key in ordered
      invariant forall key :: key in byGroup ==> byGroup[key] == ValuesOf(ByJob(mutations[..n]), key)
    {
      var mutation := mutations[n];
      var key := (mutation.bucket, mutation.jobType);
      ByJobSnoc(mutations, n);
      if key !in byGroup {
        NoSuchKey(ByJob(mutations[..n]), key);
        ordered := ordered + [key];
      }
      byGroup := byGroup[key := (if key in byGroup then byGroup[key] else []) + [mutation]];
    }
    assert mutations[..|mutations|] == mutations;
    groups := seq(|ordered|, i requires 0 <= i < |ordered| && ordered[i] in byGroup => Group(ordered[i].0, ordered[i].1, byGroup[ordered[i]]));
  }

  // ----- What coalescing and grouping keep -----

  function InputIs(id: string): Input -> nat {
    (input: Input) => if input.eventId == id then 1 else 0
  }

  function IdIs(id: string): string -> nat {
    x => if x == id then 1 else 0
  }

  function MutationHas(id: string): Mutation -> nat {
    (mutation: Mutation) => Count(IdIs(id), mutation.eventIds)
  }

  function MutationIs(bucket: string, key: string): Mutation -> nat {
    (mutation: Mutation) => if mutation.bucket == bucket && mutation.key == key then 1 else 0
  }

  lemma {:induction false} EventIdsCount(id: string, inputs: seq<Input>)
    ensures Count(IdIs(id), EventIds(inputs)) == Count(InputIs(id), inputs)
    decreases |inputs|
  {
    if inputs != [] {
      var front := inputs[..|inputs| - 1];
      EventIdsCount(id, front);
      assert EventIds(inputs)[..|inputs| - 1] == EventIds(front);
    }
  }

  lemma {:induction false} KeyedCount(f: Input -> nat, inputs: seq<Input>)
    ensures PairsCount(f, Keyed(inputs)) == Count(f, inputs)
    decreases |inputs|
  {
    if inputs != [] {
      var front := inputs[..|inputs| - 1];
      KeyedCount(f, front);
      assert Keyed(inputs)[..|inputs| - 1] == Keyed(front);
    }
  }

  lemma {:induction false} MutationsCount(id: string, pairs: seq<((string, string), Input)>, keys: seq<(string, string)>, mutations: seq<Mutation>)
    requires |mutations| == |keys| && forall i :: 0 <= i < |keys| ==> mutations[i] == MutationAt(pairs, keys[i])
    ensures Count(MutationHas(id), mutations) == GroupsCount(InputIs(id), pairs, keys)
    decreases |keys|
  {
    if keys != [] {
      var n := |keys| - 1;
      MutationsCount(id, pairs, keys[..n], mutations[..n]);
      EventIdsCount(id, ValuesOf(pairs, keys[n]));
    }
  }

  /** Coalescing keeps every event, as often as it occurred. */
  lemma CoalescingKeepsEvents(id: string, inputs: seq<Input>)
    ensures Count(MutationHas(id), Mutations(inputs)) == Count(InputIs(id), inputs)
  {
    MutationsCount(id, Keyed(inputs), Keys(Keyed(inputs)), Mutations(inputs));
    GroupingConserves(InputIs(id), Keyed(inputs));
    KeyedCount(InputIs(id), inputs);
  }

  /** The latest event of an object decides what is done with it. */
  lemma {:induction false} LatestInputDecides(inputs: seq<Input>, i: nat)
    requires i < |inputs| && Latest(inputs, i)
    ensures var mutation := MutationAt(Keyed(inputs), (inputs[i].bucket, inputs[i].key));
      mutation.jobType == inputs[i].jobType && mutation.objectId == inputs[i].objectId
    decreases |inputs|
  {
    var n := |inputs| - 1;
    KeyedSnoc(inputs, n);
    assert inputs[..n + 1] == inputs;
    if i < n {
      LatestInputDecides(inputs[..n], i);
    }
  }

  /** After coalescing, an object occurs once. */
  lemma CoalescedObjectsAreDistinct(inputs: seq<Input>, i: nat, j: nat)
    requires i < j < |Mutations(inputs)|
    ensures (Mutations(inputs)[i].bucket, Mutations(inputs)[i].key) != (Mutations(inputs)[j].bucket, Mutations(inputs)[j].key)
  {
    KeysAreDistinct(Keyed(inputs));
  }

  /** A count over the mutations of a list of groups. */
  function AllGroups(f: Mutation -> nat, groups: seq<Group>): nat {
    if groups == [] then 0 else AllGroups(f, groups[..|groups| - 1]) + Count(f, groups[|groups| - 1].mutations)
  }

  lemma {:induction false} ByJobCount(f: Mutation -> nat, mutations: seq<Mutation>)
    ensures PairsCount(f, ByJob(mutations)) == Count(f, mutations)
    decreases |mutations|
  {
    if mutations != [] {
      var front := mutations[..|mutations| - 1];
      ByJobCount(f, front);
      assert ByJob(mutations)[..|mutations| - 1] == ByJob(front);
    }
  }

  lemma {:induction false} GroupListCount(f: Mutation -> nat, pairs: seq<((string, string), Mutation)>, keys: seq<(string, string)>,
                                          groups: seq<Group>)
    requires |groups| == |keys| && forall i :: 0 <= i < |keys| ==> groups[i].mutations == ValuesOf(pairs, keys[i])
    ensures AllGroups(f, groups) == GroupsCount(f, pairs, keys)
    decreases |keys|
  {
    if keys != [] {
      GroupListCount(f, pairs, keys[..|keys| - 1], groups[..|keys| - 1]);
    }
  }

  /** Grouping by job loses and repeats no mutation. */
  lemma GroupsKeep(f: Mutation -> nat, mutations: seq<Mutation>)
    ensures AllGroups(f, Groups(mutations)) == Count(f, mutations)
  {
    GroupListCount(f, ByJob(mutations), Keys(ByJob(mutations)), Groups(mutations));
    GroupingConserves(f, ByJob(mutations));
    ByJobCount(f, mutations);
  }

  // ----- Jobs -----

  function EvidenceOf(mutations: seq<Mutation>): (evidence: seq<Evidence>)
    ensures |evidence| == |mutations|
  {
    seq(|mutations|, i requires 0 <= i < |mutations| => Evidence(mutations[i].objectId, mutations[i].key))
  }

  function JobsFor(bucket: string, jobType: string, batches: seq<seq<Evidence>>): seq<Job> {
    if batches == [] then [] else JobsFor(bucket, jobType, batches[..|batches| - 1]) + [Job(jobType, bucket, batches[|batches| - 1])]
  }

  function GroupJobs(group: Group, size: nat): seq<Job>
    requires size > 0
  {
    JobsFor(group.bucket, group.jobType, Chunk(EvidenceOf(group.mutations), size))
  }

  function AllJobs(groups: seq<Group>, size: nat): seq<Job>
    requires size > 0
  {
    if groups == [] then [] else AllJobs(groups[..|groups| - 1], size) + GroupJobs(groups[|groups| - 1], size)
  }

  function EvidenceIs(key: string): Evidence -> nat {
    (e: Evidence) => if e.key == key then 1 else 0
  }

  /** How often a job names an object. */
  function JobNames(bucket: string, key: string): Job -> nat {
    (job: Job) => if job.bucket == bucket then Count(EvidenceIs(key), job.objects) else 0
  }

  lemma {:induction false} BatchesName(bucket: string, key: string, jobBucket: string, jobType: string, batches: seq<seq<Evidence>>)
    ensures Count(JobNames(bucket, key), JobsFor(jobBucket, jobType, batches)) ==
      if jobBucket == bucket then Count(EvidenceIs(key), Concat(batches)) else 0
    decreases |batches|
  {
    if batches != [] {
      var front, last := batches[..|batches| - 1], batches[|batches| - 1];
      BatchesName(bucket, key, jobBucket, jobType, front);
      CountSnoc(JobNames(bucket, key), JobsFor(jobBucket, jobType, front), Job(jobType, jobBucket, last));
      ConcatSnoc(front, last);
      assert batches == front + [last];
      CountAppend(EvidenceIs(key), Concat(front), last);
    }
  }

  lemma {:induction false} EvidenceNames(bucket: string, key: string, group: Group)
    requires forall i :: 0 <= i < |group.mutations| ==> group.mutations[i].bucket == group.bucket
    ensures Count(MutationIs(bucket, key), group.mutations) ==
      if group.bucket == bucket then Count(EvidenceIs(key), EvidenceOf(group.mutations)) else 0
    decreases |group.mutations|
  {
    if group.mutations != [] {
      var front := group.(mutations := group.mutations[..|group.mutations| - 1]);
      EvidenceNames(bucket, key, front);
      assert EvidenceOf(group.mutations)[..|group.mutations| - 1] == EvidenceOf(front.mutations);
    }
  }

  ghost predicate OwnBuckets(groups: seq<Group>) {
    forall g :: 0 <= g < |groups| ==> forall i :: 0 <= i < |groups[g].mutations| ==> groups[g].mutations[i].bucket == groups[g].bucket
  }

  lemma {:induction false} AllJobsName(bucket: string, key: string, groups: seq<Group>, size: nat)
    requires size > 0 && OwnBuckets(groups)
    ensures Count(JobNames(bucket, key), AllJobs(groups, size)) == AllGroups(MutationIs(bucket, key), groups)
    decreases |groups|
  {
    if groups != [] {
      var front, last := groups[..|groups| - 1], groups[|groups| - 1];
      AllJobsName(bucket, key, front, size);
      CountAppend(JobNames(bucket, key), AllJobs(front, size), GroupJobs(last, size));
      BatchesName(bucket, key, last.bucket, last.jobType, Chunk(EvidenceOf(last.mutations), size));
      ChunkIsExact(EvidenceOf(last.mutations), size);
      EvidenceNames(bucket, key, last);
    }
  }

  lemma {:induction false} GroupMembers(pairs: seq<((string, string), Mutation)>, key: (string, string), i: nat)
    requires i < |ValuesOf(pairs, key)|
    requires forall k :: 0 <= k < |pairs| ==> pairs[k].0 == (pairs[k].1.bucket, pairs[k].1.jobType)
    ensures ValuesOf(pairs, key)[i].bucket == key.0 && ValuesOf(pairs, key)[i].jobType == key.1
    decreases |pairs|
  {
    var front := pairs[..|pairs| - 1];
    if i < |ValuesOf(front, key)| {
      GroupMembers(front, key, i);
    }
  }

  /** Every object of the inputs is named once by the jobs together, and no other object is, whatever the batch size. */
  lemma ObjectsAreNamedOnce(bucket: string, key: string, inputs: seq<Input>, size: nat)
    requires size > 0
    ensures Count(JobNames(bucket, key), AllJobs(Groups(Mutations(inputs)), size)) ==
      if exists i :: 0 <= i < |inputs| && inputs[i].bucket == bucket && inputs[i].key == key then 1 else 0
  {
    var mutations := Mutations(inputs);
    var groups := Groups(mutations);
    forall g, i | 0 <= g < |groups| && 0 <= i < |groups[g].mutations| ensures groups[g].mutations[i].bucket == groups[g].bucket {
      GroupMembers(ByJob(mutations), Keys(ByJob(mutations))[g], i);
    }
    AllJobsName(bucket, key, groups, size);
    GroupsKeep(MutationIs(bucket, key), mutations);
    KeysAreDistinct(Keyed(inputs));
    NamedByKeys(bucket, key, Keyed(inputs), Keys(Keyed(inputs)), mutations);
    KeysComeFromInputs(inputs, (bucket, key));
  }

  lemma {:induction false} NamedByKeys(bucket: string, key: string, pairs: seq<((string, string), Input)>, keys: seq<(string, string)>,
                                       mutations: seq<Mutation>)
    requires |mutations| == |keys| && forall i :: 0 <= i < |keys| ==> mutations[i] == MutationAt(pairs, keys[i])
    requires Distinct(keys)
    ensures Count(MutationIs(bucket, key), mutations) == if (bucket, key) in keys then 1 else 0
    decreases |keys|
  {
    if keys != [] {
      var n := |keys| - 1;
      NamedByKeys(bucket, key, pairs, keys[..n], mutations[..n]);
      assert keys == keys[..n] + [keys[n]];
    }
  }

  lemma {:induction false} KeysComeFromInputs(inputs: seq<Input>, key: (string, string))
    ensures key in Keys(Keyed(inputs)) <==> exists i :: 0 <= i < |inputs| && inputs[i].bucket == key.0 && inputs[i].key == key.1
    decreases |inputs|
  {
    if inputs != [] {
      var n := |inputs| - 1;
      KeysComeFromInputs(inputs[..n], key);
      KeyedSnoc(inputs, n);
      assert inputs[..n + 1] == inputs;
      forall i | 0 <= i < |inputs| && inputs[i].bucket == key.0 && inputs[i].key == key.1 ensures key in Keys(Keyed(inputs)) {
        if i < n {
          assert inputs[..n][i] == inputs[i];
        }
      }
    }
  }

  // ----- What the jobs do with an object -----

  ghost predicate Latest(inputs: seq<Input>, i: nat)
    requires i < |inputs|
  {
    forall j :: i < j < |inputs| ==> inputs[j].bucket != inputs[i].bucket || inputs[j].key != inputs[i].key
  }

  lemma {:induction false} JobsForMember(bucket: string, jobType: string, batches: seq<seq<Evidence>>, job: Job, e: Evidence)
    requires job in JobsFor(bucket, jobType, batches) && e in job.objects
    ensures job.bucket == bucket && job.jobType == jobType && e in Concat(batches)
    decreases |batches|
  {
    var n := |batches| - 1;
    ConcatSnoc(batches[..n], batches[n]);
    assert batches == batches[..n] + [batches[n]];
    if job in JobsFor(bucket, jobType, batches[..n]) {
      JobsForMember(bucket, jobType, batches[..n], job, e);
    }
  }

  /** What a job does, some mutation of one of the groups asks for. */
  lemma {:induction false} JobComesFromMutation(groups: seq<Group>, size: nat, job: Job, e: Evidence) returns (g: nat, k: nat)
    requires size > 0 && job in AllJobs(groups, size) && e in job.objects
    ensures g < |groups| && k < |groups[g].mutations| && groups[g].bucket == job.bucket && groups[g].jobType == job.jobType
    ensures Evidence(groups[g].mutations[k].objectId, groups[g].mutations[k].key) == e
    decreases |groups|
  {
    var n := |groups| - 1;
    if job in AllJobs(groups[..n], size) {
      g, k := JobComesFromMutation(groups[..n], size, job, e);
    } else {
      var evidence := EvidenceOf(groups[n].mutations);
      JobsForMember(groups[n].bucket, groups[n].jobType, Chunk(evidence, size), job, e);
      ChunkIsExact(evidence, size);
      k :| 0 <= k < |evidence| && evidence[k] == e;
      g := n;
    }
  }

  lemma {:induction false} ValueComesFromPair<K, V>(pairs: seq<(K, V)>, key: K, value: V)
    requires value in ValuesOf(pairs, key)
    ensures (key, value) in pairs
    decreases |pairs|
  {
    var n := |pairs| - 1;
    if value in ValuesOf(pairs[..n], key) {
      ValueComesFromPair(pairs[..n], key, value);
    }
  }

  /** A grouped mutation is the coalesced mutation of its object. */
  lemma GroupedIsCoalesced(inputs: seq<Input>, g: nat, k: nat)
    requires g < |Groups(Mutations(inputs))| && k < |Groups(Mutations(inputs))[g].mutations|
    ensures var mutation := Groups(Mutations(inputs))[g].mutations[k];
      mutation == MutationAt(Keyed(inputs), (mutation.bucket, mutation.key))
  {
    var mutations := Mutations(inputs);
    var pairs := ByJob(mutations);
    var mutation := ValuesOf(pairs, Keys(pairs)[g])[k];
    ValueComesFromPair(pairs, Keys(pairs)[g], mutation);
    var i :| 0 <= i < |pairs| && pairs[i] == (Keys(pairs)[g], mutation);
    KeysAreDistinct(Keyed(inputs));
    assert mutation == mutations[i] == MutationAt(Keyed(inputs), Keys(Keyed(inputs))[i]);
  }

  /** Whichever job names an object, it does what the latest kept event of that object asks for, to the object id that event found. */
  lemma JobsFollowTheLatestInput(inputs: seq<Input>, i: nat, size: nat, job: Job, e: Evidence)
    requires size > 0 && i < |inputs| && Latest(inputs, i)
    requires job in AllJobs(Groups(Mutations(inputs)), size) && e in job.objects
    requires job.bucket == inputs[i].bucket && e.key == inputs[i].key
    ensures job.jobType == inputs[i].jobType && e.id == inputs[i].objectId
  {
    var groups := Groups(Mutations(inputs));
    var g, k := JobComesFromMutation(groups, size, job, e);
    GroupMembers(ByJob(Mutations(inputs)), Keys(ByJob(Mutations(inputs)))[g], k);
    GroupedIsCoalesced(inputs, g, k);
    LatestInputDecides(inputs, i);
  }

  // ----- One tick -----

  /** What the transaction can see. */
  datatype View = View(bucketExists: string -> bool, jobType: string -> Option<string>, stored: (string, string) -> Option<string>)

  /** An event either becomes an input or is skipped for a reason. */
  datatype Outcome = Kept(input: Input) | Skipped(reason: string)

  function Judge(view: View, event: Event): Outcome {
    if !view.bucketExists(event.bucket) then Skipped("bucket_not_found")
    else
      match view.jobType(event.name)
      case None => Skipped("unsupported_event_name")
      case Some(jobType) =>
        if jobType == REMOVE || jobType == REFRESH then
          match view.stored(event.bucket, event.key)
          case None => Skipped("object_not_found")
          case Some(id) => Kept(Input(event.id, event.bucket, event.key, jobType, id))
        else Kept(Input(event.id, event.bucket, event.key, jobType, ""))
  }

  function Inputs(view: View, events: seq<Event>): seq<Input> {
    if events == [] then []
    else
      var front, last := Inputs(view, events[..|events| - 1]), Judge(view, events[|events| - 1]);
      if last.Kept? then front + [last.input] else front
  }

  function SkipMarks(view: View, events: seq<Event>): seq<Mark> {
    if events == [] then []
    else
      var front, last := SkipMarks(view, events[..|events| - 1]), Judge(view, events[|events| - 1]);
      if last.Skipped? then front + [Mark(events[|events| - 1].id, false, last.reason)] else front
  }

  // ----- Jobs and the latest event of an object -----

  ghost predicate LatestEvent(events: seq<Event>, i: nat)
    requires i < |events|
  {
    forall j :: i < j < |events| ==> events[j].bucket != events[i].bucket || events[j].key != events[i].key
  }

  /** An event of a kind that is handled; a refresh or a removal must find the object catalogued. */
  predicate Actionable(view: View, event: Event) {
    match view.jobType(event.name)
    case None => false
    case Some(jobType) => jobType in {REMOVE, REFRESH} ==> view.stored(event.bucket, event.key).Some?
  }

  /** A kept event becomes an input, and the latest one of its object if no later event is of that object. */
  lemma {:induction false} KeptBecomesInput(view: View, events: seq<Event>, i: nat) returns (k: nat)
    requires i < |events| && LatestEvent(events, i) && Judge(view, events[i]).Kept?
    ensures k < |Inputs(view, events)| && Inputs(view, events)[k] == Judge(view, events[i]).input && Latest(Inputs(view, events), k)
    decreases |events|
  {
    var n := |events| - 1;
    if i < n {
      assert LatestEvent(events[..n], i);
      k := KeptBecomesInput(view, events[..n], i);
    } else {
      k := |Inputs(view, events)| - 1;
    }
  }

  /** An input comes from a kept event. */
  lemma {:induction false} InputComesFromEvent(view: View, events: seq<Event>, k: nat) returns (i: nat)
    requires k < |Inputs(view, events)|
    ensures i < |events| && Judge(view, events[i]) == Kept(Inputs(view, events)[k])
    decreases |events|
  {
    var n := |events| - 1;
    if k < |Inputs(view, events[..n])| {
      i := InputComesFromEvent(view, events[..n], k);
    } else {
      i := n;
    }
  }

  /** Whatever names an object was asked for by some kept event of that object. */
  lemma JobComesFromEvent(view: View, events: seq<Event>, size: nat, job: Job, e: Evidence) returns (i: nat)
    requires size > 0 && job in AllJobs(Groups(Mutations(Inputs(view, events))), size) && e in job.objects
    ensures i < |events| && events[i].bucket == job.bucket && events[i].key == e.key
    ensures Judge(view, events[i]).Kept? && Judge(view, events[i]).input.jobType == job.jobType
  {
    var inputs := Inputs(view, events);
    var groups := Groups(Mutations(inputs));
    var g, k := JobComesFromMutation(groups, size, job, e);
    GroupMembers(ByJob(Mutations(inputs)), Keys(ByJob(Mutations(inputs)))[g], k);
    GroupedIsCoalesced(inputs, g, k);
    var mutation := groups[g].mutations[k];
    var n := CoalescedFrom(inputs, g, k);
    i := InputComesFromEvent(view, events, n);
  }

  /** A grouped mutation has the job type of one of the inputs of its object. */
  lemma CoalescedFrom(inputs: seq<Input>, g: nat, k: nat) returns (n: nat)
    requires g < |Groups(Mutations(inputs))| && k < |Groups(Mutations(inputs))[g].mutations|
    ensures var mutation := Groups(Mutations(inputs))[g].mutations[k];
      && n < |inputs| && inputs[n].bucket == mutation.bucket && inputs[n].key == mutation.key
      && inputs[n].jobType == mutation.jobType && inputs[n].objectId == mutation.objectId
  {
    var mutations := Mutations(inputs);
    var pairs := ByJob(mutations);
    var mutation := ValuesOf(pairs, Keys(pairs)[g])[k];
    ValueComesFromPair(pairs, Keys(pairs)[g], mutation);
    var i :| 0 <= i < |pairs| && pairs[i] == (Keys(pairs)[g], mutation);
    var key := Keys(Keyed(inputs))[i];
    KeysAreDistinct(Keyed(inputs));
    var last := ValuesOf(Keyed(inputs), key)[|ValuesOf(Keyed(inputs), key)| - 1];
    ValueComesFromPair(Keyed(inputs), key, last);
    n :| 0 <= n < |inputs| && Keyed(inputs)[n] == (key, last);
  }

  /**
   Whichever job names an object does what the latest event of that object asks for exactly when that event is
   actionable; a later event that is skipped does not undo an earlier one.
   */
  lemma JobsFollowTheLatest(view: View, events: seq<Event>, i: nat, size: nat, job: Job, e: Evidence)
    requires size > 0 && i < |events| && LatestEvent(events, i)
    requires job in AllJobs(Groups(Mutations(Inputs(view, events))), size) && e in job.objects
    requires job.bucket == events[i].bucket && e.key == events[i].key
    ensures view.jobType(events[i].name) == Some(job.jobType) <==> Actionable(view, events[i])
    ensures Actionable(view, events[i]) ==> Judge(view, events[i]) == Kept(Input(events[i].id, job.bucket, e.key, job.jobType, e.id))
  {
    var first := JobComesFromEvent(view, events, size, job, e);
    if Actionable(view, events[i]) {
      var k := KeptBecomesInput(view, events, i);
      JobsFollowTheLatestInput(Inputs(view, events), k, size, job, e);
    }
  }

  /** An object that is not catalogued is created and removed: the removal is skipped, and the object is imported. */
  lemma RemovalAfterCreation(view: View, bucket: string, key: string, created: Event, removed: Event)
    requires view.bucketExists(bucket) && view.stored(bucket, key).None?
    requires created.bucket == removed.bucket == bucket && created.key == removed.key == key
    requires view.jobType(created.name) == Some(IMPORT) && view.jobType(removed.name) == Some(REMOVE)
    ensures Inputs(view, [created, removed]) == [Input(created.id, bucket, key, IMPORT, "")]
    ensures SkipMarks(view, [created, removed]) == [Mark(removed.id, false, "object_not_found")]
  {
    assert [created, removed][..1] == [created] && [created][..0] == [];
    assert Inputs(view, [created]) == [Input(created.id, bucket, key, IMPORT, "")] && SkipMarks(view, [created]) == [];
  }

  function MarkIs(id: string): Mark -> nat {
    (mark: Mark) => if mark.eventId == id then 1 else 0
  }

  function EventIs(id: string): Event -> nat {
    (event: Event) => if event.id == id then 1 else 0
  }

  lemma KeptOneMore(id: string, inputs: seq<Input>, input: Input)
    ensures Count(InputIs(id), inputs + [input]) == Count(InputIs(id), inputs) + (if input.eventId == id then 1 else 0)
  {
    CountSnoc(InputIs(id), inputs, input);
  }

  lemma SkippedOneMore(id: string, marks: seq<Mark>, mark: Mark)
    ensures Count(MarkIs(id), marks + [mark]) == Count(MarkIs(id), marks) + (if mark.eventId == id then 1 else 0)
  {
    CountSnoc(MarkIs(id), marks, mark);
  }

  lemma JudgedOneMore(id: string, view: View, events: seq<Event>)
    requires events != []
    ensures var front, last := events[..|events| - 1], events[|events| - 1];
      Count(InputIs(id), Inputs(view, events)) + Count(MarkIs(id), SkipMarks(view, events)) ==
      Count(InputIs(id), Inputs(view, front)) + Count(MarkIs(id), SkipMarks(view, front)) + (if last.id == id then 1 else 0)
  {
    var front, last := events[..|events| - 1], events[|events| - 1];
    match Judge(view, last)
    case Kept(input) => KeptOneMore(id, Inputs(view, front), input);
    case Skipped(reason) => SkippedOneMore(id, SkipMarks(view, front), Mark(last.id, false, reason));
  }

  /** Every event is kept or skipped, never both. */
  lemma {:induction false} JudgedOnce(id: string, view: View, events: seq<Event>)
    ensures Count(InputIs(id), Inputs(view, events)) + Count(MarkIs(id), SkipMarks(view, events)) == Count(EventIs(id), events)
    decreases |events|
  {
    if events != [] {
      JudgedOnce(id, view, events[..|events| - 1]);
      JudgedOneMore(id, view, events);
    }
  }

  function MarksFor(ids: seq<string>): (marks: seq<Mark>)
    ensures |marks| == |ids|
  {
    seq(|ids|, i requires 0 <= i < |ids| => Mark(ids[i], true, ""))
  }

  /** The marks of all mutations of a list, one per event. */
  function MarksOf(mutations: seq<Mutation>): seq<Mark> {
    if mutations == [] then [] else MarksOf(mutations[..|mutations| - 1]) + MarksFor(mutations[|mutations| - 1].eventIds)
  }

  lemma {:induction false} MarksForCount(id: string, ids: seq<string>)
    ensures Count(MarkIs(id), MarksFor(ids)) == Count(IdIs(id), ids)
    decreases |ids|
  {
    if ids != [] {
      var front := ids[..|ids| - 1];
      MarksForCount(id, front);
      assert MarksFor(ids)[..|ids| - 1] == MarksFor(front);
    }
  }

  lemma {:induction false} MarksOfCount(id: string, mutations: seq<Mutation>)
    ensures Count(MarkIs(id), MarksOf(mutations)) == Count(MutationHas(id), mutations)
    decreases |mutations|
  {
    if mutations != [] {
      var front, last := mutations[..|mutations| - 1], mutations[|mutations| - 1];
      MarksOfCount(id, front);
      CountAppend(MarkIs(id), MarksOf(front), MarksFor(last.eventIds));
      MarksForCount(id, last.eventIds);
    }
  }

  function AllMarks(groups: seq<Group>): seq<Mark> {
    if groups == [] then [] else AllMarks(groups[..|groups| - 1]) + MarksOf(groups[|groups| - 1].mutations)
  }

  lemma {:induction false} AllMarksCount(id: string, groups: seq<Group>)
    ensures Count(MarkIs(id), AllMarks(groups)) == AllGroups(MutationHas(id), groups)
    decreases |groups|
  {
    if groups != [] {
      var front, last := groups[..|groups| - 1], groups[|groups| - 1];
      AllMarksCount(id, front);
      CountAppend(MarkIs(id), AllMarks(front), MarksOf(last.mutations));
      MarksOfCount(id, last.mutations);
    }
  }

  method MarkGroup(mutations: seq<Mutation>) returns (marks: seq<Mark>)
    ensures marks == MarksOf(mutations)
  {
    marks := [];
    for i := 0 to |mutations|
      invariant marks == MarksOf(mutations[..i])
    {
      var ids := mutations[i].eventIds;
      ghost var before := marks;
      for k := 0 to |ids|
        invariant marks == before + MarksFor(ids[..k])
      {
        assert MarksFor(ids[..k + 1]) == MarksFor(ids[..k]) + [Mark(ids[k], true, "")];
        marks := marks + [Mark(ids[k], true, "")];
      }
      assert ids[..|ids|] == ids && mutations[..i + 1][..i] == mutations[..i];
    }
    assert mutations[..|mutations|] == mutations;
  }

  method EnqueueGroup(group: Group, size: nat) returns (jobs: seq<Job>)
    requires size > 0
    ensures jobs == GroupJobs(group, size)
  {
    var batches := Batches(EvidenceOf(group.mutations), size);
    jobs := [];
    for i := 0 to |batches|
      invariant jobs == JobsFor(group.bucket, group.jobType, batches[..i])
    {
      assert batches[..i + 1][..i] == batches[..i];
      jobs := jobs + [Job(group.jobType, group.bucket, batches[i])];
    }
    assert batches[..|batches|] == batches;
  }

  /** processLockedEvents, of a transaction that commits. */
  method ProcessLockedEvents(view: View, events: seq<Event>, size: nat) returns (skips: seq<Mark>, done: seq<Mark>, jobs: seq<Job>)
    requires size > 0
    ensures skips == SkipMarks(view, events)
    ensures done == AllMarks(Groups(Mutations(Inputs(view, events))))
    ensures jobs == AllJobs(Groups(Mutations(Inputs(view, events))), size)
  {
    var inputs := [];
    skips := [];
    for i := 0 to |events|
      invariant inputs == Inputs(view, events[..i]) && skips == SkipMarks(view, events[..i])
    {
      assert events[..i + 1][..i] == events[..i];
      match Judge(view, events[i])
      case Kept(input) => inputs := inputs + [input];
      case Skipped(reason) => skips := skips + [Mark(events[i].id, false, reason)];
    }
    assert events[..|events|] == events;
    var mutations := CoalesceMutations(inputs);
    var groups := GroupMutationsByJob(mutations);
    jobs, done := [], [];
    for g := 0 to |groups|
      invariant jobs == AllJobs(groups[..g], size) && done == AllMarks(groups[..g])
    {
      assert groups[..g + 1][..g] == groups[..g];
      var more := EnqueueGroup(groups[g], size);
      jobs := jobs + more;
      var marks := MarkGroup(groups[g].mutations);
      done := done + marks;
    }
    assert groups[..|groups|] == groups;
  }

  /** Every locked event is marked as often as it was locked: skipped with its reason, or processed. */
  lemma EventsAreMarkedOnce(id: string, view: View, events: seq<Event>)
    ensures Count(MarkIs(id), SkipMarks(view, events)) + Count(MarkIs(id), AllMarks(Groups(Mutations(Inputs(view, events))))) ==
      Count(EventIs(id), events)
  {
    var inputs := Inputs(view, events);
    AllMarksCount(id, Groups(Mutations(inputs)));
    GroupsKeep(MutationHas(id), Mutations(inputs));
    CoalescingKeepsEvents(id, inputs);
    JudgedOnce(id, view, events);
  }
}
