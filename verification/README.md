# Pithosys: a verified model of its sync protocol, job table and query language

Pithosys catalogues the objects of upstream buckets. A durable job table drives its workers, and a small query
language, PithosysQL, searches the catalogue. This project models the parts of it where a mistake would be silent,
and proves what they promise. `dafny verify dfyconfig.toml` checks everything.

**The crash-resumable bucket sync** (`Sync*.dfy`, `Evidence.dfy`, `MutationPlan.dfy`, `Batching.dfy`). A worker lists a bucket
page by page, drops keys already in the run's spill set, plans imports and refreshes against the catalogue, and commits
batches of at most 100 as one transaction of spill keys and a child job; then it streams removals. `SyncProtocol` is a step
relation whose every step is one commit, one read or a crash; children apply at any time and any number of times. `SyncSafety`
holds the invariant, `SyncTheorems` the promises over every run. `SyncStore` and `SyncHandler` are the handler itself, as
imperative code over a store that other processes change between its requests, proved to produce runs of that relation.
`EvidenceTheorems` says on the stored attributes what is planned and what applying it writes, `SyncOutcome` on pages and rows
what a finished sync has planned.
Assumed: the upstream serves one fixed listing and one fixed HEAD per key during the run, the bucket's prefix and
configuration do not change, one live executor holds the run, and only the run's own children change its scope.

**The job table and trace completion** (`Job*.dfy`). Every SQL update is one step; the completion ticker's reads and its final
write are separate steps that any other process can come between. The lifecycle is proved for every run without exception, and
`JobTransitions` has, from any state, a table of exactly which event takes a run from which state to which. Tree safety needs
two assumptions. A worker whose run was reclaimed takes no further step on it: `SucceedJobRun`, `FailJobRun` and `RetryJobRun`
do not test the row's state. A run is resumed only while no ticker has started on it: the code does not test this either. The
model proves this guard exact, in terms of what finalizers later write, and that without it a succeeded sync can be left with
a child that never succeeded. Even under both assumptions one terminal state is not final: a late finalizer can turn a
superseded scan from failed to succeeded. `JobTheorems.TerminalChangesIff` says which steps do that, and
`JobSupersede.SupersededIsFinalIff` when superseding a scan is safe. New runs start at attempt 1, as the column default does.

**PithosysQL** (`Grammar`, `Parse*`, `Query*`, `Lexer`, `Json*`, `Bind*`, `Typing`, `Compil*`, `Sql*`, `*Meaning`, `Path*`,
`Search*`, `StoredQueries`). The lexer and the parser are proved to accept exactly a declarative grammar, which is unambiguous
at any depth. The binder's dependencies are exactly what a query mentions. The JSON form round-trips, and a stored query
compiles as the original did. Which queries bind (`Typing`), which compile (`Compilable`), which documents stand for which
query (`JsonShapes`) and what a query's text says (`TextMeaning`) are told a second time, as tables, and proved to agree;
`SearchText.TextSelects` goes from the text of a query to the rows, their order and their number. The compiled WHERE clause is
a list of SQL tokens that `SqlText` reads back under the operator precedence of section 4.1.6 of the PostgreSQL manual and
evaluates in three-valued logic over an arbitrary database. Two things stand in the way of its meaning. The bucket scope is
joined with AND to an OR that is not in parentheses. And the path of an attribute is written into the text without escaping:
`PathLiterals` models that text character by character and reads it back as a string constant (section 4.1.2.1) and as an
array (section 8.15.6). A path is read back exactly when its names are plain, a clause is well formed exactly when its paths
are readable, and with plain paths its meaning is preserved exactly under a stated condition on the OR. Concrete queries show
each failure.

**Attribute trees and the type catalogue** (`Attribute*.dfy`, `TypeCatalog.dfy`): setting, deleting and pruning along paths;
and flattening, merging and storing attribute types while maps are walked in arbitrary orders (`CatalogObservation.dfy`).
`AcceptedPaths` says which paths a mutation accepts, `TypeTheorems` which types are observed. Types are determined by the
attributes alone exactly when no two values recorded under one dotted path differ in type. They are stored after the object
and outside of any transaction, so that a failure can leave a changed object and part of the types behind; the model says
exactly when. **Event processing** (`Grouping.dfy`, `EventProcessing.dfy`, `EventTheorems.dfy`), **consumer and worker
reconciliation** (`ConsumerManager.dfy`), and **the partition scan** (`PartitionScan.dfy`, `ListObjects.dfy`,
`BucketScan.dfy`) complete the picture.

Where the code and its intentions part, the model follows the code and says by how much:
`SyncTheorems.WholeListingPlan` (an input: `ConflictingPagesDiffer`), `SyncTheorems.ReplanIsUnsettled` (`ReplanIsNotAlwaysEmpty`),
`JobTheorems.GuardIsExact` (`RaceIsReachable`), `JobSupersede.SupersededIsFinalIff` (`FailedScanSucceeds`),
`ConditionMeaning.MeaningIsPreservedIff` (`OrLeavesTheScope`), `AttributeTests.AttributeTestIsPreservedIff` (`CommaTestsAnother`,
`QuoteIsNotRead`), `AttributeTree.DeleteUndoesSetIff`, `AttributeTree.SetsCommuteIff`, `AttributeObservation.WalksAgreeIff`
(`DottedNamesCollide`), `CatalogObservation.CatalogueIsDeterminedIff` (`OrderShowsInCatalogue`), `AttributeMutation.ErrorAfterWriteIff`
(`ErrorLeavesObjectChanged`), `EventProcessing.JobsFollowTheLatest` (`RemovalAfterCreation`).

## Model

| member | source | states |
|---|---|---|
| SyncTheorems.FinishedRunIsOneShot | apps/worker/internal/jobs/sync_bucket/listing_page.go:62-113 | for every paging, crash, retry, resume and interleaving of children, a finished run's children are exactly the one-shot plan of the filtered listing against the starting scope, each mutation once, and the reported listing and plan counts are exact |
| SyncOutcome.FinishedRunPlansTheDue | apps/worker/internal/jobs/sync_bucket/handler.go:49-139 | told on pages and rows, for every run: the children of a finished sync carry exactly an import for each key that some page lists in the partition and that has no row below the prefix, a refresh under its id for each that has one out of date, and a removal under its id for each such row that no page lists; what is compared is what the first page to name the key says last |
| SyncTheorems.CheckpointedKeysAreSpilled | apps/worker/internal/jobs/sync_bucket/listing_page.go:62-113 | in every reachable state, while listing and after, the keys of all checkpointed pages are in the spill |
| SyncTheorems.RemovalsAreSafe | apps/worker/internal/jobs/sync_bucket/remove_stream.go:11-49 | in every reachable state a key in a remove child was in scope and partition at the start, carries the id it had then, and is never listed by any page |
| SyncTheorems.PlannedAtMostOnce | apps/worker/internal/jobs/sync_bucket/handler.go:141-193 | in every reachable state no key is planned twice, within a child or across children |
| SyncTheorems.PlannedIsSpilled | apps/worker/internal/jobs/sync_bucket/handler.go:153-190 | in every reachable state every planned key is spilled and no child exceeds the batch size |
| SyncTheorems.Converges | packages/storage/object_repository.go:101-201 | once all children have taken effect the scope holds exactly the listed keys and rows outside it are as they were |
| SyncOutcome.ConvergedRows | packages/storage/object_repository.go:101-201 | the same on pages and keys: below the prefix and in the partition a key has a row if and only if some page lists it |
| SyncOutcome.RowsElsewhereStay | packages/storage/object_repository.go:101-201 | a row that is not below the prefix or not in the partition is as it was |
| SyncTheorems.ReplanIsUnsettled | apps/worker/internal/jobs/listing_evidence.go:94-104 | replanning the same listing afterwards asks for exactly those mutated objects whose empty listing fields disagree with the HEAD |
| SyncTheorems.RefreshKeepsTheRest | packages/storage/object_repository.go:139-157 | in every reachable state a listed object that was catalogued keeps its id, its non-upstream attributes and its first-seen time |
| SyncTheorems.WholeListingPlan | apps/worker/internal/jobs/listing_evidence.go:85-92 | the paged sync equals the one-shot planner on the whole listing if and only if the last occurrence of each key agrees with the last one of the first page that lists it |
| SyncTheorems.ConflictingPagesDiffer | apps/worker/internal/jobs/listing_evidence.go:85-92 | for every listing of two pages with one object each that disagree about a key, and any catalogue and run, the finished children follow the first page and differ from the one-shot plan of the whole listing |
| SyncTheorems.OneObjectReplan | apps/worker/internal/jobs/listing_evidence.go:50-83 | a bucket of any one object can be synced to the end from an empty catalogue, and replanning then asks for it again if and only if an empty listing field disagrees with the HEAD |
| SyncTheorems.ReplanIsNotAlwaysEmpty | apps/worker/internal/jobs/payloads.go:56-72 | an object listed without an ETag that the HEAD has is planned again after a complete sync |
| SyncSafety.StepKeeps | apps/worker/internal/jobs/sync_bucket/handler.go:49-139 | every step, crash included, keeps the sync invariant: children fulfil the one-shot plan on the spilled keys, the waiting queue the rest, the checkpoint never runs ahead of the spill |
| SyncSafety.RunKeeps | apps/worker/internal/jobs/sync_bucket/handler.go:49-139 | the invariant holds after every run from a new sync |
| SyncSafety.PagePlanAgrees | apps/worker/internal/jobs/sync_bucket/listing_page.go:73-110 | what is planned for a page's unspilled keys against the catalogue as it is now is what the one-shot plan says against the catalogue the run started from |
| SyncSafety.RemoveIsExact | apps/worker/internal/jobs/remove_objects/handler.go:31-57 | deleting by object id removes exactly the keys a remove child carries, even after repeated application |
| SyncStore.Store.CommitChild | apps/worker/internal/jobs/sync_bucket/handler.go:153-190 | spill keys and child job appear together or not at all, and the stored run extends by that one step |
| SyncStore.Store.FilterKeysNotInSpill | packages/storage/job_spill.go:45-81 | the pending keys are the sequence of those without a spill row, repetitions kept |
| SyncHandler.LoadCounts | apps/worker/internal/jobs/sync_bucket/sync_execution_state.go:25-59 | counts recomputed from the child jobs, page by page, agree with what was committed before the crash |
| SyncHandler.PlanAndEnqueue | apps/worker/internal/jobs/sync_bucket/listing_page.go:62-113 | one page's imports and refreshes are committed in batches, its settled keys spilled, and the counts follow |
| SyncHandler.ListAndPlan | apps/worker/internal/jobs/list_objects.go:54-118 | the listing loop resumes at the checkpoint and ends at the last page, or fails only on a lost request or a stuck listing |
| SyncHandler.StreamRemovalJobs | apps/worker/internal/jobs/sync_bucket/remove_stream.go:11-49 | the batch grown by the streaming callback and flushed at 100 commits every removal once |
| SyncHandler.Handle | apps/worker/internal/jobs/sync_bucket/handler.go:49-139 | one execution from any reachable checkpoint either fails because a request failed or the listing is stuck, leaving a resumable run, or reports the exact count and has planned exactly the one-shot plan |
| MutationPlan.PlanObjectMutations | apps/worker/internal/jobs/listing_evidence.go:50-83 | the two mutation lists enumerate exactly the plan's imports and refreshes, each once, for any order of the maps |
| EvidenceTheorems.ListedRow | apps/worker/internal/jobs/listing_evidence.go:94-133 | of any plan's three lists, a listed and catalogued object is in none if and only if its stored ETag, size, last modification time and storage class are the listed ones, a size counting without its fraction and anything but a number as zero; otherwise it is refreshed under its own id with all the listing gives |
| EvidenceTheorems.SizeDecides | apps/worker/internal/jobs/listing_evidence.go:106-117 | a row that agrees in the three texts and stores its size as an integer, or as the float JSON decoding makes of one, is planned if and only if the size is another |
| EvidenceTheorems.OtherRow | apps/worker/internal/jobs/listing_evidence.go:50-83 | an object only listed is imported without an id, one only catalogued is removed under its id, and no other key is planned |
| EvidenceTheorems.EvidenceIsWritten | apps/worker/internal/jobs/payloads.go:56-92 | over a HEAD, exactly the fields the listing gave are written, the storage class beside whatever s3 held; all else stays |
| EvidenceTheorems.ChildWrites | packages/storage/object_repository.go:101-201 | an import or refresh writes exactly its own objects: seen now, first seen then or now, under the id they had or a new one, other attributes kept |
| EvidenceTheorems.ChildDeletes | apps/worker/internal/jobs/remove_objects/handler.go:31-57 | a removal deletes exactly the rows its items name by a non-empty id |
| MutationPlan.LastWinsWithout | apps/worker/internal/jobs/sync_bucket/listing_page.go:49-60 | filtering spilled keys out before or after repeated keys are resolved gives the same map |
| Evidence.PlanDeterminesListing | apps/worker/internal/jobs/listing_evidence.go:50-83 | two listings of the same keys have the same plan only if they are equal |
| Evidence.AppliedLooksChanged | apps/worker/internal/jobs/payloads.go:56-72 | an applied import or refresh looks changed again if and only if an empty listing field disagrees with the HEAD |
| Batching.ChunkIsExact | apps/worker/internal/jobs/sync_bucket/handler.go:217-235 | batches concatenate to the input, none is empty or too long, only the last may be short |
| Batching.Batches | apps/worker/internal/upstreamprocessor/processor.go:218-236 | the batching loop computes those batches, and one batch when the size is not positive |
| JobSafety.LifecycleHolds | packages/storage/job_run_repository.go:451-553 | in every reachable state, races and crashes included: locked implies running, running implies started, terminal implies finished, attempts stay within the maximum, a pending or locked run awaits no children, parents exist in the same trace |
| JobTransitions.RunsStay | packages/storage/job_run_repository.go:451-553 | no event deletes a run or changes its trace, type, parent or maximum of attempts |
| JobTransitions.StateChangesIff | packages/storage/job_run_repository.go:451-553 | from any state of the table, a run goes from one state to another by exactly the events of a table of edges: claim, failure with or without attempts left, return, reclaim, superseding, resume, a ticker's verdict |
| JobTransitions.AttemptChangesIff | packages/storage/job_run_repository.go:525-553 | a run's attempt changes, and it goes from running to pending, if and only if its own handler fails with attempts left; the attempt then grows by one |
| JobTransitions.HeldRunFails | packages/storage/job_run_reclaim.go:26-60 | a held run that is reclaimed, has no handler, or fails its last attempt is failed, finished and unlocked, at the attempt it was at |
| JobTransitions.OnlyHeldRunsAreWorkedOn | packages/storage/job_run_reclaim.go:26-60 | a worker's events do nothing to a run that is not running under a lock |
| JobTransitions.OthersStay | packages/storage/job_run_repository.go:451-553 | an event leaves every run it does not concern as it was; only a resume concerns several |
| JobTransitions.LocksAreClaimed | packages/storage/job_run_repository.go:451-479 | a lock is given only by a claim of a pending run, to the claiming worker, and is gone when a run leaves running |
| JobTransitions.RunAppearsIff | apps/worker/internal/jobs/sync_bucket/handler.go:153-190 | a run appears if and only if it is enqueued, or a held sync starts an import, refresh or removal, or a held scan a sync; it is then pending at attempt 1, of its parent's trace, with at least one attempt |
| JobTransitions.ReturningEndsOrWaits | apps/worker/internal/runner/runner.go:96-151 | a returning run waits unlocked or has succeeded; a sync must wait exactly when it has children, a scan may wait only then, others never wait |
| JobTransitions.TickerReads | packages/storage/job_trace_completion.go:123-167 | a ticker takes up a running, awaiting run, twice goes on only if every child has ended, and then reads whether one failed |
| JobTransitions.VerdictIsWritten | packages/storage/job_trace_completion.go:222-265 | the verdict is written as read: failed or succeeded, finished, unlocked, at the same attempt |
| JobTransitions.ResumeBringsBack | packages/storage/job_run_resume.go:115-145 | resuming a failed or cancelled root sync makes exactly the failed and cancelled runs of its trace pending, unlocked and unfinished at the attempt they had; any other resume changes nothing |
| JobSafety.StepKeeps | packages/storage/job_trace_completion.go:222-265 | every guarded step keeps tree safety and what each ticker's reads still mean |
| JobSafety.TickWriteKeeps | packages/storage/job_trace_completion.go:222-265 | the finalizer's late write is still backed by its earlier reads |
| JobTheorems.SucceededTreesAreClean | packages/storage/job_trace_completion.go:123-167 | in every reachable state of a guarded run a succeeded sync, or a run the finalizer succeeded, has only succeeded descendants at any depth |
| JobTheorems.FinalizerIsSafe | apps/worker/internal/tracecompletion/ticker.go:78-123 | in every reachable state of a guarded run, the run a ticker is about to write is neither pending nor executing, and its children agree with the verdict at that moment |
| JobTheorems.TerminalChangesIff | packages/storage/job_trace_completion.go:222-265 | for every job type, a terminal state changes if and only if a resume of its trace takes a failed run back, or the write of a late finalizer disagrees with it |
| JobTheorems.OverruledIsFailedScan | packages/storage/job_run_repository.go:497-553 | the second case befalls only scans recorded as failed whose children have all succeeded, and makes them succeeded |
| JobTheorems.FailedScanSucceeds | packages/storage/job_trace_completion.go:222-265 | it happens: from the empty table, without a resume, a superseded scan goes from failed to succeeded |
| JobTheorems.TerminalIsFinal | packages/storage/job_run_repository.go:497-553 | of everything but scans, a terminal state changes if and only if a resume of its trace takes it back |
| JobSupersede.SupersededIsFinalIff | packages/storage/job_trace_completion.go:222-265 | the failure written over an active scan stays in every continuation, guarded resumes included, if and only if no ticker has started on the scan, or one of its syncs has failed or has a failed child |
| JobSupersede.FailureIsFinal | packages/storage/job_run_repository.go:497-553 | in those cases no run of any length changes it |
| JobSupersede.ChildrenCanSucceed | packages/storage/job_trace_completion.go:123-167 | otherwise workers and tickers can bring all children of the scan to success without touching the tickers already under way |
| JobTheorems.GuardedRunsAreNotBroken | packages/storage/job_trace_completion.go:222-265 | no reachable state of a guarded run has a succeeded sync with a direct child that has not succeeded |
| JobTheorems.GuardIsExact | packages/storage/job_run_resume.go:115-145 | no ticker has started on a run if and only if, after resuming it, no continuation, further guarded resumes included, ever lets a finalizer be about to write a run that is pending, executing or at odds with its children |
| JobTheorems.UnguardedResumeBreaks | packages/storage/job_run_resume.go:115-145 | resuming while a ticker still has reads to do can always be continued, with no further resume, to a succeeded sync with an unsucceeded child |
| JobTheorems.RaceIsReachable | apps/worker/internal/tracecompletion/ticker.go:36-76 | that race is reachable from an empty table |
| JobRunStore.Store.ClaimJobRun | packages/storage/job_run_repository.go:451-479 | a claim takes one pending run of a given type, or of any type when none is given, locks it and marks it started |
| JobRunStore.HandleFailure | apps/worker/internal/runner/runner.go:153-178 | a failed handler's run is retried with one attempt more while attempts are left, and failed otherwise |
| JobRunStore.Execute | apps/worker/internal/runner/runner.go:96-151 | whatever result a handler of the run's type can return, or its failure, is the last thing written to its run, unless the lock was lost meanwhile |
| JobRunStore.FinalizeAwaitingJob | packages/storage/job_trace_completion.go:222-265 | with other processes acting between its statements, finalizing writes failed if a direct child failed and succeeded only if all succeeded |
| JobRunStore.ProcessAwaitingJob | apps/worker/internal/tracecompletion/ticker.go:78-123 | either the ticker's only write finalizes the run in agreement with its children, or it writes nothing because its last read found the run no longer awaiting or a child active |
| Lexer.LexAll | packages/search/parser.go:796-868 | the lexer's loop, with its scanners, computes the specified token list or the specified refusal |
| Lexer.ScanString | packages/search/parser.go:870-888 | the string scanner reads the text up to the closing quote, a doubled quote standing for one |
| Lexer.LexShow | packages/search/parser.go:796-888 | in particular, any tokens written with blanks between them are read back, strings with quotes in them included |
| Characters.SpaceIff | packages/search/parser.go:796-812 | white space is exactly the 25 code points with that Unicode property |
| Lexer.NameCharacters | packages/search/parser.go:929-935 | a name begins with a letter or an underscore and goes on with these and digits, the letters of one byte told range by range |
| Lexer.LexSpread | packages/search/parser.go:796-935 | any tokens laid out with any white space are read back, with none where two of them do not run together: nothing need stand between a name and an operator, a string or a parenthesis |
| Lexer.LexIsLexical | packages/search/parser.go:796-927 | every token before the end marker has the form its kind requires, and the end marker comes last and only there |
| QueryGrammar.ParserIsGrammar | packages/search/parser.go:41-185 | tokens parse to a query if and only if some tree of the grammar, nested at most 64 deep, has them as its text and that query as its meaning |
| QueryGrammar.GrammarIsUnambiguous | packages/search/parser.go:109-185 | two legal trees with the same text, nested however deep, mean the same query |
| ParseSound.SoundDisj | packages/search/parser.go:109-185 | a parsed condition is the meaning of a tree whose text is exactly the consumed tokens, OR below AND below NOT |
| ParseSound.SoundBetween | packages/search/parser.go:338-352 | the AND between two bounds belongs to BETWEEN |
| ParseSound.SoundOperand | packages/search/parser.go:367-393 | + and - associate to the left over casts |
| ParseComplete.CompleteDisj | packages/search/parser.go:109-185 | every condition of the grammar within the nesting limit is parsed from its text, whatever follows that does not extend it |
| ParseComplete.CompletePrimary | packages/search/parser.go:404-470 | every operand form is parsed from its text; a keyword may be a field name unless a parenthesis makes it a call |
| QueryShape.ParsedConditionsAreShaped | packages/search/parser.go:109-149 | every AND and OR of a parsed condition has at least two terms, operands hold no conditions, and at most 128 ANDs and ORs lie on a path |
| QueryParser.Parser.ParseBoolExpr | packages/search/parser.go:109-128 | the loop over OR parses what the grammar's parser does, and restores the depth on every return |
| QueryParser.Parser.ParseUnaryExpr | packages/search/parser.go:151-185 | the depth guard, NOT, calls, parentheses and comparisons agree with the grammar's parser, and the depth is restored on every return |
| QueryParser.Parser.ParsePrimaryExpr | packages/search/parser.go:404-470 | primaries agree with the grammar's parser, and the depth is restored on every return |
| QueryParser.Parser.ParseWhole | packages/search/parser.go:41-92 | the parser object accepts exactly what the grammar's parser accepts, with the same query |
| TextMeaning.DisjMeans | packages/search/parser.go:109-362 | a legal condition means what its text says word by word: OR the truer, AND the less true, each symbol and word its SQL operator, minus subtraction, each literal its value, NOT, IN, BETWEEN, IS NULL and the calls likewise |
| TextMeaning.OperandMeans | packages/search/parser.go:363-603 | the same for operands: fields, attributes at their types, casts, literals, and sums from the left |
| TextMeaning.OperatorIff | packages/search/parser.go:275-305 | a token is a comparison operator if and only if it is one of nine, and it means the SQL operator it spells, != meaning <> |
| TextMeaning.KeywordIff | packages/search/parser.go:683-694 | a keyword is a name that differs from it at most in the case of letters |
| TextMeaning.ReservedIff | packages/search/parser.go:404-470 | exactly seven words, in any case, are no field names |
| TextMeaning.ThreeTruths | packages/storage/pithosysql_compile.go:171-209 | the connectives of the meaning are those of three-valued logic |
| SearchPipeline.Parse | packages/search/parser.go:14-39 | size limit, lexer and parser together compute the specified result |
| SearchPipeline.TextIsAcceptedIff | packages/search/parser.go:14-39 | text within the size limit is accepted as a query if and only if it lexes to the text of a tree that means that query |
| SearchPipeline.TreesHaveText | packages/search/parser.go:14-39 | every tree of lexical tokens has a text that parses to its meaning |
| SearchPipeline.BoundQueriesKeepTheirMeaning | packages/storage/pithosysql_compile.go:31-55 | a query that binds and compiles runs one well-formed condition if and only if its attribute paths have readable literals; if the paths are plain, it means (scope AND condition) on a row exactly when there is no scope, no top-level OR, or the OR's other terms are no truer than the scope |
| SearchText.PageIff | packages/search/parser.go:636-649 | LIMIT and OFFSET take exactly the numbers that are not negative |
| SearchText.TargetIff | packages/search/parser.go:94-107 | a query is about objects or relations, in any case of letters, and nothing else |
| SearchText.LiteralsIff | packages/search/parser.go:404-603 | a date, instant or interval is accepted if and only if its own reader knows the text, a number with a dot if and only if it reads as a float, another one as an integer |
| SearchText.SumsIff | packages/search/parser.go:367-393 | operands are joined by + and - and nothing else |
| SearchText.TextSelects | packages/storage/pithosysql_compile.go:31-89 | from query text to rows: the statement of a bound query with plain paths reads back as one SELECT; its condition has, on a row, the truth of the scope and of what the text says if and only if the query stays in scope; its sort keys are the text's terms in their order, descending exactly for DESC; LIMIT and OFFSET are the text's numbers |
| SearchText.LaidOutText | packages/search/parser.go:14-39 | every legal tree nested at most 64 deep, laid out with any white space that keeps its words apart, parses to its meaning if it is at most 16384 characters long, and is refused otherwise |
| StatementMeaning.StatementReads | packages/storage/pithosysql_compile.go:31-128 | the same for any compiled query with readable paths: WHERE, the sort keys in order with DESC exactly for desc, LIMIT and OFFSET read back as what the query holds |
| Compilable.QueryCompilesIff | packages/storage/pithosysql_compile.go:31-89 | a query compiles if and only if it searches objects and its condition and sort keys consist of forms listed one by one |
| Compilable.CompilesIff | packages/storage/pithosysql_compile.go:134-500 | the same for a condition, wherever it stands |
| BindTheorems.DependenciesAreMentions | packages/search/bind.go:38-74 | the dependencies are exactly what the query mentions, each once, with the registry's type |
| BindTheorems.BoundIsSafe | packages/search/bind.go:152-283 | a condition that binds never adds to or subtracts from an uncast attribute |
| Typing.QueryBindsIff | packages/search/bind.go:38-74 | a query binds if and only if its target is registered and its condition and sort keys bind |
| Typing.BindsIff | packages/search/bind.go:76-214 | a condition binds if and only if its parts have types its operators accept, whatever was collected before |
| Typing.TypedAs | packages/search/bind.go:215-283 | a value binds with the type a table gives its form |
| Typing.CompatibleIff | packages/search/bind.go:285-314 | operator by operator, exactly these pairs of types bind: equal, unknown or both numeric for = and !=, both numeric or both timestamps for orderings, texts for LIKE |
| Binder.BoundConditionsAreSafe | packages/storage/pithosysql_compile.go:91-109 | every bound condition is compiled with each attribute at the type the registry gave the binder |
| Binder.DependenciesAreCanonical | packages/search/bind.go:375-405 | two bound queries have equal dependency lists if and only if they mention the same things |
| Binder.DependenciesInOrder | packages/search/bind.go:375-405 | a bound list holds the target, then fields, attributes, relations and buckets, and those of one kind in the order of their names |
| Binder.QueryBinder.Bind | packages/search/bind.go:76-136 | the binder object accepts exactly what the specification accepts and appends the same dependencies in the same order |
| Binder.QueryBinder.AddDependency | packages/search/bind.go:365-373 | a dependency is appended unless its kind and name are already there |
| Binder.BindWhole | packages/search/bind.go:38-74 | binding a query yields the sorted list, or fails as specified |
| QueryJsonTheorems.QueryRoundTrip | packages/search/json.go:23-101 | reading a stored query gives its normal form: default directions filled in, instants in UTC, nothing else changed |
| QueryJsonTheorems.RoundTrip | packages/search/json.go:103-511 | the same for every expression: no written shape is taken for another by the decoder's order of tests |
| QueryJsonTheorems.StoredAlikeIff | packages/search/json.go:103-273 | two conditions are stored alike if and only if their normal forms are equal |
| JsonShapes.IntegerReadsBackIff | packages/search/json.go:306-312 | a stored integer is read back if and only if 64 bits hold it |
| JsonShapes.QueryStandsIff | packages/search/json.go:61-101 | a document is read as a query if and only if it stands for it, told field by field, defaults and refusals included |
| JsonShapes.StandsIff | packages/search/json.go:275-511 | a document is read as an expression if and only if it stands for it, told shape by shape; of several shape names present the first of a fixed order decides, and missing and null parts count as zero values |
| JsonShapes.WrittenStands | packages/search/json.go:103-273 | what is written for an expression stands for it, up to its normal form |
| JsonShapes.WrittenQueryStands | packages/search/json.go:23-59 | the same for a whole query |
| StoredQueries.StoredQueryIsTheSame | packages/search/json.go:23-101 | a query read back binds to the same dependencies and, if it compiled, compiles to the same statement and arguments |
| ConditionMeaning.MeaningIsPreservedIff | packages/storage/pithosysql_compile.go:38-55 | the WHERE text is well formed if and only if all path literals in it are readable; with plain paths it is, read back under SQL precedence, true, false or unknown as (scope AND condition) exactly under the stated condition, on every row of every database |
| ConditionMeaning.WhereReads | packages/storage/pithosysql_compile.go:134-209 | a WHERE clause is one well-formed condition if and only if its path literals are readable; what it then says, each attribute being the one its literal stands for, is (scope AND condition), or (scope AND first term) OR the other terms |
| PathLiterals.ReadsBackIff | packages/storage/pithosysql_compile.go:490-503 | the unescaped literal of a path is read back as that path if and only if every name in it is plain: not empty, not NULL, no blank at its ends, and none of quote, comma, brace, double quote, backslash or zero |
| SqlText.ConditionIsLegible | packages/storage/pithosysql_compile.go:467-489 | nothing is read over a path literal that is no string constant or no array |
| PathMeaning.ExprIsLegible | packages/storage/pithosysql_compile.go:171-209 | every attribute path of a condition gets into its text |
| PathMeaning.PlainMeaning | packages/storage/pithosysql_compile.go:391-398 | a condition with plain paths asks for the attributes it names |
| AttributeTests.AttributeTestIsPreservedIff | packages/storage/pithosysql_compile.go:467-503 | a test of one attribute, in any scope and of any type, is well formed and means what it says on every row of every database if and only if its path is plain |
| AttributeTests.CommaTestsAnother | packages/storage/pithosysql_compile.go:490-503 | a comma in a name makes the query test another attribute |
| AttributeTests.QuoteIsNotRead | packages/storage/pithosysql_compile.go:490-503 | with a quote in a name the clause is not well formed |
| ConditionMeaning.NestedReads | packages/storage/pithosysql_compile.go:171-209 | a nested AND, OR or NOT with readable paths reads back as one operand of what surrounds it, with its own meaning |
| ConditionMeaning.OrLeavesTheScope | packages/storage/pithosysql_compile.go:38-55 | an OR of two key tests in the scope of one bucket selects a row of another |
| ConditionMeaning.UncastOperandMisreads | packages/storage/pithosysql_compile.go:342-358 | without a cast, + and - take the attribute's path as their operand, whatever the rest of the expression, once its literals are readable |
| CompileMeaning.PredicateReads | packages/storage/pithosysql_compile.go:211-304 | comparisons, IN, BETWEEN, IS NULL, relation and bucket tests with readable paths read back with their own meaning; BETWEEN keeps its AND |
| CompileMeaning.TightReads | packages/storage/pithosysql_compile.go:319-442 | every value with readable paths that is not an uncast attribute reads back whole in front of any operator, with the attribute its literal stands for |
| SearchStatement.PlaceholdersAlign | packages/storage/pithosysql_compile.go:31-89 | the placeholders of the whole statement, left to right over WHERE, ORDER BY, LIMIT and OFFSET, are $1 to the number of arguments |
| SearchStatement.Compiler.CompileExpr | packages/storage/pithosysql_compile.go:134-209 | the compiler object yields the specified text and appends the specified arguments, or refuses as specified |
| SearchStatement.Compiler.CompileTerms | packages/storage/pithosysql_compile.go:171-200 | the loop over terms joins their texts in order and appends their arguments in order |
| SearchStatement.Compiler.CompileScalar | packages/storage/pithosysql_compile.go:319-358 | the same for scalar expressions |
| SearchStatement.Compiler.CompileSearch | packages/storage/pithosysql_compile.go:31-89 | the same for the whole statement |
| AttributePath.SplitAttributePath | packages/storage/object_core.go:112-129 | the index loop yields the non-empty segments between dots |
| AttributePath.SplitJoin | packages/storage/object_core.go:112-129 | joining plain segments and splitting again gives them back |
| AttributeTree.GetAfterSet | packages/storage/attribute_mutation.go:150-180 | a value set at a path is read there |
| AttributeTree.SetFrame | packages/storage/attribute_mutation.go:150-180 | a path neither above nor below the written one reads as before |
| AttributeTree.SetsCommuteIff | packages/storage/attribute_mutation.go:54-58 | for plain values the order of two sets is immaterial if and only if neither path lies on the other, or both say the same |
| AttributeTree.OrderIsImmaterial | packages/storage/attribute_mutation.go:54-58 | any two enumerations of the same sets at paths that do not lie on each other give the same tree |
| AttributeTree.GetAfterDelete | packages/storage/attribute_mutation.go:182-223 | nothing is read at a deleted path |
| AttributeTree.DeleteFrame | packages/storage/attribute_mutation.go:182-223 | deleting and pruning change no path that is neither above nor below |
| AttributeTree.DeleteUndoesSetIff | packages/storage/attribute_mutation.go:150-223 | setting and then deleting restores the tree if and only if the path was missing from the root or from a map holding something else |
| AttributeTree.FreshIff | packages/storage/attribute_mutation.go:182-223 | in a tree without empty maps that means: absent, and crossing no plain value |
| AttributeTree.DeleteKeepsNoEmptyMaps | packages/storage/attribute_mutation.go:210-223 | pruning leaves no empty map behind |
| AttributeTree.ReadBackIff | packages/storage/object_core.go:86-110 | a value set by path text is read back by that text if and only if no segment consists of white space |
| AttributeMutation.SetAtPath | packages/storage/attribute_mutation.go:150-180 | walking down the maps and writing at the end computes the specified tree |
| AttributeMutation.DeleteAtPath | packages/storage/attribute_mutation.go:182-223 | walking down, deleting and pruning backwards computes the specified tree |
| AttributeMutation.ValidPathStaysInside | packages/storage/attribute_mutation.go:104-119 | an accepted path lies below the segments of the allowed prefix, dotted or not, its first segment possibly after blanks |
| AcceptedPaths.CompatibleIff | packages/storage/attribute_mutation.go:121-148 | the check against the catalogue refuses a value if and only if it has a type and the entry at its path, if there is one, cannot be widened to it |
| AcceptedPaths.ValidPathIff | packages/storage/attribute_mutation.go:104-119 | a path is accepted if and only if, apart from blanks around it, it is the prefix, a dot, and something that is not empty and holds no two dots in a row |
| AcceptedPaths.PlainPathIsAccepted | packages/storage/attribute_mutation.go:104-119 | every dotted path of plain names below a prefix is accepted, with or without blanks around it |
| AcceptedPaths.PlainMutationWrites | packages/storage/attribute_mutation.go:18-148 | a mutation of plain paths below a plain prefix, the user prefix when none is named, is written unless a value's type clashes with a stored one |
| AttributeMutation.MutationStaysInside | packages/storage/attribute_mutation.go:18-58 | an accepted mutation leaves every path outside the allowed prefix, at any depth, as it was |
| AttributeMutation.OtherNamespacesAreOutside | packages/storage/attribute_mutation.go:10-10 | every upstream and core path is outside the user prefix |
| AttributeMutation.AcceptedPathsSplit | packages/storage/attribute_mutation.go:104-119 | unless the prefix consists of dots, no accepted path is later refused for being empty |
| AttributeMutation.WalkOrderIsImmaterial | packages/storage/attribute_mutation.go:54-58 | the order in which the map of sets is walked does not show when no two of its paths lie on each other |
| AttributeMutation.StoredObject.Mutate | packages/storage/attribute_mutation.go:18-148 | a mutation that fails a check before the write changes nothing; otherwise the object has its sets and deletes and exactly its origins, an error is reported if and only if a type of its new attributes clashes with a stored one, and the catalogue is what that observation leaves |
| AttributeMutation.ErrorAfterWriteIff | packages/storage/attribute_mutation.go:73-148 | the type behind such an error is none the checks before the write looked at: where a value was set under the clashing path, another type is observed there |
| AttributeMutation.ErrorLeavesObjectChanged | packages/storage/attribute_mutation.go:121-148 | a map set at a path passes the check before the write, and the text inside it then clashes with observed integers |
| TypeCatalog.WidenIsJoin | packages/storage/attribute_catalog_codec.go:49-67 | widening is idempotent, commutative and associative, conflicts included |
| TypeCatalog.BelowIsOrder | packages/storage/attribute_catalog_codec.go:49-67 | it is the least upper bound of a partial order, and a conflict means that there is none |
| TypeTheorems.WidenIff | packages/storage/attribute_catalog_codec.go:49-67 | two types widen to exactly the least type above both, unknown lying below all types and integers below floats, and clash exactly when there is none |
| TypeTheorems.TypeOfIff | packages/storage/attribute_observation.go:111-140 | type by type, which values have it; a whole float is an integer, a text that is an instant a timestamp, lists and maps unknown, null untyped |
| TypeTheorems.UpsertedIff | packages/storage/attribute_catalog.go:100-163 | an upsert inserts, widens or leaves an entry as stated, leaves every other entry, and is refused exactly when its path or type is not storable, or the stored entry clashes |
| TypeTheorems.ObservedExactly | packages/storage/attribute_observation.go:13-71 | in an object with plain names exactly these types are observed: each value's own at its path, and unknown at every shorter path that leads to a value |
| TypeCatalog.MergeOrderIsImmaterial | packages/storage/attribute_observation.go:40-57 | success and result of merging observations do not depend on their order |
| AttributeObservation.WalksAgreeIff | packages/storage/attribute_observation.go:73-98 | flattening gives the same types for all orders of walking the maps if and only if no two values recorded under one non-empty dotted path have different types |
| AttributeObservation.LastVisitWins | packages/storage/attribute_observation.go:79-98 | for every recorded value some walk leaves its type under its path |
| AttributeObservation.ObservedIsDeterminedIff | packages/storage/attribute_observation.go:13-38 | what observing one object yields, prefixes included, is independent of every map order if and only if the same condition holds |
| CatalogObservation.ObservingIsDetermined | packages/storage/attribute_observation.go:13-38 | observing a batch of such objects: success, and the catalogue in case of success, depend on no map order, of the objects, their paths or the observed types |
| CatalogObservation.CatalogueIsDeterminedIff | packages/storage/attribute_observation.go:32-38 | for a batch of such objects, the catalogue left behind, failure included, depends on no map order if and only if the objects conflict among themselves, no upsert is refused, or no accepted one changes an entry |
| CatalogObservation.OrderShowsInCatalogue | packages/storage/attribute_observation.go:32-38 | a new path is stored or not, depending on whether it comes before one that is refused |
| CatalogObservation.ObservingFailsIff | packages/storage/attribute_catalog.go:100-163 | observing one object fails if and only if one of its types clashes with a stored one that was observed |
| AttributeObservation.PlainTreesAreUnambiguous | packages/storage/attribute_observation.go:100-109 | names that are not empty and hold no dots suffice: then no two values are recorded under one path |
| AttributeObservation.DottedNamesCollide | packages/storage/attribute_observation.go:79-98 | with a dot in a name, two walks of one tree find different types under one path |
| TypeCatalog.RunOnlyAdvances | packages/storage/attribute_catalog.go:100-163 | over every run of upserts no entry vanishes, builtin and registered ones never change, observed ones only move up |
| TypeCatalog.Catalog.UpsertObserved | packages/storage/attribute_catalog.go:100-163 | one upsert is refused, ignored, inserted or widened as specified |
| AttributeObservation.FlattenAttributeValue | packages/storage/attribute_observation.go:79-98 | the recursive walk that overwrites the map of paths computes the fold over what it meets |
| AttributeObservation.ObserveBatch | packages/storage/attribute_observation.go:13-31 | flattening and merging object by object computes the types observed in the batch, or finds the conflict |
| CatalogObservation.UpsertEach | packages/storage/attribute_observation.go:32-38 | upserts one by one leave what was stored before the first refusal |
| CatalogObservation.ObserveAttributeCatalog | packages/storage/attribute_observation.go:13-38 | the whole observation succeeds or fails as specified and leaves exactly the specified catalogue in both cases |
| ConsumerManager.AtMostOneIsAlive | apps/worker/internal/jetstreamconsumer/manager.go:153-244 | over every interleaving of reconcile, start, natural exit, removal and stop, at most one consumer of a bucket runs or has returned without having taken itself out of the table |
| ConsumerManager.NoneIsAliveAfterStop | apps/worker/internal/jetstreamconsumer/manager.go:246-259 | no consumer is alive once stopAll has returned, and none is started later |
| ConsumerManager.EntriesAreLive | apps/worker/internal/jetstreamconsumer/manager.go:234-244 | in every reachable state a table entry stands for a live consumer of its own bucket |
| ConsumerManager.StartKeeps | apps/worker/internal/jetstreamconsumer/manager.go:173-188 | starting adds consumers and replaces no entry that was there |
| ConsumerManager.StartMeetsDesired | apps/worker/internal/jetstreamconsumer/manager.go:153-188 | after reconcile every wanted bucket whose consumer could be created has one with the wanted configuration |
| ConsumerManager.StartsExactly | apps/worker/internal/jetstreamconsumer/manager.go:173-232 | starting adds exactly the desired buckets that were tried and could be created and had no entry; each new consumer has the desired configuration and is running and not cancelled |
| ConsumerManager.UnchangedIsKept | apps/worker/internal/jetstreamconsumer/manager.go:153-188 | a consumer whose bucket is desired with the configuration it has keeps its entry and is not cancelled, through the reconcile, the wait and the start |
| ConsumerManager.CancelledIff | apps/worker/internal/jetstreamconsumer/manager.go:153-259 | a consumer is cancelled by a reconcile if and only if its bucket is not desired or is desired with another configuration, by stopAll if and only if it is in the table, and by nothing else |
| ConsumerManager.TableAfterReconcile | apps/worker/internal/jetstreamconsumer/manager.go:153-172 | the table keeps exactly the consumers desired as they are, under their ids, and the manager waits for the others |
| ConsumerManager.StepKeeps | apps/worker/internal/supervisor/supervisor.go:178-288 | every step of the manager, or of the supervisor with one constant configuration, keeps the table accounted for |
| Grouping.GroupingConserves | apps/worker/internal/upstreamprocessor/coalesce.go:27-91 | grouping by key in first-seen order loses and repeats nothing, whatever is counted |
| Grouping.KeysAreDistinct | apps/worker/internal/upstreamprocessor/coalesce.go:27-91 | keys come out once each, every input's key among them, no group empty |
| EventProcessing.CoalesceMutations | apps/worker/internal/upstreamprocessor/coalesce.go:27-60 | the order list and the map filled in one pass give one mutation per object in first-seen order |
| EventProcessing.GroupMutationsByJob | apps/worker/internal/upstreamprocessor/coalesce.go:62-91 | the same for the groups by bucket and job type |
| EventProcessing.LatestInputDecides | apps/worker/internal/upstreamprocessor/coalesce.go:47-49 | the latest event of an object decides its job type and object id |
| EventProcessing.JobsFollowTheLatest | apps/worker/internal/upstreamprocessor/processor.go:104-236 | whichever created job names an object does what the object's latest locked event asks for if and only if that event is of a handled kind and no refresh or removal of an uncatalogued object; then it also names the object id found |
| EventProcessing.RemovalAfterCreation | apps/worker/internal/upstreamprocessor/processor.go:144-158 | an uncatalogued object that is created and then removed is imported |
| EventProcessing.JobsFollowTheLatestInput | apps/worker/internal/upstreamprocessor/coalesce.go:27-91 | a job does what the latest event kept for the object asks for |
| EventProcessing.CoalescedObjectsAreDistinct | apps/worker/internal/upstreamprocessor/coalesce.go:27-60 | after coalescing every object occurs once |
| EventProcessing.CoalescingKeepsEvents | apps/worker/internal/upstreamprocessor/coalesce.go:27-60 | coalescing keeps every event id as often as it occurred |
| EventProcessing.EventsAreMarkedOnce | apps/worker/internal/upstreamprocessor/processor.go:104-184 | in a committed tick every locked event is marked exactly once, skipped or processed |
| EventProcessing.ObjectsAreNamedOnce | apps/worker/internal/upstreamprocessor/processor.go:186-236 | every object of a kept event is named exactly once by the created jobs together, and no other object is, for every batch size |
| EventTheorems.NamedIff | apps/worker/internal/upstreamprocessor/processor.go:104-236 | an object is named by the jobs, once, if and only if some event of it is handled: its bucket exists, its kind is known, and a refresh or removal finds the object catalogued |
| EventTheorems.JobsDoTheLastHandled | apps/worker/internal/upstreamprocessor/processor.go:104-236 | the job that names an object does what its last handled event asks for, to the id found, none for an import |
| EventTheorems.SkipMarksIff | apps/worker/internal/upstreamprocessor/processor.go:113-165 | the skip marks are exactly those of events skipped for one of three reasons, in that order of tests |
| EventTheorems.ProcessedIff | apps/worker/internal/upstreamprocessor/processor.go:166-184 | exactly the handled events are marked processed |
| EventTheorems.JobsAreBounded | apps/worker/internal/upstreamprocessor/processor.go:186-236 | no job is empty or larger than the batch size |
| EventProcessing.ProcessLockedEvents | apps/worker/internal/upstreamprocessor/processor.go:104-184 | the tick's loops produce exactly the specified marks and jobs |
| PartitionScan.IdRoundTrip | packages/verification/partition.go:48-80 | a printed partition identifier parses back to its partition, for every index below any 32-bit modulus |
| PartitionScan.IdRefusesOutsiders | packages/verification/partition.go:53-80 | an index that is not below the modulus is refused |
| PartitionScan.IdText | packages/verification/partition.go:48-51 | an identifier is the index, a slash and the modulus as shortest numerals, the index after zeros that make it as long as the largest index |
| PartitionScan.ParsesIff | packages/verification/partition.go:53-80 | a text names a partition if and only if it is two numerals of 32 bits around one slash, the first below the second |
| PartitionScan.IdsAlign | packages/verification/partition.go:36-51 | the identifiers of one modulus are equally long |
| PartitionScan.PartitionsSumToTotal | packages/verification/fingerprint.go:50-73 | the fingerprints of all partitions add up to the count and bytes of the whole listing, for any hash |
| PartitionScan.HealthyMeansEqual | apps/worker/internal/jobs/scan_bucket/handler.go:139-193 | when every partition is sampled and none differs, catalogue and bucket have equal counts and bytes |
| BucketScan.Scan | apps/worker/internal/jobs/scan_bucket/handler.go:99-199 | from listing to verdict: a healthy report means that the whole bucket was listed and, with all partitions sampled, that counts and bytes of catalogue and bucket are equal; within the budget a bucket is healthy if and only if nothing sampled differs; an incomplete listing escalates nothing |
| PartitionScan.EscalatedIff | apps/worker/internal/jobs/scan_bucket/handler.go:139-178 | a partition gets a sync if and only if it was sampled and its fingerprints differ |
| PartitionScan.ChildrenAreApart | apps/worker/internal/jobs/scan_bucket/handler.go:168-178 | no two escalated syncs share a partition, so no key belongs to two |
| PartitionScan.Accumulators.AddKey | packages/verification/fingerprint.go:55-65 | one more object keeps every accumulator equal to the fingerprint of its partition |
| PartitionScan.Evaluate | apps/worker/internal/jobs/scan_bucket/handler.go:135-199 | comparing and escalating yields exactly the sampled partitions that differ, through their printed identifiers, and nothing when the listing is incomplete |
| ListObjects.ListAllObjects | apps/worker/internal/jobs/list_objects.go:41-119 | what is delivered, followed by what is left, is the filtered listing; nothing is left when the listing is complete; the budget is never exceeded and counts exactly what was delivered |

## Left out

- HTTP routes, user interface, configuration, S3, NATS, PostgreSQL drivers and cryptography: foreign or presentational; a HEAD is an arbitrary map and a listing a fixed list of pages.
- Workers that go on after their lock was reclaimed, and resumes that overtake a ticker: the code does not guard them, so they are assumptions, stated above and shown necessary for resumes.
- Trace progress rollups, phase labels, error texts and token positions in errors: no other behaviour depends on them.
- Which available run is claimed first, and the availability time of retried runs: left open, so every order is covered.
- Child handlers beyond their database statements: an import or refresh is one upsert of its HEAD results, a removal one delete by id.
- Listing evidence sizes above 2^53 that pass through JSON numbers, and times finer than their text: values are exact in the model.
- SqlText.Read: a path literal that ends early is not read on as other SQL; such a clause counts as not well formed, whatever its remaining characters spell.
- QueryJson.UnmarshalExpr is modelled without nil operands: a document with a missing operand decodes to a nil one in the code and is refused in the model, and struct member names match exactly.
- Byte-level JSON, number and time formats, regular expressions and the readers of literals and names are functions left open; written instants are assumed to be read back.
- Attribute maps are values in the model: in-place update of nested maps and sharing between them are not modelled.
- Which texts are RFC 3339 times is a function left open; numbers count as floats when they are not whole, as the code's inference does.
- Wrap-around of 64-bit byte totals, the hash's bits and the choice of sampled partitions: sizes are integers, the hash and the sample arbitrary.
- Page progress callbacks of the listing loop: modelled in the sync handler, which is their only user.
- Which event names ask for which job type: an arbitrary function, so every such table is covered.
- Errors other than a missing bucket or object while events are processed: they roll the transaction back.
