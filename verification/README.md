# Verification of the correlation backend

A Dafny model of the backend's five hardest parts, with proofs of what they guarantee: the
execution-job protocol over two stores, the JSON path kernel and the rewriting of requests, the
discovery of correlations between exchanges, the element tree of a generated JMeter plan, and the
plans and limits of an account.

`dafny verify dfyconfig.toml` checks everything (Dafny 4.11).

## The parts

**Execution jobs.** `ExecutionJobs` is the job record with the updates the application applies to it.
`AtomicJobStore` is the store as a plain map with atomic changes; `MemoryJobStore` is the locked dictionary
as a class. `DynamoTable` is the shared table (job items with versions, idempotency markers, slot counters)
and its conditional transactions. `DynamoProtocol` lets any number of clients run `create_if_allowed`,
`mutate`, `get` and `delete` on it, one access to the table or the clock at a time, in any order, and proves
the invariant; `DynamoTheorems` says what follows for every run, first of all that the slot counters are
exact and bounded and that the stored jobs are always a replay of atomic changes. `DynamoFlags` says what
the callers of `mutate` may conclude from flags their closures set, `DynamoKeyRepeats` when a submission is
answered as the in-memory store answers it, `DynamoDrivers` what two drivers can do to one job, all with
runs built step by step in `DynamoSolo`. `DynamoSchedules` shows that a run, seen from one client, is that
client's steps with atomic changes of others in between, and `DynamoJobStore` proves the store's own
methods, retry loop included, against exactly such schedules. `DynamoKeys` shows that partition keys cannot
collide. `JobLifecycle` is one job, over a store whose `mutate` applies its update once, with any number of
`run_job` calls, redeliveries, finalizers, cancel and delete requests; what the runner, the resolver and the
analysis answer is arbitrary. `RunInputs` is the copying of run material on mutable trees.

**JSON paths and requests.** `Json` has trees, positions and the lens laws. `JsonPath` is the evaluator
(name and index selectors, wildcards and equality filters: sections 2.3.1, 2.3.2, 2.3.3 and 2.3.5 of RFC
9535), `JsonLeaves` the printer of leaf paths, `JsonSetter` the parser and the assignment; between them
printing, parsing, reading and writing are shown to fit together. `ArraySelectors` rewrites a fixed array
index into a filter on a sibling field and `ArraySelectorTheorems` says exactly when that keeps the meaning;
`ArrayComparisons` says it for the second run. `JsonText` is `json.dumps` and `str.replace`;
`JsonSubstitution` and `JsonSentinels` show that the sentinel technique prints `${var}` at exactly the
chosen leaves; `ReferenceFilling` fills the references again. `RequestMutation` is the whole change of a
request with its final check and its report, and `Materialisation` says what passes that check. `JsonSafety`
is the bounded traversal of uploads.

**Correlation.** `RunAligner` pairs the executions of two runs. `Occurrences` holds the matching and
exclusion rules, `TwoRunCorrelation` the two-run analysis, `EchoElimination` the dropping of echoes and the
conflict flags, `TwoRunResults` what the analysis reports in the end. `AutoCorrelation` specifies the
one-pass correlator, `AutoCorrelator` is the pass itself, and `CausalCorrelation` proves causality,
precedence and exactness; `TakenValues` says which request values take what, and `SharedPlaces` when
consumers carry what their rule extracts. `Naming` has variable names.

**Plans.** `JmxTree` is the assembly of the element tree and the nesting check of the validator. `Calendar`
is calendar-month arithmetic, `Subscriptions` the rules of bought plans and mails about them,
`StalePurchases` is two purchases at once, `AccountStore` the store, the free-use counters and the
maintenance pass as classes and methods, and `RateLimiting` the sliding-window limiter.

## Conventions

- Clock readings, the answers of runners and resolvers, and the interleaving are arbitrary inputs; time is
  a non-negative `real`. Identifiers drawn at random in the source are parameters that do not repeat.
- A loop of the source is a method with a loop, proved equal to a function; what the source promises is
  proved about that function.
- Keys of JSON objects are printable ASCII without quote and backslash (`SafeKey`), because
  `flatten_json` does not escape them; a JSON body that is `null` is no body.
- Floats carry their Python text: a JSON number within the range of the double format, or `inf`, `-inf` or
  `nan` (`PythonFloats`). They are compared by the decimal value of that text.
- Texts are sequences of Unicode scalar values. `json.loads` also makes lone surrogates out of escapes;
  what is said about texts is said about those without.
- Character classes of regular expressions are read on ASCII.

## Where the code is not what it seems

- `_robustify_jsonpath` keeps the meaning of an expression except when the chosen anchor is a string holding
  NUL, which the literal reader rejects, or an infinite number, which is printed as `inf` or `-inf` and is
  then no filter; both select nothing (`RewritingKeepsMeaning`, `NulAnchorLosesTheValue`,
  `InfiniteAnchorLosesTheValue`). `json.loads` reads 1e309 and more as infinite (`LargeNumbersAreInfinite`). A
  lone surrogate in the anchor has the same effect as NUL (`ast.literal_eval` cannot encode it and raises a
  `ValueError`); such texts are outside the model.
- In a required comparison the rewritten expression can select nothing although the anchor was accepted.
  The causes are: the prefix leads `_navigate` through an object with a digit key, where the evaluator does
  not go; the anchor holds NUL or is infinite; the anchor matches a Boolean, because `_choose_anchor` compares
  with Python's `==`, for which `True` is 1; or the matching row lacks the target. In the model there are no
  others (`ArrayComparisons.RewritingInTheComparison`, with one input for each).
- `add_months` is not monotone: it clamps the day and keeps the time of day
  (`OrderIsKeptUnlessClamped`, `AddMonthsReversesOrder`).
- The table store's `delete` answers True even when its conditional delete lost to a concurrent write
  (`DeleteRemovesExactlyUnchangedRecords`, `DeleteCanLeaveTheJob`).
- When no stored job answers the key of a submission, the table store can report the cap where the
  in-memory store creates the job: because the key's marker lies in the window, as after a delete, or because
  expired jobs that nobody has read still hold slots of the owner. With a cap that is not positive it can
  also create a job that the other store refuses. In all other cases the replies agree
  (`StoresAgreeExactly`, `MarkerOutlivesJob`, `ExpiredJobHoldsTheSlot`, `FirstJobBeatsTheCap`).
- With a cap that is not positive the table store still admits an owner's first job, so the bound proved
  is the larger of the cap and one (`SlotCounterIsExact`, `FirstJobBeatsTheCap`). Called through the
  application, the early check at backend/app/services/execution_job_service.py:70 refuses first.
- The `claimed` flags of `run_job` and `finalize_job` are not reset when the table store's `mutate` applies
  them again, unlike the flags of `_write_state`. A flag is then up without a claim exactly when a lost
  attempt had read a record that was still claimable (`CallersFlag`), and two workers can both start one job
  (`TwoRunJobsCanStart`); the second can put a job back that the first has handed over
  (`HandedOverJobGoesBack`). On the stored record claims stay exclusive (`ClaimsAreReopened`,
  `RecordedClaimsAreSpaced`); the callers' claims are exclusive, and the history is a
  stage path, over a store that applies an update once (`ClaimedAtMostOnce`, `FinalizingClaimsAreSpaced`,
  `HistoryIsAStagePath`).
- A redelivered message fails a running job and lowers its worker flag while the claimed call may still
  drive; only such a finished job can then be removed from under the call
  (`DrivenJobIsRemovedFinished`, `DrivenJobCanBeRemoved`).
- A wrapper around a value is kept for path segments, headers and JSON leaves but dropped for query
  parameters, cookies and form fields (`WrapperIsLost`); under a name that the request repeats it
  passes only when the recorded request already held the very text (`WrapperIsLostAnywhere`). Where the name
  stands for one pair, such a use is reported unless another use of the same variable at the same spot asks
  for the bare reference (`PairUseReported`): a use counts as materialised when any use of its variable at
  its spot does.
- Two values at one response place, such as a header that is sent twice, share one automatic rule, which
  extracts the one taken first. All concrete consumers carry what their rules extract exactly when those of
  one place all carry the value taken first from it; to carry it they need not have taken it, as a header
  can hold more than the value (`ConsumersCarryExactly`, `SharedPlaceSharesTheRule`).
- `purchase` reads the latest expiry and inserts in two calls of the store. When the plans bought in between
  were bought less than 28 days before or after, the new plan overlaps another one of its user exactly when
  one of them is that user's (`StaleReadOverlaps`, `TwoPurchasesOverlap`).

## Model

| member | source | states |
|---|---|---|
| `DynamoTheorems.SlotCounterIsExact` | backend/app/repositories/dynamodb_job_store.py:98-165 | On every interleaving of any number of clients an owner's slot counter equals the number of that owner's stored jobs that are active or have a live worker, and that number never exceeds the cap (or one, if the cap is not positive). |
| `DynamoTheorems.RunRefinesAtomicStore` | backend/app/repositories/dynamodb_job_store.py:261-279 | At every moment of every run the stored jobs are what the atomic map would hold after the logged changes, each of which was possible when it was logged; every single step changes nothing or commits exactly one such change. |
| `DynamoTheorems.CommittedUpdateIsOfCurrentRecord` | backend/app/repositories/dynamodb_job_store.py:117-136 | The write of `mutate` goes through exactly when the version it read is still current, and then stores and returns the update of the record stored at that very moment; otherwise the table is untouched and the client reads again or gives up. |
| `DynamoTheorems.VersionsIncrease` | backend/app/repositories/dynamodb_job_store.py:117-136 | Along a run the version of a stored record never falls, and equal versions at two moments mean equal records. |
| `DynamoTheorems.VersionCountsUpdates` | backend/app/repositories/dynamodb_job_store.py:261-279 | No update is lost: a stored job's version is one more than the number of updates of it that were committed. |
| `DynamoTheorems.DeletedStaysDeleted` | backend/app/repositories/dynamodb_job_store.py:150-165 | A job that was stored once and is gone stays gone on every continuation, whatever clients still hold its old record. |
| `DynamoTheorems.KeyIsInsertedOncePerWindow` | backend/app/repositories/dynamodb_job_store.py:225-259 | When a job is inserted under an owner's idempotency key, every stored job with that key is older than the window: no interleaving of submissions inserts a second one inside it. |
| `DynamoKeyRepeats.StoresAgreeExactly` | backend/app/repositories/dynamodb_job_store.py:225-259 | At every moment of every run and for any new job, the table store's reply is one that the in-memory store gives, except exactly when no stored job answers the key and one of these holds: the owner is below the cap without its expired jobs, but the key's marker lies in the window or the expired jobs still hold slots; or the cap is not positive, the owner has no counter and the key no such marker. |
| `DynamoKeyRepeats.SubmissionsEnd` | backend/app/repositories/dynamodb_job_store.py:225-259 | At every moment of every run and for any new job: if a stored job answers the key it is returned; otherwise the job is created exactly when the counter leaves room and no marker lies in the window, and the cap error is raised in all other cases. |
| `DynamoKeyRepeats.InsertIsRefused` | backend/app/repositories/dynamodb_job_store.py:231-247 | In the middle of any interleaving the insert transaction of a submission is refused exactly when its owner has no room or the key's marker lies in its window. |
| `DynamoKeyRepeats.AnsweringIsMarked` | backend/app/repositories/dynamodb_job_store.py:209-218 | On every run a stored job answers a key exactly when the key's marker lies in the window and names it, and it has not expired; so at most one job does. |
| `DynamoKeyRepeats.MarkerOutlivesJob` | backend/app/repositories/dynamodb_job_store.py:202-259 | A run of one client, for any two new jobs with one key: submit, delete, submit ends with the cap error although nothing answers the key and the owner has no job at all. |
| `DynamoKeyRepeats.ExpiredJobHoldsTheSlot` | backend/app/repositories/execution_job_store.py:112-131 | A run with a cap of one: a job expires unread, and the owner's next submission ends with the cap error, although the in-memory store would clean up first and count none of its jobs. |
| `DynamoKeyRepeats.FirstJobBeatsTheCap` | backend/app/repositories/dynamodb_job_store.py:100-115 | A run in which, with a cap that is not positive, an owner's first job is admitted. |
| `DynamoTheorems.DeleteRemovesExactlyUnchangedRecords` | backend/app/repositories/dynamodb_job_store.py:202-207 | `delete` answers True once it has read the record, and the job is gone afterwards exactly when nobody wrote it in between. |
| `DynamoTheorems.DeleteCanLeaveTheJob` | backend/app/repositories/dynamodb_job_store.py:202-207 | A schedule of two clients, for any queued job, in which `delete` answers True and the job is still stored. |
| `DynamoFlags.FlagTells` | backend/app/services/execution_job_service.py:381-391 | After a closure was applied to several records in turn, a flag that it resets first tells whether the last of them qualified, a flag that it only raises whether any did. |
| `DynamoFlags.CallersFlag` | backend/app/services/execution_job_service.py:381-391 | At the end of any `mutate` of any run: a flag that is only raised is up without this call having made the claim if and only if one of the attempts that lost had read a record that still qualified; every record so read had been stored. |
| `DynamoFlags.FlagWithoutClaim` | backend/app/services/execution_job_service.py:199-227 | For any outcome of `mutate`, a flag that is reset at every application is up after an update exactly when that update's own write made the claim. |
| `DynamoFlags.BothFlagsCanBeUp` | backend/app/services/job_finalizer.py:45-57 | From every reachable moment with a record that qualifies and two free clients, for any lawful update that makes it no longer qualify: a run in which both callers end with their flags up and only the first has made a claim. |
| `DynamoFlags.TwoRunJobsCanStart` | backend/app/services/execution_job_service.py:377-391 | In particular two `run_job` calls on one queued job can both end with `claimed` set. |
| `DynamoDrivers.HandedOverJobGoesBack` | backend/app/services/execution_job_service.py:418-502 | From every reachable moment with a new job and two free clients: a run in which both calls start, the first hands its reports over and returns, and the second then puts the job back to VALIDATING, so that the history is no stage path and an unfinished job is left without a worker flag. |
| `DynamoDrivers.UpdatesGoOn` | backend/app/repositories/dynamodb_job_store.py:261-279 | Every run can go on with any sequence of lawful updates by one free client, which then has applied them all to the stored record, one after the other. |
| `DynamoFlags.ReadsWereStored` | backend/app/repositories/dynamodb_job_store.py:261-279 | Whatever a call reads, in lost attempts too, was the stored record at an earlier moment of the run. |
| `DynamoFlags.ClaimsAreReopened` | backend/app/repositories/dynamodb_job_store.py:117-136 | On the stored record claims are exclusive on every run: between two of them some update has made the record qualify again. |
| `DynamoFlags.ClaimIsReplied` | backend/app/repositories/dynamodb_job_store.py:261-279 | Every claim on the stored record is the committed write of one caller, and that caller's reply tells it. |
| `DynamoFlags.RecordedClaimsAreSpaced` | backend/app/services/job_finalizer.py:45-57 | While only finalizing claims change the claim time, two of them on the stored record are more than the stale time apart, on every run of the table store. |
| `DynamoProtocol.RunInvariant` | backend/app/repositories/dynamodb_job_store.py:81-279 | The inductive invariant of all runs: exact and bounded counters, keyed records, a replayable log, fresh held records, pending ids unused, and markers that belong to the stored jobs of their window. |
| `DynamoProtocol.StepCommitsOneChange` | backend/app/repositories/dynamodb_job_store.py:81-279 | Under the invariant each step of each client commits at most one change, one that the atomic store could have made on the table as it was. |
| `DynamoTable.InsertTransaction` | backend/app/repositories/dynamodb_job_store.py:234-247 | The insert transaction lands as one insertion exactly when the id is unused, the owner is below the cap or has no counter yet, and the key's marker is absent or older than the window; otherwise nothing changes. |
| `DynamoTable.UpdateTransaction` | backend/app/repositories/dynamodb_job_store.py:117-136 | The conditional put and the counter change land together exactly when the version read is current. |
| `DynamoTable.EvictTransaction` | backend/app/repositories/dynamodb_job_store.py:150-165 | The conditional delete and the counter change land together exactly when the version read is current. |
| `DynamoTable.EffectKeepsCounts` | backend/app/repositories/dynamodb_job_store.py:98-136 | Every committed change keeps each counter equal to the number of jobs that hold a slot. |
| `DynamoSchedules.RunIsASchedule` | backend/app/repositories/dynamodb_job_store.py:169-279 | Any stretch of any run, seen from one client, is a schedule of that client's own steps with committable changes of the others in between; this carries the theorems on runs over to the methods below. |
| `DynamoSolo.SoloGoesOn` | backend/app/repositories/dynamodb_job_store.py:225-279 | Every run can be continued by any number of undisturbed steps of one of its clients, and then ends with what those steps compute. |
| `DynamoJobStore.DynamoDbExecutionJobStore.CreateIfAllowed` | backend/app/repositories/dynamodb_job_store.py:225-259 | The method, with any commits of others between its accesses, ends with the reply and the table of the protocol's submitting client, and a created job was admitted on the very table it was inserted into. |
| `DynamoJobStore.DynamoDbExecutionJobStore.FindByIdempotencyKey` | backend/app/repositories/dynamodb_job_store.py:209-218 | The lookup through the marker, with its embedded `get`, takes the protocol from the lookup to either the existing job or the next attempt. |
| `DynamoJobStore.DynamoDbExecutionJobStore.Get` | backend/app/repositories/dynamodb_job_store.py:182-190 | The method ends as the protocol's reading client does, removing an expired record that nobody drives. |
| `DynamoJobStore.DynamoDbExecutionJobStore.Delete` | backend/app/repositories/dynamodb_job_store.py:202-207 | The method ends as the protocol's deleting client does. |
| `DynamoJobStore.DynamoDbExecutionJobStore.Mutate` | backend/app/repositories/dynamodb_job_store.py:261-279 | The retry loop ends in one of three ways: some attempt wrote the update of the record current at its commit, after all earlier ones lost to a write of this job; or some attempt found no live record and inserted nothing; or all twenty lost to such writes. The reply lists the records that the update was applied to, attempt by attempt; counters and cap hold afterwards. |
| `DynamoJobStore.RecordOnlyMovesForward` | backend/app/repositories/dynamodb_job_store.py:117-136 | Whatever others commit, a stored record that survives has no lower version, and an equal version only with equal contents. |
| `DynamoKeys.QuoteRoundTrip` | backend/app/repositories/dynamodb_job_store.py:41-50 | Percent-encoded bytes read back as the same bytes, and never contain the separator. |
| `DynamoKeys.IdemKeysAreDistinct` | backend/app/repositories/dynamodb_job_store.py:45-46 | Equal idempotency partition keys have equal owners and equal keys. |
| `DynamoKeys.SlotKeysAreDistinct` | backend/app/repositories/dynamodb_job_store.py:49-50 | Equal counter partition keys have equal owners. |
| `DynamoKeys.KindsAreDistinct` | backend/app/repositories/dynamodb_job_store.py:41-50 | Job, idempotency and counter items never share a partition key. |
| `MemoryJobStore.InMemoryExecutionJobStore.CreateIfAllowed` | backend/app/repositories/execution_job_store.py:118-130 | A job is inserted only when no stored, unexpired job inside the window answers its key and its owner is below the cap, and afterwards the owner is within the cap; an existing answer is returned, and otherwise nothing is inserted. |
| `MemoryJobStore.InMemoryExecutionJobStore.Mutate` | backend/app/repositories/execution_job_store.py:132-143 | The update is applied to the record stored now, after expired ones are gone; a missing or expired job is not inserted. |
| `MemoryJobStore.InMemoryExecutionJobStore.FindByKeyLocked` | backend/app/repositories/execution_job_store.py:147-162 | Finds a job exactly when some stored job answers the key inside the window, and a most recent one. |
| `MemoryJobStore.InMemoryExecutionJobStore.CountActiveLocked` | backend/app/repositories/execution_job_store.py:164-169 | Counts exactly the owner's jobs that are active or have a live worker. |
| `MemoryJobStore.InMemoryExecutionJobStore.Cleanup` | backend/app/repositories/execution_job_store.py:171-175 | Removes exactly the expired jobs without a live worker. |
| `MemoryJobStore.InMemoryExecutionJobStore.Get` | backend/app/repositories/execution_job_store.py:87-96 | Returns the stored job unless it is expired without a live worker, and removes it then. |
| `MemoryJobStore.InMemoryExecutionJobStore.Delete` | backend/app/repositories/execution_job_store.py:102-104 | Removes the job and tells whether there was one. |
| `ExecutionJobs.ApplicationUpdatesAreLawful` | backend/app/services/execution_job_service.py:202-227 | Every update the application hands to `mutate` (claim, release, cancel, mark reports, claim finalizing, stage write) keeps the identity fields and never makes a job count against the cap again. |
| `JobLifecycle.ClaimedAtMostOnce` | backend/app/services/execution_job_service.py:377-391 | Over a store whose `mutate` applies its update once: on every interleaving of any number of worker, cancel, delete, fail and finalize calls at most one `run_job` call ever claims the job. |
| `JobLifecycle.HistoryIsAStagePath` | backend/app/services/execution_job_service.py:202-227 | Over a store whose `mutate` applies its update once: at every moment the recorded history is a prefix of validating, running_baseline, running_comparison, analyzing, ready, followed by at most one failed or cancelled; it agrees with the state, and a requested cancellation means CANCELLED. |
| `JobLifecycle.ResultsNeedBothRuns` | backend/app/services/execution_job_service.py:465-483 | RUNNING_COMPARISON is only reached after a usable baseline run, ANALYZING and READY only after a usable baseline and then a usable comparison. |
| `JobLifecycle.ReturnedWorkerLeavesNothingBehind` | backend/app/services/execution_job_service.py:393-415 | Over a store whose `mutate` applies its update once: once a claimed call has returned, the worker flag is down and the job is terminal, or in ANALYZING with its reports handed over. |
| `JobLifecycle.EveryDriveEnds` | backend/app/services/execution_job_service.py:418-502 | Each own step of a claimed call brings it closer to its release, whatever the job, the answers and the interference are. |
| `JobLifecycle.TerminalStatesAbsorb` | backend/app/services/execution_job_service.py:202-227 | A finished job keeps its state and its history until it is removed. |
| `JobLifecycle.LiveWorkerIsNeverRemoved` | backend/app/api/v1/execution_jobs.py:274-297 | No step, deletion and expiry included, removes a job whose worker flag is up. |
| `JobLifecycle.DrivenJobIsRemovedFinished` | backend/app/worker.py:72-118 | While a claimed call drives, the flag is up or the job is finished; so it can lose its job only after a redelivery has lowered the flag of a finished job. |
| `JobLifecycle.DrivenJobCanBeRemoved` | backend/app/worker.py:72-118 | A run, for any new job, in which a redelivered message lowers the flag and the job is deleted while the claimed call still drives. |
| `JobLifecycle.FinalizingClaimsAreSpaced` | backend/app/services/job_finalizer.py:45-57 | Over a store whose `mutate` applies its update once, any two successful finalizing claims are more than the stale time apart. |
| `JobLifecycle.RunInvariant` | backend/app/worker.py:72-127 | The inductive invariant of all runs of all processes over such a store, redelivery and hand-off included: at most one claimant, whose position fixes the state, the worker flag and the usable runs; spaced finalizing claims; a history that fits the state. |
| `RunInputs.RunTwice` | backend/app/services/execution_job_service.py:449-473 | Both runs start from inputs equal to the uploaded material, and the material is unchanged, although the runner may change its own input in any way. |
| `RunInputs.DeepCopy` | backend/app/services/execution_job_service.py:449-461 | The copy is equal to the original and made of new objects only. |
| `Json.GetAfterPut` | backend/app/services/jmx_builder.py:858-877 | Reading where a value was put gives that value. |
| `Json.GetApartFromPut` | backend/app/services/jmx_builder.py:858-877 | Putting a value leaves every position that neither contains nor lies in its own unchanged. |
| `Json.GetBelowPut` | backend/app/services/jmx_builder.py:858-877 | Reading below a put reads inside the value. |
| `Json.PutWhatWasRead` | backend/app/services/jmx_builder.py:858-877 | Putting back what was read changes nothing. |
| `Json.PutTwice` | backend/app/services/jmx_builder.py:858-877 | The second of two puts at one position is the one that counts. |
| `JsonPath.JsonpathValues` | backend/app/services/jsonpath_support.py:25-65 | The evaluator's loop over filters and steps selects what the recursive meaning of the expression selects, and nothing when any part is outside the language. |
| `JsonPath.FilterNodes` | backend/app/services/jsonpath_support.py:39-46 | The two loops of the filter branch keep, in order, the rows whose field selects exactly one value that equals the literal. |
| `JsonLeaves.PathValuesReadThePosition` | backend/app/services/jsonpath_support.py:25-65 | On every printed path the evaluator selects exactly the node at that position, or nothing when there is none. |
| `JsonLeaves.TailIsInjective` | backend/app/services/value_indexer.py:33-52 | Different positions print as different paths. |
| `JsonLeaves.FlattenJson` | backend/app/services/value_indexer.py:33-48 | The stack loop lists exactly the leaves of the tree under their printed paths. |
| `JsonLeaves.LeavesAreThere` | backend/app/services/value_indexer.py:33-48 | Every listed leaf is a scalar of the tree at its position. |
| `JsonLeaves.LeavesAreComplete` | backend/app/services/value_indexer.py:33-48 | Every scalar of the tree is listed at its position. |
| `JsonLeaves.LeavesAreDistinct` | backend/app/services/value_indexer.py:33-48 | No position is listed twice. |
| `JsonLeaves.FlattenedLeavesAreExact` | backend/app/services/value_indexer.py:33-52 | For trees with safe keys the listed paths are pairwise distinct, each selects exactly its own leaf, and every scalar of the tree is in the list. |
| `JsonSetter.ParsePrintedPath` | backend/app/services/jmx_builder.py:843-855 | Parsing a printed path gives its position back. |
| `JsonSetter.SetJsonPath` | backend/app/services/jmx_builder.py:858-877 | The descent assigns at the position of the parsed path and reports whether there was anything to assign to. |
| `JsonSetter.AssignThenRead` | backend/app/services/jmx_builder.py:858-877 | Assigning at a printed path succeeds, the evaluator then reads the value there, and every path apart from it reads as before. |
| `JsonSetter.AssignFailsWhereNothingIs` | backend/app/services/jmx_builder.py:858-877 | Assignment fails exactly where the evaluator finds nothing, and then changes nothing. |
| `JsonSetter.AssignKeepsOtherLeaves` | backend/app/services/jmx_builder.py:858-877 | Assigning at one leaf leaves the value of every other leaf as it was. |
| `JsonSafety.CheckJsonComplexity` | backend/app/utils/json_safety.py:33-67 | The stack loop reports nothing exactly on documents whose depth, arrays, strings and total number of values are all within the limits. |
| `ArraySelectorTheorems.OnlyArrayLeavesMatch` | backend/app/services/jmx_builder.py:762-776 | Among printed paths only those that end in an index and a plain member are ever split for rewriting. |
| `ArraySelectorTheorems.NavigateReadsThePosition` | backend/app/services/jmx_builder.py:795-805 | Splitting a printed prefix at dots and brackets finds the node at its position, or nothing when a key of it needs quotes. |
| `ArraySelectors.ChooseAnchor` | backend/app/services/jmx_builder.py:808-836 | An anchor is a field of the row other than the excluded ones, a scalar safe to write in a filter, and no other row of the array, nor of the comparison when one is required, has the same value. |
| `ArraySelectorTheorems.UnescapeEscaped` | backend/app/services/jmx_builder.py:787-789 | A text escaped for the filter reads back as itself exactly when it holds no line end and no NUL. |
| `ArraySelectorTheorems.FilterIsMatched` | backend/app/services/jsonpath_support.py:16-19 | A filter as it is printed scans back into its field and literal, unless its value is a float that is not finite: then it is no filter. |
| `ArraySelectorTheorems.KeptTheOne` | backend/app/services/jsonpath_support.py:34-46 | When exactly one row matches by the chooser's equality, the evaluator's filter keeps exactly that row, unless the match is of a Boolean with a number. |
| `ArraySelectorTheorems.KeptOfPermutation` | backend/app/services/jsonpath_support.py:34-46 | Reordering the rows reorders what a filter keeps. |
| `ArraySelectorTheorems.RewritingKeepsMeaning` | backend/app/services/jmx_builder.py:765-792 | For every position and every option the rewritten expression selects exactly the one value the indexed one selects, unless the chosen anchor is a text with NUL or an infinite number; then it selects nothing. |
| `ArraySelectorTheorems.RewritingSurvivesReordering` | backend/app/services/jmx_builder.py:765-792 | After any permutation of the array the rewritten expression still selects the original value, and nothing if the anchor is not read back. |
| `ArraySelectorTheorems.NulAnchorLosesTheValue` | backend/app/services/jmx_builder.py:765-792 | A concrete body whose anchor holds NUL: the indexed path selects the value and the rewritten one nothing. |
| `ArraySelectorTheorems.InfiniteAnchorLosesTheValue` | backend/app/services/jmx_builder.py:787-792 | A concrete body whose anchor is an infinite number: the new expression is not in the language and selects nothing. |
| `ArraySelectorTheorems.LargeNumbersAreInfinite` | backend/app/services/jsonpath_support.py:21-22 | Reading a JSON number gives such a float: 1e309 and every greater power of ten, by the limit of the double format. |
| `ArrayComparisons.RewritingInTheComparison` | backend/app/services/jmx_builder.py:765-836 | When a comparison is required, the chooser finds exactly one row with the anchor's value. In the comparison the new expression selects that row's target if the prefix reads that very array for the evaluator too, the anchor's literal reads back, the row is not matched by a Boolean and has the target; in every other case it selects nothing. |
| `ArrayComparisons.ObjectInTheComparison` | backend/app/services/jmx_builder.py:795-805 | A comparison that is an object with the digits of the index as a key: the chooser goes through it, the evaluator does not. |
| `ArrayComparisons.NulInTheComparison` | backend/app/services/jmx_builder.py:808-836 | An array equal in both runs whose anchor holds NUL: accepted, and nothing is selected. |
| `ArrayComparisons.InfinityInTheComparison` | backend/app/services/jmx_builder.py:808-836 | An array equal in both runs whose anchor is infinite: accepted, and nothing is selected. |
| `ArrayComparisons.BoolInTheComparison` | backend/app/services/jmx_builder.py:808-836 | A comparison in which a Boolean counts as the anchor's number: accepted, and nothing is selected. |
| `ArrayComparisons.MemberMissingInTheComparison` | backend/app/services/jmx_builder.py:808-836 | A comparison whose matching row lacks the target: accepted, and nothing is selected. |
| `JsonText.PrintAfterPut` | backend/app/services/jmx_builder.py:740-740 | Printing a tree with a scalar put somewhere is printing the tree with that scalar's text shown there. |
| `JsonText.OverlayOfOwnText` | backend/app/services/jmx_builder.py:740-740 | Showing at each position exactly what is there changes nothing. |
| `JsonText.PrintTurns` | backend/app/services/jmx_builder.py:741-746 | Replacing a text that no key, scalar or punctuation brings about changes the shown texts of a print and nothing else. |
| `JsonSubstitution.OtherMarker` | backend/app/services/jmx_builder.py:729-746 | Replacing one sentinel leaves every other sentinel of the request alone, even when one variable name is part of another. |
| `JsonSubstitution.OwnMarker` | backend/app/services/jmx_builder.py:741-746 | Replacing a sentinel puts its reference in its place, without the quotes at a numeric leaf. |
| `JsonSubstitution.UnmarkedIsPassive` | backend/app/services/jmx_builder.py:741-746 | A tree without the sentinel prefix prints nothing that a replacement could touch. |
| `JsonSentinels.RequestsAreGood` | backend/app/services/jmx_builder.py:729-739 | The sentinels of one request are pairwise different, whatever the variables and properties are called. |
| `JsonSentinels.MarkedPrints` | backend/app/services/jmx_builder.py:726-740 | The marked body prints as the original with the last sentinel assigned at each position shown there. |
| `JsonSentinels.ReplaceOne` | backend/app/services/jmx_builder.py:741-746 | One text replacement brings exactly its own positions up to date. |
| `JsonSentinels.ReplaceMarks` | backend/app/services/jmx_builder.py:740-746 | Printing and replacing the sentinels one after the other gives the structural print with every reference in place. |
| `JsonSentinels.ApplyJsonSubs` | backend/app/services/jmx_builder.py:719-753 | For bodies, keys and wrappers without the sentinel prefix the text is the structural print with `${var}` at exactly the assigned positions, bare at numeric ones; the parsed body has the same tokens; and the paths returned are those of the consumers that were assigned. |
| `JsonSentinels.LandsWhereSomethingIs` | backend/app/services/jmx_builder.py:726-739 | A substitution at a leaf is made exactly when the body has something at its position. |
| `JsonSentinels.TextAndTreeAgree` | backend/app/services/jmx_builder.py:747-752 | At the position of every substitution that finds a leaf, the parsed body reads as the very token that the text shows there. |
| `JsonSentinels.OtherLeavesAreKept` | backend/app/services/jmx_builder.py:747-752 | Every leaf that is not substituted keeps its value in the parsed body. |
| `JsonSentinels.DonePathsAre` | backend/app/services/jmx_builder.py:729-735 | The returned paths are exactly those of consumers whose assignment was made. |
| `ReferenceFilling.FillingGivesTheBodyBack` | backend/app/services/jmx_builder.py:719-753 | Replacing every reference to the substituted variables in the exported text, one variable after the other, by a recorded value that needs no escaping gives back the printed original body, whatever other references it holds. |
| `RequestMutation.MutateRequest` | backend/app/services/jmx_builder.py:573-702 | The request after all substitutions and credentials, and for each use whether the final request holds its wrapper and reference at its spot where it will be sent. |
| `RequestMutation.ReplacePair` | backend/app/services/jmx_builder.py:704-714 | Replaces the first pair with the name and the recorded value, else the first with the name, else nothing. |
| `RequestMutation.ReportUnmaterialised` | backend/app/services/jmx_builder.py:244-253 | Reports exactly the uses for which no use of the same variable at the same spot passed the final check, in order. |
| `Materialisation.ReferencesTell` | backend/app/services/jmx_builder.py:673-702 | Whatever stands before them, references to different variables are different texts. |
| `Materialisation.PathIsVerified` | backend/app/services/jmx_builder.py:592-598 | A path use passes the final check if and only if its segment exists and the last use of that segment asks for the same text. |
| `Materialisation.PathIsJoined` | backend/app/services/jmx_builder.py:592-598 | After any substitution the path is the joined segments. |
| `Materialisation.LastPairIsVerified` | backend/app/services/jmx_builder.py:599-618 | The last use of a parameter, header, cookie or field that the request has and that will be sent is in place in the final request. |
| `Materialisation.OnlyPairIsVerified` | backend/app/services/jmx_builder.py:673-702 | Where a name stands for one pair, a use of it passes if and only if the pair is sent and the last use of the name puts the text it asks for. |
| `Materialisation.OneVariableInAPair` | backend/app/services/jmx_builder.py:673-702 | Such a pair never passes for two different variables. |
| `Materialisation.UnknownNameFails` | backend/app/services/jmx_builder.py:704-714 | A use of a name that the request does not have never passes. |
| `Materialisation.SecretsKeepReferences` | backend/app/services/jmx_builder.py:650-671 | Supplying credentials at run time never overwrites a value that holds a reference. |
| `Materialisation.WrapperIsLost` | backend/app/services/jmx_builder.py:599-618 | A use that asks for text around its value in a query parameter, cookie or form field whose name stands for one pair is never verified there, whatever the other uses are. |
| `Materialisation.WrapperIsLostAnywhere` | backend/app/services/jmx_builder.py:599-618 | Nor is it under a name that the request repeats, unless the recorded request already had the very text that the use asks for. |
| `Materialisation.JsonIsVerified` | backend/app/services/jmx_builder.py:619-648 | A body use at a leaf passes if and only if the last use of its path asks for the same text, and the text that is sent shows that very text at the leaf. |
| `Materialisation.LastConsumerWins` | backend/app/services/jmx_builder.py:719-753 | Text and parsed body show the last consumer of a path at its leaf; credentials never take its place. |
| `Materialisation.VerifiedIsThere` | backend/app/services/jmx_builder.py:681-682 | A body use only passes when the recorded body has its path. |
| `Materialisation.OneVariableEach` | backend/app/services/jmx_builder.py:673-702 | No path segment and no place of the body passes for two different variables. |
| `Materialisation.PathUseReported` | backend/app/services/jmx_builder.py:244-253 | A use of a path segment is reported if and only if there is no such segment or the last use of it is of another variable. |
| `Materialisation.JsonUseReported` | backend/app/services/jmx_builder.py:244-253 | A body use at a leaf is reported if and only if the last use of its path is of another variable. |
| `Materialisation.PairUseReported` | backend/app/services/jmx_builder.py:244-253 | A use of a header, parameter, cookie or field that stands for one pair is reported if and only if it is not sent, or the last use of the name is of another variable, or, outside headers, no use of the variable there asks for the bare reference. |
| `Materialisation.UnreportedUsesAgree` | backend/app/services/jmx_builder.py:244-253 | Two uses of one path segment or place of the body that are both not reported name one variable. |
| `Naming.SanitizedIsIdent` | backend/app/utils/naming.py:73-83 | Whatever the text, the sanitised name is a valid identifier without double, leading or trailing underscores. |
| `Naming.SanitizedIsStable` | backend/app/utils/naming.py:73-83 | Sanitising twice is sanitising once. |
| `Naming.DedupeVariableName` | backend/app/utils/naming.py:86-96 | The search ends, with a name that was not taken, and takes it. |
| `Naming.DedupedIsIdent` | backend/app/utils/naming.py:86-96 | A suffixed identifier is an identifier. |
| `Naming.FreeSuffix` | backend/app/utils/naming.py:86-96 | The number found is the first free one from the start of the search. |
| `RunAligner.TagsTell` | backend/app/services/run_aligner.py:43-51 | An occurrence tag determines signature and ordinal, even for signatures that end like a tag. |
| `RunAligner.TagsAreDistinct` | backend/app/services/run_aligner.py:43-51 | Tags are pairwise distinct within a run. |
| `RunAligner.IndexedSignatures` | backend/app/services/run_aligner.py:43-51 | The counter loop tags every execution with the number of earlier ones of its signature. |
| `RunAligner.PartnerIs` | backend/app/services/run_aligner.py:54-97 | An execution is matched exactly when the other run has its signature often enough, and then the k-th occurrence goes with the k-th. |
| `RunAligner.PartnersDiffer` | backend/app/services/run_aligner.py:54-97 | No comparison execution is matched twice. |
| `RunAligner.MatchedIsIntersection` | backend/app/services/run_aligner.py:54-97 | The number of matches is the size of the intersection of the signature multisets. |
| `RunAligner.NoPairingIsLarger` | backend/app/services/run_aligner.py:54-97 | No pairing of equal signatures without repetition has more pairs than the alignment matches. |
| `RunAligner.AlignRuns` | backend/app/services/run_aligner.py:54-114 | The loops over both runs give the report of this matching: pairs, matched, missing, extra and reordered. |
| `RunAligner.CountsAddUp` | backend/app/services/run_aligner.py:54-114 | Matched and missing make up the baseline, matched and extra the comparison. |
| `RunAligner.SelfAlignment` | backend/app/services/run_aligner.py:54-114 | A run aligned with itself is paired execution by execution with nothing missing, extra or reordered. |
| `Occurrences.MatchIsWhole` | backend/app/services/correlation_engine.py:124-140 | Outside a text body a match means that wrapper and value together are the whole text of the sink. |
| `Occurrences.SuggestedIsIdent` | backend/app/utils/naming.py:99-108 | Every suggested name is a valid identifier. |
| `TwoRunCorrelation.AnalyzeTwoRun` | backend/app/services/correlation_engine.py:147-256 | The nested loops over exchanges, response values and later request values give exactly the candidates whose consumers, names and completeness the following rows state. |
| `TwoRunCorrelation.ConsumersAreExact` | backend/app/services/correlation_engine.py:172-221 | The consumers of a candidate are exactly the later baseline sinks that carry the first value (a short one only where the path names its resource) and whose aligned sink carries the second value; the producer changes between the runs. |
| `TwoRunCorrelation.NamesAreDistinct` | backend/app/services/correlation_engine.py:228-230 | Candidate names are valid identifiers and pairwise distinct. |
| `TwoRunCorrelation.DynamicValuesAreFound` | backend/app/services/correlation_engine.py:172-221 | Every changing response value with a consumer gets a candidate with all its consumers. |
| `TwoRunCorrelation.SecondSinkIsAligned` | backend/app/services/correlation_engine.py:202-212 | The comparison sink consulted is one of the aligned request at the same place. |
| `TwoRunCorrelation.IndexedIsThere` | backend/app/services/correlation_engine.py:314-322 | The location index returns an occurrence at exactly the location asked for. |
| `EchoElimination.NothingMerges` | backend/app/services/correlation_engine.py:390-402 | Candidates with names of their own are never merged. |
| `EchoElimination.DropEchoes` | backend/app/services/correlation_engine.py:416-434 | The nested search and the filter give the candidates that no earlier one justifies dropping. |
| `EchoElimination.JustifiesIsTransitive` | backend/app/services/correlation_engine.py:416-434 | What justifies dropping a justifier justifies dropping its echo. |
| `EchoElimination.EchoHasSurvivingProducer` | backend/app/services/correlation_engine.py:416-434 | Each dropped candidate has a surviving, strictly earlier producer of the same value that supplies all its consumers, even when its direct justifier is dropped too. |
| `EchoElimination.NothingIsLost` | backend/app/services/correlation_engine.py:416-434 | Every consumer location of every candidate is still supplied with the same value. |
| `EchoElimination.EliminationIsIdempotent` | backend/app/services/correlation_engine.py:416-434 | Eliminating twice is eliminating once. |
| `EchoElimination.ConflictsAreShared` | backend/app/services/correlation_engine.py:436-447 | A candidate is flagged exactly when it shares a consumer location with a different producer. |
| `TwoRunResults.Analyze` | backend/app/services/correlation_engine.py:147-256 | Finding, merging and dropping together report the candidates that the next two rows speak of. |
| `TwoRunResults.ReportedAreProven` | backend/app/services/correlation_engine.py:387-434 | Everything reported changes between the runs and is carried by both values to all its consumers, has a valid name of its own, and is not an echo of anything else reported. |
| `TwoRunResults.FollowersAreReported` | backend/app/services/correlation_engine.py:387-434 | Every later request value that follows a changing response value is a consumer of something reported with that very value, produced there or earlier. |
| `AutoCorrelation.FirstSupplierIsEarliest` | backend/app/services/auto_correlator.py:66-88 | The source taken for a concrete value is the first listed one that supplies it, and none is taken exactly when none supplies it. |
| `AutoCorrelation.SortedIsInOrder` | backend/app/services/auto_correlator.py:61-61 | The pass goes over the executions by rising index. |
| `AutoCorrelation.SortedIsPermutation` | backend/app/services/auto_correlator.py:61-61 | It goes over each execution once. |
| `AutoCorrelation.OrderIsKept` | backend/app/services/auto_correlator.py:61-61 | A run in order is taken as it is. |
| `AutoCorrelator.AutoCorrelate` | backend/app/services/auto_correlator.py:39-132 | The imperative pass, which enters concrete values, then placeholders, and only then learns the response, gives the rules of the specification. |
| `AutoCorrelator.CorrelateOne` | backend/app/services/auto_correlator.py:61-118 | One turn of the pass extends the rules by exactly the uses of its request and the selections by its concrete choices. |
| `CausalCorrelation.RulesOfPrefix` | backend/app/services/auto_correlator.py:1-6 | The pass over the beginning of a run gives the beginning of the full result: the same rules, names and producers, each consumer list a prefix. |
| `CausalCorrelation.ProducersPrecedeConsumers` | backend/app/services/auto_correlator.py:1-6 | Every producer comes from a strictly earlier exchange than each of its consumers. |
| `CausalCorrelation.UsesAreLawful` | backend/app/services/auto_correlator.py:61-118 | Every use takes an earlier response's value for a target sink, a concrete one from the first listed supplier, a guess only for a placeholder that none supplies; and no sink is used twice. |
| `CausalCorrelation.BookIsKept` | backend/app/services/auto_correlator.py:45-59 | For any uses the rules have distinct source locations and distinct valid names, and each use is a consumer of exactly the rule of its location, in order. |
| `CausalCorrelation.RulesAreExact` | backend/app/services/auto_correlator.py:39-132 | For every run in order the rules are exactly those of its uses: one for each source location under a distinct valid name, each use a consumer of the rule of its source only, every use lawful and no sink used twice. |
| `CausalCorrelation.ConsumersCarryTheValue` | backend/app/services/auto_correlator.py:61-118 | When no response lists two values at one place, each consumer of a rule carries the value that the rule extracts, or is a placeholder. |
| `TakenValues.UsesAreTaken` | backend/app/services/auto_correlator.py:61-118 | The uses of a run are what its request values take, no more and no less: a target that some earlier source supplies takes the first such source, a placeholder that none supplies takes what its name leaves; requests in order, concrete values before placeholders. |
| `SharedPlaces.ConsumersCarryExactly` | backend/app/services/auto_correlator.py:45-118 | For every run in order: all request values that take a concrete source carry the value that their rule extracts, if and only if those that take from one response place all carry the value that was taken first from it. The consumers of a rule are exactly the request values that take from its place. |
| `SharedPlaces.ProducersAreFirst` | backend/app/services/auto_correlator.py:45-59 | For any uses, a rule extracts the value of the first use of its place. |
| `SharedPlaces.CarryingIsEquality` | backend/app/services/auto_correlator.py:61-118 | Outside headers and text bodies a request value carries a value exactly when it is the value that it was taken from. |
| `SharedPlaces.SharedPlaceSharesTheRule` | backend/app/services/auto_correlator.py:45-118 | A run of two exchanges with a header that is sent twice: both values are used, the one rule extracts the first, and the consumer of the second does not carry it. |
| `JmxTree.CheckPairing` | backend/app/services/jmx_validator.py:80-97 | The index loop with its recursion reports the failures of the specification, in order. |
| `JmxTree.NothingReportedIffAlternates` | backend/app/services/jmx_validator.py:80-97 | Nothing is reported exactly on trees in which test element and tree element take turns at every level. |
| `JmxTree.Build` | backend/app/services/jmx_builder.py:210-280 | The assembly loop, with the variable block inserted at the front afterwards, gives the tree of the specification. |
| `JmxTree.BuiltPlansAreValid` | backend/app/services/jmx_builder.py:210-280 | For any run, rules and options the built tree alternates, so the validator reports nothing. |
| `JmxTree.ExtractorsPrecedeConsumers` | backend/app/services/jmx_builder.py:228-267 | In document order the extractor of an enabled rule comes before every sampler that follows the rule's producer. |
| `Calendar.TimestampsRoundTrip` | backend/app/domain/plans.py:53-60 | Taking a time apart into month, day and clock and putting it together gives the time back. |
| `Calendar.MomentsRoundTrip` | backend/app/domain/plans.py:53-60 | Putting a valid month, day and clock together and taking it apart gives them back. |
| `Calendar.AddMonthsTakesDays` | backend/app/domain/plans.py:53-60 | Adding months adds whole days, between 28 and 31 for each month. |
| `Calendar.PeriodsLast` | backend/app/domain/plans.py:53-60 | A period lasts at least 28 and at most 31 days for each of its months. |
| `Calendar.OrderIsKeptUnlessClamped` | backend/app/domain/plans.py:53-60 | Adding months keeps the order of two times if and only if they are not two days of one month, clamped to the same day, of which the later has the earlier time of day. |
| `Calendar.AddMonthsReversesOrder` | backend/app/domain/plans.py:53-60 | A concrete pair of times whose order is reversed. |
| `Subscriptions.PurchaseKeepsQueue` | backend/app/services/billing.py:150-174 | Buying keeps every user's plans queued one after the other. |
| `Subscriptions.NoPaidTimeIsLost` | backend/app/services/billing.py:150-174 | A plan starts after all of the user's plans, exactly at the end of one of them or now, and lasts at least 28 days a month. |
| `Subscriptions.PlansAreDisjoint` | backend/app/services/billing.py:150-174 | Two plans of a user never run at the same time. |
| `Subscriptions.AtMostOneActive` | backend/app/repositories/account_store.py:275-281 | At most one plan of a user is active at any time. |
| `Subscriptions.FollowedByTheNext` | backend/app/repositories/account_store.py:293-313 | The query's subquery finds a following plan exactly when the user has bought another one since. |
| `Subscriptions.PassIsSound` | backend/app/services/maintenance.py:35-53 | A maintenance pass changes marks only, keeps each mail sent at most once, and mails only about plans that are not followed by another. |
| `Subscriptions.RunsAreSound` | backend/app/services/maintenance.py:35-53 | Over any run of purchases and passes at any times the plans stay queued and each plan has at most one reminder and at most one end notice. |
| `AccountStore.Store.Purchase` | backend/app/services/billing.py:150-174 | Appends exactly one plan, starting at the latest of now and the last expiry, and keeps the store valid. |
| `StalePurchases.StaleReadOverlaps` | backend/app/services/billing.py:150-174 | When other plans are inserted between a purchase's read and its insert, the first of the same user's less than 28 days before or after: the new plan overlaps another plan of its user if and only if one of the inserted plans is that user's. |
| `StalePurchases.TwoPurchasesOverlap` | backend/app/services/billing.py:150-174 | Two purchases of a new user at one time, both read before either inserts, overlap. |
| `AccountStore.Store.ActiveSubscription` | backend/app/repositories/account_store.py:275-281 | Finds the one plan that is active now, and none exactly when there is none. |
| `AccountStore.Store.DueReminders` | backend/app/repositories/account_store.py:293-303 | Selects exactly the plans that are due for a reminder, in the order of the rows. |
| `AccountStore.Store.DueNotices` | backend/app/repositories/account_store.py:305-313 | Selects exactly the plans that are due for an end notice, in the order of the rows. |
| `AccountStore.Store.ConsumeFreeUse` | backend/app/repositories/account_store.py:331-350 | Records one use against every key, unless some key has reached the limit; then nothing changes. |
| `AccountStore.Store.RefundFreeUse` | backend/app/repositories/account_store.py:352-356 | Takes one use back from every key that has one. |
| `AccountStore.RunMaintenance` | backend/app/services/maintenance.py:35-53 | The two loops, marking before mailing, leave the store and the outbox as the specified pass does, which is sound. |
| `AccountStore.RefundUndoesUse` | backend/app/services/billing.py:129-140 | A refund takes back exactly what a use recorded. |
| `AccountStore.LimitIsKept` | backend/app/repositories/account_store.py:331-356 | No sequence of uses and refunds takes any key beyond the limit. |
| `RateLimiting.WindowsAreBounded` | backend/app/core/security.py:28-45 | With non-decreasing time every closed window of the limiter's length, anywhere in the run, holds at most the allowed number of calls. |
| `RateLimiting.SinceIsTheWindow` | backend/app/core/security.py:36-45 | What a pruned history still holds is exactly the calls of the window that ends now. |
| `RateLimiting.SinceTwice` | backend/app/core/security.py:36-45 | Forgetting early does not change what is left later. |
| `RateLimiting.Prune` | backend/app/core/security.py:40-41 | The popping loop drops exactly the times before the cutoff. |
| `RateLimiting.RateLimiter.Allow` | backend/app/core/security.py:36-45 | A call is allowed exactly when the last window holds fewer allowed calls of its key than the limit; the deque equals the filtered full history. |

## Left out

- Materialisation.LastPairIsVerified: one direction only for names that a request repeats, because the recorded value then chooses the pair; OnlyPairIsVerified and PairUseReported are exact for the others.
- JobLifecycle.ClaimedAtMostOnce: over a store that applies an update once; over the table store it fails for the callers, as DynamoFlags.TwoRunJobsCanStart shows, and holds for the stored record, by DynamoFlags.ClaimsAreReopened.
- JobLifecycle.HistoryIsAStagePath: likewise; DynamoDrivers.HandedOverJobGoesBack shows that it fails over the table store.
- JobLifecycle.ReturnedWorkerLeavesNothingBehind: likewise.
- JobLifecycle.RunInvariant: likewise.
- JobLifecycle.FinalizingClaimsAreSpaced: likewise, with DynamoFlags.RecordedClaimsAreSpaced for the stored record.
- JobLifecycle.EveryDriveEnds: each own step of a call counts as one; that a runner or a resolver answers at all is assumed, and so is a worker that does not crash between its claim and its first write.
- MemoryJobStore.InMemoryExecutionJobStore.FindByKeyLocked: which of several equally recent jobs is returned is left open.
- DynamoJobStore.DynamoDbExecutionJobStore.Mutate: the pause between attempts is not modelled, and the record's round trip through its JSON document is taken as exact.
- JsonSentinels.ApplyJsonSubs: updating nested dictionaries in place is modelled as computing a new tree, so aliasing inside a body is not captured.
- JsonSetter.SetJsonPath: likewise on tree values.
- ReferenceFilling.FillingGivesTheBodyBack: JMeter's substitution is taken as replacing each variable's reference in turn, for values that need no JSON escaping.
- TwoRunCorrelation.AnalyzeTwoRun: scores, entropy, extractor choice and the final sort by score are not modelled; header and cookie indexing, XML and HTML sources and text sources are given as occurrences.
- AutoCorrelator.AutoCorrelate: the sinks of one request are decided before they are entered, which gives the same rules because no decision depends on another.
- AutoCorrelator.CorrelateOne: of a rule's warning about inferred consumers only that it is given is modelled, not its text.
- RunAligner.AlignRuns: the signature of an execution is given; the regular expressions that normalise path segments and the coverage ratio are not modelled.
- JmxTree.Build: element attributes, properties and the sampler's own content are not modelled, only which element stands where.
- Calendar.OrderIsKeptUnlessClamped: rounding to microseconds and the overflow after the year 9999 are not modelled, and time starts in 1970.
- AccountStore.Store.Purchase: the read of the latest expiry and the insert are one step of the class; StalePurchases.StaleReadOverlaps says what happens when other purchases come between them.
- AccountStore.RunMaintenance: the text of mails, history retention and the purge of sessions and reset tokens are not modelled.
- Unconditional `create` and `update` of the table store, expiry by the table itself, lost transaction responses and store failures.
- The lists of sensitive field names, headers that are not sent and cookies replayed by the server: parameters of the request model.
- TEXT_BODY consumers of a request: replaced by a plain substring replacement, with no position to speak of.
- Rounding of floats, apart from the overflow to infinity: a float stands for the decimal value of its text. String literals of a filter with other escapes than quotes and backslash are rejected.
- ArraySelectorTheorems.RewritingKeepsMeaning: said of texts of Unicode scalar values; a lone surrogate in the anchor, which the literal reader refuses like NUL, cannot be written in the model.
- A regular expression's `$` before a final line break.
- UTF-8 encoding of owners and idempotency keys: they are given as bytes.
- Classification into insights, single-run analysis, the target-domain extractor and its resolver cache, history entries, sessions and password resets: easy members beside the above, or tied to external data.
- XML escaping and serialisation, extractors' contents, Groovy text, mail, presenters, configuration, authentication and the frontend.
