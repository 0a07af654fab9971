# Projection lifecycle: a verified model

A Dafny model of the parts of `meridian-storage-projection` whose correctness depends on interleavings, retries and
byte-level formats, with proofs about them. It has four parts.

**Outbox, runner and versioned target.** Producers append events to an outbox. Workers claim at most one event per
partition, the first incomplete one in `(occurred_at, event_id)` order, under an expiring lease; they project it, upsert a
row addressed by source identity and version, and complete or release the event. `OutboxStore` is the store with its
mutable records and its claim loop, `OutboxModel` says what each operation does to it as a value, and `OutboxProtocol` is
the state machine of all parties: append, claim, write, complete, release, operator retry, crash, checkpoint write, in any
order and at any clock reading. `Deployment.Host` drives the real store and target and keeps them equal to a run of that
machine, so what holds of every run holds of the objects; `ProjectionRunner` runs the worker loop on such a host while
other parties act in between. `OutboxClaims`, `OutboxOrdering`, `OutboxDelivery`, `VersionedTarget` and `EndToEnd` hold
the theorems, ending with: once everything is completed, the reduction of the target is the fold of the source history.
`CaughtUp` joins the two ends: a worker that runs until idle without mishap makes a reader see that fold.

**Migrations.** `MigrationProtocol` is any number of overlapping `execute` calls on one append-only recorder, each
failing or stopping anywhere. `MigrationModel` describes the lawful checkpoint logs, and `MigrationHistory` shows that they
are exactly the reachable ones. `MigrationExecutor` has the recorder as an object and `execute` itself, running beside
other calls.

**Canonical JSON and portability.** `CanonicalJson`, `JsonText`, `ShortestText` and `PythonValues` are the canonical
form, its text, a parser, why that text is the shortest one, and freezing. `PortabilityModel` and `PartitionText` say what
a record line and a whole partition are; `LogicalImport` has the streaming reader and the two passes, `LogicalExport` the
export and the round trip.

**Cache.** `CacheModel` has policies, keys and entries. `CacheHistory` is the run of a cache: a log of what loaders
answered and callers put, the writes, the lookups and what they served, with outages, deletions and lost or foreign
entries at any moment; its theorem says that everything served is an earlier answer for the same key. `SingleFlight` is
the interleaving of readers. `CacheReads` says what a whole read does to such a run and what it answers, and has the laws
of reads: transparency, what a miss leaves for the next reader, and what outages cannot change. `CacheBackend` and
`CacheCoordinator` are the objects, proved to do exactly that beside other readers and writers.

Conventions. Every locked section is one step. Time is an integer, and each call of a clock is a parameter of its own, so
clocks may disagree and run backwards. SHA-256 digests are datatype constructors around what they digest, which is to say
injective. Hooks, loaders, adapters, evidence sinks and other parties are parameters that say what they answer or do at each
point. Exceptions are error values. Dictionaries inside JSON data are lists of entries in insertion order, compared without
regard to order.

Two places where a property holds only under a condition, which the model states exactly:

- The store does not stop an event from being appended before a record of its partition that is already leased. The order
  of completion is kept if and only if every append fits (`OutboxOrdering.OrderedExactly`); the schedule that breaks it is
  `OutboxOrdering.LateAppendBreaksOrder`.
- The lease check looks at the owner only, as the port's own documentation says. A late call is accepted if and only if the
  last claim has the same owner and is live (`OutboxDelivery.AcceptedExactly`). An overtaken call is fenced unless its
  owner claims the same event again (`OutboxDelivery.OvertakenIsFenced`); then it is not
  (`OutboxDelivery.ReusedOwnerIsNotFenced`, and `OutboxDelivery.ReusedOwnerSchedule` for a schedule).

`dafny verify dfyconfig.toml` checks the whole project.

## Model

| member | source | states |
|---|---|---|
| TextOrder.StrictTotalOrder | src/meridian_storage/projection/outbox/store.py:148-151 | `str` comparison, the tie-break of the claim order, is a strict total order |
| TextOrder.LessExactly | src/meridian_storage/projection/outbox/store.py:148-151 | what that order is: a proper prefix comes first, else the smaller code point at the first difference |
| Orders.Sort | src/meridian_storage/projection/outbox/store.py:148-151 | `sorted` returns the one sorted listing of a set: sorted, complete, without repetition |
| Orders.ListingUnique | src/meridian_storage/projection/outbox/store.py:148-151 | a set has a single sorted listing, so a claim does not depend on dictionary order |
| OutboxModel.BeforeIsTotal | src/meridian_storage/projection/outbox/store.py:148-151 | `(occurred_at, event_id)` orders any two different keys one way |
| OutboxModel.KeysExactly | src/meridian_storage/projection/outbox/model.py:116-125 | the sort key orders events by time and then event id, and the partition key is shared exactly by events of one catalog, resource and source identity |
| OutboxStore.HeadIsFirstIncomplete | src/meridian_storage/projection/outbox/store.py:152-159 | in sorted order, a record whose partition is not in `seen_partitions` is exactly the first incomplete record of that partition |
| OutboxStore.ClaimRound | src/meridian_storage/projection/outbox/store.py:153-180 | one round of the loop extends the selection exactly when the record is a partition head that may be leased |
| OutboxStore.ClaimDone | src/meridian_storage/projection/outbox/store.py:178-180 | leaving the loop, at the limit or at the end, the leased records are the first `limit` of all heads that could be leased |
| OutboxStore.MutableRecord.LeaseTo | src/meridian_storage/projection/outbox/store.py:168-176 | a lease counts one attempt, clears the failure and carries the attempt number |
| OutboxStore.InMemoryOutboxStore.Append | src/meridian_storage/projection/outbox/store.py:117-129 | appending is idempotent by id and content; other content under the same id is refused and nothing changes |
| OutboxStore.InMemoryOutboxStore.AtomicClaim | src/meridian_storage/projection/outbox/store.py:131-180 | the loop over mutable records leases exactly the selected heads, returns their snapshots in claim order and leaves every other record as it was; bad arguments change nothing |
| OutboxStore.InMemoryOutboxStore.SortedRecords | src/meridian_storage/projection/outbox/store.py:148-151 | the records are visited in `(occurred_at, event_id)` order |
| OutboxStore.InMemoryOutboxStore.Visit | src/meridian_storage/projection/outbox/store.py:153-177 | a finished record, a second record of a partition, a live lease and a quarantined record are passed over; an expired lease is taken over |
| OutboxStore.InMemoryOutboxStore.LeasedRecord | src/meridian_storage/projection/outbox/store.py:182-195 | the lease check answers not-found, lost lease (not leased, other owner, expired at or before now) or done |
| OutboxStore.InMemoryOutboxStore.Complete | src/meridian_storage/projection/outbox/store.py:197-233 | completion changes one record and its partition checkpoint together, or nothing at all |
| OutboxStore.InMemoryOutboxStore.Acknowledge | src/meridian_storage/projection/outbox/store.py:217-233 | the record is finished and the checkpoint of its partition gets the next revision, this event and its version |
| OutboxStore.InMemoryOutboxStore.Release | src/meridian_storage/projection/outbox/store.py:245-263 | release quarantines on a permanent failure or at the poison threshold and otherwise makes the record retryable; a refused release changes nothing |
| OutboxStore.InMemoryOutboxStore.OperatorRetry | src/meridian_storage/projection/outbox/store.py:265-283 | only a quarantined record goes back to retryable |
| OutboxStore.InMemoryOutboxStore.CompareAndSetCheckpoint | src/meridian_storage/projection/outbox/store.py:285-303 | a checkpoint is replaced only at the expected revision and only by the next one |
| OutboxClaims.SelectionIsExact | src/meridian_storage/projection/outbox/store.py:153-180 | the selection keeps the sorted order and drops no record that could be leased |
| OutboxClaims.ClaimOrderIsExact | src/meridian_storage/projection/outbox/store.py:153-180 | a record is selectable if and only if it is an incomplete partition head that is waiting or has an expired lease |
| OutboxClaims.HeadsDiffer | src/meridian_storage/projection/outbox/store.py:156-159 | two different heads belong to different partitions |
| OutboxClaims.ClaimableExactly | src/meridian_storage/projection/outbox/store.py:153-177 | a record can be claimed if and only if it is the oldest unfinished one of its catalog, resource and identity and is waiting or under a lease that has run out |
| OutboxClaims.ClaimContract | src/meridian_storage/projection/outbox/store.py:145-180 | a claim is in order of time and event id, within the limit, one event per source, always its oldest unfinished one, and passes over nothing that sorts before what it took |
| OutboxClaims.HeadExists | src/meridian_storage/projection/outbox/store.py:153-159 | every partition with unfinished work has a head |
| OutboxClaims.ShortClaimMeansBlocked | src/meridian_storage/projection/outbox/store.py:153-180 | when fewer than `limit` records are returned, every unclaimed head is quarantined or under a lease that is still live |
| OutboxProtocol.StepEvolves | src/meridian_storage/projection/outbox/store.py:153-283 | no step of anybody changes the data of a record, lowers its attempt count or touches a completed record |
| OutboxProtocol.WellFormedStep | src/meridian_storage/projection/outbox/model.py:186-204 | the state rules of a record (lease exactly when leased, attempt number of the lease, fingerprint and time when completed) survive every step |
| OutboxProtocol.HistoryStep | src/meridian_storage/projection/outbox/store.py:117-129 | the append history and the store hold the same events, each once |
| OutboxProtocol.BaseRun | src/meridian_storage/projection/outbox/store.py:117-303 | the base invariant holds after every interleaving of appends, claims, writes, completions, releases, retries, crashes and checkpoint writes |
| OutboxProtocol.HistoryGrows | src/meridian_storage/projection/outbox/store.py:117-124 | what was appended stays appended |
| OutboxOrdering.AppendIsExact | src/meridian_storage/projection/outbox/store.py:121-124 | an append keeps the partition order if and only if no started record of the partition sorts after it |
| OutboxOrdering.OtherStepsKeepOrder | src/meridian_storage/projection/outbox/store.py:153-283 | no other step breaks the partition order |
| OutboxOrdering.OrderedExactly | src/meridian_storage/projection/outbox/store.py:121-180 | over whole runs: every started record has only completed predecessors at all times if and only if every append fits |
| OutboxOrdering.OneLeasePerPartition | src/meridian_storage/projection/outbox/store.py:156-176 | in an ordered store at most one record of a partition is leased and the completed ones precede the others |
| OutboxOrdering.CompletedOnce | src/meridian_storage/projection/outbox/store.py:189-221 | each event completes once, and the completed records are exactly the completions made |
| OutboxOrdering.CompletionsInOrder | src/meridian_storage/projection/outbox/store.py:197-233 | completions of a partition happen in `(occurred_at, event_id)` order when every append fits |
| OutboxOrdering.LateAppendBreaksOrder | src/meridian_storage/projection/outbox/store.py:121-124 | the schedule in which a late append that sorts earlier leads to two live leases in one partition and completion out of order |
| OutboxDelivery.CheckpointsFollowCompletions | src/meridian_storage/projection/outbox/store.py:222-233 | without external writes a checkpoint counts the completions of its partition and names the last one with its version and fingerprint |
| OutboxDelivery.RevisionCountsCompleted | src/meridian_storage/projection/outbox/store.py:222-233 | the revision of a partition equals its number of completed records |
| OutboxDelivery.RevisionsRiseByOne | src/meridian_storage/projection/outbox/store.py:285-303 | external writes included, every change of a checkpoint raises its revision by exactly one |
| OutboxDelivery.CompletedForever | src/meridian_storage/projection/outbox/store.py:189-190 | a completed record is identical in every later state |
| OutboxDelivery.ClaimsExtend | src/meridian_storage/projection/outbox/store.py:168-177 | a claim adds one entry per claimed event to the claim history |
| OutboxDelivery.LeaseRun | src/meridian_storage/projection/outbox/store.py:160-176 | in every run a lease belongs to the last claim of its event and attempt counts stay within their allowance |
| OutboxDelivery.AttemptsBounded | src/meridian_storage/projection/outbox/store.py:257-283 | the attempt count of an event is its number of claims and at most threshold plus expired-lease reclaims plus operator retries |
| OutboxDelivery.AcceptedExactly | src/meridian_storage/projection/outbox/store.py:182-216 | completion and release are accepted if and only if the last claim of the event is by this owner, still leased and not expired (and the version is acknowledged exactly) |
| OutboxDelivery.FreshOwnersOwnOnce | src/meridian_storage/projection/outbox/store.py:40-47 | if every claim uses an owner of its own, an owner stands for one attempt at an event |
| OutboxDelivery.OvertakenIsFenced | src/meridian_storage/projection/outbox/store.py:182-195 | unless its owner is used again for the same event, an overtaken claim can neither complete nor release; the latest one can only before its expiry |
| OutboxDelivery.FreshOwnersFence | src/meridian_storage/projection/outbox/store.py:40-47 | so with a fresh owner per claim every overtaken attempt is fenced |
| OutboxDelivery.ReusedOwnerIsNotFenced | src/meridian_storage/projection/outbox/store.py:40-47 | whenever an owner is reused for an event under a live lease, the overtaken attempt is still accepted |
| OutboxDelivery.ReusedOwnerSchedule | src/meridian_storage/projection/outbox/store.py:43-47 | the schedule: an owner claims again after its lease ran out, and its first attempt can still complete on the second lease |
| VersionedTarget.SameIdSameRow | examples/versioned_target.py:66-77 | with one payload per source identity and version, one row id stands for one row |
| VersionedTarget.ProjectExactly | examples/versioned_target.py:54-80 | which events become a row (source, schema, labels, integer version, readable payload), and the document, version and tombstone of that row |
| VersionedTarget.RowIdExactly | examples/versioned_target.py:54-64 | two rows have one id if and only if projection, scope, catalog, resource, identity and version agree |
| VersionedTarget.LatestIsNewest | examples/versioned_target.py:94-101 | the reduction keeps, per source key, a row of the highest version |
| VersionedTarget.LatestIgnoresOrder | examples/versioned_target.py:94-101 | the reduction does not depend on the order or repetition of the scan |
| VersionedTarget.LatestVisible | examples/versioned_target.py:83-102 | the loop returns the latest rows in key order, tombstones dropped, then filtered |
| VersionedTarget.SeenExactly | examples/versioned_target.py:94-102 | a reader sees a row if and only if it is the one kept for its key, not a tombstone, and matches |
| VersionedTarget.FilteringFirstExactly | examples/versioned_target.py:83-102 | filtering before the reduction changes what is seen of a key if and only if its newest row does not show while an older one does |
| VersionedTarget.FilteringFirstResurrects | examples/versioned_target.py:83-102 | filtering first shows an older row of any key whose newest row is a tombstone while an older one matches |
| VersionedTarget.FoldIsNewest | examples/versioned_target.py:94-101 | the fold of a source history keeps the highest version per source key |
| VersionedTarget.ReductionIsFold | examples/versioned_target.py:54-102 | a scan that holds the images of a history, and for a key all of them, reduces to the fold of the history |
| VersionedTarget.FoldIgnoresOrder | examples/versioned_target.py:83-102 | with one payload per version, the fold does not depend on the order in which events were appended |
| VersionedTarget.NewestDecides | examples/versioned_target.py:66-102 | the newest event of a source key decides what is seen of it: nothing after a deletion, by kind or by flag, and otherwise its own document if it matches |
| EndToEnd.TargetIsFaithful | src/meridian_storage/projection/runner/runner.py:295-322 | in every run the target holds only images of appended events and the image of every completed event |
| EndToEnd.DeliveredKeyIsCurrent | examples/versioned_target.py:83-102 | a source key whose events are all completed reads as the fold of the history |
| EndToEnd.TargetRefinesHistory | examples/versioned_target.py:83-102 | once every event is completed, `latest_visible` of the target equals the filtered fold of the source history, for every interleaving and every scan order |
| EndToEnd.OnlySourceRowsAreVisible | examples/versioned_target.py:94-102 | before that a reader sees only images of appended events, never newer than the fold |
| EndToEnd.HostServesHistory | src/meridian_storage/projection/runner/runner.py:295-322 | the same for the real store and target objects |
| Deployment.Host.Claim | src/meridian_storage/projection/runner/runner.py:289-294 | a worker holds exactly the attempts its claim returned |
| Deployment.Host.Write | src/meridian_storage/projection/runner/runner.py:297-300 | the row of a held event is upserted under its own id |
| Deployment.Host.Complete | src/meridian_storage/projection/runner/runner.py:302-308 | completing through the host has the effect and answer of the store model |
| Deployment.Host.Release | src/meridian_storage/projection/runner/runner.py:325-331 | releasing through the host has the effect and answer of the store model |
| Deployment.Host.Crash | src/meridian_storage/projection/runner/runner.py:287-294 | a stopped worker loses what it had in hand and nothing else |
| Deployment.Host.PerformAll | src/meridian_storage/projection/runner/runner.py:287-354 | any sequence of steps on the real store and target is the same run of the protocol |
| ProjectionRunner.RecordsKept | src/meridian_storage/projection/outbox/store.py:117-303 | whatever others do, completed records stay and attempt counts do not fall |
| ProjectionRunner.OthersLeave | src/meridian_storage/projection/runner/runner.py:287-354 | steps of other parties leave a worker what it holds and has written |
| ProjectionRunner.FirstVersionExactly | src/meridian_storage/projection/runner/runner.py:140-146 | the first string or integer among the version entries of the result is taken, if there is one |
| ProjectionRunner.AcknowledgedExactly | src/meridian_storage/projection/runner/runner.py:137-152 | an event is acknowledged exactly when it has no version or that entry is its version |
| ProjectionRunner.Runner.TryWrite | src/meridian_storage/projection/runner/runner.py:296-300 | unless the projector, the target or the process fails first the row of the event is in the target, acknowledged or not |
| ProjectionRunner.Runner.TryComplete | src/meridian_storage/projection/runner/runner.py:301-308 | whatever others did meanwhile, the record is completed if and only if its exact version is acknowledged and it is still leased to this worker |
| ProjectionRunner.Runner.TryDeliver | src/meridian_storage/projection/runner/runner.py:296-322 | the `try` block: it completes the record exactly when nothing fails on the way; it raises unless the record was completed and the evidence recorded; when the process ends, before the write, after it, or after the completion, is stated exactly |
| ProjectionRunner.Runner.Recover | src/meridian_storage/projection/runner/runner.py:323-348 | the `except` block returns if and only if the process goes on, the record is still leased to this worker and the evidence is recorded; the record is released exactly while the lease holds, and the counter matches its state; a completed record cannot be released |
| ProjectionRunner.Runner.Deliver | src/meridian_storage/projection/runner/runner.py:295-348 | one delivery returns if and only if it completes without a hitch or hands its failure back in time; the record is then completed, retryable or quarantined as its failure and attempts say, and is counted so |
| ProjectionRunner.Runner.DeliverAll | src/meridian_storage/projection/runner/runner.py:295-348 | the loop over a batch adds up the outcomes of its deliveries |
| ProjectionRunner.Runner.RunOnce | src/meridian_storage/projection/runner/runner.py:287-354 | a cycle returns if and only if every delivery of its claim does, and otherwise stops at the first that does not; it has then claimed = completed + retryable + quarantined, and every claimed record has the outcome its delivery calls for |
| ProjectionRunner.Runner.RunUntilIdle | src/meridian_storage/projection/runner/runner.py:356-365 | totals stay balanced and idleness means every head is blocked; it gives up only after `max_cycles` cycles that claimed something or a cycle that did not return; an undisturbed worker whose deliveries return does neither when `max_cycles` exceeds the attempts still owed, leaves no lease of its own behind, and completes every event when its deliveries go well and nothing was quarantined or under a live lease |
| ProjectionRunner.SumCounts | src/meridian_storage/projection/runner/runner.py:128-134 | each outcome of a cycle is counted once, under its own name |
| ProjectionRunner.CycleDone | src/meridian_storage/projection/runner/runner.py:287-354 | an undisturbed cycle settles its claimed records with one more attempt each and touches no other |
| ProjectionRunner.AttemptDone | src/meridian_storage/projection/runner/runner.py:295-348 | a claimed record that was settled has used one attempt, and is completed exactly when its delivery went well |
| ProjectionRunner.IdleAfter | src/meridian_storage/projection/runner/runner.py:362-365 | an idle store holds no lease that was not there before; without obstacles and mishaps every event is completed |
| CaughtUp.CatchUp | src/meridian_storage/projection/runner/runner.py:356-365 | a worker that runs until idle undisturbed makes `latest_visible` of the real target equal the filtered fold of the source history, if nothing is quarantined or under a live lease when it finds nothing to claim, or, with a clock that does not run backwards, at its first claim |
| CaughtUp.ServesFold | examples/versioned_target.py:83-102 | a host that has completed these events serves the fold of their history, in whatever order they were appended |
| ProjectionRunner.CyclePays | src/meridian_storage/projection/runner/runner.py:356-365 | the attempts still owed fall by at least the number of claimed records |
| ProjectionRunner.NothingToClaim | src/meridian_storage/projection/runner/runner.py:362-363 | a cycle that claims nothing has found every partition head quarantined or under a live lease |
| MigrationModel.VerifiedExactly | src/meridian_storage/projection/migration/executor.py:155-170 | a constructed plan is accepted if and only if it names the bundle and keeps its step order; the digest check never decides |
| MigrationModel.AppliedIsPrefix | src/meridian_storage/projection/migration/executor.py:249-268 | the acknowledged steps of a lawful log are a prefix of the bundle steps |
| MigrationModel.LateStatesNeedAllSteps | src/meridian_storage/projection/migration/executor.py:269-330 | VALIDATING, ACTIVATING and COMPLETED come only after every step is acknowledged |
| MigrationModel.StepsResumeInOrder | src/meridian_storage/projection/migration/executor.py:204-268 | acknowledged step ids are a duplicate-free prefix of the step list |
| MigrationModel.CompletedIsLast | src/meridian_storage/projection/migration/executor.py:325-330 | COMPLETED is the last entry, right after ACTIVATING, which is right after VALIDATING |
| MigrationProtocol.StartKeeps | src/meridian_storage/projection/migration/executor.py:199-211 | a call that has read the log knows its next sequence and the acknowledged steps |
| MigrationProtocol.AcceptedExactly | src/meridian_storage/projection/migration/executor.py:97-102 | the recorder lets a checkpoint in if and only if nobody else has appended since the call read the log |
| MigrationProtocol.OfferKeeps | src/meridian_storage/projection/migration/executor.py:131-153 | an accepted checkpoint continues the log lawfully; a refused one leaves its call without a way back |
| MigrationProtocol.InvRun | src/meridian_storage/projection/migration/executor.py:186-363 | the invariant of log and calls holds after every interleaving of any number of calls, each failing or stopping anywhere |
| MigrationHistory.LogsAreLawful | src/meridian_storage/projection/migration/executor.py:97-102 | every reachable log has sequences 0, 1, 2, ..., one bundle, and resumes in order |
| MigrationHistory.EveryLawfulLog | src/meridian_storage/projection/migration/executor.py:186-363 | every lawful log is produced by some schedule of calls |
| MigrationHistory.ReachableExactly | src/meridian_storage/projection/migration/executor.py:186-363 | the reachable logs are exactly the lawful ones |
| MigrationHistory.CompletedIsTerminal | src/meridian_storage/projection/migration/executor.py:325-349 | after COMPLETED the log never changes, not even when recording evidence fails |
| MigrationHistory.OvertakenNeverAppends | src/meridian_storage/projection/migration/executor.py:97-102 | a call that was overtaken by an append never appends again |
| MigrationHistory.AttemptsAreContiguous | src/meridian_storage/projection/migration/executor.py:233-349 | the entries of one call stand next to each other in the log |
| MigrationExecutor.InMemoryMigrationRecorder.Append | src/meridian_storage/projection/migration/executor.py:97-102 | an entry is appended exactly when its sequence exceeds the last one |
| MigrationExecutor.Site.Others | src/meridian_storage/projection/migration/executor.py:90-106 | other calls using the real recorder are steps of the protocol and only extend logs |
| MigrationExecutor.Site.Checkpoint | src/meridian_storage/projection/migration/executor.py:131-153 | a checkpoint is appended exactly when its call is up to date |
| MigrationExecutor.Execution.RunConditions | src/meridian_storage/projection/migration/executor.py:172-184 | conditions run in order and all pass if and only if none is cancelled, raises or fails; the error is that of the first that does not |
| MigrationExecutor.Execution.Prepare | src/meridian_storage/projection/migration/executor.py:217-232 | preparation succeeds if and only if fingerprint, preconditions, lock and compiled plan are in order; the error is that of the earliest check |
| MigrationHistory.OthersAreSilent | src/meridian_storage/projection/migration/executor.py:97-102 | as long as one call is the only one to append to an execution, the steps of all others leave its log as it was |
| MigrationHistory.ElsewhereIsSilent | src/meridian_storage/projection/migration/executor.py:97-102 | calls that keep to other executions never append to this one |
| MigrationExecutor.Execution.Record | src/meridian_storage/projection/migration/executor.py:131-153 | a checkpoint of an up-to-date call is recorded unless another call has appended to this very execution, whatever happens to other executions |
| MigrationExecutor.Execution.ApplyRound | src/meridian_storage/projection/migration/executor.py:249-268 | one round stops on cancellation or an expired lock, passes over an acknowledged step, or records what the adapter answered |
| MigrationExecutor.Execution.ApplySteps | src/meridian_storage/projection/migration/executor.py:249-268 | the adapter is asked, in order, only for steps nobody acknowledged before, and its own answers are what the log gets |
| MigrationExecutor.Execution.ValidateAndComplete | src/meridian_storage/projection/migration/executor.py:269-339 | COMPLETED is recorded only after validations, activation and postconditions passed |
| MigrationExecutor.Execution.Validate | src/meridian_storage/projection/migration/executor.py:269-283 | VALIDATING, validations, ACTIVATING |
| MigrationExecutor.Execution.Activate | src/meridian_storage/projection/migration/executor.py:284-324 | activation succeeds if and only if lock, target fingerprint and postconditions are in order, and its evidence says so |
| MigrationExecutor.Execution.Work | src/meridian_storage/projection/migration/executor.py:216-339 | the `try` block that gets to its end leaves COMPLETED at the end of the log; as long as nobody else appends to the execution it succeeds when everything outside does and fails with the code of the first thing that does not |
| MigrationExecutor.Execution.Fail | src/meridian_storage/projection/migration/executor.py:340-360 | FAILED is recorded under the unused sequence, and never once the call is overtaken or the migration completed; what is raised is stated in every case |
| MigrationExecutor.Execution.CompletedSteps | src/meridian_storage/projection/migration/executor.py:207-211 | the dictionary of completed steps holds exactly the acknowledged ids |
| MigrationExecutor.Execution.Execute | src/meridian_storage/projection/migration/executor.py:186-363 | a report means a completed log with every step acknowledged by the adapter and every condition passed; if nobody else appends to this execution, whatever happens to others, success is equivalent to everything outside succeeding, and failure leaves FAILED with the code of the first thing that went wrong unless the migration had completed; if somebody else does, the call ends in a conflict |
| CanonicalJson.CanonIsCanonical | src/meridian_storage/projection/_canonical.py:99-109 | sorting puts the keys of every object, at every depth, in code-point order |
| CanonicalJson.SortedUnique | src/meridian_storage/projection/_canonical.py:99-109 | a sorted object is determined by its keys and values |
| CanonicalJson.CanonExactly | src/meridian_storage/projection/_canonical.py:99-109 | two values sort to the same value if and only if they are equal as dictionaries and lists |
| JsonText.IntRoundTrip | src/meridian_storage/projection/_canonical.py:99-109 | a printed integer is read back (section 6 of RFC 8259) |
| JsonText.StringRoundTrip | src/meridian_storage/projection/_canonical.py:99-109 | a printed string is read back, escapes included (section 7 of RFC 8259) |
| JsonText.RoundTrip | src/meridian_storage/projection/_canonical.py:99-109 | a printed value is read back, and reading stops right behind it (sections 2 to 7 of RFC 8259) |
| JsonText.CanonicalRoundTrip | src/meridian_storage/projection/cache/coordinator.py:60-68 | parsing canonical text gives the sorted value |
| JsonText.CanonicalTextExactly | src/meridian_storage/projection/_canonical.py:99-115 | canonical texts, and so digests, are equal if and only if the values are; booleans, integers and strings never collide and insertion order never matters |
| JsonText.ParsedWellFormed | src/meridian_storage/projection/portability/coordinator.py:275-280 | whatever is parsed holds each key once |
| JsonText.CanonicalTextIsOneLine | src/meridian_storage/projection/portability/coordinator.py:186-188 | canonical text holds no newline, so one record is one line |
| ShortestText.CanonicalIsShortest | src/meridian_storage/projection/_canonical.py:99-109 | no text of the same data is shorter than its canonical text: no space, no needless escape, no repeated entry |
| ShortestText.LongEscapesAreLower | src/meridian_storage/projection/_canonical.py:99-109 | only control characters get long escapes, with lower-case hexadecimal digits |
| PythonValues.JsonValueWellFormed | src/meridian_storage/projection/_canonical.py:68-90 | conversion yields dictionaries with distinct keys at every depth |
| PythonValues.SupportedExactly | src/meridian_storage/projection/_canonical.py:68-90 | a value is converted if and only if it is made of supported values with strings for keys |
| PythonValues.StandsFor | src/meridian_storage/projection/_canonical.py:68-90 | a timestamp stands for its text, an enumeration for its member, a record for the mapping of its attributes |
| PythonValues.ThawsBack | src/meridian_storage/projection/_canonical.py:126-137 | a frozen value converts back to the data it was made from |
| PythonValues.FreezingKeepsBytes | src/meridian_storage/projection/_canonical.py:126-137 | freezing first changes neither the canonical bytes nor, a second time, the value |
| PythonValues.CanonicalBytesExactly | src/meridian_storage/projection/_canonical.py:99-115 | supported values have equal canonical bytes if and only if they stand for the same data |
| PortabilityModel.FromSortedMapping | src/meridian_storage/projection/portability/model.py:82-122 | the mapping of a valid record, keys sorted, is read back as the record |
| PortabilityModel.NormalLine | src/meridian_storage/projection/portability/model.py:82-92 | key order inside a record does not change its line |
| PortabilityModel.ValidExactly | src/meridian_storage/projection/portability/model.py:48-81 | which records are refused: an empty field, an unknown catalog or the cache, values or references that are no dictionaries |
| PortabilityModel.LineReadsBack | src/meridian_storage/projection/portability/coordinator.py:272-284 | a short enough line of a valid record is accepted and gives the record back |
| PortabilityModel.LinesExactly | src/meridian_storage/projection/portability/coordinator.py:272-284 | a line is accepted if and only if it is the canonical line of some valid record and short enough |
| PortabilityModel.SameLine | src/meridian_storage/projection/portability/coordinator.py:186-188 | two records share a line if and only if they are the same up to key order |
| PartitionText.FirstLine | src/meridian_storage/projection/portability/coordinator.py:310-315 | `partition` on the newline takes off the first line |
| PartitionText.SplitAnywhere | src/meridian_storage/projection/portability/coordinator.py:306-315 | splitting a text cut anywhere is splitting the first part and carrying its unfinished line over |
| PartitionText.OversizedIsHopeless | src/meridian_storage/projection/portability/coordinator.py:316-317 | a text with an oversized unfinished line can never become acceptable, so the early check changes no verdict |
| PartitionText.TextReadsBack | src/meridian_storage/projection/portability/coordinator.py:179-191 | what an export writes for ordered records reads back as those records |
| PartitionText.ExportHolds | src/meridian_storage/projection/portability/coordinator.py:192-203 | an exported partition meets everything the import checks |
| LogicalImport.Joins | src/meridian_storage/projection/portability/coordinator.py:290-304 | a record joins the waiting batch after its references were transferred |
| LogicalImport.Fills | src/meridian_storage/projection/portability/coordinator.py:300-304 | a full batch is handed over and the next one starts empty |
| LogicalImport.Finishes | src/meridian_storage/projection/portability/coordinator.py:320-321 | the last batch may be short; none is empty |
| LogicalImport.PartitionReader.Consume | src/meridian_storage/projection/portability/coordinator.py:272-304 | one line extends the records read exactly when it is readable and its id exceeds the last one |
| LogicalImport.PartitionReader.Feed | src/meridian_storage/projection/portability/coordinator.py:306-317 | after a chunk the reader stands where reading the whole text so far would stand; an integrity error means no continuation can be accepted |
| LogicalImport.ReadPartition | src/meridian_storage/projection/portability/coordinator.py:254-336 | for every way of cutting the bytes a pass succeeds exactly when the whole text meets the simple specification, unless it is cancelled when it looks or a call of the target fails; it hands over every record in batches, each after exactly the objects referred to so far |
| LogicalImport.Conclude | src/meridian_storage/projection/portability/coordinator.py:318-336 | count, bytes, bounds and digest decide, and the result repeats the manifest |
| LogicalImport.LogicalImportCoordinator.Pass | src/meridian_storage/projection/portability/coordinator.py:350-371 | one pass holds for every partition or fails, and without writing leaves the target alone |
| LogicalImport.LogicalImportCoordinator.Import | src/meridian_storage/projection/portability/coordinator.py:338-379 | nothing reaches the target unless every partition verified; equal bytes on both passes rule out a late integrity error; the passes never disagree; unless cancelled at a moment it looks or a call of the target fails, success is equivalent to every partition meeting its manifest on both passes |
| LogicalImport.EverythingArrives | src/meridian_storage/projection/portability/coordinator.py:361-371 | the batches written are, put together, all records in partition order |
| LogicalExport.InMemoryLogicalArtifacts.FinishPartition | src/meridian_storage/projection/portability/coordinator.py:123-130 | a finished artifact is stored under its partition and content |
| LogicalExport.PartitionWriter.WriteRecord | src/meridian_storage/projection/portability/coordinator.py:179-191 | a record is written exactly when its id exceeds the previous one, and the figures follow |
| LogicalExport.LogicalExportCoordinator.ExportPartition | src/meridian_storage/projection/portability/coordinator.py:166-203 | the manifest and the artifact describe exactly the records of the source |
| LogicalExport.LogicalExportCoordinator.Export | src/meridian_storage/projection/portability/coordinator.py:155-229 | unless cancelled at a moment it looks, an export succeeds if and only if ids are distinct, batches small enough, records in strictly increasing code-point order of their ids and the boundary unchanged |
| LogicalExport.Fetch | src/meridian_storage/projection/portability/coordinator.py:132-137 | the artifact source hands out what was stored for every manifest, in one chunk or none |
| LogicalExport.ExportIsImportable | src/meridian_storage/projection/portability/coordinator.py:350-373 | what an export stored meets the import specification on both passes |
| LogicalExport.ExportAndImport | src/meridian_storage/projection/portability/coordinator.py:155-371 | importing an export from its own artifacts succeeds unless a call of the target fails, and hands over exactly the exported records in partition order, each partition in batches of 1 to the batch size of which only the last may be short, with the objects they refer to first |
| SingleFlight.AlwaysInv | src/meridian_storage/projection/cache/coordinator.py:300-327 | the flights invariant holds over every interleaving of readers |
| SingleFlight.OneLeaderExactly | src/meridian_storage/projection/cache/coordinator.py:300-306 | a key is in the flights dictionary if and only if a leader for it is active, and then exactly one is |
| SingleFlight.LeaderWakesFollowers | src/meridian_storage/projection/cache/coordinator.py:322-327 | a leaving leader finds its own flight, and every follower of it is woken |
| SingleFlight.NobodyWaitsInVain | src/meridian_storage/projection/cache/coordinator.py:307-308 | a follower whose event is not set has an active leader |
| CacheModel.KeyExactly | src/meridian_storage/projection/cache/model.py:93-109 | two identities share a key if and only if they are of one source resource and agree on every key field |
| CacheModel.VersionExactly | src/meridian_storage/projection/cache/coordinator.py:118-133 | which versions will do, case by case: any, the equal one, or by comparator or integer comparison one not older |
| CacheModel.KeyFails | src/meridian_storage/projection/cache/model.py:93-109 | an identity has no key if and only if a key field is missing, else one is no scalar, else the key is too long |
| CacheModel.ValidIsFresh | src/meridian_storage/projection/cache/coordinator.py:135-162 | an entry is valid if and only if it is of the policy's form, not expired, not stale and of a version that will do |
| CacheModel.TaggingIsSafe | src/meridian_storage/projection/cache/coordinator.py:47-48 | a user value never reads back as the negative marker |
| CacheModel.DecodesBack | src/meridian_storage/projection/cache/coordinator.py:60-68 | decoding what was encoded gives a value of the same data |
| CacheHistory.ServesItsAnswer | src/meridian_storage/projection/cache/coordinator.py:164-218 | a servable entry gives back the answer it stores: its value, its version, within time to live and staleness; a value never reads as an absence |
| CacheHistory.AlwaysTransparent | src/meridian_storage/projection/cache/coordinator.py:164-409 | after every run of lookups, loads, puts, deletions, outages and losses, each entry is what the write of its version stored, and everything served so far that no outsider wrote is an earlier answer for the same key |
| CacheHistory.ServedIsAnswered | src/meridian_storage/projection/cache/coordinator.py:164-409 | everything served in a run is an answer a loader or caller gave before for the same cache, form and key, within the default or negative time of its policy or the time it was put for, fresh enough and of an acceptable version |
| CacheHistory.VersionNamesEntry | src/meridian_storage/projection/cache/backends.py:278-321 | a key that shows the same version at two moments of a run holds the same entry |
| CacheReads.ReadAnswers | src/meridian_storage/projection/cache/coordinator.py:276-327 | a read gives back what was served to it during the call or exactly what its loader returned, and fails only if its loader raises or returns what cannot be encoded, or an outage meets a policy without fallback |
| CacheReads.ReadIsTransparent | src/meridian_storage/projection/cache/coordinator.py:276-327 | over every history a hit is an answer logged before for its key, still good at a time this read looked; any other result is the own loader's answer; with fallback a read fails if and only if it is not served and its loader raises or returns what cannot be encoded |
| CacheReads.LoadKeeps | src/meridian_storage/projection/cache/coordinator.py:220-274 | a loaded value is stored for the default time of the policy, an absence for its negative time, nothing without one; an outage leaves no trace |
| CacheReads.MissHolds | src/meridian_storage/projection/cache/coordinator.py:250-274 | after a miss the backend holds what the loader answered, if the policy stores it, created at the time of the load and kept for the time the policy says |
| CacheReads.HeldIsServed | src/meridian_storage/projection/cache/coordinator.py:164-218 | whatever is stored, a value or an absence, is served to later readers until it is replaced, removed, expired, stale or of too old a version |
| CacheReads.MissIsServedNext | src/meridian_storage/projection/cache/coordinator.py:276-327 | what one reader has loaded, or found absent, the next reader is served |
| CacheReads.PutHolds | src/meridian_storage/projection/cache/coordinator.py:343-409 | what an explicit put stored is held, so later readers are served it |
| CacheReads.CalmRead | src/meridian_storage/projection/cache/coordinator.py:276-327 | while the backend stays up a read is a hit or a plain miss and fails only with its loader |
| CacheBackend.InMemoryCacheBackend.Put | src/meridian_storage/projection/cache/backends.py:287-293 | a logged answer is stored under a version never used before |
| CacheBackend.InMemoryCacheBackend.PutIfAbsent | src/meridian_storage/projection/cache/backends.py:295-303 | stores exactly when the key is free |
| CacheBackend.InMemoryCacheBackend.CompareAndSet | src/meridian_storage/projection/cache/backends.py:305-321 | replaces exactly the write that carries the expected version, never a later one |
| CacheBackend.InMemoryCacheBackend.Delete | src/meridian_storage/projection/cache/backends.py:323-326 | removes one entry and tells whether it was there |
| CacheBackend.InMemoryCacheBackend.Invalidate | src/meridian_storage/projection/cache/backends.py:328-336 | removes the entries of one resource and counts them |
| CacheBackend.InMemoryCacheBackend.PerformAll | src/meridian_storage/projection/cache/backends.py:255-336 | whatever others do, the backend stands where the run of all actions so far stands |
| CacheCoordinator.FlightTable.Enter | src/meridian_storage/projection/cache/coordinator.py:300-306 | a reader leads exactly when its key has no flight |
| CacheCoordinator.FlightTable.Leave | src/meridian_storage/projection/cache/coordinator.py:322-327 | the leader removes its own flight, which is always there, and sets its event |
| CacheCoordinator.Coordinator.Cached | src/meridian_storage/projection/cache/coordinator.py:164-218 | a lookup serves an entry if and only if the backend answers and the entry is valid now; anything else found is deleted; it fails only in an outage without fallback |
| CacheCoordinator.Coordinator.Load | src/meridian_storage/projection/cache/coordinator.py:250-274 | the loader's answer is logged, stored and returned unchanged; a failed store shows in the outcome only |
| CacheCoordinator.Coordinator.Follow | src/meridian_storage/projection/cache/coordinator.py:307-321 | a follower looks again and loads for itself if nothing can be served |
| CacheCoordinator.Coordinator.Fly | src/meridian_storage/projection/cache/coordinator.py:298-327 | a reader leads exactly when no leader for its key is active, answers accordingly, and always leaves its flight |
| CacheCoordinator.Coordinator.Read | src/meridian_storage/projection/cache/coordinator.py:276-327 | the call does to cache and flights exactly what the specified read does beside everybody else, and answers the same; the laws of `CacheReads` are about that read |
| CacheCoordinator.Coordinator.PutIfAbsent | src/meridian_storage/projection/cache/coordinator.py:343-374 | a given value that can be encoded is stored and kept for the given or the default time, within the TTL bounds of the policy, exactly when the backend answers and the key is free |
| CacheCoordinator.Coordinator.CompareAndSet | src/meridian_storage/projection/cache/coordinator.py:376-409 | a given value replaces exactly the entry seen under the expected version, and is kept for the given or the default time |
| CacheCoordinator.Coordinator.Delete | src/meridian_storage/projection/cache/coordinator.py:411-415 | one entry goes, and the answer tells whether it was there |
| CacheCoordinator.Coordinator.InvalidateAfterCommit | src/meridian_storage/projection/cache/coordinator.py:329-341 | it succeeds exactly when the backend answers; then every entry of this cache goes, counted, and no other; an outage is reported, not raised |
| CacheCoordinator.Coordinator.PerformAll | src/meridian_storage/projection/cache/coordinator.py:276-415 | in any history of reads, puts, replacements, deletions, invalidations, outages and losses, every call does what it says, and every read answers with what was loaded or put for its key before the read looked, still good at that time, or with its own loader's answer |

## Left out

- InMemoryOutboxStore.OperatorRetry: the non-empty `reason` is not a parameter, because nothing depends on it after the check.
- InMemoryOutboxStore.Complete: the `sha256:` form of the target fingerprint is not checked, because digests are abstract.
- InMemoryOutboxStore.Release: the failure keeps its code and time; the redacted text is not modelled, because it is only stored.
- CaughtUp.CatchUp: asks for undisturbed, successful deliveries, because a failing or disturbed worker need not catch up; what holds then is in `RunOnce` and `RunUntilIdle`.
- Runner.RunUntilIdle: `run_until_stopped` and its waiting are not modelled; it is the same cycle in a loop that may not end.
- Execution.Execute: releasing the adapter lock in `finally` is not modelled, because the adapter is not; a stopped process is a step of the protocol, not of this method.
- Execution.RunConditions: the operation and expectation of a condition are opaque; its outcome is a parameter.
- LogicalImport.ReadPartition: integrity errors and the record constructor's own errors are one error, because both refuse the partition.
- LogicalImportCoordinator.Import: merge policies, the target fingerprint's form and the comparison digest are not modelled; a target or transfer hook that raises or answers badly is one failure.
- LogicalExportCoordinator.Export: export metadata and the manifest's own digest are not modelled, because nothing reads them back.
- JsonText.Parse: floats are not read, so records and cached values without floats are covered; other numbers, escapes and space are.
- PortabilityModel.LinesExactly: lines with floats, which the source reads, are refused by the modelled parser, so the equivalence is about records without floats.
- JsonText.CanonicalTextIsOneLine: texts are sequences of characters, so UTF-8 lengths and lone surrogates are not modelled; limits on bytes become limits on characters.
- CacheHistory.ServedIsAnswered: runs in which somebody else writes entries into the backend are excluded here; `AlwaysTransparent` covers them, and says which served entries are explained and by what.
- CacheReads.ReadAnswers: entries of outsiders whose timestamps are not RFC 3339 text are not modelled; the source raises on reading one, so times are numbers here.
- InMemoryCacheBackend.Invalidate: only the `all` selector of the in-memory backend is modelled.
- Coordinator.Read: a follower's waiting time is not modelled, it may go on at any point; evidence sinks of the cache are taken not to raise; the default serializer is the only one.
- The cache operation `inspect` is the backend's `get` with its error renamed and is not wrapped again.
- `TransactionalOutboxWriter`, registries, bindings, capabilities and expressions of Meridian Core are not part of this model; a committed intent is an append.
- The Meridian-backed cache backend and evidence sink, the PostgreSQL conformance harness and host processes are not part of this model.
- `lag`, `MigrationPlanner`, `RebuildCoordinator`, `PortableRecoveryCoordinator` and the `to_mapping` methods outside the logical record would add straight-line members only.
- Fingerprint patterns, UUIDs, timestamp formatting and constructor checks that no modelled behaviour depends on are left out.
- Scheduling inside a locked section is left out; each is one step.
