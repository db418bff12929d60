# Verified model of the recruiting aggregator's stateful core

The aggregator ingests recruiting evidence (web pages, mail, chat, screenshots), extracts
claims, resolves them into opportunities, and does the work through a durable job queue
shared by many workers and tenants. This project models the parts whose correctness spans
many calls and proves properties of every run of them:

* the **job queue**: leases, renewals, fencing tokens, fairness between tenants, retries,
  the worker's heartbeat, the worker's pass over one job and the recurring schedule;
* **account erasure and reconciliation**: which evidence goes, that the order of erasures
  does not matter, and that no opportunity is left citing erased claims without a reconcile
  job being owed;
* the **life of a source version** under interleaved and crashing ingest calls;
* the **resolver** from claims to opportunities, and the write of its result;
* three small stateful or bit-level components: the bounded rate limiter, the provider
  circuit breaker and the IPv4 block list.

`dafny verify dfyconfig.toml` verifies the whole project.

## How it is laid out

| file | part of the system |
|---|---|
| `Prelude.dfy` | options and small arithmetic |
| `Jobs.dfy` | job rows, handles, and each queue operation as a function on the tables |
| `SqliteJobQueue.dfy` | the queue object that updates its tables in place, proved against `Jobs` |
| `QueueRuns.dfy` | all interleavings of queue calls by any workers, and their invariant |
| `Ownership.dfy`, `Fairness.dfy`, `Accounting.dfy` | theorems over whole queue runs |
| `Scheduler.dfy`, `Worker.dfy` | time slots of recurring synchronizations; one pass of the worker loop |
| `Chains.dfy`, `Fleet.dfy` | recurring chains over whole runs; all workers, heartbeats and other callers together |
| `Heartbeat.dfy` | the lease heartbeat, interleaved with the queue |
| `Resolver.dfy`, `Opportunities.dfy` | resolving claims, storing opportunities |
| `Evidence.dfy`, `PrivacyRepository.dfy`, `Memberships.dfy` | evidence tables, the erasure transaction, identity deletion |
| `Reconciliation.dfy` | queue, evidence, resolver and erasure as one system |
| `Ingestion.dfy` | the version lifecycle |
| `RateLimiter.dfy`, `ProviderHttpClient.dfy`, `Ipv4.dfy` | the small components |

## Assumptions

* Times are natural numbers of milliseconds. One operation reads the clock once. The clock
  never goes back, and it has moved on whenever a lease is granted or renewed.
  `Ownership.StalledClockRepeatsToken` shows why the last part is needed: at one and the
  same millisecond a fencing token can repeat.
* Every database transaction or SQL function is one atomic step.
* `stableId` is injective: a job is identified by tenant, type and key, an opportunity by the
  text that is hashed.
* The queue is used with one lease length of 60 seconds, as the worker does
  (`src/bootstrap/worker.ts`), and workers pass only handles that the queue gave out.
* Scheduled keys are written by the scheduler alone, with one constant interval, and
  reconcile jobs by erasures alone. Reading the clock for the next slot and queueing it is
  one step.
* `actor_id` of an override may be null, as `migrations/007_privacy_lifecycle.sql:68` has it,
  or must not be, as `src/store.ts:75` declares it for SQLite; the erasure transaction is
  modelled for both (`actorRequired`). The run theorems are about the erasures that commit.
* Extraction, HTTP, credentials and `Date.parse`/`Number` on strings are inputs.

## What the code does that a reader may not expect

* `fail` in SQLite moves `available_at` of a row that it dead-letters, Postgres does not;
  apart from that both databases settle alike (`Accounting.TwinsSettleAlike`).
* A job whose `maxAttempts` is zero or negative is still leased once, so attempts are bounded
  by the larger of 1 and `maxAttempts` (`Accounting.LeasesBounded`).
* A version left in `queued` or `processing` by a crash is never taken up again
  (`Ingestion.LeftBehindForEver`).
* Erasing a version while it is being extracted lets a second call work on the same version
  (`Ingestion.ErasedInFlightIsWorkedOnTwice`); without that there is one processor at a time.
* Two event claims whose title and start spell the same id make every write of the
  organization fail (`Opportunities.SameEventTwiceFails`), also when title and start differ
  (`Opportunities.DifferentEventsCollide`); `Opportunities.ResolveStoresExactly` gives the
  exact condition on the claims.
* An erasure is rolled back when its operation id, which clients may set, was used before for
  the same user, and in SQLite for every user who wrote an override
  (`PrivacyRepository.SqlitePrivacyRepository.EraseAccount`).
* A renewal whose answer is lost costs the worker its lease, although the database granted it
  (`Heartbeat.MislaidForEver`).
* The retry delay never reaches its cap of 900 seconds (`Jobs.RetryDelayDoubles`).
* A claim's score stops falling at 360 days of age, so the cap of 365 days never matters
  (`Resolver.ScoreFallsWithAge`).
* The rate limiter never evicts the empty key, so behind an open bucket for it the map has no
  bound (`RateLimiter.EmptyKeyStopsEviction`); with non-empty keys the bound holds
  (`RateLimiter.NonEmptyKeysFit`).

## Model

| member | source | states |
|---|---|---|
| `SqliteQueue.SqliteJobQueue.Enqueue` | src/infrastructure/queue/sqlite-job-queue.ts:9-43 | one row per tenant, type and key; written only if new or cancelled, then queued with the given payload, the given or the default priority, attempts and availability, without lease and error; otherwise nothing changes; no other row is touched; the stored row is returned |
| `SqliteQueue.SqliteJobQueue.CancelPending` | src/infrastructure/queue/sqlite-job-queue.ts:45-72 | row by row: a pending row of the tenant and type that has every value of the pattern becomes cancelled, a screenshot without its payload; every other row is unchanged; the number of rows that became cancelled is returned |
| `SqliteQueue.SqliteJobQueue.LeaseNext` | src/infrastructure/queue/sqlite-job-queue.ts:74-119 | row by row: a running row whose final attempt has run out of lease becomes a dead letter, the leased row is running for the worker with one more attempt, every other row is unchanged; a row is leased whenever one is free, and no free row stands before it; the handle says what is stored |
| `SqliteQueue.SqliteJobQueue.PickNext` | src/infrastructure/queue/sqlite-job-queue.ts:84-97 | ranking the ready rows of each tenant and taking the first of the first ones finds a least ready row, and nothing only when none is ready |
| `SqliteQueue.SqliteJobQueue.RenewLease` | src/infrastructure/queue/sqlite-job-queue.ts:121-131 | succeeds exactly for a handle whose worker and expiry are those of a running, unexpired row; then only the expiry moves, in the row and in the new handle; otherwise nothing changes |
| `SqliteQueue.SqliteJobQueue.Complete` | src/infrastructure/queue/sqlite-job-queue.ts:133-150 | accepted exactly for such a handle; the row succeeds, of a screenshot job only the note of the redaction is left, any other payload is kept; otherwise nothing changes |
| `SqliteQueue.SqliteJobQueue.Fail` | src/infrastructure/queue/sqlite-job-queue.ts:152-175 | accepted exactly for such a handle; the row is retried after the back-off of its attempt, or dead-lettered on the last one, with the error cut to 500 characters; a dead screenshot keeps only the note of the redaction |
| `Jobs.RetryDelay` | src/infrastructure/queue/sqlite-job-queue.ts:155 | the back-off is between 1 and 900 seconds |
| `Jobs.RetryDelayDoubles` | src/infrastructure/queue/sqlite-job-queue.ts:155 | the back-off doubles with every attempt and stays at 512 seconds from the ninth on, so its cap of 900 is never reached |
| `QueueRuns.HeldBeforeStep` | src/infrastructure/queue/sqlite-job-queue.ts:121-175 | no step of anybody makes an earlier handle hold a row that it did not hold before, and a row still held is unchanged |
| `QueueRuns.StepKeepsInv` | src/infrastructure/queue/sqlite-job-queue.ts:9-175 | every queue call and erasure keeps the queue invariant (lease exactly when running, attempt bounds, redaction, handles agree with rows they hold) |
| `QueueRuns.InvAlways` | src/infrastructure/queue/sqlite-job-queue.ts:9-175 | the invariant holds in every reachable state |
| `Ownership.HeldSinceLease` | src/infrastructure/queue/sqlite-job-queue.ts:74-131 | a handle carried from a lease through renewals that still holds its row has held it at every moment since that lease |
| `Ownership.ExclusiveOwnership` | src/infrastructure/queue/sqlite-job-queue.ts:74-175 | if a settlement is accepted, between its lease and it nobody else was leased the job and nobody settled it |
| `Ownership.SettledAtMostOnce` | src/infrastructure/queue/sqlite-job-queue.ts:133-175 | all handles of one lease together settle the job at most once |
| `Ownership.LeaseBetweenSettlements` | src/infrastructure/queue/sqlite-job-queue.ts:74-175 | two accepted settlements of one job have the second one's lease between them, also when the job returns to an earlier worker |
| `Ownership.IssuedIsCarried` | src/infrastructure/queue/sqlite-job-queue.ts:98-131 | every handle the queue ever gave out comes from a lease through renewals |
| `Ownership.EverySettlementEndsItsLease` | src/infrastructure/queue/sqlite-job-queue.ts:74-175 | of any handle: an accepted settlement ends an unbroken hold since a lease of the job, with no other lease or settlement of it in between |
| `Ownership.NoAttemptSettledTwice` | src/infrastructure/queue/sqlite-job-queue.ts:74-175 | between any two accepted settlements of a job it is leased again |
| `Ownership.RefusedForever` | src/infrastructure/queue/sqlite-job-queue.ts:121-175 | a handle that the queue would refuse is refused for ever |
| `Ownership.StalledClockRepeatsToken` | src/infrastructure/queue/sqlite-job-queue.ts:98-104 | a concrete run at one instant in which the first attempt's handle is valid for the second attempt |
| `Fairness.RankThenOrder` | src/infrastructure/queue/sqlite-job-queue.ts:84-96 | ranking rows per tenant and ordering the first ones across tenants picks exactly the least ready rows of the whole table, in both directions |
| `Fairness.NextExists` | src/infrastructure/queue/sqlite-job-queue.ts:84-97 | if any row is ready there is one to pick |
| `Fairness.LeaseServesFirstInLine` | src/infrastructure/queue/sqlite-job-queue.ts:86-96 | in every run a lease goes to the tenant served longest ago among those with a ready row, and within it, or among tenants served equally long ago, to the lowest priority number, then the oldest row |
| `Fairness.StaysReady` | src/infrastructure/queue/sqlite-job-queue.ts:86-91 | a ready row stays ready until it is itself leased, cancelled or deleted |
| `Fairness.NoTenantTwice` | src/infrastructure/queue/sqlite-job-queue.ts:84-110 | a tenant is not served a second time while another tenant, not served in between, has any ready row |
| `Fairness.BoundedBypass` | src/infrastructure/queue/sqlite-job-queue.ts:84-110 | while a tenant has some ready row, not always the same, at every lease and is not served, the tenants served are distinct, not its own, and fewer than all tenants |
| `Fairness.WaitingRowKeepsTenantReady` | src/infrastructure/queue/sqlite-job-queue.ts:84-110 | one ready row that waits is enough for the bypass bound to apply to its tenant |
| `Accounting.RowTellsHistory` | src/infrastructure/queue/sqlite-job-queue.ts:9-175 | the attempt counter is the number of leases since the job was last queued; a live row has the payload of that call |
| `Accounting.LeasesBounded` | src/infrastructure/queue/sqlite-job-queue.ts:76-104 | between two queueings a job is leased at most max(1, maxAttempts) times |
| `Accounting.LeaseHandsOver` | src/infrastructure/queue/sqlite-job-queue.ts:98-117 | every lease hands over the payload of the call that last queued the job and uses up one attempt |
| `Accounting.TerminalIsAbsorbing` | src/infrastructure/queue/sqlite-job-queue.ts:9-175 | a succeeded or dead-lettered row never changes, unless the user that its payload names is erased in its tenant |
| `Accounting.EveryMoveIsAllowed` | src/infrastructure/queue/sqlite-job-queue.ts:9-175 | in every run each step leaves a row alone or moves it along an edge of its life: it becomes cancelled only by cancelPending from pending, a dead letter only by leaseNext after the lease of its final attempt or by fail on it, succeeded only by complete under a live lease, running only from due or abandoned, retryable only with attempts left |
| `Accounting.AbandonedAttemptsDie` | src/infrastructure/queue/sqlite-job-queue.ts:76-83 | in every run leaseNext, whether or not it grants a lease, dead-letters exactly the rows whose final attempt ran out of lease, and touches no other row but the leased one |
| `Accounting.OnlyErasureDeletes` | src/infrastructure/privacy/sqlite-privacy-repository.ts:170-179 | a row disappears only by an erasure, in its tenant, of the user that its payload names |
| `Accounting.RowsAlwaysOk` | src/infrastructure/queue/sqlite-job-queue.ts:9-175 | in every reachable state a lease is held exactly by running rows, the payload of a succeeded, dead or cancelled screenshot job has no keys but those of the redaction note, attempts stay within the maximum |
| `Accounting.TwinsSettleAlike` | migrations/008_terminal_job_payload_retention.sql:49-87 | for every handle ever issued `app.finish_job`, which decides from the row, and SQLite, which decides from the handle, leave the same row except for `available_at` of a dead letter |
| `Scheduler.SlotArithmetic` | src/application/connectors/connector-sync-scheduler.ts:30-32 | the slot of now plus one interval is the slot after the current one |
| `Scheduler.SlotsAlwaysOk` | src/application/connectors/connector-sync-scheduler.ts:22-40 | in every reachable state a queued slot becomes available inside its own slot and a slot that was ever leased has begun |
| `Scheduler.ChainAdvances` | src/application/connectors/connector-sync-scheduler.ts:22-40 | scheduling never meets a running or finished row: it leaves one queued row for the slot right after now, available inside it, and touches no other row |
| `Scheduler.NextSlotIsLater` | src/application/connectors/connector-sync-scheduler.ts:30-36 | the job being worked on always belongs to an earlier slot than the one scheduled next |
| `Worker.Pass` | src/bootstrap/worker.ts:87-235 | the loop body makes exactly the calls that `PassOrder` is about |
| `Worker.PassOrder` | src/bootstrap/worker.ts:198-235 | a pass settles at most once, last, and with the handle that stop returned; it completes exactly when processing went through and the next slot, unless none is due or the vault declined it, was queued by a call that did not fail |
| `Worker.PassMakes` | src/bootstrap/worker.ts:198-235 | which calls a pass makes of its answers: the next synchronization is queued, with the payload and chain it names and for the slot after now, exactly when one is due and the credential is still there; the pass fails with the first error it met |
| `Chains.SucceededByCompletion` | src/infrastructure/queue/sqlite-job-queue.ts:133-150 | a succeeded row was completed by a handle that was valid then |
| `Chains.RowsPersist` | src/infrastructure/privacy/sqlite-privacy-repository.ts:170-179 | rows of a chain are never deleted unless the user of the chain is erased |
| `Chains.SuccessLeavesLaterSlot` | src/bootstrap/worker.ts:198-225 | in a run in which slots are queued before they are completed, a slot that succeeded has left a row for a strictly later slot |
| `Fleet.CompletionIsScheduled` | src/bootstrap/worker.ts:206-225 | a pass may complete a chain's job only if it was declined or its next slot was queued under the lease of the same pass |
| `Fleet.MoveKeepsOk` | src/bootstrap/worker.ts:87-235 | every lease, heartbeat action, decision, call and dropped call of a pass, and every call of others, keeps the invariant of the fleet |
| `Fleet.FleetAlwaysOk` | src/bootstrap/worker.ts:87-235 | any interleaving of passes yields only queue runs in which slots are queued, with the right slot and payload, before they are completed |
| `Fleet.ChainNeverEndsInSuccess` | src/bootstrap/worker.ts:87-235 | in every reachable state of any number of workers: if the latest slot of a chain has succeeded, the vault answered for that very job that the credential is gone; so a chain otherwise ends only by cancellation, dead letter or erasure of its user |
| `Heartbeat.JobLeaseHeartbeat.BeginRenewal` | src/application/queue/job-lease-heartbeat.ts:35-40 | starts a renewal with the current handle exactly when none is pending and the lease is not lost |
| `Heartbeat.JobLeaseHeartbeat.Renewed` | src/application/queue/job-lease-heartbeat.ts:42-51 | field by field: a granted renewal replaces the handle, a refusal loses the lease, an exception loses it only once the handle has expired |
| `Heartbeat.JobLeaseHeartbeat.DecideStop` | src/application/queue/job-lease-heartbeat.ts:25-33 | gives up exactly when lost or without expiry, renews once more exactly when at most 5 seconds remain |
| `Heartbeat.HeartbeatIsSafe` | src/application/queue/job-lease-heartbeat.ts:19-51 | under every interleaving at most one renewal is in flight, a refused renewal means stop returns nothing, a returned handle is carried from the worker's own lease |
| `Heartbeat.StopDecides` | src/application/queue/job-lease-heartbeat.ts:25-33 | in every interleaving stop gives up a lost lease, hands back a handle with more than five seconds left, and otherwise renews once more and lets the answer decide |
| `Heartbeat.StoppedWorkerSettlesItsOwnLease` | src/application/queue/job-lease-heartbeat.ts:25-33 | a settlement accepted with the handle from stop ends an unbroken hold since the worker's lease |
| `Heartbeat.StopReturnsLiveToken` | src/application/queue/job-lease-heartbeat.ts:25-51 | while the lease lives, the handle from stop is its live token if and only if no answer of a granted renewal was lost; otherwise the queue refuses it |
| `Heartbeat.MislaidForEver` | src/application/queue/job-lease-heartbeat.ts:42-51 | once the answer of a granted renewal is lost the worker never again has a handle that holds the row |
| `Evidence.StageKeepsOk` | src/store.ts:256-347 | staging keeps the evidence tables consistent |
| `Evidence.StageRecords` | src/store.ts:256-347 | afterwards the version is there for its organization and source and its contributor is recorded; no other evidence has changed |
| `Evidence.EraseInTwoSteps` | src/infrastructure/privacy/sqlite-privacy-repository.ts:112-159 | erasing one set of users and then another is erasing their union |
| `Evidence.ErasureIsConfluent` | src/infrastructure/privacy/sqlite-privacy-repository.ts:112-159 | erasing users one by one, in any order and with repetitions, leaves what erasing the set at once leaves |
| `Evidence.OrderDoesNotMatter` | src/infrastructure/privacy/sqlite-privacy-repository.ts:112-159 | two orders of the same users leave the same evidence |
| `Evidence.WhatErasureRemoves` | src/infrastructure/privacy/sqlite-privacy-repository.ts:112-159 | a version goes if and only if its source is mail, chat or a screenshot, it had contributors in the tenant and all of them are erased; its claims with it; a source if and only if all its versions went; contributions of nobody else go |
| `PrivacyRepository.SqlitePrivacyRepository.DeleteOrphans` | src/infrastructure/privacy/sqlite-privacy-repository.ts:140-153 | exactly the orphaned versions and their claims are deleted, and both counts are right |
| `PrivacyRepository.SqlitePrivacyRepository.EraseEvidence` | src/infrastructure/privacy/sqlite-privacy-repository.ts:112-159 | the deletes together are the erasure whose confluence is proved, with the three counts |
| `PrivacyRepository.SqlitePrivacyRepository.DeleteUserJobs` | src/infrastructure/privacy/sqlite-privacy-repository.ts:170-179 | exactly the tenant's jobs whose payload names the user are deleted and counted |
| `PrivacyRepository.SqlitePrivacyRepository.InsertReconcileJobs` | src/infrastructure/privacy/sqlite-privacy-repository.ts:203-226 | one queued reconcile job per affected organization, or failure exactly when a key is taken |
| `PrivacyRepository.SqlitePrivacyRepository.EraseAccount` | src/infrastructure/privacy/sqlite-privacy-repository.ts:102-254 | nothing for a non-member; rolled back exactly when the operation was used before for the user, an override signature must stay, or a reconcile key is taken; otherwise, read off the tables before and after: which evidence, jobs, identity and signatures go and which stay, one queued reconcile job for each organization that lost a version, and a report whose every number counts the rows that are gone |
| `PrivacyRepository.SqlitePrivacyRepository.RunErasure` | src/infrastructure/privacy/sqlite-privacy-repository.ts:107-252 | the deletes, updates and inserts of the transaction, in order, with its rollbacks, compute the functions that the results below are about |
| `PrivacyRepository.CommitsUnlessBlocked` | src/infrastructure/privacy/sqlite-privacy-repository.ts:188-252 | an erasure goes through if and only if, for a member, the operation is new, no override signature must stay and no reconcile key it needs is taken |
| `PrivacyRepository.EvidenceIsErased` | src/infrastructure/privacy/sqlite-privacy-repository.ts:112-159 | the versions, claims and contributions that are gone are exactly those that are only the member's own |
| `PrivacyRepository.ReportTells` | src/infrastructure/privacy/sqlite-privacy-repository.ts:227-239 | each number of the report is the number of rows that were there before and are gone, and the organizations are those of the versions that are gone |
| `PrivacyRepository.ErasureLeavesNothing` | src/infrastructure/privacy/sqlite-privacy-repository.ts:125-202 | a committed erasure leaves no membership, contribution, job, audit actor or override actor of the member in the tenant, and the identity exactly if it was there and another tenant needs it |
| `PrivacyRepository.LossIsReconciled` | src/infrastructure/privacy/sqlite-privacy-repository.ts:203-226 | every organization that lost a version has a queued reconcile job that names it |
| `PrivacyRepository.ErasureSparesOthers` | src/infrastructure/privacy/sqlite-privacy-repository.ts:125-226 | memberships, contributions, jobs, audit rows and overrides of others are untouched |
| `PrivacyRepository.RepeatedOperationRollsBack` | src/infrastructure/privacy/sqlite-privacy-repository.ts:240-252 | an operation id serves one erasure of a user; repeated after the user joined again it is rolled back |
| `Memberships.CounterCountsMemberships` | migrations/007_privacy_lifecycle.sql:29-44 | after any run of sign-ins and erasures the Postgres counter equals the number of membership rows, and both databases keep the same identities |
| `Memberships.MembersSignedInLast` | migrations/007_privacy_lifecycle.sql:29-44 | after any run a user is a member of a tenant if and only if the last event about both is a sign-in |
| `Memberships.StepKeepsTwins` | src/infrastructure/privacy/postgres-privacy-repository.ts:239-246 | the delete guarded by `membership_count=0` removes the identity in exactly the states in which SQLite's existence query does |
| `Reconciliation.EraseKeepsReconcileRows` | src/infrastructure/privacy/sqlite-privacy-repository.ts:170-226 | no erasure deletes or overwrites a reconcile job |
| `Reconciliation.ResolveCleans` | src/bootstrap/worker.ts:118-125 | after a resolve, complete or cut short, the organization's opportunities cite only its existing claims |
| `Reconciliation.StepKeepsSound` | src/infrastructure/privacy/sqlite-privacy-repository.ts:102-226 | every step of queue, staging, ingestion, resolving and erasure keeps the system invariant |
| `Reconciliation.NoDanglingCitationWithoutReconcile` | src/infrastructure/privacy/sqlite-privacy-repository.ts:142-226 | in every reachable state an organization's opportunities cite only existing claims of it, or a reconcile job for it exists that has not succeeded |
| `Reconciliation.ReconciledMeansClean` | src/infrastructure/privacy/sqlite-privacy-repository.ts:203-226 | once all its reconcile jobs have succeeded no opportunity of the organization cites erased claims |
| `Ingestion.VersionStore.StageSource` | src/store.ts:256-347 | a version is inserted once; it is to be processed exactly when new, received or retryable, and is then queued |
| `Ingestion.VersionStore.MarkSourceProcessing` | src/store.ts:354-367 | starts exactly from queued, retryable or received, counting the attempt; otherwise fails without a change |
| `Ingestion.VersionStore.CommitClaims` | src/ingest.ts:47-51 | claims and success are written together or not at all; rolled back exactly when the version is gone while there are claims, or the resolve in the same transaction fails |
| `Ingestion.VersionStore.MarkSourceFailed` | src/store.ts:378-397 | retryable before the fifth attempt, terminal from it on |
| `Ingestion.VersionStore.Ingest` | src/ingest.ts:16-65 | an unchanged version is left alone; otherwise one attempt is used, the call throws exactly when extraction or resolving does, claims appear only with success, other versions are untouched |
| `Ingestion.OneProcessorAtATime` | src/ingest.ts:21-65 | under every interleaving with crashes and no erasure of a version in work: one processor at a time, at most five extractions, claims only after success and from one committed attempt |
| `Ingestion.LeftBehindForEver` | src/store.ts:330-337 | a version that is settled, or was left queued or processing by a crash, is never worked on again |
| `Ingestion.ErasedInFlightIsWorkedOnTwice` | src/infrastructure/privacy/sqlite-privacy-repository.ts:142-153 | from every state with an extraction under way, erasing its version lets a second call work on it |
| `Resolver.ScoreInUnit` | src/resolver.ts:19-30 | a score lies between 0 and the claim's confidence |
| `Resolver.ScoreFallsWithAge` | src/resolver.ts:26-29 | a score falls strictly as its claim ages, until the claim is 360 days old, and is constant from then on |
| `Resolver.ScoreFollowsAuthority` | src/resolver.ts:5-15 | of equally old and confident claims the one from the source of higher authority scores higher, an unknown source lowest |
| `Resolver.ScoreClaims` | src/resolver.ts:48-52 | every claim id gets the score of its (last) claim by its source and age, within 0..1 when confidences are |
| `Resolver.SortSorts` | src/resolver.ts:31-39 | the sort is a descending permutation |
| `Resolver.SortHeadIsArgmax` | src/resolver.ts:58-60 | sort-then-take-first is the first claim with the largest key |
| `Resolver.BestIgnoresOrder` | src/resolver.ts:58-60 | with distinct keys the choice is the same for every order of the claims |
| `Resolver.PicksAreBest` | src/resolver.ts:54-60 | deadline and link have the best score of their field, the open statement is the newest; none only if the field has no claim |
| `Resolver.ApplicationIgnoresOrder` | src/resolver.ts:54-97 | with distinct scores and times the application opportunity is the same for every permutation of the claims |
| `Resolver.ApplicationTells` | src/resolver.ts:62-97 | for all claims, ties included: no application without a deadline claim and a statement; otherwise one whose every field follows from the picked deadline, link and statement: closed, reopened without a deadline, or dated and stale exactly once the deadline has passed, with the link, the larger score, the citations and the explanation |
| `Resolver.ClosedReopenedOrDated` | src/resolver.ts:54-97 | the same of whichever claims are the best deadline, the best link and the newest statement, any of which may be missing |
| `Resolver.EventsTell` | src/resolver.ts:99-117 | one opportunity for each event claim, in claim order, each with the id, title, start, precision, link, score and citation of its claim, and stale exactly once its start has passed |
| `Resolver.ResolveTells` | src/resolver.ts:62-126 | without overrides a resolve yields the application and the events just described and nothing else; overrides change neither their number nor their ids, kinds, confidences and citations |
| `Resolver.StalenessNeverReverts` | src/resolver.ts:71-75 | for fixed scores and no overrides no opportunity becomes fresh again as time passes |
| `Resolver.LastOverrideWins` | src/resolver.ts:118-126 | a patched field ends as the last override in creation order that sets it |
| `Resolver.UnsetFieldStays` | src/resolver.ts:118-126 | a field that no override sets, or of an opportunity that none reaches, stays as resolved |
| `Resolver.ReviewsAreRecorded` | src/resolver.ts:118-126 | every override adds its reason to the explanation of the opportunity that it reaches, in creation order, and marks it as reviewed |
| `Resolver.ResolvedIsWellFounded` | src/resolver.ts:76-117 | every resolved opportunity belongs to the organization, cites only the given claims and has a confidence in 0..1, overrides included |
| `Resolver.PushEvents` | src/resolver.ts:99-117 | the loop over the event claims yields one opportunity per claim with an object value, in order, that says field by field what the claim says |
| `Resolver.ApplyAll` | src/resolver.ts:118-126 | the loop over the overrides, each patching the first opportunity with its id, folds them in order |
| `Resolver.ResolveOrganization` | src/resolver.ts:41-126 | computes the function the results above are about; without overrides its output tells of the picks and of the event claims field by field |
| `Opportunities.OpportunityStore.ReplaceOpportunities` | src/store.ts:475-507 | the organization's rows are replaced by the new opportunities up to the first whose id belongs to another organization or came before; it throws exactly if there is one |
| `Opportunities.InsertedPrefix` | src/store.ts:475-507 | which opportunities get through: those before the first with a taken id, and the table then holds the rows that stay and them |
| `Opportunities.ReplaceSucceedsExactly` | src/store.ts:475-507 | the write succeeds if and only if ids are distinct and no other organization has one of them |
| `Opportunities.ResolveStoresExactly` | src/resolver.ts:41-127 | for all claims, scores, overrides and times: a resolve can be stored if and only if its event claims spell distinct ids and no other organization of the tenant has one of the ids |
| `Opportunities.SameEventTwiceFails` | src/resolver.ts:99-103 | for all claims, scores, overrides and times: two event claims that spell the same id make the write fail |
| `Opportunities.DifferentEventsCollide` | src/resolver.ts:103 | two pairs of different events that spell the same id |
| `Opportunities.ReplacedRows` | src/store.ts:475-507 | afterwards the organization's rows all come from the new list and other rows are untouched, also when cut short |
| `Opportunities.ReplaceIsIdempotent` | src/store.ts:475-507 | a write that ran through stores the whole list, and repeating it succeeds and changes nothing |
| `Opportunities.ReResolving` | src/resolver.ts:118-128 | stored opportunities depend only on claims, scores, overrides and time, not on what was stored before |
| `RateLimiter.InMemoryRateLimiter.Consume` | src/infrastructure/rate-limit/in-memory-rate-limiter.ts:10-24 | the call is counted in the key's open window or opens a new one; allowed, remaining and reset time follow from that count; while the map fits, only the key's bucket changes |
| `RateLimiter.InMemoryRateLimiter.Prune` | src/infrastructure/rate-limit/in-memory-rate-limiter.ts:25-32 | deleting while walking the map in insertion order prunes as described below |
| `RateLimiter.WindowLetsLimitThrough` | src/infrastructure/rate-limit/in-memory-rate-limiter.ts:10-24 | in the bounded limiter and amid calls for other keys, the window of an unevicted key lets exactly its first `limit` calls through, tells each how many are left, and ends one window after its first call |
| `RateLimiter.PruneRemovesOne` | src/infrastructure/rate-limit/in-memory-rate-limiter.ts:25-32 | with one bucket too many the oldest expired bucket goes, or the oldest one if none is expired and its key is not empty |
| `RateLimiter.PruneMeans` | src/infrastructure/rate-limit/in-memory-rate-limiter.ts:25-32 | however much too big the map is: no fewer than the maximum stay, unchanged and in order; expired buckets go first, oldest first, and one stays only when the map then fits exactly; an open one goes only when no expired one is left, and then only the oldest, unless its key is empty |
| `RateLimiter.SizeBoundExactly` | src/infrastructure/rate-limit/in-memory-rate-limiter.ts:20-31 | a call keeps the size bound if and only if it is not the case that the map is full, the key new, nothing expired and the oldest key empty |
| `RateLimiter.EmptyKeyStopsEviction` | src/infrastructure/rate-limit/in-memory-rate-limiter.ts:30-31 | behind an open bucket for the empty key every new key makes the map grow |
| `RateLimiter.EmptyKeyIsNeverEvicted` | src/infrastructure/rate-limit/in-memory-rate-limiter.ts:30-31 | a concrete call after which two buckets are kept where one is allowed |
| `RateLimiter.NonEmptyKeysFit` | src/infrastructure/rate-limit/in-memory-rate-limiter.ts:10-32 | over any run with non-empty keys the limiter never keeps more than its maximum |
| `RateLimiter.BoundedAnswersLikeUnbounded` | src/infrastructure/rate-limit/in-memory-rate-limiter.ts:10-32 | while at most the maximum number of windows is open at once, every answer equals that of a limiter that never forgets |
| `RateLimiter.UnevictedKeyIsExact` | src/infrastructure/rate-limit/in-memory-rate-limiter.ts:10-32 | a key that is never evicted gets the answers of the limiter that never forgets, whatever happens to other keys |
| `RateLimiter.AtMostTwiceTheLimit` | src/infrastructure/rate-limit/in-memory-rate-limiter.ts:10-24 | an unevicted key is let through at most twice the limit in any interval one window long |
| `ProviderHttp.RetryDelayMs` | src/infrastructure/outbound-http/provider-http-client.ts:86-94 | a pause after a 429 or 5xx answer is between 0 and 5 seconds whatever the Retry-After header says |
| `ProviderHttp.RetryAfterIsHonoured` | src/infrastructure/outbound-http/provider-http-client.ts:87-92 | a Retry-After in seconds or as a date is waited out up to five seconds and never exceeded |
| `ProviderHttp.BackoffDoubles` | src/infrastructure/outbound-http/provider-http-client.ts:93 | without a usable header the pause starts at 250 ms and doubles up to five seconds |
| `ProviderHttp.PauseIsRight` | src/infrastructure/outbound-http/provider-http-client.ts:54-73 | after every retryable attempt the pause is the one that the answer asks for, or the next of 250, 500, 1000, 2000, 4000, 5000 ms, or of 100, 200, 400, 800, 1000 ms after an exception |
| `ProviderHttp.ProviderHttpClient.Fetch` | src/infrastructure/outbound-http/provider-http-client.ts:37-83 | refused fetches make no call and change nothing; otherwise attempts go on to the first answer or oversized body, or the maximum; between them it waits the seconds or until the date of a Retry-After header within 5 seconds, else 250 ms doubling to 5 seconds, and 100 ms doubling to 1 second after an exception; success resets the counter, the fifth failure in a row opens the circuit for 30 seconds |
| `ProviderHttp.CounterIsFailedRun` | src/infrastructure/outbound-http/provider-http-client.ts:64-81 | after any history the counter is the current run of failed fetches modulo five, so below five |
| `ProviderHttp.DeadlineIsLastTrip` | src/infrastructure/outbound-http/provider-http-client.ts:77-81 | the circuit is open exactly while the 30 seconds after some fifth failure last |
| `ProviderHttp.RefusedExactlyWhileOpen` | src/infrastructure/outbound-http/provider-http-client.ts:41 | an allowlisted fetch is refused if and only if it starts within 30 seconds after a fifth failure ended |
| `ProviderHttp.RefusedAfterFive` | src/infrastructure/outbound-http/provider-http-client.ts:41-80 | after five failures without a success every fetch is refused for 30 seconds from the start of the first |
| `ProviderHttp.FailuresAreThrottled` | src/infrastructure/outbound-http/provider-http-client.ts:37-83 | in any 30 seconds without a success at most five fetches fail |
| `Ipv4.NumberRoundTrip` | src/url.ts:47-57 | dotted form and number determine each other on all 2^32 addresses |
| `Ipv4.AndMask` | src/url.ts:62-63 | masking clears exactly the low bits |
| `Ipv4.CidrIsInterval` | src/url.ts:58-64 | for every address, network and prefix the masked comparison is membership in an interval of 2^(32-prefix) addresses |
| `Ipv4.PublicMeansUnreserved` | src/url.ts:65-86 | an IPv4 address is public if and only if its octets are in none of the reserved ranges |
| `Ipv4.MappedFormsAgree` | src/url.ts:96-103 | the hexadecimal IPv4-mapped form (section 2.5.5.2 of RFC 4291) embeds the same address and is classified alike |
| `Ipv4.EveryHexFormEmbeds` | src/url.ts:98-103 | every pair of 16-bit groups embeds an address that is spelled by that pair |

## Left out

- HTTP routes, cookies, user interface, configuration, logging, metrics: plumbing without deep state.
- Provider connectors, OAuth, OIDC, DNS, encryption, hashing: foreign calls or primitives; hashes are taken as injective.
- Regular-expression extraction, HTML stripping and time zones: they depend on engines and data outside the repository.
- Postgres row locks, `skip locked`, row-level security and role grants: every SQL function is one atomic step.
- Postgres `cancelPending`, which does not redact payloads, and the lease-length limits of `app.lease_job` and `app.renew_job_lease`; `app.run_maintenance`.
- Nested use of one SQLite connection through `transactionDepth`: transactions do not interleave.
- Queue statistics, tenant rows and secondary columns (`next_attempt_at`, `resolvedAt`, `resolverVersion`, titles of sources): they would add only easy members.
- Credentials, sessions and connector state in the erasure transaction: single deletes by user, independent of the rest.
- Link following in `ingest`: the children are further ingest calls, which the interleaving model already allows.
- Credential refresh racing with revocation, and client keys that begin with `scheduled:`: excluded by assumption.
- String parsing of addresses, and native IPv6 prefixes in `isPublicIp`: prefix tests on text.
- Resolver.ScoreInUnit: arithmetic is over real numbers, without floating-point rounding.
- Resolver.ResolveOrganization: a JSON `null` for a title or start of an event counts as absent, and patches set fields to values, never to null.
- Heartbeat.StopReturnsLiveToken: about workers whose handles nobody else renews, as in the worker loop.
- Fleet.ChainNeverEndsInSuccess: about chains whose user is not erased during the run; erasing the user is meant to end them.
