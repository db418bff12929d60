/**
 The durable job queue as values: job rows, leased handles, and the effect of
 each queue operation on the table of rows and on the per-tenant lease clock.
 Times are milliseconds.  A row is identified by the columns of the table's
 uniqueness constraint (tenant, type, idempotency key).
 */
module Jobs {
  import opened Prelude

  type TenantId = string
  type UserId = string
  type OrgId = string
  type WorkerId = string

  datatype JobType = IngestUrl | IngestScreenshot | ConnectorSync | PrivacyReconcile | OtherType(name: string)

  /** The recurring chain that a scheduled synchronization job belongs to. */
  datatype Chain = Chain(provider: string, user: UserId, org: OrgId, scope: string)

  datatype Key =
    | ClientKey(text: string)
    | ScheduledKey(chain: Chain, slot: nat)
    | PrivacyKey(user: UserId, operation: string, org: OrgId)

  datatype JobId = JobId(tenant: TenantId, jobType: JobType, key: Key)

  datatype Json = Str(s: string) | Bool(b: bool) | Time(ms: nat) | Other(text: string)
  type Payload = map<string, Json>

  datatype Status = Queued | Running | Succeeded | RetryableFailed | DeadLetter | Cancelled

  datatype Row = Row(
    payload: Payload, status: Status, priority: int,
    attemptCount: nat, maxAttempts: int, availableAt: nat,
    leasedBy: Option<WorkerId>, leasedUntil: Option<nat>,
    lastError: Option<string>, createdAt: nat, updatedAt: nat)

  /** What `leaseNext` and `renewLease` hand to a worker. */
  datatype Handle = Handle(
    id: JobId, payload: Payload, attemptCount: nat, maxAttempts: int,
    leasedBy: Option<WorkerId>, leasedUntil: Option<nat>)

  type Rows = map<JobId, Row>
  datatype Queue = Queue(rows: Rows, lastLeased: map<TenantId, nat>)

  datatype EnqueueInput = EnqueueInput(
    id: JobId, payload: Payload,
    priority: Option<int>, maxAttempts: Option<int>, availableAt: Option<nat>)

  // ---------------------------------------------------------------- payloads

  /** What is left of a redacted payload: a note that it was redacted, and when. */
  function RedactedPayload(now: nat): (p: Payload)
    ensures p.Keys == {"retentionRedacted", "redactedAt", "reason"}
  {
    map["retentionRedacted" := Bool(true), "redactedAt" := Time(now), "reason" := Str("terminal-screenshot-job")]
  }

  /** Nothing but the note is left. */
  predicate IsRedacted(p: Payload) {
    && p.Keys == {"retentionRedacted", "redactedAt", "reason"}
    && p["retentionRedacted"] == Bool(true) && p["reason"] == Str("terminal-screenshot-job")
  }

  /** A screenshot row drops its payload when it leaves the live states. */
  function Retained(id: JobId, p: Payload, now: nat): Payload {
    if id.jobType == IngestScreenshot then RedactedPayload(now) else p
  }

  predicate OwnedByUser(p: Payload, user: UserId) {
    "userId" in p && p["userId"] == Str(user)
  }

  predicate MatchesPattern(p: Payload, pattern: map<string, string>) {
    forall k | k in pattern :: k in p && p[k] == Str(pattern[k])
  }

  function ErrorText(error: string): string {
    if |error| <= 500 then error else error[..500]
  }

  // ----------------------------------------------------------------- enqueue

  function FreshRow(input: EnqueueInput, now: nat): Row {
    Row(input.payload, Queued, GetOr(input.priority, 100), 0, GetOr(input.maxAttempts, 5),
        GetOr(input.availableAt, now), None, None, None, now, now)
  }

  /** The row is written only when it is new or was cancelled. */
  predicate TakesEffect(rows: Rows, id: JobId) {
    id !in rows || rows[id].status == Cancelled
  }

  function Enqueue(rows: Rows, input: EnqueueInput, now: nat): Rows {
    if input.id !in rows then rows[input.id := FreshRow(input, now)]
    else if rows[input.id].status == Cancelled then
      rows[input.id := FreshRow(input, now).(createdAt := rows[input.id].createdAt)]
    else rows
  }

  // ------------------------------------------------------------------ cancel

  predicate Pending(row: Row) {
    row.status == Queued || row.status == RetryableFailed
  }

  predicate Cancellable(id: JobId, row: Row, tenant: TenantId, jobType: JobType, pattern: map<string, string>) {
    id.tenant == tenant && id.jobType == jobType && Pending(row) && MatchesPattern(row.payload, pattern)
  }

  function CancelledRow(id: JobId, row: Row, now: nat): Row {
    row.(status := Cancelled, leasedBy := None, leasedUntil := None,
         lastError := Some("Cancelled by connector revocation"),
         payload := Retained(id, row.payload, now), updatedAt := now)
  }

  function CancelPending(rows: Rows, tenant: TenantId, jobType: JobType, pattern: map<string, string>, now: nat): Rows {
    map id | id in rows ::
      if Cancellable(id, rows[id], tenant, jobType, pattern) then CancelledRow(id, rows[id], now) else rows[id]
  }

  // ------------------------------------------------------------------- lease

  predicate LeaseExpired(row: Row, now: nat) {
    row.leasedUntil.Some? && row.leasedUntil.value < now
  }

  predicate ExpiredFinal(row: Row, now: nat) {
    row.status == Running && LeaseExpired(row, now) && row.attemptCount >= row.maxAttempts
  }

  function DeadLettered(id: JobId, row: Row, now: nat): Row {
    row.(status := DeadLetter, leasedBy := None, leasedUntil := None,
         lastError := Some("Worker lease expired after final attempt"),
         payload := Retained(id, row.payload, now), updatedAt := now)
  }

  /** Running rows whose final attempt ran out of lease are dead-lettered before a lease is granted. */
  function Sweep(rows: Rows, now: nat): Rows {
    map id | id in rows :: if ExpiredFinal(rows[id], now) then DeadLettered(id, rows[id], now) else rows[id]
  }

  predicate Ready(row: Row, now: nat) {
    || (Pending(row) && row.availableAt <= now && (row.leasedUntil == None || LeaseExpired(row, now)))
    || (row.status == Running && LeaseExpired(row, now) && row.attemptCount < row.maxAttempts)
  }

  function LastLeased(q: Queue, tenant: TenantId): nat {
    if tenant in q.lastLeased then q.lastLeased[tenant] else 0
  }

  /** Order inside one tenant: priority number, then age. */
  predicate RowLeq(a: Row, b: Row) {
    a.priority < b.priority || (a.priority == b.priority && a.createdAt <= b.createdAt)
  }

  /** Order across tenants: least recently leased tenant first, then the row order. */
  predicate Before(q: Queue, a: JobId, b: JobId)
    requires a in q.rows && b in q.rows
  {
    || LastLeased(q, a.tenant) < LastLeased(q, b.tenant)
    || (LastLeased(q, a.tenant) == LastLeased(q, b.tenant) && RowLeq(q.rows[a], q.rows[b]))
  }

  /** `id` is a row that leaseNext may pick from the swept table `q`. */
  ghost predicate IsNext(q: Queue, id: JobId, now: nat) {
    && id in q.rows && Ready(q.rows[id], now)
    && forall j | j in q.rows && Ready(q.rows[j], now) :: Before(q, id, j)
  }

  ghost predicate NoneReady(q: Queue, now: nat) {
    forall j | j in q.rows :: !Ready(q.rows[j], now)
  }

  function Swept(q: Queue, now: nat): Queue { q.(rows := Sweep(q.rows, now)) }

  function LeasedRow(row: Row, worker: WorkerId, until: nat, now: nat): Row {
    row.(status := Running, attemptCount := row.attemptCount + 1,
         leasedBy := Some(worker), leasedUntil := Some(until), updatedAt := now)
  }

  function Lease(q: Queue, id: JobId, worker: WorkerId, leaseMs: nat, now: nat): Queue
    requires id in q.rows
  {
    Queue(Sweep(q.rows, now)[id := LeasedRow(Sweep(q.rows, now)[id], worker, now + leaseMs, now)],
          q.lastLeased[id.tenant := now])
  }

  /** An empty worker id is read back as no owner at all. */
  function OwnerOf(worker: WorkerId): Option<WorkerId> {
    if worker == "" then None else Some(worker)
  }

  function HandleOf(id: JobId, row: Row): Handle {
    Handle(id, row.payload, row.attemptCount, row.maxAttempts,
           if row.leasedBy.Some? then OwnerOf(row.leasedBy.value) else None, row.leasedUntil)
  }

  // -------------------------------------------------------- renew and settle

  /** The fencing test shared by renewLease, complete and fail, without the clock. */
  predicate Holds(rows: Rows, h: Handle) {
    && h.leasedBy.Some? && h.leasedUntil.Some?
    && h.id in rows && rows[h.id].status == Running
    && rows[h.id].leasedBy == h.leasedBy && rows[h.id].leasedUntil == h.leasedUntil
  }

  predicate Valid(rows: Rows, h: Handle, now: nat) {
    Holds(rows, h) && h.leasedUntil.value > now
  }

  function Renew(rows: Rows, h: Handle, leaseMs: nat, now: nat): Rows {
    if Valid(rows, h, now)
    then rows[h.id := rows[h.id].(leasedUntil := Some(now + leaseMs), updatedAt := now)]
    else rows
  }

  function RenewedHandle(h: Handle, leaseMs: nat, now: nat): Handle {
    h.(leasedUntil := Some(now + leaseMs))
  }

  function CompletedRow(id: JobId, row: Row, now: nat): Row {
    row.(status := Succeeded, leasedBy := None, leasedUntil := None, lastError := None,
         payload := Retained(id, row.payload, now), updatedAt := now)
  }

  function Complete(rows: Rows, h: Handle, now: nat): Rows {
    if Valid(rows, h, now) then rows[h.id := CompletedRow(h.id, rows[h.id], now)] else rows
  }

  /** Retry delay in seconds. */
  function RetryDelay(attempt: nat): (delay: nat)
    ensures 1 <= delay <= 900
  {
    Min(900, Pow2(Min(attempt, 9)))
  }

  /** The delay doubles with every attempt up to 512 seconds, so the cap of 900 is never reached. */
  lemma RetryDelayDoubles(attempt: nat)
    ensures attempt < 9 ==> RetryDelay(attempt + 1) == 2 * RetryDelay(attempt)
    ensures attempt >= 9 ==> RetryDelay(attempt) == 512
    ensures RetryDelay(1) == 2
  {
    assert Pow2(4) == 16;
    assert Pow2(9) == 32 * Pow2(4);
    if attempt < 9 { Pow2Monotone(attempt + 1, 9); }
  }

  function FailedRow(id: JobId, row: Row, terminal: bool, delay: nat, error: string, now: nat): Row {
    row.(status := if terminal then DeadLetter else RetryableFailed,
         availableAt := now + delay * 1000, leasedBy := None, leasedUntil := None,
         lastError := Some(ErrorText(error)),
         payload := if terminal then Retained(id, row.payload, now) else row.payload, updatedAt := now)
  }

  /** SQLite `fail`: the decision is taken from the handle. */
  function Fail(rows: Rows, h: Handle, error: string, now: nat): Rows {
    if Valid(rows, h, now)
    then rows[h.id := FailedRow(h.id, rows[h.id], h.attemptCount >= h.maxAttempts, RetryDelay(h.attemptCount), error, now)]
    else rows
  }

  // ----------------------------------------------------------- Postgres twin

  /** `app.finish_job`: the decision is taken from the row. */
  function FinishJob(rows: Rows, h: Handle, failure: Option<string>, now: nat): Rows {
    if !Valid(rows, h, now) then rows
    else
      var row := rows[h.id];
      if failure == None then rows[h.id := CompletedRow(h.id, row, now)]
      else if row.attemptCount >= row.maxAttempts then
        rows[h.id := FailedRow(h.id, row, true, 0, failure.value, now).(availableAt := row.availableAt)]
      else
        rows[h.id := FailedRow(h.id, row, false, RetryDelay(row.attemptCount), failure.value, now)]
  }

  // ----------------------------------------------------------------- erasure

  function ReconcilePayload(org: OrgId): Payload { map["organizationId" := Str(org)] }

  function ReconcileId(tenant: TenantId, user: UserId, operation: string, org: OrgId): JobId {
    JobId(tenant, PrivacyReconcile, PrivacyKey(user, operation, org))
  }

  function ReconcileRow(org: OrgId, now: nat): Row {
    Row(ReconcilePayload(org), Queued, 10, 0, 5, now, None, None, None, now, now)
  }

  function WithoutUserJobs(rows: Rows, tenant: TenantId, user: UserId): Rows {
    map id | id in rows && !(id.tenant == tenant && OwnedByUser(rows[id].payload, user)) :: rows[id]
  }

  predicate ReconcileClash(rows: Rows, tenant: TenantId, user: UserId, operation: string, orgs: set<OrgId>) {
    exists o | o in orgs :: ReconcileId(tenant, user, operation, o) in WithoutUserJobs(rows, tenant, user)
  }

  function ReconcileIds(tenant: TenantId, user: UserId, operation: string, orgs: set<OrgId>): set<JobId> {
    set o | o in orgs :: ReconcileId(tenant, user, operation, o)
  }

  function InsertReconciles(rows: Rows, tenant: TenantId, user: UserId, operation: string, orgs: set<OrgId>, now: nat): Rows {
    rows + map id: JobId | id in ReconcileIds(tenant, user, operation, orgs) :: ReconcileRow(id.key.org, now)
  }

  /** Job rows after one account erasure: the user's jobs go, one reconcile job per affected organization comes. */
  function EraseJobs(rows: Rows, tenant: TenantId, user: UserId, operation: string, orgs: set<OrgId>, now: nat): Rows {
    InsertReconciles(WithoutUserJobs(rows, tenant, user), tenant, user, operation, orgs, now)
  }
}
