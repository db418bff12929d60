/**
 Every run of the job queue: any number of workers and callers interleave
 enqueue, cancelPending, leaseNext, renewLease, complete, fail and account
 erasure, each as one atomic step that reads the clock once.
 */
module QueueRuns {
  import opened Prelude
  import opened Jobs

  /** The worker leases and renews for one constant length. */
  const LEASE_MS: nat := 60000

  datatype Event =
    | Enqueueing(input: EnqueueInput)
    | Cancelling(tenant: TenantId, jobType: JobType, pattern: map<string, string>)
    | Leasing(worker: WorkerId, id: JobId)
    | LeasingNothing(worker: WorkerId)
    | Renewing(handle: Handle)
    | Completing(handle: Handle)
    | Failing(handle: Handle, error: string)
    | Erasing(eraseTenant: TenantId, user: UserId, operation: string, orgs: set<OrgId>)

  datatype Step = Step(now: nat, event: Event)

  /** `issued` holds every handle the queue has ever returned to anybody. */
  datatype World = World(queue: Queue, clock: nat, issued: set<Handle>)

  const Empty := World(Queue(map[], map[]), 0, {})

  predicate Grants(e: Event) { e.Leasing? || e.Renewing? }

  /** The clock never runs backwards and has moved on whenever a lease is granted or extended. */
  predicate ClockMoves(w: World, s: Step) {
    w.clock <= s.now && (Grants(s.event) ==> w.clock < s.now)
  }

  /** A call is made with a handle the queue returned earlier; a lease picks a row leaseNext may pick. */
  ghost predicate Enabled(w: World, s: Step) {
    && ClockMoves(w, s)
    && match s.event
       case Leasing(_, id) => IsNext(Swept(w.queue, s.now), id, s.now)
       case LeasingNothing(_) => NoneReady(Swept(w.queue, s.now), s.now)
       case Renewing(h) => h in w.issued
       case Completing(h) => h in w.issued
       case Failing(h, _) => h in w.issued
       case Erasing(t, u, op, orgs) => !ReconcileClash(w.queue.rows, t, u, op, orgs)
       case _ => true
  }

  ghost function QueueAfter(w: World, s: Step): Queue
    requires Enabled(w, s)
  {
    var q := w.queue;
    match s.event
    case Enqueueing(input) => q.(rows := Enqueue(q.rows, input, s.now))
    case Cancelling(t, jt, pattern) => q.(rows := CancelPending(q.rows, t, jt, pattern, s.now))
    case Leasing(worker, id) => Lease(q, id, worker, LEASE_MS, s.now)
    case LeasingNothing(_) => Swept(q, s.now)
    case Renewing(h) => q.(rows := Renew(q.rows, h, LEASE_MS, s.now))
    case Completing(h) => q.(rows := Complete(q.rows, h, s.now))
    case Failing(h, error) => q.(rows := Fail(q.rows, h, error, s.now))
    case Erasing(t, u, op, orgs) => q.(rows := EraseJobs(q.rows, t, u, op, orgs, s.now))
  }

  /** The handle a step returns to its caller, if any. */
  ghost function Returned(w: World, s: Step): Option<Handle>
    requires Enabled(w, s)
  {
    match s.event
    case Leasing(worker, id) => Some(HandleOf(id, QueueAfter(w, s).rows[id]))
    case Renewing(h) => if Valid(w.queue.rows, h, s.now) then Some(RenewedHandle(h, LEASE_MS, s.now)) else None
    case _ => None
  }

  ghost function After(w: World, s: Step): World
    requires Enabled(w, s)
  {
    var returned := Returned(w, s);
    World(QueueAfter(w, s), s.now, if returned.Some? then w.issued + {returned.value} else w.issued)
  }

  datatype Run = Run(worlds: seq<World>, steps: seq<Step>)

  ghost predicate ValidRun(r: Run) {
    && |r.worlds| == |r.steps| + 1
    && r.worlds[0] == Empty
    && forall k {:trigger r.steps[k]} | 0 <= k < |r.steps| :: Enabled(r.worlds[k], r.steps[k]) && r.worlds[k + 1] == After(r.worlds[k], r.steps[k])
  }

  // ------------------------------------------------------------- invariants

  predicate Terminal(s: Status) { s == Succeeded || s == DeadLetter }

  predicate RowOk(id: JobId, row: Row) {
    && (row.status == Running <==> row.leasedBy.Some?)
    && (row.status == Running <==> row.leasedUntil.Some?)
    && row.attemptCount <= Max(1, row.maxAttempts)
    && (row.status == Queued ==> row.attemptCount == 0)
    && (row.status == RetryableFailed ==> 1 <= row.attemptCount < row.maxAttempts)
    && (row.status == Running ==> 1 <= row.attemptCount)
    && (id.jobType == IngestScreenshot && (Terminal(row.status) || row.status == Cancelled) ==> IsRedacted(row.payload))
  }

  predicate RowsOk(rows: Rows) { forall id | id in rows :: RowOk(id, rows[id]) }

  /** A handle that still holds its row agrees with that row on everything a settlement reads. */
  predicate Agrees(rows: Rows, h: Handle) {
    Holds(rows, h) ==>
      && h.attemptCount == rows[h.id].attemptCount
      && h.maxAttempts == rows[h.id].maxAttempts
      && h.payload == rows[h.id].payload
  }

  predicate HandleOk(w: World, h: Handle) {
    h.leasedUntil.Some? && h.leasedUntil.value <= w.clock + LEASE_MS && Agrees(w.queue.rows, h)
  }

  predicate HandlesOk(w: World) { forall h | h in w.issued :: HandleOk(w, h) }

  predicate LeaseClocksOk(w: World) { forall t | t in w.queue.lastLeased :: w.queue.lastLeased[t] <= w.clock }

  predicate Inv(w: World) { RowsOk(w.queue.rows) && HandlesOk(w) && LeaseClocksOk(w) }

  lemma SweepKeepsRowsOk(rows: Rows, now: nat)
    requires RowsOk(rows)
    ensures RowsOk(Sweep(rows, now))
  {
  }

  lemma LeaseKeepsRowsOk(q: Queue, id: JobId, worker: WorkerId, now: nat)
    requires RowsOk(q.rows) && IsNext(Swept(q, now), id, now)
    ensures RowsOk(Lease(q, id, worker, LEASE_MS, now).rows)
  {
    SweepKeepsRowsOk(q.rows, now);
    assert RowOk(id, Sweep(q.rows, now)[id]);
  }

  lemma SettleKeepsRowsOk(rows: Rows, h: Handle, error: string, now: nat)
    requires RowsOk(rows) && Agrees(rows, h)
    ensures RowsOk(Renew(rows, h, LEASE_MS, now)) && RowsOk(Complete(rows, h, now)) && RowsOk(Fail(rows, h, error, now))
  {
  }

  lemma EditKeepsRowsOk(rows: Rows, s: Step)
    requires RowsOk(rows)
    ensures s.event.Enqueueing? ==> RowsOk(Enqueue(rows, s.event.input, s.now))
    ensures s.event.Cancelling? ==> RowsOk(CancelPending(rows, s.event.tenant, s.event.jobType, s.event.pattern, s.now))
    ensures s.event.Erasing? ==> RowsOk(EraseJobs(rows, s.event.eraseTenant, s.event.user, s.event.operation, s.event.orgs, s.now))
  {
  }

  lemma StepKeepsRowsOk(w: World, s: Step)
    requires Inv(w) && Enabled(w, s)
    ensures RowsOk(After(w, s).queue.rows)
  {
    var rows := w.queue.rows;
    EditKeepsRowsOk(rows, s);
    match s.event
    case Leasing(worker, id) => LeaseKeepsRowsOk(w.queue, id, worker, s.now);
    case LeasingNothing(_) => SweepKeepsRowsOk(rows, s.now);
    case Renewing(h) => assert HandleOk(w, h); SettleKeepsRowsOk(rows, h, "", s.now);
    case Completing(h) => assert HandleOk(w, h); SettleKeepsRowsOk(rows, h, "", s.now);
    case Failing(h, error) => assert HandleOk(w, h); SettleKeepsRowsOk(rows, h, error, s.now);
    case _ =>
  }

  /** A handle issued before a step holds a row after it only if it held the same row before it. */
  lemma HeldBeforeStep(w: World, s: Step, h: Handle)
    requires Inv(w) && Enabled(w, s) && h.leasedUntil.Some? && h.leasedUntil.value <= w.clock + LEASE_MS
    requires Holds(After(w, s).queue.rows, h)
    ensures Holds(w.queue.rows, h)
    ensures After(w, s).queue.rows[h.id] == w.queue.rows[h.id]
  {
  }

  lemma StepKeepsHandlesOk(w: World, s: Step)
    requires Inv(w) && Enabled(w, s)
    ensures HandlesOk(After(w, s))
  {
    var w' := After(w, s);
    forall h | h in w'.issued
      ensures HandleOk(w', h)
    {
      if h in w.issued {
        assert HandleOk(w, h);
        if Holds(w'.queue.rows, h) { HeldBeforeStep(w, s, h); }
      } else if s.event.Renewing? {
        assert HandleOk(w, s.event.handle);
      }
    }
  }

  lemma StepKeepsInv(w: World, s: Step)
    requires Inv(w) && Enabled(w, s)
    ensures Inv(After(w, s))
  {
    StepKeepsRowsOk(w, s);
    StepKeepsHandlesOk(w, s);
  }

  lemma {:induction false} InvAlways(r: Run, n: nat)
    requires ValidRun(r) && n < |r.worlds|
    ensures Inv(r.worlds[n])
  {
    if n > 0 {
      InvAlways(r, n - 1);
      assert r.worlds[n - 1 + 1] == After(r.worlds[n - 1], r.steps[n - 1]);
      StepKeepsInv(r.worlds[n - 1], r.steps[n - 1]);
    }
  }
}
