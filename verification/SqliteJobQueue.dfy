/**
 The SQLite queue object: the two tables it updates in place, and its methods
 proved against the value-level operations of module Jobs.
 */
module SqliteQueue {
  import opened Prelude
  import opened Jobs
  import Fairness

  class SqliteJobQueue {
    var rows: Rows
    var lastLeased: map<TenantId, nat>

    function Contents(): Queue
      reads this
    {
      Queue(rows, lastLeased)
    }

    constructor ()
      ensures Contents() == Queue(map[], map[])
    {
      rows, lastLeased := map[], map[];
    }

    method Enqueue(input: EnqueueInput, now: nat) returns (row: Row)
      modifies this
      ensures Contents() == old(Contents()).(rows := Jobs.Enqueue(old(rows), input, now))
      ensures input.id in rows && row == rows[input.id]
      ensures input.id in old(rows) && old(rows)[input.id].status != Cancelled ==> rows == old(rows)
      ensures input.id !in old(rows) || old(rows)[input.id].status == Cancelled ==>
        && row.status == Queued && row.payload == input.payload && row.attemptCount == 0
        && row.priority == (if input.priority.Some? then input.priority.value else 100)
        && row.maxAttempts == (if input.maxAttempts.Some? then input.maxAttempts.value else 5)
        && row.availableAt == (if input.availableAt.Some? then input.availableAt.value else now)
        && row.leasedBy == None && row.leasedUntil == None && row.lastError == None && row.updatedAt == now
        && row.createdAt == (if input.id in old(rows) then old(rows)[input.id].createdAt else now)
      ensures rows.Keys == old(rows).Keys + {input.id} && forall j | j in old(rows) && j != input.id :: rows[j] == old(rows)[j]
    {
      if input.id !in rows {
        rows := rows[input.id := FreshRow(input, now)];
      } else if rows[input.id].status == Cancelled {
        rows := rows[input.id := FreshRow(input, now).(createdAt := rows[input.id].createdAt)];
      }
      row := rows[input.id];
    }

    method CancelPending(tenant: TenantId, jobType: JobType, pattern: map<string, string>, now: nat) returns (cancelled: nat)
      modifies this
      ensures Contents() == old(Contents()).(rows := Jobs.CancelPending(old(rows), tenant, jobType, pattern, now))
      ensures rows.Keys == old(rows).Keys
      ensures forall id | id in rows :: CancelledIfPending(id, old(rows)[id], rows[id], tenant, jobType, pattern, now)
      ensures cancelled == |set id | id in rows && old(rows)[id].status != Cancelled && rows[id].status == Cancelled|
    {
      hide CancelledIfPending, Cancellable, CancelledRow;
      var ids := Selected(rows, tenant, jobType, pattern);
      SelectedArePending(rows, tenant, jobType, pattern, now);
      var todo := ids;
      cancelled := 0;
      while todo != {}
        invariant todo <= ids <= old(rows).Keys && lastLeased == old(lastLeased)
        invariant cancelled == |ids| - |todo|
        invariant rows == CancelSome(old(rows), ids - todo, now)
      {
        var id :| id in todo;
        CancelOneMore(old(rows), ids - todo, id, now);
        assert ids - (todo - {id}) == ids - todo + {id};
        if Pending(rows[id]) {  // the update checks the status again
          rows := rows[id := CancelledRow(id, rows[id], now)];
          cancelled := cancelled + 1;
        }
        todo := todo - {id};
      }
      assert ids - todo == ids;
      CancelledRows(old(rows), tenant, jobType, pattern, now);
    }

    method LeaseNext(worker: WorkerId, leaseMs: nat, now: nat) returns (job: Option<Handle>)
      modifies this
      ensures job.None? ==> NoneReady(Swept(old(Contents()), now), now) && Contents() == Swept(old(Contents()), now)
      ensures job.Some? ==>
        && IsNext(Swept(old(Contents()), now), job.value.id, now)
        && Contents() == Lease(old(Contents()), job.value.id, worker, leaseMs, now)
        && job.value == HandleOf(job.value.id, rows[job.value.id])
      // every other row is left alone, or dead-lettered when its final attempt has run out of lease
      ensures rows.Keys == old(rows).Keys
      ensures forall id | id in rows && (job.Some? ==> id != job.value.id) :: DeadIfAbandoned(id, old(rows)[id], rows[id], now)
      // whenever some row is free a row is leased, and no free row comes before it
      ensures forall j | j in old(rows) && IsFree(old(rows)[j], now) ::
        job.Some? && ComesFirst(old(rows), old(lastLeased), job.value.id, j)
      // the leased row was free, and the handle says what is now stored
      ensures job.None? ==> lastLeased == old(lastLeased)
      ensures job.Some? ==>
        && job.value.id in old(rows) && IsFree(old(rows)[job.value.id], now)
        && var row := old(rows)[job.value.id];
        && rows[job.value.id] == row.(status := Running, attemptCount := row.attemptCount + 1,
                                      leasedBy := Some(worker), leasedUntil := Some(now + leaseMs), updatedAt := now)
        && lastLeased == old(lastLeased)[job.value.id.tenant := now]
        && job.value.payload == row.payload && job.value.attemptCount == row.attemptCount + 1 && job.value.maxAttempts == row.maxAttempts
        && job.value.leasedUntil == Some(now + leaseMs) && job.value.leasedBy == if worker == "" then None else Some(worker)
    {
      SweptRows(Contents(), now);
      hide IsFree, ComesFirst, DeadIfAbandoned, Ready, Before, Sweep;
      rows := Sweep(rows, now);
      var id := PickNext(now);
      if id.None? { return None; }
      NextComesFirst(old(Contents()), id.value, now);
      rows := rows[id.value := LeasedRow(rows[id.value], worker, now + leaseMs, now)];
      lastLeased := lastLeased[id.value.tenant := now];
      job := Some(HandleOf(id.value, rows[id.value]));
    }

    /** The query: rank the ready rows of every tenant, then take the first of the first ones. */
    method PickNext(now: nat) returns (id: Option<JobId>)
      ensures id.None? ==> NoneReady(Contents(), now)
      ensures id.Some? ==> IsNext(Contents(), id.value, now)
    {
      var ready := set j | j in rows && Ready(rows[j], now);
      if ready == {} {
        forall j | j in rows
          ensures !Ready(rows[j], now)
        {
          assert j !in ready;
        }
        return None;
      }
      var ranked := set j | j in ready && forall k | k in ready && k.tenant == j.tenant :: RowLeq(rows[j], rows[k]);
      ghost var least := Fairness.LeastExists(Contents(), ready);
      assert least in ranked && forall k | k in ranked :: Before(Contents(), least, k);
      var first :| first in ranked && forall k | k in ranked :: Before(Contents(), first, k);
      RankedIsNext(first, least, ready, now);
      id := Some(first);
    }

    lemma RankedIsNext(id: JobId, least: JobId, ready: set<JobId>, now: nat)
      requires ready == set j | j in rows && Ready(rows[j], now)
      requires id in ready && least in ready && Before(Contents(), id, least)
      requires forall j | j in ready :: Before(Contents(), least, j)
      ensures IsNext(Contents(), id, now)
    {
      forall j | j in rows && Ready(rows[j], now)
        ensures Before(Contents(), id, j)
      {
        assert j in ready;
      }
    }

    method RenewLease(job: Handle, leaseMs: nat, now: nat) returns (renewed: Option<Handle>)
      modifies this
      ensures Contents() == old(Contents()).(rows := Renew(old(rows), job, leaseMs, now))
      ensures renewed.Some? <==> Owns(old(rows), job, now)
      ensures renewed.None? ==> rows == old(rows)
      ensures renewed.Some? ==>
        && renewed.value == job.(leasedUntil := Some(now + leaseMs))
        && rows == old(rows)[job.id := old(rows)[job.id].(leasedUntil := Some(now + leaseMs), updatedAt := now)]
    {
      if job.leasedBy.None? || job.leasedUntil.None? { return None; }
      if Valid(rows, job, now) {
        rows := rows[job.id := rows[job.id].(leasedUntil := Some(now + leaseMs), updatedAt := now)];
        renewed := Some(RenewedHandle(job, leaseMs, now));
      } else {
        renewed := None;
      }
    }

    /** `settled` is false where the source throws. */
    method Complete(job: Handle, now: nat) returns (settled: bool)
      modifies this
      ensures Contents() == old(Contents()).(rows := Jobs.Complete(old(rows), job, now))
      ensures settled <==> Owns(old(rows), job, now)
      ensures !settled ==> rows == old(rows)
      ensures settled ==>
        && rows == old(rows)[job.id := old(rows)[job.id].(status := Succeeded, leasedBy := None, leasedUntil := None,
                                                         lastError := None, payload := rows[job.id].payload, updatedAt := now)]
        && (job.id.jobType == IngestScreenshot ==> rows[job.id].payload.Keys == {"retentionRedacted", "redactedAt", "reason"})
        && (job.id.jobType != IngestScreenshot ==> rows[job.id].payload == old(rows)[job.id].payload)
    {
      settled := Valid(rows, job, now);
      if settled { rows := rows[job.id := CompletedRow(job.id, rows[job.id], now)]; }
    }

    method Fail(job: Handle, error: string, now: nat) returns (settled: bool)
      modifies this
      ensures Contents() == old(Contents()).(rows := Jobs.Fail(old(rows), job, error, now))
      ensures settled <==> Owns(old(rows), job, now)
      ensures !settled ==> rows == old(rows)
      ensures settled ==>
        && rows == old(rows)[job.id := old(rows)[job.id].(
             status := if job.attemptCount < job.maxAttempts then RetryableFailed else DeadLetter,
             availableAt := now + 1000 * RetryDelay(job.attemptCount), leasedBy := None, leasedUntil := None,
             lastError := Some(if |error| <= 500 then error else error[..500]), payload := rows[job.id].payload, updatedAt := now)]
        && (if job.attemptCount >= job.maxAttempts && job.id.jobType == IngestScreenshot
            then rows[job.id].payload.Keys == {"retentionRedacted", "redactedAt", "reason"}
            else rows[job.id].payload == old(rows)[job.id].payload)
    {
      var terminal := job.attemptCount >= job.maxAttempts;
      var delay := RetryDelay(job.attemptCount);
      settled := Valid(rows, job, now);
      if settled { rows := rows[job.id := FailedRow(job.id, rows[job.id], terminal, delay, error, now)]; }
    }
  }

  // What the contracts above say of rows, column by column.

  /** Waiting and due, or abandoned by a worker whose lease ran out while attempts are left. */
  ghost predicate IsFree(row: Row, now: nat) {
    || ((row.status == Queued || row.status == RetryableFailed) && row.availableAt <= now
        && (row.leasedUntil.Some? ==> row.leasedUntil.value < now))
    || (row.status == Running && row.leasedUntil.Some? && row.leasedUntil.value < now && row.attemptCount < row.maxAttempts)
  }

  /** The tenant served longest ago (never is longest), then the lowest priority number, then the oldest row. */
  ghost predicate ComesFirst(rows: Rows, lastLeased: map<TenantId, nat>, a: JobId, b: JobId)
    requires b in rows
  {
    var ta := if a.tenant in lastLeased then lastLeased[a.tenant] else 0;
    var tb := if b.tenant in lastLeased then lastLeased[b.tenant] else 0;
    a in rows && ta <= tb && (ta == tb ==>
      rows[a].priority <= rows[b].priority && (rows[a].priority == rows[b].priority ==> rows[a].createdAt <= rows[b].createdAt))
  }

  /** One row across cancelPending: cancelled when it is pending and has every value of the pattern, else untouched. */
  ghost predicate CancelledIfPending(
    id: JobId, before: Row, after: Row, tenant: TenantId, jobType: JobType, pattern: map<string, string>, now: nat)
  {
    if id.tenant == tenant && id.jobType == jobType && (before.status == Queued || before.status == RetryableFailed)
       && forall k | k in pattern :: k in before.payload && before.payload[k] == Str(pattern[k])
    then
      && after == before.(status := Cancelled, leasedBy := None, leasedUntil := None, payload := after.payload,
                          lastError := Some("Cancelled by connector revocation"), updatedAt := now)
      && after.payload == if jobType == IngestScreenshot then RedactedPayload(now) else before.payload
    else after == before
  }

  /** One row across leaseNext: dead-lettered when the lease of its final attempt has run out, else untouched. */
  ghost predicate DeadIfAbandoned(id: JobId, before: Row, after: Row, now: nat) {
    if before.status == Running && before.leasedUntil.Some? && before.leasedUntil.value < now && before.attemptCount >= before.maxAttempts
    then
      && after == before.(status := DeadLetter, leasedBy := None, leasedUntil := None, payload := after.payload,
                          lastError := Some("Worker lease expired after final attempt"), updatedAt := now)
      && after.payload == if id.jobType == IngestScreenshot then RedactedPayload(now) else before.payload
    else after == before
  }

  lemma CancelOneRow(id: JobId, row: Row, tenant: TenantId, jobType: JobType, pattern: map<string, string>, now: nat)
    ensures
      var selected := Cancellable(id, row, tenant, jobType, pattern);
      var after := if selected then CancelledRow(id, row, now) else row;
      CancelledIfPending(id, row, after, tenant, jobType, pattern, now) && (selected <==> row.status != Cancelled && after.status == Cancelled)
  {
  }

  lemma CancelledRows(rows: Rows, tenant: TenantId, jobType: JobType, pattern: map<string, string>, now: nat)
    ensures
      var after := Jobs.CancelPending(rows, tenant, jobType, pattern, now);
      && after.Keys == rows.Keys
      && (forall id | id in after :: CancelledIfPending(id, rows[id], after[id], tenant, jobType, pattern, now))
      && Selected(rows, tenant, jobType, pattern) == set id | id in after && rows[id].status != Cancelled && after[id].status == Cancelled
  {
    forall id | id in rows
      ensures
        var selected := Cancellable(id, rows[id], tenant, jobType, pattern);
        var after := if selected then CancelledRow(id, rows[id], now) else rows[id];
        CancelledIfPending(id, rows[id], after, tenant, jobType, pattern, now) && (selected <==> rows[id].status != Cancelled && after.status == Cancelled)
    {
      CancelOneRow(id, rows[id], tenant, jobType, pattern, now);
    }
    hide CancelledIfPending, Cancellable, CancelledRow;
  }

  lemma SweptRows(q: Queue, now: nat)
    ensures Sweep(q.rows, now).Keys == q.rows.Keys
    ensures forall id | id in q.rows :: DeadIfAbandoned(id, q.rows[id], Sweep(q.rows, now)[id], now)
    ensures forall id | id in q.rows :: Ready(Sweep(q.rows, now)[id], now) <==> IsFree(q.rows[id], now)
    ensures forall id | id in q.rows && IsFree(q.rows[id], now) :: Sweep(q.rows, now)[id] == q.rows[id]
  {
  }

  lemma NextComesFirst(q: Queue, id: JobId, now: nat)
    requires IsNext(Swept(q, now), id, now)
    ensures forall j | j in q.rows && IsFree(q.rows[j], now) :: ComesFirst(q.rows, q.lastLeased, id, j)
  {
    SweptRows(q, now);
    hide Sweep, DeadIfAbandoned;
    forall j | j in q.rows && IsFree(q.rows[j], now)
      ensures ComesFirst(q.rows, q.lastLeased, id, j)
    {
      assert Before(Swept(q, now), id, j);
    }
  }

  /** The job is running for the worker and until the very time that the handle records, and that time has not come. */
  ghost predicate Owns(rows: Rows, job: Handle, now: nat) {
    && job.id in rows && rows[job.id].status == Running && job.leasedBy.Some? && job.leasedUntil.Some?
    && rows[job.id].leasedBy == job.leasedBy && rows[job.id].leasedUntil == job.leasedUntil && now < job.leasedUntil.value
  }

  /** The table while some of the selected rows have been cancelled. */
  function CancelSome(rows: Rows, done: set<JobId>, now: nat): Rows {
    map id | id in rows :: if id in done then CancelledRow(id, rows[id], now) else rows[id]
  }

  function Selected(rows: Rows, tenant: TenantId, jobType: JobType, pattern: map<string, string>): set<JobId> {
    set id | id in rows && Cancellable(id, rows[id], tenant, jobType, pattern)
  }

  lemma SelectedArePending(rows: Rows, tenant: TenantId, jobType: JobType, pattern: map<string, string>, now: nat)
    ensures Selected(rows, tenant, jobType, pattern) <= rows.Keys
    ensures forall id | id in Selected(rows, tenant, jobType, pattern) :: Pending(rows[id])
    ensures CancelSome(rows, {}, now) == rows
    ensures CancelSome(rows, Selected(rows, tenant, jobType, pattern), now) == CancelPending(rows, tenant, jobType, pattern, now)
  {
  }

  lemma CancelOneMore(rows: Rows, done: set<JobId>, id: JobId, now: nat)
    requires id in rows && id !in done
    ensures CancelSome(rows, done, now)[id] == rows[id]
    ensures CancelSome(rows, done + {id}, now) == CancelSome(rows, done, now)[id := CancelledRow(id, rows[id], now)]
  {
  }
}
