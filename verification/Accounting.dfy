/**
 What a whole run does to one job: how often it is leased, which payload its
 workers see, where its life ends, and that both databases settle it alike.
 */
module Accounting {
  import opened Prelude
  import opened Jobs
  import opened QueueRuns

  /** Step `k` writes a fresh row for `id`: an enqueue that takes effect or an erasure that queues it. */
  predicate Requeues(r: Run, k: nat, id: JobId)
    requires k < |r.steps| && |r.worlds| == |r.steps| + 1
  {
    match r.steps[k].event
    case Enqueueing(input) => input.id == id && TakesEffect(r.worlds[k].queue.rows, id)
    case Erasing(t, u, op, orgs) => exists o | o in orgs :: id == ReconcileId(t, u, op, o)
    case _ => false
  }

  /** Leases of `id` among the first `n` steps since it was last queued. */
  function LeasesSince(r: Run, id: JobId, n: nat): nat
    requires n <= |r.steps| && |r.worlds| == |r.steps| + 1
  {
    if n == 0 || Requeues(r, n - 1, id) then 0
    else LeasesSince(r, id, n - 1) + if r.steps[n - 1].event.Leasing? && r.steps[n - 1].event.id == id then 1 else 0
  }

  /** The payload given by the call that last queued `id`. */
  function QueuedPayload(r: Run, id: JobId, n: nat): Payload
    requires n <= |r.steps| && |r.worlds| == |r.steps| + 1
  {
    if n == 0 then map[]
    else if Requeues(r, n - 1, id) then
      if r.steps[n - 1].event.Enqueueing? then r.steps[n - 1].event.input.payload
      else if id.key.PrivacyKey? then ReconcilePayload(id.key.org) else map[]
    else QueuedPayload(r, id, n - 1)
  }

  predicate Live(s: Status) { s == Queued || s == Running || s == RetryableFailed }

  /** A step that does not queue the row afresh moves its attempt count by the leases it grants. */
  lemma StepKeepsCount(w: World, s: Step, id: JobId)
    requires Enabled(w, s) && id in After(w, s).queue.rows
    requires s.event.Enqueueing? && s.event.input.id == id ==> !TakesEffect(w.queue.rows, id)
    requires s.event.Erasing? ==> forall o | o in s.event.orgs :: id != ReconcileId(s.event.eraseTenant, s.event.user, s.event.operation, o)
    ensures id in w.queue.rows
    ensures After(w, s).queue.rows[id].maxAttempts == w.queue.rows[id].maxAttempts
    ensures After(w, s).queue.rows[id].attemptCount
         == w.queue.rows[id].attemptCount + if s.event.Leasing? && s.event.id == id then 1 else 0
  {
  }

  lemma StepKeepsPayload(w: World, s: Step, id: JobId)
    requires Enabled(w, s) && id in w.queue.rows && id in After(w, s).queue.rows
    requires s.event.Enqueueing? && s.event.input.id == id ==> !TakesEffect(w.queue.rows, id)
    requires s.event.Erasing? ==> forall o | o in s.event.orgs :: id != ReconcileId(s.event.eraseTenant, s.event.user, s.event.operation, o)
    requires Live(After(w, s).queue.rows[id].status)
    ensures Live(w.queue.rows[id].status) && After(w, s).queue.rows[id].payload == w.queue.rows[id].payload
  {
  }

  lemma RequeueStartsOver(r: Run, k: nat, id: JobId)
    requires ValidRun(r) && k < |r.steps| && Requeues(r, k, id)
    ensures id in r.worlds[k + 1].queue.rows
    ensures r.worlds[k + 1].queue.rows[id].attemptCount == 0
    ensures r.worlds[k + 1].queue.rows[id].status == Queued
    ensures r.worlds[k + 1].queue.rows[id].payload == QueuedPayload(r, id, k + 1)
  {
    assert r.worlds[k + 1] == After(r.worlds[k], r.steps[k]);
  }

  /** The attempt counter is the number of leases since the job was last queued, and a live row keeps the payload it was queued with. */
  lemma {:induction false} RowTellsHistory(r: Run, id: JobId, n: nat)
    requires ValidRun(r) && n <= |r.steps| && id in r.worlds[n].queue.rows
    ensures r.worlds[n].queue.rows[id].attemptCount == LeasesSince(r, id, n)
    ensures Live(r.worlds[n].queue.rows[id].status) ==> r.worlds[n].queue.rows[id].payload == QueuedPayload(r, id, n)
  {
    if n > 0 {
      if Requeues(r, n - 1, id) {
        RequeueStartsOver(r, n - 1, id);
      } else {
        assert r.worlds[n - 1 + 1] == After(r.worlds[n - 1], r.steps[n - 1]);
        StepKeepsCount(r.worlds[n - 1], r.steps[n - 1], id);
        if Live(r.worlds[n].queue.rows[id].status) { StepKeepsPayload(r.worlds[n - 1], r.steps[n - 1], id); }
        RowTellsHistory(r, id, n - 1);
      }
    }
  }

  /** Between two queueings a job is leased at most `maxAttempts` times (once if that is not positive). */
  lemma LeasesBounded(r: Run, id: JobId, n: nat)
    requires ValidRun(r) && n <= |r.steps| && id in r.worlds[n].queue.rows
    ensures LeasesSince(r, id, n) <= Max(1, r.worlds[n].queue.rows[id].maxAttempts)
  {
    RowTellsHistory(r, id, n);
    InvAlways(r, n);
    assert RowOk(id, r.worlds[n].queue.rows[id]);
  }

  /** A granted lease hands over the payload the job was last queued with, and uses up one of the attempts left. */
  lemma LeaseHandsOver(r: Run, k: nat)
    requires ValidRun(r) && k < |r.steps| && r.steps[k].event.Leasing?
    ensures
      var id := r.steps[k].event.id;
      var h := Returned(r.worlds[k], r.steps[k]).value;
      && h.payload == QueuedPayload(r, id, k)
      && h.attemptCount == LeasesSince(r, id, k) + 1 <= Max(1, h.maxAttempts)
      && Live(r.worlds[k].queue.rows[id].status)
  {
    var w, s := r.worlds[k], r.steps[k];
    var id := s.event.id;
    assert Enabled(w, s);
    assert Swept(w.queue, s.now).rows[id] == w.queue.rows[id];
    RowTellsHistory(r, id, k);
    LeasesBounded(r, id, k + 1);
    assert r.worlds[k + 1] == After(w, s);
    RowTellsHistory(r, id, k + 1);
  }

  /** The step erases the user that the payload names. */
  predicate ErasesOwner(s: Step, id: JobId, p: Payload) {
    s.event.Erasing? && s.event.eraseTenant == id.tenant && OwnedByUser(p, s.event.user)
  }

  lemma StepKeepsTerminal(w: World, s: Step, id: JobId)
    requires Enabled(w, s) && id in w.queue.rows && Terminal(w.queue.rows[id].status) && !ErasesOwner(s, id, w.queue.rows[id].payload)
    ensures id in After(w, s).queue.rows && After(w, s).queue.rows[id] == w.queue.rows[id]
  {
    if s.event.Erasing? { assert id in WithoutUserJobs(w.queue.rows, s.event.eraseTenant, s.event.user); }
  }

  /** A job that succeeded or was dead-lettered is never changed again, unless the user that its payload names is erased. */
  lemma {:induction false} TerminalIsAbsorbing(r: Run, id: JobId, m: nat, n: nat)
    requires ValidRun(r) && m <= n <= |r.steps|
    requires id in r.worlds[m].queue.rows && Terminal(r.worlds[m].queue.rows[id].status)
    requires forall k | m <= k < n :: !ErasesOwner(r.steps[k], id, r.worlds[m].queue.rows[id].payload)
    ensures id in r.worlds[n].queue.rows && r.worlds[n].queue.rows[id] == r.worlds[m].queue.rows[id]
    decreases n - m
  {
    if m < n {
      TerminalIsAbsorbing(r, id, m, n - 1);
      assert r.worlds[n - 1 + 1] == After(r.worlds[n - 1], r.steps[n - 1]);
      StepKeepsTerminal(r.worlds[n - 1], r.steps[n - 1], id);
    }
  }

  // ------------------------------------------------------- the life of a row

  predicate LeaseIsOver(row: Row, now: nat) { row.status == Running && row.leasedUntil.Some? && row.leasedUntil.value < now }

  predicate LeaseIsLive(row: Row, now: nat) { row.status == Running && row.leasedUntil.Some? && now < row.leasedUntil.value }

  /** What moves a row into the status that it has after a step, and from where. */
  predicate MayBecome(before: Option<Row>, after: Row, id: JobId, s: Step) {
    var e, now := s.event, s.now;
    match after.status
    case Queued =>
      || (e.Enqueueing? && e.input.id == id && (before.None? || before.value.status == Cancelled))
      || (e.Erasing? && id.jobType == PrivacyReconcile && id.tenant == e.eraseTenant)
    case Running =>
      before.Some? && var row := before.value;
      || (e.Leasing? && e.id == id && (
            || ((row.status == Queued || row.status == RetryableFailed) && row.availableAt <= now)
            || (LeaseIsOver(row, now) && row.attemptCount < row.maxAttempts)))
      || (e.Renewing? && e.handle.id == id && LeaseIsLive(row, now))
    case RetryableFailed =>
      && e.Failing? && e.handle.id == id
      && before.Some? && LeaseIsLive(before.value, now) && before.value.attemptCount < before.value.maxAttempts
    case Succeeded => e.Completing? && e.handle.id == id && before.Some? && LeaseIsLive(before.value, now)
    case DeadLetter =>
      before.Some? && before.value.attemptCount >= before.value.maxAttempts && (
        || ((e.Leasing? || e.LeasingNothing?) && LeaseIsOver(before.value, now))
        || (e.Failing? && e.handle.id == id && LeaseIsLive(before.value, now)))
    case Cancelled =>
      && e.Cancelling? && id.tenant == e.tenant && id.jobType == e.jobType
      && before.Some? && (before.value.status == Queued || before.value.status == RetryableFailed)
  }

  lemma HandleMoves(w: World, s: Step, id: JobId)
    requires Inv(w) && Enabled(w, s) && id in After(w, s).queue.rows
    requires s.event.Renewing? || s.event.Completing? || s.event.Failing?
    ensures id in w.queue.rows
    ensures After(w, s).queue.rows[id] == w.queue.rows[id] || MayBecome(Some(w.queue.rows[id]), After(w, s).queue.rows[id], id, s)
  {
    assert HandleOk(w, s.event.handle);
    hide RedactedPayload, ErrorText, RetryDelay;
  }

  lemma CancelMoves(w: World, s: Step, id: JobId)
    requires Enabled(w, s) && id in After(w, s).queue.rows && s.event.Cancelling?
    ensures id in w.queue.rows
    ensures After(w, s).queue.rows[id] == w.queue.rows[id] || MayBecome(Some(w.queue.rows[id]), After(w, s).queue.rows[id], id, s)
  {
    hide RedactedPayload, MatchesPattern;
  }

  /** leaseNext on the rows that it does not lease. */
  lemma SweepMoves(w: World, s: Step, id: JobId)
    requires Enabled(w, s) && id in w.queue.rows && (s.event.Leasing? || s.event.LeasingNothing?)
    requires !(s.event.Leasing? && s.event.id == id)
    ensures
      var row, rows' := w.queue.rows[id], After(w, s).queue.rows;
      && id in rows'
      && (LeaseIsOver(row, s.now) && row.attemptCount >= row.maxAttempts ==>
            rows'[id].status == DeadLetter && rows'[id].leasedBy == None && rows'[id].leasedUntil == None)
      && (!(LeaseIsOver(row, s.now) && row.attemptCount >= row.maxAttempts) ==> rows'[id] == row)
  {
    hide RedactedPayload, Before, NoneReady;
  }

  /** leaseNext on the row that it leases. */
  lemma LeaseMoves(w: World, s: Step, id: JobId)
    requires Enabled(w, s) && id in w.queue.rows && s.event.Leasing? && s.event.id == id
    ensures id in After(w, s).queue.rows && MayBecome(Some(w.queue.rows[id]), After(w, s).queue.rows[id], id, s)
  {
    hide RedactedPayload, Before, NoneReady;
  }

  /** enqueue and erasures, which write fresh rows. */
  lemma WriteMoves(w: World, s: Step, id: JobId)
    requires Enabled(w, s) && id in After(w, s).queue.rows && (s.event.Enqueueing? || s.event.Erasing?)
    ensures
      var before := if id in w.queue.rows then Some(w.queue.rows[id]) else None;
      before == Some(After(w, s).queue.rows[id]) || MayBecome(before, After(w, s).queue.rows[id], id, s)
  {
  }

  lemma LeaseAddsNoRow(w: World, s: Step)
    requires Enabled(w, s) && (s.event.Leasing? || s.event.LeasingNothing?)
    ensures After(w, s).queue.rows.Keys == w.queue.rows.Keys
  {
    hide Before, NoneReady, DeadLettered;
  }

  lemma StepMoves(w: World, s: Step, id: JobId)
    requires Inv(w) && Enabled(w, s) && id in After(w, s).queue.rows
    ensures
      var before := if id in w.queue.rows then Some(w.queue.rows[id]) else None;
      var after := After(w, s).queue.rows[id];
      before == Some(after) || MayBecome(before, after, id, s)
  {
    hide After, Enabled, Inv;
    if s.event.Enqueueing? || s.event.Erasing? {
      WriteMoves(w, s, id);
    } else if s.event.Renewing? || s.event.Completing? || s.event.Failing? {
      HandleMoves(w, s, id);
    } else if s.event.Cancelling? {
      CancelMoves(w, s, id);
    } else {
      LeaseAddsNoRow(w, s);
      if s.event.Leasing? && s.event.id == id { LeaseMoves(w, s, id); } else { SweepMoves(w, s, id); }
    }
  }

  /** Every step of every run leaves a row alone or moves it along one of the edges of its life. */
  lemma EveryMoveIsAllowed(r: Run, k: nat, id: JobId)
    requires ValidRun(r) && k < |r.steps| && id in r.worlds[k + 1].queue.rows
    ensures
      var rows, after := r.worlds[k].queue.rows, r.worlds[k + 1].queue.rows[id];
      var before := if id in rows then Some(rows[id]) else None;
      before == Some(after) || MayBecome(before, after, id, r.steps[k])
  {
    InvAlways(r, k);
    assert r.worlds[k + 1] == After(r.worlds[k], r.steps[k]);
    StepMoves(r.worlds[k], r.steps[k], id);
  }

  /** A row disappears only with the user that its payload names. */
  lemma OnlyErasureDeletes(r: Run, k: nat, id: JobId)
    requires ValidRun(r) && k < |r.steps| && id in r.worlds[k].queue.rows && id !in r.worlds[k + 1].queue.rows
    ensures
      var e, p := r.steps[k].event, r.worlds[k].queue.rows[id].payload;
      e.Erasing? && id.tenant == e.eraseTenant && "userId" in p && p["userId"] == Str(e.user)
  {
    assert r.worlds[k + 1] == After(r.worlds[k], r.steps[k]);
  }

  /**
   Whether or not it grants a lease, a call of leaseNext dead-letters exactly the rows whose
   final attempt has run out of lease, and apart from the row it leases it touches no other.
   */
  lemma AbandonedAttemptsDie(r: Run, k: nat, id: JobId)
    requires ValidRun(r) && k < |r.steps| && (r.steps[k].event.Leasing? || r.steps[k].event.LeasingNothing?)
    requires id in r.worlds[k].queue.rows && !(r.steps[k].event.Leasing? && r.steps[k].event.id == id)
    ensures
      var row, rows' := r.worlds[k].queue.rows[id], r.worlds[k + 1].queue.rows;
      && id in rows'
      && (LeaseIsOver(row, r.steps[k].now) && row.attemptCount >= row.maxAttempts ==>
            rows'[id].status == DeadLetter && rows'[id].leasedBy == None && rows'[id].leasedUntil == None)
      && (!(LeaseIsOver(row, r.steps[k].now) && row.attemptCount >= row.maxAttempts) ==> rows'[id] == row)
  {
    assert r.worlds[k + 1] == After(r.worlds[k], r.steps[k]);
    SweepMoves(r.worlds[k], r.steps[k], id);
  }

  /** In every reachable state a lease is held exactly by running rows and nothing is left of the payload of a finished screenshot job but a note. */
  lemma RowsAlwaysOk(r: Run, id: JobId, n: nat)
    requires ValidRun(r) && n <= |r.steps| && id in r.worlds[n].queue.rows
    ensures
      var row := r.worlds[n].queue.rows[id];
      && (row.status == Running <==> row.leasedBy.Some? && row.leasedUntil.Some?)
      && (row.status != Running <==> row.leasedBy.None? && row.leasedUntil.None?)
      && (id.jobType == IngestScreenshot && (row.status == Succeeded || row.status == DeadLetter || row.status == Cancelled) ==>
            row.payload.Keys == {"retentionRedacted", "redactedAt", "reason"})
      && (row.maxAttempts >= 1 ==> row.attemptCount <= row.maxAttempts)
  {
    InvAlways(r, n);
    assert RowOk(id, r.worlds[n].queue.rows[id]);
  }

  /**
   SQLite decides a failure from the handle, Postgres from the row.  For every handle
   ever issued they leave the same row, except that SQLite also moves the availability
   of a row it dead-letters.
   */
  lemma TwinsSettleAlike(r: Run, n: nat, h: Handle, error: string, now: nat)
    requires ValidRun(r) && n <= |r.steps| && h in r.worlds[n].issued
    ensures
      var rows := r.worlds[n].queue.rows;
      var sqlite := Fail(rows, h, error, now);
      var postgres := FinishJob(rows, h, Some(error), now);
      && FinishJob(rows, h, None, now) == Complete(rows, h, now)
      && (if Valid(rows, h, now) && sqlite[h.id].status == DeadLetter
          then postgres == sqlite[h.id := sqlite[h.id].(availableAt := rows[h.id].availableAt)]
          else postgres == sqlite)
  {
    InvAlways(r, n);
    assert HandleOk(r.worlds[n], h);
  }
}
