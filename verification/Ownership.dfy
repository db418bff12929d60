/**
 Who holds a job over a whole run.  A handle is carried from a lease when it is
 the handle that leaseNext returned or was obtained from it by renewals.
 */
module Ownership {
  import opened Prelude
  import opened Jobs
  import opened QueueRuns

  predicate LeasesJob(r: Run, k: nat, id: JobId)
    requires k < |r.steps|
  {
    r.steps[k].event.Leasing? && r.steps[k].event.id == id
  }

  /** Step `k` is a complete or a fail that the queue accepts. */
  predicate SettledBy(r: Run, k: nat, h: Handle)
    requires k < |r.steps| && |r.worlds| == |r.steps| + 1
  {
    && (r.steps[k].event.Completing? || r.steps[k].event.Failing?)
    && r.steps[k].event.handle == h
    && Valid(r.worlds[k].queue.rows, h, r.steps[k].now)
  }

  predicate SettlesJob(r: Run, k: nat, id: JobId)
    requires k < |r.steps| && |r.worlds| == |r.steps| + 1
  {
    && (r.steps[k].event.Completing? || r.steps[k].event.Failing?)
    && r.steps[k].event.handle.id == id && SettledBy(r, k, r.steps[k].event.handle)
  }

  /** `h` is known after the first `n` steps and comes from the lease at step `i` through renewals. */
  ghost predicate Carried(r: Run, i: nat, h: Handle, n: nat)
    requires ValidRun(r) && n <= |r.steps|
    decreases n
  {
    i < n && (
      || (i == n - 1 && r.steps[i].event.Leasing? && Returned(r.worlds[i], r.steps[i]) == Some(h))
      || Carried(r, i, h, n - 1)
      || (r.steps[n - 1].event.Renewing? && Returned(r.worlds[n - 1], r.steps[n - 1]) == Some(h)
          && Carried(r, i, r.steps[n - 1].event.handle, n - 1)))
  }

  /** After step `k` the row of `h` is running the attempt and for the worker recorded in `h`. */
  predicate HeldAt(r: Run, k: nat, h: Handle)
    requires k < |r.worlds|
  {
    var rows := r.worlds[k].queue.rows;
    && h.id in rows && rows[h.id].status == Running
    && rows[h.id].leasedBy == h.leasedBy && rows[h.id].attemptCount == h.attemptCount
  }

  lemma {:induction false} CarriedIsIssued(r: Run, i: nat, h: Handle, n: nat)
    requires ValidRun(r) && n <= |r.steps| && Carried(r, i, h, n)
    ensures h in r.worlds[n].issued
    ensures h.leasedUntil.Some?
    decreases n
  {
    var w, s := r.worlds[n - 1], r.steps[n - 1];
    assert r.worlds[n - 1 + 1] == After(w, s);
    if i < n - 1 && Carried(r, i, h, n - 1) { CarriedIsIssued(r, i, h, n - 1); }
    InvAlways(r, n);
    assert HandleOk(r.worlds[n], h);
  }

  lemma HoldsMeansHeldAt(r: Run, i: nat, h: Handle, n: nat)
    requires ValidRun(r) && n <= |r.steps| && Carried(r, i, h, n) && Holds(r.worlds[n].queue.rows, h)
    ensures HeldAt(r, n, h)
  {
    InvAlways(r, n);
    CarriedIsIssued(r, i, h, n);
    assert HandleOk(r.worlds[n], h);
  }

  lemma HeldBefore(r: Run, i: nat, h: Handle, n: nat)
    requires ValidRun(r) && n < |r.steps| && Carried(r, i, h, n) && Holds(r.worlds[n + 1].queue.rows, h)
    ensures Holds(r.worlds[n].queue.rows, h)
  {
    assert r.worlds[n + 1] == After(r.worlds[n], r.steps[n]);
    InvAlways(r, n);
    CarriedIsIssued(r, i, h, n);
    assert HandleOk(r.worlds[n], h);
    HeldBeforeStep(r.worlds[n], r.steps[n], h);
  }

  /** The heart of the fencing argument: a carried handle that still holds its row has held it ever since its lease. */
  lemma {:induction false} HeldSinceLease(r: Run, i: nat, h: Handle, n: nat)
    requires ValidRun(r) && n <= |r.steps| && Carried(r, i, h, n)
    requires Holds(r.worlds[n].queue.rows, h)
    ensures forall k | i < k <= n :: HeldAt(r, k, h)
    decreases n
  {
    HoldsMeansHeldAt(r, i, h, n);
    if Carried(r, i, h, n - 1) {
      HeldBefore(r, i, h, n - 1);
      HeldSinceLease(r, i, h, n - 1);
    } else if i < n - 1 {
      var previous := r.steps[n - 1].event.handle;
      HeldSinceLease(r, i, previous, n - 1);
      forall k | i < k < n
        ensures HeldAt(r, k, h)
      {
        assert HeldAt(r, k, previous);
      }
    }
  }

  /** A step that leases a job raises its attempt count, so a constant attempt count excludes leases. */
  lemma HeldMeansUntouched(r: Run, k: nat, h: Handle)
    requires ValidRun(r) && k < |r.steps| && HeldAt(r, k, h) && HeldAt(r, k + 1, h)
    ensures !LeasesJob(r, k, h.id)
    ensures !SettlesJob(r, k, h.id)
  {
    assert r.worlds[k + 1] == After(r.worlds[k], r.steps[k]);
  }

  /**
   If a settlement is accepted, its worker held the job without a break since the
   lease its handle comes from: nobody was leased the job and nobody settled it in between.
   */
  lemma ExclusiveOwnership(r: Run, i: nat, h: Handle, j: nat)
    requires ValidRun(r) && j < |r.steps| && Carried(r, i, h, j) && SettledBy(r, j, h)
    ensures forall k | i < k <= j :: HeldAt(r, k, h)
    ensures forall k | i < k < j :: !LeasesJob(r, k, h.id)
    ensures forall k | i < k < j :: !SettlesJob(r, k, h.id)
  {
    HeldSinceLease(r, i, h, j);
    forall k | i < k < j
      ensures !LeasesJob(r, k, h.id)
      ensures !SettlesJob(r, k, h.id)
    {
      assert HeldAt(r, k, h) && HeldAt(r, k + 1, h);
      HeldMeansUntouched(r, k, h);
    }
  }

  lemma {:induction false} CarriedKeepsId(r: Run, i: nat, h: Handle, n: nat)
    requires ValidRun(r) && n <= |r.steps| && Carried(r, i, h, n)
    ensures r.steps[i].event.Leasing? && r.steps[i].event.id == h.id
    decreases n
  {
    if i == n - 1 && r.steps[i].event.Leasing? && Returned(r.worlds[i], r.steps[i]) == Some(h) {
    } else if Carried(r, i, h, n - 1) {
      CarriedKeepsId(r, i, h, n - 1);
    } else {
      CarriedKeepsId(r, i, r.steps[n - 1].event.handle, n - 1);
    }
  }

  /** Whatever becomes of the handles of one lease, at most one of them ever settles the job, and only once. */
  lemma SettledAtMostOnce(r: Run, i: nat, g: Handle, j: nat, h: Handle, k: nat)
    requires ValidRun(r) && j < |r.steps| && k < |r.steps|
    requires Carried(r, i, g, j) && SettledBy(r, j, g)
    requires Carried(r, i, h, k) && SettledBy(r, k, h)
    ensures j == k
  {
    CarriedKeepsId(r, i, g, j);
    CarriedKeepsId(r, i, h, k);
    assert SettlesJob(r, j, g.id) && SettlesJob(r, k, h.id);
    if j < k { ExclusiveOwnership(r, i, h, k); }
    if k < j { ExclusiveOwnership(r, i, g, j); }
  }

  /** Two accepted settlements of one job, wherever their handles come from, have a lease of that job between them. */
  lemma LeaseBetweenSettlements(r: Run, i: nat, g: Handle, j: nat, i': nat, h: Handle, k: nat)
    requires ValidRun(r) && j < k < |r.steps| && g.id == h.id
    requires Carried(r, i, g, j) && SettledBy(r, j, g)
    requires Carried(r, i', h, k) && SettledBy(r, k, h)
    ensures j < i' < k && LeasesJob(r, i', h.id)
  {
    CarriedKeepsId(r, i', h, k);
    ExclusiveOwnership(r, i', h, k);
    assert SettlesJob(r, j, g.id);
  }

  /** Every handle that the queue ever gave out comes from a lease. */
  lemma {:induction false} IssuedIsCarried(r: Run, h: Handle, n: nat) returns (i: nat)
    requires ValidRun(r) && n <= |r.steps| && h in r.worlds[n].issued
    ensures Carried(r, i, h, n)
    decreases n
  {
    assert n > 0;
    assert r.worlds[n - 1 + 1] == After(r.worlds[n - 1], r.steps[n - 1]);
    if h in r.worlds[n - 1].issued {
      i := IssuedIsCarried(r, h, n - 1);
    } else if r.steps[n - 1].event.Leasing? {
      i := n - 1;
    } else {
      i := IssuedIsCarried(r, r.steps[n - 1].event.handle, n - 1);
    }
  }

  lemma SettlementIsCarried(r: Run, k: nat, id: JobId) returns (i: nat)
    requires ValidRun(r) && k < |r.steps| && SettlesJob(r, k, id)
    ensures Carried(r, i, r.steps[k].event.handle, k)
  {
    assert Enabled(r.worlds[k], r.steps[k]);
    i := IssuedIsCarried(r, r.steps[k].event.handle, k);
  }

  /**
   Of any handles whatsoever: an accepted settlement ends an unbroken hold since a lease
   of the job, during which nobody else was leased the job or settled it.
   */
  lemma EverySettlementEndsItsLease(r: Run, k: nat, id: JobId) returns (i: nat)
    requires ValidRun(r) && k < |r.steps| && SettlesJob(r, k, id)
    ensures i < k && LeasesJob(r, i, id)
    ensures forall m | i < m <= k :: HeldAt(r, m, r.steps[k].event.handle)
    ensures forall m | i < m < k :: !LeasesJob(r, m, id) && !SettlesJob(r, m, id)
  {
    var h := r.steps[k].event.handle;
    i := SettlementIsCarried(r, k, id);
    CarriedKeepsId(r, i, h, k);
    ExclusiveOwnership(r, i, h, k);
  }

  /** So no attempt is ever settled twice: between any two accepted settlements of a job it is leased again. */
  lemma NoAttemptSettledTwice(r: Run, j: nat, k: nat, id: JobId)
    requires ValidRun(r) && j < k < |r.steps| && SettlesJob(r, j, id) && SettlesJob(r, k, id)
    ensures exists i :: j < i < k && LeasesJob(r, i, id)
  {
    var i := EverySettlementEndsItsLease(r, k, id);
    assert j < i < k && LeasesJob(r, i, id);
  }

  /** Once the queue would refuse an issued handle, it refuses it for ever: no later step makes it valid again. */
  lemma {:induction false} RefusedForever(r: Run, h: Handle, m: nat, n: nat, now: nat)
    requires ValidRun(r) && m <= n <= |r.steps| && h in r.worlds[m].issued
    requires !Valid(r.worlds[m].queue.rows, h, r.worlds[m].clock) && r.worlds[n].clock <= now
    ensures h in r.worlds[n].issued && !Valid(r.worlds[n].queue.rows, h, now)
    decreases n - m
  {
    if m < n {
      assert r.worlds[n - 1 + 1] == After(r.worlds[n - 1], r.steps[n - 1]);
      RefusedForever(r, h, m, n - 1, now);
      InvAlways(r, n - 1);
      assert HandleOk(r.worlds[n - 1], h);
      if Valid(r.worlds[n].queue.rows, h, now) { HeldBeforeStep(r.worlds[n - 1], r.steps[n - 1], h); }
    }
  }

  /**
   Why the clock must move on between grants.  With every step at the same instant a
   job can be leased, failed, cancelled, queued again and leased again to the same
   worker, and the handle of the first attempt settles the second.
   */
  lemma StalledClockRepeatsToken(t: nat)
    ensures
      var id := JobId("t", OtherType("x"), ClientKey("k"));
      var input := EnqueueInput(id, map[], None, None, Some(t));
      var q0 := Queue(Enqueue(map[], input, t), map[]);
      var q1 := Lease(q0, id, "w", LEASE_MS, t);
      var first := HandleOf(id, q1.rows[id]);
      var q2 := q1.(rows := Fail(q1.rows, first, "e", t));
      var q3 := q2.(rows := CancelPending(q2.rows, "t", OtherType("x"), map[], t));
      var q4 := q3.(rows := Enqueue(q3.rows, input, t));
      var q5 := Lease(q4, id, "w", LEASE_MS, t);
      && IsNext(Swept(q0, t), id, t) && Valid(q1.rows, first, t)
      && IsNext(Swept(q4, t), id, t) && Valid(q5.rows, first, t)
  {
    var id := JobId("t", OtherType("x"), ClientKey("k"));
    var input := EnqueueInput(id, map[], None, None, Some(t));
    var q0 := Queue(Enqueue(map[], input, t), map[]);
    assert Ready(Swept(q0, t).rows[id], t);
    var q1 := Lease(q0, id, "w", LEASE_MS, t);
    var first := HandleOf(id, q1.rows[id]);
    assert Valid(q1.rows, first, t);
    var q2 := q1.(rows := Fail(q1.rows, first, "e", t));
    assert q2.rows[id].status == RetryableFailed;
    var q3 := q2.(rows := CancelPending(q2.rows, "t", OtherType("x"), map[], t));
    assert q3.rows[id].status == Cancelled;
    var q4 := q3.(rows := Enqueue(q3.rows, input, t));
    assert q4.rows.Keys == {id} && q4.rows[id].status == Queued;
    assert Swept(q4, t).rows == q4.rows;
    assert Ready(Swept(q4, t).rows[id], t);
  }
}
